// Daily price records and candles.
module Prices {
  import opened Wrappers

  // Codes are strings; markets are tokens.
  datatype SecurityKey = SecurityKey(market: int, code: string)

  datatype Ohlc = Ohlc(open: Option<real>, high: Option<real>, low: Option<real>, close: Option<real>)

  // Source, timestamps, data status, revision and reason of a record.
  datatype Provenance = Provenance(
    sourceCode: int, asOf: int, receivedAt: int, dataStatus: int, sourceRevision: Option<int>,
    missingReason: Option<int>)

  datatype PriceValues = PriceValues(
    raw: Ohlc, adjusted: Ohlc, volume: Option<int>, turnover: Option<real>, provenance: Provenance)

  // A date as its proleptic Gregorian day number; day 1 is 1 January of year 1, a Monday.
  type Day = d: int | d >= 1 witness 1

  datatype DailyPriceRecord = DailyPriceRecord(security: SecurityKey, tradeDate: Day, values: PriceValues)

  datatype PriceBasis = RawBasis | AdjustedBasis

  // ---------------------------------------------------------------- scales

  // The nearest integer, ties away from zero.
  function Nearest(x: real): int {
    if x >= 0.0 then (x + 0.5).Floor else -(0.5 - x).Floor
  }

  // What Numeric(24, 8) and Numeric(28, 4) columns store.
  function EightDecimals(x: real): real {
    Nearest(x * 100000000.0) as real / 100000000.0
  }

  function FourDecimals(x: real): real {
    Nearest(x * 10000.0) as real / 10000.0
  }

  function StoredPrice(x: Option<real>): Option<real> {
    if x.Some? then Some(EightDecimals(x.value)) else None
  }

  function StoredAmount(x: Option<real>): Option<real> {
    if x.Some? then Some(FourDecimals(x.value)) else None
  }

  function StoredOhlc(o: Ohlc): Ohlc {
    Ohlc(StoredPrice(o.open), StoredPrice(o.high), StoredPrice(o.low), StoredPrice(o.close))
  }

  // The values as a row with them reads back.
  function StoredValues(v: PriceValues): PriceValues {
    PriceValues(StoredOhlc(v.raw), StoredOhlc(v.adjusted), v.volume, StoredAmount(v.turnover), v.provenance)
  }

  lemma {:induction false} NearestOfInteger(n: int)
    ensures Nearest(n as real) == n
  {
  }

  lemma {:induction false} NearestIsMonotone(x: real, y: real)
    requires x <= y
    ensures Nearest(x) <= Nearest(y)
  {
  }

  // Storing twice is storing once, and keeps the order of values.
  lemma {:induction false} EightDecimalsTwice(x: real)
    ensures EightDecimals(EightDecimals(x)) == EightDecimals(x)
  {
    NearestOfInteger(Nearest(x * 100000000.0));
  }

  lemma {:induction false} FourDecimalsTwice(x: real)
    ensures FourDecimals(FourDecimals(x)) == FourDecimals(x)
  {
    NearestOfInteger(Nearest(x * 10000.0));
  }

  lemma {:induction false} EightDecimalsMonotone(x: real, y: real)
    requires x <= y
    ensures EightDecimals(x) <= EightDecimals(y)
  {
    NearestIsMonotone(x * 100000000.0, y * 100000000.0);
  }

  lemma {:induction false} StoredPriceTwice(x: Option<real>)
    ensures StoredPrice(StoredPrice(x)) == StoredPrice(x)
  {
    if x.Some? {
      EightDecimalsTwice(x.value);
    }
  }

  lemma {:induction false} StoredAmountTwice(x: Option<real>)
    ensures StoredAmount(StoredAmount(x)) == StoredAmount(x)
  {
    if x.Some? {
      FourDecimalsTwice(x.value);
    }
  }

  lemma {:induction false} StoredOhlcTwice(o: Ohlc)
    ensures StoredOhlc(StoredOhlc(o)) == StoredOhlc(o)
  {
    StoredPriceTwice(o.open);
    StoredPriceTwice(o.high);
    StoredPriceTwice(o.low);
    StoredPriceTwice(o.close);
  }

  lemma {:induction false} StoredTwice(v: PriceValues)
    ensures StoredValues(StoredValues(v)) == StoredValues(v)
  {
    StoredOhlcTwice(v.raw);
    StoredOhlcTwice(v.adjusted);
    StoredAmountTwice(v.turnover);
  }

  // ------------------------------------------------------------- validation

  predicate Traded(v: PriceValues) {
    v.raw.open.Some? && v.raw.high.Some? && v.raw.low.Some? && v.raw.close.Some?
  }

  predicate HasTrade(r: DailyPriceRecord) {
    Traded(r.values)
  }

  datatype PriceError = InvalidOhlc | NegativeVolume

  function MaxReal(a: real, b: real): real {
    if a < b then b else a
  }

  function MinReal(a: real, b: real): real {
    if b < a then b else a
  }

  function ValidateValues(v: PriceValues): Option<PriceError> {
    if !Traded(v) then None
    else
      var (open, high, low, close) := (v.raw.open.value, v.raw.high.value, v.raw.low.value, v.raw.close.value);
      if high < MaxReal(open, close) || low > MinReal(open, close) || high < low then Some(InvalidOhlc)
      else if v.volume.Some? && v.volume.value < 0 then Some(NegativeVolume)
      else None
  }

  function ValidatePrice(r: DailyPriceRecord): Option<PriceError> {
    ValidateValues(r.values)
  }

  // Storing keeps what validation promised: values that pass still pass when they are
  // read back in the scale of their columns.
  lemma {:induction false} StoringKeepsValidity(v: PriceValues)
    requires ValidateValues(v).None?
    ensures ValidateValues(StoredValues(v)).None? && (Traded(StoredValues(v)) <==> Traded(v))
  {
    if Traded(v) {
      var o := v.raw;
      EightDecimalsMonotone(o.open.value, o.high.value);
      EightDecimalsMonotone(o.close.value, o.high.value);
      EightDecimalsMonotone(o.low.value, o.open.value);
      EightDecimalsMonotone(o.low.value, o.close.value);
      EightDecimalsMonotone(o.low.value, o.high.value);
    }
  }
}
