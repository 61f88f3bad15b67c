// What a run of the daily price ingestion does, in terms of the fetched records, the table, the
// trading days and the known securities alone.
module IngestionMeanings {
  import opened Wrappers
  import opened Prices
  import opened Ingestion

  // ---------------------------------------------------------------- records

  // A record without a trade, or one whose range covers its open and close and whose volume
  // is not negative.
  predicate Coherent(v: PriceValues) {
    v.raw.open.Some? && v.raw.high.Some? && v.raw.low.Some? && v.raw.close.Some? ==>
      && v.raw.low.value <= v.raw.open.value <= v.raw.high.value
      && v.raw.low.value <= v.raw.close.value <= v.raw.high.value
      && (v.volume.Some? ==> v.volume.value >= 0)
  }

  // Coherent and on a trading day, if the trading days are known.
  predicate Passes(calendar: Calendar, r: DailyPriceRecord) {
    Coherent(r.values) && (calendar.None? || r.tradeDate in calendar.value)
  }

  lemma {:induction false} PassesIff(calendar: Calendar, r: DailyPriceRecord)
    ensures Acceptable(calendar, r) <==> Passes(calendar, r)
  {
  }

  // The codes of ordinary stocks: up to four characters, and not one of the prefixes of funds,
  // notes, trusts and depositary receipts.
  predicate StockCode(code: string) {
    && |code| <= 4
    && !(|code| >= 2 && code[0] == '0' && code[1] in {'0', '1', '2', '3', '8'})
    && !(|code| >= 2 && code[0] == '9' && code[1] == '1')
  }

  // Asking for one security keeps it whatever its code.
  predicate Wanted(single: bool, r: DailyPriceRecord) {
    single || StockCode(r.security.code)
  }

  lemma {:induction false} Prefix(code: string, a: char, b: char)
    ensures StartsWith(code, [a, b]) <==> |code| >= 2 && code[0] == a && code[1] == b
  {
    if |code| >= 2 && code[0] == a && code[1] == b {
      assert code[..2] == [a, b];
    }
  }

  lemma {:induction false} WantedIff(single: bool, r: DailyPriceRecord)
    ensures Kept(single, r) <==> Wanted(single, r)
  {
    var code := r.security.code;
    Prefix(code, '0', '0');
    Prefix(code, '0', '1');
    Prefix(code, '0', '2');
    Prefix(code, '0', '3');
    Prefix(code, '0', '8');
    Prefix(code, '9', '1');
    assert "00" == ['0', '0'] && "01" == ['0', '1'] && "02" == ['0', '2'] && "03" == ['0', '3'];
    assert "08" == ['0', '8'] && "91" == ['9', '1'];
  }

  // ------------------------------------------------------------ first records

  predicate SameKey(a: DailyPriceRecord, b: DailyPriceRecord) {
    a.security == b.security && a.tradeDate == b.tradeDate
  }

  // The record at this position passes, and none before it under its security and date does.
  predicate IsFirst(calendar: Calendar, records: seq<DailyPriceRecord>, i: int) {
    && 0 <= i < |records| && Passes(calendar, records[i])
    && forall j | 0 <= j < i :: !(SameKey(records[j], records[i]) && Passes(calendar, records[j]))
  }

  lemma {:induction false} FirstValidIff(calendar: Calendar, records: seq<DailyPriceRecord>, key: PriceKey)
    ensures match FirstValid(calendar, records, key)
            case None => forall j | 0 <= j < |records| && KeyOf(records[j]) == key :: !Passes(calendar, records[j])
            case Some(r) => exists i :: IsFirst(calendar, records, i) && records[i] == r && KeyOf(r) == key
    decreases |records|
  {
    if records != [] {
      var last := |records| - 1;
      FirstValidIff(calendar, records[..last], key);
      PassesIff(calendar, records[last]);
      if FirstValid(calendar, records[..last], key).Some? {
        var r := FirstValid(calendar, records[..last], key).value;
        var i :| IsFirst(calendar, records[..last], i) && records[..last][i] == r && KeyOf(r) == key;
        FirstOfPrefix(calendar, records, i);
        assert records[i] == r;
      } else if FirstValid(calendar, records, key).Some? {
        forall j | 0 <= j < last ensures !(SameKey(records[j], records[last]) && Passes(calendar, records[j])) {
          assert records[..last][j] == records[j];
        }
        assert IsFirst(calendar, records, last);
      } else {
        forall j | 0 <= j < |records| && KeyOf(records[j]) == key ensures !Passes(calendar, records[j]) {
          assert j < last ==> records[..last][j] == records[j];
        }
      }
    }
  }

  lemma {:induction false} FirstOfPrefix(calendar: Calendar, records: seq<DailyPriceRecord>, i: int)
    requires records != [] && i < |records| - 1
    ensures IsFirst(calendar, records[..|records| - 1], i) <==> IsFirst(calendar, records, i)
  {
    assert forall j | 0 <= j < |records| - 1 :: records[..|records| - 1][j] == records[j];
  }

  // ------------------------------------------------------------------ counts

  // A first record that is wanted and whose security is known, and the row it finds.
  predicate Lands(calendar: Calendar, directory: Directory, single: bool, records: seq<DailyPriceRecord>, i: int) {
    IsFirst(calendar, records, i) && Wanted(single, records[i]) && records[i].security in directory
  }

  function RowAt(directory: Directory, table: Table, r: DailyPriceRecord): Option<Row>
    requires r.security in directory
  {
    var cell := Cell(directory[r.security], r.tradeDate);
    if cell in table then Some(table[cell]) else None
  }

  function Firsts(calendar: Calendar, records: seq<DailyPriceRecord>): set<int> {
    set i | 0 <= i < |records| && IsFirst(calendar, records, i)
  }

  function Strangers(
      calendar: Calendar, directory: Directory, single: bool, records: seq<DailyPriceRecord>): set<int> {
    set i | && 0 <= i < |records| && IsFirst(calendar, records, i)
            && Wanted(single, records[i]) && records[i].security !in directory
  }

  function NewRows(
      calendar: Calendar, directory: Directory, single: bool, table: Table, records: seq<DailyPriceRecord>): set<int> {
    set i | && 0 <= i < |records| && Lands(calendar, directory, single, records, i)
            && RowAt(directory, table, records[i]).None?
  }

  function ChangedRows(
      calendar: Calendar, directory: Directory, single: bool, table: Table, records: seq<DailyPriceRecord>): set<int> {
    set i | && 0 <= i < |records| && Lands(calendar, directory, single, records, i)
            && RowAt(directory, table, records[i]).Some?
            && RowAt(directory, table, records[i]).value.values != records[i].values
  }

  // The first wanted records of this fate.
  function Fated(
      calendar: Calendar, directory: Directory, single: bool, table: Table, records: seq<DailyPriceRecord>, fate: Fate)
    : set<int>
  {
    set i | && 0 <= i < |records| && IsFirst(calendar, records, i)
            && Wanted(single, records[i]) && FateOf(directory, table, records[i]) == fate
  }

  lemma {:induction false} LastIsFirstIff(calendar: Calendar, records: seq<DailyPriceRecord>)
    requires records != []
    ensures var last := |records| - 1;
            IsFirst(calendar, records, last)
            <==> Acceptable(calendar, records[last]) && !HasKey(Unique(calendar, records[..last]), KeyOf(records[last]))
  {
    var last := |records| - 1;
    var before := records[..last];
    var key := KeyOf(records[last]);
    PassesIff(calendar, records[last]);
    UniqueIsFirstValid(calendar, before, key);
    FirstValidIff(calendar, before, key);
    assert forall j | 0 <= j < last :: before[j] == records[j];
  }

  lemma {:induction false} FirstsCount(calendar: Calendar, records: seq<DailyPriceRecord>)
    ensures |Unique(calendar, records)| == |Firsts(calendar, records)|
  {
    if records == [] {
      assert Firsts(calendar, records) == {};
    } else {
      var last := |records| - 1;
      FirstsCount(calendar, records[..last]);
      LastIsFirstIff(calendar, records);
      OneFirstMore(calendar, records);
    }
  }

  lemma {:induction false} OneFirstMore(calendar: Calendar, records: seq<DailyPriceRecord>)
    requires records != []
    ensures var last := |records| - 1;
            |Firsts(calendar, records)|
            == |Firsts(calendar, records[..last])| + if IsFirst(calendar, records, last) then 1 else 0
  {
    var last := |records| - 1;
    var before, after := Firsts(calendar, records[..last]), Firsts(calendar, records);
    forall i | i != last ensures i in before <==> i in after {
      if 0 <= i < last {
        FirstOfPrefix(calendar, records, i);
      }
    }
    OneMore(before, after, last);
  }

  lemma {:induction false} OneMore(before: set<int>, after: set<int>, last: int)
    requires last !in before && forall i | i != last :: i in before <==> i in after
    ensures |after| == |before| + if last in after then 1 else 0
  {
    var others := after - {last};
    assert others == before by {
      forall i ensures i in others <==> i in before {
        assert i != last ==> (i in before <==> i in after);
      }
    }
    assert after == if last in after then others + {last} else others;
  }

  lemma {:induction false} FatedCount(
      calendar: Calendar, directory: Directory, single: bool, table: Table, records: seq<DailyPriceRecord>, fate: Fate)
    ensures Count(directory, table, Accepted(calendar, single, records), fate)
            == |Fated(calendar, directory, single, table, records, fate)|
  {
    if records == [] {
      assert Fated(calendar, directory, single, table, records, fate) == {};
    } else {
      var last := |records| - 1;
      FatedCount(calendar, directory, single, table, records[..last], fate);
      OneFatedMore(calendar, directory, single, table, records, fate);
      OneAcceptedMore(calendar, directory, single, table, records, fate);
    }
  }

  predicate LastCounts(
      calendar: Calendar, directory: Directory, single: bool, table: Table, records: seq<DailyPriceRecord>, fate: Fate)
    requires records != []
  {
    var last := |records| - 1;
    && IsFirst(calendar, records, last) && Wanted(single, records[last])
    && FateOf(directory, table, records[last]) == fate
  }

  lemma {:induction false} OneFatedMore(
      calendar: Calendar, directory: Directory, single: bool, table: Table, records: seq<DailyPriceRecord>, fate: Fate)
    requires records != []
    ensures |Fated(calendar, directory, single, table, records, fate)|
            == |Fated(calendar, directory, single, table, records[..|records| - 1], fate)|
               + if LastCounts(calendar, directory, single, table, records, fate) then 1 else 0
  {
    var last := |records| - 1;
    var before := Fated(calendar, directory, single, table, records[..last], fate);
    var after := Fated(calendar, directory, single, table, records, fate);
    forall i | i != last ensures i in before <==> i in after {
      if 0 <= i < last {
        FirstOfPrefix(calendar, records, i);
        assert records[..last][i] == records[i];
      }
    }
    OneMore(before, after, last);
  }

  lemma {:induction false} OneAcceptedMore(
      calendar: Calendar, directory: Directory, single: bool, table: Table, records: seq<DailyPriceRecord>, fate: Fate)
    requires records != []
    ensures Count(directory, table, Accepted(calendar, single, records), fate)
            == Count(directory, table, Accepted(calendar, single, records[..|records| - 1]), fate)
               + if LastCounts(calendar, directory, single, table, records, fate) then 1 else 0
  {
    var r, before := records[|records| - 1], Unique(calendar, records[..|records| - 1]);
    LastIsFirstIff(calendar, records);
    WantedIff(single, r);
    if IsFirst(calendar, records, |records| - 1) {
      assert (before + [r])[..|before|] == before;
      if Kept(single, r) {
        var accepted := Stocks(single, before);
        assert (accepted + [r])[..|accepted|] == accepted;
      } else {
        assert Stocks(single, before) + [] == Stocks(single, before);
      }
    }
  }

  // The report of a run, exactly: what it fetched, how many records it rejected as repeated,
  // incoherent, on closed days or of unknown securities, and how many rows are new or changed.
  lemma {:induction false} RunCounts(
      calendar: Calendar, directory: Directory, single: bool, table: Table, records: seq<DailyPriceRecord>, runId: int)
    requires Injective(directory)
    ensures
      var run := Ingest(calendar, directory, single, table, records, runId).run;
      && run.fetched == |records|
      && run.rejected
         == |records| - |Firsts(calendar, records)| + |Strangers(calendar, directory, single, records)|
      && run.inserted == |NewRows(calendar, directory, single, table, records)|
      && run.updated == |ChangedRows(calendar, directory, single, table, records)|
      && run.status == if run.rejected > 0 then Partial else Succeeded
  {
    var all := IngestIsPut(calendar, directory, single, table, records, runId);
    FetchedIsAccountedFor(calendar, directory, single, table, records, runId);
    FirstsCount(calendar, records);
    FatedCount(calendar, directory, single, table, records, Missing);
    FatedCount(calendar, directory, single, table, records, Inserted);
    FatedCount(calendar, directory, single, table, records, Updated);
    FatesAre(calendar, directory, single, table, records);
  }

  lemma {:induction false} FatesAre(
      calendar: Calendar, directory: Directory, single: bool, table: Table, records: seq<DailyPriceRecord>)
    ensures Fated(calendar, directory, single, table, records, Missing)
            == Strangers(calendar, directory, single, records)
    ensures Fated(calendar, directory, single, table, records, Inserted)
            == NewRows(calendar, directory, single, table, records)
    ensures Fated(calendar, directory, single, table, records, Updated)
            == ChangedRows(calendar, directory, single, table, records)
  {
    forall i | 0 <= i < |records|
      ensures FateOf(directory, table, records[i]) == Missing <==> records[i].security !in directory
      ensures FateOf(directory, table, records[i]) == Inserted
              <==> records[i].security in directory && RowAt(directory, table, records[i]).None?
      ensures FateOf(directory, table, records[i]) == Updated <==>
                && records[i].security in directory && RowAt(directory, table, records[i]).Some?
                && RowAt(directory, table, records[i]).value.values != records[i].values
    {
    }
  }

  // -------------------------------------------------------------------- rows

  // A price keeps eight decimals and an amount four: the nearest such number, and of two the
  // one farther from zero.
  predicate RoundedTo(scale: real, x: Option<real>, stored: Option<real>)
    requires scale > 0.0
  {
    && (x.Some? <==> stored.Some?)
    && (x.Some? ==>
          && (stored.value * scale).Floor as real == stored.value * scale
          && -0.5 <= x.value * scale - stored.value * scale <= 0.5
          && (x.value >= 0.0 ==> x.value * scale - stored.value * scale < 0.5)
          && (x.value <= 0.0 ==> x.value * scale - stored.value * scale > -0.5))
  }

  predicate Rounded(v: PriceValues, stored: PriceValues) {
    && RoundedTo(100000000.0, v.raw.open, stored.raw.open)
    && RoundedTo(100000000.0, v.raw.high, stored.raw.high)
    && RoundedTo(100000000.0, v.raw.low, stored.raw.low)
    && RoundedTo(100000000.0, v.raw.close, stored.raw.close)
    && RoundedTo(100000000.0, v.adjusted.open, stored.adjusted.open)
    && RoundedTo(100000000.0, v.adjusted.high, stored.adjusted.high)
    && RoundedTo(100000000.0, v.adjusted.low, stored.adjusted.low)
    && RoundedTo(100000000.0, v.adjusted.close, stored.adjusted.close)
    && RoundedTo(10000.0, v.turnover, stored.turnover)
    && stored.volume == v.volume && stored.provenance == v.provenance
  }

  lemma {:induction false} PriceIsRounded(x: Option<real>)
    ensures RoundedTo(100000000.0, x, StoredPrice(x))
  {
    if x.Some? {
      assert EightDecimals(x.value) * 100000000.0 == Nearest(x.value * 100000000.0) as real;
    }
  }

  lemma {:induction false} AmountIsRounded(x: Option<real>)
    ensures RoundedTo(10000.0, x, StoredAmount(x))
  {
    if x.Some? {
      assert FourDecimals(x.value) * 10000.0 == Nearest(x.value * 10000.0) as real;
    }
  }

  lemma {:induction false} ValuesAreRounded(v: PriceValues)
    ensures Rounded(v, StoredValues(v))
  {
    PriceIsRounded(v.raw.open);
    PriceIsRounded(v.raw.high);
    PriceIsRounded(v.raw.low);
    PriceIsRounded(v.raw.close);
    PriceIsRounded(v.adjusted.open);
    PriceIsRounded(v.adjusted.high);
    PriceIsRounded(v.adjusted.low);
    PriceIsRounded(v.adjusted.close);
    AmountIsRounded(v.turnover);
  }

  // The row of a security and date after a run. A record that lands there leaves a row that
  // has its values already, and otherwise writes them rounded, under the run's id; without
  // one the row stays.
  lemma {:induction false} RowIs(
      calendar: Calendar, directory: Directory, single: bool, table: Table, records: seq<DailyPriceRecord>, runId: int,
      security: SecurityKey, date: int)
    requires Injective(directory) && security in directory
    ensures
      var after := Ingest(calendar, directory, single, table, records, runId).table;
      var cell := Cell(directory[security], date);
      && (forall i | Lands(calendar, directory, single, records, i)
                     && records[i].security == security && records[i].tradeDate == date ::
            && cell in after
            && if cell in table && table[cell].values == records[i].values then after[cell] == table[cell]
               else Rounded(records[i].values, after[cell].values) && after[cell].runId == runId)
      && ((forall i | Lands(calendar, directory, single, records, i) ::
             !(records[i].security == security && records[i].tradeDate == date)) ==>
            Lookup(after, cell) == Lookup(table, cell))
  {
    var key := PriceKey(security, date);
    TableIsOverridden(calendar, directory, single, table, records, runId, security, date);
    FirstValidIff(calendar, records, key);
    var first := FirstValid(calendar, records, key);
    if first.Some? {
      WantedIff(single, first.value);
      ValuesAreRounded(first.value.values);
    }
    forall i | Lands(calendar, directory, single, records, i)
               && records[i].security == security && records[i].tradeDate == date
      ensures first == Some(records[i])
    {
      OneFirst(calendar, records, i, key);
    }
  }

  // There is one first record under a key.
  lemma {:induction false} OneFirst(calendar: Calendar, records: seq<DailyPriceRecord>, i: int, key: PriceKey)
    requires IsFirst(calendar, records, i) && KeyOf(records[i]) == key
    ensures FirstValid(calendar, records, key) == Some(records[i])
  {
    FirstValidIff(calendar, records, key);
    if FirstValid(calendar, records, key).Some? {
      var r := FirstValid(calendar, records, key).value;
      var k :| IsFirst(calendar, records, k) && records[k] == r && KeyOf(r) == key;
      assert SameKey(records[k], records[i]);
    }
  }
}
