// What a candle takes from a record, and which daily candles there are in which order.
module CandleMeanings {
  import opened Wrappers
  import opened Prices
  import opened Candles

  // A candle takes the date, volume and turnover of its record and the four prices of the
  // basis, all of which the record must have.
  predicate Makes(r: DailyPriceRecord, basis: PriceBasis, c: Candle) {
    && c.tradeDate == r.tradeDate && c.volume == r.values.volume && c.turnover == r.values.turnover
    && match basis
       case RawBasis => HasPrices(r.values.raw, c)
       case AdjustedBasis => HasPrices(r.values.adjusted, c)
  }

  predicate HasPrices(o: Ohlc, c: Candle) {
    o.open == Some(c.open) && o.high == Some(c.high) && o.low == Some(c.low) && o.close == Some(c.close)
  }

  lemma {:induction false} MakesIff(r: DailyPriceRecord, basis: PriceBasis, c: Candle)
    ensures PriceCandle(r, basis) == Some(c) <==> Makes(r, basis, c)
  {
  }

  // By date, and among records of one date by arrival.
  predicate Precedes(records: seq<DailyPriceRecord>, i: nat, j: nat)
    requires i < |records| && j < |records|
  {
    records[i].tradeDate < records[j].tradeDate || (records[i].tradeDate == records[j].tradeDate && i < j)
  }

  // These positions in that order.
  ghost predicate Ranked(records: seq<DailyPriceRecord>, at: seq<nat>) {
    && (forall i | 0 <= i < |at| :: at[i] < |records|)
    && forall i, j | 0 <= i < j < |at| :: Precedes(records, at[i], at[j])
  }

  ghost predicate SortedBy(records: seq<DailyPriceRecord>, sorted: seq<DailyPriceRecord>, at: seq<nat>) {
    && Ranked(records, at) && |at| == |sorted|
    && (forall i | 0 <= i < |at| :: sorted[i] == records[at[i]])
    && forall k: nat | k < |records| :: k in at
  }

  lemma {:induction false} SortIsStable(records: seq<DailyPriceRecord>) returns (at: seq<nat>)
    ensures SortedBy(records, SortByDate(records), at)
  {
    if records == [] {
      at := [];
    } else {
      var n := |records| - 1;
      var before := SortIsStable(records[..n]);
      var sorted, p := SortByDate(records[..n]), Place(SortByDate(records[..n]), records[n].tradeDate);
      SortIsOrdered(records[..n]);
      at := before[..p] + [n] + before[p..];
      InsertIsRanked(records, sorted, before, p);
    }
  }

  lemma {:induction false} InsertIsRanked(
      records: seq<DailyPriceRecord>, sorted: seq<DailyPriceRecord>, before: seq<nat>, p: nat)
    requires records != [] && SortedBy(records[..|records| - 1], sorted, before) && InOrder(sorted)
    requires p <= |sorted| && Fits(sorted, p, records[|records| - 1].tradeDate)
    ensures SortedBy(records, InsertAt(sorted, p, records[|records| - 1]), before[..p] + [|records| - 1] + before[p..])
  {
    var n := |records| - 1;
    var at := before[..p] + [n] + before[p..];
    forall i | 0 <= i < |before|
      ensures before[i] < n && sorted[i] == records[before[i]]
      ensures if i < p then Precedes(records, before[i], n) else Precedes(records, n, before[i])
    {
      assert sorted[i] == records[..n][before[i]];
    }
    InsertRanks(records, before, p);
    InsertKeepsAll(before, p, n);
  }

  lemma {:induction false} InsertRanks(records: seq<DailyPriceRecord>, before: seq<nat>, p: nat)
    requires records != [] && Ranked(records[..|records| - 1], before) && p <= |before|
    requires forall i | 0 <= i < |before| ::
               if i < p then Precedes(records, before[i], |records| - 1)
               else Precedes(records, |records| - 1, before[i])
    ensures Ranked(records, before[..p] + [|records| - 1] + before[p..])
  {
    var n := |records| - 1;
    var at := before[..p] + [n] + before[p..];
    forall i, j | 0 <= i < j < |at| ensures Precedes(records, at[i], at[j]) {
      if i != p && j != p {
        KeepsRank(records, before, if i < p then i else i - 1, if j < p then j else j - 1);
      }
    }
  }

  lemma {:induction false} InsertKeepsAll(before: seq<nat>, p: nat, n: nat)
    requires p <= |before| && forall k: nat | k < n :: k in before
    ensures forall k: nat | k <= n :: k in before[..p] + [n] + before[p..]
  {
    forall k: nat | k <= n ensures k in before[..p] + [n] + before[p..] {
      if k < n {
        InsertKeeps(before, p, n, k);
      } else {
        assert (before[..p] + [n] + before[p..])[p] == n;
      }
    }
  }

  lemma {:induction false} KeepsRank(records: seq<DailyPriceRecord>, before: seq<nat>, a: nat, b: nat)
    requires records != [] && Ranked(records[..|records| - 1], before) && a < b < |before|
    ensures before[a] < |records| && before[b] < |records| && Precedes(records, before[a], before[b])
  {
    assert Precedes(records[..|records| - 1], before[a], before[b]);
  }

  lemma {:induction false} InsertKeeps(before: seq<nat>, p: nat, n: nat, k: nat)
    requires k in before && p <= |before|
    ensures k in before[..p] + [n] + before[p..]
  {
    var i :| 0 <= i < |before| && before[i] == k;
    assert (before[..p] + [n] + before[p..])[if i < p then i else i + 1] == k;
  }

  // The candles at these positions of the sorted records, and no others.
  ghost predicate Picks(sorted: seq<DailyPriceRecord>, basis: PriceBasis, candles: seq<Candle>, at: seq<nat>) {
    && |at| == |candles|
    && (forall i, j | 0 <= i < j < |at| :: at[i] < at[j])
    && (forall i | 0 <= i < |at| :: at[i] < |sorted| && Makes(sorted[at[i]], basis, candles[i]))
    && forall k: nat | k < |sorted| && k !in at :: PriceCandle(sorted[k], basis).None?
  }

  lemma {:induction false} DailyPicks(sorted: seq<DailyPriceRecord>, basis: PriceBasis) returns (at: seq<nat>)
    ensures Picks(sorted, basis, DailyCandles(sorted, basis), at)
  {
    if sorted == [] {
      at := [];
    } else {
      var n := |sorted| - 1;
      var before := DailyPicks(sorted[..n], basis);
      at := if PriceCandle(sorted[n], basis).Some? then before + [n] else before;
      PicksOneMore(sorted, basis, DailyCandles(sorted[..n], basis), before);
    }
  }

  lemma {:induction false} PicksOneMore(
      sorted: seq<DailyPriceRecord>, basis: PriceBasis, candles: seq<Candle>, before: seq<nat>)
    requires sorted != [] && Picks(sorted[..|sorted| - 1], basis, candles, before)
    ensures var n := |sorted| - 1;
            match PriceCandle(sorted[n], basis)
            case None => Picks(sorted, basis, candles, before)
            case Some(c) => Picks(sorted, basis, candles + [c], before + [n])
  {
    var n := |sorted| - 1;
    assert forall i | 0 <= i < n :: sorted[..n][i] == sorted[i];
    forall k: nat | k < n && k !in before ensures PriceCandle(sorted[k], basis).None? {
      assert PriceCandle(sorted[..n][k], basis).None?;
    }
    forall i | 0 <= i < |before| ensures before[i] < n && Makes(sorted[before[i]], basis, candles[i]) {
      assert Makes(sorted[..n][before[i]], basis, candles[i]);
    }
    if PriceCandle(sorted[n], basis).Some? {
      MakesIff(sorted[n], basis, PriceCandle(sorted[n], basis).value);
      var at := before + [n];
      assert at[|before|] == n;
      forall k: nat | k < |sorted| && k !in at ensures PriceCandle(sorted[k], basis).None? {
        assert k !in before && k != n;
      }
    }
  }

  // The daily candles, exactly: one for each record that has the prices of the basis, by date
  // and among equal dates by arrival.
  ghost predicate AreDays(records: seq<DailyPriceRecord>, basis: PriceBasis, candles: seq<Candle>, at: seq<nat>) {
    && |at| == |candles| && Ranked(records, at)
    && (forall i | 0 <= i < |at| :: Makes(records[at[i]], basis, candles[i]))
    && forall k: nat, c | k < |records| && Makes(records[k], basis, c) :: k in at
  }

  lemma {:induction false} DaysAre(records: seq<DailyPriceRecord>, basis: PriceBasis) returns (at: seq<nat>)
    ensures AreDays(records, basis, Aggregated(records, DayInterval, basis), at)
  {
    var sorted := SortByDate(records);
    var order := SortIsStable(records);
    var picks := DailyPicks(sorted, basis);
    at := seq(|picks|, i requires 0 <= i < |picks| => order[picks[i]]);
    forall i, j | 0 <= i < j < |at| ensures Precedes(records, at[i], at[j]) {
      assert picks[i] < picks[j];
    }
    forall k: nat, c | k < |records| && Makes(records[k], basis, c) ensures k in at {
      MakesIff(records[k], basis, c);
      assert k in order;
      var m :| 0 <= m < |order| && order[m] == k;
      assert m in picks;
      var i :| 0 <= i < |picks| && picks[i] == m;
      assert at[i] == k;
    }
  }
}
