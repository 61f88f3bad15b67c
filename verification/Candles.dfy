// Candle aggregation: daily candles in date order, grouped into weeks or months and merged.
module Candles {
  import opened Wrappers
  import opened Prices
  import opened Grouping
  import opened Calendar

  datatype Candle = Candle(
    tradeDate: Day, open: real, high: real, low: real, close: real, volume: Option<int>, turnover: Option<real>)

  datatype Interval = DayInterval | WeekInterval | MonthInterval

  // Only a record with all four prices of the basis makes a candle.
  function PriceCandle(r: DailyPriceRecord, basis: PriceBasis): Option<Candle> {
    var o := if basis.RawBasis? then r.values.raw else r.values.adjusted;
    if o.open.None? || o.high.None? || o.low.None? || o.close.None? then None
    else Some(Candle(r.tradeDate, o.open.value, o.high.value, o.low.value, o.close.value, r.values.volume,
      r.values.turnover))
  }

  // ---------------------------------------------------------------- sorting

  // The place after every record of the same or an earlier date.
  function Place(sorted: seq<DailyPriceRecord>, date: Day): (p: nat)
    ensures p <= |sorted|
    ensures p > 0 ==> sorted[p - 1].tradeDate <= date
    ensures forall i | p <= i < |sorted| :: sorted[i].tradeDate > date
  {
    if sorted == [] || sorted[|sorted| - 1].tradeDate <= date then |sorted| else Place(sorted[..|sorted| - 1], date)
  }

  function InsertAt(sorted: seq<DailyPriceRecord>, p: nat, r: DailyPriceRecord): seq<DailyPriceRecord>
    requires p <= |sorted|
  {
    sorted[..p] + [r] + sorted[p..]
  }

  function Insert(sorted: seq<DailyPriceRecord>, r: DailyPriceRecord): seq<DailyPriceRecord> {
    InsertAt(sorted, Place(sorted, r.tradeDate), r)
  }

  // A stable sort.
  function SortByDate(records: seq<DailyPriceRecord>): seq<DailyPriceRecord> {
    if records == [] then [] else Insert(SortByDate(records[..|records| - 1]), records[|records| - 1])
  }

  ghost predicate InOrder(records: seq<DailyPriceRecord>) {
    forall i, j | 0 <= i < j < |records| :: records[i].tradeDate <= records[j].tradeDate
  }

  ghost predicate Ascending(records: seq<DailyPriceRecord>) {
    forall i, j | 0 <= i < j < |records| :: records[i].tradeDate < records[j].tradeDate
  }

  ghost predicate DistinctDates(records: seq<DailyPriceRecord>) {
    forall i, j | 0 <= i < j < |records| :: records[i].tradeDate != records[j].tradeDate
  }

  ghost predicate SameRecords(a: seq<DailyPriceRecord>, b: seq<DailyPriceRecord>) {
    forall r :: r in a <==> r in b
  }

  ghost predicate Fits(sorted: seq<DailyPriceRecord>, p: nat, date: Day)
    requires p <= |sorted|
  {
    && (forall i | 0 <= i < p :: sorted[i].tradeDate <= date)
    && forall i | p <= i < |sorted| :: sorted[i].tradeDate > date
  }

  lemma {:induction false} InsertAtKeepsOrder(sorted: seq<DailyPriceRecord>, p: nat, r: DailyPriceRecord)
    requires InOrder(sorted) && p <= |sorted| && Fits(sorted, p, r.tradeDate)
    ensures InOrder(InsertAt(sorted, p, r))
    ensures forall x :: x in InsertAt(sorted, p, r) <==> x in sorted || x == r
  {
    assert sorted == sorted[..p] + sorted[p..];
  }

  lemma {:induction false} InsertAtKeepsDistinct(sorted: seq<DailyPriceRecord>, p: nat, r: DailyPriceRecord)
    requires Ascending(sorted) && p <= |sorted| && Fits(sorted, p, r.tradeDate)
    requires forall i | 0 <= i < |sorted| :: sorted[i].tradeDate != r.tradeDate
    ensures Ascending(InsertAt(sorted, p, r))
  {
  }

  lemma {:induction false} SortIsOrdered(records: seq<DailyPriceRecord>)
    ensures InOrder(SortByDate(records)) && SameRecords(SortByDate(records), records)
    ensures DistinctDates(records) ==> Ascending(SortByDate(records))
  {
    if records != [] {
      var before, r := records[..|records| - 1], records[|records| - 1];
      SortIsOrdered(before);
      var sorted, p := SortByDate(before), Place(SortByDate(before), r.tradeDate);
      assert Fits(sorted, p, r.tradeDate);
      InsertAtKeepsOrder(sorted, p, r);
      assert records == before + [r];
      if DistinctDates(records) {
        forall i | 0 <= i < |sorted| ensures sorted[i].tradeDate != r.tradeDate {
          assert sorted[i] in before;
        }
        InsertAtKeepsDistinct(sorted, p, r);
      }
    }
  }

  // The members before the last one are those that are not the last one.
  lemma {:induction false} AscendingInit(a: seq<DailyPriceRecord>, init: seq<DailyPriceRecord>, last: DailyPriceRecord)
    requires a == init + [last] && Ascending(a)
    ensures Ascending(init)
    ensures forall r :: r in init <==> r in a && r != last
  {
    assert forall i | 0 <= i < |init| :: a[i] == init[i];
    assert a[|init|] == last;
  }

  lemma {:induction false} SameLast(a: seq<DailyPriceRecord>, b: seq<DailyPriceRecord>)
    requires Ascending(a) && Ascending(b) && SameRecords(a, b) && a != [] && b != []
    ensures a[|a| - 1] == b[|b| - 1]
  {
    var x, y := a[|a| - 1], b[|b| - 1];
    assert x in b && y in a;
    var i :| 0 <= i < |b| && b[i] == x;
    var j :| 0 <= j < |a| && a[j] == y;
  }

  lemma {:induction false} AscendingIsUnique(a: seq<DailyPriceRecord>, b: seq<DailyPriceRecord>)
    requires Ascending(a) && Ascending(b) && SameRecords(a, b)
    ensures a == b
  {
    if a == [] {
      assert forall i | 0 <= i < |b| :: b[i] in a;
    } else {
      assert a[0] in b;
      SameLast(a, b);
      var c, d, last := a[..|a| - 1], b[..|b| - 1], a[|a| - 1];
      AscendingInit(a, c, last);
      AscendingInit(b, d, last);
      AscendingIsUnique(c, d);
    }
  }

  // ---------------------------------------------------------------- merging

  function High(candles: seq<Candle>): real
    requires candles != []
  {
    var last := candles[|candles| - 1];
    if |candles| == 1 then last.high else MaxReal(High(candles[..|candles| - 1]), last.high)
  }

  function Low(candles: seq<Candle>): real
    requires candles != []
  {
    var last := candles[|candles| - 1];
    if |candles| == 1 then last.low else MinReal(Low(candles[..|candles| - 1]), last.low)
  }

  // Unknown when any summand is unknown.
  function AddCounts(a: Option<int>, b: Option<int>): Option<int> {
    if a.Some? && b.Some? then Some(a.value + b.value) else None
  }

  function AddAmounts(a: Option<real>, b: Option<real>): Option<real> {
    if a.Some? && b.Some? then Some(a.value + b.value) else None
  }

  function Volume(candles: seq<Candle>): Option<int> {
    if candles == [] then Some(0) else AddCounts(Volume(candles[..|candles| - 1]), candles[|candles| - 1].volume)
  }

  function Turnover(candles: seq<Candle>): Option<real> {
    if candles == [] then Some(0.0) else AddAmounts(Turnover(candles[..|candles| - 1]), candles[|candles| - 1].turnover)
  }

  function Merge(candles: seq<Candle>): Candle
    requires candles != []
  {
    var first, last := candles[0], candles[|candles| - 1];
    Candle(last.tradeDate, first.open, High(candles), Low(candles), last.close, Volume(candles), Turnover(candles))
  }

  // ------------------------------------------------------------ aggregation

  function DailyCandles(records: seq<DailyPriceRecord>, basis: PriceBasis): seq<Candle> {
    if records == [] then []
    else
      var candle := PriceCandle(records[|records| - 1], basis);
      DailyCandles(records[..|records| - 1], basis) + if candle.Some? then [candle.value] else []
  }

  function WeekKey(c: Candle): Period {
    WeekOf(c.tradeDate)
  }

  function MonthKey(c: Candle): Period {
    MonthOf(c.tradeDate)
  }

  function KeyOf(week: bool): Candle -> Period {
    if week then WeekKey else MonthKey
  }

  ghost predicate NonEmpty<K>(groups: seq<Group<K, Candle>>) {
    forall i | 0 <= i < |groups| :: groups[i].items != []
  }

  function MergeAll<K>(groups: seq<Group<K, Candle>>): (merged: seq<Candle>)
    requires NonEmpty(groups)
    ensures |merged| == |groups|
  {
    if groups == [] then [] else MergeAll(groups[..|groups| - 1]) + [Merge(groups[|groups| - 1].items)]
  }

  function Groups(daily: seq<Candle>, week: bool): (groups: seq<Group<Period, Candle>>)
    ensures NonEmpty(groups)
  {
    GroupByIsGrouping(daily, KeyOf(week));
    GroupBy(daily, KeyOf(week))
  }

  function Aggregated(records: seq<DailyPriceRecord>, interval: Interval, basis: PriceBasis): seq<Candle> {
    var daily := DailyCandles(SortByDate(records), basis);
    if interval.DayInterval? then daily else MergeAll(Groups(daily, interval.WeekInterval?))
  }

  method Daily(sorted: seq<DailyPriceRecord>, basis: PriceBasis) returns (daily: seq<Candle>)
    ensures daily == DailyCandles(sorted, basis)
  {
    daily := [];
    for n := 0 to |sorted|
      invariant daily == DailyCandles(sorted[..n], basis)
    {
      assert sorted[..n + 1][..n] == sorted[..n];
      var candle := PriceCandle(sorted[n], basis);
      if candle.Some? {
        daily := daily + [candle.value];
      }
    }
    assert sorted[..|sorted|] == sorted;
  }

  method GroupAll(daily: seq<Candle>, week: bool) returns (groups: seq<Group<Period, Candle>>)
    ensures groups == Groups(daily, week)
  {
    groups := [];
    for n := 0 to |daily|
      invariant groups == GroupBy(daily[..n], KeyOf(week))
    {
      assert daily[..n + 1][..n] == daily[..n];
      groups := Add(groups, KeyOf(week)(daily[n]), daily[n]);
    }
    assert daily[..|daily|] == daily;
  }

  method MergeGroups(groups: seq<Group<Period, Candle>>) returns (candles: seq<Candle>)
    requires NonEmpty(groups)
    ensures candles == MergeAll(groups)
  {
    candles := [];
    for n := 0 to |groups|
      invariant candles == MergeAll(groups[..n])
    {
      assert groups[..n + 1][..n] == groups[..n];
      candles := candles + [Merge(groups[n].items)];
    }
    assert groups[..|groups|] == groups;
  }

  method Aggregate(records: seq<DailyPriceRecord>, interval: Interval, basis: PriceBasis) returns (candles: seq<Candle>)
    ensures candles == Aggregated(records, interval, basis)
  {
    candles := Daily(SortByDate(records), basis);
    if !interval.DayInterval? {
      var groups := GroupAll(candles, interval.WeekInterval?);
      candles := MergeGroups(groups);
    }
  }

  // ----------------------------------------------------- groups are contiguous

  ghost predicate CandlesInOrder(daily: seq<Candle>) {
    forall i, j | 0 <= i < j < |daily| :: daily[i].tradeDate <= daily[j].tradeDate
  }

  lemma {:induction false} DailyIsInOrder(records: seq<DailyPriceRecord>, basis: PriceBasis)
    requires InOrder(records)
    ensures var daily := DailyCandles(records, basis);
            && CandlesInOrder(daily)
            && (records != [] && daily != [] ==> daily[|daily| - 1].tradeDate <= records[|records| - 1].tradeDate)
  {
    if records != [] {
      DailyIsInOrder(records[..|records| - 1], basis);
    }
  }

  lemma {:induction false} KeysAreMonotone(week: bool, a: Candle, b: Candle)
    requires a.tradeDate <= b.tradeDate
    ensures !Before(KeyOf(week)(b), KeyOf(week)(a))
  {
    WeeksAreMonotone(a.tradeDate, b.tradeDate);
    MonthsAreMonotone(a.tradeDate, b.tradeDate);
  }

  ghost predicate KeysAscend(groups: seq<Group<Period, Candle>>) {
    forall i, j | 0 <= i < j < |groups| :: Before(groups[i].key, groups[j].key)
  }

  // The last group holds the last candle, so a later candle is not of an earlier period.
  lemma {:induction false} LastGroupIsNewest(
      groups: seq<Group<Period, Candle>>, daily: seq<Candle>, week: bool, c: Candle)
    requires groups != [] && IsGrouping(groups, KeyOf(week)) && Flatten(groups) == daily
    requires daily != [] ==> daily[|daily| - 1].tradeDate <= c.tradeDate
    ensures !Before(KeyOf(week)(c), groups[|groups| - 1].key)
  {
    var last := groups[|groups| - 1];
    var newest := last.items[|last.items| - 1];
    assert Flatten(groups) == Flatten(groups[..|groups| - 1]) + last.items;
    assert daily[|daily| - 1] == newest && KeyOf(week)(newest) == last.key;
    KeysAreMonotone(week, newest, c);
  }

  lemma {:induction false} ContiguousNext(
      groups: seq<Group<Period, Candle>>, before: seq<Candle>, week: bool, c: Candle)
    requires IsGrouping(groups, KeyOf(week)) && Flatten(groups) == before && KeysAscend(groups)
    requires before != [] ==> before[|before| - 1].tradeDate <= c.tradeDate
    ensures var after := Add(groups, KeyOf(week)(c), c);
            Flatten(after) == before + [c] && KeysAscend(after)
  {
    if groups != [] {
      LastGroupIsNewest(groups, before, week, c);
    }
    AddToLast(groups, KeyOf(week)(c), c);
  }

  lemma {:induction false} GroupsNext(before: seq<Candle>, c: Candle, week: bool)
    ensures Groups(before + [c], week) == Add(Groups(before, week), KeyOf(week)(c), c)
    ensures IsGrouping(Groups(before, week), KeyOf(week))
  {
    assert (before + [c])[..|before|] == before;
    GroupByIsGrouping(before, KeyOf(week));
  }

  // A sorted series splits into its groups in order: put together again, the groups are
  // the series, and their periods ascend.
  lemma {:induction false} GroupsAreContiguous(daily: seq<Candle>, week: bool)
    requires CandlesInOrder(daily)
    ensures Flatten(Groups(daily, week)) == daily && KeysAscend(Groups(daily, week))
  {
    if daily != [] {
      var before, c := daily[..|daily| - 1], daily[|daily| - 1];
      assert daily == before + [c];
      GroupsAreContiguous(before, week);
      GroupsNext(before, c, week);
      ContiguousNext(Groups(before, week), before, week, c);
    }
  }

  lemma {:induction false} FindLast(groups: seq<Group<Period, Candle>>, key: Period)
    requires KeysAscend(groups) && groups != [] && !Before(key, groups[|groups| - 1].key)
    ensures Find(groups, key) == if groups[|groups| - 1].key == key then |groups| - 1 else |groups|
  {
    var last := |groups| - 1;
    forall i | 0 <= i < last ensures groups[i].key != key {
      assert Before(groups[i].key, groups[last].key);
    }
  }

  lemma {:induction false} KeysStillAscend(groups: seq<Group<Period, Candle>>, key: Period, c: Candle)
    requires KeysAscend(groups) && (groups != [] ==> !Before(key, groups[|groups| - 1].key))
    ensures KeysAscend(Add(groups, key, c))
  {
    if groups != [] {
      FindLast(groups, key);
    }
    var after := Add(groups, key, c);
    forall i, j | 0 <= i < j < |after| ensures Before(after[i].key, after[j].key) {
      assert after[i].key == groups[i].key;
      assert i == |groups| - 1 || Before(groups[i].key, groups[|groups| - 1].key);
      assert after[j].key == if j < |groups| then groups[j].key else key;
    }
  }

  // A key that is not before the last one extends the last group or opens a new one.
  lemma {:induction false} AddToLast(groups: seq<Group<Period, Candle>>, key: Period, c: Candle)
    requires KeysAscend(groups) && (groups != [] ==> !Before(key, groups[|groups| - 1].key))
    ensures Flatten(Add(groups, key, c)) == Flatten(groups) + [c] && KeysAscend(Add(groups, key, c))
  {
    KeysStillAscend(groups, key, c);
    if groups != [] {
      FindLast(groups, key);
    }
    if Find(groups, key) < |groups| {
      FlattenExtend(groups, c);
    } else {
      FlattenOpen(groups, key, c);
    }
  }

  // ------------------------------------------------------------ main results

  // The order in which records with distinct dates arrive does not matter.
  lemma {:induction false} ArrivalOrderIsIrrelevant(
      a: seq<DailyPriceRecord>, b: seq<DailyPriceRecord>, interval: Interval, basis: PriceBasis)
    requires DistinctDates(a) && DistinctDates(b) && SameRecords(a, b)
    ensures Aggregated(a, interval, basis) == Aggregated(b, interval, basis)
  {
    SortIsOrdered(a);
    SortIsOrdered(b);
    AscendingIsUnique(SortByDate(a), SortByDate(b));
  }

  // The days that have a candle, in order.
  function Days(records: seq<DailyPriceRecord>, basis: PriceBasis): seq<Candle> {
    DailyCandles(SortByDate(records), basis)
  }

  ghost predicate CandlesAscend(candles: seq<Candle>) {
    forall i, j | 0 <= i < j < |candles| :: candles[i].tradeDate < candles[j].tradeDate
  }

  lemma {:induction false} DailyAscends(records: seq<DailyPriceRecord>, basis: PriceBasis)
    requires Ascending(records)
    ensures var daily := DailyCandles(records, basis);
            && CandlesAscend(daily)
            && (records != [] && daily != [] ==> daily[|daily| - 1].tradeDate <= records[|records| - 1].tradeDate)
  {
    if records != [] {
      DailyAscends(records[..|records| - 1], basis);
    }
  }

  lemma {:induction false} MergeAllAt(groups: seq<Group<Period, Candle>>, i: nat)
    requires NonEmpty(groups) && i < |groups|
    ensures MergeAll(groups)[i] == Merge(groups[i].items)
  {
    if i < |groups| - 1 {
      MergeAllAt(groups[..|groups| - 1], i);
    }
  }

  lemma {:induction false} MergedAscend(groups: seq<Group<Period, Candle>>, week: bool)
    requires IsGrouping(groups, KeyOf(week)) && KeysAscend(groups)
    ensures NonEmpty(groups) && CandlesAscend(MergeAll(groups))
  {
    forall i, j | 0 <= i < j < |groups|
      ensures MergeAll(groups)[i].tradeDate < MergeAll(groups)[j].tradeDate
    {
      MergeAllAt(groups, i);
      MergeAllAt(groups, j);
      var (a, b) := (groups[i].items[|groups[i].items| - 1], groups[j].items[|groups[j].items| - 1]);
      assert KeyOf(week)(a) == groups[i].key && KeyOf(week)(b) == groups[j].key;
      assert Before(groups[i].key, groups[j].key);
      if b.tradeDate <= a.tradeDate {
        KeysAreMonotone(week, b, a);
      }
    }
  }

  // Each candle merges one group, the groups are the periods that have a day, and they
  // split the days into consecutive stretches.
  ghost predicate IsPartition(candles: seq<Candle>, groups: seq<Group<Period, Candle>>, days: seq<Candle>, week: bool) {
    && Flatten(groups) == days
    && IsGrouping(groups, KeyOf(week))
    && (forall i, k | 0 <= i < |groups| && 0 <= k < |groups[i].items| ::
          groups[i].key
          == if week then WeekOf(groups[i].items[k].tradeDate) else MonthOf(groups[i].items[k].tradeDate))
    && |candles| == |groups|
    && forall i | 0 <= i < |groups| :: groups[i].items != [] && candles[i] == Merge(groups[i].items)
  }

  lemma {:induction false} MergedPartition(groups: seq<Group<Period, Candle>>, days: seq<Candle>, week: bool)
    requires Flatten(groups) == days && IsGrouping(groups, KeyOf(week))
    ensures NonEmpty(groups) && IsPartition(MergeAll(groups), groups, days, week)
  {
    forall i | 0 <= i < |groups| ensures groups[i].items != [] && MergeAll(groups)[i] == Merge(groups[i].items) {
      MergeAllAt(groups, i);
    }
    forall i, k | 0 <= i < |groups| && 0 <= k < |groups[i].items|
      ensures groups[i].key
              == if week then WeekOf(groups[i].items[k].tradeDate) else MonthOf(groups[i].items[k].tradeDate)
    {
      assert KeyOf(week)(groups[i].items[k]) == groups[i].key;
    }
  }

  lemma {:induction false} DaysPartition(daily: seq<Candle>, week: bool)
    requires CandlesInOrder(daily)
    ensures var groups := Groups(daily, week);
            IsPartition(MergeAll(groups), groups, daily, week) && CandlesAscend(MergeAll(groups))
  {
    GroupsAreContiguous(daily, week);
    GroupByIsGrouping(daily, KeyOf(week));
    MergedPartition(Groups(daily, week), daily, week);
    MergedAscend(Groups(daily, week), week);
  }

  lemma {:induction false} PeriodsPartitionDays(records: seq<DailyPriceRecord>, week: bool, basis: PriceBasis)
    ensures var groups := Groups(Days(records, basis), week);
            var candles := Aggregated(records, if week then WeekInterval else MonthInterval, basis);
            candles == MergeAll(groups) && IsPartition(candles, groups, Days(records, basis), week)
              && CandlesAscend(candles)
  {
    SortIsOrdered(records);
    DailyIsInOrder(SortByDate(records), basis);
    DaysPartition(Days(records, basis), week);
  }

  // Daily output ascends strictly when the records have distinct dates.
  lemma {:induction false} DaysAscend(records: seq<DailyPriceRecord>, basis: PriceBasis)
    requires DistinctDates(records)
    ensures CandlesAscend(Aggregated(records, DayInterval, basis))
  {
    SortIsOrdered(records);
    DailyAscends(SortByDate(records), basis);
  }

  // Two candles, one after the other, as one.
  function Join(a: Candle, b: Candle): Candle {
    Candle(
      b.tradeDate, a.open, MaxReal(a.high, b.high), MinReal(a.low, b.low), b.close,
      AddCounts(a.volume, b.volume), AddAmounts(a.turnover, b.turnover))
  }

  lemma {:induction false} FoldConcat(a: seq<Candle>, b: seq<Candle>)
    requires a != [] && b != []
    ensures High(a + b) == MaxReal(High(a), High(b)) && Low(a + b) == MinReal(Low(a), Low(b))
    ensures Volume(a + b) == AddCounts(Volume(a), Volume(b)) && Turnover(a + b) == AddAmounts(Turnover(a), Turnover(b))
  {
    assert (a + b)[..|a + b| - 1] == a + b[..|b| - 1];
    if |b| == 1 {
      assert a + b[..0] == a;
    } else {
      FoldConcat(a, b[..|b| - 1]);
    }
  }

  // Merging is compositional: a stretch merged is its two parts merged and joined.
  lemma {:induction false} MergeConcat(a: seq<Candle>, b: seq<Candle>)
    requires a != [] && b != []
    ensures Merge(a + b) == Join(Merge(a), Merge(b))
  {
    FoldConcat(a, b);
  }

  lemma {:induction false} MergeOne(c: Candle)
    ensures Merge([c]) == c
  {
    assert [c][..0] == [];
    assert Volume([c]) == AddCounts(Volume([]), c.volume) == c.volume;
    assert Turnover([c]) == AddAmounts(Turnover([]), c.turnover) == c.turnover;
  }

  lemma {:induction false} MergeAllInit(groups: seq<Group<Period, Candle>>)
    requires NonEmpty(groups) && groups != []
    ensures var init, last := groups[..|groups| - 1], groups[|groups| - 1].items;
            && MergeAll(groups) == MergeAll(init) + [Merge(last)]
            && Flatten(groups) == Flatten(init) + last
            && (init == [] ==> MergeAll(groups) == [Merge(last)] && Flatten(groups) == last)
  {
  }

  // What a merged candle says about its days: it opens as the first and closes as the last
  // on the last one's date, and its range is reached and not exceeded.
  ghost predicate Summarises(c: Candle, days: seq<Candle>)
    requires days != []
  {
    && c.open == days[0].open && c.close == days[|days| - 1].close && c.tradeDate == days[|days| - 1].tradeDate
    && (forall i | 0 <= i < |days| :: c.low <= days[i].low && days[i].high <= c.high)
    && (exists i :: 0 <= i < |days| && days[i].high == c.high)
    && (exists i :: 0 <= i < |days| && days[i].low == c.low)
  }

  lemma {:induction false} RangeIsReached(days: seq<Candle>)
    requires days != []
    ensures exists i :: 0 <= i < |days| && days[i].high == High(days)
    ensures exists i :: 0 <= i < |days| && days[i].low == Low(days)
  {
    var last := |days| - 1;
    assert days[last] == days[|days| - 1];
    if |days| > 1 {
      var init := days[..last];
      RangeIsReached(init);
      var i :| 0 <= i < |init| && init[i].high == High(init);
      var j :| 0 <= j < |init| && init[j].low == Low(init);
      assert days[i] == init[i] && days[j] == init[j];
    }
  }

  lemma {:induction false} MergeSummarises(days: seq<Candle>)
    requires days != []
    ensures Summarises(Merge(days), days)
  {
    RangeIsReached(days);
    forall i | 0 <= i < |days| ensures Low(days) <= days[i].low && days[i].high <= High(days) {
      RangeBounds(days, i);
    }
  }

  // Merging the candles of consecutive groups is merging all of their days.
  lemma {:induction false} MergeOfMerges(groups: seq<Group<Period, Candle>>)
    requires NonEmpty(groups) && groups != []
    ensures Flatten(groups) != [] && Merge(MergeAll(groups)) == Merge(Flatten(groups))
  {
    var init, last := groups[..|groups| - 1], groups[|groups| - 1].items;
    MergeAllInit(groups);
    MergeOne(Merge(last));
    if |groups| > 1 {
      MergeOfMerges(init);
      MergeConcat(MergeAll(init), [Merge(last)]);
      MergeConcat(Flatten(init), last);
    }
  }

  // Conservation: merged once more, the weekly or monthly candles give the candle of all
  // days, with its range, volume and turnover, unknown exactly when some day's is.
  lemma {:induction false} AggregationConserves(records: seq<DailyPriceRecord>, week: bool, basis: PriceBasis)
    requires Days(records, basis) != []
    ensures var candles := Aggregated(records, if week then WeekInterval else MonthInterval, basis);
            candles != [] && Merge(candles) == Merge(Days(records, basis))
  {
    PeriodsPartitionDays(records, week, basis);
    MergeOfMerges(Groups(Days(records, basis), week));
  }

  // A merged volume or turnover is known exactly when every day's is.
  lemma {:induction false} KnownIff(candles: seq<Candle>)
    ensures Volume(candles).Some? <==> forall i | 0 <= i < |candles| :: candles[i].volume.Some?
    ensures Turnover(candles).Some? <==> forall i | 0 <= i < |candles| :: candles[i].turnover.Some?
  {
    if candles != [] {
      KnownIff(candles[..|candles| - 1]);
    }
  }

  // --------------------------------------------------------------- validity

  predicate Coherent(c: Candle) {
    c.low <= c.open <= c.high && c.low <= c.close <= c.high
  }

  lemma {:induction false} RangeBounds(candles: seq<Candle>, i: nat)
    requires i < |candles|
    ensures Low(candles) <= candles[i].low && candles[i].high <= High(candles)
  {
    if i < |candles| - 1 {
      RangeBounds(candles[..|candles| - 1], i);
    }
  }

  lemma {:induction false} MergeIsCoherent(candles: seq<Candle>)
    requires candles != [] && forall i | 0 <= i < |candles| :: Coherent(candles[i])
    ensures Coherent(Merge(candles))
  {
    RangeBounds(candles, 0);
    RangeBounds(candles, |candles| - 1);
  }

  // A record passes validation with a trade exactly when it has a coherent raw candle
  // whose volume, if known, is not negative.
  lemma {:induction false} ValidatedIffCoherent(r: DailyPriceRecord)
    ensures ValidatePrice(r).None? && HasTrade(r) <==>
              && PriceCandle(r, RawBasis).Some? && Coherent(PriceCandle(r, RawBasis).value)
              && (r.values.volume.Some? ==> r.values.volume.value >= 0)
  {
  }

  lemma {:induction false} DailyIsCoherent(records: seq<DailyPriceRecord>)
    requires forall i | 0 <= i < |records| :: ValidatePrice(records[i]).None?
    ensures forall i | 0 <= i < |DailyCandles(records, RawBasis)| :: Coherent(DailyCandles(records, RawBasis)[i])
  {
    if records != [] {
      DailyIsCoherent(records[..|records| - 1]);
      ValidatedIffCoherent(records[|records| - 1]);
    }
  }

  lemma {:induction false} InFlatten(groups: seq<Group<Period, Candle>>, g: nat, k: nat)
    requires g < |groups| && k < |groups[g].items|
    ensures groups[g].items[k] in Flatten(groups)
  {
    if g < |groups| - 1 {
      InFlatten(groups[..|groups| - 1], g, k);
    }
  }

  lemma {:induction false} GroupsAreCoherent(groups: seq<Group<Period, Candle>>, g: nat)
    requires NonEmpty(groups) && g < |groups|
    requires forall i | 0 <= i < |Flatten(groups)| :: Coherent(Flatten(groups)[i])
    ensures Coherent(Merge(groups[g].items))
  {
    forall k | 0 <= k < |groups[g].items| ensures Coherent(groups[g].items[k]) {
      InFlatten(groups, g, k);
    }
    MergeIsCoherent(groups[g].items);
  }

  // Prices that passed validation give coherent raw candles at every interval.
  lemma {:induction false} ValidatedPricesGiveCoherentCandles(records: seq<DailyPriceRecord>, interval: Interval)
    requires forall i | 0 <= i < |records| :: ValidatePrice(records[i]).None?
    ensures var candles := Aggregated(records, interval, RawBasis);
            forall i | 0 <= i < |candles| :: Coherent(candles[i])
  {
    SortIsOrdered(records);
    var sorted := SortByDate(records);
    forall i | 0 <= i < |sorted| ensures ValidatePrice(sorted[i]).None? {
      assert sorted[i] in records;
    }
    DailyIsCoherent(sorted);
    if !interval.DayInterval? {
      var groups := Groups(Days(records, RawBasis), interval.WeekInterval?);
      PeriodsPartitionDays(records, interval.WeekInterval?, RawBasis);
      forall g | 0 <= g < |groups| ensures Coherent(MergeAll(groups)[g]) {
        GroupsAreCoherent(groups, g);
      }
    }
  }
}
