// Continuous futures: one contract a trading day, chosen by volume, open interest or
// expiry, with the days on which the chosen contract changes.
module Futures {
  import opened Wrappers

  datatype RollMethod = Volume | OpenInterest | Expiry

  // Dates, contract months and contract codes are ordered tokens.
  datatype FuturesRow = FuturesRow(
    tradeDate: int, contractCode: int, contractMonth: int, volume: Option<int>, openInterest: Option<int>,
    close: Option<real>)

  datatype Point = Point(selected: FuturesRow, rollDate: Option<int>)

  // `x.volume or -1`: a missing and a zero count read the same.
  function OrMinusOne(count: Option<int>): int {
    if count.Some? && count.value != 0 then count.value else -1
  }

  function Count(row: FuturesRow, rollMethod: RollMethod): Option<int> {
    if rollMethod.Volume? then row.volume else row.openInterest
  }

  // Whether a later candidate replaces the best one so far.
  predicate Beats(rollMethod: RollMethod, a: FuturesRow, b: FuturesRow) {
    if rollMethod.Expiry? then a.contractMonth < b.contractMonth
    else
      var (x, y) := (OrMinusOne(Count(a, rollMethod)), OrMinusOne(Count(b, rollMethod)));
      x > y || (x == y && a.contractMonth > b.contractMonth)
  }

  // The first candidate that none beats.
  function Select(rollMethod: RollMethod, candidates: seq<FuturesRow>): FuturesRow
    requires candidates != []
  {
    if |candidates| == 1 then candidates[0]
    else
      var best := Select(rollMethod, candidates[..|candidates| - 1]);
      var last := candidates[|candidates| - 1];
      if Beats(rollMethod, last, best) then last else best
  }

  // The rows of one date, in their order.
  function OnDate(rows: seq<FuturesRow>, date: int): seq<FuturesRow> {
    if rows == [] then []
    else
      var last := rows[|rows| - 1];
      OnDate(rows[..|rows| - 1], date) + (if last.tradeDate == date then [last] else [])
  }

  ghost predicate Ascending(dates: seq<int>) {
    forall i, j | 0 <= i < j < |dates| :: dates[i] < dates[j]
  }

  function InsertDate(dates: seq<int>, date: int): seq<int> {
    if dates == [] || date < dates[0] then [date] + dates
    else if date == dates[0] then dates
    else [dates[0]] + InsertDate(dates[1..], date)
  }

  // The distinct dates of the rows, ascending.
  function Dates(rows: seq<FuturesRow>): seq<int> {
    if rows == [] then [] else InsertDate(Dates(rows[..|rows| - 1]), rows[|rows| - 1].tradeDate)
  }

  lemma {:induction false} InsertDateSorted(dates: seq<int>, date: int)
    requires Ascending(dates)
    ensures Ascending(InsertDate(dates, date))
    ensures forall d :: d in InsertDate(dates, date) <==> d in dates || d == date
  {
    if dates != [] && date > dates[0] {
      InsertDateSorted(dates[1..], date);
      var rest := InsertDate(dates[1..], date);
      forall i | 0 <= i < |rest| ensures dates[0] < rest[i] {
        assert rest[i] in rest;
      }
    }
  }

  lemma {:induction false} DatesAreDistinctDays(rows: seq<FuturesRow>)
    ensures Ascending(Dates(rows))
    ensures forall d :: d in Dates(rows) <==> exists i :: 0 <= i < |rows| && rows[i].tradeDate == d
    decreases |rows|
  {
    if rows != [] {
      var before, last := rows[..|rows| - 1], rows[|rows| - 1];
      DatesAreDistinctDays(before);
      InsertDateSorted(Dates(before), last.tradeDate);
      forall d
        ensures d in Dates(rows) <==> exists i :: 0 <= i < |rows| && rows[i].tradeDate == d
      {
        if d in Dates(before) {
          var i :| 0 <= i < |before| && before[i].tradeDate == d;
          assert rows[i].tradeDate == d;
        }
        if d == last.tradeDate {
          assert rows[|rows| - 1].tradeDate == d;
        }
        if i :| 0 <= i < |rows| && rows[i].tradeDate == d {
          assert i < |before| ==> before[i].tradeDate == d;
        }
      }
    }
  }

  lemma {:induction false} OnDateMembers(rows: seq<FuturesRow>, date: int)
    ensures forall row :: row in OnDate(rows, date) <==> row in rows && row.tradeDate == date
    decreases |rows|
  {
    if rows != [] {
      OnDateMembers(rows[..|rows| - 1], date);
    }
  }

  // ------------------------------------------------------------- the service

  ghost predicate Grouped(grouped: map<int, seq<FuturesRow>>, rows: seq<FuturesRow>) {
    && (forall d :: d in grouped <==> OnDate(rows, d) != [])
    && (forall d | d in grouped :: grouped[d] == OnDate(rows, d))
  }

  function RollDate(previous: Option<int>, selected: FuturesRow, date: int): Option<int> {
    if previous.Some? && previous.value != selected.contractCode then Some(date) else None
  }

  function Previous(series: seq<Point>, i: nat): Option<int>
    requires i <= |series|
  {
    if i == 0 then None else Some(series[i - 1].selected.contractCode)
  }

  ghost predicate IsPoint(rows: seq<FuturesRow>, rollMethod: RollMethod, series: seq<Point>, i: nat, date: int)
    requires i < |series|
  {
    && OnDate(rows, date) != []
    && series[i].selected == Select(rollMethod, OnDate(rows, date))
    && series[i].rollDate == RollDate(Previous(series, i), series[i].selected, date)
  }

  ghost predicate ArePoints(rows: seq<FuturesRow>, rollMethod: RollMethod, series: seq<Point>, dates: seq<int>) {
    |series| == |dates| && forall i | 0 <= i < |series| :: IsPoint(rows, rollMethod, series, i, dates[i])
  }

  // What the series must be: a point for each distinct date, ascending; on it the selected
  // row of that date; a roll date exactly where the contract differs from the day before.
  ghost predicate IsSeries(rows: seq<FuturesRow>, rollMethod: RollMethod, series: seq<Point>) {
    ArePoints(rows, rollMethod, series, Dates(rows))
  }

  // `grouped[row.trade_date].append(row)` for each row.
  function Groups(rows: seq<FuturesRow>): map<int, seq<FuturesRow>> {
    if rows == [] then map[]
    else
      var before, last := Groups(rows[..|rows| - 1]), rows[|rows| - 1];
      before[last.tradeDate := (if last.tradeDate in before then before[last.tradeDate] else []) + [last]]
  }

  lemma {:induction false} GroupsAreDays(rows: seq<FuturesRow>)
    ensures Grouped(Groups(rows), rows)
    decreases |rows|
  {
    if rows != [] {
      var before := rows[..|rows| - 1];
      GroupsAreDays(before);
      forall d
        ensures d in Groups(rows) <==> OnDate(rows, d) != []
        ensures d in Groups(rows) ==> Groups(rows)[d] == OnDate(rows, d)
      {
        assert d in Groups(before) <==> OnDate(before, d) != [];
      }
    }
  }

  method Group(rows: seq<FuturesRow>) returns (grouped: map<int, seq<FuturesRow>>)
    ensures grouped == Groups(rows)
  {
    grouped := map[];
    for i := 0 to |rows|
      invariant grouped == Groups(rows[..i])
    {
      var row := rows[i];
      assert rows[..i + 1][..i] == rows[..i];
      var group := if row.tradeDate in grouped then grouped[row.tradeDate] else [];
      grouped := grouped[row.tradeDate := group + [row]];
    }
    assert rows[..|rows|] == rows;
  }

  method Choose(rollMethod: RollMethod, candidates: seq<FuturesRow>) returns (best: FuturesRow)
    requires candidates != []
    ensures best == Select(rollMethod, candidates)
  {
    best := candidates[0];
    for i := 1 to |candidates|
      invariant best == Select(rollMethod, candidates[..i])
    {
      assert candidates[..i + 1][..i] == candidates[..i];
      if Beats(rollMethod, candidates[i], best) {
        best := candidates[i];
      }
    }
    assert candidates[..|candidates|] == candidates;
  }

  // The points of the given days, each day's rows taken from its group.
  function PointsOf(groups: map<int, seq<FuturesRow>>, rollMethod: RollMethod, dates: seq<int>): (series: seq<Point>)
    requires forall i | 0 <= i < |dates| :: dates[i] in groups && groups[dates[i]] != []
    ensures |series| == |dates|
  {
    if dates == [] then []
    else
      var n := |dates| - 1;
      var before := PointsOf(groups, rollMethod, dates[..n]);
      var selected := Select(rollMethod, groups[dates[n]]);
      before + [Point(selected, RollDate(Previous(before, n), selected, dates[n]))]
  }

  // One point for each date, with the roll date told from the contract of the one before.
  method BuildPoints(
      grouped: map<int, seq<FuturesRow>>, rollMethod: RollMethod, dates: seq<int>) returns (result: seq<Point>)
    requires forall i | 0 <= i < |dates| :: dates[i] in grouped && grouped[dates[i]] != []
    ensures result == PointsOf(grouped, rollMethod, dates)
  {
    result := [];
    var previous: Option<int> := None;
    for i := 0 to |dates|
      invariant |result| == i && previous == Previous(result, i)
      invariant result == PointsOf(grouped, rollMethod, dates[..i])
    {
      var selected := Choose(rollMethod, grouped[dates[i]]);
      var rolled := previous.Some? && previous.value != selected.contractCode;
      assert dates[..i + 1][..i] == dates[..i];
      result := result + [Point(selected, if rolled then Some(dates[i]) else None)];
      previous := Some(selected.contractCode);
    }
    assert dates[..|dates|] == dates;
  }

  method Build(rows: seq<FuturesRow>, rollMethod: RollMethod) returns (result: seq<Point>)
    ensures IsSeries(rows, rollMethod, result) && IsContinuous(rows, rollMethod, result)
  {
    var grouped := Group(rows);
    DaysHaveGroups(rows);
    result := BuildPoints(grouped, rollMethod, Dates(rows));
    PointsAreSeries(grouped, rows, rollMethod, Dates(rows));
    SeriesIsContinuous(rows, rollMethod, result);
  }

  lemma {:induction false} DaysHaveGroups(rows: seq<FuturesRow>)
    ensures DayGroups(Groups(rows), rows, Dates(rows))
  {
    forall i | 0 <= i < |Dates(rows)|
      ensures Dates(rows)[i] in Groups(rows) && Groups(rows)[Dates(rows)[i]] == OnDate(rows, Dates(rows)[i]) != []
    {
      DayHasGroup(rows, i);
    }
  }

  ghost predicate DayGroups(groups: map<int, seq<FuturesRow>>, rows: seq<FuturesRow>, dates: seq<int>) {
    forall i | 0 <= i < |dates| ::
      dates[i] in groups && groups[dates[i]] == OnDate(rows, dates[i]) && groups[dates[i]] != []
  }

  lemma {:induction false} PointsAreSeries(
      groups: map<int, seq<FuturesRow>>, rows: seq<FuturesRow>, rollMethod: RollMethod, dates: seq<int>)
    requires DayGroups(groups, rows, dates)
    ensures ArePoints(rows, rollMethod, PointsOf(groups, rollMethod, dates), dates)
    decreases |dates|
  {
    if dates != [] {
      var n := |dates| - 1;
      PointsAreSeries(groups, rows, rollMethod, dates[..n]);
      var before := PointsOf(groups, rollMethod, dates[..n]);
      var selected := Select(rollMethod, groups[dates[n]]);
      var point := Point(selected, RollDate(Previous(before, n), selected, dates[n]));
      OnePointMore(rows, rollMethod, before, dates[..n], point, dates[n]);
      assert dates == dates[..n] + [dates[n]];
      assert PointsOf(groups, rollMethod, dates) == before + [point];
    }
  }

  lemma {:induction false} OnePointMore(
      rows: seq<FuturesRow>, rollMethod: RollMethod, series: seq<Point>, dates: seq<int>, point: Point, date: int)
    requires ArePoints(rows, rollMethod, series, dates)
    requires OnDate(rows, date) != [] && point.selected == Select(rollMethod, OnDate(rows, date))
    requires point.rollDate == RollDate(Previous(series, |series|), point.selected, date)
    ensures ArePoints(rows, rollMethod, series + [point], dates + [date])
  {
    var longer := series + [point];
    forall k | 0 <= k < |longer|
      ensures IsPoint(rows, rollMethod, longer, k, (dates + [date])[k])
    {
      assert Previous(longer, k) == Previous(series, k);
      assert k < |series| ==> IsPoint(rows, rollMethod, series, k, dates[k]);
    }
  }

  lemma {:induction false} DayHasGroup(rows: seq<FuturesRow>, i: nat)
    requires i < |Dates(rows)|
    ensures Dates(rows)[i] in Groups(rows) && Groups(rows)[Dates(rows)[i]] == OnDate(rows, Dates(rows)[i]) != []
  {
    GroupsAreDays(rows);
    DatesHaveRows(rows);
  }

  lemma {:induction false} DatesHaveRows(rows: seq<FuturesRow>)
    ensures forall i | 0 <= i < |Dates(rows)| :: OnDate(rows, Dates(rows)[i]) != []
  {
    forall i | 0 <= i < |Dates(rows)|
      ensures OnDate(rows, Dates(rows)[i]) != []
    {
      var d := Dates(rows)[i];
      DatesAreDistinctDays(rows);
      OnDateMembers(rows, d);
      assert d in Dates(rows);
      var k :| 0 <= k < |rows| && rows[k].tradeDate == d;
      assert rows[k] in OnDate(rows, d);
    }
  }

  // -------------------------------------------------------------- properties

  // What the choice means without the -1: by traded volume (or open interest) with missing
  // read as none, the later contract month breaking ties; or by the nearest month.
  function Known(count: Option<int>): int {
    if count.Some? then count.value else 0
  }

  ghost predicate AtLeastAsGood(rollMethod: RollMethod, a: FuturesRow, b: FuturesRow) {
    if rollMethod.Expiry? then a.contractMonth <= b.contractMonth
    else
      var (x, y) := (Known(Count(a, rollMethod)), Known(Count(b, rollMethod)));
      x > y || (x == y && a.contractMonth >= b.contractMonth)
  }

  ghost predicate NonNegativeCounts(rows: seq<FuturesRow>) {
    forall row | row in rows :: Known(row.volume) >= 0 && Known(row.openInterest) >= 0
  }

  lemma {:induction false} SelectIsOptimal(rollMethod: RollMethod, candidates: seq<FuturesRow>)
    requires candidates != [] && NonNegativeCounts(candidates)
    ensures Select(rollMethod, candidates) in candidates
    ensures forall row | row in candidates :: AtLeastAsGood(rollMethod, Select(rollMethod, candidates), row)
    decreases |candidates|
  {
    if |candidates| > 1 {
      var before := candidates[..|candidates| - 1];
      assert forall row | row in before :: row in candidates;
      SelectIsOptimal(rollMethod, before);
      forall row | row in candidates
        ensures AtLeastAsGood(rollMethod, Select(rollMethod, candidates), row)
      {
        assert row in before || row == candidates[|candidates| - 1];
      }
    }
  }

  // One point for each distinct date, strictly ascending, the best row of that date.
  lemma {:induction false} SeriesIsOptimal(rows: seq<FuturesRow>, rollMethod: RollMethod, series: seq<Point>)
    requires IsSeries(rows, rollMethod, series) && NonNegativeCounts(rows)
    ensures forall i, j | 0 <= i < j < |series| :: series[i].selected.tradeDate < series[j].selected.tradeDate
    ensures forall row | row in rows :: exists i :: 0 <= i < |series| && series[i].selected.tradeDate == row.tradeDate
    ensures forall i | 0 <= i < |series| :: series[i].selected in rows
    ensures forall i, row | 0 <= i < |series| && row in rows && row.tradeDate == series[i].selected.tradeDate ::
              AtLeastAsGood(rollMethod, series[i].selected, row)
  {
    var dates := Dates(rows);
    DatesAreDistinctDays(rows);
    forall i | 0 <= i < |series|
      ensures series[i].selected in rows && series[i].selected.tradeDate == dates[i]
      ensures forall row | row in rows && row.tradeDate == dates[i] ::
              AtLeastAsGood(rollMethod, series[i].selected, row)
    {
      assert IsPoint(rows, rollMethod, series, i, dates[i]);
      OnDateMembers(rows, dates[i]);
      SelectIsOptimal(rollMethod, OnDate(rows, dates[i]));
    }
    forall row | row in rows
      ensures exists i :: 0 <= i < |series| && series[i].selected.tradeDate == row.tradeDate
    {
      var k :| 0 <= k < |rows| && rows[k] == row;
      assert rows[k].tradeDate in dates;
      var i :| 0 <= i < |dates| && dates[i] == row.tradeDate;
      assert series[i].selected.tradeDate == row.tradeDate;
    }
  }

  lemma {:induction false} ZeroIsMissing(rollMethod: RollMethod, a: FuturesRow, b: FuturesRow, c: FuturesRow)
    requires rollMethod.Volume? ==> b == a.(volume := None) && Known(a.volume) == 0
    requires rollMethod.OpenInterest? ==> b == a.(openInterest := None) && Known(a.openInterest) == 0
    requires rollMethod.Expiry? ==> b == a
    ensures Beats(rollMethod, a, c) == Beats(rollMethod, b, c) && Beats(rollMethod, c, a) == Beats(rollMethod, c, b)
  {
  }

  // The row with a zero count left out.
  function WithoutZero(rollMethod: RollMethod, row: FuturesRow): FuturesRow {
    if rollMethod.Volume? && Known(row.volume) == 0 then row.(volume := None)
    else if rollMethod.OpenInterest? && Known(row.openInterest) == 0 then row.(openInterest := None)
    else row
  }

  function WithoutZeros(rollMethod: RollMethod, rows: seq<FuturesRow>): seq<FuturesRow> {
    seq(|rows|, i requires 0 <= i < |rows| => WithoutZero(rollMethod, rows[i]))
  }

  // A zero count and a missing one are the same to the choice: leaving zero counts out
  // selects the same row.
  lemma {:induction false} ZerosDoNotMatter(rollMethod: RollMethod, candidates: seq<FuturesRow>)
    requires candidates != []
    ensures Select(rollMethod, WithoutZeros(rollMethod, candidates))
            == WithoutZero(rollMethod, Select(rollMethod, candidates))
  {
    if |candidates| > 1 {
      var before, last := candidates[..|candidates| - 1], candidates[|candidates| - 1];
      ZerosDoNotMatter(rollMethod, before);
      var blanked := WithoutZeros(rollMethod, candidates);
      assert blanked[..|candidates| - 1] == WithoutZeros(rollMethod, before);
      var best := Select(rollMethod, before);
      BlankBeats(rollMethod, last, best);
    }
  }

  lemma {:induction false} BlankBeats(rollMethod: RollMethod, a: FuturesRow, b: FuturesRow)
    ensures Beats(rollMethod, WithoutZero(rollMethod, a), WithoutZero(rollMethod, b)) == Beats(rollMethod, a, b)
  {
    var (x, y) := (WithoutZero(rollMethod, a), WithoutZero(rollMethod, b));
    if x != a {
      ZeroIsMissing(rollMethod, a, x, b);
    }
    if y != b {
      ZeroIsMissing(rollMethod, b, y, x);
    }
  }

  // What the ranking reads: a count that is missing or zero counts as -1.
  function Weight(rollMethod: RollMethod, row: FuturesRow): int {
    match rollMethod
    case Volume => if row.volume.None? || row.volume == Some(0) then -1 else row.volume.value
    case OpenInterest => if row.openInterest.None? || row.openInterest == Some(0) then -1 else row.openInterest.value
    case Expiry => 0
  }

  // More volume or open interest, then the later month; by expiry, the earlier month.
  predicate Better(rollMethod: RollMethod, a: FuturesRow, b: FuturesRow) {
    if rollMethod.Expiry? then a.contractMonth < b.contractMonth
    else
      || Weight(rollMethod, a) > Weight(rollMethod, b)
      || (Weight(rollMethod, a) == Weight(rollMethod, b) && a.contractMonth > b.contractMonth)
  }

  // The first of the best candidates, whatever their counts.
  lemma {:induction false} SelectIsFirstBest(rollMethod: RollMethod, candidates: seq<FuturesRow>) returns (i: nat)
    requires candidates != []
    ensures i < |candidates| && Select(rollMethod, candidates) == candidates[i]
    ensures forall j | 0 <= j < |candidates| :: !Better(rollMethod, candidates[j], candidates[i])
    ensures forall j | 0 <= j < i :: Better(rollMethod, candidates[i], candidates[j])
  {
    if |candidates| == 1 {
      i := 0;
    } else {
      var last := |candidates| - 1;
      var before := SelectIsFirstBest(rollMethod, candidates[..last]);
      assert forall j | 0 <= j < last :: candidates[..last][j] == candidates[j];
      i := if Better(rollMethod, candidates[last], candidates[before]) then last else before;
    }
  }

  // The positions of the rows of a date, in order.
  ghost predicate RowsAt(rows: seq<FuturesRow>, date: int, at: seq<int>) {
    && (forall i, j | 0 <= i < j < |at| :: at[i] < at[j])
    && forall k :: k in at <==> 0 <= k < |rows| && rows[k].tradeDate == date
  }

  predicate ReadsAt(rows: seq<FuturesRow>, at: seq<int>, some: seq<FuturesRow>) {
    |some| == |at| && forall i | 0 <= i < |at| :: 0 <= at[i] < |rows| && some[i] == rows[at[i]]
  }

  lemma {:induction false} OnDateAt(rows: seq<FuturesRow>, date: int) returns (at: seq<int>)
    ensures RowsAt(rows, date, at) && ReadsAt(rows, at, OnDate(rows, date))
  {
    if rows == [] {
      at := [];
    } else {
      var last := |rows| - 1;
      var before := OnDateAt(rows[..last], date);
      at := if rows[last].tradeDate == date then before + [last] else before;
      OneRowMore(rows, date, before);
      ReadsMore(rows, before, OnDate(rows[..last], date));
      assert OnDate(rows[..last], date) + [] == OnDate(rows[..last], date);
    }
  }

  lemma {:induction false} ReadsMore(rows: seq<FuturesRow>, at: seq<int>, some: seq<FuturesRow>)
    requires rows != [] && ReadsAt(rows[..|rows| - 1], at, some)
    ensures ReadsAt(rows, at, some) && ReadsAt(rows, at + [|rows| - 1], some + [rows[|rows| - 1]])
  {
  }

  lemma {:induction false} OneRowMore(rows: seq<FuturesRow>, date: int, before: seq<int>)
    requires rows != [] && RowsAt(rows[..|rows| - 1], date, before)
    ensures RowsAt(rows, date, if rows[|rows| - 1].tradeDate == date then before + [|rows| - 1] else before)
  {
    var last := |rows| - 1;
    var at := if rows[last].tradeDate == date then before + [last] else before;
    forall i | 0 <= i < |before| ensures before[i] < last {
      assert before[i] in before;
    }
    forall k ensures k in at <==> 0 <= k < |rows| && rows[k].tradeDate == date {
      assert k in before <==> 0 <= k < last && rows[..last][k].tradeDate == date;
    }
  }

  // The row at this position is the first of the best of its date.
  ghost predicate IsChoice(rows: seq<FuturesRow>, rollMethod: RollMethod, k: int) {
    && 0 <= k < |rows|
    && forall j | 0 <= j < |rows| && rows[j].tradeDate == rows[k].tradeDate ::
         !Better(rollMethod, rows[j], rows[k]) && (j < k ==> Better(rollMethod, rows[k], rows[j]))
  }

  lemma {:induction false} PointIsChoice(
      rows: seq<FuturesRow>, rollMethod: RollMethod, series: seq<Point>, i: nat) returns (k: int)
    requires IsSeries(rows, rollMethod, series) && i < |series|
    ensures IsChoice(rows, rollMethod, k) && series[i].selected == rows[k]
    ensures rows[k].tradeDate == Dates(rows)[i]
  {
    var date := Dates(rows)[i];
    assert IsPoint(rows, rollMethod, series, i, date);
    var at := OnDateAt(rows, date);
    var n := SelectIsFirstBest(rollMethod, OnDate(rows, date));
    k := at[n];
    assert k in at;
    forall j | 0 <= j < |rows| && rows[j].tradeDate == date
      ensures !Better(rollMethod, rows[j], rows[k]) && (j < k ==> Better(rollMethod, rows[k], rows[j]))
    {
      assert j in at;
      var m :| 0 <= m < |at| && at[m] == j;
      assert OnDate(rows, date)[m] == rows[j];
    }
  }

  // The series, exactly: strictly ascending dates, one point for every date of the rows, the
  // first best row of that date, and a roll date, that date, iff its contract differs from
  // the one before.
  ghost predicate IsContinuous(rows: seq<FuturesRow>, rollMethod: RollMethod, series: seq<Point>) {
    && (forall i, j | 0 <= i < j < |series| :: series[i].selected.tradeDate < series[j].selected.tradeDate)
    && (forall k | 0 <= k < |rows| ::
       exists i :: 0 <= i < |series| && series[i].selected.tradeDate == rows[k].tradeDate)
    && (forall i | 0 <= i < |series| :: exists k :: IsChoice(rows, rollMethod, k) && series[i].selected == rows[k])
    && (forall i | 0 <= i < |series| ::
          series[i].rollDate
          == if i > 0 && series[i].selected.contractCode != series[i - 1].selected.contractCode
             then Some(series[i].selected.tradeDate) else None)
  }

  lemma {:induction false} SeriesIsContinuous(rows: seq<FuturesRow>, rollMethod: RollMethod, series: seq<Point>)
    requires IsSeries(rows, rollMethod, series)
    ensures IsContinuous(rows, rollMethod, series)
  {
    var dates := Dates(rows);
    DatesAreDistinctDays(rows);
    forall i | 0 <= i < |series|
      ensures exists k :: IsChoice(rows, rollMethod, k) && series[i].selected == rows[k]
      ensures series[i].selected.tradeDate == dates[i]
    {
      var k := PointIsChoice(rows, rollMethod, series, i);
    }
    forall k | 0 <= k < |rows|
      ensures exists i :: 0 <= i < |series| && series[i].selected.tradeDate == rows[k].tradeDate {
      assert rows[k].tradeDate in dates;
      var i :| 0 <= i < |dates| && dates[i] == rows[k].tradeDate;
    }
    forall i | 0 <= i < |series|
      ensures series[i].rollDate
              == if i > 0 && series[i].selected.contractCode != series[i - 1].selected.contractCode
                 then Some(series[i].selected.tradeDate) else None
    {
      assert IsPoint(rows, rollMethod, series, i, dates[i]);
    }
  }

  // Roll dates cut the series into its maximal runs of one contract: two points lie in one
  // run exactly when no roll date falls after the first up to the second.
  lemma {:induction false} RollsAreRunBoundaries(
      rows: seq<FuturesRow>, rollMethod: RollMethod, series: seq<Point>, i: nat, j: nat)
    requires IsSeries(rows, rollMethod, series) && i <= j < |series|
    ensures (forall k | i < k <= j :: series[k].rollDate.None?)
       <==> (forall k | i <= k <= j :: series[k].selected.contractCode == series[i].selected.contractCode)
    decreases j
  {
    if i < j {
      RollsAreRunBoundaries(rows, rollMethod, series, i, j - 1);
      assert IsPoint(rows, rollMethod, series, j, Dates(rows)[j]);
      assert series[j].rollDate.None? <==> series[j - 1].selected.contractCode == series[j].selected.contractCode;
    }
  }

  // ------------------------------------------------------ appending later days

  ghost predicate LaterThan(rows: seq<FuturesRow>, more: seq<FuturesRow>) {
    forall i, j | 0 <= i < |rows| && 0 <= j < |more| :: rows[i].tradeDate < more[j].tradeDate
  }

  lemma {:induction false} InsertLater(dates: seq<int>, more: seq<int>, date: int)
    requires forall i | 0 <= i < |dates| :: dates[i] < date
    ensures InsertDate(dates + more, date) == dates + InsertDate(more, date)
  {
    if dates == [] {
      assert dates + more == more;
    } else {
      assert (dates + more)[1..] == dates[1..] + more;
      InsertLater(dates[1..], more, date);
    }
  }

  lemma {:induction false} DatesAppend(rows: seq<FuturesRow>, more: seq<FuturesRow>)
    requires LaterThan(rows, more)
    ensures Dates(rows + more) == Dates(rows) + Dates(more)
    decreases |more|
  {
    if more == [] {
      assert rows + more == rows;
    } else {
      var before, last := more[..|more| - 1], more[|more| - 1];
      assert (rows + more)[..|rows + more| - 1] == rows + before;
      DatesAppend(rows, before);
      DatesAreDistinctDays(rows);
      forall i | 0 <= i < |Dates(rows)| ensures Dates(rows)[i] < last.tradeDate {
        assert Dates(rows)[i] in Dates(rows);
      }
      InsertLater(Dates(rows), Dates(before), last.tradeDate);
    }
  }

  lemma {:induction false} OnDateAppend(rows: seq<FuturesRow>, more: seq<FuturesRow>, date: int)
    requires forall j | 0 <= j < |more| :: more[j].tradeDate != date
    ensures OnDate(rows + more, date) == OnDate(rows, date)
    decreases |more|
  {
    if more == [] {
      assert rows + more == rows;
    } else {
      assert (rows + more)[..|rows + more| - 1] == rows + more[..|more| - 1];
      OnDateAppend(rows, more[..|more| - 1], date);
    }
  }

  // Appending rows of later days leaves every earlier point as it was.
  lemma {:induction false} AppendKeepsPrefix(
      rows: seq<FuturesRow>, more: seq<FuturesRow>, rollMethod: RollMethod, series: seq<Point>, longer: seq<Point>)
    requires LaterThan(rows, more)
    requires IsSeries(rows, rollMethod, series) && IsSeries(rows + more, rollMethod, longer)
    ensures |series| <= |longer| && longer[..|series|] == series
  {
    DatesAppend(rows, more);
    DatesAreDistinctDays(rows);
    var dates := Dates(rows);
    forall i | 0 <= i < |series|
      ensures longer[i].selected == series[i].selected
    {
      assert IsPoint(rows, rollMethod, series, i, dates[i]);
      assert IsPoint(rows + more, rollMethod, longer, i, Dates(rows + more)[i]);
      assert Dates(rows + more)[i] == dates[i] && dates[i] in dates;
      var k :| 0 <= k < |rows| && rows[k].tradeDate == dates[i];
      OnDateAppend(rows, more, dates[i]);
    }
    forall i | 0 <= i < |series|
      ensures longer[i] == series[i]
    {
      assert IsPoint(rows, rollMethod, series, i, dates[i]);
      assert IsPoint(rows + more, rollMethod, longer, i, Dates(rows + more)[i]);
      assert Previous(longer, i) == Previous(series, i) by {
        if i > 0 {
          assert longer[i - 1].selected == series[i - 1].selected;
        }
      }
    }
  }
}
