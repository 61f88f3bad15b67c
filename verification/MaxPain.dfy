// Option max pain: the listed strike with the least total payout, and why scanning the
// listed strikes is enough.
module MaxPain {
  import opened Wrappers

  datatype OptionType = Call | Put

  datatype OptionRow = OptionRow(optionType: OptionType, strike: real, openInterest: Option<int>)

  // The ingestion check of an option row.
  function OptionError(row: OptionRow): Option<string> {
    if row.strike <= 0.0 || (row.openInterest.Some? && row.openInterest.value < 0) then Some("INVALID_OPTION_OI")
      else None
  }

  ghost predicate Ingested(rows: seq<OptionRow>) {
    forall i | 0 <= i < |rows| :: OptionError(rows[i]).None?
  }

  // The rows that pass: a positive strike, and no negative open interest.
  lemma {:induction false} IngestedIff(rows: seq<OptionRow>)
    ensures Ingested(rows) <==> forall i | 0 <= i < |rows| ::
              rows[i].strike > 0.0 && (rows[i].openInterest.Some? ==> rows[i].openInterest.value >= 0)
    ensures forall i | 0 <= i < |rows| && OptionError(rows[i]).Some? ::
              OptionError(rows[i]).value == "INVALID_OPTION_OI"
  {
    if Ingested(rows) {
      forall i | 0 <= i < |rows|
        ensures rows[i].strike > 0.0 && (rows[i].openInterest.Some? ==> rows[i].openInterest.value >= 0)
      {
        assert OptionError(rows[i]).None?;
      }
    }
    if forall i | 0 <= i < |rows| ::
         rows[i].strike > 0.0 && (rows[i].openInterest.Some? ==> rows[i].openInterest.value >= 0) {
      forall i | 0 <= i < |rows| ensures OptionError(rows[i]).None? {
      }
    }
  }

  predicate Open(rows: seq<OptionRow>) {
    forall i | 0 <= i < |rows| :: rows[i].openInterest.Some?
  }

  function Valid(rows: seq<OptionRow>): (valid: seq<OptionRow>)
    ensures Open(valid)
    ensures forall row :: row in valid <==> row in rows && row.openInterest.Some?
  {
    if rows == [] then []
    else
      var last := rows[|rows| - 1];
      Valid(rows[..|rows| - 1]) + (if last.openInterest.Some? then [last] else [])
  }

  function Intrinsic(optionType: OptionType, strike: real, price: real): real {
    match optionType
    case Call => if price > strike then price - strike else 0.0
    case Put => if strike > price then strike - price else 0.0
  }

  function Cost(row: OptionRow, price: real): real
    requires row.openInterest.Some?
  {
    Intrinsic(row.optionType, row.strike, price) * row.openInterest.value as real
  }

  function Total(xs: seq<real>): real {
    if xs == [] then 0.0 else Total(xs[..|xs| - 1]) + xs[|xs| - 1]
  }

  function Costs(valid: seq<OptionRow>, price: real): seq<real>
    requires Open(valid)
  {
    seq(|valid|, i requires 0 <= i < |valid| => Cost(valid[i], price))
  }

  // What all writers together pay if the settlement price is `price`.
  function Payout(valid: seq<OptionRow>, price: real): real
    requires Open(valid)
  {
    Total(Costs(valid, price))
  }

  ghost predicate Listed(valid: seq<OptionRow>, price: real) {
    exists i :: 0 <= i < |valid| && valid[i].strike == price
  }

  ghost predicate Ascending(xs: seq<real>) {
    forall i, j | 0 <= i < j < |xs| :: xs[i] < xs[j]
  }

  // The least payout over the listed strikes, and all strikes that reach it, ascending.
  ghost predicate ListedMinimum(valid: seq<OptionRow>, ties: seq<real>, payout: real)
    requires Open(valid)
  {
    && ties != []
    && Ascending(ties)
    && (forall price :: price in ties <==> Listed(valid, price) && Payout(valid, price) == payout)
    && (forall price | Listed(valid, price) :: payout <= Payout(valid, price))
  }

  // ------------------------------------------------------------- the service

  // Places a strike in an ascending list that does not hold it yet.
  method Insert(sorted: seq<real>, x: real) returns (r: seq<real>)
    requires Ascending(sorted)
    ensures Ascending(r)
    ensures forall y :: y in r <==> y in sorted || y == x
  {
    var i := 0;
    while i < |sorted| && sorted[i] < x
      invariant 0 <= i <= |sorted|
      invariant forall k | 0 <= k < i :: sorted[k] < x
    {
      i := i + 1;
    }
    if i < |sorted| && sorted[i] == x {
      return sorted;
    }
    r := sorted[..i] + [x] + sorted[i..];
    assert sorted == sorted[..i] + sorted[i..];
  }

  method SortedStrikes(valid: seq<OptionRow>) returns (strikes: seq<real>)
    ensures Ascending(strikes)
    ensures forall price :: price in strikes <==> Listed(valid, price)
  {
    strikes := [];
    for i := 0 to |valid|
      invariant Ascending(strikes)
      invariant forall price :: price in strikes <==> exists k :: 0 <= k < i && valid[k].strike == price
    {
      strikes := Insert(strikes, valid[i].strike);
    }
  }

  method TotalPayout(valid: seq<OptionRow>, candidate: real) returns (total: real)
    requires Open(valid)
    ensures total == Payout(valid, candidate)
  {
    total := 0.0;
    ghost var costs := Costs(valid, candidate);
    for i := 0 to |valid|
      invariant total == Total(costs[..i])
    {
      var row := valid[i];
      var intrinsic := if row.optionType.Call?
        then (if candidate - row.strike > 0.0 then candidate - row.strike else 0.0)
        else (if row.strike - candidate > 0.0 then row.strike - candidate else 0.0);
      total := total + intrinsic * row.openInterest.value as real;
      assert costs[..i + 1][..i] == costs[..i] && costs[i] == Cost(row, candidate);
    }
    assert costs[..|valid|] == costs;
  }

  method Payouts(valid: seq<OptionRow>, candidates: seq<real>) returns (payouts: seq<real>)
    requires Open(valid)
    ensures |payouts| == |candidates|
    ensures forall k | 0 <= k < |candidates| :: payouts[k] == Payout(valid, candidates[k])
  {
    payouts := [];
    for i := 0 to |candidates|
      invariant |payouts| == i
      invariant forall k | 0 <= k < i :: payouts[k] == Payout(valid, candidates[k])
    {
      var total := TotalPayout(valid, candidates[i]);
      payouts := payouts + [total];
    }
  }

  method Least(payouts: seq<real>) returns (minimum: real)
    requires payouts != []
    ensures minimum in payouts
    ensures forall k | 0 <= k < |payouts| :: minimum <= payouts[k]
  {
    minimum := payouts[0];
    for i := 1 to |payouts|
      invariant minimum in payouts
      invariant forall k | 0 <= k < i :: minimum <= payouts[k]
    {
      if payouts[i] < minimum {
        minimum := payouts[i];
      }
    }
  }

  // The candidates whose payout is the minimum, in their order.
  method Tied(candidates: seq<real>, payouts: seq<real>, minimum: real) returns (ties: seq<real>)
    requires |payouts| == |candidates| && Ascending(candidates)
    ensures Ascending(ties)
    ensures forall x :: x in ties <==> exists k :: 0 <= k < |candidates| && candidates[k] == x && payouts[k] == minimum
  {
    ties := [];
    for i := 0 to |candidates|
      invariant Ascending(ties)
      invariant ties == [] || (i > 0 && ties[|ties| - 1] <= candidates[i - 1])
      invariant forall x | x in ties :: exists k :: 0 <= k < i && candidates[k] == x && payouts[k] == minimum
      invariant forall k | 0 <= k < i && payouts[k] == minimum :: candidates[k] in ties
    {
      if payouts[i] == minimum {
        ties := ties + [candidates[i]];
      }
    }
  }

  datatype Report =
    | Unavailable
    | Reported(first: OptionRow, maxPain: Option<real>, ties: seq<real>, totalIntrinsicPayout: real)

  method Calculate(rows: seq<OptionRow>) returns (report: Report)
    ensures report.Unavailable? <==> Valid(rows) == []
    ensures report.Reported? ==>
              && ListedMinimum(Valid(rows), report.ties, report.totalIntrinsicPayout)
              && report.first == Valid(rows)[0]
              && report.maxPain == (if |report.ties| == 1 then Some(report.ties[0]) else None)
  {
    var valid := Valid(rows);
    if valid == [] {
      return Unavailable;
    }
    var candidates := SortedStrikes(valid);
    assert valid[0].strike in candidates by {
      assert Listed(valid, valid[0].strike);
    }
    var payouts := Payouts(valid, candidates);
    var minimum := Least(payouts);
    var ties := Tied(candidates, payouts, minimum);
    TiesAreMinima(valid, candidates, payouts, minimum, ties);
    report := Reported(valid[0], if |ties| == 1 then Some(ties[0]) else None, ties, minimum);
  }

  lemma {:induction false} TiesAreMinima(
      valid: seq<OptionRow>, candidates: seq<real>, payouts: seq<real>, minimum: real, ties: seq<real>)
    requires Open(valid) && |payouts| == |candidates| && Ascending(ties)
    requires forall price :: price in candidates <==> Listed(valid, price)
    requires forall k | 0 <= k < |candidates| :: payouts[k] == Payout(valid, candidates[k])
    requires minimum in payouts && forall k | 0 <= k < |payouts| :: minimum <= payouts[k]
    requires forall x :: x in ties <==> exists k :: 0 <= k < |candidates| && candidates[k] == x && payouts[k] == minimum
    ensures ListedMinimum(valid, ties, minimum)
  {
    var k :| 0 <= k < |payouts| && payouts[k] == minimum;
    assert candidates[k] in ties;
    forall price
      ensures price in ties <==> Listed(valid, price) && Payout(valid, price) == minimum
    {
      if Listed(valid, price) {
        var n :| 0 <= n < |candidates| && candidates[n] == price;
        assert payouts[n] == Payout(valid, price);
      }
    }
    forall price | Listed(valid, price)
      ensures minimum <= Payout(valid, price)
    {
      var n :| 0 <= n < |candidates| && candidates[n] == price;
      assert payouts[n] == Payout(valid, price);
    }
  }

  // ------------------------------------------------- level of the payout

  // Nothing is paid without options. One option costs its writers the amount by which it is
  // in the money, once for each open contract, and nothing at or beyond its strike.
  lemma {:induction false} PayoutOfOne(row: OptionRow, price: real)
    requires row.openInterest.Some?
    ensures Payout([], price) == 0.0
    ensures row.optionType.Call? && price <= row.strike ==> Payout([row], price) == 0.0
    ensures row.optionType.Call? && row.strike <= price ==>
              Payout([row], price) == (price - row.strike) * row.openInterest.value as real
    ensures row.optionType.Put? && row.strike <= price ==> Payout([row], price) == 0.0
    ensures row.optionType.Put? && price <= row.strike ==>
              Payout([row], price) == (row.strike - price) * row.openInterest.value as real
  {
    var costs := Costs([row], price);
    assert costs == [Cost(row, price)];
    assert costs[..0] == [];
  }

  lemma {:induction false} TotalConcat(xs: seq<real>, ys: seq<real>)
    ensures Total(xs + ys) == Total(xs) + Total(ys)
    decreases |ys|
  {
    if ys == [] {
      assert xs + ys == xs;
    } else {
      TotalConcat(xs, ys[..|ys| - 1]);
      assert (xs + ys)[..|xs + ys| - 1] == xs + ys[..|ys| - 1];
    }
  }

  // What two groups of options cost together is what they cost apart.
  lemma {:induction false} PayoutAdds(a: seq<OptionRow>, b: seq<OptionRow>, price: real)
    requires Open(a) && Open(b)
    ensures Open(a + b) && Payout(a + b, price) == Payout(a, price) + Payout(b, price)
  {
    assert Costs(a + b, price) == Costs(a, price) + Costs(b, price);
    TotalConcat(Costs(a, price), Costs(b, price));
  }

  // The rows with open interest, in their order: each row alone, and what two groups have
  // together is what they have apart.
  lemma {:induction false} ValidOfOne(row: OptionRow)
    ensures Valid([]) == [] && Valid([row]) == if row.openInterest.Some? then [row] else []
  {
    assert [row][..0] == [];
    assert Valid([row]) == Valid([]) + if row.openInterest.Some? then [row] else [];
  }

  lemma {:induction false} ValidAdds(a: seq<OptionRow>, b: seq<OptionRow>)
    ensures Valid(a + b) == Valid(a) + Valid(b)
    decreases |b|
  {
    if b == [] {
      assert a + b == a;
    } else {
      var init, last := b[..|b| - 1], b[|b| - 1];
      ValidAdds(a, init);
      assert (a + b)[..|a + b| - 1] == a + init;
      var tail := if last.openInterest.Some? then [last] else [];
      assert Valid(a + b) == Valid(a + init) + tail;
      assert (Valid(a) + Valid(init)) + tail == Valid(a) + (Valid(init) + tail);
    }
  }

  // ------------------------------------------------- shape of the payout

  // No strike lies strictly between two prices.
  ghost predicate Gap(valid: seq<OptionRow>, a: real, b: real) {
    a <= b && forall i | 0 <= i < |valid| :: valid[i].strike <= a || b <= valid[i].strike
  }

  function Interest(valid: seq<OptionRow>, counts: OptionRow -> bool): seq<real>
    requires Open(valid)
  {
    seq(|valid|, i requires 0 <= i < |valid| => if counts(valid[i]) then valid[i].openInterest.value as real else 0.0)
  }

  // Call open interest at or below a price, put open interest at or above one, and the whole of each.
  function CallsUpTo(valid: seq<OptionRow>, price: real): real
    requires Open(valid)
  {
    Total(Interest(valid, (row: OptionRow) => row.optionType.Call? && row.strike <= price))
  }

  function PutsFrom(valid: seq<OptionRow>, price: real): real
    requires Open(valid)
  {
    Total(Interest(valid, (row: OptionRow) => row.optionType.Put? && price <= row.strike))
  }

  function CallInterest(valid: seq<OptionRow>): real
    requires Open(valid)
  {
    Total(Interest(valid, (row: OptionRow) => row.optionType.Call?))
  }

  function PutInterest(valid: seq<OptionRow>): real
    requires Open(valid)
  {
    Total(Interest(valid, (row: OptionRow) => row.optionType.Put?))
  }

  lemma {:induction false} Distribute(x: real, a: real, b: real)
    ensures x * (a + b) == x * a + x * b
  {
  }

  // Over a distance d a quantity rises from start to end at a constant slope.
  ghost predicate Rises(start: real, end: real, slope: real, d: real) {
    end == start + d * slope
  }

  lemma {:induction false} AddRises(
      start: real, end: real, slope: real, start': real, end': real, slope': real, d: real)
    requires Rises(start, end, slope, d) && Rises(start', end', slope', d)
    ensures Rises(start + start', end + end', slope + slope', d)
  {
    Distribute(d, slope, slope');
  }

  lemma {:induction false} TotalRises(starts: seq<real>, ends: seq<real>, slopes: seq<real>, d: real)
    requires |starts| == |ends| == |slopes|
    requires forall i | 0 <= i < |starts| :: Rises(starts[i], ends[i], slopes[i], d)
    ensures Rises(Total(starts), Total(ends), Total(slopes), d)
    decreases |starts|
  {
    if starts != [] {
      var n := |starts| - 1;
      TotalRises(starts[..n], ends[..n], slopes[..n], d);
      AddRises(Total(starts[..n]), Total(ends[..n]), Total(slopes[..n]), starts[n], ends[n], slopes[n], d);
    }
  }

  lemma {:induction false} TotalSum(xs: seq<real>, ys: seq<real>, zs: seq<real>)
    requires |xs| == |ys| == |zs| && forall i | 0 <= i < |xs| :: xs[i] == ys[i] + zs[i]
    ensures Total(xs) == Total(ys) + Total(zs)
    decreases |xs|
  {
    if xs != [] {
      var n := |xs| - 1;
      TotalSum(xs[..n], ys[..n], zs[..n]);
    }
  }

  lemma {:induction false} TotalNonNegative(xs: seq<real>)
    requires forall i | 0 <= i < |xs| :: xs[i] >= 0.0
    ensures Total(xs) >= 0.0
    decreases |xs|
  {
    if xs != [] {
      TotalNonNegative(xs[..|xs| - 1]);
    }
  }

  // How fast one row's cost rises between two neighbouring strikes.
  function RowSlope(row: OptionRow, a: real, b: real): real
    requires row.openInterest.Some?
  {
    match row.optionType
    case Call => if row.strike <= a then row.openInterest.value as real else 0.0
    case Put => if b <= row.strike then 0.0 - row.openInterest.value as real else 0.0
  }

  lemma {:induction false} RowRises(row: OptionRow, a: real, b: real, p: real, d: real)
    requires row.openInterest.Some? && a <= p <= b && d == p - a && (row.strike <= a || b <= row.strike)
    ensures Rises(Cost(row, a), Cost(row, p), RowSlope(row, a, b), d)
  {
    var n := row.openInterest.value as real;
    if row.optionType.Call? && row.strike <= a {
      assert Intrinsic(Call, row.strike, p) == (a - row.strike) + d;
      Distribute(n, a - row.strike, d);
    } else if row.optionType.Put? && b <= row.strike {
      assert Intrinsic(Put, row.strike, p) == (row.strike - a) + (0.0 - d);
      Distribute(n, row.strike - a, 0.0 - d);
    }
  }

  function Slopes(valid: seq<OptionRow>, a: real, b: real): seq<real>
    requires Open(valid)
  {
    seq(|valid|, i requires 0 <= i < |valid| => RowSlope(valid[i], a, b))
  }

  function Slope(valid: seq<OptionRow>, a: real, b: real): real
    requires Open(valid)
  {
    Total(Slopes(valid, a, b))
  }

  // The slope between neighbouring strikes is the call interest at or below less the put
  // interest at or above.
  lemma {:induction false} SlopeIsInterest(valid: seq<OptionRow>, a: real, b: real)
    requires Open(valid)
    ensures Slope(valid, a, b) == CallsUpTo(valid, a) - PutsFrom(valid, b)
  {
    TotalSum(Interest(valid, (row: OptionRow) => row.optionType.Call? && row.strike <= a), Slopes(valid, a, b),
             Interest(valid, (row: OptionRow) => row.optionType.Put? && b <= row.strike));
  }

  // Between neighbouring strikes the payout is linear: it rises by the distance times
  // the slope.
  lemma {:induction false} PayoutLinear(valid: seq<OptionRow>, a: real, b: real, p: real, d: real)
    requires Open(valid) && Gap(valid, a, b) && a <= p <= b && d == p - a
    ensures Rises(Payout(valid, a), Payout(valid, p), Slope(valid, a, b), d)
  {
    forall i | 0 <= i < |valid|
      ensures Rises(Costs(valid, a)[i], Costs(valid, p)[i], Slopes(valid, a, b)[i], d)
    {
      RowRises(valid[i], a, b, p, d);
    }
    TotalRises(Costs(valid, a), Costs(valid, p), Slopes(valid, a, b), d);
  }

  ghost predicate Lowest(valid: seq<OptionRow>, price: real) {
    Listed(valid, price) && forall i | 0 <= i < |valid| :: price <= valid[i].strike
  }

  ghost predicate Highest(valid: seq<OptionRow>, price: real) {
    Listed(valid, price) && forall i | 0 <= i < |valid| :: valid[i].strike <= price
  }

  lemma {:induction false} SameInterest(valid: seq<OptionRow>, f: OptionRow -> bool, g: OptionRow -> bool)
    requires Open(valid) && forall i | 0 <= i < |valid| :: f(valid[i]) == g(valid[i])
    ensures Interest(valid, f) == Interest(valid, g)
  {
  }

  lemma {:induction false} TotalZero(xs: seq<real>)
    requires forall i | 0 <= i < |xs| :: xs[i] == 0.0
    ensures Total(xs) == 0.0
    decreases |xs|
  {
    if xs != [] {
      TotalZero(xs[..|xs| - 1]);
    }
  }

  // Below every strike the slope is that of all the puts, above that of all the calls.
  lemma {:induction false} SlopeBelow(valid: seq<OptionRow>, low: real, p: real)
    requires Open(valid) && Lowest(valid, low) && p < low
    ensures Gap(valid, p, low) && Slope(valid, p, low) == 0.0 - PutInterest(valid)
  {
    SlopeIsInterest(valid, p, low);
    TotalZero(Interest(valid, (row: OptionRow) => row.optionType.Call? && row.strike <= p));
    SameInterest(valid, (row: OptionRow) => row.optionType.Put? && low <= row.strike,
      (row: OptionRow) => row.optionType.Put?);
    assert PutsFrom(valid, low) == PutInterest(valid);
  }

  lemma {:induction false} SlopeAbove(valid: seq<OptionRow>, high: real, p: real)
    requires Open(valid) && Highest(valid, high) && high < p
    ensures Gap(valid, high, p) && Slope(valid, high, p) == CallInterest(valid)
  {
    SlopeIsInterest(valid, high, p);
    TotalZero(Interest(valid, (row: OptionRow) => row.optionType.Put? && p <= row.strike));
    SameInterest(valid, (row: OptionRow) => row.optionType.Call? && row.strike <= high,
      (row: OptionRow) => row.optionType.Call?);
    assert CallsUpTo(valid, high) == CallInterest(valid);
  }

  // ------------------------------------------------------- global optimality

  lemma {:induction false} LowestExists(valid: seq<OptionRow>) returns (low: real)
    requires valid != []
    ensures Lowest(valid, low)
    decreases |valid|
  {
    var last := valid[|valid| - 1].strike;
    if |valid| == 1 {
      low := last;
    } else {
      var before := LowestExists(valid[..|valid| - 1]);
      low := if before <= last then before else last;
      var k :| 0 <= k < |valid| - 1 && valid[k].strike == before;
    }
    assert Listed(valid, low);
  }

  lemma {:induction false} HighestExists(valid: seq<OptionRow>) returns (high: real)
    requires valid != []
    ensures Highest(valid, high)
    decreases |valid|
  {
    var last := valid[|valid| - 1].strike;
    if |valid| == 1 {
      high := last;
    } else {
      var before := HighestExists(valid[..|valid| - 1]);
      high := if before >= last then before else last;
      var k :| 0 <= k < |valid| - 1 && valid[k].strike == before;
    }
    assert Listed(valid, high);
  }

  // The listed strikes on either side of a price that lies within their range.
  lemma {:induction false} Neighbours(valid: seq<OptionRow>, p: real, low: real, high: real) returns (a: real, b: real)
    requires low <= p <= high
    ensures low <= a <= p <= b <= high && Gap(valid, a, b)
    ensures (a == low || Listed(valid, a)) && (b == high || Listed(valid, b))
    decreases |valid|
  {
    a, b := low, high;
    if valid != [] {
      var k := valid[|valid| - 1].strike;
      var front := valid[..|valid| - 1];
      a, b := Neighbours(front, p, low, high);
      assert a == low || Listed(valid, a) by {
        if a != low {
          var i :| 0 <= i < |front| && front[i].strike == a;
          assert valid[i].strike == a;
        }
      }
      assert b == high || Listed(valid, b) by {
        if b != high {
          var i :| 0 <= i < |front| && front[i].strike == b;
          assert valid[i].strike == b;
        }
      }
      if a < k <= p {
        a := k;
      } else if p < k < b {
        b := k;
      }
      assert valid[|valid| - 1].strike == k;
    }
  }

  lemma {:induction false} Product(a: real, b: real)
    requires a >= 0.0
    ensures b >= 0.0 ==> a * b >= 0.0
    ensures b <= 0.0 ==> a * b <= 0.0
  {
  }

  lemma {:induction false} RiseSign(start: real, end: real, slope: real, d: real)
    requires Rises(start, end, slope, d) && d >= 0.0
    ensures slope >= 0.0 ==> start <= end
    ensures slope <= 0.0 ==> end <= start
  {
    Product(d, slope);
  }

  lemma {:induction false} RestRises(start: real, inner: real, end: real, slope: real, d: real, e: real)
    requires Rises(start, inner, slope, d) && Rises(start, end, slope, e)
    ensures Rises(inner, end, slope, e - d)
  {
    Distribute(slope, d, e - d);
  }

  // Within the range of the strikes no price pays less than both of its neighbours.
  lemma {:induction false} GapMinimum(valid: seq<OptionRow>, a: real, b: real, p: real)
    requires Open(valid) && Gap(valid, a, b) && a <= p <= b
    ensures Payout(valid, a) <= Payout(valid, p) || Payout(valid, b) <= Payout(valid, p)
  {
    PayoutLinear(valid, a, b, p, p - a);
    PayoutLinear(valid, a, b, b, b - a);
    RiseSign(Payout(valid, a), Payout(valid, p), Slope(valid, a, b), p - a);
    RestRises(Payout(valid, a), Payout(valid, p), Payout(valid, b), Slope(valid, a, b), p - a, b - a);
    RiseSign(Payout(valid, p), Payout(valid, b), Slope(valid, a, b), (b - a) - (p - a));
  }

  lemma {:induction false} WithinRange(
      valid: seq<OptionRow>, ties: seq<real>, payout: real, low: real, high: real, p: real)
    requires Open(valid) && ListedMinimum(valid, ties, payout)
    requires Lowest(valid, low) && Highest(valid, high) && low <= p <= high
    ensures payout <= Payout(valid, p)
  {
    var a, b := Neighbours(valid, p, low, high);
    GapMinimum(valid, a, b, p);
  }

  ghost predicate GlobalMinimum(valid: seq<OptionRow>, payout: real)
    requires Open(valid)
  {
    forall price :: payout <= Payout(valid, price)
  }

  lemma {:induction false} EndsRise(valid: seq<OptionRow>, ties: seq<real>, payout: real, price: real)
    requires valid != [] && Open(valid) && ListedMinimum(valid, ties, payout)
    requires CallInterest(valid) >= 0.0 && PutInterest(valid) >= 0.0
    ensures payout <= Payout(valid, price)
  {
    var low := LowestExists(valid);
    var high := HighestExists(valid);
    if price < low {
      SlopeBelow(valid, low, price);
      PayoutLinear(valid, price, low, low, low - price);
      RiseSign(Payout(valid, price), Payout(valid, low), Slope(valid, price, low), low - price);
    } else if high < price {
      SlopeAbove(valid, high, price);
      PayoutLinear(valid, high, price, price, price - high);
      RiseSign(Payout(valid, high), Payout(valid, price), Slope(valid, high, price), price - high);
    } else {
      WithinRange(valid, ties, payout, low, high, price);
    }
  }

  // A slope that is not zero reaches any depth: d is how far to go for a drop of more than `drop`.
  lemma {:induction false} Reach(slope: real, drop: real) returns (d: real)
    requires slope < 0.0
    ensures d > 0.0 && d * slope < 0.0 - drop
  {
    var depth := if drop > 0.0 then drop else 0.0;
    d := (depth + 1.0) / (0.0 - slope);
    assert d * (0.0 - slope) == depth + 1.0;
  }

  lemma {:induction false} DropsBelow(start: real, end: real, slope: real, d: real, bound: real)
    requires Rises(start, end, slope, d) && d * slope < 0.0 - (start - bound)
    ensures end < bound
  {
  }

  lemma {:induction false} RisesFromBelow(start: real, end: real, slope: real, d: real, bound: real)
    requires Rises(start, end, 0.0 - slope, d) && d * slope < 0.0 - (end - bound)
    ensures start < bound
  {
    Distribute(d, slope, 0.0 - slope);
  }

  lemma {:induction false} UndercutBelow(valid: seq<OptionRow>, payout: real) returns (price: real)
    requires valid != [] && Open(valid) && PutInterest(valid) < 0.0
    ensures Payout(valid, price) < payout
  {
    var low := LowestExists(valid);
    var d := Reach(PutInterest(valid), Payout(valid, low) - payout);
    price := low - d;
    SlopeBelow(valid, low, price);
    PayoutLinear(valid, price, low, low, d);
    RisesFromBelow(Payout(valid, price), Payout(valid, low), PutInterest(valid), d, payout);
  }

  lemma {:induction false} UndercutAbove(valid: seq<OptionRow>, payout: real) returns (price: real)
    requires valid != [] && Open(valid) && CallInterest(valid) < 0.0
    ensures Payout(valid, price) < payout
  {
    var high := HighestExists(valid);
    var d := Reach(CallInterest(valid), Payout(valid, high) - payout);
    price := high + d;
    SlopeAbove(valid, high, price);
    PayoutLinear(valid, high, price, price, d);
    DropsBelow(Payout(valid, high), Payout(valid, price), CallInterest(valid), d, payout);
  }

  // The minimum over the listed strikes is the minimum over every price, below, between
  // or above them, exactly when neither all the calls nor all the puts together are negative.
  lemma {:induction false} GlobalMinimumIff(valid: seq<OptionRow>, ties: seq<real>, payout: real)
    requires valid != [] && Open(valid) && ListedMinimum(valid, ties, payout)
    ensures GlobalMinimum(valid, payout) <==> CallInterest(valid) >= 0.0 && PutInterest(valid) >= 0.0
  {
    if PutInterest(valid) < 0.0 {
      var price := UndercutBelow(valid, payout);
    } else if CallInterest(valid) < 0.0 {
      var price := UndercutAbove(valid, payout);
    } else {
      forall price ensures payout <= Payout(valid, price) {
        EndsRise(valid, ties, payout, price);
      }
    }
  }

  lemma {:induction false} InterestNonNegative(valid: seq<OptionRow>)
    requires Open(valid) && Ingested(valid)
    ensures CallInterest(valid) >= 0.0 && PutInterest(valid) >= 0.0
  {
    assert forall i | 0 <= i < |valid| :: OptionError(valid[i]).None? && valid[i].openInterest.value >= 0;
    TotalNonNegative(Interest(valid, (row: OptionRow) => row.optionType.Call?));
    TotalNonNegative(Interest(valid, (row: OptionRow) => row.optionType.Put?));
  }

  lemma {:induction false} ValidIngested(rows: seq<OptionRow>)
    requires Ingested(rows)
    ensures Ingested(Valid(rows))
  {
    forall i | 0 <= i < |Valid(rows)|
      ensures OptionError(Valid(rows)[i]).None?
    {
      assert Valid(rows)[i] in rows;
    }
  }

  // Max pain is a global optimum for every set of rows that passed ingestion.
  lemma {:induction false} MaxPainIsGlobal(rows: seq<OptionRow>, ties: seq<real>, payout: real)
    requires Ingested(rows) && Valid(rows) != [] && ListedMinimum(Valid(rows), ties, payout)
    ensures GlobalMinimum(Valid(rows), payout)
  {
    ValidIngested(rows);
    InterestNonNegative(Valid(rows));
    GlobalMinimumIff(Valid(rows), ties, payout);
  }

  // ------------------------------------------------------------------- ties

  // A value at most the weighted mean of two others, with weights u and v and their sum w.
  ghost predicate Bends(left: real, middle: real, right: real, u: real, v: real, w: real) {
    w * middle <= u * left + v * right
  }

  // The distances of y to the two ends, as weights.
  ghost predicate Weights(x: real, y: real, z: real, u: real, v: real, w: real) {
    u == z - y && v == y - x && w == u + v && u >= 0.0 && v >= 0.0
  }

  // An affine value is exactly the weighted mean of its ends.
  lemma {:induction false} AffineBalance(x: real, y: real, z: real, u: real, v: real, w: real, strike: real, sign: real)
    requires Weights(x, y, z, u, v, w) && (sign == 1.0 || sign == -1.0)
    ensures w * (sign * (y - strike)) == u * (sign * (x - strike)) + v * (sign * (z - strike))
  {
    var m := y - strike;
    assert x - strike == m - v && z - strike == m + u;
    assert u * (m - v) + v * (m + u) == (u + v) * m;
  }

  lemma {:induction false} Above(u: real, a: real, b: real)
    requires u >= 0.0 && a <= b
    ensures u * a <= u * b
  {
  }

  lemma {:induction false} IntrinsicBends(
      optionType: OptionType, strike: real, x: real, y: real, z: real, u: real, v: real, w: real)
    requires Weights(x, y, z, u, v, w)
    ensures Bends(Intrinsic(optionType, strike, x), Intrinsic(optionType, strike, y), Intrinsic(optionType, strike, z),
            u, v, w)
  {
    var sign := if optionType.Call? then 1.0 else -1.0;
    var ix, iy, iz := Intrinsic(optionType, strike, x), Intrinsic(optionType, strike, y),
      Intrinsic(optionType, strike, z);
    if iy > 0.0 {
      var dx, dy, dz := sign * (x - strike), sign * (y - strike), sign * (z - strike);
      AffineBalance(x, y, z, u, v, w, strike, sign);
      assert dx <= ix && dy == iy && dz <= iz;
      MeanBelow(dx, dy, dz, ix, iz, u, v, w);
    } else {
      Product(u, ix);
      Product(v, iz);
    }
  }

  lemma {:induction false} MeanBelow(dx: real, dy: real, dz: real, ix: real, iz: real, u: real, v: real, w: real)
    requires u >= 0.0 && v >= 0.0 && dx <= ix && dz <= iz
    requires w * dy == u * dx + v * dz
    ensures Bends(ix, dy, iz, u, v, w)
  {
    Above(u, dx, ix);
    Above(v, dz, iz);
  }

  lemma {:induction false} ScaledBends(left: real, middle: real, right: real, u: real, v: real, w: real, n: real)
    requires Bends(left, middle, right, u, v, w) && n >= 0.0
    ensures Bends(left * n, middle * n, right * n, u, v, w)
  {
    Above(n, w * middle, u * left + v * right);
    Distribute(n, u * left, v * right);
    assert w * (middle * n) == n * (w * middle);
    assert u * (left * n) == n * (u * left) && v * (right * n) == n * (v * right);
  }

  lemma {:induction false} RowBends(row: OptionRow, x: real, y: real, z: real, u: real, v: real, w: real)
    requires row.openInterest.Some? && OptionError(row).None? && Weights(x, y, z, u, v, w)
    ensures Bends(Cost(row, x), Cost(row, y), Cost(row, z), u, v, w)
  {
    IntrinsicBends(row.optionType, row.strike, x, y, z, u, v, w);
    ScaledBends(Intrinsic(row.optionType, row.strike, x), Intrinsic(row.optionType, row.strike, y),
                Intrinsic(row.optionType, row.strike, z), u, v, w, row.openInterest.value as real);
  }

  lemma {:induction false} AddBends(l: real, m: real, r: real, l': real, m': real, r': real, u: real, v: real, w: real)
    requires Bends(l, m, r, u, v, w) && Bends(l', m', r', u, v, w)
    ensures Bends(l + l', m + m', r + r', u, v, w)
  {
    Distribute(w, m, m');
    Distribute(u, l, l');
    Distribute(v, r, r');
  }

  lemma {:induction false} TotalBends(ls: seq<real>, ms: seq<real>, rs: seq<real>, u: real, v: real, w: real)
    requires |ls| == |ms| == |rs|
    requires forall i | 0 <= i < |ms| :: Bends(ls[i], ms[i], rs[i], u, v, w)
    ensures Bends(Total(ls), Total(ms), Total(rs), u, v, w)
    decreases |ms|
  {
    if ms != [] {
      var n := |ms| - 1;
      TotalBends(ls[..n], ms[..n], rs[..n], u, v, w);
      AddBends(Total(ls[..n]), Total(ms[..n]), Total(rs[..n]), ls[n], ms[n], rs[n], u, v, w);
    }
  }

  // The payout is convex in the price.
  lemma {:induction false} PayoutConvex(valid: seq<OptionRow>, x: real, y: real, z: real, u: real, v: real, w: real)
    requires Open(valid) && Ingested(valid) && Weights(x, y, z, u, v, w)
    ensures Bends(Payout(valid, x), Payout(valid, y), Payout(valid, z), u, v, w)
  {
    forall i | 0 <= i < |valid|
      ensures Bends(Costs(valid, x)[i], Costs(valid, y)[i], Costs(valid, z)[i], u, v, w)
    {
      RowBends(valid[i], x, y, z, u, v, w);
    }
    TotalBends(Costs(valid, x), Costs(valid, y), Costs(valid, z), u, v, w);
  }

  lemma {:induction false} LevelBends(least: real, middle: real, u: real, v: real, w: real)
    requires Bends(least, middle, least, u, v, w) && w == u + v && w > 0.0
    ensures middle <= least
  {
    Distribute(least, u, v);
    if middle > least {
      StrictlyAbove(w, least, middle);
    }
  }

  lemma {:induction false} StrictlyAbove(w: real, a: real, b: real)
    requires w > 0.0 && a < b
    ensures w * a < w * b
  {
  }

  // The tie set is an interval: every listed strike between two ties is a tie.
  lemma {:induction false} TiesAreContiguous(rows: seq<OptionRow>, ties: seq<real>, payout: real, strike: real)
    requires Ingested(rows) && ListedMinimum(Valid(rows), ties, payout)
    requires Listed(Valid(rows), strike) && ties[0] <= strike <= ties[|ties| - 1]
    ensures strike in ties
  {
    var valid := Valid(rows);
    var x, z := ties[0], ties[|ties| - 1];
    assert x in ties && z in ties;
    ValidIngested(rows);
    var u, v := z - strike, strike - x;
    if x < z {
      PayoutConvex(valid, x, strike, z, u, v, u + v);
      LevelBends(payout, Payout(valid, strike), u, v, u + v);
    }
  }
}
