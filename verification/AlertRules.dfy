// Alert rules: which rules are well formed, when one fires on a price history, and how
// the firings of different rules on one history relate.
module AlertRules {
  import opened Wrappers

  datatype RuleType =
    | PriceTarget
    | PriceStop
    | PriceAdd
    | MaNear
    | MaTouch
    | MaCrossAbove
    | MaCrossBelow
    | MaCloseAbove
    | MaCloseBelow
    | MaConsecutiveAbove
    | MaConsecutiveBelow

  datatype ScopeType = SecurityScope | PortfolioScope | WatchlistScope

  datatype Mode = EndOfDay | Realtime

  datatype Rule = Rule(
    id: int, ruleType: RuleType, scope: ScopeType,
    securityId: Option<int>, portfolioId: Option<int>, watchlistId: Option<int>,
    maPeriod: Option<int>, thresholdPrice: Option<real>, thresholdPercent: Option<real>, consecutiveDays: Option<int>,
    cooldownMinutes: int, dailyLimit: int, mode: Mode)

  datatype DataStatus = FinalData | PartialData | StaleData | UnavailableData

  datatype Point = Point(
    date: int, high: Option<real>, low: Option<real>, close: Option<real>, averages: map<int, Option<real>>,
    status: DataStatus)

  // ------------------------------------------------------------- validation

  predicate IsPrice(t: RuleType) {
    t.PriceTarget? || t.PriceStop? || t.PriceAdd?
  }

  predicate IsConsecutive(t: RuleType) {
    t.MaConsecutiveAbove? || t.MaConsecutiveBelow?
  }

  const MA_PERIODS := {5, 10, 20, 60, 120, 240}

  function ScopeTarget(rule: Rule): Option<int> {
    match rule.scope
    case SecurityScope => rule.securityId
    case PortfolioScope => rule.portfolioId
    case WatchlistScope => rule.watchlistId
  }

  function Targets(rule: Rule): nat {
    (if rule.securityId.Some? then 1 else 0) + (if rule.portfolioId.Some? then 1 else 0)
      + (if rule.watchlistId.Some? then 1 else 0)
  }

  datatype RuleError =
    | ScopeError
    | PriceError
    | PeriodError
    | PercentError
    | DaysError
    | LimitError
    | RealtimeError

  // The first check that fails, in the order they are made.
  function ValidateRule(rule: Rule): Option<RuleError> {
    var t := rule.ruleType;
    if ScopeTarget(rule).None? || Targets(rule) != 1 then Some(ScopeError)
    else if IsPrice(t) != rule.thresholdPrice.Some? || (rule.thresholdPrice.Some? && rule.thresholdPrice.value <= 0.0)
      then Some(PriceError)
    else if (!IsPrice(t) && (rule.maPeriod.None? || rule.maPeriod.value !in MA_PERIODS))
      || (IsPrice(t) && rule.maPeriod.Some?)
      then Some(PeriodError)
    else if t.MaNear? && !(rule.thresholdPercent.Some? && 0.0 < rule.thresholdPercent.value <= 20.0)
      then Some(PercentError)
    else if !t.MaNear? && rule.thresholdPercent.Some? then Some(PercentError)
    else if IsConsecutive(t) && !(rule.consecutiveDays.Some? && 2 <= rule.consecutiveDays.value <= 60)
      then Some(DaysError)
    else if !IsConsecutive(t) && rule.consecutiveDays.Some? then Some(DaysError)
    else if rule.cooldownMinutes < 0 || rule.dailyLimit < 1 then Some(LimitError)
    else if rule.mode.Realtime? && (t.MaCloseAbove? || t.MaCloseBelow? || IsConsecutive(t)) then Some(RealtimeError)
    else None
  }

  // ------------------------------------------------------------- evaluation

  datatype Occurrence = Occurrence(eventType: RuleType, triggerPrice: real, reference: real, status: DataStatus)

  // Nothing to report, an occurrence, or an exception.
  datatype Evaluation = Nothing | Hit(occurrence: Occurrence) | Raises

  predicate Available(p: Point) {
    p.close.Some? && !p.status.UnavailableData?
  }

  function Average(p: Point, period: int): Option<real> {
    if period in p.averages then p.averages[period] else None
  }

  // Neither an exception nor an occurrence about anything but the current point.
  predicate Reports(rule: Rule, current: Point, result: Evaluation) {
    match result
    case Nothing => true
    case Hit(o) => current.close == Some(o.triggerPrice) && o.eventType == rule.ruleType && o.status == current.status
    case Raises => false
  }

  function Report(hit: bool, rule: Rule, current: Point, reference: real): (result: Evaluation)
    requires current.close.Some?
    ensures Reports(rule, current, result)
  {
    if hit then Hit(Occurrence(rule.ruleType, current.close.value, reference, current.status)) else Nothing
  }

  function EvaluatePrice(rule: Rule, history: seq<Point>): (result: Evaluation)
    requires history != [] && history[|history| - 1].close.Some?
    ensures Reports(rule, history[|history| - 1], result)
  {
    var current := history[|history| - 1];
    if |history| < 2 || !Available(history[|history| - 2]) || rule.thresholdPrice.None? then Nothing
    else
      var before, now, reference := history[|history| - 2].close.value, current.close.value, rule.thresholdPrice.value;
      Report(if rule.ruleType.PriceTarget? then before < reference <= now else before > reference >= now, rule, current,
        reference)
  }

  function Abs(x: real): real {
    if x < 0.0 then 0.0 - x else x
  }

  function EvaluateCross(rule: Rule, history: seq<Point>, period: int, reference: real): (result: Evaluation)
    requires history != [] && history[|history| - 1].close.Some?
    ensures Reports(rule, history[|history| - 1], result)
  {
    var current := history[|history| - 1];
    if |history| < 2 || !Available(history[|history| - 2]) || Average(history[|history| - 2], period).None? then Nothing
    else
      var before, average := history[|history| - 2].close.value, Average(history[|history| - 2], period).value;
      Report(if rule.ruleType.MaCrossAbove? then before <= average && current.close.value > reference
             else before >= average && current.close.value < reference, rule, current, reference)
  }

  predicate Usable(p: Point, period: int) {
    Available(p) && Average(p, period).Some?
  }

  predicate IsBeyond(above: bool, p: Point, period: int)
    requires Usable(p, period)
  {
    if above then p.close.value > Average(p, period).value else p.close.value < Average(p, period).value
  }

  // `history[-count:]`, where a count of 0 keeps everything.
  function LastPoints(history: seq<Point>, count: int): seq<Point>
    requires count <= |history|
  {
    if count > 0 then history[|history| - count..]
    else if -count <= |history| then history[-count..]
    else []
  }

  predicate AllUsable(points: seq<Point>, period: int) {
    forall i :: 0 <= i < |points| ==> Usable(points[i], period)
  }

  predicate AllBeyond(above: bool, points: seq<Point>, period: int)
    requires AllUsable(points, period)
  {
    forall i :: 0 <= i < |points| ==> IsBeyond(above, points[i], period)
  }

  function EvaluateConsecutive(rule: Rule, history: seq<Point>, period: int, reference: real): (result: Evaluation)
    requires history != [] && history[|history| - 1].close.Some?
    ensures Reports(rule, history[|history| - 1], result)
  {
    var count := if rule.consecutiveDays.Some? then rule.consecutiveDays.value else 0;
    if |history| < count then Nothing
    else
      var points := LastPoints(history, count);
      if !AllUsable(points, period) then Nothing
      else Report(AllBeyond(rule.ruleType.MaConsecutiveAbove?, points, period), rule, history[|history| - 1], reference)
  }

  function EvaluateAverage(rule: Rule, history: seq<Point>): Evaluation
    requires history != [] && history[|history| - 1].close.Some?
  {
    var current := history[|history| - 1];
    if rule.maPeriod.None? then Raises // the assertion on ma_period
    else if Average(current, rule.maPeriod.value).None? then Nothing
    else
      var reference := Average(current, rule.maPeriod.value).value;
      match rule.ruleType
      case MaNear =>
        if reference == 0.0 || rule.thresholdPercent.None? then Raises // division by zero, comparison with None
        else Report(Abs(current.close.value - reference) / reference * 100.0 <= rule.thresholdPercent.value, rule,
          current, reference)
      case MaTouch =>
        Report(current.low.Some? && current.high.Some? && current.low.value <= reference <= current.high.value,
               rule, current, reference)
      case MaCrossAbove => EvaluateCross(rule, history, rule.maPeriod.value, reference)
      case MaCrossBelow => EvaluateCross(rule, history, rule.maPeriod.value, reference)
      case MaCloseAbove => Report(current.close.value > reference, rule, current, reference)
      case MaCloseBelow => Report(current.close.value < reference, rule, current, reference)
      case _ => EvaluateConsecutive(rule, history, rule.maPeriod.value, reference)
  }

  function Evaluate(rule: Rule, history: seq<Point>): Evaluation {
    if history == [] then Nothing
    else if !Available(history[|history| - 1]) then Nothing
    else if IsPrice(rule.ruleType) then EvaluatePrice(rule, history)
    else EvaluateAverage(rule, history)
  }

  // A validated rule raises in one case only: nearness to an average of exactly zero.
  lemma {:induction false} ValidRuleRaisesIff(rule: Rule, history: seq<Point>)
    requires ValidateRule(rule).None?
    ensures Evaluate(rule, history).Raises? <==>
              && rule.ruleType.MaNear? && history != [] && Available(history[|history| - 1])
              && Average(history[|history| - 1], rule.maPeriod.value) == Some(0.0)
  {
  }

  // An occurrence names the rule's type, the last close and the status of the last point.
  lemma {:induction false} HitIsCurrent(rule: Rule, history: seq<Point>)
    requires Evaluate(rule, history).Hit?
    ensures var last := history[|history| - 1];
            && Available(last)
            && Evaluate(rule, history).occurrence.eventType == rule.ruleType
            && Evaluate(rule, history).occurrence.triggerPrice == last.close.value
            && Evaluate(rule, history).occurrence.status == last.status
  {
  }

  // --------------------------------------------------------------- crossing

  // Evaluating the rule after each close of a series: does it fire on day k?
  predicate Fires(rule: Rule, series: seq<Point>, k: nat)
    requires k < |series|
  {
    Evaluate(rule, series[..k + 1]).Hit?
  }

  ghost predicate AllAvailable(series: seq<Point>) {
    forall i | 0 <= i < |series| :: Available(series[i])
  }

  function Close(series: seq<Point>, k: nat): real
    requires k < |series| && series[k].close.Some?
  {
    series[k].close.value
  }

  ghost predicate PriceRule(rule: Rule, ruleType: RuleType, reference: real) {
    rule.ruleType == ruleType && rule.thresholdPrice == Some(reference)
  }

  lemma {:induction false} TargetFiresIff(rule: Rule, series: seq<Point>, reference: real, k: nat)
    requires AllAvailable(series) && PriceRule(rule, PriceTarget, reference) && k < |series|
    ensures Fires(rule, series, k) <==> k > 0 && Close(series, k - 1) < reference <= Close(series, k)
  {
    var prefix := series[..k + 1];
    assert prefix[|prefix| - 1] == series[k];
    if k > 0 {
      assert prefix[|prefix| - 2] == series[k - 1];
    }
  }

  lemma {:induction false} StopFiresIff(rule: Rule, series: seq<Point>, reference: real, k: nat)
    requires AllAvailable(series) && PriceRule(rule, PriceStop, reference) && k < |series|
    ensures Fires(rule, series, k) <==> k > 0 && Close(series, k - 1) > reference >= Close(series, k)
  {
    var prefix := series[..k + 1];
    assert prefix[|prefix| - 1] == series[k];
    if k > 0 {
      assert prefix[|prefix| - 2] == series[k - 1];
    }
  }

  // Completeness: a close below the target and a later one at or above it make the rule
  // fire on some day in between.
  lemma {:induction false} TargetIsComplete(
      rule: Rule, series: seq<Point>, reference: real, i: nat, j: nat) returns (k: nat)
    requires AllAvailable(series) && PriceRule(rule, PriceTarget, reference) && i < j < |series|
    requires Close(series, i) < reference <= Close(series, j)
    ensures i < k <= j && Fires(rule, series, k)
    decreases j
  {
    if Close(series, j - 1) < reference {
      TargetFiresIff(rule, series, reference, j);
      k := j;
    } else {
      k := TargetIsComplete(rule, series, reference, i, j - 1);
    }
  }

  lemma {:induction false} StopIsComplete(
      rule: Rule, series: seq<Point>, reference: real, i: nat, j: nat) returns (k: nat)
    requires AllAvailable(series) && PriceRule(rule, PriceStop, reference) && i < j < |series|
    requires Close(series, i) > reference >= Close(series, j)
    ensures i < k <= j && Fires(rule, series, k)
    decreases j
  {
    if Close(series, j - 1) > reference {
      StopFiresIff(rule, series, reference, j);
      k := j;
    } else {
      k := StopIsComplete(rule, series, reference, i, j - 1);
    }
  }

  // Soundness: between two firings of a target the close has been below it.
  lemma {:induction false} TargetsAreSeparated(rule: Rule, series: seq<Point>, reference: real, i: nat, j: nat)
    requires AllAvailable(series) && PriceRule(rule, PriceTarget, reference) && i < j < |series|
    requires Fires(rule, series, i) && Fires(rule, series, j)
    ensures i < j - 1 && Close(series, j - 1) < reference
  {
    TargetFiresIff(rule, series, reference, i);
    TargetFiresIff(rule, series, reference, j);
  }

  // Between two firings of a target, a stop at the same reference fires exactly when some
  // close from the first firing on was strictly above it.
  lemma {:induction false} StopBetweenTargetsIff(
      target: Rule, stop: Rule, series: seq<Point>, reference: real, i: nat, j: nat)
    requires AllAvailable(series) && PriceRule(target, PriceTarget, reference) && PriceRule(stop, PriceStop, reference)
    requires i < j < |series| && Fires(target, series, i) && Fires(target, series, j)
    ensures (exists k :: i < k < j && Fires(stop, series, k))
            <==> (exists m :: i <= m < j && Close(series, m) > reference)
  {
    TargetFiresIff(target, series, reference, j);
    if m :| i <= m < j && Close(series, m) > reference {
      var k := StopIsComplete(stop, series, reference, m, j - 1);
    }
    if k :| i < k < j && Fires(stop, series, k) {
      StopFiresIff(stop, series, reference, k);
      assert Close(series, k - 1) > reference;
    }
  }

  lemma {:induction false} TargetBetweenStopsIff(
      target: Rule, stop: Rule, series: seq<Point>, reference: real, i: nat, j: nat)
    requires AllAvailable(series) && PriceRule(target, PriceTarget, reference) && PriceRule(stop, PriceStop, reference)
    requires i < j < |series| && Fires(stop, series, i) && Fires(stop, series, j)
    ensures (exists k :: i < k < j && Fires(target, series, k))
            <==> (exists m :: i <= m < j && Close(series, m) < reference)
  {
    StopFiresIff(stop, series, reference, j);
    if m :| i <= m < j && Close(series, m) < reference {
      var k := TargetIsComplete(target, series, reference, m, j - 1);
    }
    if k :| i < k < j && Fires(target, series, k) {
      TargetFiresIff(target, series, reference, k);
      assert Close(series, k - 1) < reference;
    }
  }

  // When no close equals the reference, target and stop strictly alternate.
  lemma {:induction false} TargetAndStopAlternate(
      target: Rule, stop: Rule, series: seq<Point>, reference: real, i: nat, j: nat)
    requires AllAvailable(series) && PriceRule(target, PriceTarget, reference) && PriceRule(stop, PriceStop, reference)
    requires forall k | 0 <= k < |series| :: Close(series, k) != reference
    requires i < j < |series|
    ensures Fires(target, series, i) && Fires(target, series, j) ==> exists k :: i < k < j && Fires(stop, series, k)
    ensures Fires(stop, series, i) && Fires(stop, series, j) ==> exists k :: i < k < j && Fires(target, series, k)
  {
    TargetFiresIff(target, series, reference, i);
    StopFiresIff(stop, series, reference, i);
    if Fires(target, series, i) && Fires(target, series, j) {
      assert Close(series, i) > reference;
      StopBetweenTargetsIff(target, stop, series, reference, i, j);
    }
    if Fires(stop, series, i) && Fires(stop, series, j) {
      assert Close(series, i) < reference;
      TargetBetweenStopsIff(target, stop, series, reference, i, j);
    }
  }

  // ---------------------------------------------------- moving-average rules

  ghost predicate AverageRule(rule: Rule, ruleType: RuleType, period: int) {
    rule.ruleType == ruleType && rule.maPeriod == Some(period)
  }

  lemma {:induction false} CloseAboveFiresIff(rule: Rule, series: seq<Point>, period: int, k: nat)
    requires AverageRule(rule, MaCloseAbove, period) && k < |series|
    ensures Fires(rule, series, k) <==>
              Available(series[k]) && Average(series[k], period).Some?
                && series[k].close.value > Average(series[k], period).value
  {
    assert series[..k + 1][k] == series[k];
  }

  // N consecutive closes above an average: the rule fires exactly when closing above
  // fires on each of the last N days.
  lemma {:induction false} ConsecutiveIffEachDay(
      consecutive: Rule, single: Rule, series: seq<Point>, period: int, n: nat, k: nat)
    requires AverageRule(consecutive, MaConsecutiveAbove, period) && AverageRule(single, MaCloseAbove, period)
    requires consecutive.consecutiveDays == Some(n) && n > 0 && k < |series|
    ensures Fires(consecutive, series, k) <==> n <= k + 1 && forall i | k + 1 - n <= i <= k :: Fires(single, series, i)
  {
    var prefix := series[..k + 1];
    assert prefix[|prefix| - 1] == series[k];
    if n <= k + 1 {
      var points := LastPoints(prefix, n);
      forall i | k + 1 - n <= i <= k
        ensures points[i - (k + 1 - n)] == series[i]
        ensures Fires(single, series, i) <==> Usable(series[i], period) && IsBeyond(true, series[i], period)
      {
        CloseAboveFiresIff(single, series, period, i);
      }
      if forall i | k + 1 - n <= i <= k :: Fires(single, series, i) {
        forall i | 0 <= i < n
          ensures Usable(points[i], period) && IsBeyond(true, points[i], period)
        {
          assert Fires(single, series, k + 1 - n + i) && points[i] == series[k + 1 - n + i];
        }
        assert points[n - 1] == series[k];
        assert AllUsable(points, period) && AllBeyond(true, points, period);
      }
      if Fires(consecutive, series, k) {
        assert AllUsable(points, period) && AllBeyond(true, points, period);
        forall i | k + 1 - n <= i <= k
          ensures Fires(single, series, i)
        {
          var p := points[i - (k + 1 - n)];
          assert Usable(p, period) && IsBeyond(true, p, period);
        }
      }
    }
  }

  // A crossing from below is the first day of closing above: it fires exactly when closing
  // above fires, and did not the day before although that day had its close and average.
  lemma {:induction false} CrossIsFirstDayAbove(cross: Rule, single: Rule, series: seq<Point>, period: int, k: nat)
    requires AverageRule(cross, MaCrossAbove, period) && AverageRule(single, MaCloseAbove, period)
    requires 0 < k < |series| && Available(series[k - 1]) && Average(series[k - 1], period).Some?
    ensures Fires(cross, series, k) <==> Fires(single, series, k) && !Fires(single, series, k - 1)
  {
    var prefix := series[..k + 1];
    assert prefix[|prefix| - 1] == series[k] && prefix[|prefix| - 2] == series[k - 1];
    CloseAboveFiresIff(single, series, period, k);
    CloseAboveFiresIff(single, series, period, k - 1);
  }

  // ---------------------------------------------------------------- windows

  function LastN(points: seq<Point>, n: nat): seq<Point> {
    if n >= |points| then points else points[|points| - n..]
  }

  predicate IsCross(t: RuleType) {
    t.MaCrossAbove? || t.MaCrossBelow?
  }

  // How many points a validated rule looks at.
  function Asked(rule: Rule): int {
    if IsConsecutive(rule.ruleType) && rule.consecutiveDays.Some? then rule.consecutiveDays.value
    else if IsPrice(rule.ruleType) || IsCross(rule.ruleType) then 2
    else 1
  }

  // The last points are enough, as many as the rule looks at.
  lemma {:induction false} WindowSuffices(rule: Rule, history: seq<Point>, n: nat)
    requires ValidateRule(rule).None? && n >= Asked(rule)
    ensures Evaluate(rule, LastN(history, n)) == Evaluate(rule, history)
  {
    ValidRuleAsks(rule);
    var window := LastN(history, n);
    if |history| > n && Available(history[|history| - 1]) {
      assert window[|window| - 1] == history[|history| - 1];
      if IsPrice(rule.ruleType) {
        assert window[|window| - 2] == history[|history| - 2];
      } else if rule.maPeriod.Some? {
        AverageSuffices(rule, history, n);
      }
    }
  }

  lemma {:induction false} ValidRuleAsks(rule: Rule)
    requires ValidateRule(rule).None?
    ensures 1 <= Asked(rule)
    ensures IsConsecutive(rule.ruleType) ==> rule.consecutiveDays == Some(Asked(rule))
    ensures IsPrice(rule.ruleType) || IsCross(rule.ruleType) ==> Asked(rule) == 2
  {
  }

  lemma {:induction false} AverageSuffices(rule: Rule, history: seq<Point>, n: nat)
    requires 1 <= Asked(rule) <= n < |history| && history[|history| - 1].close.Some?
    requires IsConsecutive(rule.ruleType) ==> rule.consecutiveDays == Some(Asked(rule))
    requires IsCross(rule.ruleType) ==> Asked(rule) == 2
    requires !IsPrice(rule.ruleType)
    ensures LastN(history, n)[n - 1] == history[|history| - 1]
    ensures EvaluateAverage(rule, LastN(history, n)) == EvaluateAverage(rule, history)
  {
    var window := LastN(history, n);
    assert window[n - 1] == history[|history| - 1];
    if rule.maPeriod.Some? && Average(history[|history| - 1], rule.maPeriod.value).Some? {
      var period := rule.maPeriod.value;
      var reference := Average(history[|history| - 1], period).value;
      if IsCross(rule.ruleType) {
        CrossSuffices(rule, history, n, period, reference);
      } else if IsConsecutive(rule.ruleType) {
        ConsecutiveSuffices(rule, history, n, period, reference);
      }
    }
  }

  lemma {:induction false} CrossSuffices(rule: Rule, history: seq<Point>, n: nat, period: int, reference: real)
    requires 2 <= n < |history| && history[|history| - 1].close.Some?
    ensures LastN(history, n)[n - 1] == history[|history| - 1]
    ensures EvaluateCross(rule, LastN(history, n), period, reference) == EvaluateCross(rule, history, period, reference)
  {
    var window := LastN(history, n);
    assert window[n - 1] == history[|history| - 1] && window[n - 2] == history[|history| - 2];
  }

  lemma {:induction false} ConsecutiveSuffices(rule: Rule, history: seq<Point>, n: nat, period: int, reference: real)
    requires rule.consecutiveDays.Some? && 1 <= rule.consecutiveDays.value <= n < |history|
    requires history[|history| - 1].close.Some?
    ensures LastN(history, n)[n - 1] == history[|history| - 1]
    ensures EvaluateConsecutive(rule, LastN(history, n), period, reference)
            == EvaluateConsecutive(rule, history, period, reference)
  {
    var window, count := LastN(history, n), rule.consecutiveDays.value;
    assert window[n - 1] == history[|history| - 1];
    assert LastPoints(window, count) == LastPoints(history, count);
  }

  // With fewer points it stays silent.
  lemma {:induction false} ShortHistoryIsSilent(rule: Rule, history: seq<Point>)
    requires ValidateRule(rule).None? && |history| < Asked(rule)
    ensures Evaluate(rule, history) == Nothing
  {
  }
}
