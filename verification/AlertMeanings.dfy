// When each kind of alert rule fires, what it reports, and which rules are well formed, stated
// on the rule and the price history alone.
module AlertMeanings {
  import opened Wrappers
  import opened AlertRules

  // A day with a usable close, and one with a moving average of this length.
  predicate Priced(p: Point) {
    p.close.Some? && p.status != UnavailableData
  }

  predicate HasMean(p: Point, period: Option<int>) {
    period.Some? && period.value in p.averages && p.averages[period.value].Some?
  }

  function Mean(p: Point, period: Option<int>): real
    requires HasMean(p, period)
  {
    p.averages[period.value].value
  }

  predicate Above(p: Point, period: Option<int>) {
    Priced(p) && HasMean(p, period) && p.close.value > Mean(p, period)
  }

  predicate Below(p: Point, period: Option<int>) {
    Priced(p) && HasMean(p, period) && p.close.value < Mean(p, period)
  }

  // Within this many hundredths of the mean on either side.
  predicate Near(close: real, mean: real, percent: real) {
    if mean > 0.0 then 100.0 * (close - mean) <= percent * mean && 100.0 * (mean - close) <= percent * mean
    else 100.0 * (close - mean) >= percent * mean || 100.0 * (mean - close) >= percent * mean
  }

  // The first of the last `days` positions of a history of n days; 0 takes all of it.
  function FirstOf(days: int, n: nat): nat
    requires days <= n
  {
    if days > 0 then n - days else if -days <= n then -days else n
  }

  // The last two closes of a price rule, and the last two of a crossing rule.
  ghost predicate PassesUp(rule: Rule, h: seq<Point>) {
    && |h| > 1 && Priced(h[|h| - 2]) && Priced(h[|h| - 1]) && rule.thresholdPrice.Some?
    && h[|h| - 2].close.value < rule.thresholdPrice.value <= h[|h| - 1].close.value
  }

  ghost predicate PassesDown(rule: Rule, h: seq<Point>) {
    && |h| > 1 && Priced(h[|h| - 2]) && Priced(h[|h| - 1]) && rule.thresholdPrice.Some?
    && h[|h| - 2].close.value > rule.thresholdPrice.value >= h[|h| - 1].close.value
  }

  ghost predicate CrossesUp(rule: Rule, h: seq<Point>) {
    && |h| > 1 && Above(h[|h| - 1], rule.maPeriod)
    && Priced(h[|h| - 2]) && HasMean(h[|h| - 2], rule.maPeriod) && !Above(h[|h| - 2], rule.maPeriod)
  }

  ghost predicate CrossesDown(rule: Rule, h: seq<Point>) {
    && |h| > 1 && Below(h[|h| - 1], rule.maPeriod)
    && Priced(h[|h| - 2]) && HasMean(h[|h| - 2], rule.maPeriod) && !Below(h[|h| - 2], rule.maPeriod)
  }

  function Days(rule: Rule): int {
    if rule.consecutiveDays.Some? then rule.consecutiveDays.value else 0
  }

  ghost predicate StaysAbove(rule: Rule, h: seq<Point>) {
    && h != [] && Priced(h[|h| - 1]) && HasMean(h[|h| - 1], rule.maPeriod) && Days(rule) <= |h|
    && forall i | FirstOf(Days(rule), |h|) <= i < |h| :: Above(h[i], rule.maPeriod)
  }

  ghost predicate StaysBelow(rule: Rule, h: seq<Point>) {
    && h != [] && Priced(h[|h| - 1]) && HasMean(h[|h| - 1], rule.maPeriod) && Days(rule) <= |h|
    && forall i | FirstOf(Days(rule), |h|) <= i < |h| :: Below(h[i], rule.maPeriod)
  }

  // When a rule fires.
  ghost predicate Hits(rule: Rule, h: seq<Point>) {
    && h != []
    && var now := h[|h| - 1];
       match rule.ruleType
       case PriceTarget => PassesUp(rule, h)
       case PriceStop => PassesDown(rule, h)
       case PriceAdd => PassesDown(rule, h)
       case MaNear =>
         && Priced(now) && HasMean(now, rule.maPeriod) && Mean(now, rule.maPeriod) != 0.0
         && rule.thresholdPercent.Some?
         && Near(now.close.value, Mean(now, rule.maPeriod), rule.thresholdPercent.value)
       case MaTouch =>
         && Priced(now) && HasMean(now, rule.maPeriod) && now.low.Some? && now.high.Some?
         && now.low.value <= Mean(now, rule.maPeriod) <= now.high.value
       case MaCrossAbove => CrossesUp(rule, h)
       case MaCrossBelow => CrossesDown(rule, h)
       case MaCloseAbove => Above(now, rule.maPeriod)
       case MaCloseBelow => Below(now, rule.maPeriod)
       case MaConsecutiveAbove => StaysAbove(rule, h)
       case MaConsecutiveBelow => StaysBelow(rule, h)
  }

  // When evaluating a rule raises: no period, or nearness to a mean of zero or without a percentage.
  ghost predicate Breaks(rule: Rule, h: seq<Point>) {
    && h != [] && Priced(h[|h| - 1]) && rule.ruleType !in {PriceTarget, PriceStop, PriceAdd}
    && (|| rule.maPeriod.None?
        || (rule.ruleType.MaNear? && HasMean(h[|h| - 1], rule.maPeriod)
            && (Mean(h[|h| - 1], rule.maPeriod) == 0.0 || rule.thresholdPercent.None?)))
  }

  // What a firing is measured against.
  function Measure(rule: Rule, now: Point): Option<real> {
    if rule.ruleType in {PriceTarget, PriceStop, PriceAdd} then rule.thresholdPrice
    else if HasMean(now, rule.maPeriod) then Some(Mean(now, rule.maPeriod)) else None
  }

  lemma {:induction false} Quotient(x: real, mean: real, percent: real)
    requires mean != 0.0
    ensures mean > 0.0 ==> (x / mean * 100.0 <= percent <==> 100.0 * x <= percent * mean)
    ensures mean < 0.0 ==> (x / mean * 100.0 <= percent <==> 100.0 * x >= percent * mean)
  {
    var q := x / mean;
    assert q * mean == x;
    Scale(q * 100.0, percent, mean);
    assert (q * 100.0) * mean == 100.0 * x;
  }

  lemma {:induction false} Scale(a: real, b: real, m: real)
    ensures m > 0.0 ==> (a <= b <==> a * m <= b * m)
    ensures m < 0.0 ==> (a <= b <==> a * m >= b * m)
  {
    if m > 0.0 && a > b {
      Positive(a - b, m);
    }
    if m > 0.0 && a < b {
      Positive(b - a, m);
    }
    if m < 0.0 && a > b {
      Positive(a - b, -m);
    }
    if m < 0.0 && a < b {
      Positive(b - a, -m);
    }
  }

  lemma {:induction false} Positive(d: real, m: real)
    requires d > 0.0 && m > 0.0
    ensures d * m > 0.0
  {
  }

  lemma {:induction false} NearIff(close: real, mean: real, percent: real)
    requires mean != 0.0
    ensures Abs(close - mean) / mean * 100.0 <= percent <==> Near(close, mean, percent)
  {
    Quotient(Abs(close - mean), mean, percent);
  }

  lemma {:induction false} ConsecutiveIff(rule: Rule, h: seq<Point>, reference: real)
    requires h != [] && Priced(h[|h| - 1]) && HasMean(h[|h| - 1], rule.maPeriod)
    requires rule.ruleType.MaConsecutiveAbove? || rule.ruleType.MaConsecutiveBelow?
    ensures EvaluateConsecutive(rule, h, rule.maPeriod.value, reference).Hit?
            <==> if rule.ruleType.MaConsecutiveAbove? then StaysAbove(rule, h) else StaysBelow(rule, h)
  {
    var period, above := rule.maPeriod.value, rule.ruleType.MaConsecutiveAbove?;
    if Days(rule) <= |h| {
      var first, points := FirstOf(Days(rule), |h|), LastPoints(h, Days(rule));
      assert points == h[first..];
      forall i | first <= i < |h| ensures points[i - first] == h[i] {
      }
      if AllUsable(points, period) && AllBeyond(above, points, period) {
        forall i | first <= i < |h| ensures if above then Above(h[i], rule.maPeriod) else Below(h[i], rule.maPeriod) {
          assert Usable(points[i - first], period) && IsBeyond(above, points[i - first], period);
        }
      }
      if forall i | first <= i < |h| :: if above then Above(h[i], rule.maPeriod) else Below(h[i], rule.maPeriod) {
        forall i | 0 <= i < |points| ensures Usable(points[i], period) && IsBeyond(above, points[i], period) {
          assert points[i] == h[first + i];
        }
      }
    }
  }

  // Every rule, exactly: when it fires, when it raises, and what a firing reports.
  lemma {:induction false} EvaluateIff(rule: Rule, h: seq<Point>)
    ensures Evaluate(rule, h).Hit? <==> Hits(rule, h)
    ensures Evaluate(rule, h).Raises? <==> Breaks(rule, h)
    ensures Evaluate(rule, h).Hit? ==>
              var now, o := h[|h| - 1], Evaluate(rule, h).occurrence;
              && o.eventType == rule.ruleType && o.status == now.status
              && Some(o.triggerPrice) == now.close && Some(o.reference) == Measure(rule, now)
  {
    if h != [] && Priced(h[|h| - 1]) && !IsPrice(rule.ruleType) && HasMean(h[|h| - 1], rule.maPeriod) {
      var mean := Mean(h[|h| - 1], rule.maPeriod);
      if rule.ruleType.MaNear? && mean != 0.0 && rule.thresholdPercent.Some? {
        NearIff(h[|h| - 1].close.value, mean, rule.thresholdPercent.value);
      }
      if rule.ruleType.MaConsecutiveAbove? || rule.ruleType.MaConsecutiveBelow? {
        ConsecutiveIff(rule, h, mean);
      }
    }
  }

  // ------------------------------------------------------------- validation

  // A rule has the one target its scope names, and no other.
  predicate OneTarget(rule: Rule) {
    match rule.scope
    case SecurityScope => rule.securityId.Some? && rule.portfolioId.None? && rule.watchlistId.None?
    case PortfolioScope => rule.securityId.None? && rule.portfolioId.Some? && rule.watchlistId.None?
    case WatchlistScope => rule.securityId.None? && rule.portfolioId.None? && rule.watchlistId.Some?
  }

  // Each setting is there exactly for the kinds of rule that read it, and in its range.
  lemma {:induction false} ValidIff(rule: Rule)
    ensures ValidateRule(rule).None? <==>
              var price := rule.ruleType in {PriceTarget, PriceStop, PriceAdd};
              var run := rule.ruleType in {MaConsecutiveAbove, MaConsecutiveBelow};
              && OneTarget(rule)
              && (if price then rule.thresholdPrice.Some? && rule.thresholdPrice.value > 0.0
                  else rule.thresholdPrice.None?)
              && (if price then rule.maPeriod.None?
                  else rule.maPeriod.Some? && rule.maPeriod.value in {5, 10, 20, 60, 120, 240})
              && (if rule.ruleType.MaNear?
                  then rule.thresholdPercent.Some? && 0.0 < rule.thresholdPercent.value <= 20.0
                  else rule.thresholdPercent.None?)
              && (if run then rule.consecutiveDays.Some? && 2 <= rule.consecutiveDays.value <= 60
                  else rule.consecutiveDays.None?)
              && rule.cooldownMinutes >= 0 && rule.dailyLimit >= 1
              && (rule.mode.Realtime? ==> !run && rule.ruleType !in {MaCloseAbove, MaCloseBelow})
  {
  }
}
