// What a run loads of a price history, and when a rule decides on it as on the whole history.
module AlertWindow {
  import opened Wrappers
  import opened AlertRules
  import opened AlertEngine

  // What a run loads of a price history: the last rows up to the target, closed days
  // included, and as many as the longest count of consecutive days among its rules.
  function UpTo(points: seq<Point>, target: int): seq<Point> {
    if points == [] then []
    else
      var last := |points| - 1;
      UpTo(points[..last], target) + if points[last].date <= target then [points[last]] else []
  }

  function DaysOf(rule: Rule): int {
    if rule.consecutiveDays.Some? && rule.consecutiveDays.value != 0 then rule.consecutiveDays.value else 2
  }

  function LongestDays(rules: seq<Rule>): int {
    if rules == [] then 2
    else if |rules| == 1 then DaysOf(rules[0])
    else Max(LongestDays(rules[..|rules| - 1]), DaysOf(rules[|rules| - 1]))
  }

  function Window(points: seq<Point>, target: int, days: nat): seq<Point> {
    LastN(UpTo(points, target), days)
  }

  predicate AllOpen(points: seq<Point>, run: Run) {
    forall i | 0 <= i < |points| :: points[i].date in run.tradingDays
  }

  lemma {:induction false} VisibleConcat(a: seq<Point>, b: seq<Point>, run: Run)
    ensures Visible(a + b, run) == Visible(a, run) + Visible(b, run)
  {
    if b == [] {
      assert a + b == a;
    } else {
      VisibleConcat(a, b[..|b| - 1], run);
      assert (a + b)[..|a + b| - 1] == a + b[..|b| - 1];
    }
  }

  lemma {:induction false} VisibleUpTo(points: seq<Point>, run: Run)
    ensures Visible(UpTo(points, run.target), run) == Visible(points, run)
    ensures forall i | 0 <= i < |UpTo(points, run.target)| :: UpTo(points, run.target)[i].date <= run.target
  {
    if points != [] {
      var init, last := points[..|points| - 1], points[|points| - 1];
      VisibleUpTo(init, run);
      if last.date <= run.target {
        VisibleConcat(UpTo(init, run.target), [last], run);
        assert [last][..0] == [];
      } else {
        assert UpTo(init, run.target) + [] == UpTo(init, run.target);
        assert Visible(init, run) + [] == Visible(init, run);
      }
    }
  }

  // A closed day in the window takes the place of an open one.
  lemma {:induction false} VisibleCounts(points: seq<Point>, run: Run)
    requires forall i | 0 <= i < |points| :: points[i].date <= run.target
    ensures |Visible(points, run)| <= |points|
    ensures |Visible(points, run)| == |points| <==> AllOpen(points, run)
  {
    if points != [] {
      VisibleCounts(points[..|points| - 1], run);
    }
  }

  // What a run sees of a history is a last part of what it would see of all of it.
  lemma {:induction false} WindowIsSuffix(points: seq<Point>, run: Run, days: nat)
    ensures var seen, all := Visible(Window(points, run.target, days), run), Visible(points, run);
            |seen| <= |all| && seen == LastN(all, |seen|)
  {
    var rows, window := UpTo(points, run.target), Window(points, run.target, days);
    VisibleUpTo(points, run);
    var head := rows[..|rows| - |window|];
    assert rows == head + window;
    VisibleConcat(head, window, run);
    var seen, all := Visible(window, run), Visible(points, run);
    assert all == Visible(head, run) + seen;
  }

  // A rule evaluates on the window as on the whole history when enough points of the window
  // are on open days, in particular when all are and the window is as long as the rule asks.
  lemma {:induction false} WindowIsExact(rule: Rule, points: seq<Point>, run: Run, days: nat)
    requires ValidateRule(rule).None?
    requires var seen := Visible(Window(points, run.target, days), run);
             |seen| >= Asked(rule) || |seen| == |Visible(points, run)|
    ensures Evaluate(rule, Visible(Window(points, run.target, days), run)) == Evaluate(rule, Visible(points, run))
  {
    var seen, all := Visible(Window(points, run.target, days), run), Visible(points, run);
    WindowIsSuffix(points, run, days);
    if |seen| >= Asked(rule) {
      WindowSuffices(rule, all, |seen|);
    }
  }

  lemma {:induction false} OpenWindowIsExact(rule: Rule, points: seq<Point>, run: Run, days: nat)
    requires ValidateRule(rule).None? && days >= Asked(rule) && AllOpen(Window(points, run.target, days), run)
    ensures Evaluate(rule, Visible(Window(points, run.target, days), run)) == Evaluate(rule, Visible(points, run))
  {
    var rows, window := UpTo(points, run.target), Window(points, run.target, days);
    VisibleUpTo(points, run);
    forall i | 0 <= i < |window| ensures window[i].date <= run.target {
      assert window[i] == rows[|rows| - |window| + i];
    }
    VisibleCounts(window, run);
    if |rows| <= days {
      assert window == rows;
    }
    WindowIsExact(rule, points, run, days);
  }

  // What a closed day costs: a rule that looks at the whole window never fires while a row
  // of the window is on a closed day, whatever came before the window.
  lemma {:induction false} ClosedDayCosts(rule: Rule, points: seq<Point>, run: Run, days: nat)
    requires ValidateRule(rule).None? && Asked(rule) == days
    requires !AllOpen(Window(points, run.target, days), run)
    ensures Evaluate(rule, Visible(Window(points, run.target, days), run)) == Nothing
  {
    var rows, window := UpTo(points, run.target), Window(points, run.target, days);
    VisibleUpTo(points, run);
    forall i | 0 <= i < |window| ensures window[i].date <= run.target {
      assert window[i] == rows[|rows| - |window| + i];
    }
    VisibleCounts(window, run);
    ShortHistoryIsSilent(rule, Visible(window, run));
  }

  // The window of a run is long enough for each of its validated rules.
  lemma {:induction false} LongestDaysSuffice(rules: seq<Rule>, i: nat)
    requires i < |rules| && forall k | 0 <= k < |rules| :: ValidateRule(rules[k]).None?
    ensures LongestDays(rules) >= 2 && LongestDays(rules) >= Asked(rules[i])
  {
    if |rules| > 1 {
      var init := rules[..|rules| - 1];
      LongestDaysSuffice(init, if i < |init| then i else 0);
    }
  }

  // The days a rule counts, or two where it does not say.
  predicate CountsDays(rule: Rule, days: int) {
    if rule.consecutiveDays.None? || rule.consecutiveDays == Some(0) then days == 2
    else rule.consecutiveDays == Some(days)
  }

  // The number of days loaded is the most that any rule counts, and two without rules.
  lemma {:induction false} LongestDaysIs(rules: seq<Rule>)
    ensures rules == [] ==> LongestDays(rules) == 2
    ensures rules != [] ==> exists i :: 0 <= i < |rules| && CountsDays(rules[i], LongestDays(rules))
    ensures forall i, days | 0 <= i < |rules| && CountsDays(rules[i], days) :: days <= LongestDays(rules)
  {
    if |rules| == 1 {
      assert CountsDays(rules[0], LongestDays(rules));
    } else if rules != [] {
      var last := |rules| - 1;
      LongestDaysIs(rules[..last]);
      assert forall i | 0 <= i < last :: rules[..last][i] == rules[i];
      assert CountsDays(rules[last], DaysOf(rules[last]));
      var i :| 0 <= i < last && CountsDays(rules[..last][i], LongestDays(rules[..last]));
      assert CountsDays(rules[i], LongestDays(rules[..last]));
    }
  }
}
