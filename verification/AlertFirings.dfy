// Which events a run adds, in terms of its inputs alone: the rules, the members of each, the
// price histories, the trading days and the date.
module AlertFirings {
  import opened Wrappers
  import opened AlertRules
  import opened AlertEngine
  import opened AlertLookBack
  import opened AlertReruns

  // ----------------------------------------------------------------- points

  predicate OpenUpTo(p: Point, run: Run) {
    p.date in run.tradingDays && p.date <= run.target
  }

  // These positions, in ascending order, are those of the points on trading days up to the
  // target.
  ghost predicate Selects(points: seq<Point>, run: Run, at: seq<nat>) {
    && (forall i, j | 0 <= i < j < |at| :: at[i] < at[j])
    && (forall i | 0 <= i < |at| :: at[i] < |points|)
    && (forall k: nat | k < |points| :: k in at <==> OpenUpTo(points[k], run))
  }

  // What a run sees of a history: its points on trading days up to the target, in order.
  ghost predicate Seen(points: seq<Point>, run: Run, at: seq<nat>, seen: seq<Point>) {
    && Selects(points, run, at)
    && |seen| == |at|
    && forall i | 0 <= i < |at| :: seen[i] == points[at[i]]
  }

  lemma {:induction false} VisibleIsSeen(points: seq<Point>, run: Run) returns (at: seq<nat>)
    ensures Seen(points, run, at, Visible(points, run))
  {
    if points == [] {
      at := [];
    } else {
      var last := |points| - 1;
      var before := VisibleIsSeen(points[..last], run);
      at := if OpenUpTo(points[last], run) then before + [last] else before;
      SelectsOneMore(points, run, before);
    }
  }

  lemma {:induction false} SelectsOneMore(points: seq<Point>, run: Run, before: seq<nat>)
    requires points != [] && Selects(points[..|points| - 1], run, before)
    ensures Selects(points, run, if OpenUpTo(points[|points| - 1], run) then before + [|points| - 1] else before)
  {
    var last := |points| - 1;
    var at := if OpenUpTo(points[last], run) then before + [last] else before;
    forall k: nat | k < |points| ensures k in at <==> OpenUpTo(points[k], run) {
      if k < last {
        assert points[..last][k] == points[k];
        assert k in before <==> OpenUpTo(points[..last][k], run);
      } else {
        assert last !in before;
      }
    }
  }

  lemma {:induction false} AtLeast(points: seq<Point>, run: Run, at: seq<nat>, i: nat)
    requires Selects(points, run, at) && i < |at|
    ensures at[i] >= i
  {
    if i > 0 {
      AtLeast(points, run, at, i - 1);
    }
  }

  lemma {:induction false} AtMostAll(points: seq<Point>, run: Run, at: seq<nat>)
    requires Selects(points, run, at)
    ensures |at| <= |points|
  {
    if at != [] {
      AtLeast(points, run, at, |at| - 1);
    }
  }

  lemma {:induction false} AscendingAgree(points: seq<Point>, run: Run, a: seq<nat>, b: seq<nat>)
    requires Selects(points, run, a) && Selects(points, run, b)
    ensures a == b
    decreases |points|
  {
    if points == [] {
      AtMostAll(points, run, a);
      AtMostAll(points, run, b);
    } else {
      var last := |points| - 1;
      var a' := WithoutLast(points, run, a);
      var b' := WithoutLast(points, run, b);
      AscendingAgree(points[..last], run, a', b');
    }
  }

  lemma {:induction false} WithoutLast(points: seq<Point>, run: Run, at: seq<nat>) returns (before: seq<nat>)
    requires points != [] && Selects(points, run, at)
    ensures Selects(points[..|points| - 1], run, before)
    ensures at == if OpenUpTo(points[|points| - 1], run) then before + [|points| - 1] else before
  {
    var last := |points| - 1;
    if last in at {
      var i :| 0 <= i < |at| && at[i] == last;
      assert at[i] <= at[|at| - 1] <= last;
      before := at[..|at| - 1];
    } else {
      before := at;
    }
    forall k: nat | k < last ensures k in before <==> OpenUpTo(points[..last][k], run) {
      assert k in at <==> OpenUpTo(points[k], run);
      if k in at {
        var i :| 0 <= i < |at| && at[i] == k;
        assert before[i] == k;
      }
    }
  }

  // Whatever is seen of a history is determined by it.
  lemma {:induction false} SeenIsVisible(points: seq<Point>, run: Run, at: seq<nat>, seen: seq<Point>)
    requires Seen(points, run, at, seen)
    ensures seen == Visible(points, run)
  {
    var at' := VisibleIsSeen(points, run);
    AscendingAgree(points, run, at, at');
  }

  // ---------------------------------------------------------------- firings

  // An end-of-day rule of the run, by position, and one of its members.
  predicate Pairs(run: Run, i: int, security: int) {
    && 0 <= i < |run.rules| && run.rules[i].mode.EndOfDay?
    && run.rules[i].id in run.membership && security in run.membership[run.rules[i].id]
  }

  function HistoryOf(run: Run, security: int): seq<Point> {
    if security in run.history then run.history[security] else []
  }

  // The rule evaluates to a hit, or raises, on what the run sees of the history.
  ghost predicate Fires(run: Run, i: int, security: int) {
    Pairs(run, i, security) && exists at, seen ::
      Seen(HistoryOf(run, security), run, at, seen) && Evaluate(run.rules[i], seen).Hit?
  }

  ghost predicate Fails(run: Run, i: int, security: int) {
    Pairs(run, i, security) && exists at, seen ::
      Seen(HistoryOf(run, security), run, at, seen) && Evaluate(run.rules[i], seen).Raises?
  }

  // The event of that rule and security on the date of the run.
  predicate IsEventOf(run: Run, i: int, security: int, e: Event) {
    && 0 <= i < |run.rules|
    && e.ruleId == run.rules[i].id && e.eventType == run.rules[i].ruleType
    && e.securityId == security && e.tradeDate == run.target
  }

  ghost predicate HasEvent(run: Run, i: int, security: int, events: seq<Event>) {
    exists k :: 0 <= k < |events| && IsEventOf(run, i, security, events[k])
  }

  ghost predicate OfFiring(run: Run, e: Event) {
    exists i :: Fires(run, i, e.securityId) && IsEventOf(run, i, e.securityId, e)
  }

  lemma {:induction false} EvaluatesVisible(run: Run, i: int, security: int)
    requires Pairs(run, i, security)
    ensures Fires(run, i, security) <==> Outcome(run, Task(run.rules[i], security)).Hit?
    ensures Fails(run, i, security) <==> Outcome(run, Task(run.rules[i], security)).Raises?
  {
    var points := HistoryOf(run, security);
    var at := VisibleIsSeen(points, run);
    forall at', seen | Seen(points, run, at', seen) ensures seen == Visible(points, run) {
      SeenIsVisible(points, run, at', seen);
    }
  }

  lemma {:induction false} EndOfDayRulesIff(rules: seq<Rule>, rule: Rule)
    ensures rule in EndOfDayRules(rules) <==> rule in rules && rule.mode.EndOfDay?
    decreases |rules|
  {
    if rules != [] {
      var last := |rules| - 1;
      EndOfDayRulesIff(rules[..last], rule);
      assert rules == rules[..last] + [rules[last]];
    }
  }

  lemma {:induction false} TasksIff(rules: seq<Rule>, membership: map<int, seq<int>>, t: Task)
    ensures t in Tasks(rules, membership) <==> t.rule in rules && t.securityId in Members(membership, t.rule.id)
    decreases |rules|
  {
    if rules != [] {
      var last := |rules| - 1;
      TasksIff(rules[..last], membership, t);
      TasksOfIff(rules[last], Members(membership, rules[last].id), t);
      assert rules == rules[..last] + [rules[last]];
    }
  }

  lemma {:induction false} TasksOfIff(rule: Rule, members: seq<int>, t: Task)
    ensures t in TasksOf(rule, members) <==> t.rule == rule && t.securityId in members
  {
    if t.rule == rule && t.securityId in members {
      var i :| 0 <= i < |members| && members[i] == t.securityId;
      assert TasksOf(rule, members)[i] == t;
    }
  }

  // The tasks of a run are the pairs of an end-of-day rule with one of its members.
  lemma {:induction false} RunTasksIff(run: Run, t: Task)
    ensures t in RunTasks(run) <==> exists i :: Pairs(run, i, t.securityId) && run.rules[i] == t.rule
  {
    TasksIff(EndOfDayRules(run.rules), run.membership, t);
    EndOfDayRulesIff(run.rules, t.rule);
    if t in RunTasks(run) {
      var i :| 0 <= i < |run.rules| && run.rules[i] == t.rule;
      assert Pairs(run, i, t.securityId);
    }
  }

  // What the tasks add comes from one of them.
  lemma {:induction false} AddedByTask(clock: Clock, run: Run, tasks: seq<Task>, s: Store, k: nat) returns (n: nat)
    requires |s.events| <= k < |IdealVisits(clock, run, tasks, s).events|
    ensures n < |tasks| && Outcome(run, tasks[n]).Hit?
    ensures EventFingerprint(IdealVisits(clock, run, tasks, s).events[k]) == TaskFingerprint(run, tasks[n])
    decreases |tasks|
  {
    var last := |tasks| - 1;
    var before := IdealVisits(clock, run, tasks[..last], s);
    if k < |before.events| {
      n := AddedByTask(clock, run, tasks[..last], s, k);
    } else {
      n := last;
    }
  }

  // A run leaves an event of every firing, and every event it adds is one of a firing: no
  // other rule, no other security, no other date.
  lemma {:induction false} RunAddsFirings(clock: Clock, run: Run, s: Store)
    requires Monotone(clock) && WellFormedRun(run)
    ensures var events := EvaluateRun(clock, run, s).store.events;
            && s.events <= events
            && (forall i, security | Fires(run, i, security) :: HasEvent(run, i, security, events))
            && (forall k | |s.events| <= k < |events| :: OfFiring(run, events[k]))
  {
    RunRecordsFirings(clock, run, s);
    BoundedLookBackIsExact(clock, run, s);
    var events := EvaluateRun(clock, run, s).store.events;
    forall i, security | Fires(run, i, security)
      ensures HasEvent(run, i, security, events)
    {
      FiringIsRecorded(run, i, security, events);
    }
    forall k | |s.events| <= k < |events|
      ensures OfFiring(run, events[k])
    {
      var n := AddedByTask(clock, run, RunTasks(run), s.(ticks := s.ticks + 1), k);
      AddedByFiring(run, RunTasks(run)[n], events[k]);
    }
  }

  lemma {:induction false} AddedByFiring(run: Run, t: Task, e: Event)
    requires t in RunTasks(run) && Outcome(run, t).Hit? && EventFingerprint(e) == TaskFingerprint(run, t)
    ensures OfFiring(run, e)
  {
    var i := TaskFires(run, t);
    assert e.securityId == t.securityId && IsEventOf(run, i, e.securityId, e);
  }

  lemma {:induction false} FiringIsRecorded(run: Run, i: int, security: int, events: seq<Event>)
    requires Settled(run, RunTasks(run), events) && Fires(run, i, security)
    ensures HasEvent(run, i, security, events)
  {
    var t := Task(run.rules[i], security);
    RunTasksIff(run, t);
    EvaluatesVisible(run, i, security);
    var n :| 0 <= n < |RunTasks(run)| && RunTasks(run)[n] == t;
    var k :| 0 <= k < |events| && EventFingerprint(events[k]) == TaskFingerprint(run, t);
    assert IsEventOf(run, i, security, events[k]);
  }

  lemma {:induction false} TaskFires(run: Run, t: Task) returns (i: int)
    requires t in RunTasks(run) && Outcome(run, t).Hit?
    ensures Fires(run, i, t.securityId) && run.rules[i] == t.rule
  {
    RunTasksIff(run, t);
    i :| Pairs(run, i, t.securityId) && run.rules[i] == t.rule;
    EvaluatesVisible(run, i, t.securityId);
  }

  // ----------------------------------------------------------------- errors

  // The positions of the tasks that raise.
  ghost function Raising(run: Run, tasks: seq<Task>): set<int> {
    set n | 0 <= n < |tasks| && RaisesAt(run, tasks, n)
  }

  lemma {:induction false} ErrorsCount(clock: Clock, run: Run, tasks: seq<Task>, p: Progress)
    ensures VisitAll(clock, run, tasks, p).errors == p.errors + |Raising(run, tasks)|
  {
    if tasks == [] {
      assert Raising(run, tasks) == {};
    } else {
      ErrorsCount(clock, run, tasks[..|tasks| - 1], p);
      OneTaskMore(run, tasks);
    }
  }

  lemma {:induction false} OneTaskMore(run: Run, tasks: seq<Task>)
    requires tasks != []
    ensures |Raising(run, tasks)|
            == |Raising(run, tasks[..|tasks| - 1])| + if RaisesAt(run, tasks, |tasks| - 1) then 1 else 0
  {
    var last := |tasks| - 1;
    var before, after := Raising(run, tasks[..last]), Raising(run, tasks);
    forall n | n != last ensures n in before <==> n in after {
      assert 0 <= n < last ==> tasks[..last][n] == tasks[n];
    }
    var others := after - {last};
    assert others == before by {
      forall n ensures n in others <==> n in before {
        assert n != last ==> (n in before <==> n in after);
      }
    }
    assert after == if last in after then others + {last} else others;
  }

  // A run reports one error for each task that raises, so it succeeds exactly when no
  // end-of-day rule raises on one of its members.
  lemma {:induction false} RunSucceedsIff(clock: Clock, run: Run, s: Store)
    ensures EvaluateRun(clock, run, s).errors == |Raising(run, RunTasks(run))|
    ensures EvaluateRun(clock, run, s).errors == 0 <==> forall i, security :: !Fails(run, i, security)
  {
    var tasks := RunTasks(run);
    ErrorsCount(clock, run, tasks, Start(clock, run, s));
    assert Raising(run, tasks) == {} <==> forall n :: !RaisesAt(run, tasks, n) by {
      assert forall n :: n in Raising(run, tasks) <==> RaisesAt(run, tasks, n);
    }
    forall i, security | Fails(run, i, security) ensures exists n :: RaisesAt(run, tasks, n) {
      FailingTask(run, i, security);
    }
    forall n | RaisesAt(run, tasks, n) ensures exists i, security :: Fails(run, i, security) {
      TaskFails(run, tasks[n]);
    }
  }

  ghost predicate RaisesAt(run: Run, tasks: seq<Task>, n: int) {
    0 <= n < |tasks| && Outcome(run, tasks[n]).Raises?
  }

  lemma {:induction false} FailingTask(run: Run, i: int, security: int)
    requires Fails(run, i, security)
    ensures exists n :: RaisesAt(run, RunTasks(run), n)
  {
    var t := Task(run.rules[i], security);
    RunTasksIff(run, t);
    EvaluatesVisible(run, i, security);
    var n :| 0 <= n < |RunTasks(run)| && RunTasks(run)[n] == t;
    assert RaisesAt(run, RunTasks(run), n);
  }

  lemma {:induction false} TaskFails(run: Run, t: Task)
    requires t in RunTasks(run) && Outcome(run, t).Raises?
    ensures exists i, security :: Fails(run, i, security)
  {
    RunTasksIff(run, t);
    var i :| Pairs(run, i, t.securityId) && run.rules[i] == t.rule;
    EvaluatesVisible(run, i, t.securityId);
  }
}
