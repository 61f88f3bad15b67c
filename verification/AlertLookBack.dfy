// The engine decides as if it searched the whole history anew at each firing.
module AlertLookBack {
  import opened Wrappers
  import opened AlertRules
  import opened AlertEngine

  ghost predicate Recorded(events: seq<Event>, mark: Fingerprint) {
    exists i | 0 <= i < |events| :: EventFingerprint(events[i]) == mark
  }

  // Some event of this rule and security is as recent as the bound.
  ghost predicate Cooling(events: seq<Event>, key: Key, bound: int) {
    exists i | 0 <= i < |events| :: EventKey(events[i]) == key && events[i].triggeredAt >= bound
  }

  function EligibleOn(events: seq<Event>, ruleId: int, date: int): nat {
    if events == [] then 0
    else
      var e := events[|events| - 1];
      EligibleOn(events[..|events| - 1], ruleId, date)
        + if e.ruleId == ruleId && e.tradeDate == date && e.eligible then 1 else 0
  }

  // Search the whole history at each firing.
  ghost function IdealVisit(clock: Clock, run: Run, t: Task, s: Store): Store {
    if !Outcome(run, t).Hit? || Recorded(s.events, TaskFingerprint(run, t)) then s
    else
      var eligible := && !Cooling(s.events, TaskKey(t), clock(s.ticks) - Cooldown(t.rule))
                      && EligibleOn(s.events, t.rule.id, run.target) < t.rule.dailyLimit;
      AddEvent(s, Event(t.rule.id, t.securityId, clock(s.ticks + 1), run.target, t.rule.ruleType, eligible))
  }

  ghost function IdealVisits(clock: Clock, run: Run, tasks: seq<Task>, s: Store): Store {
    if tasks == [] then s
    else
      var last := |tasks| - 1;
      IdealVisit(clock, run, tasks[last], IdealVisits(clock, run, tasks[..last], s))
  }

  // ----------------------------------------------------- look-back is exact

  ghost predicate DistinctIds(rules: seq<Rule>) {
    forall i, j | 0 <= i < j < |rules| :: rules[i].id != rules[j].id
  }

  ghost predicate Distinct(members: seq<int>) {
    forall i, j | 0 <= i < j < |members| :: members[i] != members[j]
  }

  ghost predicate DistinctKeys(tasks: seq<Task>) {
    forall i, j | 0 <= i < j < |tasks| :: TaskKey(tasks[i]) != TaskKey(tasks[j])
  }

  // Rules have their own ids, and the members of a rule are a set.
  ghost predicate WellFormedRun(run: Run) {
    DistinctIds(run.rules) && forall r <- run.membership :: Distinct(run.membership[r])
  }

  // Everything the memory says about this key is what the history says.
  ghost predicate KnowsKey(m: Memory, events: seq<Event>, since: int, key: Key) {
    forall bound: int | bound >= since :: Cooling(events, key, bound) <==> (key in m.latest && m.latest[key] >= bound)
  }

  ghost predicate KnowsMark(m: Memory, events: seq<Event>, mark: Fingerprint) {
    mark in m.fingerprints <==> Recorded(events, mark)
  }

  ghost predicate KnowsCount(m: Memory, events: seq<Event>, target: int, ruleId: int) {
    CountOf(m.counts, ruleId) == EligibleOn(events, ruleId, target)
  }

  lemma {:induction false} CoolingAppend(events: seq<Event>, e: Event, key: Key, bound: int)
    ensures Cooling(events + [e], key, bound)
            <==> Cooling(events, key, bound) || (EventKey(e) == key && e.triggeredAt >= bound)
  {
    if Cooling(events, key, bound) {
      var i :| 0 <= i < |events| && EventKey(events[i]) == key && events[i].triggeredAt >= bound;
      assert (events + [e])[i] == events[i];
    }
    assert (events + [e])[|events|] == e;
  }

  lemma {:induction false} RecordedAppend(events: seq<Event>, e: Event, mark: Fingerprint)
    ensures Recorded(events + [e], mark) <==> Recorded(events, mark) || EventFingerprint(e) == mark
  {
    if Recorded(events, mark) {
      var i :| 0 <= i < |events| && EventFingerprint(events[i]) == mark;
      assert (events + [e])[i] == events[i];
    }
    assert (events + [e])[|events|] == e;
  }

  lemma {:induction false} EligibleOnAppend(events: seq<Event>, e: Event, ruleId: int, date: int)
    ensures EligibleOn(events + [e], ruleId, date)
            == EligibleOn(events, ruleId, date)
              + if e.ruleId == ruleId && e.tradeDate == date && e.eligible then 1 else 0
  {
    assert (events + [e])[..|events|] == events;
  }

  lemma {:induction false} LoadKnows(
      events: seq<Event>, ids: set<int>, target: int, since: int, key: Key, mark: Fingerprint)
    requires key.ruleId in ids && mark.ruleId in ids && mark.tradeDate == target
    ensures var m := Load(events, ids, target, since);
            KnowsKey(m, events, since, key) && KnowsMark(m, events, mark) && KnowsCount(m, events, target, key.ruleId)
  {
    if events != [] {
      var before, e := events[..|events| - 1], events[|events| - 1];
      LoadKnows(before, ids, target, since, key, mark);
      assert events == before + [e];
      RecordedAppend(before, e, mark);
      forall bound: int | bound >= since
        ensures Cooling(events, key, bound)
                <==> Cooling(before, key, bound) || (EventKey(e) == key && e.triggeredAt >= bound)
      {
        CoolingAppend(before, e, key, bound);
      }
    }
  }

  // Everything still to be visited is known, and so are all marks and counts.
  ghost predicate Knows(run: Run, since: int, tasks: seq<Task>, k: nat, p: Progress) {
    forall i | 0 <= i < |tasks| ::
      && (k <= i ==> KnowsKey(p.memory, p.store.events, since, TaskKey(tasks[i])))
      && KnowsMark(p.memory, p.store.events, TaskFingerprint(run, tasks[i]))
      && KnowsCount(p.memory, p.store.events, run.target, tasks[i].rule.id)
  }

  ghost predicate WithinLookBack(clock: Clock, since: int, tasks: seq<Task>, start: nat) {
    forall i, now: nat | 0 <= i < |tasks| && start <= now :: clock(now) - Cooldown(tasks[i].rule) >= since
  }

  // What a visit that records an event does: which event it is, and what the memory learns.
  ghost predicate Records(run: Run, t: Task, p: Progress, q: Progress, e: Event) {
    && q.store.events == p.store.events + [e]
    && EventKey(e) == TaskKey(t) && EventFingerprint(e) == TaskFingerprint(run, t)
    && q.memory.fingerprints == p.memory.fingerprints + {TaskFingerprint(run, t)}
    && TaskKey(t) in q.memory.latest && q.memory.latest - {TaskKey(t)} == p.memory.latest - {TaskKey(t)}
    && q.memory.counts
       == if e.eligible then p.memory.counts[t.rule.id := CountOf(p.memory.counts, t.rule.id) + 1] else p.memory.counts
  }

  lemma {:induction false} VisitRecords(clock: Clock, run: Run, t: Task, p: Progress)
    ensures var q := Visit(clock, run, t, p);
            || (q.store.events == p.store.events && q.memory == p.memory)
            || (q.store.events != [] && Records(run, t, p, q, q.store.events[|q.store.events| - 1]))
  {
    HitNamesTheRule(run, t);
    var q := Visit(clock, run, t, p);
    if q.store.events != p.store.events {
      var key := TaskKey(t);
      assert q.memory.latest == p.memory.latest[key := clock(p.store.ticks + 2)];
      assert q.memory.latest - {key} == p.memory.latest - {key};
    }
  }

  lemma {:induction false} VisitStoresIdeal(clock: Clock, run: Run, since: int, t: Task, p: Progress)
    requires KnowsKey(p.memory, p.store.events, since, TaskKey(t))
    requires KnowsMark(p.memory, p.store.events, TaskFingerprint(run, t))
    requires KnowsCount(p.memory, p.store.events, run.target, t.rule.id)
    requires clock(p.store.ticks) - Cooldown(t.rule) >= since
    ensures var q := Visit(clock, run, t, p);
            q.store == IdealVisit(clock, run, t, p.store) && q.store.ticks >= p.store.ticks
  {
    HitNamesTheRule(run, t);
    var bound := clock(p.store.ticks) - Cooldown(t.rule);
    assert Cooling(p.store.events, TaskKey(t), bound)
      <==> (TaskKey(t) in p.memory.latest && p.memory.latest[TaskKey(t)] >= bound);
  }

  lemma {:induction false} OtherKeyStaysKnown(
      run: Run, since: int, t: Task, p: Progress, q: Progress, e: Event, key: Key)
    requires Records(run, t, p, q, e) && key != TaskKey(t) && KnowsKey(p.memory, p.store.events, since, key)
    ensures KnowsKey(q.memory, q.store.events, since, key)
  {
    assert key in q.memory.latest <==> key in q.memory.latest - {TaskKey(t)};
    assert key in p.memory.latest <==> key in p.memory.latest - {TaskKey(t)};
    assert key in p.memory.latest ==> q.memory.latest[key] == p.memory.latest[key];
    forall bound: int | bound >= since
      ensures Cooling(q.store.events, key, bound) <==> (key in q.memory.latest && q.memory.latest[key] >= bound)
    {
      CoolingAppend(p.store.events, e, key, bound);
      assert Cooling(p.store.events, key, bound) <==> (key in p.memory.latest && p.memory.latest[key] >= bound);
    }
  }

  lemma {:induction false} MarkStaysKnown(run: Run, t: Task, p: Progress, q: Progress, e: Event, mark: Fingerprint)
    requires Records(run, t, p, q, e) && KnowsMark(p.memory, p.store.events, mark)
    ensures KnowsMark(q.memory, q.store.events, mark)
  {
    RecordedAppend(p.store.events, e, mark);
  }

  lemma {:induction false} CountStaysKnown(run: Run, t: Task, p: Progress, q: Progress, e: Event, ruleId: int)
    requires Records(run, t, p, q, e) && KnowsCount(p.memory, p.store.events, run.target, ruleId)
    ensures KnowsCount(q.memory, q.store.events, run.target, ruleId)
  {
    EligibleOnAppend(p.store.events, e, ruleId, run.target);
  }

  lemma {:induction false} VisitIsIdeal(clock: Clock, run: Run, since: int, tasks: seq<Task>, k: nat, p: Progress)
    requires k < |tasks| && DistinctKeys(tasks) && Knows(run, since, tasks, k, p)
    requires clock(p.store.ticks) - Cooldown(tasks[k].rule) >= since
    ensures var q := Visit(clock, run, tasks[k], p);
            && q.store == IdealVisit(clock, run, tasks[k], p.store)
            && Knows(run, since, tasks, k + 1, q)
            && q.store.ticks >= p.store.ticks
  {
    var t, q := tasks[k], Visit(clock, run, tasks[k], p);
    VisitStoresIdeal(clock, run, since, t, p);
    VisitRecords(clock, run, t, p);
    if q.store.events != p.store.events {
      KnowsNext(run, since, tasks, k, p, q, q.store.events[|q.store.events| - 1]);
    }
  }

  lemma {:induction false} KnowsNext(run: Run, since: int, tasks: seq<Task>, k: nat, p: Progress, q: Progress, e: Event)
    requires k < |tasks| && DistinctKeys(tasks) && Knows(run, since, tasks, k, p) && Records(run, tasks[k], p, q, e)
    ensures Knows(run, since, tasks, k + 1, q)
  {
    forall i | 0 <= i < |tasks|
      ensures k + 1 <= i ==> KnowsKey(q.memory, q.store.events, since, TaskKey(tasks[i]))
      ensures KnowsMark(q.memory, q.store.events, TaskFingerprint(run, tasks[i]))
      ensures KnowsCount(q.memory, q.store.events, run.target, tasks[i].rule.id)
    {
      if k + 1 <= i {
        OtherKeyStaysKnown(run, since, tasks[k], p, q, e, TaskKey(tasks[i]));
      }
      MarkStaysKnown(run, tasks[k], p, q, e, TaskFingerprint(run, tasks[i]));
      CountStaysKnown(run, tasks[k], p, q, e, tasks[i].rule.id);
    }
  }

  lemma {:induction false} HitNamesTheRule(run: Run, t: Task)
    ensures Outcome(run, t).Hit? ==> Outcome(run, t).occurrence.eventType == t.rule.ruleType
  {
    if Outcome(run, t).Hit? {
      HitIsCurrent(t.rule, Visible(if t.securityId in run.history then run.history[t.securityId] else [], run));
    }
  }

  lemma {:induction false} VisitAllNext(clock: Clock, run: Run, tasks: seq<Task>, k: nat, p: Progress)
    requires k < |tasks|
    ensures VisitAll(clock, run, tasks[..k + 1], p) == Visit(clock, run, tasks[k], VisitAll(clock, run, tasks[..k], p))
    ensures forall s ::
            IdealVisits(clock, run, tasks[..k + 1], s)
            == IdealVisit(clock, run, tasks[k], IdealVisits(clock, run, tasks[..k], s))
  {
    assert tasks[..k + 1][..k] == tasks[..k];
  }

  lemma {:induction false} VisitsAreIdeal(clock: Clock, run: Run, since: int, tasks: seq<Task>, k: nat, p: Progress)
    requires k <= |tasks| && DistinctKeys(tasks) && Knows(run, since, tasks, 0, p)
    requires WithinLookBack(clock, since, tasks, p.store.ticks)
    ensures var q := VisitAll(clock, run, tasks[..k], p);
            && q.store == IdealVisits(clock, run, tasks[..k], p.store)
            && Knows(run, since, tasks, k, q)
            && q.store.ticks >= p.store.ticks
  {
    if k > 0 {
      VisitsAreIdeal(clock, run, since, tasks, k - 1, p);
      VisitAllNext(clock, run, tasks, k - 1, p);
      VisitIsIdeal(clock, run, since, tasks, k - 1, VisitAll(clock, run, tasks[..k - 1], p));
    }
  }

  lemma {:induction false} CooldownBound(rules: seq<Rule>, i: nat)
    requires i < |rules|
    ensures Cooldown(rules[i]) <= LongestCooldown(rules)
  {
    if |rules| > 1 && i < |rules| - 1 {
      CooldownBound(rules[..|rules| - 1], i);
    }
  }

  ghost predicate Among(rule: Rule, rules: seq<Rule>) {
    exists i | 0 <= i < |rules| :: rules[i] == rule
  }

  lemma {:induction false} EndOfDayRulesAreRules(rules: seq<Rule>, i: nat)
    requires i < |EndOfDayRules(rules)|
    ensures Among(EndOfDayRules(rules)[i], rules)
  {
    var last := |rules| - 1;
    if i < |EndOfDayRules(rules[..last])| {
      EndOfDayRulesAreRules(rules[..last], i);
    }
  }

  lemma {:induction false} EndOfDayRulesKeepIds(rules: seq<Rule>)
    requires DistinctIds(rules)
    ensures DistinctIds(EndOfDayRules(rules))
  {
    if rules != [] {
      var last := |rules| - 1;
      EndOfDayRulesKeepIds(rules[..last]);
      var before := EndOfDayRules(rules[..last]);
      forall i | 0 <= i < |before| ensures before[i].id != rules[last].id {
        EndOfDayRulesAreRules(rules[..last], i);
      }
    }
  }

  // Each task carries one of the rules and one of its members, and no key comes twice.
  lemma {:induction false} TasksAreDistinct(rules: seq<Rule>, membership: map<int, seq<int>>)
    requires DistinctIds(rules) && forall r <- membership :: Distinct(membership[r])
    ensures DistinctKeys(Tasks(rules, membership))
    ensures forall k | 0 <= k < |Tasks(rules, membership)| :: Among(Tasks(rules, membership)[k].rule, rules)
  {
    if rules != [] {
      var last := |rules| - 1;
      TasksAreDistinct(rules[..last], membership);
      var before, own := Tasks(rules[..last], membership), TasksOf(rules[last], Members(membership, rules[last].id));
      assert Tasks(rules, membership) == before + own;
      forall k | 0 <= k < |before| ensures Among(before[k].rule, rules) && before[k].rule.id != rules[last].id {
        var i :| 0 <= i < |rules[..last]| && rules[..last][i] == before[k].rule;
        assert rules[i] == before[k].rule;
      }
      forall k | 0 <= k < |before + own| ensures Among((before + own)[k].rule, rules) {
        if k >= |before| {
          assert (before + own)[k].rule == rules[last];
        }
      }
    }
  }

  lemma {:induction false} RunTasksAreDistinct(run: Run)
    requires WellFormedRun(run)
    ensures DistinctKeys(RunTasks(run))
    ensures forall k | 0 <= k < |RunTasks(run)| ::
              Among(RunTasks(run)[k].rule, EndOfDayRules(run.rules)) && Among(RunTasks(run)[k].rule, run.rules)
  {
    EndOfDayRulesKeepIds(run.rules);
    TasksAreDistinct(EndOfDayRules(run.rules), run.membership);
    forall k | 0 <= k < |RunTasks(run)|
      ensures Among(RunTasks(run)[k].rule, run.rules)
    {
      assert Among(RunTasks(run)[k].rule, EndOfDayRules(run.rules));
      var i :| 0 <= i < |EndOfDayRules(run.rules)| && EndOfDayRules(run.rules)[i] == RunTasks(run)[k].rule;
      EndOfDayRulesAreRules(run.rules, i);
    }
  }

  // With a clock that never runs backwards, a run that decides from its bounded look-back
  // and its memory leaves the store that searching the whole history would leave.
  lemma {:induction false} BoundedLookBackIsExact(clock: Clock, run: Run, s: Store)
    requires Monotone(clock) && WellFormedRun(run)
    ensures EvaluateRun(clock, run, s).store == IdealVisits(clock, run, RunTasks(run), s.(ticks := s.ticks + 1))
  {
    var rules, tasks, p := EndOfDayRules(run.rules), RunTasks(run), Start(clock, run, s);
    var since := Since(clock, run, s.ticks);
    RunTasksAreDistinct(run);
    forall k | 0 <= k < |tasks|
      ensures Cooldown(tasks[k].rule) <= LongestCooldown(rules) && tasks[k].rule.id in RuleIds(rules)
    {
      assert Among(tasks[k].rule, rules);
      var i :| 0 <= i < |rules| && rules[i] == tasks[k].rule;
      CooldownBound(rules, i);
    }
    forall k | 0 <= k < |tasks|
      ensures KnowsKey(p.memory, p.store.events, since, TaskKey(tasks[k]))
      ensures KnowsMark(p.memory, p.store.events, TaskFingerprint(run, tasks[k]))
      ensures KnowsCount(p.memory, p.store.events, run.target, tasks[k].rule.id)
    {
      LoadKnows(s.events, RuleIds(rules), run.target, since, TaskKey(tasks[k]), TaskFingerprint(run, tasks[k]));
    }
    assert forall now: nat | s.ticks <= now :: clock(s.ticks) <= clock(now);
    VisitsAreIdeal(clock, run, since, tasks, |tasks|, p);
    assert tasks[..|tasks|] == tasks;
  }
}
