// The throttling theorems, which follow from the engine that searches the whole history.
module AlertThrottle {
  import opened Wrappers
  import opened AlertRules
  import opened AlertEngine
  import opened AlertLookBack

  // The rule settings, by id, that stay fixed over the runs; a run may leave rules out.
  ghost predicate Follows(book: map<int, Rule>, run: Run) {
    forall i | 0 <= i < |run.rules| :: run.rules[i].id in book && book[run.rules[i].id] == run.rules[i]
  }

  ghost predicate Fixed(book: map<int, Rule>, runs: seq<Run>) {
    && (forall id <- book :: ValidateRule(book[id]).None?)
    && forall k | 0 <= k < |runs| :: WellFormedRun(runs[k]) && Follows(book, runs[k])
  }

  // The ids of the eligible events, oldest first.
  function EligibleIds(events: seq<Event>): seq<nat> {
    if events == [] then []
    else
      var last := |events| - 1;
      EligibleIds(events[..last]) + if events[last].eligible then [last] else []
  }

  ghost predicate FiresOnce(events: seq<Event>) {
    forall i, j | 0 <= i < j < |events| :: EventFingerprint(events[i]) != EventFingerprint(events[j])
  }

  ghost predicate InTimeOrder(events: seq<Event>, now: int) {
    && (forall i, j | 0 <= i < j < |events| :: events[i].triggeredAt <= events[j].triggeredAt)
    && forall i | 0 <= i < |events| :: events[i].triggeredAt <= now
  }

  // An eligible event comes more than the cooldown after every earlier event of its rule
  // and security, eligible or not.
  ghost predicate Spaced(book: map<int, Rule>, events: seq<Event>) {
    forall i, j | 0 <= i < j < |events| && events[j].eligible && EventKey(events[i]) == EventKey(events[j]) ::
      && events[j].ruleId in book
      && events[j].triggeredAt - events[i].triggeredAt > book[events[j].ruleId].cooldownMinutes * 60_000_000
  }

  // The positions of the eligible events of a rule on a date.
  function EligibleAt(events: seq<Event>, ruleId: int, date: int): set<int> {
    set i | 0 <= i < |events| && events[i].ruleId == ruleId && events[i].tradeDate == date && events[i].eligible
  }

  lemma {:induction false} EligibleOnCounts(events: seq<Event>, ruleId: int, date: int)
    ensures EligibleOn(events, ruleId, date) == |EligibleAt(events, ruleId, date)|
  {
    if events != [] {
      EligibleOnCounts(events[..|events| - 1], ruleId, date);
      OneEventMore(events, ruleId, date);
    }
  }

  lemma {:induction false} OneEventMore(events: seq<Event>, ruleId: int, date: int)
    requires events != []
    ensures var e := events[|events| - 1];
            |EligibleAt(events, ruleId, date)|
            == |EligibleAt(events[..|events| - 1], ruleId, date)|
               + if e.ruleId == ruleId && e.tradeDate == date && e.eligible then 1 else 0
  {
    var last := |events| - 1;
    var e := events[last];
    assert EligibleAt(events, ruleId, date)
           == EligibleAt(events[..last], ruleId, date)
              + if e.ruleId == ruleId && e.tradeDate == date && e.eligible then {last} else {};
  }

  ghost predicate WithinLimits(book: map<int, Rule>, events: seq<Event>) {
    forall id, date | id in book :: |EligibleAt(events, id, date)| <= book[id].dailyLimit
  }

  ghost predicate Throttled(clock: Clock, book: map<int, Rule>, s: Store) {
    && FiresOnce(s.events)
    && InTimeOrder(s.events, clock(s.ticks))
    && Spaced(book, s.events)
    && WithinLimits(book, s.events)
    && s.outbox == EligibleIds(s.events)
  }

  // The event of a firing that is not yet recorded.
  ghost function IdealEvent(clock: Clock, run: Run, t: Task, s: Store): Event {
    var eligible := && !Cooling(s.events, TaskKey(t), clock(s.ticks) - Cooldown(t.rule))
                    && EligibleOn(s.events, t.rule.id, run.target) < t.rule.dailyLimit;
    Event(t.rule.id, t.securityId, clock(s.ticks + 1), run.target, t.rule.ruleType, eligible)
  }

  lemma {:induction false} IdealVisitAdds(clock: Clock, run: Run, t: Task, s: Store)
    ensures IdealVisit(clock, run, t, s)
            == if Outcome(run, t).Hit? && !Recorded(s.events, TaskFingerprint(run, t))
               then AddEvent(s, IdealEvent(clock, run, t, s)) else s
  {
  }

  lemma {:induction false} FiresOnceMore(events: seq<Event>, e: Event)
    requires FiresOnce(events) && !Recorded(events, EventFingerprint(e))
    ensures FiresOnce(events + [e])
  {
  }

  lemma {:induction false} TimeGoesOn(events: seq<Event>, e: Event, now: int, later: int)
    requires InTimeOrder(events, now) && now <= e.triggeredAt <= later
    ensures InTimeOrder(events + [e], later)
  {
  }

  lemma {:induction false} SpacedMore(book: map<int, Rule>, events: seq<Event>, e: Event, bound: int)
    requires Spaced(book, events) && e.ruleId in book && e.triggeredAt - bound >= Cooldown(book[e.ruleId])
    requires e.eligible ==> !Cooling(events, EventKey(e), bound)
    ensures Spaced(book, events + [e])
  {
    if e.eligible {
      forall i | 0 <= i < |events| && EventKey(events[i]) == EventKey(e) ensures events[i].triggeredAt < bound {
      }
    }
  }

  lemma {:induction false} LimitsMore(book: map<int, Rule>, events: seq<Event>, e: Event)
    requires WithinLimits(book, events) && e.ruleId in book
    requires e.eligible ==> EligibleOn(events, e.ruleId, e.tradeDate) < book[e.ruleId].dailyLimit
    ensures WithinLimits(book, events + [e])
  {
    forall id, date | id in book ensures |EligibleAt(events + [e], id, date)| <= book[id].dailyLimit {
      EligibleOnAppend(events, e, id, date);
      EligibleOnCounts(events, id, date);
      EligibleOnCounts(events + [e], id, date);
    }
  }

  lemma {:induction false} OutboxMore(events: seq<Event>, e: Event)
    ensures EligibleIds(events + [e]) == EligibleIds(events) + if e.eligible then [|events|] else []
  {
    assert (events + [e])[..|events|] == events;
  }

  lemma {:induction false} IdealVisitKeepsThrottled(clock: Clock, book: map<int, Rule>, run: Run, t: Task, s: Store)
    requires Monotone(clock) && Throttled(clock, book, s)
    requires t.rule.id in book && book[t.rule.id] == t.rule && t.rule.dailyLimit >= 1
    ensures Throttled(clock, book, IdealVisit(clock, run, t, s))
  {
    IdealVisitAdds(clock, run, t, s);
    if Outcome(run, t).Hit? && !Recorded(s.events, TaskFingerprint(run, t)) {
      var e := IdealEvent(clock, run, t, s);
      assert clock(s.ticks) <= clock(s.ticks + 1) <= clock(s.ticks + 3);
      FiresOnceMore(s.events, e);
      TimeGoesOn(s.events, e, clock(s.ticks), clock(s.ticks + 3));
      SpacedMore(book, s.events, e, clock(s.ticks) - Cooldown(t.rule));
      LimitsMore(book, s.events, e);
      OutboxMore(s.events, e);
    }
  }

  lemma {:induction false} IdealVisitsKeepThrottled(
      clock: Clock, book: map<int, Rule>, run: Run, tasks: seq<Task>, s: Store)
    requires Monotone(clock) && Throttled(clock, book, s)
    requires forall k | 0 <= k < |tasks| ::
             tasks[k].rule.id in book && book[tasks[k].rule.id] == tasks[k].rule && tasks[k].rule.dailyLimit >= 1
    ensures Throttled(clock, book, IdealVisits(clock, run, tasks, s))
  {
    if tasks != [] {
      var last := |tasks| - 1;
      IdealVisitsKeepThrottled(clock, book, run, tasks[..last], s);
      IdealVisitKeepsThrottled(clock, book, run, tasks[last], IdealVisits(clock, run, tasks[..last], s));
    }
  }

  // The tasks of a run carry validated rules of the book.
  lemma {:induction false} BookTasks(book: map<int, Rule>, run: Run)
    requires WellFormedRun(run) && Follows(book, run) && forall id <- book :: ValidateRule(book[id]).None?
    ensures forall k | 0 <= k < |RunTasks(run)| ::
              var rule := RunTasks(run)[k].rule; rule.id in book && book[rule.id] == rule && rule.dailyLimit >= 1
  {
    var tasks := RunTasks(run);
    RunTasksAreDistinct(run);
    forall k | 0 <= k < |tasks|
      ensures tasks[k].rule.id in book && book[tasks[k].rule.id] == tasks[k].rule && tasks[k].rule.dailyLimit >= 1
    {
      assert Among(tasks[k].rule, run.rules);
    }
  }

  lemma {:induction false} RunKeepsThrottled(clock: Clock, book: map<int, Rule>, run: Run, s: Store)
    requires Monotone(clock) && Fixed(book, [run]) && Throttled(clock, book, s)
    ensures Throttled(clock, book, EvaluateRun(clock, run, s).store)
  {
    assert [run][0] == run;
    var tasks := RunTasks(run);
    BookTasks(book, run);
    assert clock(s.ticks) <= clock(s.ticks + 1);
    BoundedLookBackIsExact(clock, run, s);
    IdealVisitsKeepThrottled(clock, book, run, tasks, s.(ticks := s.ticks + 1));
  }

  // Over any runs with fixed settings: fingerprints are unique, events are in time order,
  // an eligible event is more than the cooldown after every earlier event of its rule and
  // security, no rule exceeds its daily limit on any date, and the outbox holds one row
  // for each eligible event.
  lemma {:induction false} RunsAreThrottled(clock: Clock, book: map<int, Rule>, runs: seq<Run>)
    requires Monotone(clock) && Fixed(book, runs)
    ensures Throttled(clock, book, EvaluateRuns(clock, runs, EMPTY_STORE))
  {
    if runs == [] {
      forall id | id in book ensures book[id].dailyLimit >= 1 {
        assert ValidateRule(book[id]).None?;
      }
    } else {
      var last := |runs| - 1;
      RunsAreThrottled(clock, book, runs[..last]);
      assert Fixed(book, [runs[last]]);
      RunKeepsThrottled(clock, book, runs[last], EvaluateRuns(clock, runs[..last], EMPTY_STORE));
    }
  }

  // The ids of the eligible events: ascending, hence without repeats, and complete.
  lemma {:induction false} EligibleIdsAreExact(events: seq<Event>)
    ensures forall a, b | 0 <= a < b < |EligibleIds(events)| :: EligibleIds(events)[a] < EligibleIds(events)[b]
    ensures forall a | 0 <= a < |EligibleIds(events)| :: EligibleIds(events)[a] < |events|
    ensures forall i: nat | i < |events| :: i in EligibleIds(events) <==> events[i].eligible
  {
    if events != [] {
      EligibleIdsAreExact(events[..|events| - 1]);
    }
  }
}
