// When an alert event is eligible for notification: exactly when cooldown and daily limit
// allow it at the instant of its decision, over any runs.
module AlertEligibility {
  import opened Wrappers
  import opened AlertRules
  import opened AlertEngine
  import opened AlertLookBack
  import opened AlertThrottle

  // At the instant of its decision an event was eligible exactly when no earlier event of
  // its rule and security lay within the cooldown and the rule had fewer eligible events
  // on the date than its daily limit. The event is stamped at that instant or later.
  ghost predicate DecidedAt(clock: Clock, book: map<int, Rule>, events: seq<Event>, j: nat, instant: nat)
    requires j < |events| && events[j].ruleId in book
  {
    var e, rule := events[j], book[events[j].ruleId];
    && clock(instant) <= e.triggeredAt
    && (forall i | 0 <= i < j :: events[i].triggeredAt <= clock(instant))
    && (e.eligible <==>
          && (forall i | 0 <= i < j && events[i].ruleId == e.ruleId && events[i].securityId == e.securityId ::
                events[i].triggeredAt < clock(instant) - rule.cooldownMinutes * 60_000_000)
          && |EligibleAt(events[..j], e.ruleId, e.tradeDate)| < rule.dailyLimit)
  }

  ghost predicate Decided(clock: Clock, book: map<int, Rule>, events: seq<Event>, j: nat)
    requires j < |events|
  {
    events[j].ruleId in book && exists instant: nat :: DecidedAt(clock, book, events, j, instant)
  }

  ghost predicate AllDecided(clock: Clock, book: map<int, Rule>, events: seq<Event>) {
    forall j | 0 <= j < |events| :: Decided(clock, book, events, j)
  }

  lemma {:induction false} DecidedStays(
      clock: Clock, book: map<int, Rule>, before: seq<Event>, after: seq<Event>, j: nat)
    requires before <= after && j < |before| && Decided(clock, book, before, j)
    ensures Decided(clock, book, after, j)
  {
    var instant: nat :| DecidedAt(clock, book, before, j, instant);
    assert after[..j] == before[..j];
    assert DecidedAt(clock, book, after, j, instant);
  }

  lemma {:induction false} CoolingIff(events: seq<Event>, e: Event, bound: int)
    ensures Cooling(events, EventKey(e), bound)
            <==> exists i :: && 0 <= i < |events| && events[i].ruleId == e.ruleId
                             && events[i].securityId == e.securityId && events[i].triggeredAt >= bound
  {
    if Cooling(events, EventKey(e), bound) {
      var i :| 0 <= i < |events| && EventKey(events[i]) == EventKey(e) && events[i].triggeredAt >= bound;
      assert events[i].ruleId == e.ruleId && events[i].securityId == e.securityId;
    }
    forall i | 0 <= i < |events| && events[i].ruleId == e.ruleId && events[i].securityId == e.securityId
      ensures EventKey(events[i]) == EventKey(e) {
    }
  }

  lemma {:induction false} DecidedMore(clock: Clock, book: map<int, Rule>, events: seq<Event>, e: Event, instant: nat)
    requires AllDecided(clock, book, events) && e.ruleId in book
    requires clock(instant) <= e.triggeredAt && forall i | 0 <= i < |events| :: events[i].triggeredAt <= clock(instant)
    requires e.eligible <==>
               && !Cooling(events, EventKey(e), clock(instant) - Cooldown(book[e.ruleId]))
               && EligibleOn(events, e.ruleId, e.tradeDate) < book[e.ruleId].dailyLimit
    ensures AllDecided(clock, book, events + [e])
  {
    var after, last := events + [e], |events|;
    assert after[..last] == events && after[last] == e;
    EligibleOnCounts(events, e.ruleId, e.tradeDate);
    CoolingIff(events, e, clock(instant) - Cooldown(book[e.ruleId]));
    assert DecidedAt(clock, book, after, last, instant);
    forall j | 0 <= j < |after| ensures Decided(clock, book, after, j) {
      if j < last {
        DecidedStays(clock, book, events, after, j);
      }
    }
  }

  lemma {:induction false} IdealVisitDecides(clock: Clock, book: map<int, Rule>, run: Run, t: Task, s: Store)
    requires Monotone(clock) && InTimeOrder(s.events, clock(s.ticks)) && AllDecided(clock, book, s.events)
    requires t.rule.id in book && book[t.rule.id] == t.rule
    ensures AllDecided(clock, book, IdealVisit(clock, run, t, s).events)
  {
    IdealVisitAdds(clock, run, t, s);
    if Outcome(run, t).Hit? && !Recorded(s.events, TaskFingerprint(run, t)) {
      assert clock(s.ticks) <= clock(s.ticks + 1);
      DecidedMore(clock, book, s.events, IdealEvent(clock, run, t, s), s.ticks);
    }
  }

  lemma {:induction false} IdealVisitsDecide(clock: Clock, book: map<int, Rule>, run: Run, tasks: seq<Task>, s: Store)
    requires Monotone(clock) && Throttled(clock, book, s) && AllDecided(clock, book, s.events)
    requires forall k | 0 <= k < |tasks| ::
             tasks[k].rule.id in book && book[tasks[k].rule.id] == tasks[k].rule && tasks[k].rule.dailyLimit >= 1
    ensures AllDecided(clock, book, IdealVisits(clock, run, tasks, s).events)
  {
    if tasks != [] {
      var last := |tasks| - 1;
      IdealVisitsDecide(clock, book, run, tasks[..last], s);
      IdealVisitsKeepThrottled(clock, book, run, tasks[..last], s);
      IdealVisitDecides(clock, book, run, tasks[last], IdealVisits(clock, run, tasks[..last], s));
    }
  }

  // Over any runs with fixed settings every event is eligible exactly when cooldown and
  // limit allow it: the throttle neither leaks nor holds back.
  lemma {:induction false} EligibleIff(clock: Clock, book: map<int, Rule>, runs: seq<Run>)
    requires Monotone(clock) && Fixed(book, runs)
    ensures AllDecided(clock, book, EvaluateRuns(clock, runs, EMPTY_STORE).events)
  {
    if runs != [] {
      var last := |runs| - 1;
      var run, s := runs[last], EvaluateRuns(clock, runs[..last], EMPTY_STORE);
      EligibleIff(clock, book, runs[..last]);
      RunsAreThrottled(clock, book, runs[..last]);
      assert clock(s.ticks) <= clock(s.ticks + 1);
      BoundedLookBackIsExact(clock, run, s);
      BookTasks(book, run);
      IdealVisitsDecide(clock, book, run, RunTasks(run), s.(ticks := s.ticks + 1));
    }
  }
}
