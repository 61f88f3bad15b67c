// Runs only add events, count what they add, and record each firing, so that evaluating a
// date again creates nothing.
module AlertReruns {
  import opened Wrappers
  import opened AlertRules
  import opened AlertEngine
  import opened AlertLookBack

  // Every firing of the run is on record.
  ghost predicate Settled(run: Run, tasks: seq<Task>, events: seq<Event>) {
    forall k | 0 <= k < |tasks| && Outcome(run, tasks[k]).Hit? :: Recorded(events, TaskFingerprint(run, tasks[k]))
  }

  lemma {:induction false} RecordedExtends(before: seq<Event>, after: seq<Event>, mark: Fingerprint)
    requires before <= after && Recorded(before, mark)
    ensures Recorded(after, mark)
  {
    var i :| 0 <= i < |before| && EventFingerprint(before[i]) == mark;
    assert after[i] == before[i];
  }

  lemma {:induction false} IdealVisitsSettle(clock: Clock, run: Run, tasks: seq<Task>, s: Store)
    ensures var events := IdealVisits(clock, run, tasks, s).events;
            s.events <= events && Settled(run, tasks, events)
  {
    if tasks != [] {
      var last := |tasks| - 1;
      IdealVisitsSettle(clock, run, tasks[..last], s);
      var before, after := IdealVisits(clock, run, tasks[..last], s), IdealVisits(clock, run, tasks, s);
      forall k | 0 <= k < |tasks| && Outcome(run, tasks[k]).Hit?
        ensures Recorded(after.events, TaskFingerprint(run, tasks[k]))
      {
        var mark := TaskFingerprint(run, tasks[k]);
        if k < last {
          assert tasks[..last][k] == tasks[k];
          RecordedExtends(before.events, after.events, mark);
        } else if !Recorded(before.events, mark) {
          assert EventFingerprint(after.events[|before.events|]) == mark;
        }
      }
    }
  }

  // A run adds to the events, and records each of its firings.
  lemma {:induction false} RunRecordsFirings(clock: Clock, run: Run, s: Store)
    requires Monotone(clock) && WellFormedRun(run)
    ensures var events := EvaluateRun(clock, run, s).store.events;
            s.events <= events && Settled(run, RunTasks(run), events)
  {
    BoundedLookBackIsExact(clock, run, s);
    IdealVisitsSettle(clock, run, RunTasks(run), s.(ticks := s.ticks + 1));
  }

  lemma {:induction false} RunsExtend(clock: Clock, runs: seq<Run>, s: Store)
    requires Monotone(clock) && forall k | 0 <= k < |runs| :: WellFormedRun(runs[k])
    ensures s.events <= EvaluateRuns(clock, runs, s).events
  {
    if runs != [] {
      var last := |runs| - 1;
      RunsExtend(clock, runs[..last], s);
      RunRecordsFirings(clock, runs[last], EvaluateRuns(clock, runs[..last], s));
    }
  }

  lemma {:induction false} SettledVisitsChangeNothing(clock: Clock, run: Run, tasks: seq<Task>, s: Store)
    requires Settled(run, tasks, s.events)
    ensures IdealVisits(clock, run, tasks, s) == s
  {
    if tasks != [] {
      var last := |tasks| - 1;
      SettledVisitsChangeNothing(clock, run, tasks[..last], s);
    }
  }

  // The count a run reports is the number of events it added.
  lemma {:induction false} CreatedCountsEvents(clock: Clock, run: Run, tasks: seq<Task>, p: Progress)
    ensures var q := VisitAll(clock, run, tasks, p);
            |q.store.events| - |p.store.events| == q.created - p.created
  {
    if tasks != [] {
      CreatedCountsEvents(clock, run, tasks[..|tasks| - 1], p);
    }
  }

  // The same date and data, for some or all of the rules and securities.
  ghost predicate Repeats(again: Run, run: Run) {
    && again.history == run.history && again.tradingDays == run.tradingDays && again.target == run.target
    && forall k | 0 <= k < |RunTasks(again)| :: RunTasks(again)[k] in RunTasks(run)
  }

  // Evaluating a date again on the same data creates nothing, whatever ran in between.
  lemma {:induction false} RerunCreatesNothing(clock: Clock, run: Run, others: seq<Run>, again: Run, s: Store)
    requires Monotone(clock) && WellFormedRun(run) && WellFormedRun(again) && Repeats(again, run)
    requires forall k | 0 <= k < |others| :: WellFormedRun(others[k])
    ensures var before := EvaluateRuns(clock, others, EvaluateRun(clock, run, s).store);
            var after := EvaluateRun(clock, again, before);
            after.created == 0 && after.store.events == before.events && after.store.outbox == before.outbox
  {
    var first := EvaluateRun(clock, run, s).store;
    var before := EvaluateRuns(clock, others, first);
    RunRecordsFirings(clock, run, s);
    RunsExtend(clock, others, first);
    var tasks := RunTasks(again);
    forall k | 0 <= k < |tasks| && Outcome(again, tasks[k]).Hit?
      ensures Recorded(before.events, TaskFingerprint(again, tasks[k]))
    {
      SameOutcome(again, run, tasks[k]);
      RecordedExtends(first.events, before.events, TaskFingerprint(run, tasks[k]));
    }
    BoundedLookBackIsExact(clock, again, before);
    SettledVisitsChangeNothing(clock, again, tasks, before.(ticks := before.ticks + 1));
    CreatedCountsEvents(clock, again, tasks, Start(clock, again, before));
  }

  lemma {:induction false} SameVisible(points: seq<Point>, again: Run, run: Run)
    requires again.tradingDays == run.tradingDays && again.target == run.target
    ensures Visible(points, again) == Visible(points, run)
  {
    if points != [] {
      SameVisible(points[..|points| - 1], again, run);
    }
  }

  lemma {:induction false} SameOutcome(again: Run, run: Run, t: Task)
    requires again.history == run.history && again.tradingDays == run.tradingDays && again.target == run.target
    ensures Outcome(again, t) == Outcome(run, t)
  {
    SameVisible(if t.securityId in run.history then run.history[t.securityId] else [], again, run);
  }
}
