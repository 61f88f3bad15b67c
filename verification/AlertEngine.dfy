// The alert engine: runs that turn rule firings into events, deduplicated by fingerprint,
// throttled by a cooldown and a daily limit, with an outbox row for each eligible event.
// The engine decides from a bounded look-back that it loads once and then maintains in
// memory.
module AlertEngine {
  import opened Wrappers
  import opened AlertRules

  datatype Event = Event(ruleId: int, securityId: int, triggeredAt: int, tradeDate: int, eventType: RuleType,
    eligible: bool)

  datatype Fingerprint = Fingerprint(ruleId: int, securityId: int, tradeDate: int, eventType: RuleType)

  // The events, the push outbox (each row carries the id of its event) and the number of
  // instants that have passed.
  datatype Store = Store(events: seq<Event>, outbox: seq<nat>, ticks: nat)

  // The time, in microseconds, at each instant at which the service may read the clock.
  type Clock = nat -> int

  ghost predicate Monotone(clock: Clock) {
    forall i: nat, j: nat | i <= j :: clock(i) <= clock(j)
  }

  // What one run reads: the enabled rules, the securities of each, the price histories,
  // the trading days, and the date it evaluates.
  datatype Run = Run(
    rules: seq<Rule>, membership: map<int, seq<int>>, history: map<int, seq<Point>>, tradingDays: set<int>, target: int)

  datatype Key = Key(ruleId: int, securityId: int)

  // What a run keeps in memory: known fingerprints, the last event per rule and security,
  // and the eligible events per rule on the target date.
  datatype Memory = Memory(fingerprints: set<Fingerprint>, latest: map<Key, int>, counts: map<int, nat>)

  datatype Task = Task(rule: Rule, securityId: int)

  datatype Progress = Progress(store: Store, memory: Memory, created: nat, errors: nat)

  function EventFingerprint(e: Event): Fingerprint {
    Fingerprint(e.ruleId, e.securityId, e.tradeDate, e.eventType)
  }

  function EventKey(e: Event): Key {
    Key(e.ruleId, e.securityId)
  }

  function TaskKey(t: Task): Key {
    Key(t.rule.id, t.securityId)
  }

  function Cooldown(rule: Rule): int {
    rule.cooldownMinutes * 60_000_000
  }

  function Max(a: int, b: int): int {
    if a < b then b else a
  }

  function CountOf(counts: map<int, nat>, ruleId: int): nat {
    if ruleId in counts then counts[ruleId] else 0
  }

  // ----------------------------------------------------------------- inputs

  function EndOfDayRules(rules: seq<Rule>): seq<Rule> {
    if rules == [] then []
    else
      var last := |rules| - 1;
      EndOfDayRules(rules[..last]) + if rules[last].mode.EndOfDay? then [rules[last]] else []
  }

  function RuleIds(rules: seq<Rule>): set<int> {
    set i | 0 <= i < |rules| :: rules[i].id
  }

  // The longest cooldown; 0 when there is no rule.
  function LongestCooldown(rules: seq<Rule>): int {
    if rules == [] then 0
    else if |rules| == 1 then Cooldown(rules[0])
    else Max(LongestCooldown(rules[..|rules| - 1]), Cooldown(rules[|rules| - 1]))
  }

  function Members(membership: map<int, seq<int>>, ruleId: int): seq<int> {
    if ruleId in membership then membership[ruleId] else []
  }

  function TasksOf(rule: Rule, members: seq<int>): seq<Task> {
    seq(|members|, i requires 0 <= i < |members| => Task(rule, members[i]))
  }

  function Tasks(rules: seq<Rule>, membership: map<int, seq<int>>): seq<Task> {
    if rules == [] then []
    else
      var last := |rules| - 1;
      Tasks(rules[..last], membership) + TasksOf(rules[last], Members(membership, rules[last].id))
  }

  function RunTasks(run: Run): seq<Task> {
    Tasks(EndOfDayRules(run.rules), run.membership)
  }

  // The points of trading days up to the target.
  function Visible(points: seq<Point>, run: Run): seq<Point> {
    if points == [] then []
    else
      var last := |points| - 1;
      Visible(points[..last], run)
      + if points[last].date in run.tradingDays && points[last].date <= run.target then [points[last]] else []
  }

  function Outcome(run: Run, t: Task): Evaluation {
    Evaluate(t.rule, Visible(if t.securityId in run.history then run.history[t.securityId] else [], run))
  }

  // The fingerprint of the event a firing task records.
  function TaskFingerprint(run: Run, t: Task): Fingerprint {
    Fingerprint(t.rule.id, t.securityId, run.target, t.rule.ruleType)
  }

  // ------------------------------------------------------------- the engine

  function Load(events: seq<Event>, ids: set<int>, target: int, since: int): Memory {
    if events == [] then Memory({}, map[], map[])
    else
      var e := events[|events| - 1];
      var m := Load(events[..|events| - 1], ids, target, since);
      if e.ruleId in ids && (e.tradeDate == target || e.triggeredAt >= since) then LoadOne(m, e, target) else m
  }

  function LoadOne(m: Memory, e: Event, target: int): Memory {
    var key := EventKey(e);
    Memory(
      if e.tradeDate == target then m.fingerprints + {EventFingerprint(e)} else m.fingerprints,
      m.latest[key := if key in m.latest then Max(m.latest[key], e.triggeredAt) else e.triggeredAt],
      if e.tradeDate == target && e.eligible then m.counts[e.ruleId := CountOf(m.counts, e.ruleId) + 1] else m.counts)
  }

  // Store an event and, when it is eligible, its outbox row.
  function AddEvent(s: Store, e: Event): Store {
    Store(s.events + [e], if e.eligible then s.outbox + [|s.events|] else s.outbox, s.ticks + 3)
  }

  // An event takes three instants: the cooldown check, its own time stamp, and the
  // time stamp that the memory keeps.
  function Visit(clock: Clock, run: Run, t: Task, p: Progress): Progress {
    match Outcome(run, t)
    case Raises => p.(errors := p.errors + 1)
    case Nothing => p
    case Hit(o) =>
      var mark := Fingerprint(t.rule.id, t.securityId, run.target, o.eventType);
      if mark in p.memory.fingerprints then p
      else
        var key, now := TaskKey(t), p.store.ticks;
        var cooling := key in p.memory.latest && p.memory.latest[key] >= clock(now) - Cooldown(t.rule);
        var count := CountOf(p.memory.counts, t.rule.id);
        var eligible := !cooling && count < t.rule.dailyLimit;
        Progress(
          AddEvent(p.store, Event(t.rule.id, t.securityId, clock(now + 1), run.target, o.eventType, eligible)),
          Memory(
            p.memory.fingerprints + {mark},
            p.memory.latest[key := clock(now + 2)],
            if eligible then p.memory.counts[t.rule.id := count + 1] else p.memory.counts),
          p.created + 1, p.errors)
  }

  function VisitAll(clock: Clock, run: Run, tasks: seq<Task>, p: Progress): Progress {
    if tasks == [] then p
    else
      var last := |tasks| - 1;
      Visit(clock, run, tasks[last], VisitAll(clock, run, tasks[..last], p))
  }

  function Since(clock: Clock, run: Run, ticks: nat): int {
    clock(ticks) - LongestCooldown(EndOfDayRules(run.rules))
  }

  function Start(clock: Clock, run: Run, s: Store): Progress {
    Progress(
      s.(ticks := s.ticks + 1),
      Load(s.events, RuleIds(EndOfDayRules(run.rules)), run.target, Since(clock, run, s.ticks)), 0, 0)
  }

  function EvaluateRun(clock: Clock, run: Run, s: Store): Progress {
    VisitAll(clock, run, RunTasks(run), Start(clock, run, s))
  }

  function EvaluateRuns(clock: Clock, runs: seq<Run>, s: Store): Store {
    if runs == [] then s
    else
      var last := |runs| - 1;
      EvaluateRun(clock, runs[last], EvaluateRuns(clock, runs[..last], s)).store
  }

  const EMPTY_STORE := Store([], [], 0)

  // ----------------------------------------------------------------- service

  // The progress of a run after the first of its tasks.
  ghost predicate Reached(clock: Clock, run: Run, done: seq<Task>, start: Progress, p: Progress) {
    p == VisitAll(clock, run, done, start)
  }

  lemma {:induction false} ReachedOneMore(
      clock: Clock, run: Run, done: seq<Task>, rule: Rule, members: seq<int>, m: nat, start: Progress, p: Progress)
    requires m < |members| && Reached(clock, run, done + TasksOf(rule, members[..m]), start, p)
    ensures Reached(clock, run, done + TasksOf(rule, members[..m + 1]), start,
            Visit(clock, run, Task(rule, members[m]), p))
  {
    var next := done + TasksOf(rule, members[..m + 1]);
    assert next[..|next| - 1] == done + TasksOf(rule, members[..m]);
    assert next[|next| - 1] == Task(rule, members[m]);
  }

  class AlertEvaluationService {
    const clock: Clock
    var events: seq<Event>
    var outbox: seq<nat>
    var ticks: nat

    constructor (clock: Clock)
      ensures this.clock == clock && Stored() == EMPTY_STORE
    {
      this.clock := clock;
      events, outbox, ticks := [], [], 0;
    }

    ghost function Stored(): Store
      reads this
    {
      Store(events, outbox, ticks)
    }

    method EventState(ids: set<int>, target: int, since: int) returns (memory: Memory)
      ensures memory == Load(events, ids, target, since)
    {
      memory := Memory({}, map[], map[]);
      for i := 0 to |events|
        invariant memory == Load(events[..i], ids, target, since)
      {
        var e := events[i];
        assert events[..i + 1][..i] == events[..i];
        if e.ruleId in ids && (e.tradeDate == target || e.triggeredAt >= since) {
          var fingerprints, latest, counts := memory.fingerprints, memory.latest, memory.counts;
          var key := EventKey(e);
          latest := latest[key := if key in latest then Max(latest[key], e.triggeredAt) else e.triggeredAt];
          if e.tradeDate == target {
            fingerprints := fingerprints + {EventFingerprint(e)};
            if e.eligible {
              counts := counts[e.ruleId := CountOf(counts, e.ruleId) + 1];
            }
          }
          memory := Memory(fingerprints, latest, counts);
        }
      }
      assert events[..|events|] == events;
    }

    method Add(t: Task, target: int, eventType: RuleType, eligible: bool)
      modifies this
      ensures Stored() == AddEvent(old(Stored()),
              Event(t.rule.id, t.securityId, clock(old(ticks) + 1), target, eventType, eligible))
    {
      if eligible {
        outbox := outbox + [|events|];
      }
      events := events + [Event(t.rule.id, t.securityId, clock(ticks + 1), target, eventType, eligible)];
      ticks := ticks + 3;
    }

    // One rule on one security: what `memory`, `created` and `errors` become.
    method Process(run: Run, t: Task, memory: Memory, created: nat, errors: nat)
      returns (memory': Memory, created': nat, errors': nat)
      modifies this
      ensures Progress(Stored(), memory', created', errors')
              == Visit(clock, run, t, Progress(old(Stored()), memory, created, errors))
    {
      memory', created', errors' := memory, created, errors;
      match Outcome(run, t) {
        case Nothing =>
        case Raises => errors' := errors + 1;
        case Hit(o) =>
          var mark := Fingerprint(t.rule.id, t.securityId, run.target, o.eventType);
          if mark !in memory.fingerprints {
            var key, now := TaskKey(t), ticks;
            var cooling := key in memory.latest && memory.latest[key] >= clock(now) - Cooldown(t.rule);
            var count := CountOf(memory.counts, t.rule.id);
            var eligible := !cooling && count < t.rule.dailyLimit;
            Add(t, run.target, o.eventType, eligible);
            var fingerprints, latest := memory.fingerprints + {mark}, memory.latest[key := clock(now + 2)];
            var counts := if eligible then memory.counts[t.rule.id := count + 1] else memory.counts;
            memory', created' := Memory(fingerprints, latest, counts), created + 1;
          }
      }
    }

    // One rule on each of its members, after the tasks in `done`.
    method ProcessRule(
        run: Run, rule: Rule, memory: Memory, created: nat, errors: nat, ghost done: seq<Task>, ghost start: Progress)
      returns (memory': Memory, created': nat, errors': nat)
      requires Reached(clock, run, done, start, Progress(Stored(), memory, created, errors))
      modifies this
      ensures Reached(
                clock, run, done + TasksOf(rule, Members(run.membership, rule.id)), start,
                Progress(Stored(), memory', created', errors'))
    {
      var members := Members(run.membership, rule.id);
      memory', created', errors' := memory, created, errors;
      assert done + TasksOf(rule, members[..0]) == done;
      for m := 0 to |members|
        invariant Reached(clock, run, done + TasksOf(rule, members[..m]), start,
                  Progress(Stored(), memory', created', errors'))
      {
        ghost var before := Progress(Stored(), memory', created', errors');
        memory', created', errors' := Process(run, Task(rule, members[m]), memory', created', errors');
        ReachedOneMore(clock, run, done, rule, members, m, start, before);
      }
      assert members[..|members|] == members;
    }

    method Evaluate(run: Run) returns (created: nat, errors: nat, success: bool)
      modifies this
      ensures var p := EvaluateRun(clock, run, old(Stored()));
              Stored() == p.store && created == p.created && errors == p.errors && success == (p.errors == 0)
    {
      var rules := EndOfDayRules(run.rules);
      ghost var start := Start(clock, run, Stored());
      var memory := EventState(RuleIds(rules), run.target, clock(ticks) - LongestCooldown(rules));
      ticks := ticks + 1;
      created, errors := 0, 0;
      for r := 0 to |rules|
        invariant Reached(clock, run, Tasks(rules[..r], run.membership), start,
                  Progress(Stored(), memory, created, errors))
      {
        ghost var done := Tasks(rules[..r], run.membership);
        memory, created, errors := ProcessRule(run, rules[r], memory, created, errors, done, start);
        assert rules[..r + 1][..r] == rules[..r];
      }
      assert rules[..|rules|] == rules;
      success := errors == 0;
    }
  }
}
