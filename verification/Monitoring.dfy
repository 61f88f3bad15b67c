// Anomaly episodes: how one monitoring run turns detected anomalies into records and
// notifications, and what any number of runs send for one dedupe key.
module Monitoring {
  import opened Wrappers

  datatype Severity = Info | Warning | Error | Critical

  datatype Status = Active | Resolved | Suppressed

  // The dedupe key: anomaly type, dataset, scope and target date.
  datatype Key = Key(anomalyType: string, dataset: string, scope: string, date: int)

  datatype Anomaly = Anomaly(key: Key, severity: Severity, message: string)

  datatype Record = Record(
    severity: Severity, status: Status, occurrences: nat, firstSeen: int, lastSeen: int,
    lastNotified: Option<int>, resolvedAt: Option<int>, message: string)

  datatype Notification = Notification(key: Key, severity: Severity, isResolution: bool, at: int, occurrences: nat)

  type Records = map<Key, Record>

  function Rank(severity: Severity): nat {
    match severity
    case Info => 1
    case Warning => 2
    case Error => 3
    case Critical => 4
  }

  // What a run does to one key.
  datatype KeyStep = KeyStep(record: Option<Record>, notes: seq<Notification>)

  predicate Renotifies(cooldown: int, record: Record, anomaly: Anomaly, now: int) {
    || record.status.Resolved?
    || Rank(anomaly.severity) > Rank(record.severity)
    || !(record.lastNotified.Some? && now - record.lastNotified.value < cooldown)
  }

  function Opened(anomaly: Anomaly, now: int): Record {
    Record(anomaly.severity, Active, 1, now, now, Some(now), None, anomaly.message)
  }

  function SeenAgain(cooldown: int, record: Record, anomaly: Anomaly, now: int): Record {
    var seen := record.(lastSeen := now, occurrences := record.occurrences + 1, message := anomaly.message);
    var live := if record.status.Resolved? then seen.(status := Active, resolvedAt := None) else seen;
    if Renotifies(cooldown, record, anomaly, now) then live.(severity := anomaly.severity, lastNotified := Some(now))
      else live
  }

  function Step(cooldown: int, record: Option<Record>, detected: Option<Anomaly>, key: Key, now: int): KeyStep {
    match (record, detected)
    case (None, None) => KeyStep(None, [])
    case (None, Some(a)) => KeyStep(Some(Opened(a, now)), [Notification(key, a.severity, false, now, 1)])
    case (Some(r), Some(a)) =>
      KeyStep(Some(SeenAgain(cooldown, r, a, now)),
              if Renotifies(cooldown, r, a, now) then [Notification(key, a.severity, false, now, r.occurrences + 1)]
                else [])
    case (Some(r), None) =>
      if r.status.Active? then
        KeyStep(Some(r.(status := Resolved, resolvedAt := Some(now))),
          [Notification(key, Info, true, now, r.occurrences)])
      else KeyStep(Some(r), [])
  }

  datatype Run = Run(date: int, trading: bool, detected: seq<Anomaly>, now: int)

  function Lookup(records: Records, key: Key): Option<Record> {
    if key in records then Some(records[key]) else None
  }

  // The last anomaly of the list with this key: later entries replace earlier ones.
  function Detected(anomalies: seq<Anomaly>, key: Key): Option<Anomaly> {
    if anomalies == [] then None
    else if anomalies[|anomalies| - 1].key == key then Some(anomalies[|anomalies| - 1])
    else Detected(anomalies[..|anomalies| - 1], key)
  }

  // The anomaly of this key that comes last in a list.
  ghost predicate Latest(anomalies: seq<Anomaly>, key: Key, a: Anomaly) {
    exists i :: 0 <= i < |anomalies| && LatestAt(anomalies, key, a, i)
  }

  predicate LatestAt(anomalies: seq<Anomaly>, key: Key, a: Anomaly, i: int)
    requires 0 <= i < |anomalies|
  {
    anomalies[i] == a && a.key == key && forall j | i < j < |anomalies| :: anomalies[j].key != key
  }

  lemma {:induction false} DetectedIsLatest(anomalies: seq<Anomaly>, key: Key)
    ensures Detected(anomalies, key).Some? <==> exists i :: 0 <= i < |anomalies| && anomalies[i].key == key
    ensures Detected(anomalies, key).Some? ==> Latest(anomalies, key, Detected(anomalies, key).value)
  {
    if anomalies != [] {
      var last := |anomalies| - 1;
      if anomalies[last].key == key {
        assert LatestAt(anomalies, key, anomalies[last], last);
      } else {
        DetectedIsLatest(anomalies[..last], key);
        if Detected(anomalies, key).Some? {
          var a := Detected(anomalies, key).value;
          var i :| 0 <= i < last && LatestAt(anomalies[..last], key, a, i);
          assert anomalies[i] == a;
          assert forall j | i < j < last :: anomalies[j] == anomalies[..last][j];
          assert LatestAt(anomalies, key, a, i);
        }
      }
    }
  }

  function NotesOf(notes: seq<Notification>, key: Key): seq<Notification> {
    if notes == [] then []
    else
      var last := notes[|notes| - 1];
      NotesOf(notes[..|notes| - 1], key) + (if last.key == key then [last] else [])
  }

  // A run touches the keys of its own date, and only on a trading day.
  function StepFor(cooldown: int, records: Records, run: Run, key: Key): KeyStep {
    if run.trading && key.date == run.date
    then Step(cooldown, Lookup(records, key), Detected(run.detected, key), key, run.now)
    else KeyStep(Lookup(records, key), [])
  }

  ghost predicate IsRun(cooldown: int, before: Records, run: Run, after: Records, notes: seq<Notification>) {
    && (forall key :: Lookup(after, key) == StepFor(cooldown, before, run, key).record)
    && (forall key :: NotesOf(notes, key) == StepFor(cooldown, before, run, key).notes)
  }

  // ------------------------------------------------------------- the service

  datatype RunResult = RunResult(
    detected: nat, active: nat, added: nat, resolved: nat, created: nat, suppressed: nat,
    notifications: seq<Notification>)

  lemma {:induction false} NotesGrow(notes: seq<Notification>, note: Notification, key: Key)
    ensures NotesOf(notes + [note], key) == NotesOf(notes, key) + (if note.key == key then [note] else [])
  {
    assert (notes + [note])[..|notes|] == notes;
  }

  ghost predicate Distinct(keys: seq<Key>) {
    forall i, j | 0 <= i < j < |keys| :: keys[i] != keys[j]
  }

  // The detected anomalies as a dictionary: its keys in order of first insertion, and
  // under each the last anomaly inserted.
  method Deduplicate(anomalies: seq<Anomaly>) returns (order: seq<Key>, byKey: map<Key, Anomaly>)
    ensures Distinct(order)
    ensures forall key :: key in order <==> key in byKey
    ensures forall key :: Detected(anomalies, key) == if key in byKey then Some(byKey[key]) else None
    ensures forall key | key in byKey :: Latest(anomalies, key, byKey[key])
    ensures forall i | 0 <= i < |anomalies| :: anomalies[i].key in byKey
  {
    order, byKey := [], map[];
    for i := 0 to |anomalies|
      invariant Distinct(order)
      invariant forall key :: key in order <==> key in byKey
      invariant forall key :: Detected(anomalies[..i], key) == if key in byKey then Some(byKey[key]) else None
    {
      var a := anomalies[i];
      assert anomalies[..i + 1][..i] == anomalies[..i];
      if a.key !in byKey {
        order := order + [a.key];
      }
      byKey := byKey[a.key := a];
    }
    assert anomalies[..|anomalies|] == anomalies;
    forall key ensures Detected(anomalies, key).Some? ==> Latest(anomalies, key, Detected(anomalies, key).value) {
      DetectedIsLatest(anomalies, key);
    }
    forall i | 0 <= i < |anomalies| ensures anomalies[i].key in byKey {
      DetectedIsLatest(anomalies, anomalies[i].key);
    }
  }

  class DataQualityMonitoringService {
    var records: Records
    var outbox: seq<Notification>
    const cooldown: int

    constructor (cooldown: int)
      ensures records == map[] && outbox == [] && this.cooldown == cooldown
    {
      records, outbox := map[], [];
      this.cooldown := cooldown;
    }

    // Opens or re-sees the record of one detected key; returns its notification, if any.
    method Process(anomaly: Anomaly, now: int) returns (note: Option<Notification>)
      modifies this`records
      ensures var step := Step(cooldown, Lookup(old(records), anomaly.key), Some(anomaly), anomaly.key, now);
              && records == old(records)[anomaly.key := step.record.value]
              && step.notes == (if note.Some? then [note.value] else [])
    {
      var key := anomaly.key;
      if key !in records {
        records := records[key := Record(anomaly.severity, Active, 1, now, now, Some(now), None, anomaly.message)];
        return Some(Notification(key, anomaly.severity, false, now, 1));
      }
      var record := records[key];
      record := record.(lastSeen := now, occurrences := record.occurrences + 1, message := anomaly.message);
      var wasResolved := record.status.Resolved?;
      if wasResolved {
        record := record.(status := Active, resolvedAt := None);
      }
      var escalated := Rank(anomaly.severity) > Rank(record.severity);
      var inCooldown := record.lastNotified.Some? && now - record.lastNotified.value < cooldown;
      if wasResolved || escalated || !inCooldown {
        record := record.(severity := anomaly.severity, lastNotified := Some(now));
        note := Some(Notification(key, anomaly.severity, false, now, record.occurrences));
      } else {
        note := None;
      }
      records := records[key := record];
    }

    // Resolves the record of one key that is no longer detected, if it is active.
    method Resolve(key: Key, now: int) returns (note: Option<Notification>)
      requires key in records
      modifies this`records
      ensures var step := Step(cooldown, Lookup(old(records), key), None, key, now);
              && records == old(records)[key := step.record.value]
              && step.notes == (if note.Some? then [note.value] else [])
    {
      var record := records[key];
      note := None;
      if record.status.Active? {
        records := records[key := record.(status := Resolved, resolvedAt := Some(now))];
        note := Some(Notification(key, Info, true, now, record.occurrences));
      }
    }

    method ProcessDetected(order: seq<Key>, byKey: map<Key, Anomaly>, now: int)
      returns (notes: seq<Notification>, added: nat, suppressed: nat)
      requires Distinct(order) && forall key | key in byKey :: byKey[key].key == key
      requires forall key :: key in order <==> key in byKey
      modifies this`records
      ensures Stepped(cooldown, old(records), records, notes, now, map key | key in byKey :: Some(byKey[key]))
      ensures |notes| + suppressed == |order| && added == |NewKeys(order, old(records))|
    {
      notes, added, suppressed := [], 0, 0;
      ghost var before := records;
      for i := 0 to |order|
        invariant Stepped(cooldown, before, records, notes, now, Taken(order[..i], byKey))
        invariant |notes| + suppressed == i && added == |NewKeys(order[..i], before)|
      {
        var key := order[i];
        NextNewKey(order, i, before);
        TakenNext(order, i, byKey);
        UntouchedStays(cooldown, before, records, notes, now, Taken(order[..i], byKey), key);
        if key !in records {
          added := added + 1;
        }
        var silenced;
        notes, silenced := ProcessOne(byKey[key], now, notes, before, Taken(order[..i], byKey));
        suppressed := suppressed + silenced;
      }
      assert order[..|order|] == order;
      assert Taken(order, byKey) == map key | key in byKey :: Some(byKey[key]);
    }

    // Processes one detected key, after those in `touched`.
    method ProcessOne(
        anomaly: Anomaly, now: int, sent: seq<Notification>, ghost before: Records,
        ghost touched: map<Key, Option<Anomaly>>)
      returns (notes: seq<Notification>, silenced: nat)
      requires anomaly.key !in touched
      requires Stepped(cooldown, before, records, sent, now, touched)
      modifies this`records
      ensures Stepped(cooldown, before, records, notes, now, touched[anomaly.key := Some(anomaly)])
      ensures |notes| + silenced == |sent| + 1
    {
      ghost var stored := records;
      var note := Process(anomaly, now);
      OneKeyMore(cooldown, before, stored, records, sent, now, touched, anomaly.key, Some(anomaly),
        Step(cooldown, Lookup(stored, anomaly.key), Some(anomaly), anomaly.key, now));
      if note.Some? {
        notes, silenced := sent + [note.value], 0;
      } else {
        notes, silenced := sent, 1;
        assert sent + [] == sent;
      }
    }

    // Resolves one loaded record that is not detected, after those in `touched`.
    method ResolveOne(
        key: Key, now: int, sent: seq<Notification>, ghost before: Records, ghost touched: map<Key, Option<Anomaly>>)
      returns (notes: seq<Notification>)
      requires key in records && key !in touched
      requires Stepped(cooldown, before, records, sent, now, touched)
      modifies this`records
      ensures records.Keys == old(records.Keys)
      ensures Stepped(cooldown, before, records, notes, now, touched[key := None])
      ensures |notes| == |sent| + |ActiveAmong(before, {key})|
    {
      ghost var stored := records;
      assert At(records, sent, key, StepOf(cooldown, before, now, touched, key));
      assert ActiveAmong(before, {key}) == if records[key].status.Active? then {key} else {};
      var note := Resolve(key, now);
      OneKeyMore(cooldown, before, stored, records, sent, now, touched, key, None,
        Step(cooldown, Lookup(stored, key), None, key, now));
      if note.Some? {
        notes := sent + [note.value];
      } else {
        notes := sent;
        assert sent + [] == sent;
      }
    }

    // Resolves the loaded records that are active and no longer detected, in any order.
    method ResolveMissing(loaded: set<Key>, detected: set<Key>, now: int, alerts: seq<Notification>,
                          ghost before: Records, ghost done: map<Key, Option<Anomaly>>)
      returns (notes: seq<Notification>, resolved: nat)
      requires forall key | key in loaded :: key in records
      requires Stepped(cooldown, before, records, alerts, now, done) && done.Keys == detected
      modifies this`records
      ensures Stepped(cooldown, before, records, notes, now, done + map key | key in loaded - detected :: None)
      ensures |notes| == |alerts| + resolved && resolved == |ActiveAmong(before, loaded - detected)|
    {
      notes := alerts;
      var pending := loaded - detected;
      ghost var touched := done;
      while pending != {}
        invariant pending <= loaded - detected && loaded <= records.Keys
        invariant touched == done + map key | key in loaded - detected - pending :: None
        invariant Stepped(cooldown, before, records, notes, now, touched)
        invariant |notes| == |alerts| + |ActiveAmong(before, loaded - detected - pending)|
        decreases pending
      {
        var key :| key in pending;
        notes := ResolveOne(key, now, notes, before, touched);
        TouchedMore(done, loaded - detected, pending, key);
        ActiveMore(before, loaded - detected - pending, key);
        assert loaded - detected - (pending - {key}) == (loaded - detected - pending) + {key};
        pending, touched := pending - {key}, touched[key := None];
      }
      assert loaded - detected - pending == loaded - detected;
      resolved := |notes| - |alerts|;
    }

    // One run: silent off trading days; otherwise every key of the date takes its step,
    // and each notification becomes one outbox row.
    method EvaluateDate(run: Run) returns (result: RunResult)
      requires forall i | 0 <= i < |run.detected| :: run.detected[i].key.date == run.date
      modifies this
      ensures IsRun(cooldown, old(records), run, records, result.notifications)
      ensures outbox == old(outbox) + result.notifications
      ensures result.created == |result.notifications|
      ensures run.trading ==>
                && result.detected == |run.detected|
                && result.active == |KeysOf(run.detected)|
                && result.added == |KeysOf(run.detected) - old(records).Keys|
                && result.resolved == |set key | && key in old(records) && key.date == run.date
                                                 && old(records)[key].status == Active && key !in KeysOf(run.detected)|
      ensures result.created + result.suppressed == result.active + result.resolved
      ensures !run.trading ==> result == RunResult(0, 0, 0, 0, 0, 0, []) && records == old(records)
    {
      if !run.trading {
        assert outbox + [] == outbox;
        return RunResult(0, 0, 0, 0, 0, 0, []);
      }
      var order, byKey := Deduplicate(run.detected);
      KeysAreOwn(run.detected, byKey);
      ghost var before := records;
      var loaded := KeysOn(records, run.date);
      var alerts, added, suppressed := ProcessDetected(order, byKey, run.now);
      ghost var done := map key | key in byKey :: Some(byKey[key]);
      LoadedStay(cooldown, before, records, alerts, run.now, done, loaded);
      var notes, resolved := ResolveMissing(loaded, byKey.Keys, run.now, alerts, before, done);
      outbox := outbox + notes;
      AllKeysStepped(cooldown, before, run, records, notes, byKey, loaded);
      OrderCountsKeys(run.detected, order, byKey);
      assert NewKeys(order, before) == KeysOf(run.detected) - before.Keys;
      assert loaded - byKey.Keys == loaded - KeysOf(run.detected);
      ResolvedAre(before, run.date, KeysOf(run.detected));
      result := RunResult(|run.detected|, |order|, added, resolved, |notes|, suppressed, notes);
    }
  }

  // The recorded keys of a date, and those of some keys whose record is active.
  function KeysOn(records: Records, date: int): set<Key> {
    set key | key in records && key.date == date
  }

  function ActiveAmong(records: Records, keys: set<Key>): set<Key> {
    set key | key in keys && key in records && records[key].status.Active?
  }

  lemma {:induction false} ResolvedAre(records: Records, date: int, detected: set<Key>)
    ensures ActiveAmong(records, KeysOn(records, date) - detected)
            == set key | && key in records && key.date == date
                         && records[key].status == Active && key !in detected
  {
  }

  function NewKeys(order: seq<Key>, before: Records): set<Key> {
    set key | key in order && key !in before
  }

  // The anomalies of these keys.
  ghost function Taken(order: seq<Key>, byKey: map<Key, Anomaly>): map<Key, Option<Anomaly>> {
    map key | key in order && key in byKey :: Some(byKey[key])
  }

  lemma {:induction false} TakenNext(order: seq<Key>, i: nat, byKey: map<Key, Anomaly>)
    requires i < |order| && Distinct(order) && order[i] in byKey
    ensures Taken(order[..i + 1], byKey) == Taken(order[..i], byKey)[order[i] := Some(byKey[order[i]])]
    ensures order[i] !in Taken(order[..i], byKey)
  {
    assert order[..i + 1] == order[..i] + [order[i]];
  }

  lemma {:induction false} UntouchedStays(
      cooldown: int, before: Records, after: Records, notes: seq<Notification>, now: int,
      touched: map<Key, Option<Anomaly>>, key: Key)
    requires Stepped(cooldown, before, after, notes, now, touched) && key !in touched
    ensures key in after <==> key in before
  {
    assert At(after, notes, key, StepOf(cooldown, before, now, touched, key));
  }

  lemma {:induction false} NextNewKey(order: seq<Key>, i: nat, before: Records)
    requires i < |order| && Distinct(order)
    ensures |NewKeys(order[..i + 1], before)|
            == |NewKeys(order[..i], before)| + if order[i] !in before then 1 else 0
    ensures order[i] !in order[..i]
  {
    assert order[..i + 1] == order[..i] + [order[i]];
    assert NewKeys(order[..i + 1], before)
           == NewKeys(order[..i], before) + if order[i] !in before then {order[i]} else {};
  }

  lemma {:induction false} ActiveMore(records: Records, keys: set<Key>, key: Key)
    requires key !in keys
    ensures |ActiveAmong(records, keys + {key})| == |ActiveAmong(records, keys)| + |ActiveAmong(records, {key})|
  {
    assert ActiveAmong(records, keys + {key}) == ActiveAmong(records, keys) + ActiveAmong(records, {key});
  }

  function StepOf(cooldown: int, before: Records, now: int, touched: map<Key, Option<Anomaly>>, key: Key): KeyStep {
    if key in touched then Step(cooldown, Lookup(before, key), touched[key], key, now)
      else KeyStep(Lookup(before, key), [])
  }

  lemma {:induction false} TouchedMore(done: map<Key, Option<Anomaly>>, missing: set<Key>, pending: set<Key>, key: Key)
    requires key in pending && pending <= missing
    ensures (done + map k | k in missing - pending :: None)[key := None]
            == done + map k | k in missing - (pending - {key}) :: None
  {
  }

  ghost predicate At(after: Records, notes: seq<Notification>, key: Key, step: KeyStep) {
    Lookup(after, key) == step.record && NotesOf(notes, key) == step.notes
  }

  // The touched keys have taken their step from the records before, the others are as they were.
  ghost predicate Stepped(cooldown: int, before: Records, after: Records, notes: seq<Notification>, now: int,
                          touched: map<Key, Option<Anomaly>>) {
    forall key :: At(after, notes, key, StepOf(cooldown, before, now, touched, key))
  }

  lemma {:induction false} StepNotesAreOwn(
      cooldown: int, record: Option<Record>, detected: Option<Anomaly>, key: Key, now: int)
    ensures var notes := Step(cooldown, record, detected, key, now).notes;
            notes == [] || (|notes| == 1 && notes[0].key == key)
  {
  }

  lemma {:induction false} OwnNotes(notes: seq<Notification>, more: seq<Notification>, key: Key, k: Key)
    requires more == [] || (|more| == 1 && more[0].key == key)
    ensures NotesOf(notes + more, k) == NotesOf(notes, k) + (if k == key then more else [])
  {
    if more == [] {
      assert notes + more == notes;
    } else {
      assert more == [more[0]];
      NotesGrow(notes, more[0], k);
    }
  }

  lemma {:induction false} OneKeyMore(
      cooldown: int, before: Records, stored: Records, after: Records, notes: seq<Notification>, now: int,
      touched: map<Key, Option<Anomaly>>, key: Key, detected: Option<Anomaly>, step: KeyStep)
    requires Stepped(cooldown, before, stored, notes, now, touched) && key !in touched
    requires step == Step(cooldown, Lookup(stored, key), detected, key, now)
    requires step.record.Some? && after == stored[key := step.record.value]
    ensures Stepped(cooldown, before, after, notes + step.notes, now, touched[key := detected])
  {
    StepNotesAreOwn(cooldown, Lookup(stored, key), detected, key, now);
    assert At(stored, notes, key, StepOf(cooldown, before, now, touched, key));
    var notes', touched' := notes + step.notes, touched[key := detected];
    forall k
      ensures At(after, notes', k, StepOf(cooldown, before, now, touched', k))
    {
      OwnNotes(notes, step.notes, key, k);
      assert At(stored, notes, k, StepOf(cooldown, before, now, touched, k));
    }
  }

  lemma {:induction false} LoadedStay(
      cooldown: int, before: Records, after: Records, notes: seq<Notification>, now: int,
      touched: map<Key, Option<Anomaly>>, loaded: set<Key>)
    requires Stepped(cooldown, before, after, notes, now, touched)
    requires loaded <= before.Keys
    ensures loaded <= after.Keys
  {
    forall key | key in loaded
      ensures key in after
    {
      assert At(after, notes, key, StepOf(cooldown, before, now, touched, key));
      assert Lookup(before, key).Some? && Lookup(after, key).Some?;
    }
  }

  lemma {:induction false} AllKeysStepped(
      cooldown: int, before: Records, run: Run, after: Records, notes: seq<Notification>,
      byKey: map<Key, Anomaly>, loaded: set<Key>)
    requires run.trading && forall i | 0 <= i < |run.detected| :: run.detected[i].key.date == run.date
    requires forall key :: Detected(run.detected, key) == if key in byKey then Some(byKey[key]) else None
    requires loaded == set key | key in before && key.date == run.date
    requires Stepped(cooldown, before, after, notes, run.now,
                     (map key | key in byKey :: Some(byKey[key])) + map key | key in loaded - byKey.Keys :: None)
    ensures IsRun(cooldown, before, run, after, notes)
  {
    forall key
      ensures Lookup(after, key) == StepFor(cooldown, before, run, key).record
      ensures NotesOf(notes, key) == StepFor(cooldown, before, run, key).notes
    {
      assert Detected(run.detected, key) == if key in byKey then Some(byKey[key]) else None;
      assert At(after, notes, key, StepOf(cooldown, before, run.now,
                (map key | key in byKey :: Some(byKey[key])) + map key | key in loaded - byKey.Keys :: None, key));
      if key in byKey {
        DetectedMember(run.detected, key);
      }
    }
  }

  lemma {:induction false} DetectedMember(anomalies: seq<Anomaly>, key: Key)
    requires Detected(anomalies, key).Some?
    ensures exists i ::
            0 <= i < |anomalies| && anomalies[i] == Detected(anomalies, key).value && anomalies[i].key == key
    decreases |anomalies|
  {
    if anomalies[|anomalies| - 1].key != key {
      var before := anomalies[..|anomalies| - 1];
      DetectedMember(before, key);
      var i :| 0 <= i < |before| && before[i] == Detected(before, key).value && before[i].key == key;
      assert anomalies[i] == before[i];
    }
  }

  function KeysOf(anomalies: seq<Anomaly>): set<Key> {
    set i | 0 <= i < |anomalies| :: anomalies[i].key
  }

  lemma {:induction false} DetectedIff(anomalies: seq<Anomaly>, key: Key)
    ensures Detected(anomalies, key).Some? <==> key in KeysOf(anomalies)
    decreases |anomalies|
  {
    if anomalies != [] {
      var before := anomalies[..|anomalies| - 1];
      DetectedIff(before, key);
      assert key in KeysOf(before) ==> key in KeysOf(anomalies) by {
        if key in KeysOf(before) {
          var i :| 0 <= i < |before| && before[i].key == key;
          assert anomalies[i].key == key;
        }
      }
      assert anomalies[|anomalies| - 1].key in KeysOf(anomalies);
      if key in KeysOf(anomalies) && key != anomalies[|anomalies| - 1].key {
        var i :| 0 <= i < |anomalies| && anomalies[i].key == key;
        assert before[i].key == key;
      }
    }
  }

  function Members(keys: seq<Key>): set<Key> {
    set key | key in keys
  }

  lemma {:induction false} DistinctSize(keys: seq<Key>)
    requires Distinct(keys)
    ensures |Members(keys)| == |keys|
    decreases |keys|
  {
    if keys == [] {
      assert Members(keys) == {};
    } else {
      var before, last := keys[..|keys| - 1], keys[|keys| - 1];
      DistinctSize(before);
      assert keys == before + [last];
      assert Members(keys) == Members(before) + {last} && last !in Members(before);
    }
  }

  lemma {:induction false} OrderCountsKeys(anomalies: seq<Anomaly>, order: seq<Key>, byKey: map<Key, Anomaly>)
    requires Distinct(order) && forall key :: key in order <==> key in byKey
    requires forall key :: Detected(anomalies, key) == if key in byKey then Some(byKey[key]) else None
    ensures |order| == |KeysOf(anomalies)| && Members(order) == KeysOf(anomalies) == byKey.Keys
  {
    DistinctSize(order);
    forall key ensures key in order <==> key in KeysOf(anomalies) {
      DetectedIff(anomalies, key);
    }
    assert KeysOf(anomalies) == Members(order);
  }

  lemma {:induction false} KeysAreOwn(anomalies: seq<Anomaly>, byKey: map<Key, Anomaly>)
    requires forall key :: Detected(anomalies, key) == if key in byKey then Some(byKey[key]) else None
    ensures forall key | key in byKey :: byKey[key].key == key
  {
    forall key | key in byKey ensures byKey[key].key == key {
      assert Detected(anomalies, key) == Some(byKey[key]);
      DetectedMember(anomalies, key);
    }
  }

  // ---------------------------------------------------- any number of runs

  // The records and notifications of one key after some runs from an empty table.
  datatype Trace = Trace(record: Option<Record>, notes: seq<Notification>)

  function TraceStep(cooldown: int, run: Run, key: Key, before: Trace): Trace {
    if run.trading && key.date == run.date then
      var step := Step(cooldown, before.record, Detected(run.detected, key), key, run.now);
      Trace(step.record, before.notes + step.notes)
    else before
  }

  function TraceOf(cooldown: int, runs: seq<Run>, key: Key): Trace {
    if runs == [] then Trace(None, [])
    else TraceStep(cooldown, runs[|runs| - 1], key, TraceOf(cooldown, runs[..|runs| - 1], key))
  }

  // The tables after each run of a history, and what each run notified.
  ghost predicate IsHistory(cooldown: int, runs: seq<Run>, tables: seq<Records>, sent: seq<seq<Notification>>) {
    && |tables| == |runs| + 1 && |sent| == |runs|
    && tables[0] == map[]
    && forall i | 0 <= i < |runs| :: IsRun(cooldown, tables[i], runs[i], tables[i + 1], sent[i])
  }

  function Flatten(sent: seq<seq<Notification>>): seq<Notification> {
    if sent == [] then [] else Flatten(sent[..|sent| - 1]) + sent[|sent| - 1]
  }

  lemma {:induction false} NotesConcat(a: seq<Notification>, b: seq<Notification>, key: Key)
    ensures NotesOf(a + b, key) == NotesOf(a, key) + NotesOf(b, key)
    decreases |b|
  {
    if b == [] {
      assert a + b == a;
    } else {
      assert a + b == (a + b[..|b| - 1]) + [b[|b| - 1]];
      NotesGrow(a + b[..|b| - 1], b[|b| - 1], key);
      NotesConcat(a, b[..|b| - 1], key);
    }
  }

  // Whatever the order within each run, a history shows for each key its own trace.
  lemma {:induction false} HistoryIsTrace(
      cooldown: int, runs: seq<Run>, tables: seq<Records>, sent: seq<seq<Notification>>, key: Key)
    requires IsHistory(cooldown, runs, tables, sent)
    ensures Lookup(tables[|runs|], key) == TraceOf(cooldown, runs, key).record
    ensures NotesOf(Flatten(sent), key) == TraceOf(cooldown, runs, key).notes
    decreases |runs|
  {
    if runs != [] {
      var n := |runs| - 1;
      assert IsHistory(cooldown, runs[..n], tables[..n + 1], sent[..n]) by {
        forall i | 0 <= i < n
          ensures IsRun(cooldown, tables[..n + 1][i], runs[..n][i], tables[..n + 1][i + 1], sent[..n][i])
        {
          assert IsRun(cooldown, tables[i], runs[i], tables[i + 1], sent[i]);
        }
      }
      HistoryIsTrace(cooldown, runs[..n], tables[..n + 1], sent[..n], key);
      assert IsRun(cooldown, tables[n], runs[n], tables[n + 1], sent[n]);
      assert Lookup(tables[n + 1], key) == StepFor(cooldown, tables[n], runs[n], key).record;
      NotesConcat(Flatten(sent[..n]), sent[n], key);
    }
  }

  ghost predicate ClockRuns(runs: seq<Run>) {
    forall i, j | 0 <= i < j < |runs| :: runs[i].now <= runs[j].now
  }

  // (alert+ resolution)* alert*: a resolution only ever follows an alert.
  ghost predicate Grammar(notes: seq<Notification>) {
    forall i | 0 <= i < |notes| :: notes[i].isResolution ==> i > 0 && !notes[i - 1].isResolution
  }

  // Two neighbours that are alerts are a cooldown apart, or the second is more severe.
  predicate Apart(cooldown: int, a: Notification, b: Notification) {
    a.isResolution || b.isResolution || b.at - a.at >= cooldown || Rank(b.severity) > Rank(a.severity)
  }

  // Successive alerts of one episode are a cooldown apart or rise in severity.
  ghost predicate Spaced(cooldown: int, notes: seq<Notification>) {
    forall i | 0 < i < |notes| :: Apart(cooldown, notes[i - 1], notes[i])
  }

  ghost predicate InOrder(notes: seq<Notification>) {
    forall i, j | 0 <= i < j < |notes| :: notes[i].at <= notes[j].at
  }

  // The last alert of a list of notifications.
  function LastAlert(notes: seq<Notification>): Option<Notification> {
    if notes == [] then None
    else if !notes[|notes| - 1].isResolution then Some(notes[|notes| - 1])
    else LastAlert(notes[..|notes| - 1])
  }

  // A record is ACTIVE exactly when its last notification is an alert, and it carries the
  // severity and the time of the last alert sent.
  ghost predicate Mirrors(trace: Trace) {
    match trace.record
    case None => trace.notes == []
    case Some(r) =>
      && trace.notes != []
      && !r.status.Suppressed?
      && (r.status.Active? <==> !trace.notes[|trace.notes| - 1].isResolution)
      && LastAlert(trace.notes).Some?
      && r.severity == LastAlert(trace.notes).value.severity
      && r.lastNotified == Some(LastAlert(trace.notes).value.at)
  }

  ghost predicate Episodic(cooldown: int, trace: Trace) {
    Grammar(trace.notes) && Spaced(cooldown, trace.notes) && Mirrors(trace)
  }

  lemma {:induction false} AppendNote(cooldown: int, notes: seq<Notification>, note: Notification)
    requires Grammar(notes) && Spaced(cooldown, notes)
    requires note.isResolution ==> notes != [] && !notes[|notes| - 1].isResolution
    requires notes != [] ==> Apart(cooldown, notes[|notes| - 1], note)
    ensures Grammar(notes + [note]) && Spaced(cooldown, notes + [note])
    ensures LastAlert(notes + [note]) == if note.isResolution then LastAlert(notes) else Some(note)
  {
    var longer := notes + [note];
    assert longer[..|notes|] == notes;
    forall i | 0 < i < |longer|
      ensures Apart(cooldown, longer[i - 1], longer[i])
    {
      assert i < |notes| ==> Apart(cooldown, notes[i - 1], notes[i]);
    }
  }

  // While the record is active its last notification is the last alert.
  lemma {:induction false} ActiveLastAlert(trace: Trace)
    requires Mirrors(trace) && trace.record.Some? && trace.record.value.status.Active?
    ensures LastAlert(trace.notes) == Some(trace.notes[|trace.notes| - 1])
  {
  }

  // The one notification of a step fits the notifications before it.
  lemma {:induction false} StepNoteFits(cooldown: int, before: Trace, detected: Option<Anomaly>, key: Key, now: int)
    requires Episodic(cooldown, before)
    ensures var step := Step(cooldown, before.record, detected, key, now);
            && |step.notes| <= 1
            && (step.notes != [] && before.notes != []
               ==> Apart(cooldown, before.notes[|before.notes| - 1], step.notes[0]))
            && (step.notes != [] && step.notes[0].isResolution
               ==> before.notes != [] && !before.notes[|before.notes| - 1].isResolution)
  {
    if before.record.Some? && before.record.value.status.Active? {
      ActiveLastAlert(before);
    }
  }

  lemma {:induction false} StepMirrors(
      cooldown: int, before: Trace, detected: Option<Anomaly>, key: Key, now: int, notes: seq<Notification>)
    requires Mirrors(before)
    requires var step := Step(cooldown, before.record, detected, key, now);
             if step.notes == [] then notes == before.notes
             else
               && |notes| == |before.notes| + 1 && notes[|before.notes|] == step.notes[0]
               && LastAlert(notes) == if step.notes[0].isResolution then LastAlert(before.notes)
                  else Some(step.notes[0])
    ensures Mirrors(Trace(Step(cooldown, before.record, detected, key, now).record, notes))
  {
  }

  lemma {:induction false} TraceStepEpisodic(cooldown: int, run: Run, key: Key, before: Trace)
    requires Episodic(cooldown, before)
    ensures Episodic(cooldown, TraceStep(cooldown, run, key, before))
  {
    if run.trading && key.date == run.date {
      StepEpisodic(cooldown, before, Detected(run.detected, key), key, run.now);
    }
  }

  lemma {:induction false} StepEpisodic(cooldown: int, before: Trace, detected: Option<Anomaly>, key: Key, now: int)
    requires Episodic(cooldown, before)
    ensures var step := Step(cooldown, before.record, detected, key, now);
            Episodic(cooldown, Trace(step.record, before.notes + step.notes))
  {
    var sent := Step(cooldown, before.record, detected, key, now).notes;
    StepNoteFits(cooldown, before, detected, key, now);
    if sent == [] {
      assert before.notes + sent == before.notes;
    } else {
      assert sent == [sent[0]];
      AppendNote(cooldown, before.notes, sent[0]);
    }
    StepMirrors(cooldown, before, detected, key, now, before.notes + sent);
  }

  // Episode grammar over any sequence of runs.
  lemma {:induction false} TracesAreEpisodic(cooldown: int, runs: seq<Run>, key: Key)
    ensures Episodic(cooldown, TraceOf(cooldown, runs, key))
    decreases |runs|
  {
    if runs != [] {
      TracesAreEpisodic(cooldown, runs[..|runs| - 1], key);
      TraceStepEpisodic(cooldown, runs[|runs| - 1], key, TraceOf(cooldown, runs[..|runs| - 1], key));
    }
  }

  lemma {:induction false} TraceInOrder(cooldown: int, runs: seq<Run>, key: Key)
    requires ClockRuns(runs)
    ensures var notes := TraceOf(cooldown, runs, key).notes;
            InOrder(notes) && forall i | 0 <= i < |notes| :: exists k :: 0 <= k < |runs| && notes[i].at == runs[k].now
    decreases |runs|
  {
    if runs != [] {
      var n := |runs| - 1;
      TraceInOrder(cooldown, runs[..n], key);
      var before := TraceOf(cooldown, runs[..n], key).notes;
      var notes := TraceOf(cooldown, runs, key).notes;
      forall i | 0 <= i < |notes|
        ensures exists k :: 0 <= k < |runs| && notes[i].at == runs[k].now
      {
        if i < |before| {
          var k :| 0 <= k < |runs[..n]| && before[i].at == runs[..n][k].now;
          assert notes[i].at == runs[k].now;
        } else {
          assert notes[i].at == runs[n].now;
        }
      }
    }
  }

  lemma {:induction false} RanksRise(cooldown: int, notes: seq<Notification>, i: nat, j: nat)
    requires Spaced(cooldown, notes) && InOrder(notes)
    requires i <= j < |notes| && forall k | i <= k <= j :: !notes[k].isResolution
    requires notes[j].at - notes[i].at < cooldown
    ensures Rank(notes[j].severity) >= Rank(notes[i].severity) + (j - i)
    decreases j
  {
    if i < j {
      assert notes[i].at <= notes[j - 1].at || i == j - 1;
      assert notes[j - 1].at <= notes[j].at && Apart(cooldown, notes[j - 1], notes[j]);
      RanksRise(cooldown, notes, i, j - 1);
    }
  }

  // The notification bound: over any runs with a clock that never goes back, at most four
  // alerts of one episode fall within a span shorter than the cooldown.
  lemma {:induction false} AtMostFourAlerts(cooldown: int, runs: seq<Run>, key: Key, i: nat, j: nat)
    requires ClockRuns(runs)
    requires var notes := TraceOf(cooldown, runs, key).notes;
             i <= j < |notes| && (forall k | i <= k <= j :: !notes[k].isResolution)
               && notes[j].at - notes[i].at < cooldown
    ensures j - i + 1 <= 4
  {
    TracesAreEpisodic(cooldown, runs, key);
    TraceInOrder(cooldown, runs, key);
    RanksRise(cooldown, TraceOf(cooldown, runs, key).notes, i, j);
  }

  // How many of the runs detected the key.
  function Detections(runs: seq<Run>, key: Key): nat {
    if runs == [] then 0
    else
      var last := runs[|runs| - 1];
      Detections(runs[..|runs| - 1], key)
      + (if last.trading && key.date == last.date && Detected(last.detected, key).Some? then 1 else 0)
  }

  // Bookkeeping: there is a record once some run detected the key, it counts those runs,
  // and after a run of the key's date it is ACTIVE exactly when that run detected the key.
  lemma {:induction false} RecordsKeepBooks(cooldown: int, runs: seq<Run>, key: Key)
    ensures var record := TraceOf(cooldown, runs, key).record;
            && (record.Some? <==> Detections(runs, key) > 0)
            && (record.Some? ==> record.value.occurrences == Detections(runs, key))
            && (runs != [] && runs[|runs| - 1].trading && runs[|runs| - 1].date == key.date ==>
                  (Detected(runs[|runs| - 1].detected, key).Some? <==> record.Some? && record.value.status.Active?))
    decreases |runs|
  {
    if runs != [] {
      var before := runs[..|runs| - 1];
      RecordsKeepBooks(cooldown, before, key);
      TracesAreEpisodic(cooldown, before, key);
    }
  }

  // Nothing goes unreported: after a run of the key's date that detects it, the last
  // notification is an alert at least as severe as the anomaly, sent by this run or less
  // than a cooldown ago; after one that does not, it is a resolution, if there is any.
  lemma {:induction false} DetectedIsAlerted(cooldown: int, runs: seq<Run>, key: Key)
    requires runs != [] && runs[|runs| - 1].trading && runs[|runs| - 1].date == key.date
    ensures var run, notes := runs[|runs| - 1], TraceOf(cooldown, runs, key).notes;
            match Detected(run.detected, key)
            case None => notes == [] || notes[|notes| - 1].isResolution
            case Some(anomaly) =>
              && notes != [] && !notes[|notes| - 1].isResolution
              && Rank(notes[|notes| - 1].severity) >= Rank(anomaly.severity)
              && (notes[|notes| - 1].at == run.now || run.now - notes[|notes| - 1].at < cooldown)
  {
    var before := TraceOf(cooldown, runs[..|runs| - 1], key);
    TracesAreEpisodic(cooldown, runs[..|runs| - 1], key);
    TracesAreEpisodic(cooldown, runs, key);
    if before.record.Some? && before.record.value.status.Active? {
      ActiveLastAlert(before);
    }
  }

  ghost predicate AlertedAt(trace: Trace, severity: Severity, count: nat, now: int) {
    && trace.record.Some? && trace.record.value.status.Active? && trace.record.value.severity == severity
    && |trace.notes| == count
    && forall k | 0 <= k < count :: !trace.notes[k].isResolution && trace.notes[k].at == now
  }

  function Only(key: Key, severity: Severity, now: int): Run {
    Run(key.date, true, [Anomaly(key, severity, "")], now)
  }

  lemma {:induction false} Escalates(cooldown: int, runs: seq<Run>, key: Key, severity: Severity, now: int)
    requires var trace := TraceOf(cooldown, runs, key);
             if runs == [] then severity.Info? && trace == Trace(None, [])
             else trace.record.Some? && AlertedAt(trace, trace.record.value.severity, |runs|, now)
                  && Rank(severity) > Rank(trace.record.value.severity)
    ensures AlertedAt(TraceOf(cooldown, runs + [Only(key, severity, now)], key), severity, |runs| + 1, now)
  {
    var run := Only(key, severity, now);
    TraceGrows(cooldown, runs, run, key);
    assert Detected(run.detected, key) == Some(Anomaly(key, severity, ""));
  }

  // The bound is tight: a key that escalates from INFO to CRITICAL alerts four times at once.
  lemma {:induction false} FourAlertsReached(cooldown: int, key: Key, now: int) returns (runs: seq<Run>)
    ensures ClockRuns(runs) && AlertedAt(TraceOf(cooldown, runs, key), Critical, 4, now)
  {
    runs := [];
    Escalates(cooldown, runs, key, Info, now);
    runs := runs + [Only(key, Info, now)];
    Escalates(cooldown, runs, key, Warning, now);
    runs := runs + [Only(key, Warning, now)];
    Escalates(cooldown, runs, key, Error, now);
    runs := runs + [Only(key, Error, now)];
    Escalates(cooldown, runs, key, Critical, now);
    runs := runs + [Only(key, Critical, now)];
  }

  lemma {:induction false} TraceGrows(cooldown: int, runs: seq<Run>, run: Run, key: Key)
    ensures TraceOf(cooldown, runs + [run], key) == TraceStep(cooldown, run, key, TraceOf(cooldown, runs, key))
  {
    assert (runs + [run])[..|runs|] == runs;
  }
}
