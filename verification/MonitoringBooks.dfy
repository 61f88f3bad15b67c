// What notifications and records say: the severity, count and time of each notification, and
// the dates and message of a record, traced to the runs that detected the anomaly.
module MonitoringBooks {
  import opened Wrappers
  import opened Monitoring

  // A run looks at the keys of its date on a trading day.
  predicate On(run: Run, key: Key) {
    run.trading && run.date == key.date
  }

  // The run at this position lists an anomaly of the key.
  predicate DetectsAt(runs: seq<Run>, key: Key, k: int) {
    && 0 <= k < |runs| && On(runs[k], key)
    && exists i :: 0 <= i < |runs[k].detected| && runs[k].detected[i].key == key
  }

  function DetectingRuns(runs: seq<Run>, key: Key, n: int): set<int> {
    set k | 0 <= k < n && DetectsAt(runs, key, k)
  }

  lemma {:induction false} DetectsIff(runs: seq<Run>, key: Key, k: int)
    requires 0 <= k < |runs|
    ensures DetectsAt(runs, key, k) <==> On(runs[k], key) && Detected(runs[k].detected, key).Some?
  {
    DetectedIsLatest(runs[k].detected, key);
  }

  lemma {:induction false} PrefixDetects(runs: seq<Run>, key: Key, m: nat, k: int)
    requires m <= |runs| && k < m
    ensures DetectsAt(runs[..m], key, k) <==> DetectsAt(runs, key, k)
  {
  }

  lemma {:induction false} DetectingPrefix(runs: seq<Run>, key: Key, m: nat, n: int)
    requires n <= m <= |runs|
    ensures DetectingRuns(runs[..m], key, n) == DetectingRuns(runs, key, n)
  {
    forall k | 0 <= k < n ensures DetectsAt(runs[..m], key, k) <==> DetectsAt(runs, key, k) {
      PrefixDetects(runs, key, m, k);
    }
  }

  lemma {:induction false} OneRunMore(runs: seq<Run>, key: Key, n: nat)
    ensures |DetectingRuns(runs, key, n + 1)| == |DetectingRuns(runs, key, n)|
            + if DetectsAt(runs, key, n) then 1 else 0
  {
    assert DetectingRuns(runs, key, n + 1)
           == DetectingRuns(runs, key, n) + if DetectsAt(runs, key, n) then {n} else {};
  }

  lemma {:induction false} DetectionsCount(runs: seq<Run>, key: Key)
    ensures Detections(runs, key) == |DetectingRuns(runs, key, |runs|)|
  {
    if runs == [] {
      assert DetectingRuns(runs, key, 0) == {};
    } else {
      var last := |runs| - 1;
      DetectionsCount(runs[..last], key);
      DetectingPrefix(runs, key, last, last);
      DetectsIff(runs, key, last);
      OneRunMore(runs, key, last);
    }
  }

  // ---------------------------------------------------------- notifications

  // The run that sent a notification: a resolution is an INFO of a run that does not list the
  // key and carries the number of runs that had; an alert has the severity of the anomaly its
  // run lists and the number of runs that have, this one included.
  ghost predicate SentBy(runs: seq<Run>, key: Key, note: Notification, k: int) {
    && 0 <= k < |runs| && On(runs[k], key)
    && note.key == key && note.at == runs[k].now
    && if note.isResolution then
         && !DetectsAt(runs, key, k)
         && note.severity == Info
         && note.occurrences == |DetectingRuns(runs, key, k)|
       else
         && note.occurrences == |DetectingRuns(runs, key, k + 1)|
         && exists a :: Latest(runs[k].detected, key, a) && note.severity == a.severity
  }

  ghost predicate Senders(runs: seq<Run>, key: Key, notes: seq<Notification>, senders: seq<int>) {
    && |senders| == |notes|
    && (forall i, j | 0 <= i < j < |senders| :: senders[i] < senders[j])
    && forall i | 0 <= i < |notes| :: SentBy(runs, key, notes[i], senders[i])
  }

  lemma {:induction false} SentByPrefix(runs: seq<Run>, key: Key, m: nat, note: Notification, k: int)
    requires m <= |runs| && SentBy(runs[..m], key, note, k)
    ensures SentBy(runs, key, note, k)
  {
    PrefixDetects(runs, key, m, k);
    DetectingPrefix(runs, key, m, k);
    DetectingPrefix(runs, key, m, k + 1);
  }

  // What the one notification of a step says.
  lemma {:induction false} StepNote(
      cooldown: int, record: Option<Record>, detected: Option<Anomaly>, key: Key, now: int)
    ensures var notes := Step(cooldown, record, detected, key, now).notes;
            && |notes| <= 1
            && (notes != [] ==>
                  && notes[0].key == key && notes[0].at == now
                  && (notes[0].isResolution <==> detected.None?)
                  && notes[0].severity == (if detected.Some? then detected.value.severity else Info)
                  && notes[0].occurrences == (if record.Some? then record.value.occurrences else 0)
                                             + if detected.Some? then 1 else 0)
  {
  }

  lemma {:induction false} LastRunSends(cooldown: int, runs: seq<Run>, key: Key)
    requires runs != []
    ensures var before := TraceOf(cooldown, runs[..|runs| - 1], key);
            var after := TraceOf(cooldown, runs, key);
            || after.notes == before.notes
            || exists note :: after.notes == before.notes + [note] && SentBy(runs, key, note, |runs| - 1)
  {
    var last := |runs| - 1;
    var run, before := runs[last], TraceOf(cooldown, runs[..last], key);
    if On(run, key) {
      var detected := Detected(run.detected, key);
      var notes := Step(cooldown, before.record, detected, key, run.now).notes;
      StepNote(cooldown, before.record, detected, key, run.now);
      if notes == [] {
        assert before.notes + notes == before.notes;
      } else {
        assert notes == [notes[0]];
        SaysWhatIsSeen(cooldown, runs, key, notes[0]);
      }
    }
  }

  lemma {:induction false} SaysWhatIsSeen(cooldown: int, runs: seq<Run>, key: Key, note: Notification)
    requires runs != [] && On(runs[|runs| - 1], key) && note.key == key && note.at == runs[|runs| - 1].now
    requires var record := TraceOf(cooldown, runs[..|runs| - 1], key).record;
             var detected := Detected(runs[|runs| - 1].detected, key);
             && (note.isResolution <==> detected.None?)
             && note.severity == (if detected.Some? then detected.value.severity else Info)
             && note.occurrences == (if record.Some? then record.value.occurrences else 0)
                                    + if detected.Some? then 1 else 0
    ensures SentBy(runs, key, note, |runs| - 1)
  {
    var last := |runs| - 1;
    RecordsKeepBooks(cooldown, runs[..last], key);
    DetectionsCount(runs[..last], key);
    DetectingPrefix(runs, key, last, last);
    DetectsIff(runs, key, last);
    DetectedIsLatest(runs[last].detected, key);
    OneRunMore(runs, key, last);
  }

  // Over any runs every notification comes from one run, in the order of the runs, and says
  // what that run saw.
  lemma {:induction false} NotesAreSent(cooldown: int, runs: seq<Run>, key: Key) returns (senders: seq<int>)
    ensures Senders(runs, key, TraceOf(cooldown, runs, key).notes, senders)
  {
    if runs == [] {
      senders := [];
    } else {
      var last := |runs| - 1;
      var earlier := NotesAreSent(cooldown, runs[..last], key);
      var before, after := TraceOf(cooldown, runs[..last], key).notes, TraceOf(cooldown, runs, key).notes;
      forall i | 0 <= i < |before| ensures SentBy(runs, key, before[i], earlier[i]) && earlier[i] < last {
        SentByPrefix(runs, key, last, before[i], earlier[i]);
      }
      LastRunSends(cooldown, runs, key);
      senders := if after == before then earlier else earlier + [last];
    }
  }

  // ---------------------------------------------------------------- records

  // The first and the last run that list the key.
  ghost predicate Spans(runs: seq<Run>, key: Key, first: int, last: int) {
    && DetectsAt(runs, key, first) && DetectsAt(runs, key, last)
    && forall k | DetectsAt(runs, key, k) :: first <= k <= last
  }

  // The first run after `last` that looks at the key.
  predicate ResolvesAt(runs: seq<Run>, key: Key, last: int, k: int) {
    && 0 <= last < k < |runs| && On(runs[k], key)
    && forall j | last < j < k :: !On(runs[j], key)
  }

  // A record is dated by those runs, has the message of the last of them, and is RESOLVED at
  // the time of the next run that looks at the key, if there is one.
  ghost predicate Dated(runs: seq<Run>, key: Key, record: Record, first: int, last: int) {
    && Spans(runs, key, first, last)
    && record.firstSeen == runs[first].now && record.lastSeen == runs[last].now
    && (exists a :: Latest(runs[last].detected, key, a) && record.message == a.message)
    && (record.status.Resolved? <==> exists k :: ResolvesAt(runs, key, last, k))
    && (record.resolvedAt.Some? <==> record.status.Resolved?)
    && forall k | ResolvesAt(runs, key, last, k) :: record.resolvedAt == Some(runs[k].now)
  }

  // What a step does to a record that is there.
  lemma {:induction false} StepDates(cooldown: int, r: Record, detected: Option<Anomaly>, key: Key, now: int)
    requires !r.status.Suppressed?
    ensures var after := Step(cooldown, Some(r), detected, key, now).record;
            && after.Some? && after.value.firstSeen == r.firstSeen
            && (detected.Some? ==>
                  && after.value.lastSeen == now && after.value.message == detected.value.message
                  && after.value.status.Active? && (r.status.Resolved? ==> after.value.resolvedAt.None?)
                  && (r.status.Active? ==> after.value.resolvedAt == r.resolvedAt))
            && (detected.None? ==>
                  && after.value.lastSeen == r.lastSeen && after.value.message == r.message
                  && after.value.status.Resolved?
                  && after.value.resolvedAt == if r.status.Active? then Some(now) else r.resolvedAt)
  {
  }

  lemma {:induction false} RecordIsDated(cooldown: int, runs: seq<Run>, key: Key) returns (first: int, last: int)
    requires TraceOf(cooldown, runs, key).record.Some?
    ensures Dated(runs, key, TraceOf(cooldown, runs, key).record.value, first, last)
  {
    var n := |runs| - 1;
    var before := TraceOf(cooldown, runs[..n], key);
    TracesAreEpisodic(cooldown, runs[..n], key);
    DetectsIff(runs, key, n);
    if before.record.None? {
      first, last := n, n;
      FirstDetection(cooldown, runs, key);
    } else {
      first, last := RecordIsDated(cooldown, runs[..n], key);
      if On(runs[n], key) {
        StepDates(cooldown, before.record.value, Detected(runs[n].detected, key), key, runs[n].now);
      }
      if DetectsAt(runs, key, n) {
        DetectedAgain(runs, key, before.record.value, TraceOf(cooldown, runs, key).record.value, first, last);
        last := n;
      } else {
        NotDetected(runs, key, before.record.value, TraceOf(cooldown, runs, key).record.value, first, last);
      }
    }
  }

  lemma {:induction false} FirstDetection(cooldown: int, runs: seq<Run>, key: Key)
    requires runs != [] && TraceOf(cooldown, runs[..|runs| - 1], key).record.None?
    requires TraceOf(cooldown, runs, key).record.Some?
    ensures Dated(runs, key, TraceOf(cooldown, runs, key).record.value, |runs| - 1, |runs| - 1)
  {
    var n := |runs| - 1;
    RecordsKeepBooks(cooldown, runs[..n], key);
    DetectionsCount(runs[..n], key);
    DetectsIff(runs, key, n);
    DetectedIsLatest(runs[n].detected, key);
    assert DetectingRuns(runs[..n], key, n) == {};
    DetectingPrefix(runs, key, n, n);
    forall k | DetectsAt(runs, key, k) ensures k == n {
      assert k < n ==> k in DetectingRuns(runs, key, n);
    }
  }

  lemma {:induction false} SpansMore(runs: seq<Run>, key: Key, first: int, last: int)
    requires runs != [] && Spans(runs[..|runs| - 1], key, first, last)
    ensures Spans(runs, key, first, if DetectsAt(runs, key, |runs| - 1) then |runs| - 1 else last)
  {
    var n := |runs| - 1;
    PrefixDetects(runs, key, n, first);
    PrefixDetects(runs, key, n, last);
    forall k | DetectsAt(runs, key, k) ensures first <= k && (k < n ==> k <= last) {
      if k < n {
        PrefixDetects(runs, key, n, k);
      }
    }
  }

  lemma {:induction false} DetectedAgain(runs: seq<Run>, key: Key, r: Record, after: Record, first: int, last: int)
    requires runs != [] && Dated(runs[..|runs| - 1], key, r, first, last) && DetectsAt(runs, key, |runs| - 1)
    requires after.firstSeen == r.firstSeen && after.lastSeen == runs[|runs| - 1].now
    requires Detected(runs[|runs| - 1].detected, key).Some?
    requires after.message == Detected(runs[|runs| - 1].detected, key).value.message
    requires after.status.Active? && after.resolvedAt.None?
    ensures Dated(runs, key, after, first, |runs| - 1)
  {
    DetectedIsLatest(runs[|runs| - 1].detected, key);
    SpansMore(runs, key, first, last);
  }

  lemma {:induction false} NotDetected(runs: seq<Run>, key: Key, r: Record, after: Record, first: int, last: int)
    requires runs != [] && Dated(runs[..|runs| - 1], key, r, first, last) && !DetectsAt(runs, key, |runs| - 1)
    requires !r.status.Suppressed?
    requires if On(runs[|runs| - 1], key) then
               && after.firstSeen == r.firstSeen && after.lastSeen == r.lastSeen && after.message == r.message
               && after.status.Resolved?
               && after.resolvedAt == if r.status.Active? then Some(runs[|runs| - 1].now) else r.resolvedAt
             else after == r
    ensures Dated(runs, key, after, first, last)
  {
    SpansMore(runs, key, first, last);
    ResolvesLater(runs, key, last);
  }

  // One more run that does not list the key resolves it unless an earlier one did.
  lemma {:induction false} ResolvesLater(runs: seq<Run>, key: Key, last: int)
    requires 0 <= last < |runs| - 1
    ensures var n := |runs| - 1;
            && (forall k | k < n :: ResolvesAt(runs[..n], key, last, k) <==> ResolvesAt(runs, key, last, k))
            && (ResolvesAt(runs, key, last, n) <==>
                  On(runs[n], key) && forall k :: !ResolvesAt(runs[..n], key, last, k))
  {
    var n := |runs| - 1;
    if On(runs[n], key) && !ResolvesAt(runs, key, last, n) {
      var j := FirstOn(runs, key, last, n);
      assert ResolvesAt(runs[..n], key, last, j);
    }
    if k :| ResolvesAt(runs[..n], key, last, k) {
      assert On(runs[k], key);
    }
  }

  lemma {:induction false} FirstOn(runs: seq<Run>, key: Key, last: int, n: int) returns (j: int)
    requires 0 <= last < n <= |runs| && exists k :: last < k < n && On(runs[k], key)
    ensures last < j < n && ResolvesAt(runs, key, last, j)
    decreases n
  {
    var k :| last < k < n && On(runs[k], key);
    if ResolvesAt(runs, key, last, k) {
      j := k;
    } else {
      j := FirstOn(runs, key, last, k);
    }
  }
}
