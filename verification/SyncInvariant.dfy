// What every step of the protocol keeps, in every state reachable by pushes of any devices.
module SyncInvariant {
  import opened Wrappers
  import opened SyncModel
  import opened SyncEffects

  // The logged changes of one entity, oldest first.
  function History(log: seq<Change>, ref: Ref): seq<Change> {
    if log == [] then []
    else
      var last := log[|log| - 1];
      History(log[..|log| - 1], ref) + (if last.ref == ref then [last] else [])
  }

  // Sequence numbers grow along the log, with gaps where a batch was rolled back.
  ghost predicate Ordered(s: Server) {
    && s.nextSequence >= 1
    && (forall i | 0 <= i < |s.log| :: 1 <= s.log[i].sequence < s.nextSequence)
    && (forall i, j | 0 <= i < j < |s.log| :: s.log[i].sequence < s.log[j].sequence)
  }

  // The logged versions are exactly 1, 2, ..., row.version, all by the row's owner.
  ghost predicate Gapless(history: seq<Change>, row: Row) {
    && |history| == row.version
    && (forall i | 0 <= i < |history| :: history[i].version == i + 1 && history[i].user == row.owner)
  }

  // The history of one entity matches its row, or is empty.
  ghost predicate VersionedAt(s: Server, ref: Ref) {
    if ref in s.rows then Gapless(History(s.log, ref), s.rows[ref]) else History(s.log, ref) == []
  }

  ghost predicate Versioned(s: Server) {
    forall ref :: VersionedAt(s, ref)
  }

  // A change is a DELETE exactly when its payload is a tombstone.
  ghost predicate Labelled(log: seq<Change>) {
    forall i | 0 <= i < |log| :: log[i].operation.Delete? <==> log[i].payload.deletedAt.Some?
  }

  ghost predicate Owned(s: Server) {
    forall ref | ref in s.rows :: ParentsOwned(s.rows, ref, s.rows[ref])
  }

  ghost predicate Unique(s: Server) {
    forall ref | ref in s.rows :: NoClash(s.rows, ref, s.rows[ref])
  }

  // Rows are of a known kind and hold every column in the form in which it reads back.
  ghost predicate Stored(s: Server) {
    forall ref | ref in s.rows ::
      !ref.kind.UnknownEntity? && (Lawful(s.schema) ==> InForm(s.schema, ref.kind, s.rows[ref].fields))
  }

  ghost predicate WellFormed(s: Server) {
    Ordered(s) && Versioned(s) && Labelled(s.log) && Owned(s) && Unique(s) && Stored(s)
  }

  lemma {:induction false} HistoryGrows(log: seq<Change>, change: Change, ref: Ref)
    ensures History(log + [change], ref) == History(log, ref) + (if change.ref == ref then [change] else [])
  {
    assert (log + [change])[..|log|] == log;
  }

  lemma {:induction false} VersionedStepAt(s: Server, e: Effect, ref: Ref)
    requires VersionedAt(s, ref) && Legal(s, e)
    ensures VersionedAt(Perform(s, e), ref)
  {
    if e.Write? {
      HistoryGrows(s.log, ChangeOf(s, e), ref);
    }
  }

  lemma {:induction false} VersionedStep(s: Server, e: Effect)
    requires Versioned(s) && Legal(s, e)
    ensures Versioned(Perform(s, e))
  {
    forall ref ensures VersionedAt(Perform(s, e), ref) {
      assert VersionedAt(s, ref);
      VersionedStepAt(s, e, ref);
    }
  }

  lemma {:induction false} OwnedStep(s: Server, e: Effect)
    requires Owned(s) && Legal(s, e)
    ensures Owned(Perform(s, e))
  {
    var t := Perform(s, e);
    forall ref | ref in t.rows
      ensures ParentsOwned(t.rows, ref, t.rows[ref])
    {
      if ref in s.rows {
        assert ParentsOwned(s.rows, ref, s.rows[ref]);
      }
    }
  }

  lemma {:induction false} UniqueStep(s: Server, e: Effect)
    requires Unique(s) && Legal(s, e)
    ensures Unique(Perform(s, e))
  {
    var t := Perform(s, e);
    forall ref | ref in t.rows
      ensures NoClash(t.rows, ref, t.rows[ref])
    {
      forall other | other in t.rows
        ensures !Clash(ref, t.rows[ref], other, t.rows[other])
      {
        if ref in s.rows && other in s.rows {
          assert NoClash(s.rows, ref, s.rows[ref]) && !Clash(ref, s.rows[ref], other, s.rows[other]);
        }
        if other in s.rows && ref != other {
          assert NoClash(s.rows, ref, t.rows[ref]) ==> !Clash(ref, t.rows[ref], other, s.rows[other]);
        }
        if ref in s.rows && ref != other {
          assert NoClash(s.rows, other, t.rows[other]) ==> !Clash(other, t.rows[other], ref, s.rows[ref]);
        }
      }
    }
  }

  lemma {:induction false} StoredStep(s: Server, e: Effect)
    requires Stored(s) && Legal(s, e)
    ensures Stored(Perform(s, e))
  {
    match e
    case Write(_, ref, row, _, _, _) =>
      if ref !in s.rows {
        assert InForm(s.schema, ref.kind, FieldsOf(s.rows, ref));
      }
    case Smear(_, ref, key) =>
      if Lawful(s.schema) {
        SmearedInForm(s.schema, ref.kind, s.rows[ref], key);
      }
    case _ =>
  }

  lemma {:induction false} SmearedInForm(schema: Schema, kind: EntityType, row: Row, key: Value)
    requires InForm(schema, kind, row.fields)
    ensures InForm(schema, kind, Smeared(row, key).fields)
  {
    var after := Smeared(row, key).fields;
    forall k | k in after ensures StoredAs(schema, kind, k, after[k]) == after[k] {
      if k != "key" {
        assert Settled(schema, kind, row.fields)[k] == row.fields[k];
      }
    }
  }

  lemma {:induction false} OrderedStep(s: Server, e: Effect)
    requires Ordered(s) && Legal(s, e)
    ensures Ordered(Perform(s, e))
  {
  }

  lemma {:induction false} LabelledStep(s: Server, e: Effect)
    requires Labelled(s.log) && Legal(s, e)
    ensures Labelled(Perform(s, e).log)
  {
  }

  lemma {:induction false} WellFormedStep(s: Server, e: Effect)
    requires WellFormed(s) && Legal(s, e)
    ensures WellFormed(Perform(s, e))
  {
    OrderedStep(s, e);
    LabelledStep(s, e);
    VersionedStep(s, e);
    OwnedStep(s, e);
    UniqueStep(s, e);
    StoredStep(s, e);
  }

  lemma {:induction false} WellFormedSteps(s: Server, es: seq<Effect>)
    requires WellFormed(s) && AllLegal(s, es)
    ensures WellFormed(PerformAll(s, es))
    decreases |es|
  {
    if es != [] {
      WellFormedStep(s, es[0]);
      WellFormedSteps(Perform(s, es[0]), es[1..]);
    }
  }

  // Main invariant: it holds after any requests, from any state in which it holds.
  lemma {:induction false} RunKeepsWellFormed(s: Server, requests: seq<Request>)
    requires WellFormed(s)
    ensures WellFormed(Run(s, requests))
  {
    var es := RunEffects(s, requests);
    WellFormedSteps(s, es);
  }

  lemma {:induction false} ReachableWellFormed(schema: Schema, requests: seq<Request>)
    ensures WellFormed(Run(EmptyServer(schema), requests))
  {
    RunKeepsWellFormed(EmptyServer(schema), requests);
  }

  // ------------------------------------------------- finality and isolation

  // Once created, a row keeps its owner and its parents, its version never falls, and a
  // tombstone is never lifted nor its content changed.
  ghost predicate Succeeds(before: Row, after: Row) {
    && after.owner == before.owner
    && after.version >= before.version
    && SameParents(before.fields, after.fields)
    && (before.deletedAt.Some? ==> after.deletedAt.Some? && after.fields == before.fields)
  }

  ghost predicate RowsSucceed(s: Server, t: Server) {
    forall ref | ref in s.rows :: ref in t.rows && Succeeds(s.rows[ref], t.rows[ref])
  }

  lemma {:induction false} StepSucceeds(s: Server, e: Effect)
    requires Legal(s, e)
    ensures RowsSucceed(s, Perform(s, e))
  {
    match e
    case Write(_, ref, row, _, _, _) =>
      if ref in s.rows {
        assert Succeeds(s.rows[ref], row);
      }
    case Smear(_, ref, key) => SmearSucceeds(s.rows[ref], key);
    case _ =>
  }

  lemma {:induction false} SmearSucceeds(row: Row, key: Value)
    requires row.deletedAt.None?
    ensures Succeeds(row, Smeared(row, key))
  {
  }

  lemma {:induction false} SucceedsThrough(s: Server, middle: Server, t: Server)
    requires RowsSucceed(s, middle) && RowsSucceed(middle, t)
    ensures RowsSucceed(s, t)
  {
    forall ref | ref in s.rows ensures ref in t.rows && Succeeds(s.rows[ref], t.rows[ref]) {
      assert Succeeds(s.rows[ref], middle.rows[ref]) && Succeeds(middle.rows[ref], t.rows[ref]);
    }
  }

  lemma {:induction false} StepsSucceed(s: Server, es: seq<Effect>)
    requires AllLegal(s, es)
    ensures RowsSucceed(s, PerformAll(s, es))
    decreases |es|
  {
    if es == [] {
      assert RowsSucceed(s, s);
    } else {
      StepSucceeds(s, es[0]);
      StepsSucceed(Perform(s, es[0]), es[1..]);
      SucceedsThrough(s, Perform(s, es[0]), PerformAll(s, es));
    }
  }

  // Tombstone finality and referential integrity over every run.
  lemma {:induction false} TombstonesAreFinal(s: Server, requests: seq<Request>)
    ensures RowsSucceed(s, Run(s, requests))
  {
    var es := RunEffects(s, requests);
    StepsSucceed(s, es);
  }

  ghost predicate UntouchedFor(s: Server, t: Server, user: UserId) {
    && RowsOf(t, user) == RowsOf(s, user)
    && After(t.log, user, 0) == After(s.log, user, 0)
    && LastSequence(t.log, user) == LastSequence(s.log, user)
    && (forall id :: ((user, id) in t.ledger <==> (user, id) in s.ledger)
                     && ((user, id) in s.ledger ==> t.ledger[(user, id)] == s.ledger[(user, id)]))
  }

  lemma {:induction false} AfterGrows(log: seq<Change>, change: Change, user: UserId, cursor: int)
    ensures After(log + [change], user, cursor)
            == After(log, user, cursor) + (if change.user == user && change.sequence > cursor then [change] else [])
  {
    assert (log + [change])[..|log|] == log;
  }

  lemma {:induction false} EffectIsolates(s: Server, e: Effect, user: UserId)
    requires Legal(s, e) && (e.Burn? || e.user != user)
    ensures UntouchedFor(s, Perform(s, e), user)
  {
    if e.Write? {
      AfterGrows(s.log, ChangeOf(s, e), user, 0);
      assert (s.log + [ChangeOf(s, e)])[..|s.log|] == s.log;
    }
  }

  lemma {:induction false} StepsIsolate(s: Server, es: seq<Effect>, actor: UserId, user: UserId)
    requires AllLegal(s, es) && ByUser(es, actor) && user != actor
    ensures UntouchedFor(s, PerformAll(s, es), user)
    decreases |es|
  {
    if es != [] {
      assert es[0] in es;
      EffectIsolates(s, es[0], user);
      StepsIsolate(Perform(s, es[0]), es[1..], actor, user);
    }
  }

  // Account isolation: whatever the devices of one user push, another user's rows,
  // log, ledger and bootstrap stay as they were.
  lemma {:induction false} PushesIsolateUsers(s: Server, requests: seq<Request>, actor: UserId, user: UserId)
    requires AllFrom(requests, actor) && user != actor
    ensures UntouchedFor(s, Run(s, requests), user)
    ensures Bootstrap(Run(s, requests), user) == Bootstrap(s, user)
  {
    var es := RunEffects(s, requests);
    CausesAreUsers(s.schema, es, requests, actor);
    StepsIsolate(s, es, actor, user);
    SameRowsSameLive(s, Run(s, requests), user);
  }

  lemma {:induction false} SameRowsSameLive(s: Server, t: Server, user: UserId)
    requires RowsOf(s, user) == RowsOf(t, user)
    ensures Live(s, user) == Live(t, user)
  {
    forall ref
      ensures ref in Live(s, user) <==> ref in Live(t, user)
      ensures ref in Live(s, user) ==> Live(t, user)[ref] == Live(s, user)[ref]
    {
      assert ref in RowsOf(s, user) <==> ref in RowsOf(t, user);
      if ref in RowsOf(s, user) {
        assert RowsOf(s, user)[ref] == RowsOf(t, user)[ref];
      }
    }
  }
}
