// Retries and concurrent edits: at most once, no lost update, and the one refusal
// that is not without effect.
module SyncDelivery {
  import opened Wrappers
  import opened SyncModel
  import opened SyncEffects
  import opened SyncInvariant
  import opened SyncConvergence

  // ------------------------------------------------------------ acceptances

  // One ACCEPTED operation of a committed batch.
  datatype Acceptance = Acceptance(user: UserId, op: Operation, version: int, cursor: nat)

  function AcceptanceOf(user: UserId, op: Operation, response: Response): seq<Acceptance> {
    match response
    case Fresh(Result(_, Accepted(_, version, cursor))) => [Acceptance(user, op, version, cursor)]
    case _ => []
  }

  function BatchAcceptances(user: UserId, ops: seq<Operation>, responses: seq<Response>): seq<Acceptance>
    requires |ops| == |responses|
    decreases |ops|
  {
    if ops == [] then []
      else AcceptanceOf(user, ops[0], responses[0]) + BatchAcceptances(user, ops[1..], responses[1..])
  }

  lemma {:induction false} OneResponseEach(
      env: Env, s: Server, user: UserId, priors: Priors, ops: seq<Operation>, now: Time)
    ensures var b := ApplyAll(env, s, user, priors, ops, now); b.Done? ==> |b.responses| == |ops|
    decreases |ops|
  {
    if ops != [] {
      var step := Apply(env, s, user, ops[0], now, PriorOf(priors, ops[0].id));
      if step.Applied? {
        OneResponseEach(env, step.server, user, priors, ops[1..], now);
      }
    }
  }

  function PushAcceptances(s: Server, r: Request): seq<Acceptance> {
    var outcome := Push(s, r);
    if outcome.reply.Results? then
      OneResponseEach(r.env, s, r.user, PriorsOf(s, r.user, r.ops), r.ops, r.now);
      BatchAcceptances(r.user, r.ops, outcome.reply.responses)
    else []
  }

  function RunAcceptances(s: Server, requests: seq<Request>): seq<Acceptance>
    decreases |requests|
  {
    if requests == [] then []
    else PushAcceptances(s, requests[0]) + RunAcceptances(Push(s, requests[0]).server, requests[1..])
  }

  // The log entry an acceptance announces: same entity, version and cursor; an update of
  // an existing row carries the version after its base.
  ghost predicate Announces(a: Acceptance, c: Change) {
    && c.user == a.user
    && c.ref == Ref(a.op.kind, a.op.entityId)
    && c.version == a.version
    && c.sequence == a.cursor
    && (a.version != 1 ==> a.version == a.op.baseVersion + 1)
  }

  ghost predicate AllAnnounced(accepted: seq<Acceptance>, changes: seq<Change>) {
    |accepted| == |changes| && forall i | 0 <= i < |changes| :: Announces(accepted[i], changes[i])
  }

  lemma {:induction false} ApplyAnnounces(
      env: Env, s: Server, user: UserId, op: Operation, now: Time, prior: Option<Result>)
    requires Apply(env, s, user, op, now, prior).Applied?
    ensures var step := Apply(env, s, user, op, now, prior);
            Extends(s, step.server) && AllAnnounced(AcceptanceOf(user, op, step.response), Appended(s, step.server))
  {
    var step := Apply(env, s, user, op, now, prior);
    if prior.None? {
      var es := DecideEffect(env, s, user, op, now);
      var d := Decide(env, s, user, op, now);
      StepsExtend(s, es);
      if d.verdict.Accepted? {
        assert PerformAll(s, es) == PerformAll(Perform(s, es[0]), es[1..]);
        assert Appended(s, step.server) == [ChangeOf(s, es[0])];
      } else {
        assert Appended(s, step.server) == [];
      }
    } else {
      assert Appended(s, s) == [];
    }
  }

  lemma {:induction false} AnnouncedThenRest(s: Server, s1: Server, t: Server, a: seq<Acceptance>, b: seq<Acceptance>)
    requires Extends(s, s1) && Extends(s1, t)
    requires AllAnnounced(a, Appended(s, s1)) && AllAnnounced(b, Appended(s1, t))
    ensures Extends(s, t) && AllAnnounced(a + b, Appended(s, t))
  {
    assert Appended(s, t) == Appended(s, s1) + Appended(s1, t);
    forall i | |s.log| <= i < |t.log|
      ensures s.nextSequence <= t.log[i].sequence
    {
      if i < |s1.log| {
        assert t.log[i] == s1.log[i];
      }
    }
  }

  lemma {:induction false} BatchAnnounces(
      env: Env, s: Server, user: UserId, priors: Priors, ops: seq<Operation>, now: Time)
    requires ApplyAll(env, s, user, priors, ops, now).Done?
    ensures var b := ApplyAll(env, s, user, priors, ops, now);
            |b.responses| == |ops| && Extends(s, b.server)
            && AllAnnounced(BatchAcceptances(user, ops, b.responses), Appended(s, b.server))
    decreases |ops|
  {
    if ops == [] {
      assert Appended(s, s) == [];
    } else {
      var prior := PriorOf(priors, ops[0].id);
      var step := Apply(env, s, user, ops[0], now, prior);
      var b := ApplyAll(env, s, user, priors, ops, now);
      ApplyAnnounces(env, s, user, ops[0], now, prior);
      BatchAnnounces(env, step.server, user, priors, ops[1..], now);
      assert b.responses[1..] == ApplyAll(env, step.server, user, priors, ops[1..], now).responses;
      AnnouncedThenRest(s, step.server, b.server, AcceptanceOf(user, ops[0], step.response),
                        BatchAcceptances(user, ops[1..], b.responses[1..]));
    }
  }

  lemma {:induction false} PushAnnounces(s: Server, r: Request)
    ensures Extends(s, Push(s, r).server)
    ensures AllAnnounced(PushAcceptances(s, r), Appended(s, Push(s, r).server))
  {
    var es := PushEffects(s, r);
    StepsExtend(s, es);
    if Push(s, r).reply.Results? {
      BatchAnnounces(r.env, s, r.user, PriorsOf(s, r.user, r.ops), r.ops, r.now);
    } else {
      assert Appended(s, Push(s, r).server) == [];
    }
  }

  // The change log is the record of the accepted operations of committed batches: one
  // entry for each, in order, and nothing else.
  lemma {:induction false} LogRecordsAcceptances(s: Server, requests: seq<Request>)
    ensures Extends(s, Run(s, requests))
    ensures AllAnnounced(RunAcceptances(s, requests), Appended(s, Run(s, requests)))
    decreases |requests|
  {
    if requests == [] {
      assert Appended(s, s) == [];
    } else {
      var s1 := Push(s, requests[0]).server;
      PushAnnounces(s, requests[0]);
      LogRecordsAcceptances(s1, requests[1..]);
      AnnouncedThenRest(s, s1, Run(s, requests), PushAcceptances(s, requests[0]), RunAcceptances(s1, requests[1..]));
    }
  }

  lemma {:induction false} HistoryVersions(log: seq<Change>, ref: Ref, row: Row, i: nat, j: nat)
    requires Gapless(History(log, ref), row)
    requires i < j < |log| && log[i].ref == ref && log[j].ref == ref
    ensures log[i].version < log[j].version <= row.version
    decreases |log|
  {
    var before := log[..|log| - 1];
    var h := History(log, ref);
    if j == |log| - 1 {
      HistoryContains(before, ref, i);
      var k :| 0 <= k < |History(before, ref)| && History(before, ref)[k] == log[i];
      assert h[k].version == k + 1 && h[|h| - 1] == log[j];
    } else if log[|log| - 1].ref == ref {
      assert Gapless(History(before, ref), row.(version := row.version - 1)) by {
        assert forall k | 0 <= k < |History(before, ref)| :: History(before, ref)[k] == h[k];
      }
      HistoryVersions(before, ref, row.(version := row.version - 1), i, j);
    } else {
      assert History(before, ref) == h;
      HistoryVersions(before, ref, row, i, j);
    }
  }

  lemma {:induction false} HistoryContains(log: seq<Change>, ref: Ref, i: nat)
    requires i < |log| && log[i].ref == ref
    ensures exists k :: 0 <= k < |History(log, ref)| && History(log, ref)[k] == log[i]
    decreases |log|
  {
    var h := History(log, ref);
    if i == |log| - 1 {
      assert h[|h| - 1] == log[i];
    } else {
      HistoryContains(log[..|log| - 1], ref, i);
      var before := History(log[..|log| - 1], ref);
      var k :| 0 <= k < |before| && before[k] == log[i];
      assert h[k] == log[i];
    }
  }

  // No lost update: over any run, two accepted operations on one entity carry rising
  // versions, so of the updates that share a base version at most one is accepted.
  lemma {:induction false} NoLostUpdate(schema: Schema, requests: seq<Request>, i: nat, j: nat)
    requires i < j < |RunAcceptances(EmptyServer(schema), requests)|
    ensures
      var a := RunAcceptances(EmptyServer(schema), requests);
      a[i].op.kind == a[j].op.kind && a[i].op.entityId == a[j].op.entityId ==>
        && a[i].version < a[j].version
        && (a[i].version != 1 ==> a[i].op.baseVersion < a[j].op.baseVersion)
  {
    var empty := EmptyServer(schema);
    var a := RunAcceptances(empty, requests);
    var t := Run(empty, requests);
    LogRecordsAcceptances(empty, requests);
    ReachableWellFormed(schema, requests);
    assert Appended(empty, t) == t.log;
    assert Announces(a[i], t.log[i]) && Announces(a[j], t.log[j]);
    var ref := t.log[i].ref;
    if t.log[j].ref == ref {
      HistoryContains(t.log, ref, i);
      assert VersionedAt(t, ref);
      HistoryVersions(t.log, ref, t.rows[ref], i, j);
      HistoryContains(t.log, ref, j);
    }
  }

  // ---------------------------------------------------------------- retries

  ghost predicate LedgerKept(s: Server, t: Server) {
    forall key | key in s.ledger :: key in t.ledger && t.ledger[key] == s.ledger[key]
  }

  lemma {:induction false} StepsKeepLedger(s: Server, es: seq<Effect>)
    requires AllLegal(s, es)
    ensures LedgerKept(s, PerformAll(s, es))
    decreases |es|
  {
    if es != [] {
      StepsKeepLedger(Perform(s, es[0]), es[1..]);
    }
  }

  ghost predicate PriorsStored(s: Server, user: UserId, priors: Priors) {
    forall id | id in priors :: (user, id) in s.ledger && s.ledger[(user, id)] == priors[id]
  }

  // After a committed batch the ledger holds the result of each of its operations.
  lemma {:induction false} BatchIsStored(
      env: Env, s: Server, user: UserId, priors: Priors, ops: seq<Operation>, now: Time)
    requires ApplyAll(env, s, user, priors, ops, now).Done? && PriorsStored(s, user, priors)
    ensures
      var b := ApplyAll(env, s, user, priors, ops, now);
      && |b.responses| == |ops|
      && LedgerKept(s, b.server)
      && forall i | 0 <= i < |ops| ::
           (user, ops[i].id) in b.server.ledger && b.server.ledger[(user, ops[i].id)] == b.responses[i].result
    decreases |ops|
  {
    if ops != [] {
      var prior := PriorOf(priors, ops[0].id);
      var step := Apply(env, s, user, ops[0], now, prior);
      var head := ApplyEffects(env, s, user, ops[0], now, prior);
      StepsKeepLedger(s, head);
      BatchIsStored(env, step.server, user, priors, ops[1..], now);
      assert (user, ops[0].id) in step.server.ledger && step.server.ledger[(user, ops[0].id)] == step.response.result;
    }
  }

  function Duplicates(responses: seq<Response>): seq<Response> {
    seq(|responses|, i requires 0 <= i < |responses| => Duplicate(responses[i].result))
  }

  lemma {:induction false} AllKnown(env: Env, s: Server, user: UserId, priors: Priors, ops: seq<Operation>, now: Time,
                                    responses: seq<Response>)
    requires |responses| == |ops|
    requires forall i | 0 <= i < |ops| :: ops[i].id in priors && priors[ops[i].id] == responses[i].result
    ensures ApplyAll(env, s, user, priors, ops, now) == Done(s, Duplicates(responses))
    decreases |ops|
  {
    if ops != [] {
      AllKnown(env, s, user, priors, ops[1..], now, responses[1..]);
      assert Duplicates(responses) == [Duplicate(responses[0].result)] + Duplicates(responses[1..]);
    }
  }

  // Retrying a committed batch, from any active device and after anything else has
  // happened, changes nothing and returns the stored results marked DUPLICATE.
  lemma {:induction false} RetryIsIdempotent(s: Server, r: Request, between: seq<Request>, retry: Request)
    requires Push(s, r).reply.Results?
    requires retry.user == r.user && retry.ops == r.ops && ActiveDevice(retry.env, retry.user, retry.device)
    ensures
      var t := Run(Push(s, r).server, between);
      Push(t, retry) == PushOutcome(t, Results(Duplicates(Push(s, r).reply.responses)))
  {
    var s1 := Push(s, r).server;
    var t := Run(s1, between);
    var responses := Push(s, r).reply.responses;
    BatchIsStored(r.env, s, r.user, PriorsOf(s, r.user, r.ops), r.ops, r.now);
    var es := RunEffects(s1, between);
    StepsKeepLedger(s1, es);
    var priors := PriorsOf(t, retry.user, retry.ops);
    forall i | 0 <= i < |retry.ops|
      ensures retry.ops[i].id in priors && priors[retry.ops[i].id] == responses[i].result
    {
      assert retry.ops[i] in retry.ops;
      assert (r.user, r.ops[i].id) in s1.ledger;
    }
    AllKnown(retry.env, t, retry.user, priors, retry.ops, retry.now, responses);
  }

  // How often an operation id of a user is answered with a freshly computed result.
  function FreshIn(responses: seq<Response>, id: OperationId): nat
    decreases |responses|
  {
    if responses == [] then 0
    else (if responses[0].Fresh? && responses[0].result.operationId == id then 1 else 0) + FreshIn(responses[1..], id)
  }

  function FreshCount(s: Server, requests: seq<Request>, user: UserId, id: OperationId): nat
    decreases |requests|
  {
    if requests == [] then 0
    else
      var outcome := Push(s, requests[0]);
      (if requests[0].user == user && outcome.reply.Results? then FreshIn(outcome.reply.responses, id) else 0)
      + FreshCount(outcome.server, requests[1..], user, id)
  }

  // A fresh answer needs an id that is not in the ledger, and puts it there.
  lemma {:induction false} FreshOnceInBatch(env: Env, s: Server, user: UserId, priors: Priors, ops: seq<Operation>,
                                            now: Time, id: OperationId)
    requires ApplyAll(env, s, user, priors, ops, now).Done?
    ensures
      var b := ApplyAll(env, s, user, priors, ops, now);
      && FreshIn(b.responses, id) <= (if (user, id) in s.ledger then 0 else 1)
      && (FreshIn(b.responses, id) == 1 || (user, id) in s.ledger ==> (user, id) in b.server.ledger)
    decreases |ops|
  {
    if ops != [] {
      var step := Apply(env, s, user, ops[0], now, PriorOf(priors, ops[0].id));
      ApplyTouchesLedger(env, s, user, ops[0], now, PriorOf(priors, ops[0].id));
      FreshOnceInBatch(env, step.server, user, priors, ops[1..], now, id);
      var b := ApplyAll(env, s, user, priors, ops, now);
      assert b.responses[0] == step.response;
      assert b.responses[1..] == ApplyAll(env, step.server, user, priors, ops[1..], now).responses;
    }
  }

  lemma {:induction false} DecideKeepsLedger(env: Env, s: Server, user: UserId, op: Operation, now: Time)
    requires Decide(env, s, user, op, now).Decided?
    ensures Decide(env, s, user, op, now).server.ledger == s.ledger
  {
  }

  lemma {:induction false} ApplyTouchesLedger(
      env: Env, s: Server, user: UserId, op: Operation, now: Time, prior: Option<Result>)
    requires Apply(env, s, user, op, now, prior).Applied?
    ensures
      var step := Apply(env, s, user, op, now, prior);
      if step.response.Fresh? then
        && step.response.result.operationId == op.id
        && (user, op.id) !in s.ledger
        && step.server.ledger == s.ledger[(user, op.id) := step.response.result]
      else step.server == s
  {
    if prior.None? {
      DecideKeepsLedger(env, s, user, op, now);
    }
  }

  // At most once: over any history of retries an operation id takes effect at most once.
  lemma {:induction false} AtMostOnce(s: Server, requests: seq<Request>, user: UserId, id: OperationId)
    ensures FreshCount(s, requests, user, id) <= (if (user, id) in s.ledger then 0 else 1)
    decreases |requests|
  {
    if requests != [] {
      var r := requests[0];
      var outcome := Push(s, r);
      AtMostOnce(outcome.server, requests[1..], user, id);
      var es := PushEffects(s, r);
      StepsKeepLedger(s, es);
      if r.user == user && outcome.reply.Results? {
        FreshOnceInBatch(r.env, s, user, PriorsOf(s, user, r.ops), r.ops, r.now, id);
      }
    }
  }

  // --------------------------------------------------------- two departures

  ghost predicate LogMatchesRows(s: Server) {
    forall user :: Fold(map[], After(s.log, user, 0)) == RowsOf(s, user)
  }

  // A REJECTED operation leaves the rows alone exactly when it is not the update of a
  // setting that writes a new key and then refuses a null value.
  lemma {:induction false} RejectedLeavesRowsIff(env: Env, s: Server, user: UserId, op: Operation, now: Time)
    requires Decide(env, s, user, op, now).Decided? && Decide(env, s, user, op, now).verdict.Rejected?
    ensures Decide(env, s, user, op, now).server.rows == s.rows <==> !DirtyRefusal(s, user, op)
  {
    AcceptedIff(env, s, user, op, now);
    if DirtyRefusal(s, user, op) {
      SmearIsLegal(env, s, user, op, now);
      assert Decide(env, s, user, op, now).server.rows[Target(op)] != s.rows[Target(op)];
    } else {
      RefusedLeavesServer(env, s, user, op, now);
    }
  }

  // An effect that the log reproduces: no smear, and no write logged otherwise than stored.
  predicate Reproducible(e: Effect) {
    !e.Smear? && (e.Write? ==> e.logged == e.row.fields)
  }

  // After an effect on a server whose log reproduces its rows, the log still does exactly
  // when the effect is reproducible.
  lemma {:induction false} EffectMatchesIff(s: Server, e: Effect)
    requires LogMatchesRows(s) && Ordered(s) && Legal(s, e)
    ensures LogMatchesRows(Perform(s, e)) <==> Reproducible(e)
  {
    var t := Perform(s, e);
    forall user
      ensures Fold(map[], After(t.log, user, 0))
              == if e.Write? && e.user == user then RowsOf(s, user)[e.ref := ChangeOf(s, e).payload]
                else RowsOf(s, user)
    {
      assert Fold(map[], After(s.log, user, 0)) == RowsOf(s, user);
      if e.Write? {
        AfterGrows(s.log, ChangeOf(s, e), user, 0);
        if e.user == user {
          FoldNext(After(s.log, user, 0), ChangeOf(s, e));
        } else {
          assert After(t.log, user, 0) == After(s.log, user, 0);
        }
      }
    }
    if Reproducible(e) {
      forall user ensures Fold(map[], After(t.log, user, 0)) == RowsOf(t, user) {
        RowsAfter(s, e, user);
      }
    } else {
      RowsAfter(s, e, e.user);
      if e.Write? {
        assert ChangeOf(s, e).payload.fields != PayloadOf(e.ref, e.row).fields;
        assert Fold(map[], After(t.log, e.user, 0))[e.ref] != RowsOf(t, e.user)[e.ref];
      }
      assert Fold(map[], After(t.log, e.user, 0)) != RowsOf(t, e.user);
    }
  }

  lemma {:induction false} FoldNext(changes: seq<Change>, c: Change)
    ensures Fold(map[], changes + [c]) == Fold(map[], changes)[c.ref := c.payload]
  {
    assert (changes + [c])[..|changes|] == changes;
  }

  lemma {:induction false} RowsAfter(s: Server, e: Effect, user: UserId)
    requires Legal(s, e)
    ensures e.Write? && e.user == user ==>
              RowsOf(Perform(s, e), user) == RowsOf(s, user)[e.ref := PayloadOf(e.ref, e.row)]
    ensures !e.Smear? && !(e.Write? && e.user == user) ==> RowsOf(Perform(s, e), user) == RowsOf(s, user)
    ensures e.Smear? && e.user == user ==> RowsOf(Perform(s, e), user) != RowsOf(s, user)
  {
    if e.Smear? && e.user == user {
      assert RowsOf(Perform(s, e), user)[e.ref] != RowsOf(s, user)[e.ref];
    }
  }

  // The operation that breaks reproducibility, as it can be told before it is applied.
  predicate Unfaithful(env: Env, s: Server, user: UserId, op: Operation, now: Time) {
    DirtyRefusal(s, user, op) || RawWrite(env, s, user, op, now)
  }

  lemma {:induction false} DecidedMatchesIff(env: Env, s: Server, user: UserId, op: Operation, now: Time)
    requires Ordered(s) && LogMatchesRows(s)
    requires Decide(env, s, user, op, now).Decided?
    ensures LogMatchesRows(Decide(env, s, user, op, now).server) <==> !Unfaithful(env, s, user, op, now)
  {
    var es := DecideEffect(env, s, user, op, now);
    AcceptedIff(env, s, user, op, now);
    if es == [] {
      assert Decide(env, s, user, op, now).server == s;
    } else {
      assert es == [es[0]];
      OneEffect(s, es[0]);
      EffectMatchesIff(s, es[0]);
    }
  }

  lemma {:induction false} LedgerIsNoRow(s: Server, ledger: map<(UserId, OperationId), Result>)
    ensures LogMatchesRows(s.(ledger := ledger)) <==> LogMatchesRows(s)
  {
    var t := s.(ledger := ledger);
    forall user ensures RowsOf(t, user) == RowsOf(s, user) {
    }
    if LogMatchesRows(s) {
      forall user ensures Fold(map[], After(t.log, user, 0)) == RowsOf(t, user) {
        assert Fold(map[], After(s.log, user, 0)) == RowsOf(s, user);
      }
    } else {
      var user :| Fold(map[], After(s.log, user, 0)) != RowsOf(s, user);
      assert Fold(map[], After(t.log, user, 0)) != RowsOf(t, user);
    }
  }

  // An applied operation keeps the rows reproducible from the log exactly when it is
  // neither a dirty refusal nor an UPSERT that changes a column to a value logged
  // otherwise than stored.
  lemma {:induction false} LogStillMatchesIff(env: Env, s: Server, user: UserId, op: Operation, now: Time)
    requires Ordered(s) && LogMatchesRows(s)
    requires Apply(env, s, user, op, now, None).Applied?
    ensures LogMatchesRows(Apply(env, s, user, op, now, None).server) <==> !Unfaithful(env, s, user, op, now)
  {
    DecidedMatchesIff(env, s, user, op, now);
    LedgerIsNoRow(Decide(env, s, user, op, now).server, Apply(env, s, user, op, now, None).server.ledger);
  }

  // Over a whole run the log reproduces the rows at every step exactly when every effect
  // on the way is reproducible.
  lemma {:induction false} AlwaysMatchesIff(s: Server, es: seq<Effect>)
    requires Ordered(s) && LogMatchesRows(s) && AllLegal(s, es)
    ensures (forall k: nat | k <= |es| :: LogMatchesRows(PerformAll(s, es[..k])))
       <==> (forall k: nat | k < |es| :: Reproducible(es[k]))
    decreases |es|
  {
    if es == [] {
      assert es[..0] == [];
    } else {
      var s1 := Perform(s, es[0]);
      EffectMatchesIff(s, es[0]);
      OrderedStep(s, es[0]);
      forall k: nat | k < |es|
        ensures PerformAll(s, es[..k + 1]) == PerformAll(s1, es[1..][..k])
      {
        assert es[..k + 1][0] == es[0] && es[..k + 1][1..] == es[1..][..k];
      }
      if Reproducible(es[0]) {
        AlwaysMatchesIff(s1, es[1..]);
        MatchesFromNext(s, es);
      } else {
        assert PerformAll(s1, es[1..][..0]) == s1;
        assert !LogMatchesRows(PerformAll(s, es[..1]));
      }
    }
  }

  lemma {:induction false} MatchesFromNext(s: Server, es: seq<Effect>)
    requires es != [] && LogMatchesRows(s)
    requires forall k: nat | k < |es| :: PerformAll(s, es[..k + 1]) == PerformAll(Perform(s, es[0]), es[1..][..k])
    ensures (forall k: nat | k <= |es| :: LogMatchesRows(PerformAll(s, es[..k])))
       <==> (forall k: nat | k <= |es[1..]| :: LogMatchesRows(PerformAll(Perform(s, es[0]), es[1..][..k])))
  {
    assert PerformAll(s, es[..0]) == s;
    if forall k: nat | k <= |es[1..]| :: LogMatchesRows(PerformAll(Perform(s, es[0]), es[1..][..k])) {
      forall k: nat | k <= |es| ensures LogMatchesRows(PerformAll(s, es[..k])) {
        if k > 0 {
          assert PerformAll(s, es[..(k - 1) + 1]) == PerformAll(Perform(s, es[0]), es[1..][..k - 1]);
        }
      }
    }
    if forall k: nat | k <= |es| :: LogMatchesRows(PerformAll(s, es[..k])) {
      forall k: nat | k <= |es[1..]| ensures LogMatchesRows(PerformAll(Perform(s, es[0]), es[1..][..k])) {
        assert LogMatchesRows(PerformAll(s, es[..k + 1]));
      }
    }
  }

  // A batch that commits repeats no operation id that was new to it: the second row in
  // the ledger would break the unique constraint and roll everything back.
  lemma {:induction false} RepeatedIdAborts(s: Server, r: Request, i: nat, j: nat)
    requires i < j < |r.ops| && r.ops[i].id == r.ops[j].id && (r.user, r.ops[i].id) !in s.ledger
    ensures !Push(s, r).reply.Results?
    ensures Push(s, r).server == s.(nextSequence := Push(s, r).server.nextSequence)
  {
    var priors := PriorsOf(s, r.user, r.ops);
    var id := r.ops[i].id;
    if Push(s, r).reply.Results? {
      var b := ApplyAll(r.env, s, r.user, priors, r.ops, r.now);
      FreshOnceInBatch(r.env, s, r.user, priors, r.ops, r.now, id);
      NewIdsAreFresh(r.env, s, r.user, priors, r.ops, r.now, id);
      CountTwice(r.ops, id, i, j);
    }
  }

  // ------------------------------------------------------ why a batch aborts

  // An operation that raises when its turn comes.
  ghost predicate RaisesAt(env: Env, s: Server, user: UserId, priors: Priors, ops: seq<Operation>, now: Time, k: nat) {
    && k < |ops| && ops[k].id !in priors
    && ApplyAll(env, s, user, priors, ops[..k], now).Done?
    && Decide(env, ApplyAll(env, s, user, priors, ops[..k], now).server, user, ops[k], now).Raised?
  }

  // Two operations with the same id, which was not stored before the batch.
  ghost predicate RepeatsNew(priors: Priors, ops: seq<Operation>) {
    exists i, j | 0 <= i < j < |ops| :: ops[i].id == ops[j].id && ops[i].id !in priors
  }

  // No id that the batch takes for new is in the ledger.
  ghost predicate NewInLedger(s: Server, user: UserId, priors: Priors, ops: seq<Operation>) {
    forall j | 0 <= j < |ops| && ops[j].id !in priors :: (user, ops[j].id) !in s.ledger
  }

  lemma {:induction false} PrefixStarts(ops: seq<Operation>, k: nat)
    requires ops != [] && k < |ops|
    ensures ops[..k + 1][0] == ops[0] && ops[..k + 1][1..] == ops[1..][..k]
  {
  }

  lemma {:induction false} BrokenCause(
    env: Env, s: Server, user: UserId, priors: Priors, ops: seq<Operation>, now: Time)
    returns (k: nat)
    requires ApplyAll(env, s, user, priors, ops, now).Broken?
    requires NewInLedger(s, user, priors, ops) && !RepeatsNew(priors, ops)
    ensures RaisesAt(env, s, user, priors, ops, now, k)
    decreases |ops|
  {
    var step := Apply(env, s, user, ops[0], now, PriorOf(priors, ops[0].id));
    if step.Aborted? {
      AbortedRaises(env, s, user, ops[0], now);
      assert ops[..0] == [];
      k := 0;
    } else {
      ApplyTouchesLedger(env, s, user, ops[0], now, PriorOf(priors, ops[0].id));
      assert forall j | 0 <= j < |ops[1..]| :: ops[1..][j] == ops[j + 1];
      var next := BrokenCause(env, step.server, user, priors, ops[1..], now);
      PrefixStarts(ops, next);
      k := next + 1;
    }
  }

  lemma {:induction false} AbortedRaises(env: Env, s: Server, user: UserId, op: Operation, now: Time)
    requires Apply(env, s, user, op, now, None).Aborted? && (user, op.id) !in s.ledger
    ensures Decide(env, s, user, op, now).Raised?
  {
    if Decide(env, s, user, op, now).Decided? {
      DecideKeepsLedger(env, s, user, op, now);
    }
  }

  lemma {:induction false} RaisingBreaks(
    env: Env, s: Server, user: UserId, priors: Priors, ops: seq<Operation>, now: Time, k: nat)
    requires RaisesAt(env, s, user, priors, ops, now, k)
    ensures ApplyAll(env, s, user, priors, ops, now).Broken?
    decreases |ops|
  {
    if k > 0 {
      PrefixStarts(ops, k - 1);
      var step := Apply(env, s, user, ops[0], now, PriorOf(priors, ops[0].id));
      RaisingBreaks(env, step.server, user, priors, ops[1..], now, k - 1);
    }
  }

  // A batch of an active device fails exactly when an id that is not stored yet comes
  // twice in it, or one of its operations raises when its turn comes.
  lemma {:induction false} BatchFailsIff(s: Server, r: Request)
    requires ActiveDevice(r.env, r.user, r.device)
    ensures var priors := PriorsOf(s, r.user, r.ops);
            Push(s, r).reply.Failed? <==>
              || RepeatsNew(priors, r.ops)
              || exists k: nat :: RaisesAt(r.env, s, r.user, priors, r.ops, r.now, k)
  {
    var priors := PriorsOf(s, r.user, r.ops);
    if RepeatsNew(priors, r.ops) {
      var i, j :| 0 <= i < j < |r.ops| && r.ops[i].id == r.ops[j].id && r.ops[i].id !in priors;
      RepeatedIdAborts(s, r, i, j);
    } else if Push(s, r).reply.Failed? {
      var k := BrokenCause(r.env, s, r.user, priors, r.ops, r.now);
    }
    if k: nat :| RaisesAt(r.env, s, r.user, priors, r.ops, r.now, k) {
      RaisingBreaks(r.env, s, r.user, priors, r.ops, r.now, k);
    }
  }

  function Occurrences(ops: seq<Operation>, id: OperationId): nat
    decreases |ops|
  {
    if ops == [] then 0 else (if ops[0].id == id then 1 else 0) + Occurrences(ops[1..], id)
  }

  lemma {:induction false} CountTwice(ops: seq<Operation>, id: OperationId, i: nat, j: nat)
    requires i < j < |ops| && ops[i].id == id && ops[j].id == id
    ensures Occurrences(ops, id) >= 2
    decreases |ops|
  {
    if i == 0 {
      CountOnce(ops[1..], id, j - 1);
    } else {
      CountTwice(ops[1..], id, i - 1, j - 1);
    }
  }

  lemma {:induction false} CountOnce(ops: seq<Operation>, id: OperationId, j: nat)
    requires j < |ops| && ops[j].id == id
    ensures Occurrences(ops, id) >= 1
    decreases |ops|
  {
    if j > 0 {
      CountOnce(ops[1..], id, j - 1);
    }
  }

  lemma {:induction false} NewIdsAreFresh(env: Env, s: Server, user: UserId, priors: Priors, ops: seq<Operation>,
                                          now: Time, id: OperationId)
    requires id !in priors && ApplyAll(env, s, user, priors, ops, now).Done?
    ensures FreshIn(ApplyAll(env, s, user, priors, ops, now).responses, id) == Occurrences(ops, id)
    decreases |ops|
  {
    if ops != [] {
      var step := Apply(env, s, user, ops[0], now, PriorOf(priors, ops[0].id));
      ApplyTouchesLedger(env, s, user, ops[0], now, PriorOf(priors, ops[0].id));
      NewIdsAreFresh(env, step.server, user, priors, ops[1..], now, id);
      var b := ApplyAll(env, s, user, priors, ops, now);
      assert b.responses[0] == step.response;
      assert b.responses[1..] == ApplyAll(env, step.server, user, priors, ops[1..], now).responses;
      if id !in priors && ops[0].id == id {
        assert step.response.Fresh?;
      }
      DuplicatesArePriors(env, s, user, ops[0], now, priors, id);
    }
  }

  lemma {:induction false} DuplicatesArePriors(
      env: Env, s: Server, user: UserId, op: Operation, now: Time, priors: Priors, id: OperationId)
    requires id !in priors && Apply(env, s, user, op, now, PriorOf(priors, op.id)).Applied?
    ensures var response := Apply(env, s, user, op, now, PriorOf(priors, op.id)).response;
            response.Fresh? && response.result.operationId == id <==> op.id == id
  {
  }

  function SettingOp(id: OperationId, entity: Id, base: int, key: Value, value: Value): Operation {
    Operation(id, UserSetting, entity, Upsert, base, map["key" := key, "value" := value])
  }

  // Everything is stored as sent, and every column set is accepted.
  ghost predicate Permissive(schema: Schema, env: Env) {
    && (forall kind, key, v :: schema.stored(kind, key, v) == v)
    && (forall kind, key, v :: schema.logged(kind, key, v) == v)
    && (forall kind, fields :: env.columnsOk(kind, fields))
  }

  lemma {:induction false} SettingCreated(
      schema: Schema, env: Env, user: UserId, op: Operation, key: Value, value: Value, now: Time)
    requires op == SettingOp(op.id, op.entityId, op.baseVersion, key, value)
    requires !ForbiddenKey(key) && Hashable(key) && !value.Null? && Permissive(schema, env)
    ensures
      var s, ref := EmptyServer(schema), Ref(UserSetting, op.entityId);
      var d := Decide(env, s, user, op, now);
      && d.Decided? && d.server.ledger == map[] && d.server.schema == schema
      && d.server.rows == map[ref := Row(user, 1, now, None, map["key" := key, "value" := Wrapped(value)])]
      && !Unfaithful(env, s, user, op, now)
  {
    var s, ref := EmptyServer(schema), Ref(UserSetting, op.entityId);
    var fields: Fields := map["key" := key, "value" := Wrapped(value)];
    assert GetOr(op.payload, "key", Text("")) == key && GetOr(op.payload, "value", Null) == value;
    assert SettingFields(op.payload) == fields && BuildSetting(op.payload) == Built(fields);
    assert StoredFields(schema, UserSetting, map[], fields) == fields;
    assert PlainChange(schema, UserSetting, map[], fields);
    assert Assigned(env, s, op, now) == fields;
  }

  // A user creates a setting, then sends a new key together with a null value. The second
  // operation is REJECTED and logged nowhere, yet the stored key is the new one, so a
  // device that replays the log keeps the old one.
  lemma {:induction false} DirtyRefusalWitness(
    schema: Schema, env: Env, user: UserId, create: Operation, rename: Operation, a: Value, b: Value, value: Value,
    now: Time)
    requires create == SettingOp(create.id, create.entityId, 0, a, value)
    requires rename == SettingOp(rename.id, create.entityId, 1, b, Null) && rename.id != create.id
    requires a != b && !ForbiddenKey(a) && Hashable(a) && !ForbiddenKey(b) && Hashable(b) && !value.Null?
    requires Permissive(schema, env)
    ensures
      var first := Apply(env, EmptyServer(schema), user, create, now, None);
      && first.Applied? && LogMatchesRows(first.server)
      && var second := Apply(env, first.server, user, rename, now, None);
         && second.Applied? && second.response == Fresh(Result(rename.id, Rejected))
         && second.server.log == first.server.log
         && second.server.rows != first.server.rows
         && !LogMatchesRows(second.server)
  {
    var empty := EmptyServer(schema);
    SettingCreated(schema, env, user, create, a, value, now);
    EmptyMatches(schema);
    LogStillMatchesIff(env, empty, user, create, now);
    var s := Apply(env, empty, user, create, now, None).server;
    DecideOrders(env, empty, user, create, now);
    assert DirtyRefusal(s, user, rename);
    SettingRenamed(env, s, user, rename, now);
    RejectedLeavesRowsIff(env, s, user, rename, now);
    LogStillMatchesIff(env, s, user, rename, now);
  }

  lemma {:induction false} EmptyMatches(schema: Schema)
    ensures Ordered(EmptyServer(schema)) && LogMatchesRows(EmptyServer(schema))
  {
    forall user ensures RowsOf(EmptyServer(schema), user) == map[] {
    }
  }

  lemma {:induction false} DecideOrders(env: Env, s: Server, user: UserId, op: Operation, now: Time)
    requires Ordered(s) && Apply(env, s, user, op, now, None).Applied?
    ensures Ordered(Apply(env, s, user, op, now, None).server)
  {
    var es := DecideEffect(env, s, user, op, now);
    if es != [] {
      assert es == [es[0]];
      OneEffect(s, es[0]);
      OrderedStep(s, es[0]);
    }
  }

  lemma {:induction false} SettingRenamed(env: Env, s: Server, user: UserId, op: Operation, now: Time)
    requires DirtyRefusal(s, user, op) && s.rows.Keys == {Ref(UserSetting, op.entityId)}
    requires forall kind, fields :: env.columnsOk(kind, fields)
    requires (user, op.id) !in s.ledger
    ensures Decide(env, s, user, op, now).Decided?
    ensures Decide(env, s, user, op, now).verdict == Rejected
    ensures Decide(env, s, user, op, now).server.log == s.log
    ensures Apply(env, s, user, op, now, None).Applied?
  {
    var row := s.rows[Ref(UserSetting, op.entityId)];
    assert UpdateSetting(row.fields, op.payload) == Declined(row.fields["key" := op.payload["key"]]);
  }
}
