// What an answer tells the device: when a conflict arises and how it is resolved, and
// that accepted values are what every device reads back.
module SyncAnswers {
  import opened Wrappers
  import opened SyncModel
  import opened SyncEffects
  import opened SyncInvariant
  import opened SyncConvergence
  import opened SyncDelivery

  predicate Known(op: Operation) {
    !op.kind.UnknownEntity? && !op.mutation.UnknownMutation?
  }

  // -------------------------------------------------------------- conflicts

  // A conflict arises exactly on the user's own row when the base version is stale or an
  // UPSERT meets a tombstone; it changes nothing and shows the row as the server has it.
  lemma {:induction false} ConflictIff(env: Env, s: Server, user: UserId, op: Operation, now: Time)
    requires Decide(env, s, user, op, now).Decided?
    ensures
      var d, ref := Decide(env, s, user, op, now), Target(op);
      && (d.verdict.Conflict? <==>
            && Known(op) && ref in s.rows && s.rows[ref].owner == user
            && (s.rows[ref].version != op.baseVersion || (op.mutation.Upsert? && s.rows[ref].deletedAt.Some?)))
      && (d.verdict.Conflict? ==>
            && d.server == s
            && d.verdict.entityId == op.entityId && d.verdict.clientBaseVersion == op.baseVersion
            && d.verdict.serverVersion == s.rows[ref].version
            && RowsOf(s, user)[ref] == d.verdict.serverValue
            && (d.verdict.conflictType == if s.rows[ref].version != op.baseVersion then StaleVersion else Tombstoned))
  {
    if Decide(env, s, user, op, now).verdict.Conflict? {
      AcceptedIff(env, s, user, op, now);
    }
  }

  // Sending the operation again on the version the conflict shows: a DELETE is then
  // accepted, and an UPSERT conflicts again exactly when the row is a tombstone.
  lemma {:induction false} RebaseResolves(env: Env, s: Server, user: UserId, op: Operation, now: Time)
    requires Decide(env, s, user, op, now).Decided? && Decide(env, s, user, op, now).verdict.Conflict?
    ensures
      var version := Decide(env, s, user, op, now).verdict.serverVersion;
      var again := Decide(env, s, user, op.(baseVersion := version), now);
      && (op.mutation.Delete? ==> again.Decided? && again.verdict.Accepted? && again.verdict.newVersion == version + 1)
      && (again.Decided? && again.verdict.Conflict? <==> op.mutation.Upsert? && s.rows[Target(op)].deletedAt.Some?)
  {
    ConflictIff(env, s, user, op, now);
    var again := op.(baseVersion := Decide(env, s, user, op, now).verdict.serverVersion);
    if Decide(env, s, user, again, now).Decided? {
      ConflictIff(env, s, user, again, now);
    }
  }

  // A conflict with a tombstone is final: whatever anybody pushes, every later UPSERT of
  // the entity, on any base version, conflicts.
  lemma {:induction false} TombstoneRefusesUpserts(
      s: Server, requests: seq<Request>, env: Env, user: UserId, op: Operation, now: Time)
    requires Known(op) && op.mutation.Upsert?
    requires Target(op) in s.rows && s.rows[Target(op)].owner == user && s.rows[Target(op)].deletedAt.Some?
    ensures
      var t := Run(s, requests);
      var d := Decide(env, t, user, op, now);
      d.Decided? && d.verdict.Conflict? && d.server == t
  {
    TombstonesAreFinal(s, requests);
    var t := Run(s, requests);
    assert Succeeds(s.rows[Target(op)], t.rows[Target(op)]);
  }

  // -------------------------------------------------------- read your writes

  function KeySet(kind: EntityType): set<string> {
    set key | key in MutableKeys(kind)
  }

  // The columns stored as sent; the quantity of a new transaction is converted first.
  function Verbatim(existed: bool, kind: EntityType): set<string> {
    KeySet(kind) - if !existed && kind.PortfolioTransaction? then {"quantity_shares"} else {}
  }

  // The columns an update may change: the mutable ones, those of a setting, and the time
  // of a transaction.
  function Changeable(kind: EntityType): set<string> {
    KeySet(kind)
    + (if kind.UserSetting? then {"key", "value"} else {})
    + if kind.PortfolioTransaction? then {"executed_at"} else {}
  }

  // A value as it was sent, as the log shows it, or as it reads back.
  datatype Form = AsSent | AsLogged | AsStored

  function Formed(form: Form, schema: Schema, kind: EntityType, key: string, v: Value): Value {
    match form
    case AsSent => v
    case AsLogged => LoggedAs(schema, kind, key, v)
    case AsStored => StoredAs(schema, kind, key, v)
  }

  ghost predicate Carries(
      form: Form, schema: Schema, kind: EntityType, fields: Fields, payload: Fields, keys: set<string>) {
    forall key | key in keys && key in payload ::
      key in fields && fields[key] == Formed(form, schema, kind, key, payload[key])
  }

  ghost predicate CarriesValue(form: Form, schema: Schema, fields: Fields, payload: Fields) {
    "value" in payload
    ==> "value" in fields && fields["value"] == Formed(form, schema, UserSetting, "value", Wrapped(payload["value"]))
  }

  // The fields show every value the operation carries, in this form.
  ghost predicate Shows(form: Form, schema: Schema, existed: bool, op: Operation, fields: Fields) {
    && Carries(form, schema, op.kind, fields, op.payload, Verbatim(existed, op.kind))
    && (op.kind.UserSetting? ==>
          Carries(form, schema, op.kind, fields, op.payload, {"key"}) && CarriesValue(form, schema, fields, op.payload))
  }

  // Whatever is not both sent and changeable is as before.
  ghost predicate KeepsRest(op: Operation, after: Fields, before: Fields) {
    var touched := op.payload.Keys * Changeable(op.kind);
    after - touched == before - touched
  }

  ghost predicate Sends(fields: Fields, payload: Fields, keys: set<string>) {
    forall key | key in keys && key in payload :: key in fields && fields[key] == payload[key]
  }

  lemma {:induction false} RuleSends(payload: Fields)
    ensures Sends(RuleFields(payload), payload, KeySet(AlertRule))
  {
  }

  lemma {:induction false} TransactionSends(env: Env, payload: Fields, now: Time)
    ensures Sends(TransactionFields(env, payload, now), payload, {"side", "price", "fee", "lot_type"})
  {
  }

  lemma {:induction false} ItemSends(payload: Fields)
    ensures Sends(ItemFields(payload), payload, {"sort_order", "note", "target_price", "stop_price", "add_price"})
  {
  }

  lemma {:induction false} ScreenerSends(payload: Fields)
    ensures Sends(ScreenerFields(payload), payload,
            {"name", "description", "expression", "sort_field", "sort_direction"})
  {
  }

  lemma {:induction false} ItemKeys()
    ensures KeySet(WatchlistItem) == {"sort_order", "note", "target_price", "stop_price", "add_price"}
  {
  }

  lemma {:induction false} ScreenerKeys()
    ensures KeySet(SavedScreener) == {"name", "description", "expression", "sort_field", "sort_direction"}
  {
  }

  lemma {:induction false} TransactionKeys()
    ensures Verbatim(false, PortfolioTransaction) == {"side", "price", "fee", "lot_type"}
  {
  }

  lemma {:induction false} NewColumnsSend(env: Env, kind: EntityType, payload: Fields, now: Time)
    ensures Sends(NewColumns(env, kind, payload, now), payload, Verbatim(false, kind))
  {
    match kind
    case Watchlist => assert KeySet(Watchlist) == {"name", "sort_order"};
    case WatchlistItem =>
      ItemKeys();
      ItemSends(payload);
    case Portfolio => assert KeySet(Portfolio) == {"name", "base_currency", "is_default"};
    case PortfolioTransaction =>
      TransactionKeys();
      TransactionSends(env, payload, now);
    case AlertRule => RuleSends(payload);
    case SavedScreener =>
      ScreenerKeys();
      ScreenerSends(payload);
    case UserSetting => assert KeySet(UserSetting) == {};
    case UnknownEntity =>
  }

  lemma {:induction false} SettingSends(schema: Schema, payload: Fields)
    ensures Sends(SettingFields(payload), payload, {"key"})
            && CarriesValue(AsSent, schema, SettingFields(payload), payload)
  {
  }

  lemma {:induction false} NewColumnsShow(schema: Schema, env: Env, op: Operation, now: Time)
    ensures Shows(AsSent, schema, false, op, NewColumns(env, op.kind, op.payload, now))
  {
    NewColumnsSend(env, op.kind, op.payload, now);
    if op.kind.UserSetting? {
      SettingSends(schema, op.payload);
    }
  }

  lemma {:induction false} SettingIsNotMutable()
    ensures KeySet(UserSetting) == {} && "executed_at" !in KeySet(PortfolioTransaction)
  {
  }

  // An update shows what it was sent, and nothing else changes.
  lemma {:induction false} SentColumnsShow(schema: Schema, env: Env, before: Fields, op: Operation)
    ensures Shows(AsSent, schema, true, op, before + SentColumns(env, op.kind, op.payload))
    ensures KeepsRest(op, before + SentColumns(env, op.kind, op.payload), before)
  {
    SettingIsNotMutable();
    var sent := SentColumns(env, op.kind, op.payload);
    var touched := op.payload.Keys * Changeable(op.kind);
    forall key | key in sent ensures key in touched {
    }
    assert (before + sent) - touched == before - touched;
  }

  // From what was sent to what is logged and what is stored.
  lemma {:induction false} ColumnForms(schema: Schema, kind: EntityType, before: Fields, after: Fields, key: string)
    requires Lawful(schema) && InForm(schema, kind, before) && key in after
    ensures LoggedFields(schema, kind, before, after)[key] == LoggedAs(schema, kind, key, after[key])
    ensures StoredFields(schema, kind, before, after)[key] == StoredAs(schema, kind, key, after[key])
  {
    if SameAt(before, after, key) {
      assert Settled(schema, kind, before)[key] == before[key];
      assert LawfulAt(schema, kind, key, before[key]);
    }
  }

  lemma {:induction false} CarriesForms(
      schema: Schema, kind: EntityType, before: Fields, after: Fields, payload: Fields, keys: set<string>)
    requires Lawful(schema) && InForm(schema, kind, before) && Carries(AsSent, schema, kind, after, payload, keys)
    ensures Carries(AsLogged, schema, kind, LoggedFields(schema, kind, before, after), payload, keys)
    ensures Carries(AsStored, schema, kind, StoredFields(schema, kind, before, after), payload, keys)
  {
    forall key | key in keys && key in payload
      ensures key in after
      ensures LoggedFields(schema, kind, before, after)[key] == LoggedAs(schema, kind, key, payload[key])
      ensures StoredFields(schema, kind, before, after)[key] == StoredAs(schema, kind, key, payload[key])
    {
      ColumnForms(schema, kind, before, after, key);
    }
  }

  lemma {:induction false} ShowsForms(schema: Schema, existed: bool, op: Operation, before: Fields, after: Fields)
    requires Lawful(schema) && InForm(schema, op.kind, before) && Shows(AsSent, schema, existed, op, after)
    ensures Shows(AsLogged, schema, existed, op, LoggedFields(schema, op.kind, before, after))
    ensures Shows(AsStored, schema, existed, op, StoredFields(schema, op.kind, before, after))
  {
    CarriesForms(schema, op.kind, before, after, op.payload, Verbatim(existed, op.kind));
    if op.kind.UserSetting? {
      CarriesForms(schema, op.kind, before, after, op.payload, {"key"});
      if "value" in op.payload {
        ColumnForms(schema, op.kind, before, after, "value");
      }
    }
  }

  lemma {:induction false} StoredKeepsRest(schema: Schema, op: Operation, before: Fields, after: Fields)
    requires KeepsRest(op, after, before)
    ensures KeepsRest(op, StoredFields(schema, op.kind, before, after), before)
  {
    var touched := op.payload.Keys * Changeable(op.kind);
    var stored := StoredFields(schema, op.kind, before, after);
    assert stored.Keys == after.Keys;
    forall key | key in stored - touched
      ensures key in before - touched && (stored - touched)[key] == (before - touched)[key] {
      assert key in after - touched;
      assert SameAt(before, after, key);
    }
    forall key | key in before - touched ensures key in stored - touched {
      assert key in after - touched;
    }
  }

  // What is published. One log entry is added, at the position the answer names; it shows
  // the row, in the form of the log; every other row of every user stays.
  ghost predicate Published(s: Server, user: UserId, op: Operation, d: Decision)
    requires d.Decided? && d.verdict.Accepted?
  {
    var t, ref := d.server, Target(op);
    && ref in RowsOf(t, user)
    && RowsOf(t, user)[ref].version == d.verdict.newVersion
    && t.rows - {ref} == s.rows - {ref}
    && |t.log| == |s.log| + 1 && t.log[..|s.log|] == s.log
    && var c := t.log[|s.log|];
       && c.ref == ref && c.user == user && c.operation == op.mutation && c.sequence == d.verdict.serverCursor
       && c.payload == RowsOf(t, user)[ref].(fields := c.payload.fields)
       && (Lawful(s.schema) && Stored(s)
          ==> Settled(s.schema, op.kind, c.payload.fields) == RowsOf(t, user)[ref].fields)
  }

  lemma {:induction false} CommitPublishes(s: Server, user: UserId, op: Operation, row: Row, now: Time)
    requires Committable(s, user, op.mutation, Target(op), row)
    ensures Published(s, user, op, Commit(s, user, op.mutation, Target(op), row, now))
  {
    var ref := Target(op);
    var t := Commit(s, user, op.mutation, ref, row, now).server;
    if Lawful(s.schema) && Stored(s) {
      FormsAgree(s.schema, ref.kind, FieldsOf(s.rows, ref), row.fields);
      assert InForm(s.schema, ref.kind, FieldsOf(s.rows, ref));
    }
    assert t.rows - {ref} == s.rows - {ref};
    assert RowsOf(t, user)[ref] == PayloadOf(ref, StoredRow(s, ref, row));
  }

  lemma {:induction false} AcceptedIsPublished(env: Env, s: Server, user: UserId, op: Operation, now: Time)
    requires Decide(env, s, user, op, now).Decided? && Decide(env, s, user, op, now).verdict.Accepted?
    ensures Published(s, user, op, Decide(env, s, user, op, now))
  {
    AcceptedIff(env, s, user, op, now);
    CommitPublishes(s, user, op, Sent(env, s, user, op, now), now);
  }

  // An accepted UPSERT is live with every value it carries in stored form, is logged with
  // them in logged form, and keeps the columns it does not carry.
  lemma {:induction false} AcceptedUpsertIsRead(env: Env, s: Server, user: UserId, op: Operation, now: Time)
    requires Lawful(s.schema) && Stored(s)
    requires Decide(env, s, user, op, now).Decided? && Decide(env, s, user, op, now).verdict.Accepted?
             && op.mutation.Upsert?
    ensures
      var d, ref := Decide(env, s, user, op, now), Target(op);
      && Published(s, user, op, d)
      && ref in Live(d.server, user)
      && Shows(AsStored, s.schema, ref in s.rows, op, Live(d.server, user)[ref].fields)
      && Shows(AsLogged, s.schema, ref in s.rows, op, d.server.log[|s.log|].payload.fields)
      && (ref in s.rows ==> KeepsRest(op, Live(d.server, user)[ref].fields, s.rows[ref].fields))
  {
    var ref := Target(op);
    AcceptedIsPublished(env, s, user, op, now);
    AcceptedIff(env, s, user, op, now);
    var before, after := FieldsOf(s.rows, ref), Sent(env, s, user, op, now).fields;
    assert InForm(s.schema, op.kind, before);
    if ref in s.rows {
      SentColumnsShow(s.schema, env, before, op);
      StoredKeepsRest(s.schema, op, before, after);
    } else {
      NewColumnsShow(s.schema, env, op, now);
    }
    ShowsForms(s.schema, ref in s.rows, op, before, after);
  }

  // An accepted DELETE leaves a tombstone with the old content, which is not live.
  lemma {:induction false} AcceptedDeleteIsGone(env: Env, s: Server, user: UserId, op: Operation, now: Time)
    requires Decide(env, s, user, op, now).Decided? && Decide(env, s, user, op, now).verdict.Accepted?
             && op.mutation.Delete?
    ensures
      var d, ref := Decide(env, s, user, op, now), Target(op);
      && Published(s, user, op, d)
      && ref !in Live(d.server, user)
      && ref in s.rows && RowsOf(d.server, user)[ref].fields == s.rows[ref].fields
      && d.server.log[|s.log|].payload.fields == s.rows[ref].fields
  {
    AcceptedIsPublished(env, s, user, op, now);
    AcceptedIff(env, s, user, op, now);
    SameColumnsStay(s.schema, op.kind, s.rows[Target(op)].fields);
  }

  // ------------------------------------------------------------ end to end

  // Effects that avoid a row of this user leave it, and log nothing about it.
  lemma {:induction false} AvoidedRowStays(s: Server, es: seq<Effect>, user: UserId, ref: Ref)
    requires AllLegal(s, es) && Avoids(es, user, ref) && ref in s.rows && s.rows[ref].owner == user
    ensures var t := PerformAll(s, es);
            && ref in t.rows && t.rows[ref] == s.rows[ref]
            && Extends(s, t)
            && forall i | 0 <= i < |Appended(s, t)| :: Appended(s, t)[i].ref != ref
    decreases |es|
  {
    StepsExtend(s, es);
    var t := PerformAll(s, es);
    if es == [] {
      assert Appended(s, t) == [];
    } else {
      var e, s1 := es[0], Perform(s, es[0]);
      assert e in es && forall x | x in es[1..] :: x in es;
      assert s1.rows[ref] == s.rows[ref];
      AvoidedRowStays(s1, es[1..], user, ref);
      StepsExtend(s1, es[1..]);
      assert Appended(s, t) == Appended(s, s1) + Appended(s1, t);
      assert e.Write? ==> Appended(s, s1) == [ChangeOf(s, e)];
      assert !e.Write? ==> Appended(s, s1) == [];
    }
  }

  lemma {:induction false} AvoidsConcat(a: seq<Effect>, b: seq<Effect>, user: UserId, ref: Ref)
    requires Avoids(a, user, ref) && Avoids(b, user, ref)
    ensures Avoids(a + b, user, ref)
  {
  }

  // A replica holds the payload of the last change of an entity.
  lemma {:induction false} LastChangeWins(m: Replica, p: seq<Change>, c: Change, q: seq<Change>)
    requires !c.operation.Delete? && forall i | 0 <= i < |q| :: q[i].ref != c.ref
    ensures var replica := Replay(m, p + [c] + q); c.ref in replica && replica[c.ref] == c.payload
    decreases |q|
  {
    if q == [] {
      assert p + [c] + q == p + [c] && (p + [c])[..|p|] == p;
    } else {
      assert (p + [c] + q)[..|p + [c] + q| - 1] == p + [c] + q[..|q| - 1];
      LastChangeWins(m, p, c, q[..|q| - 1]);
    }
  }

  // It does not hold an entity whose last change is a DELETE.
  lemma {:induction false} LastDeleteWins(m: Replica, p: seq<Change>, c: Change, q: seq<Change>)
    requires c.operation.Delete? && forall i | 0 <= i < |q| :: q[i].ref != c.ref
    ensures c.ref !in Replay(m, p + [c] + q)
    decreases |q|
  {
    if q == [] {
      assert p + [c] + q == p + [c] && (p + [c])[..|p|] == p;
    } else {
      assert (p + [c] + q)[..|p + [c] + q| - 1] == p + [c] + q[..|q| - 1];
      LastDeleteWins(m, p, c, q[..|q| - 1]);
    }
  }

  // The place of one operation in a committed batch: the effects before it, its own step
  // with its response, and the effects of the operations after it.
  lemma {:induction false} BatchSplits(
      env: Env, s: Server, user: UserId, priors: Priors, ops: seq<Operation>, now: Time, i: nat)
    returns (head: seq<Effect>, tail: seq<Effect>)
    requires ApplyAll(env, s, user, priors, ops, now).Done? && i < |ops|
    ensures
      var b, at := ApplyAll(env, s, user, priors, ops, now), PerformAll(s, head);
      var step := Apply(env, at, user, ops[i], now, PriorOf(priors, ops[i].id));
      && |b.responses| == |ops|
      && AllLegal(s, head)
      && step.Applied? && step.response == b.responses[i]
      && AllLegal(step.server, tail) && PerformAll(step.server, tail) == b.server
      && AllCaused(s.schema, tail, env, user, ops[i + 1..], now)
    decreases i
  {
    OneResponseEach(env, s, user, priors, ops, now);
    var es := FirstApplies(env, s, user, priors, ops, now);
    var first := Apply(env, s, user, ops[0], now, PriorOf(priors, ops[0].id));
    if i == 0 {
      head := [];
      tail := ApplyAllEffects(env, first.server, user, priors, ops[1..], now);
    } else {
      var rest;
      rest, tail := BatchSplits(env, first.server, user, priors, ops[1..], now, i - 1);
      Chain(s, es, rest);
      head := es + rest;
      assert ops[1..][i - 1] == ops[i] && ops[1..][i - 1 + 1..] == ops[i + 1..];
    }
  }

  // A committed batch is its first step followed by the rest of the batch.
  lemma {:induction false} FirstApplies(
      env: Env, s: Server, user: UserId, priors: Priors, ops: seq<Operation>, now: Time)
    returns (es: seq<Effect>)
    requires ApplyAll(env, s, user, priors, ops, now).Done? && ops != []
    ensures
      var first := Apply(env, s, user, ops[0], now, PriorOf(priors, ops[0].id));
      && first.Applied?
      && var b := ApplyAll(env, s, user, priors, ops, now);
         var rest := ApplyAll(env, first.server, user, priors, ops[1..], now);
         && rest.Done? && b.server == rest.server && b.responses == [first.response] + rest.responses
         && AllLegal(s, es) && PerformAll(s, es) == first.server && first.server.schema == s.schema
  {
    es := ApplyEffects(env, s, user, ops[0], now, PriorOf(priors, ops[0].id));
    SchemaStays(s, es);
  }

  // The answer to operation i of the request, when the batch commits.
  predicate AcceptedAt(s: Server, r: Request, i: nat) {
    var reply := Push(s, r).reply;
    && i < |r.ops| && reply.Results? && i < |reply.responses|
    && reply.responses[i].Fresh? && reply.responses[i].result.verdict.Accepted?
  }

  function VersionAt(s: Server, r: Request, i: nat): int
    requires AcceptedAt(s, r, i)
  {
    Push(s, r).reply.responses[i].result.verdict.newVersion
  }

  // What an accepted operation leaves: its log entry, and its row.
  ghost predicate Leaves(schema: Schema, user: UserId, op: Operation, existed: bool, c: Change, row: Row) {
    && c.ref == Target(op) && c.user == user && c.operation == op.mutation
    && row.owner == user && (op.mutation.Delete? <==> row.deletedAt.Some?)
    && (op.mutation.Upsert? ==>
          && Shows(AsLogged, schema, existed, op, c.payload.fields)
          && Shows(AsStored, schema, existed, op, row.fields))
  }

  // The state before and after an accepted operation of a request, and the effects that
  // follow it in its batch.
  lemma {:induction false} AcceptedInBatch(s: Server, r: Request, i: nat)
    returns (at: Server, done: Server, tail: seq<Effect>)
    requires WellFormed(s) && Lawful(s.schema) && AcceptedAt(s, r, i)
    ensures
      var op := r.ops[i];
      && Extends(s, at) && AllLegal(done, tail) && PerformAll(done, tail) == Push(s, r).server
      && AllCaused(s.schema, tail, r.env, r.user, r.ops[i + 1..], r.now)
      && |done.log| == |at.log| + 1 && done.log[..|at.log|] == at.log && done.nextSequence == at.nextSequence + 1
      && done.log[|at.log|].sequence == at.nextSequence && Target(op) in done.rows
      && Leaves(s.schema, r.user, op, VersionAt(s, r, i) > 1, done.log[|at.log|], done.rows[Target(op)])
  {
    var op, priors := r.ops[i], PriorsOf(s, r.user, r.ops);
    var head;
    head, tail := BatchSplits(r.env, s, r.user, priors, r.ops, r.now, i);
    at := PerformAll(s, head);
    done := Apply(r.env, at, r.user, op, r.now, PriorOf(priors, op.id)).server;
    WellFormedSteps(s, head);
    SchemaStays(s, head);
    StepsExtend(s, head);
    OneAccepted(r.env, at, r.user, op, r.now);
    CreatedShowsLess(s.schema, op, done.log[|at.log|].payload.fields, done.rows[Target(op)].fields);
  }

  // Whether the row existed only matters for the quantity of a new transaction.
  lemma {:induction false} CreatedShowsLess(schema: Schema, op: Operation, logged: Fields, stored: Fields)
    ensures Shows(AsLogged, schema, true, op, logged) ==> Shows(AsLogged, schema, false, op, logged)
    ensures Shows(AsStored, schema, true, op, stored) ==> Shows(AsStored, schema, false, op, stored)
  {
    assert Verbatim(false, op.kind) <= Verbatim(true, op.kind);
  }

  lemma {:induction false} OneAccepted(env: Env, s: Server, user: UserId, op: Operation, now: Time)
    requires Lawful(s.schema) && Stored(s)
    requires Apply(env, s, user, op, now, None).Applied?
    requires Apply(env, s, user, op, now, None).response.result.verdict.Accepted?
    ensures
      var t, ref := Apply(env, s, user, op, now, None).server, Target(op);
      && |t.log| == |s.log| + 1 && t.log[..|s.log|] == s.log && t.nextSequence == s.nextSequence + 1
      && (ref !in s.rows ==> Apply(env, s, user, op, now, None).response.result.verdict.newVersion == 1)
      && t.log[|s.log|].sequence == s.nextSequence && ref in t.rows
      && Leaves(s.schema, user, op, ref in s.rows, t.log[|s.log|], t.rows[ref])
  {
    AcceptedIff(env, s, user, op, now);
    AcceptedIsPublished(env, s, user, op, now);
    var d := Decide(env, s, user, op, now).server;
    if op.mutation.Upsert? {
      AcceptedUpsertIsRead(env, s, user, op, now);
      assert Live(d, user)[Target(op)].fields == d.rows[Target(op)].fields;
    }
  }

  // The pull of a device that bootstraps and pulls until has_more is false, while others
  // push whatever they like. Among it is a request with an accepted operation, after which
  // no operation of its user names the entity: its log entry is the last one the pull
  // returns about the entity, and its row is as the operation left it.
  lemma {:induction false} AcceptedEntryIsLast(
    s: Server, before: seq<Request>, r: Request, i: nat, after: seq<Request>, steps: seq<PullStep>)
    returns (p: seq<Change>, c: Change, q: seq<Change>)
    requires WellFormed(s) && Lawful(s.schema) && AcceptedAt(Run(s, before), r, i)
    requires UnnamedOps(r.ops[i + 1..], Target(r.ops[i])) && Unnamed(after, r.user, Target(r.ops[i]))
    requires steps != [] && AllRequests(steps) == before + [r] + after
    requires !Pull(s, r.user, Bootstrap(s, r.user).cursor, steps).hasMore
    ensures
      var pulled, op := Pull(s, r.user, Bootstrap(s, r.user).cursor, steps), r.ops[i];
      && pulled.changes == p + [c] + q
      && (forall j | 0 <= j < |q| :: q[j].ref != Target(op))
      && Target(op) in pulled.server.rows
      && Leaves(s.schema, r.user, op, VersionAt(Run(s, before), r, i) > 1, c, pulled.server.rows[Target(op)])
  {
    var user, ref, cursor := r.user, Target(r.ops[i]), Bootstrap(s, r.user).cursor;
    var s1 := Run(s, before);
    RunKeepsWellFormed(s, before);
    RunKeepsSchema(s, before);
    RunExtends(s, before);
    var at, done, tail := AcceptedInBatch(s1, r, i);
    var s2 := Push(s1, r).server;
    var es := RunEffects(s2, after);
    UnnamedOpsAreAvoided(s1.schema, tail, r.env, user, r.ops[i + 1..], r.now, ref);
    UnnamedIsAvoided(s2.schema, es, after, user, ref);
    Chain(done, tail, es);
    AvoidsConcat(tail, es, user, ref);
    AvoidedRowStays(done, tail + es, user, ref);
    RunThree(s, before, r, after);
    PulledAll(s, user, cursor, steps);
    LoggedLast(s, at, done, Run(s2, after), user, cursor, ref);
    c := done.log[|at.log|];
    p, q := After(at.log, user, cursor), After(Appended(done, Run(s2, after)), user, cursor);
  }

  // End to end, an UPSERT: the device then holds its values as logged, and the server
  // serves them as stored.
  lemma {:induction false} AcceptedWriteReachesDevices(
    s: Server, before: seq<Request>, r: Request, i: nat, after: seq<Request>, steps: seq<PullStep>)
    requires WellFormed(s) && Lawful(s.schema)
    requires AcceptedAt(Run(s, before), r, i) && r.ops[i].mutation.Upsert?
    requires UnnamedOps(r.ops[i + 1..], Target(r.ops[i])) && Unnamed(after, r.user, Target(r.ops[i]))
    requires steps != [] && AllRequests(steps) == before + [r] + after
    requires !Pull(s, r.user, Bootstrap(s, r.user).cursor, steps).hasMore
    ensures
      var snapshot, op := Bootstrap(s, r.user), r.ops[i];
      var pulled := Pull(s, r.user, snapshot.cursor, steps);
      var replica, live := Replay(snapshot.rows, pulled.changes), Live(pulled.server, r.user);
      var existed := VersionAt(Run(s, before), r, i) > 1;
      && Target(op) in replica && Shows(AsLogged, s.schema, existed, op, replica[Target(op)].fields)
      && Target(op) in live && Shows(AsStored, s.schema, existed, op, live[Target(op)].fields)
  {
    var p, c, q := AcceptedEntryIsLast(s, before, r, i, after, steps);
    LastChangeWins(Bootstrap(s, r.user).rows, p, c, q);
  }

  // End to end, a DELETE: the entity is then neither on the device nor live on the server.
  lemma {:induction false} AcceptedDeleteReachesDevices(
    s: Server, before: seq<Request>, r: Request, i: nat, after: seq<Request>, steps: seq<PullStep>)
    requires WellFormed(s) && Lawful(s.schema)
    requires AcceptedAt(Run(s, before), r, i) && r.ops[i].mutation.Delete?
    requires UnnamedOps(r.ops[i + 1..], Target(r.ops[i])) && Unnamed(after, r.user, Target(r.ops[i]))
    requires steps != [] && AllRequests(steps) == before + [r] + after
    requires !Pull(s, r.user, Bootstrap(s, r.user).cursor, steps).hasMore
    ensures
      var snapshot := Bootstrap(s, r.user);
      var pulled := Pull(s, r.user, snapshot.cursor, steps);
      && Target(r.ops[i]) !in Replay(snapshot.rows, pulled.changes)
      && Target(r.ops[i]) !in Live(pulled.server, r.user)
  {
    var p, c, q := AcceptedEntryIsLast(s, before, r, i, after, steps);
    LastDeleteWins(Bootstrap(s, r.user).rows, p, c, q);
  }

  lemma {:induction false} RunThree(s: Server, before: seq<Request>, r: Request, after: seq<Request>)
    ensures Run(s, before + [r] + after) == Run(Push(Run(s, before), r).server, after)
  {
    RunConcat(s, before + [r], after);
    RunConcat(s, before, [r]);
    assert [r][1..] == [];
  }

  // The entries after the cursor, split at the accepted one.
  lemma {:induction false} LoggedLast(
      s: Server, at: Server, done: Server, t: Server, user: UserId, cursor: int, ref: Ref)
    requires Ordered(s) && cursor == LastSequence(s.log, user) && s.nextSequence <= at.nextSequence
    requires |done.log| == |at.log| + 1 && done.log[..|at.log|] == at.log
    requires var c := done.log[|at.log|]; c.user == user && c.sequence == at.nextSequence
    requires Extends(done, t) && forall i | 0 <= i < |Appended(done, t)| :: Appended(done, t)[i].ref != ref
    ensures After(t.log, user, cursor)
            == After(at.log, user, cursor) + [done.log[|at.log|]] + After(Appended(done, t), user, cursor)
    ensures forall i | 0 <= i < |After(Appended(done, t), user, cursor)| ::
            After(Appended(done, t), user, cursor)[i].ref != ref
  {
    var c := done.log[|at.log|];
    BootstrapCursor(s, user);
    AfterExtends(done, t, user, cursor);
    assert done.log == at.log + [c];
    AfterGrows(at.log, c, user, cursor);
    AfterMembers(Appended(done, t), user, cursor);
  }
}
