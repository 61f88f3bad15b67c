// Every push is a sequence of four primitive effects on the tables. The whole-run
// claims are proved once over effects and carried to runs of requests from there.
module SyncEffects {
  import opened Wrappers
  import opened SyncModel

  datatype Effect =
    | Write(user: UserId, ref: Ref, row: Row, logged: Fields, mutation: Mutation, now: Time)
    | Smear(user: UserId, ref: Ref, key: Value) // the key left behind by a refused setting update
    | Remember(user: UserId, result: Result)
    | Burn(nextSequence: nat) // sequence numbers consumed by an aborted batch

  // The log shows the columns as logged, the table holds the row as stored.
  function ChangeOf(s: Server, e: Effect): Change
    requires e.Write?
  {
    Change(s.nextSequence, e.user, e.ref, e.mutation, e.row.version, PayloadOf(e.ref, e.row.(fields := e.logged)),
      e.now)
  }

  function Smeared(row: Row, key: Value): Row {
    row.(fields := row.fields["key" := key])
  }

  function Perform(s: Server, e: Effect): Server {
    match e
    case Write(user, ref, row, _, mutation, now) =>
      s.(rows := s.rows[ref := row], log := s.log + [ChangeOf(s, e)], nextSequence := s.nextSequence + 1)
    case Smear(_, ref, key) =>
      if ref in s.rows then s.(rows := s.rows[ref := Smeared(s.rows[ref], key)]) else s
    case Remember(user, result) => s.(ledger := s.ledger[(user, result.operationId) := result])
    case Burn(next) => s.(nextSequence := next)
  }

  // -------------------------------------------------------- forms of columns

  ghost predicate LawfulAt(schema: Schema, kind: EntityType, key: string, v: Value) {
    && StoredAs(schema, kind, key, StoredAs(schema, kind, key, v)) == StoredAs(schema, kind, key, v)
    && StoredAs(schema, kind, key, LoggedAs(schema, kind, key, v)) == StoredAs(schema, kind, key, v)
    && LoggedAs(schema, kind, key, StoredAs(schema, kind, key, v)) == StoredAs(schema, kind, key, v)
  }

  // What a database promises: a stored value is stored and logged as it is, and a logged
  // value would be stored as the value it shows.
  ghost predicate Lawful(schema: Schema) {
    forall kind, key, v :: LawfulAt(schema, kind, key, v)
  }

  // Every column in the form in which it reads back.
  function Settled(schema: Schema, kind: EntityType, fields: Fields): Fields {
    map key | key in fields :: StoredAs(schema, kind, key, fields[key])
  }

  ghost predicate InForm(schema: Schema, kind: EntityType, fields: Fields) {
    Settled(schema, kind, fields) == fields
  }

  // A column that is logged as it is stored.
  predicate PlainAt(schema: Schema, kind: EntityType, fields: Fields, key: string)
    requires key in fields
  {
    LoggedAs(schema, kind, key, fields[key]) == StoredAs(schema, kind, key, fields[key])
  }

  predicate AllPlain(schema: Schema, kind: EntityType, fields: Fields) {
    forall key | key in fields :: PlainAt(schema, kind, fields, key)
  }

  // Every column that changes is logged as it is stored.
  predicate PlainChange(schema: Schema, kind: EntityType, before: Fields, after: Fields) {
    forall key | key in after :: SameAt(before, after, key) || PlainAt(schema, kind, after, key)
  }

  lemma {:induction false} FormsAgree(schema: Schema, kind: EntityType, before: Fields, after: Fields)
    requires Lawful(schema)
    ensures Settled(schema, kind, LoggedFields(schema, kind, before, after))
            == Settled(schema, kind, StoredFields(schema, kind, before, after))
    ensures InForm(schema, kind, before) ==> InForm(schema, kind, StoredFields(schema, kind, before, after))
  {
    var logged, stored := LoggedFields(schema, kind, before, after), StoredFields(schema, kind, before, after);
    forall key | key in after
      ensures StoredAs(schema, kind, key, logged[key]) == StoredAs(schema, kind, key, stored[key])
      ensures InForm(schema, kind, before) ==> StoredAs(schema, kind, key, stored[key]) == stored[key]
    {
      assert LawfulAt(schema, kind, key, after[key]);
      if InForm(schema, kind, before) && SameAt(before, after, key) {
        assert Settled(schema, kind, before)[key] == before[key];
      }
    }
  }

  lemma {:induction false} PlainIff(schema: Schema, kind: EntityType, before: Fields, after: Fields)
    ensures LoggedFields(schema, kind, before, after) == StoredFields(schema, kind, before, after)
            <==> PlainChange(schema, kind, before, after)
  {
    var logged, stored := LoggedFields(schema, kind, before, after), StoredFields(schema, kind, before, after);
    if logged == stored {
      forall key | key in after ensures SameAt(before, after, key) || PlainAt(schema, kind, after, key) {
        assert logged[key] == stored[key];
      }
    }
    if PlainChange(schema, kind, before, after) {
      forall key | key in after ensures logged[key] == stored[key] {
        assert SameAt(before, after, key) || PlainAt(schema, kind, after, key);
      }
    }
  }

  lemma {:induction false} SameColumnsStay(schema: Schema, kind: EntityType, fields: Fields)
    ensures LoggedFields(schema, kind, fields, fields) == fields && StoredFields(schema, kind, fields, fields) == fields
  {
  }

  // Ids and setting keys are stored as they are.
  lemma {:induction false} KeptColumnsStay(schema: Schema, kind: EntityType, before: Fields, after: Fields, key: string)
    requires key in KEPT_COLUMNS
    ensures SameEntry(StoredFields(schema, kind, before, after), after, key)
  {
  }

  // A new setting key is stored as it is, and nothing else of a refused update is written.
  lemma {:induction false} KeyIsStored(schema: Schema, kind: EntityType, fields: Fields, key: Value)
    ensures StoredFields(schema, kind, fields, fields["key" := key]) == fields["key" := key]
  {
    var after := fields["key" := key];
    forall k | k in after ensures StoredFields(schema, kind, fields, after)[k] == after[k] {
      if k != "key" {
        assert SameAt(fields, after, k);
      }
    }
  }

  // So whether two rows clash, and what a row points to, does not depend on the form.
  lemma {:induction false} StoredClashes(s: Server, ref: Ref, row: Row, other: Ref, otherRow: Row)
    ensures Clash(ref, StoredRow(s, ref, row), other, otherRow) <==> Clash(ref, row, other, otherRow)
  {
    var before := FieldsOf(s.rows, ref);
    KeptColumnsStay(s.schema, ref.kind, before, row.fields, "watchlist_id");
    KeptColumnsStay(s.schema, ref.kind, before, row.fields, "security_id");
    KeptColumnsStay(s.schema, ref.kind, before, row.fields, "key");
  }

  lemma {:induction false} StoredParents(s: Server, ref: Ref, row: Row)
    ensures SameParents(row.fields, StoredRow(s, ref, row).fields)
  {
    var before := FieldsOf(s.rows, ref);
    KeptColumnsStay(s.schema, ref.kind, before, row.fields, "watchlist_id");
    KeptColumnsStay(s.schema, ref.kind, before, row.fields, "portfolio_id");
  }

  predicate SameEntry(a: Fields, b: Fields, key: string) {
    (key in a <==> key in b) && (key in a && key in b ==> a[key] == b[key])
  }

  // The two columns that name a parent row.
  predicate SameParents(a: Fields, b: Fields) {
    SameEntry(a, b, "watchlist_id") && SameEntry(a, b, "portfolio_id")
  }

  predicate PointsTo(rows: map<Ref, Row>, owner: UserId, fields: Fields, key: string, kind: EntityType) {
    key in fields && fields[key].Uid? ==>
      Ref(kind, fields[key].id) in rows && rows[Ref(kind, fields[key].id)].owner == owner
  }

  // Every parent id names an existing row of the same owner; items and transactions have one.
  predicate ParentsOwned(rows: map<Ref, Row>, ref: Ref, row: Row) {
    && PointsTo(rows, row.owner, row.fields, "watchlist_id", Watchlist)
    && PointsTo(rows, row.owner, row.fields, "portfolio_id", Portfolio)
    && (ref.kind.WatchlistItem? ==> "watchlist_id" in row.fields && row.fields["watchlist_id"].Uid?)
    && (ref.kind.PortfolioTransaction? ==> "portfolio_id" in row.fields && row.fields["portfolio_id"].Uid?)
  }

  ghost predicate NoClash(rows: map<Ref, Row>, ref: Ref, row: Row) {
    forall other | other in rows :: !Clash(ref, row, other, rows[other])
  }

  ghost predicate LegalWrite(s: Server, e: Effect)
    requires e.Write?
  {
    && e.row.owner == e.user
    && !e.ref.kind.UnknownEntity?
    && (Lawful(s.schema) ==> Settled(s.schema, e.ref.kind, e.logged) == Settled(s.schema, e.ref.kind, e.row.fields))
    && (Lawful(s.schema) && InForm(s.schema, e.ref.kind, FieldsOf(s.rows, e.ref))
       ==> InForm(s.schema, e.ref.kind, e.row.fields))
    && (e.mutation.Delete? <==> e.row.deletedAt.Some?)
    && if e.ref in s.rows then
         var prior := s.rows[e.ref];
         && prior.owner == e.user
         && e.row.version == prior.version + 1
         && (e.mutation.Delete? ==> e.row.fields == prior.fields)
         && (!e.mutation.Delete? ==> prior.deletedAt.None?)
         && SameParents(prior.fields, e.row.fields)
         && (e.row.fields != prior.fields ==> NoClash(s.rows, e.ref, e.row))
       else
         && e.row.version == 1
         && !e.mutation.Delete?
         && ParentsOwned(s.rows, e.ref, e.row)
         && NoClash(s.rows, e.ref, e.row)
  }

  ghost predicate LegalSmear(s: Server, e: Effect)
    requires e.Smear?
  {
    && e.ref in s.rows
    && e.ref.kind.UserSetting?
    && s.rows[e.ref].owner == e.user
    && s.rows[e.ref].deletedAt.None?
    && Smeared(s.rows[e.ref], e.key) != s.rows[e.ref]
    && NoClash(s.rows, e.ref, Smeared(s.rows[e.ref], e.key))
  }

  ghost predicate Legal(s: Server, e: Effect) {
    match e
    case Write(_, _, _, _, _, _) => LegalWrite(s, e)
    case Smear(_, _, _) => LegalSmear(s, e)
    case Remember(user, result) => (user, result.operationId) !in s.ledger
    case Burn(next) => next >= s.nextSequence
  }

  function PerformAll(s: Server, es: seq<Effect>): Server
    decreases |es|
  {
    if es == [] then s else PerformAll(Perform(s, es[0]), es[1..])
  }

  ghost predicate AllLegal(s: Server, es: seq<Effect>)
    decreases |es|
  {
    es == [] || (Legal(s, es[0]) && AllLegal(Perform(s, es[0]), es[1..]))
  }

  lemma {:induction false} Chain(s: Server, es: seq<Effect>, fs: seq<Effect>)
    ensures PerformAll(s, es + fs) == PerformAll(PerformAll(s, es), fs)
    ensures AllLegal(s, es + fs) <==> AllLegal(s, es) && AllLegal(PerformAll(s, es), fs)
    decreases |es|
  {
    if es == [] {
      assert es + fs == fs;
    } else {
      assert (es + fs)[0] == es[0] && (es + fs)[1..] == es[1..] + fs;
      Chain(Perform(s, es[0]), es[1..], fs);
    }
  }

  // ------------------------------------------------ from code to effects

  // The update that writes a new setting key and then refuses a null value.
  predicate DirtyRefusal(s: Server, user: UserId, op: Operation) {
    var ref := Ref(op.kind, op.entityId);
    && op.kind.UserSetting?
    && op.mutation.Upsert?
    && ref in s.rows
    && s.rows[ref].owner == user
    && s.rows[ref].version == op.baseVersion
    && s.rows[ref].deletedAt.None?
    && "key" in op.payload
    && !ForbiddenKey(op.payload["key"])
    && Hashable(op.payload["key"])
    && !("key" in s.rows[ref].fields && s.rows[ref].fields["key"] == op.payload["key"])
    && "value" in op.payload
    && op.payload["value"].Null?
  }

  // The columns of its payload that an UPSERT of an existing row assigns.
  function SentColumns(env: Env, kind: EntityType, payload: Fields): Fields {
    (map key | key in payload && key in MutableKeys(kind) :: payload[key])
    + (if kind.PortfolioTransaction? && ToTime(env, GetOr(payload, "executed_at", Null)).Some?
       then map["executed_at" := Stamp(ToTime(env, payload["executed_at"]).value)] else map[])
    + (if kind.UserSetting? && "key" in payload then map["key" := payload["key"]] else map[])
    + if kind.UserSetting? && "value" in payload then map["value" := Wrapped(payload["value"])] else map[]
  }

  // The columns the UPSERT assigns, to an existing or to a new row.
  function Assigned(env: Env, s: Server, op: Operation, now: Time): Fields {
    if Target(op) in s.rows then SentColumns(env, op.kind, op.payload) else NewColumns(env, op.kind, op.payload, now)
  }

  function Target(op: Operation): Ref {
    Ref(op.kind, op.entityId)
  }

  // Whether the operation passes every check on the way to ACCEPTED.
  predicate Accepts(env: Env, s: Server, user: UserId, op: Operation, now: Time) {
    var ref := Target(op);
    && !op.kind.UnknownEntity? && !op.mutation.UnknownMutation?
    && if ref in s.rows then
         && s.rows[ref].owner == user && s.rows[ref].version == op.baseVersion
         && (op.mutation.Delete?
            || (s.rows[ref].deletedAt.None? && UpdateFields(env, op.kind, s.rows[ref].fields, op.payload).Changed?))
       else
         op.mutation.Upsert? && BuildFields(env, s.rows, user, op.kind, op.payload, now).Built?
  }

  // The accepted UPSERT that changes a column to a value logged otherwise than stored,
  // such as a price that does not have the scale of its column.
  predicate RawWrite(env: Env, s: Server, user: UserId, op: Operation, now: Time) {
    && op.mutation.Upsert?
    && Accepts(env, s, user, op, now)
    && !PlainChange(s.schema, op.kind, FieldsOf(s.rows, Target(op)), Assigned(env, s, op, now))
  }

  // What a caller can check without the tables. The payload never pairs a setting key with
  // a null value, and every column it may assign is logged as it is stored.
  predicate SafePayload(op: Operation) {
    op.kind.UserSetting? && "key" in op.payload && "value" in op.payload ==> !op.payload["value"].Null?
  }

  predicate PlainPayload(schema: Schema, env: Env, op: Operation, now: Time) {
    op.mutation.Upsert? ==>
      && AllPlain(schema, op.kind, SentColumns(env, op.kind, op.payload))
      && AllPlain(schema, op.kind, NewColumns(env, op.kind, op.payload, now))
  }

  // The fields an update leaves behind, changed or refused.
  function LeftFields(u: Update, fields: Fields): Fields {
    match u
    case Changed(after) => after
    case Declined(after) => after
    case Fails => fields
  }

  lemma {:induction false} UpdateKeepsParents(env: Env, kind: EntityType, fields: Fields, payload: Fields)
    ensures SameParents(fields, LeftFields(UpdateFields(env, kind, fields, payload), fields))
  {
    ParentsAreNotMutable(kind);
    OverwriteReads(fields, payload, MutableKeys(kind), "watchlist_id");
    OverwriteReads(fields, payload, MutableKeys(kind), "portfolio_id");
  }

  lemma {:induction false} OverwriteReads(fields: Fields, payload: Fields, keys: seq<string>, key: string)
    ensures if key in keys && key in payload then SameEntry(Overwrite(fields, payload, keys), payload, key)
            else SameEntry(Overwrite(fields, payload, keys), fields, key)
    decreases |keys|
  {
    if keys != [] {
      var first := if keys[0] in payload then fields[keys[0] := payload[keys[0]]] else fields;
      OverwriteReads(first, payload, keys[1..], key);
    }
  }

  lemma {:induction false} OverwriteIsMerge(fields: Fields, payload: Fields, keys: seq<string>)
    ensures Overwrite(fields, payload, keys) == fields + map key | key in payload && key in keys :: payload[key]
  {
    var merged := fields + map key | key in payload && key in keys :: payload[key];
    forall key ensures SameEntry(Overwrite(fields, payload, keys), merged, key) {
      OverwriteReads(fields, payload, keys, key);
    }
    SameEntriesSame(Overwrite(fields, payload, keys), merged);
  }

  lemma {:induction false} SameEntriesSame(a: Fields, b: Fields)
    requires forall key :: SameEntry(a, b, key)
    ensures a == b
  {
    forall key ensures key in a <==> key in b {
      assert SameEntry(a, b, key);
    }
    forall key | key in a ensures a[key] == b[key] {
      assert SameEntry(a, b, key);
    }
  }

  lemma {:induction false} SettingIsSent(env: Env, fields: Fields, payload: Fields)
    requires UpdateSetting(fields, payload).Changed?
    ensures UpdateSetting(fields, payload).fields == fields + SentColumns(env, UserSetting, payload)
  {
    assert (map key | key in payload && key in MutableKeys(UserSetting) :: payload[key]) == map[];
  }

  lemma {:induction false} MergeThenSet(fields: Fields, sent: Fields, key: string, v: Value)
    ensures (fields + sent)[key := v] == fields + (sent + map[key := v])
  {
  }

  lemma {:induction false} TransactionIsSent(env: Env, fields: Fields, payload: Fields)
    requires UpdateFields(env, PortfolioTransaction, fields, payload).Changed?
    ensures UpdateFields(env, PortfolioTransaction, fields, payload).fields
            == fields + SentColumns(env, PortfolioTransaction, payload)
  {
    var sent := map key | key in payload && key in MutableKeys(PortfolioTransaction) :: payload[key];
    OverwriteIsMerge(fields, payload, MutableKeys(PortfolioTransaction));
    if IsString(GetOr(payload, "executed_at", Null)) {
      MergeThenSet(fields, sent, "executed_at", Stamp(ToTime(env, payload["executed_at"]).value));
    }
  }

  lemma {:induction false} OthersAreSent(env: Env, kind: EntityType, fields: Fields, payload: Fields)
    requires !kind.UserSetting? && !kind.PortfolioTransaction? && UpdateFields(env, kind, fields, payload).Changed?
    ensures UpdateFields(env, kind, fields, payload).fields == fields + SentColumns(env, kind, payload)
  {
    OverwriteIsMerge(fields, payload, MutableKeys(kind));
  }

  // An update assigns exactly the columns it was sent.
  lemma {:induction false} UpdateIsSent(env: Env, kind: EntityType, fields: Fields, payload: Fields)
    requires UpdateFields(env, kind, fields, payload).Changed?
    ensures UpdateFields(env, kind, fields, payload).fields == fields + SentColumns(env, kind, payload)
  {
    match kind
    case UserSetting => SettingIsSent(env, fields, payload);
    case PortfolioTransaction => TransactionIsSent(env, fields, payload);
    case _ => OthersAreSent(env, kind, fields, payload);
  }

  // A created row has exactly the new columns.
  lemma {:induction false} BuiltIsNew(
      env: Env, rows: map<Ref, Row>, user: UserId, kind: EntityType, payload: Fields, now: Time)
    requires BuildFields(env, rows, user, kind, payload, now).Built?
    ensures BuildFields(env, rows, user, kind, payload, now).fields == NewColumns(env, kind, payload, now)
  {
  }

  lemma {:induction false} ItemOwnsParents(
      env: Env, rows: map<Ref, Row>, user: UserId, ref: Ref, payload: Fields, now: Time)
    requires ref.kind.WatchlistItem? && BuildItem(env, rows, user, payload).Built?
    ensures ParentsOwned(rows, ref, Row(user, 1, now, None, ItemFields(payload)))
  {
    var fields := ItemFields(payload);
    assert fields["watchlist_id"] == GetOr(payload, "watchlist_id", Null);
    assert "portfolio_id" !in fields;
  }

  lemma {:induction false} TransactionOwnsParents(
      env: Env, rows: map<Ref, Row>, user: UserId, ref: Ref, payload: Fields, now: Time)
    requires ref.kind.PortfolioTransaction? && BuildTransaction(env, rows, user, payload, now).Built?
    ensures ParentsOwned(rows, ref, Row(user, 1, now, None, TransactionFields(env, payload, now)))
  {
    var fields := TransactionFields(env, payload, now);
    assert fields["portfolio_id"] == GetOr(payload, "portfolio_id", Null);
    assert "watchlist_id" !in fields;
  }

  lemma {:induction false} ParentsAreNotMutable(kind: EntityType)
    ensures "watchlist_id" !in MutableKeys(kind) && "portfolio_id" !in MutableKeys(kind)
  {
  }

  lemma {:induction false} RuleFieldsKeepParents(payload: Fields)
    ensures var fields := RuleFields(payload);
            && "portfolio_id" in fields
            && fields["portfolio_id"] == OptionalId(ScopedId(payload, "portfolio_id", "PORTFOLIO"))
            && "watchlist_id" in fields
            && fields["watchlist_id"] == OptionalId(ScopedId(payload, "watchlist_id", "WATCHLIST"))
  {
    ParentsAreNotMutable(AlertRule);
  }

  lemma {:induction false} RuleOwnsParents(
      env: Env, rows: map<Ref, Row>, user: UserId, ref: Ref, payload: Fields, now: Time)
    requires ref.kind.AlertRule? && BuildRule(env, rows, user, payload).Built?
    ensures ParentsOwned(rows, ref, Row(user, 1, now, None, RuleFields(payload)))
  {
    RuleFieldsKeepParents(payload);
  }

  lemma {:induction false} BuildOwnsParents(
      env: Env, rows: map<Ref, Row>, user: UserId, ref: Ref, payload: Fields, now: Time)
    requires BuildFields(env, rows, user, ref.kind, payload, now).Built?
    ensures ParentsOwned(rows, ref,
            Row(user, 1, now, None, BuildFields(env, rows, user, ref.kind, payload, now).fields))
  {
    match ref.kind
    case WatchlistItem => ItemOwnsParents(env, rows, user, ref, payload, now);
    case PortfolioTransaction => TransactionOwnsParents(env, rows, user, ref, payload, now);
    case AlertRule => RuleOwnsParents(env, rows, user, ref, payload, now);
    case _ =>
  }

  // Writing back what is already there changes nothing.
  lemma {:induction false} WriteBack(s: Server, ref: Ref, key: Value)
    requires ref in s.rows
    ensures s.(rows := s.rows[ref := s.rows[ref].(fields := s.rows[ref].fields)]) == s
    ensures "key" in s.rows[ref].fields && s.rows[ref].fields["key"] == key ==>
              s.rows[ref].fields["key" := key] == s.rows[ref].fields
  {
    assert s.rows[ref := s.rows[ref]] == s.rows;
  }

  lemma {:induction false} PlainMerge(schema: Schema, kind: EntityType, before: Fields, columns: Fields)
    ensures PlainChange(schema, kind, before, before + columns) <==> PlainChange(schema, kind, before, columns)
  {
    var after := before + columns;
    forall key | key in columns
      ensures SameAt(before, after, key) <==> SameAt(before, columns, key)
      ensures PlainAt(schema, kind, after, key) <==> PlainAt(schema, kind, columns, key)
    {
    }
    forall key | key in after && key !in columns ensures SameAt(before, after, key) {
    }
    if PlainChange(schema, kind, before, after) {
      forall key | key in columns ensures SameAt(before, columns, key) || PlainAt(schema, kind, columns, key) {
        assert SameAt(before, after, key) || PlainAt(schema, kind, after, key);
      }
    }
  }

  // What may be committed: the sent row, against the table as it is.
  ghost predicate Committable(s: Server, user: UserId, mutation: Mutation, ref: Ref, row: Row) {
    && row.owner == user
    && !ref.kind.UnknownEntity?
    && (mutation.Delete? <==> row.deletedAt.Some?)
    && if ref in s.rows then
         var prior := s.rows[ref];
         && prior.owner == user
         && row.version == prior.version + 1
         && (mutation.Delete? ==> row.fields == prior.fields)
         && (!mutation.Delete? ==> prior.deletedAt.None?)
         && SameParents(prior.fields, row.fields)
         && (row.fields != prior.fields ==> NoClash(s.rows, ref, row))
       else
         row.version == 1 && !mutation.Delete? && ParentsOwned(s.rows, ref, row) && NoClash(s.rows, ref, row)
  }

  // A commit is one legal write, logged as it is stored exactly when the change is plain.
  lemma {:induction false} CommitEffect(
      s: Server, user: UserId, mutation: Mutation, ref: Ref, row: Row, now: Time) returns (e: Effect)
    requires Committable(s, user, mutation, ref, row)
    ensures e == Write(user, ref, StoredRow(s, ref, row), LoggedRow(s, ref, row).fields, mutation, now)
    ensures Legal(s, e) && Perform(s, e) == Commit(s, user, mutation, ref, row, now).server
    ensures e.logged == e.row.fields <==> PlainChange(s.schema, ref.kind, FieldsOf(s.rows, ref), row.fields)
  {
    var before := FieldsOf(s.rows, ref);
    e := Write(user, ref, StoredRow(s, ref, row), LoggedRow(s, ref, row).fields, mutation, now);
    SameColumnsStay(s.schema, ref.kind, before);
    StoredParents(s, ref, row);
    PlainIff(s.schema, ref.kind, before, row.fields);
    if NoClash(s.rows, ref, row) {
      forall other | other in s.rows ensures !Clash(ref, e.row, other, s.rows[other]) {
        StoredClashes(s, ref, row, other, s.rows[other]);
      }
    }
    if Lawful(s.schema) {
      FormsAgree(s.schema, ref.kind, before, row.fields);
      assert InForm(s.schema, ref.kind, before) ==> InForm(s.schema, ref.kind, e.row.fields);
    }
    assert e.row.(fields := e.logged) == LoggedRow(s, ref, row);
  }

  // The row an accepted operation commits.
  function Sent(env: Env, s: Server, user: UserId, op: Operation, now: Time): Row
    requires Accepts(env, s, user, op, now)
  {
    var ref := Target(op);
    if ref !in s.rows then Row(user, 1, now, None, NewColumns(env, op.kind, op.payload, now))
    else if op.mutation.Delete?
      then s.rows[ref].(deletedAt := Some(now), updatedAt := now, version := s.rows[ref].version + 1)
    else
      s.rows[ref].(
        fields := s.rows[ref].fields + SentColumns(env, op.kind, op.payload), updatedAt := now,
        version := s.rows[ref].version + 1)
  }

  // An operation is ACCEPTED exactly when it passes the checks, and then commits that row.
  lemma {:induction false} AcceptedIff(env: Env, s: Server, user: UserId, op: Operation, now: Time)
    requires Decide(env, s, user, op, now).Decided?
    ensures Decide(env, s, user, op, now).verdict.Accepted? <==> Accepts(env, s, user, op, now)
    ensures Accepts(env, s, user, op, now) ==>
              && Committable(s, user, op.mutation, Target(op), Sent(env, s, user, op, now))
              && Decide(env, s, user, op, now)
                 == Commit(s, user, op.mutation, Target(op), Sent(env, s, user, op, now), now)
  {
    var ref := Target(op);
    if Accepts(env, s, user, op, now) {
      if ref in s.rows {
        if op.mutation.Upsert? {
          UpdateIsSent(env, op.kind, s.rows[ref].fields, op.payload);
          UpdateKeepsParents(env, op.kind, s.rows[ref].fields, op.payload);
        }
      } else {
        BuiltIsNew(env, s.rows, user, op.kind, op.payload, now);
        BuildOwnsParents(env, s.rows, user, ref, op.payload, now);
      }
    }
  }

  lemma {:induction false} SentIsPlainIff(env: Env, s: Server, user: UserId, op: Operation, now: Time)
    requires Accepts(env, s, user, op, now)
    ensures PlainChange(s.schema, op.kind, FieldsOf(s.rows, Target(op)), Sent(env, s, user, op, now).fields)
            <==> !RawWrite(env, s, user, op, now)
  {
    var before := FieldsOf(s.rows, Target(op));
    if op.mutation.Upsert? {
      PlainMerge(s.schema, op.kind, before, Assigned(env, s, op, now));
      assert map[] + Assigned(env, s, op, now) == Assigned(env, s, op, now);
    } else {
      forall key | key in before ensures SameAt(before, before, key) {
      }
    }
  }

  lemma {:induction false} OneEffect(s: Server, e: Effect)
    requires Legal(s, e)
    ensures AllLegal(s, [e]) && PerformAll(s, [e]) == Perform(s, e)
  {
    assert [e][1..] == [];
  }

  // One decided operation is at most one effect: a write exactly when it is ACCEPTED,
  // logged otherwise than stored exactly when it is raw, and a smear exactly when it is a
  // dirty refusal.
  lemma {:induction false} DecideEffect(
      env: Env, s: Server, user: UserId, op: Operation, now: Time) returns (es: seq<Effect>)
    requires Decide(env, s, user, op, now).Decided?
    ensures AllLegal(s, es)
    ensures PerformAll(s, es) == Decide(env, s, user, op, now).server
    ensures
      var verdict := Decide(env, s, user, op, now).verdict;
      && (verdict.Accepted? ==>
            && |es| == 1 && es[0].Write? && es[0].user == user && es[0].ref == Target(op)
            && es[0].row.version == verdict.newVersion && verdict.serverCursor == s.nextSequence
            && verdict.acceptedId == op.entityId
            && (es[0].ref in s.rows ==> s.rows[es[0].ref].version == op.baseVersion)
            && (es[0].logged == es[0].row.fields <==> !RawWrite(env, s, user, op, now)))
      && (!verdict.Accepted? ==> es == [] || (verdict.Rejected? && |es| == 1 && es[0].Smear?
                                              && es[0].ref == Target(op) && es[0].user == user))
      && ((|es| == 1 && es[0].Smear?) <==> DirtyRefusal(s, user, op))
  {
    var ref := Target(op);
    AcceptedIff(env, s, user, op, now);
    if Accepts(env, s, user, op, now) {
      var e := CommitEffect(s, user, op.mutation, ref, Sent(env, s, user, op, now), now);
      SentIsPlainIff(env, s, user, op, now);
      AcceptedIsClean(env, s, user, op, now);
      OneEffect(s, e);
      es := [e];
    } else if DirtyRefusal(s, user, op) {
      var e := Smear(user, ref, op.payload["key"]);
      SmearIsLegal(env, s, user, op, now);
      OneEffect(s, e);
      es := [e];
    } else {
      RefusedLeavesServer(env, s, user, op, now);
      es := [];
    }
  }

  lemma {:induction false} AcceptedIsClean(env: Env, s: Server, user: UserId, op: Operation, now: Time)
    requires Accepts(env, s, user, op, now)
    ensures !DirtyRefusal(s, user, op)
  {
  }

  lemma {:induction false} SmearIsLegal(env: Env, s: Server, user: UserId, op: Operation, now: Time)
    requires DirtyRefusal(s, user, op) && Decide(env, s, user, op, now).Decided?
    ensures var e := Smear(user, Target(op), op.payload["key"]);
            Legal(s, e) && Decide(env, s, user, op, now) == Decided(Perform(s, e), Rejected)
  {
    var ref := Target(op);
    var row := s.rows[ref];
    assert UpdateSetting(row.fields, op.payload) == Declined(row.fields["key" := op.payload["key"]]);
    KeyIsStored(s.schema, op.kind, row.fields, op.payload["key"]);
    assert Smeared(row, op.payload["key"]).fields["key"] != GetOr(row.fields, "key", Null) || "key" !in row.fields;
  }

  lemma {:induction false} RefusedLeavesServer(env: Env, s: Server, user: UserId, op: Operation, now: Time)
    requires Decide(env, s, user, op, now).Decided?
    requires !Accepts(env, s, user, op, now) && !DirtyRefusal(s, user, op)
    ensures Decide(env, s, user, op, now).server == s && !Decide(env, s, user, op, now).verdict.Accepted?
  {
    var ref := Target(op);
    if ref in s.rows {
      WriteBack(s, ref, GetOr(op.payload, "key", Null));
      SameColumnsStay(s.schema, op.kind, s.rows[ref].fields);
    }
  }

  ghost predicate NoSmear(es: seq<Effect>) {
    forall e | e in es :: !e.Smear?
  }

  // No write is logged otherwise than stored.
  ghost predicate NoRaw(es: seq<Effect>) {
    forall e | e in es :: e.Write? ==> e.logged == e.row.fields
  }

  // What operation may have caused the effect: it names the row, a smear needs a payload
  // that is not safe, and a write logged otherwise than stored one that is not plain.
  ghost predicate CausedByOp(schema: Schema, e: Effect, env: Env, op: Operation, now: Time) {
    && (e.Write? || e.Smear? ==> Target(op) == e.ref)
    && (e.Smear? ==> !SafePayload(op))
    && (e.Write? && e.logged != e.row.fields ==> !PlainPayload(schema, env, op, now))
  }

  ghost predicate CausedBy(schema: Schema, e: Effect, env: Env, user: UserId, ops: seq<Operation>, now: Time) {
    e.Burn? || (e.user == user && exists j | 0 <= j < |ops| :: CausedByOp(schema, e, env, ops[j], now))
  }

  ghost predicate AllCaused(schema: Schema, es: seq<Effect>, env: Env, user: UserId, ops: seq<Operation>, now: Time) {
    forall e | e in es :: CausedBy(schema, e, env, user, ops, now)
  }

  ghost predicate CausedByRequest(schema: Schema, e: Effect, r: Request) {
    CausedBy(schema, e, r.env, r.user, r.ops, r.now)
  }

  ghost predicate CausedByRun(schema: Schema, es: seq<Effect>, requests: seq<Request>) {
    forall e | e in es :: exists k | 0 <= k < |requests| :: CausedByRequest(schema, e, requests[k])
  }

  lemma {:induction false} CausedByFirst(
      schema: Schema, es: seq<Effect>, env: Env, user: UserId, ops: seq<Operation>, now: Time)
    requires ops != [] && AllCaused(schema, es, env, user, [ops[0]], now)
    ensures AllCaused(schema, es, env, user, ops, now)
  {
    forall e | e in es ensures CausedBy(schema, e, env, user, ops, now) {
      if !e.Burn? {
        assert CausedByOp(schema, e, env, [ops[0]][0], now);
        assert CausedByOp(schema, e, env, ops[0], now);
      }
    }
  }

  lemma {:induction false} CausedByRest(
      schema: Schema, es: seq<Effect>, env: Env, user: UserId, ops: seq<Operation>, now: Time)
    requires ops != [] && AllCaused(schema, es, env, user, ops[1..], now)
    ensures AllCaused(schema, es, env, user, ops, now)
  {
    forall e | e in es ensures CausedBy(schema, e, env, user, ops, now) {
      if !e.Burn? {
        var j :| 0 <= j < |ops[1..]| && CausedByOp(schema, e, env, ops[1..][j], now);
        assert CausedByOp(schema, e, env, ops[j + 1], now);
      }
    }
  }

  ghost predicate ByUser(es: seq<Effect>, user: UserId) {
    forall e | e in es :: e.Burn? || e.user == user
  }

  predicate SafeOps(ops: seq<Operation>) {
    forall op | op in ops :: SafePayload(op)
  }

  predicate SafeRequests(requests: seq<Request>) {
    forall i | 0 <= i < |requests| :: SafeOps(requests[i].ops)
  }

  predicate PlainOps(schema: Schema, env: Env, ops: seq<Operation>, now: Time) {
    forall op | op in ops :: PlainPayload(schema, env, op, now)
  }

  predicate PlainRequests(schema: Schema, requests: seq<Request>) {
    forall i | 0 <= i < |requests| :: PlainOps(schema, requests[i].env, requests[i].ops, requests[i].now)
  }

  lemma {:induction false} PlainPayloadIsNotRaw(env: Env, s: Server, user: UserId, op: Operation, now: Time)
    requires PlainPayload(s.schema, env, op, now)
    ensures !RawWrite(env, s, user, op, now)
  {
    if op.mutation.Upsert? {
      var columns := Assigned(env, s, op, now);
      assert AllPlain(s.schema, op.kind, columns);
      forall key | key in columns ensures PlainAt(s.schema, op.kind, columns, key) {
      }
    }
  }

  lemma {:induction false} SchemaStays(s: Server, es: seq<Effect>)
    ensures PerformAll(s, es).schema == s.schema
    decreases |es|
  {
    if es != [] {
      SchemaStays(Perform(s, es[0]), es[1..]);
    }
  }

  predicate AllFrom(requests: seq<Request>, user: UserId) {
    forall i | 0 <= i < |requests| :: requests[i].user == user
  }

  lemma {:induction false} ApplyEffects(
      env: Env, s: Server, user: UserId, op: Operation, now: Time, prior: Option<Result>)
    returns (es: seq<Effect>)
    requires Apply(env, s, user, op, now, prior).Applied?
    ensures AllLegal(s, es) && PerformAll(s, es) == Apply(env, s, user, op, now, prior).server
    ensures AllCaused(s.schema, es, env, user, [op], now)
  {
    if prior.Some? {
      es := [];
    } else {
      var d := Decide(env, s, user, op, now);
      var ds := DecideEffect(env, s, user, op, now);
      var e := Remember(user, Result(op.id, d.verdict));
      OneEffect(d.server, e);
      Chain(s, ds, [e]);
      es := ds + [e];
      if op.kind.UserSetting? && SafePayload(op) {
        assert !DirtyRefusal(s, user, op);
      }
      if PlainPayload(s.schema, env, op, now) {
        PlainPayloadIsNotRaw(env, s, user, op, now);
      }
      forall x | x in es ensures CausedBy(s.schema, x, env, user, [op], now) {
        assert CausedByOp(s.schema, x, env, [op][0], now);
      }
    }
  }

  lemma {:induction false} ApplyAllEffects(
      env: Env, s: Server, user: UserId, priors: Priors, ops: seq<Operation>, now: Time)
    returns (es: seq<Effect>)
    requires ApplyAll(env, s, user, priors, ops, now).Done?
    ensures AllLegal(s, es) && PerformAll(s, es) == ApplyAll(env, s, user, priors, ops, now).server
    ensures AllCaused(s.schema, es, env, user, ops, now)
    decreases |ops|
  {
    if ops == [] {
      es := [];
    } else {
      var prior := PriorOf(priors, ops[0].id);
      var head := ApplyEffects(env, s, user, ops[0], now, prior);
      var s1 := Apply(env, s, user, ops[0], now, prior).server;
      SchemaStays(s, head);
      var tail := ApplyAllEffects(env, s1, user, priors, ops[1..], now);
      Chain(s, head, tail);
      CausedByFirst(s.schema, head, env, user, ops, now);
      CausedByRest(s.schema, tail, env, user, ops, now);
      es := head + tail;
    }
  }

  lemma {:induction false} DecideDraws(env: Env, s: Server, user: UserId, op: Operation, now: Time)
    ensures match Decide(env, s, user, op, now)
            case Raised(next) => next >= s.nextSequence
            case Decided(d, _) => d.nextSequence >= s.nextSequence
  {
  }

  lemma {:induction false} ApplyAllDraws(
      env: Env, s: Server, user: UserId, priors: Priors, ops: seq<Operation>, now: Time)
    ensures match ApplyAll(env, s, user, priors, ops, now)
            case Broken(next) => next >= s.nextSequence
            case Done(d, _) => d.nextSequence >= s.nextSequence
    decreases |ops|
  {
    if ops != [] {
      DecideDraws(env, s, user, ops[0], now);
      var step := Apply(env, s, user, ops[0], now, PriorOf(priors, ops[0].id));
      if step.Applied? {
        ApplyAllDraws(env, step.server, user, priors, ops[1..], now);
      }
    }
  }

  lemma {:induction false} PushEffects(s: Server, r: Request) returns (es: seq<Effect>)
    ensures AllLegal(s, es) && PerformAll(s, es) == Push(s, r).server
    ensures forall e | e in es :: CausedByRequest(s.schema, e, r)
  {
    var priors := PriorsOf(s, r.user, r.ops);
    if !ActiveDevice(r.env, r.user, r.device) {
      es := [];
    } else if ApplyAll(r.env, s, r.user, priors, r.ops, r.now).Broken? {
      ApplyAllDraws(r.env, s, r.user, priors, r.ops, r.now);
      var e := Burn(ApplyAll(r.env, s, r.user, priors, r.ops, r.now).nextSequence);
      OneEffect(s, e);
      es := [e];
    } else {
      es := ApplyAllEffects(r.env, s, r.user, priors, r.ops, r.now);
    }
  }

  // Any run of requests, by any users and devices, is one run of legal effects.
  lemma {:induction false} RunEffects(s: Server, requests: seq<Request>) returns (es: seq<Effect>)
    ensures AllLegal(s, es) && PerformAll(s, es) == Run(s, requests)
    ensures CausedByRun(s.schema, es, requests)
    decreases |requests|
  {
    if requests == [] {
      es := [];
    } else {
      var head := PushEffects(s, requests[0]);
      SchemaStays(s, head);
      var tail := RunEffects(Push(s, requests[0]).server, requests[1..]);
      Chain(s, head, tail);
      es := head + tail;
      CausesCombine(s.schema, head, tail, requests);
    }
  }

  lemma {:induction false} CausesCombine(schema: Schema, head: seq<Effect>, tail: seq<Effect>, requests: seq<Request>)
    requires requests != [] && forall e | e in head :: CausedByRequest(schema, e, requests[0])
    requires CausedByRun(schema, tail, requests[1..])
    ensures CausedByRun(schema, head + tail, requests)
  {
    forall e | e in head + tail ensures exists k | 0 <= k < |requests| :: CausedByRequest(schema, e, requests[k]) {
      if e in head {
        assert CausedByRequest(schema, e, requests[0]);
      } else {
        var k :| 0 <= k < |requests[1..]| && CausedByRequest(schema, e, requests[1..][k]);
        assert CausedByRequest(schema, e, requests[k + 1]);
      }
    }
  }

  lemma {:induction false} CausesAreUsers(schema: Schema, es: seq<Effect>, requests: seq<Request>, user: UserId)
    requires AllFrom(requests, user) && CausedByRun(schema, es, requests)
    ensures ByUser(es, user)
  {
    forall e | e in es ensures e.Burn? || e.user == user {
      var k :| 0 <= k < |requests| && CausedByRequest(schema, e, requests[k]);
    }
  }

  // Safe requests cause no smear, and plain ones no raw write.
  lemma {:induction false} SafeCauses(schema: Schema, es: seq<Effect>, requests: seq<Request>)
    requires CausedByRun(schema, es, requests)
    ensures SafeRequests(requests) ==> NoSmear(es)
    ensures PlainRequests(schema, requests) ==> NoRaw(es)
  {
    forall e | e in es
      ensures SafeRequests(requests) ==> !e.Smear?
      ensures PlainRequests(schema, requests) && e.Write? ==> e.logged == e.row.fields
    {
      var k :| 0 <= k < |requests| && CausedByRequest(schema, e, requests[k]);
      var r := requests[k];
      if !e.Burn? {
        var j :| 0 <= j < |r.ops| && CausedByOp(schema, e, r.env, r.ops[j], r.now);
        assert r.ops[j] in r.ops;
        assert SafeRequests(requests) ==> SafeOps(r.ops);
        assert PlainRequests(schema, requests) ==> PlainOps(schema, r.env, r.ops, r.now);
      }
    }
  }

  // No request of this user names the row.
  predicate Unnamed(requests: seq<Request>, user: UserId, ref: Ref) {
    forall k | 0 <= k < |requests| && requests[k].user == user :: UnnamedOps(requests[k].ops, ref)
  }

  predicate UnnamedOps(ops: seq<Operation>, ref: Ref) {
    forall j | 0 <= j < |ops| :: Target(ops[j]) != ref
  }

  // No effect of this user is on the row.
  ghost predicate Avoids(es: seq<Effect>, user: UserId, ref: Ref) {
    forall e | e in es && (e.Write? || e.Smear?) && e.user == user :: e.ref != ref
  }

  lemma {:induction false} UnnamedIsAvoided(
      schema: Schema, es: seq<Effect>, requests: seq<Request>, user: UserId, ref: Ref)
    requires Unnamed(requests, user, ref) && CausedByRun(schema, es, requests)
    ensures Avoids(es, user, ref)
  {
    forall e | e in es && (e.Write? || e.Smear?) && e.user == user ensures e.ref != ref {
      var k :| 0 <= k < |requests| && CausedByRequest(schema, e, requests[k]);
      var j :| 0 <= j < |requests[k].ops|
        && CausedByOp(schema, e, requests[k].env, requests[k].ops[j], requests[k].now);
      assert UnnamedOps(requests[k].ops, ref);
    }
  }

  lemma {:induction false} UnnamedOpsAreAvoided(
    schema: Schema, es: seq<Effect>, env: Env, user: UserId, ops: seq<Operation>, now: Time, ref: Ref)
    requires UnnamedOps(ops, ref) && AllCaused(schema, es, env, user, ops, now)
    ensures Avoids(es, user, ref)
  {
    forall e | e in es && (e.Write? || e.Smear?) && e.user == user ensures e.ref != ref {
      assert CausedBy(schema, e, env, user, ops, now);
      var j :| 0 <= j < |ops| && CausedByOp(schema, e, env, ops[j], now);
    }
  }
}
