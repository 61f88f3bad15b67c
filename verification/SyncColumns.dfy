// What the columns of a row hold after an accepted operation, column by column and default
// by default.
module SyncColumns {
  import opened Wrappers
  import opened SyncModel
  import opened SyncEffects
  import opened SyncInvariant
  import opened SyncAnswers

  // ------------------------------------------------------------- new columns

  // The value sent, or the default when none was.
  predicate SentOr(fields: Fields, payload: Fields, key: string, default: Value) {
    key in fields && fields[key] == if key in payload then payload[key] else default
  }

  // A number as it is, a flag as 0 or 1, a text as the parser reads it, and 0 when absent.
  predicate IsQuantity(env: Env, payload: Fields, v: Value) {
    if "quantity_shares" !in payload then v == Num(0)
    else
      match payload["quantity_shares"]
      case Num(n) => v == Num(n)
      case Flag(b) => v == Num(if b then 1 else 0)
      case Text(s) => env.parseInt(s).Some? && v == Num(env.parseInt(s).value)
      case _ => false
  }

  // The time that was sent as a text, or now when none was.
  predicate IsExecution(env: Env, payload: Fields, now: Time, v: Value) {
    if "executed_at" in payload && payload["executed_at"].Text?
    then env.parseTime(payload["executed_at"].s).Some? && v == Stamp(env.parseTime(payload["executed_at"].s).value)
    else !("executed_at" in payload && payload["executed_at"].Uid?) && v == Stamp(now)
  }

  predicate HasTruthy(payload: Fields, key: string) {
    key in payload && Truthy(payload[key])
  }

  // An id names the scope of a rule directly, or through `scope_id` and a scope type, which
  // is SECURITY by default.
  predicate Scopes(payload: Fields, key: string, scope: string, v: Value) {
    if HasTruthy(payload, key) then v == payload[key]
    else
      && HasTruthy(payload, "scope_id") && v == payload["scope_id"]
      && (if "scope_type" in payload then payload["scope_type"] == Text(scope) else scope == "SECURITY")
  }

  ghost predicate ScopeColumn(fields: Fields, payload: Fields, key: string, scope: string) {
    && key in fields
    && (fields[key].Uid? ==> Scopes(payload, key, scope, fields[key]))
    && (!fields[key].Uid? ==> fields[key].Null? && forall v: Id :: !Scopes(payload, key, scope, Uid(v)))
  }

  ghost predicate NewItem(payload: Fields, fields: Fields) {
    && fields.Keys == {"watchlist_id", "security_id", "sort_order", "note", "target_price", "stop_price", "add_price"}
    && SentOr(fields, payload, "watchlist_id", Null)
    && SentOr(fields, payload, "security_id", Null)
    && SentOr(fields, payload, "sort_order", Num(0))
    && SentOr(fields, payload, "note", Null)
    && SentOr(fields, payload, "target_price", Null)
    && SentOr(fields, payload, "stop_price", Null)
    && SentOr(fields, payload, "add_price", Null)
  }

  ghost predicate NewTransaction(env: Env, payload: Fields, now: Time, fields: Fields) {
    && fields.Keys
       == {"portfolio_id", "security_id", "side", "executed_at", "quantity_shares", "price", "fee", "lot_type"}
    && SentOr(fields, payload, "portfolio_id", Null)
    && SentOr(fields, payload, "security_id", Null)
    && SentOr(fields, payload, "side", Text("BUY"))
    && IsExecution(env, payload, now, fields["executed_at"])
    && IsQuantity(env, payload, fields["quantity_shares"])
    && SentOr(fields, payload, "price", Text("0.0"))
    && SentOr(fields, payload, "fee", Text("0.0"))
    && SentOr(fields, payload, "lot_type", Text("BOARD_LOT"))
  }

  ghost predicate NewScreener(payload: Fields, fields: Fields) {
    && fields.Keys == {"name", "description", "expression", "sort_field", "sort_direction"}
    && SentOr(fields, payload, "name", Text("Screener"))
    && SentOr(fields, payload, "description", Null)
    && SentOr(fields, payload, "expression", Null)
    && SentOr(fields, payload, "sort_field", Text("code"))
    && SentOr(fields, payload, "sort_direction", Text("ASC"))
  }

  // The columns of a new row as they are assigned, for each kind of entity.
  ghost predicate NewRow(env: Env, kind: EntityType, payload: Fields, now: Time, fields: Fields) {
    match kind
    case Watchlist =>
      && fields.Keys == {"name", "sort_order"}
      && SentOr(fields, payload, "name", Text("Watchlist"))
      && SentOr(fields, payload, "sort_order", Num(0))
    case WatchlistItem => NewItem(payload, fields)
    case Portfolio =>
      && fields.Keys == {"name", "base_currency", "is_default"}
      && SentOr(fields, payload, "name", Text("Portfolio"))
      && SentOr(fields, payload, "base_currency", Text("TWD"))
      && SentOr(fields, payload, "is_default", Flag(false))
    case PortfolioTransaction => NewTransaction(env, payload, now, fields)
    case AlertRule => NewRule(payload, fields)
    case SavedScreener => NewScreener(payload, fields)
    case UserSetting => NewSetting(payload, fields)
    case UnknownEntity => false
  }

  ghost predicate NewSetting(payload: Fields, fields: Fields) {
    && fields.Keys == {"key", "value"}
    && SentOr(fields, payload, "key", Text(""))
    && IsSettingValue(payload, fields["value"])
  }

  // An object as it is; anything else as the one entry of an object.
  predicate IsSettingValue(payload: Fields, v: Value) {
    && "value" in payload && v.Obj?
    && if payload["value"].Obj? then v == payload["value"] else v.entries == map["value" := payload["value"]]
  }

  ghost predicate NewRule(payload: Fields, fields: Fields) {
    && fields.Keys == {"security_id", "portfolio_id", "watchlist_id", "name", "rule_type", "scope_type", "ma_period",
                       "threshold_price", "threshold_percent", "consecutive_days", "enabled", "cooldown_minutes",
                       "daily_limit", "evaluation_mode", "session_scope"}
    && ScopeColumns(payload, fields)
    && DefaultedRule(payload, fields)
  }

  ghost predicate ScopeColumns(payload: Fields, fields: Fields) {
    && ScopeColumn(fields, payload, "security_id", "SECURITY")
    && ScopeColumn(fields, payload, "portfolio_id", "PORTFOLIO")
    && ScopeColumn(fields, payload, "watchlist_id", "WATCHLIST")
  }

  predicate DefaultedRule(payload: Fields, fields: Fields) {
    && SentOr(fields, payload, "name", Text("Alert Rule"))
    && SentOr(fields, payload, "rule_type", Text("PRICE_THRESHOLD"))
    && SentOr(fields, payload, "scope_type", Text("SECURITY"))
    && SentOr(fields, payload, "ma_period", Null)
    && SentOr(fields, payload, "threshold_price", Null)
    && SentOr(fields, payload, "threshold_percent", Null)
    && SentOr(fields, payload, "consecutive_days", Null)
    && SentOr(fields, payload, "enabled", Flag(true))
    && SentOr(fields, payload, "cooldown_minutes", Num(60))
    && SentOr(fields, payload, "daily_limit", Num(5))
    && SentOr(fields, payload, "evaluation_mode", Text("EOD"))
    && SentOr(fields, payload, "session_scope", Text("REGULAR"))
  }

  // The falsy values of JSON.
  lemma {:induction false} FalsyIff(v: Value)
    ensures !Truthy(v) <==> v in {Null, Text(""), Num(0), Flag(false), Arr([]), Obj(map[])}
  {
  }

  // --------------------------------------------------------- forms of columns

  // Ids and setting keys keep their form; every other column shows what the database
  // makes of the value.
  predicate KeepsForm(key: string) {
    key in {"watchlist_id", "portfolio_id", "security_id", "key"}
  }

  ghost predicate StoredForm(schema: Schema, kind: EntityType, sent: Fields, stored: Fields) {
    && stored.Keys == sent.Keys
    && forall key | key in sent ::
         stored[key] == if KeepsForm(key) then sent[key] else schema.stored(kind, key, sent[key])
  }

  ghost predicate LoggedForm(schema: Schema, kind: EntityType, sent: Fields, logged: Fields) {
    && logged.Keys == sent.Keys
    && forall key | key in sent ::
         logged[key] == if KeepsForm(key) then sent[key] else schema.logged(kind, key, sent[key])
  }

  // ------------------------------------------------------------ built columns

  lemma {:induction false} RuleKeys()
    ensures KeySet(AlertRule)
            == {"name", "rule_type", "scope_type", "ma_period", "threshold_price", "threshold_percent",
                "consecutive_days", "enabled", "cooldown_minutes", "daily_limit", "evaluation_mode", "session_scope"}
  {
  }

  lemma {:induction false} RuleColumn(payload: Fields, key: string)
    requires key in KeySet(AlertRule)
    ensures SentOr(RuleFields(payload), payload, key, RuleDefault(key))
  {
  }

  lemma {:induction false} RuleFieldKeys(payload: Fields)
    ensures RuleFields(payload).Keys == {"security_id", "portfolio_id", "watchlist_id"} + KeySet(AlertRule)
  {
  }

  lemma {:induction false} RuleScope(payload: Fields, key: string, scope: string, fields: Fields)
    requires !BadId(ScopedId(payload, key, scope))
    requires key in fields && fields[key] == OptionalId(ScopedId(payload, key, scope))
    ensures ScopeColumn(fields, payload, key, scope)
  {
  }

  lemma {:induction false} MergeKeeps(a: Fields, b: Fields, key: string)
    requires key in a && key !in b
    ensures key in a + b && (a + b)[key] == a[key]
  {
  }

  lemma {:induction false} ScopesAreNotMutable(key: string)
    requires key == "security_id" || key == "portfolio_id" || key == "watchlist_id"
    ensures key !in MutableKeys(AlertRule)
  {
  }

  lemma {:induction false} RuleScopeField(payload: Fields, key: string, scope: string)
    requires (key, scope) in {("security_id", "SECURITY"), ("portfolio_id", "PORTFOLIO"), ("watchlist_id", "WATCHLIST")}
    ensures key in RuleFields(payload) && RuleFields(payload)[key] == OptionalId(ScopedId(payload, key, scope))
  {
    ScopesAreNotMutable(key);
    var scopes := map["security_id" := OptionalId(ScopedId(payload, "security_id", "SECURITY")),
                      "portfolio_id" := OptionalId(ScopedId(payload, "portfolio_id", "PORTFOLIO")),
                      "watchlist_id" := OptionalId(ScopedId(payload, "watchlist_id", "WATCHLIST"))];
    var others := map other | other in MutableKeys(AlertRule) :: GetOr(payload, other, RuleDefault(other));
    MergeKeeps(scopes, others, key);
  }

  lemma {:induction false} RuleColumns(payload: Fields)
    requires !BadId(ScopedId(payload, "security_id", "SECURITY"))
    requires !BadId(ScopedId(payload, "portfolio_id", "PORTFOLIO"))
    requires !BadId(ScopedId(payload, "watchlist_id", "WATCHLIST"))
    ensures ScopeColumns(payload, RuleFields(payload))
  {
    RuleScopeField(payload, "security_id", "SECURITY");
    RuleScopeField(payload, "portfolio_id", "PORTFOLIO");
    RuleScopeField(payload, "watchlist_id", "WATCHLIST");
    var fields := RuleFields(payload);
    RuleScope(payload, "security_id", "SECURITY", fields);
    RuleScope(payload, "portfolio_id", "PORTFOLIO", fields);
    RuleScope(payload, "watchlist_id", "WATCHLIST", fields);
  }

  lemma {:induction false} RuleDefaults(payload: Fields)
    ensures DefaultedRule(payload, RuleFields(payload))
  {
    RuleKeys();
    forall key | key in KeySet(AlertRule) ensures SentOr(RuleFields(payload), payload, key, RuleDefault(key)) {
      RuleColumn(payload, key);
    }
  }

  lemma {:induction false} TransactionKeysAre(env: Env, payload: Fields, now: Time)
    ensures TransactionFields(env, payload, now).Keys
            == {"portfolio_id", "security_id", "side", "executed_at", "quantity_shares", "price", "fee", "lot_type"}
  {
  }

  lemma {:induction false} TransactionIsNew(env: Env, rows: map<Ref, Row>, user: UserId, payload: Fields, now: Time)
    requires BuildTransaction(env, rows, user, payload, now).Built?
    ensures NewTransaction(env, payload, now, TransactionFields(env, payload, now))
  {
    TransactionKeysAre(env, payload, now);
  }

  lemma {:induction false} ItemIsNew(payload: Fields)
    ensures NewItem(payload, ItemFields(payload))
  {
  }

  lemma {:induction false} ScreenerIsNew(payload: Fields)
    ensures NewScreener(payload, ScreenerFields(payload))
  {
  }

  lemma {:induction false} SettingIsNew(payload: Fields)
    requires BuildSetting(payload).Built?
    ensures NewSetting(payload, SettingFields(payload))
  {
  }

  lemma {:induction false} RuleIsNew(env: Env, rows: map<Ref, Row>, user: UserId, payload: Fields)
    requires BuildRule(env, rows, user, payload).Built?
    ensures NewRule(payload, RuleFields(payload))
  {
    RuleColumns(payload);
    RuleDefaults(payload);
    RuleFieldKeys(payload);
    RuleKeys();
  }

  // The columns that validation builds are those of a new row of the kind.
  lemma {:induction false} BuiltIsNewRow(
      env: Env, rows: map<Ref, Row>, user: UserId, kind: EntityType, payload: Fields, now: Time)
    requires BuildFields(env, rows, user, kind, payload, now).Built?
    ensures NewRow(env, kind, payload, now, BuildFields(env, rows, user, kind, payload, now).fields)
  {
    match kind
    case AlertRule => RuleIsNew(env, rows, user, payload);
    case PortfolioTransaction => TransactionIsNew(env, rows, user, payload, now);
    case UserSetting => SettingIsNew(payload);
    case WatchlistItem => ItemIsNew(payload);
    case SavedScreener => ScreenerIsNew(payload);
    case Watchlist => ListIsNew(env, payload, now);
    case Portfolio => PortfolioIsNew(env, payload, now);
    case UnknownEntity =>
  }

  lemma {:induction false} ListIsNew(env: Env, payload: Fields, now: Time)
    ensures NewRow(env, Watchlist, payload, now, NewColumns(env, Watchlist, payload, now))
  {
  }

  lemma {:induction false} PortfolioIsNew(env: Env, payload: Fields, now: Time)
    ensures NewRow(env, Portfolio, payload, now, NewColumns(env, Portfolio, payload, now))
  {
  }

  // A payload determines the columns of a new row.
  lemma {:induction false} NewRowIsUnique(env: Env, kind: EntityType, payload: Fields, now: Time, a: Fields, b: Fields)
    requires NewRow(env, kind, payload, now, a) && NewRow(env, kind, payload, now, b)
    ensures a == b
  {
    forall key | key in a ensures key in b && a[key] == b[key] {
      match kind
      case AlertRule => NewRulesAgree(payload, a, b, key);
      case PortfolioTransaction => NewTransactionsAgree(env, payload, now, a, b, key);
      case WatchlistItem => NewItemsAgree(payload, a, b, key);
      case _ =>
    }
  }

  lemma {:induction false} NewTransactionsAgree(
      env: Env, payload: Fields, now: Time, a: Fields, b: Fields, key: string)
    requires NewTransaction(env, payload, now, a) && NewTransaction(env, payload, now, b) && key in a
    ensures key in b && a[key] == b[key]
  {
  }

  lemma {:induction false} NewItemsAgree(payload: Fields, a: Fields, b: Fields, key: string)
    requires NewItem(payload, a) && NewItem(payload, b) && key in a
    ensures key in b && a[key] == b[key]
  {
  }

  lemma {:induction false} NewRulesAgree(payload: Fields, a: Fields, b: Fields, key: string)
    requires NewRule(payload, a) && NewRule(payload, b) && key in a
    ensures key in b && a[key] == b[key]
  {
    ScopesAgree(payload, a, b, "security_id", "SECURITY");
    ScopesAgree(payload, a, b, "portfolio_id", "PORTFOLIO");
    ScopesAgree(payload, a, b, "watchlist_id", "WATCHLIST");
  }

  lemma {:induction false} ScopesAgree(payload: Fields, a: Fields, b: Fields, key: string, scope: string)
    requires ScopeColumn(a, payload, key, scope) && ScopeColumn(b, payload, key, scope)
    ensures a[key] == b[key]
  {
  }

  // ---------------------------------------------------------- updated columns

  // The columns an UPSERT writes as it carries them; parent ids are never among them.
  function Writable(kind: EntityType): set<string> {
    match kind
    case Watchlist => {"name", "sort_order"}
    case WatchlistItem => {"sort_order", "note", "target_price", "stop_price", "add_price"}
    case Portfolio => {"name", "base_currency", "is_default"}
    case PortfolioTransaction => {"side", "quantity_shares", "price", "fee", "lot_type"}
    case AlertRule =>
      {"name", "rule_type", "scope_type", "ma_period", "threshold_price", "threshold_percent", "consecutive_days",
       "enabled", "cooldown_minutes", "daily_limit", "evaluation_mode", "session_scope"}
    case SavedScreener => {"name", "description", "expression", "sort_field", "sort_direction"}
    case UserSetting => {"key"}
    case UnknownEntity => {}
  }

  // Besides these an UPSERT writes the value of a setting, and the time of a transaction
  // when it is a text.
  predicate Touches(kind: EntityType, payload: Fields, key: string) {
    && key in payload
    && (|| key in Writable(kind)
        || (kind.UserSetting? && key == "value")
        || (kind.PortfolioTransaction? && key == "executed_at" && (payload[key].Text? || payload[key].Uid?)))
  }

  // The columns of an existing row as they are assigned.
  ghost predicate AfterUpdate(
      env: Env, kind: EntityType, payload: Fields, now: Time, before: Fields, after: Fields) {
    && (forall key | key in Writable(kind) && key in payload :: key in after && after[key] == payload[key])
    && (kind.UserSetting? && "value" in payload ==> "value" in after && IsSettingValue(payload, after["value"]))
    && (kind.PortfolioTransaction? && Touches(kind, payload, "executed_at") ==>
          "executed_at" in after && IsExecution(env, payload, now, after["executed_at"]))
    && forall key | !Touches(kind, payload, key) :: SameEntry(before, after, key)
  }

  lemma {:induction false} WritableIsMutable(kind: EntityType)
    ensures !kind.UserSetting? ==> Writable(kind) == KeySet(kind)
  {
    match kind
    case AlertRule => RuleKeys();
    case SavedScreener => ScreenerKeys();
    case WatchlistItem => ItemKeys();
    case _ =>
  }

  lemma {:induction false} OverwriteUpdates(kind: EntityType, payload: Fields, before: Fields, key: string)
    requires !kind.UserSetting?
    ensures var after := Overwrite(before, payload, MutableKeys(kind));
            if key in Writable(kind) && key in payload then key in after && after[key] == payload[key]
            else SameEntry(before, after, key)
  {
    WritableIsMutable(kind);
    OverwriteReads(before, payload, MutableKeys(kind), key);
    assert key in Writable(kind) <==> key in KeySet(kind);
  }

  lemma {:induction false} UpdateIsAfter(env: Env, kind: EntityType, payload: Fields, now: Time, before: Fields)
    requires UpdateFields(env, kind, before, payload).Changed?
    ensures AfterUpdate(env, kind, payload, now, before, UpdateFields(env, kind, before, payload).fields)
  {
    var after := UpdateFields(env, kind, before, payload).fields;
    if !kind.UserSetting? {
      forall key
        ensures key in Writable(kind) && key in payload ==> key in after && after[key] == payload[key]
        ensures !Touches(kind, payload, key) ==> SameEntry(before, after, key)
      {
        OverwriteUpdates(kind, payload, before, key);
      }
    }
  }

  lemma {:induction false} AfterIsUnique(
      env: Env, kind: EntityType, payload: Fields, now: Time, before: Fields, a: Fields, b: Fields)
    requires AfterUpdate(env, kind, payload, now, before, a) && AfterUpdate(env, kind, payload, now, before, b)
    ensures a == b
  {
    forall key ensures SameEntry(a, b, key) {
      if !Touches(kind, payload, key) {
        assert SameEntry(before, a, key) && SameEntry(before, b, key);
      }
    }
    SameEntriesSame(a, b);
  }

  // ------------------------------------------------------- accepted operations

  // One row is replaced, and one log entry shows it with its columns as logged.
  ghost predicate Commits(s: Server, t: Server, user: UserId, op: Operation, row: Row, logged: Fields, now: Time) {
    var change := Change(s.nextSequence, user, Ref(op.kind, op.entityId), op.mutation, row.version,
                         Payload(op.entityId, row.version, row.updatedAt, row.deletedAt, logged), now);
    && t.rows == s.rows[Ref(op.kind, op.entityId) := row]
    && t.log == s.log + [change]
    && t.nextSequence == s.nextSequence + 1
    && t.ledger == s.ledger && t.schema == s.schema
  }

  // An accepted UPSERT of a new entity leaves a live first version with exactly the columns
  // of its kind: what was sent, and the default of each column that was not.
  lemma {:induction false} NewRowIsRead(
      env: Env, s: Server, user: UserId, op: Operation, now: Time) returns (sent: Fields, row: Row, logged: Fields)
    requires Ref(op.kind, op.entityId) !in s.rows
    requires Decide(env, s, user, op, now).Decided? && Decide(env, s, user, op, now).verdict.Accepted?
    ensures NewRow(env, op.kind, op.payload, now, sent)
    ensures StoredForm(s.schema, op.kind, sent, row.fields) && LoggedForm(s.schema, op.kind, sent, logged)
    ensures row == Row(user, 1, now, None, row.fields)
    ensures Commits(s, Decide(env, s, user, op, now).server, user, op, row, logged, now)
    ensures Decide(env, s, user, op, now).verdict == Accepted(op.entityId, 1, s.nextSequence)
    ensures var live := Live(Decide(env, s, user, op, now).server, user);
            && Ref(op.kind, op.entityId) in live
            && live[Ref(op.kind, op.entityId)] == Payload(op.entityId, 1, now, None, row.fields)
  {
    AcceptedIff(env, s, user, op, now);
    BuiltIsNewRow(env, s.rows, user, op.kind, op.payload, now);
    BuiltIsNew(env, s.rows, user, op.kind, op.payload, now);
    sent := NewColumns(env, op.kind, op.payload, now);
    CommitIs(s, user, op, Row(user, 1, now, None, sent), now);
    NewForms(s.schema, op.kind, sent);
    row := Row(user, 1, now, None, StoredFields(s.schema, op.kind, map[], sent));
    logged := LoggedFields(s.schema, op.kind, map[], sent);
  }

  lemma {:induction false} NewForms(schema: Schema, kind: EntityType, sent: Fields)
    ensures StoredForm(schema, kind, sent, StoredFields(schema, kind, map[], sent))
    ensures LoggedForm(schema, kind, sent, LoggedFields(schema, kind, map[], sent))
  {
  }

  lemma {:induction false} CommitIs(s: Server, user: UserId, op: Operation, row: Row, now: Time)
    ensures var d, before := Commit(s, user, op.mutation, Target(op), row, now), FieldsOf(s.rows, Target(op));
            && d.verdict == Accepted(op.entityId, row.version, s.nextSequence)
            && Commits(s, d.server, user, op, row.(fields := StoredFields(s.schema, op.kind, before, row.fields)),
                       LoggedFields(s.schema, op.kind, before, row.fields), now)
  {
  }

  // An accepted UPSERT of an existing entity writes the columns it carries and no others,
  // on the next version.
  lemma {:induction false} UpdateIsRead(
      env: Env, s: Server, user: UserId, op: Operation, now: Time) returns (sent: Fields, row: Row, logged: Fields)
    requires Lawful(s.schema) && Stored(s)
    requires Ref(op.kind, op.entityId) in s.rows && op.mutation.Upsert?
    requires Decide(env, s, user, op, now).Decided? && Decide(env, s, user, op, now).verdict.Accepted?
    ensures var prior := s.rows[Ref(op.kind, op.entityId)];
            && AfterUpdate(env, op.kind, op.payload, now, prior.fields, sent)
            && (forall key | !Touches(op.kind, op.payload, key) :: SameEntry(prior.fields, row.fields, key))
            && prior.deletedAt.None?
            && row == Row(user, op.baseVersion + 1, now, None, row.fields) && prior.version == op.baseVersion
    ensures StoredForm(s.schema, op.kind, sent, row.fields) && LoggedForm(s.schema, op.kind, sent, logged)
    ensures Commits(s, Decide(env, s, user, op, now).server, user, op, row, logged, now)
    ensures Decide(env, s, user, op, now).verdict == Accepted(op.entityId, op.baseVersion + 1, s.nextSequence)
  {
    var ref := Ref(op.kind, op.entityId);
    var before := s.rows[ref].fields;
    AcceptedIff(env, s, user, op, now);
    UpdateIsSent(env, op.kind, before, op.payload);
    UpdateIsAfter(env, op.kind, op.payload, now, before);
    sent := UpdateFields(env, op.kind, before, op.payload).fields;
    assert InForm(s.schema, op.kind, before);
    UpdateForms(s.schema, op.kind, before, sent);
    CommitIs(s, user, op, Row(user, op.baseVersion + 1, now, None, sent), now);
    row := Row(user, op.baseVersion + 1, now, None, StoredFields(s.schema, op.kind, before, sent));
    logged := LoggedFields(s.schema, op.kind, before, sent);
    forall key | !Touches(op.kind, op.payload, key) ensures SameEntry(before, row.fields, key) {
      assert SameEntry(before, sent, key);
    }
  }

  lemma {:induction false} UpdateForms(schema: Schema, kind: EntityType, before: Fields, sent: Fields)
    requires Lawful(schema) && InForm(schema, kind, before)
    ensures StoredForm(schema, kind, sent, StoredFields(schema, kind, before, sent))
    ensures LoggedForm(schema, kind, sent, LoggedFields(schema, kind, before, sent))
  {
    forall key | key in sent
      ensures LoggedFields(schema, kind, before, sent)[key] == LoggedAs(schema, kind, key, sent[key])
      ensures StoredFields(schema, kind, before, sent)[key] == StoredAs(schema, kind, key, sent[key])
    {
      ColumnForms(schema, kind, before, sent, key);
    }
  }

  // A DELETE of the user's own entity on its current version is always accepted: the columns
  // stay, and only the version and the two times change.
  lemma {:induction false} DeleteIsRead(env: Env, s: Server, user: UserId, op: Operation, now: Time) returns (row: Row)
    requires !op.kind.UnknownEntity? && op.mutation.Delete? && Ref(op.kind, op.entityId) in s.rows
    requires var prior := s.rows[Ref(op.kind, op.entityId)]; prior.owner == user && prior.version == op.baseVersion
    ensures row == Row(user, op.baseVersion + 1, now, Some(now), s.rows[Ref(op.kind, op.entityId)].fields)
    ensures Decide(env, s, user, op, now).Decided?
    ensures Commits(s, Decide(env, s, user, op, now).server, user, op, row, row.fields, now)
    ensures Decide(env, s, user, op, now).verdict == Accepted(op.entityId, op.baseVersion + 1, s.nextSequence)
  {
    var ref := Ref(op.kind, op.entityId);
    SameColumnsStay(s.schema, op.kind, s.rows[ref].fields);
    row := Row(user, op.baseVersion + 1, now, Some(now), s.rows[ref].fields);
  }
}
