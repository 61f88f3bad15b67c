// The cloud-sync server as values: what one operation, one push, one page of
// changes and one bootstrap do to the tables. `CloudSync.CloudSyncService` is
// the mutable service proved equal to these functions.
module SyncModel {
  import opened Wrappers

  // UUIDs and clock readings are tokens; only equality of UUIDs matters.
  type UserId = int
  type DeviceId = int
  type Id = int
  type OperationId = int
  type Time = int

  datatype EntityType =
    | Watchlist
    | WatchlistItem
    | Portfolio
    | PortfolioTransaction
    | AlertRule
    | SavedScreener
    | UserSetting
    | UnknownEntity

  datatype Mutation = Upsert | Delete | UnknownMutation

  // A JSON value. `Uid` is a string that parses as a UUID, `Stamp` a stored timestamp.
  datatype Value =
    | Null
    | Uid(id: Id)
    | Text(s: string)
    | Num(n: int)
    | Flag(b: bool)
    | Arr(items: seq<Value>)
    | Obj(entries: map<string, Value>)
    | Stamp(at: Time)

  type Fields = map<string, Value>

  datatype Ref = Ref(kind: EntityType, id: Id)

  datatype Row = Row(owner: UserId, version: int, updatedAt: Time, deletedAt: Option<Time>, fields: Fields)

  datatype Payload = Payload(id: Id, version: int, updatedAt: Time, deletedAt: Option<Time>, fields: Fields)

  datatype Change = Change(
    sequence: nat, user: UserId, ref: Ref, operation: Mutation, version: int, payload: Payload, changedAt: Time)

  datatype Operation = Operation(
    id: OperationId, kind: EntityType, entityId: Id, mutation: Mutation, baseVersion: int, payload: Fields)

  datatype ConflictType = StaleVersion | Tombstoned

  datatype Verdict =
    | Rejected
    | Conflict(entityId: Id, clientBaseVersion: int, serverVersion: int, serverValue: Payload,
      conflictType: ConflictType)
    | Accepted(acceptedId: Id, newVersion: int, serverCursor: nat)

  datatype Result = Result(operationId: OperationId, verdict: Verdict)

  // A reply to one operation: computed now, or the stored one marked DUPLICATE.
  datatype Response = Fresh(result: Result) | Duplicate(result: Result)

  datatype Device = Device(user: UserId, revoked: bool)

  // Everything outside the sync tables that a request depends on: registered
  // devices, the security master, the two parsers and the column checks of the database.
  datatype Env = Env(
    devices: map<DeviceId, Device>,
    securities: set<Id>,
    parseInt: string -> Option<int>,
    parseTime: string -> Option<Time>,
    columnsOk: (EntityType, Fields) -> bool)

  // How a column shows a value assigned to it: in the payload that is logged right after
  // the flush, and when the row is read again. A Numeric column logs a price as it was
  // sent and reads it back rounded to its scale; a time logs its own offset and reads UTC.
  datatype Schema = Schema(
    logged: (EntityType, string, Value) -> Value,
    stored: (EntityType, string, Value) -> Value)

  datatype Server = Server(
    schema: Schema,
    rows: map<Ref, Row>,
    log: seq<Change>,
    ledger: map<(UserId, OperationId), Result>,
    nextSequence: nat)

  function EmptyServer(schema: Schema): Server {
    Server(schema, map[], [], map[], 1)
  }

  // ---------------------------------------------------------------- values

  predicate Truthy(v: Value) {
    match v
    case Null => false
    case Uid(_) => true
    case Text(s) => s != ""
    case Num(n) => n != 0
    case Flag(b) => b
    case Arr(items) => items != []
    case Obj(entries) => entries != map[]
    case Stamp(_) => true
  }

  predicate Hashable(v: Value) {
    !v.Arr? && !v.Obj?
  }

  function GetOr(payload: Fields, key: string, default: Value): Value {
    if key in payload then payload[key] else default
  }

  function FirstTruthy(a: Value, b: Value): Value {
    if Truthy(a) then a else b
  }

  const FORBIDDEN_SETTING_KEYS: set<string> :=
    {"auth_token", "device_id", "refresh_token", "notification_permission_state", "os_setting"}

  predicate ForbiddenKey(v: Value) {
    !Truthy(v) || (v.Text? && v.s in FORBIDDEN_SETTING_KEYS)
  }

  function Wrapped(v: Value): Value {
    if v.Obj? then v else Obj(map["value" := v])
  }

  function PayloadOf(ref: Ref, row: Row): Payload {
    Payload(ref.id, row.version, row.updatedAt, row.deletedAt, row.fields)
  }

  // ---------------------------------------------------------------- columns

  // Parent ids and setting keys are UUIDs and strings, which read back as they are.
  const KEPT_COLUMNS: set<string> := {"watchlist_id", "portfolio_id", "security_id", "key"}

  function LoggedAs(schema: Schema, kind: EntityType, key: string, v: Value): Value {
    if key in KEPT_COLUMNS then v else schema.logged(kind, key, v)
  }

  function StoredAs(schema: Schema, kind: EntityType, key: string, v: Value): Value {
    if key in KEPT_COLUMNS then v else schema.stored(kind, key, v)
  }

  // A flush writes the columns that changed; the others stay as they were read.
  function LoggedFields(schema: Schema, kind: EntityType, before: Fields, after: Fields): Fields {
    map key | key in after :: if SameAt(before, after, key) then after[key] else LoggedAs(schema, kind, key, after[key])
  }

  function StoredFields(schema: Schema, kind: EntityType, before: Fields, after: Fields): Fields {
    map key | key in after :: if SameAt(before, after, key) then after[key] else StoredAs(schema, kind, key, after[key])
  }

  function FieldsOf(rows: map<Ref, Row>, ref: Ref): Fields {
    if ref in rows then rows[ref].fields else map[]
  }

  // The row as the log shows it and as the table holds it after a flush.
  function LoggedRow(s: Server, ref: Ref, row: Row): Row {
    row.(fields := LoggedFields(s.schema, ref.kind, FieldsOf(s.rows, ref), row.fields))
  }

  function StoredRow(s: Server, ref: Ref, row: Row): Row {
    row.(fields := StoredFields(s.schema, ref.kind, FieldsOf(s.rows, ref), row.fields))
  }

  // ------------------------------------------------------------- creation

  // What `_validate_and_build_model` yields: the columns of the new row, None
  // (the operation is rejected) or an exception (the batch is rolled back).
  datatype Build = Built(fields: Fields) | Refused | Raises

  // A reference that must name a live row of the same user.
  predicate LiveParent(rows: map<Ref, Row>, user: UserId, parent: Ref) {
    parent in rows && rows[parent].owner == user && rows[parent].deletedAt.None?
  }

  function BuildItem(env: Env, rows: map<Ref, Row>, user: UserId, payload: Fields): Build {
    var list := GetOr(payload, "watchlist_id", Null);
    var security := GetOr(payload, "security_id", Null);
    if !list.Uid? || !security.Uid? then Raises
    else if !LiveParent(rows, user, Ref(Watchlist, list.id)) || security.id !in env.securities then Refused
    else Built(ItemFields(payload))
  }

  function ItemFields(payload: Fields): Fields {
    map[
      "watchlist_id" := GetOr(payload, "watchlist_id", Null),
      "security_id" := GetOr(payload, "security_id", Null),
      "sort_order" := GetOr(payload, "sort_order", Num(0)),
      "note" := GetOr(payload, "note", Null),
      "target_price" := GetOr(payload, "target_price", Null),
      "stop_price" := GetOr(payload, "stop_price", Null),
      "add_price" := GetOr(payload, "add_price", Null)]
  }

  function ToInt(env: Env, v: Value): Option<int> {
    match v
    case Num(n) => Some(n)
    case Flag(b) => Some(if b then 1 else 0)
    case Text(s) => env.parseInt(s)
    case _ => None
  }

  function ToTime(env: Env, v: Value): Option<Time> {
    if v.Text? then env.parseTime(v.s) else None
  }

  predicate IsString(v: Value) {
    v.Text? || v.Uid?
  }

  function BuildTransaction(env: Env, rows: map<Ref, Row>, user: UserId, payload: Fields, now: Time): Build {
    var portfolio := GetOr(payload, "portfolio_id", Null);
    var security := GetOr(payload, "security_id", Null);
    var executed := GetOr(payload, "executed_at", Null);
    var quantity := ToInt(env, GetOr(payload, "quantity_shares", Num(0)));
    if !portfolio.Uid? || !security.Uid? then Raises
    else if !LiveParent(rows, user, Ref(Portfolio, portfolio.id)) || security.id !in env.securities then Refused
    else if quantity.None? || (IsString(executed) && ToTime(env, executed).None?) then Raises
    else Built(TransactionFields(env, payload, now))
  }

  function TransactionFields(env: Env, payload: Fields, now: Time): Fields {
    var executed := ToTime(env, GetOr(payload, "executed_at", Null));
    var quantity := ToInt(env, GetOr(payload, "quantity_shares", Num(0)));
    map[
      "portfolio_id" := GetOr(payload, "portfolio_id", Null),
      "security_id" := GetOr(payload, "security_id", Null),
      "side" := GetOr(payload, "side", Text("BUY")),
      "executed_at" := Stamp(if executed.Some? then executed.value else now),
      "quantity_shares" := Num(if quantity.Some? then quantity.value else 0),
      "price" := GetOr(payload, "price", Text("0.0")),
      "fee" := GetOr(payload, "fee", Text("0.0")),
      "lot_type" := GetOr(payload, "lot_type", Text("BOARD_LOT"))]
  }

  // An id given directly, or through `scope_id` when the scope has this type.
  function ScopedId(payload: Fields, key: string, scope: string): Value {
    FirstTruthy(GetOr(payload, key, Null),
                if GetOr(payload, "scope_type", Text("SECURITY")) == Text(scope)
                then GetOr(payload, "scope_id", Null) else Null)
  }

  // A scope id is absent, a UUID, or text on which the UUID constructor raises.
  predicate BadId(v: Value) {
    Truthy(v) && !v.Uid?
  }

  function OptionalId(v: Value): Value {
    if v.Uid? then v else Null
  }

  function RuleDefault(key: string): Value {
    if key == "name" then Text("Alert Rule")
    else if key == "rule_type" then Text("PRICE_THRESHOLD")
    else if key == "scope_type" then Text("SECURITY")
    else if key == "enabled" then Flag(true)
    else if key == "cooldown_minutes" then Num(60)
    else if key == "daily_limit" then Num(5)
    else if key == "evaluation_mode" then Text("EOD")
    else if key == "session_scope" then Text("REGULAR")
    else Null
  }

  // The scope ids, and every mutable column as sent or its default.
  function RuleFields(payload: Fields): Fields {
    map["security_id" := OptionalId(ScopedId(payload, "security_id", "SECURITY")),
        "portfolio_id" := OptionalId(ScopedId(payload, "portfolio_id", "PORTFOLIO")),
        "watchlist_id" := OptionalId(ScopedId(payload, "watchlist_id", "WATCHLIST"))]
    + map key | key in MutableKeys(AlertRule) :: GetOr(payload, key, RuleDefault(key))
  }

  function BuildRule(env: Env, rows: map<Ref, Row>, user: UserId, payload: Fields): Build {
    var security := ScopedId(payload, "security_id", "SECURITY");
    var portfolio := ScopedId(payload, "portfolio_id", "PORTFOLIO");
    var list := ScopedId(payload, "watchlist_id", "WATCHLIST");
    if BadId(security) || BadId(portfolio) || BadId(list) then Raises
    else if portfolio.Uid? && !LiveParent(rows, user, Ref(Portfolio, portfolio.id)) then Refused
    else if list.Uid? && !LiveParent(rows, user, Ref(Watchlist, list.id)) then Refused
    else if security.Uid? && security.id !in env.securities then Raises // foreign key, at flush
    else Built(RuleFields(payload))
  }

  function BuildScreener(payload: Fields): Build {
    var expression := GetOr(payload, "expression", Null);
    if !expression.Obj? || !Truthy(expression) then Refused
    else Built(ScreenerFields(payload))
  }

  function ScreenerFields(payload: Fields): Fields {
    map[
      "name" := GetOr(payload, "name", Text("Screener")),
      "description" := GetOr(payload, "description", Null),
      "expression" := GetOr(payload, "expression", Null),
      "sort_field" := GetOr(payload, "sort_field", Text("code")),
      "sort_direction" := GetOr(payload, "sort_direction", Text("ASC"))]
  }

  function BuildSetting(payload: Fields): Build {
    var key := GetOr(payload, "key", Text(""));
    var value := GetOr(payload, "value", Null);
    if Truthy(key) && !Hashable(key) then Raises
    else if ForbiddenKey(key) || value.Null? then Refused
    else Built(SettingFields(payload))
  }

  function SettingFields(payload: Fields): Fields {
    map["key" := GetOr(payload, "key", Text("")), "value" := Wrapped(GetOr(payload, "value", Null))]
  }

  // The columns of a new row, whatever it is checked against.
  function NewColumns(env: Env, kind: EntityType, payload: Fields, now: Time): Fields {
    match kind
    case Watchlist => map["name" := GetOr(payload, "name", Text("Watchlist")),
      "sort_order" := GetOr(payload, "sort_order", Num(0))]
    case WatchlistItem => ItemFields(payload)
    case Portfolio =>
      map["name" := GetOr(payload, "name", Text("Portfolio")),
          "base_currency" := GetOr(payload, "base_currency", Text("TWD")),
          "is_default" := GetOr(payload, "is_default", Flag(false))]
    case PortfolioTransaction => TransactionFields(env, payload, now)
    case AlertRule => RuleFields(payload)
    case SavedScreener => ScreenerFields(payload)
    case UserSetting => SettingFields(payload)
    case UnknownEntity => map[]
  }

  function BuildFields(
      env: Env, rows: map<Ref, Row>, user: UserId, kind: EntityType, payload: Fields, now: Time): Build {
    match kind
    case Watchlist => Built(NewColumns(env, kind, payload, now))
    case WatchlistItem => BuildItem(env, rows, user, payload)
    case Portfolio => Built(NewColumns(env, kind, payload, now))
    case PortfolioTransaction => BuildTransaction(env, rows, user, payload, now)
    case AlertRule => BuildRule(env, rows, user, payload)
    case SavedScreener => BuildScreener(payload)
    case UserSetting => BuildSetting(payload)
    case UnknownEntity => Refused
  }

  // --------------------------------------------------------------- update

  // The columns an UPSERT may overwrite; parent ids are never among them.
  function MutableKeys(kind: EntityType): seq<string> {
    match kind
    case Watchlist => ["name", "sort_order"]
    case WatchlistItem => ["sort_order", "note", "target_price", "stop_price", "add_price"]
    case Portfolio => ["name", "base_currency", "is_default"]
    case PortfolioTransaction => ["side", "quantity_shares", "price", "fee", "lot_type"]
    case AlertRule =>
      ["name", "rule_type", "scope_type", "ma_period", "threshold_price", "threshold_percent", "consecutive_days",
       "enabled", "cooldown_minutes", "daily_limit", "evaluation_mode", "session_scope"]
    case SavedScreener => ["name", "description", "expression", "sort_field", "sort_direction"]
    case UserSetting => []
    case UnknownEntity => []
  }

  function Overwrite(fields: Fields, payload: Fields, keys: seq<string>): Fields
    decreases |keys|
  {
    if keys == [] then fields
    else Overwrite(if keys[0] in payload then fields[keys[0] := payload[keys[0]]] else fields, payload, keys[1..])
  }

  // What `_update_row` leaves: the new columns, or a refusal together with the
  // columns as they stand when it refuses, or an exception.
  datatype Update = Changed(fields: Fields) | Declined(fields: Fields) | Fails

  function UpdateSetting(fields: Fields, payload: Fields): Update {
    var key := GetOr(payload, "key", Null);
    if "key" in payload && Truthy(key) && !Hashable(key) then Fails
    else if "key" in payload && ForbiddenKey(key) then Declined(fields)
    else
      var keyed := if "key" in payload then fields["key" := key] else fields;
      if "value" !in payload then Changed(keyed)
      else if payload["value"].Null? then Declined(keyed)
      else Changed(keyed["value" := Wrapped(payload["value"])])
  }

  function UpdateFields(env: Env, kind: EntityType, fields: Fields, payload: Fields): Update {
    if kind.UserSetting? then UpdateSetting(fields, payload)
    else if kind.SavedScreener? && "expression" in payload && !payload["expression"].Obj? then Declined(fields)
    else
      var updated := Overwrite(fields, payload, MutableKeys(kind));
      if kind.PortfolioTransaction? && IsString(GetOr(payload, "executed_at", Null)) then
        match ToTime(env, payload["executed_at"])
        case None => Fails
        case Some(t) => Changed(updated["executed_at" := Stamp(t)])
      else Changed(updated)
  }

  // ------------------------------------------------- constraints at flush

  predicate SameAt(a: Fields, b: Fields, key: string) {
    key in a && key in b && a[key] == b[key]
  }

  // UNIQUE (watchlist_id, security_id) and UNIQUE (user_id, key); tombstones count.
  predicate Clash(ref: Ref, row: Row, other: Ref, otherRow: Row) {
    && other != ref
    && other.kind == ref.kind
    && ((ref.kind.WatchlistItem? && SameAt(row.fields, otherRow.fields, "watchlist_id")
         && SameAt(row.fields, otherRow.fields, "security_id"))
        || (ref.kind.UserSetting? && row.owner == otherRow.owner && SameAt(row.fields, otherRow.fields, "key")))
  }

  predicate Storable(env: Env, rows: map<Ref, Row>, ref: Ref, row: Row) {
    && env.columnsOk(ref.kind, row.fields)
    && (forall other | other in rows :: !Clash(ref, row, other, rows[other]))
  }

  // An unchanged column set is not written, so it is not checked again.
  predicate Flushable(env: Env, rows: map<Ref, Row>, ref: Ref, row: Row)
    requires ref in rows
  {
    row.fields == rows[ref].fields || Storable(env, rows, ref, row)
  }

  // -------------------------------------------------------- one operation

  // Either the operation is decided, or an exception escapes and only the
  // sequence numbers already drawn stay consumed.
  datatype Decision = Decided(server: Server, verdict: Verdict) | Raised(nextSequence: nat)

  datatype Step = Applied(server: Server, response: Response) | Aborted(nextSequence: nat)

  // Flushes the row and appends its payload to the change log.
  function Commit(s: Server, user: UserId, mutation: Mutation, ref: Ref, row: Row, now: Time): Decision {
    var change := Change(s.nextSequence, user, ref, mutation, row.version, PayloadOf(ref, LoggedRow(s, ref, row)), now);
    Decided(s.(rows := s.rows[ref := StoredRow(s, ref, row)], log := s.log + [change],
      nextSequence := s.nextSequence + 1),
            Accepted(ref.id, row.version, s.nextSequence))
  }

  function Create(env: Env, s: Server, user: UserId, op: Operation, now: Time): Decision {
    var ref := Ref(op.kind, op.entityId);
    if op.mutation.Delete? then Decided(s, Rejected)
    else
      match BuildFields(env, s.rows, user, op.kind, op.payload, now)
      case Raises => Raised(s.nextSequence)
      case Refused => Decided(s, Rejected)
      case Built(fields) =>
        var row := Row(user, 1, now, None, fields);
        if Storable(env, s.rows, ref, row) then Commit(s, user, op.mutation, ref, row, now)
        else Raised(s.nextSequence)
  }

  function Modify(env: Env, s: Server, user: UserId, op: Operation, now: Time): Decision
    requires Ref(op.kind, op.entityId) in s.rows
  {
    var ref := Ref(op.kind, op.entityId);
    var row := s.rows[ref];
    if op.mutation.Delete? then
      Commit(s, user, op.mutation, ref, row.(deletedAt := Some(now), updatedAt := now, version := row.version + 1), now)
    else if row.deletedAt.Some? then
      Decided(s, Conflict(ref.id, op.baseVersion, row.version, PayloadOf(ref, row), Tombstoned))
    else
      match UpdateFields(env, op.kind, row.fields, op.payload)
      case Fails => Raised(s.nextSequence)
      case Declined(left) =>
        // the columns written before the refusal are flushed with the ledger row
        if Flushable(env, s.rows, ref, row.(fields := left)) then
          Decided(s.(rows := s.rows[ref := StoredRow(s, ref, row.(fields := left))]), Rejected)
        else Raised(s.nextSequence)
      case Changed(fields) =>
        if Flushable(env, s.rows, ref, row.(fields := fields)) then
          Commit(s, user, op.mutation, ref, row.(fields := fields, updatedAt := now, version := row.version + 1), now)
        else Raised(s.nextSequence)
  }

  function Decide(env: Env, s: Server, user: UserId, op: Operation, now: Time): Decision {
    var ref := Ref(op.kind, op.entityId);
    if op.kind.UnknownEntity? || op.mutation.UnknownMutation? then Decided(s, Rejected)
    else if ref !in s.rows then Create(env, s, user, op, now)
    else
      var row := s.rows[ref];
      if row.owner != user then Decided(s, Rejected)
      else if row.version != op.baseVersion then
        Decided(s, Conflict(ref.id, op.baseVersion, row.version, PayloadOf(ref, row), StaleVersion))
      else Modify(env, s, user, op, now)
  }

  // Stores the outcome under (user, operation id); a second row violates the unique constraint.
  function Record(s: Server, user: UserId, result: Result): Step {
    if (user, result.operationId) in s.ledger then Aborted(s.nextSequence)
    else Applied(s.(ledger := s.ledger[(user, result.operationId) := result]), Fresh(result))
  }

  function Apply(env: Env, s: Server, user: UserId, op: Operation, now: Time, prior: Option<Result>): Step {
    if prior.Some? then Applied(s, Duplicate(prior.value))
    else
      match Decide(env, s, user, op, now)
      case Raised(next) => Aborted(next)
      case Decided(decided, verdict) => Record(decided, user, Result(op.id, verdict))
  }

  // ------------------------------------------------------------- one push

  type Priors = map<OperationId, Result>

  function PriorOf(priors: Priors, id: OperationId): Option<Result> {
    if id in priors then Some(priors[id]) else None
  }

  // The stored results the batch prefetches, before it applies anything.
  function PriorsOf(s: Server, user: UserId, ops: seq<Operation>): Priors {
    map op | op in ops && (user, op.id) in s.ledger :: op.id := s.ledger[(user, op.id)]
  }

  datatype Batch = Done(server: Server, responses: seq<Response>) | Broken(nextSequence: nat)

  function ApplyAll(env: Env, s: Server, user: UserId, priors: Priors, ops: seq<Operation>, now: Time): Batch
    decreases |ops|
  {
    if ops == [] then Done(s, [])
    else
      match Apply(env, s, user, ops[0], now, PriorOf(priors, ops[0].id))
      case Aborted(next) => Broken(next)
      case Applied(s1, response) =>
        match ApplyAll(env, s1, user, priors, ops[1..], now)
        case Broken(next) => Broken(next)
        case Done(s2, responses) => Done(s2, [response] + responses)
  }

  datatype Reply = Forbidden | Failed | Results(responses: seq<Response>)

  datatype Request = Request(env: Env, user: UserId, device: DeviceId, ops: seq<Operation>, now: Time)

  datatype PushOutcome = PushOutcome(server: Server, reply: Reply)

  predicate ActiveDevice(env: Env, user: UserId, device: DeviceId) {
    device in env.devices && env.devices[device].user == user && !env.devices[device].revoked
  }

  // One transaction: it commits as a whole, or leaves only consumed sequence numbers.
  function Push(s: Server, r: Request): PushOutcome {
    if !ActiveDevice(r.env, r.user, r.device) then PushOutcome(s, Forbidden)
    else
      match ApplyAll(r.env, s, r.user, PriorsOf(s, r.user, r.ops), r.ops, r.now)
      case Broken(next) => PushOutcome(s.(nextSequence := next), Failed)
      case Done(s', responses) => PushOutcome(s', Results(responses))
  }

  function Run(s: Server, requests: seq<Request>): Server
    decreases |requests|
  {
    if requests == [] then s else Run(Push(s, requests[0]).server, requests[1..])
  }

  // ---------------------------------------------------------------- reads

  // The user's log entries after a cursor, oldest first.
  function After(log: seq<Change>, user: UserId, cursor: int): seq<Change> {
    if log == [] then []
    else
      var last := log[|log| - 1];
      After(log[..|log| - 1], user, cursor) + (if last.user == user && last.sequence > cursor then [last] else [])
  }

  datatype Page = Page(changes: seq<Change>, nextCursor: int, hasMore: bool)

  function Min(a: nat, b: nat): nat {
    if a <= b then a else b
  }

  function Changes(s: Server, user: UserId, cursor: int, limit: nat, pageLimit: nat): Page {
    var matching := After(s.log, user, cursor);
    var bounded := Min(Min(limit, pageLimit), |matching|);
    var page := matching[..bounded];
    Page(page, if page == [] then cursor else page[|page| - 1].sequence, |matching| > Min(limit, pageLimit))
  }

  type Replica = map<Ref, Payload>

  // Every row of the user, tombstones included.
  function RowsOf(s: Server, user: UserId): Replica {
    map ref | ref in s.rows && s.rows[ref].owner == user :: PayloadOf(ref, s.rows[ref])
  }

  // The rows a bootstrap returns.
  function Live(s: Server, user: UserId): Replica {
    map ref | ref in s.rows && s.rows[ref].owner == user && s.rows[ref].deletedAt.None? :: PayloadOf(ref, s.rows[ref])
  }

  function LastSequence(log: seq<Change>, user: UserId): nat {
    if log == [] then 0
    else
      var before := LastSequence(log[..|log| - 1], user);
      var last := log[|log| - 1];
      if last.user == user && last.sequence > before then last.sequence else before
  }

  datatype Snapshot = Snapshot(rows: Replica, cursor: nat)

  function Bootstrap(s: Server, user: UserId): Snapshot {
    Snapshot(Live(s, user), LastSequence(s.log, user))
  }

  // ------------------------------------------------------------- replicas

  // A device applies a change: a DELETE drops the entity, anything else stores the payload.
  function ApplyChange(replica: Replica, change: Change): Replica {
    if change.operation.Delete? then replica - {change.ref} else replica[change.ref := change.payload]
  }

  function Replay(replica: Replica, changes: seq<Change>): Replica {
    if changes == [] then replica
    else ApplyChange(Replay(replica, changes[..|changes| - 1]), changes[|changes| - 1])
  }

  // Last payload wins, keeping tombstones.
  function Fold(replica: Replica, changes: seq<Change>): Replica {
    if changes == [] then replica
    else
      var last := changes[|changes| - 1];
      Fold(replica, changes[..|changes| - 1])[last.ref := last.payload]
  }
}
