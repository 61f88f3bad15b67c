// Which operations are accepted, rejected, in conflict, or break their batch, stated on the
// payload and the tables alone.
module SyncOutcomes {
  import opened Wrappers
  import opened SyncModel
  import opened SyncEffects
  import opened SyncInvariant
  import opened SyncAnswers
  import opened SyncColumns

  // A reference to a live row of the same user.
  predicate Owns(rows: map<Ref, Row>, user: UserId, kind: EntityType, v: Value) {
    && v.Uid? && Ref(kind, v.id) in rows
    && rows[Ref(kind, v.id)].owner == user && rows[Ref(kind, v.id)].deletedAt == None
  }

  predicate HasId(payload: Fields, key: string) {
    key in payload && payload[key].Uid?
  }

  // An item or a transaction: its parent is live, and its security is known.
  predicate Placed(env: Env, rows: map<Ref, Row>, user: UserId, payload: Fields, key: string, kind: EntityType)
    requires key in payload && HasId(payload, "security_id")
  {
    Owns(rows, user, kind, payload[key]) && payload["security_id"].id in env.securities
  }

  // Every scope of a rule that is given is a UUID.
  ghost predicate ScopesAreIds(payload: Fields) {
    && (forall v :: Scopes(payload, "security_id", "SECURITY", v) ==> v.Uid?)
    && (forall v :: Scopes(payload, "portfolio_id", "PORTFOLIO", v) ==> v.Uid?)
    && (forall v :: Scopes(payload, "watchlist_id", "WATCHLIST", v) ==> v.Uid?)
  }

  ghost predicate ScopesAreOwned(rows: map<Ref, Row>, user: UserId, payload: Fields) {
    && (forall v :: Scopes(payload, "portfolio_id", "PORTFOLIO", v) ==> Owns(rows, user, Portfolio, v))
    && (forall v :: Scopes(payload, "watchlist_id", "WATCHLIST", v) ==> Owns(rows, user, Watchlist, v))
  }

  predicate FilterGiven(payload: Fields) {
    "expression" in payload && payload["expression"].Obj? && payload["expression"].entries != map[]
  }

  // A falsy key, or the name of something that stays on its device.
  predicate KeyRefused(v: Value) {
    || !Truthy(v)
    || v in {Text("auth_token"), Text("device_id"), Text("refresh_token"), Text("notification_permission_state"),
             Text("os_setting")}
  }

  // A list or an object, which a set cannot be asked for.
  predicate KeyRaises(v: Value) {
    Truthy(v) && (v.Arr? || v.Obj?)
  }

  predicate ValueGiven(payload: Fields) {
    "value" in payload && payload["value"] != Null
  }

  // The UPSERT of a new entity that is REJECTED.
  ghost predicate CreationRefused(env: Env, rows: map<Ref, Row>, user: UserId, kind: EntityType, payload: Fields) {
    match kind
    case Watchlist => false
    case WatchlistItem =>
      && HasId(payload, "watchlist_id") && HasId(payload, "security_id")
      && !Placed(env, rows, user, payload, "watchlist_id", Watchlist)
    case Portfolio => false
    case PortfolioTransaction =>
      && HasId(payload, "portfolio_id") && HasId(payload, "security_id")
      && !Placed(env, rows, user, payload, "portfolio_id", Portfolio)
    case AlertRule => ScopesAreIds(payload) && !ScopesAreOwned(rows, user, payload)
    case SavedScreener => !FilterGiven(payload)
    case UserSetting =>
      || "key" !in payload
      || KeyRefused(payload["key"])
      || (!KeyRaises(payload["key"]) && !ValueGiven(payload))
    case UnknownEntity => true
  }

  // The UPSERT of a new entity that passes validation, if its columns can be built.
  ghost predicate CreationPasses(env: Env, rows: map<Ref, Row>, user: UserId, kind: EntityType, payload: Fields) {
    match kind
    case Watchlist => true
    case WatchlistItem =>
      && HasId(payload, "watchlist_id") && HasId(payload, "security_id")
      && Placed(env, rows, user, payload, "watchlist_id", Watchlist)
    case Portfolio => true
    case PortfolioTransaction =>
      && HasId(payload, "portfolio_id") && HasId(payload, "security_id")
      && Placed(env, rows, user, payload, "portfolio_id", Portfolio)
    case AlertRule =>
      && ScopesAreIds(payload) && ScopesAreOwned(rows, user, payload)
      && forall v :: Scopes(payload, "security_id", "SECURITY", v) ==> v.Uid? && v.id in env.securities
    case SavedScreener => FilterGiven(payload)
    case UserSetting =>
      "key" in payload && !KeyRefused(payload["key"]) && !KeyRaises(payload["key"]) && ValueGiven(payload)
    case UnknownEntity => false
  }

  // Another row, deleted or not, holds the same list and security, or the same key of the user.
  ghost predicate Blocked(rows: map<Ref, Row>, ref: Ref, user: UserId, fields: Fields) {
    exists other | other in rows && other != ref && other.kind == ref.kind ::
      || (ref.kind.WatchlistItem? && SameAt(fields, rows[other].fields, "watchlist_id")
          && SameAt(fields, rows[other].fields, "security_id"))
      || (ref.kind.UserSetting? && rows[other].owner == user && SameAt(fields, rows[other].fields, "key"))
  }

  ghost predicate Fits(env: Env, rows: map<Ref, Row>, ref: Ref, user: UserId, fields: Fields) {
    env.columnsOk(ref.kind, fields) && !Blocked(rows, ref, user, fields)
  }

  lemma {:induction false} FitsIff(env: Env, rows: map<Ref, Row>, ref: Ref, row: Row)
    ensures Fits(env, rows, ref, row.owner, row.fields) <==> Storable(env, rows, ref, row)
  {
    if Storable(env, rows, ref, row) {
      forall other | other in rows ensures !Clash(ref, row, other, rows[other]) {
      }
    }
    if Fits(env, rows, ref, row.owner, row.fields) {
      forall other | other in rows ensures !Clash(ref, row, other, rows[other]) {
      }
    }
  }

  lemma {:induction false} ScopeIff(payload: Fields, key: string, scope: string, v: Value)
    ensures Scopes(payload, key, scope, v) <==> Truthy(v) && v == ScopedId(payload, key, scope)
  {
  }

  lemma {:induction false} RuleOutcome(env: Env, rows: map<Ref, Row>, user: UserId, payload: Fields)
    ensures BuildRule(env, rows, user, payload).Refused? <==> CreationRefused(env, rows, user, AlertRule, payload)
    ensures BuildRule(env, rows, user, payload).Built? <==> CreationPasses(env, rows, user, AlertRule, payload)
  {
    IdsIff(payload);
    if ScopesAreIds(payload) {
      OwnedIff(rows, user, payload);
    }
    ScopeIs(payload, "security_id", "SECURITY");
  }

  lemma {:induction false} IdsIff(payload: Fields)
    ensures ScopesAreIds(payload) <==>
              && !BadId(ScopedId(payload, "security_id", "SECURITY"))
              && !BadId(ScopedId(payload, "portfolio_id", "PORTFOLIO"))
              && !BadId(ScopedId(payload, "watchlist_id", "WATCHLIST"))
  {
    ScopeIs(payload, "security_id", "SECURITY");
    ScopeIs(payload, "portfolio_id", "PORTFOLIO");
    ScopeIs(payload, "watchlist_id", "WATCHLIST");
  }

  lemma {:induction false} OwnedIff(rows: map<Ref, Row>, user: UserId, payload: Fields)
    requires ScopesAreIds(payload)
    ensures var portfolio := ScopedId(payload, "portfolio_id", "PORTFOLIO");
            var list := ScopedId(payload, "watchlist_id", "WATCHLIST");
            ScopesAreOwned(rows, user, payload) <==>
              && (portfolio.Uid? ==> LiveParent(rows, user, Ref(Portfolio, portfolio.id)))
              && (list.Uid? ==> LiveParent(rows, user, Ref(Watchlist, list.id)))
  {
    IdsIff(payload);
    ScopeIs(payload, "portfolio_id", "PORTFOLIO");
    ScopeIs(payload, "watchlist_id", "WATCHLIST");
  }

  lemma {:induction false} ScopeIs(payload: Fields, key: string, scope: string)
    ensures forall v :: Scopes(payload, key, scope, v) <==> Truthy(v) && v == ScopedId(payload, key, scope)
    ensures Scopes(payload, key, scope, ScopedId(payload, key, scope)) <==> Truthy(ScopedId(payload, key, scope))
  {
    forall v ensures Scopes(payload, key, scope, v) <==> Truthy(v) && v == ScopedId(payload, key, scope) {
      ScopeIff(payload, key, scope, v);
    }
  }

  lemma {:induction false} BuildOutcome(
      env: Env, rows: map<Ref, Row>, user: UserId, kind: EntityType, payload: Fields, now: Time)
    ensures BuildFields(env, rows, user, kind, payload, now).Refused?
            <==> CreationRefused(env, rows, user, kind, payload)
    ensures BuildFields(env, rows, user, kind, payload, now).Built? ==> CreationPasses(env, rows, user, kind, payload)
    ensures forall sent | NewRow(env, kind, payload, now, sent) && CreationPasses(env, rows, user, kind, payload) ::
              BuildFields(env, rows, user, kind, payload, now).Built?
  {
    match kind
    case AlertRule => RuleOutcome(env, rows, user, payload);
    case _ =>
  }

  // ------------------------------------------------------------- new entities

  // An UPSERT of an entity that does not exist: REJECTED exactly when a check refuses it,
  // ACCEPTED exactly when it passes and its row fits the table; otherwise it raises.
  lemma {:induction false} CreationOutcome(env: Env, s: Server, user: UserId, op: Operation, now: Time)
    requires op.mutation.Upsert? && !op.kind.UnknownEntity? && Ref(op.kind, op.entityId) !in s.rows
    ensures
      var d, ref := Decide(env, s, user, op, now), Ref(op.kind, op.entityId);
      && (d == Decided(s, Rejected) <==> CreationRefused(env, s.rows, user, op.kind, op.payload))
      && (d.Decided? && d.verdict.Accepted? <==>
            && CreationPasses(env, s.rows, user, op.kind, op.payload)
            && exists sent :: NewRow(env, op.kind, op.payload, now, sent) && Fits(env, s.rows, ref, user, sent))
      && (d.Decided? ==> d.verdict.Accepted? || d == Decided(s, Rejected))
  {
    var ref := Ref(op.kind, op.entityId);
    BuildOutcome(env, s.rows, user, op.kind, op.payload, now);
    var built := BuildFields(env, s.rows, user, op.kind, op.payload, now);
    if built.Built? {
      BuiltIsNewRow(env, s.rows, user, op.kind, op.payload, now);
      FitsIff(env, s.rows, ref, Row(user, 1, now, None, built.fields));
      forall sent | NewRow(env, op.kind, op.payload, now, sent) ensures sent == built.fields {
        NewRowIsUnique(env, op.kind, op.payload, now, sent, built.fields);
      }
    }
  }

  // -------------------------------------------------------- existing entities

  // The UPSERT of a live entity that is REJECTED.
  predicate UpdateRefused(kind: EntityType, payload: Fields) {
    || (kind.SavedScreener? && "expression" in payload && !payload["expression"].Obj?)
    || (kind.UserSetting? && "key" in payload && KeyRefused(payload["key"]))
    || (kind.UserSetting? && "value" in payload && payload["value"] == Null
        && !("key" in payload && KeyRaises(payload["key"])))
  }

  // The columns as a refusal leaves them: a new setting key is written before a null value
  // is refused.
  function Remains(kind: EntityType, payload: Fields, before: Fields): Fields {
    if kind.UserSetting? && "key" in payload && !KeyRefused(payload["key"]) then before["key" := payload["key"]]
    else before
  }

  // Columns that did not change are not checked again.
  ghost predicate FitsOrStays(env: Env, s: Server, user: UserId, ref: Ref, before: Fields, after: Fields) {
    after == before || Fits(env, s.rows, ref, user, after)
  }

  lemma {:induction false} FlushableIff(env: Env, s: Server, ref: Ref, row: Row)
    requires ref in s.rows
    ensures FitsOrStays(env, s, row.owner, ref, s.rows[ref].fields, row.fields) <==> Flushable(env, s.rows, ref, row)
  {
    FitsIff(env, s.rows, ref, row);
  }

  lemma {:induction false} RefusalRemains(env: Env, kind: EntityType, payload: Fields, before: Fields)
    ensures UpdateFields(env, kind, before, payload).Declined? <==> UpdateRefused(kind, payload)
    ensures UpdateRefused(kind, payload) ==>
              UpdateFields(env, kind, before, payload).fields == Remains(kind, payload, before)
  {
  }

  lemma {:induction false} ChangeIff(env: Env, kind: EntityType, payload: Fields, now: Time, before: Fields)
    ensures UpdateFields(env, kind, before, payload).Changed? <==>
              && !UpdateRefused(kind, payload)
              && !(kind.UserSetting? && "key" in payload && KeyRaises(payload["key"]))
              && exists sent :: AfterUpdate(env, kind, payload, now, before, sent)
  {
    if UpdateFields(env, kind, before, payload).Changed? {
      UpdateIsAfter(env, kind, payload, now, before);
    }
  }

  // An UPSERT of the user's own live entity on its current version: REJECTED exactly when a
  // check refuses it and what it leaves fits the table, ACCEPTED exactly when its columns can
  // be assigned and fit; otherwise it raises.
  lemma {:induction false} UpdateOutcome(env: Env, s: Server, user: UserId, op: Operation, now: Time)
    requires op.mutation.Upsert? && !op.kind.UnknownEntity? && Ref(op.kind, op.entityId) in s.rows
    requires var row := s.rows[Ref(op.kind, op.entityId)];
             row.owner == user && row.version == op.baseVersion && row.deletedAt.None?
    ensures
      var d, ref := Decide(env, s, user, op, now), Ref(op.kind, op.entityId);
      var before := s.rows[ref].fields;
      && (d.Decided? && d.verdict.Rejected? <==>
            && UpdateRefused(op.kind, op.payload)
            && FitsOrStays(env, s, user, ref, before, Remains(op.kind, op.payload, before)))
      && (d.Decided? && d.verdict.Accepted? <==>
            && !UpdateRefused(op.kind, op.payload)
            && !(op.kind.UserSetting? && "key" in op.payload && KeyRaises(op.payload["key"]))
            && exists sent :: AfterUpdate(env, op.kind, op.payload, now, before, sent)
                              && FitsOrStays(env, s, user, ref, before, sent))
      && (d.Decided? ==> d.verdict.Accepted? || d.verdict.Rejected?)
  {
    var ref := Ref(op.kind, op.entityId);
    var row := s.rows[ref];
    var before := row.fields;
    RefusalRemains(env, op.kind, op.payload, before);
    ChangeIff(env, op.kind, op.payload, now, before);
    var update := UpdateFields(env, op.kind, before, op.payload);
    if update.Changed? {
      UpdateIsAfter(env, op.kind, op.payload, now, before);
      FlushableIff(env, s, ref, row.(fields := update.fields));
      forall sent | AfterUpdate(env, op.kind, op.payload, now, before, sent) ensures sent == update.fields {
        AfterIsUnique(env, op.kind, op.payload, now, before, sent, update.fields);
      }
    } else if update.Declined? {
      FlushableIff(env, s, ref, row.(fields := update.fields));
    }
  }

  // Everything else: an unknown kind or mutation, the DELETE of nothing and any operation on
  // a row of another user are REJECTED and change nothing.
  lemma {:induction false} StrangersAreRejected(env: Env, s: Server, user: UserId, op: Operation, now: Time)
    requires
      || op.kind.UnknownEntity? || op.mutation.UnknownMutation?
      || (op.mutation.Delete? && Ref(op.kind, op.entityId) !in s.rows)
      || (Ref(op.kind, op.entityId) in s.rows && s.rows[Ref(op.kind, op.entityId)].owner != user)
    ensures Decide(env, s, user, op, now) == Decided(s, Rejected)
  {
  }

  // ------------------------------------------------------------------ devices

  // A push is forbidden exactly for a device that is unknown, revoked or somebody else's,
  // and then changes nothing.
  lemma {:induction false} ForbiddenIff(s: Server, r: Request)
    ensures Push(s, r).reply.Forbidden? <==>
              || r.device !in r.env.devices
              || r.env.devices[r.device].revoked
              || r.env.devices[r.device].user != r.user
    ensures Push(s, r).reply.Forbidden? ==> Push(s, r).server == s
  {
  }
}
