// Runs that reach the departures of the protocol, from an empty server.
module SyncWitnesses {
  import opened Wrappers
  import opened SyncModel
  import opened SyncEffects
  import opened SyncInvariant
  import opened SyncConvergence
  import opened SyncDelivery

  // -------------------------------------------------------- deleted items

  // Another item row, deleted or not, that holds the place of this one.
  ghost predicate PlaceTaken(s: Server, item: Ref, fields: Fields) {
    exists other | other in s.rows && other != item && other.kind.WatchlistItem? ::
      && SameAt(fields, s.rows[other].fields, "watchlist_id")
      && SameAt(fields, s.rows[other].fields, "security_id")
  }

  // Creating a watchlist item whose list, security and columns are in order raises, and so
  // aborts its batch, exactly when some item row, deleted or not, has its list and security.
  lemma {:induction false} ItemBlockedIff(env: Env, s: Server, user: UserId, op: Operation, now: Time)
    requires op.kind.WatchlistItem? && op.mutation.Upsert? && Target(op) !in s.rows
    requires BuildItem(env, s.rows, user, op.payload).Built?
    requires env.columnsOk(WatchlistItem, ItemFields(op.payload))
    ensures Decide(env, s, user, op, now).Raised? <==> PlaceTaken(s, Target(op), ItemFields(op.payload))
  {
    var ref := Target(op);
    var row := Row(user, 1, now, None, ItemFields(op.payload));
    if PlaceTaken(s, ref, row.fields) {
      var other :| && other in s.rows && other != ref && other.kind.WatchlistItem?
                   && SameAt(row.fields, s.rows[other].fields, "watchlist_id")
                   && SameAt(row.fields, s.rows[other].fields, "security_id");
      assert Clash(ref, row, other, s.rows[other]);
      assert !Storable(env, s.rows, ref, row);
    } else {
      forall other | other in s.rows ensures !Clash(ref, row, other, s.rows[other]) {
      }
      assert Storable(env, s.rows, ref, row);
    }
  }

  // ------------------------------------------------------------------ steps

  ghost predicate Accepting(env: Env, security: Id) {
    security in env.securities && forall kind, fields :: env.columnsOk(kind, fields)
  }

  function ListOp(id: OperationId, list: Id): Operation {
    Operation(id, Watchlist, list, Upsert, 0, map["name" := Text("Mine")])
  }

  function ItemOp(id: OperationId, item: Id, list: Id, security: Id, price: Value): Operation {
    Operation(
      id, WatchlistItem, item, Upsert, 0,
      map["watchlist_id" := Uid(list), "security_id" := Uid(security), "target_price" := price])
  }

  function DeleteOp(id: OperationId, item: Id): Operation {
    Operation(id, WatchlistItem, item, Delete, 1, map[])
  }

  // What one accepted operation leaves.
  ghost predicate Commits(s: Server, user: UserId, op: Operation, row: Row, now: Time, step: Step) {
    && step.Applied? && step.response.Fresh? && step.response.result.verdict.Accepted?
    && var d := Commit(s, user, op.mutation, Target(op), row, now);
       && step.server.rows == d.server.rows && step.server.log == d.server.log && step.server.schema == s.schema
       && step.server.nextSequence == s.nextSequence + 1
       && step.server.ledger.Keys == s.ledger.Keys + {(user, op.id)}
  }

  lemma {:induction false} ListCommits(env: Env, schema: Schema, user: UserId, op: Operation, now: Time)
    requires op == ListOp(op.id, op.entityId) && forall kind, fields :: env.columnsOk(kind, fields)
    ensures var s := EmptyServer(schema);
            var row := Row(user, 1, now, None, NewColumns(env, Watchlist, op.payload, now));
            Commits(s, user, op, row, now, Apply(env, s, user, op, now, None))
  {
  }

  lemma {:induction false} ItemCommits(env: Env, s: Server, user: UserId, op: Operation, now: Time)
    requires op.kind.WatchlistItem? && op.mutation.Upsert? && Target(op) !in s.rows
    requires BuildItem(env, s.rows, user, op.payload).Built? && (user, op.id) !in s.ledger
    requires forall kind, fields :: env.columnsOk(kind, fields)
    requires !PlaceTaken(s, Target(op), ItemFields(op.payload))
    ensures var row := Row(user, 1, now, None, ItemFields(op.payload));
            Commits(s, user, op, row, now, Apply(env, s, user, op, now, None))
  {
    ItemBlockedIff(env, s, user, op, now);
  }

  lemma {:induction false} DeleteCommits(env: Env, s: Server, user: UserId, op: Operation, now: Time)
    requires op == DeleteOp(op.id, op.entityId) && (user, op.id) !in s.ledger
    requires Target(op) in s.rows && s.rows[Target(op)].owner == user && s.rows[Target(op)].version == 1
    ensures var row := s.rows[Target(op)].(deletedAt := Some(now), updatedAt := now, version := 2);
            Commits(s, user, op, row, now, Apply(env, s, user, op, now, None))
  {
  }

  // ---------------------------------------------------------------- raw price

  // A database whose target prices have eight decimals, as far as "950.0" goes.
  function FixedScale(): Schema {
    Schema(
      (kind, key, v) => v,
      (kind, key, v) => if key == "target_price" && v == Text("950.0") then Text("950.00000000") else v)
  }

  lemma {:induction false} FixedScaleIsLawful()
    ensures Lawful(FixedScale())
    ensures LoggedAs(FixedScale(), WatchlistItem, "target_price", Text("950.0"))
            != StoredAs(FixedScale(), WatchlistItem, "target_price", Text("950.0"))
  {
    assert |"950.0"| != |"950.00000000"|;
    forall kind, key, v ensures LawfulAt(FixedScale(), kind, key, v) {
    }
  }

  // An accepted item with a target price that its column stores in another form breaks
  // the match of log and rows.
  lemma {:induction false} RawPriceBreaks(env: Env, s: Server, user: UserId, op: Operation, price: Value, now: Time)
    requires Ordered(s) && LogMatchesRows(s)
    requires op.kind.WatchlistItem? && op.mutation.Upsert? && Target(op) !in s.rows
    requires "target_price" in op.payload && op.payload["target_price"] == price
    requires LoggedAs(s.schema, WatchlistItem, "target_price", price)
             != StoredAs(s.schema, WatchlistItem, "target_price", price)
    requires Apply(env, s, user, op, now, None).Applied?
    requires Apply(env, s, user, op, now, None).response.result.verdict.Accepted?
    ensures !LogMatchesRows(Apply(env, s, user, op, now, None).server)
  {
    AcceptedIff(env, s, user, op, now);
    var fields := ItemFields(op.payload);
    assert fields["target_price"] == price;
    assert !PlainAt(s.schema, WatchlistItem, fields, "target_price");
    assert RawWrite(env, s, user, op, now);
    LogStillMatchesIff(env, s, user, op, now);
  }

  // The list of the witness, as its table holds it, and a server with only this list.
  ghost predicate OnlyList(s: Server, user: UserId, list: Id, id: OperationId) {
    && s.schema == FixedScale()
    && s.rows.Keys == {Ref(Watchlist, list)}
    && s.rows[Ref(Watchlist, list)].owner == user && s.rows[Ref(Watchlist, list)].deletedAt.None?
    && s.ledger.Keys == {(user, id)}
    && Ordered(s) && LogMatchesRows(s)
  }

  lemma {:induction false} ListStep(env: Env, user: UserId, list: Id, id: OperationId, now: Time)
    requires forall kind, fields :: env.columnsOk(kind, fields)
    ensures var step := Apply(env, EmptyServer(FixedScale()), user, ListOp(id, list), now, None);
            step.Applied? && OnlyList(step.server, user, list, id)
  {
    var s, op := EmptyServer(FixedScale()), ListOp(id, list);
    ListCommits(env, FixedScale(), user, op, now);
    EmptyMatches(FixedScale());
    ListIsPlain(env, op, now);
    LogStillMatchesIff(env, s, user, op, now);
    DecideOrders(env, s, user, op, now);
  }

  lemma {:induction false} ListIsPlain(env: Env, op: Operation, now: Time)
    requires op.kind.Watchlist?
    ensures AllPlain(FixedScale(), Watchlist, NewColumns(env, Watchlist, op.payload, now))
  {
    var fields := NewColumns(env, Watchlist, op.payload, now);
    assert "target_price" !in fields;
    forall key | key in fields ensures PlainAt(FixedScale(), Watchlist, fields, key) {
    }
  }

  lemma {:induction false} ItemIsBuilt(env: Env, s: Server, user: UserId, op: Operation, list: Id, security: Id)
    requires op.kind.WatchlistItem? && security in env.securities
    requires "watchlist_id" in op.payload && op.payload["watchlist_id"] == Uid(list)
    requires "security_id" in op.payload && op.payload["security_id"] == Uid(security)
    requires LiveParent(s.rows, user, Ref(Watchlist, list))
    ensures BuildItem(env, s.rows, user, op.payload).Built?
    ensures var fields := ItemFields(op.payload);
            && "watchlist_id" in fields && fields["watchlist_id"] == Uid(list)
            && "security_id" in fields && fields["security_id"] == Uid(security)
  {
  }

  // A user creates a watchlist and puts an item with the target price "950.0" on it. Both
  // operations are ACCEPTED. After the first one the log shows what a bootstrap reads,
  // after the second one it does not.
  lemma {:induction false} RawPriceWitness(env: Env, user: UserId, list: Id, item: Id, security: Id, now: Time)
    requires Accepting(env, security)
    ensures
      var first := Apply(env, EmptyServer(FixedScale()), user, ListOp(1, list), now, None);
      && first.Applied? && LogMatchesRows(first.server)
      && var second := Apply(env, first.server, user, ItemOp(2, item, list, security, Text("950.0")), now, None);
         && second.Applied? && second.response.result.verdict.Accepted?
         && !LogMatchesRows(second.server)
  {
    var op := ItemOp(2, item, list, security, Text("950.0"));
    ListStep(env, user, list, 1, now);
    var s := Apply(env, EmptyServer(FixedScale()), user, ListOp(1, list), now, None).server;
    ItemIsBuilt(env, s, user, op, list, security);
    ItemCommits(env, s, user, op, now);
    FixedScaleIsLawful();
    RawPriceBreaks(env, s, user, op, Text("950.0"), now);
  }

  // The user deletes the item, which is ACCEPTED, and puts the security on the list again
  // as a new item: that operation raises, and would abort any batch it is in.
  lemma {:induction false} TombstoneBlocksWitness(
    env: Env, user: UserId, list: Id, item: Id, other: Id, security: Id, price: Value, now: Time)
    requires Accepting(env, security) && other != item
    ensures
      var first := Apply(env, EmptyServer(FixedScale()), user, ListOp(1, list), now, None);
      && first.Applied?
      && var second := Apply(env, first.server, user, ItemOp(2, item, list, security, price), now, None);
         && second.Applied?
         && var third := Apply(env, second.server, user, DeleteOp(3, item), now, None);
            && third.Applied? && third.response.result.verdict.Accepted?
            && Decide(env, third.server, user, ItemOp(4, other, list, security, price), now).Raised?
  {
    ListStep(env, user, list, 1, now);
    var s := Apply(env, EmptyServer(FixedScale()), user, ListOp(1, list), now, None).server;
    ItemStep(env, s, user, ItemOp(2, item, list, security, price), list, security, price, now);
    var t := Apply(env, s, user, ItemOp(2, item, list, security, price), now, None).server;
    DeletedBlocks(env, t, user, list, item, DeleteOp(3, item), ItemOp(4, other, list, security, price), security, now);
  }

  // A deleted item blocks a new one with its list and security.
  lemma {:induction false} DeletedBlocks(
    env: Env, t: Server, user: UserId, list: Id, item: Id, delete: Operation, again: Operation, security: Id, now: Time)
    requires Accepting(env, security) && LiveParent(t.rows, user, Ref(Watchlist, list))
    requires delete == DeleteOp(delete.id, item) && (user, delete.id) !in t.ledger
    requires again.kind.WatchlistItem? && again.mutation.Upsert? && Target(again) !in t.rows
    requires "watchlist_id" in again.payload && again.payload["watchlist_id"] == Uid(list)
    requires "security_id" in again.payload && again.payload["security_id"] == Uid(security)
    requires Ref(WatchlistItem, item) in t.rows
    requires var row := t.rows[Ref(WatchlistItem, item)];
             && row.owner == user && row.version == 1
             && "watchlist_id" in row.fields && row.fields["watchlist_id"] == Uid(list)
             && "security_id" in row.fields && row.fields["security_id"] == Uid(security)
    ensures var step := Apply(env, t, user, delete, now, None);
            && step.Applied? && step.response.result.verdict.Accepted?
            && Decide(env, step.server, user, again, now).Raised?
  {
    DeleteCommits(env, t, user, delete, now);
    DeletedKeepsPlace(t, user, item, delete, now);
    var u := Apply(env, t, user, delete, now, None).server;
    ItemIsBuilt(env, u, user, again, list, security);
    var place := Ref(WatchlistItem, item);
    assert place in u.rows && u.rows[place].fields == t.rows[place].fields;
    assert SameAt(ItemFields(again.payload), u.rows[place].fields, "watchlist_id");
    assert SameAt(ItemFields(again.payload), u.rows[place].fields, "security_id");
    ItemBlockedIff(env, u, user, again, now);
  }

  lemma {:induction false} ItemStep(
    env: Env, s: Server, user: UserId, op: Operation, list: Id, security: Id, price: Value, now: Time)
    requires Accepting(env, security) && OnlyList(s, user, list, 1)
    requires op == ItemOp(2, op.entityId, list, security, price)
    ensures var step := Apply(env, s, user, op, now, None);
            && step.Applied?
            && step.server.rows.Keys == {Ref(Watchlist, list), Target(op)}
            && step.server.rows[Ref(Watchlist, list)] == s.rows[Ref(Watchlist, list)]
            && step.server.ledger.Keys == {(user, 1), (user, 2)}
            && var row := step.server.rows[Target(op)];
               && row.owner == user && row.version == 1
               && "watchlist_id" in row.fields && row.fields["watchlist_id"] == Uid(list)
               && "security_id" in row.fields && row.fields["security_id"] == Uid(security)
  {
    ItemIsBuilt(env, s, user, op, list, security);
    ItemCommits(env, s, user, op, now);
    var fields := ItemFields(op.payload);
    KeptColumnsStay(s.schema, WatchlistItem, map[], fields, "watchlist_id");
    KeptColumnsStay(s.schema, WatchlistItem, map[], fields, "security_id");
  }

  lemma {:induction false} DeletedKeepsPlace(t: Server, user: UserId, item: Id, op: Operation, now: Time)
    requires op == DeleteOp(op.id, item) && Target(op) in t.rows
    ensures var row := t.rows[Target(op)].(deletedAt := Some(now), updatedAt := now, version := 2);
            StoredRow(t, Target(op), row).fields == t.rows[Target(op)].fields
  {
    SameColumnsStay(t.schema, WatchlistItem, t.rows[Target(op)].fields);
  }
}
