// The sync service itself: tables as mutable fields, operations that assign them in
// place, each proved to be the function of the same step in `SyncModel`.
module CloudSync {
  import opened Wrappers
  import opened SyncModel
  import opened SyncEffects

  datatype Mutated = Verdicted(verdict: Verdict) | Threw

  class CloudSyncService {
    var rows: map<Ref, Row>
    var log: seq<Change>
    var ledger: map<(UserId, OperationId), Result>
    var nextSequence: nat
    const schema: Schema
    const pageLimit: nat

    function State(): Server
      reads this
    {
      Server(schema, rows, log, ledger, nextSequence)
    }

    // There are tables for the seven known kinds only.
    ghost predicate Valid()
      reads this
    {
      forall ref | ref in rows :: !ref.kind.UnknownEntity?
    }

    constructor (schema: Schema, pageLimit: nat)
      ensures State() == EmptyServer(schema) && this.pageLimit == pageLimit && Valid()
    {
      rows, log, ledger, nextSequence := map[], [], map[], 1;
      this.schema, this.pageLimit := schema, pageLimit;
    }

    // Assigns the columns named by the payload one by one.
    method Assign(ref: Ref, payload: Fields, keys: seq<string>)
      requires ref in rows
      modifies this`rows
      ensures rows == old(rows)[ref := old(rows)[ref].(fields := Overwrite(old(rows)[ref].fields, payload, keys))]
    {
      ghost var before := rows;
      var i := 0;
      assert rows == before[ref := before[ref].(fields := before[ref].fields)];
      while i < |keys|
        invariant 0 <= i <= |keys|
        invariant ref in rows
        invariant rows == before[ref := before[ref].(fields := rows[ref].fields)]
        invariant Overwrite(rows[ref].fields, payload, keys[i..]) == Overwrite(before[ref].fields, payload, keys)
      {
        assert keys[i..][0] == keys[i] && keys[i..][1..] == keys[i + 1..];
        if keys[i] in payload {
          rows := rows[ref := rows[ref].(fields := rows[ref].fields[keys[i] := payload[keys[i]]])];
        }
        i := i + 1;
      }
      assert keys[i..] == [];
    }

    // Writes the columns of a row; `Some(false)` is a refusal, which keeps what was written
    // before it, and None an exception.
    method UpdateRow(env: Env, ref: Ref, payload: Fields) returns (ok: Option<bool>)
      requires ref in rows
      modifies this`rows
      ensures match UpdateFields(env, ref.kind, old(rows)[ref].fields, payload)
              case Fails => ok == None
              case Declined(left) => ok == Some(false) && rows == old(rows)[ref := old(rows)[ref].(fields := left)]
              case Changed(fields) => ok == Some(true) && rows == old(rows)[ref := old(rows)[ref].(fields := fields)]
    {
      ghost var before := rows;
      assert before == before[ref := before[ref].(fields := before[ref].fields)];
      if ref.kind.UserSetting? {
        var key := GetOr(payload, "key", Null);
        if "key" in payload && Truthy(key) && !Hashable(key) {
          return None;
        }
        if "key" in payload && ForbiddenKey(key) {
          return Some(false);
        }
        if "key" in payload {
          rows := rows[ref := rows[ref].(fields := rows[ref].fields["key" := key])];
        }
        if "value" in payload {
          if payload["value"].Null? {
            return Some(false);
          }
          rows := rows[ref := rows[ref].(fields := rows[ref].fields["value" := Wrapped(payload["value"])])];
        }
        return Some(true);
      }
      if ref.kind.SavedScreener? && "expression" in payload && !payload["expression"].Obj? {
        return Some(false);
      }
      Assign(ref, payload, MutableKeys(ref.kind));
      if ref.kind.PortfolioTransaction? && IsString(GetOr(payload, "executed_at", Null)) {
        var t := ToTime(env, payload["executed_at"]);
        if t.None? {
          return None;
        }
        rows := rows[ref := rows[ref].(fields := rows[ref].fields["executed_at" := Stamp(t.value)])];
      }
      return Some(true);
    }

    // The flush: the table holds the changed columns in stored form; what the row in
    // memory shows afterwards is in logged form.
    method Flush(ref: Ref, before: Fields) returns (shown: Payload)
      requires ref in rows
      modifies this`rows
      ensures shown == PayloadOf(ref,
              old(rows)[ref].(fields := LoggedFields(schema, ref.kind, before, old(rows)[ref].fields)))
      ensures rows == old(rows)[ref :=
              old(rows)[ref].(fields := StoredFields(schema, ref.kind, before, old(rows)[ref].fields))]
    {
      var row := rows[ref];
      rows := rows[ref := row.(fields := StoredFields(schema, ref.kind, before, row.fields))];
      shown := PayloadOf(ref, row.(fields := LoggedFields(schema, ref.kind, before, row.fields)));
    }

    // Appends a payload to the change log under the next sequence number.
    method Publish(user: UserId, mutation: Mutation, ref: Ref, shown: Payload, now: Time) returns (cursor: nat)
      modifies this`log, this`nextSequence
      ensures cursor == old(nextSequence) && nextSequence == cursor + 1
      ensures log == old(log) + [Change(cursor, user, ref, mutation, shown.version, shown, now)]
    {
      cursor := nextSequence;
      log := log + [Change(cursor, user, ref, mutation, shown.version, shown, now)];
      nextSequence := nextSequence + 1;
    }

    // Flushes a written row and publishes it; `saved` is the table before the row was written.
    method CommitRow(user: UserId, mutation: Mutation, ref: Ref, before: Fields, now: Time, ghost saved: map<Ref, Row>)
      returns (verdict: Verdict)
      requires ref in rows && rows == saved[ref := rows[ref]] && before == FieldsOf(saved, ref)
      modifies this
      ensures Commit(old(State()).(rows := saved), user, mutation, ref, old(rows)[ref], now)
              == Decided(State(), verdict)
    {
      ghost var sent := rows[ref];
      var shown := Flush(ref, before);
      assert rows == saved[ref := sent.(fields := StoredFields(schema, ref.kind, before, sent.fields))];
      var cursor := Publish(user, mutation, ref, shown, now);
      verdict := Accepted(ref.id, shown.version, cursor);
    }

    // An UPSERT of an existing row.
    method Update(env: Env, user: UserId, op: Operation, now: Time) returns (m: Mutated)
      requires Ref(op.kind, op.entityId) in rows && op.mutation.Upsert?
      modifies this
      ensures ledger == old(ledger)
      ensures match Modify(env, old(State()), user, op, now)
              case Raised(next) => m == Threw && nextSequence == next
              case Decided(s, verdict) => m == Verdicted(verdict) && State() == s
    {
      var ref := Ref(op.kind, op.entityId);
      var tables, before := rows, rows[ref].fields;
      if rows[ref].deletedAt.Some? {
        return Verdicted(Conflict(ref.id, op.baseVersion, rows[ref].version, PayloadOf(ref, rows[ref]), Tombstoned));
      }
      var ok := UpdateRow(env, ref, op.payload);
      if ok.None? || !Flushable(env, tables, ref, rows[ref]) {
        return Threw;
      }
      if !ok.value {
        var _ := Flush(ref, before);
        return Verdicted(Rejected);
      }
      rows := rows[ref := rows[ref].(updatedAt := now, version := rows[ref].version + 1)];
      assert rows == tables[ref := rows[ref]];
      var verdict := CommitRow(user, op.mutation, ref, before, now, tables);
      return Verdicted(verdict);
    }

    method Mutate(env: Env, user: UserId, op: Operation, now: Time) returns (m: Mutated)
      requires var ref := Ref(op.kind, op.entityId);
               ref in rows ==> rows[ref].owner == user && rows[ref].version == op.baseVersion
      requires !op.mutation.UnknownMutation?
      modifies this
      ensures ledger == old(ledger)
      ensures var ref := Ref(op.kind, op.entityId);
              var spec := if ref in old(rows) then Modify(env, old(State()), user, op, now)
                          else Create(env, old(State()), user, op, now);
              match spec
              case Raised(next) => m == Threw && nextSequence == next
              case Decided(s, verdict) => m == Verdicted(verdict) && State() == s
    {
      var ref := Ref(op.kind, op.entityId);
      var before := FieldsOf(rows, ref);
      ghost var saved := rows;
      if ref !in rows {
        if op.mutation.Delete? {
          return Verdicted(Rejected);
        }
        match BuildFields(env, rows, user, op.kind, op.payload, now)
        case Raises => return Threw;
        case Refused => return Verdicted(Rejected);
        case Built(fields) =>
          var row := Row(user, 1, now, None, fields);
          if !Storable(env, rows, ref, row) {
            return Threw;
          }
          rows := rows[ref := row];
      } else if op.mutation.Delete? {
        rows := rows[ref := rows[ref].(deletedAt := Some(now), updatedAt := now, version := rows[ref].version + 1)];
      } else {
        m := Update(env, user, op, now);
        return;
      }
      assert rows == saved[ref := rows[ref]];
      var verdict := CommitRow(user, op.mutation, ref, before, now, saved);
      return Verdicted(verdict);
    }

    method Apply(
        env: Env, user: UserId, op: Operation, now: Time, prior: Option<Result>) returns (response: Option<Response>)
      modifies this
      ensures match SyncModel.Apply(env, old(State()), user, op, now, prior)
              case Aborted(next) => response == None && nextSequence == next
              case Applied(s, r) => response == Some(r) && State() == s
    {
      if prior.Some? {
        return Some(Duplicate(prior.value));
      }
      var ref := Ref(op.kind, op.entityId);
      var verdict;
      if op.kind.UnknownEntity? || op.mutation.UnknownMutation? {
        verdict := Rejected;
      } else if ref in rows && rows[ref].owner != user {
        verdict := Rejected;
      } else if ref in rows && rows[ref].version != op.baseVersion {
        verdict := Conflict(ref.id, op.baseVersion, rows[ref].version, PayloadOf(ref, rows[ref]), StaleVersion);
      } else {
        var m := Mutate(env, user, op, now);
        if m.Threw? {
          return None;
        }
        verdict := m.verdict;
      }
      if (user, op.id) in ledger {
        return None;
      }
      ledger := ledger[(user, op.id) := Result(op.id, verdict)];
      return Some(Fresh(Result(op.id, verdict)));
    }

    // The next operation of a batch; None when an exception escapes.
    method ApplyNext(r: Request, priors: Priors, i: nat, ghost saved: Server, ghost responses: seq<Response>)
      returns (response: Option<Response>)
      requires i < |r.ops| && Reached(r, saved, priors, State(), i, responses)
      modifies this
      ensures response.Some? ==> Reached(r, saved, priors, State(), i + 1, responses + [response.value])
      ensures response.None? ==> ApplyAll(r.env, saved, r.user, priors, r.ops, r.now) == Broken(nextSequence)
    {
      ReachedNext(r, saved, priors, State(), i, responses);
      response := Apply(r.env, r.user, r.ops[i], r.now, PriorOf(priors, r.ops[i].id));
    }

    // One request: refused for a device that is not active, rolled back when an exception
    // escapes, and otherwise committed with one response for each operation.
    method Push(r: Request) returns (reply: Reply)
      requires Valid()
      modifies this
      ensures SyncModel.Push(old(State()), r) == PushOutcome(State(), reply)
      ensures Valid()
    {
      PushKeepsKinds(State(), r);
      if !ActiveDevice(r.env, r.user, r.device) {
        return Forbidden;
      }
      var saved := State();
      var priors := PriorsOf(saved, r.user, r.ops);
      var responses: seq<Response> := [];
      BatchStarts(r, saved, priors);
      for i := 0 to |r.ops|
        invariant Reached(r, saved, priors, State(), i, responses)
      {
        var response := ApplyNext(r, priors, i, saved, responses);
        if response.None? {
          rows, log, ledger := saved.rows, saved.log, saved.ledger;
          return Failed;
        }
        responses := responses + [response.value];
      }
      BatchEnds(r, saved, priors, State(), responses);
      return Results(responses);
    }

    // The query asks for one row more than the page holds, to see whether more follow.
    method Changes(user: UserId, cursor: int, limit: nat) returns (page: Page)
      ensures page == SyncModel.Changes(State(), user, cursor, limit, pageLimit)
    {
      var bounded := if limit < pageLimit then limit else pageLimit;
      var found := After(log, user, cursor);
      var fetched := if |found| > bounded + 1 then found[..bounded + 1] else found;
      var hasMore := |fetched| > bounded;
      var kept := if hasMore then fetched[..bounded] else fetched;
      page := Page(kept, if kept != [] then kept[|kept| - 1].sequence else cursor, hasMore);
    }

    // The live rows of one table.
    method Select(user: UserId, kind: EntityType) returns (found: Replica)
      ensures found == LiveOfKind(State(), user, kind)
    {
      found := map ref | ref in rows && ref.kind == kind && rows[ref].owner == user && rows[ref].deletedAt.None? ::
        PayloadOf(ref, rows[ref]);
    }

    // The highest sequence number of the user's log entries, 0 when there is none.
    method Cursor(user: UserId) returns (cursor: nat)
      ensures IsCursor(log, user, cursor)
    {
      cursor := 0;
      for i := 0 to |log|
        invariant IsCursor(log[..i], user, cursor)
      {
        CursorNext(log, user, cursor, i);
        if log[i].user == user && log[i].sequence > cursor {
          cursor := log[i].sequence;
        }
      }
      assert log[..|log|] == log;
    }

    // One selection for each of the seven tables. Together they hold exactly the user's
    // live rows, and the cursor is the last entry of the user's log.
    method Bootstrap(user: UserId) returns (snapshot: Snapshot)
      requires Valid()
      ensures snapshot == SyncModel.Bootstrap(State(), user)
      ensures forall ref ::
              ref in snapshot.rows <==> ref in rows && rows[ref].owner == user && rows[ref].deletedAt.None?
      ensures forall ref | ref in snapshot.rows :: snapshot.rows[ref] == PayloadOf(ref, rows[ref])
      ensures IsCursor(log, user, snapshot.cursor)
    {
      var groups := Select(user, Watchlist);
      var items := Select(user, WatchlistItem);
      var portfolios := Select(user, Portfolio);
      var transactions := Select(user, PortfolioTransaction);
      var alerts := Select(user, AlertRule);
      var screeners := Select(user, SavedScreener);
      var settings := Select(user, UserSetting);
      var cursor := Cursor(user);
      snapshot := Snapshot(groups + items + portfolios + transactions + alerts + screeners + settings, cursor);
      KindsCoverLive(State(), user, snapshot.rows);
      CursorIsLast(log, user, cursor);
    }
  }

  function LiveOfKind(s: Server, user: UserId, kind: EntityType): Replica {
    map ref | ref in s.rows && ref.kind == kind && s.rows[ref].owner == user && s.rows[ref].deletedAt.None? ::
      PayloadOf(ref, s.rows[ref])
  }

  function LiveOfKinds(s: Server, user: UserId, kinds: set<EntityType>): Replica {
    map ref | ref in s.rows && ref.kind in kinds && s.rows[ref].owner == user && s.rows[ref].deletedAt.None? ::
      PayloadOf(ref, s.rows[ref])
  }

  lemma {:induction false} OneKindMore(s: Server, user: UserId, kinds: set<EntityType>, kind: EntityType)
    ensures LiveOfKinds(s, user, kinds) + LiveOfKind(s, user, kind) == LiveOfKinds(s, user, kinds + {kind})
  {
  }

  lemma {:induction false} SevenKinds(s: Server, user: UserId)
    requires forall ref | ref in s.rows :: !ref.kind.UnknownEntity?
    ensures LiveOfKinds(s, user,
            {Watchlist, WatchlistItem, Portfolio, PortfolioTransaction, AlertRule, SavedScreener, UserSetting})
            == Live(s, user)
  {
    forall ref | ref in Live(s, user)
      ensures ref.kind in {Watchlist, WatchlistItem, Portfolio, PortfolioTransaction, AlertRule, SavedScreener,
              UserSetting}
    {
    }
  }

  lemma {:induction false} KindsCoverLive(s: Server, user: UserId, all: Replica)
    requires forall ref | ref in s.rows :: !ref.kind.UnknownEntity?
    requires all == LiveOfKind(s, user, Watchlist) + LiveOfKind(s, user, WatchlistItem) + LiveOfKind(s, user, Portfolio)
                    + LiveOfKind(s, user, PortfolioTransaction) + LiveOfKind(s, user, AlertRule)
                    + LiveOfKind(s, user, SavedScreener) + LiveOfKind(s, user, UserSetting)
    ensures all == Live(s, user)
  {
    assert LiveOfKind(s, user, Watchlist) == LiveOfKinds(s, user, {Watchlist});
    OneKindMore(s, user, {Watchlist}, WatchlistItem);
    OneKindMore(s, user, {Watchlist} + {WatchlistItem}, Portfolio);
    OneKindMore(s, user, {Watchlist} + {WatchlistItem} + {Portfolio}, PortfolioTransaction);
    OneKindMore(s, user, {Watchlist} + {WatchlistItem} + {Portfolio} + {PortfolioTransaction}, AlertRule);
    OneKindMore(s, user, {Watchlist} + {WatchlistItem} + {Portfolio} + {PortfolioTransaction} + {AlertRule},
      SavedScreener);
    var six := {Watchlist} + {WatchlistItem} + {Portfolio} + {PortfolioTransaction} + {AlertRule} + {SavedScreener};
    OneKindMore(s, user, six, UserSetting);
    assert six + {UserSetting}
      == {Watchlist, WatchlistItem, Portfolio, PortfolioTransaction, AlertRule, SavedScreener, UserSetting};
    SevenKinds(s, user);
  }

  // 0 or an entry of the user, and no entry of the user is later.
  ghost predicate IsCursor(log: seq<Change>, user: UserId, cursor: nat) {
    && (cursor == 0 || exists i | 0 <= i < |log| :: log[i].user == user && log[i].sequence == cursor)
    && forall i | 0 <= i < |log| && log[i].user == user :: log[i].sequence <= cursor
  }

  lemma {:induction false} CursorNext(log: seq<Change>, user: UserId, cursor: nat, n: nat)
    requires n < |log| && IsCursor(log[..n], user, cursor)
    ensures IsCursor(log[..n + 1], user,
            if log[n].user == user && log[n].sequence > cursor then log[n].sequence else cursor)
  {
    var before, after := log[..n], log[..n + 1];
    assert after[n] == log[n];
    if cursor != 0 {
      var i :| 0 <= i < |before| && before[i].user == user && before[i].sequence == cursor;
      assert after[i] == before[i];
    }
  }

  lemma {:induction false} CursorIsLast(log: seq<Change>, user: UserId, cursor: nat)
    requires IsCursor(log, user, cursor)
    ensures cursor == LastSequence(log, user)
  {
    LastIsCursor(log, user);
    var last := LastSequence(log, user);
    if cursor != 0 {
      var i :| 0 <= i < |log| && log[i].user == user && log[i].sequence == cursor;
      assert log[i].sequence <= last;
    }
    if last != 0 {
      var i :| 0 <= i < |log| && log[i].user == user && log[i].sequence == last;
      assert log[i].sequence <= cursor;
    }
  }

  lemma {:induction false} LastIsCursor(log: seq<Change>, user: UserId)
    ensures IsCursor(log, user, LastSequence(log, user))
  {
    if log != [] {
      var n := |log| - 1;
      LastIsCursor(log[..n], user);
      CursorNext(log, user, LastSequence(log[..n], user), n);
      assert log[..n + 1] == log;
    }
  }

  lemma {:induction false} PushKeepsKinds(s: Server, r: Request)
    requires forall ref | ref in s.rows :: !ref.kind.UnknownEntity?
    ensures forall ref | ref in Push(s, r).server.rows :: !ref.kind.UnknownEntity?
  {
    var es := PushEffects(s, r);
    StepsKeepKinds(s, es);
  }

  lemma {:induction false} StepsKeepKinds(s: Server, es: seq<Effect>)
    requires AllLegal(s, es) && forall ref | ref in s.rows :: !ref.kind.UnknownEntity?
    ensures forall ref | ref in PerformAll(s, es).rows :: !ref.kind.UnknownEntity?
    decreases |es|
  {
    if es != [] {
      StepsKeepKinds(Perform(s, es[0]), es[1..]);
    }
  }

  // The batch is where the first i operations take it, and the rest is still to come.
  ghost predicate Reached(r: Request, saved: Server, priors: Priors, s: Server, i: nat, responses: seq<Response>)
    requires i <= |r.ops|
  {
    ApplyAll(r.env, saved, r.user, priors, r.ops, r.now)
    == Continue(responses, ApplyAll(r.env, s, r.user, priors, r.ops[i..], r.now))
  }

  lemma {:induction false} ReachedNext(
      r: Request, saved: Server, priors: Priors, s: Server, i: nat, responses: seq<Response>)
    requires i < |r.ops| && Reached(r, saved, priors, s, i, responses)
    ensures match SyncModel.Apply(r.env, s, r.user, r.ops[i], r.now, PriorOf(priors, r.ops[i].id))
            case Aborted(next) => ApplyAll(r.env, saved, r.user, priors, r.ops, r.now) == Broken(next)
            case Applied(s1, response) => Reached(r, saved, priors, s1, i + 1, responses + [response])
  {
    assert r.ops[i..][1..] == r.ops[i + 1..];
    match SyncModel.Apply(r.env, s, r.user, r.ops[i], r.now, PriorOf(priors, r.ops[i].id))
    case Aborted(_) =>
    case Applied(s1, response) =>
      ContinueMore(responses, response, ApplyAll(r.env, s1, r.user, priors, r.ops[i + 1..], r.now));
  }

  lemma {:induction false} BatchStarts(r: Request, s: Server, priors: Priors)
    ensures Reached(r, s, priors, s, 0, [])
  {
    assert r.ops[0..] == r.ops;
    var rest := ApplyAll(r.env, s, r.user, priors, r.ops, r.now);
    if rest.Done? {
      assert [] + rest.responses == rest.responses;
    }
  }

  lemma {:induction false} BatchEnds(r: Request, saved: Server, priors: Priors, s: Server, responses: seq<Response>)
    requires Reached(r, saved, priors, s, |r.ops|, responses)
    ensures ApplyAll(r.env, saved, r.user, priors, r.ops, r.now) == Done(s, responses)
  {
    assert r.ops[|r.ops|..] == [] && responses + [] == responses;
  }

  ghost function Continue(responses: seq<Response>, rest: Batch): Batch {
    match rest
    case Broken(next) => Broken(next)
    case Done(s, more) => Done(s, responses + more)
  }

  lemma {:induction false} ContinueMore(responses: seq<Response>, response: Response, rest: Batch)
    ensures Continue(responses + [response], rest)
            == Continue(responses, match rest
                                   case Broken(next) => Broken(next)
                                   case Done(s, more) => Done(s, [response] + more))
  {
    if rest.Done? {
      assert responses + [response] + rest.responses == responses + ([response] + rest.responses);
    }
  }
}
