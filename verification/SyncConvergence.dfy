// Replicas: what a device holds after any interleaving of its pulls with everybody's pushes.
module SyncConvergence {
  import opened Wrappers
  import opened SyncModel
  import opened SyncEffects
  import opened SyncInvariant

  // ------------------------------------------------- cursors and the log

  lemma {:induction false} AfterConcat(p: seq<Change>, q: seq<Change>, user: UserId, cursor: int)
    ensures After(p + q, user, cursor) == After(p, user, cursor) + After(q, user, cursor)
    decreases |q|
  {
    if q == [] {
      assert p + q == p;
    } else {
      var last := q[|q| - 1];
      assert p + q == (p + q[..|q| - 1]) + [last];
      AfterGrows(p + q[..|q| - 1], last, user, cursor);
      AfterConcat(p, q[..|q| - 1], user, cursor);
    }
  }

  lemma {:induction false} AfterMembers(log: seq<Change>, user: UserId, cursor: int)
    ensures forall i | 0 <= i < |After(log, user, cursor)| ::
              var c := After(log, user, cursor)[i]; c in log && c.user == user && c.sequence > cursor
    decreases |log|
  {
    if log != [] {
      AfterMembers(log[..|log| - 1], user, cursor);
    }
  }

  lemma {:induction false} AfterNone(log: seq<Change>, user: UserId, cursor: int)
    requires forall i | 0 <= i < |log| :: log[i].user == user ==> log[i].sequence <= cursor
    ensures After(log, user, cursor) == []
    decreases |log|
  {
    if log != [] {
      AfterNone(log[..|log| - 1], user, cursor);
    }
  }

  // A cursor below every sequence number selects the same entries as any other such cursor.
  lemma {:induction false} AfterAll(log: seq<Change>, user: UserId, a: int, b: int)
    requires forall i | 0 <= i < |log| :: a < log[i].sequence && b < log[i].sequence
    ensures After(log, user, a) == After(log, user, b)
    decreases |log|
  {
    if log != [] {
      AfterAll(log[..|log| - 1], user, a, b);
    }
  }

  lemma {:induction false} LastSequenceBounds(log: seq<Change>, user: UserId)
    ensures forall i | 0 <= i < |log| :: log[i].user == user ==> log[i].sequence <= LastSequence(log, user)
    ensures LastSequence(log, user) == 0 || exists i :: 0 <= i < |log| && log[i].sequence == LastSequence(log, user)
    decreases |log|
  {
    if log != [] {
      LastSequenceBounds(log[..|log| - 1], user);
    }
  }

  // The log only grows, and what is appended has higher sequence numbers.
  ghost predicate Extends(s: Server, t: Server) {
    && |s.log| <= |t.log|
    && t.log[..|s.log|] == s.log
    && s.nextSequence <= t.nextSequence
    && (forall i | |s.log| <= i < |t.log| :: s.nextSequence <= t.log[i].sequence)
  }

  function Appended(s: Server, t: Server): seq<Change>
    requires |s.log| <= |t.log|
  {
    t.log[|s.log|..]
  }

  lemma {:induction false} StepsExtend(s: Server, es: seq<Effect>)
    requires AllLegal(s, es)
    ensures Extends(s, PerformAll(s, es))
    decreases |es|
  {
    if es != [] {
      StepsExtend(Perform(s, es[0]), es[1..]);
    }
  }

  lemma {:induction false} RunExtends(s: Server, requests: seq<Request>)
    ensures Extends(s, Run(s, requests))
  {
    var es := RunEffects(s, requests);
    StepsExtend(s, es);
  }

  lemma {:induction false} AfterExtends(s: Server, t: Server, user: UserId, cursor: int)
    requires Extends(s, t)
    ensures After(t.log, user, cursor) == After(s.log, user, cursor) + After(Appended(s, t), user, cursor)
  {
    assert t.log == s.log + Appended(s, t);
    AfterConcat(s.log, Appended(s, t), user, cursor);
  }

  // ---------------------------------------------------- agreement of replicas

  // How closely replicas are compared: with or without setting keys, the one column a
  // refused update may leave changed, and with columns in the form in which the log shows
  // them or in the form in which they read back.
  datatype Sight = Sight(keys: bool, forms: bool)

  function View(sight: Sight, schema: Schema, ref: Ref, payload: Payload): Payload {
    var fields := if sight.forms then payload.fields else Settled(schema, ref.kind, payload.fields);
    payload.(fields := if sight.keys || !ref.kind.UserSetting? then fields else fields - {"key"})
  }

  ghost predicate Agree(sight: Sight, schema: Schema, a: Replica, b: Replica) {
    && a.Keys == b.Keys
    && (forall ref | ref in a :: View(sight, schema, ref, a[ref]) == View(sight, schema, ref, b[ref]))
  }

  // The effects that comparison sees through.
  ghost predicate Within(sight: Sight, es: seq<Effect>) {
    (sight.keys ==> NoSmear(es)) && (sight.forms ==> NoRaw(es))
  }

  lemma {:induction false} WithinTail(sight: Sight, es: seq<Effect>)
    requires es != [] && Within(sight, es)
    ensures Within(sight, es[1..]) && (sight.keys ==> !es[0].Smear?)
            && (sight.forms && es[0].Write? ==> es[0].logged == es[0].row.fields)
  {
    assert es[0] in es && forall e | e in es[1..] :: e in es;
  }

  lemma {:induction false} ExactIsEqual(schema: Schema, a: Replica, b: Replica)
    requires Agree(Sight(true, true), schema, a, b)
    ensures a == b
  {
    forall ref | ref in a ensures a[ref] == b[ref] {
      assert View(Sight(true, true), schema, ref, a[ref]) == View(Sight(true, true), schema, ref, b[ref]);
    }
  }

  lemma {:induction false} FoldConcat(m: Replica, p: seq<Change>, q: seq<Change>)
    ensures Fold(m, p + q) == Fold(Fold(m, p), q)
    decreases |q|
  {
    if q == [] {
      assert p + q == p;
    } else {
      assert (p + q)[..|p + q| - 1] == p + q[..|q| - 1];
      FoldConcat(m, p, q[..|q| - 1]);
    }
  }

  lemma {:induction false} WriteTracked(sight: Sight, m: Replica, s: Server, e: Effect, user: UserId)
    requires e.Write? && Legal(s, e) && Lawful(s.schema)
    requires sight.forms ==> e.logged == e.row.fields
    requires Agree(sight, s.schema, m, RowsOf(s, user))
    ensures Agree(sight, s.schema, if e.user == user then m[e.ref := ChangeOf(s, e).payload] else m,
            RowsOf(Perform(s, e), user))
  {
    var after := RowsOf(Perform(s, e), user);
    var tracked := if e.user == user then m[e.ref := ChangeOf(s, e).payload] else m;
    assert View(sight, s.schema, e.ref, ChangeOf(s, e).payload)
      == View(sight, s.schema, e.ref, PayloadOf(e.ref, e.row));
    assert tracked.Keys == after.Keys;
    forall ref | ref in tracked
      ensures View(sight, s.schema, ref, tracked[ref]) == View(sight, s.schema, ref, after[ref]) {
      if ref != e.ref {
        assert after[ref] == RowsOf(s, user)[ref];
      }
    }
  }

  lemma {:induction false} SmearedView(sight: Sight, schema: Schema, ref: Ref, row: Row, key: Value)
    requires ref.kind.UserSetting? && !sight.keys
    ensures View(sight, schema, ref, PayloadOf(ref, Smeared(row, key))) == View(sight, schema, ref, PayloadOf(ref, row))
  {
    var fields := row.fields["key" := key];
    assert fields - {"key"} == row.fields - {"key"};
    assert Settled(schema, ref.kind, fields) - {"key"} == Settled(schema, ref.kind, row.fields) - {"key"};
  }

  lemma {:induction false} SmearTracked(sight: Sight, m: Replica, s: Server, e: Effect, user: UserId)
    requires e.Smear? && Legal(s, e) && !sight.keys
    requires Agree(sight, s.schema, m, RowsOf(s, user))
    ensures Agree(sight, s.schema, m, RowsOf(Perform(s, e), user))
  {
    var before, after := RowsOf(s, user), RowsOf(Perform(s, e), user);
    assert before.Keys == after.Keys;
    forall ref | ref in m ensures View(sight, s.schema, ref, m[ref]) == View(sight, s.schema, ref, after[ref]) {
      assert View(sight, s.schema, ref, m[ref]) == View(sight, s.schema, ref, before[ref]);
      if ref == e.ref {
        SmearedView(sight, s.schema, ref, s.rows[ref], e.key);
      } else {
        assert after[ref] == before[ref];
      }
    }
  }

  lemma {:induction false} FoldOne(m: Replica, c: Change)
    ensures Fold(m, [c]) == m[c.ref := c.payload] && Fold(m, []) == m
  {
    assert [c][..0] == [];
  }

  lemma {:induction false} AfterOne(c: Change, user: UserId, cursor: int)
    ensures After([c], user, cursor) == if c.user == user && c.sequence > cursor then [c] else []
  {
    assert [c][..0] == [];
    assert After([], user, cursor) == [];
  }

  lemma {:induction false} EffectTracked(sight: Sight, m: Replica, s: Server, e: Effect, user: UserId, cursor: int)
    requires Legal(s, e) && Lawful(s.schema) && cursor < s.nextSequence
    requires (sight.keys ==> !e.Smear?) && (sight.forms && e.Write? ==> e.logged == e.row.fields)
    requires Agree(sight, s.schema, m, RowsOf(s, user))
    ensures |s.log| <= |Perform(s, e).log|
    ensures Agree(sight, s.schema, Fold(m, After(Appended(s, Perform(s, e)), user, cursor)),
            RowsOf(Perform(s, e), user))
  {
    var t := Perform(s, e);
    if e.Write? {
      var c := ChangeOf(s, e);
      assert Appended(s, t) == [c];
      AfterOne(c, user, cursor);
      FoldOne(m, c);
      WriteTracked(sight, m, s, e, user);
    } else {
      assert Appended(s, t) == [];
      if e.Smear? {
        SmearTracked(sight, m, s, e, user);
      } else {
        assert t.rows == s.rows;
      }
    }
  }

  // Folding what was appended is folding what each part of the way appended.
  lemma {:induction false} FoldThrough(m: Replica, s: Server, s1: Server, t: Server, user: UserId, cursor: int)
    requires |s.log| <= |s1.log| <= |t.log| && s1.log[..|s.log|] == s.log && t.log[..|s1.log|] == s1.log
    ensures Fold(m, After(Appended(s, t), user, cursor))
            == Fold(Fold(m, After(Appended(s, s1), user, cursor)), After(Appended(s1, t), user, cursor))
  {
    assert Appended(s, t) == Appended(s, s1) + Appended(s1, t);
    AfterConcat(Appended(s, s1), Appended(s1, t), user, cursor);
    FoldConcat(m, After(Appended(s, s1), user, cursor), After(Appended(s1, t), user, cursor));
  }

  // A replica that agrees with the rows still agrees after folding in what was appended.
  lemma {:induction false} EffectsTracked(
      sight: Sight, m: Replica, s: Server, es: seq<Effect>, user: UserId, cursor: int)
    requires AllLegal(s, es) && Lawful(s.schema) && cursor < s.nextSequence && Within(sight, es)
    requires Agree(sight, s.schema, m, RowsOf(s, user))
    ensures Extends(s, PerformAll(s, es))
    ensures Agree(sight, s.schema, Fold(m, After(Appended(s, PerformAll(s, es)), user, cursor)),
            RowsOf(PerformAll(s, es), user))
    decreases |es|
  {
    StepsExtend(s, es);
    var t := PerformAll(s, es);
    if es == [] {
      assert Appended(s, t) == [];
    } else {
      var s1 := Perform(s, es[0]);
      WithinTail(sight, es);
      EffectTracked(sight, m, s, es[0], user, cursor);
      var m1 := Fold(m, After(Appended(s, s1), user, cursor));
      EffectsTracked(sight, m1, s1, es[1..], user, cursor);
      FoldThrough(m, s, s1, t, user, cursor);
    }
  }

  // What requests let a replica see exactly: setting keys, unless a payload pairs a key
  // with a null value, and the form of columns, unless a payload may assign a column a
  // value that is logged otherwise than stored.
  function SightOf(schema: Schema, requests: seq<Request>): Sight {
    Sight(SafeRequests(requests), PlainRequests(schema, requests))
  }

  // Log refinement. In every reachable state, folding a user's log with last payload
  // wins gives back every row of that user, tombstones included: up to the stored form of
  // columns and the key of setting rows always, and each of them exactly when the
  // requests allow it.
  lemma {:induction false} LogReproducesRows(schema: Schema, requests: seq<Request>, user: UserId)
    requires Lawful(schema)
    ensures var t := Run(EmptyServer(schema), requests);
            Agree(SightOf(schema, requests), schema, Fold(map[], After(t.log, user, 0)), RowsOf(t, user))
  {
    var empty := EmptyServer(schema);
    var es := RunEffects(empty, requests);
    SafeCauses(schema, es, requests);
    EffectsTracked(SightOf(schema, requests), map[], empty, es, user, 0);
    var t := Run(empty, requests);
    assert Appended(empty, t) == t.log;
  }

  // ------------------------------------------------------------- live rows

  function LiveOf(m: Replica): Replica {
    map ref | ref in m && m[ref].deletedAt.None? :: m[ref]
  }

  lemma {:induction false} LiveIsLiveOf(s: Server, user: UserId)
    ensures Live(s, user) == LiveOf(RowsOf(s, user))
  {
    assert forall ref | ref in Live(s, user) :: RowsOf(s, user)[ref] == Live(s, user)[ref];
  }

  // A device that drops deleted entities holds the live part of one that keeps tombstones.
  lemma {:induction false} ReplayIsLive(m: Replica, changes: seq<Change>)
    requires Labelled(changes)
    ensures Replay(LiveOf(m), changes) == LiveOf(Fold(m, changes))
    decreases |changes|
  {
    if changes != [] {
      var before := changes[..|changes| - 1];
      ReplayIsLive(m, before);
    }
  }

  lemma {:induction false} LiveAgrees(sight: Sight, schema: Schema, a: Replica, b: Replica)
    requires Agree(sight, schema, a, b)
    ensures Agree(sight, schema, LiveOf(a), LiveOf(b))
  {
    forall ref
      ensures ref in LiveOf(a) <==> ref in LiveOf(b)
    {
      if ref in a {
        assert View(sight, schema, ref, a[ref]) == View(sight, schema, ref, b[ref]);
      }
    }
  }

  lemma {:induction false} AfterLabelled(log: seq<Change>, user: UserId, cursor: int)
    requires Labelled(log)
    ensures Labelled(After(log, user, cursor))
  {
    AfterMembers(log, user, cursor);
  }

  // ------------------------------------------------------------ pagination

  // A device's pull loop: before each page the server handles any pushes of anybody.
  datatype PullStep = PullStep(between: seq<Request>, limit: nat, pageLimit: nat)

  datatype Pulled = Pulled(server: Server, changes: seq<Change>, cursor: int, hasMore: bool)

  function Pull(s: Server, user: UserId, cursor: int, steps: seq<PullStep>): Pulled
    decreases |steps|
  {
    if steps == [] then Pulled(s, [], cursor, true)
    else
      var s1 := Run(s, steps[0].between);
      var page := Changes(s1, user, cursor, steps[0].limit, steps[0].pageLimit);
      var rest := Pull(s1, user, page.nextCursor, steps[1..]);
      Prepend(page, rest, steps[1..] == [])
  }

  function Prepend(page: Page, rest: Pulled, last: bool): Pulled {
    Pulled(rest.server, page.changes + rest.changes, rest.cursor, if last then page.hasMore else rest.hasMore)
  }

  function AllRequests(steps: seq<PullStep>): seq<Request>
    decreases |steps|
  {
    if steps == [] then [] else steps[0].between + AllRequests(steps[1..])
  }

  lemma {:induction false} RunConcat(s: Server, a: seq<Request>, b: seq<Request>)
    ensures Run(s, a + b) == Run(Run(s, a), b)
    decreases |a|
  {
    if a == [] {
      assert a + b == b;
    } else {
      assert (a + b)[1..] == a[1..] + b;
      RunConcat(Push(s, a[0]).server, a[1..], b);
    }
  }

  lemma {:induction false} PullRuns(s: Server, user: UserId, cursor: int, steps: seq<PullStep>)
    ensures Pull(s, user, cursor, steps).server == Run(s, AllRequests(steps))
    decreases |steps|
  {
    if steps != [] {
      var s1 := Run(s, steps[0].between);
      var page := Changes(s1, user, cursor, steps[0].limit, steps[0].pageLimit);
      PullRuns(s1, user, page.nextCursor, steps[1..]);
      RunConcat(s, steps[0].between, AllRequests(steps[1..]));
    }
  }

  // One page splits the entries after a cursor at its next cursor.
  lemma {:induction false} PageSplits(s: Server, user: UserId, cursor: int, limit: nat, pageLimit: nat)
    requires Ordered(s)
    ensures
      var page := Changes(s, user, cursor, limit, pageLimit);
      && After(s.log, user, cursor) == page.changes + After(s.log, user, page.nextCursor)
      && (page.hasMore <==> After(s.log, user, page.nextCursor) != [])
      && |page.changes| <= limit && |page.changes| <= pageLimit
      && cursor <= page.nextCursor
      && (page.changes != [] ==> cursor < page.nextCursor < s.nextSequence)
  {
    var all := After(s.log, user, cursor);
    var page := Changes(s, user, cursor, limit, pageLimit);
    AfterMembers(s.log, user, cursor);
    if page.changes == [] {
      assert all == [] + all;
    } else {
      AfterSplit(s.log, user, cursor, |page.changes|);
      assert all == all[..|page.changes|] + all[|page.changes|..];
      var last := all[|page.changes| - 1];
      assert last in s.log;
    }
  }

  ghost predicate Ascending(changes: seq<Change>) {
    forall i, j | 0 <= i < j < |changes| :: changes[i].sequence < changes[j].sequence
  }

  lemma {:induction false} AfterAscends(log: seq<Change>, user: UserId, cursor: int)
    requires Ascending(log)
    ensures Ascending(After(log, user, cursor))
    decreases |log|
  {
    if log != [] {
      var before := log[..|log| - 1];
      AfterAscends(before, user, cursor);
      AfterMembers(before, user, cursor);
      var front := After(before, user, cursor);
      forall i | 0 <= i < |front|
        ensures front[i].sequence < log[|log| - 1].sequence
      {
        assert front[i] in before;
      }
    }
  }

  lemma {:induction false} AfterSplit(log: seq<Change>, user: UserId, cursor: int, n: nat)
    requires forall i, j | 0 <= i < j < |log| :: log[i].sequence < log[j].sequence
    requires 0 < n <= |After(log, user, cursor)|
    ensures After(log, user, After(log, user, cursor)[n - 1].sequence) == After(log, user, cursor)[n..]
    decreases |log|
  {
    var all := After(log, user, cursor);
    var before := log[..|log| - 1];
    var last := log[|log| - 1];
    var front := After(before, user, cursor);
    AfterMembers(before, user, cursor);
    if n <= |front| {
      AfterSplit(before, user, cursor, n);
      assert all[n - 1] == front[n - 1] && front[n - 1] in before;
    } else {
      assert all[n - 1] == last;
      AfterNone(log, user, last.sequence);
    }
  }

  // Entries appended later come after every cursor handed out so far.
  lemma {:induction false} LaterEntries(s: Server, t: Server, user: UserId, cursor: int, limit: nat, pageLimit: nat)
    requires Ordered(s) && Extends(s, t)
    ensures
      var page := Changes(s, user, cursor, limit, pageLimit);
      After(t.log, user, cursor) == page.changes + After(t.log, user, page.nextCursor)
  {
    var page := Changes(s, user, cursor, limit, pageLimit);
    var added := Appended(s, t);
    PageSplits(s, user, cursor, limit, pageLimit);
    AfterExtends(s, t, user, cursor);
    AfterExtends(s, t, user, page.nextCursor);
    if page.changes != [] {
      AfterAll(added, user, cursor, page.nextCursor);
    }
  }

  ghost predicate ExactPull(user: UserId, cursor: int, steps: seq<PullStep>, pulled: Pulled) {
    && After(pulled.server.log, user, cursor) == pulled.changes + After(pulled.server.log, user, pulled.cursor)
    && (steps != [] && !pulled.hasMore ==> After(pulled.server.log, user, pulled.cursor) == [])
  }

  lemma {:induction false} PageThenRest(
      user: UserId, cursor: int, step: PullStep, tail: seq<PullStep>, s: Server, rest: Pulled)
    requires Ordered(s) && Extends(s, rest.server)
    requires var next := Changes(s, user, cursor, step.limit, step.pageLimit).nextCursor;
             ExactPull(user, next, tail, rest) && (tail == [] ==> rest == Pulled(s, [], next, true))
    ensures var page := Changes(s, user, cursor, step.limit, step.pageLimit);
            ExactPull(user, cursor, [step] + tail,
                      Prepend(page, rest, tail == []))
  {
    var page := Changes(s, user, cursor, step.limit, step.pageLimit);
    LaterEntries(s, rest.server, user, cursor, step.limit, step.pageLimit);
    PageSplits(s, user, cursor, step.limit, step.pageLimit);
    var remaining := After(rest.server.log, user, rest.cursor);
    assert page.changes + (rest.changes + remaining) == (page.changes + rest.changes) + remaining;
  }

  lemma {:induction false} PullFirst(s: Server, user: UserId, cursor: int, step: PullStep, tail: seq<PullStep>)
    ensures var s1 := Run(s, step.between);
            var page := Changes(s1, user, cursor, step.limit, step.pageLimit);
            Pull(s, user, cursor, [step] + tail) == Prepend(page, Pull(s1, user, page.nextCursor, tail), tail == [])
  {
    assert ([step] + tail)[1..] == tail;
  }

  // Pagination: the pages of a pull, whatever is pushed between them, are exactly the
  // user's entries between the first and the last cursor, each once and in order; a pull
  // that ends with has_more false has every entry after its first cursor.
  lemma {:induction false} PullIsExact(s: Server, user: UserId, cursor: int, steps: seq<PullStep>)
    requires WellFormed(s)
    ensures ExactPull(user, cursor, steps, Pull(s, user, cursor, steps))
    decreases |steps|
  {
    if steps == [] {
      assert After(s.log, user, cursor) == [] + After(s.log, user, cursor);
    } else {
      var step, tail := steps[0], steps[1..];
      assert [step] + tail == steps;
      var s1 := Run(s, step.between);
      RunKeepsWellFormed(s, step.between);
      var next := Changes(s1, user, cursor, step.limit, step.pageLimit).nextCursor;
      var rest := Pull(s1, user, next, tail);
      PullIsExact(s1, user, next, tail);
      PullRuns(s1, user, next, tail);
      RunExtends(s1, AllRequests(tail));
      PageThenRest(user, cursor, step, tail, s1, rest);
      PullFirst(s, user, cursor, step, tail);
    }
  }

  // While has_more holds, a page of a fixed log leaves
  // exactly `limit` fewer entries, unless the limit is 0 and the cursor stays where it is.
  lemma {:induction false} PageProgress(s: Server, user: UserId, cursor: int, limit: nat, pageLimit: nat)
    requires WellFormed(s)
    ensures
      var page := Changes(s, user, cursor, limit, pageLimit);
      page.hasMore ==>
        && |After(s.log, user, page.nextCursor)| == |After(s.log, user, cursor)| - Min(limit, pageLimit)
        && (page.nextCursor > cursor <==> limit > 0 && pageLimit > 0)
  {
    PageSplits(s, user, cursor, limit, pageLimit);
  }

  ghost predicate Quiet(steps: seq<PullStep>) {
    forall i | 0 <= i < |steps| :: steps[i].between == [] && steps[i].limit > 0 && steps[i].pageLimit > 0
  }

  // Once pushes stop, a pull ends within as many pages as there are entries left, and at
  // least one.
  lemma {:induction false} QuietPullEnds(s: Server, user: UserId, cursor: int, steps: seq<PullStep>)
    requires WellFormed(s) && Quiet(steps)
    requires |steps| > 0 && |steps| >= |After(s.log, user, cursor)|
    ensures !Pull(s, user, cursor, steps).hasMore
    decreases |steps|
  {
    var first, rest := steps[0], steps[1..];
    assert Run(s, first.between) == s;
    var page := Changes(s, user, cursor, first.limit, first.pageLimit);
    PageSplits(s, user, cursor, first.limit, first.pageLimit);
    PageProgress(s, user, cursor, first.limit, first.pageLimit);
    if rest != [] {
      QuietPullEnds(s, user, page.nextCursor, rest);
    }
  }

  lemma {:induction false} PullConcat(s: Server, user: UserId, cursor: int, a: seq<PullStep>, b: seq<PullStep>)
    requires b != []
    ensures var first := Pull(s, user, cursor, a);
            var second := Pull(first.server, user, first.cursor, b);
            Pull(s, user, cursor, a + b) == Then(first, second)
    decreases |a|
  {
    if a == [] {
      assert a + b == b;
      NothingPulled(Pull(s, user, cursor, b));
    } else {
      var s1 := Run(s, a[0].between);
      var page := Changes(s1, user, cursor, a[0].limit, a[0].pageLimit);
      assert (a + b)[0] == a[0] && (a + b)[1..] == a[1..] + b;
      PullConcat(s1, user, page.nextCursor, a[1..], b);
      var inner := Pull(s1, user, page.nextCursor, a[1..]);
      PrependConcat(page, inner, Pull(inner.server, user, inner.cursor, b), a[1..] == []);
    }
  }

  // A pull after another one.
  function Then(first: Pulled, second: Pulled): Pulled {
    Pulled(second.server, first.changes + second.changes, second.cursor, second.hasMore)
  }

  lemma {:induction false} NothingPulled(second: Pulled)
    ensures forall s, cursor, more :: Then(Pulled(s, [], cursor, more), second) == second
  {
    assert [] + second.changes == second.changes;
  }

  lemma {:induction false} PrependConcat(page: Page, inner: Pulled, second: Pulled, last: bool)
    ensures Prepend(page, Then(inner, second), false) == Then(Prepend(page, inner, last), second)
  {
    assert page.changes + (inner.changes + second.changes) == (page.changes + inner.changes) + second.changes;
  }

  // Termination. However many pages were pulled while others pushed, a pull with positive
  // limits ends once pushes stop: after the busy pages it needs at most one quiet page for
  // each entry still to come, and at least one. It then has returned every entry.
  lemma {:induction false} PullEnds(s: Server, user: UserId, cursor: int, busy: seq<PullStep>, quiet: seq<PullStep>)
    requires WellFormed(s) && Quiet(quiet)
    requires var first := Pull(s, user, cursor, busy);
             |quiet| > 0 && |quiet| >= |After(first.server.log, user, first.cursor)|
    ensures var pulled := Pull(s, user, cursor, busy + quiet);
            !pulled.hasMore && pulled.changes == After(pulled.server.log, user, cursor)
  {
    var first := Pull(s, user, cursor, busy);
    PullRuns(s, user, cursor, busy);
    RunKeepsWellFormed(s, AllRequests(busy));
    QuietPullEnds(first.server, user, first.cursor, quiet);
    PullConcat(s, user, cursor, busy, quiet);
    PulledAll(s, user, cursor, busy + quiet);
  }

  // A pull that ends with has_more false returns all entries after its cursor.
  lemma {:induction false} PulledAll(s: Server, user: UserId, cursor: int, steps: seq<PullStep>)
    requires WellFormed(s) && steps != [] && !Pull(s, user, cursor, steps).hasMore
    ensures var pulled := Pull(s, user, cursor, steps);
            pulled.server == Run(s, AllRequests(steps)) && pulled.changes == After(pulled.server.log, user, cursor)
  {
    var pulled := Pull(s, user, cursor, steps);
    PullIsExact(s, user, cursor, steps);
    PullRuns(s, user, cursor, steps);
    assert pulled.changes + [] == pulled.changes;
  }

  // ------------------------------------------------------------ convergence

  lemma {:induction false} BootstrapCursor(s: Server, user: UserId)
    requires Ordered(s)
    ensures After(s.log, user, LastSequence(s.log, user)) == []
    ensures LastSequence(s.log, user) < s.nextSequence
  {
    LastSequenceBounds(s.log, user);
    AfterNone(s.log, user, LastSequence(s.log, user));
  }

  lemma {:induction false} CatchUp(sight: Sight, m: Replica, t: Server, user: UserId, cursor: int)
    requires WellFormed(t)
    requires Agree(sight, t.schema, Fold(m, After(t.log, user, cursor)), RowsOf(t, user))
    ensures Agree(sight, t.schema, Replay(LiveOf(m), After(t.log, user, cursor)), Live(t, user))
  {
    var changes := After(t.log, user, cursor);
    AfterLabelled(t.log, user, cursor);
    ReplayIsLive(m, changes);
    LiveAgrees(sight, t.schema, Fold(m, changes), RowsOf(t, user));
    LiveIsLiveOf(t, user);
  }

  lemma {:induction false} SnapshotCatchesUp(sight: Sight, s: Server, es: seq<Effect>, user: UserId)
    requires WellFormed(s) && Lawful(s.schema) && AllLegal(s, es) && Within(sight, es)
    ensures Agree(sight, s.schema, Replay(Live(s, user), After(PerformAll(s, es).log, user, LastSequence(s.log, user))),
                  Live(PerformAll(s, es), user))
  {
    var t := PerformAll(s, es);
    var cursor := LastSequence(s.log, user);
    BootstrapCursor(s, user);
    EffectsTracked(sight, RowsOf(s, user), s, es, user, cursor);
    AfterExtends(s, t, user, cursor);
    assert [] + After(Appended(s, t), user, cursor) == After(Appended(s, t), user, cursor);
    WellFormedSteps(s, es);
    SchemaStays(s, es);
    CatchUp(sight, RowsOf(s, user), t, user, cursor);
    LiveIsLiveOf(s, user);
  }

  // Convergence. A device that bootstraps in any well-formed state and then pulls until
  // has_more is false, while anybody keeps pushing, holds the server's live rows: up to the
  // stored form of columns and setting keys always, and each of them exactly when the
  // pushes since the bootstrap allow it.
  lemma {:induction false} Convergence(s: Server, user: UserId, steps: seq<PullStep>)
    requires WellFormed(s) && Lawful(s.schema)
    requires steps != [] && !Pull(s, user, Bootstrap(s, user).cursor, steps).hasMore
    ensures
      var snapshot := Bootstrap(s, user);
      var pulled := Pull(s, user, snapshot.cursor, steps);
      Agree(SightOf(s.schema, AllRequests(steps)), s.schema, Replay(snapshot.rows, pulled.changes),
        Live(pulled.server, user))
  {
    var cursor := Bootstrap(s, user).cursor;
    PulledAll(s, user, cursor, steps);
    var es := RunEffects(s, AllRequests(steps));
    SafeCauses(s.schema, es, AllRequests(steps));
    SnapshotCatchesUp(SightOf(s.schema, AllRequests(steps)), s, es, user);
  }

  // Safe and plain pushes leave the device with exactly the server's live rows.
  lemma {:induction false} ConvergesExactly(s: Server, user: UserId, steps: seq<PullStep>)
    requires WellFormed(s) && Lawful(s.schema)
    requires steps != [] && !Pull(s, user, Bootstrap(s, user).cursor, steps).hasMore
    requires SafeRequests(AllRequests(steps)) && PlainRequests(s.schema, AllRequests(steps))
    ensures
      var snapshot := Bootstrap(s, user);
      var pulled := Pull(s, user, snapshot.cursor, steps);
      Replay(snapshot.rows, pulled.changes) == Live(pulled.server, user)
  {
    var snapshot := Bootstrap(s, user);
    var pulled := Pull(s, user, snapshot.cursor, steps);
    Convergence(s, user, steps);
    ExactIsEqual(s.schema, Replay(snapshot.rows, pulled.changes), Live(pulled.server, user));
  }

  // The other way to catch up: replaying the whole log from cursor 0 onto nothing.
  lemma {:induction false} ReplayFromZero(schema: Schema, requests: seq<Request>, user: UserId)
    requires Lawful(schema)
    ensures
      var t := Run(EmptyServer(schema), requests);
      Agree(SightOf(schema, requests), schema, Replay(map[], After(t.log, user, 0)), Live(t, user))
  {
    LogReproducesRows(schema, requests, user);
    ReachableWellFormed(schema, requests);
    RunKeepsSchema(EmptyServer(schema), requests);
    CatchUp(SightOf(schema, requests), map[], Run(EmptyServer(schema), requests), user, 0);
    assert LiveOf(map[]) == map[];
  }

  lemma {:induction false} RunKeepsSchema(s: Server, requests: seq<Request>)
    ensures Run(s, requests).schema == s.schema
  {
    var es := RunEffects(s, requests);
    SchemaStays(s, es);
  }

  lemma {:induction false} ReplaysExactly(schema: Schema, requests: seq<Request>, user: UserId)
    requires Lawful(schema) && SafeRequests(requests) && PlainRequests(schema, requests)
    ensures
      var t := Run(EmptyServer(schema), requests);
      Replay(map[], After(t.log, user, 0)) == Live(t, user)
  {
    var t := Run(EmptyServer(schema), requests);
    ReplayFromZero(schema, requests, user);
    ExactIsEqual(schema, Replay(map[], After(t.log, user, 0)), Live(t, user));
  }
}
