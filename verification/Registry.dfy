// The owner-counted subscription registry and the broker session it is kept in step with.
module Registry {
  datatype Kind = Tick | BidAsk

  datatype Identity = Identity(key: string, kind: Kind)

  type Owners = map<Identity, set<string>>

  datatype Priority = PortfolioPriority | AlertPriority | ViewedSecurity | IndustryRepresentative | WatchlistPriority

  const ALL_KINDS := {Tick, BidAsk}

  // Viewing a security takes its order book as well as its ticks.
  function KindsFor(priority: Priority): set<Kind> {
    if priority.ViewedSecurity? then ALL_KINDS else {Tick}
  }

  // ------------------------------------------------------------------- keys

  function UpperChar(c: char): char {
    if 'a' <= c <= 'z' then c - 'a' + 'A' else c
  }

  function Upper(key: string): string {
    seq(|key|, i requires 0 <= i < |key| => UpperChar(key[i]))
  }

  function Identities(key: string, kinds: set<Kind>): set<Identity> {
    set kind | kind in kinds :: Identity(Upper(key), kind)
  }

  // --------------------------------------------------------------- registry

  function OwnersOf(owners: Owners, id: Identity): set<string> {
    if id in owners then owners[id] else {}
  }

  function Only(owner: string, holds: bool): set<string> {
    if holds then {owner} else {}
  }

  function AddAll(owners: Owners, ids: set<Identity>, owner: string): Owners {
    map id | id in owners.Keys + ids :: OwnersOf(owners, id) + Only(owner, id in ids)
  }

  // An identity that loses its last owner leaves the registry.
  function RemoveAll(owners: Owners, ids: set<Identity>, owner: string): Owners {
    map id | id in owners && owners[id] - Only(owner, id in ids) != {} :: owners[id] - Only(owner, id in ids)
  }

  datatype Action =
    | Acquire(owner: string, key: string, kinds: set<Kind>)
    | Release(owner: string, key: string, kinds: set<Kind>)
    | Connect
    | Event(code: int)
    | Close

  function OwnersAfter(a: Action, owners: Owners): Owners {
    match a
    case Acquire(owner, key, kinds) => AddAll(owners, Identities(key, kinds), owner)
    case Release(owner, key, kinds) => RemoveAll(owners, Identities(key, kinds), owner)
    case _ => owners
  }

  function OwnersAfterAll(actions: seq<Action>): Owners {
    if actions == [] then map[] else OwnersAfter(actions[|actions| - 1], OwnersAfterAll(actions[..|actions| - 1]))
  }

  ghost predicate Acquires(a: Action, owner: string, id: Identity) {
    a.Acquire? && a.owner == owner && id.key == Upper(a.key) && id.kind in a.kinds
  }

  ghost predicate Releases(a: Action, owner: string, id: Identity) {
    a.Release? && a.owner == owner && id.key == Upper(a.key) && id.kind in a.kinds
  }

  // Whether the owner's last relevant action on this identity acquired it.
  ghost predicate Holds(actions: seq<Action>, owner: string, id: Identity) {
    if actions == [] then false
    else
      var last := actions[|actions| - 1];
      Acquires(last, owner, id) || (!Releases(last, owner, id) && Holds(actions[..|actions| - 1], owner, id))
  }

  ghost predicate Owned(owners: Owners) {
    forall id | id in owners :: owners[id] != {} && Upper(id.key) == id.key
  }

  // The same letter, or its lower and upper case.
  predicate SameLetter(a: char, b: char) {
    || a == b
    || ('a' <= a <= 'z' && 'A' <= b <= 'Z' && a - 'a' == b - 'A')
    || ('A' <= a <= 'Z' && 'a' <= b <= 'z' && a - 'A' == b - 'a')
  }

  // Keys name the same security exactly when they differ in case only.
  lemma {:induction false} SameKeyIff(a: string, b: string)
    ensures Upper(a) == Upper(b) <==> |a| == |b| && forall i | 0 <= i < |a| :: SameLetter(a[i], b[i])
    ensures |Upper(a)| == |a| && forall i | 0 <= i < |a| ::
            SameLetter(Upper(a)[i], a[i]) && !('a' <= Upper(a)[i] <= 'z')
  {
    if Upper(a) == Upper(b) {
      forall i | 0 <= i < |a| ensures SameLetter(a[i], b[i]) {
        assert Upper(a)[i] == Upper(b)[i];
      }
    }
    if |a| == |b| && forall i | 0 <= i < |a| :: SameLetter(a[i], b[i]) {
      forall i | 0 <= i < |a| ensures Upper(a)[i] == Upper(b)[i] {
        assert SameLetter(a[i], b[i]);
      }
    }
  }

  lemma {:induction false} UpperTwice(key: string)
    ensures Upper(Upper(key)) == Upper(key)
  {
  }

  lemma {:induction false} InIdentities(key: string, kinds: set<Kind>, id: Identity)
    ensures id in Identities(key, kinds) <==> id.key == Upper(key) && id.kind in kinds
  {
    assert id == Identity(id.key, id.kind);
  }

  lemma {:induction false} ActionIsExact(a: Action, owners: Owners, owner: string, id: Identity)
    requires Owned(owners)
    ensures owner in OwnersOf(OwnersAfter(a, owners), id) <==>
              Acquires(a, owner, id) || (!Releases(a, owner, id) && owner in OwnersOf(owners, id))
  {
    if a.Acquire? || a.Release? {
      InIdentities(a.key, a.kinds, id);
    }
  }

  lemma {:induction false} ActionKeepsOwned(a: Action, owners: Owners)
    requires Owned(owners)
    ensures Owned(OwnersAfter(a, owners))
  {
    if a.Acquire? {
      UpperTwice(a.key);
    }
  }

  // Over any sequence of actions no identity has an empty owner set, and its owners are
  // exactly those whose last relevant action acquired it.
  lemma {:induction false} OwnersFollowHistory(actions: seq<Action>, owner: string, id: Identity)
    ensures Owned(OwnersAfterAll(actions))
    ensures owner in OwnersOf(OwnersAfterAll(actions), id) <==> Holds(actions, owner, id)
  {
    if actions != [] {
      var before := OwnersAfterAll(actions[..|actions| - 1]);
      OwnersFollowHistory(actions[..|actions| - 1], owner, id);
      ActionIsExact(actions[|actions| - 1], before, owner, id);
      ActionKeepsOwned(actions[|actions| - 1], before);
    }
  }

  // An identity is active exactly while somebody holds it.
  lemma {:induction false} ActiveIffHeld(actions: seq<Action>, id: Identity)
    ensures id in OwnersAfterAll(actions) <==> exists owner :: Holds(actions, owner, id)
  {
    var owners := OwnersAfterAll(actions);
    OwnersFollowHistory(actions, "", id);
    if id in owners {
      var owner :| owner in owners[id];
      OwnersFollowHistory(actions, owner, id);
      assert Holds(actions, owner, id);
    }
    if owner :| Holds(actions, owner, id) {
      OwnersFollowHistory(actions, owner, id);
    }
  }

  lemma {:induction false} NothingToDo(owners: Owners, key: string, owner: string)
    requires Owned(owners)
    ensures AddAll(owners, Identities(key, {}), owner) == owners
    ensures RemoveAll(owners, Identities(key, {}), owner) == owners
  {
    assert Identities(key, {}) == {};
    forall id | id in owners ensures OwnersOf(owners, id) + {} == owners[id] && owners[id] - {} == owners[id] != {} {
    }
  }

  lemma {:induction false} AddOneMore(owners: Owners, key: string, done: set<Kind>, kind: Kind, owner: string)
    requires kind !in done
    ensures var before, id := AddAll(owners, Identities(key, done), owner), Identity(Upper(key), kind);
            && OwnersOf(before, id) == OwnersOf(owners, id)
            && AddAll(owners, Identities(key, done + {kind}), owner) == before[id := OwnersOf(before, id) + {owner}]
  {
    assert Identities(key, done + {kind}) == Identities(key, done) + {Identity(Upper(key), kind)};
  }

  lemma {:induction false} RemoveOneMore(owners: Owners, key: string, done: set<Kind>, kind: Kind, owner: string)
    requires Owned(owners) && kind !in done
    ensures var before, id := RemoveAll(owners, Identities(key, done), owner), Identity(Upper(key), kind);
            var after := RemoveAll(owners, Identities(key, done + {kind}), owner);
            && (id in owners <==> id in before)
            && after == if id !in before then before
                        else if before[id] - {owner} == {} then before - {id}
                        else before[id := before[id] - {owner}]
  {
    var id := Identity(Upper(key), kind);
    InIdentities(key, done, id);
    assert Identities(key, done + {kind}) == Identities(key, done) + {id};
    var before, after :=
      RemoveAll(owners, Identities(key, done), owner), RemoveAll(owners, Identities(key, done + {kind}), owner);
    assert id in owners ==> id in before && before[id] == owners[id];
    forall x | x != id ensures x in after <==> x in before {
    }
    forall x | x != id && x in after ensures after[x] == before[x] {
    }
    assert id in after <==> id in owners && owners[id] - {owner} != {};
  }

  class SubscriptionRegistry {
    var owners: Owners

    constructor ()
      ensures owners == map[]
    {
      owners := map[];
    }

    // The kinds that had no owner before.
    method Acquire(owner: string, key: string, kinds: set<Kind>) returns (added: set<Kind>)
      requires Owned(owners)
      modifies this
      ensures owners == AddAll(old(owners), Identities(key, kinds), owner)
      ensures added == set kind | kind in kinds && Identity(Upper(key), kind) !in old(owners)
    {
      added := {};
      var done := {};
      NothingToDo(owners, key, owner);
      while kinds - done != {}
        invariant done <= kinds
        invariant owners == AddAll(old(owners), Identities(key, done), owner)
        invariant added == set kind | kind in done && Identity(Upper(key), kind) !in old(owners)
        decreases kinds - done
      {
        var kind :| kind in kinds - done;
        var id := Identity(Upper(key), kind);
        AddOneMore(old(owners), key, done, kind, owner);
        if OwnersOf(owners, id) == {} {
          added := added + {kind};
        }
        owners := owners[id := OwnersOf(owners, id) + {owner}];
        done := done + {kind};
      }
      assert forall kind | kind in kinds :: kind in kinds - done || kind in done;
    }

    // The kinds that have no owner left.
    method Release(owner: string, key: string, kinds: set<Kind>) returns (removed: set<Kind>)
      requires Owned(owners)
      modifies this
      ensures owners == RemoveAll(old(owners), Identities(key, kinds), owner)
      ensures removed == set kind | kind in kinds && Identity(Upper(key), kind) in old(owners)
              && Identity(Upper(key), kind) !in owners
    {
      removed := {};
      var done := {};
      NothingToDo(owners, key, owner);
      while kinds - done != {}
        invariant done <= kinds
        invariant owners == RemoveAll(old(owners), Identities(key, done), owner)
        invariant removed == set kind | kind in done && Identity(Upper(key), kind) in old(owners)
                  && Identity(Upper(key), kind) !in owners
        decreases kinds - done
      {
        var kind :| kind in kinds - done;
        var id := Identity(Upper(key), kind);
        RemoveOneMore(old(owners), key, done, kind, owner);
        if id in owners {
          var left := owners[id] - {owner};
          if left == {} {
            removed := removed + {kind};
            owners := owners - {id};
          } else {
            owners := owners[id := left];
          }
        }
        done := done + {kind};
      }
      assert forall kind | kind in kinds :: kind in kinds - done || kind in done;
    }
  }

  // ---------------------------------------------------------------- session

  // The active identities whose security the broker's contracts resolve.
  function Wanted(owners: Owners, contracts: set<string>): set<Identity> {
    set id | id in owners && id.key in contracts
  }

  lemma {:induction false} WantedGrows(
      owners: Owners, contracts: set<string>, key: string, kinds: set<Kind>, owner: string)
    ensures var added := set kind | kind in kinds && Identity(Upper(key), kind) !in owners;
            var wanted := Wanted(owners, contracts);
            && wanted !! Identities(key, added)
            && Wanted(AddAll(owners, Identities(key, kinds), owner), contracts)
               == wanted + if Upper(key) in contracts then Identities(key, added) else {}
  {
    var after := AddAll(owners, Identities(key, kinds), owner);
    forall id ensures id in after <==> id in owners || (id.key == Upper(key) && id.kind in kinds) {
      InIdentities(key, kinds, id);
    }
    var added := set kind | kind in kinds && Identity(Upper(key), kind) !in owners;
    forall id ensures id in Identities(key, added) <==> id.key == Upper(key) && id.kind in kinds && id !in owners {
      InIdentities(key, added, id);
    }
  }

  lemma {:induction false} WantedShrinks(
      owners: Owners, contracts: set<string>, key: string, kinds: set<Kind>, owner: string)
    requires Owned(owners)
    ensures var after := RemoveAll(owners, Identities(key, kinds), owner);
            var removed := set kind | kind in kinds && Identity(Upper(key), kind) in owners
              && Identity(Upper(key), kind) !in after;
            var wanted := Wanted(owners, contracts);
            && (Upper(key) in contracts ==> Identities(key, removed) <= wanted)
            && Wanted(after, contracts) == wanted - if Upper(key) in contracts then Identities(key, removed) else {}
  {
    var after := RemoveAll(owners, Identities(key, kinds), owner);
    forall id ensures id in Identities(key, kinds) <==> id.key == Upper(key) && id.kind in kinds {
      InIdentities(key, kinds, id);
    }
    var removed := set kind | kind in kinds && Identity(Upper(key), kind) in owners
      && Identity(Upper(key), kind) !in after;
    forall id ensures id in Identities(key, removed)
      <==> id.key == Upper(key) && id.kind in kinds && id in owners && id !in after {
      InIdentities(key, removed, id);
    }
  }

  // The identities that become active.
  function Gained(before: Owners, after: Owners): set<Identity> {
    after.Keys - before.Keys
  }

  lemma {:induction false} GainedBy(owners: Owners, key: string, kinds: set<Kind>, owner: string)
    ensures var added := set kind | kind in kinds && Identity(Upper(key), kind) !in owners;
            Gained(owners, AddAll(owners, Identities(key, kinds), owner)) == {} <==> added == {}
  {
    var after := AddAll(owners, Identities(key, kinds), owner);
    var added := set kind | kind in kinds && Identity(Upper(key), kind) !in owners;
    if kind :| kind in added {
      assert Identity(Upper(key), kind) in Gained(owners, after);
    }
    if id :| id in Gained(owners, after) {
      InIdentities(key, kinds, id);
      assert id.kind in added;
    }
  }

  lemma {:induction false} LostBy(owners: Owners, key: string, kinds: set<Kind>, owner: string)
    requires Owned(owners)
    ensures var after := RemoveAll(owners, Identities(key, kinds), owner);
            var removed := set kind | kind in kinds && Identity(Upper(key), kind) in owners
              && Identity(Upper(key), kind) !in after;
            Gained(after, owners) == {} <==> removed == {}
  {
    var after := RemoveAll(owners, Identities(key, kinds), owner);
    var removed := set kind | kind in kinds && Identity(Upper(key), kind) in owners
      && Identity(Upper(key), kind) !in after;
    if kind :| kind in removed {
      assert Identity(Upper(key), kind) in Gained(after, owners);
    }
    if id :| id in Gained(after, owners) {
      InIdentities(key, kinds, id);
      assert id.kind in removed;
    }
  }

  // A connection attempt succeeds exactly when every active security resolves.
  function ConnectedAfter(a: Action, owners: Owners, connected: bool, configured: bool, contracts: set<string>): bool {
    match a
    case Connect => if configured then Wanted(owners, contracts) == owners.Keys else connected
    case Event(code) => connected && code >= 0
    case Close => false
    case _ => connected
  }

  function ConnectedAfterAll(actions: seq<Action>, contracts: set<string>): bool {
    if actions == [] then false
    else
      var init := actions[..|actions| - 1];
      ConnectedAfter(actions[|actions| - 1], OwnersAfterAll(init), ConnectedAfterAll(init, contracts), true, contracts)
  }

  ghost predicate AllResolve(owners: Owners, contracts: set<string>) {
    forall id | id in owners :: id.key in contracts
  }

  // What the broker is to hold is what is active exactly when every active security resolves.
  lemma {:induction false} WantedIsActiveIff(owners: Owners, contracts: set<string>)
    ensures Wanted(owners, contracts) == owners.Keys <==> AllResolve(owners, contracts)
  {
    if Wanted(owners, contracts) == owners.Keys {
      forall id | id in owners ensures id.key in contracts {
        assert id in Wanted(owners, contracts);
      }
    }
  }

  predicate Stays(a: Action) {
    a.Acquire? || a.Release? || (a.Event? && a.code >= 0)
  }

  // The connection attempt at k succeeded and nothing after it ended or repeated it.
  ghost predicate ConnectedSince(actions: seq<Action>, contracts: set<string>, k: nat) {
    && k < |actions| && actions[k].Connect? && AllResolve(OwnersAfterAll(actions[..k]), contracts)
    && forall j | k < j < |actions| :: Stays(actions[j])
  }

  lemma {:induction false} SinceBefore(actions: seq<Action>, contracts: set<string>, k: nat)
    requires k < |actions| - 1
    ensures ConnectedSince(actions, contracts, k) <==>
              ConnectedSince(actions[..|actions| - 1], contracts, k) && Stays(actions[|actions| - 1])
  {
    assert actions[..|actions| - 1][..k] == actions[..k];
  }

  // Connected after a run exactly when the last attempt met only resolvable securities
  // and no failure event or shutdown came after it.
  lemma {:induction false} ConnectedIff(actions: seq<Action>, contracts: set<string>)
    ensures ConnectedAfterAll(actions, contracts) <==> exists k: nat :: ConnectedSince(actions, contracts, k)
  {
    if actions != [] {
      var init, last := actions[..|actions| - 1], |actions| - 1;
      ConnectedIff(init, contracts);
      WantedIsActiveIff(OwnersAfterAll(init), contracts);
      if ConnectedAfterAll(actions, contracts) {
        if actions[last].Connect? {
          assert ConnectedSince(actions, contracts, last);
        } else {
          var k: nat :| ConnectedSince(init, contracts, k);
          SinceBefore(actions, contracts, k);
        }
      }
      if k: nat :| ConnectedSince(actions, contracts, k) {
        if k < last {
          SinceBefore(actions, contracts, k);
        }
      }
    }
  }

  // The broker accepts a subscription only where there is none, and drops only one that exists.
  class Broker {
    const contracts: set<string>
    var subscribed: set<Identity>

    constructor (contracts: set<string>)
      ensures this.contracts == contracts && subscribed == {}
    {
      this.contracts, subscribed := contracts, {};
    }

    // A login opens an empty session.
    method Login()
      modifies this
      ensures subscribed == {}
    {
      subscribed := {};
    }

    method Subscribe(id: Identity)
      requires id !in subscribed
      modifies this
      ensures subscribed == old(subscribed) + {id}
    {
      subscribed := subscribed + {id};
    }

    method Unsubscribe(id: Identity)
      requires id in subscribed
      modifies this
      ensures subscribed == old(subscribed) - {id}
    {
      subscribed := subscribed - {id};
    }
  }

  class ShioajiRealtimeProvider {
    const configured: bool
    const registry: SubscriptionRegistry
    const broker: Broker
    var connected: bool

    // While connected the broker holds the active identities of resolvable securities.
    ghost predicate Valid()
      reads this, registry, broker
    {
      && Owned(registry.owners)
      && (connected ==> broker.subscribed == Wanted(registry.owners, broker.contracts))
    }

    // What an action does: the registry and the connection follow it, and a broker that
    // is not connected is left alone.
    twostate predicate Performs(a: Action)
      reads this, registry, broker
    {
      && Valid()
      && registry.owners == OwnersAfter(a, old(registry.owners))
      && connected == ConnectedAfter(a, old(registry.owners), old(connected), configured, broker.contracts)
      && (!old(connected) && !a.Connect? ==> broker.subscribed == old(broker.subscribed))
    }

    constructor (configured: bool, contracts: set<string>)
      ensures Valid() && this.configured == configured && broker.contracts == contracts
      ensures registry.owners == map[] && !connected
      ensures fresh(registry) && fresh(broker)
    {
      this.configured, connected := configured, false;
      registry := new SubscriptionRegistry();
      broker := new Broker(contracts);
    }

    method Acquire(owner: string, key: string, priority: Priority) returns (ok: bool)
      requires Valid()
      modifies this, registry, broker
      ensures Performs(Action.Acquire(owner, key, if priority == ViewedSecurity then {Tick, BidAsk} else {Tick}))
      ensures !ok
              <==> connected && Upper(key) !in broker.contracts && Gained(old(registry.owners), registry.owners) != {}
    {
      ok := Take(owner, key, KindsFor(priority));
    }

    method AcquireSubscription(owner: string, key: string, kind: Kind) returns (ok: bool)
      requires Valid()
      modifies this, registry, broker
      ensures Performs(Action.Acquire(owner, key, {kind}))
      ensures !ok
              <==> connected && Upper(key) !in broker.contracts && Gained(old(registry.owners), registry.owners) != {}
    {
      ok := Take(owner, key, {kind});
    }

    method Release(owner: string, key: string) returns (ok: bool)
      requires Valid()
      modifies this, registry, broker
      ensures Performs(Action.Release(owner, key, {Tick, BidAsk}))
      ensures !ok
              <==> connected && Upper(key) !in broker.contracts && Gained(registry.owners, old(registry.owners)) != {}
    {
      ok := Drop(owner, key, ALL_KINDS);
    }

    method ReleaseSubscription(owner: string, key: string, kind: Kind) returns (ok: bool)
      requires Valid()
      modifies this, registry, broker
      ensures Performs(Action.Release(owner, key, {kind}))
      ensures !ok
              <==> connected && Upper(key) !in broker.contracts && Gained(registry.owners, old(registry.owners)) != {}
    {
      ok := Drop(owner, key, {kind});
    }

    // `ok` is false, the error of the source, exactly when the provider is connected, some
    // identity got its first owner, and the broker's contracts do not resolve the security.
    // The registry keeps its change all the same.
    method Take(owner: string, key: string, kinds: set<Kind>) returns (ok: bool)
      requires Valid()
      modifies this, registry, broker
      ensures Performs(Action.Acquire(owner, key, kinds))
      ensures !ok
              <==> connected && Upper(key) !in broker.contracts && Gained(old(registry.owners), registry.owners) != {}
    {
      ActionKeepsOwned(Action.Acquire(owner, key, kinds), registry.owners);
      WantedGrows(registry.owners, broker.contracts, key, kinds, owner);
      GainedBy(registry.owners, key, kinds, owner);
      var added := registry.Acquire(owner, key, kinds);
      ok := true;
      if connected && added != {} {
        ok := Upper(key) in broker.contracts;
        if ok {
          SubscribeAll(key, added);
        }
      }
    }

    // Likewise when some identity lost its last owner.
    method Drop(owner: string, key: string, kinds: set<Kind>) returns (ok: bool)
      requires Valid()
      modifies this, registry, broker
      ensures Performs(Action.Release(owner, key, kinds))
      ensures !ok
              <==> connected && Upper(key) !in broker.contracts && Gained(registry.owners, old(registry.owners)) != {}
    {
      ActionKeepsOwned(Action.Release(owner, key, kinds), registry.owners);
      WantedShrinks(registry.owners, broker.contracts, key, kinds, owner);
      LostBy(registry.owners, key, kinds, owner);
      var removed := registry.Release(owner, key, kinds);
      ok := true;
      if connected && removed != {} {
        ok := Upper(key) in broker.contracts;
        if ok {
          UnsubscribeAll(key, removed);
        }
      }
    }

    method SubscribeAll(key: string, kinds: set<Kind>)
      requires broker.subscribed !! Identities(key, kinds)
      modifies broker
      ensures broker.subscribed == old(broker.subscribed) + Identities(key, kinds)
    {
      var done := {};
      while kinds - done != {}
        invariant done <= kinds
        invariant broker.subscribed == old(broker.subscribed) + Identities(key, done)
        decreases kinds - done
      {
        var kind :| kind in kinds - done;
        broker.Subscribe(Identity(Upper(key), kind));
        done := done + {kind};
      }
      assert forall kind | kind in kinds :: kind in kinds - done || kind in done;
    }

    method UnsubscribeAll(key: string, kinds: set<Kind>)
      requires Identities(key, kinds) <= broker.subscribed
      modifies broker
      ensures broker.subscribed == old(broker.subscribed) - Identities(key, kinds)
    {
      var done := {};
      while kinds - done != {}
        invariant done <= kinds
        invariant broker.subscribed == old(broker.subscribed) - Identities(key, done)
        decreases kinds - done
      {
        var kind :| kind in kinds - done;
        broker.Unsubscribe(Identity(Upper(key), kind));
        done := done + {kind};
      }
      assert forall kind | kind in kinds :: kind in kinds - done || kind in done;
    }

    // Log in and restore what is active, one identity after another; the first security
    // that does not resolve ends the attempt.
    method Connect()
      requires Valid()
      modifies this, registry, broker
      ensures Performs(Action.Connect)
      ensures !configured ==> connected == old(connected) && broker.subscribed == old(broker.subscribed)
    {
      if !configured {
        return;
      }
      broker.Login();
      connected := true;
      var active := registry.owners.Keys;
      var rest := active;
      while rest != {}
        invariant rest <= active && connected && registry.owners == old(registry.owners)
        invariant broker.subscribed == active - rest
        invariant forall id | id in active - rest :: id.key in broker.contracts
        decreases rest
      {
        var id :| id in rest;
        if id.key !in broker.contracts {
          connected := false;
          assert id !in Wanted(registry.owners, broker.contracts);
          return;
        }
        broker.Subscribe(id);
        rest := rest - {id};
      }
    }

    method OnEvent(code: int)
      requires Valid()
      modifies this, registry, broker
      ensures Performs(Event(code))
    {
      if code < 0 {
        connected := false;
      }
    }

    method Shutdown()
      requires Valid()
      modifies this, registry, broker
      ensures Performs(Close)
    {
      connected := false;
    }
  }
}
