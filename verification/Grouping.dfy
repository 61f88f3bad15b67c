// A dictionary of lists in insertion order: items appended under a key, where a new key
// opens a new list at the end.
module Grouping {
  datatype Group<K, V> = Group(key: K, items: seq<V>)

  function Find<K(==), V>(groups: seq<Group<K, V>>, key: K): (i: nat)
    ensures i <= |groups|
    ensures forall j | 0 <= j < i :: groups[j].key != key
    ensures i < |groups| ==> groups[i].key == key
  {
    if groups == [] || groups[0].key == key then 0 else 1 + Find(groups[1..], key)
  }

  function Add<K(==), V>(groups: seq<Group<K, V>>, key: K, item: V): seq<Group<K, V>> {
    var i := Find(groups, key);
    if i == |groups| then groups + [Group(key, [item])] else groups[i := Group(key, groups[i].items + [item])]
  }

  function GroupBy<K(==), V>(items: seq<V>, keyOf: V -> K): seq<Group<K, V>> {
    if items == [] then []
    else
      var last := items[|items| - 1];
      Add(GroupBy(items[..|items| - 1], keyOf), keyOf(last), last)
  }

  // All items, group after group.
  function Flatten<K, V>(groups: seq<Group<K, V>>): seq<V> {
    if groups == [] then [] else Flatten(groups[..|groups| - 1]) + groups[|groups| - 1].items
  }

  ghost predicate IsGrouping<K(!new), V(!new)>(groups: seq<Group<K, V>>, keyOf: V -> K) {
    && (forall i, j | 0 <= i < j < |groups| :: groups[i].key != groups[j].key)
    && (forall i | 0 <= i < |groups| :: groups[i].items != [])
    && forall i, k | 0 <= i < |groups| && 0 <= k < |groups[i].items| :: keyOf(groups[i].items[k]) == groups[i].key
  }

  lemma {:induction false} AddKeepsGrouping<K(!new), V(!new)>(groups: seq<Group<K, V>>, keyOf: V -> K, item: V)
    requires IsGrouping(groups, keyOf)
    ensures IsGrouping(Add(groups, keyOf(item), item), keyOf)
  {
    var i, after := Find(groups, keyOf(item)), Add(groups, keyOf(item), item);
    forall j | 0 <= j < |after|
      ensures after[j].key == if j < |groups| then groups[j].key else keyOf(item)
      ensures after[j].items == (if j < |groups| then groups[j].items else []) + if j == i then [item] else []
    {
    }
  }

  lemma {:induction false} GroupByIsGrouping<K(!new), V(!new)>(items: seq<V>, keyOf: V -> K)
    ensures IsGrouping(GroupBy(items, keyOf), keyOf)
  {
    if items != [] {
      GroupByIsGrouping(items[..|items| - 1], keyOf);
      AddKeepsGrouping(GroupBy(items[..|items| - 1], keyOf), keyOf, items[|items| - 1]);
    }
  }

  lemma {:induction false} FlattenSnoc<K, V>(groups: seq<Group<K, V>>, g: Group<K, V>)
    ensures Flatten(groups + [g]) == Flatten(groups) + g.items
  {
    assert (groups + [g])[..|groups|] == groups;
  }

  lemma {:induction false} Associates<V>(a: seq<V>, b: seq<V>, c: seq<V>)
    ensures a + (b + c) == (a + b) + c
  {
  }

  lemma {:induction false} FlattenConcatNext<K, V>(a: seq<Group<K, V>>, init: seq<Group<K, V>>, last: Group<K, V>)
    requires Flatten(a + init) == Flatten(a) + Flatten(init)
    ensures Flatten(a + (init + [last])) == Flatten(a) + Flatten(init + [last])
  {
    FlattenSnoc(a + init, last);
    FlattenSnoc(init, last);
    Associates(a, init, [last]);
    Associates(Flatten(a), Flatten(init), last.items);
  }

  lemma {:induction false} FlattenConcat<K, V>(a: seq<Group<K, V>>, b: seq<Group<K, V>>)
    ensures Flatten(a + b) == Flatten(a) + Flatten(b)
  {
    if b == [] {
      assert a + b == a;
    } else {
      FlattenConcat(a, b[..|b| - 1]);
      FlattenConcatNext(a, b[..|b| - 1], b[|b| - 1]);
      assert b[..|b| - 1] + [b[|b| - 1]] == b;
    }
  }

  lemma {:induction false} FlattenExtend<K, V>(groups: seq<Group<K, V>>, item: V)
    requires groups != []
    ensures var last := groups[|groups| - 1];
            Flatten(groups[|groups| - 1 := Group(last.key, last.items + [item])]) == Flatten(groups) + [item]
  {
    var last := groups[|groups| - 1];
    assert groups[|groups| - 1 := Group(last.key, last.items + [item])][..|groups| - 1] == groups[..|groups| - 1];
  }

  lemma {:induction false} FlattenOpen<K, V>(groups: seq<Group<K, V>>, key: K, item: V)
    ensures Flatten(groups + [Group(key, [item])]) == Flatten(groups) + [item]
  {
    assert (groups + [Group(key, [item])])[..|groups|] == groups;
  }

  lemma {:induction false} FlattenAround<K, V>(head: seq<Group<K, V>>, group: Group<K, V>, tail: seq<Group<K, V>>)
    ensures Flatten(head + [group] + tail) == Flatten(head) + group.items + Flatten(tail)
  {
    FlattenConcat(head + [group], tail);
    assert (head + [group])[..|head|] == head;
  }

  lemma {:induction false} AddInsertsAt<K, V>(groups: seq<Group<K, V>>, i: nat, key: K, item: V)
    requires i < |groups|
    ensures var p := |Flatten(groups[..i]) + groups[i].items|;
            && p <= |Flatten(groups)|
            && Flatten(groups[i := Group(key, groups[i].items + [item])])
               == Flatten(groups)[..p] + [item] + Flatten(groups)[p..]
  {
    var head, g, tail := groups[..i], groups[i], groups[i + 1..];
    var more := Group(key, g.items + [item]);
    assert groups == head + [g] + tail;
    assert groups[i := more] == head + [more] + tail;
    FlattenAround(head, g, tail);
    FlattenAround(head, more, tail);
    InsertAfter(Flatten(head), g.items, item, Flatten(tail));
  }

  // Adding an item inserts it at one place in the flattened groups.
  lemma {:induction false} AddInserts<K, V>(groups: seq<Group<K, V>>, key: K, item: V) returns (p: nat)
    ensures p <= |Flatten(groups)|
    ensures Flatten(Add(groups, key, item)) == Flatten(groups)[..p] + [item] + Flatten(groups)[p..]
  {
    var i := Find(groups, key);
    if i == |groups| {
      FlattenOpen(groups, key, item);
      p := |Flatten(groups)|;
    } else {
      AddInsertsAt(groups, i, key, item);
      p := |Flatten(groups[..i]) + groups[i].items|;
    }
  }

  lemma {:induction false} InsertAfter<V>(a: seq<V>, b: seq<V>, item: V, c: seq<V>)
    ensures a + (b + [item]) + c == (a + b + c)[..|a + b|] + [item] + (a + b + c)[|a + b|..]
  {
    assert (a + b + c)[..|a + b|] == a + b && (a + b + c)[|a + b|..] == c;
  }

  // The last item stands at one place in the flattened groups, which without it are the
  // flattened groups of the items before it.
  lemma {:induction false} GroupByInserts<K(!new), V(!new)>(items: seq<V>, keyOf: V -> K) returns (a: seq<V>, b: seq<V>)
    requires items != []
    ensures a + b == Flatten(GroupBy(items[..|items| - 1], keyOf))
    ensures a + [items[|items| - 1]] + b == Flatten(GroupBy(items, keyOf))
  {
    var before, last := GroupBy(items[..|items| - 1], keyOf), items[|items| - 1];
    var p := AddInserts(before, keyOf(last), last);
    a, b := Flatten(before)[..p], Flatten(before)[p..];
  }
}
