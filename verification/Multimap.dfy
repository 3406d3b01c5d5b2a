/** Insertion-ordered multimaps: the meaning of `Headers`, and of a list of header lines. */
module Multimap {
  import opened Common

  /** A name with its values, in the order they were added. */
  datatype Group = Group(key: string, values: seq<string>)

  datatype Item = Item(key: string, value: string)

  predicate HasKey(g: seq<Group>, key: string) {
    exists k :: 0 <= k < |g| && g[k].key == key
  }

  /** Names are distinct and every name has a value. */
  predicate IsMultimap(g: seq<Group>) {
    && (forall i, j :: 0 <= i < j < |g| ==> g[i].key != g[j].key)
    && forall k :: 0 <= k < |g| ==> g[k].values != []
  }

  function AddTo(g: seq<Group>, key: string, value: string): seq<Group> {
    if g == [] then [Group(key, [value])]
    else if g[0].key == key then [Group(key, g[0].values + [value])] + g[1..]
    else [g[0]] + AddTo(g[1..], key, value)
  }

  /** Setting a name keeps its place, and drops its other values. */
  function SetIn(g: seq<Group>, key: string, value: string): seq<Group> {
    if g == [] then [Group(key, [value])]
    else if g[0].key == key then [Group(key, [value])] + g[1..]
    else [g[0]] + SetIn(g[1..], key, value)
  }

  function Remove(g: seq<Group>, key: string): seq<Group> {
    if g == [] then []
    else if g[0].key == key then Remove(g[1..], key)
    else [g[0]] + Remove(g[1..], key)
  }

  function ValuesOf(g: seq<Group>, key: string): seq<string> {
    if g == [] then [] else if g[0].key == key then g[0].values else ValuesOf(g[1..], key)
  }

  function GroupItems(group: Group): seq<Item> {
    seq(|group.values|, k requires 0 <= k < |group.values| => Item(group.key, group.values[k]))
  }

  function Items(g: seq<Group>): seq<Item> {
    if g == [] then [] else GroupItems(g[0]) + Items(g[1..])
  }

  function AddAll(g: seq<Group>, items: seq<Item>): seq<Group>
    decreases |items|
  {
    if items == [] then g else AddAll(AddTo(g, items[0].key, items[0].value), items[1..])
  }

  /** The multimap of a list of items. */
  function FromItems(items: seq<Item>): seq<Group> {
    AddAll([], items)
  }

  // ---------------------------------------------------------------- Adding

  lemma {:induction false} AddToNew(g: seq<Group>, key: string, value: string)
    requires !HasKey(g, key)
    ensures AddTo(g, key, value) == g + [Group(key, [value])]
    ensures SetIn(g, key, value) == g + [Group(key, [value])]
    decreases |g|
  {
    if g != [] {
      assert g[0].key != key;
      forall k | 0 <= k < |g[1..]|
        ensures g[1..][k].key != key
      {
        assert g[k + 1].key != key;
      }
      AddToNew(g[1..], key, value);
    }
  }

  lemma {:induction false} AddToLast(g: seq<Group>, key: string, values: seq<string>, value: string)
    requires !HasKey(g, key)
    ensures AddTo(g + [Group(key, values)], key, value) == g + [Group(key, values + [value])]
    decreases |g|
  {
    var whole := g + [Group(key, values)];
    if g == [] {
      assert whole[1..] == [];
    } else {
      assert g[0].key != key;
      assert whole[1..] == g[1..] + [Group(key, values)];
      forall k | 0 <= k < |g[1..]|
        ensures g[1..][k].key != key
      {
        assert g[k + 1].key != key;
      }
      AddToLast(g[1..], key, values, value);
    }
  }

  lemma {:induction false} AddAllAppend(g: seq<Group>, a: seq<Item>, b: seq<Item>)
    ensures AddAll(g, a + b) == AddAll(AddAll(g, a), b)
    decreases |a|
  {
    if a == [] {
      assert a + b == b;
    } else {
      assert (a + b)[1..] == a[1..] + b;
      AddAllAppend(AddTo(g, a[0].key, a[0].value), a[1..], b);
    }
  }

  lemma {:induction false} AddGroupItems(g: seq<Group>, group: Group, n: nat)
    requires !HasKey(g, group.key) && 0 < n <= |group.values|
    ensures AddAll(g, GroupItems(group)[..n]) == g + [Group(group.key, group.values[..n])]
    decreases n
  {
    var items := GroupItems(group);
    assert items[..n] == items[..n - 1] + [items[n - 1]];
    AddAllAppend(g, items[..n - 1], [items[n - 1]]);
    var before := AddAll(g, items[..n - 1]);
    assert AddAll(before, [items[n - 1]]) == AddTo(before, group.key, group.values[n - 1]);
    if n == 1 {
      AddToNew(g, group.key, group.values[0]);
      assert group.values[..1] == [group.values[0]];
    } else {
      AddGroupItems(g, group, n - 1);
      AddToLast(g, group.key, group.values[..n - 1], group.values[n - 1]);
      assert group.values[..n] == group.values[..n - 1] + [group.values[n - 1]];
    }
  }

  lemma {:induction false} AddItems(g: seq<Group>, h: seq<Group>)
    requires IsMultimap(g + h)
    ensures AddAll(g, Items(h)) == g + h
    decreases |h|
  {
    if h == [] {
      assert g + h == g;
    } else {
      var n := |g|;
      assert (g + h)[n] == h[0];
      forall k | 0 <= k < n
        ensures g[k].key != h[0].key
      {
        assert (g + h)[k] == g[k];
      }
      var items := GroupItems(h[0]);
      assert items[..|items|] == items && h[0].values[..|h[0].values|] == h[0].values;
      AddGroupItems(g, h[0], |h[0].values|);
      AddAllAppend(g, items, Items(h[1..]));
      assert (g + [h[0]]) + h[1..] == g + h;
      AddItems(g + [h[0]], h[1..]);
    }
  }

  /** Rebuilding a multimap from its items restores it, names and values in order. */
  lemma Rebuild(g: seq<Group>)
    requires IsMultimap(g)
    ensures FromItems(Items(g)) == g
  {
    assert [] + g == g;
    AddItems([], g);
  }

  // ---------------------------------------------------------------- What adding keeps

  lemma {:induction false} AddToKeeps(g: seq<Group>, key: string, value: string)
    requires IsMultimap(g)
    ensures IsMultimap(AddTo(g, key, value))
    ensures forall other :: HasKey(AddTo(g, key, value), other) <==> HasKey(g, other) || other == key
    ensures |Items(AddTo(g, key, value))| == |Items(g)| + 1
    decreases |g|
  {
    if g == [] {
      assert AddTo(g, key, value) == [Group(key, [value])] + [];
      HasKeyCons(Group(key, [value]), []);
    } else {
      var tail := g[1..];
      assert g == [g[0]] + tail && !HasKey(tail, g[0].key);
      HasKeyCons(g[0], tail);
      if g[0].key == key {
        HasKeyCons(Group(key, g[0].values + [value]), tail);
      } else {
        AddToKeeps(tail, key, value);
        HasKeyCons(g[0], AddTo(tail, key, value));
        MultimapCons(g[0], AddTo(tail, key, value));
      }
    }
  }

  lemma HasKeyCons(first: Group, rest: seq<Group>)
    ensures forall key :: HasKey([first] + rest, key) <==> key == first.key || HasKey(rest, key)
  {
    var g := [first] + rest;
    forall key
      ensures HasKey(g, key) <==> key == first.key || HasKey(rest, key)
    {
      if key == first.key {
        assert g[0].key == key;
      } else if HasKey(rest, key) {
        var k :| 0 <= k < |rest| && rest[k].key == key;
        assert g[k + 1].key == key;
      } else {
        assert forall k :: 0 < k < |g| ==> g[k] == rest[k - 1];
      }
    }
  }

  lemma MultimapCons(first: Group, rest: seq<Group>)
    requires IsMultimap(rest) && !HasKey(rest, first.key) && first.values != []
    ensures IsMultimap([first] + rest)
  {
  }

  lemma {:induction false} AddAllKeeps(g: seq<Group>, items: seq<Item>)
    requires IsMultimap(g)
    ensures IsMultimap(AddAll(g, items)) && |Items(AddAll(g, items))| == |Items(g)| + |items|
    decreases |items|
  {
    if items != [] {
      AddToKeeps(g, items[0].key, items[0].value);
      AddAllKeeps(AddTo(g, items[0].key, items[0].value), items[1..]);
    }
  }

  /** Setting a name: its values become just this one, and no other name changes. */
  lemma {:induction false} SetInLookup(g: seq<Group>, key: string, value: string, other: string)
    ensures ValuesOf(SetIn(g, key, value), other) == if other == key then [value] else ValuesOf(g, other)
    decreases |g|
  {
    if g == [] {
      assert SetIn(g, key, value)[1..] == [];
    } else {
      SetInLookup(g[1..], key, value, other);
      assert SetIn(g, key, value)[1..] == if g[0].key == key then g[1..] else SetIn(g[1..], key, value);
    }
  }

  lemma NotInTail(g: seq<Group>, key: string)
    requires g != [] && !HasKey(g, key)
    ensures g[0].key != key && !HasKey(g[1..], key)
  {
    assert g == [g[0]] + g[1..];
    HasKeyCons(g[0], g[1..]);
  }

  lemma {:induction false} RemoveNothing(g: seq<Group>, key: string)
    requires !HasKey(g, key)
    ensures Remove(g, key) == g
    decreases |g|
  {
    if g != [] {
      NotInTail(g, key);
      RemoveNothing(g[1..], key);
    }
  }

  /** Past a group of another name, a change is one of what follows. */
  lemma ChangesFurtherOn(first: Group, rest: seq<Group>, key: string, value: string)
    requires first.key != key
    ensures AddTo([first] + rest, key, value) == [first] + AddTo(rest, key, value)
    ensures SetIn([first] + rest, key, value) == [first] + SetIn(rest, key, value)
    ensures Remove([first] + rest, key) == [first] + Remove(rest, key)
  {
    assert ([first] + rest)[1..] == rest;
  }

  lemma ChangesFirst(group: Group, after: seq<Group>, value: string)
    requires !HasKey(after, group.key)
    ensures AddTo([group] + after, group.key, value) == [Group(group.key, group.values + [value])] + after
    ensures SetIn([group] + after, group.key, value) == [Group(group.key, [value])] + after
    ensures Remove([group] + after, group.key) == after
  {
    assert ([group] + after)[1..] == after;
    RemoveNothing(after, group.key);
  }

  /** Adding, setting and removing a name that is there leave the others in their places. */
  lemma {:induction false} ChangesInPlace(before: seq<Group>, group: Group, after: seq<Group>, value: string)
    requires !HasKey(before, group.key) && !HasKey(after, group.key)
    ensures var g, key := before + ([group] + after), group.key;
      && AddTo(g, key, value) == before + ([Group(key, group.values + [value])] + after)
      && SetIn(g, key, value) == before + ([Group(key, [value])] + after)
      && Remove(g, key) == before + after
    decreases |before|
  {
    if before == [] {
      ChangesFirst(group, after, value);
      assert before + ([group] + after) == [group] + after;
    } else {
      var first, rest := before[0], before[1..];
      assert before == [first] + rest;
      NotInTail(before, group.key);
      ChangesInPlace(rest, group, after, value);
      assert before + ([group] + after) == [first] + (rest + ([group] + after));
      ChangesFurtherOn(first, rest + ([group] + after), group.key, value);
    }
  }
}
