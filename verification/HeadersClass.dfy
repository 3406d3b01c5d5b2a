/**
 * `Headers`: a dictionary of first values and an optional dictionary of further values, proved to
 * be an insertion-ordered multimap with case-insensitive names.
 */
module HeadersClass {
  import opened Common
  import opened Multimap

  // ---------------------------------------------------------------- Dictionaries

  /** An entry of a Python dictionary, which keeps the order its keys were inserted in. */
  datatype Entry<+V> = Entry(key: string, value: V)

  predicate Contains<V>(d: seq<Entry<V>>, key: string) {
    d != [] && (d[0].key == key || Contains(d[1..], key))
  }

  function Lookup<V>(d: seq<Entry<V>>, key: string): V
    requires Contains(d, key)
  {
    if d[0].key == key then d[0].value else Lookup(d[1..], key)
  }

  /** Assigning to a key that is present keeps its place. */
  function Put<V>(d: seq<Entry<V>>, key: string, value: V): seq<Entry<V>> {
    if d == [] then [Entry(key, value)]
    else if d[0].key == key then [Entry(key, value)] + d[1..]
    else [d[0]] + Put(d[1..], key, value)
  }

  function Pop<V>(d: seq<Entry<V>>, key: string): seq<Entry<V>> {
    if d == [] then []
    else if d[0].key == key then Pop(d[1..], key)
    else [d[0]] + Pop(d[1..], key)
  }

  predicate IsDict<V>(d: seq<Entry<V>>) {
    d == [] || (!Contains(d[1..], d[0].key) && IsDict(d[1..]))
  }

  lemma {:induction false} PutLooksUp<V>(d: seq<Entry<V>>, key: string, value: V)
    ensures Contains(Put(d, key, value), key) && Lookup(Put(d, key, value), key) == value
    ensures forall k :: k != key ==>
      && (Contains(Put(d, key, value), k) <==> Contains(d, k))
      && (Contains(d, k) ==> Lookup(Put(d, key, value), k) == Lookup(d, k))
    ensures IsDict(d) ==> IsDict(Put(d, key, value))
    decreases |d|
  {
    var after := Put(d, key, value);
    if d == [] {
      assert after[1..] == [];
    } else {
      PutLooksUp(d[1..], key, value);
      assert after[1..] == if d[0].key == key then d[1..] else Put(d[1..], key, value);
    }
  }

  lemma {:induction false} PopLooksUp<V>(d: seq<Entry<V>>, key: string)
    ensures !Contains(Pop(d, key), key)
    ensures forall k :: k != key ==>
      && (Contains(Pop(d, key), k) <==> Contains(d, k))
      && (Contains(d, k) ==> Lookup(Pop(d, key), k) == Lookup(d, k))
    ensures IsDict(d) ==> IsDict(Pop(d, key))
    decreases |d|
  {
    if d != [] {
      PopLooksUp(d[1..], key);
      if d[0].key != key {
        assert Pop(d, key)[1..] == Pop(d[1..], key);
      }
    }
  }

  // ---------------------------------------------------------------- Case folding

  function LowerChar(c: char): char {
    if 'A' <= c <= 'Z' then c + ('a' - 'A') else c
  }

  function Lower(s: string): string {
    seq(|s|, k requires 0 <= k < |s| => LowerChar(s[k]))
  }

  lemma LowerTwice(s: string)
    ensures Lower(Lower(s)) == Lower(s)
  {
  }

  predicate SameLetter(a: char, b: char) {
    || a == b
    || ('A' <= a <= 'Z' && b as int == a as int + 32)
    || ('A' <= b <= 'Z' && a as int == b as int + 32)
  }

  /** Names are the same exactly when they differ in nothing but the case of ASCII letters. */
  lemma LowerIdentifies(a: string, b: string)
    ensures Lower(a) == Lower(b) <==> |a| == |b| && forall k :: 0 <= k < |a| ==> SameLetter(a[k], b[k])
  {
    if Lower(a) == Lower(b) {
      assert |a| == |Lower(a)| == |b|;
      forall k | 0 <= k < |a|
        ensures SameLetter(a[k], b[k])
      {
        assert Lower(a)[k] == LowerChar(a[k]) && Lower(b)[k] == LowerChar(b[k]);
      }
    }
  }

  // ---------------------------------------------------------------- The two dictionaries as one multimap

  type Store = seq<Entry<string>>
  type Extra = seq<Entry<seq<string>>>

  function ExtraOf(extra: Extra, key: string): seq<string> {
    if Contains(extra, key) then Lookup(extra, key) else []
  }

  /** Each name with its first value and its further ones. */
  function Merged(store: Store, extra: Extra): seq<Group> {
    if store == [] then []
    else [Group(store[0].key, [store[0].value] + ExtraOf(extra, store[0].key))] + Merged(store[1..], extra)
  }

  /** Further values belong to a name that has a first one. */
  ghost predicate Consistent(store: Store, extra: Extra) {
    && IsDict(store) && IsDict(extra)
    && forall k :: Contains(extra, k) ==> Contains(store, k)
  }

  ghost predicate LowerNames(store: Store) {
    forall k :: Contains(store, k) ==> Lower(k) == k
  }

  /** Every name of the multimap is in lower case. */
  ghost predicate AllLower(g: seq<Group>) {
    forall k :: 0 <= k < |g| ==> Lower(g[k].key) == g[k].key
  }

  lemma {:induction false} MergedAllLower(store: Store, extra: Extra)
    requires LowerNames(store)
    ensures AllLower(Merged(store, extra))
    decreases |store|
  {
    if store != [] {
      assert Contains(store, store[0].key);
      assert forall k :: Contains(store[1..], k) ==> Contains(store, k);
      MergedAllLower(store[1..], extra);
    }
  }

  /** What is merged depends only on the further values of the names in the store. */
  lemma {:induction false} MergedDependsOn(store: Store, e1: Extra, e2: Extra)
    requires forall k :: Contains(store, k) ==> ExtraOf(e1, k) == ExtraOf(e2, k)
    ensures Merged(store, e1) == Merged(store, e2)
    decreases |store|
  {
    if store != [] {
      assert Contains(store, store[0].key);
      assert forall k :: Contains(store[1..], k) ==> Contains(store, k);
      MergedDependsOn(store[1..], e1, e2);
    }
  }

  lemma {:induction false} MergedAddExisting(store: Store, extra: Extra, key: string, value: string)
    requires IsDict(store) && Contains(store, key)
    ensures Merged(store, Put(extra, key, ExtraOf(extra, key) + [value])) == AddTo(Merged(store, extra), key, value)
    decreases |store|
  {
    var after := Put(extra, key, ExtraOf(extra, key) + [value]);
    PutLooksUp(extra, key, ExtraOf(extra, key) + [value]);
    var m := Merged(store, extra);
    assert m[1..] == Merged(store[1..], extra);
    if store[0].key == key {
      MergedDependsOn(store[1..], after, extra);
      assert m[0].values + [value] == [store[0].value] + ExtraOf(after, key);
    } else {
      MergedAddExisting(store[1..], extra, key, value);
    }
  }

  lemma {:induction false} MergedAddNew(store: Store, extra: Extra, key: string, value: string)
    requires !Contains(store, key) && !Contains(extra, key)
    ensures Merged(store + [Entry(key, value)], extra) == AddTo(Merged(store, extra), key, value)
    decreases |store|
  {
    var whole := store + [Entry(key, value)];
    if store == [] {
      assert whole[1..] == [];
      assert [value] + [] == [value];
    } else {
      assert whole[1..] == store[1..] + [Entry(key, value)];
      MergedAddNew(store[1..], extra, key, value);
      assert Merged(store, extra)[1..] == Merged(store[1..], extra);
    }
  }

  lemma {:induction false} MergedSet(store: Store, extra: Extra, key: string, value: string)
    requires IsDict(store)
    ensures Merged(Put(store, key, value), Pop(extra, key)) == SetIn(Merged(store, extra), key, value)
    decreases |store|
  {
    PopLooksUp(extra, key);
    var m := Merged(store, extra);
    var after := Put(store, key, value);
    if store == [] {
      assert after[1..] == [];
      assert [value] + [] == [value];
    } else {
      assert m[1..] == Merged(store[1..], extra);
      if store[0].key == key {
        assert after[1..] == store[1..];
        MergedDependsOn(store[1..], Pop(extra, key), extra);
        assert [value] + [] == [value];
      } else {
        assert after[1..] == Put(store[1..], key, value);
        MergedSet(store[1..], extra, key, value);
      }
    }
  }

  lemma {:induction false} MergedRemove(store: Store, extra: Extra, key: string)
    requires IsDict(store)
    ensures Merged(Pop(store, key), Pop(extra, key)) == Remove(Merged(store, extra), key)
    decreases |store|
  {
    PopLooksUp(extra, key);
    if store != [] {
      MergedRemove(store[1..], extra, key);
      assert Merged(store, extra)[1..] == Merged(store[1..], extra);
      if store[0].key != key {
        assert Pop(store, key)[1..] == Pop(store[1..], key);
      }
    }
  }

  lemma {:induction false} MergedLookup(store: Store, extra: Extra, key: string)
    ensures ValuesOf(Merged(store, extra), key)
         == if Contains(store, key) then [Lookup(store, key)] + ExtraOf(extra, key) else []
    ensures HasKey(Merged(store, extra), key) <==> Contains(store, key)
    decreases |store|
  {
    if store != [] {
      MergedLookup(store[1..], extra, key);
      HasKeyCons(Merged(store, extra)[0], Merged(store[1..], extra));
      assert Merged(store, extra)[1..] == Merged(store[1..], extra);
    }
  }

  lemma {:induction false} MergedIsMultimap(store: Store, extra: Extra)
    requires IsDict(store)
    ensures IsMultimap(Merged(store, extra))
    decreases |store|
  {
    if store != [] {
      MergedIsMultimap(store[1..], extra);
      MergedLookup(store[1..], extra, store[0].key);
      MultimapCons(Merged(store, extra)[0], Merged(store[1..], extra));
    }
  }

  // ---------------------------------------------------------------- The number of items

  function SumOfLengths(extra: Extra): nat {
    if extra == [] then 0 else |extra[0].value| + SumOfLengths(extra[1..])
  }

  function ExtraCount(store: Store, extra: Extra): nat {
    if store == [] then 0 else |ExtraOf(extra, store[0].key)| + ExtraCount(store[1..], extra)
  }

  lemma {:induction false} ExtraCountCons(store: Store, first: Entry<seq<string>>, rest: Extra)
    requires IsDict(store) && !Contains(rest, first.key)
    ensures ExtraCount(store, [first] + rest)
         == ExtraCount(store, rest) + if Contains(store, first.key) then |first.value| else 0
    decreases |store|
  {
    assert ([first] + rest)[1..] == rest;
    if store != [] {
      ExtraCountCons(store[1..], first, rest);
    }
  }

  lemma {:induction false} ExtraCountIsSum(store: Store, extra: Extra)
    requires Consistent(store, extra)
    ensures ExtraCount(store, extra) == SumOfLengths(extra)
    decreases |extra|
  {
    if extra == [] {
      NoExtraCount(store);
    } else {
      assert [extra[0]] + extra[1..] == extra;
      assert Contains(extra, extra[0].key);
      ExtraCountCons(store, extra[0], extra[1..]);
      assert forall k :: Contains(extra[1..], k) ==> Contains(extra, k);
      ExtraCountIsSum(store, extra[1..]);
    }
  }

  lemma {:induction false} NoExtraCount(store: Store)
    ensures ExtraCount(store, []) == 0
    decreases |store|
  {
    if store != [] {
      NoExtraCount(store[1..]);
    }
  }

  lemma {:induction false} ItemCount(store: Store, extra: Extra)
    ensures |Items(Merged(store, extra))| == |store| + ExtraCount(store, extra)
    decreases |store|
  {
    if store != [] {
      ItemCount(store[1..], extra);
      assert Merged(store, extra)[1..] == Merged(store[1..], extra);
    }
  }

  lemma ItemsStep(store: Store, extra: Extra, k: nat)
    requires k < |store|
    ensures Items(Merged(store[k..], extra))
         == GroupItems(Group(store[k].key, [store[k].value] + ExtraOf(extra, store[k].key)))
            + Items(Merged(store[k + 1..], extra))
  {
    assert store[k..][1..] == store[k + 1..];
    assert Merged(store[k..], extra)[1..] == Merged(store[k + 1..], extra);
  }

  /** What the view of all items yields for one name. */
  method IterateName(key: string, value: string, extra: Extra) returns (items: seq<Item>)
    ensures items == GroupItems(Group(key, [value] + ExtraOf(extra, key)))
  {
    items := [Item(key, value)];
    var more := ExtraOf(extra, key);
    for k := 0 to |more|
      invariant items == [Item(key, value)] + GroupItems(Group(key, more))[..k]
    {
      items := items + [Item(key, more[k])];
    }
  }

  /** `_AllItemsView.__iter__`. */
  method IterateView(store: Store, extra: Extra) returns (items: seq<Item>)
    ensures items == Items(Merged(store, extra))
  {
    items := [];
    ghost var whole := Items(Merged(store, extra));
    ghost var rest := whole;
    assert store[0..] == store;
    for k := 0 to |store|
      invariant rest == Items(Merged(store[k..], extra)) && items + rest == whole
    {
      var more := IterateName(store[k].key, store[k].value, extra);
      ItemsStep(store, extra, k);
      items := items + more;
      rest := rest[|more|..];
    }
    assert rest == [];
  }

  // ---------------------------------------------------------------- The class

  class Headers {
    var store: Store
    var extra: Option<Extra>

    ghost function Groups(): seq<Group>
      reads this
    {
      Merged(store, if extra.Some? then extra.value else [])
    }

    ghost predicate Valid()
      reads this
    {
      Consistent(store, if extra.Some? then extra.value else []) && LowerNames(store)
    }

    constructor ()
      ensures Valid() && Groups() == []
    {
      store, extra := [], None;
    }

    method Add(name: string, value: string)
      requires Valid()
      modifies this
      ensures Valid() && Groups() == AddTo(old(Groups()), Lower(name), value)
    {
      var key := Lower(name);
      LowerTwice(name);
      if Contains(store, key) {
        if extra.None? {
          extra := Some([]);
        }
        MergedAddExisting(store, extra.value, key, value);
        PutLooksUp(extra.value, key, ExtraOf(extra.value, key) + [value]);
        extra := Some(Put(extra.value, key, ExtraOf(extra.value, key) + [value]));
        return;
      }
      ghost var e := if extra.Some? then extra.value else [];
      MergedAddNew(store, e, key, value);
      PutIsAppend(store, key, value);
      PutLooksUp(store, key, value);
      store := store + [Entry(key, value)];
    }

    method SetItem(name: string, value: string)
      requires Valid()
      modifies this
      ensures Valid() && Groups() == SetIn(old(Groups()), Lower(name), value)
    {
      var key := Lower(name);
      LowerTwice(name);
      ghost var e := if extra.Some? then extra.value else [];
      MergedSet(store, e, key, value);
      PutLooksUp(store, key, value);
      PopLooksUp(e, key);
      store := Put(store, key, value);
      if extra.Some? {
        extra := Some(Pop(extra.value, key));
      }
    }

    /** `__delitem__`; false stands for its KeyError. */
    method DelItem(name: string) returns (found: bool)
      requires Valid()
      modifies this
      ensures Valid() && found == HasKey(old(Groups()), Lower(name))
      ensures Groups() == if found then Remove(old(Groups()), Lower(name)) else old(Groups())
    {
      var key := Lower(name);
      ghost var e := if extra.Some? then extra.value else [];
      MergedLookup(store, e, key);
      if !Contains(store, key) {
        return false;
      }
      MergedRemove(store, e, key);
      PopLooksUp(store, key);
      PopLooksUp(e, key);
      store := Pop(store, key);
      if extra.Some? {
        extra := Some(Pop(extra.value, key));
      }
      return true;
    }

    method Clear()
      modifies this
      ensures Valid() && Groups() == []
    {
      store, extra := [], None;
    }

    /** `__getitem__`: the first value of a name; None stands for its KeyError. */
    method GetItem(name: string) returns (value: Option<string>)
      requires Valid()
      ensures var values := ValuesOf(Groups(), Lower(name));
        value == if values == [] then None else Some(values[0])
    {
      var key := Lower(name);
      MergedLookup(store, if extra.Some? then extra.value else [], key);
      value := if Contains(store, key) then Some(Lookup(store, key)) else None;
    }

    method GetAll(name: string) returns (values: seq<string>)
      requires Valid()
      ensures values == ValuesOf(Groups(), Lower(name))
    {
      var key := Lower(name);
      MergedLookup(store, if extra.Some? then extra.value else [], key);
      if !Contains(store, key) {
        return [];
      }
      values := [Lookup(store, key)];
      if extra.Some? {
        values := values + ExtraOf(extra.value, key);
      }
    }

    /** The view of all items, duplicates included. */
    method AllItems() returns (items: seq<Item>)
      requires Valid()
      ensures items == Items(Groups()) && IsMultimap(Groups()) && AllLower(Groups())
    {
      MergedIsMultimap(store, if extra.Some? then extra.value else []);
      MergedAllLower(store, if extra.Some? then extra.value else []);
      items := IterateView(store, if extra.Some? then extra.value else []);
    }

    /** The length of the view: no two values are counted twice, and none is missed. */
    method AllItemsLength() returns (n: nat)
      requires Valid()
      ensures n == |Items(Groups())|
    {
      ghost var e := if extra.Some? then extra.value else [];
      ItemCount(store, e);
      ExtraCountIsSum(store, e);
      n := |store|;
      if extra.Some? {
        n := n + SumOfLengths(extra.value);
      }
    }
  }

  lemma {:induction false} PutIsAppend<V>(d: seq<Entry<V>>, key: string, value: V)
    requires !Contains(d, key)
    ensures Put(d, key, value) == d + [Entry(key, value)]
    decreases |d|
  {
    if d != [] {
      PutIsAppend(d[1..], key, value);
    }
  }
}
