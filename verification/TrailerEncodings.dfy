/** Trailers on the wire: the metadata of a Connect end message, and the prefix of unary calls. */
module TrailerEncodings {
  import opened Common
  import opened Multimap
  import opened HeadersClass

  function LowerKeys(items: seq<Item>): seq<Item> {
    seq(|items|, k requires 0 <= k < |items| => Item(Lower(items[k].key), items[k].value))
  }

  lemma {:induction false} LowerItems(g: seq<Group>)
    requires AllLower(g)
    ensures LowerKeys(Items(g)) == Items(g)
    decreases |g|
  {
    if g != [] {
      assert AllLower(g[1..]);
      LowerItems(g[1..]);
      assert Lower(g[0].key) == g[0].key;
      var n := |GroupItems(g[0])|;
      var all := Items(g);
      forall k | 0 <= k < |all|
        ensures Lower(all[k].key) == all[k].key
      {
        if k >= n {
          assert all[k] == Items(g[1..])[k - n];
          assert LowerKeys(Items(g[1..]))[k - n] == Items(g[1..])[k - n];
        }
      }
    }
  }

  lemma AddAllSnoc(g: seq<Group>, items: seq<Item>, k: nat)
    requires k < |items|
    ensures AddAll(g, items[..k + 1]) == AddTo(AddAll(g, items[..k]), items[k].key, items[k].value)
  {
    assert items[..k + 1] == items[..k] + [items[k]];
    AddAllAppend(g, items[..k], [items[k]]);
    assert [items[k]][1..] == [];
  }

  /** Adds items to headers one by one, as `Headers.__init__` and the clients do. */
  method AddEach(h: Headers, items: seq<Item>)
    requires h.Valid()
    modifies h
    ensures h.Valid() && h.Groups() == AddAll(old(h.Groups()), LowerKeys(items))
  {
    var lower := LowerKeys(items);
    for k := 0 to |items|
      invariant h.Valid() && h.Groups() == AddAll(old(h.Groups()), lower[..k])
    {
      AddAllSnoc(old(h.Groups()), lower, k);
      h.Add(items[k].key, items[k].value);
    }
    assert lower[..|items|] == lower;
  }

  /** A copy by way of all items, as the protocols make of the caller's headers. */
  method Copy(h: Headers) returns (copy: Headers)
    requires h.Valid()
    ensures fresh(copy) && copy.Valid() && copy.Groups() == h.Groups()
    ensures IsMultimap(copy.Groups())
  {
    var items := h.AllItems();
    copy := new Headers();
    Rebuild(h.Groups());
    LowerItems(h.Groups());
    AddEach(copy, items);
  }

  // ---------------------------------------------------------------- Connect end message

  /** The metadata of the end message: for each name a list, started when the name first comes up. */
  method GroupMetadata(items: seq<Item>) returns (metadata: seq<Group>)
    ensures metadata == FromItems(items)
  {
    metadata := [];
    for k := 0 to |items|
      invariant metadata == AddAll([], items[..k])
    {
      AddAllSnoc([], items, k);
      metadata := AddTo(metadata, items[k].key, items[k].value);
    }
    assert items[..|items|] == items;
  }

  lemma ItemsSnoc(g: seq<Group>, k: nat)
    requires k < |g|
    ensures Items(g[..k + 1]) == Items(g[..k]) + GroupItems(g[k])
    decreases k
  {
    if k == 0 {
      assert g[..1][1..] == [] && g[..0] == [];
    } else {
      assert g[..k + 1][1..] == g[1..][..k] && g[..k][1..] == g[1..][..k - 1];
      ItemsSnoc(g[1..], k - 1);
    }
  }

  lemma LowerKeysAppend(a: seq<Item>, b: seq<Item>)
    ensures LowerKeys(a + b) == LowerKeys(a) + LowerKeys(b)
  {
  }

  /** `handle_response_trailers`, on the metadata of an end message. */
  method HandleResponseTrailers(trailers: Headers, metadata: seq<Group>)
    requires trailers.Valid()
    modifies trailers
    ensures trailers.Valid()
    ensures trailers.Groups() == AddAll(old(trailers.Groups()), LowerKeys(Items(metadata)))
  {
    ghost var start := trailers.Groups();
    for k := 0 to |metadata|
      invariant trailers.Valid()
      invariant trailers.Groups() == AddAll(start, LowerKeys(Items(metadata[..k])))
    {
      ItemsSnoc(metadata, k);
      LowerKeysAppend(Items(metadata[..k]), GroupItems(metadata[k]));
      AddAllAppend(start, LowerKeys(Items(metadata[..k])), LowerKeys(GroupItems(metadata[k])));
      AddEach(trailers, GroupItems(metadata[k]));
    }
    assert metadata[..|metadata|] == metadata;
  }

  /** What a server puts in an end message, the client reads back. */
  method ConnectTrailers(sent: Headers) returns (received: Headers)
    requires sent.Valid()
    ensures received.Valid() && received.Groups() == sent.Groups()
  {
    var items := sent.AllItems();
    Rebuild(sent.Groups());
    LowerItems(sent.Groups());
    var metadata := GroupMetadata(items);
    received := new Headers();
    HandleResponseTrailers(received, metadata);
  }

  // ---------------------------------------------------------------- Unary prefix

  const PREFIX: string := "trailer-"

  predicate IsTrailer(key: string) {
    PREFIX <= key
  }

  function Prefixed(items: seq<Item>): seq<Item> {
    seq(|items|, k requires 0 <= k < |items| => Item(PREFIX + items[k].key, items[k].value))
  }

  function HeaderItems(lines: seq<Item>): seq<Item> {
    if lines == [] then []
    else (if IsTrailer(lines[0].key) then [] else [lines[0]]) + HeaderItems(lines[1..])
  }

  function TrailerItems(lines: seq<Item>): seq<Item> {
    if lines == [] then []
    else
      (if IsTrailer(lines[0].key) then [Item(lines[0].key[|PREFIX|..], lines[0].value)] else [])
      + TrailerItems(lines[1..])
  }

  /** `_add_context_headers`: the headers, and then the trailers with the prefix. */
  method AddContextHeaders(base: seq<Item>, headers: Headers, trailers: Headers) returns (lines: seq<Item>)
    requires headers.Valid() && trailers.Valid()
    ensures lines == base + Items(headers.Groups()) + Prefixed(Items(trailers.Groups()))
  {
    var hs := headers.AllItems();
    lines := base + hs;
    var ts := trailers.AllItems();
    for k := 0 to |ts|
      invariant lines == base + hs + Prefixed(ts)[..k]
    {
      lines := lines + [Item(PREFIX + ts[k].key, ts[k].value)];
    }
  }

  /** One more line is either one more trailer or one more header. */
  lemma FilterSnoc(lines: seq<Item>, k: nat)
    requires k < |lines|
    ensures HeaderItems(lines[..k + 1]) ==
      if IsTrailer(lines[k].key) then HeaderItems(lines[..k]) else HeaderItems(lines[..k]) + [lines[k]]
    ensures TrailerItems(lines[..k + 1]) ==
      if !IsTrailer(lines[k].key) then TrailerItems(lines[..k])
      else TrailerItems(lines[..k]) + [Item(lines[k].key[|PREFIX|..], lines[k].value)]
  {
    assert lines[..k + 1] == lines[..k] + [lines[k]];
    HeaderItemsAppend(lines[..k], [lines[k]]);
    TrailerItemsAppend(lines[..k], [lines[k]]);
    assert [lines[k]][1..] == [];
  }

  lemma {:induction false} HeaderItemsAppend(a: seq<Item>, b: seq<Item>)
    ensures HeaderItems(a + b) == HeaderItems(a) + HeaderItems(b)
    decreases |a|
  {
    if a == [] {
      assert a + b == b;
    } else {
      assert (a + b)[1..] == a[1..] + b;
      HeaderItemsAppend(a[1..], b);
    }
  }

  lemma {:induction false} TrailerItemsAppend(a: seq<Item>, b: seq<Item>)
    ensures TrailerItems(a + b) == TrailerItems(a) + TrailerItems(b)
    decreases |a|
  {
    if a == [] {
      assert a + b == b;
    } else {
      assert (a + b)[1..] == a[1..] + b;
      TrailerItemsAppend(a[1..], b);
    }
  }

  lemma AddOne(g: seq<Group>, items: seq<Item>, item: Item)
    ensures AddAll(g, LowerKeys(items + [item]))
         == AddTo(AddAll(g, LowerKeys(items)), Lower(item.key), item.value)
  {
    var lower := LowerKeys(items + [item]);
    AddAllSnoc(g, lower, |items|);
    assert lower[..|items|] == LowerKeys(items) && lower[..|items| + 1] == lower;
  }

  /** The headers hold these items, and nothing else. */
  ghost predicate Holds(h: Headers, items: seq<Item>)
    reads h
  {
    h.Valid() && h.Groups() == FromItems(LowerKeys(items))
  }

  method AddLine(h: Headers, item: Item, ghost items: seq<Item>)
    requires Holds(h, items)
    modifies h
    ensures Holds(h, items + [item])
  {
    AddOne([], items, item);
    h.Add(item.key, item.value);
  }

  /** `handle_response_headers`: a prefixed line is a trailer, any other one a header. */
  method HandleResponseHeaders(lines: seq<Item>) returns (headers: Headers, trailers: Headers)
    ensures headers.Valid() && headers.Groups() == FromItems(LowerKeys(HeaderItems(lines)))
    ensures trailers.Valid() && trailers.Groups() == FromItems(LowerKeys(TrailerItems(lines)))
  {
    headers := new Headers();
    trailers := new Headers();
    for k := 0 to |lines|
      invariant fresh(headers) && fresh(trailers) && headers != trailers
      invariant Holds(headers, HeaderItems(lines[..k])) && Holds(trailers, TrailerItems(lines[..k]))
    {
      FilterSnoc(lines, k);
      var key, value := lines[k].key, lines[k].value;
      if IsTrailer(key) {
        AddLine(trailers, Item(key[|PREFIX|..], value), TrailerItems(lines[..k]));
      } else {
        AddLine(headers, lines[k], HeaderItems(lines[..k]));
      }
    }
    assert lines[..|lines|] == lines;
  }

  lemma {:induction false} PrefixedAreTrailers(items: seq<Item>)
    ensures TrailerItems(Prefixed(items)) == items && HeaderItems(Prefixed(items)) == []
    decreases |items|
  {
    if items != [] {
      assert Prefixed(items)[1..] == Prefixed(items[1..]);
      assert (PREFIX + items[0].key)[|PREFIX|..] == items[0].key;
      PrefixedAreTrailers(items[1..]);
    }
  }

  predicate NoTrailerNames(lines: seq<Item>) {
    forall k :: 0 <= k < |lines| ==> !IsTrailer(lines[k].key)
  }

  lemma {:induction false} TrailerItemsEmpty(lines: seq<Item>)
    ensures TrailerItems(lines) == [] <==> NoTrailerNames(lines)
    ensures NoTrailerNames(lines) ==> HeaderItems(lines) == lines
    decreases |lines|
  {
    if lines != [] {
      TrailerItemsEmpty(lines[1..]);
      assert NoTrailerNames(lines) <==> !IsTrailer(lines[0].key) && NoTrailerNames(lines[1..]);
    }
  }

  /** What the client takes for headers and for trailers, of a response's own lines and its trailers. */
  lemma ReceivedLines(front: seq<Item>, trailers: seq<Item>)
    ensures TrailerItems(front + Prefixed(trailers)) == TrailerItems(front) + trailers
    ensures HeaderItems(front + Prefixed(trailers)) == HeaderItems(front)
  {
    HeaderItemsAppend(front, Prefixed(trailers));
    TrailerItemsAppend(front, Prefixed(trailers));
    PrefixedAreTrailers(trailers);
  }

  /** Items beside those of a multimap make it another one. */
  lemma MoreItemsDiffer(more: seq<Item>, g: seq<Group>)
    requires IsMultimap(g) && AllLower(g)
    ensures FromItems(LowerKeys(more + Items(g))) == g <==> more == []
  {
    if more == [] {
      assert more + Items(g) == Items(g);
      LowerItems(g);
      Rebuild(g);
    } else {
      AddAllKeeps([], LowerKeys(more + Items(g)));
    }
  }

  /**
   * A client recovers the trailers of a unary response exactly when no header of the response is
   * named like a trailer; the headers are then recovered too.
   */
  lemma PrefixRecovers(base: seq<Item>, headers: seq<Group>, trailers: seq<Group>)
    requires IsMultimap(trailers) && AllLower(trailers)
    ensures var lines := base + Items(headers) + Prefixed(Items(trailers));
      && (FromItems(LowerKeys(TrailerItems(lines))) == trailers <==> NoTrailerNames(base + Items(headers)))
      && (NoTrailerNames(base + Items(headers)) ==> HeaderItems(lines) == base + Items(headers))
  {
    var front := base + Items(headers);
    ReceivedLines(front, Items(trailers));
    TrailerItemsEmpty(front);
    MoreItemsDiffer(TrailerItems(front), trailers);
  }

  /** A response header named like a trailer reaches the client as one. */
  lemma HeaderBecomesTrailer(value: string)
    ensures var lines := [] + Items([Group("trailer-x", [value])]) + Prefixed(Items([]));
      && FromItems(LowerKeys(TrailerItems(lines))) == [Group("x", [value])]
      && HeaderItems(lines) == []
  {
    var group := Group("trailer-x", [value]);
    assert Items([group]) == [Item("trailer-x", value)];
    assert Prefixed(Items([])) == [];
    var lines := [] + Items([group]) + Prefixed(Items([]));
    assert lines == [Item("trailer-x", value)] && lines[1..] == [];
    assert PREFIX + "x" == "trailer-x" && "trailer-x"[|PREFIX|..] == "x";
    assert TrailerItems(lines) == [Item("x", value)];
    assert Lower("x") == "x";
    assert LowerKeys([Item("x", value)]) == [Item("x", value)];
    AddAllSnoc([], [Item("x", value)], 0);
  }

  /** A unary response and its client, end to end. */
  method UnaryTrailers(base: seq<Item>, headers: Headers, trailers: Headers)
    returns (gotHeaders: Headers, gotTrailers: Headers)
    requires headers.Valid() && trailers.Valid()
    ensures gotTrailers.Groups() == trailers.Groups() <==> NoTrailerNames(base + Items(headers.Groups()))
    ensures NoTrailerNames(base + Items(headers.Groups())) ==>
      gotHeaders.Groups() == FromItems(LowerKeys(base + Items(headers.Groups())))
  {
    var ts := trailers.AllItems();
    var lines := AddContextHeaders(base, headers, trailers);
    PrefixRecovers(base, headers.Groups(), trailers.Groups());
    gotHeaders, gotTrailers := HandleResponseHeaders(lines);
  }
}
