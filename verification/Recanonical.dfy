/** Canonicalizing a canonical tree again: for which unordered paths it changes nothing. */
module Recanonical {
  import opened Results
  import opened Json
  import opened Ordering
  import opened Fingerprint
  import opened RequestEquality

  /** A canonical tree read as a request of its own: every list is a plain list, so a set does not come back as one. */
  function Embed(t: Json): Value {
    match t
    case JNull => Null
    case JBool(b) => Bool(b)
    case JInt(i) => Int(i)
    case JStr(s) => Str(s)
    case JArr(items) => Sequence(EmbedItems(items))
    case JObj(members) => Mapping(EmbedMembers(members))
  }

  function EmbedItems(items: seq<Json>): (vs: seq<Value>) {
    if items == [] then [] else [Embed(items[0])] + EmbedItems(items[1..])
  }

  function EmbedMembers(ms: seq<Member>): (es: seq<Entry>) {
    if ms == [] then [] else [Entry(TextKey(ms[0].key), Embed(ms[0].value))] + EmbedMembers(ms[1..])
  }

  /** The canonical tree of the request is its own canonical tree. */
  predicate Settled(v: Value, unordered: set<Path>) {
    var c := Canonicalize(v, [], unordered);
    c.Ok? ==> Canonicalize(Embed(c.value), [], unordered) == c
  }

  /** With an unordered path, every path that has a set where this one has a list is unordered too. */
  predicate Closed(unordered: set<Path>) {
    forall u, k :: u in unordered && 0 <= k < |u| && u[k] == "[]" ==> u[k := "{}"] in unordered
  }

  // ---- closed under sets: nothing changes ----

  /** `q` is where the second pass meets what the first pass met at `p`. */
  predicate SecondPath(p: Path, q: Path) {
    |p| == |q| && forall i :: 0 <= i < |p| ==> p[i] == q[i] || (p[i] == "{}" && q[i] == "[]")
  }

  /** The first `k` steps of `p`, and from there on those of `q`. */
  lemma {:induction false} ClosedUpTo(p: Path, q: Path, k: nat, unordered: set<Path>)
    requires Closed(unordered) && SecondPath(p, q) && q in unordered && k <= |p|
    ensures p[..k] + q[k..] in unordered
  {
    if k == 0 {
      assert p[..0] + q[0..] == q;
    } else {
      ClosedUpTo(p, q, k - 1, unordered);
      var before := p[..k - 1] + q[k - 1..];
      assert before[k - 1] == q[k - 1];
      if p[k - 1] == q[k - 1] {
        assert p[..k] + q[k..] == before;
      } else {
        assert p[..k] + q[k..] == before[k - 1 := "{}"];
      }
    }
  }

  lemma FirstPathToo(p: Path, q: Path, unordered: set<Path>)
    requires Closed(unordered) && SecondPath(p, q) && q in unordered
    ensures p in unordered
  {
    ClosedUpTo(p, q, |p|, unordered);
    assert p[..|p|] + q[|p|..] == p;
  }

  lemma {:induction false} EmbeddedItems(items: seq<Json>, path: Path, unordered: set<Path>)
    requires forall x :: x in items ==> Canonicalize(Embed(x), path, unordered) == Ok(x)
    ensures CanonicalizeItems(EmbedItems(items), path, unordered) == Ok(items)
  {
    if items != [] {
      EmbeddedItems(items[1..], path, unordered);
      assert items == [items[0]] + items[1..];
      assert EmbedItems(items)[1..] == EmbedItems(items[1..]);
    }
  }

  function KeyedOf(ms: seq<Member>): (ks: seq<Keyed>) {
    if ms == [] then [] else [Keyed(ms[0].key, Ok(ms[0].value))] + KeyedOf(ms[1..])
  }

  lemma {:induction false} CollectKeyed(ms: seq<Member>)
    ensures Collect(KeyedOf(ms)) == Ok(ms)
    ensures forall k :: k in KeyedOf(ms) ==> k.outcome.Ok? && Member(k.key, k.outcome.value) in ms
    ensures SortedBy(ms, MemberKey) ==> SortedBy(KeyedOf(ms), KeyOf)
  {
    if ms != [] {
      CollectKeyed(ms[1..]);
      assert ms == [ms[0]] + ms[1..];
      assert KeyedOf(ms)[1..] == KeyedOf(ms[1..]);
      if SortedBy(ms, MemberKey) {
        forall k | k in KeyedOf(ms[1..]) ensures LexLe(KeyOf(KeyedOf(ms)[0]), KeyOf(k)) {
          assert Member(k.key, k.outcome.value) in ms[1..];
          assert LexLe(MemberKey(ms[0]), MemberKey(Member(k.key, k.outcome.value)));
        }
      }
    }
  }

  lemma {:induction false} EmbeddedEntries(ms: seq<Member>, path: Path, unordered: set<Path>)
    requires forall m :: m in ms ==> Canonicalize(Embed(m.value), path + [m.key], unordered) == Ok(m.value)
    ensures CanonicalizeEntries(EmbedMembers(ms), path, unordered) == KeyedOf(ms)
    ensures TextKeys(EmbedMembers(ms))
  {
    if ms != [] {
      EmbeddedEntries(ms[1..], path, unordered);
      var e := Entry(TextKey(ms[0].key), Embed(ms[0].value));
      assert CanonicalizeEntry(e, path, unordered) == Keyed(ms[0].key, Ok(ms[0].value));
      assert EmbedMembers(ms)[0] == e && EmbedMembers(ms)[1..] == EmbedMembers(ms[1..]);
    }
  }

  lemma EmbeddedMapping(ms: seq<Member>, path: Path, unordered: set<Path>)
    requires SortedBy(ms, MemberKey)
    requires forall m :: m in ms ==> Canonicalize(Embed(m.value), path + [m.key], unordered) == Ok(m.value)
    ensures CanonicalizeMapping(EmbedMembers(ms), path, unordered) == Ok(JObj(ms))
  {
    EmbeddedEntries(ms, path, unordered);
    CollectKeyed(ms);
    SortOfSorted(KeyedOf(ms), KeyOf);
  }

  /** The entry that a member of the tree was made from. */
  lemma EntryOfMember(es: seq<Entry>, path: Path, unordered: set<Path>, m: Member) returns (i: nat)
    requires CanonicalizeMapping(es, path, unordered).Ok? && m in CanonicalizeMapping(es, path, unordered).value.members
    ensures i < |es| && KeyName(es[i].key) == m.key && Canonicalize(es[i].value, path + [m.key], unordered) == Ok(m.value)
  {
    var ks := CanonicalizeEntries(es, path, unordered);
    SortSorts(ks, KeyOf);
    CollectKeepsOrder(SortBy(ks, KeyOf));
    var k := Keyed(m.key, Ok(m.value));
    assert k in multiset(SortBy(ks, KeyOf)) && k in ks;
    i :| 0 <= i < |ks| && ks[i] == k;
    EntryWise(es, i, path, unordered);
  }

  lemma MembersInOrder(es: seq<Entry>, path: Path, unordered: set<Path>)
    requires CanonicalizeMapping(es, path, unordered).Ok?
    ensures SortedBy(CanonicalizeMapping(es, path, unordered).value.members, MemberKey)
  {
    var ks := CanonicalizeEntries(es, path, unordered);
    SortSorts(ks, KeyOf);
    CollectKeepsOrder(SortBy(ks, KeyOf));
  }

  lemma {:induction false} MappingAgain(es: seq<Entry>, p: Path, q: Path, unordered: set<Path>)
    requires Closed(unordered) && SecondPath(p, q) && CanonicalizeMapping(es, p, unordered).Ok?
    ensures CanonicalizeMapping(EmbedMembers(CanonicalizeMapping(es, p, unordered).value.members), q, unordered)
            == CanonicalizeMapping(es, p, unordered)
    decreases es, 0
  {
    var ms := CanonicalizeMapping(es, p, unordered).value.members;
    MembersInOrder(es, p, unordered);
    forall m | m in ms ensures Canonicalize(Embed(m.value), q + [m.key], unordered) == Ok(m.value) {
      var i := EntryOfMember(es, p, unordered, m);
      EntryAgain(es[i], p + [m.key], q + [m.key], unordered);
    }
    EmbeddedMapping(ms, q, unordered);
  }

  lemma EntryAgain(e: Entry, p: Path, q: Path, unordered: set<Path>)
    requires Closed(unordered) && SecondPath(p, q) && Canonicalize(e.value, p, unordered).Ok?
    ensures Canonicalize(Embed(Canonicalize(e.value, p, unordered).value), q, unordered) == Canonicalize(e.value, p, unordered)
    decreases e, 1
  {
    Again(e.value, p, q, unordered);
  }

  lemma {:induction false} ItemsAgain(vs: seq<Value>, p: Path, q: Path, unordered: set<Path>)
    requires Closed(unordered) && SecondPath(p, q) && CanonicalizeItems(vs, p, unordered).Ok?
    ensures forall x :: x in CanonicalizeItems(vs, p, unordered).value ==> Canonicalize(Embed(x), q, unordered) == Ok(x)
    decreases vs, 0
  {
    if vs != [] {
      Again(vs[0], p, q, unordered);
      ItemsAgain(vs[1..], p, q, unordered);
    }
  }

  lemma EntriesAgain(v: Value, p: Path, q: Path, unordered: set<Path>)
    requires Closed(unordered) && SecondPath(p, q) && Canonicalize(v, p, unordered).Ok? && IsMapping(v)
    ensures Canonicalize(Embed(Canonicalize(v, p, unordered).value), q, unordered) == Canonicalize(v, p, unordered)
    decreases v, 0
  {
    MappingTree(v, p, unordered);
    MappingAgain(Entries(v), p, q, unordered);
    MappingTree(Mapping(EmbedMembers(Canonicalize(v, p, unordered).value.members)), q, unordered);
  }

  lemma ListAgain(v: Value, p: Path, q: Path, i: Path, j: Path, unordered: set<Path>)
    requires Closed(unordered) && SecondPath(p, q) && Canonicalize(v, p, unordered).Ok?
    requires IsList(v) && i == Inside(v, p) && j == q + ["[]"]
    ensures Canonicalize(Embed(Canonicalize(v, p, unordered).value), q, unordered) == Canonicalize(v, p, unordered)
    decreases v, 0
  {
    ListTree(v, p, unordered, i);
    assert SecondPath(i, j);
    ItemsAgain(Items(v), i, j, unordered);
    var found := CanonicalizeItems(Items(v), i, unordered).value;
    var items := if Unordered(v, p, unordered) then SortBy(found, Dumps) else found;
    SameElements(found);
    if q in unordered {
      FirstPathToo(p, q, unordered);
      SortSorts(found, Dumps);
    }
    EmbeddedList(items, q, j, unordered);
  }

  lemma EmbeddedList(items: seq<Json>, path: Path, inner: Path, unordered: set<Path>)
    requires inner == path + ["[]"] && forall x :: x in items ==> Canonicalize(Embed(x), inner, unordered) == Ok(x)
    requires path in unordered ==> SortedBy(items, Dumps)
    ensures Canonicalize(Sequence(EmbedItems(items)), path, unordered) == Ok(JArr(items))
  {
    EmbeddedItems(items, inner, unordered);
    ListTree(Sequence(EmbedItems(items)), path, unordered, inner);
    if path in unordered {
      SortOfSorted(items, Dumps);
    }
  }

  lemma {:induction false} Again(v: Value, p: Path, q: Path, unordered: set<Path>)
    requires Closed(unordered) && SecondPath(p, q) && Canonicalize(v, p, unordered).Ok?
    ensures Canonicalize(Embed(Canonicalize(v, p, unordered).value), q, unordered) == Canonicalize(v, p, unordered)
    decreases v, 1
  {
    if v.Enumerated? {
      Again(v.inner, p, q, unordered);
    } else if IsMapping(v) {
      EntriesAgain(v, p, q, unordered);
    } else if IsList(v) {
      ListAgain(v, p, q, Inside(v, p), q + ["[]"], unordered);
    } else {
      KindOfTree(v, p, unordered);
    }
  }

  // ---- not closed: a request whose canonical tree changes ----

  /** `x` behind the keys `names`. */
  function Wrap(names: Path, x: Value): Value {
    if names == [] then x else Mapping([Entry(TextKey(names[0]), Wrap(names[1..], x))])
  }

  function WrapTree(names: Path, t: Json): Json {
    if names == [] then t else JObj([Member(names[0], WrapTree(names[1..], t))])
  }

  lemma {:induction false} WrapTreeInjective(names: Path, t: Json, other: Json)
    requires t != other
    ensures WrapTree(names, t) != WrapTree(names, other)
  {
    if names != [] {
      WrapTreeInjective(names[1..], t, other);
    }
  }

  lemma OneItem(v: Value, x: Value, path: Path, inner: Path, unordered: set<Path>, t: Json)
    requires IsList(v) && Items(v) == [x] && inner == Inside(v, path) && Canonicalize(x, inner, unordered) == Ok(t)
    ensures Canonicalize(v, path, unordered) == Ok(JArr([t]))
  {
    ListTree(v, path, unordered, inner);
    OnlyItem([x], inner, unordered, t);
    SortOfOne(t);
  }

  lemma OnlyItem(vs: seq<Value>, inner: Path, unordered: set<Path>, t: Json)
    requires |vs| == 1 && Canonicalize(vs[0], inner, unordered) == Ok(t)
    ensures CanonicalizeItems(vs, inner, unordered) == Ok([t])
  {
    assert vs[1..] == [];
    assert CanonicalizeItems(vs[1..], inner, unordered) == Ok([]);
    assert [t] + [] == [t];
  }

  lemma SortOfOne(t: Json)
    ensures SortBy([t], Dumps) == [t]
  {
    SortOfSorted([t], Dumps);
  }

  lemma OneEntry(name: string, x: Value, path: Path, unordered: set<Path>, t: Json)
    requires Canonicalize(x, path + [name], unordered) == Ok(t)
    ensures Canonicalize(Mapping([Entry(TextKey(name), x)]), path, unordered) == Ok(JObj([Member(name, t)]))
  {
    var e, m := Entry(TextKey(name), x), Member(name, t);
    assert CanonicalizeEntry(e, path, unordered) == Keyed(name, Ok(t));
    assert CanonicalizeEntries([e], path, unordered) == KeyedOf([m]);
    CollectKeyed([m]);
    SortOfSorted(KeyedOf([m]), KeyOf);
  }

  lemma {:induction false} Wrapped(names: Path, x: Value, path: Path, unordered: set<Path>, t: Json)
    requires Canonicalize(x, path + names, unordered) == Ok(t)
    ensures Canonicalize(Wrap(names, x), path, unordered) == Ok(WrapTree(names, t))
  {
    if names == [] {
      assert path + names == path;
    } else {
      assert path + names == (path + [names[0]]) + names[1..];
      Wrapped(names[1..], x, path + [names[0]], unordered, t);
      OneEntry(names[0], Wrap(names[1..], x), path, unordered, WrapTree(names[1..], t));
    }
  }

  lemma {:induction false} EmbeddedWrap(names: Path, t: Json)
    ensures Embed(WrapTree(names, t)) == Wrap(names, Embed(t))
  {
    if names != [] {
      EmbeddedWrap(names[1..], t);
      OneMember(names[0], WrapTree(names[1..], t));
    }
  }

  lemma OneMember(name: string, t: Json)
    ensures Embed(JObj([Member(name, t)])) == Mapping([Entry(TextKey(name), Embed(t))])
    ensures Embed(JArr([t])) == Sequence([Embed(t)])
  {
    assert EmbedMembers([Member(name, t)][1..]) == [] && EmbedItems([t][1..]) == [];
  }

  /** `x` behind the keys `names`, in the list `v`, behind the keys `before`. */
  lemma Nested(before: Path, v: Value, names: Path, x: Value, at: Path, inner: Path, unordered: set<Path>, t: Json)
    requires IsList(v) && Items(v) == [Wrap(names, x)] && inner == Inside(v, before)
    requires at == inner + names && Canonicalize(x, at, unordered) == Ok(t)
    ensures Canonicalize(Wrap(before, v), [], unordered) == Ok(WrapTree(before, JArr([WrapTree(names, t)])))
  {
    Wrapped(names, x, inner, unordered, t);
    OneItem(v, Wrap(names, x), before, inner, unordered, WrapTree(names, t));
    assert [] + before == before;
    Wrapped(before, v, [], unordered, JArr([WrapTree(names, t)]));
  }

  /** A list of two that is not in text order comes out as given at an ordered path and sorted at an unordered one. */
  lemma TwoItems(x: Json, y: Json, items: seq<Json>, path: Path, inner: Path, unordered: set<Path>)
    requires !LexLe(Dumps(x), Dumps(y)) && items == [x, y] && inner == path + ["[]"]
    requires Canonicalize(Embed(x), inner, unordered) == Ok(x) && Canonicalize(Embed(y), inner, unordered) == Ok(y)
    ensures Canonicalize(Sequence(EmbedItems(items)), path, unordered) == Ok(JArr(if path in unordered then [y, x] else items))
  {
    EmbeddedItems(items, inner, unordered);
    ListTree(Sequence(EmbedItems(items)), path, unordered, inner);
    SortOfTwo(items, Dumps);
  }

  lemma SortOfTwo(items: seq<Json>, text: Json -> string)
    requires |items| == 2 && !LexLe(text(items[0]), text(items[1]))
    ensures SortBy(items, text) == [items[1], items[0]]
  {
    var (x, y) := (items[0], items[1]);
    SortOfSorted([y], text);
    assert items[1..] == [y];
    assert Insert(x, [y][1..], text) == [x];
  }

  lemma YesBeforeNo(x: Json, y: Json, path: Path, inner: Path, unordered: set<Path>)
    requires x == JBool(true) && y == JBool(false) && inner == path + ["[]"]
    ensures x != y && Canonicalize(Embed(JArr([x, y])), path, unordered) == Ok(JArr(if path in unordered then [y, x] else [x, y]))
  {
    assert Dumps(x)[0] == 't' && Dumps(y)[0] == 'f';
    TwoItems(x, y, [x, y], path, inner, unordered);
  }

  /** The canonical tree of a list in a set, canonicalized again. */
  lemma NestedAgain(before: Path, names: Path, leaf: Json, at: Path, unordered: set<Path>, t: Json)
    requires at == before + ["[]"] + names && Canonicalize(Embed(leaf), at, unordered) == Ok(t)
    ensures Canonicalize(Embed(WrapTree(before, JArr([WrapTree(names, leaf)]))), [], unordered)
            == Ok(WrapTree(before, JArr([WrapTree(names, t)])))
  {
    EmbeddedWrap(names, leaf);
    OneMember("", WrapTree(names, leaf));
    EmbeddedWrap(before, JArr([WrapTree(names, leaf)]));
    Nested(before, Sequence([Wrap(names, Embed(leaf))]), names, Embed(leaf), at, before + ["[]"], unordered, t);
  }

  lemma DifferentInside(before: Path, names: Path, t: Json, other: Json)
    requires t != other
    ensures WrapTree(before, JArr([WrapTree(names, t)])) != WrapTree(before, JArr([WrapTree(names, other)]))
  {
    WrapTreeInjective(names, t, other);
    assert [WrapTree(names, t)][0] != [WrapTree(names, other)][0];
    WrapTreeInjective(before, JArr([WrapTree(names, t)]), JArr([WrapTree(names, other)]));
  }

  /** A list inside a set, at an ordered path whose counterpart without the set is unordered. */
  lemma OpenPathUnsettles(before: Path, names: Path, unordered: set<Path>, x: Json, y: Json, v: Value)
    requires before + ["[]"] + names in unordered && before + ["{}"] + names !in unordered
    requires x == JBool(true) && y == JBool(false)
    requires v == Wrap(before, SetOf([Wrap(names, Embed(JArr([x, y])))]))
    ensures !Settled(v, unordered)
  {
    var p, u := before + ["{}"] + names, before + ["[]"] + names;
    var asGiven, sorted := JArr([x, y]), JArr([y, x]);
    YesBeforeNo(x, y, p, p + ["[]"], unordered);
    YesBeforeNo(x, y, u, u + ["[]"], unordered);
    Nested(before, SetOf([Wrap(names, Embed(asGiven))]), names, Embed(asGiven), p, before + ["{}"], unordered, asGiven);
    NestedAgain(before, names, asGiven, u, unordered, sorted);
    assert asGiven.items[0] != sorted.items[0];
    DifferentInside(before, names, asGiven, sorted);
  }

  /** Canonicalizing is idempotent for every request exactly if the unordered paths are closed. */
  lemma {:induction false} IdempotentExactly(unordered: set<Path>)
    ensures (forall v :: Settled(v, unordered)) <==> Closed(unordered)
  {
    if Closed(unordered) {
      forall v ensures Settled(v, unordered) {
        if Canonicalize(v, [], unordered).Ok? {
          Again(v, [], [], unordered);
        }
      }
    } else {
      var u, k :| u in unordered && 0 <= k < |u| && u[k] == "[]" && u[k := "{}"] !in unordered;
      var (before, names) := (u[..k], u[k + 1..]);
      assert u == before + ["[]"] + names && u[k := "{}"] == before + ["{}"] + names;
      var x, y := JBool(true), JBool(false);
      OpenPathUnsettles(before, names, unordered, x, y, Wrap(before, SetOf([Wrap(names, Embed(JArr([x, y])))])));
    }
  }

  lemma EmbeddedTwo(x: Json, y: Json, items: seq<Json>)
    requires items == [x, y]
    ensures EmbedItems(items) == [Embed(x), Embed(y)]
  {
    assert items[1..] == [y] && items[1..][1..] == [];
    assert EmbedItems(items[1..][1..]) == [];
    assert EmbedItems(items[1..]) == [Embed(y)];
  }

  /** The smallest failing case: a set holding a list, with the lists inside a list unordered. */
  lemma SetOfListIsUnsettled(u: Path, leaf: Value)
    requires u == ["[]"] && leaf == Sequence([Bool(true), Bool(false)])
    ensures !Settled(SetOf([leaf]), {u})
  {
    var x, y := JBool(true), JBool(false);
    EmbeddedTwo(x, y, [x, y]);
    assert [] + ["[]"] + [] == u && ([] + ["{}"] + [])[0] != u[0];
    OpenPathUnsettles([], [], {u}, x, y, SetOf([leaf]));
  }
}
