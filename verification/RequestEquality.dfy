/** Exactly which requests are the same: the relation that equality of canonical trees, and so of hashed texts, comes to. */
module RequestEquality {
  import opened Results
  import opened DecimalText
  import opened Json
  import opened Ordering
  import opened Fingerprint

  // ---- lists and mappings, whichever Python type they are ----

  predicate IsList(v: Value) {
    v.Sequence? || v.SetOf?
  }

  function Items(v: Value): (vs: seq<Value>)
    requires IsList(v)
  {
    if v.Sequence? then v.items else v.elements
  }

  /** The path of the items of a list. */
  function Inside(v: Value, path: Path): Path
    requires IsList(v)
  {
    path + [if v.Sequence? then "[]" else "{}"]
  }

  /** The order of these items carries no meaning. */
  predicate Unordered(v: Value, path: Path, unordered: set<Path>)
    requires IsList(v)
  {
    v.SetOf? || path in unordered
  }

  predicate IsMapping(v: Value) {
    v.Mapping? || v.Model?
  }

  function Entries(v: Value): (es: seq<Entry>)
    requires IsMapping(v)
  {
    if v.Mapping? then v.entries else v.fields
  }

  lemma ListTree(v: Value, path: Path, unordered: set<Path>, inner: Path)
    requires IsList(v) && inner == Inside(v, path)
    ensures var items := CanonicalizeItems(Items(v), inner, unordered);
            Canonicalize(v, path, unordered) ==
            if items.Err? then Err(items.error)
            else Ok(JArr(if Unordered(v, path, unordered) then SortBy(items.value, Dumps) else items.value))
  {
  }

  lemma MappingTree(v: Value, path: Path, unordered: set<Path>)
    requires IsMapping(v)
    ensures Canonicalize(v, path, unordered) == CanonicalizeMapping(Entries(v), path, unordered)
  {
  }

  // ---- which requests have a fingerprint ----

  /** Somewhere in the value is something that this error is about: an unsupported value or a key that is no text, or a
      decimal that is not finite or a time without a zone. */
  ghost predicate Offends(v: Value, e: Error)
    decreases v
  {
    match v
    case Dec(d) => !d.Finite? && e.ValueError?
    case Stamp(aware, _) => !aware && e.ValueError?
    case Unsupported => e.TypeError?
    case Enumerated(inner) => Offends(inner, e)
    case Mapping(es) => (!TextKeys(es) && e.TypeError?) || exists x :: x in es && Offends(x.value, e)
    case Model(es) => (!TextKeys(es) && e.TypeError?) || exists x :: x in es && Offends(x.value, e)
    case Sequence(vs) => exists x :: x in vs && Offends(x, e)
    case SetOf(vs) => exists x :: x in vs && Offends(x, e)
    case _ => false
  }

  lemma {:induction false} ItemErrors(vs: seq<Value>, path: Path, unordered: set<Path>)
    ensures var r := CanonicalizeItems(vs, path, unordered);
            if r.Err? then exists x :: x in vs && Offends(x, r.error) else forall x, e :: x in vs ==> !Offends(x, e)
    decreases vs, 0
  {
    if vs != [] {
      RefusedExactly(vs[0], path, unordered);
      ItemErrors(vs[1..], path, unordered);
      assert vs == [vs[0]] + vs[1..];
    }
  }

  lemma {:induction false} EntryErrors(es: seq<Entry>, path: Path, unordered: set<Path>)
    ensures forall i :: 0 <= i < |es| ==>
              var r := CanonicalizeEntries(es, path, unordered)[i].outcome;
              if r.Err? then Offends(es[i].value, r.error) else forall e :: !Offends(es[i].value, e)
    decreases es, 0
  {
    if es != [] {
      EntryError(es[0], path, unordered);
      EntryErrors(es[1..], path, unordered);
    }
  }

  lemma EntryError(x: Entry, path: Path, unordered: set<Path>)
    ensures var r := CanonicalizeEntry(x, path, unordered).outcome;
            if r.Err? then Offends(x.value, r.error) else forall e :: !Offends(x.value, e)
    decreases x, 1
  {
    RefusedExactly(x.value, path + [KeyName(x.key)], unordered);
  }

  /** The error of a list of outcomes is that of one of them. */
  lemma {:induction false} FirstError(ks: seq<Keyed>)
    ensures var r := Collect(ks); if r.Err? then exists k :: k in ks && k.outcome == Err(r.error) else AllOk(ks)
  {
    if ks != [] {
      FirstError(ks[1..]);
      assert ks == [ks[0]] + ks[1..];
    }
  }

  lemma MappingErrors(es: seq<Entry>, path: Path, unordered: set<Path>)
    ensures var r := CanonicalizeMapping(es, path, unordered);
            if r.Err? then (!TextKeys(es) && r.error.TypeError?) || exists x :: x in es && Offends(x.value, r.error)
            else TextKeys(es) && forall x, e :: x in es ==> !Offends(x.value, e)
    decreases es, 1
  {
    var ks := CanonicalizeEntries(es, path, unordered);
    EntryErrors(es, path, unordered);
    FirstError(SortBy(ks, KeyOf));
    SortedOk(ks);
    if TextKeys(es) && Collect(SortBy(ks, KeyOf)).Err? {
      var k :| k in SortBy(ks, KeyOf) && k.outcome == Err(Collect(SortBy(ks, KeyOf)).error);
      assert k in multiset(ks);
      var i :| 0 <= i < |ks| && ks[i] == k;
      assert es[i] in es;
    } else if TextKeys(es) {
      forall x, e | x in es ensures !Offends(x.value, e) {
        var i :| 0 <= i < |es| && es[i] == x;
        assert ks[i] in ks;
      }
    }
  }

  /** A request is refused exactly if there is something in it to refuse, and with an error that is about such a thing. */
  lemma {:induction false} RefusedExactly(v: Value, path: Path, unordered: set<Path>)
    ensures var r := Canonicalize(v, path, unordered);
            if r.Err? then Offends(v, r.error) else forall e :: !Offends(v, e)
    decreases v, 1
  {
    match v {
      case Enumerated(inner) => RefusedExactly(inner, path, unordered);
      case Mapping(es) => MappingErrors(es, path, unordered);
      case Model(es) => MappingErrors(es, path, unordered);
      case Sequence(vs) => ItemErrors(vs, path + ["[]"], unordered);
      case SetOf(vs) => ItemErrors(vs, path + ["{}"], unordered);
      case _ =>
    }
  }

  // ---- the relation ----

  /** What a scalar is written as: every value that becomes a JSON string becomes this one. */
  function TextOf(v: Value): Option<string> {
    match v
    case Str(s) => Some(s)
    case Dec(d) => if d.Finite? then Some(CanonicalText(d)) else None
    case Uuid(text) => Some(text)
    case Stamp(aware, utc) => if aware then Some(utc) else None
    case Date(iso) => Some(iso)
    case _ => None
  }

  predicate SameScalar(v: Value, w: Value) {
    || (v.Null? && w.Null?)
    || (v.Bool? && v == w)
    || (v.Int? && v == w)
    || (TextOf(v).Some? && TextOf(v) == TextOf(w))
  }

  /** These items are written in the order of their texts. */
  ghost predicate InTextOrder(vs: seq<Value>, path: Path, unordered: set<Path>) {
    var items := CanonicalizeItems(vs, path, unordered);
    items.Ok? && SortedBy(items.value, Dumps)
  }

  /**
   `v` at `path` and `w` at `other` are the same request: scalars with the same text, mappings with the same entries,
   lists with the same items, in the same order unless it carries no meaning on either side; where it carries meaning
   on one side only, that side must happen to be in text order. Enumerations stand for their values.
   */
  ghost predicate Same(v: Value, path: Path, w: Value, other: Path, unordered: set<Path>)
    decreases v, w, 1
  {
    if v.Enumerated? then Same(v.inner, path, w, other, unordered)
    else if w.Enumerated? then Same(v, path, w.inner, other, unordered)
    else if IsMapping(v) && IsMapping(w) then SameEntries(Entries(v), path, Entries(w), other, unordered)
    else if IsList(v) && IsList(w) then
      var (i, j) := (Inside(v, path), Inside(w, other));
      if Unordered(v, path, unordered) then
        SameInAnyOrder(Items(v), i, Items(w), j, unordered)
        && (Unordered(w, other, unordered) || InTextOrder(Items(w), j, unordered))
      else if Unordered(w, other, unordered) then
        SameInAnyOrder(Items(v), i, Items(w), j, unordered) && InTextOrder(Items(v), i, unordered)
      else SameInOrder(Items(v), i, Items(w), j, unordered)
    else SameScalar(v, w)
  }

  ghost predicate SameInOrder(vs: seq<Value>, path: Path, ws: seq<Value>, other: Path, unordered: set<Path>)
    decreases vs, ws, 0
  {
    if vs == [] then ws == [] else
      ws != [] && Same(vs[0], path, ws[0], other, unordered) && SameInOrder(vs[1..], path, ws[1..], other, unordered)
  }

  ghost predicate SameInAnyOrder(vs: seq<Value>, path: Path, ws: seq<Value>, other: Path, unordered: set<Path>)
    decreases vs, ws, 0
  {
    if vs == [] then ws == [] else
      exists j :: 0 <= j < |ws| && Same(vs[0], path, ws[j], other, unordered)
                  && SameInAnyOrder(vs[1..], path, Without(ws, j), other, unordered)
  }

  ghost predicate SameEntries(es: seq<Entry>, path: Path, fs: seq<Entry>, other: Path, unordered: set<Path>)
    decreases es, fs, 0
  {
    if es == [] then fs == [] else
      exists j :: 0 <= j < |fs| && SameEntry(es[0], path, fs[j], other, unordered)
                  && SameEntries(es[1..], path, Without(fs, j), other, unordered)
  }

  ghost predicate SameEntry(e: Entry, path: Path, f: Entry, other: Path, unordered: set<Path>)
    decreases e, f, 1
  {
    KeyName(e.key) == KeyName(f.key)
    && Same(e.value, path + [KeyName(e.key)], f.value, other + [KeyName(f.key)], unordered)
  }

  // ---- canonical results ----

  lemma {:induction false} ItemAt(vs: seq<Value>, path: Path, unordered: set<Path>, i: nat)
    requires CanonicalizeItems(vs, path, unordered).Ok? && i < |vs|
    ensures var items := CanonicalizeItems(vs, path, unordered).value;
            |items| == |vs| && Canonicalize(vs[i], path, unordered) == Ok(items[i])
  {
    if i > 0 {
      ItemAt(vs[1..], path, unordered, i - 1);
    } else if |vs| > 1 {
      ItemAt(vs[1..], path, unordered, 0);
    }
  }

  lemma {:induction false} ItemCount(vs: seq<Value>, path: Path, unordered: set<Path>)
    requires CanonicalizeItems(vs, path, unordered).Ok?
    ensures |CanonicalizeItems(vs, path, unordered).value| == |vs|
  {
    if vs != [] {
      ItemCount(vs[1..], path, unordered);
    }
  }

  /** A sorted list is another list exactly if they have the same elements and that one is in order. */
  lemma SortedFormIs(xs: seq<Json>, ys: seq<Json>)
    ensures SortBy(xs, Dumps) == ys <==> multiset(xs) == multiset(ys) && SortedBy(ys, Dumps)
  {
    SortSorts(xs, Dumps);
    if multiset(xs) == multiset(ys) && SortedBy(ys, Dumps) {
      SortedAsMultisets(xs, ys);
      SortOfSorted(ys, Dumps);
    }
  }

  lemma {:induction false} CollectInjective(a: seq<Keyed>, b: seq<Keyed>)
    requires Collect(a).Ok? && Collect(b).Ok?
    ensures |Collect(a).value| == |a|
    ensures Collect(a) == Collect(b) <==> a == b
  {
    if a == [] {
    } else if b == [] {
      CollectInjective(a[1..], []);
    } else {
      CollectInjective(a[1..], b[1..]);
      assert a == [a[0]] + a[1..] && b == [b[0]] + b[1..];
      assert Collect(a).value[1..] == Collect(a[1..]).value && Collect(b).value[1..] == Collect(b[1..]).value;
      assert Collect(a).value[0] == Member(a[0].key, a[0].outcome.value);
      assert Collect(b).value[0] == Member(b[0].key, b[0].outcome.value);
    }
  }

  /** Mappings with distinct keys have equal trees exactly if they have the same canonical entries. */
  lemma MappingsAsMultisets(es: seq<Entry>, path: Path, fs: seq<Entry>, other: Path, unordered: set<Path>)
    requires DistinctKeys(es) && CanonicalizeMapping(es, path, unordered).Ok? && CanonicalizeMapping(fs, other, unordered).Ok?
    ensures CanonicalizeMapping(es, path, unordered) == CanonicalizeMapping(fs, other, unordered) <==>
            multiset(CanonicalizeEntries(es, path, unordered)) == multiset(CanonicalizeEntries(fs, other, unordered))
  {
    var a, b := CanonicalizeEntries(es, path, unordered), CanonicalizeEntries(fs, other, unordered);
    CollectInjective(SortBy(a, KeyOf), SortBy(b, KeyOf));
    if multiset(a) == multiset(b) {
      DistinctKeysDetermine(es, path, unordered);
      SortIgnoresOrder(a, b, KeyOf);
    } else {
      assert multiset(SortBy(a, KeyOf)) == multiset(a) && multiset(SortBy(b, KeyOf)) == multiset(b);
    }
  }

  // ---- the theorem ----

  lemma {:induction false} InOrderExactly(vs: seq<Value>, path: Path, ws: seq<Value>, other: Path, unordered: set<Path>)
    requires (forall x :: x in vs ==> WellFormed(x)) && (forall x :: x in ws ==> WellFormed(x))
    requires CanonicalizeItems(vs, path, unordered).Ok? && CanonicalizeItems(ws, other, unordered).Ok?
    ensures SameInOrder(vs, path, ws, other, unordered) <==>
            CanonicalizeItems(vs, path, unordered) == CanonicalizeItems(ws, other, unordered)
    decreases vs, ws, 0
  {
    ItemCount(vs, path, unordered);
    ItemCount(ws, other, unordered);
    if vs != [] && ws != [] {
      SameExactly(vs[0], path, ws[0], other, unordered);
      InOrderExactly(vs[1..], path, ws[1..], other, unordered);
      HeadAndTail(vs, path, ws, other, unordered);
    }
  }

  lemma HeadAndTail(vs: seq<Value>, path: Path, ws: seq<Value>, other: Path, unordered: set<Path>)
    requires vs != [] && ws != []
    requires CanonicalizeItems(vs, path, unordered).Ok? && CanonicalizeItems(ws, other, unordered).Ok?
    ensures Canonicalize(vs[0], path, unordered).Ok? && Canonicalize(ws[0], other, unordered).Ok?
    ensures CanonicalizeItems(vs[1..], path, unordered).Ok? && CanonicalizeItems(ws[1..], other, unordered).Ok?
    ensures CanonicalizeItems(vs, path, unordered) == CanonicalizeItems(ws, other, unordered) <==>
            && Canonicalize(vs[0], path, unordered) == Canonicalize(ws[0], other, unordered)
            && CanonicalizeItems(vs[1..], path, unordered) == CanonicalizeItems(ws[1..], other, unordered)
  {
    var a, b := CanonicalizeItems(vs, path, unordered).value, CanonicalizeItems(ws, other, unordered).value;
    assert a[1..] == CanonicalizeItems(vs[1..], path, unordered).value && a[0] == Canonicalize(vs[0], path, unordered).value;
    assert b[1..] == CanonicalizeItems(ws[1..], other, unordered).value && b[0] == Canonicalize(ws[0], other, unordered).value;
    assert a == [a[0]] + a[1..] && b == [b[0]] + b[1..];
  }

  lemma TakeOut(more: multiset<Json>, one: Json, rest: multiset<Json>, all: multiset<Json>, other: Json, others: multiset<Json>)
    requires more == multiset{one} + rest && all == multiset{other} + others && one == other
    ensures more == all <==> rest == others
  {
    assert rest == more - multiset{one} && others == all - multiset{one};
  }

  lemma {:induction false} AnyOrderExactly(vs: seq<Value>, path: Path, ws: seq<Value>, other: Path, unordered: set<Path>)
    requires (forall x :: x in vs ==> WellFormed(x)) && (forall x :: x in ws ==> WellFormed(x))
    requires CanonicalizeItems(vs, path, unordered).Ok? && CanonicalizeItems(ws, other, unordered).Ok?
    ensures SameInAnyOrder(vs, path, ws, other, unordered) <==>
            multiset(CanonicalizeItems(vs, path, unordered).value) == multiset(CanonicalizeItems(ws, other, unordered).value)
    decreases vs, ws, 0
  {
    var a, b := CanonicalizeItems(vs, path, unordered).value, CanonicalizeItems(ws, other, unordered).value;
    ItemCount(vs, path, unordered);
    ItemCount(ws, other, unordered);
    if vs == [] {
      assert multiset(a) == multiset(b) ==> |multiset(b)| == 0;
    } else {
      ItemsSplit(vs, path, unordered);
      forall j | 0 <= j < |ws|
        ensures Canonicalize(ws[j], other, unordered) == Ok(b[j])
        ensures Same(vs[0], path, ws[j], other, unordered) <==> Ok(b[j]) == Canonicalize(vs[0], path, unordered)
        ensures b[j] == Canonicalize(vs[0], path, unordered).value ==>
                  (SameInAnyOrder(vs[1..], path, Without(ws, j), other, unordered) <==> multiset(a) == multiset(b))
      {
        ItemAt(ws, other, unordered, j);
        SameExactly(vs[0], path, ws[j], other, unordered);
        OneTakenOut(vs, path, ws, other, unordered, j);
      }
      if multiset(a) == multiset(b) {
        assert Canonicalize(vs[0], path, unordered).value in multiset(b);
        var j :| 0 <= j < |b| && b[j] == Canonicalize(vs[0], path, unordered).value;
        assert SameInAnyOrder(vs[1..], path, Without(ws, j), other, unordered);
      }
    }
  }

  lemma OneTakenOut(vs: seq<Value>, path: Path, ws: seq<Value>, other: Path, unordered: set<Path>, j: nat)
    requires (forall x :: x in vs ==> WellFormed(x)) && (forall x :: x in ws ==> WellFormed(x)) && vs != [] && j < |ws|
    requires CanonicalizeItems(vs, path, unordered).Ok? && CanonicalizeItems(ws, other, unordered).Ok?
    requires Canonicalize(vs[0], path, unordered).Ok? && Canonicalize(ws[j], other, unordered).Ok?
    ensures Canonicalize(vs[0], path, unordered) == Canonicalize(ws[j], other, unordered) ==>
              (SameInAnyOrder(vs[1..], path, Without(ws, j), other, unordered) <==>
               multiset(CanonicalizeItems(vs, path, unordered).value) == multiset(CanonicalizeItems(ws, other, unordered).value))
    decreases vs[1..], ws, 1
  {
    var a, b := CanonicalizeItems(vs, path, unordered).value, CanonicalizeItems(ws, other, unordered).value;
    ItemsSplit(vs, path, unordered);
    ItemsWithout(ws, j, other, unordered);
    var rest, others := CanonicalizeItems(vs[1..], path, unordered).value, CanonicalizeItems(Without(ws, j), other, unordered).value;
    assert forall x :: x in Without(ws, j) ==> x in multiset(Without(ws, j)) && x in multiset(ws);
    AnyOrderExactly(vs[1..], path, Without(ws, j), other, unordered);
    if Canonicalize(vs[0], path, unordered) == Canonicalize(ws[j], other, unordered) {
      TakeOut(multiset(a), Canonicalize(vs[0], path, unordered).value, multiset(rest),
              multiset(b), Canonicalize(ws[j], other, unordered).value, multiset(others));
    }
  }

  lemma {:induction false} EntriesExactly(es: seq<Entry>, path: Path, fs: seq<Entry>, other: Path, unordered: set<Path>)
    requires (forall x :: x in es ==> WellFormed(x.value)) && (forall x :: x in fs ==> WellFormed(x.value))
    requires AllOk(CanonicalizeEntries(es, path, unordered)) && AllOk(CanonicalizeEntries(fs, other, unordered))
    ensures SameEntries(es, path, fs, other, unordered) <==>
            multiset(CanonicalizeEntries(es, path, unordered)) == multiset(CanonicalizeEntries(fs, other, unordered))
    decreases es, fs, 0
  {
    var a, b := CanonicalizeEntries(es, path, unordered), CanonicalizeEntries(fs, other, unordered);
    if es == [] {
      assert multiset(a) == multiset(b) ==> |multiset(b)| == 0;
    } else {
      assert a[0] == CanonicalizeEntry(es[0], path, unordered);
      forall j | 0 <= j < |fs|
        ensures b[j] == CanonicalizeEntry(fs[j], other, unordered)
        ensures SameEntry(es[0], path, fs[j], other, unordered) <==> b[j] == a[0]
        ensures b[j] == a[0] ==> (SameEntries(es[1..], path, Without(fs, j), other, unordered) <==> multiset(a) == multiset(b))
      {
        EntryWise(fs, j, other, unordered);
        assert a[0] in a && b[j] in b;
        EntryExactly(es[0], path, fs[j], other, unordered);
        EntryTakenOut(es, path, fs, other, unordered, j);
      }
      if multiset(a) == multiset(b) {
        assert a[0] in multiset(b);
        var j :| 0 <= j < |b| && b[j] == a[0];
        assert SameEntries(es[1..], path, Without(fs, j), other, unordered);
      }
    }
  }

  lemma EntryExactly(e: Entry, path: Path, f: Entry, other: Path, unordered: set<Path>)
    requires WellFormed(e.value) && WellFormed(f.value)
    requires CanonicalizeEntry(e, path, unordered).outcome.Ok? && CanonicalizeEntry(f, other, unordered).outcome.Ok?
    ensures SameEntry(e, path, f, other, unordered) <==>
            CanonicalizeEntry(e, path, unordered) == CanonicalizeEntry(f, other, unordered)
    decreases e, f, 1
  {
    SameExactly(e.value, path + [KeyName(e.key)], f.value, other + [KeyName(f.key)], unordered);
  }

  lemma TakeEntryOut(a: seq<Keyed>, one: Keyed, rest: seq<Keyed>, b: seq<Keyed>, others: seq<Keyed>)
    requires multiset(a) == multiset{one} + multiset(rest) && multiset(b) == multiset{one} + multiset(others)
    ensures multiset(a) == multiset(b) <==> multiset(rest) == multiset(others)
  {
    assert multiset(rest) == multiset(a) - multiset{one} && multiset(others) == multiset(b) - multiset{one};
  }

  lemma StillWellFormed(fs: seq<Entry>, j: nat)
    requires j < |fs| && forall x :: x in fs ==> WellFormed(x.value)
    ensures forall x :: x in Without(fs, j) ==> WellFormed(x.value)
  {
    forall x | x in Without(fs, j) ensures WellFormed(x.value) {
      assert x in multiset(Without(fs, j));
      assert x in multiset(fs);
    }
  }

  lemma EntryTakenOut(es: seq<Entry>, path: Path, fs: seq<Entry>, other: Path, unordered: set<Path>, j: nat)
    requires (forall x :: x in es ==> WellFormed(x.value)) && (forall x :: x in fs ==> WellFormed(x.value)) && es != [] && j < |fs|
    requires AllOk(CanonicalizeEntries(es, path, unordered)) && AllOk(CanonicalizeEntries(fs, other, unordered))
    ensures CanonicalizeEntry(es[0], path, unordered) == CanonicalizeEntry(fs[j], other, unordered) ==>
              (SameEntries(es[1..], path, Without(fs, j), other, unordered) <==>
               multiset(CanonicalizeEntries(es, path, unordered)) == multiset(CanonicalizeEntries(fs, other, unordered)))
    decreases es[1..], fs, 1
  {
    var a, b := CanonicalizeEntries(es, path, unordered), CanonicalizeEntries(fs, other, unordered);
    var rest, others := CanonicalizeEntries(es[1..], path, unordered), CanonicalizeEntries(Without(fs, j), other, unordered);
    var one, two := CanonicalizeEntry(es[0], path, unordered), CanonicalizeEntry(fs[j], other, unordered);
    assert Without(es, 0) == es[1..];
    EntriesWithout(es, 0, path, unordered);
    EntriesWithout(fs, j, other, unordered);
    StillWellFormed(fs, j);
    AllOkSplit(a, one, rest);
    AllOkSplit(b, two, others);
    EntriesExactly(es[1..], path, Without(fs, j), other, unordered);
    if one == two {
      TakeEntryOut(a, one, rest, b, others);
    }
  }

  lemma MappingsExactly(v: Value, path: Path, w: Value, other: Path, unordered: set<Path>)
    requires WellFormed(v) && WellFormed(w) && IsMapping(v) && IsMapping(w)
    requires Canonicalize(v, path, unordered).Ok? && Canonicalize(w, other, unordered).Ok?
    ensures SameEntries(Entries(v), path, Entries(w), other, unordered) <==>
            Canonicalize(v, path, unordered) == Canonicalize(w, other, unordered)
    decreases v, w, 0
  {
    var es, fs := Entries(v), Entries(w);
    MappingTree(v, path, unordered);
    MappingTree(w, other, unordered);
    SortedOk(CanonicalizeEntries(es, path, unordered));
    SortedOk(CanonicalizeEntries(fs, other, unordered));
    EntriesExactly(es, path, fs, other, unordered);
    MappingsAsMultisets(es, path, fs, other, unordered);
  }

  /** Lists of trees, sorted or not, against what the relation asks of them. */
  lemma SortedOrNot(a: seq<Json>, anyA: bool, b: seq<Json>, anyB: bool)
    ensures (if anyA then SortBy(a, Dumps) else a) == (if anyB then SortBy(b, Dumps) else b) <==>
            if anyA then multiset(a) == multiset(b) && (anyB || SortedBy(b, Dumps))
            else if anyB then multiset(a) == multiset(b) && SortedBy(a, Dumps)
            else a == b
  {
    SortedAsMultisets(a, b);
    SortedFormIs(a, b);
    SortedFormIs(b, a);
  }

  lemma SameLists(v: Value, path: Path, i: Path, w: Value, other: Path, j: Path, unordered: set<Path>)
    requires IsList(v) && IsList(w) && i == Inside(v, path) && j == Inside(w, other)
    ensures Same(v, path, w, other, unordered) <==>
            if Unordered(v, path, unordered) then
              SameInAnyOrder(Items(v), i, Items(w), j, unordered)
              && (Unordered(w, other, unordered) || InTextOrder(Items(w), j, unordered))
            else if Unordered(w, other, unordered) then
              SameInAnyOrder(Items(v), i, Items(w), j, unordered) && InTextOrder(Items(v), i, unordered)
            else SameInOrder(Items(v), i, Items(w), j, unordered)
  {
  }

  lemma ItemsWellFormed(v: Value)
    requires WellFormed(v) && IsList(v)
    ensures forall x :: x in Items(v) ==> WellFormed(x)
  {
  }

  lemma ListsExactly(v: Value, path: Path, i: Path, w: Value, other: Path, j: Path, unordered: set<Path>)
    requires WellFormed(v) && WellFormed(w) && IsList(v) && IsList(w) && i == Inside(v, path) && j == Inside(w, other)
    requires Canonicalize(v, path, unordered).Ok? && Canonicalize(w, other, unordered).Ok?
    ensures Same(v, path, w, other, unordered) <==> Canonicalize(v, path, unordered) == Canonicalize(w, other, unordered)
    decreases v, w, 0
  {
    ListTree(v, path, unordered, i);
    ListTree(w, other, unordered, j);
    ItemsWellFormed(v);
    ItemsWellFormed(w);
    InOrderExactly(Items(v), i, Items(w), j, unordered);
    AnyOrderExactly(Items(v), i, Items(w), j, unordered);
    SameLists(v, path, i, w, other, j, unordered);
    SortedOrNot(CanonicalizeItems(Items(v), i, unordered).value, Unordered(v, path, unordered),
                CanonicalizeItems(Items(w), j, unordered).value, Unordered(w, other, unordered));
  }

  lemma ScalarsExactly(v: Value, path: Path, w: Value, other: Path, unordered: set<Path>)
    requires !v.Enumerated? && !w.Enumerated? && !(IsMapping(v) && IsMapping(w)) && !(IsList(v) && IsList(w))
    requires Canonicalize(v, path, unordered).Ok? && Canonicalize(w, other, unordered).Ok?
    ensures SameScalar(v, w) <==> Canonicalize(v, path, unordered) == Canonicalize(w, other, unordered)
  {
    KindOfTree(v, path, unordered);
    KindOfTree(w, other, unordered);
  }

  lemma KindOfTree(v: Value, path: Path, unordered: set<Path>)
    requires !v.Enumerated? && Canonicalize(v, path, unordered).Ok?
    ensures var t := Canonicalize(v, path, unordered).value;
            && (IsMapping(v) <==> t.JObj?) && (IsList(v) <==> t.JArr?)
            && (v.Null? <==> t == JNull) && (v.Bool? <==> t.JBool?) && (v.Int? <==> t.JInt?)
            && (v.Bool? ==> t == JBool(v.b)) && (v.Int? ==> t == JInt(v.i))
            && (TextOf(v).Some? <==> t.JStr?) && (TextOf(v).Some? ==> t == JStr(TextOf(v).value))
  {
  }

  /** Acceptable requests have equal canonical trees exactly if they are the same in the sense of the relation. */
  lemma {:induction false} SameExactly(v: Value, path: Path, w: Value, other: Path, unordered: set<Path>)
    requires WellFormed(v) && WellFormed(w)
    requires Canonicalize(v, path, unordered).Ok? && Canonicalize(w, other, unordered).Ok?
    ensures Same(v, path, w, other, unordered) <==> Canonicalize(v, path, unordered) == Canonicalize(w, other, unordered)
    decreases v, w, 1
  {
    if v.Enumerated? {
      SameExactly(v.inner, path, w, other, unordered);
    } else if w.Enumerated? {
      SameExactly(v, path, w.inner, other, unordered);
    } else if IsMapping(v) && IsMapping(w) {
      MappingsExactly(v, path, w, other, unordered);
    } else if IsList(v) && IsList(w) {
      ListsExactly(v, path, Inside(v, path), w, other, Inside(w, other), unordered);
    } else {
      ScalarsExactly(v, path, w, other, unordered);
    }
  }

  /** Two acceptable requests have the same fingerprint text exactly if they are the same request. */
  lemma FingerprintsExactly(v: Value, w: Value, unordered: set<Path>)
    requires WellFormed(v) && WellFormed(w) && PreHash(v, unordered).Ok? && PreHash(w, unordered).Ok?
    ensures PreHash(v, unordered) == PreHash(w, unordered) <==> Same(v, [], w, [], unordered)
  {
    FingerprintSeparates(v, w, unordered);
    SameExactly(v, [], w, [], unordered);
  }

  lemma TextOfDecimal(v: Value, text: string)
    requires v.Dec? && v.d.Finite? && text == CanonicalText(v.d)
    ensures TextOf(v) == Some(text)
  {
  }

  /** Among scalars, decimals are the same exactly if they are the same number. */
  lemma SameDecimals(v: Value, w: Value)
    requires v.Dec? && w.Dec? && v.d.Finite? && w.d.Finite?
    ensures SameScalar(v, w) <==> Numeric(v.d) == Numeric(w.d)
  {
    TextOfDecimal(v, CanonicalText(v.d));
    TextOfDecimal(w, CanonicalText(w.d));
    CanonicalTextIsExact(v.d, w.d);
  }
}
