/**
 The canonical form of a request body and the text that is hashed into its fingerprint.
 SHA-256 itself is not modelled: two requests have the same fingerprint when these texts are equal.
 */
module Fingerprint {
  import opened Results
  import opened DecimalText
  import opened Json
  import opened Ordering

  type Path = seq<string>

  datatype Key = TextKey(text: string) | OtherKey

  datatype Entry = Entry(key: Key, value: Value)

  /**
   A Python value. Dictionaries and sets are listed in their iteration order, which the caller does not control.
   `Stamp` carries the UTC ISO text of a datetime; `Model` is a Pydantic model, as the fields it dumps.
   */
  datatype Value =
    | Null
    | Bool(b: bool)
    | Int(i: int)
    | Str(s: string)
    | Dec(d: Decimal)
    | Uuid(text: string)
    | Stamp(aware: bool, utc: string)
    | Date(iso: string)
    | Enumerated(inner: Value)
    | Mapping(entries: seq<Entry>)
    | Model(fields: seq<Entry>)
    | Sequence(items: seq<Value>)
    | SetOf(elements: seq<Value>)
    | Unsupported

  datatype Error = TypeError | ValueError

  type Canon = Result<Json, Error>

  datatype Keyed = Keyed(key: string, outcome: Canon)

  function KeyOf(k: Keyed): string {
    k.key
  }

  function MemberKey(m: Member): string {
    m.key
  }

  function KeyName(k: Key): string {
    if k.TextKey? then k.text else ""
  }

  predicate TextKeys(es: seq<Entry>) {
    forall e :: e in es ==> e.key.TextKey?
  }

  function Canonicalize(v: Value, path: Path, unordered: set<Path>): Canon
    decreases v, 1
  {
    match v
    case Null => Ok(JNull)
    case Bool(b) => Ok(JBool(b))
    case Int(i) => Ok(JInt(i))
    case Str(s) => Ok(JStr(s))
    case Dec(d) => if d.Finite? then Ok(JStr(CanonicalText(d))) else Err(ValueError)
    case Uuid(text) => Ok(JStr(text))
    case Stamp(aware, utc) => if aware then Ok(JStr(utc)) else Err(ValueError)
    case Date(iso) => Ok(JStr(iso))
    case Enumerated(inner) => Canonicalize(inner, path, unordered)
    case Mapping(entries) => CanonicalizeMapping(entries, path, unordered)
    case Model(fields) => CanonicalizeMapping(fields, path, unordered)
    case Sequence(items) =>
      var r := CanonicalizeItems(items, path + ["[]"], unordered);
      if r.Err? then Err(r.error)
      else Ok(JArr(if path in unordered then SortBy(r.value, Dumps) else r.value))
    case SetOf(elements) =>
      var r := CanonicalizeItems(elements, path + ["{}"], unordered);
      if r.Err? then Err(r.error) else Ok(JArr(SortBy(r.value, Dumps)))
    case Unsupported => Err(TypeError)
  }

  /** Keys are checked first; then the entries are visited in key order and the first error wins. */
  function CanonicalizeMapping(es: seq<Entry>, path: Path, unordered: set<Path>): Canon
    decreases es, 1
  {
    if !TextKeys(es) then Err(TypeError) else
      var r := Collect(SortBy(CanonicalizeEntries(es, path, unordered), KeyOf));
      if r.Err? then Err(r.error) else Ok(JObj(r.value))
  }

  function CanonicalizeEntries(es: seq<Entry>, path: Path, unordered: set<Path>): (ks: seq<Keyed>)
    ensures |ks| == |es|
    ensures forall i :: 0 <= i < |es| ==> ks[i].key == KeyName(es[i].key)
    decreases es, 0
  {
    if es == [] then [] else
      [CanonicalizeEntry(es[0], path, unordered)] + CanonicalizeEntries(es[1..], path, unordered)
  }

  function CanonicalizeEntry(e: Entry, path: Path, unordered: set<Path>): (k: Keyed)
    ensures k.key == KeyName(e.key)
    decreases e, 1
  {
    Keyed(KeyName(e.key), Canonicalize(e.value, path + [KeyName(e.key)], unordered))
  }

  function CanonicalizeItems(vs: seq<Value>, path: Path, unordered: set<Path>): Result<seq<Json>, Error>
    decreases vs, 0
  {
    if vs == [] then Ok([]) else
      var first := Canonicalize(vs[0], path, unordered);
      if first.Err? then Err(first.error) else
        var rest := CanonicalizeItems(vs[1..], path, unordered);
        if rest.Err? then rest else Ok([first.value] + rest.value)
  }

  function Collect(ks: seq<Keyed>): Result<seq<Member>, Error> {
    if ks == [] then Ok([])
    else if ks[0].outcome.Err? then Err(ks[0].outcome.error)
    else
      var rest := Collect(ks[1..]);
      if rest.Err? then rest else Ok([Member(ks[0].key, ks[0].outcome.value)] + rest.value)
  }

  /** The text whose digest is the request fingerprint. */
  function PreHash(v: Value, unordered: set<Path>): Result<string, Error> {
    var c := Canonicalize(v, [], unordered);
    if c.Err? then Err(c.error) else Ok(Dumps(c.value))
  }

  // ---- the same request, listed in another order ----

  function Without<T>(xs: seq<T>, j: nat): (r: seq<T>)
    requires j < |xs|
    ensures multiset(xs) == multiset{xs[j]} + multiset(r)
  {
    assert xs == xs[..j] + [xs[j]] + xs[j + 1..];
    xs[..j] + xs[j + 1..]
  }

  /**
   `w` is `v` with dictionary entries, set elements and the items of sequences at `unordered` paths
   rearranged, at any depth.
   */
  ghost predicate Rearranged(v: Value, w: Value, path: Path, unordered: set<Path>)
    decreases v, 1
  {
    match v
    case Enumerated(inner) => w.Enumerated? && Rearranged(inner, w.inner, path, unordered)
    case Mapping(es) => w.Mapping? && RearrangedEntries(es, w.entries, path, unordered)
    case Model(es) => w.Model? && RearrangedEntries(es, w.fields, path, unordered)
    case Sequence(vs) =>
      w.Sequence? &&
      (if path in unordered then RearrangedItems(vs, w.items, path + ["[]"], unordered)
       else PairwiseItems(vs, w.items, path + ["[]"], unordered))
    case SetOf(vs) => w.SetOf? && RearrangedItems(vs, w.elements, path + ["{}"], unordered)
    case _ => v == w
  }

  ghost predicate RearrangedItems(vs: seq<Value>, ws: seq<Value>, path: Path, unordered: set<Path>)
    decreases vs, 0
  {
    if vs == [] then ws == [] else
      exists j :: 0 <= j < |ws| && Rearranged(vs[0], ws[j], path, unordered)
                  && RearrangedItems(vs[1..], Without(ws, j), path, unordered)
  }

  ghost predicate PairwiseItems(vs: seq<Value>, ws: seq<Value>, path: Path, unordered: set<Path>)
    decreases vs, 0
  {
    if vs == [] then ws == [] else
      ws != [] && Rearranged(vs[0], ws[0], path, unordered) && PairwiseItems(vs[1..], ws[1..], path, unordered)
  }

  ghost predicate RearrangedEntries(es: seq<Entry>, fs: seq<Entry>, path: Path, unordered: set<Path>)
    decreases es, 0
  {
    if es == [] then fs == [] else
      exists j :: 0 <= j < |fs| && RearrangedEntry(es[0], fs[j], path, unordered)
                  && RearrangedEntries(es[1..], Without(fs, j), path, unordered)
  }

  ghost predicate RearrangedEntry(e: Entry, f: Entry, path: Path, unordered: set<Path>)
    decreases e, 1
  {
    e.key == f.key && Rearranged(e.value, f.value, path + [KeyName(e.key)], unordered)
  }

  predicate DistinctKeys(es: seq<Entry>) {
    forall i, j :: 0 <= i < j < |es| ==> es[i].key != es[j].key
  }

  /** A dictionary holds every key once. */
  predicate WellFormed(v: Value)
    decreases v
  {
    match v
    case Enumerated(inner) => WellFormed(inner)
    case Mapping(es) => DistinctKeys(es) && forall e :: e in es ==> WellFormed(e.value)
    case Model(es) => DistinctKeys(es) && forall e :: e in es ==> WellFormed(e.value)
    case Sequence(vs) => forall x :: x in vs ==> WellFormed(x)
    case SetOf(vs) => forall x :: x in vs ==> WellFormed(x)
    case _ => true
  }

  /** Same canonical tree, or an error on both sides (which error comes first may depend on the order). */
  predicate Agree<T(==)>(a: Result<T, Error>, b: Result<T, Error>) {
    if a.Ok? then b == a else b.Err?
  }

  /** Two item results that hold the same trees, in any order. */
  predicate SameItems(a: Result<seq<Json>, Error>, b: Result<seq<Json>, Error>) {
    if a.Ok? then b.Ok? && multiset(a.value) == multiset(b.value) else b.Err?
  }

  /** Taking one item out of a list takes its tree out of the result. */
  lemma {:induction false} ItemsWithout(ws: seq<Value>, j: nat, path: Path, unordered: set<Path>)
    requires j < |ws|
    ensures var all, one, rest := CanonicalizeItems(ws, path, unordered), Canonicalize(ws[j], path, unordered),
                                  CanonicalizeItems(Without(ws, j), path, unordered);
            (all.Ok? <==> one.Ok? && rest.Ok?) &&
            (all.Ok? ==> multiset(all.value) == multiset{one.value} + multiset(rest.value))
  {
    if j == 0 {
      assert Without(ws, 0) == ws[1..];
    } else {
      ItemsWithout(ws[1..], j - 1, path, unordered);
      assert Without(ws, j)[1..] == Without(ws[1..], j - 1) && Without(ws, j)[0] == ws[0];
      SameHeadSplits(ws, Without(ws, j), Canonicalize(ws[j], path, unordered), path, unordered);
    }
  }

  /** Two lists with the same head, of which one has one tree more in its tail. */
  lemma SameHeadSplits(more: seq<Value>, fewer: seq<Value>, one: Canon, path: Path, unordered: set<Path>)
    requires more != [] && fewer != [] && more[0] == fewer[0]
    requires var (a, b) := (CanonicalizeItems(more[1..], path, unordered), CanonicalizeItems(fewer[1..], path, unordered));
             (a.Ok? <==> one.Ok? && b.Ok?) && (a.Ok? ==> multiset(a.value) == multiset{one.value} + multiset(b.value))
    ensures var (a, b) := (CanonicalizeItems(more, path, unordered), CanonicalizeItems(fewer, path, unordered));
            (a.Ok? <==> one.Ok? && b.Ok?) && (a.Ok? ==> multiset(a.value) == multiset{one.value} + multiset(b.value))
  {
    ItemsSplit(more, path, unordered);
    ItemsSplit(fewer, path, unordered);
  }

  lemma ItemsSplit(ws: seq<Value>, path: Path, unordered: set<Path>)
    requires ws != []
    ensures var all, one, rest := CanonicalizeItems(ws, path, unordered), Canonicalize(ws[0], path, unordered),
                                  CanonicalizeItems(ws[1..], path, unordered);
            (all.Ok? <==> one.Ok? && rest.Ok?) &&
            (all.Ok? ==> multiset(all.value) == multiset{one.value} + multiset(rest.value))
  {
  }

  lemma {:induction false} ItemsAgree(vs: seq<Value>, ws: seq<Value>, path: Path, unordered: set<Path>)
    requires forall x :: x in vs ==> WellFormed(x)
    requires RearrangedItems(vs, ws, path, unordered)
    ensures SameItems(CanonicalizeItems(vs, path, unordered), CanonicalizeItems(ws, path, unordered))
    decreases vs, 0
  {
    if vs != [] {
      var j :| 0 <= j < |ws| && Rearranged(vs[0], ws[j], path, unordered)
               && RearrangedItems(vs[1..], Without(ws, j), path, unordered);
      OrderDoesNotMatter(vs[0], ws[j], path, unordered);
      ItemsAgree(vs[1..], Without(ws, j), path, unordered);
      ItemsWithout(ws, j, path, unordered);
    }
  }

  lemma {:induction false} PairsAgree(vs: seq<Value>, ws: seq<Value>, path: Path, unordered: set<Path>)
    requires forall x :: x in vs ==> WellFormed(x)
    requires PairwiseItems(vs, ws, path, unordered)
    ensures Agree(CanonicalizeItems(vs, path, unordered), CanonicalizeItems(ws, path, unordered))
    decreases vs, 0
  {
    if vs != [] {
      OrderDoesNotMatter(vs[0], ws[0], path, unordered);
      PairsAgree(vs[1..], ws[1..], path, unordered);
    }
  }

  predicate AllOk(ks: seq<Keyed>) {
    forall k :: k in ks ==> k.outcome.Ok?
  }

  lemma {:induction false} EntryWise(es: seq<Entry>, i: nat, path: Path, unordered: set<Path>)
    requires i < |es|
    ensures CanonicalizeEntries(es, path, unordered)[i] == CanonicalizeEntry(es[i], path, unordered)
  {
    if i > 0 {
      EntryWise(es[1..], i - 1, path, unordered);
    }
  }

  lemma WithoutAt<T>(xs: seq<T>, j: nat, i: nat)
    requires j < |xs| && i < |xs| - 1
    ensures |Without(xs, j)| == |xs| - 1 && Without(xs, j)[i] == xs[if i < j then i else i + 1]
  {
  }

  lemma EntriesWithoutAt(fs: seq<Entry>, j: nat, i: nat, path: Path, unordered: set<Path>)
    requires j < |fs| && i < |fs| - 1
    ensures CanonicalizeEntries(Without(fs, j), path, unordered)[i] == Without(CanonicalizeEntries(fs, path, unordered), j)[i]
  {
    var all := CanonicalizeEntries(fs, path, unordered);
    var rest := Without(fs, j);
    WithoutAt(fs, j, i);
    WithoutAt(all, j, i);
    EntryWise(fs, if i < j then i else i + 1, path, unordered);
    EntryWise(rest, i, path, unordered);
  }

  lemma EntriesWithout(fs: seq<Entry>, j: nat, path: Path, unordered: set<Path>)
    requires j < |fs|
    ensures multiset(CanonicalizeEntries(fs, path, unordered)) ==
            multiset{CanonicalizeEntry(fs[j], path, unordered)}
            + multiset(CanonicalizeEntries(Without(fs, j), path, unordered))
  {
    var all, rest := CanonicalizeEntries(fs, path, unordered), CanonicalizeEntries(Without(fs, j), path, unordered);
    forall i: nat | i < |rest| ensures rest[i] == Without(all, j)[i] {
      EntriesWithoutAt(fs, j, i, path, unordered);
    }
    assert rest == Without(all, j);
    EntryWise(fs, j, path, unordered);
  }

  lemma EntryAgrees(e: Entry, f: Entry, path: Path, unordered: set<Path>)
    requires WellFormed(e.value) && RearrangedEntry(e, f, path, unordered)
    ensures var a, b := CanonicalizeEntry(e, path, unordered), CanonicalizeEntry(f, path, unordered);
            a.key == b.key && Agree(a.outcome, b.outcome)
    decreases e, 1
  {
    OrderDoesNotMatter(e.value, f.value, path + [KeyName(e.key)], unordered);
  }

  /** All outcomes are there on both sides, in any order, or an error is on both. */
  predicate SameKeyed(a: seq<Keyed>, b: seq<Keyed>) {
    (AllOk(a) <==> AllOk(b)) && (AllOk(a) ==> multiset(a) == multiset(b))
  }

  lemma AddOne(a: seq<Keyed>, x: Keyed, a': seq<Keyed>, b: seq<Keyed>, y: Keyed, b': seq<Keyed>)
    requires multiset(a) == multiset{x} + multiset(a') && multiset(b) == multiset{y} + multiset(b')
    requires x.key == y.key && Agree(x.outcome, y.outcome) && SameKeyed(a', b')
    ensures SameKeyed(a, b)
  {
    AllOkSplit(a, x, a');
    AllOkSplit(b, y, b');
  }

  /** One matched pair of entries extends an agreement of the rest. */
  lemma MatchEntry(es: seq<Entry>, fs: seq<Entry>, j: nat, path: Path, unordered: set<Path>)
    requires es != [] && j < |fs|
    requires var a, b := CanonicalizeEntry(es[0], path, unordered), CanonicalizeEntry(fs[j], path, unordered);
             a.key == b.key && Agree(a.outcome, b.outcome)
    requires SameKeyed(CanonicalizeEntries(es[1..], path, unordered), CanonicalizeEntries(Without(fs, j), path, unordered))
    ensures SameKeyed(CanonicalizeEntries(es, path, unordered), CanonicalizeEntries(fs, path, unordered))
  {
    assert Without(es, 0) == es[1..];
    EntriesWithout(es, 0, path, unordered);
    EntriesWithout(fs, j, path, unordered);
    AddOne(CanonicalizeEntries(es, path, unordered), CanonicalizeEntry(es[0], path, unordered),
           CanonicalizeEntries(es[1..], path, unordered), CanonicalizeEntries(fs, path, unordered),
           CanonicalizeEntry(fs[j], path, unordered), CanonicalizeEntries(Without(fs, j), path, unordered));
  }

  lemma MatchKeys(es: seq<Entry>, fs: seq<Entry>, j: nat)
    requires es != [] && j < |fs| && es[0].key == fs[j].key
    requires TextKeys(es[1..]) <==> TextKeys(Without(fs, j))
    ensures TextKeys(es) <==> TextKeys(fs)
  {
    assert Without(es, 0) == es[1..];
    KeysWithout(es, 0);
    KeysWithout(fs, j);
  }

  lemma {:induction false} EntriesAgree(es: seq<Entry>, fs: seq<Entry>, path: Path, unordered: set<Path>)
    requires forall e :: e in es ==> WellFormed(e.value)
    requires RearrangedEntries(es, fs, path, unordered)
    ensures TextKeys(es) <==> TextKeys(fs)
    ensures SameKeyed(CanonicalizeEntries(es, path, unordered), CanonicalizeEntries(fs, path, unordered))
    decreases es, 0
  {
    if es != [] {
      var j :| 0 <= j < |fs| && RearrangedEntry(es[0], fs[j], path, unordered)
               && RearrangedEntries(es[1..], Without(fs, j), path, unordered);
      EntryAgrees(es[0], fs[j], path, unordered);
      EntriesAgree(es[1..], Without(fs, j), path, unordered);
      MatchEntry(es, fs, j, path, unordered);
      MatchKeys(es, fs, j);
    }
  }

  lemma KeysWithout(fs: seq<Entry>, j: nat)
    requires j < |fs|
    ensures TextKeys(fs) <==> fs[j].key.TextKey? && TextKeys(Without(fs, j))
  {
    var rest := Without(fs, j);
    assert forall e :: e in fs <==> e in multiset(fs);
    assert forall e :: e in rest <==> e in multiset(rest);
  }

  lemma AllOkSplit(b: seq<Keyed>, y: Keyed, rest: seq<Keyed>)
    requires multiset(b) == multiset{y} + multiset(rest)
    ensures AllOk(b) <==> y.outcome.Ok? && AllOk(rest)
  {
    assert forall k :: k in b <==> k in multiset(b);
    assert forall k :: k in rest <==> k in multiset(rest);
  }

  lemma {:induction false} CollectOk(ks: seq<Keyed>)
    ensures Collect(ks).Ok? <==> AllOk(ks)
  {
    if ks != [] {
      CollectOk(ks[1..]);
      assert ks == [ks[0]] + ks[1..];
    }
  }

  lemma SortedOk(ks: seq<Keyed>)
    ensures Collect(SortBy(ks, KeyOf)).Ok? <==> AllOk(ks)
  {
    CollectOk(SortBy(ks, KeyOf));
    assert forall k :: k in ks <==> k in multiset(ks);
    assert forall k :: k in SortBy(ks, KeyOf) <==> k in multiset(SortBy(ks, KeyOf));
  }

  lemma SameNameSameIndex(es: seq<Entry>, i: nat, k: nat)
    requires DistinctKeys(es) && TextKeys(es) && i < |es| && k < |es|
    requires KeyName(es[i].key) == KeyName(es[k].key)
    ensures i == k
  {
    assert es[i] in es && es[k] in es;
    assert es[i].key == es[k].key;
  }

  lemma DistinctNamesDetermine(es: seq<Entry>, ks: seq<Keyed>)
    requires DistinctKeys(es) && TextKeys(es) && |ks| == |es| && forall i :: 0 <= i < |es| ==> ks[i].key == KeyName(es[i].key)
    ensures KeyDetermines(multiset(ks), KeyOf)
  {
    forall x, y | x in multiset(ks) && y in multiset(ks) && KeyOf(x) == KeyOf(y) ensures x == y {
      assert x in ks && y in ks;
      var i :| 0 <= i < |ks| && ks[i] == x;
      var k :| 0 <= k < |ks| && ks[k] == y;
      SameNameSameIndex(es, i, k);
    }
  }

  lemma DistinctKeysDetermine(es: seq<Entry>, path: Path, unordered: set<Path>)
    requires DistinctKeys(es) && TextKeys(es)
    ensures KeyDetermines(multiset(CanonicalizeEntries(es, path, unordered)), KeyOf)
  {
    DistinctNamesDetermine(es, CanonicalizeEntries(es, path, unordered));
  }

  lemma MappingsAgree(es: seq<Entry>, fs: seq<Entry>, path: Path, unordered: set<Path>)
    requires DistinctKeys(es) && forall e :: e in es ==> WellFormed(e.value)
    requires RearrangedEntries(es, fs, path, unordered)
    ensures Agree(CanonicalizeMapping(es, path, unordered), CanonicalizeMapping(fs, path, unordered))
    decreases es, 1
  {
    EntriesAgree(es, fs, path, unordered);
    var a, b := CanonicalizeEntries(es, path, unordered), CanonicalizeEntries(fs, path, unordered);
    SortedOk(a);
    SortedOk(b);
    if TextKeys(es) && AllOk(a) {
      DistinctKeysDetermine(es, path, unordered);
      SortIgnoresOrder(a, b, KeyOf);
    }
  }

  lemma TextsDetermine(m: multiset<Json>)
    ensures KeyDetermines(m, Dumps)
  {
    forall x, y | x in m && y in m && Dumps(x) == Dumps(y) ensures x == y {
      DumpsInjective(x, y);
    }
  }

  /** Rearranging a request, at any depth where order carries no meaning, keeps its canonical form. */
  lemma {:induction false} OrderDoesNotMatter(v: Value, w: Value, path: Path, unordered: set<Path>)
    requires WellFormed(v) && Rearranged(v, w, path, unordered)
    ensures Agree(Canonicalize(v, path, unordered), Canonicalize(w, path, unordered))
    decreases v, 1
  {
    match v {
      case Enumerated(inner) => OrderDoesNotMatter(inner, w.inner, path, unordered);
      case Mapping(es) => MappingsAgree(es, w.entries, path, unordered);
      case Model(es) => MappingsAgree(es, w.fields, path, unordered);
      case Sequence(vs) =>
        if path in unordered {
          ItemsAgree(vs, w.items, path + ["[]"], unordered);
          SortedItemsAgree(CanonicalizeItems(vs, path + ["[]"], unordered), CanonicalizeItems(w.items, path + ["[]"], unordered));
        } else {
          PairsAgree(vs, w.items, path + ["[]"], unordered);
        }
      case SetOf(vs) =>
        ItemsAgree(vs, w.elements, path + ["{}"], unordered);
        SortedItemsAgree(CanonicalizeItems(vs, path + ["{}"], unordered), CanonicalizeItems(w.elements, path + ["{}"], unordered));
      case _ =>
    }
  }

  lemma SortedItemsAgree(a: Result<seq<Json>, Error>, b: Result<seq<Json>, Error>)
    requires SameItems(a, b)
    ensures a.Ok? ==> b.Ok? && SortBy(a.value, Dumps) == SortBy(b.value, Dumps)
  {
    if a.Ok? {
      TextsDetermine(multiset(a.value));
      SortIgnoresOrder(a.value, b.value, Dumps);
    }
  }

  /** A rearranged request has the same fingerprint, or fails as the original does. */
  lemma {:induction false} FingerprintIgnoresOrder(v: Value, w: Value, unordered: set<Path>)
    requires WellFormed(v) && Rearranged(v, w, [], unordered)
    ensures Agree(PreHash(v, unordered), PreHash(w, unordered))
  {
    OrderDoesNotMatter(v, w, [], unordered);
  }

  lemma PreHashIsText(v: Value, unordered: set<Path>, tree: Json)
    requires Canonicalize(v, [], unordered) == Ok(tree)
    ensures PreHash(v, unordered) == Ok(Dumps(tree))
  {
  }

  /** Two acceptable requests have the same hashed text exactly when their canonical trees are equal. */
  lemma FingerprintSeparates(v: Value, w: Value, unordered: set<Path>)
    requires Canonicalize(v, [], unordered).Ok? && Canonicalize(w, [], unordered).Ok?
    ensures PreHash(v, unordered) == PreHash(w, unordered) <==>
            Canonicalize(v, [], unordered) == Canonicalize(w, [], unordered)
  {
    var a, b := Canonicalize(v, [], unordered).value, Canonicalize(w, [], unordered).value;
    PreHashIsText(v, unordered, a);
    PreHashIsText(w, unordered, b);
    if Dumps(a) == Dumps(b) {
      DumpsInjective(a, b);
    }
  }

  /** Amounts written with different precision are the same amount, and no others are. */
  lemma DecimalsCompareByNumber(a: Decimal, b: Decimal, path: Path, unordered: set<Path>)
    requires a.Finite? && b.Finite?
    ensures Canonicalize(Dec(a), path, unordered) == Canonicalize(Dec(b), path, unordered) <==> Numeric(a) == Numeric(b)
  {
    CanonicalTextIsExact(a, b);
  }

  lemma SortedAsMultisets(xs: seq<Json>, ys: seq<Json>)
    ensures SortBy(xs, Dumps) == SortBy(ys, Dumps) <==> multiset(xs) == multiset(ys)
  {
    if multiset(xs) == multiset(ys) {
      TextsDetermine(multiset(xs));
      SortIgnoresOrder(xs, ys, Dumps);
    } else {
      assert multiset(SortBy(xs, Dumps)) == multiset(xs);
    }
  }

  lemma SetText(v: Value, path: Path, unordered: set<Path>, inner: Path, items: seq<Json>)
    requires v.SetOf? && inner == path + ["{}"] && CanonicalizeItems(v.elements, inner, unordered) == Ok(items)
    ensures Canonicalize(v, path, unordered) == Ok(JArr(SortBy(items, Dumps)))
  {
  }

  /** Unordered collections compare as multisets of canonical items: order is dropped and nothing else. */
  lemma {:induction false} SetsCompareAsMultisets(vs: seq<Value>, ws: seq<Value>, path: Path, unordered: set<Path>)
    requires CanonicalizeItems(vs, path + ["{}"], unordered).Ok? && CanonicalizeItems(ws, path + ["{}"], unordered).Ok?
    ensures Canonicalize(SetOf(vs), path, unordered) == Canonicalize(SetOf(ws), path, unordered) <==>
            multiset(CanonicalizeItems(vs, path + ["{}"], unordered).value) ==
            multiset(CanonicalizeItems(ws, path + ["{}"], unordered).value)
  {
    var a, b := CanonicalizeItems(vs, path + ["{}"], unordered), CanonicalizeItems(ws, path + ["{}"], unordered);
    SetText(SetOf(vs), path, unordered, path + ["{}"], a.value);
    SetText(SetOf(ws), path, unordered, path + ["{}"], b.value);
    SortedAsMultisets(a.value, b.value);
  }

  // ---- why `sort_keys=True` has nothing left to do ----

  /** Every object of the tree lists its members in the order `sort_keys` would put them in. */
  ghost predicate KeysInOrder(j: Json)
    decreases j
  {
    match j
    case JArr(items) => forall x :: x in items ==> KeysInOrder(x)
    case JObj(members) => SortBy(members, MemberKey) == members && forall m :: m in members ==> KeysInOrder(m.value)
    case _ => true
  }

  lemma {:induction false} SortOfSorted<T>(xs: seq<T>, key: T -> string)
    requires SortedBy(xs, key)
    ensures SortBy(xs, key) == xs
  {
    if xs != [] {
      SortOfSorted(xs[1..], key);
      assert xs == [xs[0]] + xs[1..];
      if |xs| > 1 {
        assert xs[1] == xs[1..][0] && xs[1] in xs[1..];
      }
    }
  }

  lemma {:induction false} CollectKeepsOrder(ks: seq<Keyed>)
    requires SortedBy(ks, KeyOf) && Collect(ks).Ok?
    ensures SortedBy(Collect(ks).value, MemberKey)
    ensures forall m :: m in Collect(ks).value ==> Keyed(m.key, Ok(m.value)) in ks
  {
    if ks != [] {
      CollectKeepsOrder(ks[1..]);
      var rest := Collect(ks[1..]).value;
      assert Collect(ks).value[1..] == rest;
      assert ks == [ks[0]] + ks[1..];
      assert ks[0] == Keyed(ks[0].key, Ok(ks[0].outcome.value));
      forall m | m in rest ensures LexLe(ks[0].key, m.key) {
        assert Keyed(m.key, Ok(m.value)) in ks[1..];
        assert LexLe(KeyOf(ks[0]), KeyOf(Keyed(m.key, Ok(m.value))));
      }
    }
  }

  lemma {:induction false} EntryOutcomes(es: seq<Entry>, path: Path, unordered: set<Path>)
    ensures forall k :: k in CanonicalizeEntries(es, path, unordered) && k.outcome.Ok? ==> KeysInOrder(k.outcome.value)
    decreases es, 0
  {
    if es != [] {
      EntryOutcome(es[0], path, unordered);
      EntryOutcomes(es[1..], path, unordered);
    }
  }

  lemma EntryOutcome(e: Entry, path: Path, unordered: set<Path>)
    ensures var k := CanonicalizeEntry(e, path, unordered); k.outcome.Ok? ==> KeysInOrder(k.outcome.value)
    decreases e, 1
  {
    if CanonicalizeEntry(e, path, unordered).outcome.Ok? {
      CanonicalKeysInOrder(e.value, path + [KeyName(e.key)], unordered);
    }
  }

  lemma {:induction false} ItemOutcomes(vs: seq<Value>, path: Path, unordered: set<Path>)
    requires CanonicalizeItems(vs, path, unordered).Ok?
    ensures forall x :: x in CanonicalizeItems(vs, path, unordered).value ==> KeysInOrder(x)
    decreases vs, 0
  {
    if vs != [] {
      CanonicalKeysInOrder(vs[0], path, unordered);
      ItemOutcomes(vs[1..], path, unordered);
    }
  }

  lemma MappingKeysInOrder(es: seq<Entry>, path: Path, unordered: set<Path>)
    requires CanonicalizeMapping(es, path, unordered).Ok?
    ensures KeysInOrder(CanonicalizeMapping(es, path, unordered).value)
    decreases es, 1
  {
    var ks := CanonicalizeEntries(es, path, unordered);
    var sorted := SortBy(ks, KeyOf);
    SortSorts(ks, KeyOf);
    CollectKeepsOrder(sorted);
    var members := Collect(sorted).value;
    SortOfSorted(members, MemberKey);
    EntryOutcomes(es, path, unordered);
    forall m | m in members ensures KeysInOrder(m.value) {
      var k := Keyed(m.key, Ok(m.value));
      assert k in multiset(sorted);
      assert k in ks;
    }
  }

  lemma {:induction false} CanonicalKeysInOrder(v: Value, path: Path, unordered: set<Path>)
    requires Canonicalize(v, path, unordered).Ok?
    ensures KeysInOrder(Canonicalize(v, path, unordered).value)
    decreases v, 1
  {
    match v {
      case Enumerated(inner) => CanonicalKeysInOrder(inner, path, unordered);
      case Mapping(es) => MappingKeysInOrder(es, path, unordered);
      case Model(es) => MappingKeysInOrder(es, path, unordered);
      case Sequence(vs) =>
        ItemOutcomes(vs, path + ["[]"], unordered);
        SameElements(CanonicalizeItems(vs, path + ["[]"], unordered).value);
      case SetOf(vs) =>
        ItemOutcomes(vs, path + ["{}"], unordered);
        SameElements(CanonicalizeItems(vs, path + ["{}"], unordered).value);
      case _ =>
    }
  }

  lemma SameElements(items: seq<Json>)
    ensures forall x :: x in SortBy(items, Dumps) ==> x in items
  {
    forall x | x in SortBy(items, Dumps) ensures x in items {
      assert x in multiset(SortBy(items, Dumps));
    }
  }
}
