/** Sorting by a text key, as Python's `sorted(items, key=...)`: stable, keys compared by code point. */
module Ordering {

  predicate LexLe(a: string, b: string) {
    a == [] || (b != [] && (a[0] < b[0] || (a[0] == b[0] && LexLe(a[1..], b[1..]))))
  }

  lemma {:induction false} LexTotal(a: string, b: string)
    ensures LexLe(a, b) || LexLe(b, a)
  {
    if a != [] && b != [] {
      LexTotal(a[1..], b[1..]);
    }
  }

  lemma {:induction false} LexAntisymmetric(a: string, b: string)
    requires LexLe(a, b) && LexLe(b, a)
    ensures a == b
  {
    if a != [] && b != [] {
      LexAntisymmetric(a[1..], b[1..]);
      assert a == [a[0]] + a[1..] && b == [b[0]] + b[1..];
    }
  }

  lemma {:induction false} LexTransitive(a: string, b: string, c: string)
    requires LexLe(a, b) && LexLe(b, c)
    ensures LexLe(a, c)
  {
    if a != [] && a[0] == b[0] && b[0] == c[0] {
      LexTransitive(a[1..], b[1..], c[1..]);
    }
  }

  function Insert<T>(x: T, xs: seq<T>, key: T -> string): (r: seq<T>)
    ensures multiset(r) == multiset{x} + multiset(xs)
  {
    if xs == [] || LexLe(key(x), key(xs[0])) then [x] + xs
    else
      assert xs == [xs[0]] + xs[1..];
      [xs[0]] + Insert(x, xs[1..], key)
  }

  function SortBy<T>(xs: seq<T>, key: T -> string): (r: seq<T>)
    ensures multiset(r) == multiset(xs)
  {
    if xs == [] then [] else
      assert xs == [xs[0]] + xs[1..];
      Insert(xs[0], SortBy(xs[1..], key), key)
  }

  /** Every element is at most the elements behind it. */
  ghost predicate SortedBy<T>(xs: seq<T>, key: T -> string) {
    xs == [] || ((forall y :: y in xs[1..] ==> LexLe(key(xs[0]), key(y))) && SortedBy(xs[1..], key))
  }

  lemma {:induction false} InsertKeepsOrder<T>(x: T, xs: seq<T>, key: T -> string)
    requires SortedBy(xs, key)
    ensures SortedBy(Insert(x, xs, key), key)
  {
    var r := Insert(x, xs, key);
    if xs == [] {
      assert r[1..] == [];
    } else if LexLe(key(x), key(xs[0])) {
      assert r[1..] == xs;
      forall y | y in xs ensures LexLe(key(x), key(y)) {
        if y != xs[0] {
          assert y in xs[1..];
          LexTransitive(key(x), key(xs[0]), key(y));
        }
      }
    } else {
      LexTotal(key(x), key(xs[0]));
      InsertKeepsOrder(x, xs[1..], key);
      var rest := Insert(x, xs[1..], key);
      assert r[1..] == rest;
      forall y | y in rest ensures LexLe(key(xs[0]), key(y)) {
        assert y in multiset(rest);
      }
    }
  }

  lemma {:induction false} SortSorts<T>(xs: seq<T>, key: T -> string)
    ensures SortedBy(SortBy(xs, key), key)
  {
    if xs != [] {
      SortSorts(xs[1..], key);
      InsertKeepsOrder(xs[0], SortBy(xs[1..], key), key);
    }
  }

  /** On the elements of `m`, the key determines the element. */
  ghost predicate KeyDetermines<T(!new)>(m: multiset<T>, key: T -> string) {
    forall x, y :: x in m && y in m && key(x) == key(y) ==> x == y
  }

  lemma FirstIsLeast<T>(xs: seq<T>, x: T, key: T -> string)
    requires SortedBy(xs, key) && x in xs
    ensures LexLe(key(xs[0]), key(x))
  {
    LexTotal(key(x), key(x));
  }

  lemma SameHead<T(!new)>(xs: seq<T>, ys: seq<T>, key: T -> string)
    requires SortedBy(xs, key) && SortedBy(ys, key) && xs != []
    requires multiset(xs) == multiset(ys) && KeyDetermines(multiset(xs), key)
    ensures ys != [] && xs[0] == ys[0]
  {
    assert xs[0] in multiset(ys);
    assert ys[0] in multiset(xs);
    FirstIsLeast(xs, ys[0], key);
    FirstIsLeast(ys, xs[0], key);
    LexAntisymmetric(key(xs[0]), key(ys[0]));
  }

  lemma TailMultiset<T>(xs: seq<T>)
    requires xs != []
    ensures multiset(xs[1..]) == multiset(xs) - multiset{xs[0]}
  {
    assert xs == [xs[0]] + xs[1..];
  }

  /** When keys determine elements, only one ordering of a collection is sorted. */
  lemma {:induction false} SortedIsUnique<T(!new)>(xs: seq<T>, ys: seq<T>, key: T -> string)
    requires SortedBy(xs, key) && SortedBy(ys, key)
    requires multiset(xs) == multiset(ys)
    requires KeyDetermines(multiset(xs), key)
    ensures xs == ys
  {
    if xs == [] {
      assert |multiset(ys)| == 0;
    } else {
      SameHead(xs, ys, key);
      TailMultiset(xs);
      TailMultiset(ys);
      SortedIsUnique(xs[1..], ys[1..], key);
    }
  }

  /** The sorted list depends on the collection only, not on the order it was given in. */
  lemma {:induction false} SortIgnoresOrder<T(!new)>(xs: seq<T>, ys: seq<T>, key: T -> string)
    requires multiset(xs) == multiset(ys)
    requires KeyDetermines(multiset(xs), key)
    ensures SortBy(xs, key) == SortBy(ys, key)
  {
    SortSorts(xs, key);
    SortSorts(ys, key);
    SortedIsUnique(SortBy(xs, key), SortBy(ys, key), key);
  }
}
