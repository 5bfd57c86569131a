/**
 * Python's `sorted()`: a stable sort under a comparison, and the order Python
 * compares `str` values in.
 */
module Sorting {

  ghost predicate Total<T(!new)>(le: (T, T) -> bool) {
    forall a, b :: le(a, b) || le(b, a)
  }

  ghost predicate Transitive<T(!new)>(le: (T, T) -> bool) {
    forall a, b, c :: le(a, b) && le(b, c) ==> le(a, c)
  }

  ghost predicate Antisymmetric<T(!new)>(le: (T, T) -> bool) {
    forall a, b :: le(a, b) && le(b, a) ==> a == b
  }

  predicate Sorted<T>(xs: seq<T>, le: (T, T) -> bool) {
    forall i, j :: 0 <= i < j < |xs| ==> le(xs[i], xs[j])
  }

  /** No element occurs twice. */
  predicate Unique<T(==)>(xs: seq<T>) {
    forall i, j :: 0 <= i < j < |xs| ==> xs[i] != xs[j]
  }

  /** `x` put before the first element it is `le` to. */
  function Insert<T>(x: T, xs: seq<T>, le: (T, T) -> bool): (r: seq<T>)
    ensures |r| == |xs| + 1
    ensures multiset(r) == multiset(xs) + multiset{x}
  {
    if xs == [] then [x]
    else if le(x, xs[0]) then [x] + xs
    else
      assert xs == [xs[0]] + xs[1..];
      [xs[0]] + Insert(x, xs[1..], le)
  }

  /**
   * `sorted(xs)`: each element goes before the later ones it is `le` to, so
   * elements that compare equal keep the order they came in.
   */
  function Sort<T>(xs: seq<T>, le: (T, T) -> bool): (r: seq<T>)
    ensures |r| == |xs|
    ensures multiset(r) == multiset(xs)
  {
    if xs == [] then []
    else
      assert xs == [xs[0]] + xs[1..];
      Insert(xs[0], Sort(xs[1..], le), le)
  }

  lemma {:induction false} InsertSorted<T(!new)>(x: T, xs: seq<T>, le: (T, T) -> bool)
    requires Total(le) && Transitive(le) && Sorted(xs, le)
    ensures Sorted(Insert(x, xs, le), le)
  {
    if xs != [] && !le(x, xs[0]) {
      var tail := Insert(x, xs[1..], le);
      InsertSorted(x, xs[1..], le);
      assert le(xs[0], x);
      forall j | 0 <= j < |tail| ensures le(xs[0], tail[j]) {
        assert tail[j] in multiset(tail);
        if tail[j] != x {
          assert tail[j] in multiset(xs[1..]);
          var k :| 0 <= k < |xs[1..]| && xs[1..][k] == tail[j];
          assert xs[k + 1] == tail[j];
        }
      }
    }
  }

  /** The result is sorted and holds the same elements as many times each. */
  lemma {:induction false} SortSorted<T(!new)>(xs: seq<T>, le: (T, T) -> bool)
    requires Total(le) && Transitive(le)
    ensures Sorted(Sort(xs, le), le)
    ensures multiset(Sort(xs, le)) == multiset(xs)
  {
    if xs != [] {
      SortSorted(xs[1..], le);
      InsertSorted(xs[0], Sort(xs[1..], le), le);
    }
  }

  /** Under an order with no ties, there is one sorted arrangement of a multiset. */
  lemma {:induction false} SortedUnique<T(!new)>(a: seq<T>, b: seq<T>, le: (T, T) -> bool)
    requires Antisymmetric(le) && Sorted(a, le) && Sorted(b, le)
    requires multiset(a) == multiset(b)
    ensures a == b
    decreases |a|
  {
    assert |a| == |multiset(a)| == |multiset(b)| == |b|;
    if a != [] {
      SortedFirst(a, b, le);
      SortedTail(a, le);
      SortedTail(b, le);
      SortedUnique(a[1..], b[1..], le);
      assert a == [a[0]] + a[1..] && b == [b[0]] + b[1..];
    }
  }

  lemma SortedFirst<T(!new)>(a: seq<T>, b: seq<T>, le: (T, T) -> bool)
    requires Antisymmetric(le) && Sorted(a, le) && Sorted(b, le)
    requires multiset(a) == multiset(b) && a != [] && b != []
    ensures a[0] == b[0]
    ensures multiset(a[1..]) == multiset(b[1..])
  {
    assert b[0] in multiset(a);
    var i :| 0 <= i < |a| && a[i] == b[0];
    assert a[0] in multiset(b);
    var j :| 0 <= j < |b| && b[j] == a[0];
    if i != 0 && j != 0 {
      assert le(a[0], a[i]) && le(b[0], b[j]);
    }
    SameHeadTails(a, b);
  }

  lemma SameHeadTails<T>(a: seq<T>, b: seq<T>)
    requires a != [] && b != [] && a[0] == b[0] && multiset(a) == multiset(b)
    ensures multiset(a[1..]) == multiset(b[1..])
  {
    assert a == [a[0]] + a[1..] && b == [b[0]] + b[1..];
    assert multiset(a) == multiset{a[0]} + multiset(a[1..]);
    assert multiset(b) == multiset{b[0]} + multiset(b[1..]);
    assert multiset(a[1..]) == multiset(a) - multiset{a[0]};
  }

  lemma SortedTail<T>(a: seq<T>, le: (T, T) -> bool)
    requires Sorted(a, le) && a != []
    ensures Sorted(a[1..], le)
  {
    forall i, j | 0 <= i < j < |a[1..]| ensures le(a[1..][i], a[1..][j]) {
      assert a[1..][i] == a[i + 1] && a[1..][j] == a[j + 1];
    }
  }

  /**
   * The order the elements arrive in does not change `sorted()` of them when
   * no two of them compare equal.
   */
  lemma SortOrderFree<T(!new)>(xs: seq<T>, ys: seq<T>, le: (T, T) -> bool)
    requires Total(le) && Transitive(le) && Antisymmetric(le)
    requires multiset(xs) == multiset(ys)
    ensures Sort(xs, le) == Sort(ys, le)
  {
    SortSorted(xs, le);
    SortSorted(ys, le);
    SortedUnique(Sort(xs, le), Sort(ys, le), le);
  }

  /** Sorting neither adds elements nor repeats them. */
  lemma SortUnique<T>(xs: seq<T>, le: (T, T) -> bool)
    requires Unique(xs)
    ensures Unique(Sort(xs, le))
    ensures forall y :: y in Sort(xs, le) <==> y in xs
  {
    var r := Sort(xs, le);
    forall y ensures y in r <==> y in xs {
      assert y in r <==> y in multiset(r);
      assert y in xs <==> y in multiset(xs);
    }
    forall i, j | 0 <= i < j < |r| ensures r[i] != r[j] {
      if r[i] == r[j] {
        MultisetTwice(r, i, j);
        MultisetOnce(xs, r[i]);
      }
    }
  }

  lemma {:induction false} MultisetTwice<T>(r: seq<T>, i: nat, j: nat)
    requires i < j < |r| && r[i] == r[j]
    ensures multiset(r)[r[i]] >= 2
  {
    assert r == r[..i] + [r[i]] + r[i + 1..j] + [r[j]] + r[j + 1..];
  }

  lemma {:induction false} MultisetOnce<T>(xs: seq<T>, y: T)
    requires Unique(xs)
    ensures multiset(xs)[y] <= 1
  {
    if xs != [] {
      assert xs == [xs[0]] + xs[1..];
      assert Unique(xs[1..]);
      MultisetOnce(xs[1..], y);
      if y == xs[0] {
        assert y !in xs[1..];
      }
    }
  }

  // ---------------------------------------------------------------------------
  // str comparison
  // ---------------------------------------------------------------------------

  /** Python's `a <= b` on `str`: code point by code point, a prefix first. */
  predicate StrLe(a: string, b: string) {
    a == [] || (b != [] && (a[0] < b[0] || (a[0] == b[0] && StrLe(a[1..], b[1..]))))
  }

  predicate StrLt(a: string, b: string) {
    StrLe(a, b) && a != b
  }

  lemma {:induction false} StrLeTotal(a: string, b: string)
    ensures StrLe(a, b) || StrLe(b, a)
  {
    if a != [] && b != [] && a[0] == b[0] {
      StrLeTotal(a[1..], b[1..]);
    }
  }

  lemma {:induction false} StrLeTransitive(a: string, b: string, c: string)
    requires StrLe(a, b) && StrLe(b, c)
    ensures StrLe(a, c)
  {
    if a != [] && b != [] && c != [] && a[0] == b[0] == c[0] {
      StrLeTransitive(a[1..], b[1..], c[1..]);
    }
  }

  lemma {:induction false} StrLeAntisymmetric(a: string, b: string)
    requires StrLe(a, b) && StrLe(b, a)
    ensures a == b
  {
    if a != [] {
      StrLeAntisymmetric(a[1..], b[1..]);
      assert a == [a[0]] + a[1..] && b == [b[0]] + b[1..];
    }
  }
}
