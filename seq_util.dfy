/** Facts about sequences, multisets and finite sets that several modules share. */
module SeqUtil {
  /** `map` over a list. */
  function MapSeq<T, U>(s: seq<T>, f: T -> U): (r: seq<U>)
    ensures |r| == |s|
    ensures forall i :: 0 <= i < |s| ==> r[i] == f(s[i])
  {
    seq(|s|, i requires 0 <= i < |s| => f(s[i]))
  }
  /** Mapping keeps the elements' multiplicities once one is taken out at k. */
  lemma MapSeqRemove<T, U>(s: seq<T>, k: nat, f: T -> U)
    requires k < |s|
    ensures multiset(MapSeq(s, f)) == multiset(MapSeq(s[..k] + s[k + 1..], f)) + multiset{f(s[k])}
  {
    var rest := s[..k] + s[k + 1..];
    var m, mr := MapSeq(s, f), MapSeq(rest, f);
    assert m == mr[..k] + [f(s[k])] + mr[k..];
    assert mr == mr[..k] + mr[k..];
  }
  lemma MultisetRemoveAt<T>(a: seq<T>, b: seq<T>, k: nat)
    requires multiset(a) == multiset(b) && a != [] && k < |b| && b[k] == a[0]
    ensures multiset(a[1..]) == multiset(b[..k] + b[k + 1..])
  {
    var x := a[0];
    assert b == b[..k] + [x] + b[k + 1..];
    assert a == [x] + a[1..];
    calc {
      multiset(a[1..]);
      multiset(a) - multiset{x};
      multiset(b[..k] + [x] + b[k + 1..]) - multiset{x};
      multiset(b[..k]) + multiset{x} + multiset(b[k + 1..]) - multiset{x};
      multiset(b[..k] + b[k + 1..]);
    }
  }
  lemma IndexOf<T>(x: T, s: seq<T>) returns (k: nat)
    requires x in multiset(s)
    ensures k < |s| && s[k] == x
  {
    assert x in s;
    k :| 0 <= k < |s| && s[k] == x;
  }
  lemma MapSeqCons<T, U>(a: seq<T>, f: T -> U)
    requires a != []
    ensures MapSeq(a, f) == [f(a[0])] + MapSeq(a[1..], f)
  {
  }
  /** Mapping two orderings of the same elements gives two orderings of the same images. */
  lemma {:induction false} MapSeqPermutation<T, U>(a: seq<T>, b: seq<T>, f: T -> U)
    requires multiset(a) == multiset(b)
    ensures multiset(MapSeq(a, f)) == multiset(MapSeq(b, f))
    decreases |a|
  {
    if a != [] {
      var k := IndexOf(a[0], b);
      var a', b' := a[1..], b[..k] + b[k + 1..];
      var y := f(a[0]);
      assert multiset(MapSeq(a', f)) == multiset(MapSeq(b', f)) by {
        MultisetRemoveAt(a, b, k);
        MapSeqPermutation(a', b', f);
      }
      assert multiset(MapSeq(a, f)) == multiset(MapSeq(a', f)) + multiset{y} by {
        MapSeqCons(a, f);
      }
      assert multiset(MapSeq(b, f)) == multiset(MapSeq(b', f)) + multiset{y} by {
        MapSeqRemove(b, k, f);
      }
    }
  }

  /** The sum of f over a finite set. */
  ghost function SumOver<K>(s: set<K>, f: K -> int): int
  {
    if s == {} then 0
    else
      var x :| x in s;
      f(x) + SumOver(s - {x}, f)
  }

  /** Any element can be taken out of the sum first. */
  lemma {:induction false} SumOverRemove<K>(s: set<K>, f: K -> int, x: K)
    requires x in s
    ensures SumOver(s, f) == f(x) + SumOver(s - {x}, f)
    decreases |s|
  {
    var y :| y in s && SumOver(s, f) == f(y) + SumOver(s - {y}, f);
    if y != x {
      SumOverRemove(s - {y}, f, x);
      SumOverRemove(s - {x}, f, y);
      assert s - {y} - {x} == s - {x} - {y};
    }
  }

  lemma SumOverAdd<K>(s: set<K>, f: K -> int, x: K)
    requires x !in s
    ensures SumOver(s + {x}, f) == SumOver(s, f) + f(x)
  {
    SumOverRemove(s + {x}, f, x);
    assert s + {x} - {x} == s;
  }

  /** The sum depends only on the values on the set. */
  lemma {:induction false} SumOverExt<K>(s: set<K>, f: K -> int, g: K -> int)
    requires forall x :: x in s ==> f(x) == g(x)
    ensures SumOver(s, f) == SumOver(s, g)
    decreases |s|
  {
    if s != {} {
      var x :| x in s;
      SumOverRemove(s, f, x);
      SumOverRemove(s, g, x);
      SumOverExt(s - {x}, f, g);
    }
  }

  lemma {:induction false} SumOverNonNegative<K>(s: set<K>, f: K -> int)
    requires forall x :: x in s ==> f(x) >= 0
    ensures SumOver(s, f) >= 0
    decreases |s|
  {
    if s != {} {
      var x :| x in s;
      SumOverRemove(s, f, x);
      SumOverNonNegative(s - {x}, f);
    }
  }

  /** With non-negative terms, a subset sums to no more than the whole set. */
  lemma {:induction false} SumOverSubset<K>(s: set<K>, t: set<K>, f: K -> int)
    requires t <= s
    requires forall x :: x in s ==> f(x) >= 0
    ensures SumOver(t, f) <= SumOver(s, f)
    decreases |s|
  {
    if t != s {
      var x :| x in s && x !in t;
      SumOverRemove(s, f, x);
      SumOverSubset(s - {x}, t, f);
    }
  }

  /** No element occurs twice. */
  predicate Distinct<T(==)>(s: seq<T>)
  {
    forall i, j :: 0 <= i < j < |s| ==> s[i] != s[j]
  }

  lemma {:induction false} DistinctCount<T>(s: seq<T>, x: T)
    requires Distinct(s)
    ensures multiset(s)[x] == if x in s then 1 else 0
    decreases |s|
  {
    if s != [] {
      assert s == [s[0]] + s[1..];
      assert Distinct(s[1..]);
      DistinctCount(s[1..], x);
      if x == s[0] {
        assert x !in s[1..];
      }
    }
  }

  /** Two duplicate-free sequences with the same elements are permutations of each other. */
  lemma DistinctSameSet<T>(a: seq<T>, b: seq<T>)
    requires Distinct(a) && Distinct(b)
    requires forall x :: x in a <==> x in b
    ensures multiset(a) == multiset(b)
  {
    forall x ensures multiset(a)[x] == multiset(b)[x] {
      DistinctCount(a, x);
      DistinctCount(b, x);
    }
  }

  /** The image of a set under a function. */
  function Image<T, U>(s: set<T>, f: T -> U): (r: set<U>)
    ensures forall x :: x in s ==> f(x) in r
    ensures forall y :: y in r ==> exists x :: x in s && y == f(x)
  {
    set x | x in s :: f(x)
  }

  /** An injective function maps a finite set onto a set of the same size. */
  lemma {:induction false} InjectiveImage<T, U>(s: set<T>, f: T -> U)
    requires forall a, b :: a in s && b in s && f(a) == f(b) ==> a == b
    ensures |Image(s, f)| == |s|
    decreases |s|
  {
    if s != {} {
      var y :| y in s;
      InjectiveImage(s - {y}, f);
      assert Image(s, f) == Image(s - {y}, f) + {f(y)};
    }
  }

  /** The integers 0 .. n-1. */
  function Range(n: nat): (r: set<int>)
    ensures forall i :: i in r <==> 0 <= i < n
  {
    var ids := seq(n, j => j);
    var r := set k | 0 <= k < n :: ids[k];
    assert forall i :: 0 <= i < n ==> i in r by {
      forall i | 0 <= i < n ensures i in r {
        assert ids[i] == i;
      }
    }
    r
  }

  lemma {:induction false} RangeCount(n: nat)
    ensures |Range(n)| == n
  {
    if n > 0 {
      RangeCount(n - 1);
      assert Range(n) == Range(n - 1) + {n - 1};
    }
  }
}
