/** Finite sets: cardinalities of overlapping sets, and sums of weights over a set.
    Both the election and the vote counting rest on these facts. */
module SetSums {

  /** Disjoint subsets of `all` cannot outnumber it. */
  lemma DisjointFit<T>(a: set<T>, b: set<T>, all: set<T>)
    requires a <= all && b <= all && a * b == {}
    ensures |a| + |b| <= |all|
  {
    SubsetSize(a + b, all);
    assert |a + b| == |a| + |b|;
  }

  lemma {:induction false} SubsetSize<T>(a: set<T>, b: set<T>)
    requires a <= b
    ensures |a| <= |b|
  {
    assert b == a + (b - a);
  }

  /** The sum of `w` over the set `s`. */
  ghost function Sum<T(!new)>(s: set<T>, w: T -> nat): nat {
    if s == {} then 0 else
      var x :| x in s;
      w(x) + Sum(s - {x}, w)
  }

  /** The sum does not depend on which element is taken out first. */
  lemma {:induction false} SumRemove<T(!new)>(s: set<T>, x: T, w: T -> nat)
    requires x in s
    ensures Sum(s, w) == w(x) + Sum(s - {x}, w)
    decreases |s|
  {
    var y :| y in s && Sum(s, w) == w(y) + Sum(s - {y}, w);
    if y != x {
      SumRemove(s - {y}, x, w);
      SumRemove(s - {x}, y, w);
      assert s - {y} - {x} == s - {x} - {y};
    }
  }

  lemma SumAdd<T(!new)>(s: set<T>, x: T, w: T -> nat)
    requires x !in s
    ensures Sum(s + {x}, w) == Sum(s, w) + w(x)
  {
    SumRemove(s + {x}, x, w);
    assert s + {x} - {x} == s;
  }

  lemma {:induction false} SumUnion<T(!new)>(a: set<T>, b: set<T>, w: T -> nat)
    requires a !! b
    ensures Sum(a + b, w) == Sum(a, w) + Sum(b, w)
    decreases |b|
  {
    if b == {} {
      assert a + b == a;
    } else {
      var x :| x in b;
      SumUnion(a, b - {x}, w);
      SumAdd(a + (b - {x}), x, w);
      assert a + b == (a + (b - {x})) + {x};
      SumRemove(b, x, w);
    }
  }

  lemma SumSubset<T(!new)>(a: set<T>, b: set<T>, w: T -> nat)
    requires a <= b
    ensures Sum(a, w) <= Sum(b, w)
  {
    SumUnion(a, b - a, w);
    assert a + (b - a) == b;
  }
}
