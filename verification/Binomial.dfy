/** The exact binomial distribution with its memo caches (util/binomial.go, RegularBinomial). */
module Binomial {

  function Pow(x: int, n: nat): int {
    if n == 0 then 1 else x * Pow(x, n - 1)
  }

  lemma {:induction false} PowAdd(x: int, m: nat, n: nat)
    ensures Pow(x, m + n) == Pow(x, m) * Pow(x, n)
  {
    if m > 0 {
      PowAdd(x, m - 1, n);
      assert Pow(x, m + n) == x * Pow(x, m + n - 1);
      Associate(x, Pow(x, m - 1), Pow(x, n));
    }
  }

  lemma Associate(x: int, y: int, z: int)
    ensures x * (y * z) == (x * y) * z
  {
  }

  lemma {:induction false} PowNonNegative(x: nat, n: nat)
    ensures Pow(x, n) >= 0
    ensures x > 0 ==> Pow(x, n) > 0
  {
    if n > 0 {
      PowNonNegative(x, n - 1);
    }
  }

  /** C(n, k), by Pascal's rule. */
  function Choose(n: nat, k: nat): nat {
    if k == 0 then 1
    else if n == 0 then 0
    else Choose(n - 1, k - 1) + Choose(n - 1, k)
  }

  lemma {:induction false} ChooseBeyond(n: nat, k: nat)
    requires k > n
    ensures Choose(n, k) == 0
  {
    if n > 0 {
      ChooseBeyond(n - 1, k - 1);
      ChooseBeyond(n - 1, k);
    }
  }

  /** The numerator of the probability of k successes in n trials, over (a + b)^n. */
  function Term(n: nat, a: int, b: int, k: nat): int
    requires k <= n
  {
    Choose(n, k) * (Pow(a, k) * Pow(b, n - k))
  }

  function SumTo(n: nat, a: int, b: int, j: nat): int
    requires j <= n
  {
    Term(n, a, b, j) + if j == 0 then 0 else SumTo(n, a, b, j - 1)
  }

  /** Pascal's rule, summed: a row's partial sum from the row before. */
  lemma {:induction false} SumStep(n: nat, a: int, b: int, j: nat)
    requires 0 < j <= n
    ensures SumTo(n + 1, a, b, j) == b * SumTo(n, a, b, j) + a * SumTo(n, a, b, j - 1)
  {
    TermStep(n, a, b, j);
    if j == 1 {
      TermZero(n, a, b);
      TermZero(n + 1, a, b);
      assert Pow(b, n + 1) == b * Pow(b, n);
      Regroup(b, Term(n, a, b, 1), Term(n, a, b, 0), a, 0, 0);
    } else {
      SumStep(n, a, b, j - 1);
      Regroup(b, Term(n, a, b, j), SumTo(n, a, b, j - 1), a, Term(n, a, b, j - 1), SumTo(n, a, b, j - 2));
    }
  }

  lemma Regroup(b: int, s: int, t: int, a: int, u: int, v: int)
    ensures b * s + a * u + (b * t + a * v) == b * (s + t) + a * (u + v)
  {
  }

  lemma TermZero(n: nat, a: int, b: int)
    ensures Term(n, a, b, 0) == Pow(b, n)
  {
  }

  lemma TermStep(n: nat, a: int, b: int, j: nat)
    requires 0 < j <= n
    ensures Term(n + 1, a, b, j) == b * Term(n, a, b, j) + a * Term(n, a, b, j - 1)
  {
    var c, d, p, q := Choose(n, j - 1), Choose(n, j), Pow(a, j - 1), Pow(b, n - j);
    assert Pow(a, j) == a * p && Pow(b, n + 1 - j) == b * q;
    TermAlgebra(a, b, c, d, p, q);
  }

  lemma TermAlgebra(a: int, b: int, c: int, d: int, p: int, q: int)
    ensures (c + d) * ((a * p) * (b * q)) == b * (d * ((a * p) * q)) + a * (c * (p * (b * q)))
  {
  }

  /** The whole distribution: the terms add up to (a + b)^n. */
  lemma {:induction false} BinomialTheorem(n: nat, a: int, b: int)
    ensures SumTo(n, a, b, n) == Pow(a + b, n)
  {
    if n > 0 {
      BinomialTheorem(n - 1, a, b);
      var m := n - 1;
      ChooseBeyond(m, n);
      ChooseTop(m);
      assert Term(n, a, b, n) == Pow(a, n) == a * Pow(a, m);
      assert Term(m, a, b, m) == Pow(a, m);
      if m > 0 {
        SumStep(m, a, b, m);
        assert SumTo(m, a, b, m) == Pow(a, m) + SumTo(m, a, b, m - 1);
        FactorOut(a, b, Pow(a, m), SumTo(m, a, b, m - 1), SumTo(m, a, b, m));
      }
    }
  }

  lemma FactorOut(a: int, b: int, p: int, s: int, t: int)
    requires t == p + s
    ensures a * p + (b * t + a * s) == (a + b) * t
  {
  }

  lemma {:induction false} ChooseTop(n: nat)
    ensures Choose(n, n) == 1
  {
    if n > 0 {
      ChooseTop(n - 1);
      ChooseBeyond(n - 1, n);
    }
  }

  /** From one coefficient of a row to the next. */
  lemma {:induction false} ChooseNext(n: nat, k: nat)
    requires k < n
    ensures Choose(n, k + 1) * (k + 1) == Choose(n, k) * (n - k)
  {
    var m := n - 1;
    if k < m {
      ChooseNext(m, k);
    } else {
      ChooseBeyond(m, k + 1);
      ChooseTop(m);
    }
    if k > 0 {
      ChooseNext(m, k - 1);
      NextAlgebra(Choose(m, k - 1), Choose(m, k), Choose(m, k + 1), n, k);
    } else {
      assert Choose(n, 1) == 1 + Choose(m, 1);
    }
  }

  lemma NextAlgebra(c: int, d: int, e: int, n: int, k: int)
    requires d * k == c * (n - k) && e * (k + 1) == d * (n - 1 - k)
    ensures (d + e) * (k + 1) == (c + d) * (n - k)
  {
  }

  lemma TermNext(n: nat, a: int, b: int, k: nat)
    requires k < n
    ensures Term(n, a, b, k + 1) * ((k + 1) * b) == Term(n, a, b, k) * ((n - k) * a)
  {
    ChooseNext(n, k);
    var c, d, p, q := Choose(n, k), Choose(n, k + 1), Pow(a, k), Pow(b, n - k - 1);
    assert Pow(a, k + 1) == a * p && Pow(b, n - k) == b * q;
    TermNextAlgebra(c, d, a, b, p, q, k + 1, n - k);
  }

  lemma TermNextAlgebra(c: int, d: int, a: int, b: int, p: int, q: int, i: int, j: int)
    requires d * i == c * j
    ensures (d * ((a * p) * q)) * (i * b) == (c * (p * (b * q))) * (j * a)
  {
    var x := a * p * q * b;
    assert (d * ((a * p) * q)) * (i * b) == (d * i) * x;
    assert (c * (p * (b * q))) * (j * a) == (c * j) * x;
  }

  // ---------------------------------------------------------------- the distribution

  /** n trials that each succeed with probability pn / pd. */
  datatype Params = Params(n: nat, pn: int, pd: int)

  predicate IsProbability(q: Params) {
    0 <= q.pn <= q.pd && q.pd > 0
  }

  ghost function Numerator(q: Params, j: nat): int
    requires j <= q.n
  {
    SumTo(q.n, q.pn, q.pd - q.pn, j)
  }

  ghost function Denominator(q: Params): int {
    Pow(q.pd, q.n)
  }

  lemma {:induction false} PowNonZero(x: int, n: nat)
    requires x != 0
    ensures Pow(x, n) != 0
  {
    if n > 0 {
      PowNonZero(x, n - 1);
    }
  }

  /** The probability of k successes. */
  ghost function Mass(q: Params, k: nat): real
    requires q.pd != 0 && k <= q.n
  {
    PowNonZero(q.pd, q.n);
    Term(q.n, q.pn, q.pd - q.pn, k) as real / Denominator(q) as real
  }

  /** The law that fixes the distribution: its first value, and the odds of one more success. */
  lemma MassLaw(q: Params, k: nat)
    requires q.pd != 0 && k < q.n
    ensures Denominator(q) != 0 && Mass(q, 0) == Pow(q.pd - q.pn, q.n) as real / Denominator(q) as real
    ensures Mass(q, k + 1) * ((k + 1) * (q.pd - q.pn)) as real == Mass(q, k) * ((q.n - k) * q.pn) as real
  {
    PowNonZero(q.pd, q.n);
    TermZero(q.n, q.pn, q.pd - q.pn);
    TermNext(q.n, q.pn, q.pd - q.pn, k);
    SameQuotient(Term(q.n, q.pn, q.pd - q.pn, k + 1), (k + 1) * (q.pd - q.pn), Term(q.n, q.pn, q.pd - q.pn, k),
      (q.n - k) * q.pn, Denominator(q));
  }

  lemma SameQuotient(x: int, i: int, y: int, j: int, d: int)
    requires x * i == y * j && d != 0
    ensures (x as real / d as real) * i as real == (y as real / d as real) * j as real
  {
    var r, s, u, v, c := x as real, i as real, y as real, j as real, d as real;
    assert r * s == (x * i) as real && u * v == (y * j) as real;
    assert (r / c) * s == (r * s) / c && (u / c) * v == (u * v) / c;
  }

  /** The distribution function as the code clamps it. */
  ghost function Cumulative(q: Params, j: int): real
    requires q.pd != 0
  {
    PowNonZero(q.pd, q.n);
    if j < 0 then 0.0
    else if j >= q.n then 1.0
    else Numerator(q, j) as real / Denominator(q) as real
  }

  /** Each value adds one of the distribution, between the clamps. */
  lemma CumulativeLaw(q: Params, j: int)
    requires q.pd != 0
    ensures j < 0 ==> Cumulative(q, j) == 0.0
    ensures 0 <= j < q.n ==> Cumulative(q, j) == Cumulative(q, j - 1) + Mass(q, j)
    ensures 0 <= j && q.n <= j ==> Cumulative(q, j) == 1.0
  {
    if 0 <= j < q.n {
      CumulativeStep(q, j);
    }
  }

  lemma TermNonNegative(n: nat, a: nat, b: nat, k: nat)
    requires k <= n
    ensures Term(n, a, b, k) >= 0
  {
    PowNonNegative(a, k);
    PowNonNegative(b, n - k);
    ProductNonNegative(Pow(a, k), Pow(b, n - k));
    ProductNonNegative(Choose(n, k), Pow(a, k) * Pow(b, n - k));
  }

  lemma ProductNonNegative(x: int, y: int)
    requires x >= 0 && y >= 0
    ensures x * y >= 0
  {
  }

  lemma {:induction false} SumToMonotone(n: nat, a: nat, b: nat, i: nat, j: nat)
    requires i <= j <= n
    ensures 0 <= SumTo(n, a, b, i) <= SumTo(n, a, b, j)
    decreases i + j
  {
    TermNonNegative(n, a, b, j);
    if i < j {
      SumToMonotone(n, a, b, i, j - 1);
    } else if i > 0 {
      SumToMonotone(n, a, b, i - 1, j - 1);
    }
  }

  lemma FractionOrder(x: int, y: int, d: int)
    requires d > 0 && x <= y
    ensures x as real / d as real <= y as real / d as real
  {
  }

  /** The clamp at N is consistent: the unclamped sum there is exactly 1. */
  lemma FullMassIsOne(q: Params)
    requires q.pd != 0
    ensures Denominator(q) != 0
    ensures Numerator(q, q.n) as real / Denominator(q) as real == 1.0
  {
    PowNonZero(q.pd, q.n);
    BinomialTheorem(q.n, q.pn, q.pd - q.pn);
    assert q.pn + (q.pd - q.pn) == q.pd;
    WholeFraction(Denominator(q));
  }

  lemma WholeFraction(d: int)
    requires d != 0
    ensures d as real / d as real == 1.0
  {
  }

  /** CDF rises from 0 to 1. */
  lemma CumulativeMonotone(q: Params, i: int, j: int)
    requires IsProbability(q) && i <= j
    ensures 0.0 <= Cumulative(q, i) <= Cumulative(q, j) <= 1.0
  {
    PowNonNegative(q.pd, q.n);
    FullMassIsOne(q);
    var d := Denominator(q);
    if 0 <= i < q.n {
      SumToMonotone(q.n, q.pn, q.pd - q.pn, i, if j < q.n then j else q.n);
      FractionOrder(0, Numerator(q, i), d);
      FractionOrder(Numerator(q, i), Numerator(q, if j < q.n then j else q.n), d);
    }
    if 0 <= j < q.n {
      SumToMonotone(q.n, q.pn, q.pd - q.pn, j, q.n);
      FractionOrder(Numerator(q, j), Numerator(q, q.n), d);
      FractionOrder(0, Numerator(q, j), d);
    }
  }

  // ---------------------------------------------------------------- summing in arrival order

  /** The summed probabilities of the results in `s`, whichever arrives first. */
  ghost function Outstanding(q: Params, s: set<nat>): real
    requires q.pd != 0 && forall k :: k in s ==> k <= q.n
  {
    if s == {} then 0.0 else
      var k :| k in s;
      Mass(q, k) + Outstanding(q, s - {k})
  }

  lemma {:induction false} OutstandingRemove(q: Params, s: set<nat>, k: nat)
    requires q.pd != 0 && (forall k :: k in s ==> k <= q.n) && k in s
    ensures Outstanding(q, s) == Mass(q, k) + Outstanding(q, s - {k})
    decreases |s|
  {
    var i :| i in s && Outstanding(q, s) == Mass(q, i) + Outstanding(q, s - {i});
    if i != k {
      OutstandingRemove(q, s - {i}, k);
      OutstandingRemove(q, s - {k}, i);
      assert s - {i} - {k} == s - {k} - {i};
    }
  }

  ghost function Range(lo: nat, hi: int): (s: set<nat>)
    ensures forall k :: k in s <==> lo <= k <= hi
    decreases hi + 1 - lo
  {
    if hi < lo then {} else Range(lo, hi - 1) + {hi}
  }

  /** The value of the running sum before the term `k` is added. */
  ghost function Below(q: Params, k: nat): real
    requires q.pd != 0 && k <= q.n
  {
    if k == 0 then 0.0 else Cumulative(q, k - 1)
  }

  lemma CumulativeStep(q: Params, k: nat)
    requires q.pd != 0 && k < q.n
    ensures Below(q, k) + Mass(q, k) == Cumulative(q, k)
  {
    PowNonZero(q.pd, q.n);
    if k > 0 {
      AddFractions(Numerator(q, k - 1), Term(q.n, q.pn, q.pd - q.pn, k), Denominator(q));
    }
  }

  /** All results from `begin` to `j` complete the sum up to begin - 1. */
  lemma {:induction false} OutstandingRange(q: Params, begin: nat, j: nat)
    requires q.pd != 0 && begin <= j + 1 && j < q.n
    ensures Below(q, begin) + Outstanding(q, Range(begin, j)) == Cumulative(q, j)
    decreases j + 1 - begin
  {
    if begin <= j {
      OutstandingRange(q, begin + 1, j);
      CumulativeStep(q, begin);
      OutstandingRemove(q, Range(begin, j), begin);
      assert Range(begin, j) - {begin} == Range(begin + 1, j);
    } else {
      assert Range(begin, j) == {};
    }
  }

  /** The integer square root: the floor of math.Sqrt on integers a float holds exactly. */
  function Isqrt(y: nat): (r: nat)
    ensures r * r <= y < (r + 1) * (r + 1)
  {
    if y == 0 then 0 else
      var r := Isqrt(y - 1);
      if (r + 1) * (r + 1) <= y then r + 1 else r
  }

  lemma SplitShrinks(y: nat)
    requires y >= 3
    ensures 1 <= Isqrt(y) < y
  {
  }

  class RegularBinomial {
    const q: Params
    var pnExpCache: map<nat, int>
    var tpnExpCache: map<nat, int>
    var probCache: map<nat, real>
    var cdfCache: map<int, real>
    var resDenomCache: map<(), int>

    /** Every cached value is the value it stands for. */
    ghost predicate Valid()
      reads this
    {
      && q.pd != 0
      && (forall y :: y in pnExpCache ==> pnExpCache[y] == Pow(q.pn, y))
      && (forall y :: y in tpnExpCache ==> tpnExpCache[y] == Pow(q.pd - q.pn, y))
      && (forall k :: k in probCache ==> k <= q.n && probCache[k] == Mass(q, k))
      && (forall j :: j in cdfCache ==> 0 <= j < q.n && cdfCache[j] == Cumulative(q, j))
      && (() in resDenomCache ==> resDenomCache[()] == Denominator(q))
    }

    constructor (n: nat, pn: int, pd: int)
      requires pd != 0
      ensures Valid() && q == Params(n, pn, pd)
    {
      q := Params(n, pn, pd);
      pnExpCache, tpnExpCache, probCache, cdfCache, resDenomCache := map[], map[], map[], map[], map[];
    }

    /** x to the power y, splitting y at its square root and remembering powers of pn and pd - pn. */
    method Exp(x: int, y: nat) returns (res: int)
      requires Valid()
      modifies this`pnExpCache, this`tpnExpCache
      ensures Valid() && res == Pow(x, y)
      decreases y
    {
      if y == 0 {
        return 1;
      }
      if y == 1 {
        assert Pow(x, 0) == 1;
        return x;
      }
      if x == q.pn {
        if y in pnExpCache {
          return pnExpCache[y];
        }
      } else if x == q.pd - q.pn {
        if y in tpnExpCache {
          return tpnExpCache[y];
        }
      }
      if y == 2 {
        res := x * x;
        assert Pow(x, 1) == x * Pow(x, 0);
      } else {
        SplitShrinks(y);
        var ly := Isqrt(y);
        var ry := y - ly;
        var left := Exp(x, ly);
        var right := Exp(x, ry);
        res := left * right;
        PowAdd(x, ly, ry);
      }
      if x == q.pn {
        pnExpCache := pnExpCache[y := res];
      } else if x == q.pd - q.pn {
        tpnExpCache := tpnExpCache[y := res];
      }
    }

    method ResDenom() returns (res: int)
      requires Valid()
      modifies this`pnExpCache, this`tpnExpCache, this`resDenomCache
      ensures Valid() && res == Denominator(q)
    {
      if () in resDenomCache {
        return resDenomCache[()];
      }
      res := Exp(q.pd, q.n);
      resDenomCache := resDenomCache[() := res];
    }

    method Prob(k: nat) returns (prob: real)
      requires Valid() && k <= q.n
      modifies this`pnExpCache, this`tpnExpCache, this`resDenomCache, this`probCache
      ensures Valid() && prob == Mass(q, k)
    {
      if k in probCache {
        return probCache[k];
      }
      var lnum := Exp(q.pn, k);
      var rnum := Exp(q.pd - q.pn, q.n - k);
      var resNum := lnum * rnum;
      var denom := ResDenom();
      PowNonZero(q.pd, q.n);
      var bino := Choose(q.n, k);
      prob := bino as real * (resNum as real / denom as real);
      ScaleFraction(bino, resNum, denom);
      probCache := probCache[k := prob];
    }

    /** The nearest cached sum below `j` and the first term it lacks. */
    method NearestCached(j: nat) returns (begin: nat, res: real)
      requires Valid() && j < q.n
      ensures begin <= j && (begin > 0 ==> begin - 1 in cdfCache)
      ensures forall k :: begin <= k < j ==> k !in cdfCache
      ensures res == Below(q, begin)
    {
      var k := j - 1;
      res := 0.0;
      while k >= 0
        invariant -1 <= k < j
        invariant res == 0.0
        invariant forall i :: k < i < j ==> i !in cdfCache
      {
        if k in cdfCache {
          res := cdfCache[k];
          break;
        }
        k := k - 1;
      }
      begin := k + 1;
    }

    /** Adds the pending terms in the order in which their computations finish. */
    method Drain(start: real, unfinished: set<nat>) returns (res: real)
      requires Valid() && forall k :: k in unfinished ==> k <= q.n
      modifies this`pnExpCache, this`tpnExpCache, this`resDenomCache, this`probCache
      ensures Valid() && res == start + Outstanding(q, unfinished)
    {
      res := start;
      var pending := unfinished;
      while pending != {}
        invariant Valid() && pending <= unfinished
        invariant res + Outstanding(q, pending) == start + Outstanding(q, unfinished)
        decreases |pending|
      {
        var i :| i in pending;
        var rat := Prob(i);
        OutstandingRemove(q, pending, i);
        res := res + rat;
        pending := pending - {i};
      }
    }

    /** Starts the computations of the terms from `begin` to `j` and collects them. */
    method Collect(begin: nat, j: nat, start: real) returns (res: real)
      requires Valid() && begin <= j < q.n
      requires start == Below(q, begin)
      modifies this`pnExpCache, this`tpnExpCache, this`resDenomCache, this`probCache
      ensures Valid() && res == Cumulative(q, j)
    {
      var pending: set<nat> := {};
      var k := begin;
      while k <= j
        invariant begin <= k <= j + 1
        invariant pending == Range(begin, k - 1)
      {
        pending := pending + {k};
        k := k + 1;
      }
      OutstandingRange(q, begin, j);
      res := Drain(start, pending);
    }

    /** The cumulative sum, from the nearest cached one on. */
    method CDF(j: int) returns (res: real)
      requires Valid()
      modifies this
      ensures Valid() && res == Cumulative(q, j)
    {
      if j < 0 {
        return 0.0;
      }
      if j >= q.n {
        return 1.0;
      }
      if j in cdfCache {
        return cdfCache[j];
      }
      var begin, start := NearestCached(j);
      res := Collect(begin, j, start);
      cdfCache := cdfCache[j := res];
    }
  }

  lemma ScaleFraction(c: int, x: int, d: int)
    requires d != 0
    ensures c as real * (x as real / d as real) == (c * x) as real / d as real
  {
  }

  lemma AddFractions(x: int, y: int, d: int)
    requires d != 0
    ensures x as real / d as real + y as real / d as real == (x + y) as real / d as real
  {
  }
}
