/** Sortition: how many sub-users a VRF output selects, and how a receiver checks a proposal's
    priority (util/binomial.go ApproxBinomial, algorand/algorand.go subUsers and maxPriority,
    algorand/message.go Proposal.Verify, algorand/peer.go getMaxProposal). */
module Sortition {
  import opened Bytes
  import Binomial

  /** The approximating distribution: `scale` is the floating-point value of e to the minus
      `expected`. */
  datatype Poisson = Poisson(expected: nat, scale: real)

  /** big.Int.MulRange(1, k) */
  function Factorial(k: nat): (f: nat)
    ensures f >= 1
  {
    if k == 0 then 1 else Factorial(k - 1) * k
  }

  function Mass(d: Poisson, k: nat): real {
    (Binomial.Pow(d.expected, k) as real / Factorial(k) as real) * d.scale
  }

  function MassTo(d: Poisson, k: nat): real {
    Mass(d, k) + if k == 0 then 0.0 else MassTo(d, k - 1)
  }

  /** ApproxBinomial.CDF for weight `n`: the partial sums, replaced by 1 from n on. */
  function Cdf(d: Poisson, n: nat, k: int): real {
    if k < 0 then 0.0 else if k >= n then 1.0 else MassTo(d, k)
  }

  /** The law that fixes the distribution: its first value, and what each next one is to the one before. */
  lemma MassLaw(d: Poisson, k: nat)
    ensures Mass(d, 0) == d.scale
    ensures Mass(d, k + 1) * (k + 1) as real == Mass(d, k) * d.expected as real
  {
    var p, f := Binomial.Pow(d.expected, k) as real, Factorial(k) as real;
    assert Binomial.Pow(d.expected, k + 1) as real == d.expected as real * p;
    assert Factorial(k + 1) as real == f * (k + 1) as real;
    NextQuotient(p, f, d.expected as real, (k + 1) as real, d.scale);
  }

  lemma NextQuotient(p: real, f: real, e: real, n: real, s: real)
    requires f > 0.0 && n > 0.0
    ensures f * n != 0.0
    ensures ((e * p) / (f * n)) * s * n == (p / f) * s * e
  {
    var x := p / f;
    assert p == x * f;
    assert e * p == (e * x / n) * (f * n);
    assert (e * p) / (f * n) == e * x / n;
  }

  /** Each value of the distribution function adds one of the distribution, up to the weight. */
  lemma CdfLaw(d: Poisson, n: nat, k: int)
    ensures k < 0 ==> Cdf(d, n, k) == 0.0
    ensures 0 <= k < n ==> Cdf(d, n, k) == Cdf(d, n, k - 1) + Mass(d, k)
    ensures k >= n ==> Cdf(d, n, k) == if k < 0 then 0.0 else 1.0
  {
  }

  class ApproxBinomial {
    const d: Poisson
    const n: nat
    var probCache: map<nat, real>

    ghost predicate Valid()
      reads this
    {
      forall k :: k in probCache ==> probCache[k] == Mass(d, k)
    }

    constructor (d: Poisson, n: nat)
      ensures Valid() && this.d == d && this.n == n
    {
      this.d, this.n := d, n;
      probCache := map[];
    }

    method Prob(k: nat) returns (prob: real)
      requires Valid()
      modifies this
      ensures Valid() && prob == Mass(d, k)
    {
      if k in probCache {
        return probCache[k];
      }
      var numer := Binomial.Pow(d.expected, k);
      var denom := Factorial(k);
      prob := (numer as real / denom as real) * d.scale;
      probCache := probCache[k := prob];
    }

    method CDF(k: int) returns (res: real)
      requires Valid()
      modifies this
      ensures Valid() && res == Cdf(d, n, k)
    {
      if k < 0 {
        return 0.0;
      }
      if k >= n {
        return 1.0;
      }
      var j := 0;
      res := 0.0;
      while j <= k
        invariant 0 <= j <= k + 1 && Valid()
        invariant res == if j == 0 then 0.0 else MassTo(d, j - 1)
      {
        var p := Prob(j);
        res := res + p;
        j := j + 1;
      }
    }
  }

  predicate InInterval(d: Poisson, weight: nat, f: real, j: int) {
    Cdf(d, weight, j) <= f < Cdf(d, weight, j + 1)
  }

  /** `f` lies below the (j+1)st value of the CDF and, unless j is 0, not below the jth. */
  predicate Selected(d: Poisson, weight: nat, f: real, j: nat) {
    f < Cdf(d, weight, j + 1) && (j > 0 ==> Cdf(d, weight, j) <= f)
  }

  ghost predicate NoneUpTo(d: Poisson, weight: nat, f: real, j: nat) {
    forall i: nat :: i < j ==> !InInterval(d, weight, f, i)
  }

  /** The outcome of the search, for any fraction: the first interval that holds it, else 0. */
  ghost predicate Searched(d: Poisson, weight: nat, f: real, j: nat) {
    || (j <= weight && InInterval(d, weight, f, j) && NoneUpTo(d, weight, f, j))
    || (j == 0 && NoneUpTo(d, weight, f, weight + 1))
  }

  /** The interval search over the CDF of weight `weight`. */
  method SubUsers(d: Poisson, weight: nat, f: real) returns (j: nat)
    ensures Searched(d, weight, f, j)
    ensures d.scale > 0.0 && 0.0 <= f < 1.0 ==> Selected(d, weight, f, j)
  {
    var binomial := new ApproxBinomial(d, weight);
    var lower, upper := 0.0, 0.0;
    var started := false;
    j := 0;
    while j <= weight
      invariant 0 <= j <= weight + 1 && binomial.Valid()
      invariant started <==> j > 0
      invariant started ==> upper == Cdf(d, weight, j)
      invariant NoneUpTo(d, weight, f, j)
    {
      if started {
        lower := upper;
      } else {
        lower := binomial.CDF(j);
      }
      upper := binomial.CDF(j + 1);
      started := true;
      if f >= lower && f < upper {
        break;
      }
      j := j + 1;
    }
    if j > weight {
      j := 0;
    }
    if d.scale > 0.0 && 0.0 <= f < 1.0 {
      SearchSelects(d, weight, f, j);
    }
  }

  lemma MassPositive(d: Poisson, k: nat)
    requires d.scale > 0.0
    ensures Mass(d, k) >= 0.0
  {
    Binomial.PowNonNegative(d.expected, k);
    QuotientNonNegative(Binomial.Pow(d.expected, k), Factorial(k), d.scale);
  }

  lemma QuotientNonNegative(x: int, y: int, s: real)
    requires x >= 0 && y > 0 && s > 0.0
    ensures (x as real / y as real) * s >= 0.0
  {
    assert x as real / y as real >= 0.0;
  }

  lemma {:induction false} MassToMonotone(d: Poisson, i: nat, j: nat)
    requires d.scale > 0.0 && i <= j
    ensures 0.0 <= MassTo(d, i) <= MassTo(d, j)
    decreases i + j
  {
    MassPositive(d, j);
    if i < j {
      MassToMonotone(d, i, j - 1);
    } else if i > 0 {
      MassToMonotone(d, i - 1, j - 1);
    }
  }

  /** A fraction below one value of the CDF is below all later ones, even where the partial sums
      overshoot 1 before the clamp. */
  lemma StaysBelow(d: Poisson, weight: nat, f: real, i: nat, j: nat)
    requires d.scale > 0.0 && f < 1.0 && i <= j
    requires f < Cdf(d, weight, i)
    ensures f < Cdf(d, weight, j)
  {
    if j < weight {
      MassToMonotone(d, i, j);
    }
  }

  lemma {:induction false} SomeSelected(d: Poisson, weight: nat, f: real, from: nat) returns (j: nat)
    requires f < 1.0 && (from > 0 ==> from <= weight && Cdf(d, weight, from) <= f)
    ensures Selected(d, weight, f, j) && j >= from
    ensures weight > 0 ==> j < weight
    decreases weight - from
  {
    if f < Cdf(d, weight, from + 1) {
      j := from;
    } else {
      j := SomeSelected(d, weight, f, from + 1);
    }
  }

  lemma SelectedUnique(d: Poisson, weight: nat, f: real, i: nat, j: nat)
    requires d.scale > 0.0 && f < 1.0
    requires Selected(d, weight, f, i) && Selected(d, weight, f, j)
    ensures i == j
  {
    if i < j {
      StaysBelow(d, weight, f, i + 1, j);
    } else if j < i {
      StaysBelow(d, weight, f, j + 1, i);
    }
  }

  lemma SearchSelects(d: Poisson, weight: nat, f: real, j: nat)
    requires d.scale > 0.0 && 0.0 <= f < 1.0
    requires Searched(d, weight, f, j)
    ensures Selected(d, weight, f, j)
  {
    var m := SomeSelected(d, weight, f, 0);
    if m > 0 {
      assert InInterval(d, weight, f, m);
    }
  }

  /** What a selection says: 0 exactly below CDF(1), otherwise the one interval that holds the
      fraction; and always less than a positive weight. */
  lemma SelectionMeaning(d: Poisson, weight: nat, f: real, j: nat)
    requires d.scale > 0.0 && 0.0 <= f < 1.0 && Selected(d, weight, f, j)
    ensures j == 0 <==> f < Cdf(d, weight, 1)
    ensures j > 0 ==> InInterval(d, weight, f, j) && forall i: nat :: InInterval(d, weight, f, i) ==> i == j
    ensures weight > 0 ==> j < weight
  {
    var m := SomeSelected(d, weight, f, 0);
    SelectedUnique(d, weight, f, m, j);
    if f < Cdf(d, weight, 1) {
      assert Selected(d, weight, f, 0);
      SelectedUnique(d, weight, f, 0, j);
    }
    if j > 0 {
      forall i: nat | InInterval(d, weight, f, i)
        ensures i == j
      {
        SelectedUnique(d, weight, f, i, j);
      }
    }
  }

  /** A larger fraction selects at least as many. */
  lemma SelectionMonotone(d: Poisson, weight: nat, f: real, g: real, i: nat, j: nat)
    requires d.scale > 0.0 && 0.0 <= f <= g < 1.0
    requires Selected(d, weight, f, i) && Selected(d, weight, g, j)
    ensures i <= j
  {
    if j < i {
      StaysBelow(d, weight, g, j + 1, i);
    }
  }

  function Max(x: nat, y: nat): nat {
    if x < y then y else x
  }

  function Min(x: nat, y: nat): nat {
    if x < y then x else y
  }

  lemma LighterWeight(d: Poisson, v: nat, w: nat, f: real, i: nat, j: nat)
    requires d.scale > 0.0 && 0.0 <= f < 1.0 && v <= w
    requires Selected(d, v, f, i) && Selected(d, w, f, j)
    ensures i == j <==> f < Cdf(d, w, Max(v, 1))
  {
    SelectionMeaning(d, v, f, i);
    SelectionMeaning(d, w, f, j);
    var lo := Max(v, 1);
    if f < Cdf(d, w, lo) {
      if j >= lo {
        StaysBelow(d, w, f, lo, j);
      }
      assert Selected(d, v, f, j);
      SelectedUnique(d, v, f, i, j);
    } else if j < lo {
      StaysBelow(d, w, f, j + 1, lo);
    }
  }

  /** Two weights select alike exactly when the fraction is below the heavier CDF's value at the
      lighter weight. */
  lemma SameSelectionIff(d: Poisson, v: nat, w: nat, f: real, i: nat, j: nat)
    requires d.scale > 0.0 && 0.0 <= f < 1.0
    requires Selected(d, v, f, i) && Selected(d, w, f, j)
    ensures i == j <==> f < Cdf(d, Max(v, w), Max(Min(v, w), 1))
  {
    if v <= w {
      LighterWeight(d, v, w, f, i, j);
    } else {
      LighterWeight(d, w, v, f, j, i);
    }
  }

  // ---------------------------------------------------------------- priorities

  /** bytes.Compare */
  function Compare(a: Bytes, b: Bytes): int {
    if a == [] then (if b == [] then 0 else -1)
    else if b == [] then 1
    else if a[0] < b[0] then -1
    else if a[0] > b[0] then 1
    else Compare(a[1..], b[1..])
  }

  lemma {:induction false} CompareAntisymmetric(a: Bytes, b: Bytes)
    ensures Compare(a, b) == -Compare(b, a)
    ensures Compare(a, b) == 0 <==> a == b
  {
    if a != [] && b != [] {
      CompareAntisymmetric(a[1..], b[1..]);
      assert a == [a[0]] + a[1..] && b == [b[0]] + b[1..];
    }
  }

  lemma {:induction false} CompareTransitive(a: Bytes, b: Bytes, c: Bytes)
    requires Compare(a, b) <= 0 && Compare(b, c) <= 0
    ensures Compare(a, c) <= 0
  {
    if a != [] && b != [] && c != [] && a[0] == b[0] == c[0] {
      CompareTransitive(a[1..], b[1..], c[1..]);
    }
  }

  lemma {:induction false} FromFront(b: byte, s: Bytes)
    ensures FromBytes([b] + s) == b as nat * Pow256(|s|) + FromBytes(s)
  {
    if s != [] {
      var front, last := s[..|s| - 1], s[|s| - 1];
      FromFront(b, front);
      assert ([b] + s)[..|s|] == [b] + front;
    }
  }

  /** On strings of one length the order is that of the numbers they encode, the first byte counting
      most. */
  lemma {:induction false} CompareIsNumeric(a: Bytes, b: Bytes)
    requires |a| == |b|
    ensures Compare(a, b) < 0 <==> FromBytes(a) < FromBytes(b)
    ensures Compare(a, b) == 0 <==> FromBytes(a) == FromBytes(b)
  {
    if a != [] {
      CompareIsNumeric(a[1..], b[1..]);
      assert a == [a[0]] + a[1..] && b == [b[0]] + b[1..];
      FromFront(a[0], a[1..]);
      FromFront(b[0], b[1..]);
      FromBytesBound(a[1..]);
      FromBytesBound(b[1..]);
      FirstDecides(a[0] as nat, FromBytes(a[1..]), b[0] as nat, FromBytes(b[1..]), Pow256(|a| - 1));
    }
  }

  lemma FirstDecides(x: nat, r: nat, y: nat, s: nat, p: nat)
    requires r < p && s < p
    ensures x < y ==> x * p + r < y * p + s
    ensures x > y ==> x * p + r > y * p + s
  {
    if x < y {
      assert (x + 1) * p <= y * p;
    } else if x > y {
      assert (y + 1) * p <= x * p;
    }
  }

  /** A string comes before its continuations. */
  lemma {:induction false} ComparePrefix(a: Bytes, b: Bytes)
    ensures Compare(a, a + b) == if b == [] then 0 else -1
  {
    if a != [] {
      assert (a + b)[1..] == a[1..] + b;
      ComparePrefix(a[1..], b);
    }
  }

  /** `hash(vrf, i)` is the priority of the ith sub-user. */
  function MaxPriorityOf(hash: (Bytes, nat) -> Bytes, vrf: Bytes, users: nat): Bytes {
    if users == 0 then [] else
      var prior, best := hash(vrf, users), MaxPriorityOf(hash, vrf, users - 1);
      if Compare(prior, best) > 0 then prior else best
  }

  method MaxPriority(hash: (Bytes, nat) -> Bytes, vrf: Bytes, users: nat) returns (maxPrior: Bytes)
    ensures maxPrior == MaxPriorityOf(hash, vrf, users)
  {
    maxPrior := [];
    for i := 1 to users + 1
      invariant maxPrior == MaxPriorityOf(hash, vrf, i - 1)
    {
      var prior := hash(vrf, i);
      if Compare(prior, maxPrior) > 0 {
        maxPrior := prior;
      }
    }
  }

  /** It is the greatest of the sub-users' priorities, and the empty string without sub-users. */
  lemma {:induction false} MaxPriorityMeaning(hash: (Bytes, nat) -> Bytes, vrf: Bytes, users: nat)
    ensures forall i :: 1 <= i <= users ==> Compare(hash(vrf, i), MaxPriorityOf(hash, vrf, users)) <= 0
    ensures MaxPriorityOf(hash, vrf, users) == []
      || exists i :: 1 <= i <= users && hash(vrf, i) == MaxPriorityOf(hash, vrf, users)
  {
    if users > 0 {
      var prior, best := hash(vrf, users), MaxPriorityOf(hash, vrf, users - 1);
      MaxPriorityMeaning(hash, vrf, users - 1);
      CompareAntisymmetric(prior, best);
      CompareAntisymmetric(prior, prior);
      forall i | 1 <= i <= users
        ensures Compare(hash(vrf, i), MaxPriorityOf(hash, vrf, users)) <= 0
      {
        if i < users && Compare(prior, best) > 0 {
          CompareTransitive(hash(vrf, i), best, prior);
        }
      }
    }
  }

  /** More sub-users leave the maximum unchanged exactly when none of the extra ones beats it. */
  lemma {:induction false} MaxPrioritySameIff(hash: (Bytes, nat) -> Bytes, vrf: Bytes, few: nat, many: nat)
    requires few <= many
    ensures Compare(MaxPriorityOf(hash, vrf, few), MaxPriorityOf(hash, vrf, many)) <= 0
    ensures MaxPriorityOf(hash, vrf, few) == MaxPriorityOf(hash, vrf, many)
      <==> forall i :: few < i <= many ==> Compare(hash(vrf, i), MaxPriorityOf(hash, vrf, few)) <= 0
    decreases many
  {
    var a, b := MaxPriorityOf(hash, vrf, few), MaxPriorityOf(hash, vrf, many);
    CompareAntisymmetric(a, b);
    if few < many {
      var c := MaxPriorityOf(hash, vrf, many - 1);
      MaxPrioritySameIff(hash, vrf, few, many - 1);
      CompareAntisymmetric(a, c);
      CompareAntisymmetric(c, hash(vrf, many));
      if Compare(hash(vrf, many), c) > 0 {
        CompareTransitive(a, c, hash(vrf, many));
        if a == b {
          CompareAntisymmetric(a, hash(vrf, many));
        }
      }
    }
  }

  // ---------------------------------------------------------------- proposals

  /** The bytes of a hash, common.HashLength. */
  const HASH_LENGTH := 32

  /** The VRF output as a fraction of 2 to the power HashLength * 8. */
  function Fraction(vrf: Bytes): real {
    Pow256Monotone(0, HASH_LENGTH);
    FromBytes(vrf) as real / Pow256(HASH_LENGTH) as real
  }

  lemma FractionInRange(vrf: Bytes)
    requires |vrf| <= HASH_LENGTH
    ensures 0.0 <= Fraction(vrf) < 1.0
  {
    FromBytesBound(vrf);
    Pow256Monotone(|vrf|, HASH_LENGTH);
    ProperFraction(FromBytes(vrf), Pow256(HASH_LENGTH));
  }

  /** Of a full-length output the first byte decides the fraction to within 1/256. */
  lemma LeadingByte(vrf: Bytes)
    requires |vrf| == 32
    ensures vrf[0] as real <= 256.0 * Fraction(vrf) < vrf[0] as real + 1.0
  {
    var n := |vrf| - 1;
    var p := FractionOf(vrf, n);
    LeadingOf(vrf, n, p, Fraction(vrf));
  }

  lemma LeadingOf(s: Bytes, n: nat, p: nat, f: real)
    requires |s| == n + 1 && p == Pow256(n) && f * (256 * p) as real == FromBytes(s) as real
    ensures s[0] as real <= 256.0 * f < s[0] as real + 1.0
  {
    var x, r := FirstAndRest(s, n, p);
    Whole(x, r, p, FromBytes(s), f);
  }

  lemma FirstAndRest(s: Bytes, n: nat, p: nat) returns (x: nat, r: nat)
    requires |s| == n + 1 && p == Pow256(n)
    ensures x == s[0] as nat && r < p && FromBytes(s) == x * p + r
  {
    x, r := s[0] as nat, FromBytes(s[1..]);
    assert s == [s[0]] + s[1..];
    FromFront(s[0], s[1..]);
    FromBytesBound(s[1..]);
  }

  lemma FractionOf(vrf: Bytes, n: nat) returns (p: nat)
    requires n + 1 == HASH_LENGTH
    ensures p == Pow256(n) && Fraction(vrf) * (256 * p) as real == FromBytes(vrf) as real
  {
    p := Pow256(n);
    Pow256Monotone(0, n + 1);
    NextPow(n);
    Quotient(FromBytes(vrf), Pow256(n + 1));
  }

  lemma NextPow(n: nat)
    ensures Pow256(n + 1) == 256 * Pow256(n)
  {
  }

  lemma Quotient(n: nat, d: nat)
    requires d > 0
    ensures (n as real / d as real) * d as real == n as real
  {
  }

  lemma Whole(x: nat, r: nat, p: nat, n: nat, f: real)
    requires r < p && n == x * p + r && f * (256 * p) as real == n as real
    ensures x as real <= 256.0 * f < x as real + 1.0
  {
    var q := p as real;
    assert n as real == x as real * q + r as real && (256 * p) as real == 256.0 * q;
    Squeezed(256.0 * f, x as real, r as real, q);
  }

  lemma Squeezed(z: real, x: real, r: real, q: real)
    requires 0.0 <= r < q && z * q == x * q + r
    ensures x <= z < x + 1.0
  {
    var below, above := z - x, z - x - 1.0;
    assert below * q == r && above * q == r - q;
    SignOf(below, q);
    SignOf(above, q);
  }

  lemma SignOf(a: real, q: real)
    requires q > 0.0
    ensures a * q >= 0.0 <==> a >= 0.0
  {
    if a < 0.0 {
      assert -a * q > 0.0;
    }
  }

  lemma FractionNonNegative(vrf: Bytes)
    ensures 0.0 <= Fraction(vrf)
  {
    Pow256Monotone(0, HASH_LENGTH);
    Binomial.FractionOrder(0, FromBytes(vrf), Pow256(HASH_LENGTH));
  }

  lemma ProperFraction(x: nat, y: nat)
    requires x < y
    ensures 0.0 <= x as real / y as real < 1.0
  {
  }

  datatype Proposal = Proposal(round: nat, hash: Bytes, prior: Bytes, vrf: Bytes)

  /** The receiver's side; the result of the VRF check is dropped by the code, so only the priority
      can fail. `users` are the sub-users the receiver works out under its own weight. */
  method Verify(p: Proposal, d: Poisson, weight: nat, hash: (Bytes, nat) -> Bytes) returns (ok: bool, users: nat)
    ensures Searched(d, weight, Fraction(p.vrf), users)
    ensures ok <==> MaxPriorityOf(hash, p.vrf, users) == p.prior
  {
    users := SubUsers(d, weight, Fraction(p.vrf));
    var best := MaxPriority(hash, p.vrf, users);
    CompareAntisymmetric(best, p.prior);
    ok := Compare(best, p.prior) == 0;
  }

  /** A receiver of weight `w` accepts what a sender of weight `v` announced exactly when no
      sub-user that only one of them counts has a higher priority; in particular whenever the fraction
      is below 1, as it is for outputs of up to 32 bytes, and below the heavier CDF's value at the
      lighter weight. */
  lemma AcceptanceIff(p: Proposal, d: Poisson, v: nat, w: nat, i: nat, j: nat, hash: (Bytes, nat) -> Bytes)
    requires Searched(d, v, Fraction(p.vrf), i) && Searched(d, w, Fraction(p.vrf), j)
    requires p.prior == MaxPriorityOf(hash, p.vrf, i)
    ensures MaxPriorityOf(hash, p.vrf, j) == p.prior
      <==> forall k :: Min(i, j) < k <= Max(i, j) ==>
             Compare(hash(p.vrf, k), MaxPriorityOf(hash, p.vrf, Min(i, j))) <= 0
    ensures d.scale > 0.0 && Fraction(p.vrf) < 1.0 && Fraction(p.vrf) < Cdf(d, Max(v, w), Max(Min(v, w), 1)) ==>
      MaxPriorityOf(hash, p.vrf, j) == p.prior
  {
    if d.scale > 0.0 && Fraction(p.vrf) < 1.0 {
      FractionNonNegative(p.vrf);
      SearchSelects(d, v, Fraction(p.vrf), i);
      SearchSelects(d, w, Fraction(p.vrf), j);
      SameSelectionIff(d, v, w, Fraction(p.vrf), i, j);
    }
    MaxPrioritySameIff(hash, p.vrf, Min(i, j), Max(i, j));
  }

  /** What getMaxProposal returns: indexing an empty list is a panic. */
  datatype Pick = Panic | Best(proposal: Proposal)

  /** `p` stands at `at`, no proposal has a higher priority and none after it an equal one. */
  predicate LastOfTheBest(pros: seq<Proposal>, p: Proposal, at: nat) {
    && at < |pros| && pros[at] == p
    && (forall k :: 0 <= k < |pros| ==> Compare(pros[k].prior, p.prior) <= 0)
    && (forall k :: at < k < |pros| ==> pros[k].prior != p.prior)
  }

  method GetMaxProposal(pros: seq<Proposal>) returns (pick: Pick, ghost at: nat)
    ensures pick.Panic? <==> pros == []
    ensures pick.Best? ==> LastOfTheBest(pros, pick.proposal, at)
  {
    at := 0;
    if |pros| == 0 {
      return Panic, 0;
    }
    var proposal := pros[0];
    CompareAntisymmetric(proposal.prior, proposal.prior);
    for i := 0 to |pros|
      invariant at < |pros| && pros[at] == proposal && (i > 0 ==> at < i) && (i == 0 ==> at == 0)
      invariant forall k :: 0 <= k < i ==> Compare(pros[k].prior, proposal.prior) <= 0
      invariant forall k :: at < k < i ==> pros[k].prior != proposal.prior
    {
      CompareAntisymmetric(proposal.prior, pros[i].prior);
      if Compare(proposal.prior, pros[i].prior) <= 0 {
        forall k | 0 <= k < i
          ensures Compare(pros[k].prior, pros[i].prior) <= 0
        {
          CompareTransitive(pros[k].prior, proposal.prior, pros[i].prior);
        }
        CompareAntisymmetric(pros[i].prior, pros[i].prior);
        proposal := pros[i];
        at := i;
      }
    }
    pick := Best(proposal);
  }

  /** Nodes that hold the same proposals in different orders pick the same one, unless two of the
      best share a priority. */
  lemma PickIgnoresOrder(a: seq<Proposal>, b: seq<Proposal>, p: Proposal, i: nat, q: Proposal, j: nat)
    requires multiset(a) == multiset(b)
    requires LastOfTheBest(a, p, i) && LastOfTheBest(b, q, j)
    requires forall x, y :: x in a && y in a && x.prior == y.prior ==> x == y
    ensures p == q
  {
    assert p in multiset(a) && q in multiset(b);
    assert p in b && q in a;
    CompareAntisymmetric(p.prior, q.prior);
  }
}
