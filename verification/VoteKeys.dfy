/** The store of received votes and its keys (algorand/peer.go, Handle and ConstructVoteKey). */
module VoteKeys {
  import opened Bytes
  import opened Voting

  function Digit(d: nat): char
    requires d < 10
  {
    "0123456789"[d]
  }

  function Decimal(n: nat): (s: string)
    ensures |s| >= 1
    ensures '-' !in s
  {
    if n < 10 then [Digit(n)] else Decimal(n / 10) + [Digit(n % 10)]
  }

  /** strconv.Itoa */
  function Itoa(n: int): string {
    if n < 0 then "-" + Decimal(-n) else Decimal(n)
  }

  function VoteKey(round: nat, step: int): string {
    Itoa(ToInt64(round)) + Itoa(step)
  }

  lemma {:induction false} DecimalInjective(m: nat, n: nat)
    requires Decimal(m) == Decimal(n)
    ensures m == n
  {
    var s, t := Decimal(m), Decimal(n);
    assert s[|s| - 1] == Digit(m % 10) && t[|t| - 1] == Digit(n % 10);
    if m >= 10 && n >= 10 {
      assert Decimal(m / 10) == s[..|s| - 1] == Decimal(n / 10);
      DecimalInjective(m / 10, n / 10);
    }
  }

  lemma Signed(n: int)
    ensures Itoa(n)[0] == '-' <==> n < 0
    ensures n < 0 ==> Itoa(n)[1..] == Decimal(-n)
  {
    assert n >= 0 ==> Decimal(n)[0] in Decimal(n);
  }

  lemma ItoaInjective(m: int, n: int)
    requires Itoa(m) == Itoa(n)
    ensures m == n
  {
    Signed(m);
    Signed(n);
    if m < 0 {
      assert Decimal(-m) == Decimal(-n);
      DecimalInjective(-m, -n);
    } else {
      DecimalInjective(m, n);
    }
  }

  lemma CancelFront(r: string, s: string, t: string)
    requires r + s == r + t
    ensures s == t
  {
    assert (r + s)[|r|..] == s && (r + t)[|r|..] == t;
  }

  lemma CancelBack(r: string, o: string, s: string)
    requires r + s == o + s
    ensures r == o
  {
    assert |r| == |o|;
    assert (r + s)[..|r|] == r && (o + s)[..|o|] == o;
  }

  /** Within a round different steps have different keys. */
  lemma KeyTellsStepsApart(round: nat, step: int, step': int)
    ensures VoteKey(round, step) == VoteKey(round, step') <==> step == step'
  {
    if VoteKey(round, step) == VoteKey(round, step') {
      CancelFront(Itoa(ToInt64(round)), Itoa(step), Itoa(step'));
      ItoaInjective(step, step');
    }
  }

  /** At one step different rounds have different keys. */
  lemma KeyTellsRoundsApart(round: nat, other: nat, step: int)
    requires round < TWO_64 && other < TWO_64
    ensures VoteKey(round, step) == VoteKey(other, step) <==> round == other
  {
    if VoteKey(round, step) == VoteKey(other, step) {
      CancelBack(Itoa(ToInt64(round)), Itoa(ToInt64(other)), Itoa(step));
      ItoaInjective(ToInt64(round), ToInt64(other));
      ToInt64Injective(round, other);
    }
  }

  lemma SplitBack(r: string, s: string, o: string, t: string)
    requires r + s == o + t && |s| == |t|
    ensures r == o && s == t
  {
    assert |r| == |o|;
    assert (r + s)[..|r|] == r && (o + t)[..|o|] == o;
    assert (r + s)[|r|..] == s && (o + t)[|o|..] == t;
  }

  /** Steps of equally many digits, such as 1 to 9 or the reserved ones, are told apart in whatever
      round. */
  lemma KeyTellsApart(round: nat, step: int, other: nat, step': int)
    requires round < TWO_64 && other < TWO_64 && |Itoa(step)| == |Itoa(step')|
    ensures VoteKey(round, step) == VoteKey(other, step') <==> round == other && step == step'
  {
    if VoteKey(round, step) == VoteKey(other, step') {
      SplitBack(Itoa(ToInt64(round)), Itoa(step), Itoa(ToInt64(other)), Itoa(step'));
      ItoaInjective(ToInt64(round), ToInt64(other));
      ItoaInjective(step, step');
      ToInt64Injective(round, other);
    }
  }

  // ---------------------------------------------------------------- when two keys are one

  function Pow10(k: nat): (p: nat)
    ensures p >= 1
  {
    if k == 0 then 1 else 10 * Pow10(k - 1)
  }

  /** The number that the digits of m and of step make, one after the other. */
  function Number(m: nat, step: nat): nat {
    m * Pow10(|Decimal(step)|) + step
  }

  lemma {:induction false} NoLeadingZero(n: nat)
    requires n > 0
    ensures Decimal(n)[0] != '0'
  {
    if n >= 10 {
      NoLeadingZero(n / 10);
    }
  }

  lemma TenTimes(m: nat, p: nat, step: nat)
    ensures m * (10 * p) + step == 10 * (m * p + step / 10) + step % 10
  {
    assert m * (10 * p) == 10 * (m * p);
  }

  lemma NumberStep(m: nat, less: nat, d: nat)
    requires less > 0 && d < 10
    ensures Number(m, 10 * less + d) == 10 * Number(m, less) + d
  {
    AppendDigit(less, d);
    TenTimes(m, Pow10(|Decimal(less)|), 10 * less + d);
  }

  lemma NumberDigit(m: nat, step: nat)
    requires step < 10
    ensures Number(m, step) == 10 * m + step
  {
    assert |Decimal(step)| == 1 && Pow10(1) == 10 * Pow10(0);
  }

  lemma AppendDigit(n: nat, d: nat)
    requires n > 0 && d < 10
    ensures Decimal(10 * n + d) == Decimal(n) + [Digit(d)]
  {
    assert (10 * n + d) / 10 == n && (10 * n + d) % 10 == d;
  }

  lemma JoinDigit(front: string, rest: string, d: char, whole: string, longerRest: string, longer: string)
    requires front + rest == whole && longerRest == rest + [d] && longer == whole + [d]
    ensures front + longerRest == longer
  {
  }

  ghost predicate Joins(m: nat, step: nat) {
    Decimal(m) + Decimal(step) == Decimal(Number(m, step)) && Number(m, step) > 0
  }

  lemma JoinsOneMore(m: nat, less: nat, d: nat)
    requires m > 0 && less > 0 && d < 10 && Joins(m, less)
    ensures Joins(m, 10 * less + d)
  {
    NumberStep(m, less, d);
    AppendDigit(less, d);
    AppendDigit(Number(m, less), d);
    var n, step := Number(m, less), 10 * less + d;
    JoinDigit(Decimal(m), Decimal(less), Digit(d), Decimal(n), Decimal(step), Decimal(10 * n + d));
  }

  lemma JoinsDigit(m: nat, d: nat)
    requires m > 0 && d < 10
    ensures Joins(m, d)
  {
    NumberDigit(m, d);
    AppendDigit(m, d);
  }

  /** Written one after the other, two numbers are one number. */
  lemma {:induction false} DecimalJoin(m: nat, step: nat)
    requires m > 0
    ensures Joins(m, step)
    decreases step
  {
    if step < 10 {
      JoinsDigit(m, step);
    } else {
      DecimalJoin(m, step / 10);
      JoinsOneMore(m, step / 10, step % 10);
      assert 10 * (step / 10) + step % 10 == step;
    }
  }

  lemma JoinedIff(m: nat, step: nat, m': nat, step': nat)
    ensures Decimal(m) + Decimal(step) == Decimal(m') + Decimal(step')
      <==> (m == 0 <==> m' == 0) && Number(m, step) == Number(m', step')
  {
    if m > 0 && m' > 0 {
      DecimalJoin(m, step);
      DecimalJoin(m', step');
      if Decimal(Number(m, step)) == Decimal(Number(m', step')) {
        DecimalInjective(Number(m, step), Number(m', step'));
      }
    } else if m == 0 && m' == 0 {
      if Decimal(m) + Decimal(step) == Decimal(m') + Decimal(step') {
        CancelFront(Decimal(0), Decimal(step), Decimal(step'));
        DecimalInjective(step, step');
      }
    } else {
      NoLeadingZero(if m > 0 then m else m');
      assert (Decimal(m) + Decimal(step))[0] == Decimal(m)[0] && (Decimal(m') + Decimal(step'))[0] == Decimal(m')[0];
    }
  }

  function Abs(n: int): nat {
    if n < 0 then -n else n
  }

  /** Two rounds and steps that share a key, by arithmetic: the signed rounds have one sign and the
      digits of round and step make one number. A negative step tells itself apart. */
  predicate SameKey(round: nat, step: int, other: nat, step': int) {
    if step < 0 || step' < 0 then round == other && step == step'
    else
      var r, o := ToInt64(round), ToInt64(other);
      && (r < 0 <==> o < 0) && (r == 0 <==> o == 0)
      && Number(Abs(r), step) == Number(Abs(o), step')
  }

  lemma DashAt(r: int, step: int, i: nat)
    requires 1 <= i < |Itoa(r) + Itoa(step)|
    ensures (Itoa(r) + Itoa(step))[i] == '-' <==> step < 0 && i == |Itoa(r)|
  {
    var key, own := Itoa(r) + Itoa(step), Itoa(r);
    if i < |own| {
      assert key[i] == own[i] && (r < 0 ==> own[i] == Decimal(-r)[i - 1]);
    } else {
      var j := i - |own|;
      assert key[i] == Itoa(step)[j] && (step < 0 && j > 0 ==> Itoa(step)[j] == Decimal(-step)[j - 1]);
    }
  }

  lemma NegativeStepIff(r: int, step: int, o: int, step': int)
    requires step < 0
    ensures Itoa(r) + Itoa(step) == Itoa(o) + Itoa(step') <==> r == o && step == step'
  {
    if Itoa(r) + Itoa(step) == Itoa(o) + Itoa(step') {
      DashAt(r, step, |Itoa(r)|);
      DashAt(o, step', |Itoa(r)|);
      SplitBack(Itoa(r), Itoa(step), Itoa(o), Itoa(step'));
      ItoaInjective(r, o);
      ItoaInjective(step, step');
    }
  }

  lemma NaturalStepIff(r: int, step: nat, o: int, step': nat)
    ensures Itoa(r) + Itoa(step) == Itoa(o) + Itoa(step')
      <==> (r < 0 <==> o < 0) && (r == 0 <==> o == 0) && Number(Abs(r), step) == Number(Abs(o), step')
  {
    JoinedIff(Abs(r), step, Abs(o), step');
    assert r < 0 ==> Itoa(r) + Itoa(step) == "-" + (Decimal(-r) + Decimal(step));
    assert o < 0 ==> Itoa(o) + Itoa(step') == "-" + (Decimal(-o) + Decimal(step'));
    assert r >= 0 ==> (Itoa(r) + Itoa(step))[0] == Decimal(r)[0];
    assert o >= 0 ==> (Itoa(o) + Itoa(step'))[0] == Decimal(o)[0];
    if r < 0 && o < 0 && Itoa(r) + Itoa(step) == Itoa(o) + Itoa(step') {
      CancelFront("-", Decimal(-r) + Decimal(step), Decimal(-o) + Decimal(step'));
    }
  }

  /** Exactly when two votes share a key, for all rounds and steps. */
  lemma VoteKeyIff(round: nat, step: int, other: nat, step': int)
    requires round < TWO_64 && other < TWO_64
    ensures VoteKey(round, step) == VoteKey(other, step') <==> SameKey(round, step, other, step')
  {
    var r, o := ToInt64(round), ToInt64(other);
    if r == o {
      ToInt64Injective(round, other);
    }
    if step < 0 {
      NegativeStepIff(r, step, o, step');
    } else if step' < 0 {
      NegativeStepIff(o, step', r, step);
    } else {
      NaturalStepIff(r, step, o, step');
    }
  }

  /** Step 11 of round 1 is step 1 of round 11, and the first reduction step of round 1 is step 1 of
      round 1100. */
  lemma KeysCollideAcrossRounds()
    ensures VoteKey(1, 11) == VoteKey(11, 1)
    ensures VoteKey(1, 1001) == VoteKey(1100, 1)
  {
    assert |Decimal(1)| == 1 && |Decimal(11)| == 2 && |Decimal(1001)| == 4;
    assert Pow10(1) == 10 && Pow10(2) == 100 && Pow10(4) == 10000;
    VoteKeyIff(1, 11, 11, 1);
    VoteKeyIff(1, 1001, 1100, 1);
  }

  // ---------------------------------------------------------------- the vote store

  /** The messages filed under a key, in order of arrival. */
  function Filed(heard: seq<VoteMessage>, key: string): seq<VoteMessage> {
    if heard == [] then []
    else
      var front, last := Filed(heard[..|heard| - 1], key), heard[|heard| - 1];
      if VoteKey(last.round, last.step) == key then front + [last] else front
  }

  /** The messages of a step, in order of arrival. */
  function OfStep(heard: seq<VoteMessage>, round: nat, step: int): seq<VoteMessage> {
    if heard == [] then []
    else
      var front, last := OfStep(heard[..|heard| - 1], round, step), heard[|heard| - 1];
      if last.round == round && last.step == step then front + [last] else front
  }

  class VoteStore {
    var inVotes: map<string, seq<VoteMessage>>
    /** Every vote received, in order. */
    ghost var heard: seq<VoteMessage>

    ghost predicate Valid()
      reads this
    {
      forall key :: (if key in inVotes then inVotes[key] else []) == Filed(heard, key)
    }

    constructor ()
      ensures Valid() && heard == []
    {
      inVotes := map[];
      heard := [];
    }

    /** A vote is filed unseen under the key of the round and step it claims. */
    method Handle(vote: VoteMessage)
      requires Valid()
      modifies this
      ensures Valid() && heard == old(heard) + [vote]
    {
      var key := VoteKey(vote.round, vote.step);
      var list := if key in inVotes then inVotes[key] else [];
      inVotes := inVotes[key := list + [vote]];
      ghost var longer := heard + [vote];
      assert longer[..|heard|] == heard;
      heard := longer;
    }

    /** What countVotes goes through. */
    method Inbox(round: nat, step: int) returns (votes: seq<VoteMessage>)
      requires Valid()
      ensures votes == Filed(heard, VoteKey(round, step))
    {
      var key := VoteKey(round, step);
      votes := if key in inVotes then inVotes[key] else [];
    }
  }

  ghost predicate RoundsFit(heard: seq<VoteMessage>) {
    forall v :: v in heard ==> v.round < TWO_64
  }

  /** No vote of another round or step shares the key. */
  ghost predicate NoneCollides(heard: seq<VoteMessage>, round: nat, step: int) {
    forall v :: v in heard ==> !Collides(v, round, step)
  }

  predicate Collides(v: VoteMessage, round: nat, step: int) {
    SameKey(v.round, v.step, round, step) && !(v.round == round && v.step == step)
  }

  lemma LastFiled(heard: seq<VoteMessage>, round: nat, step: int)
    requires heard != []
    ensures var front, last := heard[..|heard| - 1], heard[|heard| - 1];
      NoneCollides(heard, round, step) <==> NoneCollides(front, round, step) && !Collides(last, round, step)
  {
    var front, last := heard[..|heard| - 1], heard[|heard| - 1];
    assert heard == front + [last];
    assert forall v :: v in heard <==> v in front || v == last;
  }

  /** A count goes through the votes of its own step and no others if and only if no vote of another
      round or step shares its key. */
  lemma {:induction false} InboxPureIff(heard: seq<VoteMessage>, round: nat, step: int)
    requires RoundsFit(heard) && round < TWO_64
    ensures Filed(heard, VoteKey(round, step)) == OfStep(heard, round, step) <==> NoneCollides(heard, round, step)
    ensures |OfStep(heard, round, step)| <= |Filed(heard, VoteKey(round, step))|
  {
    if heard != [] {
      var front, last := heard[..|heard| - 1], heard[|heard| - 1];
      InboxPureIff(front, round, step);
      LastFiled(heard, round, step);
      VoteKeyIff(last.round, last.step, round, step);
      var filed := VoteKey(last.round, last.step) == VoteKey(round, step);
      var own := last.round == round && last.step == step;
      OneMoreVote(Filed(front, VoteKey(round, step)), OfStep(front, round, step), last, filed, own);
    }
  }

  lemma OneMoreVote(a: seq<VoteMessage>, b: seq<VoteMessage>, last: VoteMessage, filed: bool, own: bool)
    requires |b| <= |a| && (own ==> filed)
    ensures var a', b' := a + (if filed then [last] else []), b + (if own then [last] else []);
      |b'| <= |a'| && (a' == b' <==> a == b && (filed ==> own))
  {
    if own {
      if a + [last] == b + [last] {
        assert a == (a + [last])[..|a|] == (b + [last])[..|b|] == b;
      }
    } else if filed {
      assert |a + [last]| > |b + []|;
    } else {
      assert a + [] == a && b + [] == b;
    }
  }

  /** So it does while all votes heard are of one round. */
  lemma OneRoundIsPure(heard: seq<VoteMessage>, round: nat, step: int)
    requires round < TWO_64 && forall v :: v in heard ==> v.round == round
    ensures Filed(heard, VoteKey(round, step)) == OfStep(heard, round, step)
  {
    InboxPureIff(heard, round, step);
    forall v | v in heard
      ensures !Collides(v, round, step)
    {
      KeyTellsStepsApart(round, v.step, step);
      VoteKeyIff(round, v.step, round, step);
    }
  }
}
