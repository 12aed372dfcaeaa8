/** Counting the votes of one BA* step (algorand/algorand.go, countVotes and processMsg). */
module Voting {
  import opened Bytes
  import opened SetSums

  /** ThresholdOfBAStep of ExpectedCommitteeMembers; FinalThreshold of the final committee is the same. */
  const STEP_QUORUM := 2

  /** A public key, as a number. */
  type Key = nat
  type Hash = Bytes

  /** A vote message; `key` is what RecoverPubkey yields, `signed` what VerifySign says. */
  datatype VoteMessage = VoteMessage(
    key: Key, signed: bool, round: nat, step: int, vrf: Bytes, parentHash: Hash, hash: Hash)

  /** What processMsg makes of a message: a weight for a hash, the weight 0 meaning "ignore". */
  datatype Ballot = Ballot(key: Key, weight: nat, hash: Hash)

  /** Timeout: no message and the timer had fired. NoQuorum: the nil hash with the nil error.
      Crash: a counted hash too short for its 32-bit index. */
  datatype Outcome = Timeout | Quorum(hash: Hash) | NoQuorum | Crash

  function ProcessMsg(m: VoteMessage, tail: Hash, subUsers: VoteMessage -> nat): Ballot {
    if !m.signed then Ballot(m.key, 0, [])
    else if m.parentHash != tail then Ballot(m.key, 0, [])
    else Ballot(m.key, subUsers(m), m.hash)
  }

  function Ballots(inbox: seq<VoteMessage>, tail: Hash, subUsers: VoteMessage -> nat): (bs: seq<Ballot>)
    ensures |bs| == |inbox|
    ensures forall i :: 0 <= i < |bs| ==> bs[i] == ProcessMsg(inbox[i], tail, subUsers)
  {
    if inbox == [] then []
    else Ballots(inbox[..|inbox| - 1], tail, subUsers) + [ProcessMsg(inbox[|inbox| - 1], tail, subUsers)]
  }

  /** The local variables of the counting loop; an empty `result` is the nil hash. */
  datatype Count = Running(voters: set<Key>, counts: map<int, nat>, result: Hash) | Crashed

  function Lookup(counts: map<int, nat>, index: int): nat {
    if index in counts then counts[index] else 0
  }

  predicate Skips(voters: set<Key>, b: Ballot) {
    b.key in voters || b.weight == 0
  }

  function CountOne(c: Count, b: Ballot, threshold: nat): Count {
    if c.Crashed? || Skips(c.voters, b) then c
    else if |b.hash| < 4 then Crashed
    else
      var index := BytesToInt32(b.hash);
      var n := Lookup(c.counts, index) + b.weight;
      Running(c.voters + {b.key}, c.counts[index := n], if n >= threshold then b.hash else c.result)
  }

  function CountAll(bs: seq<Ballot>, threshold: nat): Count {
    if bs == [] then Running({}, map[], [])
    else CountOne(CountAll(bs[..|bs| - 1], threshold), bs[|bs| - 1], threshold)
  }

  function OutcomeOf(bs: seq<Ballot>, threshold: nat, timerFired: bool): Outcome {
    if bs == [] then (if timerFired then Timeout else NoQuorum)
    else
      match CountAll(bs, threshold)
      case Crashed => Crash
      case Running(_, _, result) => if result == [] then NoQuorum else Quorum(result)
  }

  /** A signed message on the tail is for this hash and has sub-users. */
  ghost predicate Voted(inbox: seq<VoteMessage>, tail: Hash, subUsers: VoteMessage -> nat, h: Hash) {
    exists m :: m in inbox && m.signed && m.parentHash == tail && subUsers(m) > 0 && m.hash == h
  }

  lemma QuorumVoted(inbox: seq<VoteMessage>, tail: Hash, subUsers: VoteMessage -> nat, threshold: nat,
                    timerFired: bool)
    ensures OutcomeOf(Ballots(inbox, tail, subUsers), threshold, timerFired).Quorum? ==>
      Voted(inbox, tail, subUsers, OutcomeOf(Ballots(inbox, tail, subUsers), threshold, timerFired).hash)
  {
    var bs := Ballots(inbox, tail, subUsers);
    if OutcomeOf(bs, threshold, timerFired).Quorum? {
      ResultVoted(bs, threshold);
      var i :| 0 <= i < |bs| && bs[i].weight > 0 && bs[i].hash == CountAll(bs, threshold).result;
      assert inbox[i] in inbox;
    }
  }

  /** The counting loop. */
  method CountLoop(inbox: seq<VoteMessage>, tail: Hash, subUsers: VoteMessage -> nat, threshold: nat, timerFired: bool)
    returns (o: Outcome)
    ensures o == OutcomeOf(Ballots(inbox, tail, subUsers), threshold, timerFired)
  {
    if |inbox| == 0 {
      return if timerFired then Timeout else NoQuorum;
    }
    ghost var bs := Ballots(inbox, tail, subUsers);
    var voters: set<Key> := {};
    var counts: map<int, nat> := map[];
    var result: Hash := [];
    for i := 0 to |inbox|
      invariant CountAll(bs[..i], threshold) == Running(voters, counts, result)
    {
      var b := ProcessMsg(inbox[i], tail, subUsers);
      CountNext(bs, i, threshold);
      if b.key in voters || b.weight == 0 {
        continue;
      }
      if |b.hash| < 4 {
        CrashStays(bs, i + 1, threshold);
        return Crash;
      }
      voters := voters + {b.key};
      var index := BytesToInt32(b.hash);
      counts := counts[index := Lookup(counts, index) + b.weight];
      if counts[index] >= threshold {
        result := b.hash;
      }
    }
    assert bs[..|inbox|] == bs;
    return if result == [] then NoQuorum else Quorum(result);
  }

  method CountVotes(inbox: seq<VoteMessage>, tail: Hash, subUsers: VoteMessage -> nat, threshold: nat, timerFired: bool)
    returns (o: Outcome)
    ensures o == OutcomeOf(Ballots(inbox, tail, subUsers), threshold, timerFired)
    ensures o.Quorum? ==> Voted(inbox, tail, subUsers, o.hash)
  {
    QuorumVoted(inbox, tail, subUsers, threshold, timerFired);
    o := CountLoop(inbox, tail, subUsers, threshold, timerFired);
  }

  /** The hash returned is that of a usable ballot. */
  lemma {:induction false} ResultVoted(bs: seq<Ballot>, threshold: nat)
    requires CountAll(bs, threshold).Running? && CountAll(bs, threshold).result != []
    ensures exists i :: 0 <= i < |bs| && bs[i].weight > 0 && bs[i].hash == CountAll(bs, threshold).result
  {
    var front, h := bs[..|bs| - 1], CountAll(bs, threshold).result;
    if CountAll(front, threshold).result == h {
      ResultVoted(front, threshold);
      var i :| 0 <= i < |front| && front[i].weight > 0 && front[i].hash == h;
      assert bs[i] == front[i];
    } else {
      assert bs[|bs| - 1].hash == h;
    }
  }

  lemma CountNext(bs: seq<Ballot>, i: nat, threshold: nat)
    requires i < |bs|
    ensures CountAll(bs[..i + 1], threshold) == CountOne(CountAll(bs[..i], threshold), bs[i], threshold)
  {
    assert bs[..i + 1][..i] == bs[..i];
  }

  lemma {:induction false} CrashStays(bs: seq<Ballot>, i: nat, threshold: nat)
    requires i <= |bs| && CountAll(bs[..i], threshold).Crashed?
    ensures CountAll(bs, threshold).Crashed?
    decreases |bs|
  {
    if i < |bs| {
      assert bs[..|bs| - 1][..i] == bs[..i];
      CrashStays(bs[..|bs| - 1], i, threshold);
    } else {
      assert bs[..i] == bs;
    }
  }

  // ---------------------------------------------------------------- what the loop counts

  /** Every key with a usable ballot. */
  ghost function Voters(bs: seq<Ballot>): set<Key> {
    set b | b in bs && b.weight > 0 :: b.key
  }

  predicate Indexes(b: Ballot, index: int) {
    |b.hash| >= 4 && BytesToInt32(b.hash) == index
  }

  /** The keys whose first usable ballot is for a hash with this index. */
  ghost function Supporters(bs: seq<Ballot>, index: int): set<Key> {
    if bs == [] then {} else
      var front, b := bs[..|bs| - 1], bs[|bs| - 1];
      if !Skips(Voters(front), b) && Indexes(b, index)
      then Supporters(front, index) + {b.key}
      else Supporters(front, index)
  }

  ghost predicate WeighedBy(bs: seq<Ballot>, w: Key -> nat) {
    forall b :: b in bs && b.weight > 0 ==> b.weight == w(b.key)
  }

  lemma VotersSnoc(bs: seq<Ballot>, b: Ballot)
    ensures Voters(bs + [b]) == if b.weight > 0 then Voters(bs) + {b.key} else Voters(bs)
  {
    forall k | k in Voters(bs + [b])
      ensures k in Voters(bs) || (b.weight > 0 && k == b.key)
    {
      var x :| x in bs + [b] && x.weight > 0 && x.key == k;
      assert x in bs || x == b;
    }
    forall k | k in Voters(bs)
      ensures k in Voters(bs + [b])
    {
      var x :| x in bs && x.weight > 0 && x.key == k;
      assert x in bs + [b];
    }
    assert b in bs + [b];
  }

  lemma {:induction false} SupportersVote(bs: seq<Ballot>, index: int)
    ensures Supporters(bs, index) <= Voters(bs)
  {
    if bs != [] {
      var front, b := bs[..|bs| - 1], bs[|bs| - 1];
      assert bs == front + [b];
      VotersSnoc(front, b);
      SupportersVote(front, index);
    }
  }

  lemma {:induction false} SupporterSpoke(bs: seq<Ballot>, index: int, k: Key)
    requires k in Supporters(bs, index)
    ensures exists b :: b in bs && b.weight > 0 && b.key == k && Indexes(b, index)
  {
    var front, b := bs[..|bs| - 1], bs[|bs| - 1];
    if k in Supporters(front, index) {
      SupporterSpoke(front, index, k);
      var c :| c in front && c.weight > 0 && c.key == k && Indexes(c, index);
      assert c in bs;
    }
  }

  /** Each key counts once: a counter is the summed weight of its distinct supporters. */
  lemma {:induction false} CountsAreDistinctWeights(bs: seq<Ballot>, threshold: nat, w: Key -> nat, index: int)
    requires WeighedBy(bs, w) && CountAll(bs, threshold).Running?
    ensures CountAll(bs, threshold).voters == Voters(bs)
    ensures Lookup(CountAll(bs, threshold).counts, index) == Sum(Supporters(bs, index), w)
  {
    if bs != [] {
      var front, b := bs[..|bs| - 1], bs[|bs| - 1];
      assert bs == front + [b];
      VotersSnoc(front, b);
      assert forall x :: x in front ==> x in bs;
      CountsAreDistinctWeights(front, threshold, w, index);
      SupportersVote(front, index);
      if !Skips(Voters(front), b) && Indexes(b, index) {
        SumAdd(Supporters(front, index), b.key, w);
      }
    }
  }

  /** A returned hash was voted for, and the distinct keys behind its index reach the threshold. */
  lemma {:induction false} QuorumHasWeight(bs: seq<Ballot>, threshold: nat, w: Key -> nat)
    requires WeighedBy(bs, w) && CountAll(bs, threshold).Running?
    ensures var h := CountAll(bs, threshold).result;
      h != [] ==>
        && |h| >= 4
        && (exists b :: b in bs && b.weight > 0 && b.hash == h)
        && Sum(Supporters(bs, BytesToInt32(h)), w) >= threshold
  {
    if bs != [] {
      var front, b := bs[..|bs| - 1], bs[|bs| - 1];
      var h := CountAll(bs, threshold).result;
      assert forall x :: x in front ==> x in bs;
      QuorumHasWeight(front, threshold, w);
      if h != [] {
        CountsAreDistinctWeights(bs, threshold, w, BytesToInt32(h));
        CountsAreDistinctWeights(front, threshold, w, BytesToInt32(h));
        if CountAll(front, threshold).result == h {
          SumSubset(Supporters(front, BytesToInt32(h)), Supporters(bs, BytesToInt32(h)), w);
        }
      }
    }
  }

  /** No weight is above its key's bound, whatever it is for this receiver and this message. */
  ghost predicate WeighedUpTo(bs: seq<Ballot>, w: Key -> nat) {
    forall b :: b in bs && b.weight > 0 ==> b.weight <= w(b.key)
  }

  lemma {:induction false} CountsUpToWeights(bs: seq<Ballot>, threshold: nat, w: Key -> nat, index: int)
    requires WeighedUpTo(bs, w) && CountAll(bs, threshold).Running?
    ensures CountAll(bs, threshold).voters == Voters(bs)
    ensures Lookup(CountAll(bs, threshold).counts, index) <= Sum(Supporters(bs, index), w)
  {
    if bs != [] {
      var front, b := bs[..|bs| - 1], bs[|bs| - 1];
      assert bs == front + [b];
      VotersSnoc(front, b);
      CountsUpToWeights(front, threshold, w, index);
      SupportersVote(front, index);
      if !Skips(Voters(front), b) && Indexes(b, index) {
        SumAdd(Supporters(front, index), b.key, w);
      }
    }
  }

  /** Even if every message is weighed anew, a returned hash has distinct keys behind its index whose
      bounds reach the threshold. */
  lemma {:induction false} QuorumNeedsWeight(bs: seq<Ballot>, threshold: nat, w: Key -> nat)
    requires WeighedUpTo(bs, w) && CountAll(bs, threshold).Running?
    ensures var h := CountAll(bs, threshold).result;
      h != [] ==>
        && |h| >= 4
        && (exists b :: b in bs && b.weight > 0 && b.hash == h)
        && Sum(Supporters(bs, BytesToInt32(h)), w) >= threshold
  {
    if bs != [] {
      var front, b := bs[..|bs| - 1], bs[|bs| - 1];
      var h := CountAll(bs, threshold).result;
      assert forall x :: x in front ==> x in bs;
      QuorumNeedsWeight(front, threshold, w);
      if h != [] {
        CountsUpToWeights(bs, threshold, w, BytesToInt32(h));
        CountsUpToWeights(front, threshold, w, BytesToInt32(h));
        if CountAll(front, threshold).result == h {
          SumSubset(Supporters(front, BytesToInt32(h)), Supporters(bs, BytesToInt32(h)), w);
        }
      }
    }
  }

  /** If some index reaches a positive threshold, some hash is returned. */
  lemma {:induction false} WeightGivesQuorum(bs: seq<Ballot>, threshold: nat, w: Key -> nat, index: int)
    requires WeighedBy(bs, w) && CountAll(bs, threshold).Running? && threshold > 0
    requires Sum(Supporters(bs, index), w) >= threshold
    ensures CountAll(bs, threshold).result != []
  {
    if bs != [] {
      var front, b := bs[..|bs| - 1], bs[|bs| - 1];
      assert forall x :: x in front ==> x in bs;
      CountsAreDistinctWeights(bs, threshold, w, index);
      CountsAreDistinctWeights(front, threshold, w, index);
      if Sum(Supporters(front, index), w) >= threshold {
        WeightGivesQuorum(front, threshold, w, index);
      }
    }
  }

  // ---------------------------------------------------------------- order of arrival

  /** All usable messages of one key carry the same hash and weight. */
  ghost predicate Agrees(bs: seq<Ballot>, hashOf: Key -> Hash, w: Key -> nat) {
    forall b :: b in bs && b.weight > 0 ==> b.hash == hashOf(b.key) && b.weight == w(b.key)
  }

  /** The hashes voted for are long enough and told apart by their first four bytes. */
  ghost predicate Distinguishable(bs: seq<Ballot>) {
    && (forall b :: b in bs && b.weight > 0 ==> |b.hash| >= 4)
    && (forall b, c :: b in bs && c in bs && b.weight > 0 && c.weight > 0 && b.hash[..4] == c.hash[..4] ==>
          b.hash == c.hash)
  }

  ghost function Backers(bs: seq<Ballot>, hashOf: Key -> Hash, h: Hash): set<Key> {
    set k | k in Voters(bs) && hashOf(k) == h
  }

  ghost predicate Reaches(bs: seq<Ballot>, hashOf: Key -> Hash, w: Key -> nat, threshold: nat, h: Hash) {
    Sum(Backers(bs, hashOf, h), w) >= threshold
  }

  ghost predicate AtMostOneReaches(bs: seq<Ballot>, hashOf: Key -> Hash, w: Key -> nat, threshold: nat) {
    forall b, c :: b in bs && c in bs && b.weight > 0 && c.weight > 0
      && Reaches(bs, hashOf, w, threshold, b.hash) && Reaches(bs, hashOf, w, threshold, c.hash)
      ==> b.hash == c.hash
  }

  ghost predicate SameInEveryOrder(bs: seq<Ballot>, threshold: nat, timerFired: bool) {
    forall cs :: multiset(cs) == multiset(bs) ==>
      OutcomeOf(cs, threshold, timerFired) == OutcomeOf(bs, threshold, timerFired)
  }

  lemma {:induction false} NoCrash(bs: seq<Ballot>, threshold: nat)
    requires forall b :: b in bs && b.weight > 0 ==> |b.hash| >= 4
    ensures CountAll(bs, threshold).Running?
  {
    if bs != [] {
      assert forall b :: b in bs[..|bs| - 1] ==> b in bs;
      NoCrash(bs[..|bs| - 1], threshold);
    }
  }

  lemma {:induction false} SupportersByIndex(bs: seq<Ballot>, hashOf: Key -> Hash, w: Key -> nat, index: int)
    requires Agrees(bs, hashOf, w) && forall b :: b in bs && b.weight > 0 ==> |b.hash| >= 4
    ensures forall k ::
      k in Supporters(bs, index) <==> (k in Voters(bs) && |hashOf(k)| >= 4 && BytesToInt32(hashOf(k)) == index)
  {
    if bs != [] {
      var front, b := bs[..|bs| - 1], bs[|bs| - 1];
      assert bs == front + [b];
      assert forall x :: x in front ==> x in bs;
      VotersSnoc(front, b);
      SupportersByIndex(front, hashOf, w, index);
    }
  }

  lemma SupportersAreBackers(bs: seq<Ballot>, hashOf: Key -> Hash, w: Key -> nat, b: Ballot)
    requires Agrees(bs, hashOf, w) && Distinguishable(bs)
    requires b in bs && b.weight > 0
    ensures Supporters(bs, BytesToInt32(b.hash)) == Backers(bs, hashOf, b.hash)
  {
    SupportersByIndex(bs, hashOf, w, BytesToInt32(b.hash));
    forall k | k in Voters(bs)
      ensures (|hashOf(k)| >= 4 && BytesToInt32(hashOf(k)) == BytesToInt32(b.hash)) <==> hashOf(k) == b.hash
    {
      var c :| c in bs && c.weight > 0 && c.key == k;
      IndexIsPrefix(c.hash, b.hash);
    }
  }

  /** What the outcome says once the keys agree and the hashes are distinguishable. */
  lemma OutcomeMeaning(bs: seq<Ballot>, threshold: nat, timerFired: bool, hashOf: Key -> Hash, w: Key -> nat)
    requires Agrees(bs, hashOf, w) && Distinguishable(bs) && threshold > 0
    ensures match OutcomeOf(bs, threshold, timerFired)
      case Timeout => bs == [] && timerFired
      case Crash => false
      case Quorum(h) => Reaches(bs, hashOf, w, threshold, h) && exists b :: b in bs && b.weight > 0 && b.hash == h
      case NoQuorum => forall b :: b in bs && b.weight > 0 ==> !Reaches(bs, hashOf, w, threshold, b.hash)
  {
    if bs != [] {
      NoCrash(bs, threshold);
      QuorumHasWeight(bs, threshold, w);
      var h := CountAll(bs, threshold).result;
      if h != [] {
        var b :| b in bs && b.weight > 0 && b.hash == h;
        SupportersAreBackers(bs, hashOf, w, b);
      } else {
        forall b | b in bs && b.weight > 0
          ensures !Reaches(bs, hashOf, w, threshold, b.hash)
        {
          SupportersAreBackers(bs, hashOf, w, b);
          if Reaches(bs, hashOf, w, threshold, b.hash) {
            WeightGivesQuorum(bs, threshold, w, BytesToInt32(b.hash));
          }
        }
      }
    }
  }

  lemma Permuted(bs: seq<Ballot>, cs: seq<Ballot>)
    requires multiset(bs) == multiset(cs)
    ensures forall b :: b in bs <==> b in cs
    ensures |bs| == |cs| && Voters(bs) == Voters(cs)
  {
    assert |multiset(bs)| == |multiset(cs)|;
    forall b
      ensures b in bs <==> b in cs
    {
      assert b in bs <==> b in multiset(bs);
      assert b in cs <==> b in multiset(cs);
    }
  }

  lemma OneWinnerOrderIrrelevant(bs: seq<Ballot>, cs: seq<Ballot>, threshold: nat, timerFired: bool,
                                 hashOf: Key -> Hash, w: Key -> nat)
    requires Agrees(bs, hashOf, w) && Distinguishable(bs) && threshold > 0
    requires AtMostOneReaches(bs, hashOf, w, threshold)
    requires multiset(bs) == multiset(cs)
    ensures OutcomeOf(cs, threshold, timerFired) == OutcomeOf(bs, threshold, timerFired)
  {
    Permuted(bs, cs);
    assert forall h :: Backers(bs, hashOf, h) == Backers(cs, hashOf, h);
    OutcomeMeaning(bs, threshold, timerFired, hashOf, w);
    OutcomeMeaning(cs, threshold, timerFired, hashOf, w);
  }

  function Having(bs: seq<Ballot>, h: Hash, yes: bool): seq<Ballot> {
    if bs == [] then [] else
      var front, b := Having(bs[..|bs| - 1], h, yes), bs[|bs| - 1];
      if (b.weight > 0 && b.hash == h) == yes then front + [b] else front
  }

  lemma {:induction false} HavingSplits(bs: seq<Ballot>, h: Hash)
    ensures multiset(Having(bs, h, false) + Having(bs, h, true)) == multiset(bs)
    ensures forall b :: b in Having(bs, h, true) ==> b.weight > 0 && b.hash == h
    ensures forall b :: b in Having(bs, h, false) ==> !(b.weight > 0 && b.hash == h)
  {
    if bs != [] {
      var front, b := bs[..|bs| - 1], bs[|bs| - 1];
      HavingSplits(front, h);
      assert bs == front + [b];
      assert multiset(bs) == multiset(front) + multiset{b};
    }
  }

  /** With its voters last, a hash that reaches the threshold is the one returned. */
  lemma {:induction false} LastVotersWin(early: seq<Ballot>, late: seq<Ballot>, threshold: nat,
                                         hashOf: Key -> Hash, w: Key -> nat, h: Hash)
    requires Agrees(early + late, hashOf, w) && threshold > 0 && |h| >= 4
    requires forall b :: b in early + late && b.weight > 0 ==> |b.hash| >= 4
    requires forall b :: b in late ==> b.weight > 0 && b.hash == h
    requires Supporters(early, BytesToInt32(h)) == {}
    requires Sum(Supporters(early + late, BytesToInt32(h)), w) >= threshold
    ensures CountAll(early + late, threshold).Running? && CountAll(early + late, threshold).result == h
    decreases |late|
  {
    var bs := early + late;
    NoCrash(bs, threshold);
    if bs == early {
      assert false;
    } else {
      var front, b := bs[..|bs| - 1], bs[|bs| - 1];
      var less := late[..|late| - 1];
      assert front == early + less;
      assert forall x :: x in front ==> x in bs;
      CountsAreDistinctWeights(bs, threshold, w, BytesToInt32(h));
      CountsAreDistinctWeights(front, threshold, w, BytesToInt32(h));
      assert b == late[|late| - 1];
      if Skips(Voters(front), b) {
        LastVotersWin(early, less, threshold, hashOf, w, h);
      }
    }
  }

  lemma OrderFor(bs: seq<Ballot>, threshold: nat, timerFired: bool, hashOf: Key -> Hash, w: Key -> nat, b: Ballot)
    returns (cs: seq<Ballot>)
    requires Agrees(bs, hashOf, w) && Distinguishable(bs) && threshold > 0
    requires b in bs && b.weight > 0 && Reaches(bs, hashOf, w, threshold, b.hash)
    ensures multiset(cs) == multiset(bs)
    ensures OutcomeOf(cs, threshold, timerFired) == Quorum(b.hash)
  {
    var h := b.hash;
    var early, late := Having(bs, h, false), Having(bs, h, true);
    cs := early + late;
    HavingSplits(bs, h);
    Permuted(bs, cs);
    SupportersAreBackers(cs, hashOf, w, b);
    assert Backers(cs, hashOf, h) == Backers(bs, hashOf, h);
    assert Supporters(early, BytesToInt32(h)) == {} by {
      assert forall x :: x in early ==> x in cs;
      SupportersByIndex(early, hashOf, w, BytesToInt32(h));
      forall k | k in Supporters(early, BytesToInt32(h))
        ensures false
      {
        var c :| c in early && c.weight > 0 && c.key == k;
        IndexIsPrefix(c.hash, h);
      }
    }
    LastVotersWin(early, late, threshold, hashOf, w, h);
  }

  /** The result depends on the order of arrival exactly when two hashes reach the threshold. */
  lemma OrderIndependentIff(bs: seq<Ballot>, threshold: nat, timerFired: bool, hashOf: Key -> Hash, w: Key -> nat)
    requires Agrees(bs, hashOf, w) && Distinguishable(bs) && threshold > 0
    ensures SameInEveryOrder(bs, threshold, timerFired) <==> AtMostOneReaches(bs, hashOf, w, threshold)
  {
    if AtMostOneReaches(bs, hashOf, w, threshold) {
      forall cs | multiset(cs) == multiset(bs)
        ensures OutcomeOf(cs, threshold, timerFired) == OutcomeOf(bs, threshold, timerFired)
      {
        OneWinnerOrderIrrelevant(bs, cs, threshold, timerFired, hashOf, w);
      }
    } else {
      var b, c :| b in bs && c in bs && b.weight > 0 && c.weight > 0 && b.hash != c.hash
        && Reaches(bs, hashOf, w, threshold, b.hash) && Reaches(bs, hashOf, w, threshold, c.hash);
      var forB := OrderFor(bs, threshold, timerFired, hashOf, w, b);
      var forC := OrderFor(bs, threshold, timerFired, hashOf, w, c);
      assert OutcomeOf(forB, threshold, timerFired) != OutcomeOf(forC, threshold, timerFired);
    }
  }

  /** What a receiver has heard of these votes, in some order. */
  ghost predicate Delivery(cs: seq<Ballot>, bs: seq<Ballot>) {
    multiset(cs) <= multiset(bs)
  }

  /** Receivers of whatever parts of the votes never see two different quorums. */
  ghost predicate QuorumsAgree(bs: seq<Ballot>, threshold: nat, timerFired: bool) {
    forall cs, ds, g, h :: Delivery(cs, bs) && Delivery(ds, bs)
      && OutcomeOf(cs, threshold, timerFired) == Quorum(g) && OutcomeOf(ds, threshold, timerFired) == Quorum(h)
      ==> g == h
  }

  lemma Delivered(cs: seq<Ballot>, bs: seq<Ballot>)
    requires Delivery(cs, bs)
    ensures forall b :: b in cs ==> b in bs
  {
    forall b | b in cs
      ensures b in bs
    {
      assert b in multiset(cs);
    }
  }

  /** A quorum in a part of the votes is one that all of them reach. */
  lemma PartReaches(cs: seq<Ballot>, bs: seq<Ballot>, threshold: nat, timerFired: bool,
                    hashOf: Key -> Hash, w: Key -> nat) returns (b: Ballot)
    requires Agrees(bs, hashOf, w) && Distinguishable(bs) && threshold > 0
    requires Delivery(cs, bs) && OutcomeOf(cs, threshold, timerFired).Quorum?
    ensures b in bs && b.weight > 0 && OutcomeOf(cs, threshold, timerFired) == Quorum(b.hash)
    ensures Reaches(bs, hashOf, w, threshold, b.hash)
  {
    Delivered(cs, bs);
    OutcomeMeaning(cs, threshold, timerFired, hashOf, w);
    var h := OutcomeOf(cs, threshold, timerFired).hash;
    b :| b in cs && b.weight > 0 && b.hash == h;
    SumSubset(Backers(cs, hashOf, h), Backers(bs, hashOf, h), w);
  }

  /** Receivers of different parts of the votes agree on every quorum if and only if at most one hash
      reaches the threshold among all of them. */
  lemma DeliveriesAgreeIff(bs: seq<Ballot>, threshold: nat, timerFired: bool, hashOf: Key -> Hash, w: Key -> nat)
    requires Agrees(bs, hashOf, w) && Distinguishable(bs) && threshold > 0
    ensures QuorumsAgree(bs, threshold, timerFired) <==> AtMostOneReaches(bs, hashOf, w, threshold)
  {
    if AtMostOneReaches(bs, hashOf, w, threshold) {
      forall cs, ds, g, h | Delivery(cs, bs) && Delivery(ds, bs)
          && OutcomeOf(cs, threshold, timerFired) == Quorum(g) && OutcomeOf(ds, threshold, timerFired) == Quorum(h)
        ensures g == h
      {
        var b := PartReaches(cs, bs, threshold, timerFired, hashOf, w);
        var c := PartReaches(ds, bs, threshold, timerFired, hashOf, w);
      }
    } else {
      var b, c :| b in bs && c in bs && b.weight > 0 && c.weight > 0 && b.hash != c.hash
        && Reaches(bs, hashOf, w, threshold, b.hash) && Reaches(bs, hashOf, w, threshold, c.hash);
      var forB := OrderFor(bs, threshold, timerFired, hashOf, w, b);
      var forC := OrderFor(bs, threshold, timerFired, hashOf, w, c);
      assert Delivery(forB, bs) && Delivery(forC, bs);
    }
  }

  /** Less than twice the threshold in total leaves room for one winner only. */
  lemma ScarceWeightOneWinner(bs: seq<Ballot>, threshold: nat, hashOf: Key -> Hash, w: Key -> nat)
    requires Agrees(bs, hashOf, w) && Sum(Voters(bs), w) < 2 * threshold
    ensures AtMostOneReaches(bs, hashOf, w, threshold)
  {
    forall b, c | b in bs && c in bs && b.weight > 0 && c.weight > 0 && b.hash != c.hash
      ensures !Reaches(bs, hashOf, w, threshold, b.hash) || !Reaches(bs, hashOf, w, threshold, c.hash)
    {
      var p, q := Backers(bs, hashOf, b.hash), Backers(bs, hashOf, c.hash);
      SumUnion(p, q, w);
      SumSubset(p + q, Voters(bs), w);
    }
  }

  /** Hashes that share their first four bytes pool their votes: two single votes pass for two. */
  lemma SharedPrefixPoolsVotes(x: Ballot, y: Ballot, timerFired: bool)
    requires x.key != y.key && x.weight == y.weight == 1
    requires |x.hash| >= 4 && |y.hash| >= 4 && x.hash[..4] == y.hash[..4] && x.hash != y.hash
    ensures OutcomeOf([x, y], STEP_QUORUM, timerFired) == Quorum(y.hash)
    ensures OutcomeOf([y, x], STEP_QUORUM, timerFired) == Quorum(x.hash)
  {
    IndexIsPrefix(x.hash, y.hash);
    assert [x, y][..1] == [x] && [y, x][..1] == [y] && [x][..0] == [] && [y][..0] == [];
    assert CountAll([x], 2) == CountOne(CountAll([], 2), x, 2);
    assert CountAll([y], 2) == CountOne(CountAll([], 2), y, 2);
  }

  /** With the shipped threshold two pairs of votes are enough: keys that agree with themselves, for
      hashes told apart, and two receivers that hear one pair each. */
  lemma TwiceThresholdSplits(a: seq<Ballot>, b: seq<Ballot>, g: Hash, h: Hash, timerFired: bool)
    requires |a| == |b| == 2 && |g| >= 4 && |h| >= 4
    requires a[0].key != a[1].key && b[0].key != b[1].key
    requires forall x :: x in a ==> x.weight == 1 && x.hash == g
    requires forall x :: x in b ==> x.weight == 1 && x.hash == h
    ensures OutcomeOf(a, STEP_QUORUM, timerFired) == Quorum(g) && OutcomeOf(b, STEP_QUORUM, timerFired) == Quorum(h)
    ensures g != h ==> !QuorumsAgree(a + b, STEP_QUORUM, timerFired)
    ensures forall hashOf, w :: g != h && Agrees(a + b, hashOf, w) && Distinguishable(a + b) ==>
      !AtMostOneReaches(a + b, hashOf, w, STEP_QUORUM)
  {
    TwoVotesSuffice(a[0], a[1], timerFired);
    TwoVotesSuffice(b[0], b[1], timerFired);
    assert a == [a[0], a[1]] && b == [b[0], b[1]];
    assert Delivery(a, a + b) && Delivery(b, a + b);
    forall hashOf, w | Agrees(a + b, hashOf, w) && Distinguishable(a + b)
      ensures QuorumsAgree(a + b, STEP_QUORUM, timerFired) <==> AtMostOneReaches(a + b, hashOf, w, STEP_QUORUM)
    {
      DeliveriesAgreeIff(a + b, STEP_QUORUM, timerFired, hashOf, w);
    }
  }

  lemma TwoVotesSuffice(x: Ballot, y: Ballot, timerFired: bool)
    requires x.key != y.key && x.weight == y.weight == 1 && x.hash == y.hash && |x.hash| >= 4
    ensures OutcomeOf([x, y], STEP_QUORUM, timerFired) == Quorum(x.hash)
  {
    assert [x, y][..1] == [x] && [x][..0] == [];
    assert CountAll([x], 2) == CountOne(CountAll([], 2), x, 2);
  }
}
