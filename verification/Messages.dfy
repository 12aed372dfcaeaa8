/** What a count makes of the messages it finds (algorand/algorand.go, countVotes and processMsg): which of
    them weigh, and what the ignored ones change. */
module Messages {
  import opened Bytes
  import opened SetSums
  import opened Voting

  /** A message that weighs: signed, on the receiver's tail, with sub-users. */
  predicate Weighs(m: VoteMessage, tail: Hash, subUsers: VoteMessage -> nat) {
    m.signed && m.parentHash == tail && subUsers(m) > 0
  }

  function Weighing(inbox: seq<VoteMessage>, tail: Hash, subUsers: VoteMessage -> nat): seq<VoteMessage> {
    if inbox == [] then []
    else
      var front, last := Weighing(inbox[..|inbox| - 1], tail, subUsers), inbox[|inbox| - 1];
      if Weighs(last, tail, subUsers) then front + [last] else front
  }

  /** A message's ballot: its sub-users for its hash if it weighs, else nothing. */
  lemma BallotOf(m: VoteMessage, tail: Hash, subUsers: VoteMessage -> nat)
    ensures ProcessMsg(m, tail, subUsers).key == m.key
    ensures ProcessMsg(m, tail, subUsers).weight > 0 <==> Weighs(m, tail, subUsers)
    ensures Weighs(m, tail, subUsers) ==> ProcessMsg(m, tail, subUsers) == Ballot(m.key, subUsers(m), m.hash)
  {
  }

  lemma BallotsSnoc(inbox: seq<VoteMessage>, m: VoteMessage, tail: Hash, subUsers: VoteMessage -> nat)
    ensures Ballots(inbox + [m], tail, subUsers) == Ballots(inbox, tail, subUsers) + [ProcessMsg(m, tail, subUsers)]
  {
    assert (inbox + [m])[..|inbox|] == inbox;
  }

  /** Messages that do not weigh leave the count as it is. */
  lemma {:induction false} OthersCountNothing(inbox: seq<VoteMessage>, tail: Hash, subUsers: VoteMessage -> nat,
                                             threshold: nat)
    ensures CountAll(Ballots(inbox, tail, subUsers), threshold)
      == CountAll(Ballots(Weighing(inbox, tail, subUsers), tail, subUsers), threshold)
  {
    if inbox != [] {
      var front, last := inbox[..|inbox| - 1], inbox[|inbox| - 1];
      var few := Weighing(front, tail, subUsers);
      OthersCountNothing(front, tail, subUsers, threshold);
      BallotOf(last, tail, subUsers);
      assert inbox == front + [last];
      BallotsSnoc(front, last, tail, subUsers);
      BallotsSnoc(few, last, tail, subUsers);
      CountSnoc(Ballots(front, tail, subUsers), ProcessMsg(last, tail, subUsers), threshold);
      CountSnoc(Ballots(few, tail, subUsers), ProcessMsg(last, tail, subUsers), threshold);
    }
  }

  lemma CountSnoc(bs: seq<Ballot>, b: Ballot, threshold: nat)
    ensures CountAll(bs + [b], threshold) == CountOne(CountAll(bs, threshold), b, threshold)
  {
    assert (bs + [b])[..|bs|] == bs;
  }

  /** So the outcome is that of the weighing messages alone; without any it is a timeout only if there
      was no message at all and the timer had fired. */
  lemma OthersChangeNothing(inbox: seq<VoteMessage>, tail: Hash, subUsers: VoteMessage -> nat, threshold: nat,
                            timerFired: bool)
    ensures var few := Weighing(inbox, tail, subUsers);
      OutcomeOf(Ballots(inbox, tail, subUsers), threshold, timerFired) ==
      if few != [] then OutcomeOf(Ballots(few, tail, subUsers), threshold, timerFired)
      else if inbox == [] && timerFired then Timeout else NoQuorum
  {
    OthersCountNothing(inbox, tail, subUsers, threshold);
    assert Ballots([], tail, subUsers) == [];
  }

  /** The keys of weighing messages for hashes with the index of `h`. */
  ghost function Speakers(inbox: seq<VoteMessage>, tail: Hash, subUsers: VoteMessage -> nat, h: Hash): set<Key> {
    set m | m in inbox && Weighs(m, tail, subUsers) && |m.hash| >= 4 && |h| >= 4 && m.hash[..4] == h[..4] :: m.key
  }

  /** No message of a key has more sub-users than its bound. */
  ghost predicate Bounded(inbox: seq<VoteMessage>, tail: Hash, subUsers: VoteMessage -> nat, w: Key -> nat) {
    forall m :: m in inbox && Weighs(m, tail, subUsers) ==> subUsers(m) <= w(m.key)
  }

  lemma SupporterSpeaks(inbox: seq<VoteMessage>, tail: Hash, subUsers: VoteMessage -> nat, h: Hash)
    requires |h| >= 4
    ensures Supporters(Ballots(inbox, tail, subUsers), BytesToInt32(h)) <= Speakers(inbox, tail, subUsers, h)
  {
    var bs := Ballots(inbox, tail, subUsers);
    forall k | k in Supporters(bs, BytesToInt32(h))
      ensures k in Speakers(inbox, tail, subUsers, h)
    {
      SupporterSpoke(bs, BytesToInt32(h), k);
      var b :| b in bs && b.weight > 0 && b.key == k && Indexes(b, BytesToInt32(h));
      var m := MessageOf(inbox, tail, subUsers, b);
      IndexIsPrefix(b.hash, h);
    }
  }

  /** A quorum comes from signed messages on the tail: one of them is for the hash, and the keys of those
      that share its first four bytes weigh the threshold. */
  lemma QuorumNeedsMessages(inbox: seq<VoteMessage>, tail: Hash, subUsers: VoteMessage -> nat, threshold: nat,
                            timerFired: bool, h: Hash, w: Key -> nat)
    requires OutcomeOf(Ballots(inbox, tail, subUsers), threshold, timerFired) == Quorum(h)
    requires Bounded(inbox, tail, subUsers, w)
    ensures Voted(inbox, tail, subUsers, h)
    ensures Sum(Speakers(inbox, tail, subUsers, h), w) >= threshold
  {
    var bs := Ballots(inbox, tail, subUsers);
    forall b | b in bs && b.weight > 0
      ensures b.weight <= w(b.key)
    {
      var m := MessageOf(inbox, tail, subUsers, b);
    }
    QuorumVoted(inbox, tail, subUsers, threshold, timerFired);
    QuorumNeedsWeight(bs, threshold, w);
    SupporterSpeaks(inbox, tail, subUsers, h);
    SumSubset(Supporters(bs, BytesToInt32(h)), Speakers(inbox, tail, subUsers, h), w);
  }

  lemma MessageOf(inbox: seq<VoteMessage>, tail: Hash, subUsers: VoteMessage -> nat, b: Ballot) returns (m: VoteMessage)
    requires b in Ballots(inbox, tail, subUsers) && b.weight > 0
    ensures m in inbox && Weighs(m, tail, subUsers) && b == Ballot(m.key, subUsers(m), m.hash)
  {
    var i :| 0 <= i < |inbox| && Ballots(inbox, tail, subUsers)[i] == b;
    m := inbox[i];
    BallotOf(m, tail, subUsers);
  }

  /** The weighing messages of one key carry one hash and one weight. */
  ghost predicate Consistent(inbox: seq<VoteMessage>, tail: Hash, subUsers: VoteMessage -> nat, hashOf: Key -> Hash,
                             w: Key -> nat) {
    forall m :: m in inbox && Weighs(m, tail, subUsers) ==> m.hash == hashOf(m.key) && subUsers(m) == w(m.key)
  }

  /** Their hashes are long enough and told apart by their first four bytes. */
  ghost predicate ToldApart(inbox: seq<VoteMessage>, tail: Hash, subUsers: VoteMessage -> nat) {
    && (forall m :: m in inbox && Weighs(m, tail, subUsers) ==> |m.hash| >= 4)
    && (forall m, n ::
          m in inbox && n in inbox && Weighs(m, tail, subUsers) && Weighs(n, tail, subUsers) ==>
            m.hash[..4] == n.hash[..4] ==> m.hash == n.hash)
  }

  ghost function KeysFor(inbox: seq<VoteMessage>, tail: Hash, subUsers: VoteMessage -> nat, h: Hash): set<Key> {
    set m | m in inbox && Weighs(m, tail, subUsers) && m.hash == h :: m.key
  }

  lemma BackersAreKeys(inbox: seq<VoteMessage>, tail: Hash, subUsers: VoteMessage -> nat, hashOf: Key -> Hash,
                       w: Key -> nat, h: Hash)
    requires Consistent(inbox, tail, subUsers, hashOf, w)
    ensures Backers(Ballots(inbox, tail, subUsers), hashOf, h) == KeysFor(inbox, tail, subUsers, h)
  {
    var bs := Ballots(inbox, tail, subUsers);
    forall k | k in Backers(bs, hashOf, h)
      ensures k in KeysFor(inbox, tail, subUsers, h)
    {
      var b :| b in bs && b.weight > 0 && b.key == k;
      var m := MessageOf(inbox, tail, subUsers, b);
    }
    forall k | k in KeysFor(inbox, tail, subUsers, h)
      ensures k in Backers(bs, hashOf, h)
    {
      var m :| m in inbox && Weighs(m, tail, subUsers) && m.hash == h && m.key == k;
      BallotIn(inbox, tail, subUsers, m);
    }
  }

  lemma BallotIn(inbox: seq<VoteMessage>, tail: Hash, subUsers: VoteMessage -> nat, m: VoteMessage)
    requires m in inbox && Weighs(m, tail, subUsers)
    ensures Ballot(m.key, subUsers(m), m.hash) in Ballots(inbox, tail, subUsers)
  {
    var i :| 0 <= i < |inbox| && inbox[i] == m;
    BallotOf(m, tail, subUsers);
    assert Ballots(inbox, tail, subUsers)[i] == ProcessMsg(m, tail, subUsers);
  }

  lemma BallotsAgree(inbox: seq<VoteMessage>, tail: Hash, subUsers: VoteMessage -> nat, hashOf: Key -> Hash,
                     w: Key -> nat)
    requires Consistent(inbox, tail, subUsers, hashOf, w) && ToldApart(inbox, tail, subUsers)
    ensures Agrees(Ballots(inbox, tail, subUsers), hashOf, w) && Distinguishable(Ballots(inbox, tail, subUsers))
  {
    var bs := Ballots(inbox, tail, subUsers);
    forall b | b in bs && b.weight > 0
      ensures b.hash == hashOf(b.key) && b.weight == w(b.key) && |b.hash| >= 4
    {
      var m := MessageOf(inbox, tail, subUsers, b);
    }
    forall b, c | b in bs && c in bs && b.weight > 0 && c.weight > 0 && b.hash[..4] == c.hash[..4]
      ensures b.hash == c.hash
    {
      var m := MessageOf(inbox, tail, subUsers, b);
      var n := MessageOf(inbox, tail, subUsers, c);
    }
  }

  /** The outcome in terms of the messages, once keys do not contradict themselves and hashes are told
      apart. */
  lemma MessagesDecide(inbox: seq<VoteMessage>, tail: Hash, subUsers: VoteMessage -> nat, threshold: nat,
                       timerFired: bool, hashOf: Key -> Hash, w: Key -> nat)
    requires Consistent(inbox, tail, subUsers, hashOf, w) && ToldApart(inbox, tail, subUsers) && threshold > 0
    ensures match OutcomeOf(Ballots(inbox, tail, subUsers), threshold, timerFired)
      case Timeout => inbox == [] && timerFired
      case Crash => false
      case Quorum(h) =>
        && Sum(KeysFor(inbox, tail, subUsers, h), w) >= threshold
        && Voted(inbox, tail, subUsers, h)
      case NoQuorum =>
        forall m :: m in inbox && Weighs(m, tail, subUsers) ==>
          Sum(KeysFor(inbox, tail, subUsers, m.hash), w) < threshold
  {
    var bs := Ballots(inbox, tail, subUsers);
    BallotsAgree(inbox, tail, subUsers, hashOf, w);
    OutcomeMeaning(bs, threshold, timerFired, hashOf, w);
    match OutcomeOf(bs, threshold, timerFired) {
      case Timeout =>
      case Crash =>
      case Quorum(h) =>
        BackersAreKeys(inbox, tail, subUsers, hashOf, w, h);
        var b :| b in bs && b.weight > 0 && b.hash == h;
        var m := MessageOf(inbox, tail, subUsers, b);
      case NoQuorum =>
        forall m | m in inbox && Weighs(m, tail, subUsers)
          ensures Sum(KeysFor(inbox, tail, subUsers, m.hash), w) < threshold
        {
          BackersAreKeys(inbox, tail, subUsers, hashOf, w, m.hash);
          BallotIn(inbox, tail, subUsers, m);
        }
    }
  }

  /** Weighing messages for one hash whose keys weigh the threshold make that quorum, whatever else is in
      the inbox. */
  lemma MessagesMakeQuorum(inbox: seq<VoteMessage>, tail: Hash, subUsers: VoteMessage -> nat, threshold: nat,
                           timerFired: bool, h: Hash, w: Key -> nat)
    requires |h| >= 4 && threshold > 0
    requires forall m :: m in inbox && Weighs(m, tail, subUsers) ==> m.hash == h && subUsers(m) == w(m.key)
    ensures OutcomeOf(Ballots(inbox, tail, subUsers), threshold, timerFired) == Quorum(h)
      <==> Sum(KeysFor(inbox, tail, subUsers, h), w) >= threshold
  {
    var hashOf := (k: Key) => h;
    MessagesDecide(inbox, tail, subUsers, threshold, timerFired, hashOf, w);
    if Sum(KeysFor(inbox, tail, subUsers, h), w) >= threshold {
      assert KeysFor(inbox, tail, subUsers, h) != {};
    }
  }

  function OneEach(m: VoteMessage): nat {
    1
  }

  /** Two signed votes on the tail pass a threshold of two; on another chain they pass nothing. */
  lemma TwoMessages(x: VoteMessage, y: VoteMessage, tail: Hash, timerFired: bool)
    requires x.key != y.key && x.signed && y.signed && x.hash == y.hash && |x.hash| >= 4
    requires x.parentHash == y.parentHash
    ensures OutcomeOf(Ballots([x, y], tail, OneEach), STEP_QUORUM, timerFired)
      == if x.parentHash == tail then Quorum(x.hash) else NoQuorum
  {
    var inbox, w := [x, y], (k: Key) => 1;
    if x.parentHash == tail {
      var keys := KeysFor(inbox, tail, OneEach, x.hash);
      assert x in inbox && y in inbox && x.key in keys && y.key in keys;
      SumSubset({x.key, y.key}, keys, w);
      SumRemove({x.key, y.key}, x.key, w);
      SumRemove({x.key, y.key} - {x.key}, y.key, w);
      MessagesMakeQuorum(inbox, tail, OneEach, STEP_QUORUM, timerFired, x.hash, w);
    } else {
      OthersChangeNothing(inbox, tail, OneEach, STEP_QUORUM, timerFired);
      assert inbox[..1] == [x] && [x][..0] == [];
      assert Weighing([x], tail, OneEach) == [];
    }
  }
}
