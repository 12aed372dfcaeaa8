/** Exactly when two nodes can decide two different blocks. */
module DecisionRuns {
  import opened Folds
  import opened Voting
  import opened Agreement
  import opened Consensus
  import opened Finality
  import opened FinalRuns
  import opened Reductions
  import opened Decisions

  /** The holders of a block carry it at this step, by themselves or with all who see their quorum one step
      before. */
  ghost predicate Carries(rd: Round, holders: set<Key>, all: set<Key>, s: int) {
    Heavy(rd, holders, s) || (s >= 3 && Heavy(rd, holders, s - 1) && Heavy(rd, all, s))
  }

  ghost predicate OddStep(s: int) {
    1 <= s <= 11 && s % 2 == 1
  }

  /** Reduction can divide between g and h; the holders `x` of g carry it at step s, and the holders `y` of h
      carry that at step t, later without the node `a` that has decided g. */
  ghost predicate Parts(rd: Round, g: Hash, h: Hash, x: set<Key>, y: set<Key>, a: Key, s: int, t: int) {
    && (exists u, v :: Divides(rd, g, h, u, v))
    && x <= rd.honest && y <= rd.honest && x !! y && OddStep(s) && OddStep(t) && s <= t
    && Carries(rd, x, rd.honest, s)
    && if s == t then Carries(rd, y, rd.honest, t)
       else a in rd.honest && Carries(rd, y - {a}, rd.honest - {a}, t)
  }

  ghost predicate CanPart(rd: Round) {
    exists g, h, x, y, a, s, t :: Parts(rd, g, h, x, y, a, s, t)
  }

  // ---------------------------------------------------------------- two decisions need that

  ghost predicate Sound(rd: Round, w: World) {
    && Minority(rd)
    && forall u :: Open(u) ==> Inv(rd, w) && InOrder(w) && FirstVotes(rd, w) && OneSecondVote(w) && Grounded(rd, w)
  }

  lemma ReachedGrounded(rd: Round, w: World)
    requires PrefixesDistinct(rd.universe) && Minority(rd) && rd.empty != [] && Reached(rd, w)
    ensures Grounded(rd, w)
  {
    StartTraced(rd);
    StartGrounded(rd);
    assert Open(0);
    var events :| Run(rd, Start(rd), events) == w;
    RunKeepsGrounded(rd, Start(rd), events);
  }

  lemma ReachedSound(rd: Round, w: World)
    requires PrefixesDistinct(rd.universe) && Minority(rd) && rd.empty != [] && Reached(rd, w)
    ensures Sound(rd, w)
  {
    ReachedInv(rd, w);
    ReachedTraced(rd, w);
    ReachedBoth(rd, w);
    ReachedGrounded(rd, w);
  }

  /** The first to decide a block. */
  lemma {:induction false} FirstDecider(w: World, v: Hash, k: Key, s: int) returns (j: Key, t: int)
    requires DecidedAt(w, k, v, s)
    ensures DecidedAt(w, j, v, t) && !SomeDecided(w, v, t - 1)
    decreases s
  {
    j, t := k, s;
    if SomeDecided(w, v, s - 1) {
      var i, r :| DecidedAt(w, i, v, r) && r <= s - 1;
      j, t := FirstDecider(w, v, i, r);
    }
  }

  lemma NoneBefore(w: World, v: Hash, less: int, most: int)
    requires !SomeDecided(w, v, most) && less <= most
    ensures !SomeDecided(w, v, less)
  {
  }

  lemma FirstHash(rd: Round, w: World, k: Key, v: Hash)
    requires Sound(rd, w) && (k, 1, v) in w.log
    ensures k in w.nodes && w.nodes[k].hash == v
    ensures IsBlock(rd, v) ==> Backed(rd, w.log, REDUCTION_TWO, v)
  {
    assert Open(0);
    assert (k, 1, v).1 == 1;
  }

  lemma SecondOnce(rd: Round, w: World, k: Key, g: Hash, h: Hash)
    requires Sound(rd, w) && (k, REDUCTION_TWO, g) in w.log && (k, REDUCTION_TWO, h) in w.log
    ensures g == h
  {
    assert Open(0);
    assert (k, REDUCTION_TWO, g).1 == REDUCTION_TWO;
  }

  lemma SecondCommon(rd: Round, w: World, k: Key, v: Hash)
    requires Sound(rd, w) && (k, REDUCTION_TWO, v) in w.log && IsBlock(rd, v)
    ensures Common(rd, v)
  {
    assert Open(0);
    assert (k, REDUCTION_TWO, v).1 == REDUCTION_TWO;
  }

  /** Who holds a block has voted for it at step 1. */
  lemma HolderVoted(rd: Round, w: World, k: Key, v: Hash)
    requires Sound(rd, w) && k in rd.honest && k in w.nodes && w.nodes[k].hash == v && v != []
    ensures k in Casters(rd, w.log, 1, v)
  {
    assert Open(0);
  }

  lemma EvenVoter(rd: Round, w: World, k: Key, t: int, v: Hash)
    requires Sound(rd, w) && IsBlock(rd, v) && 2 <= t <= 12 && t % 2 == 0 && !SomeDecided(w, v, t - 1)
    requires k in Casters(rd, w.log, t, v)
    ensures k in Casters(rd, w.log, 1, v)
  {
    assert Open(0);
    assert BlockVote(rd, w, (k, t, v));
  }

  lemma HeldVoted(rd: Round, w: World, t: int, v: Hash)
    requires Sound(rd, w) && v != []
    ensures Held(rd, w, t, v) <= Casters(rd, w.log, 1, v)
  {
    forall k | k in Held(rd, w, t, v)
      ensures k in Casters(rd, w.log, 1, v)
    {
      HolderVoted(rd, w, k, v);
    }
  }

  /** Before anybody has decided a block, votes for it at an even step are its holders'. */
  lemma EvenVotesHeld(rd: Round, w: World, v: Hash, t: int)
    requires Sound(rd, w) && IsBlock(rd, v) && 2 <= t <= 12 && t % 2 == 0 && !SomeDecided(w, v, t - 1)
    ensures Casters(rd, w.log, t, v) <= Casters(rd, w.log, 1, v)
  {
    forall k | k in Casters(rd, w.log, t, v)
      ensures k in Casters(rd, w.log, 1, v)
    {
      EvenVoter(rd, w, k, t, v);
    }
  }

  lemma SoundRests(rd: Round, w: World, t: int, v: Hash)
    requires Sound(rd, w) && Backed(rd, w.log, t, v) && IsBlock(rd, v) && 3 <= t <= 15 && t % 2 == 1
    requires !SomeDecided(w, v, t - 1)
    ensures Backed(rd, w.log, t - 1, v) || Heavy(rd, Held(rd, w, t, v), t)
  {
    assert Open(0);
    QuorumRests(rd, w, t, v);
  }

  lemma QuorumCarried(rd: Round, w: World, v: Hash, s: int, out: set<Key>)
    requires Sound(rd, w) && IsBlock(rd, v) && OddStep(s) && Backed(rd, w.log, s, v) && !SomeDecided(w, v, s - 1)
    requires out !! Casters(rd, w.log, s, v) && (s > 1 ==> out !! Casters(rd, w.log, s - 1, v))
    ensures Carries(rd, Casters(rd, w.log, 1, v) - out, rd.honest - out, s)
  {
    var holders, casters := Casters(rd, w.log, 1, v) - out, Casters(rd, w.log, s, v);
    if s == 1 {
      HeavyGrows(rd, casters, holders, 1);
    } else {
      HeavyGrows(rd, casters, rd.honest - out, s);
      SoundRests(rd, w, s, v);
      if Backed(rd, w.log, s - 1, v) {
        NoneBefore(w, v, s - 2, s - 1);
        EvenVotesHeld(rd, w, v, s - 1);
        HeavyGrows(rd, Casters(rd, w.log, s - 1, v), holders, s - 1);
      } else {
        HeldVoted(rd, w, s, v);
        HeavyGrows(rd, Held(rd, w, s, v), holders, s);
      }
    }
  }

  lemma DeciderAt(rd: Round, w: World, k: Key)
    requires Sound(rd, w) && k in w.nodes && Decided(w.nodes[k])
    ensures DecidedAt(w, k, w.nodes[k].r, w.nodes[k].step)
  {
    assert Open(0);
  }

  /** A quorum that a decider saw; it votes for nothing else later. */
  lemma DeciderSaw(rd: Round, w: World, k: Key, v: Hash, s: int)
    requires Sound(rd, w) && DecidedAt(w, k, v, s) && IsBlock(rd, v)
    ensures OddStep(s) && Backed(rd, w.log, s, v)
    ensures forall t, u :: s < t <= 15 && u != v ==> k !in Casters(rd, w.log, t, u)
  {
    assert Open(0);
    forall t, u | s < t <= 15 && u != v
      ensures k !in Casters(rd, w.log, t, u)
    {
      assert (k, t, u).0 == k;
    }
  }

  lemma BlocksDivide(rd: Round, w: World, g: Hash, h: Hash, i: Key, j: Key)
    requires Sound(rd, w) && IsBlock(rd, g) && IsBlock(rd, h) && g != h
    requires i in Casters(rd, w.log, 1, g) && j in Casters(rd, w.log, 1, h)
    ensures exists u, v :: Divides(rd, g, h, u, v)
  {
    FirstHash(rd, w, i, g);
    FirstHash(rd, w, j, h);
    var u, v := Casters(rd, w.log, REDUCTION_TWO, g), Casters(rd, w.log, REDUCTION_TWO, h);
    var k := SomeCaster(rd, w.log, REDUCTION_TWO, g);
    var l := SomeCaster(rd, w.log, REDUCTION_TWO, h);
    SecondCommon(rd, w, k, g);
    SecondCommon(rd, w, l, h);
    forall m | m in u
      ensures m !in v
    {
      if m in v {
        SecondOnce(rd, w, m, g, h);
      }
    }
    assert Divides(rd, g, h, u, v);
  }

  lemma HoldersApart(rd: Round, w: World, g: Hash, h: Hash)
    requires Sound(rd, w) && g != h
    ensures Casters(rd, w.log, 1, g) !! Casters(rd, w.log, 1, h)
  {
    forall k | k in Casters(rd, w.log, 1, g)
      ensures k !in Casters(rd, w.log, 1, h)
    {
      FirstHash(rd, w, k, g);
      if (k, 1, h) in w.log {
        FirstHash(rd, w, k, h);
      }
    }
  }

  lemma SomeCarries(rd: Round, holders: set<Key>, all: set<Key>, s: int) returns (k: Key)
    requires Minority(rd) && Carries(rd, holders, all, s)
    ensures k in holders
  {
    k := SomeHeavy(rd, holders, if Heavy(rd, holders, s) then s else s - 1);
  }

  lemma SecondCarried(rd: Round, w: World, g: Hash, h: Hash, a: Key, b: Key, s: int, t: int)
    requires Sound(rd, w) && IsBlock(rd, g) && IsBlock(rd, h) && g != h && s < t
    requires DecidedAt(w, a, g, s) && DecidedAt(w, b, h, t) && !SomeDecided(w, h, t - 1)
    ensures a in w.nodes && Carries(rd, Casters(rd, w.log, 1, h) - {a}, rd.honest - {a}, t)
  {
    DeciderSaw(rd, w, a, g, s);
    DeciderSaw(rd, w, b, h, t);
    QuorumCarried(rd, w, h, t, {a});
  }

  lemma AllCarried(rd: Round, w: World, a: Key, v: Hash, s: int)
    requires Sound(rd, w) && IsBlock(rd, v) && DecidedAt(w, a, v, s) && !SomeDecided(w, v, s - 1)
    ensures OddStep(s) && Carries(rd, Casters(rd, w.log, 1, v), rd.honest, s)
  {
    DeciderSaw(rd, w, a, v, s);
    QuorumCarried(rd, w, v, s, {});
    assert Casters(rd, w.log, 1, v) - {} == Casters(rd, w.log, 1, v) && rd.honest - {} == rd.honest;
  }

  lemma PartTrace(rd: Round, w: World, g: Hash, h: Hash, a: Key, b: Key, s: int, t: int)
    requires Sound(rd, w) && IsBlock(rd, g) && IsBlock(rd, h) && g != h && s <= t && w.nodes.Keys == rd.honest
    requires DecidedAt(w, a, g, s) && !SomeDecided(w, g, s - 1) && DecidedAt(w, b, h, t) && !SomeDecided(w, h, t - 1)
    ensures CanPart(rd)
  {
    var x, y := Casters(rd, w.log, 1, g), Casters(rd, w.log, 1, h);
    AllCarried(rd, w, a, g, s);
    AllCarried(rd, w, b, h, t);
    if s < t {
      SecondCarried(rd, w, g, h, a, b, s, t);
    }
    var i := SomeCarries(rd, x, rd.honest, s);
    var j := SomeCarries(rd, y, rd.honest, t);
    BlocksDivide(rd, w, g, h, i, j);
    HoldersApart(rd, w, g, h);
    assert Parts(rd, g, h, x, y, a, s, t);
  }

  lemma PartIfNot(rd: Round, w: World, a: Key, b: Key)
    requires Sound(rd, w) && a in w.nodes && b in w.nodes && Decided(w.nodes[a]) && Decided(w.nodes[b])
    requires w.nodes.Keys == rd.honest && w.nodes[a].r != w.nodes[b].r
    requires IsBlock(rd, w.nodes[a].r) && IsBlock(rd, w.nodes[b].r)
    ensures CanPart(rd)
  {
    var g, h := w.nodes[a].r, w.nodes[b].r;
    DeciderAt(rd, w, a);
    DeciderAt(rd, w, b);
    var i, s := FirstDecider(w, g, a, w.nodes[a].step);
    var j, t := FirstDecider(w, h, b, w.nodes[b].step);
    if s <= t {
      PartTrace(rd, w, g, h, i, j, s, t);
    } else {
      PartTrace(rd, w, h, g, j, i, t, s);
    }
  }

  // ---------------------------------------------------------------- runs with two decisions

  /** The nodes `y` hold h, the others g. */
  function Side(g: Hash, h: Hash, y: set<Key>, k: Key): Hash {
    if k in y then h else g
  }

  /** These nodes wait in a stage of a step with the block they hold, having voted for it. */
  ghost predicate Wait(rd: Round, w: World, live: set<Key>, g: Hash, h: Hash, y: set<Key>, stage: nat, s: nat) {
    && w.nodes.Keys == rd.honest && live <= rd.honest
    && forall k :: k in live ==>
      && w.nodes[k] == Node(AwaitStage(stage), s, Side(g, h, y, k), Side(g, h, y, k))
      && (k, s, Side(g, h, y, k)) in w.log
  }

  ghost predicate SameOutside(w: World, w': World, live: set<Key>) {
    w'.nodes.Keys == w.nodes.Keys && w.log <= w'.log
    && forall k :: k in w.nodes && k !in live ==> w'.nodes[k] == w.nodes[k]
  }

  lemma BothBacked(rd: Round, g: Hash, h: Hash, u: set<Key>, v: set<Key>) returns (w: World)
    requires Minority(rd) && Divides(rd, g, h, u, v)
    ensures Reached(rd, w) && w.nodes.Keys == rd.honest && forall k :: k in rd.honest ==> w.nodes[k].phase.AwaitTwo?
    ensures Backed(rd, w.log, REDUCTION_TWO, g) && Backed(rd, w.log, REDUCTION_TWO, h)
  {
    var w1 := EachSideVotes(rd, g, h, u, v);
    w := AllHear(rd, w1, rd.honest - u - v, REDUCTION_ONE, Timeout);
    AllCast(rd, w.log, u, REDUCTION_TWO, g);
    AllCast(rd, w.log, v, REDUCTION_TWO, h);
  }

  /** These nodes come out of reduction with v. */
  lemma SideReduces(rd: Round, w: World, some: set<Key>, v: Hash) returns (w': World)
    requires Minority(rd) && Reached(rd, w) && w.nodes.Keys == rd.honest && some <= rd.honest && Usable(rd, v)
    requires (forall k :: k in some ==> w.nodes[k].phase.AwaitTwo?) && Backed(rd, w.log, REDUCTION_TWO, v)
    ensures Reached(rd, w') && SameOutside(w, w', some)
    ensures forall k :: k in some ==> w'.nodes[k] == StartBinary(v).0 && (k, 1, v) in w'.log
  {
    w' := AllHear(rd, w, some, REDUCTION_TWO, Quorum(v));
    forall k | k in some
      ensures (k, 1, v) in w'.log
    {
      LoggedCast(k, [Cast(1, v)], 0);
    }
  }

  lemma BothReduce(rd: Round, g: Hash, h: Hash, u: set<Key>, v: set<Key>, y: set<Key>) returns (w: World)
    requires Minority(rd) && Divides(rd, g, h, u, v) && y <= rd.honest
    ensures Reached(rd, w) && Wait(rd, w, rd.honest, g, h, y, 1, 1)
  {
    var w1 := BothBacked(rd, g, h, u, v);
    var w2 := SideReduces(rd, w1, y, h);
    BackedGrows(rd, w1.log, w2.log, REDUCTION_TWO, g);
    w := SideReduces(rd, w2, rd.honest - y, g);
  }

  /** Silence in a first stage. */
  lemma Passes(rd: Round, w: World, live: set<Key>, g: Hash, h: Hash, y: set<Key>, s: nat) returns (w': World)
    requires Minority(rd) && Reached(rd, w) && Wait(rd, w, live, g, h, y, 1, s) && s <= 11
    ensures Reached(rd, w') && Wait(rd, w', live, g, h, y, 2, s + 1) && SameOutside(w, w', live)
  {
    w' := AllHear(rd, w, live, s, Timeout);
    forall k | k in live
      ensures (k, s + 1, Side(g, h, y, k)) in w'.log
    {
      LoggedCast(k, [Cast(s + 1, Side(g, h, y, k))], 0);
    }
  }

  /** What a side hears in a second stage: the other side's quorum, or nothing. */
  ghost predicate Offer(rd: Round, log: Log, s: nat, v: Hash, heard: bool) {
    heard ==> Usable(rd, v) && v != rd.empty && Backed(rd, log, s, v)
  }

  function Hears(v: Hash, heard: bool): Outcome {
    if heard then Quorum(v) else Timeout
  }

  lemma SideHears(rd: Round, w: World, some: set<Key>, own: Hash, s: nat, v: Hash, heard: bool) returns (w': World)
    requires Minority(rd) && Reached(rd, w) && w.nodes.Keys == rd.honest && some <= rd.honest
    requires Offer(rd, w.log, s, v, heard) && s % 2 == 0
    requires forall k :: k in some ==> w.nodes[k] == Node(AwaitStage(2), s, own, own)
    ensures Reached(rd, w') && SameOutside(w, w', some)
    ensures forall k :: k in some ==> w'.nodes[k].(r := []) == Node(AwaitStage(3), s + 1, [], own)
    ensures heard ==> forall k :: k in some ==> (k, s + 1, v) in w'.log
  {
    w' := AllHear(rd, w, some, s, Hears(v, heard));
    if heard {
      forall k | k in some
        ensures (k, s + 1, v) in w'.log
      {
        LoggedCast(k, [Cast(s + 1, v)], 0);
      }
    }
  }

  /** Silence in a third stage, with the coin that falls on the node's own block. */
  lemma Returns(rd: Round, w: World, live: set<Key>, g: Hash, h: Hash, y: set<Key>, s: nat) returns (w': World)
    requires Minority(rd) && Reached(rd, w) && w.nodes.Keys == rd.honest && live <= rd.honest && s < MAXSTEPS
    requires forall k :: k in live ==> w.nodes[k].(r := []) == Node(AwaitStage(3), s, [], Side(g, h, y, k))
    ensures Reached(rd, w') && Wait(rd, w', live, g, h, y, 1, s) && SameOutside(w, w', live)
  {
    w' := AllHear(rd, w, live, s, Timeout);
    forall k | k in live
      ensures (k, s, Side(g, h, y, k)) in w'.log
    {
      LoggedCast(k, [Cast(s, Side(g, h, y, k))], 0);
    }
  }

  /** From an even step to the next odd one; each side may turn the other for one vote. */
  lemma Turns(rd: Round, w: World, live: set<Key>, g: Hash, h: Hash, y: set<Key>, s: nat, toG: bool, toH: bool)
    returns (w': World)
    requires Minority(rd) && Reached(rd, w) && Wait(rd, w, live, g, h, y, 2, s) && s % 2 == 0 && s <= 10
    requires Offer(rd, w.log, s, g, toG) && Offer(rd, w.log, s, h, toH)
    ensures Reached(rd, w') && Wait(rd, w', live, g, h, y, 1, s + 1) && SameOutside(w, w', live)
    ensures toG ==> forall k :: k in live ==> (k, s + 1, g) in w'.log
    ensures toH ==> forall k :: k in live ==> (k, s + 1, h) in w'.log
  {
    var w1 := SideHears(rd, w, live * y, h, s, g, toG);
    if toH {
      BackedGrows(rd, w.log, w1.log, s, h);
    }
    var w2 := SideHears(rd, w1, live - y, g, s, h, toH);
    w' := Returns(rd, w2, live, g, h, y, s + 1);
  }

  /** Silence leads from an odd step to a later even one. */
  lemma {:induction false} Silent(rd: Round, w: World, live: set<Key>, g: Hash, h: Hash, y: set<Key>, s: nat, t: nat)
    returns (w': World)
    requires Minority(rd) && Reached(rd, w) && Wait(rd, w, live, g, h, y, 1, s)
    requires s < t <= 12 && s % 2 == 1 && t % 2 == 0
    ensures Reached(rd, w') && Wait(rd, w', live, g, h, y, 2, t) && SameOutside(w, w', live)
    decreases t - s
  {
    w' := Passes(rd, w, live, g, h, y, s);
    if s + 1 < t {
      var w1 := Turns(rd, w', live, g, h, y, s + 1, false, false);
      w' := Silent(rd, w1, live, g, h, y, s + 2, t);
    }
  }

  /** Whether the holders of a block need a quorum of theirs one step before. */
  ghost predicate NeedsTurn(rd: Round, holders: set<Key>, s: nat) {
    !Heavy(rd, holders, s)
  }

  /** The holders, or all if they need a turn: heavy enough at this step. */
  ghost function HeavyPart(rd: Round, holders: set<Key>, all: set<Key>, s: nat): (r: set<Key>)
    requires Carries(rd, holders, all, s)
    ensures Heavy(rd, r, s) && r == if NeedsTurn(rd, holders, s) then all else holders
  {
    if NeedsTurn(rd, holders, s) then all else holders
  }

  /** From the even step before it: each block that is asked for is turned to if need be. */
  lemma TurnTo(rd: Round, w: World, live: set<Key>, g: Hash, h: Hash, y: set<Key>, t: nat, forG: bool, forH: bool)
    returns (w': World)
    requires Minority(rd) && Reached(rd, w) && OddStep(t) && t >= 3 && Wait(rd, w, live, g, h, y, 2, t - 1)
    requires Usable(rd, g) && Usable(rd, h) && g != rd.empty && h != rd.empty
    requires forG ==> Carries(rd, live - y, live, t)
    requires forH ==> Carries(rd, live * y, live, t)
    ensures Reached(rd, w') && Wait(rd, w', live, g, h, y, 1, t) && SameOutside(w, w', live)
    ensures forG ==> Backed(rd, w'.log, t, g)
    ensures forH ==> Backed(rd, w'.log, t, h)
  {
    var toG, toH := forG && NeedsTurn(rd, live - y, t), forH && NeedsTurn(rd, live * y, t);
    if toG {
      AllCast(rd, w.log, live - y, t - 1, g);
    }
    if toH {
      AllCast(rd, w.log, live * y, t - 1, h);
    }
    w' := Turns(rd, w, live, g, h, y, t - 1, toG, toH);
    if forG {
      AllCast(rd, w'.log, HeavyPart(rd, live - y, live, t), t, g);
    }
    if forH {
      AllCast(rd, w'.log, HeavyPart(rd, live * y, live, t), t, h);
    }
  }

  /** The live nodes reach a first stage at step t in which each block that is asked for is backed. */
  lemma Bring(rd: Round, w: World, live: set<Key>, g: Hash, h: Hash, y: set<Key>, s: nat, t: nat,
              forG: bool, forH: bool)
    returns (w': World)
    requires Minority(rd) && Reached(rd, w) && Wait(rd, w, live, g, h, y, 1, s)
    requires OddStep(s) && OddStep(t) && s < t && Usable(rd, g) && Usable(rd, h) && g != rd.empty && h != rd.empty
    requires forG ==> Carries(rd, live - y, live, t)
    requires forH ==> Carries(rd, live * y, live, t)
    ensures Reached(rd, w') && Wait(rd, w', live, g, h, y, 1, t) && SameOutside(w, w', live)
    ensures forG ==> Backed(rd, w'.log, t, g)
    ensures forH ==> Backed(rd, w'.log, t, h)
  {
    var w1 := Silent(rd, w, live, g, h, y, s, t - 1);
    w' := TurnTo(rd, w1, live, g, h, y, t, forG, forH);
  }

  /** The same from the first step on. */
  lemma BringFirst(rd: Round, w: World, g: Hash, h: Hash, y: set<Key>, t: nat, forH: bool) returns (w': World)
    requires Minority(rd) && Reached(rd, w) && Wait(rd, w, rd.honest, g, h, y, 1, 1) && y <= rd.honest
    requires OddStep(t) && Usable(rd, g) && Usable(rd, h) && g != rd.empty && h != rd.empty
    requires Carries(rd, rd.honest - y, rd.honest, t) && (forH ==> Carries(rd, y, rd.honest, t))
    ensures Reached(rd, w') && Wait(rd, w', rd.honest, g, h, y, 1, t)
    ensures Backed(rd, w'.log, t, g) && (forH ==> Backed(rd, w'.log, t, h))
  {
    assert rd.honest * y == y;
    if t == 1 {
      w' := w;
      AllCast(rd, w.log, rd.honest - y, 1, g);
      if forH {
        AllCast(rd, w.log, y, 1, h);
      }
    } else {
      w' := Bring(rd, w, rd.honest, g, h, y, 1, t, true, forH);
    }
  }

  lemma Chooses(rd: Round, w: World, live: set<Key>, g: Hash, h: Hash, y: set<Key>, s: nat, k: Key, v: Hash)
    returns (w': World)
    requires Minority(rd) && Reached(rd, w) && Wait(rd, w, live, g, h, y, 1, s) && k in live
    requires Usable(rd, v) && v != rd.empty && Backed(rd, w.log, s, v)
    ensures Reached(rd, w') && k in w'.nodes && Decided(w'.nodes[k]) && w'.nodes[k].r == v && SameOutside(w, w', {k})
    ensures Wait(rd, w', live - {k}, g, h, y, 1, s)
  {
    w' := OneHears(rd, w, k, Quorum(v));
  }

  lemma Grow(rd: Round, x: set<Key>, y: set<Key>, s: int)
    requires Carries(rd, x, rd.honest, s) && x <= rd.honest && x !! y
    ensures Carries(rd, rd.honest - y, rd.honest, s)
  {
    if Heavy(rd, x, s) {
      HeavyGrows(rd, x, rd.honest - y, s);
    } else {
      HeavyGrows(rd, x, rd.honest - y, s - 1);
    }
  }

  lemma PartAtOnce(rd: Round, w: World, g: Hash, h: Hash, y: set<Key>, s: nat) returns (w': World, a: Key, b: Key)
    requires Minority(rd) && Reached(rd, w) && Wait(rd, w, rd.honest, g, h, y, 1, 1) && y <= rd.honest
    requires OddStep(s) && Usable(rd, g) && Usable(rd, h) && g != rd.empty && h != rd.empty
    requires Carries(rd, rd.honest - y, rd.honest, s) && Carries(rd, y, rd.honest, s)
    ensures Reached(rd, w') && a in w'.nodes && b in w'.nodes && Decided(w'.nodes[a]) && Decided(w'.nodes[b])
    ensures w'.nodes[a].r == g && w'.nodes[b].r == h
  {
    a := SomeCarries(rd, rd.honest - y, rd.honest, s);
    b := SomeCarries(rd, y, rd.honest, s);
    var w1 := BringFirst(rd, w, g, h, y, s, true);
    var w2 := Chooses(rd, w1, rd.honest, g, h, y, s, a, g);
    BackedGrows(rd, w1.log, w2.log, s, h);
    w' := Chooses(rd, w2, rd.honest - {a}, g, h, y, s, b, h);
  }

  lemma PartLater(rd: Round, w: World, g: Hash, h: Hash, y: set<Key>, a: Key, s: nat, t: nat)
    returns (w': World, b: Key)
    requires Minority(rd) && Reached(rd, w) && Wait(rd, w, rd.honest, g, h, y, 1, 1) && y <= rd.honest && a in rd.honest
    requires OddStep(s) && OddStep(t) && s < t && Usable(rd, g) && Usable(rd, h) && g != rd.empty && h != rd.empty
    requires Carries(rd, rd.honest - y, rd.honest, s) && Carries(rd, y - {a}, rd.honest - {a}, t)
    ensures Reached(rd, w') && a in w'.nodes && b in w'.nodes && Decided(w'.nodes[a]) && Decided(w'.nodes[b])
    ensures w'.nodes[a].r == g && w'.nodes[b].r == h
  {
    b := SomeCarries(rd, y - {a}, rd.honest - {a}, t);
    var live := rd.honest - {a};
    assert live * y == y - {a};
    var w1 := BringFirst(rd, w, g, h, y, s, false);
    var w2 := Chooses(rd, w1, rd.honest, g, h, y, s, a, g);
    var w3 := Bring(rd, w2, live, g, h, y, s, t, false, true);
    w' := Chooses(rd, w3, live, g, h, y, t, b, h);
  }

  lemma PartRuns(rd: Round, g: Hash, h: Hash, x: set<Key>, y: set<Key>, a: Key, s: int, t: int)
    returns (w: World, i: Key, j: Key)
    requires Minority(rd) && Parts(rd, g, h, x, y, a, s, t)
    ensures Reached(rd, w) && i in w.nodes && j in w.nodes && Decided(w.nodes[i]) && Decided(w.nodes[j])
    ensures w.nodes[i].r == g && w.nodes[j].r == h
  {
    var u, v :| Divides(rd, g, h, u, v);
    Grow(rd, x, y, s);
    w := BothReduce(rd, g, h, u, v, y);
    if s == t {
      w, i, j := PartAtOnce(rd, w, g, h, y, s);
    } else {
      i := a;
      w, j := PartLater(rd, w, g, h, y, a, s, t);
    }
  }

  // ---------------------------------------------------------------- exactly when

  lemma DecidedKinds(rd: Round, w: World, k: Key)
    requires Inv(rd, w) && k in w.nodes && Decided(w.nodes[k]) && !NoBlock(rd, w.nodes[k].r)
    ensures IsBlock(rd, w.nodes[k].r)
  {
    assert NodeSound(rd, w.nodes[k]);
  }

  lemma PartIfDisagree(rd: Round, w: World, a: Key, b: Key)
    requires PrefixesDistinct(rd.universe) && Minority(rd) && rd.empty != [] && Reached(rd, w)
    requires a in w.nodes && b in w.nodes && Decided(w.nodes[a]) && Decided(w.nodes[b])
    requires w.nodes[a].r != w.nodes[b].r && !NoBlock(rd, w.nodes[a].r) && !NoBlock(rd, w.nodes[b].r)
    ensures CanPart(rd)
  {
    ReachedInv(rd, w);
    ReachedSound(rd, w);
    DecidedKinds(rd, w, a);
    DecidedKinds(rd, w, b);
    PartIfNot(rd, w, a, b);
  }

  /** Over all runs no two nodes decide different blocks if and only if the weights do not let them part. */
  lemma DecisionsAgreeIff(rd: Round)
    requires PrefixesDistinct(rd.universe) && Minority(rd) && rd.empty != []
    ensures DecisionsAgree(rd) <==> !CanPart(rd)
  {
    if CanPart(rd) {
      var g, h, x, y, a, s, t :| Parts(rd, g, h, x, y, a, s, t);
      var w, i, j := PartRuns(rd, g, h, x, y, a, s, t);
      assert !NoBlock(rd, g) && !NoBlock(rd, h);
    } else {
      forall w, a, b | Reached(rd, w) && a in w.nodes && b in w.nodes && Decided(w.nodes[a]) && Decided(w.nodes[b])
        ensures w.nodes[a].r == w.nodes[b].r || NoBlock(rd, w.nodes[a].r) || NoBlock(rd, w.nodes[b].r)
      {
        if !(w.nodes[a].r == w.nodes[b].r || NoBlock(rd, w.nodes[a].r) || NoBlock(rd, w.nodes[b].r)) {
          PartIfDisagree(rd, w, a, b);
        }
      }
    }
  }

  /** So they agree whenever reduction does. */
  lemma ReductionDecides(rd: Round)
    requires PrefixesDistinct(rd.universe) && Minority(rd) && rd.empty != [] && ReductionAgrees(rd)
    ensures DecisionsAgree(rd)
  {
    ReductionAgreesIff(rd);
    DecisionsAgreeIff(rd);
  }

  /** Exactly when a round is safe: over all runs no two different blocks are decided, and nothing but nil is
      decided beside a final block. */
  lemma SafeIff(rd: Round)
    requires PrefixesDistinct(rd.universe) && Minority(rd) && rd.empty != []
    ensures DecisionsAgree(rd) && FinalExcludes(rd) <==> !CanPart(rd) && !CanSplit(rd)
  {
    DecisionsAgreeIff(rd);
    if DecisionsAgree(rd) {
      FinalExcludesIff(rd);
    }
  }
}
