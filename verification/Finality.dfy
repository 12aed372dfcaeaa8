/** When final consensus on a block excludes a decision on the empty one (algorand/algorand.go, BA):
    exactly when no two parts of the honest weight can go different ways. */
module Finality {
  import opened SetSums
  import opened Voting
  import opened Agreement
  import opened Consensus

  type Log = set<(Key, int, Hash)>

  // ---------------------------------------------------------------- what votes tell of their nodes

  predicate Begun(n: Node) {
    !n.phase.AwaitOne? && !n.phase.AwaitTwo?
  }

  predicate AtFirst(n: Node) {
    n.phase.AwaitStage? && n.step == 1
  }

  /** A step of the binary loop, or one that a decision votes ahead for. */
  predicate LaterStep(t: int) {
    2 <= t <= 15
  }

  /** Steps are voted in order. */
  ghost predicate InOrder(w: World) {
    && (forall v :: v in w.log ==> v.0 in w.nodes)
    && (forall v :: v in w.log && v.1 != REDUCTION_ONE && v.1 != REDUCTION_TWO ==> Begun(w.nodes[v.0]))
    && (forall v :: v in w.log && LaterStep(v.1) ==> !AtFirst(w.nodes[v.0]))
    && (forall k :: k in w.nodes && w.nodes[k].phase.AwaitStage? ==> w.nodes[k].phase.stage <= w.nodes[k].step)
  }

  /** Who votes at step 1 votes for what its reduction returned, and a quorum returned it. */
  ghost predicate FirstVotes(rd: Round, w: World) {
    forall v :: v in w.log && v.1 == 1 ==>
      && v.0 in w.nodes && w.nodes[v.0].hash == v.2
      && (v.2 != rd.empty && v.2 != [] ==> Backed(rd, w.log, REDUCTION_TWO, v.2))
  }

  /** Who votes at the final step has seen a quorum at step 1 and votes for nothing else from then on. */
  ghost predicate FinalVotes(rd: Round, w: World) {
    forall u :: u in w.log && u.1 == FINAL ==>
      && (u.2 != [] ==> Backed(rd, w.log, 1, u.2))
      && forall v :: v in w.log && v.0 == u.0 && LaterStep(v.1) ==> v.2 == u.2
  }

  /** Who votes for the empty hash at an even step holds it from reduction, or has seen a quorum for it
      one step or two steps before. */
  ghost predicate EmptyVotes(rd: Round, w: World) {
    forall v :: v in w.log && LaterStep(v.1) && v.1 % 2 == 0 && v.2 == rd.empty ==>
      && v.0 in w.nodes
      && (|| w.nodes[v.0].hash == rd.empty
          || Backed(rd, w.log, v.1 - 1, rd.empty)
          || (v.1 >= 4 && Backed(rd, w.log, v.1 - 2, rd.empty)))
  }

  ghost predicate EmptyBacked(rd: Round, log: Log, s: int) {
    2 <= s <= 12 && s % 2 == 0 && Backed(rd, log, s, rd.empty)
  }

  /** A hash that a count can return. */
  ghost predicate Usable(rd: Round, h: Hash) {
    |h| >= 4 && h in rd.universe
  }

  /** Why a node has decided the empty hash, or is final. */
  ghost predicate Ends(rd: Round, w: World) {
    forall k :: k in w.nodes ==>
      && (Decided(w.nodes[k]) && w.nodes[k].r == rd.empty ==>
            Usable(rd, rd.empty) && exists s :: EmptyBacked(rd, w.log, s))
      && (w.nodes[k].phase == Finished(true) && w.nodes[k].r != [] ==> Backed(rd, w.log, FINAL, w.nodes[k].r))
  }

  ghost predicate Traced(rd: Round, w: World) {
    InOrder(w) && FirstVotes(rd, w) && FinalVotes(rd, w) && EmptyVotes(rd, w) && Ends(rd, w)
  }

  lemma BackedGrows(rd: Round, log: Log, more: Log, step: int, h: Hash)
    requires log <= more && Backed(rd, log, step, h)
    ensures Backed(rd, more, step, h)
  {
    SumSubset(Casters(rd, log, step, h), Casters(rd, more, step, h), At(rd, step));
  }

  /** The value of a count, if it is a hash, is backed. */
  ghost predicate ValueBacked(rd: Round, log: Log, n: Node, o: Outcome) {
    !o.Timeout? && !o.Crash? && Value(o) != [] ==> Usable(rd, Value(o)) && Backed(rd, log, StepOf(n), Value(o))
  }

  lemma CountIsBacked(rd: Round, w: World, e: Event)
    requires PrefixesDistinct(rd.universe) && Minority(rd) && Inv(rd, w) && Possible(rd, w, e)
    ensures ValueBacked(rd, w.log, w.nodes[e.node], OutcomeAt(rd, w, e))
  {
    var o := OutcomeAt(rd, w, e);
    if o.Quorum? {
      QuorumIsBacked(rd, w, StepOf(w.nodes[e.node]), e.ballots, e.timerFired, o.hash);
    }
  }

  // ---------------------------------------------------------------- one count

  lemma CastsInOrder(rd: Round, n: Node, o: Outcome, coin: int)
    requires NodeSound(rd, n) && (n.phase.AwaitStage? ==> n.phase.stage <= n.step)
    ensures var (n', casts) := OnCount(n, rd.empty, o, coin);
      && (n'.phase.AwaitStage? ==> n'.phase.stage <= n'.step)
      && (forall c :: c in casts && c.step != REDUCTION_TWO ==> Begun(n'))
      && (forall c :: c in casts && LaterStep(c.step) ==> !AtFirst(n'))
      && (Begun(n) ==> Begun(n')) && (Begun(n) && !AtFirst(n) ==> !AtFirst(n'))
      && (forall c :: c in casts ==> c.step != REDUCTION_ONE)
  {
    if n.phase == AwaitStage(1) {
    } else if n.phase == AwaitStage(2) {
    } else if n.phase == AwaitStage(3) {
    }
  }

  lemma CastsAtFirst(rd: Round, n: Node, o: Outcome, coin: int)
    requires NodeSound(rd, n) && (n.phase.AwaitStage? ==> n.phase.stage <= n.step)
    ensures var (n', casts) := OnCount(n, rd.empty, o, coin);
      && (!n.phase.AwaitTwo? ==> n'.hash == n.hash)
      && (forall c :: c in casts && c.step == 1 ==>
            n.phase.AwaitTwo? && n'.hash == c.hash
            && (c.hash == rd.empty || (!o.Timeout? && !o.Crash? && c.hash == Value(o))))
  {
    if n.phase == AwaitStage(1) {
    } else if n.phase == AwaitStage(2) {
    } else if n.phase == AwaitStage(3) {
    }
  }

  lemma CastsFinal(rd: Round, n: Node, o: Outcome, coin: int)
    requires NodeSound(rd, n) && (n.phase.AwaitStage? ==> n.phase.stage <= n.step)
    ensures var (n', casts) := OnCount(n, rd.empty, o, coin);
      forall c :: c in casts && c.step == FINAL ==>
        && AtFirst(n) && !o.Timeout? && !o.Crash? && c.hash == Value(o)
        && forall d :: d in casts && LaterStep(d.step) ==> d.hash == c.hash
  {
    if n.phase == AwaitStage(1) {
    } else if n.phase == AwaitStage(2) {
    } else if n.phase == AwaitStage(3) {
    }
  }

  lemma CastsEmpty(rd: Round, n: Node, o: Outcome, coin: int)
    requires NodeSound(rd, n) && (n.phase.AwaitStage? ==> n.phase.stage <= n.step)
    ensures var (n', casts) := OnCount(n, rd.empty, o, coin);
      forall c :: c in casts && LaterStep(c.step) && c.step % 2 == 0 && c.hash == rd.empty ==>
        && n.phase.AwaitStage? && !o.Crash?
        && (|| (n.hash == rd.empty && n'.hash == rd.empty)
            || (!o.Timeout? && Value(o) == rd.empty && n.step == c.step - 1)
            || (!o.Timeout? && Value(o) == rd.empty && n.step == c.step - 2 && n.step >= 2))
  {
    if n.phase == AwaitStage(1) {
    } else if n.phase == AwaitStage(2) {
    } else if n.phase == AwaitStage(3) {
    }
  }

  lemma CountEnds(rd: Round, n: Node, o: Outcome, coin: int)
    requires NodeSound(rd, n) && (n.phase.AwaitStage? ==> n.phase.stage <= n.step)
    ensures var (n', casts) := OnCount(n, rd.empty, o, coin);
      && (Decided(n') && n'.r == rd.empty ==>
            || (Decided(n) && n.r == rd.empty)
            || (n.phase.AwaitStage? && !o.Timeout? && !o.Crash? && Value(o) == rd.empty
                && 2 <= n.step <= 12 && n.step % 2 == 0))
      && (n'.phase == Finished(true) ==>
            || (n.phase == Finished(true) && n'.r == n.r)
            || (n.phase.AwaitFinal? && !o.Timeout? && !o.Crash? && n'.r == Value(o))
            || n'.r == [])
  {
  }

  // ---------------------------------------------------------------- every count keeps it

  ghost function After(rd: Round, w: World, k: Key, o: Outcome, coin: int): World
    requires k in w.nodes
  {
    var (n, casts) := OnCount(w.nodes[k], rd.empty, o, coin);
    World(w.nodes[k := n], w.log + Logged(k, casts))
  }

  ghost predicate Ready(rd: Round, w: World, k: Key, o: Outcome) {
    rd.empty != [] && Inv(rd, w) && InOrder(w) && k in w.nodes && ValueBacked(rd, w.log, w.nodes[k], o)
  }

  /** A new vote is one of the casts. */
  lemma NewVote(rd: Round, w: World, k: Key, o: Outcome, coin: int, v: (Key, int, Hash)) returns (c: Cast)
    requires k in w.nodes && v in After(rd, w, k, o, coin).log && v !in w.log
    ensures c in OnCount(w.nodes[k], rd.empty, o, coin).1 && v == (k, c.step, c.hash)
  {
    c :| c in OnCount(w.nodes[k], rd.empty, o, coin).1 && v == (k, c.step, c.hash);
  }

  lemma OrderKept(rd: Round, w: World, k: Key, o: Outcome, coin: int)
    requires Ready(rd, w, k, o)
    ensures InOrder(After(rd, w, k, o, coin))
  {
    var n, w' := w.nodes[k], After(rd, w, k, o, coin);
    assert NodeSound(rd, n);
    CastsInOrder(rd, n, o, coin);
    forall v | v in w'.log
      ensures v.0 in w'.nodes
      ensures v.1 != REDUCTION_ONE && v.1 != REDUCTION_TWO ==> Begun(w'.nodes[v.0])
      ensures LaterStep(v.1) ==> !AtFirst(w'.nodes[v.0])
    {
      if v !in w.log {
        var c := NewVote(rd, w, k, o, coin, v);
      }
    }
  }

  lemma FirstKept(rd: Round, w: World, k: Key, o: Outcome, coin: int)
    requires Ready(rd, w, k, o) && FirstVotes(rd, w)
    ensures FirstVotes(rd, After(rd, w, k, o, coin))
  {
    var n, w' := w.nodes[k], After(rd, w, k, o, coin);
    assert NodeSound(rd, n);
    CastsAtFirst(rd, n, o, coin);
    forall v | v in w'.log && v.1 == 1
      ensures v.0 in w'.nodes && w'.nodes[v.0].hash == v.2
      ensures v.2 != rd.empty && v.2 != [] ==> Backed(rd, w'.log, REDUCTION_TWO, v.2)
    {
      if v in w.log {
        if v.2 != rd.empty && v.2 != [] {
          BackedGrows(rd, w.log, w'.log, REDUCTION_TWO, v.2);
        }
      } else {
        var c := NewVote(rd, w, k, o, coin, v);
        if v.2 != rd.empty && v.2 != [] {
          BackedGrows(rd, w.log, w'.log, REDUCTION_TWO, v.2);
        }
      }
    }
  }

  lemma FinalKept(rd: Round, w: World, k: Key, o: Outcome, coin: int)
    requires Ready(rd, w, k, o) && FinalVotes(rd, w) && FinalInv(rd, w)
    ensures FinalVotes(rd, After(rd, w, k, o, coin))
  {
    var n, w' := w.nodes[k], After(rd, w, k, o, coin);
    assert NodeSound(rd, n);
    CastsFinal(rd, n, o, coin);
    FinalCastOnce(rd, n, o, coin);
    forall u | u in w'.log && u.1 == FINAL
      ensures u.2 != [] ==> Backed(rd, w'.log, 1, u.2)
      ensures forall v :: v in w'.log && v.0 == u.0 && LaterStep(v.1) ==> v.2 == u.2
    {
      if u in w.log {
        if u.2 != [] {
          BackedGrows(rd, w.log, w'.log, 1, u.2);
        }
        assert u.0 == k ==> OnCount(n, rd.empty, o, coin).1 == [];
      } else {
        var c := NewVote(rd, w, k, o, coin, u);
        if u.2 != [] {
          BackedGrows(rd, w.log, w'.log, 1, u.2);
        }
      }
    }
  }

  lemma EmptyVoteGrows(rd: Round, w: World, w': World, v: (Key, int, Hash))
    requires w.log <= w'.log && v.0 in w.nodes && v.0 in w'.nodes
    requires w.nodes[v.0].hash == rd.empty ==> w'.nodes[v.0].hash == rd.empty
    requires || w.nodes[v.0].hash == rd.empty || Backed(rd, w.log, v.1 - 1, rd.empty)
             || (v.1 >= 4 && Backed(rd, w.log, v.1 - 2, rd.empty))
    ensures || w'.nodes[v.0].hash == rd.empty || Backed(rd, w'.log, v.1 - 1, rd.empty)
            || (v.1 >= 4 && Backed(rd, w'.log, v.1 - 2, rd.empty))
  {
    if Backed(rd, w.log, v.1 - 1, rd.empty) {
      BackedGrows(rd, w.log, w'.log, v.1 - 1, rd.empty);
    } else if Backed(rd, w.log, v.1 - 2, rd.empty) {
      BackedGrows(rd, w.log, w'.log, v.1 - 2, rd.empty);
    }
  }

  lemma EmptyKept(rd: Round, w: World, k: Key, o: Outcome, coin: int)
    requires Ready(rd, w, k, o) && EmptyVotes(rd, w)
    ensures EmptyVotes(rd, After(rd, w, k, o, coin))
  {
    var n, w' := w.nodes[k], After(rd, w, k, o, coin);
    assert NodeSound(rd, n);
    CastsEmpty(rd, n, o, coin);
    CastsAtFirst(rd, n, o, coin);
    forall v | v in w'.log && LaterStep(v.1) && v.1 % 2 == 0 && v.2 == rd.empty
      ensures v.0 in w'.nodes
      ensures || w'.nodes[v.0].hash == rd.empty || Backed(rd, w'.log, v.1 - 1, rd.empty)
              || (v.1 >= 4 && Backed(rd, w'.log, v.1 - 2, rd.empty))
    {
      if v in w.log {
        assert Begun(w.nodes[v.0]);
        EmptyVoteGrows(rd, w, w', v);
      } else {
        var c := NewVote(rd, w, k, o, coin, v);
        EmptyVoteGrows(rd, w, w', v);
      }
    }
  }

  lemma EndsKept(rd: Round, w: World, k: Key, o: Outcome, coin: int)
    requires Ready(rd, w, k, o) && Ends(rd, w)
    ensures Ends(rd, After(rd, w, k, o, coin))
  {
    var n, w' := w.nodes[k], After(rd, w, k, o, coin);
    assert NodeSound(rd, n);
    CountEnds(rd, n, o, coin);
    forall j | j in w'.nodes && Decided(w'.nodes[j]) && w'.nodes[j].r == rd.empty
      ensures Usable(rd, rd.empty) && exists s :: EmptyBacked(rd, w'.log, s)
    {
      var s: int;
      if Decided(w.nodes[j]) && w.nodes[j].r == rd.empty {
        s :| EmptyBacked(rd, w.log, s);
      } else {
        s := n.step;
        assert EmptyBacked(rd, w.log, s);
      }
      BackedGrows(rd, w.log, w'.log, s, rd.empty);
      assert EmptyBacked(rd, w'.log, s);
    }
    forall j | j in w'.nodes && w'.nodes[j].phase == Finished(true) && w'.nodes[j].r != []
      ensures Backed(rd, w'.log, FINAL, w'.nodes[j].r)
    {
      BackedGrows(rd, w.log, w'.log, FINAL, w'.nodes[j].r);
    }
  }

  lemma EventKeepsTraced(rd: Round, w: World, e: Event)
    requires PrefixesDistinct(rd.universe) && Minority(rd) && rd.empty != []
    requires Inv(rd, w) && FinalInv(rd, w) && Traced(rd, w)
    ensures Traced(rd, Apply(rd, w, e))
  {
    if Possible(rd, w, e) {
      var o := OutcomeAt(rd, w, e);
      CountIsBacked(rd, w, e);
      OrderKept(rd, w, e.node, o, e.coin);
      FirstKept(rd, w, e.node, o, e.coin);
      FinalKept(rd, w, e.node, o, e.coin);
      EmptyKept(rd, w, e.node, o, e.coin);
      EndsKept(rd, w, e.node, o, e.coin);
    }
  }

  lemma {:induction false} RunKeepsTraced(rd: Round, w: World, events: seq<Event>)
    requires PrefixesDistinct(rd.universe) && Minority(rd) && rd.empty != []
    requires Inv(rd, w) && FinalInv(rd, w) && Traced(rd, w)
    ensures Traced(rd, Run(rd, w, events))
    decreases |events|
  {
    if events != [] {
      EventKeepsInv(rd, w, events[0]);
      EventKeepsFinalInv(rd, w, events[0]);
      EventKeepsTraced(rd, w, events[0]);
      RunKeepsTraced(rd, Apply(rd, w, events[0]), events[1..]);
    }
  }

  // ---------------------------------------------------------------- how a round can split

  /** The keys `f` can go final on `h`, which the keys `g` bring out of reduction, while the others decide
      the empty hash at step `s`: on what they hold themselves, or after a quorum for it one step before,
      which also turns those of them that hold `h`. */
  ghost predicate Splits(rd: Round, h: Hash, f: set<Key>, g: set<Key>, s: int) {
    && f <= rd.honest && g <= rd.honest && 2 <= s <= 12 && s % 2 == 0
    && Common(rd, h) && h != rd.empty && Usable(rd, rd.empty)
    && Heavy(rd, rd.honest, REDUCTION_TWO) && Heavy(rd, g, 1) && Heavy(rd, f, FINAL)
    && (|| Heavy(rd, rd.honest - f - g, s)
        || (Heavy(rd, if s == 2 then rd.honest - g else rd.honest - f, s - 1) && Heavy(rd, rd.honest - f, s)))
  }

  ghost predicate CanSplit(rd: Round) {
    exists h, f, g, s :: Splits(rd, h, f, g, s)
  }

  lemma HeavyGrows(rd: Round, a: set<Key>, b: set<Key>, step: int)
    requires Heavy(rd, a, step) && a <= b
    ensures Heavy(rd, b, step)
  {
    SumSubset(a, b, At(rd, step));
  }

  lemma {:induction false} LeastEmpty(rd: Round, log: Log, s: int) returns (t: int)
    requires EmptyBacked(rd, log, s)
    ensures EmptyBacked(rd, log, t) && !EmptyBacked(rd, log, t - 2)
    decreases s
  {
    t := s;
    if EmptyBacked(rd, log, s - 2) {
      t := LeastEmpty(rd, log, s - 2);
    }
  }

  ghost predicate Settled(rd: Round, w: World, h: Hash) {
    && PrefixesDistinct(rd.universe) && Minority(rd) && Inv(rd, w) && FinalInv(rd, w) && Traced(rd, w)
    && h != rd.empty && h != [] && Backed(rd, w.log, FINAL, h)
  }

  lemma FinalFixes(rd: Round, w: World, k: Key, h: Hash, t: int, v: Hash)
    requires FinalVotes(rd, w) && (k, FINAL, h) in w.log && (k, t, v) in w.log && LaterStep(t)
    ensures v == h
  {
    assert (k, FINAL, h).1 == FINAL && (k, t, v).0 == k;
  }

  /** Final voters cast no vote for the empty hash later on. */
  lemma FinalsApart(rd: Round, w: World, h: Hash, t: int)
    requires Settled(rd, w, h) && LaterStep(t)
    ensures Casters(rd, w.log, t, rd.empty) <= rd.honest - Casters(rd, w.log, FINAL, h)
  {
    forall k | k in Casters(rd, w.log, t, rd.empty)
      ensures (k, FINAL, h) !in w.log
    {
      if (k, FINAL, h) in w.log {
        FinalFixes(rd, w, k, h, t, rd.empty);
      }
    }
  }

  lemma FirstApart(rd: Round, w: World, h: Hash)
    requires Settled(rd, w, h)
    ensures Casters(rd, w.log, 1, rd.empty) <= rd.honest - Casters(rd, w.log, 1, h)
    ensures forall k :: k in Casters(rd, w.log, 1, h) ==> w.nodes[k].hash == h
  {
    forall k | k in Casters(rd, w.log, 1, h)
      ensures w.nodes[k].hash == h
    {
      assert (k, 1, h) in w.log && (k, 1, h).1 == 1;
    }
    forall k | k in Casters(rd, w.log, 1, rd.empty)
      ensures w.nodes[k].hash == rd.empty
    {
      assert (k, 1, rd.empty) in w.log && (k, 1, rd.empty).1 == 1;
    }
  }

  /** What brought the final votes about. */
  lemma FinalsTrace(rd: Round, w: World, h: Hash)
    requires Settled(rd, w, h)
    ensures Common(rd, h) && Heavy(rd, rd.honest, REDUCTION_TWO)
    ensures Heavy(rd, Casters(rd, w.log, 1, h), 1) && Heavy(rd, Casters(rd, w.log, FINAL, h), FINAL)
  {
    var k := SomeCaster(rd, w.log, FINAL, h);
    assert (k, FINAL, h).1 == FINAL;
    var j := SomeCaster(rd, w.log, 1, h);
    assert (j, 1, h).1 == 1;
    HeavyGrows(rd, Casters(rd, w.log, REDUCTION_TWO, h), rd.honest, REDUCTION_TWO);
    var i := SomeCaster(rd, w.log, REDUCTION_TWO, h);
    assert (i, REDUCTION_TWO, h).1 == REDUCTION_TWO;
  }

  lemma EmptyVoter(rd: Round, w: World, k: Key, s: int)
    requires EmptyVotes(rd, w) && (k, s, rd.empty) in w.log && LaterStep(s) && s % 2 == 0
    ensures k in w.nodes
    ensures || w.nodes[k].hash == rd.empty || Backed(rd, w.log, s - 1, rd.empty)
            || (s >= 4 && Backed(rd, w.log, s - 2, rd.empty))
  {
    assert (k, s, rd.empty).1 == s;
  }

  lemma HeldIt(rd: Round, w: World, h: Hash, s: int)
    requires Settled(rd, w, h) && EmptyBacked(rd, w.log, s) && !EmptyBacked(rd, w.log, s - 2)
    requires !Backed(rd, w.log, s - 1, rd.empty)
    ensures Heavy(rd, rd.honest - Casters(rd, w.log, FINAL, h) - Casters(rd, w.log, 1, h), s)
  {
    var f, g, e := Casters(rd, w.log, FINAL, h), Casters(rd, w.log, 1, h), Casters(rd, w.log, s, rd.empty);
    FinalsApart(rd, w, h, s);
    FirstApart(rd, w, h);
    forall k | k in e
      ensures k in rd.honest - f - g
    {
      EmptyVoter(rd, w, k, s);
    }
    HeavyGrows(rd, e, rd.honest - f - g, s);
  }

  lemma WereTurned(rd: Round, w: World, h: Hash, s: int)
    requires Settled(rd, w, h) && EmptyBacked(rd, w.log, s) && Backed(rd, w.log, s - 1, rd.empty)
    ensures var f, g := Casters(rd, w.log, FINAL, h), Casters(rd, w.log, 1, h);
      Heavy(rd, if s == 2 then rd.honest - g else rd.honest - f, s - 1) && Heavy(rd, rd.honest - f, s)
  {
    var f := Casters(rd, w.log, FINAL, h);
    FinalsApart(rd, w, h, s);
    HeavyGrows(rd, Casters(rd, w.log, s, rd.empty), rd.honest - f, s);
    if s == 2 {
      FirstApart(rd, w, h);
      HeavyGrows(rd, Casters(rd, w.log, 1, rd.empty), rd.honest - Casters(rd, w.log, 1, h), 1);
    } else {
      FinalsApart(rd, w, h, s - 1);
      HeavyGrows(rd, Casters(rd, w.log, s - 1, rd.empty), rd.honest - f, s - 1);
    }
  }

  /** The first quorum for the empty hash at an even step: its voters held it already, or a quorum one
      step before turned them. */
  lemma SplitTrace(rd: Round, w: World, h: Hash)
    requires Settled(rd, w, h) && Usable(rd, rd.empty) && exists s :: EmptyBacked(rd, w.log, s)
    ensures CanSplit(rd)
  {
    var f, g := Casters(rd, w.log, FINAL, h), Casters(rd, w.log, 1, h);
    var last :| EmptyBacked(rd, w.log, last);
    var s := LeastEmpty(rd, w.log, last);
    FinalsTrace(rd, w, h);
    if Backed(rd, w.log, s - 1, rd.empty) {
      WereTurned(rd, w, h, s);
    } else {
      HeldIt(rd, w, h, s);
    }
    assert Splits(rd, h, f, g, s);
  }
}
