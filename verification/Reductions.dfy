/** Exactly when reduction (algorand/algorand.go, reduction) leaves at most one block: no two blocks can
    both win its two steps on disjoint parts of the honest weight. */
module Reductions {
  import opened Folds
  import opened Voting
  import opened Agreement
  import opened Consensus
  import opened Finality
  import opened FinalRuns

  /** A node votes once at the second step, after its first count. */
  ghost predicate OneSecondVote(w: World) {
    forall u :: u in w.log && u.1 == REDUCTION_TWO ==>
      && u.0 in w.nodes && !w.nodes[u.0].phase.AwaitOne?
      && forall v :: v in w.log && v.1 == REDUCTION_TWO && v.0 == u.0 ==> v.2 == u.2
  }

  /** A block that comes out of reduction is backed at its second step. */
  ghost predicate HashBacked(rd: Round, w: World) {
    forall k :: k in w.nodes && PastReduction(w.nodes[k]) && w.nodes[k].hash != rd.empty && w.nodes[k].hash != [] ==>
      Backed(rd, w.log, REDUCTION_TWO, w.nodes[k].hash)
  }

  lemma SecondCasts(rd: Round, n: Node, o: Outcome, coin: int)
    requires NodeSound(rd, n)
    ensures var (n', casts) := OnCount(n, rd.empty, o, coin);
      && (!n.phase.AwaitOne? ==> !n'.phase.AwaitOne?)
      && (forall c, d :: c in casts && d in casts && c.step == d.step == REDUCTION_TWO ==> c == d)
      && (forall c :: c in casts && c.step == REDUCTION_TWO ==> n.phase.AwaitOne? && n'.phase.AwaitTwo?)
  {
    if n.phase == AwaitStage(1) {
    } else if n.phase == AwaitStage(2) {
    } else if n.phase == AwaitStage(3) {
    }
  }

  lemma HashReturned(rd: Round, n: Node, o: Outcome, coin: int)
    requires NodeSound(rd, n)
    ensures var n' := OnCount(n, rd.empty, o, coin).0;
      PastReduction(n') ==>
        || (PastReduction(n) && n'.hash == n.hash)
        || (n.phase.AwaitTwo? && (n'.hash == rd.empty || (!o.Timeout? && !o.Crash? && n'.hash == Value(o))))
  {
  }

  lemma OnceKept(rd: Round, w: World, k: Key, o: Outcome, coin: int)
    requires Inv(rd, w) && k in w.nodes && OneSecondVote(w)
    ensures OneSecondVote(After(rd, w, k, o, coin))
  {
    var n, w' := w.nodes[k], After(rd, w, k, o, coin);
    assert NodeSound(rd, n);
    SecondCasts(rd, n, o, coin);
    forall u | u in w'.log && u.1 == REDUCTION_TWO
      ensures u.0 in w'.nodes && !w'.nodes[u.0].phase.AwaitOne?
      ensures forall v :: v in w'.log && v.1 == REDUCTION_TWO && v.0 == u.0 ==> v.2 == u.2
    {
      if u !in w.log {
        var c := NewVote(rd, w, k, o, coin, u);
      }
    }
  }

  lemma HashKept(rd: Round, w: World, k: Key, o: Outcome, coin: int)
    requires Inv(rd, w) && k in w.nodes && ValueBacked(rd, w.log, w.nodes[k], o) && HashBacked(rd, w)
    ensures HashBacked(rd, After(rd, w, k, o, coin))
  {
    var n, w' := w.nodes[k], After(rd, w, k, o, coin);
    assert NodeSound(rd, n);
    HashReturned(rd, n, o, coin);
    forall j | j in w'.nodes && PastReduction(w'.nodes[j]) && w'.nodes[j].hash != rd.empty && w'.nodes[j].hash != []
      ensures Backed(rd, w'.log, REDUCTION_TWO, w'.nodes[j].hash)
    {
      BackedGrows(rd, w.log, w'.log, REDUCTION_TWO, w'.nodes[j].hash);
    }
  }

  lemma {:induction false} RunKeepsBoth(rd: Round, w: World, events: seq<Event>)
    requires PrefixesDistinct(rd.universe) && Minority(rd)
    requires Inv(rd, w) && OneSecondVote(w) && HashBacked(rd, w)
    ensures OneSecondVote(Run(rd, w, events)) && HashBacked(rd, Run(rd, w, events))
    decreases |events|
  {
    if events != [] {
      var e := events[0];
      EventKeepsInv(rd, w, e);
      if Possible(rd, w, e) {
        CountIsBacked(rd, w, e);
        OnceKept(rd, w, e.node, OutcomeAt(rd, w, e), e.coin);
        HashKept(rd, w, e.node, OutcomeAt(rd, w, e), e.coin);
      }
      RunKeepsBoth(rd, Apply(rd, w, e), events[1..]);
    }
  }

  lemma ReachedBoth(rd: Round, w: World)
    requires PrefixesDistinct(rd.universe) && Minority(rd) && Reached(rd, w)
    ensures OneSecondVote(w) && HashBacked(rd, w)
  {
    StartTraced(rd);
    assert Open(0);
    var events :| Run(rd, Start(rd), events) == w;
    RunKeepsBoth(rd, Start(rd), events);
  }

  /** Two blocks that both win the first step, and disjoint honest keys that carry each over the second. */
  ghost predicate Divides(rd: Round, g: Hash, h: Hash, s: set<Key>, t: set<Key>) {
    && g != h && g != rd.empty && h != rd.empty && Common(rd, g) && Common(rd, h)
    && s <= rd.honest && t <= rd.honest && s !! t && Heavy(rd, s, REDUCTION_TWO) && Heavy(rd, t, REDUCTION_TWO)
  }

  ghost predicate CanDivide(rd: Round) {
    exists g, h, s, t :: Divides(rd, g, h, s, t)
  }

  /** No two nodes ever come out of reduction with different blocks. */
  ghost predicate ReductionAgrees(rd: Round) {
    forall w, a, b :: Reached(rd, w) && a in w.nodes && b in w.nodes
      && PastReduction(w.nodes[a]) && PastReduction(w.nodes[b])
      ==> w.nodes[a].hash == w.nodes[b].hash || NoBlock(rd, w.nodes[a].hash) || NoBlock(rd, w.nodes[b].hash)
  }

  lemma DivideIfNot(rd: Round, w: World, a: Key, b: Key)
    requires PrefixesDistinct(rd.universe) && Minority(rd) && Reached(rd, w) && a in w.nodes && b in w.nodes
    requires PastReduction(w.nodes[a]) && PastReduction(w.nodes[b]) && w.nodes[a].hash != w.nodes[b].hash
    requires !NoBlock(rd, w.nodes[a].hash) && !NoBlock(rd, w.nodes[b].hash)
    ensures CanDivide(rd)
  {
    var g, h := w.nodes[a].hash, w.nodes[b].hash;
    ReachedInv(rd, w);
    ReachedBoth(rd, w);
    assert NodeSound(rd, w.nodes[a]) && NodeSound(rd, w.nodes[b]);
    var s, t := Casters(rd, w.log, REDUCTION_TWO, g), Casters(rd, w.log, REDUCTION_TWO, h);
    forall k | k in s
      ensures k !in t
    {
      assert (k, REDUCTION_TWO, g).1 == REDUCTION_TWO;
    }
    assert Divides(rd, g, h, s, t);
  }

  ghost predicate Waiting(rd: Round, w: World, some: set<Key>, h: Hash) {
    forall k :: k in some ==> k in w.nodes && w.nodes[k].phase == AwaitTwo && (k, REDUCTION_TWO, h) in w.log
  }

  lemma OneSideVotes(rd: Round, w: World, some: set<Key>, h: Hash) returns (w': World)
    requires Minority(rd) && Reached(rd, w) && w.nodes.Keys == rd.honest && some <= rd.honest
    requires Usable(rd, h) && Backed(rd, w.log, REDUCTION_ONE, h)
    requires forall k :: k in some ==> w.nodes[k].phase.AwaitOne?
    ensures Reached(rd, w') && Heard(rd, w, w', some, Quorum(h)) && Waiting(rd, w', some, h)
  {
    w' := AllHear(rd, w, some, REDUCTION_ONE, Quorum(h));
    forall k | k in some
      ensures (k, REDUCTION_TWO, h) in w'.log
    {
      LoggedCast(k, [Cast(REDUCTION_TWO, h)], 0);
    }
  }

  lemma EachSideVotes(rd: Round, g: Hash, h: Hash, s: set<Key>, t: set<Key>) returns (w: World)
    requires Minority(rd) && Divides(rd, g, h, s, t)
    ensures Reached(rd, w) && w.nodes.Keys == rd.honest && Waiting(rd, w, s, g) && Waiting(rd, w, t, h)
    ensures forall k :: k in rd.honest - s - t ==> w.nodes[k].phase.AwaitOne?
  {
    StartReached(rd);
    var log := Start(rd).log;
    AllCast(rd, log, Proposers(rd, g), REDUCTION_ONE, g);
    AllCast(rd, log, Proposers(rd, h), REDUCTION_ONE, h);
    var w1 := OneSideVotes(rd, Start(rd), s, g);
    BackedGrows(rd, log, w1.log, REDUCTION_ONE, h);
    w := OneSideVotes(rd, w1, t, h);
  }

  lemma OneComesOut(rd: Round, w: World, k: Key, h: Hash) returns (w': World)
    requires Minority(rd) && Reached(rd, w) && k in rd.honest && k in w.nodes && w.nodes[k].phase.AwaitTwo?
    requires Usable(rd, h) && Backed(rd, w.log, REDUCTION_TWO, h)
    ensures Reached(rd, w') && w.log <= w'.log && w'.nodes == w.nodes[k := StartBinary(h).0]
  {
    w' := OneHears(rd, w, k, Quorum(h));
  }

  lemma DivideRuns(rd: Round, g: Hash, h: Hash, s: set<Key>, t: set<Key>) returns (w: World, a: Key, b: Key)
    requires Minority(rd) && Divides(rd, g, h, s, t)
    ensures Reached(rd, w) && a in w.nodes && b in w.nodes && PastReduction(w.nodes[a]) && PastReduction(w.nodes[b])
    ensures w.nodes[a].hash == g && w.nodes[b].hash == h
  {
    a := SomeHeavy(rd, s, REDUCTION_TWO);
    b := SomeHeavy(rd, t, REDUCTION_TWO);
    var w0 := EachSideVotes(rd, g, h, s, t);
    AllCast(rd, w0.log, s, REDUCTION_TWO, g);
    AllCast(rd, w0.log, t, REDUCTION_TWO, h);
    var w1 := OneComesOut(rd, w0, a, g);
    BackedGrows(rd, w0.log, w1.log, REDUCTION_TWO, h);
    w := OneComesOut(rd, w1, b, h);
  }

  /** Over all runs reduction leaves at most one block if and only if the weights do not let it divide. */
  lemma ReductionAgreesIff(rd: Round)
    requires PrefixesDistinct(rd.universe) && Minority(rd)
    ensures ReductionAgrees(rd) <==> !CanDivide(rd)
  {
    if CanDivide(rd) {
      var g, h, s, t :| Divides(rd, g, h, s, t);
      var w, a, b := DivideRuns(rd, g, h, s, t);
      assert !NoBlock(rd, g) && !NoBlock(rd, h);
    } else {
      forall w, a, b | Reached(rd, w) && a in w.nodes && b in w.nodes
          && PastReduction(w.nodes[a]) && PastReduction(w.nodes[b])
        ensures w.nodes[a].hash == w.nodes[b].hash || NoBlock(rd, w.nodes[a].hash) || NoBlock(rd, w.nodes[b].hash)
      {
        if !(w.nodes[a].hash == w.nodes[b].hash || NoBlock(rd, w.nodes[a].hash) || NoBlock(rd, w.nodes[b].hash)) {
          DivideIfNot(rd, w, a, b);
        }
      }
    }
  }
}
