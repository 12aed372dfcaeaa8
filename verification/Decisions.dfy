/** What a decision on a block rests on (algorand/algorand.go, binaryBA): the nodes that brought it out of
    reduction, or all who saw a quorum of theirs one step before. */
module Decisions {
  import opened Voting
  import opened Agreement
  import opened Consensus
  import opened Finality

  predicate IsBlock(rd: Round, h: Hash) {
    h != rd.empty && h != []
  }

  predicate BinaryStep(t: int) {
    1 <= t <= 15
  }

  /** The node has decided v at step s, and voted ahead for it. */
  ghost predicate DecidedAt(w: World, k: Key, v: Hash, s: int) {
    && k in w.nodes && w.nodes[k].r == v && w.nodes[k].step == s && (k, s + 1, v) in w.log
    && (Decided(w.nodes[k]) || w.nodes[k].phase.Dead?)
  }

  ghost predicate SomeDecided(w: World, v: Hash, most: int) {
    exists k, s :: DecidedAt(w, k, v, s) && s <= most
  }

  /** Who votes for v at this step and brought it out of reduction. */
  ghost function Held(rd: Round, w: World, t: int, v: Hash): set<Key> {
    set k | k in Casters(rd, w.log, t, v) && k in w.nodes && w.nodes[k].hash == v
  }

  /** No vote is ahead of its node, unless that has decided. */
  ghost predicate UpToNow(w: World) {
    && (forall v :: v in w.log && BinaryStep(v.1) ==>
          v.0 in w.nodes && (w.nodes[v.0].phase.AwaitStage? ==> v.1 <= w.nodes[v.0].step))
    && forall k :: k in w.nodes ==> w.nodes[k].step <= 13
  }

  /** A node that has decided a block saw a quorum for it at an odd step and votes for nothing else after. */
  ghost predicate DecidersBacked(rd: Round, w: World) {
    && (forall k :: k in w.nodes && Decided(w.nodes[k]) ==> (k, w.nodes[k].step + 1, w.nodes[k].r) in w.log)
    && (forall k, v, s :: DecidedAt(w, k, v, s) && IsBlock(rd, v) ==>
          && 1 <= s <= 11 && s % 2 == 1 && Backed(rd, w.log, s, v)
          && forall u :: u in w.log && u.0 == k && s < u.1 <= 15 ==> u.2 == v)
  }

  /** The binary loop's first vote is for what reduction returned. */
  ghost predicate HoldersVoted(w: World) {
    forall k :: k in w.nodes && w.nodes[k].hash != [] ==> Begun(w.nodes[k]) && (k, 1, w.nodes[k].hash) in w.log
  }

  /** Where a vote for a block comes from: its node holds the block, or it saw a quorum just before, or one
      that the block's holders made, or somebody has decided the block earlier. */
  ghost predicate BlockVote(rd: Round, w: World, v: (Key, int, Hash)) {
    && v.0 in w.nodes
    && (|| w.nodes[v.0].hash == v.2
        || SomeDecided(w, v.2, v.1 - 1)
        || (v.1 % 2 == 1 && v.1 >= 3 && (Backed(rd, w.log, v.1 - 1, v.2) || Heavy(rd, Held(rd, w, v.1, v.2), v.1))))
  }

  ghost predicate BlockVotes(rd: Round, w: World) {
    forall v :: v in w.log && BinaryStep(v.1) && IsBlock(rd, v.2) ==> BlockVote(rd, w, v)
  }

  // ---------------------------------------------------------------- one count

  lemma CastsUpToNow(rd: Round, n: Node, o: Outcome, coin: int)
    requires NodeSound(rd, n)
    ensures var (n', casts) := OnCount(n, rd.empty, o, coin);
      && (n'.phase.AwaitStage? ==> forall c :: c in casts && BinaryStep(c.step) ==> c.step <= n'.step)
      && (n'.phase.AwaitStage? && n.phase.AwaitStage? ==> n.step <= n'.step)
      && (n'.phase.AwaitStage? ==> n.phase.AwaitTwo? || n.phase.AwaitStage?)
      && (n.step <= 13 ==> n'.step <= 13)
  {
    if n.phase == AwaitStage(1) {
    } else if n.phase == AwaitStage(2) {
    } else if n.phase == AwaitStage(3) {
    }
  }

  /** A node decides on the count it took, at its step, and votes ahead for that alone. */
  lemma CountDecides(rd: Round, n: Node, o: Outcome, coin: int)
    requires NodeSound(rd, n)
    ensures var (n', casts) := OnCount(n, rd.empty, o, coin);
      && (Decided(n') && !Decided(n) ==>
            && n.phase.AwaitStage? && !o.Timeout? && !o.Crash? && n'.r == Value(o) && n'.step == n.step
            && casts != [] && casts[0] == Cast(n.step + 1, n'.r)
            && (forall c :: c in casts && BinaryStep(c.step) ==> c.hash == n'.r)
            && (n'.r != rd.empty ==> n.step <= 11 && n.step % 2 == 1))
      && (Decided(n) || n.phase.Dead? ==>
            n'.r == n.r && n'.step == n.step && casts == [] && (Decided(n') || n'.phase.Dead?))
      && (n'.phase.Dead? ==> casts == [] && n'.r == n.r && n'.step == n.step)
  {
    if n.phase == AwaitStage(1) {
    } else if n.phase == AwaitStage(2) {
    } else if n.phase == AwaitStage(3) {
    }
  }

  lemma CountReduces(rd: Round, n: Node, o: Outcome, coin: int)
    requires NodeSound(rd, n)
    ensures var (n', casts) := OnCount(n, rd.empty, o, coin);
      n'.hash != n.hash ==> n.phase.AwaitTwo? && Begun(n') && casts == [Cast(1, n'.hash)]
  {
  }

  /** The votes for a block: own hash, or the value of the count, or with a decision. */
  lemma CastsBlock(rd: Round, n: Node, o: Outcome, coin: int)
    requires NodeSound(rd, n) && (n.phase.AwaitStage? ==> n.phase.stage <= n.step)
    ensures var (n', casts) := OnCount(n, rd.empty, o, coin);
      forall c :: c in casts && BinaryStep(c.step) && IsBlock(rd, c.hash) ==>
        || n'.hash == c.hash
        || (Decided(n') && n'.r == c.hash && n'.step < c.step)
        || (n.phase.AwaitStage? && !o.Timeout? && !o.Crash? && Value(o) == c.hash && c.step % 2 == 1 && c.step >= 3
            && (n.step == c.step || n.step == c.step - 1))
  {
    if n.phase == AwaitStage(1) {
    } else if n.phase == AwaitStage(2) {
    } else if n.phase == AwaitStage(3) {
    }
  }

  // ---------------------------------------------------------------- every count keeps it

  lemma UpToNowKept(rd: Round, w: World, k: Key, o: Outcome, coin: int)
    requires Ready(rd, w, k, o) && UpToNow(w)
    ensures UpToNow(After(rd, w, k, o, coin))
  {
    var n, w' := w.nodes[k], After(rd, w, k, o, coin);
    assert NodeSound(rd, n);
    CastsUpToNow(rd, n, o, coin);
    forall v | v in w'.log && BinaryStep(v.1)
      ensures v.0 in w'.nodes && (w'.nodes[v.0].phase.AwaitStage? ==> v.1 <= w'.nodes[v.0].step)
    {
      if v !in w.log {
        var c := NewVote(rd, w, k, o, coin, v);
      } else {
        assert Begun(w.nodes[v.0]);
      }
    }
  }

  lemma HoldersKept(rd: Round, w: World, k: Key, o: Outcome, coin: int)
    requires Ready(rd, w, k, o) && HoldersVoted(w)
    ensures HoldersVoted(After(rd, w, k, o, coin))
  {
    var n, w' := w.nodes[k], After(rd, w, k, o, coin);
    assert NodeSound(rd, n);
    CountReduces(rd, n, o, coin);
    CastsInOrder(rd, n, o, coin);
    forall j | j in w'.nodes && w'.nodes[j].hash != []
      ensures Begun(w'.nodes[j]) && (j, 1, w'.nodes[j].hash) in w'.log
    {
      if j == k && w'.nodes[k].hash != n.hash {
        assert Cast(1, w'.nodes[k].hash) in OnCount(n, rd.empty, o, coin).1;
      }
    }
  }

  lemma DecidedStays(rd: Round, w: World, k: Key, o: Outcome, coin: int, j: Key, v: Hash, s: int)
    requires Ready(rd, w, k, o) && DecidedAt(w, j, v, s)
    ensures DecidedAt(After(rd, w, k, o, coin), j, v, s)
  {
    assert NodeSound(rd, w.nodes[k]);
    CountDecides(rd, w.nodes[k], o, coin);
  }

  /** A decision that is there after a count was there before, or is this node's own. */
  lemma DecidedBefore(rd: Round, w: World, k: Key, o: Outcome, coin: int, j: Key, v: Hash, s: int)
    requires Ready(rd, w, k, o) && DecidedAt(After(rd, w, k, o, coin), j, v, s) && UpToNow(w)
    ensures DecidedAt(w, j, v, s) || (j == k && !Decided(w.nodes[k]) && Decided(After(rd, w, k, o, coin).nodes[k]))
  {
    var n := w.nodes[k];
    assert NodeSound(rd, n);
    CountDecides(rd, n, o, coin);
    if j == k && !Decided(n) && After(rd, w, k, o, coin).nodes[k].phase.Dead? {
      assert (k, s + 1, v) in w.log && (k, s + 1, v).1 == s + 1;
    }
  }

  /** The node decides on this count: what it rests on. */
  lemma NewDecider(rd: Round, w: World, k: Key, o: Outcome, coin: int)
    requires Ready(rd, w, k, o) && UpToNow(w)
    requires !Decided(w.nodes[k]) && Decided(After(rd, w, k, o, coin).nodes[k])
    ensures var w' := After(rd, w, k, o, coin);
      var v, s := w'.nodes[k].r, w'.nodes[k].step;
      && (k, s + 1, v) in w'.log
      && (IsBlock(rd, v) ==>
            && 1 <= s <= 11 && s % 2 == 1 && Backed(rd, w'.log, s, v)
            && forall u :: u in w'.log && u.0 == k && s < u.1 <= 15 ==> u.2 == v)
  {
    var n, w' := w.nodes[k], After(rd, w, k, o, coin);
    var v, s, casts := w'.nodes[k].r, w'.nodes[k].step, OnCount(w.nodes[k], rd.empty, o, coin).1;
    assert NodeSound(rd, n);
    CountDecides(rd, n, o, coin);
    assert casts[0] in casts;
    if IsBlock(rd, v) {
      BackedGrows(rd, w.log, w'.log, s, v);
      forall u | u in w'.log && u.0 == k && s < u.1 <= 15
        ensures u.2 == v
      {
        if u !in w.log {
          var c := NewVote(rd, w, k, o, coin, u);
        }
      }
    }
  }

  lemma OldDecider(rd: Round, w: World, k: Key, o: Outcome, coin: int, j: Key, v: Hash, s: int)
    requires Ready(rd, w, k, o) && DecidersBacked(rd, w) && DecidedAt(w, j, v, s) && IsBlock(rd, v)
    ensures 1 <= s <= 11 && s % 2 == 1 && Backed(rd, After(rd, w, k, o, coin).log, s, v)
    ensures forall u :: u in After(rd, w, k, o, coin).log && u.0 == j && s < u.1 <= 15 ==> u.2 == v
  {
    var w' := After(rd, w, k, o, coin);
    assert NodeSound(rd, w.nodes[k]);
    CountDecides(rd, w.nodes[k], o, coin);
    BackedGrows(rd, w.log, w'.log, s, v);
    forall u | u in w'.log && u.0 == j && s < u.1 <= 15
      ensures u.2 == v
    {
      if u !in w.log {
        var c := NewVote(rd, w, k, o, coin, u);
      }
    }
  }

  lemma DeciderKept(rd: Round, w: World, k: Key, o: Outcome, coin: int, j: Key, v: Hash, s: int)
    requires Ready(rd, w, k, o) && UpToNow(w) && DecidersBacked(rd, w)
    requires DecidedAt(After(rd, w, k, o, coin), j, v, s) && IsBlock(rd, v)
    ensures 1 <= s <= 11 && s % 2 == 1 && Backed(rd, After(rd, w, k, o, coin).log, s, v)
    ensures forall u :: u in After(rd, w, k, o, coin).log && u.0 == j && s < u.1 <= 15 ==> u.2 == v
  {
    DecidedBefore(rd, w, k, o, coin, j, v, s);
    if DecidedAt(w, j, v, s) {
      OldDecider(rd, w, k, o, coin, j, v, s);
    } else {
      NewDecider(rd, w, k, o, coin);
    }
  }

  lemma AheadKept(rd: Round, w: World, k: Key, o: Outcome, coin: int, j: Key)
    requires Ready(rd, w, k, o) && UpToNow(w) && DecidersBacked(rd, w)
    requires var w' := After(rd, w, k, o, coin); j in w'.nodes && Decided(w'.nodes[j])
    ensures var w' := After(rd, w, k, o, coin); (j, w'.nodes[j].step + 1, w'.nodes[j].r) in w'.log
  {
    assert NodeSound(rd, w.nodes[k]);
    CountDecides(rd, w.nodes[k], o, coin);
    if j == k && !Decided(w.nodes[k]) {
      NewDecider(rd, w, k, o, coin);
    }
  }

  lemma DecidersKept(rd: Round, w: World, k: Key, o: Outcome, coin: int)
    requires Ready(rd, w, k, o) && UpToNow(w) && DecidersBacked(rd, w)
    ensures DecidersBacked(rd, After(rd, w, k, o, coin))
  {
    var w' := After(rd, w, k, o, coin);
    forall j | j in w'.nodes && Decided(w'.nodes[j])
      ensures (j, w'.nodes[j].step + 1, w'.nodes[j].r) in w'.log
    {
      AheadKept(rd, w, k, o, coin, j);
    }
    forall j, v, s | DecidedAt(w', j, v, s) && IsBlock(rd, v)
      ensures 1 <= s <= 11 && s % 2 == 1 && Backed(rd, w'.log, s, v)
      ensures forall u :: u in w'.log && u.0 == j && s < u.1 <= 15 ==> u.2 == v
    {
      DeciderKept(rd, w, k, o, coin, j, v, s);
    }
  }

  lemma HeldGrows(rd: Round, w: World, w': World, t: int, v: Hash)
    requires Heavy(rd, Held(rd, w, t, v), t) && w.log <= w'.log
    requires forall k :: k in w.nodes ==>
      k in w'.nodes && (w.nodes[k].hash == v ==> w'.nodes[k].hash == v || (k, t, v) !in w.log)
    ensures Heavy(rd, Held(rd, w', t, v), t)
  {
    HeavyGrows(rd, Held(rd, w, t, v), Held(rd, w', t, v), t);
  }

  /** A quorum for a block at an odd step, before its voters are asked where their votes came from. */
  lemma QuorumRests(rd: Round, w: World, t: int, v: Hash)
    requires BlockVotes(rd, w) && Backed(rd, w.log, t, v) && IsBlock(rd, v) && 3 <= t <= 15 && t % 2 == 1
    ensures || SomeDecided(w, v, t - 1) || Backed(rd, w.log, t - 1, v) || Heavy(rd, Held(rd, w, t, v), t)
  {
    if !SomeDecided(w, v, t - 1) && !Backed(rd, w.log, t - 1, v) && !Heavy(rd, Held(rd, w, t, v), t) {
      forall k | k in Casters(rd, w.log, t, v)
        ensures k in Held(rd, w, t, v)
      {
        assert BlockVote(rd, w, (k, t, v));
      }
      HeavyGrows(rd, Casters(rd, w.log, t, v), Held(rd, w, t, v), t);
    }
  }

  lemma SomeStays(rd: Round, w: World, k: Key, o: Outcome, coin: int, v: Hash, most: int)
    requires Ready(rd, w, k, o) && SomeDecided(w, v, most)
    ensures SomeDecided(After(rd, w, k, o, coin), v, most)
  {
    var j, s :| DecidedAt(w, j, v, s) && s <= most;
    DecidedStays(rd, w, k, o, coin, j, v, s);
  }

  lemma AsBefore(rd: Round, w: World, k: Key, o: Outcome, coin: int, t: int, v: Hash)
    requires Ready(rd, w, k, o) && BinaryStep(t)
    requires SomeDecided(w, v, t - 1) || Backed(rd, w.log, t - 1, v) || Heavy(rd, Held(rd, w, t, v), t)
    ensures var w' := After(rd, w, k, o, coin);
      SomeDecided(w', v, t - 1) || Backed(rd, w'.log, t - 1, v) || Heavy(rd, Held(rd, w', t, v), t)
  {
    var n, w' := w.nodes[k], After(rd, w, k, o, coin);
    assert NodeSound(rd, n);
    CastsAtFirst(rd, n, o, coin);
    if SomeDecided(w, v, t - 1) {
      SomeStays(rd, w, k, o, coin, v, t - 1);
    } else if Backed(rd, w.log, t - 1, v) {
      BackedGrows(rd, w.log, w'.log, t - 1, v);
    } else {
      forall j | j in w.nodes && (j, t, v) in w.log
        ensures w'.nodes[j].hash == w.nodes[j].hash
      {
        assert Begun(w.nodes[(j, t, v).0]);
      }
      HeldGrows(rd, w, w', t, v);
    }
  }

  lemma OldVote(rd: Round, w: World, k: Key, o: Outcome, coin: int, v: (Key, int, Hash))
    requires Ready(rd, w, k, o) && v in w.log && BinaryStep(v.1) && BlockVote(rd, w, v)
    ensures BlockVote(rd, After(rd, w, k, o, coin), v)
  {
    var n := w.nodes[k];
    assert NodeSound(rd, n);
    CastsAtFirst(rd, n, o, coin);
    assert Begun(w.nodes[v.0]);
    if SomeDecided(w, v.2, v.1 - 1) {
      SomeStays(rd, w, k, o, coin, v.2, v.1 - 1);
    } else if w.nodes[v.0].hash != v.2 {
      AsBefore(rd, w, k, o, coin, v.1, v.2);
    }
  }

  /** A new vote for a block that is neither the node's own nor with its decision follows the value of its
      count. */
  lemma FollowsCount(rd: Round, w: World, k: Key, o: Outcome, coin: int, t: int, v: Hash)
    requires Ready(rd, w, k, o) && BlockVotes(rd, w) && IsBlock(rd, v) && 3 <= t <= 15 && t % 2 == 1
    requires !o.Timeout? && !o.Crash? && Value(o) == v && w.nodes[k].phase.AwaitStage?
    requires w.nodes[k].step == t || w.nodes[k].step == t - 1
    ensures var w' := After(rd, w, k, o, coin);
      SomeDecided(w', v, t - 1) || Backed(rd, w'.log, t - 1, v) || Heavy(rd, Held(rd, w', t, v), t)
  {
    if w.nodes[k].step == t {
      QuorumRests(rd, w, t, v);
    }
    AsBefore(rd, w, k, o, coin, t, v);
  }

  lemma VoteSource(rd: Round, w: World, k: Key, o: Outcome, coin: int, v: (Key, int, Hash))
    requires Ready(rd, w, k, o) && v in After(rd, w, k, o, coin).log && v !in w.log
    requires BinaryStep(v.1) && IsBlock(rd, v.2)
    ensures v.0 == k
    ensures var n, n' := w.nodes[k], After(rd, w, k, o, coin).nodes[k];
      || n'.hash == v.2
      || (Decided(n') && !Decided(n) && n'.r == v.2 && n'.step < v.1)
      || (n.phase.AwaitStage? && !o.Timeout? && !o.Crash? && Value(o) == v.2 && v.1 % 2 == 1 && v.1 >= 3
          && (n.step == v.1 || n.step == v.1 - 1))
  {
    var n := w.nodes[k];
    assert NodeSound(rd, n);
    CastsBlock(rd, n, o, coin);
    CountDecides(rd, n, o, coin);
    var c := NewVote(rd, w, k, o, coin, v);
  }

  lemma OwnDecision(rd: Round, w: World, k: Key, o: Outcome, coin: int, most: int)
    requires Ready(rd, w, k, o) && UpToNow(w)
    requires !Decided(w.nodes[k]) && Decided(After(rd, w, k, o, coin).nodes[k])
    requires After(rd, w, k, o, coin).nodes[k].step <= most
    ensures SomeDecided(After(rd, w, k, o, coin), After(rd, w, k, o, coin).nodes[k].r, most)
  {
    var w' := After(rd, w, k, o, coin);
    NewDecider(rd, w, k, o, coin);
    assert DecidedAt(w', k, w'.nodes[k].r, w'.nodes[k].step);
  }

  lemma VoteByDecision(rd: Round, w: World, k: Key, o: Outcome, coin: int, t: int, v: Hash)
    requires Ready(rd, w, k, o) && UpToNow(w)
    requires !Decided(w.nodes[k]) && Decided(After(rd, w, k, o, coin).nodes[k])
    requires After(rd, w, k, o, coin).nodes[k].step < t && After(rd, w, k, o, coin).nodes[k].r == v
    ensures BlockVote(rd, After(rd, w, k, o, coin), (k, t, v))
  {
    OwnDecision(rd, w, k, o, coin, t - 1);
  }

  lemma VoteByCount(rd: Round, w: World, k: Key, o: Outcome, coin: int, t: int, v: Hash)
    requires Ready(rd, w, k, o) && BlockVotes(rd, w) && IsBlock(rd, v) && 3 <= t <= 15 && t % 2 == 1
    requires !o.Timeout? && !o.Crash? && Value(o) == v && w.nodes[k].phase.AwaitStage?
    requires w.nodes[k].step == t || w.nodes[k].step == t - 1
    ensures BlockVote(rd, After(rd, w, k, o, coin), (k, t, v))
  {
    FollowsCount(rd, w, k, o, coin, t, v);
  }

  lemma FreshVote(rd: Round, w: World, k: Key, o: Outcome, coin: int, v: (Key, int, Hash))
    requires Ready(rd, w, k, o) && UpToNow(w) && BlockVotes(rd, w)
    requires v in After(rd, w, k, o, coin).log && v !in w.log && BinaryStep(v.1) && IsBlock(rd, v.2)
    ensures BlockVote(rd, After(rd, w, k, o, coin), v)
  {
    VoteSource(rd, w, k, o, coin, v);
    var n, n' := w.nodes[k], After(rd, w, k, o, coin).nodes[k];
    assert v == (k, v.1, v.2);
    if n'.hash == v.2 {
    } else if Decided(n') && !Decided(n) && n'.r == v.2 && n'.step < v.1 {
      VoteByDecision(rd, w, k, o, coin, v.1, v.2);
    } else {
      VoteByCount(rd, w, k, o, coin, v.1, v.2);
    }
  }

  lemma BlockVotesKept(rd: Round, w: World, k: Key, o: Outcome, coin: int)
    requires Ready(rd, w, k, o) && UpToNow(w) && BlockVotes(rd, w)
    ensures BlockVotes(rd, After(rd, w, k, o, coin))
  {
    var w' := After(rd, w, k, o, coin);
    forall v | v in w'.log && BinaryStep(v.1) && IsBlock(rd, v.2)
      ensures BlockVote(rd, w', v)
    {
      if v in w.log {
        OldVote(rd, w, k, o, coin, v);
      } else {
        FreshVote(rd, w, k, o, coin, v);
      }
    }
  }

  // ---------------------------------------------------------------- the run

  ghost predicate Grounded(rd: Round, w: World) {
    UpToNow(w) && HoldersVoted(w) && DecidersBacked(rd, w) && BlockVotes(rd, w)
  }

  lemma StartGrounded(rd: Round)
    ensures Grounded(rd, Start(rd))
  {
  }

  lemma EventKeepsGrounded(rd: Round, w: World, e: Event)
    requires PrefixesDistinct(rd.universe) && Minority(rd) && rd.empty != []
    requires Inv(rd, w) && InOrder(w) && Grounded(rd, w)
    ensures Grounded(rd, Apply(rd, w, e)) && InOrder(Apply(rd, w, e))
  {
    if Possible(rd, w, e) {
      var o := OutcomeAt(rd, w, e);
      CountIsBacked(rd, w, e);
      OrderKept(rd, w, e.node, o, e.coin);
      UpToNowKept(rd, w, e.node, o, e.coin);
      HoldersKept(rd, w, e.node, o, e.coin);
      DecidersKept(rd, w, e.node, o, e.coin);
      BlockVotesKept(rd, w, e.node, o, e.coin);
    }
  }

  lemma {:induction false} RunKeepsGrounded(rd: Round, w: World, events: seq<Event>)
    requires PrefixesDistinct(rd.universe) && Minority(rd) && rd.empty != []
    requires Inv(rd, w) && InOrder(w) && Grounded(rd, w)
    ensures Grounded(rd, Run(rd, w, events))
    decreases |events|
  {
    if events != [] {
      EventKeepsInv(rd, w, events[0]);
      EventKeepsGrounded(rd, w, events[0]);
      RunKeepsGrounded(rd, Apply(rd, w, events[0]), events[1..]);
    }
  }
}
