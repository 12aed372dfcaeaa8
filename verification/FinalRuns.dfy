/** Runs that split a round: the nodes that go final and the nodes that decide the empty hash hear only
    what the split needs. */
module FinalRuns {
  import opened Folds
  import opened SetSums
  import opened Voting
  import opened Agreement
  import opened Consensus
  import opened Finality

  ghost predicate Reached(rd: Round, w: World) {
    forall u :: Open(u) ==> exists events :: Run(rd, Start(rd), events) == w
  }

  lemma {:induction false} RunSnoc(rd: Round, w: World, events: seq<Event>, e: Event)
    ensures Run(rd, w, events + [e]) == Apply(rd, Run(rd, w, events), e)
    decreases |events|
  {
    if events == [] {
      assert [] + [e] == [e] && [e][1..] == [];
    } else {
      assert (events + [e])[1..] == events[1..] + [e];
      RunSnoc(rd, Apply(rd, w, events[0]), events[1..], e);
    }
  }

  lemma StartReached(rd: Round)
    ensures Reached(rd, Start(rd))
  {
    assert Run(rd, Start(rd), []) == Start(rd);
  }

  lemma ReachedNext(rd: Round, w: World, e: Event)
    requires Reached(rd, w)
    ensures Reached(rd, Apply(rd, w, e))
  {
    assert Open(0);
    var events :| Run(rd, Start(rd), events) == w;
    RunSnoc(rd, Start(rd), events, e);
    assert Run(rd, Start(rd), events + [e]) == Apply(rd, w, e);
  }

  // ---------------------------------------------------------------- ballots that make a quorum

  ghost function BallotsFor(s: set<Key>, w: Key -> nat, h: Hash): seq<Ballot> {
    if s == {} then [] else
      var k :| k in s;
      BallotsFor(s - {k}, w, h) + [Ballot(k, w(k), h)]
  }

  lemma {:induction false} BallotsOf(s: set<Key>, w: Key -> nat, h: Hash)
    ensures forall b :: b in BallotsFor(s, w, h) ==> b.key in s && b.weight == w(b.key) && b.hash == h
    ensures Voters(BallotsFor(s, w, h)) <= s
    ensures Sum(Voters(BallotsFor(s, w, h)), w) == Sum(s, w)
    decreases |s|
  {
    if s != {} {
      var k :| k in s && BallotsFor(s, w, h) == BallotsFor(s - {k}, w, h) + [Ballot(k, w(k), h)];
      BallotsOf(s - {k}, w, h);
      var less := BallotsFor(s - {k}, w, h);
      VotersSnoc(less, Ballot(k, w(k), h));
      SumRemove(s, k, w);
      if w(k) > 0 {
        SumAdd(Voters(less), k, w);
      }
    }
  }

  /** Keys of enough weight that all vote for h make a quorum for h. */
  lemma BallotsWin(s: set<Key>, w: Key -> nat, h: Hash, threshold: nat, timerFired: bool)
    requires |h| >= 4 && Sum(s, w) >= threshold > 0
    ensures OutcomeOf(BallotsFor(s, w, h), threshold, timerFired) == Quorum(h)
  {
    var bs := BallotsFor(s, w, h);
    var hashOf := (k: Key) => h;
    BallotsOf(s, w, h);
    OutcomeMeaning(bs, threshold, timerFired, hashOf, w);
    assert Backers(bs, hashOf, h) == Voters(bs);
  }

  // ---------------------------------------------------------------- nodes that count

  /** What a node at this step can be made to hear. */
  ghost predicate CanHear(rd: Round, log: Log, step: int, o: Outcome) {
    o.Timeout? || (o.Quorum? && Usable(rd, o.hash) && Backed(rd, log, step, o.hash))
  }

  lemma QuorumHeard(rd: Round, log: Log, step: int, h: Hash) returns (bs: seq<Ballot>)
    requires Minority(rd) && CanHear(rd, log, step, Quorum(h))
    ensures OutcomeOf(bs, ThresholdAt(rd, step), false) == Quorum(h)
    ensures forall b :: b in bs ==>
      && b.hash == h && b.weight == At(rd, step)(b.key)
      && (b.key in rd.byzantine || (b.key, step, h) in log)
  {
    var casters := Casters(rd, log, step, h);
    SumUnion(casters, rd.byzantine, At(rd, step));
    bs := BallotsFor(casters + rd.byzantine, At(rd, step), h);
    BallotsOf(casters + rd.byzantine, At(rd, step), h);
    BallotsWin(casters + rd.byzantine, At(rd, step), h, ThresholdAt(rd, step), false);
  }

  lemma Hearing(rd: Round, w: World, k: Key, o: Outcome) returns (e: Event)
    requires Minority(rd) && k in rd.honest && k in w.nodes && CanHear(rd, w.log, StepOf(w.nodes[k]), o)
    ensures e.node == k && e.coin == 0 && Possible(rd, w, e) && OutcomeAt(rd, w, e) == o
  {
    e := Event(k, [], true, 0);
    if o.Quorum? {
      var bs := QuorumHeard(rd, w.log, StepOf(w.nodes[k]), o.hash);
      e := Event(k, bs, false, 0);
    }
  }

  lemma OneHears(rd: Round, w: World, k: Key, o: Outcome) returns (w': World)
    requires Reached(rd, w) && Minority(rd) && k in rd.honest && k in w.nodes
    requires CanHear(rd, w.log, StepOf(w.nodes[k]), o)
    ensures Reached(rd, w') && w' == After(rd, w, k, o, 0)
  {
    var e := Hearing(rd, w, k, o);
    w' := Apply(rd, w, e);
    ReachedNext(rd, w, e);
  }

  ghost predicate Heard(rd: Round, w: World, w': World, some: set<Key>, o: Outcome) {
    && w'.nodes.Keys == w.nodes.Keys && w.log <= w'.log
    && (forall k :: k in w.nodes && k !in some ==> w'.nodes[k] == w.nodes[k])
    && (forall k :: k in some && k in w.nodes ==>
          && w'.nodes[k] == OnCount(w.nodes[k], rd.empty, o, 0).0
          && Logged(k, OnCount(w.nodes[k], rd.empty, o, 0).1) <= w'.log)
  }

  /** All of these nodes hear the same. */
  lemma {:induction false} AllHear(rd: Round, w: World, some: set<Key>, step: int, o: Outcome) returns (w': World)
    requires Reached(rd, w) && Minority(rd) && some <= rd.honest && w.nodes.Keys == rd.honest
    requires (forall k :: k in some ==> StepOf(w.nodes[k]) == step) && CanHear(rd, w.log, step, o)
    ensures Reached(rd, w') && Heard(rd, w, w', some, o)
    decreases |some|
  {
    w' := w;
    if some != {} {
      var k :| k in some;
      var w1 := OneHears(rd, w, k, o);
      if o.Quorum? {
        BackedGrows(rd, w.log, w1.log, step, o.hash);
      }
      w' := AllHear(rd, w1, some - {k}, step, o);
      forall j | j in w.nodes && j in some
        ensures w'.nodes[j] == OnCount(w.nodes[j], rd.empty, o, 0).0
        ensures Logged(j, OnCount(w.nodes[j], rd.empty, o, 0).1) <= w'.log
      {
        if j == k {
          assert w1.nodes[k] == w'.nodes[k];
        } else {
          assert w1.nodes[j] == w.nodes[j];
        }
      }
    }
  }

  lemma LoggedCast(k: Key, casts: seq<Cast>, i: nat)
    requires i < |casts|
    ensures (k, casts[i].step, casts[i].hash) in Logged(k, casts)
  {
  }

  lemma AllCast(rd: Round, log: Log, some: set<Key>, step: int, h: Hash)
    requires some <= rd.honest && Heavy(rd, some, step) && forall k :: k in some ==> (k, step, h) in log
    ensures Backed(rd, log, step, h)
  {
    HeavyGrows(rd, some, Casters(rd, log, step, h), step);
  }

  // ---------------------------------------------------------------- the final side

  /** What a node brings out of reduction. */
  ghost function Own(rd: Round, h: Hash, g: set<Key>, k: Key): Hash {
    if k in g then h else rd.empty
  }

  lemma AllReduceOnce(rd: Round, h: Hash) returns (w: World)
    requires Minority(rd) && Common(rd, h)
    ensures Reached(rd, w) && w.nodes.Keys == rd.honest
    ensures forall k :: k in rd.honest ==> w.nodes[k].phase == AwaitTwo && (k, REDUCTION_TWO, h) in w.log
  {
    StartReached(rd);
    AllCast(rd, Start(rd).log, Proposers(rd, h), REDUCTION_ONE, h);
    w := AllHear(rd, Start(rd), rd.honest, REDUCTION_ONE, Quorum(h));
    forall k | k in rd.honest
      ensures (k, REDUCTION_TWO, h) in w.log
    {
      LoggedCast(k, [Cast(REDUCTION_TWO, h)], 0);
    }
  }

  ghost predicate Reduced(rd: Round, w: World, h: Hash, g: set<Key>) {
    && w.nodes.Keys == rd.honest
    && forall k :: k in rd.honest ==>
      w.nodes[k] == StartBinary(Own(rd, h, g, k)).0 && (k, 1, Own(rd, h, g, k)) in w.log
  }

  lemma SomeHoldIt(rd: Round, h: Hash, g: set<Key>) returns (w: World)
    requires Minority(rd) && Common(rd, h) && g <= rd.honest && Heavy(rd, rd.honest, REDUCTION_TWO)
    ensures Reached(rd, w) && w.nodes.Keys == rd.honest
    ensures forall k :: k in g ==> w.nodes[k] == StartBinary(h).0 && (k, 1, h) in w.log
    ensures forall k :: k in rd.honest - g ==> w.nodes[k].phase == AwaitTwo
  {
    var w1 := AllReduceOnce(rd, h);
    AllCast(rd, w1.log, rd.honest, REDUCTION_TWO, h);
    w := AllHear(rd, w1, g, REDUCTION_TWO, Quorum(h));
    forall k | k in g
      ensures (k, 1, h) in w.log
    {
      LoggedCast(k, [Cast(1, h)], 0);
    }
  }

  lemma AllReduceTwice(rd: Round, h: Hash, g: set<Key>) returns (w: World)
    requires Minority(rd) && Common(rd, h) && g <= rd.honest && Heavy(rd, rd.honest, REDUCTION_TWO)
    ensures Reached(rd, w) && Reduced(rd, w, h, g)
  {
    var w1 := SomeHoldIt(rd, h, g);
    w := AllHear(rd, w1, rd.honest - g, REDUCTION_TWO, Timeout);
    forall k | k in rd.honest - g
      ensures (k, 1, rd.empty) in w.log
    {
      LoggedCast(k, [Cast(1, rd.empty)], 0);
    }
  }

  ghost predicate Finals(w: World, h: Hash, f: set<Key>) {
    forall k :: k in f ==> k in w.nodes && w.nodes[k].phase == Finished(true) && w.nodes[k].r == h
  }

  /** The final side is done; the others wait for the first binary count. */
  ghost predicate Poised(rd: Round, w: World, h: Hash, f: set<Key>, g: set<Key>) {
    && w.nodes.Keys == rd.honest && Finals(w, h, f)
    && (forall k :: k in rd.honest - f ==> w.nodes[k] == StartBinary(Own(rd, h, g, k)).0)
    && (forall k :: k in rd.honest ==> (k, 1, Own(rd, h, g, k)) in w.log)
  }

  /** The keys `f` have decided h at the first count; the others wait for it. */
  ghost predicate Chosen(rd: Round, w: World, h: Hash, f: set<Key>, g: set<Key>) {
    && w.nodes.Keys == rd.honest
    && (forall k :: k in f ==>
          k in w.nodes && w.nodes[k].phase == AwaitFinal && w.nodes[k].r == h && (k, FINAL, h) in w.log)
    && (forall k :: k in rd.honest - f ==> w.nodes[k] == StartBinary(Own(rd, h, g, k)).0)
    && (forall k :: k in rd.honest ==> (k, 1, Own(rd, h, g, k)) in w.log)
  }

  lemma SomeChoose(rd: Round, w: World, h: Hash, f: set<Key>, g: set<Key>) returns (w': World)
    requires Minority(rd) && Reached(rd, w) && Reduced(rd, w, h, g) && f <= rd.honest && g <= rd.honest
    requires Usable(rd, h) && h != rd.empty && Heavy(rd, g, 1)
    ensures Reached(rd, w') && Chosen(rd, w', h, f, g)
  {
    AllCast(rd, w.log, g, 1, h);
    w' := AllHear(rd, w, f, 1, Quorum(h));
    forall k | k in f
      ensures (k, FINAL, h) in w'.log
    {
      LoggedCast(k, Ahead(1, h) + [Cast(FINAL, h)], 3);
    }
  }

  lemma SomeFinalise(rd: Round, w: World, h: Hash, f: set<Key>, g: set<Key>) returns (w': World)
    requires Minority(rd) && Reached(rd, w) && Reduced(rd, w, h, g) && f <= rd.honest && g <= rd.honest
    requires Usable(rd, h) && h != rd.empty && Heavy(rd, g, 1) && Heavy(rd, f, FINAL)
    ensures Reached(rd, w') && Poised(rd, w', h, f, g)
  {
    var w1 := SomeChoose(rd, w, h, f, g);
    AllCast(rd, w1.log, f, FINAL, h);
    w' := AllHear(rd, w1, f, FINAL, Quorum(h));
  }

  // ---------------------------------------------------------------- the empty side

  /** The others wait for the second stage of an even step; those without `h` have voted the empty hash. */
  ghost predicate AtEven(rd: Round, w: World, h: Hash, f: set<Key>, g: set<Key>, s: int) {
    && w.nodes.Keys == rd.honest && Finals(w, h, f) && 2 <= s <= 12 && s % 2 == 0
    && forall k :: k in rd.honest - f ==>
      && w.nodes[k] == Node(AwaitStage(2), s, Own(rd, h, g, k), Own(rd, h, g, k))
      && (k, s, Own(rd, h, g, k)) in w.log
  }

  /** The others wait for the first stage of an odd step; all of them have voted the empty hash. */
  ghost predicate AtOdd(rd: Round, w: World, h: Hash, f: set<Key>, g: set<Key>, s: int) {
    && w.nodes.Keys == rd.honest && Finals(w, h, f) && 3 <= s <= 11 && s % 2 == 1
    && forall k :: k in rd.honest - f ==>
      && w.nodes[k] == Node(AwaitStage(1), s, Own(rd, h, g, k), Own(rd, h, g, k))
      && (k, s, rd.empty) in w.log
  }

  lemma FirstSilence(rd: Round, w: World, h: Hash, f: set<Key>, g: set<Key>) returns (w': World)
    requires Minority(rd) && Reached(rd, w) && Poised(rd, w, h, f, g) && f <= rd.honest
    ensures Reached(rd, w') && AtEven(rd, w', h, f, g, 2)
  {
    w' := AllHear(rd, w, rd.honest - f, 1, Timeout);
    forall k | k in rd.honest - f
      ensures (k, 2, Own(rd, h, g, k)) in w'.log
    {
      LoggedCast(k, [Cast(2, Own(rd, h, g, k))], 0);
    }
  }

  /** The others wait for a third stage, having voted the empty hash. */
  ghost predicate AtThird(rd: Round, w: World, h: Hash, f: set<Key>, g: set<Key>, s: nat) {
    && w.nodes.Keys == rd.honest && Finals(w, h, f)
    && forall k :: k in rd.honest - f ==>
      w.nodes[k] == Node(AwaitStage(3), s, rd.empty, Own(rd, h, g, k)) && (k, s, rd.empty) in w.log
  }

  lemma SecondSilence(rd: Round, w: World, h: Hash, f: set<Key>, g: set<Key>, s: int) returns (w': World)
    requires Minority(rd) && Reached(rd, w) && AtEven(rd, w, h, f, g, s) && f <= rd.honest && s <= 10
    ensures Reached(rd, w') && AtThird(rd, w', h, f, g, s + 1)
  {
    w' := AllHear(rd, w, rd.honest - f, s, Timeout);
    forall k | k in rd.honest - f
      ensures (k, s + 1, rd.empty) in w'.log
    {
      LoggedCast(k, [Cast(s + 1, rd.empty)], 0);
    }
  }

  lemma TwoSilences(rd: Round, w: World, h: Hash, f: set<Key>, g: set<Key>, s: int) returns (w': World)
    requires Minority(rd) && Reached(rd, w) && AtEven(rd, w, h, f, g, s) && f <= rd.honest && s <= 10
    ensures Reached(rd, w') && AtOdd(rd, w', h, f, g, s + 1)
  {
    var w1 := SecondSilence(rd, w, h, f, g, s);
    w' := AllHear(rd, w1, rd.honest - f, s + 1, Timeout);
  }

  lemma ThirdSilence(rd: Round, w: World, h: Hash, f: set<Key>, g: set<Key>, s: int) returns (w': World)
    requires Minority(rd) && Reached(rd, w) && AtOdd(rd, w, h, f, g, s) && f <= rd.honest
    ensures Reached(rd, w') && AtEven(rd, w', h, f, g, s + 1)
  {
    w' := AllHear(rd, w, rd.honest - f, s, Timeout);
    forall k | k in rd.honest - f
      ensures (k, s + 1, Own(rd, h, g, k)) in w'.log
    {
      LoggedCast(k, [Cast(s + 1, Own(rd, h, g, k))], 0);
    }
  }

  /** Silence leads the others to every even step. */
  lemma {:induction false} SilentUntil(rd: Round, w: World, h: Hash, f: set<Key>, g: set<Key>, s: int)
    returns (w': World)
    requires Minority(rd) && Reached(rd, w) && Poised(rd, w, h, f, g) && f <= rd.honest && 2 <= s <= 12 && s % 2 == 0
    ensures Reached(rd, w') && AtEven(rd, w', h, f, g, s)
    decreases s
  {
    if s == 2 {
      w' := FirstSilence(rd, w, h, f, g);
    } else {
      var w1 := SilentUntil(rd, w, h, f, g, s - 2);
      var w2 := TwoSilences(rd, w1, h, f, g, s - 2);
      w' := ThirdSilence(rd, w2, h, f, g, s - 1);
    }
  }

  /** Some node waits at an even step at which the empty hash is backed. */
  ghost predicate Due(rd: Round, w: World, h: Hash, f: set<Key>, s: int) {
    && w.nodes.Keys == rd.honest && Finals(w, h, f) && Backed(rd, w.log, s, rd.empty)
    && exists k :: k in rd.honest - f && w.nodes[k].phase == AwaitStage(2) && w.nodes[k].step == s
  }

  /** Those that hold no `h` are enough, */
  lemma OnTheirOwn(rd: Round, w: World, h: Hash, f: set<Key>, g: set<Key>, s: int) returns (w': World)
    requires Minority(rd) && Reached(rd, w) && Poised(rd, w, h, f, g) && f <= rd.honest && 2 <= s <= 12 && s % 2 == 0
    requires Heavy(rd, rd.honest - f - g, s)
    ensures Reached(rd, w') && Due(rd, w', h, f, s)
  {
    w' := SilentUntil(rd, w, h, f, g, s);
    AllCast(rd, w'.log, rd.honest - f - g, s, rd.empty);
    var k := SomeHeavy(rd, rd.honest - f - g, s);
  }

  lemma SomeHeavy(rd: Round, some: set<Key>, s: int) returns (k: Key)
    requires Minority(rd) && Heavy(rd, some, s)
    ensures k in some
  {
    assert some == {} ==> Sum(some, At(rd, s)) == 0;
    k :| k in some;
  }

  /** The others hear a quorum for the empty hash one step before and vote for it, all of them. */
  lemma TurnAll(rd: Round, w: World, h: Hash, f: set<Key>, g: set<Key>, s: int) returns (w': World)
    requires Minority(rd) && Reached(rd, w) && w.nodes.Keys == rd.honest && Finals(w, h, f) && f <= rd.honest && s >= 2
    requires forall k :: k in rd.honest - f ==>
      w.nodes[k] == Node(AwaitStage(1), s - 1, Own(rd, h, g, k), Own(rd, h, g, k))
    requires Usable(rd, rd.empty) && Backed(rd, w.log, s - 1, rd.empty) && Heavy(rd, rd.honest - f, s)
    ensures Reached(rd, w') && Due(rd, w', h, f, s)
  {
    w' := AllHear(rd, w, rd.honest - f, s - 1, Quorum(rd.empty));
    forall k | k in rd.honest - f
      ensures (k, s, rd.empty) in w'.log
    {
      LoggedCast(k, [Cast(s, rd.empty)], 0);
    }
    AllCast(rd, w'.log, rd.honest - f, s, rd.empty);
    var k := SomeHeavy(rd, rd.honest - f, s);
  }

  /** or those that do are turned by a quorum one step before. */
  lemma Turned(rd: Round, w: World, h: Hash, f: set<Key>, g: set<Key>, s: int) returns (w': World)
    requires Minority(rd) && Reached(rd, w) && Poised(rd, w, h, f, g) && f <= rd.honest && 2 <= s <= 12 && s % 2 == 0
    requires Heavy(rd, if s == 2 then rd.honest - g else rd.honest - f, s - 1) && Heavy(rd, rd.honest - f, s)
    requires Usable(rd, rd.empty)
    ensures Reached(rd, w') && Due(rd, w', h, f, s)
  {
    if s == 2 {
      AllCast(rd, w.log, rd.honest - g, 1, rd.empty);
      w' := TurnAll(rd, w, h, f, g, s);
    } else {
      var w0 := SilentUntil(rd, w, h, f, g, s - 2);
      var w1 := TwoSilences(rd, w0, h, f, g, s - 2);
      AllCast(rd, w1.log, rd.honest - f, s - 1, rd.empty);
      w' := TurnAll(rd, w1, h, f, g, s);
    }
  }

  lemma Decides(rd: Round, w: World, h: Hash, f: set<Key>, s: int) returns (w': World, k: Key)
    requires Minority(rd) && Reached(rd, w) && Due(rd, w, h, f, s) && Usable(rd, rd.empty)
    ensures Reached(rd, w') && Finals(w', h, f) && k in w'.nodes && Decided(w'.nodes[k]) && w'.nodes[k].r == rd.empty
  {
    k :| k in rd.honest - f && w.nodes[k].phase == AwaitStage(2) && w.nodes[k].step == s;
    w' := OneHears(rd, w, k, Quorum(rd.empty));
  }

  // ---------------------------------------------------------------- exactly when

  /** A split round has a final node beside one that has decided the empty hash. */
  lemma SplitRuns(rd: Round, h: Hash, f: set<Key>, g: set<Key>, s: int) returns (w: World, a: Key, b: Key)
    requires Minority(rd) && Splits(rd, h, f, g, s)
    ensures Reached(rd, w) && a in f && a in w.nodes && b in w.nodes
    ensures w.nodes[a].phase == Finished(true) && w.nodes[a].r == h
    ensures Decided(w.nodes[b]) && w.nodes[b].r == rd.empty
  {
    a := SomeHeavy(rd, f, FINAL);
    w := AllReduceTwice(rd, h, g);
    w := SomeFinalise(rd, w, h, f, g);
    if Heavy(rd, rd.honest - f - g, s) {
      w := OnTheirOwn(rd, w, h, f, g, s);
    } else {
      w := Turned(rd, w, h, f, g, s);
    }
    w, b := Decides(rd, w, h, f, s);
  }

  /** No two nodes ever decide two different blocks. */
  ghost predicate DecisionsAgree(rd: Round) {
    forall w, a, b :: Reached(rd, w) && a in w.nodes && b in w.nodes && Decided(w.nodes[a]) && Decided(w.nodes[b])
      ==> w.nodes[a].r == w.nodes[b].r || NoBlock(rd, w.nodes[a].r) || NoBlock(rd, w.nodes[b].r)
  }

  /** Whatever else is decided beside a final hash, other than nil, is that hash. */
  ghost predicate FinalExcludes(rd: Round) {
    forall w, a, b :: Reached(rd, w) && a in w.nodes && b in w.nodes
      && w.nodes[a].phase == Finished(true) && w.nodes[a].r != []
      && Decided(w.nodes[b]) && w.nodes[b].r != []
      ==> w.nodes[b].r == w.nodes[a].r
  }

  lemma ReachedInv(rd: Round, w: World)
    requires PrefixesDistinct(rd.universe) && Minority(rd) && Reached(rd, w)
    ensures Inv(rd, w) && FinalInv(rd, w)
  {
    assert Open(0);
    var events :| Run(rd, Start(rd), events) == w;
    RunKeepsInv(rd, Start(rd), events);
    RunKeepsFinalInv(rd, Start(rd), events);
  }

  lemma StartTraced(rd: Round)
    ensures Inv(rd, Start(rd)) && FinalInv(rd, Start(rd)) && Traced(rd, Start(rd))
  {
  }

  lemma ReachedTraced(rd: Round, w: World)
    requires PrefixesDistinct(rd.universe) && Minority(rd) && Reached(rd, w) && rd.empty != []
    ensures Traced(rd, w)
  {
    StartTraced(rd);
    assert Open(0);
    var events :| Run(rd, Start(rd), events) == w;
    RunKeepsTraced(rd, Start(rd), events);
  }

  lemma FinalHash(rd: Round, w: World, a: Key)
    requires Inv(rd, w) && FinalInv(rd, w)
    requires a in w.nodes && w.nodes[a].phase == Finished(true) && w.nodes[a].r != []
    ensures w.nodes[a].r != rd.empty && Common(rd, w.nodes[a].r)
  {
    var k :| (k, FINAL, w.nodes[a].r) in w.log;
    assert (k, FINAL, w.nodes[a].r).2 != rd.empty && NodeSound(rd, w.nodes[a]);
  }

  lemma DecidedHash(rd: Round, w: World, b: Key)
    requires Inv(rd, w) && b in w.nodes && Decided(w.nodes[b]) && w.nodes[b].r != []
    ensures w.nodes[b].r == rd.empty || Common(rd, w.nodes[b].r)
  {
    assert NodeSound(rd, w.nodes[b]);
  }

  lemma SplitIfNot(rd: Round, w: World, a: Key, b: Key)
    requires PrefixesDistinct(rd.universe) && Minority(rd) && DecisionsAgree(rd) && Reached(rd, w)
    requires a in w.nodes && b in w.nodes && w.nodes[a].phase == Finished(true) && w.nodes[a].r != []
    requires Decided(w.nodes[b]) && w.nodes[b].r != [] && w.nodes[b].r != w.nodes[a].r
    ensures CanSplit(rd)
  {
    ReachedInv(rd, w);
    FinalHash(rd, w, a);
    DecidedHash(rd, w, b);
    ReachedTraced(rd, w);
    EndsAt(rd, w, a, b);
    SplitTrace(rd, w, w.nodes[a].r);
  }

  lemma EndsAt(rd: Round, w: World, a: Key, b: Key)
    requires Ends(rd, w) && a in w.nodes && b in w.nodes
    ensures w.nodes[a].phase == Finished(true) && w.nodes[a].r != [] ==> Backed(rd, w.log, FINAL, w.nodes[a].r)
    ensures Decided(w.nodes[b]) && w.nodes[b].r == rd.empty ==>
      Usable(rd, rd.empty) && exists s :: EmptyBacked(rd, w.log, s)
  {
  }

  /** Final consensus on a block excludes every other decision, over all runs, if and only if the weights
      of the round do not let it split. */
  lemma FinalExcludesIff(rd: Round)
    requires PrefixesDistinct(rd.universe) && Minority(rd) && DecisionsAgree(rd)
    ensures FinalExcludes(rd) <==> !CanSplit(rd)
  {
    if CanSplit(rd) {
      var h, f, g, s :| Splits(rd, h, f, g, s);
      var w, a, b := SplitRuns(rd, h, f, g, s);
    } else {
      forall w, a, b | Reached(rd, w) && a in w.nodes && b in w.nodes
          && w.nodes[a].phase == Finished(true) && w.nodes[a].r != []
          && Decided(w.nodes[b]) && w.nodes[b].r != []
        ensures w.nodes[b].r == w.nodes[a].r
      {
        if w.nodes[b].r != w.nodes[a].r {
          SplitIfNot(rd, w, a, b);
        }
      }
    }
  }

  lemma OneCommonAgrees(rd: Round)
    requires PrefixesDistinct(rd.universe) && Minority(rd) && OneCommon(rd)
    ensures DecisionsAgree(rd)
  {
    forall w, a, b | Reached(rd, w) && a in w.nodes && b in w.nodes && Decided(w.nodes[a]) && Decided(w.nodes[b])
      ensures w.nodes[a].r == w.nodes[b].r || NoBlock(rd, w.nodes[a].r) || NoBlock(rd, w.nodes[b].r)
    {
      ReachedInv(rd, w);
      assert NodeSound(rd, w.nodes[a]) && NodeSound(rd, w.nodes[b]);
    }
  }

  /** Where every count without quorum is a timeout, that is the only decision of the round. */
  lemma FinalIsAll(rd: Round, w: World, a: Key, b: Key)
    requires PrefixesDistinct(rd.universe) && Minority(rd) && DecisionsAgree(rd) && !CanSplit(rd)
    requires !rd.allowNil && rd.empty != [] && Reached(rd, w) && a in w.nodes && b in w.nodes
    requires w.nodes[a].phase == Finished(true) && Decided(w.nodes[b])
    ensures w.nodes[b].r == w.nodes[a].r
  {
    ReachedInv(rd, w);
    assert NodeSound(rd, w.nodes[a]) && NodeSound(rd, w.nodes[b]);
    FinalExcludesIff(rd);
  }

  /** Whatever part of the honest weight can go final leaves too little for the empty hash. */
  ghost predicate FinalOutweighs(rd: Round) {
    forall f, s :: f <= rd.honest && Heavy(rd, f, FINAL) && 2 <= s <= 12 && s % 2 == 0 ==>
      !Heavy(rd, rd.honest - f, s)
  }

  /** That is enough. */
  lemma OutweighingExcludes(rd: Round)
    requires PrefixesDistinct(rd.universe) && Minority(rd) && DecisionsAgree(rd) && FinalOutweighs(rd)
    ensures FinalExcludes(rd)
  {
    if CanSplit(rd) {
      var h, f, g, s :| Splits(rd, h, f, g, s);
      if Heavy(rd, rd.honest - f - g, s) {
        HeavyGrows(rd, rd.honest - f - g, rd.honest - f, s);
      }
    }
    FinalExcludesIff(rd);
  }

  /** A round of two honest nodes whose committee weights let each reach the threshold alone, but for
      `b` in the first reduction step. */
  ghost predicate TwoHeavy(rd: Round, a: Key, b: Key, h: Hash) {
    && a != b && rd.honest == {a, b} && rd.byzantine == {} && rd.threshold == rd.finalThreshold == 2
    && rd.proposal(a) == h && rd.universe == {h, rd.empty} && |h| >= 4 && |rd.empty| >= 4
    && h[..4] != rd.empty[..4]
    && rd.weight(b, REDUCTION_ONE) == 1
    && forall k, step :: !(k == b && step == REDUCTION_ONE) ==> rd.weight(k, step) == 2
  }

  lemma TwoHeavySum(a: Key, b: Key, w: Key -> nat)
    requires a != b
    ensures Sum({a, b}, w) == w(a) + w(b) && Sum({a}, w) == w(a) && Sum({b}, w) == w(b)
  {
    SumRemove({a, b}, a, w);
    assert {a, b} - {a} == {b};
    SumRemove({b}, b, w);
    assert {b} - {b} == {};
    SumRemove({a}, a, w);
    assert {a} - {a} == {};
  }

  lemma TwoHeavyBounded(rd: Round, a: Key, b: Key, h: Hash)
    requires TwoHeavy(rd, a, b, h)
    ensures WeightsBounded(rd) && PrefixesDistinct(rd.universe)
  {
    TwoHeavySum(a, b, At(rd, REDUCTION_ONE));
  }

  lemma TwoHeavySplits(rd: Round, a: Key, b: Key, h: Hash)
    requires TwoHeavy(rd, a, b, h)
    ensures Splits(rd, h, {a}, {a}, 2)
  {
    assert rd.honest - {a} - {a} == {b};
    assert a in Proposers(rd, h);
    TwoHeavySum(a, b, At(rd, REDUCTION_ONE));
    SumSubset({a}, Proposers(rd, h), At(rd, REDUCTION_ONE));
    TwoHeavySum(a, b, At(rd, REDUCTION_TWO));
    TwoHeavySum(a, b, At(rd, 1));
    TwoHeavySum(a, b, At(rd, 2));
    TwoHeavySum(a, b, At(rd, FINAL));
  }

  /** So it can split within the weight bound: `a` goes final, `b` decides the empty block. */
  lemma FinalBesideEmpty(rd: Round, a: Key, b: Key, h: Hash)
    requires TwoHeavy(rd, a, b, h)
    ensures WeightsBounded(rd) && PrefixesDistinct(rd.universe) && !FinalExcludes(rd)
    ensures exists w ::
      && Reached(rd, w) && a in w.nodes && b in w.nodes
      && w.nodes[a].phase == Finished(true) && w.nodes[a].r == h
      && Decided(w.nodes[b]) && w.nodes[b].r == rd.empty
  {
    TwoHeavyBounded(rd, a, b, h);
    CommonUnique(rd);
    OneCommonAgrees(rd);
    TwoHeavySplits(rd, a, b, h);
    FinalExcludesIff(rd);
    var w, i, j := SplitRuns(rd, h, {a}, {a}, 2);
    ReachedInv(rd, w);
    assert i == a && j == b;
  }

  // ---------------------------------------------------------------- the first reduction step

  /** Some run shows some node a quorum for this hash at the first reduction step. */
  ghost predicate WinsFirst(rd: Round, h: Hash) {
    exists w, e :: Reached(rd, w) && Possible(rd, w, e) && w.nodes[e.node].phase.AwaitOne?
      && OutcomeAt(rd, w, e) == Quorum(h)
  }

  lemma FirstQuorumIff(rd: Round, h: Hash)
    requires PrefixesDistinct(rd.universe) && Minority(rd)
    ensures WinsFirst(rd, h) <==> Common(rd, h)
  {
    if Common(rd, h) {
      StartReached(rd);
      var log := Start(rd).log;
      AllCast(rd, log, Proposers(rd, h), REDUCTION_ONE, h);
      var k := SomeCaster(rd, log, REDUCTION_ONE, h);
      var e := Hearing(rd, Start(rd), k, Quorum(h));
    } else if WinsFirst(rd, h) {
      var w, e :| Reached(rd, w) && Possible(rd, w, e) && w.nodes[e.node].phase.AwaitOne?
        && OutcomeAt(rd, w, e) == Quorum(h);
      ReachedInv(rd, w);
      FirstQuorumIsCommon(rd, w, e.ballots, e.timerFired, h);
    }
  }
}
