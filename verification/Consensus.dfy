/** Agreement across the nodes of one round, over every interleaving and every partial delivery
    of their votes, with Byzantine keys that may tell each node something else. */
module Consensus {
  import opened Bytes
  import opened SetSums
  import opened Voting
  import opened Agreement

  /** `proposal` is the block hash each honest node starts BA with and `weight` bounds the sub-users
      that any receiver finds for a key at a step. `universe` holds the hashes that occur in messages.
      `allowNil` says whether counts may end without quorum though votes arrived. */
  datatype Round = Round(
    honest: set<Key>,
    byzantine: set<Key>,
    proposal: Key -> Hash,
    weight: (Key, int) -> nat,
    threshold: nat,
    finalThreshold: nat,
    empty: Hash,
    universe: set<Hash>,
    allowNil: bool)

  ghost function At(rd: Round, step: int): Key -> nat {
    (k: Key) => rd.weight(k, step)
  }

  function ThresholdAt(rd: Round, step: int): nat {
    if step == FINAL then rd.finalThreshold else rd.threshold
  }

  /** Byzantine weight alone reaches no threshold. */
  ghost predicate Minority(rd: Round) {
    && rd.honest !! rd.byzantine
    && (forall step {:trigger At(rd, step)} :: Sum(rd.byzantine, At(rd, step)) < ThresholdAt(rd, step))
  }

  /** A bound on the weights of the first reduction step. */
  ghost predicate WeightsBounded(rd: Round) {
    && Minority(rd)
    && Sum(rd.honest, At(rd, REDUCTION_ONE)) + 2 * Sum(rd.byzantine, At(rd, REDUCTION_ONE)) < 2 * rd.threshold
  }

  ghost predicate PrefixesDistinct(universe: set<Hash>) {
    forall g, h :: g in universe && h in universe && |g| >= 4 && |h| >= 4 && g[..4] == h[..4] ==> g == h
  }

  /** The honest nodes and every vote they have cast so far. */
  datatype World = World(nodes: map<Key, Node>, log: set<(Key, int, Hash)>)

  /** A node finishes a count: these are the ballots it has received for the step. */
  datatype Event = Event(node: Key, ballots: seq<Ballot>, timerFired: bool, coin: int)

  function StepOf(n: Node): int {
    match n.phase
    case AwaitOne => REDUCTION_ONE
    case AwaitTwo => REDUCTION_TWO
    case AwaitStage(_) => n.step
    case AwaitFinal => FINAL
    case _ => 0
  }

  ghost function Start(rd: Round): World {
    World(map k | k in rd.honest :: StartRound(rd.proposal(k)).0,
          set k | k in rd.honest :: (k, REDUCTION_ONE, rd.proposal(k)))
  }

  /** Ballots of honest keys were cast by them at this step; Byzantine ballots are arbitrary. How much a
      ballot weighs may differ from receiver to receiver and from message to message, up to the bound. */
  ghost predicate Authentic(rd: Round, w: World, step: int, ballots: seq<Ballot>) {
    forall b :: b in ballots && b.weight > 0 ==>
      && b.hash in rd.universe
      && b.weight <= At(rd, step)(b.key)
      && (b.key in rd.byzantine || (b.key, step, b.hash) in w.log)
  }

  ghost predicate Possible(rd: Round, w: World, e: Event) {
    && e.node in rd.honest && e.node in w.nodes
    && Authentic(rd, w, StepOf(w.nodes[e.node]), e.ballots)
    && (OutcomeAt(rd, w, e).NoQuorum? ==> rd.allowNil)
  }

  function OutcomeAt(rd: Round, w: World, e: Event): Outcome
    requires e.node in w.nodes
  {
    OutcomeOf(e.ballots, ThresholdAt(rd, StepOf(w.nodes[e.node])), e.timerFired)
  }

  ghost function Logged(k: Key, casts: seq<Cast>): set<(Key, int, Hash)> {
    set c | c in casts :: (k, c.step, c.hash)
  }

  ghost function Apply(rd: Round, w: World, e: Event): World {
    if !Possible(rd, w, e) then w else
      var (n, casts) := OnCount(w.nodes[e.node], rd.empty, OutcomeAt(rd, w, e), e.coin);
      World(w.nodes[e.node := n], w.log + Logged(e.node, casts))
  }

  ghost function Run(rd: Round, w: World, events: seq<Event>): World
    decreases |events|
  {
    if events == [] then w else Run(rd, Apply(rd, w, events[0]), events[1..])
  }

  // ---------------------------------------------------------------- the common hash

  ghost function Proposers(rd: Round, h: Hash): set<Key> {
    set k | k in rd.honest && rd.proposal(k) == h
  }

  /** `h` can win the first reduction step. */
  ghost predicate Common(rd: Round, h: Hash) {
    |h| >= 4 && h in rd.universe &&
    Sum(Proposers(rd, h), At(rd, REDUCTION_ONE)) + Sum(rd.byzantine, At(rd, REDUCTION_ONE)) >= rd.threshold
  }

  ghost predicate OneCommon(rd: Round) {
    forall g, h :: Common(rd, g) && Common(rd, h) ==> g == h
  }

  /** The weight bound leaves room for one such hash. */
  lemma CommonUnique(rd: Round)
    requires WeightsBounded(rd)
    ensures OneCommon(rd)
  {
    forall g, h | Common(rd, g) && Common(rd, h) && g != h
      ensures false
    {
      var w := At(rd, REDUCTION_ONE);
      SumUnion(Proposers(rd, g), Proposers(rd, h), w);
      SumSubset(Proposers(rd, g) + Proposers(rd, h), rd.honest, w);
    }
  }

  predicate NoBlock(rd: Round, h: Hash) {
    h == rd.empty || (rd.allowNil && h == [])
  }

  /** The values a node may hold after the first reduction step. */
  ghost predicate Allowed(rd: Round, h: Hash) {
    NoBlock(rd, h) || Common(rd, h)
  }

  ghost predicate LogSound(rd: Round, log: set<(Key, int, Hash)>) {
    forall v :: v in log ==>
      && v.0 in rd.honest
      && (if v.1 == REDUCTION_ONE then v.2 == rd.proposal(v.0) else Allowed(rd, v.2))
      && (v.1 == FINAL ==> v.2 != rd.empty)
  }

  ghost predicate NodeSound(rd: Round, n: Node) {
    match n.phase
    case AwaitOne => true
    case AwaitTwo => true
    case AwaitStage(stage) =>
      Allowed(rd, n.hash) && Allowed(rd, n.r) && 1 <= stage <= 3 && n.step <= 10 + stage && n.step % 2 == stage % 2
    case AwaitFinal => Allowed(rd, n.hash) && Allowed(rd, n.r)
    case Finished(final) => Allowed(rd, n.hash) && Allowed(rd, n.r)
    case Hung => Allowed(rd, n.hash)
    case Dead => true
  }

  ghost predicate Inv(rd: Round, w: World) {
    && w.nodes.Keys == rd.honest
    && LogSound(rd, w.log)
    && forall k {:trigger NodeSound(rd, w.nodes[k])} :: k in w.nodes ==> NodeSound(rd, w.nodes[k])
  }

  // ---------------------------------------------------------------- where a quorum comes from

  lemma QuorumOf(rd: Round, w: World, step: int, bs: seq<Ballot>, timerFired: bool, h: Hash)
    requires Authentic(rd, w, step, bs)
    requires OutcomeOf(bs, ThresholdAt(rd, step), timerFired) == Quorum(h)
    ensures |h| >= 4 && h in rd.universe
    ensures Sum(Supporters(bs, BytesToInt32(h)), At(rd, step)) >= ThresholdAt(rd, step)
  {
    QuorumNeedsWeight(bs, ThresholdAt(rd, step), At(rd, step));
  }

  /** Every supporter of a quorum is Byzantine or has cast a vote for that very hash. */
  lemma SupporterCast(rd: Round, w: World, step: int, bs: seq<Ballot>, h: Hash, k: Key)
    requires PrefixesDistinct(rd.universe) && Authentic(rd, w, step, bs)
    requires |h| >= 4 && h in rd.universe
    requires k in Supporters(bs, BytesToInt32(h))
    ensures k in rd.byzantine || (k, step, h) in w.log
  {
    SupporterSpoke(bs, BytesToInt32(h), k);
    var b :| b in bs && b.weight > 0 && b.key == k && Indexes(b, BytesToInt32(h));
    IndexIsPrefix(b.hash, h);
  }

  ghost function Casters(rd: Round, log: set<(Key, int, Hash)>, step: int, h: Hash): set<Key> {
    set k | k in rd.honest && (k, step, h) in log
  }

  /** With the Byzantine keys these have the weight of a quorum. */
  ghost predicate Heavy(rd: Round, keys: set<Key>, step: int) {
    Sum(keys, At(rd, step)) + Sum(rd.byzantine, At(rd, step)) >= ThresholdAt(rd, step)
  }

  /** Honest nodes have cast the weight that a quorum for this hash lacks. */
  ghost predicate Backed(rd: Round, log: set<(Key, int, Hash)>, step: int, h: Hash) {
    Heavy(rd, Casters(rd, log, step, h), step)
  }

  /** A quorum is backed by what has been cast. */
  lemma QuorumIsBacked(rd: Round, w: World, step: int, bs: seq<Ballot>, timerFired: bool, h: Hash)
    requires PrefixesDistinct(rd.universe) && rd.honest !! rd.byzantine && LogSound(rd, w.log)
    requires Authentic(rd, w, step, bs)
    requires OutcomeOf(bs, ThresholdAt(rd, step), timerFired) == Quorum(h)
    ensures |h| >= 4 && h in rd.universe && Backed(rd, w.log, step, h)
  {
    QuorumOf(rd, w, step, bs, timerFired, h);
    var voters, casters := Supporters(bs, BytesToInt32(h)), Casters(rd, w.log, step, h);
    forall k | k in voters
      ensures k in casters + rd.byzantine
    {
      SupporterCast(rd, w, step, bs, h, k);
    }
    SumSubset(voters, casters + rd.byzantine, At(rd, step));
    SumUnion(casters, rd.byzantine, At(rd, step));
  }

  /** A quorum of the first reduction step is for the common hash. */
  lemma FirstQuorumIsCommon(rd: Round, w: World, bs: seq<Ballot>, timerFired: bool, h: Hash)
    requires PrefixesDistinct(rd.universe) && Minority(rd) && LogSound(rd, w.log)
    requires Authentic(rd, w, REDUCTION_ONE, bs)
    requires OutcomeOf(bs, rd.threshold, timerFired) == Quorum(h)
    ensures Common(rd, h)
  {
    QuorumIsBacked(rd, w, REDUCTION_ONE, bs, timerFired, h);
    SumSubset(Casters(rd, w.log, REDUCTION_ONE, h), Proposers(rd, h), At(rd, REDUCTION_ONE));
  }

  /** A quorum of any step holds at least one honest vote. */
  lemma QuorumHasHonestVote(rd: Round, w: World, step: int, bs: seq<Ballot>, timerFired: bool, h: Hash) returns (k: Key)
    requires PrefixesDistinct(rd.universe) && Minority(rd) && LogSound(rd, w.log)
    requires Authentic(rd, w, step, bs)
    requires OutcomeOf(bs, ThresholdAt(rd, step), timerFired) == Quorum(h)
    ensures k in rd.honest && (k, step, h) in w.log
  {
    QuorumIsBacked(rd, w, step, bs, timerFired, h);
    k := SomeCaster(rd, w.log, step, h);
  }

  lemma SomeCaster(rd: Round, log: set<(Key, int, Hash)>, step: int, h: Hash) returns (k: Key)
    requires Minority(rd) && Backed(rd, log, step, h)
    ensures k in rd.honest && (k, step, h) in log
  {
    var casters := Casters(rd, log, step, h);
    assert casters == {} ==> Sum(casters, At(rd, step)) == 0;
    k :| k in casters;
  }

  lemma ValueAllowed(rd: Round, w: World, e: Event)
    requires PrefixesDistinct(rd.universe) && Minority(rd) && Inv(rd, w)
    requires Possible(rd, w, e) && !OutcomeAt(rd, w, e).Timeout? && !OutcomeAt(rd, w, e).Crash?
    ensures Allowed(rd, Value(OutcomeAt(rd, w, e)))
  {
    var o, step := OutcomeAt(rd, w, e), StepOf(w.nodes[e.node]);
    if o.Quorum? {
      if step == REDUCTION_ONE {
        FirstQuorumIsCommon(rd, w, e.ballots, e.timerFired, o.hash);
      } else {
        var k := QuorumHasHonestVote(rd, w, step, e.ballots, e.timerFired, o.hash);
      }
    }
  }

  /** The node's own step, given that counts return allowed values. */
  lemma OnCountSound(rd: Round, n: Node, o: Outcome, coin: int)
    requires NodeSound(rd, n)
    requires !o.Timeout? && !o.Crash? ==> Allowed(rd, Value(o))
    ensures var (n', casts) := OnCount(n, rd.empty, o, coin);
      && NodeSound(rd, n')
      && (forall c :: c in casts ==>
            c.step != REDUCTION_ONE && Allowed(rd, c.hash) && (c.step == FINAL ==> c.hash != rd.empty))
  {
  }

  lemma EventKeepsInv(rd: Round, w: World, e: Event)
    requires PrefixesDistinct(rd.universe) && Minority(rd) && Inv(rd, w)
    ensures Inv(rd, Apply(rd, w, e))
  {
    if Possible(rd, w, e) {
      var o := OutcomeAt(rd, w, e);
      if !o.Timeout? && !o.Crash? {
        ValueAllowed(rd, w, e);
      }
      OnCountSound(rd, w.nodes[e.node], o, e.coin);
    }
  }

  lemma {:induction false} RunKeepsInv(rd: Round, w: World, events: seq<Event>)
    requires PrefixesDistinct(rd.universe) && Minority(rd) && Inv(rd, w)
    ensures Inv(rd, Run(rd, w, events))
    decreases |events|
  {
    if events != [] {
      EventKeepsInv(rd, w, events[0]);
      RunKeepsInv(rd, Apply(rd, w, events[0]), events[1..]);
    }
  }

  // ---------------------------------------------------------------- what holds of every run

  predicate PastReduction(n: Node) {
    n.phase.AwaitStage? || n.phase.AwaitFinal? || n.phase.Finished? || n.phase.Hung?
  }

  predicate Decided(n: Node) {
    n.phase.AwaitFinal? || n.phase.Finished?
  }

  /** Reduction agreement: over every run, each node's reduction yields the empty hash or one hash
      common to all nodes; the nil hash only if some count ended without quorum. */
  lemma ReductionAgreement(rd: Round, events: seq<Event>, a: Key, b: Key)
    requires PrefixesDistinct(rd.universe) && Minority(rd) && OneCommon(rd)
    requires a in rd.honest && b in rd.honest
    ensures var w := Run(rd, Start(rd), events);
      && a in w.nodes && b in w.nodes
      && (PastReduction(w.nodes[a]) && PastReduction(w.nodes[b]) ==>
            var g, h := w.nodes[a].hash, w.nodes[b].hash;
            g == h || NoBlock(rd, g) || NoBlock(rd, h))
  {
    RunKeepsInv(rd, Start(rd), events);
    var w := Run(rd, Start(rd), events);
    assert NodeSound(rd, w.nodes[a]) && NodeSound(rd, w.nodes[b]);
  }

  /** Decision agreement: two nodes never decide two different blocks; whatever is decided is the
      common hash, the empty hash, or nil where counts may end without quorum. */
  lemma DecisionAgreement(rd: Round, events: seq<Event>, a: Key, b: Key)
    requires PrefixesDistinct(rd.universe) && Minority(rd) && OneCommon(rd)
    requires a in rd.honest && b in rd.honest
    ensures var w := Run(rd, Start(rd), events);
      && a in w.nodes && b in w.nodes
      && (Decided(w.nodes[a]) ==> Allowed(rd, w.nodes[a].r))
      && (Decided(w.nodes[a]) && Decided(w.nodes[b]) && w.nodes[a].r != w.nodes[b].r ==>
            NoBlock(rd, w.nodes[a].r) || NoBlock(rd, w.nodes[b].r))
  {
    RunKeepsInv(rd, Start(rd), events);
    var w := Run(rd, Start(rd), events);
    assert NodeSound(rd, w.nodes[a]) && NodeSound(rd, w.nodes[b]);
  }

  // ---------------------------------------------------------------- final consensus

  /** A final vote comes from a node that decided at step 1, and a final node has seen one. */
  ghost predicate FinalInv(rd: Round, w: World) {
    && w.nodes.Keys == rd.honest
    && (forall k, h :: (k, FINAL, h) in w.log ==>
          k in w.nodes && w.nodes[k].r == h && w.nodes[k].step == 1 && (Decided(w.nodes[k]) || w.nodes[k].phase.Dead?))
    && (forall k :: k in w.nodes && w.nodes[k].phase == Finished(true) && w.nodes[k].r != [] ==>
          exists j :: (j, FINAL, w.nodes[k].r) in w.log)
  }

  lemma FinalCastOnce(rd: Round, n: Node, o: Outcome, coin: int)
    requires NodeSound(rd, n)
    ensures var (n', casts) := OnCount(n, rd.empty, o, coin);
      && (forall c :: c in casts && c.step == FINAL ==> n'.r == c.hash && n'.step == 1 && n'.phase.AwaitFinal?)
      && (Decided(n) || n.phase.Dead? ==>
            n'.r == n.r && n'.step == n.step && casts == [] && (Decided(n') || n'.phase.Dead?))
      && (n'.phase == Finished(true) ==> n.phase == Finished(true) || (n.phase.AwaitFinal? && n'.r == Value(o)))
  {
  }

  lemma EventKeepsFinalInv(rd: Round, w: World, e: Event)
    requires PrefixesDistinct(rd.universe) && Minority(rd) && Inv(rd, w) && FinalInv(rd, w)
    ensures FinalInv(rd, Apply(rd, w, e))
  {
    if Possible(rd, w, e) {
      var o, n := OutcomeAt(rd, w, e), w.nodes[e.node];
      assert NodeSound(rd, n);
      FinalCastOnce(rd, n, o, e.coin);
      var w' := Apply(rd, w, e);
      forall k | k in w'.nodes && w'.nodes[k].phase == Finished(true) && w'.nodes[k].r != []
        ensures exists j :: (j, FINAL, w'.nodes[k].r) in w'.log
      {
        if k == e.node && n.phase.AwaitFinal? {
          var j := QuorumHasHonestVote(rd, w, FINAL, e.ballots, e.timerFired, w'.nodes[k].r);
          assert (j, FINAL, w'.nodes[k].r) in w'.log;
        } else {
          var j :| (j, FINAL, w.nodes[k].r) in w.log;
          assert (j, FINAL, w'.nodes[k].r) in w'.log;
        }
      }
      forall k, h | (k, FINAL, h) in w'.log
        ensures k in w'.nodes && w'.nodes[k].r == h && w'.nodes[k].step == 1
          && (Decided(w'.nodes[k]) || w'.nodes[k].phase.Dead?)
      {
        if (k, FINAL, h) !in w.log {
          var c :| c in OnCount(n, rd.empty, o, e.coin).1 && (k, FINAL, h) == (e.node, c.step, c.hash);
        }
      }
    }
  }

  lemma {:induction false} RunKeepsFinalInv(rd: Round, w: World, events: seq<Event>)
    requires PrefixesDistinct(rd.universe) && Minority(rd) && Inv(rd, w) && FinalInv(rd, w)
    ensures FinalInv(rd, Run(rd, w, events))
    decreases |events|
  {
    if events != [] {
      EventKeepsInv(rd, w, events[0]);
      EventKeepsFinalInv(rd, w, events[0]);
      RunKeepsFinalInv(rd, Apply(rd, w, events[0]), events[1..]);
    }
  }

  /** Final consensus on a hash means that an honest node decided it at its first binary count; it
      is never the empty block, and all final nodes agree. */
  lemma FinalConsensus(rd: Round, events: seq<Event>, a: Key, b: Key)
    requires PrefixesDistinct(rd.universe) && Minority(rd) && OneCommon(rd)
    requires a in rd.honest && b in rd.honest
    ensures var w := Run(rd, Start(rd), events);
      && a in w.nodes && b in w.nodes
      && (w.nodes[a].phase == Finished(true) && w.nodes[a].r != [] ==>
            && w.nodes[a].r != rd.empty
            && (exists k :: k in w.nodes && w.nodes[k].r == w.nodes[a].r && w.nodes[k].step == 1)
            && (w.nodes[b].phase == Finished(true) && w.nodes[b].r != [] ==> w.nodes[a].r == w.nodes[b].r))
  {
    RunKeepsInv(rd, Start(rd), events);
    RunKeepsFinalInv(rd, Start(rd), events);
    var w := Run(rd, Start(rd), events);
    DecisionAgreement(rd, events, a, b);
    if w.nodes[a].phase == Finished(true) && w.nodes[a].r != [] {
      var k :| (k, FINAL, w.nodes[a].r) in w.log;
      if w.nodes[b].phase == Finished(true) && w.nodes[b].r != [] {
        var j :| (j, FINAL, w.nodes[b].r) in w.log;
      }
    }
  }
}
