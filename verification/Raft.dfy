/** Leader election (Raft/raft.go, Raft/rpc.go).

    A node's reactions are functions on its fields; `RaftNode` is the object whose methods
    update those fields in place; `World` is a cluster whose nodes react in any order, with
    requests and replies that may be late or lost. A candidacy and a vote are two steps each, the test
    and the write, since the code takes its lock for each write alone. */
module Raft {
  import opened SetSums

  /** An IPv4 address, as a number. */
  type Ip = nat

  /** The strings stored in votedFor and currentLeader: "-1", a node's IP (how peers know it) or
      its IP followed by the port (how it knows itself). */
  datatype Name = Nobody | Peer(ip: Ip) | Me(ip: Ip)

  const FOLLOWER := 0
  const CANDIDATE := 1
  const LEADER := 2

  datatype NodeState = NodeState(vote: int, votedFor: Name, state: int, currentLeader: Name, currentTerm: int)

  const FRESH := NodeState(0, Nobody, FOLLOWER, Nobody, 0)

  function Quorum(nodeCount: nat): nat {
    nodeCount / 2 + 1
  }

  predicate MayStand(s: NodeState) {
    s.state == FOLLOWER && s.currentLeader == Nobody && s.votedFor == Nobody
  }

  /** The writes of a candidacy. */
  function Stood(s: NodeState, ip: Ip): NodeState {
    s.(state := CANDIDATE, votedFor := Me(ip), vote := s.vote + 1, currentTerm := s.currentTerm + 1)
  }

  function Stand(s: NodeState, ip: Ip): NodeState {
    if MayStand(s) then Stood(s, ip) else s
  }

  function ReDefaulted(s: NodeState): NodeState {
    s.(vote := 0, votedFor := Nobody, state := FOLLOWER)
  }

  predicate Wins(s: NodeState, nodeCount: nat) {
    s.vote >= Quorum(nodeCount) && s.currentLeader == Nobody
  }

  function Tallied(s: NodeState, ok: bool): NodeState {
    if ok then s.(vote := s.vote + 1) else s
  }

  /** One reply taken from the vote channel by the election loop. */
  function TakeReply(s: NodeState, ip: Ip, ok: bool, nodeCount: nat): NodeState {
    var t := Tallied(s, ok);
    if Wins(t, nodeCount) then t.(state := LEADER, currentLeader := Me(ip)) else t
  }

  predicate Grants(s: NodeState) {
    s.votedFor == Nobody && s.currentLeader == Nobody
  }

  /** The write of a vote. */
  function Granted(s: NodeState, candidate: Ip): NodeState {
    s.(votedFor := Peer(candidate))
  }

  function AnswerVote(s: NodeState, candidate: Ip): NodeState {
    if Grants(s) then Granted(s, candidate) else s
  }

  function Confirmed(s: NodeState, leader: Ip): NodeState {
    ReDefaulted(s.(currentLeader := Peer(leader)))
  }

  function HeartBeaten(s: NodeState, leader: Ip): NodeState {
    s.(currentLeader := Peer(leader))
  }

  /** What the heartbeat watchdog does when the leader stays silent; it ends the epoch. */
  function TimedOut(s: NodeState): NodeState {
    ReDefaulted(s).(currentLeader := Nobody)
  }

  // ---------------------------------------------------------------- the cluster

  /** `standing` holds the nodes that have passed the test of a candidacy and not yet written it,
      `granting` the (voter, candidate) pairs whose vote has passed the test and is not yet written;
      `electing` the nodes inside their election loop; `asked` and `replies` the (voter, candidate)
      pairs of requests and of yes-replies under way; `beaten` the nodes whose heartbeat time is set.
      Two bookkeeping fields record what the code does not keep: `ballots` maps every voter that said
      yes to the candidate it last said yes to, `counted[y]` the voters whose reply `y` has added to its
      counter since it last reset it. */
  datatype World = World(
    nodes: map<Ip, NodeState>,
    standing: set<Ip>,
    granting: multiset<(Ip, Ip)>,
    electing: set<Ip>,
    asked: set<(Ip, Ip)>,
    replies: set<(Ip, Ip)>,
    beaten: set<Ip>,
    ballots: map<Ip, Ip>,
    counted: map<Ip, set<Ip>>)

  datatype Step =
    | TestStand(node: Ip)
    | WriteStand(node: Ip)
    | TestVote(voter: Ip, candidate: Ip)
    | WriteVote(voter: Ip, candidate: Ip)
    | ReplyArrives(voter: Ip, candidate: Ip)
    | RefusalArrives(voter: Ip, candidate: Ip)
    | ElectionTimeout(node: Ip)
    | Confirm(leader: Ip, node: Ip)
    | HeartBeat(leader: Ip, node: Ip)
    | HeartTimeout(node: Ip)

  function Boot(members: set<Ip>): World {
    World(map m | m in members :: FRESH, {}, multiset{}, {}, {}, {}, {}, map[], map m | m in members :: {})
  }

  /** A candidacy asks every peer once. */
  function Requests(members: set<Ip>, y: Ip): (s: set<(Ip, Ip)>)
    ensures forall r :: r in s <==> r.0 in members && r.0 != y && r.1 == y
  {
    set p | p in members && p != y :: (p, y)
  }

  predicate Shaped(w: World, members: set<Ip>) {
    w.nodes.Keys == members && w.counted.Keys == members
  }

  predicate Enabled(w: World, members: set<Ip>, step: Step)
    requires Shaped(w, members)
  {
    match step
    case TestStand(x) => x in members && x !in w.electing
    case WriteStand(x) => x in members && x in w.standing
    case TestVote(p, y) => p in members && y in members && p != y && (p, y) in w.asked
    case WriteVote(p, y) => p in members && y in members && (p, y) in w.granting
    case ReplyArrives(p, y) => (p, y) in w.replies && y in w.electing && y in members
    case RefusalArrives(p, y) => p in members && y in members && p != y && y in w.electing
    case ElectionTimeout(x) => x in members && x in w.electing
    case Confirm(l, p) => l in members && p in members && p != l && w.nodes[l].state == LEADER
    case HeartBeat(l, p) => l in members && p in members && p != l && w.nodes[l].state == LEADER
    case HeartTimeout(x) => x in members && x in w.beaten
  }

  /** The election loop of `y` takes one reply; winning ends the loop. */
  function Deliver(w: World, y: Ip, ok: bool, nodeCount: nat): World
    requires y in w.nodes
  {
    w.(nodes := w.nodes[y := TakeReply(w.nodes[y], y, ok, nodeCount)],
       electing := if Wins(Tallied(w.nodes[y], ok), nodeCount) then w.electing - {y} else w.electing)
  }

  function Apply(w: World, members: set<Ip>, step: Step): (w': World)
    requires Shaped(w, members)
    ensures Shaped(w', members)
  {
    if !Enabled(w, members, step) then w else
      match step
      case TestStand(x) =>
        if MayStand(w.nodes[x]) then w.(standing := w.standing + {x}) else w
      case WriteStand(x) =>
        w.(nodes := w.nodes[x := Stood(w.nodes[x], x)],
           standing := w.standing - {x},
           electing := w.electing + {x},
           asked := w.asked + Requests(members, x))
      case TestVote(p, y) =>
        var taken := w.(asked := w.asked - {(p, y)});
        if Grants(w.nodes[p]) then taken.(granting := w.granting + multiset{(p, y)}) else taken
      case WriteVote(p, y) =>
        w.(nodes := w.nodes[p := Granted(w.nodes[p], y)],
           granting := w.granting - multiset{(p, y)},
           ballots := w.ballots[p := y],
           replies := w.replies + {(p, y)})
      case ReplyArrives(p, y) =>
        Deliver(w, y, true, |members|).(replies := w.replies - {(p, y)},
                                        counted := w.counted[y := w.counted[y] + {p}])
      case RefusalArrives(_, y) =>
        Deliver(w, y, false, |members|)
      case ElectionTimeout(x) =>
        w.(nodes := w.nodes[x := ReDefaulted(w.nodes[x])],
           electing := w.electing - {x},
           counted := w.counted[x := {}])
      case Confirm(l, p) =>
        w.(nodes := w.nodes[p := Confirmed(w.nodes[p], l)], counted := w.counted[p := {}])
      case HeartBeat(l, p) =>
        w.(nodes := w.nodes[p := HeartBeaten(w.nodes[p], l)], beaten := w.beaten + {l, p})
      case HeartTimeout(x) =>
        w.(nodes := w.nodes[x := TimedOut(w.nodes[x])], beaten := w.beaten - {x}, counted := w.counted[x := {}])
  }

  /** Any interleaving is some sequence of steps; a step that is not enabled changes nothing. */
  function Run(w: World, members: set<Ip>, steps: seq<Step>): (w': World)
    requires Shaped(w, members)
    ensures Shaped(w', members)
    decreases |steps|
  {
    if steps == [] then w else Run(Apply(w, members, steps[0]), members, steps[1..])
  }

  predicate VotePending(w: World, x: Ip) {
    exists r :: r in w.granting && r.0 == x
  }

  /** No test of this node waits for its write. */
  predicate Idle(w: World, x: Ip) {
    x !in w.standing && !VotePending(w, x)
  }

  /** The nodes that may test for a vote while another vote of theirs waits for its write, those that
      may test while a candidacy waits, or for a candidacy while something waits, and those that may run
      into a heartbeat timeout. */
  datatype Lapses = Lapses(voters: set<Ip>, standers: set<Ip>, sleepers: set<Ip>)

  const NONE := Lapses({}, {}, {})

  predicate Permits(lapses: Lapses, w: World, step: Step) {
    match step
    case TestStand(x) => Idle(w, x) || x in lapses.standers
    case TestVote(p, _) => (p in w.standing ==> p in lapses.standers) && (VotePending(w, p) ==> p in lapses.voters)
    case HeartTimeout(x) => x in lapses.sleepers
    case _ => true
  }

  predicate Within(lapses: Lapses, w: World, members: set<Ip>, steps: seq<Step>)
    requires Shaped(w, members)
    decreases |steps|
  {
    steps == [] ||
    (Permits(lapses, w, steps[0]) && Within(lapses, Apply(w, members, steps[0]), members, steps[1..]))
  }

  /** No node tests while another test of its own is pending, and no heartbeat times out. */
  predicate Calm(w: World, members: set<Ip>, steps: seq<Step>)
    requires Shaped(w, members)
  {
    Within(NONE, w, members, steps)
  }

  // ---------------------------------------------------------------- the invariant

  predicate IsLeader(w: World, l: Ip) {
    l in w.nodes && w.nodes[l].state == LEADER
  }

  predicate Names(leader: Name, l: Ip) {
    leader == Peer(l) || leader == Me(l)
  }

  /** A voter is bound by its ballot, and one that stands for election has cast none. */
  predicate VoterSound(w: World, p: Ip)
    requires p in w.nodes
  {
    p in w.ballots ==>
      && w.nodes[p].state == FOLLOWER
      && w.ballots[p] != p
      && (w.nodes[p].currentLeader != Nobody || w.nodes[p].votedFor == Peer(w.ballots[p]))
  }

  predicate CounterSound(w: World, nodeCount: nat, y: Ip)
    requires y in w.nodes && y in w.counted
  {
    var s := w.nodes[y];
    && s.state in {FOLLOWER, CANDIDATE, LEADER}
    && s.vote == (if s.state == FOLLOWER then 0 else 1) + |w.counted[y]|
    && (s.state != FOLLOWER ==> s.votedFor == Me(y))
    && (y in w.electing && s.currentLeader == Nobody ==> s.state == CANDIDATE)
    && (s.state == LEADER ==> s.vote >= Quorum(nodeCount) && s.currentLeader == Me(y) && y !in w.electing)
  }

  predicate IsBallot(w: World, p: Ip, y: Ip) {
    p in w.ballots && w.ballots[p] == y && p in w.nodes && y in w.nodes
  }

  /** Nothing has happened to the node that a pending write would contradict. */
  predicate Free(w: World, x: Ip) {
    x in w.nodes && x !in w.ballots && x !in w.electing && w.nodes[x].state == FOLLOWER && w.nodes[x].votedFor == Nobody
  }

  predicate PendingSound(w: World, members: set<Ip>) {
    && (forall x :: x in w.standing ==> x in members && Free(w, x))
    && (forall r :: r in w.granting ==>
          r.0 in members && r.1 in members && r.0 != r.1 && Free(w, r.0) && r.0 !in w.standing)
    && (forall r, s :: r in w.granting && s in w.granting && r.0 == s.0 ==> r == s && w.granting[r] == 1)
  }

  ghost predicate LeaderKnown(w: World, p: Ip)
    requires p in w.nodes
  {
    w.nodes[p].currentLeader != Nobody ==> exists l :: IsLeader(w, l) && Names(w.nodes[p].currentLeader, l)
  }

  ghost predicate Inv(w: World, members: set<Ip>) {
    && Shaped(w, members)
    && PendingSound(w, members)
    && (forall p {:trigger VoterSound(w, p)} :: p in members ==> VoterSound(w, p))
    && (forall y {:trigger CounterSound(w, |members|, y)} :: y in members ==> CounterSound(w, |members|, y))
    && (forall p, y :: y in members && p in w.counted[y] ==> IsBallot(w, p, y))
    && (forall r :: r in w.replies ==> IsBallot(w, r.0, r.1) && r.0 !in w.counted[r.1])
    && (forall p {:trigger LeaderKnown(w, p)} :: p in members ==> LeaderKnown(w, p))
  }

  lemma WinnersBackers(w: World, members: set<Ip>, a: Ip)
    requires Inv(w, members) && IsLeader(w, a)
    ensures a !in w.ballots
    ensures w.counted[a] + {a} <= members
    ensures |w.counted[a] + {a}| >= Quorum(|members|)
  {
    assert VoterSound(w, a) && CounterSound(w, |members|, a);
    assert a !in w.counted[a];
  }

  /** Two winners would share a voter, and a voter has one ballot. */
  lemma AtMostOneLeader(w: World, members: set<Ip>, a: Ip, b: Ip)
    requires Inv(w, members)
    requires IsLeader(w, a) && IsLeader(w, b)
    ensures a == b
  {
    if a != b {
      WinnersBackers(w, members, a);
      WinnersBackers(w, members, b);
      assert (w.counted[a] + {a}) * (w.counted[b] + {b}) == {} by {
        forall p | p in w.counted[a]
          ensures p !in w.counted[b]
        {
          assert IsBallot(w, p, a);
        }
      }
      DisjointFit(w.counted[a] + {a}, w.counted[b] + {b}, members);
    }
  }

  lemma BootIsSound(members: set<Ip>)
    ensures Inv(Boot(members), members)
  {
  }

  // ---------------------------------------------------------------- every step keeps it

  lemma TestStandKeepsInv(w: World, members: set<Ip>, x: Ip)
    requires Inv(w, members) && Idle(w, x)
    ensures Inv(Apply(w, members, TestStand(x)), members)
  {
    if Enabled(w, members, TestStand(x)) && MayStand(w.nodes[x]) {
      assert VoterSound(w, x);
      OnlyMessagesChange(w, Apply(w, members, TestStand(x)), members);
    }
  }

  lemma TestVoteKeepsInv(w: World, members: set<Ip>, p: Ip, y: Ip)
    requires Inv(w, members) && Idle(w, p)
    ensures Inv(Apply(w, members, TestVote(p, y)), members)
  {
    if Enabled(w, members, TestVote(p, y)) {
      assert VoterSound(w, p) && CounterSound(w, |members|, p);
      OnlyMessagesChange(w, Apply(w, members, TestVote(p, y)), members);
    }
  }

  lemma OnlyMessagesChange(w: World, w': World, members: set<Ip>)
    requires Inv(w, members) && PendingSound(w', members)
    requires w' == w.(standing := w'.standing, granting := w'.granting, asked := w'.asked)
    ensures Inv(w', members)
  {
    forall p {:trigger VoterSound(w', p)} | p in members
      ensures VoterSound(w', p)
    {
      assert VoterSound(w, p);
    }
    forall y {:trigger CounterSound(w', |members|, y)} | y in members
      ensures CounterSound(w', |members|, y)
    {
      assert CounterSound(w, |members|, y);
    }
    forall p {:trigger LeaderKnown(w', p)} | p in members
      ensures LeaderKnown(w', p)
    {
      assert LeaderKnown(w, p);
      assert forall l :: IsLeader(w, l) ==> IsLeader(w', l);
    }
    assert forall p, y :: IsBallot(w, p, y) ==> IsBallot(w', p, y);
  }

  /** What holds of the node after it has written its candidacy, */
  lemma AfterStand(w: World, members: set<Ip>, x: Ip)
    requires Inv(w, members) && Enabled(w, members, WriteStand(x))
    ensures var w' := Apply(w, members, WriteStand(x));
      && OnlyAt(w, w', members, x) && VoterSound(w', x) && CounterSound(w', |members|, x) && Idle(w', x)
      && w'.nodes[x].currentLeader == w.nodes[x].currentLeader
      && w'.counted == w.counted && w'.replies == w.replies && w'.ballots == w.ballots
  {
    assert VoterSound(w, x) && CounterSound(w, |members|, x) && Free(w, x);
  }

  lemma WriteStandKeepsInv(w: World, members: set<Ip>, x: Ip)
    requires Inv(w, members)
    ensures Inv(Apply(w, members, WriteStand(x)), members)
  {
    if Enabled(w, members, WriteStand(x)) {
      var w' := Apply(w, members, WriteStand(x));
      AfterStand(w, members, x);
      SameLeaderKnown(w, w', members, x);
      OnlyFields(w, w', members, x);
    }
  }

  lemma SameLeaderKnown(w: World, w': World, members: set<Ip>, x: Ip)
    requires Inv(w, members) && x in members && OnlyAt(w, w', members, x)
    requires w'.nodes[x].currentLeader == w.nodes[x].currentLeader
    ensures LeaderKnown(w', x)
  {
    assert LeaderKnown(w, x);
    assert forall l :: IsLeader(w, l) ==> IsLeader(w', l);
  }

  lemma OnlyFields(w: World, w': World, members: set<Ip>, x: Ip)
    requires Inv(w, members) && x in members && OnlyAt(w, w', members, x)
    requires w'.counted == w.counted && w'.replies == w.replies && w'.ballots == w.ballots
    requires VoterSound(w', x) && CounterSound(w', |members|, x) && LeaderKnown(w', x)
    requires Idle(w', x) || Free(w', x)
    ensures Inv(w', members)
  {
    OthersKeep(w, w', members, x);
    PendingKeep(w, w', members, x);
    assert forall p, y :: IsBallot(w, p, y) ==> IsBallot(w', p, y);
  }

  /** and after it has written its vote. */
  lemma AfterVote(w: World, members: set<Ip>, p: Ip, y: Ip)
    requires Inv(w, members) && Enabled(w, members, WriteVote(p, y))
    ensures var w' := Apply(w, members, WriteVote(p, y));
      && OnlyAt(w, w', members, p) && VoterSound(w', p) && CounterSound(w', |members|, p) && Idle(w', p)
      && w'.nodes[p].currentLeader == w.nodes[p].currentLeader
      && w'.counted == w.counted && w'.replies == w.replies + {(p, y)} && p !in w.ballots && IsBallot(w', p, y)
  {
    assert (p, y) in w.granting && Free(w, p);
    assert VoterSound(w, p) && CounterSound(w, |members|, p);
  }

  lemma WriteVoteKeepsInv(w: World, members: set<Ip>, p: Ip, y: Ip)
    requires Inv(w, members)
    ensures Inv(Apply(w, members, WriteVote(p, y)), members)
  {
    if Enabled(w, members, WriteVote(p, y)) {
      var w' := Apply(w, members, WriteVote(p, y));
      AfterVote(w, members, p, y);
      SameLeaderKnown(w, w', members, p);
      NewBallot(w, w', members, p, y);
    }
  }

  /** A voter that had no ballot casts one; nothing has counted it yet. */
  lemma NewBallot(w: World, w': World, members: set<Ip>, p: Ip, y: Ip)
    requires Inv(w, members) && p in members && y in members && OnlyAt(w, w', members, p)
    requires w'.counted == w.counted && w'.replies == w.replies + {(p, y)} && p !in w.ballots && IsBallot(w', p, y)
    requires VoterSound(w', p) && CounterSound(w', |members|, p) && LeaderKnown(w', p) && Idle(w', p)
    ensures Inv(w', members)
  {
    OthersKeep(w, w', members, p);
    PendingKeep(w, w', members, p);
    assert forall q, z :: IsBallot(w, q, z) ==> q != p && IsBallot(w', q, z);
    assert forall z :: z in members ==> p !in w.counted[z];
  }

  lemma AfterReply(w: World, members: set<Ip>, p: Ip, y: Ip)
    requires Inv(w, members) && Enabled(w, members, ReplyArrives(p, y))
    ensures var w' := Apply(w, members, ReplyArrives(p, y));
      && OnlyAt(w, w', members, y) && VoterSound(w', y) && CounterSound(w', |members|, y)
      && LeaderFound(w, w', y) && (Idle(w', y) || Free(w', y)) && w'.ballots == w.ballots
      && w'.counted == w.counted[y := w.counted[y] + {p}] && w'.replies == w.replies - {(p, y)} && IsBallot(w, p, y)
  {
    assert VoterSound(w, y) && CounterSound(w, |members|, y) && (p, y) in w.replies;
  }

  /** The node names the leader it named, or is the leader it names. */
  predicate LeaderFound(w: World, w': World, y: Ip)
    requires y in w.nodes && y in w'.nodes
  {
    || w'.nodes[y].currentLeader == w.nodes[y].currentLeader
    || (w'.nodes[y].currentLeader == Me(y) && IsLeader(w', y))
  }

  lemma FoundKnown(w: World, w': World, members: set<Ip>, y: Ip)
    requires Inv(w, members) && y in members && OnlyAt(w, w', members, y) && LeaderFound(w, w', y)
    ensures LeaderKnown(w', y)
  {
    if w'.nodes[y].currentLeader == w.nodes[y].currentLeader {
      SameLeaderKnown(w, w', members, y);
    }
  }

  lemma CountedKept(w: World, w': World, members: set<Ip>, p: Ip, y: Ip)
    requires Inv(w, members) && y in members && OnlyAt(w, w', members, y)
    requires w'.ballots == w.ballots && IsBallot(w, p, y)
    requires w'.counted == w.counted[y := w.counted[y] + {p}] && w'.replies == w.replies - {(p, y)}
    ensures forall q, z :: z in members && q in w'.counted[z] ==> IsBallot(w', q, z)
    ensures forall r :: r in w'.replies ==> IsBallot(w', r.0, r.1) && r.0 !in w'.counted[r.1]
  {
    assert forall q, z :: IsBallot(w, q, z) ==> IsBallot(w', q, z);
  }

  lemma OneMoreCounted(w: World, w': World, members: set<Ip>, p: Ip, y: Ip)
    requires Inv(w, members) && y in members && OnlyAt(w, w', members, y)
    requires VoterSound(w', y) && CounterSound(w', |members|, y) && LeaderKnown(w', y)
    requires (Idle(w', y) || Free(w', y)) && w'.ballots == w.ballots && IsBallot(w, p, y)
    requires w'.counted == w.counted[y := w.counted[y] + {p}] && w'.replies == w.replies - {(p, y)}
    ensures Inv(w', members)
  {
    OthersKeep(w, w', members, y);
    PendingKeep(w, w', members, y);
    CountedKept(w, w', members, p, y);
  }

  lemma ReplyKeepsInv(w: World, members: set<Ip>, p: Ip, y: Ip)
    requires Inv(w, members)
    ensures Inv(Apply(w, members, ReplyArrives(p, y)), members)
  {
    if Enabled(w, members, ReplyArrives(p, y)) {
      var w' := Apply(w, members, ReplyArrives(p, y));
      AfterReply(w, members, p, y);
      FoundKnown(w, w', members, y);
      OneMoreCounted(w, w', members, p, y);
    }
  }

  lemma AfterRefusal(w: World, members: set<Ip>, p: Ip, y: Ip)
    requires Inv(w, members) && Enabled(w, members, RefusalArrives(p, y))
    ensures var w' := Apply(w, members, RefusalArrives(p, y));
      && OnlyAt(w, w', members, y) && VoterSound(w', y) && CounterSound(w', |members|, y)
      && LeaderFound(w, w', y) && (Idle(w', y) || Free(w', y))
      && w'.counted == w.counted && w'.replies == w.replies && w'.ballots == w.ballots
  {
    assert VoterSound(w, y) && CounterSound(w, |members|, y);
  }

  lemma RefusalKeepsInv(w: World, members: set<Ip>, p: Ip, y: Ip)
    requires Inv(w, members)
    ensures Inv(Apply(w, members, RefusalArrives(p, y)), members)
  {
    if Enabled(w, members, RefusalArrives(p, y)) {
      var w' := Apply(w, members, RefusalArrives(p, y));
      AfterRefusal(w, members, p, y);
      FoundKnown(w, w', members, y);
      OnlyFields(w, w', members, y);
    }
  }

  lemma TimeoutKeepsInv(w: World, members: set<Ip>, x: Ip)
    requires Inv(w, members)
    ensures Inv(Apply(w, members, ElectionTimeout(x)), members)
  {
    var w' := Apply(w, members, ElectionTimeout(x));
    if Enabled(w, members, ElectionTimeout(x)) {
      assert VoterSound(w, x) && CounterSound(w, |members|, x) && LeaderKnown(w, x);
      OneChanges(w, w', members, x);
    }
  }

  lemma ConfirmKeepsInv(w: World, members: set<Ip>, l: Ip, p: Ip)
    requires Inv(w, members)
    ensures Inv(Apply(w, members, Confirm(l, p)), members)
  {
    var w' := Apply(w, members, Confirm(l, p));
    if Enabled(w, members, Confirm(l, p)) {
      if IsLeader(w, p) {
        AtMostOneLeader(w, members, l, p);
      }
      assert VoterSound(w, p) && CounterSound(w, |members|, p) && IsLeader(w', l);
      OneChanges(w, w', members, p);
    }
  }

  lemma HeartBeatKeepsInv(w: World, members: set<Ip>, l: Ip, p: Ip)
    requires Inv(w, members)
    ensures Inv(Apply(w, members, HeartBeat(l, p)), members)
  {
    var w' := Apply(w, members, HeartBeat(l, p));
    if Enabled(w, members, HeartBeat(l, p)) {
      if IsLeader(w, p) {
        AtMostOneLeader(w, members, l, p);
      }
      assert VoterSound(w, p) && CounterSound(w, |members|, p) && IsLeader(w', l);
      OneChanges(w, w', members, p);
    }
  }

  /** What a step on node `x` leaves as it was. */
  predicate OnlyAt(w: World, w': World, members: set<Ip>, x: Ip)
    requires Shaped(w, members) && x in members
  {
    && Shaped(w', members)
    && w'.nodes == w.nodes[x := w'.nodes[x]]
    && w'.counted == w.counted[x := w'.counted[x]]
    && w'.electing - {x} == w.electing - {x}
    && (w'.ballots == w.ballots || (x !in w.ballots && x in w'.ballots && w'.ballots == w.ballots[x := w'.ballots[x]]))
    && (IsLeader(w, x) ==> IsLeader(w', x))
    && w'.standing <= w.standing && w'.granting <= w.granting
  }

  /** A step that touches only node `x` leaves the other nodes sound. */
  lemma OthersKeep(w: World, w': World, members: set<Ip>, x: Ip)
    requires Inv(w, members) && x in members && OnlyAt(w, w', members, x)
    ensures forall p {:trigger VoterSound(w', p)} :: p in members && p != x ==> VoterSound(w', p)
    ensures forall y {:trigger CounterSound(w', |members|, y)} :: y in members && y != x ==>
      CounterSound(w', |members|, y)
    ensures forall p {:trigger LeaderKnown(w', p)} :: p in members && p != x ==> LeaderKnown(w', p)
  {
    forall p {:trigger VoterSound(w', p)} | p in members && p != x
      ensures VoterSound(w', p)
    {
      assert VoterSound(w, p);
    }
    forall y {:trigger CounterSound(w', |members|, y)} | y in members && y != x
      ensures CounterSound(w', |members|, y)
    {
      assert CounterSound(w, |members|, y);
      assert y in w'.electing <==> y in w'.electing - {x};
      assert y in w.electing <==> y in w.electing - {x};
    }
    forall p {:trigger LeaderKnown(w', p)} | p in members && p != x
      ensures LeaderKnown(w', p)
    {
      assert LeaderKnown(w, p);
      assert forall l :: IsLeader(w, l) ==> IsLeader(w', l);
    }
  }

  lemma PendingKeep(w: World, w': World, members: set<Ip>, x: Ip)
    requires Inv(w, members) && x in members && OnlyAt(w, w', members, x)
    requires Idle(w', x) || Free(w', x)
    ensures PendingSound(w', members)
  {
    forall p | p in members && p != x && Free(w, p)
      ensures Free(w', p)
    {
      assert p in w'.electing <==> p in w'.electing - {x};
      assert p in w.electing <==> p in w.electing - {x};
    }
    assert forall r :: r in w'.granting ==> r in w.granting && w'.granting[r] <= w.granting[r];
  }

  lemma VotesKeep(w: World, w': World, members: set<Ip>, x: Ip)
    requires Inv(w, members) && x in members && OnlyAt(w, w', members, x)
    requires forall p :: p in w'.counted[x] ==> IsBallot(w', p, x)
    requires forall r :: r in w'.replies ==> (r in w.replies || r.0 == x)
    requires forall r :: r in w'.replies && (r.0 == x || r.1 == x) ==> IsBallot(w', r.0, r.1) && r.0 !in w'.counted[r.1]
    ensures forall p, y :: y in members && p in w'.counted[y] ==> IsBallot(w', p, y)
    ensures forall r :: r in w'.replies ==> IsBallot(w', r.0, r.1) && r.0 !in w'.counted[r.1]
  {
    assert forall p, y :: IsBallot(w, p, y) ==> IsBallot(w', p, y);
  }

  lemma OneChanges(w: World, w': World, members: set<Ip>, x: Ip)
    requires Inv(w, members) && x in members && OnlyAt(w, w', members, x)
    requires VoterSound(w', x) && CounterSound(w', |members|, x) && LeaderKnown(w', x)
    requires Idle(w', x) || Free(w', x)
    requires forall p :: p in w'.counted[x] ==> IsBallot(w', p, x)
    requires forall r :: r in w'.replies ==> (r in w.replies || r.0 == x)
    requires forall r :: r in w'.replies && (r.0 == x || r.1 == x) ==> IsBallot(w', r.0, r.1) && r.0 !in w'.counted[r.1]
    ensures Inv(w', members)
  {
    OthersKeep(w, w', members, x);
    PendingKeep(w, w', members, x);
    VotesKeep(w, w', members, x);
  }

  lemma StepKeepsInv(w: World, members: set<Ip>, step: Step)
    requires Inv(w, members) && Permits(NONE, w, step)
    ensures Inv(Apply(w, members, step), members)
  {
    match step
    case TestStand(x) => TestStandKeepsInv(w, members, x);
    case WriteStand(x) => WriteStandKeepsInv(w, members, x);
    case TestVote(p, y) => TestVoteKeepsInv(w, members, p, y);
    case WriteVote(p, y) => WriteVoteKeepsInv(w, members, p, y);
    case ReplyArrives(p, y) => ReplyKeepsInv(w, members, p, y);
    case RefusalArrives(p, y) => RefusalKeepsInv(w, members, p, y);
    case ElectionTimeout(x) => TimeoutKeepsInv(w, members, x);
    case Confirm(l, p) => ConfirmKeepsInv(w, members, l, p);
    case HeartBeat(l, p) => HeartBeatKeepsInv(w, members, l, p);
    case HeartTimeout(_) =>
  }

  lemma {:induction false} RunKeepsInv(w: World, members: set<Ip>, steps: seq<Step>)
    requires Inv(w, members) && Calm(w, members, steps)
    ensures Inv(Run(w, members, steps), members)
    decreases |steps|
  {
    if steps != [] {
      StepKeepsInv(w, members, steps[0]);
      RunKeepsInv(Apply(w, members, steps[0]), members, steps[1..]);
    }
  }

  // ---------------------------------------------------------------- what holds of every run

  /** Election safety: however the steps interleave, as long as no node tests while another test of its
      own is pending and no heartbeat times out, at most one node is leader, and whoever believes in a
      leader believes in it. */
  lemma ElectionSafety(members: set<Ip>, steps: seq<Step>)
    requires Calm(Boot(members), members, steps)
    ensures var w := Run(Boot(members), members, steps);
      && (forall a, b :: IsLeader(w, a) && IsLeader(w, b) ==> a == b)
      && (forall p :: p in members && w.nodes[p].currentLeader != Nobody ==>
            exists l :: IsLeader(w, l) && Names(w.nodes[p].currentLeader, l))
  {
    BootIsSound(members);
    RunKeepsInv(Boot(members), members, steps);
    var w := Run(Boot(members), members, steps);
    forall a, b | IsLeader(w, a) && IsLeader(w, b)
      ensures a == b
    {
      AtMostOneLeader(w, members, a, b);
    }
    forall p | p in members && w.nodes[p].currentLeader != Nobody
      ensures exists l :: IsLeader(w, l) && Names(w.nodes[p].currentLeader, l)
    {
      assert LeaderKnown(w, p);
    }
  }

  lemma StepKeepsBallots(w: World, members: set<Ip>, step: Step, p: Ip)
    requires Inv(w, members) && p in w.ballots
    ensures p in Apply(w, members, step).ballots && Apply(w, members, step).ballots[p] == w.ballots[p]
  {
    if step.WriteVote? && Enabled(w, members, step) {
      assert (step.voter, step.candidate) in w.granting;
    }
  }

  lemma {:induction false} RunKeepsBallots(w: World, members: set<Ip>, steps: seq<Step>, p: Ip)
    requires Inv(w, members) && p in w.ballots && Calm(w, members, steps)
    ensures p in Run(w, members, steps).ballots && Run(w, members, steps).ballots[p] == w.ballots[p]
    decreases |steps|
  {
    if steps != [] {
      StepKeepsInv(w, members, steps[0]);
      StepKeepsBallots(w, members, steps[0], p);
      RunKeepsBallots(Apply(w, members, steps[0]), members, steps[1..], p);
    }
  }

  lemma {:induction false} RunAppend(lapses: Lapses, w: World, members: set<Ip>, before: seq<Step>, after: seq<Step>)
    requires Shaped(w, members)
    ensures Run(w, members, before + after) == Run(Run(w, members, before), members, after)
    ensures Within(lapses, w, members, before + after) <==>
      Within(lapses, w, members, before) && Within(lapses, Run(w, members, before), members, after)
    decreases |before|
  {
    if before == [] {
      assert before + after == after;
    } else {
      assert (before + after)[1..] == before[1..] + after;
      RunAppend(lapses, Apply(w, members, before[0]), members, before[1..], after);
    }
  }

  /** A peer's vote once counted for `y` is, then or later, never counted for anyone else; and a
      counter is exactly the node's own vote plus the peers counted. */
  lemma NeverCountedTwice(members: set<Ip>, before: seq<Step>, after: seq<Step>, p: Ip, y: Ip, z: Ip)
    requires y in members && z in members && Calm(Boot(members), members, before + after)
    requires p in Run(Boot(members), members, before).counted[y]
    requires p in Run(Boot(members), members, before + after).counted[z]
    ensures y == z
    ensures Run(Boot(members), members, before).nodes[y].vote ==
      (if Run(Boot(members), members, before).nodes[y].state == FOLLOWER then 0 else 1)
      + |Run(Boot(members), members, before).counted[y]|
  {
    BootIsSound(members);
    RunAppend(NONE, Boot(members), members, before, after);
    RunKeepsInv(Boot(members), members, before);
    RunKeepsInv(Boot(members), members, before + after);
    var w := Run(Boot(members), members, before);
    assert IsBallot(w, p, y) && CounterSound(w, |members|, y);
    RunKeepsBallots(w, members, after, p);
    assert IsBallot(Run(w, members, after), p, z);
  }

  /** The candidacies of `x` that a run writes. */
  function Candidacies(w: World, members: set<Ip>, steps: seq<Step>, x: Ip): nat
    requires Shaped(w, members)
    decreases |steps|
  {
    if steps == [] then 0 else
      (if steps[0] == WriteStand(x) && Enabled(w, members, steps[0]) then 1 else 0)
      + Candidacies(Apply(w, members, steps[0]), members, steps[1..], x)
  }

  lemma StepCounts(w: World, members: set<Ip>, step: Step, x: Ip)
    requires Shaped(w, members) && x in members
    ensures Apply(w, members, step).nodes[x].currentTerm
      == w.nodes[x].currentTerm + if step == WriteStand(x) && Enabled(w, members, step) then 1 else 0
  {
  }

  /** A node's term counts its own candidacies, over any run. */
  lemma {:induction false} TermCounts(w: World, members: set<Ip>, steps: seq<Step>, x: Ip)
    requires Shaped(w, members) && x in members
    ensures Run(w, members, steps).nodes[x].currentTerm == w.nodes[x].currentTerm + Candidacies(w, members, steps, x)
    decreases |steps|
  {
    if steps != [] {
      StepCounts(w, members, steps[0], x);
      TermCounts(Apply(w, members, steps[0]), members, steps[1..], x);
    }
  }

  /** A node that has heard of a leader neither stands nor votes nor wins until a heartbeat times out; a
      confirmation also takes back its vote and its candidacy, a heartbeat nothing. */
  lemma LeaderSilences(s: NodeState, l: Ip, ok: bool, nodeCount: nat)
    ensures forall t :: t == Confirmed(s, l) || t == HeartBeaten(s, l) ==>
      && t.currentLeader == Peer(l) && t.currentTerm == s.currentTerm
      && !MayStand(t) && !Grants(t) && !Wins(Tallied(t, ok), nodeCount)
    ensures Confirmed(s, l).vote == 0 && Confirmed(s, l).votedFor == Nobody && Confirmed(s, l).state == FOLLOWER
    ensures HeartBeaten(s, l).vote == s.vote && HeartBeaten(s, l).votedFor == s.votedFor
    ensures HeartBeaten(s, l).state == s.state
    ensures MayStand(TimedOut(s)) && Grants(TimedOut(s)) && TimedOut(s).vote == 0
    ensures TimedOut(s).currentTerm == s.currentTerm
  {
  }

  lemma OnlyLeaderNamed(w: World, members: set<Ip>, p: Ip, l: Ip, k: Ip)
    requires Inv(w, members) && p in members && Names(w.nodes[p].currentLeader, l) && IsLeader(w, k)
    ensures k == l
  {
    assert LeaderKnown(w, p);
    var j :| IsLeader(w, j) && Names(w.nodes[p].currentLeader, j);
    AtMostOneLeader(w, members, j, k);
  }

  lemma StepKeepsLeader(w: World, members: set<Ip>, step: Step, p: Ip, l: Ip)
    requires Shaped(w, members) && !step.HeartTimeout? && p in members && Names(w.nodes[p].currentLeader, l)
    requires forall k :: IsLeader(w, k) ==> k == l
    ensures Names(Apply(w, members, step).nodes[p].currentLeader, l)
  {
    if (step.Confirm? || step.HeartBeat?) && Enabled(w, members, step) {
      assert IsLeader(w, step.leader);
    }
  }

  /** In a calm run a node that knows the leader goes on knowing the same one. */
  lemma {:induction false} KnownLeaderStays(w: World, members: set<Ip>, steps: seq<Step>, p: Ip, l: Ip)
    requires Inv(w, members) && Calm(w, members, steps) && p in members && Names(w.nodes[p].currentLeader, l)
    ensures Names(Run(w, members, steps).nodes[p].currentLeader, l)
    decreases |steps|
  {
    if steps != [] {
      StepKeepsInv(w, members, steps[0]);
      forall k | IsLeader(w, k)
        ensures k == l
      {
        OnlyLeaderNamed(w, members, p, l, k);
      }
      StepKeepsLeader(w, members, steps[0], p, l);
      KnownLeaderStays(Apply(w, members, steps[0]), members, steps[1..], p, l);
    }
  }

  // ---------------------------------------------------------------- the node object

  class ClusterNode {
    const ip: Ip
    var account: bool

    constructor (ip: Ip)
      ensures this.ip == ip && !account
    {
      this.ip := ip;
      account := false;
    }
  }

  /** One node. `nodeCount` is the size of the cluster at start-up. */
  class RaftNode {
    const ip: Ip
    const nodeCount: nat
    const heartBeatTimeout: int
    var vote: int
    var votedFor: Name
    var state: int
    var currentLeader: Name
    var currentTerm: int
    var lastSendHeartBeatTime: int

    ghost function Fields(): NodeState
      reads this
    {
      NodeState(vote, votedFor, state, currentLeader, currentTerm)
    }

    constructor (ip: Ip, nodeCount: nat, heartBeatTimeout: int)
      ensures this.ip == ip && this.nodeCount == nodeCount && this.heartBeatTimeout == heartBeatTimeout
      ensures Fields() == FRESH && lastSendHeartBeatTime == 0
    {
      this.ip, this.nodeCount, this.heartBeatTimeout := ip, nodeCount, heartBeatTimeout;
      vote, votedFor, state, currentLeader, currentTerm := 0, Nobody, FOLLOWER, Nobody, 0;
      lastSendHeartBeatTime := 0;
    }

    method ReDefault()
      modifies this`vote, this`votedFor, this`state
      ensures Fields() == ReDefaulted(old(Fields()))
    {
      vote := 0;
      votedFor := Nobody;
      state := FOLLOWER;
    }

    method BecomeCandidate() returns (stands: bool)
      modifies this`state, this`votedFor, this`vote, this`currentTerm
      ensures stands <==> old(state) == FOLLOWER && old(currentLeader) == Nobody && old(votedFor) == Nobody
      ensures Fields() == Stand(old(Fields()), ip)
    {
      if state == FOLLOWER && currentLeader == Nobody && votedFor == Nobody {
        state := CANDIDATE;
        votedFor := Me(ip);
        vote := vote + 1;
        currentTerm := currentTerm + 1;
        return true;
      }
      return false;
    }

    /** One turn of the election loop on a reply; `won` ends the loop. */
    method OnReply(ok: bool) returns (won: bool)
      modifies this`vote, this`state, this`currentLeader
      ensures won <==> old(vote) + (if ok then 1 else 0) >= nodeCount / 2 + 1 && old(currentLeader) == Nobody
      ensures Fields() == TakeReply(old(Fields()), ip, ok, nodeCount)
    {
      if ok {
        vote := vote + 1;
      }
      if vote >= nodeCount / 2 + 1 && currentLeader == Nobody {
        state := LEADER;
        currentLeader := Me(ip);
        return true;
      }
      return false;
    }

    method AnswerVoteRequest(candidate: Ip) returns (granted: bool)
      modifies this`votedFor
      ensures granted <==> old(votedFor) == Nobody && old(currentLeader) == Nobody
      ensures Fields() == AnswerVote(old(Fields()), candidate)
    {
      if votedFor == Nobody && currentLeader == Nobody {
        votedFor := Peer(candidate);
        granted := true;
      } else {
        granted := false;
      }
    }

    /** Accept `leader` and hand the book-keeping right to it alone. */
    method ConfirmationLeader(leader: Ip, cluster: seq<ClusterNode>)
      modifies this`currentLeader, this`vote, this`votedFor, this`state, set n | n in cluster
      ensures Fields() == Confirmed(old(Fields()), leader)
      ensures forall n :: n in cluster ==> n.account == (n.ip == leader)
    {
      currentLeader := Peer(leader);
      ReDefault();
      for i := 0 to |cluster|
        invariant Fields() == Confirmed(old(Fields()), leader)
        invariant forall k :: 0 <= k < i ==> cluster[k].account == (cluster[k].ip == leader)
      {
        if cluster[i].ip == leader {
          cluster[i].account := true;
        } else {
          cluster[i].account := false;
        }
      }
    }

    method HeartBeatResponse(leader: Ip, now: int)
      modifies this`currentLeader, this`lastSendHeartBeatTime
      ensures Fields() == HeartBeaten(old(Fields()), leader)
      ensures lastSendHeartBeatTime == now
    {
      currentLeader := Peer(leader);
      lastSendHeartBeatTime := now;
    }

    /** One look of the heartbeat watchdog, `now` in milliseconds. */
    method HeartTimeoutDetection(now: int) returns (silent: bool)
      modifies this
      ensures silent == (old(lastSendHeartBeatTime) != 0
                         && now - old(lastSendHeartBeatTime) > heartBeatTimeout * 1000)
      ensures Fields() == if silent then TimedOut(old(Fields())) else old(Fields())
      ensures lastSendHeartBeatTime == if silent then 0 else old(lastSendHeartBeatTime)
    {
      silent := lastSendHeartBeatTime != 0 && now - lastSendHeartBeatTime > heartBeatTimeout * 1000;
      if silent {
        ReDefault();
        currentLeader := Nobody;
        lastSendHeartBeatTime := 0;
      }
    }
  }
}
