/** Who can be elected (Raft/raft.go, Raft/rpc.go), and exactly which lapses lead to two leaders. */
module Leaders {
  import opened Folds
  import opened SetSums
  import opened Raft

  ghost predicate Makes(lapses: Lapses, members: set<Ip>, steps: seq<Step>, w: World) {
    forall u :: Open(u) ==>
      Within(lapses, Boot(members), members, steps) && Run(Boot(members), members, steps) == w
  }

  ghost predicate Reached(lapses: Lapses, members: set<Ip>, w: World) {
    Shaped(w, members) && exists steps :: Makes(lapses, members, steps, w)
  }

  lemma BootReached(lapses: Lapses, members: set<Ip>)
    ensures Reached(lapses, members, Boot(members))
  {
    assert Makes(lapses, members, [], Boot(members));
  }

  lemma OneMore(lapses: Lapses, members: set<Ip>, steps: seq<Step>, w: World, step: Step)
    requires Shaped(w, members) && Makes(lapses, members, steps, w) && Permits(lapses, w, step)
    ensures Makes(lapses, members, steps + [step], Apply(w, members, step))
  {
    assert Open(0);
    RunAppend(lapses, Boot(members), members, steps, [step]);
    assert [step][1..] == [];
  }

  lemma Onward(lapses: Lapses, members: set<Ip>, w: World, step: Step) returns (w': World)
    requires Reached(lapses, members, w) && Permits(lapses, w, step)
    ensures w' == Apply(w, members, step) && Reached(lapses, members, w')
  {
    w' := Apply(w, members, step);
    var steps :| Makes(lapses, members, steps, w);
    OneMore(lapses, members, steps, w, step);
  }

  // ---------------------------------------------------------------- moves of a run

  lemma TestsStand(lapses: Lapses, members: set<Ip>, w: World, x: Ip) returns (w': World)
    requires Reached(lapses, members, w) && x in members && x !in w.electing && MayStand(w.nodes[x])
    requires Idle(w, x)
    ensures Reached(lapses, members, w') && w' == w.(standing := w.standing + {x})
  {
    w' := Onward(lapses, members, w, TestStand(x));
  }

  lemma WritesStand(lapses: Lapses, members: set<Ip>, w: World, x: Ip) returns (w': World)
    requires Reached(lapses, members, w) && x in members && x in w.standing
    ensures Reached(lapses, members, w')
    ensures w' == w.(nodes := w.nodes[x := Stood(w.nodes[x], x)], electing := w.electing + {x},
                     standing := w.standing - {x}, asked := w.asked + Requests(members, x))
  {
    w' := Onward(lapses, members, w, WriteStand(x));
  }

  lemma TestsVote(lapses: Lapses, members: set<Ip>, w: World, p: Ip, y: Ip) returns (w': World)
    requires Reached(lapses, members, w) && p in members && y in members && p != y
    requires (p, y) in w.asked && Grants(w.nodes[p]) && Permits(lapses, w, TestVote(p, y))
    ensures Reached(lapses, members, w')
    ensures w' == w.(granting := w.granting + multiset{(p, y)}, asked := w.asked - {(p, y)})
  {
    w' := Onward(lapses, members, w, TestVote(p, y));
  }

  lemma WritesVote(lapses: Lapses, members: set<Ip>, w: World, p: Ip, y: Ip) returns (w': World)
    requires Reached(lapses, members, w) && p in members && y in members && (p, y) in w.granting
    ensures Reached(lapses, members, w')
    ensures w' == w.(nodes := w.nodes[p := Granted(w.nodes[p], y)], ballots := w.ballots[p := y],
                     granting := w.granting - multiset{(p, y)}, replies := w.replies + {(p, y)})
  {
    w' := Onward(lapses, members, w, WriteVote(p, y));
  }

  /** A candidacy whose test and write nothing comes between. */
  lemma Stands(lapses: Lapses, members: set<Ip>, w: World, x: Ip) returns (w': World)
    requires Reached(lapses, members, w) && x in members && Idle(w, x) && x !in w.electing && MayStand(w.nodes[x])
    ensures Reached(lapses, members, w')
    ensures w' == w.(nodes := w.nodes[x := Stood(w.nodes[x], x)], electing := w.electing + {x},
                     asked := w.asked + Requests(members, x))
  {
    var w1 := TestsStand(lapses, members, w, x);
    w' := WritesStand(lapses, members, w1, x);
    assert w.standing + {x} - {x} == w.standing;
  }

  /** A vote whose test and write nothing comes between. */
  lemma Votes(lapses: Lapses, members: set<Ip>, w: World, p: Ip, y: Ip) returns (w': World)
    requires Reached(lapses, members, w) && p in members && y in members && p != y
    requires (p, y) in w.asked && Idle(w, p) && Grants(w.nodes[p])
    ensures Reached(lapses, members, w')
    ensures w' == w.(nodes := w.nodes[p := Granted(w.nodes[p], y)], ballots := w.ballots[p := y],
                     replies := w.replies + {(p, y)}, asked := w.asked - {(p, y)})
  {
    var w1 := TestsVote(lapses, members, w, p, y);
    w' := WritesVote(lapses, members, w1, p, y);
    assert w.granting + multiset{(p, y)} - multiset{(p, y)} == w.granting;
  }

  lemma Counts(lapses: Lapses, members: set<Ip>, w: World, p: Ip, y: Ip) returns (w': World)
    requires Reached(lapses, members, w) && y in members && y in w.electing && (p, y) in w.replies
    ensures Reached(lapses, members, w')
    ensures w' == Deliver(w, y, true, |members|).(replies := w.replies - {(p, y)},
                                                  counted := w.counted[y := w.counted[y] + {p}])
  {
    w' := Onward(lapses, members, w, ReplyArrives(p, y));
  }

  /** A candidacy that is written after the node has voted. */
  lemma VotesThenStands(lapses: Lapses, members: set<Ip>, w: World, p: Ip, y: Ip) returns (w': World)
    requires Reached(lapses, members, w) && p in members && y in members && p != y && p in lapses.standers
    requires (p, y) in w.asked && Idle(w, p) && p !in w.electing && MayStand(w.nodes[p])
    ensures Reached(lapses, members, w')
    ensures w' == w.(nodes := w.nodes[p := Stood(Granted(w.nodes[p], y), p)], ballots := w.ballots[p := y],
                     replies := w.replies + {(p, y)}, electing := w.electing + {p},
                     asked := w.asked - {(p, y)} + Requests(members, p))
  {
    var w1 := TestsStand(lapses, members, w, p);
    var w2 := TestsVote(lapses, members, w1, p, y);
    var w3 := WritesVote(lapses, members, w2, p, y);
    w' := WritesStand(lapses, members, w3, p);
    assert w.standing + {p} - {p} == w.standing;
    assert w.granting + multiset{(p, y)} - multiset{(p, y)} == w.granting;
  }

  /** As at the start, but for the term. */
  predicate Clean(s: NodeState) {
    s.(currentTerm := 0) == FRESH
  }

  predicate OthersSame(w: World, w': World, members: set<Ip>, some: set<Ip>)
    requires Shaped(w, members) && Shaped(w', members)
  {
    && (forall x :: x in members - some ==> w'.nodes[x] == w.nodes[x])
    && w'.standing == w.standing && w'.granting == w.granting
  }

  /** A heartbeat and its timeout. */
  lemma Renews(lapses: Lapses, members: set<Ip>, w: World, p: Ip, l: Ip) returns (w': World)
    requires Reached(lapses, members, w) && p in members && p in lapses.sleepers && IsLeader(w, l) && l != p
    requires w.nodes[p].state == FOLLOWER
    ensures Reached(lapses, members, w') && OthersSame(w, w', members, {p}) && Clean(w'.nodes[p])
    ensures w'.electing == w.electing && w'.replies == w.replies && w'.asked == w.asked
  {
    var w1 := Onward(lapses, members, w, HeartBeat(l, p));
    w' := Onward(lapses, members, w1, HeartTimeout(p));
  }

  predicate MayForget(lapses: Lapses, w: World, p: Ip, l: Ip) {
    p in lapses.standers || (p in lapses.sleepers && IsLeader(w, l) && l != p)
  }

  /** A vote that its voter forgets: it stands on a stale test and times out, or a heartbeat of `l` does. */
  lemma Lends(lapses: Lapses, members: set<Ip>, w: World, p: Ip, y: Ip, l: Ip) returns (w': World)
    requires Reached(lapses, members, w) && p in members && y in members && p != y && MayForget(lapses, w, p, l)
    requires (p, y) in w.asked && Idle(w, p) && p !in w.electing && Clean(w.nodes[p])
    ensures Reached(lapses, members, w') && OthersSame(w, w', members, {p}) && Clean(w'.nodes[p])
    ensures w'.electing == w.electing && w'.replies == w.replies + {(p, y)} && w'.asked >= w.asked - {(p, y)}
  {
    if p in lapses.standers {
      var w1 := VotesThenStands(lapses, members, w, p, y);
      w' := Onward(lapses, members, w1, ElectionTimeout(p));
      assert w.electing + {p} - {p} == w.electing;
    } else {
      var w1 := Votes(lapses, members, w, p, y);
      w' := Renews(lapses, members, w1, p, l);
    }
  }

  /** A candidate that has timed out stands again; replies under way stay under way. */
  lemma StandsAgain(lapses: Lapses, members: set<Ip>, w: World, z: Ip) returns (w': World)
    requires Reached(lapses, members, w) && z in members && Idle(w, z) && z in w.electing
    requires w.nodes[z].currentLeader == Nobody
    ensures Reached(lapses, members, w') && OthersSame(w, w', members, {z})
    ensures w'.electing == w.electing && w'.replies == w.replies && w'.asked == w.asked + Requests(members, z)
    ensures w'.nodes[z].vote == 1 && w'.nodes[z].currentLeader == Nobody
  {
    var w1 := Onward(lapses, members, w, ElectionTimeout(z));
    assert !VotePending(w1, z);
    w' := Stands(lapses, members, w1, z);
    assert w.electing - {z} + {z} == w.electing;
  }

  predicate Running(w: World, members: set<Ip>, y: Ip, votes: int)
    requires Shaped(w, members)
  {
    y in members && y in w.electing && w.nodes[y].currentLeader == Nobody && w.nodes[y].vote == votes
  }

  /** These can still give `y` their vote. */
  predicate Supporters(w: World, members: set<Ip>, y: Ip, voters: set<Ip>)
    requires Shaped(w, members)
  {
    voters <= members - {y} && forall p :: p in voters ==> Idle(w, p) && Grants(w.nodes[p]) && (p, y) in w.asked
  }

  /** The candidate `y` gathers the votes it lacks. */
  lemma {:induction false} Campaign(lapses: Lapses, members: set<Ip>, w: World, y: Ip, voters: set<Ip>, votes: int)
    returns (w': World)
    requires Reached(lapses, members, w) && Running(w, members, y, votes) && Supporters(w, members, y, voters)
    requires votes < Quorum(|members|) <= votes + |voters|
    ensures Reached(lapses, members, w') && IsLeader(w', y) && OthersSame(w, w', members, voters + {y})
    ensures w'.electing == w.electing - {y}
    ensures forall r :: r in w.asked && r.1 != y ==> r in w'.asked
    ensures forall r :: r in w.replies && r.1 != y ==> r in w'.replies
    decreases |voters|
  {
    var p :| p in voters;
    var w1 := Votes(lapses, members, w, p, y);
    var w2 := Counts(lapses, members, w1, p, y);
    if votes + 1 >= Quorum(|members|) {
      w' := w2;
    } else {
      assert Supporters(w2, members, y, voters - {p});
      w' := Campaign(lapses, members, w2, y, voters - {p}, votes + 1);
    }
  }

  // ---------------------------------------------------------------- who can be elected

  lemma PeersSuffice(members: set<Ip>, a: Ip) returns (steps: seq<Step>)
    requires a in members && |members| >= 2
    ensures Calm(Boot(members), members, steps) && IsLeader(Run(Boot(members), members, steps), a)
  {
    BootReached(NONE, members);
    var w := Stands(NONE, members, Boot(members), a);
    var w' := Campaign(NONE, members, w, a, members - {a}, 1);
    steps :| Makes(NONE, members, steps, w');
    assert Open(0);
  }

  /** A cluster of one never elects anybody: the winning check runs only on a peer's reply. */
  lemma {:induction false} LoneNodeNeverLeads(members: set<Ip>, w: World, steps: seq<Step>)
    requires |members| <= 1
    requires Shaped(w, members) && forall m :: m in members ==> w.nodes[m].state != LEADER
    requires forall r :: r in w.replies || r in w.granting ==> r.0 in members && r.1 in members && r.0 != r.1
    ensures forall m :: m in members ==> Run(w, members, steps).nodes[m].state != LEADER
    decreases |steps|
  {
    if steps != [] {
      forall a, b | a in members && b in members
        ensures a == b
      {
        SubsetSize({a, b}, members);
      }
      LoneNodeNeverLeads(members, Apply(w, members, steps[0]), steps[1..]);
    }
  }

  ghost predicate ElectedBy(members: set<Ip>, a: Ip, steps: seq<Step>) {
    Calm(Boot(members), members, steps) && IsLeader(Run(Boot(members), members, steps), a)
  }

  /** With two or more nodes any of them can be elected; with one, none ever is. */
  lemma ElectableIffPeers(members: set<Ip>, a: Ip)
    requires a in members
    ensures (exists steps :: ElectedBy(members, a, steps)) <==> |members| >= 2
  {
    if |members| >= 2 {
      var steps := PeersSuffice(members, a);
      assert ElectedBy(members, a, steps);
    } else {
      forall steps
        ensures !ElectedBy(members, a, steps)
      {
        LoneNodeNeverLeads(members, Boot(members), steps);
      }
    }
  }

  // ---------------------------------------------------------------- two leaders

  predicate BothLead(w: World, y: Ip, z: Ip) {
    y != z && IsLeader(w, y) && IsLeader(w, z)
  }

  lemma {:induction false} SomeOf(s: set<Ip>, k: nat) returns (t: set<Ip>)
    requires k <= |s|
    ensures t <= s && |t| == k
  {
    if k == 0 {
      t := {};
    } else {
      var x :| x in s;
      t := SomeOf(s - {x}, k - 1);
      t := t + {x};
    }
  }

  /** Two candidates and the others that vote for each, next to the one whose votes count twice. */
  datatype Camps = Camps(y: Ip, z: Ip, a: set<Ip>, b: set<Ip>)

  function SecondCamp(members: set<Ip>): nat {
    if Quorum(|members|) <= 3 then 0 else Quorum(|members|) - 3
  }

  predicate Camped(c: Camps, members: set<Ip>, p: Ip) {
    && |members| >= 3 && c.y in members && c.z in members && p in members && c.y != c.z && p != c.y && p != c.z
    && c.a <= members - {p, c.y, c.z} && c.b <= members - {p, c.y, c.z} && c.a !! c.b
    && |c.a| == Quorum(|members|) - 2 && |c.b| == SecondCamp(members)
  }

  lemma PitchCamps(members: set<Ip>, p: Ip) returns (c: Camps)
    requires |members| >= 3 && p in members
    ensures Camped(c, members, p)
  {
    var two := SomeOf(members - {p}, 2);
    var y :| y in two;
    assert |two - {y}| == 1;
    var z :| z in two - {y};
    var rest := members - {p, y, z};
    assert |rest| == |members| - 3;
    var a := SomeOf(rest, Quorum(|members|) - 2);
    var b := SomeOf(rest - a, SecondCamp(members));
    c := Camps(y, z, a, b);
  }

  /** The votes of `p` and of the camp, one reply of `p` being under way, make `y` leader. */
  lemma WinsWith(lapses: Lapses, members: set<Ip>, w: World, p: Ip, y: Ip, camp: set<Ip>, votes: int)
    returns (w': World)
    requires Reached(lapses, members, w) && Running(w, members, y, votes) && (p, y) in w.replies
    requires Supporters(w, members, y, camp) && votes < Quorum(|members|) <= votes + 1 + |camp|
    ensures Reached(lapses, members, w') && IsLeader(w', y) && OthersSame(w, w', members, camp + {y})
    ensures w'.electing == w.electing - {y}
    ensures forall r :: r in w.asked && r.1 != y ==> r in w'.asked
    ensures forall r :: r in w.replies && r.1 != y ==> r in w'.replies
  {
    w' := Counts(lapses, members, w, p, y);
    if votes + 1 < Quorum(|members|) {
      w' := Campaign(lapses, members, w', y, camp, votes + 1);
    }
  }

  /** The first leader is there, the second candidate and its camp are fresh, and so is `p` again. */
  predicate HalfWay(w: World, members: set<Ip>, c: Camps, p: Ip)
    requires Shaped(w, members) && Camped(c, members, p)
  {
    && IsLeader(w, c.y) && Clean(w.nodes[p]) && w.nodes[c.z] == FRESH && p !in w.electing && c.z !in w.electing
    && w.standing == {} && w.granting == multiset{} && forall x :: x in c.b ==> w.nodes[x] == FRESH
  }

  lemma FirstStands(lapses: Lapses, members: set<Ip>, c: Camps, p: Ip) returns (w: World)
    requires Camped(c, members, p)
    ensures Reached(lapses, members, w) && Running(w, members, c.y, 1) && w.asked == Requests(members, c.y)
    ensures w == w.(standing := {}, granting := multiset{}, electing := {c.y})
    ensures forall x :: x in members - {c.y} ==> w.nodes[x] == FRESH
  {
    BootReached(lapses, members);
    w := Stands(lapses, members, Boot(members), c.y);
  }

  lemma FirstByCandidacy(lapses: Lapses, members: set<Ip>, c: Camps, p: Ip) returns (w: World)
    requires Camped(c, members, p) && p in lapses.standers
    ensures Reached(lapses, members, w) && HalfWay(w, members, c, p)
  {
    var w1 := FirstStands(lapses, members, c, p);
    var w2 := Lends(lapses, members, w1, p, c.y, p);
    w := WinsWith(lapses, members, w2, p, c.y, c.a, 1);
  }

  lemma FirstByVote(lapses: Lapses, members: set<Ip>, c: Camps, p: Ip) returns (w: World)
    requires Camped(c, members, p)
    ensures Reached(lapses, members, w) && IsLeader(w, c.y) && w.nodes[c.z] == FRESH && w.nodes[p].state == FOLLOWER
    ensures p !in w.electing && c.z !in w.electing && w.standing == {} && w.granting == multiset{}
    ensures forall x :: x in c.b ==> w.nodes[x] == FRESH
  {
    var w1 := FirstStands(lapses, members, c, p);
    var w2 := Votes(lapses, members, w1, p, c.y);
    w := WinsWith(lapses, members, w2, p, c.y, c.a, 1);
  }

  lemma FirstByHeartbeat(lapses: Lapses, members: set<Ip>, c: Camps, p: Ip) returns (w: World)
    requires Camped(c, members, p) && p in lapses.sleepers
    ensures Reached(lapses, members, w) && HalfWay(w, members, c, p)
  {
    var w1 := FirstByVote(lapses, members, c, p);
    w := Renews(lapses, members, w1, p, c.y);
  }

  /** A reply of `p` for the second candidate is under way, and `p` can give it another one. */
  predicate Primed(w: World, members: set<Ip>, c: Camps, p: Ip)
    requires Shaped(w, members) && Camped(c, members, p)
  {
    && IsLeader(w, c.y) && Running(w, members, c.z, 1) && (p, c.z) in w.replies && (p, c.z) in w.asked
    && Clean(w.nodes[p]) && Idle(w, p) && Supporters(w, members, c.z, c.b)
  }

  lemma SecondAsks(lapses: Lapses, members: set<Ip>, w: World, c: Camps, p: Ip) returns (w': World)
    requires Camped(c, members, p) && Reached(lapses, members, w) && HalfWay(w, members, c, p)
    ensures Reached(lapses, members, w') && IsLeader(w', c.y) && Running(w', members, c.z, 1)
    ensures Clean(w'.nodes[p]) && p !in w'.electing && (p, c.z) in w'.asked
    ensures w'.standing == {} && w'.granting == multiset{} && forall x :: x in c.b ==> w'.nodes[x] == FRESH
  {
    w' := Stands(lapses, members, w, c.z);
  }

  lemma SecondStands(lapses: Lapses, members: set<Ip>, w: World, c: Camps, p: Ip) returns (w': World)
    requires Camped(c, members, p) && Reached(lapses, members, w) && HalfWay(w, members, c, p)
    requires MayForget(lapses, w, p, c.y)
    ensures Reached(lapses, members, w') && Primed(w', members, c, p)
  {
    var w1 := SecondAsks(lapses, members, w, c, p);
    var w2 := Lends(lapses, members, w1, p, c.z, c.y);
    w' := StandsAgain(lapses, members, w2, c.z);
  }

  lemma SecondLeader(lapses: Lapses, members: set<Ip>, w: World, c: Camps, p: Ip) returns (w': World)
    requires Camped(c, members, p) && Reached(lapses, members, w) && Primed(w, members, c, p)
    ensures Reached(lapses, members, w') && BothLead(w', c.y, c.z)
  {
    if Quorum(|members|) == 2 {
      w' := WinsWith(lapses, members, w, p, c.z, {}, 1);
    } else {
      var w1 := Counts(lapses, members, w, p, c.z);
      var w2 := Votes(lapses, members, w1, p, c.z);
      w' := WinsWith(lapses, members, w2, p, c.z, c.b, 2);
    }
  }

  /** Both candidates run, and `p` has tested three vote requests before it writes the first vote. */
  predicate Tested(w: World, members: set<Ip>, c: Camps, p: Ip)
    requires Shaped(w, members) && Camped(c, members, p)
  {
    && Running(w, members, c.y, 1) && Running(w, members, c.z, 1)
    && w.standing == {} && w.granting == multiset{(p, c.y), (p, c.z), (p, c.z)}
    && (forall x :: x in c.a ==> w.nodes[x] == FRESH && (x, c.y) in w.asked)
    && (forall x :: x in c.b ==> w.nodes[x] == FRESH && (x, c.z) in w.asked)
  }

  lemma BothStand(lapses: Lapses, members: set<Ip>, c: Camps, p: Ip) returns (w: World)
    requires Camped(c, members, p)
    ensures Reached(lapses, members, w) && Running(w, members, c.y, 1) && Running(w, members, c.z, 1)
    ensures w.asked == Requests(members, c.y) + Requests(members, c.z)
    ensures w.standing == {} && w.granting == multiset{}
    ensures forall x :: x in members - {c.y, c.z} ==> w.nodes[x] == FRESH
  {
    var w1 := FirstStands(lapses, members, c, p);
    w := Stands(lapses, members, w1, c.z);
  }

  lemma TestsTwice(lapses: Lapses, members: set<Ip>, c: Camps, p: Ip) returns (w: World)
    requires Camped(c, members, p) && p in lapses.voters
    ensures Reached(lapses, members, w) && Running(w, members, c.y, 1) && Running(w, members, c.z, 1)
    ensures w.standing == {} && w.granting == multiset{(p, c.y), (p, c.z)}
    ensures forall x :: x in members - {c.y, c.z} ==> w.nodes[x] == FRESH
    ensures forall x :: x in c.a ==> (x, c.y) in w.asked
  {
    var w1 := BothStand(lapses, members, c, p);
    var w2 := TestsVote(lapses, members, w1, p, c.y);
    w := TestsVote(lapses, members, w2, p, c.z);
  }

  lemma TestsThrice(lapses: Lapses, members: set<Ip>, c: Camps, p: Ip) returns (w: World)
    requires Camped(c, members, p) && p in lapses.voters
    ensures Reached(lapses, members, w) && Tested(w, members, c, p)
  {
    var w1 := TestsTwice(lapses, members, c, p);
    var w2 := StandsAgain(lapses, members, w1, c.z);
    w := TestsVote(lapses, members, w2, p, c.z);
  }

  /** The first vote is written and makes a leader; two are left. */
  predicate Left(w: World, members: set<Ip>, c: Camps, p: Ip)
    requires Shaped(w, members) && Camped(c, members, p)
  {
    && IsLeader(w, c.y) && Running(w, members, c.z, 1)
    && w.standing == {} && w.granting == multiset{(p, c.z), (p, c.z)}
    && (forall x :: x in c.b ==> w.nodes[x] == FRESH && (x, c.z) in w.asked)
  }

  lemma WritesFirst(lapses: Lapses, members: set<Ip>, w: World, c: Camps, p: Ip) returns (w': World)
    requires Camped(c, members, p) && Reached(lapses, members, w) && Tested(w, members, c, p)
    ensures Reached(lapses, members, w') && Left(w', members, c, p)
  {
    var w1 := WritesVote(lapses, members, w, p, c.y);
    assert w1.granting == multiset{(p, c.z), (p, c.z)};
    w' := WinsWith(lapses, members, w1, p, c.y, c.a, 1);
  }

  lemma WritesOthers(lapses: Lapses, members: set<Ip>, w: World, c: Camps, p: Ip) returns (w': World)
    requires Camped(c, members, p) && Reached(lapses, members, w) && Left(w, members, c, p)
    ensures Reached(lapses, members, w') && BothLead(w', c.y, c.z)
  {
    var w1 := WritesVote(lapses, members, w, p, c.z);
    assert w1.granting == multiset{(p, c.z)};
    if Quorum(|members|) == 2 {
      w' := WinsWith(lapses, members, w1, p, c.z, {}, 1);
    } else {
      var w2 := Counts(lapses, members, w1, p, c.z);
      var w3 := WritesVote(lapses, members, w2, p, c.z);
      w' := WinsWith(lapses, members, w3, p, c.z, c.b, 2);
    }
  }

  /** One node that lapses in one way is enough. */
  lemma Splits(lapses: Lapses, members: set<Ip>, p: Ip) returns (w: World, y: Ip, z: Ip)
    requires |members| >= 3 && p in members && p in lapses.voters + lapses.standers + lapses.sleepers
    ensures Reached(lapses, members, w) && BothLead(w, y, z)
  {
    var c := PitchCamps(members, p);
    y, z := c.y, c.z;
    if p in lapses.voters {
      w := TestsThrice(lapses, members, c, p);
      w := WritesFirst(lapses, members, w, c, p);
      w := WritesOthers(lapses, members, w, c, p);
    } else {
      if p in lapses.standers {
        w := FirstByCandidacy(lapses, members, c, p);
      } else {
        w := FirstByHeartbeat(lapses, members, c, p);
      }
      w := SecondStands(lapses, members, w, c, p);
      w := SecondLeader(lapses, members, w, c, p);
    }
  }

  // ---------------------------------------------------------------- a pair of nodes

  /** Of two nodes, one does not stand on a stale test: what holds of it. */
  predicate Steady(w: World, a: Ip)
    requires a in w.nodes
  {
    var s := w.nodes[a];
    && s.state in {FOLLOWER, CANDIDATE, LEADER}
    && (s.state != FOLLOWER ==> s.votedFor == Me(a))
    && (a in w.electing && s.currentLeader == Nobody ==> s.state == CANDIDATE)
    && VoterSound(w, a)
    && (a in w.standing ==> Free(w, a) && !VotePending(w, a))
    && (VotePending(w, a) ==> s.state == FOLLOWER && a !in w.electing)
  }

  /** As long as that node has given no vote, the other one has none but its own. */
  predicate Alone(w: World, a: Ip, b: Ip)
    requires b in w.nodes
  {
    var s := w.nodes[b];
    && s.state != LEADER && s.vote <= (if b in w.electing then 1 else 0) && (a, b) !in w.replies
    && (b in w.standing ==> b !in w.electing)
  }

  ghost predicate PairInv(w: World, a: Ip, b: Ip) {
    && a != b && Shaped(w, {a, b})
    && (forall r :: r in w.granting || r in w.replies ==> r == (a, b) || r == (b, a))
    && Steady(w, a) && (a in w.ballots || Alone(w, a, b))
  }

  /** The node whose own fields a step can change. */
  function Actor(step: Step): Ip {
    match step
    case TestStand(x) => x
    case WriteStand(x) => x
    case TestVote(p, _) => p
    case WriteVote(p, _) => p
    case ReplyArrives(_, y) => y
    case RefusalArrives(_, y) => y
    case ElectionTimeout(x) => x
    case Confirm(_, p) => p
    case HeartBeat(_, p) => p
    case HeartTimeout(x) => x
  }

  predicate SameAt(w: World, w': World, x: Ip)
    requires x in w.nodes && x in w'.nodes
  {
    && w'.nodes[x] == w.nodes[x]
    && (x in w'.electing <==> x in w.electing) && (x in w'.standing <==> x in w.standing)
    && (x in w'.ballots <==> x in w.ballots) && (x in w.ballots ==> w'.ballots[x] == w.ballots[x])
    && (VotePending(w', x) <==> VotePending(w, x))
  }

  lemma PendingOf(g: multiset<(Ip, Ip)>, r: (Ip, Ip), x: Ip)
    requires r.0 != x
    ensures forall s: (Ip, Ip) :: s.0 == x ==> (s in g + multiset{r} <==> s in g) && (s in g - multiset{r} <==> s in g)
  {
  }

  lemma PendingSame(w: World, members: set<Ip>, step: Step, x: Ip)
    requires Shaped(w, members) && x in members && x != Actor(step)
    ensures VotePending(Apply(w, members, step), x) <==> VotePending(w, x)
  {
    var w' := Apply(w, members, step);
    if step.TestVote? || step.WriteVote? {
      PendingOf(w.granting, (step.voter, step.candidate), x);
    }
    assert forall s: (Ip, Ip) :: s.0 == x ==> (s in w'.granting <==> s in w.granting);
  }

  lemma RepliesSame(w: World, members: set<Ip>, step: Step, x: Ip)
    requires Shaped(w, members) && x in members && x != Actor(step)
    ensures forall y :: (x, y) in Apply(w, members, step).replies ==> (x, y) in w.replies
  {
  }

  lemma OnlyActor(w: World, members: set<Ip>, step: Step, x: Ip)
    requires Shaped(w, members) && x in members && x != Actor(step)
    ensures SameAt(w, Apply(w, members, step), x)
    ensures forall y :: (x, y) in Apply(w, members, step).replies ==> (x, y) in w.replies
  {
    PendingSame(w, members, step, x);
    RepliesSame(w, members, step, x);
  }

  lemma SteadySame(w: World, w': World, a: Ip)
    requires a in w.nodes && a in w'.nodes && SameAt(w, w', a) && Steady(w, a)
    ensures Steady(w', a)
  {
  }

  lemma SteadyTests(lapses: Lapses, w: World, a: Ip, b: Ip, step: Step)
    requires PairInv(w, a, b) && Permits(lapses, w, step) && a !in lapses.standers
    requires step == TestStand(a) || step == TestVote(a, b)
    ensures Steady(Apply(w, {a, b}, step), a)
  {
  }

  lemma SteadyWrites(w: World, a: Ip, b: Ip, step: Step)
    requires PairInv(w, a, b) && (step == WriteStand(a) || step == WriteVote(a, b))
    ensures Steady(Apply(w, {a, b}, step), a)
  {
  }

  lemma SteadyHears(w: World, a: Ip, b: Ip, step: Step)
    requires PairInv(w, a, b) && Actor(step) == a
    requires step.ReplyArrives? || step.RefusalArrives? || step.ElectionTimeout? || step.Confirm? || step.HeartBeat?
    ensures Steady(Apply(w, {a, b}, step), a)
  {
  }

  lemma SteadyKept(lapses: Lapses, w: World, a: Ip, b: Ip, step: Step)
    requires PairInv(w, a, b) && Permits(lapses, w, step) && a !in lapses.standers + lapses.sleepers
    ensures Steady(Apply(w, {a, b}, step), a)
  {
    if Actor(step) != a {
      OnlyActor(w, {a, b}, step, a);
      SteadySame(w, Apply(w, {a, b}, step), a);
    } else if step.TestStand? || step.TestVote? {
      if Enabled(w, {a, b}, step) {
        SteadyTests(lapses, w, a, b, step);
      }
    } else if step.WriteStand? || step.WriteVote? {
      if Enabled(w, {a, b}, step) {
        SteadyWrites(w, a, b, step);
      }
    } else {
      SteadyHears(w, a, b, step);
    }
  }

  lemma AloneKept(lapses: Lapses, w: World, a: Ip, b: Ip, step: Step)
    requires PairInv(w, a, b) && Permits(lapses, w, step)
    ensures var w' := Apply(w, {a, b}, step); a in w'.ballots || Alone(w', a, b)
  {
    if Enabled(w, {a, b}, step) && a !in w.ballots {
      if Actor(step) == b {
        OnlyActor(w, {a, b}, step, a);
        AloneOwn(w, a, b, step);
      } else {
        OnlyActor(w, {a, b}, step, b);
      }
    }
  }

  lemma AloneOwn(w: World, a: Ip, b: Ip, step: Step)
    requires PairInv(w, a, b) && Enabled(w, {a, b}, step) && Alone(w, a, b) && Actor(step) == b
    requires (a, b) !in Apply(w, {a, b}, step).replies
    ensures Alone(Apply(w, {a, b}, step), a, b)
  {
  }

  lemma PairStep(lapses: Lapses, w: World, a: Ip, b: Ip, step: Step)
    requires PairInv(w, a, b) && Permits(lapses, w, step) && a !in lapses.standers + lapses.sleepers
    ensures PairInv(Apply(w, {a, b}, step), a, b)
  {
    SteadyKept(lapses, w, a, b, step);
    AloneKept(lapses, w, a, b, step);
  }

  lemma {:induction false} PairRun(lapses: Lapses, w: World, a: Ip, b: Ip, steps: seq<Step>)
    requires PairInv(w, a, b) && a !in lapses.standers + lapses.sleepers
    requires Within(lapses, w, {a, b}, steps)
    ensures PairInv(Run(w, {a, b}, steps), a, b)
    decreases |steps|
  {
    if steps != [] {
      PairStep(lapses, w, a, b, steps[0]);
      PairRun(lapses, Apply(w, {a, b}, steps[0]), a, b, steps[1..]);
    }
  }

  lemma EachAsked(lapses: Lapses, a: Ip, b: Ip) returns (w: World)
    requires a != b && b in lapses.standers
    ensures Reached(lapses, {a, b}, w) && (b, a) in w.replies && (a, b) in w.asked
    ensures Clean(w.nodes[a]) && a !in w.electing && Idle(w, a) && Running(w, {a, b}, b, 1)
  {
    var members := {a, b};
    BootReached(lapses, members);
    var w1 := Stands(lapses, members, Boot(members), a);
    var w2 := VotesThenStands(lapses, members, w1, b, a);
    w := Onward(lapses, members, w2, ElectionTimeout(a));
  }

  lemma BothStale(lapses: Lapses, a: Ip, b: Ip) returns (w: World)
    requires a != b && a in lapses.standers && b in lapses.standers
    ensures Reached(lapses, {a, b}, w) && BothLead(w, a, b)
  {
    var members := {a, b};
    var w1 := EachAsked(lapses, a, b);
    var w2 := VotesThenStands(lapses, members, w1, a, b);
    var w3 := Counts(lapses, members, w2, b, a);
    w := Counts(lapses, members, w3, a, b);
  }

  /** The vote of `a` for `b` has passed its test; `a` stands before it writes it. */
  lemma StandsOverVote(lapses: Lapses, a: Ip, b: Ip) returns (w: World)
    requires a != b && a in lapses.standers
    ensures Reached(lapses, {a, b}, w) && Running(w, {a, b}, a, 1) && (b, a) in w.asked
    ensures Clean(w.nodes[b]) && b !in w.electing && w.standing == {} && w.granting == multiset{(a, b)}
  {
    var members := {a, b};
    BootReached(lapses, members);
    var w1 := Stands(lapses, members, Boot(members), b);
    var w2 := TestsVote(lapses, members, w1, a, b);
    var w3 := Onward(lapses, members, w2, TestStand(a));
    var w4 := WritesStand(lapses, members, w3, a);
    w := Onward(lapses, members, w4, ElectionTimeout(b));
  }

  lemma StaleAndAsleep(lapses: Lapses, a: Ip, b: Ip) returns (w: World)
    requires a != b && a in lapses.standers && b in lapses.sleepers
    ensures Reached(lapses, {a, b}, w) && BothLead(w, a, b)
  {
    var members := {a, b};
    var w1 := StandsOverVote(lapses, a, b);
    var w2 := Votes(lapses, members, w1, b, a);
    var w3 := Counts(lapses, members, w2, b, a);
    var w4 := Renews(lapses, members, w3, b, a);
    var w5 := WritesVote(lapses, members, w4, a, b);
    w := Returns(lapses, w5, a, b);
  }

  /** `b` is fresh again beside the leader `a`, and a reply for it is under way. */
  lemma Returns(lapses: Lapses, w: World, a: Ip, b: Ip) returns (w': World)
    requires a != b && Reached(lapses, {a, b}, w) && IsLeader(w, a) && Clean(w.nodes[b]) && b !in w.electing
    requires Idle(w, b) && (a, b) in w.replies
    ensures Reached(lapses, {a, b}, w') && BothLead(w', a, b)
  {
    var w1 := Stands(lapses, {a, b}, w, b);
    w' := Counts(lapses, {a, b}, w1, a, b);
  }

  /** `b` leads, and `a`, fresh again, has asked nobody and can be asked once more. */
  lemma LeadsOnFirst(lapses: Lapses, a: Ip, b: Ip) returns (w: World)
    requires a != b && a in lapses.sleepers
    ensures Reached(lapses, {a, b}, w) && IsLeader(w, b) && (a, b) in w.asked && Clean(w.nodes[a]) && a !in w.electing
    ensures b !in w.electing && w.standing == {} && w.granting == multiset{}
  {
    var members := {a, b};
    BootReached(lapses, members);
    var w1 := Stands(lapses, members, Boot(members), b);
    var w2 := Votes(lapses, members, w1, a, b);
    var w3 := StandsAgain(lapses, members, w2, b);
    var w4 := Counts(lapses, members, w3, a, b);
    w := Renews(lapses, members, w4, a, b);
  }

  /** The second vote of `a` is under way when `b`, the leader, forgets. */
  lemma LeaderForgets(lapses: Lapses, a: Ip, b: Ip) returns (w: World)
    requires a != b && a in lapses.sleepers && b in lapses.sleepers
    ensures Reached(lapses, {a, b}, w) && (a, b) in w.replies && Clean(w.nodes[a]) && a !in w.electing
    ensures Clean(w.nodes[b]) && b !in w.electing && w.standing == {} && w.granting == multiset{}
  {
    var members := {a, b};
    var w1 := LeadsOnFirst(lapses, a, b);
    var w2 := Votes(lapses, members, w1, a, b);
    var w3 := Onward(lapses, members, w2, HeartBeat(b, a));
    var w4 := Onward(lapses, members, w3, HeartTimeout(a));
    w := Onward(lapses, members, w4, HeartTimeout(b));
  }

  lemma BothAsleep(lapses: Lapses, a: Ip, b: Ip) returns (w: World)
    requires a != b && a in lapses.sleepers && b in lapses.sleepers
    ensures Reached(lapses, {a, b}, w) && BothLead(w, a, b)
  {
    var members := {a, b};
    var w1 := LeaderForgets(lapses, a, b);
    var w2 := Stands(lapses, members, w1, a);
    var w3 := Votes(lapses, members, w2, b, a);
    var w4 := Counts(lapses, members, w3, b, a);
    var w5 := Renews(lapses, members, w4, b, a);
    w := Returns(lapses, w5, a, b);
  }

  lemma PairSplits(lapses: Lapses, a: Ip, b: Ip) returns (w: World, y: Ip, z: Ip)
    requires a != b && {a, b} <= lapses.standers + lapses.sleepers
    ensures Reached(lapses, {a, b}, w) && BothLead(w, y, z)
  {
    y, z := a, b;
    if a in lapses.standers {
      if b in lapses.standers {
        w := BothStale(lapses, a, b);
      } else {
        w := StaleAndAsleep(lapses, a, b);
      }
    } else if b in lapses.standers {
      assert {a, b} == {b, a};
      w := StaleAndAsleep(lapses, b, a);
    } else {
      w := BothAsleep(lapses, a, b);
    }
  }

  lemma PairSafe(lapses: Lapses, a: Ip, b: Ip, steps: seq<Step>)
    requires a != b && a !in lapses.standers + lapses.sleepers && Within(lapses, Boot({a, b}), {a, b}, steps)
    ensures var w := Run(Boot({a, b}), {a, b}, steps); !(IsLeader(w, a) && IsLeader(w, b))
  {
    PairRun(lapses, Boot({a, b}), a, b, steps);
  }

  // ---------------------------------------------------------------- exactly when there is one leader

  ghost predicate AlwaysOne(lapses: Lapses, members: set<Ip>) {
    forall steps, y, z :: Within(lapses, Boot(members), members, steps) ==>
      !BothLead(Run(Boot(members), members, steps), y, z)
  }

  predicate Of(lapses: Lapses, members: set<Ip>) {
    lapses.voters + lapses.standers + lapses.sleepers <= members
  }

  lemma NotOne(lapses: Lapses, members: set<Ip>, w: World, y: Ip, z: Ip)
    requires Reached(lapses, members, w) && BothLead(w, y, z)
    ensures !AlwaysOne(lapses, members)
  {
    var steps :| Makes(lapses, members, steps, w);
    assert Open(0);
  }

  lemma PairIff(lapses: Lapses, a: Ip, b: Ip)
    requires a != b && Of(lapses, {a, b})
    ensures AlwaysOne(lapses, {a, b}) <==> !({a, b} <= lapses.standers + lapses.sleepers)
  {
    var members := {a, b};
    if members <= lapses.standers + lapses.sleepers {
      var w, y, z := PairSplits(lapses, a, b);
      NotOne(lapses, members, w, y, z);
    } else {
      var x :| x in members && x !in lapses.standers + lapses.sleepers;
      var o := if x == a then b else a;
      assert members == {x, o};
      forall steps, y, z | Within(lapses, Boot(members), members, steps)
        ensures !BothLead(Run(Boot(members), members, steps), y, z)
      {
        PairSafe(lapses, x, o, steps);
      }
    }
  }

  /** Over every run in which only these nodes lapse, and only so, there is never a second leader, if and
      only if no node lapses, or the cluster is one node, or it is a pair of which one node neither
      stands on a stale test nor runs into a heartbeat timeout. */
  lemma OneLeaderIff(lapses: Lapses, members: set<Ip>)
    requires Of(lapses, members)
    ensures AlwaysOne(lapses, members) <==>
      || lapses == NONE || |members| <= 1
      || (|members| == 2 && !(members <= lapses.standers + lapses.sleepers))
  {
    if |members| <= 1 {
      forall steps, y, z | Within(lapses, Boot(members), members, steps)
        ensures !BothLead(Run(Boot(members), members, steps), y, z)
      {
        LoneNodeNeverLeads(members, Boot(members), steps);
      }
    } else if lapses == NONE {
      forall steps, y, z | Within(lapses, Boot(members), members, steps)
        ensures !BothLead(Run(Boot(members), members, steps), y, z)
      {
        ElectionSafety(members, steps);
      }
    } else if |members| == 2 {
      var a :| a in members;
      assert |members - {a}| == 1;
      var b :| b in members - {a};
      SubsetIsAll({a, b}, members);
      PairIff(lapses, a, b);
    } else {
      var p :| p in lapses.voters + lapses.standers + lapses.sleepers;
      var w, y, z := Splits(lapses, members, p);
      NotOne(lapses, members, w, y, z);
    }
  }

  lemma SubsetIsAll(s: set<Ip>, t: set<Ip>)
    requires s <= t && |s| == |t|
    ensures s == t
  {
    assert t == s + (t - s);
  }

  /** In every cluster of three or more one node suffices for two leaders: if it tests for a vote while
      another vote of its own waits to be written, */
  lemma InterleavedVotesElectTwo(members: set<Ip>, p: Ip)
    requires p in members && |members| >= 3
    ensures !AlwaysOne(Lapses({p}, {}, {}), members)
  {
    OneLeaderIff(Lapses({p}, {}, {}), members);
  }

  /** if it votes between the test and the write of its own candidacy, */
  lemma StaleCandidacyElectsTwo(members: set<Ip>, p: Ip)
    requires p in members && |members| >= 3
    ensures !AlwaysOne(Lapses({}, {p}, {}), members)
  {
    OneLeaderIff(Lapses({}, {p}, {}), members);
  }

  /** or if a heartbeat timeout makes it forget its vote and its leader. */
  lemma HeartTimeoutAllowsTwo(members: set<Ip>, p: Ip)
    requires p in members && |members| >= 3
    ensures !AlwaysOne(Lapses({}, {}, {p}), members)
  {
    OneLeaderIff(Lapses({}, {}, {p}), members);
  }
}
