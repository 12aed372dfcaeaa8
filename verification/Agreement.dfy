/** BA* (algorand/algorand.go, BA, reduction, binaryBA): a node's control flow as a machine that
    advances by one vote count at a time, and the source's loops tied to it. */
module Agreement {
  import opened Voting

  const REDUCTION_ONE := 1001
  const REDUCTION_TWO := 1002
  const FINAL := 1003
  const MAXSTEPS := 12

  datatype Cast = Cast(step: int, hash: Hash)

  /** Where a node waits for a count: the two reduction steps, a stage of the binary loop, the
      final step; or how it ended. */
  datatype Phase = AwaitOne | AwaitTwo | AwaitStage(stage: nat) | AwaitFinal | Finished(final: bool) | Hung | Dead

  /** `hash` is what reduction returned, `r` and `step` are binaryBA's variables. */
  datatype Node = Node(phase: Phase, step: nat, r: Hash, hash: Hash)

  /** The hash a count leaves in the caller's variable when it is not a timeout. */
  function Value(o: Outcome): Hash {
    if o.Quorum? then o.hash else []
  }

  function StartRound(proposed: Hash): (Node, seq<Cast>) {
    (Node(AwaitOne, 0, proposed, []), [Cast(REDUCTION_ONE, proposed)])
  }

  function StartBinary(hash: Hash): (Node, seq<Cast>) {
    (Node(AwaitStage(1), 1, hash, hash), [Cast(1, hash)])
  }

  /** The votes for the three steps after a decision. */
  function Ahead(step: nat, h: Hash): seq<Cast> {
    [Cast(step + 1, h), Cast(step + 2, h), Cast(step + 3, h)]
  }

  function NextStage(n: Node, stage: nat, r: Hash): (Node, seq<Cast>) {
    (n.(phase := AwaitStage(stage), step := n.step + 1, r := r), [Cast(n.step + 1, r)])
  }

  function OnStage(n: Node, stage: nat, empty: Hash, o: Outcome, coin: int): (Node, seq<Cast>) {
    if stage == 1 then
      if o.Timeout? then NextStage(n, 2, n.hash)
      else if Value(o) != empty then
        (n.(phase := AwaitFinal, r := Value(o)),
         Ahead(n.step, Value(o)) + if n.step == 1 then [Cast(FINAL, Value(o))] else [])
      else NextStage(n, 2, Value(o))
    else if stage == 2 then
      if o.Timeout? then NextStage(n, 3, empty)
      else if Value(o) == empty then (n.(phase := AwaitFinal, r := empty), Ahead(n.step, empty))
      else NextStage(n, 3, Value(o))
    else
      // the third stage leaves `step` as it is
      var r := if o.Timeout? then (if coin == 0 then n.hash else empty) else Value(o);
      if n.step < MAXSTEPS
      then (n.(phase := AwaitStage(1), r := r), [Cast(n.step, r)])
      else (n.(phase := Hung, r := r), [])
  }

  /** One count ends; the node goes on to its next count, casting votes on the way. */
  function OnCount(n: Node, empty: Hash, o: Outcome, coin: int): (Node, seq<Cast>) {
    if n.phase.Finished? || n.phase.Hung? || n.phase.Dead? then (n, [])
    else if o.Crash? then (n.(phase := Dead), [])
    else
      match n.phase
      case AwaitOne =>
        var h := if o.Timeout? then empty else Value(o);
        (n.(phase := AwaitTwo), [Cast(REDUCTION_TWO, h)])
      case AwaitTwo => StartBinary(if o.Timeout? then empty else Value(o))
      case AwaitStage(stage) => OnStage(n, stage, empty, o, coin)
      case AwaitFinal => (n.(phase := Finished(Value(o) == n.r)), [])
  }

  /** The node after its first `k` counts. */
  function Drive(start: (Node, seq<Cast>), empty: Hash, outcome: nat -> Outcome, coin: nat -> int, k: nat)
    : (Node, seq<Cast>)
  {
    if k == 0 then start else
      var (n, casts) := Drive(start, empty, outcome, coin, k - 1);
      var (n', more) := OnCount(n, empty, outcome(k - 1), coin(k - 1));
      (n', casts + more)
  }

  // ---------------------------------------------------------------- the source's procedures

  /** reduction: two votes, two counts. */
  method Reduction(proposed: Hash, empty: Hash, outcome: nat -> Outcome)
    returns (hash: Hash, casts: seq<Cast>, dead: bool)
    ensures forall coin :: var (n, all) := Drive(StartRound(proposed), empty, outcome, coin, 2);
      if dead then n.phase == Dead
      else n.phase == AwaitStage(1) && n.hash == hash && all == casts + [Cast(1, hash)]
  {
    hash, dead := [], false;
    casts := [Cast(REDUCTION_ONE, proposed)];
    var o1 := outcome(0);
    if o1.Crash? {
      dead := true;
      forall coin
        ensures Drive(StartRound(proposed), empty, outcome, coin, 2).0.phase == Dead
      {
        assert Drive(StartRound(proposed), empty, outcome, coin, 1).0.phase == Dead;
      }
      return;
    }
    if o1.Timeout? {
      casts := casts + [Cast(REDUCTION_TWO, empty)];
    } else {
      casts := casts + [Cast(REDUCTION_TWO, Value(o1))];
    }
    ghost var h1 := casts;
    forall coin
      ensures Drive(StartRound(proposed), empty, outcome, coin, 1) == (Node(AwaitTwo, 0, proposed, []), h1)
    {
      assert Drive(StartRound(proposed), empty, outcome, coin, 0) == StartRound(proposed);
    }
    var o2 := outcome(1);
    if o2.Crash? {
      dead := true;
    } else if o2.Timeout? {
      hash := empty;
    } else {
      hash := Value(o2);
    }
  }

  /** The votes a deciding node leaves behind for the next three steps. */
  method VoteAhead(step: nat, r: Hash, before: seq<Cast>) returns (casts: seq<Cast>)
    ensures casts == before + Ahead(step, r)
  {
    casts := before;
    for s := step + 1 to step + 4
      invariant casts == before + Ahead(step, r)[..s - step - 1]
    {
      casts := casts + [Cast(s, r)];
    }
  }

  lemma DriveStep(start: (Node, seq<Cast>), empty: Hash, outcome: nat -> Outcome, coin: nat -> int, k: nat,
                  stage: nat, step: nat, r: Hash, hash: Hash, casts: seq<Cast>)
    requires Drive(start, empty, outcome, coin, k) == (Node(AwaitStage(stage), step, r, hash), casts)
    ensures var n := Node(AwaitStage(stage), step, r, hash);
      Drive(start, empty, outcome, coin, k + 1) ==
        if outcome(k).Crash? then (n.(phase := Dead), casts)
        else (OnStage(n, stage, empty, outcome(k), coin(k)).0, casts + OnStage(n, stage, empty, outcome(k), coin(k)).1)
  {
    assert casts + [] == casts;
  }

  /** One pass of the binary loop: three stages, from the count number `from` on. `done` says that
      the pass ended the loop, by a decision or by a crash. */
  method Pass(step: nat, r: Hash, hash: Hash, empty: Hash, outcome: nat -> Outcome, coin: nat -> int, from: nat,
              before: seq<Cast>)
    returns (done: bool, end: Node, casts: seq<Cast>, counted: nat)
    requires Drive(StartBinary(hash), empty, outcome, coin, from)
      == (Node(AwaitStage(1), step, r, hash), before + [Cast(step, r)])
    ensures from < counted <= from + 3
    ensures done ==> end.phase in {AwaitFinal, Dead}
    ensures done ==> Drive(StartBinary(hash), empty, outcome, coin, counted) == (end, casts)
    ensures !done ==> counted == from + 3 && end.step == step + 2
    ensures !done ==>
      Drive(StartBinary(hash), empty, outcome, coin, counted)
         == if end.step < MAXSTEPS
            then (Node(AwaitStage(1), end.step, end.r, hash), casts + [Cast(end.step, end.r)])
            else (Node(Hung, end.step, end.r, hash), casts)
  {
    var step, r := step, r;
    done := true;
    casts := before + [Cast(step, r)];
    DriveStep(StartBinary(hash), empty, outcome, coin, from, 1, step, r, hash, casts);
    var o := outcome(from);
    counted := from + 1;
    if o.Crash? {
      end := Node(Dead, step, r, hash);
      return;
    }
    r := Value(o);
    if o.Timeout? {
      r := hash;
    } else if r != empty {
      ghost var sofar := casts;
      casts := VoteAhead(step, r, casts);
      if step == 1 {
        casts := casts + [Cast(FINAL, r)];
      }
      assert casts == sofar + (Ahead(step, r) + if step == 1 then [Cast(FINAL, r)] else []);
      end := Node(AwaitFinal, step, r, hash);
      return;
    }
    step := step + 1;

    casts := casts + [Cast(step, r)];
    DriveStep(StartBinary(hash), empty, outcome, coin, counted, 2, step, r, hash, casts);
    o := outcome(counted);
    counted := counted + 1;
    if o.Crash? {
      end := Node(Dead, step, r, hash);
      return;
    }
    r := Value(o);
    if o.Timeout? {
      r := empty;
    } else if r == empty {
      casts := VoteAhead(step, r, casts);
      end := Node(AwaitFinal, step, r, hash);
      return;
    }
    step := step + 1;

    casts := casts + [Cast(step, r)];
    DriveStep(StartBinary(hash), empty, outcome, coin, counted, 3, step, r, hash, casts);
    o := outcome(counted);
    counted := counted + 1;
    if o.Crash? {
      end := Node(Dead, step, r, hash);
      return;
    }
    r := Value(o);
    if o.Timeout? {
      if coin(counted - 1) == 0 {
        r := hash;
      } else {
        r := empty;
      }
    }
    assert casts + [] == casts;
    done := false;
    end := Node(AwaitStage(1), step, r, hash);
  }

  /** binaryBA: passes until a decision, a crash, or MAXSTEPS. `counted` is the number of counts made. */
  method BinaryBA(hash: Hash, empty: Hash, outcome: nat -> Outcome, coin: nat -> int)
    returns (end: Node, casts: seq<Cast>, counted: nat)
    ensures (end, casts) == Drive(StartBinary(hash), empty, outcome, coin, counted)
    ensures end.phase in {AwaitFinal, Hung, Dead}
    ensures 1 <= counted <= 18
  {
    end := Node(AwaitStage(1), 1, hash, hash);
    casts := [];
    counted := 0;
    ghost var pass := 0;
    assert casts + [Cast(1, hash)] == StartBinary(hash).1;
    while end.step < MAXSTEPS
      invariant pass <= 6 && counted == 3 * pass && end.step == 2 * pass + 1
      invariant end.step < MAXSTEPS ==>
        Drive(StartBinary(hash), empty, outcome, coin, counted)
        == (Node(AwaitStage(1), end.step, end.r, hash), casts + [Cast(end.step, end.r)])
      invariant end.step >= MAXSTEPS ==>
        && counted > 0
        && Drive(StartBinary(hash), empty, outcome, coin, counted) == (Node(Hung, end.step, end.r, hash), casts)
      decreases MAXSTEPS - end.step
    {
      var done;
      done, end, casts, counted := Pass(end.step, end.r, hash, empty, outcome, coin, counted, casts);
      if done {
        return;
      }
      pass := pass + 1;
    }
    end := Node(Hung, end.step, end.r, hash);
  }

  // ---------------------------------------------------------------- one node's binary loop

  /** In pass p the stages run at the steps 2p+1, 2p+2 and 2p+3: the third shares its step with
      the next pass's first. */
  predicate OnSchedule(n: Node, k: nat) {
    n.phase.AwaitStage? ==>
      && 1 <= n.phase.stage <= 3
      && n.step % 2 == n.phase.stage % 2
      && 2 * k == 3 * (n.step - n.phase.stage) + 2 * (n.phase.stage - 1)
      && n.phase.stage <= n.step <= 13
      && (n.phase.stage == 1 ==> n.step <= 11)
  }

  predicate VotesInRange(casts: seq<Cast>) {
    forall c :: c in casts ==> 1 <= c.step <= 15 || c.step == FINAL
  }

  predicate InBinary(n: Node) {
    !n.phase.AwaitOne? && !n.phase.AwaitTwo?
  }

  lemma ScheduleStep(n: Node, empty: Hash, o: Outcome, coin: int, k: nat)
    requires OnSchedule(n, k) && InBinary(n)
    ensures var (n', more) := OnCount(n, empty, o, coin);
      OnSchedule(n', k + 1) && InBinary(n') && VotesInRange(more)
  {
    if n.phase.AwaitStage? && !o.Crash? {
      StageStep(n, n.phase.stage, empty, o, coin, k);
    }
  }

  lemma StageVotes(n: Node, stage: nat, empty: Hash, o: Outcome, coin: int, k: nat)
    requires n.phase == AwaitStage(stage) && OnSchedule(n, k) && !o.Crash?
    ensures VotesInRange(OnStage(n, stage, empty, o, coin).1)
  {
  }

  lemma StageSchedule(n: Node, stage: nat, empty: Hash, o: Outcome, coin: int, k: nat)
    requires n.phase == AwaitStage(stage) && OnSchedule(n, k) && !o.Crash?
    ensures var n' := OnStage(n, stage, empty, o, coin).0; OnSchedule(n', k + 1) && InBinary(n')
  {
  }

  lemma StageStep(n: Node, stage: nat, empty: Hash, o: Outcome, coin: int, k: nat)
    requires n.phase == AwaitStage(stage) && OnSchedule(n, k) && !o.Crash?
    ensures var (n', more) := OnStage(n, stage, empty, o, coin);
      OnSchedule(n', k + 1) && InBinary(n') && VotesInRange(more)
  {
    StageVotes(n, stage, empty, o, coin, k);
    StageSchedule(n, stage, empty, o, coin, k);
  }

  lemma NoLateFinalVote(n: Node, empty: Hash, o: Outcome, coin: int, k: nat)
    requires OnSchedule(n, k) && k > 0 && InBinary(n)
    ensures forall c :: c in OnCount(n, empty, o, coin).1 ==> c.step != FINAL
  {
  }

  predicate FirstCountDecides(empty: Hash, o: Outcome) {
    !o.Timeout? && !o.Crash? && Value(o) != empty
  }

  predicate VotesFinal(casts: seq<Cast>) {
    exists c :: c in casts && c.step == FINAL
  }

  lemma FinalVotedAtOnce(hash: Hash, empty: Hash, o: Outcome, coin: int)
    ensures VotesFinal(StartBinary(hash).1 + OnCount(StartBinary(hash).0, empty, o, coin).1)
      <==> FirstCountDecides(empty, o)
  {
    var more := OnCount(StartBinary(hash).0, empty, o, coin).1;
    if FirstCountDecides(empty, o) {
      assert more[3] == Cast(FINAL, Value(o));
      assert more[3] in StartBinary(hash).1 + more;
    }
  }

  /** The loop keeps its schedule, makes at most 18 counts, and votes only at the steps 1 to 15
      and FINAL; FINAL exactly when the very first count already decides. */
  lemma {:induction false} BinarySchedule(hash: Hash, empty: Hash, outcome: nat -> Outcome, coin: nat -> int, k: nat)
    ensures var (n, casts) := Drive(StartBinary(hash), empty, outcome, coin, k);
      && OnSchedule(n, k)
      && InBinary(n)
      && VotesInRange(casts)
      && (n.phase.AwaitStage? ==> k < 18)
      && (k > 0 ==> (VotesFinal(casts) <==> FirstCountDecides(empty, outcome(0))))
  {
    if k > 0 {
      BinarySchedule(hash, empty, outcome, coin, k - 1);
      var (n, casts) := Drive(StartBinary(hash), empty, outcome, coin, k - 1);
      ScheduleStep(n, empty, outcome(k - 1), coin(k - 1), k - 1);
      if k == 1 {
        FinalVotedAtOnce(hash, empty, outcome(0), coin(0));
      } else {
        NoLateFinalVote(n, empty, outcome(k - 1), coin(k - 1), k - 1);
        FinalVotesAppend(casts, OnCount(n, empty, outcome(k - 1), coin(k - 1)).1);
      }
    }
  }

  lemma FinalVotesAppend(casts: seq<Cast>, more: seq<Cast>)
    requires forall c :: c in more ==> c.step != FINAL
    ensures VotesFinal(casts + more) <==> VotesFinal(casts)
  {
    if VotesFinal(casts) {
      var c :| c in casts && c.step == FINAL;
      assert c in casts + more;
    }
  }

  lemma DecidingCount(n: Node, empty: Hash, o: Outcome, coin: int, k: nat)
    requires OnSchedule(n, k) && InBinary(n)
    requires OnCount(n, empty, o, coin).0.phase.AwaitFinal?
    ensures n.phase.AwaitStage?
    ensures var n' := OnCount(n, empty, o, coin).0;
      !o.Timeout? && !o.Crash? && n'.r == Value(o) && (n'.step % 2 == 1 <==> n'.r != empty)
  {
  }

  /** Why a node decides: at an odd step because a count gave a value other than the empty hash,
      at an even step because it gave the empty hash. */
  lemma DecisionReason(hash: Hash, empty: Hash, outcome: nat -> Outcome, coin: nat -> int, k: nat)
    requires Drive(StartBinary(hash), empty, outcome, coin, k).0.phase.AwaitFinal?
    ensures 0 < k <= 18
    ensures var n, o := Drive(StartBinary(hash), empty, outcome, coin, k).0, outcome(k - 1);
      && !o.Timeout? && !o.Crash? && n.r == Value(o)
      && (n.step % 2 == 1 <==> n.r != empty)
      && (!o.NoQuorum? ==> o == Quorum(n.r))
  {
    if k > 0 {
      BinarySchedule(hash, empty, outcome, coin, k - 1);
      DecidingCount(Drive(StartBinary(hash), empty, outcome, coin, k - 1).0, empty, outcome(k - 1), coin(k - 1), k - 1);
    }
  }

  /** The count number i decides nothing: it did not crash, a first stage saw a timeout or the empty
      hash, a second stage a timeout or another value. */
  predicate Undeciding(empty: Hash, o: Outcome, i: nat) {
    && !o.Crash?
    && (i % 3 == 0 ==> o.Timeout? || Value(o) == empty)
    && (i % 3 == 1 ==> o.Timeout? || Value(o) != empty)
  }

  predicate NoneDecides(empty: Hash, outcome: nat -> Outcome, k: nat) {
    forall i :: 0 <= i < k ==> Undeciding(empty, outcome(i), i)
  }

  lemma StageOf(n: Node, k: nat)
    requires OnSchedule(n, k) && n.phase.AwaitStage?
    ensures n.phase.stage == k % 3 + 1 && k < 18 && (n.phase.stage == 3 ==> (n.step < MAXSTEPS <==> k < 17))
  {
    assert k == 3 * ((n.step - n.phase.stage) / 2) + (n.phase.stage - 1);
  }

  lemma GoesOnIff(n: Node, empty: Hash, o: Outcome, coin: int, k: nat)
    requires OnSchedule(n, k) && n.phase.AwaitStage?
    ensures var next := OnCount(n, empty, o, coin).0.phase;
      && (next.AwaitStage? || next.Hung? <==> Undeciding(empty, o, k))
      && (next.Hung? ==> k == 17) && (next.AwaitStage? ==> k < 17)
  {
    StageOf(n, k);
  }

  lemma OnScheduleAt(hash: Hash, empty: Hash, outcome: nat -> Outcome, coin: nat -> int, k: nat)
    ensures OnSchedule(Drive(StartBinary(hash), empty, outcome, coin, k).0, k)
    ensures InBinary(Drive(StartBinary(hash), empty, outcome, coin, k).0)
  {
    BinarySchedule(hash, empty, outcome, coin, k);
  }

  lemma OneMoreUndecided(empty: Hash, outcome: nat -> Outcome, k: nat)
    ensures NoneDecides(empty, outcome, k + 1) <==> NoneDecides(empty, outcome, k) && Undeciding(empty, outcome(k), k)
  {
  }

  /** The next count keeps a running node running, or hanging after the last, exactly if it decides
      nothing. */
  lemma NextRuns(n: Node, empty: Hash, o: Outcome, coin: int, k: nat)
    requires OnSchedule(n, k) && InBinary(n) && k < 18 && !n.phase.Hung?
    ensures var next := OnCount(n, empty, o, coin).0.phase;
      && (next.AwaitStage? || next.Hung? <==> n.phase.AwaitStage? && Undeciding(empty, o, k))
      && (next.Hung? ==> k == 17) && (next.AwaitStage? ==> k < 17)
  {
    if n.phase.AwaitStage? {
      GoesOnIff(n, empty, o, coin, k);
    } else {
      StaysOut(n, empty, o, coin);
    }
  }

  /** The loop is still running after k counts, or hangs after all 18, if and only if none of them
      decided or crashed. */
  lemma {:induction false} HangsIff(hash: Hash, empty: Hash, outcome: nat -> Outcome, coin: nat -> int, k: nat)
    requires k <= 18
    ensures var phase := Drive(StartBinary(hash), empty, outcome, coin, k).0.phase;
      && (phase.AwaitStage? || phase.Hung? <==> NoneDecides(empty, outcome, k))
      && (phase.AwaitStage? ==> k < 18) && (phase.Hung? ==> k == 18)
  {
    if k > 0 {
      var i := k - 1;
      HangsIff(hash, empty, outcome, coin, i);
      OnScheduleAt(hash, empty, outcome, coin, i);
      NextRuns(Drive(StartBinary(hash), empty, outcome, coin, i).0, empty, outcome(i), coin(i), i);
      OneMoreUndecided(empty, outcome, i);
    }
  }

  /** The value that ends a first stage as a decision although it is no block; where the empty hash is
      nil itself, a second stage. */
  predicate GivesNil(empty: Hash, o: Outcome, i: nat) {
    !o.Timeout? && !o.Crash? && Value(o) == [] && i % 3 == if empty == [] then 1 else 0
  }

  lemma NilStage(n: Node, empty: Hash, o: Outcome, coin: int, k: nat)
    requires OnSchedule(n, k) && n.phase.AwaitStage?
    ensures var next := OnCount(n, empty, o, coin).0;
      next.phase.AwaitFinal? && next.r == [] <==> GivesNil(empty, o, k)
  {
    StageOf(n, k);
  }

  /** Only a timeout is told apart, so a count without quorum is taken for a decision on the nil hash:
      the loop decides nil on count k if and only if no count before decided and this one, a first
      stage, was no timeout and gave no hash. */
  lemma NoQuorumDecidesNil(hash: Hash, empty: Hash, outcome: nat -> Outcome, coin: nat -> int, k: nat)
    requires k < 18
    ensures var n, next := Drive(StartBinary(hash), empty, outcome, coin, k).0,
                           Drive(StartBinary(hash), empty, outcome, coin, k + 1).0;
      n.phase.AwaitStage? && next.phase.AwaitFinal? && next.r == []
      <==> NoneDecides(empty, outcome, k) && GivesNil(empty, outcome(k), k)
  {
    HangsIff(hash, empty, outcome, coin, k);
    OnScheduleAt(hash, empty, outcome, coin, k);
    var n := Drive(StartBinary(hash), empty, outcome, coin, k).0;
    if n.phase.AwaitStage? {
      NilStage(n, empty, outcome(k), coin(k), k);
    }
  }

  lemma StaysOut(n: Node, empty: Hash, o: Outcome, coin: int)
    requires InBinary(n) && !n.phase.AwaitStage? && !n.phase.Hung?
    ensures var next := OnCount(n, empty, o, coin).0.phase;
      !next.AwaitStage? && !next.Hung?
  {
  }

  // ---------------------------------------------------------------- what is voted

  /** What a count that decides nothing makes a node vote next: the count's own value, nil for a count
      without quorum; after a timeout the hash of reduction, the empty hash, or what the coin says. */
  function NextVote(hash: Hash, empty: Hash, o: Outcome, coin: int, k: nat): Hash {
    match o
    case Quorum(g) => g
    case NoQuorum => []
    case Crash => []
    case Timeout =>
      if k % 3 == 0 then hash
      else if k % 3 == 1 then empty
      else if coin == 0 then hash
      else empty
  }

  lemma {:induction false} HashStays(hash: Hash, empty: Hash, outcome: nat -> Outcome, coin: nat -> int, k: nat)
    ensures Drive(StartBinary(hash), empty, outcome, coin, k).0.hash == hash
  {
    if k > 0 {
      HashStays(hash, empty, outcome, coin, k - 1);
      OnScheduleAt(hash, empty, outcome, coin, k - 1);
    }
  }

  /** The step of count k. */
  function StepNo(k: nat): nat {
    2 * (k / 3) + k % 3 + 1
  }

  lemma StepOfCount(n: Node, k: nat)
    requires OnSchedule(n, k) && n.phase.AwaitStage?
    ensures n.step == StepNo(k) && n.phase.stage == k % 3 + 1
  {
    StageOf(n, k);
  }

  /** Where a node that goes on stands, and what its last vote was. */
  lemma GoesOnWith(n: Node, empty: Hash, o: Outcome, coin: int, k: nat)
    requires OnSchedule(n, k) && n.phase.AwaitStage? && k < 17 && Undeciding(empty, o, k)
    ensures OnCount(n, empty, o, coin).1 ==
      [Cast(if k % 3 == 2 then StepNo(k) else StepNo(k) + 1, NextVote(n.hash, empty, o, coin, k))]
  {
    StageOf(n, k);
    StepOfCount(n, k);
  }

  /** The binary loop's votes, for every sequence of counts: the first is for the hash of reduction, and
      each count that decides nothing is followed by one vote, for the next step or, after a third stage,
      for the same step again. */
  lemma VoteLaw(hash: Hash, empty: Hash, outcome: nat -> Outcome, coin: nat -> int, k: nat)
    requires k < 17 && NoneDecides(empty, outcome, k + 1)
    ensures Drive(StartBinary(hash), empty, outcome, coin, 0).1 == [Cast(1, hash)]
    ensures var before, after := Drive(StartBinary(hash), empty, outcome, coin, k).1,
                                 Drive(StartBinary(hash), empty, outcome, coin, k + 1).1;
      after == before +
        [Cast(if k % 3 == 2 then StepNo(k) else StepNo(k) + 1, NextVote(hash, empty, outcome(k), coin(k), k))]
  {
    HangsIff(hash, empty, outcome, coin, k);
    OnScheduleAt(hash, empty, outcome, coin, k);
    HashStays(hash, empty, outcome, coin, k);
    GoesOnWith(Drive(StartBinary(hash), empty, outcome, coin, k).0, empty, outcome(k), coin(k), k);
  }

  lemma DecidesWith(n: Node, empty: Hash, o: Outcome, coin: int, k: nat)
    requires OnSchedule(n, k) && n.phase.AwaitStage? && !o.Crash? && !Undeciding(empty, o, k)
    ensures var (next, casts) := OnCount(n, empty, o, coin);
      var g, s := if o.Quorum? then o.hash else [], StepNo(k);
      && next == n.(phase := AwaitFinal, r := g)
      && casts == [Cast(s + 1, g), Cast(s + 2, g), Cast(s + 3, g)] + if k == 0 then [Cast(FINAL, g)] else []
  {
    StageOf(n, k);
    StepOfCount(n, k);
  }

  /** The count that decides: three votes ahead for its value, and on the very first count a final one. */
  lemma DecisionLaw(hash: Hash, empty: Hash, outcome: nat -> Outcome, coin: nat -> int, k: nat)
    requires k < 18 && NoneDecides(empty, outcome, k) && !outcome(k).Crash? && !Undeciding(empty, outcome(k), k)
    ensures var before, (n, after) := Drive(StartBinary(hash), empty, outcome, coin, k).1,
                                      Drive(StartBinary(hash), empty, outcome, coin, k + 1);
      var g, s := if outcome(k).Quorum? then outcome(k).hash else [], StepNo(k);
      && n.phase.AwaitFinal? && n.r == g && n.step == s
      && after ==
        before + ([Cast(s + 1, g), Cast(s + 2, g), Cast(s + 3, g)] + if k == 0 then [Cast(FINAL, g)] else [])
  {
    HangsIff(hash, empty, outcome, coin, k);
    OnScheduleAt(hash, empty, outcome, coin, k);
    var n := Drive(StartBinary(hash), empty, outcome, coin, k).0;
    StepOfCount(n, k);
    DecidesWith(n, empty, outcome(k), coin(k), k);
  }

  /** Reduction's votes: a timeout turns a node to the empty hash, any other count to what it gave. */
  lemma ReductionLaw(proposed: Hash, empty: Hash, outcome: nat -> Outcome, coin: nat -> int)
    requires !outcome(0).Crash? && !outcome(1).Crash?
    ensures var given := (o: Outcome) => match o
        case Timeout => empty
        case Quorum(g) => g
        case _ => [];
      var (n, casts) := Drive(StartRound(proposed), empty, outcome, coin, 2);
      && n == Node(AwaitStage(1), 1, given(outcome(1)), given(outcome(1)))
      && casts == [Cast(REDUCTION_ONE, proposed), Cast(REDUCTION_TWO, given(outcome(0))), Cast(1, given(outcome(1)))]
  {
    assert Drive(StartRound(proposed), empty, outcome, coin, 0) == StartRound(proposed);
    assert Drive(StartRound(proposed), empty, outcome, coin, 1).0.phase == AwaitTwo;
  }

  /** A node reports final consensus exactly if the final count gives the hash it decided; a timeout and a
      count without quorum give nil. */
  lemma FinalLaw(n: Node, empty: Hash, o: Outcome, coin: int)
    requires n.phase.AwaitFinal? && !o.Crash?
    ensures var (next, casts) := OnCount(n, empty, o, coin);
      && casts == [] && next.r == n.r
      && (next.phase == Finished(true) <==> if o.Quorum? then o.hash == n.r else n.r == [])
      && (next.phase == Finished(true) || next.phase == Finished(false))
  {
  }
}
