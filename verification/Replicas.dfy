/** Two replicas of one transaction pool (txpool/txpool_table.go): the keeper packs, the follower gets
    the packed blocks later. Every transaction reaches both, in its own order and at its own time. */
module Replicas {
  import opened TxQueue
  import opened Pool

  // ---------------------------------------------------------------- what arrival order decides

  /** The transactions of one timestamp, in order. */
  function Stamped(s: seq<Tx>, t: int): (r: seq<Tx>)
    ensures forall i :: 0 <= i < |r| ==> r[i].timeStamp == t
  {
    if s == [] then []
    else if s[|s| - 1].timeStamp == t then Stamped(s[..|s| - 1], t) + [s[|s| - 1]]
    else Stamped(s[..|s| - 1], t)
  }

  ghost predicate SameOrder(a: seq<Tx>, b: seq<Tx>) {
    forall t :: Stamped(a, t) == Stamped(b, t)
  }

  lemma StampedSnoc(s: seq<Tx>, tx: Tx, t: int)
    ensures Stamped(s + [tx], t) == Stamped(s, t) + if tx.timeStamp == t then [tx] else []
  {
    assert (s + [tx])[..|s|] == s;
  }

  /** Insertion is stable: a transaction goes behind those of its timestamp. */
  lemma {:induction false} InsertStable(s: seq<Tx>, tx: Tx, t: int)
    ensures Stamped(Insert(s, tx), t) == Stamped(s + [tx], t)
  {
    StampedSnoc(s, tx, t);
    if s != [] && s[|s| - 1].timeStamp > tx.timeStamp {
      var front, last := s[..|s| - 1], s[|s| - 1];
      InsertStable(front, tx, t);
      StampedSnoc(front, tx, t);
      StampedSnoc(Insert(front, tx), last, t);
    }
  }

  lemma {:induction false} StampedCount(s: seq<Tx>, tx: Tx)
    ensures multiset(s)[tx] == multiset(Stamped(s, tx.timeStamp))[tx]
  {
    if s != [] {
      StampedCount(s[..|s| - 1], tx);
      assert s == s[..|s| - 1] + [s[|s| - 1]];
    }
  }

  lemma SameOrderSameElements(a: seq<Tx>, b: seq<Tx>)
    requires SameOrder(a, b)
    ensures multiset(a) == multiset(b)
  {
    forall tx
      ensures multiset(a)[tx] == multiset(b)[tx]
    {
      StampedCount(a, tx);
      StampedCount(b, tx);
    }
  }

  lemma LastIsYoungest(s: seq<Tx>, tx: Tx)
    requires Sorted(s) && tx in s
    ensures tx.timeStamp <= s[|s| - 1].timeStamp
  {
  }

  lemma {:induction false} StampedElements(s: seq<Tx>, t: int)
    ensures forall tx :: tx in Stamped(s, t) <==> tx in s && tx.timeStamp == t
  {
    if s != [] {
      StampedElements(s[..|s| - 1], t);
      assert s == s[..|s| - 1] + [s[|s| - 1]];
    }
  }

  lemma SameLast(a: seq<Tx>, b: seq<Tx>)
    requires Sorted(a) && Sorted(b) && SameOrder(a, b) && a != []
    ensures b != [] && a[|a| - 1] == b[|b| - 1]
  {
    SameOrderSameElements(a, b);
    var x := a[|a| - 1];
    assert x in multiset(b);
    var y := b[|b| - 1];
    assert y in multiset(a);
    LastIsYoungest(b, x);
    LastIsYoungest(a, y);
    var t := x.timeStamp;
    assert y.timeStamp == t && Stamped(a, t) == Stamped(b, t);
    assert Stamped(a, t)[|Stamped(a, t)| - 1] == x;
    assert Stamped(b, t)[|Stamped(b, t)| - 1] == y;
  }

  /** A sorted queue is determined by the order within its timestamps. */
  lemma {:induction false} SortedDetermined(a: seq<Tx>, b: seq<Tx>)
    requires Sorted(a) && Sorted(b) && SameOrder(a, b)
    ensures a == b
  {
    if a != [] {
      SameLast(a, b);
      var x, frontA, frontB := a[|a| - 1], a[..|a| - 1], b[..|b| - 1];
      forall t
        ensures Stamped(frontA, t) == Stamped(frontB, t)
      {
        ShortenStamped(a, t);
        ShortenStamped(b, t);
        assert Stamped(a, t) == Stamped(b, t);
      }
      SortedDetermined(frontA, frontB);
      assert a == frontA + [x] && b == frontB + [x];
    } else {
      SameOrderSameElements(a, b);
      assert |multiset(a)| == |multiset(b)| == |b|;
    }
  }

  lemma ShortenStamped(s: seq<Tx>, t: int)
    requires s != []
    ensures Stamped(s[..|s| - 1], t) ==
      if s[|s| - 1].timeStamp == t then Stamped(s, t)[..|Stamped(s, t)| - 1] else Stamped(s, t)
  {
  }

  ghost predicate DistinctStamps(s: seq<Tx>) {
    forall i, j :: 0 <= i < j < |s| ==> s[i].timeStamp != s[j].timeStamp
  }

  /** With distinct timestamps arrival order does not matter. */
  lemma DistinctStampsSameOrder(a: seq<Tx>, b: seq<Tx>)
    requires multiset(a) == multiset(b)
    requires DistinctStamps(a)
    ensures SameOrder(a, b)
  {
    forall t
      ensures Stamped(a, t) == Stamped(b, t)
    {
      AtMostOne(a, t);
      StampedSize(a, b, t);
      if Stamped(a, t) != [] {
        var x := Stamped(a, t)[0];
        assert multiset(Stamped(b, t))[x] == multiset(Stamped(a, t))[x] > 0;
        assert x in Stamped(b, t);
      }
    }
  }

  lemma {:induction false} AtMostOne(a: seq<Tx>, t: int)
    requires DistinctStamps(a)
    ensures |Stamped(a, t)| <= 1
  {
    if a != [] {
      AtMostOne(a[..|a| - 1], t);
      StampedElements(a[..|a| - 1], t);
      if Stamped(a[..|a| - 1], t) != [] {
        assert Stamped(a[..|a| - 1], t)[0] in a[..|a| - 1];
      }
    }
  }

  lemma StampedSize(a: seq<Tx>, b: seq<Tx>, t: int)
    requires multiset(a) == multiset(b)
    ensures |Stamped(a, t)| == |Stamped(b, t)| && multiset(Stamped(a, t)) == multiset(Stamped(b, t))
  {
    forall tx
      ensures multiset(Stamped(a, t))[tx] == multiset(Stamped(b, t))[tx]
    {
      if tx.timeStamp == t {
        StampedCount(a, tx);
        StampedCount(b, tx);
      } else {
        assert tx !in Stamped(a, t) && tx !in Stamped(b, t);
      }
    }
    assert multiset(Stamped(a, t)) == multiset(Stamped(b, t));
    assert |multiset(Stamped(a, t))| == |Stamped(a, t)| && |multiset(Stamped(b, t))| == |Stamped(b, t)|;
  }

  // ---------------------------------------------------------------- taking transactions out

  /** The transactions whose ids are not among `ids`, in order. */
  function Without(s: seq<Tx>, ids: set<nat>): seq<Tx> {
    if s == [] then []
    else if s[|s| - 1].txID in ids then Without(s[..|s| - 1], ids)
    else Without(s[..|s| - 1], ids) + [s[|s| - 1]]
  }

  lemma WithoutSnoc(s: seq<Tx>, tx: Tx, ids: set<nat>)
    ensures Without(s + [tx], ids) == Without(s, ids) + if tx.txID in ids then [] else [tx]
  {
    assert (s + [tx])[..|s|] == s;
  }

  lemma {:induction false} WithoutElements(s: seq<Tx>, ids: set<nat>)
    ensures forall tx :: tx in Without(s, ids) <==> tx in s && tx.txID !in ids
    ensures Ids(Without(s, ids)) == Ids(s) - ids
  {
    if s != [] {
      WithoutElements(s[..|s| - 1], ids);
      assert s == s[..|s| - 1] + [s[|s| - 1]];
    }
  }

  lemma {:induction false} WithoutTwice(s: seq<Tx>, ids: set<nat>, more: set<nat>)
    ensures Without(Without(s, ids), more) == Without(s, ids + more)
  {
    if s != [] {
      var front, last := s[..|s| - 1], s[|s| - 1];
      WithoutTwice(front, ids, more);
      WithoutSnoc(Without(front, ids), last, more);
    }
  }

  lemma {:induction false} WithoutStamped(s: seq<Tx>, ids: set<nat>, t: int)
    ensures Stamped(Without(s, ids), t) == Without(Stamped(s, t), ids)
  {
    if s != [] {
      var front, last := s[..|s| - 1], s[|s| - 1];
      WithoutStamped(front, ids, t);
      StampedSnoc(Without(front, ids), last, t);
      WithoutSnoc(Stamped(front, t), last, ids);
    }
  }

  lemma WithoutKeepsOrder(a: seq<Tx>, b: seq<Tx>, ids: set<nat>)
    requires SameOrder(a, b)
    ensures SameOrder(Without(a, ids), Without(b, ids))
  {
    forall t
      ensures Stamped(Without(a, ids), t) == Stamped(Without(b, ids), t)
    {
      WithoutStamped(a, ids, t);
      WithoutStamped(b, ids, t);
      assert Stamped(a, t) == Stamped(b, t);
    }
  }

  lemma {:induction false} WithoutKeepsDistinct(s: seq<Tx>, ids: set<nat>)
    requires DistinctIds(s)
    ensures DistinctIds(Without(s, ids))
  {
    if s != [] {
      WithoutKeepsDistinct(s[..|s| - 1], ids);
      WithoutElements(s[..|s| - 1], ids);
      assert s[|s| - 1].txID !in Ids(s[..|s| - 1]);
    }
  }

  lemma {:induction false} WithoutKeepsSorted(s: seq<Tx>, ids: set<nat>)
    requires Sorted(s)
    ensures Sorted(Without(s, ids))
  {
    if s != [] {
      WithoutKeepsSorted(s[..|s| - 1], ids);
      WithoutElements(s[..|s| - 1], ids);
    }
  }

  lemma {:induction false} RemoveIsWithout(s: seq<Tx>, id: nat)
    ensures Remove(s, id) == Without(s, {id})
  {
    if s != [] {
      RemoveIsWithout(s[..|s| - 1], id);
    }
  }

  lemma IdsSnoc(s: seq<Tx>, tx: Tx)
    ensures Ids(s + [tx]) == Ids(s) + {tx.txID}
  {
    forall x | x in s + [tx]
      ensures x in s || x == tx
    {
    }
    assert forall x :: x in s ==> x in s + [tx];
    assert tx in s + [tx];
  }

  lemma {:induction false} WithoutNothing(s: seq<Tx>)
    ensures Without(s, {}) == s
  {
    if s != [] {
      WithoutNothing(s[..|s| - 1]);
    }
  }

  /** An ordinary node's run takes out exactly the block's transactions. */
  lemma {:induction false} RemoveAllIsWithout(s: seq<Tx>, txs: seq<Tx>)
    ensures RemoveAll(s, txs) == Without(s, Ids(txs))
  {
    if txs == [] {
      assert Ids(txs) == {};
      WithoutNothing(s);
    } else {
      var front, last := txs[..|txs| - 1], txs[|txs| - 1];
      RemoveAllIsWithout(s, front);
      RemoveIsWithout(Without(s, Ids(front)), last.txID);
      WithoutTwice(s, Ids(front), {last.txID});
      IdsSnoc(front, last);
      assert txs == front + [last];
    }
  }

  /** Taking out the ids of the front leaves the rest. */
  lemma {:induction false} RestIsWithout(s: seq<Tx>, m: nat)
    requires DistinctIds(s) && m <= |s|
    ensures s[m..] == Without(s, Ids(s[..m]))
  {
    if m < |s| {
      var front, last := s[..|s| - 1], s[|s| - 1];
      RestIsWithout(front, m);
      assert front[..m] == s[..m];
      assert s[m..] == front[m..] + [last];
      assert last.txID !in Ids(s[..m]);
    } else {
      assert s[..m] == s;
      WithoutAll(s, Ids(s));
    }
  }

  lemma {:induction false} WithoutAll(s: seq<Tx>, ids: set<nat>)
    requires forall i :: 0 <= i < |s| ==> s[i].txID in ids
    ensures Without(s, ids) == []
  {
    if s != [] {
      WithoutAll(s[..|s| - 1], ids);
    }
  }

  /** When an ordinary node's run over a block goes through: exactly if the block's transactions are
      different ones and all of them wait. */
  lemma PresentIff(s: seq<Tx>, txs: seq<Tx>)
    ensures Present(s, txs) <==> DistinctIds(txs) && Ids(txs) <= Ids(s)
  {
    forall i | 0 <= i < |txs|
      ensures WaitsAt(s, txs, i) <==> txs[i].txID in Ids(s) && txs[i].txID !in Ids(txs[..i])
    {
      RemoveAllIsWithout(s, txs[..i]);
      WithoutElements(s, Ids(txs[..i]));
    }
    if Present(s, txs) {
      forall i, j | 0 <= i < j < |txs|
        ensures txs[i].txID != txs[j].txID
      {
        assert WaitsAt(s, txs, j);
        assert txs[..j][i] == txs[i];
      }
      assert forall i :: 0 <= i < |txs| ==> WaitsAt(s, txs, i);
    }
    if DistinctIds(txs) && Ids(txs) <= Ids(s) {
      forall i | 0 <= i < |txs|
        ensures WaitsAt(s, txs, i)
      {
        assert forall j :: 0 <= j < i ==> txs[..i][j] == txs[j];
      }
    }
  }

  // ---------------------------------------------------------------- keeper and follower

  /** `keptIn` and `followIn` are the transactions each side has accepted, in order of arrival. The
      keeper has packed those of `seen` and `pending`, the follower has seen the blocks of the first. */
  datatype World = World(
    keeper: seq<Tx>, follower: seq<Tx>, keptIn: seq<Tx>, followIn: seq<Tx>, seen: seq<Tx>, pending: seq<Tx>)

  datatype Event =
    | KeeperGets(tx: Tx)
    | FollowerGets(tx: Tx)
    | KeeperPacks(cutoff: int)
    | FollowerDrops(count: nat)

  const EMPTY := World([], [], [], [], [], [])

  /** Ids are fresh on arrival, and a block reaches the follower after the keeper made it and once all
      its transactions wait there: the follower crashes on a block with any other. */
  ghost predicate CanStep(w: World, e: Event) {
    match e
    case KeeperGets(tx) => tx.txID !in Ids(w.keptIn)
    case FollowerGets(tx) => tx.txID !in Ids(w.followIn)
    case KeeperPacks(_) => true
    case FollowerDrops(count) => count <= |w.pending| && Present(w.follower, w.pending[..count])
  }

  function Step(w: World, e: Event, maxSize: nat, n: nat): World
    requires n >= 1
  {
    match e
    case KeeperGets(tx) =>
      if |w.keeper| == maxSize then w else w.(keeper := Insert(w.keeper, tx), keptIn := w.keptIn + [tx])
    case FollowerGets(tx) =>
      if |w.follower| == maxSize then w else w.(follower := Insert(w.follower, tx), followIn := w.followIn + [tx])
    case KeeperPacks(cutoff) =>
      var m := Batched(Mature(w.keeper, cutoff), n);
      w.(keeper := w.keeper[m..], pending := w.pending + w.keeper[..m])
    case FollowerDrops(count) =>
      if count > |w.pending| then w else
        var txs := w.pending[..count];
        w.(follower := RemoveAll(w.follower, txs), seen := w.seen + txs, pending := w.pending[count..])
  }

  ghost predicate IsRun(w: World, events: seq<Event>, maxSize: nat, n: nat)
    requires n >= 1
    decreases events
  {
    events == [] || (CanStep(w, events[0]) && IsRun(Step(w, events[0], maxSize, n), events[1..], maxSize, n))
  }

  function Run(w: World, events: seq<Event>, maxSize: nat, n: nat): World
    requires n >= 1
    decreases events
  {
    if events == [] then w else Run(Step(w, events[0], maxSize, n), events[1..], maxSize, n)
  }

  /** `queue` holds, sorted, the accepted transactions but those of `gone`. */
  ghost predicate Holds(queue: seq<Tx>, accepted: seq<Tx>, gone: seq<Tx>) {
    && Sorted(queue) && DistinctIds(accepted) && DistinctIds(gone) && Ids(gone) <= Ids(accepted)
    && SameOrder(queue, Without(accepted, Ids(gone)))
  }

  ghost predicate Inv(w: World) {
    && Holds(w.keeper, w.keptIn, w.seen + w.pending)
    && Holds(w.follower, w.followIn, w.seen)
  }

  lemma HeldIds(queue: seq<Tx>, accepted: seq<Tx>, gone: seq<Tx>)
    requires Holds(queue, accepted, gone)
    ensures Ids(queue) == Ids(accepted) - Ids(gone) && DistinctIds(queue)
    ensures multiset(queue) == multiset(Without(accepted, Ids(gone)))
  {
    var rest := Without(accepted, Ids(gone));
    SameOrderSameElements(queue, rest);
    WithoutElements(accepted, Ids(gone));
    WithoutKeepsDistinct(accepted, Ids(gone));
    SameElementsSameIds(queue, rest);
  }

  lemma SameElementsSameIds(a: seq<Tx>, b: seq<Tx>)
    requires multiset(a) == multiset(b) && DistinctIds(b)
    ensures Ids(a) == Ids(b) && DistinctIds(a)
  {
    assert forall tx :: tx in a <==> tx in multiset(a);
    assert forall tx :: tx in b <==> tx in multiset(b);
    forall i, j | 0 <= i < j < |a|
      ensures a[i].txID != a[j].txID
    {
      if a[i].txID == a[j].txID {
        assert a[i] in b && a[j] in b;
        TwiceIn(a, i, j);
        AtMostOnce(b, a[i]);
      }
    }
  }

  lemma TwiceIn(a: seq<Tx>, i: nat, j: nat)
    requires i < j < |a|
    ensures a[i] == a[j] ==> multiset(a)[a[i]] >= 2
  {
    assert a == a[..i] + [a[i]] + a[i + 1..j] + [a[j]] + a[j + 1..];
  }

  lemma {:induction false} AtMostOnce(b: seq<Tx>, tx: Tx)
    requires DistinctIds(b)
    ensures multiset(b)[tx] <= 1
  {
    if b != [] {
      AtMostOnce(b[..|b| - 1], tx);
      assert b == b[..|b| - 1] + [b[|b| - 1]];
      assert b[|b| - 1] !in b[..|b| - 1];
    }
  }

  lemma GetsHolds(queue: seq<Tx>, accepted: seq<Tx>, gone: seq<Tx>, tx: Tx)
    requires Holds(queue, accepted, gone) && tx.txID !in Ids(accepted)
    ensures Holds(Insert(queue, tx), accepted + [tx], gone)
  {
    InsertKeepsSorted(queue, tx);
    IdsSnoc(accepted, tx);
    WithoutSnoc(accepted, tx, Ids(gone));
    forall t
      ensures Stamped(Insert(queue, tx), t) == Stamped(Without(accepted + [tx], Ids(gone)), t)
    {
      InsertStable(queue, tx, t);
      StampedSnoc(queue, tx, t);
      StampedSnoc(Without(accepted, Ids(gone)), tx, t);
      assert Stamped(queue, t) == Stamped(Without(accepted, Ids(gone)), t);
    }
  }

  lemma IdsJoined(a: seq<Tx>, b: seq<Tx>)
    ensures Ids(a + b) == Ids(a) + Ids(b)
  {
    assert forall tx :: tx in a + b <==> tx in a || tx in b;
  }

  lemma GoesHolds(queue: seq<Tx>, accepted: seq<Tx>, gone: seq<Tx>, txs: seq<Tx>)
    requires Holds(queue, accepted, gone) && DistinctIds(txs) && Ids(txs) <= Ids(queue)
    ensures Holds(Without(queue, Ids(txs)), accepted, gone + txs)
  {
    HeldIds(queue, accepted, gone);
    WithoutKeepsSorted(queue, Ids(txs));
    WithoutKeepsOrder(queue, Without(accepted, Ids(gone)), Ids(txs));
    WithoutTwice(accepted, Ids(gone), Ids(txs));
    IdsJoined(gone, txs);
  }

  lemma FrontIds(s: seq<Tx>, m: nat)
    requires DistinctIds(s) && m <= |s|
    ensures DistinctIds(s[..m]) && Ids(s[..m]) <= Ids(s)
  {
  }

  lemma JoinLast(a: seq<Tx>, b: seq<Tx>, c: seq<Tx>)
    ensures a + (b + c) == a + b + c
  {
  }

  lemma PackHolds(w: World, m: nat)
    requires Inv(w) && m <= |w.keeper|
    ensures Holds(w.keeper[m..], w.keptIn, w.seen + (w.pending + w.keeper[..m]))
  {
    HeldIds(w.keeper, w.keptIn, w.seen + w.pending);
    var front := w.keeper[..m];
    RestIsWithout(w.keeper, m);
    FrontIds(w.keeper, m);
    GoesHolds(w.keeper, w.keptIn, w.seen + w.pending, front);
    JoinLast(w.seen, w.pending, front);
  }

  lemma DropHolds(w: World, txs: seq<Tx>)
    requires Inv(w) && Present(w.follower, txs)
    ensures Holds(RemoveAll(w.follower, txs), w.followIn, w.seen + txs)
  {
    PresentIff(w.follower, txs);
    RemoveAllIsWithout(w.follower, txs);
    GoesHolds(w.follower, w.followIn, w.seen, txs);
  }

  lemma {:induction false} RunKeepsInv(w: World, events: seq<Event>, maxSize: nat, n: nat)
    requires n >= 1 && Inv(w) && IsRun(w, events, maxSize, n)
    ensures Inv(Run(w, events, maxSize, n))
    decreases events
  {
    if events != [] {
      match events[0] {
        case KeeperGets(tx) => GetsHolds(w.keeper, w.keptIn, w.seen + w.pending, tx);
        case FollowerGets(tx) => GetsHolds(w.follower, w.followIn, w.seen, tx);
        case KeeperPacks(cutoff) => PackHolds(w, Batched(Mature(w.keeper, cutoff), n));
        case FollowerDrops(count) =>
          DropHolds(w, w.pending[..count]);
          assert w.seen + w.pending == (w.seen + w.pending[..count]) + w.pending[count..];
      }
      RunKeepsInv(Step(w, events[0], maxSize, n), events[1..], maxSize, n);
    }
  }

  /** After any run no transaction is lost or doubled: what each side accepted is what it still holds
      and what it has seen packed. */
  lemma NothingLost(events: seq<Event>, maxSize: nat, n: nat)
    requires n >= 1 && IsRun(EMPTY, events, maxSize, n)
    ensures var w := Run(EMPTY, events, maxSize, n);
      && Ids(w.keeper) == Ids(w.keptIn) - Ids(w.seen + w.pending) && Ids(w.seen + w.pending) <= Ids(w.keptIn)
      && Ids(w.follower) == Ids(w.followIn) - Ids(w.seen) && Ids(w.seen) <= Ids(w.followIn)
      && DistinctIds(w.keeper) && DistinctIds(w.follower) && DistinctIds(w.seen + w.pending)
  {
    var w := Run(EMPTY, events, maxSize, n);
    RunKeepsInv(EMPTY, events, maxSize, n);
    HeldIds(w.keeper, w.keptIn, w.seen + w.pending);
    HeldIds(w.follower, w.followIn, w.seen);
  }

  /** Once the follower has seen every block, the two queues are equal exactly if the transactions
      left over arrived on both sides in the same order within each timestamp. */
  lemma ReplicasAgreeIff(events: seq<Event>, maxSize: nat, n: nat)
    requires n >= 1 && IsRun(EMPTY, events, maxSize, n) && Run(EMPTY, events, maxSize, n).pending == []
    ensures var w := Run(EMPTY, events, maxSize, n);
      w.keeper == w.follower <==> SameOrder(Without(w.keptIn, Ids(w.seen)), Without(w.followIn, Ids(w.seen)))
  {
    var w := Run(EMPTY, events, maxSize, n);
    RunKeepsInv(EMPTY, events, maxSize, n);
    assert w.seen + w.pending == w.seen;
    if SameOrder(Without(w.keptIn, Ids(w.seen)), Without(w.followIn, Ids(w.seen))) {
      SortedDetermined(w.keeper, w.follower);
    }
  }

  /** Whatever the order of arrival, replicas that accepted the same transactions and saw the same
      blocks hold the same ones; if moreover the timestamps are distinct, in the same order. */
  lemma ReplicasConverge(events: seq<Event>, maxSize: nat, n: nat)
    requires n >= 1 && IsRun(EMPTY, events, maxSize, n) && Run(EMPTY, events, maxSize, n).pending == []
    requires multiset(Run(EMPTY, events, maxSize, n).keptIn) == multiset(Run(EMPTY, events, maxSize, n).followIn)
    ensures var w := Run(EMPTY, events, maxSize, n);
      && multiset(w.keeper) == multiset(w.follower)
      && (DistinctStamps(w.keptIn) ==> w.keeper == w.follower)
  {
    var w := Run(EMPTY, events, maxSize, n);
    RunKeepsInv(EMPTY, events, maxSize, n);
    assert w.seen + w.pending == w.seen;
    HeldIds(w.keeper, w.keptIn, w.seen);
    HeldIds(w.follower, w.followIn, w.seen);
    WithoutSameElements(w.keptIn, w.followIn, Ids(w.seen));
    if DistinctStamps(w.keptIn) {
      DistinctStampsSameOrder(w.keptIn, w.followIn);
      WithoutKeepsOrder(w.keptIn, w.followIn, Ids(w.seen));
      ReplicasAgreeIff(events, maxSize, n);
    }
  }

  lemma {:induction false} WithoutCount(s: seq<Tx>, ids: set<nat>, tx: Tx)
    ensures multiset(Without(s, ids))[tx] == if tx.txID in ids then 0 else multiset(s)[tx]
  {
    if s != [] {
      WithoutCount(s[..|s| - 1], ids, tx);
      assert s == s[..|s| - 1] + [s[|s| - 1]];
    }
  }

  lemma WithoutSameElements(a: seq<Tx>, b: seq<Tx>, ids: set<nat>)
    requires multiset(a) == multiset(b)
    ensures multiset(Without(a, ids)) == multiset(Without(b, ids))
  {
    forall tx
      ensures multiset(Without(a, ids))[tx] == multiset(Without(b, ids))[tx]
    {
      WithoutCount(a, ids, tx);
      WithoutCount(b, ids, tx);
    }
  }

  /** A follower survives the next block exactly if it has accepted all its transactions. */
  lemma DropWorksIff(events: seq<Event>, maxSize: nat, n: nat, count: nat)
    requires n >= 1 && IsRun(EMPTY, events, maxSize, n) && count <= |Run(EMPTY, events, maxSize, n).pending|
    ensures var w := Run(EMPTY, events, maxSize, n);
      CanStep(w, FollowerDrops(count)) <==> Ids(w.pending[..count]) <= Ids(w.followIn)
  {
    var w := Run(EMPTY, events, maxSize, n);
    RunKeepsInv(EMPTY, events, maxSize, n);
    assert w.pending == w.pending[..count] + w.pending[count..];
    NextIsDistinct(w.seen, w.pending, count);
    PresentIff(w.follower, w.pending[..count]);
    HeldIds(w.follower, w.followIn, w.seen);
  }

  lemma NextIsDistinct(seen: seq<Tx>, pending: seq<Tx>, count: nat)
    requires DistinctIds(seen + pending) && count <= |pending|
    ensures DistinctIds(pending[..count]) && Ids(pending[..count]) !! Ids(seen)
  {
    var all := seen + pending;
    forall i, j | 0 <= i < |seen| && 0 <= j < count
      ensures seen[i].txID != pending[..count][j].txID
    {
      assert all[i] == seen[i] && all[|seen| + j] == pending[j];
    }
    forall i, j | 0 <= i < j < count
      ensures pending[..count][i].txID != pending[..count][j].txID
    {
      assert all[|seen| + i] == pending[i] && all[|seen| + j] == pending[j];
    }
  }
}
