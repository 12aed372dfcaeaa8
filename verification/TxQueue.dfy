/** The waiting transactions of a pool (txpool/txpool_table.go, txpool/txpool_data.go): a doubly
    linked list between two sentinels, sorted by timestamp, with a map from ids to its nodes. Both
    pools use the same queue code, on different transaction types. */
module TxQueue {
  import opened LinkedLists
  import opened Folds

  /** The fields the queue looks at, and the rest of the transaction. */
  datatype Tx = Tx(txID: nat, timeStamp: int, body: string)

  // ---------------------------------------------------------------- queues as sequences

  predicate Sorted(s: seq<Tx>) {
    forall i, j :: 0 <= i < j < |s| ==> s[i].timeStamp <= s[j].timeStamp
  }

  /** `tx` behind every transaction that is not younger. */
  function Insert(s: seq<Tx>, tx: Tx): (r: seq<Tx>)
    ensures |r| == |s| + 1
  {
    if s == [] || s[|s| - 1].timeStamp <= tx.timeStamp then s + [tx]
    else Insert(s[..|s| - 1], tx) + [s[|s| - 1]]
  }

  lemma {:induction false} InsertAt(s: seq<Tx>, tx: Tx, k: nat)
    requires k <= |s| && (k > 0 ==> s[k - 1].timeStamp <= tx.timeStamp)
    requires forall j :: k <= j < |s| ==> s[j].timeStamp > tx.timeStamp
    ensures Insert(s, tx) == Inserted(s, k, tx)
  {
    if k < |s| {
      var front := s[..|s| - 1];
      InsertAt(front, tx, k);
      assert front[..k] == s[..k] && front[k..] == s[k..|s| - 1];
      assert s[k..] == s[k..|s| - 1] + [s[|s| - 1]];
    } else {
      assert s[..k] == s && s[k..] == [];
    }
  }

  lemma {:induction false} InsertElements(s: seq<Tx>, tx: Tx)
    ensures multiset(Insert(s, tx)) == multiset(s) + multiset{tx}
    ensures forall x :: x in Insert(s, tx) ==> x == tx || x in s
  {
    if s != [] && s[|s| - 1].timeStamp > tx.timeStamp {
      var front := s[..|s| - 1];
      InsertElements(front, tx);
      assert s == front + [s[|s| - 1]];
    }
  }

  lemma SortedSnoc(s: seq<Tx>, last: Tx)
    requires Sorted(s) && forall x :: x in s ==> x.timeStamp <= last.timeStamp
    ensures Sorted(s + [last])
  {
  }

  lemma {:induction false} InsertKeepsSorted(s: seq<Tx>, tx: Tx)
    requires Sorted(s)
    ensures Sorted(Insert(s, tx))
  {
    if s == [] || s[|s| - 1].timeStamp <= tx.timeStamp {
      SortedSnoc(s, tx);
    } else {
      InsertKeepsSorted(s[..|s| - 1], tx);
      InsertElements(s[..|s| - 1], tx);
      SortedSnoc(Insert(s[..|s| - 1], tx), s[|s| - 1]);
    }
  }

  /** The queue without the transaction of this id. */
  function Remove(s: seq<Tx>, id: nat): seq<Tx> {
    if s == [] then []
    else if s[|s| - 1].txID == id then Remove(s[..|s| - 1], id)
    else Remove(s[..|s| - 1], id) + [s[|s| - 1]]
  }

  lemma {:induction false} RemoveNone(s: seq<Tx>, id: nat)
    requires forall i :: 0 <= i < |s| ==> s[i].txID != id
    ensures Remove(s, id) == s
  {
    if s != [] {
      RemoveNone(s[..|s| - 1], id);
    }
  }

  lemma {:induction false} RemoveAt(s: seq<Tx>, id: nat, k: nat)
    requires k < |s| && s[k].txID == id && forall j :: 0 <= j < |s| && j != k ==> s[j].txID != id
    ensures Remove(s, id) == Cut(s, k)
  {
    var front := s[..|s| - 1];
    if k < |s| - 1 {
      RemoveAt(front, id, k);
      assert Cut(s, k) == Cut(front, k) + [s[|s| - 1]];
    } else {
      RemoveNone(front, id);
      assert Cut(s, k) == front;
    }
  }

  lemma CutKeepsSorted(s: seq<Tx>, k: nat)
    requires Sorted(s) && k < |s|
    ensures Sorted(Cut(s, k))
  {
  }

  lemma RestKeepsSorted(s: seq<Tx>, n: nat)
    requires Sorted(s) && n <= |s|
    ensures Sorted(s[n..])
  {
  }

  function Ids(s: seq<Tx>): (ids: set<nat>)
    ensures forall i :: 0 <= i < |s| ==> s[i].txID in ids
    ensures forall id :: id in ids ==> exists i :: 0 <= i < |s| && s[i].txID == id
  {
    set tx | tx in s :: tx.txID
  }

  ghost predicate DistinctIds(s: seq<Tx>) {
    forall i, j :: 0 <= i < j < |s| ==> s[i].txID != s[j].txID
  }

  // ---------------------------------------------------------------- the linked queue

  /** The map holds exactly these nodes, each under its id. */
  ghost predicate Indexes(m: map<nat, Node<Tx>>, nodes: set<Node<Tx>>)
    reads nodes`val
  {
    && (forall n :: n in nodes ==> n.val.txID in m && m[n.val.txID] == n)
    && (forall id :: id in m ==> m[id] in nodes && m[id].val.txID == id)
  }

  lemma IndexesInsert(m: map<nat, Node<Tx>>, nodes: set<Node<Tx>>, p: Node<Tx>)
    requires Indexes(m, nodes) && p !in nodes
    ensures Indexes(m[p.val.txID := p], nodes + {p}) <==> p.val.txID !in m
  {
    if p.val.txID in m {
      assert m[p.val.txID] in nodes + {p};
    }
  }

  lemma IndexesRemove(m: map<nat, Node<Tx>>, nodes: set<Node<Tx>>, p: Node<Tx>)
    requires Indexes(m, nodes) && p in nodes
    ensures Indexes(m - {p.val.txID}, nodes - {p})
  {
  }

  /** In a matched list every id stands at one place. */
  lemma IdAtOnePlace(m: map<nat, Node<Tx>>, nodes: seq<Node<Tx>>, vals: seq<Tx>, k: nat)
    requires Indexes(m, SetOf(nodes)) && AllDistinct(nodes) && Carry(nodes, vals) && k < |nodes|
    ensures forall j :: 0 <= j < |nodes| && j != k ==> vals[j].txID != vals[k].txID
  {
    forall j | 0 <= j < |nodes| && j != k
      ensures vals[j].txID != vals[k].txID
    {
      assert nodes[j] in SetOf(nodes) && nodes[k] in SetOf(nodes);
    }
  }

  class TxQueue {
    var curSize: int
    const maxSize: int
    var txMap: map<nat, Node<Tx>>
    const list: LinkedList<Tx>

    ghost function Repr(): set<object>
      reads this, list
    {
      {this, list} + list.Nodes()
    }

    /** The waiting transactions, oldest first. */
    ghost function Contents(): seq<Tx>
      reads this, list, list.Nodes()
      requires |list.spine| >= 2
    {
      list.Values()
    }

    ghost predicate ListValid()
      reads this, list, list.Nodes()
    {
      list.Valid() && Sorted(Contents()) && curSize == |Contents()|
    }

    ghost predicate MapMatches()
      reads this, list, list.Nodes()
    {
      Indexes(txMap, list.Held())
    }

    /** Folded: naming Open(0) unfolds it. */
    ghost predicate Valid()
      reads this, list, list.Nodes()
    {
      |list.spine| >= 2 && forall u :: Open(u) ==> ListValid() && MapMatches()
    }

    constructor (maxSize: int)
      ensures Valid() && fresh(Repr()) && Contents() == [] && this.maxSize == maxSize && txMap == map[]
    {
      curSize := 0;
      this.maxSize := maxSize;
      txMap := map[];
      list := new LinkedList(Tx(0, 0, ""));
    }

    /** The map knows exactly the waiting ids, and each waits once. */
    lemma MapIds()
      requires Valid()
      ensures txMap.Keys == Ids(Contents()) && DistinctIds(Contents())
    {
      assert Open(0);
      var s := Contents();
      list.HeldIsInner();
      forall i | 0 <= i < |s|
        ensures s[i].txID in txMap && txMap[s[i].txID] == list.Inner()[i]
      {
        assert list.Inner()[i] in SetOf(list.Inner());
      }
      forall id | id in txMap
        ensures id in Ids(s)
      {
        assert txMap[id] in SetOf(list.Inner());
        var i :| 0 <= i < |s| && list.Inner()[i] == txMap[id];
        assert s[i].txID == id;
      }
    }

    // -------------------------------------------------------------- in

    /** Where a transaction of this timestamp goes: behind the node `p1`, at position k. */
    method FindPlace(tsp: int) returns (p1: Node<Tx>, ghost k: nat)
      requires ListValid()
      ensures k < |list.spine| - 1 && p1 == list.spine[k]
      ensures k > 0 ==> Contents()[k - 1].timeStamp <= tsp
      ensures forall j :: k <= j < |Contents()| ==> Contents()[j].timeStamp > tsp
    {
      ghost var s := Contents();
      k := |list.spine| - 2;
      assert list.tail.pre == list.spine[k];
      p1 := list.tail.pre;
      while p1.pre != null && p1.val.timeStamp > tsp
        invariant 0 <= k <= |list.spine| - 2 && p1 == list.spine[k]
        invariant forall j :: k <= j < |s| ==> s[j].timeStamp > tsp
        decreases k
      {
        assert p1.pre == list.spine[k - 1] && s[k - 1] == p1.val;
        p1 := p1.pre;
        k := k - 1;
      }
      assert k > 0 ==> p1.pre == list.spine[k - 1] && s[k - 1] == p1.val;
    }

    /** Links a node in at its place. */
    method Place(p: Node<Tx>)
      requires ListValid() && p !in list.spine
      modifies list, list.Nodes()`pre, list.Nodes()`next, p`pre, p`next
      ensures list.Valid() && list.Nodes() == old(list.Nodes()) + {p}
      ensures Sorted(Contents()) && Contents() == Insert(old(Contents()), p.val)
    {
      var p1;
      ghost var k;
      p1, k := FindPlace(p.val.timeStamp);
      InsertAt(Contents(), p.val, k);
      InsertKeepsSorted(Contents(), p.val);
      list.Link(p1, p, k);
    }

    /** Enters a linked node in the map. */
    method Record(p: Node<Tx>, ghost held: set<Node<Tx>>)
      requires p !in held
      modifies this`txMap, this`curSize
      ensures txMap == old(txMap)[p.val.txID := p] && curSize == old(curSize) + 1
      ensures Indexes(old(txMap), held) ==> (Indexes(txMap, held + {p}) <==> p.val.txID !in old(txMap))
    {
      if Indexes(txMap, held) {
        IndexesInsert(txMap, held, p);
      }
      txMap := txMap[p.val.txID := p];
      curSize := curSize + 1;
    }

    /** Inserts by timestamp. The list stays sorted whatever the id; the map keeps up with the list
        exactly if the id is new. */
    method In(transaction: Tx)
      requires ListValid()
      modifies Repr()
      ensures ListValid() && Contents() == Insert(old(Contents()), transaction)
      ensures fresh(Repr() - old(Repr()))
      ensures txMap.Keys == old(txMap.Keys) + {transaction.txID}
      ensures old(MapMatches()) ==> (MapMatches() <==> transaction.txID !in old(txMap))
    {
      var p := new Node(transaction);
      ghost var held := list.Held();
      Place(p);
      assert list.Held() == held + {p};
      Record(p, held);
    }

    /** TxIn: refuses when the queue holds maxSize transactions. */
    method TxIn(transaction: Tx) returns (full: bool)
      requires ListValid()
      modifies Repr()
      ensures full <==> |old(Contents())| == maxSize
      ensures ListValid() && fresh(Repr() - old(Repr()))
      ensures full ==> Contents() == old(Contents()) && txMap == old(txMap) && (old(MapMatches()) ==> MapMatches())
      ensures !full ==> Contents() == Insert(old(Contents()), transaction)
      ensures !full ==> txMap.Keys == old(txMap.Keys) + {transaction.txID}
      ensures !full && old(MapMatches()) ==> (MapMatches() <==> transaction.txID !in old(txMap))
      ensures |old(Contents())| <= maxSize ==> |Contents()| <= maxSize
    {
      full := curSize == maxSize;
      if full {
        return;
      }
      In(transaction);
    }

    // -------------------------------------------------------------- out

    lemma WhereIs(p: Node<Tx>) returns (k: nat)
      requires Valid() && p in list.Held()
      ensures 0 < k < |list.spine| - 1 && p == list.spine[k]
      ensures Remove(Contents(), p.val.txID) == Cut(Contents(), k - 1) && Sorted(Cut(Contents(), k - 1))
    {
      assert Open(0);
      k :| 0 <= k < |list.spine| && list.spine[k] == p;
      assert SetOf(list.Inner()) == list.Held() by {
        list.HeldIsInner();
      }
      IdAtOnePlace(txMap, list.Inner(), Contents(), k - 1);
      RemoveAt(Contents(), p.val.txID, k - 1);
      CutKeepsSorted(Contents(), k - 1);
    }

    lemma InMap(id: nat)
      requires Valid() && id in txMap
      ensures txMap[id] in list.Held() && txMap[id].val.txID == id
    {
      assert Open(0);
    }

    /** Takes the node at place k out of list and map. */
    method TakeOut(p: Node<Tx>, ghost k: nat)
      requires Valid() && 0 < k < |list.spine| - 1 && p == list.spine[k] && Sorted(Cut(Contents(), k - 1))
      modifies this`txMap, this`curSize, list, list.Nodes()`pre, list.Nodes()`next
      ensures Valid() && Contents() == Cut(old(Contents()), k - 1)
      ensures txMap == old(txMap) - {p.val.txID} && list.Nodes() <= old(list.Nodes())
    {
      assert Open(0);
      ghost var held := list.Held();
      assert p in list.Nodes();
      IndexesRemove(txMap, held, p);
      list.UnlinkAt(p, k);
      assert list.Held() == held - {p};
      txMap := txMap - {p.val.txID};
      curSize := curSize - 1;
    }

    /** Takes the transaction with this id out; an id that is not waiting is a nil dereference, which
        `ok` reports. */
    method Out(id: nat) returns (ok: bool)
      requires Valid()
      modifies this`txMap, this`curSize, list, list.Nodes()`pre, list.Nodes()`next
      ensures ok <==> id in old(txMap)
      ensures Valid()
      ensures Contents() == if ok then Remove(old(Contents()), id) else old(Contents())
      ensures txMap.Keys == old(txMap.Keys) - {id}
      ensures list.Nodes() <= old(list.Nodes())
    {
      ok := id in txMap;
      if !ok {
        return;
      }
      InMap(id);
      var p := txMap[id];
      ghost var k := WhereIs(p);
      TakeOut(p, k);
    }

    // -------------------------------------------------------------- taking from the front

    ghost predicate Follow(nodes: seq<Node<Tx>>)
      reads nodes
    {
      && AllDistinct(nodes)
      && forall i {:trigger nodes[i].next} :: 0 <= i < |nodes| - 1 ==> nodes[i].next == nodes[i + 1]
    }

    lemma BehindHead()
      requires list.Valid()
      ensures Follow(list.spine[1..]) && list.spine[1] == list.head.next
      ensures forall i :: 0 <= i < |list.spine| - 2 ==> list.spine[1..][i] in list.Held()
    {
      ghost var nodes := list.spine[1..];
      assert list.head.next == list.spine[1];
      forall i | 0 <= i < |nodes| - 1
        ensures nodes[i].next == nodes[i + 1]
      {
        assert list.spine[i + 1].next == list.spine[i + 2];
      }
    }

    /** A node leaves the map. */
    method Unmap(p: Node<Tx>, ghost left: set<Node<Tx>>)
      requires Indexes(txMap, left) && p in left
      modifies this`txMap, this`curSize
      ensures Indexes(txMap, left - {p}) && curSize == old(curSize) - 1
    {
      IndexesRemove(txMap, left, p);
      txMap := txMap - {p.val.txID};
      curSize := curSize - 1;
    }

    /** The entries of the first `n` transactions leave the map while the list still holds them; `p` is
        the node behind them. */
    method UnmapFront(n: nat, ghost nodes: seq<Node<Tx>>, ghost held: set<Node<Tx>>)
        returns (txs: seq<Tx>, p: Node<Tx>, ghost left: set<Node<Tx>>)
      requires n < |nodes| && Follow(nodes) && nodes[0] == list.head.next
      requires forall i :: 0 <= i < n ==> nodes[i] in held
      requires Indexes(txMap, held)
      modifies this`txMap, this`curSize
      ensures |txs| == n && forall i :: 0 <= i < n ==> txs[i] == nodes[i].val
      ensures p == nodes[n] && curSize == old(curSize) - n
      ensures Indexes(txMap, left) && left == held - SetOf(nodes[..n])
    {
      p := list.head.next;
      txs := [];
      left := held;
      assert nodes[..0] == [];
      for i := 0 to n
        invariant p == nodes[i] && curSize == old(curSize) - i
        invariant |txs| == i && forall j :: 0 <= j < i ==> txs[j] == nodes[j].val
        invariant forall j :: i <= j < n ==> nodes[j] in left
        invariant left == held - SetOf(nodes[..i])
        invariant Indexes(txMap, left)
      {
        assert nodes[..i + 1] == nodes[..i] + [p];
        Unmap(p, left);
        left := left - {p};
        txs := txs + [p.val];
        p := p.next;
      }
    }

    /** The links of the first `n` transactions go at once; `p` is the node behind them. */
    method DropFirst(p: Node<Tx>, ghost n: nat)
      requires list.Valid() && n < |list.spine| - 1 && p == list.spine[n + 1] && Sorted(Contents())
      requires curSize == |Contents()| - n && Indexes(txMap, list.Held() - SetOf(list.spine[1..n + 1]))
      modifies list, list.Nodes()`pre, list.Nodes()`next
      ensures Valid() && Contents() == old(Contents())[n..]
      ensures list.Nodes() <= old(list.Nodes())
    {
      ghost var inner, vals := list.Inner(), Contents();
      FrontDropped(n, [list.head] + list.spine[n + 1..]);
      list.DropFront(p, n);
      ValuesOfRest(inner, vals, n);
      RestKeepsSorted(vals, n);
    }

    lemma FrontDropped(n: nat, s: seq<Node<Tx>>)
      requires list.Valid() && n < |list.spine| - 1 && s == [list.head] + list.spine[n + 1..]
      ensures s[1..|s| - 1] == list.Inner()[n..]
      ensures SetOf(s) - {list.head, list.tail} == list.Held() - SetOf(list.spine[1..n + 1])
      ensures SetOf(s) <= list.Nodes()
    {
      ghost var spine := list.spine;
      assert spine == [list.head] + spine[1..n + 1] + spine[n + 1..];
      var back := spine[n + 1..];
      forall x | x in back
        ensures x !in spine[1..n + 1]
      {
        var i :| 0 <= i < |back| && back[i] == x;
        assert x == spine[n + 1 + i];
      }
    }

    /** The first `n` transactions, gone from the map and not yet from the list. */
    method UnmapFirst(n: nat) returns (txs: seq<Tx>, p: Node<Tx>)
      requires Valid() && n <= |Contents()|
      modifies this`txMap, this`curSize
      ensures txs == Contents()[..n] && list.Valid() && Sorted(Contents()) && p == list.spine[n + 1]
      ensures curSize == |Contents()| - n && Indexes(txMap, list.Held() - SetOf(list.spine[1..n + 1]))
    {
      assert Open(0);
      ghost var left;
      ghost var nodes := list.spine[1..];
      assert nodes[..n] == list.spine[1..n + 1];
      BehindHead();
      txs, p, left := UnmapFront(n, nodes, list.Held());
    }

    /** Removes the first `n` transactions: the map entries one by one, the links at once. */
    method TakeFront(n: nat) returns (txs: seq<Tx>)
      requires Valid() && n <= |Contents()|
      modifies this`txMap, this`curSize, list, list.Nodes()`pre, list.Nodes()`next
      ensures Valid() && txs == old(Contents())[..n] && Contents() == old(Contents())[n..]
      ensures list.Nodes() <= old(list.Nodes())
    {
      var p;
      txs, p := UnmapFirst(n);
      DropFirst(p, n);
    }
  }
}
