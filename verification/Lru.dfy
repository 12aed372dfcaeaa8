/** The two recency lists of the cache (cache/cache_lru.go): one over transactions, one over positions
    in the chain. Each is a linked list with the least recently used node first, and a map from ids. */
module Lru {
  import opened LinkedLists
  import opened Folds
  import opened Wrappers
  import opened Chain

  /** What a node carries: a cached transaction, or where the newest transaction of an id stands and
      how often it was asked for. */
  datatype Slot =
    | TxSlot(tx: Transaction)
    | IndexSlot(id: string, blockHash: Hash, txID: Hash, count: nat)

  /** The map key under which a node is evicted. */
  function KeyOf(s: Slot): string {
    match s
    case TxSlot(tx) => tx.dataID
    case IndexSlot(id, _, _, _) => id
  }

  /** A move to the tail is one more access to an index node. */
  function Touched(s: Slot): (r: Slot)
    ensures KeyOf(r) == KeyOf(s)
  {
    match s
    case TxSlot(_) => s
    case IndexSlot(_, _, _, count) => s.(count := count + 1)
  }

  // ---------------------------------------------------------------- the lists as sequences

  predicate HasKey(s: seq<Slot>, id: string) {
    exists i :: 0 <= i < |s| && KeyOf(s[i]) == id
  }

  ghost predicate DistinctKeys(s: seq<Slot>) {
    forall i, j :: 0 <= i < j < |s| ==> KeyOf(s[i]) != KeyOf(s[j])
  }

  /** Where an id stands. */
  function Place(s: seq<Slot>, id: string): (k: nat)
    requires HasKey(s, id)
    ensures k < |s| && KeyOf(s[k]) == id
  {
    if KeyOf(s[|s| - 1]) == id then |s| - 1
    else
      assert forall i :: 0 <= i < |s| - 1 ==> s[i] == s[..|s| - 1][i];
      Place(s[..|s| - 1], id)
  }

  lemma PlaceIs(s: seq<Slot>, id: string, k: nat)
    requires DistinctKeys(s) && k < |s| && KeyOf(s[k]) == id
    ensures HasKey(s, id) && Place(s, id) == k
  {
  }

  /** queueIn: the oldest entry goes when there are more than maxSize, so that one more fits. */
  function Queued(s: seq<Slot>, maxSize: nat, x: Slot): seq<Slot> {
    (if |s| > maxSize then s[1..] else s) + [x]
  }

  /** toTail. */
  function Moved(s: seq<Slot>, k: nat): (r: seq<Slot>)
    requires k < |s|
    ensures |r| == |s|
  {
    Cut(s, k) + [Touched(s[k])]
  }

  /** Moving is overwriting, then a move. */
  lemma MovedIs(s: seq<Slot>, k: nat, x: Slot)
    requires k < |s| && x == Touched(s[k])
    ensures Moved(s, k) == Cut(s[k := x], k) + [x]
  {
  }

  lemma CutLast(s: seq<Slot>)
    ensures s != [] ==> Cut(s, |s| - 1) + [s[|s| - 1]] == s
  {
  }

  lemma CutKeys(s: seq<Slot>, k: nat)
    requires DistinctKeys(s) && k < |s|
    ensures DistinctKeys(Cut(s, k))
    ensures forall id :: HasKey(Cut(s, k), id) <==> HasKey(s, id) && id != KeyOf(s[k])
    ensures forall x :: x in Cut(s, k) ==> x in s
  {
    var r := Cut(s, k);
    forall id | HasKey(s, id) && id != KeyOf(s[k])
      ensures HasKey(r, id)
    {
      var i := Place(s, id);
      assert KeyOf(r[if i < k then i else i - 1]) == id;
    }
    forall id | HasKey(r, id)
      ensures HasKey(s, id) && id != KeyOf(s[k])
    {
      var i := Place(r, id);
      assert KeyOf(s[if i < k then i else i + 1]) == id;
    }
  }

  lemma SnocKeys(s: seq<Slot>, x: Slot)
    requires DistinctKeys(s) && !HasKey(s, KeyOf(x))
    ensures DistinctKeys(s + [x])
    ensures forall id :: HasKey(s + [x], id) <==> HasKey(s, id) || id == KeyOf(x)
    ensures forall y :: y in s + [x] ==> y == x || y in s
    ensures Place(s + [x], KeyOf(x)) == |s|
  {
    var r := s + [x];
    assert KeyOf(r[|s|]) == KeyOf(x);
    forall id | HasKey(s, id)
      ensures HasKey(r, id)
    {
      assert KeyOf(r[Place(s, id)]) == id;
    }
    forall id | HasKey(r, id) && id != KeyOf(x)
      ensures HasKey(s, id)
    {
      assert KeyOf(s[Place(r, id)]) == id;
    }
  }

  // ---------------------------------------------------------------- the linked lists

  /** The map holds exactly these nodes, each under its key. */
  ghost predicate Keyed(m: map<string, Node<Slot>>, nodes: set<Node<Slot>>)
    reads nodes`val
  {
    && (forall n :: n in nodes ==> KeyOf(n.val) in m && m[KeyOf(n.val)] == n)
    && (forall id :: id in m ==> m[id] in nodes && KeyOf(m[id].val) == id)
  }

  lemma KeyedInsert(m: map<string, Node<Slot>>, nodes: set<Node<Slot>>, p: Node<Slot>)
    requires Keyed(m, nodes) && KeyOf(p.val) !in m
    ensures Keyed(m[KeyOf(p.val) := p], nodes + {p})
  {
  }

  lemma KeyedRemove(m: map<string, Node<Slot>>, nodes: set<Node<Slot>>, p: Node<Slot>)
    requires Keyed(m, nodes) && p in nodes
    ensures Keyed(m - {KeyOf(p.val)}, nodes - {p})
  {
  }

  /** A node follows another exactly if the other precedes it. */
  ghost predicate PointsBack(nodes: set<Node<Slot>>)
    reads nodes
  {
    forall m, n :: m in nodes && n in nodes ==> (m.next == n <==> n.pre == m)
  }

  class Lru {
    const maxSize: nat
    var curSize: int
    var slots: map<string, Node<Slot>>
    const list: LinkedList<Slot>

    ghost function Repr(): set<object>
      reads this, list
    {
      {this, list} + list.Nodes()
    }

    /** The entries, least recently used first. */
    ghost function Entries(): seq<Slot>
      reads this, list, list.Nodes()
      requires |list.spine| >= 2
    {
      list.Values()
    }

    /** Folded: naming Open(0) unfolds it. */
    ghost predicate Valid()
      reads this, list, list.Nodes()
    {
      && |list.spine| >= 2
      && forall u :: Open(u) ==>
        list.Valid() && Keyed(slots, list.Held()) && curSize == |Entries()| <= maxSize + 1
    }

    constructor (maxSize: nat)
      ensures Valid() && fresh(Repr()) && Entries() == [] && this.maxSize == maxSize
    {
      this.maxSize := maxSize;
      curSize := 0;
      slots := map[];
      list := new LinkedList(IndexSlot("", Text(""), Text(""), 0));
    }

    /** The map knows exactly the listed ids. */
    lemma MapKeys()
      requires Valid()
      ensures DistinctKeys(Entries())
      ensures forall id :: id in slots <==> HasKey(Entries(), id)
    {
      assert Open(0);
      var s, inner := Entries(), list.Inner();
      list.HeldIsInner();
      forall i | 0 <= i < |s|
        ensures KeyOf(s[i]) in slots && slots[KeyOf(s[i])] == inner[i]
      {
        assert inner[i] in SetOf(inner);
      }
      forall id | id in slots
        ensures HasKey(s, id)
      {
        assert slots[id] in SetOf(inner);
        var i :| 0 <= i < |s| && inner[i] == slots[id];
        assert KeyOf(s[i]) == id;
      }
    }

    lemma KeyedAt(k: nat)
      requires Valid() && k < |Entries()|
      ensures KeyOf(Entries()[k]) in slots && slots[KeyOf(Entries()[k])] == list.spine[k + 1]
    {
      assert Open(0);
      list.HeldIsInner();
      assert list.Inner()[k] in SetOf(list.Inner());
    }

    /** Where the map finds an id. */
    lemma Find(id: string) returns (k: nat)
      requires Valid() && HasKey(Entries(), id)
      ensures id in slots && k == Place(Entries(), id) < |list.spine| - 2
      ensures slots[id] == list.spine[k + 1] && slots[id].val == Entries()[k] && KeyOf(slots[id].val) == id
    {
      k := Place(Entries(), id);
      KeyedAt(k);
    }

    lemma NotFound(id: string)
      requires Valid()
      ensures id in slots <==> HasKey(Entries(), id)
    {
      MapKeys();
    }

    /** getInTX and getInIndex: what the list holds for this id. */
    method Get(id: string) returns (r: Option<Slot>)
      requires Valid()
      ensures r == if HasKey(Entries(), id) then Some(Entries()[Place(Entries(), id)]) else None
    {
      NotFound(id);
      if id in slots {
        ghost var k := Find(id);
        r := Some(slots[id].val);
      } else {
        r := None;
      }
    }

    /** Takes a node out of list and map. */
    method Drop(p: Node<Slot>, ghost k: nat)
      requires list.Valid() && Keyed(slots, list.Held()) && curSize == |Entries()|
      requires 0 < k < |list.spine| - 1 && p == list.spine[k]
      modifies this`slots, this`curSize, list, list.Nodes()`pre, list.Nodes()`next
      ensures list.Valid() && Keyed(slots, list.Held()) && curSize == |Entries()|
      ensures Entries() == Cut(old(Entries()), k - 1)
      ensures list.Nodes() == old(list.Nodes()) - {p} && slots == old(slots) - {KeyOf(p.val)}
    {
      ghost var held := list.Held();
      assert p in list.Nodes();
      KeyedRemove(slots, held, p);
      list.UnlinkAt(p, k);
      assert list.Held() == held - {p};
      slots := slots - {KeyOf(p.val)};
      curSize := curSize - 1;
    }

    /** Links a node in at the tail. */
    method Append(p: Node<Slot>)
      requires list.Valid() && Keyed(slots, list.Held()) && curSize == |Entries()|
      requires p !in list.spine && KeyOf(p.val) !in slots
      modifies this`slots, this`curSize, list, list.Nodes()`pre, list.Nodes()`next, p`pre, p`next
      ensures list.Valid() && Keyed(slots, list.Held()) && curSize == |Entries()|
      ensures Entries() == old(Entries()) + [p.val] && slots == old(slots)[KeyOf(p.val) := p]
      ensures list.Nodes() == old(list.Nodes()) + {p}
    {
      ghost var k, held := |list.spine| - 2, list.Held();
      KeyedInsert(slots, held, p);
      assert list.tail.pre == list.spine[k];
      var ptag := list.tail.pre;
      list.Link(ptag, p, k);
      assert list.Held() == held + {p};
      slots := slots[KeyOf(p.val) := p];
      curSize := curSize + 1;
    }

    method Evict()
      requires Valid()
      modifies this`slots, this`curSize, list, list.Nodes()`pre, list.Nodes()`next
      ensures Valid() && Entries() == if |old(Entries())| > maxSize then old(Entries())[1..] else old(Entries())
      ensures list.Nodes() <= old(list.Nodes()) && slots.Keys <= old(slots).Keys
    {
      assert Open(0);
      if curSize > maxSize {
        assert list.head.next == list.spine[1];
        Drop(list.head.next, 1);
      }
    }

    /** A new entry becomes the most recently used one. */
    method QueueIn(x: Slot)
      requires Valid() && !HasKey(Entries(), KeyOf(x))
      modifies Repr()
      ensures Valid() && fresh(Repr() - old(Repr()))
      ensures Entries() == Queued(old(Entries()), maxSize, x)
    {
      assert Open(0);
      NotFound(KeyOf(x));
      Evict();
      var p := new Node(x);
      Append(p);
    }

    method Relink(p: Node<Slot>, ghost k: nat)
      requires Valid() && k < |Entries()| && p == list.spine[k + 1]
      modifies this`slots, this`curSize, list, list.Nodes()`pre, list.Nodes()`next
      ensures Valid() && Entries() == Cut(old(Entries()), k) + [p.val]
      ensures list.Nodes() == old(list.Nodes())
    {
      assert Open(0);
      assert p in list.Nodes();
      Drop(p, k + 1);
      Append(p);
    }

    /** One more access to an entry. */
    method Touch(id: string) returns (p: Node<Slot>, ghost k: nat)
      requires Valid() && HasKey(Entries(), id)
      modifies list.Nodes()`val
      ensures Valid() && k == old(Place(Entries(), id)) < |old(Entries())| && p == list.spine[k + 1]
      ensures Entries() == old(Entries())[k := p.val] && p.val == Touched(old(Entries())[k])
      ensures id in slots && p == slots[id] && p.val == Touched(old(p.val))
      ensures forall n :: n in list.Nodes() && n != p ==> n.val == old(n.val)
    {
      k := Find(id);
      p := slots[id];
      var touched := Touched(p.val);
      Set(p, touched, k);
    }

    method IsLast(p: Node<Slot>, ghost k: nat) returns (last: bool)
      requires Valid() && k < |Entries()| && p == list.spine[k + 1]
      ensures last <==> k == |Entries()| - 1
    {
      assert Open(0);
      assert list.tail.pre == list.spine[|list.spine| - 2];
      last := list.tail.pre == p;
    }

    /** Moves a node to the tail, unless it is there. */
    method Shift(p: Node<Slot>, ghost k: nat)
      requires Valid() && k < |Entries()| && p == list.spine[k + 1]
      modifies this`slots, this`curSize, list, list.Nodes()`pre, list.Nodes()`next
      ensures Valid() && Entries() == Cut(old(Entries()), k) + [old(Entries())[k]]
      ensures list.Nodes() == old(list.Nodes())
    {
      CutLast(Entries());
      var last := IsLast(p, k);
      if !last {
        Relink(p, k);
      }
    }

    /** An access: the entry moves to the tail. The list is unlinked with p.next.pre = p.pre, as
        checkDel does it. */
    method ToTail(id: string)
      requires Valid() && HasKey(Entries(), id)
      modifies this`slots, this`curSize, list, list.Nodes()
      ensures Valid() && Entries() == Moved(old(Entries()), old(Place(Entries(), id)))
      ensures list.Nodes() == old(list.Nodes())
    {
      ghost var s := Entries();
      var p;
      ghost var k;
      p, k := Touch(id);
      MovedIs(s, k, p.val);
      Shift(p, k);
    }

    /** Overwrites what a node carries. */
    method Set(p: Node<Slot>, x: Slot, ghost k: nat)
      requires Valid() && k < |Entries()| && p == list.spine[k + 1] && KeyOf(x) == KeyOf(p.val)
      modifies list.Nodes()`val
      ensures Valid() && Entries() == old(Entries())[k := x] && p.val == x
      ensures forall n :: n in list.Nodes() && n != p ==> n.val == old(n.val)
    {
      assert Open(0);
      assert p in list.Nodes();
      list.Overwrite(p, x, k + 1);
    }

    /** Overwrites what an entry carries. */
    method Update(id: string, x: Slot)
      requires Valid() && HasKey(Entries(), id) && KeyOf(x) == id
      modifies list.Nodes()`val
      ensures Valid() && Entries() == old(Entries())[old(Place(Entries(), id)) := x]
    {
      ghost var k := Find(id);
      Set(slots[id], x, k);
    }

    /** Takes an index entry out on its third access. */
    method CheckDel(id: string) returns (gone: bool)
      requires Valid() && HasKey(Entries(), id) && Entries()[Place(Entries(), id)].IndexSlot?
      modifies this`slots, this`curSize, list, list.Nodes()`pre, list.Nodes()`next
      ensures Valid()
      ensures gone <==> old(Entries()[Place(Entries(), id)]).count >= 3
      ensures Entries() == if gone then Cut(old(Entries()), old(Place(Entries(), id))) else old(Entries())
      ensures list.Nodes() <= old(list.Nodes())
    {
      assert Open(0);
      ghost var k := Find(id);
      var p := slots[id];
      gone := p.val.count >= 3;
      if gone {
        Drop(p, k + 1);
      }
    }

    lemma ValidPointsBack()
      requires Valid()
      ensures PointsBack(list.Nodes())
    {
      assert Open(0);
      forall m, n | m in list.Nodes() && n in list.Nodes()
        ensures m.next == n <==> n.pre == m
      {
        var i :| 0 <= i < |list.spine| && list.spine[i] == m;
        var j :| 0 <= j < |list.spine| && list.spine[j] == n;
        assert i < |list.spine| - 1 ==> m.next == list.spine[i + 1];
        assert j > 0 ==> n.pre == list.spine[j - 1];
      }
    }

    /** The written line leaves the successor pointing back at a node that is no longer before it. */
    method Misplace(p: Node<Slot>, ghost k: nat)
      requires Valid() && 0 < k < |Entries()| && p == list.spine[k]
      modifies list.Nodes()`pre, list.Nodes()`next
      ensures !PointsBack(list.Nodes())
    {
      assert Open(0);
      ghost var next := list.spine[k + 1];
      assert p.next == next && next.pre == p && p in list.Nodes() && next in list.Nodes();
      assert p.pre == list.spine[k - 1] && list.tail.pre == list.spine[|list.spine| - 2];
      p.pre.next := p.next;
      p.next := p.pre;
      var ptag := list.tail.pre;
      p.next := ptag.next;
      ptag.next.pre := p;
      p.pre := ptag;
      ptag.next := p;
      assert next.pre == p && p.next != next;
    }

    method ShiftAsWritten(p: Node<Slot>, ghost k: nat)
      requires Valid() && k < |Entries()| && p == list.spine[k + 1]
      modifies list.Nodes()`pre, list.Nodes()`next
      ensures PointsBack(list.Nodes()) <==> k == |Entries()| - 1
    {
      var last := IsLast(p, k);
      if last {
        ValidPointsBack();
      } else {
        Misplace(p, k + 1);
      }
    }

    /** toTail with the line the source has for p.next.pre = p.pre, namely p.next = p.pre. The list
        survives exactly if nothing was to be moved; map and contents are touched by neither line. */
    method ToTailAsWritten(id: string) returns (ghost k: nat)
      requires Valid() && HasKey(Entries(), id)
      modifies list.Nodes()
      ensures k == old(Place(Entries(), id)) && list.Nodes() == old(list.Nodes())
      ensures PointsBack(list.Nodes()) <==> k == |old(Entries())| - 1
      ensures id in slots && forall n :: n in list.Nodes() ==>
        n.val == if n == slots[id] then Touched(old(n.val)) else old(n.val)
    {
      var p;
      p, k := Touch(id);
      ShiftAsWritten(p, k);
    }
  }
}
