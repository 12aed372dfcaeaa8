/** The doubly linked list between two sentinels that txpool and cache both build by hand. */
module LinkedLists {

  class Node<T> {
    var val: T
    var pre: Node?<T>
    var next: Node?<T>

    constructor (val: T)
      ensures this.val == val && pre == null && next == null
    {
      this.val, pre, next := val, null, null;
    }
  }

  /** `s` with `x` put in at position k. */
  function Inserted<T>(s: seq<T>, k: nat, x: T): (r: seq<T>)
    requires k <= |s|
    ensures |r| == |s| + 1 && r[k] == x
    ensures forall i :: 0 <= i < k ==> r[i] == s[i]
    ensures forall i :: k < i < |r| ==> r[i] == s[i - 1]
  {
    s[..k] + [x] + s[k..]
  }

  /** `s` without position k. */
  function Cut<T>(s: seq<T>, k: nat): (r: seq<T>)
    requires k < |s|
    ensures |r| == |s| - 1
    ensures forall i :: 0 <= i < k ==> r[i] == s[i]
    ensures forall i :: k <= i < |r| ==> r[i] == s[i + 1]
  {
    s[..k] + s[k + 1..]
  }

  ghost function SetOf<T>(s: seq<T>): set<T> {
    set x | x in s
  }

  ghost predicate AllDistinct<T>(s: seq<T>) {
    forall i, j {:trigger s[i], s[j]} :: 0 <= i < j < |s| ==> s[i] != s[j]
  }

  lemma MiddleOfInserted<T>(s: seq<T>, k: nat, x: T)
    requires k < |s| - 1
    ensures Inserted(s, k + 1, x)[1..|s|] == Inserted(s[1..|s| - 1], k, x)
  {
  }

  lemma MiddleOfCut<T>(s: seq<T>, k: nat)
    requires 0 < k < |s| - 1
    ensures Cut(s, k)[1..|s| - 2] == Cut(s[1..|s| - 1], k - 1)
  {
  }

  lemma CutElements<T>(s: seq<T>, k: nat)
    requires k < |s| && forall i :: 0 <= i < |s| && i != k ==> s[i] != s[k]
    ensures forall y :: y in Cut(s, k) <==> y != s[k] && y in s
  {
    assert s == s[..k] + [s[k]] + s[k + 1..];
  }

  lemma InsertedElements<T>(s: seq<T>, k: nat, x: T)
    requires k <= |s|
    ensures forall y :: y in Inserted(s, k, x) <==> y == x || y in s
  {
    assert s == s[..k] + s[k..];
  }

  /** The values of `nodes`. */
  ghost function ValuesOf<T>(nodes: seq<Node<T>>): (s: seq<T>)
    reads nodes
    ensures |s| == |nodes|
    ensures forall i :: 0 <= i < |s| ==> s[i] == nodes[i].val
  {
    seq(|nodes|, (i: int) requires 0 <= i < |nodes| reads nodes => nodes[i].val)
  }

  ghost predicate Carry<T>(nodes: seq<Node<T>>, vals: seq<T>)
    reads (set n | n in nodes)`val
  {
    |nodes| == |vals| && forall i :: 0 <= i < |nodes| ==> nodes[i].val == vals[i]
  }

  lemma ValuesOfInserted<T>(nodes: seq<Node<T>>, vals: seq<T>, k: nat, p: Node<T>)
    requires k <= |nodes| && Carry(nodes, vals)
    ensures ValuesOf(Inserted(nodes, k, p)) == Inserted(vals, k, p.val)
  {
    var longer := Inserted(nodes, k, p);
    forall i | 0 <= i < |longer|
      ensures ValuesOf(longer)[i] == Inserted(vals, k, p.val)[i]
    {
      assert ValuesOf(longer)[i] == longer[i].val;
    }
  }

  lemma ValuesOfCut<T>(nodes: seq<Node<T>>, vals: seq<T>, k: nat)
    requires k < |nodes| && Carry(nodes, vals)
    ensures ValuesOf(Cut(nodes, k)) == Cut(vals, k)
  {
  }

  lemma ValuesOfRest<T>(nodes: seq<Node<T>>, vals: seq<T>, n: nat)
    requires n <= |nodes| && Carry(nodes, vals)
    ensures ValuesOf(nodes[n..]) == vals[n..]
  {
  }

  class LinkedList<T> {
    const head: Node<T>
    const tail: Node<T>
    /** All nodes in list order, sentinels included. */
    ghost var spine: seq<Node<T>>

    ghost function Nodes(): set<Node<T>>
      reads this
    {
      set n | n in spine
    }

    /** The nodes between the sentinels, as a set. */
    ghost function Held(): set<Node<T>>
      reads this
    {
      Nodes() - {head, tail}
    }

    ghost predicate Valid()
      reads this, Nodes()
    {
      && |spine| >= 2 && spine[0] == head && spine[|spine| - 1] == tail
      && head.pre == null && tail.next == null
      && (forall i {:trigger spine[i].next} :: 0 <= i < |spine| - 1 ==> spine[i].next == spine[i + 1])
      && (forall i {:trigger spine[i].pre} :: 0 < i < |spine| ==> spine[i].pre == spine[i - 1])
      && (forall i, j {:trigger spine[i], spine[j]} :: 0 <= i < j < |spine| ==> spine[i] != spine[j])
    }

    /** The nodes between the sentinels. */
    ghost function Inner(): (s: seq<Node<T>>)
      reads this
      requires |spine| >= 2
      ensures |s| == |spine| - 2
      ensures forall i :: 0 <= i < |s| ==> s[i] == spine[i + 1]
    {
      spine[1..|spine| - 1]
    }

    /** What the nodes between the sentinels hold. */
    ghost function Values(): (s: seq<T>)
      reads this, Nodes()
      requires |spine| >= 2
      ensures |s| == |spine| - 2
      ensures forall i :: 0 <= i < |s| ==> s[i] == spine[i + 1].val
    {
      ValuesOf(Inner())
    }

    lemma HeldIsInner()
      requires Valid()
      ensures SetOf(Inner()) == Held() && AllDistinct(Inner())
    {
      forall x | x in Held()
        ensures x in Inner()
      {
        var i :| 0 <= i < |spine| && spine[i] == x;
        assert Inner()[i - 1] == x;
      }
      forall x | x in Inner()
        ensures x in Held()
      {
        var i :| 0 <= i < |Inner()| && Inner()[i] == x;
        assert spine[i + 1] == x;
      }
    }

    constructor (unused: T)
      ensures Valid() && fresh(Nodes()) && Inner() == []
    {
      var p1 := new Node(unused);
      var p2 := new Node(unused);
      head := p1;
      tail := p2;
      spine := [p1, p2];
      new;
      p1.next := p2;
      p2.pre := p1;
    }

    /** Links the new node `p` in behind `ptag`, which stands at position k. */
    method InsertAfter(ptag: Node<T>, p: Node<T>, ghost k: nat)
      requires Valid() && k < |spine| - 1 && ptag == spine[k] && p !in spine
      modifies this, Nodes()`pre, Nodes()`next, p`pre, p`next
      ensures Valid() && spine == Inserted(old(spine), k + 1, p)
    {
      assert ptag.next == spine[k + 1];
      p.next := ptag.next;
      ptag.next.pre := p;
      p.pre := ptag;
      ptag.next := p;
      spine := Inserted(spine, k + 1, p);
    }

    /** Takes the node at position k out of the list. */
    method Unlink(p: Node<T>, ghost k: nat)
      requires Valid() && 0 < k < |spine| - 1 && p == spine[k]
      modifies this, Nodes()`pre, Nodes()`next
      ensures Valid() && spine == Cut(old(spine), k)
    {
      assert p.pre == spine[k - 1] && p.next == spine[k + 1];
      p.pre.next := p.next;
      p.next.pre := p.pre;
      spine := Cut(spine, k);
    }

    /** InsertAfter, by its values. */
    method Link(ptag: Node<T>, p: Node<T>, ghost k: nat)
      requires Valid() && k < |spine| - 1 && ptag == spine[k] && p !in spine
      modifies this, Nodes()`pre, Nodes()`next, p`pre, p`next
      ensures Valid() && Values() == Inserted(old(Values()), k, p.val)
      ensures Nodes() == old(Nodes()) + {p}
    {
      ghost var was, vals := Inner(), Values();
      MiddleOfInserted(spine, k, p);
      InsertedElements(spine, k + 1, p);
      InsertAfter(ptag, p, k);
      ValuesOfInserted(was, vals, k, p);
    }

    /** Unlink, by its values. */
    method UnlinkAt(p: Node<T>, ghost k: nat)
      requires Valid() && 0 < k < |spine| - 1 && p == spine[k]
      modifies this, Nodes()`pre, Nodes()`next
      ensures Valid() && Values() == Cut(old(Values()), k - 1)
      ensures Nodes() == old(Nodes()) - {p}
    {
      ghost var was, vals := Inner(), Values();
      MiddleOfCut(spine, k);
      CutElements(spine, k);
      Unlink(p, k);
      ValuesOfCut(was, vals, k - 1);
    }

    /** Overwrites what the node at position k holds. */
    method Overwrite(p: Node<T>, x: T, ghost k: nat)
      requires Valid() && 0 < k < |spine| - 1 && p == spine[k]
      modifies p`val
      ensures Valid() && Values() == old(Values())[k - 1 := x]
    {
      p.val := x;
    }

    /** Takes out the first `n` nodes at once; `p` is the first that stays. */
    method DropFront(p: Node<T>, ghost n: nat)
      requires Valid() && n < |spine| - 1 && p == spine[n + 1]
      modifies this, Nodes()`pre, Nodes()`next
      ensures Valid() && spine == [head] + old(spine)[n + 1..]
    {
      head.next := p;
      p.pre := head;
      ghost var rest := spine[n + 1..];
      assert forall i :: 0 <= i < |rest| ==> rest[i] == spine[n + 1 + i];
      spine := [head] + rest;
    }
  }
}
