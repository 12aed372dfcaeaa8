/** The Merkle tree over a block's transactions (MerkleTree/merkel.go). The hash function is a
    parameter; nothing is assumed of it beyond the width of its values where that matters. */
module Merkle {
  import opened Bytes
  import opened Wrappers

  type Hasher = Bytes -> Bytes

  /** The shape of a finished tree: nodes have two children or none. */
  datatype Tree = Leaf(data: Bytes) | Fork(left: Tree, right: Tree, data: Bytes)

  // ---------------------------------------------------------------- construction, as values

  /** A list of odd length gets its last element once more. */
  function PadEven<T>(s: seq<T>): (r: seq<T>)
    ensures |r| % 2 == 0 && (s != [] ==> r != [])
  {
    if |s| % 2 != 0 then s + [s[|s| - 1]] else s
  }

  /** Above the leaves the repeated last node is a copy without children. */
  function PadTrees(ts: seq<Tree>): (r: seq<Tree>)
    ensures |r| % 2 == 0
  {
    if |ts| % 2 != 0 then ts + [Leaf(ts[|ts| - 1].data)] else ts
  }

  function Pair(h: Hasher, l: Tree, r: Tree): Tree {
    Fork(l, r, h(l.data + r.data))
  }

  function Pairs(h: Hasher, ts: seq<Tree>): (r: seq<Tree>)
    requires |ts| % 2 == 0
    ensures |r| == |ts| / 2
    ensures forall k :: 0 <= k < |r| ==> r[k] == Pair(h, ts[2 * k], ts[2 * k + 1])
  {
    if ts == [] then [] else Pairs(h, ts[..|ts| - 2]) + [Pair(h, ts[|ts| - 2], ts[|ts| - 1])]
  }

  function LevelUp(h: Hasher, ts: seq<Tree>): (r: seq<Tree>)
    ensures |r| == (|ts| + 1) / 2
  {
    Pairs(h, PadTrees(ts))
  }

  function Build(h: Hasher, ts: seq<Tree>, isLeaf: bool): Tree
    requires ts != []
    decreases |ts|, isLeaf
  {
    if !isLeaf && |ts| == 1 then ts[0] else Build(h, LevelUp(h, ts), false)
  }

  function Leaves(h: Hasher, data: seq<Bytes>): (ts: seq<Tree>)
    ensures |ts| == |data|
    ensures forall k :: 0 <= k < |ts| ==> ts[k] == Leaf(h(data[k]))
  {
    if data == [] then [] else Leaves(h, data[..|data| - 1]) + [Leaf(h(data[|data| - 1]))]
  }

  function MerkleTree(h: Hasher, data: seq<Bytes>): Tree
    requires data != []
  {
    Build(h, Leaves(h, PadEven(data)), true)
  }

  // ---------------------------------------------------------------- construction, on the heap

  class MerkleNode {
    var left: MerkleNode?
    var right: MerkleNode?
    const data: Bytes

    constructor (left: MerkleNode?, right: MerkleNode?, data: Bytes)
      ensures this.left == left && this.right == right && this.data == data
    {
      this.left, this.right, this.data := left, right, data;
    }
  }

  /** The nodes in `objs` reachable from `n` form the tree `t`. */
  ghost predicate Shows(n: MerkleNode, t: Tree, objs: set<MerkleNode>)
    reads objs
    decreases t
  {
    n in objs && n.data == t.data &&
    match t
    case Leaf(_) => n.left == null && n.right == null
    case Fork(l, r, _) => n.left != null && n.right != null && Shows(n.left, l, objs) && Shows(n.right, r, objs)
  }

  lemma {:induction false} ShowsMore(n: MerkleNode, t: Tree, objs: set<MerkleNode>, more: set<MerkleNode>)
    requires Shows(n, t, objs) && objs <= more
    ensures Shows(n, t, more)
    decreases t
  {
    if t.Fork? {
      ShowsMore(n.left, t.left, objs, more);
      ShowsMore(n.right, t.right, objs, more);
    }
  }

  ghost predicate AllShow(ns: seq<MerkleNode>, ts: seq<Tree>, objs: set<MerkleNode>)
    reads objs
  {
    |ns| == |ts| && forall k :: 0 <= k < |ns| ==> Shows(ns[k], ts[k], objs)
  }

  /** A parent for every two nodes. */
  method Parents(h: Hasher, nodes: seq<MerkleNode>, ghost ts: seq<Tree>)
    returns (parents: seq<MerkleNode>, ghost made: set<MerkleNode>)
    requires |nodes| == |ts| && |nodes| % 2 == 0 && forall k :: 0 <= k < |nodes| ==> nodes[k].data == ts[k].data
    ensures |parents| == |nodes| / 2 && fresh(made)
    ensures forall k :: 0 <= k < |parents| ==>
      && parents[k] in made && parents[k].left == nodes[2 * k] && parents[k].right == nodes[2 * k + 1]
      && parents[k].data == h(ts[2 * k].data + ts[2 * k + 1].data)
  {
    parents, made := [], {};
    for i := 0 to |nodes| / 2
      invariant |parents| == i && fresh(made)
      invariant forall k :: 0 <= k < i ==>
        && parents[k] in made && parents[k].left == nodes[2 * k] && parents[k].right == nodes[2 * k + 1]
        && parents[k].data == h(ts[2 * k].data + ts[2 * k + 1].data)
    {
      var node := new MerkleNode(nodes[2 * i], nodes[2 * i + 1], h(nodes[2 * i].data + nodes[2 * i + 1].data));
      parents := parents + [node];
      made := made + {node};
    }
  }

  /** The level above. The repeated node of an odd level is a copy that loses its children once its
      parent has been made. */
  method NextLevel(h: Hasher, nodes: seq<MerkleNode>, ghost ts: seq<Tree>, ghost objs: set<MerkleNode>)
    returns (parents: seq<MerkleNode>, ghost out: set<MerkleNode>)
    requires nodes != [] && AllShow(nodes, ts, objs)
    ensures objs <= out && fresh(out - objs)
    ensures AllShow(parents, LevelUp(h, ts), out)
  {
    var merkleNodes := nodes;
    var isHaveCopy := |nodes| % 2 != 0;
    out := objs;
    if isHaveCopy {
      var last := nodes[|nodes| - 1];
      var copyNode := new MerkleNode(last.left, last.right, last.data);
      merkleNodes := merkleNodes + [copyNode];
      out := out + {copyNode};
    }
    ghost var padded := PadTrees(ts);
    ghost var made;
    parents, made := Parents(h, merkleNodes, padded);
    out := out + made;
    if isHaveCopy {
      merkleNodes[|merkleNodes| - 1].right := null;
      merkleNodes[|merkleNodes| - 1].left := null;
    }
    forall k | 0 <= k < |merkleNodes|
      ensures Shows(merkleNodes[k], padded[k], out)
    {
      if k < |nodes| {
        ShowsMore(nodes[k], ts[k], objs, out);
      }
    }
  }

  /** One level after another until a single node is left. */
  method GetMerkleNode(h: Hasher, nodes: seq<MerkleNode>, isLeaf: bool, ghost ts: seq<Tree>,
                       ghost objs: set<MerkleNode>)
    returns (root: MerkleNode, ghost out: set<MerkleNode>)
    requires nodes != [] && AllShow(nodes, ts, objs)
    ensures objs <= out && fresh(out - objs)
    ensures Shows(root, Build(h, ts, isLeaf), out)
    decreases |nodes|, isLeaf
  {
    if !isLeaf && |nodes| == 1 {
      return nodes[0], objs;
    }
    var parents;
    ghost var above;
    parents, above := NextLevel(h, nodes, ts, objs);
    root, out := GetMerkleNode(h, parents, false, LevelUp(h, ts), above);
  }

  /** A node without children for each datum. */
  method MakeLeaves(h: Hasher, data: seq<Bytes>) returns (nodes: seq<MerkleNode>, ghost objs: set<MerkleNode>)
    ensures fresh(objs) && AllShow(nodes, Leaves(h, data), objs)
  {
    nodes, objs := [], {};
    for i := 0 to |data|
      invariant |nodes| == i && fresh(objs)
      invariant forall k :: 0 <= k < i ==>
        nodes[k] in objs && nodes[k].data == h(data[k]) && nodes[k].left == null && nodes[k].right == null
    {
      var node := new MerkleNode(null, null, h(data[i]));
      nodes := nodes + [node];
      objs := objs + {node};
    }
  }

  method GetMerkleRoot(h: Hasher, data: seq<Bytes>) returns (root: MerkleNode, hash: Bytes, ghost objs: set<MerkleNode>)
    requires data != []
    ensures fresh(objs) && Shows(root, MerkleTree(h, data), objs)
    ensures hash == MerkleTree(h, data).data
  {
    var padded := data;
    if |data| % 2 != 0 {
      padded := padded + [data[|data| - 1]];
    }
    var nodes;
    nodes, objs := MakeLeaves(h, padded);
    root, objs := GetMerkleNode(h, nodes, true, Leaves(h, padded), objs);
    hash := root.data;
  }

  // ---------------------------------------------------------------- the path search

  /** Depth-first, left before right; `prove` holds the data from the root down to here. */
  function Search(t: Tree, hash: Bytes, prove: seq<Bytes>): Option<seq<Bytes>> {
    if t.data == hash then Some(prove + [t.data])
    else
      match t
      case Leaf(_) => None
      case Fork(l, r, _) =>
        var p := Search(l, hash, prove + [t.data]);
        if p.Some? then p else Search(r, hash, prove + [t.data])
  }

  method GetNodeProve(n: MerkleNode, hash: Bytes, prove: seq<Bytes>, ghost t: Tree, ghost objs: set<MerkleNode>)
    returns (p: Option<seq<Bytes>>)
    requires Shows(n, t, objs)
    ensures p == Search(t, hash, prove)
    decreases t
  {
    if n.data == hash {
      return Some(prove + [n.data]);
    }
    var longer := prove + [n.data];
    p := None;
    if n.left != null {
      p := GetNodeProve(n.left, hash, longer, t.left, objs);
      if p.Some? {
        return;
      }
    }
    if n.right != null {
      p := GetNodeProve(n.right, hash, longer, t.right, objs);
    }
  }

  /** The outcome of GetProve: an error for empty data, else a path or nil. */
  datatype Prove = EmptyDataError | Path(path: Option<seq<Bytes>>)

  function ProveOf(h: Hasher, t: Tree, datum: Bytes): Prove {
    if datum == [] then EmptyDataError else Path(Search(t, h(datum), []))
  }

  method GetProve(h: Hasher, root: MerkleNode, datum: Bytes, ghost t: Tree, ghost objs: set<MerkleNode>)
    returns (r: Prove)
    requires Shows(root, t, objs)
    ensures r == ProveOf(h, t, datum) && (r.EmptyDataError? <==> datum == [])
  {
    if |datum| == 0 {
      return EmptyDataError;
    }
    var p := GetNodeProve(root, h(datum), [], t, objs);
    r := Path(p);
  }

  /** The last parent of an odd level: on the left the last node, on the right its copy, which has lost its
      children. */
  lemma CopyIsBare(h: Hasher, ts: seq<Tree>)
    requires |ts| % 2 == 1
    ensures var k, last := |ts| / 2, ts[|ts| - 1];
      LevelUp(h, ts)[k].Fork? && LevelUp(h, ts)[k].left == last && LevelUp(h, ts)[k].right == Leaf(last.data)
  {
    assert LevelUp(h, ts)[|ts| / 2] == Pair(h, PadTrees(ts)[2 * (|ts| / 2)], PadTrees(ts)[2 * (|ts| / 2) + 1]);
  }

  // ---------------------------------------------------------------- hashes alone

  function Hashes(ts: seq<Tree>): (r: seq<Bytes>)
    ensures |r| == |ts|
    ensures forall k :: 0 <= k < |r| ==> r[k] == ts[k].data
  {
    if ts == [] then [] else Hashes(ts[..|ts| - 1]) + [ts[|ts| - 1].data]
  }

  /** The strings hashed to get from one level to the next. */
  function Joined(hs: seq<Bytes>): (r: seq<Bytes>)
    requires |hs| % 2 == 0
    ensures |r| == |hs| / 2
    ensures forall k :: 0 <= k < |r| ==> r[k] == hs[2 * k] + hs[2 * k + 1]
  {
    if hs == [] then [] else Joined(hs[..|hs| - 2]) + [hs[|hs| - 2] + hs[|hs| - 1]]
  }

  function HashAll(h: Hasher, xs: seq<Bytes>): (r: seq<Bytes>)
    ensures |r| == |xs|
    ensures forall k :: 0 <= k < |r| ==> r[k] == h(xs[k])
  {
    if xs == [] then [] else HashAll(h, xs[..|xs| - 1]) + [h(xs[|xs| - 1])]
  }

  /** The hashes of the next level. */
  function Up(h: Hasher, hs: seq<Bytes>): (r: seq<Bytes>)
    ensures |r| == (|hs| + 1) / 2
  {
    HashAll(h, Joined(PadEven(hs)))
  }

  /** The root hash of a level of hashes. */
  function Fold(h: Hasher, hs: seq<Bytes>, isLeaf: bool): Bytes
    requires hs != []
    decreases |hs|, isLeaf
  {
    if !isLeaf && |hs| == 1 then hs[0] else Fold(h, Up(h, hs), false)
  }

  function RootHash(h: Hasher, data: seq<Bytes>): Bytes
    requires data != []
  {
    Fold(h, HashAll(h, PadEven(data)), true)
  }

  lemma {:induction false} BuildFolds(h: Hasher, ts: seq<Tree>, isLeaf: bool)
    requires ts != []
    ensures Build(h, ts, isLeaf).data == Fold(h, Hashes(ts), isLeaf)
    decreases |ts|, isLeaf
  {
    if isLeaf || |ts| != 1 {
      LevelUpHashes(h, ts);
      BuildFolds(h, LevelUp(h, ts), false);
    }
  }

  lemma PadTreesHashes(ts: seq<Tree>)
    ensures Hashes(PadTrees(ts)) == PadEven(Hashes(ts))
  {
    var padded, hs := PadTrees(ts), PadEven(Hashes(ts));
    forall k | 0 <= k < |padded|
      ensures padded[k].data == hs[k]
    {
      if k < |ts| {
        assert Hashes(ts)[k] == ts[k].data;
      }
    }
  }

  lemma PairsHashes(h: Hasher, ts: seq<Tree>)
    requires |ts| % 2 == 0
    ensures Hashes(Pairs(h, ts)) == HashAll(h, Joined(Hashes(ts)))
  {
    forall k | 0 <= k < |ts| / 2
      ensures Hashes(Pairs(h, ts))[k] == HashAll(h, Joined(Hashes(ts)))[k]
    {
      assert Pairs(h, ts)[k].data == h(ts[2 * k].data + ts[2 * k + 1].data);
      assert Joined(Hashes(ts))[k] == Hashes(ts)[2 * k] + Hashes(ts)[2 * k + 1];
    }
  }

  lemma LevelUpHashes(h: Hasher, ts: seq<Tree>)
    ensures Hashes(LevelUp(h, ts)) == Up(h, Hashes(ts))
  {
    PadTreesHashes(ts);
    PairsHashes(h, PadTrees(ts));
  }

  lemma LeavesHashes(h: Hasher, data: seq<Bytes>)
    ensures Hashes(Leaves(h, data)) == HashAll(h, data)
  {
  }

  /** The tree's root carries the hash that depends on the data alone. */
  lemma RootCarriesRootHash(h: Hasher, data: seq<Bytes>)
    requires data != []
    ensures MerkleTree(h, data).data == RootHash(h, data)
  {
    BuildFolds(h, Leaves(h, PadEven(data)), true);
    LeavesHashes(h, PadEven(data));
  }

  // ---------------------------------------------------------------- what is hashed

  ghost function Elements(s: seq<Bytes>): set<Bytes> {
    set x | x in s
  }

  /** The strings hashed on the way from a level of hashes to the root. */
  ghost function InnerInputs(h: Hasher, hs: seq<Bytes>, isLeaf: bool): set<Bytes>
    requires hs != []
    decreases |hs|, isLeaf
  {
    if !isLeaf && |hs| == 1 then {} else
      Elements(Joined(PadEven(hs))) + InnerInputs(h, Up(h, hs), false)
  }

  /** Every string hashed in building the tree over `data`. */
  ghost function Inputs(h: Hasher, data: seq<Bytes>): set<Bytes>
    requires data != []
  {
    Elements(data) + InnerInputs(h, HashAll(h, PadEven(data)), true)
  }

  ghost predicate Collision(h: Hasher, xs: set<Bytes>, ys: set<Bytes>) {
    exists x, y :: x in xs && y in ys && x != y && h(x) == h(y)
  }

  ghost predicate FixedWidth(h: Hasher, width: nat) {
    forall x :: |h(x)| == width
  }

  predicate AllWide(hs: seq<Bytes>, width: nat) {
    forall k :: 0 <= k < |hs| ==> |hs[k]| == width
  }

  lemma HashAllInjective(h: Hasher, xs: seq<Bytes>, ys: seq<Bytes>, xset: set<Bytes>, yset: set<Bytes>)
    requires |xs| == |ys| && HashAll(h, xs) == HashAll(h, ys)
    requires Elements(xs) <= xset && Elements(ys) <= yset
    ensures xs == ys || Collision(h, xset, yset)
  {
    if xs != ys {
      var k :| 0 <= k < |xs| && xs[k] != ys[k];
      assert h(xs[k]) == HashAll(h, xs)[k] == HashAll(h, ys)[k] == h(ys[k]);
      assert xs[k] in Elements(xs) && ys[k] in Elements(ys);
    }
  }

  lemma {:induction false} JoinedInjective(a: seq<Bytes>, b: seq<Bytes>, width: nat)
    requires |a| == |b| && |a| % 2 == 0 && AllWide(a, width) && AllWide(b, width)
    requires Joined(a) == Joined(b)
    ensures a == b
  {
    if a != [] {
      var n := |a| - 2;
      var lastA, lastB := a[n] + a[n + 1], b[n] + b[n + 1];
      assert (Joined(a[..n]) + [lastA])[..|a| / 2 - 1] == Joined(a[..n]);
      assert (Joined(b[..n]) + [lastB])[..|a| / 2 - 1] == Joined(b[..n]);
      JoinedInjective(a[..n], b[..n], width);
      assert lastA == Joined(a)[|a| / 2 - 1] == lastB;
      SplitSame(a[n], a[n + 1], b[n], b[n + 1]);
      assert a == a[..n] + [a[n], a[n + 1]] && b == b[..n] + [b[n], b[n + 1]];
    }
  }

  lemma SplitSame(a: Bytes, b: Bytes, c: Bytes, d: Bytes)
    requires |a| == |c| && a + b == c + d
    ensures a == c && b == d
  {
    assert a == (a + b)[..|a|] && c == (c + d)[..|c|];
    assert b == (a + b)[|a|..] && d == (c + d)[|c|..];
  }

  lemma PadEvenInjective<T>(a: seq<T>, b: seq<T>)
    requires |a| == |b| && PadEven(a) == PadEven(b)
    ensures a == b
  {
    assert a == PadEven(a)[..|a|] && b == PadEven(b)[..|b|];
  }

  lemma FoldUp(h: Hasher, hs: seq<Bytes>, isLeaf: bool)
    requires hs != [] && (isLeaf || |hs| != 1)
    ensures Fold(h, hs, isLeaf) == Fold(h, Up(h, hs), false)
    ensures InnerInputs(h, hs, isLeaf) == Elements(Joined(PadEven(hs))) + InnerInputs(h, Up(h, hs), false)
  {
  }

  lemma UpWide(h: Hasher, width: nat, hs: seq<Bytes>)
    requires FixedWidth(h, width)
    ensures AllWide(Up(h, hs), width)
  {
  }

  lemma PadMembers(a: seq<Bytes>)
    ensures Elements(PadEven(a)) == Elements(a)
  {
  }

  // ---------------------------------------------------------------- paths

  /** From a node's data through its children's, one level a step. */
  predicate PathIn(t: Tree, path: seq<Bytes>)
    decreases t
  {
    && path != [] && path[0] == t.data
    && (|path| == 1 || (t.Fork? && (PathIn(t.left, path[1..]) || PathIn(t.right, path[1..]))))
  }

  function Datas(t: Tree): set<Bytes> {
    match t
    case Leaf(data) => {data}
    case Fork(l, r, data) => {data} + Datas(l) + Datas(r)
  }

  /** The search finds a hash exactly when some node carries it. */
  lemma {:induction false} SearchFinds(t: Tree, hash: Bytes, prove: seq<Bytes>)
    ensures Search(t, hash, prove).Some? <==> hash in Datas(t)
    decreases t
  {
    if t.Fork? {
      SearchFinds(t.left, hash, prove + [t.data]);
      SearchFinds(t.right, hash, prove + [t.data]);
    }
  }

  /** What it returns continues `prove` by a path from this node to the hash. */
  lemma {:induction false} SearchPath(t: Tree, hash: Bytes, prove: seq<Bytes>) returns (q: seq<Bytes>)
    requires Search(t, hash, prove).Some?
    ensures Search(t, hash, prove).value == prove + q
    ensures PathIn(t, q) && q[|q| - 1] == hash
    decreases t
  {
    if t.data == hash {
      q := [t.data];
    } else {
      var onLeft := Search(t.left, hash, prove + [t.data]).Some?;
      var rest := SearchPath(if onLeft then t.left else t.right, hash, prove + [t.data]);
      q := [t.data] + rest;
      assert q[1..] == rest;
      assert prove + [t.data] + rest == prove + q;
    }
  }

  /** A way down a tree: at each fork to the right or not. */
  type Way = seq<bool>

  predicate Leads(t: Tree, way: Way)
    decreases t
  {
    way == [] || (t.Fork? && Leads(if way[0] then t.right else t.left, way[1..]))
  }

  function NodeAt(t: Tree, way: Way): Tree
    requires Leads(t, way)
    decreases t
  {
    if way == [] then t else NodeAt(if way[0] then t.right else t.left, way[1..])
  }

  /** The data on the way, from this node down. */
  function Along(t: Tree, way: Way): seq<Bytes>
    requires Leads(t, way)
    decreases t
  {
    [t.data] + if way == [] then [] else Along(if way[0] then t.right else t.left, way[1..])
  }

  /** A node comes before those below it, and what is on its left before what is on its right. */
  predicate ComesFirst(way: Way, other: Way)
    decreases |way|
  {
    way == [] || (other != [] && if way[0] == other[0] then ComesFirst(way[1..], other[1..]) else other[0])
  }

  ghost predicate FirstWith(t: Tree, hash: Bytes, way: Way) {
    && Leads(t, way) && NodeAt(t, way).data == hash
    && forall other :: Leads(t, other) && NodeAt(t, other).data == hash ==> ComesFirst(way, other)
  }

  lemma {:induction false} WayIn(t: Tree, way: Way)
    requires Leads(t, way)
    ensures NodeAt(t, way).data in Datas(t)
    decreases t
  {
    if way != [] {
      WayIn(if way[0] then t.right else t.left, way[1..]);
    }
  }

  lemma FirstBelow(t: Tree, hash: Bytes, right: bool, way: Way)
    requires t.Fork? && t.data != hash && FirstWith(if right then t.right else t.left, hash, way)
    requires right ==> hash !in Datas(t.left)
    ensures FirstWith(t, hash, [right] + way)
  {
    assert ([right] + way)[1..] == way;
    forall other | Leads(t, other) && NodeAt(t, other).data == hash
      ensures ComesFirst([right] + way, other)
    {
      if other[0] == right {
        assert ComesFirst(way, other[1..]);
      } else if right {
        WayIn(t.left, other[1..]);
      }
    }
  }

  lemma AlongBelow(t: Tree, right: bool, way: Way, prove: seq<Bytes>)
    requires t.Fork? && Leads(if right then t.right else t.left, way)
    ensures Leads(t, [right] + way)
    ensures prove + Along(t, [right] + way) == prove + [t.data] + Along(if right then t.right else t.left, way)
  {
    assert ([right] + way)[1..] == way;
  }

  /** The search takes the first node that carries the hash, parents before children and left before
      right, and returns the data on the way to it. */
  lemma {:induction false} SearchIsFirst(t: Tree, hash: Bytes, prove: seq<Bytes>) returns (way: Way)
    requires hash in Datas(t)
    ensures FirstWith(t, hash, way) && Search(t, hash, prove) == Some(prove + Along(t, way))
    decreases t
  {
    if t.data == hash {
      way := [];
      assert Along(t, way) == [t.data];
    } else {
      SearchFinds(t.left, hash, prove + [t.data]);
      var right := hash !in Datas(t.left);
      var below := SearchIsFirst(if right then t.right else t.left, hash, prove + [t.data]);
      way := [right] + below;
      FirstBelow(t, hash, right, below);
      AlongBelow(t, right, below, prove);
      assert Search(if right then t.right else t.left, hash, prove + [t.data]).Some?;
      assert Search(t, hash, prove) == Search(if right then t.right else t.left, hash, prove + [t.data]);
    }
  }

  ghost predicate InSome(ts: seq<Tree>, d: Bytes) {
    exists k :: 0 <= k < |ts| && d in Datas(ts[k])
  }

  ghost predicate HashOfSome(h: Hasher, xs: set<Bytes>, d: Bytes) {
    exists x :: x in xs && h(x) == d
  }

  lemma PairDatas(h: Hasher, ts: seq<Tree>, k: nat, d: Bytes)
    requires |ts| % 2 == 0 && k < |ts| / 2
    ensures d in Datas(Pairs(h, ts)[k])
      <==> d in Datas(ts[2 * k]) || d in Datas(ts[2 * k + 1]) || d == h(Joined(Hashes(ts))[k])
  {
    assert Pairs(h, ts)[k] == Pair(h, ts[2 * k], ts[2 * k + 1]);
    assert Joined(Hashes(ts))[k] == Hashes(ts)[2 * k] + Hashes(ts)[2 * k + 1];
  }

  lemma PairedFrom(h: Hasher, ts: seq<Tree>, d: Bytes)
    requires |ts| % 2 == 0 && InSome(Pairs(h, ts), d)
    ensures InSome(ts, d) || HashOfSome(h, Elements(Joined(Hashes(ts))), d)
  {
    var k :| 0 <= k < |Pairs(h, ts)| && d in Datas(Pairs(h, ts)[k]);
    PairDatas(h, ts, k, d);
    assert Joined(Hashes(ts))[k] in Elements(Joined(Hashes(ts)));
  }

  lemma PairedFromTree(h: Hasher, ts: seq<Tree>, d: Bytes, i: nat)
    requires |ts| % 2 == 0 && i < |ts| && d in Datas(ts[i])
    ensures InSome(Pairs(h, ts), d)
  {
    assert i == 2 * (i / 2) || i == 2 * (i / 2) + 1;
    PairDatas(h, ts, i / 2, d);
  }

  lemma PairedFromHash(h: Hasher, ts: seq<Tree>, d: Bytes, k: nat)
    requires |ts| % 2 == 0 && k < |ts| / 2 && d == h(Joined(Hashes(ts))[k])
    ensures InSome(Pairs(h, ts), d)
  {
    PairDatas(h, ts, k, d);
  }

  lemma PairedDatas(h: Hasher, ts: seq<Tree>, d: Bytes)
    requires |ts| % 2 == 0
    ensures InSome(Pairs(h, ts), d) <==> InSome(ts, d) || HashOfSome(h, Elements(Joined(Hashes(ts))), d)
  {
    if InSome(Pairs(h, ts), d) {
      PairedFrom(h, ts, d);
    } else if InSome(ts, d) {
      var i :| 0 <= i < |ts| && d in Datas(ts[i]);
      PairedFromTree(h, ts, d, i);
    } else if HashOfSome(h, Elements(Joined(Hashes(ts))), d) {
      var x :| x in Elements(Joined(Hashes(ts))) && h(x) == d;
      var k :| 0 <= k < |ts| / 2 && Joined(Hashes(ts))[k] == x;
      PairedFromHash(h, ts, d, k);
    }
  }

  lemma PaddedDatas(ts: seq<Tree>, d: Bytes)
    ensures InSome(PadTrees(ts), d) <==> InSome(ts, d)
  {
    if InSome(PadTrees(ts), d) {
      var k :| 0 <= k < |PadTrees(ts)| && d in Datas(PadTrees(ts)[k]);
      if k == |ts| {
        assert d == ts[|ts| - 1].data;
        assert d in Datas(ts[|ts| - 1]);
      } else {
        assert d in Datas(ts[k]);
      }
    }
    if InSome(ts, d) {
      var k :| 0 <= k < |ts| && d in Datas(ts[k]);
      assert d in Datas(PadTrees(ts)[k]);
    }
  }

  /** Nothing gets lost on the way up, though copies lose their children: the finished tree carries
      what the first level carried and the hashes of all joined strings. */
  lemma {:induction false} BuiltDatas(h: Hasher, ts: seq<Tree>, isLeaf: bool, d: Bytes)
    requires ts != []
    ensures d in Datas(Build(h, ts, isLeaf)) <==> InSome(ts, d) || HashOfSome(h, InnerInputs(h, Hashes(ts), isLeaf), d)
    decreases |ts|, isLeaf
  {
    if !isLeaf && |ts| == 1 {
      assert InSome(ts, d) <==> d in Datas(ts[0]);
    } else {
      BuiltDatas(h, LevelUp(h, ts), false, d);
      LevelUpHashes(h, ts);
      PairedDatas(h, PadTrees(ts), d);
      PaddedDatas(ts, d);
      PadTreesHashes(ts);
      FoldUp(h, Hashes(ts), isLeaf);
      HashOfUnion(h, Elements(Joined(PadEven(Hashes(ts)))), InnerInputs(h, Up(h, Hashes(ts)), false), d);
    }
  }

  lemma HashOfUnion(h: Hasher, xs: set<Bytes>, ys: set<Bytes>, d: Bytes)
    ensures HashOfSome(h, xs + ys, d) <==> HashOfSome(h, xs, d) || HashOfSome(h, ys, d)
  {
  }

  lemma LeafDatas(h: Hasher, data: seq<Bytes>, d: Bytes)
    ensures InSome(Leaves(h, data), d) <==> HashOfSome(h, Elements(data), d)
  {
    if HashOfSome(h, Elements(data), d) {
      var x :| x in Elements(data) && h(x) == d;
      var k :| 0 <= k < |data| && data[k] == x;
      assert d in Datas(Leaves(h, data)[k]);
    }
    if InSome(Leaves(h, data), d) {
      var k :| 0 <= k < |data| && d in Datas(Leaves(h, data)[k]);
      assert data[k] in Elements(data);
    }
  }

  lemma TreeDatas(h: Hasher, data: seq<Bytes>, d: Bytes)
    requires data != []
    ensures d in Datas(MerkleTree(h, data)) <==> HashOfSome(h, Inputs(h, data), d)
  {
    BuiltDatas(h, Leaves(h, PadEven(data)), true, d);
    LeavesHashes(h, PadEven(data));
    LeafDatas(h, PadEven(data), d);
    PadMembers(data);
    HashOfUnion(h, Elements(data), InnerInputs(h, HashAll(h, PadEven(data)), true), d);
  }

  /** GetProve gives a path exactly for the data whose hash is the hash of something that went into
      the tree. */
  lemma ProofIffHashed(h: Hasher, data: seq<Bytes>, datum: Bytes)
    requires data != [] && datum != []
    ensures ProveOf(h, MerkleTree(h, data), datum).path.Some? <==> HashOfSome(h, Inputs(h, data), h(datum))
  {
    SearchFinds(MerkleTree(h, data), h(datum), []);
    TreeDatas(h, data, h(datum));
  }

  /** The path starts at the root hash, steps from parent to child and ends at the datum's hash. */
  lemma ProofIsPath(h: Hasher, data: seq<Bytes>, datum: Bytes)
    requires data != [] && datum != [] && ProveOf(h, MerkleTree(h, data), datum).path.Some?
    ensures var p := ProveOf(h, MerkleTree(h, data), datum).path.value;
      PathIn(MerkleTree(h, data), p) && p[0] == RootHash(h, data) && p[|p| - 1] == h(datum)
  {
    var q := SearchPath(MerkleTree(h, data), h(datum), []);
    assert [] + q == q;
    RootCarriesRootHash(h, data);
  }

  lemma HashOfMember(h: Hasher, xs: set<Bytes>, x: Bytes)
    requires x in xs
    ensures HashOfSome(h, xs, h(x))
  {
  }

  /** Every member has a path, though copied nodes lose their children. */
  lemma MembersHaveProofs(h: Hasher, data: seq<Bytes>, datum: Bytes)
    requires datum in data && datum != []
    ensures ProveOf(h, MerkleTree(h, data), datum).path.Some?
  {
    assert datum in Elements(data);
    HashOfMember(h, Inputs(h, data), datum);
    ProofIffHashed(h, data, datum);
  }

  /** A string that was not hashed for the tree has none, unless its hash collides. */
  lemma OutsidersHaveNone(h: Hasher, data: seq<Bytes>, datum: Bytes)
    requires data != [] && datum != [] && datum !in Inputs(h, data) && !Collision(h, {datum}, Inputs(h, data))
    ensures ProveOf(h, MerkleTree(h, data), datum).path.None?
  {
    ProofIffHashed(h, data, datum);
    assert datum in {datum};
  }

  /** Leaves and inner nodes are hashed alike, so the joined hashes of two neighbours are taken for
      a member. */
  lemma JoinedHashesPassForMember(h: Hasher, data: seq<Bytes>, k: nat)
    requires 2 * k + 1 < |data| && h(data[2 * k]) + h(data[2 * k + 1]) != []
    ensures ProveOf(h, MerkleTree(h, data), h(data[2 * k]) + h(data[2 * k + 1])).path.Some?
  {
    var hs := HashAll(h, PadEven(data));
    var x := h(data[2 * k]) + h(data[2 * k + 1]);
    assert Joined(PadEven(hs))[k] == x;
    assert x in Elements(Joined(PadEven(hs)));
    FoldUp(h, hs, true);
    HashOfMember(h, Inputs(h, data), x);
    ProofIffHashed(h, data, x);
  }

  // ---------------------------------------------------------------- path length

  /** The number of levels above a level of n nodes. */
  function Levels(n: nat, isLeaf: bool): nat
    requires n > 0
    decreases n, isLeaf
  {
    if !isLeaf && n == 1 then 0 else 1 + Levels((n + 1) / 2, false)
  }

  /** `d` occurs in `t` only `depth` levels below the root. */
  predicate OnlyAt(t: Tree, d: Bytes, depth: nat) {
    && (t.data == d ==> depth == 0)
    && (t.Fork? ==> if depth == 0 then d !in Datas(t.left) && d !in Datas(t.right)
                    else OnlyAt(t.left, d, depth - 1) && OnlyAt(t.right, d, depth - 1))
  }

  lemma {:induction false} PathLength(t: Tree, d: Bytes, depth: nat, path: seq<Bytes>)
    requires OnlyAt(t, d, depth) && PathIn(t, path) && path[|path| - 1] == d
    ensures |path| == depth + 1
    decreases t
  {
    if |path| > 1 {
      var sub := if PathIn(t.left, path[1..]) then t.left else t.right;
      if depth == 0 {
        EndsInside(sub, path[1..]);
        assert false;
      }
      PathLength(sub, d, depth - 1, path[1..]);
    }
  }

  lemma {:induction false} EndsInside(t: Tree, path: seq<Bytes>)
    requires PathIn(t, path)
    ensures path[|path| - 1] in Datas(t)
    decreases t
  {
    if |path| > 1 {
      EndsInside(if PathIn(t.left, path[1..]) then t.left else t.right, path[1..]);
    }
  }

  lemma LevelDepth(h: Hasher, ts: seq<Tree>, d: Bytes, depth: nat, k: nat)
    requires forall i :: 0 <= i < |ts| ==> OnlyAt(ts[i], d, depth)
    requires |ts| % 2 == 0 || depth > 0
    requires |ts| % 2 != 0 ==> ts[|ts| - 1].data != d
    requires k < (|ts| + 1) / 2 && LevelUp(h, ts)[k].data != d
    ensures OnlyAt(LevelUp(h, ts)[k], d, depth + 1)
  {
    var l, r := PadTrees(ts)[2 * k], PadTrees(ts)[2 * k + 1];
    assert LevelUp(h, ts)[k] == Pair(h, l, r);
    assert OnlyAt(l, d, depth) && OnlyAt(r, d, depth);
  }

  predicate AllOnlyAt(ts: seq<Tree>, d: Bytes, depth: nat) {
    forall i :: 0 <= i < |ts| ==> OnlyAt(ts[i], d, depth)
  }

  /** `d` is not the hash of a string joined above this level. */
  ghost predicate NotAbove(h: Hasher, hs: seq<Bytes>, isLeaf: bool, d: Bytes)
    requires hs != []
  {
    !HashOfSome(h, InnerInputs(h, hs, isLeaf), d)
  }

  lemma LevelUpDepth(h: Hasher, ts: seq<Tree>, d: Bytes, depth: nat)
    requires AllOnlyAt(ts, d, depth)
    requires |ts| % 2 == 0 || depth > 0
    requires forall k :: 0 <= k < |LevelUp(h, ts)| ==> LevelUp(h, ts)[k].data != d
    ensures AllOnlyAt(LevelUp(h, ts), d, depth + 1)
  {
    if |ts| % 2 != 0 {
      assert OnlyAt(ts[|ts| - 1], d, depth);
    }
    forall k | 0 <= k < |LevelUp(h, ts)|
      ensures OnlyAt(LevelUp(h, ts)[k], d, depth + 1)
    {
      LevelDepth(h, ts, d, depth, k);
    }
  }

  lemma {:induction false} BuildDepth(h: Hasher, ts: seq<Tree>, isLeaf: bool, d: Bytes, depth: nat)
    returns (t: Tree, total: nat)
    requires ts != [] && NotAbove(h, Hashes(ts), isLeaf, d)
    requires AllOnlyAt(ts, d, depth)
    requires |ts| % 2 == 0 || depth > 0
    requires !isLeaf ==> depth > 0
    ensures t == Build(h, ts, isLeaf) && total == depth + Levels(|ts|, isLeaf)
    ensures OnlyAt(t, d, total)
    decreases |ts|, isLeaf
  {
    if isLeaf || |ts| != 1 {
      NewHashesDiffer(h, ts, isLeaf, d);
      LevelUpDepth(h, ts, d, depth);
      t, total := BuildDepth(h, LevelUp(h, ts), false, d, depth + 1);
    } else {
      t, total := ts[0], depth;
    }
  }

  lemma NewHashesDiffer(h: Hasher, ts: seq<Tree>, isLeaf: bool, d: Bytes)
    requires ts != [] && (isLeaf || |ts| != 1) && NotAbove(h, Hashes(ts), isLeaf, d)
    ensures forall k :: 0 <= k < |LevelUp(h, ts)| ==> LevelUp(h, ts)[k].data != d
    ensures NotAbove(h, Hashes(LevelUp(h, ts)), false, d)
  {
    var js := Joined(PadEven(Hashes(ts)));
    FoldUp(h, Hashes(ts), isLeaf);
    LevelUpHashes(h, ts);
    HashOfUnion(h, Elements(js), InnerInputs(h, Up(h, Hashes(ts)), false), d);
    forall k | 0 <= k < |LevelUp(h, ts)|
      ensures LevelUp(h, ts)[k].data != d
    {
      assert LevelUp(h, ts)[k].data == Hashes(LevelUp(h, ts))[k] == HashAll(h, js)[k] == h(js[k]);
      assert js[k] in Elements(js);
    }
  }

  function Pow2(n: nat): nat {
    if n == 0 then 1 else 2 * Pow2(n - 1)
  }

  /** The number of levels is the binary logarithm, rounded up. */
  lemma {:induction false} LevelsIsLog(n: nat)
    requires n >= 2
    ensures Levels(n, true) == Levels(n, false) > 0
    ensures Pow2(Levels(n, false) - 1) < n <= Pow2(Levels(n, false))
  {
    if n > 2 {
      LevelsIsLog((n + 1) / 2);
    }
  }

  lemma TreeDepth(h: Hasher, data: seq<Bytes>, d: Bytes) returns (t: Tree, levels: nat)
    requires data != [] && NotAbove(h, HashAll(h, PadEven(data)), true, d)
    ensures t == MerkleTree(h, data) && levels == Levels(|PadEven(data)|, true)
    ensures OnlyAt(t, d, levels)
  {
    LeavesHashes(h, PadEven(data));
    t, levels := BuildDepth(h, Leaves(h, PadEven(data)), true, d, 0);
  }

  lemma PathHasAllLevels(h: Hasher, data: seq<Bytes>, d: Bytes, path: seq<Bytes>)
    requires data != [] && NotAbove(h, HashAll(h, PadEven(data)), true, d)
    requires PathIn(MerkleTree(h, data), path) && path[|path| - 1] == d
    ensures |path| == Levels(|PadEven(data)|, true) + 1
  {
    var t, levels := TreeDepth(h, data, d);
    PathLength(t, d, levels, path);
  }

  /** A member's path has one entry for each level, provided its hash is no inner node's. */
  lemma MemberPathLength(h: Hasher, data: seq<Bytes>, datum: Bytes)
    requires datum in data && datum != []
    requires NotAbove(h, HashAll(h, PadEven(data)), true, h(datum))
    ensures ProveOf(h, MerkleTree(h, data), datum).path.Some?
    ensures |ProveOf(h, MerkleTree(h, data), datum).path.value| == Levels(|PadEven(data)|, true) + 1
  {
    MembersHaveProofs(h, data, datum);
    ProofIsPath(h, data, datum);
    PathHasAllLevels(h, data, h(datum), ProveOf(h, MerkleTree(h, data), datum).path.value);
  }
}
