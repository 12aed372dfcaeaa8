/** When two lists have one Merkle root (MerkleTree/merkel.go). The tree completes every odd level, so
    what the root binds is the completed list, at the height of the lower of the two trees. */
module MerkleBinding {
  import opened Bytes
  import opened Merkle

  // ---------------------------------------------------------------- completed lists

  /** The places of a list of n in the order in which its completion lists them. */
  function Order(n: nat): (o: seq<nat>)
    requires n > 0
    ensures o != [] && forall i :: 0 <= i < |o| ==> o[i] < n
  {
    if n == 1 then [0] else Children(Order((n + 1) / 2), n)
  }

  /** The child on this side below place k; the one a level of odd length lacks is its last again. */
  function Child(k: nat, side: nat, n: nat): (c: nat)
    requires 2 * k < n && side < 2
    ensures c < n
  {
    if 2 * k + side < n then 2 * k + side else 2 * k
  }

  /** Below each place its two children. */
  function Children(o: seq<nat>, n: nat): (r: seq<nat>)
    requires forall i :: 0 <= i < |o| ==> 2 * o[i] < n
    ensures |r| == 2 * |o|
    ensures forall j :: 0 <= j < |r| ==> r[j] == Child(o[j / 2], j % 2, n) < n
  {
    seq(2 * |o|, (j: int) requires 0 <= j < 2 * |o| => Child(o[j / 2], j % 2, n))
  }

  function Pick(s: seq<Bytes>, o: seq<nat>): (r: seq<Bytes>)
    requires forall i :: 0 <= i < |o| ==> o[i] < |s|
    ensures |r| == |o| && forall i :: 0 <= i < |r| ==> r[i] == s[o[i]]
  {
    seq(|o|, (i: int) requires 0 <= i < |o| => s[o[i]])
  }

  /** The list with every odd level of its tree completed. */
  function Completed(s: seq<Bytes>): (r: seq<Bytes>)
    requires s != []
    ensures r != []
  {
    Pick(s, Order(|s|))
  }

  lemma {:induction false} OrderStarts(n: nat, i: nat)
    requires i < n
    ensures i < |Order(n)| && Order(n)[i] == i
  {
    if n > 1 {
      OrderStarts((n + 1) / 2, i / 2);
      assert Children(Order((n + 1) / 2), n)[i] == Child(i / 2, i % 2, n) == i;
    }
  }

  /** A completed list starts with the list itself. */
  lemma CompletedStarts(s: seq<Bytes>)
    requires s != []
    ensures s <= Completed(s) && Elements(Completed(s)) == Elements(s)
  {
    forall i | 0 <= i < |s|
      ensures i < |Completed(s)| && Completed(s)[i] == s[i]
    {
      OrderStarts(|s|, i);
    }
    if |Completed(s)| < |s| {
      OrderStarts(|s|, |s| - 1);
    }
  }

  lemma CompletedEven(s: seq<Bytes>)
    requires |s| >= 2
    ensures |Completed(s)| % 2 == 0 && |Completed(s)| >= 2
  {
  }

  lemma ChildrenAt(o: seq<nat>, n: nat, i: nat)
    requires i < |o| && forall i :: 0 <= i < |o| ==> 2 * o[i] < n
    ensures Children(o, n)[2 * i] == Child(o[i], 0, n) && Children(o, n)[2 * i + 1] == Child(o[i], 1, n)
  {
    assert (2 * i) / 2 == i && (2 * i) % 2 == 0 && (2 * i + 1) / 2 == i && (2 * i + 1) % 2 == 1;
  }

  lemma PaddedChild(s: seq<Bytes>, k: nat, side: nat)
    requires 2 * k < |s| && side < 2
    ensures 2 * k + side < |PadEven(s)| && PadEven(s)[2 * k + side] == s[Child(k, side, |s|)]
  {
  }

  /** Neighbours in the completed list are neighbours in the padded one, at the place above. */
  lemma PairAbove(s: seq<Bytes>, o: seq<nat>, r: seq<nat>, i: nat)
    requires i < |o| && (forall i :: 0 <= i < |o| ==> 2 * o[i] < |s|) && r == Children(o, |s|)
    ensures o[i] < |Joined(PadEven(s))| && Joined(Pick(s, r))[i] == Joined(PadEven(s))[o[i]]
  {
    ChildrenAt(o, |s|, i);
    PaddedChild(s, o[i], 0);
    PaddedChild(s, o[i], 1);
    JoinedPair(Pick(s, r), i);
    JoinedPair(PadEven(s), o[i]);
  }

  lemma JoinedPair(s: seq<Bytes>, k: nat)
    requires |s| % 2 == 0 && 2 * k + 1 < |s|
    ensures Joined(s)[k] == s[2 * k] + s[2 * k + 1]
  {
  }

  /** Completing commutes with joining neighbours. */
  lemma CompletedJoined(s: seq<Bytes>)
    requires |s| >= 2
    ensures |Completed(s)| % 2 == 0 && Joined(PadEven(s)) != []
    ensures Joined(Completed(s)) == Completed(Joined(PadEven(s)))
  {
    var js := Joined(PadEven(s));
    CompletedEven(s);
    OrderUp(|s|, |js|);
    JoinedAbove(s, js, Order(|js|), Order(|s|), Joined(Completed(s)));
  }

  lemma OrderUp(n: nat, half: nat)
    requires n >= 2 && half == (n + 1) / 2
    ensures (forall i :: 0 <= i < |Order(half)| ==> 2 * Order(half)[i] < n) && Order(n) == Children(Order(half), n)
    ensures |Order(n)| == 2 * |Order(half)|
  {
  }

  lemma JoinedEach(s: seq<Bytes>, js: seq<Bytes>, o: seq<nat>, r: seq<nat>, jc: seq<Bytes>)
    requires (forall i :: 0 <= i < |o| ==> 2 * o[i] < |s|) && r == Children(o, |s|)
    requires js == Joined(PadEven(s)) && jc == Joined(Pick(s, r))
    ensures |jc| == |o| && forall i :: 0 <= i < |o| ==> o[i] < |js| && jc[i] == js[o[i]]
  {
    forall i | 0 <= i < |o|
      ensures o[i] < |js| && jc[i] == js[o[i]]
    {
      PairAbove(s, o, r, i);
    }
  }

  lemma JoinedAbove(s: seq<Bytes>, js: seq<Bytes>, o: seq<nat>, r: seq<nat>, jc: seq<Bytes>)
    requires (forall i :: 0 <= i < |o| ==> 2 * o[i] < |s|) && r == Children(o, |s|)
    requires js == Joined(PadEven(s)) && jc == Joined(Pick(s, r))
    requires forall i :: 0 <= i < |o| ==> o[i] < |js|
    ensures jc == Pick(js, o)
  {
    JoinedEach(s, js, o, r, jc);
    PickIs(js, o, jc);
  }

  lemma PickIs(s: seq<Bytes>, o: seq<nat>, r: seq<Bytes>)
    requires |r| == |o| && forall i :: 0 <= i < |o| ==> o[i] < |s| && r[i] == s[o[i]]
    ensures r == Pick(s, o)
  {
  }

  lemma CompletedHashes(h: Hasher, s: seq<Bytes>)
    requires s != []
    ensures Completed(HashAll(h, s)) == HashAll(h, Completed(s))
  {
  }

  // ---------------------------------------------------------------- levels of equal height

  lemma FoldFrom(h: Hasher, hs: seq<Bytes>)
    requires |hs| >= 2
    ensures Fold(h, hs, true) == Fold(h, hs, false) == Fold(h, Up(h, hs), false)
    ensures InnerInputs(h, hs, true) == InnerInputs(h, hs, false)
    ensures InnerInputs(h, hs, false) == Elements(Joined(PadEven(hs))) + InnerInputs(h, Up(h, hs), false)
  {
    FoldUp(h, hs, true);
    FoldUp(h, hs, false);
  }

  lemma NoCollisionBelow(h: Hasher, xs: set<Bytes>, ys: set<Bytes>, xs': set<Bytes>, ys': set<Bytes>)
    requires !Collision(h, xs, ys) && xs' <= xs && ys' <= ys
    ensures !Collision(h, xs', ys')
  {
  }

  lemma HashAllIff(h: Hasher, xs: seq<Bytes>, ys: seq<Bytes>)
    requires !Collision(h, Elements(xs), Elements(ys))
    ensures HashAll(h, xs) == HashAll(h, ys) <==> xs == ys
  {
    if HashAll(h, xs) == HashAll(h, ys) {
      HashAllInjective(h, xs, ys, Elements(xs), Elements(ys));
    }
  }

  lemma CompletedWide(s: seq<Bytes>, width: nat)
    requires s != [] && AllWide(s, width)
    ensures AllWide(Completed(s), width)
  {
  }

  lemma JoinedIff(a: seq<Bytes>, b: seq<Bytes>, width: nat)
    requires |a| % 2 == 0 && |b| % 2 == 0 && AllWide(a, width) && AllWide(b, width)
    ensures Joined(a) == Joined(b) <==> a == b
  {
    if Joined(a) == Joined(b) {
      assert |a| == 2 * |Joined(a)| == |b|;
      JoinedInjective(a, b, width);
    }
  }

  /** One level up, completed lists are equal exactly if they are here. */
  lemma LevelIff(h: Hasher, width: nat, a: seq<Bytes>, b: seq<Bytes>)
    requires |a| >= 2 && |b| >= 2 && AllWide(a, width) && AllWide(b, width)
    requires !Collision(h, Elements(Joined(PadEven(a))), Elements(Joined(PadEven(b))))
    ensures Completed(Up(h, a)) == Completed(Up(h, b)) <==> Completed(a) == Completed(b)
  {
    var x, y := Joined(PadEven(a)), Joined(PadEven(b));
    CompletedJoined(a);
    CompletedJoined(b);
    CompletedHashes(h, x);
    CompletedHashes(h, y);
    CompletedStarts(x);
    CompletedStarts(y);
    HashAllIff(h, Completed(x), Completed(y));
    CompletedWide(a, width);
    CompletedWide(b, width);
    JoinedIff(Completed(a), Completed(b), width);
  }

  /** Two levels of equal height lead to one root if and only if their completions are equal. */
  lemma {:induction false} FoldIff(h: Hasher, width: nat, a: seq<Bytes>, b: seq<Bytes>)
    requires FixedWidth(h, width) && AllWide(a, width) && AllWide(b, width) && a != [] && b != []
    requires Levels(|a|, false) == Levels(|b|, false)
    requires !Collision(h, InnerInputs(h, a, false), InnerInputs(h, b, false))
    ensures Fold(h, a, false) == Fold(h, b, false) <==> Completed(a) == Completed(b)
    decreases |a|
  {
    if |a| == 1 {
      assert |b| == 1;
      assert Order(1) == [0] && Completed(a) == a && Completed(b) == b;
    } else {
      FoldFrom(h, a);
      FoldFrom(h, b);
      UpWide(h, width, a);
      UpWide(h, width, b);
      var p, q := InnerInputs(h, a, false), InnerInputs(h, b, false);
      NoCollisionBelow(h, p, q, InnerInputs(h, Up(h, a), false), InnerInputs(h, Up(h, b), false));
      NoCollisionBelow(h, p, q, Elements(Joined(PadEven(a))), Elements(Joined(PadEven(b))));
      FoldIff(h, width, Up(h, a), Up(h, b));
      LevelIff(h, width, a, b);
    }
  }

  // ---------------------------------------------------------------- lists of any length

  /** The hashes of the level below which `height` levels are left, or of this one if it is as low. */
  function Raised(h: Hasher, hs: seq<Bytes>, height: nat): (r: seq<Bytes>)
    requires hs != []
    ensures r != []
    decreases |hs|
  {
    if Levels(|hs|, false) <= height then hs else Raised(h, Up(h, hs), height)
  }

  lemma {:induction false} RaisedFolds(h: Hasher, width: nat, hs: seq<Bytes>, height: nat)
    requires hs != [] && FixedWidth(h, width) && AllWide(hs, width)
    ensures Fold(h, Raised(h, hs, height), false) == Fold(h, hs, false)
    ensures InnerInputs(h, Raised(h, hs, height), false) <= InnerInputs(h, hs, false)
    ensures Levels(|Raised(h, hs, height)|, false) == Min(height, Levels(|hs|, false))
    ensures AllWide(Raised(h, hs, height), width)
    decreases |hs|
  {
    if Levels(|hs|, false) > height {
      FoldFrom(h, hs);
      UpWide(h, width, hs);
      RaisedFolds(h, width, Up(h, hs), height);
    }
  }

  /** The hashes of the leaves, the repeated one included. */
  function LeafHashes(h: Hasher, data: seq<Bytes>): (hs: seq<Bytes>)
    requires data != []
    ensures |hs| == |PadEven(data)| >= 2
  {
    HashAll(h, PadEven(data))
  }

  lemma LeafFold(h: Hasher, width: nat, data: seq<Bytes>)
    requires data != [] && FixedWidth(h, width)
    ensures RootHash(h, data) == Fold(h, LeafHashes(h, data), false)
    ensures InnerInputs(h, LeafHashes(h, data), false) <= Inputs(h, data)
    ensures AllWide(LeafHashes(h, data), width)
  {
    FoldFrom(h, LeafHashes(h, data));
  }

  /** The number of levels above the leaves. */
  function Height(data: seq<Bytes>): nat
    requires data != []
  {
    Levels(|PadEven(data)|, false)
  }

  function Min(m: nat, n: nat): nat {
    if m < n then m else n
  }

  /** What the root binds when compared with a tree of this height: the level of that height, completed. */
  function Bound(h: Hasher, data: seq<Bytes>, height: nat): seq<Bytes>
    requires data != []
  {
    Completed(Raised(h, LeafHashes(h, data), height))
  }

  /** Over all lists, short of a collision among the hashed strings: two roots are equal if and only
      if the higher tree's hashes at the lower one's height, completed, are the lower one's completed
      leaf hashes. */
  lemma RootsEqualIff(h: Hasher, width: nat, a: seq<Bytes>, b: seq<Bytes>)
    requires FixedWidth(h, width) && a != [] && b != []
    requires !Collision(h, Inputs(h, a), Inputs(h, b))
    ensures RootHash(h, a) == RootHash(h, b) <==> Bound(h, a, Height(b)) == Bound(h, b, Height(a))
  {
    var x, y := LeafHashes(h, a), LeafHashes(h, b);
    var p, q := Raised(h, x, Height(b)), Raised(h, y, Height(a));
    LeafFold(h, width, a);
    LeafFold(h, width, b);
    RaisedFolds(h, width, x, Height(b));
    RaisedFolds(h, width, y, Height(a));
    NoCollisionBelow(h, Inputs(h, a), Inputs(h, b), InnerInputs(h, p, false), InnerInputs(h, q, false));
    FoldIff(h, width, p, q);
  }

  /** Lists with trees of equal height: the roots are equal if and only if the completed lists are. */
  lemma SameHeightIff(h: Hasher, width: nat, a: seq<Bytes>, b: seq<Bytes>)
    requires FixedWidth(h, width) && a != [] && b != [] && Height(a) == Height(b)
    requires !Collision(h, Inputs(h, a), Inputs(h, b))
    ensures RootHash(h, a) == RootHash(h, b) <==> Completed(PadEven(a)) == Completed(PadEven(b))
  {
    RootsEqualIff(h, width, a, b);
    CompletedHashes(h, PadEven(a));
    CompletedHashes(h, PadEven(b));
    CompletedStarts(PadEven(a));
    CompletedStarts(PadEven(b));
    PadMembers(a);
    PadMembers(b);
    var x, y := Completed(PadEven(a)), Completed(PadEven(b));
    NoCollisionBelow(h, Inputs(h, a), Inputs(h, b), Elements(x), Elements(y));
    HashAllIff(h, x, y);
  }

  /** Lists of equal length: the root determines the list. */
  lemma MerkleBinding(h: Hasher, width: nat, a: seq<Bytes>, b: seq<Bytes>)
    requires FixedWidth(h, width) && a != [] && |a| == |b|
    requires !Collision(h, Inputs(h, a), Inputs(h, b))
    ensures RootHash(h, a) == RootHash(h, b) <==> a == b
  {
    SameHeightIff(h, width, a, b);
    if RootHash(h, a) == RootHash(h, b) {
      CompletedInjective(PadEven(a), PadEven(b));
      PadEvenInjective(a, b);
    }
  }

  lemma CompletedInjective(s: seq<Bytes>, t: seq<Bytes>)
    requires s != [] && |s| == |t| && Completed(s) == Completed(t)
    ensures s == t
  {
    CompletedStarts(s);
    CompletedStarts(t);
    assert s == Completed(s)[..|s|] && t == Completed(t)[..|t|];
  }

  // ---------------------------------------------------------------- lists that share a root

  lemma {:induction false} FoldCompleted(h: Hasher, hs: seq<Bytes>)
    requires hs != []
    ensures Fold(h, Completed(hs), false) == Fold(h, hs, false)
    decreases |hs|
  {
    if |hs| == 1 {
      assert Order(1) == [0] && Completed(hs) == hs;
    } else {
      CompletedEven(hs);
      CompletedJoined(hs);
      CompletedHashes(h, Joined(PadEven(hs)));
      FoldFrom(h, hs);
      FoldFrom(h, Completed(hs));
      assert Up(h, Completed(hs)) == Completed(Up(h, hs));
      FoldCompleted(h, Up(h, hs));
    }
  }

  /** A list and its completion have one root, whatever the hash. */
  lemma CompletionTwin(h: Hasher, data: seq<Bytes>)
    requires data != []
    ensures RootHash(h, Completed(PadEven(data))) == RootHash(h, data)
  {
    var padded := PadEven(data);
    CompletedEven(padded);
    CompletedHashes(h, padded);
    FoldCompleted(h, HashAll(h, padded));
    FoldFrom(h, HashAll(h, padded));
    FoldFrom(h, HashAll(h, Completed(padded)));
  }

  /** So an odd list shares its root with the list whose last element is repeated, and a list of six
      with the list whose last two are. */
  lemma OddListTwin(h: Hasher, a: seq<Bytes>)
    requires |a| % 2 == 1
    ensures RootHash(h, a) == RootHash(h, a + [a[|a| - 1]])
    ensures MerkleTree(h, a) == MerkleTree(h, a + [a[|a| - 1]])
  {
  }

  lemma SixIsEight(h: Hasher, a: seq<Bytes>)
    requires |a| == 6
    ensures RootHash(h, a) == RootHash(h, a + a[4..])
  {
    OrderSix();
    PickIs(a, Order(6), a + a[4..]);
    CompletionTwin(h, a);
  }

  lemma OrderThree()
    ensures Order(3) == [0, 1, 2, 2]
  {
    assert Order(1) == [0];
    OrderUp(2, 1);
    ChildrenAre([0], 2, [0, 1]);
    OrderUp(3, 2);
    ChildrenAre([0, 1], 3, [0, 1, 2, 2]);
  }

  lemma OrderSix()
    ensures Order(6) == [0, 1, 2, 3, 4, 5, 4, 5]
  {
    OrderThree();
    OrderUp(6, 3);
    ChildrenAre([0, 1, 2, 2], 6, [0, 1, 2, 3, 4, 5, 4, 5]);
  }

  lemma ChildrenAre(o: seq<nat>, n: nat, r: seq<nat>)
    requires |r| == 2 * |o| && forall i :: 0 <= i < |o| ==> 2 * o[i] < n
    requires forall j :: 0 <= j < |r| ==> r[j] == Child(o[j / 2], j % 2, n)
    ensures Children(o, n) == r
  {
  }

  /** A list shares its root with the shorter list of its leaves' joined hashes, leaves and inner nodes
      being hashed alike. */
  lemma JoinedLeavesTwin(h: Hasher, data: seq<Bytes>)
    requires |data| >= 3
    ensures Joined(LeafHashes(h, data)) != []
    ensures RootHash(h, Joined(LeafHashes(h, data))) == RootHash(h, data)
  {
    var hs := LeafHashes(h, data);
    var joined := Joined(hs);
    FoldFrom(h, hs);
    assert Up(h, hs) == HashAll(h, joined);
    HashPadded(h, joined);
    FoldFrom(h, HashAll(h, joined));
    FoldFrom(h, HashAll(h, PadEven(joined)));
  }

  lemma HashPadded(h: Hasher, s: seq<Bytes>)
    requires s != []
    ensures HashAll(h, PadEven(s)) == PadEven(HashAll(h, s))
  {
  }
}
