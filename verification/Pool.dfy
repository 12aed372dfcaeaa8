/** The transaction pools (txpool/txpool_table.go, txpool/txpool_data.go): the bookkeeper packs mature
    transactions into blocks, ordinary nodes take the packed ones out of their replica. */
module Pool {
  import opened LinkedLists
  import opened Folds
  import opened Chain
  import opened TxQueue

  datatype PoolBlock = PoolBlock(id: int, hash: Hash, prev: Hash, txs: seq<Tx>)

  const POOL_LINKS: Links<PoolBlock> := Links((b: PoolBlock) => b.hash, (b: PoolBlock) => b.prev)

  /** The hash of the block with this id. The real one also covers the block's contents and the moment
      of sealing; ids do not repeat, so any run of hashes is one of these. */
  type Digests = int -> Hash

  /** InitBlock. */
  function Sealed(digests: Digests, id: int, prev: Hash, txs: seq<Tx>): PoolBlock {
    PoolBlock(id, digests(id), prev, txs)
  }

  // ---------------------------------------------------------------- packing

  /** The number of leading transactions older than `cutoff`. */
  function Mature(s: seq<Tx>, cutoff: int): (m: nat)
    ensures m <= |s|
  {
    if s == [] || s[0].timeStamp >= cutoff then 0 else 1 + Mature(s[1..], cutoff)
  }

  /** In a sorted queue the count splits the queue in older and younger. */
  lemma {:induction false} MatureSplits(s: seq<Tx>, cutoff: int)
    requires Sorted(s)
    ensures forall i :: 0 <= i < |s| ==> (s[i].timeStamp < cutoff <==> i < Mature(s, cutoff))
  {
    if s != [] && s[0].timeStamp < cutoff {
      MatureSplits(s[1..], cutoff);
      assert forall i :: 0 < i < |s| ==> s[i] == s[1..][i - 1];
    }
  }

  lemma {:induction false} MatureIs(s: seq<Tx>, cutoff: int, m: nat)
    requires m <= |s| && forall i :: 0 <= i < m ==> s[i].timeStamp < cutoff
    requires m < |s| ==> s[m].timeStamp >= cutoff
    ensures Mature(s, cutoff) == m
  {
    if m > 0 {
      MatureIs(s[1..], cutoff, m - 1);
    }
  }

  /** The transactions `txs` in blocks of `n`, each block linked to the one before. */
  function Packed(txs: seq<Tx>, n: nat, id: int, tail: Hash, digests: Digests): (blocks: seq<PoolBlock>)
    requires n >= 1
    decreases |txs|
  {
    if |txs| < n then [] else
      var front := Packed(txs[..|txs| - n], n, id, tail, digests);
      front + [Sealed(digests, id + |front|, TailHash(front, tail), txs[|txs| - n..])]
  }

  /** The hash the next block has to name. */
  function TailHash(blocks: seq<PoolBlock>, tail: Hash): Hash {
    if blocks == [] then tail else blocks[|blocks| - 1].hash
  }

  function TxsIn(blocks: seq<PoolBlock>): seq<Tx> {
    if blocks == [] then [] else TxsIn(blocks[..|blocks| - 1]) + blocks[|blocks| - 1].txs
  }

  /** How many of `mature` transactions fill blocks of `n`. */
  function Batched(mature: nat, n: nat): (k: nat)
    requires n >= 1
    ensures k <= mature
  {
    if mature < n then 0 else n + Batched(mature - n, n)
  }

  lemma {:induction false} BatchedIs(mature: nat, n: nat)
    requires n >= 1
    ensures Batched(mature, n) == n * (mature / n) == mature - mature % n
  {
    if mature >= n {
      BatchedIs(mature - n, n);
      QuotientStep(mature, n);
    }
  }

  lemma {:induction false} BatchedAgain(mature: nat, n: nat)
    requires n >= 1
    ensures var m := Batched(mature, n);
      Batched(m, n) == m && m / n == mature / n && mature - m == mature % n
  {
    BatchedIs(mature, n);
    if mature >= n {
      BatchedAgain(mature - n, n);
      QuotientStep(mature, n);
      QuotientStep(Batched(mature, n), n);
    }
  }

  lemma QuotientStep(mature: nat, n: nat)
    requires 1 <= n <= mature
    ensures mature / n == (mature - n) / n + 1
    ensures n * (mature / n) == n * ((mature - n) / n) + n
  {
    var q, r := (mature - n) / n, (mature - n) % n;
    assert mature == n * (q + 1) + r;
    var d := mature / n - (q + 1);
    assert n * d == n * (mature / n) - n * (q + 1);
    Multiples(n, d);
  }

  lemma Multiples(n: nat, d: int)
    requires n >= 1
    ensures d >= 1 ==> n * d >= n
    ensures d <= -1 ==> n * d + n <= 0
  {
  }

  /** As many blocks as full batches. */
  lemma {:induction false} PackedCount(txs: seq<Tx>, n: nat, id: int, tail: Hash, digests: Digests)
    requires n >= 1
    ensures |Packed(txs, n, id, tail, digests)| == |txs| / n
    decreases |txs|
  {
    if |txs| >= n {
      PackedCount(txs[..|txs| - n], n, id, tail, digests);
      QuotientStep(|txs|, n);
    }
  }

  /** The block at place i holds n transactions and names the hash of the block before it. */
  ghost predicate SealedAt(blocks: seq<PoolBlock>, i: nat, n: nat, id: int, tail: Hash, digests: Digests)
    requires i < |blocks|
  {
    && |blocks[i].txs| == n
    && blocks[i].id == id + i && blocks[i].hash == digests(id + i)
    && blocks[i].prev == if i == 0 then tail else blocks[i - 1].hash
  }

  lemma SealedSnoc(front: seq<PoolBlock>, b: PoolBlock, n: nat, id: int, tail: Hash, digests: Digests)
    requires forall i :: 0 <= i < |front| ==> SealedAt(front, i, n, id, tail, digests)
    requires |b.txs| == n && b.id == id + |front| && b.hash == digests(b.id) && b.prev == TailHash(front, tail)
    ensures forall i :: 0 <= i < |front + [b]| ==> SealedAt(front + [b], i, n, id, tail, digests)
  {
    forall i | 0 <= i < |front|
      ensures SealedAt(front + [b], i, n, id, tail, digests)
    {
      assert SealedAt(front, i, n, id, tail, digests);
    }
  }

  /** Packing conserves: the blocks hold the transactions in order, n each, none lost and none twice,
      and each block names the hash of the one before. */
  lemma {:induction false} PackedMeaning(txs: seq<Tx>, n: nat, id: int, tail: Hash, digests: Digests)
    requires n >= 1 && Batched(|txs|, n) == |txs|
    ensures var blocks := Packed(txs, n, id, tail, digests);
      && TxsIn(blocks) == txs
      && forall i :: 0 <= i < |blocks| ==> SealedAt(blocks, i, n, id, tail, digests)
    decreases |txs|
  {
    if |txs| >= n {
      var before, last := txs[..|txs| - n], txs[|txs| - n..];
      PackedMeaning(before, n, id, tail, digests);
      var front := Packed(before, n, id, tail, digests);
      var b := Sealed(digests, id + |front|, TailHash(front, tail), last);
      assert Packed(txs, n, id, tail, digests) == front + [b];
      assert (front + [b])[..|front|] == front;
      SealedSnoc(front, b, n, id, tail, digests);
    }
  }

  /** Block i holds the ith n transactions. */
  lemma {:induction false} PackedPieces(txs: seq<Tx>, n: nat, id: int, tail: Hash, digests: Digests, i: nat)
    requires n >= 1 && i < |Packed(txs, n, id, tail, digests)| && Batched(|txs|, n) == |txs|
    ensures n * i + n <= |txs| && Packed(txs, n, id, tail, digests)[i].txs == txs[n * i..n * i + n]
    decreases |txs|
  {
    var before, last := txs[..|txs| - n], txs[|txs| - n..];
    var front := Packed(before, n, id, tail, digests);
    if i < |front| {
      PackedPieces(before, n, id, tail, digests, i);
      assert before[n * i..n * i + n] == txs[n * i..n * i + n];
    } else {
      PackedCount(before, n, id, tail, digests);
      BatchedIs(|before|, n);
      assert n * i == |before|;
      assert txs[|before|..|before| + n] == last;
    }
  }

  /** The next `count` hashes are new to the chain and to each other. */
  ghost predicate NewDigests(digests: Digests, id: int, count: nat, blocks: seq<PoolBlock>) {
    && (forall d :: id <= d < id + count ==> digests(d) != GENESIS)
    && (forall d, j :: id <= d < id + count && 0 <= j < |blocks| ==> digests(d) != blocks[j].hash)
    && (forall d, e :: id <= d < e < id + count ==> digests(d) != digests(e))
  }

  /** Blocks that are numbered and chained like this, with new hashes, make the chain longer. */
  lemma {:induction false} SealedGrow(blocks: seq<PoolBlock>, more: seq<PoolBlock>, n: nat, id: int, tail: Hash,
                                      digests: Digests)
    requires Linked(POOL_LINKS, blocks) && tail == blocks[|blocks| - 1].hash
    requires forall i :: 0 <= i < |more| ==> SealedAt(more, i, n, id, tail, digests)
    requires NewDigests(digests, id, |more|, blocks)
    ensures Linked(POOL_LINKS, blocks + more)
    decreases |more|
  {
    if more == [] {
      assert blocks + more == blocks;
    } else {
      var k := |more| - 1;
      var front, b := more[..k], more[k];
      forall i | 0 <= i < k
        ensures SealedAt(front, i, n, id, tail, digests)
      {
        assert SealedAt(more, i, n, id, tail, digests);
      }
      SealedGrow(blocks, front, n, id, tail, digests);
      assert SealedAt(more, k, n, id, tail, digests);
      LastIsNew(blocks, front, b, n, id, tail, digests);
      ExtendLinked(POOL_LINKS, blocks + front, b);
      assert blocks + more == (blocks + front) + [b];
    }
  }

  lemma LastIsNew(blocks: seq<PoolBlock>, front: seq<PoolBlock>, b: PoolBlock, n: nat, id: int, tail: Hash,
                  digests: Digests)
    requires blocks != [] && tail == blocks[|blocks| - 1].hash
    requires forall i :: 0 <= i < |front| ==> SealedAt(front, i, n, id, tail, digests)
    requires NewDigests(digests, id, |front| + 1, blocks)
    requires b.hash == digests(id + |front|) && b.prev == TailHash(front, tail)
    ensures Extends(POOL_LINKS, blocks + front, b)
  {
    forall i | 0 <= i < |blocks + front|
      ensures (blocks + front)[i].hash != b.hash
    {
      if i >= |blocks| {
        assert SealedAt(front, i - |blocks|, n, id, tail, digests);
      }
    }
  }

  lemma RestSplits(s: seq<Tx>, cutoff: int, k: nat)
    requires Sorted(s) && k <= Mature(s, cutoff)
    ensures Mature(s[k..], cutoff) == Mature(s, cutoff) - k
  {
    MatureSplits(s, cutoff);
    MatureIs(s[k..], cutoff, Mature(s, cutoff) - k);
  }

  lemma BatchesFit(s: seq<Tx>, mature: nat, n: nat, id: int, tail: Hash, digests: Digests)
    requires n >= 1 && mature <= |s|
    ensures var m := Batched(mature, n);
      && |Packed(s[..m], n, id, tail, digests)| == mature / n && TxsIn(Packed(s[..m], n, id, tail, digests)) == s[..m]
      && mature - m == mature % n
  {
    var m := Batched(mature, n);
    BatchedAgain(mature, n);
    PackedCount(s[..m], n, id, tail, digests);
    PackedMeaning(s[..m], n, id, tail, digests);
  }

  /** What one run of the bookkeeper does to a sorted queue: as many full blocks as the mature
      transactions allow, everything packed is older than the cutoff, the blocks and the rest of the
      queue are the queue there was, and fewer than n transactions that old stay behind. */
  lemma PackingLeavesFew(s: seq<Tx>, cutoff: int, n: nat, id: int, tail: Hash, digests: Digests)
    requires n >= 1 && Sorted(s)
    ensures var m := Batched(Mature(s, cutoff), n);
      var blocks := Packed(s[..m], n, id, tail, digests);
      && |blocks| == Mature(s, cutoff) / n
      && TxsIn(blocks) + s[m..] == s
      && (forall tx :: tx in TxsIn(blocks) ==> tx.timeStamp < cutoff)
      && Mature(s[m..], cutoff) == Mature(s, cutoff) % n
  {
    var m := Batched(Mature(s, cutoff), n);
    BatchesFit(s, Mature(s, cutoff), n, id, tail, digests);
    MatureSplits(s, cutoff);
    RestSplits(s, cutoff, m);
  }

  lemma PackedSnoc(s: seq<Tx>, m: nat, n: nat, id: int, tail: Hash, digests: Digests, front: seq<PoolBlock>,
                   b: PoolBlock)
    requires n >= 1 && m + n <= |s| && front == Packed(s[..m], n, id, tail, digests)
    requires b == Sealed(digests, id + |front|, TailHash(front, tail), s[m..][..n])
    ensures Packed(s[..m + n], n, id, tail, digests) == front + [b] && TailHash(front + [b], tail) == b.hash
    ensures s[m..][n..] == s[m + n..]
  {
    assert s[..m + n][..m] == s[..m];
    assert s[..m + n][m..] == s[m..][..n];
  }

  lemma GrownSnoc(blocks: seq<PoolBlock>, produced: seq<PoolBlock>, b: PoolBlock)
    requires blocks != [] && Linked(POOL_LINKS, blocks + (produced + [b]))
    ensures Linked(POOL_LINKS, blocks + produced) && Extends(POOL_LINKS, blocks + produced, b)
    ensures blocks + (produced + [b]) == (blocks + produced) + [b]
  {
    var whole := blocks + (produced + [b]);
    PrefixLinked(POOL_LINKS, whole, |whole| - 1);
    assert whole[..|whole| - 1] == blocks + produced;
  }

  /** What a run packs is numbered and chained, and makes a valid chain longer if its hashes are new. */
  lemma PackedGrow(blocks: seq<PoolBlock>, s: seq<Tx>, mature: nat, n: nat, id: int, tail: Hash, digests: Digests,
                   produced: seq<PoolBlock>, valid: bool)
    requires n >= 1 && mature <= |s| && produced == Packed(s[..Batched(mature, n)], n, id, tail, digests)
    requires valid ==> Linked(POOL_LINKS, blocks) && tail == blocks[|blocks| - 1].hash
    ensures forall i :: 0 <= i < |produced| ==> SealedAt(produced, i, n, id, tail, digests)
    ensures valid && NewDigests(digests, id, |produced|, blocks) ==> Linked(POOL_LINKS, blocks + produced)
  {
    BatchedAgain(mature, n);
    PackedMeaning(s[..Batched(mature, n)], n, id, tail, digests);
    if valid && NewDigests(digests, id, |produced|, blocks) {
      SealedGrow(blocks, produced, n, id, tail, digests);
    }
  }

  class Pool {
    const queue: TxQueue
    const packNumber: nat
    const chain: BlockChain<PoolBlock>
    const digests: Digests
    var lastID: int
    var count: int
    var countPointer: Node<Tx>

    ghost predicate Valid()
      reads queue, queue.list, queue.list.Nodes(), chain
    {
      && queue.Valid() && packNumber >= 1 && chain.links == POOL_LINKS
      && chain !in queue.Repr()
    }

    constructor (maxSize: int, chain: BlockChain<PoolBlock>, digests: Digests)
      requires chain.links == POOL_LINKS
      ensures Valid() && this.chain == chain && this.digests == digests && packNumber == 1
      ensures queue.Contents() == [] && queue.maxSize == maxSize && fresh(queue.Repr())
    {
      var q := new TxQueue(maxSize);
      queue := q;
      packNumber := 1;
      this.chain := chain;
      this.digests := digests;
      lastID := 0;
      count := 0;
      countPointer := q.list.head;
    }

    /** Counts the transactions older than `cutoff` from the front. */
    method CountMature(cutoff: int)
      requires Valid()
      modifies this`count, this`countPointer
      ensures count == Mature(queue.Contents(), cutoff)
    {
      assert Open(0);
      ghost var s, spine := queue.Contents(), queue.list.spine;
      count := 0;
      assert queue.list.head.next == spine[1];
      countPointer := queue.list.head.next;
      ghost var i := 0;
      while countPointer.next != null && countPointer.val.timeStamp < cutoff
        invariant 0 <= i <= |s| && count == i && countPointer == spine[i + 1]
        invariant forall j :: 0 <= j < i ==> s[j].timeStamp < cutoff
        decreases |s| - i
      {
        assert i < |s| && s[i] == countPointer.val;
        assert countPointer.next == spine[i + 2];
        countPointer := countPointer.next;
        count := count + 1;
        i := i + 1;
      }
      if i < |s| {
        assert spine[i + 1].next == spine[i + 2] && s[i] == countPointer.val;
      }
      MatureIs(s, cutoff, i);
    }

    method AddBlock(txs: seq<Tx>) returns (block: PoolBlock)
      requires chain.links == POOL_LINKS
      modifies this`count, this`lastID, chain
      ensures lastID == old(lastID) + 1 && count == old(count) - packNumber
      ensures block == Sealed(digests, old(lastID), old(chain.tailHash), txs) && chain.tailHash == block.hash
      ensures block.id == old(lastID) && block.prev == old(chain.tailHash) && block.txs == txs
      ensures block.hash == digests(block.id)
      ensures old(chain.Valid() && Extends(POOL_LINKS, chain.blocks, block)) ==>
        chain.Valid() && chain.blocks == old(chain.blocks) + [block]
      ensures old(chain.Valid() && NewDigests(digests, lastID, 1, chain.blocks)) ==>
        chain.Valid() && chain.blocks == old(chain.blocks) + [block]
    {
      if chain.Valid() && NewDigests(digests, lastID, 1, chain.blocks) {
        ghost var b := Sealed(digests, lastID, chain.tailHash, txs);
        assert chain.blocks + [] == chain.blocks;
        LastIsNew(chain.blocks, [], b, 0, lastID, chain.tailHash, digests);
      }
      block := Sealed(digests, lastID, chain.tailHash, txs);
      lastID := lastID + 1;
      count := count - packNumber;
      chain.AddBlockToChain(block);
    }

    /** One block from the front of the queue. */
    method PackOne() returns (block: PoolBlock)
      requires Valid() && packNumber <= |queue.Contents()|
      modifies this`count, this`lastID, chain
      modifies queue`txMap, queue`curSize, queue.list, queue.list.Nodes()`pre, queue.list.Nodes()`next
      ensures Valid() && queue.list.Nodes() <= old(queue.list.Nodes())
      ensures queue.Contents() == old(queue.Contents())[packNumber..] && lastID == old(lastID) + 1
      ensures count == old(count) - packNumber
      ensures block == Sealed(digests, old(lastID), old(chain.tailHash), old(queue.Contents())[..packNumber])
      ensures block.id == old(lastID) && block.prev == old(chain.tailHash) && block.hash == digests(block.id)
      ensures block.txs == old(queue.Contents())[..packNumber] && chain.tailHash == block.hash
      ensures old(chain.Valid() && Extends(POOL_LINKS, chain.blocks, block)) ==>
        chain.Valid() && chain.blocks == old(chain.blocks) + [block]
    {
      var txs := queue.TakeFront(packNumber);
      block := AddBlock(txs);
    }

    /** The bookkeeper's run has made `produced` from the first m of `s`, starting from this id and this
        chain. Naming Open(0) unfolds it; folded it costs the loop below nothing. */
    ghost predicate Midway(s: seq<Tx>, m: nat, id: int, tail: Hash, blocks: seq<PoolBlock>, grows: bool,
        produced: seq<PoolBlock>)
      reads this`lastID, queue, queue.list, queue.list.Nodes(), chain
    {
      forall u :: Open(u) ==>
        && Valid() && m <= |s| && queue.Contents() == s[m..]
        && lastID == id + |produced| && chain.tailHash == TailHash(produced, tail)
        && produced == Packed(s[..m], packNumber, id, tail, digests)
        && (grows && Linked(POOL_LINKS, blocks + produced) ==> chain.Valid() && chain.blocks == blocks + produced)
    }

    /** One more block. */
    method PackNext(ghost s: seq<Tx>, ghost m: nat, ghost next: nat, ghost id: int, ghost tail: Hash,
        ghost blocks: seq<PoolBlock>,
        ghost grows: bool, ghost produced: seq<PoolBlock>) returns (block: PoolBlock)
      requires Midway(s, m, id, tail, blocks, grows, produced) && next == m + packNumber <= |s|
      requires grows ==> blocks != []
      modifies this`count, this`lastID, chain
      modifies queue`txMap, queue`curSize, queue.list, queue.list.Nodes()`pre, queue.list.Nodes()`next
      ensures Midway(s, next, id, tail, blocks, grows, produced + [block])
      ensures queue.list.Nodes() <= old(queue.list.Nodes()) && count == old(count) - packNumber
    {
      assert Open(0);
      block := PackOne();
      PackedSnoc(s, m, packNumber, id, tail, digests, produced, block);
      if grows && Linked(POOL_LINKS, blocks + (produced + [block])) {
        GrownSnoc(blocks, produced, block);
      }
    }

    /** Packs while enough of the counted transactions are left. */
    method PackCounted(ghost s: seq<Tx>, ghost id: int, ghost tail: Hash, ghost blocks: seq<PoolBlock>,
        ghost grows: bool) returns (produced: seq<PoolBlock>)
      requires Midway(s, 0, id, tail, blocks, grows, []) && packNumber >= 1
      requires 0 <= count <= |s| && (grows ==> blocks != [])
      modifies this`count, this`lastID, chain
      modifies queue`txMap, queue`curSize, queue.list, queue.list.Nodes()`pre, queue.list.Nodes()`next
      ensures Midway(s, Batched(old(count), packNumber), id, tail, blocks, grows, produced)
    {
      produced := [];
      ghost var m: nat := 0;
      while count >= packNumber
        invariant Midway(s, m, id, tail, blocks, grows, produced)
        invariant queue.list.Nodes() <= old(queue.list.Nodes())
        invariant 0 <= count && m + count <= |s|
        invariant m + Batched(count, packNumber) == Batched(old(count), packNumber)
        decreases count
      {
        ghost var next, left := m + packNumber, count;
        assert Batched(left, packNumber) == packNumber + Batched(left - packNumber, packNumber);
        var block := PackNext(s, m, next, id, tail, blocks, grows, produced);
        produced := produced + [block];
        m := next;
      }
    }

    /** Counts, then packs while enough mature transactions are left. */
    method PackMature(cutoff: int) returns (produced: seq<PoolBlock>)
      requires Valid()
      modifies this`count, this`countPointer, this`lastID, chain
      modifies queue`txMap, queue`curSize, queue.list, queue.list.Nodes()`pre, queue.list.Nodes()`next
      ensures Valid() && lastID == old(lastID) + |produced|
      ensures var s := old(queue.Contents());
        var m := Batched(Mature(s, cutoff), packNumber);
        && produced == Packed(s[..m], packNumber, old(lastID), old(chain.tailHash), digests)
        && queue.Contents() == s[m..]
      ensures chain.tailHash == TailHash(produced, old(chain.tailHash))
      ensures old(chain.Valid()) && Linked(POOL_LINKS, old(chain.blocks) + produced) ==>
        chain.Valid() && chain.blocks == old(chain.blocks) + produced
    {
      CountMature(cutoff);
      ghost var s, blocks := queue.Contents(), chain.blocks;
      assert s[..0] == [] && s[0..] == s && blocks + [] == blocks;
      produced := PackCounted(s, lastID, chain.tailHash, blocks, chain.Valid());
      assert Open(0);
    }

    /** The bookkeeper's run: blocks of packNumber transactions, numbered and chained behind the tail there
        was. A valid chain grows by them if their hashes are new. */
    method BookKeeperRun(now: int) returns (produced: seq<PoolBlock>)
      requires Valid()
      modifies this`count, this`countPointer, this`lastID, chain
      modifies queue`txMap, queue`curSize, queue.list, queue.list.Nodes()`pre, queue.list.Nodes()`next
      ensures Valid() && lastID == old(lastID) + |produced|
      ensures var s := old(queue.Contents());
        var m := Batched(Mature(s, now - 2), packNumber);
        && produced == Packed(s[..m], packNumber, old(lastID), old(chain.tailHash), digests)
        && queue.Contents() == s[m..]
      ensures chain.tailHash == TailHash(produced, old(chain.tailHash))
      ensures forall i :: 0 <= i < |produced| ==>
        SealedAt(produced, i, packNumber, old(lastID), old(chain.tailHash), digests)
      ensures old(chain.Valid()) && NewDigests(digests, old(lastID), |produced|, old(chain.blocks)) ==>
        chain.Valid() && chain.blocks == old(chain.blocks) + produced
      ensures old(chain.Valid()) && Linked(POOL_LINKS, old(chain.blocks) + produced) ==>
        chain.Valid() && chain.blocks == old(chain.blocks) + produced
    {
      ghost var s, blocks, id, tail, valid := queue.Contents(), chain.blocks, lastID, chain.tailHash, chain.Valid();
      produced := PackMature(now - 2);
      PackedGrow(blocks, s, Mature(s, now - 2), packNumber, id, tail, digests, produced, valid);
    }

    /** An ordinary node takes the transactions of a received block out of its pool. One that is not
        waiting there is a nil dereference, which `ok` reports. */
    method OrdinaryRun(txs: seq<Tx>) returns (ok: bool)
      requires Valid()
      modifies queue`txMap, queue`curSize, queue.list, queue.list.Nodes()`pre, queue.list.Nodes()`next
      ensures Valid()
      ensures ok <==> Present(old(queue.Contents()), txs)
      ensures ok ==> queue.Contents() == RemoveAll(old(queue.Contents()), txs)
    {
      ghost var s := queue.Contents();
      ghost var left := s;
      for i := 0 to |txs|
        invariant Valid()
        invariant queue.list.Nodes() <= old(queue.list.Nodes())
        invariant queue.Contents() == left && left == RemoveAll(s, txs[..i])
        invariant Present(s, txs[..i])
      {
        queue.MapIds();
        ok := queue.Out(txs[i].txID);
        if !ok {
          assert !WaitsAt(s, txs, i);
          return;
        }
        RemoveAllStep(s, txs, i);
        PresentStep(s, txs, i);
        left := Remove(left, txs[i].txID);
      }
      ok := true;
      assert txs[..|txs|] == txs;
    }
  }

  lemma RemoveAllStep(s: seq<Tx>, txs: seq<Tx>, i: nat)
    requires i < |txs|
    ensures RemoveAll(s, txs[..i + 1]) == Remove(RemoveAll(s, txs[..i]), txs[i].txID)
  {
    assert txs[..i + 1][..i] == txs[..i];
  }

  function RemoveAll(s: seq<Tx>, txs: seq<Tx>): seq<Tx> {
    if txs == [] then s else Remove(RemoveAll(s, txs[..|txs| - 1]), txs[|txs| - 1].txID)
  }

  /** Each transaction still waits when its turn to leave comes. */
  ghost predicate Present(s: seq<Tx>, txs: seq<Tx>) {
    forall i :: 0 <= i < |txs| ==> WaitsAt(s, txs, i)
  }

  ghost predicate WaitsAt(s: seq<Tx>, txs: seq<Tx>, i: nat)
    requires i < |txs|
  {
    txs[i].txID in Ids(RemoveAll(s, txs[..i]))
  }

  lemma WaitsInPrefix(s: seq<Tx>, txs: seq<Tx>, i: nat, j: nat)
    requires j < i <= |txs|
    ensures WaitsAt(s, txs[..i], j) <==> WaitsAt(s, txs, j)
  {
    assert txs[..i][..j] == txs[..j];
  }

  lemma PresentStep(s: seq<Tx>, txs: seq<Tx>, i: nat)
    requires i < |txs| && Present(s, txs[..i]) && WaitsAt(s, txs, i)
    ensures Present(s, txs[..i + 1])
  {
    var more := txs[..i + 1];
    forall j | 0 <= j < |more|
      ensures WaitsAt(s, more, j)
    {
      WaitsInPrefix(s, txs, i + 1, j);
      if j < i {
        WaitsInPrefix(s, txs, i, j);
      }
    }
  }
}
