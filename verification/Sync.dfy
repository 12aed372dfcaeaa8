/** Catching up with a longer chain (GRPC/service.go, GRPC/util.go): the sender walks back to the
    receiver's tail, the receiver appends what it gets in reverse. */
module Sync {
  import opened Bytes
  import opened Wrappers
  import opened Chain

  // ---------------------------------------------------------------- blocks on the wire

  datatype GrpcDataTransaction = GrpcDataTransaction(
    txID: Hash, dataID: string, table: string, key: string, value: string, possessor: string,
    timeStamp: int, publicKey: Bytes, signature: Bytes)

  datatype GrpcDataBlock = GrpcDataBlock(
    id: int, hash: Hash, prev: Hash, merkleRoot: Bytes, txInfo: seq<GrpcDataTransaction>, timeStamp: nat)

  datatype GrpcTableTransaction = GrpcTableTransaction(
    txID: Hash, table: string, permissionTables: seq<string>, possessor: string,
    timeStamp: int, publicKey: Bytes, signature: Bytes)

  datatype GrpcTableBlock = GrpcTableBlock(
    id: int, hash: Hash, prev: Hash, merkleRoot: Bytes, txInfo: seq<GrpcTableTransaction>, timeStamp: nat)

  /** uint64(i) */
  function ToUint64(i: int): nat {
    i % TWO_64
  }

  function Map<S, T>(f: S -> T, s: seq<S>): (r: seq<T>)
    ensures |r| == |s|
    ensures forall i :: 0 <= i < |r| ==> r[i] == f(s[i])
  {
    if s == [] then [] else Map(f, s[..|s| - 1]) + [f(s[|s| - 1])]
  }

  function DataTxToGrpc(tx: Transaction): GrpcDataTransaction {
    GrpcDataTransaction(tx.txID, tx.dataID, tx.table, tx.key, tx.value, tx.possessor, tx.timeStamp, tx.publicKey,
                        tx.signature)
  }

  function GrpcDataTxToDataTx(tx: GrpcDataTransaction): Transaction {
    Transaction(tx.txID, tx.dataID, tx.table, tx.key, tx.value, tx.possessor, tx.timeStamp, tx.publicKey, tx.signature)
  }

  function BlockToGrpcDataBlock(b: Block): GrpcDataBlock {
    GrpcDataBlock(ToInt64(b.round), b.hash, b.prev, b.merkleRoot, Map(DataTxToGrpc, b.txs), b.timeStamp)
  }

  function GrpcDataBlockToBlock(g: GrpcDataBlock): Block {
    Block(ToUint64(g.id), g.hash, g.prev, g.merkleRoot, Map(GrpcDataTxToDataTx, g.txInfo), g.timeStamp,
          [], [], [], 0, [])
  }

  function TableTxToGrpc(tx: TableTransaction): GrpcTableTransaction {
    GrpcTableTransaction(tx.txID, tx.table, tx.permissionTable, tx.possessor, tx.timeStamp, tx.publicKey, tx.signature)
  }

  function GrpcTableTxToTableTx(tx: GrpcTableTransaction): TableTransaction {
    TableTransaction(tx.txID, tx.table, tx.permissionTables, tx.possessor, tx.timeStamp, tx.publicKey, tx.signature)
  }

  function BlockToGrpcTableBlock(b: TableBlock): GrpcTableBlock {
    GrpcTableBlock(b.id, b.hash, b.prev, b.merkleRoot, Map(TableTxToGrpc, b.txs), b.timeStamp)
  }

  function GrpcTableBlockToBlock(g: GrpcTableBlock): TableBlock {
    TableBlock(g.id, g.hash, g.prev, g.merkleRoot, Map(GrpcTableTxToTableTx, g.txInfo), g.timeStamp)
  }

  function OverWire(b: Block): Block {
    GrpcDataBlockToBlock(BlockToGrpcDataBlock(b))
  }

  /** A data block arrives without author, seed, proof, type and signature, otherwise unchanged. */
  lemma DataBlockOverWire(b: Block)
    requires b.round < TWO_64
    ensures OverWire(b) == b.(author := [], seed := [], proof := [], kind := 0, signature := [])
    ensures OverWire(b) == b <==> b.author == [] && b.seed == [] && b.proof == [] && b.kind == 0 && b.signature == []
  {
    assert Map(GrpcDataTxToDataTx, Map(DataTxToGrpc, b.txs)) == b.txs;
    assert ToUint64(ToInt64(b.round)) == b.round;
  }

  /** A table block survives the wire. */
  lemma TableBlockOverWire(b: TableBlock)
    ensures GrpcTableBlockToBlock(BlockToGrpcTableBlock(b)) == b
  {
    assert Map(GrpcTableTxToTableTx, Map(TableTxToGrpc, b.txs)) == b.txs;
  }

  /** On the wire too a block names the block before it: a reader of the messages sees the chain that a
      reader of the blocks sees. */
  lemma WireShowsChain(a: Block, b: Block)
    ensures BlockToGrpcDataBlock(b).prev == BlockToGrpcDataBlock(a).hash <==> b.prev == a.hash
    ensures BlockToGrpcDataBlock(a).hash == BlockToGrpcDataBlock(b).hash <==> a.hash == b.hash
    ensures BlockToGrpcDataBlock(b).prev == GENESIS <==> b.prev == GENESIS
  {
  }

  /** The transactions travel one for one, each part under its own name. */
  lemma WireShowsTransactions(b: Block, c: TableBlock, i: nat)
    ensures |BlockToGrpcDataBlock(b).txInfo| == |b.txs| && |BlockToGrpcTableBlock(c).txInfo| == |c.txs|
    ensures i < |b.txs| ==>
      var g, tx := BlockToGrpcDataBlock(b).txInfo[i], b.txs[i];
      && g.txID == tx.txID && g.dataID == tx.dataID && g.table == tx.table && g.key == tx.key && g.value == tx.value
      && g.possessor == tx.possessor && g.publicKey == tx.publicKey && g.signature == tx.signature
    ensures i < |c.txs| ==>
      var g, tx := BlockToGrpcTableBlock(c).txInfo[i], c.txs[i];
      && g.txID == tx.txID && g.table == tx.table && g.possessor == tx.possessor
      && g.publicKey == tx.publicKey && g.signature == tx.signature
  {
  }

  /** The seed a node uses for sortition differs between the author of the seed block and a node
      that received it, unless the seed was empty to begin with. */
  lemma SeedLostOverWire(blocks: seq<Block>, received: seq<Block>, round: nat, emptySeed: Bytes)
    requires 0 < |blocks| < TWO_64 && R <= round < TWO_64 && R * (round / R) - 1 < |blocks|
    requires received == Map(OverWire, blocks) && forall b :: b in blocks ==> b.round < TWO_64
    ensures SeedOf(received, round, emptySeed) == Ok([])
    ensures SeedOf(received, round, emptySeed) == SeedOf(blocks, round, emptySeed)
      <==> blocks[R * (round / R) - 1].seed == []
  {
    SeedMeaning(blocks, round, emptySeed);
    SeedMeaning(received, round, emptySeed);
    DataBlockOverWire(blocks[R * (round / R) - 1]);
  }

  // ---------------------------------------------------------------- the sender

  /** `out` holds what comes after the first `kept` blocks, newest first. */
  ghost predicate NewestFirst<B>(out: seq<B>, blocks: seq<B>, kept: nat) {
    kept <= |blocks| && |out| == |blocks| - kept && forall i :: 0 <= i < |out| ==> out[i] == blocks[|blocks| - 1 - i]
  }

  /** Everything newer than the block with the hash `known`, newest first; a panic if the chain has
      no such block, because the walk then passes the genesis block. */
  method CollectMissing<B>(chain: BlockChain<B>, known: Hash, ghost at: nat) returns (out: Result<seq<B>>)
    requires chain.Valid()
    requires known in HashesOf(chain.links, chain.blocks) ==>
      at < |chain.blocks| && chain.links.hash(chain.blocks[at]) == known
    requires GENESIS !in chain.store
    ensures known in HashesOf(chain.links, chain.blocks) ==> out.Ok? && NewestFirst(out.value, chain.blocks, at + 1)
    ensures known !in HashesOf(chain.links, chain.blocks) ==> out == Panic
  {
    var it := chain.CreateIterator();
    var blocks: seq<B> := [];
    ghost var n := |chain.blocks|;
    while true
      invariant 0 <= n <= |chain.blocks| && it.Before(n) && it.chain == chain
      invariant NewestFirst(blocks, chain.blocks, n)
      invariant forall i :: n <= i < |chain.blocks| ==> chain.links.hash(chain.blocks[i]) != known
      decreases n
    {
      var next := it.Next();
      if next.Panic? {
        assert n == 0;
        assert forall i :: 0 <= i < |chain.blocks| ==> HashesOf(chain.links, chain.blocks)[i] != known;
        return Panic;
      }
      assert n > 0;
      assert next.value == chain.blocks[n - 1];
      if chain.links.hash(next.value) != known {
        blocks := blocks + [next.value];
        n := n - 1;
      } else {
        assert HashesOf(chain.links, chain.blocks)[n - 1] == known;
        break;
      }
    }
    out := Ok(blocks);
  }

  // ---------------------------------------------------------------- the receiver

  /** What conversion over the wire keeps of a block's links. */
  ghost predicate KeepsLinks<B(!new)>(links: Links<B>, convert: B -> B) {
    forall b {:trigger convert(b)} :: links.hash(convert(b)) == links.hash(b) && links.prev(convert(b)) == links.prev(b)
  }

  /** Blocks with the same hash have the same predecessor, as hashes without collisions provide. */
  ghost predicate SameHashSamePast<B>(links: Links<B>, a: seq<B>, b: seq<B>) {
    forall i, j {:trigger links.prev(a[i]), links.prev(b[j])} ::
      0 <= i < |a| && 0 <= j < |b| && links.hash(a[i]) == links.hash(b[j]) ==> links.prev(a[i]) == links.prev(b[j])
  }

  lemma OneBack<B>(links: Links<B>, a: seq<B>, i: nat)
    requires Linked(links, a) && i < |a|
    ensures if i == 0 then links.prev(a[i]) == GENESIS else links.prev(a[i]) == links.hash(a[i - 1]) != GENESIS
  {
    if i > 0 {
      assert HashesOf(links, a)[i - 1] == links.hash(a[i - 1]);
    }
  }

  /** Chains that share a hash share the whole past of it, at the same places. */
  lemma {:induction false} SamePast<B>(links: Links<B>, a: seq<B>, b: seq<B>, i: nat, j: nat)
    requires Linked(links, a) && Linked(links, b) && SameHashSamePast(links, a, b)
    requires i < |a| && j < |b| && links.hash(a[i]) == links.hash(b[j])
    ensures i == j
    ensures forall k :: 0 <= k <= i ==> links.hash(a[k]) == links.hash(b[k])
    decreases i
  {
    assert links.prev(a[i]) == links.prev(b[j]);
    OneBack(links, a, i);
    OneBack(links, b, j);
    if i > 0 && j > 0 {
      SamePast(links, a, b, i - 1, j - 1);
    }
  }

  /** A chain whose tail lies on another chain is that chain up to there, hash by hash. */
  lemma TailOnChain<B>(links: Links<B>, a: seq<B>, b: seq<B>, at: nat)
    requires Linked(links, a) && Linked(links, b) && SameHashSamePast(links, a, b)
    requires at < |b| && links.hash(a[|a| - 1]) == links.hash(b[at])
    ensures |a| == at + 1
    ensures HashesOf(links, a) == HashesOf(links, b)[..at + 1]
  {
    SamePast(links, a, b, |a| - 1, at);
  }

  ghost predicate PrefixOf<B>(links: Links<B>, blocks: seq<B>, remote: seq<B>) {
    |blocks| <= |remote| && HashesOf(links, blocks) == HashesOf(links, remote)[..|blocks|]
  }

  lemma NextExtends<B>(links: Links<B>, blocks: seq<B>, remote: seq<B>, b: B)
    requires Linked(links, blocks) && Linked(links, remote) && |blocks| < |remote|
    requires PrefixOf(links, blocks, remote)
    requires links.hash(b) == links.hash(remote[|blocks|]) && links.prev(b) == links.prev(remote[|blocks|])
    ensures Extends(links, blocks, b)
    ensures PrefixOf(links, blocks + [b], remote)
  {
    var n := |blocks|;
    assert HashesOf(links, blocks)[n - 1] == HashesOf(links, remote)[n - 1];
    forall i | 0 <= i < n
      ensures HashesOf(links, blocks)[i] != links.hash(b)
    {
      assert HashesOf(links, blocks)[i] == HashesOf(links, remote)[i];
    }
  }

  /** Appends one block; it extends the chain because its counterpart comes next on the other one. */
  method AppendNext<B(!new)>(local: BlockChain<B>, b: B, ghost remote: seq<B>)
    requires local.Valid() && Linked(local.links, remote) && PrefixOf(local.links, local.blocks, remote)
    requires |local.blocks| < |remote|
    requires local.links.hash(b) == local.links.hash(remote[|local.blocks|])
    requires local.links.prev(b) == local.links.prev(remote[|local.blocks|])
    modifies local
    ensures local.Valid() && local.blocks == old(local.blocks) + [b]
    ensures PrefixOf(local.links, local.blocks, remote)
  {
    NextExtends(local.links, local.blocks, remote, b);
    local.AddBlockToChain(b);
  }

  lemma TakeOneMore<T>(s: seq<T>, n: nat)
    requires n < |s|
    ensures s[..n] + [s[n]] == s[..n + 1]
  {
  }

  lemma TakeAll<T>(s: seq<T>)
    ensures s[..|s|] == s
  {
  }

  /** `target` is what the receiver's chain becomes: its own blocks, then the converted rest of
      `remote`, whose links the conversion keeps. */
  ghost predicate Continues<B(!new)>(links: Links<B>, blocks: seq<B>, remote: seq<B>, convert: B -> B, target: seq<B>) {
    && |blocks| <= |target| == |remote| && target[..|blocks|] == blocks
    && forall i {:trigger target[i]} :: |blocks| <= i < |remote| ==>
         && target[i] == convert(remote[i])
         && links.hash(target[i]) == links.hash(remote[i])
         && links.prev(target[i]) == links.prev(remote[i])
  }

  /** Appends the reply's blocks, oldest first. */
  method AppendReply<B(!new)>(local: BlockChain<B>, reply: seq<B>, convert: B -> B, ghost remote: seq<B>,
                              ghost target: seq<B>)
    requires local.Valid() && Linked(local.links, remote) && PrefixOf(local.links, local.blocks, remote)
    requires Continues(local.links, local.blocks, remote, convert, target)
    requires NewestFirst(reply, remote, |local.blocks|)
    modifies local
    ensures local.Valid() && local.blocks == target
    ensures PrefixOf(local.links, local.blocks, remote)
  {
    ghost var known := |local.blocks|;
    for i := 0 to |reply|
      invariant local.Valid() && |local.blocks| == known + i
      invariant local.blocks == target[..known + i]
      invariant PrefixOf(local.links, local.blocks, remote)
    {
      var newBlock := convert(reply[|reply| - 1 - i]);
      assert newBlock == target[known + i];
      AppendNext(local, newBlock, remote);
      TakeOneMore(target, known + i);
    }
    TakeAll(target);
  }

  /** The receiver asks with its tail and appends the reply. If its tail lies on the sender's chain
      it ends with the sender's hash chain; if not, the sender panics and nothing changes. */
  method Synchronise<B(!new)>(local: BlockChain<B>, remote: BlockChain<B>, convert: B -> B, ghost at: nat)
    returns (ok: bool)
    requires local.Valid() && remote.Valid() && local != remote && local.links == remote.links
    requires GENESIS !in remote.store && KeepsLinks(local.links, convert)
    requires SameHashSamePast(local.links, local.blocks, remote.blocks)
    requires local.tailHash in HashesOf(remote.links, remote.blocks) ==>
      at < |remote.blocks| && remote.links.hash(remote.blocks[at]) == local.tailHash
    modifies local
    ensures ok <==> old(local.tailHash) in HashesOf(remote.links, remote.blocks)
    ensures local.Valid()
    ensures ok ==> local.blocks == old(local.blocks) + Map(convert, remote.blocks[at + 1..])
    ensures ok ==> HashesOf(local.links, local.blocks) == HashesOf(remote.links, remote.blocks)
    ensures !ok ==> local.blocks == old(local.blocks) && local.store == old(local.store)
  {
    var known := local.GetBlockByHash(local.tailHash);
    assert known == Ok(local.blocks[|local.blocks| - 1]);
    var reply := CollectMissing(remote, local.links.hash(known.value), at);
    if reply.Panic? {
      return false;
    }
    ghost var target := local.blocks + Map(convert, remote.blocks[at + 1..]);
    Ready(local, remote.blocks, convert, at);
    AppendReply(local, reply.value, convert, remote.blocks, target);
    WholePrefix(local.links, local.blocks, remote.blocks);
    ok := true;
  }

  /** Before the reply is appended: the receiver's chain is the sender's up to its own tail. */
  lemma Ready<B(!new)>(local: BlockChain<B>, remote: seq<B>, convert: B -> B, at: nat)
    requires local.Valid() && Linked(local.links, remote) && KeepsLinks(local.links, convert)
    requires SameHashSamePast(local.links, local.blocks, remote)
    requires at < |remote| && local.links.hash(remote[at]) == local.tailHash
    ensures |local.blocks| == at + 1 && PrefixOf(local.links, local.blocks, remote)
    ensures Continues(local.links, local.blocks, remote, convert, local.blocks + Map(convert, remote[at + 1..]))
  {
    TailOnChain(local.links, local.blocks, remote, at);
    RestContinues(local.links, local.blocks, remote, convert, at);
  }

  lemma RestContinues<B(!new)>(links: Links<B>, blocks: seq<B>, remote: seq<B>, convert: B -> B, at: nat)
    requires |blocks| == at + 1 <= |remote| && KeepsLinks(links, convert)
    ensures Continues(links, blocks, remote, convert, blocks + Map(convert, remote[at + 1..]))
  {
    var target := blocks + Map(convert, remote[at + 1..]);
    forall i | |blocks| <= i < |remote|
      ensures target[i] == convert(remote[i])
    {
      assert target[i] == Map(convert, remote[at + 1..])[i - at - 1];
    }
  }

  lemma WholePrefix<B>(links: Links<B>, blocks: seq<B>, remote: seq<B>)
    requires PrefixOf(links, blocks, remote) && |blocks| == |remote|
    ensures HashesOf(links, blocks) == HashesOf(links, remote)
  {
    TakeAll(HashesOf(links, remote));
  }
}
