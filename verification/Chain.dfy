/** The block store and its walks (blockchain/blockchain_data and blockchain/blockchain_table,
    blockchain.go and util.go): adding a block, iterating backwards, looking a round up. */
module Chain {
  import opened Bytes
  import opened Wrappers

  /** A 32-byte digest, or one of the short literals the code stores in place of a hash. */
  datatype Hash = Digest(id: nat) | Text(text: string)

  /** The previous hash of a genesis block. */
  const GENESIS := Text("welcome to 407")

  datatype Transaction = Transaction(
    txID: Hash, dataID: string, table: string, key: string, value: string, possessor: string,
    timeStamp: int, publicKey: Bytes, signature: Bytes)

  /** A data block. */
  datatype Block = Block(
    round: nat, hash: Hash, prev: Hash, merkleRoot: Bytes, txs: seq<Transaction>, timeStamp: nat,
    author: Bytes, seed: Bytes, proof: Bytes, kind: int, signature: Bytes)

  datatype TableTransaction = TableTransaction(
    txID: Hash, table: string, permissionTable: seq<string>, possessor: string,
    timeStamp: int, publicKey: Bytes, signature: Bytes)

  /** A table block. */
  datatype TableBlock = TableBlock(
    id: int, hash: Hash, prev: Hash, merkleRoot: Bytes, txs: seq<TableTransaction>, timeStamp: nat)

  /** What linking needs to know of either kind of block. */
  datatype Links<!B> = Links(hash: B -> Hash, prev: B -> Hash)

  const DATA_LINKS: Links<Block> := Links((b: Block) => b.hash, (b: Block) => b.prev)

  function HashesOf<B>(links: Links<B>, blocks: seq<B>): (hs: seq<Hash>)
    ensures |hs| == |blocks|
    ensures forall i :: 0 <= i < |hs| ==> hs[i] == links.hash(blocks[i])
  {
    if blocks == [] then [] else HashesOf(links, blocks[..|blocks| - 1]) + [links.hash(blocks[|blocks| - 1])]
  }

  /** `blocks` run from a genesis block, each linked to the one before, no hash twice. */
  ghost predicate Linked<B>(links: Links<B>, blocks: seq<B>) {
    && blocks != []
    && links.prev(blocks[0]) == GENESIS
    && (forall i {:trigger links.prev(blocks[i])} :: 0 < i < |blocks| ==>
          links.prev(blocks[i]) == links.hash(blocks[i - 1]))
    && GENESIS !in HashesOf(links, blocks)
    && Distinct(HashesOf(links, blocks))
  }

  ghost predicate Distinct(hs: seq<Hash>) {
    forall i, j :: 0 <= i < j < |hs| ==> hs[i] != hs[j]
  }

  ghost predicate Stored<B>(links: Links<B>, store: map<Hash, B>, blocks: seq<B>) {
    forall i {:trigger links.hash(blocks[i])} :: 0 <= i < |blocks| ==>
      links.hash(blocks[i]) in store && store[links.hash(blocks[i])] == blocks[i]
  }

  /** `b` extends the chain `blocks`. */
  ghost predicate Extends<B>(links: Links<B>, blocks: seq<B>, b: B)
    requires blocks != []
  {
    && links.prev(b) == links.hash(blocks[|blocks| - 1])
    && links.hash(b) != GENESIS
    && links.hash(b) !in HashesOf(links, blocks)
  }

  lemma ExtendLinked<B>(links: Links<B>, blocks: seq<B>, b: B)
    requires Linked(links, blocks) && Extends(links, blocks, b)
    ensures Linked(links, blocks + [b])
  {
    forall i | 0 <= i < |blocks|
      ensures links.hash(blocks[i]) != links.hash(b)
    {
      assert HashesOf(links, blocks)[i] == links.hash(blocks[i]);
    }
  }

  lemma ExtendStored<B>(links: Links<B>, store: map<Hash, B>, blocks: seq<B>, b: B)
    requires blocks != [] && Stored(links, store, blocks) && Extends(links, blocks, b)
    ensures Stored(links, store[links.hash(b) := b], blocks + [b])
  {
    forall i | 0 <= i < |blocks|
      ensures links.hash(blocks[i]) != links.hash(b)
    {
      assert HashesOf(links, blocks)[i] == links.hash(blocks[i]);
    }
  }

  /** Every block of a chain extends the chain before it. */
  lemma PrefixLinked<B>(links: Links<B>, blocks: seq<B>, k: nat)
    requires Linked(links, blocks) && 0 < k < |blocks|
    ensures Linked(links, blocks[..k]) && Extends(links, blocks[..k], blocks[k])
  {
    var hs, front := HashesOf(links, blocks), HashesOf(links, blocks[..k]);
    forall i | 0 <= i < k
      ensures front[i] == hs[i]
    {
      assert blocks[..k][i] == blocks[i];
    }
    assert links.prev(blocks[..k][0]) == GENESIS;
    forall i | 0 < i < k
      ensures links.prev(blocks[..k][i]) == links.hash(blocks[..k][i - 1])
    {
      assert links.prev(blocks[i]) == links.hash(blocks[i - 1]);
    }
    assert links.prev(blocks[k]) == links.hash(blocks[k - 1]);
    assert links.hash(blocks[k]) == hs[k];
  }

  class BlockChain<!B> {
    const links: Links<B>
    var store: map<Hash, B>
    var tailHash: Hash
    /** The chain that ends at `tailHash`, genesis block first. */
    ghost var blocks: seq<B>

    ghost predicate Valid()
      reads this
    {
      && Linked(links, blocks)
      && Stored(links, store, blocks)
      && tailHash == links.hash(blocks[|blocks| - 1])
    }

    constructor (links: Links<B>, genesis: B)
      requires links.prev(genesis) == GENESIS && links.hash(genesis) != GENESIS
      ensures Valid() && this.links == links && blocks == [genesis]
    {
      this.links := links;
      store := map[links.hash(genesis) := genesis];
      tailHash := links.hash(genesis);
      blocks := [genesis];
    }

    /** Nothing is checked: the block is stored and becomes the tail. If it extends the chain, the
        chain is one block longer. */
    method AddBlockToChain(b: B)
      modifies this
      ensures store == old(store)[links.hash(b) := b] && tailHash == links.hash(b)
      ensures old(Valid() && Extends(links, blocks, b)) ==> Valid() && blocks == old(blocks) + [b]
    {
      ghost var longer := Valid() && Extends(links, blocks, b);
      store := store[links.hash(b) := b];
      tailHash := links.hash(b);
      if longer {
        ExtendLinked(links, blocks, b);
        ExtendStored(links, old(store), blocks, b);
        blocks := blocks + [b];
      }
    }

    method GetBlockByHash(hash: Hash) returns (r: Result<B>)
      ensures r == if hash in store then Ok(store[hash]) else Panic
    {
      if hash in store {
        r := Ok(store[hash]);
      } else {
        r := Panic;
      }
    }

    method CreateIterator() returns (it: Iterator<B>)
      requires Valid()
      ensures fresh(it) && it.chain == this && it.Before(|blocks|)
    {
      it := new Iterator(this);
    }
  }

  class Iterator<!B> {
    const chain: BlockChain<B>
    var currentHash: Hash

    constructor (chain: BlockChain<B>)
      ensures this.chain == chain && currentHash == chain.tailHash
    {
      this.chain := chain;
      currentHash := chain.tailHash;
    }

    /** The next block is the one at position n - 1; at 0 the genesis block has been passed. */
    ghost predicate Before(n: int)
      reads this, chain
    {
      0 <= n <= |chain.blocks|
      && currentHash == if n == 0 then GENESIS else chain.links.hash(chain.blocks[n - 1])
    }

    method Next() returns (r: Result<B>)
      modifies this
      ensures r == if old(currentHash) in chain.store then Ok(chain.store[old(currentHash)]) else Panic
      ensures chain.Valid() ==> forall n :: 0 < n && old(Before(n)) ==> r == Ok(chain.blocks[n - 1]) && Before(n - 1)
    {
      if currentHash in chain.store {
        var block := chain.store[currentHash];
        currentHash := chain.links.prev(block);
        r := Ok(block);
      } else {
        r := Panic;
      }
    }
  }

  // ---------------------------------------------------------------- rounds

  ghost predicate ConsecutiveRounds(blocks: seq<Block>) {
    forall i :: 0 <= i < |blocks| ==> blocks[i].round == i
  }

  /** The rounds GetByRound can return on a chain whose last round is `last`: it stops walking when
      it arrives at round 1, so from round 2 on it misses the rounds 0 and 1. */
  predicate Reachable(last: nat, round: nat) {
    round == last || 2 <= round <= last || (last == 1 && round == 0)
  }

  method GetByRound(chain: BlockChain<Block>, round: nat) returns (b: Option<Block>)
    requires chain.Valid() && chain.links == DATA_LINKS && ConsecutiveRounds(chain.blocks)
    ensures b == if Reachable(|chain.blocks| - 1, round) then Some(chain.blocks[round]) else None
  {
    var last := chain.GetBlockByHash(chain.tailHash);
    if last.value.round < round {
      return None;
    }
    var block := last.value;
    ghost var i := |chain.blocks| - 1;
    while true
      invariant 0 <= i < |chain.blocks| && block == chain.blocks[i] && round <= |chain.blocks| - 1
      invariant i < |chain.blocks| - 1 ==> round <= i && (i >= 2 || (i == 0 && |chain.blocks| == 2))
      decreases i
    {
      if block.round == round {
        return Some(block);
      }
      assert chain.links.prev(chain.blocks[i]) == chain.links.hash(chain.blocks[i - 1]);
      var before := chain.GetBlockByHash(block.prev);
      assert before == Ok(chain.blocks[i - 1]);
      block := before.value;
      i := i - 1;
      if block.round == 1 {
        break;
      }
    }
    b := None;
  }

  /** The interval at which the sortition seed is refreshed. */
  const R := 1000

  /** The round whose block supplies the seed, in 64-bit arithmetic; None for the fixed seed. */
  function SeedRound(round: nat): Option<nat> {
    var realR := (round + TWO_64 - 1) % TWO_64;
    var mod := round % R;
    if realR < mod then None else Some(realR - mod)
  }

  /** The seed, or Panic where the code dereferences the nil block it got for a missing round. */
  method SortitionSeed(chain: BlockChain<Block>, round: nat, emptySeed: Bytes) returns (seed: Result<Bytes>)
    requires chain.Valid() && chain.links == DATA_LINKS && ConsecutiveRounds(chain.blocks)
    requires round < TWO_64
    ensures seed == SeedOf(chain.blocks, round, emptySeed)
  {
    var realR := (round + TWO_64 - 1) % TWO_64;
    var mod := round % R;
    if realR < mod {
      return Ok(emptySeed);
    }
    realR := realR - mod;
    var b := GetByRound(chain, realR);
    if b.None? {
      return Panic;
    }
    seed := Ok(b.value.seed);
  }

  function SeedOf(blocks: seq<Block>, round: nat, emptySeed: Bytes): Result<Bytes>
    requires blocks != []
  {
    match SeedRound(round)
    case None => Ok(emptySeed)
    case Some(r) => if Reachable(|blocks| - 1, r) then Ok(blocks[r].seed) else Panic
  }

  /** Below R the seed is fixed, later it is that of the last block of the window before; the lookup
      fails exactly for round 0 and for windows whose seed block does not exist yet. */
  lemma SeedMeaning(blocks: seq<Block>, round: nat, emptySeed: Bytes)
    requires 0 < |blocks| < TWO_64 && round < TWO_64
    ensures 0 < round < R ==> SeedOf(blocks, round, emptySeed) == Ok(emptySeed)
    ensures R <= round && R * (round / R) - 1 < |blocks| ==>
      SeedOf(blocks, round, emptySeed) == Ok(blocks[R * (round / R) - 1].seed)
    ensures SeedOf(blocks, round, emptySeed).Panic?
      <==> round == 0 || (R <= round && R * (round / R) - 1 >= |blocks|)
    ensures 0 < round <= |blocks| ==> SeedOf(blocks, round, emptySeed).Ok?
  {
    if round > 0 {
      assert (round + TWO_64 - 1) % TWO_64 == round - 1;
      assert round == R * (round / R) + round % R;
    }
  }

  /** All rounds of a window, over any two chains that share the seed block, use one seed. */
  lemma SeedConstantInWindow(blocks: seq<Block>, longer: seq<Block>, round: nat, other: nat, emptySeed: Bytes)
    requires 0 < |blocks| < TWO_64 && 0 < |longer| < TWO_64 && blocks <= longer
    requires 0 < round <= |blocks| && 0 < other <= |longer| && other < TWO_64 && round / R == other / R
    ensures SeedOf(blocks, round, emptySeed) == SeedOf(longer, other, emptySeed)
  {
    SeedMeaning(blocks, round, emptySeed);
    SeedMeaning(longer, other, emptySeed);
  }
}
