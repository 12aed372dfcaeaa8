/** The per-table index over the chain (cache/table-chain.go): for each table a bucket that numbers the
    hashes of the blocks with a transaction of that table. */
module TableIndex {
  import opened Bytes
  import opened Wrappers
  import opened Chain
  import opened Scan

  /** What a bucket stores under a key: a block hash (or "root"), or the key of the last entry. */
  datatype Cell = HashCell(hash: Hash) | KeyCell(key: Bytes)

  /** A bucket: eight-byte numeric keys from 0 on, and the table's own name as one more key. */
  type Bucket = map<Bytes, Cell>

  const ROOT := Text("root")

  /** The bucket of the table chain itself, in the same database. */
  const CHAIN_BUCKET := "blockBucket"

  /** No bucket has the empty name, and the chain's own exists from the start. */
  predicate Creatable(name: string) {
    name != "" && name != CHAIN_BUCKET
  }

  /** A name as the bytes it consists of. */
  function Raw(name: string): Bytes {
    seq(|name|, (i: int) requires 0 <= i < |name| => (name[i] as int % 256) as byte)
  }

  /** The bucket numbers `hashes` from 1 on, above the root entry. */
  ghost predicate Lists(bucket: Bucket, name: string, hashes: seq<Hash>) {
    && |hashes| < TWO_64
    && Raw(name) in bucket && bucket[Raw(name)] == KeyCell(Uint64ToBytes(|hashes|))
    && (forall i :: 0 <= i <= |hashes| ==>
          Uint64ToBytes(i) in bucket && bucket[Uint64ToBytes(i)] == HashCell(EntryAt(hashes, i)))
    && (forall i :: 0 <= i < |hashes| ==> hashes[i] != ROOT)
  }

  function EntryAt(hashes: seq<Hash>, i: nat): Hash
    requires i <= |hashes|
  {
    if i == 0 then ROOT else hashes[i - 1]
  }

  function Created(name: string): Bucket {
    map[Uint64ToBytes(0) := HashCell(ROOT)][Raw(name) := KeyCell(Uint64ToBytes(0))]
  }

  function Put(bucket: Bucket, name: string, n: nat, hash: Hash): Bucket {
    bucket[Uint64ToBytes(n) := HashCell(hash)][Raw(name) := KeyCell(Uint64ToBytes(n))]
  }

  lemma KeysDiffer(i: nat, j: nat)
    requires i < TWO_64 && j < TWO_64
    ensures Uint64ToBytes(i) == Uint64ToBytes(j) <==> i == j
  {
    Uint64RoundTrip(i);
    Uint64RoundTrip(j);
  }

  /** A new bucket is well-formed exactly if the name is not itself the first numeric key. */
  lemma CreateLists(name: string)
    ensures Lists(Created(name), name, []) <==> Raw(name) != Uint64ToBytes(0)
  {
    if Raw(name) == Uint64ToBytes(0) {
      assert Created(name)[Uint64ToBytes(0)] == KeyCell(Uint64ToBytes(0));
      assert EntryAt([], 0) == ROOT;
    }
  }

  /** An append keeps the numbering exactly if the name is not the next numeric key. */
  lemma PutLists(bucket: Bucket, name: string, hashes: seq<Hash>, hash: Hash, n: nat)
    requires Lists(bucket, name, hashes) && n == |hashes| + 1 < TWO_64 && hash != ROOT
    ensures Lists(Put(bucket, name, n, hash), name, hashes + [hash]) <==> Raw(name) != Uint64ToBytes(n)
  {
    var longer, next := hashes + [hash], Put(bucket, name, n, hash);
    assert EntryAt(longer, n) == hash;
    if Raw(name) == Uint64ToBytes(n) {
      assert next[Uint64ToBytes(n)] == KeyCell(Uint64ToBytes(n));
    } else {
      forall i | 0 <= i <= n
        ensures Uint64ToBytes(i) in next && next[Uint64ToBytes(i)] == HashCell(EntryAt(longer, i))
      {
        PutKeeps(bucket, name, hashes, hash, n, i);
      }
    }
  }

  lemma PutKeeps(bucket: Bucket, name: string, hashes: seq<Hash>, hash: Hash, n: nat, i: nat)
    requires Lists(bucket, name, hashes) && i <= n == |hashes| + 1 < TWO_64 && Raw(name) != Uint64ToBytes(n)
    ensures var key, next := Uint64ToBytes(i), Put(bucket, name, n, hash);
      key in next && next[key] == HashCell(EntryAt(hashes + [hash], i))
  {
    KeysDiffer(i, n);
    if i < n {
      assert bucket[Uint64ToBytes(i)] == HashCell(EntryAt(hashes, i));
      assert bucket[Raw(name)] == KeyCell(Uint64ToBytes(|hashes|));
    }
  }

  /** There is a numeric key for one more entry, and it is not the table's name. */
  ghost predicate HasRoom(hashes: seq<Hash>, name: string) {
    |hashes| + 1 < TWO_64 && Raw(name) != Uint64ToBytes(|hashes| + 1)
  }

  lemma PutListsIff(bucket: Bucket, name: string, hashes: seq<Hash>, hash: Hash, n: nat)
    requires Lists(bucket, name, hashes) && hash != ROOT && n == (|hashes| + 1) % TWO_64
    ensures Lists(Put(bucket, name, n, hash), name, hashes + [hash]) <==> HasRoom(hashes, name)
  {
    if n > 0 {
      PutLists(bucket, name, hashes, hash, n);
    } else {
      TooMany(Put(bucket, name, n, hash), name, hashes + [hash]);
    }
  }

  lemma TooMany(bucket: Bucket, name: string, hashes: seq<Hash>)
    requires |hashes| >= TWO_64
    ensures !Lists(bucket, name, hashes)
  {
  }

  /** The list after a transaction of the block `hash` has been entered. */
  function Entered(hashes: seq<Hash>, hash: Hash): seq<Hash> {
    if hashes != [] && hashes[|hashes| - 1] == hash then hashes else hashes + [hash]
  }

  predicate Mentions(txs: seq<Transaction>, n: nat, table: string)
    requires n <= |txs|
  {
    exists i :: 0 <= i < n && txs[i].table == table
  }

  /** The list after the first n transactions of a block have been entered. */
  function Grown(hashes: seq<Hash>, txs: seq<Transaction>, n: nat, table: string, hash: Hash): seq<Hash>
    requires n <= |txs|
  {
    if Mentions(txs, n, table) then Entered(hashes, hash) else hashes
  }

  lemma MentionsStep(txs: seq<Transaction>, n: nat, table: string)
    requires n < |txs|
    ensures Mentions(txs, n + 1, table) <==> Mentions(txs, n, table) || txs[n].table == table
  {
  }

  /** All lists after the first n transactions have been entered one by one. */
  ghost function AllEntered(lists: map<string, seq<Hash>>, txs: seq<Transaction>, n: nat, hash: Hash)
      : (r: map<string, seq<Hash>>)
    requires n <= |txs|
    ensures r.Keys == lists.Keys
  {
    if n == 0 then lists else
      var before, table := AllEntered(lists, txs, n - 1, hash), txs[n - 1].table;
      if table in before then before[table := Entered(before[table], hash)] else before
  }

  /** A block ends up once in the list of each table it mentions, however often it mentions it. */
  lemma {:induction false} EnteredOnce(lists: map<string, seq<Hash>>, txs: seq<Transaction>, n: nat, hash: Hash,
      table: string)
    requires n <= |txs| && table in lists
    ensures AllEntered(lists, txs, n, hash)[table] == Grown(lists[table], txs, n, table, hash)
  {
    if n > 0 {
      EnteredOnce(lists, txs, n - 1, hash, table);
      GrownStep(lists[table], txs, n - 1, n, table, hash);
    }
  }

  lemma GrownStep(hashes: seq<Hash>, txs: seq<Transaction>, n: nat, next: nat, table: string, hash: Hash)
    requires n < |txs| && next == n + 1
    ensures var before := Grown(hashes, txs, n, table, hash);
      Grown(hashes, txs, next, table, hash) == if txs[n].table == table then Entered(before, hash) else before
  {
    MentionsStep(txs, n, table);
  }

  ghost predicate AllKnown(lists: map<string, seq<Hash>>, txs: seq<Transaction>, n: nat)
    requires n <= |txs|
  {
    forall i :: 0 <= i < n ==> txs[i].table in lists
  }

  lemma EnteredStep(lists: map<string, seq<Hash>>, txs: seq<Transaction>, n: nat, next: nat, hash: Hash)
    requires n < |txs| && next == n + 1 && txs[n].table in lists
    ensures var table, before := txs[n].table, AllEntered(lists, txs, n, hash);
      && AllEntered(lists, txs, next, hash) == before[table := Entered(before[table], hash)]
      && (Entered(before[table], hash) != before[table] ==> before[table] == lists[table])
  {
    EnteredOnce(lists, txs, n, hash, txs[n].table);
    OnlyFirstChanges(lists[txs[n].table], txs, n, txs[n].table, hash);
  }

  lemma KnownStep(lists: map<string, seq<Hash>>, txs: seq<Transaction>, n: nat, next: nat)
    requires n < |txs| && next == n + 1 && AllKnown(lists, txs, n)
    ensures AllKnown(lists, txs, next) <==> txs[n].table in lists
  {
  }

  lemma OnlyFirstChanges(hashes: seq<Hash>, txs: seq<Transaction>, n: nat, table: string, hash: Hash)
    requires n <= |txs|
    ensures var before := Grown(hashes, txs, n, table, hash);
      Entered(before, hash) != before ==> before == hashes
  {
  }

  lemma EnteredIs(hashes: seq<Hash>, hash: Hash)
    requires hash != ROOT
    ensures Entered(hashes, hash) == if EntryAt(hashes, |hashes|) == hash then hashes else hashes + [hash]
  {
  }

  ghost predicate AllHaveRoom(lists: map<string, seq<Hash>>) {
    forall name :: name in lists ==> HasRoom(lists[name], name)
  }

  /** What the index of a table should list: the hashes of the table's blocks, without genesis. */
  ghost function TableHashes(blocks: seq<Block>, table: string): seq<Hash>
    requires blocks != []
  {
    HashesOf(DATA_LINKS, OfTable(blocks[1..], table))
  }

  lemma {:induction false} TableHashesInChain(blocks: seq<Block>, table: string)
    ensures forall h :: h in HashesOf(DATA_LINKS, OfTable(blocks, table)) ==> h in HashesOf(DATA_LINKS, blocks)
  {
    if blocks != [] {
      TableHashesInChain(blocks[..|blocks| - 1], table);
    }
  }

  lemma HashesSnoc(blocks: seq<Block>, b: Block)
    ensures HashesOf(DATA_LINKS, blocks + [b]) == HashesOf(DATA_LINKS, blocks) + [b.hash]
  {
    assert (blocks + [b])[..|blocks|] == blocks;
  }

  lemma FreshForTable(blocks: seq<Block>, hash: Hash, table: string)
    requires blocks != [] && hash !in HashesOf(DATA_LINKS, blocks)
    ensures hash !in TableHashes(blocks, table)
  {
    TableHashesInChain(blocks[1..], table);
    forall h | h in HashesOf(DATA_LINKS, blocks[1..])
      ensures h != hash
    {
      var i :| 0 <= i < |blocks[1..]| && HashesOf(DATA_LINKS, blocks[1..])[i] == h;
      assert HashesOf(DATA_LINKS, blocks)[i + 1] == h;
    }
  }

  /** Entering a new block keeps a list equal to the filtered chain. */
  lemma TableHashesGrow(blocks: seq<Block>, b: Block, table: string)
    requires blocks != [] && Extends(DATA_LINKS, blocks, b)
    ensures TableHashes(blocks + [b], table) == Grown(TableHashes(blocks, table), b.txs, |b.txs|, table, b.hash)
  {
    FreshForTable(blocks, b.hash, table);
    assert (blocks + [b])[1..] == blocks[1..] + [b];
    TableSnoc(blocks[1..], b, table);
    HashesSnoc(OfTable(blocks[1..], table), b);
  }

  lemma TableSnoc(blocks: seq<Block>, b: Block, table: string)
    ensures OfTable(blocks + [b], table) ==
      if Mentions(b.txs, |b.txs|, table) then OfTable(blocks, table) + [b] else OfTable(blocks, table)
  {
    assert (blocks + [b])[..|blocks|] == blocks;
    assert HasTable(b, table) <==> Mentions(b.txs, |b.txs|, table);
  }

  /** Each list is the chain filtered for its table. */
  ghost predicate ListsMirror(lists: map<string, seq<Hash>>, blocks: seq<Block>)
    requires blocks != []
  {
    forall name :: name in lists ==> lists[name] == TableHashes(blocks, name)
  }

  /** They stay so when a block has been appended to the chain and entered. */
  lemma StillMirrors(lists: map<string, seq<Hash>>, blocks: seq<Block>, b: Block)
    requires blocks != [] && ListsMirror(lists, blocks) && Extends(DATA_LINKS, blocks, b)
    ensures ListsMirror(AllEntered(lists, b.txs, |b.txs|, b.hash), blocks + [b])
  {
    forall name | name in lists
      ensures AllEntered(lists, b.txs, |b.txs|, b.hash)[name] == TableHashes(blocks + [b], name)
    {
      TableHashesGrow(blocks, b, name);
      EnteredOnce(lists, b.txs, |b.txs|, b.hash, name);
    }
  }

  // ---------------------------------------------------------------- the index over a run

  /** The chain and the lists of all buckets. */
  datatype IndexWorld = IndexWorld(blocks: seq<Block>, lists: map<string, seq<Hash>>)

  datatype IndexEvent = NewTable(name: string) | Entering(block: Block)

  /** A bucket is created once and under a name of its own, and a block of a table without a bucket
      ends the process. */
  ghost predicate CanIndex(w: IndexWorld, e: IndexEvent)
    requires w.blocks != []
  {
    match e
    case NewTable(name) => name !in w.lists && Creatable(name)
    case Entering(b) => Extends(DATA_LINKS, w.blocks, b) && AllKnown(w.lists, b.txs, |b.txs|)
  }

  ghost function Index(w: IndexWorld, e: IndexEvent): (r: IndexWorld)
    requires w.blocks != []
    ensures r.blocks != []
  {
    match e
    case NewTable(name) => w.(lists := w.lists[name := []])
    case Entering(b) => IndexWorld(w.blocks + [b], AllEntered(w.lists, b.txs, |b.txs|, b.hash))
  }

  ghost predicate IsIndexRun(w: IndexWorld, events: seq<IndexEvent>)
    requires w.blocks != []
    decreases events
  {
    events == [] || (CanIndex(w, events[0]) && IsIndexRun(Index(w, events[0]), events[1..]))
  }

  ghost function IndexRun(w: IndexWorld, events: seq<IndexEvent>): (r: IndexWorld)
    requires w.blocks != []
    ensures r.blocks != []
    decreases events
  {
    if events == [] then w else IndexRun(Index(w, events[0]), events[1..])
  }

  /** The lists mirror the chain, and every table of the chain has a list. */
  ghost predicate IndexInv(w: IndexWorld) {
    && w.blocks != [] && ListsMirror(w.lists, w.blocks)
    && forall i :: 0 < i < |w.blocks| ==> AllKnown(w.lists, w.blocks[i].txs, |w.blocks[i].txs|)
  }

  lemma {:induction false} NoneOfTable(blocks: seq<Block>, table: string)
    requires forall i :: 0 <= i < |blocks| ==> !HasTable(blocks[i], table)
    ensures OfTable(blocks, table) == []
  {
    if blocks != [] {
      NoneOfTable(blocks[..|blocks| - 1], table);
    }
  }

  lemma NewTableKeeps(w: IndexWorld, name: string)
    requires IndexInv(w) && name !in w.lists
    ensures IndexInv(Index(w, NewTable(name)))
  {
    forall i | 0 <= i < |w.blocks[1..]|
      ensures !HasTable(w.blocks[1..][i], name)
    {
      assert AllKnown(w.lists, w.blocks[i + 1].txs, |w.blocks[i + 1].txs|);
    }
    NoneOfTable(w.blocks[1..], name);
  }

  lemma EnteringKeeps(w: IndexWorld, b: Block)
    requires IndexInv(w) && CanIndex(w, Entering(b))
    ensures IndexInv(Index(w, Entering(b)))
  {
    StillMirrors(w.lists, w.blocks, b);
    var lists := AllEntered(w.lists, b.txs, |b.txs|, b.hash);
    forall i | 0 < i < |w.blocks + [b]|
      ensures AllKnown(lists, (w.blocks + [b])[i].txs, |(w.blocks + [b])[i].txs|)
    {
      SameKnown(w.lists, lists, (w.blocks + [b])[i].txs);
    }
  }

  lemma SameKnown(lists: map<string, seq<Hash>>, more: map<string, seq<Hash>>, txs: seq<Transaction>)
    requires lists.Keys == more.Keys
    ensures AllKnown(lists, txs, |txs|) <==> AllKnown(more, txs, |txs|)
  {
  }

  /** After any run a table's list is, in chain order and once each, the hashes of the blocks behind
      genesis that have a transaction of the table; and no table of the chain lacks a list. */
  lemma {:induction false} IndexMirrorsChain(w: IndexWorld, events: seq<IndexEvent>)
    requires IndexInv(w) && IsIndexRun(w, events)
    ensures IndexInv(IndexRun(w, events))
    decreases events
  {
    if events != [] {
      match events[0] {
        case NewTable(name) => NewTableKeeps(w, name);
        case Entering(b) => EnteringKeeps(w, b);
      }
      IndexMirrorsChain(Index(w, events[0]), events[1..]);
    }
  }

  /** Each bucket numbers the hashes listed for it. */
  ghost predicate AllListed(buckets: map<string, Bucket>, lists: map<string, seq<Hash>>) {
    && lists.Keys == buckets.Keys
    && forall name :: name in buckets ==> Lists(buckets[name], name, lists[name])
  }

  lemma ListedUpdate(buckets: map<string, Bucket>, lists: map<string, seq<Hash>>, name: string, bucket: Bucket,
      hashes: seq<Hash>)
    requires AllListed(buckets, lists)
    ensures AllListed(buckets[name := bucket], lists[name := hashes]) <==> Lists(bucket, name, hashes)
  {
    assert buckets[name := bucket][name] == bucket && lists[name := hashes][name] == hashes;
  }

  lemma MirrorUpdate(lists: map<string, seq<Hash>>, blocks: seq<Block>, name: string)
    requires name !in lists
    ensures blocks != [] && ListsMirror(lists, blocks) ==>
      (ListsMirror(lists[name := []], blocks) <==> TableHashes(blocks, name) == [])
  {
    assert lists[name := []][name] == [];
  }

  class TableIndex {
    var buckets: map<string, Bucket>
    const dataChain: BlockChain<Block>
    /** The numbered hashes of each bucket. */
    ghost var listed: map<string, seq<Hash>>

    ghost predicate Valid()
      reads this
    {
      AllListed(buckets, listed)
    }

    /** The index lists, table by table, the chain filtered for that table. */
    ghost predicate Mirrors()
      reads this, dataChain
    {
      && Valid() && dataChain.Valid() && dataChain.links == DATA_LINKS
      && ListsMirror(listed, dataChain.blocks)
    }

    constructor (dataChain: BlockChain<Block>)
      ensures Valid() && this.dataChain == dataChain && listed == map[]
    {
      buckets := map[];
      this.dataChain := dataChain;
      listed := map[];
    }

    /** A bucket that exists already, or cannot have its name, is a panic. The new one is well-formed
        exactly if the name is not the first numeric key. */
    method CreateBucket(name: string) returns (ok: bool)
      requires Valid()
      modifies this
      ensures ok <==> name !in old(listed) && Creatable(name)
      ensures listed == if ok then old(listed)[name := []] else old(listed)
      ensures Valid() <==> (ok ==> Raw(name) != Uint64ToBytes(0))
      ensures old(Mirrors()) && Valid() ==> (Mirrors() <==> (ok ==> TableHashes(dataChain.blocks, name) == []))
    {
      ok := name !in buckets && Creatable(name);
      if ok {
        CreateLists(name);
        ListedUpdate(buckets, listed, name, Created(name), []);
        MirrorUpdate(listed, dataChain.blocks, name);
        buckets := buckets[name := Created(name)];
        listed := listed[name := []];
      }
    }

    /** One entry for a block, unless it is the last entry already. A missing bucket ends the process. An
        entry keeps the bucket well-formed exactly if there is a numeric key left for it other than the
        table's name. */
    method UpdateBucket(name: string, hash: Hash) returns (ok: bool)
      requires Valid() && hash != ROOT
      modifies this
      ensures ok <==> name in old(listed)
      ensures listed == if ok then old(listed)[name := Entered(old(listed)[name], hash)] else old(listed)
      ensures Valid() <==>
        (ok ==> Entered(old(listed)[name], hash) == old(listed)[name] || HasRoom(old(listed)[name], name))
    {
      ok := name in buckets;
      if !ok {
        return;
      }
      ghost var hashes := listed[name];
      var next := Append(buckets[name], name, hash, hashes);
      ListedUpdate(buckets, listed, name, next, Entered(hashes, hash));
      buckets := buckets[name := next];
      listed := listed[name := Entered(hashes, hash)];
    }

    /** One transaction of a block. */
    method EnterTx(table: string, hash: Hash, ghost txs: seq<Transaction>, ghost was: map<string, seq<Hash>>,
        ghost n: nat, ghost next: nat)
        returns (ok: bool)
      requires Valid() && hash != ROOT && n < |txs| && next == n + 1 && table == txs[n].table
      requires AllHaveRoom(was) && AllKnown(was, txs, n) && listed == AllEntered(was, txs, n, hash)
      modifies this
      ensures Valid() && (ok <==> AllKnown(was, txs, next))
      ensures ok ==> listed == AllEntered(was, txs, next, hash)
    {
      KnownStep(was, txs, n, next);
      if table in was {
        EnteredStep(was, txs, n, next, hash);
      }
      ok := UpdateBucket(table, hash);
    }

    /** Enters a block under the table of each of its transactions; afterwards every table the block
        mentions lists it, once, and no other list has changed. */
    method UpDateByData(block: Block) returns (ok: bool)
      requires Valid() && block.hash != ROOT
      requires AllHaveRoom(listed)
      modifies this
      ensures Valid()
      ensures ok <==> AllKnown(old(listed), block.txs, |block.txs|)
      ensures ok ==> listed == AllEntered(old(listed), block.txs, |block.txs|, block.hash)
    {
      ghost var was: map<string, seq<Hash>>, n: nat := listed, 0;
      for i := 0 to |block.txs|
        invariant Valid() && n == i && listed == AllEntered(was, block.txs, n, block.hash)
        invariant AllKnown(was, block.txs, n)
      {
        ghost var next := n + 1;
        var table := block.txs[i].table;
        ok := EnterTx(table, block.hash, block.txs, was, n, next);
        if !ok {
          return;
        }
        n := next;
      }
      ok := true;
    }

    /** Every hash of a list finds the table's block in the store. */
    lemma ListedStored(table: string)
      requires Mirrors() && table in listed
      ensures FindBlocks(listed[table], dataChain.store, OfTable(dataChain.blocks[1..], table))
    {
      var blocks := OfTable(dataChain.blocks[1..], table);
      forall k | 0 <= k < |blocks|
        ensures blocks[k].hash in dataChain.store && dataChain.store[blocks[k].hash] == blocks[k]
      {
        OfTableInChain(dataChain.blocks[1..], table, k);
        assert blocks[k] in dataChain.blocks;
        assert dataChain.links.hash(blocks[k]) == blocks[k].hash;
      }
    }

    /** A missing bucket is a panic. */
    method GetInTableHashChain(id: string, table: string) returns (r: Result<Option<Found>>)
      requires Mirrors()
      ensures r == if table in listed then Ok(Lookup(OfTable(dataChain.blocks[1..], table), id)) else Panic
    {
      if table !in buckets {
        return Panic;
      }
      ListedStored(table);
      var found := WalkForNewest(buckets[table], dataChain.store, id, table, listed[table],
        OfTable(dataChain.blocks[1..], table));
      r := Ok(found);
    }

    /** Every transaction of an id, newest block first; none at all is an error. */
    method GetHistoryInTableHashChain(id: string, table: string) returns (r: Result<Option<seq<Transaction>>>)
      requires Mirrors()
      ensures r == if table !in listed then Panic else
        var txs := History(OfTable(dataChain.blocks[1..], table), id);
        Ok(if txs == [] then None else Some(txs))
      ensures r.Ok? && r.value.Some? ==>
        exists at :: Tells(r.value.value, OfTable(dataChain.blocks[1..], table), id, at)
    {
      ghost var at := HistoryMeaning(OfTable(dataChain.blocks[1..], table), id);
      if table !in buckets {
        return Panic;
      }
      ListedStored(table);
      var txs := WalkForAll(buckets[table], dataChain.store, id, table, listed[table],
        OfTable(dataChain.blocks[1..], table));
      r := Ok(if txs == [] then None else Some(txs));
    }
  }

  // ---------------------------------------------------------------- the walk through a bucket

  ghost predicate FindBlocks(hashes: seq<Hash>, store: map<Hash, Block>, blocks: seq<Block>) {
    && |hashes| == |blocks|
    && forall k :: 0 <= k < |hashes| ==> hashes[k] in store && store[hashes[k]] == blocks[k]
  }

  /** Newest block first, until one decides. */
  method WalkForNewest(bucket: Bucket, store: map<Hash, Block>, id: string, table: string, ghost hashes: seq<Hash>,
      ghost all: seq<Block>) returns (r: Option<Found>)
    requires Lists(bucket, table, hashes) && FindBlocks(hashes, store, all)
    ensures r == Lookup(all, id)
  {
    ghost var left, n := all, |all|;
    var lastKeyBytes := LastKey(bucket, table, hashes);
    while bucket[lastKeyBytes].hash != ROOT
      invariant 0 <= n == |left| && left <= all && At(bucket, hashes, n, lastKeyBytes)
      invariant Lookup(all, id) == Lookup(left, id)
      decreases n
    {
      ghost var k := n - 1;
      assert bucket[lastKeyBytes].hash == hashes[k] && left[k] == all[k];
      var block := store[bucket[lastKeyBytes].hash];
      var tx, stamp := NewestIn(block.txs, id);
      LookupStep(left, k, block, tx, id);
      if stamp > 0 {
        return Some(Found(tx.value, block.hash));
      }
      lastKeyBytes := KeyBefore(bucket, table, hashes, n, k, lastKeyBytes);
      left, n := left[..k], k;
    }
    r := None;
  }

  /** Newest block first, to the root entry. */
  method WalkForAll(bucket: Bucket, store: map<Hash, Block>, id: string, table: string, ghost hashes: seq<Hash>,
      ghost all: seq<Block>) returns (txs: seq<Transaction>)
    requires Lists(bucket, table, hashes) && FindBlocks(hashes, store, all)
    ensures txs == History(all, id)
  {
    ghost var left, n := all, |all|;
    var lastKeyBytes := LastKey(bucket, table, hashes);
    txs := [];
    while bucket[lastKeyBytes].hash != ROOT
      invariant 0 <= n == |left| && left <= all && At(bucket, hashes, n, lastKeyBytes)
      invariant History(all, id) == txs + History(left, id)
      decreases n
    {
      ghost var k := n - 1;
      assert bucket[lastKeyBytes].hash == hashes[k] && left[k] == all[k];
      var block := store[bucket[lastKeyBytes].hash];
      HistoryStep(txs, left, k, id);
      var ofId := AllOfId(block.txs, id);
      txs := txs + ofId;
      lastKeyBytes := KeyBefore(bucket, table, hashes, n, k, lastKeyBytes);
      left, n := left[..k], k;
    }
    assert left == [] && txs + History(left, id) == txs;
  }

  /** `key` is the numeric key k of the bucket. */
  ghost predicate At(bucket: Bucket, hashes: seq<Hash>, k: nat, key: Bytes) {
    && k <= |hashes| && key == Uint64ToBytes(k)
    && key in bucket && bucket[key] == HashCell(EntryAt(hashes, k))
    && (k > 0 ==> hashes[k - 1] != ROOT)
  }

  /** One more entry at the end, unless the last one is this hash already; numbers wrap around at 2^64. */
  method Append(bucket: Bucket, name: string, hash: Hash, ghost hashes: seq<Hash>) returns (next: Bucket)
    requires Lists(bucket, name, hashes) && hash != ROOT
    ensures Lists(next, name, Entered(hashes, hash)) <==> Entered(hashes, hash) == hashes || HasRoom(hashes, name)
  {
    var lastKeyBytes := LastKey(bucket, name, hashes);
    EnteredIs(hashes, hash);
    if bucket[lastKeyBytes].hash == hash {
      return bucket;
    }
    Uint64RoundTrip(|hashes|);
    var nextKey := (FromBytes(lastKeyBytes) + 1) % TWO_64;
    PutListsIff(bucket, name, hashes, hash, nextKey);
    next := Put(bucket, name, nextKey, hash);
  }

  method LastKey(bucket: Bucket, table: string, ghost hashes: seq<Hash>) returns (key: Bytes)
    requires Lists(bucket, table, hashes)
    ensures At(bucket, hashes, |hashes|, key)
  {
    assert bucket[Uint64ToBytes(|hashes|)] == HashCell(EntryAt(hashes, |hashes|));
    key := bucket[Raw(table)].key;
  }

  method KeyBefore(bucket: Bucket, ghost table: string, ghost hashes: seq<Hash>, ghost n: nat, ghost k: nat,
      key: Bytes) returns (before: Bytes)
    requires Lists(bucket, table, hashes) && n == k + 1 && At(bucket, hashes, n, key)
    ensures At(bucket, hashes, k, before)
  {
    Uint64RoundTrip(n);
    var lastKey := FromBytes(key);
    before := Uint64ToBytes(lastKey - 1);
    assert bucket[Uint64ToBytes(k)] == HashCell(EntryAt(hashes, k));
  }

  lemma LookupStep(blocks: seq<Block>, k: nat, b: Block, tx: Option<Transaction>, id: string)
    requires k == |blocks| - 1 && b == blocks[k] && tx == Newest(b.txs, id)
    ensures tx.Some? ==> Lookup(blocks, id) == Some(Found(tx.value, b.hash))
    ensures tx.None? ==> Lookup(blocks, id) == Lookup(blocks[..k], id)
  {
  }

  lemma HistoryStep(txs: seq<Transaction>, blocks: seq<Block>, k: nat, id: string)
    requires k == |blocks| - 1
    ensures txs + History(blocks, id) == (txs + OfId(blocks[k].txs, id)) + History(blocks[..k], id)
  {
  }

  method AllOfId(txs: seq<Transaction>, id: string) returns (r: seq<Transaction>)
    ensures r == OfId(txs, id)
  {
    r := [];
    for i := 0 to |txs|
      invariant r == OfId(txs[..i], id)
    {
      assert txs[..i + 1][..i] == txs[..i];
      if txs[i].dataID == id {
        r := r + [txs[i]];
      }
    }
    assert txs[..|txs|] == txs;
  }

  lemma {:induction false} OfTableInChain(blocks: seq<Block>, table: string, k: nat)
    requires k < |OfTable(blocks, table)|
    ensures OfTable(blocks, table)[k] in blocks
  {
    var front := blocks[..|blocks| - 1];
    if k < |OfTable(front, table)| {
      OfTableInChain(front, table, k);
    }
  }
}
