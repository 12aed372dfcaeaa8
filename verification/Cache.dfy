/** The cache in front of the chain (cache/cache.go): four places to look, in order, and the update
    when a block arrives. What it does to the two lists is the step function of module Tiers. */
module Cache {
  import opened LinkedLists
  import opened Folds
  import opened Wrappers
  import opened Chain
  import opened Scan
  import opened Lru
  import opened Tiers
  import opened TableIndex

  // ---------------------------------------------------------------- two lists side by side

  /** The lists share no object; folded. */
  ghost predicate Apart(a: Lru, b: Lru)
    reads a, a.list, b, b.list
  {
    forall u :: Open(u) ==> a.Repr() !! b.Repr()
  }

  /** The transaction an index entry stands for, read from its block. */
  method Fetch(store: map<Hash, Block>, slot: Slot) returns (tx: Transaction)
    requires Resolves(store, slot)
    ensures tx == Fetched(store, slot)
  {
    var txs := store[slot.blockHash].txs;
    var tx0: Option<Transaction> := None;
    for i := 0 to |txs|
      invariant tx0 == TxWith(txs[..i], slot.txID)
    {
      assert txs[..i + 1][..i] == txs[..i];
      if txs[i].txID == slot.txID {
        tx0 := Some(txs[i]);
      }
    }
    assert txs[..|txs|] == txs;
    tx := tx0.value;
  }

  lemma MovedThenCut(s: seq<Slot>, k: nat)
    requires DistinctKeys(s) && k < |s|
    ensures HasKey(Moved(s, k), KeyOf(s[k])) && Place(Moved(s, k), KeyOf(s[k])) == |s| - 1
    ensures Moved(s, k)[|s| - 1] == Touched(s[k]) && Cut(Moved(s, k), |s| - 1) == Cut(s, k)
  {
    CutKeys(s, k);
    SnocKeys(Cut(s, k), Touched(s[k]));
  }

  /** An access to an index entry; true if it was the third and the entry is gone. */
  method Access(idx: Lru, id: string, ghost s: seq<Slot>, ghost k: nat) returns (gone: bool)
    requires idx.Valid() && idx.Entries() == s && HasKey(s, id) && k == Place(s, id) && s[k].IndexSlot?
    modifies idx.Repr()
    ensures idx.Valid() && idx.list.Nodes() <= old(idx.list.Nodes())
    ensures gone <==> s[k].count + 1 >= 3
    ensures idx.Entries() == if gone then Cut(s, k) else Moved(s, k)
  {
    idx.MapKeys();
    MovedThenCut(s, k);
    idx.ToTail(id);
    gone := idx.CheckDel(id);
  }

  /** Access, beside another list. */
  method AccessBeside(txs: Lru, idx: Lru, id: string, ghost s: seq<Slot>, ghost k: nat) returns (gone: bool)
    requires txs.Valid() && idx.Valid() && Apart(txs, idx)
    requires idx.Entries() == s && HasKey(s, id) && k == Place(s, id) && s[k].IndexSlot?
    modifies idx.Repr()
    ensures txs.Valid() && idx.Valid() && Apart(txs, idx) && idx.Repr() <= old(idx.Repr())
    ensures txs.Entries() == old(txs.Entries()) && txs.Repr() == old(txs.Repr())
    ensures gone <==> s[k].count + 1 >= 3
    ensures idx.Entries() == if gone then Cut(s, k) else Moved(s, k)
  {
    assert Open(0);
    gone := Access(idx, id, s, k);
  }

  /** getInIndex, toTail and checkDel. */
  method AccessIndexed(txs: Lru, idx: Lru, id: string, store: map<Hash, Block>, ghost s: seq<Slot>)
      returns (tx: Transaction, gone: bool)
    requires txs.Valid() && idx.Valid() && Apart(txs, idx)
    requires idx.Entries() == s && HasKey(s, id) && Resolves(store, s[Place(s, id)])
    modifies idx.Repr()
    ensures txs.Valid() && idx.Valid() && Apart(txs, idx) && idx.Repr() <= old(idx.Repr())
    ensures txs.Entries() == old(txs.Entries()) && txs.Repr() == old(txs.Repr())
    ensures tx == Fetched(store, s[Place(s, id)]) && (gone <==> s[Place(s, id)].count + 1 >= 3)
    ensures idx.Entries() == if gone then Cut(s, Place(s, id)) else Moved(s, Place(s, id))
  {
    var slot := idx.Get(id);
    tx := Fetch(store, slot.value);
    gone := AccessBeside(txs, idx, id, s, Place(s, id));
  }

  /** queueIn on one list, beside another. */
  method QueueBeside(a: Lru, b: Lru, x: Slot)
    requires a.Valid() && b.Valid() && Apart(a, b) && !HasKey(a.Entries(), KeyOf(x))
    modifies a.Repr()
    ensures a.Valid() && b.Valid() && Apart(a, b) && fresh(a.Repr() - old(a.Repr()))
    ensures a.Entries() == Queued(old(a.Entries()), a.maxSize, x) && b.Entries() == old(b.Entries())
    ensures b.Repr() == old(b.Repr())
  {
    assert Open(0);
    a.QueueIn(x);
  }

  /** Tier two: the entry counts the access; on the third the transaction changes lists. */
  method ReadIndexed(txs: Lru, idx: Lru, id: string, store: map<Hash, Block>, ghost c: Tiers) returns (tx: Transaction)
    requires txs.Valid() && idx.Valid() && Apart(txs, idx) && txs.maxSize == TX_MAX
    requires c == Tiers(txs.Entries(), idx.Entries()) && CanRead(c, id, store)
    requires !HasKey(c.txs, id) && HasKey(c.idx, id) && Fetched(store, c.idx[Place(c.idx, id)]).dataID == id
    modifies txs.Repr(), idx.Repr()
    ensures txs.Valid() && idx.Valid() && Apart(txs, idx)
    ensures fresh(txs.Repr() - old(txs.Repr())) && idx.Repr() <= old(idx.Repr())
    ensures Tiers(txs.Entries(), idx.Entries()) == ReadTiers(c, id, store, None)
    ensures Answer(c, id, store, None) == Some(tx)
  {
    var gone;
    ghost var k := Place(c.idx, id);
    tx, gone := AccessIndexed(txs, idx, id, store, c.idx);
    assert idx.Entries() == if gone then Cut(c.idx, k) else Moved(c.idx, k);
    if gone {
      QueueBeside(txs, idx, TxSlot(tx));
    }
  }

  // ---------------------------------------------------------------- new blocks

  lemma LastOfSnoc(txs: seq<Transaction>, i: nat, id: string)
    requires i < |txs|
    ensures LastOf(txs[..i + 1], id) == if txs[i].dataID == id then Some(txs[i]) else LastOf(txs[..i], id)
  {
    assert txs[..i + 1][..i] == txs[..i];
  }

  /** Refresh by the first n transactions of a block. */
  function Refreshing(s: seq<Slot>, txs: seq<Transaction>, n: nat, hash: Hash): seq<Slot>
    requires n <= |txs|
  {
    Refresh(s, txs[..n], hash)
  }

  lemma RefreshNothing(s: seq<Slot>, txs: seq<Transaction>, hash: Hash)
    ensures Refreshing(s, txs, 0, hash) == s
  {
  }

  lemma RefreshStep(s: seq<Slot>, txs: seq<Transaction>, n: nat, next: nat, hash: Hash)
    requires n < |txs| && next == n + 1 && DistinctKeys(s)
    ensures Refreshing(s, txs, next, hash) == Followed(Refreshing(s, txs, n, hash), txs[n], hash)
  {
    var now, after, id := Refresh(s, txs[..n], hash), Refresh(s, txs[..next], hash), txs[n].dataID;
    RefreshKeys(s, txs[..n], hash);
    forall j | 0 <= j < |s|
      ensures after[j] == if KeyOf(s[j]) == id then Pointed(now[j], txs[n], hash) else now[j]
    {
      LastOfSnoc(txs, n, KeyOf(s[j]));
    }
  }

  /** What a transaction does to a list that knows its id. */
  function Followed(s: seq<Slot>, tx: Transaction, hash: Hash): seq<Slot> {
    if HasKey(s, tx.dataID) then s[Place(s, tx.dataID) := Pointed(s[Place(s, tx.dataID)], tx, hash)] else s
  }

  /** updateDataCache, for one transaction and one list. */
  method FollowOne(a: Lru, tx: Transaction, hash: Hash)
    requires a.Valid()
    modifies a.list.Nodes()`val
    ensures a.Valid() && a.Entries() == Followed(old(a.Entries()), tx, hash)
  {
    var slot := a.Get(tx.dataID);
    if slot.Some? {
      a.Update(tx.dataID, Pointed(slot.value, tx, hash));
    }
  }

  /** The same beside the other list. */
  method Follow(a: Lru, b: Lru, tx: Transaction, hash: Hash)
    requires a.Valid() && b.Valid() && Apart(a, b)
    modifies a.list.Nodes()`val
    ensures a.Valid() && b.Valid() && Apart(a, b)
    ensures a.Entries() == Followed(old(a.Entries()), tx, hash)
    ensures b.Entries() == old(b.Entries())
  {
    assert Open(0);
    FollowOne(a, tx, hash);
  }

  /** updateDataCache: both lists end as if every entry had followed the block's last word on it. */
  method UpdateDataCache(txs: Lru, idx: Lru, block: Block)
    requires txs.Valid() && idx.Valid() && Apart(txs, idx)
    modifies txs.list.Nodes()`val, idx.list.Nodes()`val
    ensures txs.Valid() && idx.Valid() && Apart(txs, idx)
    ensures txs.Entries() == Refresh(old(txs.Entries()), block.txs, block.hash)
    ensures idx.Entries() == Refresh(old(idx.Entries()), block.txs, block.hash)
  {
    assert Open(0);
    ghost var s, t, n := txs.Entries(), idx.Entries(), 0;
    txs.MapKeys();
    idx.MapKeys();
    RefreshNothing(s, block.txs, block.hash);
    RefreshNothing(t, block.txs, block.hash);
    for i := 0 to |block.txs|
      invariant n == i && txs.Valid() && idx.Valid() && Apart(txs, idx)
      invariant txs.Entries() == Refreshing(s, block.txs, n, block.hash)
      invariant idx.Entries() == Refreshing(t, block.txs, n, block.hash)
    {
      ghost var next := n + 1;
      RefreshStep(s, block.txs, n, next, block.hash);
      RefreshStep(t, block.txs, n, next, block.hash);
      Follow(txs, idx, block.txs[i], block.hash);
      Follow(idx, txs, block.txs[i], block.hash);
      n := next;
    }
    assert block.txs[..|block.txs|] == block.txs;
  }

  /** toTail on one list, beside another. */
  method ToTailBeside(a: Lru, b: Lru, id: string)
    requires a.Valid() && b.Valid() && Apart(a, b) && HasKey(a.Entries(), id)
    modifies a.Repr()
    ensures a.Valid() && b.Valid() && Apart(a, b) && a.Repr() == old(a.Repr()) && b.Repr() == old(b.Repr())
    ensures a.Entries() == Moved(old(a.Entries()), old(Place(a.Entries(), id))) && b.Entries() == old(b.Entries())
  {
    assert Open(0);
    a.ToTail(id);
  }

  ghost predicate BothValid(txs: Lru, idx: Lru)
    reads txs, txs.list, txs.list.Nodes(), idx, idx.list, idx.list.Nodes()
  {
    txs.Valid() && idx.Valid() && Apart(txs, idx) && txs.maxSize == TX_MAX && idx.maxSize == INDEX_MAX
  }

  method NewBeside(a: Lru, maxSize: nat) returns (b: Lru)
    requires a.Valid()
    ensures a.Valid() && a.Entries() == old(a.Entries()) && Apart(a, b)
    ensures b.Valid() && b.Entries() == [] && b.maxSize == maxSize && fresh(b.Repr())
  {
    b := new Lru(maxSize);
  }

  method NewLists() returns (txs: Lru, idx: Lru)
    ensures BothValid(txs, idx) && txs.Entries() == [] && idx.Entries() == []
    ensures fresh(txs.Repr()) && fresh(idx.Repr())
  {
    txs := new Lru(TX_MAX);
    idx := NewBeside(txs, INDEX_MAX);
  }

  method ReadCached(txs: Lru, idx: Lru, id: string, ghost c: Tiers) returns (tx: Transaction)
    requires BothValid(txs, idx) && c == Tiers(txs.Entries(), idx.Entries())
    requires HasKey(c.txs, id) && c.txs[Place(c.txs, id)].TxSlot?
    modifies txs.Repr()
    ensures BothValid(txs, idx) && txs.Repr() == old(txs.Repr()) && idx.Repr() == old(idx.Repr())
    ensures Tiers(txs.Entries(), idx.Entries()) == c.(txs := Moved(c.txs, Place(c.txs, id)))
    ensures tx == c.txs[Place(c.txs, id)].tx
  {
    var cached := txs.Get(id);
    tx := cached.value.tx;
    ToTailBeside(txs, idx, id);
  }

  method IndexTier(txs: Lru, idx: Lru, id: string, store: map<Hash, Block>, ghost c: Tiers)
      returns (tx: Option<Transaction>)
    requires BothValid(txs, idx) && c == Tiers(txs.Entries(), idx.Entries()) && CanRead(c, id, store)
    requires HasKey(c.idx, id) ==> Fetched(store, c.idx[Place(c.idx, id)]).dataID == id
    requires !HasKey(c.txs, id)
    modifies txs.Repr(), idx.Repr()
    ensures BothValid(txs, idx) && fresh(txs.Repr() - old(txs.Repr())) && idx.Repr() <= old(idx.Repr())
    ensures tx.None? <==> !HasKey(c.idx, id)
    ensures Tiers(txs.Entries(), idx.Entries()) == ReadTiers(c, id, store, None)
    ensures tx == Answer(c, id, store, None)
  {
    var indexed := idx.Get(id);
    if indexed.None? {
      return None;
    }
    var found := ReadIndexed(txs, idx, id, store, c);
    tx := Some(found);
  }

  /** Tiers one and two; None if neither list knows the id. */
  method InLists(txs: Lru, idx: Lru, id: string, store: map<Hash, Block>, ghost c: Tiers)
      returns (tx: Option<Transaction>)
    requires BothValid(txs, idx) && c == Tiers(txs.Entries(), idx.Entries()) && CanRead(c, id, store)
    requires HasKey(c.idx, id) ==> Fetched(store, c.idx[Place(c.idx, id)]).dataID == id
    modifies txs.Repr(), idx.Repr()
    ensures BothValid(txs, idx) && fresh(txs.Repr() - old(txs.Repr())) && idx.Repr() <= old(idx.Repr())
    ensures tx.None? <==> !HasKey(c.txs, id) && !HasKey(c.idx, id)
    ensures Tiers(txs.Entries(), idx.Entries()) == ReadTiers(c, id, store, None)
    ensures tx == Answer(c, id, store, None)
  {
    var cached := txs.Get(id);
    if cached.Some? {
      var found := ReadCached(txs, idx, id, c);
      return Some(found);
    }
    tx := IndexTier(txs, idx, id, store, c);
  }

  // ---------------------------------------------------------------- the cache

  /** The table index mirrors the chain; naming Open(0) unfolds it. */
  ghost predicate Mirrored(tables: TableIndex)
    reads tables, tables.dataChain
  {
    forall u :: Open(u) ==> tables.Mirrors()
  }

  ghost predicate PartsValid(txs: Lru, idx: Lru, tables: TableIndex, chain: BlockChain<Block>)
    reads chain, tables
    reads txs, txs.list, txs.list.Nodes(), idx, idx.list, idx.list.Nodes()
  {
    && BothValid(txs, idx) && tables.dataChain == chain && Mirrored(tables) && chain.blocks != []
    && {tables, chain} !! (txs.Repr() + idx.Repr())
  }

  method TableTier(tables: TableIndex, id: string, table: string) returns (r: Result<Option<Found>>)
    requires Mirrored(tables) && tables.dataChain.blocks != []
    ensures r == if table in tables.listed then Ok(Lookup(OfTable(tables.dataChain.blocks[1..], table), id)) else Panic
  {
    assert Open(0);
    r := tables.GetInTableHashChain(id, table);
  }

  method ChainTier(tables: TableIndex, id: string) returns (r: Option<Found>)
    requires Mirrored(tables) && tables.dataChain.blocks != []
    ensures r == Lookup(tables.dataChain.blocks[1..], id)
  {
    assert Open(0);
    r := GetInBoltDb(tables.dataChain, id);
  }

  /** Tiers three and four; a table without a bucket is a panic. */
  method ScanTiers(tables: TableIndex, chain: BlockChain<Block>, id: string, table: string)
      returns (r: Result<Option<Found>>)
    requires tables.dataChain == chain && Mirrored(tables) && chain.blocks != []
    ensures r == if table in tables.listed then Ok(Scanned(chain.blocks[1..], id, table)) else Panic
  {
    r := TableTier(tables, id, table);
    if r.Panic? || r.value.Some? {
      return;
    }
    var whole := ChainTier(tables, id);
    r := Ok(whole);
  }

  /** InLists, beside the chain and its tables. */
  method InListsBeside(txs: Lru, idx: Lru, tables: TableIndex, chain: BlockChain<Block>, id: string, ghost c: Tiers)
      returns (tx: Option<Transaction>)
    requires PartsValid(txs, idx, tables, chain) && c == Tiers(txs.Entries(), idx.Entries())
    requires CanRead(c, id, chain.store)
    requires HasKey(c.idx, id) ==> Fetched(chain.store, c.idx[Place(c.idx, id)]).dataID == id
    modifies txs.Repr(), idx.Repr()
    ensures PartsValid(txs, idx, tables, chain)
    ensures fresh(txs.Repr() - old(txs.Repr())) && fresh(idx.Repr() - old(idx.Repr()))
    ensures tx.None? <==> !HasKey(c.txs, id) && !HasKey(c.idx, id)
    ensures Tiers(txs.Entries(), idx.Entries()) == ReadTiers(c, id, chain.store, None)
    ensures tx == Answer(c, id, chain.store, None)
  {
    assert Open(0);
    tx := InLists(txs, idx, id, chain.store, c);
  }

  /** What the lower tiers found becomes an index entry. */
  method KeepFound(txs: Lru, idx: Lru, tables: TableIndex, chain: BlockChain<Block>, id: string, scan: Option<Found>,
      ghost c: Tiers)
    requires PartsValid(txs, idx, tables, chain) && c == Tiers(txs.Entries(), idx.Entries())
    requires CanRead(c, id, chain.store) && !HasKey(c.txs, id) && !HasKey(c.idx, id)
    modifies idx.Repr()
    ensures PartsValid(txs, idx, tables, chain)
    ensures txs.Repr() == old(txs.Repr()) && fresh(idx.Repr() - old(idx.Repr()))
    ensures Tiers(txs.Entries(), idx.Entries()) == ReadTiers(c, id, chain.store, scan)
  {
    assert Open(0);
    if scan.Some? {
      QueueBeside(idx, txs, IndexSlot(id, scan.value.blockHash, scan.value.tx.txID, 1));
    }
  }

  /** Tiers three and four; what they find becomes an index entry. */
  method ReadBelow(txs: Lru, idx: Lru, tables: TableIndex, chain: BlockChain<Block>, id: string, table: string,
      ghost c: Tiers) returns (r: Result<Option<Transaction>>)
    requires PartsValid(txs, idx, tables, chain) && c == Tiers(txs.Entries(), idx.Entries())
    requires CanRead(c, id, chain.store) && !HasKey(c.txs, id) && !HasKey(c.idx, id)
    modifies idx.Repr()
    ensures PartsValid(txs, idx, tables, chain)
    ensures txs.Repr() == old(txs.Repr()) && fresh(idx.Repr() - old(idx.Repr()))
    ensures r.Panic? <==> table !in tables.listed
    ensures r.Panic? ==> Tiers(txs.Entries(), idx.Entries()) == c
    ensures r.Ok? ==>
      && Tiers(txs.Entries(), idx.Entries()) == ReadTiers(c, id, chain.store, Scanned(chain.blocks[1..], id, table))
      && r.value == Answer(c, id, chain.store, Scanned(chain.blocks[1..], id, table))
  {
    var scan := ScanTiers(tables, chain, id, table);
    if scan.Panic? {
      return Panic;
    }
    KeepFound(txs, idx, tables, chain, id, scan.value, c);
    r := Ok(TxOf(scan.value));
  }

  /** All four tiers. */
  method ReadAll(txs: Lru, idx: Lru, tables: TableIndex, chain: BlockChain<Block>, id: string, table: string,
      ghost c: Tiers) returns (r: Result<Option<Transaction>>)
    requires PartsValid(txs, idx, tables, chain) && c == Tiers(txs.Entries(), idx.Entries())
    requires CanRead(c, id, chain.store)
    requires HasKey(c.idx, id) ==> Fetched(chain.store, c.idx[Place(c.idx, id)]).dataID == id
    modifies txs.Repr(), idx.Repr()
    ensures PartsValid(txs, idx, tables, chain)
    ensures fresh(txs.Repr() - old(txs.Repr())) && fresh(idx.Repr() - old(idx.Repr()))
    ensures r.Panic? <==> !HasKey(c.txs, id) && !HasKey(c.idx, id) && table !in tables.listed
    ensures r.Panic? ==> Tiers(txs.Entries(), idx.Entries()) == c
    ensures r.Ok? ==>
      && Tiers(txs.Entries(), idx.Entries()) == ReadTiers(c, id, chain.store, Scanned(chain.blocks[1..], id, table))
      && r.value == Answer(c, id, chain.store, Scanned(chain.blocks[1..], id, table))
  {
    var cached := InListsBeside(txs, idx, tables, chain, id, c);
    r := Ok(cached);
    if cached.None? {
      r := ReadBelow(txs, idx, tables, chain, id, table, c);
    }
  }

  class Cache {
    const listTx: Lru
    const listIndex: Lru
    const tableInfo: TableIndex
    const dataChain: BlockChain<Block>
    /** Chain and lists as a state of module Tiers, after reads of the ids in `log`. */
    ghost function State(log: seq<string>): World
      reads dataChain, listTx, listTx.list, listTx.list.Nodes(), listIndex, listIndex.list, listIndex.list.Nodes()
      requires BothValid(listTx, listIndex)
    {
      World(dataChain.blocks, dataChain.store, Tiers(listTx.Entries(), listIndex.Entries()), log)
    }

    ghost predicate Valid()
      reads dataChain, tableInfo
      reads listTx, listTx.list, listTx.list.Nodes(), listIndex, listIndex.list, listIndex.list.Nodes()
    {
      PartsValid(listTx, listIndex, tableInfo, dataChain)
    }

    constructor (txs: Lru, idx: Lru, tables: TableIndex, chain: BlockChain<Block>)
      requires PartsValid(txs, idx, tables, chain)
      ensures Valid() && listTx == txs && listIndex == idx && tableInfo == tables && dataChain == chain
    {
      listTx, listIndex, tableInfo, dataChain := txs, idx, tables, chain;
    }

    /** One read. On every state the machine of module Tiers can reach, it is that machine's step, and
        the answer is what a scan of the chain finds; a table without a bucket is a panic, unless one
        of the lists knows the id. */
    method GetOneValue(id: string, table: string, ghost log: seq<string>) returns (r: Result<Option<Transaction>>)
      requires Valid() && Inv(State(log)) && MayRead(State(log), id, table)
      modifies listTx.Repr(), listIndex.Repr()
      ensures Valid()
      ensures fresh(listTx.Repr() - old(listTx.Repr())) && fresh(listIndex.Repr() - old(listIndex.Repr()))
      ensures table in tableInfo.listed ==> r.Ok?
      ensures r.Ok? ==> r.value == TxOf(Lookup(dataChain.blocks[1..], id))
      ensures r.Ok? ==> State(log + [id]) == Step(old(State(log)), Read(id, table)) && Inv(State(log + [id]))
      ensures r.Panic? ==> State(log) == old(State(log))
    {
      ghost var w := State(log);
      ReadReady(w, id, table);
      r := ReadAll(listTx, listIndex, tableInfo, dataChain, id, table, w.tiers);
    }

    /** Every transaction of an id, newest block first. */
    method GetHistoryValue(id: string, table: string) returns (r: Result<Option<seq<Transaction>>>)
      requires Valid() && Covers(dataChain.blocks[1..], id, table)
      ensures r == if table !in tableInfo.listed then Panic else
        var txs := History(dataChain.blocks[1..], id);
        Ok(if txs == [] then None else Some(txs))
      ensures r.Ok? && r.value.Some? ==> exists at :: Tells(r.value.value, dataChain.blocks[1..], id, at)
    {
      assert Open(0);
      ghost var at := HistoryMeaning(dataChain.blocks[1..], id);
      HistoryIff(dataChain.blocks[1..], id, table);
      r := tableInfo.GetHistoryInTableHashChain(id, table);
    }

    /** UpdateByDataBlock: both lists follow the block, then every table the block mentions lists it. */
    method UpdateByDataBlock(block: Block) returns (ok: bool)
      requires BothValid(listTx, listIndex) && tableInfo !in listTx.Repr() + listIndex.Repr()
      requires tableInfo.Valid() && AllHaveRoom(tableInfo.listed) && block.hash != ROOT
      modifies listTx.list.Nodes()`val, listIndex.list.Nodes()`val, tableInfo
      ensures BothValid(listTx, listIndex) && tableInfo.Valid()
      ensures listTx.Entries() == Refresh(old(listTx.Entries()), block.txs, block.hash)
      ensures listIndex.Entries() == Refresh(old(listIndex.Entries()), block.txs, block.hash)
      ensures ok <==> AllKnown(old(tableInfo.listed), block.txs, |block.txs|)
      ensures ok ==> tableInfo.listed == AllEntered(old(tableInfo.listed), block.txs, |block.txs|, block.hash)
    {
      UpdateDataCache(listTx, listIndex, block);
      ok := tableInfo.UpDateByData(block);
    }

    /** A block is stored and made known to the cache: the other step of the machine of module Tiers. A
        table without a bucket ends the process. */
    method ReceiveBlock(block: Block, ghost log: seq<string>) returns (ok: bool)
      requires Valid() && Inv(State(log)) && CanStep(State(log), NewBlock(block))
      requires AllHaveRoom(tableInfo.listed) && block.hash != ROOT
      modifies dataChain, listTx.list.Nodes()`val, listIndex.list.Nodes()`val, tableInfo
      ensures ok <==> AllKnown(old(tableInfo.listed), block.txs, |block.txs|)
      ensures ok ==> Valid() && State(log) == Step(old(State(log)), NewBlock(block)) && Inv(State(log))
    {
      BlockKeepsInv(State(log), block);
      ok := StoreAndUpdate(block);
    }

    method StoreAndUpdate(block: Block) returns (ok: bool)
      requires Valid() && Extends(DATA_LINKS, dataChain.blocks, block)
      requires AllHaveRoom(tableInfo.listed) && block.hash != ROOT
      modifies dataChain, listTx.list.Nodes()`val, listIndex.list.Nodes()`val, tableInfo
      ensures ok <==> AllKnown(old(tableInfo.listed), block.txs, |block.txs|)
      ensures ok ==> Valid()
      ensures dataChain.blocks == old(dataChain.blocks) + [block]
      ensures dataChain.store == old(dataChain.store)[block.hash := block]
      ensures ok ==> listTx.Entries() == Refresh(old(listTx.Entries()), block.txs, block.hash)
      ensures ok ==> listIndex.Entries() == Refresh(old(listIndex.Entries()), block.txs, block.hash)
    {
      ghost var lists, blocks := tableInfo.listed, dataChain.blocks;
      StoreBeside(listTx, listIndex, tableInfo, dataChain, block);
      ok := UpdateByDataBlock(block);
      if ok {
        MirrorAgain(tableInfo, lists, blocks, block);
      }
    }
  }

  /** A block reaches the chain, not yet the index. */
  method StoreBlock(chain: BlockChain<Block>, tables: TableIndex, b: Block)
    requires Mirrored(tables) && tables.dataChain == chain && chain.blocks != [] && Extends(DATA_LINKS, chain.blocks, b)
    modifies chain
    ensures tables.Valid() && chain.Valid() && chain.links == DATA_LINKS
    ensures old(ListsMirror(tables.listed, chain.blocks))
    ensures chain.blocks == old(chain.blocks) + [b] && chain.store == old(chain.store)[b.hash := b]
  {
    assert Open(0);
    chain.AddBlockToChain(b);
  }

  method StoreBeside(txs: Lru, idx: Lru, tables: TableIndex, chain: BlockChain<Block>, b: Block)
    requires PartsValid(txs, idx, tables, chain) && Extends(DATA_LINKS, chain.blocks, b)
    modifies chain
    ensures BothValid(txs, idx) && {tables, chain} !! (txs.Repr() + idx.Repr())
    ensures txs.Entries() == old(txs.Entries()) && idx.Entries() == old(idx.Entries())
    ensures tables.Valid() && chain.Valid() && chain.links == DATA_LINKS
    ensures old(ListsMirror(tables.listed, chain.blocks))
    ensures chain.blocks == old(chain.blocks) + [b] && chain.store == old(chain.store)[b.hash := b]
  {
    assert Open(0);
    StoreBlock(chain, tables, b);
  }

  lemma MirrorAgain(tables: TableIndex, lists: map<string, seq<Hash>>, blocks: seq<Block>, b: Block)
    requires blocks != [] && ListsMirror(lists, blocks) && Extends(DATA_LINKS, blocks, b)
    requires tables.Valid() && tables.dataChain.Valid() && tables.dataChain.links == DATA_LINKS
    requires tables.dataChain.blocks == blocks + [b] && tables.listed == AllEntered(lists, b.txs, |b.txs|, b.hash)
    ensures Mirrored(tables)
  {
    StillMirrors(lists, blocks, b);
  }

  ghost predicate CanGo(w: World, id: string, next: World, scan: Option<Found>) {
    && CanRead(w.tiers, id, w.store)
    && (HasKey(w.tiers.idx, id) ==> Fetched(w.store, w.tiers.idx[Place(w.tiers.idx, id)]).dataID == id)
    && next == w.(tiers := ReadTiers(w.tiers, id, w.store, scan), log := w.log + [id])
  }

  lemma ReadReady(w: World, id: string, table: string)
    requires Inv(w) && MayRead(w, id, table)
    ensures CanGo(w, id, Step(w, Read(id, table)), Scanned(w.blocks[1..], id, table))
    ensures Answer(w.tiers, id, w.store, Scanned(w.blocks[1..], id, table)) == TxOf(Lookup(w.blocks[1..], id))
    ensures Inv(Step(w, Read(id, table)))
  {
    ReadsRight(w, id, table);
    ReadKeepsInv(w, id, table);
    if HasKey(w.tiers.idx, id) {
      FetchedRight(w, w.tiers.idx[Place(w.tiers.idx, id)]);
    }
  }

  /** An empty cache in front of a chain whose tables are yet to come. */
  method NewCache(chain: BlockChain<Block>) returns (c: Cache)
    requires chain.Valid() && chain.links == DATA_LINKS
    ensures fresh(c) && c.Valid() && c.dataChain == chain && c.tableInfo.listed == map[]
    ensures c.State([]) == World(chain.blocks, chain.store, Tiers([], []), [])
  {
    var tables := NewTables(chain);
    var txs, idx := NewLists();
    c := new Cache(txs, idx, tables, chain);
  }

  method NewTables(chain: BlockChain<Block>) returns (tables: TableIndex)
    requires chain.Valid() && chain.links == DATA_LINKS
    ensures fresh(tables) && tables.Mirrors() && tables.dataChain == chain && tables.listed == map[]
  {
    tables := new TableIndex(chain);
  }
}
