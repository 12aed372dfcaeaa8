/** The lookup of cache/cache.go as a state machine: transactions at hand, positions at hand, the
    table's blocks, the whole chain. The answer is what a scan of the whole chain finds. */
module Tiers {
  import opened LinkedLists
  import opened Wrappers
  import opened Chain
  import opened Scan
  import opened Lru

  const TX_MAX := 120
  const INDEX_MAX := 300

  /** The two recency lists, least recently used entry first. */
  datatype Tiers = Tiers(txs: seq<Slot>, idx: seq<Slot>)

  /** The last transaction with this id in a block, as getInIndex picks it. */
  function TxWith(txs: seq<Transaction>, txID: Hash): Option<Transaction> {
    if txs == [] then None
    else if txs[|txs| - 1].txID == txID then Some(txs[|txs| - 1])
    else TxWith(txs[..|txs| - 1], txID)
  }

  /** It is the last one: none with this id comes after it. */
  lemma {:induction false} TxWithMeaning(txs: seq<Transaction>, txID: Hash) returns (k: nat)
    ensures TxWith(txs, txID).None? <==> forall j :: 0 <= j < |txs| ==> txs[j].txID != txID
    ensures TxWith(txs, txID).Some? ==>
      && k < |txs| && TxWith(txs, txID) == Some(txs[k]) && txs[k].txID == txID
      && forall j :: k < j < |txs| ==> txs[j].txID != txID
  {
    k := 0;
    if txs != [] {
      var n := |txs| - 1;
      if txs[n].txID == txID {
        k := n;
      } else {
        k := TxWithMeaning(txs[..n], txID);
        assert forall j :: 0 <= j < n ==> txs[j] == txs[..n][j];
      }
    }
  }

  /** The entry's block is stored and has its transaction. */
  predicate Resolves(store: map<Hash, Block>, slot: Slot) {
    slot.IndexSlot? && slot.blockHash in store && TxWith(store[slot.blockHash].txs, slot.txID).Some?
  }

  function Fetched(store: map<Hash, Block>, slot: Slot): Transaction
    requires Resolves(store, slot)
  {
    TxWith(store[slot.blockHash].txs, slot.txID).value
  }

  /** What the two lists hold for this id can be read. */
  predicate CanRead(c: Tiers, id: string, store: map<Hash, Block>) {
    && (HasKey(c.txs, id) ==> c.txs[Place(c.txs, id)].TxSlot?)
    && (HasKey(c.idx, id) ==> Resolves(store, c.idx[Place(c.idx, id)]))
  }

  /** GetOneValue: what it leaves in the lists; `scan` is what tiers three and four find. */
  function ReadTiers(c: Tiers, id: string, store: map<Hash, Block>, scan: Option<Found>): Tiers
    requires CanRead(c, id, store)
  {
    if HasKey(c.txs, id) then c.(txs := Moved(c.txs, Place(c.txs, id)))
    else if HasKey(c.idx, id) then
      var k := Place(c.idx, id);
      if c.idx[k].count + 1 >= 3 then
        Tiers(Queued(c.txs, TX_MAX, TxSlot(Fetched(store, c.idx[k]))), Cut(c.idx, k))
      else c.(idx := Moved(c.idx, k))
    else
      match scan
      case None => c
      case Some(f) => c.(idx := Queued(c.idx, INDEX_MAX, IndexSlot(id, f.blockHash, f.tx.txID, 1)))
  }

  /** GetOneValue: what it answers. */
  function Answer(c: Tiers, id: string, store: map<Hash, Block>, scan: Option<Found>): Option<Transaction>
    requires CanRead(c, id, store)
  {
    if HasKey(c.txs, id) then Some(c.txs[Place(c.txs, id)].tx)
    else if HasKey(c.idx, id) then Some(Fetched(store, c.idx[Place(c.idx, id)]))
    else TxOf(scan)
  }

  function TxOf(found: Option<Found>): Option<Transaction> {
    match found case None => None case Some(f) => Some(f.tx)
  }

  /** Tiers three and four. */
  function Scanned(later: seq<Block>, id: string, table: string): Option<Found> {
    match Lookup(OfTable(later, table), id)
    case Some(f) => Some(f)
    case None => Lookup(later, id)
  }

  predicate Holds(b: Block, id: string) {
    Newest(b.txs, id).Some?
  }

  /** No block of this table holds the id. */
  ghost predicate NoneOfTableHolds(blocks: seq<Block>, id: string, table: string) {
    forall i :: 0 <= i < |blocks| && HasTable(blocks[i], table) ==> !Holds(blocks[i], id)
  }

  ghost predicate IsLastHolder(blocks: seq<Block>, id: string, i: nat) {
    i < |blocks| && Holds(blocks[i], id) && forall j :: i < j < |blocks| ==> !Holds(blocks[j], id)
  }

  /** Naming this table leads to the newest transaction of the id: the newest block that holds the id,
      if there is one, is a block of the table, or no block of the table before it holds the id. */
  ghost predicate Leads(blocks: seq<Block>, id: string, table: string) {
    forall i: nat :: IsLastHolder(blocks, id, i) ==>
      HasTable(blocks[i], table) || NoneOfTableHolds(blocks[..i], id, table)
  }

  ghost predicate DistinctHashes(blocks: seq<Block>) {
    forall i, j :: 0 <= i < j < |blocks| ==> blocks[i].hash != blocks[j].hash
  }

  lemma {:induction false} TableLookupNone(blocks: seq<Block>, id: string, table: string)
    ensures Lookup(OfTable(blocks, table), id).None? <==> NoneOfTableHolds(blocks, id, table)
  {
    if blocks != [] {
      var front, last := blocks[..|blocks| - 1], blocks[|blocks| - 1];
      TableLookupNone(front, id, table);
      if HasTable(last, table) {
        LookupSnoc(OfTable(front, table), last, id);
      }
      assert forall i :: 0 <= i < |front| ==> blocks[i] == front[i];
    }
  }

  lemma {:induction false} TableLookupWhere(blocks: seq<Block>, id: string, table: string) returns (i: nat)
    requires Lookup(OfTable(blocks, table), id).Some?
    ensures i < |blocks| && blocks[i].hash == Lookup(OfTable(blocks, table), id).value.blockHash
  {
    i := |blocks| - 1;
    var front, last := blocks[..i], blocks[i];
    if HasTable(last, table) {
      LookupSnoc(OfTable(front, table), last, id);
    }
    if !HasTable(last, table) || !Holds(last, id) {
      i := TableLookupWhere(front, id, table);
    }
  }

  lemma LeadsAtHolder(front: seq<Block>, last: Block, id: string, table: string)
    requires Holds(last, id)
    ensures Leads(front + [last], id, table) <==> HasTable(last, table) || NoneOfTableHolds(front, id, table)
  {
    var blocks := front + [last];
    assert blocks[..|front|] == front;
    assert IsLastHolder(blocks, id, |front|);
    forall i: nat | IsLastHolder(blocks, id, i)
      ensures i == |front|
    {
    }
  }

  lemma LeadsBelow(front: seq<Block>, last: Block, id: string, table: string)
    requires !Holds(last, id)
    ensures Leads(front + [last], id, table) <==> Leads(front, id, table)
  {
    var blocks := front + [last];
    forall i: nat
      ensures IsLastHolder(blocks, id, i) <==> IsLastHolder(front, id, i)
      ensures IsLastHolder(front, id, i) ==> blocks[i] == front[i] && blocks[..i] == front[..i]
    {
      if i < |front| {
        assert forall j :: 0 <= j < |front| ==> blocks[j] == front[j];
      }
    }
  }

  /** Tiers three and four find what the scan of the whole chain finds if and only if the table named
      leads there; if not, they find it in another block. */
  lemma {:induction false} ScannedIff(blocks: seq<Block>, id: string, table: string)
    requires DistinctHashes(blocks)
    ensures Scanned(blocks, id, table) == Lookup(blocks, id) <==> Leads(blocks, id, table)
    ensures !Leads(blocks, id, table) ==>
      && Scanned(blocks, id, table).Some? && Lookup(blocks, id).Some?
      && Scanned(blocks, id, table).value.blockHash != Lookup(blocks, id).value.blockHash
  {
    if blocks != [] {
      var front, last := blocks[..|blocks| - 1], blocks[|blocks| - 1];
      assert blocks == front + [last];
      LookupSnoc(front, last, id);
      if HasTable(last, table) {
        LookupSnoc(OfTable(front, table), last, id);
      }
      if Holds(last, id) {
        LeadsAtHolder(front, last, id, table);
        TableLookupNone(front, id, table);
        if !Leads(blocks, id, table) {
          var i := TableLookupWhere(front, id, table);
          assert front[i].hash != last.hash;
        }
      } else {
        LeadsBelow(front, last, id, table);
        ScannedIff(front, id, table);
      }
    }
  }

  /** The table of the id always leads there. */
  lemma OwnTableLeads(blocks: seq<Block>, id: string, table: string)
    requires IsTableOf(blocks, id, table)
    ensures Leads(blocks, id, table)
  {
    forall i: nat | IsLastHolder(blocks, id, i)
      ensures HasTable(blocks[i], table)
    {
      var k := NewestMeaning(blocks[i].txs, id);
      assert blocks[i].txs[k].table == table;
    }
  }

  /** A table that does not: the first of two blocks also has a transaction of that other table. */
  lemma WrongTableIsStale(old': Transaction, other: Transaction, new': Transaction, b: Block, c: Block)
    requires old'.dataID == new'.dataID != other.dataID && old'.table == new'.table != other.table
    requires 0 < old'.timeStamp && 0 < new'.timeStamp && b.hash != c.hash
    requires b.txs == [old', other] && c.txs == [new']
    ensures !Leads([b, c], old'.dataID, other.table)
    ensures Scanned([b, c], old'.dataID, other.table) == Some(Found(old', b.hash))
  {
    var id := old'.dataID;
    assert IsNewestAt(b.txs, id, 0) && IsNewestAt(c.txs, id, 0);
    NewestAtUnique(b.txs, id, 0);
    NewestAtUnique(c.txs, id, 0);
    assert b.txs[1].table == other.table;
    assert [b] + [c] == [b, c] && [b] == [] + [b];
    LookupSnoc([], b, id);
    LeadsAtHolder([b], c, id, other.table);
    assert [b, c][..1] == [b] && [b][..0] == [];
    assert OfTable([b], other.table) == [b];
    assert OfTable([b, c], other.table) == [b];
  }

  // ---------------------------------------------------------------- new blocks

  /** The last transaction of this id in a block, whatever its timestamp. */
  function LastOf(txs: seq<Transaction>, id: string): Option<Transaction> {
    if txs == [] then None
    else if txs[|txs| - 1].dataID == id then Some(txs[|txs| - 1])
    else LastOf(txs[..|txs| - 1], id)
  }

  /** A slot pointed at this transaction. */
  function Pointed(slot: Slot, tx: Transaction, hash: Hash): Slot {
    match slot
    case TxSlot(_) => TxSlot(tx)
    case IndexSlot(_, _, _, _) => slot.(blockHash := hash, txID := tx.txID)
  }

  function Refreshed(slot: Slot, txs: seq<Transaction>, hash: Hash): (r: Slot)
  {
    match LastOf(txs, KeyOf(slot))
    case None => slot
    case Some(tx) => Pointed(slot, tx, hash)
  }

  /** updateDataCache on one list: every entry whose id the block mentions follows it. */
  function Refresh(s: seq<Slot>, txs: seq<Transaction>, hash: Hash): (r: seq<Slot>)
    ensures |r| == |s| && forall i :: 0 <= i < |s| ==> r[i] == Refreshed(s[i], txs, hash)
  {
    seq(|s|, (i: int) requires 0 <= i < |s| => Refreshed(s[i], txs, hash))
  }

  lemma {:induction false} LastOfKey(txs: seq<Transaction>, id: string)
    ensures LastOf(txs, id).Some? ==> LastOf(txs, id).value.dataID == id && LastOf(txs, id).value in txs
    ensures LastOf(txs, id).None? <==> forall i :: 0 <= i < |txs| ==> txs[i].dataID != id
  {
    if txs != [] {
      LastOfKey(txs[..|txs| - 1], id);
    }
  }

  lemma RefreshedKey(slot: Slot, txs: seq<Transaction>, hash: Hash)
    ensures KeyOf(Refreshed(slot, txs, hash)) == KeyOf(slot)
    ensures Refreshed(slot, txs, hash).TxSlot? <==> slot.TxSlot?
    ensures slot.IndexSlot? ==> Refreshed(slot, txs, hash).count == slot.count
  {
    LastOfKey(txs, KeyOf(slot));
  }

  // ---------------------------------------------------------------- which blocks the cache can follow

  ghost predicate UniqueTxIDs(txs: seq<Transaction>) {
    forall i, j :: 0 <= i < j < |txs| ==> txs[i].txID != txs[j].txID
  }

  /** No later transaction has the same data id. */
  ghost predicate IsLastAt(txs: seq<Transaction>, k: nat)
    requires k < |txs|
  {
    forall j :: k < j < |txs| ==> txs[j].dataID != txs[k].dataID
  }

  /** It is stamped after every earlier one of its data id, and positively. */
  ghost predicate BeatsEarlier(txs: seq<Transaction>, k: nat)
    requires k < |txs|
  {
    && txs[k].timeStamp > 0
    && forall j :: 0 <= j < k && txs[j].dataID == txs[k].dataID ==> txs[j].timeStamp < txs[k].timeStamp
  }

  lemma {:induction false} LastOfAt(txs: seq<Transaction>, k: nat)
    requires k < |txs| && IsLastAt(txs, k)
    ensures LastOf(txs, txs[k].dataID) == Some(txs[k])
  {
    if k < |txs| - 1 {
      LastOfAt(txs[..|txs| - 1], k);
    }
  }

  /** A block's last word on an id is what a scan takes from the block exactly if that transaction is
      stamped after all earlier ones of the id. */
  lemma FollowsIff(txs: seq<Transaction>, k: nat)
    requires UniqueTxIDs(txs) && k < |txs| && IsLastAt(txs, k)
    ensures LastOf(txs, txs[k].dataID) == Newest(txs, txs[k].dataID) <==> BeatsEarlier(txs, k)
  {
    var id := txs[k].dataID;
    LastOfAt(txs, k);
    var j := NewestMeaning(txs, id);
    if BeatsEarlier(txs, k) {
      assert IsNewestAt(txs, id, k);
      NewestAtUnique(txs, id, k);
    }
  }

  /** The block's last word on this id, if it has one, is stamped after all earlier ones. */
  ghost predicate LastWins(txs: seq<Transaction>, id: string) {
    forall k :: 0 <= k < |txs| && txs[k].dataID == id && IsLastAt(txs, k) ==> BeatsEarlier(txs, k)
  }

  lemma {:induction false} LastPlace(txs: seq<Transaction>, id: string) returns (k: nat)
    requires LastOf(txs, id).Some?
    ensures k < |txs| && txs[k].dataID == id && IsLastAt(txs, k)
  {
    var n := |txs| - 1;
    if txs[n].dataID == id {
      k := n;
    } else {
      k := LastPlace(txs[..n], id);
      assert forall j :: k < j < n ==> txs[j] == txs[..n][j];
    }
  }

  lemma LastWinsIff(txs: seq<Transaction>, id: string)
    requires UniqueTxIDs(txs)
    ensures LastOf(txs, id) == Newest(txs, id) <==> LastWins(txs, id)
  {
    if LastOf(txs, id).Some? {
      var k := LastPlace(txs, id);
      FollowsIff(txs, k);
      assert forall j :: 0 <= j < |txs| && txs[j].dataID == id && IsLastAt(txs, j) ==> j == k;
    } else {
      LastOfKey(txs, id);
      var k := NewestMeaning(txs, id);
    }
  }

  lemma {:induction false} TxWithAt(txs: seq<Transaction>, k: nat)
    requires UniqueTxIDs(txs) && k < |txs|
    ensures TxWith(txs, txs[k].txID) == Some(txs[k])
  {
    if k < |txs| - 1 {
      assert txs[|txs| - 1].txID != txs[k].txID;
      TxWithAt(txs[..|txs| - 1], k);
    }
  }

  // ---------------------------------------------------------------- the run

  /** `log` is the ids read so far. */
  datatype World = World(blocks: seq<Block>, store: map<Hash, Block>, tiers: Tiers, log: seq<string>)

  datatype Event = Read(id: string, table: string) | NewBlock(block: Block)

  /** The lists know the id, or the table named leads to its newest transaction. */
  ghost predicate MayRead(w: World, id: string, table: string)
    requires w.blocks != []
  {
    HasKey(w.tiers.txs, id) || HasKey(w.tiers.idx, id) || Leads(w.blocks[1..], id, table)
  }

  /** Transaction ids are distinct, and the block's last word wins on every id the lists know. */
  ghost predicate MayFollow(w: World, b: Block) {
    && UniqueTxIDs(b.txs)
    && forall id :: HasKey(w.tiers.txs, id) || HasKey(w.tiers.idx, id) ==> LastWins(b.txs, id)
  }

  /** Readers do not name a table that misleads; blocks extend the chain and can be followed. */
  ghost predicate CanStep(w: World, e: Event)
    requires w.blocks != []
  {
    match e
    case Read(id, table) => MayRead(w, id, table)
    case NewBlock(b) => Extends(DATA_LINKS, w.blocks, b) && MayFollow(w, b)
  }

  function Step(w: World, e: Event): (r: World)
    requires w.blocks != []
    ensures r.blocks != []
  {
    match e
    case Read(id, table) =>
      if !CanRead(w.tiers, id, w.store) then w else
        w.(tiers := ReadTiers(w.tiers, id, w.store, Scanned(w.blocks[1..], id, table)), log := w.log + [id])
    case NewBlock(b) =>
      w.(blocks := w.blocks + [b], store := w.store[b.hash := b],
        tiers := Tiers(Refresh(w.tiers.txs, b.txs, b.hash), Refresh(w.tiers.idx, b.txs, b.hash)))
  }

  function Start(genesis: Block): World {
    World([genesis], map[genesis.hash := genesis], Tiers([], []), [])
  }

  ghost predicate IsRun(w: World, events: seq<Event>)
    requires w.blocks != []
    decreases events
  {
    events == [] || (CanStep(w, events[0]) && IsRun(Step(w, events[0]), events[1..]))
  }

  function Run(w: World, events: seq<Event>): (r: World)
    requires w.blocks != []
    ensures r.blocks != []
    decreases events
  {
    if events == [] then w else Run(Step(w, events[0]), events[1..])
  }

  /** The entry is what a scan of the chain finds. */
  ghost predicate TxRight(slot: Slot, later: seq<Block>) {
    slot.TxSlot? && Lookup(later, slot.tx.dataID).Some? && Lookup(later, slot.tx.dataID).value.tx == slot.tx
  }

  /** The entry is where a scan of the chain finds it, accessed once or twice since it was put in. */
  ghost predicate IndexRight(slot: Slot, later: seq<Block>) {
    && slot.IndexSlot? && 1 <= slot.count <= 2 && Lookup(later, slot.id).Some?
    && Lookup(later, slot.id).value.blockHash == slot.blockHash
    && Lookup(later, slot.id).value.tx.txID == slot.txID
  }

  ghost predicate Disjoint(c: Tiers) {
    forall id :: HasKey(c.txs, id) ==> !HasKey(c.idx, id)
  }

  /** Two lists with disjoint keys, within their sizes, and right in every entry. */
  ghost predicate TwoLevel(c: Tiers, later: seq<Block>) {
    && DistinctKeys(c.txs) && DistinctKeys(c.idx) && Disjoint(c)
    && |c.txs| <= TX_MAX + 1 && |c.idx| <= INDEX_MAX + 1
    && (forall x :: x in c.txs ==> TxRight(x, later))
    && (forall x :: x in c.idx ==> IndexRight(x, later))
  }

  /** The number of the last read of this id, from 1 on; 0 if there was none. */
  function LastRead(log: seq<string>, id: string): (n: nat)
    ensures n <= |log|
  {
    if log == [] then 0 else if log[|log| - 1] == id then |log| else LastRead(log[..|log| - 1], id)
  }

  /** Least recently read first. */
  ghost predicate InReadOrder(s: seq<Slot>, log: seq<string>) {
    forall i, j :: 0 <= i < j < |s| ==> LastRead(log, KeyOf(s[i])) < LastRead(log, KeyOf(s[j]))
  }

  ghost predicate Inv(w: World) {
    && Linked(DATA_LINKS, w.blocks) && Stored(DATA_LINKS, w.store, w.blocks)
    && (forall i :: 0 < i < |w.blocks| ==> UniqueTxIDs(w.blocks[i].txs))
    && TwoLevel(w.tiers, w.blocks[1..])
    && InReadOrder(w.tiers.txs, w.log) && InReadOrder(w.tiers.idx, w.log)
  }

  // ---------------------------------------------------------------- what an entry leads to

  lemma {:induction false} LookupPlace(blocks: seq<Block>, id: string) returns (i: nat)
    requires Lookup(blocks, id).Some?
    ensures i < |blocks| && blocks[i].hash == Lookup(blocks, id).value.blockHash
    ensures Newest(blocks[i].txs, id) == Some(Lookup(blocks, id).value.tx)
  {
    i := |blocks| - 1;
    if Newest(blocks[i].txs, id).None? {
      i := LookupPlace(blocks[..|blocks| - 1], id);
    }
  }

  /** An index entry that is right leads to the transaction the scan finds. */
  lemma FetchedRight(w: World, slot: Slot)
    requires Inv(w) && IndexRight(slot, w.blocks[1..])
    ensures Resolves(w.store, slot)
    ensures Fetched(w.store, slot) == Lookup(w.blocks[1..], slot.id).value.tx
    ensures Fetched(w.store, slot).dataID == slot.id
  {
    var later := w.blocks[1..];
    var i := LookupPlace(later, slot.id);
    var k := NewestMeaning(later[i].txs, slot.id);
    assert w.blocks[i + 1] == later[i];
    assert DATA_LINKS.hash(w.blocks[i + 1]) in w.store;
    TxWithAt(later[i].txs, k);
  }

  lemma LaterDistinct(w: World)
    requires Inv(w)
    ensures DistinctHashes(w.blocks[1..])
  {
    var hs := HashesOf(DATA_LINKS, w.blocks);
    forall i, j | 0 <= i < j < |w.blocks[1..]|
      ensures w.blocks[1..][i].hash != w.blocks[1..][j].hash
    {
      assert hs[i + 1] == w.blocks[i + 1].hash && hs[j + 1] == w.blocks[j + 1].hash;
    }
  }

  lemma InvCanRead(w: World, id: string)
    requires Inv(w)
    ensures CanRead(w.tiers, id, w.store)
  {
    if HasKey(w.tiers.txs, id) {
      assert TxRight(w.tiers.txs[Place(w.tiers.txs, id)], w.blocks[1..]);
    }
    if HasKey(w.tiers.idx, id) {
      FetchedRight(w, w.tiers.idx[Place(w.tiers.idx, id)]);
    }
  }

  /** Whichever tier answers, the answer is what the scan of the whole chain finds. */
  lemma ReadsRight(w: World, id: string, table: string)
    requires Inv(w) && MayRead(w, id, table)
    ensures CanRead(w.tiers, id, w.store)
    ensures Answer(w.tiers, id, w.store, Scanned(w.blocks[1..], id, table)) == TxOf(Lookup(w.blocks[1..], id))
  {
    InvCanRead(w, id);
    LaterDistinct(w);
    ScannedIff(w.blocks[1..], id, table);
    if HasKey(w.tiers.txs, id) {
      assert TxRight(w.tiers.txs[Place(w.tiers.txs, id)], w.blocks[1..]);
    } else if HasKey(w.tiers.idx, id) {
      FetchedRight(w, w.tiers.idx[Place(w.tiers.idx, id)]);
    }
  }

  // ---------------------------------------------------------------- reading order

  lemma LastReadSnoc(log: seq<string>, id: string)
    ensures LastRead(log + [id], id) == |log| + 1
    ensures forall x :: x != id ==> LastRead(log + [id], x) == LastRead(log, x)
  {
    assert (log + [id])[..|log|] == log;
  }

  lemma CutOrder(s: seq<Slot>, k: nat, log: seq<string>)
    requires InReadOrder(s, log) && k < |s|
    ensures InReadOrder(Cut(s, k), log)
  {
  }

  /** A list without the id keeps its order; with the id at its end it is in order again. */
  lemma ReadOrder(s: seq<Slot>, x: Slot, id: string, log: seq<string>)
    requires InReadOrder(s, log) && !HasKey(s, id)
    ensures InReadOrder(s, log + [id])
    ensures KeyOf(x) == id ==> InReadOrder(s + [x], log + [id])
  {
    LastReadSnoc(log, id);
    assert forall i :: 0 <= i < |s| ==> KeyOf(s[i]) != id;
  }

  // ---------------------------------------------------------------- steps keep the invariant

  lemma MovedTx(w: World, id: string)
    requires Inv(w) && HasKey(w.tiers.txs, id)
    ensures var c := w.tiers.(txs := Moved(w.tiers.txs, Place(w.tiers.txs, id)));
      TwoLevel(c, w.blocks[1..]) && InReadOrder(c.txs, w.log + [id]) && InReadOrder(c.idx, w.log + [id])
  {
    var s, k := w.tiers.txs, Place(w.tiers.txs, id);
    assert TxRight(s[k], w.blocks[1..]);
    CutKeys(s, k);
    SnocKeys(Cut(s, k), s[k]);
    CutOrder(s, k, w.log);
    ReadOrder(Cut(s, k), s[k], id, w.log);
    ReadOrder(w.tiers.idx, s[k], id, w.log);
  }

  lemma MovedIndex(w: World, id: string)
    requires Inv(w) && HasKey(w.tiers.idx, id) && !HasKey(w.tiers.txs, id)
    requires w.tiers.idx[Place(w.tiers.idx, id)].IndexSlot? && w.tiers.idx[Place(w.tiers.idx, id)].count == 1
    ensures var c := w.tiers.(idx := Moved(w.tiers.idx, Place(w.tiers.idx, id)));
      TwoLevel(c, w.blocks[1..]) && InReadOrder(c.txs, w.log + [id]) && InReadOrder(c.idx, w.log + [id])
  {
    var s, k := w.tiers.idx, Place(w.tiers.idx, id);
    var x := Touched(s[k]);
    assert IndexRight(s[k], w.blocks[1..]) && IndexRight(x, w.blocks[1..]);
    CutKeys(s, k);
    SnocKeys(Cut(s, k), x);
    CutOrder(s, k, w.log);
    ReadOrder(Cut(s, k), x, id, w.log);
    ReadOrder(w.tiers.txs, x, id, w.log);
  }

  /** The list an entry is queued in, before it is. */
  function Evicted(s: seq<Slot>, maxSize: nat): seq<Slot> {
    if |s| > maxSize then Cut(s, 0) else s
  }

  lemma EvictedKeys(s: seq<Slot>, maxSize: nat, x: Slot, log: seq<string>)
    requires DistinctKeys(s) && InReadOrder(s, log) && |s| <= maxSize + 1
    ensures var e := Evicted(s, maxSize);
      && Queued(s, maxSize, x) == e + [x] && DistinctKeys(e) && InReadOrder(e, log) && |e| <= maxSize
      && (forall id :: HasKey(e, id) ==> HasKey(s, id)) && (forall y :: y in e ==> y in s)
  {
    if |s| > maxSize {
      CutKeys(s, 0);
      CutOrder(s, 0, log);
      assert Cut(s, 0) == s[1..];
    }
  }

  lemma Promoted(w: World, id: string)
    requires Inv(w) && HasKey(w.tiers.idx, id) && !HasKey(w.tiers.txs, id) && CanRead(w.tiers, id, w.store)
    ensures var k := Place(w.tiers.idx, id);
      var c := Tiers(Queued(w.tiers.txs, TX_MAX, TxSlot(Fetched(w.store, w.tiers.idx[k]))), Cut(w.tiers.idx, k));
      TwoLevel(c, w.blocks[1..]) && InReadOrder(c.txs, w.log + [id]) && InReadOrder(c.idx, w.log + [id])
      && HasKey(c.txs, id) && Place(c.txs, id) == |c.txs| - 1 && !HasKey(c.idx, id)
  {
    var s, t, k := w.tiers.idx, w.tiers.txs, Place(w.tiers.idx, id);
    FetchedRight(w, s[k]);
    var x := TxSlot(Fetched(w.store, s[k]));
    assert TxRight(x, w.blocks[1..]) && KeyOf(x) == id;
    EvictedKeys(t, TX_MAX, x, w.log);
    var e := Evicted(t, TX_MAX);
    SnocKeys(e, x);
    CutKeys(s, k);
    CutOrder(s, k, w.log);
    ReadOrder(e, x, id, w.log);
    ReadOrder(Cut(s, k), x, id, w.log);
  }

  lemma Indexed(w: World, id: string)
    requires Inv(w) && !HasKey(w.tiers.idx, id) && !HasKey(w.tiers.txs, id) && Lookup(w.blocks[1..], id).Some?
    ensures var f := Lookup(w.blocks[1..], id).value;
      var c := w.tiers.(idx := Queued(w.tiers.idx, INDEX_MAX, IndexSlot(id, f.blockHash, f.tx.txID, 1)));
      TwoLevel(c, w.blocks[1..]) && InReadOrder(c.txs, w.log + [id]) && InReadOrder(c.idx, w.log + [id])
  {
    var f, s := Lookup(w.blocks[1..], id).value, w.tiers.idx;
    var x := IndexSlot(id, f.blockHash, f.tx.txID, 1);
    assert IndexRight(x, w.blocks[1..]);
    EvictedKeys(s, INDEX_MAX, x, w.log);
    var e := Evicted(s, INDEX_MAX);
    SnocKeys(e, x);
    ReadOrder(e, x, id, w.log);
    ReadOrder(w.tiers.txs, x, id, w.log);
  }

  lemma ReadKeepsInv(w: World, id: string, table: string)
    requires Inv(w) && MayRead(w, id, table)
    ensures Inv(Step(w, Read(id, table)))
  {
    InvCanRead(w, id);
    LaterDistinct(w);
    ScannedIff(w.blocks[1..], id, table);
    if HasKey(w.tiers.txs, id) {
      MovedTx(w, id);
    } else if HasKey(w.tiers.idx, id) {
      assert IndexRight(w.tiers.idx[Place(w.tiers.idx, id)], w.blocks[1..]);
      if w.tiers.idx[Place(w.tiers.idx, id)].count + 1 >= 3 {
        Promoted(w, id);
      } else {
        MovedIndex(w, id);
      }
    } else if Lookup(w.blocks[1..], id).Some? {
      Indexed(w, id);
    } else {
      var none := TxSlot(Transaction(Text(""), id, "", "", "", "", 0, [], []));
      ReadOrder(w.tiers.txs, none, id, w.log);
      ReadOrder(w.tiers.idx, none, id, w.log);
    }
  }

  /** The guard is exact: a read keeps every entry right if and only if one of the lists knows the id
      or the table named leads to its newest transaction. */
  lemma ReadKeepsInvIff(w: World, id: string, table: string)
    requires Inv(w)
    ensures Inv(Step(w, Read(id, table))) <==> MayRead(w, id, table)
  {
    if MayRead(w, id, table) {
      ReadKeepsInv(w, id, table);
    } else {
      var later, s := w.blocks[1..], w.tiers.idx;
      InvCanRead(w, id);
      LaterDistinct(w);
      ScannedIff(later, id, table);
      var f := Scanned(later, id, table).value;
      var x := IndexSlot(id, f.blockHash, f.tx.txID, 1);
      var r := Queued(s, INDEX_MAX, x);
      assert r[|r| - 1] == x && !IndexRight(x, later);
      assert Step(w, Read(id, table)).tiers.idx == r;
    }
  }

  lemma RefreshKeys(s: seq<Slot>, txs: seq<Transaction>, hash: Hash)
    requires DistinctKeys(s)
    ensures var r := Refresh(s, txs, hash);
      && DistinctKeys(r) && (forall id :: HasKey(r, id) <==> HasKey(s, id))
      && forall i :: 0 <= i < |s| ==> KeyOf(r[i]) == KeyOf(s[i])
  {
    var r := Refresh(s, txs, hash);
    forall i | 0 <= i < |s|
      ensures KeyOf(r[i]) == KeyOf(s[i])
    {
      RefreshedKey(s[i], txs, hash);
    }
    forall id | HasKey(s, id)
      ensures HasKey(r, id)
    {
      assert KeyOf(r[Place(s, id)]) == id;
    }
    forall id | HasKey(r, id)
      ensures HasKey(s, id)
    {
      assert KeyOf(s[Place(r, id)]) == id;
    }
  }

  ghost predicate HashIsNew(later: seq<Block>, b: Block) {
    forall i :: 0 <= i < |later| ==> later[i].hash != b.hash
  }

  /** A right entry stays right if and only if the block's last word on it wins. */
  lemma RefreshedRightIff(slot: Slot, later: seq<Block>, b: Block)
    requires UniqueTxIDs(b.txs) && HashIsNew(later, b)
    ensures TxRight(slot, later) ==>
      (TxRight(Refreshed(slot, b.txs, b.hash), later + [b]) <==> LastWins(b.txs, KeyOf(slot)))
    ensures IndexRight(slot, later) ==>
      (IndexRight(Refreshed(slot, b.txs, b.hash), later + [b]) <==> LastWins(b.txs, KeyOf(slot)))
  {
    var id := KeyOf(slot);
    LookupSnoc(later, b, id);
    LastWinsIff(b.txs, id);
    LastOfKey(b.txs, id);
    var k := NewestMeaning(b.txs, id);
    if Lookup(later, id).Some? {
      var i := LookupPlace(later, id);
      var j := NewestMeaning(later[i].txs, id);
    }
  }

  lemma BlockKeepsTiers(w: World, b: Block)
    requires Inv(w) && HashIsNew(w.blocks[1..], b) && MayFollow(w, b)
    ensures var c := Tiers(Refresh(w.tiers.txs, b.txs, b.hash), Refresh(w.tiers.idx, b.txs, b.hash));
      TwoLevel(c, w.blocks[1..] + [b]) && InReadOrder(c.txs, w.log) && InReadOrder(c.idx, w.log)
  {
    var later := w.blocks[1..];
    RefreshKeys(w.tiers.txs, b.txs, b.hash);
    RefreshKeys(w.tiers.idx, b.txs, b.hash);
    forall x | x in Refresh(w.tiers.txs, b.txs, b.hash)
      ensures TxRight(x, later + [b])
    {
      var i :| 0 <= i < |w.tiers.txs| && Refresh(w.tiers.txs, b.txs, b.hash)[i] == x;
      assert HasKey(w.tiers.txs, KeyOf(w.tiers.txs[i]));
      RefreshedRightIff(w.tiers.txs[i], later, b);
    }
    forall x | x in Refresh(w.tiers.idx, b.txs, b.hash)
      ensures IndexRight(x, later + [b])
    {
      var i :| 0 <= i < |w.tiers.idx| && Refresh(w.tiers.idx, b.txs, b.hash)[i] == x;
      assert HasKey(w.tiers.idx, KeyOf(w.tiers.idx[i]));
      RefreshedRightIff(w.tiers.idx[i], later, b);
    }
  }

  lemma LaterNew(blocks: seq<Block>, b: Block)
    requires blocks != [] && Extends(DATA_LINKS, blocks, b)
    ensures HashIsNew(blocks[1..], b)
  {
    forall i | 0 <= i < |blocks[1..]|
      ensures blocks[1..][i].hash != b.hash
    {
      assert HashesOf(DATA_LINKS, blocks)[i + 1] == DATA_LINKS.hash(blocks[i + 1]) == blocks[1..][i].hash;
    }
  }

  /** What keeps the entries right is exactly that. */
  lemma BlockKeepsInvIff(w: World, b: Block)
    requires Inv(w) && Extends(DATA_LINKS, w.blocks, b)
    ensures Inv(Step(w, NewBlock(b))) <==> MayFollow(w, b)
  {
    if MayFollow(w, b) {
      BlockKeepsInv(w, b);
    } else if Inv(Step(w, NewBlock(b))) {
      var later := w.blocks[1..];
      assert (w.blocks + [b])[1..] == later + [b] && (w.blocks + [b])[|w.blocks|] == b;
      LaterNew(w.blocks, b);
      var id :| (HasKey(w.tiers.txs, id) || HasKey(w.tiers.idx, id)) && !LastWins(b.txs, id);
      if HasKey(w.tiers.txs, id) {
        var k := Place(w.tiers.txs, id);
        RefreshedRightIff(w.tiers.txs[k], later, b);
      } else {
        var k := Place(w.tiers.idx, id);
        RefreshedRightIff(w.tiers.idx[k], later, b);
      }
    }
  }

  lemma BlockKeepsInv(w: World, b: Block)
    requires Inv(w) && Extends(DATA_LINKS, w.blocks, b) && MayFollow(w, b)
    ensures Inv(Step(w, NewBlock(b)))
  {
    LaterNew(w.blocks, b);
    BlockKeepsTiers(w, b);
    assert (w.blocks + [b])[1..] == w.blocks[1..] + [b];
    ExtendLinked(DATA_LINKS, w.blocks, b);
    ExtendStored(DATA_LINKS, w.store, w.blocks, b);
  }

  lemma StepKeepsInv(w: World, e: Event)
    requires Inv(w) && CanStep(w, e)
    ensures Inv(Step(w, e))
  {
    match e
    case Read(id, table) => ReadKeepsInv(w, id, table);
    case NewBlock(b) => BlockKeepsInv(w, b);
  }

  lemma {:induction false} RunKeepsInv(w: World, events: seq<Event>)
    requires Inv(w) && IsRun(w, events)
    ensures Inv(Run(w, events))
    decreases events
  {
    if events != [] {
      StepKeepsInv(w, events[0]);
      RunKeepsInv(Step(w, events[0]), events[1..]);
    }
  }

  lemma StartInv(genesis: Block)
    requires genesis.prev == GENESIS && genesis.hash != GENESIS
    ensures Inv(Start(genesis))
  {
    var w := Start(genesis);
    assert HashesOf(DATA_LINKS, w.blocks) == [genesis.hash];
  }

  /** In any interleaving of reads and new blocks, every read answers what a scan of the whole chain
      would, and the two lists keep their shape. */
  lemma CacheRefinesScan(genesis: Block, events: seq<Event>, id: string, table: string)
    requires genesis.prev == GENESIS && genesis.hash != GENESIS && IsRun(Start(genesis), events)
    requires MayRead(Run(Start(genesis), events), id, table)
    ensures var w := Run(Start(genesis), events);
      && CanRead(w.tiers, id, w.store)
      && Answer(w.tiers, id, w.store, Scanned(w.blocks[1..], id, table)) == TxOf(Lookup(w.blocks[1..], id))
      && TwoLevel(w.tiers, w.blocks[1..]) && InReadOrder(w.tiers.txs, w.log) && InReadOrder(w.tiers.idx, w.log)
  {
    StartInv(genesis);
    RunKeepsInv(Start(genesis), events);
    ReadsRight(Run(Start(genesis), events), id, table);
  }

  /** Of a list that is over its size `gone` alone has left, the least recently read of its ids. */
  ghost predicate OldestGone(s: seq<Slot>, r: seq<Slot>, id: string, gone: string, log: seq<string>) {
    && HasKey(s, gone)
    && (forall x :: HasKey(r, x) <==> x == id || (HasKey(s, x) && x != gone))
    && (forall x :: HasKey(s, x) && x != gone ==> LastRead(log, gone) < LastRead(log, x))
  }

  lemma QueuedOver(s: seq<Slot>, maxSize: nat, x: Slot, log: seq<string>)
    requires DistinctKeys(s) && InReadOrder(s, log) && |s| == maxSize + 1 && !HasKey(s, KeyOf(x))
    ensures |Queued(s, maxSize, x)| == |s| && OldestGone(s, Queued(s, maxSize, x), KeyOf(x), KeyOf(s[0]), log)
  {
    CutKeys(s, 0);
    assert Cut(s, 0) == s[1..];
    SnocKeys(s[1..], x);
    var gone := KeyOf(s[0]);
    forall y | HasKey(s, y) && y != gone
      ensures LastRead(log, gone) < LastRead(log, y)
    {
      assert KeyOf(s[Place(s, y)]) == y && Place(s, y) > 0;
    }
  }

  /** A list that is over its size gives up the least recently read entry, and no other: here the index
      list, of 301 entries, when an id is read that neither list knows. */
  lemma EvictsOldest(w: World, id: string, table: string)
    requires Inv(w) && MayRead(w, id, table) && Lookup(w.blocks[1..], id).Some?
    requires !HasKey(w.tiers.txs, id) && !HasKey(w.tiers.idx, id) && |w.tiers.idx| == 301
    ensures var r := Step(w, Read(id, table)).tiers;
      && |r.idx| == 301 && r.txs == w.tiers.txs && exists gone :: OldestGone(w.tiers.idx, r.idx, id, gone, w.log)
  {
    InvCanRead(w, id);
    LaterDistinct(w);
    ScannedIff(w.blocks[1..], id, table);
    var f := Lookup(w.blocks[1..], id).value;
    QueuedOver(w.tiers.idx, 300, IndexSlot(id, f.blockHash, f.tx.txID, 1), w.log);
  }

  // ---------------------------------------------------------------- promotion

  /** How often an id that stands in the index list has been read since it was put there. */
  function CountOf(c: Tiers, id: string): nat {
    if HasKey(c.idx, id) && c.idx[Place(c.idx, id)].IndexSlot? then c.idx[Place(c.idx, id)].count else 0
  }

  function ReadsOf(events: seq<Event>, id: string): nat {
    if events == [] then 0
    else (if events[0].Read? && events[0].id == id then 1 else 0) + ReadsOf(events[1..], id)
  }

  ghost predicate StaysIndexed(w: World, events: seq<Event>, id: string)
    requires w.blocks != []
    decreases events
  {
    HasKey(w.tiers.idx, id) && (events == [] || StaysIndexed(Step(w, events[0]), events[1..], id))
  }

  /** The first read of an id puts it in the index list with count one. */
  lemma FirstRead(w: World, id: string, table: string)
    requires Inv(w) && MayRead(w, id, table) && Lookup(w.blocks[1..], id).Some?
    requires !HasKey(w.tiers.txs, id) && !HasKey(w.tiers.idx, id)
    ensures CountOf(Step(w, Read(id, table)).tiers, id) == 1
  {
    var f, s := Lookup(w.blocks[1..], id).value, w.tiers.idx;
    var x := IndexSlot(id, f.blockHash, f.tx.txID, 1);
    InvCanRead(w, id);
    LaterDistinct(w);
    ScannedIff(w.blocks[1..], id, table);
    EvictedKeys(s, INDEX_MAX, x, w.log);
    SnocKeys(Evicted(s, INDEX_MAX), x);
  }

  /** A read of an indexed id: the second leaves it indexed, the third moves it to the transactions. */
  lemma NextRead(w: World, id: string, table: string)
    requires Inv(w) && HasKey(w.tiers.idx, id)
    ensures var c := Step(w, Read(id, table)).tiers;
      && (CountOf(w.tiers, id) == 1 ==> CountOf(c, id) == 2)
      && (CountOf(w.tiers, id) == 2 ==> !HasKey(c.idx, id) && HasKey(c.txs, id) && Place(c.txs, id) == |c.txs| - 1)
      && 1 <= CountOf(w.tiers, id) <= 2
  {
    var s, k := w.tiers.idx, Place(w.tiers.idx, id);
    InvCanRead(w, id);
    assert IndexRight(s[k], w.blocks[1..]);
    CutKeys(s, k);
    if s[k].count == 2 {
      Promoted(w, id);
    } else {
      SnocKeys(Cut(s, k), Touched(s[k]));
    }
  }

  function EntryOf(s: seq<Slot>, id: string): Slot
    requires HasKey(s, id)
  {
    s[Place(s, id)]
  }

  lemma CutEntry(s: seq<Slot>, k: nat, id: string)
    requires DistinctKeys(s) && k < |s| && HasKey(Cut(s, k), id)
    ensures HasKey(s, id) && EntryOf(Cut(s, k), id) == EntryOf(s, id)
  {
    var i := Place(Cut(s, k), id);
    PlaceIs(s, id, if i < k then i else i + 1);
  }

  lemma SnocEntry(s: seq<Slot>, x: Slot, id: string)
    requires HasKey(s + [x], id) && KeyOf(x) != id
    ensures HasKey(s, id) && EntryOf(s + [x], id) == EntryOf(s, id)
  {
    assert (s + [x])[..|s|] == s;
  }

  lemma MovedEntry(s: seq<Slot>, k: nat, id: string)
    requires DistinctKeys(s) && k < |s| && KeyOf(s[k]) != id && HasKey(Moved(s, k), id)
    ensures HasKey(s, id) && EntryOf(Moved(s, k), id) == EntryOf(s, id)
  {
    SnocEntry(Cut(s, k), Touched(s[k]), id);
    CutEntry(s, k, id);
  }

  lemma QueuedEntry(s: seq<Slot>, maxSize: nat, x: Slot, id: string)
    requires DistinctKeys(s) && KeyOf(x) != id && HasKey(Queued(s, maxSize, x), id)
    ensures HasKey(s, id) && EntryOf(Queued(s, maxSize, x), id) == EntryOf(s, id)
  {
    if |s| > maxSize {
      assert s[1..] == Cut(s, 0);
      SnocEntry(Cut(s, 0), x, id);
      CutEntry(s, 0, id);
    } else {
      SnocEntry(s, x, id);
    }
  }

  lemma RefreshCount(s: seq<Slot>, txs: seq<Transaction>, hash: Hash, id: string)
    requires DistinctKeys(s) && HasKey(Refresh(s, txs, hash), id)
    ensures var r := Refresh(s, txs, hash);
      HasKey(s, id) && r[Place(r, id)] == Refreshed(s[Place(s, id)], txs, hash)
      && (s[Place(s, id)].IndexSlot? ==> r[Place(r, id)].IndexSlot? && r[Place(r, id)].count == s[Place(s, id)].count)
  {
    var r := Refresh(s, txs, hash);
    var i := Place(r, id);
    RefreshedKey(s[i], txs, hash);
    PlaceIs(s, id, i);
  }

  /** Reads of other ids leave an entry as it is, as long as they leave it in the list. */
  lemma OtherRead(w: World, id: string, other: string, table: string)
    requires Inv(w) && MayRead(w, other, table) && other != id
    requires HasKey(Step(w, Read(other, table)).tiers.idx, id)
    ensures HasKey(w.tiers.idx, id) && EntryOf(Step(w, Read(other, table)).tiers.idx, id) == EntryOf(w.tiers.idx, id)
  {
    InvCanRead(w, other);
    LaterDistinct(w);
    ScannedIff(w.blocks[1..], other, table);
    var s := w.tiers.idx;
    if !HasKey(w.tiers.txs, other) {
      if HasKey(s, other) {
        var k := Place(s, other);
        if s[k].count + 1 >= 3 {
          CutEntry(s, k, id);
        } else {
          MovedEntry(s, k, id);
        }
      } else if Lookup(w.blocks[1..], other).Some? {
        var f := Lookup(w.blocks[1..], other).value;
        QueuedEntry(s, INDEX_MAX, IndexSlot(other, f.blockHash, f.tx.txID, 1), id);
      }
    }
  }

  /** While an id stays indexed its count is the number of its reads. As the count stays below three,
      it leaves the list, by promotion, exactly at the third read, unless it is evicted before. */
  lemma {:induction false} CountTellsReads(w: World, events: seq<Event>, id: string)
    requires Inv(w) && IsRun(w, events) && StaysIndexed(w, events, id)
    ensures CountOf(Run(w, events).tiers, id) == CountOf(w.tiers, id) + ReadsOf(events, id) <= 2
    decreases events
  {
    assert IndexRight(w.tiers.idx[Place(w.tiers.idx, id)], w.blocks[1..]);
    if events != [] {
      var next := Step(w, events[0]);
      StepKeepsInv(w, events[0]);
      assert HasKey(next.tiers.idx, id);
      match events[0] {
        case Read(other, table) =>
          if other == id {
            NextRead(w, id, table);
          } else {
            OtherRead(w, id, other, table);
          }
        case NewBlock(b) => RefreshCount(w.tiers.idx, b.txs, b.hash, id);
      }
      CountTellsReads(next, events[1..], id);
    }
  }
}
