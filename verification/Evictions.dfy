/** The cache without its lists: whatever entries the lists give up, and in whatever order, reads stay
    right. This covers cache/cache_lru.go with its toTail methods as they are written, which leave maps
    and contents alone and only spoil the order of eviction. */
module Evictions {
  import opened Wrappers
  import opened Chain
  import opened Scan
  import opened Lru
  import opened Tiers

  /** The two maps, id to entry. */
  datatype Maps = Maps(txs: map<string, Slot>, idx: map<string, Slot>)

  datatype State = State(blocks: seq<Block>, store: map<Hash, Block>, maps: Maps)

  /** A read; `kept` are the ids that survive the eviction an insertion may cause. */
  datatype Move = Look(id: string, table: string, kept: set<string>) | Grow(block: Block)

  function Kept(m: map<string, Slot>, kept: set<string>): map<string, Slot> {
    map id | id in m && id in kept :: m[id]
  }

  predicate Readable(c: Maps, id: string, store: map<Hash, Block>) {
    && (id in c.txs ==> c.txs[id].TxSlot?)
    && (id in c.idx ==> Resolves(store, c.idx[id]))
  }

  function ReadMaps(c: Maps, id: string, kept: set<string>, store: map<Hash, Block>, scan: Option<Found>): Maps
    requires Readable(c, id, store)
  {
    if id in c.txs then c
    else if id in c.idx then
      if c.idx[id].count + 1 >= 3
      then Maps(Kept(c.txs, kept)[id := TxSlot(Fetched(store, c.idx[id]))], c.idx - {id})
      else c.(idx := c.idx[id := Touched(c.idx[id])])
    else
      match scan
      case None => c
      case Some(f) => c.(idx := Kept(c.idx, kept)[id := IndexSlot(id, f.blockHash, f.tx.txID, 1)])
  }

  function MapAnswer(c: Maps, id: string, store: map<Hash, Block>, scan: Option<Found>): Option<Transaction>
    requires Readable(c, id, store)
  {
    if id in c.txs then Some(c.txs[id].tx)
    else if id in c.idx then Some(Fetched(store, c.idx[id]))
    else TxOf(scan)
  }

  function RefreshMap(m: map<string, Slot>, txs: seq<Transaction>, hash: Hash): map<string, Slot> {
    map id | id in m :: Refreshed(m[id], txs, hash)
  }

  ghost predicate MayLook(s: State, id: string, table: string)
    requires s.blocks != []
  {
    id in s.maps.txs || id in s.maps.idx || Leads(s.blocks[1..], id, table)
  }

  ghost predicate MayGrow(s: State, b: Block) {
    && UniqueTxIDs(b.txs)
    && forall id :: id in s.maps.txs || id in s.maps.idx ==> LastWins(b.txs, id)
  }

  ghost predicate CanMove(s: State, m: Move)
    requires s.blocks != []
  {
    match m
    case Look(id, table, _) => MayLook(s, id, table)
    case Grow(b) => Extends(DATA_LINKS, s.blocks, b) && MayGrow(s, b)
  }

  function Moved(s: State, m: Move): (r: State)
    requires s.blocks != []
    ensures r.blocks != []
  {
    match m
    case Look(id, table, kept) =>
      if !Readable(s.maps, id, s.store) then s else
        s.(maps := ReadMaps(s.maps, id, kept, s.store, Scanned(s.blocks[1..], id, table)))
    case Grow(b) =>
      State(s.blocks + [b], s.store[b.hash := b],
        Maps(RefreshMap(s.maps.txs, b.txs, b.hash), RefreshMap(s.maps.idx, b.txs, b.hash)))
  }

  ghost predicate IsPath(s: State, moves: seq<Move>)
    requires s.blocks != []
    decreases moves
  {
    moves == [] || (CanMove(s, moves[0]) && IsPath(Moved(s, moves[0]), moves[1..]))
  }

  function After(s: State, moves: seq<Move>): (r: State)
    requires s.blocks != []
    ensures r.blocks != []
    decreases moves
  {
    if moves == [] then s else After(Moved(s, moves[0]), moves[1..])
  }

  ghost predicate TxsRight(m: map<string, Slot>, later: seq<Block>) {
    forall id :: id in m ==> KeyOf(m[id]) == id && TxRight(m[id], later)
  }

  ghost predicate IndicesRight(m: map<string, Slot>, later: seq<Block>) {
    forall id :: id in m ==> KeyOf(m[id]) == id && IndexRight(m[id], later)
  }

  /** Every entry is right and stands under its own key. */
  ghost predicate MapsRight(c: Maps, later: seq<Block>) {
    TxsRight(c.txs, later) && IndicesRight(c.idx, later)
  }

  ghost predicate Right(s: State) {
    && Linked(DATA_LINKS, s.blocks) && Stored(DATA_LINKS, s.store, s.blocks)
    && (forall i :: 0 < i < |s.blocks| ==> UniqueTxIDs(s.blocks[i].txs))
    && MapsRight(s.maps, s.blocks[1..])
  }

  /** The same chain behind empty lists. */
  function Bare(s: State): World {
    World(s.blocks, s.store, Tiers([], []), [])
  }

  lemma EntryResolves(s: State, id: string)
    requires Right(s)
    ensures Readable(s.maps, id, s.store)
    ensures id in s.maps.idx ==>
      && Fetched(s.store, s.maps.idx[id]) == Lookup(s.blocks[1..], id).value.tx
      && Fetched(s.store, s.maps.idx[id]).dataID == id
  {
    if id in s.maps.idx {
      FetchedRight(Bare(s), s.maps.idx[id]);
    }
  }

  /** In every state with right entries a read answers what the scan of the whole chain finds. */
  lemma LooksRight(s: State, id: string, table: string)
    requires Right(s) && MayLook(s, id, table)
    ensures Readable(s.maps, id, s.store)
    ensures MapAnswer(s.maps, id, s.store, Scanned(s.blocks[1..], id, table)) == TxOf(Lookup(s.blocks[1..], id))
  {
    EntryResolves(s, id);
    LaterDistinct(Bare(s));
    ScannedIff(s.blocks[1..], id, table);
  }

  lemma LookKeepsRight(s: State, id: string, table: string, kept: set<string>)
    requires Right(s) && MayLook(s, id, table)
    ensures Right(Moved(s, Look(id, table, kept)))
  {
    EntryResolves(s, id);
    LaterDistinct(Bare(s));
    ScannedIff(s.blocks[1..], id, table);
  }

  lemma GrowKeepsMap(m: map<string, Slot>, later: seq<Block>, b: Block)
    requires UniqueTxIDs(b.txs) && HashIsNew(later, b) && forall id :: id in m ==> LastWins(b.txs, id)
    ensures TxsRight(m, later) ==> TxsRight(RefreshMap(m, b.txs, b.hash), later + [b])
    ensures IndicesRight(m, later) ==> IndicesRight(RefreshMap(m, b.txs, b.hash), later + [b])
  {
    forall id | id in m
      ensures KeyOf(Refreshed(m[id], b.txs, b.hash)) == KeyOf(m[id])
      ensures KeyOf(m[id]) == id && TxRight(m[id], later) ==> TxRight(Refreshed(m[id], b.txs, b.hash), later + [b])
      ensures KeyOf(m[id]) == id && IndexRight(m[id], later) ==>
        IndexRight(Refreshed(m[id], b.txs, b.hash), later + [b])
    {
      RefreshedKey(m[id], b.txs, b.hash);
      RefreshedRightIff(m[id], later, b);
    }
  }

  lemma GrowKeepsMaps(s: State, b: Block)
    requires Right(s) && Extends(DATA_LINKS, s.blocks, b) && MayGrow(s, b)
    ensures MapsRight(Moved(s, Grow(b)).maps, (s.blocks + [b])[1..])
  {
    LaterNew(s.blocks, b);
    GrowKeepsMap(s.maps.txs, s.blocks[1..], b);
    GrowKeepsMap(s.maps.idx, s.blocks[1..], b);
    assert (s.blocks + [b])[1..] == s.blocks[1..] + [b];
  }

  lemma GrowKeepsChain(s: State, b: Block)
    requires Right(s) && Extends(DATA_LINKS, s.blocks, b)
    ensures Linked(DATA_LINKS, s.blocks + [b]) && Stored(DATA_LINKS, s.store[b.hash := b], s.blocks + [b])
  {
    ExtendLinked(DATA_LINKS, s.blocks, b);
    ExtendStored(DATA_LINKS, s.store, s.blocks, b);
  }

  lemma GrowKeepsRight(s: State, b: Block)
    requires Right(s) && Extends(DATA_LINKS, s.blocks, b) && MayGrow(s, b)
    ensures Right(Moved(s, Grow(b)))
  {
    GrowKeepsMaps(s, b);
    GrowKeepsChain(s, b);
  }

  /** Over every run, with every choice of evicted entries, reads stay right. */
  lemma {:induction false} AnyEvictionIsRight(s: State, moves: seq<Move>, id: string, table: string)
    requires Right(s) && IsPath(s, moves) && MayLook(After(s, moves), id, table)
    ensures var t := After(s, moves);
      && Right(t) && Readable(t.maps, id, t.store)
      && MapAnswer(t.maps, id, t.store, Scanned(t.blocks[1..], id, table)) == TxOf(Lookup(t.blocks[1..], id))
    decreases moves
  {
    if moves == [] {
      LooksRight(s, id, table);
    } else {
      match moves[0] {
        case Look(other, named, kept) => LookKeepsRight(s, other, named, kept);
        case Grow(b) => GrowKeepsRight(s, b);
      }
      AnyEvictionIsRight(Moved(s, moves[0]), moves[1..], id, table);
    }
  }
}
