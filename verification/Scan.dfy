/** Looking data up in the blocks themselves (cache/cache.go, cache/table-chain.go): the newest block
    that holds a data id, and in it the transaction with the greatest timestamp. */
module Scan {
  import opened Wrappers
  import opened Chain

  datatype Found = Found(tx: Transaction, blockHash: Hash)

  // ---------------------------------------------------------------- one block

  function StampOf(best: Option<Transaction>): int {
    match best case None => 0 case Some(tx) => tx.timeStamp
  }

  /** The transaction of this id with the greatest timestamp, the first of several; a timestamp that
      is not positive does not count. */
  function Newest(txs: seq<Transaction>, id: string): Option<Transaction> {
    if txs == [] then None else
      var best, last := Newest(txs[..|txs| - 1], id), txs[|txs| - 1];
      if last.dataID == id && last.timeStamp > StampOf(best) then Some(last) else best
  }

  ghost predicate IsNewestAt(txs: seq<Transaction>, id: string, k: nat) {
    && k < |txs| && txs[k].dataID == id && txs[k].timeStamp > 0
    && (forall j :: 0 <= j < k && txs[j].dataID == id ==> txs[j].timeStamp < txs[k].timeStamp)
    && (forall j :: k < j < |txs| && txs[j].dataID == id ==> txs[j].timeStamp <= txs[k].timeStamp)
  }

  /** No transaction of this id has a positive timestamp. */
  ghost predicate NoneStamped(txs: seq<Transaction>, id: string) {
    forall i :: 0 <= i < |txs| && txs[i].dataID == id ==> txs[i].timeStamp <= 0
  }

  /** What the choice is; `k` is its place. */
  lemma {:induction false} NewestMeaning(txs: seq<Transaction>, id: string) returns (k: nat)
    ensures Newest(txs, id).None? ==> NoneStamped(txs, id)
    ensures Newest(txs, id).Some? ==> IsNewestAt(txs, id, k) && txs[k] == Newest(txs, id).value
  {
    k := 0;
    if txs != [] {
      var front, n := txs[..|txs| - 1], |txs| - 1;
      assert forall j :: 0 <= j < n ==> txs[j] == front[j];
      k := NewestMeaning(front, id);
      if txs[n].dataID == id && txs[n].timeStamp > StampOf(Newest(front, id)) {
        k := n;
      }
    }
  }

  lemma NewestAtUnique(txs: seq<Transaction>, id: string, k: nat)
    requires IsNewestAt(txs, id, k)
    ensures Newest(txs, id) == Some(txs[k])
  {
    var j := NewestMeaning(txs, id);
    assert txs[k].timeStamp > 0;
  }

  /** All transactions of this id, in order. */
  function OfId(txs: seq<Transaction>, id: string): seq<Transaction> {
    if txs == [] then []
    else if txs[|txs| - 1].dataID == id then OfId(txs[..|txs| - 1], id) + [txs[|txs| - 1]]
    else OfId(txs[..|txs| - 1], id)
  }

  /** The running choice both lookups make inside a block. */
  method NewestIn(txs: seq<Transaction>, id: string) returns (lastTX: Option<Transaction>, lastTimeStamp: int)
    ensures lastTX == Newest(txs, id) && lastTimeStamp == StampOf(lastTX)
    ensures lastTimeStamp > 0 <==> lastTX.Some?
  {
    lastTX, lastTimeStamp := None, 0;
    for i := 0 to |txs|
      invariant lastTX == Newest(txs[..i], id) && lastTimeStamp == StampOf(lastTX)
      invariant lastTimeStamp >= 0 && (lastTimeStamp > 0 <==> lastTX.Some?)
    {
      assert txs[..i + 1][..i] == txs[..i];
      if txs[i].dataID == id && txs[i].timeStamp > lastTimeStamp {
        lastTX, lastTimeStamp := Some(txs[i]), txs[i].timeStamp;
      }
    }
    assert txs[..|txs|] == txs;
  }

  // ---------------------------------------------------------------- many blocks

  /** The reference: newest block first, the first block that has the id decides. */
  function Lookup(blocks: seq<Block>, id: string): Option<Found> {
    if blocks == [] then None else
      var b := blocks[|blocks| - 1];
      match Newest(b.txs, id)
      case Some(tx) => Some(Found(tx, b.hash))
      case None => Lookup(blocks[..|blocks| - 1], id)
  }

  lemma LookupSnoc(blocks: seq<Block>, b: Block, id: string)
    ensures Lookup(blocks + [b], id) ==
      match Newest(b.txs, id)
      case Some(tx) => Some(Found(tx, b.hash))
      case None => Lookup(blocks, id)
  {
    assert (blocks + [b])[..|blocks|] == blocks;
  }

  function History(blocks: seq<Block>, id: string): seq<Transaction> {
    if blocks == [] then [] else OfId(blocks[|blocks| - 1].txs, id) + History(blocks[..|blocks| - 1], id)
  }

  /** What the reference finds: in the newest block with a positively stamped transaction of the id, the
      newest one; nothing exactly if no block has any. */
  lemma {:induction false} LookupMeaning(blocks: seq<Block>, id: string) returns (i: nat, k: nat)
    ensures Lookup(blocks, id).None? <==> forall j :: 0 <= j < |blocks| ==> NoneStamped(blocks[j].txs, id)
    ensures Lookup(blocks, id).Some? ==>
      && i < |blocks| && IsNewestAt(blocks[i].txs, id, k)
      && Lookup(blocks, id) == Some(Found(blocks[i].txs[k], blocks[i].hash))
      && forall j :: i < j < |blocks| ==> NoneStamped(blocks[j].txs, id)
  {
    i, k := 0, 0;
    if blocks != [] {
      var n := |blocks| - 1;
      k := NewestMeaning(blocks[n].txs, id);
      if Newest(blocks[n].txs, id).Some? {
        i := n;
        assert !NoneStamped(blocks[n].txs, id);
      } else {
        i, k := LookupMeaning(blocks[..n], id);
        assert forall j :: 0 <= j < n ==> blocks[j] == blocks[..n][j];
      }
    }
  }

  // ---------------------------------------------------------------- what a history lists

  ghost predicate Rising(at: seq<nat>) {
    forall k, l :: 0 <= k < l < |at| ==> at[k] < at[l]
  }

  /** `r` lists the transactions of this id that stand at the places `at`, in order, and these are all. */
  ghost predicate Picks(r: seq<Transaction>, txs: seq<Transaction>, id: string, at: seq<nat>) {
    && |at| == |r| && Rising(at)
    && (forall k :: 0 <= k < |at| ==> at[k] < |txs| && txs[at[k]] == r[k] && r[k].dataID == id)
    && (forall j :: 0 <= j < |txs| && txs[j].dataID == id ==> j in at)
  }

  lemma PicksSnoc(r: seq<Transaction>, txs: seq<Transaction>, id: string, at: seq<nat>, tx: Transaction)
    requires Picks(r, txs, id, at)
    ensures tx.dataID == id ==> Picks(r + [tx], txs + [tx], id, at + [|txs|])
    ensures tx.dataID != id ==> Picks(r, txs + [tx], id, at)
  {
    var more := if tx.dataID == id then at + [|txs|] else at;
    forall j | 0 <= j < |txs + [tx]| && (txs + [tx])[j].dataID == id
      ensures j in more
    {
      if j < |txs| {
        assert txs[j].dataID == id && j in at;
      } else {
        assert more[|at|] == j;
      }
    }
  }

  /** A block's part of a history: every transaction of the id, once, in the block's order. */
  lemma {:induction false} OfIdMeaning(txs: seq<Transaction>, id: string) returns (at: seq<nat>)
    ensures Picks(OfId(txs, id), txs, id, at)
  {
    at := [];
    if txs != [] {
      var front, tx := txs[..|txs| - 1], txs[|txs| - 1];
      at := OfIdMeaning(front, id);
      PicksSnoc(OfId(front, id), front, id, at, tx);
      assert front + [tx] == txs;
      if tx.dataID == id {
        at := at + [|front|];
      }
    }
  }

  /** Newest block first, and inside a block in its order. */
  predicate Earlier(p: (nat, nat), q: (nat, nat)) {
    p.0 > q.0 || (p.0 == q.0 && p.1 < q.1)
  }

  ghost predicate Ordered(at: seq<(nat, nat)>) {
    forall k, l :: 0 <= k < l < |at| ==> Earlier(at[k], at[l])
  }

  /** `r` lists the transactions of this id that stand at these places of these blocks, in this order, and
      these are all. */
  ghost predicate Tells(r: seq<Transaction>, blocks: seq<Block>, id: string, at: seq<(nat, nat)>) {
    && |at| == |r| && Ordered(at)
    && (forall k :: 0 <= k < |at| ==>
          && at[k].0 < |blocks| && at[k].1 < |blocks[at[k].0].txs|
          && r[k] == blocks[at[k].0].txs[at[k].1] && r[k].dataID == id)
    && (forall i, j :: 0 <= i < |blocks| && 0 <= j < |blocks[i].txs| && blocks[i].txs[j].dataID == id ==> (i, j) in at)
  }

  function InBlock(n: nat, at: seq<nat>): (r: seq<(nat, nat)>)
    ensures |r| == |at| && forall k :: 0 <= k < |r| ==> r[k] == (n, at[k])
  {
    seq(|at|, (k: int) requires 0 <= k < |at| => (n, at[k]))
  }

  /** A history is every transaction of the id, once each, newest block first and inside a block in its
      order. */
  lemma {:induction false} HistoryMeaning(blocks: seq<Block>, id: string) returns (at: seq<(nat, nat)>)
    ensures Tells(History(blocks, id), blocks, id, at)
  {
    at := [];
    if blocks != [] {
      var n := |blocks| - 1;
      var last := OfIdMeaning(blocks[n].txs, id);
      var before := HistoryMeaning(blocks[..n], id);
      at := InBlock(n, last) + before;
      forall i, j | 0 <= i < |blocks| && 0 <= j < |blocks[i].txs| && blocks[i].txs[j].dataID == id
        ensures (i, j) in at
      {
        if i == n {
          var k :| 0 <= k < |last| && last[k] == j;
          assert at[k] == (i, j);
        } else {
          assert blocks[..n][i] == blocks[i] && (i, j) in before;
        }
      }
    }
  }

  /** getInBoltDb: walks the whole chain; the genesis block is not looked at. */
  method GetInBoltDb(chain: BlockChain<Block>, id: string) returns (r: Option<Found>)
    requires chain.Valid()
    ensures r == Lookup(chain.blocks[1..], id)
  {
    var it := chain.CreateIterator();
    ghost var n := |chain.blocks|;
    ghost var rest := chain.blocks[1..];
    while true
      invariant 1 <= n <= |chain.blocks| && it.chain == chain && it.Before(n) && fresh(it)
      invariant |rest| == n - 1 && forall i :: 0 <= i < |rest| ==> rest[i] == chain.blocks[i + 1]
      invariant Lookup(chain.blocks[1..], id) == Lookup(rest, id)
      decreases n
    {
      var step := it.Next();
      assert step == Ok(chain.blocks[n - 1]) && it.Before(n - 1);
      var block := step.value;
      AtGenesis(chain, n - 1);
      if it.currentHash == GENESIS {
        return None;
      }
      var tx, stamp := NewestIn(block.txs, id);
      assert rest[|rest| - 1] == block;
      if stamp > 0 {
        return Some(Found(tx.value, block.hash));
      }
      n := n - 1;
      rest := rest[..|rest| - 1];
    }
  }

  /** The iterator shows the genesis marker only when it has passed the genesis block. */
  lemma AtGenesis(chain: BlockChain<Block>, n: nat)
    requires chain.Valid() && n < |chain.blocks|
    ensures n > 0 ==> chain.links.hash(chain.blocks[n - 1]) != GENESIS
  {
    if n > 0 {
      assert HashesOf(chain.links, chain.blocks)[n - 1] == chain.links.hash(chain.blocks[n - 1]);
    }
  }

  // ---------------------------------------------------------------- one table

  predicate HasTable(b: Block, table: string) {
    exists i :: 0 <= i < |b.txs| && b.txs[i].table == table
  }

  /** The blocks with a transaction of this table, in chain order. */
  function OfTable(blocks: seq<Block>, table: string): seq<Block> {
    if blocks == [] then []
    else if HasTable(blocks[|blocks| - 1], table) then OfTable(blocks[..|blocks| - 1], table) + [blocks[|blocks| - 1]]
    else OfTable(blocks[..|blocks| - 1], table)
  }

  /** Whoever carries this id is of this table. */
  ghost predicate IsTableOf(blocks: seq<Block>, id: string, table: string) {
    forall i, j :: 0 <= i < |blocks| && 0 <= j < |blocks[i].txs| && blocks[i].txs[j].dataID == id ==>
      blocks[i].txs[j].table == table
  }

  lemma OtherTable(b: Block, id: string, table: string)
    requires !HasTable(b, table)
    requires forall j :: 0 <= j < |b.txs| && b.txs[j].dataID == id ==> b.txs[j].table == table
    ensures Newest(b.txs, id) == None && OfId(b.txs, id) == []
  {
    var k := NewestMeaning(b.txs, id);
    NoneOfId(b.txs, id);
  }

  lemma {:induction false} NoneOfId(txs: seq<Transaction>, id: string)
    requires forall j :: 0 <= j < |txs| ==> txs[j].dataID != id
    ensures OfId(txs, id) == []
  {
    if txs != [] {
      NoneOfId(txs[..|txs| - 1], id);
    }
  }

  /** A table's own blocks suffice to look up and to list the history of its ids. */
  lemma {:induction false} TableSuffices(blocks: seq<Block>, id: string, table: string)
    requires IsTableOf(blocks, id, table)
    ensures Lookup(OfTable(blocks, table), id) == Lookup(blocks, id)
    ensures History(OfTable(blocks, table), id) == History(blocks, id)
  {
    if blocks != [] {
      var front, last := blocks[..|blocks| - 1], blocks[|blocks| - 1];
      TableSuffices(front, id, table);
      if HasTable(last, table) {
        assert (OfTable(front, table) + [last])[..|OfTable(front, table)|] == OfTable(front, table);
      } else {
        OtherTable(last, id, table);
      }
    }
  }

  /** No transaction of the id is outside the table's blocks. */
  ghost predicate Covers(blocks: seq<Block>, id: string, table: string) {
    forall i :: 0 <= i < |blocks| && OfId(blocks[i].txs, id) != [] ==> HasTable(blocks[i], table)
  }

  lemma CoversLast(blocks: seq<Block>, id: string, table: string)
    requires blocks != []
    ensures var front, last := blocks[..|blocks| - 1], blocks[|blocks| - 1];
      Covers(blocks, id, table) <==> Covers(front, id, table) && (OfId(last.txs, id) != [] ==> HasTable(last, table))
  {
    assert forall i :: 0 <= i < |blocks| - 1 ==> blocks[i] == blocks[..|blocks| - 1][i];
  }

  lemma HistoryLast(blocks: seq<Block>, id: string, table: string)
    requires blocks != []
    ensures var front, last := blocks[..|blocks| - 1], blocks[|blocks| - 1];
      History(OfTable(blocks, table), id) ==
        (if HasTable(last, table) then OfId(last.txs, id) else []) + History(OfTable(front, table), id)
  {
    var table' := OfTable(blocks[..|blocks| - 1], table);
    assert (table' + [blocks[|blocks| - 1]])[..|table'|] == table';
  }

  /** A table's blocks give the whole history of an id if and only if each block that mentions the id
      is one of them. */
  lemma {:induction false} HistoryIff(blocks: seq<Block>, id: string, table: string)
    ensures History(OfTable(blocks, table), id) == History(blocks, id) <==> Covers(blocks, id, table)
    ensures |History(OfTable(blocks, table), id)| <= |History(blocks, id)|
  {
    if blocks != [] {
      var front, last := blocks[..|blocks| - 1], blocks[|blocks| - 1];
      HistoryIff(front, id, table);
      CoversLast(blocks, id, table);
      HistoryLast(blocks, id, table);
      SameRest(OfId(last.txs, id), History(OfTable(front, table), id), History(front, id));
    }
  }

  lemma SameRest(front: seq<Transaction>, a: seq<Transaction>, b: seq<Transaction>)
    ensures front + a == front + b <==> a == b
    ensures front != [] && |a| <= |b| ==> [] + a != front + b
    ensures [] + a == a
  {
    if front + a == front + b {
      assert a == (front + a)[|front|..] == (front + b)[|front|..] == b;
    }
  }

  // ---------------------------------------------------------------- data ids

  const MARK := "-QAQ-"

  /** SetDataID. */
  function DataID(table: string, key: string): string {
    table + MARK + key
  }

  /** A name, with the mark, begins the other. */
  predicate Begins(table: string, table': string) {
    table + MARK <= table' + MARK
  }

  /** Two tables whose data ids can meet. */
  predicate Clash(table: string, table': string) {
    table != table' && (Begins(table, table') || Begins(table', table))
  }

  lemma PrefixesCompare(r: string, s: string, o: string, t: string)
    requires r + s == o + t && |r| <= |o|
    ensures r <= o && s == o[|r|..] + t
  {
    var all := r + s;
    assert r == all[..|r|] && o == all[..|o|] && o[..|r|] == all[..|r|];
    assert o + t == r + (o[|r|..] + t);
    assert s == all[|r|..] == (r + (o[|r|..] + t))[|r|..];
  }

  /** When two data ids are equal: the longer name continues the shorter one's mark, and the shorter
      one's key makes up for the difference. */
  lemma DataIDsMeet(table: string, key: string, table': string, key': string)
    requires |table| <= |table'|
    ensures DataID(table, key) == DataID(table', key')
      <==> Begins(table, table') && key == (table' + MARK)[|table + MARK|..] + key'
  {
    if DataID(table, key) == DataID(table', key') {
      PrefixesCompare(table + MARK, key, table' + MARK, key');
    }
    if Begins(table, table') {
      assert table' + MARK == table + MARK + (table' + MARK)[|table + MARK|..];
    }
  }

  lemma BeginsShorter(table: string, table': string)
    requires Begins(table, table')
    ensures |table| < |table'| || table == table'
  {
    if |table| == |table'| {
      assert table == (table + MARK)[..|table|] == (table' + MARK)[..|table|] == table';
    }
  }

  lemma Continued(table: string, table': string)
    requires Begins(table, table')
    ensures exists key, key' :: DataID(table, key) == DataID(table', key')
  {
    BeginsShorter(table, table');
    DataIDsMeet(table, (table' + MARK)[|table + MARK|..] + "", table', "");
  }

  /** Two tables share a data id if and only if one name, with the mark, begins the other. */
  lemma ShareIDIff(table: string, table': string)
    ensures (exists key, key' :: DataID(table, key) == DataID(table', key'))
      <==> Begins(table, table') || Begins(table', table)
  {
    if key, key' :| DataID(table, key) == DataID(table', key') {
      if |table| <= |table'| {
        DataIDsMeet(table, key, table', key');
      } else {
        DataIDsMeet(table', key', table, key);
      }
    } else if Begins(table, table') {
      Continued(table, table');
    } else if Begins(table', table) {
      Continued(table', table);
    }
  }

  /** Names that do not clash never share a data id, nor do two keys of one table. */
  lemma DataIDTellsTable(table: string, key: string, table': string, key': string)
    requires !Clash(table, table')
    ensures DataID(table, key) == DataID(table', key') <==> table == table' && key == key'
  {
    if DataID(table, key) == DataID(table', key') {
      ShareIDIff(table, table');
      DataIDsMeet(table, key, table', key');
      assert (table' + MARK)[|table + MARK|..] == "";
    }
  }

  /** A dash makes names clash only if the mark follows: "a" clashes with "a-QAQ-b", while "user" and
      "user-info" do not. */
  lemma DashesAlone()
    ensures Clash("a", "a-QAQ-b") && DataID("a", "b-QAQ-c") == DataID("a-QAQ-b", "c")
    ensures !Clash("user", "user-info")
  {
    DataIDsMeet("a", "b-QAQ-c", "a-QAQ-b", "c");
    assert ("user" + MARK)[5] == 'Q' && ("user-info" + MARK)[5] == 'i';
  }

  /** Every transaction carries the data id of its own table and key. */
  ghost predicate WellNamed(blocks: seq<Block>) {
    forall i, j :: 0 <= i < |blocks| && 0 <= j < |blocks[i].txs| ==>
      blocks[i].txs[j].dataID == DataID(blocks[i].txs[j].table, blocks[i].txs[j].key)
  }

  ghost predicate TablesAmong(blocks: seq<Block>, names: set<string>) {
    forall i, j :: 0 <= i < |blocks| && 0 <= j < |blocks[i].txs| ==> blocks[i].txs[j].table in names
  }

  ghost predicate NoneClashes(names: set<string>, table: string) {
    forall name :: name in names ==> !Clash(name, table)
  }

  lemma TableOfDataID(blocks: seq<Block>, names: set<string>, table: string, key: string)
    requires WellNamed(blocks) && TablesAmong(blocks, names) && NoneClashes(names, table)
    ensures IsTableOf(blocks, DataID(table, key), table)
  {
    forall i, j | 0 <= i < |blocks| && 0 <= j < |blocks[i].txs| && blocks[i].txs[j].dataID == DataID(table, key)
      ensures blocks[i].txs[j].table == table
    {
      DataIDTellsTable(blocks[i].txs[j].table, blocks[i].txs[j].key, table, key);
    }
  }

  ghost predicate IdsTellTable(names: set<string>, table: string) {
    forall blocks, key :: WellNamed(blocks) && TablesAmong(blocks, names) ==>
      IsTableOf(blocks, DataID(table, key), table)
  }

  function Single(table: string, key: string): seq<Block> {
    var tx := Transaction(Text(""), DataID(table, key), table, key, "", "", 0, [], []);
    [Block(0, Text(""), Text(""), [], [tx], 0, [], [], [], 0, [])]
  }

  /** On every chain over these tables the data ids of a table are carried by its own transactions
      alone, if and only if no other name clashes with it. */
  lemma IdsTellTableIff(names: set<string>, table: string)
    ensures IdsTellTable(names, table) <==> NoneClashes(names, table)
  {
    if NoneClashes(names, table) {
      forall blocks, key | WellNamed(blocks) && TablesAmong(blocks, names)
        ensures IsTableOf(blocks, DataID(table, key), table)
      {
        TableOfDataID(blocks, names, table, key);
      }
    } else {
      var name :| name in names && Clash(name, table);
      ShareIDIff(name, table);
      var key, key' :| DataID(name, key) == DataID(table, key');
      var blocks := Single(name, key);
      assert WellNamed(blocks) && TablesAmong(blocks, names);
      assert blocks[0].txs[0].dataID == DataID(table, key') && blocks[0].txs[0].table == name;
      assert !IsTableOf(blocks, DataID(table, key'), table);
    }
  }
}
