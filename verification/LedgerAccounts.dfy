/**
The account counters against the aggregates they cache: tx_count and the flow totals are additive, so they
exceed the aggregate over account_blocks by exactly the blocks processed again; first_seen and last_seen
are the extreme timestamps even then.
*/
module LedgerAccounts {
  import opened Wrappers
  import opened Ledger
  import opened LedgerEffects
  import opened LedgerRuns

  datatype Totals = Totals(txCount: int, znnSent: int, znnReceived: int, qsrSent: int, qsrReceived: int)

  const ZERO := Totals(0, 0, 0, 0, 0)

  function Plus(a: Totals, b: Totals): Totals {
    Totals(a.txCount + b.txCount, a.znnSent + b.znnSent, a.znnReceived + b.znnReceived,
           a.qsrSent + b.qsrSent, a.qsrReceived + b.qsrReceived)
  }

  /** The cached columns. */
  function Cached(row: AccountRow): Totals {
    Totals(row.txCount, row.znnSent, row.znnReceived, row.qsrSent, row.qsrReceived)
  }

  /** WHERE address = $1 OR to_address = $1. */
  predicate Touches(row: BlockRow, address: string) {
    row.address == address || row.toAddress == address
  }

  /** What one stored block counts for an address: a self-send once, flows only for the chain's owner. */
  function Contribution(row: BlockRow, address: string): Totals {
    var mine := row.address == address;
    Totals(
      if Touches(row, address) then 1 else 0,
      if mine && Sends(row.blockType) && row.token == ZNN_TOKEN then row.amount else 0,
      if mine && Receives(row.blockType) && row.token == ZNN_TOKEN then row.amount else 0,
      if mine && Sends(row.blockType) && row.token == QSR_TOKEN then row.amount else 0,
      if mine && Receives(row.blockType) && row.token == QSR_TOKEN then row.amount else 0)
  }

  /** The aggregate over account_blocks. */
  function Aggregate(rows: seq<BlockRow>, address: string): Totals {
    if rows == [] then ZERO
    else Plus(Aggregate(rows[..|rows| - 1], address), Contribution(rows[|rows| - 1], address))
  }

  lemma {:induction false} AggregateOfCores(a: seq<BlockRow>, b: seq<BlockRow>, address: string)
    requires SameCores(a, b)
    ensures Aggregate(a, address) == Aggregate(b, address)
  {
    if a != [] {
      var n := |a| - 1;
      AggregateOfCores(a[..n], b[..n], address);
      assert Core(a[n]) == Core(b[n]);
    }
  }

  lemma {:induction false} AggregateOfInserted(rows: seq<BlockRow>, row: BlockRow, address: string)
    ensures Aggregate(Inserted(rows, row), address) ==
      if HasBlock(rows, row.hash) then Aggregate(rows, address) else Plus(Aggregate(rows, address), Contribution(row, address))
  {
    if HasBlock(rows, row.hash) {
      AggregateOfCores(rows, Inserted(rows, row), address);
    } else {
      assert (rows + [row])[..|rows|] == rows;
    }
  }

  /** What the blocks that were already stored when they were processed count for an address. */
  function Reprocessed(db: Db, items: seq<Item>, address: string): Totals {
    if items == [] then ZERO else
      var n := |items| - 1;
      var row := RowOf(items[n].b, items[n].m);
      Plus(Reprocessed(db, items[..n], address),
           if HasBlock(BlockRun(db, items[..n]).blocks, row.hash) then Contribution(row, address) else ZERO)
  }

  /** The account_blocks side of one block. */
  lemma {:induction false} AggregateStep(j: seq<BlockRow>, k: seq<BlockRow>, row: BlockRow, address: string)
    requires SameCores(Inserted(j, row), k)
    ensures Aggregate(k, address) ==
      if HasBlock(j, row.hash) then Aggregate(j, address) else Plus(Aggregate(j, address), Contribution(row, address))
  {
    AggregateOfInserted(j, row, address);
    AggregateOfCores(Inserted(j, row), k, address);
  }

  /** The accounts side of one block. */
  lemma {:induction false} CachedStep(row: AccountRow, after: AccountRow, address: string, b: Block, m: Momentum)
    requires address != "" && SameCounters(after, Counted(row, address, b, m))
    ensures Cached(after) == Plus(Cached(row), Contribution(RowOf(b, m), address))
  {
    CountedIsContribution(row, address, b, m);
  }

  lemma {:induction false} Balance(cached: Totals, cached': Totals, aggregate: Totals, aggregate': Totals, extra: Totals, c: Totals, again: bool)
    requires cached == Plus(aggregate, extra) && cached' == Plus(cached, c)
    requires aggregate' == if again then aggregate else Plus(aggregate, c)
    ensures cached' == Plus(aggregate', Plus(extra, if again then c else ZERO))
  {
  }

  lemma {:induction false} CountersOfBlock(j: Db, b: Block, m: Momentum, env: Lookups, address: string)
    requires address != ""
    ensures var k, row := ApplyBlock(j, b, m, env), RowOf(b, m);
      && Cached(Account(k, address)) == Plus(Cached(Account(j, address)), Contribution(row, address))
      && Aggregate(k.blocks, address) ==
         if HasBlock(j.blocks, row.hash) then Aggregate(j.blocks, address)
         else Plus(Aggregate(j.blocks, address), Contribution(row, address))
  {
    var k := ApplyBlock(j, b, m, env);
    CounterColumns(j, b, m, env, address);
    CachedStep(Account(j, address), Account(k, address), address, b, m);
    AggregateStep(j.blocks, k.blocks, RowOf(b, m), address);
  }

  /**
  Every run: the cached totals are the aggregate over the stored blocks plus what reprocessed blocks count.
  */
  lemma {:induction false} CountersExact(db: Db, items: seq<Item>, address: string)
    requires address != "" && Cached(Account(db, address)) == Aggregate(db.blocks, address)
    ensures var k := BlockRun(db, items);
      Cached(Account(k, address)) == Plus(Aggregate(k.blocks, address), Reprocessed(db, items, address))
  {
    if items != [] {
      var n := |items| - 1;
      var it, j, k := items[n], BlockRun(db, items[..n]), BlockRun(db, items);
      var row := RowOf(it.b, it.m);
      CountersExact(db, items[..n], address);
      CountersOfBlock(j, it.b, it.m, it.env, address);
      Balance(Cached(Account(j, address)), Cached(Account(k, address)), Aggregate(j.blocks, address), Aggregate(k.blocks, address),
              Reprocessed(db, items[..n], address), Contribution(row, address), HasBlock(j.blocks, row.hash));
    }
  }

  lemma {:induction false} CountedIsContribution(row: AccountRow, address: string, b: Block, m: Momentum)
    requires address != ""
    ensures Cached(Counted(row, address, b, m)) == Plus(Cached(row), Contribution(RowOf(b, m), address))
  {
  }

  /** No block is processed twice, nor one that was stored before the run. */
  predicate EachOnce(db: Db, items: seq<Item>) {
    && (forall i, j | 0 <= i < j < |items| :: items[i].b.hash != items[j].b.hash)
    && (forall i | 0 <= i < |items| :: !HasBlock(db.blocks, items[i].b.hash))
  }

  lemma {:induction false} StoredHashes(rows: seq<BlockRow>, row: BlockRow, k: seq<BlockRow>, hash: string)
    requires SameCores(Inserted(rows, row), k)
    ensures HasBlock(k, hash) <==> HasBlock(rows, hash) || hash == row.hash
  {
    var ins := Inserted(rows, row);
    assert forall i | 0 <= i < |k| :: k[i].hash == Core(k[i]).hash == Core(ins[i]).hash == ins[i].hash;
    if HasBlock(rows, hash) {
      var i :| 0 <= i < |rows| && rows[i].hash == hash;
      assert ins[i].hash == hash && k[i].hash == hash;
    }
    if !HasBlock(rows, row.hash) {
      assert ins[|rows|] == row && k[|rows|].hash == row.hash;
    } else if hash == row.hash {
      var i :| 0 <= i < |rows| && rows[i].hash == hash;
      assert k[i].hash == hash;
    }
    if HasBlock(k, hash) {
      var i :| 0 <= i < |k| && k[i].hash == hash;
      assert ins[i].hash == hash;
      if i < |rows| { assert rows[i].hash == hash; }
    }
  }

  lemma {:induction false} HashesOfBlock(j: Db, b: Block, m: Momentum, env: Lookups, hash: string)
    ensures HasBlock(ApplyBlock(j, b, m, env).blocks, hash) <==> HasBlock(j.blocks, hash) || hash == b.hash
  {
    CounterColumns(j, b, m, env, "");
    StoredHashes(j.blocks, RowOf(b, m), ApplyBlock(j, b, m, env).blocks, hash);
  }

  predicate Processed(items: seq<Item>, hash: string) {
    exists i :: 0 <= i < |items| && items[i].b.hash == hash
  }

  lemma {:induction false} ProcessedAppend(items: seq<Item>, it: Item, hash: string)
    ensures Processed(items + [it], hash) <==> Processed(items, hash) || it.b.hash == hash
  {
    var all := items + [it];
    assert all[|items|] == it;
    if i :| 0 <= i < |items| && items[i].b.hash == hash { assert all[i].b.hash == hash; }
  }

  lemma {:induction false} HashesOfRun(db: Db, items: seq<Item>, hash: string)
    ensures HasBlock(BlockRun(db, items).blocks, hash) <==> HasBlock(db.blocks, hash) || Processed(items, hash)
  {
    if items != [] {
      var n := |items| - 1;
      var it := items[n];
      HashesOfRun(db, items[..n], hash);
      HashesOfBlock(BlockRun(db, items[..n]), it.b, it.m, it.env, hash);
      ProcessedAppend(items[..n], it, hash);
      assert items == items[..n] + [it];
    }
  }

  lemma {:induction false} NothingReprocessed(db: Db, items: seq<Item>, address: string)
    requires EachOnce(db, items)
    ensures Reprocessed(db, items, address) == ZERO
  {
    if items != [] {
      var n := |items| - 1;
      NothingReprocessed(db, items[..n], address);
      HashesOfRun(db, items[..n], items[n].b.hash);
      assert forall i | 0 <= i < n :: items[..n][i].b.hash == items[i].b.hash;
    }
  }

  lemma {:induction false} RunCounters(db: Db, works: seq<Work>, address: string)
    requires address != "" && Cached(Account(db, address)) == Aggregate(db.blocks, address)
    ensures var k := RunAll(db, works);
      Cached(Account(k, address)) == Plus(Aggregate(k.blocks, address), Reprocessed(db, Items(works), address))
  {
    RunIsBlockRun(db, works);
    CountersExact(db, Items(works), address);
  }

  /** On runs that commit each block once, tx_count and the flow totals are the aggregates. */
  lemma {:induction false} CountersAreAggregates(db: Db, works: seq<Work>, address: string)
    requires address != "" && Cached(Account(db, address)) == Aggregate(db.blocks, address)
    requires EachOnce(db, Items(works))
    ensures var k := RunAll(db, works); Cached(Account(k, address)) == Aggregate(k.blocks, address)
  {
    RunCounters(db, works, address);
    NothingReprocessed(db, Items(works), address);
  }

  /** How many processed blocks touching the address were stored already. */
  function Replays(db: Db, items: seq<Item>, address: string): nat {
    if items == [] then 0 else
      var n := |items| - 1;
      var row := RowOf(items[n].b, items[n].m);
      Replays(db, items[..n], address)
      + if HasBlock(BlockRun(db, items[..n]).blocks, row.hash) && Touches(row, address) then 1 else 0
  }

  lemma {:induction false} ReplaysAreReprocessed(db: Db, items: seq<Item>, address: string)
    ensures Reprocessed(db, items, address).txCount == Replays(db, items, address)
  {
    if items != [] { ReplaysAreReprocessed(db, items[..|items| - 1], address); }
  }

  /** tx_count equals COUNT(*) exactly when no block touching the address was processed again. */
  lemma {:induction false} TxCountExact(db: Db, works: seq<Work>, address: string)
    requires address != "" && Cached(Account(db, address)) == Aggregate(db.blocks, address)
    ensures var k := RunAll(db, works);
      && Account(k, address).txCount == Aggregate(k.blocks, address).txCount + Replays(db, Items(works), address)
      && (Account(k, address).txCount == Aggregate(k.blocks, address).txCount <==> Replays(db, Items(works), address) == 0)
  {
    RunCounters(db, works, address);
    ReplaysAreReprocessed(db, Items(works), address);
  }

  // ----- First and last seen -----

  /** f is the least timestamp of the stored blocks touching the address; None when there is none. */
  ghost predicate IsFirst(f: Option<int>, rows: seq<BlockRow>, address: string) {
    && (f.None? <==> forall k | 0 <= k < |rows| :: !Touches(rows[k], address))
    && (f.Some? ==> (exists k :: 0 <= k < |rows| && Touches(rows[k], address) && rows[k].ts == f.value)
                    && forall k | 0 <= k < |rows| && Touches(rows[k], address) :: f.value <= rows[k].ts)
  }

  ghost predicate IsLast(f: Option<int>, rows: seq<BlockRow>, address: string) {
    && (f.None? <==> forall k | 0 <= k < |rows| :: !Touches(rows[k], address))
    && (f.Some? ==> (exists k :: 0 <= k < |rows| && Touches(rows[k], address) && rows[k].ts == f.value)
                    && forall k | 0 <= k < |rows| && Touches(rows[k], address) :: f.value >= rows[k].ts)
  }

  ghost predicate SeenMatches(row: AccountRow, rows: seq<BlockRow>, address: string) {
    IsFirst(row.firstSeen, rows, address) && IsLast(row.lastSeen, rows, address)
  }

  /** A stored block that is served again is the same block, at the same time. */
  predicate Faithful(rows: seq<BlockRow>, row: BlockRow) {
    forall k | 0 <= k < |rows| && rows[k].hash == row.hash ::
      rows[k].address == row.address && rows[k].toAddress == row.toAddress && rows[k].ts == row.ts
  }

  predicate AllFaithful(db: Db, items: seq<Item>) {
    if items == [] then true else
      var n := |items| - 1;
      AllFaithful(db, items[..n]) && Faithful(BlockRun(db, items[..n]).blocks, RowOf(items[n].b, items[n].m))
  }

  lemma {:induction false} SeenOfCores(row: AccountRow, a: seq<BlockRow>, b: seq<BlockRow>, address: string)
    requires SameCores(a, b) && SeenMatches(row, a, address)
    ensures SeenMatches(row, b, address)
  {
    assert forall k | 0 <= k < |a| :: Core(a[k]) == Core(b[k]) ==>
      (Touches(a[k], address) <==> Touches(b[k], address)) && a[k].ts == b[k].ts;
  }

  lemma {:induction false} SeenOfInserted(acc: AccountRow, rows: seq<BlockRow>, row: BlockRow, address: string)
    requires SeenMatches(acc, rows, address) && Faithful(rows, row)
    ensures var after := if Touches(row, address) then Bumped(acc, row.ts) else acc;
      SeenMatches(after, Inserted(rows, row), address)
  {
    var after := if Touches(row, address) then Bumped(acc, row.ts) else acc;
    if HasBlock(rows, row.hash) {
      var i :| 0 <= i < |rows| && rows[i].hash == row.hash;
      assert Touches(rows[i], address) <==> Touches(row, address);
      assert SeenMatches(after, rows, address);
      SeenOfCores(after, rows, Inserted(rows, row), address);
    } else {
      var ins := rows + [row];
      assert ins[|rows|] == row && forall k | 0 <= k < |rows| :: ins[k] == rows[k];
    }
  }

  lemma {:induction false} CountedSeen(row: AccountRow, address: string, b: Block, m: Momentum)
    requires address != ""
    ensures var after := if Touches(RowOf(b, m), address) then Bumped(row, m.ts) else row;
      Counted(row, address, b, m).firstSeen == after.firstSeen && Counted(row, address, b, m).lastSeen == after.lastSeen
  {
  }

  lemma {:induction false} SeenStep(acc: AccountRow, after: AccountRow, j: seq<BlockRow>, k: seq<BlockRow>, row: BlockRow, address: string)
    requires SeenMatches(acc, j, address) && Faithful(j, row) && SameCores(Inserted(j, row), k)
    requires var bumped := if Touches(row, address) then Bumped(acc, row.ts) else acc;
      after.firstSeen == bumped.firstSeen && after.lastSeen == bumped.lastSeen
    ensures SeenMatches(after, k, address)
  {
    SeenOfInserted(acc, j, row, address);
    SeenOfCores(after, Inserted(j, row), k, address);
  }

  /** Every run over a chain that serves each block faithfully, reprocessing included. */
  lemma {:induction false} SeenIsMinMax(db: Db, items: seq<Item>, address: string)
    requires address != "" && SeenMatches(Account(db, address), db.blocks, address) && AllFaithful(db, items)
    ensures var k := BlockRun(db, items); SeenMatches(Account(k, address), k.blocks, address)
  {
    if items != [] {
      var n := |items| - 1;
      var it, j := items[n], BlockRun(db, items[..n]);
      SeenIsMinMax(db, items[..n], address);
      CounterColumns(j, it.b, it.m, it.env, address);
      CountedSeen(Account(j, address), address, it.b, it.m);
      var k := BlockRun(db, items);
      SeenStep(Account(j, address), Account(k, address), j.blocks, k.blocks, RowOf(it.b, it.m), address);
    }
  }
}
