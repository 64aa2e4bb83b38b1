/**
What processing one block leaves in every row of every table it touches, in terms of the block's own fields and
the rows that were there: nothing here mentions a statement or the functions that build them.
*/
module LedgerBlocks {
  import opened Wrappers
  import opened Ledger
  import opened LedgerEffects
  import opened LedgerAccounts
  import opened LedgerDelegations

  /** An amount as a BIGINT column holds it: nothing is 0, and what does not fit is the largest one. */
  predicate Fits(column: int, amount: Option<int>) {
    && (amount.None? ==> column == 0)
    && (amount.Some? && -0x8000_0000_0000_0000 <= amount.value < 0x8000_0000_0000_0000 ==> column == amount.value)
    && (amount.Some? && !(-0x8000_0000_0000_0000 <= amount.value < 0x8000_0000_0000_0000) ==> column == 0x7fff_ffff_ffff_ffff)
  }

  // ----- accounts -----

  predicate SentBy(b: Block, address: string, token: string) {
    address == b.address && b.token == token && (b.blockType == UserSend || b.blockType == ContractSend)
  }

  predicate ReceivedBy(b: Block, address: string, token: string) {
    address == b.address && b.token == token
    && (b.blockType == UserReceive || b.blockType == ContractReceive || b.blockType == GenesisReceive)
  }

  predicate Touched(b: Block, address: string) {
    address == b.address || (address == b.toAddress && address != "")
  }

  /** The column is the earlier, or later, of what it was and the time of the block, if the block concerns it. */
  predicate Earliest(after: Option<int>, before: Option<int>, ts: int, concerns: bool) {
    if !concerns then after == before
    else after.Some? && (before.None? ==> after.value == ts)
         && (before.Some? ==> after.value <= ts && after.value <= before.value && after.value in {ts, before.value})
  }

  predicate Latest(after: Option<int>, before: Option<int>, ts: int, concerns: bool) {
    if !concerns then after == before
    else after.Some? && (before.None? ==> after.value == ts)
         && (before.Some? ==> after.value >= ts && after.value >= before.value && after.value in {ts, before.value})
  }

  predicate Added(after: int, before: int, amount: int, concerns: bool) {
    after == if concerns then before + amount else before
  }

  lemma {:induction false} TokensDiffer()
    ensures ZNN_TOKEN != QSR_TOKEN
  {
    assert ZNN_TOKEN[4] != QSR_TOKEN[4];
  }

  lemma {:induction false} CountedFlows(was: AccountRow, k: AccountRow, b: Block, m: Momentum, address: string)
    requires SameCounters(k, Counted(was, address, b, m))
    ensures var amount := SafeInt64(b.amount);
      && Fits(amount, b.amount)
      && Added(k.znnSent, was.znnSent, amount, SentBy(b, address, ZNN_TOKEN))
      && Added(k.qsrSent, was.qsrSent, amount, SentBy(b, address, QSR_TOKEN))
      && Added(k.znnReceived, was.znnReceived, amount, ReceivedBy(b, address, ZNN_TOKEN))
      && Added(k.qsrReceived, was.qsrReceived, amount, ReceivedBy(b, address, QSR_TOKEN))
  {
    TokensDiffer();
  }

  lemma {:induction false} CountedSeen(was: AccountRow, k: AccountRow, b: Block, m: Momentum, address: string)
    requires SameCounters(k, Counted(was, address, b, m))
    ensures Added(k.txCount, was.txCount, 1, Touched(b, address))
    ensures Earliest(k.firstSeen, was.firstSeen, m.ts, Touched(b, address))
    ensures Latest(k.lastSeen, was.lastSeen, m.ts, Touched(b, address))
  {
    var f := Flowed(was, address, b, m);
    assert f.txCount == was.txCount && f.firstSeen == was.firstSeen && f.lastSeen == was.lastSeen;
    hide Flowed;
  }

  lemma {:induction false} CountedActive(was: AccountRow, k: AccountRow, b: Block, m: Momentum, address: string)
    requires SameCounters(k, Counted(was, address, b, m))
    ensures var moved := address == b.address && b.blockType != OtherType;
      && Earliest(k.firstActive, was.firstActive, m.ts, moved)
      && Latest(k.lastActive, was.lastActive, m.ts, moved)
  {
    var f := Flowed(was, address, b, m);
    assert k.firstActive == f.firstActive && k.lastActive == f.lastActive;
    hide Counted, Bumped, SameCounters;
  }

  /** Every counter column of one account after the block. */
  lemma {:induction false} AccountCounters(db: Db, b: Block, m: Momentum, env: Lookups, address: string)
    ensures var was, k := Account(db, address), Account(ApplyBlock(db, b, m, env), address);
      var amount, moved := SafeInt64(b.amount), address == b.address && b.blockType != OtherType;
      && Fits(amount, b.amount)
      && Added(k.znnSent, was.znnSent, amount, SentBy(b, address, ZNN_TOKEN))
      && Added(k.qsrSent, was.qsrSent, amount, SentBy(b, address, QSR_TOKEN))
      && Added(k.znnReceived, was.znnReceived, amount, ReceivedBy(b, address, ZNN_TOKEN))
      && Added(k.qsrReceived, was.qsrReceived, amount, ReceivedBy(b, address, QSR_TOKEN))
      && Added(k.txCount, was.txCount, 1, Touched(b, address))
      && Earliest(k.firstSeen, was.firstSeen, m.ts, Touched(b, address))
      && Latest(k.lastSeen, was.lastSeen, m.ts, Touched(b, address))
      && Earliest(k.firstActive, was.firstActive, m.ts, moved)
      && Latest(k.lastActive, was.lastActive, m.ts, moved)
  {
    hide *;
    CounterColumns(db, b, m, env, address);
    CountedFlows(Account(db, address), Account(ApplyBlock(db, b, m, env), address), b, m, address);
    CountedSeen(Account(db, address), Account(ApplyBlock(db, b, m, env), address), b, m, address);
    CountedActive(Account(db, address), Account(ApplyBlock(db, b, m, env), address), b, m, address);
  }

  /** The addresses with an accounts row after the block are those before, its own and its recipient's. */
  lemma {:induction false} AccountsCreated(db: Db, b: Block, m: Momentum, env: Lookups, address: string)
    ensures address in ApplyBlock(db, b, m, env).accounts <==> address in db.accounts || Touched(b, address)
  {
    DelegationColumns(db, b, m, env, address);
  }

  /** When a delegation of the address started, as its column has it. */
  lemma {:induction false} DelegationStarts(db: Db, b: Block, m: Momentum, env: Lookups, address: string)
    ensures var was, k := Account(db, address), Account(ApplyBlock(db, b, m, env), address);
      var mine := b.paired.Some? && b.paired.value.address == address && (address in db.accounts || Touched(b, address));
      && (mine && CallsPillar(b, "Undelegate") ==> k.delegationStart == 0)
      && (mine && CallsPillar(b, "Delegate") && (exists owner :: NamesOwner(b, env, owner)) ==> k.delegationStart == m.ts)
      && (!mine || !(CallsPillar(b, "Undelegate") || CallsPillar(b, "Delegate")) ==> k.delegationStart == was.delegationStart)
  {
    BlockEffect(db, b, m, env, address);
  }

  // ----- account_blocks -----

  /** The rows after the block: a new one at the end unless its hash is stored, and only links rewritten in the others. */
  lemma {:induction false} BlockRows(db: Db, b: Block, m: Momentum, env: Lookups)
    ensures var rows, k := db.blocks, ApplyBlock(db, b, m, env).blocks;
      && |k| == |rows| + (if HasBlock(rows, b.hash) then 0 else 1)
      && (forall i | 0 <= i < |rows| :: k[i] == rows[i].(paired := k[i].paired, descendantOf := k[i].descendantOf))
      && (!HasBlock(rows, b.hash) ==>
            var row := k[|rows|];
            && row.hash == b.hash && row.height == m.height && row.ts == m.ts && row.blockType == b.blockType
            && row.address == b.address && row.toAddress == b.toAddress && Fits(row.amount, b.amount) && row.token == b.token)
  {
    CounterColumns(db, b, m, env, "");
    var rows, k := Inserted(db.blocks, RowOf(b, m)), ApplyBlock(db, b, m, env).blocks;
    forall i | 0 <= i < |k|
      ensures k[i] == rows[i].(paired := k[i].paired, descendantOf := k[i].descendantOf)
    {
      assert Core(k[i]) == Core(rows[i]);
      Recore(k[i], rows[i]);
    }
  }

  lemma {:induction false} Recore(a: BlockRow, b: BlockRow)
    requires Core(a) == Core(b)
    ensures a == b.(paired := a.paired, descendantOf := a.descendantOf)
  {
    assert a == Core(a).(paired := a.paired, descendantOf := a.descendantOf);
    assert b == Core(b).(paired := b.paired, descendantOf := b.descendantOf);
  }

  /** The send block a row is paired with: the block itself names its own, and its send block names it back. */
  lemma {:induction false} PairedRows(db: Db, b: Block, m: Momentum, env: Lookups, i: nat)
    requires i < |ApplyBlock(db, b, m, env).blocks|
    ensures var row := ApplyBlock(db, b, m, env).blocks[i];
      row.paired ==
        if b.paired.Some? && row.hash == b.paired.value.hash then b.hash
        else if row.hash == b.hash then (if b.paired.Some? then b.paired.value.hash else "")
        else if i < |db.blocks| then db.blocks[i].paired else ""
  {
    BlockRows(db, b, m, env);
    PairedColumn(db, b, m, env);
    var k, rows := ApplyBlock(db, b, m, env).blocks, Inserted(db.blocks, RowOf(b, m));
    CounterColumns(db, b, m, env, "");
    assert Core(k[i]) == Core(rows[i]);
    assert k[i].hash == Core(k[i]).hash == Core(rows[i]).hash == rows[i].hash;
  }

  lemma {:induction false} DescendantsSet(db: Db, descendants: seq<string>, parent: string)
    ensures var k := ExecAll(db, DescendantStmts(descendants, parent)).blocks;
      |k| == |db.blocks| && forall i | 0 <= i < |k| ::
        k[i].descendantOf == if db.blocks[i].hash in descendants then parent else db.blocks[i].descendantOf
    decreases descendants
  {
    if descendants != [] {
      var first := Exec(db, UpdateDescendant(descendants[0], parent));
      DescendantsSet(first, descendants[1..], parent);
      assert descendants == [descendants[0]] + descendants[1..];
      assert forall i | 0 <= i < |first.blocks| :: first.blocks[i].hash == db.blocks[i].hash;
    }
  }

  lemma {:induction false} LinksDescend(c: Db, b: Block)
    ensures var k := ExecAll(c, LinkStmts(b)).blocks;
      |k| == |c.blocks| && forall i | 0 <= i < |k| ::
        && k[i].hash == c.blocks[i].hash
        && k[i].descendantOf == if c.blocks[i].hash in b.descendants then b.hash else c.blocks[i].descendantOf
  {
    var first := if b.paired.Some? then [UpdatePaired(b.paired.value.hash, b.hash)] else [];
    ExecAppend(c, first, DescendantStmts(b.descendants, b.hash));
    var p := ExecAll(c, first);
    if b.paired.Some? {
      ExecOne(c, first[0]);
    }
    DescendantsSet(p, b.descendants, b.hash);
    LinksOnlyLink(c, b);
    forall i | 0 <= i < |c.blocks|
      ensures ExecAll(c, LinkStmts(b)).blocks[i].hash == c.blocks[i].hash
    {
      assert Core(ExecAll(c, LinkStmts(b)).blocks[i]).hash == Core(c.blocks[i]).hash;
    }
  }

  lemma {:induction false} LinksAreLast(db: Db, b: Block, m: Momentum, env: Lookups)
    ensures ApplyBlock(db, b, m, env).blocks == ExecAll(AfterCounters(db, b, m), LinkStmts(b)).blocks
    ensures AfterCounters(db, b, m).blocks == Inserted(db.blocks, RowOf(b, m))
  {
    BlockStages(db, b, m, env);
    CountersStage(db, b, m, "");
    var l := ExecAll(AfterCounters(db, b, m), LinkStmts(b));
    DelegationEffect(l, b, m, env);
    RewardEffect(ExecAll(l, DelegationStmts(b, m, env)), b, env);
    LaterEffect(l, EventOf(b, m, env), RewardOf(b, env), m.ts, "");
  }

  /** A row descends from the block that lists it; nothing else rewrites that column. */
  lemma {:induction false} DescendantRows(db: Db, b: Block, m: Momentum, env: Lookups, i: nat)
    requires i < |ApplyBlock(db, b, m, env).blocks|
    ensures var row := ApplyBlock(db, b, m, env).blocks[i];
      row.descendantOf ==
        if row.hash in b.descendants then b.hash else if i < |db.blocks| then db.blocks[i].descendantOf else ""
  {
    hide ApplyBlock, AfterCounters, LinkStmts, ExecAll;
    LinksAreLast(db, b, m, env);
    LinksDescend(AfterCounters(db, b, m), b);
  }

  // ----- reward_transactions and cumulative_rewards -----

  /** The kind of reward a block brings its receiver: from the treasury, or from a contract's own send. */
  function KindOf(b: Block, env: Lookups): Option<RewardType> {
    if b.blockType != UserReceive || b.paired.None? then None
    else
      var p := b.paired.value;
      if p.address == LIQUIDITY_TREASURY_ADDRESS then Some(Liquidity)
      else if p.blockType != ContractSend || b.toAddress != EMPTY_ADDRESS || b.token != EMPTY_TOKEN then None
      else if p.address == SENTINEL_ADDRESS then Some(Sentinel)
      else if p.address == STAKE_ADDRESS then Some(Stake)
      else if p.address == LIQUIDITY_ADDRESS then Some(Liquidity)
      else if p.address == PILLAR_ADDRESS then
        if b.address in env.withdraw && env.withdraw[b.address] == false then Some(Delegation) else Some(Pillar)
      else None
  }

  /** Exactly which reward a block records: one row unless its hash has one, and its amount added to one key. */
  lemma {:induction false} RewardRecordedExact(db: Db, b: Block, m: Momentum, env: Lookups, key: RewardKey)
    ensures var k, kind := ApplyBlock(db, b, m, env), KindOf(b, env);
      && (kind.None? ==> k.rewards == db.rewards && Cumulative(k, key) == Cumulative(db, key))
      && (kind.Some? ==>
            var p, amount := b.paired.value, SafeInt64(b.paired.value.amount);
            var mine := RewardKey(b.address, kind.value, p.token);
            && Fits(amount, p.amount)
            && k.rewards == (if HasReward(db.rewards, b.hash) then db.rewards
                             else db.rewards + [RewardRow(b.hash, mine, amount, p.address)])
            && Cumulative(k, key) == Cumulative(db, key) + if key == mine then amount else 0)
  {
    RewardColumns(db, b, m, env);
  }
}
