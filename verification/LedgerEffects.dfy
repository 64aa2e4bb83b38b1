/** What the batch of one block does to each table, group of statements by group of statements. */
module LedgerEffects {
  import opened Wrappers
  import opened Ledger

  /** The columns of account_blocks that no later statement rewrites. */
  function Core(row: BlockRow): BlockRow {
    row.(paired := "", descendantOf := "")
  }

  predicate SameCores(a: seq<BlockRow>, b: seq<BlockRow>) {
    |a| == |b| && forall k | 0 <= k < |a| :: Core(a[k]) == Core(b[k])
  }

  /** Everything but account_blocks is the same, and there only rewritable columns differ. */
  predicate OnlyLinks(db: Db, db': Db) {
    SameCores(db.blocks, db'.blocks) && db' == db.(blocks := db'.blocks)
  }

  lemma {:induction false} DescendantsOnlyLink(db: Db, descendants: seq<string>, parent: string)
    ensures OnlyLinks(db, ExecAll(db, DescendantStmts(descendants, parent)))
    decreases descendants
  {
    if descendants != [] {
      var first := Exec(db, UpdateDescendant(descendants[0], parent));
      assert OnlyLinks(db, first);
      DescendantsOnlyLink(first, descendants[1..], parent);
    }
  }

  lemma {:induction false} LinksOnlyLink(db: Db, b: Block)
    ensures OnlyLinks(db, ExecAll(db, LinkStmts(b)))
  {
    var first := if b.paired.Some? then [UpdatePaired(b.paired.value.hash, b.hash)] else [];
    ExecAppend(db, first, DescendantStmts(b.descendants, b.hash));
    DescendantsOnlyLink(ExecAll(db, first), b.descendants, b.hash);
  }

  /** account_blocks after the insert of a block. */
  function Inserted(rows: seq<BlockRow>, row: BlockRow): seq<BlockRow> {
    if HasBlock(rows, row.hash) then SetPaired(rows, row.hash, row.paired) else rows + [row]
  }

  function Head(b: Block, m: Momentum): seq<Stmt> {
    [UpsertAccount(b.address), InsertBlock(RowOf(b, m)), NotifyBlock(b.hash)]
  }

  lemma {:induction false} HeadEffect(db: Db, b: Block, m: Momentum)
    ensures ExecAll(db, Head(b, m)) ==
      SetAccount(db, b.address, Account(db, b.address)).(
        blocks := Inserted(db.blocks, RowOf(b, m)), notified := db.notified + [AccountBlockNew(b.hash)])
  {
    var s := Head(b, m);
    var d1 := Exec(db, s[0]);
    var d2 := Exec(d1, s[1]);
    assert s[1..] == [s[1], s[2]] && s[1..][1..] == [s[2]];
    assert ExecAll(db, s) == ExecAll(d1, s[1..]) == ExecAll(d2, [s[2]]) == Exec(d2, s[2]);
  }

  // ----- Accounts -----

  /** One account row after the flow statement of a block. */
  function Flowed(row: AccountRow, address: string, b: Block, m: Momentum): AccountRow {
    if address != b.address || (!Sends(b.blockType) && !Receives(b.blockType)) then row
    else
      var r, amount := Active(row, m.ts), SafeInt64(b.amount);
      if Sends(b.blockType) then
        if b.token == ZNN_TOKEN then r.(znnSent := r.znnSent + amount)
        else if b.token == QSR_TOKEN then r.(qsrSent := r.qsrSent + amount) else r
      else
        if b.token == ZNN_TOKEN then r.(znnReceived := r.znnReceived + amount)
        else if b.token == QSR_TOKEN then r.(qsrReceived := r.qsrReceived + amount) else r
  }

  function Bumped(row: AccountRow, ts: int): AccountRow {
    row.(firstSeen := Least(row.firstSeen, ts), lastSeen := Greatest(row.lastSeen, ts), txCount := row.txCount + 1)
  }

  /** The two roles in which BumpTxCountBatch counts a block for an address; "" is never a recipient. */
  predicate PlaysRole(b: Block, address: string) {
    address == b.address || (address == b.toAddress && address != "")
  }

  /** One account row after the counter statements of a block. */
  function Counted(row: AccountRow, address: string, b: Block, m: Momentum): AccountRow {
    if PlaysRole(b, address) then Bumped(Flowed(row, address, b, m), m.ts) else Flowed(row, address, b, m)
  }

  predicate OnlyAccounts(db: Db, db': Db) {
    db' == db.(accounts := db'.accounts)
  }

  function FlowStmts(b: Block, m: Momentum): seq<Stmt> {
    if Sends(b.blockType) then [AddSend(b.address, b.token, SafeInt64(b.amount), m.ts)]
    else if Receives(b.blockType) then [AddReceive(b.address, b.token, SafeInt64(b.amount), m.ts)] else []
  }

  lemma {:induction false} ExecOne(db: Db, stmt: Stmt)
    ensures ExecAll(db, [stmt]) == Exec(db, stmt)
  {
    assert [stmt][1..] == [];
  }

  lemma {:induction false} FlowEffect(db: Db, b: Block, m: Momentum, address: string)
    requires b.address in db.accounts
    ensures var k := ExecAll(db, FlowStmts(b, m));
      && OnlyAccounts(db, k)
      && Account(k, address) == Flowed(Account(db, address), address, b, m)
      && k.accounts.Keys == db.accounts.Keys
  {
    if FlowStmts(b, m) != [] { ExecOne(db, FlowStmts(b, m)[0]); }
  }

  lemma {:induction false} BumpEffect(db: Db, bumped: string, ts: int, address: string)
    ensures var k := ExecAll(db, [BumpTxCount(bumped, ts)]);
      && OnlyAccounts(db, k)
      && Account(k, address) == (if address == bumped then Bumped(Account(db, address), ts) else Account(db, address))
      && k.accounts.Keys == db.accounts.Keys + {bumped}
  {
    ExecOne(db, BumpTxCount(bumped, ts));
  }

  lemma {:induction false} CountersEffect(db: Db, b: Block, m: Momentum, address: string)
    requires b.address in db.accounts
    ensures var k := ExecAll(db, CounterStmts(b, m));
      && OnlyAccounts(db, k)
      && Account(k, address) == Counted(Account(db, address), address, b, m)
      && (address in k.accounts <==> address in db.accounts || PlaysRole(b, address))
  {
    var sender := [BumpTxCount(b.address, m.ts)];
    var recipient := if b.toAddress != "" && b.toAddress != b.address then [BumpTxCount(b.toAddress, m.ts)] else [];
    assert CounterStmts(b, m) == FlowStmts(b, m) + sender + recipient;
    ExecAppend(db, FlowStmts(b, m) + sender, recipient);
    ExecAppend(db, FlowStmts(b, m), sender);
    FlowEffect(db, b, m, address);
    var d1 := ExecAll(db, FlowStmts(b, m));
    BumpEffect(d1, b.address, m.ts, address);
    if recipient != [] { BumpEffect(ExecAll(d1, sender), b.toAddress, m.ts, address); }
  }

  // ----- Delegations -----

  /** The delegation event of a block: None, or the delegator and the pillar ("" for Undelegate). */
  datatype Event = Event(delegator: string, pillar: string)

  function EventOf(b: Block, m: Momentum, env: Lookups): Option<Event> {
    var s := DelegationStmts(b, m, env);
    if s == [] then None
    else Some(Event(b.paired.value.address, if |s| == 3 then env.pillarOwners[b.paired.value.call.value.pillarName] else ""))
  }

  /** The delegations table after an event. */
  function Moved(rows: seq<Interval>, e: Event, ts: int): seq<Interval> {
    CloseIntervals(rows, e.delegator, ts) + if e.pillar == "" then [] else [Interval(e.delegator, e.pillar, ts, None)]
  }

  function Redelegated(db: Db, e: Event, ts: int): Db {
    var d := if e.delegator in db.accounts
             then SetAccount(db, e.delegator, db.accounts[e.delegator].(
                    delegate := e.pillar, delegationStart := if e.pillar == "" then 0 else ts))
             else db;
    d.(delegations := Moved(db.delegations, e, ts))
  }

  lemma {:induction false} DelegationEffect(db: Db, b: Block, m: Momentum, env: Lookups)
    ensures var e := EventOf(b, m, env);
      ExecAll(db, DelegationStmts(b, m, env)) == if e.None? then db else Redelegated(db, e.value, m.ts)
  {
    var s := DelegationStmts(b, m, env);
    if s != [] {
      var d1 := Exec(db, s[0]);
      var d2 := Exec(d1, s[1]);
      assert ExecAll(db, s) == ExecAll(d1, s[1..]) == ExecAll(d2, s[2..]) by {
        assert s[1..][1..] == s[2..] && s[1..][0] == s[1];
      }
      if |s| == 3 {
        assert s[2..] == [s[2]];
        assert ExecAll(d2, [s[2]]) == Exec(d2, s[2]);
      } else {
        assert s[2..] == [];
      }
      assert CloseIntervals(db.delegations, b.paired.value.address, m.ts) + [] == CloseIntervals(db.delegations, b.paired.value.address, m.ts);
    }
  }

  // ----- Rewards -----

  /** reward_transactions and cumulative_rewards after a live reward. */
  function Rewarded(db: Db, r: RewardRow): Db {
    db.(rewards := if HasReward(db.rewards, r.hash) then db.rewards else db.rewards + [r],
        cumulative := db.cumulative[r.key := Cumulative(db, r.key) + r.amount])
  }

  lemma {:induction false} RewardEffect(db: Db, b: Block, env: Lookups)
    ensures var r := RewardOf(b, env); ExecAll(db, RewardStmts(b, env)) == if r.None? then db else Rewarded(db, r.value)
  {
    var s := RewardStmts(b, env);
    if s != [] {
      assert s[1..] == [s[1]];
      var d1 := Exec(db, s[0]);
      assert ExecAll(db, s) == ExecAll(d1, [s[1]]) == Exec(d1, s[1]);
    }
  }

  // ----- The whole block -----

  lemma {:induction false} BlockStages(db: Db, b: Block, m: Momentum, env: Lookups)
    ensures ApplyBlock(db, b, m, env) ==
      ExecAll(ExecAll(ExecAll(ExecAll(ExecAll(db, Head(b, m)), CounterStmts(b, m)), LinkStmts(b)),
              DelegationStmts(b, m, env)), RewardStmts(b, env))
  {
    var h, c, l, d, r := Head(b, m), CounterStmts(b, m), LinkStmts(b), DelegationStmts(b, m, env), RewardStmts(b, env);
    ExecAppend(db, h + c + l + d, r);
    ExecAppend(db, h + c + l, d);
    ExecAppend(db, h + c, l);
    ExecAppend(db, h, c);
  }

  function DelegateSet(row: AccountRow, address: string, e: Option<Event>, known: bool, ts: int): AccountRow {
    if e.Some? && e.value.delegator == address && known
    then row.(delegate := e.value.pillar, delegationStart := if e.value.pillar == "" then 0 else ts) else row
  }

  /** Whether UpdateDelegate finds the row: the address had one, or the block itself created it. */
  predicate Known(db: Db, b: Block, address: string) {
    address in db.accounts || PlaysRole(b, address)
  }

  function AfterCounters(db: Db, b: Block, m: Momentum): Db {
    ExecAll(ExecAll(db, Head(b, m)), CounterStmts(b, m))
  }

  lemma {:induction false} CountersStage(db: Db, b: Block, m: Momentum, address: string)
    ensures var k := AfterCounters(db, b, m);
      && Account(k, address) == Counted(Account(db, address), address, b, m)
      && (address in k.accounts <==> Known(db, b, address))
      && k == db.(accounts := k.accounts, blocks := Inserted(db.blocks, RowOf(b, m)), notified := db.notified + [AccountBlockNew(b.hash)])
  {
    HeadEffect(db, b, m);
    CountersEffect(ExecAll(db, Head(b, m)), b, m, address);
  }

  function Later(l: Db, e: Option<Event>, r: Option<RewardRow>, ts: int): Db {
    var d := if e.None? then l else Redelegated(l, e.value, ts);
    if r.None? then d else Rewarded(d, r.value)
  }

  lemma {:induction false} LaterEffect(l: Db, e: Option<Event>, r: Option<RewardRow>, ts: int, address: string)
    ensures var k := Later(l, e, r, ts);
      && k.blocks == l.blocks && k.momentums == l.momentums && k.notified == l.notified
      && k.accounts.Keys == l.accounts.Keys
      && Account(k, address) == DelegateSet(Account(l, address), address, e, address in l.accounts, ts)
      && k.delegations == (if e.None? then l.delegations else Moved(l.delegations, e.value, ts))
      && k.rewards == (if r.None? then l.rewards else Rewarded(l, r.value).rewards)
      && k.cumulative == (if r.None? then l.cumulative else Rewarded(l, r.value).cumulative)
  {
  }

  lemma {:induction false} LaterStages(db: Db, b: Block, m: Momentum, env: Lookups) returns (l: Db)
    ensures OnlyLinks(AfterCounters(db, b, m), l)
    ensures ApplyBlock(db, b, m, env) == Later(l, EventOf(b, m, env), RewardOf(b, env), m.ts)
  {
    BlockStages(db, b, m, env);
    var c := AfterCounters(db, b, m);
    LinksOnlyLink(c, b);
    l := ExecAll(c, LinkStmts(b));
    DelegationEffect(l, b, m, env);
    RewardEffect(ExecAll(l, DelegationStmts(b, m, env)), b, env);
  }

  /** The tables that account rows do not concern, after one block. */
  predicate TablesAfter(db: Db, k: Db, row: BlockRow, e: Option<Event>, r: Option<RewardRow>, ts: int) {
    && SameCores(Inserted(db.blocks, row), k.blocks)
    && k.delegations == (if e.None? then db.delegations else Moved(db.delegations, e.value, ts))
    && k.rewards == (if r.None? then db.rewards else Rewarded(db, r.value).rewards)
    && k.cumulative == (if r.None? then db.cumulative else Rewarded(db, r.value).cumulative)
    && k.momentums == db.momentums
    && k.notified == db.notified + [AccountBlockNew(row.hash)]
  }

  lemma {:induction false} Combine(db: Db, c: Db, l: Db, row: BlockRow, e: Option<Event>, r: Option<RewardRow>, ts: int, address: string)
    requires c == db.(accounts := c.accounts, blocks := Inserted(db.blocks, row), notified := db.notified + [AccountBlockNew(row.hash)])
    requires OnlyLinks(c, l)
    ensures TablesAfter(db, Later(l, e, r, ts), row, e, r, ts)
    ensures Account(Later(l, e, r, ts), address) == DelegateSet(Account(c, address), address, e, address in c.accounts, ts)
    ensures address in Later(l, e, r, ts).accounts <==> address in c.accounts
  {
    LaterEffect(l, e, r, ts, address);
  }

  /** The effect of one block on every table, account by account. */
  lemma {:induction false} BlockEffect(db: Db, b: Block, m: Momentum, env: Lookups, address: string)
    ensures TablesAfter(db, ApplyBlock(db, b, m, env), RowOf(b, m), EventOf(b, m, env), RewardOf(b, env), m.ts)
    ensures Account(ApplyBlock(db, b, m, env), address) ==
            DelegateSet(Counted(Account(db, address), address, b, m), address, EventOf(b, m, env), Known(db, b, address), m.ts)
    ensures address in ApplyBlock(db, b, m, env).accounts <==> Known(db, b, address)
  {
    CountersStage(db, b, m, address);
    var l := LaterStages(db, b, m, env);
    Combine(db, AfterCounters(db, b, m), l, RowOf(b, m), EventOf(b, m, env), RewardOf(b, env), m.ts, address);
  }

  // ----- What each family of theorems needs of it -----

  predicate SameCounters(a: AccountRow, b: AccountRow) {
    a == b.(delegate := a.delegate, delegationStart := a.delegationStart)
  }

  lemma {:induction false} CounterColumns(db: Db, b: Block, m: Momentum, env: Lookups, address: string)
    ensures SameCounters(Account(ApplyBlock(db, b, m, env), address), Counted(Account(db, address), address, b, m))
    ensures SameCores(Inserted(db.blocks, RowOf(b, m)), ApplyBlock(db, b, m, env).blocks)
  {
    BlockEffect(db, b, m, env, address);
  }

  lemma {:induction false} DelegationColumns(db: Db, b: Block, m: Momentum, env: Lookups, address: string)
    ensures var k, e := ApplyBlock(db, b, m, env), EventOf(b, m, env);
      && k.delegations == (if e.None? then db.delegations else Moved(db.delegations, e.value, m.ts))
      && (address in k.accounts <==> Known(db, b, address))
      && Account(k, address).delegate ==
         if e.Some? && e.value.delegator == address && Known(db, b, address) then e.value.pillar else Account(db, address).delegate
  {
    BlockEffect(db, b, m, env, address);
  }

  lemma {:induction false} RewardColumns(db: Db, b: Block, m: Momentum, env: Lookups)
    ensures var k, r := ApplyBlock(db, b, m, env), RewardOf(b, env);
      && k.rewards == (if r.None? then db.rewards else Rewarded(db, r.value).rewards)
      && k.cumulative == (if r.None? then db.cumulative else Rewarded(db, r.value).cumulative)
  {
    BlockEffect(db, b, m, env, "");
  }

  // ----- The paired column -----

  /** The last word of a block's own statements on the paired column of a row. */
  function PairedAfter(row: BlockRow, b: Block): string {
    if b.paired.Some? && row.hash == b.paired.value.hash then b.hash else row.paired
  }

  lemma {:induction false} DescendantsKeepPaired(db: Db, descendants: seq<string>, parent: string)
    ensures var k := ExecAll(db, DescendantStmts(descendants, parent)).blocks;
      |k| == |db.blocks| && forall i | 0 <= i < |k| :: k[i].paired == db.blocks[i].paired
    decreases descendants
  {
    if descendants != [] {
      DescendantsKeepPaired(Exec(db, UpdateDescendant(descendants[0], parent)), descendants[1..], parent);
    }
  }

  lemma {:induction false} LinksPair(db: Db, b: Block)
    ensures var k := ExecAll(db, LinkStmts(b)).blocks;
      |k| == |db.blocks| && forall i | 0 <= i < |k| :: k[i].paired == PairedAfter(db.blocks[i], b)
  {
    var first := if b.paired.Some? then [UpdatePaired(b.paired.value.hash, b.hash)] else [];
    ExecAppend(db, first, DescendantStmts(b.descendants, b.hash));
    DescendantsKeepPaired(ExecAll(db, first), b.descendants, b.hash);
    if b.paired.Some? {
      assert first[1..] == [];
      assert ExecAll(db, first) == Exec(db, first[0]);
    }
  }

  lemma {:induction false} PairedColumn(db: Db, b: Block, m: Momentum, env: Lookups)
    ensures var rows, k := Inserted(db.blocks, RowOf(b, m)), ApplyBlock(db, b, m, env).blocks;
      |k| == |rows| && forall i | 0 <= i < |k| :: k[i].paired == PairedAfter(rows[i], b)
  {
    BlockStages(db, b, m, env);
    CountersStage(db, b, m, "");
    var c := AfterCounters(db, b, m);
    var l := ExecAll(c, LinkStmts(b));
    LinksPair(c, b);
    DelegationEffect(l, b, m, env);
    RewardEffect(ExecAll(l, DelegationStmts(b, m, env)), b, env);
    LaterEffect(l, EventOf(b, m, env), RewardOf(b, env), m.ts, "");
  }
}
