/**
The indexed tables, the SQL statements processMomentum queues, and the batch one momentum queues
(internal/indexer/processor.go, embedded.go, rewards.go and the repositories they call).

A batch runs in one transaction, so a momentum either executes all its statements or none.
*/
module Ledger {
  import opened Wrappers

  const PILLAR_ADDRESS := "z1qxemdeddedxpyllarxxxxxxxxxxxxxxxsy3fmg"
  const SENTINEL_ADDRESS := "z1qxemdeddedxsentynelxxxxxxxxxxxxxwy0r2r"
  const STAKE_ADDRESS := "z1qxemdeddedxstakexxxxxxxxxxxxxxxxjv8v62"
  const LIQUIDITY_ADDRESS := "z1qxemdeddedxlyquydytyxxxxxxxxxxxxflaaae"
  const LIQUIDITY_TREASURY_ADDRESS := "z1qqw8f3qxx9zg92xgckqdpfws3dw07d26afsj74"
  const EMPTY_ADDRESS := "z1qqqqqqqqqqqqqqqqqqqqqqqqqqqqqqqqsggv2f"
  const EMPTY_TOKEN := "zts1qqqqqqqqqqqqqqqqtq587y"
  const ZNN_TOKEN := "zts1znnxxxxxxxxxxxxx9z4ulx"
  const QSR_TOKEN := "zts1qsrxxxxxxxxxxxxxmrhjll"

  const MAX_INT64 := 0x7fff_ffff_ffff_ffff
  const MIN_INT64 := -0x8000_0000_0000_0000

  // ----- What the node serves -----

  datatype BlockType = GenesisReceive | UserSend | UserReceive | ContractSend | ContractReceive | OtherType

  /** A decoded call: its method and its "name" input, which reads as "" when absent. */
  datatype Call = Call(operation: string, pillarName: string)

  datatype Paired = Paired(
    hash: string, blockType: BlockType, address: string, amount: Option<int>, token: string, call: Option<Call>)

  datatype Block = Block(
    hash: string, blockType: BlockType, address: string, toAddress: string, amount: Option<int>, token: string,
    paired: Option<Paired>, descendants: seq<string>)

  /** One entry of `content` per block header: None when the node did not return the block. */
  datatype Momentum = Momentum(height: nat, hash: string, ts: int, content: seq<Option<Block>>)

  /** What the program looks up while it builds a batch. */
  datatype Lookups = Lookups(pillarOwners: map<string, string>, withdraw: map<string, bool>)

  // ----- The tables -----

  datatype MomentumRow = MomentumRow(hash: string, ts: int, txCount: nat)

  datatype BlockRow = BlockRow(
    hash: string, height: nat, ts: int, blockType: BlockType, address: string, toAddress: string, amount: int,
    token: string, paired: string, descendantOf: string)

  datatype AccountRow = AccountRow(
    znnSent: int, znnReceived: int, qsrSent: int, qsrReceived: int, firstActive: Option<int>, lastActive: Option<int>,
    firstSeen: Option<int>, lastSeen: Option<int>, txCount: int, delegate: string, delegationStart: int)

  datatype Interval = Interval(delegator: string, pillar: string, started: int, ended: Option<int>)

  datatype RewardType = UnknownReward | Stake | Delegation | Liquidity | Sentinel | Pillar

  datatype RewardKey = RewardKey(address: string, kind: RewardType, token: string)

  datatype RewardRow = RewardRow(hash: string, key: RewardKey, amount: int, source: string)

  datatype Notice = MomentumNew(height: nat) | AccountBlockNew(hash: string)

  datatype Db = Db(
    momentums: map<nat, MomentumRow>, blocks: seq<BlockRow>, accounts: map<string, AccountRow>,
    delegations: seq<Interval>, rewards: seq<RewardRow>, cumulative: map<RewardKey, int>, notified: seq<Notice>)

  const EMPTY_DB := Db(map[], [], map[], [], [], map[], [])

  // ----- The statements -----

  datatype Stmt =
    | UpsertAccount(address: string)
    | InsertBlock(row: BlockRow)
    | NotifyBlock(hash: string)
    | AddSend(address: string, token: string, amount: int, ts: int)
    | AddReceive(address: string, token: string, amount: int, ts: int)
    | BumpTxCount(address: string, ts: int)
    | UpdatePaired(hash: string, paired: string)
    | UpdateDescendant(hash: string, parent: string)
    | UpdateDelegate(address: string, delegate: string, ts: int)
    | CloseActive(delegator: string, ts: int)
    | OpenDelegation(delegator: string, pillar: string, ts: int)
    | InsertReward(reward: RewardRow)
    | AddCumulative(key: RewardKey, amount: int)
    | InsertMomentum(height: nat, momentum: MomentumRow)
    | NotifyMomentum(height: nat)

  const NEW_ACCOUNT := AccountRow(0, 0, 0, 0, None, None, None, None, 0, "", 0)

  function Account(db: Db, address: string): AccountRow {
    if address in db.accounts then db.accounts[address] else NEW_ACCOUNT
  }

  /** LEAST(COALESCE(old, new), new) and its counterpart. */
  function Least(old_: Option<int>, ts: int): Option<int> {
    if old_.Some? && old_.value < ts then old_ else Some(ts)
  }

  function Greatest(old_: Option<int>, ts: int): Option<int> {
    if old_.Some? && old_.value > ts then old_ else Some(ts)
  }

  function Active(row: AccountRow, ts: int): AccountRow {
    row.(firstActive := Least(row.firstActive, ts), lastActive := Greatest(row.lastActive, ts))
  }

  function SetAccount(db: Db, address: string, row: AccountRow): Db {
    db.(accounts := db.accounts[address := row])
  }

  predicate HasBlock(rows: seq<BlockRow>, hash: string) {
    exists k :: 0 <= k < |rows| && rows[k].hash == hash
  }

  predicate HasReward(rows: seq<RewardRow>, hash: string) {
    exists k :: 0 <= k < |rows| && rows[k].hash == hash
  }

  function SetPaired(rows: seq<BlockRow>, hash: string, paired: string): (r: seq<BlockRow>)
    ensures |r| == |rows|
  {
    seq(|rows|, k requires 0 <= k < |rows| => if rows[k].hash == hash then rows[k].(paired := paired) else rows[k])
  }

  function SetDescendant(rows: seq<BlockRow>, hash: string, parent: string): (r: seq<BlockRow>)
    ensures |r| == |rows|
  {
    seq(|rows|, k requires 0 <= k < |rows| => if rows[k].hash == hash then rows[k].(descendantOf := parent) else rows[k])
  }

  function CloseIntervals(rows: seq<Interval>, delegator: string, ts: int): (r: seq<Interval>)
    ensures |r| == |rows|
  {
    seq(|rows|, k requires 0 <= k < |rows| =>
      if rows[k].delegator == delegator && rows[k].ended.None? then rows[k].(ended := Some(ts)) else rows[k])
  }

  function Cumulative(db: Db, key: RewardKey): int {
    if key in db.cumulative then db.cumulative[key] else 0
  }

  /** One statement.  An UPDATE of an absent row changes nothing; an INSERT that conflicts does what its clause says. */
  function Exec(db: Db, stmt: Stmt): Db {
    match stmt
    case UpsertAccount(a) => SetAccount(db, a, Account(db, a))
    case InsertBlock(row) =>
      if HasBlock(db.blocks, row.hash) then db.(blocks := SetPaired(db.blocks, row.hash, row.paired))
      else db.(blocks := db.blocks + [row])
    case NotifyBlock(hash) => db.(notified := db.notified + [AccountBlockNew(hash)])
    case AddSend(a, token, amount, ts) =>
      var row := Active(Account(db, a), ts);
      SetAccount(db, a,
        if token == ZNN_TOKEN then row.(znnSent := row.znnSent + amount)
        else if token == QSR_TOKEN then row.(qsrSent := row.qsrSent + amount) else row)
    case AddReceive(a, token, amount, ts) =>
      var row := Active(Account(db, a), ts);
      SetAccount(db, a,
        if token == ZNN_TOKEN then row.(znnReceived := row.znnReceived + amount)
        else if token == QSR_TOKEN then row.(qsrReceived := row.qsrReceived + amount) else row)
    case BumpTxCount(a, ts) =>
      var row := Account(db, a);
      SetAccount(db, a, row.(
        firstSeen := Least(row.firstSeen, ts), lastSeen := Greatest(row.lastSeen, ts), txCount := row.txCount + 1))
    case UpdatePaired(hash, paired) => db.(blocks := SetPaired(db.blocks, hash, paired))
    case UpdateDescendant(hash, parent) => db.(blocks := SetDescendant(db.blocks, hash, parent))
    case UpdateDelegate(a, delegate, ts) =>
      if a in db.accounts then SetAccount(db, a, db.accounts[a].(delegate := delegate, delegationStart := ts)) else db
    case CloseActive(d, ts) => db.(delegations := CloseIntervals(db.delegations, d, ts))
    case OpenDelegation(d, pillar, ts) => db.(delegations := db.delegations + [Interval(d, pillar, ts, None)])
    case InsertReward(row) =>
      if HasReward(db.rewards, row.hash) then db else db.(rewards := db.rewards + [row])
    case AddCumulative(key, amount) => db.(cumulative := db.cumulative[key := Cumulative(db, key) + amount])
    case InsertMomentum(height, row) =>
      if height in db.momentums then db else db.(momentums := db.momentums[height := row])
    case NotifyMomentum(height) => db.(notified := db.notified + [MomentumNew(height)])
  }

  function ExecAll(db: Db, batch: seq<Stmt>): Db
    decreases batch
  {
    if batch == [] then db else ExecAll(Exec(db, batch[0]), batch[1..])
  }

  lemma {:induction false} ExecAppend(db: Db, a: seq<Stmt>, b: seq<Stmt>)
    ensures ExecAll(db, a + b) == ExecAll(ExecAll(db, a), b)
    decreases a
  {
    if a == [] {
      assert a + b == b;
    } else {
      assert (a + b)[1..] == a[1..] + b;
      ExecAppend(Exec(db, a[0]), a[1..], b);
    }
  }

  // ----- The batch of one block -----

  /** safeBigIntToInt64: nil is zero, anything that does not fit is the largest int64. */
  function SafeInt64(v: Option<int>): int {
    if v.None? then 0 else if MIN_INT64 <= v.value <= MAX_INT64 then v.value else MAX_INT64
  }

  function PairedHash(b: Block): string {
    if b.paired.Some? then b.paired.value.hash else ""
  }

  function RowOf(b: Block, m: Momentum): BlockRow {
    BlockRow(b.hash, m.height, m.ts, b.blockType, b.address, b.toAddress, SafeInt64(b.amount), b.token, PairedHash(b), "")
  }

  predicate Sends(t: BlockType) {
    t.UserSend? || t.ContractSend?
  }

  predicate Receives(t: BlockType) {
    t.UserReceive? || t.ContractReceive? || t.GenesisReceive?
  }

  /** Flow totals, then the transaction counters of both roles. */
  function CounterStmts(b: Block, m: Momentum): seq<Stmt> {
    var amount := SafeInt64(b.amount);
    (if Sends(b.blockType) then [AddSend(b.address, b.token, amount, m.ts)]
     else if Receives(b.blockType) then [AddReceive(b.address, b.token, amount, m.ts)] else [])
    + [BumpTxCount(b.address, m.ts)]
    + (if b.toAddress != "" && b.toAddress != b.address then [BumpTxCount(b.toAddress, m.ts)] else [])
  }

  function DescendantStmts(descendants: seq<string>, parent: string): seq<Stmt> {
    if descendants == [] then []
    else [UpdateDescendant(descendants[0], parent)] + DescendantStmts(descendants[1..], parent)
  }

  function LinkStmts(b: Block): seq<Stmt> {
    (if b.paired.Some? then [UpdatePaired(b.paired.value.hash, b.hash)] else []) + DescendantStmts(b.descendants, b.hash)
  }

  /** The Delegate and Undelegate branches of indexPillarContract. */
  function DelegationStmts(b: Block, m: Momentum, env: Lookups): seq<Stmt> {
    if !(b.blockType.ContractReceive? && b.paired.Some? && b.address == PILLAR_ADDRESS) then []
    else
      match b.paired.value.call
      case None => []
      case Some(call) =>
        var d := b.paired.value.address;
        if call.operation == "Delegate" then
          var owner := if call.pillarName in env.pillarOwners then env.pillarOwners[call.pillarName] else "";
          if call.pillarName != "" && owner != ""
          then [UpdateDelegate(d, owner, m.ts), CloseActive(d, m.ts), OpenDelegation(d, owner, m.ts)]
          else []
        else if call.operation == "Undelegate" then [UpdateDelegate(d, "", 0), CloseActive(d, m.ts)]
        else []
  }

  /** classifyReward; a failed withdraw-address lookup counts as a pillar reward. */
  function ClassifyReward(source: string, receiver: string, env: Lookups): RewardType {
    if source == SENTINEL_ADDRESS then Sentinel
    else if source == STAKE_ADDRESS then Stake
    else if source == LIQUIDITY_ADDRESS then Liquidity
    else if source == PILLAR_ADDRESS then
      if receiver in env.withdraw && !env.withdraw[receiver] then Delegation else Pillar
    else UnknownReward
  }

  /** The reward a block receives, if any: indexLiquidityReward and indexReceivedReward. */
  function RewardOf(b: Block, env: Lookups): Option<RewardRow> {
    if b.paired.None? || !b.blockType.UserReceive? then None
    else
      var p := b.paired.value;
      var amount := SafeInt64(p.amount);
      if p.address == LIQUIDITY_TREASURY_ADDRESS
      then Some(RewardRow(b.hash, RewardKey(b.address, Liquidity, p.token), amount, p.address))
      else if p.blockType.ContractSend? && b.toAddress == EMPTY_ADDRESS && b.token == EMPTY_TOKEN
           && ClassifyReward(p.address, b.address, env) != UnknownReward
      then Some(RewardRow(b.hash, RewardKey(b.address, ClassifyReward(p.address, b.address, env), p.token), amount, p.address))
      else None
  }

  function RewardStmts(b: Block, env: Lookups): seq<Stmt> {
    match RewardOf(b, env)
    case None => []
    case Some(r) => [InsertReward(r), AddCumulative(r.key, r.amount)]
  }

  function BlockStmts(b: Block, m: Momentum, env: Lookups): seq<Stmt> {
    [UpsertAccount(b.address), InsertBlock(RowOf(b, m)), NotifyBlock(b.hash)]
    + CounterStmts(b, m) + LinkStmts(b) + DelegationStmts(b, m, env) + RewardStmts(b, env)
  }

  /** processAccountBlocks: blocks the node did not return are skipped. */
  function ContentStmts(content: seq<Option<Block>>, m: Momentum, env: Lookups): seq<Stmt> {
    if content == [] then []
    else (if content[0].Some? then BlockStmts(content[0].value, m, env) else []) + ContentStmts(content[1..], m, env)
  }

  function Batch(m: Momentum, env: Lookups): seq<Stmt> {
    ContentStmts(m.content, m, env)
    + [InsertMomentum(m.height, MomentumRow(m.hash, m.ts, |m.content|)), NotifyMomentum(m.height)]
  }

  /** A momentum whose transaction commits. */
  function Commit(db: Db, m: Momentum, env: Lookups): Db {
    ExecAll(db, Batch(m, env))
  }

  // ----- The same, block by block -----

  function ApplyBlock(db: Db, b: Block, m: Momentum, env: Lookups): Db {
    ExecAll(db, BlockStmts(b, m, env))
  }

  function ApplyContent(db: Db, content: seq<Option<Block>>, m: Momentum, env: Lookups): Db
    decreases content
  {
    if content == [] then db
    else ApplyContent(if content[0].Some? then ApplyBlock(db, content[0].value, m, env) else db, content[1..], m, env)
  }

  lemma {:induction false} ContentIsBlocks(db: Db, content: seq<Option<Block>>, m: Momentum, env: Lookups)
    ensures ExecAll(db, ContentStmts(content, m, env)) == ApplyContent(db, content, m, env)
    decreases content
  {
    if content != [] {
      var head := if content[0].Some? then BlockStmts(content[0].value, m, env) else [];
      ExecAppend(db, head, ContentStmts(content[1..], m, env));
      ContentIsBlocks(ExecAll(db, head), content[1..], m, env);
    }
  }

  lemma {:induction false} ExecTwo(db: Db, a: Stmt, b: Stmt)
    ensures ExecAll(db, [a, b]) == Exec(Exec(db, a), b)
  {
    assert [a, b][1..] == [b] && [b][1..] == [];
    assert ExecAll(Exec(Exec(db, a), b), []) == Exec(Exec(db, a), b);
    assert ExecAll(Exec(db, a), [b]) == Exec(Exec(db, a), b);
  }

  /** A committed momentum is its blocks in order, then its own row and notification. */
  lemma {:induction false} CommitIsBlocks(db: Db, m: Momentum, env: Lookups)
    ensures var k := ApplyContent(db, m.content, m, env);
      Commit(db, m, env) == Exec(Exec(k, InsertMomentum(m.height, MomentumRow(m.hash, m.ts, |m.content|))), NotifyMomentum(m.height))
  {
    var row, note := InsertMomentum(m.height, MomentumRow(m.hash, m.ts, |m.content|)), NotifyMomentum(m.height);
    ContentIsBlocks(db, m.content, m, env);
    ExecAppend(db, ContentStmts(m.content, m, env), [row, note]);
    ExecTwo(ApplyContent(db, m.content, m, env), row, note);
  }
}
