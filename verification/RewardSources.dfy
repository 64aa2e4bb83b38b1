/**
The two ways a receive block becomes a reward: the live path (internal/indexer/rewards.go) and the backfill
script's query and mapping (scripts/backfill-rewards/main.go), and exactly where they record different rewards.
*/
module RewardSources {
  import opened Wrappers
  import opened Ledger
  import opened LedgerAccounts
  import opened LedgerEffects
  import opened LedgerRewards
  import opened LedgerRuns

  /** A delegator's share of a pillar's reward: its receiver is known not to be a withdraw address. */
  predicate SharedReward(source: string, receiver: string, env: Lookups) {
    source == PILLAR_ADDRESS && receiver in env.withdraw && !env.withdraw[receiver]
  }

  lemma {:induction false} SourcesDiffer()
    ensures PILLAR_ADDRESS != SENTINEL_ADDRESS && PILLAR_ADDRESS != STAKE_ADDRESS && PILLAR_ADDRESS != LIQUIDITY_ADDRESS
    ensures SENTINEL_ADDRESS != STAKE_ADDRESS && SENTINEL_ADDRESS != LIQUIDITY_ADDRESS && STAKE_ADDRESS != LIQUIDITY_ADDRESS
    ensures LIQUIDITY_TREASURY_ADDRESS !in {PILLAR_ADDRESS, SENTINEL_ADDRESS, STAKE_ADDRESS, LIQUIDITY_ADDRESS}
  {
    assert PILLAR_ADDRESS[13] == 'p' && SENTINEL_ADDRESS[13] == 's' && SENTINEL_ADDRESS[14] == 'e';
    assert STAKE_ADDRESS[13] == 's' && STAKE_ADDRESS[14] == 't' && LIQUIDITY_ADDRESS[13] == 'l';
    assert LIQUIDITY_TREASURY_ADDRESS[3] == 'q' && PILLAR_ADDRESS[3] == 'x' && SENTINEL_ADDRESS[3] == 'x';
    assert STAKE_ADDRESS[3] == 'x' && LIQUIDITY_ADDRESS[3] == 'x';
  }

  /** Apart from the treasury, which the live path treats before it classifies, only shared rewards differ. */
  lemma {:induction false} TypesAgreeExact(source: string, receiver: string, env: Lookups)
    requires source != LIQUIDITY_TREASURY_ADDRESS
    ensures ScriptRewardType(source) == ClassifyReward(source, receiver, env) <==> !SharedReward(source, receiver, env)
  {
    SourcesDiffer();
  }

  // ----- The script's query -----

  lemma {:induction false} FrontHasBlock(rows: seq<BlockRow>, front: seq<BlockRow>, last: BlockRow, hash: string)
    requires rows == front + [last] && last.hash != hash
    ensures HasBlock(front, hash) <==> HasBlock(rows, hash)
  {
    if k :| 0 <= k < |rows| && rows[k].hash == hash { assert front[k].hash == hash; }
    if k :| 0 <= k < |front| && front[k].hash == hash { assert rows[k].hash == hash; }
  }

  function Lookup(rows: seq<BlockRow>, hash: string): (r: Option<BlockRow>)
    ensures r.None? <==> !HasBlock(rows, hash)
    ensures r.Some? ==> r.value in rows && r.value.hash == hash
  {
    if rows == [] then None
    else
      var front, last := rows[..|rows| - 1], rows[|rows| - 1];
      if last.hash == hash then Some(last)
      else
        FrontHasBlock(rows, front, last, hash);
        Lookup(front, hash)
  }

  /** The candidate the query makes of a row of account_blocks: the row joined with the stored row it is paired with. */
  function CandidateOf(rows: seq<BlockRow>, row: BlockRow): Option<Candidate> {
    if !row.blockType.UserReceive? then None
    else
      match Lookup(rows, row.paired)
      case None => None
      case Some(p) =>
        if p.address == LIQUIDITY_TREASURY_ADDRESS
           || (p.blockType.ContractSend? && row.toAddress == EMPTY_ADDRESS && row.token == EMPTY_TOKEN
               && p.address in {PILLAR_ADDRESS, SENTINEL_ADDRESS, STAKE_ADDRESS})
        then Some(Candidate(row.hash, row.address, p.address, Some(p.amount), p.token))
        else None
  }

  /** What the query answers over a table, in some order. */
  ghost predicate Answers(cs: seq<Candidate>, rows: seq<BlockRow>) {
    forall c :: c in cs <==> exists i :: 0 <= i < |rows| && CandidateOf(rows, rows[i]) == Some(c)
  }

  function ScriptRowOf(rows: seq<BlockRow>, row: BlockRow): Option<RewardRow> {
    match CandidateOf(rows, row) case None => None case Some(c) => ScriptReward(c)
  }

  // ----- What is stored of a block -----

  /** The row of a block; only a receive's pairing is final when it is stored. */
  predicate Describes(row: BlockRow, b: Block) {
    && row.hash == b.hash && row.blockType == b.blockType && row.address == b.address && row.toAddress == b.toAddress
    && row.amount == SafeInt64(b.amount) && row.token == b.token
    && (b.blockType.UserReceive? ==> row.paired == PairedHash(b))
  }

  /** The stored row of the send block is the one the receive block names; a receive without one joins with nothing. */
  predicate SourceDescribed(rows: seq<BlockRow>, b: Block) {
    && (b.paired.None? ==> Lookup(rows, "").None?)
    && (b.paired.Some? ==>
          match Lookup(rows, b.paired.value.hash)
          case None => true
          case Some(q) =>
            var p := b.paired.value;
            q.blockType == p.blockType && q.address == p.address && q.amount == SafeInt64(p.amount) && q.token == p.token)
  }

  /** The block receives a contract's reward. */
  predicate FromContract(b: Block) {
    && b.paired.Some? && b.blockType.UserReceive? && b.paired.value.blockType.ContractSend?
    && b.toAddress == EMPTY_ADDRESS && b.token == EMPTY_TOKEN
  }

  /**
  Script and live path record the same reward of a stored block except in three cases: a delegator's share, which
  the script records under the pillar type; a reward of the liquidity contract, which its query leaves out; and a
  reward whose send block is not stored, which its join leaves out.
  */
  lemma {:induction false} ScriptMatchesLive(rows: seq<BlockRow>, row: BlockRow, b: Block, env: Lookups)
    requires Describes(row, b) && SourceDescribed(rows, b)
    ensures ScriptRowOf(rows, row) == RewardOf(b, env) <==>
            && !(FromContract(b) && (SharedReward(b.paired.value.address, b.address, env)
                                     || b.paired.value.address == LIQUIDITY_ADDRESS))
            && !(RewardOf(b, env).Some? && !HasBlock(rows, b.paired.value.hash))
    ensures ScriptRowOf(rows, row).Some? ==> RewardOf(b, env).Some?
    ensures FromContract(b) && SharedReward(b.paired.value.address, b.address, env)
            && HasBlock(rows, b.paired.value.hash) ==>
              && RewardOf(b, env).Some? && RewardOf(b, env).value.key.kind == Delegation
              && ScriptRowOf(rows, row)
                 == Some(RewardOf(b, env).value.(key := RewardOf(b, env).value.key.(kind := Pillar)))
  {
    SourcesDiffer();
    if b.paired.Some? && b.paired.value.address != LIQUIDITY_TREASURY_ADDRESS {
      TypesAgreeExact(b.paired.value.address, b.address, env);
    }
  }

  // ----- Runs -----

  /** Two answers of the node for one block agree on everything but the pairing of blocks not received yet. */
  predicate SameBlock(a: Block, b: Block) {
    && a.blockType == b.blockType && a.address == b.address && a.toAddress == b.toAddress
    && SafeInt64(a.amount) == SafeInt64(b.amount) && a.token == b.token
    && (a.blockType.UserReceive? ==> a.paired == b.paired)
  }

  /** The node's blocks belong to one chain: hashes identify them and receives are paired with their sends. */
  predicate OfOneChain(a: Block, b: Block) {
    && a.hash != ""
    && (a.hash == b.hash ==> SameBlock(a, b))
    && (a.blockType.UserReceive? && b.paired.Some? && b.paired.value.hash == a.hash ==>
          a.paired.Some? && b.hash == a.paired.value.hash)
    && (a.blockType.UserReceive? && a.paired.Some? && b.hash == a.paired.value.hash ==>
          var p := a.paired.value;
          b.blockType == p.blockType && b.address == p.address && SafeInt64(b.amount) == SafeInt64(p.amount) && b.token == p.token)
  }

  predicate Chain(items: seq<Item>) {
    forall i, j | 0 <= i < |items| && 0 <= j < |items| :: OfOneChain(items[i].b, items[j].b)
  }

  predicate AllDescribed(rows: seq<BlockRow>, items: seq<Item>) {
    forall i, j | 0 <= i < |rows| && 0 <= j < |items| && rows[i].hash == items[j].b.hash :: Describes(rows[i], items[j].b)
  }

  /** A row that describes a block still does after another block of the chain. */
  lemma {:induction false} StillDescribes(row: BlockRow, after: BlockRow, a: Block, b: Block, m: Momentum)
    requires Describes(row, a) && OfOneChain(a, b)
    requires Core(after) == Core(row)
    requires after.paired == PairedAfter(if row.hash == b.hash then row.(paired := PairedHash(b)) else row, b)
    ensures Describes(after, a)
  {
    assert after.hash == Core(after).hash == row.hash && after.blockType == Core(after).blockType;
    assert after.address == Core(after).address && after.toAddress == Core(after).toAddress;
    assert after.amount == Core(after).amount && after.token == Core(after).token;
  }

  lemma {:induction false} NewDescribes(after: BlockRow, b: Block, m: Momentum)
    requires OfOneChain(b, b) && Core(after) == Core(RowOf(b, m)) && after.paired == PairedAfter(RowOf(b, m), b)
    ensures Describes(after, b)
  {
    assert after.hash == Core(after).hash && after.blockType == Core(after).blockType;
    assert after.address == Core(after).address && after.toAddress == Core(after).toAddress;
    assert after.amount == Core(after).amount && after.token == Core(after).token;
  }

  /** Row i after one more block, for a row that was there before. */
  lemma {:induction false} OldRow(j: Db, k: Db, it: Item, i: nat)
    requires k == ApplyBlock(j, it.b, it.m, it.env) && i < |j.blocks|
    ensures i < |k.blocks| && Core(k.blocks[i]) == Core(j.blocks[i])
    ensures k.blocks[i].paired ==
            PairedAfter(if j.blocks[i].hash == it.b.hash then j.blocks[i].(paired := PairedHash(it.b)) else j.blocks[i], it.b)
  {
    CounterColumns(j, it.b, it.m, it.env, "");
    PairedColumn(j, it.b, it.m, it.env);
    var ins := Inserted(j.blocks, RowOf(it.b, it.m));
    assert j.blocks[i].hash == it.b.hash ==> HasBlock(j.blocks, it.b.hash);
    assert Core(ins[i]) == Core(j.blocks[i]);
  }

  lemma {:induction false} NewRow(j: Db, k: Db, it: Item, i: nat)
    requires k == ApplyBlock(j, it.b, it.m, it.env) && |j.blocks| <= i < |k.blocks|
    ensures !HasBlock(j.blocks, it.b.hash)
    ensures Core(k.blocks[i]) == Core(RowOf(it.b, it.m)) && k.blocks[i].paired == PairedAfter(RowOf(it.b, it.m), it.b)
  {
    CounterColumns(j, it.b, it.m, it.env, "");
    PairedColumn(j, it.b, it.m, it.env);
  }

  /** One old row keeps describing every block of its hash. */
  lemma {:induction false} OldRowDescribed(items: seq<Item>, n: nat, i: nat, x: nat)
    requires Chain(items) && n < |items| && x <= n
    requires var j := BlockRun(EMPTY_DB, items[..n]); AllDescribed(j.blocks, items[..n]) && i < |j.blocks|
    requires BlockRun(EMPTY_DB, items[..n]).blocks[i].hash == items[x].b.hash
    ensures var k := ApplyBlock(BlockRun(EMPTY_DB, items[..n]), items[n].b, items[n].m, items[n].env);
      i < |k.blocks| && Describes(k.blocks[i], items[x].b)
  {
    var j := BlockRun(EMPTY_DB, items[..n]);
    var k := ApplyBlock(j, items[n].b, items[n].m, items[n].env);
    OldRow(j, k, items[n], i);
    HashesOfRun(EMPTY_DB, items[..n], j.blocks[i].hash);
    assert HasBlock(j.blocks, j.blocks[i].hash);
    var y :| 0 <= y < n && items[..n][y].b.hash == j.blocks[i].hash;
    assert items[..n][y] == items[y] && OfOneChain(items[y].b, items[n].b) && OfOneChain(items[y].b, items[x].b);
    assert Describes(j.blocks[i], items[..n][y].b);
    StillDescribes(j.blocks[i], k.blocks[i], items[y].b, items[n].b, items[n].m);
  }

  /** After every run over one chain the stored rows describe the processed blocks. */
  lemma {:induction false} RunDescribes(items: seq<Item>)
    requires Chain(items)
    ensures AllDescribed(BlockRun(EMPTY_DB, items).blocks, items)
  {
    if items != [] {
      var n := |items| - 1;
      assert forall i | 0 <= i < n :: items[..n][i] == items[i];
      RunDescribes(items[..n]);
      var j := BlockRun(EMPTY_DB, items[..n]);
      var k := BlockRun(EMPTY_DB, items);
      forall i: nat, x: nat | i < |k.blocks| && x < |items| && k.blocks[i].hash == items[x].b.hash
        ensures Describes(k.blocks[i], items[x].b)
      {
        if i < |j.blocks| {
          OldRow(j, k, items[n], i);
          assert j.blocks[i].hash == Core(j.blocks[i]).hash == k.blocks[i].hash by {
            assert k.blocks[i].hash == Core(k.blocks[i]).hash;
          }
          OldRowDescribed(items, n, i, x);
        } else {
          NewRow(j, k, items[n], i);
          assert k.blocks[i].hash == Core(k.blocks[i]).hash == items[n].b.hash;
          assert OfOneChain(items[n].b, items[n].b) && OfOneChain(items[n].b, items[x].b);
          NewDescribes(k.blocks[i], items[n].b, items[n].m);
        }
      }
    }
  }

  lemma {:induction false} RecordedByBlock(j: Db, it: Item, hash: string)
    requires HasReward(j.rewards, hash) || (RewardOf(it.b, it.env).Some? && it.b.hash == hash)
    ensures HasReward(ApplyBlock(j, it.b, it.m, it.env).rewards, hash)
  {
    RewardColumns(j, it.b, it.m, it.env);
    var k := ApplyBlock(j, it.b, it.m, it.env).rewards;
    if i :| 0 <= i < |j.rewards| && j.rewards[i].hash == hash {
      assert k[i].hash == hash;
    } else {
      assert k[|j.rewards|].hash == hash;
    }
  }

  lemma {:induction false} RewardRecorded(items: seq<Item>, x: nat)
    requires x < |items| && RewardOf(items[x].b, items[x].env).Some?
    ensures HasReward(BlockRun(EMPTY_DB, items).rewards, items[x].b.hash)
  {
    var n := |items| - 1;
    if x < n {
      RewardRecorded(items[..n], x);
    }
    RecordedByBlock(BlockRun(EMPTY_DB, items[..n]), items[n], items[x].b.hash);
  }

  /** Every candidate of a table a run over one chain has filled was recorded as a reward by that run. */
  lemma {:induction false} CandidateRecorded(items: seq<Item>, i: nat)
    requires Chain(items) && i < |BlockRun(EMPTY_DB, items).blocks|
    requires var rows := BlockRun(EMPTY_DB, items).blocks; ScriptRowOf(rows, rows[i]).Some?
    ensures var k := BlockRun(EMPTY_DB, items); HasReward(k.rewards, k.blocks[i].hash)
  {
    var rows := BlockRun(EMPTY_DB, items).blocks;
    RunDescribes(items);
    HashesOfRun(EMPTY_DB, items, rows[i].hash);
    assert HasBlock(rows, rows[i].hash);
    var x :| 0 <= x < |items| && items[x].b.hash == rows[i].hash;
    assert Describes(rows[i], items[x].b);
    StoredSource(items, x);
    ScriptMatchesLive(rows, rows[i], items[x].b, items[x].env);
    RewardRecorded(items, x);
  }

  lemma {:induction false} StoredSource(items: seq<Item>, x: nat)
    requires Chain(items) && x < |items| && items[x].b.blockType.UserReceive?
    ensures SourceDescribed(BlockRun(EMPTY_DB, items).blocks, items[x].b)
  {
    var rows, b := BlockRun(EMPTY_DB, items).blocks, items[x].b;
    RunDescribes(items);
    HashesOfRun(EMPTY_DB, items, PairedHash(b));
    if HasBlock(rows, PairedHash(b)) {
      var y :| 0 <= y < |items| && items[y].b.hash == PairedHash(b);
      assert OfOneChain(items[y].b, items[y].b) && OfOneChain(b, items[y].b);
      var q := Lookup(rows, PairedHash(b)).value;
      var i :| 0 <= i < |rows| && rows[i] == q;
      assert Describes(rows[i], items[y].b);
    }
  }

  /** On the tables a live run over one chain has filled, a script run changes nothing. */
  lemma {:induction false} ScriptAddsNothing(works: seq<Work>, cs: seq<Candidate>)
    requires Chain(Items(works)) && Answers(cs, RunAll(EMPTY_DB, works).blocks)
    ensures BackfilledAll(RunAll(EMPTY_DB, works), cs) == RunAll(EMPTY_DB, works)
  {
    var k, items := RunAll(EMPTY_DB, works), Items(works);
    RunIsBlockRun(EMPTY_DB, works);
    assert k.blocks == BlockRun(EMPTY_DB, items).blocks && k.rewards == BlockRun(EMPTY_DB, items).rewards;
    forall x | 0 <= x < |cs| && ScriptReward(cs[x]).Some?
      ensures HasReward(k.rewards, cs[x].hash)
    {
      assert cs[x] in cs;
      var i :| 0 <= i < |k.blocks| && CandidateOf(k.blocks, k.blocks[i]) == Some(cs[x]);
      CandidateRecorded(items, i);
    }
    NothingLeft(k, cs);
  }

  // ----- A receive whose send block is not stored -----

  /** The live path records the reward of a receive although the node did not return its send; the script does not. */
  lemma {:induction false} MissingSourceWitness() returns (b: Block, m: Momentum, env: Lookups)
    ensures m.content == [None, Some(b)] && RewardOf(b, env).Some?
    ensures HasReward(Commit(EMPTY_DB, m, env).rewards, b.hash)
    ensures HasBlock(Commit(EMPTY_DB, m, env).blocks, b.hash)
    ensures forall cs | Answers(cs, Commit(EMPTY_DB, m, env).blocks) :: cs == []
  {
    var send := Paired("send", ContractSend, STAKE_ADDRESS, Some(10), QSR_TOKEN, None);
    b := Block("receive", UserReceive, "staker", EMPTY_ADDRESS, None, EMPTY_TOKEN, Some(send), []);
    env := Lookups(map[], map[]);
    m := Momentum(2, "momentum", 10, [None, Some(b)]);
    SourcesDiffer();
    assert RewardOf(b, env).Some?;
    OneReceive(b, m, env);
  }

  lemma {:induction false} CommitOfOne(b: Block, m: Momentum, env: Lookups)
    requires m.content == [None, Some(b)]
    ensures var k, r := Commit(EMPTY_DB, m, env), BlockRun(EMPTY_DB, [Item(b, m, env)]);
      k.blocks == r.blocks && k.rewards == r.rewards
  {
    assert m.content[1..] == [Some(b)] && [Some(b)][1..] == [];
    assert ContentItems([Some(b)], m, env) == [Item(b, m, env)] + ContentItems([], m, env);
    CommitIsRun(EMPTY_DB, EMPTY_DB, m, env);
  }

  lemma {:induction false} OneReceive(b: Block, m: Momentum, env: Lookups)
    requires m.content == [None, Some(b)] && RewardOf(b, env).Some? && b.hash != "" && b.paired.value.hash != b.hash
    ensures var k := Commit(EMPTY_DB, m, env);
      HasReward(k.rewards, b.hash) && HasBlock(k.blocks, b.hash) && forall cs | Answers(cs, k.blocks) :: cs == []
  {
    var items := [Item(b, m, env)];
    var rows := BlockRun(EMPTY_DB, items).blocks;
    CommitOfOne(b, m, env);
    RewardRecorded(items, 0);
    HashesOfRun(EMPTY_DB, items, b.hash);
    assert items[0].b == b && Processed(items, b.hash);
    forall i | 0 <= i < |rows|
      ensures CandidateOf(rows, rows[i]).None?
    {
      JoinsNothing(items, i);
    }
    forall cs | Answers(cs, rows)
      ensures cs == []
    {
      SomeMember(cs);
    }
  }

  lemma {:induction false} SomeMember(cs: seq<Candidate>)
    ensures cs != [] ==> exists c :: c in cs
  {
    if cs != [] { assert cs[0] in cs; }
  }

  lemma {:induction false} OnlyRow(items: seq<Item>, i: nat)
    requires |items| == 1 && i < |BlockRun(EMPTY_DB, items).blocks| && Chain(items)
    ensures Describes(BlockRun(EMPTY_DB, items).blocks[i], items[0].b)
  {
    var rows := BlockRun(EMPTY_DB, items).blocks;
    RunDescribes(items);
    HashesOfRun(EMPTY_DB, items, rows[i].hash);
    assert HasBlock(rows, rows[i].hash);
  }

  lemma {:induction false} JoinsNothing(items: seq<Item>, i: nat)
    requires |items| == 1 && i < |BlockRun(EMPTY_DB, items).blocks| && Chain(items)
    requires var b := items[0].b; b.blockType.UserReceive? && b.paired.Some? && b.paired.value.hash != b.hash
    ensures var rows := BlockRun(EMPTY_DB, items).blocks; CandidateOf(rows, rows[i]).None?
  {
    OnlyRow(items, i);
    HashesOfRun(EMPTY_DB, items, items[0].b.paired.value.hash);
  }
}
