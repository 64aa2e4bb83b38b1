/** Runs of processMomentum: some transactions commit, the others roll back and leave no trace. */
module LedgerRuns {
  import opened Wrappers
  import opened Ledger

  datatype Work = Work(m: Momentum, env: Lookups, committed: bool)

  function RunAll(db: Db, works: seq<Work>): Db {
    if works == [] then db else
      var last := works[|works| - 1];
      var front := RunAll(db, works[..|works| - 1]);
      if last.committed then Commit(front, last.m, last.env) else front
  }

  /** One processed block with the momentum and the lookups it was processed under. */
  datatype Item = Item(b: Block, m: Momentum, env: Lookups)

  function ContentItems(content: seq<Option<Block>>, m: Momentum, env: Lookups): seq<Item> {
    if content == [] then []
    else (if content[0].Some? then [Item(content[0].value, m, env)] else []) + ContentItems(content[1..], m, env)
  }

  /** The blocks of the committed momentums, in order. */
  function Items(works: seq<Work>): seq<Item> {
    if works == [] then [] else
      var last := works[|works| - 1];
      Items(works[..|works| - 1]) + if last.committed then ContentItems(last.m.content, last.m, last.env) else []
  }

  function BlockRun(db: Db, items: seq<Item>): Db {
    if items == [] then db else
      var last := items[|items| - 1];
      ApplyBlock(BlockRun(db, items[..|items| - 1]), last.b, last.m, last.env)
  }

  lemma {:induction false} BlockRunAppend(db: Db, a: seq<Item>, b: seq<Item>)
    ensures BlockRun(db, a + b) == BlockRun(BlockRun(db, a), b)
  {
    if b == [] {
      assert a + b == a;
    } else {
      assert (a + b)[..|a + b| - 1] == a + b[..|b| - 1];
      BlockRunAppend(db, a, b[..|b| - 1]);
    }
  }

  /** Equal but for the momentums table and the notifications, which no block's statement reads. */
  predicate SameData(a: Db, b: Db) {
    b == a.(momentums := b.momentums, notified := b.notified)
  }

  predicate OnAccounts(stmt: Stmt) {
    stmt.UpsertAccount? || stmt.AddSend? || stmt.AddReceive? || stmt.BumpTxCount? || stmt.UpdateDelegate?
  }

  lemma {:induction false} ExecAccountsSameData(a: Db, b: Db, stmt: Stmt)
    requires SameData(a, b) && OnAccounts(stmt)
    ensures SameData(Exec(a, stmt), Exec(b, stmt))
  {
  }

  lemma {:induction false} ExecSameData(a: Db, b: Db, stmt: Stmt)
    requires SameData(a, b)
    ensures SameData(Exec(a, stmt), Exec(b, stmt))
  {
    if OnAccounts(stmt) {
      ExecAccountsSameData(a, b, stmt);
    }
  }

  lemma {:induction false} ExecAllSameData(a: Db, b: Db, batch: seq<Stmt>)
    requires SameData(a, b)
    ensures SameData(ExecAll(a, batch), ExecAll(b, batch))
    decreases batch
  {
    if batch != [] {
      ExecSameData(a, b, batch[0]);
      ExecAllSameData(Exec(a, batch[0]), Exec(b, batch[0]), batch[1..]);
    }
  }

  lemma {:induction false} BlockRunSameData(a: Db, b: Db, items: seq<Item>)
    requires SameData(a, b)
    ensures SameData(BlockRun(a, items), BlockRun(b, items))
  {
    if items != [] {
      var n := |items| - 1;
      BlockRunSameData(a, b, items[..n]);
      ExecAllSameData(BlockRun(a, items[..n]), BlockRun(b, items[..n]), BlockStmts(items[n].b, items[n].m, items[n].env));
    }
  }

  lemma {:induction false} ContentIsRun(db: Db, content: seq<Option<Block>>, m: Momentum, env: Lookups)
    ensures ApplyContent(db, content, m, env) == BlockRun(db, ContentItems(content, m, env))
    decreases content
  {
    if content != [] {
      var head := if content[0].Some? then [Item(content[0].value, m, env)] else [];
      BlockRunAppend(db, head, ContentItems(content[1..], m, env));
      ContentIsRun(BlockRun(db, head), content[1..], m, env);
      if content[0].Some? {
        assert head[..0] == [];
        assert BlockRun(db, head) == ApplyBlock(db, content[0].value, m, env);
      }
    }
  }

  lemma {:induction false} CommitIsRun(a: Db, b: Db, m: Momentum, env: Lookups)
    requires SameData(a, b)
    ensures SameData(BlockRun(a, ContentItems(m.content, m, env)), Commit(b, m, env))
  {
    var items := ContentItems(m.content, m, env);
    CommitIsBlocks(b, m, env);
    ContentIsRun(b, m.content, m, env);
    BlockRunSameData(a, b, items);
  }

  /** A run's account, delegation and reward tables are those of its committed blocks in order. */
  lemma {:induction false} RunIsBlockRun(db: Db, works: seq<Work>)
    ensures SameData(BlockRun(db, Items(works)), RunAll(db, works))
  {
    if works != [] {
      var n := |works| - 1;
      var last := works[n];
      RunIsBlockRun(db, works[..n]);
      if last.committed {
        CommitIsRun(BlockRun(db, Items(works[..n])), RunAll(db, works[..n]), last.m, last.env);
        BlockRunAppend(db, Items(works[..n]), ContentItems(last.m.content, last.m, last.env));
      } else {
        assert Items(works) == Items(works[..n]);
      }
    }
  }
}
