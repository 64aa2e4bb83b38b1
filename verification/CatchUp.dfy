/**
The catch-up loops and the materialised aggregates together: sync processes each block of the chain once, so
every cached counter stays its aggregate; Backfill processes the blocks of an incomplete momentum again.
*/
module CatchUp {
  import opened Wrappers
  import opened Ledger
  import opened LedgerEffects
  import opened LedgerRuns
  import opened LedgerAccounts
  import opened LedgerRewards
  import opened Indexer

  /** Each block of the chain belongs to one momentum, `home` of its hash, and appears in it once. */
  predicate InChain(m: Momentum, home: string -> nat) {
    && (forall i | 0 <= i < |m.content| && m.content[i].Some? :: home(m.content[i].value.hash) == m.height)
    && (forall i, j | 0 <= i < j < |m.content| && m.content[i].Some? && m.content[j].Some? ::
          m.content[i].value.hash != m.content[j].value.hash)
  }

  /** Only blocks of momentums up to k are stored, in either table that records them. */
  predicate StoredUpTo(db: Db, home: string -> nat, k: nat) {
    && (forall i | 0 <= i < |db.blocks| :: home(db.blocks[i].hash) <= k)
    && (forall i | 0 <= i < |db.rewards| :: home(db.rewards[i].hash) <= k)
  }

  predicate AtHomeIn(items: seq<Item>, home: string -> nat, low: int, high: int) {
    && (forall i | 0 <= i < |items| :: low <= home(items[i].b.hash) < high)
    && (forall i, j | 0 <= i < j < |items| :: items[i].b.hash != items[j].b.hash)
  }

  predicate Holds(content: seq<Option<Block>>, b: Block) {
    exists i :: 0 <= i < |content| && content[i] == Some(b)
  }

  lemma {:induction false} ItemsAreContent(content: seq<Option<Block>>, m: Momentum, env: Lookups)
    ensures forall k | 0 <= k < |ContentItems(content, m, env)| ::
              Holds(content, ContentItems(content, m, env)[k].b) && ContentItems(content, m, env)[k].m == m
    decreases content
  {
    if content != [] {
      var rest, all := ContentItems(content[1..], m, env), ContentItems(content, m, env);
      ItemsAreContent(content[1..], m, env);
      var shift := |all| - |rest|;
      forall k | 0 <= k < |all|
        ensures Holds(content, all[k].b) && all[k].m == m
      {
        if k < shift {
          assert content[0] == Some(all[k].b);
        } else {
          assert all[k] == rest[k - shift];
          var i :| 0 <= i < |content[1..]| && content[1..][i] == Some(rest[k - shift].b);
          assert content[i + 1] == Some(all[k].b);
        }
      }
    }
  }

  lemma {:induction false} ContentAtHome(content: seq<Option<Block>>, m: Momentum, env: Lookups, home: string -> nat)
    requires forall i | 0 <= i < |content| && content[i].Some? :: home(content[i].value.hash) == m.height
    requires forall i, j | 0 <= i < j < |content| && content[i].Some? && content[j].Some? ::
               content[i].value.hash != content[j].value.hash
    ensures AtHomeIn(ContentItems(content, m, env), home, m.height, m.height + 1)
    decreases content
  {
    if content != [] {
      ContentAtHome(content[1..], m, env, home);
      ItemsAreContent(content[1..], m, env);
      if content[0].Some? {
        forall k | 0 <= k < |ContentItems(content[1..], m, env)|
          ensures ContentItems(content[1..], m, env)[k].b.hash != content[0].value.hash
        {
          var i :| 0 <= i < |content[1..]| && content[1..][i] == Some(ContentItems(content[1..], m, env)[k].b);
          assert content[i + 1].value.hash != content[0].value.hash;
        }
      }
    }
  }

  lemma {:induction false} ItemsAtHome(works: seq<Work>, start: nat, home: string -> nat)
    requires WorksFrom(works, start) && forall i | 0 <= i < |works| :: InChain(works[i].m, home)
    ensures AtHomeIn(Items(works), home, start, start + |works|)
  {
    if works != [] {
      var last := works[|works| - 1];
      ItemsAtHome(works[..|works| - 1], start, home);
      ContentAtHome(last.m.content, last.m, last.env, home);
    }
  }

  lemma {:induction false} NewItems(db: Db, items: seq<Item>, home: string -> nat, k: nat, high: int)
    requires StoredUpTo(db, home, k) && AtHomeIn(items, home, k + 1, high)
    ensures EachOnce(db, items) && RewardedOnce(db, items)
  {
  }

  lemma {:induction false} SyncProcessesOnce(db0: Db, works: seq<Work>, k: nat, home: string -> nat)
    requires WorksFrom(works, k + 1) && StoredUpTo(db0, home, k)
    requires forall i | 0 <= i < |works| :: InChain(works[i].m, home)
    ensures EachOnce(db0, Items(works)) && RewardedOnce(db0, Items(works))
  {
    ItemsAtHome(works, k + 1, home);
    NewItems(db0, Items(works), home, k, k + 1 + |works|);
  }

  /**
  Wherever sync stops, with whatever error, the account counters and the cumulative rewards are still the
  aggregates of the tables: the momentums it committed were new to both.
  */
  lemma {:induction false} SyncKeepsAggregates(db0: Db, db: Db, works: seq<Work>, k: nat, home: string -> nat, address: string, key: RewardKey)
    requires CaughtUp(db0, db, works, k) && StoredUpTo(db0, home, k)
    requires forall i | 0 <= i < |works| :: InChain(works[i].m, home)
    requires address != "" && Cached(Account(db0, address)) == Aggregate(db0.blocks, address) && Conserved(db0, key)
    ensures Cached(Account(db, address)) == Aggregate(db.blocks, address)
    ensures Conserved(db, key)
  {
    SyncProcessesOnce(db0, works, k, home);
    CountersAreAggregates(db0, works, address);
    RewardsConserved(db0, works, key);
  }

  /** The last block of a list was stored before the list was processed. */
  lemma {:induction false} LastReplays(db: Db, items: seq<Item>, address: string)
    requires items != []
    requires var last := items[|items| - 1];
             HasBlock(db.blocks, last.b.hash) && Touches(RowOf(last.b, last.m), address)
    ensures Replays(db, items, address) > 0
  {
    HashesOfRun(db, items[..|items| - 1], items[|items| - 1].b.hash);
  }

  lemma {:induction false} ReplaysGrow(db: Db, items: seq<Item>, n: nat, address: string)
    requires n <= |items|
    ensures Replays(db, items, address) >= Replays(db, items[..n], address)
  {
    if n < |items| {
      ReplaysGrow(db, items[..|items| - 1], n, address);
      assert items[..|items| - 1][..n] == items[..n];
    } else {
      assert items[..n] == items;
    }
  }

  lemma {:induction false} OneWork(db: Db, m: Momentum, env: Lookups)
    ensures RunAll(db, [Work(m, env, true)]) == Commit(db, m, env)
    ensures Items([Work(m, env, true)]) == ContentItems(m.content, m, env)
  {
    var works := [Work(m, env, true)];
    assert works[..0] == [] && RunAll(db, works[..0]) == db;
    assert Items(works[..0]) == [];
  }

  lemma {:induction false} StoredItemReplays(db: Db, items: seq<Item>, address: string, at: nat)
    requires at < |items| && HasBlock(db.blocks, items[at].b.hash) && Touches(RowOf(items[at].b, items[at].m), address)
    ensures Replays(db, items, address) > 0
  {
    LastReplays(db, items[..at + 1], address);
    ReplaysGrow(db, items, at + 1, address);
  }

  lemma {:induction false} ReplaysOvercount(db: Db, works: seq<Work>, after: Db, address: string)
    requires address != "" && Cached(Account(db, address)) == Aggregate(db.blocks, address)
    requires after == RunAll(db, works) && Replays(db, Items(works), address) > 0
    ensures Account(after, address).txCount > Aggregate(after.blocks, address).txCount
  {
    TxCountExact(db, works, address);
  }

  /**
  Backfill reprocesses a momentum some of whose blocks are stored: for every address such a block touches,
  tx_count is then above COUNT(*).
  */
  lemma {:induction false} ReprocessingOvercounts(db: Db, m: Momentum, env: Lookups, after: Db, address: string, at: nat)
    requires address != "" && Cached(Account(db, address)) == Aggregate(db.blocks, address)
    requires at < |ContentItems(m.content, m, env)| && after == Commit(db, m, env)
    requires var it := ContentItems(m.content, m, env)[at];
             HasBlock(db.blocks, it.b.hash) && Touches(RowOf(it.b, it.m), address)
    ensures Account(after, address).txCount > Aggregate(after.blocks, address).txCount
  {
    StoredItemReplays(db, ContentItems(m.content, m, env), address, at);
    OneWork(db, m, env);
    ReplaysOvercount(db, [Work(m, env, true)], after, address);
  }

  // ----- What Backfill repairs -----

  /** A block of the momentum is stored after Backfill if its transaction committed. */
  lemma {:induction false} BackfillStoresBlocks(db: Db, answers: seq<Answer>, i: nat, j: nat)
    requires i < |answers| && answers[i].Fetched? && answers[i].commits
    requires j < |answers[i].m.content| && answers[i].m.content[j].Some?
    ensures HasBlock(AnswerRun(db, answers).blocks, answers[i].m.content[j].value.hash)
  {
    var hash := answers[i].m.content[j].value.hash;
    AnsweredIsProcessed(answers, i, j);
    BackfillIsBlockRun(db, answers);
    HashesOfRun(db, AnswerItems(answers), hash);
  }

  lemma {:induction false} ContentProcessed(content: seq<Option<Block>>, m: Momentum, env: Lookups, j: nat)
    requires j < |content| && content[j].Some?
    ensures Processed(ContentItems(content, m, env), content[j].value.hash)
    decreases content
  {
    var all, rest := ContentItems(content, m, env), ContentItems(content[1..], m, env);
    if j == 0 {
      assert all[0].b == content[0].value;
    } else {
      ContentProcessed(content[1..], m, env, j - 1);
      var x :| 0 <= x < |rest| && rest[x].b.hash == content[j].value.hash;
      assert all[|all| - |rest| + x] == rest[x];
    }
  }

  lemma {:induction false} AnsweredIsProcessed(answers: seq<Answer>, i: nat, j: nat)
    requires i < |answers| && answers[i].Fetched? && answers[i].commits
    requires j < |answers[i].m.content| && answers[i].m.content[j].Some?
    ensures Processed(AnswerItems(answers), answers[i].m.content[j].value.hash)
  {
    var n, hash := |answers| - 1, answers[i].m.content[j].value.hash;
    var all, front := AnswerItems(answers), AnswerItems(answers[..n]);
    if i < n {
      AnsweredIsProcessed(answers[..n], i, j);
      var x :| 0 <= x < |front| && front[x].b.hash == hash;
      assert all[x] == front[x];
    } else {
      var last := ContentItems(answers[n].m.content, answers[n].m, answers[n].env);
      ContentProcessed(answers[n].m.content, answers[n].m, answers[n].env, j);
      var x :| 0 <= x < |last| && last[x].b.hash == hash;
      assert all[|front| + x] == last[x];
    }
  }

  /** Every row of that block has this height. */
  predicate RowsAt(rows: seq<BlockRow>, hash: string, height: nat) {
    forall i | 0 <= i < |rows| && rows[i].hash == hash :: rows[i].height == height
  }

  predicate ItemsAt(items: seq<Item>, hash: string, height: nat) {
    forall i | 0 <= i < |items| && items[i].b.hash == hash :: items[i].m.height == height
  }

  /** The node answers one height only with a block of that hash. */
  predicate AnswersAt(answers: seq<Answer>, hash: string, height: nat) {
    forall i, j | 0 <= i < |answers| && answers[i].Fetched? && 0 <= j < |answers[i].m.content|
      && answers[i].m.content[j].Some? && answers[i].m.content[j].value.hash == hash :: answers[i].m.height == height
  }

  lemma {:induction false} InsertedAt(rows: seq<BlockRow>, row: BlockRow, after: seq<BlockRow>, hash: string, height: nat)
    requires SameCores(Inserted(rows, row), after) && RowsAt(rows, hash, height)
    requires row.hash == hash ==> row.height == height
    ensures RowsAt(after, hash, height)
  {
    var ins := Inserted(rows, row);
    forall i | 0 <= i < |after| && after[i].hash == hash
      ensures after[i].height == height
    {
      assert Core(after[i]) == Core(ins[i]);
      assert Core(ins[i]).hash == ins[i].hash && Core(ins[i]).height == ins[i].height;
      if i < |rows| {
        assert ins[i].hash == rows[i].hash && ins[i].height == rows[i].height;
      }
    }
  }

  lemma {:induction false} RunAt(db: Db, items: seq<Item>, hash: string, height: nat)
    requires RowsAt(db.blocks, hash, height) && ItemsAt(items, hash, height)
    ensures RowsAt(BlockRun(db, items).blocks, hash, height)
  {
    if items != [] {
      var n := |items| - 1;
      assert forall i | 0 <= i < n :: items[..n][i] == items[i];
      RunAt(db, items[..n], hash, height);
      var j, it := BlockRun(db, items[..n]), items[n];
      CounterColumns(j, it.b, it.m, it.env, "");
      InsertedAt(j.blocks, RowOf(it.b, it.m), BlockRun(db, items).blocks, hash, height);
    }
  }

  lemma {:induction false} AnswersItemsAt(answers: seq<Answer>, hash: string, height: nat)
    requires AnswersAt(answers, hash, height)
    ensures ItemsAt(AnswerItems(answers), hash, height)
  {
    if answers != [] {
      var n := |answers| - 1;
      var all, front, a := AnswerItems(answers), AnswerItems(answers[..n]), answers[n];
      assert forall i | 0 <= i < n :: answers[..n][i] == answers[i];
      AnswersItemsAt(answers[..n], hash, height);
      forall i | 0 <= i < |all| && all[i].b.hash == hash
        ensures all[i].m.height == height
      {
        if i >= |front| {
          var last := ContentItems(a.m.content, a.m, a.env);
          ItemsAreContent(a.m.content, a.m, a.env);
          assert all[i] == last[i - |front|];
          assert Holds(a.m.content, last[i - |front|].b);
        } else {
          assert all[i] == front[i];
        }
      }
    }
  }

  /** The blocks stored at a height are at least as many as the distinct hashes found there. */
  lemma {:induction false} CountHashes(rows: seq<BlockRow>, height: nat, hashes: set<string>)
    requires forall hash | hash in hashes :: HasBlock(rows, hash) && RowsAt(rows, hash, height)
    ensures |hashes| <= StoredBlocks(rows, height)
  {
    if rows == [] {
      assert forall hash :: !HasBlock(rows, hash);
      assert hashes == {};
    } else {
      var n := |rows| - 1;
      var rest := hashes - {rows[n].hash};
      forall hash | hash in rest
        ensures HasBlock(rows[..n], hash) && RowsAt(rows[..n], hash, height)
      {
        var i :| 0 <= i < |rows| && rows[i].hash == hash;
        assert rows[..n][i].hash == hash;
      }
      CountHashes(rows[..n], height, rest);
      if rows[n].hash in hashes {
        assert RowsAt(rows, rows[n].hash, height);
        assert |rest| == |hashes| - 1;
      } else {
        assert rest == hashes;
      }
    }
  }

  function ContentHashes(content: seq<Option<Block>>): set<string> {
    set i | 0 <= i < |content| && content[i].Some? :: content[i].value.hash
  }

  /** The node returned every block, and no hash twice. */
  predicate Whole(content: seq<Option<Block>>) {
    && (forall i | 0 <= i < |content| :: content[i].Some?)
    && (forall i, j | 0 <= i < j < |content| :: content[i].value.hash != content[j].value.hash)
  }

  lemma {:induction false} HashesOfContent(content: seq<Option<Block>>)
    requires Whole(content)
    ensures |ContentHashes(content)| == |content|
    decreases content
  {
    if content != [] {
      var n := |content| - 1;
      var front := content[..n];
      HashesOfContent(front);
      assert ContentHashes(content) == ContentHashes(front) + {content[n].value.hash} by {
        forall hash | hash in ContentHashes(content)
          ensures hash in ContentHashes(front) + {content[n].value.hash}
        {
          var i :| 0 <= i < |content| && content[i].value.hash == hash;
          assert i < n ==> front[i].value.hash == hash;
        }
        forall hash | hash in ContentHashes(front)
          ensures hash in ContentHashes(content)
        {
          var i :| 0 <= i < n && front[i].value.hash == hash;
          assert content[i].value.hash == hash;
        }
      }
    }
  }

  /** The row of a momentum: the one it had, or that of the answer for its height. */
  lemma {:induction false} RowAnswered(db: Db, answers: seq<Answer>, i: nat)
    requires i < |answers| && answers[i].Fetched? && answers[i].commits
    requires forall j | 0 <= j < |answers| && j != i && answers[j].Fetched? :: answers[j].m.height != answers[i].m.height
    ensures var h, k := answers[i].m.height, AnswerRun(db, answers).momentums;
      h in k && k[h].txCount == if h in db.momentums then db.momentums[h].txCount else |answers[i].m.content|
  {
    var n, a := |answers| - 1, answers[|answers| - 1];
    var before := AnswerRun(db, answers[..n]);
    if a.Fetched? && a.commits {
      CommitHeights(before, a.m, a.env);
    }
    if i < n {
      RowAnswered(db, answers[..n], i);
    } else {
      OtherHeights(db, answers[..n], a.m.height);
    }
  }

  lemma {:induction false} OtherHeights(db: Db, answers: seq<Answer>, h: nat)
    requires forall j | 0 <= j < |answers| && answers[j].Fetched? :: answers[j].m.height != h
    ensures var k := AnswerRun(db, answers).momentums;
      (h in k <==> h in db.momentums) && (h in k ==> k[h] == db.momentums[h])
  {
    if answers != [] {
      var n, a := |answers| - 1, answers[|answers| - 1];
      OtherHeights(db, answers[..n], h);
      if a.Fetched? && a.commits {
        CommitHeights(AnswerRun(db, answers[..n]), a.m, a.env);
      }
    }
  }

  /**
  A height whose momentum committed with all its blocks returned is repaired: no later Backfill lists it.  A row
  that was there counts no more blocks than the node serves, and no block is anywhere at another height.
  */
  lemma {:induction false} BackfillHeals(db: Db, answers: seq<Answer>, i: nat)
    requires i < |answers| && answers[i].Fetched? && answers[i].commits && Whole(answers[i].m.content)
    requires forall j | 0 <= j < |answers| && j != i && answers[j].Fetched? :: answers[j].m.height != answers[i].m.height
    requires var m := answers[i].m; m.height in db.momentums ==> db.momentums[m.height].txCount <= |m.content|
    requires forall hash | hash in ContentHashes(answers[i].m.content) ::
               RowsAt(db.blocks, hash, answers[i].m.height) && AnswersAt(answers, hash, answers[i].m.height)
    ensures !NeedsBackfill(AnswerRun(db, answers), answers[i].m.height)
  {
    var m, k := answers[i].m, AnswerRun(db, answers);
    BackfillIsBlockRun(db, answers);
    forall hash | hash in ContentHashes(m.content)
      ensures HasBlock(k.blocks, hash) && RowsAt(k.blocks, hash, m.height)
    {
      var j :| 0 <= j < |m.content| && m.content[j].Some? && m.content[j].value.hash == hash;
      BackfillStoresBlocks(db, answers, i, j);
      AnswersItemsAt(answers, hash, m.height);
      RunAt(db, AnswerItems(answers), hash, m.height);
    }
    CountHashes(k.blocks, m.height, ContentHashes(m.content));
    HashesOfContent(m.content);
    RowAnswered(db, answers, i);
  }
}
