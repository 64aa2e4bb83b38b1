/**
The indexer's own loops over the ledger (internal/indexer/processor.go, internal/indexer/indexer.go):
processing one momentum, the catch-up sync, and Backfill.
*/
module Indexer {
  import opened Wrappers
  import opened Ledger
  import LedgerEffects
  import opened LedgerRuns

  /** A webhook event, by the momentum or block it is about. */
  datatype Webhook = MomentumInserted(height: nat) | AccountBlockInserted(hash: string)

  function BlockEvents(content: seq<Option<Block>>): seq<Webhook> {
    if content == [] then []
    else (if content[0].Some? then [AccountBlockInserted(content[0].value.hash)] else []) + BlockEvents(content[1..])
  }

  function EventsOf(m: Momentum): seq<Webhook> {
    [MomentumInserted(m.height)] + BlockEvents(m.content)
  }

  /** The webhook events of the momentums of a run that committed. */
  function CommittedEvents(works: seq<Work>): seq<Webhook> {
    if works == [] then [] else
      var last := works[|works| - 1];
      CommittedEvents(works[..|works| - 1]) + if last.committed then EventsOf(last.m) else []
  }

  lemma {:induction false} Regroup<T>(a: seq<T>, b: seq<T>, c: seq<T>)
    ensures a + (b + c) == (a + b) + c
    ensures b == [] ==> a + b == a
  {
  }

  function HeadStmts(entry: Option<Block>, m: Momentum, env: Lookups): seq<Stmt> {
    if entry.Some? then BlockStmts(entry.value, m, env) else []
  }

  function HeadEvents(entry: Option<Block>): seq<Webhook> {
    if entry.Some? then [AccountBlockInserted(entry.value.hash)] else []
  }

  lemma {:induction false} ContentUnfolds(content: seq<Option<Block>>, m: Momentum, env: Lookups)
    requires content != []
    ensures ContentStmts(content, m, env) == HeadStmts(content[0], m, env) + ContentStmts(content[1..], m, env)
    ensures BlockEvents(content) == HeadEvents(content[0]) + BlockEvents(content[1..])
  {
  }

  /** The batch and the events of the first k entries. */
  ghost predicate Queued(content: seq<Option<Block>>, k: nat, m: Momentum, env: Lookups, batch: seq<Stmt>, events: seq<Webhook>)
    requires k <= |content|
  {
    && ContentStmts(content, m, env) == batch + ContentStmts(content[k..], m, env)
    && BlockEvents(content) == events + BlockEvents(content[k..])
  }

  lemma {:induction false} QueueOne(content: seq<Option<Block>>, k: nat, m: Momentum, env: Lookups,
                                    batch: seq<Stmt>, events: seq<Webhook>)
    requires k < |content| && Queued(content, k, m, env, batch, events)
    ensures Queued(content, k + 1, m, env, batch + HeadStmts(content[k], m, env), events + HeadEvents(content[k]))
    ensures content[k].None? ==>
              batch + HeadStmts(content[k], m, env) == batch && events + HeadEvents(content[k]) == events
  {
    var rest := content[k..];
    assert rest[0] == content[k] && rest[1..] == content[k + 1..];
    ContentUnfolds(rest, m, env);
    Regroup(batch, HeadStmts(content[k], m, env), ContentStmts(content[k + 1..], m, env));
    Regroup(events, HeadEvents(content[k]), BlockEvents(content[k + 1..]));
  }

  lemma {:induction false} QueueEnds(content: seq<Option<Block>>, m: Momentum, env: Lookups,
                                     batch: seq<Stmt>, events: seq<Webhook>)
    ensures Queued(content, 0, m, env, [], [])
    ensures Queued(content, |content|, m, env, batch, events) ==>
              batch == ContentStmts(content, m, env) && events == BlockEvents(content)
  {
    assert content[0..] == content && content[|content|..] == [];
  }

  // ----- Heights -----

  /** SELECT MAX(height), 0 on an empty table. */
  ghost predicate IsLatest(h: nat, momentums: map<nat, MomentumRow>) {
    (momentums == map[] && h == 0) || (h in momentums && forall x | x in momentums :: x <= h)
  }

  /** The stored heights are 1..k. */
  ghost predicate GapFree(momentums: map<nat, MomentumRow>, k: nat) {
    forall h :: h in momentums <==> 1 <= h <= k
  }

  /** The node's momentums from a height on, in order. */
  predicate ConsecutiveFrom(ms: seq<Momentum>, start: nat) {
    forall i | 0 <= i < |ms| :: ms[i].height == start + i
  }

  predicate WorksFrom(works: seq<Work>, start: nat) {
    forall i | 0 <= i < |works| :: works[i].committed && works[i].m.height == start + i
  }

  /** How one call of processMomentum ends: a failed batch, queue, begin or commit all roll back. */
  datatype Outcome = Commits | RollsBack | ContextDone

  /** The answers to one iteration of sync. */
  datatype Iteration = Iteration(
    ctxDone: bool, dbReadable: bool, frontier: Option<nat>, serve: nat -> Option<seq<Momentum>>, outcomes: seq<Outcome>,
    lookups: nat -> Lookups)  // what the program looks up while it processes the momentum of a height

  /** The node serves consecutive momentums starting at the height it was asked for. */
  ghost predicate Serves(it: Iteration) {
    forall start: nat :: it.serve(start).Some? ==> ConsecutiveFrom(it.serve(start).value, start)
  }

  datatype SyncResult = SyncDone(frontier: nat) | SyncFailed | SyncCancelled

  /** One height Backfill works on: not fetched, or processed with the direct insert as fallback. */
  datatype Answer = NotFetched | Fetched(m: Momentum, env: Lookups, commits: bool, directOk: bool)

  predicate Writes(a: Answer) {
    a.Fetched? && (a.commits || a.directOk)
  }

  /** The webhook events of the momentums Backfill committed; a direct insert emits none. */
  function AnsweredEvents(answers: seq<Answer>): seq<Webhook> {
    if answers == [] then [] else
      var last := answers[|answers| - 1];
      AnsweredEvents(answers[..|answers| - 1]) + if last.Fetched? && last.commits then EventsOf(last.m) else []
  }

  lemma {:induction false} AnsweredEventsOne(answers: seq<Answer>, n: nat, base: seq<Webhook>)
    requires n < |answers|
    ensures base + AnsweredEvents(answers[..n + 1]) == base + AnsweredEvents(answers[..n])
      + if answers[n].Fetched? && answers[n].commits then EventsOf(answers[n].m) else []
  {
    assert answers[..n + 1][..n] == answers[..n];
  }

  // ----- Backfill's query -----

  function StoredBlocks(rows: seq<BlockRow>, height: nat): nat {
    if rows == [] then 0
    else StoredBlocks(rows[..|rows| - 1], height) + if rows[|rows| - 1].height == height then 1 else 0
  }

  ghost predicate NeedsBackfill(db: Db, h: nat) {
    || (h !in db.momentums && h >= 1 && exists x :: x in db.momentums && x > h)
    || (h in db.momentums && StoredBlocks(db.blocks, h) < db.momentums[h].txCount)
  }

  ghost predicate IsBackfillList(heights: seq<nat>, db: Db) {
    && (forall h: nat :: h in heights <==> NeedsBackfill(db, h))
    && (forall i, j | 0 <= i < j < |heights| :: heights[i] < heights[j])
  }

  /** The node answers each listed height with the momentum of that height, or not at all. */
  predicate AnswersFor(answers: seq<Answer>, heights: seq<nat>) {
    |answers| == |heights| && forall i | 0 <= i < |heights| && answers[i].Fetched? :: answers[i].m.height == heights[i]
  }

  lemma {:induction false} MissingIsNeeded(db: Db, h: nat, latest: nat)
    requires IsLatest(latest, db.momentums) && h <= latest
    ensures h !in db.momentums && h >= 1 ==> NeedsBackfill(db, h)
  {
    if h !in db.momentums && h >= 1 { assert latest in db.momentums && latest > h; }
  }

  lemma {:induction false} AboveLatest(db: Db, latest: nat)
    requires IsLatest(latest, db.momentums)
    ensures forall h: nat | NeedsBackfill(db, h) :: h <= latest
  {
  }

  /** Every row of before is there as it was, and the new rows are the first `done` listed heights that were written. */
  ghost predicate Filled(before: map<nat, MomentumRow>, after: map<nat, MomentumRow>, heights: seq<nat>,
                         answers: seq<Answer>, done: nat)
    requires done <= |heights| == |answers|
  {
    && (forall h | h in before :: h in after && after[h] == before[h])
    && (forall h :: h in after <==> h in before || exists i :: 0 <= i < done && heights[i] == h && Writes(answers[i]))
  }

  lemma {:induction false} FilledOne(before: map<nat, MomentumRow>, mid: map<nat, MomentumRow>, after: map<nat, MomentumRow>,
                                     heights: seq<nat>, answers: seq<Answer>, n: nat)
    requires AnswersFor(answers, heights) && n < |heights| && Filled(before, mid, heights, answers, n)
    requires var a := answers[n];
             after == if Writes(a) && a.m.height !in mid
                      then mid[a.m.height := MomentumRow(a.m.hash, a.m.ts, |a.m.content|)] else mid
    ensures Filled(before, after, heights, answers, n + 1)
  {
    forall h
      ensures h in after <==> h in before || exists i :: 0 <= i < n + 1 && heights[i] == h && Writes(answers[i])
    {
      if Writes(answers[n]) && h == answers[n].m.height {
        assert heights[n] == h;
      }
      assert h in mid <==> h in before || exists i :: 0 <= i < n && heights[i] == h && Writes(answers[i]);
    }
  }

  /** After Backfill heights 1..MAX are all stored exactly when every missing one was written by either path. */
  lemma {:induction false} BackfillFillsExact(before: map<nat, MomentumRow>, after: map<nat, MomentumRow>, heights: seq<nat>,
                           answers: seq<Answer>, done: nat, db: Db, latest: nat)
    requires db.momentums == before && IsLatest(latest, before) && IsBackfillList(heights, db) && 0 !in before
    requires done <= |heights| == |answers| && Filled(before, after, heights, answers, done)
    ensures GapFree(after, latest) <==>
            forall i | 0 <= i < |heights| && heights[i] !in before :: i < done && Writes(answers[i])
  {
    AboveLatest(db, latest);
    if forall i | 0 <= i < |heights| && heights[i] !in before :: i < done && Writes(answers[i]) {
      forall h ensures h in after <==> 1 <= h <= latest {
        if 1 <= h <= latest && h !in before {
          MissingIsNeeded(db, h, latest);
          assert h in heights;
          var i :| 0 <= i < |heights| && heights[i] == h;
        }
        if i :| 0 <= i < |heights| && heights[i] == h {
          assert h in heights;
        }
      }
    }
    if GapFree(after, latest) {
      forall i | 0 <= i < |heights| && heights[i] !in before ensures i < done && Writes(answers[i]) {
        assert heights[i] in heights;
        assert heights[i] in after;
        var j :| 0 <= j < done && heights[j] == heights[i] && Writes(answers[j]);
        assert i == j;
      }
    }
  }

  // ----- Catching up -----

  /** From 1..k the works committed heights k+1, k+2, ... and left the rows that were there alone. */
  ghost predicate CaughtUp(db0: Db, db: Db, works: seq<Work>, k: nat) {
    && db == RunAll(db0, works) && WorksFrom(works, k + 1)
    && GapFree(db.momentums, k + |works|)
    && (forall h | h in db0.momentums :: h in db.momentums && db.momentums[h] == db0.momentums[h])
  }

  lemma {:induction false} CommitOf(db: Db, m: Momentum, env: Lookups, batch: seq<Stmt>)
    requires batch == ContentStmts(m.content, m, env)
                      + [InsertMomentum(m.height, MomentumRow(m.hash, m.ts, |m.content|)), NotifyMomentum(m.height)]
    ensures ExecAll(db, batch) == Commit(db, m, env)
  {
  }

  lemma {:induction false} LatestCaughtUp(latest: nat, db0: Db, db: Db, works: seq<Work>, k: nat)
    requires IsLatest(latest, db.momentums) && CaughtUp(db0, db, works, k)
    ensures latest == k + |works|
  {
    if k + |works| > 0 { assert k + |works| in db.momentums; }
  }

  lemma {:induction false} NotBehind(db0: Db, k: nat)
    requires GapFree(db0.momentums, k)
    ensures CaughtUp(db0, db0, [], k)
  {
  }

  lemma {:induction false} CommittedEventsOne(base: seq<Webhook>, works: seq<Work>, m: Momentum, env: Lookups)
    ensures base + CommittedEvents(works + [Work(m, env, true)]) == base + CommittedEvents(works) + EventsOf(m)
  {
    assert (works + [Work(m, env, true)])[..|works|] == works;
  }

  lemma {:induction false} CatchUpOne(db0: Db, db: Db, works: seq<Work>, k: nat, m: Momentum, env: Lookups)
    requires CaughtUp(db0, db, works, k) && m.height == k + |works| + 1
    ensures CaughtUp(db0, Commit(db, m, env), works + [Work(m, env, true)], k)
  {
    assert (works + [Work(m, env, true)])[..|works|] == works;
    CommitHeights(db, m, env);
  }

  lemma {:induction false} InsertedMomentum(k: Db, height: nat, row: MomentumRow)
    ensures Exec(Exec(k, InsertMomentum(height, row)), NotifyMomentum(height)).momentums ==
      if height in k.momentums then k.momentums else k.momentums[height := row]
  {
  }

  lemma {:induction false} ContentKeepsMomentums(db: Db, m: Momentum, env: Lookups)
    ensures ApplyContent(db, m.content, m, env).momentums == db.momentums
  {
    ContentIsRun(db, m.content, m, env);
    BlocksKeepMomentums(db, ContentItems(m.content, m, env));
  }

  /** A committed momentum adds its own height, if absent, and leaves every other momentum row alone. */
  lemma {:induction false} CommitHeights(db: Db, m: Momentum, env: Lookups)
    ensures Commit(db, m, env).momentums ==
      if m.height in db.momentums then db.momentums else db.momentums[m.height := MomentumRow(m.hash, m.ts, |m.content|)]
  {
    CommitIsBlocks(db, m, env);
    ContentKeepsMomentums(db, m, env);
    InsertedMomentum(ApplyContent(db, m.content, m, env), m.height, MomentumRow(m.hash, m.ts, |m.content|));
  }

  lemma {:induction false} BlocksKeepMomentums(db: Db, items: seq<Item>)
    ensures BlockRun(db, items).momentums == db.momentums
  {
    if items != [] {
      var n := |items| - 1;
      BlocksKeepMomentums(db, items[..n]);
      LedgerEffects.BlockEffect(BlockRun(db, items[..n]), items[n].b, items[n].m, items[n].env, "");
    }
  }

  // ----- How sync ends -----

  predicate CommitsAll(outcomes: seq<Outcome>, n: nat) {
    n <= |outcomes| && forall j | 0 <= j < n :: outcomes[j].Commits?
  }

  /** The works of the first n momentums of a served list, when they commit. */
  function ListWorks(list: seq<Momentum>, lookups: nat -> Lookups, n: nat): (r: seq<Work>)
    requires n <= |list|
    ensures |r| == n && forall j | 0 <= j < n :: r[j] == Work(list[j], lookups(list[j].height), true)
  {
    seq(n, j requires 0 <= j < n => Work(list[j], lookups(list[j].height), true))
  }

  lemma {:induction false} ListWorksEnds(list: seq<Momentum>, lookups: nat -> Lookups, n: nat)
    requires n <= |list|
    ensures n == 0 ==> ListWorks(list, lookups, n) == []
    ensures n > 0 ==> ListWorks(list, lookups, n)
                      == ListWorks(list, lookups, n - 1) + [Work(list[n - 1], lookups(list[n - 1].height), true)]
  {
  }

  /** What the first n iterations are served, each asking for the height after those before it. */
  function ServedWorks(script: seq<Iteration>, n: nat, k: nat): seq<Work>
    requires n <= |script|
  {
    if n == 0 then [] else
      var before := ServedWorks(script, n - 1, k);
      var list := script[n - 1].serve(k + |before| + 1);
      before + if list.Some? then ListWorks(list.value, script[n - 1].lookups, |list.value|) else []
  }

  /** An iteration at a height below the frontier gets to process a list. */
  predicate Processes(it: Iteration, height: nat) {
    !it.ctxDone && it.dbReadable && it.frontier.Some? && height < it.frontier.value && it.serve(height + 1).Some?
  }

  /** Sync goes on after the iteration: every momentum it is served commits. */
  predicate Continues(it: Iteration, height: nat) {
    Processes(it, height) && CommitsAll(it.outcomes, |it.serve(height + 1).value|)
  }

  predicate ContinuesTo(script: seq<Iteration>, k: nat, n: nat)
    requires n <= |script|
  {
    forall i: nat | i < n :: Continues(script[i], k + |ServedWorks(script, i, k)|)
  }

  /** How an iteration that processes nothing ends sync at a height. */
  predicate EndsBefore(it: Iteration, height: nat, r: SyncResult) {
    && (r == SyncCancelled <==> it.ctxDone)
    && (r == SyncFailed <==>
          !it.ctxDone && (!it.dbReadable || it.frontier == None || (height < it.frontier.value && it.serve(height + 1) == None)))
    && (r.SyncDone? <==> !it.ctxDone && it.dbReadable && it.frontier.Some? && it.frontier.value <= height)
    && (r.SyncDone? ==> it.frontier == Some(r.frontier))
  }

  /** How it ends after the first `done` momentums of its list committed. */
  predicate EndsWithin(it: Iteration, count: nat, done: nat, r: SyncResult) {
    && done < count && CommitsAll(it.outcomes, done) && !r.SyncDone?
    && (r == SyncFailed <==> done < |it.outcomes| && it.outcomes[done] == RollsBack)
    && (r == SyncCancelled <==> done >= |it.outcomes| || it.outcomes[done] == ContextDone)
  }

  /** From height k, once primed, sync ends in iteration `at` with `done` momentums of its list committed. */
  predicate SyncEnds(script: seq<Iteration>, k: nat, at: nat, done: nat, r: SyncResult, works: seq<Work>) {
    && at <= |script| && ContinuesTo(script, k, at)
    && var before := ServedWorks(script, at, k);
    && (at == |script| ==> r == SyncCancelled && works == before)
    && (at < |script| ==>
          var it, height := script[at], k + |before|;
          if !Processes(it, height) then EndsBefore(it, height, r) && works == before
          else
            var list := it.serve(height + 1).value;
            EndsWithin(it, |list|, done, r) && works == before + ListWorks(list, it.lookups, done))
  }

  lemma {:induction false} StopsBefore(script: seq<Iteration>, k: nat, at: nat, r: SyncResult)
    requires at < |script| && ContinuesTo(script, k, at)
    requires var height := k + |ServedWorks(script, at, k)|;
             !Processes(script[at], height) && EndsBefore(script[at], height, r)
    ensures SyncEnds(script, k, at, 0, r, ServedWorks(script, at, k))
  {
    hide ContinuesTo, ServedWorks, Processes, EndsBefore;
  }

  lemma {:induction false} StopsWithin(script: seq<Iteration>, k: nat, at: nat, done: nat, r: SyncResult, list: seq<Momentum>)
    requires at < |script| && ContinuesTo(script, k, at)
    requires Processes(script[at], k + |ServedWorks(script, at, k)|)
    requires script[at].serve(k + |ServedWorks(script, at, k)| + 1) == Some(list) && EndsWithin(script[at], |list|, done, r)
    ensures SyncEnds(script, k, at, done, r, ServedWorks(script, at, k) + ListWorks(list, script[at].lookups, done))
  {
    hide ContinuesTo, ServedWorks, EndsBefore, CommitsAll;
  }

  lemma {:induction false} RunsOut(script: seq<Iteration>, k: nat)
    requires ContinuesTo(script, k, |script|)
    ensures SyncEnds(script, k, |script|, 0, SyncCancelled, ServedWorks(script, |script|, k))
  {
    hide ContinuesTo, ServedWorks;
  }

  lemma {:induction false} NothingServed(script: seq<Iteration>, k: nat)
    ensures ContinuesTo(script, k, 0) && ServedWorks(script, 0, k) == []
  {
  }

  lemma {:induction false} ServedOne(script: seq<Iteration>, k: nat, n: nat, list: seq<Momentum>)
    requires n < |script| && script[n].serve(k + |ServedWorks(script, n, k)| + 1) == Some(list)
    ensures ServedWorks(script, n + 1, k) == ServedWorks(script, n, k) + ListWorks(list, script[n].lookups, |list|)
  {
    hide ListWorks;
  }

  lemma {:induction false} GoesOn(script: seq<Iteration>, k: nat, n: nat)
    requires n < |script| && ContinuesTo(script, k, n) && Continues(script[n], k + |ServedWorks(script, n, k)|)
    ensures ContinuesTo(script, k, n + 1)
  {
    hide ServedWorks, Continues;
  }

  lemma {:induction false} NotContinued(script: seq<Iteration>, k: nat, at: nat, done: nat, r: SyncResult, works: seq<Work>)
    requires SyncEnds(script, k, at, done, r, works) && at < |script|
    ensures !Continues(script[at], k + |ServedWorks(script, at, k)|)
  {
    hide ServedWorks, ContinuesTo, ListWorks;
  }

  lemma {:induction false} StopIsWhereItStops(script: seq<Iteration>, k: nat, at: nat, done: nat, r: SyncResult, works: seq<Work>, n: nat)
    requires SyncEnds(script, k, at, done, r, works) && n <= |script| && ContinuesTo(script, k, n)
    ensures n <= at
  {
    hide ServedWorks, Continues, ListWorks, EndsBefore, EndsWithin;
    if at < |script| {
      NotContinued(script, k, at, done, r, works);
    }
  }

  lemma {:induction false} SameEnd(it: Iteration, count: nat, done: nat, r: SyncResult, done': nat, r': SyncResult)
    requires EndsWithin(it, count, done, r) && EndsWithin(it, count, done', r')
    ensures done == done' && r == r'
  {
  }

  /** The answers determine the result and what was committed. */
  lemma {:induction false} SyncDetermined(script: seq<Iteration>, k: nat, at: nat, done: nat, r: SyncResult, works: seq<Work>,
                                          at': nat, done': nat, r': SyncResult, works': seq<Work>)
    requires SyncEnds(script, k, at, done, r, works) && SyncEnds(script, k, at', done', r', works')
    ensures at == at' && r == r' && works == works'
  {
    hide ServedWorks, ContinuesTo, ListWorks, EndsWithin;
    StopIsWhereItStops(script, k, at, done, r, works, at');
    StopIsWhereItStops(script, k, at', done', r', works', at);
    var height := k + |ServedWorks(script, at, k)|;
    if at < |script| && Processes(script[at], height) {
      SameEnd(script[at], |script[at].serve(height + 1).value|, done, r, done', r');
    }
  }

  /** At a height below the frontier the node serves a list that leads on and not past it, and all of it commits. */
  predicate LeadsOn(it: Iteration, height: nat, frontier: nat) {
    height < frontier ==>
      && it.serve(height + 1).Some? && 0 < |it.serve(height + 1).value| <= frontier - height
      && CommitsAll(it.outcomes, |it.serve(height + 1).value|)
  }

  ghost predicate Faultless(it: Iteration, frontier: nat) {
    !it.ctxDone && it.dbReadable && it.frontier == Some(frontier) && forall height: nat :: LeadsOn(it, height, frontier)
  }

  lemma {:induction false} FaultlessGoesOn(it: Iteration, height: nat, frontier: nat)
    requires Faultless(it, frontier)
    ensures Continues(it, height) <==> height < frontier
    ensures Continues(it, height) ==> 0 < |it.serve(height + 1).value| <= frontier - height
    ensures Processes(it, height) <==> height < frontier
  {
    assert LeadsOn(it, height, frontier);
  }

  lemma {:induction false} ServedGrows(script: seq<Iteration>, n: nat, k: nat, frontier: nat)
    requires n <= |script| && ContinuesTo(script, k, n)
    requires forall i | 0 <= i < |script| :: Faultless(script[i], frontier)
    ensures n <= |ServedWorks(script, n, k)|
    ensures k <= frontier ==> |ServedWorks(script, n, k)| <= frontier - k
    ensures k > frontier ==> n == 0
  {
    hide Faultless, Continues, ServedWorks;
    if n > 0 {
      ServedGrows(script, n - 1, k, frontier);
      var height := k + |ServedWorks(script, n - 1, k)|;
      assert Continues(script[n - 1], height);
      FaultlessGoesOn(script[n - 1], height, frontier);
      ServedOne(script, k, n - 1, script[n - 1].serve(height + 1).value);
    } else {
      NothingServed(script, k);
    }
  }

  /** Without faults, and with iterations enough, sync ends at the frontier with everything up to it committed. */
  lemma {:induction false} FaultlessSyncFinishes(script: seq<Iteration>, k: nat, at: nat, done: nat, r: SyncResult,
                                                 works: seq<Work>, frontier: nat)
    requires SyncEnds(script, k, at, done, r, works) && |script| > frontier - k && |script| > 0
    requires forall i | 0 <= i < |script| :: Faultless(script[i], frontier)
    ensures r == SyncDone(frontier) && |works| == if k <= frontier then frontier - k else 0
  {
    hide Continues, ContinuesTo, ServedWorks, Processes, EndsWithin, ListWorks;
    ServedGrows(script, at, k, frontier);
    FaultlessGoesOn(script[at], k + |ServedWorks(script, at, k)|, frontier);
    NotContinued(script, k, at, done, r, works);
    NothingServed(script, k);
  }

  // ----- What Backfill does to the tables -----

  /** A fetched momentum is committed, or else its row alone is inserted. */
  function Answered(db: Db, a: Answer): Db {
    if a.NotFetched? then db
    else if a.commits then Commit(db, a.m, a.env)
    else if a.directOk then Exec(db, InsertMomentum(a.m.height, MomentumRow(a.m.hash, a.m.ts, |a.m.content|)))
    else db
  }

  function AnswerRun(db: Db, answers: seq<Answer>): Db {
    if answers == [] then db else Answered(AnswerRun(db, answers[..|answers| - 1]), answers[|answers| - 1])
  }

  /** The blocks of the momentums that committed, in order. */
  function AnswerItems(answers: seq<Answer>): seq<Item> {
    if answers == [] then [] else
      var last := answers[|answers| - 1];
      AnswerItems(answers[..|answers| - 1])
      + if last.Fetched? && last.commits then ContentItems(last.m.content, last.m, last.env) else []
  }

  lemma {:induction false} AnswerRunOne(db: Db, answers: seq<Answer>, n: nat)
    requires n < |answers|
    ensures AnswerRun(db, answers[..n + 1]) == Answered(AnswerRun(db, answers[..n]), answers[n])
    ensures answers[n].NotFetched? ==> AnswerRun(db, answers[..n + 1]) == AnswerRun(db, answers[..n])
  {
    assert answers[..n + 1][..n] == answers[..n];
  }

  /** After Backfill the block, account, delegation and reward tables are those of the committed blocks in order. */
  lemma {:induction false} BackfillIsBlockRun(db: Db, answers: seq<Answer>)
    ensures SameData(BlockRun(db, AnswerItems(answers)), AnswerRun(db, answers))
  {
    if answers != [] {
      var front, last := answers[..|answers| - 1], answers[|answers| - 1];
      BackfillIsBlockRun(db, front);
      if last.Fetched? && last.commits {
        CommitIsRun(BlockRun(db, AnswerItems(front)), AnswerRun(db, front), last.m, last.env);
        BlockRunAppend(db, AnswerItems(front), ContentItems(last.m.content, last.m, last.env));
      } else {
        assert AnswerItems(answers) == AnswerItems(front);
      }
    }
  }

  // ----- The indexer -----

  class Indexer {
    var db: Db
    var emitted: seq<Webhook>
    const webhooks: bool

    constructor (db: Db, webhooks: bool)
      ensures this.db == db && emitted == [] && this.webhooks == webhooks
    {
      this.db, emitted, this.webhooks := db, [], webhooks;
    }

    /** The batch is built block by block. */
    method ProcessAccountBlocks(m: Momentum, env: Lookups) returns (batch: seq<Stmt>, events: seq<Webhook>)
      ensures batch == ContentStmts(m.content, m, env) && events == BlockEvents(m.content)
    {
      batch, events := [], [];
      QueueEnds(m.content, m, env, batch, events);
      for k := 0 to |m.content|
        invariant Queued(m.content, k, m, env, batch, events)
      {
        QueueOne(m.content, k, m, env, batch, events);
        if m.content[k].Some? {
          batch := batch + BlockStmts(m.content[k].value, m, env);
          events := events + [AccountBlockInserted(m.content[k].value.hash)];
        }
      }
      QueueEnds(m.content, m, env, batch, events);
    }

    /** The batch's statements in order, within one transaction. */
    method SendBatch(batch: seq<Stmt>)
      modifies this`db
      ensures db == ExecAll(old(db), batch)
    {
      for k := 0 to |batch|
        invariant ExecAll(old(db), batch) == ExecAll(db, batch[k..])
      {
        assert batch[k..][0] == batch[k] && batch[k..][1..] == batch[k + 1..];
        db := Exec(db, batch[k]);
      }
    }

    method EmitAll(events: seq<Webhook>)
      modifies this`emitted
      ensures emitted == old(emitted) + events
    {
      for k := 0 to |events|
        invariant emitted == old(emitted) + events[..k]
      {
        emitted := emitted + [events[k]];
      }
    }

    /** Build the batch, run it in one transaction, and emit webhooks only once it has committed. */
    method ProcessMomentum(m: Momentum, env: Lookups, commits: bool) returns (ok: bool)
      modifies this
      ensures ok == commits
      ensures db == if commits then Commit(old(db), m, env) else old(db)
      ensures emitted == old(emitted) + if commits && webhooks then EventsOf(m) else []
    {
      var batch, events := ProcessAccountBlocks(m, env);
      batch := batch + [InsertMomentum(m.height, MomentumRow(m.hash, m.ts, |m.content|)), NotifyMomentum(m.height)];
      if !commits {
        return false;
      }
      CommitOf(db, m, env, batch);
      SendBatch(batch);
      if webhooks {
        EmitAll([MomentumInserted(m.height)] + events);
      }
      ok := true;
    }

    method GetLatestHeight() returns (h: nat)
      ensures IsLatest(h, db.momentums)
    {
      h := 0;
      var todo := db.momentums.Keys;
      while todo != {}
        invariant todo <= db.momentums.Keys
        invariant todo == db.momentums.Keys ==> h == 0
        invariant todo != db.momentums.Keys ==> h in db.momentums
        invariant forall x | x in db.momentums && x !in todo :: x <= h
        decreases todo
      {
        var x :| x in todo;
        if x > h || todo == db.momentums.Keys {
          h := x;
        }
        todo := todo - {x};
      }
    }

    /** What was emitted since `base` is the events of the committed works. */
    ghost predicate Emitted(base: seq<Webhook>, works: seq<Work>) reads this {
      emitted == base + if webhooks then CommittedEvents(works) else []
    }

    /** The inner loop of sync: stops at the first momentum that fails or when the context is done. */
    method ProcessList(list: seq<Momentum>, outcomes: seq<Outcome>, lookups: nat -> Lookups,
                       ghost db0: Db, ghost base: seq<Webhook>, ghost works0: seq<Work>, ghost k: nat)
      returns (end: Option<SyncResult>, ghost works: seq<Work>, ghost done: nat)
      requires CaughtUp(db0, db, works0, k) && Emitted(base, works0) && ConsecutiveFrom(list, k + |works0| + 1)
      modifies this
      ensures CaughtUp(db0, db, works, k) && Emitted(base, works)
      ensures done <= |list| && works == works0 + ListWorks(list, lookups, done) && CommitsAll(outcomes, done)
      ensures (end.None? <==> done == |list|) && (end.Some? ==> !end.value.SyncDone?)
      ensures done < |list| ==>
                && (end == Some(SyncFailed) <==> done < |outcomes| && outcomes[done] == RollsBack)
                && (end == Some(SyncCancelled) <==> done >= |outcomes| || outcomes[done] == ContextDone)
    {
      hide CaughtUp, ListWorks, CommittedEvents, EventsOf, Commit;
      works, done := works0, 0;
      ListWorksEnds(list, lookups, 0);
      var j := 0;
      while j < |list|
        invariant 0 <= j == done <= |list| && works == works0 + ListWorks(list, lookups, j) && CommitsAll(outcomes, j)
        invariant CaughtUp(db0, db, works, k) && Emitted(base, works)
      {
        var outcome := if j < |outcomes| then outcomes[j] else ContextDone;
        if outcome.ContextDone? {
          return Some(SyncCancelled), works, done;
        }
        ghost var before := db;
        var env := lookups(list[j].height);
        var ok := ProcessMomentum(list[j], env, outcome.Commits?);
        if !ok {
          return Some(SyncFailed), works, done;
        }
        CatchUpOne(db0, before, works, k, list[j], env);
        CommittedEventsOne(base, works, list[j], env);
        ListWorksEnds(list, lookups, j + 1);
        works := works + [Work(list[j], env, true)];
        j, done := j + 1, j + 1;
      }
      end := None;
    }

    /**
    sync, which starts by priming the pillar cache.  `works` are the momentums it committed: from a gap-free table
    1..k they have heights k+1, k+2, ..., at whatever point the loop stops, and SyncEnds says where and how it does.
    */
    method Sync(primed: bool, script: seq<Iteration>, ghost k: nat)
      returns (r: SyncResult, ghost works: seq<Work>, ghost at: nat, ghost done: nat)
      requires GapFree(db.momentums, k) && forall i | 0 <= i < |script| :: Serves(script[i])
      modifies this
      ensures CaughtUp(old(db), db, works, k) && Emitted(old(emitted), works)
      ensures !primed ==> r == SyncFailed && works == []
      ensures primed ==> SyncEnds(script, k, at, done, r, works)
      ensures r.SyncDone? ==> k + |works| >= r.frontier
    {
      hide SyncEnds, ContinuesTo, ServedWorks, CommitsAll, CaughtUp, ListWorks, IsLatest;
      NotBehind(db, k);
      works, at, done := [], 0, 0;
      if !primed {
        return SyncFailed, [], 0, 0;
      }
      NothingServed(script, k);
      for n := 0 to |script|
        invariant at == n && ContinuesTo(script, k, n) && works == ServedWorks(script, n, k)
        invariant CaughtUp(old(db), db, works, k) && Emitted(old(emitted), works)
      {
        var it := script[n];
        if it.ctxDone {
          StopsBefore(script, k, n, SyncCancelled);
          return SyncCancelled, works, n, 0;
        }
        if !it.dbReadable {
          StopsBefore(script, k, n, SyncFailed);
          return SyncFailed, works, n, 0;
        }
        var dbHeight := GetLatestHeight();
        LatestCaughtUp(dbHeight, old(db), db, works, k);
        if it.frontier.None? {
          StopsBefore(script, k, n, SyncFailed);
          return SyncFailed, works, n, 0;
        }
        if dbHeight >= it.frontier.value {
          StopsBefore(script, k, n, SyncDone(it.frontier.value));
          return SyncDone(it.frontier.value), works, n, 0;
        }
        var startHeight := if dbHeight == 0 then 1 else dbHeight + 1;
        var momentums := it.serve(startHeight);
        if momentums.None? {
          StopsBefore(script, k, n, SyncFailed);
          return SyncFailed, works, n, 0;
        }
        var end;
        end, works, done := ProcessList(momentums.value, it.outcomes, it.lookups, old(db), old(emitted), works, k);
        if end.Some? {
          StopsWithin(script, k, n, done, end.value, momentums.value);
          return end.value, works, n, done;
        }
        ServedOne(script, k, n, momentums.value);
        GoesOn(script, k, n);
        at := n + 1;
      }
      RunsOut(script, k);
      r, done := SyncCancelled, 0;
    }

    /** The heights Backfill lists: missing below the latest, or stored with fewer blocks than tx_count. */
    method ListHeights() returns (heights: seq<nat>)
      ensures IsBackfillList(heights, db)
    {
      heights := [];
      var latest := GetLatestHeight();
      for h := 0 to latest + 1
        invariant forall x: nat :: x in heights <==> x < h && NeedsBackfill(db, x)
        invariant forall i, j | 0 <= i < j < |heights| :: heights[i] < heights[j]
      {
        if (h !in db.momentums && h >= 1) || (h in db.momentums && StoredBlocks(db.blocks, h) < db.momentums[h].txCount) {
          MissingIsNeeded(db, h, latest);
          assert forall i | 0 <= i < |heights| :: heights[i] in heights;
          heights := heights + [h];
        }
      }
      AboveLatest(db, latest);
    }

    /** One fetched momentum: the batch, or else the row alone. */
    method BackfillOne(m: Momentum, a: Answer)
      requires a.Fetched? && a.m == m
      modifies this
      ensures db.momentums == if Writes(a) && m.height !in old(db).momentums
                              then old(db).momentums[m.height := MomentumRow(m.hash, m.ts, |m.content|)]
                              else old(db).momentums
      ensures db == Answered(old(db), a)
      ensures emitted == old(emitted) + if webhooks && a.commits then EventsOf(m) else []
    {
      ghost var before := db;
      var committed := ProcessMomentum(m, a.env, a.commits);
      CommitHeights(before, m, a.env);
      if !committed && a.directOk {
        db := Exec(db, InsertMomentum(m.height, MomentumRow(m.hash, m.ts, |m.content|)));
      }
    }

    /**
    Backfill.  `readable` is false when the query fails, `alive(n)` false when the context is done before the
    n-th height.  The first `done` listed heights are worked on.
    */
    method Backfill(readable: bool, alive: nat -> bool, answers: seq<Answer>)
      returns (ok: bool, ghost heights: seq<nat>, ghost done: nat)
      requires forall hs | IsBackfillList(hs, db) :: AnswersFor(answers, hs)
      modifies this
      ensures IsBackfillList(heights, old(db)) && |answers| == |heights| && done <= |heights|
      ensures ok <==> readable && done == |heights|
      ensures !readable ==> done == 0
      ensures readable && done < |heights| ==> !alive(done)
      ensures Filled(old(db).momentums, db.momentums, heights, answers, done)
      ensures db == AnswerRun(old(db), answers[..done]) && SameData(BlockRun(old(db), AnswerItems(answers[..done])), db)
      ensures emitted == old(emitted) + if webhooks then AnsweredEvents(answers[..done]) else []
    {
      hide Answered, BlockRun, AnswerItems, SameData, EventsOf, NeedsBackfill;
      var todo := ListHeights();
      heights, done, ok := todo, 0, false;
      assert answers[..0] == [];
      BackfillIsBlockRun(db, answers[..0]);
      if !readable {
        return;
      }
      for n := 0 to |todo|
        invariant done == n && Filled(old(db).momentums, db.momentums, todo, answers, n)
        invariant db == AnswerRun(old(db), answers[..n]) && SameData(BlockRun(old(db), AnswerItems(answers[..n])), db)
        invariant emitted == old(emitted) + if webhooks then AnsweredEvents(answers[..n]) else []
      {
        if !alive(n) {
          return;
        }
        AnsweredEventsOne(answers, n, old(emitted));
        ghost var before := db.momentums;
        if answers[n].Fetched? {
          BackfillOne(answers[n].m, answers[n]);
        }
        FilledOne(old(db).momentums, before, db.momentums, todo, answers, n);
        AnswerRunOne(old(db), answers, n);
        BackfillIsBlockRun(old(db), answers[..n + 1]);
        done := n + 1;
      }
      assert answers[..|todo|] == answers;
      ok := true;
    }
  }
}
