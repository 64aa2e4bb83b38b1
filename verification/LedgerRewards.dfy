/**
cumulative_rewards against reward_transactions: the live path inserts or ignores the row but always adds
the amount; the backfill script adds only for the rows it inserted (scripts/backfill-rewards/main.go).
*/
module LedgerRewards {
  import opened Wrappers
  import opened Ledger
  import opened LedgerEffects
  import opened LedgerRuns

  /** The sum the cumulative row caches. */
  function RewardSum(rows: seq<RewardRow>, key: RewardKey): int {
    if rows == [] then 0
    else RewardSum(rows[..|rows| - 1], key) + if rows[|rows| - 1].key == key then rows[|rows| - 1].amount else 0
  }

  predicate Conserved(db: Db, key: RewardKey) {
    Cumulative(db, key) == RewardSum(db.rewards, key)
  }

  /** What the live path added for rewards whose row was already there. */
  function CountedTwice(db: Db, items: seq<Item>, key: RewardKey): int {
    if items == [] then 0 else
      var n := |items| - 1;
      var r := RewardOf(items[n].b, items[n].env);
      CountedTwice(db, items[..n], key)
      + if r.Some? && r.value.key == key && HasReward(BlockRun(db, items[..n]).rewards, r.value.hash) then r.value.amount else 0
  }

  lemma {:induction false} RewardedSum(db: Db, r: RewardRow, key: RewardKey)
    ensures var k := Rewarded(db, r); var mine := if r.key == key then r.amount else 0;
      && Cumulative(k, key) == Cumulative(db, key) + mine
      && RewardSum(k.rewards, key) == RewardSum(db.rewards, key) + if HasReward(db.rewards, r.hash) then 0 else mine
  {
    assert (db.rewards + [r])[..|db.rewards|] == db.rewards;
  }

  /** How far the cached amount is from the sum it caches. */
  function Drift(db: Db, key: RewardKey): int {
    Cumulative(db, key) - RewardSum(db.rewards, key)
  }

  /** Every live run moves the drift by what was counted twice, and by nothing else. */
  lemma {:induction false} LiveDrift(db: Db, items: seq<Item>, key: RewardKey)
    ensures Drift(BlockRun(db, items), key) == Drift(db, key) + CountedTwice(db, items, key)
  {
    if items != [] {
      var n := |items| - 1;
      var it, j, k := items[n], BlockRun(db, items[..n]), BlockRun(db, items);
      LiveDrift(db, items[..n], key);
      RewardColumns(j, it.b, it.m, it.env);
      var r := RewardOf(it.b, it.env);
      if r.Some? {
        RewardedSum(j, r.value, key);
        assert Cumulative(k, key) == Cumulative(Rewarded(j, r.value), key);
      } else {
        assert Cumulative(k, key) == Cumulative(j, key);
      }
    }
  }

  /** Every live run: cumulative rewards are the sum of the rows plus what was counted twice. */
  lemma {:induction false} RewardsExact(db: Db, items: seq<Item>, key: RewardKey)
    requires Conserved(db, key)
    ensures var k := BlockRun(db, items); Cumulative(k, key) == RewardSum(k.rewards, key) + CountedTwice(db, items, key)
  {
    LiveDrift(db, items, key);
  }

  /** No block is processed twice, nor one whose reward was recorded before the run. */
  predicate RewardedOnce(db: Db, items: seq<Item>) {
    && (forall i, j | 0 <= i < j < |items| :: items[i].b.hash != items[j].b.hash)
    && (forall i | 0 <= i < |items| :: !HasReward(db.rewards, items[i].b.hash))
  }

  lemma {:induction false} RecordedByRun(db: Db, items: seq<Item>, hash: string)
    requires HasReward(BlockRun(db, items).rewards, hash)
    ensures HasReward(db.rewards, hash) || exists i :: 0 <= i < |items| && items[i].b.hash == hash
  {
    if items != [] {
      var n := |items| - 1;
      var it, j := items[n], BlockRun(db, items[..n]);
      RewardColumns(j, it.b, it.m, it.env);
      if it.b.hash != hash {
        assert HasReward(j.rewards, hash) by {
          var k := BlockRun(db, items).rewards;
          var i :| 0 <= i < |k| && k[i].hash == hash;
          assert i < |j.rewards| && j.rewards[i] == k[i];
        }
        RecordedByRun(db, items[..n], hash);
        if i :| 0 <= i < n && items[..n][i].b.hash == hash { assert items[i].b.hash == hash; }
      }
    }
  }

  lemma {:induction false} NothingCountedTwice(db: Db, items: seq<Item>, key: RewardKey)
    requires RewardedOnce(db, items)
    ensures CountedTwice(db, items, key) == 0
  {
    if items != [] {
      var n := |items| - 1;
      NothingCountedTwice(db, items[..n], key);
      var r := RewardOf(items[n].b, items[n].env);
      if r.Some? && HasReward(BlockRun(db, items[..n]).rewards, r.value.hash) {
        RecordedByRun(db, items[..n], r.value.hash);
      }
    }
  }

  /** On runs that commit each block once, cumulative rewards are conserved. */
  lemma {:induction false} RewardsConserved(db: Db, works: seq<Work>, key: RewardKey)
    requires Conserved(db, key) && RewardedOnce(db, Items(works))
    ensures Conserved(RunAll(db, works), key)
  {
    RunIsBlockRun(db, works);
    RewardsExact(db, Items(works), key);
    NothingCountedTwice(db, Items(works), key);
  }

  // ----- The backfill script -----

  /** determineRewardType of the script: no delegation split, and the treasury is a liquidity source. */
  function ScriptRewardType(source: string): RewardType {
    if source == PILLAR_ADDRESS then Pillar
    else if source == SENTINEL_ADDRESS then Sentinel
    else if source == STAKE_ADDRESS then Stake
    else if source == LIQUIDITY_TREASURY_ADDRESS || source == LIQUIDITY_ADDRESS then Liquidity
    else UnknownReward
  }

  /** One candidate receive; `amount` is None when its text does not parse. */
  datatype Candidate = Candidate(hash: string, address: string, source: string, amount: Option<int>, token: string)

  function ScriptReward(c: Candidate): Option<RewardRow> {
    if c.amount.None? || ScriptRewardType(c.source) == UnknownReward then None
    else Some(RewardRow(c.hash, RewardKey(c.address, ScriptRewardType(c.source), c.token), c.amount.value, c.source))
  }

  function Backfilled(db: Db, c: Candidate): Db {
    match ScriptReward(c)
    case None => db
    case Some(r) => if HasReward(db.rewards, r.hash) then db else Rewarded(db, r)
  }

  function BackfilledAll(db: Db, cs: seq<Candidate>): Db {
    if cs == [] then db else Backfilled(BackfilledAll(db, cs[..|cs| - 1]), cs[|cs| - 1])
  }

  lemma {:induction false} BackfilledOne(db: Db, cs: seq<Candidate>, n: nat)
    requires n < |cs|
    ensures BackfilledAll(db, cs[..n + 1]) == Backfilled(BackfilledAll(db, cs[..n]), cs[n])
  {
    assert cs[..n + 1][..n] == cs[..n];
  }

  datatype Fault = NoFault | InsertFails | CumulativeFails

  /** The tables a run leaves that ends at a candidate: only a row whose amount was not added is new. */
  function Stopped(before: Db, c: Candidate, fault: Fault): Db
    requires ScriptReward(c).Some?
  {
    if fault == CumulativeFails && !HasReward(before.rewards, c.hash)
    then before.(rewards := before.rewards + [ScriptReward(c).value]) else before
  }

  /** The candidate is a reward, and a statement that is run for it fails. */
  predicate Bites(before: Db, c: Candidate, fault: Fault) {
    ScriptReward(c).Some? && (fault == InsertFails || (fault == CumulativeFails && !HasReward(before.rewards, c.hash)))
  }

  /** The first n candidates were recorded, or were no rewards. */
  ghost predicate NoneBites(db: Db, cs: seq<Candidate>, faults: seq<Fault>, n: nat)
    requires n <= |cs| == |faults|
  {
    forall k | 0 <= k < n :: !Bites(BackfilledAll(db, cs[..k]), cs[k], faults[k])
  }

  lemma {:induction false} NoneBitesYet(db: Db, cs: seq<Candidate>, faults: seq<Fault>, n: nat)
    requires n <= |cs| == |faults|
    requires n > 0 ==> NoneBites(db, cs, faults, n - 1) && !Bites(BackfilledAll(db, cs[..n - 1]), cs[n - 1], faults[n - 1])
    ensures NoneBites(db, cs, faults, n)
  {
  }

  lemma {:induction false} NoCandidate(before: Db, c: Candidate, fault: Fault)
    ensures ScriptReward(c).None? ==> Backfilled(before, c) == before && !Bites(before, c, fault)
  {
  }

  /** What Record's outcomes mean for the run. */
  lemma {:induction false} CandidateDone(before: Db, after: Db, c: Candidate, r: RewardRow, fault: Fault, ok: bool)
    requires ScriptReward(c) == Some(r)
    requires var there := HasReward(before.rewards, r.hash);
      && (fault == InsertFails ==> !ok && after == before)
      && (fault != InsertFails && there ==> ok && after == before)
      && (fault == CumulativeFails && !there ==> !ok && after == before.(rewards := before.rewards + [r]))
      && (fault == NoFault && !there ==> ok && after == Rewarded(before, r))
    ensures ok ==> after == Backfilled(before, c) && !Bites(before, c, fault)
    ensures !ok ==> fault != NoFault && after == Stopped(before, c, fault)
                    && (fault == CumulativeFails ==> !HasReward(before.rewards, c.hash))
  {
  }

  class RewardTables {
    var rewards: seq<RewardRow>
    var cumulative: map<RewardKey, int>

    function Tables(db: Db): Db reads this {
      db.(rewards := rewards, cumulative := cumulative)
    }

    constructor (db: Db)
      ensures Tables(db) == db
    {
      rewards, cumulative := db.rewards, db.cumulative;
    }

    /** The run ended at candidate `c`. */
    ghost predicate Ended(db: Db, before: Db, c: Candidate, fault: Fault) reads this {
      && ScriptReward(c).Some? && fault != NoFault
      && (fault == CumulativeFails ==> !HasReward(before.rewards, c.hash))
      && Tables(db) == Stopped(before, c, fault)
    }

    method InsertRow(r: RewardRow) returns (rowsAffected: nat)
      modifies this`rewards
      ensures rowsAffected == (if HasReward(old(rewards), r.hash) then 0 else 1)
      ensures rewards == if HasReward(old(rewards), r.hash) then old(rewards) else old(rewards) + [r]
    {
      var k := 0;
      while k < |rewards|
        invariant 0 <= k <= |rewards| && forall j | 0 <= j < k :: rewards[j].hash != r.hash
      {
        if rewards[k].hash == r.hash {
          return 0;
        }
        k := k + 1;
      }
      rewards := rewards + [r];
      rowsAffected := 1;
    }

    method AddAmount(r: RewardRow)
      modifies this`cumulative
      ensures cumulative == old(cumulative)[r.key := (if r.key in old(cumulative) then old(cumulative)[r.key] else 0) + r.amount]
    {
      var before := if r.key in cumulative then cumulative[r.key] else 0;
      cumulative := cumulative[r.key := before + r.amount];
    }

    /** The two statements for one candidate row; the second runs only if the first inserted something. */
    method Record(r: RewardRow, fault: Fault, ghost db: Db) returns (inserted: nat, added: nat, ok: bool)
      modifies this
      ensures var before := old(Tables(db)); var there := HasReward(before.rewards, r.hash);
        && (fault == InsertFails ==> !ok && Tables(db) == before && inserted == 0 && added == 0)
        && (fault != InsertFails && there ==> ok && Tables(db) == before && inserted == 0 && added == 0)
        && (fault == CumulativeFails && !there ==>
              !ok && Tables(db) == before.(rewards := before.rewards + [r]) && inserted == 1 && added == 0)
        && (fault == NoFault && !there ==> ok && Tables(db) == Rewarded(before, r) && inserted == 1 && added == 1)
      ensures |rewards| == |old(rewards)| + inserted
    {
      inserted, added, ok := 0, 0, false;
      if fault == InsertFails {
        return;
      }
      var rowsAffected := InsertRow(r);
      if rowsAffected > 0 {
        inserted := 1;
        if fault == CumulativeFails {
          return;
        }
        AddAmount(r);
        added := 1;
      }
      ok := true;
    }

    /**
    backfill: each statement is its own transaction, and the first that fails ends the run at `stop`.
    */
    method Backfill(db: Db, cs: seq<Candidate>, faults: seq<Fault>)
      returns (inserted: nat, added: nat, ok: bool, stop: nat)
      requires Tables(db) == db && |faults| == |cs|
      modifies this
      ensures stop <= |cs| && (ok <==> stop == |cs|)
      ensures ok ==> Tables(db) == BackfilledAll(db, cs)
      ensures (forall k | 0 <= k < |cs| :: faults[k] == NoFault) ==> ok
      ensures !ok ==>
                Ended(db, BackfilledAll(db, cs[..stop]), cs[stop], faults[stop])
      ensures NoneBites(db, cs, faults, stop)
      ensures inserted == |rewards| - |old(rewards)|
      ensures inserted == added + if !ok && faults[stop] == CumulativeFails then 1 else 0
    {
      hide Rewarded, HasReward, Backfilled, Stopped, Bites, NoneBites;
      NoneBitesYet(db, cs, faults, 0);
      inserted, added, ok, stop := 0, 0, true, 0;
      while ok && stop < |cs|
        invariant stop <= |cs|
        invariant ok ==> Tables(db) == BackfilledAll(db, cs[..stop])
        invariant !ok ==> stop < |cs| && Ended(db, BackfilledAll(db, cs[..stop]), cs[stop], faults[stop])
        invariant NoneBites(db, cs, faults, stop)
        invariant inserted == |rewards| - |old(rewards)|
        invariant inserted == added + if !ok && faults[stop] == CumulativeFails then 1 else 0
        decreases |cs| - stop, ok
      {
        BackfilledOne(db, cs, stop);
        var r := ScriptReward(cs[stop]);
        NoCandidate(BackfilledAll(db, cs[..stop]), cs[stop], faults[stop]);
        if r.Some? {
          ghost var before := Tables(db);
          var i, a, went := Record(r.value, faults[stop], db);
          CandidateDone(before, Tables(db), cs[stop], r.value, faults[stop], went);
          inserted, added, ok := inserted + i, added + a, went;
        }
        if ok {
          NoneBitesYet(db, cs, faults, stop + 1);
          stop := stop + 1;
        }
      }
      assert ok ==> cs[..stop] == cs;
    }
  }

  /** A script run without faults leaves the drift as it is. */
  lemma {:induction false} ScriptDrift(db: Db, cs: seq<Candidate>, key: RewardKey)
    ensures Drift(BackfilledAll(db, cs), key) == Drift(db, key)
  {
    if cs != [] {
      var n := |cs| - 1;
      ScriptDrift(db, cs[..n], key);
      var r := ScriptReward(cs[n]);
      if r.Some? { RewardedSum(BackfilledAll(db, cs[..n]), r.value, key); }
    }
  }

  /** An error-free script run preserves conservation from any state in which it holds. */
  lemma {:induction false} ScriptConserves(db: Db, cs: seq<Candidate>, key: RewardKey)
    requires Conserved(db, key)
    ensures Conserved(BackfilledAll(db, cs), key)
  {
    ScriptDrift(db, cs, key);
  }

  lemma {:induction false} StoppedDrift(db: Db, c: Candidate, fault: Fault, key: RewardKey)
    requires ScriptReward(c).Some?
    ensures var r := ScriptReward(c).value;
      Drift(Stopped(db, c, fault), key) ==
      Drift(db, key) - if fault == CumulativeFails && !HasReward(db.rewards, c.hash) && r.key == key then r.amount else 0
  {
    assert (db.rewards + [ScriptReward(c).value])[..|db.rewards|] == db.rewards;
  }

  /**
  A run that a fault ends at candidate `stop` keeps the totals conserved exactly unless it dies between the two
  statements of a new row of that key with a nonzero amount.
  */
  lemma {:induction false} FaultyScriptExact(db: Db, cs: seq<Candidate>, stop: nat, fault: Fault, key: RewardKey)
    requires Conserved(db, key) && stop < |cs| && ScriptReward(cs[stop]).Some?
    ensures var before, r := BackfilledAll(db, cs[..stop]), ScriptReward(cs[stop]).value;
      Conserved(Stopped(before, cs[stop], fault), key) <==>
      !(fault == CumulativeFails && !HasReward(before.rewards, cs[stop].hash) && r.key == key && r.amount != 0)
  {
    ScriptDrift(db, cs[..stop], key);
    StoppedDrift(BackfilledAll(db, cs[..stop]), cs[stop], fault, key);
  }

  // ----- What happens to a loss -----

  datatype Later = Script(cs: seq<Candidate>) | Live(works: seq<Work>)

  function AfterLater(db: Db, later: seq<Later>): Db {
    if later == [] then db else
      var before := AfterLater(db, later[..|later| - 1]);
      match later[|later| - 1]
      case Script(cs) => BackfilledAll(before, cs)
      case Live(works) => RunAll(before, works)
  }

  /** The live runs process only blocks whose rewards are not recorded yet, each once. */
  predicate LiveOnce(db: Db, later: seq<Later>) {
    later == [] ||
    (LiveOnce(db, later[..|later| - 1])
     && match later[|later| - 1]
        case Script(_) => true
        case Live(works) => RewardedOnce(AfterLater(db, later[..|later| - 1]), Items(works)))
  }

  /** No script rerun and no live run repairs it: the totals are as far off as they were. */
  lemma {:induction false} DriftStays(db: Db, later: seq<Later>, key: RewardKey)
    requires LiveOnce(db, later)
    ensures Drift(AfterLater(db, later), key) == Drift(db, key)
  {
    if later != [] {
      var before := AfterLater(db, later[..|later| - 1]);
      DriftStays(db, later[..|later| - 1], key);
      match later[|later| - 1]
      case Script(cs) => ScriptDrift(before, cs, key);
      case Live(works) =>
        RunIsBlockRun(before, works);
        LiveDrift(before, Items(works), key);
        NothingCountedTwice(before, Items(works), key);
    }
  }

  /** The amount a faulty run lost stays lost. */
  lemma {:induction false} FaultyScriptLosesForGood(db: Db, cs: seq<Candidate>, stop: nat, later: seq<Later>, key: RewardKey)
    requires Conserved(db, key) && stop < |cs| && ScriptReward(cs[stop]).Some?
    requires var r := ScriptReward(cs[stop]).value; r.key == key && r.amount != 0
    requires !HasReward(BackfilledAll(db, cs[..stop]).rewards, cs[stop].hash)
    requires LiveOnce(Stopped(BackfilledAll(db, cs[..stop]), cs[stop], CumulativeFails), later)
    ensures !Conserved(AfterLater(Stopped(BackfilledAll(db, cs[..stop]), cs[stop], CumulativeFails), later), key)
  {
    var lost := Stopped(BackfilledAll(db, cs[..stop]), cs[stop], CumulativeFails);
    FaultyScriptExact(db, cs, stop, CumulativeFails, key);
    DriftStays(lost, later, key);
  }

  predicate AllRecorded(db: Db, cs: seq<Candidate>) {
    forall k | 0 <= k < |cs| && ScriptReward(cs[k]).Some? :: HasReward(db.rewards, cs[k].hash)
  }

  lemma {:induction false} RecordedStays(db: Db, c: Candidate, hash: string)
    requires HasReward(db.rewards, hash)
    ensures HasReward(Backfilled(db, c).rewards, hash)
  {
    var i :| 0 <= i < |db.rewards| && db.rewards[i].hash == hash;
    assert Backfilled(db, c).rewards[i] == db.rewards[i];
  }

  lemma {:induction false} ScriptRecords(db: Db, cs: seq<Candidate>)
    ensures AllRecorded(BackfilledAll(db, cs), cs)
  {
    if cs != [] {
      var n := |cs| - 1;
      var j, k := BackfilledAll(db, cs[..n]), BackfilledAll(db, cs);
      ScriptRecords(db, cs[..n]);
      forall i | 0 <= i < |cs| && ScriptReward(cs[i]).Some? ensures HasReward(k.rewards, cs[i].hash) {
        if i < n {
          assert cs[..n][i] == cs[i];
          RecordedStays(j, cs[n], cs[i].hash);
        } else if !HasReward(j.rewards, cs[n].hash) {
          assert k.rewards[|j.rewards|].hash == cs[n].hash;
        }
      }
    }
  }

  lemma {:induction false} NothingLeft(db: Db, cs: seq<Candidate>)
    requires AllRecorded(db, cs)
    ensures BackfilledAll(db, cs) == db
  {
    if cs != [] {
      var n := |cs| - 1;
      assert forall k | 0 <= k < n :: cs[..n][k] == cs[k];
      NothingLeft(db, cs[..n]);
    }
  }

  function Reruns(db: Db, cs: seq<Candidate>, times: nat): Db {
    if times == 0 then db else BackfilledAll(Reruns(db, cs, times - 1), cs)
  }

  /** Any number of reruns equals one run. */
  lemma {:induction false} RerunsAreOneRun(db: Db, cs: seq<Candidate>, times: nat)
    requires times >= 1
    ensures Reruns(db, cs, times) == BackfilledAll(db, cs)
  {
    if times > 1 {
      RerunsAreOneRun(db, cs, times - 1);
      ScriptRecords(db, cs);
      NothingLeft(BackfilledAll(db, cs), cs);
    } else {
      assert Reruns(db, cs, 0) == db;
    }
  }
}
