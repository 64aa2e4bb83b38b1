/**
The delegations table against accounts.delegate (internal/indexer/embedded.go:105-129): for events in any
order and with repeats, from any blocks whatever.
*/
module LedgerDelegations {
  import opened Wrappers
  import opened Ledger
  import opened LedgerEffects
  import opened LedgerRuns

  predicate Open(row: Interval, delegator: string) {
    row.delegator == delegator && row.ended.None?
  }

  function OpenCount(rows: seq<Interval>, delegator: string): nat {
    if rows == [] then 0
    else OpenCount(rows[..|rows| - 1], delegator) + if Open(rows[|rows| - 1], delegator) then 1 else 0
  }

  /** GetActivePillarFor: the pillar of an open interval, "" when there is none. */
  function OpenPillar(rows: seq<Interval>, delegator: string): string {
    if rows == [] then ""
    else if Open(rows[|rows| - 1], delegator) then rows[|rows| - 1].pillar
    else OpenPillar(rows[..|rows| - 1], delegator)
  }

  /** CountActiveByPillar. */
  function CountActive(rows: seq<Interval>, pillar: string): nat {
    if rows == [] then 0
    else CountActive(rows[..|rows| - 1], pillar)
         + if rows[|rows| - 1].pillar == pillar && rows[|rows| - 1].ended.None? then 1 else 0
  }

  /** The accounts ListDelegators counts. */
  function Delegators(db: Db, pillar: string): set<string> {
    set a | a in db.accounts && db.accounts[a].delegate == pillar
  }

  lemma {:induction false} ClosedFacts(rows: seq<Interval>, closed: string, ts: int, delegator: string)
    ensures var k := CloseIntervals(rows, closed, ts);
      && OpenCount(k, delegator) == (if delegator == closed then 0 else OpenCount(rows, delegator))
      && OpenPillar(k, delegator) == (if delegator == closed then "" else OpenPillar(rows, delegator))
  {
    if rows != [] {
      var n := |rows| - 1;
      assert CloseIntervals(rows, closed, ts)[..n] == CloseIntervals(rows[..n], closed, ts);
      ClosedFacts(rows[..n], closed, ts, delegator);
    }
  }

  lemma {:induction false} MovedFacts(rows: seq<Interval>, e: Event, ts: int, delegator: string)
    ensures var k := Moved(rows, e, ts);
      && OpenCount(k, delegator) ==
         (if delegator == e.delegator then (if e.pillar == "" then 0 else 1) else OpenCount(rows, delegator))
      && OpenPillar(k, delegator) == (if delegator == e.delegator then e.pillar else OpenPillar(rows, delegator))
  {
    ClosedFacts(rows, e.delegator, ts, delegator);
    var closed := CloseIntervals(rows, e.delegator, ts);
    if e.pillar == "" {
      assert closed + [] == closed;
    } else {
      assert (closed + [Interval(e.delegator, e.pillar, ts, None)])[..|closed|] == closed;
    }
  }

  // ----- What a block does, in terms of its own fields -----

  /** The pillar contract receives a call from somebody. */
  predicate CallsPillar(b: Block, operation: string) {
    && b.blockType == ContractReceive && b.address == PILLAR_ADDRESS
    && b.paired.Some? && b.paired.value.call.Some? && b.paired.value.call.value.operation == operation
  }

  predicate NamesOwner(b: Block, env: Lookups, owner: string)
    requires b.paired.Some? && b.paired.value.call.Some?
  {
    var name := b.paired.value.call.value.pillarName;
    name != "" && name in env.pillarOwners && env.pillarOwners[name] == owner && owner != ""
  }

  /** The open interval of the delegator, if any, ends now; nothing else changes. */
  predicate Ends(before: seq<Interval>, after: seq<Interval>, delegator: string, ts: int) {
    |after| == |before| && forall i | 0 <= i < |before| ::
      after[i] == if before[i].delegator == delegator && before[i].ended == None then before[i].(ended := Some(ts)) else before[i]
  }

  /** An Undelegate that the pillar contract receives ends the sender's delegation. */
  lemma {:induction false} UndelegateEnds(db: Db, b: Block, m: Momentum, env: Lookups)
    requires CallsPillar(b, "Undelegate")
    ensures var k, d := ApplyBlock(db, b, m, env), b.paired.value.address;
      && Ends(db.delegations, k.delegations, d, m.ts)
      && OpenCount(k.delegations, d) == 0 && OpenPillar(k.delegations, d) == "" && Account(k, d).delegate == ""
      && forall a | a != d :: Account(k, a).delegate == Account(db, a).delegate
  {
    var k, e := ApplyBlock(db, b, m, env), Event(b.paired.value.address, "");
    assert EventOf(b, m, env) == Some(e);
    forall a
      ensures Account(k, a).delegate == if a == e.delegator then "" else Account(db, a).delegate
    {
      DelegationColumns(db, b, m, env, a);
      if !Known(db, b, a) {
        assert Account(db, a) == NEW_ACCOUNT;
      }
    }
    DelegationColumns(db, b, m, env, e.delegator);
    MovedFacts(db.delegations, e, m.ts, e.delegator);
    assert CloseIntervals(db.delegations, e.delegator, m.ts) + [] == CloseIntervals(db.delegations, e.delegator, m.ts);
  }

  /** A Delegate to a pillar whose owner is known ends the sender's delegation and opens one to the owner. */
  lemma {:induction false} DelegateMoves(db: Db, b: Block, m: Momentum, env: Lookups, owner: string)
    requires CallsPillar(b, "Delegate") && NamesOwner(b, env, owner)
    ensures var k, d, n := ApplyBlock(db, b, m, env), b.paired.value.address, |db.delegations|;
      && |k.delegations| == n + 1 && Ends(db.delegations, k.delegations[..n], d, m.ts)
      && k.delegations[n] == Interval(d, owner, m.ts, None)
      && OpenCount(k.delegations, d) == 1 && OpenPillar(k.delegations, d) == owner
      && (forall a | a != d :: Account(k, a).delegate == Account(db, a).delegate)
      && Account(k, d).delegate == if d in db.accounts || d == b.address || (d == b.toAddress && d != "") then owner else ""
  {
    var k, e := ApplyBlock(db, b, m, env), Event(b.paired.value.address, owner);
    assert EventOf(b, m, env) == Some(e);
    forall a
      ensures Account(k, a).delegate == if a == e.delegator && Known(db, b, a) then owner else Account(db, a).delegate
    {
      DelegationColumns(db, b, m, env, a);
    }
    DelegationColumns(db, b, m, env, e.delegator);
    MovedFacts(db.delegations, e, m.ts, e.delegator);
    assert Moved(db.delegations, e, m.ts)[..|db.delegations|] == CloseIntervals(db.delegations, e.delegator, m.ts);
  }

  /** No other block touches a delegation: neither the history nor any account's column. */
  lemma {:induction false} NothingElseDelegates(db: Db, b: Block, m: Momentum, env: Lookups)
    requires !CallsPillar(b, "Undelegate")
    requires !(CallsPillar(b, "Delegate") && exists owner :: NamesOwner(b, env, owner))
    ensures var k := ApplyBlock(db, b, m, env);
      k.delegations == db.delegations && forall a :: Account(k, a).delegate == Account(db, a).delegate
  {
    var k := ApplyBlock(db, b, m, env);
    if CallsPillar(b, "Delegate") && b.paired.value.call.value.pillarName in env.pillarOwners {
      assert !NamesOwner(b, env, env.pillarOwners[b.paired.value.call.value.pillarName]);
    }
    assert EventOf(b, m, env) == None;
    forall a
      ensures Account(k, a).delegate == Account(db, a).delegate
    {
      DelegationColumns(db, b, m, env, a);
    }
    DelegationColumns(db, b, m, env, "");
  }

  /** At most one open interval, on every run and for every delegator, known or not. */
  lemma {:induction false} OneOpenInterval(db: Db, items: seq<Item>, delegator: string)
    requires OpenCount(db.delegations, delegator) <= 1
    ensures OpenCount(BlockRun(db, items).delegations, delegator) <= 1
  {
    if items != [] {
      var n := |items| - 1;
      var it, j := items[n], BlockRun(db, items[..n]);
      OneOpenInterval(db, items[..n], delegator);
      DelegationColumns(j, it.b, it.m, it.env, delegator);
      var e := EventOf(it.b, it.m, it.env);
      if e.Some? { MovedFacts(j.delegations, e.value, it.m.ts, delegator); }
    }
  }

  /** accounts.delegate names the open interval's pillar; an absent row reads as "". */
  predicate Agrees(db: Db, delegator: string) {
    Account(db, delegator).delegate == OpenPillar(db.delegations, delegator)
  }

  /** The delegator's last event found its accounts row, or had nothing to set. */
  predicate Landed(db: Db, items: seq<Item>, delegator: string) {
    if items == [] then Agrees(db, delegator) else
      var n := |items| - 1;
      var e := EventOf(items[n].b, items[n].m, items[n].env);
      if e.Some? && e.value.delegator == delegator
      then e.value.pillar == "" || Known(BlockRun(db, items[..n]), items[n].b, delegator)
      else Landed(db, items[..n], delegator)
  }

  lemma {:induction false} AgreesStep(j: Db, k: Db, e: Option<Event>, ts: int, delegator: string, known: bool)
    requires k.delegations == if e.None? then j.delegations else Moved(j.delegations, e.value, ts)
    requires Account(k, delegator).delegate ==
             if e.Some? && e.value.delegator == delegator && known then e.value.pillar else Account(j, delegator).delegate
    requires !known ==> Account(j, delegator).delegate == ""
    ensures Agrees(k, delegator) <==>
            if e.Some? && e.value.delegator == delegator then e.value.pillar == "" || known else Agrees(j, delegator)
  {
    if e.Some? { MovedFacts(j.delegations, e.value, ts, delegator); }
  }

  /**
  Exactly when the delegate column agrees with the history: for every delegator and every run, when its
  last Delegate found an accounts row.
  */
  lemma {:induction false} DelegateAgreesExact(db: Db, items: seq<Item>, delegator: string)
    ensures Agrees(BlockRun(db, items), delegator) <==> Landed(db, items, delegator)
  {
    if items != [] {
      var n := |items| - 1;
      var it, j := items[n], BlockRun(db, items[..n]);
      DelegateAgreesExact(db, items[..n], delegator);
      DelegationColumns(j, it.b, it.m, it.env, delegator);
      AgreesStep(j, BlockRun(db, items), EventOf(it.b, it.m, it.env), it.m.ts, delegator, Known(j, it.b, delegator));
    }
  }

  /** The pillar contract's receive of a Delegate whose send block the node did not return: no accounts row yet. */
  lemma {:induction false} UnknownDelegatorWitness() returns (items: seq<Item>)
    ensures !Agrees(BlockRun(EMPTY_DB, items), "delegator")
  {
    var send := Paired("send", UserSend, "delegator", None, EMPTY_TOKEN, Some(Call("Delegate", "pillar")));
    var b := Block("receive", ContractReceive, PILLAR_ADDRESS, EMPTY_ADDRESS, None, EMPTY_TOKEN, Some(send), []);
    var it := Item(b, Momentum(2, "momentum", 10, [Some(b)]), Lookups(map["pillar" := "owner"], map[]));
    items := [it];
    assert items[..0] == [] && BlockRun(EMPTY_DB, items[..0]) == EMPTY_DB;
    assert EventOf(it.b, it.m, it.env) == Some(Event("delegator", "owner"));
    assert PILLAR_ADDRESS[0] != "delegator"[0] && EMPTY_ADDRESS[0] != "delegator"[0];
    assert !Known(EMPTY_DB, it.b, "delegator");
    DelegateAgreesExact(EMPTY_DB, items, "delegator");
  }

  // ----- The two counts -----

  ghost predicate AllOpen(rows: seq<Interval>) {
    forall d :: OpenCount(rows, d) <= 1
  }

  function ActiveDelegators(rows: seq<Interval>, pillar: string): set<string> {
    set k | 0 <= k < |rows| && rows[k].pillar == pillar && rows[k].ended.None? :: rows[k].delegator
  }

  lemma {:induction false} OpenCountPositive(rows: seq<Interval>, k: nat)
    requires k < |rows| && rows[k].ended.None?
    ensures OpenCount(rows, rows[k].delegator) >= 1
  {
    if k < |rows| - 1 { OpenCountPositive(rows[..|rows| - 1], k); }
  }

  lemma {:induction false} LastIsNew(rows: seq<Interval>, pillar: string)
    requires rows != [] && rows[|rows| - 1].ended.None? && OpenCount(rows, rows[|rows| - 1].delegator) <= 1
    ensures rows[|rows| - 1].delegator !in ActiveDelegators(rows[..|rows| - 1], pillar)
  {
    var front, last := rows[..|rows| - 1], rows[|rows| - 1];
    if last.delegator in ActiveDelegators(front, pillar) {
      var k :| 0 <= k < |front| && front[k].pillar == pillar && front[k].ended.None? && front[k].delegator == last.delegator;
      OpenCountPositive(front, k);
    }
  }

  lemma {:induction false} ActiveUnfolds(rows: seq<Interval>, pillar: string)
    requires rows != []
    ensures var last := rows[|rows| - 1];
      ActiveDelegators(rows, pillar) ==
        ActiveDelegators(rows[..|rows| - 1], pillar) + if last.pillar == pillar && last.ended.None? then {last.delegator} else {}
  {
    var front, last := rows[..|rows| - 1], rows[|rows| - 1];
    forall d ensures d in ActiveDelegators(rows, pillar) <==>
        d in ActiveDelegators(front, pillar) || (last.pillar == pillar && last.ended.None? && d == last.delegator) {
      if d in ActiveDelegators(front, pillar) {
        var k :| 0 <= k < |front| && front[k].pillar == pillar && front[k].ended.None? && front[k].delegator == d;
        assert rows[k] == front[k];
      }
    }
  }

  lemma {:induction false} FrontAllOpen(rows: seq<Interval>)
    requires rows != [] && AllOpen(rows)
    ensures AllOpen(rows[..|rows| - 1])
  {
    var front := rows[..|rows| - 1];
    forall d ensures OpenCount(front, d) <= 1 { assert OpenCount(rows, d) <= 1; }
  }

  lemma {:induction false} ActiveAreCounted(rows: seq<Interval>, pillar: string)
    requires AllOpen(rows)
    ensures |ActiveDelegators(rows, pillar)| == CountActive(rows, pillar)
  {
    if rows == [] {
      assert ActiveDelegators(rows, pillar) == {};
    } else {
      FrontAllOpen(rows);
      ActiveAreCounted(rows[..|rows| - 1], pillar);
      ActiveUnfolds(rows, pillar);
      if rows[|rows| - 1].pillar == pillar && rows[|rows| - 1].ended.None? {
        LastIsNew(rows, pillar);
      }
    }
  }

  lemma {:induction false} OpenPillarOf(rows: seq<Interval>, k: nat)
    requires k < |rows| && rows[k].ended.None? && OpenCount(rows, rows[k].delegator) <= 1
    ensures OpenPillar(rows, rows[k].delegator) == rows[k].pillar
  {
    var n := |rows| - 1;
    if k < n {
      OpenCountPositive(rows[..n], k);
      OpenPillarOf(rows[..n], k);
    }
  }

  lemma {:induction false} OpenPillarIsActive(rows: seq<Interval>, delegator: string)
    requires OpenPillar(rows, delegator) != ""
    ensures delegator in ActiveDelegators(rows, OpenPillar(rows, delegator))
  {
    var n := |rows| - 1;
    if Open(rows[n], delegator) {
      assert rows[n].delegator == delegator;
    } else {
      OpenPillarIsActive(rows[..n], delegator);
      var p := OpenPillar(rows, delegator);
      var k :| 0 <= k < n && rows[..n][k].pillar == p && rows[..n][k].ended.None? && rows[..n][k].delegator == delegator;
      assert rows[k].delegator == delegator;
    }
  }

  /** From empty tables the column names the open interval's pillar or nothing. */
  lemma {:induction false} ColumnOrNothing(items: seq<Item>, delegator: string)
    ensures var k := BlockRun(EMPTY_DB, items);
      Agrees(k, delegator) || Account(k, delegator).delegate == ""
  {
    if items != [] {
      var n := |items| - 1;
      var it, j := items[n], BlockRun(EMPTY_DB, items[..n]);
      ColumnOrNothing(items[..n], delegator);
      DelegationColumns(j, it.b, it.m, it.env, delegator);
      var e := EventOf(it.b, it.m, it.env);
      AgreesStep(j, BlockRun(EMPTY_DB, items), e, it.m.ts, delegator, Known(j, it.b, delegator));
    }
  }

  lemma {:induction false} CountsAgreeIff(db: Db, pillar: string)
    requires pillar != "" && AllOpen(db.delegations)
    requires forall d :: Agrees(db, d) || Account(db, d).delegate == ""
    ensures |Delegators(db, pillar)| == CountActive(db.delegations, pillar)
            <==> forall d :: OpenPillar(db.delegations, d) == pillar ==> Agrees(db, d)
  {
    var rows, listed, active := db.delegations, Delegators(db, pillar), ActiveDelegators(db.delegations, pillar);
    ActiveAreCounted(rows, pillar);
    forall d ensures d in active <==> OpenPillar(rows, d) == pillar { ActiveIsOpen(rows, d, pillar); }
    forall d ensures d in listed <==> OpenPillar(rows, d) == pillar && Agrees(db, d) {
      assert Agrees(db, d) || Account(db, d).delegate == "";
    }
    assert listed <= active;
    SameSize(listed, active);
  }

  lemma {:induction false} SameSize(a: set<string>, b: set<string>)
    requires a <= b
    ensures |a| == |b| <==> a == b
  {
    if a != b {
      assert b == a + (b - a) && b - a != {};
      assert |b| == |a| + |b - a|;
    }
  }

  lemma {:induction false} ActiveIsOpen(rows: seq<Interval>, delegator: string, pillar: string)
    requires pillar != "" && AllOpen(rows)
    ensures delegator in ActiveDelegators(rows, pillar) <==> OpenPillar(rows, delegator) == pillar
  {
    if delegator in ActiveDelegators(rows, pillar) {
      var k :| 0 <= k < |rows| && rows[k].pillar == pillar && rows[k].ended.None? && rows[k].delegator == delegator;
      assert OpenCount(rows, delegator) <= 1;
      OpenPillarOf(rows, k);
    }
    if OpenPillar(rows, delegator) == pillar {
      OpenPillarIsActive(rows, delegator);
    }
  }

  /** From empty tables the two counts agree exactly when every Delegate behind an open interval found its row. */
  lemma {:induction false} RunCountsAgreeExact(works: seq<Work>, pillar: string)
    requires pillar != ""
    ensures var k := RunAll(EMPTY_DB, works);
      |Delegators(k, pillar)| == CountActive(k.delegations, pillar)
      <==> forall d :: OpenPillar(k.delegations, d) == pillar ==> Landed(EMPTY_DB, Items(works), d)
  {
    RunIsBlockRun(EMPTY_DB, works);
    var k, r := BlockRun(EMPTY_DB, Items(works)), RunAll(EMPTY_DB, works);
    forall d ensures OpenCount(r.delegations, d) <= 1 { OneOpenInterval(EMPTY_DB, Items(works), d); }
    forall d
      ensures Agrees(r, d) || Account(r, d).delegate == ""
      ensures Agrees(r, d) <==> Landed(EMPTY_DB, Items(works), d)
    {
      ColumnOrNothing(Items(works), d);
      DelegateAgreesExact(EMPTY_DB, Items(works), d);
      assert Agrees(r, d) <==> Agrees(k, d);
    }
    CountsAgreeIff(r, pillar);
  }

  /** ListDelegators and CountActiveByPillar give the same number for every pillar. */
  lemma {:induction false} CountsAgree(db: Db, pillar: string)
    requires pillar != "" && AllOpen(db.delegations) && forall d :: Agrees(db, d)
    ensures |Delegators(db, pillar)| == CountActive(db.delegations, pillar)
  {
    CountsAgreeIff(db, pillar);
  }

  // ----- Time -----

  /** Every delegator's intervals are disjoint and ordered, and none reaches past now. */
  ghost predicate Ordered(rows: seq<Interval>, now: int) {
    && (forall i | 0 <= i < |rows| :: rows[i].started <= now && (rows[i].ended.Some? ==> rows[i].started <= rows[i].ended.value <= now))
    && (forall i, j | 0 <= i < j < |rows| && rows[i].delegator == rows[j].delegator ::
          rows[i].ended.Some? && rows[i].ended.value <= rows[j].started)
  }

  lemma {:induction false} MovedOrdered(rows: seq<Interval>, now: int, e: Event, ts: int)
    requires Ordered(rows, now) && now <= ts
    ensures Ordered(Moved(rows, e, ts), ts)
  {
    var closed, k := CloseIntervals(rows, e.delegator, ts), Moved(rows, e, ts);
    assert forall i | 0 <= i < |closed| :: k[i] == closed[i];
    forall i, j | 0 <= i < j < |k| && k[i].delegator == k[j].delegator
      ensures k[i].ended.Some? && k[i].ended.value <= k[j].started
    {
      if j < |rows| {
        assert rows[i].ended.Some?;
      } else {
        assert rows[i].delegator == e.delegator;
      }
    }
  }

  predicate TimesAscend(items: seq<Item>, now: int) {
    && (forall i | 0 <= i < |items| :: items[i].m.ts >= now)
    && (forall i, j | 0 <= i < j < |items| :: items[i].m.ts <= items[j].m.ts)
  }

  lemma {:induction false} IntervalsOrdered(db: Db, items: seq<Item>, now: int)
    requires Ordered(db.delegations, now) && TimesAscend(items, now)
    ensures Ordered(BlockRun(db, items).delegations, if items == [] then now else items[|items| - 1].m.ts)
  {
    if items != [] {
      var n := |items| - 1;
      var it, j := items[n], BlockRun(db, items[..n]);
      IntervalsOrdered(db, items[..n], now);
      DelegationColumns(j, it.b, it.m, it.env, "");
      var before := if n == 0 then now else items[n - 1].m.ts;
      var e := EventOf(it.b, it.m, it.env);
      if e.Some? { MovedOrdered(j.delegations, before, e.value, it.m.ts); }
    }
  }
}
