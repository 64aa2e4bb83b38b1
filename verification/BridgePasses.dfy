/**
What one early-stopping bridge pass leaves behind: the whole remote list, except for requests on pages after
the one that first meets the stop height.
*/
module BridgePasses {
  import opened Bridge

  /** What the node serves: newest first, no request twice, heights from 1. */
  predicate Listing(remote: seq<Request>) {
    && (forall j, k :: 0 <= j < k < |remote| ==> remote[j].height >= remote[k].height)
    && (forall j, k :: 0 <= j < k < |remote| ==> remote[j].id != remote[k].id)
    && (forall k :: 0 <= k < |remote| ==> remote[k].height >= 1)
  }

  predicate DistinctHeights(remote: seq<Request>) {
    forall j, k :: 0 <= j < k < |remote| ==> remote[j].height != remote[k].height
  }

  predicate Lists(remote: seq<Request>, id: Id) {
    exists k :: 0 <= k < |remote| && remote[k].id == id
  }

  /** A row differs from the listed request only in its refreshable columns, and only while unfinalised. */
  predicate Follows(row: Request, r: Request) {
    row.id == r.id && row.height == r.height && row.terms == r.terms && (Unfinalised(row) || row == r)
  }

  /** Every row came from an earlier answer of the same node. */
  predicate Faithful(rows: Rows, remote: seq<Request>) {
    && (forall id :: id in rows ==> Lists(remote, id))
    && (forall k :: 0 <= k < |remote| && remote[k].id in rows ==> Follows(rows[remote[k].id], remote[k]))
  }

  /** No request at or below a stored height is missing. */
  predicate Complete(rows: Rows, remote: seq<Request>) {
    forall k, id :: 0 <= k < |remote| && id in rows && remote[k].height <= rows[id].height ==> remote[k].id in rows
  }

  predicate HoldsAll(rows: Rows, remote: seq<Request>) {
    forall k :: 0 <= k < |remote| ==> remote[k].id in rows
  }

  predicate Mirrors(rows: Rows, remote: seq<Request>) {
    && (forall id :: id in rows ==> Lists(remote, id))
    && (forall k :: 0 <= k < |remote| ==> remote[k].id in rows && rows[remote[k].id] == remote[k])
  }

  // ----- One pass -----

  lemma {:induction false} StoredAt(rows: Rows, remote: seq<Request>, stored: nat -> bool, n: nat, id: Id)
    requires Listing(remote) && n <= |remote|
    ensures id in Stored(rows, remote, stored, n)
            <==> id in rows || exists k: nat :: k < n && stored(k) && remote[k].id == id
    ensures forall k: nat :: k < n && stored(k) && remote[k].id == id ==>
                               Stored(rows, remote, stored, n)[id] ==
                               if id in rows then rows[id].(live := remote[k].live) else remote[k]
    ensures id in rows && !(exists k: nat :: k < n && stored(k) && remote[k].id == id) ==>
              Stored(rows, remote, stored, n)[id] == rows[id]
  {
    if n > 0 {
      StoredAt(rows, remote, stored, n - 1, id);
    }
  }

  /** No page before that of request k meets the stop height: a pass without faults gets to k. */
  predicate BeforeStop(remote: seq<Request>, stop: int, k: nat)
    requires k < |remote|
  {
    stop <= 0 || Page(k) == 0 || remote[Page(k) * PAGE_SIZE - 1].height > stop
  }

  lemma {:induction false} ReachesLast(remote: seq<Request>, stop: int, page: nat)
    requires Listing(remote) && (page + 1) * PAGE_SIZE <= |remote|
    ensures Reaches(remote, stop, page) <==> stop > 0 && remote[(page + 1) * PAGE_SIZE - 1].height <= stop
  {
    var last := (page + 1) * PAGE_SIZE - 1;
    assert page * PAGE_SIZE <= last < PageEnd(page, |remote|);
  }

  /** Exactly the requests a pass gets to: their pages and all before are fetched, and none before meets the stop. */
  lemma {:induction false} ScanReaches(remote: seq<Request>, stop: int, fetched: nat -> bool, page: nat, k: nat)
    requires Listing(remote) && page * PAGE_SIZE <= k < |remote| && BeforeStop(remote, stop, page * PAGE_SIZE)
    ensures k < ScanFrom(remote, stop, fetched, page).end
            <==> (forall p: nat :: page <= p <= Page(k) ==> fetched(p)) && BeforeStop(remote, stop, k)
    decreases |remote| - page * PAGE_SIZE
  {
    assert page <= Page(k);
    if page < Page(k) {
      assert (page + 1) * PAGE_SIZE <= Page(k) * PAGE_SIZE <= k;
      ReachesLast(remote, stop, page);
      assert Page((page + 1) * PAGE_SIZE) == page + 1;
      if Reaches(remote, stop, page) {
        assert remote[Page(k) * PAGE_SIZE - 1].height <= remote[(page + 1) * PAGE_SIZE - 1].height;
      } else if fetched(page) {
        ScanReaches(remote, stop, fetched, page + 1, k);
      }
    }
  }

  /** The pass gets to request k. */
  predicate Reached(remote: seq<Request>, stop: int, fetched: nat -> bool, k: nat) {
    k < |remote| && (forall p: nat :: p <= Page(k) ==> fetched(p)) && BeforeStop(remote, stop, k)
  }

  lemma {:induction false} StoredIfReached(rows: Rows, remote: seq<Request>, stop: int, fetched: nat -> bool,
                                           stored: nat -> bool, k: nat)
    requires Listing(remote) && Faithful(rows, remote) && k < |remote|
    ensures var id, after := remote[k].id, Stored(rows, remote, stored, ScanFrom(remote, stop, fetched, 0).end);
            if Reached(remote, stop, fetched, k) && stored(k) then id in after && after[id] == remote[k]
            else (id in after <==> id in rows) && (id in rows ==> after[id] == rows[id])
  {
    var end := ScanFrom(remote, stop, fetched, 0).end;
    ScanReaches(remote, stop, fetched, 0, k);
    StoredAt(rows, remote, stored, end, remote[k].id);
    assert k < end <==> Reached(remote, stop, fetched, k);
  }

  /** A pass returns nil exactly when it fetched every page up to the one it stops on. */
  lemma {:induction false} ScanOk(remote: seq<Request>, stop: int, fetched: nat -> bool, page: nat, k: nat)
    requires Listing(remote) && page * PAGE_SIZE <= k < |remote| && BeforeStop(remote, stop, k)
    requires BeforeStop(remote, stop, page * PAGE_SIZE) && ScanFrom(remote, stop, fetched, page).ok
    ensures k < ScanFrom(remote, stop, fetched, page).end
    decreases |remote| - page * PAGE_SIZE
  {
    assert page <= Page(k);
    if page < Page(k) {
      assert (page + 1) * PAGE_SIZE <= Page(k) * PAGE_SIZE <= k;
      ReachesLast(remote, stop, page);
      assert Page((page + 1) * PAGE_SIZE) == page + 1;
      assert remote[Page(k) * PAGE_SIZE - 1].height <= remote[(page + 1) * PAGE_SIZE - 1].height;
      ScanOk(remote, stop, fetched, page + 1, k);
    }
  }

  /** A pass without fetch faults asks for this page: the ones before are full, and none of them meets the stop height. */
  predicate Requested(remote: seq<Request>, stop: int, page: nat) {
    page * 100 <= |remote| && (page == 0 || stop <= 0 || remote[page * 100 - 1].height > stop)
  }

  lemma {:induction false} EarlierRequested(remote: seq<Request>, stop: int, page: nat, later: nat)
    requires Listing(remote) && page <= later
    ensures Requested(remote, stop, later) ==> Requested(remote, stop, page)
  {
    if 0 < page < later && later * 100 <= |remote| {
      assert page * 100 - 1 < later * 100 - 1 < |remote|;
      assert remote[page * 100 - 1].height >= remote[later * 100 - 1].height;
    }
  }

  /** A pass returns nil exactly when every page it asks for is fetched, the empty one after a full last page included. */
  lemma {:induction false} NilExact(remote: seq<Request>, stop: int, fetched: nat -> bool, page: nat)
    requires Listing(remote) && Requested(remote, stop, page)
    ensures ScanFrom(remote, stop, fetched, page).ok <==> forall p: nat | page <= p && Requested(remote, stop, p) :: fetched(p)
    decreases |remote| - page * 100
  {
    var goesOn := fetched(page) && (page + 1) * PAGE_SIZE <= |remote| && !Reaches(remote, stop, page);
    if (page + 1) * PAGE_SIZE <= |remote| {
      ReachesLast(remote, stop, page);
    }
    assert goesOn ==> Requested(remote, stop, page + 1);
    if goesOn {
      NilExact(remote, stop, fetched, page + 1);
    } else if fetched(page) {
      forall p: nat | page < p
        ensures !Requested(remote, stop, p)
      {
        EarlierRequested(remote, stop, page + 1, p);
      }
    }
  }

  lemma {:induction false} AboveStopUpserted(rows: Rows, remote: seq<Request>, fetched: nat -> bool, stored: nat -> bool, k: nat)
    requires Listing(remote) && k < |remote| && stored(k)
    requires ScanFrom(remote, StopHeight(rows), fetched, 0).ok
    requires StopHeight(rows) == 0 || remote[k].height > StopHeight(rows)
    ensures var end := ScanFrom(remote, StopHeight(rows), fetched, 0).end;
            var after := Stored(rows, remote, stored, end);
            && remote[k].id in after
            && after[remote[k].id].live == remote[k].live
            && (remote[k].id !in rows ==> after[remote[k].id] == remote[k])
  {
    if StopHeight(rows) > 0 && Page(k) > 0 {
      assert remote[Page(k) * PAGE_SIZE - 1].height >= remote[k].height;
    }
    ScanOk(remote, StopHeight(rows), fetched, 0, k);
    StoredAt(rows, remote, stored, ScanFrom(remote, StopHeight(rows), fetched, 0).end, remote[k].id);
  }

  // ----- A pass without faults -----

  function CleanPass(rows: Rows, remote: seq<Request>): Rows {
    Stored(rows, remote, (k: nat) => true, ScanFrom(remote, StopHeight(rows), (page: nat) => true, 0).end)
  }

  lemma {:induction false} CleanPassAt(rows: Rows, remote: seq<Request>, k: nat)
    requires Listing(remote) && Faithful(rows, remote) && k < |remote|
    ensures var id, after := remote[k].id, CleanPass(rows, remote);
            if BeforeStop(remote, StopHeight(rows), k) then id in after && after[id] == remote[k]
            else (id in after <==> id in rows) && (id in rows ==> after[id] == rows[id])
  {
    StoredIfReached(rows, remote, StopHeight(rows), (page: nat) => true, (i: nat) => true, k);
  }

  lemma {:induction false} CleanPassFaithful(rows: Rows, remote: seq<Request>)
    requires Listing(remote) && Faithful(rows, remote)
    ensures Faithful(CleanPass(rows, remote), remote)
  {
    forall k: nat | k < |remote| && remote[k].id in CleanPass(rows, remote)
      ensures Follows(CleanPass(rows, remote)[remote[k].id], remote[k])
    {
      CleanPassAt(rows, remote, k);
    }
    forall id | id in CleanPass(rows, remote)
      ensures Lists(remote, id)
    {
      StoredAt(rows, remote, (i: nat) => true, ScanFrom(remote, StopHeight(rows), (page: nat) => true, 0).end, id);
    }
  }

  /** Missing, on a page after the one that meets the stop height. */
  predicate LeftMissing(rows: Rows, remote: seq<Request>, k: nat) {
    k < |remote| && remote[k].id !in rows && !BeforeStop(remote, StopHeight(rows), k)
  }

  /** Out of date, at exactly the stop height, on a page after the one that meets it. */
  predicate LeftStale(rows: Rows, remote: seq<Request>, k: nat) {
    && k < |remote| && remote[k].id in rows && rows[remote[k].id].live != remote[k].live
    && remote[k].height == StopHeight(rows) && !BeforeStop(remote, StopHeight(rows), k)
  }

  /** Past the stopping page a row is either up to date or at exactly the stop height. */
  lemma {:induction false} PastStop(rows: Rows, remote: seq<Request>, k: nat)
    requires Listing(remote) && Faithful(rows, remote) && k < |remote| && !BeforeStop(remote, StopHeight(rows), k)
    ensures 1 <= remote[k].height <= StopHeight(rows)
    ensures remote[k].id in rows && rows[remote[k].id] != remote[k] ==> LeftStale(rows, remote, k)
  {
    assert remote[Page(k) * PAGE_SIZE - 1].height >= remote[k].height;
  }

  /** What a pass without faults restores, from any rows of earlier answers. */
  lemma {:induction false} CleanPassRestores(rows: Rows, remote: seq<Request>)
    requires Listing(remote) && Faithful(rows, remote)
    ensures HoldsAll(CleanPass(rows, remote), remote) <==> forall k: nat :: !LeftMissing(rows, remote, k)
    ensures Mirrors(CleanPass(rows, remote), remote)
            <==> forall k: nat :: !LeftMissing(rows, remote, k) && !LeftStale(rows, remote, k)
  {
    CleanPassFaithful(rows, remote);
    var after := CleanPass(rows, remote);
    forall k: nat | k < |remote|
      ensures remote[k].id !in after <==> LeftMissing(rows, remote, k)
      ensures remote[k].id in after ==> (after[remote[k].id] != remote[k] <==> LeftStale(rows, remote, k))
    {
      CleanPassAt(rows, remote, k);
      if !BeforeStop(remote, StopHeight(rows), k) {
        PastStop(rows, remote, k);
      }
    }
  }

  lemma {:induction false} NothingLeftMissing(rows: Rows, remote: seq<Request>, k: nat)
    requires Listing(remote) && Faithful(rows, remote) && Complete(rows, remote)
    ensures !LeftMissing(rows, remote, k)
  {
    if k < |remote| && !BeforeStop(remote, StopHeight(rows), k) {
      PastStop(rows, remote, k);
      var id :| id in rows && rows[id].height == StopHeight(rows);
    }
  }

  lemma {:induction false} CleanPassHoldsAll(rows: Rows, remote: seq<Request>)
    requires Listing(remote) && Faithful(rows, remote) && Complete(rows, remote)
    ensures HoldsAll(CleanPass(rows, remote), remote)
    ensures Faithful(CleanPass(rows, remote), remote)
  {
    forall k: nat ensures !LeftMissing(rows, remote, k) { NothingLeftMissing(rows, remote, k); }
    CleanPassRestores(rows, remote);
    CleanPassFaithful(rows, remote);
  }

  /** The early-stopping pass does the work of the full one exactly when no stale row at the stop height is past it. */
  lemma {:induction false} CleanPassExact(rows: Rows, remote: seq<Request>)
    requires Listing(remote) && Faithful(rows, remote) && Complete(rows, remote)
    ensures Mirrors(CleanPass(rows, remote), remote) <==> forall k: nat :: !LeftStale(rows, remote, k)
  {
    forall k: nat ensures !LeftMissing(rows, remote, k) { NothingLeftMissing(rows, remote, k); }
    CleanPassRestores(rows, remote);
  }

  function Sample(index: nat, redeemableIn: int): Request {
    Request(UnwrapId("tx", index), 5, Terms(1, 1, "to", "zts", "token", 10, 0),
            UnwrapLive("", false, false, redeemableIn))
  }

  function SampleRows(count: nat): (rows: Rows)
    ensures forall i: nat :: i < count ==> UnwrapId("tx", i) in rows && rows[UnwrapId("tx", i)] == Sample(i, 2)
    ensures forall id :: id in rows ==>
              id.UnwrapId? && 0 <= id.logIndex < count && id == UnwrapId("tx", id.logIndex) && rows[id].height == 5
  {
    if count == 0 then map[] else SampleRows(count - 1)[UnwrapId("tx", count - 1) := Sample(count - 1, 2)]
  }

  function SampleList(count: nat): (remote: seq<Request>)
    ensures |remote| == count && forall i: nat :: i < count ==> remote[i] == Sample(i, 1)
  {
    if count == 0 then [] else SampleList(count - 1) + [Sample(count - 1, 1)]
  }

  lemma {:induction false} SampleIsSound(count: nat)
    ensures Listing(SampleList(count)) && Faithful(SampleRows(count), SampleList(count))
    ensures Complete(SampleRows(count), SampleList(count))
  {
    var remote, rows := SampleList(count), SampleRows(count);
    forall id | id in rows
      ensures Lists(remote, id)
    {
      assert remote[id.logIndex].id == id;
    }
    forall k: nat | k < count
      ensures remote[k].id in rows && Follows(rows[remote[k].id], remote[k])
    {
      assert remote[k] == Sample(k, 1);
    }
  }

  /** 101 unwraps of one momentum, each redeemable one momentum sooner: the last is past the stopping page. */
  lemma {:induction false} SharedHeightWitness() returns (rows: Rows, remote: seq<Request>)
    ensures Listing(remote) && Faithful(rows, remote) && Complete(rows, remote)
    ensures !Mirrors(CleanPass(rows, remote), remote)
  {
    remote := SampleList(PAGE_SIZE + 1);
    rows := SampleRows(PAGE_SIZE + 1);
    SampleIsSound(PAGE_SIZE + 1);
    assert UnwrapId("tx", PAGE_SIZE) in rows;
    assert LeftStale(rows, remote, PAGE_SIZE);
    CleanPassExact(rows, remote);
  }

  lemma {:induction false} DistinctHeightsExact(rows: Rows, remote: seq<Request>)
    requires Listing(remote) && Faithful(rows, remote) && Complete(rows, remote)
    requires DistinctHeights(remote)
    ensures Mirrors(CleanPass(rows, remote), remote)
  {
    forall k: nat
      ensures !LeftStale(rows, remote, k)
    {
    }
    CleanPassExact(rows, remote);
  }

  // ----- Runs of clean passes -----

  /** A later answer: strictly newer requests in front, and only unfinalised ones have changed. */
  predicate Grows(before: seq<Request>, now: seq<Request>) {
    && |before| <= |now|
    && (forall k :: 0 <= k < |before| ==> Follows(before[k], now[|now| - |before| + k]))
    && (forall j, k :: 0 <= j < |now| - |before| && 0 <= k < |before| ==> now[j].height > before[k].height)
  }

  function Passes(answers: seq<seq<Request>>): Rows {
    if answers == [] then map[] else CleanPass(Passes(answers[..|answers| - 1]), answers[|answers| - 1])
  }

  predicate Answers(answers: seq<seq<Request>>) {
    && (forall i :: 0 <= i < |answers| ==> Listing(answers[i]))
    && (forall i :: 0 <= i < |answers| - 1 ==> Grows(answers[i], answers[i + 1]))
  }

  /** A stored request is where growth has shifted it to. */
  lemma {:induction false} Shifted(rows: Rows, before: seq<Request>, now: seq<Request>, k: nat) returns (j: nat)
    requires Listing(now) && Grows(before, now) && Faithful(rows, before)
    requires k < |now| && now[k].id in rows
    ensures j < |before| && k == |now| - |before| + j && before[j].id == now[k].id && Follows(before[j], now[k])
  {
    j :| 0 <= j < |before| && before[j].id == now[k].id;
    assert Follows(before[j], now[|now| - |before| + j]);
  }

  lemma {:induction false} GrowthKeepsFaithful(rows: Rows, before: seq<Request>, now: seq<Request>)
    requires Listing(now) && Grows(before, now) && Faithful(rows, before)
    ensures Faithful(rows, now)
  {
    forall id | id in rows
      ensures Lists(now, id)
    {
      var k :| 0 <= k < |before| && before[k].id == id;
      assert Follows(before[k], now[|now| - |before| + k]);
    }
    forall k: nat | k < |now| && now[k].id in rows
      ensures Follows(rows[now[k].id], now[k])
    {
      var j := Shifted(rows, before, now, k);
    }
  }

  lemma {:induction false} GrowthKeepsComplete(rows: Rows, before: seq<Request>, now: seq<Request>)
    requires Grows(before, now) && Faithful(rows, before) && HoldsAll(rows, before)
    ensures Complete(rows, now)
  {
    var d := |now| - |before|;
    forall k, id | 0 <= k < |now| && id in rows && now[k].height <= rows[id].height
      ensures now[k].id in rows
    {
      var j :| 0 <= j < |before| && before[j].id == id;
      assert Follows(rows[id], before[j]);
      if k >= d {
        assert Follows(before[k - d], now[d + (k - d)]);
      }
    }
  }

  /** Run after run of clean passes over a growing list, no request is ever missed. */
  lemma {:induction false} CleanRunHoldsAll(answers: seq<seq<Request>>)
    requires Answers(answers) && answers != []
    ensures HoldsAll(Passes(answers), answers[|answers| - 1])
    ensures Faithful(Passes(answers), answers[|answers| - 1])
    ensures DistinctHeights(answers[|answers| - 1]) ==> Mirrors(Passes(answers), answers[|answers| - 1])
  {
    var earlier := answers[..|answers| - 1];
    var now := answers[|answers| - 1];
    if earlier != [] {
      assert Grows(answers[|earlier| - 1], answers[|earlier| - 1 + 1]);
      CleanRunHoldsAll(earlier);
      GrowthKeepsFaithful(Passes(earlier), earlier[|earlier| - 1], now);
      GrowthKeepsComplete(Passes(earlier), earlier[|earlier| - 1], now);
    }
    CleanPassHoldsAll(Passes(earlier), now);
    if DistinctHeights(now) {
      DistinctHeightsExact(Passes(earlier), now);
    }
  }
}
