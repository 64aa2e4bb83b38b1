/**
Holes on a growing list: newer requests in front shift the page boundaries, so a missing request past the
stopping page can get back onto it.  This says which ones can, under any growth and any faults.
*/
module BridgeGrowth {
  import opened Bridge
  import opened BridgePasses
  import opened BridgeHoles

  // ----- One pass over a grown list -----

  /** The first request at or below the stop height. */
  predicate FirstAt(remote: seq<Request>, stop: int, f: nat) {
    f < |remote| && remote[f].height <= stop && forall i: nat :: i < f ==> remote[i].height > stop
  }

  lemma {:induction false} FirstExists(remote: seq<Request>, stop: int, n: nat) returns (f: nat)
    requires n < |remote| && remote[n].height <= stop
    ensures FirstAt(remote, stop, f)
    decreases n
  {
    if i: nat :| i < n && remote[i].height <= stop {
      f := FirstExists(remote, stop, i);
    } else {
      f := n;
    }
  }

  /** A nonempty table stops at a listed height. */
  lemma {:induction false} StopIsListed(rows: Rows, remote: seq<Request>) returns (f: nat)
    requires Listing(remote) && Faithful(rows, remote) && rows != map[]
    ensures StopHeight(rows) > 0 && FirstAt(remote, StopHeight(rows), f) && remote[f].height == StopHeight(rows)
  {
    var id :| id in rows && rows[id].height == StopHeight(rows);
    var n: nat :| n < |remote| && remote[n].id == id;
    f := FirstExists(remote, StopHeight(rows), n);
    assert remote[f].height >= remote[n].height;
  }

  lemma {:induction false} PagesUpTo(remote: seq<Request>, stop: int, f: nat, k: nat)
    requires Listing(remote) && stop > 0 && FirstAt(remote, stop, f) && k < |remote|
    ensures BeforeStop(remote, stop, k) <==> Page(k) <= Page(f)
  {
    if Page(k) > 0 {
      var last := Page(k) * PAGE_SIZE - 1;
      assert remote[last].height > stop <==> last < f;
    }
  }

  lemma {:induction false} FirstShifts(rows: Rows, before: seq<Request>, now: seq<Request>, f: nat)
    requires Listing(before) && Listing(now) && Grows(before, now) && Faithful(rows, before) && rows != map[]
    requires FirstAt(before, StopHeight(rows), f)
    ensures FirstAt(now, StopHeight(rows), |now| - |before| + f) && StopHeight(rows) > 0
  {
    hide Listing, Faithful, StopHeight;
    var stop, d := StopHeight(rows), |now| - |before|;
    var g := StopIsListed(rows, before);
    assert Follows(before[f], now[d + f]);
    forall i: nat | i < d + f
      ensures now[i].height > stop
    {
      if i < d {
        assert now[i].height > before[g].height;
      } else {
        assert Follows(before[i - d], now[d + (i - d)]);
      }
    }
  }

  lemma {:induction false} SameShifted(before: seq<Request>, now: seq<Request>, k: nat)
    requires Grows(before, now) && k < |before|
    ensures |before| <= |now| && Follows(before[k], now[|now| - |before| + k])
    ensures now[|now| - |before| + k].id == before[k].id
  {
  }

  lemma {:induction false} MissingStored(rows: Rows, remote: seq<Request>, f: nat, k: nat)
    requires Listing(remote) && Faithful(rows, remote) && StopHeight(rows) > 0 && FirstAt(remote, StopHeight(rows), f)
    requires k < |remote| && remote[k].id !in rows
    ensures remote[k].id in CleanPass(rows, remote) <==> Page(k) <= Page(f)
  {
    PagesUpTo(remote, StopHeight(rows), f, k);
    CleanPassAt(rows, remote, k);
  }

  /** A pass without faults over the grown list stores a missing request exactly when growth put it on the stopping page, or before. */
  lemma {:induction false} GrownPassExact(rows: Rows, before: seq<Request>, now: seq<Request>, f: nat, k: nat)
    requires Listing(before) && Listing(now) && Grows(before, now) && Faithful(rows, before) && rows != map[]
    requires FirstAt(before, StopHeight(rows), f) && k < |before| && before[k].id !in rows
    ensures var d := |now| - |before|;
      before[k].id in CleanPass(rows, now) <==> Page(d + k) <= Page(d + f)
  {
    hide *;
    SameShifted(before, now, k);
    var d := |now| - |before|;
    GrowthKeepsFaithful(rows, before, now);
    FirstShifts(rows, before, now, f);
    MissingStored(rows, now, d + f, d + k);
  }

  // ----- A list grown by any number of requests -----

  function TopIndex(remote: seq<Request>): (n: nat)
    ensures forall r :: r in remote && r.id.UnwrapId? ==> r.id.logIndex < n
  {
    if remote == [] then 0
    else
      var rest := TopIndex(remote[1..]);
      if remote[0].id.UnwrapId? && remote[0].id.logIndex >= rest then remote[0].id.logIndex + 1 else rest
  }

  function Newer(before: seq<Request>, d: nat): (r: seq<Request>)
    ensures |r| == d
    ensures forall j :: 0 <= j < d ==> r[j].id == UnwrapId("", TopIndex(before) + j)
    ensures forall j :: 0 <= j < d ==> r[j].height == (if before == [] then 1 else before[0].height + 1)
  {
    seq(d, (j: nat) => Request(UnwrapId("", TopIndex(before) + j), if before == [] then 1 else before[0].height + 1,
                               Terms(0, 0, "", "", "", 0, 0), UnwrapLive("", true, false, 0)))
  }

  lemma {:induction false} NewerInFront(before: seq<Request>, d: nat, j: nat, k: nat)
    requires Listing(before) && j < d && k < |before|
    ensures var r := Newer(before, d)[j]; r.id != before[k].id && r.height > before[k].height
  {
    assert before[k] in before && before[0].height >= before[k].height;
  }

  lemma {:induction false} Joined(front: seq<Request>, before: seq<Request>)
    requires Listing(front) && Listing(before)
    requires forall j: nat, k: nat :: j < |front| && k < |before| ==>
               front[j].id != before[k].id && front[j].height > before[k].height
    ensures Listing(front + before)
  {
  }

  lemma {:induction false} JoinedGrows(front: seq<Request>, before: seq<Request>)
    requires forall j: nat, k: nat :: j < |front| && k < |before| ==> front[j].height > before[k].height
    ensures Grows(before, front + before)
  {
  }

  /** The listed requests have not changed. */
  predicate Extends(before: seq<Request>, now: seq<Request>) {
    |before| <= |now| && forall i :: 0 <= i < |before| ==> now[|now| - |before| + i] == before[i]
  }

  lemma {:induction false} GrownBy(before: seq<Request>, d: nat) returns (now: seq<Request>)
    requires Listing(before)
    ensures Listing(now) && Grows(before, now) && Extends(before, now) && |now| == |before| + d
  {
    var front := Newer(before, d);
    now := front + before;
    forall j: nat, k: nat | j < d && k < |before|
      ensures front[j].id != before[k].id && front[j].height > before[k].height
    {
      NewerInFront(before, d, j, k);
    }
    Joined(front, before);
    JoinedGrows(front, before);
  }

  /** How many newer requests put the first request at the stop height at the head of a page. */
  function Aligning(f: nat): (d: nat)
    ensures (d + f) % PAGE_SIZE == 0
  {
    (PAGE_SIZE - f % PAGE_SIZE) % PAGE_SIZE
  }

  lemma {:induction false} Aligned(f: nat, k: nat)
    ensures k < f + PAGE_SIZE ==> Page(Aligning(f) + k) <= Page(Aligning(f) + f)
  {
  }

  lemma {:induction false} TooFar(d: nat, f: nat, k: nat)
    requires Page(d + k) <= Page(d + f)
    ensures k < f + PAGE_SIZE
  {
  }

  /** The list can grow so that the next pass without faults stores request k. */
  ghost predicate Refillable(rows: Rows, before: seq<Request>, k: nat)
    requires k < |before|
  {
    exists now :: Listing(now) && Grows(before, now) && before[k].id in CleanPass(rows, now)
  }

  lemma {:induction false} AlignedRefills(rows: Rows, before: seq<Request>, f: nat, k: nat)
    requires Listing(before) && Faithful(rows, before) && rows != map[]
    requires FirstAt(before, StopHeight(rows), f) && k < |before| && before[k].id !in rows && k < f + PAGE_SIZE
    ensures Refillable(rows, before, k)
  {
    hide Listing, Grows, Faithful, CleanPass, Page, FirstAt, Aligning;
    var now := GrownBy(before, Aligning(f));
    Aligned(f, k);
    GrownPassExact(rows, before, now, f, k);
  }

  /** What growth can and cannot refill at once: exactly the requests less than a page behind the first one at the stop height. */
  lemma {:induction false} GrowthRefillsExact(rows: Rows, before: seq<Request>, f: nat, k: nat)
    requires Listing(before) && Faithful(rows, before) && rows != map[]
    requires FirstAt(before, StopHeight(rows), f) && k < |before| && before[k].id !in rows
    ensures Refillable(rows, before, k) <==> k < f + PAGE_SIZE
  {
    hide Listing, Grows, Faithful, CleanPass, Page, FirstAt;
    if Refillable(rows, before, k) {
      var now :| Listing(now) && Grows(before, now) && before[k].id in CleanPass(rows, now);
      GrownPassExact(rows, before, now, f, k);
      SameShifted(before, now, k);
      TooFar(|now| - |before|, f, k);
    }
    if k < f + PAGE_SIZE {
      AlignedRefills(rows, before, f, k);
    }
  }

  // ----- Any growth, any faults, any number of passes -----

  datatype Visit = Visit(now: seq<Request>, w: Weather)

  predicate GrowingFrom(before: seq<Request>, visits: seq<Visit>)
    decreases |visits|
  {
    visits == [] ||
    (Listing(visits[0].now) && Grows(before, visits[0].now) && GrowingFrom(visits[0].now, visits[1..]))
  }

  function PassesFrom(rows: Rows, visits: seq<Visit>): Rows
    decreases |visits|
  {
    if visits == [] then rows else PassesFrom(Pass(rows, visits[0].now, visits[0].w), visits[1..])
  }

  /** However the list grows and whatever fails or works, no later pass stores request k. */
  ghost predicate LostForGood(rows: Rows, before: seq<Request>, k: nat)
    requires k < |before|
  {
    forall visits: seq<Visit> :: GrowingFrom(before, visits) ==> before[k].id !in PassesFrom(rows, visits)
  }

  /**
  Nothing within a page behind request f can pull the stop height below it: it is at most at the stop height,
  and the missing requests below it there are finalised.
  */
  predicate Sealed(rows: Rows, remote: seq<Request>, f: nat) {
    && f < |remote| && remote[f].height <= StopHeight(rows)
    && (forall j: nat :: j < f + PAGE_SIZE && j < |remote| && remote[j].height < remote[f].height && remote[j].id !in rows ==>
                           !Unfinalised(remote[j]))
  }

  lemma {:induction false} SealedNonempty(rows: Rows, remote: seq<Request>, f: nat)
    requires Listing(remote) && Sealed(rows, remote, f)
    ensures rows != map[] && StopHeight(rows) > 0
  {
  }

  lemma {:induction false} SealedGrows(rows: Rows, before: seq<Request>, now: seq<Request>, f: nat)
    requires Listing(before) && Listing(now) && Grows(before, now) && Faithful(rows, before) && Sealed(rows, before, f)
    ensures Sealed(rows, now, |now| - |before| + f)
  {
    hide Listing, Faithful, StopHeight;
    var d := |now| - |before|;
    assert Follows(before[f], now[d + f]);
    forall j: nat | j < d + f + PAGE_SIZE && j < |now| && now[j].height < now[d + f].height && now[j].id !in rows
      ensures !Unfinalised(now[j])
    {
      assert j >= d;
      assert Follows(before[j - d], now[d + (j - d)]);
    }
  }

  /** A pass gets to nothing a page or more behind a seal. */
  lemma {:induction false} SealedReach(rows: Rows, remote: seq<Request>, w: Weather, f: nat, k: nat)
    requires Listing(remote) && Sealed(rows, remote, f) && k < |remote| && f + PAGE_SIZE <= k
    ensures !Upserts(rows, remote, w, k)
  {
    SealedNonempty(rows, remote, f);
    assert remote[f].height >= remote[Page(k) * PAGE_SIZE - 1].height;
  }

  lemma {:induction false} SealHolds(rows: Rows, remote: seq<Request>, w: Weather, f: nat)
    requires Listing(remote) && Faithful(rows, remote) && Sealed(rows, remote, f)
    ensures Sealed(Pass(rows, remote, w), remote, f)
  {
    var after := Pass(rows, remote, w);
    SealedNonempty(rows, remote, f);
    if StopHeight(after) < remote[f].height {
      var j := LowerStop(rows, remote, w);
      if j >= f + PAGE_SIZE {
        SealedReach(rows, remote, w, f, j);
      }
    }
    forall j: nat | j < |remote| && remote[j].id !in after
      ensures remote[j].id !in rows
    {
      PassAt(rows, remote, w, j);
    }
  }

  /** One visit keeps the seal, and the hole behind it. */
  lemma {:induction false} SealedVisit(rows: Rows, before: seq<Request>, v: Visit, f: nat, k: nat)
    requires Listing(before) && Listing(v.now) && Grows(before, v.now) && Faithful(rows, before) && Sealed(rows, before, f)
    requires k < |before| && f + PAGE_SIZE <= k && before[k].id !in rows
    ensures var d, after := |v.now| - |before|, Pass(rows, v.now, v.w);
      && d >= 0 && Faithful(after, v.now) && Sealed(after, v.now, d + f)
      && v.now[d + k].id == before[k].id && before[k].id !in after
  {
    hide *;
    SameShifted(before, v.now, k);
    var d := |v.now| - |before|;
    GrowthKeepsFaithful(rows, before, v.now);
    SealedGrows(rows, before, v.now, f);
    SealedReach(rows, v.now, v.w, d + f, d + k);
    PassAt(rows, v.now, v.w, d + k);
    PassFaithful(rows, v.now, v.w);
    SealHolds(rows, v.now, v.w, d + f);
  }

  lemma {:induction false} SealedStays(rows: Rows, before: seq<Request>, visits: seq<Visit>, f: nat, k: nat)
    requires Listing(before) && Faithful(rows, before) && Sealed(rows, before, f) && GrowingFrom(before, visits)
    requires k < |before| && f + PAGE_SIZE <= k && before[k].id !in rows
    ensures before[k].id !in PassesFrom(rows, visits)
    decreases |visits|
  {
    hide Listing, Grows, Faithful, Sealed, Pass;
    if visits != [] {
      var v := visits[0];
      var d := |v.now| - |before|;
      SealedVisit(rows, before, v, f, k);
      SealedStays(Pass(rows, v.now, v.w), v.now, visits[1..], d + f, d + k);
    }
  }

  predicate SealedBefore(rows: Rows, remote: seq<Request>, k: nat) {
    exists f: nat :: Sealed(rows, remote, f) && f + PAGE_SIZE <= k
  }

  /** What a pass that lowers the stop height stored is at or above the new one, if it is unfinalised. */
  lemma {:induction false} StoredAbove(rows: Rows, remote: seq<Request>, w: Weather, j: nat)
    requires Listing(remote) && Faithful(rows, remote) && j < |remote| && remote[j].id !in rows && Unfinalised(remote[j])
    requires remote[j].height < StopHeight(Pass(rows, remote, w))
    ensures remote[j].id !in Pass(rows, remote, w)
  {
    PassAt(rows, remote, w, j);
  }

  /** A pass that lowers the stop height makes no seal that was not there. */
  lemma {:induction false} SealWasThere(rows: Rows, remote: seq<Request>, w: Weather, f: nat)
    requires Listing(remote) && Faithful(rows, remote) && StopHeight(Pass(rows, remote, w)) <= StopHeight(rows)
    requires Sealed(Pass(rows, remote, w), remote, f)
    ensures Sealed(rows, remote, f)
  {
    forall j: nat | j < f + PAGE_SIZE && j < |remote| && remote[j].height < remote[f].height && remote[j].id !in rows
      ensures !Unfinalised(remote[j])
    {
      if Unfinalised(remote[j]) {
        StoredAbove(rows, remote, w, j);
      }
    }
  }

  /** A request at or below the stop height is not one the growth brought. */
  lemma {:induction false} NotNewer(rows: Rows, before: seq<Request>, now: seq<Request>, f: nat)
    requires Listing(before) && Grows(before, now) && Faithful(rows, before) && rows != map[]
    requires f < |now| && now[f].height <= StopHeight(rows)
    ensures |now| - |before| <= f
  {
    hide Listing, Faithful, StopHeight;
    var g := StopIsListed(rows, before);
  }

  /** Nor does growth. */
  lemma {:induction false} SealWasOld(rows: Rows, before: seq<Request>, now: seq<Request>, f: nat)
    requires Listing(before) && Listing(now) && Grows(before, now) && Faithful(rows, before) && rows != map[]
    requires Sealed(rows, now, f) && Extends(before, now)
    ensures |now| - |before| <= f && Sealed(rows, before, f - (|now| - |before|))
  {
    hide Listing, Grows, Faithful, StopHeight;
    var d := |now| - |before|;
    NotNewer(rows, before, now, f);
    assert now[d + (f - d)] == before[f - d];
    forall j: nat | j < f - d + PAGE_SIZE && j < |before| && before[j].height < before[f - d].height && before[j].id !in rows
      ensures !Unfinalised(before[j])
    {
      assert now[d + j] == before[j];
    }
  }

  // ----- The other direction: without a seal some growth brings the request back -----

  /** The lowest missing unfinalised request less than a page behind the first one at the stop height. */
  lemma {:induction false} SomeUnsealed(rows: Rows, before: seq<Request>, f: nat, k: nat) returns (j: nat)
    requires FirstAt(before, StopHeight(rows), f) && !SealedBefore(rows, before, k) && f + PAGE_SIZE <= k
    ensures j < f + PAGE_SIZE && j < |before| && before[j].height < before[f].height
    ensures before[j].id !in rows && Unfinalised(before[j])
  {
    assert !Sealed(rows, before, f);
    j :| j < f + PAGE_SIZE && j < |before| && before[j].height < before[f].height && before[j].id !in rows && Unfinalised(before[j]);
  }

  lemma {:induction false} FairPass(rows: Rows, remote: seq<Request>)
    ensures Pass(rows, remote, FAIR) == CleanPass(rows, remote)
  {
  }

  lemma {:induction false} OneVisit(rows: Rows, before: seq<Request>, now: seq<Request>)
    requires Listing(now) && Grows(before, now)
    ensures GrowingFrom(before, [Visit(now, FAIR)]) && PassesFrom(rows, [Visit(now, FAIR)]) == CleanPass(rows, now)
  {
    FairPass(rows, now);
  }

  lemma {:induction false} FirstVisit(rows: Rows, before: seq<Request>, now: seq<Request>, rest: seq<Visit>)
    requires Listing(now) && Grows(before, now) && GrowingFrom(now, rest)
    ensures GrowingFrom(before, [Visit(now, FAIR)] + rest)
    ensures PassesFrom(rows, [Visit(now, FAIR)] + rest) == PassesFrom(CleanPass(rows, now), rest)
  {
    FairPass(rows, now);
    var visits := [Visit(now, FAIR)] + rest;
    assert visits[1..] == rest;
  }

  /** Over a list grown so that request f heads a page, a pass without faults brings the stop height down to request j. */
  lemma {:induction false} StopLowered(rows: Rows, before: seq<Request>, now: seq<Request>, f: nat, j: nat)
    requires Listing(before) && Listing(now) && Grows(before, now) && Extends(before, now) && Faithful(rows, before) && rows != map[]
    requires FirstAt(before, StopHeight(rows), f) && |now| == |before| + Aligning(f)
    requires j < |before| && j < f + PAGE_SIZE && before[j].id !in rows && Unfinalised(before[j])
    ensures StopHeight(CleanPass(rows, now)) <= before[j].height
  {
    hide Listing, Grows, Faithful, CleanPass, Page, FirstAt, Aligning;
    var d := Aligning(f);
    Aligned(f, j);
    GrownPassExact(rows, before, now, f, j);
    CleanPassFollows(rows, before, now, d + j);
    assert now[d + j] == before[j];
  }

  lemma {:induction false} CleanPassFollows(rows: Rows, before: seq<Request>, now: seq<Request>, k: nat)
    requires Listing(now) && Grows(before, now) && Faithful(rows, before) && k < |now| && now[k].id !in rows
    requires now[k].id in CleanPass(rows, now)
    ensures CleanPass(rows, now)[now[k].id] == now[k]
  {
    hide Listing, Grows, CleanPass, Page;
    GrowthKeepsFaithful(rows, before, now);
    CleanPassAt(rows, now, k);
  }

  lemma {:induction false} StillUnsealed(rows: Rows, before: seq<Request>, now: seq<Request>, k: nat)
    requires Listing(before) && Listing(now) && Grows(before, now) && Extends(before, now) && Faithful(rows, before) && rows != map[]
    requires StopHeight(CleanPass(rows, now)) <= StopHeight(rows) && !SealedBefore(rows, before, k)
    ensures !SealedBefore(CleanPass(rows, now), now, |now| - |before| + k)
  {
    hide Listing, Grows, Faithful, CleanPass, Sealed;
    var d := |now| - |before|;
    if SealedBefore(CleanPass(rows, now), now, d + k) {
      var f: nat :| Sealed(CleanPass(rows, now), now, f) && f + PAGE_SIZE <= d + k;
      GrowthKeepsFaithful(rows, before, now);
      FairPass(rows, now);
      SealWasThere(rows, now, FAIR, f);
      SealWasOld(rows, before, now, f);
    }
  }

  /** The next growth and pass when request k is a page or more behind. */
  lemma {:induction false} Nearer(rows: Rows, before: seq<Request>, f: nat, k: nat) returns (now: seq<Request>)
    requires Listing(before) && Faithful(rows, before) && rows != map[]
    requires FirstAt(before, StopHeight(rows), f) && before[f].height == StopHeight(rows)
    requires k < |before| && f + PAGE_SIZE <= k && !SealedBefore(rows, before, k)
    ensures Listing(now) && Grows(before, now) && Extends(before, now)
    ensures Faithful(CleanPass(rows, now), now) && StopHeight(CleanPass(rows, now)) < StopHeight(rows)
    ensures !SealedBefore(CleanPass(rows, now), now, |now| - |before| + k)
  {
    hide Listing, Grows, Faithful, CleanPass, SealedBefore, Aligning, FirstAt;
    var j := SomeUnsealed(rows, before, f, k);
    now := GrownBy(before, Aligning(f));
    StopLowered(rows, before, now, f, j);
    GrowthKeepsFaithful(rows, before, now);
    CleanPassFaithful(rows, now);
    StillUnsealed(rows, before, now, k);
  }

  lemma {:induction false} FromEmpty(before: seq<Request>, k: nat)
    requires Listing(before) && k < |before|
    ensures Grows(before, before) && before[k].id in CleanPass(map[], before)
  {
    CleanPassAt(map[], before, k);
  }

  lemma {:induction false} Recovers(rows: Rows, before: seq<Request>, k: nat) returns (visits: seq<Visit>)
    requires Listing(before) && Faithful(rows, before) && k < |before| && !SealedBefore(rows, before, k)
    ensures GrowingFrom(before, visits) && before[k].id in PassesFrom(rows, visits)
    decreases StopHeight(rows)
  {
    hide Listing, Grows, Faithful, CleanPass, SealedBefore, FirstAt, Pass;
    if before[k].id in rows {
      visits := [];
    } else if rows == map[] {
      FromEmpty(before, k);
      OneVisit(rows, before, before);
      visits := [Visit(before, FAIR)];
    } else {
      var f := StopIsListed(rows, before);
      if k < f + PAGE_SIZE {
        AlignedRefills(rows, before, f, k);
        var now :| Listing(now) && Grows(before, now) && before[k].id in CleanPass(rows, now);
        OneVisit(rows, before, now);
        visits := [Visit(now, FAIR)];
      } else {
        var now := Nearer(rows, before, f, k);
        var d := |now| - |before|;
        assert now[d + k] == before[k];
        var rest := Recovers(CleanPass(rows, now), now, d + k);
        FirstVisit(rows, before, now, rest);
        visits := [Visit(now, FAIR)] + rest;
      }
    }
  }

  /**
  From any rows of earlier answers, over every growth of the list and every fault: a request is never stored again
  exactly when it is missing a page or more behind a request at or above which nothing can pull the stop height down.
  */
  lemma {:induction false} LostForGoodExact(rows: Rows, before: seq<Request>, k: nat)
    requires Listing(before) && Faithful(rows, before) && k < |before|
    ensures LostForGood(rows, before, k) <==> before[k].id !in rows && SealedBefore(rows, before, k)
  {
    hide Listing, Grows, Faithful, Sealed, GrowingFrom, PassesFrom;
    if before[k].id !in rows && SealedBefore(rows, before, k) {
      var f: nat :| Sealed(rows, before, f) && f + PAGE_SIZE <= k;
      forall visits: seq<Visit> | GrowingFrom(before, visits)
        ensures before[k].id !in PassesFrom(rows, visits)
      {
        SealedStays(rows, before, visits, f, k);
      }
    } else if before[k].id in rows {
      NoVisit(rows, before);
    } else {
      var visits := Recovers(rows, before, k);
    }
  }

  lemma {:induction false} NoVisit(rows: Rows, before: seq<Request>)
    ensures GrowingFrom(before, []) && PassesFrom(rows, []) == rows
  {
  }
}
