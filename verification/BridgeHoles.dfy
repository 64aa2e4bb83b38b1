/**
Passes with faults: pages that cannot be fetched, upserts that fail (which are only logged), a stop height that
cannot be read.  A request a pass has missed is stored by some later pass exactly when it is not past the
stopping page any more, and it never gets back once it is.
*/
module BridgeHoles {
  import opened Bridge
  import opened BridgePasses

  datatype Weather = Weather(readable: bool, fetched: nat -> bool, stored: nat -> bool)

  const FAIR := Weather(true, (page: nat) => true, (k: nat) => true)

  function Pass(rows: Rows, remote: seq<Request>, w: Weather): Rows {
    if !w.readable then rows
    else Stored(rows, remote, w.stored, ScanFrom(remote, StopHeight(rows), w.fetched, 0).end)
  }

  function PassAll(rows: Rows, remote: seq<Request>, ws: seq<Weather>): Rows {
    if ws == [] then rows else Pass(PassAll(rows, remote, ws[..|ws| - 1]), remote, ws[|ws| - 1])
  }

  /** The pass upserts request k. */
  predicate Upserts(rows: Rows, remote: seq<Request>, w: Weather, k: nat) {
    w.readable && w.stored(k) && Reached(remote, StopHeight(rows), w.fetched, k)
  }

  lemma {:induction false} PassAt(rows: Rows, remote: seq<Request>, w: Weather, k: nat)
    requires Listing(remote) && Faithful(rows, remote) && k < |remote|
    ensures var id, after := remote[k].id, Pass(rows, remote, w);
            if Upserts(rows, remote, w, k) then id in after && after[id] == remote[k]
            else (id in after <==> id in rows) && (id in rows ==> after[id] == rows[id])
  {
    if w.readable {
      StoredIfReached(rows, remote, StopHeight(rows), w.fetched, w.stored, k);
    }
  }

  lemma {:induction false} PassFaithful(rows: Rows, remote: seq<Request>, w: Weather)
    requires Listing(remote) && Faithful(rows, remote)
    ensures Faithful(Pass(rows, remote, w), remote)
  {
    var after := Pass(rows, remote, w);
    forall k: nat | k < |remote| && remote[k].id in after
      ensures Follows(after[remote[k].id], remote[k])
    {
      PassAt(rows, remote, w, k);
    }
    if w.readable {
      forall id | id in after
        ensures Lists(remote, id)
      {
        StoredAt(rows, remote, w.stored, ScanFrom(remote, StopHeight(rows), w.fetched, 0).end, id);
      }
    }
  }

  /** Passes remove nothing and change no height. */
  lemma {:induction false} PassKeeps(rows: Rows, remote: seq<Request>, w: Weather, id: Id)
    requires Listing(remote) && Faithful(rows, remote) && id in rows
    ensures id in Pass(rows, remote, w) && Pass(rows, remote, w)[id].height == rows[id].height
  {
    var k: nat :| k < |remote| && remote[k].id == id;
    PassAt(rows, remote, w, k);
  }

  // ----- A hole never comes back within reach -----

  /** If a pass lowers the stop height, the new one is that of a missing, unfinalised request it upserted. */
  lemma {:induction false} LowerStop(rows: Rows, remote: seq<Request>, w: Weather) returns (j: nat)
    requires Listing(remote) && Faithful(rows, remote) && rows != map[]
    requires StopHeight(Pass(rows, remote, w)) < StopHeight(rows)
    ensures Upserts(rows, remote, w, j) && remote[j].height == StopHeight(Pass(rows, remote, w))
    ensures remote[j].id !in rows && Unfinalised(remote[j])
  {
    hide Listing, Pass, Upserts, StopHeight;
    var after := Pass(rows, remote, w);
    var top :| top in rows && rows[top].height == StopHeight(rows);
    PassKeeps(rows, remote, w, top);
    var id :| id in after && Unfinalised(after[id]) && after[id].height == StopHeight(after);
    PassFaithful(rows, remote, w);
    j :| j < |remote| && remote[j].id == id;
    PassAt(rows, remote, w, j);
  }

  lemma {:induction false} StopOnlyNears(rows: Rows, remote: seq<Request>, w: Weather, k: nat)
    requires Listing(remote) && Faithful(rows, remote) && rows != map[] && k < |remote|
    requires !BeforeStop(remote, StopHeight(rows), k)
    ensures !BeforeStop(remote, StopHeight(Pass(rows, remote, w)), k)
  {
    var after := Pass(rows, remote, w);
    PassKept(rows, remote, w);
    if StopHeight(after) < StopHeight(rows) {
      var j := LowerStop(rows, remote, w);
      SamePageOrder(remote, StopHeight(rows), j, k);
    }
  }

  /** A request a pass gets to is on an earlier page than one past the stop. */
  lemma {:induction false} SamePageOrder(remote: seq<Request>, stop: int, j: nat, k: nat)
    requires Listing(remote) && j < |remote| && k < |remote|
    requires BeforeStop(remote, stop, j) && !BeforeStop(remote, stop, k)
    ensures j < Page(k) * PAGE_SIZE && remote[j].height >= remote[Page(k) * PAGE_SIZE - 1].height
  {
  }

  lemma {:induction false} PassKept(rows: Rows, remote: seq<Request>, w: Weather)
    requires Listing(remote) && Faithful(rows, remote) && rows != map[]
    ensures Pass(rows, remote, w) != map[] && StopHeight(Pass(rows, remote, w)) > 0
  {
    var id :| id in rows;
    PassKeeps(rows, remote, w, id);
    PassFaithful(rows, remote, w);
    var after := Pass(rows, remote, w);
    var low :| low in after && after[low].height == StopHeight(after);
    var k: nat :| k < |remote| && remote[k].id == low;
    assert Follows(after[low], remote[k]);
  }

  lemma {:induction false} HoleStays(rows: Rows, remote: seq<Request>, ws: seq<Weather>, k: nat)
    requires Listing(remote) && Faithful(rows, remote) && rows != map[] && LeftMissing(rows, remote, k)
    ensures var after := PassAll(rows, remote, ws);
            Faithful(after, remote) && after != map[] && LeftMissing(after, remote, k)
  {
    if ws != [] {
      var before, w := PassAll(rows, remote, ws[..|ws| - 1]), ws[|ws| - 1];
      HoleStays(rows, remote, ws[..|ws| - 1], k);
      PassFaithful(before, remote, w);
      PassKept(before, remote, w);
      PassAt(before, remote, w, k);
      StopOnlyNears(before, remote, w, k);
    }
  }

  lemma {:induction false} OneFairPass(rows: Rows, remote: seq<Request>)
    ensures PassAll(rows, remote, [FAIR]) == CleanPass(rows, remote)
  {
    assert [FAIR][..0] == [] && PassAll(rows, remote, [FAIR][..0]) == rows;
  }

  /** No later pass over this list ever stores request k. */
  ghost predicate Lost(rows: Rows, remote: seq<Request>, k: nat)
    requires k < |remote|
  {
    forall ws: seq<Weather> :: remote[k].id !in PassAll(rows, remote, ws)
  }

  /** From any rows of earlier answers: a request is lost for good exactly when it is missing past the stopping page. */
  lemma {:induction false} LostExact(rows: Rows, remote: seq<Request>, k: nat)
    requires Listing(remote) && Faithful(rows, remote) && k < |remote|
    ensures Lost(rows, remote, k) <==> LeftMissing(rows, remote, k)
  {
    if LeftMissing(rows, remote, k) {
      assert rows != map[];
      forall ws: seq<Weather>
        ensures remote[k].id !in PassAll(rows, remote, ws)
      {
        HoleStays(rows, remote, ws, k);
      }
    } else {
      OneFairPass(rows, remote);
      CleanPassAt(rows, remote, k);
      assert remote[k].id in PassAll(rows, remote, [FAIR]);
    }
  }

  /** Some later passes store every request exactly when none is missing past the stopping page. */
  lemma {:induction false} RecoveryExact(rows: Rows, remote: seq<Request>)
    requires Listing(remote) && Faithful(rows, remote)
    ensures (exists ws: seq<Weather> :: HoldsAll(PassAll(rows, remote, ws), remote))
            <==> forall k: nat :: !LeftMissing(rows, remote, k)
  {
    if k: nat :| LeftMissing(rows, remote, k) {
      LostExact(rows, remote, k);
      forall ws: seq<Weather>
        ensures !HoldsAll(PassAll(rows, remote, ws), remote)
      {
        assert remote[k].id !in PassAll(rows, remote, ws);
      }
    } else {
      CleanPassRestores(rows, remote);
      OneFairPass(rows, remote);
      assert HoldsAll(PassAll(rows, remote, [FAIR]), remote);
    }
  }

  // ----- One pass with faults, from a complete table -----

  lemma {:induction false} StopAtLeast(rows: Rows, h: int)
    requires h > 0
    ensures StopHeight(rows) >= h
            <==> (exists id :: id in rows && rows[id].height >= h)
                 && (forall id :: id in rows && Unfinalised(rows[id]) ==> rows[id].height >= h)
  {
  }

  /** The last request of the page before that of request k. */
  function PageBefore(remote: seq<Request>, k: nat): Request
    requires k < |remote| && Page(k) > 0
  {
    remote[Page(k) * PAGE_SIZE - 1]
  }

  /**
  What makes a miss permanent, in terms of what the pass was given: the page before was reached (something at
  or above its last request was stored), nothing it stored below that is unfinalised, and it refreshed every
  row that was unfinalised before.
  */
  ghost predicate ClosesBehind(rows: Rows, remote: seq<Request>, w: Weather, h: int) {
    && (exists j: nat :: Upserts(rows, remote, w, j) && remote[j].height >= h)
    && (forall j: nat :: Upserts(rows, remote, w, j) && Unfinalised(remote[j]) ==> remote[j].height >= h)
    && (forall j: nat :: j < |remote| && remote[j].id in rows && Unfinalised(rows[remote[j].id]) ==>
                           Upserts(rows, remote, w, j))
  }

  /** The same for the set of requests written. */
  ghost predicate ClosesBehindWritten(rows: Rows, remote: seq<Request>, written: set<nat>, h: int)
    requires forall j :: j in written ==> j < |remote|
  {
    && (exists j :: j in written && remote[j].height >= h)
    && (forall j :: j in written && Unfinalised(remote[j]) ==> remote[j].height >= h)
    && (forall j: nat :: j < |remote| && remote[j].id in rows && Unfinalised(rows[remote[j].id]) ==> j in written)
  }

  lemma {:induction false} ClosesBehindIsWritten(rows: Rows, remote: seq<Request>, w: Weather, written: set<nat>, h: int)
    requires forall j :: j in written ==> j < |remote|
    requires forall j: nat :: j in written <==> Upserts(rows, remote, w, j)
    ensures ClosesBehind(rows, remote, w, h) <==> ClosesBehindWritten(rows, remote, written, h)
  {
  }

  /** Some requests have just been written; the other rows are as they were, and below h. */
  ghost predicate Rewritten(rows: Rows, after: Rows, remote: seq<Request>, written: set<nat>, h: int) {
    && (forall id :: id in after ==> Lists(remote, id))
    && (forall j :: j in written ==> j < |remote| && remote[j].id in after && after[remote[j].id] == remote[j])
    && (forall j: nat :: j < |remote| && j !in written ==>
                           && (remote[j].id in after <==> remote[j].id in rows)
                           && (remote[j].id in rows ==> after[remote[j].id] == rows[remote[j].id]))
    && (forall id :: id in rows ==> rows[id].height < h)
  }

  lemma {:induction false} SomeAtLeast(rows: Rows, after: Rows, remote: seq<Request>, written: set<nat>, h: int)
    requires Rewritten(rows, after, remote, written, h)
    ensures (exists id :: id in after && after[id].height >= h) <==> exists j :: j in written && remote[j].height >= h
  {
    if id :| id in after && after[id].height >= h {
      var j: nat :| j < |remote| && remote[j].id == id;
      assert j in written;
    }
    if j :| j in written && remote[j].height >= h {
      assert after[remote[j].id].height >= h;
    }
  }

  lemma {:induction false} PendingAtLeast(rows: Rows, after: Rows, remote: seq<Request>, written: set<nat>, h: int)
    requires Rewritten(rows, after, remote, written, h)
    ensures (forall id :: id in after && Unfinalised(after[id]) ==> after[id].height >= h)
            <==> && (forall j :: j in written && Unfinalised(remote[j]) ==> remote[j].height >= h)
                 && (forall j: nat :: j < |remote| && remote[j].id in rows && Unfinalised(rows[remote[j].id]) ==> j in written)
  {
    if id :| id in after && Unfinalised(after[id]) && after[id].height < h {
      var j: nat :| j < |remote| && remote[j].id == id;
      assert j in written || remote[j].id in rows;
    }
  }

  lemma {:induction false} RowsAtLeast(rows: Rows, after: Rows, remote: seq<Request>, written: set<nat>, h: int)
    requires Rewritten(rows, after, remote, written, h)
    ensures (exists id :: id in after && after[id].height >= h)
            && (forall id :: id in after && Unfinalised(after[id]) ==> after[id].height >= h)
            <==> ClosesBehindWritten(rows, remote, written, h)
  {
    SomeAtLeast(rows, after, remote, written, h);
    PendingAtLeast(rows, after, remote, written, h);
  }

  lemma {:induction false} Written(rows: Rows, remote: seq<Request>, w: Weather) returns (written: set<nat>)
    requires Listing(remote) && Faithful(rows, remote)
    ensures forall j: nat :: j in written <==> Upserts(rows, remote, w, j)
    ensures var after := Pass(rows, remote, w);
            && (forall j :: j in written ==>
                              j < |remote| && remote[j].id in after && after[remote[j].id] == remote[j])
            && (forall j: nat :: j < |remote| && j !in written ==>
                                   && (remote[j].id in after <==> remote[j].id in rows)
                                   && (remote[j].id in rows ==> after[remote[j].id] == rows[remote[j].id]))
  {
    written := set j: nat | j < |remote| && Upserts(rows, remote, w, j);
    forall j: nat | j < |remote|
      ensures var id, after := remote[j].id, Pass(rows, remote, w);
              if j in written then id in after && after[id] == remote[j]
              else (id in after <==> id in rows) && (id in rows ==> after[id] == rows[id])
    {
      PassAt(rows, remote, w, j);
    }
  }

  lemma {:induction false} ClosesBehindExact(rows: Rows, remote: seq<Request>, w: Weather, h: int)
    requires Listing(remote) && Faithful(rows, remote) && h > 0
    requires forall id :: id in rows ==> rows[id].height < h
    ensures StopHeight(Pass(rows, remote, w)) >= h <==> ClosesBehind(rows, remote, w, h)
  {
    var after := Pass(rows, remote, w);
    var written := Written(rows, remote, w);
    PassFaithful(rows, remote, w);
    RowsAtLeast(rows, after, remote, written, h);
    StopAtLeast(after, h);
    ClosesBehindIsWritten(rows, remote, w, written, h);
  }

  /** From a complete table, exactly when one pass under arbitrary faults loses request k for good. */
  lemma {:induction false} FaultyPassLoses(rows: Rows, remote: seq<Request>, w: Weather, k: nat)
    requires Listing(remote) && Faithful(rows, remote) && Complete(rows, remote) && k < |remote|
    ensures Lost(Pass(rows, remote, w), remote, k)
            <==> && remote[k].id !in rows && !Upserts(rows, remote, w, k)
                 && Page(k) > 0 && ClosesBehind(rows, remote, w, PageBefore(remote, k).height)
  {
    var after := Pass(rows, remote, w);
    PassFaithful(rows, remote, w);
    LostExact(after, remote, k);
    PassAt(rows, remote, w, k);
    if remote[k].id !in rows && Page(k) > 0 {
      var h := PageBefore(remote, k).height;
      forall id | id in rows
        ensures rows[id].height < h
      {
        assert rows[id].height < remote[k].height <= h;
      }
      ClosesBehindExact(rows, remote, w, h);
    }
  }

  /** A first pass that fails on a page after the first, having stored anything, loses all requests from there on. */
  lemma {:induction false} FaultLeavesHole(remote: seq<Request>, first: Weather, bad: nat, k: nat)
    requires Listing(remote) && bad >= 1 && bad * PAGE_SIZE <= k < |remote|
    requires first.readable && !first.fetched(bad) && forall p: nat :: p < bad ==> first.fetched(p)
    requires exists i: nat :: i < bad * PAGE_SIZE && first.stored(i)
    ensures Lost(Pass(map[], remote, first), remote, k)
  {
    var i: nat :| i < bad * PAGE_SIZE && first.stored(i);
    var h := PageBefore(remote, k).height;
    assert Upserts(map[], remote, first, i) && remote[i].height >= h;
    forall j: nat | Upserts(map[], remote, first, j)
      ensures j < bad * PAGE_SIZE && remote[j].height >= h
    {
    }
    FaultyPassLoses(map[], remote, first, k);
  }

  /** Every page fetched, the pass returns nil, and the one upsert that failed is never made up for. */
  lemma {:induction false} NilPassLosesOne() returns (remote: seq<Request>, w: Weather)
    ensures Listing(remote) && |remote| == PAGE_SIZE + 1 && w.readable
    ensures ScanFrom(remote, StopHeight(map[]), w.fetched, 0) == Scan(|remote|, true)
    ensures Lost(Pass(map[], remote, w), remote, PAGE_SIZE)
  {
    remote := SampleList(PAGE_SIZE + 1);
    SampleIsSound(PAGE_SIZE + 1);
    w := Weather(true, (page: nat) => true, (k: nat) => k != PAGE_SIZE);
    EmptyStop();
    ScanOfTwoPages(remote, w.fetched);
    assert Page(0) == 0 && Page(PAGE_SIZE) == 1;
    assert Upserts(map[], remote, w, 0) && remote[0].height == 5 && PageBefore(remote, PAGE_SIZE).height == 5;
    assert forall j: nat :: j < |remote| ==> remote[j].height == 5;
    FaultyPassLoses(map[], remote, w, PAGE_SIZE);
  }

  lemma {:induction false} EmptyStop()
    ensures StopHeight(map[]) == 0
  {
  }

  lemma {:induction false} ScanOfTwoPages(remote: seq<Request>, fetched: nat -> bool)
    requires |remote| == PAGE_SIZE + 1 && fetched(0) && fetched(1)
    ensures ScanFrom(remote, 0, fetched, 0) == Scan(|remote|, true)
  {
    assert ScanFrom(remote, 0, fetched, 0) == ScanFrom(remote, 0, fetched, 1);
  }
}
