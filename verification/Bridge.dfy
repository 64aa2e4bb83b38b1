/**
Incremental bridge synchronisation (internal/indexer/indexer.go, internal/repository/bridge.go): the node
lists requests newest first in pages, and a pass ends on the page where it first meets the stop height.
One datatype covers wraps and unwraps: they differ in their key and in the columns an upsert refreshes.
*/
module Bridge {
  datatype Id = WrapId(hash: string) | UnwrapId(txHash: string, logIndex: int)

  /** The columns an upsert refreshes on conflict. */
  datatype Live =
    | WrapLive(signature: string, confirmations: int)
    | UnwrapLive(signature: string, redeemed: bool, revoked: bool, redeemableIn: int)

  /** The columns only the first insert writes. */
  datatype Terms = Terms(networkClass: int, chainId: int, toAddress: string, tokenStandard: string,
                         tokenAddress: string, amount: int, fee: int)

  datatype Request = Request(id: Id, height: int, terms: Terms, live: Live)

  type Rows = map<Id, Request>

  const PAGE_SIZE: nat := 100

  predicate Unfinalised(r: Request) {
    match r.live
    case WrapLive(_, confirmations) => confirmations > 0
    case UnwrapLive(_, redeemed, revoked, _) => !redeemed && !revoked
  }

  // ----- The stop height -----

  predicate IsLowest(m: int, heights: set<int>) {
    m in heights && forall x :: x in heights ==> m <= x
  }

  predicate IsHighest(m: int, heights: set<int>) {
    m in heights && forall x :: x in heights ==> x <= m
  }

  lemma {:induction false} LowestExists(heights: set<int>) returns (m: int)
    requires heights != {}
    ensures IsLowest(m, heights)
    decreases |heights|
  {
    assert exists x :: x in heights by {
      if forall x :: x !in heights {
        assert false;
      }
    }
    m :| m in heights;
    var rest := heights - {m};
    if rest != {} {
      var low := LowestExists(rest);
      assert forall x :: x in heights ==> x == m || x in rest;
      m := if m < low then m else low;
    }
  }

  lemma {:induction false} HighestExists(heights: set<int>) returns (m: int)
    requires heights != {}
    ensures IsHighest(m, heights)
  {
    var negated := set x | x in heights :: -x;
    assert exists x :: x in heights by {
      if forall x :: x !in heights {
        assert false;
      }
    }
    var h :| h in heights;
    assert -h in negated;
    var low := LowestExists(negated);
    m := -low;
    assert forall x :: x in heights ==> -x in negated;
  }

  function PendingHeights(rows: Rows): set<int> {
    set id | id in rows && Unfinalised(rows[id]) :: rows[id].height
  }

  function AllHeights(rows: Rows): set<int> {
    set id | id in rows :: rows[id].height
  }

  /** The oldest unfinalised height, else the newest height, else 0. */
  function StopHeight(rows: Rows): (stop: int)
    ensures rows == map[] ==> stop == 0
    ensures forall id :: id in rows && Unfinalised(rows[id]) ==> stop <= rows[id].height
    ensures (forall id :: id in rows ==> !Unfinalised(rows[id])) ==> forall id :: id in rows ==> rows[id].height <= stop
    ensures rows != map[] ==> exists id :: id in rows && rows[id].height == stop
    ensures (exists id :: id in rows && Unfinalised(rows[id])) ==>
              exists id :: id in rows && Unfinalised(rows[id]) && rows[id].height == stop
  {
    var pending := PendingHeights(rows);
    var all := AllHeights(rows);
    assert forall id :: id in rows ==> rows[id].height in all;
    assert forall id :: id in rows && Unfinalised(rows[id]) ==> rows[id].height in pending;
    if pending != {} then
      assert exists m :: IsLowest(m, pending) by { var m := LowestExists(pending); }
      var m :| IsLowest(m, pending);
      m
    else if all != {} then
      assert exists m :: IsHighest(m, all) by { var m := HighestExists(all); }
      var m :| IsHighest(m, all);
      m
    else
      0
  }

  /** Still open on the node's side: a wrap with confirmations to come, an unwrap neither redeemed nor revoked. */
  predicate Open(r: Request) {
    (r.live.WrapLive? && r.live.confirmations >= 1)
    || (r.live.UnwrapLive? && r.live.redeemed == false && r.live.revoked == false)
  }

  /** Exactly the stop height: the least height of an open request, or the greatest of all when none is, or 0. */
  lemma {:induction false} StopExact(rows: Rows, stop: int)
    ensures StopHeight(rows) == stop <==>
            if exists id :: id in rows && Open(rows[id]) then
              (exists id :: id in rows && Open(rows[id]) && rows[id].height == stop)
              && forall id :: id in rows && Open(rows[id]) ==> stop <= rows[id].height
            else if rows == map[] then stop == 0
            else (exists id :: id in rows && rows[id].height == stop) && forall id :: id in rows ==> rows[id].height <= stop
  {
    assert forall id :: id in rows ==> (Open(rows[id]) <==> Unfinalised(rows[id]));
  }

  // ----- Upserts -----

  function Upserted(rows: Rows, r: Request): Rows {
    if r.id in rows then rows[r.id := rows[r.id].(live := r.live)] else rows[r.id := r]
  }

  /** The first `n` listed requests upserted in turn; `stored(k)` is false where the statement failed. */
  function Stored(rows: Rows, remote: seq<Request>, stored: nat -> bool, n: nat): Rows
    requires n <= |remote|
  {
    if n == 0 then rows
    else
      var before := Stored(rows, remote, stored, n - 1);
      if stored(n - 1) then Upserted(before, remote[n - 1]) else before
  }

  // ----- The scan -----

  function Page(k: nat): nat {
    k / PAGE_SIZE
  }

  function PageEnd(page: nat, count: nat): nat {
    if (page + 1) * PAGE_SIZE < count then (page + 1) * PAGE_SIZE else count
  }

  predicate Reaches(remote: seq<Request>, stop: int, page: nat)
  {
    exists k :: page * PAGE_SIZE <= k < PageEnd(page, |remote|) && stop > 0 && remote[k].height <= stop
  }

  datatype Scan = Scan(end: nat, ok: bool)

  /** How many requests a pass upserts from `page` on, and whether it returns nil. */
  function ScanFrom(remote: seq<Request>, stop: int, fetched: nat -> bool, page: nat): (s: Scan)
    requires page * PAGE_SIZE <= |remote|
    ensures page * PAGE_SIZE <= s.end <= |remote|
    decreases |remote| - page * PAGE_SIZE
  {
    if !fetched(page) then Scan(page * PAGE_SIZE, false)
    else if page * PAGE_SIZE == |remote| then Scan(|remote|, true)
    else if Reaches(remote, stop, page) then Scan(PageEnd(page, |remote|), true)
    else if |remote| < (page + 1) * PAGE_SIZE then Scan(|remote|, true)
    else ScanFrom(remote, stop, fetched, page + 1)
  }

  class BridgeTable {
    var rows: Rows

    constructor ()
      ensures rows == map[]
    {
      rows := map[];
    }

    method Upsert(r: Request)
      modifies this
      ensures rows == Upserted(old(rows), r)
    {
      if r.id in rows {
        rows := rows[r.id := rows[r.id].(live := r.live)];
      } else {
        rows := rows[r.id := r];
      }
    }

    /** One pass over a fixed list. `readable` is false when the stop-height query fails. */
    method Update(remote: seq<Request>, readable: bool, fetched: nat -> bool, stored: nat -> bool) returns (ok: bool)
      modifies this
      ensures !readable ==> !ok && rows == old(rows)
      ensures readable ==>
                var scan := ScanFrom(remote, StopHeight(old(rows)), fetched, 0);
                ok == scan.ok && rows == Stored(old(rows), remote, stored, scan.end)
    {
      if !readable {
        return false;
      }
      ghost var start := rows;
      var stop := StopHeight(rows);
      var page: nat := 0;
      while true
        invariant page * PAGE_SIZE <= |remote|
        invariant rows == Stored(start, remote, stored, page * PAGE_SIZE)
        invariant ScanFrom(remote, stop, fetched, 0) == ScanFrom(remote, stop, fetched, page)
        decreases |remote| - page * PAGE_SIZE
      {
        if !fetched(page) {
          return false;
        }
        var first, last := page * PAGE_SIZE, PageEnd(page, |remote|);
        if first == last {
          break;
        }
        var reached := false;
        var k := first;
        while k < last
          invariant first <= k <= last
          invariant rows == Stored(start, remote, stored, k)
          invariant reached <==> exists j :: first <= j < k && stop > 0 && remote[j].height <= stop
        {
          if stored(k) {
            Upsert(remote[k]);
          }
          if stop > 0 && remote[k].height <= stop {
            reached := true;
          }
          k := k + 1;
        }
        if reached || last - first < PAGE_SIZE {
          break;
        }
        page := page + 1;
      }
      ok := true;
    }
  }
}
