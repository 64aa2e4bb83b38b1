/**
A momentum WebSocket connection: replay, then live frames (internal/api/handlers/momentums_stream.go),
and what its client sees when the events come through the hub.
*/
module MomentumStream {
  import opened Wrappers
  import HubProtocol
  import HubTheorems
  import HubWitness

  const REPLAY_MAX_ROWS: nat := 10000

  // ----- The handler -----

  /** The last height replay asks for: at most the tip, and at most as many heights as the row cap. */
  function ReplayEnd(fromHeight: nat, tip: nat): (end: nat)
    requires 0 < fromHeight <= tip
    ensures fromHeight <= end <= tip && end - fromHeight + 1 <= 10000
    ensures end == tip || end - fromHeight + 1 == 10000
  {
    if tip - fromHeight + 1 > REPLAY_MAX_ROWS then fromHeight + REPLAY_MAX_ROWS - 1 else tip
  }

  /** ListByHeightRange: the stored heights of the range in ascending order. */
  ghost predicate IsRangeScan(rows: seq<nat>, stored: set<nat>, lo: nat, hi: nat) {
    && (forall i, j | 0 <= i < j < |rows| :: rows[i] < rows[j])
    && (forall h :: h in rows <==> h in stored && lo <= h <= hi)
  }

  /** What the query for the latest momentum answers. */
  datatype Latest = QueryFailed | NoRows | Tip(height: nat)

  datatype Replay = Failed(frames: seq<nat>) | Replayed(frames: seq<nat>, lastSent: nat)

  /**
  What replay must leave when the range query answers `scan` and the first `writable` frames can be written:
  all rows from fromHeight to the replay end and the last of their heights, or nothing to replay, or a failure
  after the frames that were written.
  */
  function ReplayOutcome(fromHeight: nat, latest: Latest, scan: (nat, nat) -> Option<seq<nat>>, writable: nat): Replay
    requires fromHeight > 0
  {
    if latest.QueryFailed? then Failed([])
    else if latest.NoRows? then Replayed([], 0)
    else if fromHeight > latest.height then Replayed([], fromHeight - 1)
    else
      match scan(fromHeight, ReplayEnd(fromHeight, latest.height))
      case None => Failed([])
      case Some(rows) =>
        if |rows| > writable then Failed(rows[..writable])
        else Replayed(rows, if rows == [] then 0 else rows[|rows| - 1])
  }

  /** Replay succeeds exactly when its queries do and every row it is answered can be written. */
  lemma {:induction false} ReplaySucceeds(fromHeight: nat, latest: Latest, scan: (nat, nat) -> Option<seq<nat>>, writable: nat)
    requires fromHeight > 0
    ensures ReplayOutcome(fromHeight, latest, scan, writable).Replayed? <==>
            && latest != QueryFailed
            && (latest.Tip? && fromHeight <= latest.height ==>
                  var answer := scan(fromHeight, ReplayEnd(fromHeight, latest.height));
                  answer.Some? && |answer.value| <= writable)
  {
  }

  method ReplayMomentums(fromHeight: nat, latest: Latest, scan: (nat, nat) -> Option<seq<nat>>, writable: nat)
    returns (r: Replay)
    requires fromHeight > 0
    ensures r == ReplayOutcome(fromHeight, latest, scan, writable)
  {
    if latest.QueryFailed? {
      return Failed([]);
    }
    if latest.NoRows? {
      return Replayed([], 0);
    }
    var end := latest.height;
    if fromHeight > end {
      return Replayed([], fromHeight - 1);
    }
    if end - fromHeight + 1 > REPLAY_MAX_ROWS {
      end := fromHeight + REPLAY_MAX_ROWS - 1;
    }
    var answer := scan(fromHeight, end);
    if answer.None? {
      return Failed([]);
    }
    var rows := answer.value;
    var frames, lastSent := [], 0;
    for k := 0 to |rows|
      invariant k <= writable && frames == rows[..k]
      invariant lastSent == if k == 0 then 0 else rows[k - 1]
    {
      if k == writable {
        return Failed(frames);
      }
      frames := frames + [rows[k]];
      lastSent := rows[k];
    }
    r := Replayed(frames, lastSent);
  }

  /** The live frames: every event above the last height sent. */
  function LiveFrames(lastSent: nat, events: seq<nat>): seq<nat>
    decreases events
  {
    if events == [] then []
    else if events[0] <= lastSent then LiveFrames(lastSent, events[1..])
    else [events[0]] + LiveFrames(events[0], events[1..])
  }

  lemma {:induction false} LiveFramesIncrease(lastSent: nat, events: seq<nat>)
    ensures forall i | 0 <= i < |LiveFrames(lastSent, events)| :: LiveFrames(lastSent, events)[i] > lastSent
    ensures forall i, j | 0 <= i < j < |LiveFrames(lastSent, events)| ::
              LiveFrames(lastSent, events)[i] < LiveFrames(lastSent, events)[j]
    decreases events
  {
    if events != [] {
      LiveFramesIncrease(if events[0] <= lastSent then lastSent else events[0], events[1..]);
    }
  }

  /** Every event above all those before it, and above the last height sent, is a frame. */
  lemma {:induction false} LiveFramesComplete(lastSent: nat, events: seq<nat>, i: nat)
    requires i < |events| && events[i] > lastSent && forall j | 0 <= j < i :: events[j] < events[i]
    ensures events[i] in LiveFrames(lastSent, events)
    decreases events
  {
    if i > 0 {
      LiveFramesComplete(if events[0] <= lastSent then lastSent else events[0], events[1..], i - 1);
    }
  }

  /** The last height sent after some events. */
  function LastSent(lastSent: nat, events: seq<nat>): nat {
    var frames := LiveFrames(lastSent, events);
    if frames == [] then lastSent else frames[|frames| - 1]
  }

  lemma {:induction false} LiveFramesAppend(lastSent: nat, a: seq<nat>, b: seq<nat>)
    ensures LiveFrames(lastSent, a + b) == LiveFrames(lastSent, a) + LiveFrames(LastSent(lastSent, a), b)
    decreases a
  {
    if a == [] {
      assert a + b == b;
    } else {
      assert (a + b)[1..] == a[1..] + b;
      if a[0] <= lastSent {
        LiveFramesAppend(lastSent, a[1..], b);
      } else {
        LiveFramesAppend(a[0], a[1..], b);
        assert LastSent(lastSent, a) == LastSent(a[0], a[1..]);
      }
    }
  }

  /** One more event: a frame if it is above the last one sent. */
  lemma {:induction false} LiveFramesOne(from: nat, passed: seq<nat>, height: nat)
    ensures var sent := LastSent(from, passed);
      && LiveFrames(from, passed + [height]) == LiveFrames(from, passed) + (if height > sent then [height] else [])
      && LastSent(from, passed + [height]) == if height > sent then height else sent
  {
    LiveFramesAppend(from, passed, [height]);
  }

  datatype Incoming = ContextDone | ChannelClosed | Event(height: nat, lagged: bool, writable: bool) | Ping(ok: bool)

  /** The events that pass the lag check when every write succeeds. */
  function LetThrough(inputs: seq<Incoming>): seq<nat> {
    if inputs == [] then [] else
      match inputs[0]
      case Event(height, lagged, _) => if lagged then [] else [height] + LetThrough(inputs[1..])
      case Ping(ok) => if ok then LetThrough(inputs[1..]) else []
      case _ => []
  }

  /** The select loop goes on after this input when every write succeeds. */
  predicate GoesOn(input: Incoming) {
    (input.Event? && !input.lagged) || (input.Ping? && input.ok)
  }

  /** The events let through are those before the first lag, close, end of the context or failed ping. */
  lemma {:induction false} LetThroughExact(inputs: seq<Incoming>, n: nat)
    requires n <= |inputs| && (forall i | 0 <= i < n :: GoesOn(inputs[i])) && (n < |inputs| ==> !GoesOn(inputs[n]))
    ensures LetThrough(inputs) == EventHeights(inputs[..n])
    decreases inputs
  {
    if n > 0 {
      assert inputs[1..][..n - 1] == inputs[..n][1..];
      LetThroughExact(inputs[1..], n - 1);
    }
  }

  function EventHeights(inputs: seq<Incoming>): seq<nat> {
    if inputs == [] then []
    else (if inputs[0].Event? then [inputs[0].height] else []) + EventHeights(inputs[1..])
  }

  /** What the input at k adds to the events let through. */
  lemma {:induction false} LetThroughOne(inputs: seq<Incoming>, k: nat, passed: seq<nat>)
    requires k < |inputs| && LetThrough(inputs) == passed + LetThrough(inputs[k..])
    ensures match inputs[k]
      case Event(height, lagged, _) =>
        LetThrough(inputs) == if lagged then passed else passed + [height] + LetThrough(inputs[k + 1..])
      case Ping(ok) => LetThrough(inputs) == if ok then passed + LetThrough(inputs[k + 1..]) else passed
      case _ => LetThrough(inputs) == passed
  {
    assert inputs[k..][1..] == inputs[k + 1..] && inputs[k..][0] == inputs[k];
    if inputs[k].Event? {
      assert passed + ([inputs[k].height] + LetThrough(inputs[k + 1..]))
          == passed + [inputs[k].height] + LetThrough(inputs[k + 1..]);
    }
  }

  /**
  runLive over the answers its select receives.  `passed` are the events that passed the lag check; a
  failed write ends the connection after the last of them, and that frame was not sent.
  */
  method RunLive(inputs: seq<Incoming>, from: nat) returns (frames: seq<nat>, passed: seq<nat>)
    ensures passed <= LetThrough(inputs)
    ensures LiveWritten(frames, from, passed)
    ensures AllWritable(inputs) ==> passed == LetThrough(inputs) && frames == LiveFrames(from, passed)
  {
    frames, passed := [], [];
    var lastSent, k := from, 0;
    while k < |inputs|
      invariant 0 <= k <= |inputs|
      invariant LetThrough(inputs) == passed + LetThrough(inputs[k..])
      invariant frames == LiveFrames(from, passed) && lastSent == LastSent(from, passed)
    {
      LetThroughOne(inputs, k, passed);
      match inputs[k] {
        case ContextDone => return;
        case ChannelClosed => return;
        case Ping(ok) =>
          if !ok { return; }
        case Event(height, lagged, writable) =>
          if lagged { return; }
          LiveFramesOne(from, passed, height);
          passed := passed + [height];
          if height > lastSent {
            if !writable { return; }
            frames := frames + [height];
            lastSent := height;
          }
      }
      k := k + 1;
    }
  }

  // ----- The connection as its client sees it -----

  /** The frames of one connection: `live` are the events that passed the lag check. */
  function Frames(fromHeight: nat, tip: Option<nat>, rows: seq<nat>, live: seq<nat>): seq<nat> {
    if fromHeight == 0 || tip.None? then LiveFrames(0, live)
    else if fromHeight > tip.value then LiveFrames(fromHeight - 1, live)
    else rows + LiveFrames(if rows == [] then 0 else rows[|rows| - 1], live)
  }

  /** Live frames were written for the events let through, but for the last if its write failed. */
  predicate LiveWritten(frames: seq<nat>, from: nat, passed: seq<nat>) {
    frames == LiveFrames(from, passed)
    || (passed != [] && frames + [passed[|passed| - 1]] == LiveFrames(from, passed))
  }

  predicate AllWritable(inputs: seq<Incoming>) {
    forall i | 0 <= i < |inputs| && inputs[i].Event? :: inputs[i].writable
  }

  /** The handler from the upgrade on: a failed replay ends it, otherwise live frames follow. */
  method Serve(fromHeight: nat, latest: Latest, scan: (nat, nat) -> Option<seq<nat>>, writable: nat, inputs: seq<Incoming>)
    returns (frames: seq<nat>, replayed: Replay, live: seq<nat>, passed: seq<nat>)
    ensures replayed == if fromHeight == 0 then Replayed([], 0) else ReplayOutcome(fromHeight, latest, scan, writable)
    ensures frames == replayed.frames + live && passed <= LetThrough(inputs)
    ensures replayed.Failed? ==> live == [] && passed == []
    ensures replayed.Replayed? ==> LiveWritten(live, replayed.lastSent, passed)
    ensures replayed.Replayed? && AllWritable(inputs) ==>
              passed == LetThrough(inputs) && live == LiveFrames(replayed.lastSent, passed)
  {
    replayed, live, passed := Replayed([], 0), [], [];
    if fromHeight > 0 {
      replayed := ReplayMomentums(fromHeight, latest, scan, writable);
      if replayed.Failed? {
        return replayed.frames, replayed, [], [];
      }
    }
    live, passed := RunLive(inputs, replayed.lastSent);
    frames := replayed.frames + live;
  }

  /** When replay succeeds the frames of a connection are those its latest height, rows and live events determine. */
  lemma {:induction false} FramesOfServe(fromHeight: nat, latest: Latest, scan: (nat, nat) -> Option<seq<nat>>,
                                         writable: nat, live: seq<nat>)
    requires fromHeight > 0 ==> ReplayOutcome(fromHeight, latest, scan, writable).Replayed?
    ensures var replayed := if fromHeight == 0 then Replayed([], 0) else ReplayOutcome(fromHeight, latest, scan, writable);
      var tip := if latest.Tip? then Some(latest.height) else None;
      var rows := if fromHeight > 0 && latest.Tip? && fromHeight <= latest.height
                  then scan(fromHeight, ReplayEnd(fromHeight, latest.height)) else Some([]);
      rows.Some? && replayed.frames + LiveFrames(replayed.lastSent, live) == Frames(fromHeight, tip, rows.value, live)
  {
  }

  /** Heights strictly increase on every connection, whatever is stored and whatever is dispatched. */
  lemma {:induction false} HeightsIncrease(fromHeight: nat, tip: Option<nat>, rows: seq<nat>, live: seq<nat>, stored: set<nat>)
    requires fromHeight > 0 && tip.Some? && fromHeight <= tip.value ==>
               IsRangeScan(rows, stored, fromHeight, ReplayEnd(fromHeight, tip.value))
    ensures var f := Frames(fromHeight, tip, rows, live); forall i, j | 0 <= i < j < |f| :: f[i] < f[j]
  {
    var f := Frames(fromHeight, tip, rows, live);
    if fromHeight == 0 || tip.None? {
      LiveFramesIncrease(0, live);
    } else if fromHeight > tip.value {
      LiveFramesIncrease(fromHeight - 1, live);
    } else {
      LiveFramesIncrease(if rows == [] then 0 else rows[|rows| - 1], live);
      var tail := LiveFrames(if rows == [] then 0 else rows[|rows| - 1], live);
      forall i, j | 0 <= i < j < |f| ensures f[i] < f[j] {
        assert i < |rows| ==> f[i] == rows[i] && rows[i] <= rows[|rows| - 1];
        assert j >= |rows| ==> f[j] == tail[j - |rows|];
        assert i >= |rows| ==> f[i] == tail[i - |rows|];
      }
    }
  }

  function Max(a: nat, b: nat): nat {
    if a < b then b else a
  }

  lemma {:induction false} LiveRange(lastSent: nat, a: nat, b: nat)
    ensures LiveFrames(lastSent, Range(a, b)) == Range(Max(a, lastSent + 1), b)
    decreases b - a
  {
    if a < b {
      assert Range(a, b)[0] == a && Range(a, b)[1..] == Range(a + 1, b);
      LiveRange(Max(a, lastSent), a + 1, b);
      if a > lastSent {
        assert [a] + Range(a + 1, b) == Range(a, b);
      }
    }
  }

  lemma {:induction false} ScanTail(rows: seq<nat>, stored: set<nat>, lo: nat, hi: nat)
    requires IsRangeScan(rows, stored, lo, hi) && lo <= hi && lo in stored
    ensures rows != [] && rows[0] == lo && IsRangeScan(rows[1..], stored, lo + 1, hi)
  {
    assert lo in rows;
    var k :| 0 <= k < |rows| && rows[k] == lo;
    assert rows[0] in rows;
    assert k == 0;
    var rest := rows[1..];
    forall h ensures h in rest <==> h in stored && lo + 1 <= h <= hi {
      if h in rest { assert h in rows; }
      if h in stored && lo + 1 <= h <= hi {
        assert h in rows;
        var j :| 0 <= j < |rows| && rows[j] == h;
        assert rest[j - 1] == h;
      }
    }
  }

  /** A range scan over a gap-free table returns the range. */
  lemma {:induction false} ScanOfRange(rows: seq<nat>, stored: set<nat>, lo: nat, hi: nat)
    requires IsRangeScan(rows, stored, lo, hi) && forall h | lo <= h <= hi :: h in stored
    ensures rows == Range(lo, hi + 1)
    decreases hi + 1 - lo
  {
    assert rows != [] ==> rows[0] in rows;
    if lo <= hi {
      ScanTail(rows, stored, lo, hi);
      ScanOfRange(rows[1..], stored, lo + 1, hi);
      assert rows == [lo] + rows[1..];
    }
  }

  lemma {:induction false} RangeJoin(a: nat, b: nat, c: nat)
    requires a <= b <= c
    ensures Range(a, b) + Range(b, c) == Range(a, c)
  {
  }

  /** What a connection writes when the replay finds rows, over a gap-free table and consecutive events. */
  lemma {:induction false} ReplayedFrames(fromHeight: nat, tip: nat, rows: seq<nat>, stored: set<nat>, first: nat, n: nat)
    requires 0 < fromHeight <= tip && IsRangeScan(rows, stored, fromHeight, ReplayEnd(fromHeight, tip))
    requires forall h | 1 <= h <= tip :: h in stored
    ensures var end := ReplayEnd(fromHeight, tip);
      Frames(fromHeight, Some(tip), rows, Range(first, first + n))
      == Range(fromHeight, end + 1) + Range(Max(first, end + 1), first + n)
  {
    var end := ReplayEnd(fromHeight, tip);
    ScanOfRange(rows, stored, fromHeight, end);
    LiveRange(end, first, first + n);
  }

  /** Two runs of heights join into one exactly when the second starts where the first ends. */
  lemma {:induction false} JoinExact(a: nat, b: nat, c: nat, d: nat)
    requires a <= b <= c
    ensures var f := Range(a, b) + Range(c, d); f == Range(a, a + |f|) <==> c == b || d <= c
  {
    var f := Range(a, b) + Range(c, d);
    if c == b && b <= d {
      RangeJoin(a, b, d);
    } else if d <= c {
      assert f == Range(a, b);
    } else {
      assert f[b - a] == c != Range(a, a + |f|)[b - a];
    }
  }

  predicate Contiguous(frames: seq<nat>, fromHeight: nat) {
    frames == Range(fromHeight, fromHeight + |frames|)
  }

  lemma {:induction false} RangeIsContiguous(a: nat, b: nat)
    ensures Contiguous(Range(a, b), a)
  {
  }

  lemma {:induction false} EmptyTableHandover(fromHeight: nat, rows: seq<nat>, n: nat)
    requires fromHeight > 0
    ensures Contiguous(Frames(fromHeight, None, rows, Range(1, 1 + n)), fromHeight) <==> n == 0 || fromHeight == 1
  {
    LiveRange(0, 1, 1 + n);
    if n > 0 { assert Range(1, 1 + n)[0] == 1; }
  }

  lemma {:induction false} LiveOnlyHandover(fromHeight: nat, tip: nat, rows: seq<nat>, first: nat, n: nat)
    requires tip < fromHeight && first <= fromHeight
    ensures Contiguous(Frames(fromHeight, Some(tip), rows, Range(first, first + n)), fromHeight)
  {
    LiveRange(fromHeight - 1, first, first + n);
    assert Max(first, fromHeight) == fromHeight;
    RangeIsContiguous(fromHeight, first + n);
  }

  lemma {:induction false} ReplayedHandover(fromHeight: nat, tip: nat, rows: seq<nat>, stored: set<nat>, first: nat, n: nat)
    requires 0 < fromHeight <= tip && first <= tip + 1
    requires forall h | 1 <= h <= tip :: h in stored
    requires IsRangeScan(rows, stored, fromHeight, ReplayEnd(fromHeight, tip))
    ensures Contiguous(Frames(fromHeight, Some(tip), rows, Range(first, first + n)), fromHeight) <==>
            n == 0 || tip < fromHeight + REPLAY_MAX_ROWS || first <= fromHeight + REPLAY_MAX_ROWS
  {
    var end := ReplayEnd(fromHeight, tip);
    ReplayedFrames(fromHeight, tip, rows, stored, first, n);
    JoinExact(fromHeight, end + 1, Max(first, end + 1), first + n);
  }

  /**
  Exactly when a from_height connection writes from, from+1, from+2, ... without gap or repeat, over a
  gap-free table whose commits are dispatched in height order and when nothing was dropped: the table was
  not empty at the tip read (or the client asked for height 1), and the replay was under the row cap (or
  the live events reach back to its end).
  */
  lemma {:induction false} HandoverExact(fromHeight: nat, tip: nat, rows: seq<nat>, stored: set<nat>, first: nat, n: nat)
    requires fromHeight > 0 && 0 < first <= tip + 1
    requires forall h | 1 <= h <= tip :: h in stored
    requires fromHeight <= tip ==> IsRangeScan(rows, stored, fromHeight, ReplayEnd(fromHeight, tip))
    ensures Contiguous(Frames(fromHeight, if tip == 0 then None else Some(tip), rows, Range(first, first + n)), fromHeight)
            <==> n == 0 || ((tip > 0 || fromHeight == 1)
                            && (tip < fromHeight + REPLAY_MAX_ROWS || first <= fromHeight + REPLAY_MAX_ROWS))
  {
    if tip == 0 {
      EmptyTableHandover(fromHeight, rows, n);
    } else if fromHeight > tip {
      LiveOnlyHandover(fromHeight, tip, rows, first, n);
    } else {
      ReplayedHandover(fromHeight, tip, rows, stored, first, n);
    }
  }

  /** The heights of the events that passed, when notification n carries height stored0 + n + 1. */
  ghost predicate CarriesHeights(live: seq<nat>, sub: HubProtocol.Sub, stored0: nat) {
    && |live| == sub.passed <= |sub.recv|
    && forall i | 0 <= i < |live| :: live[i] == stored0 + sub.recv[i] + 1
  }

  lemma {:induction false} LiveIsRange(live: seq<nat>, sub: HubProtocol.Sub, stored0: nat)
    requires CarriesHeights(live, sub, stored0)
    requires sub.recv[..sub.passed] == Range(sub.first, sub.first + sub.passed)
    ensures live == Range(stored0 + sub.first + 1, stored0 + sub.first + 1 + |live|)
  {
    forall i | 0 <= i < |live| ensures live[i] == stored0 + sub.first + 1 + i {
      assert sub.recv[..sub.passed][i] == sub.recv[i];
    }
  }

  lemma {:induction false} UnderCap(sub: HubProtocol.Sub, stored0: nat, stored: set<nat>, fromHeight: nat, tip: nat,
                 rows: seq<nat>, live: seq<nat>)
    requires CarriesHeights(live, sub, stored0) && stored0 + sub.first <= tip
    requires sub.recv[..sub.passed] == Range(sub.first, sub.first + sub.passed)
    requires fromHeight > 0 && 0 < tip < fromHeight + REPLAY_MAX_ROWS
    requires forall x | 1 <= x <= tip :: x in stored
    requires fromHeight <= tip ==> IsRangeScan(rows, stored, fromHeight, ReplayEnd(fromHeight, tip))
    ensures Contiguous(Frames(fromHeight, Some(tip), rows, live), fromHeight)
  {
    LiveIsRange(live, sub, stored0);
    HandoverExact(fromHeight, tip, rows, stored, stored0 + sub.first + 1, |live|);
  }

  /**
  The handover through the hub, in every reachable state in which no payload was malformed: the handler
  subscribed before it read the tip, and replay is under the row cap.  The client receives exactly fromHeight,
  fromHeight + 1, ... as far as the events that passed the lag check go.
  */
  lemma {:induction false} HandoverThroughHub(cfg: HubProtocol.Config, h: HubProtocol.Sys, s: nat, stored0: nat, stored: set<nat>,
                           fromHeight: nat, tip: nat, rows: seq<nat>, live: seq<nat>)
    requires HubTheorems.Reachable(cfg, h) && !h.skipped
    requires s in h.reg.objs && h.reg.objs[s].tip.Some? && tip == stored0 + h.reg.objs[s].tip.value
    requires CarriesHeights(live, h.reg.objs[s], stored0)
    requires fromHeight > 0 && 0 < tip < fromHeight + REPLAY_MAX_ROWS
    requires forall x | 1 <= x <= tip :: x in stored
    requires fromHeight <= tip ==> IsRangeScan(rows, stored, fromHeight, ReplayEnd(fromHeight, tip))
    ensures Contiguous(Frames(fromHeight, Some(tip), rows, live), fromHeight)
  {
    HubTheorems.PassedIsConsecutive(cfg, h, s);
    UnderCap(h.reg.objs[s], stored0, stored, fromHeight, tip, rows, live);
  }

  // ----- Handovers that fail -----

  /** On an empty table a client that asked for height 5 is sent height 1. */
  lemma {:induction false} EmptyTableWitness(cfg: HubProtocol.Config) returns (h: HubProtocol.Sys)
    requires cfg.bufSize >= 1
    ensures HubTheorems.Reachable(cfg, h) && 0 in h.reg.objs && h.reg.objs[0].tip == Some(0) && !h.skipped
    ensures CarriesHeights([1], h.reg.objs[0], 0) && !Contiguous(Frames(5, None, [], [1]), 5)
  {
    h := HubWitness.FirstPassed(cfg);
    assert LiveFrames(0, [1]) == [1] + LiveFrames(1, [1][1..]) && [1][1..] == [];
    assert Frames(5, None, [], [1]) == [1];
  }

  /** One momentum more than the cap is stored: the client is sent 1, ..., 10000 and then 10002. */
  lemma {:induction false} RowCapWitness(cfg: HubProtocol.Config) returns (h: HubProtocol.Sys, stored: set<nat>, rows: seq<nat>)
    requires cfg.bufSize >= 1
    ensures HubTheorems.Reachable(cfg, h) && 0 in h.reg.objs && h.reg.objs[0].tip == Some(0) && !h.skipped
    ensures forall x :: x in stored <==> 1 <= x <= REPLAY_MAX_ROWS + 1
    ensures IsRangeScan(rows, stored, 1, ReplayEnd(1, REPLAY_MAX_ROWS + 1))
    ensures CarriesHeights([REPLAY_MAX_ROWS + 2], h.reg.objs[0], REPLAY_MAX_ROWS + 1)
    ensures !Contiguous(Frames(1, Some(REPLAY_MAX_ROWS + 1), rows, [REPLAY_MAX_ROWS + 2]), 1)
  {
    h := HubWitness.FirstPassed(cfg);
    rows := Range(1, REPLAY_MAX_ROWS + 1);
    var all := rows + [REPLAY_MAX_ROWS + 1];
    stored := set x | x in all;
    forall x ensures x in rows <==> 1 <= x <= REPLAY_MAX_ROWS {
      if 1 <= x <= REPLAY_MAX_ROWS { assert rows[x - 1] == x; }
    }
    var live := [REPLAY_MAX_ROWS + 2];
    assert live[1..] == [];
    assert LiveFrames(REPLAY_MAX_ROWS, live) == live + LiveFrames(live[0], []);
    var f := Frames(1, Some(REPLAY_MAX_ROWS + 1), rows, live);
    assert f == rows + live && f[REPLAY_MAX_ROWS] == REPLAY_MAX_ROWS + 2;
  }
}
