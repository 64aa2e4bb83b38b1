/**
The transactions stream (internal/api/handlers/transactions_stream.go): a cursor that remembers only the
hashes of the momentum it stands at suppresses exactly what a full history of the frames would suppress.
*/
module TxStream {
  import opened Wrappers
  import HubProtocol
  import HubTheorems

  datatype Block = Block(height: int, hash: string, address: string, toAddress: string)

  /** `hashes` is None while the program's map is nil: reading it finds nothing, writing to it panics. */
  datatype Cursor = Cursor(height: int, hashes: Option<set<string>>)

  const ZERO := Cursor(0, None)

  predicate Seen(c: Cursor, b: Block) {
    (c.height > 0 && b.height < c.height)
    || (b.height == c.height && c.hashes.Some? && b.hash in c.hashes.value)
  }

  /** None is the panic of writing to a nil map. */
  function Mark(c: Cursor, b: Block): Option<Cursor> {
    if b.height != c.height then Some(Cursor(b.height, Some({b.hash})))
    else if c.hashes.None? then None
    else Some(Cursor(c.height, Some(c.hashes.value + {b.hash})))
  }

  datatype Sent = Sent(frames: seq<Block>, cursor: Cursor, panicked: bool)

  /** The frames written for a sequence of blocks, from a cursor. */
  function Send(c: Cursor, blocks: seq<Block>): Sent
    decreases blocks
  {
    if blocks == [] then Sent([], c, false)
    else if Seen(c, blocks[0]) then Send(c, blocks[1..])
    else
      match Mark(c, blocks[0])
      case None => Sent([blocks[0]], c, true)
      case Some(d) =>
        var rest := Send(d, blocks[1..]);
        rest.(frames := [blocks[0]] + rest.frames)
  }

  /** The cursor that replay leaves behind its frames. */
  function Replayed(c: Cursor, rows: seq<Block>): Option<Cursor>
    decreases rows
  {
    if rows == [] then Some(c)
    else match Mark(c, rows[0]) case None => None case Some(d) => Replayed(d, rows[1..])
  }

  class TxStreamCursor {
    var height: int
    var hashes: Option<set<string>>

    function Value(): Cursor reads this {
      Cursor(height, hashes)
    }

    constructor (start: Cursor)
      ensures Value() == start
    {
      height, hashes := start.height, start.hashes;
    }

    method See(ab: Block) returns (seen: bool)
      ensures seen == Seen(Value(), ab)
    {
      if height > 0 && ab.height < height {
        return true;
      }
      if ab.height == height {
        return hashes.Some? && ab.hash in hashes.value;
      }
      seen := false;
    }

    method MarkSent(ab: Block) returns (panicked: bool)
      modifies this
      ensures panicked == Mark(old(Value()), ab).None?
      ensures !panicked ==> Mark(old(Value()), ab) == Some(Value())
      ensures panicked ==> Value() == old(Value())
    {
      if ab.height != height {
        height, hashes := ab.height, Some({});
      }
      if hashes.None? {
        return true;
      }
      assert {} + {ab.hash} == {ab.hash};
      hashes := Some(hashes.value + {ab.hash});
      panicked := false;
    }
  }

  predicate Matches(filter: string, b: Block) {
    filter == "" || b.address == filter || b.toAddress == filter
  }

  function Filtered(filter: string, blocks: seq<Block>): seq<Block> {
    if blocks == [] then []
    else (if Matches(filter, blocks[0]) then [blocks[0]] else []) + Filtered(filter, blocks[1..])
  }

  // ----- The handler -----

  const REPLAY_MAX_ROWS: nat := 10000

  /** What the query for the latest momentum answers. */
  datatype Latest = QueryFailed | NoRows | Tip(height: int)

  /** How replay ends: an error or a panic after some frames, or all of them and the cursor they leave. */
  datatype Replay = Failed(frames: seq<Block>) | Panicked(frames: seq<Block>) | Done(frames: seq<Block>, cursor: Cursor)

  /** The last height replay asks for: at most the tip, and at most as many heights as the row cap. */
  function ReplayEnd(fromHeight: int, tip: int): (end: int)
    ensures end <= tip && end - fromHeight + 1 <= 10000
    ensures end == tip || end - fromHeight + 1 == 10000
  {
    if tip - fromHeight + 1 > REPLAY_MAX_ROWS then fromHeight + REPLAY_MAX_ROWS - 1 else tip
  }

  /** Rows written in order until a write fails. */
  function WrittenRows(rows: seq<Block>, writable: nat): Replay {
    var n := if |rows| < writable then |rows| else writable;
    if Replayed(ZERO, rows[..n]).None? then Panicked(rows[..PanicAt(ZERO, rows[..n])])
    else if n < |rows| then Failed(rows[..n])
    else Done(rows, Replayed(ZERO, rows[..n]).value)
  }

  /** How many frames are written up to and including the one whose mark panics. */
  function PanicAt(c: Cursor, rows: seq<Block>): (n: nat)
    requires Replayed(c, rows).None?
    ensures n <= |rows|
    decreases rows
  {
    match Mark(c, rows[0]) case None => 1 case Some(d) => 1 + PanicAt(d, rows[1..])
  }

  /**
  What replayTransactions must leave when the range query answers `scan`, given the range and the row limit, and
  the first `writable` frames can be written.
  */
  function ReplayOutcome(fromHeight: int, latest: Latest, scan: (int, int, nat) -> Option<seq<Block>>, writable: nat): Replay {
    if latest.QueryFailed? then Failed([])
    else if latest.NoRows? || fromHeight > latest.height then Done([], Cursor(fromHeight - 1, None))
    else
      match scan(fromHeight, ReplayEnd(fromHeight, latest.height), REPLAY_MAX_ROWS)
      case None => Failed([])
      case Some(rows) => WrittenRows(rows, writable)
  }

  lemma {:induction false} ReplayedOne(rows: seq<Block>, k: nat, c: Cursor)
    requires k < |rows| && Replayed(ZERO, rows[..k]) == Some(c)
    ensures Replayed(ZERO, rows[..k + 1]) == Mark(c, rows[k])
    ensures Mark(c, rows[k]).None? ==> PanicAt(ZERO, rows[..k + 1]) == k + 1
  {
    assert rows[..k + 1] == rows[..k] + [rows[k]];
    ReplayedThen(ZERO, rows[..k], rows[k]);
  }

  lemma {:induction false} ReplayedThen(c: Cursor, rows: seq<Block>, b: Block)
    requires Replayed(c, rows).Some?
    ensures Replayed(c, rows + [b]) == Mark(Replayed(c, rows).value, b)
    ensures Replayed(c, rows + [b]).None? ==> PanicAt(c, rows + [b]) == |rows| + 1
    decreases rows
  {
    if rows == [] {
      assert rows + [b] == [b] && [b][1..] == [];
    } else {
      assert (rows + [b])[1..] == rows[1..] + [b] && (rows + [b])[0] == rows[0];
      ReplayedThen(Mark(c, rows[0]).value, rows[1..], b);
    }
  }

  /** A panic while the first rows are written is a panic of the whole. */
  lemma {:induction false} PanicStays(c: Cursor, rows: seq<Block>, more: seq<Block>)
    requires Replayed(c, rows).None?
    ensures Replayed(c, rows + more).None? && PanicAt(c, rows + more) == PanicAt(c, rows)
    decreases rows
  {
    assert (rows + more)[1..] == rows[1..] + more && (rows + more)[0] == rows[0];
    match Mark(c, rows[0])
    case None =>
    case Some(d) => PanicStays(d, rows[1..], more);
  }

  method ReplayTransactions(fromHeight: int, latest: Latest, scan: (int, int, nat) -> Option<seq<Block>>, writable: nat)
    returns (r: Replay, cursor: TxStreamCursor)
    ensures r == ReplayOutcome(fromHeight, latest, scan, writable)
    ensures fresh(cursor) && (r.Done? ==> r.cursor == cursor.Value())
  {
    cursor := new TxStreamCursor(ZERO);
    if latest.QueryFailed? {
      return Failed([]), cursor;
    }
    if latest.NoRows? || fromHeight > latest.height {
      cursor := new TxStreamCursor(Cursor(fromHeight - 1, None));
      return Done([], Cursor(fromHeight - 1, None)), cursor;
    }
    var end := latest.height;
    if end - fromHeight + 1 > REPLAY_MAX_ROWS {
      end := fromHeight + REPLAY_MAX_ROWS - 1;
    }
    var answer := scan(fromHeight, end, REPLAY_MAX_ROWS);
    if answer.None? {
      return Failed([]), cursor;
    }
    r := WriteRows(answer.value, writable, cursor);
  }

  /** The write loop of replayTransactions. */
  method WriteRows(rows: seq<Block>, writable: nat, cursor: TxStreamCursor) returns (r: Replay)
    requires cursor.Value() == ZERO
    modifies cursor
    ensures r == WrittenRows(rows, writable) && (r.Done? ==> r.cursor == cursor.Value())
  {
    var frames := [];
    for k := 0 to |rows|
      invariant k <= writable && frames == rows[..k]
      invariant Replayed(ZERO, rows[..k]) == Some(cursor.Value())
    {
      if k == writable {
        return Failed(frames);
      }
      frames := frames + [rows[k]];
      ReplayedOne(rows, k, cursor.Value());
      var panicked := cursor.MarkSent(rows[k]);
      if panicked {
        var n := if |rows| < writable then |rows| else writable;
        PanicStays(ZERO, rows[..k + 1], rows[k + 1..n]);
        assert rows[..n] == rows[..k + 1] + rows[k + 1..n];
        return Panicked(frames);
      }
    }
    assert rows[..|rows|] == rows;
    r := Done(frames, cursor.Value());
  }

  datatype Incoming = ContextDone | ChannelClosed | Event(block: Block, lagged: bool, writable: bool) | Ping(ok: bool)

  /** The blocks that pass the lag check when every write succeeds. */
  function LetThrough(inputs: seq<Incoming>): seq<Block> {
    if inputs == [] then [] else
      match inputs[0]
      case Event(block, lagged, _) => if lagged then [] else [block] + LetThrough(inputs[1..])
      case Ping(ok) => if ok then LetThrough(inputs[1..]) else []
      case _ => []
  }

  /** What the input at k adds to the blocks let through. */
  /** The select loop goes on after this input when every write succeeds. */
  predicate GoesOn(input: Incoming) {
    (input.Event? && !input.lagged) || (input.Ping? && input.ok)
  }

  function EventBlocks(inputs: seq<Incoming>): seq<Block> {
    if inputs == [] then []
    else (if inputs[0].Event? then [inputs[0].block] else []) + EventBlocks(inputs[1..])
  }

  /** The blocks let through are those before the first lag, close, end of the context or failed ping. */
  lemma {:induction false} LetThroughExact(inputs: seq<Incoming>, n: nat)
    requires n <= |inputs| && (forall i | 0 <= i < n :: GoesOn(inputs[i])) && (n < |inputs| ==> !GoesOn(inputs[n]))
    ensures LetThrough(inputs) == EventBlocks(inputs[..n])
    decreases inputs
  {
    if n > 0 {
      assert inputs[1..][..n - 1] == inputs[..n][1..];
      LetThroughExact(inputs[1..], n - 1);
    }
  }

  lemma {:induction false} LetThroughOne(inputs: seq<Incoming>, k: nat, passed: seq<Block>)
    requires k < |inputs| && LetThrough(inputs) == passed + LetThrough(inputs[k..])
    ensures match inputs[k]
      case Event(block, lagged, _) =>
        LetThrough(inputs) == if lagged then passed else passed + [block] + LetThrough(inputs[k + 1..])
      case Ping(ok) => LetThrough(inputs) == if ok then passed + LetThrough(inputs[k + 1..]) else passed
      case _ => LetThrough(inputs) == passed
  {
    assert inputs[k..][1..] == inputs[k + 1..] && inputs[k..][0] == inputs[k];
    if inputs[k].Event? {
      assert passed + ([inputs[k].block] + LetThrough(inputs[k + 1..]))
          == passed + [inputs[k].block] + LetThrough(inputs[k + 1..]);
    }
  }

  predicate AllWritable(inputs: seq<Incoming>) {
    forall i | 0 <= i < |inputs| && inputs[i].Event? :: inputs[i].writable
  }

  lemma {:induction false} FilteredOne(filter: string, blocks: seq<Block>, b: Block)
    ensures Filtered(filter, blocks + [b]) == Filtered(filter, blocks) + if Matches(filter, b) then [b] else []
  {
    hide Matches;
    var all, last := blocks + [b], if Matches(filter, b) then [b] else [];
    if blocks == [] {
      assert all == [b] && all[1..] == [];
    } else {
      var head := if Matches(filter, blocks[0]) then [blocks[0]] else [];
      assert all[0] == blocks[0] && all[1..] == blocks[1..] + [b];
      FilteredOne(filter, blocks[1..], b);
      assert Filtered(filter, all) == head + (Filtered(filter, blocks[1..]) + last);
    }
  }

  /** One more block after some that did not panic. */
  lemma {:induction false} SendOne(c: Cursor, blocks: seq<Block>, b: Block)
    requires !Send(c, blocks).panicked
    ensures var sent, next := Send(c, blocks), Send(c, blocks + [b]);
      if Seen(sent.cursor, b) then next == sent
      else next.frames == sent.frames + [b] && next.panicked == Mark(sent.cursor, b).None?
           && (!next.panicked ==> next.cursor == Mark(sent.cursor, b).value)
    decreases blocks
  {
    if blocks == [] {
      assert blocks + [b] == [b] && [b][1..] == [];
    } else {
      assert (blocks + [b])[1..] == blocks[1..] + [b] && (blocks + [b])[0] == blocks[0];
      SendOne(if Seen(c, blocks[0]) then c else Mark(c, blocks[0]).value, blocks[1..], b);
    }
  }

  /** One more block let through. */
  lemma {:induction false} LiveOne(c: Cursor, filter: string, passed: seq<Block>, b: Block)
    requires !Send(c, Filtered(filter, passed)).panicked
    ensures var sent, next := Send(c, Filtered(filter, passed)), Send(c, Filtered(filter, passed + [b]));
      if !Matches(filter, b) || Seen(sent.cursor, b) then next == sent
      else next.frames == sent.frames + [b] && next.panicked == Mark(sent.cursor, b).None?
           && (!next.panicked ==> next.cursor == Mark(sent.cursor, b).value)
  {
    FilteredOne(filter, passed, b);
    if Matches(filter, b) {
      SendOne(c, Filtered(filter, passed), b);
    } else {
      assert Filtered(filter, passed) + [] == Filtered(filter, passed);
    }
  }

  /** The frames of the blocks let through, but for the last if its write failed. */
  predicate LiveWritten(frames: seq<Block>, sent: Sent, passed: seq<Block>) {
    frames == sent.frames || (passed != [] && frames + [passed[|passed| - 1]] == sent.frames)
  }

  /**
  runTxLive over the answers its select receives.  `passed` are the blocks that passed the lag check; a failed
  write or a panic ends the connection at the last of them.
  */
  method RunTxLive(inputs: seq<Incoming>, filter: string, cursor: TxStreamCursor)
    returns (frames: seq<Block>, passed: seq<Block>, panicked: bool)
    modifies cursor
    ensures passed <= LetThrough(inputs)
    ensures var sent := Send(old(cursor.Value()), Filtered(filter, passed));
      && LiveWritten(frames, sent, passed)
      && (panicked ==> frames == sent.frames && sent.panicked)
      && (AllWritable(inputs) ==>
            frames == sent.frames && panicked == sent.panicked && (panicked || passed == LetThrough(inputs)))
  {
    frames, passed, panicked := [], [], false;
    for k := 0 to |inputs|
      invariant LetThrough(inputs) == passed + LetThrough(inputs[k..])
      invariant var sent := Send(old(cursor.Value()), Filtered(filter, passed));
        !sent.panicked && frames == sent.frames && cursor.Value() == sent.cursor
    {
      LetThroughOne(inputs, k, passed);
      match inputs[k] {
        case ContextDone => return;
        case ChannelClosed => return;
        case Ping(ok) =>
          if !ok { return; }
        case Event(ab, lagged, writable) =>
          if lagged { return; }
          LiveOne(old(cursor.Value()), filter, passed, ab);
          passed := passed + [ab];
          if !Matches(filter, ab) {
            continue;
          }
          var seen := cursor.See(ab);
          if seen {
            continue;
          }
          if !writable { return; }
          frames := frames + [ab];
          panicked := cursor.MarkSent(ab);
          if panicked { return; }
      }
    }
  }

  // ----- The connection -----

  /**
  The frames of one connection and how it stands after them: `live` are the blocks let through that match the
  filter, `rows` those replay was answered.
  */
  function TxFrames(fromHeight: int, tip: Option<int>, rows: seq<Block>, live: seq<Block>): Sent {
    if fromHeight == 0 then Send(ZERO, live)
    else if tip.None? || fromHeight > tip.value then Send(Cursor(fromHeight - 1, None), live)
    else
      match Replayed(ZERO, rows)
      case None => Sent(rows[..PanicAt(ZERO, rows)], ZERO, true)
      case Some(c) => var sent := Send(c, live); sent.(frames := rows + sent.frames)
  }

  /** The handler from the upgrade on: a failed replay ends it, otherwise live frames follow. */
  method Serve(fromHeight: nat, latest: Latest, scan: (int, int, nat) -> Option<seq<Block>>, writable: nat,
               filter: string, inputs: seq<Incoming>)
    returns (frames: seq<Block>, replay: Replay, live: seq<Block>, passed: seq<Block>, panicked: bool)
    ensures replay == if fromHeight == 0 then Done([], ZERO) else ReplayOutcome(fromHeight, latest, scan, writable)
    ensures frames == replay.frames + live && passed <= LetThrough(inputs)
    ensures !replay.Done? ==> live == [] && passed == [] && panicked == replay.Panicked?
    ensures replay.Done? ==>
              var sent := Send(replay.cursor, Filtered(filter, passed));
              && LiveWritten(live, sent, passed)
              && (panicked ==> live == sent.frames && sent.panicked)
              && (AllWritable(inputs) ==>
                    live == sent.frames && panicked == sent.panicked && (panicked || passed == LetThrough(inputs)))
  {
    replay, live, passed := Done([], ZERO), [], [];
    var cursor := new TxStreamCursor(ZERO);
    if fromHeight > 0 {
      replay, cursor := ReplayTransactions(fromHeight, latest, scan, writable);
      if !replay.Done? {
        return replay.frames, replay, [], [], replay.Panicked?;
      }
    }
    live, passed, panicked := RunTxLive(inputs, filter, cursor);
    frames := replay.frames + live;
  }

  /** When replay succeeds the frames of a connection are those its latest height, rows and live blocks determine. */
  lemma {:induction false} FramesOfServe(fromHeight: nat, latest: Latest, scan: (int, int, nat) -> Option<seq<Block>>,
                                         writable: nat, live: seq<Block>)
    requires fromHeight > 0 ==> ReplayOutcome(fromHeight, latest, scan, writable).Done?
    ensures var replay := if fromHeight == 0 then Done([], ZERO) else ReplayOutcome(fromHeight, latest, scan, writable);
      var tip := if latest.Tip? then Some(latest.height) else None;
      var rows := if fromHeight > 0 && latest.Tip? && fromHeight <= latest.height
                  then scan(fromHeight, ReplayEnd(fromHeight, latest.height), REPLAY_MAX_ROWS) else Some([]);
      && rows.Some? && TxFrames(fromHeight, tip, rows.value, live).frames == replay.frames + Send(replay.cursor, live).frames
      && TxFrames(fromHeight, tip, rows.value, live).panicked == Send(replay.cursor, live).panicked
  {
    if fromHeight > 0 && latest.Tip? && fromHeight <= latest.height {
      var rows := scan(fromHeight, ReplayEnd(fromHeight, latest.height), REPLAY_MAX_ROWS).value;
      assert rows[..|rows|] == rows;
    }
  }

  /** Replay panics exactly when a row stands at height 0, and then nothing but that first row is written. */
  lemma {:induction false} ReplayPanics(rows: seq<Block>, live: seq<Block>, fromHeight: int, tip: int)
    requires 0 < fromHeight <= tip
    ensures var sent := TxFrames(fromHeight, Some(tip), rows, live);
      Replayed(ZERO, rows).None? ==> rows != [] && rows[0].height == 0 && sent.panicked && sent.frames == [rows[0]]
    ensures rows != [] && rows[0].height == 0 ==> Replayed(ZERO, rows).None?
  {
    if rows != [] && rows[0].height != 0 {
      NeverPanics(Mark(ZERO, rows[0]).value, rows[1..]);
    }
  }

  lemma {:induction false} NeverPanics(c: Cursor, rows: seq<Block>)
    requires c.hashes.Some?
    ensures Replayed(c, rows).Some?
    decreases rows
  {
    if rows != [] {
      NeverPanics(Mark(c, rows[0]).value, rows[1..]);
    }
  }

  /**
  Replay succeeds exactly when its queries do, no row stands at height 0, and every row can be written; it panics
  exactly when the first row it writes stands at height 0; and otherwise it fails after the rows it could write.
  */
  lemma {:induction false} ReplaySucceeds(fromHeight: nat, latest: Latest, scan: (int, int, nat) -> Option<seq<Block>>, writable: nat)
    ensures var r := ReplayOutcome(fromHeight, latest, scan, writable);
      var scans := latest.Tip? && fromHeight <= latest.height;
      var answer := if scans then scan(fromHeight, ReplayEnd(fromHeight, latest.height), 10000) else Some([]);
      var atZero := answer.Some? && answer.value != [] && answer.value[0].height == 0;
      && (r.Done? <==> latest != QueryFailed && answer.Some? && |answer.value| <= writable && !atZero)
      && (r.Panicked? <==> latest != QueryFailed && atZero && writable > 0)
      && (r.Done? ==> r.frames == answer.value)
      && (r.Panicked? ==> r.frames == [answer.value[0]])
      && (r.Failed? ==> r.frames == if latest == QueryFailed || answer.None? then [] else answer.value[..writable])
  {
    if latest.Tip? && fromHeight <= latest.height {
      var answer := scan(fromHeight, ReplayEnd(fromHeight, latest.height), REPLAY_MAX_ROWS);
      if answer.Some? {
        RowsOutcome(answer.value, writable);
      }
    }
  }

  lemma {:induction false} RowsOutcome(rows: seq<Block>, writable: nat)
    ensures var r, atZero := WrittenRows(rows, writable), rows != [] && rows[0].height == 0;
      && (r.Done? <==> |rows| <= writable && !atZero)
      && (r.Panicked? <==> atZero && writable > 0)
      && (r.Done? ==> r.frames == rows)
      && (r.Panicked? ==> r.frames == [rows[0]])
      && (r.Failed? ==> writable < |rows| && r.frames == rows[..writable])
  {
    var n := if |rows| < writable then |rows| else writable;
    var front := rows[..n];
    if n > 0 && rows[0].height != 0 {
      assert front[0] == rows[0];
      NeverPanics(Mark(ZERO, front[0]).value, front[1..]);
    } else if n > 0 {
      assert front[0] == rows[0];
    }
  }

  // ----- The reference: suppress by the whole history -----

  predicate Written(frames: seq<Block>, b: Block) {
    exists f :: f in frames && f.height == b.height && f.hash == b.hash
  }

  predicate Stale(frames: seq<Block>, b: Block) {
    exists f :: f in frames && f.height > b.height
  }

  function Reference(frames: seq<Block>, blocks: seq<Block>): seq<Block>
    decreases blocks
  {
    if blocks == [] then frames
    else if Stale(frames, blocks[0]) || Written(frames, blocks[0]) then Reference(frames, blocks[1..])
    else Reference(frames + [blocks[0]], blocks[1..])
  }

  predicate NonDecreasing(frames: seq<Block>) {
    forall i, j | 0 <= i < j < |frames| :: frames[i].height <= frames[j].height
  }

  predicate NoRepeats(frames: seq<Block>) {
    forall i, j | 0 <= i < j < |frames| :: frames[i].height != frames[j].height || frames[i].hash != frames[j].hash
  }

  predicate Positive(blocks: seq<Block>) {
    forall b | b in blocks :: b.height >= 1
  }

  ghost function HashesAt(frames: seq<Block>, height: int): set<string> {
    set f | f in frames && f.height == height :: f.hash
  }

  /** The cursor stands at the last frame's momentum and holds the hashes written there. */
  ghost predicate Tracks(c: Cursor, frames: seq<Block>) {
    if frames == [] then c == ZERO else
      && c.height == frames[|frames| - 1].height
      && c.hashes == Some(HashesAt(frames, c.height))
  }

  lemma {:induction false} SeenExact(c: Cursor, frames: seq<Block>, b: Block)
    requires Tracks(c, frames) && NonDecreasing(frames) && Positive(frames) && b.height >= 1
    ensures Seen(c, b) <==> Stale(frames, b) || Written(frames, b)
  {
    if frames != [] {
      var last := frames[|frames| - 1];
      assert last in frames;
      forall f | f in frames ensures f.height <= last.height {
        var i :| 0 <= i < |frames| && frames[i] == f;
      }
    }
  }

  lemma {:induction false} HashesAtAppend(frames: seq<Block>, b: Block, height: int)
    ensures HashesAt(frames + [b], height) == HashesAt(frames, height) + if b.height == height then {b.hash} else {}
  {
    assert forall f :: f in frames + [b] <==> f in frames || f == b;
  }

  lemma {:induction false} MarkTracks(c: Cursor, frames: seq<Block>, b: Block)
    requires Tracks(c, frames) && NonDecreasing(frames) && Positive(frames) && b.height >= 1
    requires !Stale(frames, b)
    ensures Mark(c, b).Some? && Tracks(Mark(c, b).value, frames + [b]) && NonDecreasing(frames + [b])
  {
    forall i | 0 <= i < |frames| ensures frames[i].height <= b.height { assert frames[i] in frames; }
    HashesAtAppend(frames, b, b.height);
    if frames == [] || c.height != b.height {
      forall f | f in frames ensures f.height != b.height {
        var i :| 0 <= i < |frames| && frames[i] == f;
        assert f.height <= frames[|frames| - 1].height;
      }
      assert HashesAt(frames, b.height) == {} && {} + {b.hash} == {b.hash};
    }
  }

  /** From any tracked position the cursor's frames are those of the full history, and it never panics. */
  lemma {:induction false} SendRefines(c: Cursor, frames: seq<Block>, blocks: seq<Block>)
    requires Tracks(c, frames) && NonDecreasing(frames) && Positive(frames) && Positive(blocks)
    ensures !Send(c, blocks).panicked
    ensures frames + Send(c, blocks).frames == Reference(frames, blocks)
    decreases blocks
  {
    if blocks != [] {
      var b := blocks[0];
      SeenExact(c, frames, b);
      if Seen(c, b) {
        SendRefines(c, frames, blocks[1..]);
      } else {
        MarkTracks(c, frames, b);
        SendRefines(Mark(c, b).value, frames + [b], blocks[1..]);
        assert frames + ([b] + Send(Mark(c, b).value, blocks[1..]).frames)
            == (frames + [b]) + Send(Mark(c, b).value, blocks[1..]).frames;
      }
    }
  }

  /** ORDER BY momentum_height ASC, hash ASC over rows with distinct hashes at each height. */
  predicate IsReplayScan(rows: seq<Block>) {
    NonDecreasing(rows) && NoRepeats(rows) && Positive(rows)
  }

  lemma {:induction false} SplitOrdered(before: seq<Block>, rows: seq<Block>)
    requires rows != [] && NonDecreasing(before + rows) && Positive(before + rows)
    ensures NonDecreasing(before) && Positive(before) && rows[0].height >= 1
    ensures forall f | f in before :: f.height <= rows[0].height
  {
    var all := before + rows;
    assert forall f | f in before :: f in all;
    assert rows[0] == all[|before|] && rows[0] in all;
    forall i, j | 0 <= i < j < |before|
      ensures before[i].height <= before[j].height
    {
      assert all[i] == before[i] && all[j] == before[j];
    }
    forall f | f in before
      ensures f.height <= rows[0].height
    {
      var i :| 0 <= i < |before| && before[i] == f;
      assert all[i] == f;
    }
  }

  lemma {:induction false} ReplayTracks(c: Cursor, before: seq<Block>, rows: seq<Block>)
    requires Tracks(c, before) && NonDecreasing(before + rows) && Positive(before + rows)
    ensures Replayed(c, rows).Some? && Tracks(Replayed(c, rows).value, before + rows)
    decreases rows
  {
    hide Tracks, NonDecreasing, Positive, Mark;
    if rows == [] {
      assert before + rows == before;
    } else {
      SplitOrdered(before, rows);
      MarkTracks(c, before, rows[0]);
      assert before + rows == (before + [rows[0]]) + rows[1..];
      ReplayTracks(Mark(c, rows[0]).value, before + [rows[0]], rows[1..]);
    }
  }

  /**
  Replay, then live: the frames are those of the full history, for every replay (also an empty one) and
  every sequence of live blocks of heights at least 1.
  */
  lemma {:induction false} StreamRefines(rows: seq<Block>, live: seq<Block>)
    requires IsReplayScan(rows) && Positive(live)
    ensures Replayed(ZERO, rows).Some?
    ensures var sent := Send(Replayed(ZERO, rows).value, live);
      !sent.panicked && rows + sent.frames == Reference(rows, live)
  {
    assert [] + rows == rows;
    ReplayTracks(ZERO, [], rows);
    SendRefines(Replayed(ZERO, rows).value, rows, live);
  }

  // ----- What the reference promises -----

  /** Heights never decrease and no block is written twice. */
  lemma {:induction false} ReferenceOrdered(frames: seq<Block>, blocks: seq<Block>)
    requires NonDecreasing(frames) && NoRepeats(frames)
    ensures NonDecreasing(Reference(frames, blocks)) && NoRepeats(Reference(frames, blocks))
    decreases blocks
  {
    if blocks != [] {
      var b := blocks[0];
      if Stale(frames, b) || Written(frames, b) {
        ReferenceOrdered(frames, blocks[1..]);
      } else {
        forall i | 0 <= i < |frames|
          ensures frames[i].height <= b.height && (frames[i].height != b.height || frames[i].hash != b.hash)
        {
          assert frames[i] in frames;
        }
        ReferenceOrdered(frames + [b], blocks[1..]);
      }
    }
  }

  lemma {:induction false} ReferenceKeeps(frames: seq<Block>, blocks: seq<Block>, f: Block)
    requires f in frames
    ensures f in Reference(frames, blocks)
    decreases blocks
  {
    if blocks != [] {
      var b := blocks[0];
      if Stale(frames, b) || Written(frames, b) {
        ReferenceKeeps(frames, blocks[1..], f);
      } else {
        ReferenceKeeps(frames + [b], blocks[1..], f);
      }
    }
  }

  /** No block is lost: a live block is written unless a later momentum's block was written before it came. */
  lemma {:induction false} ReferenceComplete(frames: seq<Block>, blocks: seq<Block>, i: nat)
    requires i < |blocks|
    ensures Written(Reference(frames, blocks), blocks[i]) || Stale(Reference(frames, blocks[..i]), blocks[i])
    decreases blocks
  {
    var b := blocks[0];
    var keep := Stale(frames, b) || Written(frames, b);
    var next := if keep then frames else frames + [b];
    if i == 0 {
      assert blocks[..0] == [];
      if !Stale(frames, b) {
        var f :| f in next && f.height == b.height && f.hash == b.hash;
        ReferenceKeeps(next, blocks[1..], f);
      }
    } else {
      assert blocks[..i][1..] == blocks[1..][..i - 1];
      ReferenceComplete(next, blocks[1..], i - 1);
    }
  }

  // ----- The handover -----

  /** Live blocks come in commit order: each is written unless it is behind what is written already. */
  lemma {:induction false} LiveBlockWritten(frames: seq<Block>, blocks: seq<Block>, i: nat)
    requires i < |blocks| && NonDecreasing(blocks)
    requires forall f | f in frames :: f.height <= blocks[i].height
    ensures Written(Reference(frames, blocks), blocks[i])
    decreases blocks
  {
    var b := blocks[0];
    var next := if Stale(frames, b) || Written(frames, b) then frames else frames + [b];
    if i == 0 {
      if Written(frames, b) {
        var f :| f in frames && f.height == b.height && f.hash == b.hash;
        ReferenceKeeps(next, blocks[1..], f);
      } else {
        ReferenceKeeps(next, blocks[1..], b);
      }
    } else {
      assert blocks[1..][i - 1] == blocks[i] && blocks[0].height <= blocks[i].height;
      LiveBlockWritten(next, blocks[1..], i - 1);
    }
  }

  lemma {:induction false} FramesComeFrom(frames: seq<Block>, blocks: seq<Block>, f: Block)
    requires f in Reference(frames, blocks)
    ensures f in frames || f in blocks
    decreases blocks
  {
    if blocks != [] {
      var b := blocks[0];
      FramesComeFrom(if Stale(frames, b) || Written(frames, b) then frames else frames + [b], blocks[1..], f);
      assert forall x | x in blocks[1..] :: x in blocks;
    }
  }

  /** Every block of a list is among the frames, by height and hash. */
  predicate AllWritten(frames: seq<Block>, blocks: seq<Block>) {
    forall i | 0 <= i < |blocks| :: Written(frames, blocks[i])
  }

  /** Every live block from a height on is among the frames. */
  predicate LiveServed(frames: seq<Block>, live: seq<Block>, from: int) {
    forall i | 0 <= i < |live| && live[i].height >= from :: Written(frames, live[i])
  }

  /** The replayed case: the caps let the first n rows of the table through. */
  lemma {:induction false} ReplayedHandover(from: int, table: seq<Block>, n: nat, live: seq<Block>, tip: int)
    requires IsReplayScan(table) && n <= |table| && NonDecreasing(live)
    requires forall b | b in table :: b.height <= tip
    requires forall b | b in live && from <= b.height <= tip :: Written(table, b)
    ensures var frames := Reference(table[..n], live);
      AllWritten(frames, table) && LiveServed(frames, live, from) <==> AllWritten(live, table[n..])
  {
    var frames := Reference(table[..n], live);
    RowsAllWritten(table[..n], live);
    LiveAllWritten(from, table, n, live, tip);
    AllWrittenSplits(frames, table, n);
    forall i | 0 <= i < |table[n..]|
      ensures Written(frames, table[n..][i]) <==> Written(live, table[n..][i])
    {
      CutOff(table, n, live, n + i);
    }
  }

  lemma {:induction false} AllWrittenSplits(frames: seq<Block>, table: seq<Block>, n: nat)
    requires n <= |table|
    ensures AllWritten(frames, table) <==> AllWritten(frames, table[..n]) && AllWritten(frames, table[n..])
  {
    assert forall i | 0 <= i < n :: table[i] == table[..n][i];
    assert forall i | n <= i < |table| :: table[i] == table[n..][i - n];
  }

  lemma {:induction false} RowsAllWritten(rows: seq<Block>, live: seq<Block>)
    ensures AllWritten(Reference(rows, live), rows)
  {
    forall i | 0 <= i < |rows|
      ensures Written(Reference(rows, live), rows[i])
    {
      ReferenceKeeps(rows, live, rows[i]);
    }
  }

  lemma {:induction false} LiveAllWritten(from: int, table: seq<Block>, n: nat, live: seq<Block>, tip: int)
    requires IsReplayScan(table) && n <= |table| && NonDecreasing(live)
    requires forall b | b in table :: b.height <= tip
    requires forall b | b in live && from <= b.height <= tip :: Written(table, b)
    ensures LiveServed(Reference(table[..n], live), live, from)
  {
    var rows := table[..n];
    forall i | 0 <= i < |live| && live[i].height >= from
      ensures Written(Reference(rows, live), live[i])
    {
      if Written(rows, live[i]) {
        var f :| f in rows && f.height == live[i].height && f.hash == live[i].hash;
        ReferenceKeeps(rows, live, f);
      } else {
        PastTheRows(table, n, live[i], tip);
        LiveBlockWritten(rows, live, i);
      }
    }
  }

  /** A block that is not among the rows is not behind them. */
  lemma {:induction false} PastTheRows(table: seq<Block>, n: nat, b: Block, tip: int)
    requires IsReplayScan(table) && n <= |table| && !Written(table[..n], b)
    requires forall x | x in table :: x.height <= tip
    requires b.height > tip || Written(table, b)
    ensures forall f | f in table[..n] :: f.height <= b.height
  {
    if b.height <= tip {
      var x :| x in table && x.height == b.height && x.hash == b.hash;
      var i :| 0 <= i < |table| && table[i] == x;
      assert i >= n;
    } else {
      assert forall f | f in table[..n] :: f in table;
    }
  }

  /** A row the caps cut off is written only if it comes live. */
  lemma {:induction false} CutOff(table: seq<Block>, n: nat, live: seq<Block>, i: nat)
    requires IsReplayScan(table) && n <= i < |table| && NonDecreasing(live)
    ensures Written(Reference(table[..n], live), table[i]) <==> Written(live, table[i])
  {
    var rows, frames := table[..n], Reference(table[..n], live);
    if Written(frames, table[i]) {
      var f :| f in frames && f.height == table[i].height && f.hash == table[i].hash;
      FramesComeFrom(rows, live, f);
    }
    if Written(live, table[i]) {
      var x :| x in live && x.height == table[i].height && x.hash == table[i].hash;
      var k :| 0 <= k < |live| && live[k] == x;
      forall f | f in rows ensures f.height <= x.height {
        var j :| 0 <= j < n && rows[j] == f;
        assert table[j] == f;
      }
      LiveBlockWritten(rows, live, k);
    }
  }

  function Unary(n: nat): (s: string)
    ensures |s| == n
  {
    seq(n, i => 'x')
  }

  /** Blocks of one momentum, in the order of their hashes. */
  function OneMomentum(count: nat): (rows: seq<Block>)
    ensures |rows| == count && forall i | 0 <= i < count :: rows[i] == Block(5, Unary(i), "", "")
  {
    if count == 0 then [] else OneMomentum(count - 1) + [Block(5, Unary(count - 1), "", "")]
  }

  /** One block more than the row limit, none of them live: the last is not written. */
  lemma {:induction false} TxRowCapWitness() returns (table: seq<Block>)
    ensures IsReplayScan(table) && |table| == REPLAY_MAX_ROWS + 1
    ensures !Written(Reference(table[..REPLAY_MAX_ROWS], []), table[REPLAY_MAX_ROWS])
  {
    table := OneMomentum(REPLAY_MAX_ROWS + 1);
    forall i, j | 0 <= i < j < |table|
      ensures table[i].hash != table[j].hash && table[i].height == table[j].height
    {
      assert |table[i].hash| == i && |table[j].hash| == j;
    }
    CutOff(table, REPLAY_MAX_ROWS, [], REPLAY_MAX_ROWS);
  }

  // ----- The nil map -----

  /** The first block at or above the cursor decides. */
  predicate FirstMeetsCursor(height: int, blocks: seq<Block>) {
    blocks != [] &&
    if height > 0 && blocks[0].height < height then FirstMeetsCursor(height, blocks[1..])
    else blocks[0].height == height
  }

  /**
  The cursor left by a from_height beyond the tip stands at from_height - 1 with a nil map.  The handler
  panics exactly when the first live block at or above that height is at that height.
  */
  lemma {:induction false} NilCursorPanics(height: int, blocks: seq<Block>)
    requires Positive(blocks)
    ensures Send(Cursor(height, None), blocks).panicked <==> FirstMeetsCursor(height, blocks)
    decreases blocks
  {
    if blocks != [] {
      var b := blocks[0];
      if height > 0 && b.height < height {
        NilCursorPanics(height, blocks[1..]);
      } else if b.height != height {
        assert [] + [b] == [b] && Tracks(Mark(Cursor(height, None), b).value, [b]) by {
          assert Mark(ZERO, b) == Mark(Cursor(height, None), b);
          MarkTracks(ZERO, [], b);
        }
        SendRefines(Mark(Cursor(height, None), b).value, [b], blocks[1..]);
      }
    }
  }

  /** A client that asks for the height after next: from_height = tip + 2 meets tip + 1 first. */
  lemma {:induction false} NilCursorWitness(tip: nat, hash: string)
    ensures Send(Cursor((tip + 2) - 1, None), [Block(tip + 1, hash, "", "")]).panicked
  {
  }

  /** What a client beyond the tip receives: everything above its cursor, or nothing of it. */
  lemma {:induction false} NilCursorFrames(height: int, live: seq<Block>)
    requires Positive(live) && NonDecreasing(live)
    ensures LiveServed(Send(Cursor(height, None), live).frames, live, height + 1)
            <==> !FirstMeetsCursor(height, live) || forall b | b in live :: b.height <= height
    decreases live
  {
    if live != [] {
      var b, rest := live[0], live[1..];
      assert live == [b] + rest;
      if height > 0 && b.height < height {
        NilCursorFrames(height, rest);
        ServedBelow(Send(Cursor(height, None), rest).frames, b, rest, height + 1);
      } else if b.height == height {
        MetFrames(height, live);
      } else {
        PassedFrames(height, live);
      }
    }
  }

  lemma {:induction false} ServedBelow(frames: seq<Block>, b: Block, rest: seq<Block>, from: int)
    requires b.height < from
    ensures LiveServed(frames, [b] + rest, from) <==> LiveServed(frames, rest, from)
    ensures (forall x | x in [b] + rest :: x.height < from) <==> (forall x | x in rest :: x.height < from)
  {
    var all := [b] + rest;
    assert forall i | 0 <= i < |rest| :: all[i + 1] == rest[i];
    assert forall i | 0 < i < |all| :: all[i] == rest[i - 1];
  }

  /** The first block at the cursor is written, and the handler panics on it. */
  lemma {:induction false} MetFrames(height: int, live: seq<Block>)
    requires live != [] && live[0].height == height
    ensures Send(Cursor(height, None), live).frames == [live[0]]
    ensures LiveServed([live[0]], live, height + 1) <==> forall b | b in live :: b.height <= height
  {
    if i :| 0 <= i < |live| && live[i].height > height {
      assert !Written([live[0]], live[i]);
    }
  }

  /** The first block is above the cursor: from there on nothing is missing. */
  lemma {:induction false} PassedFrames(height: int, live: seq<Block>)
    requires Positive(live) && NonDecreasing(live) && live != []
    requires live[0].height != height && !(height > 0 && live[0].height < height)
    ensures LiveServed(Send(Cursor(height, None), live).frames, live, height + 1)
  {
    var b := live[0];
    assert [] + [b] == [b] && Tracks(Mark(Cursor(height, None), b).value, [b]) by {
      assert Mark(ZERO, b) == Mark(Cursor(height, None), b);
      MarkTracks(ZERO, [], b);
    }
    SendRefines(Mark(Cursor(height, None), b).value, [b], live[1..]);
    var frames := Send(Cursor(height, None), live).frames;
    assert frames == Reference([b], live[1..]) == Reference([], live);
    forall i | 0 <= i < |live| ensures Written(frames, live[i]) {
      LiveBlockWritten([], live, i);
    }
  }

  // ----- The handover, for every from_height -----

  /** The stored blocks the connection is about: from from_height to the tip, in replay order; none when nothing is replayed. */
  predicate IsTable(table: seq<Block>, from: int, tip: Option<int>) {
    && IsReplayScan(table)
    && (forall b | b in table :: from > 0 && tip.Some? && from <= b.height <= tip.value)
  }

  /** The live blocks come in commit order, and those up to the tip the client asked for are stored. */
  predicate IsLive(live: seq<Block>, table: seq<Block>, from: int, tip: Option<int>) {
    && Positive(live) && NonDecreasing(live)
    && (from > 0 && tip.Some? ==> forall b | b in live && from <= b.height <= tip.value :: Written(table, b))
  }

  /** The connection starts behind its from_height, with a cursor that holds no hashes. */
  predicate BeyondTip(from: int, tip: Option<int>) {
    from > 0 && (tip.None? || from > tip.value)
  }

  /**
  The client receives every stored block from from_height to the tip and every live block from from_height on
  exactly when: beyond the tip, or over an empty table, the first live block at or above from_height - 1 is not at
  that height, or nothing at from_height comes; and otherwise each row the caps cut off comes live.
  */
  lemma {:induction false} TxHandoverExact(from: int, tip: Option<int>, table: seq<Block>, n: nat, live: seq<Block>)
    requires from >= 0 && IsTable(table, from, tip) && n <= |table| && IsLive(live, table, from, tip)
    ensures var frames := TxFrames(from, tip, table[..n], live).frames;
      AllWritten(frames, table) && LiveServed(frames, live, from) <==>
      if BeyondTip(from, tip) then !FirstMeetsCursor(from - 1, live) || forall b | b in live :: b.height < from
      else AllWritten(live, table[n..])
  {
    if BeyondTip(from, tip) {
      SomeBlock(table);
      NilCursorFrames(from - 1, live);
    } else if from == 0 {
      SomeBlock(table);
      SendRefines(ZERO, [], live);
      assert [] + Send(ZERO, live).frames == Send(ZERO, live).frames;
      forall i | 0 <= i < |live| ensures Written(Reference([], live), live[i]) {
        LiveBlockWritten([], live, i);
      }
    } else {
      PrefixIsScan(table, n);
      StreamRefines(table[..n], live);
      ReplayedHandover(from, table, n, live, tip.value);
    }
  }

  lemma {:induction false} SomeBlock(table: seq<Block>)
    ensures table != [] ==> exists b :: b in table
  {
    if table != [] {
      assert table[0] in table;
    }
  }

  lemma {:induction false} PrefixIsScan(table: seq<Block>, n: nat)
    requires IsReplayScan(table) && n <= |table|
    ensures IsReplayScan(table[..n])
  {
    assert forall b | b in table[..n] :: b in table;
  }

  /** The query's answer: the rows of the table up to a height, in order, as many as the limit. */
  predicate IsLimitedScan(rows: seq<Block>, table: seq<Block>, hi: int, limit: nat) {
    && |rows| <= limit && rows <= table && (forall b | b in rows :: b.height <= hi)
    && (|rows| < |table| ==> |rows| == limit || table[|rows|].height > hi)
  }

  /** A replay that is within both caps answers the whole table, and then nothing is missing, whatever comes live. */
  lemma {:induction false} NothingIsCut(from: int, tip: int, table: seq<Block>, rows: seq<Block>, live: seq<Block>)
    requires 0 < from <= tip && IsTable(table, from, Some(tip)) && IsLive(live, table, from, Some(tip))
    requires IsLimitedScan(rows, table, ReplayEnd(from, tip), REPLAY_MAX_ROWS)
    ensures rows == table <==> |table| <= 10000 && forall b | b in table :: b.height < from + 10000
    ensures rows == table ==>
              var frames := TxFrames(from, Some(tip), rows, live).frames; AllWritten(frames, table) && LiveServed(frames, live, from)
  {
    if |rows| < |table| {
      assert table[|rows|] in table;
    } else {
      assert rows == table;
      assert table[..|table|] == table;
      TxHandoverExact(from, Some(tip), table, |table|, live);
    }
  }

  /** from_height two above the tip: the block at from_height never arrives. */
  lemma {:induction false} BeyondTipWitness(tip: nat) returns (live: seq<Block>)
    ensures Positive(live) && NonDecreasing(live) && |live| == 2 && live[1].height == tip + 2
    ensures !Written(TxFrames(tip + 2, Some(tip), [], live).frames, live[1])
  {
    live := [Block(tip + 1, "a", "", ""), Block(tip + 2, "b", "", "")];
    MetFrames(tip + 1, live);
  }

  // ----- Through the hub -----

  lemma {:induction false} FilteredIn(filter: string, blocks: seq<Block>, b: Block)
    ensures b in Filtered(filter, blocks) <==>
            b in blocks && (filter == "" || b.address == filter || b.toAddress == filter)
  {
    if blocks != [] {
      FilteredIn(filter, blocks[1..], b);
      assert blocks == [blocks[0]] + blocks[1..];
    }
  }

  lemma {:induction false} FilteredOrdered(filter: string, blocks: seq<Block>)
    requires NonDecreasing(blocks)
    ensures NonDecreasing(Filtered(filter, blocks))
  {
    if blocks != [] {
      FilteredOrdered(filter, blocks[1..]);
      var rest := Filtered(filter, blocks[1..]);
      forall i | 0 <= i < |rest|
        ensures blocks[0].height <= rest[i].height
      {
        FilteredIn(filter, blocks[1..], rest[i]);
        var j :| 0 <= j < |blocks[1..]| && blocks[1..][j] == rest[i];
        assert blocks[j + 1] == rest[i];
      }
    }
  }

  /** The blocks of the notifications a subscriber let through, when notification i is about block chain[i]. */
  function LetThroughBy(sub: HubProtocol.Sub, chain: seq<Block>): seq<Block>
    requires sub.first + sub.passed <= |chain|
  {
    chain[sub.first..sub.first + sub.passed]
  }

  /**
  What the handler finds stored: the tip it reads splits the notifications, since a momentum commits as a whole, and
  the rows from from_height to the tip that match the filter include all of them from before the tip.
  */
  predicate TableOf(table: seq<Block>, chain: seq<Block>, committed: nat, filter: string, from: int, tip: Option<int>) {
    && IsTable(table, from, tip) && committed <= |chain|
    && (forall i | 0 <= i < |chain| :: i < committed <==> tip.Some? && chain[i].height <= tip.value)
    && (forall i | 0 <= i < committed && Matches(filter, chain[i]) && chain[i].height >= from > 0 :: Written(table, chain[i]))
  }

  /** Every matching block committed since the subscription or stored, from from_height on, as far as the client got. */
  predicate Complete(frames: seq<Block>, table: seq<Block>, chain: seq<Block>, from: int, filter: string, first: nat, end: nat)
    requires end <= |chain|
  {
    && AllWritten(frames, table)
    && (forall i | (if from == 0 then first else 0) <= i < end && Matches(filter, chain[i]) && chain[i].height >= from ::
          Written(frames, chain[i]))
  }

  lemma {:induction false} LiveOfHub(table: seq<Block>, chain: seq<Block>, committed: nat, filter: string, from: int,
                                     tip: Option<int>, first: nat, end: nat)
    requires Positive(chain) && NonDecreasing(chain) && TableOf(table, chain, committed, filter, from, tip)
    requires first <= end <= |chain|
    ensures IsLive(Filtered(filter, chain[first..end]), table, from, tip)
  {
    var blocks := chain[first..end];
    assert forall i | 0 <= i < |blocks| :: blocks[i] == chain[first + i];
    FilteredOrdered(filter, blocks);
    forall b | b in Filtered(filter, blocks)
      ensures b.height >= 1
      ensures from > 0 && tip.Some? && from <= b.height <= tip.value ==> Written(table, b)
    {
      FilteredIn(filter, blocks, b);
      var i :| 0 <= i < |blocks| && blocks[i] == b;
      assert chain[first + i] == b && chain[first + i] in chain;
    }
  }

  /** Served live from the subscription on and served from the table before it is served altogether. */
  lemma {:induction false} CompleteIsServed(frames: seq<Block>, table: seq<Block>, chain: seq<Block>, committed: nat,
                                            filter: string, from: int, tip: Option<int>, first: nat, end: nat)
    requires TableOf(table, chain, committed, filter, from, tip) && first <= end <= |chain| && first <= committed && from >= 0
    ensures AllWritten(frames, table) && LiveServed(frames, Filtered(filter, chain[first..end]), from)
            <==> Complete(frames, table, chain, from, filter, first, end)
  {
    var blocks, live := chain[first..end], Filtered(filter, chain[first..end]);
    if AllWritten(frames, table) && LiveServed(frames, live, from) {
      forall i | (if from == 0 then first else 0) <= i < end && Matches(filter, chain[i]) && chain[i].height >= from
        ensures Written(frames, chain[i])
      {
        if i < first {
          var x :| x in table && x.height == chain[i].height && x.hash == chain[i].hash;
          var j :| 0 <= j < |table| && table[j] == x;
          assert Written(frames, table[j]);
        } else {
          assert blocks[i - first] == chain[i];
          FilteredIn(filter, blocks, chain[i]);
          var j :| 0 <= j < |live| && live[j] == chain[i];
          assert Written(frames, live[j]);
        }
      }
    }
    if Complete(frames, table, chain, from, filter, first, end) {
      forall j | 0 <= j < |live| && live[j].height >= from
        ensures Written(frames, live[j])
      {
        FilteredIn(filter, blocks, live[j]);
        var i :| 0 <= i < |blocks| && blocks[i] == live[j];
        assert chain[first + i] == live[j];
      }
    }
  }

  /**
  In every reachable hub state without malformed payloads, subscribing before reading the tip leaves no block missing
  between the stored rows and the live ones: the client has everything it asked for, as far as the events that passed
  the lag check go, exactly under the condition of TxHandoverExact.
  */
  lemma {:induction false} TxHandoverThroughHub(cfg: HubProtocol.Config, h: HubProtocol.Sys, s: nat, chain: seq<Block>,
                                                filter: string, from: int, tip: Option<int>, table: seq<Block>, n: nat)
    requires HubTheorems.Reachable(cfg, h) && !h.skipped && s in h.reg.objs && h.reg.objs[s].tip.Some?
    requires Positive(chain) && NonDecreasing(chain) && from >= 0 && n <= |table|
    requires TableOf(table, chain, h.reg.objs[s].tip.value, filter, from, tip)
    requires h.reg.objs[s].first + h.reg.objs[s].passed <= |chain|
    ensures var sub := h.reg.objs[s];
      var live := Filtered(filter, LetThroughBy(sub, chain));
      && sub.passed <= |sub.recv| && sub.recv[..sub.passed] == Range(sub.first, sub.first + sub.passed)
      && (Complete(TxFrames(from, tip, table[..n], live).frames, table, chain, from, filter, sub.first, sub.first + sub.passed)
          <==> if BeyondTip(from, tip) then !FirstMeetsCursor(from - 1, live) || forall b | b in live :: b.height < from
               else AllWritten(live, table[n..]))
  {
    hide IsTable, IsLive, NonDecreasing, Positive, TxFrames, AllWritten, LiveServed, Complete, FirstMeetsCursor, Filtered;
    var sub := h.reg.objs[s];
    var end := sub.first + sub.passed;
    var live := Filtered(filter, chain[sub.first..end]);
    HubTheorems.PassedIsConsecutive(cfg, h, s);
    LiveOfHub(table, chain, sub.tip.value, filter, from, tip, sub.first, end);
    TxHandoverExact(from, tip, table, n, live);
    CompleteIsServed(TxFrames(from, tip, table[..n], live).frames, table, chain, sub.tip.value, filter, from, tip, sub.first, end);
  }
}
