/** What the invariant means for the users of the hub: statements about every schedule. */
module HubTheorems {
  import opened Wrappers
  import opened HubProtocol
  import opened HubInvariant

  /** Some schedule leads here from the initial state. */
  ghost predicate Reachable(cfg: Config, h: Sys) {
    exists schedule :: h == After(cfg, Init(), schedule)
  }

  lemma {:induction false} ReachableInv(cfg: Config, h: Sys)
    requires Reachable(cfg, h)
    ensures Inv(cfg, h)
  {
    var schedule :| h == After(cfg, Init(), schedule);
    RunInv(cfg, schedule);
  }

  lemma {:induction false} Continue(cfg: Config, h: Sys, before: seq<Step>, more: seq<Step>)
    ensures After(cfg, h, before + more) == After(cfg, After(cfg, h, before), more)
  {
    if more == [] {
      assert before + more == before;
    } else {
      var front := more[..|more| - 1];
      assert (before + more)[..|before + more| - 1] == before + front;
      Continue(cfg, h, before, front);
    }
  }

  lemma {:induction false} ContinueReachable(cfg: Config, h: Sys, more: seq<Step>)
    requires Reachable(cfg, h)
    ensures Reachable(cfg, After(cfg, h, more))
  {
    var schedule :| h == After(cfg, Init(), schedule);
    Continue(cfg, Init(), schedule, more);
  }

  // ----- Channels -----

  /**
  No interleaving of Close, closeAllSubs and dispatch closes a channel twice or sends on a closed one, and
  outside closeAllSubs's critical section every registered subscriber's channel is open.
  */
  lemma {:induction false} ChannelsSafe(cfg: Config, h: Sys)
    requires Reachable(cfg, h)
    ensures h.panics == 0
    ensures forall s | s in h.reg.objs :: h.reg.objs[s].closes <= 1
    ensures h.lock != Write(RunLoop) ==> forall s | s in h.reg.subs :: s in h.reg.objs && h.reg.objs[s].closes == 0
  {
    ReachableInv(cfg, h);
    forall s | s in h.reg.objs ensures FlagsOf(h, s) {}
  }

  /** Once every Close and closeAllSubs in progress is over, the closed channels are those not registered. */
  lemma {:induction false} ClosedExactlyOnce(cfg: Config, h: Sys, s: nat)
    requires Reachable(cfg, h) && s in h.reg.objs
    requires !InCloseAll(h.run) && forall t | t in h.handlers :: !Closes(h.handlers[t], s)
    ensures h.reg.objs[s].closes == if s in h.reg.subs then 0 else 1
  {
    ReachableInv(cfg, h);
    assert FlagsOf(h, s);
  }

  // ----- The per-subject cap -----

  /** The cached count is the number of registered subscribers, zero entries are deleted, the cap holds. */
  lemma {:induction false} CapHolds(cfg: Config, h: Sys, subject: string)
    requires Reachable(cfg, h)
    ensures SubjectCount(h.reg, subject) == |SubjectSubs(h.reg, subject)|
    ensures subject in h.reg.perSubject <==> SubjectSubs(h.reg, subject) != {}
    ensures cfg.perSubjectMax > 0 ==> |SubjectSubs(h.reg, subject)| <= cfg.perSubjectMax
  {
    ReachableInv(cfg, h);
    assert Counted(cfg, h.reg, subject);
  }

  // ----- Nobody is stranded -----

  /** No subscriber, and no Subscribe that could still add one. */
  ghost predicate Quiet(h: Sys) {
    h.state != Running && h.reg.subs == {} && InvLock(h) && forall t | t in h.handlers :: !h.handlers[t].Admitted?
  }

  lemma {:induction false} QuietKept(cfg: Config, h: Sys, step: Step)
    requires Quiet(h) && (step != StoreRunning || h.run != Listened)
    ensures Quiet(Do(cfg, h, step)) && Do(cfg, h, step).reg.objs.Keys == h.reg.objs.Keys
  {
    if Enabled(h, step) { LockKept(cfg, h, step); }
  }

  /** Run is between two sessions, or drains after a session that failed. */
  predicate BetweenSessions(h: Sys) {
    h.run == Connecting || h.run == Listened || (h.run == Draining && h.state != Running)
  }

  /**
  Whenever Run is between two sessions the subscriber set is empty, every subscriber ever created has been
  flagged closed, and none can appear before the next Running store, not even from a Subscribe that had
  already passed its first check.
  */
  lemma {:induction false} NoneStrandedBetweenSessions(cfg: Config, h: Sys, more: seq<Step>)
    requires Reachable(cfg, h) && BetweenSessions(h)
    requires StoreRunning !in more
    ensures var k := After(cfg, h, more);
      && k.reg.subs == {} && k.reg.objs.Keys == h.reg.objs.Keys
      && (forall s | s in k.reg.objs :: k.reg.objs[s].closed)
  {
    ReachableInv(cfg, h);
    QuietRun(cfg, h, more);
    AllFlagged(cfg, h, more);
  }

  /** So from the end of the closeAllSubs that follows a Running to Degraded flip, whether Run reconnects or stops. */
  lemma {:induction false} NoneStrandedAfterFlip(cfg: Config, h: Sys, stop: bool, more: seq<Step>)
    requires Reachable(cfg, h) && h.run == ClosingLocked(Reconnect, {})
    requires StoreRunning !in more
    ensures var k := After(cfg, Do(cfg, h, CloseAllClear(stop)), more);
      && k.reg.subs == {} && k.reg.objs.Keys == h.reg.objs.Keys
      && (forall s | s in k.reg.objs :: k.reg.objs[s].closed)
  {
    ReachableInv(cfg, h);
    assert After(cfg, h, [CloseAllClear(stop)][..0]) == h;
    ContinueReachable(cfg, h, [CloseAllClear(stop)]);
    NoneStrandedBetweenSessions(cfg, Do(cfg, h, CloseAllClear(stop)), more);
  }

  lemma {:induction false} AllFlagged(cfg: Config, h: Sys, more: seq<Step>)
    requires Reachable(cfg, h) && After(cfg, h, more).reg.subs == {}
    ensures var k := After(cfg, h, more); forall s | s in k.reg.objs :: k.reg.objs[s].closed
  {
    ContinueReachable(cfg, h, more);
    var k := After(cfg, h, more);
    ReachableInv(cfg, k);
    forall s | s in k.reg.objs ensures k.reg.objs[s].closed { assert FlagsOf(k, s); }
  }

  lemma {:induction false} QuietRun(cfg: Config, h: Sys, more: seq<Step>)
    requires Quiet(h) && StoreRunning !in more
    ensures Quiet(After(cfg, h, more)) && After(cfg, h, more).reg.objs.Keys == h.reg.objs.Keys
  {
    if more != [] {
      QuietRun(cfg, h, more[..|more| - 1]);
      QuietKept(cfg, After(cfg, h, more[..|more| - 1]), more[|more| - 1]);
    }
  }

  /** Once Run has returned, no schedule brings a subscriber back or lets a Subscribe succeed. */
  lemma {:induction false} NoneStrandedAfterRun(cfg: Config, h: Sys, more: seq<Step>)
    requires Reachable(cfg, h) && h.run == Returned
    ensures var k := After(cfg, h, more);
      && k.run == Returned && k.state == Stopped
      && k.reg.subs == {} && k.reg.objs.Keys == h.reg.objs.Keys
      && (forall s | s in k.reg.objs :: k.reg.objs[s].closed)
  {
    ReachableInv(cfg, h);
    ReturnedRun(cfg, h, more);
    AllFlagged(cfg, h, more);
  }

  ghost predicate Over(h: Sys) {
    Quiet(h) && h.run == Returned && h.state == Stopped
  }

  lemma {:induction false} OverKept(cfg: Config, h: Sys, step: Step)
    requires Over(h)
    ensures Over(Do(cfg, h, step)) && Do(cfg, h, step).reg.objs.Keys == h.reg.objs.Keys
  {
    QuietKept(cfg, h, step);
  }

  lemma {:induction false} ReturnedRun(cfg: Config, h: Sys, more: seq<Step>)
    requires Over(h)
    ensures Over(After(cfg, h, more)) && After(cfg, h, more).reg.objs.Keys == h.reg.objs.Keys
  {
    if more != [] {
      ReturnedRun(cfg, h, more[..|more| - 1]);
      OverKept(cfg, After(cfg, h, more[..|more| - 1]), more[|more| - 1]);
    }
  }

  // ----- Delivery -----

  /** The events dispatched since s subscribed. */
  function Dispatched(h: Sys, s: nat): seq<nat>
    requires s in h.reg.objs
  {
    if h.reg.objs[s].start <= |h.log| then h.log[h.reg.objs[s].start..] else []
  }

  /**
  For every interleaving and every buffer size: the events that passed the lag check are a prefix of the
  events dispatched since Subscribe, and so is everything received at the moment a check passes.
  */
  lemma {:induction false} PassedIsPrefix(cfg: Config, h: Sys, s: nat)
    requires Reachable(cfg, h) && s in h.reg.objs
    ensures var sub := h.reg.objs[s];
      && sub.passed <= |sub.recv|
      && sub.recv[..sub.passed] <= Dispatched(h, s)
      && (sub.lagged == 0 ==> sub.recv <= Dispatched(h, s))
  {
    ReachableInv(cfg, h);
    var sub, d := h.reg.objs[s], Dispatched(h, s);
    assert Delivered(sub, h.log);
    assert h.log[sub.start..sub.start + sub.passed] == d[..sub.passed];
    if sub.lagged == 0 {
      assert h.log[sub.start..sub.upto] == d[..sub.upto - sub.start];
      assert sub.recv == (sub.recv + sub.buf)[..|sub.recv|] == d[..sub.upto - sub.start][..|sub.recv|];
    }
  }

  lemma {:induction false} LaggedStepByRun(cfg: Config, h: Sys, step: Step, s: nat)
    requires OfRun(step) && !OfDispatch(step)
    requires s in h.reg.objs && h.reg.objs[s].lagged > 0
    ensures var k := Do(cfg, h, step);
      s in k.reg.objs && k.reg.objs[s].lagged > 0 && k.reg.objs[s].passed == h.reg.objs[s].passed
  {
  }

  lemma {:induction false} LaggedStepByDispatch(cfg: Config, h: Sys, step: Step, s: nat)
    requires OfDispatch(step)
    requires s in h.reg.objs && h.reg.objs[s].lagged > 0
    ensures var k := Do(cfg, h, step);
      s in k.reg.objs && k.reg.objs[s].lagged > 0 && k.reg.objs[s].passed == h.reg.objs[s].passed
  {
  }

  lemma {:induction false} LaggedStepByOthers(cfg: Config, h: Sys, step: Step, s: nat)
    requires !OfRun(step)
    requires s in h.reg.objs && h.reg.objs[s].lagged > 0
    ensures var k := Do(cfg, h, step);
      s in k.reg.objs && k.reg.objs[s].lagged > 0 && k.reg.objs[s].passed == h.reg.objs[s].passed
  {
  }

  lemma {:induction false} LaggedStep(cfg: Config, h: Sys, step: Step, s: nat)
    requires s in h.reg.objs && h.reg.objs[s].lagged > 0
    ensures var k := Do(cfg, h, step);
      s in k.reg.objs && k.reg.objs[s].lagged > 0 && k.reg.objs[s].passed == h.reg.objs[s].passed
  {
    if OfDispatch(step) {
      LaggedStepByDispatch(cfg, h, step, s);
    } else if OfRun(step) {
      LaggedStepByRun(cfg, h, step, s);
    } else {
      LaggedStepByOthers(cfg, h, step, s);
    }
  }

  /** Once the lag counter has risen, nothing passes the check again, whatever happens. */
  lemma {:induction false} LaggedIsFinal(cfg: Config, h: Sys, more: seq<Step>, s: nat)
    requires s in h.reg.objs && h.reg.objs[s].lagged > 0
    ensures var k := After(cfg, h, more);
      s in k.reg.objs && k.reg.objs[s].lagged > 0 && k.reg.objs[s].passed == h.reg.objs[s].passed
  {
    if more != [] {
      LaggedIsFinal(cfg, h, more[..|more| - 1], s);
      LaggedStep(cfg, After(cfg, h, more[..|more| - 1]), more[|more| - 1], s);
    }
  }

  predicate LostSame(h: Sys, k: Sys, s: nat) {
    && s in h.reg.objs && s in k.reg.objs && h.log <= k.log
    && k.reg.objs[s].lost == h.reg.objs[s].lost && k.reg.objs[s].start == h.reg.objs[s].start
  }

  lemma {:induction false} LostStepByRun(cfg: Config, h: Sys, step: Step, s: nat)
    requires OfRun(step) && !OfDispatch(step)
    requires s in h.reg.objs && h.reg.objs[s].lost.Some?
    ensures LostSame(h, Do(cfg, h, step), s)
  {
  }

  lemma {:induction false} LostStepByDispatch(cfg: Config, h: Sys, step: Step, s: nat)
    requires OfDispatch(step)
    requires s in h.reg.objs && h.reg.objs[s].lost.Some?
    ensures LostSame(h, Do(cfg, h, step), s)
  {
  }

  lemma {:induction false} LostStepByOthers(cfg: Config, h: Sys, step: Step, s: nat)
    requires !OfRun(step)
    requires s in h.reg.objs && h.reg.objs[s].lost.Some?
    ensures LostSame(h, Do(cfg, h, step), s)
  {
  }

  lemma {:induction false} LostStays(cfg: Config, h: Sys, more: seq<Step>, s: nat)
    requires s in h.reg.objs && h.reg.objs[s].lost.Some?
    ensures LostSame(h, After(cfg, h, more), s)
  {
    if more != [] {
      var k, step := After(cfg, h, more[..|more| - 1]), more[|more| - 1];
      LostStays(cfg, h, more[..|more| - 1], s);
      if OfDispatch(step) {
        LostStepByDispatch(cfg, k, step, s);
      } else if OfRun(step) {
        LostStepByRun(cfg, k, step, s);
      } else {
        LostStepByOthers(cfg, k, step, s);
      }
    }
  }

  lemma {:induction false} ReachableDelivered(cfg: Config, h: Sys, s: nat)
    requires Reachable(cfg, h) && s in h.reg.objs
    ensures Delivered(h.reg.objs[s], h.log)
  {
    ReachableInv(cfg, h);
  }

  lemma {:induction false} PassedBeforeLost(sub: Sub, before: seq<nat>, log: seq<nat>)
    requires Delivered(sub, log) && before <= log && sub.lost.Some? && sub.lost.value < |before|
    ensures sub.recv[..sub.passed] <= before[sub.start..sub.lost.value]
  {
    assert log[sub.start..sub.start + sub.passed] == before[sub.start..sub.lost.value][..sub.passed];
  }

  /**
  From the failed send on, counted or not yet, neither the lost event nor any after it ever passes the check:
  what passes stays within the events dispatched before the lost one.
  */
  lemma {:induction false} LostIsFinal(cfg: Config, h: Sys, more: seq<Step>, s: nat)
    requires Reachable(cfg, h) && s in h.reg.objs && h.reg.objs[s].lost.Some?
    ensures var k := After(cfg, h, more);
      && LostSame(h, k, s) && h.reg.objs[s].start <= h.reg.objs[s].lost.value < |h.log|
      && k.reg.objs[s].passed <= |k.reg.objs[s].recv|
      && k.reg.objs[s].recv[..k.reg.objs[s].passed] <= h.log[h.reg.objs[s].start..h.reg.objs[s].lost.value]
  {
    var k := After(cfg, h, more);
    ContinueReachable(cfg, h, more);
    LostStays(cfg, h, more, s);
    ReachableDelivered(cfg, h, s);
    ReachableDelivered(cfg, k, s);
    PassedBeforeLost(k.reg.objs[s], h.log, k.log);
  }

  lemma {:induction false} PassedRange(sub: Sub, log: seq<nat>)
    requires Delivered(sub, log) && Consecutive(sub, log)
    ensures sub.recv[..sub.passed] == Range(sub.first, sub.first + sub.passed)
  {
    forall i | 0 <= i < sub.passed ensures sub.recv[..sub.passed][i] == sub.first + i {
      assert log[sub.start..sub.start + sub.passed][i] == log[sub.start + i];
    }
  }

  /**
  When every payload decoded, what a handler let through is a run of consecutive notifications, and the
  first one was committed at the latest right after the tip the handler read.
  */
  lemma {:induction false} PassedIsConsecutive(cfg: Config, h: Sys, s: nat)
    requires Reachable(cfg, h) && s in h.reg.objs && !h.skipped
    ensures var sub := h.reg.objs[s];
      && sub.passed <= |sub.recv|
      && sub.recv[..sub.passed] == Range(sub.first, sub.first + sub.passed)
      && (sub.tip.Some? ==> sub.first <= sub.tip.value <= h.commits)
  {
    ReachableInv(cfg, h);
    assert Born(h.reg.objs[s], h.commits);
    PassedRange(h.reg.objs[s], h.log);
  }
}
