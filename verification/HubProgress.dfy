/**
No deadlock in the hub: from every reachable state some schedule frees the lock and completes every Close and
closeAllSubs in progress.
*/
module HubProgress {
  import opened Wrappers
  import opened HubProtocol
  import opened HubInvariant
  import opened HubTheorems

  /** Steps that the owner of the lock still needs, at most. */
  function Held(h: Sys): nat {
    match h.lock
    case Free => 0
    case Read =>
      if h.run.Counting? then 2 * |h.run.todo| + 2
      else if h.run.Dispatching? then 2 * |h.run.todo| + 1 else 1
    case Write(RunLoop) =>
      if h.run.ClosingOne? then 2 * |h.run.todo| + 2
      else if h.run.ClosingLocked? then 2 * |h.run.todo| + 1 else 1
    case Write(Handler(t)) => if t in h.handlers && h.handlers[t].Locked? then 2 else 1
  }

  /** The next step of whoever holds the lock. */
  lemma {:induction false} OwnerStep(cfg: Config, h: Sys) returns (step: Step)
    requires Inv(cfg, h) && h.lock != Free
    ensures Enabled(h, step) && Held(Apply(cfg, h, step)) < Held(h)
  {
    match h.lock {
      case Read => step := DispatchStep(cfg, h);
      case Write(owner) =>
        match owner {
          case RunLoop => step := CloseAllNext(cfg, h);
          case Handler(t) => step := HandlerStep(cfg, h, t);
        }
    }
  }

  lemma {:induction false} DispatchStep(cfg: Config, h: Sys) returns (step: Step)
    requires InvLock(h) && InvIds(h) && InvOffered(h) && h.lock == Read
    ensures Enabled(h, step) && Held(Apply(cfg, h, step)) < Held(h)
  {
    if h.run.Counting? {
      step := CountLag;
    } else if h.run.todo == {} {
      step := DispatchUnlock;
    } else {
      var s :| s in h.run.todo;
      step := Offer(s);
      assert |h.run.todo - {s}| == |h.run.todo| - 1;
    }
  }

  lemma {:induction false} CloseAllNext(cfg: Config, h: Sys) returns (step: Step)
    requires InvLock(h) && InvIds(h) && h.lock == Write(RunLoop)
    ensures Enabled(h, step) && Held(Apply(cfg, h, step)) < Held(h)
  {
    if h.run.ClosingOne? {
      step := CloseAllChan;
    } else if h.run.todo == {} {
      step := CloseAllClear(false);
    } else {
      var s :| s in h.run.todo;
      step := CloseAllSwap(s);
      assert |h.run.todo - {s}| == |h.run.todo| - 1;
    }
  }

  lemma {:induction false} HandlerStep(cfg: Config, h: Sys, t: nat) returns (step: Step)
    requires InvLock(h) && InvIds(h) && h.lock == Write(Handler(t))
    ensures Enabled(h, step) && Held(Apply(cfg, h, step)) < Held(h)
  {
    if h.handlers[t].Locked? {
      step := SubRecheck(t);
    } else if h.handlers[t].Admitted? {
      var s := Unused(h.reg.objs.Keys);
      step := SubInsert(t, s);
    } else {
      step := CloseRemove(t);
    }
  }

  lemma {:induction false} Unused(used: set<nat>) returns (s: nat)
    ensures s !in used
  {
    s := AboveAll(used);
  }

  lemma {:induction false} AboveAll(used: set<nat>) returns (s: nat)
    ensures forall x | x in used :: x < s
    decreases used
  {
    s := 0;
    if used != {} {
      var x :| x in used;
      var rest := AboveAll(used - {x});
      assert forall y | y in used :: y == x || y in used - {x};
      s := if x < rest then rest else x + 1;
    }
  }

  lemma {:induction false} StepFirst(cfg: Config, h: Sys, step: Step, more: seq<Step>)
    ensures After(cfg, h, [step] + more) == After(cfg, Do(cfg, h, step), more)
  {
    assert After(cfg, h, [step][..0]) == h;
    Continue(cfg, h, [step], more);
  }

  /** The lock is always given back. */
  lemma {:induction false} LockIsFreed(cfg: Config, h: Sys) returns (more: seq<Step>)
    requires Inv(cfg, h)
    ensures After(cfg, h, more).lock == Free && Inv(cfg, After(cfg, h, more)) && |more| <= Held(h)
    decreases Held(h)
  {
    more := [];
    if h.lock != Free {
      var step := OwnerStep(cfg, h);
      StepInv(cfg, h, step);
      var rest := LockIsFreed(cfg, Do(cfg, h, step));
      StepFirst(cfg, h, step, rest);
      more := [step] + rest;
    }
  }

  /** The goroutines inside Close that won the flag. */
  function InClose(h: Sys): set<nat> {
    set t | t in h.handlers && (h.handlers[t].Flagged? || h.handlers[t].Unregistering? || h.handlers[t].Unregistered?)
  }

  /** A Close in progress runs to its end when the lock is free. */
  lemma {:induction false} CloseFinishes(cfg: Config, h: Sys, t: nat)
    requires InvLock(h) && InvIds(h) && h.lock == Free && t in InClose(h)
    ensures var k := Do(cfg, Do(cfg, Do(cfg, h, CloseLock(t)), CloseRemove(t)), CloseChan(t));
      k.lock == Free && k.handlers == h.handlers - {t}
  {
    if h.handlers[t].Flagged? {
      CloseWhole(cfg, h, t);
    } else {
      assert h.handlers[t].Unregistered?;
    }
  }

  lemma {:induction false} CloseWhole(cfg: Config, h: Sys, t: nat)
    requires InvIds(h) && h.lock == Free && t in h.handlers && h.handlers[t].Flagged?
    ensures var k := Do(cfg, Do(cfg, Do(cfg, h, CloseLock(t)), CloseRemove(t)), CloseChan(t));
      k.lock == Free && k.handlers == h.handlers - {t}
  {
    var s := h.handlers[t].s;
    var a := Apply(cfg, h, CloseLock(t));
    assert a.handlers[t] == Unregistering(s) && a.reg == h.reg;
    var b := Apply(cfg, a, CloseRemove(t));
    assert b.handlers[t] == Unregistered(s) && s in b.reg.objs;
  }

  lemma {:induction false} ClosesFinish(cfg: Config, h: Sys) returns (more: seq<Step>)
    requires Inv(cfg, h) && h.lock == Free
    ensures var k := After(cfg, h, more); k.lock == Free && InClose(k) == {} && Inv(cfg, k)
    decreases InClose(h)
  {
    more := [];
    if t :| t in InClose(h) {
      var a := Do(cfg, h, CloseLock(t));
      var b := Do(cfg, a, CloseRemove(t));
      var c := Do(cfg, b, CloseChan(t));
      CloseFinishes(cfg, h, t);
      StepInv(cfg, h, CloseLock(t));
      StepInv(cfg, a, CloseRemove(t));
      StepInv(cfg, b, CloseChan(t));
      assert InClose(c) == InClose(h) - {t};
      var rest := ClosesFinish(cfg, c);
      StepFirst(cfg, b, CloseChan(t), rest);
      StepFirst(cfg, a, CloseRemove(t), [CloseChan(t)] + rest);
      StepFirst(cfg, h, CloseLock(t), [CloseRemove(t)] + ([CloseChan(t)] + rest));
      more := [CloseLock(t)] + ([CloseRemove(t)] + ([CloseChan(t)] + rest));
    }
  }

  /**
  From every reachable state some schedule frees the lock and ends every Close and closeAllSubs in progress: each
  flagged subscriber's channel is then closed, exactly once.
  */
  lemma {:induction false} HubCanSettle(cfg: Config, h: Sys) returns (more: seq<Step>)
    requires Reachable(cfg, h)
    ensures var k := After(cfg, h, more);
      && k.lock == Free && InClose(k) == {} && !InCloseAll(k.run)
      && (forall s | s in k.reg.objs && k.reg.objs[s].closed :: k.reg.objs[s].closes == 1)
  {
    ReachableInv(cfg, h);
    var first := LockIsFreed(cfg, h);
    var second := ClosesFinish(cfg, After(cfg, h, first));
    Continue(cfg, h, first, second);
    more := first + second;
    SettledChannels(cfg, After(cfg, h, more));
  }

  lemma {:induction false} SettledChannels(cfg: Config, k: Sys)
    requires InvLock(k) && InvFlags(k) && InvPending(k) && k.lock == Free && InClose(k) == {}
    ensures !InCloseAll(k.run)
    ensures forall s | s in k.reg.objs && k.reg.objs[s].closed :: k.reg.objs[s].closes == 1
  {
    forall s | s in k.reg.objs && k.reg.objs[s].closed
      ensures k.reg.objs[s].closes == 1
    {
      assert FlagsOf(k, s);
      forall t | t in k.handlers
        ensures !Closes(k.handlers[t], s)
      {
        assert t !in InClose(k);
      }
      assert !HasCloser(k, s);
    }
  }

  /** While the hub is running and the subject is under its cap, a Subscribe goes through from there. */
  lemma {:induction false} SubscribeGoesThrough(cfg: Config, h: Sys, t: nat, s: nat, subject: string)
    requires h.lock == Free && h.state == Running && !AtCap(cfg, h.reg, subject)
    requires t !in h.handlers && s !in h.reg.objs
    ensures var k := Do(cfg, Do(cfg, Do(cfg, Do(cfg, h, SubCheck(t, subject)), SubLock(t)), SubRecheck(t)), SubInsert(t, s));
      && k.lock == Free && k.handlers == h.handlers[t := Owns(s)]
      && k.reg == Insert(h.reg, s, NewSub(subject, |h.log|, NextOffer(h), h.commits))
  {
    var a := Do(cfg, h, SubCheck(t, subject));
    assert a.handlers[t] == Checked(subject);
    var b := Do(cfg, a, SubLock(t));
    assert b.handlers[t] == Locked(subject);
    var c := Do(cfg, b, SubRecheck(t));
    assert c.handlers[t] == Admitted(subject);
  }
}
