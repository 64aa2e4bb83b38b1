/**
When an event is delivered and when it is lost: a subscriber whose channel is not full gets every event, one that
keeps up never loses any, and a committed notification reaches every handler.
*/
module HubDelivery {
  import opened Wrappers
  import opened HubProtocol
  import opened HubInvariant
  import opened HubTheorems
  import opened HubObject

  /** An offer to a subscriber with fewer than bufSize buffered events appends the event and loses nothing. */
  lemma {:induction false} OfferWithRoom(cfg: Config, h: Sys, s: nat)
    requires Reachable(cfg, h) && h.run.Dispatching? && s in h.run.todo
    ensures Enabled(h, Offer(s)) && s in h.reg.objs
    ensures |h.reg.objs[s].buf| < cfg.bufSize ==>
              var k := Do(cfg, h, Offer(s));
              && s in k.reg.objs && k.reg.objs[s].buf == h.reg.objs[s].buf + [h.run.i]
              && k.reg.objs[s].lagged == h.reg.objs[s].lagged && k.reg.objs[s].lost == h.reg.objs[s].lost
              && k.run == Dispatching(h.run.i, h.run.todo - {s})
  {
    ReachableInv(cfg, h);
  }

  lemma {:induction false} HandlersLoseNothing(cfg: Config, h: Sys, step: Step, s: nat)
    requires Enabled(h, step) && !OfRun(step) && s in h.reg.objs
    ensures var k := Apply(cfg, h, step); s in k.reg.objs && k.reg.objs[s].lost == h.reg.objs[s].lost
  {
  }

  lemma {:induction false} DispatchLosesNothingElse(cfg: Config, h: Sys, step: Step, s: nat)
    requires Enabled(h, step) && OfDispatch(step) && !step.Offer? && s in h.reg.objs
    ensures var k := Apply(cfg, h, step); s in k.reg.objs && k.reg.objs[s].lost == h.reg.objs[s].lost
  {
  }

  lemma {:induction false} ClosingLosesNothing(cfg: Config, h: Sys, step: Step, s: nat)
    requires Enabled(h, step) && OfRun(step) && !OfDispatch(step) && s in h.reg.objs
    ensures var k := Apply(cfg, h, step); s in k.reg.objs && k.reg.objs[s].lost == h.reg.objs[s].lost
  {
  }

  lemma {:induction false} RunLosesNothingElse(cfg: Config, h: Sys, step: Step, s: nat)
    requires Enabled(h, step) && OfRun(step) && !step.Offer? && s in h.reg.objs
    ensures var k := Apply(cfg, h, step); s in k.reg.objs && k.reg.objs[s].lost == h.reg.objs[s].lost
  {
    hide Enabled, Apply;
    if OfDispatch(step) {
      DispatchLosesNothingElse(cfg, h, step, s);
    } else {
      ClosingLosesNothing(cfg, h, step, s);
    }
  }

  lemma {:induction false} OfferLoses(cfg: Config, h: Sys, offered: nat, s: nat)
    requires Enabled(h, Offer(offered)) && s in h.reg.objs && h.reg.objs[s].lost.None?
    ensures var k := Apply(cfg, h, Offer(offered));
      s in k.reg.objs && (k.reg.objs[s].lost.Some? <==> s == offered && |h.reg.objs[s].buf| >= cfg.bufSize)
  {
  }

  /** A step makes a subscriber lose an event exactly when it offers one to a channel that holds bufSize events. */
  lemma {:induction false} LostOnlyWhenFull(cfg: Config, h: Sys, step: Step, s: nat)
    requires Reachable(cfg, h) && s in h.reg.objs && h.reg.objs[s].lost.None?
    ensures var k := Do(cfg, h, step);
      s in k.reg.objs &&
      (k.reg.objs[s].lost.Some? <==> step == Offer(s) && Enabled(h, step) && |h.reg.objs[s].buf| == cfg.bufSize)
  {
    hide Apply, Enabled, HasRoom;
    ReachableInv(cfg, h);
    assert |h.reg.objs[s].buf| <= cfg.bufSize by { assert Delivered(h.reg.objs[s], h.log) && |h.reg.objs[s].buf| <= cfg.bufSize; }
    if Enabled(h, step) {
      if step.Offer? {
        OfferLoses(cfg, h, step.s, s);
      } else if OfRun(step) {
        RunLosesNothingElse(cfg, h, step, s);
      } else {
        HandlersLoseNothing(cfg, h, step, s);
      }
    }
  }

  /** The channel of s is full when step k of the schedule offers it an event. */
  predicate FullAt(cfg: Config, h: Sys, more: seq<Step>, k: nat, s: nat)
    requires k < |more|
  {
    var j := After(cfg, h, more[..k]);
    more[k] == Offer(s) && Enabled(j, more[k]) && s in j.reg.objs && |j.reg.objs[s].buf| == cfg.bufSize
  }

  /** Over any schedule a subscriber that has lost nothing loses something exactly when its channel is full at an offer. */
  lemma {:induction false} LossExact(cfg: Config, h: Sys, more: seq<Step>, s: nat)
    requires Reachable(cfg, h) && s in h.reg.objs && h.reg.objs[s].lost.None?
    ensures var k := After(cfg, h, more);
      s in k.reg.objs && (k.reg.objs[s].lost.Some? <==> exists i: nat :: i < |more| && FullAt(cfg, h, more, i, s))
  {
    hide Enabled, Apply, Reachable;
    if more != [] {
      var n := |more| - 1;
      LossExact(cfg, h, more[..n], s);
      var j := After(cfg, h, more[..n]);
      ContinueReachable(cfg, h, more[..n]);
      forall i: nat | i < n
        ensures FullAt(cfg, h, more[..n], i, s) == FullAt(cfg, h, more, i, s)
      {
        assert more[..n][..i] == more[..i];
      }
      if j.reg.objs[s].lost.None? {
        LostOnlyWhenFull(cfg, j, more[n], s);
        assert FullAt(cfg, h, more, n, s) <==> Do(cfg, j, more[n]).reg.objs[s].lost.Some?;
      } else {
        StaysLost(cfg, j, more[n], s);
      }
    }
  }

  lemma {:induction false} StaysLost(cfg: Config, h: Sys, step: Step, s: nat)
    requires s in h.reg.objs && h.reg.objs[s].lost.Some?
    ensures var k := Do(cfg, h, step); s in k.reg.objs && k.reg.objs[s].lost.Some?
  {
    hide Apply, Enabled;
    if Enabled(h, step) {
      if step.Offer? {
        OfferKeepsLost(cfg, h, step.s, s);
      } else if OfRun(step) {
        RunLosesNothingElse(cfg, h, step, s);
      } else {
        HandlersLoseNothing(cfg, h, step, s);
      }
    }
  }

  lemma {:induction false} OfferKeepsLost(cfg: Config, h: Sys, offered: nat, s: nat)
    requires Enabled(h, Offer(offered)) && s in h.reg.objs && h.reg.objs[s].lost.Some?
    ensures var k := Apply(cfg, h, Offer(offered)); s in k.reg.objs && k.reg.objs[s].lost.Some?
  {
  }

  // ----- A committed notification reaches every handler -----

  /** The steps of Run for one notification, in any order of the registered subscribers. */
  function Round(order: seq<nat>): seq<Step> {
    [Notify(true), DispatchLock] + Offers(order) + [DispatchUnlock]
  }

  lemma {:induction false} RoundStarts(cfg: Config, h: Sys)
    requires h.run == Waiting && h.lock == Free && h.next < h.commits
    ensures var k := After(cfg, h, [Notify(true), DispatchLock]);
      k == h.(run := Dispatching(h.next, h.reg.subs), lock := Read, next := h.next + 1, log := h.log + [h.next])
  {
    assert [Notify(true), DispatchLock][..1] == [Notify(true)];
    assert [Notify(true)][..0] == [];
    assert After(cfg, h, [Notify(true)]) == h.(run := Popped(h.next), next := h.next + 1);
  }

  lemma {:induction false} RoundDispatches(cfg: Config, h: Sys, order: seq<nat>)
    requires h.reg.subs <= h.reg.objs.Keys && h.run == Waiting && h.lock == Free && h.next < h.commits
    requires Distinct(order) && Elements(order) == h.reg.subs
    ensures var k := After(cfg, h, Round(order));
      && k.run == Waiting && k.lock == Free && k.log == h.log + [h.next]
      && k.reg.objs == DispatchedTo(cfg, h.reg.objs, h.reg.subs, h.next, |h.log| + 1)
  {
    hide DispatchedTo, After;
    var first := [Notify(true), DispatchLock];
    RoundStarts(cfg, h);
    Continue(cfg, h, first, Offers(order));
    DispatchUninterrupted(cfg, After(cfg, h, first), order);
    var o := After(cfg, h, first + Offers(order));
    assert o.run == Dispatching(h.next, {});
    LastStep(cfg, h, first + Offers(order), DispatchUnlock);
  }

  lemma {:induction false} LastStep(cfg: Config, h: Sys, front: seq<Step>, step: Step)
    ensures After(cfg, h, front + [step]) == Do(cfg, After(cfg, h, front), step)
  {
    assert (front + [step])[..|front|] == front;
  }

  /** Every registered subscriber with room has the event at the end of its channel; one without counts a lag more. */
  lemma {:induction false} NotificationReachesAll(cfg: Config, h: Sys, order: seq<nat>)
    requires Reachable(cfg, h) && h.run == Waiting && h.lock == Free && h.next < h.commits
    requires Distinct(order) && Elements(order) == h.reg.subs
    ensures var k := After(cfg, h, Round(order));
      && k.run == Waiting && k.lock == Free && k.log == h.log + [h.next] && k.reg.objs.Keys == h.reg.objs.Keys
      && (forall s | s in h.reg.objs ::
            k.reg.objs[s].buf == h.reg.objs[s].buf + if s in h.reg.subs && |h.reg.objs[s].buf| < cfg.bufSize then [h.next] else [])
      && (forall s | s in h.reg.objs ::
            k.reg.objs[s].lagged == h.reg.objs[s].lagged + if s in h.reg.subs && |h.reg.objs[s].buf| == cfg.bufSize then 1 else 0)
  {
    BuffersBounded(cfg, h);
    RoundDispatches(cfg, h, order);
    hide Reachable, After;
  }

  lemma {:induction false} BuffersBounded(cfg: Config, h: Sys)
    requires Reachable(cfg, h)
    ensures h.reg.subs <= h.reg.objs.Keys && forall s | s in h.reg.objs :: |h.reg.objs[s].buf| <= cfg.bufSize
  {
    ReachableInv(cfg, h);
    forall s | s in h.reg.objs
      ensures |h.reg.objs[s].buf| <= cfg.bufSize
    {
      assert Delivered(h.reg.objs[s], h.log) && |h.reg.objs[s].buf| <= cfg.bufSize;
    }
  }

  /** A handler between frames takes the oldest buffered event and, unless it lags, lets it through. */
  lemma {:induction false} HandlerTakes(cfg: Config, h: Sys, t: nat)
    requires t in h.handlers && h.handlers[t].Owns? && h.handlers[t].s in h.reg.objs && h.reg.objs[h.handlers[t].s].buf != []
    ensures var s := h.handlers[t].s;
      var k, sub := Do(cfg, Do(cfg, h, Recv(t)), LagCheck(t)), h.reg.objs[s];
      && s in k.reg.objs && k.reg.objs[s].recv == sub.recv + [sub.buf[0]] && k.reg.objs[s].buf == sub.buf[1..]
      && k.reg.objs[s].passed == (if sub.lagged == 0 then |sub.recv| + 1 else sub.passed)
      && k.handlers == h.handlers[t := if sub.lagged == 0 then Owns(s) else Leaving(s)]
  {
    var j := Do(cfg, h, Recv(t));
    assert j.handlers[t] == Got(h.handlers[t].s);
  }
}
