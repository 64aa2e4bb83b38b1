/** The inductive invariant of the hub and its proof for every step of every interleaving. */
module HubInvariant {
  import opened Wrappers
  import opened HubProtocol

  predicate HoldsLock(pc: Pc) {
    pc.Locked? || pc.Admitted? || pc.Unregistering?
  }

  /** A Close call that won the flag and still has to close the channel. */
  predicate Closes(pc: Pc, s: nat) {
    (pc.Flagged? || pc.Unregistering? || pc.Unregistered?) && pc.s == s
  }

  predicate InCloseAll(run: RunPc) {
    run.ClosingLocked? || run.ClosingOne?
  }

  predicate InDispatch(run: RunPc) {
    run.Dispatching? || run.Counting?
  }

  ghost predicate InvLock(h: Sys) {
    && (forall t | t in h.handlers && HoldsLock(h.handlers[t]) :: h.lock == Write(Handler(t)))
    && (h.lock.Write? && h.lock.owner.Handler? ==>
        h.lock.owner.tid in h.handlers && HoldsLock(h.handlers[h.lock.owner.tid]))
    && (h.lock == Write(RunLoop) <==> InCloseAll(h.run))
    && (h.lock == Read <==> InDispatch(h.run))
  }

  ghost predicate InvIds(h: Sys) {
    && h.reg.subs <= h.reg.objs.Keys
    && (forall t | t in h.handlers && !h.handlers[t].Checked? && !h.handlers[t].Locked? && !h.handlers[t].Admitted? ::
          h.handlers[t].s in h.reg.objs)
    && (InDispatch(h.run) || InCloseAll(h.run) ==> h.run.todo <= h.reg.subs)
    && (h.run.Counting? ==> h.run.s in h.reg.subs && h.run.s !in h.run.todo)
    && (h.run.ClosingOne? ==> h.run.s in h.reg.subs && h.run.s !in h.run.todo)
  }

  ghost predicate HasCloser(h: Sys, s: nat) {
    (h.run.ClosingOne? && h.run.s == s) || exists t :: t in h.handlers && Closes(h.handlers[t], s)
  }

  /** closeAllSubs has dealt with s although s is still in the map. */
  predicate Swept(h: Sys, s: nat) {
    InCloseAll(h.run) && s !in h.run.todo && !(h.run.ClosingOne? && h.run.s == s)
  }

  /** The flag and the channel of each subscriber. */
  ghost predicate FlagsOf(h: Sys, s: nat)
    requires s in h.reg.objs
  {
    var sub := h.reg.objs[s];
    && sub.closes <= 1
    && (sub.closes == 1 ==> sub.closed)
    && (s !in h.reg.subs ==> sub.closed)
    && (s in h.reg.subs && sub.closes == 1 ==> Swept(h, s))
    && (s in h.reg.subs && Swept(h, s) ==> sub.closed)
  }

  ghost predicate InvFlags(h: Sys) {
    && h.panics == 0
    && forall s | s in h.reg.objs :: FlagsOf(h, s)
  }

  /** A channel somebody is about to close is flagged, open, and no longer the business of anybody else. */
  ghost predicate InvClosers(h: Sys) {
    && (forall t, s | t in h.handlers && Closes(h.handlers[t], s) && s in h.reg.objs ::
          h.reg.objs[s].closed && h.reg.objs[s].closes == 0 && !(h.run.ClosingOne? && h.run.s == s))
    && (h.run.ClosingOne? && h.run.s in h.reg.objs ==>
          h.reg.objs[h.run.s].closed && h.reg.objs[h.run.s].closes == 0)
  }

  /** Close leaves the map before it closes the channel, and no two calls close the same one. */
  ghost predicate InvOneCloser(h: Sys) {
    && (forall t | t in h.handlers && h.handlers[t].Unregistered? :: h.handlers[t].s !in h.reg.subs)
    && forall t, u, s | t in h.handlers && u in h.handlers && t != u && Closes(h.handlers[t], s) ::
      !Closes(h.handlers[u], s)
  }

  ghost predicate InvPending(h: Sys) {
    forall s | s in h.reg.objs && h.reg.objs[s].closed && h.reg.objs[s].closes == 0 :: HasCloser(h, s)
  }

  ghost function SubjectSubs(reg: Registry, subject: string): set<nat> {
    set s | s in reg.subs && s in reg.objs && reg.objs[s].subject == subject
  }

  ghost predicate Counted(cfg: Config, reg: Registry, subject: string) {
    && SubjectCount(reg, subject) == |SubjectSubs(reg, subject)|
    && (subject in reg.perSubject ==> reg.perSubject[subject] > 0)
    && (cfg.perSubjectMax > 0 ==> SubjectCount(reg, subject) <= cfg.perSubjectMax)
  }

  ghost predicate InvCount(cfg: Config, h: Sys) {
    forall subject :: Counted(cfg, h.reg, subject)
  }

  predicate ClosingPhase(run: RunPc) {
    run.Closing? || InCloseAll(run)
  }

  ghost predicate InvState(h: Sys) {
    && (h.run.Connecting? || h.run.Listened? ==> h.state == Pending || h.state == Degraded)
    && (InSession(h.run) ==> h.state == Running)
    && (ClosingPhase(h.run) ==> h.state == match h.run.after
          case Reconnect => Degraded case Cancelled => Running case Final => Stopped)
    && (h.run.Draining? ==> h.state != Stopped)
    && (h.run.Returned? ==> h.state == Stopped)
  }

  /** The points at which no subscriber may exist: between two sessions, while a failed one drains, and after Run. */
  predicate Deserted(h: Sys) {
    h.run.Connecting? || h.run.Listened? || h.run.Returned? || (h.run.Draining? && h.state != Running)
  }

  ghost predicate InvStrand(h: Sys) {
    Deserted(h) ==> h.reg.subs == {} && forall t | t in h.handlers :: !h.handlers[t].Admitted?
  }

  predicate Offering(h: Sys, s: nat) {
    (InDispatch(h.run) && s in h.run.todo) || (h.run.Counting? && s == h.run.s)
  }

  /** What one subscriber was offered, received and let through, against the dispatch log. */
  ghost predicate Delivered(sub: Sub, log: seq<nat>) {
    && sub.start <= sub.upto <= |log|
    && (sub.lagged == 0 ==> sub.recv + sub.buf == log[sub.start..sub.upto])
    && (sub.lost.None? ==> sub.lagged == 0)
    && (sub.lost.Some? ==> sub.start + sub.passed <= sub.lost.value < |log|)
    && (sub.lost.Some? && sub.lagged == 0 ==> sub.upto == sub.lost.value)
    && sub.passed <= |sub.recv|
    && sub.start + sub.passed <= sub.upto
    && sub.recv[..sub.passed] == log[sub.start..sub.start + sub.passed]
  }

  ghost predicate InvHist(cfg: Config, h: Sys) {
    forall s | s in h.reg.objs :: Delivered(h.reg.objs[s], h.log) && |h.reg.objs[s].buf| <= cfg.bufSize
  }

  /** A registered subscriber has been offered the whole log, but for the event being dispatched. */
  ghost predicate InvOffered(h: Sys) {
    && (forall s | s in h.reg.objs && s in h.reg.subs ::
          h.reg.objs[s].upto + (if Offering(h, s) then 1 else 0) == |h.log|)
    && (InDispatch(h.run) ==> |h.log| > 0 && h.log[|h.log| - 1] == h.run.i)
  }

  /** A lost event is not counted yet exactly while dispatch stands between the failed send and the counter. */
  ghost predicate InvMissed(h: Sys) {
    && (forall s | s in h.reg.objs && h.reg.objs[s].lost.Some? && h.reg.objs[s].lagged == 0 ::
          h.run.Counting? && h.run.s == s)
    && (h.run.Counting? && h.run.s in h.reg.objs ==> h.reg.objs[h.run.s].lost.Some?)
  }

  ghost predicate Consecutive(sub: Sub, log: seq<nat>) {
    forall j | sub.start <= j < sub.upto && j < |log| :: log[j] == sub.first + (j - sub.start)
  }

  predicate InSession(run: RunPc) {
    run.Waiting? || run.Popped? || InDispatch(run)
  }

  /** Nothing is dispatched before it is committed. */
  ghost predicate InvClock(h: Sys) {
    && h.next <= h.commits
    && (h.run.Popped? || InDispatch(h.run) ==> h.run.i + 1 == h.next)
    && (forall j | 0 <= j < |h.log| :: h.log[j] < h.commits)
  }

  /** A handler registers before it reads the latest height, and neither runs ahead of the commits. */
  predicate Born(sub: Sub, commits: nat) {
    && sub.first <= sub.born <= commits
    && (sub.tip.Some? ==> sub.born <= sub.tip.value <= commits)
  }

  ghost predicate InvBorn(h: Sys) {
    forall s | s in h.reg.objs :: Born(h.reg.objs[s], h.commits)
  }

  /** The notification s is offered next. */
  function NextFor(h: Sys, s: nat): nat {
    if Offering(h, s) then h.run.i else NextOffer(h)
  }

  /** Unless a payload was malformed, a subscriber is offered consecutive notifications. */
  ghost predicate InvSeq(h: Sys) {
    && (forall s | s in h.reg.objs :: Consecutive(h.reg.objs[s], h.log))
    && (InSession(h.run) ==> forall s | s in h.reg.objs && s in h.reg.subs ::
          h.reg.objs[s].first + (h.reg.objs[s].upto - h.reg.objs[s].start) == NextFor(h, s))
  }

  ghost predicate Inv(cfg: Config, h: Sys) {
    && InvLock(h) && InvIds(h) && InvFlags(h) && InvClosers(h) && InvOneCloser(h) && InvPending(h) && InvCount(cfg, h)
    && InvState(h) && InvStrand(h) && InvHist(cfg, h) && InvOffered(h) && InvMissed(h) && InvClock(h) && InvBorn(h)
    && (!h.skipped ==> InvSeq(h))
  }

  lemma {:induction false} LockKeptByRun(cfg: Config, h: Sys, step: Step)
    requires OfRun(step) && !OfDispatch(step)
    requires Enabled(h, step) && InvLock(h)
    ensures InvLock(Apply(cfg, h, step))
  {
  }

  lemma {:induction false} LockKeptByDispatch(cfg: Config, h: Sys, step: Step)
    requires OfDispatch(step)
    requires Enabled(h, step) && InvLock(h)
    ensures InvLock(Apply(cfg, h, step))
  {
  }

  lemma {:induction false} LockKeptByOthers(cfg: Config, h: Sys, step: Step)
    requires !OfRun(step)
    requires Enabled(h, step) && InvLock(h)
    ensures InvLock(Apply(cfg, h, step))
  {
  }

  lemma {:induction false} LockKept(cfg: Config, h: Sys, step: Step)
    requires Enabled(h, step) && InvLock(h)
    ensures InvLock(Apply(cfg, h, step))
  {
    if OfDispatch(step) {
      LockKeptByDispatch(cfg, h, step);
    } else if OfRun(step) {
      LockKeptByRun(cfg, h, step);
    } else {
      LockKeptByOthers(cfg, h, step);
    }
  }

  lemma {:induction false} IdsKeptByRun(cfg: Config, h: Sys, step: Step)
    requires OfRun(step) && !OfDispatch(step)
    requires Enabled(h, step) && InvLock(h) && InvIds(h)
    ensures InvIds(Apply(cfg, h, step))
  {
  }

  lemma {:induction false} IdsKeptByDispatch(cfg: Config, h: Sys, step: Step)
    requires OfDispatch(step)
    requires Enabled(h, step) && InvLock(h) && InvIds(h)
    ensures InvIds(Apply(cfg, h, step))
  {
  }

  lemma {:induction false} IdsKeptByOthers(cfg: Config, h: Sys, step: Step)
    requires !OfRun(step)
    requires Enabled(h, step) && InvLock(h) && InvIds(h)
    ensures InvIds(Apply(cfg, h, step))
  {
  }

  lemma {:induction false} IdsKept(cfg: Config, h: Sys, step: Step)
    requires Enabled(h, step) && InvLock(h) && InvIds(h)
    ensures InvIds(Apply(cfg, h, step))
  {
    if OfDispatch(step) {
      IdsKeptByDispatch(cfg, h, step);
    } else if OfRun(step) {
      IdsKeptByRun(cfg, h, step);
    } else {
      IdsKeptByOthers(cfg, h, step);
    }
  }

  /** Steps of closeAllSubs. */
  predicate CloseAllStep(step: Step) {
    step.CloseAllLock? || step.CloseAllSwap? || step.CloseAllChan? || step.CloseAllClear?
  }

  /** Steps of Close. */
  predicate CloseStep(step: Step) {
    step.CloseCall? || step.CloseLock? || step.CloseRemove? || step.CloseChan?
  }

  lemma {:induction false} FlagsKeptByRun(cfg: Config, h: Sys, step: Step)
    requires OfRun(step) && !OfDispatch(step) && !CloseAllStep(step)
    requires Enabled(h, step) && InvLock(h) && InvIds(h) && InvFlags(h)
    ensures InvFlags(Apply(cfg, h, step))
  {
    var k := Apply(cfg, h, step);
    forall s | s in k.reg.objs ensures FlagsOf(k, s) { if s in h.reg.objs { assert FlagsOf(h, s); } }
  }

  lemma {:induction false} FlagsKeptByDispatch(cfg: Config, h: Sys, step: Step)
    requires OfDispatch(step)
    requires Enabled(h, step) && InvLock(h) && InvIds(h) && InvFlags(h)
    ensures InvFlags(Apply(cfg, h, step))
  {
    var k := Apply(cfg, h, step);
    forall s | s in k.reg.objs ensures FlagsOf(k, s) { if s in h.reg.objs { assert FlagsOf(h, s); } }
  }

  lemma {:induction false} FlagsKeptByOthers(cfg: Config, h: Sys, step: Step)
    requires !OfRun(step) && !CloseStep(step)
    requires Enabled(h, step) && InvLock(h) && InvIds(h) && InvFlags(h)
    ensures InvFlags(Apply(cfg, h, step))
  {
    var k := Apply(cfg, h, step);
    forall s | s in k.reg.objs ensures FlagsOf(k, s) { if s in h.reg.objs { assert FlagsOf(h, s); } }
  }

  lemma {:induction false} FlagsKeptByCloseAll(cfg: Config, h: Sys, step: Step)
    requires CloseAllStep(step)
    requires Enabled(h, step) && InvLock(h) && InvIds(h) && InvFlags(h) && InvClosers(h) && InvOneCloser(h)
    ensures InvFlags(Apply(cfg, h, step))
  {
    var k := Apply(cfg, h, step);
    forall s | s in k.reg.objs ensures FlagsOf(k, s) { assert FlagsOf(h, s); }
  }

  lemma {:induction false} FlagsKeptByClose(cfg: Config, h: Sys, step: Step)
    requires CloseStep(step)
    requires Enabled(h, step) && InvLock(h) && InvIds(h) && InvFlags(h) && InvClosers(h) && InvOneCloser(h)
    ensures InvFlags(Apply(cfg, h, step))
  {
    var k := Apply(cfg, h, step);
    forall s | s in k.reg.objs ensures FlagsOf(k, s) { assert FlagsOf(h, s); }
  }

  /** A goroutine becomes the closer of s only by winning the flag in Close. */
  lemma {:induction false} ClosesOrigin(cfg: Config, h: Sys, step: Step, t: nat, s: nat)
    requires Enabled(h, step)
    requires t in Apply(cfg, h, step).handlers && Closes(Apply(cfg, h, step).handlers[t], s)
    ensures (t in h.handlers && Closes(h.handlers[t], s))
            || (step == CloseCall(t, s) && s in h.reg.objs && !h.reg.objs[s].closed)
  {
  }

  lemma {:induction false} ClosersKept(cfg: Config, h: Sys, step: Step)
    requires !CloseAllStep(step) && !CloseStep(step)
    requires Enabled(h, step) && InvLock(h) && InvIds(h) && InvClosers(h)
    ensures InvClosers(Apply(cfg, h, step))
  {
    var k := Apply(cfg, h, step);
    forall t, s | t in k.handlers && Closes(k.handlers[t], s) && s in k.reg.objs
      ensures k.reg.objs[s].closed && k.reg.objs[s].closes == 0 && !(k.run.ClosingOne? && k.run.s == s)
    {
      ClosesOrigin(cfg, h, step, t, s);
      assert s in h.reg.objs;
    }
  }

  lemma {:induction false} ClosersKeptByCloseAll(cfg: Config, h: Sys, step: Step)
    requires CloseAllStep(step)
    requires Enabled(h, step) && InvLock(h) && InvIds(h) && InvFlags(h) && InvClosers(h)
    ensures InvClosers(Apply(cfg, h, step))
  {
    if step.CloseAllSwap? { assert FlagsOf(h, step.s); }
  }

  lemma {:induction false} ClosersKeptByClose(cfg: Config, h: Sys, step: Step)
    requires CloseStep(step)
    requires Enabled(h, step) && InvLock(h) && InvIds(h) && InvFlags(h) && InvClosers(h) && InvOneCloser(h)
    ensures InvClosers(Apply(cfg, h, step))
  {
    if step.CloseCall? { assert FlagsOf(h, step.s); }
  }

  lemma {:induction false} OneCloserKept(cfg: Config, h: Sys, step: Step)
    requires Enabled(h, step) && InvIds(h) && InvClosers(h) && InvOneCloser(h)
    ensures InvOneCloser(Apply(cfg, h, step))
  {
    var k := Apply(cfg, h, step);
    forall t, u, s | t in k.handlers && u in k.handlers && t != u && Closes(k.handlers[t], s)
      ensures !Closes(k.handlers[u], s)
    {
      ClosesOrigin(cfg, h, step, t, s);
      if Closes(k.handlers[u], s) {
        ClosesOrigin(cfg, h, step, u, s);
        assert false;
      }
    }
  }

  /** The goroutine closing s before a step still does afterwards, unless the step is its close(ch). */
  lemma {:induction false} CloserStays(cfg: Config, h: Sys, step: Step, s: nat)
    requires Enabled(h, step) && InvIds(h) && s in h.reg.objs && HasCloser(h, s)
    requires var k := Apply(cfg, h, step); s in k.reg.objs && k.reg.objs[s].closes == 0
    ensures HasCloser(Apply(cfg, h, step), s)
  {
    var k := Apply(cfg, h, step);
    if !(h.run.ClosingOne? && h.run.s == s) {
      var t :| t in h.handlers && Closes(h.handlers[t], s);
      assert t in k.handlers && Closes(k.handlers[t], s);
    }
  }

  lemma {:induction false} PendingKept(cfg: Config, h: Sys, step: Step)
    requires Enabled(h, step) && InvIds(h) && InvPending(h)
    ensures InvPending(Apply(cfg, h, step))
  {
    var k := Apply(cfg, h, step);
    forall s | s in k.reg.objs && k.reg.objs[s].closed && k.reg.objs[s].closes == 0
      ensures HasCloser(k, s)
    {
      if s in h.reg.objs && h.reg.objs[s].closed {
        CloserStays(cfg, h, step, s);
      } else if step.CloseCall? {
        assert Closes(k.handlers[step.t], s);
      }
    }
  }

  lemma {:induction false} StateKeptByRun(cfg: Config, h: Sys, step: Step)
    requires OfRun(step) && !OfDispatch(step)
    requires Enabled(h, step) && InvState(h)
    ensures InvState(Apply(cfg, h, step))
  {
  }

  lemma {:induction false} StateKeptByDispatch(cfg: Config, h: Sys, step: Step)
    requires OfDispatch(step)
    requires Enabled(h, step) && InvState(h)
    ensures InvState(Apply(cfg, h, step))
  {
  }

  lemma {:induction false} StateKeptByOthers(cfg: Config, h: Sys, step: Step)
    requires !OfRun(step)
    requires Enabled(h, step) && InvState(h)
    ensures InvState(Apply(cfg, h, step))
  {
  }

  lemma {:induction false} StateKept(cfg: Config, h: Sys, step: Step)
    requires Enabled(h, step) && InvState(h)
    ensures InvState(Apply(cfg, h, step))
  {
    if OfDispatch(step) {
      StateKeptByDispatch(cfg, h, step);
    } else if OfRun(step) {
      StateKeptByRun(cfg, h, step);
    } else {
      StateKeptByOthers(cfg, h, step);
    }
  }

  lemma {:induction false} StrandKeptByRun(cfg: Config, h: Sys, step: Step)
    requires OfRun(step) && !OfDispatch(step)
    requires Enabled(h, step) && InvLock(h) && InvState(h) && InvStrand(h)
    ensures InvStrand(Apply(cfg, h, step))
  {
  }

  lemma {:induction false} StrandKeptByDispatch(cfg: Config, h: Sys, step: Step)
    requires OfDispatch(step)
    requires Enabled(h, step) && InvLock(h) && InvState(h) && InvStrand(h)
    ensures InvStrand(Apply(cfg, h, step))
  {
  }

  lemma {:induction false} StrandKeptByOthers(cfg: Config, h: Sys, step: Step)
    requires !OfRun(step)
    requires Enabled(h, step) && InvLock(h) && InvState(h) && InvStrand(h)
    ensures InvStrand(Apply(cfg, h, step))
  {
  }

  lemma {:induction false} StrandKept(cfg: Config, h: Sys, step: Step)
    requires Enabled(h, step) && InvLock(h) && InvState(h) && InvStrand(h)
    ensures InvStrand(Apply(cfg, h, step))
  {
    if OfDispatch(step) {
      StrandKeptByDispatch(cfg, h, step);
    } else if OfRun(step) {
      StrandKeptByRun(cfg, h, step);
    } else {
      StrandKeptByOthers(cfg, h, step);
    }
  }

  // ----- Cap accounting -----

  lemma {:induction false} InsertCounts(cfg: Config, reg: Registry, s: nat, sub: Sub, subject: string)
    requires s !in reg.subs && !AtCap(cfg, reg, sub.subject) && Counted(cfg, reg, subject)
    requires forall x | x in reg.subs :: x in reg.objs
    ensures Counted(cfg, Insert(reg, s, sub), subject)
  {
    var before, after := SubjectSubs(reg, subject), SubjectSubs(Insert(reg, s, sub), subject);
    if sub.subject == subject {
      assert after == before + {s};
    } else {
      assert after == before;
    }
  }

  lemma {:induction false} RemoveCounts(cfg: Config, reg: Registry, s: nat, subject: string)
    requires s in reg.objs && Counted(cfg, reg, subject)
    ensures Counted(cfg, Remove(reg, s), subject)
  {
    var before, after := SubjectSubs(reg, subject), SubjectSubs(Remove(reg, s), subject);
    if s in reg.subs && reg.objs[s].subject == subject {
      assert after == before - {s};
    } else {
      assert after == before;
    }
  }

  lemma {:induction false} UpdateCounts(cfg: Config, reg: Registry, s: nat, sub: Sub, subject: string)
    requires s in reg.objs && sub.subject == reg.objs[s].subject && Counted(cfg, reg, subject)
    ensures Counted(cfg, Update(reg, s, sub), subject)
  {
    assert SubjectSubs(Update(reg, s, sub), subject) == SubjectSubs(reg, subject);
  }

  lemma {:induction false} ClearCounts(cfg: Config, reg: Registry, subject: string)
    ensures Counted(cfg, Clear(reg), subject)
  {
    assert SubjectSubs(Clear(reg), subject) == {};
  }

  /** Every step leaves the registry alone, updates one subscriber in place, or is one critical section. */
  lemma {:induction false} RegistryStep(cfg: Config, h: Sys, step: Step)
    requires Enabled(h, step)
    ensures var k := Apply(cfg, h, step);
      || k.reg == h.reg
      || (exists s, sub: Sub :: s in h.reg.objs && sub.subject == h.reg.objs[s].subject && k.reg == Update(h.reg, s, sub))
      || (exists s, sub: Sub :: s !in h.reg.objs && !AtCap(cfg, h.reg, sub.subject) && k.reg == Insert(h.reg, s, sub))
      || (exists s :: s in h.reg.objs && k.reg == Remove(h.reg, s))
      || k.reg == Clear(h.reg)
  {
    var k := Apply(cfg, h, step);
    match step
    case SubInsert(t, s) =>
      if k.reg != h.reg { assert k.reg == Insert(h.reg, s, k.reg.objs[s]); }
    case CloseRemove(t) => assert k.reg == Remove(h.reg, h.handlers[t].s);
    case ReadTip(t) => var s := h.handlers[t].s; assert k.reg == Update(h.reg, s, k.reg.objs[s]);
    case Recv(t) => var s := h.handlers[t].s; assert k.reg == Update(h.reg, s, k.reg.objs[s]);
    case LagCheck(t) => var s := h.handlers[t].s; if k.reg != h.reg { assert k.reg == Update(h.reg, s, k.reg.objs[s]); }
    case CloseCall(t, s) => if k.reg != h.reg { assert k.reg == Update(h.reg, s, k.reg.objs[s]); }
    case CloseChan(t) => var s := h.handlers[t].s; assert k.reg == Update(h.reg, s, k.reg.objs[s]);
    case Offer(s) => assert k.reg == Update(h.reg, s, k.reg.objs[s]);
    case CloseAllSwap(s) => if k.reg != h.reg { assert k.reg == Update(h.reg, s, k.reg.objs[s]); }
    case CloseAllChan => var s := h.run.s; assert k.reg == Update(h.reg, s, k.reg.objs[s]);
    case _ =>
  }

  lemma {:induction false} CountKept(cfg: Config, h: Sys, step: Step)
    requires Enabled(h, step) && InvIds(h) && InvCount(cfg, h)
    ensures InvCount(cfg, Apply(cfg, h, step))
  {
    var k := Apply(cfg, h, step);
    RegistryStep(cfg, h, step);
    forall subject ensures Counted(cfg, k.reg, subject) {
      assert Counted(cfg, h.reg, subject);
      if k.reg != h.reg {
        if s, sub: Sub :| s in h.reg.objs && sub.subject == h.reg.objs[s].subject && k.reg == Update(h.reg, s, sub) {
          UpdateCounts(cfg, h.reg, s, sub, subject);
        } else if s, sub: Sub :| s !in h.reg.objs && !AtCap(cfg, h.reg, sub.subject) && k.reg == Insert(h.reg, s, sub) {
          InsertCounts(cfg, h.reg, s, sub, subject);
        } else if s :| s in h.reg.objs && k.reg == Remove(h.reg, s) {
          RemoveCounts(cfg, h.reg, s, subject);
        } else {
          ClearCounts(cfg, h.reg, subject);
        }
      }
    }
  }

  // ----- Delivery -----

  lemma {:induction false} MissedDelivered(sub: Sub, log: seq<nat>)
    requires Delivered(sub, log) && sub.upto + 1 == |log|
    ensures Delivered(Missed(sub, |log| - 1), log)
  {
  }

  lemma {:induction false} LaggedDelivered(sub: Sub, log: seq<nat>)
    requires Delivered(sub, log) && sub.upto + 1 == |log| && sub.lost.Some?
    ensures Delivered(Lagged(sub), log)
  {
  }

  lemma {:induction false} BufferedDelivered(sub: Sub, log: seq<nat>, i: nat)
    requires Delivered(sub, log) && sub.upto + 1 == |log| && log[sub.upto] == i
    requires sub.lost.Some? ==> sub.lagged > 0
    ensures Delivered(Buffered(sub, i), log)
  {
    assert log[sub.start..sub.upto + 1] == log[sub.start..sub.upto] + [i];
    assert sub.recv + (sub.buf + [i]) == (sub.recv + sub.buf) + [i];
  }

  lemma {:induction false} ReceivedDelivered(sub: Sub, log: seq<nat>)
    requires Delivered(sub, log) && sub.buf != []
    ensures Delivered(sub.(buf := sub.buf[1..], recv := sub.recv + [sub.buf[0]]), log)
  {
    assert (sub.recv + [sub.buf[0]]) + sub.buf[1..] == sub.recv + sub.buf;
    assert (sub.recv + [sub.buf[0]])[..sub.passed] == sub.recv[..sub.passed];
  }

  lemma {:induction false} PassedDelivered(sub: Sub, log: seq<nat>)
    requires Delivered(sub, log) && sub.lagged == 0
    ensures Delivered(sub.(passed := |sub.recv|), log)
  {
    var offered, n := log[sub.start..sub.upto], |sub.recv|;
    assert |offered| == n + |sub.buf|;
    assert sub.recv == (sub.recv + sub.buf)[..n] == offered[..n] == log[sub.start..sub.start + n];
    assert sub.recv[..n] == sub.recv;
  }

  lemma {:induction false} LoggedDelivered(sub: Sub, log: seq<nat>, i: nat)
    requires Delivered(sub, log)
    ensures Delivered(sub, log + [i])
  {
    assert (log + [i])[sub.start..sub.upto] == log[sub.start..sub.upto];
    assert (log + [i])[sub.start..sub.start + sub.passed] == log[sub.start..sub.start + sub.passed];
  }

  /** The only steps that touch a subscriber's channel, history or the dispatch log. */
  predicate DeliveryStep(step: Step) {
    step.SubInsert? || step.Recv? || step.LagCheck? || step.DispatchLock? || step.Offer?
    || step.CountLag?
  }

  predicate SameDelivery(a: Sub, b: Sub) {
    a.start == b.start && a.upto == b.upto && a.lagged == b.lagged && a.buf == b.buf && a.recv == b.recv
    && a.passed == b.passed && a.first == b.first && a.born == b.born && a.lost == b.lost
  }

  lemma {:induction false} OtherStepsKeepDeliveryByRun(cfg: Config, h: Sys, step: Step, s: nat)
    requires OfRun(step) && !OfDispatch(step)
    requires !DeliveryStep(step) && Enabled(h, step) && s in Apply(cfg, h, step).reg.objs
    ensures s in h.reg.objs && SameDelivery(h.reg.objs[s], Apply(cfg, h, step).reg.objs[s])
  {
  }

  lemma {:induction false} OtherStepsKeepDeliveryByDispatch(cfg: Config, h: Sys, step: Step, s: nat)
    requires OfDispatch(step)
    requires !DeliveryStep(step) && Enabled(h, step) && s in Apply(cfg, h, step).reg.objs
    ensures s in h.reg.objs && SameDelivery(h.reg.objs[s], Apply(cfg, h, step).reg.objs[s])
  {
  }

  lemma {:induction false} OtherStepsKeepDeliveryByOthers(cfg: Config, h: Sys, step: Step, s: nat)
    requires !OfRun(step)
    requires !DeliveryStep(step) && Enabled(h, step) && s in Apply(cfg, h, step).reg.objs
    ensures s in h.reg.objs && SameDelivery(h.reg.objs[s], Apply(cfg, h, step).reg.objs[s])
  {
  }

  lemma {:induction false} OtherStepsKeepDelivery(cfg: Config, h: Sys, step: Step, s: nat)
    requires !DeliveryStep(step) && Enabled(h, step) && s in Apply(cfg, h, step).reg.objs
    ensures s in h.reg.objs && SameDelivery(h.reg.objs[s], Apply(cfg, h, step).reg.objs[s])
  {
    if OfDispatch(step) {
      OtherStepsKeepDeliveryByDispatch(cfg, h, step, s);
    } else if OfRun(step) {
      OtherStepsKeepDeliveryByRun(cfg, h, step, s);
    } else {
      OtherStepsKeepDeliveryByOthers(cfg, h, step, s);
    }
  }

  lemma {:induction false} HistFrame(cfg: Config, h: Sys, k: Sys)
    requires InvHist(cfg, h) && k.log == h.log
    requires forall s | s in k.reg.objs :: s in h.reg.objs && SameDelivery(h.reg.objs[s], k.reg.objs[s])
    ensures InvHist(cfg, k)
  {
    forall s | s in k.reg.objs
      ensures Delivered(k.reg.objs[s], k.log) && |k.reg.objs[s].buf| <= cfg.bufSize
    {
      assert Delivered(h.reg.objs[s], h.log);
    }
  }

  /** One subscriber changes, the log does not. */
  lemma {:induction false} HistUpdate(cfg: Config, h: Sys, k: Sys, s: nat, sub: Sub)
    requires InvHist(cfg, h) && k.log == h.log && k.reg.objs == h.reg.objs[s := sub]
    requires Delivered(sub, h.log) && |sub.buf| <= cfg.bufSize
    ensures InvHist(cfg, k)
  {
  }

  lemma {:induction false} HistKeptByOffer(cfg: Config, h: Sys, s: nat)
    requires Enabled(h, Offer(s)) && InvOffered(h) && InvMissed(h) && InvIds(h) && InvHist(cfg, h)
    ensures InvHist(cfg, Apply(cfg, h, Offer(s)))
  {
    var sub, k := h.reg.objs[s], Apply(cfg, h, Offer(s));
    assert Delivered(sub, h.log);
    if HasRoom(cfg, sub) {
      BufferedDelivered(sub, h.log, h.run.i);
      HistUpdate(cfg, h, k, s, Buffered(sub, h.run.i));
    } else {
      MissedDelivered(sub, h.log);
      HistUpdate(cfg, h, k, s, Missed(sub, |h.log| - 1));
    }
  }

  lemma {:induction false} HistKeptByCountLag(cfg: Config, h: Sys)
    requires Enabled(h, CountLag) && InvOffered(h) && InvMissed(h) && InvIds(h) && InvHist(cfg, h)
    ensures InvHist(cfg, Apply(cfg, h, CountLag))
  {
    var sub, k := h.reg.objs[h.run.s], Apply(cfg, h, CountLag);
    assert Delivered(sub, h.log);
    LaggedDelivered(sub, h.log);
    HistUpdate(cfg, h, k, h.run.s, Lagged(sub));
  }

  lemma {:induction false} HistKeptByDelivery(cfg: Config, h: Sys, step: Step)
    requires DeliveryStep(step)
    requires Enabled(h, step) && InvOffered(h) && InvMissed(h) && InvIds(h) && InvHist(cfg, h)
    ensures InvHist(cfg, Apply(cfg, h, step))
  {
    var k := Apply(cfg, h, step);
    match step
    case SubInsert(t, s) =>
      if s in k.reg.objs { HistUpdate(cfg, h, k, s, k.reg.objs[s]); }
    case Recv(t) =>
      var s := h.handlers[t].s;
      ReceivedDelivered(h.reg.objs[s], h.log);
      HistUpdate(cfg, h, k, s, k.reg.objs[s]);
    case LagCheck(t) =>
      var s := h.handlers[t].s;
      if h.reg.objs[s].lagged == 0 {
        PassedDelivered(h.reg.objs[s], h.log);
        HistUpdate(cfg, h, k, s, k.reg.objs[s]);
      }
    case Offer(s) => HistKeptByOffer(cfg, h, s);
    case CountLag => HistKeptByCountLag(cfg, h);
    case DispatchLock =>
      forall s | s in h.reg.objs ensures Delivered(h.reg.objs[s], k.log) { LoggedDelivered(h.reg.objs[s], h.log, h.run.i); }
  }

  lemma {:induction false} HistKept(cfg: Config, h: Sys, step: Step)
    requires Enabled(h, step) && InvOffered(h) && InvMissed(h) && InvIds(h) && InvHist(cfg, h)
    ensures InvHist(cfg, Apply(cfg, h, step))
  {
    if DeliveryStep(step) {
      HistKeptByDelivery(cfg, h, step);
    } else {
      var k := Apply(cfg, h, step);
      forall s | s in k.reg.objs ensures s in h.reg.objs && SameDelivery(h.reg.objs[s], k.reg.objs[s]) {
        OtherStepsKeepDelivery(cfg, h, step, s);
      }
      HistFrame(cfg, h, k);
    }
  }

  lemma {:induction false} MissedKeptByDispatch(cfg: Config, h: Sys, step: Step)
    requires OfDispatch(step)
    requires Enabled(h, step) && InvIds(h) && InvMissed(h)
    ensures InvMissed(Apply(cfg, h, step))
  {
  }

  lemma {:induction false} MissedKeptByRun(cfg: Config, h: Sys, step: Step)
    requires OfRun(step) && !OfDispatch(step)
    requires Enabled(h, step) && InvIds(h) && InvMissed(h)
    ensures InvMissed(Apply(cfg, h, step))
  {
  }

  lemma {:induction false} MissedKeptByOthers(cfg: Config, h: Sys, step: Step)
    requires !OfRun(step)
    requires Enabled(h, step) && InvIds(h) && InvMissed(h)
    ensures InvMissed(Apply(cfg, h, step))
  {
  }

  lemma {:induction false} MissedKept(cfg: Config, h: Sys, step: Step)
    requires Enabled(h, step) && InvIds(h) && InvMissed(h)
    ensures InvMissed(Apply(cfg, h, step))
  {
    if OfDispatch(step) {
      MissedKeptByDispatch(cfg, h, step);
    } else if OfRun(step) {
      MissedKeptByRun(cfg, h, step);
    } else {
      MissedKeptByOthers(cfg, h, step);
    }
  }

  lemma {:induction false} OfferedKeptByRun(cfg: Config, h: Sys, step: Step)
    requires OfRun(step) && !OfDispatch(step)
    requires Enabled(h, step) && InvLock(h) && InvIds(h) && InvOffered(h)
    ensures InvOffered(Apply(cfg, h, step))
  {
  }

  lemma {:induction false} OfferedKeptByDispatch(cfg: Config, h: Sys, step: Step)
    requires OfDispatch(step)
    requires Enabled(h, step) && InvLock(h) && InvIds(h) && InvOffered(h)
    ensures InvOffered(Apply(cfg, h, step))
  {
  }

  lemma {:induction false} OfferedKeptByOthers(cfg: Config, h: Sys, step: Step)
    requires !OfRun(step)
    requires Enabled(h, step) && InvLock(h) && InvIds(h) && InvOffered(h)
    ensures InvOffered(Apply(cfg, h, step))
  {
  }

  lemma {:induction false} OfferedKept(cfg: Config, h: Sys, step: Step)
    requires Enabled(h, step) && InvLock(h) && InvIds(h) && InvOffered(h)
    ensures InvOffered(Apply(cfg, h, step))
  {
    if OfDispatch(step) {
      OfferedKeptByDispatch(cfg, h, step);
    } else if OfRun(step) {
      OfferedKeptByRun(cfg, h, step);
    } else {
      OfferedKeptByOthers(cfg, h, step);
    }
  }

  lemma {:induction false} ClockKeptByRun(cfg: Config, h: Sys, step: Step)
    requires OfRun(step) && !OfDispatch(step)
    requires Enabled(h, step) && InvClock(h)
    ensures InvClock(Apply(cfg, h, step))
  {
  }

  lemma {:induction false} ClockKeptByDispatch(cfg: Config, h: Sys, step: Step)
    requires OfDispatch(step)
    requires Enabled(h, step) && InvClock(h)
    ensures InvClock(Apply(cfg, h, step))
  {
  }

  lemma {:induction false} ClockKeptByOthers(cfg: Config, h: Sys, step: Step)
    requires !OfRun(step)
    requires Enabled(h, step) && InvClock(h)
    ensures InvClock(Apply(cfg, h, step))
  {
  }

  lemma {:induction false} ClockKept(cfg: Config, h: Sys, step: Step)
    requires Enabled(h, step) && InvClock(h)
    ensures InvClock(Apply(cfg, h, step))
  {
    if OfDispatch(step) {
      ClockKeptByDispatch(cfg, h, step);
    } else if OfRun(step) {
      ClockKeptByRun(cfg, h, step);
    } else {
      ClockKeptByOthers(cfg, h, step);
    }
  }

  lemma {:induction false} BornKept(cfg: Config, h: Sys, step: Step)
    requires Enabled(h, step) && InvClock(h) && InvBorn(h)
    ensures InvBorn(Apply(cfg, h, step))
  {
    var k := Apply(cfg, h, step);
    forall s | s in k.reg.objs ensures Born(k.reg.objs[s], k.commits) {
      if s in h.reg.objs { assert Born(h.reg.objs[s], h.commits); }
    }
  }

  lemma {:induction false} OfferConsecutive(sub: Sub, after: Sub, log: seq<nat>, i: nat)
    requires Consecutive(sub, log) && sub.start <= sub.upto && sub.upto + 1 == |log| && log[sub.upto] == i
    requires sub.first + (sub.upto - sub.start) == i
    requires after.start == sub.start && after.first == sub.first && after.upto == sub.upto + 1
    ensures Consecutive(after, log)
  {
  }

  /** The offer to s is over: nothing else about what subscribers are offered changes. */
  lemma {:induction false} OneOffered(cfg: Config, h: Sys, k: Sys, s: nat)
    requires s in h.reg.objs && s in h.reg.subs && Offering(h, s) && InDispatch(h.run) && InDispatch(k.run)
    requires InvOffered(h) && InvHist(cfg, h) && InvClock(h) && InvSeq(h)
    requires k.run.i == h.run.i && k.log == h.log && k.next == h.next && k.reg.subs == h.reg.subs
    requires s in k.reg.objs && k.reg.objs == h.reg.objs[s := k.reg.objs[s]]
    requires var a, b := h.reg.objs[s], k.reg.objs[s];
             b.start == a.start && b.first == a.first && b.upto == a.upto + 1
    requires forall x | x in h.reg.subs :: Offering(k, x) <==> Offering(h, x) && x != s
    ensures InvSeq(k)
  {
    assert Delivered(h.reg.objs[s], h.log);
    OfferConsecutive(h.reg.objs[s], k.reg.objs[s], h.log, h.run.i);
    forall x | x in k.reg.objs && x in k.reg.subs
      ensures k.reg.objs[x].first + (k.reg.objs[x].upto - k.reg.objs[x].start) == NextFor(k, x)
    {
      assert h.reg.objs[x].first + (h.reg.objs[x].upto - h.reg.objs[x].start) == NextFor(h, x);
    }
  }

  lemma {:induction false} SeqKeptByBuffered(cfg: Config, h: Sys, s: nat)
    requires Enabled(h, Offer(s)) && HasRoom(cfg, h.reg.objs[s])
    requires InvIds(h) && InvOffered(h) && InvHist(cfg, h) && InvClock(h) && InvSeq(h)
    ensures InvSeq(Apply(cfg, h, Offer(s)))
  {
    OneOffered(cfg, h, Apply(cfg, h, Offer(s)), s);
  }

  lemma {:induction false} SeqKeptByMissed(cfg: Config, h: Sys, s: nat)
    requires Enabled(h, Offer(s)) && !HasRoom(cfg, h.reg.objs[s]) && InvSeq(h)
    ensures InvSeq(Apply(cfg, h, Offer(s)))
  {
    SeqFrame(h, Apply(cfg, h, Offer(s)));
  }

  lemma {:induction false} SeqKeptByCountLag(cfg: Config, h: Sys)
    requires Enabled(h, CountLag) && InvIds(h) && InvOffered(h) && InvHist(cfg, h) && InvClock(h) && InvSeq(h)
    ensures InvSeq(Apply(cfg, h, CountLag))
  {
    OneOffered(cfg, h, Apply(cfg, h, CountLag), h.run.s);
  }

  lemma {:induction false} SeqKeptByDispatch(cfg: Config, h: Sys)
    requires Enabled(h, DispatchLock) && InvIds(h) && InvHist(cfg, h) && InvClock(h) && InvSeq(h)
    ensures InvSeq(Apply(cfg, h, DispatchLock))
  {
    var k := Apply(cfg, h, DispatchLock);
    forall s | s in k.reg.objs ensures Consecutive(k.reg.objs[s], k.log) {
      assert Consecutive(h.reg.objs[s], h.log) && Delivered(h.reg.objs[s], h.log);
    }
  }

  /** No other step changes which notification a registered subscriber is offered next. */
  lemma {:induction false} NextStays(cfg: Config, h: Sys, step: Step, s: nat)
    requires !step.Offer? && !step.CountLag? && !step.DispatchLock? && !step.SubInsert?
    requires Enabled(h, step) && InvStrand(h) && InvClock(h)
    requires var k := Apply(cfg, h, step); !k.skipped && InSession(k.run) && s in k.reg.subs
    ensures InSession(h.run) && s in h.reg.subs && NextFor(Apply(cfg, h, step), s) == NextFor(h, s)
  {
  }

  predicate SameOffers(a: Sub, b: Sub) {
    a.start == b.start && a.upto == b.upto && a.first == b.first
  }

  lemma {:induction false} OffersStayByRun(cfg: Config, h: Sys, step: Step, s: nat)
    requires OfRun(step) && !OfDispatch(step)
    requires !step.Offer? && !step.CountLag? && !step.SubInsert? && Enabled(h, step) && s in Apply(cfg, h, step).reg.objs
    ensures s in h.reg.objs && SameOffers(h.reg.objs[s], Apply(cfg, h, step).reg.objs[s])
  {
  }

  lemma {:induction false} OffersStayByDispatch(cfg: Config, h: Sys, step: Step, s: nat)
    requires OfDispatch(step)
    requires !step.Offer? && !step.CountLag? && !step.SubInsert? && Enabled(h, step) && s in Apply(cfg, h, step).reg.objs
    ensures s in h.reg.objs && SameOffers(h.reg.objs[s], Apply(cfg, h, step).reg.objs[s])
  {
  }

  lemma {:induction false} OffersStayByOthers(cfg: Config, h: Sys, step: Step, s: nat)
    requires !OfRun(step)
    requires !step.Offer? && !step.CountLag? && !step.SubInsert? && Enabled(h, step) && s in Apply(cfg, h, step).reg.objs
    ensures s in h.reg.objs && SameOffers(h.reg.objs[s], Apply(cfg, h, step).reg.objs[s])
  {
  }

  lemma {:induction false} OffersStay(cfg: Config, h: Sys, step: Step, s: nat)
    requires !step.Offer? && !step.CountLag? && !step.SubInsert? && Enabled(h, step) && s in Apply(cfg, h, step).reg.objs
    ensures s in h.reg.objs && SameOffers(h.reg.objs[s], Apply(cfg, h, step).reg.objs[s])
  {
    if OfDispatch(step) {
      OffersStayByDispatch(cfg, h, step, s);
    } else if OfRun(step) {
      OffersStayByRun(cfg, h, step, s);
    } else {
      OffersStayByOthers(cfg, h, step, s);
    }
  }

  lemma {:induction false} SeqFrame(h: Sys, k: Sys)
    requires InvSeq(h) && k.log == h.log
    requires forall s | s in k.reg.objs :: s in h.reg.objs && SameOffers(h.reg.objs[s], k.reg.objs[s])
    requires InSession(k.run) ==> forall s | s in k.reg.subs ::
      InSession(h.run) && s in h.reg.subs && NextFor(k, s) == NextFor(h, s)
    ensures InvSeq(k)
  {
    forall s | s in k.reg.objs ensures Consecutive(k.reg.objs[s], k.log) {
      assert Consecutive(h.reg.objs[s], h.log);
    }
  }

  lemma {:induction false} SeqKeptByInsert(cfg: Config, h: Sys, t: nat, s: nat)
    requires Enabled(h, SubInsert(t, s)) && InvLock(h) && InvSeq(h)
    ensures InvSeq(Apply(cfg, h, SubInsert(t, s)))
  {
    var k := Apply(cfg, h, SubInsert(t, s));
    forall x | x in k.reg.objs ensures Consecutive(k.reg.objs[x], k.log) {
      if x in h.reg.objs { assert Consecutive(h.reg.objs[x], h.log); }
    }
  }

  lemma {:induction false} SeqKeptByOthers(cfg: Config, h: Sys, step: Step)
    requires !step.Offer? && !step.CountLag? && !step.DispatchLock? && !step.SubInsert?
    requires Enabled(h, step) && InvStrand(h) && InvClock(h) && InvSeq(h) && !Apply(cfg, h, step).skipped
    ensures InvSeq(Apply(cfg, h, step))
  {
    var k := Apply(cfg, h, step);
    forall s | s in k.reg.objs ensures s in h.reg.objs && SameOffers(h.reg.objs[s], k.reg.objs[s]) {
      OffersStay(cfg, h, step, s);
    }
    forall s | InSession(k.run) && s in k.reg.subs
      ensures InSession(h.run) && s in h.reg.subs && NextFor(k, s) == NextFor(h, s)
    {
      NextStays(cfg, h, step, s);
    }
    SeqFrame(h, k);
  }

  lemma {:induction false} SeqKept(cfg: Config, h: Sys, step: Step)
    requires Enabled(h, step) && InvLock(h) && InvIds(h) && InvStrand(h) && InvHist(cfg, h) && InvOffered(h)
    requires InvClock(h) && InvSeq(h) && !Apply(cfg, h, step).skipped
    ensures InvSeq(Apply(cfg, h, step))
  {
    match step
    case Offer(s) =>
      if HasRoom(cfg, h.reg.objs[s]) { SeqKeptByBuffered(cfg, h, s); } else { SeqKeptByMissed(cfg, h, s); }
    case CountLag => SeqKeptByCountLag(cfg, h);
    case DispatchLock => SeqKeptByDispatch(cfg, h);
    case SubInsert(t, s) => SeqKeptByInsert(cfg, h, t, s);
    case _ => SeqKeptByOthers(cfg, h, step);
  }

  // ----- Every run -----

  lemma {:induction false} InitInv(cfg: Config)
    ensures Inv(cfg, Init())
  {
    forall subject ensures Counted(cfg, Init().reg, subject) { assert SubjectSubs(Init().reg, subject) == {}; }
  }

  lemma {:induction false} ClosingKept(cfg: Config, h: Sys, step: Step)
    requires Enabled(h, step) && InvLock(h) && InvIds(h) && InvFlags(h) && InvClosers(h) && InvOneCloser(h)
    ensures InvFlags(Apply(cfg, h, step)) && InvClosers(Apply(cfg, h, step))
  {
    if CloseAllStep(step) {
      FlagsKeptByCloseAll(cfg, h, step);
      ClosersKeptByCloseAll(cfg, h, step);
    } else if CloseStep(step) {
      FlagsKeptByClose(cfg, h, step);
      ClosersKeptByClose(cfg, h, step);
    } else {
      if OfDispatch(step) {
        FlagsKeptByDispatch(cfg, h, step);
      } else if OfRun(step) {
        FlagsKeptByRun(cfg, h, step);
      } else {
        FlagsKeptByOthers(cfg, h, step);
      }
      ClosersKept(cfg, h, step);
    }
  }

  lemma {:induction false} StepInv(cfg: Config, h: Sys, step: Step)
    requires Inv(cfg, h)
    ensures Inv(cfg, Do(cfg, h, step))
  {
    if Enabled(h, step) {
      LockKept(cfg, h, step);
      IdsKept(cfg, h, step);
      ClosingKept(cfg, h, step);
      OneCloserKept(cfg, h, step);
      PendingKept(cfg, h, step);
      CountKept(cfg, h, step);
      StateKept(cfg, h, step);
      StrandKept(cfg, h, step);
      HistKept(cfg, h, step);
      OfferedKept(cfg, h, step);
      MissedKept(cfg, h, step);
      ClockKept(cfg, h, step);
      BornKept(cfg, h, step);
      if !Apply(cfg, h, step).skipped { SeqKept(cfg, h, step); }
    }
  }

  /** The invariant holds after every schedule. */
  lemma {:induction false} RunInv(cfg: Config, schedule: seq<Step>)
    ensures Inv(cfg, After(cfg, Init(), schedule))
  {
    if schedule == [] {
      InitInv(cfg);
    } else {
      RunInv(cfg, schedule[..|schedule| - 1]);
      StepInv(cfg, After(cfg, Init(), schedule[..|schedule| - 1]), schedule[|schedule| - 1]);
    }
  }
}
