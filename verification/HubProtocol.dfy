/**
The stream hub as an interleaving of goroutines (internal/api/stream/hub.go).

Every access to the atomic `state`, `closed` and `lagged` fields, every lock operation and every
channel operation is one `Step`.  A schedule is an arbitrary sequence of step labels; a label that is
not enabled does nothing, so the schedules range over all interleavings.  Events are identified by the
number of the committed notification they carry.
*/
module HubProtocol {
  import opened Wrappers

  datatype HubState = Pending | Running | Degraded | Stopped

  /** One subscriber: the five fields of the program, then the history the theorems speak about. */
  datatype Sub = Sub(
    subject: string,
    closed: bool,      // the close-once flag
    closes: nat,       // how often the channel has been closed: 0 means open
    buf: seq<nat>,     // what the channel holds
    lagged: nat,
    start: nat,        // length of the dispatch log at registration
    upto: nat,         // length of the dispatch log already offered to it, lost events counted
    lost: Option<nat>, // position in the dispatch log of the first event its channel had no room for
    first: nat,        // the notification it would be offered next, at registration
    born: nat,         // notifications committed at registration
    tip: Option<nat>,  // notifications committed when its handler read the latest height
    recv: seq<nat>,    // what its handler took from the channel
    passed: nat)       // how many of those passed the `Lagged() == 0` check

  /** The two maps guarded by the lock, and the subscribers ever created. */
  datatype Registry = Registry(subs: set<nat>, perSubject: map<string, int>, objs: map<nat, Sub>)

  datatype Owner = RunLoop | Handler(tid: nat)
  datatype Lock = Free | Read | Write(owner: Owner)

  datatype Pc =
    | Checked(subject: string)   // Subscribe: first state check passed
    | Locked(subject: string)    // Subscribe: holds the lock
    | Admitted(subject: string)  // Subscribe: state re-checked under the lock
    | Owns(s: nat)               // the handler between frames
    | Got(s: nat)                // the handler took an event, lag not yet checked
    | Leaving(s: nat)            // the handler returns; its deferred Close comes next
    | Flagged(s: nat)            // Close: set the flag
    | Unregistering(s: nat)      // Close: holds the lock
    | Unregistered(s: nat)       // Close: released the lock, channel still open

  /** What follows closeAllSubs: reconnecting, the drain after a cancelled wait, or the end of Run. */
  datatype Sequel = Reconnect | Cancelled | Final

  datatype RunPc =
    | Connecting
    | Listened
    | Waiting
    | Popped(i: nat)
    | Dispatching(i: nat, todo: set<nat>)
    | Counting(i: nat, todo: set<nat>, s: nat)  // the send to s fell through, its lag not yet counted
    | Closing(after: Sequel)
    | ClosingLocked(after: Sequel, todo: set<nat>)
    | ClosingOne(after: Sequel, todo: set<nat>, s: nat)
    | Draining
    | Returned

  datatype Sys = Sys(
    state: HubState,
    lock: Lock,
    reg: Registry,
    run: RunPc,
    handlers: map<nat, Pc>,
    commits: nat,      // notifications committed by the indexer
    next: nat,         // next notification the LISTEN session delivers
    log: seq<nat>,     // notifications dispatched, in order
    skipped: bool,     // a payload failed to decode and was dropped
    panics: nat)       // closes of a closed channel and sends on one

  datatype Config = Config(bufSize: nat, perSubjectMax: int)

  datatype Step =
    | Commit
    | SubCheck(t: nat, subject: string)
    | SubLock(t: nat)
    | SubRecheck(t: nat)
    | SubInsert(t: nat, s: nat)
    | ReadTip(t: nat)
    | Recv(t: nat)
    | LagCheck(t: nat)
    | Leave(t: nat)
    | CloseCall(t: nat, s: nat)
    | CloseLock(t: nat)
    | CloseRemove(t: nat)
    | CloseChan(t: nat)
    | ListenOk
    | StoreRunning
    | Notify(decoded: bool)
    | DispatchLock
    | Offer(s: nat)
    | CountLag
    | DispatchUnlock
    | WaitFail(cancelled: bool)
    | CloseAllLock
    | CloseAllSwap(s: nat)
    | CloseAllChan
    | CloseAllClear(stop: bool)
    | CtxCancel
    | StoreStopped

  // ----- The effect of each critical section on the guarded maps -----

  function SubjectCount(reg: Registry, subject: string): int {
    if subject in reg.perSubject then reg.perSubject[subject] else 0
  }

  predicate AtCap(cfg: Config, reg: Registry, subject: string) {
    cfg.perSubjectMax > 0 && SubjectCount(reg, subject) >= cfg.perSubjectMax
  }

  function NewSub(subject: string, start: nat, first: nat, born: nat): Sub {
    Sub(subject, false, 0, [], 0, start, start, None, first, born, None, [], 0)
  }

  function Insert(reg: Registry, s: nat, sub: Sub): Registry {
    Registry(reg.subs + {s}, reg.perSubject[sub.subject := SubjectCount(reg, sub.subject) + 1], reg.objs[s := sub])
  }

  function Remove(reg: Registry, s: nat): Registry
    requires s in reg.objs
  {
    if s !in reg.subs then reg else
      var subject := reg.objs[s].subject;
      var n := SubjectCount(reg, subject) - 1;
      reg.(subs := reg.subs - {s},
           perSubject := if n <= 0 then reg.perSubject - {subject} else reg.perSubject[subject := n])
  }

  function Clear(reg: Registry): Registry {
    reg.(subs := {}, perSubject := map[])
  }

  function Update(reg: Registry, s: nat, sub: Sub): Registry {
    reg.(objs := reg.objs[s := sub])
  }

  predicate HasRoom(cfg: Config, sub: Sub) {
    |sub.buf| < cfg.bufSize
  }

  /** The non-blocking send when the channel has room. */
  function Buffered(sub: Sub, i: nat): Sub {
    sub.(buf := sub.buf + [i], upto := sub.upto + 1)
  }

  /** The non-blocking send when it has none: the event at this position of the log is lost. */
  function Missed(sub: Sub, position: nat): Sub {
    if sub.lost.None? then sub.(lost := Some(position)) else sub
  }

  /** The lag counter rises only afterwards. */
  function Lagged(sub: Sub): Sub {
    sub.(lagged := sub.lagged + 1, upto := sub.upto + 1)
  }

  /** Both steps of an offer at the end of a log of length n. */
  function Offered(cfg: Config, sub: Sub, i: nat, n: nat): Sub
    requires n > 0
  {
    if HasRoom(cfg, sub) then Buffered(sub, i) else Lagged(Missed(sub, n - 1))
  }

  // ----- The transition system -----

  function Init(): Sys {
    Sys(Pending, Free, Registry({}, map[], map[]), Connecting, map[], 0, 0, [], false, 0)
  }

  /** The notification a subscriber registered now is offered first, unless its payload is malformed. */
  function NextOffer(h: Sys): nat {
    if h.run.Popped? then h.run.i else h.next
  }

  predicate Enabled(h: Sys, step: Step) {
    match step
    case Commit => true
    case SubCheck(t, _) => t !in h.handlers && h.state == Running
    case SubLock(t) => t in h.handlers && h.handlers[t].Checked? && h.lock == Free
    case SubRecheck(t) => t in h.handlers && h.handlers[t].Locked?
    case SubInsert(t, s) => t in h.handlers && h.handlers[t].Admitted? && s !in h.reg.objs
    case ReadTip(t) => t in h.handlers && h.handlers[t].Owns? && h.handlers[t].s in h.reg.objs
    case Recv(t) =>
      t in h.handlers && h.handlers[t].Owns? && h.handlers[t].s in h.reg.objs && h.reg.objs[h.handlers[t].s].buf != []
    case LagCheck(t) => t in h.handlers && h.handlers[t].Got? && h.handlers[t].s in h.reg.objs
    case Leave(t) => t in h.handlers && h.handlers[t].Owns?
    case CloseCall(t, s) => s in h.reg.objs && (t !in h.handlers || h.handlers[t] == Leaving(s))
    case CloseLock(t) => t in h.handlers && h.handlers[t].Flagged? && h.lock == Free
    case CloseRemove(t) => t in h.handlers && h.handlers[t].Unregistering? && h.handlers[t].s in h.reg.objs
    case CloseChan(t) => t in h.handlers && h.handlers[t].Unregistered? && h.handlers[t].s in h.reg.objs
    case ListenOk => h.run == Connecting
    case StoreRunning => h.run == Listened
    case Notify(_) => h.run == Waiting && h.next < h.commits
    case DispatchLock => h.run.Popped? && h.lock == Free
    case Offer(s) => h.run.Dispatching? && s in h.run.todo && s in h.reg.objs && h.log != []
    case CountLag => h.run.Counting? && h.run.s in h.reg.objs
    case DispatchUnlock => h.run.Dispatching? && h.run.todo == {}
    case WaitFail(_) => h.run == Waiting
    case CloseAllLock => h.run.Closing? && h.lock == Free
    case CloseAllSwap(s) => h.run.ClosingLocked? && s in h.run.todo && s in h.reg.objs
    case CloseAllChan => h.run.ClosingOne? && h.run.s in h.reg.objs
    case CloseAllClear(_) => h.run.ClosingLocked? && h.run.todo == {}
    case CtxCancel => h.run == Connecting
    case StoreStopped => h.run == Draining
  }

  /** close(ch): a second close of the same channel panics. */
  function CloseChannel(h: Sys, s: nat): Sys
    requires s in h.reg.objs
  {
    var sub := h.reg.objs[s];
    h.(reg := Update(h.reg, s, sub.(closes := sub.closes + 1)),
       panics := if sub.closes > 0 then h.panics + 1 else h.panics)
  }

  function Apply(cfg: Config, h: Sys, step: Step): Sys
    requires Enabled(h, step)
  {
    match step
    case Commit => h.(commits := h.commits + 1)
    case SubCheck(t, subject) => h.(handlers := h.handlers[t := Checked(subject)])
    case SubLock(t) =>
      h.(lock := Write(Handler(t)), handlers := h.handlers[t := Locked(h.handlers[t].subject)])
    case SubRecheck(t) =>
      if h.state == Running then h.(handlers := h.handlers[t := Admitted(h.handlers[t].subject)])
      else h.(lock := Free, handlers := h.handlers - {t})
    case SubInsert(t, s) =>
      var subject := h.handlers[t].subject;
      if AtCap(cfg, h.reg, subject) then h.(lock := Free, handlers := h.handlers - {t})
      else h.(lock := Free, handlers := h.handlers[t := Owns(s)],
              reg := Insert(h.reg, s, NewSub(subject, |h.log|, NextOffer(h), h.commits)))
    case ReadTip(t) =>
      var s := h.handlers[t].s;
      h.(reg := Update(h.reg, s, h.reg.objs[s].(tip := Some(h.commits))))
    case Recv(t) =>
      var s := h.handlers[t].s;
      var sub := h.reg.objs[s];
      h.(reg := Update(h.reg, s, sub.(buf := sub.buf[1..], recv := sub.recv + [sub.buf[0]])),
         handlers := h.handlers[t := Got(s)])
    case LagCheck(t) =>
      var s := h.handlers[t].s;
      var sub := h.reg.objs[s];
      if sub.lagged > 0 then h.(handlers := h.handlers[t := Leaving(s)])
      else h.(reg := Update(h.reg, s, sub.(passed := |sub.recv|)), handlers := h.handlers[t := Owns(s)])
    case Leave(t) => h.(handlers := h.handlers[t := Leaving(h.handlers[t].s)])
    case CloseCall(t, s) =>
      if h.reg.objs[s].closed then h.(handlers := h.handlers - {t})
      else h.(reg := Update(h.reg, s, h.reg.objs[s].(closed := true)), handlers := h.handlers[t := Flagged(s)])
    case CloseLock(t) =>
      h.(lock := Write(Handler(t)), handlers := h.handlers[t := Unregistering(h.handlers[t].s)])
    case CloseRemove(t) =>
      var s := h.handlers[t].s;
      h.(lock := Free, reg := Remove(h.reg, s), handlers := h.handlers[t := Unregistered(s)])
    case CloseChan(t) => CloseChannel(h, h.handlers[t].s).(handlers := h.handlers - {t})
    case ListenOk => h.(run := Listened, next := h.commits)
    case StoreRunning => h.(run := Waiting, state := Running)
    case Notify(decoded) =>
      if decoded then h.(run := Popped(h.next), next := h.next + 1) else h.(next := h.next + 1, skipped := true)
    case DispatchLock => h.(run := Dispatching(h.run.i, h.reg.subs), lock := Read, log := h.log + [h.run.i])
    case Offer(s) =>
      var sub := h.reg.objs[s];
      h.(run := if HasRoom(cfg, sub) then Dispatching(h.run.i, h.run.todo - {s}) else Counting(h.run.i, h.run.todo - {s}, s),
         reg := Update(h.reg, s, if HasRoom(cfg, sub) then Buffered(sub, h.run.i) else Missed(sub, |h.log| - 1)),
         panics := if sub.closes > 0 then h.panics + 1 else h.panics)
    case CountLag =>
      h.(run := Dispatching(h.run.i, h.run.todo), reg := Update(h.reg, h.run.s, Lagged(h.reg.objs[h.run.s])))
    case DispatchUnlock => h.(run := Waiting, lock := Free)
    case WaitFail(cancelled) =>
      if cancelled then h.(run := Closing(Cancelled)) else h.(run := Closing(Reconnect), state := Degraded)
    case CloseAllLock => h.(run := ClosingLocked(h.run.after, h.reg.subs), lock := Write(RunLoop))
    case CloseAllSwap(s) =>
      var sub := h.reg.objs[s];
      if sub.closed then h.(run := ClosingLocked(h.run.after, h.run.todo - {s}))
      else h.(run := ClosingOne(h.run.after, h.run.todo - {s}, s), reg := Update(h.reg, s, sub.(closed := true)))
    case CloseAllChan => CloseChannel(h, h.run.s).(run := ClosingLocked(h.run.after, h.run.todo))
    case CloseAllClear(stop) =>
      h.(lock := Free, reg := Clear(h.reg),
         run := match h.run.after
           case Reconnect => if stop then Draining else Connecting
           case Cancelled => Draining
           case Final => Returned)
    case CtxCancel => h.(run := Draining)
    case StoreStopped => h.(run := Closing(Final), state := Stopped)
  }

  /** The steps of the Run goroutine; the others are the commits' and the handlers'. */
  predicate OfRun(step: Step) {
    step.ListenOk? || step.StoreRunning? || step.Notify? || step.DispatchLock? || step.Offer? || step.CountLag?
    || step.DispatchUnlock?
    || step.WaitFail? || step.CloseAllLock? || step.CloseAllSwap? || step.CloseAllChan? || step.CloseAllClear?
    || step.CtxCancel? || step.StoreStopped?
  }

  predicate OfDispatch(step: Step) {
    step.DispatchLock? || step.Offer? || step.CountLag? || step.DispatchUnlock?
  }

  function Do(cfg: Config, h: Sys, step: Step): Sys {
    if Enabled(h, step) then Apply(cfg, h, step) else h
  }

  /** The state after a schedule. */
  function After(cfg: Config, h: Sys, schedule: seq<Step>): Sys {
    if schedule == [] then h else Do(cfg, After(cfg, h, schedule[..|schedule| - 1]), schedule[|schedule| - 1])
  }
}
