/**
The webhook dispatcher (internal/webhooks/dispatcher.go): the delivery loop of one event, and Emit, Stop and
the worker as an interleaving of goroutines in which every atomic or channel operation is one step.
*/
module Webhooks {
  datatype Event = Event(kind: string, payload: string)

  datatype Endpoint = Endpoint(url: string, events: seq<string>)

  /** How one delivery attempt goes: the request cannot be built, gets no answer, or gets a status. */
  datatype Reply = BuildError | NoAnswer | Status(code: int)

  predicate Accepts(reply: Reply) {
    reply.Status? && 200 <= reply.code < 300
  }

  predicate Wanted(ep: Endpoint, kind: string) {
    ep.events == [] || kind in ep.events
  }

  /** The number of attempts the loop bound allows: none when maxRetries is negative. */
  function Attempts(maxRetries: int): nat {
    if maxRetries < 0 then 0 else maxRetries + 1
  }

  method Wants(ep: Endpoint, kind: string) returns (wanted: bool)
    ensures wanted <==> Wanted(ep, kind)
  {
    if |ep.events| == 0 {
      return true;
    }
    for k := 0 to |ep.events|
      invariant kind !in ep.events[..k]
    {
      if ep.events[k] == kind {
        return true;
      }
    }
    wanted := false;
  }

  /** `posts` requests are sent, after `slept` units of 200 ms. */
  method Deliver(maxRetries: int, replies: nat -> Reply) returns (posts: nat, slept: nat, delivered: bool)
    ensures posts <= Attempts(maxRetries)
    ensures forall k: nat :: k < posts ==> !replies(k).BuildError?
    ensures forall k: nat :: k + 1 < posts ==> !Accepts(replies(k))
    ensures delivered <==> posts > 0 && Accepts(replies(posts - 1))
    ensures !delivered && posts < Attempts(maxRetries) ==> replies(posts).BuildError?
    ensures 2 * slept == if !delivered && posts < Attempts(maxRetries) then posts * (posts + 1) else posts * (posts - 1)
  {
    posts, slept, delivered := 0, 0, false;
    var attempt: nat := 0;
    while attempt <= maxRetries
      invariant attempt <= Attempts(maxRetries) && posts == attempt && !delivered
      invariant forall k: nat :: k < posts ==> !replies(k).BuildError? && !Accepts(replies(k))
      invariant attempt == 0 ==> slept == 0
      invariant attempt > 0 ==> 2 * slept == attempt * (attempt - 1)
      decreases maxRetries - attempt
    {
      if attempt > 0 {
        slept := slept + attempt;
      }
      if replies(attempt).BuildError? {
        return;
      }
      posts := posts + 1;
      if Accepts(replies(attempt)) {
        delivered := true;
        return;
      }
      attempt := attempt + 1;
    }
  }

  // ----- The goroutines -----

  const QUEUE: nat := 1024

  datatype Config = Config(endpoints: seq<Endpoint>, maxRetries: int)

  /** One HTTP request: the position of its event among the dispatched ones, its endpoint, its attempt number. */
  datatype Post = Post(n: nat, ep: nat, attempt: nat, accepted: bool)

  datatype Worker =
    | Unstarted
    | Selecting
    | Delivering(n: nat, ep: nat, attempt: nat)
    | Leaving   // took the quit case; the deferred close of done comes next
    | Gone

  datatype Stopper = Storing | Quitting | Awaiting

  /** stopOnce: later callers block until the first call of its function is over. */
  datatype Once = Fresh | Held | Over

  datatype Sys = Sys(
    closed: bool,
    once: Once,
    quits: nat,               // how often the quit channel has been closed
    dones: nat,               // how often the done channel has been closed
    queue: seq<Event>,
    worker: Worker,
    emits: map<nat, Event>,   // Emit calls past the closed check
    stops: map<nat, Stopper>, // Stop calls in progress
    stopped: nat,             // Stop calls that have returned
    accepted: seq<Event>,     // events the queue took
    taken: seq<Event>,        // events the worker took
    posts: seq<Post>)

  datatype Step =
    | Start
    | EmitCheck(t: nat, e: Event)
    | EmitSend(t: nat)
    | StopCall(t: nat)
    | StopStore(t: nat)
    | StopQuit(t: nat)
    | StopReturn(t: nat)
    | TakeQuit
    | TakeEvent(marshalled: bool)
    | Work(reply: Reply)
    | CloseDone

  function Init(): Sys {
    Sys(false, Fresh, 0, 0, [], Unstarted, map[], map[], 0, [], [], [])
  }

  predicate Enabled(h: Sys, step: Step) {
    match step
    case Start => true
    case EmitCheck(t, _) => t !in h.emits
    case EmitSend(t) => t in h.emits
    case StopCall(t) => t !in h.stops && h.once != Held
    case StopStore(t) => t in h.stops && h.stops[t] == Storing
    case StopQuit(t) => t in h.stops && h.stops[t] == Quitting
    case StopReturn(t) => t in h.stops && h.stops[t] == Awaiting && h.dones > 0
    case TakeQuit => h.worker == Selecting && h.quits > 0
    case TakeEvent(_) => h.worker == Selecting && h.queue != []
    case Work(_) => h.worker.Delivering?
    case CloseDone => h.worker == Leaving
  }

  /** One move of the dispatch and deliver loops at event `n`. */
  function Worked(cfg: Config, h: Sys, reply: Reply): Sys
    requires h.worker.Delivering?
  {
    var Delivering(n, ep, attempt) := h.worker;
    if ep >= |cfg.endpoints| then h.(worker := Selecting)
    else if n >= |h.taken| || !Wanted(cfg.endpoints[ep], h.taken[n].kind) || attempt > cfg.maxRetries || reply.BuildError? then
      h.(worker := Delivering(n, ep + 1, 0))
    else
      h.(posts := h.posts + [Post(n, ep, attempt, Accepts(reply))],
         worker := if Accepts(reply) then Delivering(n, ep + 1, 0) else Delivering(n, ep, attempt + 1))
  }

  function Apply(cfg: Config, h: Sys, step: Step): Sys
    requires Enabled(h, step)
  {
    match step
    case Start => if h.worker == Unstarted then h.(worker := Selecting) else h
    case EmitCheck(t, e) => if h.closed then h else h.(emits := h.emits[t := e])
    case EmitSend(t) =>
      var sent := h.(emits := h.emits - {t});
      if |h.queue| < QUEUE then sent.(queue := h.queue + [h.emits[t]], accepted := h.accepted + [h.emits[t]]) else sent
    case StopCall(t) =>
      if h.once == Fresh then h.(once := Held, stops := h.stops[t := Storing])
      else h.(stops := h.stops[t := Awaiting])
    case StopStore(t) => h.(closed := true, stops := h.stops[t := Quitting])
    case StopQuit(t) => h.(quits := h.quits + 1, once := Over, stops := h.stops[t := Awaiting])
    case StopReturn(t) => h.(stops := h.stops - {t}, stopped := h.stopped + 1)
    case TakeQuit => h.(worker := Leaving)
    case TakeEvent(marshalled) =>
      h.(queue := h.queue[1..], taken := h.taken + [h.queue[0]],
         worker := if marshalled then Delivering(|h.taken|, 0, 0) else Selecting)
    case Work(reply) => Worked(cfg, h, reply)
    case CloseDone => h.(worker := Gone, dones := h.dones + 1)
  }

  function Do(cfg: Config, h: Sys, step: Step): Sys {
    if Enabled(h, step) then Apply(cfg, h, step) else h
  }

  function After(cfg: Config, h: Sys, schedule: seq<Step>): Sys {
    if schedule == [] then h else Do(cfg, After(cfg, h, schedule[..|schedule| - 1]), schedule[|schedule| - 1])
  }

  // ----- The invariant -----

  predicate Fifo(h: Sys) {
    h.taken + h.queue == h.accepted && |h.queue| <= QUEUE
  }

  /** Whoever is inside stopOnce is alone there, and both channels are closed at most once. */
  predicate Once1(h: Sys) {
    && (h.once == Fresh ==> h.quits == 0 && !h.closed && h.stops == map[])
    && (h.once == Held ==> h.quits == 0)
    && (h.once == Over ==> h.quits == 1 && h.closed)
    && (forall t :: t in h.stops && h.stops[t] != Awaiting ==> h.once == Held)
    && (forall t :: t in h.stops && h.stops[t] == Quitting ==> h.closed)
    && (forall t, u :: t in h.stops && u in h.stops && h.stops[t] != Awaiting && h.stops[u] != Awaiting ==> t == u)
  }

  /** While stopOnce is held, some call is inside its function. */
  predicate Holder(h: Sys) {
    h.once == Held ==> exists t :: t in h.stops && h.stops[t] != Awaiting
  }

  predicate Ended(h: Sys) {
    && h.dones == (if h.worker == Gone then 1 else 0)
    && (h.worker == Leaving || h.worker == Gone ==> h.quits == 1)
    && (h.stopped > 0 ==> h.worker == Gone)
  }

  predicate Earlier(p: Post, q: Post) {
    p.n < q.n || (p.n == q.n && (p.ep < q.ep || (p.ep == q.ep && p.attempt < q.attempt && !p.accepted)))
  }

  predicate Sound(cfg: Config, h: Sys, p: Post) {
    && p.n < |h.taken| && p.ep < |cfg.endpoints| && p.attempt < Attempts(cfg.maxRetries)
    && Wanted(cfg.endpoints[p.ep], h.taken[p.n].kind)
  }

  /** The requests sent are in order of event, endpoint and attempt, and none follows an accepted one. */
  predicate Ordered(cfg: Config, h: Sys) {
    && (forall i :: 0 <= i < |h.posts| ==> Sound(cfg, h, h.posts[i]))
    && (forall i, j :: 0 <= i < j < |h.posts| ==> Earlier(h.posts[i], h.posts[j]))
    && (h.worker.Delivering? ==>
          && h.worker.n == |h.taken| - 1 && h.worker.attempt <= Attempts(cfg.maxRetries)
          && forall i :: 0 <= i < |h.posts| ==>
               Earlier(h.posts[i], Post(h.worker.n, h.worker.ep, h.worker.attempt, false)))
  }

  predicate Inv(cfg: Config, h: Sys) {
    Fifo(h) && Once1(h) && Holder(h) && Ended(h) && Ordered(cfg, h)
  }

  lemma {:induction false} FifoKept(cfg: Config, h: Sys, step: Step)
    requires Fifo(h)
    ensures Fifo(Do(cfg, h, step))
  {
    if Enabled(h, step) && step.TakeEvent? {
      assert h.queue == [h.queue[0]] + h.queue[1..];
    }
  }

  lemma {:induction false} Once1Kept(cfg: Config, h: Sys, step: Step)
    requires Once1(h)
    ensures Once1(Do(cfg, h, step))
  {
  }

  lemma {:induction false} HolderKept(cfg: Config, h: Sys, step: Step)
    requires Holder(h)
    ensures Holder(Do(cfg, h, step))
  {
    var k := Do(cfg, h, step);
    if k.once == Held && h.once == Held {
      var t :| t in h.stops && h.stops[t] != Awaiting;
      assert t in k.stops && k.stops[t] != Awaiting;
    } else if k.once == Held {
      assert step.t in k.stops && k.stops[step.t] == Storing;
    }
  }

  lemma {:induction false} EndedKept(cfg: Config, h: Sys, step: Step)
    requires Once1(h) && Ended(h)
    ensures Ended(Do(cfg, h, step))
  {
  }

  lemma {:induction false} OrderedKeptByWork(cfg: Config, h: Sys, reply: Reply)
    requires Ordered(cfg, h) && h.worker.Delivering?
    ensures Ordered(cfg, Worked(cfg, h, reply))
  {
  }

  lemma {:induction false} OrderedKept(cfg: Config, h: Sys, step: Step)
    requires Ordered(cfg, h)
    ensures Ordered(cfg, Do(cfg, h, step))
  {
    if Enabled(h, step) && step.Work? {
      OrderedKeptByWork(cfg, h, step.reply);
    }
  }

  lemma {:induction false} StepInv(cfg: Config, h: Sys, step: Step)
    requires Inv(cfg, h)
    ensures Inv(cfg, Do(cfg, h, step))
  {
    FifoKept(cfg, h, step);
    Once1Kept(cfg, h, step);
    HolderKept(cfg, h, step);
    EndedKept(cfg, h, step);
    OrderedKept(cfg, h, step);
  }

  lemma {:induction false} RunInv(cfg: Config, h: Sys, schedule: seq<Step>)
    requires Inv(cfg, h)
    ensures Inv(cfg, After(cfg, h, schedule))
  {
    if schedule != [] {
      var front := schedule[..|schedule| - 1];
      RunInv(cfg, h, front);
      StepInv(cfg, After(cfg, h, front), schedule[|schedule| - 1]);
    }
  }
}
