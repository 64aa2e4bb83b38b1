/** What the dispatcher promises on every interleaving of Emit, Start, Stop and its worker. */
module WebhookRuns {
  import opened Webhooks

  /** The state some schedule leads to from a new dispatcher. */
  function State(cfg: Config, schedule: seq<Step>): Sys {
    After(cfg, Init(), schedule)
  }

  /** Neither channel is closed twice, which would panic. */
  lemma {:induction false} ClosedAtMostOnce(cfg: Config, schedule: seq<Step>)
    ensures State(cfg, schedule).quits <= 1 && State(cfg, schedule).dones <= 1
  {
    RunInv(cfg, Init(), schedule);
  }

  /** The worker takes the accepted events in order and each at most once; a full queue bounds the rest. */
  lemma {:induction false} TakenIsPrefix(cfg: Config, schedule: seq<Step>)
    ensures State(cfg, schedule).taken <= State(cfg, schedule).accepted
    ensures |State(cfg, schedule).accepted| - |State(cfg, schedule).taken| <= QUEUE
  {
    RunInv(cfg, Init(), schedule);
  }

  function Count(posts: seq<Post>, n: nat, ep: nat): nat {
    if posts == [] then 0
    else
      var last := posts[|posts| - 1];
      Count(posts[..|posts| - 1], n, ep) + if last.n == n && last.ep == ep then 1 else 0
  }

  lemma {:induction false} CountBelow(posts: seq<Post>, n: nat, ep: nat, bound: nat)
    requires forall i, j :: 0 <= i < j < |posts| ==> Earlier(posts[i], posts[j])
    requires forall i :: 0 <= i < |posts| && posts[i].n == n && posts[i].ep == ep ==> posts[i].attempt < bound
    ensures Count(posts, n, ep) <= bound
  {
    if posts != [] {
      var last := posts[|posts| - 1];
      var mine := last.n == n && last.ep == ep;
      CountBelow(posts[..|posts| - 1], n, ep, if mine then last.attempt else bound);
    }
  }

  function Replies(replies: nat -> Reply, k: nat): (steps: seq<Step>)
    ensures |steps| == k
  {
    if k == 0 then [] else Replies(replies, k - 1) + [Work(replies(k - 1))]
  }

  /** The worker is at an endpoint that wants its event, before its attempt number `attempt`. */
  predicate AtEndpoint(cfg: Config, h: Sys, n: nat, ep: nat, attempt: nat) {
    && h.worker == Delivering(n, ep, attempt) && n < |h.taken| && ep < |cfg.endpoints|
    && Wanted(cfg.endpoints[ep], h.taken[n].kind)
  }

  lemma {:induction false} FailedRound(cfg: Config, h: Sys, n: nat, ep: nat, attempt: nat, reply: Reply)
    requires AtEndpoint(cfg, h, n, ep, attempt) && attempt < Attempts(cfg.maxRetries)
    requires !reply.BuildError? && !Accepts(reply)
    ensures AtEndpoint(cfg, Worked(cfg, h, reply), n, ep, attempt + 1)
    ensures Worked(cfg, h, reply).posts == h.posts + [Post(n, ep, attempt, false)]
  {
  }

  /** The worker's steps at one endpoint are the rounds of Deliver: after k failed posts it is at attempt k. */
  lemma {:induction false} WorkIsDeliver(cfg: Config, h: Sys, n: nat, ep: nat, replies: nat -> Reply, k: nat)
    requires AtEndpoint(cfg, h, n, ep, 0) && k <= Attempts(cfg.maxRetries)
    requires forall i: nat :: i < k ==> !replies(i).BuildError? && !Accepts(replies(i))
    ensures AtEndpoint(cfg, After(cfg, h, Replies(replies, k)), n, ep, k)
    ensures |After(cfg, h, Replies(replies, k)).posts| == |h.posts| + k
  {
    if k > 0 {
      assert Replies(replies, k)[..k - 1] == Replies(replies, k - 1);
      WorkIsDeliver(cfg, h, n, ep, replies, k - 1);
      FailedRound(cfg, After(cfg, h, Replies(replies, k - 1)), n, ep, k - 1, replies(k - 1));
    }
  }

  /** It leaves the endpoint where Deliver returns: on a 2xx answer, a build error, or the last attempt. */
  lemma {:induction false} EndpointIsLeft(cfg: Config, h: Sys, n: nat, ep: nat, attempt: nat, reply: Reply)
    requires AtEndpoint(cfg, h, n, ep, attempt)
    ensures Worked(cfg, h, reply).worker == Delivering(n, ep + 1, 0)
            <==> attempt > cfg.maxRetries || reply == BuildError || (reply.Status? && 200 <= reply.code <= 299)
    ensures Worked(cfg, h, reply).posts ==
              h.posts + if attempt > cfg.maxRetries || reply == BuildError then []
                        else [Post(n, ep, attempt, reply.Status? && 200 <= reply.code <= 299)]
  {
  }

  // ----- What Emit accepts is sent -----

  /** Exactly when an Emit that nothing interrupts is accepted: before the closed flag, and with room in the queue. */
  lemma {:induction false} EmitExact(cfg: Config, h: Sys, t: nat, e: Event)
    requires t !in h.emits
    ensures var k := Do(cfg, Do(cfg, h, EmitCheck(t, e)), EmitSend(t));
      if !h.closed && |h.queue| < 1024 then k == h.(queue := h.queue + [e], accepted := h.accepted + [e])
      else k == h
  {
    if !h.closed {
      assert h.emits[t := e] - {t} == h.emits;
    }
  }

  /** An Emit past its check is decided by the room there is when it sends. */
  lemma {:induction false} SendExact(cfg: Config, h: Sys, t: nat)
    requires t in h.emits
    ensures var k := Do(cfg, h, EmitSend(t));
      && k.emits == h.emits - {t}
      && k.queue == h.queue + (if |h.queue| < 1024 then [h.emits[t]] else [])
      && k.accepted == h.accepted + (if |h.queue| < 1024 then [h.emits[t]] else [])
      && k == h.(emits := k.emits, queue := k.queue, accepted := k.accepted)
  {
  }

  /** The first requests for an event, to every endpoint from ep on that takes its type, in order. */
  function FirstPosts(cfg: Config, n: nat, kind: string, ep: nat): seq<Post>
    decreases |cfg.endpoints| - ep
  {
    if ep >= |cfg.endpoints| then []
    else (if cfg.endpoints[ep].events == [] || kind in cfg.endpoints[ep].events then [Post(n, ep, 0, true)] else [])
         + FirstPosts(cfg, n, kind, ep + 1)
  }

  function OneEach(reply: Reply, k: nat): seq<Step> {
    if k == 0 then [] else [Work(reply)] + OneEach(reply, k - 1)
  }

  lemma {:induction false} AcceptedStep(cfg: Config, h: Sys, n: nat, ep: nat, code: int)
    requires h.worker == Delivering(n, ep, 0) && n < |h.taken| && ep < |cfg.endpoints| && cfg.maxRetries >= 0 && 200 <= code <= 299
    ensures var wanted := cfg.endpoints[ep].events == [] || h.taken[n].kind in cfg.endpoints[ep].events;
      Do(cfg, h, Work(Status(code))) ==
        h.(worker := Delivering(n, ep + 1, 0), posts := h.posts + if wanted then [Post(n, ep, 0, true)] else [])
  {
  }

  lemma {:induction false} NothingLeft(cfg: Config, h: Sys, code: int)
    requires h.worker.Delivering? && h.worker.ep == |cfg.endpoints|
    ensures After(cfg, h, OneEach(Status(code), 1)) == h.(worker := Selecting)
  {
    StepFirst(cfg, h, Work(Status(code)), []);
    assert OneEach(Status(code), 0) == [];
  }

  lemma {:induction false} FirstPostsUnfold(cfg: Config, n: nat, kind: string, ep: nat, posts: seq<Post>)
    requires ep <= |cfg.endpoints|
    ensures ep == |cfg.endpoints| ==> posts + FirstPosts(cfg, n, kind, ep) == posts
    ensures ep < |cfg.endpoints| ==>
              var wanted := cfg.endpoints[ep].events == [] || kind in cfg.endpoints[ep].events;
              posts + FirstPosts(cfg, n, kind, ep)
              == posts + (if wanted then [Post(n, ep, 0, true)] else []) + FirstPosts(cfg, n, kind, ep + 1)
  {
  }

  lemma {:induction false} RestIsSent(cfg: Config, h: Sys, n: nat, ep: nat, code: int)
    requires h.worker == Delivering(n, ep, 0) && n < |h.taken| && ep <= |cfg.endpoints| && cfg.maxRetries >= 0 && 200 <= code <= 299
    ensures var k := After(cfg, h, OneEach(Status(code), |cfg.endpoints| - ep + 1));
      k == h.(worker := Selecting, posts := h.posts + FirstPosts(cfg, n, h.taken[n].kind, ep))
    decreases |cfg.endpoints| - ep
  {
    hide Apply, Enabled, Do, After, FirstPosts;
    var left := |cfg.endpoints| - ep;
    FirstPostsUnfold(cfg, n, h.taken[n].kind, ep, h.posts);
    if left == 0 {
      NothingLeft(cfg, h, code);
    } else {
      AcceptedStep(cfg, h, n, ep, code);
      StepFirst(cfg, h, Work(Status(code)), OneEach(Status(code), left));
      RestIsSent(cfg, Do(cfg, h, Work(Status(code))), n, ep + 1, code);
    }
  }

  /** An event that cannot be marshalled is dropped, and the worker goes on. */
  lemma {:induction false} UnmarshalledIsDropped(cfg: Config, h: Sys)
    requires h.worker == Selecting && h.queue != []
    ensures Do(cfg, h, TakeEvent(false)) == h.(queue := h.queue[1..], taken := h.taken + [h.queue[0]])
  {
  }

  /** While the endpoints accept, a taken event goes out once to each endpoint that wants its type, in their order. */
  lemma {:induction false} EventIsSent(cfg: Config, h: Sys, code: int)
    requires h.worker == Selecting && h.queue != [] && cfg.maxRetries >= 0 && 200 <= code <= 299
    ensures var k := After(cfg, Do(cfg, h, TakeEvent(true)), OneEach(Status(code), |cfg.endpoints| + 1));
      && k.worker == Selecting && k.queue == h.queue[1..] && k.taken == h.taken + [h.queue[0]]
      && k.posts == h.posts + FirstPosts(cfg, |h.taken|, h.queue[0].kind, 0)
  {
    RestIsSent(cfg, Do(cfg, h, TakeEvent(true)), |h.taken|, 0, code);
  }

  /** Per dispatched event and endpoint: at most maxRetries + 1 requests, and none unless the endpoint wants it. */
  lemma {:induction false} AttemptsBounded(cfg: Config, schedule: seq<Step>, n: nat, ep: nat)
    ensures Count(State(cfg, schedule).posts, n, ep) <= Attempts(cfg.maxRetries)
    ensures Count(State(cfg, schedule).posts, n, ep) > 0 ==>
              && n < |State(cfg, schedule).taken| && ep < |cfg.endpoints|
              && Wanted(cfg.endpoints[ep], State(cfg, schedule).taken[n].kind)
  {
    RunInv(cfg, Init(), schedule);
    CountBelow(State(cfg, schedule).posts, n, ep, Attempts(cfg.maxRetries));
    CountedIsThere(State(cfg, schedule).posts, n, ep);
  }

  lemma {:induction false} CountedIsThere(posts: seq<Post>, n: nat, ep: nat)
    ensures Count(posts, n, ep) > 0 ==> exists i :: 0 <= i < |posts| && posts[i].n == n && posts[i].ep == ep
  {
    if posts != [] {
      CountedIsThere(posts[..|posts| - 1], n, ep);
    }
  }

  /** Requests go out in the order of the accepted events, and an accepted delivery is never repeated. */
  lemma {:induction false} AcceptedIsLast(cfg: Config, schedule: seq<Step>, i: nat, j: nat)
    requires i < j < |State(cfg, schedule).posts|
    ensures var posts := State(cfg, schedule).posts;
            && posts[i].n <= posts[j].n
            && (posts[i].accepted ==> posts[i].n != posts[j].n || posts[i].ep != posts[j].ep)
  {
    RunInv(cfg, Init(), schedule);
  }

  lemma {:induction false} GoneIsForever(cfg: Config, h: Sys, more: seq<Step>)
    requires h.worker == Gone
    ensures After(cfg, h, more).worker == Gone
    ensures After(cfg, h, more).taken == h.taken && After(cfg, h, more).posts == h.posts
  {
    if more != [] {
      GoneIsForever(cfg, h, more[..|more| - 1]);
    }
  }

  /** Once any Stop has returned, nothing is dispatched or sent any more, whatever happens next. */
  lemma {:induction false} NothingAfterStop(cfg: Config, schedule: seq<Step>, more: seq<Step>)
    requires State(cfg, schedule).stopped > 0
    ensures var h, later := State(cfg, schedule), After(cfg, State(cfg, schedule), more);
            later.taken == h.taken && later.posts == h.posts
  {
    RunInv(cfg, Init(), schedule);
    GoneIsForever(cfg, State(cfg, schedule), more);
  }

  /** Emit calls already past the closed check when Stop stores the flag are the only late arrivals. */
  lemma {:induction false} LateEmits(cfg: Config, h: Sys, more: seq<Step>)
    requires h.closed
    ensures After(cfg, h, more).closed && After(cfg, h, more).emits.Keys <= h.emits.Keys
    ensures |After(cfg, h, more).accepted| + |After(cfg, h, more).emits| <= |h.accepted| + |h.emits|
  {
    if more != [] {
      var last := After(cfg, h, more[..|more| - 1]);
      var step := more[|more| - 1];
      LateEmits(cfg, h, more[..|more| - 1]);
      if Enabled(last, step) && step.EmitSend? {
        assert (last.emits - {step.t}).Keys == last.emits.Keys - {step.t};
        assert |last.emits - {step.t}| == |last.emits.Keys| - 1;
      }
    }
  }

  /** Stop on a dispatcher that is never started blocks: no schedule without Start lets a Stop return. */
  lemma {:induction false} StopNeedsStart(cfg: Config, schedule: seq<Step>)
    requires Start !in schedule
    ensures State(cfg, schedule).worker == Unstarted && State(cfg, schedule).stopped == 0
  {
    if schedule != [] {
      StopNeedsStart(cfg, schedule[..|schedule| - 1]);
      RunInv(cfg, Init(), schedule[..|schedule| - 1]);
      assert schedule[|schedule| - 1] in schedule;
    }
  }

  /** Work steps that take a worker at an endpoint back to its select, whatever the replies are, at most. */
  function Rounds(cfg: Config, ep: nat, attempt: nat): int {
    if ep >= |cfg.endpoints| then 1
    else (|cfg.endpoints| - ep) * (Attempts(cfg.maxRetries) + 1) - attempt + 1
  }

  lemma {:induction false} RoundsOf(cfg: Config, ep: nat, attempt: nat)
    requires attempt <= Attempts(cfg.maxRetries)
    ensures Rounds(cfg, ep, attempt) >= 1
    ensures ep < |cfg.endpoints| ==> Rounds(cfg, ep + 1, 0) < Rounds(cfg, ep, attempt)
    ensures ep < |cfg.endpoints| ==> Rounds(cfg, ep, attempt + 1) < Rounds(cfg, ep, attempt)
  {
    var n, a := |cfg.endpoints|, Attempts(cfg.maxRetries) + 1;
    if ep < n {
      assert (n - ep) * a == (n - (ep + 1)) * a + a;
      assert (n - (ep + 1)) * a >= 0;
    }
  }

  lemma {:induction false} WorkMoves(cfg: Config, h: Sys, reply: Reply)
    requires h.worker.Delivering?
    ensures var ep, attempt := h.worker.ep, h.worker.attempt;
            var k := Worked(cfg, h, reply);
            && k.quits == h.quits
            && (if ep >= |cfg.endpoints| then k.worker == Selecting
                else k.worker == Delivering(h.worker.n, ep + 1, 0) || k.worker == Delivering(h.worker.n, ep, attempt + 1))
  {
  }

  lemma {:induction false} RoundsDecrease(cfg: Config, h: Sys, reply: Reply)
    requires h.worker.Delivering? && h.worker.attempt <= Attempts(cfg.maxRetries)
    ensures Rounds(cfg, h.worker.ep, h.worker.attempt) >= 1
    ensures var k := Worked(cfg, h, reply);
            k.quits == h.quits
            && (k.worker == Selecting
                || (k.worker.Delivering? && Rounds(cfg, k.worker.ep, k.worker.attempt) < Rounds(cfg, h.worker.ep, h.worker.attempt)))
  {
    WorkMoves(cfg, h, reply);
    RoundsOf(cfg, h.worker.ep, h.worker.attempt);
  }

  /** The bound for a whole event. */
  function MostRounds(cfg: Config): nat {
    |cfg.endpoints| * (Attempts(cfg.maxRetries) + 1) + 1
  }

  lemma {:induction false} RoundsBounded(cfg: Config, ep: nat, attempt: nat)
    ensures Rounds(cfg, ep, attempt) <= MostRounds(cfg)
  {
    var n, a := |cfg.endpoints|, Attempts(cfg.maxRetries) + 1;
    if ep < n {
      assert (n - ep) * a == n * a - ep * a;
    }
  }

  lemma {:induction false} StepFirst(cfg: Config, h: Sys, step: Step, more: seq<Step>)
    ensures After(cfg, h, [step] + more) == After(cfg, Do(cfg, h, step), more)
  {
    if more == [] {
      assert ([step] + more)[..0] == [];
    } else {
      assert ([step] + more)[..|more|] == [step] + more[..|more| - 1];
      StepFirst(cfg, h, step, more[..|more| - 1]);
    }
  }

  /** Work steps under replies from position `from` on. */
  function WorkOn(replies: nat -> Reply, from: nat, m: nat): seq<Step>
    decreases m
  {
    if m == 0 then [] else [Work(replies(from))] + WorkOn(replies, from + 1, m - 1)
  }

  predicate Bounded(cfg: Config, h: Sys) {
    h.worker.Delivering? ==> h.worker.attempt <= Attempts(cfg.maxRetries)
  }

  lemma {:induction false} InvBounded(cfg: Config, h: Sys)
    requires Inv(cfg, h)
    ensures Bounded(cfg, h)
  {
  }

  /** The worker delivers, and is back at its select within `left` of its steps. */
  predicate Within(cfg: Config, h: Sys, left: nat) {
    h.worker.Delivering? && Rounds(cfg, h.worker.ep, h.worker.attempt) <= left
  }

  lemma {:induction false} OneWork(cfg: Config, h: Sys, reply: Reply, left: nat) returns (k: Sys)
    requires Inv(cfg, h) && Within(cfg, h, left)
    ensures k == Do(cfg, h, Work(reply)) && Inv(cfg, k) && left > 0
    ensures k.worker == Selecting || Within(cfg, k, left - 1)
  {
    k := Do(cfg, h, Work(reply));
    InvBounded(cfg, h);
    StepInv(cfg, h, Work(reply));
    RoundsDecrease(cfg, h, reply);
  }

  /** Under any replies the worker is back at its select after a bounded number of steps. */
  lemma {:induction false} WorkEnds(cfg: Config, h: Sys, replies: nat -> Reply, from: nat, left: nat) returns (m: nat)
    requires Inv(cfg, h) && (h.worker == Selecting || Within(cfg, h, left))
    ensures m <= left && After(cfg, h, WorkOn(replies, from, m)).worker == Selecting
    decreases left
  {
    m := 0;
    if h.worker != Selecting {
      var k := OneWork(cfg, h, replies(from), left);
      var rest := WorkEnds(cfg, k, replies, from + 1, left - 1);
      WorkOnFirst(cfg, h, replies, from, rest);
      m := rest + 1;
    }
  }

  lemma {:induction false} WorkOnFirst(cfg: Config, h: Sys, replies: nat -> Reply, from: nat, rest: nat)
    ensures After(cfg, h, WorkOn(replies, from, rest + 1))
         == After(cfg, Do(cfg, h, Work(replies(from))), WorkOn(replies, from + 1, rest))
    ensures After(cfg, h, WorkOn(replies, from, 0)) == h
  {
    StepFirst(cfg, h, Work(replies(from)), WorkOn(replies, from + 1, rest));
  }

  lemma {:induction false} QuitsStay(cfg: Config, h: Sys, more: seq<Step>)
    ensures After(cfg, h, more).quits >= h.quits
  {
    if more != [] {
      QuitsStay(cfg, h, more[..|more| - 1]);
    }
  }

  /**
  Stop does not deadlock: once quit is closed, whatever the endpoints answer, a started worker is gone after a
  bounded number of its own steps, provided its select takes the quit case then.
  */
  lemma {:induction false} StopCanReturn(cfg: Config, h: Sys, replies: nat -> Reply) returns (m: nat)
    requires Inv(cfg, h) && h.quits > 0 && h.worker != Unstarted
    ensures m <= MostRounds(cfg)
    ensures var k := After(cfg, h, WorkOn(replies, 0, m));
            var end := Do(cfg, Do(cfg, k, TakeQuit), CloseDone);
            end.worker == Gone && end.dones == 1
  {
    m := 0;
    if h.worker.Delivering? {
      RoundsBounded(cfg, h.worker.ep, h.worker.attempt);
      m := WorkEnds(cfg, h, replies, 0, MostRounds(cfg));
    }
    var k := After(cfg, h, WorkOn(replies, 0, m));
    RunInv(cfg, h, WorkOn(replies, 0, m));
    QuitsStay(cfg, h, WorkOn(replies, 0, m));
    StepInv(cfg, k, TakeQuit);
    StepInv(cfg, Do(cfg, k, TakeQuit), CloseDone);
  }

  // ----- Start and Stop go through -----

  /** Start launches the worker once and does nothing else. */
  lemma {:induction false} StartLaunches(cfg: Config, h: Sys)
    ensures Do(cfg, h, Start) == h.(worker := if h.worker == Unstarted then Selecting else h.worker)
  {
  }

  /** A Stop call enters the once, waits for the worker if the once is over, and cannot pass while it is held. */
  lemma {:induction false} StopCallExact(cfg: Config, h: Sys, t: nat)
    requires t !in h.stops
    ensures Do(cfg, h, StopCall(t)) ==
      match h.once
      case Fresh => h.(once := Held, stops := h.stops[t := Storing])
      case Held => h
      case Over => h.(stops := h.stops[t := Awaiting])
  {
  }

  /** The function of the once, run to its end. */
  lemma {:induction false} OnceRuns(cfg: Config, h: Sys, t: nat)
    requires t in h.stops && h.stops[t] != Awaiting
    ensures var k := Do(cfg, Do(cfg, h, StopStore(t)), StopQuit(t));
      && k.once == Over && k.quits == h.quits + 1 && k.stops == h.stops[t := Awaiting]
      && k.worker == h.worker && k.stopped == h.stopped && (h.stops[t] == Storing ==> k.closed)
  {
  }

  /** A worker that is through with its event takes the quit case, and a waiting Stop returns. */
  lemma {:induction false} WaiterReturns(cfg: Config, h: Sys, t: nat)
    requires Inv(cfg, h) && h.quits > 0 && t in h.stops && h.stops[t] == Awaiting
    requires h.worker == Selecting || h.worker == Leaving || h.worker == Gone
    ensures var k := Do(cfg, Do(cfg, Do(cfg, h, TakeQuit), CloseDone), StopReturn(t));
      k.stopped == h.stopped + 1 && k.stops == h.stops - {t} && k.worker == Gone && k.closed == h.closed && k.dones == 1
  {
  }

  /** Worker steps leave the Stop calls alone. */
  lemma {:induction false} WorkKeepsStops(cfg: Config, h: Sys, replies: nat -> Reply, from: nat, m: nat)
    ensures var k := After(cfg, h, WorkOn(replies, from, m));
      k.stops == h.stops && k.stopped == h.stopped && k.closed == h.closed && k.quits == h.quits
    decreases m
  {
    if m > 0 {
      WorkOnFirst(cfg, h, replies, from, m - 1);
      WorkKeepsStops(cfg, Do(cfg, h, Work(replies(from))), replies, from + 1, m - 1);
    }
  }

  /** The schedule of a Stop call that nobody else is in the way of. */
  function StopSteps(t: nat, replies: nat -> Reply, m: nat): seq<Step> {
    [StopCall(t)] + ([StopStore(t)] + ([StopQuit(t)] + WorkOn(replies, 0, m)))
  }

  lemma {:induction false} CalledStop(cfg: Config, h: Sys, t: nat)
    requires Inv(cfg, h) && h.once != Held && t !in h.stops
    ensures var k := Do(cfg, Do(cfg, Do(cfg, h, StopCall(t)), StopStore(t)), StopQuit(t));
      && k.stops == h.stops[t := Awaiting] && k.quits == 1 && k.closed && k.stopped == h.stopped && k.worker == h.worker
  {
    StopCallExact(cfg, h, t);
    var c := Do(cfg, h, StopCall(t));
    if h.once == Fresh {
      OnceRuns(cfg, c, t);
      assert c.stops[t := Awaiting] == h.stops[t := Awaiting];
    }
  }

  /** On a started dispatcher every Stop call returns, whatever the endpoints answer: closed, and with the worker gone. */
  lemma {:induction false} StopReturns(cfg: Config, h: Sys, t: nat, replies: nat -> Reply) returns (m: nat)
    requires Inv(cfg, h) && h.worker != Unstarted && h.once != Held && t !in h.stops
    ensures m <= MostRounds(cfg)
    ensures var w := After(cfg, h, StopSteps(t, replies, m));
      var k := Do(cfg, Do(cfg, Do(cfg, w, TakeQuit), CloseDone), StopReturn(t));
      k.stopped == h.stopped + 1 && k.stops == h.stops && k.closed && k.worker == Gone && k.dones == 1
  {
    hide After, Apply, Enabled, Do, Fifo, Once1, Holder, Ended, Ordered;
    var a := Do(cfg, h, StopCall(t));
    var b := Do(cfg, a, StopStore(t));
    var c := Do(cfg, b, StopQuit(t));
    CalledStop(cfg, h, t);
    StepInv(cfg, h, StopCall(t));
    StepInv(cfg, a, StopStore(t));
    StepInv(cfg, b, StopQuit(t));
    m := 0;
    if c.worker.Delivering? {
      InvBounded(cfg, c);
      RoundsBounded(cfg, c.worker.ep, c.worker.attempt);
      m := WorkEnds(cfg, c, replies, 0, MostRounds(cfg));
    }
    var rest := WorkOn(replies, 0, m);
    WorkOnFirst(cfg, c, replies, 0, 0);
    StepFirst(cfg, b, StopQuit(t), rest);
    StepFirst(cfg, a, StopStore(t), [StopQuit(t)] + rest);
    StepFirst(cfg, h, StopCall(t), [StopStore(t)] + ([StopQuit(t)] + rest));
    WorkKeepsStops(cfg, c, replies, 0, m);
    RunInv(cfg, c, rest);
    var w := After(cfg, c, rest);
    WaiterReturns(cfg, w, t);
    assert h.stops[t := Awaiting] - {t} == h.stops;
  }

  /** While another call is inside the once, that call can finish first: from any state the once can be over. */
  lemma {:induction false} OnceCanFinish(cfg: Config, h: Sys) returns (more: seq<Step>)
    requires Inv(cfg, h) && h.once == Held
    ensures var k := After(cfg, h, more); k.once == Over && k.closed && k.quits == 1 && k.worker == h.worker && Inv(cfg, k)
  {
    var t :| t in h.stops && h.stops[t] != Awaiting;
    OnceRuns(cfg, h, t);
    StepInv(cfg, h, StopStore(t));
    StepInv(cfg, Do(cfg, h, StopStore(t)), StopQuit(t));
    more := [StopStore(t)] + ([StopQuit(t)] + []);
    StepFirst(cfg, Do(cfg, h, StopStore(t)), StopQuit(t), []);
    StepFirst(cfg, h, StopStore(t), [StopQuit(t)] + []);
  }
}
