/**
The hub's methods run to completion on its own fields, and the proof that the protocol's interleaved steps
of dispatch and closeAllSubs add up to them when nothing else runs in between.
*/
module HubObject {
  import opened Wrappers
  import opened HubProtocol

  /** dispatch for a set of subscribers. */
  function DispatchedTo(cfg: Config, objs: map<nat, Sub>, targets: set<nat>, i: nat, n: nat): map<nat, Sub>
    requires n > 0
  {
    map s | s in objs :: if s in targets then Offered(cfg, objs[s], i, n) else objs[s]
  }

  function Shut(sub: Sub): Sub {
    if sub.closed then sub else sub.(closed := true, closes := sub.closes + 1)
  }

  /** The loop of closeAllSubs for a set of subscribers. */
  function ShutAll(objs: map<nat, Sub>, targets: set<nat>): map<nat, Sub> {
    map s | s in objs :: if s in targets then Shut(objs[s]) else objs[s]
  }

  datatype Answer = NotRunning | TooManyForSubject | Subscribed(s: nat)

  class Hub {
    const cfg: Config
    var state: HubState
    var subs: set<nat>
    var perSubject: map<string, int>
    var objs: map<nat, Sub>
    var nextId: nat

    ghost predicate Valid() reads this {
      subs <= objs.Keys && forall s | s in objs :: s < nextId
    }

    function Reg(): Registry reads this {
      Registry(subs, perSubject, objs)
    }

    constructor (clientBuf: int, perSubjectMax: int)
      ensures Valid() && state == Pending && Reg() == Init().reg
      ensures cfg.bufSize == (if clientBuf <= 0 then 32 else clientBuf)
      ensures cfg.perSubjectMax == (if perSubjectMax == 0 then 8 else perSubjectMax)
    {
      cfg := Config(if clientBuf <= 0 then 32 else clientBuf, if perSubjectMax == 0 then 8 else perSubjectMax);
      state, subs, perSubject, objs, nextId := Pending, {}, map[], map[], 0;
    }

    /** start, first and born are the new subscriber's history. */
    method Subscribe(subject: string, start: nat, first: nat, born: nat) returns (answer: Answer)
      requires Valid()
      modifies this
      ensures Valid() && state == old(state)
      ensures old(state) != Running ==> answer == NotRunning
      ensures old(state) == Running && AtCap(cfg, old(Reg()), subject) ==> answer == TooManyForSubject
      ensures old(state) == Running && !AtCap(cfg, old(Reg()), subject) ==>
                answer.Subscribed? && answer.s !in old(objs)
                && Reg() == Insert(old(Reg()), answer.s, NewSub(subject, start, first, born))
      ensures !answer.Subscribed? ==> Reg() == old(Reg())
    {
      if state != Running {
        return NotRunning;
      }
      if cfg.perSubjectMax > 0 && subject in perSubject && perSubject[subject] >= cfg.perSubjectMax {
        return TooManyForSubject;
      }
      var s := nextId;
      nextId := nextId + 1;
      objs := objs[s := NewSub(subject, start, first, born)];
      subs := subs + {s};
      perSubject := perSubject[subject := (if subject in perSubject then perSubject[subject] else 0) + 1];
      answer := Subscribed(s);
    }

    method Unsubscribe(s: nat)
      requires Valid() && s in objs
      modifies this
      ensures Valid() && state == old(state) && Reg() == Remove(old(Reg()), s)
    {
      if s !in subs {
        return;
      }
      subs := subs - {s};
      var subject := objs[s].subject;
      var n := (if subject in perSubject then perSubject[subject] else 0) - 1;
      perSubject := perSubject[subject := n];
      if n <= 0 {
        perSubject := perSubject - {subject};
        assert perSubject == old(perSubject) - {subject};
      }
    }

    /** A second Close changes nothing. */
    method Close(s: nat)
      requires Valid() && s in objs
      modifies this
      ensures Valid() && state == old(state) && objs == old(objs)[s := Shut(old(objs[s]))]
      ensures old(objs[s].closed) ==> Reg() == old(Reg())
      ensures !old(objs[s].closed) ==>
                Reg().(objs := old(objs)) == Remove(old(Reg()), s)
    {
      if objs[s].closed {
        assert objs == objs[s := Shut(objs[s])];
        return;
      }
      objs := objs[s := objs[s].(closed := true)];
      Unsubscribe(s);
      objs := objs[s := objs[s].(closes := objs[s].closes + 1)];
    }

    method CloseAllSubs()
      requires Valid()
      modifies this
      ensures Valid() && state == old(state) && Reg() == Clear(old(Reg()).(objs := ShutAll(old(objs), old(subs))))
    {
      var todo := subs;
      while todo != {}
        invariant todo <= subs == old(subs) <= objs.Keys == old(objs).Keys
        invariant nextId == old(nextId) && state == old(state) && perSubject == old(perSubject)
        invariant objs == ShutAll(old(objs), subs - todo)
        decreases todo
      {
        var s :| s in todo;
        if !objs[s].closed {
          objs := objs[s := objs[s].(closed := true)];
          objs := objs[s := objs[s].(closes := objs[s].closes + 1)];
        }
        todo := todo - {s};
      }
      subs, perSubject := {}, map[];
    }

    method DrainAll()
      requires Valid()
      modifies this
      ensures Valid() && state == Stopped && Reg() == Clear(old(Reg()).(objs := ShutAll(old(objs), old(subs))))
    {
      state := Stopped;
      CloseAllSubs();
    }

    /**
    The event is the n-th ever dispatched.  A registered subscriber with fewer than bufSize buffered events gets it;
    any other loses it, counts one lag more and remembers the first position it lost.
    */
    method Dispatch(i: nat, n: nat)
      requires Valid() && n > 0
      modifies this`objs
      ensures Valid() && objs == DispatchedTo(cfg, old(objs), subs, i, n)
      ensures objs.Keys == old(objs).Keys && forall s | s in objs && s !in subs :: objs[s] == old(objs)[s]
      ensures forall s | s in subs && |old(objs)[s].buf| < cfg.bufSize ::
                objs[s] == old(objs)[s].(buf := old(objs)[s].buf + [i], upto := old(objs)[s].upto + 1)
      ensures forall s | s in subs && |old(objs)[s].buf| >= cfg.bufSize ::
                objs[s] == old(objs)[s].(lagged := old(objs)[s].lagged + 1, upto := old(objs)[s].upto + 1,
                                         lost := if old(objs)[s].lost.None? then Some(n - 1) else old(objs)[s].lost)
    {
      var todo := subs;
      while todo != {}
        invariant todo <= subs <= objs.Keys == old(objs).Keys
        invariant objs == DispatchedTo(cfg, old(objs), subs - todo, i, n)
        decreases todo
      {
        var s :| s in todo;
        if |objs[s].buf| < cfg.bufSize {
          objs := objs[s := Buffered(objs[s], i)];
        } else {
          objs := objs[s := Lagged(Missed(objs[s], n - 1))];
        }
        todo := todo - {s};
      }
    }
  }

  function Elements(order: seq<nat>): set<nat> {
    set s | s in order
  }

  predicate Distinct(order: seq<nat>) {
    forall i, j | 0 <= i < j < |order| :: order[i] != order[j]
  }

  /** CountLag does nothing after a send that went through. */
  function Offers(order: seq<nat>): seq<Step> {
    if order == [] then [] else Offers(order[..|order| - 1]) + [Offer(order[|order| - 1]), CountLag]
  }

  lemma {:induction false} LastElement(order: seq<nat>)
    requires order != [] && Distinct(order)
    ensures var n := |order| - 1;
      Distinct(order[..n]) && order[n] !in Elements(order[..n]) && Elements(order) == Elements(order[..n]) + {order[n]}
  {
    var n := |order| - 1;
    assert order == order[..n] + [order[n]];
  }

  lemma {:induction false} OfferOneMore(cfg: Config, objs: map<nat, Sub>, done: set<nat>, s: nat, i: nat, n: nat)
    requires s in objs && s !in done && n > 0
    ensures s in DispatchedTo(cfg, objs, done, i, n)
    ensures DispatchedTo(cfg, objs, done, i, n)[s := Offered(cfg, DispatchedTo(cfg, objs, done, i, n)[s], i, n)]
         == DispatchedTo(cfg, objs, done + {s}, i, n)
  {
  }

  lemma {:induction false} OfferOne(cfg: Config, h: Sys, s: nat)
    requires h.run.Dispatching? && s in h.run.todo && s in h.reg.objs && h.log != []
    ensures var k := Do(cfg, Do(cfg, h, Offer(s)), CountLag);
      && k.run == Dispatching(h.run.i, h.run.todo - {s}) && k.log == h.log
      && k.reg == h.reg.(objs := h.reg.objs[s := Offered(cfg, h.reg.objs[s], h.run.i, |h.log|)])
  {
  }

  /** Whatever the map's iteration order, dispatching to its subscribers one by one is Dispatch. */
  lemma {:induction false} DispatchUninterrupted(cfg: Config, h: Sys, order: seq<nat>)
    requires h.run.Dispatching? && h.run.todo <= h.reg.objs.Keys && h.log != []
    requires Distinct(order) && Elements(order) <= h.run.todo
    ensures var k := After(cfg, h, Offers(order));
      && k.run == Dispatching(h.run.i, h.run.todo - Elements(order)) && k.log == h.log
      && k.reg == h.reg.(objs := DispatchedTo(cfg, h.reg.objs, Elements(order), h.run.i, |h.log|))
  {
    if order == [] {
      assert DispatchedTo(cfg, h.reg.objs, {}, h.run.i, |h.log|) == h.reg.objs;
    } else {
      LastElement(order);
      var front, s := order[..|order| - 1], order[|order| - 1];
      DispatchUninterrupted(cfg, h, front);
      AfterTwo(cfg, h, Offers(front), Offer(s), CountLag);
      OfferOneMore(cfg, h.reg.objs, Elements(front), s, h.run.i, |h.log|);
      OfferOne(cfg, After(cfg, h, Offers(front)), s);
      assert h.run.todo - Elements(front) - {s} == h.run.todo - Elements(order);
    }
  }

  function Sweeps(order: seq<nat>): seq<Step> {
    if order == [] then [] else Sweeps(order[..|order| - 1]) + [CloseAllSwap(order[|order| - 1]), CloseAllChan]
  }

  lemma {:induction false} ShutOneMore(objs: map<nat, Sub>, done: set<nat>, s: nat)
    requires s in objs && s !in done
    ensures s in ShutAll(objs, done)
    ensures ShutAll(objs, done)[s := Shut(ShutAll(objs, done)[s])] == ShutAll(objs, done + {s})
  {
  }

  /** Whatever the map's iteration order, sweeping its subscribers one by one is the loop of CloseAllSubs. */
  lemma {:induction false} CloseAllUninterrupted(cfg: Config, h: Sys, order: seq<nat>)
    requires h.run.ClosingLocked? && h.run.todo <= h.reg.objs.Keys
    requires Distinct(order) && Elements(order) <= h.run.todo
    ensures var k := After(cfg, h, Sweeps(order));
      && k.run == ClosingLocked(h.run.after, h.run.todo - Elements(order))
      && k.reg == h.reg.(objs := ShutAll(h.reg.objs, Elements(order)))
  {
    if order == [] {
      assert ShutAll(h.reg.objs, {}) == h.reg.objs;
    } else {
      LastElement(order);
      var front, s := order[..|order| - 1], order[|order| - 1];
      CloseAllUninterrupted(cfg, h, front);
      AfterTwo(cfg, h, Sweeps(front), CloseAllSwap(s), CloseAllChan);
      ShutOneMore(h.reg.objs, Elements(front), s);
      SweepOne(cfg, After(cfg, h, Sweeps(front)), s);
      assert h.run.todo - Elements(front) - {s} == h.run.todo - Elements(order);
    }
  }

  lemma {:induction false} AfterTwo(cfg: Config, h: Sys, front: seq<Step>, a: Step, b: Step)
    ensures After(cfg, h, front + [a, b]) == Do(cfg, Do(cfg, After(cfg, h, front), a), b)
  {
    assert (front + [a, b])[..|front| + 1] == front + [a];
    assert (front + [a])[..|front|] == front;
  }

  lemma {:induction false} SweepOne(cfg: Config, h: Sys, s: nat)
    requires h.run.ClosingLocked? && s in h.run.todo && s in h.reg.objs
    ensures var k := Do(cfg, Do(cfg, h, CloseAllSwap(s)), CloseAllChan);
      && k.run == ClosingLocked(h.run.after, h.run.todo - {s})
      && k.reg == h.reg.(objs := h.reg.objs[s := Shut(h.reg.objs[s])])
  {
  }
}
