/** Concrete schedules of the hub, for the claims that fail without their conditions. */
module HubWitness {
  import opened Wrappers
  import opened HubProtocol
  import opened HubTheorems

  lemma {:induction false} InitReachable(cfg: Config)
    ensures Reachable(cfg, Init())
  {
    assert After(cfg, Init(), []) == Init();
  }

  lemma {:induction false} Next(cfg: Config, h: Sys, step: Step) returns (k: Sys)
    requires Reachable(cfg, h) && Enabled(h, step)
    ensures k == Apply(cfg, h, step) && Reachable(cfg, k)
  {
    k := Apply(cfg, h, step);
    assert After(cfg, h, [step][..0]) == h;
    ContinueReachable(cfg, h, [step]);
  }

  /** The one subscriber of these schedules: it has read the tip, and `n` events were offered to it. */
  function Reader(buf: seq<nat>, recv: seq<nat>, passed: nat, n: nat, lost: Option<nat>): Sub {
    Sub("", false, 0, buf, 0, 0, n, lost, 0, 0, Some(0), recv, passed)
  }

  function With(sub: Sub, run: RunPc, pc: Pc, lock: Lock, commits: nat, next: nat, log: seq<nat>): Sys {
    Sys(Running, lock, Registry({0}, map["" := 1], map[0 := sub]), run, map[1 := pc], commits, next, log, false, 0)
  }

  lemma {:induction false} AdmittedReachable(cfg: Config) returns (h: Sys)
    ensures Reachable(cfg, h)
    ensures h == Sys(Running, Write(Handler(1)), Registry({}, map[], map[]), Waiting, map[1 := Admitted("")], 0, 0, [], false, 0)
  {
    InitReachable(cfg);
    h := Next(cfg, Init(), ListenOk);
    h := Next(cfg, h, StoreRunning);
    h := Next(cfg, h, SubCheck(1, ""));
    h := Next(cfg, h, SubLock(1));
    h := Next(cfg, h, SubRecheck(1));
    assert map[][1 := Checked("")][1 := Locked("")][1 := Admitted("")] == map[1 := Admitted("")];
  }

  /** A handler has subscribed and read the tip, and nothing has been committed yet. */
  lemma {:induction false} ReaderReachable(cfg: Config) returns (h: Sys)
    ensures Reachable(cfg, h) && h == With(Reader([], [], 0, 0, None), Waiting, Owns(0), Free, 0, 0, [])
  {
    h := AdmittedReachable(cfg);
    h := Next(cfg, h, SubInsert(1, 0));
    h := Next(cfg, h, ReadTip(1));
    assert {} + {0} == {0};
  }

  /** Notification n is committed, received and about to be offered. */
  lemma {:induction false} Announce(cfg: Config, h: Sys, sub: Sub, n: nat, log: seq<nat>) returns (k: Sys)
    requires Reachable(cfg, h) && h == With(sub, Waiting, Owns(0), Free, n, n, log)
    ensures Reachable(cfg, k)
    ensures k == With(sub, Dispatching(n, {0}), Owns(0), Read, n + 1, n + 1, log + [n])
  {
    k := Next(cfg, h, Commit);
    k := Next(cfg, k, Notify(true));
    k := Next(cfg, k, DispatchLock);
  }

  lemma {:induction false} OfferBuffered(cfg: Config, h: Sys) returns (k: Sys)
    requires cfg.bufSize >= 1 && Reachable(cfg, h)
    requires h == With(Reader([], [], 0, 0, None), Dispatching(0, {0}), Owns(0), Read, 1, 1, [0])
    ensures Reachable(cfg, k) && k == With(Reader([0], [], 0, 1, None), Dispatching(0, {}), Owns(0), Read, 1, 1, [0])
  {
    k := Next(cfg, h, Offer(0));
    assert [] + [0] == [0] && {0} - {0} == {};
  }

  lemma {:induction false} OfferedFirst(cfg: Config) returns (h: Sys)
    requires cfg.bufSize >= 1
    ensures Reachable(cfg, h) && h == With(Reader([0], [], 0, 1, None), Waiting, Owns(0), Free, 1, 1, [0])
  {
    h := ReaderReachable(cfg);
    h := Announce(cfg, h, Reader([], [], 0, 0, None), 0, []);
    assert [] + [0] == [0];
    h := OfferBuffered(cfg, h);
    h := Next(cfg, h, DispatchUnlock);
  }

  lemma {:induction false} RecvFirst(cfg: Config, h: Sys) returns (k: Sys)
    requires Reachable(cfg, h) && h == With(Reader([0], [], 0, 1, None), Waiting, Owns(0), Free, 1, 1, [0])
    ensures Reachable(cfg, k) && k == With(Reader([], [0], 0, 1, None), Waiting, Got(0), Free, 1, 1, [0])
  {
    k := Next(cfg, h, Recv(1));
    assert [0][1..] == [] && [] + [0] == [0];
  }

  /** One event let through. */
  lemma {:induction false} FirstPassed(cfg: Config) returns (h: Sys)
    requires cfg.bufSize >= 1
    ensures Reachable(cfg, h) && h == With(Reader([], [0], 1, 1, None), Waiting, Owns(0), Free, 1, 1, [0])
  {
    h := OfferedFirst(cfg);
    h := RecvFirst(cfg, h);
    h := Next(cfg, h, LagCheck(1));
  }

  /** The channel is full, so the second event is lost; its lag is not counted yet. */
  lemma {:induction false} SecondLost(cfg: Config) returns (h: Sys)
    requires cfg.bufSize == 1
    ensures Reachable(cfg, h)
    ensures h == With(Reader([0], [], 0, 1, Some(1)), Counting(1, {}, 0), Owns(0), Read, 2, 2, [0, 1])
  {
    h := OfferedFirst(cfg);
    h := Announce(cfg, h, Reader([0], [], 0, 1, None), 1, [0]);
    assert [0] + [1] == [0, 1];
    h := Next(cfg, h, Offer(0));
    assert {0} - {0} == {};
  }

  /**
  After an event was lost the handler can still let an earlier one through: the counter rises after the send
  has failed, and the handler looks in between.
  */
  lemma {:induction false} EarlierEventStillPasses(cfg: Config) returns (h: Sys, k: Sys)
    requires cfg.bufSize == 1
    ensures Reachable(cfg, h) && 0 in h.reg.objs && h.reg.objs[0].lost == Some(1) && h.reg.objs[0].passed == 0
    ensures k == Do(cfg, Do(cfg, h, Recv(1)), LagCheck(1)) && 0 in k.reg.objs && k.reg.objs[0].passed == 1
  {
    h := SecondLost(cfg);
    k := Next(cfg, h, Recv(1));
    assert k.reg.objs[0].recv == [0] && k.handlers[1] == Got(0) && k.reg.objs[0].lagged == 0;
    k := Next(cfg, k, LagCheck(1));
  }
}
