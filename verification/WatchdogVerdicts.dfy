/**
When the watchdog gives each verdict, and when it fails over and back, in terms of what it was answered:
heights, thresholds and the ticks before, not the functions it computes them with.
*/
module WatchdogVerdicts {
  import opened Wrappers
  import opened Watchdog
  import opened WatchdogRuns

  const TWO_63 := 0x8000_0000_0000_0000
  const TWO_64 := 0x1_0000_0000_0000_0000

  /** d is the int64 that the difference x of two heights wraps around to. */
  predicate Wraps(d: int, x: int) {
    -TWO_63 <= d < TWO_63 && (d - x) % TWO_64 == 0
  }

  ghost predicate WrapsAbove(x: int, threshold: int) {
    forall d | Wraps(d, x) :: d > threshold
  }

  /** ahead is more than the threshold above behind, as int64 arithmetic sees it. */
  ghost predicate Exceeds(ahead: nat, behind: nat, threshold: int) {
    WrapsAbove(ahead - behind, threshold)
  }

  /** For heights that fit an int64 that is the plain difference. */
  lemma {:induction false} ExceedsPlain(ahead: nat, behind: nat, threshold: int)
    requires ahead < TWO_63 && behind < TWO_63
    ensures Exceeds(ahead, behind, threshold) <==> ahead - behind > threshold
  {
    assert Wraps(ahead - behind, ahead - behind);
  }

  lemma {:induction false} Congruent(a: int, b: int, x: int)
    requires Wraps(a, x) && Wraps(b, x)
    ensures a == b
  {
    assert ((a - x) - (b - x)) % TWO_64 == 0;
  }

  lemma {:induction false} DriftWraps(ahead: nat, behind: nat)
    ensures Wraps(Drift(ahead, behind), ahead - behind)
  {
  }

  lemma {:induction false} DriftExceeds(ahead: nat, behind: nat, threshold: int)
    ensures Drift(ahead, behind) > threshold <==> Exceeds(ahead, behind, threshold)
  {
    DriftWraps(ahead, behind);
    var x := ahead - behind;
    forall d | Wraps(d, x)
      ensures d == Drift(ahead, behind)
    {
      Congruent(d, Drift(ahead, behind), x);
    }
  }

  // ----- The verdict of a tick -----

  /** The node's probe succeeds: it answers, and its genesis is cached or answered. */
  predicate Probed(genesis: map<nat, string>, idx: nat, raw: RawProbe) {
    raw.Answered? && (idx in genesis || raw.genesis.Some?)
  }

  /** Exactly when a tick gives each verdict. */
  lemma {:induction false} VerdictExact(s: State, a: Answers, cfg: Config)
    requires Valid(s) && |a.probes| == |s.streaks|
    ensures var v, raw := Tick(s, a, cfg).1.verdict, a.probes[s.active];
      && (v.None? <==> a.dbHeight.None?)
      && (v.Some? ==>
            && (v.value == ProbeFailed <==> !Probed(s.genesis, s.active, raw))
            && (v.value != ProbeFailed ==>
                  var nodeBehind := Exceeds(raw.target, raw.frontier, cfg.nodeDriftThreshold);
                  var indexerBehind := Exceeds(raw.frontier, a.dbHeight.value, cfg.indexerDriftThreshold);
                  var stalled := a.idle > cfg.stallThreshold;
                  && (v.value == Stalled <==> stalled && (nodeBehind || !indexerBehind))
                  && (v.value == NodeLagging <==> !stalled && nodeBehind)
                  && (v.value == IndexerLagging <==> !nodeBehind && indexerBehind)
                  && (v.value == Synced <==> !stalled && !nodeBehind && !indexerBehind)))
  {
    var raw := a.probes[s.active];
    if a.dbHeight.Some? && raw.Answered? {
      DriftExceeds(raw.target, raw.frontier, cfg.nodeDriftThreshold);
      DriftExceeds(raw.frontier, a.dbHeight.value, cfg.indexerDriftThreshold);
    }
  }

  // ----- Failing over -----

  function GenesisOf(genesis: map<nat, string>, idx: nat, raw: RawProbe): string
    requires Probed(genesis, idx, raw)
  {
    if idx in genesis then genesis[idx] else raw.genesis.value
  }

  ghost predicate AtHead(raw: RawProbe, cfg: Config)
    requires raw.Answered?
  {
    !Exceeds(raw.target, raw.frontier, cfg.nodeDriftThreshold)
  }

  /** The chain the tick compares with: the recorded one, or the one it records now. */
  function ChainAfter(s: State, a: Answers): string
    requires Valid(s) && |a.probes| == |s.streaks|
  {
    if s.chain == "" && Probed(s.genesis, s.active, a.probes[s.active])
    then GenesisOf(s.genesis, s.active, a.probes[s.active]) else s.chain
  }

  /** The active node does not answer, lags behind the network, or holds nothing new through a whole stall window. */
  ghost predicate BadTick(s: State, a: Answers, cfg: Config)
    requires Valid(s) && |a.probes| == |s.streaks|
  {
    var raw := a.probes[s.active];
    && a.dbHeight.Some?
    && (Probed(s.genesis, s.active, raw) && AtHead(raw, cfg) ==>
          a.idle > cfg.stallThreshold && !Exceeds(raw.frontier, a.dbHeight.value, cfg.indexerDriftThreshold))
  }

  /** A later node that answers at head, on the chain. */
  ghost predicate CanTakeOver(s: State, a: Answers, cfg: Config, j: nat)
    requires Valid(s) && |a.probes| == |s.streaks|
  {
    && s.active < j < |a.probes| && Probed(s.genesis, j, a.probes[j]) && AtHead(a.probes[j], cfg)
    && (ChainAfter(s, a) == "" || GenesisOf(s.genesis, j, a.probes[j]) == ChainAfter(s, a))
  }

  ghost predicate FirstToTakeOver(s: State, a: Answers, cfg: Config, j: nat)
    requires Valid(s) && |a.probes| == |s.streaks|
  {
    CanTakeOver(s, a, cfg, j) && forall i: nat | i < j :: !CanTakeOver(s, a, cfg, i)
  }

  lemma {:induction false} TargetFirst(g: map<nat, string>, idx: nat, probes: seq<RawProbe>, chain: string, cfg: Config, j: nat)
    ensures FailoverTarget(g, idx, probes, chain, cfg).0 == Some(j) <==>
            && idx <= j < |probes| && Acceptable(ProbeNode(g, j, probes[j]), chain, cfg)
            && forall i | idx <= i < j :: !Acceptable(ProbeNode(g, i, probes[i]), chain, cfg)
    decreases |probes| - idx
  {
    if idx < |probes| && !Acceptable(ProbeNode(g, idx, probes[idx]), chain, cfg) {
      var k := ProbeGenesis(g, idx, probes[idx]);
      forall i | idx < i < |probes|
        ensures ProbeNode(k, i, probes[i]) == ProbeNode(g, i, probes[i])
      {
      }
      TargetFirst(k, idx + 1, probes, chain, cfg, j);
    }
  }

  lemma {:induction false} TakesOver(s: State, a: Answers, cfg: Config, i: nat)
    requires Valid(s) && |a.probes| == |s.streaks| && a.dbHeight.Some? && s.active < i < |a.probes|
    ensures var o := Observed(s, a, cfg);
      Acceptable(ProbeNode(o.genesis, i, a.probes[i]), o.chain, cfg) <==> CanTakeOver(s, a, cfg, i)
  {
    var raw := a.probes[i];
    if raw.Answered? {
      DriftExceeds(raw.target, raw.frontier, cfg.nodeDriftThreshold);
    }
  }

  lemma {:induction false} TargetIsFirst(s: State, a: Answers, cfg: Config, j: nat)
    requires Valid(s) && |a.probes| == |s.streaks| && a.dbHeight.Some?
    ensures var o := Observed(s, a, cfg);
      FailoverTarget(o.genesis, o.active + 1, a.probes, o.chain, cfg).0 == Some(j) <==> FirstToTakeOver(s, a, cfg, j)
  {
    var o := Observed(s, a, cfg);
    TargetFirst(o.genesis, o.active + 1, a.probes, o.chain, cfg, j);
    forall i: nat | s.active < i < |a.probes|
      ensures Acceptable(ProbeNode(o.genesis, i, a.probes[i]), o.chain, cfg) <==> CanTakeOver(s, a, cfg, i)
    {
      TakesOver(s, a, cfg, i);
    }
  }

  lemma {:induction false} BadIsBad(s: State, a: Answers, cfg: Config)
    requires Valid(s) && |a.probes| == |s.streaks| && a.dbHeight.Some?
    ensures BadTick(s, a, cfg) <==> Bad(TickClass(s, a, cfg))
  {
    VerdictExact(s, a, cfg);
  }

  /** What a tick does about the active node's streak, and when it fails over, and to which node. */
  lemma {:induction false} FailoverAt(s: State, a: Answers, cfg: Config, j: nat)
    requires Valid(s) && |a.probes| == |s.streaks|
    ensures Tick(s, a, cfg).1.swap == FailedOver(j) <==>
            && BadTick(s, a, cfg) && s.streaks[s.active].unhealthy + 1 >= cfg.unhealthyStreak
            && a.swapOk && FirstToTakeOver(s, a, cfg, j)
  {
    if a.dbHeight.Some? {
      BadIsBad(s, a, cfg);
      TargetIsFirst(s, a, cfg, j);
    }
  }

  /** On every run: exactly when a tick fails over, and to which node. */
  lemma {:induction false} FailoverExact(s: State, answers: seq<Answers>, a: Answers, cfg: Config, j: nat)
    requires Started(s) && Answerable(answers, |s.streaks|) && |a.probes| == |s.streaks|
    ensures var (t, h) := After(s, answers, cfg);
      Tick(t, a, cfg).1.swap == FailedOver(j) <==>
      && BadTick(t, a, cfg) && BadTicks(h) + 1 >= cfg.unhealthyStreak
      && a.swapOk && FirstToTakeOver(t, a, cfg, j)
  {
    StreakIsHistory(s, answers, cfg);
    FailoverAt(After(s, answers, cfg).0, a, cfg, j);
  }

  /** Tick k of `more` is bad, whatever the ones before it did. */
  ghost predicate BadTickAt(t: State, more: seq<Answers>, k: nat, cfg: Config)
    requires Valid(t) && Answerable(more, |t.streaks|) && k < |more|
  {
    BadTick(After(t, more[..k], cfg).0, more[k], cfg)
  }

  lemma {:induction false} BadTickCounts(u: State, a: Answers, cfg: Config)
    requires Valid(u) && |a.probes| == |u.streaks| && BadTick(u, a, cfg)
    ensures var (v, r) := Tick(u, a, cfg);
      r.swap == NoSwap ==> v.active == u.active && v.streaks[v.active].unhealthy == u.streaks[u.active].unhealthy + 1
    ensures u.streaks[u.active].unhealthy + 1 < cfg.unhealthyStreak ==> Tick(u, a, cfg).1.swap == NoSwap
  {
    BadIsBad(u, a, cfg);
  }

  /** Fewer bad ticks than the threshold, and nothing else, do not swap. */
  lemma {:induction false} BadTicksCount(t: State, more: seq<Answers>, cfg: Config)
    requires Valid(t) && Answerable(more, |t.streaks|) && forall k: nat | k < |more| :: BadTickAt(t, more, k, cfg)
    requires t.streaks[t.active].unhealthy + |more| < cfg.unhealthyStreak
    ensures var (u, h) := After(t, more, cfg);
      && u.active == t.active && u.streaks[u.active].unhealthy == t.streaks[t.active].unhealthy + |more|
      && forall k | 0 <= k < |h| :: h[k].swap == NoSwap
  {
    if more != [] {
      var n := |more| - 1;
      FrontIsBad(t, more, n, cfg);
      BadTicksCount(t, more[..n], cfg);
      assert BadTickAt(t, more, n, cfg);
      BadTickCounts(After(t, more[..n], cfg).0, more[n], cfg);
    }
  }

  lemma {:induction false} FrontIsBad(t: State, more: seq<Answers>, n: nat, cfg: Config)
    requires Valid(t) && Answerable(more, |t.streaks|) && n <= |more|
    requires forall k: nat | k < |more| :: BadTickAt(t, more, k, cfg)
    ensures forall k: nat | k < n :: BadTickAt(t, more[..n], k, cfg)
  {
    forall k: nat | k < n
      ensures BadTickAt(t, more[..n], k, cfg)
    {
      assert more[..n][..k] == more[..k] && BadTickAt(t, more, k, cfg);
    }
  }

  /**
  From a point with no bad tick since the last synced one or swap, after as many bad ticks as the threshold says:
  none but the last swaps, and the last fails over to the first later node that can take over if the swap works.
  */
  lemma {:induction false} SustainedFailureFailsOver(s: State, answers: seq<Answers>, more: seq<Answers>, cfg: Config, j: nat)
    requires Started(s) && Answerable(answers, |s.streaks|) && Answerable(more, |s.streaks|)
    requires BadTicks(After(s, answers, cfg).1) == 0 && 1 <= |more| == cfg.unhealthyStreak
    requires forall k: nat | k < |more| :: BadTickAt(After(s, answers, cfg).0, more, k, cfg)
    ensures var t, n := After(s, answers, cfg).0, |more| - 1;
      var u, h := After(t, more[..n], cfg).0, After(t, more, cfg).1;
      && u.active == t.active && (forall k | 0 <= k < n :: h[k].swap == NoSwap)
      && (h[n].swap == FailedOver(j) <==> more[n].swapOk && FirstToTakeOver(u, more[n], cfg, j))
  {
    var t, n := After(s, answers, cfg).0, |more| - 1;
    StreakIsHistory(s, answers, cfg);
    FrontIsBad(t, more, n, cfg);
    BadTicksCount(t, more[..n], cfg);
    assert BadTickAt(t, more, n, cfg);
    FailoverAt(After(t, more[..n], cfg).0, more[n], cfg, j);
  }

  // ----- Failing back -----

  /** An earlier node that answers at head, on the recorded chain. */
  ghost predicate Recovered(s: State, a: Answers, cfg: Config, c: nat)
    requires Valid(s) && |a.probes| == |s.streaks|
  {
    c < s.active && Probed(s.genesis, c, a.probes[c]) && AtHead(a.probes[c], cfg)
    && GenesisOf(s.genesis, c, a.probes[c]) == ChainAfter(s, a)
  }

  /** It has been recovered often enough in a row, this tick included. */
  ghost predicate Earned(s: State, a: Answers, cfg: Config, c: nat)
    requires Valid(s) && |a.probes| == |s.streaks|
  {
    Recovered(s, a, cfg, c) && s.streaks[c].healthy + 1 >= cfg.failbackStreak
  }

  ghost predicate FirstEarned(s: State, a: Answers, cfg: Config, c: nat)
    requires Valid(s) && |a.probes| == |s.streaks|
  {
    Earned(s, a, cfg, c) && forall i: nat | i < c :: !Earned(s, a, cfg, i)
  }

  /** The active node is fine: at head, and either the indexer lags behind it or the stall window is not over. */
  ghost predicate FineTick(s: State, a: Answers, cfg: Config)
    requires Valid(s) && |a.probes| == |s.streaks|
  {
    var raw := a.probes[s.active];
    && a.dbHeight.Some? && Probed(s.genesis, s.active, raw) && AtHead(raw, cfg)
    && (a.idle <= cfg.stallThreshold || Exceeds(raw.frontier, a.dbHeight.value, cfg.indexerDriftThreshold))
  }

  predicate GoodAt(o: State, probes: seq<RawProbe>, cfg: Config, c: nat)
    requires |probes| == |o.streaks|
  {
    c < o.active < |o.streaks| && GoodCandidate(ProbeNode(o.genesis, c, probes[c]), o.chain, cfg)
  }

  predicate EarnedAt(o: State, probes: seq<RawProbe>, cfg: Config, c: nat)
    requires |probes| == |o.streaks|
  {
    GoodAt(o, probes, cfg, c) && o.streaks[c].healthy + 1 >= cfg.failbackStreak
  }

  lemma {:induction false} CreditedSame(o: State, c: nat, probes: seq<RawProbe>, cfg: Config, i: nat)
    requires c < o.active < |o.streaks| == |probes| && i != c
    ensures var u := Credited(o, c, probes[c], cfg);
      EarnedAt(u, probes, cfg, i) == EarnedAt(o, probes, cfg, i) && GoodAt(u, probes, cfg, i) == GoodAt(o, probes, cfg, i)
    ensures i < |o.streaks| ==> Credited(o, c, probes[c], cfg).streaks[i] == o.streaks[i]
  {
  }

  lemma {:induction false} CreditedHealthy(o: State, c: nat, probes: seq<RawProbe>, cfg: Config)
    requires c < o.active < |o.streaks| == |probes|
    ensures var u := Credited(o, c, probes[c], cfg);
      && u.active == o.active && |u.streaks| == |o.streaks|
      && u.streaks[c].healthy == (if GoodAt(o, probes, cfg, c) then o.streaks[c].healthy + 1 else 0)
      && (EarnedAt(o, probes, cfg, c) <==>
            GoodCandidate(ProbeNode(o.genesis, c, probes[c]), o.chain, cfg) && u.streaks[c].healthy >= cfg.failbackStreak)
  {
  }

  /** The scan stops at the first candidate that earned it; those it passes are credited or reset. */
  lemma {:induction false} ScanFirst(o: State, c: nat, probes: seq<RawProbe>, cfg: Config, j: nat)
    requires o.active < |o.streaks| == |probes|
    ensures var (picked, t) := FailbackScan(o, c, probes, cfg);
      && (picked == Some(j) <==> c <= j && EarnedAt(o, probes, cfg, j) && forall i: nat | c <= i < j :: !EarnedAt(o, probes, cfg, i))
      && (c <= j < o.active && (picked.None? || j <= picked.value) ==>
            t.streaks[j].healthy == if GoodAt(o, probes, cfg, j) then o.streaks[j].healthy + 1 else 0)
    decreases o.active - c
  {
    hide Credited, EarnedAt, GoodAt, GoodCandidate, ProbeNode;
    if c < o.active {
      ScanUnfolds(o, c, probes, cfg);
      CreditedHealthy(o, c, probes, cfg);
      var u := Credited(o, c, probes[c], cfg);
      forall i: nat | i != c
        ensures EarnedAt(u, probes, cfg, i) == EarnedAt(o, probes, cfg, i) && GoodAt(u, probes, cfg, i) == GoodAt(o, probes, cfg, i)
      {
        CreditedSame(o, c, probes, cfg, i);
      }
      if j != c {
        CreditedSame(o, c, probes, cfg, j);
      }
      ScanFacts(u, c + 1, probes, cfg);
      ScanFirst(u, c + 1, probes, cfg, j);
    } else {
      EarnedBelow(o, probes, cfg, j);
    }
  }

  lemma {:induction false} EarnedBelow(o: State, probes: seq<RawProbe>, cfg: Config, j: nat)
    requires |probes| == |o.streaks|
    ensures EarnedAt(o, probes, cfg, j) ==> j < o.active
  {
  }

  lemma {:induction false} GoodIsRecovered(s: State, a: Answers, cfg: Config, c: nat)
    requires Valid(s) && |a.probes| == |s.streaks| && a.dbHeight.Some?
    ensures GoodAt(Observed(s, a, cfg), a.probes, cfg, c) <==> Recovered(s, a, cfg, c)
    ensures EarnedAt(Observed(s, a, cfg), a.probes, cfg, c) <==> Earned(s, a, cfg, c)
  {
    if c < s.active && a.probes[c].Answered? {
      DriftExceeds(a.probes[c].target, a.probes[c].frontier, cfg.nodeDriftThreshold);
    }
  }

  lemma {:induction false} FineIsFine(s: State, a: Answers, cfg: Config)
    requires Valid(s) && |a.probes| == |s.streaks| && a.dbHeight.Some?
    ensures var c := TickClass(s, a, cfg); FineTick(s, a, cfg) <==> c.Synced? || c.IndexerLagging?
  {
    VerdictExact(s, a, cfg);
  }

  /** Exactly when a tick fails back, and to which node. */
  lemma {:induction false} FailbackExact(s: State, a: Answers, cfg: Config, c: nat)
    requires Valid(s) && |a.probes| == |s.streaks|
    ensures Tick(s, a, cfg).1.swap == FailedBack(c) <==> FineTick(s, a, cfg) && a.swapOk && FirstEarned(s, a, cfg, c)
  {
    if a.dbHeight.Some? {
      FineIsFine(s, a, cfg);
      ScanFirst(Observed(s, a, cfg), 0, a.probes, cfg, c);
      forall i: nat
        ensures EarnedAt(Observed(s, a, cfg), a.probes, cfg, i) <==> Earned(s, a, cfg, i)
      {
        GoodIsRecovered(s, a, cfg, i);
      }
    }
  }

  /** A fine tick that does not swap credits the primary if it has recovered, and else resets it. */
  lemma {:induction false} PrimaryCredited(s: State, a: Answers, cfg: Config)
    requires Valid(s) && |a.probes| == |s.streaks| && s.active > 0 && FineTick(s, a, cfg)
    ensures var (t, r) := Tick(s, a, cfg);
      r.swap == NoSwap ==>
        t.active == s.active && t.streaks[0].healthy == if Recovered(s, a, cfg, 0) then s.streaks[0].healthy + 1 else 0
  {
    FineIsFine(s, a, cfg);
    ScanFirst(Observed(s, a, cfg), 0, a.probes, cfg, 0);
    GoodIsRecovered(s, a, cfg, 0);
  }

  ghost predicate RecoveredAt(t: State, more: seq<Answers>, k: nat, cfg: Config)
    requires Valid(t) && Answerable(more, |t.streaks|) && k < |more|
  {
    var u := After(t, more[..k], cfg).0;
    FineTick(u, more[k], cfg) && Recovered(u, more[k], cfg, 0)
  }

  lemma {:induction false} PrimaryEarns(t: State, more: seq<Answers>, cfg: Config)
    requires Valid(t) && t.active > 0 && Answerable(more, |t.streaks|)
    requires forall k: nat | k < |more| :: RecoveredAt(t, more, k, cfg)
    requires forall k | 0 <= k < |more| :: After(t, more, cfg).1[k].swap == NoSwap
    ensures var u := After(t, more, cfg).0; u.active == t.active && u.streaks[0].healthy >= |more|
  {
    hide Tick, Recovered, FineTick;
    if more != [] {
      var n := |more| - 1;
      FrontRecovers(t, more, n, cfg);
      PrimaryEarns(t, more[..n], cfg);
      assert RecoveredAt(t, more, n, cfg);
      PrimaryCredited(After(t, more[..n], cfg).0, more[n], cfg);
    }
  }

  lemma {:induction false} FrontRecovers(t: State, more: seq<Answers>, n: nat, cfg: Config)
    requires Valid(t) && Answerable(more, |t.streaks|) && more != [] && n == |more| - 1
    requires forall k: nat | k < |more| :: RecoveredAt(t, more, k, cfg)
    requires forall k | 0 <= k < |more| :: After(t, more, cfg).1[k].swap == NoSwap
    ensures forall k: nat | k < n :: RecoveredAt(t, more[..n], k, cfg)
    ensures forall k | 0 <= k < n :: After(t, more[..n], cfg).1[k].swap == NoSwap
    ensures After(t, more, cfg).1[n] == Tick(After(t, more[..n], cfg).0, more[n], cfg).1
  {
    hide RecoveredAt, Tick;
    forall k: nat | k < n
      ensures RecoveredAt(t, more[..n], k, cfg)
    {
      assert RecoveredAt(t, more, k, cfg);
      RecoveredInFront(t, more, n, k, cfg);
    }
    forall k | 0 <= k < n
      ensures After(t, more[..n], cfg).1[k].swap == NoSwap
    {
      assert After(t, more, cfg).1[k] == After(t, more[..n], cfg).1[k];
    }
  }

  lemma {:induction false} RecoveredInFront(t: State, more: seq<Answers>, n: nat, k: nat, cfg: Config)
    requires Valid(t) && Answerable(more, |t.streaks|) && k < n <= |more| && RecoveredAt(t, more, k, cfg)
    ensures RecoveredAt(t, more[..n], k, cfg)
  {
    assert more[..n][..k] == more[..k];
  }

  /** A primary that has recovered in failbackStreak fine ticks in a row, none of which swapped before, takes over on the last. */
  lemma {:induction false} RecoveredPrimaryTakesBack(t: State, more: seq<Answers>, last: Answers, cfg: Config)
    requires Valid(t) && t.active > 0 && Answerable(more, |t.streaks|) && |last.probes| == |t.streaks|
    requires forall k: nat | k < |more| :: RecoveredAt(t, more, k, cfg)
    requires forall k | 0 <= k < |more| :: After(t, more, cfg).1[k].swap == NoSwap
    requires |more| + 1 >= cfg.failbackStreak && last.swapOk
    requires var u := After(t, more, cfg).0; FineTick(u, last, cfg) && Recovered(u, last, cfg, 0)
    ensures Tick(After(t, more, cfg).0, last, cfg).1.swap == FailedBack(0)
  {
    PrimaryEarns(t, more, cfg);
    FailbackExact(After(t, more, cfg).0, last, cfg, 0);
  }
}
