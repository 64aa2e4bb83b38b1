/** What holds over every run of the watchdog, whatever the probes, the database and the swaps answer. */
module WatchdogRuns {
  import opened Wrappers
  import opened Watchdog

  predicate Answerable(answers: seq<Answers>, n: nat) {
    forall k | 0 <= k < |answers| :: |answers[k].probes| == n
  }

  /** The state after some ticks and the record of each. */
  function After(s: State, answers: seq<Answers>, cfg: Config): (r: (State, seq<Record>))
    requires Valid(s) && Answerable(answers, |s.streaks|)
    ensures Valid(r.0) && |r.0.streaks| == |s.streaks| && |r.1| == |answers|
  {
    if answers == [] then (s, []) else
      var (t, history) := After(s, answers[..|answers| - 1], cfg);
      var (u, record) := Tick(t, answers[|answers| - 1], cfg);
      (u, history + [record])
  }

  // ----- The history functions -----

  /** Bad ticks since the later of the last synced tick and the last swap. */
  function BadTicks(h: seq<Record>): nat {
    if h == [] then 0 else
      var last := h[|h| - 1];
      if last.swap != NoSwap || last.verdict == Some(Synced) then 0
      else BadTicks(h[..|h| - 1]) + (if last.verdict.Some? && Bad(last.verdict.value) then 1 else 0)
  }

  /** Ticks since the last swap. */
  function TicksSinceSwap(h: seq<Record>): nat {
    if h == [] || h[|h| - 1].swap != NoSwap then 0 else TicksSinceSwap(h[..|h| - 1]) + 1
  }

  function Swaps(h: seq<Record>): nat {
    if h == [] then 0 else Swaps(h[..|h| - 1]) + if h[|h| - 1].swap != NoSwap then 1 else 0
  }

  /** The last swap, startup included, was a failover. */
  function LastSwapWasFailover(h: seq<Record>, startedOnFallback: bool): bool {
    if h == [] then startedOnFallback
    else if h[|h| - 1].swap == NoSwap then LastSwapWasFailover(h[..|h| - 1], startedOnFallback)
    else h[|h| - 1].swap.FailedOver?
  }

  // ----- One tick -----

  ghost predicate Extends(g: map<nat, string>, g': map<nat, string>) {
    forall k | k in g :: k in g' && g'[k] == g[k]
  }

  lemma {:induction false} TargetFacts(g: map<nat, string>, idx: nat, probes: seq<RawProbe>, chain: string, cfg: Config)
    ensures var (target, g') := FailoverTarget(g, idx, probes, chain, cfg);
      && Extends(g, g')
      && (target.Some? ==> target.value in g' && (chain == "" || g'[target.value] == chain))
    decreases |probes| - idx
  {
    if idx < |probes| && !Acceptable(ProbeNode(g, idx, probes[idx]), chain, cfg) {
      TargetFacts(ProbeGenesis(g, idx, probes[idx]), idx + 1, probes, chain, cfg);
    }
  }

  /** What a failback scan from candidate c may have changed: candidates' healthy streaks and the cache. */
  ghost predicate Scanned(s: State, t: State, c: nat) {
    && |t.streaks| == |s.streaks|
    && Extends(s.genesis, t.genesis)
    && forall j | 0 <= j < |s.streaks| ::
      && t.streaks[j].unhealthy == s.streaks[j].unhealthy
      && t.streaks[j].healthy <= s.streaks[j].healthy + 1
      && (j < c || j >= s.active ==> t.streaks[j] == s.streaks[j])
  }

  /** The state after one candidate. */
  function Credited(s: State, c: nat, raw: RawProbe, cfg: Config): State
    requires c < s.active < |s.streaks|
  {
    var healthy := if GoodCandidate(ProbeNode(s.genesis, c, raw), s.chain, cfg) then s.streaks[c].healthy + 1 else 0;
    s.(genesis := ProbeGenesis(s.genesis, c, raw), streaks := s.streaks[c := s.streaks[c].(healthy := healthy)])
  }

  lemma {:induction false} ScanUnfolds(s: State, c: nat, probes: seq<RawProbe>, cfg: Config)
    requires c < s.active < |s.streaks| == |probes|
    ensures var u := Credited(s, c, probes[c], cfg);
      FailbackScan(s, c, probes, cfg) ==
      if GoodCandidate(ProbeNode(s.genesis, c, probes[c]), s.chain, cfg) && u.streaks[c].healthy >= cfg.failbackStreak
      then (Some(c), u) else FailbackScan(u, c + 1, probes, cfg)
  {
  }

  lemma {:induction false} ScannedThen(s: State, c: nat, raw: RawProbe, cfg: Config, t: State)
    requires c < s.active < |s.streaks| && Scanned(Credited(s, c, raw, cfg), t, c + 1)
    ensures Scanned(s, t, c)
  {
    var u := Credited(s, c, raw, cfg);
    assert Extends(s.genesis, u.genesis);
  }

  /** The scan raises a healthy streak by at most one, and picks a candidate on the chain that earned it. */
  lemma {:induction false} ScanFacts(s: State, c: nat, probes: seq<RawProbe>, cfg: Config)
    requires s.active < |s.streaks| == |probes|
    ensures var (picked, t) := FailbackScan(s, c, probes, cfg);
      && Scanned(s, t, c)
      && (picked.Some? ==> s.streaks[picked.value].healthy + 1 >= cfg.failbackStreak
                           && picked.value in t.genesis && t.genesis[picked.value] == s.chain)
    decreases s.active - c
  {
    if c < s.active {
      ScanUnfolds(s, c, probes, cfg);
      var u := Credited(s, c, probes[c], cfg);
      var (picked, t) := FailbackScan(s, c, probes, cfg);
      if picked == Some(c) {
        assert Scanned(u, u, c + 1);
      } else {
        ScanFacts(u, c + 1, probes, cfg);
      }
      ScannedThen(s, c, probes[c], cfg, t);
    }
  }

  /** The invariant that ties the streaks to the history. */
  ghost predicate StreaksMatch(s: State, h: seq<Record>) {
    && Valid(s)
    && s.streaks[s.active].unhealthy == BadTicks(h)
    && (forall j | 0 <= j < |s.streaks| && j != s.active :: s.streaks[j].unhealthy == 0)
    && (forall j | 0 <= j < |s.streaks| ::
          s.streaks[j].healthy <= TicksSinceSwap(h) && s.streaks[j].unhealthy <= TicksSinceSwap(h))
  }

  lemma {:induction false} HistoryStep(h: seq<Record>, r: Record)
    ensures BadTicks(h + [r]) ==
      if r.swap != NoSwap || r.verdict == Some(Synced) then 0
      else BadTicks(h) + (if r.verdict.Some? && Bad(r.verdict.value) then 1 else 0)
    ensures TicksSinceSwap(h + [r]) == if r.swap != NoSwap then 0 else TicksSinceSwap(h) + 1
    ensures Swaps(h + [r]) == Swaps(h) + if r.swap != NoSwap then 1 else 0
    ensures forall b :: LastSwapWasFailover(h + [r], b)
                        == (if r.swap == NoSwap then LastSwapWasFailover(h, b) else r.swap.FailedOver?)
  {
    assert (h + [r])[..|h|] == h;
  }

  /** The streaks after the probe and react, before any swap. */
  lemma {:induction false} ObservedMatches(s: State, h: seq<Record>, a: Answers, cfg: Config)
    requires StreaksMatch(s, h) && |a.probes| == |s.streaks| && a.dbHeight.Some?
    ensures var o, c := Observed(s, a, cfg), TickClass(s, a, cfg); StreaksMatch(o, h + [Record(Some(c), NoSwap)])
    ensures forall j | 0 <= j < |s.streaks| && j != s.active :: Observed(s, a, cfg).streaks[j] == s.streaks[j]
  {
    HistoryStep(h, Record(Some(TickClass(s, a, cfg)), NoSwap));
  }

  lemma {:induction false} ScannedMatches(o: State, t: State, h: seq<Record>, since: nat)
    requires StreaksMatch(o, h) && Scanned(o, t, 0) && t.active == o.active && since + 1 == TicksSinceSwap(h)
    requires forall j | 0 <= j < |o.streaks| && j != o.active :: o.streaks[j].healthy <= since
    ensures StreaksMatch(t, h)
  {
  }

  lemma {:induction false} SwappedMatches(s: State, to: nat, failedOverAt: Option<int>, h: seq<Record>, r: Record)
    requires to < |s.streaks| && r.swap != NoSwap
    ensures StreaksMatch(Swapped(s, to, failedOverAt), h + [r])
  {
    HistoryStep(h, r);
  }

  lemma {:induction false} TickMatches(s: State, h: seq<Record>, a: Answers, cfg: Config)
    requires StreaksMatch(s, h) && |a.probes| == |s.streaks|
    ensures var (t, r) := Tick(s, a, cfg); StreaksMatch(t, h + [r])
  {
    var (t, r) := Tick(s, a, cfg);
    if a.dbHeight.None? {
      HistoryStep(h, r);
    } else {
      var o := Observed(s, a, cfg);
      ObservedMatches(s, h, a, cfg);
      ScanFacts(o, 0, a.probes, cfg);
      match r.swap
      case FailedOver(to) =>
        SwappedMatches(o.(genesis := t.genesis), to, t.failedOverAt, h, r);
      case FailedBack(to) =>
        SwappedMatches(FailbackScan(o, 0, a.probes, cfg).1, to, None, h, r);
      case NoSwap =>
        HistoryStep(h, r);
        if t.streaks != o.streaks {
          ScannedMatches(o, t, h + [r], TicksSinceSwap(h));
        }
    }
  }

  /** A failover takes as many bad ticks, a failback as many good probes, as its threshold says. */
  lemma {:induction false} SwapTakesTicks(s: State, h: seq<Record>, a: Answers, cfg: Config)
    requires StreaksMatch(s, h) && |a.probes| == |s.streaks|
    ensures var swap := Tick(s, a, cfg).1.swap;
      && (swap.FailedOver? ==> TicksSinceSwap(h) + 1 >= cfg.unhealthyStreak)
      && (swap.FailedBack? ==> TicksSinceSwap(h) + 1 >= cfg.failbackStreak)
  {
    if a.dbHeight.Some? {
      ScanFacts(Observed(s, a, cfg), 0, a.probes, cfg);
    }
  }

  // ----- Streaks are history -----

  /**
  On every run the active node's unhealthy streak is the number of bad ticks since the later of the last
  synced tick and the last swap, and every other node's is zero.
  */
  lemma {:induction false} StreakIsHistory(s: State, answers: seq<Answers>, cfg: Config)
    requires Started(s) && Answerable(answers, |s.streaks|)
    ensures var (t, h) := After(s, answers, cfg); StreaksMatch(t, h)
  {
    if answers != [] {
      var front := answers[..|answers| - 1];
      StreakIsHistory(s, front, cfg);
      var (t, h) := After(s, front, cfg);
      TickMatches(t, h, answers[|answers| - 1], cfg);
    }
  }

  /** The active node answers at head and holds momentums the indexer lacks; idle is arbitrary. */
  predicate OnlyIndexerBehind(s: State, a: Answers, cfg: Config)
    requires Valid(s) && |a.probes| == |s.streaks|
  {
    var p := ProbeNode(s.genesis, s.active, a.probes[s.active]);
    p.Some? && a.dbHeight.Some? && !NodeBehind(p.value, cfg) && IndexerBehind(p.value, a.dbHeight.value, cfg)
  }

  lemma {:induction false} IndexerLagStep(s: State, a: Answers, cfg: Config)
    requires Valid(s) && |a.probes| == |s.streaks| && OnlyIndexerBehind(s, a, cfg) && OnlyActiveCounts(s)
    ensures var (t, r) := Tick(s, a, cfg);
      && OnlyActiveCounts(t) && t.streaks[t.active].unhealthy <= s.streaks[s.active].unhealthy
      && r.verdict == Some(IndexerLagging) && !r.swap.FailedOver?
  {
    ScanFacts(Observed(s, a, cfg), 0, a.probes, cfg);
  }

  predicate OnlyActiveCounts(s: State) {
    Valid(s) && forall j | 0 <= j < |s.streaks| && j != s.active :: s.streaks[j].unhealthy == 0
  }

  /** Nothing counts towards a failover, and none of the records is one. */
  predicate Unharmed(s: State, t: State, h: seq<Record>)
    requires Valid(s)
  {
    && OnlyActiveCounts(t) && t.streaks[t.active].unhealthy <= s.streaks[s.active].unhealthy
    && (forall k | 0 <= k < |h| :: h[k].verdict == Some(IndexerLagging) && !h[k].swap.FailedOver?)
  }

  lemma {:induction false} UnharmedStep(s: State, t: State, h: seq<Record>, a: Answers, cfg: Config)
    requires Valid(s) && Unharmed(s, t, h) && |a.probes| == |t.streaks| && OnlyIndexerBehind(t, a, cfg)
    ensures var (u, r) := Tick(t, a, cfg); Unharmed(s, u, h + [r])
  {
    IndexerLagStep(t, a, cfg);
  }

  predicate OnlyIndexerBehindAt(s: State, answers: seq<Answers>, k: nat, cfg: Config)
    requires Valid(s) && Answerable(answers, |s.streaks|) && k < |answers|
  {
    OnlyIndexerBehind(After(s, answers[..k], cfg).0, answers[k], cfg)
  }

  /** However long such ticks last, and however long the stall, they raise no streak and cause no failover. */
  lemma {:induction false} IndexerLagNeverFailsOver(s: State, answers: seq<Answers>, cfg: Config)
    requires OnlyActiveCounts(s) && Answerable(answers, |s.streaks|)
    requires forall k: nat | k < |answers| :: OnlyIndexerBehindAt(s, answers, k, cfg)
    ensures Unharmed(s, After(s, answers, cfg).0, After(s, answers, cfg).1)
  {
    if answers != [] {
      var n := |answers| - 1;
      var front := answers[..n];
      forall k: nat | k < n
        ensures OnlyIndexerBehindAt(s, front, k, cfg)
      {
        assert front[..k] == answers[..k] && OnlyIndexerBehindAt(s, answers, k, cfg);
      }
      IndexerLagNeverFailsOver(s, front, cfg);
      assert OnlyIndexerBehindAt(s, answers, n, cfg);
      var (t, h) := After(s, front, cfg);
      UnharmedStep(s, t, h, answers[n], cfg);
    }
  }

  // ----- Swap rate -----

  function Min(a: int, b: int): int {
    if a < b then a else b
  }

  lemma {:induction false} Amortised(swaps: int, since: int, threshold: int, n: int, swapped: bool)
    requires swaps * threshold + since <= n && (swapped ==> since + 1 >= threshold)
    ensures swapped ==> (swaps + 1) * threshold <= n + 1
    ensures !swapped ==> swaps * threshold + (since + 1) <= n + 1
  {
    assert (swaps + 1) * threshold == swaps * threshold + threshold;
  }

  lemma {:induction false} SwapRateStep(t: State, h: seq<Record>, a: Answers, cfg: Config, n: nat)
    requires StreaksMatch(t, h) && |a.probes| == |t.streaks|
    requires Swaps(h) * Min(cfg.unhealthyStreak, cfg.failbackStreak) + TicksSinceSwap(h) <= n
    ensures var k := h + [Tick(t, a, cfg).1];
      Swaps(k) * Min(cfg.unhealthyStreak, cfg.failbackStreak) + TicksSinceSwap(k) <= n + 1
  {
    var r := Tick(t, a, cfg).1;
    SwapTakesTicks(t, h, a, cfg);
    HistoryStep(h, r);
    Amortised(Swaps(h), TicksSinceSwap(h), Min(cfg.unhealthyStreak, cfg.failbackStreak), n, r.swap != NoSwap);
  }

  /** Over any n ticks, swaps times the smaller threshold is at most n. */
  lemma {:induction false} SwapRate(s: State, answers: seq<Answers>, cfg: Config)
    requires Started(s) && Answerable(answers, |s.streaks|)
    ensures var h := After(s, answers, cfg).1;
      Swaps(h) * Min(cfg.unhealthyStreak, cfg.failbackStreak) + TicksSinceSwap(h) <= |answers|
  {
    if answers != [] {
      var front, a := answers[..|answers| - 1], answers[|answers| - 1];
      SwapRate(s, front, cfg);
      StreakIsHistory(s, front, cfg);
      var (t, h) := After(s, front, cfg);
      SwapRateStep(t, h, a, cfg, |front|);
    }
  }

  /** Every swap comes at least its threshold of ticks after the previous one (or the start). */
  lemma {:induction false} SwapSpacing(s: State, answers: seq<Answers>, a: Answers, cfg: Config)
    requires Started(s) && Answerable(answers, |s.streaks|) && |a.probes| == |s.streaks|
    ensures var (t, h) := After(s, answers, cfg); var swap := Tick(t, a, cfg).1.swap;
      && (swap.FailedOver? ==> TicksSinceSwap(h) + 1 >= cfg.unhealthyStreak)
      && (swap.FailedBack? ==> TicksSinceSwap(h) + 1 >= cfg.failbackStreak)
  {
    StreakIsHistory(s, answers, cfg);
    var (t, h) := After(s, answers, cfg);
    SwapTakesTicks(t, h, a, cfg);
  }

  // ----- Chain and index safety -----

  /** Once a chain is recorded, the active node's cached genesis is it. */
  ghost predicate OnChain(s: State) {
    s.chain != "" ==> s.active in s.genesis && s.genesis[s.active] == s.chain
  }

  /** One tick: the chain is write-once, so is every cached genesis, and swaps move in their own direction. */
  lemma {:induction false} TickIsSafe(s: State, a: Answers, cfg: Config)
    requires Valid(s) && OnChain(s) && |a.probes| == |s.streaks|
    ensures var (t, r) := Tick(s, a, cfg);
      && OnChain(t) && Extends(s.genesis, t.genesis)
      && (s.chain != "" ==> t.chain == s.chain)
      && (r.swap.NoSwap? ==> t.active == s.active && t.failedOverAt == s.failedOverAt)
      && (r.swap.FailedOver? ==> s.active < t.active == r.swap.to && t.failedOverAt == Some(a.now))
      && (r.swap.FailedBack? ==> s.active > t.active == r.swap.to && t.failedOverAt == None)
  {
    if a.dbHeight.Some? {
      var o := Observed(s, a, cfg);
      ScanFacts(o, 0, a.probes, cfg);
      TargetFacts(o.genesis, o.active + 1, a.probes, o.chain, cfg);
    }
  }

  /** The same over every run, and when `failedOverAt` is set. */
  lemma {:induction false} RunIsSafe(s: State, answers: seq<Answers>, cfg: Config)
    requires Started(s) && Answerable(answers, |s.streaks|)
    ensures var (t, h) := After(s, answers, cfg);
      && OnChain(t) && Extends(s.genesis, t.genesis) && t.active < |s.streaks|
      && (t.failedOverAt.Some? <==> LastSwapWasFailover(h, s.active > 0))
      && (t.active == 0 ==> t.failedOverAt.None?)
      && (|s.streaks| <= 2 ==> (t.active == 0 <==> t.failedOverAt.None?))
  {
    if answers != [] {
      var front, a := answers[..|answers| - 1], answers[|answers| - 1];
      RunIsSafe(s, front, cfg);
      var (t, h) := After(s, front, cfg);
      TickIsSafe(t, a, cfg);
      HistoryStep(h, Tick(t, a, cfg).1);
    }
  }

  /** Once set, the chain identifier is the same for the rest of the run. */
  lemma {:induction false} ChainIsWriteOnce(s: State, answers: seq<Answers>, k: nat, cfg: Config)
    requires Started(s) && Answerable(answers, |s.streaks|) && k <= |answers|
    requires After(s, answers[..k], cfg).0.chain != ""
    ensures After(s, answers, cfg).0.chain == After(s, answers[..k], cfg).0.chain
    decreases |answers|
  {
    if k < |answers| {
      var front := answers[..|answers| - 1];
      assert front[..k] == answers[..k];
      ChainIsWriteOnce(s, front, k, cfg);
      RunIsSafe(s, front, cfg);
      TickIsSafe(After(s, front, cfg).0, answers[|answers| - 1], cfg);
    } else {
      assert answers[..k] == answers;
    }
  }

  /**
  "Nil only when on the primary" does not hold with three nodes: after a failover to node 2 and a failback to
  node 1 the timestamp is nil although the primary is not active.
  */
  lemma {:induction false} FailbackToFallbackClearsStamp()
    ensures exists s, answers, cfg ::
              Started(s) && Answerable(answers, |s.streaks|)
              && After(s, answers, cfg).0.active == 1 && After(s, answers, cfg).0.failedOverAt.None?
  {
    var cfg := Config(60, 10, 10, 1, 1);
    var s := State(0, NoStreaks(3), "", None, map[]);
    var up := Answered(5, 5, Some("g"));
    var a := Answers([RpcError, RpcError, up], Some(5), 0, 100, true);
    var b := Answers([RpcError, up, up], Some(5), 0, 200, true);
    var (t, r) := Tick(s, a, cfg);
    assert FailoverTarget(map[], 1, a.probes, "", cfg) == FailoverTarget(map[], 2, a.probes, "", cfg);
    assert t == State(2, NoStreaks(3), "", Some(100), map[2 := "g"]);
    assert TickClass(t, b, cfg) == Synced;
    var o := Observed(t, b, cfg);
    assert o.chain == "g";
    var o1 := o.(streaks := o.streaks[0 := o.streaks[0].(healthy := 0)]);
    assert FailbackScan(o, 0, b.probes, cfg) == FailbackScan(o1, 1, b.probes, cfg);
    var u := Tick(t, b, cfg).0;
    assert u.active == 1 && u.failedOverAt.None?;
    assert [a, b][..1] == [a] && [a][..0] == [];
    assert After(s, [a], cfg).0 == t;
    assert After(s, [a, b], cfg).0 == u;
  }
}
