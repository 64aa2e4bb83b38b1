/**
The sync watchdog (internal/indexer/watchdog.go) with the probe cache of internal/indexer/nodepool.go.

`Tick` gives one watchdog iteration as a function of the state and of what the environment answered; the
class performs it on its fields.  A probe, the database read, the clock and the client swap answer anything.
*/
module Watchdog {
  import opened Wrappers

  datatype Class = Synced | IndexerLagging | NodeLagging | Stalled | ProbeFailed

  /** stats.syncInfo, the frontier and the genesis request; the last is only sent when nothing is cached. */
  datatype RawProbe = RpcError | Answered(frontier: nat, target: nat, genesis: Option<string>)

  datatype Probe = Probe(frontier: nat, target: nat, genesis: string)

  datatype Streaks = Streaks(healthy: nat, unhealthy: nat)

  const NO_STREAKS := Streaks(0, 0)

  datatype Config = Config(
    stallThreshold: int, indexerDriftThreshold: int, nodeDriftThreshold: int, unhealthyStreak: int, failbackStreak: int)

  datatype State = State(
    active: nat, streaks: seq<Streaks>, chain: string, failedOverAt: Option<int>, genesis: map<nat, string>)

  /** What one tick is answered: a probe per node, the height in the database, the clock, the swap. */
  datatype Answers = Answers(probes: seq<RawProbe>, dbHeight: Option<nat>, idle: int, now: int, swapOk: bool)

  datatype Swap = NoSwap | FailedOver(to: nat) | FailedBack(to: nat)

  /** What a tick did; `verdict` is None when the database read failed. */
  datatype Record = Record(verdict: Option<Class>, swap: Swap)

  // ----- Classification -----

  /** The program's int64 arithmetic on uint64 heights. */
  function Int64(x: int): int {
    (x + 0x8000_0000_0000_0000) % 0x1_0000_0000_0000_0000 - 0x8000_0000_0000_0000
  }

  function Drift(ahead: nat, behind: nat): int {
    Int64(Int64(ahead) - Int64(behind))
  }

  predicate NodeBehind(p: Probe, cfg: Config) {
    Drift(p.target, p.frontier) > cfg.nodeDriftThreshold
  }

  predicate IndexerBehind(p: Probe, dbHeight: nat, cfg: Config) {
    Drift(p.frontier, dbHeight) > cfg.indexerDriftThreshold
  }

  function Classify(probe: Option<Probe>, dbHeight: nat, idle: int, cfg: Config): Class {
    if probe.None? then ProbeFailed
    else if idle > cfg.stallThreshold then
      if IndexerBehind(probe.value, dbHeight, cfg) && !NodeBehind(probe.value, cfg) then IndexerLagging else Stalled
    else if NodeBehind(probe.value, cfg) then NodeLagging
    else if IndexerBehind(probe.value, dbHeight, cfg) then IndexerLagging
    else Synced
  }

  predicate Bad(c: Class) {
    c.NodeLagging? || c.Stalled? || c.ProbeFailed?
  }

  // ----- Probing -----

  function ProbeGenesis(genesis: map<nat, string>, idx: nat, raw: RawProbe): map<nat, string> {
    if raw.Answered? && idx !in genesis && raw.genesis.Some? then genesis[idx := raw.genesis.value] else genesis
  }

  function ProbeNode(genesis: map<nat, string>, idx: nat, raw: RawProbe): Option<Probe> {
    if raw.Answered? && idx in ProbeGenesis(genesis, idx, raw)
    then Some(Probe(raw.frontier, raw.target, ProbeGenesis(genesis, idx, raw)[idx])) else None
  }

  // ----- Reaction, failover and failback -----

  function Reacted(st: Streaks, c: Class): Streaks {
    match c
    case Synced => Streaks(st.healthy + 1, 0)
    case IndexerLagging => st
    case NodeLagging => Streaks(0, st.unhealthy + 1)
    case Stalled => st.(unhealthy := st.unhealthy + 1)
    case ProbeFailed => st.(unhealthy := st.unhealthy + 1)
  }

  predicate Acceptable(p: Option<Probe>, chain: string, cfg: Config) {
    p.Some? && !NodeBehind(p.value, cfg) && (chain == "" || p.value.genesis == chain)
  }

  /** The first acceptable node from idx on, and the genesis cache after probing up to it. */
  function FailoverTarget(genesis: map<nat, string>, idx: nat, probes: seq<RawProbe>, chain: string, cfg: Config)
    : (r: (Option<nat>, map<nat, string>))
    ensures r.0.Some? ==> idx <= r.0.value < |probes|
    decreases |probes| - idx
  {
    if idx >= |probes| then (None, genesis)
    else if Acceptable(ProbeNode(genesis, idx, probes[idx]), chain, cfg)
    then (Some(idx), ProbeGenesis(genesis, idx, probes[idx]))
    else FailoverTarget(ProbeGenesis(genesis, idx, probes[idx]), idx + 1, probes, chain, cfg)
  }

  predicate GoodCandidate(p: Option<Probe>, chain: string, cfg: Config) {
    p.Some? && p.value.genesis == chain && !NodeBehind(p.value, cfg)
  }

  /** The failback scan from candidate c: the first one whose healthy streak is long enough. */
  function FailbackScan(s: State, c: nat, probes: seq<RawProbe>, cfg: Config): (r: (Option<nat>, State))
    requires s.active < |s.streaks| == |probes|
    ensures r.1.active == s.active && |r.1.streaks| == |s.streaks| && r.1.chain == s.chain
    ensures r.1.failedOverAt == s.failedOverAt
    ensures r.0.Some? ==> c <= r.0.value < s.active
    decreases s.active - c
  {
    if c >= s.active then (None, s) else
      var p := ProbeNode(s.genesis, c, probes[c]);
      var t := s.(genesis := ProbeGenesis(s.genesis, c, probes[c]));
      if !GoodCandidate(p, s.chain, cfg) then
        FailbackScan(t.(streaks := t.streaks[c := t.streaks[c].(healthy := 0)]), c + 1, probes, cfg)
      else
        var u := t.(streaks := t.streaks[c := t.streaks[c].(healthy := t.streaks[c].healthy + 1)]);
        if u.streaks[c].healthy >= cfg.failbackStreak then (Some(c), u) else FailbackScan(u, c + 1, probes, cfg)
  }

  predicate CanAttemptFailback(c: Class, active: nat, failover: bool) {
    active > 0 && !failover && (c.Synced? || c.IndexerLagging?)
  }

  function NoStreaks(n: nat): (r: seq<Streaks>)
    ensures |r| == n && forall k | 0 <= k < n :: r[k] == NO_STREAKS
  {
    seq(n, k => NO_STREAKS)
  }

  function Swapped(s: State, to: nat, failedOverAt: Option<int>): State {
    s.(active := to, failedOverAt := failedOverAt, streaks := NoStreaks(|s.streaks|))
  }

  predicate Valid(s: State) {
    s.active < |s.streaks|
  }

  /** The state after the probe of the active node and react. */
  function Observed(s: State, a: Answers, cfg: Config): State
    requires Valid(s) && |a.probes| == |s.streaks| && a.dbHeight.Some?
  {
    var raw := a.probes[s.active];
    var p := ProbeNode(s.genesis, s.active, raw);
    var c := Classify(p, a.dbHeight.value, a.idle, cfg);
    s.(genesis := ProbeGenesis(s.genesis, s.active, raw),
       streaks := s.streaks[s.active := Reacted(s.streaks[s.active], c)],
       chain := if p.Some? && s.chain == "" then p.value.genesis else s.chain)
  }

  function TickClass(s: State, a: Answers, cfg: Config): Class
    requires Valid(s) && |a.probes| == |s.streaks| && a.dbHeight.Some?
  {
    Classify(ProbeNode(s.genesis, s.active, a.probes[s.active]), a.dbHeight.value, a.idle, cfg)
  }

  /** One watchdog iteration. */
  function Tick(s: State, a: Answers, cfg: Config): (r: (State, Record))
    requires Valid(s) && |a.probes| == |s.streaks|
    ensures Valid(r.0) && |r.0.streaks| == |s.streaks|
  {
    if a.dbHeight.None? then
      (s.(genesis := ProbeGenesis(s.genesis, s.active, a.probes[s.active])), Record(None, NoSwap))
    else
      var c := TickClass(s, a, cfg);
      var o := Observed(s, a, cfg);
      var failover := Bad(c) && o.streaks[o.active].unhealthy >= cfg.unhealthyStreak;
      if failover then
        var (target, genesis) := FailoverTarget(o.genesis, o.active + 1, a.probes, o.chain, cfg);
        var t := o.(genesis := genesis);
        if target.Some? && a.swapOk
        then (Swapped(t, target.value, Some(a.now)), Record(Some(c), FailedOver(target.value)))
        else (t, Record(Some(c), NoSwap))
      else if CanAttemptFailback(c, o.active, failover) then
        var (picked, t) := FailbackScan(o, 0, a.probes, cfg);
        if picked.Some? && a.swapOk
        then (Swapped(t, picked.value, None), Record(Some(c), FailedBack(picked.value)))
        else (t, Record(Some(c), NoSwap))
      else (o, Record(Some(c), NoSwap))
  }

  // ----- The program's state, updated in place -----

  /** A watchdog that has not ticked: on the primary, or moved to a fallback by StartupSwap. */
  predicate Started(s: State) {
    && Valid(s) && s.streaks == NoStreaks(|s.streaks|) && s.chain == ""
    && (s.active == 0 <==> s.failedOverAt.None?)
  }

  class SyncWatchdog {
    const cfg: Config
    const nodes: nat
    var activeIdx: nat
    var streaks: seq<Streaks>
    var chainIdentifier: string
    var failedOverAt: Option<int>
    var genesisHash: map<nat, string>

    function Value(): State reads this {
      State(activeIdx, streaks, chainIdentifier, failedOverAt, genesisHash)
    }

    ghost predicate Ok() reads this {
      Valid(Value()) && |streaks| == nodes
    }

    constructor (cfg: Config, nodes: nat)
      requires nodes > 0
      ensures Ok() && this.nodes == nodes && this.cfg == cfg
      ensures Value() == State(0, NoStreaks(nodes), "", None, map[]) && Started(Value())
    {
      this.cfg, this.nodes := cfg, nodes;
      activeIdx, chainIdentifier, failedOverAt, genesisHash := 0, "", None, map[];
      streaks := NoStreaks(nodes);
    }

    /** The startup fallback: the primary did not answer, node idx did. */
    method StartupSwap(idx: nat, now: int, swapOk: bool) returns (ok: bool)
      requires Ok() && idx < nodes
      modifies this`activeIdx, this`failedOverAt
      ensures ok == swapOk && Ok()
      ensures Value() == if swapOk then old(Value()).(active := idx, failedOverAt := Some(now)) else old(Value())
      ensures Started(old(Value())) && (idx > 0 || !swapOk) ==> Started(Value())
    {
      if !swapOk {
        return false;
      }
      activeIdx, failedOverAt := idx, Some(now);
      ok := true;
    }

    method ProbeOnce(idx: nat, raw: RawProbe) returns (p: Option<Probe>)
      modifies this`genesisHash
      ensures p == ProbeNode(old(genesisHash), idx, raw) && genesisHash == ProbeGenesis(old(genesisHash), idx, raw)
    {
      if raw.RpcError? {
        return None;
      }
      if idx in genesisHash {
        return Some(Probe(raw.frontier, raw.target, genesisHash[idx]));
      }
      if raw.genesis.None? {
        return None;
      }
      genesisHash := genesisHash[idx := raw.genesis.value];
      p := Some(Probe(raw.frontier, raw.target, raw.genesis.value));
    }

    /** react: the streaks of the active node, and whether to fail over. */
    method React(c: Class) returns (signalRestart: bool, failover: bool)
      requires Ok()
      modifies this`streaks
      ensures Ok() && streaks == old(streaks)[activeIdx := Reacted(old(streaks)[activeIdx], c)]
      ensures failover <==> Bad(c) && streaks[activeIdx].unhealthy >= cfg.unhealthyStreak
      ensures signalRestart <==> c == IndexerLagging || c == Stalled
    {
      signalRestart, failover := false, false;
      var st := streaks[activeIdx];
      match c {
        case Synced =>
          streaks := streaks[activeIdx := Streaks(st.healthy + 1, 0)];
        case IndexerLagging =>
          signalRestart := true;
          assert streaks == streaks[activeIdx := st];
        case NodeLagging =>
          st := Streaks(0, st.unhealthy + 1);
          streaks := streaks[activeIdx := st];
          failover := st.unhealthy >= cfg.unhealthyStreak;
        case Stalled =>
          signalRestart := true;
          st := st.(unhealthy := st.unhealthy + 1);
          streaks := streaks[activeIdx := st];
          failover := st.unhealthy >= cfg.unhealthyStreak;
        case ProbeFailed =>
          st := st.(unhealthy := st.unhealthy + 1);
          streaks := streaks[activeIdx := st];
          failover := st.unhealthy >= cfg.unhealthyStreak;
      }
    }

    method SelectFailoverTarget(chain: string, probes: seq<RawProbe>) returns (target: Option<nat>)
      requires Ok() && |probes| == nodes
      modifies this`genesisHash
      ensures (target, genesisHash) == FailoverTarget(old(genesisHash), activeIdx + 1, probes, chain, cfg)
    {
      var idx := activeIdx + 1;
      while idx < nodes
        invariant idx <= nodes
        invariant FailoverTarget(old(genesisHash), activeIdx + 1, probes, chain, cfg)
               == FailoverTarget(genesisHash, idx, probes, chain, cfg)
      {
        var p := ProbeOnce(idx, probes[idx]);
        if p.Some? && !NodeBehind(p.value, cfg) && (chain == "" || p.value.genesis == chain) {
          return Some(idx);
        }
        idx := idx + 1;
      }
      target := None;
    }

    /** selectFailback: credits a candidate and picks it when its streak is long enough. */
    method SelectFailback(candidate: nat) returns (picked: bool)
      requires Ok() && candidate < nodes
      modifies this`streaks
      ensures Ok()
      ensures var st := old(streaks)[candidate];
        streaks == old(streaks)[candidate := st.(healthy := st.healthy + 1)]
        && (picked <==> st.healthy + 1 >= cfg.failbackStreak)
    {
      var st := streaks[candidate];
      st := st.(healthy := st.healthy + 1);
      streaks := streaks[candidate := st];
      picked := st.healthy >= cfg.failbackStreak;
    }

    method ResetStreaks()
      modifies this`streaks
      ensures streaks == NoStreaks(|old(streaks)|)
    {
      var k := 0;
      while k < |streaks|
        invariant 0 <= k <= |streaks| == |old(streaks)|
        invariant forall j | 0 <= j < k :: streaks[j] == NO_STREAKS
      {
        streaks := streaks[k := NO_STREAKS];
        k := k + 1;
      }
    }

    /** The failback part of a tick. */
    method TryFailback(probes: seq<RawProbe>, swapOk: bool) returns (swap: Swap)
      requires Ok() && |probes| == nodes
      modifies this
      ensures Ok()
      ensures var (picked, t) := FailbackScan(old(Value()), 0, probes, cfg);
        if picked.Some? && swapOk
        then Value() == Swapped(t, picked.value, None) && swap == FailedBack(picked.value)
        else Value() == t && swap == NoSwap
    {
      var candidate := 0;
      while candidate < activeIdx
        invariant Ok() && candidate <= activeIdx == old(activeIdx)
        invariant FailbackScan(old(Value()), 0, probes, cfg) == FailbackScan(Value(), candidate, probes, cfg)
      {
        var p := ProbeOnce(candidate, probes[candidate]);
        if p.None? || p.value.genesis != chainIdentifier || NodeBehind(p.value, cfg) {
          streaks := streaks[candidate := streaks[candidate].(healthy := 0)];
          candidate := candidate + 1;
          continue;
        }
        var picked := SelectFailback(candidate);
        if picked {
          if swapOk {
            activeIdx, failedOverAt := candidate, None;
            ResetStreaks();
            return FailedBack(candidate);
          }
          return NoSwap;
        }
        candidate := candidate + 1;
      }
      swap := NoSwap;
    }

    method RunWatchdogTick(a: Answers) returns (record: Record, signalRestart: bool)
      requires Ok() && |a.probes| == nodes
      modifies this
      ensures Ok() && (Value(), record) == Tick(old(Value()), a, cfg)
      ensures signalRestart <==> record.verdict == Some(IndexerLagging) || record.verdict == Some(Stalled)
    {
      var probe := ProbeOnce(activeIdx, a.probes[activeIdx]);
      if a.dbHeight.None? {
        return Record(None, NoSwap), false;
      }
      var c := Classify(probe, a.dbHeight.value, a.idle, cfg);
      var failover;
      signalRestart, failover := React(c);
      if probe.Some? && chainIdentifier == "" {
        chainIdentifier := probe.value.genesis;
      }
      assert Value() == Observed(old(Value()), a, cfg);
      var swap := NoSwap;
      if failover {
        var target := SelectFailoverTarget(chainIdentifier, a.probes);
        if target.Some? && a.swapOk {
          activeIdx, failedOverAt := target.value, Some(a.now);
          ResetStreaks();
          swap := FailedOver(target.value);
        }
      }
      if activeIdx > 0 && !failover && (c.Synced? || c.IndexerLagging?) {
        swap := TryFailback(a.probes, a.swapOk);
      }
      record := Record(Some(c), swap);
    }
  }
}
