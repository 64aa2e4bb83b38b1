/**
Retry with exponential backoff (internal/indexer/retry.go): the loop, and closed forms for the waits it makes.
Delays are in milliseconds.
*/
module Retry {
  datatype RetryConfig = RetryConfig(maxAttempts: int, baseDelay: int, maxBackoff: int)

  const DEFAULT_RETRY := RetryConfig(6, 500, 30000)

  /** The grace swapActiveClient gives the old client before it stops it. */
  const STOP_GRACE: int := 60000

  datatype Outcome = Succeeded | Cancelled | Exhausted(attempts: int)

  /** How often fn may run: at least once, whatever the configuration says. */
  function Bound(cfg: RetryConfig): (n: nat)
    ensures n >= 1
  {
    if cfg.maxAttempts < 1 then 1 else cfg.maxAttempts
  }

  function Pow2(k: nat): (p: nat)
    ensures p >= 1
  {
    if k == 0 then 1 else 2 * Pow2(k - 1)
  }

  /** base doubled k times. */
  function Doubled(base: int, k: nat): int {
    if k == 0 then base else 2 * Doubled(base, k - 1)
  }

  lemma {:induction false} DoubledIsPower(base: int, k: nat)
    ensures Doubled(base, k) == base * Pow2(k)
  {
    if k > 0 {
      DoubledIsPower(base, k - 1);
      assert 2 * (base * Pow2(k - 1)) == base * (2 * Pow2(k - 1));
    }
  }

  /** The i-th wait, counted from 1: the smaller of base * 2^(i-1) and the cap, or base if that is no less than the cap. */
  function Wait(cfg: RetryConfig, i: nat): int
    requires i >= 1
  {
    if cfg.baseDelay >= cfg.maxBackoff then cfg.baseDelay
    else if Doubled(cfg.baseDelay, i - 1) < cfg.maxBackoff then Doubled(cfg.baseDelay, i - 1)
    else cfg.maxBackoff
  }

  function Total(waits: seq<int>): int {
    if waits == [] then 0 else Total(waits[..|waits| - 1]) + waits[|waits| - 1]
  }

  function Waits(cfg: RetryConfig, n: nat): (waits: seq<int>)
    ensures |waits| == n && forall i :: 0 <= i < n ==> waits[i] == Wait(cfg, i + 1)
  {
    if n == 0 then [] else Waits(cfg, n - 1) + [Wait(cfg, n)]
  }

  lemma {:induction false} NegativeGrows(base: int, k: nat)
    requires base < 0
    ensures Doubled(base, k) <= base
  {
    if k > 0 {
      NegativeGrows(base, k - 1);
    }
  }

  /** One doubling of the loop takes each wait to the next. */
  lemma {:induction false} NextWait(cfg: RetryConfig, i: nat)
    requires i >= 1
    ensures var delay := Wait(cfg, i);
            Wait(cfg, i + 1) == if delay >= cfg.maxBackoff then delay
                                else if delay * 2 > cfg.maxBackoff then cfg.maxBackoff else delay * 2
  {
    if cfg.baseDelay < 0 {
      NegativeGrows(cfg.baseDelay, i - 1);
    }
  }

  /**
  `alive(i)`: the context is live before attempt i; `succeeds(i)`: fn succeeds on attempt i; `slept(i)`: the
  wait after attempt i ends by its timer. Returns how often fn ran and the waits begun.
  */
  method WithRetryConfig(config: RetryConfig, alive: nat -> bool, succeeds: nat -> bool, slept: nat -> bool)
    returns (outcome: Outcome, calls: nat, waits: seq<int>)
    ensures calls <= Bound(config)
    ensures forall i: nat :: 1 <= i < calls ==> !succeeds(i)
    ensures outcome == Succeeded <==> calls >= 1 && succeeds(calls)
    ensures outcome.Exhausted? ==> calls == Bound(config) == outcome.attempts
    ensures outcome == Cancelled ==>
              (|waits| == calls && !alive(calls + 1)) || (|waits| == calls >= 1 && !slept(calls))
    ensures waits == Waits(config, |waits|) && |waits| < Bound(config)
    ensures outcome != Cancelled ==> |waits| == calls - 1
    ensures forall i: nat :: 1 <= i <= calls ==> alive(i)
    ensures forall i: nat :: 1 <= i < calls ==> slept(i)
  {
    var cfg := config;
    if cfg.maxAttempts < 1 {
      cfg := cfg.(maxAttempts := 1);
    }
    var delay := cfg.baseDelay;
    var attempt: nat := 1;
    calls, waits := 0, [];
    while attempt <= cfg.maxAttempts
      invariant 1 <= attempt <= cfg.maxAttempts == Bound(config)
      invariant calls == attempt - 1 == |waits|
      invariant forall i: nat :: 1 <= i < attempt ==> !succeeds(i) && alive(i) && slept(i)
      invariant waits == Waits(config, attempt - 1)
      invariant delay == Wait(config, attempt)
      decreases cfg.maxAttempts - attempt
    {
      if !alive(attempt) {
        return Cancelled, calls, waits;
      }
      calls := calls + 1;
      if succeeds(attempt) {
        return Succeeded, calls, waits;
      }
      if attempt == cfg.maxAttempts {
        break;
      }
      waits := waits + [delay];
      if !slept(attempt) {
        return Cancelled, calls, waits;
      }
      NextWait(config, attempt);
      if delay < cfg.maxBackoff {
        delay := delay * 2;
        if delay > cfg.maxBackoff {
          delay := cfg.maxBackoff;
        }
      }
      attempt := attempt + 1;
    }
    outcome := Exhausted(cfg.maxAttempts);
  }

  lemma {:induction false} TotalStep(cfg: RetryConfig, n: nat)
    requires n >= 1
    ensures Total(Waits(cfg, n)) == Total(Waits(cfg, n - 1)) + Wait(cfg, n)
  {
    assert Waits(cfg, n)[..n - 1] == Waits(cfg, n - 1);
  }

  /** While the doubling stays below the cap the waits form a geometric series. */
  lemma {:induction false} UncappedTotal(cfg: RetryConfig, n: nat)
    requires n > 0 ==> 0 <= cfg.baseDelay && Doubled(cfg.baseDelay, n - 1) < cfg.maxBackoff
    ensures Total(Waits(cfg, n)) == Doubled(cfg.baseDelay, n) - cfg.baseDelay
  {
    if n > 0 {
      DoubledGrows(cfg.baseDelay, 0, n - 1);
      if n > 1 {
        DoubledGrows(cfg.baseDelay, n - 2, n - 1);
      }
      UncappedTotal(cfg, n - 1);
      TotalStep(cfg, n);
    }
  }

  lemma {:induction false} DoubledGrows(base: int, j: nat, k: nat)
    requires base >= 0 && j <= k
    ensures 0 <= Doubled(base, j) <= Doubled(base, k)
  {
    if j < k {
      DoubledGrows(base, j, k - 1);
    } else if k > 0 {
      DoubledGrows(base, j - 1, k - 1);
    }
  }

  lemma {:induction false} CappedWait(cfg: RetryConfig, j: nat, i: nat)
    requires 0 <= cfg.baseDelay <= cfg.maxBackoff && j < i && Doubled(cfg.baseDelay, j) >= cfg.maxBackoff
    ensures Wait(cfg, i) == cfg.maxBackoff
  {
    DoubledGrows(cfg.baseDelay, j, i - 1);
  }

  function Times(count: nat, amount: int): int {
    if count == 0 then 0 else Times(count - 1, amount) + amount
  }

  lemma {:induction false} TimesIsProduct(count: nat, amount: int)
    ensures Times(count, amount) == count * amount
  {
    if count > 0 {
      TimesIsProduct(count - 1, amount);
      assert (count - 1) * amount + amount == count * amount;
    }
  }

  lemma {:induction false} ConstantTail(waits: seq<int>, j: nat, cap: int)
    requires j <= |waits| && forall i :: j <= i < |waits| ==> waits[i] == cap
    ensures Total(waits) == Total(waits[..j]) + Times(|waits| - j, cap)
  {
    if j < |waits| {
      ConstantTail(waits[..|waits| - 1], j, cap);
      assert waits[..|waits| - 1][..j] == waits[..j];
    } else {
      assert waits[..j] == waits;
    }
  }

  /** The first j of n waits are below the cap: those the doublings have not taken to it yet. */
  predicate BelowCap(cfg: RetryConfig, n: nat, j: nat) {
    && j <= n
    && (j > 0 ==> Doubled(cfg.baseDelay, j - 1) < cfg.maxBackoff)
    && (j < n ==> Doubled(cfg.baseDelay, j) >= cfg.maxBackoff)
  }

  lemma {:induction false} BelowCapExists(cfg: RetryConfig, n: nat) returns (j: nat)
    ensures BelowCap(cfg, n, j)
  {
    j := 0;
    while j < n && Doubled(cfg.baseDelay, j) < cfg.maxBackoff
      invariant j <= n && (j > 0 ==> Doubled(cfg.baseDelay, j - 1) < cfg.maxBackoff)
    {
      j := j + 1;
    }
  }

  lemma {:induction false} WaitsPrefix(cfg: RetryConfig, n: nat, j: nat)
    requires j <= n
    ensures Waits(cfg, n)[..j] == Waits(cfg, j)
  {
  }

  lemma {:induction false} WaitsTail(cfg: RetryConfig, n: nat, j: nat, i: nat)
    requires 0 <= cfg.baseDelay <= cfg.maxBackoff && BelowCap(cfg, n, j) && j <= i < n
    ensures Waits(cfg, n)[i] == cfg.maxBackoff
  {
    CappedWait(cfg, j, i + 1);
  }

  lemma {:induction false} TotalBelowCap(cfg: RetryConfig, n: nat, j: nat)
    requires 0 <= cfg.baseDelay <= cfg.maxBackoff && BelowCap(cfg, n, j)
    ensures Total(Waits(cfg, n)) == Doubled(cfg.baseDelay, j) - cfg.baseDelay + Times(n - j, cfg.maxBackoff)
  {
    UncappedTotal(cfg, j);
    WaitsPrefix(cfg, n, j);
    forall i: nat | j <= i < n
      ensures Waits(cfg, n)[i] == cfg.maxBackoff
    {
      WaitsTail(cfg, n, j, i);
    }
    ConstantTail(Waits(cfg, n), j, cfg.maxBackoff);
  }

  /** The sum of the first n waits, for every n and every base up to the cap. */
  lemma {:induction false} TotalClosedForm(cfg: RetryConfig, n: nat) returns (j: nat)
    requires 0 <= cfg.baseDelay <= cfg.maxBackoff
    ensures BelowCap(cfg, n, j)
    ensures Total(Waits(cfg, n)) == cfg.baseDelay * Pow2(j) - cfg.baseDelay + (n - j) * cfg.maxBackoff
  {
    j := BelowCapExists(cfg, n);
    TotalBelowCap(cfg, n, j);
    DoubledIsPower(cfg.baseDelay, j);
    TimesIsProduct(n - j, cfg.maxBackoff);
  }

  lemma {:induction false} WaitNotNegative(cfg: RetryConfig, i: nat)
    requires i >= 1 && cfg.baseDelay >= 0 && cfg.maxBackoff >= 0
    ensures Wait(cfg, i) >= 0
  {
    DoubledGrows(cfg.baseDelay, 0, i - 1);
  }

  lemma {:induction false} TotalGrows(waits: seq<int>, m: nat)
    requires m <= |waits| && forall i :: m <= i < |waits| ==> waits[i] >= 0
    ensures Total(waits[..m]) <= Total(waits)
  {
    if m < |waits| {
      TotalGrows(waits[..|waits| - 1], m);
      assert waits[..|waits| - 1][..m] == waits[..m];
    } else {
      assert waits[..m] == waits;
    }
  }

  /** However a default retry ends, its waits total at most 15.5 s, the sum when all six attempts fail. */
  lemma {:induction false} DefaultBudget(n: nat)
    requires n < Bound(DEFAULT_RETRY)
    ensures Total(Waits(DEFAULT_RETRY, n)) <= 15500 < STOP_GRACE
    ensures n == Bound(DEFAULT_RETRY) - 1 ==> Total(Waits(DEFAULT_RETRY, n)) == 15500
  {
    assert Doubled(500, 1) == 1000 && Doubled(500, 2) == 2000 && Doubled(500, 3) == 4000;
    assert Doubled(500, 4) == 8000 && Doubled(500, 5) == 16000;
    TotalBelowCap(DEFAULT_RETRY, 5, 5);
    var waits := Waits(DEFAULT_RETRY, 5);
    forall i: nat | n <= i < 5
      ensures waits[i] >= 0
    {
      WaitNotNegative(DEFAULT_RETRY, i + 1);
    }
    TotalGrows(waits, n);
    assert waits[..n] == Waits(DEFAULT_RETRY, n);
  }
}
