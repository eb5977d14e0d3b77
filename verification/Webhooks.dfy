/** webhooks.py: which outcomes are retried, how long to wait, and when to stop. */
module Webhooks {
  import opened Prelude

  datatype DeliveryOutcome = Succeeded | HttpError | TimedOut | NetworkError

  datatype DeliveryResult = DeliveryResult(outcome: DeliveryOutcome, responseStatus: Option<int>, error: Option<string>)

  predicate IsRetryable(result: DeliveryResult) {
    match result.outcome
    case Succeeded => false
    case TimedOut => true
    case NetworkError => true
    case HttpError =>
      match result.responseStatus
      case None => false
      case Some(status) => status >= 500 || status in {408, 425, 429}
  }

  function Pow2(n: nat): (p: real)
    ensures p >= 1.0
  {
    if n == 0 then 1.0 else 2.0 * Pow2(n - 1)
  }

  function Shorter(a: Seconds, b: Seconds): Seconds {
    if a <= b then a else b
  }

  datatype RetryPolicy = RetryPolicy(maxAttempts: int, initialSeconds: Seconds, maxSeconds: Seconds) {

    /** The ranges the settings enforce. */
    predicate Valid() {
      maxAttempts >= 1 && initialSeconds > 0.0 && maxSeconds > 0.0
    }

    /** Doubling from the initial delay. */
    function Uncapped(exponent: nat): Seconds {
      initialSeconds * Pow2(exponent)
    }

    function DelayAfter(attemptsMade: int): Seconds {
      var exponent := if attemptsMade - 1 < 0 then 0 else attemptsMade - 1;
      var seconds := Uncapped(exponent);
      Shorter(seconds, maxSeconds)
    }

    predicate IsExhausted(attemptsMade: int) {
      attemptsMade >= maxAttempts
    }

    /** The sum of the waits after attempts 1 to n. */
    function TotalWait(n: nat): Seconds {
      if n == 0 then 0.0 else TotalWait(n - 1) + DelayAfter(n)
    }

    /** How many of the first n waits are still doubling rather than capped. */
    function UncappedWaits(n: nat): (m: nat)
      ensures m <= n
    {
      if n == 0 then 0
      else if Uncapped(n - 1) <= maxSeconds then n
      else UncappedWaits(n - 1)
    }
  }

  lemma {:induction false} Pow2Monotone(i: nat, j: nat)
    requires i <= j
    ensures Pow2(i) <= Pow2(j)
  {
    if i < j {
      Pow2Monotone(i, j - 1);
    }
  }

  lemma ScaleMonotone(c: real, x: real, y: real)
    requires c > 0.0 && x <= y
    ensures c * x <= c * y
  {
    assert c * (y - x) >= 0.0;
  }

  lemma UncappedGrows(policy: RetryPolicy, a: nat, b: nat)
    requires policy.Valid() && a <= b
    ensures 0.0 < policy.initialSeconds == policy.Uncapped(0) <= policy.Uncapped(a) <= policy.Uncapped(b)
  {
    Pow2Monotone(a, b);
    ScaleMonotone(policy.initialSeconds, 1.0, Pow2(a));
    ScaleMonotone(policy.initialSeconds, Pow2(a), Pow2(b));
  }

  lemma UncappedDoubles(policy: RetryPolicy, k: nat)
    requires k >= 1
    ensures policy.Uncapped(k) == 2.0 * policy.Uncapped(k - 1)
  {
    assert Pow2(k) == 2.0 * Pow2(k - 1);
  }

  /** Backoff never shrinks, never leaves (0, cap], and starts at the capped initial delay. */
  lemma DelaysNeverShrink(policy: RetryPolicy, i: int, j: int)
    requires policy.Valid() && i <= j
    ensures 0.0 < policy.DelayAfter(i) <= policy.DelayAfter(j) <= policy.maxSeconds
    ensures i <= 1 ==> policy.DelayAfter(i) == Shorter(policy.initialSeconds, policy.maxSeconds)
  {
    var a: nat := if i - 1 < 0 then 0 else i - 1;
    var b: nat := if j - 1 < 0 then 0 else j - 1;
    UncappedGrows(policy, a, b);
  }

  /** Each wait doubles the one before it until the cap, and stays at the cap from then on. */
  lemma DelayDoublesUntilCapped(policy: RetryPolicy, k: nat)
    requires policy.Valid() && k >= 1
    ensures policy.DelayAfter(k + 1) ==
            if 2.0 * policy.DelayAfter(k) <= policy.maxSeconds then 2.0 * policy.DelayAfter(k) else policy.maxSeconds
  {
    UncappedDoubles(policy, k);
  }

  lemma WaitIsUncapped(policy: RetryPolicy, n: nat, k: nat)
    requires policy.Valid() && 1 <= k <= n && policy.Uncapped(n - 1) <= policy.maxSeconds
    ensures policy.DelayAfter(k) == policy.Uncapped(k - 1)
  {
    UncappedGrows(policy, k - 1, n - 1);
  }

  lemma {:induction false} GeometricWait(policy: RetryPolicy, n: nat, k: nat)
    requires policy.Valid() && 1 <= n && k <= n && policy.Uncapped(n - 1) <= policy.maxSeconds
    ensures policy.TotalWait(k) == policy.initialSeconds * (Pow2(k) - 1.0)
  {
    if k > 0 {
      GeometricWait(policy, n, k - 1);
      WaitIsUncapped(policy, n, k);
      assert Pow2(k) == 2.0 * Pow2(k - 1);
    }
  }

  /** What n waits add up to when the first m of them double and the rest are capped. */
  function CappedGeometricSum(policy: RetryPolicy, m: nat, n: int): Seconds {
    policy.initialSeconds * (Pow2(m) - 1.0) + (n - m) as real * policy.maxSeconds
  }

  lemma SumWithoutCappedWaits(policy: RetryPolicy, n: nat)
    ensures CappedGeometricSum(policy, n, n) == policy.initialSeconds * (Pow2(n) - 1.0)
  {
  }

  lemma OneMoreCappedWait(policy: RetryPolicy, m: nat, n: int)
    ensures CappedGeometricSum(policy, m, n) == CappedGeometricSum(policy, m, n - 1) + policy.maxSeconds
  {
    var k := n - m;
    assert k as real == (k - 1) as real + 1.0;
    assert ((k - 1) as real + 1.0) * policy.maxSeconds == (k - 1) as real * policy.maxSeconds + policy.maxSeconds;
  }

  lemma ClosedFormUncapped(policy: RetryPolicy, n: nat)
    requires policy.Valid() && policy.UncappedWaits(n) == n
    ensures policy.TotalWait(n) == CappedGeometricSum(policy, policy.UncappedWaits(n), n)
  {
    if n > 0 {
      GeometricWait(policy, n, n);
    }
    SumWithoutCappedWaits(policy, n);
  }

  lemma ClosedFormCapped(policy: RetryPolicy, n: nat)
    requires policy.Valid() && policy.UncappedWaits(n) < n
    requires policy.TotalWait(n - 1) == CappedGeometricSum(policy, policy.UncappedWaits(n - 1), n - 1)
    ensures policy.TotalWait(n) == CappedGeometricSum(policy, policy.UncappedWaits(n), n)
  {
    OneMoreCappedWait(policy, policy.UncappedWaits(n - 1), n);
  }

  /** The capped-geometric closed form of everything a cycle waits. */
  lemma {:induction false} TotalWaitClosedForm(policy: RetryPolicy, n: nat)
    requires policy.Valid()
    ensures policy.TotalWait(n) == CappedGeometricSum(policy, policy.UncappedWaits(n), n)
  {
    if policy.UncappedWaits(n) == n {
      ClosedFormUncapped(policy, n);
    } else {
      TotalWaitClosedForm(policy, n - 1);
      ClosedFormCapped(policy, n);
    }
  }
}
