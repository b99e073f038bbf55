/** The pure decision rules: legal transitions and the retry policy. */
module Rules {
  import opened Types

  function Targets(s: Status): set<Status> {
    match s
    case Pending => {Queued}
    case Queued => {Running, Cancelled}
    case Running => {Succeeded, Failed, Cancelled}
    case _ => {}
  }

  /** States from which `to` is a legal target. */
  function SourcesFor(to: Status): set<Status> {
    set s: Status | to in Targets(s)
  }

  /** A cancellation may leave RUNNING as well as QUEUED, and nothing leaves a terminal state. */
  lemma CancelSources()
    ensures SourcesFor(Cancelled) == {Queued, Running} && SourcesFor(Running) == {Queued} && SourcesFor(Queued) == {Pending}
    ensures SourcesFor(Succeeded) == SourcesFor(Failed) == {Running} && SourcesFor(Pending) == {}
    ensures forall s, to :: s in SourcesFor(to) ==> !Terminal(s)
  {
  }

  predicate IsRetryable(c: Classification, attempt: nat, maxAttempts: nat) {
    c in {Transient, Unknown} && attempt < maxAttempts
  }

  /** A permanent failure is never retried; any other is, exactly while attempts are left. */
  lemma RetryableIff(c: Classification, attempt: nat, maxAttempts: nat)
    ensures !IsRetryable(Permanent, attempt, maxAttempts)
    ensures c != Permanent ==> (IsRetryable(c, attempt, maxAttempts) <==> attempt < maxAttempts)
  {
  }

  function Pow2(n: nat): nat {
    if n == 0 then 1 else 2 * Pow2(n - 1)
  }

  /** The backoff policy; `u` in [0, 1] stands for the uniform random draw. */
  datatype Backoff = Backoff(base: real, cap: real, jitterRatio: real) {
    /** `2 ** (attempt - 1)` is a half for attempt 0, which no claim ever hands out. */
    function Capped(attempt: nat): real {
      var uncapped := base * if attempt == 0 then 0.5 else Pow2(attempt - 1) as real;
      if uncapped < cap then uncapped else cap
    }

    function NextRetryAt(attempt: nat, now: Time, u: real): Time {
      now + Capped(attempt) + u * (Capped(attempt) * jitterRatio)
    }
  }

  lemma {:induction false} Pow2Grows(m: nat, n: nat)
    requires m <= n
    ensures 1 <= Pow2(m) <= Pow2(n)
  {
    if m < n {
      Pow2Grows(m, n - 1);
    } else if n > 0 {
      Pow2Grows(n - 1, n - 1);
    }
  }

  lemma CappedIs(b: Backoff, n: nat, uncapped: real)
    requires n >= 1 && uncapped == b.base * Pow2(n - 1) as real
    ensures b.Capped(n) == if uncapped < b.cap then uncapped else b.cap
  {
  }

  lemma CappedGrows(b: Backoff, m: nat, n: nat)
    requires 1 <= m <= n && b.base >= 0.0 && b.cap >= 0.0
    ensures 0.0 <= b.Capped(m) <= b.Capped(n) <= b.cap
  {
    Pow2Grows(m - 1, n - 1);
    var pm, pn := Pow2(m - 1) as real, Pow2(n - 1) as real;
    var um, un := b.base * pm, b.base * pn;
    Scale(0.0, pm, b.base);
    Scale(pm, pn, b.base);
    assert 0.0 <= um <= un;
    CappedIs(b, m, um);
    CappedIs(b, n, un);
  }

  /** The delay starts at the base and doubles from attempt to attempt until it reaches the cap. */
  lemma BackoffDoubles(b: Backoff, n: nat)
    requires n >= 1 && b.base >= 0.0 && b.cap >= 0.0
    ensures b.Capped(1) == if b.base < b.cap then b.base else b.cap
    ensures b.Capped(n + 1) == if 2.0 * b.Capped(n) < b.cap then 2.0 * b.Capped(n) else b.cap
  {
    var p := Pow2(n - 1) as real;
    var uncapped := b.base * p;
    assert Pow2(0) == 1 && b.base * 1.0 == b.base;
    CappedIs(b, 1, b.base);
    CappedIs(b, n, uncapped);
    assert Pow2(n) as real == 2.0 * p;
    assert b.base * (2.0 * p) == 2.0 * uncapped;
    CappedIs(b, n + 1, 2.0 * uncapped);
  }

  /** Whatever the draw, a retry is never due before now nor later than the cap plus its full
  jitter, and a later attempt's delay before jitter is never the shorter one. */
  lemma BackoffBounds(b: Backoff, m: nat, n: nat, now: Time, u: real)
    requires 1 <= m <= n && 0.0 <= u <= 1.0
    requires b.base >= 0.0 && b.cap >= 0.0 && b.jitterRatio >= 0.0
    ensures b.Capped(m) <= b.Capped(n)
    ensures now <= now + b.Capped(n) <= b.NextRetryAt(n, now, u) <= now + b.cap + b.cap * b.jitterRatio
  {
    CappedGrows(b, m, n);
    var c := b.Capped(n);
    Scale(0.0, b.jitterRatio, c);
    Scale(c, b.cap, b.jitterRatio);
    var spread := c * b.jitterRatio;
    Scale(u, 1.0, spread);
    Scale(0.0, u, spread);
    assert 0.0 <= u * spread <= spread;
    assert spread <= b.cap * b.jitterRatio;
    assert b.NextRetryAt(n, now, u) == now + c + u * spread;
  }

  /** The draw spreads the retry evenly from the bare delay to the delay with its full jitter. */
  lemma JitterSpreads(b: Backoff, n: nat, now: Time, u: real)
    ensures b.NextRetryAt(n, now, 0.0) == now + b.Capped(n)
    ensures b.NextRetryAt(n, now, 1.0) == now + b.Capped(n) * (1.0 + b.jitterRatio)
    ensures b.NextRetryAt(n, now, u) == b.NextRetryAt(n, now, 0.0) + u * (b.NextRetryAt(n, now, 1.0) - b.NextRetryAt(n, now, 0.0))
  {
    var c := b.Capped(n);
    var spread := c * b.jitterRatio;
    assert c * (1.0 + b.jitterRatio) == c + spread;
    assert b.NextRetryAt(n, now, 1.0) == now + c + spread;
  }

  lemma Scale(x: real, y: real, k: real)
    requires x <= y && k >= 0.0
    ensures x * k <= y * k && k * x <= k * y
  {
  }
}
