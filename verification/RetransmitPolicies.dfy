/** Retry limits, and the growing wait between attempts in integer arithmetic. */
module RetransmitPolicies {
  import opened Errors

  /** Durations are whole nanoseconds. */
  datatype Policy = Policy(
    settleDelay: int, firstTimeout: int, maxTimeout: int, numerator: nat, denominator: nat,
    maxAttempts: nat, retentionWindow: int, maxMessages: nat)
  {
    function Validate(): Result<()> {
      if denominator == 0 || numerator == 0 then Err(InvalidArgument)
      else if numerator < denominator then Err(InvalidArgument)
      else if maxAttempts == 0 || maxMessages == 0 then Err(InvalidArgument)
      else if firstTimeout <= 0 || maxTimeout < firstTimeout then Err(InvalidArgument)
      else if settleDelay < 0 then Err(InvalidArgument)
      else if retentionWindow <= settleDelay + firstTimeout then Err(InvalidArgument)
      else Ok(())
    }
  }

  predicate Valid(p: Policy) { p.Validate().Ok? }

  /** One application of the ratio, dividing first as the source does. */
  function Scaled(p: Policy, wait: nat): nat
    requires Valid(p)
  {
    wait / p.denominator * p.numerator
  }

  function Min(a: int, b: int): int { if a < b then a else b }

  /** How long to wait once request `attempt` (the first is 1) has gone out: each step scales the last, up to the ceiling. */
  function Timeout(p: Policy, attempt: nat): (wait: nat)
    requires Valid(p) && attempt >= 1
    ensures wait <= p.maxTimeout
  {
    if attempt == 1 then p.firstTimeout
    else Min(p.maxTimeout, if Timeout(p, attempt - 1) == p.maxTimeout then p.maxTimeout else Scaled(p, Timeout(p, attempt - 1)))
  }

  method TimeoutFor(p: Policy, attempt: nat) returns (wait: int)
    requires Valid(p) && attempt >= 1
    ensures wait == Timeout(p, attempt)
  {
    wait := p.firstTimeout;
    var step := 1;
    while step < attempt
      invariant 1 <= step <= attempt
      invariant wait == Timeout(p, step)
    {
      if wait >= p.maxTimeout {
        CeilingIsFinal(p, step, attempt);
        return p.maxTimeout;
      }
      wait := wait / p.denominator * p.numerator;
      if wait >= p.maxTimeout {
        CeilingIsFinal(p, step + 1, attempt);
        return p.maxTimeout;
      }
      step := step + 1;
    }
  }

  lemma {:induction false} CeilingIsFinal(p: Policy, reached: nat, attempt: nat)
    requires Valid(p) && 1 <= reached <= attempt && Timeout(p, reached) == p.maxTimeout
    ensures Timeout(p, attempt) == p.maxTimeout
    decreases attempt
  {
    if reached < attempt {
      CeilingIsFinal(p, reached, attempt - 1);
    }
  }

  lemma ScaledMonotone(p: Policy, a: nat, b: nat)
    requires Valid(p) && a <= b
    ensures Scaled(p, a) <= Scaled(p, b)
  {
    QuotientMonotone(a, b, p.denominator);
    ProductMonotone(a / p.denominator, b / p.denominator, p.numerator);
  }

  lemma QuotientMonotone(a: nat, b: nat, d: nat)
    requires a <= b && d > 0
    ensures a / d <= b / d
  {
    if a / d > b / d {
      ProductMonotone(b / d + 1, a / d, d);
      assert false;
    }
  }

  lemma ProductMonotone(a: nat, b: nat, k: nat)
    requires a <= b
    ensures a * k <= b * k
  {
    assert (b - a) * k >= 0;
    assert b * k == a * k + (b - a) * k;
  }

  /** No product formed on the way to any timeout exceeds what the ceiling itself would form, so a
      ceiling whose product fits the machine word never overflows, however many attempts are made. */
  lemma ProductsBounded(p: Policy, attempt: nat)
    requires Valid(p) && attempt >= 1
    ensures Scaled(p, Timeout(p, attempt)) <= Scaled(p, p.maxTimeout)
  {
    ScaledMonotone(p, Timeout(p, attempt), p.maxTimeout);
  }

  ghost predicate NeverDecreases(p: Policy)
    requires Valid(p)
  {
    forall attempt :: attempt >= 1 ==> Timeout(p, attempt) <= Timeout(p, attempt + 1)
  }

  /** The backoff really backs off exactly when its first step does not shrink. Truncating division
      makes this a condition on the configuration: the ratio's gain on the quotient has to make up
      for the remainder the division threw away. */
  lemma NeverDecreasesExactly(p: Policy)
    requires Valid(p)
    ensures NeverDecreases(p) <==>
              || p.firstTimeout == p.maxTimeout
              || p.firstTimeout / p.denominator * (p.numerator - p.denominator) >= p.firstTimeout % p.denominator
  {
    var w, d, n := p.firstTimeout, p.denominator, p.numerator;
    assert w == w / d * d + w % d;
    assert w / d * n == w / d * (n - d) + w / d * d;
    assert Scaled(p, w) >= w <==> w / d * (n - d) >= w % d;
    if w == p.maxTimeout || Scaled(p, w) >= w {
      assert Timeout(p, 1) <= Timeout(p, 2);
      forall attempt | attempt >= 1 ensures Timeout(p, attempt) <= Timeout(p, attempt + 1) {
        GrowthSpreads(p, attempt);
      }
    } else {
      assert Timeout(p, 2) < Timeout(p, 1);
    }
  }

  lemma {:induction false} GrowthSpreads(p: Policy, attempt: nat)
    requires Valid(p) && attempt >= 1 && Timeout(p, 1) <= Timeout(p, 2)
    ensures Timeout(p, attempt) <= Timeout(p, attempt + 1)
  {
    if attempt > 1 {
      GrowthSpreads(p, attempt - 1);
      ScaledMonotone(p, Timeout(p, attempt - 1), Timeout(p, attempt));
    }
  }

  function Power(base: nat, exponent: nat): nat {
    if exponent == 0 then 1 else base * Power(base, exponent - 1)
  }

  /** With an integer ratio the timeout has a closed form. */
  lemma {:induction false} IntegerRatioClosedForm(p: Policy, attempt: nat)
    requires Valid(p) && p.denominator == 1 && attempt >= 1
    ensures Timeout(p, attempt) == Min(p.maxTimeout, p.firstTimeout * Power(p.numerator, attempt - 1))
  {
    if attempt > 1 {
      IntegerRatioClosedForm(p, attempt - 1);
      var grown := p.firstTimeout * Power(p.numerator, attempt - 2);
      assert p.firstTimeout * Power(p.numerator, attempt - 1) == grown * p.numerator by {
        Rearrange(p.firstTimeout, p.numerator, Power(p.numerator, attempt - 2));
      }
      GrowsAtLeast(grown, p.numerator);
    }
  }

  lemma Rearrange(a: nat, b: nat, c: nat)
    ensures a * (b * c) == a * c * b
  {}

  lemma GrowsAtLeast(a: nat, k: nat)
    requires k >= 1
    ensures a * k >= a
  {
    ProductMonotone(1, k, a);
  }

  /** The truncation is observable: a ratio of 4/3 applied to a wait of 5 asks again sooner. */
  lemma TruncationCanShrink()
    ensures exists p: Policy :: Valid(p) && !NeverDecreases(p)
  {
    var p := Policy(0, 5, 100, 4, 3, 5, 1000, 60000);
    assert Timeout(p, 2) == 4 < Timeout(p, 1);
    assert Valid(p) && !NeverDecreases(p);
  }
}
