/** Reconnection delays: exponential, capped and jittered, in 32-bit arithmetic. */
module MqttBackoff {
  import opened Decimal

  function Pow2(e: nat): nat {
    if e == 0 then 1 else 2 * Pow2(e - 1)
  }

  function Min(a: nat, b: nat): nat {
    if a <= b then a else b
  }

  /** The closed form of the base delay after `failures` consecutive failures. */
  function BaseDelay(base: nat, max: nat, failures: nat): nat
    requires failures > 0
  {
    Min(base * Pow2(failures - 1), max)
  }

  lemma {:induction false} Pow2Monotone(a: nat, b: nat)
    requires a <= b
    ensures 0 < Pow2(a) <= Pow2(b)
    decreases b
  {
    if a < b {
      Pow2Monotone(a, b - 1);
    } else if a > 0 {
      Pow2Monotone(a - 1, a - 1);
    }
  }

  lemma Pow2Of32()
    ensures Pow2(32) == UINT32_MAX + 1
  {
    assert Pow2(8) == 256;
    assert Pow2(16) == 65536;
    assert Pow2(24) == 16777216;
  }

  lemma ProductMonotone(base: nat, x: nat, y: nat)
    requires x <= y
    ensures base * x <= base * y
  {
  }

  /** Further failures never shorten the base delay, and it never leaves [base, max]. */
  lemma BaseDelayMonotone(base: nat, max: nat, a: nat, b: nat)
    requires 0 < a <= b && base <= max
    ensures base <= BaseDelay(base, max, a) <= BaseDelay(base, max, b) <= max
  {
    Pow2Monotone(a - 1, b - 1);
    Pow2Monotone(0, a - 1);
    ProductMonotone(base, Pow2(a - 1), Pow2(b - 1));
    ProductMonotone(base, 1, Pow2(a - 1));
  }

  /** The first failure gives the base delay itself; each further one doubles it, up to the cap. */
  lemma BaseDelayDoubles(base: nat, max: nat, failures: nat)
    requires base <= max && failures > 0
    ensures BaseDelay(base, max, 1) == base
    ensures var now, next := BaseDelay(base, max, failures), BaseDelay(base, max, failures + 1);
      next == if 2 * now <= max then 2 * now else max
  {
    DoubleStep(base, failures);
    assert base * Pow2(0) == base;
  }

  /** Once the doubling has passed the cap it stays there. */
  lemma CapStays(base: nat, max: nat, step: nat, failures: nat)
    requires 0 < step <= failures && base * Pow2(step - 1) >= max
    ensures BaseDelay(base, max, failures) == max
  {
    Pow2Monotone(step - 1, failures - 1);
    ProductMonotone(base, Pow2(step - 1), Pow2(failures - 1));
  }

  lemma DoubleStep(base: nat, step: nat)
    requires step > 0
    ensures base * Pow2(step) == 2 * (base * Pow2(step - 1))
  {
  }

  function JitterLimit(maxJitter: nat, max: nat, base: nat): nat
    requires base <= max
  {
    Min(maxJitter, max - base)
  }

  function Jitter(random: nat, limit: nat): (jitter: nat)
    ensures jitter == random % (limit + 1) <= limit
  {
    if limit == 0 then 0 else random % (limit + 1)
  }

  /** Every delay the policy allows is reached by some 32-bit random number, and no other delay is. */
  lemma DelaysAreExactly(b: uint32, max: uint32, maxJitter: uint32, delay: nat)
    requires b <= max
    ensures (exists random: uint32 :: delay == b + Jitter(random, JitterLimit(maxJitter, max, b)))
       <==> b <= delay <= Min(b + maxJitter, max)
  {
    hide Jitter;
    var limit := JitterLimit(maxJitter, max, b);
    forall random: uint32 ensures Jitter(random, limit) <= limit { JitterRange(random, limit); }
    if b <= delay <= Min(b + maxJitter, max) {
      var random: uint32 := delay - b;
      JitterRange(random, limit);
      assert delay == b + Jitter(random, limit);
    }
  }

  lemma JitterRange(random: nat, limit: nat)
    ensures Jitter(random, limit) <= limit && (random <= limit ==> Jitter(random, limit) == random)
  {
  }

  class MqttRetryPolicy {
    var baseDelayMs: uint32
    var maxDelayMs: uint32
    var maxJitterMs: uint32
    var failureCount: uint32

    predicate Valid()
      reads this
    {
      0 < baseDelayMs <= maxDelayMs && maxJitterMs <= maxDelayMs && maxJitterMs < UINT32_MAX
    }

    /** `mqtt_retry_init`: refused arguments leave the policy as it was. */
    method Init(base: uint32, max: uint32, jitter: uint32) returns (ok: bool)
      modifies this
      ensures ok <==> 0 < base <= max && jitter <= max && jitter != UINT32_MAX
      ensures ok ==> Valid() && baseDelayMs == base && maxDelayMs == max && maxJitterMs == jitter && failureCount == 0
      ensures !ok ==> unchanged(this)
    {
      if base == 0 || max < base || jitter > max || jitter == UINT32_MAX {
        return false;
      }
      baseDelayMs, maxDelayMs, maxJitterMs, failureCount := base, max, jitter, 0;
      return true;
    }

    /** The counter saturates. */
    method RecordFailure()
      modifies this`failureCount
      ensures failureCount == Min(old(failureCount) + 1, UINT32_MAX)
    {
      if failureCount < UINT32_MAX {
        failureCount := failureCount + 1;
      }
    }

    method RecordSuccess()
      modifies this`failureCount
      ensures failureCount == 0
    {
      failureCount := 0;
    }

    /** The doubling loop: the closed form, without overflow, in at most 32 turns even for a
        saturated failure count. */
    method ComputeBase() returns (delay: uint32, ghost turns: nat)
      requires Valid() && failureCount > 0
      ensures delay == BaseDelay(baseDelayMs, maxDelayMs, failureCount)
      ensures turns <= 32
    {
      delay := baseDelayMs;
      var step: uint32 := 1;
      turns := 0;
      while step < failureCount && delay < maxDelayMs
        invariant 1 <= step <= failureCount && turns == step - 1 <= 31
        invariant delay == baseDelayMs * Pow2(step - 1) <= maxDelayMs
        decreases failureCount - step
      {
        turns := turns + 1;
        DoubleStep(baseDelayMs, step);
        if delay > maxDelayMs / 2 {
          CapStays(baseDelayMs, maxDelayMs, step + 1, failureCount);
          delay := maxDelayMs;
          return;
        }
        delay := delay * 2;
        step := step + 1;
        TurnsAreFew(baseDelayMs, step - 1, delay);
      }
      if step < failureCount {
        CapStays(baseDelayMs, maxDelayMs, step, failureCount);
      }
    }

    /** `mqtt_retry_calculate_delay`. */
    method CalculateDelay(random: uint32) returns (delay: uint32)
      requires Valid()
      ensures failureCount == 0 ==> delay == 0
      ensures failureCount > 0 ==>
        var b := BaseDelay(baseDelayMs, maxDelayMs, failureCount);
        var limit := if maxJitterMs <= maxDelayMs - b then maxJitterMs else maxDelayMs - b;
        b <= maxDelayMs && delay == b + random % (limit + 1)
    {
      if failureCount == 0 {
        return 0;
      }
      var b, _ := ComputeBase();
      var remaining: uint32 := maxDelayMs - b;
      var limit: uint32 := maxJitterMs;
      if limit > remaining {
        limit := remaining;
      }
      var jitter: uint32 := 0;
      if limit != 0 {
        var range: uint32 := limit + 1;
        jitter := random % range;
      }
      delay := b + jitter;
    }
  }

  lemma TurnsAreFew(base: nat, turns: nat, delay: nat)
    requires base > 0 && delay == base * Pow2(turns) && delay <= UINT32_MAX
    ensures turns <= 31
  {
    assert base * Pow2(turns) == Pow2(turns) * base;
    if turns >= 32 {
      Pow2Monotone(32, turns);
      Pow2Of32();
      ProductMonotone(Pow2(turns), 1, base);
    }
  }
}
