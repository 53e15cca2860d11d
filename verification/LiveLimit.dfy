/** Sizes of the local point queue: the buffering target and the live limit. */
module LiveLimit {
  import opened Points

  const CONTINUOUS_MULTIPLIER := 2
  const CONTINUOUS_MINIMUM_MS := 100
  const REPLACEMENT_MULTIPLIER := 1
  const REPLACEMENT_MINIMUM_MS := 50

  /** Points played in `ms` milliseconds, rounded half up. */
  function RoundedPoints(rate: nat, ms: nat): nat {
    (rate * ms + 500) / 1000
  }

  function TargetBufferedPoints(rate: nat, latencyMs: nat, maxQueued: nat): (t: nat)
    requires maxQueued >= 1000
    ensures 1000 <= t <= maxQueued
  {
    Clamp(RoundedPoints(rate, latencyMs), 1000, Max(1000, maxQueued - 1))
  }

  function MinimumPoints(rate: nat, minimumMs: nat): nat {
    if rate > 0 then RoundedPoints(rate, minimumMs) else 3000
  }

  /** The window guarded by a division, so that the product cannot overflow. */
  function Window(target: nat, multiplier: nat, maxQueued: nat): nat {
    var m := Max(multiplier, 1);
    if target > maxQueued / m then maxQueued else target * m
  }

  function LivePointLimit(target: nat, rate: nat, multiplier: nat, minimumMs: nat, maxQueued: nat): (limit: nat)
    requires maxQueued >= 1000
    ensures 1000 <= limit <= maxQueued
  {
    Clamp(Max(Window(target, multiplier, maxQueued), MinimumPoints(rate, minimumMs)), 1000, maxQueued)
  }

  lemma ProductGrows(a: int, b: int, m: nat)
    requires a <= b
    ensures a * m <= b * m
  {
    assert (b - a) * m >= 0;
  }

  lemma WindowExact(target: nat, multiplier: nat, maxQueued: nat)
    requires multiplier >= 1
    ensures Window(target, multiplier, maxQueued) == Min(target * multiplier, maxQueued)
    ensures target * multiplier >= target
  {
    var q := maxQueued / multiplier;
    assert maxQueued == q * multiplier + maxQueued % multiplier;
    if target > q {
      ProductGrows(q + 1, target, multiplier);
      assert (q + 1) * multiplier == q * multiplier + multiplier;
    } else {
      ProductGrows(target, q, multiplier);
    }
    ProductGrows(1, multiplier, target);
    assert multiplier * target == target * multiplier;
  }

  lemma ClampOfWindow(product: nat, window: nat, minimum: nat, target: nat, maxQueued: nat)
    requires 1000 <= target <= maxQueued && target <= product && window == Min(product, maxQueued)
    ensures Clamp(Max(window, minimum), 1000, maxQueued) == Min(maxQueued, Max(product, minimum))
  {}

  /** The division-guarded computation is the plain clamp, and never undercuts the buffering target. */
  lemma LiveLimitExact(target: nat, rate: nat, multiplier: nat, minimumMs: nat, maxQueued: nat)
    requires multiplier >= 1 && 1000 <= target <= maxQueued
    ensures LivePointLimit(target, rate, multiplier, minimumMs, maxQueued)
         == Min(maxQueued, Max(target * multiplier, MinimumPoints(rate, minimumMs)))
    ensures LivePointLimit(target, rate, multiplier, minimumMs, maxQueued) >= target
  {
    WindowExact(target, multiplier, maxQueued);
    var minimum := MinimumPoints(rate, minimumMs);
    ClampOfWindow(target * multiplier, Window(target, multiplier, maxQueued), minimum, target, maxQueued);
  }

  // --- the same in terms of playback time ---

  /** `n` is the whole number nearest to `thousandths` / 1000, halves rounded up. */
  predicate IsNearest(n: int, thousandths: int) {
    -500 < 1000 * n - thousandths <= 500
  }

  /** `t` is that number where it lies between `lo` and `hi`, and the nearer end otherwise. */
  predicate IsNearestWithin(t: int, thousandths: int, lo: int, hi: int) {
    && lo <= t <= hi
    && (t > lo ==> 1000 * t - thousandths <= 500)
    && (t < hi ==> 1000 * t - thousandths > -500)
  }

  /**
   * The buffering target is what the latency plays at the current rate, to the nearest point, between 1000 and one
   * less than the queue can hold.
   */
  lemma TargetIsLatency(rate: nat, latencyMs: nat, maxQueued: nat, t: int)
    requires maxQueued >= 1000
    ensures IsNearestWithin(t, rate * latencyMs, 1000, Max(1000, maxQueued - 1))
       <==> t == TargetBufferedPoints(rate, latencyMs, maxQueued)
  {
    NearestWithinOf(t, rate * latencyMs, 1000, Max(1000, maxQueued - 1));
  }

  lemma NearestWithinOf(t: int, thousandths: nat, lo: int, hi: int)
    requires lo <= hi
    ensures IsNearestWithin(t, thousandths, lo, hi) <==> t == Clamp((thousandths + 500) / 1000, lo, hi)
    ensures IsNearest((thousandths + 500) / 1000, thousandths)
  {}

  /** Inside its bounds the target is within half a point of rate times latency; nothing allowed is nearer. */
  lemma TargetIsNear(rate: nat, latencyMs: nat, maxQueued: nat)
    requires maxQueued >= 1000
    ensures var t, exact, hi := TargetBufferedPoints(rate, latencyMs, maxQueued), rate * latencyMs, Max(1000, maxQueued - 1);
      && (1_000_000 <= exact <= 1000 * hi ==> -500 <= 1000 * t - exact <= 500)
      && (exact < 1_000_000 ==> t == 1000) && (exact > 1000 * hi ==> t == hi)
  {
    TargetIsLatency(rate, latencyMs, maxQueued, TargetBufferedPoints(rate, latencyMs, maxQueued));
  }

  /** The least limit: the points of `ms` milliseconds, or 3000 while no rate is known. */
  predicate IsLeastLimit(minimum: int, rate: nat, ms: nat) {
    if rate > 0 then IsNearest(minimum, rate * ms) else minimum == 3000
  }

  lemma LeastLimitOf(rate: nat, ms: nat, minimum: int)
    ensures IsLeastLimit(minimum, rate, ms) <==> minimum == MinimumPoints(rate, ms)
  {}
}
