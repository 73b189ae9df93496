/** The penalty ramps of the scorer, over reals. */
module Penalties {

  /** `math.Round` on non-negative values. */
  function Round(x: real): int {
    (x + 0.5).Floor
  }

  function Clamp01(x: real): (r: real)
    ensures 0.0 <= r <= 1.0
    ensures 0.0 <= x <= 1.0 ==> r == x
  {
    if x < 0.0 then 0.0 else if x > 1.0 then 1.0 else x
  }

  function DomainRamp(ratio: real): real {
    40.0 * Clamp01((0.30 - ratio) / 0.30)
  }

  /** `domainPresencePenalty`. */
  function DomainPresencePenalty(ratio: real): (p: int)
    ensures 0 <= p <= 40
    ensures ratio >= 0.30 ==> p == 0
    ensures ratio <= 0.0 ==> p == 40
  {
    RampLow(ratio);
    RampHigh(ratio);
    Round(DomainRamp(ratio))
  }

  lemma RampLow(ratio: real)
    ensures ratio <= 0.0 ==> DomainRamp(ratio) == 40.0
  {
  }

  lemma RampHigh(ratio: real)
    ensures ratio >= 0.30 ==> DomainRamp(ratio) == 0.0
  {
  }

  function HubRamp(ratio: real): (p: real)
    requires 0.0 <= ratio
    ensures 0.0 <= p <= 20.0
  {
    if ratio >= 0.5 then 20.0
    else if ratio >= 0.3 then 12.0 + (ratio - 0.3) / (0.5 - 0.3) * (20.0 - 12.0)
    else ratio / 0.3 * 12.0
  }

  /** `hubSeverityPenalty`. */
  function HubSeverityPenalty(ratio: real): (p: int)
    requires 0.0 <= ratio
    ensures 0 <= p <= 20
    ensures ratio >= 0.5 ==> p == 20
    ensures ratio == 0.3 ==> p == 12
    ensures ratio == 0.0 ==> p == 0
  {
    Round(HubRamp(ratio))
  }

  lemma RoundMonotone(x: real, y: real)
    requires x <= y
    ensures Round(x) <= Round(y)
  {
  }

  /** A better domain ratio never raises the penalty. */
  lemma DomainMonotone(low: real, high: real)
    requires low <= high
    ensures DomainPresencePenalty(high) <= DomainPresencePenalty(low)
  {
    assert (0.30 - high) / 0.30 <= (0.30 - low) / 0.30;
    RoundMonotone(DomainRamp(high), DomainRamp(low));
  }

  /** The comment's "strictly lowers" fails for small improvements: rounding absorbs them. */
  lemma DomainNotStrict()
    ensures 0.298 < 0.299 < 0.30 && DomainPresencePenalty(0.298) == DomainPresencePenalty(0.299)
  {
    assert DomainRamp(0.298) < 0.5 && DomainRamp(0.299) < 0.5;
  }

  /** The ratio up to which the penalty is at least `k`. */
  function DomainThreshold(k: int): real {
    0.30 - 0.0075 * (k as real - 0.5)
  }

  /** The level sets of the penalty. */
  lemma DomainLevel(ratio: real, k: int)
    requires 1 <= k <= 40
    ensures DomainPresencePenalty(ratio) >= k <==> ratio <= DomainThreshold(k)
  {
    var gap := (0.30 - ratio) / 0.30;
    assert DomainRamp(ratio) + 0.5 >= k as real <==> 40.0 * gap + 0.5 >= k as real;
  }

  /** Exactly when an improvement shows: the penalty strictly falls if and only if the step from `low` to
      `high` passes one of the forty thresholds. */
  lemma DomainStrictIff(low: real, high: real)
    requires low <= high
    ensures DomainPresencePenalty(high) < DomainPresencePenalty(low) <==>
      exists k :: 1 <= k <= 40 && low <= DomainThreshold(k) < high
  {
    if DomainPresencePenalty(high) < DomainPresencePenalty(low) {
      var k := DomainPresencePenalty(low);
      DomainLevel(low, k);
      DomainLevel(high, k);
      assert low <= DomainThreshold(k) < high;
    }
    if k :| 1 <= k <= 40 && low <= DomainThreshold(k) < high {
      DomainLevel(low, k);
      DomainLevel(high, k);
    }
  }

  /** So an improvement of three quarters of a percentage point below 0.30 always shows. */
  lemma DomainStrictFromStep(low: real, high: real)
    requires 0.0 <= low && low + 0.0075 <= high <= 0.30
    ensures DomainPresencePenalty(high) < DomainPresencePenalty(low)
  {
    DomainStrictIff(low, high);
    DomainLevel(low, 1);
    var k := DomainPresencePenalty(low);
    DomainLevel(low, k);
    if k < 40 {
      DomainLevel(low, k + 1);
    }
    assert low <= DomainThreshold(k) < high;
  }

  /** The ratio from which the hub penalty is at least `k`: both segments of the ramp have the same
      slope, so one line of thresholds serves them. */
  function HubThreshold(k: int): real {
    0.025 * (k as real - 0.5)
  }

  lemma HubLevel(ratio: real, k: int)
    requires 0.0 <= ratio && 1 <= k <= 20
    ensures HubSeverityPenalty(ratio) >= k <==> ratio >= HubThreshold(k)
  {
    assert ratio < 0.5 ==> HubRamp(ratio) == 40.0 * ratio;
  }

  /** Exactly when a lower hub ratio shows in the penalty. */
  lemma HubStrictIff(low: real, high: real)
    requires 0.0 <= low <= high
    ensures HubSeverityPenalty(low) < HubSeverityPenalty(high) <==>
      exists k :: 1 <= k <= 20 && low < HubThreshold(k) <= high
  {
    if HubSeverityPenalty(low) < HubSeverityPenalty(high) {
      var k := HubSeverityPenalty(high);
      HubLevel(low, k);
      HubLevel(high, k);
      assert low < HubThreshold(k) <= high;
    }
    if k :| 1 <= k <= 20 && low < HubThreshold(k) <= high {
      HubLevel(low, k);
      HubLevel(high, k);
    }
  }

  /** A lower hub ratio never raises the penalty. */
  lemma HubMonotone(low: real, high: real)
    requires 0.0 <= low <= high
    ensures HubSeverityPenalty(low) <= HubSeverityPenalty(high)
  {
    RoundMonotone(HubRamp(low), HubRamp(high));
  }
}
