/** The backend's compliance-balance arithmetic
    (backend/src/shared/utils/calculations.util.ts). Numbers are `real`;
    JavaScript's `Math.round(y)` is `floor(y + 0.5)`. */
module Calculations {
  import opened FuelEUConstants

  /** An amount that is a whole number of cents. */
  predicate WholeCents(r: real)
  {
    (r * 100.0).Floor as real == r * 100.0
  }

  /** `Math.round(x * 100) / 100`: rounds to the nearest cent, halves upwards. Being in
      whole cents and within (x - 0.005, x + 0.005] pins the result to one value. */
  function Round2(x: real): (r: real)
    ensures WholeCents(r)
    ensures x - 0.005 < r <= x + 0.005
  {
    (x * 100.0 + 0.5).Floor as real / 100.0
  }

  /** Energy in scope (MJ) of a fuel consumption given in tonnes. */
  function EnergyInScope(fuelConsumption: real): (energy: real)
    ensures energy / EnergyPerTonne == fuelConsumption
    ensures fuelConsumption > 0.0 ==> energy > 0.0
  {
    fuelConsumption * EnergyPerTonne
  }

  /** Compliance balance in gCO2e: (target - actual) x energy, rounded to cents.
      Positive is a surplus, negative a deficit. */
  function ComplianceBalance(actualGhgIntensity: real, fuelConsumption: real,
                             targetIntensity: real := TargetGhgIntensity2025): (cb: real)
    ensures WholeCents(cb)
    ensures var exact := (targetIntensity - actualGhgIntensity) * fuelConsumption * EnergyPerTonne;
            exact - 0.005 < cb <= exact + 0.005
  {
    Round2((targetIntensity - actualGhgIntensity) * EnergyInScope(fuelConsumption))
  }

  /** Percentage difference of `comparison` against `baseline`, rounded to cents;
      a zero baseline gives 0 rather than a division by zero. */
  function PercentDifference(baseline: real, comparison: real): (pct: real)
    ensures baseline == 0.0 ==> pct == 0.0
    ensures WholeCents(pct)
    ensures baseline != 0.0 ==>
              var exact := (comparison / baseline - 1.0) * 100.0;
              exact - 0.005 < pct <= exact + 0.005
  {
    if baseline == 0.0 then 0.0 else Round2((comparison / baseline - 1.0) * 100.0)
  }

  /** A route complies when its intensity does not exceed the target (boundary included). */
  predicate IsCompliant(ghgIntensity: real, targetIntensity: real := TargetGhgIntensity2025)
  {
    ghgIntensity <= targetIntensity
  }

  // ---------------------------------------------------------------------------
  // Rounding

  /** Rounding keeps the sign of a non-negative or non-positive value. */
  lemma Round2KeepsSign(x: real)
    ensures x >= 0.0 ==> Round2(x) >= 0.0
    ensures x <= 0.0 ==> Round2(x) <= 0.0
  {
    var y := x * 100.0 + 0.5;
    if x <= 0.0 {
      assert y <= 0.5;
      assert y.Floor <= 0;
    }
  }

  /** Rounding is monotone. */
  lemma Round2Monotone(x: real, y: real)
    requires x <= y
    ensures Round2(x) <= Round2(y)
  {
    assert (x * 100.0 + 0.5).Floor <= (y * 100.0 + 0.5).Floor;
  }

  /** A whole number of cents is left as it is. */
  lemma Round2OfCents(c: int)
    ensures Round2(c as real / 100.0) == c as real / 100.0
  {
    var y := (c as real / 100.0) * 100.0 + 0.5;
    assert y == c as real + 0.5;
    assert y.Floor == c;
  }

  /** Round2 is the only amount in whole cents within half a cent of `x` (halves upwards). */
  lemma Round2Unique(x: real, r: real)
    requires WholeCents(r) && x - 0.005 < r <= x + 0.005
    ensures r == Round2(x)
  {
    var c := (r * 100.0).Floor;
    assert r * 100.0 == c as real;
    var y := x * 100.0 + 0.5;
    assert c as real <= y < c as real + 1.0;
    assert y.Floor == c;
  }

  // ---------------------------------------------------------------------------
  // Compliance balance

  /** A ship exactly at the target has a zero balance, whatever its consumption. */
  lemma ComplianceBalanceZeroAtTarget(fuelConsumption: real, targetIntensity: real)
    ensures ComplianceBalance(targetIntensity, fuelConsumption, targetIntensity) == 0.0
  {
    Round2OfCents(0);
  }

  /** With a positive consumption, beating the target gives a surplus (CB >= 0) and
      missing it a deficit (CB <= 0). */
  lemma ComplianceBalanceSign(actualGhgIntensity: real, fuelConsumption: real, targetIntensity: real)
    requires fuelConsumption > 0.0
    ensures actualGhgIntensity < targetIntensity ==>
              ComplianceBalance(actualGhgIntensity, fuelConsumption, targetIntensity) >= 0.0
    ensures actualGhgIntensity > targetIntensity ==>
              ComplianceBalance(actualGhgIntensity, fuelConsumption, targetIntensity) <= 0.0
  {
    var raw := (targetIntensity - actualGhgIntensity) * EnergyInScope(fuelConsumption);
    if actualGhgIntensity < targetIntensity {
      assert raw > 0.0;
    } else if actualGhgIntensity > targetIntensity {
      assert raw < 0.0;
    }
    Round2KeepsSign(raw);
  }

  /** The default target is the 2025 constant. */
  lemma ComplianceBalanceDefaultTarget(actualGhgIntensity: real, fuelConsumption: real)
    ensures ComplianceBalance(actualGhgIntensity, fuelConsumption)
         == ComplianceBalance(actualGhgIntensity, fuelConsumption, 89.3368)
  {
  }

  /** A worked value: 1000 t at 85 gCO2e/MJ gives 4.3368 x 41,000,000 = 177,808,800 gCO2e. */
  lemma ComplianceBalanceExample()
    ensures ComplianceBalance(85.0, 1000.0) == 177808800.0
  {
    assert (TargetGhgIntensity2025 - 85.0) * EnergyInScope(1000.0) == 17780880000 as real / 100.0;
    Round2OfCents(17780880000);
  }

  // ---------------------------------------------------------------------------
  // Percent difference

  /** Comparing a non-zero baseline with itself gives 0%. */
  lemma PercentDifferenceOfEqual(baseline: real)
    requires baseline != 0.0
    ensures PercentDifference(baseline, baseline) == 0.0
  {
    assert (baseline / baseline - 1.0) * 100.0 == 0 as real / 100.0;
    Round2OfCents(0);
  }

  /** A comparison above a positive baseline never gives a negative difference. */
  lemma PercentDifferenceNonNegative(baseline: real, comparison: real)
    requires 0.0 < baseline < comparison
    ensures PercentDifference(baseline, comparison) >= 0.0
  {
    var raw := (comparison / baseline - 1.0) * 100.0;
    assert comparison / baseline > 1.0;
    Round2KeepsSign(raw);
  }

  /** It is strictly positive once the raw difference reaches half a cent of a percent. */
  lemma PercentDifferencePositive(baseline: real, comparison: real)
    requires 0.0 < baseline
    requires (comparison / baseline - 1.0) * 100.0 >= 0.005
    ensures PercentDifference(baseline, comparison) > 0.0
  {
    var raw := (comparison / baseline - 1.0) * 100.0;
    assert raw * 100.0 + 0.5 >= 1.0;
    assert (raw * 100.0 + 0.5).Floor >= 1;
  }

  /** ... but a smaller increase rounds to 0%: 100000 -> 100001 is +0.001%, reported as 0. */
  lemma PercentDifferenceRoundsSmallIncreaseToZero()
    ensures PercentDifference(100000.0, 100001.0) == 0.0
  {
    var raw := (100001.0 / 100000.0 - 1.0) * 100.0;
    assert raw == 0.001;
    assert (raw * 100.0 + 0.5).Floor == 0;
  }

  /** A worked value: 100 -> 110 is +10.00%. */
  lemma PercentDifferenceExample()
    ensures PercentDifference(100.0, 110.0) == 10.0
  {
    assert (110.0 / 100.0 - 1.0) * 100.0 == 1000 as real / 100.0;
    Round2OfCents(1000);
  }

  // ---------------------------------------------------------------------------
  // Compliance check

  /** The boundary is compliant, and anything above the target is not. */
  lemma IsCompliantBoundary(targetIntensity: real, ghgIntensity: real)
    ensures IsCompliant(targetIntensity, targetIntensity)
    ensures ghgIntensity > targetIntensity ==> !IsCompliant(ghgIntensity, targetIntensity)
  {
  }
}
