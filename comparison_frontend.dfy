/** The frontend's twin of the comparison arithmetic (frontend/src/core/domain/Comparison.ts).
    It takes its arguments in the order (comparison, baseline), does not round, and
    uses a strict comparison against the target. */
module FrontendComparison {
  import Calculations

  /** Unrounded percentage difference; a zero baseline gives 0. */
  function PercentDifference(comparison: real, baseline: real): (pct: real)
    ensures baseline == 0.0 ==> pct == 0.0
    ensures baseline != 0.0 ==> pct * baseline == (comparison - baseline) * 100.0
  {
    if baseline == 0.0 then 0.0 else (comparison / baseline - 1.0) * 100.0
  }

  /** Strictly below the target: a route exactly at the target does not comply. */
  predicate IsCompliant(ghgIntensity: real, target: real)
  {
    ghgIntensity < target
  }

  /** Comparing a non-zero baseline with itself gives exactly 0%. */
  lemma PercentDifferenceOfEqual(baseline: real)
    requires baseline != 0.0
    ensures PercentDifference(baseline, baseline) == 0.0
  {
  }

  /** The backend value is the frontend value, arguments swapped, rounded to cents. */
  lemma BackendIsRoundedFrontend(baseline: real, comparison: real)
    ensures Calculations.PercentDifference(baseline, comparison)
         == (if baseline == 0.0 then 0.0 else Calculations.Round2(PercentDifference(comparison, baseline)))
  {
  }

  /** The two compliance checks agree everywhere except exactly at the target,
      where the backend says compliant and the frontend says not. */
  lemma CompliantChecksDifferOnlyAtTarget(ghgIntensity: real, target: real)
    ensures IsCompliant(ghgIntensity, target) ==> Calculations.IsCompliant(ghgIntensity, target)
    ensures (Calculations.IsCompliant(ghgIntensity, target) && !IsCompliant(ghgIntensity, target))
            <==> ghgIntensity == target
  {
  }
}
