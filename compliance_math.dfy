/**
 * The compliance arithmetic of the backend (FuelEU Maritime, Regulation (EU) 2023/1805,
 * simplified): one flat target intensity, the compliance balance (CB) formula,
 * the percent difference against a baseline and the boundary-inclusive compliance test.
 * Amounts are exact reals; `Math.round(x * 100) / 100` is Round2.
 */
module ComplianceMath {

  /** Reference GHG intensity, gCO2e/MJ. */
  const REFERENCE_INTENSITY: real := 91.16
  /** The 2025 target: 2 % below the reference. */
  const TARGET_INTENSITY_2025: real := 89.3368
  /** Energy conversion factor, MJ per tonne of fuel. */
  const MJ_PER_TONNE: real := 41000.0

  lemma TargetIsTwoPercentBelowReference()
    ensures TARGET_INTENSITY_2025 == REFERENCE_INTENSITY * 0.98
  {
  }

  /** Target intensity for a year: every year uses the 2025 target. */
  function TargetIntensity(year: int): (t: real)
    ensures t == TARGET_INTENSITY_2025
  {
    TARGET_INTENSITY_2025
  }

  lemma TargetIgnoresYear(y1: int, y2: int)
    ensures TargetIntensity(y1) == TargetIntensity(y2)
  {
  }

  /** CB = (target - ghgIntensity) * fuelConsumption * 41000; positive is a surplus. */
  function ComplianceBalance(ghgIntensity: real, fuelConsumption: real, year: int): (cb: real)
    ensures fuelConsumption > 0.0 ==> (cb > 0.0 <==> ghgIntensity < TargetIntensity(year))
    ensures fuelConsumption > 0.0 ==> (cb < 0.0 <==> ghgIntensity > TargetIntensity(year))
    ensures ghgIntensity == TargetIntensity(year) || fuelConsumption == 0.0 ==> cb == 0.0
  {
    var target := TargetIntensity(year);
    var energyInScope := fuelConsumption * MJ_PER_TONNE;
    ProductSign(target - ghgIntensity, energyInScope);
    (target - ghgIntensity) * energyInScope
  }

  lemma ProductSign(a: real, b: real)
    ensures b > 0.0 ==> (a * b > 0.0 <==> a > 0.0)
    ensures b > 0.0 ==> (a * b < 0.0 <==> a < 0.0)
  {
    if b <= 0.0 {
    } else if a > 0.0 {
      assert a * b > 0.0;
    } else if a < 0.0 {
      assert (-a) * b > 0.0;
    }
  }

  /** CB is linear in the fuel consumed. */
  lemma BalanceLinearInFuel(ghgIntensity: real, fuelConsumption: real, year: int, k: real)
    ensures ComplianceBalance(ghgIntensity, k * fuelConsumption, year)
         == k * ComplianceBalance(ghgIntensity, fuelConsumption, year)
  {
  }

  /** ((comparison / baseline) - 1) * 100, and 0 when the baseline is 0. */
  function PercentDiff(comparisonIntensity: real, baselineIntensity: real): (d: real)
    ensures baselineIntensity == 0.0 ==> d == 0.0
    ensures comparisonIntensity == baselineIntensity ==> d == 0.0
    ensures baselineIntensity > 0.0 ==> (d > 0.0 <==> comparisonIntensity > baselineIntensity)
    ensures baselineIntensity > 0.0 ==> (d < 0.0 <==> comparisonIntensity < baselineIntensity)
  {
    if baselineIntensity == 0.0 then 0.0
    else
      QuotientAgainstOne(comparisonIntensity, baselineIntensity);
      ((comparisonIntensity / baselineIntensity) - 1.0) * 100.0
  }

  lemma QuotientAgainstOne(c: real, b: real)
    requires b != 0.0
    ensures c == b ==> c / b == 1.0
    ensures b > 0.0 ==> (c / b > 1.0 <==> c > b)
    ensures b > 0.0 ==> (c / b < 1.0 <==> c < b)
  {
    if b > 0.0 {
      assert (c / b) * b == c;
      if c / b > 1.0 {
        assert (c / b - 1.0) * b > 0.0;
      } else if c / b < 1.0 {
        assert (1.0 - c / b) * b > 0.0;
      }
    }
  }

  /** A route is compliant when its intensity does not exceed the target (boundary included). */
  function IsCompliant(ghgIntensity: real, year: int): (ok: bool)
    ensures ok <==> ghgIntensity <= TARGET_INTENSITY_2025
  {
    ghgIntensity <= TargetIntensity(year)
  }

  /** For a positive fuel quantity, compliance is exactly a non-negative CB. */
  lemma CompliantIffBalanceNonNegative(ghgIntensity: real, fuelConsumption: real, year: int)
    requires fuelConsumption > 0.0
    ensures IsCompliant(ghgIntensity, year) <==> ComplianceBalance(ghgIntensity, fuelConsumption, year) >= 0.0
  {
  }

  /** `Math.round(x * 100) / 100`: JavaScript rounds halves towards +infinity. */
  function Round2(x: real): (r: real)
    ensures x - 0.005 < r <= x + 0.005
  {
    ((x * 100.0 + 0.5).Floor as real) / 100.0
  }

  /** x is a whole number of hundredths. */
  predicate IsCents(x: real) {
    (x * 100.0).Floor as real == x * 100.0
  }

  lemma RoundCentsIsIdentity(x: real)
    requires IsCents(x)
    ensures Round2(x) == x
  {
    var n := (x * 100.0).Floor;
    assert (x * 100.0 + 0.5).Floor == n;
  }

  lemma RoundMonotone(x: real, y: real)
    requires x <= y
    ensures Round2(x) <= Round2(y)
  {
    var fx := (x * 100.0 + 0.5).Floor;
    var fy := (y * 100.0 + 0.5).Floor;
    assert fx as real <= y * 100.0 + 0.5 < fy as real + 1.0;
    assert fx <= fy;
  }

  /** Rounding to cents never flips a sign, and keeps 0 at 0. */
  lemma RoundKeepsSign(x: real)
    ensures x >= 0.0 ==> Round2(x) >= 0.0
    ensures x <= 0.0 ==> Round2(x) <= 0.0
    ensures x == 0.0 ==> Round2(x) == 0.0
  {
    RoundCentsIsIdentity(0.0);
    if x >= 0.0 {
      RoundMonotone(0.0, x);
    } else {
      RoundMonotone(x, 0.0);
    }
  }

  lemma RoundIsCents(x: real)
    ensures IsCents(Round2(x))
  {
    var n := (x * 100.0 + 0.5).Floor;
    assert Round2(x) * 100.0 == n as real;
  }
}
