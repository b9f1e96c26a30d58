/** The frontend's mirror of the compliance constants, used for display and client-side checks. */
module FrontendComplianceMath {
  import ComplianceMath

  const REFERENCE_INTENSITY: real := 91.16
  const TARGET_INTENSITY_2025: real := 89.3368
  const MJ_PER_TONNE: real := 41000.0

  function TargetIntensity(year: int): (t: real)
    ensures t == ComplianceMath.TargetIntensity(year)
  {
    TARGET_INTENSITY_2025
  }

  function PercentDiff(comparison: real, baseline: real): (d: real)
    ensures baseline == 0.0 ==> d == 0.0
    ensures d == ComplianceMath.PercentDiff(comparison, baseline)
  {
    if baseline == 0.0 then 0.0 else ((comparison / baseline) - 1.0) * 100.0
  }

  function IsCompliant(ghgIntensity: real, year: int): (ok: bool)
    ensures ok <==> ghgIntensity <= TARGET_INTENSITY_2025
    ensures ok == ComplianceMath.IsCompliant(ghgIntensity, year)
  {
    ghgIntensity <= TargetIntensity(year)
  }

  /** The frontend constants are the backend's. */
  lemma ConstantsAgree()
    ensures REFERENCE_INTENSITY == ComplianceMath.REFERENCE_INTENSITY
    ensures TARGET_INTENSITY_2025 == ComplianceMath.TARGET_INTENSITY_2025
    ensures MJ_PER_TONNE == ComplianceMath.MJ_PER_TONNE
  {
  }
}
