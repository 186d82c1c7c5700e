/** The contractor settings the estimator reads (app.js:9-23) and the
    ranges `readSettingsFromUI` clamps them into before they are saved
    (app.js:484-493). */
module Config {
  import opened Basics

  /** budgetYen None stands for "no budget" (Infinity in the program);
      horizonYears 0 stands for an unset horizon, which the economics
      treat as 15 years. */
  datatype Settings = Settings(
    profitRatePct: real,
    fixedFeeYen: real,
    defaultUnitPrice: real,
    nightPct: real,
    pvYieldPerKwDay: real,
    pvMinKw: real,
    pvMaxKw: real,
    pvStepKw: real,
    horizonYears: nat,
    budgetYen: Option<real>,
    useBattery: bool)

  const Defaults: Settings :=
    Settings(20.0, 1500.0, 34.0, 70.0, 3.1, 1.0, 13.5, 0.01, 0, None, false)

  /** The ranges the clamps of `readSettingsFromUI` establish. */
  predicate Sanitized(s: Settings)
  {
    && -50.0 <= s.profitRatePct <= 300.0
    && 0.0 <= s.fixedFeeYen <= 99999.0
    && 1.0 <= s.defaultUnitPrice <= 200.0
    && 10.0 <= s.nightPct <= 95.0
    && 0.5 <= s.pvYieldPerKwDay <= 8.0
    && 0.5 <= s.pvMinKw <= 50.0
    && s.pvMinKw <= s.pvMaxKw <= 60.0
    && 0.01 <= s.pvStepKw <= 1.0
  }

  /** The clamps of `readSettingsFromUI`, in its order: the PV maximum is
      clamped against the already clamped minimum. */
  function Sanitize(s: Settings): (r: Settings)
    ensures Sanitized(r)
    ensures Sanitized(s) ==> r == s
    ensures r.horizonYears == s.horizonYears && r.budgetYen == s.budgetYen && r.useBattery == s.useBattery
  {
    var pvMin := Clamp(s.pvMinKw, 0.5, 50.0);
    s.(profitRatePct := Clamp(s.profitRatePct, -50.0, 300.0),
       fixedFeeYen := Clamp(s.fixedFeeYen, 0.0, 99999.0),
       defaultUnitPrice := Clamp(s.defaultUnitPrice, 1.0, 200.0),
       nightPct := Clamp(s.nightPct, 10.0, 95.0),
       pvYieldPerKwDay := Clamp(s.pvYieldPerKwDay, 0.5, 8.0),
       pvMinKw := pvMin,
       pvMaxKw := Clamp(s.pvMaxKw, pvMin, 60.0),
       pvStepKw := Clamp(s.pvStepKw, 0.01, 1.0))
  }

  /** Saving the settings twice changes nothing the second time, and the
      built-in defaults already lie inside the clamped ranges. */
  lemma SanitizeIdempotent(s: Settings)
    ensures Sanitize(Sanitize(s)) == Sanitize(s)
    ensures Sanitize(Defaults) == Defaults
  {
  }
}
