/** The economics of one PV + battery configuration (app.js:157-231):
    benefit over the horizon, payback year, net profit and ROI. */
module Economics {
  import opened Basics
  import opened Tariff
  import opened Flows
  import opened Pricing
  import opened Config

  const DaysPerYear: real := 365.0
  const DaysPerMonth: real := 30.0

  /** `paybackYears` looks at most this many years ahead, whatever the
      horizon of the economics is. */
  const PaybackHorizon: nat := 15

  /** `settings.horizonYears || 15`. */
  function HorizonYears(h: nat): (y: nat)
    ensures y >= 1
  {
    if h == 0 then 15 else h
  }

  /** Feed-in revenue of year y: what is sold each day, at that year's
      rate, for a year. */
  function YearRevenue(t: seq<Segment>, pvSold: real, y: int): real
  {
    pvSold * YearlyFitRate(t, y) * DaysPerYear
  }

  /** Feed-in revenue over years 1..n. */
  function RevenueYen(t: seq<Segment>, pvSold: real, n: nat): real
    decreases n
  {
    if n == 0 then 0.0 else RevenueYen(t, pvSold, n - 1) + YearRevenue(t, pvSold, n)
  }

  datatype Econ = Econ(
    usageKwhMonth: real, usageKwhDay: real, flows: Flows,
    annualAvoidYen: real, years: nat, avoidYen: real, revenueYen: real, benefitYen: real)

  /** What `estimate15yEconomics` computes. */
  function Econ15y(pvKw: real, batKwh: real, unitPrice: real, billYen: real, s: Settings, t: seq<Segment>): Econ
  {
    var usageKwhMonth := BillToUsageKwhMonth(billYen, unitPrice, s.fixedFeeYen).usageKwhMonth;
    var usageKwhDay := usageKwhMonth / DaysPerMonth;
    var flows := DailyFlows(pvKw, batKwh, usageKwhDay, s.nightPct, s.pvYieldPerKwDay);
    EconOver(usageKwhMonth, usageKwhDay, flows, unitPrice, HorizonYears(s.horizonYears), t)
  }

  /** The money side of `estimate15yEconomics`, once the daily flows are
      known. */
  function EconOver(usageKwhMonth: real, usageKwhDay: real, flows: Flows, unitPrice: real, years: nat, t: seq<Segment>): Econ
  {
    var annualAvoidYen := flows.selfConsumption * unitPrice * DaysPerYear;
    var revenueYen := RevenueYen(t, flows.pvSold, years);
    var avoidYen := annualAvoidYen * years as real;
    Econ(usageKwhMonth, usageKwhDay, flows, annualAvoidYen, years, avoidYen, revenueYen, avoidYen + revenueYen)
  }

  /** The revenue loop of `estimate15yEconomics`: the feed-in revenue of
      years 1..years, one year at a time. */
  method FitRevenue(t: seq<Segment>, pvSold: real, years: nat) returns (revenueYen: real)
    ensures revenueYen == RevenueYen(t, pvSold, years)
  {
    revenueYen := 0.0;
    var y := 1;
    while y <= years
      invariant 1 <= y <= years + 1
      invariant revenueYen == RevenueYen(t, pvSold, y - 1)
    {
      revenueYen := revenueYen + YearRevenue(t, pvSold, y);
      y := y + 1;
    }
  }

  /** `estimate15yEconomics`. */
  method Estimate15yEconomics(pvKw: real, batKwh: real, unitPrice: real, billYen: real, s: Settings, t: seq<Segment>)
    returns (e: Econ)
    ensures e == Econ15y(pvKw, batKwh, unitPrice, billYen, s, t)
  {
    var usageKwhMonth := BillToUsageKwhMonth(billYen, unitPrice, s.fixedFeeYen).usageKwhMonth;
    var usageKwhDay := usageKwhMonth / DaysPerMonth;
    var flows := DailyFlows(pvKw, batKwh, usageKwhDay, s.nightPct, s.pvYieldPerKwDay);
    var annualAvoidYen := flows.selfConsumption * unitPrice * DaysPerYear;
    var years := HorizonYears(s.horizonYears);
    var revenueYen := FitRevenue(t, flows.pvSold, years);
    var avoidYen := annualAvoidYen * years as real;
    e := Econ(usageKwhMonth, usageKwhDay, flows, annualAvoidYen, years, avoidYen, revenueYen, avoidYen + revenueYen);
  }

  /** The `yearlyBenefits` closure of `evaluateCombo`, by what it
      captures: the yearly avoided purchases, the energy sold per day and
      the tariff table. */
  datatype Benefits = Benefits(annualAvoidYen: real, pvSold: real, tariffs: seq<Segment>)

  /** The closure applied to year y: avoided purchases plus that year's
      feed-in revenue. */
  function BenefitAt(b: Benefits, y: int): real
  {
    b.annualAvoidYen + YearRevenue(b.tariffs, b.pvSold, y)
  }

  /** The closure itself, as `paybackYears` receives it. */
  function YearlyBenefits(b: Benefits): int -> real
  {
    y => BenefitAt(b, y)
  }

  /** Benefit accumulated over years 1..n. */
  function Cumulative(yearly: int -> real, n: nat): real
    decreases n
  {
    if n == 0 then 0.0 else Cumulative(yearly, n - 1) + yearly(n)
  }

  /** Summing the yearly benefits is summing the avoided purchases and the
      feed-in revenue separately. */
  lemma CumulativeSplits(b: Benefits, n: nat)
    ensures Cumulative(YearlyBenefits(b), n) == b.annualAvoidYen * n as real + RevenueYen(b.tariffs, b.pvSold, n)
  {
    CumulativeSplitsSum(b, n);
    RepeatedIsProduct(b.annualAvoidYen, n);
  }

  /** n copies of `a` added up. */
  function Repeated(a: real, n: nat): real
  {
    if n == 0 then 0.0 else Repeated(a, n - 1) + a
  }

  lemma {:induction false} RepeatedIsProduct(a: real, n: nat)
    ensures Repeated(a, n) == a * n as real
  {
    if n > 0 {
      RepeatedIsProduct(a, n - 1);
      assert a * n as real == a * (n - 1) as real + a;
    }
  }

  lemma {:induction false} CumulativeSplitsSum(b: Benefits, n: nat)
    ensures Cumulative(YearlyBenefits(b), n) == Repeated(b.annualAvoidYen, n) + RevenueYen(b.tariffs, b.pvSold, n)
  {
    if n > 0 {
      CumulativeSplitsSum(b, n - 1);
      assert YearlyBenefits(b)(n) == b.annualAvoidYen + YearRevenue(b.tariffs, b.pvSold, n);
    }
  }

  /** The benefit over the horizon is the yearly benefits summed over the
      horizon: the same sums the payback search accumulates. */
  lemma BenefitIsCumulative(pvKw: real, batKwh: real, unitPrice: real, billYen: real, s: Settings, t: seq<Segment>)
    ensures var e := Econ15y(pvKw, batKwh, unitPrice, billYen, s, t);
      && e.years == HorizonYears(s.horizonYears)
      && e.benefitYen == Cumulative(YearlyBenefits(BenefitsOf(e, unitPrice, t)), e.years)
  {
    var usageKwhMonth := BillToUsageKwhMonth(billYen, unitPrice, s.fixedFeeYen).usageKwhMonth;
    var usageKwhDay := usageKwhMonth / DaysPerMonth;
    var flows := DailyFlows(pvKw, batKwh, usageKwhDay, s.nightPct, s.pvYieldPerKwDay);
    EconOverSums(usageKwhMonth, usageKwhDay, flows, unitPrice, HorizonYears(s.horizonYears), t);
  }

  lemma EconOverSums(usageKwhMonth: real, usageKwhDay: real, flows: Flows, unitPrice: real, years: nat, t: seq<Segment>)
    ensures var e := EconOver(usageKwhMonth, usageKwhDay, flows, unitPrice, years, t);
      && e.years == years
      && e.benefitYen == Cumulative(YearlyBenefits(BenefitsOf(e, unitPrice, t)), e.years)
  {
    var e := EconOver(usageKwhMonth, usageKwhDay, flows, unitPrice, years, t);
    var b := Benefits(flows.selfConsumption * unitPrice * DaysPerYear, flows.pvSold, t);
    assert e.flows == flows && e.years == years && e.annualAvoidYen == b.annualAvoidYen;
    assert e.avoidYen == b.annualAvoidYen * years as real;
    assert BenefitsOf(e, unitPrice, t) == b;
    CumulativeSplits(b, years);
  }

  /** With the built-in tariff table, fifteen years of feed-in revenue are
      pvSold * 365 * (4 * 24 + 6 * 8.3 + 5 * 8.5) = pvSold * 68729.5 yen. */
  lemma DefaultFifteenYearRevenue(pvSold: real)
    ensures RevenueYen(DefaultTariffs, pvSold, 15) == pvSold * 68729.5
  {
    forall y | 1 <= y <= 15 {
      DefaultTariffRates(y);
    }
    assert RevenueYen(DefaultTariffs, pvSold, 4) == pvSold * 24.0 * 4.0 * DaysPerYear;
    assert RevenueYen(DefaultTariffs, pvSold, 10)
        == pvSold * (24.0 * 4.0 + 8.3 * 6.0) * DaysPerYear;
    assert RevenueYen(DefaultTariffs, pvSold, 15)
        == pvSold * (24.0 * 4.0 + 8.3 * 6.0 + 8.5 * 5.0) * DaysPerYear;
  }

  datatype Payback = Finite(years: real) | Never

  /** The value `paybackYears` returns at year y, the first year whose
      cumulative benefit reaches the cost: the years before it plus the
      fraction of year y's benefit still needed. */
  function Interpolated(cost: real, yearly: int -> real, y: nat): real
    requires y >= 1
  {
    var annual := yearly(y);
    var prev := Cumulative(yearly, y) - annual;
    var remain := cost - prev;
    (y - 1) as real + (if annual > 0.0 then remain / annual else 1.0)
  }

  /** The search of `paybackYears` from year y on. */
  function PaybackFrom(cost: real, yearly: int -> real, y: nat): Payback
    requires y >= 1
    decreases PaybackHorizon + 1 - y
  {
    if y > PaybackHorizon then Never
    else if Cumulative(yearly, y) >= cost then Finite(Interpolated(cost, yearly, y))
    else PaybackFrom(cost, yearly, y + 1)
  }

  /** What `paybackYears(cost, yearly)` returns. */
  function PaybackOf(cost: real, yearly: int -> real): Payback
  {
    if !(yearly(1) > 0.0) then Never else PaybackFrom(cost, yearly, 1)
  }

  /** `paybackYears`: the loop with a running cumulative benefit and an
      early return at the first year that reaches the cost. */
  method PaybackYears(cost: real, yearly: int -> real) returns (p: Payback)
    ensures p == PaybackOf(cost, yearly)
  {
    if !(yearly(1) > 0.0) {
      return Never;
    }
    var cum := 0.0;
    var y := 1;
    while y <= PaybackHorizon
      invariant 1 <= y <= PaybackHorizon + 1
      invariant cum == Cumulative(yearly, y - 1)
      invariant PaybackFrom(cost, yearly, y) == PaybackOf(cost, yearly)
    {
      var annual := yearly(y);
      cum := cum + annual;
      if cum >= cost {
        var prev := cum - annual;
        var remain := cost - prev;
        var frac := if annual > 0.0 then remain / annual else 1.0;
        return Finite((y - 1) as real + frac);
      }
      y := y + 1;
    }
    return Never;
  }

  /** Year y is the first of the fifteen whose cumulative benefit reaches
      the cost. */
  ghost predicate FirstReaching(cost: real, yearly: int -> real, y: int)
  {
    1 <= y <= PaybackHorizon && Cumulative(yearly, y) >= cost
    && forall k :: 1 <= k < y ==> Cumulative(yearly, k) < cost
  }

  lemma {:induction false} PaybackFromReaches(cost: real, yearly: int -> real, k: nat, y: nat)
    requires 1 <= k <= y && FirstReaching(cost, yearly, y)
    ensures PaybackFrom(cost, yearly, k) == Finite(Interpolated(cost, yearly, y))
    decreases y - k
  {
    if k < y {
      PaybackFromReaches(cost, yearly, k + 1, y);
    }
  }

  lemma {:induction false} PaybackFromNever(cost: real, yearly: int -> real, k: nat)
    requires k >= 1
    ensures PaybackFrom(cost, yearly, k).Never?
        <==> forall j :: k <= j <= PaybackHorizon ==> Cumulative(yearly, j) < cost
    decreases PaybackHorizon + 1 - k
  {
    if k <= PaybackHorizon {
      PaybackFromNever(cost, yearly, k + 1);
      assert PaybackFrom(cost, yearly, k)
          == if Cumulative(yearly, k) >= cost then Finite(Interpolated(cost, yearly, k))
             else PaybackFrom(cost, yearly, k + 1);
    }
  }

  lemma {:induction false} PaybackFromFinite(cost: real, yearly: int -> real, k: nat) returns (y: nat)
    requires k >= 1 && PaybackFrom(cost, yearly, k).Finite?
    requires forall j :: 1 <= j < k ==> Cumulative(yearly, j) < cost
    ensures FirstReaching(cost, yearly, y)
    ensures PaybackFrom(cost, yearly, k) == Finite(Interpolated(cost, yearly, y))
    decreases PaybackHorizon + 1 - k
  {
    if Cumulative(yearly, k) >= cost {
      y := k;
    } else {
      y := PaybackFromFinite(cost, yearly, k + 1);
    }
  }

  /** `paybackYears` returns Never exactly when the first year's benefit is
      not positive or the cumulative benefit stays below the cost through
      year 15; otherwise it returns the interpolated value at the first
      year whose cumulative benefit reaches the cost. */
  lemma PaybackCharacterised(cost: real, yearly: int -> real)
    ensures PaybackOf(cost, yearly).Never?
        <==> !(yearly(1) > 0.0) || forall j :: 1 <= j <= PaybackHorizon ==> Cumulative(yearly, j) < cost
    ensures forall y :: (yearly(1) > 0.0 && FirstReaching(cost, yearly, y)
                         ==> PaybackOf(cost, yearly) == Finite(Interpolated(cost, yearly, y)))
    ensures PaybackOf(cost, yearly).Finite? ==>
        exists y :: FirstReaching(cost, yearly, y) && PaybackOf(cost, yearly) == Finite(Interpolated(cost, yearly, y))
  {
    PaybackFromNever(cost, yearly, 1);
    forall y | yearly(1) > 0.0 && FirstReaching(cost, yearly, y)
      ensures PaybackOf(cost, yearly) == Finite(Interpolated(cost, yearly, y))
    {
      PaybackFromReaches(cost, yearly, 1, y);
    }
    if PaybackOf(cost, yearly).Finite? {
      var y := PaybackFromFinite(cost, yearly, 1);
    }
  }

  lemma DivideWithinOne(a: real, b: real)
    requires 0.0 < a <= b
    ensures 0.0 < a / b <= 1.0
  {
  }

  /** For a positive cost a finite payback lies in (y - 1, y] for the year
      y that first reaches the cost, and so in (0, 15]. */
  lemma PaybackBracket(cost: real, yearly: int -> real, y: int)
    requires cost > 0.0 && yearly(1) > 0.0 && FirstReaching(cost, yearly, y)
    ensures PaybackOf(cost, yearly).Finite?
    ensures (y - 1) as real < PaybackOf(cost, yearly).years <= y as real
    ensures 0.0 < PaybackOf(cost, yearly).years <= PaybackHorizon as real
  {
    PaybackCharacterised(cost, yearly);
    var annual := yearly(y);
    var prev := Cumulative(yearly, y - 1);
    assert Cumulative(yearly, y) == prev + annual;
    assert prev < cost by {
      if y > 1 { assert Cumulative(yearly, y - 1) < cost; }
    }
    DivideWithinOne(cost - prev, annual);
  }

  datatype Roi = Ratio(value: real) | MinusInfinity

  /** One evaluated configuration. Sizes are integers: `pv` in units of
      0.01 kW and `bat` in units of 0.1 kWh. */
  datatype Eval = Eval(
    pv: int, bat: int, price: Price, econ: Econ,
    netProfit: real, roi: Roi, payback: Payback)

  function PvKw(pv: int): real
  {
    pv as real / 100.0
  }

  function BatKwh(bat: int): real
  {
    bat as real / 10.0
  }

  /** The part of `evaluateCombo` after the economics and the price are
      known: profit, ROI and payback. */
  function Assess(pv: int, bat: int, econ: Econ, price: Price, unitPrice: real, t: seq<Segment>): Eval
  {
    var netProfit := econ.benefitYen - price.median;
    var roi := if price.median > 0.0 then Ratio(netProfit / price.median) else MinusInfinity;
    Eval(pv, bat, price, econ, netProfit, roi, PaybackOf(price.median, YearlyBenefits(BenefitsOf(econ, unitPrice, t))))
  }

  /** What `evaluateCombo` computes. */
  function Evaluation(pv: int, bat: int, billYen: real, unitPrice: real, s: Settings, t: seq<Segment>): Eval
  {
    var econ := Econ15y(PvKw(pv), BatKwh(bat), unitPrice, billYen, s, t);
    var price := EstimateCustomerPrice(PvKw(pv), BatKwh(bat), s.profitRatePct);
    Assess(pv, bat, econ, price, unitPrice, t)
  }

  /** The second half of `evaluateCombo`, with the payback loop. */
  method AssessCombo(pv: int, bat: int, econ: Econ, price: Price, unitPrice: real, t: seq<Segment>)
    returns (e: Eval)
    ensures e == Assess(pv, bat, econ, price, unitPrice, t)
  {
    var netProfit := econ.benefitYen - price.median;
    var roi := if price.median > 0.0 then Ratio(netProfit / price.median) else MinusInfinity;
    var pb := PaybackYears(price.median, YearlyBenefits(BenefitsOf(econ, unitPrice, t)));
    e := Eval(pv, bat, price, econ, netProfit, roi, pb);
  }

  /** `evaluateCombo`. */
  method EvaluateCombo(pv: int, bat: int, billYen: real, unitPrice: real, s: Settings, t: seq<Segment>)
    returns (e: Eval)
    ensures e == Evaluation(pv, bat, billYen, unitPrice, s, t)
  {
    var econ := Estimate15yEconomics(PvKw(pv), BatKwh(bat), unitPrice, billYen, s, t);
    var price := EstimateCustomerPrice(PvKw(pv), BatKwh(bat), s.profitRatePct);
    e := AssessCombo(pv, bat, econ, price, unitPrice, t);
  }

  /** The yearly benefits `evaluateCombo` derives from the economics. */
  function BenefitsOf(econ: Econ, unitPrice: real, t: seq<Segment>): Benefits
  {
    Benefits(econ.flows.selfConsumption * unitPrice * DaysPerYear, econ.flows.pvSold, t)
  }

  /** Net profit is the horizon benefit less the quoted median; the ROI is
      the ratio of the two when the median is positive (same sign as the
      profit) and minus infinity otherwise; the payback is that of the
      median against the yearly benefits. */
  lemma AssessMetrics(pv: int, bat: int, econ: Econ, price: Price, unitPrice: real, t: seq<Segment>)
    ensures var e := Assess(pv, bat, econ, price, unitPrice, t);
      && e.pv == pv && e.bat == bat && e.price == price && e.econ == econ
      && e.netProfit == econ.benefitYen - price.median
      && (price.median > 0.0 <==> e.roi.Ratio?)
      && (e.roi.Ratio? ==> e.roi.value * price.median == e.netProfit
                           && (e.roi.value >= 0.0 <==> e.netProfit >= 0.0))
      && e.payback == PaybackOf(price.median, YearlyBenefits(BenefitsOf(econ, unitPrice, t)))
  {
    var e := Assess(pv, bat, econ, price, unitPrice, t);
    if price.median > 0.0 {
      var v := e.netProfit / price.median;
      assert v * price.median == e.netProfit;
      SignOfQuotient(e.netProfit, price.median);
    }
  }

  lemma SignOfQuotient(a: real, b: real)
    requires b > 0.0
    ensures a / b >= 0.0 <==> a >= 0.0
  {
  }

  /** When the benefit over the horizon is the sum of the yearly benefits
      over the fifteen years the payback search looks at, payback and
      profit agree: breaking even with a positive first year gives a
      finite payback, and, when no year's benefit is negative, a finite
      payback means breaking even. */
  lemma PaybackAgreesWithBenefit(cost: real, benefit: real, yearly: int -> real)
    requires benefit == Cumulative(yearly, PaybackHorizon)
    ensures yearly(1) > 0.0 && benefit - cost >= 0.0 ==> PaybackOf(cost, yearly).Finite?
    ensures ((forall y :: 1 <= y <= PaybackHorizon ==> yearly(y) >= 0.0) && PaybackOf(cost, yearly).Finite?)
        ==> benefit - cost >= 0.0
  {
    PaybackCharacterised(cost, yearly);
    if (forall y :: 1 <= y <= PaybackHorizon ==> yearly(y) >= 0.0) && PaybackOf(cost, yearly).Finite? {
      var y :| FirstReaching(cost, yearly, y);
      CumulativeMonotone(yearly, y, PaybackHorizon);
    }
  }

  /** Over a 15-year horizon `evaluateCombo`'s payback and profit agree in
      the sense of `PaybackAgreesWithBenefit`. */
  lemma PaybackAgreesWithProfit(pv: int, bat: int, billYen: real, unitPrice: real, s: Settings, t: seq<Segment>)
    requires HorizonYears(s.horizonYears) == PaybackHorizon
    ensures var e := Evaluation(pv, bat, billYen, unitPrice, s, t);
      BenefitAt(BenefitsOf(e.econ, unitPrice, t), 1) > 0.0 && e.netProfit >= 0.0 ==> e.payback.Finite?
    ensures var e := Evaluation(pv, bat, billYen, unitPrice, s, t);
      ((forall y :: 1 <= y <= PaybackHorizon ==> BenefitAt(BenefitsOf(e.econ, unitPrice, t), y) >= 0.0) && e.payback.Finite?)
        ==> e.netProfit >= 0.0
  {
    var econ := Econ15y(PvKw(pv), BatKwh(bat), unitPrice, billYen, s, t);
    var price := EstimateCustomerPrice(PvKw(pv), BatKwh(bat), s.profitRatePct);
    BenefitIsCumulative(PvKw(pv), BatKwh(bat), unitPrice, billYen, s, t);
    assert Evaluation(pv, bat, billYen, unitPrice, s, t) == Assess(pv, bat, econ, price, unitPrice, t);
    AssessMetrics(pv, bat, econ, price, unitPrice, t);
    PaybackAgreesWithBenefit(price.median, econ.benefitYen, YearlyBenefits(BenefitsOf(econ, unitPrice, t)));
  }

  lemma {:induction false} CumulativeMonotone(yearly: int -> real, a: nat, b: nat)
    requires a <= b
    requires forall y :: a < y <= b ==> yearly(y) >= 0.0
    ensures Cumulative(yearly, a) <= Cumulative(yearly, b)
    decreases b - a
  {
    if a < b {
      CumulativeMonotone(yearly, a, b - 1);
    }
  }
}
