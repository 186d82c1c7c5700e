/** The customer price model (app.js:25-34, 186-194): a quadratic base
    median in the PV size x (kW) and the battery size z (kWh), a profit
    markup, and a symmetric range of 25,000 yen per kW or kWh. */
module Pricing {

  /** T(x, z) = 287000 + 175500x + 200000z - 1200x^2 - 3000z^2. */
  function BaseMedianYen(x: real, z: real): real
  {
    287000.0 + 175500.0 * x + 200000.0 * z - 1200.0 * x * x - 3000.0 * z * z
  }

  const RangeYenPerUnit: real := 25000.0

  /** Half the width of the quoted range: (x + z) * 25000. */
  function RangeWidthYen(x: real, z: real): real
  {
    (x + z) * RangeYenPerUnit
  }

  datatype Price = Price(baseMedian: real, median: real, min: real, max: real, width: real)

  /** `estimateCustomerPrice`: the base median marked up by the profit
      rate, with the range centred on the marked-up median. */
  function EstimateCustomerPrice(pvKw: real, batKwh: real, profitRatePct: real): Price
  {
    var base := BaseMedianYen(pvKw, batKwh);
    var median := base * (1.0 + profitRatePct / 100.0);
    var width := RangeWidthYen(pvKw, batKwh);
    Price(base, median, median - width, median + width, width)
  }

  /** The quoted range is centred on the marked-up median, `width` on
      either side, so it is 2 * (x + z) * 25000 wide and, for non-negative
      sizes, contains the median. */
  lemma PriceRange(pvKw: real, batKwh: real, profitRatePct: real)
    ensures var p := EstimateCustomerPrice(pvKw, batKwh, profitRatePct);
      && p.baseMedian == BaseMedianYen(pvKw, batKwh)
      && p.median == p.baseMedian * (1.0 + profitRatePct / 100.0)
      && p.width == RangeWidthYen(pvKw, batKwh)
      && p.median - p.min == p.max - p.median == p.width
      && p.max - p.min == 2.0 * (pvKw + batKwh) * RangeYenPerUnit
      && (pvKw + batKwh >= 0.0 ==> p.min <= p.median <= p.max)
  {
    var p := EstimateCustomerPrice(pvKw, batKwh, profitRatePct);
    if pvKw + batKwh >= 0.0 {
      MulNonnegative(pvKw + batKwh, RangeYenPerUnit);
    }
  }

  /** Over PV sizes up to 146.25 kW and battery sizes up to 66 kWh (both
      far beyond the settings' limits) neither quadratic term has turned
      down yet, so the base median is at least its constant term. */
  lemma BaseMedianAtLeastFixedPart(x: real, z: real)
    requires 0.0 <= x <= 146.25 && 0.0 <= z <= 66.0
    ensures BaseMedianYen(x, z) >= 287000.0
  {
    assert 175500.0 * x - 1200.0 * x * x == x * (175500.0 - 1200.0 * x);
    assert 200000.0 * z - 3000.0 * z * z == z * (200000.0 - 3000.0 * z);
    MulNonnegative(x, 175500.0 - 1200.0 * x);
    MulNonnegative(z, 200000.0 - 3000.0 * z);
  }

  lemma MulNonnegative(a: real, b: real)
    requires a >= 0.0 && b >= 0.0
    ensures a * b >= 0.0
  {
  }

  lemma MulPositive(a: real, b: real)
    requires a > 0.0 && b > 0.0
    ensures a * b > 0.0
  {
  }

  /** A larger PV size costs more, as long as the two sizes stay below the
      vertex of the parabola (their sum below 146.25 kW). */
  lemma BaseMedianIncreasingInPv(x1: real, x2: real, z: real)
    requires 0.0 <= x1 < x2 && x1 + x2 < 146.25
    ensures BaseMedianYen(x1, z) < BaseMedianYen(x2, z)
  {
    assert BaseMedianYen(x2, z) - BaseMedianYen(x1, z)
        == (x2 - x1) * (175500.0 - 1200.0 * (x1 + x2));
    MulPositive(x2 - x1, 175500.0 - 1200.0 * (x1 + x2));
  }

  /** A larger battery costs more, as long as the two sizes sum to less
      than 66 kWh. */
  lemma BaseMedianIncreasingInBattery(x: real, z1: real, z2: real)
    requires 0.0 <= z1 < z2 && z1 + z2 < 66.0
    ensures BaseMedianYen(x, z1) < BaseMedianYen(x, z2)
  {
    assert BaseMedianYen(x, z2) - BaseMedianYen(x, z1)
        == (z2 - z1) * (200000.0 - 3000.0 * (z1 + z2));
    MulPositive(z2 - z1, 200000.0 - 3000.0 * (z1 + z2));
  }

  /** With a profit rate above -100% and sizes in that range the quoted
      median is positive, so the return on investment is a finite ratio. */
  lemma MedianPositive(pvKw: real, batKwh: real, profitRatePct: real)
    requires 0.0 <= pvKw <= 146.25 && 0.0 <= batKwh <= 66.0 && profitRatePct > -100.0
    ensures EstimateCustomerPrice(pvKw, batKwh, profitRatePct).median > 0.0
  {
    BaseMedianAtLeastFixedPart(pvKw, batKwh);
    var m := 1.0 + profitRatePct / 100.0;
    MulPositive(BaseMedianYen(pvKw, batKwh), m);
  }
}
