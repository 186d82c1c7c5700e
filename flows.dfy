/** Usage from the bill, and the daily energy-flow split (app.js:120-155).
    All quantities are exact reals: kWh per day for energy, yen for money. */
module Flows {
  import opened Basics

  datatype Usage = Usage(usageKwhMonth: real, variableYen: real)

  /** `billToUsageKwhMonth`: the part of the monthly bill above the fixed
      fee, divided by the unit price (0 kWh when the unit price is not
      positive). */
  function BillToUsageKwhMonth(billYen: real, unitPrice: real, fixedFeeYen: real): Usage
  {
    var variableYen := Max(0.0, billYen - fixedFeeYen);
    var kwh := if unitPrice > 0.0 then variableYen / unitPrice else 0.0;
    Usage(kwh, variableYen)
  }

  /** The variable part of the bill is never negative, is all of the bill
      above the fee, and is the usage priced at the unit price; a bill at
      or below the fee, or a unit price that is not positive, means no
      usage. */
  lemma BillToUsageSpec(billYen: real, unitPrice: real, fixedFeeYen: real)
    ensures var u := BillToUsageKwhMonth(billYen, unitPrice, fixedFeeYen);
      && u.variableYen >= 0.0 && u.usageKwhMonth >= 0.0
      && (billYen >= fixedFeeYen ==> u.variableYen == billYen - fixedFeeYen)
      && (billYen <= fixedFeeYen ==> u.variableYen == 0.0 && u.usageKwhMonth == 0.0)
      && (unitPrice > 0.0 ==> u.usageKwhMonth * unitPrice == u.variableYen)
      && (unitPrice <= 0.0 ==> u.usageKwhMonth == 0.0)
  {
    var u := BillToUsageKwhMonth(billYen, unitPrice, fixedFeeYen);
    if unitPrice > 0.0 {
      assert u.usageKwhMonth == u.variableYen / unitPrice;
    }
  }

  /** What a month of `kwh` costs at `unitPrice` on top of the fixed fee:
      the tariff the conversion above inverts. */
  function BillForUsage(kwh: real, unitPrice: real, fixedFeeYen: real): real
  {
    fixedFeeYen + kwh * unitPrice
  }

  /** Converting a bill to usage and pricing that usage again gives the
      bill back whenever the bill covers the fixed fee, and converting a
      priced usage gives the usage back. */
  lemma BillUsageRoundTrip(billYen: real, kwh: real, unitPrice: real, fixedFeeYen: real)
    requires unitPrice > 0.0
    ensures billYen >= fixedFeeYen ==>
      BillForUsage(BillToUsageKwhMonth(billYen, unitPrice, fixedFeeYen).usageKwhMonth, unitPrice, fixedFeeYen) == billYen
    ensures kwh >= 0.0 ==>
      BillToUsageKwhMonth(BillForUsage(kwh, unitPrice, fixedFeeYen), unitPrice, fixedFeeYen).usageKwhMonth == kwh
  {
    BillToUsageSpec(billYen, unitPrice, fixedFeeYen);
    if kwh >= 0.0 {
      var u := BillToUsageKwhMonth(BillForUsage(kwh, unitPrice, fixedFeeYen), unitPrice, fixedFeeYen);
      BillToUsageSpec(BillForUsage(kwh, unitPrice, fixedFeeYen), unitPrice, fixedFeeYen);
      assert kwh * unitPrice >= 0.0;
      assert u.usageKwhMonth * unitPrice == kwh * unitPrice;
    }
  }

  datatype Flows = Flows(
    pvGen: real, dayUse: real, nightUse: real,
    pvToDay: real, batCharge: real, batToNight: real,
    pvSold: real, gridTotal: real, selfConsumption: real)

  /** The inputs the flow split is meant for: non-negative sizes, usage and
      yield, and a night share that is a percentage. */
  predicate SensibleFlowInputs(pvKw: real, batKwh: real, usageKwhDay: real, nightPct: real, pvYieldPerKwDay: real)
  {
    pvKw >= 0.0 && batKwh >= 0.0 && usageKwhDay >= 0.0 && 0.0 <= nightPct <= 100.0 && pvYieldPerKwDay >= 0.0
  }

  /** The flows of one day with a battery of `batKwh` balance: no energy
      is created or lost on the supply side or the demand side, every flow
      is non-negative and within its bounds, and what is sold is what the
      day load and the battery leave over. */
  predicate Balanced(f: Flows, batKwh: real)
  {
    // energy conservation, on the supply side and on the demand side
    && f.pvGen == f.pvToDay + f.batCharge + f.pvSold
    && f.selfConsumption + f.gridTotal == f.dayUse + f.nightUse
    // what is consumed from the own plant comes straight from PV or from the battery
    && f.selfConsumption == f.pvToDay + f.batToNight
    // every flow is non-negative
    && f.pvGen >= 0.0 && f.dayUse >= 0.0 && f.nightUse >= 0.0
    && f.pvToDay >= 0.0 && f.batCharge >= 0.0 && f.batToNight >= 0.0
    && f.pvSold >= 0.0 && f.gridTotal >= 0.0 && f.selfConsumption >= 0.0
    // bounds
    && f.pvToDay <= f.pvGen && f.pvToDay <= f.dayUse
    && f.batToNight <= f.batCharge <= batKwh && f.batToNight <= f.nightUse
    && f.selfConsumption <= f.dayUse + f.nightUse
    // the surplus
    && f.pvSold == Max(0.0, f.pvGen - f.dayUse - batKwh)
    && (batKwh == 0.0 ==> f.batCharge == 0.0 && f.batToNight == 0.0
                          && f.pvSold == Max(0.0, f.pvGen - f.dayUse))
  }

  /** The order `dailyFlows` uses the energy in, as priorities: PV output
      goes to the day load until one of them runs out; the battery charges
      only once the day load is covered and then takes what is left until
      it is full; power is sold only after that; and the grid serves the
      night only once the battery is empty. */
  predicate DispatchOrder(f: Flows, batKwh: real)
  {
    && (f.pvToDay < f.dayUse ==> f.pvToDay == f.pvGen)
    && (f.batCharge > 0.0 ==> f.pvToDay == f.dayUse)
    && (f.batCharge < batKwh ==> f.batCharge == f.pvGen - f.pvToDay)
    && (f.pvSold > 0.0 ==> f.pvToDay == f.dayUse && f.batCharge == batKwh)
    && (f.batToNight < f.nightUse ==> f.batToNight == f.batCharge)
  }

  /** The split of one day's PV output `pvGen` over the day load, the
      battery and the grid, and of the night load over the battery and the
      grid: the straight-line core of `dailyFlows`. */
  function Split(pvGen: real, dayUse: real, nightUse: real, batKwh: real): (f: Flows)
    ensures f.pvGen == pvGen && f.dayUse == dayUse && f.nightUse == nightUse
  {
    var pvToDay := Min(pvGen, dayUse);
    var pvExcess := Max(0.0, pvGen - pvToDay);
    var batCharge := Min(batKwh, pvExcess);
    var pvSold := Max(0.0, pvExcess - batCharge);
    var batToNight := Min(nightUse, batCharge);
    var gridDay := Max(0.0, dayUse - pvToDay);
    var gridNight := Max(0.0, nightUse - batToNight);
    var selfConsumption := pvToDay + batToNight;
    var gridTotal := gridDay + gridNight;
    Flows(pvGen, dayUse, nightUse, pvToDay, batCharge, batToNight, pvSold, gridTotal, selfConsumption)
  }

  /** With non-negative output and loads the split balances. */
  lemma SplitBalanced(pvGen: real, dayUse: real, nightUse: real, batKwh: real)
    requires pvGen >= 0.0 && dayUse >= 0.0 && nightUse >= 0.0 && batKwh >= 0.0
    ensures Balanced(Split(pvGen, dayUse, nightUse, batKwh), batKwh)
  {
  }

  /** With a battery of non-negative size, the split keeps to the dispatch
      priorities. */
  lemma SplitFollowsDispatchOrder(pvGen: real, dayUse: real, nightUse: real, batKwh: real)
    requires batKwh >= 0.0
    ensures DispatchOrder(Split(pvGen, dayUse, nightUse, batKwh), batKwh)
  {
    var f := Split(pvGen, dayUse, nightUse, batKwh);
    assert f.pvToDay < f.dayUse ==> f.pvToDay == f.pvGen;
    assert f.batCharge > 0.0 ==> f.pvToDay == f.dayUse;
    assert f.batCharge < batKwh ==> f.batCharge == f.pvGen - f.pvToDay;
    assert f.pvSold > 0.0 ==> f.pvToDay == f.dayUse && f.batCharge == batKwh;
    assert f.batToNight < f.nightUse ==> f.batToNight == f.batCharge;
  }

  /** `dailyFlows`: PV output covers the day load first, then charges the
      battery up to its size, and the rest is sold; the battery covers the
      night load and the grid supplies whatever is left. No state is
      carried from one day to the next and no energy is lost. */
  function DailyFlows(pvKw: real, batKwh: real, usageKwhDay: real, nightPct: real, pvYieldPerKwDay: real): Flows
  {
    var nightUse := usageKwhDay * (nightPct / 100.0);
    var pvGen := pvKw * pvYieldPerKwDay;
    Split(pvGen, usageKwhDay - nightUse, nightUse, batKwh)
  }

  /** The flows of `dailyFlows` balance: the day and night loads add up to
      the usage, the output is size times yield, and for sensible inputs
      the flows are `Balanced`. */
  lemma DailyFlowsBalance(pvKw: real, batKwh: real, usageKwhDay: real, nightPct: real, pvYieldPerKwDay: real)
    ensures var f := DailyFlows(pvKw, batKwh, usageKwhDay, nightPct, pvYieldPerKwDay);
      && f.dayUse + f.nightUse == usageKwhDay
      && f.pvGen == pvKw * pvYieldPerKwDay
      && (SensibleFlowInputs(pvKw, batKwh, usageKwhDay, nightPct, pvYieldPerKwDay) ==> Balanced(f, batKwh))
  {
    if SensibleFlowInputs(pvKw, batKwh, usageKwhDay, nightPct, pvYieldPerKwDay) {
      var nightUse := usageKwhDay * (nightPct / 100.0);
      var pvGen := pvKw * pvYieldPerKwDay;
      NightShareBounds(usageKwhDay, nightPct);
      ProductNonnegative(pvKw, pvYieldPerKwDay);
      SplitBalanced(pvGen, usageKwhDay - nightUse, nightUse, batKwh);
    }
  }

  /** The order of `dailyFlows` makes the most of the plant: no balanced
      split of the same output and loads with the same battery consumes
      more of its own energy. */
  lemma {:induction false} SplitMaximisesSelfConsumption(g: Flows, batKwh: real)
    requires Balanced(g, batKwh)
    ensures g.selfConsumption <= Split(g.pvGen, g.dayUse, g.nightUse, batKwh).selfConsumption
  {
    var f := Split(g.pvGen, g.dayUse, g.nightUse, batKwh);
    SplitFollowsDispatchOrder(g.pvGen, g.dayUse, g.nightUse, batKwh);
    // g charges no more than its output left after the day load
    assert g.batCharge <= g.pvGen - g.pvToDay;
    assert g.batToNight <= g.pvGen - g.pvToDay;
    // f.selfConsumption is the least of pvToDay + nightUse, pvToDay + batKwh and pvGen
    assert f.selfConsumption >= Min(f.pvToDay + g.nightUse, Min(f.pvToDay + batKwh, g.pvGen));
  }

  /** For every battery size (sizes are never negative), the flows of
      `dailyFlows` keep to the dispatch priorities. */
  lemma DailyFlowsDispatch(pvKw: real, batKwh: real, usageKwhDay: real, nightPct: real, pvYieldPerKwDay: real)
    requires batKwh >= 0.0
    ensures DispatchOrder(DailyFlows(pvKw, batKwh, usageKwhDay, nightPct, pvYieldPerKwDay), batKwh)
  {
    var nightUse := usageKwhDay * (nightPct / 100.0);
    SplitFollowsDispatchOrder(pvKw * pvYieldPerKwDay, usageKwhDay - nightUse, nightUse, batKwh);
  }

  /** Balance and the dispatch priorities together fix every flow: a
      balanced split that keeps to the priorities is the split of
      `dailyFlows`. */
  lemma DispatchDeterminesSplit(g: Flows, batKwh: real)
    requires Balanced(g, batKwh) && DispatchOrder(g, batKwh)
    ensures g == Split(g.pvGen, g.dayUse, g.nightUse, batKwh)
  {
    var f := Split(g.pvGen, g.dayUse, g.nightUse, batKwh);
    assert g.pvToDay == f.pvToDay;
    assert g.batCharge == f.batCharge;
    assert g.pvSold == f.pvSold;
    assert g.batToNight == f.batToNight;
    assert g.selfConsumption == f.selfConsumption;
    assert g.gridTotal == f.gridTotal;
  }

  /** The priorities are not implied by balance: a balanced split may
      charge the battery while part of the day load is still bought. */
  lemma BalanceAllowsOtherOrders()
    ensures var g := Flows(2.0, 2.0, 1.0, 1.0, 1.0, 1.0, 0.0, 1.0, 2.0);
      Balanced(g, 1.0) && !DispatchOrder(g, 1.0)
  {
  }

  lemma ProductNonnegative(a: real, b: real)
    ensures a >= 0.0 && b >= 0.0 ==> a * b >= 0.0
  {
  }

  lemma NightShareBounds(usageKwhDay: real, nightPct: real)
    ensures usageKwhDay >= 0.0 && 0.0 <= nightPct <= 100.0 ==>
      0.0 <= usageKwhDay * (nightPct / 100.0) <= usageKwhDay
  {
    if usageKwhDay >= 0.0 && 0.0 <= nightPct <= 100.0 {
      var q := nightPct / 100.0;
      assert 0.0 <= q <= 1.0;
      assert usageKwhDay * q <= usageKwhDay * 1.0;
    }
  }
}
