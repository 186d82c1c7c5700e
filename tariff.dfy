/** The feed-in-tariff table: year segments `{startYear, endYear,
    yenPerKwh}` and the per-year rate lookup (app.js:37-41, 113-118). */
module Tariff {
  import opened Basics

  datatype Segment = Segment(startYear: int, endYear: int, yenPerKwh: real)

  /** The table the program starts with before any catalog is loaded. */
  const DefaultTariffs: seq<Segment> :=
    [Segment(1, 4, 24.0), Segment(5, 10, 8.3), Segment(11, 15, 8.5)]

  predicate Covers(seg: Segment, year: int)
  {
    seg.startYear <= year <= seg.endYear
  }

  /** The lookup from segment `k` on: the rate of the first segment at or
      after `k` covering `year`, or, past the end, the last segment's rate
      (0 for an empty table). */
  function RateFrom(t: seq<Segment>, year: int, k: nat): real
    requires k <= |t|
    decreases |t| - k
  {
    if k == |t| then (if |t| == 0 then 0.0 else t[|t| - 1].yenPerKwh)
    else if Covers(t[k], year) then t[k].yenPerKwh
    else RateFrom(t, year, k + 1)
  }

  /** `yearlyFitRate(year)`: a loop over the segments that returns the
      rate of the first one covering `year`, falling back after the loop
      to the last segment's rate. */
  function YearlyFitRate(t: seq<Segment>, year: int): real
  {
    RateFrom(t, year, 0)
  }

  lemma {:induction false} RateFromFirstCovering(t: seq<Segment>, year: int, k: nat, i: int)
    requires k <= i < |t| && Covers(t[i], year)
    requires forall j :: k <= j < i ==> !Covers(t[j], year)
    ensures RateFrom(t, year, k) == t[i].yenPerKwh
    decreases i - k
  {
    if k < i {
      RateFromFirstCovering(t, year, k + 1, i);
    }
  }

  lemma {:induction false} RateFromUncovered(t: seq<Segment>, year: int, k: nat)
    requires k <= |t|
    requires forall j :: k <= j < |t| ==> !Covers(t[j], year)
    ensures RateFrom(t, year, k) == (if |t| == 0 then 0.0 else t[|t| - 1].yenPerKwh)
    decreases |t| - k
  {
    if k < |t| {
      RateFromUncovered(t, year, k + 1);
    }
  }

  /** The lookup is total: the first covering segment decides the rate, and
      a year no segment covers gets the last segment's rate (0 for an
      empty table). */
  lemma YearlyFitRateSpec(t: seq<Segment>, year: int)
    ensures forall i :: 0 <= i < |t| && Covers(t[i], year)
              && (forall j :: 0 <= j < i ==> !Covers(t[j], year))
              ==> YearlyFitRate(t, year) == t[i].yenPerKwh
    ensures (forall i :: 0 <= i < |t| ==> !Covers(t[i], year))
              ==> YearlyFitRate(t, year) == (if |t| == 0 then 0.0 else t[|t| - 1].yenPerKwh)
  {
    forall i | 0 <= i < |t| && Covers(t[i], year) && (forall j :: 0 <= j < i ==> !Covers(t[j], year))
      ensures YearlyFitRate(t, year) == t[i].yenPerKwh
    {
      RateFromFirstCovering(t, year, 0, i);
    }
    if forall i :: 0 <= i < |t| ==> !Covers(t[i], year) {
      RateFromUncovered(t, year, 0);
    }
  }

  predicate NonnegativeRates(t: seq<Segment>)
  {
    forall i :: 0 <= i < |t| ==> t[i].yenPerKwh >= 0.0
  }

  lemma {:induction false} RateFromInTable(t: seq<Segment>, year: int, k: nat) returns (i: int)
    requires 0 < |t| && k <= |t|
    ensures 0 <= i < |t| && RateFrom(t, year, k) == t[i].yenPerKwh
    decreases |t| - k
  {
    if k == |t| {
      i := |t| - 1;
    } else if Covers(t[k], year) {
      i := k;
    } else {
      i := RateFromInTable(t, year, k + 1);
    }
  }

  /** Every rate the lookup returns is one of the table's rates (or 0), so
      a table of non-negative rates yields a non-negative rate for every
      year. */
  lemma YearlyFitRateFromTable(t: seq<Segment>, year: int)
    ensures |t| == 0 ==> YearlyFitRate(t, year) == 0.0
    ensures |t| > 0 ==> exists i :: 0 <= i < |t| && YearlyFitRate(t, year) == t[i].yenPerKwh
    ensures NonnegativeRates(t) ==> YearlyFitRate(t, year) >= 0.0
  {
    if |t| > 0 {
      var i := RateFromInTable(t, year, 0);
    }
  }

  /** The built-in table: 24 yen for years 1-4, 8.3 yen for years 5-10 and
      8.5 yen from year 11 on, the last rate also covering every year past
      15 (and every year before 1). */
  lemma DefaultTariffRates(year: int)
    ensures 1 <= year <= 4 ==> YearlyFitRate(DefaultTariffs, year) == 24.0
    ensures 5 <= year <= 10 ==> YearlyFitRate(DefaultTariffs, year) == 8.3
    ensures (year < 1 || 11 <= year) ==> YearlyFitRate(DefaultTariffs, year) == 8.5
  {
    var t := DefaultTariffs;
    if 1 <= year <= 4 {
      assert Covers(t[0], year);
    } else if 5 <= year <= 10 {
      assert !Covers(t[0], year) && Covers(t[1], year);
    } else if 11 <= year <= 15 {
      assert !Covers(t[0], year) && !Covers(t[1], year) && Covers(t[2], year);
    } else {
      assert forall i :: 0 <= i < |t| ==> !Covers(t[i], year);
    }
  }
}
