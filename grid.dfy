/** The search space of `doCalc`: the PV grid of `buildPvGrid`
    (app.js:233-245) and the evaluation of every PV size against every
    battery size (app.js:729-737). PV sizes are integers in units of
    0.01 kW, battery sizes integers in units of 0.1 kWh. */
module Grid {
  import opened Basics
  import opened Tariff
  import opened Config
  import opened Economics

  /** The number of steps `buildPvGrid` takes: Math.round((max - min) / step). */
  function StepCount(minKw: real, maxKw: real, stepKw: real): int
    requires stepKw > 0.0
  {
    Round((maxKw - minKw) / stepKw)
  }

  /** The i-th grid value, Math.round((min + step * i) * 100) hundredths of
      a kW. */
  function GridPoint(minKw: real, stepKw: real, i: nat): int
  {
    Round((minKw + stepKw * i as real) * 100.0)
  }

  /** Points a fixed step apart grow by at least one hundredth when the
      step is at least 0.01 kW. */
  lemma GridPointsIncrease(minKw: real, stepKw: real, i: nat)
    requires stepKw >= 0.01
    ensures GridPoint(minKw, stepKw, i) + 1 <= GridPoint(minKw, stepKw, i + 1)
  {
    var x := (minKw + stepKw * i as real) * 100.0;
    var y := (minKw + stepKw * (i + 1) as real) * 100.0;
    assert y == x + stepKw * 100.0;
    RoundMonotone(x, y);
  }

  predicate StrictlyAscending(s: seq<int>)
  {
    forall i, j :: 0 <= i < j < |s| ==> s[i] < s[j]
  }

  /** With a step of at least 0.01 kW any later grid point is larger. */
  lemma {:induction false} GridPointsAscend(minKw: real, stepKw: real, i: nat, j: nat)
    requires stepKw >= 0.01 && i < j
    ensures GridPoint(minKw, stepKw, i) < GridPoint(minKw, stepKw, j)
    decreases j - i
  {
    GridPointsIncrease(minKw, stepKw, j - 1);
    if i < j - 1 {
      GridPointsAscend(minKw, stepKw, i, j - 1);
    }
  }

  /** The points `buildPvGrid` lists. */
  function PvGrid(minKw: real, maxKw: real, stepKw: real): seq<int>
    requires stepKw > 0.0
  {
    var n := StepCount(minKw, maxKw, stepKw);
    seq(if n >= 0 then n + 1 else 0, i requires i >= 0 => GridPoint(minKw, stepKw, i))
  }

  /** `buildPvGrid`: round((max - min) / step) + 1 points from `min` on, one
      step apart, each rounded to 0.01 kW; none when that count is
      negative. With a step of at least 0.01 kW the points strictly
      ascend. */
  method BuildPvGrid(minKw: real, maxKw: real, stepKw: real) returns (out: seq<int>)
    requires stepKw > 0.0
    ensures |out| == if StepCount(minKw, maxKw, stepKw) >= 0 then StepCount(minKw, maxKw, stepKw) + 1 else 0
    ensures forall i :: 0 <= i < |out| ==> out[i] == GridPoint(minKw, stepKw, i)
    ensures stepKw >= 0.01 ==> StrictlyAscending(out)
  {
    var n := StepCount(minKw, maxKw, stepKw);
    var count := if n >= 0 then n + 1 else 0;
    out := [];
    var i := 0;
    while i < count
      invariant 0 <= i <= count
      invariant |out| == i
      invariant forall k :: 0 <= k < i ==> out[k] == GridPoint(minKw, stepKw, k)
    {
      out := out + [GridPoint(minKw, stepKw, i)];
      i := i + 1;
    }
    if stepKw >= 0.01 {
      forall a, b | 0 <= a < b < |out| ensures out[a] < out[b] {
        GridPointsAscend(minKw, stepKw, a, b);
      }
    }
  }

  /** Half a grid step, the most by which Math.round moves the step count. */
  function HalfStep(stepKw: real): real
  {
    stepKw / 2.0
  }

  /** The grid starts at the rounded minimum, and its last point, in
      hundredths of a kW, lies within half a step plus the half hundredth
      that rounding adds of the maximum: the grid spans [min, max] as
      closely as whole steps allow. */
  lemma GridSpansRange(minKw: real, maxKw: real, stepKw: real)
    requires stepKw > 0.0 && minKw <= maxKw
    ensures StepCount(minKw, maxKw, stepKw) >= 0
    ensures GridPoint(minKw, stepKw, 0) == Round(minKw * 100.0)
    ensures var n := StepCount(minKw, maxKw, stepKw);
      (maxKw - HalfStep(stepKw)) * 100.0 - 0.5 < GridPoint(minKw, stepKw, n) as real <= (maxKw + HalfStep(stepKw)) * 100.0 + 0.5
  {
    var n := StepCount(minKw, maxKw, stepKw);
    LastValueNearMax(minKw, maxKw, stepKw);
    RoundedNear(minKw + stepKw * n as real, maxKw - HalfStep(stepKw), maxKw + HalfStep(stepKw));
  }

  /** Before rounding, the last value lies within half a step of the
      maximum. */
  lemma LastValueNearMax(minKw: real, maxKw: real, stepKw: real)
    requires stepKw > 0.0 && minKw <= maxKw
    ensures StepCount(minKw, maxKw, stepKw) >= 0
    ensures var n := StepCount(minKw, maxKw, stepKw);
      maxKw - HalfStep(stepKw) < minKw + stepKw * n as real <= maxKw + HalfStep(stepKw)
  {
    var n := StepCount(minKw, maxKw, stepKw);
    var q := (maxKw - minKw) / stepKw;
    assert q >= 0.0;
    ScaleAround(q, n as real, stepKw);
    assert q * stepKw == maxKw - minKw;
  }

  /** Scaling by c > 0 a value within half a unit of m gives a value
      within half of c of c * m. */
  lemma ScaleAround(q: real, m: real, c: real)
    requires c > 0.0 && m - 0.5 <= q < m + 0.5
    ensures c * m - HalfStep(c) <= q * c
    ensures q * c < c * m + HalfStep(c)
  {
    ScaleBracket(q, m - 0.5, m + 0.5, c);
    calc {
      c * m - HalfStep(c);
    ==
      (m - 0.5) * c;
    <=
      q * c;
    }
    calc {
      q * c;
    <
      (m + 0.5) * c;
    ==
      c * m + HalfStep(c);
    }
  }

  /** Rounding to hundredths moves a value by at most half a hundredth. */
  lemma RoundedNear(v: real, lo: real, hi: real)
    requires lo < v <= hi
    ensures lo * 100.0 - 0.5 < Round(v * 100.0) as real <= hi * 100.0 + 0.5
  {
    ScaleBracket(v, lo, hi + 1.0, 100.0);
    assert v * 100.0 <= hi * 100.0;
  }

  lemma ScaleBracket(q: real, lo: real, hi: real, c: real)
    requires c > 0.0 && lo <= q < hi
    ensures lo * c <= q * c < hi * c
  {
  }

  /** With the sanitized settings every grid point is at least 0.5 kW. */
  lemma SanitizedGridAtLeastHalfKw(s: Settings, i: nat)
    requires Sanitized(s)
    ensures GridPoint(s.pvMinKw, s.pvStepKw, i) >= 50
  {
    var x := (s.pvMinKw + s.pvStepKw * i as real) * 100.0;
    assert s.pvStepKw * i as real >= 0.0;
    assert x >= 50.0;
  }

  /** A configuration: `comboKey`'s `pvKw.toFixed(2)|batKwh.toFixed(1)`,
      as the two integer sizes it spells out. */
  datatype Key = Key(pv: int, bat: int)

  function KeyOf(e: Eval): Key
  {
    Key(e.pv, e.bat)
  }

  /** The configurations of one PV size, over the battery sizes in order. */
  function RowKeys(pv: int, bats: seq<int>): seq<Key>
  {
    seq(|bats|, j requires 0 <= j < |bats| => Key(pv, bats[j]))
  }

  /** The configurations the nested loop visits, PV size outermost. */
  function Pairs(grid: seq<int>, bats: seq<int>): seq<Key>
    decreases |grid|
  {
    if grid == [] then []
    else Pairs(grid[..|grid| - 1], bats) + RowKeys(grid[|grid| - 1], bats)
  }

  /** `evals` holds the evaluation of each configuration in `keys`, in
      order. */
  predicate Evaluates(evals: seq<Eval>, keys: seq<Key>, billYen: real, unitPrice: real, s: Settings, t: seq<Segment>)
  {
    && |evals| == |keys|
    && forall k :: 0 <= k < |keys| ==> evals[k] == Evaluation(keys[k].pv, keys[k].bat, billYen, unitPrice, s, t)
  }

  /** The nested loop of `doCalc`: evaluate every PV size against every
      battery size, PV size outermost. */
  method EvaluateAll(grid: seq<int>, bats: seq<int>, billYen: real, unitPrice: real, s: Settings, t: seq<Segment>)
    returns (evals: seq<Eval>)
    ensures Evaluates(evals, Pairs(grid, bats), billYen, unitPrice, s, t)
  {
    evals := [];
    var i := 0;
    while i < |grid|
      invariant 0 <= i <= |grid|
      invariant Evaluates(evals, Pairs(grid[..i], bats), billYen, unitPrice, s, t)
    {
      ghost var done := Pairs(grid[..i], bats);
      ghost var row := RowKeys(grid[i], bats);
      var j := 0;
      while j < |bats|
        invariant 0 <= j <= |bats|
        invariant Evaluates(evals, done + row[..j], billYen, unitPrice, s, t)
      {
        var e := EvaluateCombo(grid[i], bats[j], billYen, unitPrice, s, t);
        assert (done + row[..j + 1])[|done| + j] == Key(grid[i], bats[j]);
        assert (done + row[..j + 1])[..|done| + j] == done + row[..j];
        evals := evals + [e];
        j := j + 1;
      }
      assert row[..j] == row;
      assert grid[..i + 1][..i] == grid[..i];
      i := i + 1;
    }
    assert grid[..i] == grid;
  }

  lemma EvaluationKeys(pv: int, bat: int, billYen: real, unitPrice: real, s: Settings, t: seq<Segment>)
    ensures KeyOf(Evaluation(pv, bat, billYen, unitPrice, s, t)) == Key(pv, bat)
  {
  }

  /** The loop evaluates |grid| * |bats| configurations. */
  lemma {:induction false} PairsLength(grid: seq<int>, bats: seq<int>)
    ensures |Pairs(grid, bats)| == |grid| * |bats|
    decreases |grid|
  {
    if grid != [] {
      PairsLength(grid[..|grid| - 1], bats);
      assert |grid| * |bats| == (|grid| - 1) * |bats| + |bats|;
    }
  }

  /** Position i * |bats| + j is PV size grid[i] with battery size
      bats[j]. */
  lemma {:induction false} PairsAtIndex(grid: seq<int>, bats: seq<int>, i: int, j: int)
    requires 0 <= i < |grid| && 0 <= j < |bats|
    ensures i * |bats| + j < |Pairs(grid, bats)|
    ensures Pairs(grid, bats)[i * |bats| + j] == Key(grid[i], bats[j])
    decreases |grid|
  {
    var init := grid[..|grid| - 1];
    var last := |grid| - 1;
    var p := Pairs(init, bats);
    PairsLength(init, bats);
    assert Pairs(grid, bats) == p + RowKeys(grid[last], bats);
    if i < last {
      PairsAtIndex(init, bats, i, j);
      assert init[i] == grid[i];
    } else {
      assert i * |bats| + j == |p| + j;
    }
  }

  /** Each configuration pairs one of the grid's PV sizes with one of the
      battery sizes; with the battery switched off (`[0]`) every
      configuration is PV-only. */
  lemma {:induction false} PairsSizes(grid: seq<int>, bats: seq<int>)
    ensures forall k :: 0 <= k < |Pairs(grid, bats)| ==>
      Pairs(grid, bats)[k].pv in grid && Pairs(grid, bats)[k].bat in bats
    ensures bats == [0] ==> forall k :: 0 <= k < |Pairs(grid, bats)| ==> Pairs(grid, bats)[k].bat == 0
    decreases |grid|
  {
    if grid != [] {
      var init := grid[..|grid| - 1];
      PairsSizes(init, bats);
      var p := Pairs(init, bats);
      var c := Pairs(grid, bats);
      forall k | 0 <= k < |c| ensures c[k].pv in grid && c[k].bat in bats {
        if k < |p| {
          assert c[k] == p[k];
          assert c[k].pv in init;
        } else {
          assert c[k] == RowKeys(grid[|grid| - 1], bats)[k - |p|];
        }
      }
    }
  }

  /** (pv, bat) in lexicographic order. */
  predicate KeyBefore(a: Key, b: Key)
  {
    a.pv < b.pv || (a.pv == b.pv && a.bat < b.bat)
  }

  /** For an ascending grid and ascending battery sizes the configurations
      come in strictly ascending (pv, bat) order, so none is visited
      twice. */
  lemma {:induction false} PairsOrdered(grid: seq<int>, bats: seq<int>)
    requires StrictlyAscending(grid) && StrictlyAscending(bats)
    ensures forall a, b :: 0 <= a < b < |Pairs(grid, bats)| ==> KeyBefore(Pairs(grid, bats)[a], Pairs(grid, bats)[b])
    decreases |grid|
  {
    if grid != [] {
      var init := grid[..|grid| - 1];
      var x := grid[|grid| - 1];
      PairsOrdered(init, bats);
      PairsSizes(init, bats);
      var p := Pairs(init, bats);
      var r := RowKeys(x, bats);
      var c := Pairs(grid, bats);
      assert c == p + r;
      forall k | 0 <= k < |p| ensures p[k].pv < x {
        assert p[k].pv in init;
      }
      forall a, b | 0 <= a < b < |c| ensures KeyBefore(c[a], c[b]) {
        if b < |p| {
          assert c[a] == p[a] && c[b] == p[b];
        } else if a < |p| {
          assert c[a] == p[a] && c[b] == r[b - |p|];
        } else {
          assert c[a] == r[a - |p|] && c[b] == r[b - |p|];
        }
      }
    }
  }

  /** Configurations in strictly ascending order are pairwise distinct. */
  lemma OrderedKeysDistinct(keys: seq<Key>)
    requires forall a, b :: 0 <= a < b < |keys| ==> KeyBefore(keys[a], keys[b])
    ensures forall a, b :: 0 <= a < |keys| && 0 <= b < |keys| && a != b ==> keys[a] != keys[b]
  {
    forall a, b | 0 <= a < |keys| && 0 <= b < |keys| && a != b ensures keys[a] != keys[b] {
      if a < b { assert KeyBefore(keys[a], keys[b]); } else { assert KeyBefore(keys[b], keys[a]); }
    }
  }
}
