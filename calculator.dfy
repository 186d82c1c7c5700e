/** The estimation run of `doCalc` (app.js:698-740): the two input guards,
    the PV grid, the battery list, the nested evaluation loop, the
    candidate selection and the rankings; and the battery-size cleanup of
    `loadData` (app.js:104-109). */
module Calculator {
  import opened Basics
  import opened Tariff
  import opened Config
  import opened Economics
  import opened Grid
  import opened Selection
  import opened Ranking

  /** Insert x into an ascending list unless it is already there. */
  function InsertAscending(s: seq<int>, x: int): seq<int>
    decreases |s|
  {
    if s == [] then [x]
    else if x < s[0] then [x] + s
    else if x == s[0] then s
    else [s[0]] + InsertAscending(s[1..], x)
  }

  lemma {:induction false} InsertAscendingSpec(s: seq<int>, x: int)
    requires StrictlyAscending(s)
    ensures StrictlyAscending(InsertAscending(s, x))
    ensures forall y :: y in InsertAscending(s, x) <==> y in s || y == x
    decreases |s|
  {
    if s != [] && x > s[0] {
      var rest := InsertAscending(s[1..], x);
      InsertAscendingSpec(s[1..], x);
      assert s == [s[0]] + s[1..];
      forall j | 0 <= j < |rest| ensures s[0] < rest[j] {
        assert rest[j] in rest;
      }
    }
  }

  /** The battery sizes of a loaded file, each entry the number
      `Number()` reads from it (None when it reads NaN), in tenths of a
      kWh: the non-negative ones, with 0 added, each once, ascending. */
  function NormalizeBatterySizes(b: seq<Option<int>>): seq<int>
    decreases |b|
  {
    if b == [] then [0]
    else
      var r := NormalizeBatterySizes(b[..|b| - 1]);
      var x := b[|b| - 1];
      if x.Some? && x.value >= 0 then InsertAscending(r, x.value) else r
  }

  /** The cleaned list ascends strictly and holds exactly 0 and the
      non-negative sizes of the file. */
  lemma {:induction false} NormalizeBatterySizesSpec(b: seq<Option<int>>)
    ensures StrictlyAscending(NormalizeBatterySizes(b))
    ensures forall y :: y in NormalizeBatterySizes(b) <==> y == 0 || (Some(y) in b && y >= 0)
    decreases |b|
  {
    if b != [] {
      var init := b[..|b| - 1];
      NormalizeBatterySizesSpec(init);
      assert b == init + [b[|b| - 1]];
      var x := b[|b| - 1];
      if x.Some? && x.value >= 0 {
        InsertAscendingSpec(NormalizeBatterySizes(init), x.value);
      }
    }
  }

  /** Two strictly ascending lists with the same members are equal, so
      the cleaned list is the sorted list of `new Set([0, ...kept])`,
      whatever order the set is built in. */
  lemma {:induction false} AscendingUnique(a: seq<int>, b: seq<int>)
    requires StrictlyAscending(a) && StrictlyAscending(b)
    requires forall y :: y in a <==> y in b
    ensures a == b
    decreases |a|
  {
    if a == [] {
      if b != [] {
        HeadIn(b);
      }
    } else {
      assert a[0] in a;
      assert b != [];
      assert b[0] in b;
      assert a[0] == b[0];
      forall y ensures y in a[1..] <==> y in b[1..] {
        TailMembers(a, y);
        TailMembers(b, y);
      }
      AscendingUnique(a[1..], b[1..]);
      assert a == [a[0]] + a[1..];
      assert b == [b[0]] + b[1..];
    }
  }

  lemma HeadIn(b: seq<int>)
    requires b != []
    ensures b[0] in b
  {
  }

  /** The rest of a strictly ascending list holds its members other than
      the first. */
  lemma TailMembers(a: seq<int>, y: int)
    requires StrictlyAscending(a) && a != []
    ensures y in a[1..] <==> y in a && y != a[0]
  {
    assert a == [a[0]] + a[1..];
    if y in a[1..] {
      var i :| 0 <= i < |a[1..]| && a[1..][i] == y;
      assert a[0] < a[i + 1];
    }
  }

  /** `loadData` replaces the battery sizes only when the file loads as
      a non-empty array; otherwise the current sizes stay. */
  function LoadedBatterySizes(current: seq<int>, file: Option<seq<Option<int>>>): seq<int>
  {
    if file.Some? && |file.value| > 0 then NormalizeBatterySizes(file.value) else current
  }

  /** After loading, the sizes are the current ones, or the cleaned file:
      strictly ascending, containing 0, and holding exactly the file's
      non-negative sizes besides. */
  lemma LoadedBatterySizesSpec(current: seq<int>, file: Option<seq<Option<int>>>)
    ensures file.None? || |file.value| == 0 ==> LoadedBatterySizes(current, file) == current
    ensures file.Some? && |file.value| > 0 ==>
      var r := LoadedBatterySizes(current, file);
      && StrictlyAscending(r) && 0 in r
      && forall y :: y in r <==> y == 0 || (Some(y) in file.value && y >= 0)
  {
    if file.Some? && |file.value| > 0 {
      NormalizeBatterySizesSpec(file.value);
    }
  }

  /** The battery list of the run: the loaded sizes with the battery
      option on, and only "no battery" without it. */
  function BatteryList(s: Settings, sizes: seq<int>): seq<int>
  {
    if s.useBattery then sizes else [0]
  }

  /** The two alerts that stop `doCalc` before any estimate. */
  datatype CalcError = MissingBill | MissingUnitPrice

  datatype Calc =
    | Done(grid: seq<int>, bats: seq<int>, evals: seq<Eval>, picks: Picks, ranks: RankResult)
    | Failed(error: CalcError)

  /** `doCalc` once its inputs are read: refuse a bill or a unit price
      that is not positive, otherwise evaluate every configuration of the
      PV grid and the battery list, pick the candidates and rank them. */
  method Calculate(billYen: real, unitPrice: real, s: Settings, sizes: seq<int>, t: seq<Segment>) returns (r: Calc)
    requires s.pvStepKw > 0.0
    ensures billYen <= 0.0 ==> r == Failed(MissingBill)
    ensures billYen > 0.0 && unitPrice <= 0.0 ==> r == Failed(MissingUnitPrice)
    ensures billYen > 0.0 && unitPrice > 0.0 ==> r.Done?
    ensures r.Done? ==>
      && r.grid == PvGrid(s.pvMinKw, s.pvMaxKw, s.pvStepKw)
      && r.bats == BatteryList(s, sizes)
      && Evaluates(r.evals, Pairs(r.grid, r.bats), billYen, unitPrice, s, t)
      && r.picks.candidates == Take(Dedup(RawPicks(r.evals, s).out, {}), 6)
      && r.picks.messages == RawPicks(r.evals, s).messages
      && IsOverallBest(r.evals, r.picks.stats)
      && RanksFrom(r.evals, r.ranks.rankMap)
      && r.ranks.topProfit == Prefix(Arrange(r.evals, StableOrder(r.evals, ByProfit)), 10)
      && r.ranks.topRoi == Prefix(Arrange(r.evals, StableOrder(r.evals, ByRoi)), 10)
      && r.ranks.topPayback == Prefix(Arrange(r.evals, StableOrder(r.evals, ByPayback)), 10)
      && r.ranks.topBalanced == Prefix(r.evals, 10)
  {
    if billYen <= 0.0 {
      return Failed(MissingBill);
    }
    if unitPrice <= 0.0 {
      return Failed(MissingUnitPrice);
    }
    var grid := BuildPvGrid(s.pvMinKw, s.pvMaxKw, s.pvStepKw);
    assert grid == PvGrid(s.pvMinKw, s.pvMaxKw, s.pvStepKw);
    var bats := if s.useBattery then sizes else [0];
    var evals := EvaluateAll(grid, bats, billYen, unitPrice, s, t);
    var picks := PickCandidates(evals, s);
    var ranks := ComputeRanks(evals);
    r := Done(grid, bats, evals, picks, ranks);
  }

  /** With a step of at least 0.01 kW the grid strictly ascends. */
  lemma PvGridAscends(minKw: real, maxKw: real, stepKw: real)
    requires stepKw >= 0.01
    ensures StrictlyAscending(PvGrid(minKw, maxKw, stepKw))
  {
    var g := PvGrid(minKw, maxKw, stepKw);
    forall a, b | 0 <= a < b < |g| ensures g[a] < g[b] {
      GridPointsAscend(minKw, stepKw, a, b);
    }
  }

  /** A run over an ascending grid and ascending battery sizes (which
      the cleanup of `loadData` yields) evaluates no configuration twice. */
  lemma DistinctConfigurations(grid: seq<int>, bats: seq<int>, evals: seq<Eval>,
                               billYen: real, unitPrice: real, s: Settings, t: seq<Segment>)
    requires StrictlyAscending(grid) && StrictlyAscending(bats)
    requires Evaluates(evals, Pairs(grid, bats), billYen, unitPrice, s, t)
    ensures forall i, j :: 0 <= i < j < |evals| ==> KeyOf(evals[i]) != KeyOf(evals[j])
  {
    var keys := Pairs(grid, bats);
    PairsOrdered(grid, bats);
    OrderedKeysDistinct(keys);
    forall i | 0 <= i < |evals| ensures KeyOf(evals[i]) == keys[i] {
      EvaluationKeys(keys[i].pv, keys[i].bat, billYen, unitPrice, s, t);
    }
  }

  /** For a completed run with a step of at least 0.01 kW and
      ascending battery sizes, the configuration at position a of any of
      the four orders has rank a + 1 in that order: each rank is a
      position, and the ranking is a bijection. */
  lemma RunRanksArePositions(r: Calc, billYen: real, unitPrice: real, s: Settings, sizes: seq<int>, t: seq<Segment>, c: Criterion, a: int)
    requires s.pvStepKw >= 0.01 && StrictlyAscending(sizes)
    requires r.Done? && r.grid == PvGrid(s.pvMinKw, s.pvMaxKw, s.pvStepKw) && r.bats == BatteryList(s, sizes)
    requires Evaluates(r.evals, Pairs(r.grid, r.bats), billYen, unitPrice, s, t)
    requires RanksFrom(r.evals, r.ranks.rankMap)
    requires 0 <= a < |r.evals|
    ensures KeyOf(Arrange(r.evals, StableOrder(r.evals, c))[a]) in r.ranks.rankMap
    ensures RankOf(r.ranks.rankMap[KeyOf(Arrange(r.evals, StableOrder(r.evals, c))[a])], c) == Some(a + 1)
  {
    PvGridAscends(s.pvMinKw, s.pvMaxKw, s.pvStepKw);
    DistinctConfigurations(r.grid, r.bats, r.evals, billYen, unitPrice, s, t);
    RankIsPosition(r.evals, r.ranks.rankMap, c, a);
  }

  /** The candidates of a completed run: at most six, no configuration
      twice, in the order they were pushed, each evaluated, within the
      budget and without a battery when the battery option is off. */
  lemma RunCandidatesOffered(r: Calc, s: Settings)
    requires r.Done? && r.picks.candidates == Take(Dedup(RawPicks(r.evals, s).out, {}), 6)
    ensures |r.picks.candidates| <= 6
    ensures forall i, j :: 0 <= i < j < |r.picks.candidates| ==> r.picks.candidates[i].key != r.picks.candidates[j].key
    ensures forall i :: 0 <= i < |r.picks.candidates| ==> Offerable(r.picks.candidates[i], r.evals, s)
    ensures InOrderOf(r.picks.candidates, RawPicks(r.evals, s).out)
  {
    CandidatesOffered(r.evals, s);
  }
}
