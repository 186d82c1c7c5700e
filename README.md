# PV + battery estimator: a verified model

This project models the estimation core of a contractor's quoting tool for rooftop solar panels with an optional home battery (`app.js`). Given a monthly electricity bill, a unit price and the contractor's settings, the tool does the following:

- turns the bill into a monthly usage;
- splits each day's energy between the PV panels, the battery and the grid;
- prices every configuration on a PV-size grid crossed with a list of battery sizes;
- computes each configuration's benefit over the horizon, its net profit, its return on investment and the year it pays back;
- picks up to six plans to offer the customer, within a budget and obeying the battery switch;
- ranks all configurations by profit, ROI, payback and a "balanced" order.

Sizes are integers: PV in hundredths of a kW and battery capacity in tenths of a kWh. This makes the `comboKey` string `pvKw.toFixed(2)|batKwh.toFixed(1)` the pair `Key(pv, bat)`. Money and energy are exact `real`s.

The two infinities are datatypes:
- Infinity as a payback is `Payback.Never`.
- -Infinity as an ROI is `Roi.MinusInfinity`.

A missing budget (`Infinity`) is `None`. An unset horizon (`settings.horizonYears` undefined, read as `|| 15`) is `0`.

Modules follow the program's structure:
- `Basics`: min/max/round/clamp, filter, and the first maximum of a strict `>` reduce.
- `Tariff`: feed-in tariff lookup.
- `Flows`: bill to usage, and the daily flow split.
- `Pricing`: the price models.
- `Config`: settings and their clamps.
- `Economics`: the horizon economics, payback and evaluation.
- `Grid`: the PV grid and the enumeration loop.
- `Selection`: `pickCandidates`.
- `Ranking`: `computeRanks`.
- `Calculator`: the run of `doCalc`, and the battery-size cleanup.

Loops that build up state step by step are methods with loop invariants, each proved against a specification function:
- `FitRevenue` and `PaybackYears`;
- `BuildPvGrid` and `EvaluateAll`;
- `OverallStats` and `DedupFirstSix`;
- `AssignRanks`.

The methods that compose them have no loop of their own, and are proved against the functions of the steps they call: `PickCandidates`, `ComputeRanks` and `Calculate`.

Loops that only search a list, and the array built-ins, are recursive functions:
- the `for...of` loop of `yearlyFitRate`, which returns at the first covering segment, is `Tariff.RateFrom`;
- `filter` is `Basics.Filter`, a strict `>` `reduce` is `Basics.FirstMax`, and `Math.min(...)` is `Basics.MinOf`; `pickTwo` and the extra slots of `pickCandidates` are built from these;
- each `[...evals].sort(cmp)` is the insertion sort `Ranking.SortedPrefix`;
- the `map`/`filter`/`Set`/`sort` chain of the battery-size cleanup is `Calculator.NormalizeBatterySizes`.

The straight-line code consists of functions. The lemmas state what each promises.

## Model

| member | source | states |
|---|---|---|
| Basics.Clamp | app.js:48 | the result lies in [lo, hi] for a proper interval; equals v when v lies inside it; is lo below and hi above; is hi for an empty interval |
| Basics.Round | app.js:241 | Math.round on exact reals: the nearest integer, r - 0.5 <= x < r + 0.5 |
| Basics.Filter | app.js:264 | `filter`; stated by `FilterMembers` |
| Basics.FirstMax | app.js:275 | the index a strict `>` `reduce` keeps; stated by `FirstMaxIsFirstMax` |
| Basics.FirstMaxIsFirstMax | app.js:275 | the index a strict `>` reduce keeps holds a largest value, and no earlier element is as large |
| Basics.FilterMembers | app.js:264 | `filter` keeps exactly the elements that pass the test: all of them, and nothing else |
| Basics.FirstMaxSurvivesFilter | app.js:292-298 | the first maximum of a list is still the first maximum of a filtered list that keeps it |
| Basics.MinOf | app.js:266 | `Math.min(...)` of a non-empty list is one of its elements and no element is smaller |
| Tariff.YearlyFitRate | app.js:113-118 | the rate lookup; what it returns is stated by `YearlyFitRateSpec` and `YearlyFitRateFromTable` |
| Tariff.YearlyFitRateSpec | app.js:113-118 | the first segment covering the year gives the rate; a year no segment covers gets the last segment's rate, or 0 for an empty table |
| Tariff.YearlyFitRateFromTable | app.js:113-118 | every rate the lookup returns is a table rate (0 for an empty table), hence non-negative for a table of non-negative rates |
| Tariff.DefaultTariffRates | app.js:37-41 | the built-in table: 24 yen in years 1-4, 8.3 yen in years 5-10, and 8.5 yen from year 11 on and for years outside 1-15 |
| Flows.BillToUsageKwhMonth | app.js:121-125 | the bill-to-usage conversion; stated by `BillToUsageSpec` and inverted by `BillForUsage` in `BillUsageRoundTrip` |
| Flows.BillToUsageSpec | app.js:121-125 | the variable bill is the bill above the fixed fee and never negative; usage times unit price is the variable bill; usage is 0 at a non-positive price or a bill at or below the fee |
| Flows.BillUsageRoundTrip | app.js:121-125 | converting a bill that covers the fee to usage and pricing it again gives the bill back; converting a priced usage gives the usage back |
| Flows.Split | app.js:135-146 | the straight-line split of one day's output and loads; it keeps the output and loads it is given, and `SplitFollowsDispatchOrder` and `SplitBalanced` state its flows |
| Flows.SplitFollowsDispatchOrder | app.js:128-146 | with a non-negative battery size, the split keeps to the `DispatchOrder` priorities. PV goes to the day load until one of them runs out. The battery charges only once the day load is covered, and then takes all the leftover output until it is full. Power is sold only once the day load is covered and the battery is full. The grid serves the night only once the battery is empty |
| Flows.DispatchDeterminesSplit | app.js:128-146 | any `Balanced` flows that keep to the `DispatchOrder` priorities are exactly the split of `dailyFlows` |
| Flows.BalanceAllowsOtherOrders | app.js:128-146 | balance alone does not fix the order: a balanced split that charges the battery while part of the day load is bought exists |
| Flows.SplitBalanced | app.js:135-146 | with non-negative inputs the flows are `Balanced`: PV output = to-day + to-battery + sold; self-consumption = to-day + battery-to-night, and self-consumption + grid = load; every flow non-negative and within its bounds; the sold surplus is the output beyond the day load and the battery size; no battery means nothing stored and the surplus sold |
| Flows.SplitMaximisesSelfConsumption | app.js:128-146 | no balanced split of the same output and loads with the same battery consumes more of its own energy than the dispatch order of `dailyFlows` |
| Flows.DailyFlows | app.js:129-155 | the daily split; stated by `DailyFlowsBalance`, `DailyFlowsDispatch` and `SplitMaximisesSelfConsumption` |
| Flows.DailyFlowsBalance | app.js:129-155 | the day and night loads add up to the usage; PV output is size times yield; for sensible inputs (0 <= nightPct <= 100) the day's flows balance |
| Flows.DailyFlowsDispatch | app.js:128-155 | for every non-negative battery size, the flows of `dailyFlows` keep to the `DispatchOrder` priorities: the day load first, then the battery until it is full, then the sale of the surplus; at night the battery first, then the grid |
| Pricing.BaseMedianYen | app.js:27-29 | the base-median polynomial; stated by `BaseMedianAtLeastFixedPart` and the two monotonicity lemmas |
| Pricing.RangeWidthYen | app.js:32-34 | half the width of the quoted range; stated by `PriceRange` |
| Pricing.EstimateCustomerPrice | app.js:186-194 | the quoted price; stated by `PriceRange` and `MedianPositive` |
| Pricing.PriceRange | app.js:186-194 | median = base * (1 + profit%/100); min and max lie `width` either side; max - min = 2 (x + z) 25000; min <= median <= max for non-negative sizes |
| Pricing.BaseMedianAtLeastFixedPart | app.js:27-29 | over sizes far beyond the settings' limits the base median is at least its constant part |
| Pricing.BaseMedianIncreasingInPv | app.js:27-29 | below the parabola's vertex a larger PV size has a larger base median |
| Pricing.BaseMedianIncreasingInBattery | app.js:27-29 | below the vertex a larger battery has a larger base median |
| Pricing.MedianPositive | app.js:186-194 | for sensible sizes and a profit rate above -100% the median is positive, so the ROI is a finite ratio |
| Config.Sanitize | app.js:484-493 | the clamped settings lie in the saved ranges, with the PV maximum clamped against the clamped minimum; in-range settings are unchanged; horizon, budget and battery switch are untouched |
| Config.SanitizeIdempotent | app.js:484-493 | clamping twice is clamping once; the defaults are already in range |
| Economics.HorizonYears | app.js:172 | `horizonYears \|\| 15` is at least one year |
| Economics.FitRevenue | app.js:174-178 | the revenue loop sums each year's sold energy at that year's rate over years 1..years |
| Economics.Econ15y | app.js:157-184 | what `estimate15yEconomics` returns; the method `Estimate15yEconomics` computes it, and `BenefitIsCumulative` and `EconOverSums` state its benefit |
| Economics.Estimate15yEconomics | app.js:157-184 | the method computes the economics `Econ15y` specifies |
| Economics.CumulativeSplits | app.js:174-181 | the sum of the yearly benefits is avoided purchases times years plus the feed-in revenue |
| Economics.BenefitIsCumulative | app.js:221-226 | the horizon benefit is the payback closure's yearly benefits summed over the horizon |
| Economics.EconOverSums | app.js:168-183 | the same statement once the daily flows are known |
| Economics.DefaultFifteenYearRevenue | app.js:174-178 | with the built-in tariffs, fifteen years of feed-in revenue are pvSold * 68729.5 yen |
| Economics.RepeatedIsProduct | app.js:180 | adding the yearly avoided purchases n times is multiplying by n |
| Economics.PaybackOf | app.js:196-210 | what `paybackYears` returns; stated by `PaybackCharacterised` and `PaybackBracket` |
| Economics.PaybackYears | app.js:196-210 | the loop with its running sum and early return computes `PaybackOf` |
| Economics.PaybackCharacterised | app.js:196-210 | Never exactly when year 1's benefit is not positive or the sum stays below the cost through year 15; otherwise the interpolated value at the first year that reaches the cost |
| Economics.PaybackBracket | app.js:196-210 | for a positive cost a finite payback lies in (y - 1, y] for the first year y reaching the cost, hence in (0, 15] |
| Economics.Assess | app.js:215-230 | profit, ROI and payback of one configuration; stated by `AssessMetrics` |
| Economics.Evaluation | app.js:212-231 | what `evaluateCombo` returns; stated by `AssessMetrics` and `PaybackAgreesWithProfit` |
| Economics.AssessCombo | app.js:215-230 | the second half of `evaluateCombo`, with the payback loop, computes `Assess` |
| Economics.EvaluateCombo | app.js:212-231 | the method computes `Evaluation` |
| Economics.AssessMetrics | app.js:215-230 | net profit = benefit - median; ROI is finite exactly when the median is positive, then ROI * median = net profit with the same sign; payback is the median's against the yearly benefits |
| Economics.PaybackAgreesWithBenefit | app.js:196-210 | when the benefit is the 15-year sum: breaking even with a positive first year means a finite payback; with no negative year, a finite payback means breaking even |
| Economics.PaybackAgreesWithProfit | app.js:212-231 | over a 15-year horizon, `evaluateCombo`'s payback and net profit agree as above |
| Economics.CumulativeMonotone | app.js:202-203 | with no negative year the cumulative benefit does not decrease |
| Grid.GridPointsIncrease | app.js:240-243 | points one step of at least 0.01 kW apart differ by at least one hundredth |
| Grid.GridPointsAscend | app.js:240-243 | with a step of at least 0.01 kW any later grid point is larger |
| Grid.PvGrid | app.js:233-245 | the points `buildPvGrid` lists; `BuildPvGrid` computes them, and `GridPointsAscend` and `GridSpansRange` state their order and span |
| Grid.BuildPvGrid | app.js:233-245 | round((max - min) / step) + 1 points, or none when that is negative; point i is min + step * i rounded to 0.01 kW; strictly ascending for steps of at least 0.01 kW |
| Grid.GridSpansRange | app.js:239-243 | the grid starts at the rounded minimum; the last point, in hundredths of a kW, lies within half a step plus half a hundredth (0.005 kW) of the maximum |
| Grid.LastValueNearMax | app.js:239 | the number of steps is not negative, and before rounding `min + step * n` lies within half a step of the maximum |
| Grid.SanitizedGridAtLeastHalfKw | app.js:491-493 | with clamped settings every grid point is at least 0.5 kW |
| Grid.EvaluateAll | app.js:729-737 | the nested loop holds the evaluation of every (PV, battery) configuration, PV size outermost |
| Grid.PairsLength | app.js:731-736 | the loop evaluates |grid| * |bats| configurations |
| Grid.PairsAtIndex | app.js:731-736 | position i * |bats| + j is PV size grid[i] with battery bats[j] |
| Grid.PairsSizes | app.js:730-736 | every configuration pairs a grid size with a listed battery size; with the battery off every configuration is PV-only |
| Grid.PairsOrdered | app.js:731-736 | for ascending grid and battery lists the configurations come in strictly ascending (pv, bat) order |
| Grid.KeyOf | app.js:503-505 | `comboKey` as the pair of integer sizes; `OrderedKeysDistinct` states when keys differ |
| Grid.OrderedKeysDistinct | app.js:503-505 | configurations in strictly ascending order have pairwise distinct keys |
| Selection.EffectiveBudget | app.js:249 | the budget in force is the given one exactly when it is positive, otherwise none |
| Selection.PickTwo | app.js:263-312 | `pickTwo`; stated by `PickTwoNoneAffordable`, `PickFromSpec` and `GroupPicksOfferable` |
| Selection.PickFrom | app.js:275-311 | the picks from a non-empty list within the budget; stated by `PickFromSpec` and `PickFromShape` |
| Selection.PickTwoNoneAffordable | app.js:264-273 | with nothing within the budget, no picks and one message: "none within budget" with the lowest price minimum, which exceeds the budget, for a budget and a non-empty group; otherwise "no candidates"; without a budget this happens only for an empty group |
| Selection.PaybackPick | app.js:277-308 | the payback pick beside the profit winner; stated by `PaybackPickSpec` |
| Selection.PaybackPickSpec | app.js:277-308 | the payback pick is the profit winner or one of the list; it differs from the profit winner exactly when the list holds another configuration, and is then the first quickest finite payback among the others, or failing that the first most profitable among them |
| Selection.PushSecond | app.js:281-287 | `push` onto the first pick adds a candidate exactly when its configuration differs |
| Selection.PickFromSpec | app.js:275-311 | from a non-empty list: 1 or 2 picks; the first is the first most profitable under the strict `>` reduce; a second exists exactly when another configuration does, has a different key and is the `SecondChoice` |
| Selection.PickFromShape | app.js:281-311 | the picks are the profit winner followed by the payback pick when that is another configuration |
| Selection.GroupPicksOfferable | app.js:263-312 | a group's picks are at most two, each within the budget, evaluated, and PV-only when the battery is off |
| Selection.ExtraPicksOfferable | app.js:325-340 | the two extra slots are at most one each, and offerable |
| Selection.InvestPick | app.js:325-331 | the largest-investment slot; stated by `ExtraPicksChosen` |
| Selection.QuickPick | app.js:333-340 | the quickest-payback slot; stated by `ExtraPicksChosen` |
| Selection.ExtraPicksChosen | app.js:325-340 | the largest-investment slot exists exactly when something is within the budget and is the first largest median; the quickest-payback slot exists exactly when a finite payback does and is the first quickest. The largest-investment message appears exactly when nothing is within the budget. The quickest-payback message appears only when something is within the budget but no payback is finite, so with nothing within the budget only the first message is given |
| Selection.RawPicks | app.js:314-340 | the candidates before deduplication, in push order, and the messages; stated by `RawPicksOfferable` |
| Selection.RawPicksOfferable | app.js:314-340 | at most six raw picks, all offerable |
| Selection.AllOfferableConcat | app.js:318-321 | joining two offerable lists gives an offerable list |
| Selection.Dedup | app.js:341-351 | deduplication by key; stated by `DedupSpec` |
| Selection.DedupSpec | app.js:341-351 | deduplication keeps only unseen keys, no key twice, the first candidate of every unseen key, and the candidates it keeps in the order they were pushed (a subsequence of the input) |
| Selection.DedupKeeps | app.js:341-351 | which candidates deduplication keeps: only unseen keys, no key twice, the first candidate of every unseen key |
| Selection.DedupInOrder | app.js:341-351 | the deduplicated list is a subsequence of the pushed list: its elements sit there at strictly increasing positions |
| Selection.OverallStats | app.js:353-359 | the stats loop gives the largest net profit (-Infinity when empty), an ROI nothing exceeds, and the quickest finite payback (Never when there is none), each attained |
| Selection.DedupFirstSix | app.js:341-351 | the loop with its seen set and break at six keeps the first six of the deduplicated list |
| Selection.PickCandidates | app.js:247-362 | candidates are the deduplicated raw picks, at most six; the messages; the overall stats; the budget in force; the horizon |
| Selection.CandidatesOffered | app.js:318-351 | at most six candidates with pairwise distinct keys, each offerable, every configuration among the raw picks kept under its first label, in the order they were pushed, and the cap never drops one |
| Selection.DedupOffered | app.js:341-351 | deduplicating at most six offerable candidates keeps them all offerable, distinct, in order, and the cap of six drops none |
| Ranking.ScoreOf | app.js:510-538 | the value each comparator sorts by; `FinitePaybackFirst` and `BalancedInsertAppends` state how payback and balanced scores compare |
| Ranking.SortedPrefix | app.js:510 | the stable sort of the first n positions; stated by `SortedPrefixSpec` |
| Ranking.StableOrder | app.js:510-538 | the positions in the order each `sort` leaves them; stated by `StableOrderSpec` |
| Ranking.InsertInRange | app.js:510 | inserting a position keeps a valid order that holds that position once more |
| Ranking.InsertSorted | app.js:510 | inserting a later position into a stable order keeps it stable |
| Ranking.SortedPrefixSpec | app.js:510 | the stable order of the first n positions holds each of them once, sorted by score with ties in input order |
| Ranking.StableOrderSpec | app.js:510-538 | each order has every configuration once, sorted by its comparator, with equal scores in input order |
| Ranking.BalancedIsInputOrder | app.js:535 | with `_balancedDist` never set, the balanced order is the input order |
| Ranking.BalancedInsertAppends | app.js:535 | under the balanced comparator every configuration ties, so insertion appends |
| Ranking.FirstMaxAtUnique | app.js:275 | the first maximum is at one position only |
| Ranking.TopProfitIsFirstMax | app.js:275 | the head of the profit order is the configuration `pickTwo`'s reduce finds |
| Ranking.FinitePaybackFirst | app.js:526-530 | a finite payback ranks before an infinite one |
| Ranking.SetRankSpec | app.js:513-515 | setting one rank changes only that rank |
| Ranking.LastIndexSpec | app.js:511-516 | the last position of a key: -1 exactly when missing, otherwise that key with no later occurrence |
| Ranking.LastIndexOfDistinct | app.js:511-516 | without repetitions, a key's last position is its only position |
| Ranking.AssignRanks | app.js:511-516 | one `forEach` gives each configuration in the order its last 1-based position as that rank, adds missing entries, and leaves other ranks and entries as they were |
| Ranking.RankedStep | app.js:512-515 | one iteration preserves that invariant |
| Ranking.ComputeRanks | app.js:507-586 | the rank map holds exactly the evaluated configurations, each rank one more than the last position in its order; each top list is the first ten of its order, the balanced one of the input |
| Ranking.RanksChain | app.js:509-540 | the four passes together give `RanksFrom` |
| Ranking.FourPasses | app.js:509-540 | four passes over orders that visit exactly the evaluated configurations leave all four ranks of each |
| Ranking.PassesAt | app.js:509-540 | a later pass keeps the ranks the earlier ones set for a configuration |
| Ranking.KeptRank | app.js:511-524 | a pass for one criterion leaves another criterion's rank alone |
| Ranking.KeysAlongOrder | app.js:510-516 | each order visits exactly the evaluated configurations |
| Ranking.RankOfCriterion | app.js:507-540 | under every criterion a configuration's rank is one more than its last position in that order |
| Ranking.RankIsPosition | app.js:507-540 | with distinct configurations, the one at position a of an order has rank a + 1 |
| Calculator.InsertAscendingSpec | app.js:106-107 | inserting into an ascending list keeps it strictly ascending and adds exactly that value |
| Calculator.NormalizeBatterySizes | app.js:106-107 | the battery-size cleanup; stated by `NormalizeBatterySizesSpec` and `AscendingUnique` |
| Calculator.NormalizeBatterySizesSpec | app.js:106-107 | the cleaned battery list is strictly ascending and holds exactly 0 and the file's non-negative numbers |
| Calculator.AscendingUnique | app.js:106-107 | two strictly ascending lists with the same members are equal, so the cleaned list is the sorted deduplicated set |
| Calculator.TailMembers | app.js:106-107 | the tail of a strictly ascending list holds its members other than the first |
| Calculator.LoadedBatterySizes | app.js:104-109 | the battery sizes after loading a file; stated by `LoadedBatterySizesSpec` |
| Calculator.LoadedBatterySizesSpec | app.js:104-109 | the sizes change only for a non-empty array, and then become the cleaned list: ascending, containing 0 |
| Calculator.BatteryList | app.js:730 | the battery list of a run: the loaded sizes with the battery on, only 0 without it; stated by `Calculate` |
| Calculator.Calculate | app.js:698-740 | a non-positive bill or unit price stops the run with its error; otherwise the grid, the battery list (only 0 with the battery off), the evaluations of every configuration, the picks `pickCandidates` gives for them, and the rank map and top lists `computeRanks` gives for the evaluations |
| Calculator.PvGridAscends | app.js:233-245 | with a step of at least 0.01 kW the grid strictly ascends |
| Calculator.DistinctConfigurations | app.js:729-737 | an ascending grid with ascending battery sizes evaluates no configuration twice |
| Calculator.RunRanksArePositions | app.js:729-740 | in a completed run with a step of at least 0.01 kW and ascending battery sizes, each order's position a has rank a + 1: ranks are a permutation of 1..n |
| Calculator.RunCandidatesOffered | app.js:739 | a completed run offers at most six candidates, with distinct configurations, in the order `pickCandidates` pushed them, each evaluated, within the budget and without a battery when the battery option is off |

## Left out

- The DOM, rendering, alerts, localStorage, the passcode and `fetch` are left out. A run takes the bill, unit price, settings, battery sizes and tariff table as parameters. The two alerts of `doCalc` are the `CalcError` results.
- Parsing the input fields of `doCalc` is left out. This covers `Number(... || default)` for the bill and unit price, and the budget and horizon fields. The budget and horizon arrive already in the settings: `None` for no budget, `0` for no horizon. A NaN bill or unit price, which the source also refuses, has no counterpart.
- Floating-point arithmetic is left out: all amounts are exact reals. `Round` is Math.round on exact values. The `toFixed` keys are the integer pair `Key`, which assumes that PV sizes fall on 0.01 kW and battery sizes on 0.1 kWh.
- Calculator.NormalizeBatterySizes: file entries are given in tenths of a kWh, with None for entries that `Number()` reads as NaN. Sizes finer than 0.1 kWh are not modelled.
- The top-ten row mapping of `computeRanks` (rounded yen, percentages, `toFixed`) is left out, since it is presentation. The top lists are the first ten evaluations of each order.
- `profitTolYen`, `roiTolPt` and `paybackTolY` are never read by the estimation, and `showDebug` is debug output only, so none of them is modelled.
- Flows.SplitFollowsDispatchOrder and Flows.DailyFlowsDispatch require a battery size of at least 0. With a negative size the split would "charge" a negative amount and sell the difference, which no battery list allows: `NormalizeBatterySizes` keeps only non-negative entries.
- Grid.BuildPvGrid and Calculator.Calculate require a positive PV step. With a step of 0 the source's loop bound is not a finite number. The clamps of the settings screen keep the step at 0.01 kW or more.
- `evaluateCombo` recomputes `annualAvoid` from the flows. `BenefitsOf` uses that same expression, so the closure `yearlyBenefits` is the first-order `Benefits` record (avoided purchases, energy sold, tariffs) applied by `YearlyBenefits`.
- Messages are a datatype. Their Japanese wording and the `planNote` text are not modelled.
- Tariff.YearlyFitRate: the `for...of` loop with its early `return`, and the `filter`, `reduce` and `find` chains of `pickTwo` and `pickCandidates`, are recursive functions. The model gives the value each returns, not the early exit as control flow.
- Parsing the horizon field (`Math.round` of a number of at least 1, otherwise the never-defined `settings.defaultHorizonYears`) is part of the input parsing above; an unparsed horizon reaches the estimation as `0`.
- JavaScript's sort is modelled by its result. A stable sort by each comparator puts equal scores in input order. An ROI comparison of two -Infinity values yields NaN, which counts as "equal".
