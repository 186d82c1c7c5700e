/** `pickCandidates` (app.js:247-362): the plans offered to the customer.
    From all evaluated configurations it picks, per group (PV only, and
    PV with a battery when the battery is switched on), the configuration
    with the largest net profit and a second one chosen for its payback;
    then, over the eligible configurations, the one with the largest
    investment within the budget and the one with the quickest payback.
    The picks are deduplicated by configuration and capped at six. */
module Selection {
  import opened Basics
  import opened Config
  import opened Economics
  import opened Grid

  datatype Group = PvOnly | WithBattery

  /** The label a candidate is offered under. */
  datatype Slot =
    | MostProfit(group: Group)
    | QuickestPayback(group: Group)
    | LargestInvestment
    | QuickestPaybackOverall

  datatype Candidate = Candidate(slot: Slot, key: Key, cand: Eval)

  /** The notes shown when a slot cannot be filled. */
  datatype Message =
    | NoneWithinBudget(group: Group, lowestMin: real)
    | NoCandidates(group: Group)
    | NoInvestmentWithinBudget
    | NoFinitePayback

  datatype Picked = Picked(out: seq<Candidate>, messages: seq<Message>)

  /** The budget in force: a finite positive budget, or none (Infinity). */
  function EffectiveBudget(b: Option<real>): (r: Option<real>)
    ensures r.Some? <==> b.Some? && b.value > 0.0
    ensures r.Some? ==> r.value == b.value
  {
    if b.Some? && b.value > 0.0 then b else None
  }

  /** `withinBudget`: the lower end of the price range is within the
      budget; everything is within no budget. */
  predicate WithinBudget(budget: Option<real>, e: Eval)
  {
    budget.None? || e.price.min <= budget.value
  }

  function Affordable(budget: Option<real>): Eval -> bool
  {
    e => WithinBudget(budget, e)
  }

  function KeyOtherThan(k: Key): Eval -> bool
  {
    e => KeyOf(e) != k
  }

  predicate IsPvOnly(e: Eval)
  {
    e.bat == 0
  }

  predicate HasBattery(e: Eval)
  {
    e.bat > 0
  }

  predicate HasFinitePayback(e: Eval)
  {
    e.payback.Finite?
  }

  function NetProfitOf(e: Eval): real
  {
    e.netProfit
  }

  function MedianOf(e: Eval): real
  {
    e.price.median
  }

  /** Quicker payback scores higher: a reduce keeping `c.payback <
      p.payback` is a first maximum of this score. */
  function NegPayback(e: Eval): real
  {
    if e.payback.Finite? then -e.payback.years else 0.0
  }

  function PriceMins(s: seq<Eval>): seq<real>
  {
    seq(|s|, k requires 0 <= k < |s| => s[k].price.min)
  }

  function Take<T>(s: seq<T>, n: nat): seq<T>
  {
    if |s| <= n then s else s[..n]
  }

  /** The `push` closure of `pickTwo`: add a candidate unless one with the
      same configuration is already there. */
  function Push(out: seq<Candidate>, slot: Slot, cand: Eval): seq<Candidate>
  {
    if HasKey(out, KeyOf(cand)) then out
    else out + [Candidate(slot, KeyOf(cand), cand)]
  }

  /** `out.some(x => x.key === key)`. */
  predicate HasKey(out: seq<Candidate>, k: Key)
  {
    exists i :: 0 <= i < |out| && out[i].key == k
  }

  /** `pickTwo`: the configuration of `arrAll` within the budget with the
      largest net profit, then the `PaybackPick` beside it. */
  function PickTwo(arrAll: seq<Eval>, group: Group, budget: Option<real>): Picked
  {
    var arr := Filter(arrAll, Affordable(budget));
    if arr == [] then
      if budget.Some? && |arrAll| > 0 then Picked([], [NoneWithinBudget(group, MinOf(PriceMins(arrAll)))])
      else Picked([], [NoCandidates(group)])
    else Picked(PickFrom(arr, group), [])
  }

  /** The picks of `pickTwo` from the non-empty list `arr` of
      configurations within the budget. */
  function PickFrom(arr: seq<Eval>, group: Group): seq<Candidate>
    requires arr != []
  {
    var profitWinner := arr[FirstMax(arr, NetProfitOf)];
    var first := Push([], MostProfit(group), profitWinner);
    Take(Push(first, QuickestPayback(group), PaybackPick(arr, profitWinner)), 2)
  }

  /** What `pickTwo` pushes second: the configuration with the quickest
      payback, or when that is `profitWinner` the next quickest, or failing
      that the next most profitable, or as a last resort `profitWinner`
      itself (which `push` then refuses). Stable sorting followed by `find`
      is the first maximum over the configurations `find` accepts. */
  function PaybackPick(arr: seq<Eval>, profitWinner: Eval): Eval
  {
    var finite := Filter(arr, HasFinitePayback);
    var k0 := KeyOf(profitWinner);
    if finite != [] && KeyOf(finite[FirstMax(finite, NegPayback)]) != k0 then
      finite[FirstMax(finite, NegPayback)]
    else
      var alts := Filter(finite, KeyOtherThan(k0));
      if alts != [] then alts[FirstMax(alts, NegPayback)]
      else
        var altsP := Filter(arr, KeyOtherThan(k0));
        if altsP != [] then altsP[FirstMax(altsP, NetProfitOf)]
        else profitWinner
  }

  /** When nothing in the group is within the budget, there are no picks
      and one message: with a budget and a non-empty group it reports the
      lowest price-range minimum, which lies above the budget; otherwise
      the group is empty. */
  lemma PickTwoNoneAffordable(arrAll: seq<Eval>, group: Group, budget: Option<real>)
    ensures var p := PickTwo(arrAll, group, budget);
      Filter(arrAll, Affordable(budget)) == [] ==>
        && p.out == [] && |p.messages| == 1
        && (p.messages[0].NoneWithinBudget? <==> budget.Some? && |arrAll| > 0)
        && (p.messages[0].NoCandidates? <==> !(budget.Some? && |arrAll| > 0))
        && p.messages[0].group == group
        && (budget.None? ==> arrAll == [])
        && (p.messages[0].NoneWithinBudget? ==>
              && budget.value < p.messages[0].lowestMin
              && (exists k :: 0 <= k < |arrAll| && arrAll[k].price.min == p.messages[0].lowestMin)
              && (forall k :: 0 <= k < |arrAll| ==> p.messages[0].lowestMin <= arrAll[k].price.min))
  {
    var arr := Filter(arrAll, Affordable(budget));
    if arr == [] {
      FilterMembers(arrAll, Affordable(budget));
      if budget.Some? && |arrAll| > 0 {
        var mins := PriceMins(arrAll);
        var m := MinOf(mins);
        var k :| 0 <= k < |mins| && mins[k] == m;
        assert !Affordable(budget)(arrAll[k]);
        forall j | 0 <= j < |arrAll| ensures m <= arrAll[j].price.min {
          assert mins[j] == arrAll[j].price.min;
        }
      }
    }
  }

  /** The second pick of `pickTwo` when its first pick is configuration
      `k0`: among the other configurations with a finite payback the first
      with the quickest payback, and when there is none, among all other
      configurations the first with the largest net profit. */
  ghost predicate SecondChoice(arr: seq<Eval>, k0: Key, x: Eval)
  {
    var alts := Filter(Filter(arr, HasFinitePayback), KeyOtherThan(k0));
    if alts != [] then IsFirstMax(alts, NegPayback, x)
    else IsFirstMax(Filter(arr, KeyOtherThan(k0)), NetProfitOf, x)
  }

  /** The payback pick is another configuration exactly when `arr` holds
      one, and it is then the `SecondChoice`: in particular the quickest
      payback overall, when that is not `profitWinner`, is the quickest
      among the others. It is always one of `arr` or `profitWinner`. */
  lemma PaybackPickSpec(arr: seq<Eval>, profitWinner: Eval)
    ensures var r := PaybackPick(arr, profitWinner);
      && (r in arr || r == profitWinner)
      && (KeyOf(r) != KeyOf(profitWinner) <==> exists k :: 0 <= k < |arr| && KeyOf(arr[k]) != KeyOf(profitWinner))
      && (KeyOf(r) != KeyOf(profitWinner) ==> SecondChoice(arr, KeyOf(profitWinner), r))
  {
    var r := PaybackPick(arr, profitWinner);
    var k0 := KeyOf(profitWinner);
    var finite := Filter(arr, HasFinitePayback);
    var alts := Filter(finite, KeyOtherThan(k0));
    var altsP := Filter(arr, KeyOtherThan(k0));
    FilterMembers(arr, HasFinitePayback);
    FilterMembers(finite, KeyOtherThan(k0));
    FilterMembers(arr, KeyOtherThan(k0));
    if finite != [] && KeyOf(finite[FirstMax(finite, NegPayback)]) != k0 {
      var j := FirstMax(finite, NegPayback);
      assert r == finite[j];
      assert FirstMaxAt(finite, NegPayback, j);
      var k := FirstMaxSurvivesFilter(finite, NegPayback, KeyOtherThan(k0), j);
      assert FirstMaxAt(alts, NegPayback, k);
    } else if alts != [] {
      FirstMaxIsFirstMax(alts, NegPayback);
      assert r == alts[FirstMax(alts, NegPayback)];
    } else if altsP != [] {
      FirstMaxIsFirstMax(altsP, NetProfitOf);
      assert r == altsP[FirstMax(altsP, NetProfitOf)];
    } else {
      forall k | 0 <= k < |arr| ensures KeyOf(arr[k]) == k0 {
        assert !KeyOtherThan(k0)(arr[k]);
      }
    }
    if KeyOf(r) != k0 {
      assert r in arr;
      var m :| 0 <= m < |arr| && arr[m] == r;
    }
  }

  /** `push` onto the single first pick adds exactly a candidate of a
      different configuration. */
  lemma PushSecond(c: Candidate, slot: Slot, x: Eval)
    ensures KeyOf(x) != c.key ==> Push([c], slot, x) == [c, Candidate(slot, KeyOf(x), x)]
    ensures KeyOf(x) == c.key ==> Push([c], slot, x) == [c]
  {
    assert [c][0] == c;
    assert HasKey([c], KeyOf(x)) <==> KeyOf(x) == c.key;
  }

  /** From a non-empty list the first pick is the first most profitable
      configuration, a second pick exists exactly when another
      configuration is in the list, and it is then the `SecondChoice`;
      every pick is from the list. */
  lemma PickFromSpec(arr: seq<Eval>, group: Group)
    requires arr != []
    ensures var out := PickFrom(arr, group);
      && 1 <= |out| <= 2
      && out[0].slot == MostProfit(group)
      && IsFirstMax(arr, NetProfitOf, out[0].cand)
      && (forall i :: 0 <= i < |out| ==> out[i].key == KeyOf(out[i].cand) && out[i].cand in arr)
    ensures var out := PickFrom(arr, group);
      && ((|out| == 2) <==> exists k :: 0 <= k < |arr| && KeyOf(arr[k]) != out[0].key)
      && (|out| == 2 ==>
            && out[1].slot == QuickestPayback(group)
            && out[1].key != out[0].key
            && SecondChoice(arr, out[0].key, out[1].cand))
  {
    var pw := arr[FirstMax(arr, NetProfitOf)];
    var r := PaybackPick(arr, pw);
    PickFromShape(arr, group);
    PaybackPickSpec(arr, pw);
    FirstMaxIsFirstMax(arr, NetProfitOf);
    TwoPicks(PickFrom(arr, group), arr, group, pw, r);
  }

  /** The facts about a first and a second pick carry over to the list
      holding them. */
  lemma TwoPicks(out: seq<Candidate>, arr: seq<Eval>, group: Group, pw: Eval, r: Eval)
    requires out == [Candidate(MostProfit(group), KeyOf(pw), pw)]
      + (if KeyOf(r) != KeyOf(pw) then [Candidate(QuickestPayback(group), KeyOf(r), r)] else [])
    requires pw in arr && IsFirstMax(arr, NetProfitOf, pw)
    requires r in arr || r == pw
    requires KeyOf(r) != KeyOf(pw) <==> exists k :: 0 <= k < |arr| && KeyOf(arr[k]) != KeyOf(pw)
    requires KeyOf(r) != KeyOf(pw) ==> SecondChoice(arr, KeyOf(pw), r)
    ensures && 1 <= |out| <= 2
      && out[0].slot == MostProfit(group)
      && IsFirstMax(arr, NetProfitOf, out[0].cand)
      && (forall i :: 0 <= i < |out| ==> out[i].key == KeyOf(out[i].cand) && out[i].cand in arr)
    ensures && ((|out| == 2) <==> exists k :: 0 <= k < |arr| && KeyOf(arr[k]) != out[0].key)
      && (|out| == 2 ==>
            && out[1].slot == QuickestPayback(group)
            && out[1].key != out[0].key
            && SecondChoice(arr, out[0].key, out[1].cand))
  {
    assert out[0].cand == pw;
    if KeyOf(r) != KeyOf(pw) {
      assert out[1].cand == r;
    }
  }

  /** `PickFrom` is the profit winner, followed by the payback pick when
      that is another configuration. */
  lemma PickFromShape(arr: seq<Eval>, group: Group)
    requires arr != []
    ensures var pw := arr[FirstMax(arr, NetProfitOf)];
      var r := PaybackPick(arr, pw);
      PickFrom(arr, group) == [Candidate(MostProfit(group), KeyOf(pw), pw)]
        + (if KeyOf(r) != KeyOf(pw) then [Candidate(QuickestPayback(group), KeyOf(r), r)] else [])
  {
    var pw := arr[FirstMax(arr, NetProfitOf)];
    var c := Candidate(MostProfit(group), KeyOf(pw), pw);
    assert !HasKey([], KeyOf(pw));
    assert Push([], MostProfit(group), pw) == [c];
    PushSecond(c, QuickestPayback(group), PaybackPick(arr, pw));
  }

  /** Without configurations within the budget there are no picks;
      otherwise there is no message and the picks are `PickFrom`'s. */
  lemma PickTwoPicks(arrAll: seq<Eval>, group: Group, budget: Option<real>)
    ensures var p := PickTwo(arrAll, group, budget);
      var arr := Filter(arrAll, Affordable(budget));
      && (arr == [] ==> p.out == [])
      && (arr != [] ==> p.messages == [] && p.out == PickFrom(arr, group))
  {
  }

  /** The configurations competing for the two extra slots: all of them
      with the battery switched on, the PV-only ones otherwise. */
  function Eligible(all: seq<Eval>, useBattery: bool): seq<Eval>
  {
    if useBattery then all else Filter(all, IsPvOnly)
  }

  /** The largest investment: the first configuration with the largest
      median price. */
  function InvestPick(within: seq<Eval>): Picked
  {
    if within == [] then Picked([], [NoInvestmentWithinBudget])
    else
      var x := within[FirstMax(within, MedianOf)];
      Picked([Candidate(LargestInvestment, KeyOf(x), x)], [])
  }

  /** The quickest payback overall: the first configuration with the
      smallest finite payback. */
  function QuickPick(within: seq<Eval>): Picked
  {
    var finite := Filter(within, HasFinitePayback);
    if finite != [] then
      var x := finite[FirstMax(finite, NegPayback)];
      Picked([Candidate(QuickestPaybackOverall, KeyOf(x), x)], [])
    else if within != [] then Picked([], [NoFinitePayback])
    else Picked([], [])
  }

  /** The candidates of `pickCandidates` before deduplication, in the order
      they are pushed, and the messages. */
  function RawPicks(all: seq<Eval>, s: Settings): Picked
  {
    var budget := EffectiveBudget(s.budgetYen);
    var pvOnly := PickTwo(Filter(all, IsPvOnly), PvOnly, budget);
    var withBat := if s.useBattery then PickTwo(Filter(all, HasBattery), WithBattery, budget) else Picked([], []);
    var within := Filter(Eligible(all, s.useBattery), Affordable(budget));
    var invest := InvestPick(within);
    var quick := QuickPick(within);
    Picked(pvOnly.out + withBat.out + invest.out + quick.out,
           pvOnly.messages + withBat.messages + invest.messages + quick.messages)
  }

  /** A candidate may be offered: it is labelled with its own
      configuration, is one of the evaluated configurations, lies within
      the budget, and is PV-only unless the battery is switched on. */
  predicate Offerable(c: Candidate, all: seq<Eval>, s: Settings)
  {
    && c.key == KeyOf(c.cand)
    && c.cand in all
    && WithinBudget(EffectiveBudget(s.budgetYen), c.cand)
    && (!s.useBattery ==> c.cand.bat == 0)
  }

  predicate AllOfferable(cs: seq<Candidate>, all: seq<Eval>, s: Settings)
  {
    forall i :: 0 <= i < |cs| ==> Offerable(cs[i], all, s)
  }

  lemma AllOfferableConcat(a: seq<Candidate>, b: seq<Candidate>, all: seq<Eval>, s: Settings)
    requires AllOfferable(a, all, s) && AllOfferable(b, all, s)
    ensures AllOfferable(a + b, all, s)
  {
    forall i | 0 <= i < |a + b| ensures Offerable((a + b)[i], all, s) {
      if i >= |a| {
        assert (a + b)[i] == b[i - |a|];
      }
    }
  }

  /** What `Filter` keeps is in the list and passes the test. */
  lemma FilteredIn(s: seq<Eval>, p: Eval -> bool, x: Eval)
    requires x in Filter(s, p)
    ensures x in s && p(x)
  {
    FilterMembers(s, p);
    var k :| 0 <= k < |Filter(s, p)| && Filter(s, p)[k] == x;
  }

  /** The two picks of a group are offerable. */
  lemma GroupPicksOfferable(all: seq<Eval>, s: Settings, group: Group, inGroup: Eval -> bool)
    requires s.useBattery || (forall e :: inGroup(e) ==> e.bat == 0)
    ensures var p := PickTwo(Filter(all, inGroup), group, EffectiveBudget(s.budgetYen));
      |p.out| <= 2 && AllOfferable(p.out, all, s)
  {
    var budget := EffectiveBudget(s.budgetYen);
    var arrAll := Filter(all, inGroup);
    var arr := Filter(arrAll, Affordable(budget));
    PickTwoPicks(arrAll, group, budget);
    if arr != [] {
      PickFromSpec(arr, group);
      var out := PickFrom(arr, group);
      forall i | 0 <= i < |out| ensures Offerable(out[i], all, s) {
        InFilteredGroup(all, inGroup, budget, out[i].cand);
      }
    }
  }

  /** A configuration of a group within the budget is one of all the
      configurations. */
  lemma InFilteredGroup(all: seq<Eval>, inGroup: Eval -> bool, budget: Option<real>, x: Eval)
    requires x in Filter(Filter(all, inGroup), Affordable(budget))
    ensures x in all && inGroup(x) && WithinBudget(budget, x)
  {
    FilteredIn(Filter(all, inGroup), Affordable(budget), x);
    FilteredIn(all, inGroup, x);
  }

  /** The extra slots are offerable: they are picked from the eligible
      configurations within the budget. */
  lemma ExtraPicksOfferable(all: seq<Eval>, s: Settings)
    ensures var within := Filter(Eligible(all, s.useBattery), Affordable(EffectiveBudget(s.budgetYen)));
      && |InvestPick(within).out| <= 1 && |QuickPick(within).out| <= 1
      && AllOfferable(InvestPick(within).out, all, s)
      && AllOfferable(QuickPick(within).out, all, s)
  {
    var budget := EffectiveBudget(s.budgetYen);
    var eligible := Eligible(all, s.useBattery);
    var within := Filter(eligible, Affordable(budget));
    forall x | x in within ensures x in all && WithinBudget(budget, x) && (!s.useBattery ==> x.bat == 0) {
      FilteredIn(eligible, Affordable(budget), x);
      if !s.useBattery {
        FilteredIn(all, IsPvOnly, x);
      }
    }
    if within != [] {
      assert within[FirstMax(within, MedianOf)] in within;
    }
    var finite := Filter(within, HasFinitePayback);
    if finite != [] {
      var x := finite[FirstMax(finite, NegPayback)];
      FilteredIn(within, HasFinitePayback, x);
    }
  }

  /** The extra slots are what the program promises: the largest median
      price within the budget, and the quickest finite payback within the
      budget; each missing slot comes with its message. */
  lemma ExtraPicksChosen(within: seq<Eval>)
    ensures |InvestPick(within).out| == 1 <==> within != []
    ensures within != [] ==> IsFirstMax(within, MedianOf, InvestPick(within).out[0].cand)
    ensures within == [] ==> InvestPick(within).messages == [NoInvestmentWithinBudget]
    ensures var finite := Filter(within, HasFinitePayback);
      && (|QuickPick(within).out| == 1 <==> finite != [])
      && (finite != [] ==> IsFirstMax(finite, NegPayback, QuickPick(within).out[0].cand))
      && (QuickPick(within).messages == [NoFinitePayback] <==> finite == [] && within != [])
  {
    if within != [] {
      FirstMaxIsFirstMax(within, MedianOf);
    }
    var finite := Filter(within, HasFinitePayback);
    if finite != [] {
      FirstMaxIsFirstMax(finite, NegPayback);
    }
  }

  /** Every candidate before deduplication is offerable, and there are at
      most six of them. */
  lemma RawPicksOfferable(all: seq<Eval>, s: Settings)
    ensures var raw := RawPicks(all, s).out;
      |raw| <= 6 && AllOfferable(raw, all, s)
  {
    var budget := EffectiveBudget(s.budgetYen);
    var pvOnly := PickTwo(Filter(all, IsPvOnly), PvOnly, budget);
    var withBat := if s.useBattery then PickTwo(Filter(all, HasBattery), WithBattery, budget) else Picked([], []);
    var within := Filter(Eligible(all, s.useBattery), Affordable(budget));
    GroupPicksOfferable(all, s, PvOnly, IsPvOnly);
    if s.useBattery {
      GroupPicksOfferable(all, s, WithBattery, HasBattery);
    }
    ExtraPicksOfferable(all, s);
    var raw := RawPicks(all, s).out;
    assert raw == pvOnly.out + withBat.out + InvestPick(within).out + QuickPick(within).out;
    AllOfferableConcat(pvOnly.out, withBat.out, all, s);
    AllOfferableConcat(pvOnly.out + withBat.out, InvestPick(within).out, all, s);
    AllOfferableConcat(pvOnly.out + withBat.out + InvestPick(within).out, QuickPick(within).out, all, s);
  }

  /** The deduplication of `pickCandidates`: keep a candidate unless its
      configuration has been seen, in order. */
  function Dedup(s: seq<Candidate>, seen: set<Key>): seq<Candidate>
    decreases |s|
  {
    if s == [] then []
    else if s[0].key in seen then Dedup(s[1..], seen)
    else [s[0]] + Dedup(s[1..], seen + {s[0].key})
  }

  /** Deduplication keeps only candidates of `s` with unseen keys, no two
      with the same key, keeps the first candidate of every unseen key,
      and keeps them in the order of `s`. */
  lemma DedupSpec(s: seq<Candidate>, seen: set<Key>)
    ensures var d := Dedup(s, seen);
      && |d| <= |s|
      && (forall i :: 0 <= i < |d| ==> d[i] in s && d[i].key !in seen)
      && (forall i, j :: 0 <= i < j < |d| ==> d[i].key != d[j].key)
      && (forall k :: 0 <= k < |s| && s[k].key !in seen && (forall j :: 0 <= j < k ==> s[j].key != s[k].key) ==> s[k] in d)
      && InOrderOf(d, s)
  {
    DedupKeeps(s, seen);
    DedupInOrder(s, seen);
  }

  /** Which candidates deduplication keeps. */
  lemma {:induction false} DedupKeeps(s: seq<Candidate>, seen: set<Key>)
    ensures var d := Dedup(s, seen);
      && |d| <= |s|
      && (forall i :: 0 <= i < |d| ==> d[i] in s && d[i].key !in seen)
      && (forall i, j :: 0 <= i < j < |d| ==> d[i].key != d[j].key)
      && (forall k :: 0 <= k < |s| && s[k].key !in seen && (forall j :: 0 <= j < k ==> s[j].key != s[k].key) ==> s[k] in d)
    decreases |s|
  {
    if s != [] {
      var t := s[1..];
      var d := Dedup(s, seen);
      if s[0].key in seen {
        DedupKeeps(t, seen);
        forall k | 0 < k < |s| ensures s[k] == t[k - 1] { }
      } else {
        var seen' := seen + {s[0].key};
        DedupKeeps(t, seen');
        var dt := Dedup(t, seen');
        assert d == [s[0]] + dt;
        forall i | 0 < i < |d| ensures d[i] in s && d[i].key !in seen && d[i].key != s[0].key {
          assert d[i] == dt[i - 1];
        }
        forall k | 0 < k < |s| && s[k].key !in seen && (forall j :: 0 <= j < k ==> s[j].key != s[k].key)
          ensures s[k] in d
        {
          assert s[k] == t[k - 1];
          assert s[0].key != s[k].key;
          forall j | 0 <= j < k - 1 ensures t[j].key != t[k - 1].key {
            assert t[j] == s[j + 1];
          }
        }
      }
    }
  }

  /** `idx` places every element of `d` in `s`, at strictly increasing
      positions. */
  predicate Embeds(idx: seq<nat>, d: seq<Candidate>, s: seq<Candidate>)
  {
    && |idx| == |d|
    && (forall i :: 0 <= i < |idx| ==> idx[i] < |s| && d[i] == s[idx[i]])
    && (forall i, j :: 0 <= i < j < |idx| ==> idx[i] < idx[j])
  }

  /** `d` is a subsequence of `s`: it keeps some of the elements of `s`,
      in the order they have in `s`. */
  ghost predicate InOrderOf(d: seq<Candidate>, s: seq<Candidate>)
  {
    exists idx: seq<nat> :: Embeds(idx, d, s)
  }

  /** Positions in the tail of `s` are one more in `s` itself. */
  function Shift(idx: seq<nat>): (r: seq<nat>)
    ensures |r| == |idx| && forall i :: 0 <= i < |idx| ==> r[i] == idx[i] + 1
  {
    seq(|idx|, i requires 0 <= i < |idx| => idx[i] + 1)
  }

  /** A subsequence of the tail of `s` is one of `s`, with or without the
      head of `s` in front. */
  lemma SubsequenceOfTail(d: seq<Candidate>, s: seq<Candidate>)
    requires s != [] && InOrderOf(d, s[1..])
    ensures InOrderOf(d, s) && InOrderOf([s[0]] + d, s)
  {
    var idx :| Embeds(idx, d, s[1..]);
    var up := Shift(idx);
    assert Embeds(up, d, s);
    var e := [s[0]] + d;
    assert Embeds([0] + up, e, s) by {
      forall i | 0 < i < |e| ensures e[i] == s[([0] + up)[i]] {
        assert e[i] == d[i - 1];
      }
    }
  }

  /** Deduplication keeps the candidates it keeps in the order they are
      pushed. */
  lemma {:induction false} DedupInOrder(s: seq<Candidate>, seen: set<Key>)
    ensures InOrderOf(Dedup(s, seen), s)
    decreases |s|
  {
    if s == [] {
      assert Embeds([], [], s);
    } else if s[0].key in seen {
      DedupInOrder(s[1..], seen);
      SubsequenceOfTail(Dedup(s[1..], seen), s);
    } else {
      DedupInOrder(s[1..], seen + {s[0].key});
      SubsequenceOfTail(Dedup(s[1..], seen + {s[0].key}), s);
    }
  }

  datatype Stats = Stats(bestProfit: Option<real>, bestRoi: Roi, bestPayback: Payback)

  datatype Picks = Picks(candidates: seq<Candidate>, messages: seq<Message>, stats: Stats, budget: Option<real>, horizonYears: nat)

  /** JavaScript's `a > b` on ROI values, -Infinity included. */
  predicate RoiAbove(a: Roi, b: Roi)
  {
    a.Ratio? && (b.MinusInfinity? || a.value > b.value)
  }

  /** The best net profit over `xs`: None (-Infinity) for an empty list,
      otherwise the largest, attained by some configuration. */
  ghost predicate IsBestProfit(xs: seq<Eval>, best: Option<real>)
  {
    && (best.None? <==> |xs| == 0)
    && (best.Some? ==>
          && (exists j :: 0 <= j < |xs| && xs[j].netProfit == best.value)
          && (forall j :: 0 <= j < |xs| ==> xs[j].netProfit <= best.value))
  }

  /** The best ROI over `xs`: no configuration's ROI is above it, and a
      finite one is attained. */
  ghost predicate IsBestRoi(xs: seq<Eval>, best: Roi)
  {
    && (forall j :: 0 <= j < |xs| ==> !RoiAbove(xs[j].roi, best))
    && (best.Ratio? ==> exists j :: 0 <= j < |xs| && xs[j].roi == best)
  }

  /** The quickest finite payback over `xs`, Never (Infinity) when no
      payback is finite. */
  ghost predicate IsBestPayback(xs: seq<Eval>, best: Payback)
  {
    && (best.Never? <==> forall j :: 0 <= j < |xs| ==> xs[j].payback.Never?)
    && (best.Finite? ==>
          && (exists j :: 0 <= j < |xs| && xs[j].payback == best)
          && (forall j :: 0 <= j < |xs| && xs[j].payback.Finite? ==> best.years <= xs[j].payback.years))
  }

  ghost predicate IsOverallBest(xs: seq<Eval>, st: Stats)
  {
    IsBestProfit(xs, st.bestProfit) && IsBestRoi(xs, st.bestRoi) && IsBestPayback(xs, st.bestPayback)
  }

  /** The stats loop of `pickCandidates`, over all configurations. */
  method OverallStats(all: seq<Eval>) returns (st: Stats)
    ensures IsOverallBest(all, st)
  {
    var bestProfit: Option<real> := None;
    var bestRoi := MinusInfinity;
    var bestPayback := Never;
    for k := 0 to |all|
      invariant IsBestProfit(all[..k], bestProfit)
      invariant IsBestRoi(all[..k], bestRoi)
      invariant IsBestPayback(all[..k], bestPayback)
    {
      var a := all[k];
      assert all[..k + 1] == all[..k] + [a];
      if bestProfit.None? || a.netProfit > bestProfit.value {
        bestProfit := Some(a.netProfit);
      }
      if RoiAbove(a.roi, bestRoi) {
        bestRoi := a.roi;
      }
      if a.payback.Finite? && (bestPayback.Never? || a.payback.years < bestPayback.years) {
        bestPayback := a.payback;
      }
    }
    assert all[..|all|] == all;
    st := Stats(bestProfit, bestRoi, bestPayback);
  }

  /** The deduplication loop of `pickCandidates`: skip a candidate whose
      configuration has been seen, stop at six. */
  method DedupFirstSix(items: seq<Candidate>) returns (uniq: seq<Candidate>)
    ensures uniq == Take(Dedup(items, {}), 6)
  {
    var seen: set<Key> := {};
    uniq := [];
    var i := 0;
    while i < |items|
      invariant 0 <= i <= |items|
      invariant |uniq| < 6
      invariant uniq + Dedup(items[i..], seen) == Dedup(items, {})
    {
      var item := items[i];
      assert items[i..][1..] == items[i + 1..];
      if item.key !in seen {
        seen := seen + {item.key};
        uniq := uniq + [item];
      }
      i := i + 1;
      if |uniq| >= 6 {
        break;
      }
    }
    var d := Dedup(items, {});
    assert |uniq| <= 6 && d[..|uniq|] == uniq;
    assert |uniq| < 6 ==> i == |items| && uniq == d;
  }

  /** `pickCandidates`: the raw candidates deduplicated by configuration,
      at most six, the messages, the overall stats, the budget in force and
      the horizon. */
  method PickCandidates(all: seq<Eval>, s: Settings) returns (r: Picks)
    ensures r.candidates == Take(Dedup(RawPicks(all, s).out, {}), 6)
    ensures r.messages == RawPicks(all, s).messages
    ensures IsOverallBest(all, r.stats)
    ensures r.budget == EffectiveBudget(s.budgetYen) && r.horizonYears == HorizonYears(s.horizonYears)
  {
    var raw := RawPicks(all, s);
    var uniq := DedupFirstSix(raw.out);
    var st := OverallStats(all);
    r := Picks(uniq, raw.messages, st, EffectiveBudget(s.budgetYen), HorizonYears(s.horizonYears));
  }

  /** The offered candidates: at most six, no configuration twice, each
      offerable, and every configuration among the raw picks is offered
      under the label it was first picked for; the cap of six never
      removes one. */
  lemma CandidatesOffered(all: seq<Eval>, s: Settings)
    ensures var raw := RawPicks(all, s).out;
      var c := Take(Dedup(raw, {}), 6);
      && c == Dedup(raw, {})
      && |c| <= 6
      && (forall i, j :: 0 <= i < j < |c| ==> c[i].key != c[j].key)
      && (forall i :: 0 <= i < |c| ==> Offerable(c[i], all, s))
      && (forall k :: 0 <= k < |raw| && (forall j :: 0 <= j < k ==> raw[j].key != raw[k].key) ==> raw[k] in c)
      && InOrderOf(c, raw)
  {
    RawPicksOfferable(all, s);
    DedupOffered(RawPicks(all, s).out, all, s);
  }

  /** Deduplicating at most six offerable candidates. */
  lemma DedupOffered(raw: seq<Candidate>, all: seq<Eval>, s: Settings)
    requires |raw| <= 6 && AllOfferable(raw, all, s)
    ensures var c := Take(Dedup(raw, {}), 6);
      && c == Dedup(raw, {})
      && |c| <= 6
      && (forall i, j :: 0 <= i < j < |c| ==> c[i].key != c[j].key)
      && (forall i :: 0 <= i < |c| ==> Offerable(c[i], all, s))
      && (forall k :: 0 <= k < |raw| && (forall j :: 0 <= j < k ==> raw[j].key != raw[k].key) ==> raw[k] in c)
      && InOrderOf(c, raw)
  {
    DedupSpec(raw, {});
    var d := Dedup(raw, {});
    forall i | 0 <= i < |d| ensures Offerable(d[i], all, s) {
      var k :| 0 <= k < |raw| && raw[k] == d[i];
    }
  }
}
