/** `computeRanks` (app.js:507-586): the configurations sorted by net
    profit, by ROI, by payback and in the "balanced" order, the 1-based
    rank of each configuration under each order, kept in a map keyed by
    `comboKey` (app.js:503-505), and the first ten of each order. */
module Ranking {
  import opened Basics
  import opened Economics
  import opened Grid
  import opened Selection

  /** The number a comparator subtracts: a real, or +Infinity (`Top`).
      Two `Top`s subtract to NaN, which `Array.prototype.sort` reads as
      "equal". */
  datatype Score = Value(v: real) | Top

  predicate ScoreLess(a: Score, b: Score)
  {
    a.Value? && (b.Top? || a.v < b.v)
  }

  datatype Criterion = ByProfit | ByRoi | ByPayback | ByBalanced

  /** The sentinel `computeRanks` uses for an infinite payback and for the
      missing `_balancedDist`. */
  const Sentinel: real := 1000000000.0

  /** Each order sorts ascending by this score: `b.netProfit -
      a.netProfit` sorts by -netProfit, `b.roi - a.roi` by -roi (where
      -(-Infinity) is +Infinity), the payback comparator by the payback
      with 1e9 for Infinity, and the balanced comparator by 1e9 for
      everyone, since `_balancedDist` is never set. */
  function ScoreOf(c: Criterion, e: Eval): Score
  {
    match c
    case ByProfit => Value(-e.netProfit)
    case ByRoi => if e.roi.Ratio? then Value(-e.roi.value) else Top
    case ByPayback => Value(if e.payback.Finite? then e.payback.years else Sentinel)
    case ByBalanced => Value(Sentinel)
  }

  /** Index i comes before index j in the stable sort: a smaller score, or
      an equal score and an earlier position. */
  predicate Precedes(evals: seq<Eval>, c: Criterion, i: nat, j: nat)
    requires i < |evals| && j < |evals|
  {
    ScoreLess(ScoreOf(c, evals[i]), ScoreOf(c, evals[j]))
    || (!ScoreLess(ScoreOf(c, evals[j]), ScoreOf(c, evals[i])) && i < j)
  }

  predicate InRange(evals: seq<Eval>, order: seq<nat>)
  {
    forall a :: 0 <= a < |order| ==> order[a] < |evals|
  }

  /** `order` lists positions of `evals` in the order of a stable sort. */
  predicate StablySorted(evals: seq<Eval>, c: Criterion, order: seq<nat>)
    requires InRange(evals, order)
  {
    forall a, b :: 0 <= a < b < |order| ==> Precedes(evals, c, order[a], order[b])
  }

  /** Insert position `x`, later than every position in `order`, after the
      entries whose scores do not exceed its own. */
  function Insert(evals: seq<Eval>, c: Criterion, x: nat, order: seq<nat>): seq<nat>
    requires x < |evals| && InRange(evals, order)
    decreases |order|
  {
    if order == [] then [x]
    else if !ScoreLess(ScoreOf(c, evals[x]), ScoreOf(c, evals[order[0]])) then [order[0]] + Insert(evals, c, x, order[1..])
    else [x] + order
  }

  /** The first n positions of `evals`, in the order of a stable sort by
      criterion `c` (`[...evals].sort(cmp)`). */
  function SortedPrefix(evals: seq<Eval>, c: Criterion, n: nat): (r: seq<nat>)
    requires n <= |evals|
    ensures |r| == n && InRange(evals, r)
  {
    if n == 0 then [] else
      var o := SortedPrefix(evals, c, n - 1);
      InsertInRange(evals, c, n - 1, o);
      Insert(evals, c, n - 1, o)
  }

  function StableOrder(evals: seq<Eval>, c: Criterion): seq<nat>
  {
    SortedPrefix(evals, c, |evals|)
  }

  lemma {:induction false} InsertInRange(evals: seq<Eval>, c: Criterion, x: nat, order: seq<nat>)
    requires x < |evals| && InRange(evals, order)
    ensures InRange(evals, Insert(evals, c, x, order))
    ensures |Insert(evals, c, x, order)| == |order| + 1
    ensures forall k :: k in Insert(evals, c, x, order) <==> k in order || k == x
    decreases |order|
  {
    if order != [] {
      InsertInRange(evals, c, x, order[1..]);
      assert order == [order[0]] + order[1..];
    }
  }

  /** Inserting a later position into a stable order keeps it stable. */
  lemma {:induction false} InsertSorted(evals: seq<Eval>, c: Criterion, x: nat, order: seq<nat>)
    requires x < |evals| && InRange(evals, order) && StablySorted(evals, c, order)
    requires forall a :: 0 <= a < |order| ==> order[a] < x
    ensures InRange(evals, Insert(evals, c, x, order))
    ensures StablySorted(evals, c, Insert(evals, c, x, order))
    decreases |order|
  {
    InsertInRange(evals, c, x, order);
    if order != [] {
      var t := order[1..];
      if !ScoreLess(ScoreOf(c, evals[x]), ScoreOf(c, evals[order[0]])) {
        InsertSorted(evals, c, x, t);
        InsertInRange(evals, c, x, t);
        InsertBehind(evals, c, x, order, Insert(evals, c, x, t));
      } else {
        InsertInFront(evals, c, x, order);
      }
    }
  }

  /** `x` goes behind the head of `order`: the head precedes everything
      after it, and the rest is the (stable) insertion into the tail. */
  lemma InsertBehind(evals: seq<Eval>, c: Criterion, x: nat, order: seq<nat>, rt: seq<nat>)
    requires x < |evals| && InRange(evals, order) && StablySorted(evals, c, order) && order != []
    requires forall a :: 0 <= a < |order| ==> order[a] < x
    requires !ScoreLess(ScoreOf(c, evals[x]), ScoreOf(c, evals[order[0]]))
    requires InRange(evals, rt) && StablySorted(evals, c, rt)
    requires forall k :: k in rt <==> k in order[1..] || k == x
    ensures StablySorted(evals, c, [order[0]] + rt)
  {
    var t := order[1..];
    var r := [order[0]] + rt;
    forall a, b | 0 <= a < b < |r| ensures Precedes(evals, c, r[a], r[b]) {
      if a == 0 {
        assert r[b] in rt;
        if r[b] != x {
          var m :| 0 <= m < |t| && t[m] == r[b];
          assert order[m + 1] == r[b];
        }
      } else {
        assert r[a] == rt[a - 1] && r[b] == rt[b - 1];
      }
    }
  }

  /** `x` goes in front of `order`: it scores strictly less than the head,
      and so than everything after it. */
  lemma InsertInFront(evals: seq<Eval>, c: Criterion, x: nat, order: seq<nat>)
    requires x < |evals| && InRange(evals, order) && StablySorted(evals, c, order) && order != []
    requires ScoreLess(ScoreOf(c, evals[x]), ScoreOf(c, evals[order[0]]))
    ensures StablySorted(evals, c, [x] + order)
  {
    var r := [x] + order;
    forall b | 0 < b < |r| ensures Precedes(evals, c, x, r[b]) {
      assert r[b] == order[b - 1];
      if b > 1 {
        assert Precedes(evals, c, order[0], order[b - 1]);
      }
    }
    forall a, b | 0 <= a < b < |r| ensures Precedes(evals, c, r[a], r[b]) {
      if a > 0 {
        assert r[a] == order[a - 1] && r[b] == order[b - 1];
      }
    }
  }

  /** The stable order is a permutation of the positions, sorted by score
      with ties kept in input order. */
  lemma {:induction false} SortedPrefixSpec(evals: seq<Eval>, c: Criterion, n: nat)
    requires n <= |evals|
    ensures var o := SortedPrefix(evals, c, n);
      && |o| == n
      && InRange(evals, o)
      && (forall k :: k in o <==> 0 <= k < n)
      && StablySorted(evals, c, o)
  {
    if n > 0 {
      var o := SortedPrefix(evals, c, n - 1);
      SortedPrefixSpec(evals, c, n - 1);
      forall a | 0 <= a < |o| ensures o[a] < n - 1 {
        assert o[a] in o;
      }
      InsertInRange(evals, c, n - 1, o);
      InsertSorted(evals, c, n - 1, o);
    }
  }

  /** `StableOrder` is what a stable sort produces: every position once,
      sorted by score, equal scores in input order. */
  lemma StableOrderSpec(evals: seq<Eval>, c: Criterion)
    ensures var o := StableOrder(evals, c);
      && |o| == |evals|
      && InRange(evals, o)
      && (forall k :: k in o <==> 0 <= k < |evals|)
      && StablySorted(evals, c, o)
  {
    SortedPrefixSpec(evals, c, |evals|);
  }

  /** The evaluations in a given order. */
  function Arrange(evals: seq<Eval>, order: seq<nat>): (r: seq<Eval>)
    requires InRange(evals, order)
  {
    seq(|order|, a requires 0 <= a < |order| => evals[order[a]])
  }

  /** Since `_balancedDist` is never set, the balanced order is the input
      order. */
  lemma {:induction false} BalancedIsInputOrder(evals: seq<Eval>, n: nat)
    requires n <= |evals|
    ensures SortedPrefix(evals, ByBalanced, n) == seq(n, k => k)
  {
    if n > 0 {
      BalancedIsInputOrder(evals, n - 1);
      BalancedInsertAppends(evals, n - 1, seq(n - 1, k => k));
      assert seq(n - 1, k => k) + [n - 1] == seq(n, k => k);
    }
  }

  lemma {:induction false} BalancedInsertAppends(evals: seq<Eval>, x: nat, order: seq<nat>)
    requires x < |evals| && InRange(evals, order)
    ensures Insert(evals, ByBalanced, x, order) == order + [x]
    decreases |order|
  {
    if order != [] {
      BalancedInsertAppends(evals, x, order[1..]);
      assert order == [order[0]] + order[1..];
    }
  }

  /** When two positions hold the first maximum of `f`, they are the same
      position. */
  lemma FirstMaxAtUnique(s: seq<Eval>, f: Eval -> real, i: int, j: int)
    requires FirstMaxAt(s, f, i) && FirstMaxAt(s, f, j)
    ensures i == j
  {
    assert f(s[i]) == f(s[j]);
  }

  /** The head of the profit order is the configuration `pickTwo`'s
      strict `>` reduce finds: the first with the largest net profit. */
  lemma TopProfitIsFirstMax(evals: seq<Eval>)
    requires |evals| > 0
    ensures StableOrder(evals, ByProfit)[0] == FirstMax(evals, NetProfitOf)
  {
    var o := StableOrder(evals, ByProfit);
    StableOrderSpec(evals, ByProfit);
    var f := NetProfitOf;
    var i := o[0];
    forall j | 0 <= j < |evals| ensures f(evals[j]) <= f(evals[i]) && (j < i ==> f(evals[j]) < f(evals[i])) {
      if j != i {
        assert j in o;
        var b :| 0 <= b < |o| && o[b] == j;
        assert b != 0;
        assert Precedes(evals, ByProfit, i, j);
      }
    }
    assert FirstMaxAt(evals, f, i);
    FirstMaxAtUnique(evals, f, i, FirstMax(evals, f));
  }

  /** A finite payback below the sentinel ranks before any infinite one. */
  lemma FinitePaybackFirst(evals: seq<Eval>, i: nat, j: nat)
    requires i < |evals| && j < |evals|
    requires evals[i].payback.Finite? && evals[i].payback.years < Sentinel && evals[j].payback.Never?
    ensures Precedes(evals, ByPayback, i, j) && !Precedes(evals, ByPayback, j, i)
  {
  }

  /** The ranks of one configuration; None where the entry has none yet. */
  datatype Ranks = Ranks(profit: Option<nat>, roi: Option<nat>, payback: Option<nat>, balanced: Option<nat>)

  const NoRanks: Ranks := Ranks(None, None, None, None)

  function RankOf(r: Ranks, c: Criterion): Option<nat>
  {
    match c
    case ByProfit => r.profit
    case ByRoi => r.roi
    case ByPayback => r.payback
    case ByBalanced => r.balanced
  }

  /** `cur.<c>Rank = n`. */
  function SetRank(r: Ranks, c: Criterion, n: Option<nat>): (r': Ranks)
  {
    match c
    case ByProfit => r.(profit := n)
    case ByRoi => r.(roi := n)
    case ByPayback => r.(payback := n)
    case ByBalanced => r.(balanced := n)
  }

  /** Setting one rank changes that rank and no other. */
  lemma SetRankSpec(r: Ranks, c: Criterion, n: Option<nat>)
    ensures RankOf(SetRank(r, c, n), c) == n
    ensures forall d :: d != c ==> RankOf(SetRank(r, c, n), d) == RankOf(r, d)
  {
  }

  /** `rankMap.get(k) || {}`. */
  function EntryOf(m: map<Key, Ranks>, k: Key): Ranks
  {
    if k in m then m[k] else NoRanks
  }

  /** The configurations along `order`. */
  function OrderKeys(evals: seq<Eval>, order: seq<nat>): (ks: seq<Key>)
    requires InRange(evals, order)
    ensures |ks| == |order|
  {
    seq(|order|, a requires 0 <= a < |order| => KeyOf(evals[order[a]]))
  }

  /** The last position of k in ks, -1 when there is none. */
  function LastIndex(ks: seq<Key>, k: Key): int
  {
    if ks == [] then -1
    else if ks[|ks| - 1] == k then |ks| - 1
    else LastIndex(ks[..|ks| - 1], k)
  }

  lemma {:induction false} LastIndexSpec(ks: seq<Key>, k: Key)
    ensures var i := LastIndex(ks, k);
      && -1 <= i < |ks|
      && (i == -1 <==> k !in ks)
      && (i >= 0 ==> ks[i] == k)
      && (forall b :: i < b < |ks| ==> ks[b] != k)
  {
    if ks != [] && ks[|ks| - 1] != k {
      var init := ks[..|ks| - 1];
      LastIndexSpec(init, k);
      assert ks == init + [ks[|ks| - 1]];
    }
  }

  /** In a list without repetitions the last position of an entry is its
      only position. */
  lemma LastIndexOfDistinct(ks: seq<Key>, a: int)
    requires 0 <= a < |ks|
    requires forall i, j :: 0 <= i < j < |ks| ==> ks[i] != ks[j]
    ensures LastIndex(ks, ks[a]) == a
  {
    LastIndexSpec(ks, ks[a]);
  }

  /** `m` is `m0` after the `forEach` that ranks by `c` the configurations
      `ks` of an order: it has an entry for `m0`'s configurations and for
      those in `ks`; each configuration in `ks` has as its rank for `c`
      one more than its last position (the last write wins); every other
      rank, and every entry for a configuration not in `ks`, is as in
      `m0`. */
  ghost predicate RankedBy(ks: seq<Key>, c: Criterion, m0: map<Key, Ranks>, m: map<Key, Ranks>)
  {
    forall k :: RankedAt(ks, c, m0, m, k)
  }

  /** `RankedBy` for the one configuration k. */
  ghost predicate RankedAt(ks: seq<Key>, c: Criterion, m0: map<Key, Ranks>, m: map<Key, Ranks>, k: Key)
  {
    && (k in m <==> k in m0 || k in ks)
    && (k in m ==> SetRank(m[k], c, None) == SetRank(EntryOf(m0, k), c, None))
    && (k in m && k in ks ==> RankOf(m[k], c) == Some(LastIndex(ks, k) + 1))
    && (k in m && k !in ks ==> m[k] == EntryOf(m0, k))
  }

  /** One `forEach` of `computeRanks`: give each configuration along
      `order` its 1-based position as its rank for `c`. */
  method AssignRanks(evals: seq<Eval>, order: seq<nat>, c: Criterion, m0: map<Key, Ranks>) returns (m: map<Key, Ranks>)
    requires InRange(evals, order)
    ensures RankedBy(OrderKeys(evals, order), c, m0, m)
  {
    ghost var ks := OrderKeys(evals, order);
    m := m0;
    for i := 0 to |order|
      invariant RankedBy(ks[..i], c, m0, m)
    {
      var k := KeyOf(evals[order[i]]);
      assert k == ks[i];
      var cur := EntryOf(m, k);
      ghost var before := m;
      m := m[k := SetRank(cur, c, Some(i + 1))];
      assert ks[..i + 1] == ks[..i] + [k];
      RankedStep(ks[..i], k, c, m0, before, m);
    }
    assert ks[..|order|] == ks;
  }

  /** The invariant of `AssignRanks` survives one more position. */
  lemma RankedStep(ks: seq<Key>, k: Key, c: Criterion, m0: map<Key, Ranks>, before: map<Key, Ranks>, m: map<Key, Ranks>)
    requires RankedBy(ks, c, m0, before)
    requires m == before[k := SetRank(EntryOf(before, k), c, Some(|ks| + 1))]
    ensures RankedBy(ks + [k], c, m0, m)
  {
    var q := ks + [k];
    assert q[..|ks|] == ks;
    forall x ensures RankedAt(q, c, m0, m, x) {
      assert RankedAt(ks, c, m0, before, x);
      if x == k {
        SetRankTwice(EntryOf(before, k), c, Some(|ks| + 1));
        SetRankSpec(EntryOf(before, k), c, Some(|ks| + 1));
      } else {
        assert x in q <==> x in ks;
      }
    }
  }

  lemma SetRankTwice(r: Ranks, c: Criterion, n: Option<nat>)
    ensures SetRank(SetRank(r, c, n), c, None) == SetRank(r, c, None)
  {
  }

  datatype RankResult = RankResult(
    rankMap: map<Key, Ranks>,
    topProfit: seq<Eval>, topRoi: seq<Eval>, topPayback: seq<Eval>, topBalanced: seq<Eval>)

  /** The first n entries of a list (`arr.slice(0, n)`). */
  function Prefix<T>(s: seq<T>, n: nat): (r: seq<T>)
    ensures |r| == if |s| <= n then |s| else n
    ensures forall a :: 0 <= a < |r| ==> r[a] == s[a]
  {
    if |s| <= n then s else s[..n]
  }

  /** The configuration of every evaluation, in input order. */
  function AllKeys(evals: seq<Eval>): (ks: seq<Key>)
    ensures |ks| == |evals|
  {
    seq(|evals|, i requires 0 <= i < |evals| => KeyOf(evals[i]))
  }

  /** The configurations along the stable order for `c`. */
  function RankKeys(evals: seq<Eval>, c: Criterion): seq<Key>
  {
    OrderKeys(evals, StableOrder(evals, c))
  }

  /** `m` has an entry for exactly the configurations `all`, and each
      entry holds, under each criterion, one more than the last position
      of the configuration along that criterion's order. */
  ghost predicate RanksAlong(all: seq<Key>, ks1: seq<Key>, ks2: seq<Key>, ks3: seq<Key>, ks4: seq<Key>, m: map<Key, Ranks>)
  {
    && (forall k :: k in m <==> k in all)
    && (forall k :: k in m ==>
      && RankOf(m[k], ByProfit) == Some(LastIndex(ks1, k) + 1)
      && RankOf(m[k], ByRoi) == Some(LastIndex(ks2, k) + 1)
      && RankOf(m[k], ByPayback) == Some(LastIndex(ks3, k) + 1)
      && RankOf(m[k], ByBalanced) == Some(LastIndex(ks4, k) + 1))
  }

  /** The rank map of `computeRanks`: an entry for exactly the evaluated
      configurations, with their positions along the four stable orders. */
  ghost predicate RanksFrom(evals: seq<Eval>, m: map<Key, Ranks>)
  {
    RanksAlong(AllKeys(evals), RankKeys(evals, ByProfit), RankKeys(evals, ByRoi),
      RankKeys(evals, ByPayback), RankKeys(evals, ByBalanced), m)
  }

  /** Under any criterion, the rank of an evaluated configuration is one
      more than its last position along that criterion's order. */
  lemma RankOfCriterion(evals: seq<Eval>, m: map<Key, Ranks>, c: Criterion, k: Key)
    requires RanksFrom(evals, m) && k in m
    ensures RankOf(m[k], c) == Some(LastIndex(RankKeys(evals, c), k) + 1)
  {
    match c
    case ByProfit =>
    case ByRoi =>
    case ByPayback =>
    case ByBalanced =>
  }

  /** `computeRanks`: the four stable orders, the rank map built by four
      `forEach` passes, and the first ten of each order; the balanced order
      is the input order. */
  method ComputeRanks(evals: seq<Eval>) returns (r: RankResult)
    ensures RanksFrom(evals, r.rankMap)
    ensures r.topProfit == Prefix(Arrange(evals, StableOrder(evals, ByProfit)), 10)
    ensures r.topRoi == Prefix(Arrange(evals, StableOrder(evals, ByRoi)), 10)
    ensures r.topPayback == Prefix(Arrange(evals, StableOrder(evals, ByPayback)), 10)
    ensures r.topBalanced == Prefix(evals, 10)
  {
    var byProfit := StableOrder(evals, ByProfit);
    var byRoi := StableOrder(evals, ByRoi);
    var byPayback := StableOrder(evals, ByPayback);
    var byBalanced := StableOrder(evals, ByBalanced);
    var m1 := AssignRanks(evals, byProfit, ByProfit, map[]);
    var m2 := AssignRanks(evals, byRoi, ByRoi, m1);
    var m3 := AssignRanks(evals, byPayback, ByPayback, m2);
    var m4 := AssignRanks(evals, byBalanced, ByBalanced, m3);
    RanksChain(evals, m1, m2, m3, m4);
    BalancedIsInputOrder(evals, |evals|);
    assert Arrange(evals, byBalanced) == evals;
    r := RankResult(m4,
      Prefix(Arrange(evals, byProfit), 10), Prefix(Arrange(evals, byRoi), 10),
      Prefix(Arrange(evals, byPayback), 10), Prefix(Arrange(evals, byBalanced), 10));
  }

  /** A permutation of the positions visits every configuration. */
  lemma KeysAlongOrder(evals: seq<Eval>, c: Criterion)
    ensures forall k :: k in RankKeys(evals, c) <==> k in AllKeys(evals)
  {
    var o := StableOrder(evals, c);
    var ks := RankKeys(evals, c);
    var all := AllKeys(evals);
    StableOrderSpec(evals, c);
    forall k | k in all ensures k in ks {
      var i :| 0 <= i < |evals| && all[i] == k;
      assert i in o;
      var a :| 0 <= a < |o| && o[a] == i;
      assert ks[a] == k;
    }
    forall k | k in ks ensures k in all {
      var a :| 0 <= a < |ks| && ks[a] == k;
      assert all[o[a]] == k;
    }
  }

  /** Chaining the four passes, each keeps the ranks the earlier ones set
      and adds its own. */
  lemma RanksChain(evals: seq<Eval>, m1: map<Key, Ranks>, m2: map<Key, Ranks>, m3: map<Key, Ranks>, m4: map<Key, Ranks>)
    requires RankedBy(RankKeys(evals, ByProfit), ByProfit, map[], m1)
    requires RankedBy(RankKeys(evals, ByRoi), ByRoi, m1, m2)
    requires RankedBy(RankKeys(evals, ByPayback), ByPayback, m2, m3)
    requires RankedBy(RankKeys(evals, ByBalanced), ByBalanced, m3, m4)
    ensures RanksFrom(evals, m4)
  {
    KeysAlongOrder(evals, ByProfit);
    KeysAlongOrder(evals, ByRoi);
    KeysAlongOrder(evals, ByPayback);
    KeysAlongOrder(evals, ByBalanced);
    FourPasses(AllKeys(evals), RankKeys(evals, ByProfit), RankKeys(evals, ByRoi),
      RankKeys(evals, ByPayback), RankKeys(evals, ByBalanced), m1, m2, m3, m4);
  }

  /** Four passes over orders that each visit exactly the configurations
      `all` leave an entry for exactly those, holding each pass's rank. */
  lemma FourPasses(all: seq<Key>, ks1: seq<Key>, ks2: seq<Key>, ks3: seq<Key>, ks4: seq<Key>,
                   m1: map<Key, Ranks>, m2: map<Key, Ranks>, m3: map<Key, Ranks>, m4: map<Key, Ranks>)
    requires forall k :: k in ks1 <==> k in all
    requires forall k :: k in ks2 <==> k in all
    requires forall k :: k in ks3 <==> k in all
    requires forall k :: k in ks4 <==> k in all
    requires RankedBy(ks1, ByProfit, map[], m1)
    requires RankedBy(ks2, ByRoi, m1, m2)
    requires RankedBy(ks3, ByPayback, m2, m3)
    requires RankedBy(ks4, ByBalanced, m3, m4)
    ensures RanksAlong(all, ks1, ks2, ks3, ks4, m4)
  {
    forall k ensures k in m4 <==> k in all {
      assert RankedAt(ks1, ByProfit, map[], m1, k);
      assert RankedAt(ks2, ByRoi, m1, m2, k);
      assert RankedAt(ks3, ByPayback, m2, m3, k);
      assert RankedAt(ks4, ByBalanced, m3, m4, k);
    }
    forall k | k in m4
      ensures RankOf(m4[k], ByProfit) == Some(LastIndex(ks1, k) + 1)
      ensures RankOf(m4[k], ByRoi) == Some(LastIndex(ks2, k) + 1)
      ensures RankOf(m4[k], ByPayback) == Some(LastIndex(ks3, k) + 1)
      ensures RankOf(m4[k], ByBalanced) == Some(LastIndex(ks4, k) + 1)
    {
      PassesAt(k, ks1, ks2, ks3, ks4, m1, m2, m3, m4);
    }
  }

  /** The ranks of one configuration that every pass visits. */
  lemma PassesAt(k: Key, ks1: seq<Key>, ks2: seq<Key>, ks3: seq<Key>, ks4: seq<Key>,
                 m1: map<Key, Ranks>, m2: map<Key, Ranks>, m3: map<Key, Ranks>, m4: map<Key, Ranks>)
    requires k in ks1 && k in ks2 && k in ks3 && k in ks4
    requires RankedBy(ks1, ByProfit, map[], m1)
    requires RankedBy(ks2, ByRoi, m1, m2)
    requires RankedBy(ks3, ByPayback, m2, m3)
    requires RankedBy(ks4, ByBalanced, m3, m4)
    ensures k in m4
    ensures RankOf(m4[k], ByProfit) == Some(LastIndex(ks1, k) + 1)
    ensures RankOf(m4[k], ByRoi) == Some(LastIndex(ks2, k) + 1)
    ensures RankOf(m4[k], ByPayback) == Some(LastIndex(ks3, k) + 1)
    ensures RankOf(m4[k], ByBalanced) == Some(LastIndex(ks4, k) + 1)
  {
    assert RankedAt(ks1, ByProfit, map[], m1, k);
    assert RankedAt(ks2, ByRoi, m1, m2, k);
    assert RankedAt(ks3, ByPayback, m2, m3, k);
    assert RankedAt(ks4, ByBalanced, m3, m4, k);
    KeptRank(ByProfit, ks2, ByRoi, m1, m2, k);
    KeptRank(ByProfit, ks3, ByPayback, m2, m3, k);
    KeptRank(ByProfit, ks4, ByBalanced, m3, m4, k);
    KeptRank(ByRoi, ks3, ByPayback, m2, m3, k);
    KeptRank(ByRoi, ks4, ByBalanced, m3, m4, k);
    KeptRank(ByPayback, ks4, ByBalanced, m3, m4, k);
  }

  /** A pass for criterion d leaves the rank for criterion c alone. */
  lemma KeptRank(c: Criterion, ks: seq<Key>, d: Criterion, m0: map<Key, Ranks>, m: map<Key, Ranks>, k: Key)
    requires c != d && k in m0 && k in m
    requires RankedAt(ks, d, m0, m, k)
    ensures RankOf(m[k], c) == RankOf(m0[k], c)
  {
    SetRankSpec(m[k], d, None);
    SetRankSpec(m0[k], d, None);
  }

  /** With pairwise-distinct configurations (as the search grid
      guarantees), the configuration at position a of an order has rank
      a + 1 under that order. */
  lemma RankIsPosition(evals: seq<Eval>, m: map<Key, Ranks>, c: Criterion, a: int)
    requires RanksFrom(evals, m) && 0 <= a < |evals|
    requires forall i, j :: 0 <= i < j < |evals| ==> KeyOf(evals[i]) != KeyOf(evals[j])
    ensures KeyOf(Arrange(evals, StableOrder(evals, c))[a]) in m
    ensures RankOf(m[KeyOf(Arrange(evals, StableOrder(evals, c))[a])], c) == Some(a + 1)
  {
    var o := StableOrder(evals, c);
    StableOrderSpec(evals, c);
    var ks := RankKeys(evals, c);
    forall i, j | 0 <= i < j < |ks| ensures ks[i] != ks[j] {
      assert Precedes(evals, c, o[i], o[j]);
      assert o[i] != o[j];
      assert ks[i] == KeyOf(evals[o[i]]) && ks[j] == KeyOf(evals[o[j]]);
    }
    var k := ks[a];
    assert AllKeys(evals)[o[a]] == k;
    assert k == KeyOf(Arrange(evals, o)[a]);
    RankOfCriterion(evals, m, c, k);
    LastIndexOfDistinct(ks, a);
  }
}
