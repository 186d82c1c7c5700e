/** Small numeric and sequence helpers shared by the estimator model:
    the Option type, JavaScript's Math.min/Math.max/Math.round on exact
    reals, the settings clamp, and the two list operations the selector is
    built from (filter, and the first maximum found by a strict `>` reduce). */
module Basics {

  datatype Option<+T> = None | Some(value: T)

  /** Math.min on two numbers. */
  function Min(a: real, b: real): real
  {
    if a < b then a else b
  }

  /** Math.max on two numbers. */
  function Max(a: real, b: real): real
  {
    if a > b then a else b
  }

  /** `clamp(v, min, max)` = Math.min(max, Math.max(min, v)) (app.js:48).
      For a proper interval the result lies inside it and equals `v` when
      `v` already does; an empty interval (lo > hi) yields `hi`. */
  function Clamp(v: real, lo: real, hi: real): (r: real)
    ensures lo <= hi ==> lo <= r <= hi
    ensures lo <= v <= hi ==> r == v
    ensures v < lo <= hi ==> r == lo
    ensures hi < v ==> r == hi
    ensures hi < lo ==> r == hi
  {
    Min(hi, Max(lo, v))
  }

  /** Math.round on an exact real: the nearest integer, halves rounded up. */
  function Round(x: real): (r: int)
    ensures r as real - 0.5 <= x < r as real + 0.5
  {
    (x + 0.5).Floor
  }

  /** Rounding is monotone, and a gap of at least one survives it. */
  lemma RoundMonotone(x: real, y: real)
    requires x + 1.0 <= y
    ensures Round(x) + 1 <= Round(y)
  {
  }

  /** The elements of `s` that satisfy `p`, in their original order
      (Array.prototype.filter). */
  function Filter<T>(s: seq<T>, p: T -> bool): (r: seq<T>)
    ensures |r| <= |s|
    decreases |s|
  {
    if s == [] then []
    else (if p(s[0]) then [s[0]] else []) + Filter(s[1..], p)
  }

  /** Position `i` holds a maximum of `f` over `s`, and every earlier
      position holds a strictly smaller value: `s[i]` is what a
      left-to-right reduce that only moves on a strictly larger value
      ends with. */
  ghost predicate FirstMaxAt<T>(s: seq<T>, f: T -> real, i: int)
  {
    0 <= i < |s|
    && (forall j :: 0 <= j < |s| ==> f(s[j]) <= f(s[i]))
    && (forall j :: 0 <= j < i ==> f(s[j]) < f(s[i]))
  }

  ghost predicate IsFirstMax<T>(s: seq<T>, f: T -> real, x: T)
  {
    exists i :: FirstMaxAt(s, f, i) && s[i] == x
  }

  /** Index of the element `s.reduce((p, c) => f(c) > f(p) ? c : p, s[0])`
      returns. */
  function FirstMax<T>(s: seq<T>, f: T -> real): (i: nat)
    requires |s| > 0
    ensures i < |s|
    ensures forall j :: 0 <= j < |s| ==> f(s[j]) <= f(s[i])
    ensures forall j :: 0 <= j < i ==> f(s[j]) < f(s[i])
    decreases |s|
  {
    if |s| == 1 then 0
    else
      var k := FirstMax(s[..|s| - 1], f);
      if f(s[|s| - 1]) > f(s[k]) then |s| - 1 else k
  }

  lemma FirstMaxIsFirstMax<T>(s: seq<T>, f: T -> real)
    requires |s| > 0
    ensures IsFirstMax(s, f, s[FirstMax(s, f)])
  {
    assert FirstMaxAt(s, f, FirstMax(s, f));
  }

  /** Every element of the filtered list is an element of `s` satisfying
      `p`, and every element of `s` satisfying `p` is kept. */
  lemma {:induction false} FilterMembers<T>(s: seq<T>, p: T -> bool)
    ensures forall k :: 0 <= k < |Filter(s, p)| ==> Filter(s, p)[k] in s && p(Filter(s, p)[k])
    ensures forall k :: 0 <= k < |s| && p(s[k]) ==> s[k] in Filter(s, p)
    decreases |s|
  {
    if s != [] {
      FilterMembers(s[1..], p);
      var r := Filter(s, p);
      var head := if p(s[0]) then [s[0]] else [];
      var ft := Filter(s[1..], p);
      assert r == head + ft;
      forall k | 0 <= k < |r| ensures r[k] in s && p(r[k]) {
        if k >= |head| { assert r[k] == ft[k - |head|]; assert ft[k - |head|] in s[1..]; }
      }
      forall k | 0 <= k < |s| && p(s[k]) ensures s[k] in r {
        if k > 0 { assert s[k] == s[1..][k - 1]; }
      }
    }
  }

  /** Filtering keeps every upper bound of `f` over the list. */
  lemma FilterKeepsBound<T>(s: seq<T>, f: T -> real, p: T -> bool, m: real)
    requires forall j :: 0 <= j < |s| ==> f(s[j]) <= m
    ensures forall j :: 0 <= j < |Filter(s, p)| ==> f(Filter(s, p)[j]) <= m
  {
    var r := Filter(s, p);
    FilterMembers(s, p);
    forall j | 0 <= j < |r| ensures f(r[j]) <= m {
      assert r[j] in s;
    }
  }

  /** Filtering a non-empty list splits into its head (when kept) and the
      filtered tail. */
  lemma FilterCons<T>(s: seq<T>, p: T -> bool)
    requires |s| > 0
    ensures Filter(s, p) == (if p(s[0]) then [s[0]] else []) + Filter(s[1..], p)
  {
  }

  /** The first maximum of `s` is still the first maximum after `s` is
      filtered with a predicate it satisfies; `k` is its new position. */
  lemma {:induction false} FirstMaxSurvivesFilter<T>(s: seq<T>, f: T -> real, p: T -> bool, i: int)
    returns (k: int)
    requires FirstMaxAt(s, f, i) && p(s[i])
    ensures FirstMaxAt(Filter(s, p), f, k) && Filter(s, p)[k] == s[i]
    decreases |s|
  {
    var x := s[i];
    var r := Filter(s, p);
    FilterKeepsBound(s, f, p, f(x));
    FilterCons(s, p);
    if i == 0 {
      k := 0;
    } else {
      var tail := s[1..];
      var head := if p(s[0]) then [s[0]] else [];
      var ft := Filter(tail, p);
      assert FirstMaxAt(tail, f, i - 1) by {
        assert tail[i - 1] == x;
        forall j | 0 <= j < |tail| ensures f(tail[j]) <= f(x) {
          assert tail[j] == s[j + 1];
        }
        forall j | 0 <= j < i - 1 ensures f(tail[j]) < f(x) {
          assert tail[j] == s[j + 1];
        }
      }
      var k' := FirstMaxSurvivesFilter(tail, f, p, i - 1);
      k := |head| + k';
      forall j | 0 <= j < k ensures f(r[j]) < f(x) {
        if j < |head| {
          assert r[j] == s[0];
        } else {
          assert r[j] == ft[j - |head|];
        }
      }
    }
  }

  /** Math.min over a non-empty list. */
  function MinOf(s: seq<real>): (m: real)
    requires |s| > 0
    ensures m in s
    ensures forall k :: 0 <= k < |s| ==> m <= s[k]
  {
    if |s| == 1 then s[0] else Min(s[0], MinOf(s[1..]))
  }
}
