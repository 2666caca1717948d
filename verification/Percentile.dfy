/** The nearest-rank percentile of the revision timing analysis, over exact reals. */
module Percentile {

  import opened Options
  import opened Reals
  import opened Sorting

  predicate AtMost(x: real, y: real) { x <= y }

  /** How many values are at most `x`. */
  function NotAbove(values: seq<real>, x: real): nat {
    if values == [] then 0
    else NotAbove(values[..|values| - 1], x) + if values[|values| - 1] <= x then 1 else 0
  }

  /** How many values are less than `x`. */
  function Below(values: seq<real>, x: real): nat {
    if values == [] then 0
    else Below(values[..|values| - 1], x) + if values[|values| - 1] < x then 1 else 0
  }

  function Max(a: int, b: int): int { if a >= b then a else b }

  function Min(a: int, b: int): int { if a <= b then a else b }

  function Rank(n: nat, fraction: real): (index: int)
    ensures n > 0 ==> 0 <= index < n
  {
    Max(0, Min(n - 1, Ceiling(fraction * n as real) - 1))
  }

  function Percentile(values: seq<real>, fraction: real): Option<real> {
    if values == [] then None
    else
      var ordered := Sort(AtMost, values);
      SortReals(values);
      Some(ordered[Rank(|ordered|, fraction)])
  }

  predicate Ascending(s: seq<real>) { forall i, j :: 0 <= i < j < |s| ==> s[i] <= s[j] }

  lemma SortReals(values: seq<real>)
    ensures var ordered := Sort(AtMost, values);
            Ascending(ordered) && multiset(ordered) == multiset(values) && |ordered| == |values|
  {
    assert TotalPreorder(AtMost);
    SortSorts(AtMost, values);
    var ordered := Sort(AtMost, values);
    forall i, j | 0 <= i < j < |ordered| ensures ordered[i] <= ordered[j] { assert AtMost(ordered[i], ordered[j]); }
  }

  lemma {:induction false} CountInserted(s: seq<real>, v: real, x: real)
    ensures NotAbove(Insert(AtMost, s, v), x) == NotAbove(s, x) + if v <= x then 1 else 0
    ensures Below(Insert(AtMost, s, v), x) == Below(s, x) + if v < x then 1 else 0
  {
    var r := Insert(AtMost, s, v);
    if s == [] {
      assert r[..0] == [];
    } else if AtMost(s[|s| - 1], v) {
      assert r[..|s|] == s;
    } else {
      CountInserted(s[..|s| - 1], v, x);
      InsertKeeps(AtMost, s[..|s| - 1], v);
      assert r[..|s|] == Insert(AtMost, s[..|s| - 1], v);
    }
  }

  lemma {:induction false} CountSorted(s: seq<real>, x: real)
    ensures NotAbove(Sort(AtMost, s), x) == NotAbove(s, x)
    ensures Below(Sort(AtMost, s), x) == Below(s, x)
  {
    if s != [] {
      CountSorted(s[..|s| - 1], x);
      CountInserted(Sort(AtMost, s[..|s| - 1]), s[|s| - 1], x);
    }
  }

  /** In ascending order the element at `k` has at least `k + 1` values not above it and
      at most `k` below it. */
  lemma {:induction false} RankCounts(s: seq<real>, k: nat)
    requires Ascending(s) && k < |s|
    ensures NotAbove(s, s[k]) >= k + 1 && Below(s, s[k]) <= k
  {
    var init, last := s[..|s| - 1], |s| - 1;
    if k < last {
      assert init[k] == s[k] && s[k] <= s[last];
      RankCounts(init, k);
    } else {
      AllNotAbove(init, s[k]);
    }
  }

  lemma {:induction false} AllNotAbove(s: seq<real>, x: real)
    ensures Below(s, x) <= NotAbove(s, x) <= |s|
    ensures (forall i :: 0 <= i < |s| ==> s[i] <= x) ==> NotAbove(s, x) == |s|
  {
    if s != [] {
      AllNotAbove(s[..|s| - 1], x);
    }
  }

  /** For a fraction in (0, 1] the rank `k` is the least with k + 1 >= fraction * n. */
  lemma RankIsNearest(n: nat, fraction: real)
    requires n > 0 && 0.0 < fraction <= 1.0
    ensures Rank(n, fraction) as real < fraction * n as real <= (Rank(n, fraction) + 1) as real
  {
    var share := fraction * n as real;
    assert 0.0 < share <= n as real;
    assert (Ceiling(share) - 1) as real < share <= Ceiling(share) as real;
  }

  predicate HoldsShare(values: seq<real>, fraction: real, x: real) {
    Below(values, x) as real < fraction * |values| as real <= NotAbove(values, x) as real
  }

  lemma {:induction false} BelowIsLess(values: seq<real>, x: real, y: real)
    requires x < y
    ensures NotAbove(values, x) <= Below(values, y)
  {
    if values != [] {
      BelowIsLess(values[..|values| - 1], x, y);
    }
  }

  lemma RankHoldsShare(values: seq<real>, fraction: real, x: real, k: nat)
    requires Below(values, x) <= k && NotAbove(values, x) >= k + 1
    requires k as real < fraction * |values| as real <= (k + 1) as real
    ensures HoldsShare(values, fraction, x)
  {
    hide Below, NotAbove;
  }

  lemma PercentileHolds(values: seq<real>, fraction: real)
    requires values != [] && 0.0 < fraction <= 1.0
    ensures Percentile(values, fraction).Some? && Percentile(values, fraction).value in values
    ensures HoldsShare(values, fraction, Percentile(values, fraction).value)
  {
    hide Sort, NotAbove, Below, Rank, HoldsShare;
    SortReals(values);
    var ordered := Sort(AtMost, values);
    var k := Rank(|ordered|, fraction);
    assert Percentile(values, fraction) == Some(ordered[k]);
    RankCounts(ordered, k);
    RankIsNearest(|ordered|, fraction);
    CountSorted(values, ordered[k]);
    SameElements(ordered, values, ordered[k]);
    RankHoldsShare(values, fraction, ordered[k], k);
  }

  /** The nearest-rank property singles the percentile out: it is the one value of the
      input with fewer than fraction * n values below it and at least that many values
      not above it. */
  lemma NearestRank(values: seq<real>, fraction: real, x: real)
    requires 0.0 < fraction <= 1.0
    ensures Percentile(values, fraction) == Some(x) <==> x in values && HoldsShare(values, fraction, x)
  {
    if values != [] {
      PercentileHolds(values, fraction);
      hide *;
      var r := Percentile(values, fraction).value;
      assert HoldsShare(values, fraction, r);
      if x < r {
        BelowIsLess(values, x, r);
      } else if r < x {
        BelowIsLess(values, r, x);
      }
    }
  }

  lemma Ends(s: seq<real>, v: real)
    requires Ascending(s) && v in s
    ensures s[0] <= v <= s[|s| - 1]
  {
  }

  lemma ClampedRank(n: nat, fraction: real)
    requires n > 0
    ensures fraction <= 0.0 ==> Rank(n, fraction) == 0
    ensures fraction >= 1.0 ==> Rank(n, fraction) == n - 1
  {
    assert fraction <= 0.0 ==> fraction * n as real <= 0.0;
    assert fraction >= 1.0 ==> fraction * n as real >= n as real;
  }

  /** Outside (0, 1] the index is clamped: the smallest value for a fraction at or below
      zero, the largest for one at or above one. */
  lemma Clamped(values: seq<real>, fraction: real, v: real)
    requires v in values
    ensures Percentile(values, fraction).Some?
    ensures fraction <= 0.0 ==> Percentile(values, fraction).value <= v
    ensures fraction >= 1.0 ==> v <= Percentile(values, fraction).value
  {
    hide Sort, Rank;
    SortReals(values);
    var ordered := Sort(AtMost, values);
    ClampedRank(|ordered|, fraction);
    SameElements(ordered, values, v);
    Ends(ordered, v);
  }

  lemma CeilingMonotone(a: real, b: real)
    requires a <= b
    ensures Ceiling(a) <= Ceiling(b)
  {
  }

  lemma RankMonotone(n: nat, low: real, high: real)
    requires n > 0 && low <= high
    ensures Rank(n, low) <= Rank(n, high)
  {
    var a, b := low * n as real, high * n as real;
    Scaled(low, high, n as real);
    CeilingMonotone(a, b);
  }

  /** A larger fraction never gives a smaller percentile. */
  lemma Monotone(values: seq<real>, low: real, high: real)
    requires values != [] && low <= high
    ensures Percentile(values, low).Some? && Percentile(values, high).Some?
    ensures Percentile(values, low).value <= Percentile(values, high).value
  {
    hide Sort, Rank;
    SortReals(values);
    var ordered := Sort(AtMost, values);
    RankMonotone(|ordered|, low, high);
    var i, j := Rank(|ordered|, low), Rank(|ordered|, high);
    assert Percentile(values, low).value == ordered[i] && Percentile(values, high).value == ordered[j];
    assert i < j ==> ordered[i] <= ordered[j];
  }

  /** The order of the input does not matter. */
  lemma OrderFree(a: seq<real>, b: seq<real>, fraction: real)
    requires multiset(a) == multiset(b)
    ensures Percentile(a, fraction) == Percentile(b, fraction)
  {
    assert TotalPreorder(AtMost);
    SortIsCanonical(AtMost, a, b);
    assert |multiset(a)| == |a| && |multiset(b)| == |b|;
  }

  lemma {:induction false} CountDominated(a: seq<real>, b: seq<real>, x: real)
    requires |a| == |b| && forall i :: 0 <= i < |a| ==> a[i] <= b[i]
    ensures NotAbove(b, x) <= NotAbove(a, x)
  {
    if a != [] {
      CountDominated(a[..|a| - 1], b[..|b| - 1], x);
    }
  }

  lemma SharesOrdered(a: seq<real>, b: seq<real>, fraction: real, x: real, y: real)
    requires |a| == |b| && forall i :: 0 <= i < |a| ==> a[i] <= b[i]
    requires HoldsShare(a, fraction, x) && HoldsShare(b, fraction, y)
    ensures x <= y
  {
    hide NotAbove, Below;
    if y < x {
      BelowIsLess(a, y, x);
      CountDominated(a, b, y);
    }
  }

  /** Values that are each no larger than their counterparts have a percentile no larger
      than that of the counterparts. */
  lemma Dominated(a: seq<real>, b: seq<real>, fraction: real)
    requires |a| == |b| && a != [] && 0.0 < fraction <= 1.0
    requires forall i :: 0 <= i < |a| ==> a[i] <= b[i]
    ensures Percentile(a, fraction).Some? && Percentile(b, fraction).Some?
    ensures Percentile(a, fraction).value <= Percentile(b, fraction).value
  {
    PercentileHolds(a, fraction);
    PercentileHolds(b, fraction);
    SharesOrdered(a, b, fraction, Percentile(a, fraction).value, Percentile(b, fraction).value);
  }
}
