/**
 * `VerticalDensity.compute`: for every orientation (each single panel, the left and the right
 * half of the pad, and all panels) the weighted harmonic mean of the time gaps between
 * consecutive rows that step on that orientation.  The orientations are generated from the
 * panel count, the length of the chart's first row.  Weights are `i^alpha` over the sorted
 * gaps, so `alpha = 0` gives the plain harmonic mean.
 */
module DensityFeatures {
  import opened Text
  import opened Sorting
  import opened Charts

  datatype Orientation = Column(index: nat) | Left | Right | All

  /** The key of an orientation in the result: `col_<i>`, `left`, `right` or `all`. */
  function Name(o: Orientation): string {
    match o
    case Column(i) => "col_" + DecimalString(i)
    case Left => "left"
    case Right => "right"
    case All => "all"
  }

  /** The orientations of a pad with `n` panels, in the order `compute` generates them. */
  function Orientations(n: nat): (os: seq<Orientation>)
    ensures |os| == n + (if n > 1 then 3 else 1)
  {
    seq(n, i requires 0 <= i < n => Column(i)) + (if n > 1 then [Left, Right] else []) + [All]
  }

  /** The keys of the result for `n` panels. */
  ghost function OrientationNames(n: nat): set<string> {
    set o | o in Orientations(n) :: Name(o)
  }

  /** The filter function of orientation `o` on a row of a pad with `n` panels. */
  predicate Matches(o: Orientation, v: string, n: nat) {
    match o
    case Column(i) => i < |v| && v[i] == '1'
    case Left => exists j :: 0 <= j < n / 2 && j < |v| && v[j] == '1'
    case Right => exists j :: n / 2 <= j < n && j < |v| && v[j] == '1'
    case All => '1' in v
  }

  /** `num_panels`: the length of the first value of the dict, 0 for an empty dict. */
  function PanelCount(c: Chart): nat
    requires c.WellFormed()
  {
    if |c.order| == 0 then 0
    else
      assert c.order[0] in c.order;
      assert forall k :: k in c.order ==> k in c.rows;
      |c.rows[c.order[0]]|
  }

  /**
   * Every row is at least as long as the first: the `col_<n-1>` filter reads the last panel
   * of every row, so `compute` raises an IndexError on any shorter row.
   */
  ghost predicate RowsCover(c: Chart)
    requires c.WellFormed()
  {
    forall k :: k in c.rows ==> |c.rows[k]| >= PanelCount(c)
  }

  /** `[k for k, v in chart.items() if filter_func(v)]` over the keys in `order`. */
  function KeysMatching(order: seq<real>, rows: map<real, string>, o: Orientation, n: nat): (ks: seq<real>)
    requires forall k :: k in order ==> k in rows
    ensures |ks| <= |order|
    ensures forall k :: k in ks <==> k in order && Matches(o, rows[k], n)
    ensures Distinct(order) ==> Distinct(ks)
  {
    if order == [] then []
    else
      var init, last := order[..|order| - 1], order[|order| - 1];
      assert order == init + [last];
      var rest := KeysMatching(init, rows, o, n);
      if Matches(o, rows[last], n) then
        assert Distinct(order) ==> last !in init && Distinct(init);
        rest + [last]
      else
        assert Distinct(order) ==> Distinct(init);
        rest
  }

  // ---------------------------------------------------------------------------------------
  // `_weighted_harmonic_average`

  /** Gaps at or below this are dropped before averaging. */
  const Cutoff: real := 0.000001

  function Pow(b: nat, e: nat): nat {
    if e == 0 then 1 else b * Pow(b, e - 1)
  }

  /** `values[values > 1e-6]`: the values above the cutoff, in their order. */
  function Above(values: seq<real>): (r: seq<real>)
    ensures |r| <= |values|
    ensures forall x :: x in r <==> x in values && x > Cutoff
    ensures forall x :: multiset(r)[x] == if x > Cutoff then multiset(values)[x] else 0
  {
    if values == [] then []
    else
      var init, last := values[..|values| - 1], values[|values| - 1];
      assert values == init + [last];
      var rest := Above(init);
      assert multiset(values) == multiset(init) + multiset{last};
      if last > Cutoff then
        assert multiset(rest + [last]) == multiset(rest) + multiset{last};
        rest + [last]
      else rest
  }

  /** `np.sum(np.power(np.arange(k), alpha))` */
  function WeightSum(k: nat, alpha: nat): nat {
    if k == 0 then 0 else WeightSum(k - 1, alpha) + Pow(k - 1, alpha)
  }

  predicate Positive(s: seq<real>) {
    forall i :: 0 <= i < |s| ==> s[i] > 0.0
  }

  /** `np.dot(weights, np.reciprocal(s))` over the first `k` values: the sum of `w_i / s_i`. */
  function WeightedReciprocalSum(s: seq<real>, alpha: nat, k: nat): real
    requires k <= |s| && Positive(s)
  {
    if k == 0 then 0.0
    else WeightedReciprocalSum(s, alpha, k - 1) + Pow(k - 1, alpha) as real / s[k - 1]
  }

  /** `_weighted_harmonic_average(values)` with exponent `alpha`. */
  function WeightedHarmonicAverage(values: seq<real>, alpha: nat): real {
    var kept := Above(values);
    if |kept| == 0 then 0.0
    else
      var s := Sort(kept);
      SortedAbove(kept);
      var weightSum := WeightSum(|s|, alpha);
      if weightSum > 0 then
        ReciprocalSumPositive(s, alpha);
        weightSum as real / WeightedReciprocalSum(s, alpha, |s|)
      else 0.0
  }

  /** The density of orientation `o`: 0 when fewer than two rows match. */
  function Density(c: Chart, o: Orientation, n: nat, alpha: nat): (r: real)
    requires c.WellFormed()
  {
    var keys := KeysMatching(c.order, c.rows, o, n);
    if |keys| < 2 then 0.0 else WeightedHarmonicAverage(Diffs(Sort(keys)), alpha)
  }

  // ---------------------------------------------------------------------------------------

  class VerticalDensity {
    const alpha: nat

    /** `VerticalDensity(alpha)` */
    constructor (alpha: nat)
      ensures this.alpha == alpha
    {
      this.alpha := alpha;
    }

    /** `compute(chart)`: the density of every orientation, keyed by its name. */
    method Compute(chart: Chart) returns (verticalDensity: map<string, real>)
      requires chart.WellFormed() && RowsCover(chart)
      ensures PanelCount(chart) == 0 ==> verticalDensity == map[]
      ensures PanelCount(chart) > 0 ==> verticalDensity.Keys == OrientationNames(PanelCount(chart))
      ensures forall o :: o in Orientations(PanelCount(chart)) && PanelCount(chart) > 0 ==>
                Name(o) in verticalDensity &&
                verticalDensity[Name(o)] == Density(chart, o, PanelCount(chart), alpha)
    {
      if |chart.order| == 0 {
        return map[];
      }
      var first := chart.order[0];
      assert first in chart.order;
      var numPanels := |chart.rows[first]|;
      if numPanels == 0 {
        return map[];
      }
      var orientations: seq<Orientation> := [];
      for i := 0 to numPanels
        invariant orientations == seq(i, j requires 0 <= j < i => Column(j))
      {
        orientations := orientations + [Column(i)];
      }
      if numPanels > 1 {
        orientations := orientations + [Left, Right];
      }
      orientations := orientations + [All];
      assert orientations == Orientations(numPanels);

      verticalDensity := map[];
      for k := 0 to |orientations|
        invariant Filled(verticalDensity, orientations[..k], chart, numPanels, alpha)
      {
        var orientation := orientations[k];
        assert orientations[..k + 1] == orientations[..k] + [orientation];
        var filteredKeys := KeysMatching(chart.order, chart.rows, orientation, numPanels);
        if |filteredKeys| < 2 {
          Fill(verticalDensity, orientations[..k], orientation, 0.0, chart, numPanels, alpha);
          verticalDensity := verticalDensity[Name(orientation) := 0.0];
          continue;
        }
        var timedeltas := Diffs(Sort(filteredKeys));
        var density := WeightedHarmonicAverage(timedeltas, alpha);
        Fill(verticalDensity, orientations[..k], orientation, density, chart, numPanels, alpha);
        verticalDensity := verticalDensity[Name(orientation) := density];
      }
      assert orientations[..|orientations|] == orientations;
    }
  }

  /** `m` holds the density of every orientation of `done`, and nothing else. */
  ghost predicate Filled(m: map<string, real>, done: seq<Orientation>, c: Chart, n: nat, alpha: nat)
    requires c.WellFormed()
  {
    && m.Keys == (set o | o in done :: Name(o))
    && forall o :: o in done ==> Name(o) in m && m[Name(o)] == Density(c, o, n, alpha)
  }

  /** Storing the density of one more orientation under its name keeps the others. */
  lemma Fill(m: map<string, real>, done: seq<Orientation>, o: Orientation, density: real,
             c: Chart, n: nat, alpha: nat)
    requires c.WellFormed()
    requires Filled(m, done, c, n, alpha)
    requires density == Density(c, o, n, alpha)
    ensures Filled(m[Name(o) := density], done + [o], c, n, alpha)
  {
    var filled := m[Name(o) := density];
    forall x | x in done + [o] ensures Name(x) in filled && filled[Name(x)] == Density(c, x, n, alpha)
    {
      if x != o {
        assert x in done;
        if Name(x) == Name(o) {
          NameInjective(x, o);
        }
      }
    }
    assert filled.Keys == m.Keys + {Name(o)};
    assert (set x | x in done + [o] :: Name(x)) == (set x | x in done :: Name(x)) + {Name(o)};
  }

  // ---------------------------------------------------------------------------------------
  // Orientations and their names

  /** Different orientations have different names, so no density overwrites another. */
  lemma NameInjective(o1: Orientation, o2: Orientation)
    requires Name(o1) == Name(o2)
    ensures o1 == o2
  {
    assert Name(o1)[0] == Name(o2)[0];
    if o1.Column? && o2.Column? {
      assert Name(o1)[4..] == DecimalString(o1.index);
      assert Name(o2)[4..] == DecimalString(o2.index);
      DecimalStringInjective(o1.index, o2.index);
    }
  }

  /**
   * The keys are `col_0` .. `col_<n-1>`, `left` and `right` exactly when there is more than one
   * panel, and `all`; in particular there are no arrow names `L`, `D`, `U`, `R`.
   */
  lemma OrientationKeys(n: nat)
    ensures "all" in OrientationNames(n)
    ensures ("left" in OrientationNames(n)) <==> n > 1
    ensures ("right" in OrientationNames(n)) <==> n > 1
    ensures forall i: nat :: ("col_" + DecimalString(i) in OrientationNames(n)) <==> i < n
    ensures "L" !in OrientationNames(n) && "D" !in OrientationNames(n)
    ensures "U" !in OrientationNames(n) && "R" !in OrientationNames(n)
  {
    var os := Orientations(n);
    assert All in os;
    assert Name(All) == "all";
    if n > 1 {
      assert Left in os && Right in os;
      assert Name(Left) == "left" && Name(Right) == "right";
    } else {
      forall o | o in os ensures Name(o) != "left" && Name(o) != "right" {
        if Name(o) == "left" { NameInjective(o, Left); }
        if Name(o) == "right" { NameInjective(o, Right); }
      }
    }
    forall i: nat ensures ("col_" + DecimalString(i) in OrientationNames(n)) <==> i < n {
      var name := "col_" + DecimalString(i);
      ColumnInOrientations(n, i);
      assert Name(Column(i)) == name;
      if name in OrientationNames(n) {
        var o :| o in os && Name(o) == name;
        NameInjective(o, Column(i));
      }
    }
    forall o | o in os ensures |Name(o)| > 1 {
      match o
      case Column(i) =>
      case Left =>
      case Right =>
      case All =>
    }
  }

  lemma ColumnInOrientations(n: nat, i: nat)
    ensures Column(i) in Orientations(n) <==> i < n
  {
    var os := Orientations(n);
    if i < n {
      assert os[i] == Column(i);
    }
    if Column(i) in os {
      var p :| 0 <= p < |os| && os[p] == Column(i);
      if p < n {
        assert os[p] == Column(p);
      }
    }
  }

  /** The `left` and `right` filters are the ORs of their columns' filters. */
  lemma HalvesAreColumnGroups(v: string, n: nat)
    requires |v| >= n
    ensures Matches(Left, v, n) <==> exists i :: 0 <= i < n / 2 && Matches(Column(i), v, n)
    ensures Matches(Right, v, n) <==> exists i :: n / 2 <= i < n && Matches(Column(i), v, n)
  {
    if Matches(Left, v, n) {
      var j :| 0 <= j < n / 2 && j < |v| && v[j] == '1';
      assert Matches(Column(j), v, n);
    }
    if Matches(Right, v, n) {
      var j :| n / 2 <= j < n && j < |v| && v[j] == '1';
      assert Matches(Column(j), v, n);
    }
  }

  /**
   * The halves split the `n` panels into two disjoint ranges: a row steps on the left or the
   * right half exactly when it steps on some panel, which for a row of length `n` is the
   * `all` filter.
   */
  lemma {:induction false} HalvesPartition(v: string, n: nat)
    requires |v| >= n
    ensures (Matches(Left, v, n) || Matches(Right, v, n)) <==> exists j :: 0 <= j < n && v[j] == '1'
    ensures |v| == n ==> ((Matches(Left, v, n) || Matches(Right, v, n)) <==> Matches(All, v, n))
  {
    if exists j :: 0 <= j < n && v[j] == '1' {
      var j :| 0 <= j < n && v[j] == '1';
      if j < n / 2 {
        assert Matches(Left, v, n);
      } else {
        assert Matches(Right, v, n);
      }
    }
    if |v| == n && Matches(All, v, n) {
      var j :| 0 <= j < |v| && v[j] == '1';
      assert 0 <= j < n && v[j] == '1';
    }
  }

  // ---------------------------------------------------------------------------------------
  // The weighted harmonic average

  lemma {:induction false} PowPositive(b: nat, e: nat)
    requires b > 0 || e == 0
    ensures Pow(b, e) > 0
  {
    if e > 0 {
      PowPositive(b, e - 1);
    }
  }

  lemma PowZero(e: nat)
    requires e > 0
    ensures Pow(0, e) == 0
  {
  }

  /** The sum of the weights is positive exactly when some weight is: one value suffices for alpha = 0, two otherwise. */
  lemma {:induction false} WeightSumPositive(k: nat, alpha: nat)
    ensures WeightSum(k, alpha) > 0 <==> k >= 1 && (alpha == 0 || k >= 2)
  {
    if k > 0 {
      WeightSumPositive(k - 1, alpha);
      if alpha == 0 || k >= 2 {
        PowPositive(k - 1, alpha);
      } else {
        PowZero(alpha);
      }
    }
  }

  /** Sorting keeps the values above the cutoff. */
  lemma SortedAbove(kept: seq<real>)
    requires forall x :: x in kept ==> x > Cutoff
    ensures forall i :: 0 <= i < |Sort(kept)| ==> Sort(kept)[i] > Cutoff
    ensures Positive(Sort(kept))
  {
    var s := Sort(kept);
    forall i | 0 <= i < |s| ensures s[i] > Cutoff {
      assert s[i] in multiset(s);
      assert s[i] in kept;
    }
  }

  /** One term of the dot product is its weight divided by a value between `lo` and `hi`. */
  lemma TermBounds(w: real, x: real, lo: real, hi: real)
    requires w >= 0.0 && 0.0 < lo <= x <= hi
    ensures lo * (w / x) <= w <= hi * (w / x)
  {
    var t := w / x;
    assert t * x == w;
    assert t >= 0.0;
    assert (x - lo) * t >= 0.0;
    assert (hi - x) * t >= 0.0;
  }

  /** `c * r <= w`, kept as one fact so that the solver does not take the product apart. */
  predicate ScaledAtMost(c: real, r: real, w: real) {
    c * r <= w
  }

  /** `w <= c * r` */
  predicate ScaledAtLeast(c: real, r: real, w: real) {
    w <= c * r
  }

  /** The index of the first value with a positive weight `i^alpha`: 0 for alpha = 0, else 1. */
  function FirstWeighted(alpha: nat): (i: nat)
    ensures i <= 1
  {
    if alpha == 0 then 0 else 1
  }

  /**
   * When every positively weighted value lies in [lo, hi], the sum of weights is between
   * `lo` and `hi` times the weighted sum of reciprocals.
   */
  lemma {:induction false} ReciprocalSumBounds(s: seq<real>, alpha: nat, k: nat, lo: real, hi: real)
    requires k <= |s| && Positive(s) && 0.0 < lo
    requires forall i :: FirstWeighted(alpha) <= i < k ==> lo <= s[i] <= hi
    ensures WeightedReciprocalSum(s, alpha, k) >= 0.0
    ensures ScaledAtMost(lo, WeightedReciprocalSum(s, alpha, k), WeightSum(k, alpha) as real)
    ensures ScaledAtLeast(hi, WeightedReciprocalSum(s, alpha, k), WeightSum(k, alpha) as real)
  {
    if k > 0 {
      ReciprocalSumBounds(s, alpha, k - 1, lo, hi);
      var r, ws := WeightedReciprocalSum(s, alpha, k - 1), WeightSum(k - 1, alpha) as real;
      var w, x := Pow(k - 1, alpha) as real, s[k - 1];
      if k - 1 < FirstWeighted(alpha) {
        PowZero(alpha);
      }
      BoundsStep(r, ws, w, x, lo, hi, WeightedReciprocalSum(s, alpha, k), WeightSum(k, alpha) as real);
    }
  }

  /** One more term `w / x` keeps the bounds of `ReciprocalSumBounds`. */
  lemma BoundsStep(r: real, ws: real, w: real, x: real, lo: real, hi: real, total: real, weights: real)
    requires r >= 0.0 && ScaledAtMost(lo, r, ws) && ScaledAtLeast(hi, r, ws)
    requires w >= 0.0 && 0.0 < lo && x > 0.0
    requires w > 0.0 ==> lo <= x <= hi
    requires total == r + w / x && weights == ws + w
    ensures total >= 0.0
    ensures ScaledAtMost(lo, total, weights) && ScaledAtLeast(hi, total, weights)
  {
    var t := w / x;
    if w > 0.0 {
      TermBounds(w, x, lo, hi);
    } else {
      assert t == 0.0;
    }
    assert lo * (r + t) == lo * r + lo * t;
    assert hi * (r + t) == hi * r + hi * t;
  }

  lemma ReciprocalSumPositive(s: seq<real>, alpha: nat)
    requires Sorted(s) && |s| > 0
    requires forall i :: 0 <= i < |s| ==> s[i] > Cutoff
    requires WeightSum(|s|, alpha) > 0
    ensures Positive(s) && WeightedReciprocalSum(s, alpha, |s|) > 0.0
  {
    var hi := s[|s| - 1];
    ReciprocalSumBounds(s, alpha, |s|, Cutoff, hi);
    var r := WeightedReciprocalSum(s, alpha, |s|);
    assert hi * r > 0.0;
    assert r == (hi * r) / hi;
  }

  lemma QuotientBounds(w: real, r: real, lo: real, hi: real)
    requires r > 0.0 && ScaledAtMost(lo, r, w) && ScaledAtLeast(hi, r, w)
    ensures lo <= w / r <= hi
  {
    assert (w / r) * r == w;
  }

  /** A weighted harmonic mean of sorted values lies between the first positively weighted value and the last. */
  lemma SortedHarmonicBounds(s: seq<real>, alpha: nat)
    requires Sorted(s) && |s| > 0
    requires forall i :: 0 <= i < |s| ==> s[i] > Cutoff
    requires WeightSum(|s|, alpha) > 0
    ensures alpha > 0 ==> |s| >= 2
    ensures Positive(s) && WeightedReciprocalSum(s, alpha, |s|) > 0.0
    ensures s[if alpha == 0 then 0 else 1] <= WeightSum(|s|, alpha) as real / WeightedReciprocalSum(s, alpha, |s|) <= s[|s| - 1]
  {
    WeightSumPositive(|s|, alpha);
    var first := FirstWeighted(alpha);
    var lo, hi := s[first], s[|s| - 1];
    assert forall i :: first <= i < |s| ==> lo <= s[i] <= hi;
    ReciprocalSumPositive(s, alpha);
    var w, r := WeightSum(|s|, alpha) as real, WeightedReciprocalSum(s, alpha, |s|);
    ReciprocalSumBounds(s, alpha, |s|, lo, hi);
    QuotientBounds(w, r, lo, hi);
  }

  /**
   * The density is never negative.  With no surviving gap, or a single one and alpha > 0
   * (whose only weight is `0^alpha = 0`), it is 0; otherwise it lies between the smallest
   * positively weighted gap and the largest gap.
   */
  lemma DensityBounds(values: seq<real>, alpha: nat)
    ensures WeightedHarmonicAverage(values, alpha) >= 0.0
    ensures var s := Sort(Above(values));
            |s| == 0 || (alpha > 0 && |s| == 1) ==> WeightedHarmonicAverage(values, alpha) == 0.0
    ensures var s := Sort(Above(values));
            |s| >= 1 && (alpha == 0 || |s| >= 2) ==>
              Cutoff < s[if alpha == 0 then 0 else 1] <= WeightedHarmonicAverage(values, alpha) <= s[|s| - 1]
  {
    var kept := Above(values);
    var s := Sort(kept);
    WeightSumPositive(|s|, alpha);
    if |kept| > 0 && WeightSum(|s|, alpha) > 0 {
      SortedAbove(kept);
      SortedHarmonicBounds(s, alpha);
      assert WeightedHarmonicAverage(values, alpha) ==
             WeightSum(|s|, alpha) as real / WeightedReciprocalSum(s, alpha, |s|);
    }
  }

  /** `sum(1 / s_i)` over the first `k` values. */
  function ReciprocalSum(s: seq<real>, k: nat): real
    requires k <= |s| && Positive(s)
  {
    if k == 0 then 0.0 else ReciprocalSum(s, k - 1) + 1.0 / s[k - 1]
  }

  lemma {:induction false} UnitWeights(s: seq<real>, k: nat)
    requires k <= |s| && Positive(s)
    ensures WeightSum(k, 0) == k
    ensures WeightedReciprocalSum(s, 0, k) == ReciprocalSum(s, k)
  {
    if k > 0 {
      UnitWeights(s, k - 1);
    }
  }

  /** With alpha = 0 every weight is 1: the density is the plain harmonic mean `count / sum(1 / d)`. */
  lemma PlainHarmonicMean(values: seq<real>)
    requires |Above(values)| > 0
    ensures var s := Sort(Above(values));
            Positive(s) && ReciprocalSum(s, |s|) > 0.0 &&
            WeightedHarmonicAverage(values, 0) == |s| as real / ReciprocalSum(s, |s|)
  {
    var s := Sort(Above(values));
    SortedAbove(Above(values));
    UnitWeights(s, |s|);
    WeightSumPositive(|s|, 0);
    ReciprocalSumPositive(s, 0);
  }
}
