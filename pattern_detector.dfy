/**
 * `PatternDetector.compute`: the share of jacks (the same panel hit on two consecutive rows at
 * most `jack_threshold` seconds apart, 0.1 by default) and of crossovers (a fixed foot rule on
 * the four panels Left, Down, Up, Right) among the rows of a chart.
 */
module PatternDetection {
  import opened Sorting
  import opened Charts

  /** The rows of the chart in timestamp order: `chart[timestamps[i]]`. */
  function RowsInOrder(c: Chart): (vs: seq<string>)
    requires c.WellFormed()
    ensures |vs| == |SortedKeys(c)|
    ensures forall i :: 0 <= i < |vs| ==> SortedKeys(c)[i] in c.rows && vs[i] == c.rows[SortedKeys(c)[i]]
  {
    var ts := SortedKeys(c);
    assert forall i :: 0 <= i < |ts| ==> ts[i] in ts;
    seq(|ts|, i requires 0 <= i < |ts| => c.rows[ts[i]])
  }

  /** Row `v` has a step in column `j`. */
  predicate On(v: string, j: nat) {
    j < |v| && v[j] == '1'
  }

  /** Of the columns `0..k-1`, how many hold a step in both rows. */
  function SharedUpTo(prev: string, note: string, k: nat): (r: nat)
    requires k <= 4
    ensures r <= k
  {
    if k == 0 then 0 else SharedUpTo(prev, note, k - 1) + (if On(note, k - 1) && On(prev, k - 1) then 1 else 0)
  }

  /** What one close pair adds to `jacks`: the panels among 0..3 stepped on in both rows. */
  function SharedPanels(prev: string, note: string): nat {
    SharedUpTo(prev, note, 4)
  }

  /**
   * `left_foot_on_right or right_foot_on_left`: the row steps on the right side (Up or Right)
   * after a step on the left side (Left or Down), or the other way round.
   */
  predicate Crossover(prev: string, note: string) {
    || ((On(note, 3) || On(note, 2)) && (On(prev, 0) || On(prev, 1)))
    || ((On(note, 0) || On(note, 1)) && (On(prev, 3) || On(prev, 2)))
  }

  /** The pair ending at row `i` is close enough for a jack. */
  predicate JackGap(ts: seq<real>, i: nat, threshold: real)
    requires 1 <= i < |ts|
  {
    ts[i] - ts[i - 1] <= threshold
  }

  /** `jacks` once the pairs ending before row `k` have been seen. */
  function JackCount(ts: seq<real>, vs: seq<string>, threshold: real, k: nat): (r: nat)
    requires |vs| == |ts| && k <= |ts|
  {
    if k < 2 then 0
    else JackCount(ts, vs, threshold, k - 1) +
         (if JackGap(ts, k - 1, threshold) then SharedPanels(vs[k - 2], vs[k - 1]) else 0)
  }

  /** `crossovers` once the pairs ending before row `k` have been seen; there is no time condition. */
  function CrossoverCount(vs: seq<string>, k: nat): (r: nat)
    requires k <= |vs|
  {
    if k < 2 then 0
    else CrossoverCount(vs, k - 1) + (if Crossover(vs[k - 2], vs[k - 1]) then 1 else 0)
  }

  /** A count as a percentage of the `n` rows; 0 below two rows. */
  function Percentage(count: nat, n: nat): real {
    if n < 2 then 0.0 else (count as real / n as real) * 100.0
  }

  /**
   * When `compute` reads no missing character: every row after the first has the four
   * characters `note[3]` and the rest need, and the first row has every character the
   * short-circuiting tests of the first pair read of it.
   */
  predicate Readable(ts: seq<real>, vs: seq<string>, threshold: real)
    requires |vs| == |ts|
  {
    && (forall i :: 1 <= i < |vs| ==> |vs[i]| >= 4)
    && (|vs| >= 2 ==> FirstRowReadable(vs[0], vs[1], JackGap(ts, 1, threshold)))
  }

  predicate FirstRowReadable(prev: string, note: string, close: bool)
    requires |note| >= 4
  {
    && (close ==> forall j :: 0 <= j < 4 && note[j] == '1' ==> j < |prev|)
    && ((note[3] == '1' || note[2] == '1') ==> 0 < |prev| && (prev[0] != '1' ==> 1 < |prev|))
    && ((note[0] == '1' || note[1] == '1') ==> 3 < |prev|)
  }

  /** Every pair `compute` looks at has the characters it reads. */
  lemma PairReadable(ts: seq<real>, vs: seq<string>, threshold: real, i: nat)
    requires |vs| == |ts| && 1 <= i < |ts|
    requires Readable(ts, vs, threshold)
    ensures |vs[i]| >= 4 && FirstRowReadable(vs[i - 1], vs[i], JackGap(ts, i, threshold))
  {
  }

  /** The inner `for j in range(4)` loop of `compute`: the jacks one close pair adds. */
  method SharedColumns(prevNote: string, note: string) returns (count: nat)
    requires |note| >= 4
    requires forall j :: 0 <= j < 4 && note[j] == '1' ==> j < |prevNote|
    ensures count == SharedPanels(prevNote, note)
  {
    count := 0;
    for j := 0 to 4
      invariant count == SharedUpTo(prevNote, note, j)
    {
      if note[j] == '1' && prevNote[j] == '1' {
        count := count + 1;
      }
    }
  }

  /** `left_foot_on_right or right_foot_on_left` for one pair of rows. */
  method FootCrossing(prevNote: string, note: string) returns (crossover: bool)
    requires |note| >= 4
    requires FirstRowReadable(prevNote, note, false)
    ensures crossover == Crossover(prevNote, note)
  {
    var leftFootOnRight := (note[3] == '1' || note[2] == '1') &&
                           (prevNote[0] == '1' || prevNote[1] == '1');
    var rightFootOnLeft := (note[0] == '1' || note[1] == '1') &&
                           (prevNote[3] == '1' || prevNote[2] == '1');
    crossover := leftFootOnRight || rightFootOnLeft;
  }

  class PatternDetector {
    const jackThreshold: real

    /** `PatternDetector(jack_threshold)`; the source's default is 0.1 seconds. */
    constructor (jackThreshold: real)
      ensures this.jackThreshold == jackThreshold
    {
      this.jackThreshold := jackThreshold;
    }

    /** `compute(chart)`: `jack_percentage` and `crossover_percentage`. */
    method Compute(chart: Chart) returns (jackPercentage: real, crossoverPercentage: real)
      requires chart.WellFormed()
      requires Readable(SortedKeys(chart), RowsInOrder(chart), jackThreshold)
      ensures var ts, vs := SortedKeys(chart), RowsInOrder(chart);
              jackPercentage == Percentage(JackCount(ts, vs, jackThreshold, |ts|), |ts|) &&
              crossoverPercentage == Percentage(CrossoverCount(vs, |vs|), |vs|)
    {
      var timestamps := SortedKeys(chart);
      ghost var vs := RowsInOrder(chart);
      if |timestamps| < 2 {
        return 0.0, 0.0;
      }
      var jacks: nat := 0;
      var crossovers: nat := 0;
      for i := 1 to |timestamps|
        invariant jacks == JackCount(timestamps, vs, jackThreshold, i)
        invariant crossovers == CrossoverCount(vs, i)
      {
        var timeDiff := timestamps[i] - timestamps[i - 1];
        var note := chart.rows[timestamps[i]];
        var prevNote := chart.rows[timestamps[i - 1]];
        assert note == vs[i] && prevNote == vs[i - 1];
        PairReadable(timestamps, vs, jackThreshold, i);
        if timeDiff <= jackThreshold {
          var pairJacks := SharedColumns(prevNote, note);
          jacks := jacks + pairJacks;
        }
        assert JackGap(timestamps, i, jackThreshold) <==> timeDiff <= jackThreshold;
        var crossover := FootCrossing(prevNote, note);
        if crossover {
          crossovers := crossovers + 1;
        }
      }
      var totalNotes := |timestamps|;
      jackPercentage := if totalNotes > 0 then (jacks as real / totalNotes as real) * 100.0 else 0.0;
      crossoverPercentage := if totalNotes > 0 then (crossovers as real / totalNotes as real) * 100.0 else 0.0;
    }
  }

  // ---------------------------------------------------------------------------------------

  /** The columns among `0..k-1` stepped on in both rows. */
  function BothOn(prev: string, note: string, k: nat): (cols: set<nat>)
    ensures forall j: nat :: j in cols <==> j < k && On(note, j) && On(prev, j)
  {
    set j: nat | j < k && On(note, j) && On(prev, j)
  }

  /** The jacks counted over columns `0..k-1` are the columns among them that both rows step on. */
  lemma {:induction false} SharedUpToIsSetSize(prev: string, note: string, k: nat)
    requires k <= 4
    ensures SharedUpTo(prev, note, k) == |BothOn(prev, note, k)|
  {
    if k > 0 {
      SharedUpToIsSetSize(prev, note, k - 1);
      var smaller := BothOn(prev, note, k - 1);
      var larger := BothOn(prev, note, k);
      if On(note, k - 1) && On(prev, k - 1) {
        assert larger == smaller + {k - 1};
        assert k - 1 !in smaller;
      } else {
        assert larger == smaller;
      }
    }
  }

  /** The jacks of a close pair are the panels among 0..3 that both rows step on. */
  lemma SharedPanelsIsSetSize(prev: string, note: string)
    ensures SharedPanels(prev, note) == |BothOn(prev, note, 4)|
  {
    SharedUpToIsSetSize(prev, note, 4);
  }

  /** A close pair adds at most 4 jacks, so there are at most 4 per pair. */
  lemma {:induction false} JackCountBound(ts: seq<real>, vs: seq<string>, threshold: real, k: nat)
    requires |vs| == |ts| && k <= |ts|
    ensures JackCount(ts, vs, threshold, k) <= 4 * (if k < 2 then 0 else k - 1)
  {
    if k >= 2 {
      JackCountBound(ts, vs, threshold, k - 1);
    }
  }

  /** At most one crossover per pair. */
  lemma {:induction false} CrossoverCountBound(vs: seq<string>, k: nat)
    requires k <= |vs|
    ensures CrossoverCount(vs, k) <= (if k < 2 then 0 else k - 1)
  {
    if k >= 2 {
      CrossoverCountBound(vs, k - 1);
    }
  }

  /** A count below `bound` per row is below `100 * bound` percent. */
  lemma PercentageBelow(count: nat, n: nat, bound: nat)
    requires n >= 2 && count < bound * n
    ensures 0.0 <= Percentage(count, n) < bound as real * 100.0
  {
    var q := count as real / n as real;
    assert q * n as real == count as real;
    assert q < bound as real;
  }

  /** `crossover_percentage` lies in [0, 100), and `jack_percentage` in [0, 400). */
  lemma PercentageRanges(ts: seq<real>, vs: seq<string>, threshold: real)
    requires |vs| == |ts|
    ensures 0.0 <= Percentage(CrossoverCount(vs, |vs|), |vs|) < 100.0
    ensures 0.0 <= Percentage(JackCount(ts, vs, threshold, |ts|), |ts|) < 400.0
  {
    if |ts| >= 2 {
      CrossoverCountBound(vs, |vs|);
      JackCountBound(ts, vs, threshold, |ts|);
      PercentageBelow(CrossoverCount(vs, |vs|), |vs|, 1);
      PercentageBelow(JackCount(ts, vs, threshold, |ts|), |ts|, 4);
    }
  }

  /** No pair within the threshold: no jacks at all. */
  lemma {:induction false} NoCloseNoJacks(ts: seq<real>, vs: seq<string>, threshold: real, k: nat)
    requires |vs| == |ts| && k <= |ts|
    requires forall i :: 1 <= i < |ts| ==> ts[i] - ts[i - 1] > threshold
    ensures JackCount(ts, vs, threshold, k) == 0
  {
    if k >= 2 {
      NoCloseNoJacks(ts, vs, threshold, k - 1);
    }
  }

  /** A larger jack threshold never finds fewer jacks. */
  lemma {:induction false} JackCountMonotone(ts: seq<real>, vs: seq<string>, t1: real, t2: real, k: nat)
    requires |vs| == |ts| && k <= |ts| && t1 <= t2
    ensures JackCount(ts, vs, t1, k) <= JackCount(ts, vs, t2, k)
  {
    if k >= 2 {
      JackCountMonotone(ts, vs, t1, t2, k - 1);
    }
  }

  /** The crossover rule is symmetric: swapping the two rows of a pair does not change it. */
  lemma CrossoverSymmetric(prev: string, note: string)
    ensures Crossover(prev, note) <==> Crossover(note, prev)
  {
  }

  /** Only the first four characters are read: longer rows count as their first four. */
  lemma {:induction false} OnlyFourColumnsRead(prev: string, note: string, prev': string, note': string, k: nat)
    requires k <= 4
    requires |prev| >= 4 && |note| >= 4 && |prev'| >= 4 && |note'| >= 4
    requires prev[..4] == prev'[..4] && note[..4] == note'[..4]
    ensures SharedUpTo(prev, note, k) == SharedUpTo(prev', note', k)
    ensures Crossover(prev, note) <==> Crossover(prev', note')
  {
    assert forall j :: 0 <= j < 4 ==> prev[j] == prev[..4][j] && prev'[j] == prev'[..4][j];
    assert forall j :: 0 <= j < 4 ==> note[j] == note[..4][j] && note'[j] == note'[..4][j];
    if k > 0 {
      OnlyFourColumnsRead(prev, note, prev', note', k - 1);
    }
  }

  /** Two quick taps on Left, then on Right: one jack pair and one crossover pair out of two rows. */
  lemma TwoRowExamples()
    ensures JackCount([1.0, 1.05], ["1000", "1000"], 0.1, 2) == 1
    ensures Percentage(JackCount([1.0, 1.05], ["1000", "1000"], 0.1, 2), 2) == 50.0
    ensures CrossoverCount(["1000", "1000"], 2) == 0
    ensures CrossoverCount(["1000", "0001"], 2) == 1
    ensures JackCount([1.0, 1.05], ["1000", "0001"], 0.1, 2) == 0
    ensures JackCount([1.0, 1.5], ["1000", "1000"], 0.1, 2) == 0
  {
    assert JackGap([1.0, 1.05], 1, 0.1);
    assert !JackGap([1.0, 1.5], 1, 0.1);
  }
}
