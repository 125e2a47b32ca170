/**
 * `StreamDetector.compute`: how much of a chart is "stream", runs of rows whose consecutive
 * timestamps lie at most `stream_threshold` seconds apart (0.25 by default).
 *
 * A streak is a maximal run of rows joined by close gaps; it has at least two rows.  The
 * detector reports the share of rows that lie in some streak and the row count of the
 * longest streak.
 */
module StreamDetection {
  import opened Sorting
  import opened Charts

  /** The gap after row `i` is close: rows `i` and `i + 1` are at most `threshold` apart. */
  predicate Close(ts: seq<real>, i: int, threshold: real) {
    0 <= i < |ts| - 1 && ts[i + 1] - ts[i] <= threshold
  }

  /** Row `i` belongs to a streak: a close gap touches it on one side or the other. */
  predicate InStream(ts: seq<real>, i: int, threshold: real) {
    Close(ts, i - 1, threshold) || Close(ts, i, threshold)
  }

  /** How many of the first `k` rows belong to a streak. */
  function StreamRows(ts: seq<real>, threshold: real, k: nat): (r: nat)
    requires k <= |ts|
    ensures r <= k
  {
    if k == 0 then 0 else StreamRows(ts, threshold, k - 1) + (if InStream(ts, k - 1, threshold) then 1 else 0)
  }

  /** `stream_notes`: the number of rows that belong to a streak. */
  function StreamNotes(ts: seq<real>, threshold: real): nat {
    StreamRows(ts, threshold, |ts|)
  }

  /** Rows `a..b` (at least two) are joined by close gaps only. */
  ghost predicate AllClose(ts: seq<real>, a: int, b: int, threshold: real) {
    0 <= a < b < |ts| && forall k :: a <= k < b ==> Close(ts, k, threshold)
  }

  /** `m` is the row count of the longest run of rows joined by close gaps, or 0 when there is none. */
  ghost predicate IsMaxStreamLength(ts: seq<real>, threshold: real, m: nat) {
    && (forall a, b :: AllClose(ts, a, b, threshold) ==> b - a + 1 <= m)
    && (m == 0 || exists a, b :: AllClose(ts, a, b, threshold) && b - a + 1 == m)
  }

  /** `stream_percentage`: the share of rows in a streak, in percent; 0 below two rows. */
  function StreamPercentage(ts: seq<real>, threshold: real): real {
    if |ts| < 2 then 0.0 else (StreamNotes(ts, threshold) as real / |ts| as real) * 100.0
  }

  function Max(a: nat, b: nat): nat {
    if a < b then b else a
  }

  class StreamDetector {
    const streamThreshold: real

    /** `StreamDetector(stream_threshold)`; the source's default is 0.25 seconds. */
    constructor (streamThreshold: real)
      ensures this.streamThreshold == streamThreshold
    {
      this.streamThreshold := streamThreshold;
    }

    /** `compute(chart)`: `stream_percentage` and `max_stream_length` of the chart. */
    method Compute(chart: Chart) returns (streamPercentage: real, maxStreamLength: nat)
      requires chart.WellFormed()
      ensures streamPercentage == StreamPercentage(SortedKeys(chart), streamThreshold)
      ensures IsMaxStreamLength(SortedKeys(chart), streamThreshold, maxStreamLength)
    {
      var timestamps := SortedKeys(chart);
      var threshold := streamThreshold;
      if |timestamps| < 2 {
        return 0.0, 0;
      }
      var streamNotes: nat := 0;
      maxStreamLength := 0;
      var current: nat := 0;
      ghost var witnessA, witnessB := 0, 0;
      for i := 1 to |timestamps|
        invariant Scanned(timestamps, threshold, i, streamNotes, maxStreamLength, current, witnessA, witnessB)
      {
        var timeDiff := timestamps[i] - timestamps[i - 1];
        assert Close(timestamps, i - 1, threshold) <==> timeDiff <= threshold;
        if timeDiff <= threshold {
          ScanClose(timestamps, threshold, i, streamNotes, maxStreamLength, current, witnessA, witnessB);
          if current == 0 {
            current := 2;
          } else {
            current := current + 1;
          }
        } else {
          ScanApart(timestamps, threshold, i, streamNotes, maxStreamLength, current, witnessA, witnessB);
          if current > 0 {
            streamNotes := streamNotes + current;
          }
          if maxStreamLength < current {
            witnessA, witnessB := i - current, i - 1;
          }
          maxStreamLength := Max(maxStreamLength, current);
          current := 0;
        }
      }
      ScanFinished(timestamps, threshold, streamNotes, maxStreamLength, current, witnessA, witnessB);
      if current > 0 {
        streamNotes := streamNotes + current;
      }
      if maxStreamLength < current {
        witnessA, witnessB := |timestamps| - current, |timestamps| - 1;
      }
      maxStreamLength := Max(maxStreamLength, current);
      var totalNotes := |timestamps|;
      streamPercentage := if totalNotes > 0 then (streamNotes as real / totalNotes as real) * 100.0 else 0.0;
    }
  }

  // ---------------------------------------------------------------------------------------

  /**
   * What `compute` knows after looking at the gaps before row `i`: the open streak is rows
   * `i - current .. i - 1` (none when `current` is 0) and the gap before it is not close,
   * `notes` counts the streak rows before it, `longest` is the longest closed streak, which
   * rows `witnessA .. witnessB` exhibit, and no window of close gaps ending before row `i`
   * is longer than both.
   */
  ghost predicate Scanned(ts: seq<real>, threshold: real, i: nat, notes: nat, longest: nat, current: nat,
                          witnessA: int, witnessB: int) {
    && 1 <= i <= |ts|
    && (current == 0 || current >= 2)
    && (current > 0 ==>
          current <= i && AllClose(ts, i - current, i - 1, threshold) && !Close(ts, i - current - 1, threshold))
    && (current == 0 ==> !Close(ts, i - 2, threshold))
    && notes + current == StreamRows(ts, threshold, i - 1) + (if current > 0 then 1 else 0)
    && (forall a, b :: AllClose(ts, a, b, threshold) && b < i ==> b - a + 1 <= Max(longest, current))
    && (longest > 0 ==>
          witnessB < i && AllClose(ts, witnessA, witnessB, threshold) && witnessB - witnessA + 1 == longest)
  }

  /** A close gap before row `i` opens a streak of two rows or extends the open one by a row. */
  lemma ScanClose(ts: seq<real>, threshold: real, i: nat, notes: nat, longest: nat, current: nat,
                  witnessA: int, witnessB: int)
    requires i < |ts| && Close(ts, i - 1, threshold)
    requires Scanned(ts, threshold, i, notes, longest, current, witnessA, witnessB)
    ensures Scanned(ts, threshold, i + 1, notes, longest, if current == 0 then 2 else current + 1, witnessA, witnessB)
  {
    var next := if current == 0 then 2 else current + 1;
    assert InStream(ts, i - 1, threshold);
    forall a, b | AllClose(ts, a, b, threshold) && b < i + 1
      ensures b - a + 1 <= Max(longest, next)
    {
      if b == i {
        assert a >= i - (if current == 0 then 1 else current);
      }
    }
  }

  /** A gap that is not close before row `i` closes the open streak. */
  lemma ScanApart(ts: seq<real>, threshold: real, i: nat, notes: nat, longest: nat, current: nat,
                  witnessA: int, witnessB: int)
    requires i < |ts| && !Close(ts, i - 1, threshold)
    requires Scanned(ts, threshold, i, notes, longest, current, witnessA, witnessB)
    ensures var (a, b) := if longest < current then (i - current, i - 1) else (witnessA, witnessB);
            Scanned(ts, threshold, i + 1, notes + current, Max(longest, current), 0, a, b)
  {
    if current > 0 {
      assert Close(ts, i - 2, threshold);
    }
    forall a, b ensures !(AllClose(ts, a, b, threshold) && b == i) {
      assert !Close(ts, i - 1, threshold);
    }
  }

  /** After the last row the open streak closes: the counts are the chart's. */
  lemma ScanFinished(ts: seq<real>, threshold: real, notes: nat, longest: nat, current: nat,
                     witnessA: int, witnessB: int)
    requires Scanned(ts, threshold, |ts|, notes, longest, current, witnessA, witnessB)
    ensures notes + current == StreamNotes(ts, threshold)
    ensures var (a, b) := if longest < current then (|ts| - current, |ts| - 1) else (witnessA, witnessB);
            Max(longest, current) > 0 ==> AllClose(ts, a, b, threshold) && b - a + 1 == Max(longest, current)
    ensures IsMaxStreamLength(ts, threshold, Max(longest, current))
  {
    if current > 0 {
      assert Close(ts, |ts| - 2, threshold);
    }
    var m := Max(longest, current);
    if m > 0 {
      var (a, b) := if longest < current then (|ts| - current, |ts| - 1) else (witnessA, witnessB);
      assert AllClose(ts, a, b, threshold) && b - a + 1 == m;
    }
  }

  /** Counting streak rows never loses any: the count over more rows is at least as large. */
  lemma {:induction false} StreamRowsMonotone(ts: seq<real>, threshold: real, j: nat, k: nat)
    requires j <= k <= |ts|
    ensures StreamRows(ts, threshold, j) <= StreamRows(ts, threshold, k)
  {
    if j < k {
      StreamRowsMonotone(ts, threshold, j, k - 1);
    }
  }

  /** Every row of a window joined by close gaps is a streak row. */
  lemma {:induction false} WindowRowsCounted(ts: seq<real>, threshold: real, a: nat, b: nat)
    requires AllClose(ts, a, b, threshold)
    ensures StreamRows(ts, threshold, b + 1) >= StreamRows(ts, threshold, a) + (b - a + 1)
  {
    assert Close(ts, b - 1, threshold);
    if b - 1 > a {
      WindowRowsCounted(ts, threshold, a, b - 1);
    } else {
      assert Close(ts, a, threshold);
    }
  }

  /** The longest streak is no longer than the number of streak rows, which is at most the row count. */
  lemma MaxStreamWithinStreamNotes(ts: seq<real>, threshold: real, m: nat)
    requires IsMaxStreamLength(ts, threshold, m)
    ensures m == 0 || m >= 2
    ensures m <= StreamNotes(ts, threshold) <= |ts|
  {
    if m > 0 {
      var a, b :| AllClose(ts, a, b, threshold) && b - a + 1 == m;
      WindowRowsCounted(ts, threshold, a, b);
      StreamRowsMonotone(ts, threshold, b + 1, |ts|);
    }
  }

  /** `stream_percentage` lies between 0 and 100. */
  lemma StreamPercentageRange(ts: seq<real>, threshold: real)
    ensures 0.0 <= StreamPercentage(ts, threshold) <= 100.0
  {
    if |ts| >= 2 {
      var notes := StreamNotes(ts, threshold) as real;
      var n := |ts| as real;
      assert notes <= n;
      assert notes / n <= 1.0;
    }
  }

  /** With every gap close, every row is in the one streak: the longest streak is the whole chart. */
  lemma {:induction false} AllGapsClose(ts: seq<real>, threshold: real, m: nat)
    requires |ts| >= 2
    requires forall i :: 0 <= i < |ts| - 1 ==> ts[i + 1] - ts[i] <= threshold
    requires IsMaxStreamLength(ts, threshold, m)
    ensures StreamNotes(ts, threshold) == |ts| && StreamPercentage(ts, threshold) == 100.0
    ensures m == |ts|
  {
    var n := |ts|;
    forall k | 0 <= k < n - 1 ensures Close(ts, k, threshold) {
      assert ts[k + 1] - ts[k] <= threshold;
    }
    assert AllClose(ts, 0, n - 1, threshold);
    WindowRowsCounted(ts, threshold, 0, n - 1);
    assert StreamNotes(ts, threshold) == n;
    assert n as real / n as real == 1.0;
    assert n <= m;
    MaxStreamWithinStreamNotes(ts, threshold, m);
  }

  /** With no gap close, nothing is a stream. */
  lemma {:induction false} NoGapClose(ts: seq<real>, threshold: real, m: nat)
    requires forall i :: 0 <= i < |ts| - 1 ==> ts[i + 1] - ts[i] > threshold
    requires IsMaxStreamLength(ts, threshold, m)
    ensures StreamNotes(ts, threshold) == 0 && StreamPercentage(ts, threshold) == 0.0
    ensures m == 0
  {
    NoStreamRows(ts, threshold, |ts|);
    forall a, b ensures !AllClose(ts, a, b, threshold) {
      assert !Close(ts, a, threshold);
    }
  }

  lemma {:induction false} NoStreamRows(ts: seq<real>, threshold: real, k: nat)
    requires k <= |ts|
    requires forall i :: 0 <= i < |ts| - 1 ==> ts[i + 1] - ts[i] > threshold
    ensures StreamRows(ts, threshold, k) == 0
  {
    if k > 0 {
      NoStreamRows(ts, threshold, k - 1);
    }
  }

  /** Fewer than two rows: both features are 0. */
  lemma FewRows(ts: seq<real>, threshold: real, m: nat)
    requires |ts| < 2
    requires IsMaxStreamLength(ts, threshold, m)
    ensures StreamPercentage(ts, threshold) == 0.0 && m == 0
  {
  }

  /**
   * Rows at 1.00, 1.05, 2.00, 2.05 and 2.10 with threshold 0.25: streaks of two and three rows,
   * so all five rows are stream rows and the longest streak has three.
   */
  lemma TwoStreaksExample(m: nat)
    requires IsMaxStreamLength([1.00, 1.05, 2.00, 2.05, 2.10], 0.25, m)
    ensures StreamNotes([1.00, 1.05, 2.00, 2.05, 2.10], 0.25) == 5
    ensures StreamPercentage([1.00, 1.05, 2.00, 2.05, 2.10], 0.25) == 100.0
    ensures m == 3
  {
    var ts := [1.00, 1.05, 2.00, 2.05, 2.10];
    assert Close(ts, 0, 0.25) && !Close(ts, 1, 0.25) && Close(ts, 2, 0.25) && Close(ts, 3, 0.25);
    assert AllClose(ts, 2, 4, 0.25);
    forall a, b | AllClose(ts, a, b, 0.25) ensures b - a + 1 <= 3 {
      assert !Close(ts, 1, 0.25);
    }
  }
}
