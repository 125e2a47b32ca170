/**
 * The older `SMChartPreprocessor.preprocess` of src/data/SMChartPreprocessor.py.  It encodes
 * columns, builds the chart dict and names difficulties exactly as the newer one does (the same
 * functions model both), but it recovers from nothing: a failing `time_at`, a null chart, a
 * missing attribute or a meter that `int()` rejects raises out of `preprocess`.  Those are the
 * preconditions here.  Its `mappings` table (with a Mine entry) is never read.
 */
module LegacyChartPreprocessor {
  import opened Wrappers
  import opened Text
  import opened Charts
  import opened ChartPreprocessor

  /** `time_at` is defined at the beat of every tap of `notes`. */
  ghost predicate TapsTimed(notes: seq<Note>, timeAt: real -> Option<real>) {
    forall i :: 0 <= i < |notes| && notes[i].noteType == Tap ==> timeAt(notes[i].beat).Some?
  }

  /** What one note contributes to `timed_notes` when nothing raises. */
  function LegacyNoteEntry(note: Note, timeAt: real -> Option<real>): (r: seq<TimedNote>)
    requires note.noteType == Tap ==> timeAt(note.beat).Some?
    ensures |r| <= 1
    ensures r != [] <==> note.noteType == Tap && 0 <= note.column < 4
    ensures r != [] ==> r[0] == TimedNote(timeAt(note.beat).value, EncodeNote(note.column))
  {
    if note.noteType == Tap then
      var time := timeAt(note.beat).value;
      var encoding := EncodeNote(note.column);
      if encoding != 0 then [TimedNote(time, encoding)] else []
    else []
  }

  /** `timed_notes` after the inner loop has seen `notes`. */
  function LegacyTimedNotes(notes: seq<Note>, timeAt: real -> Option<real>): (r: seq<TimedNote>)
    requires TapsTimed(notes, timeAt)
    ensures |r| <= |notes|
  {
    if notes == [] then []
    else LegacyTimedNotes(notes[..|notes| - 1], timeAt) + LegacyNoteEntry(notes[|notes| - 1], timeAt)
  }

  /**
   * Everything the older `preprocess` needs in order not to raise: a chart list, no null chart,
   * a time for every tap of a 'dance-single' chart and, for such a chart with a surviving tap,
   * a difficulty and a meter that `int()` accepts.
   */
  ghost predicate Runs(sm: Simfile, timeAt: real -> Option<real>) {
    && sm.charts.Some?
    && forall i :: 0 <= i < |sm.charts.value| ==> ChartRuns(sm.charts.value[i], timeAt)
  }

  ghost predicate ChartRuns(entry: Option<SourceChart>, timeAt: real -> Option<real>) {
    && entry.Some?
    && (entry.value.stepstype == "dance-single" ==>
          && TapsTimed(entry.value.notes, timeAt)
          && (LegacyTimedNotes(entry.value.notes, timeAt) != [] ==>
                && entry.value.difficulty.Some?
                && entry.value.meter.Some? && ParseInt(entry.value.meter.value).Some?))
  }

  /** The record a chart produces, or None when it is not 'dance-single' or has no surviving tap. */
  function LegacyProcessChart(title: Option<string>, entry: Option<SourceChart>,
                              timeAt: real -> Option<real>, quantize: real -> real): (r: Option<Processed>)
    requires ChartRuns(entry, timeAt)
    ensures r.Some? <==>
              entry.value.stepstype == "dance-single" && LegacyTimedNotes(entry.value.notes, timeAt) != []
  {
    var chart := entry.value;
    if chart.stepstype != "dance-single" then None
    else
      var timed := LegacyTimedNotes(chart.notes, timeAt);
      if timed == [] then None
      else
        Some(Processed(
          title.GetOr("Unknown"),
          NormaliseDifficulty(chart.difficulty.value),
          ParseInt(chart.meter.value).value,
          BuildChart(timed, quantize)))
  }

  function LegacyProcessCharts(title: Option<string>, charts: seq<Option<SourceChart>>,
                               timeAt: real -> Option<real>, quantize: real -> real): (r: seq<Processed>)
    requires forall i :: 0 <= i < |charts| ==> ChartRuns(charts[i], timeAt)
    ensures |r| <= |charts|
  {
    if charts == [] then []
    else
      var rest := LegacyProcessCharts(title, charts[..|charts| - 1], timeAt, quantize);
      match LegacyProcessChart(title, charts[|charts| - 1], timeAt, quantize)
      case None => rest
      case Some(p) => rest + [p]
  }

  /** What the older `preprocess` returns for `sm`. */
  function LegacyPreprocessed(sm: Simfile, timeAt: real -> Option<real>, quantize: real -> real): seq<Processed>
    requires Runs(sm, timeAt)
  {
    LegacyProcessCharts(sm.title, sm.charts.value, timeAt, quantize)
  }

  /** The inner loop: every tap is timed (a failure would raise), non-columns are dropped. */
  method LegacyCollectTimedNotes(notes: seq<Note>, timeAt: real -> Option<real>) returns (timedNotes: seq<TimedNote>)
    requires TapsTimed(notes, timeAt)
    ensures timedNotes == LegacyTimedNotes(notes, timeAt)
  {
    timedNotes := [];
    for j := 0 to |notes|
      invariant TapsTimed(notes[..j], timeAt)
      invariant timedNotes == LegacyTimedNotes(notes[..j], timeAt)
    {
      assert notes[..j + 1][..j] == notes[..j];
      var note := notes[j];
      assert TapsTimed(notes[..j + 1], timeAt);
      assert LegacyTimedNotes(notes[..j + 1], timeAt) == timedNotes + LegacyNoteEntry(note, timeAt);
      if note.noteType == Tap {
        var time := timeAt(note.beat).value;
        var encoding := EncodeNote(note.column);
        if encoding != 0 {
          timedNotes := timedNotes + [TimedNote(time, encoding)];
        }
      }
    }
    assert notes[..|notes|] == notes;
  }

  /** The older `SMChartPreprocessor.preprocess` */
  method LegacyPreprocess(sm: Simfile, timeAt: real -> Option<real>, quantize: real -> real)
    returns (preprocessedCharts: seq<Processed>)
    requires Runs(sm, timeAt)
    ensures preprocessedCharts == LegacyPreprocessed(sm, timeAt, quantize)
  {
    preprocessedCharts := [];
    var charts := sm.charts.value;
    for i := 0 to |charts|
      invariant preprocessedCharts == LegacyProcessCharts(sm.title, charts[..i], timeAt, quantize)
    {
      assert charts[..i + 1][..i] == charts[..i];
      var chart := charts[i].value;
      if chart.stepstype == "dance-single" {
        var timedNotes := LegacyCollectTimedNotes(chart.notes, timeAt);
        if timedNotes != [] {
          var chartDict := BuildChart(timedNotes, quantize);
          var difficulty := NormaliseDifficulty(chart.difficulty.value);
          preprocessedCharts := preprocessedCharts +
            [Processed(sm.title.GetOr("Unknown"), difficulty, ParseInt(chart.meter.value).value, chartDict)];
        }
      }
    }
    assert charts[..|charts|] == charts;
  }

  // ---------------------------------------------------------------------------------------

  /**
   * Only taps are read: a chart without a single tap (all mines, holds or rolls) has no
   * surviving note, so mines never reach the output although `mappings` lists them.
   */
  lemma {:induction false} NoTapsNoNotes(notes: seq<Note>, timeAt: real -> Option<real>)
    requires forall i :: 0 <= i < |notes| ==> notes[i].noteType != Tap
    ensures TapsTimed(notes, timeAt)
    ensures LegacyTimedNotes(notes, timeAt) == []
  {
    if notes != [] {
      var init := notes[..|notes| - 1];
      assert forall i :: 0 <= i < |init| ==> init[i] == notes[i];
      NoTapsNoNotes(init, timeAt);
    }
  }

  // The older version asks the raw `TimingData` for each tap's time (`dataTimeAt`); the newer one
  // asks a `TimingEngine` built on that data (`engineTimeAt`).  The agreement lemmas assume only
  // that the engine gives every tap the time the raw data gives it.

  /** The timing engine gives every tap of `notes` the time the raw timing data gives it. */
  ghost predicate SameTapTimes(notes: seq<Note>, dataTimeAt: real -> Option<real>, engineTimeAt: real -> Option<real>) {
    forall i :: 0 <= i < |notes| && notes[i].noteType == Tap ==>
      engineTimeAt(notes[i].beat) == dataTimeAt(notes[i].beat)
  }

  ghost predicate ChartTimesAgree(entry: Option<SourceChart>, dataTimeAt: real -> Option<real>,
                                  engineTimeAt: real -> Option<real>) {
    entry.Some? ==> SameTapTimes(entry.value.notes, dataTimeAt, engineTimeAt)
  }

  /** When every tap is timed and both timings agree on the taps, the two versions keep the same notes. */
  lemma {:induction false} TimedNotesAgree(notes: seq<Note>, dataTimeAt: real -> Option<real>,
                                           engineTimeAt: real -> Option<real>)
    requires TapsTimed(notes, dataTimeAt)
    requires SameTapTimes(notes, dataTimeAt, engineTimeAt)
    ensures LegacyTimedNotes(notes, dataTimeAt) == TimedNotes(notes, engineTimeAt)
  {
    if notes != [] {
      var init := notes[..|notes| - 1];
      assert forall i :: 0 <= i < |init| ==> init[i] == notes[i];
      TimedNotesAgree(init, dataTimeAt, engineTimeAt);
      var last := notes[|notes| - 1];
      assert last.noteType == Tap ==> engineTimeAt(last.beat) == dataTimeAt(last.beat);
    }
  }

  /**
   * On every input it accepts, the older version produces the record the newer one produces,
   * except for the meter, which is `int(meter)` instead of "digits or 0".
   */
  lemma ProcessChartAgrees(title: Option<string>, entry: Option<SourceChart>,
                           dataTimeAt: real -> Option<real>, engineTimeAt: real -> Option<real>,
                           quantize: real -> real)
    requires ChartRuns(entry, dataTimeAt)
    requires ChartTimesAgree(entry, dataTimeAt, engineTimeAt)
    ensures var legacy := LegacyProcessChart(title, entry, dataTimeAt, quantize);
            var current := ProcessChart(title, entry, engineTimeAt, quantize);
            && (legacy.Some? <==> current.Some?)
            && (legacy.Some? ==>
                  && legacy.value == current.value.(meter := legacy.value.meter)
                  && Some(legacy.value.meter) == ParseInt(entry.value.meter.value))
  {
    if entry.value.stepstype == "dance-single" {
      TimedNotesAgree(entry.value.notes, dataTimeAt, engineTimeAt);
    }
  }

  predicate MeterIsDigits(entry: Option<SourceChart>) {
    entry.Some? && entry.value.meter.Some? ==> IsDigits(entry.value.meter.value)
  }

  /** Both versions agree on every chart list the older one accepts whose meters are digit strings. */
  lemma {:induction false} ProcessChartsAgree(title: Option<string>, charts: seq<Option<SourceChart>>,
                                              dataTimeAt: real -> Option<real>, engineTimeAt: real -> Option<real>,
                                              quantize: real -> real)
    requires forall i :: 0 <= i < |charts| ==> ChartRuns(charts[i], dataTimeAt)
    requires forall i :: 0 <= i < |charts| ==> ChartTimesAgree(charts[i], dataTimeAt, engineTimeAt)
    requires forall i :: 0 <= i < |charts| ==> MeterIsDigits(charts[i])
    ensures LegacyProcessCharts(title, charts, dataTimeAt, quantize) == ProcessCharts(title, charts, engineTimeAt, quantize)
  {
    if charts != [] {
      var init, last := charts[..|charts| - 1], charts[|charts| - 1];
      assert forall i :: 0 <= i < |init| ==> init[i] == charts[i];
      ProcessChartsAgree(title, init, dataTimeAt, engineTimeAt, quantize);
      ProcessChartAgrees(title, last, dataTimeAt, engineTimeAt, quantize);
    }
  }

  /** Both `preprocess` versions return the same list on every simfile the older one accepts whose meters are digit strings. */
  lemma PreprocessAgrees(sm: Simfile, dataTimeAt: real -> Option<real>, engineTimeAt: real -> Option<real>,
                         quantize: real -> real)
    requires Runs(sm, dataTimeAt)
    requires forall i :: 0 <= i < |sm.charts.value| ==> ChartTimesAgree(sm.charts.value[i], dataTimeAt, engineTimeAt)
    requires forall i :: 0 <= i < |sm.charts.value| ==> MeterIsDigits(sm.charts.value[i])
    ensures LegacyPreprocessed(sm, dataTimeAt, quantize) == Preprocessed(sm, engineTimeAt, quantize)
  {
    ProcessChartsAgree(sm.title, sm.charts.value, dataTimeAt, engineTimeAt, quantize);
  }
}
