/**
 * `SMChartPreprocessor.preprocess` of stepmania_difficulty_predictor/data/SMChartPreprocessor.py:
 * turns the charts of a parsed simfile into `{name, difficulty, meter, chart}` records, where
 * `chart` maps each rounded tap time to a four-character row string such as "0100".
 *
 * The simfile parser, the note iteration of the `simfile` library and its beat-to-time engine
 * are outside the model: a simfile arrives as values, the engine's `time_at` is the parameter
 * `timeAt` (None when it raises ValueError or KeyError), and `np.round(time, decimals)` is the
 * parameter `quantize`.
 */
module ChartPreprocessor {
  import opened Wrappers
  import opened Text
  import opened Charts

  /** The kinds of note the parser reports; only taps are used. */
  datatype NoteType = Tap | Mine | OtherNote

  datatype Note = Note(beat: real, column: int, noteType: NoteType)

  /**
   * One chart of a simfile. `difficulty` and `meter` are None when the attribute is missing
   * (the meter also when it is None: both read as "no meter").
   */
  datatype SourceChart = SourceChart(
    stepstype: string,
    difficulty: Option<string>,
    meter: Option<string>,
    notes: seq<Note>)

  /**
   * A parsed simfile. `charts` is None when the attribute is missing or None; an entry of
   * `charts` is None when that chart is null or otherwise falsy.
   */
  datatype Simfile = Simfile(title: Option<string>, charts: Option<seq<Option<SourceChart>>>)

  /** A tap that survived filtering: its time in seconds and its column encoding. */
  datatype TimedNote = TimedNote(time: real, encoding: nat)

  /** One output record `{'name', 'difficulty', 'meter', 'chart'}`. */
  datatype Processed = Processed(name: string, difficulty: string, meter: int, chart: Chart)

  /** A row string as the preprocessor writes it: four characters, one '1', the rest '0'. */
  predicate IsSingleTapRow(v: string) {
    exists c :: 0 <= c < 4 && v == MarkedRow(c)
  }

  /** The four-character row in which only column `c` is marked. */
  function MarkedRow(c: nat): (v: string)
    requires c < 4
    ensures |v| == 4 && v[c] == '1'
    ensures forall j :: 0 <= j < 4 && j != c ==> v[j] == '0'
  {
    seq(4, j => if j == c then '1' else '0')
  }

  /** `str(encoding).zfill(4)` */
  function RowString(encoding: nat): (r: string)
    ensures |r| >= 4
  {
    ZFill(DecimalString(encoding), 4)
  }

  /** `str(e)` of the four encodings. */
  lemma DecimalStringsOfEncodings()
    ensures DecimalString(1) == "1" && DecimalString(10) == "10"
    ensures DecimalString(100) == "100" && DecimalString(1000) == "1000"
  {
    assert DigitChar(0) == '0' && DigitChar(1) == '1';
    assert DecimalString(1) == "1";
    assert DecimalString(10) == DecimalString(1) + "0";
    assert DecimalString(100) == DecimalString(10) + "0";
    assert DecimalString(1000) == DecimalString(100) + "0";
  }

  /** `zfill(4)` of the four encodings. */
  lemma PaddedEncodings()
    ensures ZFill("1000", 4) == "1000" && ZFill("100", 4) == "0100"
    ensures ZFill("10", 4) == "0010" && ZFill("1", 4) == "0001"
  {
    assert Zeros(1) == "0";
    assert Zeros(2) == Zeros(1) + "0";
    assert Zeros(3) == Zeros(2) + "0";
  }

  /** The rows marking one column, spelled out. */
  lemma MarkedRowsSpelled()
    ensures MarkedRow(0) == "1000" && MarkedRow(1) == "0100"
    ensures MarkedRow(2) == "0010" && MarkedRow(3) == "0001"
  {
  }

  /** The four row strings, as printed and padded. */
  lemma RowStringsOfEncodings()
    ensures RowString(1000) == "1000" == MarkedRow(0)
    ensures RowString(100) == "0100" == MarkedRow(1)
    ensures RowString(10) == "0010" == MarkedRow(2)
    ensures RowString(1) == "0001" == MarkedRow(3)
  {
    DecimalStringsOfEncodings();
    PaddedEncodings();
    MarkedRowsSpelled();
  }

  /**
   * `_encode_note`: columns 0..3 (Left, Down, Up, Right) get 1000, 100, 10 and 1, every other
   * column 0.  The printed, zero-padded encoding of a valid column is the row that marks
   * exactly that column.
   */
  function EncodeNote(column: int): (e: nat)
    ensures e == 0 <==> !(0 <= column < 4)
    ensures 0 <= column < 4 ==> RowString(e) == MarkedRow(column)
  {
    RowStringsOfEncodings();
    if column == 0 then 1000
    else if column == 1 then 100
    else if column == 2 then 10
    else if column == 3 then 1
    else 0
  }

  /** The encodings `_encode_note` can return for a valid column. */
  predicate IsColumnEncoding(e: nat) {
    e == 1000 || e == 100 || e == 10 || e == 1
  }

  // ---------------------------------------------------------------------------------------
  // Per-note filtering: the inner loop of `preprocess`.

  /**
   * What one note contributes to `timed_notes`: nothing unless it is a tap; nothing when
   * `time_at` raises (the `except` skips that note alone); nothing when its column encodes to 0.
   */
  function NoteEntry(note: Note, timeAt: real -> Option<real>): (r: seq<TimedNote>)
    ensures |r| <= 1
    ensures r != [] <==> note.noteType == Tap && timeAt(note.beat).Some? && 0 <= note.column < 4
    ensures r != [] ==> r[0] == TimedNote(timeAt(note.beat).value, EncodeNote(note.column))
  {
    if note.noteType != Tap then []
    else
      match timeAt(note.beat)
      case None => []
      case Some(time) =>
        var encoding := EncodeNote(note.column);
        if encoding != 0 then [TimedNote(time, encoding)] else []
  }

  /** `timed_notes` after the inner loop has seen `notes`. */
  function TimedNotes(notes: seq<Note>, timeAt: real -> Option<real>): (r: seq<TimedNote>)
    ensures |r| <= |notes|
    ensures forall k :: 0 <= k < |r| ==> IsColumnEncoding(r[k].encoding)
  {
    if notes == [] then []
    else TimedNotes(notes[..|notes| - 1], timeAt) + NoteEntry(notes[|notes| - 1], timeAt)
  }

  /** Filtering works note by note: the notes of a concatenation are filtered independently. */
  lemma {:induction false} TimedNotesAppend(a: seq<Note>, b: seq<Note>, timeAt: real -> Option<real>)
    ensures TimedNotes(a + b, timeAt) == TimedNotes(a, timeAt) + TimedNotes(b, timeAt)
  {
    if b == [] {
      assert a + b == a;
    } else {
      assert (a + b)[..|a + b| - 1] == a + b[..|b| - 1];
      assert (a + b)[|a + b| - 1] == b[|b| - 1];
      TimedNotesAppend(a, b[..|b| - 1], timeAt);
    }
  }

  /**
   * A note that is not a tap, whose time lookup fails, or whose column is not 0..3 is dropped
   * on its own: the other notes give exactly what they would give without it.
   */
  lemma {:induction false} DroppedNoteSkippedAlone(notes: seq<Note>, i: nat, timeAt: real -> Option<real>)
    requires i < |notes|
    requires notes[i].noteType != Tap || timeAt(notes[i].beat).None? || !(0 <= notes[i].column < 4)
    ensures TimedNotes(notes, timeAt) == TimedNotes(notes[..i] + notes[i + 1..], timeAt)
  {
    var before, dropped, after := notes[..i], [notes[i]], notes[i + 1..];
    assert NoteEntry(notes[i], timeAt) == [];
    assert dropped[..0] == [];
    assert TimedNotes(dropped, timeAt) == [];
    var upTo := before + dropped;
    assert notes == upTo + after;
    TimedNotesAppend(upTo, after, timeAt);
    TimedNotesAppend(before, dropped, timeAt);
    assert TimedNotes(upTo, timeAt) == TimedNotes(before, timeAt);
    TimedNotesAppend(before, after, timeAt);
  }

  // ---------------------------------------------------------------------------------------
  // The chart dict comprehension.

  /** `{np.round(time, decimals): str(encoding).zfill(4) for time, encoding in timed_notes}` */
  function BuildChart(timed: seq<TimedNote>, quantize: real -> real): (c: Chart)
    ensures c.WellFormed()
    ensures |c.order| == 0 <==> |timed| == 0
  {
    if timed == [] then Empty
    else
      var last := timed[|timed| - 1];
      BuildChart(timed[..|timed| - 1], quantize).Set(quantize(last.time), RowString(last.encoding))
  }

  /** `np.round(time, decimals)` of every timed note, in order. */
  function RoundedTimes(timed: seq<TimedNote>, quantize: real -> real): (ts: seq<real>)
    ensures |ts| == |timed| && forall i :: 0 <= i < |timed| ==> ts[i] == quantize(timed[i].time)
  {
    seq(|timed|, i requires 0 <= i < |timed| => quantize(timed[i].time))
  }

  /** The keys of the chart are exactly the rounded times of the notes. */
  lemma {:induction false} BuildChartKeys(timed: seq<TimedNote>, quantize: real -> real)
    ensures forall k :: k in BuildChart(timed, quantize).rows <==> k in RoundedTimes(timed, quantize)
  {
    if timed != [] {
      var init, last := timed[..|timed| - 1], timed[|timed| - 1];
      BuildChartKeys(init, quantize);
      assert RoundedTimes(timed, quantize) == RoundedTimes(init, quantize) + [quantize(last.time)];
    }
  }

  /**
   * Last write wins: a key holds the row of the LAST note rounding to it, so taps that round to
   * the same time are not merged into one row.
   */
  lemma {:induction false} BuildChartLastWins(timed: seq<TimedNote>, quantize: real -> real, i: nat)
    requires i < |timed|
    requires forall j :: i < j < |timed| ==> quantize(timed[j].time) != quantize(timed[i].time)
    ensures quantize(timed[i].time) in BuildChart(timed, quantize).rows
    ensures BuildChart(timed, quantize).rows[quantize(timed[i].time)] == RowString(timed[i].encoding)
  {
    if i < |timed| - 1 {
      var init := timed[..|timed| - 1];
      assert init[i] == timed[i];
      assert forall j :: i < j < |init| ==> init[j] == timed[j];
      BuildChartLastWins(init, quantize, i);
    }
  }

  /** Every value of the chart is the row string of one of the notes. */
  lemma {:induction false} BuildChartValues(timed: seq<TimedNote>, quantize: real -> real, k: real)
    requires k in BuildChart(timed, quantize).rows
    ensures exists i :: 0 <= i < |timed| && BuildChart(timed, quantize).rows[k] == RowString(timed[i].encoding)
  {
    var init := timed[..|timed| - 1];
    var last := timed[|timed| - 1];
    if k != quantize(last.time) {
      BuildChartValues(init, quantize, k);
      var i :| 0 <= i < |init| && BuildChart(init, quantize).rows[k] == RowString(init[i].encoding);
      assert init[i] == timed[i];
    } else {
      assert BuildChart(timed, quantize).rows[k] == RowString(timed[|timed| - 1].encoding);
    }
  }

  // ---------------------------------------------------------------------------------------
  // Difficulty and meter labels.

  const DifficultyNames: map<string, string> :=
    map["1" := "Beginner", "2" := "Easy", "3" := "Medium", "4" := "Hard", "5" := "Challenge"]

  /**
   * A numeric difficulty becomes its name ('1'..'5'), any other number 'Unknown'; a label that is
   * not a digit string is kept as it is.  The result is never a digit string.
   */
  function NormaliseDifficulty(d: string): (r: string)
    ensures !IsDigits(d) ==> r == d
    ensures d in DifficultyNames ==> r == DifficultyNames[d]
    ensures IsDigits(d) && d !in DifficultyNames ==> r == "Unknown"
    ensures !IsDigits(r)
  {
    assert forall k :: k in DifficultyNames ==> IsDigits(k) by {
      assert IsDigit('1') && IsDigit('2') && IsDigit('3') && IsDigit('4') && IsDigit('5');
    }
    if IsDigits(d) then
      assert !IsDigit("Unknown"[0]) && !IsDigit("Beginner"[0]) && !IsDigit("Easy"[0]);
      assert !IsDigit("Medium"[0]) && !IsDigit("Hard"[0]) && !IsDigit("Challenge"[0]);
      if d in DifficultyNames then DifficultyNames[d] else "Unknown"
    else d
  }

  /** Normalising a label twice changes nothing more than normalising it once. */
  lemma NormaliseDifficultyIdempotent(d: string)
    ensures NormaliseDifficulty(NormaliseDifficulty(d)) == NormaliseDifficulty(d)
  {
  }

  /** Every other all-digit label, such as '0', '6' or '12', becomes 'Unknown'. */
  lemma DigitLabelsUnknown(d: string)
    requires IsDigits(d) && d !in {"1", "2", "3", "4", "5"}
    ensures NormaliseDifficulty(d) == "Unknown"
  {
  }

  /** The five numeric labels and what they become. */
  lemma DifficultyNamesByNumber()
    ensures NormaliseDifficulty("1") == "Beginner" && NormaliseDifficulty("2") == "Easy"
    ensures NormaliseDifficulty("3") == "Medium" && NormaliseDifficulty("4") == "Hard"
    ensures NormaliseDifficulty("5") == "Challenge"
    ensures NormaliseDifficulty("0") == "Unknown" && NormaliseDifficulty("12") == "Unknown"
  {
    assert IsDigit('0') && IsDigit('1') && IsDigit('2') && IsDigit('3') && IsDigit('4') && IsDigit('5');
    assert IsDigits("1") && IsDigits("2") && IsDigits("3") && IsDigits("4") && IsDigits("5");
    assert IsDigits("0") && IsDigits("12");
    assert "0" !in DifficultyNames && "12" !in DifficultyNames;
  }

  /** `meter`: the integer value of a digit string, otherwise 0; it never raises. */
  function ParseMeter(meter: Option<string>): (r: nat)
    ensures meter.Some? && IsDigits(meter.value) ==> r == DigitsValue(meter.value)
    ensures !(meter.Some? && IsDigits(meter.value)) ==> r == 0
  {
    if meter.Some? && |meter.value| > 0 && IsDigits(meter.value) then DigitsValue(meter.value) else 0
  }

  /** A meter printed as a decimal number reads back as that number. */
  lemma MeterRoundTrip(n: nat)
    ensures ParseMeter(Some(DecimalString(n))) == n
  {
  }

  // ---------------------------------------------------------------------------------------
  // The whole preprocessing, as a function, and the method that runs its loops.

  /**
   * The record a chart produces, or None when it is skipped: when it is null, is not
   * 'dance-single', or has no surviving tap.
   */
  function ProcessChart(title: Option<string>, entry: Option<SourceChart>,
                        timeAt: real -> Option<real>, quantize: real -> real): (r: Option<Processed>)
    ensures r.Some? <==>
              entry.Some? && entry.value.stepstype == "dance-single" && TimedNotes(entry.value.notes, timeAt) != []
    ensures r.Some? ==> r.value.chart.WellFormed() && r.value.chart.order != []
  {
    if entry.None? || entry.value.stepstype != "dance-single" then None
    else
      var chart := entry.value;
      var timed := TimedNotes(chart.notes, timeAt);
      if timed == [] then None
      else
        Some(Processed(
          title.GetOr("Unknown"),
          NormaliseDifficulty(chart.difficulty.GetOr("Unknown")),
          ParseMeter(chart.meter),
          BuildChart(timed, quantize)))
  }

  /** The records of `charts`, in the order of the charts. */
  function ProcessCharts(title: Option<string>, charts: seq<Option<SourceChart>>,
                         timeAt: real -> Option<real>, quantize: real -> real): (r: seq<Processed>)
    ensures |r| <= |charts|
  {
    if charts == [] then []
    else
      var rest := ProcessCharts(title, charts[..|charts| - 1], timeAt, quantize);
      match ProcessChart(title, charts[|charts| - 1], timeAt, quantize)
      case None => rest
      case Some(p) => rest + [p]
  }

  /** What `preprocess` returns for `sm`. */
  function Preprocessed(sm: Simfile, timeAt: real -> Option<real>, quantize: real -> real): seq<Processed> {
    if sm.charts.None? || sm.charts.value == [] then []
    else ProcessCharts(sm.title, sm.charts.value, timeAt, quantize)
  }

  /** The inner loop of `preprocess`: the surviving taps of one chart, with their times. */
  method CollectTimedNotes(notes: seq<Note>, timeAt: real -> Option<real>) returns (timedNotes: seq<TimedNote>)
    ensures timedNotes == TimedNotes(notes, timeAt)
  {
    timedNotes := [];
    for j := 0 to |notes|
      invariant timedNotes == TimedNotes(notes[..j], timeAt)
    {
      assert notes[..j + 1][..j] == notes[..j];
      var note := notes[j];
      assert TimedNotes(notes[..j + 1], timeAt) == timedNotes + NoteEntry(note, timeAt);
      if note.noteType == Tap {
        var time := timeAt(note.beat);
        if time.Some? {
          var encoding := EncodeNote(note.column);
          if encoding != 0 {
            timedNotes := timedNotes + [TimedNote(time.value, encoding)];
          }
        }
      }
    }
    assert notes[..|notes|] == notes;
  }

  /** The body of the outer loop of `preprocess`: the record one chart entry produces, if any. */
  method ProcessEntry(title: Option<string>, entry: Option<SourceChart>,
                      timeAt: real -> Option<real>, quantize: real -> real) returns (record: Option<Processed>)
    ensures record == ProcessChart(title, entry, timeAt, quantize)
  {
    record := None;
    if entry.Some? && entry.value.stepstype == "dance-single" {
      var chart := entry.value;
      var timedNotes := CollectTimedNotes(chart.notes, timeAt);
      if timedNotes != [] {
        var chartDict := BuildChart(timedNotes, quantize);
        var difficulty := NormaliseDifficulty(chart.difficulty.GetOr("Unknown"));
        var meter := ParseMeter(chart.meter);
        record := Some(Processed(title.GetOr("Unknown"), difficulty, meter, chartDict));
      }
    }
  }

  /** One more chart adds its record, if any, at the end. */
  lemma ProcessChartsStep(title: Option<string>, charts: seq<Option<SourceChart>>, i: nat,
                          timeAt: real -> Option<real>, quantize: real -> real)
    requires i < |charts|
    ensures var out := ProcessChart(title, charts[i], timeAt, quantize);
            ProcessCharts(title, charts[..i + 1], timeAt, quantize) ==
            ProcessCharts(title, charts[..i], timeAt, quantize) + (if out.Some? then [out.value] else [])
  {
    var prefix := charts[..i + 1];
    assert prefix[..i] == charts[..i];
    assert prefix[i] == charts[i];
  }

  /** `SMChartPreprocessor.preprocess` */
  method Preprocess(sm: Simfile, timeAt: real -> Option<real>, quantize: real -> real)
    returns (preprocessedCharts: seq<Processed>)
    ensures sm.charts.None? || sm.charts == Some([]) ==> preprocessedCharts == []
    ensures preprocessedCharts == Preprocessed(sm, timeAt, quantize)
  {
    preprocessedCharts := [];
    if sm.charts.None? || |sm.charts.value| == 0 {
      return;
    }
    var charts := sm.charts.value;
    for i := 0 to |charts|
      invariant preprocessedCharts == ProcessCharts(sm.title, charts[..i], timeAt, quantize)
    {
      ProcessChartsStep(sm.title, charts, i, timeAt, quantize);
      var record := ProcessEntry(sm.title, charts[i], timeAt, quantize);
      if record.Some? {
        preprocessedCharts := preprocessedCharts + [record.value];
      }
    }
    assert charts[..|charts|] == charts;
  }

  // ---------------------------------------------------------------------------------------
  // What the output is.

  /** Charts are processed one by one and in order: the output of a concatenation is the concatenation of outputs. */
  lemma {:induction false} ProcessChartsAppend(title: Option<string>, a: seq<Option<SourceChart>>, b: seq<Option<SourceChart>>,
                                               timeAt: real -> Option<real>, quantize: real -> real)
    ensures ProcessCharts(title, a + b, timeAt, quantize)
            == ProcessCharts(title, a, timeAt, quantize) + ProcessCharts(title, b, timeAt, quantize)
  {
    if b == [] {
      assert a + b == a;
    } else {
      var init := b[..|b| - 1];
      assert (a + b)[..|a + b| - 1] == a + init;
      assert (a + b)[|a + b| - 1] == b[|b| - 1];
      ProcessChartsAppend(title, a, init, timeAt, quantize);
      var out := ProcessChart(title, b[|b| - 1], timeAt, quantize);
      var added := if out.Some? then [out.value] else [];
      assert ProcessCharts(title, a + b, timeAt, quantize) == ProcessCharts(title, a + init, timeAt, quantize) + added;
      assert ProcessCharts(title, b, timeAt, quantize) == ProcessCharts(title, init, timeAt, quantize) + added;
    }
  }

  /** A record is in the output exactly when some chart produces it. */
  lemma ProcessChartsMembers(title: Option<string>, charts: seq<Option<SourceChart>>,
                             timeAt: real -> Option<real>, quantize: real -> real, p: Processed)
    ensures p in ProcessCharts(title, charts, timeAt, quantize) <==>
              exists i :: 0 <= i < |charts| && ProcessChart(title, charts[i], timeAt, quantize) == Some(p)
  {
    if p in ProcessCharts(title, charts, timeAt, quantize) {
      var i := ProducedBy(title, charts, timeAt, quantize, p);
    }
    forall i | 0 <= i < |charts| && ProcessChart(title, charts[i], timeAt, quantize) == Some(p)
      ensures p in ProcessCharts(title, charts, timeAt, quantize)
    {
      Produces(title, charts, timeAt, quantize, i);
    }
  }

  /** The chart that produced a record of the output. */
  lemma {:induction false} ProducedBy(title: Option<string>, charts: seq<Option<SourceChart>>,
                                      timeAt: real -> Option<real>, quantize: real -> real, p: Processed)
    returns (i: nat)
    requires p in ProcessCharts(title, charts, timeAt, quantize)
    ensures i < |charts| && ProcessChart(title, charts[i], timeAt, quantize) == Some(p)
  {
    var init := charts[..|charts| - 1];
    var rest, out := ProcessCharts(title, init, timeAt, quantize), ProcessChart(title, charts[|charts| - 1], timeAt, quantize);
    var added := if out.Some? then [out.value] else [];
    assert ProcessCharts(title, charts, timeAt, quantize) == rest + added;
    assert p in rest || p in added;
    if p in rest {
      i := ProducedBy(title, init, timeAt, quantize, p);
      assert charts[i] == init[i];
    } else {
      assert out.Some? && p == out.value;
      i := |charts| - 1;
    }
  }

  /** The record a chart produces is in the output. */
  lemma {:induction false} Produces(title: Option<string>, charts: seq<Option<SourceChart>>,
                                    timeAt: real -> Option<real>, quantize: real -> real, i: nat)
    requires i < |charts| && ProcessChart(title, charts[i], timeAt, quantize).Some?
    ensures ProcessChart(title, charts[i], timeAt, quantize).value in ProcessCharts(title, charts, timeAt, quantize)
  {
    var init := charts[..|charts| - 1];
    var rest, out := ProcessCharts(title, init, timeAt, quantize), ProcessChart(title, charts[|charts| - 1], timeAt, quantize);
    assert ProcessCharts(title, charts, timeAt, quantize) == rest + (if out.Some? then [out.value] else []);
    var record := ProcessChart(title, charts[i], timeAt, quantize).value;
    if i < |init| {
      assert charts[i] == init[i];
      Produces(title, init, timeAt, quantize, i);
      assert record in rest;
    } else {
      assert i == |charts| - 1;
      assert charts[i] == charts[|charts| - 1];
    }
  }

  /** Built from column encodings, every value of the chart is a four-character row with a single '1'. */
  lemma BuildChartRows(timed: seq<TimedNote>, quantize: real -> real)
    requires forall i :: 0 <= i < |timed| ==> IsColumnEncoding(timed[i].encoding)
    ensures forall k :: k in BuildChart(timed, quantize).rows ==> IsSingleTapRow(BuildChart(timed, quantize).rows[k])
  {
    var chart := BuildChart(timed, quantize);
    RowStringsOfEncodings();
    forall k | k in chart.rows ensures IsSingleTapRow(chart.rows[k]) {
      BuildChartValues(timed, quantize, k);
      var i :| 0 <= i < |timed| && chart.rows[k] == RowString(timed[i].encoding);
      var e := timed[i].encoding;
      if e == 1000 { assert chart.rows[k] == MarkedRow(0); }
      else if e == 100 { assert chart.rows[k] == MarkedRow(1); }
      else if e == 10 { assert chart.rows[k] == MarkedRow(2); }
      else { assert chart.rows[k] == MarkedRow(3); }
    }
  }

  /**
   * Every record holds a non-empty, well-formed chart whose keys are the rounded times of the
   * chart's surviving taps and whose every value is a four-character row with a single '1'.
   */
  lemma ProcessedChartShape(title: Option<string>, entry: Option<SourceChart>,
                            timeAt: real -> Option<real>, quantize: real -> real)
    requires ProcessChart(title, entry, timeAt, quantize).Some?
    ensures var chart := ProcessChart(title, entry, timeAt, quantize).value.chart;
            var timed := TimedNotes(entry.value.notes, timeAt);
            && chart == BuildChart(timed, quantize)
            && chart.WellFormed() && chart.order != []
            && (forall k :: k in chart.rows <==> k in RoundedTimes(timed, quantize))
            && (forall k :: k in chart.rows ==> IsSingleTapRow(chart.rows[k]))
  {
    var timed := TimedNotes(entry.value.notes, timeAt);
    BuildChartKeys(timed, quantize);
    BuildChartRows(timed, quantize);
  }

  /** Two taps rounding to the same time in different columns leave only the later one's row. */
  lemma ChordsNotMerged(t: real, quantize: real -> real)
    ensures BuildChart([TimedNote(t, EncodeNote(0)), TimedNote(t, EncodeNote(3))], quantize).rows
            == map[quantize(t) := "0001"]
  {
    RowStringsOfEncodings();
    assert EncodeNote(0) == 1000 && EncodeNote(3) == 1;
    var q := quantize(t);
    var timed := [TimedNote(t, 1000), TimedNote(t, 1)];
    var one := [TimedNote(t, 1000)];
    assert timed[..1] == one && one[..0] == [];
    var first := BuildChart(one, quantize);
    assert first.rows == map[q := "1000"] by {
      assert BuildChart(one[..0], quantize) == Empty;
      assert first == Empty.Set(q, RowString(1000));
    }
    assert BuildChart(timed, quantize).rows == first.rows[q := RowString(1)] by {
      assert BuildChart(timed, quantize) == first.Set(q, RowString(1));
    }
    assert map[q := "1000"][q := "0001"] == map[q := "0001"];
  }
}
