# Chart features of the StepMania difficulty predictor, in Dafny

This project models the feature-extraction core of `ffr-difficulty-model`, a StepMania
difficulty predictor. The core has two layers:

- **Chart building:** `SMChartPreprocessor.preprocess` turns the `dance-single` charts of a
  parsed simfile into records `{name, difficulty, meter, chart}`. `chart` maps each rounded
  tap time to a four-character row string such as `"0100"`. The model covers two versions:
  - the current one in `stepmania_difficulty_predictor/data/SMChartPreprocessor.py`, which
    skips notes it cannot time or encode, and skips null and non-`dance-single` charts;
  - the older one in `src/data/SMChartPreprocessor.py`. It raises on a failing `time_at`, a
    missing chart list, a null chart, a `None` difficulty or a meter that `int()` rejects. It
    skips taps on columns outside 0..3 and charts that are not `dance-single`.
- **Three read-only extractors over such a chart:**
  - `StreamDetector`: runs of rows at most 0.25 s apart;
  - `PatternDetector`: jacks and crossovers on the four panels;
  - `VerticalDensity`: a weighted harmonic mean of the gaps between rows, per panel
    orientation.

## How the model is built

Each operation of the source is a Dafny method with the same loops, updating the same counters
and lists. Each method is proved equal to a recursive specification function. The properties
the source promises are then proved as lemmas about those functions.

**Chart dict.** The Python `dict` of a chart is `Charts.Chart`: the keys in insertion order
plus a `map` from time to row. The order matters because `VerticalDensity` reads the first value
of the dict. A dict comprehension is a left fold of `Chart.Set`, so the last write wins.

**Collaborators as parameters.** The simfile parser and its note iteration become values
(`Simfile`, `SourceChart`, `Note`). The other collaborators become function parameters:

- `timeAt: real -> Option<real>` stands for the timing call. `None` means the call raised.
  - In the current version this is `TimingEngine(timing_data).time_at`, which raises
    `ValueError` or `KeyError`.
  - In the older version it is `TimingData(sm_file).time_at`.
  
  The lemmas that compare the two versions take one function for each. They assume only that
  both give every tap the same time.
- `quantize: real -> real` stands for `np.round(time, decimals)`. `decimals` defaults to 3.

**Exact arithmetic.** Times are exact `real`s, and so are the thresholds 0.25, 0.1 and 1e-6.
`alpha` is a natural number, as the callers pass it (`alpha=3`).

**Behaviour of the code worth knowing:**

- **Same rounded time:** the chart dict is a comprehension over `timed_notes`
  (stepmania_difficulty_predictor/data/SMChartPreprocessor.py:55-58). A later tap at the same
  rounded time overwrites the row of the earlier one, so a jump of Left and Right leaves a
  single row with one '1' (`ChartPreprocessor.ChordsNotMerged`).
- **Crossovers:** a pair is a crossover when the row steps on Up or Right after a step on Left
  or Down, or the other way round
  (stepmania_difficulty_predictor/features/PatternDetector.py:50-53). No timing condition
  applies.
- **Density keys:** the keys are `col_<i>`, `left`, `right` and `all`. The names `L`, `D`,
  `U` and `R` that tests/test_features.py:35-38 expects are never produced
  (`DensityFeatures.OrientationKeys`).
- **Weights:** the `i`-th smallest surviving gap has weight `i^alpha`, starting at `i = 0`.
  With `alpha > 0` the smallest gap therefore has weight 0, although the class's docstring
  says smaller gaps get more weight. The density then lies between the second smallest and
  the largest gap (`DensityFeatures.DensityBounds`).

## Model

| member | source | states |
|---|---|---|
| Text.DecimalString | stepmania_difficulty_predictor/data/SMChartPreprocessor.py:56 | `str(n)` of a natural number: a non-empty digit string whose decimal value is `n`; it starts with '0' only for 0 |
| Text.DecimalStringInjective | stepmania_difficulty_predictor/data/SMChartPreprocessor.py:56 | `str(n)` is one-to-one: distinct numbers print differently |
| Text.IsDigits | stepmania_difficulty_predictor/data/SMChartPreprocessor.py:61 | reference definition of `str.isdigit` on ASCII: non-empty, and every character is one of 0-9 |
| Text.ZFill | stepmania_difficulty_predictor/data/SMChartPreprocessor.py:56 | `zfill(width)`: the original string when it is already `width` long, otherwise exactly `width` long; an unsigned string gets only zeros in front |
| Text.ParseInt | src/data/SMChartPreprocessor.py:69 | `int(s)`: a digit string gives its decimal value |
| Text.ParseIntStrips | src/data/SMChartPreprocessor.py:69 | `int(s)` first strips the surrounding whitespace and then reads the rest |
| Text.ParseIntSigned | src/data/SMChartPreprocessor.py:69 | `int('-' + t)` is minus the value of the digit string `t`, and `int('+' + t)` is its value |
| Text.ParseIntLeadingSpace | src/data/SMChartPreprocessor.py:69 | a whitespace character in front does not change `int(s)` |
| Text.ParseIntTrailingSpace | src/data/SMChartPreprocessor.py:69 | a whitespace character behind does not change `int(s)` |
| Text.ParseIntNeedsDigit | src/data/SMChartPreprocessor.py:69 | `int(s)` raises on a string without a digit, such as an empty or blank meter |
| Sorting.Sort | stepmania_difficulty_predictor/features/StreamDetector.py:26 | `sorted(...)`: ascending, and a permutation of the input |
| Sorting.SortDistinct | stepmania_difficulty_predictor/features/StreamDetector.py:26 | sorting distinct keys gives a strictly increasing sequence |
| Sorting.StrictlySortedUnique | stepmania_difficulty_predictor/features/StreamDetector.py:26 | two strictly increasing sequences with the same elements are equal |
| Sorting.Diffs | stepmania_difficulty_predictor/features/VerticalDensity.py:57 | `np.diff`: one element fewer, each the difference of neighbours, all positive for a strictly increasing input |
| Charts.Chart.Set | stepmania_difficulty_predictor/data/SMChartPreprocessor.py:55-58 | `d[k] = v`: the map gets `k := v`; a new key is appended to the insertion order, an existing key keeps its place; the chart stays well formed |
| Charts.SortedKeys | stepmania_difficulty_predictor/features/PatternDetector.py:27 | `sorted(chart.keys())`: strictly increasing, one entry per key, exactly the keys |
| Charts.SortedKeysDependOnKeysOnly | stepmania_difficulty_predictor/features/StreamDetector.py:26 | the sorted timestamps, and so every stream feature, depend on the key set only, not on row values or insertion order |
| ChartPreprocessor.EncodeNote | stepmania_difficulty_predictor/data/SMChartPreprocessor.py:83-89 | `_encode_note`: 0 exactly for columns outside 0..3; for a column c in 0..3 the padded string is the row marking only column c ("1000", "0100", "0010", "0001") |
| ChartPreprocessor.RowStringsOfEncodings | stepmania_difficulty_predictor/data/SMChartPreprocessor.py:56 | `str(e).zfill(4)` of 1000, 100, 10, 1 is "1000", "0100", "0010", "0001" |
| ChartPreprocessor.RowString | stepmania_difficulty_predictor/data/SMChartPreprocessor.py:56 | `str(encoding).zfill(4)`: at least four characters |
| ChartPreprocessor.TimedNotes | stepmania_difficulty_predictor/data/SMChartPreprocessor.py:41-50 | the surviving notes are at most as many as the notes, and every encoding is one of 1000, 100, 10, 1 |
| ChartPreprocessor.NoteEntry | stepmania_difficulty_predictor/data/SMChartPreprocessor.py:42-50 | one note adds at most one entry; it adds one exactly when it is a tap, `time_at` gives it a time and its column is in 0..3; the entry is that time and the column's encoding |
| ChartPreprocessor.TimedNotesAppend | stepmania_difficulty_predictor/data/SMChartPreprocessor.py:41-50 | notes are filtered one by one: filtering a concatenation concatenates the results |
| ChartPreprocessor.DroppedNoteSkippedAlone | stepmania_difficulty_predictor/data/SMChartPreprocessor.py:42-50 | a non-tap, a tap whose `time_at` raises, or a tap on a column outside 0..3 is dropped alone: the result is the result without that note |
| ChartPreprocessor.CollectTimedNotes | stepmania_difficulty_predictor/data/SMChartPreprocessor.py:40-50 | the inner loop produces exactly `TimedNotes` of the chart's notes |
| ChartPreprocessor.BuildChart | stepmania_difficulty_predictor/data/SMChartPreprocessor.py:55-58 | the chart dict is well formed and is empty exactly when there are no timed notes |
| ChartPreprocessor.BuildChartKeys | stepmania_difficulty_predictor/data/SMChartPreprocessor.py:55-58 | a time is a key exactly when it is the rounded time of some timed note |
| ChartPreprocessor.BuildChartLastWins | stepmania_difficulty_predictor/data/SMChartPreprocessor.py:55-58 | a note with no later note at the same rounded time determines that key's row |
| ChartPreprocessor.BuildChartValues | stepmania_difficulty_predictor/data/SMChartPreprocessor.py:55-58 | every row is the padded encoding of some timed note |
| ChartPreprocessor.BuildChartRows | stepmania_difficulty_predictor/data/SMChartPreprocessor.py:55-58 | built from column encodings, every row is four characters with exactly one '1' |
| ChartPreprocessor.ChordsNotMerged | stepmania_difficulty_predictor/data/SMChartPreprocessor.py:55-58 | taps in columns 0 and 3 at the same rounded time leave the single row "0001": no OR-merge |
| ChartPreprocessor.NormaliseDifficulty | stepmania_difficulty_predictor/data/SMChartPreprocessor.py:60-63 | a non-digit label is kept; '1'..'5' become their names in the map; every other digit string becomes "Unknown"; the result is never a digit string |
| ChartPreprocessor.DigitLabelsUnknown | stepmania_difficulty_predictor/data/SMChartPreprocessor.py:61-63 | a digit label other than '1'..'5' becomes "Unknown" |
| ChartPreprocessor.NormaliseDifficultyIdempotent | stepmania_difficulty_predictor/data/SMChartPreprocessor.py:60-63 | normalising twice is normalising once |
| ChartPreprocessor.DifficultyNamesByNumber | stepmania_difficulty_predictor/data/SMChartPreprocessor.py:62-63 | '1'..'5' become Beginner, Easy, Medium, Hard, Challenge; '0' and '12' become Unknown |
| ChartPreprocessor.ParseMeter | stepmania_difficulty_predictor/data/SMChartPreprocessor.py:65-68 | the meter is the decimal value of a digit string and 0 otherwise (missing, None, empty, non-digit) |
| ChartPreprocessor.MeterRoundTrip | stepmania_difficulty_predictor/data/SMChartPreprocessor.py:65-68 | a meter written as a decimal number reads back as that number |
| ChartPreprocessor.ProcessChart | stepmania_difficulty_predictor/data/SMChartPreprocessor.py:35-75 | a chart yields a record exactly when it is non-null, 'dance-single' and has a surviving tap; the record's chart is non-empty and well formed |
| ChartPreprocessor.ProcessCharts | stepmania_difficulty_predictor/data/SMChartPreprocessor.py:35-77 | at most one record per chart |
| ChartPreprocessor.ProcessEntry | stepmania_difficulty_predictor/data/SMChartPreprocessor.py:36-75 | one pass of the loop over charts yields the record `ProcessChart` specifies, or no record when the chart is skipped |
| ChartPreprocessor.ProcessChartsStep | stepmania_difficulty_predictor/data/SMChartPreprocessor.py:35-75 | one more pass appends exactly that chart's record, if it has one, after the records of the earlier charts |
| ChartPreprocessor.ProcessChartsAppend | stepmania_difficulty_predictor/data/SMChartPreprocessor.py:35-77 | charts are processed independently and in order: the records of a concatenation are the concatenated records |
| ChartPreprocessor.ProcessChartsMembers | stepmania_difficulty_predictor/data/SMChartPreprocessor.py:35-75 | a record is in the output exactly when some input chart produces it |
| ChartPreprocessor.ProducedBy | stepmania_difficulty_predictor/data/SMChartPreprocessor.py:35-75 | every record of the output was produced by some input chart |
| ChartPreprocessor.Produces | stepmania_difficulty_predictor/data/SMChartPreprocessor.py:35-75 | every record an input chart produces is in the output |
| ChartPreprocessor.ProcessedChartShape | stepmania_difficulty_predictor/data/SMChartPreprocessor.py:52-58 | each record's chart is the dict of its surviving taps: non-empty, keys = their rounded times, every row four characters with one '1' |
| ChartPreprocessor.Preprocess | stepmania_difficulty_predictor/data/SMChartPreprocessor.py:24-77 | `preprocess` returns [] for a simfile without charts or with an empty chart list, and otherwise exactly the records of `ProcessCharts` |
| ChartPreprocessor.Preprocessed | stepmania_difficulty_predictor/data/SMChartPreprocessor.py:28-77 | reference definition: [] without a chart list or with an empty one, otherwise `ProcessCharts` of the charts |
| LegacyChartPreprocessor.LegacyTimedNotes | src/data/SMChartPreprocessor.py:43-50 | the older inner loop keeps at most one entry per note |
| LegacyChartPreprocessor.LegacyNoteEntry | src/data/SMChartPreprocessor.py:46-50 | given a time for a tap, one note adds at most one entry; it adds one exactly when it is a tap on a column in 0..3; the entry is its time and the column's encoding |
| LegacyChartPreprocessor.LegacyCollectTimedNotes | src/data/SMChartPreprocessor.py:43-50 | given a time for every tap (a failing `time_at` raises), the inner loop produces `LegacyTimedNotes` |
| LegacyChartPreprocessor.LegacyProcessChart | src/data/SMChartPreprocessor.py:37-71 | a chart yields a record exactly when it is 'dance-single' and has a surviving tap |
| LegacyChartPreprocessor.LegacyProcessCharts | src/data/SMChartPreprocessor.py:37-73 | at most one record per chart |
| LegacyChartPreprocessor.LegacyPreprocess | src/data/SMChartPreprocessor.py:30-73 | on every simfile for which it does not raise, the older `preprocess` returns `LegacyPreprocessed`, the records of its 'dance-single' charts that have a surviving tap, in chart order |
| LegacyChartPreprocessor.LegacyPreprocessed | src/data/SMChartPreprocessor.py:34-73 | reference definition: `LegacyProcessCharts` of the simfile's charts |
| LegacyChartPreprocessor.NoTapsNoNotes | src/data/SMChartPreprocessor.py:44-50 | only taps are read: a chart of mines and other non-taps has no surviving note, so the unused `mappings` entry for mines never matters |
| LegacyChartPreprocessor.TimedNotesAgree | src/data/SMChartPreprocessor.py:44-50 | when the raw timing data times every tap and the timing engine gives every tap the same time, both versions keep the same notes |
| LegacyChartPreprocessor.ProcessChartAgrees | src/data/SMChartPreprocessor.py:61-69 | on the inputs the older version accepts, and with both timings giving every tap the same time, it yields a record exactly when the newer one does, and the same record except that its meter is `int(meter)` |
| LegacyChartPreprocessor.ProcessChartsAgree | src/data/SMChartPreprocessor.py:37-73 | with digit meters, and with both timings giving every tap the same time, both versions produce the same records |
| LegacyChartPreprocessor.PreprocessAgrees | src/data/SMChartPreprocessor.py:30-73 | on every simfile the older version accepts whose meters are digit strings, and with both timings giving every tap the same time, both `preprocess` versions return the same list |
| StreamDetection.StreamRows | stepmania_difficulty_predictor/features/StreamDetector.py:34-48 | at most k of the first k rows are stream rows |
| StreamDetection.StreamNotes | stepmania_difficulty_predictor/features/StreamDetector.py:30-48 | reference definition of `stream_notes`: the stream rows among all the rows |
| StreamDetection.StreamPercentage | stepmania_difficulty_predictor/features/StreamDetector.py:51-52 | reference definition: 0 below two rows, otherwise the stream rows over all rows, times 100 |
| StreamDetection.IsMaxStreamLength | stepmania_difficulty_predictor/features/StreamDetector.py:31-49 | reference definition: no run of rows joined by close gaps has more rows than `m`, and when `m > 0` some run has exactly `m` rows |
| StreamDetection.ScanClose | stepmania_difficulty_predictor/features/StreamDetector.py:35-40 | a close gap opens a streak of 2 rows or lengthens the open one by a row; the scan invariant is kept: `stream_notes` plus the open streak counts the stream rows so far, `max_stream_length` is the length of a run of close gaps already seen, and no run seen so far is longer than it and the open streak |
| StreamDetection.ScanApart | stepmania_difficulty_predictor/features/StreamDetector.py:35-45 | a wide gap closes the open streak: its rows join `stream_notes`, `max_stream_length` becomes the larger of the two, and the scan invariant holds with no open streak |
| StreamDetection.ScanFinished | stepmania_difficulty_predictor/features/StreamDetector.py:47-49 | after the last gap, adding the open streak makes `stream_notes` exactly the stream rows, and the larger of `max_stream_length` and the open streak is the longest run, shown by a run of that length |
| StreamDetection.StreamRowsMonotone | stepmania_difficulty_predictor/features/StreamDetector.py:34-48 | more rows never give fewer stream rows |
| StreamDetection.StreamDetector.Compute | stepmania_difficulty_predictor/features/StreamDetector.py:26-52 | `stream_percentage` is the share of rows that have a neighbour at most the threshold away (a gap equal to the threshold counts), in percent, and 0 below two rows; `max_stream_length` is the row count of the longest run of rows joined by such gaps, 0 when there is none |
| StreamDetection.WindowRowsCounted | stepmania_difficulty_predictor/features/StreamDetector.py:41-48 | every row of a run of close gaps is counted in `stream_notes` |
| StreamDetection.MaxStreamWithinStreamNotes | stepmania_difficulty_predictor/features/StreamDetector.py:41-52 | `max_stream_length` is 0 or at least 2, and `max_stream_length <= stream_notes <= rows` |
| StreamDetection.StreamPercentageRange | stepmania_difficulty_predictor/features/StreamDetector.py:51-52 | `stream_percentage` lies in [0, 100] |
| StreamDetection.AllGapsClose | stepmania_difficulty_predictor/features/StreamDetector.py:34-52 | with every gap close, all rows are stream rows, the percentage is 100 and the longest streak is the whole chart |
| StreamDetection.NoGapClose | stepmania_difficulty_predictor/features/StreamDetector.py:34-52 | with no gap close, both features are 0 |
| StreamDetection.NoStreamRows | stepmania_difficulty_predictor/features/StreamDetector.py:34-48 | with every gap wider than the threshold, no row is a stream row |
| StreamDetection.FewRows | stepmania_difficulty_predictor/features/StreamDetector.py:27-28 | fewer than two rows give 0 and 0 |
| StreamDetection.TwoStreaksExample | stepmania_difficulty_predictor/features/StreamDetector.py:34-52 | rows at 1.00, 1.05, 2.00, 2.05, 2.10: all five are stream rows (100%), the longest streak has 3 rows |
| PatternDetection.SharedUpTo | stepmania_difficulty_predictor/features/PatternDetector.py:44-46 | the count over the first k columns is at most k |
| PatternDetection.SharedPanels | stepmania_difficulty_predictor/features/PatternDetector.py:43-45 | reference definition: the jacks one close pair adds, the shared panels over the four columns |
| PatternDetection.Crossover | stepmania_difficulty_predictor/features/PatternDetector.py:50-53 | reference definition: the row steps on Up or Right after a step on Left or Down, or on Left or Down after Up or Right |
| PatternDetection.JackCount | stepmania_difficulty_predictor/features/PatternDetector.py:37-46 | reference definition: the sum, over the pairs at most the threshold apart, of the panels both rows step on |
| PatternDetection.CrossoverCount | stepmania_difficulty_predictor/features/PatternDetector.py:37-56 | reference definition: the number of pairs of neighbouring rows that are crossovers |
| PatternDetection.Percentage | stepmania_difficulty_predictor/features/PatternDetector.py:58-60 | reference definition: 0 below two rows, otherwise the count over the rows, times 100 |
| PatternDetection.SharedColumns | stepmania_difficulty_predictor/features/PatternDetector.py:44-46 | the inner `for j in range(4)` loop adds `SharedPanels`, the jacks of one close pair |
| PatternDetection.FootCrossing | stepmania_difficulty_predictor/features/PatternDetector.py:50-53 | `left_foot_on_right or right_foot_on_left` is the foot rule `Crossover` of the pair |
| PatternDetection.PatternDetector.Compute | stepmania_difficulty_predictor/features/PatternDetector.py:27-65 | each percentage is count / rows * 100, 0 below two rows; jacks sum the shared panels of pairs at most the threshold apart; crossovers count the pairs meeting the foot rule, with no time condition |
| PatternDetection.SharedPanelsIsSetSize | stepmania_difficulty_predictor/features/PatternDetector.py:44-46 | a close pair adds exactly the number of panels 0..3 stepped on in both rows |
| PatternDetection.SharedUpToIsSetSize | stepmania_difficulty_predictor/features/PatternDetector.py:44-46 | after j passes of the inner loop, the count is the number of columns below j stepped on in both rows |
| PatternDetection.JackCountBound | stepmania_difficulty_predictor/features/PatternDetector.py:43-46 | jacks <= 4 * (rows - 1) |
| PatternDetection.CrossoverCountBound | stepmania_difficulty_predictor/features/PatternDetector.py:55-56 | at most one crossover per pair: crossovers <= rows - 1 |
| PatternDetection.PercentageBelow | stepmania_difficulty_predictor/features/PatternDetector.py:58-60 | a count below bound * rows gives a percentage in [0, bound * 100) |
| PatternDetection.PercentageRanges | stepmania_difficulty_predictor/features/PatternDetector.py:58-60 | `crossover_percentage` lies in [0, 100) and `jack_percentage` in [0, 400) |
| PatternDetection.NoCloseNoJacks | stepmania_difficulty_predictor/features/PatternDetector.py:43 | with no pair within the threshold there are no jacks |
| PatternDetection.JackCountMonotone | stepmania_difficulty_predictor/features/PatternDetector.py:43 | a larger jack threshold never finds fewer jacks |
| PatternDetection.CrossoverSymmetric | stepmania_difficulty_predictor/features/PatternDetector.py:50-53 | the crossover test gives the same answer with the two rows swapped |
| PatternDetection.OnlyFourColumnsRead | stepmania_difficulty_predictor/features/PatternDetector.py:44-53 | only characters 0..3 of each row are read: rows with the same first four characters count alike |
| PatternDetection.TwoRowExamples | stepmania_difficulty_predictor/features/PatternDetector.py:37-60 | Left, Left 0.05 s apart: one jack (50%), no crossover; Left then Right: a crossover and no jack; 0.5 s apart: no jack |
| DensityFeatures.Orientations | stepmania_difficulty_predictor/features/VerticalDensity.py:32-46 | n panels give n column orientations, plus left and right when n > 1, plus all |
| DensityFeatures.Name | stepmania_difficulty_predictor/features/VerticalDensity.py:34-46 | reference definition of the dict keys: `col_<i>` with `i` in decimal, `left`, `right`, `all` |
| DensityFeatures.Matches | stepmania_difficulty_predictor/features/VerticalDensity.py:34-46 | reference definition of the filters: `col_i` needs a '1' at i, `left` one below n/2, `right` one in [n/2, n), `all` one anywhere |
| DensityFeatures.PanelCount | stepmania_difficulty_predictor/features/VerticalDensity.py:27 | reference definition: the length of the first row, 0 for an empty chart |
| DensityFeatures.KeysMatching | stepmania_difficulty_predictor/features/VerticalDensity.py:51 | `filtered_keys` holds exactly the keys whose rows pass the orientation's filter, each once when the insertion order has no repeats (dict keys never repeat) |
| DensityFeatures.Above | stepmania_difficulty_predictor/features/VerticalDensity.py:68 | `values[values > 1e-6]` keeps exactly the values above 1e-6, each as often as it occurs in the input |
| DensityFeatures.WeightSum | stepmania_difficulty_predictor/features/VerticalDensity.py:72-73 | reference definition of `np.sum(np.power(np.arange(k), alpha))`: the sum of `i^alpha` for `i < k` |
| DensityFeatures.WeightedReciprocalSum | stepmania_difficulty_predictor/features/VerticalDensity.py:75 | reference definition of `np.dot(weights, np.reciprocal(s))` over the first `k` values: the sum of `i^alpha / s[i]` |
| DensityFeatures.WeightedHarmonicAverage | stepmania_difficulty_predictor/features/VerticalDensity.py:63-77 | reference definition: with no gap above 1e-6 or a zero weight sum, 0; otherwise the weight sum over the weighted sum of reciprocals of the sorted gaps (bounds in `DensityBounds`) |
| DensityFeatures.Density | stepmania_difficulty_predictor/features/VerticalDensity.py:51-58 | reference definition: 0 when fewer than two rows match, otherwise the weighted harmonic average of the gaps between the sorted matching times |
| DensityFeatures.VerticalDensity.Compute | stepmania_difficulty_predictor/features/VerticalDensity.py:19-61 | an empty chart or an empty first row gives {}; otherwise the keys are exactly the orientation names, and each holds 0 when fewer than two rows match, else the weighted harmonic average of the sorted gaps |
| DensityFeatures.Fill | stepmania_difficulty_predictor/features/VerticalDensity.py:48-59 | each pass of the loop over orientations adds exactly the entry `name := density`, so the dict holds one entry per orientation seen, each its own density |
| DensityFeatures.NameInjective | stepmania_difficulty_predictor/features/VerticalDensity.py:32-46 | different orientations have different names, so no entry of the dict overwrites another |
| DensityFeatures.ColumnInOrientations | stepmania_difficulty_predictor/features/VerticalDensity.py:34-35 | column i is an orientation exactly when i < n |
| DensityFeatures.OrientationKeys | stepmania_difficulty_predictor/features/VerticalDensity.py:27-46 | keys: `all` always; `left` and `right` exactly when n > 1; `col_i` exactly for i < n; never `L`, `D`, `U`, `R` |
| DensityFeatures.HalvesAreColumnGroups | stepmania_difficulty_predictor/features/VerticalDensity.py:38-43 | `left` matches exactly when a column in [0, n/2) does, and `right` exactly when a column in [n/2, n) does |
| DensityFeatures.HalvesPartition | stepmania_difficulty_predictor/features/VerticalDensity.py:38-46 | left or right holds exactly when some panel is stepped on, which for a row of n characters is the `all` filter |
| DensityFeatures.WeightSumPositive | stepmania_difficulty_predictor/features/VerticalDensity.py:72-73 | the weights `i^alpha` sum to a positive number exactly when there is a value and alpha = 0, or there are two values |
| DensityFeatures.ReciprocalSumBounds | stepmania_difficulty_predictor/features/VerticalDensity.py:73-75 | with the positively weighted values in [lo, hi], the weight sum lies between lo and hi times the weighted reciprocal sum |
| DensityFeatures.ReciprocalSumPositive | stepmania_difficulty_predictor/features/VerticalDensity.py:73-75 | when the weights sum to a positive number, the dot product is positive, so the division is defined |
| DensityFeatures.SortedHarmonicBounds | stepmania_difficulty_predictor/features/VerticalDensity.py:72-75 | the weighted harmonic mean of sorted values lies between the first positively weighted value and the largest |
| DensityFeatures.DensityBounds | stepmania_difficulty_predictor/features/VerticalDensity.py:67-77 | the density is >= 0; it is 0 with no surviving gap, or with one and alpha > 0; otherwise it lies between the smallest gap (alpha = 0) or the second smallest (alpha > 0) and the largest |
| DensityFeatures.UnitWeights | stepmania_difficulty_predictor/features/VerticalDensity.py:72 | with alpha = 0 every weight is 1 |
| DensityFeatures.PlainHarmonicMean | stepmania_difficulty_predictor/features/VerticalDensity.py:11-12 | with alpha = 0 the density is the plain harmonic mean `count / sum(1/d)` |
| StreamDetection.StreamDetector.constructor | stepmania_difficulty_predictor/features/StreamDetector.py:7-14 | stores the threshold |
| PatternDetection.PatternDetector.constructor | stepmania_difficulty_predictor/features/PatternDetector.py:7-14 | stores the threshold |
| DensityFeatures.VerticalDensity.constructor | stepmania_difficulty_predictor/features/VerticalDensity.py:16-17 | stores alpha |

## Left out

- **HorizontalDensity:** the pipeline imports it, but its source is not part of this model.
- **The `simfile` library:** parsing, `NoteData` iteration, `TimingData` and
  `TimingEngine.time_at` are foreign calls. They are replaced by values (`Simfile`,
  `SourceChart`, `Note`) and the parameter `timeAt`.
- **`np.round` and IEEE floats:** `np.round(time, decimals)` is the parameter `quantize`,
  and times are exact reals. A float subtraction landing just above or below 0.25, 0.1 or
  1e-6 is not reproduced. NumPy's integer overflow in `np.power` for huge gap counts is not
  modelled either.
- **Non-integer `alpha`:** `alpha` is a natural number. A float alpha (`np.power` of an
  integer range) is not modelled.
- **Python types of the results:** the integer 0 and the float 0.0 of the degenerate
  branches are both the real 0.
- **Glue code:** the prediction pipelines, the training, prediction and feature-export
  scripts, the loaders, `DataSerializer` and `setup.py` are I/O and glue, not part of this
  model.
- **The `__main__` demo of the older preprocessor:** it writes and deletes a file.
- **Unused constructor arguments:** `SMChartPreprocessor(decimals)` only feeds `np.round`,
  so it lives inside `quantize`. The older version's `mappings` table is never read, and
  `LegacyChartPreprocessor.NoTapsNoNotes` states the consequence.
- **`last_notes` in `PatternDetector.compute`:** it is assigned and never read.
- ChartPreprocessor.NormaliseDifficulty: `isdigit` is modelled on the ASCII digits 0-9 only.
  Python also accepts other Unicode digits, such as superscripts, for which `int()` then
  raises.
- ChartPreprocessor.ParseMeter: same ASCII-only scope as NormaliseDifficulty.
- Text.ParseInt: same ASCII-only scope. Its whitespace is six of the ten ASCII characters
  Python treats as whitespace: the separators 0x1c-0x1f are not stripped.
- ChartPreprocessor.ProcessChart: a missing attribute and an attribute set to `None` are both
  `None`.
  - A `None` title becomes "Unknown", where Python keeps `None`.
  - A `None` difficulty becomes "Unknown", where Python would raise on `.isdigit()`.
- LegacyChartPreprocessor.LegacyCollectTimedNotes: the test `note.note_type == 'Tap'` is read
  as "the note is a tap", the same test as the newer version's `NoteType.TAP`. Whether the
  library's note type ever compares equal to the string 'Tap' is outside the model.
- LegacyChartPreprocessor.LegacyPreprocess: the older version recovers from nothing, and its
  contract covers only the runs that do not raise. A failing `time_at`, a missing chart list,
  a null chart, a `None` difficulty or a meter that `int()` rejects raises there. These are
  the preconditions `Runs` and `ChartRuns`, not modelled error paths.
- LegacyChartPreprocessor.LegacyProcessChart: a missing title and a `None` title are both
  `None`, and both become "Unknown" as in the newer version. Python stores `None` for the
  second and raises `AttributeError` for the first.
- PatternDetection.PatternDetector.Compute: it requires the characters that `compute` reads
  to exist.
  - Every row after the first must have four characters, because `note[3]` is read for every
    pair.
  - The first row must have every character the short-circuiting tests of the first pair
    read.
  - Python raises `IndexError` otherwise. That error path is a precondition, not a modelled
    result.
- DensityFeatures.VerticalDensity.Compute: it requires every row to be at least as long as the
  first. The `col_<n-1>` filter reads that character of every row, so Python raises
  `IndexError` otherwise.
