# Timing-log aggregator of the optimizer benchmarks, in Dafny

`scripts/plotting/plotting.py` turns the timing logs of benchmark runs into a stacked bar
chart. Before drawing, it aggregates the logs:

- It walks a parent directory whose subdirectories are runs.
- It reads every file line by line, tracking the current TPC-H query id. The id is `"0"` at the
  start of each file. It becomes the captured number whenever a line matches the marker
  pattern `Query.(?P<number>\d\d|\d)."`.
- Each line that starts with the data-record shape `{"data":\D.*}}` is decoded. Its metrics are
  added into a table `query id -> metric name -> sum`. Missing entries start at 0.
- The run count is the number of directories visited minus one, since the parent is not a run.
- Every entry of the table is divided by the run count, in place.
- For the queries `"1"`..`"22"` it builds the labels `"Q1"`..`"Q22"` and five series in seconds:
  - transformTime (search);
  - ineffectiveMatchTime;
  - effectiveMatchTime;
  - executorTime;
  - the untracked time |applyTime − transformTime|.

The model has seven modules:

- `Results`: Option, Result and the two fatal errors (ZeroDivision, and a KeyError naming
  the query and the metric).
- `Digits`: `str(n)` for naturals, proved injective through a round trip with the value it
  spells.
- `Patterns`: the two regular expressions as hand-written string predicates. The marker is
  searched anywhere in the line (leftmost match, two digits tried before one, `.` = any
  character but a newline). The data shape is anchored at the line start only.
- `Tables`: the table as a value:
  - adding one record;
  - the fold over a sequence of records, proved equal to a reference sum (`Total`);
  - averaging with its error case.
- `Scan`: the records that a file, a directory and a whole walk credit to query ids, as
  functions of the lines.
- `Extraction`: the 22-query extraction as a function, with its KeyError.
- `Plotting`: class `Aggregator` holds the mutable `table` and `numberOfRuns`. Its methods are
  the loops of the script (walk, directory, file, record, averaging, extraction). Each one is
  proved against the functions above. `Report` runs them in order and is proved equal to
  `Pipeline`. End-to-end lemmas state what a chart value means in terms of the input logs.

Decoding a data line (`json.loads(line)["data"]`) is a parameter `decode: string -> map<string,
real>`. It is applied to the line with its newlines removed.

How the model reads the code where the code is more precise than a plain description:

- The two `.` tokens of the marker pattern match any character, not only a space or a period.
  `Query_07x"` yields the id `"07"`, a key distinct from `"7"`.
- Averaging raises ZeroDivisionError only when the run count is 0 and some entry exists. An
  empty table is averaged without error (the division is evaluated per entry).
- A query id among 1..22 that has no row reads as an empty row (the table is a
  `defaultdict(dict)`). So the KeyError names the metric `transformTime`, not the id.
- A table row is created only by a record with at least one metric.
- A chart needs all 22 queries to be complete. A log covering fewer queries ends in a KeyError.

## Model

| member | source | states |
|---|---|---|
| Digits.DecimalString | scripts/plotting/plotting.py:83-84 | `str(n)` is a non-empty string of digits, without a leading zero for n > 0, of one character exactly when n < 10 and two for 10..99 |
| Digits.DecimalRoundTrip | scripts/plotting/plotting.py:83-84 | reading back the decimal spelling of n gives n |
| Digits.DecimalStringInjective | scripts/plotting/plotting.py:84-88 | different query numbers give different table keys |
| Patterns.MarkerAt | scripts/plotting/plotting.py:42 | an attempt at position p succeeds exactly when `Query`, any character, one or two digits, any character and `"` follow p; two digits win when both widths match, and otherwise the capture is the single digit at p + 6 |
| Patterns.SearchFrom | scripts/plotting/plotting.py:42 | a successful search yields one or two digits |
| Patterns.SearchFromIsLeftmost | scripts/plotting/plotting.py:61 | the search finds nothing exactly when no position matches, and otherwise returns the capture at the leftmost matching position |
| Patterns.QueryMarkerIsLeftmostMatch | scripts/plotting/plotting.py:61-63 | a line yields id `id` exactly when the leftmost match in it captures `id`, and yields none exactly when no position matches |
| Patterns.MarkerOfQueryLine | scripts/plotting/plotting.py:42 | the marker line `Query n."` of query n (1..99) yields exactly `str(n)` |
| Patterns.MarkerKeepsLeadingZero | scripts/plotting/plotting.py:42 | the marker `Query_07x"` yields the id "07" verbatim, leading zero included |
| Patterns.MarkerFallsBackToOneDigit | scripts/plotting/plotting.py:42 | in `Query 12"` the two-digit alternative finds no quote after it, so the search falls back to one digit and yields "1" |
| Patterns.MarkerInMidLine | scripts/plotting/plotting.py:42 | a marker in the middle of a line is found (the search is not anchored) |
| Patterns.MarkerNeedsQuote | scripts/plotting/plotting.py:42 | `Query 5.` with no closing quote is not a marker |
| Patterns.ClosesFromIff | scripts/plotting/plotting.py:39 | the `.*}}` tail matches from i exactly when a `}}` occurs at or after i with no newline before it |
| Patterns.DataLineShape | scripts/plotting/plotting.py:39 | a data line starts with `{"data":`, then a non-digit, then reaches a `}}` without a newline; the text after `}}` is unconstrained (anchored at the start only) |
| Patterns.Clean | scripts/plotting/plotting.py:65 | the cleaned line has no newline, is no longer than the line, and a line without newlines is left unchanged |
| Patterns.CleanAppend | scripts/plotting/plotting.py:65 | removing newlines from a + b gives the cleaned a followed by the cleaned b, so the other characters keep their order |
| Patterns.CleanDropsTrailingNewline | scripts/plotting/plotting.py:65 | a line read with its trailing newline is cleaned to its text |
| Tables.WithRecordFrame | scripts/plotting/plotting.py:67-70 | adding a record changes only its query's row, creates that row only when the record has a metric, sets each metric of the record to the old value (or 0) plus the record's value, and keeps the other metrics |
| Tables.AccumulateSnoc | scripts/plotting/plotting.py:64-70 | folding one more record into the table is one more record update |
| Tables.AccumulateAppend | scripts/plotting/plotting.py:53-70 | folding the records of a and then of b is folding a + b: files and directories can be accumulated one after another |
| Tables.AccumulateIsTotal | scripts/plotting/plotting.py:67-70 | every entry of the folded table is its initial value plus the sum of that metric over the records credited to that query |
| Tables.AccumulateEntries | scripts/plotting/plotting.py:67-69 | an entry exists after folding exactly when it existed before or some record credited to its query carries that metric |
| Tables.AccumulateRows | scripts/plotting/plotting.py:67-68 | a row exists after folding exactly when it existed before or some non-empty record was credited to its query |
| Tables.AverageTable | scripts/plotting/plotting.py:79-81 | averaging fails exactly when the run count is 0 and some entry exists, with a division-by-zero error; otherwise it keeps the query ids and the metric names of every row |
| Tables.AverageEntries | scripts/plotting/plotting.py:79-81 | each averaged entry, multiplied by the run count, is the entry it replaced |
| Tables.AverageOverOneRun | scripts/plotting/plotting.py:79-81 | with a run count of 1 averaging leaves the table unchanged |
| Tables.AverageIsMean | scripts/plotting/plotting.py:79-81 | after folding records into an empty table, an averaged entry is the sum over the records divided by the run count |
| Tables.TotalAppend | scripts/plotting/plotting.py:53-70 | the sum over the records of a then b is the sum over a plus the sum over b |
| Scan.CreditsStep | scripts/plotting/plotting.py:60-70 | scanning one more line replaces the current id by its marker's capture if it has one (else keeps it), and appends one record under the new current id exactly when it is a data line |
| Scan.CurrentIdIsLastMarker | scripts/plotting/plotting.py:59-63 | after the lines, the current id is the capture of the last marker line among them |
| Scan.CurrentIdWithoutMarker | scripts/plotting/plotting.py:59-63 | before any marker line, the current id stays at its initial value |
| Scan.MarkerBeforeData | scripts/plotting/plotting.py:61-70 | a line that is both a marker and a data line credits its record to the id it names itself |
| Scan.CreditsLength | scripts/plotting/plotting.py:60-70 | a file credits exactly as many records as it has data lines |
| Scan.DataRanksIncrease | scripts/plotting/plotting.py:60-64 | a later data line has a higher rank among the data lines than an earlier one |
| Scan.CreditsOfLines | scripts/plotting/plotting.py:60-70 | the r-th data line (counted from 0) yields the r-th credit: its decoded record under the id current at that line; with the two rows above, every data line is credited exactly once, in line order |
| Scan.NoDataNoCredits | scripts/plotting/plotting.py:64 | lines with no data line credit no record |
| Scan.DirCreditsStep | scripts/plotting/plotting.py:56-57 | visiting one more file of a directory appends that file's records |
| Scan.TreeCreditsSnoc | scripts/plotting/plotting.py:53 | visiting one more directory appends that directory's records |
| Scan.MarkedRecordFile | scripts/plotting/plotting.py:59-70 | a file holding the marker line of query n and then a data line credits exactly that line's record, to `str(n)` |
| Extraction.Abs | scripts/plotting/plotting.py:88 | the absolute value is non-negative and is x or −x |
| Extraction.FirstMissing | scripts/plotting/plotting.py:84-88 | finds nothing exactly when the row has all five metrics; otherwise it names the first metric absent from the row in the lookup order transformTime, ineffectiveMatchTime, effectiveMatchTime, executorTime, applyTime |
| Extraction.FirstIncomplete | scripts/plotting/plotting.py:82-88 | finds nothing exactly when queries from..22 all have the five metrics |
| Extraction.FirstIncompleteIsFirst | scripts/plotting/plotting.py:82-88 | when it finds something, it names a query j >= from whose first missing metric it reports, and every query from from to j - 1 is complete |
| Extraction.LabelAt | scripts/plotting/plotting.py:83 | position j of the labels holds the label of query j + 1 |
| Extraction.UpToAt | scripts/plotting/plotting.py:84-88 | position j of each metric series and of the leftover series holds query j + 1's value |
| Extraction.LeftoverNonNegative | scripts/plotting/plotting.py:88 | every untracked-time value is non-negative |
| Extraction.ExtractSpec | scripts/plotting/plotting.py:82-88 | the extraction succeeds exactly when queries 1..22 all have the five metrics, with six series of length 22 and a non-negative leftover; otherwise it fails with the KeyError of the first incomplete query |
| Extraction.ExtractValues | scripts/plotting/plotting.py:83-88 | on success, position j holds label `"Q" + str(j+1)`, the four metrics of query j+1 divided by 1e9, and the gap between its applyTime and transformTime divided by 1e9 |
| Extraction.LabelsDistinct | scripts/plotting/plotting.py:83 | the 22 labels are pairwise different |
| Extraction.MissingFirstQueryIsFatal | scripts/plotting/plotting.py:84 | with no row for query "1" the extraction fails at once with a KeyError naming transformTime, whatever the other rows hold |
| Extraction.LeadingZeroIdsAreNotRead | scripts/plotting/plotting.py:59 | an id with a leading zero, "0" included, is never one of the keys `str(i)` the extraction reads |
| Extraction.ExtractReadsOnlyQueryRows | scripts/plotting/plotting.py:82-88 | changing or adding a row whose id is not one of "1".."22" changes neither the chart nor the error |
| Plotting.WithRecordStep | scripts/plotting/plotting.py:68-70 | one more metric of a record, added in place to the row (created at 0 if absent), is the record update with that metric included |
| Plotting.Aggregator.constructor | scripts/plotting/plotting.py:45-51 | the table starts empty and the run count at −1 |
| Plotting.Aggregator.AddRecord | scripts/plotting/plotting.py:67-70 | the in-place loop over a record's metrics leaves the table equal to the record update of the old table, and the run count unchanged |
| Plotting.Aggregator.ScanFile | scripts/plotting/plotting.py:58-70 | the line loop, with the current id starting at "0", leaves the table equal to the old table with the file's records folded in |
| Plotting.Aggregator.VisitDirectory | scripts/plotting/plotting.py:54-70 | visiting a directory raises the run count by one and folds in the records of its files, in order |
| Plotting.Aggregator.Walk | scripts/plotting/plotting.py:53-70 | the walk raises the run count by the number of directories and folds in all their records |
| Plotting.Aggregator.DivideQuery | scripts/plotting/plotting.py:80-81 | dividing one query's row in place fails exactly when the run count is 0 and the row is non-empty; otherwise every entry of that row is divided and nothing else changes |
| Plotting.Aggregator.Average | scripts/plotting/plotting.py:79-81 | the in-place averaging loop ends in the table that averaging the old table gives, or leaves the table unchanged and reports that averaging's error |
| Plotting.Aggregator.Extract | scripts/plotting/plotting.py:82-88 | the loop appending to the six lists returns exactly the extraction of the table, error included |
| Plotting.Report | scripts/plotting/plotting.py:45-88 | running the aggregator (walk, average, extract) on a tree gives the pipeline's result for that tree |
| Plotting.ChartNeedsRuns | scripts/plotting/plotting.py:45-54 | a chart is produced only when at least two directories (the parent and one run) are visited |
| Plotting.ChartEntryIsMean | scripts/plotting/plotting.py:81 | an averaged entry of a tree with at least one run is the sum over the tree's records divided by the run count |
| Plotting.ChartOfAverages | scripts/plotting/plotting.py:79-88 | a chart comes from extracting a successfully averaged table of a tree with at least one run |
| Plotting.PipelineIsMeanOverRuns | scripts/plotting/plotting.py:53-87 | each charted value is that query's metric summed over the whole tree, divided by the run count and by 1e9, under the label `"Q" + str(j+1)` |
| Plotting.LeftoverOfAverages | scripts/plotting/plotting.py:79-88 | when a chart is drawn, the averaged table has both applyTime and transformTime for every query 1..22, and each leftover is their absolute gap in seconds |
| Plotting.PipelineLeftoverIsGapOfMeans | scripts/plotting/plotting.py:53-88 | each charted leftover is the gap between the query's mean applyTime and mean transformTime over the runs, in seconds |
| Plotting.SingleRunScenario | scripts/plotting/plotting.py:45-88 | one run with one marked data record for query 3: the averaged table is that record alone, its untracked time is 0.5 s, and no chart is drawn because query 1 lacks transformTime |
| Plotting.TwoRunScenario | scripts/plotting/plotting.py:53-81 | two runs crediting 1e9 and 3e9 ns of transformTime to query 5 average to 2e9 ns, 2.0 s in the chart's unit |
| Plotting.UnmarkedDataIsNeverCharted | scripts/plotting/plotting.py:59-88 | data lines before a file's first marker are credited to "0", and a row whose id starts with '0' affects neither the chart nor the error |

## Left out

- Filesystem I/O (`os.walk` and `open`, lines 53-57). A tree is given as the sequence of
  directories in walk order, the parent first. Each directory is a sequence of files and each
  file a sequence of lines.
- `json.loads` (line 66) is replaced by the `decode` parameter. Its parse errors are not
  modelled, nor a record without a `"data"` key, nor non-numeric values.
- Metric values and all divisions use exact `real` arithmetic. IEEE rounding of the sums and of
  the divisions by the run count and by 1e9 is not modelled.
- `\d` is modelled as the ASCII digits. Python's `\d` on `str` also accepts other Unicode
  decimal digits.
- Linearity of averaging is not stated: scaling every record's values by a factor k scales
  each averaged entry by k. The proof needs real multiplication by a variable factor, and the
  solver could not prove it within the resource limit. Additivity of the sums over records
  (Tables.TotalAppend) and the mean form of each entry (Tables.AverageIsMean) are proved.
- Chart rendering and saving (lines 90-105, matplotlib and numpy) is not part of this model.
- Lines 55 and 58 are not modelled: `files != None` is always true, and the `defaultdict(float)`
  is overwritten before use.
- Plotting.Aggregator.Extract: a failing lookup of a missing query id also inserts an empty row
  for that id into the `defaultdict`. The model returns the error without that insertion,
  because the script stops on the error.
- Plotting.Aggregator.AddRecord and Plotting.Aggregator.Average: they visit keys in an
  unspecified order, not Python's insertion order. The updates of different keys are
  independent, and a division-by-zero stops the script whichever entry raises it.
- Plotting.Aggregator.DivideQuery: on a division by zero the model returns before changing the
  row. The script raises at the same point, on the first entry.
