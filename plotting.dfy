/**
 * The aggregator of scripts/plotting/plotting.py as a stateful object: the table of sums that
 * the directory walk fills in place, the run counter, the in-place averaging pass and the
 * extraction of the chart series; and the whole run, from the walk to the series.
 */
module Plotting {
  import opened Results
  import opened Patterns
  import opened Tables
  import opened Scan
  import opened Extraction
  import opened Digits

  /** The records of `data` whose metric is in `keys`. */
  function Restrict(data: Row, keys: set<string>): (r: Row)
    ensures r.Keys == data.Keys * keys
  {
    map k | k in data && k in keys :: data[k]
  }

  /** Adding one more metric k of a record is one more in-place update of the row of q. */
  lemma WithRecordStep(t: Table, q: string, d: Row, k: string, v: real)
    requires k !in d
    ensures var t1 := WithRecord(t, q, d);
      var row := RowOf(t1, q);
      WithRecord(t, q, d[k := v]) == t1[q := row[k := Get(row, k) + v]]
  {
    var t1 := WithRecord(t, q, d);
    var t2 := WithRecord(t, q, d[k := v]);
    var row := RowOf(t1, q);
    WithRecordStepRow(t, q, d, k, v);
    assert q in t2 by {
      WithRecordFrame(t, q, d[k := v]);
    }
    forall q' | q' != q
      ensures (q' in t2 <==> q' in t1) && (q' in t2 ==> t2[q'] == t1[q'])
    {
      WithRecordFrame(t, q, d);
      WithRecordFrame(t, q, d[k := v]);
      assert RowOf(t2, q') == RowOf(t, q') == RowOf(t1, q');
    }
    assert t2 == t1[q := row[k := Get(row, k) + v]];
  }

  /** Setting an entry twice keeps the second value only. */
  lemma OverwriteEntry(row: Row, k: string, first: real, second: real)
    ensures row[k := first][k := second] == row[k := second]
  {
    assert row[k := first][k := second].Keys == row[k := second].Keys;
  }

  /** Adding the metrics `done` and then k of a record is one more in-place update of the row of q. */
  lemma AddMetricStep(t: Table, q: string, data: Row, done: set<string>, k: string)
    requires k in data && k !in done
    ensures var t1 := WithRecord(t, q, Restrict(data, done));
      var row := RowOf(t1, q);
      WithRecord(t, q, Restrict(data, done + {k})) == t1[q := row[k := Get(row, k) + data[k]]]
  {
    WithRecordStep(t, q, Restrict(data, done), k, data[k]);
    assert Restrict(data, done + {k}) == Restrict(data, done)[k := data[k]];
  }

  /** The row part of WithRecordStep: the row of q gains metric k, added to its old value or 0. */
  lemma WithRecordStepRow(t: Table, q: string, d: Row, k: string, v: real)
    requires k !in d
    ensures var row := RowOf(WithRecord(t, q, d), q);
      RowOf(WithRecord(t, q, d[k := v]), q) == row[k := Get(row, k) + v]
  {
    var row := RowOf(WithRecord(t, q, d), q);
    var expected := row[k := Get(row, k) + v];
    var lhs := RowOf(WithRecord(t, q, d[k := v]), q);
    WithRecordFrame(t, q, d);
    WithRecordFrame(t, q, d[k := v]);
    assert lhs.Keys == expected.Keys;
    forall k' | k' in expected
      ensures lhs[k'] == expected[k']
    {
      if k' == k {
        assert Get(row, k) == Get(RowOf(t, q), k);
      }
    }
  }

  /** The table of a walk over `dirs` after averaging: the sums divided by directories - 1. */
  function Averages(dirs: seq<seq<seq<string>>>, decode: Decoder): Result<Table> {
    AverageTable(Accumulate(map[], TreeCredits(dirs, decode)), |dirs| - 1)
  }

  /** The run's whole result, as a value: walk, average by directories - 1, extract. */
  function Pipeline(dirs: seq<seq<seq<string>>>, decode: Decoder): Result<Chart> {
    match Averages(dirs, decode)
    case Err(e) => Err(e)
    case Ok(averages) => ExtractSpec(averages)
  }

  class Aggregator {
    /** `queryDataDict`: query id -> metric name -> sum, later average. */
    var table: Table
    /** `numberOfRuns`: directories visited so far, minus one. */
    var numberOfRuns: int

    constructor ()
      ensures table == map[] && numberOfRuns == -1
    {
      table := map[];
      numberOfRuns := -1;
    }

    /** Lines 67-70: add each metric of one decoded record into the row of query q. */
    method AddRecord(q: string, data: Row)
      modifies this
      ensures table == WithRecord(old(table), q, data)
      ensures numberOfRuns == old(numberOfRuns)
    {
      var pending := data.Keys;
      ghost var done: set<string> := {};
      assert Restrict(data, done) == map[];
      while pending != {}
        invariant pending + done == data.Keys && pending !! done
        invariant table == WithRecord(old(table), q, Restrict(data, done))
        invariant numberOfRuns == old(numberOfRuns)
        decreases pending
      {
        var k :| k in pending;
        AddMetricStep(old(table), q, data, done, k);
        var row := if q in table then table[q] else map[];
        if k !in row {
          OverwriteEntry(row, k, 0.0, 0.0 + data[k]);
          row := row[k := 0.0];
        }
        table := table[q := row[k := row[k] + data[k]]];
        pending := pending - {k};
        done := done + {k};
      }
      assert Restrict(data, done) == data;
    }

    /** Lines 58-70 for one file: scan its lines with the current query id starting at "0". */
    method ScanFile(lines: seq<string>, decode: Decoder)
      modifies this
      ensures table == Accumulate(old(table), FileCredits(lines, decode))
      ensures numberOfRuns == old(numberOfRuns)
    {
      var queryNumber := InitialId;
      var i := 0;
      while i < |lines|
        invariant 0 <= i <= |lines|
        invariant queryNumber == CurrentId(InitialId, lines[..i])
        invariant table == Accumulate(old(table), Credits(InitialId, lines[..i], decode))
        invariant numberOfRuns == old(numberOfRuns)
      {
        var line := lines[i];
        CreditsStep(InitialId, lines, i, decode);
        var queryMatch := QueryMarker(line);
        if queryMatch.Some? {
          queryNumber := queryMatch.value;
        }
        assert queryNumber == CurrentId(InitialId, lines[..i + 1]);
        ghost var before := Credits(InitialId, lines[..i], decode);
        if IsDataLine(line) {
          var record := Credit(queryNumber, decode(Clean(line)));
          assert Credits(InitialId, lines[..i + 1], decode) == before + [record];
          AccumulateSnoc(old(table), before, record);
          AddRecord(queryNumber, record.data);
        } else {
          assert Credits(InitialId, lines[..i + 1], decode) == before;
        }
        i := i + 1;
      }
      assert lines[..|lines|] == lines;
    }

    /** Lines 54-70 for one directory of the walk: count it as a run and scan each of its files. */
    method VisitDirectory(files: seq<seq<string>>, decode: Decoder)
      modifies this
      ensures table == Accumulate(old(table), DirCredits(files, decode))
      ensures numberOfRuns == old(numberOfRuns) + 1
    {
      numberOfRuns := numberOfRuns + 1;
      var f := 0;
      while f < |files|
        invariant 0 <= f <= |files|
        invariant table == Accumulate(old(table), DirCredits(files[..f], decode))
        invariant numberOfRuns == old(numberOfRuns) + 1
      {
        ghost var scanned := DirCredits(files[..f], decode);
        ScanFile(files[f], decode);
        AccumulateAppend(old(table), scanned, FileCredits(files[f], decode));
        DirCreditsStep(files, f, decode);
        f := f + 1;
      }
      assert files[..|files|] == files;
    }

    /** Lines 53-70: visit each directory the walk yields, the root first. */
    method Walk(dirs: seq<seq<seq<string>>>, decode: Decoder)
      modifies this
      ensures table == Accumulate(old(table), TreeCredits(dirs, decode))
      ensures numberOfRuns == old(numberOfRuns) + |dirs|
    {
      var d := 0;
      while d < |dirs|
        invariant 0 <= d <= |dirs|
        invariant table == Accumulate(old(table), TreeCredits(dirs[..d], decode))
        invariant numberOfRuns == old(numberOfRuns) + d
      {
        ghost var visited := TreeCredits(dirs[..d], decode);
        VisitDirectory(dirs[d], decode);
        AccumulateAppend(old(table), visited, DirCredits(dirs[d], decode));
        TreeCreditsSnoc(dirs[..d], dirs[d], decode);
        assert dirs[..d + 1] == dirs[..d] + [dirs[d]];
        d := d + 1;
      }
      assert dirs[..|dirs|] == dirs;
    }

    /** Lines 80-81 for one query: divide each of its entries by the run count, in place. */
    method DivideQuery(q: string) returns (r: Outcome)
      requires q in table
      modifies this
      ensures numberOfRuns == old(numberOfRuns)
      ensures r.Fail? <==> numberOfRuns == 0 && old(table)[q] != map[]
      ensures r.Fail? ==> r.error == ZeroDivision
      ensures table == old(table)[q := if numberOfRuns == 0 then old(table)[q] else DividedRow(old(table)[q], numberOfRuns)]
    {
      var pending := table[q].Keys;
      ghost var done: set<string> := {};
      while pending != {}
        invariant pending + done == old(table)[q].Keys && pending !! done
        invariant q in table && table == old(table)[q := table[q]]
        invariant table[q].Keys == old(table)[q].Keys
        invariant forall k :: k in pending ==> table[q][k] == old(table)[q][k]
        invariant numberOfRuns != 0 ==> forall k :: k in done ==> table[q][k] == old(table)[q][k] / (numberOfRuns as real)
        invariant numberOfRuns == 0 ==> done == {}
        invariant numberOfRuns == old(numberOfRuns)
        decreases pending
      {
        var k :| k in pending;
        if numberOfRuns == 0 {
          assert table[q] == old(table)[q];
          return Fail(ZeroDivision);
        }
        table := table[q := table[q][k := table[q][k] / (numberOfRuns as real)]];
        pending := pending - {k};
        done := done + {k};
      }
      r := Pass;
      if numberOfRuns != 0 {
        assert table[q] == DividedRow(old(table)[q], numberOfRuns);
      }
    }

    /** Lines 79-81: divide every entry of the table by the run count, in place. */
    method Average() returns (r: Outcome)
      modifies this
      ensures numberOfRuns == old(numberOfRuns)
      ensures r.Fail? ==> table == old(table) && AverageTable(table, numberOfRuns) == Err(r.error)
      ensures r.Pass? ==> AverageTable(old(table), numberOfRuns) == Ok(table)
    {
      var pending := table.Keys;
      ghost var done: set<string> := {};
      while pending != {}
        invariant pending + done == old(table).Keys && pending !! done
        invariant table.Keys == old(table).Keys
        invariant forall q :: q in pending ==> table[q] == old(table)[q]
        invariant numberOfRuns != 0 ==> forall q :: q in done ==> table[q] == DividedRow(old(table)[q], numberOfRuns)
        invariant numberOfRuns == 0 ==> forall q :: q in done ==> table[q] == old(table)[q] == map[]
        invariant numberOfRuns == old(numberOfRuns)
        decreases pending
      {
        var q :| q in pending;
        r := DivideQuery(q);
        if r.Fail? {
          assert table == old(table);
          return;
        }
        pending := pending - {q};
        done := done + {q};
      }
      r := Pass;
      if numberOfRuns != 0 {
        assert table == Divided(old(table), numberOfRuns);
      } else {
        assert table == old(table);
      }
    }

    /** Lines 82-88: the labels and the five series of queries 1..22, or the first KeyError. */
    method Extract() returns (r: Result<Chart>)
      ensures r == ExtractSpec(table)
    {
      var t := table;
      var xAxis: seq<string> := [];
      var search: seq<real> := [];
      var ineffective: seq<real> := [];
      var effective: seq<real> := [];
      var execution: seq<real> := [];
      var leftover: seq<real> := [];
      var i := 1;
      while i <= QueryCount
        invariant 1 <= i <= QueryCount + 1
        invariant FirstIncomplete(t, 1) == FirstIncomplete(t, i)
        invariant xAxis == LabelsUpTo(i - 1)
        invariant search == SeriesUpTo(t, "transformTime", i - 1)
        invariant ineffective == SeriesUpTo(t, "ineffectiveMatchTime", i - 1)
        invariant effective == SeriesUpTo(t, "effectiveMatchTime", i - 1)
        invariant execution == SeriesUpTo(t, "executorTime", i - 1)
        invariant leftover == LeftoverUpTo(t, i - 1)
      {
        // a missing id reads as an empty row, so the lookup fails on the metric name
        var row := RowOf(t, QueryKey(i));
        var missing := FirstMissing(row);
        if missing.Some? {
          ExtractFails(t);
          return Err(MissingMetric(QueryKey(i), missing.value));
        }
        ExtractStep(t, i);
        xAxis := xAxis + [Label(i)];
        search := search + [Seconds(row["transformTime"])];
        ineffective := ineffective + [Seconds(row["ineffectiveMatchTime"])];
        effective := effective + [Seconds(row["effectiveMatchTime"])];
        execution := execution + [Seconds(row["executorTime"])];
        leftover := leftover + [Seconds(Abs(row["applyTime"] - row["transformTime"]))];
        i := i + 1;
      }
      ExtractSucceeds(t);
      r := Ok(Chart(xAxis, search, ineffective, effective, execution, leftover));
    }
  }

  /** The whole script up to the chart: walk the tree, average, extract. */
  method Report(dirs: seq<seq<seq<string>>>, decode: Decoder) returns (r: Result<Chart>)
    ensures r == Pipeline(dirs, decode)
  {
    var aggregator := new Aggregator();
    aggregator.Walk(dirs, decode);
    var averaged := aggregator.Average();
    if averaged.Fail? {
      return Err(averaged.error);
    }
    r := aggregator.Extract();
  }

  /**
   * A chart needs at least one run directory besides the root: with fewer, either averaging
   * divides by zero or the extraction finds no metrics for query "1".
   */
  lemma ChartNeedsRuns(dirs: seq<seq<seq<string>>>, decode: Decoder)
    ensures Pipeline(dirs, decode).Ok? ==> |dirs| >= 2
  {
    if |dirs| <= 1 {
      var totals := Accumulate(map[], TreeCredits(dirs, decode));
      var avg := AverageTable(totals, |dirs| - 1);
      if |dirs| == 0 {
        assert totals == map[];
        assert RowOf(avg.value, QueryKey(1)) == map[];
      } else if avg.Ok? {
        assert !HasEntry(totals) && avg.value == totals;
        assert RowOf(avg.value, QueryKey(1)) == map[];
      }
    }
  }

  /** The mean of metric m of query q over the tree's records, taken over `runs` runs. */
  function MeanOverRuns(dirs: seq<seq<seq<string>>>, decode: Decoder, q: string, m: string, runs: int): real
    requires runs != 0
  {
    Total(TreeCredits(dirs, decode), q, m) / (runs as real)
  }

  /** The averaged entry (q, m) behind a chart is the sum over the tree's records divided by the run count. */
  lemma ChartEntryIsMean(dirs: seq<seq<seq<string>>>, decode: Decoder, q: string, m: string)
    requires |dirs| >= 2
    requires var avg := Averages(dirs, decode);
      q in avg.value && m in avg.value[q]
    ensures Averages(dirs, decode).value[q][m]
         == MeanOverRuns(dirs, decode, q, m, |dirs| - 1)
  {
    AverageIsMean(TreeCredits(dirs, decode), |dirs| - 1, q, m);
  }

  /** A chart comes from extracting the averaged table of a tree with at least one run. */
  lemma ChartOfAverages(dirs: seq<seq<seq<string>>>, decode: Decoder)
    requires Pipeline(dirs, decode).Ok?
    ensures |dirs| >= 2
    ensures var avg := Averages(dirs, decode);
      avg.Ok? && Pipeline(dirs, decode) == ExtractSpec(avg.value)
  {
    ChartNeedsRuns(dirs, decode);
  }

  /**
   * End to end: a charted series entry is the metric summed over every record credited to that
   * query in the whole tree, divided by directories - 1 and by 1e9.
   */
  lemma PipelineIsMeanOverRuns(dirs: seq<seq<seq<string>>>, decode: Decoder, j: nat)
    requires Pipeline(dirs, decode).Ok? && j < QueryCount
    ensures |dirs| >= 2
    ensures var c, q, runs := Pipeline(dirs, decode).value, QueryKey(j + 1), |dirs| - 1;
      && c.labels[j] == "Q" + q
      && c.search[j] == Seconds(MeanOverRuns(dirs, decode, q, "transformTime", runs))
      && c.ineffective[j] == Seconds(MeanOverRuns(dirs, decode, q, "ineffectiveMatchTime", runs))
      && c.effective[j] == Seconds(MeanOverRuns(dirs, decode, q, "effectiveMatchTime", runs))
      && c.execution[j] == Seconds(MeanOverRuns(dirs, decode, q, "executorTime", runs))
  {
    ChartOfAverages(dirs, decode);
    var q := QueryKey(j + 1);
    var avg := Averages(dirs, decode).value;
    ExtractValues(avg, j);
    assert q in avg && RowOf(avg, q) == avg[q];
    ChartEntryIsMean(dirs, decode, q, "transformTime");
    ChartEntryIsMean(dirs, decode, q, "ineffectiveMatchTime");
    ChartEntryIsMean(dirs, decode, q, "effectiveMatchTime");
    ChartEntryIsMean(dirs, decode, q, "executorTime");
  }

  /**
   * End to end: the charted leftover of a query is the gap between its mean applyTime and its
   * mean transformTime over the runs, in seconds.
   */
  lemma PipelineLeftoverIsGapOfMeans(dirs: seq<seq<seq<string>>>, decode: Decoder, j: nat)
    requires Pipeline(dirs, decode).Ok? && j < QueryCount
    ensures |dirs| >= 2
    ensures var c, q, runs := Pipeline(dirs, decode).value, QueryKey(j + 1), |dirs| - 1;
      c.leftover[j] == Seconds(Abs(MeanOverRuns(dirs, decode, q, "applyTime", runs)
                                   - MeanOverRuns(dirs, decode, q, "transformTime", runs)))
  {
    LeftoverOfAverages(dirs, decode, j);
    ChartEntryIsMean(dirs, decode, QueryKey(j + 1), "transformTime");
    ChartEntryIsMean(dirs, decode, QueryKey(j + 1), "applyTime");
  }

  /** The charted leftover of a query is the gap between its two averaged entries, in seconds. */
  lemma LeftoverOfAverages(dirs: seq<seq<seq<string>>>, decode: Decoder, j: nat)
    requires Pipeline(dirs, decode).Ok? && j < QueryCount
    ensures |dirs| >= 2
    ensures Averages(dirs, decode).Ok?
    ensures var avg, q := Averages(dirs, decode).value, QueryKey(j + 1);
      && q in avg && "applyTime" in avg[q] && "transformTime" in avg[q]
      && Pipeline(dirs, decode).value.leftover[j] == Seconds(Abs(avg[q]["applyTime"] - avg[q]["transformTime"]))
  {
    ChartOfAverages(dirs, decode);
    var avg := Averages(dirs, decode).value;
    var q := QueryKey(j + 1);
    ExtractValues(avg, j);
    assert RowOf(avg, q) == avg[q];
  }

  /**
   * One run directory holding one file with `Query 3."` and then a data line: the run count is
   * 1, the averaged row "3" is that record, its leftover is 0.5 s when the record has
   * transformTime 2e9 and applyTime 2.5e9 ns, and no chart is drawn because query "1" is missing.
   */
  lemma SingleRunScenario(dataLine: string, decode: Decoder)
    requires IsDataLine(dataLine) && QueryMarker(dataLine).None?
    requires decode(Clean(dataLine)) == map["transformTime" := 2000000000.0, "applyTime" := 2500000000.0]
    ensures var dirs := [[], [["Query 3.\"", dataLine]]];
      && Averages(dirs, decode) == Ok(map["3" := decode(Clean(dataLine))])
      && Untracked(decode(Clean(dataLine))) == 0.5
      && Pipeline(dirs, decode) == Err(MissingMetric("1", "transformTime"))
  {
    var record := decode(Clean(dataLine));
    assert "applyTime" in record;
    SingleRunAverages(dataLine, decode);
    MissingFirstQueryIsFatal(map["3" := record]);
    assert Abs(2500000000.0 - 2000000000.0) == 500000000.0;
  }

  /** The averaged table of the single-run tree above is the one record, under "3". */
  lemma SingleRunAverages(dataLine: string, decode: Decoder)
    requires IsDataLine(dataLine) && QueryMarker(dataLine).None?
    requires decode(Clean(dataLine)) != map[]
    ensures var dirs := [[], [["Query 3.\"", dataLine]]];
      Averages(dirs, decode) == Ok(map["3" := decode(Clean(dataLine))])
  {
    var record := decode(Clean(dataLine));
    var file := ["Query 3.\"", dataLine];
    assert TreeCredits([[], [file]], decode) == [Credit("3", record)] by {
      assert "Query " + DecimalString(3) + ".\"" == "Query 3.\"";
      MarkedRecordFile(3, dataLine, decode);
      SingleFileDir(file, decode);
      SingleRunTree([file], decode);
    }
    OneRecordTable("3", record);
    AverageOverOneRun(map["3" := record]);
  }

  /**
   * Two run directories whose files credit transformTime 1e9 and 3e9 ns to query 5: the
   * averaged entry is 2e9 ns, 2.0 s in the chart's units.
   */
  lemma TwoRunScenario(line1: string, line2: string, decode: Decoder)
    requires IsDataLine(line1) && QueryMarker(line1).None?
    requires IsDataLine(line2) && QueryMarker(line2).None?
    requires decode(Clean(line1)) == map["transformTime" := 1000000000.0]
    requires decode(Clean(line2)) == map["transformTime" := 3000000000.0]
    ensures var dirs := [[], [["Query 5.\"", line1]], [["Query 5.\"", line2]]];
      var avg := Averages(dirs, decode);
      && avg.Ok? && "5" in avg.value && "transformTime" in avg.value["5"]
      && avg.value["5"]["transformTime"] == 2000000000.0
      && Seconds(avg.value["5"]["transformTime"]) == 2.0
  {
    var c1, c2 := Credit("5", decode(Clean(line1))), Credit("5", decode(Clean(line2)));
    TwoRunCredits(line1, line2, decode);
    var cs := [c1, c2];
    assert Total(cs, "5", "transformTime") == 4000000000.0 by {
      TotalOfTwo(c1, c2, "5", "transformTime");
      assert Share(c1, "5", "transformTime") == 1000000000.0;
      assert Share(c2, "5", "transformTime") == 3000000000.0;
    }
    assert "transformTime" in RowOf(Accumulate(map[], cs), "5") by {
      AccumulateEntries(map[], cs, "5", "transformTime");
      assert cs[0].query == "5" && "transformTime" in cs[0].data;
    }
    HalfOfTwoRuns(cs, "5", "transformTime", 4000000000.0);
  }

  /** The two-run tree above credits the two records to "5", in walk order. */
  lemma TwoRunCredits(line1: string, line2: string, decode: Decoder)
    requires IsDataLine(line1) && QueryMarker(line1).None?
    requires IsDataLine(line2) && QueryMarker(line2).None?
    ensures TreeCredits([[], [["Query 5.\"", line1]], [["Query 5.\"", line2]]], decode)
         == [Credit("5", decode(Clean(line1))), Credit("5", decode(Clean(line2)))]
  {
    var f1, f2 := ["Query 5.\"", line1], ["Query 5.\"", line2];
    assert "Query " + DecimalString(5) + ".\"" == "Query 5.\"";
    MarkedRecordFile(5, line1, decode);
    MarkedRecordFile(5, line2, decode);
    SingleFileDir(f1, decode);
    SingleFileDir(f2, decode);
    SingleRunTree([f1], decode);
    TreeCreditsSnoc([[], [f1]], [f2], decode);
    assert [[], [f1]] + [[f2]] == [[], [f1], [f2]];
  }

  /** Over two runs, an averaged entry is half the sum of the metric. */
  lemma HalfOfTwoRuns(cs: seq<Credit>, q: string, k: string, total: real)
    requires k in RowOf(Accumulate(map[], cs), q) && Total(cs, q, k) == total
    ensures AverageTable(Accumulate(map[], cs), 2).Ok?
    ensures AverageTable(Accumulate(map[], cs), 2).value[q][k] == total / 2.0
  {
    AverageIsMean(cs, 2, q, k);
  }

  /**
   * Data lines before the first marker of a file are credited to "0", and no row other than
   * "1".."22" (so neither "0" nor an id such as "07") can change the chart or the error.
   */
  lemma UnmarkedDataIsNeverCharted(lines: seq<string>, j: nat, decode: Decoder, t: Table, id: string, row: Row)
    requires j < |lines| && forall i :: 0 <= i <= j ==> QueryMarker(lines[i]).None?
    requires |id| >= 1 && id[0] == '0'
    ensures CurrentId(InitialId, lines[..j + 1]) == "0"
    ensures ExtractSpec(t[id := row]) == ExtractSpec(t)
  {
    CurrentIdWithoutMarker(InitialId, lines[..j + 1]);
    forall i | 1 <= i <= QueryCount
      ensures id != QueryKey(i)
    {
      LeadingZeroIdsAreNotRead(id, i);
    }
    ExtractReadsOnlyQueryRows(t, id, row);
  }
}
