/**
 * Series extraction: for the queries "1".."22", the labels "Q1".."Q22" and five series in
 * seconds read from the averaged table, or the KeyError of the first missing metric.
 */
module Extraction {
  import opened Results
  import opened Digits
  import opened Tables

  /** The queries read are "1" to QueryCount. */
  const QueryCount: nat := 22

  const NanosPerSecond: real := 1000000000.0

  /** The labels and the five parallel series the chart is drawn from. */
  datatype Chart = Chart(
    labels: seq<string>,
    search: seq<real>,
    ineffective: seq<real>,
    effective: seq<real>,
    execution: seq<real>,
    leftover: seq<real>)

  /** `str(i)`: the table key of query i. */
  function QueryKey(i: nat): string {
    DecimalString(i)
  }

  /** `"Q" + str(i)`: the label of query i. */
  function Label(i: nat): string {
    "Q" + DecimalString(i)
  }

  function Seconds(nanos: real): real {
    nanos / NanosPerSecond
  }

  function Abs(x: real): (r: real)
    ensures r >= 0.0 && (r == x || r == -x)
  {
    if x < 0.0 then -x else x
  }

  /** The row has the five metrics the extraction reads. */
  predicate Complete(row: Row) {
    && "transformTime" in row
    && "ineffectiveMatchTime" in row
    && "effectiveMatchTime" in row
    && "executorTime" in row
    && "applyTime" in row
  }

  /** The first metric missing from the row, in the order the extraction looks them up. */
  function FirstMissing(row: Row): (r: Option<string>)
    ensures r.None? <==> Complete(row)
    ensures r.Some? ==> r.value !in row
    ensures r == Some("transformTime") <==> "transformTime" !in row
    ensures r == Some("ineffectiveMatchTime") <==> "transformTime" in row && "ineffectiveMatchTime" !in row
    ensures r == Some("effectiveMatchTime")
         <==> "transformTime" in row && "ineffectiveMatchTime" in row && "effectiveMatchTime" !in row
    ensures r == Some("executorTime")
         <==> "transformTime" in row && "ineffectiveMatchTime" in row && "effectiveMatchTime" in row
              && "executorTime" !in row
    ensures r == Some("applyTime")
         <==> "transformTime" in row && "ineffectiveMatchTime" in row && "effectiveMatchTime" in row
              && "executorTime" in row && "applyTime" !in row
  {
    if "transformTime" !in row then Some("transformTime")
    else if "ineffectiveMatchTime" !in row then Some("ineffectiveMatchTime")
    else if "effectiveMatchTime" !in row then Some("effectiveMatchTime")
    else if "executorTime" !in row then Some("executorTime")
    else if "applyTime" !in row then Some("applyTime")
    else None
  }

  /** Every query from `from` to 22 has a complete row. */
  predicate CompleteFrom(t: Table, from: nat) {
    forall i :: from <= i <= QueryCount ==> Complete(RowOf(t, QueryKey(i)))
  }

  /**
   * The KeyError raised for the first query, from `from` on, whose row lacks a metric; a
   * query without a row reads as an empty row, so the error names its first metric.
   */
  function FirstIncomplete(t: Table, from: nat): (r: Option<Error>)
    requires 1 <= from
    ensures r.None? <==> CompleteFrom(t, from)
    decreases QueryCount + 1 - from
  {
    if from > QueryCount then None
    else match FirstMissing(RowOf(t, QueryKey(from)))
      case Some(metric) => Some(MissingMetric(QueryKey(from), metric))
      case None => FirstIncomplete(t, from + 1)
  }

  /**
   * The error found names the first query, from `from` on, whose row is incomplete, and the
   * first metric that row lacks.
   */
  lemma {:induction false} FirstIncompleteIsFirst(t: Table, from: nat)
    requires 1 <= from && FirstIncomplete(t, from).Some?
    ensures
      exists i :: from <= i <= QueryCount && !Complete(RowOf(t, QueryKey(i))) &&
        (forall j :: from <= j < i ==> Complete(RowOf(t, QueryKey(j)))) &&
        FirstIncomplete(t, from).value == MissingMetric(QueryKey(i), FirstMissing(RowOf(t, QueryKey(i))).value)
    decreases QueryCount + 1 - from
  {
    if FirstMissing(RowOf(t, QueryKey(from))).None? {
      FirstIncompleteIsFirst(t, from + 1);
      var i :| from + 1 <= i <= QueryCount && !Complete(RowOf(t, QueryKey(i))) &&
        (forall j :: from + 1 <= j < i ==> Complete(RowOf(t, QueryKey(j)))) &&
        FirstIncomplete(t, from + 1).value == MissingMetric(QueryKey(i), FirstMissing(RowOf(t, QueryKey(i))).value);
      assert forall j :: from <= j < i ==> Complete(RowOf(t, QueryKey(j)));
    }
  }

  /** The labels of queries 1..n. */
  function LabelsUpTo(n: nat): (r: seq<string>)
    ensures |r| == n
  {
    if n == 0 then [] else LabelsUpTo(n - 1) + [Label(n)]
  }

  /** Metric m of queries 1..n, in seconds (an absent metric reads as 0 here; ExtractSpec rules that out). */
  function SeriesUpTo(t: Table, m: string, n: nat): (r: seq<real>)
    ensures |r| == n
  {
    if n == 0 then [] else SeriesUpTo(t, m, n - 1) + [Seconds(Get(RowOf(t, QueryKey(n)), m))]
  }

  /** The untracked time of one query: |applyTime - transformTime|, in seconds. */
  function Untracked(row: Row): real {
    Seconds(Abs(Get(row, "applyTime") - Get(row, "transformTime")))
  }

  /** The untracked time of queries 1..n. */
  function LeftoverUpTo(t: Table, n: nat): (r: seq<real>)
    ensures |r| == n
  {
    if n == 0 then [] else LeftoverUpTo(t, n - 1) + [Untracked(RowOf(t, QueryKey(n)))]
  }

  /** Position j of the labels holds the label of query j + 1. */
  lemma {:induction false} LabelAt(n: nat, j: nat)
    requires j < n
    ensures LabelsUpTo(n)[j] == Label(j + 1)
    decreases n
  {
    if j < n - 1 {
      LabelAt(n - 1, j);
    }
  }

  /** Position j of the series and of the leftover holds query j + 1. */
  lemma {:induction false} UpToAt(t: Table, m: string, n: nat, j: nat)
    requires j < n
    ensures SeriesUpTo(t, m, n)[j] == Seconds(Get(RowOf(t, QueryKey(j + 1)), m))
    ensures LeftoverUpTo(t, n)[j] == Untracked(RowOf(t, QueryKey(j + 1)))
    decreases n
  {
    if j < n - 1 {
      UpToAt(t, m, n - 1, j);
    }
  }

  /** The untracked time is never negative. */
  lemma {:induction false} LeftoverNonNegative(t: Table, n: nat)
    ensures forall j :: 0 <= j < n ==> LeftoverUpTo(t, n)[j] >= 0.0
    decreases n
  {
    if n > 0 {
      LeftoverNonNegative(t, n - 1);
      assert forall j :: 0 <= j < n - 1 ==> LeftoverUpTo(t, n)[j] == LeftoverUpTo(t, n - 1)[j];
    }
  }

  /**
   * The extraction of lines 82-88: it succeeds exactly when queries 1..22 all have the five
   * metrics, and then yields 22 labels and five series of 22 values, the leftover never negative;
   * otherwise it fails with the KeyError of the first incomplete query.
   */
  function ExtractSpec(t: Table): (r: Result<Chart>)
    ensures r.Ok? <==> CompleteFrom(t, 1)
    ensures r.Err? ==> r.error == FirstIncomplete(t, 1).value
    ensures r.Ok? ==>
      var c := r.value;
      && |c.labels| == |c.search| == |c.ineffective| == |c.effective| == |c.execution| == |c.leftover| == QueryCount
      && forall j :: 0 <= j < QueryCount ==> c.leftover[j] >= 0.0
  {
    match FirstIncomplete(t, 1)
    case Some(e) => Err(e)
    case None =>
      LeftoverNonNegative(t, QueryCount);
      Ok(Chart(LabelsUpTo(QueryCount),
               SeriesUpTo(t, "transformTime", QueryCount),
               SeriesUpTo(t, "ineffectiveMatchTime", QueryCount),
               SeriesUpTo(t, "effectiveMatchTime", QueryCount),
               SeriesUpTo(t, "executorTime", QueryCount),
               LeftoverUpTo(t, QueryCount)))
  }

  /** When some query is incomplete, the extraction fails with the first such query's KeyError. */
  lemma ExtractFails(t: Table)
    requires FirstIncomplete(t, 1).Some?
    ensures ExtractSpec(t) == Err(FirstIncomplete(t, 1).value)
  {
  }

  /** When queries 1..22 are all complete, the extraction yields the full prefix series. */
  lemma ExtractSucceeds(t: Table)
    requires FirstIncomplete(t, 1).None?
    ensures ExtractSpec(t) == Ok(Chart(LabelsUpTo(QueryCount),
                                       SeriesUpTo(t, "transformTime", QueryCount),
                                       SeriesUpTo(t, "ineffectiveMatchTime", QueryCount),
                                       SeriesUpTo(t, "effectiveMatchTime", QueryCount),
                                       SeriesUpTo(t, "executorTime", QueryCount),
                                       LeftoverUpTo(t, QueryCount)))
  {
  }

  /** A complete query i moves the search for an incomplete query on and extends every series by its row. */
  lemma ExtractStep(t: Table, i: nat)
    requires 1 <= i <= QueryCount && Complete(RowOf(t, QueryKey(i)))
    ensures FirstIncomplete(t, i) == FirstIncomplete(t, i + 1)
    ensures var row := RowOf(t, QueryKey(i));
      && SeriesUpTo(t, "transformTime", i) == SeriesUpTo(t, "transformTime", i - 1) + [Seconds(row["transformTime"])]
      && SeriesUpTo(t, "ineffectiveMatchTime", i)
         == SeriesUpTo(t, "ineffectiveMatchTime", i - 1) + [Seconds(row["ineffectiveMatchTime"])]
      && SeriesUpTo(t, "effectiveMatchTime", i)
         == SeriesUpTo(t, "effectiveMatchTime", i - 1) + [Seconds(row["effectiveMatchTime"])]
      && SeriesUpTo(t, "executorTime", i) == SeriesUpTo(t, "executorTime", i - 1) + [Seconds(row["executorTime"])]
      && LeftoverUpTo(t, i) == LeftoverUpTo(t, i - 1) + [Seconds(Abs(row["applyTime"] - row["transformTime"]))]
  {
  }

  /**
   * With no row for query "1", the very first lookup fails: a KeyError naming transformTime,
   * whatever the other rows hold.
   */
  lemma MissingFirstQueryIsFatal(t: Table)
    requires "1" !in t
    ensures ExtractSpec(t) == Err(MissingMetric("1", "transformTime"))
  {
    assert QueryKey(1) == "1";
  }

  /**
   * The values of the chart: position j holds query j + 1, each series is that query's
   * averaged metric divided by 1e9, and the leftover is the gap between applyTime and
   * transformTime.
   */
  lemma ExtractValues(t: Table, j: nat)
    requires ExtractSpec(t).Ok? && j < QueryCount
    ensures var c, row := ExtractSpec(t).value, RowOf(t, QueryKey(j + 1));
      && QueryKey(j + 1) in t && Complete(row)
      && c.labels[j] == "Q" + QueryKey(j + 1)
      && c.search[j] == Seconds(row["transformTime"])
      && c.ineffective[j] == Seconds(row["ineffectiveMatchTime"])
      && c.effective[j] == Seconds(row["effectiveMatchTime"])
      && c.execution[j] == Seconds(row["executorTime"])
      && c.leftover[j] == Seconds(Abs(row["applyTime"] - row["transformTime"]))
  {
    assert Complete(RowOf(t, QueryKey(j + 1)));
    LabelAt(QueryCount, j);
    UpToAt(t, "transformTime", QueryCount, j);
    UpToAt(t, "ineffectiveMatchTime", QueryCount, j);
    UpToAt(t, "effectiveMatchTime", QueryCount, j);
    UpToAt(t, "executorTime", QueryCount, j);
  }

  /** The labels are "Q1".."Q22" in order, all different. */
  lemma LabelsDistinct(i: nat, j: nat)
    requires i < j < QueryCount
    ensures LabelsUpTo(QueryCount)[i] != LabelsUpTo(QueryCount)[j]
  {
    LabelAt(QueryCount, i);
    LabelAt(QueryCount, j);
    DecimalStringInjective(i + 1, j + 1);
    assert Label(i + 1)[1..] == DecimalString(i + 1);
    assert Label(j + 1)[1..] == DecimalString(j + 1);
  }

  /** An id with a leading zero, "0" included, is never a key the extraction reads. */
  lemma LeadingZeroIdsAreNotRead(id: string, i: nat)
    requires |id| >= 1 && id[0] == '0'
    requires 1 <= i
    ensures id != QueryKey(i)
  {
  }

  lemma {:induction false} FirstIncompleteIgnores(t: Table, id: string, row: Row, from: nat)
    requires 1 <= from
    requires forall i :: 1 <= i <= QueryCount ==> id != QueryKey(i)
    ensures FirstIncomplete(t[id := row], from) == FirstIncomplete(t, from)
    decreases QueryCount + 1 - from
  {
    if from <= QueryCount {
      assert RowOf(t[id := row], QueryKey(from)) == RowOf(t, QueryKey(from));
      FirstIncompleteIgnores(t, id, row, from + 1);
    }
  }

  lemma {:induction false} UpToIgnores(t: Table, id: string, row: Row, m: string, n: nat)
    requires n <= QueryCount
    requires forall i :: 1 <= i <= QueryCount ==> id != QueryKey(i)
    ensures SeriesUpTo(t[id := row], m, n) == SeriesUpTo(t, m, n)
    ensures LeftoverUpTo(t[id := row], n) == LeftoverUpTo(t, n)
    decreases n
  {
    if n > 0 {
      assert RowOf(t[id := row], QueryKey(n)) == RowOf(t, QueryKey(n));
      UpToIgnores(t, id, row, m, n - 1);
    }
  }

  /**
   * Only the rows of "1".."22" are read: changing or adding any other row (the unmarked
   * data under "0", or an id such as "07") changes neither the chart nor the error.
   */
  lemma ExtractReadsOnlyQueryRows(t: Table, id: string, row: Row)
    requires forall i :: 1 <= i <= QueryCount ==> id != QueryKey(i)
    ensures ExtractSpec(t[id := row]) == ExtractSpec(t)
  {
    FirstIncompleteIgnores(t, id, row, 1);
    UpToIgnores(t, id, row, "transformTime", QueryCount);
    UpToIgnores(t, id, row, "ineffectiveMatchTime", QueryCount);
    UpToIgnores(t, id, row, "effectiveMatchTime", QueryCount);
    UpToIgnores(t, id, row, "executorTime", QueryCount);
  }
}
