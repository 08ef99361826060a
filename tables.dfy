/**
 * The aggregate table `query id -> metric name -> value` and the operations on it as values:
 * adding one decoded record, folding a sequence of records, and averaging by the run count.
 */
module Tables {
  import opened Results

  /** One record's metrics, or one query's row of the table. */
  type Row = map<string, real>

  type Table = map<string, Row>

  /** A decoded data record credited to the query id current on its line. */
  datatype Credit = Credit(query: string, data: Row)

  /** The row of query q, empty when q has none yet. */
  function RowOf(t: Table, q: string): Row {
    if q in t then t[q] else map[]
  }

  /** The value of metric k in a row, 0 when absent (the lazily created entry). */
  function Get(row: Row, k: string): real {
    if k in row then row[k] else 0.0
  }

  /**
   * The table after adding record `data` under query q (lines 67-70): each metric of the
   * record is added to its old value, or to 0 when the row lacks it.
   */
  function WithRecord(t: Table, q: string, data: Row): Table {
    if data == map[] then t
    else
      var row := RowOf(t, q);
      t[q := map k | k in row.Keys + data.Keys :: if k in data then Get(row, k) + data[k] else row[k]]
  }

  /**
   * Adding a record changes only the row of its query, creates that row only when the record
   * has a metric, adds each metric of the record to the old value or to 0, and leaves the
   * other metrics of the row as they were.
   */
  lemma WithRecordFrame(t: Table, q: string, data: Row)
    ensures var r := WithRecord(t, q, data);
      && (forall q' :: q' != q ==> RowOf(r, q') == RowOf(t, q') && (q' in r <==> q' in t))
      && (q in r <==> q in t || data != map[])
      && RowOf(r, q).Keys == RowOf(t, q).Keys + data.Keys
      && (forall k :: k in data ==> RowOf(r, q)[k] == Get(RowOf(t, q), k) + data[k])
      && (forall k :: k in RowOf(t, q) && k !in data ==> RowOf(r, q)[k] == RowOf(t, q)[k])
  {
  }

  /** The table after adding the records of cs, in order, to t. */
  function Accumulate(t: Table, cs: seq<Credit>): Table
    decreases |cs|
  {
    if cs == [] then t
    else
      var c := cs[|cs| - 1];
      WithRecord(Accumulate(t, cs[..|cs| - 1]), c.query, c.data)
  }

  /** The sum of metric k over the records credited to query q: the reference for the table. */
  function Total(cs: seq<Credit>, q: string, k: string): real
    decreases |cs|
  {
    if cs == [] then 0.0
    else
      var c := cs[|cs| - 1];
      Total(cs[..|cs| - 1], q, k) + Share(c, q, k)
  }

  /** What one record adds to the entry (q, k). */
  function Share(c: Credit, q: string, k: string): real {
    if c.query == q then Get(c.data, k) else 0.0
  }

  /** The sum over two records is the sum of their shares. */
  lemma TotalOfTwo(c1: Credit, c2: Credit, q: string, k: string)
    ensures Total([c1, c2], q, k) == Share(c1, q, k) + Share(c2, q, k)
  {
    assert [c1, c2][..1] == [c1] && [c1][..0] == [];
    assert Total([c1], q, k) == Share(c1, q, k);
  }

  /** Some record credited to query q carries metric k. */
  ghost predicate Contributes(cs: seq<Credit>, q: string, k: string) {
    exists i :: 0 <= i < |cs| && cs[i].query == q && k in cs[i].data
  }

  /** Some record credited to query q carries at least one metric. */
  ghost predicate Touches(cs: seq<Credit>, q: string) {
    exists i :: 0 <= i < |cs| && cs[i].query == q && cs[i].data != map[]
  }

  /** Folding one more record is one more WithRecord. */
  lemma AccumulateSnoc(t: Table, cs: seq<Credit>, c: Credit)
    ensures Accumulate(t, cs + [c]) == WithRecord(Accumulate(t, cs), c.query, c.data)
  {
    assert (cs + [c])[..|cs|] == cs;
  }

  /** Folding records one at a time over all of a then all of b is folding a + b. */
  lemma {:induction false} AccumulateAppend(t: Table, a: seq<Credit>, b: seq<Credit>)
    ensures Accumulate(t, a + b) == Accumulate(Accumulate(t, a), b)
    decreases |b|
  {
    if b != [] {
      var b', ab := b[..|b| - 1], a + b;
      assert ab[..|ab| - 1] == a + b';
      assert ab[|ab| - 1] == b[|b| - 1];
      AccumulateAppend(t, a, b');
      calc {
        Accumulate(t, ab);
        WithRecord(Accumulate(t, a + b'), b[|b| - 1].query, b[|b| - 1].data);
        WithRecord(Accumulate(Accumulate(t, a), b'), b[|b| - 1].query, b[|b| - 1].data);
        Accumulate(Accumulate(t, a), b);
      }
    } else {
      assert a + b == a;
    }
  }

  /**
   * Each entry of the folded table is its starting value plus the sum of the metric over the
   * records credited to its query.
   */
  lemma {:induction false} AccumulateIsTotal(t: Table, cs: seq<Credit>, q: string, k: string)
    ensures Get(RowOf(Accumulate(t, cs), q), k) == Get(RowOf(t, q), k) + Total(cs, q, k)
    decreases |cs|
  {
    if cs != [] {
      var c := cs[|cs| - 1];
      AccumulateIsTotal(t, cs[..|cs| - 1], q, k);
      WithRecordFrame(Accumulate(t, cs[..|cs| - 1]), c.query, c.data);
    }
  }

  /**
   * An entry of the folded table exists exactly when it existed before or some record credited
   * to its query carries the metric.
   */
  lemma {:induction false} AccumulateEntries(t: Table, cs: seq<Credit>, q: string, k: string)
    ensures k in RowOf(Accumulate(t, cs), q) <==> k in RowOf(t, q) || Contributes(cs, q, k)
    decreases |cs|
  {
    if cs != [] {
      var cs', c := cs[..|cs| - 1], cs[|cs| - 1];
      AccumulateEntries(t, cs', q, k);
      WithRecordFrame(Accumulate(t, cs'), c.query, c.data);
      if Contributes(cs', q, k) {
        var i :| 0 <= i < |cs'| && cs'[i].query == q && k in cs'[i].data;
        assert cs[i] == cs'[i];
      }
      if Contributes(cs, q, k) && !(c.query == q && k in c.data) {
        var i :| 0 <= i < |cs| && cs[i].query == q && k in cs[i].data;
        assert i < |cs'| && cs'[i] == cs[i];
      }
    }
  }

  /**
   * A row of the folded table exists exactly when it existed before or some non-empty record
   * was credited to its query.
   */
  lemma {:induction false} AccumulateRows(t: Table, cs: seq<Credit>, q: string)
    ensures q in Accumulate(t, cs) <==> q in t || Touches(cs, q)
    decreases |cs|
  {
    if cs != [] {
      var cs', c := cs[..|cs| - 1], cs[|cs| - 1];
      AccumulateRows(t, cs', q);
      WithRecordFrame(Accumulate(t, cs'), c.query, c.data);
      if Touches(cs', q) {
        var i :| 0 <= i < |cs'| && cs'[i].query == q && cs'[i].data != map[];
        assert cs[i] == cs'[i];
      }
      if Touches(cs, q) && !(c.query == q && c.data != map[]) {
        var i :| 0 <= i < |cs| && cs[i].query == q && cs[i].data != map[];
        assert i < |cs'| && cs'[i] == cs[i];
      }
    }
  }

  /** Some row of the table holds an entry, so averaging performs at least one division. */
  predicate HasEntry(t: Table) {
    exists q :: q in t && t[q] != map[]
  }

  function DividedRow(row: Row, n: int): Row
    requires n != 0
  {
    map k | k in row :: row[k] / (n as real)
  }

  /** Every entry divided by n, in place. */
  function Divided(t: Table, n: int): Table
    requires n != 0
  {
    map q | q in t :: DividedRow(t[q], n)
  }

  /**
   * The averaging pass: every entry divided by the run count n. Dividing raises only when there
   * is an entry to divide and n is 0; the ids and metric names stay as they were.
   */
  function AverageTable(t: Table, n: int): (r: Result<Table>)
    ensures r.Err? <==> n == 0 && HasEntry(t)
    ensures r.Err? ==> r.error == ZeroDivision
    ensures r.Ok? ==> r.value.Keys == t.Keys
    ensures r.Ok? ==> forall q :: q in t ==> r.value[q].Keys == t[q].Keys
  {
    if n == 0 then (if HasEntry(t) then Err(ZeroDivision) else Ok(t))
    else Ok(Divided(t, n))
  }

  /** Each averaged entry, multiplied back by the run count, is the entry it replaced. */
  lemma AverageEntries(t: Table, n: int)
    requires AverageTable(t, n).Ok?
    ensures forall q, k :: q in t && k in t[q] ==> AverageTable(t, n).value[q][k] * (n as real) == t[q][k]
  {
  }

  /** Over a single run, averaging leaves the table as it is. */
  lemma AverageOverOneRun(t: Table)
    ensures AverageTable(t, 1) == Ok(t)
  {
    assert Divided(t, 1) == t by {
      forall q | q in t ensures DividedRow(t[q], 1) == t[q] {
        assert DividedRow(t[q], 1).Keys == t[q].Keys;
      }
    }
  }

  /** Folding a single non-empty record into an empty table gives that record as the only row. */
  lemma OneRecordTable(q: string, data: Row)
    requires data != map[]
    ensures Accumulate(map[], [Credit(q, data)]) == map[q := data]
  {
    assert [Credit(q, data)][..0] == [];
    WithRecordFrame(map[], q, data);
    assert RowOf(WithRecord(map[], q, data), q) == data;
  }

  /** After folding records into an empty table, an averaged entry is the mean over n runs. */
  lemma AverageIsMean(cs: seq<Credit>, n: int, q: string, k: string)
    requires n != 0
    requires k in RowOf(Accumulate(map[], cs), q)
    ensures AverageTable(Accumulate(map[], cs), n).Ok?
    ensures AverageTable(Accumulate(map[], cs), n).value[q][k] == Total(cs, q, k) / (n as real)
  {
    AccumulateIsTotal(map[], cs, q, k);
  }

  /** The sum over the records of a then b is the sum over a plus the sum over b. */
  lemma {:induction false} TotalAppend(a: seq<Credit>, b: seq<Credit>, q: string, k: string)
    ensures Total(a + b, q, k) == Total(a, q, k) + Total(b, q, k)
    decreases |b|
  {
    if b == [] {
      assert a + b == a;
    } else {
      var b', ab := b[..|b| - 1], a + b;
      assert ab[..|ab| - 1] == a + b';
      assert ab[|ab| - 1] == b[|b| - 1];
      TotalAppend(a, b', q, k);
    }
  }
}
