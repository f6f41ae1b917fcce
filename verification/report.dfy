/** The on-demand report's query (index.js:70-74): `SELECT date, type,
    amount FROM transactions WHERE date BETWEEN ? AND ? ORDER BY date`, and
    what `!generateReport` gets from it when it calls `generateChart()`
    without arguments (index.js:242). */
module Report {
  import opened Seqs
  import opened Text
  import opened Store
  import opened Chart

  /** `date BETWEEN lo AND hi`. A missing bound is SQL NULL: comparing with
      NULL is never true, so no row passes. */
  predicate Between(d: string, lo: Option<string>, hi: Option<string>) {
    lo.Some? && hi.Some? && TextLeq(lo.value, d) && TextLeq(d, hi.value)
  }

  /** Ascending by date. */
  ghost predicate SortedByDate(rows: seq<Row>) {
    forall i, j :: 0 <= i < j < |rows| ==> TextLeq(rows[i].date, rows[j].date)
  }

  /** Puts `x` in front of the first row it does not come after. */
  function InsertByDate(x: Row, rows: seq<Row>): (r: seq<Row>)
    requires SortedByDate(rows)
    ensures SortedByDate(r)
    ensures multiset(r) == multiset(rows) + multiset{x}
    decreases |rows|
  {
    if |rows| == 0 then [x]
    else if TextLeq(x.date, rows[0].date) then
      LeqFirstLeqAll(x, rows);
      [x] + rows
    else
      TextLeqTotal(x.date, rows[0].date);
      var tail := InsertByDate(x, rows[1..]);
      KeepFirst(x, rows, tail);
      [rows[0]] + tail
  }

  lemma LeqFirstLeqAll(x: Row, rows: seq<Row>)
    requires SortedByDate(rows) && |rows| > 0 && TextLeq(x.date, rows[0].date)
    ensures SortedByDate([x] + rows)
  {
    var r := [x] + rows;
    forall i, j | 0 <= i < j < |r|
      ensures TextLeq(r[i].date, r[j].date)
    {
      if i == 0 && j > 1 {
        TextLeqTransitive(x.date, rows[0].date, rows[j - 1].date);
      }
    }
  }

  /** The first row stays in front when `x` goes further back. */
  lemma KeepFirst(x: Row, rows: seq<Row>, tail: seq<Row>)
    requires SortedByDate(rows) && |rows| > 0 && TextLeq(rows[0].date, x.date)
    requires SortedByDate(tail) && multiset(tail) == multiset(rows[1..]) + multiset{x}
    ensures SortedByDate([rows[0]] + tail)
    ensures multiset([rows[0]] + tail) == multiset(rows) + multiset{x}
  {
    assert rows == [rows[0]] + rows[1..];
    forall z | z in multiset(tail)
      ensures TextLeq(rows[0].date, z.date)
    {
      if z != x {
        assert z in rows[1..];
      }
    }
    FirstLeqAll(rows[0], tail);
  }

  lemma FirstLeqAll(y: Row, tail: seq<Row>)
    requires SortedByDate(tail)
    requires forall z :: z in multiset(tail) ==> TextLeq(y.date, z.date)
    ensures SortedByDate([y] + tail)
  {
    var r := [y] + tail;
    forall i, j | 0 <= i < j < |r|
      ensures TextLeq(r[i].date, r[j].date)
    {
      if i == 0 {
        assert r[j] in multiset(tail);
      }
    }
  }

  /** `ORDER BY date`: the same rows, ascending by date. */
  function SortByDate(rows: seq<Row>): (r: seq<Row>)
    ensures SortedByDate(r)
    ensures multiset(r) == multiset(rows)
    decreases |rows|
  {
    if |rows| == 0 then []
    else
      assert rows == [rows[0]] + rows[1..];
      InsertByDate(rows[0], SortByDate(rows[1..]))
  }

  /** The report query for the bounds it is given. */
  function ChartQuery(l: Ledger, lo: Option<string>, hi: Option<string>): seq<Row> {
    SortByDate(Where(l.rows, (r: Row) => Between(r.date, lo, hi)))
  }

  /** What `!generateReport` charts as written: `generateChart()` passes no
      bounds. */
  function ReportAsWritten(l: Ledger): Buckets {
    Bucket(ChartQuery(l, None, None))
  }

  /** As written the report is always empty, whatever the table holds: no
      date labels, and only the nine preset datasets, all empty. */
  lemma ReportAlwaysEmpty(l: Ledger)
    ensures ReportAsWritten(l).labels == []
    ensures ReportAsWritten(l).keys == Presets
    ensures forall k :: k in Presets ==> k in ReportAsWritten(l).data && ReportAsWritten(l).data[k] == []
  {
    WhereNone(l.rows, (r: Row) => Between(r.date, None, None));
  }

  /** The report for the week [lo, hi] that its reply announces. */
  function WeekReport(l: Ledger, lo: string, hi: string): Buckets {
    Bucket(ChartQuery(l, Some(lo), Some(hi)))
  }

  /** With its bounds supplied, the query returns each row dated inside
      the window, as many times as the table holds it, and no other row,
      ascending by date. */
  lemma ChartQueryWindow(l: Ledger, lo: string, hi: string)
    ensures multiset(ChartQuery(l, Some(lo), Some(hi))) == multiset(RowsInWindow(l, lo, hi))
    ensures forall r :: r in ChartQuery(l, Some(lo), Some(hi)) <==> r in l.rows && InWindow(r, lo, hi)
    ensures SortedByDate(ChartQuery(l, Some(lo), Some(hi)))
  {
    var w := Where(l.rows, (r: Row) => Between(r.date, Some(lo), Some(hi)));
    WhereSame(l.rows, (r: Row) => Between(r.date, Some(lo), Some(hi)), (r: Row) => InWindow(r, lo, hi));
    assert w == RowsInWindow(l, lo, hi);
    SameMembers(ChartQuery(l, Some(lo), Some(hi)), w);
  }

  /** Sequences holding the same multiset hold the same elements. */
  lemma SameMembers(a: seq<Row>, b: seq<Row>)
    requires multiset(a) == multiset(b)
    ensures forall r :: r in a <==> r in b
  {
    forall r ensures r in a <==> r in b {
      assert r in a <==> r in multiset(a);
      assert r in b <==> r in multiset(b);
    }
  }

  /** Two conditions that agree on every row select the same rows. */
  lemma {:induction false} WhereSame(rows: seq<Row>, p: Row -> bool, q: Row -> bool)
    requires forall x :: p(x) == q(x)
    ensures Where(rows, p) == Where(rows, q)
    decreases |rows|
  {
    if |rows| > 0 {
      WhereSame(rows[..|rows| - 1], p, q);
    }
  }

  /** Collecting an ascending sequence gives a strictly ascending one. */
  lemma {:induction false} CollectSorted(xs: seq<string>)
    requires forall i, j :: 0 <= i < j < |xs| ==> TextLeq(xs[i], xs[j])
    ensures forall i, j :: 0 <= i < j < |Collect([], xs)| ==>
      TextLeq(Collect([], xs)[i], Collect([], xs)[j]) && Collect([], xs)[i] != Collect([], xs)[j]
    decreases |xs|
  {
    CollectIsFirstOccurrences([], xs);
    if |xs| > 0 {
      var p := xs[..|xs| - 1];
      var x := xs[|xs| - 1];
      CollectSorted(p);
      CollectIsFirstOccurrences([], p);
      var r0 := Collect([], p);
      forall i | 0 <= i < |r0|
        ensures TextLeq(r0[i], x)
      {
        var k :| 0 <= k < |p| && p[k] == r0[i];
        assert xs[k] == p[k];
      }
    }
  }

  /** The week report's date labels come out strictly ascending. */
  lemma WeekReportLabelsAscending(l: Ledger, lo: string, hi: string)
    ensures var ls := WeekReport(l, lo, hi).labels;
      forall i, j :: 0 <= i < j < |ls| ==> TextLeq(ls[i], ls[j]) && ls[i] != ls[j]
  {
    var q := ChartQuery(l, Some(lo), Some(hi));
    var ds := Column(q, Date);
    assert forall i, j :: 0 <= i < j < |ds| ==> TextLeq(ds[i], ds[j]);
    BucketInv(q);
    CollectSorted(ds);
  }
}
