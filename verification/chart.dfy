/** The row bucketing of the on-demand report chart (index.js:80-104): rows
    of `(date, type, amount)` become a list of date labels and, per dataset
    key, an array of per-label sums. */
module Chart {
  import opened Seqs
  import opened Store

  /** The nine dataset keys the chart starts with, in declaration order. */
  const Presets: seq<string> := [
    "Entertainment & Shopping", "Dining", "Transportation", "Daily Necessities",
    "Shipping Cost", "Gambling", "Sell Price", "Pocket Money", "Gambling (Friends)"
  ]

  /** A JavaScript array of numbers that may contain holes (`None`). */
  type Series = seq<Option<int>>

  /** `a[i] || 0`: a hole, or an index past the end, reads as 0. */
  function Read(a: Series, i: nat): int {
    if i < |a| && a[i].Some? then a[i].value else 0
  }

  /** `a[i] = v`: writing past the end stretches the array with holes. */
  function Write(a: Series, i: nat, v: int): (a': Series)
    ensures |a'| == if i < |a| then |a| else i + 1
    ensures forall j: nat :: Read(a', j) == if j == i then v else Read(a, j)
  {
    if i < |a| then a[i := Some(v)]
    else a + seq(i - |a|, _ => None) + [Some(v)]
  }

  /** The chart's `labels` array, the key order of its `data` object, and
      `data` itself. */
  datatype Buckets = Buckets(labels: seq<string>, keys: seq<string>, data: map<string, Series>)

  /** `labels = []` and `data` holding an empty array under every preset. */
  function Start(): Buckets {
    Buckets([], Presets, map k | k in Presets :: [])
  }

  /** The body of `rows.forEach` (index.js:93-102). */
  function AddRow(b: Buckets, r: Row): Buckets {
    var labels := AppendNew(b.labels, r.date);
    var known := r.kind in b.data;
    var keys := if known then b.keys else b.keys + [r.kind];
    var series := if known then b.data[r.kind] else seq(|labels|, _ => Some(0));
    var i := IndexOf(labels, r.date);
    Buckets(labels, keys, b.data[r.kind := Write(series, i, Read(series, i) + r.amount)])
  }

  /** The whole fold over the query's rows, in the order the query returns them. */
  function Bucket(rows: seq<Row>): Buckets
    decreases |rows|
  {
    if |rows| == 0 then Start() else AddRow(Bucket(rows[..|rows| - 1]), rows[|rows| - 1])
  }

  /** `data[k][i]`, reading a missing dataset or a hole as 0. */
  function Cell(b: Buckets, k: string, i: nat): int {
    if k in b.data then Read(b.data[k], i) else 0
  }

  lemma PresetsDistinct()
    ensures Distinct(Presets)
  {
  }

  /** What the fold keeps true after every row. */
  ghost predicate Inv(b: Buckets, rows: seq<Row>) {
    && b.labels == Collect([], Column(rows, Date))
    && b.keys == Collect(Presets, Column(rows, Kind))
    && Distinct(b.labels)
    && (forall d :: d in b.labels <==> d in Column(rows, Date))
    && (forall k :: k in b.data <==> k in b.keys)
    && (forall k :: k in Column(rows, Kind) ==> k in b.data)
    && (forall k :: k in b.data ==> |b.data[k]| <= |b.labels|)
    && (forall k, j :: k in b.data && 0 <= j < |b.labels| ==>
          Read(b.data[k], j) == TotalWhere(rows, OfKind(k), Date, b.labels[j]))
  }

  lemma StartInv()
    ensures Inv(Start(), [])
  {
    PresetsDistinct();
    CollectDistinct(Presets);
  }

  /** One more step of a Collect fold over a column. */
  lemma CollectColumnSnoc(acc: seq<string>, rows: seq<Row>, r: Row, f: Field)
    ensures Collect(acc, Column(rows + [r], f)) == AppendNew(Collect(acc, Column(rows, f)), Attr(r, f))
  {
    ColumnSnoc(rows, r, f);
    var c := Column(rows + [r], f);
    assert c[..|c| - 1] == Column(rows, f);
  }

  lemma AddRowLabels(b: Buckets, rows: seq<Row>, r: Row)
    requires b.labels == Collect([], Column(rows, Date))
    requires Distinct(b.labels)
    requires forall d :: d in b.labels <==> d in Column(rows, Date)
    ensures var b' := AddRow(b, r);
      && b'.labels == Collect([], Column(rows + [r], Date))
      && Distinct(b'.labels)
      && (forall d :: d in b'.labels <==> d in Column(rows + [r], Date))
  {
    CollectColumnSnoc([], rows, r, Date);
    ColumnSnoc(rows, r, Date);
  }

  lemma AddRowKeys(b: Buckets, rows: seq<Row>, r: Row)
    requires b.keys == Collect(Presets, Column(rows, Kind))
    requires forall k :: k in b.data <==> k in b.keys
    requires forall k :: k in Column(rows, Kind) ==> k in b.data
    requires forall k :: k in b.data ==> |b.data[k]| <= |b.labels|
    ensures var b' := AddRow(b, r);
      && b'.keys == Collect(Presets, Column(rows + [r], Kind))
      && (forall k :: k in b'.data <==> k in b'.keys)
      && (forall k :: k in Column(rows + [r], Kind) ==> k in b'.data)
      && (forall k :: k in b'.data ==> |b'.data[k]| <= |b'.labels|)
  {
    CollectColumnSnoc(Presets, rows, r, Kind);
    ColumnSnoc(rows, r, Kind);
  }

  /** Before the row, each cell (new label included) held the earlier rows' sum. */
  lemma CellBeforeIsTotal(b: Buckets, rows: seq<Row>, r: Row, k: string, j: nat)
    requires Inv(b, rows)
    requires j < |AppendNew(b.labels, r.date)|
    ensures Cell(b, k, j) == TotalWhere(rows, OfKind(k), Date, AppendNew(b.labels, r.date)[j])
  {
    if k in b.data && j < |b.labels| {
      assert AppendNew(b.labels, r.date)[j] == b.labels[j];
    } else if k in b.data {
      NewLabelIsZero(b, rows, r, k);
    } else {
      MissingDatasetIsZero(b, rows, k, AppendNew(b.labels, r.date)[j]);
    }
  }

  /** A date not yet among the labels has no rows, so its cell sums to 0. */
  lemma NewLabelIsZero(b: Buckets, rows: seq<Row>, r: Row, k: string)
    requires Inv(b, rows)
    requires r.date !in b.labels
    ensures TotalWhere(rows, OfKind(k), Date, r.date) == 0
  {
    ColumnHas(rows, Date);
    TotalWhereAbsent(rows, OfKind(k), Date, r.date);
  }

  /** A type with no dataset has no rows, so any date sums to 0 for it. */
  lemma MissingDatasetIsZero(b: Buckets, rows: seq<Row>, k: string, d: string)
    requires Inv(b, rows)
    requires k !in b.data
    ensures TotalWhere(rows, OfKind(k), Date, d) == 0
  {
    ColumnHas(rows, Kind);
    TotalWhereAbsent(rows, OfKind(k), Date, d);
  }

  /** One cell after one more row. */
  lemma AddRowCell(b: Buckets, rows: seq<Row>, r: Row, k: string, j: nat)
    requires Distinct(AppendNew(b.labels, r.date))
    requires j < |AppendNew(b.labels, r.date)|
    requires Cell(b, k, j) == TotalWhere(rows, OfKind(k), Date, AppendNew(b.labels, r.date)[j])
    requires k in AddRow(b, r).data
    ensures Read(AddRow(b, r).data[k], j) == TotalWhere(rows + [r], OfKind(k), Date, AddRow(b, r).labels[j])
  {
    var rows' := rows + [r];
    var d := AppendNew(b.labels, r.date)[j];
    assert rows'[..|rows'| - 1] == rows;
    assert TotalWhere(rows', OfKind(k), Date, d)
        == TotalWhere(rows, OfKind(k), Date, d) + Share(r, OfKind(k), Date, d);
    if k == r.kind {
      AddRowOwnCell(b, r, j);
    }
  }

  /** The row's own dataset gains its amount in the cell of its date only. */
  lemma AddRowOwnCell(b: Buckets, r: Row, j: nat)
    requires Distinct(AppendNew(b.labels, r.date))
    requires j < |AppendNew(b.labels, r.date)|
    ensures var d := AppendNew(b.labels, r.date)[j];
      Read(AddRow(b, r).data[r.kind], j) == Cell(b, r.kind, j) + (if d == r.date then r.amount else 0)
  {
    var labels := AppendNew(b.labels, r.date);
    var i := IndexOf(labels, r.date);
    assert (j == i) == (labels[j] == r.date);
    var series := if r.kind in b.data then b.data[r.kind] else seq(|labels|, _ => Some(0));
    assert Read(series, j) == Cell(b, r.kind, j);
  }

  lemma AddRowInv(b: Buckets, rows: seq<Row>, r: Row, b': Buckets, rows': seq<Row>)
    requires Inv(b, rows)
    requires b' == AddRow(b, r) && rows' == rows + [r]
    ensures Inv(b', rows')
  {
    AddRowLabels(b, rows, r);
    AddRowKeys(b, rows, r);
    forall k, j | k in b'.data && 0 <= j < |b'.labels|
      ensures Read(b'.data[k], j) == TotalWhere(rows', OfKind(k), Date, b'.labels[j])
    {
      CellBeforeIsTotal(b, rows, r, k, j);
      AddRowCell(b, rows, r, k, j);
    }
  }

  lemma {:induction false} BucketInv(rows: seq<Row>)
    ensures Inv(Bucket(rows), rows)
    decreases |rows|
  {
    if |rows| == 0 {
      StartInv();
    } else {
      var p := rows[..|rows| - 1];
      BucketInv(p);
      assert p + [rows[|rows| - 1]] == rows;
      AddRowInv(Bucket(p), p, rows[|rows| - 1], Bucket(rows), rows);
    }
  }

  /** Every row date appears among the labels exactly once, in order of
      first occurrence among the rows. */
  lemma BucketLabels(rows: seq<Row>)
    ensures FirstOccurrences(Bucket(rows).labels, [], Column(rows, Date))
  {
    BucketInv(rows);
    CollectIsFirstOccurrences([], Column(rows, Date));
  }

  /** The dataset keys are the nine presets in declaration order, then each
      row type not among them once, in order of first occurrence. */
  lemma BucketKeys(rows: seq<Row>)
    ensures FirstOccurrences(Bucket(rows).keys, Presets, Column(rows, Kind))
  {
    BucketInv(rows);
    PresetsDistinct();
    CollectIsFirstOccurrences(Presets, Column(rows, Kind));
  }

  lemma BucketCell(rows: seq<Row>, k: string, i: nat)
    ensures var b := Bucket(rows);
      Cell(b, k, i) == if i < |b.labels| then TotalWhere(rows, OfKind(k), Date, b.labels[i]) else 0
  {
    var b := Bucket(rows);
    BucketInv(rows);
    if k !in b.data && i < |b.labels| {
      MissingDatasetIsZero(b, rows, k, b.labels[i]);
    }
  }

  /** Each cell holds the sum of the amounts of the rows with that type and
      that label's date; nothing is stored past the last label. */
  lemma BucketCells(rows: seq<Row>)
    ensures var b := Bucket(rows);
      && (forall k, i :: 0 <= i < |b.labels| ==> Cell(b, k, i) == TotalWhere(rows, OfKind(k), Date, b.labels[i]))
      && (forall k, i: nat :: |b.labels| <= i ==> Cell(b, k, i) == 0)
  {
    forall k, i: nat
      ensures var b := Bucket(rows);
        Cell(b, k, i) == if i < |b.labels| then TotalWhere(rows, OfKind(k), Date, b.labels[i]) else 0
    {
      BucketCell(rows, k, i);
    }
  }

  /** `sum over j < n of data[k][j]`. */
  function SeriesSum(b: Buckets, k: string, n: nat): int {
    if n == 0 then 0 else SeriesSum(b, k, n - 1) + Cell(b, k, n - 1)
  }

  /** Sum of every cell of the datasets `ks`, over all labels. */
  function ChartSum(b: Buckets, ks: seq<string>): int
    decreases |ks|
  {
    if |ks| == 0 then 0 else ChartSum(b, ks[..|ks| - 1]) + SeriesSum(b, ks[|ks| - 1], |b.labels|)
  }

  lemma {:induction false} SeriesSumIsTotal(rows: seq<Row>, k: string, n: nat)
    requires n <= |Bucket(rows).labels|
    ensures SeriesSum(Bucket(rows), k, n) == TotalOver(rows, OfKind(k), Date, Bucket(rows).labels[..n])
  {
    if n > 0 {
      var ls := Bucket(rows).labels;
      SeriesSumIsTotal(rows, k, n - 1);
      assert ls[..n][..n - 1] == ls[..n - 1];
      BucketCell(rows, k, n - 1);
    }
  }

  lemma {:induction false} ChartSumIsTotal(rows: seq<Row>, ks: seq<string>)
    ensures ChartSum(Bucket(rows), ks) == TotalOver(rows, AllRows, Kind, ks)
    decreases |ks|
  {
    if |ks| > 0 {
      var b := Bucket(rows);
      var k := ks[|ks| - 1];
      ChartSumIsTotal(rows, ks[..|ks| - 1]);
      SeriesTotal(rows, k);
      TotalWhereKind(rows, k);
    }
  }

  /** One dataset's cells add up to the sum of its type's amounts. */
  lemma SeriesTotal(rows: seq<Row>, k: string)
    ensures SeriesSum(Bucket(rows), k, |Bucket(rows).labels|) == Total(rows, OfKind(k))
  {
    var ls := Bucket(rows).labels;
    SeriesSumIsTotal(rows, k, |ls|);
    assert ls[..|ls|] == ls;
    LabelsCoverDates(rows);
    assert forall r :: r in rows && InScope(r, OfKind(k)) ==> Attr(r, Date) in ls;
    TotalPartition(rows, OfKind(k), Date, ls);
  }

  lemma LabelsCoverDates(rows: seq<Row>)
    ensures Distinct(Bucket(rows).labels)
    ensures forall r :: r in rows ==> Attr(r, Date) in Bucket(rows).labels
  {
    BucketInv(rows);
    ColumnHas(rows, Date);
  }

  /** Bucketing loses and invents nothing: all cells of all datasets add up
      to the sum of all row amounts. */
  lemma BucketTotal(rows: seq<Row>)
    ensures ChartSum(Bucket(rows), Bucket(rows).keys) == Total(rows, AllRows)
  {
    var b := Bucket(rows);
    ChartSumIsTotal(rows, b.keys);
    BucketKeys(rows);
    TotalPartition(rows, AllRows, Kind, b.keys);
  }

  /** Rows are keyed by their type, so when no row's type is a preset name
      (the bot only writes "income" and "expense") the preset datasets stay
      empty arrays. */
  lemma {:induction false} PresetsUntouched(rows: seq<Row>)
    requires forall r :: r in rows ==> r.kind !in Presets
    ensures forall k :: k in Presets ==> k in Bucket(rows).data && Bucket(rows).data[k] == []
    decreases |rows|
  {
    if |rows| > 0 {
      PresetsUntouched(rows[..|rows| - 1]);
    }
  }
}
