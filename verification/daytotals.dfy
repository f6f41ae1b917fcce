/** The `!datetotal` query (index.js:191-221): `SELECT type, SUM(amount)
    ... GROUP BY type` over one day's rows, folded into an income and an
    expense total. */
module DayTotals {
  import opened Seqs
  import opened Store

  /** One result row of `SELECT type, SUM(amount) as total ... GROUP BY type`. */
  datatype KindTotal = KindTotal(kind: string, total: int)

  /** The `{income, expense}` object the callback receives. */
  datatype Totals = Totals(income: int, expense: int)

  /** `groups` is a result the GROUP BY query may return for `rows`, in any
      order: one entry per type present, each holding that type's sum. */
  ghost predicate IsKindGrouping(rows: seq<Row>, groups: seq<KindTotal>) {
    && (forall i, j :: 0 <= i < j < |groups| ==> groups[i].kind != groups[j].kind)
    && (forall i :: 0 <= i < |groups| ==> groups[i].total == Total(rows, OfKind(groups[i].kind)))
    && (forall r :: r in rows ==> exists i :: 0 <= i < |groups| && groups[i].kind == r.kind)
  }

  /** The type of every group row, in order. */
  function KindsOf(groups: seq<KindTotal>): (ks: seq<string>)
    ensures |ks| == |groups|
    ensures forall i :: 0 <= i < |groups| ==> ks[i] == groups[i].kind
  {
    seq(|groups|, i requires 0 <= i < |groups| => groups[i].kind)
  }

  /** `totals = {income: 0, expense: 0}` then, row by row, overwrite the
      matching field with the row's total (index.js:210-217); rows of any
      other type change nothing. */
  function FoldTotals(groups: seq<KindTotal>): (t: Totals)
    ensures Income !in KindsOf(groups) ==> t.income == 0
    ensures Expense !in KindsOf(groups) ==> t.expense == 0
    decreases |groups|
  {
    if |groups| == 0 then Totals(0, 0)
    else
      var t := FoldTotals(groups[..|groups| - 1]);
      var g := groups[|groups| - 1];
      assert KindsOf(groups) == KindsOf(groups[..|groups| - 1]) + [g.kind];
      if g.kind == Income then t.(income := g.total)
      else if g.kind == Expense then t.(expense := g.total)
      else t
  }

  /** The income field for "income", the expense field for "expense". */
  function FieldOfKind(t: Totals, kind: string): int
    requires kind == Income || kind == Expense
  {
    if kind == Income then t.income else t.expense
  }

  /** Entry `i` is the last entry of its type. */
  predicate IsLast(groups: seq<KindTotal>, i: nat, kind: string) {
    && i < |groups|
    && groups[i].kind == kind
    && forall j :: i < j < |groups| ==> groups[j].kind != kind
  }

  /** A field ends up holding the total of the LAST entry of its type. */
  lemma {:induction false} FoldTotalsLast(groups: seq<KindTotal>, i: nat, kind: string)
    requires kind == Income || kind == Expense
    requires IsLast(groups, i, kind)
    ensures FieldOfKind(FoldTotals(groups), kind) == groups[i].total
    decreases |groups|
  {
    var n := |groups| - 1;
    if i < n {
      var p := groups[..n];
      assert groups[n].kind != kind;
      assert IsLast(p, i, kind);
      FoldTotalsLast(p, i, kind);
    }
  }

  /** One group per type in `ks`, holding that type's sum. */
  function GroupsFor(rows: seq<Row>, ks: seq<string>): (groups: seq<KindTotal>)
    ensures |groups| == |ks|
    ensures forall i :: 0 <= i < |ks| ==> groups[i] == KindTotal(ks[i], Total(rows, OfKind(ks[i])))
  {
    seq(|ks|, i requires 0 <= i < |ks| => KindTotal(ks[i], Total(rows, OfKind(ks[i]))))
  }

  lemma GroupsForIsGrouping(rows: seq<Row>, ks: seq<string>)
    requires Distinct(ks)
    requires forall r :: r in rows ==> r.kind in ks
    ensures IsKindGrouping(rows, GroupsFor(rows, ks))
  {
    var groups := GroupsFor(rows, ks);
    forall r | r in rows
      ensures exists i :: 0 <= i < |groups| && groups[i].kind == r.kind
    {
      var i := IndexOf(ks, r.kind);
      assert groups[i].kind == r.kind;
    }
  }

  /** A grouping of `rows` in first-occurrence order of the types: one of
      the orders in which the query may return its groups. */
  function GroupByKind(rows: seq<Row>): (groups: seq<KindTotal>)
    ensures IsKindGrouping(rows, groups)
  {
    var ks := Collect([], Column(rows, Kind));
    CollectIsFirstOccurrences([], Column(rows, Kind));
    ColumnHas(rows, Kind);
    GroupsForIsGrouping(rows, ks);
    GroupsFor(rows, ks)
  }

  /** Whatever order the query returns its groups in, the fold yields the
      sum of the income amounts and the sum of the expense amounts. */
  lemma FoldTotalsIsSums(rows: seq<Row>, groups: seq<KindTotal>)
    requires IsKindGrouping(rows, groups)
    ensures FoldTotals(groups) == Totals(Total(rows, OfKind(Income)), Total(rows, OfKind(Expense)))
  {
    FieldIsSum(rows, groups, Income);
    FieldIsSum(rows, groups, Expense);
  }

  lemma FieldIsSum(rows: seq<Row>, groups: seq<KindTotal>, kind: string)
    requires IsKindGrouping(rows, groups)
    requires kind == Income || kind == Expense
    ensures FieldOfKind(FoldTotals(groups), kind) == Total(rows, OfKind(kind))
  {
    if kind in KindsOf(groups) {
      var i := IndexOf(KindsOf(groups), kind);
      assert IsLast(groups, i, kind);
      FoldTotalsLast(groups, i, kind);
    } else {
      forall r | r in rows
        ensures !InScope(r, OfKind(kind))
      {
        var i :| 0 <= i < |groups| && groups[i].kind == r.kind;
        assert KindsOf(groups)[i] == r.kind;
      }
      TotalAbsent(rows, OfKind(kind));
    }
  }

  /** `getDateTotals` for the closed window [lo, hi] of ISO timestamps. */
  function DateTotals(l: Ledger, lo: string, hi: string): (t: Totals)
    ensures t.income == Total(RowsInWindow(l, lo, hi), OfKind(Income))
    ensures t.expense == Total(RowsInWindow(l, lo, hi), OfKind(Expense))
  {
    var rows := RowsInWindow(l, lo, hi);
    FoldTotalsIsSums(rows, GroupByKind(rows));
    FoldTotals(GroupByKind(rows))
  }

  /** A window holding no rows reports income 0 and expense 0. */
  lemma EmptyWindowIsZero(l: Ledger, lo: string, hi: string)
    requires forall r :: r in l.rows ==> !InWindow(r, lo, hi)
    ensures DateTotals(l, lo, hi) == Totals(0, 0)
  {
    WhereNone(l.rows, (r: Row) => InWindow(r, lo, hi));
  }

  /** The net figure of the reply: income minus expense (index.js:267). */
  function Net(t: Totals): int {
    t.income - t.expense
  }
}
