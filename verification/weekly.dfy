/** The scheduled weekly job (index.js:277-350): `SELECT type, category,
    SUM(amount) ... GROUP BY type, category` over the whole table, folded
    into an income and an expense object keyed by category, their totals,
    the net profit, and the stacked bar chart's labels and datasets. */
module Weekly {
  import opened Seqs
  import opened Store

  /** One result row of the job's GROUP BY query. */
  datatype CategoryTotal = CategoryTotal(kind: string, category: string, total: int)

  /** `groups` is a result the GROUP BY query may return for `rows`, in any
      order: one entry per (type, category) pair present, holding its sum. */
  ghost predicate IsCategoryGrouping(rows: seq<Row>, groups: seq<CategoryTotal>) {
    && (forall i, j :: 0 <= i < j < |groups| ==>
          groups[i].kind != groups[j].kind || groups[i].category != groups[j].category)
    && (forall i :: 0 <= i < |groups| ==>
          groups[i].total == TotalWhere(rows, OfKind(groups[i].kind), Category, groups[i].category))
    && (forall r :: r in rows ==>
          exists i :: 0 <= i < |groups| && groups[i].kind == r.kind && groups[i].category == r.category)
  }

  /** The categories of the entries of one type, in order. */
  function CategoriesOf(groups: seq<CategoryTotal>, kind: string): seq<string>
    decreases |groups|
  {
    if |groups| == 0 then []
    else
      var g := groups[|groups| - 1];
      CategoriesOf(groups[..|groups| - 1], kind) + (if g.kind == kind then [g.category] else [])
  }

  /** The totals of the entries of one type, in order. */
  function TotalsOf(groups: seq<CategoryTotal>, kind: string): seq<int>
    decreases |groups|
  {
    if |groups| == 0 then []
    else
      var g := groups[|groups| - 1];
      TotalsOf(groups[..|groups| - 1], kind) + (if g.kind == kind then [g.total] else [])
  }

  /** Left-to-right sum, as `reduce((acc, val) => acc + val, 0)` computes it. */
  function SumSeq(xs: seq<int>): int
    decreases |xs|
  {
    if |xs| == 0 then 0 else SumSeq(xs[..|xs| - 1]) + xs[|xs| - 1]
  }

  /** A JavaScript object from category to total: its keys in insertion
      order and its entries. */
  datatype Dict = Dict(keys: seq<string>, entries: map<string, int>)

  ghost predicate WellFormed(d: Dict) {
    Distinct(d.keys) && forall k :: k in d.entries <==> k in d.keys
  }

  /** `obj[k] = v`: a new key goes last, an existing key keeps its place and
      takes the new value, every other entry is unchanged. */
  function Put(d: Dict, k: string, v: int): (d': Dict)
    requires WellFormed(d)
    ensures WellFormed(d')
    ensures d'.keys == AppendNew(d.keys, k)
    ensures k in d'.entries && d'.entries[k] == v
    ensures forall k' :: k' != k && k' in d.entries ==> k' in d'.entries && d'.entries[k'] == d.entries[k']
  {
    Dict(AppendNew(d.keys, k), d.entries[k := v])
  }

  /** `Object.values(obj)`. */
  function ValuesOf(d: Dict): (vs: seq<int>)
    requires WellFormed(d)
    ensures |vs| == |d.keys|
    ensures forall i :: 0 <= i < |d.keys| ==> vs[i] == d.entries[d.keys[i]]
  {
    seq(|d.keys|, i requires 0 <= i < |d.keys| => d.entries[d.keys[i]])
  }

  /** `Object.values` holds every entry's value and nothing else. */
  lemma ValuesOfMembers(d: Dict)
    requires WellFormed(d)
    ensures forall k :: k in d.entries ==> d.entries[k] in ValuesOf(d)
    ensures forall v :: v in ValuesOf(d) ==> exists k :: k in d.entries && d.entries[k] == v
  {
    var vs := ValuesOf(d);
    forall k | k in d.entries
      ensures d.entries[k] in vs
    {
      var i :| 0 <= i < |d.keys| && d.keys[i] == k;
      assert vs[i] == d.entries[k];
    }
    forall v | v in vs
      ensures exists k :: k in d.entries && d.entries[k] == v
    {
      var i :| 0 <= i < |vs| && vs[i] == v;
      assert d.keys[i] in d.entries;
    }
  }

  /** `incomeData` and `expenseData`. */
  datatype Fold = Fold(income: Dict, expense: Dict)

  /** The `rows.forEach` of index.js:285-291: an income entry is written to
      the income object, an expense entry to the expense object, anything
      else is skipped. */
  function FoldCategories(groups: seq<CategoryTotal>): (f: Fold)
    ensures WellFormed(f.income) && WellFormed(f.expense)
    decreases |groups|
  {
    if |groups| == 0 then Fold(Dict([], map[]), Dict([], map[]))
    else
      var f := FoldCategories(groups[..|groups| - 1]);
      var g := groups[|groups| - 1];
      if g.kind == Income then f.(income := Put(f.income, g.category, g.total))
      else if g.kind == Expense then f.(expense := Put(f.expense, g.category, g.total))
      else f
  }

  /** The object a type's entries are written to. */
  function Side(f: Fold, kind: string): Dict
    requires kind == Income || kind == Expense
  {
    if kind == Income then f.income else f.expense
  }

  /** The text summary and chart labels of the report (index.js:293-295, 312). */
  datatype Summary = Summary(totalIncome: int, totalExpense: int, netProfit: int, labels: seq<string>)

  /** The summary of index.js:293-295: each total is the sum of its
      type's group totals as soon as no category repeats within the type
      (the GROUP BY guarantees it); the labels are the expense categories,
      each once, followed by the income categories, each once. */
  function Summarize(groups: seq<CategoryTotal>): (s: Summary)
    ensures Distinct(CategoriesOf(groups, Income)) ==> s.totalIncome == SumSeq(TotalsOf(groups, Income))
    ensures Distinct(CategoriesOf(groups, Expense)) ==> s.totalExpense == SumSeq(TotalsOf(groups, Expense))
    ensures s.labels == Collect([], CategoriesOf(groups, Expense)) + Collect([], CategoriesOf(groups, Income))
    ensures s.netProfit == s.totalIncome - s.totalExpense
  {
    FoldSideKeys(groups, Income);
    FoldSideKeys(groups, Expense);
    SideValuesWhenDistinct(groups, Income);
    SideValuesWhenDistinct(groups, Expense);
    var f := FoldCategories(groups);
    var totalIncome := SumSeq(ValuesOf(f.income));
    var totalExpense := SumSeq(ValuesOf(f.expense));
    Summary(totalIncome, totalExpense, totalIncome - totalExpense, f.expense.keys + f.income.keys)
  }

  /** Each object's keys are the categories of its type, each once, in
      order of first occurrence. */
  lemma {:induction false} FoldSideKeys(groups: seq<CategoryTotal>, kind: string)
    requires kind == Income || kind == Expense
    ensures Side(FoldCategories(groups), kind).keys == Collect([], CategoriesOf(groups, kind))
    decreases |groups|
  {
    if |groups| > 0 {
      var p := groups[..|groups| - 1];
      FoldSideKeys(p, kind);
      var g := groups[|groups| - 1];
      var cs := CategoriesOf(groups, kind);
      if g.kind == kind {
        assert cs == CategoriesOf(p, kind) + [g.category];
        assert cs[..|cs| - 1] == CategoriesOf(p, kind);
        assert Side(FoldCategories(groups), kind) == Put(Side(FoldCategories(p), kind), g.category, g.total);
      } else {
        assert cs == CategoriesOf(p, kind);
      }
    }
  }

  /** Writing a key that is not yet present appends its value. */
  lemma PutNewValues(d: Dict, k: string, v: int)
    requires WellFormed(d) && k !in d.keys
    ensures ValuesOf(Put(d, k, v)) == ValuesOf(d) + [v]
  {
    var d' := Put(d, k, v);
    assert d'.keys == d.keys + [k];
    forall i | 0 <= i < |d.keys|
      ensures ValuesOf(d')[i] == ValuesOf(d)[i]
    {
      assert d.keys[i] != k;
    }
  }

  /** When the categories of a type are distinct, its object's values are
      the entries' totals, in order. */
  lemma {:induction false} FoldSideValues(groups: seq<CategoryTotal>, kind: string)
    requires kind == Income || kind == Expense
    requires Distinct(CategoriesOf(groups, kind))
    ensures ValuesOf(Side(FoldCategories(groups), kind)) == TotalsOf(groups, kind)
    decreases |groups|
  {
    if |groups| > 0 {
      var p := groups[..|groups| - 1];
      var g := groups[|groups| - 1];
      var cs := CategoriesOf(groups, kind);
      if g.kind == kind {
        assert cs == CategoriesOf(p, kind) + [g.category];
        DistinctSnoc(CategoriesOf(p, kind), g.category);
        FoldSideValues(p, kind);
        FoldSideKeys(p, kind);
        CollectDistinct(CategoriesOf(p, kind));
        PutNewValues(Side(FoldCategories(p), kind), g.category, g.total);
      } else {
        assert cs == CategoriesOf(p, kind);
        FoldSideValues(p, kind);
      }
    }
  }

  lemma SideValuesWhenDistinct(groups: seq<CategoryTotal>, kind: string)
    requires kind == Income || kind == Expense
    ensures Distinct(CategoriesOf(groups, kind)) ==>
      ValuesOf(Side(FoldCategories(groups), kind)) == TotalsOf(groups, kind)
  {
    if Distinct(CategoriesOf(groups, kind)) {
      FoldSideValues(groups, kind);
    }
  }

  /** When no category repeats within a type, as the GROUP BY guarantees,
      the totals are the sums of the entries' totals per type, the net
      profit is their difference, and the labels are the expense categories
      followed by the income categories. */
  lemma WeeklyTotals(groups: seq<CategoryTotal>)
    requires Distinct(CategoriesOf(groups, Income))
    requires Distinct(CategoriesOf(groups, Expense))
    ensures var s := Summarize(groups);
      && s.totalIncome == SumSeq(TotalsOf(groups, Income))
      && s.totalExpense == SumSeq(TotalsOf(groups, Expense))
      && s.labels == CategoriesOf(groups, Expense) + CategoriesOf(groups, Income)
  {
    CollectDistinct(CategoriesOf(groups, Income));
    CollectDistinct(CategoriesOf(groups, Expense));
  }

  /** Distinct (type, category) pairs give distinct categories per type. */
  lemma {:induction false} CategoriesDistinct(groups: seq<CategoryTotal>, kind: string)
    requires forall i, j :: 0 <= i < j < |groups| ==>
      groups[i].kind != groups[j].kind || groups[i].category != groups[j].category
    ensures Distinct(CategoriesOf(groups, kind))
    ensures forall c :: c in CategoriesOf(groups, kind) <==>
      exists i :: 0 <= i < |groups| && groups[i].kind == kind && groups[i].category == c
    decreases |groups|
  {
    if |groups| > 0 {
      var p := groups[..|groups| - 1];
      var g := groups[|groups| - 1];
      CategoriesDistinct(p, kind);
      forall c ensures c in CategoriesOf(groups, kind) <==>
        exists i :: 0 <= i < |groups| && groups[i].kind == kind && groups[i].category == c
      {
        if c in CategoriesOf(groups, kind) && !(g.kind == kind && g.category == c) {
          var i :| 0 <= i < |p| && p[i].kind == kind && p[i].category == c;
          assert groups[i] == p[i];
        }
        if exists i :: 0 <= i < |groups| && groups[i].kind == kind && groups[i].category == c {
          var i :| 0 <= i < |groups| && groups[i].kind == kind && groups[i].category == c;
          if i < |p| {
            assert p[i] == groups[i];
          }
        }
      }
      if g.kind == kind {
        assert g.category !in CategoriesOf(p, kind);
      }
    }
  }

  /** The per-type entry totals add up to the group sums of that type's categories. */
  lemma {:induction false} TotalsAreGroupSums(rows: seq<Row>, groups: seq<CategoryTotal>, kind: string)
    requires forall i :: 0 <= i < |groups| ==>
      groups[i].total == TotalWhere(rows, OfKind(groups[i].kind), Category, groups[i].category)
    ensures SumSeq(TotalsOf(groups, kind)) == TotalOver(rows, OfKind(kind), Category, CategoriesOf(groups, kind))
    decreases |groups|
  {
    if |groups| > 0 {
      var p := groups[..|groups| - 1];
      var g := groups[|groups| - 1];
      TotalsAreGroupSums(rows, p, kind);
      var ts := TotalsOf(groups, kind);
      var cs := CategoriesOf(groups, kind);
      if g.kind == kind {
        assert ts == TotalsOf(p, kind) + [g.total];
        assert cs == CategoriesOf(p, kind) + [g.category];
        assert ts[..|ts| - 1] == TotalsOf(p, kind);
        assert cs[..|cs| - 1] == CategoriesOf(p, kind);
        assert g.total == TotalWhere(rows, OfKind(kind), Category, g.category);
      } else {
        assert ts == TotalsOf(p, kind) && cs == CategoriesOf(p, kind);
      }
    }
  }

  /** The report's total income and total expense are the sums of all
      income and all expense amounts in the table, whatever order the query
      returns its groups in, and the net profit is their difference. */
  lemma WeeklyFromLedger(rows: seq<Row>, groups: seq<CategoryTotal>)
    requires IsCategoryGrouping(rows, groups)
    ensures var s := Summarize(groups);
      && s.totalIncome == Total(rows, OfKind(Income))
      && s.totalExpense == Total(rows, OfKind(Expense))
      && s.netProfit == Total(rows, OfKind(Income)) - Total(rows, OfKind(Expense))
  {
    KindSum(rows, groups, Income);
    KindSum(rows, groups, Expense);
    WeeklyTotals(groups);
  }

  lemma KindSum(rows: seq<Row>, groups: seq<CategoryTotal>, kind: string)
    requires IsCategoryGrouping(rows, groups)
    ensures Distinct(CategoriesOf(groups, kind))
    ensures SumSeq(TotalsOf(groups, kind)) == Total(rows, OfKind(kind))
  {
    CategoriesDistinct(groups, kind);
    TotalsAreGroupSums(rows, groups, kind);
    forall r | r in rows && InScope(r, OfKind(kind))
      ensures Attr(r, Category) in CategoriesOf(groups, kind)
    {
      var i :| 0 <= i < |groups| && groups[i].kind == r.kind && groups[i].category == r.category;
    }
    TotalPartition(rows, OfKind(kind), Category, CategoriesOf(groups, kind));
  }

  // ---------------------------------------------------------------------
  // The report chart's datasets (index.js:311-325).

  /** A bar chart dataset: the bar drawn at each label position, if any. */
  type Bars = seq<Option<int>>

  /** The chart's `labels` and its expense and income datasets. */
  datatype WeeklyChart = WeeklyChart(labels: seq<string>, expenseBars: Bars, incomeBars: Bars)

  /** The bar a dataset draws at label position `p`; none past its end. */
  function BarAt(b: Bars, p: nat): Option<int> {
    if p < |b| then b[p] else None
  }

  function AsBars(vs: seq<int>): (b: Bars)
    ensures |b| == |vs|
    ensures forall i :: 0 <= i < |vs| ==> b[i] == Some(vs[i])
  {
    seq(|vs|, i requires 0 <= i < |vs| => Some(vs[i]))
  }

  /** The chart as index.js:311-325 builds it: both datasets take their
      object's values from position 0, while the income categories' labels
      come after the expense categories' labels. */
  function WeeklyChartAsWritten(groups: seq<CategoryTotal>): WeeklyChart {
    var f := FoldCategories(groups);
    WeeklyChart(f.expense.keys + f.income.keys, AsBars(ValuesOf(f.expense)), AsBars(ValuesOf(f.income)))
  }

  /** As written, as soon as both types have a category, the first income
      total is drawn under the first EXPENSE category's label. */
  lemma IncomeBarsMisplaced(groups: seq<CategoryTotal>)
    requires |FoldCategories(groups).expense.keys| > 0 && |FoldCategories(groups).income.keys| > 0
    ensures var f := FoldCategories(groups);
      var c := WeeklyChartAsWritten(groups);
      && c.labels[0] == f.expense.keys[0]
      && BarAt(c.incomeBars, 0) == Some(f.income.entries[f.income.keys[0]])
  {
  }

  /** One expense of 30 on "Dining" and one income of 100 from "Salary":
      the income bar of 100 stands on "Dining" and "Salary" gets none. */
  lemma IncomeBarsMisplacedExample()
    ensures var c := WeeklyChartAsWritten([CategoryTotal(Expense, "Dining", 30), CategoryTotal(Income, "Salary", 100)]);
      && c.labels == ["Dining", "Salary"]
      && BarAt(c.incomeBars, 0) == Some(100)
      && BarAt(c.incomeBars, 1) == None
  {
    var groups := [CategoryTotal(Expense, "Dining", 30), CategoryTotal(Income, "Salary", 100)];
    var first := [CategoryTotal(Expense, "Dining", 30)];
    assert groups[..1] == first;
    assert first[..0] == [];
    var empty := Fold(Dict([], map[]), Dict([], map[]));
    assert FoldCategories(first[..0]) == empty;
    assert Expense != Income;
    var f0 := FoldCategories(first);
    assert f0 == empty.(expense := Put(empty.expense, "Dining", 30));
    assert f0.expense.keys == ["Dining"] && f0.income.keys == [];
    var f := FoldCategories(groups);
    assert f.income.keys == ["Salary"] && f.income.entries["Salary"] == 100;
  }

  /** The chart with each income total moved past the expense labels, so
      that every bar stands on its own category's label. */
  function WeeklyChartOf(groups: seq<CategoryTotal>): (c: WeeklyChart)
    ensures var f := FoldCategories(groups);
      var e := |f.expense.keys|;
      && |c.labels| == e + |f.income.keys|
      && forall p :: 0 <= p < |c.labels| ==>
           if p < e then
             && c.labels[p] in f.expense.entries
             && BarAt(c.expenseBars, p) == Some(f.expense.entries[c.labels[p]])
             && BarAt(c.incomeBars, p) == None
           else
             && c.labels[p] in f.income.entries
             && BarAt(c.incomeBars, p) == Some(f.income.entries[c.labels[p]])
             && BarAt(c.expenseBars, p) == None
  {
    var f := FoldCategories(groups);
    var e := |f.expense.keys|;
    var holes: Bars := seq(e, _ => None);
    WeeklyChart(f.expense.keys + f.income.keys, AsBars(ValuesOf(f.expense)), holes + AsBars(ValuesOf(f.income)))
  }
}
