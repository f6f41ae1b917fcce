/** The `transactions` table (index.js:26-33) as an append-only sequence of
    rows: the one INSERT the bot issues, the filtered SELECTs, and the sums
    its GROUP BY queries compute. Amounts are integers in minor units. */
module Store {
  import opened Seqs
  import opened Text

  /** The two values the bot writes into the `type` column. */
  const Income: string := "income"
  const Expense: string := "expense"

  /** One row of `transactions(id, user, type, amount, category, date)`. */
  datatype Row = Row(id: nat, user: string, kind: string, amount: int, category: string, date: string)

  /** The table's rows in insertion order, and the next AUTOINCREMENT id. */
  datatype Ledger = Ledger(rows: seq<Row>, nextId: nat)

  /** AUTOINCREMENT ids strictly increase in insertion order and stay below
      the next id to be handed out. */
  predicate Valid(l: Ledger) {
    && (forall i :: 0 <= i < |l.rows| ==> l.rows[i].id < l.nextId)
    && (forall i, j :: 0 <= i < j < |l.rows| ==> l.rows[i].id < l.rows[j].id)
  }

  /** The freshly created table: no rows, ids start at 1. */
  function EmptyLedger(): (l: Ledger)
    ensures Valid(l) && |l.rows| == 0 && l.nextId == 1
  {
    Ledger([], 1)
  }

  /** `INSERT INTO transactions (user, type, amount, category, date) VALUES (...)`:
      appends exactly one row with a new id and keeps every earlier row. */
  function Insert(l: Ledger, user: string, kind: string, amount: int, category: string, date: string): (l': Ledger)
    ensures |l'.rows| == |l.rows| + 1
    ensures l'.rows[..|l.rows|] == l.rows
    ensures var r := l'.rows[|l.rows|];
      r.user == user && r.kind == kind && r.amount == amount && r.category == category && r.date == date
    ensures Valid(l) ==> Valid(l')
    ensures Valid(l) ==> forall i :: 0 <= i < |l.rows| ==> l.rows[i].id != l'.rows[|l.rows|].id
  {
    Ledger(l.rows + [Row(l.nextId, user, kind, amount, category, date)], l.nextId + 1)
  }

  /** A `WHERE` clause: the rows satisfying `p`, in insertion order. */
  function Where(rows: seq<Row>, p: Row -> bool): (r: seq<Row>)
    ensures |r| <= |rows|
    ensures forall x :: x in r <==> x in rows && p(x)
    ensures forall x {:trigger multiset(r)[x]} :: multiset(r)[x] == if p(x) then multiset(rows)[x] else 0
    decreases |rows|
  {
    if |rows| == 0 then []
    else
      var init, last := rows[..|rows| - 1], rows[|rows| - 1];
      assert rows == init + [last];
      Where(init, p) + (if p(last) then [last] else [])
  }

  /** The table positions whose row meets `p`, in ascending order. */
  function Positions(rows: seq<Row>, p: Row -> bool): seq<nat>
    decreases |rows|
  {
    if |rows| == 0 then []
    else
      var n := |rows| - 1;
      Positions(rows[..n], p) + (if p(rows[n]) then [n] else [])
  }

  /** A `WHERE` clause keeps table order: the selected rows are the rows at
      strictly increasing table positions, and those positions are exactly
      the ones whose row meets the condition. */
  lemma WhereKeepsOrder(rows: seq<Row>, p: Row -> bool)
    ensures var idx := Positions(rows, p);
      && |idx| == |Where(rows, p)|
      && (forall k :: 0 <= k < |idx| ==> idx[k] < |rows| && rows[idx[k]] == Where(rows, p)[k])
      && (forall k, k' :: 0 <= k < k' < |idx| ==> idx[k] < idx[k'])
      && (forall i :: 0 <= i < |rows| ==> (i in idx <==> p(rows[i])))
  {
    PositionsSelect(rows, p);
    PositionsIncrease(rows, p);
    PositionsMembers(rows, p);
  }

  lemma {:induction false} PositionsSelect(rows: seq<Row>, p: Row -> bool)
    ensures |Positions(rows, p)| == |Where(rows, p)|
    ensures forall k :: 0 <= k < |Positions(rows, p)| ==>
      Positions(rows, p)[k] < |rows| && rows[Positions(rows, p)[k]] == Where(rows, p)[k]
    decreases |rows|
  {
    if |rows| > 0 {
      var n := |rows| - 1;
      var init := rows[..n];
      PositionsSelect(init, p);
      WhereSnoc(rows, p);
      var idx, prev := Positions(rows, p), Positions(init, p);
      var w, w0 := Where(rows, p), Where(init, p);
      assert idx == prev + (if p(rows[n]) then [n] else []);
      assert w == w0 + (if p(rows[n]) then [rows[n]] else []);
      assert |prev| == |w0|;
      assert |idx| == |w|;
      forall k | 0 <= k < |idx|
        ensures idx[k] < |rows| && rows[idx[k]] == w[k]
      {
        if k < |prev| {
          assert idx[k] == prev[k] && w[k] == w0[k];
          assert rows[prev[k]] == init[prev[k]];
        }
      }
    }
  }

  lemma {:induction false} PositionsIncrease(rows: seq<Row>, p: Row -> bool)
    ensures forall k :: 0 <= k < |Positions(rows, p)| ==> Positions(rows, p)[k] < |rows|
    ensures forall k, k' :: 0 <= k < k' < |Positions(rows, p)| ==> Positions(rows, p)[k] < Positions(rows, p)[k']
    decreases |rows|
  {
    if |rows| > 0 {
      var n := |rows| - 1;
      PositionsIncrease(rows[..n], p);
      var idx, prev := Positions(rows, p), Positions(rows[..n], p);
      assert idx == prev + (if p(rows[n]) then [n] else []);
    }
  }

  lemma {:induction false} PositionsMembers(rows: seq<Row>, p: Row -> bool)
    ensures forall i :: 0 <= i < |rows| ==> (i in Positions(rows, p) <==> p(rows[i]))
    decreases |rows|
  {
    if |rows| > 0 {
      var n := |rows| - 1;
      var init := rows[..n];
      PositionsMembers(init, p);
      PositionsIncrease(init, p);
      var prev := Positions(init, p);
      assert Positions(rows, p) == if p(rows[n]) then prev + [n] else prev;
      forall i | 0 <= i < |rows|
        ensures i in Positions(rows, p) <==> p(rows[i])
      {
        InSnoc(prev, i, n, p(rows[n]));
        if i < n {
          assert rows[i] == init[i];
        }
      }
    }
  }

  lemma WhereSnoc(rows: seq<Row>, p: Row -> bool)
    requires |rows| > 0
    ensures var n := |rows| - 1;
      Where(rows, p) == Where(rows[..n], p) + (if p(rows[n]) then [rows[n]] else [])
  {
  }

  /** Membership in a list of positions below `n`, after maybe appending `n`. */
  lemma InSnoc(prev: seq<nat>, i: nat, n: nat, add: bool)
    requires forall k :: 0 <= k < |prev| ==> prev[k] < n
    requires i <= n
    ensures i in (if add then prev + [n] else prev) <==> (if i == n then add else i in prev)
  {
  }

  /** A condition no row meets selects nothing. */
  lemma {:induction false} WhereNone(rows: seq<Row>, p: Row -> bool)
    requires forall x :: x in rows ==> !p(x)
    ensures Where(rows, p) == []
    decreases |rows|
  {
    if |rows| > 0 {
      WhereNone(rows[..|rows| - 1], p);
      assert rows[|rows| - 1] in rows;
    }
  }

  /** `SELECT * FROM transactions WHERE user = ? AND type = ?` (index.js:175). */
  function ListByUserAndKind(l: Ledger, user: string, kind: string): seq<Row> {
    Where(l.rows, (r: Row) => r.user == user && r.kind == kind)
  }

  /** `WHERE date >= ? AND date <= ?` on the ISO text column (index.js:203). */
  predicate InWindow(r: Row, lo: string, hi: string) {
    TextLeq(lo, r.date) && TextLeq(r.date, hi)
  }

  /** The rows whose date lies in the closed window [lo, hi]. */
  function RowsInWindow(l: Ledger, lo: string, hi: string): seq<Row> {
    Where(l.rows, (r: Row) => InWindow(r, lo, hi))
  }

  /** A recorded transaction shows up exactly once, at the end, in its
      author's listing of that type; every other listing is unchanged. */
  lemma InsertThenList(l: Ledger, user: string, kind: string, amount: int, category: string, date: string,
                       user': string, kind': string)
    requires Valid(l)
    ensures var l' := Insert(l, user, kind, amount, category, date);
      var added := l'.rows[|l.rows|];
      && ListByUserAndKind(l', user, kind) == ListByUserAndKind(l, user, kind) + [added]
      && multiset(ListByUserAndKind(l', user, kind))[added] == 1
      && ((user', kind') != (user, kind) ==> ListByUserAndKind(l', user', kind') == ListByUserAndKind(l, user', kind'))
  {
    var l' := Insert(l, user, kind, amount, category, date);
    var added := l'.rows[|l.rows|];
    assert l'.rows[..|l'.rows| - 1] == l.rows;
    assert added !in l.rows;
  }

  /** Recording the same command twice stores two different rows. */
  lemma InsertTwiceKeepsBoth(l: Ledger, user: string, kind: string, amount: int, category: string, date: string)
    requires Valid(l)
    ensures var l1 := Insert(l, user, kind, amount, category, date);
      var l2 := Insert(l1, user, kind, amount, category, date);
      && |l2.rows| == |l.rows| + 2
      && l2.rows[|l.rows|] != l2.rows[|l.rows| + 1]
      && |ListByUserAndKind(l2, user, kind)| == |ListByUserAndKind(l, user, kind)| + 2
  {
    var l1 := Insert(l, user, kind, amount, category, date);
    InsertThenList(l, user, kind, amount, category, date, user, kind);
    InsertThenList(l1, user, kind, amount, category, date, user, kind);
  }

  // ---------------------------------------------------------------------
  // Sums, as SQL's SUM(amount) over a group computes them.

  /** Which rows a sum ranges over: all of them, or one `type`. */
  datatype Scope = AllRows | OfKind(kind: string)

  predicate InScope(r: Row, s: Scope) {
    s.AllRows? || r.kind == s.kind
  }

  /** A text column a query can group by. */
  datatype Field = Kind | Date | Category

  function Attr(r: Row, f: Field): string {
    match f
    case Kind => r.kind
    case Date => r.date
    case Category => r.category
  }

  /** The values of one column, row by row (what `rows.map(r => r.f)` gives). */
  function Column(rows: seq<Row>, f: Field): (c: seq<string>)
    ensures |c| == |rows|
    ensures forall i :: 0 <= i < |rows| ==> c[i] == Attr(rows[i], f)
    decreases |rows|
  {
    if |rows| == 0 then []
    else Column(rows[..|rows| - 1], f) + [Attr(rows[|rows| - 1], f)]
  }

  /** Every row's value shows up in its column. */
  lemma ColumnHas(rows: seq<Row>, f: Field)
    ensures forall r :: r in rows ==> Attr(r, f) in Column(rows, f)
  {
    forall r | r in rows
      ensures Attr(r, f) in Column(rows, f)
    {
      var i :| 0 <= i < |rows| && rows[i] == r;
      assert Column(rows, f)[i] == Attr(r, f);
    }
  }

  lemma ColumnSnoc(rows: seq<Row>, x: Row, f: Field)
    ensures Column(rows + [x], f) == Column(rows, f) + [Attr(x, f)]
  {
    assert (rows + [x])[..|rows|] == rows;
  }

  /** Sum of the amounts of the rows in scope. */
  function Total(rows: seq<Row>, s: Scope): int
    decreases |rows|
  {
    if |rows| == 0 then 0
    else Total(rows[..|rows| - 1], s) + (if InScope(rows[|rows| - 1], s) then rows[|rows| - 1].amount else 0)
  }

  /** What one row adds to the group `field = v` within the scope. */
  function Share(x: Row, s: Scope, f: Field, v: string): int {
    if InScope(x, s) && Attr(x, f) == v then x.amount else 0
  }

  /** Sum of the amounts of the rows in scope whose field `f` equals `v`:
      one group of `GROUP BY f`. */
  function TotalWhere(rows: seq<Row>, s: Scope, f: Field, v: string): int
    decreases |rows|
  {
    if |rows| == 0 then 0
    else TotalWhere(rows[..|rows| - 1], s, f, v) + Share(rows[|rows| - 1], s, f, v)
  }

  /** The group sums for the values `vs`, added up. */
  function TotalOver(rows: seq<Row>, s: Scope, f: Field, vs: seq<string>): int
    decreases |vs|
  {
    if |vs| == 0 then 0
    else TotalOver(rows, s, f, vs[..|vs| - 1]) + TotalWhere(rows, s, f, vs[|vs| - 1])
  }

  /** What one row adds to all of the groups `vs`. */
  function ShareOver(x: Row, s: Scope, f: Field, vs: seq<string>): int
    decreases |vs|
  {
    if |vs| == 0 then 0
    else ShareOver(x, s, f, vs[..|vs| - 1]) + Share(x, s, f, vs[|vs| - 1])
  }

  lemma {:induction false} ShareOverAbsent(x: Row, s: Scope, f: Field, vs: seq<string>)
    requires Attr(x, f) !in vs
    ensures ShareOver(x, s, f, vs) == 0
    decreases |vs|
  {
    if |vs| > 0 {
      ShareOverAbsent(x, s, f, vs[..|vs| - 1]);
    }
  }

  /** A row in scope falls into exactly one of a list of distinct groups
      that covers its value. */
  lemma {:induction false} ShareOverDistinct(x: Row, s: Scope, f: Field, vs: seq<string>)
    requires Distinct(vs)
    requires InScope(x, s) ==> Attr(x, f) in vs
    ensures ShareOver(x, s, f, vs) == if InScope(x, s) then x.amount else 0
    decreases |vs|
  {
    if |vs| > 0 {
      var p := vs[..|vs| - 1];
      var v := vs[|vs| - 1];
      assert vs == p + [v];
      if InScope(x, s) && Attr(x, f) == v {
        assert v !in p;
        ShareOverAbsent(x, s, f, p);
      } else {
        ShareOverDistinct(x, s, f, p);
      }
    }
  }

  lemma {:induction false} TotalOverSnoc(rows: seq<Row>, x: Row, s: Scope, f: Field, vs: seq<string>)
    ensures TotalOver(rows + [x], s, f, vs) == TotalOver(rows, s, f, vs) + ShareOver(x, s, f, vs)
    decreases |vs|
  {
    if |vs| > 0 {
      TotalOverSnoc(rows, x, s, f, vs[..|vs| - 1]);
      assert (rows + [x])[..|rows + [x]| - 1] == rows;
    }
  }

  /** GROUP BY partitions the rows: when the values `vs` are distinct and
      cover every row in scope, the group sums add up to the scope's sum. */
  lemma {:induction false} TotalPartition(rows: seq<Row>, s: Scope, f: Field, vs: seq<string>)
    requires Distinct(vs)
    requires forall r :: r in rows && InScope(r, s) ==> Attr(r, f) in vs
    ensures TotalOver(rows, s, f, vs) == Total(rows, s)
    decreases |rows|
  {
    if |rows| == 0 {
      TotalOverEmpty(s, f, vs);
    } else {
      var p := rows[..|rows| - 1];
      var x := rows[|rows| - 1];
      assert rows == p + [x];
      TotalPartition(p, s, f, vs);
      TotalOverSnoc(p, x, s, f, vs);
      ShareOverDistinct(x, s, f, vs);
    }
  }

  lemma {:induction false} TotalOverEmpty(s: Scope, f: Field, vs: seq<string>)
    ensures TotalOver([], s, f, vs) == 0
    decreases |vs|
  {
    if |vs| > 0 {
      TotalOverEmpty(s, f, vs[..|vs| - 1]);
    }
  }

  /** A group nobody belongs to sums to 0. */
  lemma {:induction false} TotalWhereAbsent(rows: seq<Row>, s: Scope, f: Field, v: string)
    requires forall r :: r in rows && InScope(r, s) ==> Attr(r, f) != v
    ensures TotalWhere(rows, s, f, v) == 0
    decreases |rows|
  {
    if |rows| > 0 {
      TotalWhereAbsent(rows[..|rows| - 1], s, f, v);
    }
  }

  /** A scope nobody belongs to sums to 0. */
  lemma {:induction false} TotalAbsent(rows: seq<Row>, s: Scope)
    requires forall r :: r in rows ==> !InScope(r, s)
    ensures Total(rows, s) == 0
    decreases |rows|
  {
    if |rows| > 0 {
      TotalAbsent(rows[..|rows| - 1], s);
    }
  }

  /** Grouping all rows by `type` gives, per type, that type's sum. */
  lemma {:induction false} TotalWhereKind(rows: seq<Row>, kind: string)
    ensures TotalWhere(rows, AllRows, Kind, kind) == Total(rows, OfKind(kind))
    decreases |rows|
  {
    if |rows| > 0 {
      TotalWhereKind(rows[..|rows| - 1], kind);
    }
  }
}
