/** Sequence helpers shared by the bot's folds: an Option type, distinctness,
    first-occurrence lookup (JavaScript `indexOf`), and the "push when not yet
    included" fold that builds chart labels and object key orders. */
module Seqs {

  /** A value that may be absent (JavaScript `undefined`, or an array hole). */
  datatype Option<+T> = None | Some(value: T)

  /** No element occurs twice. */
  predicate Distinct<T(==)>(xs: seq<T>) {
    forall i, j :: 0 <= i < j < |xs| ==> xs[i] != xs[j]
  }

  /** Appending keeps a sequence repeat-free exactly when the new element is new. */
  lemma DistinctSnoc<T>(xs: seq<T>, x: T)
    ensures Distinct(xs + [x]) <==> Distinct(xs) && x !in xs
  {
    var ys := xs + [x];
    if Distinct(ys) {
      forall i, j | 0 <= i < j < |xs| ensures xs[i] != xs[j] {
        assert ys[i] == xs[i] && ys[j] == xs[j];
      }
      forall i | 0 <= i < |xs| ensures xs[i] != x {
        assert ys[i] == xs[i] && ys[|xs|] == x;
      }
    }
  }

  /** Position of the first occurrence of `x` in `xs` (JavaScript `indexOf`). */
  function IndexOf<T(==)>(xs: seq<T>, x: T): (i: nat)
    requires x in xs
    ensures i < |xs| && xs[i] == x
    ensures forall j :: 0 <= j < i ==> xs[j] != x
  {
    if xs[0] == x then 0 else 1 + IndexOf(xs[1..], x)
  }

  /** `if (!acc.includes(x)) acc.push(x)` */
  function AppendNew<T(==)>(acc: seq<T>, x: T): seq<T> {
    if x in acc then acc else acc + [x]
  }

  /** AppendNew folded over `xs` from left to right, starting from `acc`. */
  function Collect<T(==)>(acc: seq<T>, xs: seq<T>): seq<T>
    decreases |xs|
  {
    if |xs| == 0 then acc else AppendNew(Collect(acc, xs[..|xs| - 1]), xs[|xs| - 1])
  }

  /** The meaning of Collect, stated without the fold: `r` is `acc` followed by
      the elements of `xs` that are not in `acc`, each exactly once, ordered by
      their first occurrence in `xs`. */
  ghost predicate FirstOccurrences<T(!new)>(r: seq<T>, acc: seq<T>, xs: seq<T>) {
    && |acc| <= |r|
    && r[..|acc|] == acc
    && Distinct(r)
    && (forall x :: x in r <==> x in acc || x in xs)
    && (forall i :: |acc| <= i < |r| ==> r[i] in xs)
    && (forall i, j :: |acc| <= i < j < |r| ==> IndexOf(xs, r[i]) < IndexOf(xs, r[j]))
  }

  /** Appending an element does not move the first occurrence of anything
      already present. */
  lemma {:induction false} IndexOfSnoc<T>(xs: seq<T>, x: T, y: T)
    requires y in xs
    ensures IndexOf(xs + [x], y) == IndexOf(xs, y)
  {
    var n := IndexOf(xs, y);
    var m := IndexOf(xs + [x], y);
    assert (xs + [x])[n] == y;
  }

  /** A new element's first occurrence is where it was appended. */
  lemma IndexOfAppended<T>(xs: seq<T>, x: T)
    requires x !in xs
    ensures IndexOf(xs + [x], x) == |xs|
  {
  }

  /** Collect computes exactly the first occurrences described above. */
  lemma {:induction false} CollectIsFirstOccurrences<T(!new)>(acc: seq<T>, xs: seq<T>)
    requires Distinct(acc)
    ensures FirstOccurrences(Collect(acc, xs), acc, xs)
    decreases |xs|
  {
    if |xs| == 0 {
      assert Collect(acc, xs) == acc;
      assert acc[..|acc|] == acc;
    } else {
      var p := xs[..|xs| - 1];
      var x := xs[|xs| - 1];
      assert xs == p + [x];
      CollectIsFirstOccurrences(acc, p);
      if x in Collect(acc, p) {
        AppendSeen(Collect(acc, p), acc, p, x);
      } else {
        AppendFresh(Collect(acc, p), acc, p, x);
      }
    }
  }

  /** An element seen before leaves the first occurrences as they were. */
  lemma AppendSeen<T(!new)>(r: seq<T>, acc: seq<T>, p: seq<T>, x: T)
    requires FirstOccurrences(r, acc, p) && x in r
    ensures FirstOccurrences(r, acc, p + [x])
  {
    forall y | y in p
      ensures IndexOf(p + [x], y) == IndexOf(p, y)
    {
      IndexOfSnoc(p, x, y);
    }
  }

  /** A new element is added at the end, after all earlier first
      occurrences. */
  lemma AppendFresh<T(!new)>(r: seq<T>, acc: seq<T>, p: seq<T>, x: T)
    requires FirstOccurrences(r, acc, p) && x !in r
    ensures FirstOccurrences(r + [x], acc, p + [x])
  {
    var xs := p + [x];
    var r' := r + [x];
    forall y | y in p
      ensures IndexOf(xs, y) == IndexOf(p, y)
    {
      IndexOfSnoc(p, x, y);
    }
    IndexOfAppended(p, x);
    assert r'[..|acc|] == r[..|acc|];
    forall i | |acc| <= i < |r|
      ensures IndexOf(xs, r'[i]) < IndexOf(xs, x)
    {
      assert r[i] in p;
    }
  }

  /** Collecting a sequence that already has no repeats, from nothing, returns
      it unchanged. */
  lemma {:induction false} CollectDistinct<T>(xs: seq<T>)
    requires Distinct(xs)
    ensures Collect([], xs) == xs
    decreases |xs|
  {
    if |xs| > 0 {
      var p := xs[..|xs| - 1];
      assert xs == p + [xs[|xs| - 1]];
      CollectDistinct(p);
      assert xs[|xs| - 1] !in p;
    }
  }
}
