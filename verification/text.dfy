/** String operations the bot relies on: JavaScript's `split(' ')` and
    `join(' ')`, and the byte-wise ordering SQLite uses to compare TEXT
    values (`BETWEEN`, `>=`, `<=`, `ORDER BY`). */
module Text {
  import opened Seqs

  const Space: char := ' '

  /** No space anywhere in the token. */
  predicate SpaceFree(s: string) {
    Space !in s
  }

  /** `s.split(' ')`: cut at every single space. Consecutive, leading or
      trailing spaces give empty tokens, and the empty string gives `[""]`. */
  function Split(s: string): (parts: seq<string>)
    ensures |parts| >= 1
    ensures forall i :: 0 <= i < |parts| ==> SpaceFree(parts[i])
    decreases |s|
  {
    if Space !in s then [s]
    else
      var i := IndexOf(s, Space);
      [s[..i]] + Split(s[i + 1..])
  }

  /** `parts.join(' ')`. */
  function Join(parts: seq<string>): string {
    if |parts| == 0 then ""
    else if |parts| == 1 then parts[0]
    else parts[0] + [Space] + Join(parts[1..])
  }

  /** Joining the tokens with single spaces gives the original text back. */
  lemma {:induction false} JoinSplit(s: string)
    ensures Join(Split(s)) == s
    decreases |s|
  {
    if Space in s {
      var i := IndexOf(s, Space);
      var head, rest := s[..i], s[i + 1..];
      var tail := Split(rest);
      var parts := [head] + tail;
      assert Split(s) == parts;
      assert |parts| >= 2 && parts[0] == head && parts[1..] == tail;
      JoinSplit(rest);
      assert Join(parts) == head + [Space] + rest;
      assert s == head + [Space] + rest;
    }
  }

  /** Splitting space-free tokens joined by single spaces recovers the tokens. */
  lemma {:induction false} SplitJoin(parts: seq<string>)
    requires |parts| >= 1
    requires forall i :: 0 <= i < |parts| ==> SpaceFree(parts[i])
    ensures Split(Join(parts)) == parts
    decreases |parts|
  {
    if |parts| > 1 {
      SplitAtFirstSpace(parts[0], Join(parts[1..]));
      SplitJoin(parts[1..]);
      assert parts == [parts[0]] + parts[1..];
    }
  }

  /** The text before the first space is the first token. */
  lemma SplitAtFirstSpace(head: string, rest: string)
    requires SpaceFree(head)
    ensures Split(head + [Space] + rest) == [head] + Split(rest)
  {
    var s := head + [Space] + rest;
    assert s[|head|] == Space;
    var i := IndexOf(s, Space);
    assert forall j :: 0 <= j < |head| ==> s[j] == head[j];
    assert i == |head|;
    assert s[..i] == head;
    assert s[i + 1..] == rest;
  }

  /** `a <= b` in SQLite's BINARY collation: code-point-wise lexicographic,
      a proper prefix sorting first. */
  predicate TextLeq(a: string, b: string) {
    if |a| == 0 then true
    else if |b| == 0 then false
    else if a[0] != b[0] then a[0] < b[0]
    else TextLeq(a[1..], b[1..])
  }

  /** Any two texts are ordered one way or the other. */
  lemma {:induction false} TextLeqTotal(a: string, b: string)
    ensures TextLeq(a, b) || TextLeq(b, a)
    decreases |a|
  {
    if |a| > 0 && |b| > 0 && a[0] == b[0] {
      TextLeqTotal(a[1..], b[1..]);
    }
  }

  /** Texts ordered both ways are equal. */
  lemma {:induction false} TextLeqAntisymmetric(a: string, b: string)
    requires TextLeq(a, b) && TextLeq(b, a)
    ensures a == b
    decreases |a|
  {
    if |a| > 0 && |b| > 0 {
      TextLeqAntisymmetric(a[1..], b[1..]);
      assert a == [a[0]] + a[1..];
      assert b == [b[0]] + b[1..];
    }
  }

  /** The ordering is transitive. */
  lemma {:induction false} TextLeqTransitive(a: string, b: string, c: string)
    requires TextLeq(a, b) && TextLeq(b, c)
    ensures TextLeq(a, c)
    decreases |a|
  {
    if |a| > 0 && |b| > 0 && |c| > 0 && a[0] == b[0] && b[0] == c[0] {
      TextLeqTransitive(a[1..], b[1..], c[1..]);
    }
  }
}
