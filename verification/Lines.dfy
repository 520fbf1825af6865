/**
 Lines of text as `std::getline` extracts them: a line ends at a newline, which is dropped,
 and a last piece without a newline still counts as a line unless it is empty.
 */
module Lines {
  import opened Seqs

  /** Position of the first newline, or the length of `s` when there is none. */
  function NewlineAt(s: string): (n: nat)
    ensures n <= |s|
    ensures n < |s| ==> s[n] == '\n'
    ensures '\n' !in s[..n]
  {
    if s == "" || s[0] == '\n' then 0 else 1 + NewlineAt(s[1..])
  }

  /** What one `getline` leaves behind: the text after the line it extracted. */
  function AfterLine(s: string): (rest: string)
    requires s != ""
    ensures |rest| < |s|
  {
    var n := NewlineAt(s);
    if n == |s| then "" else s[n + 1..]
  }

  /** All lines `getline` extracts from `s`, in order. */
  function SplitLines(s: string): seq<string>
    decreases |s|
  {
    if s == "" then [] else [FirstLine(s)] + SplitLines(AfterLine(s))
  }

  function FirstLine(s: string): string { s[..NewlineAt(s)] }

  /** One `getline`, collecting the line it extracts. */
  lemma TakeLine(done: seq<string>, s: string)
    requires s != ""
    ensures done + SplitLines(s) == done + [FirstLine(s)] + SplitLines(AfterLine(s))
  {
    assert done + ([FirstLine(s)] + SplitLines(AfterLine(s))) == done + [FirstLine(s)] + SplitLines(AfterLine(s));
  }

  /** A text that is empty or ends in a newline, so that no line is left open. */
  predicate Closed(s: string) {
    s == "" || s[|s| - 1] == '\n'
  }

  lemma {:induction false} NewlineAtPrefix(a: string, b: string)
    ensures '\n' in a ==> NewlineAt(a + b) == NewlineAt(a) < |a|
    ensures '\n' !in a ==> NewlineAt(a + b) == |a| + NewlineAt(b) && NewlineAt(a) == |a|
  {
    if a == "" {
      assert a + b == b;
    } else {
      assert (a + b)[1..] == a[1..] + b;
      NewlineAtPrefix(a[1..], b);
      if a[0] != '\n' && '\n' in a {
        var i :| 0 <= i < |a| && a[i] == '\n';
        assert a[1..][i - 1] == '\n';
      }
    }
  }

  /** Splitting distributes over a cut that falls between two lines. */
  lemma {:induction false} SplitAtClosedCut(a: string, b: string)
    requires Closed(a)
    ensures SplitLines(a + b) == SplitLines(a) + SplitLines(b)
    decreases |a|
  {
    if a == "" {
      assert a + b == b;
    } else {
      assert a[|a| - 1] in a;
      NewlineAtPrefix(a, b);
      var n := NewlineAt(a);
      assert (a + b)[..n] == a[..n];
      assert AfterLine(a + b) == AfterLine(a) + b;
      SplitAtClosedCut(AfterLine(a), b);
      Associative([FirstLine(a)], SplitLines(AfterLine(a)), SplitLines(b));
    }
  }

  /** A text without newlines is one line, or none when it is empty. */
  lemma SplitOpenLine(p: string)
    requires '\n' !in p
    ensures SplitLines(p) == if p == "" then [] else [p]
  {
    NewlineAtPrefix(p, "");
    assert p + "" == p;
    assert p[..|p|] == p;
  }

  /** Every text is a closed part followed by an open line. */
  lemma {:induction false} ClosedThenOpen(s: string) returns (c: string, p: string)
    ensures s == c + p && Closed(c) && '\n' !in p
    decreases |s|
  {
    if s == "" {
      c, p := "", "";
    } else {
      var n := NewlineAt(s);
      if n == |s| {
        assert s[..n] == s;
        c, p := "", s;
      } else {
        var c', p' := ClosedThenOpen(AfterLine(s));
        c, p := s[..n + 1] + c', p';
      }
    }
  }
}
