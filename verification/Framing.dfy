/**
 How a TCP session turns the bytes it reads into command lines: each filled read buffer is split
 into lines completely, a trailing carriage return is dropped, and empty lines are skipped.
 */
module Framing {
  import opened Lines
  import opened Seqs

  function StripReturn(line: string): string {
    if line != "" && line[|line| - 1] == '\r' then line[..|line| - 1] else line
  }

  /** What one extracted line contributes to the lines that are processed. */
  function Kept(line: string): seq<string> {
    if StripReturn(line) == "" then [] else [StripReturn(line)]
  }

  function KeptLines(lines: seq<string>): seq<string> {
    if lines == [] then [] else Kept(lines[0]) + KeptLines(lines[1..])
  }

  /** The lines that one filled read buffer passes to `process_command`. */
  function Handled(buffer: string): seq<string> { KeptLines(SplitLines(buffer)) }

  lemma {:induction false} KeptLinesConcat(a: seq<string>, b: seq<string>)
    ensures KeptLines(a + b) == KeptLines(a) + KeptLines(b)
  {
    if a == [] {
      assert a + b == b;
    } else {
      assert (a + b)[1..] == a[1..] + b;
      KeptLinesConcat(a[1..], b);
    }
  }

  lemma HandledAtClosedCut(a: string, b: string)
    requires Closed(a)
    ensures Handled(a + b) == Handled(a) + Handled(b)
  {
    SplitAtClosedCut(a, b);
    KeptLinesConcat(SplitLines(a), SplitLines(b));
  }

  lemma HandledFirst(buffer: string)
    requires buffer != ""
    ensures Handled(buffer) == Kept(FirstLine(buffer)) + Handled(AfterLine(buffer))
  {
    var lines := SplitLines(buffer);
    assert lines[0] == FirstLine(buffer) && lines[1..] == SplitLines(AfterLine(buffer));
  }

  // ----- what text the lines are -----

  /** A line as a client sends it, ended by "\r\n" or by "\n" alone. */
  datatype SentLine = SentLine(text: string, crlf: bool)

  /** Neither the newline nor a CR in front of it belongs to the text. */
  predicate IsLineText(text: string, crlf: bool) {
    '\n' !in text && (crlf || text == "" || text[|text| - 1] != '\r')
  }

  predicate Sendable(lines: seq<SentLine>) {
    forall i :: 0 <= i < |lines| ==> IsLineText(lines[i].text, lines[i].crlf)
  }

  function LineEnd(crlf: bool): string { if crlf then "\r\n" else "\n" }

  /** The characters of the lines, one after the other. */
  function Sent(lines: seq<SentLine>): string {
    if lines == [] then "" else lines[0].text + LineEnd(lines[0].crlf) + Sent(lines[1..])
  }

  /** The texts of the lines that are not empty. */
  function NonEmpty(lines: seq<SentLine>): seq<string> {
    if lines == [] then [] else OneOrNone(lines[0].text) + NonEmpty(lines[1..])
  }

  function OneOrNone(text: string): seq<string> { if text == "" then [] else [text] }

  lemma HandledSentLine(line: SentLine)
    requires IsLineText(line.text, line.crlf)
    ensures Handled(line.text + LineEnd(line.crlf)) == OneOrNone(line.text)
  {
    if line.crlf {
      assert line.text + "\r\n" == (line.text + "\r") + "\n";
      HandledClosedLine(line.text + "\r");
      assert StripReturn(line.text + "\r") == line.text;
    } else {
      HandledClosedLine(line.text);
    }
  }

  lemma HandledRest(rest: string, cr: bool)
    requires '\n' !in rest && (rest == "" || cr || rest[|rest| - 1] != '\r')
    ensures Handled(if cr then rest + "\r" else rest) == OneOrNone(rest)
  {
    HandledJustLine(if cr then rest + "\r" else rest);
    assert StripReturn(if cr then rest + "\r" else rest) == rest;
  }

  /**
   Of what a client sends, the texts of the lines that are not empty are handled, as they are and in order; the
   rest of the buffer behind the last line end is one more line, without its last CR if it has one.
   */
  lemma {:induction false} HandledLinesAreThoseSent(lines: seq<SentLine>, rest: string, cr: bool)
    requires Sendable(lines) && '\n' !in rest && (rest == "" || cr || rest[|rest| - 1] != '\r')
    ensures Handled(Sent(lines) + if cr then rest + "\r" else rest)
            == NonEmpty(lines) + if rest == "" then [] else [rest]
  {
    var last := if cr then rest + "\r" else rest;
    if lines == [] {
      HandledRest(rest, cr);
      assert Sent(lines) + last == last;
    } else {
      HandledLinesAreThoseSent(lines[1..], rest, cr);
      SentBeforeOthers(lines[0], Sent(lines[1..]) + last);
      Associative(lines[0].text + LineEnd(lines[0].crlf), Sent(lines[1..]), last);
      Associative(OneOrNone(lines[0].text), NonEmpty(lines[1..]), OneOrNone(rest));
    }
  }

  lemma SentBeforeOthers(line: SentLine, others: string)
    requires IsLineText(line.text, line.crlf)
    ensures Handled(line.text + LineEnd(line.crlf) + others) == OneOrNone(line.text) + Handled(others)
  {
    HandledAtClosedCut(line.text + LineEnd(line.crlf), others);
    HandledSentLine(line);
  }

  /** Every text is such lines and such a rest, so that this says what is handled of any buffer. */
  lemma {:induction false} EveryTextIsSentLines(text: string) returns (lines: seq<SentLine>, rest: string, cr: bool)
    ensures Sendable(lines) && '\n' !in rest && (rest == "" || cr || rest[|rest| - 1] != '\r')
    ensures text == Sent(lines) + if cr then rest + "\r" else rest
    decreases |text|
  {
    var n := NewlineAt(text);
    var line, crlf := DropReturn(text[..n]);
    if n == |text| {
      lines, rest, cr := [], line, crlf;
      assert text[..n] == text;
    } else {
      var more;
      more, rest, cr := EveryTextIsSentLines(text[n + 1..]);
      lines := [SentLine(line, crlf)] + more;
      assert lines[1..] == more;
      assert text == line + LineEnd(crlf) + text[n + 1..];
      Associative(line + LineEnd(crlf), Sent(more), if cr then rest + "\r" else rest);
    }
  }

  /** A piece without newline is a text, followed by a CR or not. */
  lemma DropReturn(piece: string) returns (text: string, cr: bool)
    requires '\n' !in piece
    ensures '\n' !in text && (text == "" || cr || text[|text| - 1] != '\r')
    ensures piece == if cr then text + "\r" else text
  {
    cr := piece != "" && piece[|piece| - 1] == '\r';
    text := if cr then piece[..|piece| - 1] else piece;
  }

  // ----- when a cut of the stream is invisible -----

  /** Whether a reader that gets `a` and then `b` handles the same lines as one that gets both at once. */
  predicate CutInvisible(a: string, b: string) {
    a == "" || b == "" || a[|a| - 1] == '\n' || b[0] == '\n'
    || (b[0] == '\r' && (|b| == 1 || b[1] == '\n') && a[|a| - 1] != '\r')
  }

  lemma HandledClosedLine(p: string)
    requires '\n' !in p
    ensures Handled(p + "\n") == Kept(p)
  {
    NewlineAtPrefix(p, "\n");
    assert FirstLine(p + "\n") == p && AfterLine(p + "\n") == "";
    assert SplitLines(p + "\n") == [p];
    assert KeptLines([p]) == Kept(p) + KeptLines([]);
  }

  lemma HandledOneLine(p: string, rest: string)
    requires '\n' !in p && (rest == "" || rest[0] == '\n')
    ensures Handled(p + rest) == Kept(p) + Handled(if rest == "" then "" else rest[1..])
  {
    if rest == "" {
      assert p + rest == p;
      HandledJustLine(p);
    } else {
      assert p + rest == (p + "\n") + rest[1..];
      HandledAtClosedCut(p + "\n", rest[1..]);
      HandledClosedLine(p);
    }
  }

  lemma KeptTwice(p: string, h: string)
    requires p != "" && '\n' !in p && '\n' !in h
    ensures Kept(p + h) == Kept(p) + Kept(h) <==> h == "" || (h == "\r" && p[|p| - 1] != '\r')
  {
    if h == "" {
      assert p + h == p;
    } else if h == "\r" {
      assert StripReturn(p + h) == p;
      assert Kept(p + h) == [p] && Kept(h) == [];
      assert Kept(p) + Kept(h) == Kept(p);
      assert Kept(p) == [p] <==> StripReturn(p) == p;
      assert StripReturn(p) == p <==> p[|p| - 1] != '\r';
    } else {
      var k := StripReturn(h);
      assert StripReturn(p + h) == p + k;
      assert Kept(h) == [k] && Kept(p + h) == [p + k];
      if Kept(p) == [] {
        assert Kept(p) + Kept(h) == [k];
        assert [p + k][0] != [k][0];
      } else {
        assert |Kept(p) + Kept(h)| == 2;
      }
    }
  }

  lemma OpenLineAndRest(b: string) returns (h: string, rest: string)
    ensures b == h + rest && '\n' !in h && (rest == "" || rest[0] == '\n')
    ensures h == "" <==> b == "" || b[0] == '\n'
    ensures h == "\r" <==> b != "" && b[0] == '\r' && (|b| == 1 || b[1] == '\n')
  {
    var n := NewlineAt(b);
    h, rest := b[..n], b[n..];
  }

  lemma OpenCutExactly(p: string, b: string)
    requires p != "" && '\n' !in p
    ensures Handled(p + b) == Handled(p) + Handled(b) <==> CutInvisible(p, b)
  {
    var h, rest := OpenLineAndRest(b);
    assert p + b == (p + h) + rest;
    HandledOneLine(p + h, rest);
    HandledOneLine(h, rest);
    HandledJustLine(p);
    KeptTwice(p, h);
    CancelBack(Kept(p + h), Kept(p), Kept(h), Handled(if rest == "" then "" else rest[1..]));
  }

  lemma HandledJustLine(p: string)
    requires '\n' !in p
    ensures Handled(p) == Kept(p)
  {
    SplitOpenLine(p);
    assert KeptLines([p]) == Kept(p) + KeptLines([]);
  }

  lemma HandledPastClosed(closed: string, p: string, b: string)
    requires Closed(closed)
    ensures Handled((closed + p) + b) == Handled(closed) + Handled(p + b)
  {
    assert (closed + p) + b == closed + (p + b);
    HandledAtClosedCut(closed, p + b);
  }

  lemma CutAfterClosed(closed: string, p: string, b: string)
    requires Closed(closed) && '\n' !in p && p != ""
    ensures Handled((closed + p) + b) == Handled(closed + p) + Handled(b) <==> CutInvisible(p, b)
  {
    HandledAtClosedCut(closed, p);
    HandledPastClosed(closed, p, b);
    OpenCutExactly(p, b);
    CancelFront(Handled(closed), Handled(p + b), Handled(p), Handled(b));
  }

  /** A cut between two filled buffers changes nothing exactly when it is invisible. */
  lemma CutExactly(a: string, b: string)
    ensures Handled(a + b) == Handled(a) + Handled(b) <==> CutInvisible(a, b)
  {
    var closed, p := ClosedThenOpen(a);
    if p == "" {
      assert a == closed;
      HandledAtClosedCut(a, b);
    } else {
      CutAfterClosed(closed, p, b);
      assert a[|a| - 1] == p[|p| - 1];
    }
  }

  /** A word cut in two, as when the input pauses after "hi" and a part of the next line, is handled as two lines. */
  lemma CutWordShows()
    ensures Handled("hi\nhe" + "llo\n") != Handled("hi\nhe") + Handled("llo\n")
  {
    CutExactly("hi\nhe", "llo\n");
  }

  // ----- any number of cuts -----

  function Chars(lines: seq<string>): nat {
    if lines == [] then 0 else |lines[0]| + Chars(lines[1..])
  }

  lemma {:induction false} CharsConcat(a: seq<string>, b: seq<string>)
    ensures Chars(a + b) == Chars(a) + Chars(b)
  {
    if a == [] {
      assert a + b == b;
    } else {
      assert (a + b)[1..] == a[1..] + b;
      CharsConcat(a[1..], b);
    }
  }

  /** More characters, or as many in fewer lines: what a cut can only take away. */
  predicate Outweighs(x: seq<string>, y: seq<string>) {
    Chars(x) > Chars(y) || (Chars(x) == Chars(y) && |x| < |y|)
  }

  predicate NoLighter(x: seq<string>, y: seq<string>) { x == y || Outweighs(x, y) }

  lemma KeptWeighs(p: string, h: string)
    requires p != "" && '\n' !in p && '\n' !in h
    ensures NoLighter(Kept(p + h), Kept(p) + Kept(h))
  {
    KeptTwice(p, h);
    CharsConcat(Kept(p), Kept(h));
    assert forall line: string :: Chars([line]) == |line| + Chars([]);
    if h != "" {
      assert StripReturn(p + h) == p + StripReturn(h);
    }
  }

  lemma WeighsWithin(front: seq<string>, x: seq<string>, y: seq<string>, back: seq<string>)
    requires NoLighter(x, y)
    ensures NoLighter(front + x + back, front + y + back)
  {
    CharsConcat(front + x, back);
    CharsConcat(front, x);
    CharsConcat(front + y, back);
    CharsConcat(front, y);
  }

  lemma OpenCutWeighs(p: string, b: string)
    requires p != "" && '\n' !in p
    ensures NoLighter(Handled(p + b), Handled(p) + Handled(b))
  {
    var h, rest := OpenLineAndRest(b);
    assert p + b == (p + h) + rest;
    HandledOneLine(p + h, rest);
    HandledOneLine(h, rest);
    HandledJustLine(p);
    KeptWeighs(p, h);
    var back := Handled(if rest == "" then "" else rest[1..]);
    WeighsWithin([], Kept(p + h), Kept(p) + Kept(h), back);
    Associative(Kept(p), Kept(h), back);
    assert [] + Kept(p + h) == Kept(p + h) && [] + (Kept(p) + Kept(h)) == Kept(p) + Kept(h);
  }

  /** A cut never adds: uncut text is handled as the parts are, or as something that outweighs that. */
  lemma CutWeighs(a: string, b: string)
    ensures NoLighter(Handled(a + b), Handled(a) + Handled(b))
  {
    var closed, p := ClosedThenOpen(a);
    if p == "" {
      assert a == closed;
      HandledAtClosedCut(a, b);
    } else {
      HandledAtClosedCut(closed, p);
      HandledPastClosed(closed, p, b);
      OpenCutWeighs(p, b);
      WeighsWithin(Handled(closed), Handled(p + b), Handled(p) + Handled(b), []);
      Associative(Handled(closed), Handled(p), Handled(b));
      assert Handled(closed) + Handled(p + b) + [] == Handled(closed) + Handled(p + b);
      assert Handled(closed) + (Handled(p) + Handled(b)) + [] == Handled(closed) + (Handled(p) + Handled(b));
    }
  }

  function Joined(buffers: seq<string>): string {
    if buffers == [] then "" else buffers[0] + Joined(buffers[1..])
  }

  /** The lines handled when the buffers are filled and handled one by one. */
  function HandledEach(buffers: seq<string>): seq<string> {
    if buffers == [] then [] else Handled(buffers[0]) + HandledEach(buffers[1..])
  }

  /** Every cut is invisible to the rest of the stream. */
  predicate CutsFromRest(buffers: seq<string>) {
    buffers == [] || (CutInvisible(buffers[0], Joined(buffers[1..])) && CutsFromRest(buffers[1..]))
  }

  lemma {:induction false} CutsWeigh(buffers: seq<string>)
    ensures NoLighter(Handled(Joined(buffers)), HandledEach(buffers))
    ensures Handled(Joined(buffers)) == HandledEach(buffers) <==> CutsFromRest(buffers)
  {
    if buffers != [] {
      var first, rest := buffers[0], buffers[1..];
      CutsWeigh(rest);
      CutWeighs(first, Joined(rest));
      CutExactly(first, Joined(rest));
      WeighsWithin(Handled(first), Handled(Joined(rest)), HandledEach(rest), []);
      assert Handled(first) + Handled(Joined(rest)) + [] == Handled(first) + Handled(Joined(rest));
      assert Handled(first) + HandledEach(rest) + [] == Handled(first) + HandledEach(rest);
      SameRest(Handled(first), Handled(Joined(rest)), HandledEach(rest));
    }
  }

  lemma SameRest(a: seq<string>, x: seq<string>, y: seq<string>)
    ensures a + x == a + y <==> x == y
  {
    assert (a + x)[|a|..] == x && (a + y)[|a|..] == y;
  }

  /** Whether each cut is invisible to the next buffer. */
  predicate CutsInvisible(buffers: seq<string>) {
    |buffers| <= 1 || (CutInvisible(buffers[0], buffers[1]) && CutsInvisible(buffers[1..]))
  }

  lemma {:induction false} CutsToNeighbours(buffers: seq<string>)
    requires forall i :: 0 <= i < |buffers| ==> buffers[i] != ""
    ensures CutsFromRest(buffers) <==> CutsInvisible(buffers)
  {
    if |buffers| == 1 {
      assert CutsFromRest(buffers[1..]) && Joined(buffers[1..]) == "";
    } else if |buffers| > 1 {
      var rest := buffers[1..];
      CutsToNeighbours(rest);
      if CutsInvisible(rest) {
        NeighbourOrRest(buffers[0], rest);
      }
    }
  }

  lemma NeighbourOrRest(a: string, rest: seq<string>)
    requires a != "" && rest != [] && forall i :: 0 <= i < |rest| ==> rest[i] != ""
    requires |rest| > 1 ==> CutInvisible(rest[0], rest[1])
    ensures CutInvisible(a, Joined(rest)) <==> CutInvisible(a, rest[0])
  {
    assert Joined(rest) == rest[0] + Joined(rest[1..]);
    if |rest| > 1 {
      assert Joined(rest[1..]) == rest[1] + Joined(rest[1..][1..]);
    }
  }

  /** However a stream is cut into buffers, the same lines are handled exactly when every single cut is invisible. */
  lemma AllCutsExactly(buffers: seq<string>)
    requires forall i :: 0 <= i < |buffers| ==> buffers[i] != ""
    ensures HandledEach(buffers) == Handled(Joined(buffers)) <==> CutsInvisible(buffers)
  {
    CutsWeigh(buffers);
    CutsToNeighbours(buffers);
  }

  // ----- the whole stream, with `/quit` -----

  predicate IsSpace(c: char) {
    c == ' ' || c == '\t' || c == '\n' || c == '\r' || c == '\U{0B}' || c == '\U{0C}'
  }

  /** The first word that `>>` extracts. */
  function FirstWord(line: string): string {
    if line == "" then ""
    else if IsSpace(line[0]) then FirstWord(line[1..])
    else WordAt(line)
  }

  function WordAt(line: string): string {
    if line == "" || IsSpace(line[0]) then "" else [line[0]] + WordAt(line[1..])
  }

  /** What `/quit` is answered with. */
  const FAREWELL := "* closing the connection...\r\n"

  predicate Quits(line: string) { FirstWord(line) == "/quit" }

  ghost predicate Blank(s: string) { forall c :: c in s ==> IsSpace(c) }

  ghost predicate IsAround(word: string, before: string, after: string, line: string) {
    line == before + word + after && Blank(before) && (after == "" || IsSpace(after[0]))
  }

  /** The lines that quit: nothing but space, then `/quit`, then nothing or a space and anything. */
  lemma QuitsExactly(line: string)
    ensures Quits(line) <==> exists before, after :: IsAround("/quit", before, after, line)
  {
    if Quits(line) {
      var before, after := AroundFirstWord(line);
      assert IsAround("/quit", before, after, line);
    }
    if before, after :| IsAround("/quit", before, after, line) {
      FirstWordIs(before, "/quit", after);
    }
  }

  lemma {:induction false} FirstWordIs(before: string, word: string, after: string)
    requires Blank(before) && word != "" && (forall c :: c in word ==> !IsSpace(c))
    requires after == "" || IsSpace(after[0])
    ensures FirstWord(before + word + after) == word
  {
    if before == "" {
      assert before + word + after == word + after;
      assert word[0] in word;
      WordIs(word, after);
    } else {
      assert (before + word + after)[1..] == before[1..] + word + after;
      assert before[0] in before;
      FirstWordIs(before[1..], word, after);
    }
  }

  lemma {:induction false} WordIs(word: string, after: string)
    requires (forall c :: c in word ==> !IsSpace(c)) && (after == "" || IsSpace(after[0]))
    ensures WordAt(word + after) == word
  {
    if word == "" {
      assert word + after == after;
    } else {
      assert (word + after)[1..] == word[1..] + after;
      assert word[0] in word;
      WordIs(word[1..], after);
    }
  }

  lemma {:induction false} AroundFirstWord(line: string) returns (before: string, after: string)
    ensures IsAround(FirstWord(line), before, after, line)
  {
    if line != "" && IsSpace(line[0]) {
      before, after := AroundFirstWord(line[1..]);
      before := [line[0]] + before;
    } else {
      before := "";
      after := AfterWord(line);
    }
  }

  lemma {:induction false} AfterWord(line: string) returns (after: string)
    ensures line == WordAt(line) + after && (after == "" || IsSpace(after[0]))
  {
    if line == "" || IsSpace(line[0]) {
      after := line;
    } else {
      after := AfterWord(line[1..]);
    }
  }

  /** The lines a session acts on: those after the first `/quit` find it stopped. */
  function UpToQuit(lines: seq<string>): seq<string> {
    if lines == [] then []
    else if Quits(lines[0]) then [lines[0]]
    else [lines[0]] + UpToQuit(lines[1..])
  }

  predicate AnyQuits(lines: seq<string>) { lines != [] && (Quits(lines[0]) || AnyQuits(lines[1..])) }

  lemma {:induction false} UpToQuitConcat(a: seq<string>, b: seq<string>)
    ensures UpToQuit(a + b) == if AnyQuits(a) then UpToQuit(a) else UpToQuit(a) + UpToQuit(b)
    ensures AnyQuits(a + b) <==> AnyQuits(a) || AnyQuits(b)
  {
    if a == [] {
      assert a + b == b;
    } else {
      assert (a + b)[1..] == a[1..] + b;
      UpToQuitConcat(a[1..], b);
    }
  }

  /** The lines acted on are the first of those handled, up to and with the first that quits, or else all of them. */
  lemma {:induction false} UpToQuitExactly(lines: seq<string>, n: nat)
    requires n <= |lines|
    ensures UpToQuit(lines) == lines[..n] <==>
              (forall i :: 0 <= i < n - 1 ==> !Quits(lines[i])) && (n < |lines| ==> n > 0 && Quits(lines[n - 1]))
    ensures AnyQuits(lines) <==> exists i :: 0 <= i < |lines| && Quits(lines[i])
  {
    if lines != [] {
      if n > 0 {
        UpToQuitExactly(lines[1..], n - 1);
        assert lines[..n] == [lines[0]] + lines[1..][..n - 1];
      } else {
        UpToQuitExactly(lines[1..], 0);
      }
      if i: nat :| i < |lines| && Quits(lines[i]) {
        assert i > 0 ==> lines[i] == lines[1..][i - 1];
      }
    }
  }

  /** The lines a running session acts on when its read buffer is filled with each of `buffers` in turn. */
  function ActedOn(buffers: seq<string>): seq<string> {
    if buffers == [] then []
    else if AnyQuits(Handled(buffers[0])) then UpToQuit(Handled(buffers[0]))
    else UpToQuit(Handled(buffers[0])) + ActedOn(buffers[1..])
  }

  /** However the stream is cut between lines, the session acts on the same lines. */
  lemma {:induction false} ChunkIndependent(buffers: seq<string>)
    requires forall i :: 0 <= i < |buffers| - 1 ==> Closed(buffers[i])
    ensures ActedOn(buffers) == UpToQuit(Handled(Joined(buffers)))
  {
    if |buffers| == 1 {
      assert buffers[0] + Joined(buffers[1..]) == buffers[0];
      assert ActedOn(buffers[1..]) == [];
    } else if |buffers| > 1 {
      ChunkIndependent(buffers[1..]);
      HandledAtClosedCut(buffers[0], Joined(buffers[1..]));
      UpToQuitConcat(Handled(buffers[0]), Handled(Joined(buffers[1..])));
    }
  }

  lemma {:induction false} ActedOnEach(buffers: seq<string>)
    ensures ActedOn(buffers) == UpToQuit(HandledEach(buffers))
  {
    if buffers != [] {
      ActedOnEach(buffers[1..]);
      UpToQuitConcat(Handled(buffers[0]), HandledEach(buffers[1..]));
    }
  }

  /** The same for the lines a session acts on: cuts that are invisible make no difference. */
  lemma InvisibleCuts(buffers: seq<string>)
    requires forall i :: 0 <= i < |buffers| ==> buffers[i] != ""
    requires CutsInvisible(buffers)
    ensures ActedOn(buffers) == UpToQuit(Handled(Joined(buffers)))
  {
    AllCutsExactly(buffers);
    ActedOnEach(buffers);
  }
}
