/**
 The message history: plain text files that grow by one line per logged message, read back
 whole or from the tail. The operating system answers each call through an `Io` parameter.
 */
module History {
  import opened Lines
  import opened SafeNames

  /** What one `write` call does with the bytes offered to it. */
  datatype WriteResult =
    | Accepted(count: nat)  // takes the first `count` bytes, or all of them when fewer are offered
    | Interrupted           // EINTR
    | Failed

  /** The answers of the operating system to one append. */
  datatype Io = Io(opens: bool, writes: nat -> WriteResult, durable: bool, syncs: bool, closes: bool)

  datatype Outcome = Logged | Thrown

  /** From call number `bound` on, no `write` is interrupted any more. */
  ghost predicate InterruptsEnd(io: Io, bound: nat) {
    forall i: nat :: bound <= i ==> !io.writes(i).Interrupted?
  }

  /** A call of `write` that ends the append. */
  ghost predicate Fails(w: WriteResult) { w == Failed || w == Accepted(0) }

  /** The bytes the kernel is willing to take in the first `calls` calls. */
  ghost function Taken(io: Io, calls: nat): nat {
    if calls == 0 then 0
    else Taken(io, calls - 1) + match io.writes(calls - 1) case Accepted(n) => n case _ => 0
  }

  ghost function Min(a: nat, b: nat): nat { if a <= b then a else b }

  ghost predicate NoneFails(io: Io, calls: nat) { forall i: nat :: i < calls ==> !Fails(io.writes(i)) }

  /** `write` was called until a call failed or all `size` bytes were in, and `kept` bytes are. */
  ghost predicate WroteUntilDone(io: Io, size: nat, calls: nat, kept: nat) {
    && kept == Min(Taken(io, calls), size)
    && (calls > 0 ==> NoneFails(io, calls - 1) && Taken(io, calls - 1) < size)
    && (if kept == size then NoneFails(io, calls) else calls > 0 && Fails(io.writes(calls - 1)))
  }

  lemma TakeMore(io: Io, calls: nat, size: nat, kept: nat)
    requires kept == Min(Taken(io, calls), size) && io.writes(calls).Accepted?
    ensures Min(Taken(io, calls + 1), size) == Min(kept + io.writes(calls).count, size)
  {
  }

  /** The bytes of `line` and its newline that `kept` accepted bytes put into the file. */
  function Landed(line: string, kept: nat): string {
    if kept <= |line| then line[..kept] else line + "\n"
  }

  lemma LandedPrefix(line: string, kept: nat)
    requires kept <= |line| + 1
    ensures (line + "\n")[..kept] == Landed(line, kept)
  {
  }

  lemma WriteSome(before: string, payload: string, cursor: nat, written: nat)
    requires cursor + written <= |payload|
    ensures before + payload[..cursor] + payload[cursor..cursor + written] == before + payload[..cursor + written]
  {
    assert payload[..cursor] + payload[cursor..cursor + written] == payload[..cursor + written];
    assert before + payload[..cursor] + payload[cursor..cursor + written]
        == before + (payload[..cursor] + payload[cursor..cursor + written]);
  }

  function LastN<T>(s: seq<T>, k: nat): seq<T> {
    if |s| <= k then s else s[|s| - k..]
  }

  /** Pushing at the back of a full tail buffer and popping its front keeps the last elements. */
  lemma LastNStep<T>(s: seq<T>, x: T, k: nat)
    requires k > 0
    ensures var pushed := LastN(s, k) + [x];
            LastN(s + [x], k) == if |pushed| > k then pushed[1..] else pushed
  {
  }

  /** A double-ended queue; `peak` is the most elements it ever held. */
  class Deque<T> {
    var items: seq<T>
    ghost var peak: nat

    constructor ()
      ensures items == [] && peak == 0
    {
      items, peak := [], 0;
    }

    method PushBack(x: T)
      modifies this
      ensures items == old(items) + [x]
      ensures peak == if |items| > old(peak) then |items| else old(peak)
    {
      items := items + [x];
      peak := if |items| > peak then |items| else peak;
    }

    method PopFront()
      requires items != []
      modifies this
      ensures items == old(items)[1..] && peak == old(peak)
    {
      items := items[1..];
    }
  }

  /** What has been read and what is left make up the lines of the text. */
  ghost predicate ReadSoFar(lines: seq<string>, rest: string, text: string) {
    lines + SplitLines(rest) == SplitLines(text)
  }

  lemma ReadOne(lines: seq<string>, rest: string, text: string)
    requires ReadSoFar(lines, rest, text) && rest != ""
    ensures ReadSoFar(lines + [FirstLine(rest)], AfterLine(rest), text)
  {
    TakeLine(lines, rest);
  }

  lemma ReadNothing(text: string)
    ensures ReadSoFar([], text, text)
  {
    assert [] + SplitLines(text) == SplitLines(text);
  }

  lemma ReadAll(lines: seq<string>, text: string)
    requires ReadSoFar(lines, "", text)
    ensures lines == SplitLines(text)
  {
    assert lines + [] == lines;
  }

  method AllLines(text: string) returns (lines: seq<string>)
    ensures lines == SplitLines(text)
  {
    lines := [];
    var rest := text;
    ReadNothing(text);
    while rest != ""
      invariant ReadSoFar(lines, rest, text)
      decreases |rest|
    {
      ReadOne(lines, rest, text);
      lines := lines + [FirstLine(rest)];
      rest := AfterLine(rest);
    }
    ReadAll(lines, text);
  }

  /** The buffer after reading all lines through it: it holds the last ones and never held more than `limit + 1`. */
  method TailOf(text: string, limit: nat) returns (tail: Deque<string>)
    requires limit > 0
    ensures fresh(tail) && tail.items == LastN(SplitLines(text), limit)
    ensures tail.peak == Min(|SplitLines(text)|, limit + 1)
  {
    tail := new Deque();
    var rest := text;
    ghost var done: seq<string> := [];
    ReadNothing(text);
    while rest != ""
      invariant fresh(tail) && ReadSoFar(done, rest, text)
      invariant tail.items == LastN(done, limit) && tail.peak == Min(|done|, limit + 1)
      decreases |rest|
    {
      ReadOne(done, rest, text);
      LastNStep(done, FirstLine(rest), limit);
      tail.PushBack(FirstLine(rest));
      done := done + [FirstLine(rest)];
      if |tail.items| > limit {
        tail.PopFront();
      }
      rest := AfterLine(rest);
    }
    ReadAll(done, text);
  }

  class MessageHistory {
    const dir: string
    var enabled: bool
    var files: map<string, string>

    constructor (dir: string)
      ensures this.dir == dir && enabled && files == map[]
    {
      this.dir := dir;
      enabled := true;
      files := map[];
    }

    /** The bytes of a file; a file that does not exist has none. */
    function Content(name: string): string
      reads this`files
    {
      if name in files then files[name] else ""
    }

    /**
     Appends `line` and a newline, however the kernel cuts the writes. A normal return means the whole
     payload is in the file; an exception, that the bytes the kernel took before the failing call are.
     No other file changes.
     */
    method AppendHistoryLine(name: string, line: string, io: Io, ghost bound: nat)
      returns (outcome: Outcome, ghost kept: nat, ghost calls: nat)
      requires InterruptsEnd(io, bound)
      modifies this`files
      ensures kept <= |line| + 1
      ensures Content(name) == old(Content(name)) + Landed(line, kept)
      ensures files - {name} == old(files) - {name}
      ensures if io.opens then WroteUntilDone(io, |line| + 1, calls, kept) else files == old(files) && kept == 0
      ensures outcome == Logged <==> io.opens && kept == |line| + 1 && (io.durable ==> io.syncs) && io.closes
      ensures Content(name) == old(Content(name)) + (line + "\n")[..kept]
      ensures io.opens && (io.durable ==> io.syncs) && io.closes
              && (forall i: nat :: i < calls ==> io.writes(i) != Failed && io.writes(i) != Accepted(0)) ==>
                outcome == Logged && Content(name) == old(Content(name)) + (line + "\n")
      ensures io.opens && kept <= |line| ==>
                && calls > 0 && (io.writes(calls - 1) == Failed || io.writes(calls - 1) == Accepted(0))
                && forall i: nat :: i < calls - 1 ==>
                     io.writes(i).Interrupted? || (io.writes(i).Accepted? && io.writes(i).count > 0)
    {
      kept, calls := 0, 0;
      if !io.opens {
        return Thrown, kept, calls;
      }
      if name !in files {
        files := files[name := ""];
      }
      var payload := line + "\n";
      var written;
      written, kept, calls := WriteAll(name, payload, io, bound);
      LandedPrefix(line, kept);
      if !written || (io.durable && !io.syncs) || !io.closes {
        return Thrown, kept, calls;
      }
      return Logged, kept, calls;
    }

    /** The loop around `write`; it ends early only when a call fails. */
    method WriteAll(name: string, payload: string, io: Io, ghost bound: nat)
      returns (written: bool, ghost kept: nat, ghost calls: nat)
      requires name in files && InterruptsEnd(io, bound)
      modifies this`files
      ensures kept <= |payload| && files == old(files)[name := old(files)[name] + payload[..kept]]
      ensures WroteUntilDone(io, |payload|, calls, kept)
      ensures written <==> kept == |payload|
      ensures (forall i: nat :: i < calls ==> io.writes(i) != Failed && io.writes(i) != Accepted(0)) ==> written
      ensures !written ==>
                && calls > 0 && (io.writes(calls - 1) == Failed || io.writes(calls - 1) == Accepted(0))
                && forall i: nat :: i < calls - 1 ==>
                     io.writes(i).Interrupted? || (io.writes(i).Accepted? && io.writes(i).count > 0)
    {
      var cursor, remaining := 0, |payload|;
      var call := 0;
      assert files[name] + payload[..0] == files[name];
      while remaining > 0
        invariant 0 <= cursor && 0 <= remaining && cursor + remaining == |payload|
        invariant files == old(files)[name := old(files)[name] + payload[..cursor]]
        invariant NoneFails(io, call) && cursor == Min(Taken(io, call), |payload|)
        invariant call > 0 ==> Taken(io, call - 1) < |payload|
        decreases remaining, bound - call
      {
        var result := io.writes(call);
        if result.Interrupted? {
          call := call + 1;
          continue;
        }
        if result.Failed? || result.count == 0 {
          return false, cursor, call + 1;
        }
        var count := if result.count < remaining then result.count else remaining;
        TakeMore(io, call, |payload|, cursor);
        WriteSome(old(files)[name], payload, cursor, count);
        files := files[name := files[name] + payload[cursor..cursor + count]];
        cursor := cursor + count;
        remaining := remaining - count;
        call := call + 1;
      }
      return true, cursor, call;
    }

    /**
     The last `limit` lines of a file, or all of them when `limit` is 0; `peak` is the most lines the
     tail buffer ever held, which is one more than the limit as soon as the file has that many.
     */
    method ReadLastLines(name: string, limit: nat) returns (lines: seq<string>, ghost peak: nat)
      ensures lines == if limit == 0 then SplitLines(Content(name)) else LastN(SplitLines(Content(name)), limit)
      ensures limit > 0 ==> peak == Min(|SplitLines(Content(name))|, limit + 1)
      ensures var all := SplitLines(Content(name));
              && |lines| == (if limit == 0 || |all| <= limit then |all| else limit)
              && lines == all[|all| - |lines|..]
    {
      lines, peak := [], 0;
      if name !in files {
        return;
      }
      if limit == 0 {
        lines := AllLines(files[name]);
      } else {
        var tail := TailOf(files[name], limit);
        lines, peak := tail.items, tail.peak;
      }
    }

    /** Logs a private message in the file of the unordered pair of users. */
    method LogPrivateMessage(message: string, sender: string, receiver: string, timestamp: string,
                             io: Io, ghost bound: nat)
      returns (ghost kept: nat, ghost calls: nat)
      requires InterruptsEnd(io, bound)
      modifies this`files
      ensures var entry := timestamp + " [" + sender + " -> " + receiver + "]: " + message;
              kept <= |entry| + 1 &&
              Content(PrivatePath(dir, receiver, sender)) ==
              old(Content(PrivatePath(dir, receiver, sender))) + Landed(entry, kept) &&
              (enabled && io.opens ==> WroteUntilDone(io, |entry| + 1, calls, kept)) &&
              (enabled && io.opens
               && (forall i: nat :: i < calls ==> io.writes(i) != Failed && io.writes(i) != Accepted(0)) ==>
                 Content(PrivatePath(dir, receiver, sender)) ==
                 old(Content(PrivatePath(dir, receiver, sender))) + (entry + "\n"))
      ensures !enabled || !io.opens ==> files == old(files)
      ensures files - {PrivatePath(dir, sender, receiver)} == old(files) - {PrivatePath(dir, sender, receiver)}
    {
      PrivatePathSymmetric(dir, sender, receiver);
      kept, calls := 0, 0;
      if !enabled {
        return;
      }
      var entry := timestamp + " [" + sender + " -> " + receiver + "]: " + message;
      var user1 := SafePathComponent(sender);
      var user2 := SafePathComponent(receiver);
      if Less(user2, user1) {
        user1, user2 := user2, user1;
      }
      var name := dir + "/private/" + user1 + "_" + user2 + ".txt";
      PathParts(dir, user1, user2);
      var outcome;
      outcome, kept, calls := AppendHistoryLine(name, entry, io, bound);
    }

    /** Reads the private history of two users, in whichever order they are named. */
    method LoadPrivateHistory(user1: string, user2: string, limit: nat) returns (result: seq<string>)
      ensures var lines := SplitLines(Content(PrivatePath(dir, user2, user1)));
              result == if !enabled then [] else if limit == 0 then lines else LastN(lines, limit)
    {
      PrivatePathSymmetric(dir, user1, user2);
      if !enabled {
        return [];
      }
      var u1 := SafePathComponent(user1);
      var u2 := SafePathComponent(user2);
      if Less(u2, u1) {
        u1, u2 := u2, u1;
      }
      var name := dir + "/private/" + u1 + "_" + u2 + ".txt";
      PathParts(dir, u1, u2);
      if name !in files {
        return [];
      }
      ghost var peak;
      result, peak := ReadLastLines(name, limit);
    }
  }

  // ----- what a log file says after many appends -----

  /** An append: the entry and how many bytes of entry and newline reached the file. */
  datatype Append = Append(entry: string, kept: nat)

  ghost predicate Complete(a: Append) { a.kept > |a.entry| }

  /** The content of an empty file after the appends. */
  ghost function ContentAfter(appends: seq<Append>): string {
    if appends == [] then ""
    else
      var a := appends[|appends| - 1];
      ContentAfter(appends[..|appends| - 1]) + Landed(a.entry, a.kept)
  }

  ghost function Entries(appends: seq<Append>): seq<string> {
    if appends == [] then [] else Entries(appends[..|appends| - 1]) + [appends[|appends| - 1].entry]
  }

  /** The pieces of an entry between its newlines; an entry without newlines is its own only piece. */
  ghost function Pieces(entry: string): (pieces: seq<string>)
    ensures '\n' !in entry ==> pieces == [entry]
    ensures '\n' in entry ==> |pieces| >= 2
    decreases |entry|
  {
    var n := NewlineAt(entry);
    if n == |entry| then
      assert entry[..n] == entry;
      [entry]
    else
      var rest := Pieces(entry[n + 1..]);
      [entry[..n]] + rest
  }

  ghost function JoinWithNewlines(pieces: seq<string>): string
    requires pieces != []
  {
    if |pieces| == 1 then pieces[0] else pieces[0] + "\n" + JoinWithNewlines(pieces[1..])
  }

  lemma RejoinAt(entry: string, n: nat)
    requires n < |entry| && entry[n] == '\n'
    ensures entry[..n] + "\n" + entry[n + 1..] == entry
  {
  }

  lemma RejoinFirst(first: string, rest: seq<string>)
    requires rest != []
    ensures JoinWithNewlines([first] + rest) == first + "\n" + JoinWithNewlines(rest)
  {
    assert ([first] + rest)[1..] == rest;
  }

  /** Splitting loses nothing: the pieces hold no newline and, with newlines between them, are the entry. */
  lemma {:induction false} PiecesRejoin(entry: string)
    ensures Pieces(entry) != [] && JoinWithNewlines(Pieces(entry)) == entry
    ensures forall p :: p in Pieces(entry) ==> '\n' !in p
    decreases |entry|
  {
    var n := NewlineAt(entry);
    if n < |entry| {
      var first, rest := entry[..n], entry[n + 1..];
      PiecesRejoin(rest);
      assert Pieces(entry) == [first] + Pieces(rest);
      RejoinFirst(first, Pieces(rest));
      RejoinAt(entry, n);
    }
  }

  ghost function AllPieces(entries: seq<string>): seq<string> {
    if entries == [] then []
    else AllPieces(entries[..|entries| - 1]) + Pieces(entries[|entries| - 1])
  }

  lemma {:induction false} PiecesAreLines(entry: string)
    ensures SplitLines(entry + "\n") == Pieces(entry)
    decreases |entry|
  {
    var n := NewlineAt(entry);
    NewlineAtPrefix(entry, "\n");
    assert (entry + "\n")[..n] == entry[..n];
    if n == |entry| {
      assert '\n' !in entry by {
        if '\n' in entry { assert false; }
      }
      assert AfterLine(entry + "\n") == "";
    } else {
      assert AfterLine(entry + "\n") == entry[n + 1..] + "\n";
      PiecesAreLines(entry[n + 1..]);
    }
  }

  lemma {:induction false} CompleteAppendsClose(appends: seq<Append>)
    requires forall a :: a in appends ==> Complete(a)
    ensures Closed(ContentAfter(appends))
  {
    if appends != [] {
      var a := appends[|appends| - 1];
      assert a in appends;
    }
  }

  /** After successful appends only, the file reads back as the pieces of the entries, in order. */
  lemma {:induction false} HistoryLaw(appends: seq<Append>)
    requires forall a :: a in appends ==> Complete(a)
    ensures SplitLines(ContentAfter(appends)) == AllPieces(Entries(appends))
  {
    if appends != [] {
      var init, a := appends[..|appends| - 1], appends[|appends| - 1];
      assert a in appends;
      HistoryLaw(init);
      CompleteAppendsClose(init);
      SplitAtClosedCut(ContentAfter(init), a.entry + "\n");
      PiecesAreLines(a.entry);
    }
  }

  lemma {:induction false} PiecesCount(entries: seq<string>)
    ensures |AllPieces(entries)| >= |entries|
    ensures (exists e :: e in entries && '\n' in e) ==> |AllPieces(entries)| > |entries|
  {
    if entries != [] {
      var init, e := entries[..|entries| - 1], entries[|entries| - 1];
      PiecesCount(init);
      assert entries == init + [e];
      assert |Pieces(e)| >= 1;
    }
  }

  lemma {:induction false} PiecesOfPlainEntries(entries: seq<string>)
    requires forall e :: e in entries ==> '\n' !in e
    ensures AllPieces(entries) == entries
  {
    if entries != [] {
      var init, e := entries[..|entries| - 1], entries[|entries| - 1];
      assert e in entries;
      PiecesOfPlainEntries(init);
      assert entries == init + [e];
    }
  }

  lemma {:induction false} EntryOf(appends: seq<Append>, a: Append)
    requires a in appends
    ensures a.entry in Entries(appends)
  {
    var init, last := appends[..|appends| - 1], appends[|appends| - 1];
    if a != last {
      assert appends == init + [last];
      EntryOf(init, a);
    }
  }

  lemma {:induction false} EntryFrom(appends: seq<Append>, e: string)
    requires e in Entries(appends)
    ensures exists a :: a in appends && a.entry == e
  {
    var init, last := appends[..|appends| - 1], appends[|appends| - 1];
    if e != last.entry {
      EntryFrom(init, e);
    } else {
      assert last in appends;
    }
  }

  /** The log reads back as the logged entries exactly when none of them contains a newline. */
  lemma ReadsBackExactlyPlainEntries(appends: seq<Append>)
    requires forall a :: a in appends ==> Complete(a)
    ensures SplitLines(ContentAfter(appends)) == Entries(appends)
            <==> forall a :: a in appends ==> '\n' !in a.entry
  {
    HistoryLaw(appends);
    var entries := Entries(appends);
    if forall a :: a in appends ==> '\n' !in a.entry {
      forall e | e in entries ensures '\n' !in e { EntryFrom(appends, e); }
      PiecesOfPlainEntries(entries);
    } else {
      var a :| a in appends && '\n' in a.entry;
      EntryOf(appends, a);
      PiecesCount(entries);
    }
  }

  lemma OneAppend(a: Append)
    ensures ContentAfter([a]) == Landed(a.entry, a.kept)
  {
    assert [a][..0] == [];
  }

  lemma TwoLines(first: string, second: string)
    requires '\n' !in first && '\n' !in second
    ensures SplitLines((first + "\n") + (second + "\n")) == [first, second]
  {
    SplitAtClosedCut(first + "\n", second + "\n");
    PiecesAreLines(first);
    PiecesAreLines(second);
  }

  lemma RegroupLines(first: string, second: string)
    ensures (first + "\n" + second) + "\n" == (first + "\n") + (second + "\n")
  {
  }

  /** A logged entry that reads back as two. */
  lemma NewlineSplitsEntry(first: string, second: string)
    requires '\n' !in first && '\n' !in second
    ensures SplitLines(ContentAfter([Append(first + "\n" + second, |first + "\n" + second| + 1)])) == [first, second]
  {
    OneAppend(Append(first + "\n" + second, |first + "\n" + second| + 1));
    RegroupLines(first, second);
    TwoLines(first, second);
  }

  /** A bounded read of such a log returns the last min(limit, n) entries. */
  lemma TailIsLastEntries(appends: seq<Append>, limit: nat)
    requires limit > 0 && forall a :: a in appends ==> Complete(a) && '\n' !in a.entry
    ensures var n, tail := |appends|, LastN(SplitLines(ContentAfter(appends)), limit);
            && |tail| == (if limit < n then limit else n)
            && forall i :: 0 <= i < |tail| ==> tail[i] == appends[n - |tail| + i].entry
  {
    ReadsBackExactlyPlainEntries(appends);
    LastEntries(appends, limit);
  }

  lemma LastEntries(appends: seq<Append>, limit: nat)
    ensures var n, tail := |appends|, LastN(Entries(appends), limit);
            && |tail| == (if limit < n then limit else n)
            && forall i :: 0 <= i < |tail| ==> tail[i] == appends[n - |tail| + i].entry
  {
    EntriesInOrder(appends);
  }

  lemma {:induction false} EntriesInOrder(appends: seq<Append>)
    ensures |Entries(appends)| == |appends|
    ensures forall i :: 0 <= i < |appends| ==> Entries(appends)[i] == appends[i].entry
  {
    if appends != [] {
      EntriesInOrder(appends[..|appends| - 1]);
    }
  }

  /**
   Whatever the appends did to the file and whatever is appended next, complete or cut short,
   every line that was complete before is read back unchanged and in the same place.
   */
  lemma CompleteLinesSurvive(before: string, added: string) returns (closed: string, open: string)
    ensures before == closed + open && Closed(closed) && '\n' !in open
    ensures SplitLines(before) == SplitLines(closed) + if open == "" then [] else [open]
    ensures SplitLines(before + added) == SplitLines(closed) + SplitLines(open + added)
  {
    closed, open := ClosedThenOpen(before);
    ReadClosedThenOpen(closed, open);
    ReadPastClosed(closed, open, added);
  }

  lemma ReadClosedThenOpen(closed: string, open: string)
    requires Closed(closed) && '\n' !in open
    ensures SplitLines(closed + open) == SplitLines(closed) + if open == "" then [] else [open]
  {
    SplitAtClosedCut(closed, open);
    SplitOpenLine(open);
  }

  lemma ReadPastClosed(closed: string, open: string, added: string)
    requires Closed(closed)
    ensures SplitLines((closed + open) + added) == SplitLines(closed) + SplitLines(open + added)
  {
    assert (closed + open) + added == closed + (open + added);
    SplitAtClosedCut(closed, open + added);
  }

  /** A failed append leaves an open line behind, which the next entry then continues. */
  lemma CutEntryMergesWithNext(before: seq<Append>, cut: Append, next: string)
    requires forall a :: a in before ==> Complete(a)
    requires 0 < cut.kept <= |cut.entry| && '\n' !in cut.entry && '\n' !in next
    ensures var all := before + [cut, Append(next, |next| + 1)];
            SplitLines(ContentAfter(all)) == AllPieces(Entries(before)) + [cut.entry[..cut.kept] + next]
  {
    var last := Append(next, |next| + 1);
    var all := before + [cut, last];
    var merged := cut.entry[..cut.kept] + next;
    assert all[..|all| - 1] == before + [cut];
    assert (before + [cut])[..|before|] == before;
    assert ContentAfter(before + [cut]) == ContentAfter(before) + cut.entry[..cut.kept];
    assert ContentAfter(all) == ContentAfter(before) + (merged + "\n");
    CompleteAppendsClose(before);
    SplitAtClosedCut(ContentAfter(before), merged + "\n");
    PiecesAreLines(merged);
    HistoryLaw(before);
  }
}
