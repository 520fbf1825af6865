/**
 The two kinds of session: their outgoing queues, one-shot stop, and the reading of command lines.
 Asynchronous operations end by a later call of the completion handler.
 */
module Sessions {
  import opened Lines
  import opened Seqs
  import Framing
  import TcpPump
  import WsPump

  /** What a session answers at once to the n-th line it acts on. */
  type Answers = (nat, string) -> seq<string>

  /** What is given to `deliver` when a session acts on its n-th line. */
  function Replies(n: nat, line: string, answers: Answers): seq<string> {
    if Framing.Quits(line) then [Framing.FAREWELL] else answers(n, line)
  }

  /** The same for consecutive lines, of which the first is the n-th. */
  function AllReplies(n: nat, lines: seq<string>, answers: Answers): seq<string>
    decreases |lines|
  {
    if lines == [] then [] else Replies(n, lines[0], answers) + AllReplies(n + 1, lines[1..], answers)
  }

  /** Each line is answered in its turn: `/quit` with the farewell, any other as the n-th line acted on. */
  lemma {:induction false} AnsweredInTurn(n: nat, lines: seq<string>, line: string, answers: Answers)
    ensures AllReplies(n, lines + [line], answers)
            == AllReplies(n, lines, answers)
               + if Framing.Quits(line) then [Framing.FAREWELL] else answers(n + |lines|, line)
    ensures AllReplies(n, [], answers) == []
    decreases |lines|
  {
    var last := if Framing.Quits(line) then [Framing.FAREWELL] else answers(n + |lines|, line);
    if lines == [] {
      assert lines + [line] == [line];
      assert AllReplies(n, [line], answers) == last + AllReplies(n + 1, [], answers);
    } else {
      assert (lines + [line])[1..] == lines[1..] + [line];
      AnsweredInTurn(n + 1, lines[1..], line, answers);
      Associative(Replies(n, lines[0], answers), AllReplies(n + 1, lines[1..], answers), last);
    }
  }

  /** What acting on lines changes: the lines acted on, what was given to `deliver`, the stop flag. */
  datatype Reader = Reader(acted: seq<string>, posts: seq<string>, stopped: bool)

  function ActOn(r: Reader, line: string, answers: Answers): Reader {
    if r.stopped then r
    else Reader(r.acted + [line], r.posts + Replies(|r.acted|, line, answers), Framing.Quits(line))
  }

  function ActOnAll(r: Reader, lines: seq<string>, answers: Answers): Reader
    decreases |lines|
  {
    if lines == [] then r else ActOnAll(ActOn(r, lines[0], answers), lines[1..], answers)
  }

  lemma {:induction false} StoppedActsOnNothing(r: Reader, lines: seq<string>, answers: Answers)
    requires r.stopped
    ensures ActOnAll(r, lines, answers) == r
    decreases |lines|
  {
    if lines != [] {
      StoppedActsOnNothing(r, lines[1..], answers);
    }
  }

  /** A running session acts on the lines up to the first `/quit`, replies to each, and stops if there is one. */
  lemma {:induction false} ActsUpToQuit(r: Reader, lines: seq<string>, answers: Answers)
    requires !r.stopped
    ensures var done := Framing.UpToQuit(lines);
            ActOnAll(r, lines, answers)
            == Reader(r.acted + done, r.posts + AllReplies(|r.acted|, done, answers), Framing.AnyQuits(lines))
    decreases |lines|
  {
    if lines != [] {
      var done := Framing.UpToQuit(lines);
      var next := ActOn(r, lines[0], answers);
      if next.stopped {
        StoppedActsOnNothing(next, lines[1..], answers);
        assert AllReplies(|r.acted| + 1, done[1..], answers) == [];
      } else {
        ActsUpToQuit(next, lines[1..], answers);
        assert done[1..] == Framing.UpToQuit(lines[1..]);
        Associative(r.acted, [lines[0]], done[1..]);
        Associative(r.posts, Replies(|r.acted|, lines[0], answers), AllReplies(|r.acted| + 1, done[1..], answers));
      }
    }
  }

  lemma ActOnFirst(r: Reader, buffer: string, answers: Answers)
    requires buffer != ""
    ensures var kept, rest := Framing.Kept(FirstLine(buffer)), Framing.Handled(AfterLine(buffer));
            ActOnAll(r, Framing.Handled(buffer), answers)
            == ActOnAll(if kept == [] then r else ActOn(r, kept[0], answers), rest, answers)
  {
    var kept, rest := Framing.Kept(FirstLine(buffer)), Framing.Handled(AfterLine(buffer));
    Framing.HandledFirst(buffer);
    if kept == [] {
      assert kept + rest == rest;
    } else {
      assert (kept + rest)[0] == kept[0] && (kept + rest)[1..] == rest;
    }
  }

  /** A TCP session; every method but `StopSession` runs on the session's strand. */
  class ChatSession {
    var writeMsgs: seq<string>
    var writingFlag: bool
    var outstanding: seq<string>   // buffers handed to asynchronous writes that have not completed
    var stopped: bool
    var socketOpen: bool
    var closeTasks: nat            // posted by `stop_session`, not yet run
    var leaves: nat                // calls of `ChatServer::leave`
    var readBuffer: string
    var acted: seq<string>         // lines `process_command` did not ignore
    var posts: seq<string>         // given to `deliver`, whose handlers on the strand have not run yet

    function Pump(): TcpPump.Pump<string>
      reads this
    {
      TcpPump.Pump(writeMsgs, writingFlag, outstanding, stopped, socketOpen)
    }

    function Reading(): Reader
      reads this
    {
      Reader(acted, posts, stopped)
    }

    /** The pump is sound, and the server is told to drop the session once if it is stopped, else never. */
    ghost predicate Valid()
      reads this
    {
      && TcpPump.Inv(Pump())
      && closeTasks + leaves == (if stopped then 1 else 0)
      && (socketOpen <==> leaves == 0)
    }

    constructor ()
      ensures Valid() && Pump() == TcpPump.Idle() && leaves == 0 && posts == acted == [] && readBuffer == ""
    {
      writeMsgs, writingFlag, outstanding := [], false, [];
      stopped, socketOpen := false, true;
      closeTasks, leaves := 0, 0;
      readBuffer, acted, posts := "", [], [];
    }

    method Deliver(msg: string)
      requires Valid()
      modifies this`posts
      ensures Valid() && posts == old(posts) + [msg]
    {
      posts := posts + [msg];
    }

    /** The oldest handler that `deliver` posted to the strand. */
    method DeliverTask()
      requires Valid() && posts != []
      modifies this
      ensures Valid() && Pump() == TcpPump.Enqueue(old(Pump()), old(posts)[0] + "\r\n") && posts == old(posts)[1..]
      ensures leaves == old(leaves) && acted == old(acted) && readBuffer == old(readBuffer)
    {
      var msg := posts[0];
      posts := posts[1..];
      if stopped {
        return;
      }
      var startWrite := writeMsgs == [] && !writingFlag;
      writeMsgs := writeMsgs + [msg + "\r\n"];
      if startWrite {
        DoWriteStrand();
      }
    }

    method DoWriteStrand()
      modifies this`writingFlag, this`outstanding
      ensures Pump() == TcpPump.StartWrite(old(Pump()))
    {
      if stopped || writeMsgs == [] || writingFlag {
        return;
      }
      writingFlag := true;
      outstanding := outstanding + [writeMsgs[0]];
    }

    /** The completion of the outstanding write; a broken connection posts one more stop request. */
    method OnWrite(completion: TcpPump.Completion) returns (stopPosted: bool)
      requires Valid() && outstanding != []
      modifies this
      ensures Valid() && Pump() == TcpPump.Complete(old(Pump()), completion)
      ensures stopPosted <==> !stopped && completion == TcpPump.Broken
      ensures leaves == old(leaves) && acted == old(acted) && readBuffer == old(readBuffer) && posts == old(posts)
    {
      stopPosted := false;
      outstanding := outstanding[1..];
      if stopped {
        writingFlag := false;
        return;
      }
      var written := false;
      if completion.Written? {
        if writeMsgs != [] {
          writeMsgs := writeMsgs[1..];
          written := true;
        }
      } else {
        writeMsgs := [];
        stopPosted := !completion.Aborted?;
      }
      writingFlag := false;
      if written && writeMsgs != [] && !stopped && socketOpen {
        DoWriteStrand();
      }
    }

    /** Runs its logic once: only the first call posts the handler that closes the socket. */
    method StopSession()
      requires Valid()
      modifies this
      ensures Valid() && Pump() == TcpPump.Stop(old(Pump()))
      ensures closeTasks == if old(stopped) then old(closeTasks) else 1
      ensures leaves == old(leaves) && acted == old(acted) && readBuffer == old(readBuffer) && posts == old(posts)
    {
      if stopped {
        return;
      }
      stopped := true;
      closeTasks := closeTasks + 1;
    }

    /** The posted handler: closes the socket and tells the server, for the first and only time. */
    method CloseTask()
      requires Valid() && closeTasks > 0
      modifies this
      ensures Valid() && Pump() == TcpPump.Close(old(Pump()))
      ensures old(leaves) == 0 && leaves == 1
      ensures acted == old(acted) && readBuffer == old(readBuffer) && posts == old(posts)
    {
      closeTasks := closeTasks - 1;
      socketOpen := false;
      leaves := leaves + 1;
    }

    /**
     Acts on one line unless the session is stopped, and posts the answers. `/quit` posts its farewell and
     stops the session, and nothing else stops it.
     */
    method ProcessCommand(line: string, answers: Answers)
      requires Valid()
      modifies this
      ensures Valid()
      ensures Reading() == ActOn(old(Reading()), line, answers)
      ensures old(stopped) ==> stopped && acted == old(acted) && posts == old(posts)
      ensures !old(stopped) ==>
                && acted == old(acted) + [line] && (stopped <==> Framing.Quits(line))
                && posts == old(posts)
                     + if Framing.Quits(line) then [Framing.FAREWELL] else answers(|old(acted)|, line)
      ensures Pump() == if stopped then TcpPump.Stop(old(Pump())) else old(Pump())
      ensures leaves == old(leaves) && readBuffer == old(readBuffer)
    {
      if stopped {
        return;
      }
      if Framing.Quits(line) {
        acted := acted + [line];
        Deliver(Framing.FAREWELL);
        StopSession();
        return;
      }
      var responses := answers(|acted|, line);
      acted := acted + [line];
      for i := 0 to |responses|
        invariant Valid() && Pump() == old(Pump()) && acted == old(acted) + [line]
        invariant posts == old(posts) + responses[..i]
        invariant leaves == old(leaves) && readBuffer == old(readBuffer)
      {
        Deliver(responses[i]);
      }
    }

    /**
     The completion of a read: consumes the whole buffer and acts on its lines up to the first `/quit`,
     answering each. A failed read stops the session.
     */
    method OnRead(ok: bool, received: string, answers: Answers)
      requires Valid()
      modifies this
      ensures Valid()
      ensures Pump() == if stopped then TcpPump.Stop(old(Pump())) else old(Pump())
      ensures old(stopped || !socketOpen) ==> acted == old(acted) && stopped == old(stopped) && posts == old(posts)
      ensures !old(stopped || !socketOpen) && !ok ==> stopped && acted == old(acted) && posts == old(posts)
      ensures !old(stopped || !socketOpen) && ok ==>
                var lines := Framing.Handled(old(readBuffer) + received);
                && readBuffer == ""
                && acted == old(acted) + Framing.UpToQuit(lines)
                && posts == old(posts) + AllReplies(|old(acted)|, Framing.UpToQuit(lines), answers)
                && (stopped <==> Framing.AnyQuits(lines))
    {
      readBuffer := readBuffer + received;
      if stopped || !socketOpen {
        return;
      }
      if !ok {
        StopSession();
        return;
      }
      ActsUpToQuit(Reading(), Framing.Handled(readBuffer), answers);
      HandleBuffer(answers);
    }

    /** The loop over the read buffer. */
    method HandleBuffer(answers: Answers)
      requires Valid() && !stopped && socketOpen
      modifies this
      ensures Valid() && readBuffer == ""
      ensures Pump() == if stopped then TcpPump.Stop(old(Pump())) else old(Pump())
      ensures Reading() == ActOnAll(old(Reading()), Framing.Handled(old(readBuffer)), answers)
    {
      while readBuffer != ""
        invariant Valid() && socketOpen
        invariant Pump() == if stopped then TcpPump.Stop(old(Pump())) else old(Pump())
        invariant ActOnAll(Reading(), Framing.Handled(readBuffer), answers)
                  == ActOnAll(old(Reading()), Framing.Handled(old(readBuffer)), answers)
        decreases |readBuffer|
      {
        ActOnFirst(Reading(), readBuffer, answers);
        HandleLine(answers);
      }
    }

    /** One line: without its CR, and ignored when nothing is left of it. */
    method HandleLine(answers: Answers)
      requires Valid() && socketOpen && readBuffer != ""
      modifies this
      ensures Valid() && socketOpen && readBuffer == AfterLine(old(readBuffer))
      ensures Pump() == if stopped then TcpPump.Stop(old(Pump())) else old(Pump())
      ensures var kept := Framing.Kept(FirstLine(old(readBuffer)));
              Reading() == if kept == [] then old(Reading()) else ActOn(old(Reading()), kept[0], answers)
    {
      var message := FirstLine(readBuffer);
      readBuffer := AfterLine(readBuffer);
      if message != "" && message[|message| - 1] == '\r' {
        message := message[..|message| - 1];
      }
      if message != "" {
        ProcessCommand(message, answers);
      }
    }
  }

  /** A WebSocket session; its queue is bounded and it has no stop flag of its own. */
  class WebSocketSession {
    var writeMsgs: seq<string>
    var isWriting: bool
    var outstanding: seq<string>
    var leaves: nat

    function Pump(): WsPump.Pump<string>
      reads this
    {
      WsPump.Pump(writeMsgs, isWriting, outstanding)
    }

    ghost predicate Valid()
      reads this
    {
      WsPump.Sound(Pump())
    }

    constructor ()
      ensures Valid() && Pump() == WsPump.Idle() && leaves == 0
    {
      writeMsgs, isWriting, outstanding, leaves := [], false, [], 0;
    }

    method DeliverTask(msg: string)
      requires Valid()
      modifies this
      ensures Valid() && Pump() == WsPump.Enqueue(old(Pump()), msg) && leaves == old(leaves)
    {
      if |writeMsgs| >= WsPump.MAX_QUEUE_SIZE {
        return;
      }
      var writeInProgress := writeMsgs != [];
      writeMsgs := writeMsgs + [msg];
      if !writeInProgress && !isWriting {
        DoWrite();
      }
    }

    method DoWrite()
      modifies this`isWriting, this`outstanding
      ensures Pump() == WsPump.StartWrite(old(Pump()))
    {
      if writeMsgs == [] || isWriting {
        return;
      }
      isWriting := true;
      outstanding := outstanding + [writeMsgs[0]];
    }

    /** The completion of the outstanding write; a failure makes the server drop the session. */
    method OnWrite(ok: bool)
      requires Valid() && outstanding != []
      modifies this
      ensures Valid() && Pump() == WsPump.Complete(old(Pump()), ok)
      ensures leaves == if ok then old(leaves) else old(leaves) + 1
    {
      isWriting := false;
      outstanding := outstanding[1..];
      if !ok {
        leaves := leaves + 1;
        return;
      }
      writeMsgs := writeMsgs[1..];
      if writeMsgs != [] {
        DoWrite();
      }
    }
  }
}
