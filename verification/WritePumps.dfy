/**
 The outgoing queue of a TCP session as a value: what each handler on the session's strand does
 to the queue, the writing flag and the asynchronous writes that are outstanding on the socket.
 */
module TcpPump {

  /** How an asynchronous write ends. */
  datatype Completion = Written | Aborted | Broken

  datatype Pump<T> = Pump(queue: seq<T>, writing: bool, outstanding: seq<T>, stopped: bool, open: bool)

  function Idle<T>(): Pump<T> { Pump([], false, [], false, true) }

  /** `do_write_strand` */
  function StartWrite<T>(p: Pump<T>): Pump<T> {
    if p.stopped || p.queue == [] || p.writing then p
    else p.(writing := true, outstanding := p.outstanding + [p.queue[0]])
  }

  /** The handler that `deliver` posts. */
  function Enqueue<T>(p: Pump<T>, m: T): Pump<T> {
    if p.stopped then p
    else
      var start := p.queue == [] && !p.writing;
      var q := p.(queue := p.queue + [m]);
      if start then StartWrite(q) else q
  }

  /** `on_write` for the oldest outstanding write. */
  function Complete<T>(p: Pump<T>, c: Completion): Pump<T>
    requires p.outstanding != []
  {
    var p := p.(outstanding := p.outstanding[1..], writing := false);
    if p.stopped then p
    else if !c.Written? then p.(queue := [])
    else if p.queue == [] then p
    else
      var q := p.(queue := p.queue[1..]);
      if q.queue != [] && q.open then StartWrite(q) else q
  }

  /** `stop_session` raises the flag first; its strand task closes the socket later. */
  function Stop<T>(p: Pump<T>): Pump<T> { p.(stopped := true) }
  function Close<T>(p: Pump<T>): Pump<T> { if p.stopped then p.(open := false) else p }

  /**
   At most one write is outstanding, it carries the front of the queue, the flag says whether there
   is one, and a session that is not stopped writes whenever it has something to write.
   */
  ghost predicate Inv<T(!new)>(p: Pump<T>) {
    && (p.writing ==> p.queue != [])
    && p.outstanding == (if p.writing then [p.queue[0]] else [])
    && (!p.stopped ==> p.open && (p.writing <==> p.queue != []))
  }

  // ----- runs -----

  /** A pump with the record of what went through it: `failed` after the first write error. */
  datatype Record<T> = Record(pump: Pump<T>, offered: seq<T>, written: seq<T>, failed: bool)

  datatype Event<T> = Offer(m: T) | Completed(c: Completion) | Stopped | Closed

  function Fresh<T>(): Record<T> { Record(Idle(), [], [], false) }

  function Next<T>(r: Record<T>, e: Event<T>): Record<T>
    requires e.Completed? ==> r.pump.outstanding != []
  {
    var p := r.pump;
    match e
    case Offer(m) => r.(pump := Enqueue(p, m), offered := r.offered + [m])
    case Completed(c) =>
      Record(Complete(p, c), r.offered, if c.Written? then r.written + [p.outstanding[0]] else r.written,
             r.failed || !c.Written?)
    case Stopped => r.(pump := Stop(p))
    case Closed => r.(pump := Close(p))
  }

  /** The states of a run; a completion only arrives for a write that is outstanding. */
  ghost predicate Run<T(!new)>(states: seq<Record<T>>, events: seq<Event<T>>) {
    && |states| == |events| + 1
    && states[0] == Fresh()
    && forall i :: 0 <= i < |events| ==>
         && (events[i].Completed? ==> states[i].pump.outstanding != [])
         && states[i + 1] == Next(states[i], events[i])
  }

  /** Without stop or write error every offered message is written or queued, in the order of the offers. */
  ghost predicate Lossless<T(!new)>(r: Record<T>) {
    !r.pump.stopped && !r.failed ==> r.offered == r.written + r.pump.queue
  }

  lemma InvStep<T(!new)>(r: Record<T>, e: Event<T>)
    requires Inv(r.pump) && Lossless(r)
    requires e.Completed? ==> r.pump.outstanding != []
    ensures Inv(Next(r, e).pump) && Lossless(Next(r, e))
  {
    match e
    case Offer(m) =>
    case Completed(c) =>
      assert r.written + [r.pump.queue[0]] + r.pump.queue[1..] == r.written + r.pump.queue;
    case Stopped =>
    case Closed =>
  }

  lemma {:induction false} RunInv<T(!new)>(states: seq<Record<T>>, events: seq<Event<T>>, i: nat)
    requires Run(states, events) && i < |states|
    ensures Inv(states[i].pump) && Lossless(states[i])
  {
    if i > 0 {
      RunInv(states, events, i - 1);
      InvStep(states[i - 1], events[i - 1]);
    }
  }

  /** Until it completes, the buffer handed to an asynchronous write stays the unmodified front of the queue. */
  lemma {:induction false} InFlightStaysFront<T(!new)>(states: seq<Record<T>>, events: seq<Event<T>>, i: nat, j: nat)
    requires Run(states, events) && i <= j < |states|
    requires states[i].pump.outstanding != []
    requires forall k :: i <= k < j ==> !events[k].Completed?
    ensures states[j].pump.outstanding == states[i].pump.outstanding
    ensures states[j].pump.queue != [] && states[j].pump.outstanding == [states[j].pump.queue[0]]
    decreases j
  {
    RunInv(states, events, j);
    if i < j {
      InFlightStaysFront(states, events, i, j - 1);
      RunInv(states, events, j - 1);
    }
  }

  /** A failed write of a running session takes everything queued with it; the next message starts afresh. */
  lemma FailureDropsQueue<T(!new)>(states: seq<Record<T>>, events: seq<Event<T>>, i: nat, c: Completion)
    requires Run(states, events) && i < |events| && events[i] == Completed(c) && !c.Written?
    requires !states[i].pump.stopped
    ensures states[i + 1].pump == Pump([], false, [], false, true)
  {
    RunInv(states, events, i);
    RunInv(states, events, i + 1);
  }

  lemma StoppedStep<T(!new)>(r: Record<T>, e: Event<T>)
    requires Inv(r.pump) && r.pump.stopped && (e.Completed? ==> r.pump.outstanding != [])
    ensures Next(r, e).pump.stopped
    ensures Next(r, e).written + Next(r, e).pump.outstanding <= r.written + r.pump.outstanding
  {
  }

  /**
   Once a session is stopped, only the write that was outstanding can still get out; what is offered after
   the stop is never written.
   */
  lemma {:induction false} SilentAfterStop<T(!new)>(states: seq<Record<T>>, events: seq<Event<T>>, i: nat, j: nat)
    requires Run(states, events) && i <= j < |states| && states[i].pump.stopped
    ensures states[j].pump.stopped
    ensures states[j].written + states[j].pump.outstanding <= states[i].written + states[i].pump.outstanding
    decreases j
  {
    if i < j {
      SilentAfterStop(states, events, i, j - 1);
      RunInv(states, events, j - 1);
      StoppedStep(states[j - 1], events[j - 1]);
    }
  }

  /** `k` successful completions in a row, each of the write that is outstanding then. */
  ghost predicate Drains<T(!new)>(states: seq<Pump<T>>) {
    && states != []
    && forall i :: 0 <= i < |states| - 1 ==>
         states[i].outstanding != [] && states[i + 1] == Complete(states[i], Written)
  }

  /**
   With no new messages, exactly as many successful completions as there are queued messages empty
   the queue: before that the next write is always outstanding, after that none is.
   */
  lemma {:induction false} DrainsExactly<T(!new)>(states: seq<Pump<T>>, k: nat)
    requires Drains(states) && k < |states|
    requires Inv(states[0]) && !states[0].stopped
    ensures k <= |states[0].queue|
    ensures states[k].queue == states[0].queue[k..]
    ensures Inv(states[k]) && !states[k].stopped
    ensures states[k].outstanding == if k < |states[0].queue| then [states[0].queue[k]] else []
  {
    if k > 0 {
      DrainsExactly(states, k - 1);
      assert states[k - 1 + 1] == Complete(states[k - 1], Written);
    }
  }
}

/**
 The outgoing queue of a WebSocket session as a value: bounded, with the newest message dropped
 when it is full. A failed write leaves its message at the front and nothing restarts the pump.
 */
module WsPump {
  const MAX_QUEUE_SIZE: nat := 100

  datatype Pump<T> = Pump(queue: seq<T>, writing: bool, outstanding: seq<T>)

  function Idle<T>(): Pump<T> { Pump([], false, []) }

  /** `do_write` */
  function StartWrite<T>(p: Pump<T>): Pump<T> {
    if p.queue == [] || p.writing then p
    else p.(writing := true, outstanding := p.outstanding + [p.queue[0]])
  }

  /** The handler that `deliver` posts. */
  function Enqueue<T>(p: Pump<T>, m: T): Pump<T> {
    if |p.queue| >= MAX_QUEUE_SIZE then p
    else
      var wasEmpty := p.queue == [];
      var q := p.(queue := p.queue + [m]);
      if wasEmpty && !q.writing then StartWrite(q) else q
  }

  /** `on_write` for the oldest outstanding write. */
  function Complete<T>(p: Pump<T>, ok: bool): Pump<T>
    requires p.outstanding != [] && p.queue != []
  {
    var p := p.(writing := false, outstanding := p.outstanding[1..]);
    if !ok then p
    else
      var q := p.(queue := p.queue[1..]);
      if q.queue != [] then StartWrite(q) else q
  }

  /** A pump with the record of what went through it. */
  datatype Record<T> = Record(pump: Pump<T>, offered: nat,
    accepted: seq<T>, written: seq<T>, dropped: nat, failed: bool)

  datatype Event<T> = Offer(m: T) | Completed(ok: bool)

  /** The queue is bounded, and at most one write is outstanding, that of its front. */
  ghost predicate Sound<T(!new)>(p: Pump<T>) {
    && |p.queue| <= MAX_QUEUE_SIZE
    && (p.writing ==> p.queue != [])
    && p.outstanding == (if p.writing then [p.queue[0]] else [])
  }

  ghost predicate Inv<T(!new)>(r: Record<T>) {
    var p := r.pump;
    && Sound(p)
    && r.accepted == r.written + p.queue
    && r.offered == |r.written| + |p.queue| + r.dropped
    && (if r.failed then !p.writing && p.queue != [] else p.writing <==> p.queue != [])
  }

  function Next<T>(r: Record<T>, e: Event<T>): Record<T>
    requires e.Completed? ==> r.pump.outstanding != [] && r.pump.queue != []
  {
    match e
    case Offer(m) =>
      var full := |r.pump.queue| >= MAX_QUEUE_SIZE;
      Record(Enqueue(r.pump, m), r.offered + 1, if full then r.accepted else r.accepted + [m], r.written,
             if full then r.dropped + 1 else r.dropped, r.failed)
    case Completed(ok) =>
      Record(Complete(r.pump, ok), r.offered, r.accepted,
             if ok then r.written + [r.pump.outstanding[0]] else r.written, r.dropped, r.failed || !ok)
  }

  function Fresh<T>(): Record<T> { Record(Idle(), 0, [], [], 0, false) }

  /** The states of a run; a completion only arrives for a write that is outstanding. */
  ghost predicate Run<T(!new)>(states: seq<Record<T>>, events: seq<Event<T>>) {
    && |states| == |events| + 1
    && states[0] == Fresh()
    && forall i :: 0 <= i < |events| ==>
         && (events[i].Completed? ==> states[i].pump.outstanding != [] && states[i].pump.queue != [])
         && states[i + 1] == Next(states[i], events[i])
  }

  lemma InvStep<T(!new)>(r: Record<T>, e: Event<T>)
    requires Inv(r)
    requires e.Completed? ==> r.pump.outstanding != []
    ensures Inv(Next(r, e))
  {
    if e == Completed(true) {
      assert r.written + [r.pump.outstanding[0]] + r.pump.queue[1..] == r.written + r.pump.queue;
    }
  }

  /**
   In every run: the bound, the order of accepted messages, the count of every offer, at most one
   write that carries the front, and an idle pump exactly when the queue is empty before any error.
   */
  lemma {:induction false} RunInv<T(!new)>(states: seq<Record<T>>, events: seq<Event<T>>, i: nat)
    requires Run(states, events) && i < |states|
    ensures Inv(states[i])
  {
    if i > 0 {
      RunInv(states, events, i - 1);
      InvStep(states[i - 1], events[i - 1]);
    }
  }

  /** A message is dropped exactly when a hundred are queued; otherwise it is the last in the queue. */
  lemma DroppedExactly<T(!new)>(states: seq<Record<T>>, events: seq<Event<T>>, i: nat, m: T)
    requires Run(states, events) && i < |events| && events[i] == Offer(m)
    ensures |states[i].pump.queue| <= 100
    ensures states[i + 1].pump.queue ==
            if |states[i].pump.queue| == 100 then states[i].pump.queue else states[i].pump.queue + [m]
    ensures states[i + 1].accepted ==
            if |states[i].pump.queue| == 100 then states[i].accepted else states[i].accepted + [m]
  {
    RunInv(states, events, i);
    RunInv(states, events, i + 1);
  }

  /** After the first write error no write is ever outstanding again. */
  lemma {:induction false} SilentAfterError<T(!new)>(states: seq<Record<T>>, events: seq<Event<T>>, i: nat, j: nat)
    requires Run(states, events) && i < j < |states|
    requires events[i] == Completed(false)
    ensures states[j].failed && states[j].pump.outstanding == []
    ensures states[j].written == states[i].written
    decreases j
  {
    RunInv(states, events, j);
    if i + 1 < j {
      SilentAfterError(states, events, i, j - 1);
    }
  }
}
