/** The tasks waiting on a session's strand, first in first out. */
module Strands {
  import opened Seqs

  datatype Task<M> =
    | Deliver(m: M)  // posted by a global broadcast: calls `deliver`
    | Push(m: M)     // posted by `deliver`: puts the message into the outgoing queue
    | Stop           // calls `stop_session`

  function Delivers<M>(box: seq<Task<M>>): seq<M> {
    if box == [] then []
    else (if box[0].Deliver? then [box[0].m] else []) + Delivers(box[1..])
  }

  function Pushes<M>(box: seq<Task<M>>): seq<M> {
    if box == [] then []
    else (if box[0].Push? then [box[0].m] else []) + Pushes(box[1..])
  }

  lemma {:induction false} DeliversLast<M>(box: seq<Task<M>>, t: Task<M>)
    ensures Delivers(box + [t]) == Delivers(box) + if t.Deliver? then [t.m] else []
  {
    if box == [] {
      assert box + [t] == [t];
    } else {
      assert (box + [t])[1..] == box[1..] + [t];
      DeliversLast(box[1..], t);
      Associative(if box[0].Deliver? then [box[0].m] else [], Delivers(box[1..]), if t.Deliver? then [t.m] else []);
    }
  }

  lemma {:induction false} PushesLast<M>(box: seq<Task<M>>, t: Task<M>)
    ensures Pushes(box + [t]) == Pushes(box) + if t.Push? then [t.m] else []
  {
    if box == [] {
      assert box + [t] == [t];
    } else {
      assert (box + [t])[1..] == box[1..] + [t];
      PushesLast(box[1..], t);
      Associative(if box[0].Push? then [box[0].m] else [], Pushes(box[1..]), if t.Push? then [t.m] else []);
    }
  }

  lemma PostLast<M>(box: seq<Task<M>>, t: Task<M>)
    ensures Delivers(box + [t]) == Delivers(box) + if t.Deliver? then [t.m] else []
    ensures Pushes(box + [t]) == Pushes(box) + if t.Push? then [t.m] else []
  {
    DeliversLast(box, t);
    PushesLast(box, t);
  }
}

/**
 Delivery of messages as a state machine: one strand for the server, one for each session, and
 write completions that arrive at any time. Every action is one atomic step and a run is any
 sequence of possible actions. The server's tables are those of `Registry`.

 Messages whose order matters carry a number on a channel: a global broadcast the position at which
 `broadcast_impl` ran, a room message the position of its line among those of its sender.
 */
module Delivery {
  import opened Strands
  import opened Wrappers
  import Framing
  import Registry
  import TcpPump
  import WsPump

  type Sid = nat

  datatype Channel = Global | Room(sender: Sid)
  datatype Item = Numbered(channel: Channel, n: nat) | Plain(text: string)

  datatype Pump = Tcp(tcp: TcpPump.Pump<Item>) | Ws(ws: WsPump.Pump<Item>)

  /** `lossy`: some message left the way to the client unwritten; `failed`: a write has ended in an error. */
  datatype Session = Session(box: seq<Task<Item>>, pump: Pump, written: seq<Item>, lossy: bool, failed: bool, told: nat)

  datatype ServerTask =
    | JoinTask(s: Sid)
    | LeaveTask(s: Sid, nick: string)           // with the nickname at the time of the call
    | BroadcastTask(sender: Option<Sid>)
    | TableTask(step: Registry.Action<Sid>)     // registers a nickname, joins or leaves a room, lists users
    | ClearTask

  datatype Clearing = Never | Requested | Posted | Done

  /**
   `senders` and `reached` record, for each run of `broadcast_impl`, who sent it and who got a task;
   `lines[u]` the same for each line of `u` sent to a room, while the loop over `pending[u]` goes on.
   */
  datatype World = World(
    tables: Registry.State<Sid>,
    clearing: Clearing,
    serverBox: seq<ServerTask>,
    all: map<Sid, Session>,
    joinedAt: map<Sid, nat>,
    senders: seq<Option<Sid>>,
    reached: seq<set<Sid>>,
    lines: map<Sid, seq<set<Sid>>>,
    pending: map<Sid, set<Sid>>,
    atClear: set<Sid>)

  function Start(): World {
    World(Registry.Start(), Never, [], map[], map[], [], [], map[], map[], {})
  }

  // ----- one session -----

  /** The queued messages that can still be written. */
  function InTransit(p: Pump): seq<Item> {
    match p
    case Tcp(tcp) => if tcp.stopped then tcp.outstanding else tcp.queue
    case Ws(ws) => ws.queue
  }

  function Outstanding(p: Pump): seq<Item> {
    match p
    case Tcp(tcp) => tcp.outstanding
    case Ws(ws) => ws.outstanding
  }

  /** All messages on their way to the client, oldest first on every channel. */
  function Pipe(x: Session): seq<Item> {
    x.written + InTransit(x.pump) + Pushes(x.box) + Delivers(x.box)
  }

  function Post(x: Session, t: Task<Item>): Session { x.(box := x.box + [t]) }

  function Takes(p: Pump): bool {
    match p
    case Tcp(tcp) => !tcp.stopped
    case Ws(ws) => |ws.queue| < WsPump.MAX_QUEUE_SIZE
  }

  function EnqueueItem(x: Session, i: Item): Session {
    var pump := match x.pump
      case Tcp(tcp) => Tcp(TcpPump.Enqueue(tcp, i))
      case Ws(ws) => Ws(WsPump.Enqueue(ws, i));
    x.(pump := pump, lossy := x.lossy || !Takes(x.pump))
  }

  /** `stop_session`: nothing but the write that is already outstanding can still get out over TCP. */
  function StopPump(x: Session): Session {
    match x.pump
    case Tcp(tcp) =>
      var p := TcpPump.Stop(tcp);
      x.(pump := Tcp(p), lossy := x.lossy || |InTransit(x.pump)| > |p.outstanding|)
    case Ws(_) => x
  }

  /** `/quit` on the session's strand: hands the farewell to `deliver`, which posts it, and stops the session. */
  function QuitSession(x: Session): Session {
    if x.pump.Tcp? && !x.pump.tcp.stopped then StopPump(Post(x, Push(Plain(Framing.FAREWELL)))) else x
  }

  function RunFirst(x: Session): Session
    requires x.box != []
  {
    var y := x.(box := x.box[1..]);
    match x.box[0]
    case Deliver(i) => Post(y, Push(i))
    case Push(i) => EnqueueItem(y, i)
    case Stop => StopPump(y)
  }

  ghost predicate Sound(x: Session) {
    && match x.pump {
         case Tcp(tcp) => TcpPump.Inv(tcp) && (!tcp.stopped && !x.failed ==> !x.lossy)
         case Ws(ws) =>
           && WsPump.Sound(ws)
           && (if x.failed then !ws.writing && ws.queue != [] else ws.writing <==> ws.queue != [])
       }
    && forall i :: i in Delivers(x.box) ==> i.Numbered? && i.channel.Global?
  }

  /** A write is outstanding. */
  predicate MayComplete(x: Session) { Outstanding(x.pump) != [] && (x.pump.Ws? ==> x.pump.ws.queue != []) }

  /** The completion of the outstanding write. */
  function CompleteWrite(x: Session, c: TcpPump.Completion): Session
    requires MayComplete(x)
  {
    var written := if c.Written? then x.written + [Outstanding(x.pump)[0]] else x.written;
    var failed := x.failed || !c.Written?;
    match x.pump
    case Tcp(tcp) =>
      var p := Tcp(TcpPump.Complete(tcp, c));
      if tcp.stopped then x.(pump := p, written := written, failed := failed,
                             lossy := x.lossy || !c.Written?)
      else if c.Written? then x.(pump := p, written := written)
      else x.(pump := p, failed := failed, lossy := true,
              box := if c.Broken? then x.box + [Stop] else x.box)
    case Ws(ws) => x.(pump := Ws(WsPump.Complete(ws, c.Written?)), written := written, failed := failed)
  }

  /** Calls on a session, the tasks of its strand and the completions of its writes. */
  datatype SessionStep =
    | CallDeliver(text: string)
    | Quit
    | RunStrand
    | WriteEnds(c: TcpPump.Completion)
    | CallStopSession

  predicate MayStep(x: Session, step: SessionStep) {
    match step
    case RunStrand => x.box != []
    case WriteEnds(_) => MayComplete(x)
    case _ => true
  }

  function StepSession(x: Session, step: SessionStep): Session
    requires MayStep(x, step)
  {
    match step
    case CallDeliver(text) => Post(x, Push(Plain(text)))
    case Quit => QuitSession(x)
    case RunStrand => RunFirst(x)
    case WriteEnds(c) => CompleteWrite(x, c)
    case CallStopSession => StopPump(x)
  }

  // ----- the world -----

  datatype Action =
    | Create(s: Sid, remote: string, tcp: bool)
    | CallJoin(s: Sid)
    | CallLeave(s: Sid)
    | CallBroadcast(sender: Option<Sid>)
    | CallTables(step: Registry.Action<Sid>)
    | LeaveRoomNow(s: Sid, r: string)           // off the strand, of any room
    | CallStop
    | PostClear
    | RunServer
    | BeginLine(u: Sid, r: string)
    | LineReaches(u: Sid, t: Sid)
    | AtSession(s: Sid, does: SessionStep)

  /** The requests that pass the checks before they are dispatched to the server's strand. */
  ghost predicate PassesChecks(tables: Registry.State<Sid>, step: Registry.Action<Sid>) {
    match step
    case DoRegister(s, nick) => s in tables.fields && Registry.ValidNick(nick)
    case DoJoinRoom(s, r) => s in tables.fields && Registry.ValidRoom(r)
    case DoLeaveRoom(s, r) => s in tables.fields && r != "" && tables.fields[s].room == r
    case ListUsers => true
    case _ => false
  }

  /** What holds of a task when it is dispatched and from then on. */
  ghost predicate TaskKnown(all: set<Sid>, t: ServerTask) {
    match t
    case JoinTask(s) => s in all
    case LeaveTask(s, _) => s in all
    case BroadcastTask(sender) => sender.Some? ==> sender.value in all
    case TableTask(step) => StepKnown(all, step)
    case ClearTask => true
  }

  ghost predicate StepKnown(all: set<Sid>, step: Registry.Action<Sid>) {
    match step
    case DoRegister(s, nick) => s in all && Registry.ValidNick(nick)
    case DoJoinRoom(s, r) => s in all && Registry.ValidRoom(r)
    case DoLeaveRoom(s, _) => s in all
    case ListUsers => true
    case _ => false
  }

  /** The session has dealt with its last line. */
  predicate MayOpenLine(w: World, u: Sid) { u in w.all && u in w.pending && u in w.lines && w.pending[u] == {} }

  predicate MayReach(w: World, u: Sid, t: Sid) {
    u in w.pending && u in w.lines && w.lines[u] != [] && t in w.pending[u] && t in w.all
  }

  ghost predicate Possible(w: World, a: Action) {
    match a
    case Create(s, remote, _) => s !in w.all && s !in w.tables.fields && remote != ""
    case CallJoin(s) => s in w.all
    case CallLeave(s) => s in w.all && s in w.tables.fields
    case CallBroadcast(sender) => sender.Some? ==> sender.value in w.all
    case CallTables(step) => PassesChecks(w.tables, step)
    case LeaveRoomNow(s, _) => s in w.tables.fields
    case CallStop => true
    case PostClear => w.clearing == Requested
    case RunServer => w.serverBox != [] && TaskKnown(w.tables.fields.Keys, w.serverBox[0])
    case BeginLine(u, _) => MayOpenLine(w, u)
    case LineReaches(u, t) => MayReach(w, u, t)
    case AtSession(s, step) => s in w.all && MayStep(w.all[s], step)
  }

  function PostAll(all: map<Sid, Session>, targets: set<Sid>, t: Task<Item>): map<Sid, Session> {
    map s | s in all :: if s in targets then Post(all[s], t) else all[s]
  }

  /** `broadcast_impl`: one task for each session of the server but the sender. */
  function BroadcastImpl(w: World, sender: Option<Sid>): World {
    var targets := set s | s in w.tables.sessions && sender != Some(s);
    w.(all := PostAll(w.all, targets, Deliver(Numbered(Global, |w.reached|))),
       senders := w.senders + [sender],
       reached := w.reached + [targets])
  }

  /** The handler of `stop` on the server's strand. */
  function ClearSessions(w: World): World {
    var listed := w.tables.sessions;
    w.(all := map s | s in w.all :: if s in listed then Post(w.all[s], Stop).(told := w.all[s].told + 1) else w.all[s],
       tables := Registry.Clear(w.tables), clearing := Done, atClear := listed)
  }

  /** Lists a session; one that is listed already keeps the moment it joined. */
  function JoinServer(w: World, s: Sid): World {
    w.(tables := Registry.Join(w.tables, s),
       joinedAt := if s in w.tables.sessions then w.joinedAt else w.joinedAt[s := |w.reached|])
  }

  predicate Named(f: Registry.Fields, nick: string) { nick != "" && nick != f.remote }

  ghost function RunServerTask(w: World, t: ServerTask): World
    requires TaskKnown(w.tables.fields.Keys, t)
  {
    match t
    case JoinTask(s) =>
      if w.tables.stopped then w
      else if w.tables.fields[s].nick != w.tables.fields[s].remote then BroadcastImpl(JoinServer(w, s), Some(s))
      else JoinServer(w, s)
    case LeaveTask(s, nick) =>
      if w.tables.stopped then w
      else
        var v := w.(tables := Registry.Leave(w.tables, s, nick));
        if s in w.tables.sessions && Named(w.tables.fields[s], nick) then BroadcastImpl(v, None) else v
    case BroadcastTask(sender) => if w.tables.stopped then w else BroadcastImpl(w, sender)
    case TableTask(step) => w.(tables := Registry.Apply(w.tables, step))
    case ClearTask => ClearSessions(w)
  }

  function CreateSession(w: World, s: Sid, remote: string, tcp: bool): World {
    var pump := if tcp then Tcp(TcpPump.Idle()) else Ws(WsPump.Idle());
    w.(tables := w.tables.(fields := w.tables.fields[s := Registry.Fields(remote, remote, "")]),
       all := w.all[s := Session([], pump, [], false, false, 0)],
       lines := w.lines[s := []], pending := w.pending[s := {}])
  }

  /** `broadcast_to_room` up to its loop, which is to reach the participants of the room but the sender. */
  function OpenLine(w: World, u: Sid, r: string): World
    requires u in w.lines
  {
    if w.tables.stopped || r !in w.tables.rooms then w
    else w.(lines := w.lines[u := w.lines[u] + [{}]], pending := w.pending[u := w.tables.rooms[r] - {u}])
  }

  /** The loop over the recipients of the last line of `u` comes to `t`. */
  function ReachNext(w: World, u: Sid, t: Sid): World
    requires u in w.pending && u in w.lines && w.lines[u] != [] && t in w.all
  {
    var k := |w.lines[u]| - 1;
    w.(all := w.all[t := Post(w.all[t], Push(Numbered(Room(u), k)))],
       lines := w.lines[u := w.lines[u][k := w.lines[u][k] + {t}]],
       pending := w.pending[u := w.pending[u] - {t}])
  }

  ghost function Apply(w: World, a: Action): World
    requires Possible(w, a)
  {
    match a
    case Create(s, remote, tcp) => CreateSession(w, s, remote, tcp)
    case CallJoin(s) => if w.tables.stopped then w else w.(serverBox := w.serverBox + [JoinTask(s)])
    case CallLeave(s) => w.(serverBox := w.serverBox + [LeaveTask(s, w.tables.fields[s].nick)])
    case CallBroadcast(sender) => if w.tables.stopped then w else w.(serverBox := w.serverBox + [BroadcastTask(sender)])
    case CallTables(step) => if w.tables.stopped then w else w.(serverBox := w.serverBox + [TableTask(step)])
    case LeaveRoomNow(s, r) => w.(tables := Registry.LeaveRoom(w.tables, s, r).0)
    case CallStop =>
      if w.tables.stopped then w else w.(tables := w.tables.(stopped := true), clearing := Requested)
    case PostClear => w.(serverBox := w.serverBox + [ClearTask], clearing := Posted)
    case RunServer => RunServerTask(w.(serverBox := w.serverBox[1..]), w.serverBox[0])
    case BeginLine(u, r) => OpenLine(w, u, r)
    case LineReaches(u, t) => ReachNext(w, u, t)
    case AtSession(s, step) => w.(all := w.all[s := StepSession(w.all[s], step)])
  }

  /** Some run performs exactly these actions and ends in this world. */
  ghost predicate RunTo(actions: seq<Action>, w: World) {
    exists worlds :: Run(worlds, actions) && worlds[|actions|] == w
  }

  lemma RunStart()
    ensures RunTo([], Start())
  {
    assert Run([Start()], []);
  }

  lemma Perform(actions: seq<Action>, w: World, a: Action, next: World) returns (more: seq<Action>)
    requires RunTo(actions, w) && Possible(w, a) && next == Apply(w, a)
    ensures more == actions + [a] && RunTo(more, next)
  {
    more := actions + [a];
    var worlds :| Run(worlds, actions) && worlds[|actions|] == w;
    var longer := worlds + [next];
    assert forall i :: 0 <= i < |more| ==> Possible(longer[i], more[i]) && longer[i + 1] == Apply(longer[i], more[i]);
    assert Run(longer, more);
  }

  ghost predicate Run(worlds: seq<World>, actions: seq<Action>) {
    && |worlds| == |actions| + 1
    && worlds[0] == Start()
    && forall i :: 0 <= i < |actions| ==>
         Possible(worlds[i], actions[i]) && worlds[i + 1] == Apply(worlds[i], actions[i])
  }
}
