/** The delivery machine over whole runs: common order, lossless delivery, per-sender order, stop. */
module DeliveryRuns {
  import opened Strands
  import opened Delivery
  import opened DeliveryOrder
  import opened Wrappers
  import opened Rooms
  import Framing
  import Registry
  import TcpPump
  import WsPump

  // ----- the tables of a world -----

  function Clears(box: seq<ServerTask>): nat {
    if box == [] then 0 else (if box[0].ClearTask? then 1 else 0) + Clears(box[1..])
  }

  lemma {:induction false} ClearsLast(box: seq<ServerTask>, t: ServerTask)
    ensures Clears(box + [t]) == Clears(box) + if t.ClearTask? then 1 else 0
  {
    if box == [] {
      assert box + [t] == [t];
    } else {
      assert (box + [t])[1..] == box[1..] + [t];
      ClearsLast(box[1..], t);
    }
  }

  /** The server clears its sessions at most once, and only after it was stopped. */
  ghost predicate StopOnce(w: World) {
    && (w.tables.stopped <==> !w.clearing.Never?)
    && Clears(w.serverBox) == (if w.clearing.Posted? then 1 else 0)
    && (w.clearing.Done? ==> w.tables.sessions == {} && w.tables.rooms == map[] && w.atClear <= w.all.Keys)
    && (forall s :: s in w.all ==> w.all[s].told == if w.clearing.Done? && s in w.atClear then 1 else 0)
  }

  /** Since a session of the server joined, every broadcast of others posted a task to it. */
  ghost predicate BroadcastsReach(w: World) {
    && |w.senders| == |w.reached|
    && w.tables.sessions <= w.all.Keys && w.tables.sessions <= w.joinedAt.Keys
    && (forall s :: s in w.tables.sessions ==> w.joinedAt[s] <= |w.reached|)
    && (forall s, n :: s in w.tables.sessions && w.joinedAt[s] <= n < |w.reached| ==>
          (s in w.reached[n] <==> w.senders[n] != Some(s)))
    && (forall n :: 0 <= n < |w.reached| ==> w.senders[n].Some? ==> w.senders[n].value !in w.reached[n])
    && (forall n :: 0 <= n < |w.reached| ==> w.reached[n] <= w.all.Keys)
    && (forall t :: t in w.serverBox ==> TaskKnown(w.all.Keys, t))
  }

  /** The tables speak of the sessions of this world. */
  ghost predicate TablesKnown(tables: Registry.State<Sid>, all: set<Sid>) {
    && tables.fields.Keys == all && tables.expired == {} && tables.sessions <= all
    && forall r :: r in tables.rooms ==> tables.rooms[r] <= all
  }

  /** The loop over the recipients of the last line of `u` is still to reach exactly the pending ones. */
  ghost predicate LineOk(lines: seq<set<Sid>>, pending: set<Sid>, u: Sid, all: set<Sid>) {
    && pending <= all && u !in pending
    && (pending != {} ==> lines != [])
    && (lines != [] ==> pending !! lines[|lines| - 1])
    && (forall k :: 0 <= k < |lines| ==> u !in lines[k] && lines[k] <= all)
  }

  ghost predicate LinesReach(w: World) {
    && w.lines.Keys == w.pending.Keys == w.all.Keys
    && (forall u :: u in w.lines ==> LineOk(w.lines[u], w.pending[u], u, w.all.Keys))
  }

  ghost predicate Sessions(w: World) { forall s :: s in w.all ==> SessionOk(w, s, w.all[s]) }

  ghost predicate Tables(w: World) {
    StopOnce(w) && BroadcastsReach(w) && LinesReach(w) && TablesKnown(w.tables, w.all.Keys)
  }

  ghost predicate Inv(w: World) { Tables(w) && Sessions(w) }

  // ----- every action keeps the invariant -----

  /** Actions on one session that leave every history alone. */
  lemma OneSession(w: World, s: Sid, x: Session)
    requires Inv(w) && s in w.all && SessionOk(w, s, x) && x.told == w.all[s].told
    ensures Inv(w.(all := w.all[s := x]))
  {
    OneSessionTables(w, s, x);
    OneSessionSessions(w, s, x);
  }

  lemma OneSessionSessions(w: World, s: Sid, x: Session)
    requires Sessions(w) && s in w.all && SessionOk(w, s, x)
    ensures Sessions(w.(all := w.all[s := x]))
  {
    var w' := w.(all := w.all[s := x]);
    forall t | t in w'.all ensures SessionOk(w', t, w'.all[t]) {
      assert SessionOk(w, t, w'.all[t]);
      SameHistories(w, w', t, w'.all[t]);
    }
  }

  lemma OneSessionTables(w: World, s: Sid, x: Session)
    requires Tables(w) && s in w.all && x.told == w.all[s].told
    ensures Tables(w.(all := w.all[s := x]))
  {
    assert w.all[s := x].Keys == w.all.Keys;
  }

  lemma SameHistories(w: World, w': World, s: Sid, x: Session)
    requires SessionOk(w, s, x)
    requires w.reached == w'.reached && w.lines == w'.lines
    ensures SessionOk(w', s, x)
  {
    forall c: Channel ensures Passes(History(w, c), History(w', c), s) {
      assert History(w, c) == History(w', c);
    }
    HistoryPasses(w, w', s, x);
  }

  /** A step that leaves strands, pumps and histories alone. */
  lemma SameSessions(w: World, w': World)
    requires Sessions(w) && w'.all == w.all && w'.reached == w.reached && w'.lines == w.lines
    ensures Sessions(w')
  {
    forall s | s in w'.all ensures SessionOk(w', s, w'.all[s]) {
      assert SessionOk(w, s, w.all[s]);
      SameHistories(w, w', s, w.all[s]);
    }
  }

  lemma CreateStops(w: World, s: Sid, remote: string, tcp: bool)
    requires StopOnce(w) && s !in w.all && s !in w.tables.fields
    ensures StopOnce(CreateSession(w, s, remote, tcp))
  {
  }

  lemma CreateReaches(w: World, s: Sid, remote: string, tcp: bool)
    requires BroadcastsReach(w) && s !in w.all && s !in w.tables.fields
    ensures BroadcastsReach(CreateSession(w, s, remote, tcp))
  {
  }

  lemma CreateLines(w: World, s: Sid, remote: string, tcp: bool)
    requires LinesReach(w) && TablesKnown(w.tables, w.all.Keys) && s !in w.all && s !in w.tables.fields
    ensures var w' := CreateSession(w, s, remote, tcp); LinesReach(w') && TablesKnown(w'.tables, w'.all.Keys)
  {
  }

  lemma CreateTables(w: World, s: Sid, remote: string, tcp: bool)
    requires Tables(w) && s !in w.all && s !in w.tables.fields
    ensures Tables(CreateSession(w, s, remote, tcp))
  {
    CreateStops(w, s, remote, tcp);
    CreateReaches(w, s, remote, tcp);
    CreateLines(w, s, remote, tcp);
  }

  lemma CreateInv(w: World, s: Sid, remote: string, tcp: bool)
    requires Inv(w) && s !in w.all && s !in w.tables.fields
    ensures Inv(CreateSession(w, s, remote, tcp))
  {
    CreateTables(w, s, remote, tcp);
    NothingSentYet(w, s);
    CreateSessions(w, s, remote, tcp);
  }

  lemma NothingSentYet(w: World, s: Sid)
    requires BroadcastsReach(w) && LinesReach(w) && s !in w.all
    ensures s !in w.lines && forall c: Channel, n :: 0 <= n < |History(w, c)| ==> s !in History(w, c)[n]
  {
    forall c: Channel, n | 0 <= n < |History(w, c)| ensures s !in History(w, c)[n] {
      match c
      case Global => assert w.reached[n] <= w.all.Keys;
      case Room(u) => assert LineOk(w.lines[u], w.pending[u], u, w.all.Keys);
    }
  }

  lemma CreateSessions(w: World, s: Sid, remote: string, tcp: bool)
    requires Sessions(w) && s !in w.all && s !in w.lines
    requires forall c: Channel, n :: 0 <= n < |History(w, c)| ==> s !in History(w, c)[n]
    ensures Sessions(CreateSession(w, s, remote, tcp))
  {
    var w' := CreateSession(w, s, remote, tcp);
    assert forall c: Channel :: History(w', c) == History(w, c);
    forall t | t in w'.all ensures SessionOk(w', t, w'.all[t]) {
      if t == s {
        FreshOk(w', s);
      } else {
        CreateKeeps(w, w', s, t);
      }
    }
  }

  lemma CreateKeeps(w: World, w': World, s: Sid, t: Sid)
    requires t in w.all && SessionOk(w, t, w.all[t])
    requires w'.reached == w.reached && w'.lines == w.lines[s := []] && s !in w.lines
    ensures SessionOk(w', t, w.all[t])
  {
    forall c: Channel ensures Passes(History(w, c), History(w', c), t) {
      assert History(w', c) == History(w, c);
    }
    HistoryPasses(w, w', t, w.all[t]);
  }

  lemma FreshOk(w: World, s: Sid)
    requires s in w.all && w.all[s].pump in {Tcp(TcpPump.Idle()), Ws(WsPump.Idle())}
    requires w.all[s] == Session([], w.all[s].pump, [], false, false, 0)
    requires forall c: Channel, n :: 0 <= n < |History(w, c)| ==> s !in History(w, c)[n]
    ensures SessionOk(w, s, w.all[s])
  {
    assert Pipe(w.all[s]) == [];
    forall c: Channel ensures ChannelOk(Proj(c, Pipe(w.all[s])), History(w, c), s, false) {
      assert Passes([], History(w, c), s);
      ExpectedPasses([], History(w, c), s, |History(w, c)|);
    }
  }

  lemma BroadcastReachTable(w: World, sender: Option<Sid>)
    requires BroadcastsReach(w) && (sender.Some? ==> sender.value in w.all)
    ensures BroadcastsReach(BroadcastImpl(w, sender))
  {
    assert BroadcastImpl(w, sender).all.Keys == w.all.Keys;
  }

  lemma BroadcastOtherTables(w: World, sender: Option<Sid>)
    requires StopOnce(w) && LinesReach(w)
    ensures StopOnce(BroadcastImpl(w, sender)) && LinesReach(BroadcastImpl(w, sender))
  {
    assert BroadcastImpl(w, sender).all.Keys == w.all.Keys;
  }

  lemma BroadcastInv(w: World, sender: Option<Sid>)
    requires Inv(w) && (sender.Some? ==> sender.value in w.all)
    ensures Inv(BroadcastImpl(w, sender))
  {
    var w' := BroadcastImpl(w, sender);
    BroadcastReachTable(w, sender);
    BroadcastOtherTables(w, sender);
    forall t | t in w'.all ensures SessionOk(w', t, w'.all[t]) {
      assert t in w.all && SessionOk(w, t, w.all[t]);
      BroadcastReachesOk(w, sender, t);
    }
  }

  lemma BroadcastReachesOk(w: World, sender: Option<Sid>, t: Sid)
    requires t in w.all && SessionOk(w, t, w.all[t])
    ensures var w' := BroadcastImpl(w, sender); SessionOk(w', t, w'.all[t])
  {
    var w' := BroadcastImpl(w, sender);
    forall c: Channel | c != Global ensures Passes(History(w, c), History(w', c), t) {
      assert History(w', c) == History(w, c);
    }
    if t in w.tables.sessions && sender != Some(t) {
      PostReaches(w, w', t, w.all[t], Deliver(Numbered(Global, |w.reached|)), Global);
    } else {
      assert Passes(w.reached, w'.reached, t);
      HistoryPasses(w, w', t, w.all[t]);
    }
  }

  lemma LineReachesTable(w: World, u: Sid, t: Sid)
    requires LinesReach(w) && MayReach(w, u, t)
    ensures LinesReach(ReachNext(w, u, t))
  {
    var w' := ReachNext(w, u, t);
    assert w'.all.Keys == w.all.Keys;
    LineOkStep(w.lines[u], w.pending[u], u, t, w.all.Keys);
  }

  lemma LineOkStep(h: seq<set<Sid>>, pending: set<Sid>, u: Sid, t: Sid, all: set<Sid>)
    requires LineOk(h, pending, u, all) && t in pending
    ensures LineOk(h[|h| - 1 := h[|h| - 1] + {t}], pending - {t}, u, all)
  {
  }

  lemma LineReachesOtherTables(w: World, u: Sid, t: Sid)
    requires Tables(w) && MayReach(w, u, t)
    ensures var w' := ReachNext(w, u, t);
            StopOnce(w') && BroadcastsReach(w') && TablesKnown(w'.tables, w'.all.Keys)
  {
    assert ReachNext(w, u, t).all.Keys == w.all.Keys;
  }

  lemma LineReachesInv(w: World, u: Sid, t: Sid)
    requires Inv(w) && MayReach(w, u, t)
    ensures Inv(ReachNext(w, u, t))
  {
    LineReachesTable(w, u, t);
    LineReachesOtherTables(w, u, t);
    LineReachesSessions(w, u, t);
  }

  lemma LineReachesSessions(w: World, u: Sid, t: Sid)
    requires Sessions(w) && LinesReach(w) && MayReach(w, u, t)
    ensures Sessions(ReachNext(w, u, t))
  {
    var w' := ReachNext(w, u, t);
    assert LineOk(w.lines[u], w.pending[u], u, w.all.Keys);
    assert t !in w.lines[u][|w.lines[u]| - 1];
    forall s | s in w'.all ensures SessionOk(w', s, w'.all[s]) {
      assert s in w.all && SessionOk(w, s, w.all[s]);
      LineReachesOk(w, u, t, s);
    }
  }

  lemma LastLineGrows(h: seq<set<Sid>>, t: Sid, s: Sid)
    requires h != [] && t !in h[|h| - 1]
    ensures var h' := h[|h| - 1 := h[|h| - 1] + {t}];
            if s == t then Reaches(h, h', t) else Passes(h, h', s)
  {
  }

  lemma LineReachesOk(w: World, u: Sid, t: Sid, s: Sid)
    requires MayReach(w, u, t) && t !in w.lines[u][|w.lines[u]| - 1]
    requires s in w.all && SessionOk(w, s, w.all[s])
    ensures var w' := ReachNext(w, u, t); SessionOk(w', s, w'.all[s])
  {
    var w' := ReachNext(w, u, t);
    LastLineGrows(w.lines[u], t, s);
    if s == t {
      LineReachesNext(w, w', u, t);
    } else {
      LineReachesOther(w, w', u, s);
    }
  }

  lemma OtherHistoriesPass(w: World, w': World, u: Sid, t: Sid)
    requires u in w.lines && u in w'.lines && w'.reached == w.reached && w'.lines == w.lines[u := w'.lines[u]]
    ensures forall c: Channel :: c != Room(u) ==> Passes(History(w, c), History(w', c), t)
  {
    forall c: Channel | c != Room(u) ensures Passes(History(w, c), History(w', c), t) {
      assert History(w', c) == History(w, c);
    }
  }

  lemma LineReachesNext(w: World, w': World, u: Sid, t: Sid)
    requires t in w.all && SessionOk(w, t, w.all[t]) && u in w.lines && u in w'.lines
    requires w'.reached == w.reached && w'.lines == w.lines[u := w'.lines[u]]
    requires Reaches(w.lines[u], w'.lines[u], t)
    ensures SessionOk(w', t, Post(w.all[t], Push(Numbered(Room(u), |w'.lines[u]| - 1))))
  {
    OtherHistoriesPass(w, w', u, t);
    PostReaches(w, w', t, w.all[t], Push(Numbered(Room(u), |w'.lines[u]| - 1)), Room(u));
  }

  lemma LineReachesOther(w: World, w': World, u: Sid, s: Sid)
    requires s in w.all && SessionOk(w, s, w.all[s]) && u in w.lines && u in w'.lines
    requires w'.reached == w.reached && w'.lines == w.lines[u := w'.lines[u]]
    requires Passes(w.lines[u], w'.lines[u], s)
    ensures SessionOk(w', s, w.all[s])
  {
    forall c: Channel ensures Passes(History(w, c), History(w', c), s) {
      if c != Room(u) {
        assert History(w', c) == History(w, c);
      }
    }
    HistoryPasses(w, w', s, w.all[s]);
  }

  lemma BeginLineTable(w: World, u: Sid, r: string)
    requires LinesReach(w) && TablesKnown(w.tables, w.all.Keys) && MayOpenLine(w, u)
    ensures LinesReach(OpenLine(w, u, r))
  {
    if r in w.tables.rooms {
      LineOkBegin(w.lines[u], u, w.tables.rooms[r], w.all.Keys);
    }
  }

  lemma LineOkBegin(h: seq<set<Sid>>, u: Sid, members: set<Sid>, all: set<Sid>)
    requires LineOk(h, {}, u, all) && members <= all
    ensures LineOk(h + [{}], members - {u}, u, all)
  {
  }

  lemma BeginLineOk(w: World, u: Sid, r: string, s: Sid)
    requires MayOpenLine(w, u) && s in w.all && SessionOk(w, s, w.all[s])
    ensures SessionOk(OpenLine(w, u, r), s, w.all[s])
  {
    var w' := OpenLine(w, u, r);
    assert Passes(w.lines[u], w'.lines[u], s);
    LineReachesOther(w, w', u, s);
  }

  lemma BeginLineInv(w: World, u: Sid, r: string)
    requires Inv(w) && MayOpenLine(w, u)
    ensures Inv(OpenLine(w, u, r))
  {
    var w' := OpenLine(w, u, r);
    BeginLineTable(w, u, r);
    forall s | s in w'.all ensures SessionOk(w', s, w'.all[s]) {
      BeginLineOk(w, u, r, s);
    }
  }

  lemma PostStopOk(w: World, s: Sid, x: Session, told: nat)
    requires SessionOk(w, s, x)
    ensures SessionOk(w, s, Post(x, Stop).(told := told))
  {
    var y := Post(x, Stop).(told := told);
    PostSound(x, Stop);
    forall c: Channel ensures Proj(c, Pipe(y)) == Proj(c, Pipe(x)) {
      PostProj(x, Stop, c);
      assert Pipe(y) == Pipe(Post(x, Stop));
    }
    SameProjOk(w, s, x, y);
  }

  lemma PostPlainOk(w: World, s: Sid, x: Session, text: string)
    requires SessionOk(w, s, x)
    ensures SessionOk(w, s, Post(x, Push(Plain(text))))
  {
    var task := Push(Plain(text));
    PostSound(x, task);
    forall c: Channel ensures Proj(c, Pipe(Post(x, task))) == Proj(c, Pipe(x)) {
      PostProj(x, task, c);
    }
    SameProjOk(w, s, x, Post(x, task));
  }

  lemma ServerBoxInv(w: World, w': World)
    requires Inv(w)
    requires w' == w.(serverBox := w'.serverBox,
                      tables := w.tables.(stopped := w'.tables.stopped), clearing := w'.clearing)
    requires StopOnce(w')
    requires forall t :: t in w'.serverBox ==> TaskKnown(w.all.Keys, t)
    ensures Inv(w')
  {
    SameSessions(w, w');
  }

  /** The world just before the clearing task is taken from the server's strand. */
  ghost function BeforeClear(w: World): World {
    w.(clearing := Posted, serverBox := [ClearTask] + w.serverBox)
  }

  lemma ClearTables(w: World)
    requires Tables(BeforeClear(w))
    ensures Tables(ClearSessions(w))
  {
    var v, w' := BeforeClear(w), ClearSessions(w);
    assert v.serverBox[1..] == w.serverBox;
    assert forall t :: t in w.serverBox ==> t in v.serverBox;
    assert w'.all.Keys == w.all.Keys;
  }

  lemma ClearInv(w: World)
    requires Inv(BeforeClear(w))
    ensures Inv(ClearSessions(w))
  {
    var w' := ClearSessions(w);
    ClearTables(w);
    forall s | s in w'.all ensures SessionOk(w', s, w'.all[s]) {
      ClearOk(w, s);
    }
  }

  lemma ClearOk(w: World, s: Sid)
    requires Sessions(BeforeClear(w)) && s in w.all
    ensures SessionOk(ClearSessions(w), s, ClearSessions(w).all[s])
  {
    var v, w' := BeforeClear(w), ClearSessions(w);
    assert SessionOk(v, s, v.all[s]);
    PostStopOk(v, s, v.all[s], v.all[s].told + 1);
    SameHistories(v, w', s, w'.all[s]);
  }

  /** A step of the tables that lists no session and adds no room to a cleared server. */
  lemma TableStepInv(w: World, tables: Registry.State<Sid>)
    requires Inv(w) && TablesKnown(tables, w.all.Keys)
    requires tables.stopped == w.tables.stopped && tables.sessions <= w.tables.sessions
    requires w.clearing.Done? ==> tables.rooms == map[]
    ensures Inv(w.(tables := tables))
  {
    TableStepTables(w, tables);
    SameSessions(w, w.(tables := tables));
  }

  lemma TableStepTables(w: World, tables: Registry.State<Sid>)
    requires Tables(w) && TablesKnown(tables, w.all.Keys)
    requires tables.stopped == w.tables.stopped && tables.sessions <= w.tables.sessions
    requires w.clearing.Done? ==> tables.rooms == map[]
    ensures Tables(w.(tables := tables))
  {
  }

  /** The tables after a step on behalf of an existing session. */
  ghost predicate Kept(tables: Registry.State<Sid>, after: Registry.State<Sid>, all: set<Sid>) {
    && TablesKnown(after, all) && after.stopped == tables.stopped && after.sessions <= tables.sessions
    && (tables.stopped && tables.rooms == map[] ==> after.rooms == map[])
  }

  lemma RegisterKnown(tables: Registry.State<Sid>, s: Sid, nick: string, all: set<Sid>)
    requires TablesKnown(tables, all) && s in all
    ensures Kept(tables, Registry.Register(tables, s, nick).0, all)
  {
  }

  lemma JoinRoomKnown(tables: Registry.State<Sid>, s: Sid, r: string, all: set<Sid>)
    requires TablesKnown(tables, all) && s in all
    ensures Kept(tables, Registry.JoinRoom(tables, s, r).0, all)
  {
    WithoutMembers(tables.rooms, tables.fields[s].room, s);
  }

  lemma LeaveRoomKnown(tables: Registry.State<Sid>, s: Sid, r: string, all: set<Sid>)
    requires TablesKnown(tables, all) && s in all
    ensures Kept(tables, Registry.LeaveRoom(tables, s, r).0, all)
  {
    WithoutMembers(tables.rooms, r, s);
  }

  lemma TableStep(tables: Registry.State<Sid>, step: Registry.Action<Sid>, all: set<Sid>)
    requires TablesKnown(tables, all) && StepKnown(all, step)
    ensures Registry.Possible(tables, step)
    ensures Kept(tables, Registry.Apply(tables, step), all)
  {
    match step
    case DoRegister(s, nick) => RegisterKnown(tables, s, nick, all);
    case DoJoinRoom(s, r) => JoinRoomKnown(tables, s, r, all);
    case DoLeaveRoom(s, r) => LeaveRoomKnown(tables, s, r, all);
    case _ =>
  }

  lemma LeaveKnown(tables: Registry.State<Sid>, s: Sid, nick: string, all: set<Sid>)
    requires TablesKnown(tables, all) && s in all
    ensures Kept(tables, Registry.Leave(tables, s, nick), all)
  {
    WithoutMembers(tables.rooms, tables.fields[s].room, s);
  }

  lemma JoinServerTables(w: World, s: Sid)
    requires Tables(w) && !w.tables.stopped && s in w.all
    ensures Tables(JoinServer(w, s))
  {
  }

  lemma JoinServerInv(w: World, s: Sid)
    requires Inv(w) && !w.tables.stopped && s in w.all
    ensures Inv(JoinServer(w, s))
  {
    JoinServerTables(w, s);
    SameSessions(w, JoinServer(w, s));
  }

  lemma JoinTaskInv(w: World, s: Sid)
    requires Inv(w) && !w.tables.stopped && s in w.all
    ensures Inv(JoinServer(w, s)) && Inv(BroadcastImpl(JoinServer(w, s), Some(s)))
  {
    JoinServerInv(w, s);
    BroadcastInv(JoinServer(w, s), Some(s));
  }

  /** A task that only changes the tables. */
  lemma TableTaskInv(w: World, step: Registry.Action<Sid>)
    requires Inv(w) && StepKnown(w.all.Keys, step)
    ensures Inv(w.(tables := Registry.Apply(w.tables, step)))
  {
    TableStep(w.tables, step, w.all.Keys);
    TableStepInv(w, Registry.Apply(w.tables, step));
  }

  lemma LeaveTaskInv(w: World, s: Sid, nick: string)
    requires Inv(w) && s in w.all
    ensures var v := w.(tables := Registry.Leave(w.tables, s, nick)); Inv(v) && Inv(BroadcastImpl(v, None))
  {
    var after := Registry.Leave(w.tables, s, nick);
    LeaveKnown(w.tables, s, nick, w.all.Keys);
    TableStepInv(w, after);
    BroadcastInv(w.(tables := after), None);
  }

  /** Any task but the clearing one, once it is taken from the server's strand. */
  lemma ServerTaskInv(w: World, t: ServerTask)
    requires Inv(w) && !t.ClearTask? && TaskKnown(w.all.Keys, t)
    ensures Inv(RunServerTask(w, t))
  {
    match t
    case TableTask(step) => TableTaskInv(w, step);
    case JoinTask(s) => if !w.tables.stopped { JoinTaskInv(w, s); }
    case LeaveTask(s, nick) => LeaveTaskInv(w, s, nick);
    case BroadcastTask(sender) => BroadcastInv(w, sender);
  }

  lemma RunServerInv(w: World)
    requires Inv(w) && w.serverBox != []
    ensures Inv(Apply(w, RunServer))
  {
    var t, v := w.serverBox[0], w.(serverBox := w.serverBox[1..]);
    assert t in w.serverBox && TaskKnown(w.all.Keys, t);
    if t.ClearTask? {
      assert w == BeforeClear(v);
      ClearInv(v);
    } else {
      TakeTaskInv(w);
      ServerTaskInv(v, t);
    }
  }

  lemma TakeTaskInv(w: World)
    requires Inv(w) && w.serverBox != [] && !w.serverBox[0].ClearTask?
    ensures Inv(w.(serverBox := w.serverBox[1..]))
  {
    assert forall r :: r in w.serverBox[1..] ==> r in w.serverBox;
    ServerBoxInv(w, w.(serverBox := w.serverBox[1..]));
  }

  lemma QueueTaskInv(w: World, t: ServerTask)
    requires Inv(w) && !t.ClearTask? && TaskKnown(w.all.Keys, t)
    ensures Inv(w.(serverBox := w.serverBox + [t]))
  {
    ClearsLast(w.serverBox, t);
    ServerBoxInv(w, w.(serverBox := w.serverBox + [t]));
  }

  lemma LeaveNowInv(w: World, s: Sid, r: string)
    requires Inv(w) && s in w.tables.fields
    ensures Inv(w.(tables := Registry.LeaveRoom(w.tables, s, r).0))
  {
    LeaveRoomKnown(w.tables, s, r, w.all.Keys);
    TableStepInv(w, Registry.LeaveRoom(w.tables, s, r).0);
  }

  lemma StopInv(w: World, a: Action)
    requires Inv(w) && Possible(w, a) && a in {CallStop, PostClear}
    ensures Inv(Apply(w, a))
  {
    ClearsLast(w.serverBox, ClearTask);
    ServerBoxInv(w, Apply(w, a));
  }

  lemma SessionStepOk(w: World, s: Sid, x: Session, step: SessionStep)
    requires SessionOk(w, s, x) && MayStep(x, step)
    ensures SessionOk(w, s, StepSession(x, step)) && StepSession(x, step).told == x.told
  {
    match step
    case CallDeliver(text) => PostPlainOk(w, s, x, text);
    case Quit =>
      PostPlainOk(w, s, x, Framing.FAREWELL);
      StopOk(w, s, Post(x, Push(Plain(Framing.FAREWELL))));
    case RunStrand => RunFirstOk(w, s, x);
    case WriteEnds(c) => CompleteOk(w, s, x, c);
    case CallStopSession => StopOk(w, s, x);
  }

  lemma AtSessionInv(w: World, s: Sid, step: SessionStep)
    requires Inv(w) && s in w.all && MayStep(w.all[s], step)
    ensures Inv(w.(all := w.all[s := StepSession(w.all[s], step)]))
  {
    assert SessionOk(w, s, w.all[s]);
    SessionStepOk(w, s, w.all[s], step);
    OneSession(w, s, StepSession(w.all[s], step));
  }

  /** Calls on the server. */
  predicate IsCall(a: Action) {
    a.CallJoin? || a.CallLeave? || a.CallBroadcast? || a.CallTables? || a.LeaveRoomNow? || a.CallStop? || a.PostClear?
  }

  lemma CallInv(w: World, a: Action)
    requires Inv(w) && Possible(w, a) && IsCall(a)
    ensures Inv(Apply(w, a))
  {
    match a
    case CallJoin(s) => QueueTaskInv(w, JoinTask(s));
    case CallLeave(s) => QueueTaskInv(w, LeaveTask(s, w.tables.fields[s].nick));
    case CallBroadcast(sender) => QueueTaskInv(w, BroadcastTask(sender));
    case CallTables(step) => QueueTaskInv(w, TableTask(step));
    case LeaveRoomNow(s, r) => LeaveNowInv(w, s, r);
    case CallStop => StopInv(w, a);
    case PostClear => StopInv(w, a);
  }

  lemma StepInv(w: World, a: Action)
    requires Inv(w) && Possible(w, a)
    ensures Inv(Apply(w, a))
  {
    if IsCall(a) {
      CallInv(w, a);
    } else {
      match a
      case AtSession(s, step) => AtSessionInv(w, s, step);
      case Create(s, remote, tcp) => CreateInv(w, s, remote, tcp);
      case RunServer => RunServerInv(w);
      case BeginLine(u, r) => BeginLineInv(w, u, r);
      case LineReaches(u, t) => LineReachesInv(w, u, t);
    }
  }

  lemma {:induction false} RunInv(worlds: seq<World>, actions: seq<Action>, i: nat)
    requires Run(worlds, actions) && i < |worlds|
    ensures Inv(worlds[i])
  {
    if i > 0 {
      RunInv(worlds, actions, i - 1);
      StepInv(worlds[i - 1], actions[i - 1]);
    }
  }

  // ----- the tables within the machine -----

  /** The step that an action of the machine is for the tables, if any. */
  ghost function StepOfTables(w: World, a: Action): Option<Registry.Action<Sid>> {
    match a
    case Create(s, remote, _) => Some(Registry.Create(s, remote))
    case LeaveRoomNow(s, r) => Some(Registry.DoLeaveRoom(s, r))
    case CallStop => Some(Registry.RequestStop)
    case RunServer =>
      if w.serverBox == [] then None
      else (match w.serverBox[0]
            case JoinTask(s) => Some(Registry.DoJoin(s))
            case LeaveTask(s, nick) => Some(Registry.DoLeave(s, nick))
            case TableTask(step) => Some(step)
            case ClearTask => Some(Registry.DoClear)
            case BroadcastTask(_) => None)
    case _ => None
  }

  lemma TaskFollows(w: World, t: ServerTask)
    requires TablesKnown(w.tables, w.all.Keys) && TaskKnown(w.all.Keys, t) && (t.ClearTask? ==> w.tables.stopped)
    ensures var after := RunServerTask(w, t).tables;
            match t
            case JoinTask(s) => after == Registry.Apply(w.tables, Registry.DoJoin(s))
            case LeaveTask(s, nick) => after == Registry.Apply(w.tables, Registry.DoLeave(s, nick))
            case TableTask(step) => Registry.Possible(w.tables, step) && after == Registry.Apply(w.tables, step)
            case ClearTask => after == Registry.Apply(w.tables, Registry.DoClear)
            case BroadcastTask(_) => after == w.tables
  {
    if t.TableTask? {
      TableStep(w.tables, t.step, w.all.Keys);
    }
  }

  ghost predicate Follows(tables: Registry.State<Sid>, after: Registry.State<Sid>, step: Option<Registry.Action<Sid>>) {
    match step
    case None => after == tables
    case Some(step) => Registry.Possible(tables, step) && after == Registry.Apply(tables, step)
  }

  lemma ServerFollows(w: World)
    requires Tables(w) && Possible(w, RunServer)
    ensures Follows(w.tables, Apply(w, RunServer).tables, StepOfTables(w, RunServer))
  {
    assert w.serverBox[0].ClearTask? ==> Clears(w.serverBox) > 0;
    TaskFollows(w.(serverBox := w.serverBox[1..]), w.serverBox[0]);
  }

  lemma TablesFollow(w: World, a: Action)
    requires Tables(w) && Possible(w, a)
    ensures Follows(w.tables, Apply(w, a).tables, StepOfTables(w, a))
  {
    if a.RunServer? {
      ServerFollows(w);
    }
  }

  /** The server's strand is never stuck: its next task can always run. */
  lemma ServerNeverStuck(worlds: seq<World>, actions: seq<Action>, i: nat)
    requires Run(worlds, actions) && i < |worlds| && worlds[i].serverBox != []
    ensures Possible(worlds[i], RunServer)
  {
    RunInv(worlds, actions, i);
    assert worlds[i].serverBox[0] in worlds[i].serverBox;
  }

  /** In every run of the machine the tables go through a run of `Registry`. */
  lemma {:induction false} TablesRun(worlds: seq<World>, actions: seq<Action>, i: nat)
    returns (steps: seq<Registry.Action<Sid>>)
    requires Run(worlds, actions) && i < |worlds|
    ensures Registry.RunTo(steps, worlds[i].tables)
  {
    if i == 0 {
      steps := [];
      Registry.RunStart<Sid>();
    } else {
      steps := TablesRun(worlds, actions, i - 1);
      RunInv(worlds, actions, i - 1);
      var w, a := worlds[i - 1], actions[i - 1];
      TablesFollow(w, a);
      match StepOfTables(w, a)
      case None =>
      case Some(step) =>
        Registry.RunOn(steps, w.tables, step);
        steps := steps + [step];
    }
  }

  /** So what holds of the rooms in every run of the tables holds in every world: a line has at most 100 recipients. */
  lemma RoomsOfEveryWorld(worlds: seq<World>, actions: seq<Action>, i: nat)
    requires Run(worlds, actions) && i < |worlds|
    ensures RoomsHealthy(worlds[i].tables.rooms)
  {
    var steps := TablesRun(worlds, actions, i);
    var states :| Registry.Run(states, steps) && states[|steps|] == worlds[i].tables;
    RoomTableHealth(states, steps, |steps|);
  }

  // ----- common order -----

  /** Two sequences of numbers that never disagree about which of two common numbers comes first. */
  ghost predicate SameOrder(a: seq<nat>, b: seq<nat>) {
    forall p, q, p', q' ::
      0 <= p < q < |a| && 0 <= p' < |b| && 0 <= q' < |b| && a[p] == b[p'] && a[q] == b[q'] ==> p' < q'
  }

  lemma IncreasingFront(a: seq<nat>, b: seq<nat>)
    requires Increasing(a + b)
    ensures Increasing(a)
  {
    forall i, j | 0 <= i < j < |a| ensures a[i] < a[j] {
      assert (a + b)[i] < (a + b)[j];
    }
  }

  /** What has been written is the oldest part of what is on its way, on every channel. */
  lemma WrittenIsFront(c: Channel, x: Session) returns (rest: seq<nat>)
    ensures Proj(c, Pipe(x)) == Proj(c, x.written) + rest
    ensures InTransit(x.pump) == [] && x.box == [] ==> rest == []
  {
    var later := InTransit(x.pump) + Pushes(x.box) + Delivers(x.box);
    assert Pipe(x) == x.written + later;
    ProjConcat(c, x.written, later);
    rest := Proj(c, later);
  }

  lemma IncreasingSameOrder(a: seq<nat>, b: seq<nat>)
    requires Increasing(a) && Increasing(b)
    ensures SameOrder(a, b)
  {
    forall p, q, p', q' | 0 <= p < q < |a| && 0 <= p' < |b| && 0 <= q' < |b| && a[p] == b[p'] && a[q] == b[q']
      ensures p' < q'
    {
      assert a[p] < a[q];
    }
  }

  /** `a` lists, in the order of the broadcasts, some of those of others that were sent to `s`. */
  ghost predicate SomeBroadcastsInOrder(w: World, s: Sid, a: seq<nat>) {
    && Increasing(a)
    && forall n :: n in a ==> n < |w.reached| && n < |w.senders| && s in w.reached[n] && w.senders[n] != Some(s)
  }

  lemma WrittenInOrder(w: World, s: Sid)
    requires Inv(w) && s in w.all
    ensures SomeBroadcastsInOrder(w, s, Proj(Global, w.all[s].written))
  {
    WrittenOk(w, Global, s);
    NotFromSelf(w, s);
  }

  lemma NotFromSelf(w: World, s: Sid)
    requires BroadcastsReach(w)
    ensures forall n :: 0 <= n < |w.reached| && s in w.reached[n] ==> n < |w.senders| && w.senders[n] != Some(s)
  {
  }

  /**
   In every run, the broadcasts written to a session are some of those that were sent to it, each at
   most once and in the order in which `broadcast_impl` ran, so any two sessions agree on their order;
   drops, write errors and stops do not change that.
   */
  lemma CommonBroadcastOrder(worlds: seq<World>, actions: seq<Action>, i: nat, s: Sid, t: Sid)
    requires Run(worlds, actions) && i < |worlds|
    requires s in worlds[i].all && t in worlds[i].all
    ensures SomeBroadcastsInOrder(worlds[i], s, Proj(Global, worlds[i].all[s].written))
    ensures SameOrder(Proj(Global, worlds[i].all[s].written), Proj(Global, worlds[i].all[t].written))
  {
    RunInv(worlds, actions, i);
    WrittenInOrder(worlds[i], s);
    WrittenInOrder(worlds[i], t);
    IncreasingSameOrder(Proj(Global, worlds[i].all[s].written), Proj(Global, worlds[i].all[t].written));
  }

  lemma WrittenOk(w: World, c: Channel, s: Sid)
    requires Sessions(w) && s in w.all
    ensures var a := Proj(c, w.all[s].written);
            Increasing(a) && forall n :: n in a ==> n < |History(w, c)| && s in History(w, c)[n]
  {
    assert SessionOk(w, s, w.all[s]);
    assert ChannelOk(Proj(c, Pipe(w.all[s])), History(w, c), s, w.all[s].lossy);
    var a := Proj(c, w.all[s].written);
    var rest := WrittenIsFront(c, w.all[s]);
    IncreasingFront(a, rest);
    assert forall n :: n in a ==> n in a + rest;
  }

  // ----- lossless delivery -----

  /** Nothing waits on the strand and no write is outstanding. */
  ghost predicate Quiescent(x: Session) { x.box == [] && Outstanding(x.pump) == [] }

  /** A session to which no message was lost so far: for TCP, one without stop or write error. */
  ghost predicate Intact(x: Session) {
    !x.failed && match x.pump case Tcp(tcp) => !tcp.stopped case Ws(_) => !x.lossy
  }

  /** The server's strand runs the leaving of `s`. */
  ghost predicate RunsLeave(w: World, a: Action, s: Sid) {
    a.RunServer? && w.serverBox != [] && w.serverBox[0].LeaveTask? && w.serverBox[0].s == s
  }

  /** Before the clear, no broadcast was sent to a session that is not listed, nor to a listed one before it joined. */
  ghost predicate NothingBeforeJoin(w: World, s: Sid) {
    w.clearing.Done?
    || forall n :: 0 <= n < |w.reached| && s in w.reached[n] ==>
         s in w.tables.sessions && s in w.joinedAt && w.joinedAt[s] <= n
  }

  lemma BroadcastAfterJoin(w: World, sender: Option<Sid>, s: Sid)
    requires BroadcastsReach(w) && NothingBeforeJoin(w, s)
    ensures NothingBeforeJoin(BroadcastImpl(w, sender), s)
  {
  }

  lemma TaskAfterJoin(w: World, t: ServerTask, s: Sid)
    requires Tables(w) && TaskKnown(w.all.Keys, t) && NothingBeforeJoin(w, s) && !(t.LeaveTask? && t.s == s)
    ensures NothingBeforeJoin(RunServerTask(w, t), s)
  {
    match t
    case JoinTask(u) =>
      if !w.tables.stopped {
        JoinServerTables(w, u);
        BroadcastAfterJoin(JoinServer(w, u), Some(u), s);
      }
    case LeaveTask(u, nick) =>
      if !w.tables.stopped {
        LeaveKnown(w.tables, u, nick, w.all.Keys);
        TableStepTables(w, Registry.Leave(w.tables, u, nick));
        BroadcastAfterJoin(w.(tables := Registry.Leave(w.tables, u, nick)), None, s);
      }
    case BroadcastTask(sender) => BroadcastAfterJoin(w, sender, s);
    case TableTask(step) => TableStep(w.tables, step, w.all.Keys);
    case ClearTask =>
  }

  lemma StepAfterJoin(w: World, a: Action, s: Sid)
    requires Inv(w) && Possible(w, a) && NothingBeforeJoin(w, s) && !RunsLeave(w, a, s)
    ensures NothingBeforeJoin(Apply(w, a), s)
  {
    if a.RunServer? {
      var t, v := w.serverBox[0], w.(serverBox := w.serverBox[1..]);
      if t.ClearTask? {
      } else {
        TakeTaskInv(w);
        TaskAfterJoin(v, t, s);
      }
    } else {
      TablesAlone(w, a);
    }
  }

  /** Only the server's strand broadcasts and lists sessions. */
  lemma TablesAlone(w: World, a: Action)
    requires StopOnce(w) && Possible(w, a) && !a.RunServer?
    ensures Apply(w, a).reached == w.reached && Apply(w, a).joinedAt == w.joinedAt
    ensures Apply(w, a).tables.sessions == w.tables.sessions && Apply(w, a).clearing.Done? == w.clearing.Done?
  {
  }

  lemma {:induction false} RunAfterJoin(worlds: seq<World>, actions: seq<Action>, i: nat, s: Sid)
    requires Run(worlds, actions) && i < |worlds|
    requires forall k :: 0 <= k < i ==> !RunsLeave(worlds[k], actions[k], s)
    ensures NothingBeforeJoin(worlds[i], s)
  {
    if i > 0 {
      RunAfterJoin(worlds, actions, i - 1, s);
      RunInv(worlds, actions, i - 1);
      StepAfterJoin(worlds[i - 1], actions[i - 1], s);
    }
  }

  /**
   What is written, queued or still posted for an intact session of the server is, from the moment it
   joined, on the global channel the broadcasts of others, each once and in order.
   */
  lemma LosslessSinceJoin(worlds: seq<World>, actions: seq<Action>, i: nat, s: Sid)
    requires Run(worlds, actions) && i < |worlds|
    requires s in worlds[i].tables.sessions && s in worlds[i].all && Intact(worlds[i].all[s])
    ensures s in worlds[i].joinedAt
    ensures var w := worlds[i];
            var sent := Proj(Global, Pipe(w.all[s]));
            && Increasing(sent)
            && (forall n: nat :: n in sent <==> n < |w.reached| && s in w.reached[n])
            && (forall n: nat :: w.joinedAt[s] <= n ==>
                  (n in sent <==> n < |w.senders| && w.senders[n] != Some(s)))
            && (Quiescent(w.all[s]) ==> sent == Proj(Global, w.all[s].written))
  {
    RunInv(worlds, actions, i);
    var w := worlds[i];
    var x := w.all[s];
    assert SessionOk(w, s, x);
    assert ChannelOk(Proj(Global, Pipe(x)), History(w, Global), s, x.lossy);
    ExpectedMembers(w.reached, s, |w.reached|);
    var rest := WrittenIsFront(Global, x);
  }

  /**
   For an intact session of the server that has never left it: what is written, queued or still posted is,
   on the global channel, exactly the broadcasts of others since it joined, each once and in order.
   */
  lemma LosslessDelivery(worlds: seq<World>, actions: seq<Action>, i: nat, s: Sid)
    requires Run(worlds, actions) && i < |worlds|
    requires s in worlds[i].tables.sessions && s in worlds[i].all && Intact(worlds[i].all[s])
    requires forall k :: 0 <= k < i ==> !RunsLeave(worlds[k], actions[k], s)
    ensures s in worlds[i].joinedAt
    ensures var w := worlds[i];
            var sent := Proj(Global, Pipe(w.all[s]));
            && Increasing(sent)
            && (forall n: nat :: n in sent <==> w.joinedAt[s] <= n < |w.senders| && w.senders[n] != Some(s))
            && (Quiescent(w.all[s]) ==> sent == Proj(Global, w.all[s].written))
  {
    LosslessSinceJoin(worlds, actions, i, s);
    RunAfterJoin(worlds, actions, i, s);
    RunInv(worlds, actions, i);
  }

  // ----- lines sent to a room -----

  /** The loop over the recipients of line `k` of `u`: who it reached, and who it is still to reach. */
  ghost predicate LineTowards(w: World, u: Sid, k: nat, targets: set<Sid>) {
    && u in w.lines && u in w.pending && k < |w.lines[u]|
    && w.lines[u][k] + (if k == |w.lines[u]| - 1 then w.pending[u] else {}) == targets
  }

  lemma LineStepOpens(w: World, v: Sid, r: string, u: Sid, k: nat, targets: set<Sid>)
    requires LineTowards(w, u, k, targets) && MayOpenLine(w, v)
    ensures LineTowards(OpenLine(w, v, r), u, k, targets)
  {
  }

  lemma LineStepReaches(w: World, v: Sid, t: Sid, u: Sid, k: nat, targets: set<Sid>)
    requires LineTowards(w, u, k, targets) && MayReach(w, v, t)
    ensures LineTowards(ReachNext(w, v, t), u, k, targets)
  {
  }

  lemma TaskLeavesLines(w: World, t: ServerTask)
    requires TaskKnown(w.tables.fields.Keys, t)
    ensures RunServerTask(w, t).lines == w.lines && RunServerTask(w, t).pending == w.pending
  {
  }

  lemma LinesAlone(w: World, a: Action)
    requires Possible(w, a) && !a.Create? && !a.BeginLine? && !a.LineReaches?
    ensures Apply(w, a).lines == w.lines && Apply(w, a).pending == w.pending
  {
    if a.RunServer? {
      TaskLeavesLines(w.(serverBox := w.serverBox[1..]), w.serverBox[0]);
    }
  }

  lemma LineStep(w: World, a: Action, u: Sid, k: nat, targets: set<Sid>)
    requires LineTowards(w, u, k, targets) && Possible(w, a) && !(a.Create? && a.s == u)
    ensures LineTowards(Apply(w, a), u, k, targets)
  {
    match a
    case BeginLine(v, r) => LineStepOpens(w, v, r, u, k, targets);
    case LineReaches(v, t) => LineStepReaches(w, v, t, u, k, targets);
    case Create(v, _, _) =>
    case _ => LinesAlone(w, a);
  }

  /** A line sent to a room reaches every participant it had then, but the sender, once its loop is done. */
  lemma {:induction false} LineReachesAll(worlds: seq<World>, actions: seq<Action>, i: nat, j: nat, u: Sid, r: string)
    requires Run(worlds, actions) && i < j < |worlds|
    requires actions[i] == BeginLine(u, r) && !worlds[i].tables.stopped
             && r in worlds[i].tables.rooms && u in worlds[i].lines
    ensures LineTowards(worlds[j], u, |worlds[i].lines[u]|, worlds[i].tables.rooms[r] - {u})
    decreases j
  {
    if j == i + 1 {
      assert worlds[j] == Apply(worlds[i], actions[i]);
    } else {
      LineReachesAll(worlds, actions, i, j - 1, u, r);
      RunInv(worlds, actions, j - 1);
      LineStep(worlds[j - 1], actions[j - 1], u, |worlds[i].lines[u]|, worlds[i].tables.rooms[r] - {u});
    }
  }

  /**
   Two lines of one sender, handled while `t` was a participant of the rooms they went to. On the way to
   `t` the lines of the sender come in the order they were handled and each at most once, whatever is
   lost; to an intact `t` both get on their way once the loops reached it; and none is ever on its way to
   the sender. The loops over the recipients of other senders may interleave in any way, and sessions may
   enter and leave rooms meanwhile.
   */
  lemma PerSenderRoomOrder(worlds: seq<World>, actions: seq<Action>, i1: nat, i2: nat, j: nat, u: Sid, t: Sid,
                           r1: string, r2: string)
    requires Run(worlds, actions) && i1 < i2 < j < |worlds|
    requires actions[i1] == BeginLine(u, r1) && actions[i2] == BeginLine(u, r2)
    requires !worlds[i2].tables.stopped && u in worlds[i1].lines && u in worlds[i2].lines
    requires r1 in worlds[i1].tables.rooms && t in worlds[i1].tables.rooms[r1]
    requires r2 in worlds[i2].tables.rooms && t in worlds[i2].tables.rooms[r2]
    requires t != u
    ensures var w := worlds[j];
            t in w.all && u in w.all && u in w.pending
    ensures var w := worlds[j];
            var ns := Proj(Room(u), Pipe(w.all[t]));
            var k1, k2 := |worlds[i1].lines[u]|, |worlds[i2].lines[u]|;
            && k1 < k2 && Increasing(ns)
            && (Intact(w.all[t]) && t !in w.pending[u] ==> k1 in ns && k2 in ns)
    ensures forall k :: k !in Proj(Room(u), Pipe(worlds[j].all[u]))
  {
    StoppedStays(worlds, actions, i1, i2);
    LineReachesAll(worlds, actions, i1, i2, u, r1);
    LineReachesAll(worlds, actions, i1, j, u, r1);
    LineReachesAll(worlds, actions, i2, j, u, r2);
    RunInv(worlds, actions, j);
    var members1, members2 := worlds[i1].tables.rooms[r1], worlds[i2].tables.rooms[r2];
    assert LineTowards(worlds[i2], u, |worlds[i1].lines[u]|, members1 - {u});
    BothLinesOnTheWay(worlds[j], u, t, |worlds[i1].lines[u]|, |worlds[i2].lines[u]|, members1, members2);
  }

  lemma BothLinesOnTheWay(w: World, u: Sid, t: Sid, k1: nat, k2: nat, members1: set<Sid>, members2: set<Sid>)
    requires Inv(w)
    requires LineTowards(w, u, k1, members1 - {u}) && LineTowards(w, u, k2, members2 - {u})
    requires t in members1 && t in members2 && t != u
    ensures t in w.all && u in w.all && u in w.pending
    ensures var ns := Proj(Room(u), Pipe(w.all[t]));
            Increasing(ns) && (Intact(w.all[t]) && t !in w.pending[u] ==> k1 in ns && k2 in ns)
    ensures forall k :: k !in Proj(Room(u), Pipe(w.all[u]))
  {
    assert t in members1 - {u} && LineOk(w.lines[u], w.pending[u], u, w.all.Keys);
    RoomLinesOnTheWay(w, u, t);
    if Intact(w.all[t]) && t !in w.pending[u] {
      InLine(w, u, t, k1, members1);
      InLine(w, u, t, k2, members2);
    }
    NoneToTheSender(w, u);
  }

  lemma InLine(w: World, u: Sid, t: Sid, k: nat, members: set<Sid>)
    requires LineTowards(w, u, k, members - {u}) && t in members && t != u && t !in w.pending[u]
    ensures t in w.lines[u][k]
  {
    assert t in members - {u};
  }

  lemma RoomLinesOnTheWay(w: World, u: Sid, t: Sid)
    requires Inv(w) && t in w.all && u in w.lines
    ensures Increasing(Proj(Room(u), Pipe(w.all[t])))
    ensures Intact(w.all[t]) ==>
              forall k: nat :: k in Proj(Room(u), Pipe(w.all[t])) <==> k < |w.lines[u]| && t in w.lines[u][k]
  {
    assert SessionOk(w, t, w.all[t]);
    assert ChannelOk(Proj(Room(u), Pipe(w.all[t])), History(w, Room(u)), t, w.all[t].lossy);
    ExpectedMembers(w.lines[u], t, |w.lines[u]|);
  }

  lemma NobodyReached(ns: seq<nat>, h: seq<set<Sid>>, s: Sid)
    requires forall n :: n in ns ==> n < |h| && s in h[n]
    requires forall n :: 0 <= n < |h| ==> s !in h[n]
    ensures forall n :: n !in ns
  {
  }

  lemma NoneToTheSender(w: World, u: Sid)
    requires Inv(w) && u in w.all
    ensures forall k :: k !in Proj(Room(u), Pipe(w.all[u]))
  {
    assert SessionOk(w, u, w.all[u]);
    assert LineOk(w.lines[u], w.pending[u], u, w.all.Keys);
    assert ChannelOk(Proj(Room(u), Pipe(w.all[u])), History(w, Room(u)), u, w.all[u].lossy);
    NobodyReached(Proj(Room(u), Pipe(w.all[u])), w.lines[u], u);
  }

  // ----- stop of a session -----

  /** Nothing but what was outstanding at `x` gets out after a stop. */
  ghost predicate OnlySpends(x: Session, y: Session) {
    x.pump.Tcp? && x.pump.tcp.stopped ==>
      && y.pump.Tcp? && y.pump.tcp.stopped
      && y.written + Outstanding(y.pump) <= x.written + Outstanding(x.pump)
  }

  lemma StepSpends(x: Session, step: SessionStep)
    requires Sound(x) && MayStep(x, step)
    ensures OnlySpends(x, StepSession(x, step))
  {
  }

  lemma SessionSpends(w: World, a: Action, s: Sid)
    requires Sessions(w) && Possible(w, a) && s in w.all
    ensures s in Apply(w, a).all && OnlySpends(w.all[s], Apply(w, a).all[s])
  {
    if a.RunServer? {
      TaskSpends(w.(serverBox := w.serverBox[1..]), w.serverBox[0], s);
    } else if a.AtSession? && a.s == s {
      assert SessionOk(w, s, w.all[s]);
      StepSpends(w.all[s], a.does);
    }
  }

  /** The server's strand only posts tasks to the strands of sessions. */
  lemma TaskSpends(w: World, t: ServerTask, s: Sid)
    requires TaskKnown(w.tables.fields.Keys, t) && s in w.all
    ensures s in RunServerTask(w, t).all
    ensures RunServerTask(w, t).all[s].pump == w.all[s].pump && RunServerTask(w, t).all[s].written == w.all[s].written
  {
  }

  /** In every run, what a stopped TCP session has written is at most what was written or outstanding
      at any time since the stop. */
  lemma {:induction false} StoppedOnlySpends(worlds: seq<World>, actions: seq<Action>, i: nat, j: nat, s: Sid)
    requires Run(worlds, actions) && i <= j < |worlds|
    requires s in worlds[i].all && worlds[i].all[s].pump.Tcp? && worlds[i].all[s].pump.tcp.stopped
    ensures s in worlds[j].all && OnlySpends(worlds[i].all[s], worlds[j].all[s])
    decreases j
  {
    if i < j {
      StoppedOnlySpends(worlds, actions, i, j - 1, s);
      RunInv(worlds, actions, j - 1);
      SessionSpends(worlds[j - 1], actions[j - 1], s);
    }
  }

  /**
   The farewell of `/quit` never reaches the client: in every later world only what was written or
   outstanding before the `/quit` has been written.
   */
  lemma FarewellNeverSent(worlds: seq<World>, actions: seq<Action>, i: nat, j: nat, s: Sid)
    requires Run(worlds, actions) && i < j < |worlds|
    requires actions[i] == AtSession(s, Quit) && s in worlds[i].all && worlds[i].all[s].pump.Tcp?
    ensures s in worlds[j].all
    ensures worlds[j].all[s].written <= worlds[i].all[s].written + Outstanding(worlds[i].all[s].pump)
    ensures Plain(Framing.FAREWELL) !in worlds[i].all[s].written + Outstanding(worlds[i].all[s].pump) ==>
              Plain(Framing.FAREWELL) !in worlds[j].all[s].written
  {
    StoppedOnlySpends(worlds, actions, i + 1, j, s);
    var before := worlds[i].all[s].written + Outstanding(worlds[i].all[s].pump);
    assert worlds[j].all[s].written <= before;
    assert forall m :: m in worlds[j].all[s].written ==> m in before;
  }

  // ----- stop of the server -----

  lemma {:induction false} StoppedStays(worlds: seq<World>, actions: seq<Action>, i: nat, j: nat)
    requires Run(worlds, actions) && i <= j < |worlds|
    ensures worlds[i].tables.stopped ==> worlds[j].tables.stopped
    decreases j
  {
    if i < j {
      StoppedStays(worlds, actions, i, j - 1);
      RunInv(worlds, actions, j - 1);
      TablesFollow(worlds[j - 1], actions[j - 1]);
    }
  }

  lemma DoneStays(w: World, a: Action)
    requires StopOnce(w) && w.clearing.Done? && Possible(w, a)
    ensures Apply(w, a).clearing.Done? && Apply(w, a).atClear == w.atClear
  {
    if a.RunServer? {
      assert Clears(w.serverBox) == 0;
    }
  }

  lemma {:induction false} DoneForever(worlds: seq<World>, actions: seq<Action>, i: nat, j: nat)
    requires Run(worlds, actions) && i <= j < |worlds|
    requires worlds[i].clearing.Done?
    ensures worlds[j].clearing.Done? && worlds[j].atClear == worlds[i].atClear
    decreases j
  {
    if i < j {
      DoneForever(worlds, actions, i, j - 1);
      RunInv(worlds, actions, j - 1);
      DoneStays(worlds[j - 1], actions[j - 1]);
    }
  }

  /**
   Once the clearing task has run, the server has no sessions in any later world, whatever tasks were
   dispatched before, and exactly the sessions present at the clear were told to stop, once each.
   */
  lemma StopIsAbsorbing(worlds: seq<World>, actions: seq<Action>, i: nat, j: nat)
    requires Run(worlds, actions) && i <= j < |worlds|
    requires worlds[i].clearing.Done?
    ensures worlds[j].tables.sessions == {} && worlds[j].tables.rooms == map[]
    ensures forall s :: s in worlds[j].all ==> worlds[j].all[s].told == if s in worlds[i].atClear then 1 else 0
  {
    DoneForever(worlds, actions, i, j);
    RunInv(worlds, actions, j);
  }
}
