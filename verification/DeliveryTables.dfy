/**
 The server's tables inside the delivery machine: what holds in every interleaving when each handler finds
 the tables as its caller left them, and a run in which one does not.
 */
module DeliveryTables {
  import opened Delivery
  import opened DeliveryRuns
  import Departures
  import Nicknames
  import Registry
  import Rooms
  import TcpPump

  // ----- with guards at the time the handlers run -----

  /** Whatever an action does to the tables is, at that moment, a leave of the session's current room. */
  ghost predicate LeavesOwnRoom(w: World, a: Action) {
    StepOfTables(w, a).Some? ==> Registry.LeavesOwnRoom(w.tables, StepOfTables(w, a).value)
  }

  /** It keeps the keys of the nickname index with their owners. */
  ghost predicate KeepsNames(w: World, a: Action) {
    StepOfTables(w, a).Some? ==> Nicknames.KeepsNames(w.tables, StepOfTables(w, a).value)
  }

  /** It is by a session that minds the names. */
  ghost predicate MindsNames(w: World, a: Action) {
    StepOfTables(w, a).Some? ==> Registry.MindsNames(w.tables, StepOfTables(w, a).value)
  }

  /** In every interleaving in which sessions leave only the room that is current when the leave is handled. */
  lemma {:induction false} OneRoomInEveryWorld(worlds: seq<World>, actions: seq<Action>, i: nat)
    requires Run(worlds, actions) && i < |worlds|
    requires forall k :: 0 <= k < i ==> LeavesOwnRoom(worlds[k], actions[k])
    ensures Rooms.OneRoom(worlds[i].tables)
  {
    if i > 0 {
      OneRoomInEveryWorld(worlds, actions, i - 1);
      RunInv(worlds, actions, i - 1);
      var w, a := worlds[i - 1], actions[i - 1];
      TablesFollow(w, a);
      if StepOfTables(w, a).Some? {
        Rooms.StepOneRoom(w.tables, StepOfTables(w, a).value);
      }
    }
  }

  lemma NamesAt(worlds: seq<World>, actions: seq<Action>, i: nat)
    requires Run(worlds, actions) && i < |actions| && Nicknames.NamesOwned(worlds[i].tables)
    ensures Nicknames.NamesOwned(worlds[i + 1].tables) <==> KeepsNames(worlds[i], actions[i])
  {
    RunInv(worlds, actions, i);
    StepKeepsExactly(worlds[i], actions[i]);
  }

  lemma {:induction false} KeptNamesAreOwned(worlds: seq<World>, actions: seq<Action>, i: nat)
    requires Run(worlds, actions) && i < |worlds|
    requires forall k :: 0 <= k < i ==> KeepsNames(worlds[k], actions[k])
    ensures Nicknames.NamesOwned(worlds[i].tables)
  {
    if i == 0 {
      Nicknames.StartOwned<Sid>();
    } else {
      KeptNamesAreOwned(worlds, actions, i - 1);
      NamesAt(worlds, actions, i - 1);
    }
  }

  /** In every interleaving the keys are with their owners in all worlds so far exactly when all actions keep them. */
  lemma NamesOwnedExactly(worlds: seq<World>, actions: seq<Action>, i: nat)
    requires Run(worlds, actions) && i < |worlds|
    ensures (forall k :: 0 <= k <= i ==> Nicknames.NamesOwned(worlds[k].tables))
            <==> forall k :: 0 <= k < i ==> KeepsNames(worlds[k], actions[k])
  {
    if forall k :: 0 <= k < i ==> KeepsNames(worlds[k], actions[k]) {
      forall k | 0 <= k <= i ensures Nicknames.NamesOwned(worlds[k].tables) {
        KeptNamesAreOwned(worlds, actions, k);
      }
    } else {
      var k :| 0 <= k < i && !KeepsNames(worlds[k], actions[k]);
      if Nicknames.NamesOwned(worlds[k].tables) {
        NamesAt(worlds, actions, k);
      }
    }
  }

  lemma StepKeepsExactly(w: World, a: Action)
    requires Inv(w) && Possible(w, a) && Nicknames.NamesOwned(w.tables)
    ensures Nicknames.NamesOwned(Apply(w, a).tables) <==> KeepsNames(w, a)
  {
    TablesFollow(w, a);
    if StepOfTables(w, a).Some? {
      Nicknames.StepKeepsExactly(w.tables, StepOfTables(w, a).value);
    }
  }

  /** In every interleaving in which sessions mind the names when their requests are handled. */
  lemma {:induction false} NicknamesInEveryWorld(worlds: seq<World>, actions: seq<Action>, i: nat)
    requires Run(worlds, actions) && i < |worlds|
    requires forall k :: 0 <= k < i ==> MindsNames(worlds[k], actions[k])
    ensures Nicknames.NamesOwned(worlds[i].tables)
    ensures forall k :: 0 <= k < i ==> KeepsNames(worlds[k], actions[k])
  {
    if i == 0 {
      Nicknames.StartOwned<Sid>();
    } else {
      NicknamesInEveryWorld(worlds, actions, i - 1);
      RunInv(worlds, actions, i - 1);
      MindingKeeps(worlds[i - 1], actions[i - 1]);
    }
  }

  lemma MindingKeeps(w: World, a: Action)
    requires Inv(w) && Possible(w, a) && Nicknames.NamesOwned(w.tables) && MindsNames(w, a)
    ensures KeepsNames(w, a) && Nicknames.NamesOwned(Apply(w, a).tables)
  {
    TablesFollow(w, a);
    if StepOfTables(w, a).Some? {
      Nicknames.MindingKeepsNames(w.tables, StepOfTables(w, a).value);
    }
    StepKeepsExactly(w, a);
  }

  /**
   Both together: the handler of the disconnect of a connected session, called under the nickname it still
   has, leaves no trace of it and everything of other sessions alone.
   */
  lemma DisconnectInEveryWorld(worlds: seq<World>, actions: seq<Action>, i: nat, s: Sid)
    requires Run(worlds, actions) && i < |actions|
    requires forall k :: 0 <= k < i ==> LeavesOwnRoom(worlds[k], actions[k]) && KeepsNames(worlds[k], actions[k])
    requires !worlds[i].tables.stopped && s in worlds[i].tables.sessions && s in worlds[i].tables.fields
    requires actions[i] == RunServer && worlds[i].serverBox != []
    requires worlds[i].serverBox[0] == LeaveTask(s, worlds[i].tables.fields[s].nick)
    ensures Nicknames.NoTrace(worlds[i + 1].tables, s)
    ensures Departures.OthersUntouched(worlds[i].tables, worlds[i + 1].tables, s)
  {
    OneRoomInEveryWorld(worlds, actions, i);
    KeptNamesAreOwned(worlds, actions, i);
    RunInv(worlds, actions, i);
    DisconnectHandled(worlds[i], s);
  }

  lemma DisconnectHandled(w: World, s: Sid)
    requires Inv(w) && Possible(w, RunServer) && Rooms.OneRoom(w.tables) && Nicknames.NamesOwned(w.tables)
    requires !w.tables.stopped && s in w.tables.sessions && s in w.tables.fields
    requires w.serverBox[0] == LeaveTask(s, w.tables.fields[s].nick)
    ensures var tables := Apply(w, RunServer).tables;
            Nicknames.NoTrace(tables, s) && Departures.OthersUntouched(w.tables, tables, s)
  {
    TablesFollow(w, RunServer);
    Departures.DisconnectLeavesNoTrace(w.tables, s);
  }

  // ----- a check at dispatch is not a check in the handler -----

  function Fresh(): Session { Session([], Tcp(TcpPump.Idle()), [], false, false, 0) }

  /** A world of two sessions with nothing on any strand. */
  function Quiet(tables: Registry.State<Sid>): World {
    World(tables, Never, [], map[0 := Fresh(), 1 := Fresh()], map[0 := 0, 1 := 0], [], [],
          map[0 := [], 1 := []], map[0 := {}, 1 := {}], {})
  }

  function Both(room0: string, room1: string): Registry.State<Sid> { Registry.Pair("x:1", room0, "y:1", room1) }

  lemma TwoConnect() returns (actions: seq<Action>)
    ensures RunTo(actions, Quiet(Both("", "")))
  {
    RunStart();
    var t0 := Registry.Start<Sid>();
    var t1 := t0.(fields := map[0 := Registry.Fields("x:1", "x:1", "")]);
    var t2 := t1.(fields := t1.fields[1 := Registry.Fields("y:1", "y:1", "")]);
    var one := Start().(tables := t1, all := map[0 := Fresh()], lines := map[0 := []], pending := map[0 := {}]);
    var two := Quiet(t2).(joinedAt := map[]);
    actions := Perform([], Start(), Create(0, "x:1", true), one);
    actions := Perform(actions, one, Create(1, "y:1", true), two);
    actions := Joins(actions, two, 0);
    actions := Joins(actions, JoinServer(two, 0), 1);
    assert JoinServer(JoinServer(two, 0), 1) == Quiet(Both("", ""));
  }

  /** A session under its default name joins while the server's strand is idle. */
  lemma Joins(actions: seq<Action>, w: World, s: Sid) returns (more: seq<Action>)
    requires RunTo(actions, w) && w.serverBox == [] && s in w.all && s in w.tables.fields && !w.tables.stopped
    requires w.tables.fields[s].nick == w.tables.fields[s].remote
    ensures RunTo(more, JoinServer(w, s))
  {
    var called := w.(serverBox := [JoinTask(s)]);
    more := Perform(actions, w, CallJoin(s), called);
    assert called.serverBox[1..] == [] && called.(serverBox := []) == w;
    more := Perform(more, called, RunServer, JoinServer(w, s));
  }

  /** A request that passes its check and is handled while the server's strand is idle. */
  lemma Served(actions: seq<Action>, w: World, step: Registry.Action<Sid>) returns (more: seq<Action>)
    requires RunTo(actions, w) && w.serverBox == [] && !w.tables.stopped
    requires PassesChecks(w.tables, step)
    ensures RunTo(more, w.(tables := Registry.Apply(w.tables, step)))
  {
    var called := w.(serverBox := [TableTask(step)]);
    more := Perform(actions, w, CallTables(step), called);
    assert called.serverBox[1..] == [] && called.(serverBox := []) == w;
    more := Perform(more, called, RunServer, w.(tables := Registry.Apply(w.tables, step)));
  }

  /** Two requests that both pass their checks before the first is handled. */
  lemma Queued(actions: seq<Action>, w: World, first: Registry.Action<Sid>, second: Registry.Action<Sid>)
    returns (more: seq<Action>, between: World)
    requires RunTo(actions, w) && w.serverBox == [] && !w.tables.stopped
    requires PassesChecks(w.tables, first) && PassesChecks(w.tables, second)
    ensures more == actions + [CallTables(first)] + [CallTables(second)] + [RunServer]
    ensures between == w.(tables := Registry.Apply(w.tables, first), serverBox := [TableTask(second)])
    ensures RunTo(more, between)
  {
    var one, two := w.(serverBox := [TableTask(first)]), w.(serverBox := [TableTask(first), TableTask(second)]);
    more := Perform(actions, w, CallTables(first), one);
    more := Perform(more, one, CallTables(second), two);
    between := w.(tables := Registry.Apply(w.tables, first), serverBox := [TableTask(second)]);
    assert two.serverBox[1..] == [TableTask(second)];
    more := Perform(more, two, RunServer, between);
  }

  /** Both sessions in one room. */
  function Shared(): Registry.State<Sid> { Both("a", "a").(rooms := map["a" := {0, 1}]) }

  /** One of them has moved to another. */
  function Moved(): Registry.State<Sid> { Both("b", "a").(rooms := map["a" := {1}, "b" := {0}]) }

  lemma FirstEnters()
    ensures Registry.Apply(Both("", ""), Registry.DoJoinRoom(0, "a")) == Both("a", "").(rooms := map["a" := {0}])
  {
  }

  lemma SecondEnters()
    ensures Registry.Apply(Both("a", "").(rooms := map["a" := {0}]), Registry.DoJoinRoom(1, "a")) == Shared()
  {
    assert {0} + {1} == {0, 1};
  }

  lemma FirstMoves()
    ensures Registry.Apply(Shared(), Registry.DoJoinRoom(0, "b")) == Moved()
  {
    FirstLeaves();
    Joined(Shared(), map["a" := {1}], 0, "b");
    assert {} + {0} == {0};
  }

  lemma FirstLeaves()
    ensures Registry.Without(map["a" := {0, 1}], "a", 0) == map["a" := {1}]
  {
    assert {0, 1} - {0} == {1};
  }

  lemma Joined(st: Registry.State<Sid>, left: map<string, set<Sid>>, s: Sid, r: string)
    requires s in st.fields && !st.stopped && st.fields[s].room != "" && st.fields[s].room != r
    requires left == Registry.Without(st.rooms, st.fields[s].room, s) && r !in left
    ensures Registry.Apply(st, Registry.DoJoinRoom(s, r))
            == st.(rooms := left[r := {} + {s}], fields := st.fields[s := st.fields[s].(room := r)])
  {
  }

  lemma TwoShareRoom() returns (actions: seq<Action>)
    ensures RunTo(actions, Quiet(Shared()))
  {
    actions := TwoConnect();
    var first := Both("a", "").(rooms := map["a" := {0}]);
    FirstEnters();
    SecondEnters();
    actions := Served(actions, Quiet(Both("", "")), Registry.DoJoinRoom(0, "a"));
    actions := Served(actions, Quiet(first), Registry.DoJoinRoom(1, "a"));
  }

  /** The leave of "a" is next, and "a" is not the current room any more. */
  function StaleLeave(): World { Quiet(Moved()).(serverBox := [TableTask(Registry.DoLeaveRoom(0, "a"))]) }

  lemma StaleLeaveForgets()
    ensures Rooms.OneRoom(Moved())
    ensures var after := Registry.Apply(Moved(), Registry.DoLeaveRoom(0, "a"));
            !Rooms.OneRoom(after) && "b" in after.rooms && 0 in after.rooms["b"] && after.fields[0].room == ""
  {
    Rooms.LeavingExactly(Moved(), 0, "a");
    assert 0 in Registry.Participants(Moved().rooms, "b");
  }

  lemma StaleLeaveRuns()
    ensures Possible(StaleLeave(), RunServer) && !LeavesOwnRoom(StaleLeave(), RunServer)
    ensures Apply(StaleLeave(), RunServer).tables == Registry.Apply(Moved(), Registry.DoLeaveRoom(0, "a"))
  {
  }

  lemma MoveThenStaleLeave(before: seq<Action>)
    requires RunTo(before, Quiet(Shared()))
    ensures RunTo(before + [CallTables(Registry.DoJoinRoom(0, "b"))] + [CallTables(Registry.DoLeaveRoom(0, "a"))]
                  + [RunServer], StaleLeave())
  {
    FirstMoves();
    var more, w := Queued(before, Quiet(Shared()), Registry.DoJoinRoom(0, "b"), Registry.DoLeaveRoom(0, "a"));
    assert w == StaleLeave();
  }

  /**
   The checked leave breaks one room per session as well. A session in "a" asks to join "b" and then to leave
   its room; the second request is checked before the first is handled, and when its own turn comes, "a" is no
   longer the current room. The session ends up in "b" without a current room.
   */
  lemma CheckedLeaveForgetsRoom() returns (before: seq<Action>)
    ensures RunTo(before, Quiet(Shared()))
    ensures RunTo(before + [CallTables(Registry.DoJoinRoom(0, "b"))] + [CallTables(Registry.DoLeaveRoom(0, "a"))]
                  + [RunServer], StaleLeave())
    ensures Possible(StaleLeave(), RunServer) && !LeavesOwnRoom(StaleLeave(), RunServer)
    ensures Rooms.OneRoom(StaleLeave().tables) && !Rooms.OneRoom(Apply(StaleLeave(), RunServer).tables)
  {
    before := TwoShareRoom();
    MoveThenStaleLeave(before);
    StaleLeaveForgets();
    StaleLeaveRuns();
  }
}
