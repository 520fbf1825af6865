/** Rooms and sessions: who is where in every reachable state, and exactly when a step breaks it. */
module Rooms {
  import opened Registry

  // ----- every room is inhabited and within its capacity -----

  ghost predicate RoomsHealthy<S>(rooms: map<string, set<S>>) {
    forall r :: r in rooms ==> rooms[r] != {} && |rooms[r]| <= MAX_PARTICIPANTS
  }

  lemma WithoutHealthy<S>(rooms: map<string, set<S>>, r: string, s: S)
    requires RoomsHealthy(rooms)
    ensures RoomsHealthy(Without(rooms, r, s))
  {
    if r in rooms {
      SubsetSize(rooms[r] - {s}, rooms[r]);
    }
  }

  lemma {:induction false} SubsetSize<S>(a: set<S>, b: set<S>)
    requires a <= b
    ensures |a| <= |b|
  {
    if a != {} {
      var x :| x in a;
      SubsetSize(a - {x}, b - {x});
    }
  }

  lemma JoinHealthy<S>(st: State<S>, s: S, r: string)
    requires RoomsHealthy(st.rooms) && s in st.fields
    ensures RoomsHealthy(JoinRoom(st, s, r).0.rooms)
  {
    WithoutHealthy(st.rooms, st.fields[s].room, s);
  }

  lemma StepHealthy<S>(st: State<S>, a: Action<S>)
    requires RoomsHealthy(st.rooms) && Possible(st, a)
    ensures RoomsHealthy(Apply(st, a).rooms)
  {
    match a
    case DoJoinRoom(s, r) => JoinHealthy(st, s, r);
    case DoLeaveRoom(s, r) => WithoutHealthy(st.rooms, r, s);
    case DoLeave(s, _) => WithoutHealthy(st.rooms, st.fields[s].room, s);
    case _ =>
  }

  /** In every run, whatever rooms are left and by whom, no room is empty or overfull. */
  lemma {:induction false} RoomTableHealth<S>(states: seq<State<S>>, actions: seq<Action<S>>, i: nat)
    requires Run(states, actions) && i < |states|
    ensures RoomsHealthy(states[i].rooms)
  {
    if i > 0 {
      RoomTableHealth(states, actions, i - 1);
      StepHealthy(states[i - 1], actions[i - 1]);
    }
  }

  // ----- who is where after a step -----

  /**
   Joining: the session is in the new room unless that was full, and out of its current room if that was another
   one, which is dropped when nobody is left; the new room becomes the current one; nobody else moves.
   */
  lemma WhoIsWhereAfterJoining<S>(st: State<S>, s: S, r: string)
    requires s in st.fields && !st.stopped
    ensures var (st', done) := JoinRoom(st, s, r);
            && done && r in st'.rooms && st' == st.(rooms := st'.rooms, fields := st'.fields)
            && st'.fields == st.fields[s := st.fields[s].(room := r)]
            && (forall t :: t in st'.rooms[r] <==>
                  (r in st.rooms && t in st.rooms[r]) || (t == s && (r in st.rooms ==> |st.rooms[r]| < 100)))
    ensures var st', left := JoinRoom(st, s, r).0, st.fields[s].room;
            && (forall q :: q != r ==>
                  (q in st'.rooms <==> q in st.rooms && !(q == left != "" && st.rooms[q] <= {s})))
            && (forall q :: q != r && q in st'.rooms ==>
                  st'.rooms[q] == if q == left != "" then st.rooms[q] - {s} else st.rooms[q])
  {
    JoinedRoom(st, s, r);
    OtherRooms(st, s, r);
  }

  lemma JoinedRoom<S>(st: State<S>, s: S, r: string)
    requires s in st.fields && !st.stopped
    ensures var st' := JoinRoom(st, s, r).0;
            r in st'.rooms && st'.rooms[r] == Entered(Participants(st.rooms, r), s)
  {
  }

  lemma OtherRooms<S>(st: State<S>, s: S, r: string)
    requires s in st.fields && !st.stopped
    ensures var st', left := JoinRoom(st, s, r).0, st.fields[s].room;
            && (forall q :: q != r ==>
                  (q in st'.rooms <==> q in st.rooms && !(q == left != "" && st.rooms[q] <= {s})))
            && (forall q :: q != r && q in st'.rooms ==>
                  st'.rooms[q] == if q == left != "" then st.rooms[q] - {s} else st.rooms[q])
  {
  }

  /**
   Leaving: an existing room loses the session, and is dropped when nobody is left; the session has no current
   room any more; nobody else moves. A stopped server, and one without the room, does nothing.
   */
  lemma WhoIsWhereAfterLeaving<S>(st: State<S>, s: S, r: string)
    requires s in st.fields
    ensures var (st', done) := LeaveRoom(st, s, r);
            && (done <==> !st.stopped && r in st.rooms)
            && (!done ==> st' == st)
            && (done ==>
                  && st' == st.(rooms := st'.rooms, fields := st.fields[s := st.fields[s].(room := "")])
                  && (forall q :: q in st'.rooms <==> q in st.rooms && !(q == r && st.rooms[q] <= {s}))
                  && (forall q :: q in st'.rooms ==>
                        st'.rooms[q] == if q == r then st.rooms[q] - {s} else st.rooms[q]))
  {
  }

  /** Disconnecting: the current room is left, the session is not listed, and its nickname is free. */
  lemma WhoIsWhereAfterDisconnecting<S>(st: State<S>, s: S, nick: string)
    requires s in st.fields && !st.stopped
    ensures var st', left := Leave(st, s, nick), st.fields[s].room;
            && st'.sessions == st.sessions - {s} && !st'.stopped && st'.expired == st.expired
            && (forall k :: k in st'.nicknames <==>
                  k in st.nicknames && !(k == nick && nick != st.fields[s].remote && nick != ""))
            && (forall k :: k in st'.nicknames ==> st'.nicknames[k] == st.nicknames[k])
            && (forall q :: q in st'.rooms <==> q in st.rooms && !(q == left != "" && st.rooms[q] <= {s}))
            && (forall q :: q in st'.rooms ==>
                  st'.rooms[q] == if q == left != "" then st.rooms[q] - {s} else st.rooms[q])
            && st'.fields == if left in st.rooms && left != "" then st.fields[s := st.fields[s].(room := "")]
                             else st.fields
  {
  }

  lemma RoomNamesStep<S>(st: State<S>, a: Action<S>)
    requires Possible(st, a)
    ensures forall r :: r in Apply(st, a).rooms ==> r in st.rooms || ValidRoom(r)
  {
  }

  /** In every run, every room has a name of at most 30 characters and without a space. */
  lemma {:induction false} RoomNamesAreValid<S>(states: seq<State<S>>, actions: seq<Action<S>>, i: nat, r: string)
    requires Run(states, actions) && i < |states| && r in states[i].rooms
    ensures 0 < |r| <= 30
    ensures forall c :: c in r ==> c !in {' ', '\t', '\n', '\r', '\U{0B}', '\U{0C}'}
  {
    if i > 0 {
      RoomNamesStep(states[i - 1], actions[i - 1]);
      if r in states[i - 1].rooms {
        RoomNamesAreValid(states, actions, i - 1, r);
      } else {
        assert ValidRoom(r);
      }
    }
  }

  // ----- one room for each session -----

  /** A participant of a room has that room as its current room. */
  ghost predicate OneRoom<S>(st: State<S>) {
    && "" !in st.rooms
    && forall r, s :: r in st.rooms && s in st.rooms[r] ==> s in st.fields && st.fields[s].room == r
  }

  ghost predicate DisjointRooms<S>(rooms: map<string, set<S>>) {
    forall r, r' :: r in rooms && r' in rooms && r != r' ==> rooms[r] !! rooms[r']
  }

  lemma OneRoomDisjoint<S>(st: State<S>)
    requires OneRoom(st)
    ensures DisjointRooms(st.rooms)
  {
    forall r, r' | r in st.rooms && r' in st.rooms && r != r' ensures st.rooms[r] !! st.rooms[r'] {
      forall s | s in st.rooms[r] ensures s !in st.rooms[r'] {
        assert st.fields[s].room == r;
      }
    }
  }

  lemma WithoutMembers<S>(rooms: map<string, set<S>>, r: string, s: S)
    ensures forall r' :: Participants(Without(rooms, r, s), r')
              == if r' == r then Participants(rooms, r) - {s} else Participants(rooms, r')
    ensures forall r' :: r' in Without(rooms, r, s) ==> r' in rooms
  {
  }

  lemma JoinOneRoom<S>(st: State<S>, s: S, r: string)
    requires OneRoom(st) && s in st.fields && r != ""
    ensures OneRoom(JoinRoom(st, s, r).0)
  {
    var st' := JoinRoom(st, s, r).0;
    WithoutMembers(st.rooms, st.fields[s].room, s);
    forall r', t | r' in st'.rooms && t in st'.rooms[r'] ensures t in st'.fields && st'.fields[t].room == r' {
      if !st.stopped && t != s {
        assert t in Participants(st.rooms, r');
      }
    }
  }

  lemma LeaveOneRoom<S>(st: State<S>, s: S, r: string)
    requires OneRoom(st) && s in st.fields && st.fields[s].room == r
    ensures OneRoom(LeaveRoom(st, s, r).0)
  {
    var st' := LeaveRoom(st, s, r).0;
    WithoutMembers(st.rooms, r, s);
    forall r', t | r' in st'.rooms && t in st'.rooms[r'] ensures t in st'.fields && st'.fields[t].room == r' {
      assert t in Participants(st.rooms, r');
    }
  }

  lemma StepOneRoom<S>(st: State<S>, a: Action<S>)
    requires OneRoom(st) && Possible(st, a) && LeavesOwnRoom(st, a)
    ensures OneRoom(Apply(st, a))
  {
    match a
    case DoJoinRoom(s, r) => JoinOneRoom(st, s, r);
    case DoLeaveRoom(s, r) => LeaveOneRoom(st, s, r);
    case DoLeave(s, _) => LeaveOneRoom(st, s, st.fields[s].room);
    case _ =>
  }

  /** When sessions leave only their current room, no session is ever in two rooms, even if joins hit full rooms. */
  lemma {:induction false} OneRoomPerSession<S>(states: seq<State<S>>, actions: seq<Action<S>>, i: nat)
    requires Run(states, actions) && i < |states|
    requires forall j :: 0 <= j < i ==> LeavesOwnRoom(states[j], actions[j])
    ensures OneRoom(states[i]) && DisjointRooms(states[i].rooms)
  {
    if i > 0 {
      OneRoomPerSession(states, actions, i - 1);
      StepOneRoom(states[i - 1], actions[i - 1]);
    }
    OneRoomDisjoint(states[i]);
  }

  /**
   Leaving a room keeps one room for each session exactly when it does nothing, or is the current
   room, or the session is in no room that is its current one.
   */
  lemma LeavingExactly<S>(st: State<S>, s: S, r: string)
    requires OneRoom(st) && s in st.fields
    ensures OneRoom(LeaveRoom(st, s, r).0)
            <==> st.stopped || r !in st.rooms || st.fields[s].room == r
                 || s !in Participants(st.rooms, st.fields[s].room)
  {
    var current, st' := st.fields[s].room, LeaveRoom(st, s, r).0;
    WithoutMembers(st.rooms, r, s);
    if st.stopped || r !in st.rooms {
    } else if current == r {
      LeaveOneRoom(st, s, r);
    } else if s in Participants(st.rooms, current) {
      assert s in Participants(st'.rooms, current);
      assert st'.fields[s].room == "";
    } else {
      forall r', t | r' in st'.rooms && t in st'.rooms[r'] ensures t in st'.fields && st'.fields[t].room == r' {
        assert t in Participants(st.rooms, r');
      }
    }
  }

  // ----- membership is conserved -----

  /** A session's current room and its membership say the same. */
  ghost predicate Membership<S>(st: State<S>) {
    && OneRoom(st)
    && forall s :: s in st.fields && st.fields[s].room != "" ==> s in Participants(st.rooms, st.fields[s].room)
  }

  lemma JoinMembership<S>(st: State<S>, s: S, r: string)
    requires Membership(st) && s in st.fields && r != ""
    requires s in Participants(st.rooms, r) || |Participants(st.rooms, r)| < MAX_PARTICIPANTS
    ensures Membership(JoinRoom(st, s, r).0)
  {
    var st' := JoinRoom(st, s, r).0;
    JoinOneRoom(st, s, r);
    WithoutMembers(st.rooms, st.fields[s].room, s);
    forall t | t in st'.fields && st'.fields[t].room != "" ensures t in Participants(st'.rooms, st'.fields[t].room) {
      if t != s {
        assert t in Participants(st.rooms, st.fields[t].room);
      }
    }
  }

  lemma LeaveMembership<S>(st: State<S>, s: S, r: string)
    requires Membership(st) && s in st.fields && st.fields[s].room == r
    ensures Membership(LeaveRoom(st, s, r).0)
  {
    var st' := LeaveRoom(st, s, r).0;
    LeaveOneRoom(st, s, r);
    WithoutMembers(st.rooms, r, s);
    forall t | t in st'.fields && st'.fields[t].room != "" ensures t in Participants(st'.rooms, st'.fields[t].room) {
      assert t in Participants(st.rooms, st.fields[t].room);
    }
  }

  lemma StepMembership<S>(st: State<S>, a: Action<S>)
    requires Membership(st) && Possible(st, a) && LeavesOwnRoom(st, a)
             && JoinsWithSpace(st, a) && ClearsIdleRooms(st, a)
    ensures Membership(Apply(st, a))
  {
    match a
    case DoJoinRoom(s, r) => JoinMembership(st, s, r);
    case DoLeaveRoom(s, r) => LeaveMembership(st, s, r);
    case DoLeave(s, _) => LeaveMembership(st, s, st.fields[s].room);
    case DoClear =>
    case _ => SameRooms(st, a);
  }

  lemma SameRooms<S>(st: State<S>, a: Action<S>)
    requires Membership(st) && Possible(st, a)
    requires !a.DoJoinRoom? && !a.DoLeaveRoom? && !a.DoLeave? && !a.DoClear?
    ensures Membership(Apply(st, a))
  {
    var st' := Apply(st, a);
    assert st'.rooms == st.rooms;
    assert forall s :: s in st.fields ==> s in st'.fields && st'.fields[s].room == st.fields[s].room;
    assert forall s :: s in st'.fields && s !in st.fields ==> st'.fields[s].room == "";
  }

  /** A join keeps membership exactly when it does nothing, the session is in already, or there is space. */
  lemma JoiningExactly<S>(st: State<S>, s: S, r: string)
    requires Membership(st) && s in st.fields && r != ""
    ensures Membership(JoinRoom(st, s, r).0)
            <==> st.stopped || s in Participants(st.rooms, r) || |Participants(st.rooms, r)| < MAX_PARTICIPANTS
  {
    if s in Participants(st.rooms, r) || |Participants(st.rooms, r)| < MAX_PARTICIPANTS {
      JoinMembership(st, s, r);
    } else if !st.stopped {
      WithoutMembers(st.rooms, st.fields[s].room, s);
      var st' := JoinRoom(st, s, r).0;
      assert st'.fields[s].room == r && s !in Participants(st'.rooms, r);
    }
  }

  /** Clearing the tables keeps membership exactly when no session has a current room. */
  lemma ClearingExactly<S>(st: State<S>)
    requires Membership(st)
    ensures Membership(Clear(st)) <==> forall s :: s in st.fields ==> st.fields[s].room == ""
  {
    if s :| s in st.fields && st.fields[s].room != "" {
      assert s in Clear(st).fields && s !in Participants(Clear(st).rooms, st.fields[s].room);
    }
  }

  /** The participants of all rooms, counted room by room. */
  ghost function Total<S>(rooms: map<string, set<S>>): nat
    decreases |rooms|
  {
    if rooms == map[] then 0
    else
      var r :| r in rooms;
      assert |rooms - {r}| < |rooms| by {
        assert rooms == (rooms - {r})[r := rooms[r]];
      }
      |rooms[r]| + Total(rooms - {r})
  }

  ghost function Everybody<S>(rooms: map<string, set<S>>): set<S> {
    set r, s | r in rooms && s in rooms[r] :: s
  }

  lemma EverybodyBut<S>(rooms: map<string, set<S>>, r: string)
    requires DisjointRooms(rooms) && r in rooms
    ensures DisjointRooms(rooms - {r}) && |rooms - {r}| < |rooms|
    ensures |Everybody(rooms)| == |rooms[r]| + |Everybody(rooms - {r})|
  {
    var rest := rooms - {r};
    assert rooms == rest[r := rooms[r]];
    forall s | s in Everybody(rest) ensures s !in rooms[r] {
      var r' :| r' in rest && s in rest[r'];
    }
    assert Everybody(rooms) == rooms[r] + Everybody(rest);
  }

  lemma {:induction false} TotalCountsEverybody<S>(rooms: map<string, set<S>>)
    requires DisjointRooms(rooms)
    ensures Total(rooms) == |Everybody(rooms)|
    decreases |rooms|
  {
    if rooms == map[] {
      assert Everybody(rooms) == {};
    } else {
      var r :| r in rooms && Total(rooms) == |rooms[r]| + Total(rooms - {r});
      EverybodyBut(rooms, r);
      TotalCountsEverybody(rooms - {r});
    }
  }

  /** What agreement of rooms and current rooms amounts to, room by room and in count. */
  ghost predicate Agrees<S>(st: State<S>) {
    var housed := set s | s in st.fields && st.fields[s].room != "";
    && (forall s, r :: s in st.fields && r != "" ==> (st.fields[s].room == r <==> s in Participants(st.rooms, r)))
    && st.rooms.Keys == (set s | s in st.fields && st.fields[s].room != "" :: st.fields[s].room)
    && Total(st.rooms) == |housed|
  }

  lemma RoomsAreCurrent<S>(st: State<S>)
    requires Membership(st) && RoomsHealthy(st.rooms)
    ensures st.rooms.Keys == set s | s in st.fields && st.fields[s].room != "" :: st.fields[s].room
  {
    forall r | r in st.rooms ensures exists s :: s in st.fields && st.fields[s].room == r && r != "" {
      var s :| s in st.rooms[r];
      assert st.fields[s].room == r;
    }
  }

  lemma EverybodyIsHoused<S>(st: State<S>)
    requires Membership(st)
    ensures Everybody(st.rooms) == set s | s in st.fields && st.fields[s].room != ""
  {
    forall s | s in st.fields && st.fields[s].room != "" ensures s in Everybody(st.rooms) {
      assert s in Participants(st.rooms, st.fields[s].room);
    }
  }

  lemma MembershipAgrees<S>(st: State<S>)
    requires Membership(st) && RoomsHealthy(st.rooms)
    ensures Agrees(st)
  {
    RoomsAreCurrent(st);
    EverybodyIsHoused(st);
    OneRoomDisjoint(st);
    TotalCountsEverybody(st.rooms);
  }

  /**
   While sessions leave only their current room, none joins a full one and the tables are cleared only
   when nobody has a current room: membership and current room agree, the rooms are exactly the non-empty
   current rooms, and the participant counts add up to the number of sessions with a current room.
   */
  lemma {:induction false} MembershipConservation<S>(states: seq<State<S>>, actions: seq<Action<S>>, i: nat)
    requires Run(states, actions) && i < |states|
    requires forall j :: 0 <= j < i ==>
               LeavesOwnRoom(states[j], actions[j]) && JoinsWithSpace(states[j], actions[j])
               && ClearsIdleRooms(states[j], actions[j])
    ensures Membership(states[i]) && Agrees(states[i])
  {
    if i > 0 {
      MembershipConservation(states, actions, i - 1);
      StepMembership(states[i - 1], actions[i - 1]);
    }
    RoomTableHealth(states, actions, i);
    MembershipAgrees(states[i]);
  }

  // ----- where the conditions are needed -----

  predicate Below(n: nat, k: nat) { n < k }

  function Numbers(k: nat): set<nat> { set n: nat | n < k && Below(n, k) }

  lemma {:induction false} NumbersCount(k: nat)
    ensures |Numbers(k)| == k
  {
    if k > 0 {
      NumbersCount(k - 1);
      assert Numbers(k) == Numbers(k - 1) + {k - 1};
    }
  }

  /** A remote id of its own for each number. */
  function RemoteOf(n: nat): string { seq(n + 1, i => '1') }

  /** The tables after the first `n` sessions connected, joined the server and entered the same room. */
  function Crowd(n: nat): State<nat> {
    State(false, Numbers(n), map[], if n == 0 then map[] else map["full" := Numbers(n)],
          map k | k in Numbers(n) :: Fields(RemoteOf(k), RemoteOf(k), "full"), {})
  }

  /** The crowd and one more session, which joined the server but no room. */
  function CrowdAndOne(n: nat): State<nat> {
    var st := Crowd(n);
    st.(sessions := st.sessions + {n}, fields := st.fields[n := Fields(RemoteOf(n), RemoteOf(n), "")])
  }

  lemma OneMore(actions: seq<Action<nat>>, n: nat)
    requires RunTo(actions, Crowd(n))
    ensures RunTo(actions + [Create(n, RemoteOf(n))] + [DoJoin(n)], CrowdAndOne(n))
  {
    RunOn(actions, Crowd(n), Create(n, RemoteOf(n)));
    RunOn(actions + [Create(n, RemoteOf(n))], Apply(Crowd(n), Create(n, RemoteOf(n))), DoJoin(n));
  }

  lemma CrowdGrows(n: nat)
    requires n < MAX_PARTICIPANTS
    ensures Apply(CrowdAndOne(n), DoJoinRoom(n, "full")) == Crowd(n + 1)
  {
    assert Numbers(n + 1) == Numbers(n) + {n};
    CrowdRooms(n);
    assert Apply(CrowdAndOne(n), DoJoinRoom(n, "full")).fields == Crowd(n + 1).fields;
  }

  lemma CrowdRooms(n: nat)
    requires n < MAX_PARTICIPANTS
    ensures JoinRoom(CrowdAndOne(n), n, "full").0.rooms == Crowd(n + 1).rooms
  {
    NumbersCount(n);
    assert Numbers(n + 1) == Numbers(n) + {n};
  }

  lemma OneMoreInRoom(actions: seq<Action<nat>>, n: nat)
    requires RunTo(actions, CrowdAndOne(n)) && n < MAX_PARTICIPANTS
    ensures RunTo(actions + [DoJoinRoom(n, "full")], Crowd(n + 1))
  {
    CrowdGrows(n);
    assert Possible(CrowdAndOne(n), DoJoinRoom(n, "full"));
    RunOn(actions, CrowdAndOne(n), DoJoinRoom(n, "full"));
  }

  lemma NoCrowd()
    ensures RunTo([], Crowd(0))
  {
    RunStart<nat>();
    assert Numbers(0) == {};
    assert Crowd(0) == Start();
  }

  lemma {:induction false} CrowdGathers(n: nat) returns (actions: seq<Action<nat>>)
    requires n <= MAX_PARTICIPANTS
    ensures RunTo(actions, Crowd(n))
  {
    if n == 0 {
      NoCrowd();
      actions := [];
    } else {
      actions := CrowdGathers(n - 1);
      OneMore(actions, n - 1);
      actions := actions + [Create(n - 1, RemoteOf(n - 1))] + [DoJoin(n - 1)];
      OneMoreInRoom(actions, n - 1);
      actions := actions + [DoJoinRoom(n - 1, "full")];
    }
  }

  /**
   A run after which a join breaks membership: a hundred sessions enter a room, and the next one, which
   the room refuses, still gets it as its current room and is told that it succeeded.
   */
  lemma FullRoomSplitsMembership(n: nat) returns (actions: seq<Action<nat>>, st: State<nat>)
    requires n == MAX_PARTICIPANTS
    ensures RunTo(actions, st) && n in st.sessions && Possible(st, DoJoinRoom(n, "full"))
    ensures Membership(st) && JoinRoom(st, n, "full").1 && !Membership(Apply(st, DoJoinRoom(n, "full")))
  {
    actions := CrowdGathers(n);
    OneMore(actions, n);
    actions, st := actions + [Create(n, RemoteOf(n))] + [DoJoin(n)], CrowdAndOne(n);
    NumbersCount(n);
    CrowdInRoom(n);
    JoiningExactly(st, n, "full");
  }

  lemma CrowdInRoom(n: nat)
    requires n > 0
    ensures Membership(CrowdAndOne(n)) && Participants(CrowdAndOne(n).rooms, "full") == Numbers(n)
  {
  }

  /** Two sessions, each in a room of its own. */
  lemma TwoRooms() returns (actions: seq<Action<nat>>, st: State<nat>)
    ensures RunTo(actions, st) && st == Pair("x:1", "a", "y:1", "b").(rooms := map["a" := {0}, "b" := {1}])
  {
    actions := PairJoins("x:1", "y:1");
    st := Pair("x:1", "a", "y:1", "").(rooms := map["a" := {0}]);
    actions := OneEntersFirst(actions);
    actions := OtherEntersToo(actions, st);
    st := Pair("x:1", "a", "y:1", "b").(rooms := map["a" := {0}, "b" := {1}]);
  }

  lemma OneEntersFirst(actions: seq<Action<nat>>) returns (more: seq<Action<nat>>)
    requires RunTo(actions, Pair("x:1", "", "y:1", ""))
    ensures more == actions + [DoJoinRoom(0, "a")]
            && RunTo(more, Pair("x:1", "a", "y:1", "").(rooms := map["a" := {0}]))
  {
    more := Perform(actions, Pair("x:1", "", "y:1", ""), DoJoinRoom(0, "a"),
                    Pair("x:1", "a", "y:1", "").(rooms := map["a" := {0}]));
  }

  lemma OtherEntersToo(actions: seq<Action<nat>>, st: State<nat>) returns (more: seq<Action<nat>>)
    requires RunTo(actions, st) && st == Pair("x:1", "a", "y:1", "").(rooms := map["a" := {0}])
    ensures more == actions + [DoJoinRoom(1, "b")]
    ensures RunTo(more, Pair("x:1", "a", "y:1", "b").(rooms := map["a" := {0}, "b" := {1}]))
  {
    more := Perform(actions, st, DoJoinRoom(1, "b"),
                    Pair("x:1", "a", "y:1", "b").(rooms := map["a" := {0}, "b" := {1}]));
  }

  /** A run after which leaving a room one is not in forgets the room one is in. */
  lemma ForeignLeaveForgetsRoom() returns (actions: seq<Action<nat>>, st: State<nat>)
    ensures RunTo(actions, st) && Possible(st, DoLeaveRoom(0, "b"))
    ensures Membership(st) && LeaveRoom(st, 0, "b").1 && !OneRoom(Apply(st, DoLeaveRoom(0, "b")))
  {
    actions, st := TwoRooms();
    LeavingExactly(st, 0, "b");
    assert 0 in Participants(st.rooms, "a");
  }

  /** A run that clears the tables while sessions have current rooms, which they then keep. */
  lemma ClearForgetsMembers() returns (actions: seq<Action<nat>>, st: State<nat>)
    ensures RunTo(actions, st) && Possible(st, DoClear)
    ensures Membership(st) && !Membership(Apply(st, DoClear))
  {
    actions, st := TwoRooms();
    var stopped := st.(stopped := true);
    actions := Perform(actions, st, Action.RequestStop, stopped);
    st := stopped;
    ClearingExactly(st);
    assert st.fields[0].room == "a";
  }
}
