/**
 The tables of the chat server as a value: connected sessions, the nickname index, the rooms, and the
 three fields of each session that the server reads and writes. `S` is the identity of a session; a
 session in `expired` has been destroyed, so that a weak reference to it no longer locks.
 */
module Registry {
  const MAX_PARTICIPANTS: nat := 100

  datatype Fields = Fields(nick: string, remote: string, room: string)

  datatype State<S(==)> = State(
    stopped: bool,
    sessions: set<S>,
    nicknames: map<string, S>,
    rooms: map<string, set<S>>,
    fields: map<S, Fields>,
    expired: set<S>)

  datatype Outcome =
    | Registered
    | Refused
    | EndLookup   // the old nickname is looked up without a check and is not in the index

  predicate HasSpace(s: string) {
    exists i :: 0 <= i < |s| && s[i] in {' ', '\t', '\n', '\r', '\U{0B}', '\U{0C}'}
  }

  predicate ValidNick(nick: string) {
    nick != "" && !HasSpace(nick) && |nick| <= 20 && nick != "Server" && nick != "system"
  }

  predicate ValidRoom(room: string) { room != "" && !HasSpace(room) && |room| <= 30 }

  // ----- nicknames -----

  /** Whether a registration goes on to look up the old nickname of the session. */
  predicate LooksUpOld(f: Fields, nick: string) {
    f.nick != "" && f.nick != nick && f.nick != f.remote
  }

  /** Whether `nick` is free for `s`: unused, expired, or already its own. */
  predicate Available<S(==)>(nicknames: map<string, S>, expired: set<S>, nick: string, s: S) {
    nick !in nicknames || nicknames[nick] in expired || nicknames[nick] == s
  }

  /** `try_register_nickname_impl` on the index. */
  function RegisterImpl<S(==)>(nicknames: map<string, S>, expired: set<S>, f: Fields, nick: string, s: S)
    : (r: (map<string, S>, Outcome))
  {
    if s in expired || !Available(nicknames, expired, nick, s) then (nicknames, Refused)
    else
      var purged := if nick in nicknames && nicknames[nick] in expired then nicknames - {nick} else nicknames;
      if !LooksUpOld(f, nick) then (purged[nick := s], Registered)
      else if f.nick !in purged then (purged, EndLookup)
      else
        var owner := purged[f.nick];
        var freed := if owner == s || owner in expired then purged - {f.nick} else purged;
        (freed[nick := s], Registered)
  }

  /** A registration together with the handler that sets the session's nickname. */
  function Register<S(==)>(st: State<S>, s: S, nick: string): (r: (State<S>, Outcome))
    requires s in st.fields
  {
    var (index, outcome) := RegisterImpl(st.nicknames, st.expired, st.fields[s], nick, s);
    var renamed := if outcome.Registered? then st.fields[s := st.fields[s].(nick := nick)] else st.fields;
    (st.(nicknames := index, fields := renamed), outcome)
  }

  function Unregister<S(==)>(nicknames: map<string, S>, nick: string): map<string, S> {
    if nick == "" then nicknames else nicknames - {nick}
  }

  /** The index without the entries whose session is gone, as the user list leaves it. */
  function Purged<S(==)>(nicknames: map<string, S>, expired: set<S>): map<string, S> {
    map k | k in nicknames && nicknames[k] !in expired :: nicknames[k]
  }

  // ----- rooms -----

  /** The rooms after `s` was removed from room `r`, which disappears when that empties it. */
  function Without<S(==)>(rooms: map<string, set<S>>, r: string, s: S): map<string, set<S>> {
    if r !in rooms then rooms
    else if rooms[r] - {s} == {} then rooms - {r}
    else rooms[r := rooms[r] - {s}]
  }

  function Participants<S(==)>(rooms: map<string, set<S>>, r: string): set<S> {
    if r in rooms then rooms[r] else {}
  }

  /** `ChatRoom::join` on the participants: a full room refuses, even one who is already in. */
  function Entered<S(==)>(participants: set<S>, s: S): set<S> {
    if |participants| >= MAX_PARTICIPANTS then participants else participants + {s}
  }

  function JoinRoom<S(==)>(st: State<S>, s: S, r: string): (res: (State<S>, bool))
    requires s in st.fields
  {
    if st.stopped then (st, false)
    else
      var current := st.fields[s].room;
      var left := if current != "" && current != r then Without(st.rooms, current, s) else st.rooms;
      (st.(rooms := left[r := Entered(Participants(left, r), s)],
           fields := st.fields[s := st.fields[s].(room := r)]), true)
  }

  function LeaveRoom<S(==)>(st: State<S>, s: S, r: string): (res: (State<S>, bool))
    requires s in st.fields
  {
    if st.stopped || r !in st.rooms then (st, false)
    else (st.(rooms := Without(st.rooms, r, s), fields := st.fields[s := st.fields[s].(room := "")]), true)
  }

  // ----- connecting, disconnecting, stopping -----

  function Join<S(==)>(st: State<S>, s: S): State<S> {
    if st.stopped then st else st.(sessions := st.sessions + {s})
  }

  /** The handler of a disconnect; `nick` is the nickname the session had when `leave` was called. */
  function Leave<S(==)>(st: State<S>, s: S, nick: string): State<S>
    requires s in st.fields
  {
    if st.stopped then st
    else
      var f := st.fields[s];
      var out := if f.room != "" then LeaveRoom(st, s, f.room).0 else st;
      out.(nicknames := if nick != "" && nick != f.remote then Unregister(st.nicknames, nick) else st.nicknames,
           sessions := st.sessions - {s})
  }

  function Clear<S(==)>(st: State<S>): State<S> {
    st.(sessions := {}, nicknames := map[], rooms := map[])
  }

  // ----- runs -----

  datatype Action<S> =
    | Create(s: S, remote: string)
    | DoJoin(s: S)
    | DoLeave(s: S, nick: string)
    | DoRegister(s: S, nick: string)
    | DoJoinRoom(s: S, r: string)
    | DoLeaveRoom(s: S, r: string)
    | ListUsers
    | RequestStop
    | DoClear
    | Expire(s: S)

  /** No strong reference from the server is left. */
  ghost predicate Unreferenced<S>(st: State<S>, s: S) {
    s !in st.sessions && forall r :: r in st.rooms ==> s !in st.rooms[r]
  }

  /** What can happen at all: handlers of existing sessions, in any order. */
  ghost predicate Possible<S>(st: State<S>, a: Action<S>) {
    match a
    case Create(s, remote) => s !in st.fields && s !in st.expired && remote != ""
    case DoJoin(s) => s in st.fields && s !in st.expired
    case DoLeave(s, _) => s in st.fields && s !in st.expired
    case DoRegister(s, nick) => s in st.fields && ValidNick(nick)
    case DoJoinRoom(s, r) => s in st.fields && s !in st.expired && ValidRoom(r)
    case DoLeaveRoom(s, r) => s in st.fields && s !in st.expired
    case ListUsers => true
    case RequestStop => true
    case DoClear => st.stopped
    case Expire(s) => s in st.fields && Unreferenced(st, s)
  }

  function Apply<S(==)>(st: State<S>, a: Action<S>): State<S>
    requires a.DoLeave? || a.DoRegister? || a.DoJoinRoom? || a.DoLeaveRoom? ==> a.s in st.fields
  {
    match a
    case Create(s, remote) => st.(fields := st.fields[s := Fields(remote, remote, "")])
    case DoJoin(s) => Join(st, s)
    case DoLeave(s, nick) => Leave(st, s, nick)
    case DoRegister(s, nick) => Register(st, s, nick).0
    case DoJoinRoom(s, r) => JoinRoom(st, s, r).0
    case DoLeaveRoom(s, r) => LeaveRoom(st, s, r).0
    case ListUsers => st.(nicknames := Purged(st.nicknames, st.expired))
    case RequestStop => st.(stopped := true)
    case DoClear => Clear(st)
    case Expire(s) => st.(expired := st.expired + {s})
  }

  function Start<S(==)>(): State<S> { State(false, {}, map[], map[], map[], {}) }

  ghost predicate Run<S>(states: seq<State<S>>, actions: seq<Action<S>>) {
    && |states| == |actions| + 1
    && states[0] == Start()
    && forall i :: 0 <= i < |actions| ==>
         Possible(states[i], actions[i]) && states[i + 1] == Apply(states[i], actions[i])
  }

  /** Some run performs exactly these actions and ends in this state. */
  ghost predicate RunTo<S(!new)>(actions: seq<Action<S>>, st: State<S>) {
    exists states :: Run(states, actions) && states[|actions|] == st
  }

  lemma RunStart<S(!new)>()
    ensures RunTo<S>([], Start())
  {
    assert Run([Start<S>()], []);
  }

  lemma RunOn<S(!new)>(actions: seq<Action<S>>, st: State<S>, a: Action<S>)
    requires RunTo(actions, st) && Possible(st, a)
    ensures RunTo(actions + [a], Apply(st, a))
  {
    var states :| Run(states, actions) && states[|actions|] == st;
    var longer := states + [Apply(st, a)];
    assert forall i :: 0 <= i < |actions + [a]| ==>
             Possible(longer[i], (actions + [a])[i]) && longer[i + 1] == Apply(longer[i], (actions + [a])[i]);
    assert Run(longer, actions + [a]);
  }

  /** One more step of a run that is being put together. */
  lemma Perform<S(!new)>(actions: seq<Action<S>>, st: State<S>, a: Action<S>, next: State<S>)
    returns (more: seq<Action<S>>)
    requires RunTo(actions, st) && Possible(st, a) && next == Apply(st, a)
    ensures more == actions + [a] && RunTo(more, next)
  {
    more := actions + [a];
    RunOn(actions, st, a);
  }

  /** Two connected sessions under their default names. */
  function Pair(remote0: string, room0: string, remote1: string, room1: string): State<nat> {
    State(false, {0, 1}, map[], map[],
          map[0 := Fields(remote0, remote0, room0), 1 := Fields(remote1, remote1, room1)], {})
  }

  lemma PairJoins(remote0: string, remote1: string) returns (actions: seq<Action<nat>>)
    requires remote0 != "" && remote1 != ""
    ensures actions == [Create(0, remote0), Create(1, remote1), DoJoin(0), DoJoin(1)]
    ensures RunTo(actions, Pair(remote0, "", remote1, ""))
  {
    RunStart<nat>();
    var st := Start<nat>();
    var one := st.(fields := map[0 := Fields(remote0, remote0, "")]);
    var two := st.(fields := map[0 := Fields(remote0, remote0, ""), 1 := Fields(remote1, remote1, "")]);
    actions := Perform([], st, Create(0, remote0), one);
    actions := Perform(actions, one, Create(1, remote1), two);
    actions := Perform(actions, two, DoJoin(0), two.(sessions := {0}));
    actions := Perform(actions, two.(sessions := {0}), DoJoin(1), Pair(remote0, "", remote1, ""));
  }

  // ----- what the callers take care of -----

  /** A session leaves only the room it is in. */
  ghost predicate LeavesOwnRoom<S>(st: State<S>, a: Action<S>) {
    a.DoLeaveRoom? ==> a.s in st.fields && st.fields[a.s].room == a.r
  }

  /** A session that is not in the room does not join it when it is full. */
  ghost predicate JoinsWithSpace<S>(st: State<S>, a: Action<S>) {
    a.DoJoinRoom? ==> a.s in Participants(st.rooms, a.r) || |Participants(st.rooms, a.r)| < MAX_PARTICIPANTS
  }

  /** The tables are cleared when no session has a current room. */
  ghost predicate ClearsIdleRooms<S>(st: State<S>, a: Action<S>) {
    a.DoClear? ==> forall s :: s in st.fields ==> st.fields[s].room == ""
  }

  /**
   As long as the server runs, a session joins it under its default name and is disconnected once, under
   the nickname it has when that is handled; and no session registers its own remote id.
   */
  ghost predicate MindsNames<S>(st: State<S>, a: Action<S>) {
    match a
    case DoJoin(s) => st.stopped || (s in st.fields && st.fields[s].nick == st.fields[s].remote)
    case DoLeave(s, nick) => st.stopped || (s in st.sessions && s in st.fields && nick == st.fields[s].nick)
    case DoRegister(s, nick) => s in st.fields && nick != st.fields[s].remote
    case _ => true
  }

  /** Only connected sessions register as well. */
  ghost predicate ActsWhileConnected<S>(st: State<S>, a: Action<S>) {
    MindsNames(st, a) && (a.DoRegister? ==> a.s in st.sessions)
  }
}
