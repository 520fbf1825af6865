/**
 Who is told what when a session moves between rooms or disconnects: the tasks that the handlers of
 `ChatServer` append to the strands, as a function of the tables. The wording is abbreviated.
 */
module Notices {
  import opened Registry
  import opened Rooms
  import opened Seqs
  import opened Strands

  type Boxes<!S> = map<S, seq<Task<string>>>

  /** Each target gets one more task, last on its strand. */
  function Posted<S(==)>(boxes: Boxes<S>, targets: set<S>, task: Task<string>): Boxes<S> {
    map t | t in boxes :: if t in targets then boxes[t] + [task] else boxes[t]
  }

  function Gone(nick: string, r: string): string { "* " + nick + " left " + r }
  function Here(nick: string): string { "* " + nick + " entered" }
  function Left(r: string): string { "* left " + r }
  function Welcome(r: string): string { "* members of " + r }
  const FULL := "Error: room is full"
  const JOINED := "* joined"
  const LEFT := "* left"

  /** The notices of a removal: from the server to the others in the room, then from the room if `s` was in it. */
  function AfterRemoval<S(==)>(boxes: Boxes<S>, members: set<S>, s: S, nick: string, r: string): Boxes<S> {
    var told := Posted(boxes, members - {s}, Push(Gone(nick, r)));
    if s in members then Posted(told, members - {s}, Push(LEFT)) else told
  }

  /** The notices of a room that is asked to let `s` in: to all participants, or of the refusal to `s`. */
  function AfterEntering<S(==)>(boxes: Boxes<S>, members: set<S>, s: S): Boxes<S> {
    if |members| >= MAX_PARTICIPANTS then Posted(boxes, {s}, Push(FULL))
    else Posted(boxes, members + {s}, Push(JOINED))
  }

  /** The answer of the server to `s` and its notice to the others in the room, refused or not. */
  function AfterWelcome<S(==)>(boxes: Boxes<S>, members: set<S>, s: S, nick: string, r: string): Boxes<S> {
    Posted(Posted(boxes, {s}, Push(Welcome(r))), members - {s}, Push(Here(nick)))
  }

  /** The rooms after `s` has left its current room for `r`. */
  function RoomsLeft<S(==)>(st: State<S>, s: S, r: string): map<string, set<S>>
    requires s in st.fields
  {
    var current := st.fields[s].room;
    if current != "" && current != r then Without(st.rooms, current, s) else st.rooms
  }

  function MoveBoxes<S(==)>(boxes: Boxes<S>, st: State<S>, s: S, r: string): Boxes<S>
    requires s in st.fields
  {
    var f := st.fields[s];
    var out := if f.room != "" && f.room != r && f.room in st.rooms
               then AfterRemoval(boxes, st.rooms[f.room], s, f.nick, f.room) else boxes;
    AfterEntering(out, Participants(RoomsLeft(st, s, r), r), s)
  }

  function JoinBoxes<S(==)>(boxes: Boxes<S>, st: State<S>, s: S, r: string): Boxes<S>
    requires s in st.fields
  {
    if st.stopped then boxes
    else AfterWelcome(MoveBoxes(boxes, st, s, r), Entered(Participants(RoomsLeft(st, s, r), r), s),
                      s, st.fields[s].nick, r)
  }

  function LeaveBoxes<S(==)>(boxes: Boxes<S>, st: State<S>, s: S, r: string): Boxes<S>
    requires s in st.fields
  {
    if st.stopped || r !in st.rooms then boxes
    else Posted(AfterRemoval(boxes, st.rooms[r], s, st.fields[s].nick, r), {s}, Push(Left(r)))
  }

  /** `nick` is the nickname the session had when it was disconnected. */
  function DisconnectBoxes<S(==)>(boxes: Boxes<S>, st: State<S>, s: S, nick: string): Boxes<S>
    requires s in st.fields
  {
    if st.stopped then boxes
    else
      var f := st.fields[s];
      var out := if f.room != "" then LeaveBoxes(boxes, st, s, f.room) else boxes;
      if s in st.sessions && nick != "" && nick != f.remote
      then Posted(out, st.sessions - {s}, Deliver("* " + nick + " left")) else out
  }

  // ----- what each session gets to hear -----

  function HeardOfRemoval<S(==)>(members: set<S>, s: S, nick: string, r: string, t: S): seq<Task<string>> {
    if t == s || t !in members then [] else [Push(Gone(nick, r))] + if s in members then [Push(LEFT)] else []
  }

  function HeardOfEntering<S(==)>(members: set<S>, s: S, t: S): seq<Task<string>> {
    if |members| >= MAX_PARTICIPANTS then (if t == s then [Push(FULL)] else [])
    else if t == s || t in members then [Push(JOINED)] else []
  }

  lemma RemovalAt<S>(boxes: Boxes<S>, members: set<S>, s: S, nick: string, r: string, t: S)
    requires t in boxes
    ensures AfterRemoval(boxes, members, s, nick, r).Keys == boxes.Keys
    ensures AfterRemoval(boxes, members, s, nick, r)[t] == boxes[t] + HeardOfRemoval(members, s, nick, r, t)
  {
    var told := Posted(boxes, members - {s}, Push(Gone(nick, r)));
    assert told[t] == boxes[t] + if t in members - {s} then [Push(Gone(nick, r))] else [];
  }

  lemma EnteringAt<S>(boxes: Boxes<S>, members: set<S>, s: S, t: S)
    requires t in boxes
    ensures AfterEntering(boxes, members, s).Keys == boxes.Keys
    ensures AfterEntering(boxes, members, s)[t] == boxes[t] + HeardOfEntering(members, s, t)
  {
  }

  lemma WelcomeAt<S>(boxes: Boxes<S>, members: set<S>, s: S, nick: string, r: string, t: S)
    requires t in boxes
    ensures var after := AfterWelcome(boxes, members, s, nick, r);
            && after.Keys == boxes.Keys
            && after[t] == boxes[t] + if t == s then [Push(Welcome(r))]
                                      else if t in members then [Push(Here(nick))] else []
  {
    var told := Posted(boxes, {s}, Push(Welcome(r)));
    assert told[t] == boxes[t] + if t == s then [Push(Welcome(r))] else [];
  }

  lemma NotInBoth<S>(st: State<S>, q: string, r: string, t: S)
    requires OneRoom(st) && q != r
    ensures !(t in Participants(st.rooms, q) && t in Participants(st.rooms, r))
  {
    if t in Participants(st.rooms, q) {
      assert st.fields[t].room == q;
    }
  }

  lemma MoveAt<S>(boxes: Boxes<S>, st: State<S>, s: S, r: string, t: S)
    requires s in st.fields && t in boxes
    ensures Participants(RoomsLeft(st, s, r), r) == Participants(st.rooms, r)
    ensures var f, after := st.fields[s], MoveBoxes(boxes, st, s, r);
            && after.Keys == boxes.Keys
            && after[t] == boxes[t]
               + (if f.room == "" || f.room == r then []
                  else HeardOfRemoval(Participants(st.rooms, f.room), s, f.nick, f.room, t))
               + HeardOfEntering(Participants(st.rooms, r), s, t)
  {
    var f := st.fields[s];
    var moves := f.room != "" && f.room != r && f.room in st.rooms;
    var out := if moves then AfterRemoval(boxes, st.rooms[f.room], s, f.nick, f.room) else boxes;
    if moves {
      RemovalAt(boxes, st.rooms[f.room], s, f.nick, f.room, t);
    }
    WithoutMembers(st.rooms, f.room, s);
    EnteringAt(out, Participants(st.rooms, r), s, t);
  }

  lemma HeardInAll<S>(st: State<S>, s: S, r: string, t: S)
    requires OneRoom(st) && s in st.fields
    ensures var f, members := st.fields[s], Participants(st.rooms, r);
            (if f.room == "" || f.room == r then []
             else HeardOfRemoval(Participants(st.rooms, f.room), s, f.nick, f.room, t))
            + HeardOfEntering(members, s, t)
            + (if t == s then [Push(Welcome(r))] else if t in Entered(members, s) then [Push(Here(f.nick))] else [])
            == if t == s then [Push(if |members| >= MAX_PARTICIPANTS then FULL else JOINED), Push(Welcome(r))]
               else if f.room != "" && f.room != r && t in Participants(st.rooms, f.room) then
                 [Push(Gone(f.nick, f.room))] + if s in st.rooms[f.room] then [Push(LEFT)] else []
               else if t in members then
                 (if |members| >= MAX_PARTICIPANTS then [] else [Push(JOINED)]) + [Push(Here(f.nick))]
               else []
  {
    if st.fields[s].room != r {
      NotInBoth(st, st.fields[s].room, r, t);
    }
  }

  /**
   Moving to a room, when nobody is in two rooms: the session hears that it was let in or refused and then
   the answer of the server; those it leaves hear of it from the server and from the room; those it comes to
   hear of it from both, or from the server only when the room is full; and nobody else hears anything.
   */
  lemma WhoHearsOfAJoin<S>(boxes: Boxes<S>, st: State<S>, s: S, r: string, t: S)
    requires OneRoom(st) && s in st.fields && t in boxes && !st.stopped
    ensures JoinBoxes(boxes, st, s, r).Keys == boxes.Keys
    ensures var f, full := st.fields[s], r in st.rooms && |st.rooms[r]| >= 100;
            JoinBoxes(boxes, st, s, r)[t] == boxes[t] +
              if t == s then
                [Push(if full then "Error: room is full" else "* joined"), Push("* members of " + r)]
              else if f.room != "" && f.room != r && f.room in st.rooms && t in st.rooms[f.room] then
                [Push("* " + f.nick + " left " + f.room)] + if s in st.rooms[f.room] then [Push("* left")] else []
              else if r in st.rooms && t in st.rooms[r] then
                (if full then [] else [Push("* joined")]) + [Push("* " + f.nick + " entered")]
              else []
  {
    var f, members := st.fields[s], Participants(st.rooms, r);
    MoveAt(boxes, st, s, r, t);
    WelcomeAt(MoveBoxes(boxes, st, s, r), Entered(members, s), s, f.nick, r, t);
    HeardInAll(st, s, r, t);
    var a := if f.room == "" || f.room == r then []
             else HeardOfRemoval(Participants(st.rooms, f.room), s, f.nick, f.room, t);
    var b := HeardOfEntering(members, s, t);
    var c := if t == s then [Push(Welcome(r))] else if t in Entered(members, s) then [Push(Here(f.nick))] else [];
    Associative(boxes[t], a, b);
    Associative(boxes[t], a + b, c);
  }

  /**
   Leaving a room: the session hears that it has left; the others in the room hear of it from the server, and
   from the room as well if the session was in it; and nobody else hears anything.
   */
  lemma WhoHearsOfALeave<S>(boxes: Boxes<S>, st: State<S>, s: S, r: string, t: S)
    requires s in st.fields && t in boxes
    ensures LeaveBoxes(boxes, st, s, r).Keys == boxes.Keys
    ensures LeaveBoxes(boxes, st, s, r)[t] == boxes[t] +
              if st.stopped || r !in st.rooms then []
              else if t == s then [Push("* left " + r)]
              else if t in st.rooms[r] then
                [Push("* " + st.fields[s].nick + " left " + r)] + if s in st.rooms[r] then [Push("* left")] else []
              else []
  {
    if !st.stopped && r in st.rooms {
      RemovalAt(boxes, st.rooms[r], s, st.fields[s].nick, r, t);
    }
  }

  /**
   A disconnect: the room is left, and if the session was listed and had a nickname, every session still
   listed gets the news of its departure, last on its strand and once.
   */
  lemma WhoHearsOfADisconnect<S>(boxes: Boxes<S>, st: State<S>, s: S, nick: string, t: S)
    requires s in st.fields && t in boxes
    ensures DisconnectBoxes(boxes, st, s, nick).Keys == boxes.Keys
    ensures var f := st.fields[s];
            DisconnectBoxes(boxes, st, s, nick)[t] == boxes[t] +
              (if st.stopped || f.room == "" || f.room !in st.rooms then []
               else if t == s then [Push("* left " + f.room)]
               else if t in st.rooms[f.room] then
                 [Push("* " + f.nick + " left " + f.room)] + if s in st.rooms[f.room] then [Push("* left")] else []
               else []) +
              if !st.stopped && s in st.sessions && nick != "" && nick != f.remote && t in st.sessions && t != s
              then [Deliver("* " + nick + " left")] else []
  {
    WhoHearsOfALeave(boxes, st, s, st.fields[s].room, t);
  }
}
