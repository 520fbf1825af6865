/**
 The chat server, its rooms and its sessions as objects. Each handler is one method that updates the
 fields in place; what it does to the tables is a function of `Registry`, and what it posts to the
 sessions' strands is stated beside it.
 */
module ChatServers {
  import opened Registry
  import opened Strands
  import Nicknames
  import Notices
  import Rooms
  import SafeNames
  import opened Wrappers

  /** What the server knows of a session; `strand` holds the tasks posted to it and not yet run. */
  class Session {
    const remoteId: string
    var nickname: string
    var currentRoom: string
    var expired: bool
    var strand: seq<Task<string>>

    constructor (remoteId: string)
      ensures this.remoteId == remoteId && nickname == remoteId && currentRoom == "" && !expired && strand == []
    {
      this.remoteId := remoteId;
      nickname, currentRoom, expired, strand := remoteId, "", false, [];
    }

    method Deliver(msg: string)
      modifies this`strand
      ensures strand == old(strand) + [Push(msg)]
    {
      strand := strand + [Push(msg)];
    }
  }

  /** How a room presents a message: system messages as they are, others with sender and room. */
  function RoomText(message: string, senderName: string, room: string): string {
    if message != "" && message[0] == '*' then message
    else "[" + senderName + " @ " + room + "]: " + message + "\r\n"
  }

  /** A message without a sender is from the system. */
  function NameOf(sender: Session?): string
    reads sender
  {
    if sender == null then "system" else sender.nickname
  }

  class ChatRoom {
    const name: string
    var participants: set<Session>

    constructor (name: string)
      ensures this.name == name && participants == {}
    {
      this.name := name;
      participants := {};
    }

    /** Delivers to every participant but the sender, once. */
    method Broadcast(message: string, sender: Session?)
      modifies participants`strand
      ensures forall p :: p in participants ==>
                p.strand == old(p.strand) +
                  if p == sender then []
                  else if message != "" && message[0] == '*' then [Push(message)]
                  else [Push("[" + NameOf(sender) + " @ " + name + "]: " + message + "\r\n")]
    {
      var text := RoomText(message, NameOf(sender), name);
      var rest := participants;
      while rest != {}
        invariant rest <= participants
        invariant forall p :: p in participants ==>
                    p.strand == old(p.strand) + if p == sender || p in rest then [] else [Push(text)]
        decreases rest
      {
        var p :| p in rest;
        if p != sender {
          p.Deliver(text);
        }
        rest := rest - {p};
      }
    }

    /** Refuses when full; otherwise adds the session, sets its room and announces it to all participants. */
    method Join(p: Session)
      modifies this`participants, p`currentRoom, p`strand, participants`strand
      ensures participants == Entered(old(participants), p)
      ensures p.currentRoom == if |old(participants)| >= MAX_PARTICIPANTS then old(p.currentRoom) else name
      ensures forall t :: t in old(participants) + {p} ==>
                t.strand == old(t.strand) +
                  if |old(participants)| < 100 then [Push("* joined")]
                  else if t == p then [Push("Error: room is full")] else []
    {
      if |participants| >= MAX_PARTICIPANTS {
        p.Deliver(Notices.FULL);
        return;
      }
      participants := participants + {p};
      p.currentRoom := name;
      Broadcast(Notices.JOINED, null);
    }

    /** Removes the session and clears its room, if it was a participant, and tells the others. */
    method Leave(p: Session)
      modifies this`participants, p`currentRoom, participants`strand
      ensures participants == old(participants) - {p}
      ensures p.currentRoom == if p in old(participants) then "" else old(p.currentRoom)
      ensures forall t :: t in old(participants) ==>
                t.strand == old(t.strand) + if p in old(participants) && t != p then [Push("* left")] else []
    {
      if p in participants {
        participants := participants - {p};
        p.currentRoom := "";
        Broadcast(Notices.LEFT, null);
      }
    }
  }

  class ChatServer {
    var stopped: bool
    var sessions: set<Session>
    var nicknames: map<string, Session>
    var rooms: map<string, ChatRoom>
    ghost var known: set<Session>   // every session ever created for this server

    ghost predicate Valid()
      reads this, rooms.Values
    {
      && sessions <= known
      && (forall k :: k in nicknames ==> nicknames[k] in known)
      && (forall r :: r in rooms ==> rooms[r].name == r && rooms[r].participants <= known)
    }

    ghost function RoomTable(): map<string, set<Session>>
      reads this`rooms, rooms.Values
    {
      map r | r in rooms :: rooms[r].participants
    }

    ghost function FieldTable(): map<Session, Fields>
      reads this`known, known`nickname, known`currentRoom
    {
      map s | s in known :: Fields(s.nickname, s.remoteId, s.currentRoom)
    }

    ghost function Expired(): set<Session>
      reads this`known, known`expired
    {
      set s | s in known && s.expired
    }

    ghost function Boxes(): Notices.Boxes<Session>
      reads this`known, known`strand
    {
      map s | s in known :: s.strand
    }

    /** The tables as a value. */
    ghost function Tables(): State<Session>
      reads this, rooms.Values, known`nickname, known`currentRoom, known`expired
    {
      State(stopped, sessions, nicknames, RoomTable(), FieldTable(), Expired())
    }

    constructor ()
      ensures Valid() && known == {} && Tables() == Start()
    {
      stopped, sessions, nicknames, rooms, known := false, {}, map[], map[], {};
    }

    /** A new connection; the server does not list it before it joins. */
    method Connect(remoteId: string) returns (s: Session)
      requires Valid()
      modifies this`known
      ensures Valid() && fresh(s) && known == old(known) + {s}
      ensures Tables() == Apply(old(Tables()), Create(s, remoteId))
    {
      s := new Session(remoteId);
      known := known + {s};
      assert RoomTable() == old(RoomTable()) && Expired() == old(Expired());
    }

    /** Posts one delivery to each listed session but the sender; nothing else changes. */
    method BroadcastImpl(message: string, sender: Session?)
      requires Valid()
      modifies sessions`strand
      ensures Valid() && Tables() == old(Tables())
      ensures forall t :: t in sessions ==>
                t.strand == old(t.strand) + if t == sender then [] else [Deliver(message)]
    {
      var rest := sessions;
      while rest != {}
        invariant rest <= sessions
        invariant forall t :: t in sessions ==>
                    t.strand == old(t.strand) + if t == sender || t in rest then [] else [Deliver(message)]
        decreases rest
      {
        var t :| t in rest;
        if t != sender {
          t.strand := t.strand + [Deliver(message)];
        }
        rest := rest - {t};
      }
    }

    method Join(session: Session)
      requires Valid() && session in known
      modifies this`sessions, known`strand
      ensures Valid() && Tables() == Registry.Join(old(Tables()), session)
      ensures forall t :: t in known ==>
                t.strand == old(t.strand) + if !stopped && session.nickname != session.remoteId
                                               && t in sessions && t != session
                                            then [Deliver("* " + session.nickname + " joined")] else []
    {
      if stopped {
        return;
      }
      sessions := sessions + {session};
      if session.nickname != session.remoteId {
        BroadcastImpl("* " + session.nickname + " joined", session);
      }
    }

    method UnregisterNickname(nickname: string)
      requires Valid()
      modifies this`nicknames
      ensures Valid() && nicknames == Unregister(old(nicknames), nickname)
    {
      if nickname == "" {
        return;
      }
      if nickname in nicknames {
        nicknames := nicknames - {nickname};
      }
    }

    /** Registration and the handler that then sets the session's nickname. */
    method TryRegisterNickname(nickname: string, session: Session) returns (outcome: Outcome)
      requires Valid() && session in known
      modifies this`nicknames, session`nickname
      ensures Valid()
      ensures stopped || !ValidNick(nickname) ==> Tables() == old(Tables()) && outcome == Refused
      ensures !stopped && ValidNick(nickname) ==>
                (Tables(), outcome) == Register(old(Tables()), session, nickname)
    {
      if stopped || !ValidNick(nickname) {
        return Refused;
      }
      outcome := TryRegisterNicknameImpl(nickname, session);
      if outcome.Registered? {
        session.nickname := nickname;
      }
      SetNick(outcome, nickname, session, old(FieldTable()));
      assert RoomTable() == old(RoomTable()) && Expired() == old(Expired());
    }

    lemma SetNick(outcome: Outcome, nickname: string, session: Session, before: map<Session, Fields>)
      requires session in known && before.Keys == known
      requires forall s :: s in known && s != session ==> before[s] == FieldTable()[s]
      requires FieldTable()[session] ==
               if outcome.Registered? then before[session].(nick := nickname) else before[session]
      ensures FieldTable() ==
              if outcome.Registered? then before[session := before[session].(nick := nickname)] else before
    {
    }

    method TryRegisterNicknameImpl(nickname: string, session: Session) returns (outcome: Outcome)
      requires Valid() && session in known
      modifies this`nicknames
      ensures Valid()
      ensures (nicknames, outcome) == RegisterImpl(old(nicknames), Expired(),
                                                   Fields(session.nickname, session.remoteId, session.currentRoom),
                                                   nickname, session)
    {
      if session.expired {
        return Refused;
      }
      var oldNick := session.nickname;
      var canRegister := false;
      if nickname !in nicknames {
        canRegister := true;
      } else if nicknames[nickname].expired {
        nicknames := nicknames - {nickname};
        canRegister := true;
      } else {
        canRegister := nicknames[nickname] == session;
      }
      if !canRegister {
        return Refused;
      }
      if oldNick != "" && oldNick != nickname && oldNick != session.remoteId {
        if oldNick !in nicknames {
          return EndLookup;
        }
        if nicknames[oldNick] == session || nicknames[oldNick].expired {
          nicknames := nicknames - {oldNick};
        }
      }
      nicknames := nicknames[nickname := session];
      return Registered;
    }

    /** The live owner of a name; a stopped server finds nobody. */
    method FindSessionByNickname(nickname: string) returns (found: Session?)
      requires Valid()
      ensures stopped ==> found == null
      ensures !stopped ==>
                found == match Nicknames.Found(nicknames, Expired(), nickname) case None => null case Some(s) => s
      ensures found != null ==> nickname in nicknames && nicknames[nickname] == found && !found.expired
      ensures found == null && !stopped ==> nickname !in nicknames || nicknames[nickname].expired
    {
      found := null;
      if stopped {
        return;
      }
      if nickname in nicknames && !nicknames[nickname].expired {
        found := nicknames[nickname];
      }
    }

    /** The names of live sessions in strictly ascending order, unless the server is stopped. */
    method GetUserList() returns (list: seq<string>)
      requires Valid()
      modifies this`nicknames
      ensures Valid()
      ensures stopped ==> list == [] && nicknames == old(nicknames)
      ensures !stopped ==> nicknames == Purged(old(nicknames), Expired()) && forall k :: k in list <==> k in nicknames
      ensures !stopped ==> forall k :: k in list <==> k in old(nicknames) && !old(nicknames)[k].expired
      ensures forall k :: k in nicknames ==> k in old(nicknames) && nicknames[k] == old(nicknames)[k]
      ensures forall i, j :: 0 <= i < j < |list| ==> SafeNames.Less(list[i], list[j])
    {
      list := [];
      if !stopped {
        list := ListAndPurge();
      }
    }

    /** The handler: entries of expired sessions are dropped on the way. */
    method ListAndPurge() returns (list: seq<string>)
      requires Valid()
      modifies this`nicknames
      ensures Valid() && nicknames == Purged(old(nicknames), Expired())
      ensures forall k :: k in list <==> k in nicknames
      ensures forall i, j :: 0 <= i < j < |list| ==> SafeNames.Less(list[i], list[j])
    {
      list := [];
      var rest := nicknames.Keys;
      while rest != {}
        invariant rest <= nicknames.Keys <= old(nicknames).Keys
        invariant forall k :: k in nicknames ==> nicknames[k] == old(nicknames)[k]
        invariant forall k :: k in old(nicknames) && k !in rest ==> (k in nicknames <==> !old(nicknames)[k].expired)
        invariant forall k :: k in list <==> k in nicknames && k !in rest
        invariant SafeNames.AscendingBelow(list, rest)
        decreases rest
      {
        ghost var least := SafeNames.Least(rest);
        assert SafeNames.IsLeast(least, rest);
        var k :| k in rest && forall other :: other in rest ==> other == k || SafeNames.Less(k, other);
        SafeNames.AppendLeast(list, k, rest);
        if !nicknames[k].expired {
          list := list + [k];
        } else {
          nicknames := nicknames - {k};
        }
        rest := rest - {k};
      }
    }

    /** Moves the session to the room, which is created when it does not exist. */
    method JoinRoom(roomName: string, session: Session) returns (success: bool)
      requires Valid() && session in known
      modifies this`rooms, rooms.Values, known`strand, session`currentRoom
      ensures Valid()
      ensures success <==> !stopped
      ensures Tables() == Registry.JoinRoom(old(Tables()), session, roomName).0
      ensures Boxes() == Notices.JoinBoxes(old(Boxes()), old(Tables()), session, roomName)
      ensures Rooms.OneRoom(old(Tables())) ==>
                var there, from, full := old(RoomTable()), old(session.currentRoom),
                                         roomName in old(rooms) && |old(RoomTable())[roomName]| >= 100;
                forall t :: t in known ==>
                  t.strand == old(t.strand) +
                    if stopped then []
                    else if t == session then
                      [Push(if full then "Error: room is full" else "* joined"), Push("* members of " + roomName)]
                    else if from != "" && from != roomName && from in there && t in there[from] then
                      [Push("* " + session.nickname + " left " + from)]
                      + if session in there[from] then [Push("* left")] else []
                    else if roomName in there && t in there[roomName] then
                      (if full then [] else [Push("* joined")]) + [Push("* " + session.nickname + " entered")]
                    else []
    {
      if stopped {
        return false;
      }
      ghost var st, boxes := Tables(), Boxes();
      Admit(roomName, session);
      if Rooms.OneRoom(st) {
        HeardOfMove(st, boxes, session, roomName);
      }
      return true;
    }

    lemma HeardOfMove(st: State<Session>, boxes: Notices.Boxes<Session>, s: Session, r: string)
      requires s in st.fields && boxes.Keys == known && !st.stopped && Rooms.OneRoom(st)
      requires Boxes() == Notices.JoinBoxes(boxes, st, s, r)
      ensures var f, full := st.fields[s], r in st.rooms && |st.rooms[r]| >= 100;
              forall t :: t in known ==>
                t.strand == boxes[t] +
                  if t == s then
                    [Push(if full then "Error: room is full" else "* joined"), Push("* members of " + r)]
                  else if f.room != "" && f.room != r && f.room in st.rooms && t in st.rooms[f.room] then
                    [Push("* " + f.nick + " left " + f.room)]
                    + if s in st.rooms[f.room] then [Push("* left")] else []
                  else if r in st.rooms && t in st.rooms[r] then
                    (if full then [] else [Push("* joined")]) + [Push("* " + f.nick + " entered")]
                  else []
    {
      forall t | t in known ensures t.strand == Notices.JoinBoxes(boxes, st, s, r)[t] {
        assert t.strand == Boxes()[t];
      }
      forall t | t in known {
        Notices.WhoHearsOfAJoin(boxes, st, s, r, t);
      }
    }

    method Admit(roomName: string, session: Session)
      requires Valid() && session in known && !stopped
      modifies this`rooms, rooms.Values, known`strand, session`currentRoom
      ensures Valid()
      ensures Tables() == Registry.JoinRoom(old(Tables()), session, roomName).0
      ensures Boxes() == Notices.JoinBoxes(old(Boxes()), old(Tables()), session, roomName)
    {
      ghost var before, boxes := Tables(), Boxes();
      MoveTo(roomName, session);
      assert Tables() == Registry.JoinRoom(before, session, roomName).0;
      WelcomeAfterMove(before, boxes, session, roomName, RoomTable()[roomName], session.nickname);
      Welcome(roomName, session);
    }

    lemma WelcomeAfterMove(st: State<Session>, boxes: Notices.Boxes<Session>, s: Session,
                           r: string, members: set<Session>, nick: string)
      requires s in st.fields && !st.stopped && nick == st.fields[s].nick
      requires members == Registry.JoinRoom(st, s, r).0.rooms[r]
      ensures Notices.JoinBoxes(boxes, st, s, r)
              == Notices.AfterWelcome(Notices.MoveBoxes(boxes, st, s, r), members, s, nick, r)
    {
    }

    method Welcome(roomName: string, session: Session)
      requires Valid() && session in known && roomName in rooms
      modifies known`strand
      ensures Valid() && Tables() == old(Tables())
      ensures Boxes() == Notices.AfterWelcome(old(Boxes()), RoomTable()[roomName], session, session.nickname, roomName)
    {
      Answer(Notices.Welcome(roomName), session);
      NotifyRoom(roomName, Notices.Here(session.nickname), session);
    }

    method Answer(text: string, session: Session)
      requires Valid() && session in known
      modifies session`strand
      ensures Valid() && Tables() == old(Tables())
      ensures Boxes() == Notices.Posted(old(Boxes()), {session}, Push(text))
    {
      session.Deliver(text);
    }

    method MoveTo(roomName: string, session: Session)
      requires Valid() && session in known && !stopped
      modifies this`rooms, rooms.Values, known`strand, session`currentRoom
      ensures Valid() && roomName in rooms && Expired() == old(Expired())
      ensures var after := Registry.JoinRoom(old(Tables()), session, roomName).0;
              RoomTable() == after.rooms && FieldTable() == after.fields
      ensures Boxes() == Notices.MoveBoxes(old(Boxes()), old(Tables()), session, roomName)
    {
      ghost var before, boxes := Tables(), Boxes();
      LeaveForAnother(roomName, session);
      ghost var rooms1, fields1, boxes1 := RoomTable(), FieldTable(), Boxes();
      EnterRoom(roomName, session);
      RoomsMoved(before, session, roomName, rooms1, fields1, RoomTable(), FieldTable());
      MovedBoxes(before, session, roomName, boxes, rooms1, boxes1, Boxes());
    }

    lemma RoomsMoved(st: State<Session>, s: Session, r: string,
                     rooms1: map<string, set<Session>>, fields1: map<Session, Fields>,
                     rooms2: map<string, set<Session>>, fields2: map<Session, Fields>)
      requires s in st.fields && !st.stopped && rooms1 == Notices.RoomsLeft(st, s, r)
      requires s in fields1 && fields1 == st.fields[s := st.fields[s].(room := fields1[s].room)]
      requires rooms2 == rooms1[r := Entered(Participants(rooms1, r), s)]
      requires fields2 == fields1[s := fields1[s].(room := r)]
      ensures var after := Registry.JoinRoom(st, s, r).0; rooms2 == after.rooms && fields2 == after.fields
    {
    }

    lemma MovedBoxes(st: State<Session>, s: Session, r: string, boxes: Notices.Boxes<Session>,
                     rooms1: map<string, set<Session>>, boxes1: Notices.Boxes<Session>, boxes2: Notices.Boxes<Session>)
      requires s in st.fields && rooms1 == Notices.RoomsLeft(st, s, r)
      requires var f := st.fields[s];
               boxes1 == if f.room != "" && f.room != r && f.room in st.rooms
                         then Notices.AfterRemoval(boxes, st.rooms[f.room], s, f.nick, f.room) else boxes
      requires boxes2 == Notices.AfterEntering(boxes1, Participants(rooms1, r), s)
      ensures boxes2 == Notices.MoveBoxes(boxes, st, s, r)
    {
    }

    /** The first half of joining: out of the current room if that is another one. */
    method LeaveForAnother(roomName: string, session: Session)
      requires Valid() && session in known
      modifies this`rooms, rooms.Values, known`strand, session`currentRoom
      ensures Valid() && rooms.Values <= old(rooms.Values)
      ensures RoomTable() == if old(session.currentRoom) != "" && old(session.currentRoom) != roomName
                             then Without(old(RoomTable()), old(session.currentRoom), session) else old(RoomTable())
      ensures Boxes() == if old(session.currentRoom) != "" && old(session.currentRoom) != roomName
                            && old(session.currentRoom in rooms)
                         then Notices.AfterRemoval(old(Boxes()), old(RoomTable())[old(session.currentRoom)], session,
                                                   session.nickname, old(session.currentRoom))
                         else old(Boxes())
      ensures Expired() == old(Expired())
      ensures FieldTable() == old(FieldTable())[session := old(FieldTable())[session].(room := session.currentRoom)]
    {
      var oldRoomName := session.currentRoom;
      if oldRoomName != "" && oldRoomName != roomName && oldRoomName in rooms {
        RemoveFromRoom(oldRoomName, session);
      }
    }

    /** The second half: finds or creates the room, which becomes the current one whether it refuses or not. */
    method EnterRoom(roomName: string, session: Session)
      requires Valid() && session in known
      modifies this`rooms, rooms.Values, known`strand, session`currentRoom
      ensures Valid() && session.currentRoom == roomName && roomName in rooms
      ensures RoomTable() == old(RoomTable())[roomName := Entered(Participants(old(RoomTable()), roomName), session)]
      ensures Boxes() == Notices.AfterEntering(old(Boxes()), Participants(old(RoomTable()), roomName), session)
      ensures Expired() == old(Expired())
      ensures FieldTable() == old(FieldTable())[session := old(FieldTable())[session].(room := session.currentRoom)]
    {
      FindOrCreateRoom(roomName);
      AddParticipant(roomName, session);
      EnteredTable(old(RoomTable()), roomName, session);
    }

    lemma EnteredTable(rooms0: map<string, set<Session>>, r: string, s: Session)
      ensures var created := rooms0[r := Participants(rooms0, r)];
              created[r := Entered(created[r], s)] == rooms0[r := Entered(Participants(rooms0, r), s)]
    {
    }

    method FindOrCreateRoom(roomName: string)
      requires Valid()
      modifies this`rooms
      ensures Valid() && roomName in rooms
      ensures RoomTable() == old(RoomTable())[roomName := Participants(old(RoomTable()), roomName)]
      ensures rooms[roomName] in old(rooms.Values) || fresh(rooms[roomName])
      ensures FieldTable() == old(FieldTable()) && Expired() == old(Expired()) && Boxes() == old(Boxes())
    {
      if roomName !in rooms {
        var target := new ChatRoom(roomName);
        rooms := rooms[roomName := target];
      }
    }

    method AddParticipant(roomName: string, session: Session)
      requires Valid() && session in known && roomName in rooms
      modifies rooms[roomName], known`strand, session`currentRoom
      ensures Valid() && session.currentRoom == roomName
      ensures RoomTable() == old(RoomTable())[roomName := Entered(old(RoomTable())[roomName], session)]
      ensures Boxes() == Notices.AfterEntering(old(Boxes()), old(RoomTable())[roomName], session)
      ensures Expired() == old(Expired())
      ensures FieldTable() == old(FieldTable())[session := old(FieldTable())[session].(room := session.currentRoom)]
    {
      LetIn(roomName, session);
      SetCurrentRoom(roomName, session);
    }

    method LetIn(roomName: string, session: Session)
      requires Valid() && session in known && roomName in rooms
      modifies rooms[roomName], known`strand, session`currentRoom
      ensures Valid()
      ensures RoomTable() == old(RoomTable())[roomName := Entered(old(RoomTable())[roomName], session)]
      ensures Boxes() == Notices.AfterEntering(old(Boxes()), old(RoomTable())[roomName], session)
      ensures Expired() == old(Expired())
      ensures FieldTable() == old(FieldTable())[session := old(FieldTable())[session].(room := session.currentRoom)]
    {
      AskToJoin(roomName, session);
      SetRoom(session, old(FieldTable()));
    }

    method AskToJoin(roomName: string, session: Session)
      requires Valid() && session in known && roomName in rooms
      modifies rooms[roomName], known`strand, session`currentRoom
      ensures Valid()
      ensures RoomTable() == old(RoomTable())[roomName := Entered(old(RoomTable())[roomName], session)]
      ensures Boxes() == Notices.AfterEntering(old(Boxes()), old(RoomTable())[roomName], session)
      ensures Expired() == old(Expired())
    {
      ghost var before, boxes := RoomTable(), Boxes();
      rooms[roomName].Join(session);
      SetParticipants(roomName, before);
      BoxesEntered(boxes, before[roomName], session);
    }

    lemma SetParticipants(roomName: string, before: map<string, set<Session>>)
      requires roomName in rooms && before.Keys == rooms.Keys
      requires forall r :: r in rooms && r != roomName ==> rooms[r].participants == before[r]
      ensures RoomTable() == before[roomName := rooms[roomName].participants]
    {
    }

    lemma BoxesEntered(before: Notices.Boxes<Session>, members: set<Session>, s: Session)
      requires before.Keys == known
      requires forall t :: t in known ==> t.strand == before[t] + Notices.HeardOfEntering(members, s, t)
      ensures Boxes() == Notices.AfterEntering(before, members, s)
    {
      if |members| >= MAX_PARTICIPANTS {
        BoxesPosted(before, {s}, Push(Notices.FULL));
      } else {
        BoxesPosted(before, members + {s}, Push(Notices.JOINED));
      }
    }

    method SetCurrentRoom(roomName: string, session: Session)
      requires Valid() && session in known
      modifies session`currentRoom
      ensures Valid() && RoomTable() == old(RoomTable()) && session.currentRoom == roomName && Boxes() == old(Boxes())
      ensures Expired() == old(Expired())
      ensures FieldTable() == old(FieldTable())[session := old(FieldTable())[session].(room := session.currentRoom)]
    {
      session.currentRoom := roomName;
      SetRoom(session, old(FieldTable()));
    }

    /** A notice to the others in a room. */
    method NotifyRoom(roomName: string, text: string, session: Session)
      requires Valid() && session in known && roomName in rooms && text != "" && text[0] == '*'
      modifies rooms[roomName].participants`strand
      ensures Valid() && RoomTable() == old(RoomTable())
      ensures FieldTable() == old(FieldTable()) && Expired() == old(Expired())
      ensures Boxes() == Notices.Posted(old(Boxes()), RoomTable()[roomName] - {session}, Push(text))
    {
      rooms[roomName].Broadcast(text, session);
      BoxesPosted(old(Boxes()), rooms[roomName].participants - {session}, Push(text));
    }

    lemma BoxesPosted(before: Notices.Boxes<Session>, targets: set<Session>, task: Task<string>)
      requires before.Keys == known
      requires forall t :: t in known ==> t.strand == before[t] + if t in targets then [task] else []
      ensures Boxes() == Notices.Posted(before, targets, task)
    {
      forall t | t in known ensures Boxes()[t] == Notices.Posted(before, targets, task)[t] {
        assert before[t] + [] == before[t];
      }
    }

    /** What joining another room and leaving share: notice, removal, and dropping an empty room. */
    method RemoveFromRoom(roomName: string, session: Session)
      requires Valid() && session in known && roomName in rooms
      modifies this`rooms, rooms[roomName], known`strand, session`currentRoom
      ensures Valid()
      ensures RoomTable() == Without(old(RoomTable()), roomName, session)
      ensures rooms.Values <= old(rooms.Values)
      ensures Expired() == old(Expired())
      ensures FieldTable() == old(FieldTable())[session := old(FieldTable())[session].(room := session.currentRoom)]
      ensures Boxes() == Notices.AfterRemoval(old(Boxes()), old(RoomTable())[roomName],
                                              session, session.nickname, roomName)
    {
      NotifyRoom(roomName, Notices.Gone(session.nickname, roomName), session);
      Remove(roomName, session);
    }

    method Remove(roomName: string, session: Session)
      requires Valid() && session in known && roomName in rooms
      modifies this`rooms, rooms[roomName], known`strand, session`currentRoom
      ensures Valid()
      ensures RoomTable() == Without(old(RoomTable()), roomName, session)
      ensures rooms.Values <= old(rooms.Values)
      ensures Expired() == old(Expired())
      ensures FieldTable() == old(FieldTable())[session := old(FieldTable())[session].(room := session.currentRoom)]
      ensures Boxes() == if session in old(RoomTable())[roomName]
                         then Notices.Posted(old(Boxes()), old(RoomTable())[roomName] - {session}, Push(Notices.LEFT))
                         else old(Boxes())
    {
      DropParticipant(roomName, session);
      SetRoom(session, old(FieldTable()));
    }

    method DropParticipant(roomName: string, session: Session)
      requires Valid() && session in known && roomName in rooms
      modifies this`rooms, rooms[roomName], known`strand, session`currentRoom
      ensures Valid()
      ensures RoomTable() == Without(old(RoomTable()), roomName, session)
      ensures rooms.Values <= old(rooms.Values)
      ensures Expired() == old(Expired())
      ensures Boxes() == if session in old(RoomTable())[roomName]
                         then Notices.Posted(old(Boxes()), old(RoomTable())[roomName] - {session}, Push(Notices.LEFT))
                         else old(Boxes())
    {
      TakeOutParticipant(roomName, session);
      if rooms[roomName].participants == {} {
        EraseRoom(roomName);
      }
    }

    method TakeOutParticipant(roomName: string, session: Session)
      requires Valid() && session in known && roomName in rooms
      modifies rooms[roomName], known`strand, session`currentRoom
      ensures Valid()
      ensures RoomTable() == old(RoomTable())[roomName := old(RoomTable())[roomName] - {session}]
      ensures Expired() == old(Expired())
      ensures Boxes() == if session in old(RoomTable())[roomName]
                         then Notices.Posted(old(Boxes()), old(RoomTable())[roomName] - {session}, Push(Notices.LEFT))
                         else old(Boxes())
    {
      ghost var before, boxes := RoomTable(), Boxes();
      rooms[roomName].Leave(session);
      SetParticipants(roomName, before);
      BoxesLeft(boxes, before[roomName], session);
    }

    lemma BoxesLeft(before: Notices.Boxes<Session>, members: set<Session>, s: Session)
      requires before.Keys == known
      requires forall t :: t in known ==>
                 t.strand == before[t] + if s in members && t in members && t != s then [Push(Notices.LEFT)] else []
      ensures Boxes() == if s in members then Notices.Posted(before, members - {s}, Push(Notices.LEFT)) else before
    {
      if s in members {
        BoxesPosted(before, members - {s}, Push(Notices.LEFT));
      } else {
        BoxesPosted(before, {}, Push(Notices.LEFT));
        assert Notices.Posted(before, {}, Push(Notices.LEFT)) == before;
      }
    }

    method EraseRoom(roomName: string)
      requires Valid()
      modifies this`rooms
      ensures Valid() && RoomTable() == old(RoomTable()) - {roomName} && rooms.Values <= old(rooms.Values)
      ensures FieldTable() == old(FieldTable()) && Expired() == old(Expired()) && Boxes() == old(Boxes())
    {
      rooms := rooms - {roomName};
    }

    lemma SetRoom(session: Session, before: map<Session, Fields>)
      requires session in known && before.Keys == known
      requires forall s :: s in known && s != session ==> before[s] == FieldTable()[s]
      requires FieldTable()[session] == before[session].(room := session.currentRoom)
      ensures FieldTable() == before[session := before[session].(room := session.currentRoom)]
    {
    }

    method LeaveRoom(roomName: string, session: Session) returns (success: bool)
      requires Valid() && session in known
      modifies this`rooms, rooms.Values, known`strand, session`currentRoom
      ensures Valid()
      ensures success <==> !stopped && roomName in old(rooms)
      ensures Tables() == Registry.LeaveRoom(old(Tables()), session, roomName).0
      ensures Boxes() == Notices.LeaveBoxes(old(Boxes()), old(Tables()), session, roomName)
      ensures forall t :: t in known ==>
                t.strand == old(t.strand) +
                  if stopped || roomName !in old(rooms) then []
                  else if t == session then [Push("* left " + roomName)]
                  else if t in old(RoomTable())[roomName] then
                    [Push("* " + session.nickname + " left " + roomName)]
                    + if session in old(RoomTable())[roomName] then [Push("* left")] else []
                  else []
    {
      if stopped || roomName !in rooms {
        return false;
      }
      ghost var before, boxes := Tables(), Boxes();
      Depart(roomName, session);
      assert Tables() == before.(rooms := RoomTable(), fields := FieldTable());
      HeardOfLeave(before, boxes, session, roomName);
      return true;
    }

    lemma HeardOfLeave(st: State<Session>, boxes: Notices.Boxes<Session>, s: Session, r: string)
      requires s in st.fields && boxes.Keys == known && !st.stopped && r in st.rooms
      requires Boxes() == Notices.LeaveBoxes(boxes, st, s, r)
      ensures forall t :: t in known ==>
                t.strand == boxes[t] +
                  if t == s then [Push("* left " + r)]
                  else if t in st.rooms[r] then
                    [Push("* " + st.fields[s].nick + " left " + r)] + if s in st.rooms[r] then [Push("* left")] else []
                  else []
    {
      forall t | t in known ensures t.strand == Notices.LeaveBoxes(boxes, st, s, r)[t] {
        assert t.strand == Boxes()[t];
      }
      forall t | t in known {
        Notices.WhoHearsOfALeave(boxes, st, s, r, t);
      }
    }

    method Depart(roomName: string, session: Session)
      requires Valid() && session in known && !stopped && roomName in rooms
      modifies this`rooms, rooms.Values, known`strand, session`currentRoom
      ensures Valid() && Expired() == old(Expired())
      ensures var after := Registry.LeaveRoom(old(Tables()), session, roomName).0;
              RoomTable() == after.rooms && FieldTable() == after.fields
      ensures Boxes() == Notices.LeaveBoxes(old(Boxes()), old(Tables()), session, roomName)
    {
      ghost var before := Tables();
      RemoveFromRoom(roomName, session);
      ghost var fields1 := FieldTable();
      LeftRoom(roomName, session);
      LeftTables(before, session, roomName, fields1, RoomTable(), FieldTable());
    }

    lemma LeftTables(st: State<Session>, s: Session, r: string, fields1: map<Session, Fields>,
                     rooms2: map<string, set<Session>>, fields2: map<Session, Fields>)
      requires s in st.fields && !st.stopped && r in st.rooms
      requires s in fields1 && fields1 == st.fields[s := st.fields[s].(room := fields1[s].room)]
      requires rooms2 == Without(st.rooms, r, s)
      requires fields2 == fields1[s := fields1[s].(room := "")]
      ensures st.(rooms := rooms2, fields := fields2) == Registry.LeaveRoom(st, s, r).0
    {
    }

    method LeftRoom(roomName: string, session: Session)
      requires Valid() && session in known
      modifies session`currentRoom, session`strand
      ensures Valid() && RoomTable() == old(RoomTable()) && session.currentRoom == ""
      ensures Expired() == old(Expired())
      ensures FieldTable() == old(FieldTable())[session := old(FieldTable())[session].(room := session.currentRoom)]
      ensures Boxes() == Notices.Posted(old(Boxes()), {session}, Push(Notices.Left(roomName)))
    {
      SetCurrentRoom("", session);
      Answer(Notices.Left(roomName), session);
    }

    method LeaveAllRoomsImpl(session: Session)
      requires Valid() && session in known
      modifies this`rooms, rooms.Values, known`strand, session`currentRoom
      ensures Valid()
      ensures Tables() == if old(session.currentRoom) == "" then old(Tables())
                          else Registry.LeaveRoom(old(Tables()), session, old(session.currentRoom)).0
      ensures Boxes() == if old(session.currentRoom) == "" then old(Boxes())
                         else Notices.LeaveBoxes(old(Boxes()), old(Tables()), session, old(session.currentRoom))
    {
      if session.currentRoom != "" {
        var left := LeaveRoom(session.currentRoom, session);
      }
    }

    /** The handler of a disconnect; `nickname` is the session's nickname at the time of the call. */
    method Leave(session: Session, nickname: string)
      requires Valid() && session in known
      modifies this`sessions, this`nicknames, this`rooms, rooms.Values, known`strand, session`currentRoom
      ensures Valid()
      ensures Tables() == Registry.Leave(old(Tables()), session, nickname)
      ensures Boxes() == Notices.DisconnectBoxes(old(Boxes()), old(Tables()), session, nickname)
      ensures var there, from := old(RoomTable()), old(session.currentRoom);
              forall t :: t in known ==>
                t.strand == old(t.strand) +
                  (if stopped || from == "" || from !in there then []
                   else if t == session then [Push("* left " + from)]
                   else if t in there[from] then
                     [Push("* " + session.nickname + " left " + from)]
                     + if session in there[from] then [Push("* left")] else []
                   else []) +
                  if !stopped && session in old(sessions) && t in sessions
                     && nickname != "" && nickname != session.remoteId
                  then [Deliver("* " + nickname + " left")] else []
    {
      if stopped {
        return;
      }
      ghost var st, boxes := Tables(), Boxes();
      Drop(nickname, session);
      HeardOfDisconnect(st, boxes, session, nickname);
    }

    method Drop(nickname: string, session: Session)
      requires Valid() && session in known && !stopped
      modifies this`sessions, this`nicknames, this`rooms, rooms.Values, known`strand, session`currentRoom
      ensures Valid()
      ensures Tables() == Registry.Leave(old(Tables()), session, nickname)
      ensures Boxes() == Notices.DisconnectBoxes(old(Boxes()), old(Tables()), session, nickname)
    {
      LeaveAllRoomsImpl(session);
      var announced := Unlist(nickname, session);
      AnnounceDeparture(nickname, announced);
    }

    lemma HeardOfDisconnect(st: State<Session>, boxes: Notices.Boxes<Session>, s: Session, nick: string)
      requires s in st.fields && boxes.Keys == known && !st.stopped && sessions == st.sessions - {s}
      requires Boxes() == Notices.DisconnectBoxes(boxes, st, s, nick)
      ensures var f := st.fields[s];
              forall t :: t in known ==>
                t.strand == boxes[t] +
                  (if f.room == "" || f.room !in st.rooms then []
                   else if t == s then [Push("* left " + f.room)]
                   else if t in st.rooms[f.room] then
                     [Push("* " + f.nick + " left " + f.room)] + if s in st.rooms[f.room] then [Push("* left")] else []
                   else []) +
                  if s in st.sessions && nick != "" && nick != f.remote && t in sessions
                  then [Deliver("* " + nick + " left")] else []
    {
      forall t | t in known ensures t.strand == Notices.DisconnectBoxes(boxes, st, s, nick)[t] {
        assert t.strand == Boxes()[t];
      }
      forall t | t in known {
        Notices.WhoHearsOfADisconnect(boxes, st, s, nick, t);
      }
    }

    /** Takes the session off the two lists; says whether its departure is to be announced. */
    method Unlist(nickname: string, session: Session) returns (announced: bool)
      requires Valid()
      modifies this`sessions, this`nicknames
      ensures Valid()
      ensures Tables() == old(Tables()).(
                nicknames := if nickname != "" && nickname != session.remoteId
                             then Unregister(old(nicknames), nickname) else old(nicknames),
                sessions := old(sessions) - {session})
      ensures announced <==> session in old(sessions) && nickname != "" && nickname != session.remoteId
    {
      if nickname != "" && nickname != session.remoteId {
        UnregisterNickname(nickname);
      }
      announced := session in sessions && nickname != "" && nickname != session.remoteId;
      sessions := sessions - {session};
      assert RoomTable() == old(RoomTable()) && FieldTable() == old(FieldTable()) && Expired() == old(Expired());
    }

    method AnnounceDeparture(nickname: string, announced: bool)
      requires Valid()
      modifies sessions`strand
      ensures Valid() && Tables() == old(Tables())
      ensures Boxes() == if announced
                         then Notices.Posted(old(Boxes()), sessions, Deliver("* " + nickname + " left"))
                         else old(Boxes())
    {
      if announced {
        BroadcastImpl("* " + nickname + " left", null);
        BoxesPosted(old(Boxes()), sessions, Deliver("* " + nickname + " left"));
      }
    }

    /** Hands a room message to the room's participants; says whether the room exists. */
    method BroadcastToRoom(roomName: string, message: string, sender: Session?) returns (success: bool)
      requires Valid()
      modifies known`strand
      ensures Valid() && Tables() == old(Tables())
      ensures success <==> !stopped && roomName in rooms
      ensures forall t :: t in known ==>
                t.strand == old(t.strand) +
                  if stopped || roomName !in rooms || t !in rooms[roomName].participants || t == sender then []
                  else if message != "" && message[0] == '*' then [Push(message)]
                  else [Push("[" + (if sender == null then "system" else sender.nickname) + " @ " + roomName + "]: "
                             + message + "\r\n")]
    {
      if stopped || roomName !in rooms {
        return false;
      }
      rooms[roomName].Broadcast(message, sender);
      return true;
    }

    /** The part of `stop` that runs at once: later handlers see the flag. The first call is to post `ClearAll`. */
    method RequestStop() returns (first: bool)
      requires Valid()
      modifies this`stopped
      ensures Valid() && first == !old(stopped)
      ensures Tables() == Apply(old(Tables()), Action.RequestStop)
    {
      first := !stopped;
      stopped := true;
    }

    /** The handler of `stop` on the server's strand: empties the tables and tells each session to stop, once. */
    method ClearAll()
      requires Valid()
      modifies this`sessions, this`nicknames, this`rooms, sessions`strand
      ensures Valid()
      ensures Tables() == Clear(old(Tables()))
      ensures forall t :: t in known ==> t.strand == old(t.strand) + if t in old(sessions) then [Stop] else []
    {
      var sessionsCopy := sessions;
      sessions := {};
      nicknames := map[];
      rooms := map[];
      TellToStop(sessionsCopy);
    }

    method TellToStop(targets: set<Session>)
      modifies targets`strand
      ensures forall t :: t in targets ==> t.strand == old(t.strand) + [Stop]
    {
      var rest := targets;
      while rest != {}
        invariant rest <= targets
        invariant forall t :: t in targets ==> t.strand == old(t.strand) + if t in rest then [] else [Stop]
        decreases rest
      {
        var t :| t in rest;
        t.strand := t.strand + [Stop];
        rest := rest - {t};
      }
    }
  }
}
