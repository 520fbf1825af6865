/** The nickname index: the inverse of the sessions' nicknames, and unaffected by lazy expiry. */
module Nicknames {
  import opened Registry
  import opened Wrappers

  /**
   Every key is the chosen nickname of its owner, connected or not, and every connected session with a
   chosen nickname owns its key.
   */
  ghost predicate NamesOwned<S>(st: State<S>) {
    && st.sessions <= st.fields.Keys && st.sessions !! st.expired && st.expired <= st.fields.Keys
    && (forall s :: s in st.fields ==> st.fields[s].nick != "")
    && (forall k :: k in st.nicknames ==>
          var owner := st.nicknames[k];
          owner in st.fields && st.fields[owner].nick == k && k != st.fields[owner].remote)
    && (forall s :: s in st.sessions && Chosen(st, s) ==>
          st.fields[s].nick in st.nicknames && st.nicknames[st.fields[s].nick] == s)
  }

  /** Besides, only connected sessions own keys. */
  ghost predicate NickIndex<S>(st: State<S>) {
    NamesOwned(st) && forall k :: k in st.nicknames ==> st.nicknames[k] in st.sessions
  }

  /** A connected session with a nickname of its own choice. */
  ghost predicate Chosen<S>(st: State<S>, s: S) {
    s in st.sessions && s in st.fields && st.fields[s].nick != st.fields[s].remote
  }

  /** Who owns which keys, that no session owns two, and that the chosen names of connected sessions are distinct. */
  lemma NamesOwnedMeaning<S>(st: State<S>)
    requires NamesOwned(st)
    ensures forall s, k :: s in st.sessions ==>
              ((k in st.nicknames && st.nicknames[k] == s) <==> (k == st.fields[s].nick && k != st.fields[s].remote))
    ensures forall k, k' :: k in st.nicknames && k' in st.nicknames && st.nicknames[k] == st.nicknames[k'] ==> k == k'
    ensures forall s, t :: Chosen(st, s) && Chosen(st, t) && st.fields[s].nick == st.fields[t].nick ==> s == t
  {
  }

  // ----- what a registration does -----

  /**
   A registration is refused for a destroyed session and for a name another living session holds, and then changes
   nothing; it ends in an error when the session goes by a chosen name that is not in the index. Otherwise the
   session gets the name.
   */
  lemma WhoGetsAName<S>(st: State<S>, s: S, nick: string)
    requires s in st.fields
    ensures var (st', outcome) := Register(st, s, nick);
            var f, before, after := st.fields[s], st.nicknames, st'.nicknames;
            var taken := nick in before && before[nick] !in st.expired && before[nick] != s;
            && (outcome.Refused? <==> s in st.expired || taken)
            && (outcome.EndLookup? <==>
                  && s !in st.expired && !taken && f.nick !in before
                  && f.nick != "" && f.nick != nick && f.nick != f.remote)
            && (outcome.Refused? ==> after == before)
            && (outcome.Registered? ==> nick in after && after[nick] == s)
            && st' == st.(nicknames := after, fields := if outcome.Registered? then st.fields[s := f.(nick := nick)]
                                                      else st.fields)
  {
  }

  /** No key but the new and the old name changes; the old one is given up unless another living session has it. */
  lemma WhoKeepsAName<S>(st: State<S>, s: S, nick: string)
    requires s in st.fields
    ensures var (st', outcome) := Register(st, s, nick);
            var f, before, after := st.fields[s], st.nicknames, st'.nicknames;
            && (forall k :: k in after && k != nick ==> k in before && after[k] == before[k])
            && (forall k :: k in before && k != nick && k != f.nick ==> k in after)
            && (f.nick in before && f.nick != nick ==>
                  (f.nick in after <==>
                     !outcome.Registered? || f.nick == "" || f.nick == f.remote
                     || (before[f.nick] != s && before[f.nick] !in st.expired)))
            && (outcome.EndLookup? ==> (nick in after <==> nick in before && before[nick] !in st.expired))
  {
  }

  lemma ValidKeysStep<S>(st: State<S>, a: Action<S>)
    requires Possible(st, a)
    ensures forall k :: k in Apply(st, a).nicknames ==> k in st.nicknames || ValidNick(k)
  {
    if a.DoRegister? {
      WhoKeepsAName(st, a.s, a.nick);
    }
  }

  /** In every run, every name in the index has at most 20 characters, no space, and is not that of the server. */
  lemma {:induction false} IndexedNamesAreValid<S>(states: seq<State<S>>, actions: seq<Action<S>>, i: nat, k: string)
    requires Run(states, actions) && i < |states| && k in states[i].nicknames
    ensures 0 < |k| <= 20 && k != "Server" && k != "system"
    ensures forall c :: c in k ==> c !in {' ', '\t', '\n', '\r', '\U{0B}', '\U{0C}'}
  {
    if i > 0 {
      ValidKeysStep(states[i - 1], actions[i - 1]);
      if k in states[i - 1].nicknames {
        IndexedNamesAreValid(states, actions, i - 1, k);
      } else {
        assert ValidNick(k);
      }
    }
  }

  // ----- when a registration fails -----

  /**
   Whether a registration would look up an old nickname that is not there, told beforehand: a session
   that was dropped but lives on asks for an available name, and its old chosen nickname is gone.
   */
  ghost predicate WillMiss<S>(st: State<S>, s: S, nick: string) {
    && s in st.fields && s !in st.sessions && s !in st.expired
    && Available(st.nicknames, st.expired, nick, s)
    && st.fields[s].nick != st.fields[s].remote && st.fields[s].nick != nick && st.fields[s].nick !in st.nicknames
  }

  /** Whether a registration will be refused, told beforehand. */
  ghost predicate WillBeRefused<S>(st: State<S>, s: S, nick: string) {
    s in st.expired || !Available(st.nicknames, st.expired, nick, s)
  }

  /** The unchecked lookup of the old nickname misses exactly then, and a registration is refused exactly then. */
  lemma LookupMissesExactly<S>(st: State<S>, s: S, nick: string)
    requires NamesOwned(st) && s in st.fields
    ensures Register(st, s, nick).1.EndLookup? <==> WillMiss(st, s, nick)
    ensures Register(st, s, nick).1.Refused? <==> WillBeRefused(st, s, nick)
  {
  }

  /** So a registration by a connected session finds its old nickname in the index. */
  lemma LookupNeverMisses<S>(st: State<S>, s: S, nick: string)
    requires NamesOwned(st) && s in st.sessions
    ensures !Register(st, s, nick).1.EndLookup?
    ensures Register(st, s, nick).1.Registered? <==> Available(st.nicknames, st.expired, nick, s)
  {
    LookupMissesExactly(st, s, nick);
  }

  // ----- which steps keep the keys with their owners -----

  lemma FailureKeepsNames<S>(st: State<S>, s: S, nick: string)
    requires NamesOwned(st) && s in st.fields && !Register(st, s, nick).1.Registered?
    ensures NamesOwned(Register(st, s, nick).0)
  {
    assert forall t :: t in st.sessions && Chosen(Register(st, s, nick).0, t) ==> Chosen(st, t);
  }

  lemma SuccessKeepsNames<S>(st: State<S>, s: S, nick: string)
    requires NamesOwned(st) && s in st.fields && Register(st, s, nick).1.Registered?
    requires nick != "" && nick != st.fields[s].remote
    ensures NamesOwned(Register(st, s, nick).0)
  {
    assert forall t :: t in st.sessions && t != s && Chosen(Register(st, s, nick).0, t) ==> Chosen(st, t);
  }

  lemma RegisterKeepsNames<S>(st: State<S>, s: S, nick: string)
    requires NamesOwned(st) && s in st.fields && nick != ""
    ensures NamesOwned(Register(st, s, nick).0)
            <==> WillBeRefused(st, s, nick) || WillMiss(st, s, nick) || nick != st.fields[s].remote
  {
    LookupMissesExactly(st, s, nick);
    var (st', outcome) := Register(st, s, nick);
    if !outcome.Registered? {
      FailureKeepsNames(st, s, nick);
    } else if nick != st.fields[s].remote {
      SuccessKeepsNames(st, s, nick);
    } else {
      assert nick in st'.nicknames && st'.nicknames[nick] == s;
    }
  }

  /** What the rest of the tables and fields is after a disconnect, as far as nicknames go. */
  lemma LeaveNames<S>(st: State<S>, s: S, nick: string)
    requires s in st.fields && !st.stopped
    ensures var st' := Leave(st, s, nick);
            && st'.fields.Keys == st.fields.Keys
            && (forall t :: t in st.fields ==>
                  st'.fields[t].nick == st.fields[t].nick && st'.fields[t].remote == st.fields[t].remote)
            && st'.sessions == st.sessions - {s} && st'.expired == st.expired
            && st'.nicknames ==
                  if nick != "" && nick != st.fields[s].remote then st.nicknames - {nick} else st.nicknames
  {
  }

  /** Whether a disconnect that was called under the nickname `nick` will take a name from another session. */
  ghost predicate TakesForeignName<S>(st: State<S>, s: S, nick: string) {
    s in st.fields && nick != "" && nick != st.fields[s].remote && nick in st.nicknames && st.nicknames[nick] != s
  }

  lemma LeaveKeepsNames<S>(st: State<S>, s: S, nick: string)
    requires NamesOwned(st) && s in st.fields
    ensures NamesOwned(Leave(st, s, nick))
            <==> st.stopped || !(TakesForeignName(st, s, nick) && st.nicknames[nick] in st.sessions)
  {
    if !st.stopped {
      LeaveNames(st, s, nick);
      var st' := Leave(st, s, nick);
      if TakesForeignName(st, s, nick) && st.nicknames[nick] in st.sessions {
        var holder := st.nicknames[nick];
        assert Chosen(st', holder) && st'.fields[holder].nick == nick && nick !in st'.nicknames;
      } else {
        forall t | Chosen(st', t)
          ensures st'.fields[t].nick in st'.nicknames && st'.nicknames[st'.fields[t].nick] == t
        {
          assert Chosen(st, t);
        }
      }
    }
  }

  lemma JoinKeepsNames<S>(st: State<S>, s: S)
    requires NamesOwned(st) && s in st.fields && s !in st.expired
    ensures NamesOwned(Join(st, s))
            <==> st.stopped || st.fields[s].nick == st.fields[s].remote
                 || (st.fields[s].nick in st.nicknames && st.nicknames[st.fields[s].nick] == s)
  {
    var st' := Join(st, s);
    if NamesOwned(st') && !st.stopped && st.fields[s].nick != st.fields[s].remote {
      assert Chosen(st', s);
    } else if !NamesOwned(st') && !st.stopped {
      assert forall t :: Chosen(st', t) && t != s ==> Chosen(st, t);
    }
  }

  lemma RoomStepKeepsNames<S>(st: State<S>, a: Action<S>)
    requires NamesOwned(st) && Possible(st, a) && (a.DoJoinRoom? || a.DoLeaveRoom?)
    ensures NamesOwned(Apply(st, a))
  {
    var st' := Apply(st, a);
    assert st'.fields.Keys == st.fields.Keys;
    assert forall t :: t in st.fields ==>
             st'.fields[t].nick == st.fields[t].nick && st'.fields[t].remote == st.fields[t].remote;
    assert forall t :: t in st.sessions && Chosen(st', t) ==> Chosen(st, t);
  }

  lemma CreateKeepsNames<S>(st: State<S>, s: S, remote: string)
    requires NamesOwned(st) && Possible(st, Create(s, remote))
    ensures NamesOwned(Apply(st, Create(s, remote)))
  {
    var st' := Apply(st, Create(s, remote));
    assert forall t :: t in st.sessions && Chosen(st', t) ==> Chosen(st, t);
  }

  lemma OtherStepKeepsNames<S>(st: State<S>, a: Action<S>)
    requires NamesOwned(st) && Possible(st, a)
    requires a.ListUsers? || a.RequestStop? || a.DoClear? || a.Expire?
    ensures NamesOwned(Apply(st, a))
  {
    assert forall t :: t in st.sessions && Chosen(Apply(st, a), t) ==> Chosen(st, t);
  }

  /**
   What keeps the keys with their owners. A session is listed under its default name or one it owns; a
   disconnect does not take the name of a connected one; and a session does not get its own remote id.
   */
  ghost predicate KeepsNames<S>(st: State<S>, a: Action<S>) {
    match a
    case DoJoin(s) =>
      st.stopped
      || (s in st.fields && (st.fields[s].nick == st.fields[s].remote
                             || (st.fields[s].nick in st.nicknames && st.nicknames[st.fields[s].nick] == s)))
    case DoLeave(s, nick) => st.stopped || !(TakesForeignName(st, s, nick) && st.nicknames[nick] in st.sessions)
    case DoRegister(s, nick) =>
      WillBeRefused(st, s, nick) || WillMiss(st, s, nick) || (s in st.fields && nick != st.fields[s].remote)
    case _ => true
  }

  /** Any step keeps the keys with their owners exactly when it is one of those. */
  lemma StepKeepsExactly<S>(st: State<S>, a: Action<S>)
    requires NamesOwned(st) && Possible(st, a)
    ensures NamesOwned(Apply(st, a)) <==> KeepsNames(st, a)
  {
    match a
    case DoJoin(s) => JoinKeepsNames(st, s);
    case DoLeave(s, nick) => LeaveKeepsNames(st, s, nick);
    case DoRegister(s, nick) => RegisterKeepsNames(st, s, nick);
    case Create(s, remote) => CreateKeepsNames(st, s, remote);
    case DoJoinRoom(_, _) => RoomStepKeepsNames(st, a);
    case DoLeaveRoom(_, _) => RoomStepKeepsNames(st, a);
    case _ => OtherStepKeepsNames(st, a);
  }

  lemma StartOwned<S>()
    ensures NickIndex(Start<S>())
  {
  }

  /** In any run the keys are with their owners in all states so far exactly when all steps so far keep them. */
  lemma {:induction false} NamesOwnedExactly<S>(states: seq<State<S>>, actions: seq<Action<S>>, i: nat)
    requires Run(states, actions) && i < |states|
    ensures (forall k :: 0 <= k <= i ==> NamesOwned(states[k]))
            <==> forall k :: 0 <= k < i ==> KeepsNames(states[k], actions[k])
  {
    if i == 0 {
      StartOwned<S>();
    } else {
      NamesOwnedExactly(states, actions, i - 1);
      if NamesOwned(states[i - 1]) {
        StepKeepsExactly(states[i - 1], actions[i - 1]);
        assert states[i - 1 + 1] == Apply(states[i - 1], actions[i - 1]);
      }
    }
  }

  /** The guards that the callers can see to are enough. */
  lemma MindingKeepsNames<S>(st: State<S>, a: Action<S>)
    requires NamesOwned(st) && Possible(st, a) && MindsNames(st, a)
    ensures KeepsNames(st, a)
  {
    if a.DoLeave? && !st.stopped && a.s in st.sessions && Chosen(st, a.s) {
      assert st.nicknames[st.fields[a.s].nick] == a.s;
    }
  }

  /**
   In every run whose sessions join under their default name, are disconnected once and under their
   nickname, and leave their remote id alone, all steps keep the keys with their owners, whatever dropped
   sessions register and whichever rooms are joined or left. So a connected session owns exactly the key of
   its chosen nickname, and its registrations find their old one.
   */
  lemma {:induction false} NamesOwnedInRuns<S>(states: seq<State<S>>, actions: seq<Action<S>>, i: nat)
    requires Run(states, actions) && i < |states|
    requires forall j :: 0 <= j < i ==> MindsNames(states[j], actions[j])
    ensures NamesOwned(states[i])
    ensures forall j :: 0 <= j < i ==> KeepsNames(states[j], actions[j])
  {
    if i == 0 {
      StartOwned<S>();
    } else {
      NamesOwnedInRuns(states, actions, i - 1);
      MindingKeepsNames(states[i - 1], actions[i - 1]);
      StepKeepsExactly(states[i - 1], actions[i - 1]);
    }
  }

  /**
   At every state of a run whose steps keep the names: a registration looks up an old nickname that is not
   there exactly when it comes from a session that was dropped with a nickname of its own, which is gone,
   and asks for an available name. A connected session gets every available name.
   */
  lemma LookupMissesInRuns<S>(states: seq<State<S>>, actions: seq<Action<S>>, i: nat, s: S, nick: string)
    requires Run(states, actions) && i < |states| && s in states[i].fields
    requires forall j :: 0 <= j < i ==> KeepsNames(states[j], actions[j])
    ensures Register(states[i], s, nick).1.EndLookup? <==> WillMiss(states[i], s, nick)
    ensures Register(states[i], s, nick).1.Refused? <==> WillBeRefused(states[i], s, nick)
    ensures s in states[i].sessions ==>
              (Register(states[i], s, nick).1.Registered?
               <==> Available(states[i].nicknames, states[i].expired, nick, s))
  {
    NamesOwnedExactly(states, actions, i);
    assert NamesOwned(states[i]);
    LookupMissesExactly(states[i], s, nick);
  }

  // ----- when only connected sessions own keys -----

  lemma FailedRegistration<S>(st: State<S>, s: S, nick: string)
    requires NickIndex(st) && s in st.fields && !Register(st, s, nick).1.Registered?
    ensures Register(st, s, nick).0 == st
  {
    assert forall k :: k in st.nicknames ==> st.nicknames[k] !in st.expired;
    if nick in st.nicknames {
      assert st.nicknames[nick] !in st.expired;
    }
  }

  /**
   Registering keeps the index an inverse of the connected sessions' nicknames exactly when it is refused,
   or would miss, or comes from a connected session that does not ask for its own remote id.
   */
  lemma RegisteringExactly<S>(st: State<S>, s: S, nick: string)
    requires NickIndex(st) && s in st.fields && nick != ""
    ensures NickIndex(Register(st, s, nick).0)
            <==> WillBeRefused(st, s, nick) || WillMiss(st, s, nick)
                 || (s in st.sessions && nick != st.fields[s].remote)
  {
    LookupMissesExactly(st, s, nick);
    RegisterKeepsNames(st, s, nick);
    if WillBeRefused(st, s, nick) || WillMiss(st, s, nick) {
      FailedRegistration(st, s, nick);
    } else {
      var st' := Register(st, s, nick).0;
      assert nick in st'.nicknames && st'.nicknames[nick] == s;
    }
  }

  /**
   A disconnect, which unregisters the name the session had when it was called, keeps the index an
   inverse exactly when nothing is left to do, or nobody else holds that name by now and the session,
   if it is still connected, still goes by it or by its default name.
   */
  lemma DisconnectingExactly<S>(st: State<S>, s: S, nick: string)
    requires NickIndex(st) && s in st.fields
    ensures NickIndex(Leave(st, s, nick))
            <==> st.stopped || (!TakesForeignName(st, s, nick)
                                && (Chosen(st, s) ==> nick == st.fields[s].nick))
  {
    LeaveKeepsNames(st, s, nick);
    if !st.stopped {
      LeaveNames(st, s, nick);
      var st', own := Leave(st, s, nick), st.fields[s].nick;
      if Chosen(st, s) && nick != own {
        assert own in st'.nicknames && st'.nicknames[own] == s;
      }
    }
  }

  /** Listing a session does so exactly when it does nothing new or the session has its default name. */
  lemma ListingExactly<S>(st: State<S>, s: S)
    requires NickIndex(st) && s in st.fields && s !in st.expired
    ensures NickIndex(Join(st, s)) <==> st.stopped || s in st.sessions || st.fields[s].nick == st.fields[s].remote
  {
    JoinKeepsNames(st, s);
    if s in st.sessions && st.fields[s].nick != st.fields[s].remote {
      assert Chosen(st, s);
    }
  }

  lemma StepKeepsIndex<S>(st: State<S>, a: Action<S>)
    requires NickIndex(st) && Possible(st, a) && ActsWhileConnected(st, a)
    ensures NickIndex(Apply(st, a))
  {
    match a
    case DoRegister(s, nick) => RegisteringExactly(st, s, nick);
    case DoLeave(s, nick) => LeavingWhileListed(st, s, nick);
    case _ =>
      MindingKeepsNames(st, a);
      StepKeepsExactly(st, a);
  }

  lemma LeavingWhileListed<S>(st: State<S>, s: S, nick: string)
    requires NickIndex(st) && s in st.fields
    requires st.stopped || (s in st.sessions && nick == st.fields[s].nick)
    ensures NickIndex(Leave(st, s, nick))
  {
    DisconnectingExactly(st, s, nick);
    if !st.stopped && Chosen(st, s) {
      assert st.nicknames[nick] == s;
    }
  }

  /**
   When besides only connected sessions register, the index is the inverse of the nicknames of the
   connected sessions: nobody else owns a key.
   */
  lemma {:induction false} NicknamesAreInverse<S>(states: seq<State<S>>, actions: seq<Action<S>>, i: nat)
    requires Run(states, actions) && i < |states|
    requires forall j :: 0 <= j < i ==> ActsWhileConnected(states[j], actions[j])
    ensures NickIndex(states[i])
  {
    if i > 0 {
      NicknamesAreInverse(states, actions, i - 1);
      StepKeepsIndex(states[i - 1], actions[i - 1]);
    }
  }

  // ----- runs in which it goes wrong -----

  /** Session 0 has taken a nickname and was dropped, as after a failed write; it can still send commands. */
  function Dropped(nick: string, remote1: string): State<nat> {
    State(false, {1}, map[], map[], map[0 := Fields(nick, "x:1", ""), 1 := Fields(remote1, remote1, "")], {})
  }

  lemma NamedThenDropped(nick: string, remote1: string) returns (actions: seq<Action<nat>>)
    requires ValidNick(nick) && nick != "x:1" && remote1 != ""
    ensures actions == [Create(0, "x:1"), Create(1, remote1), DoJoin(0), DoJoin(1),
                       DoRegister(0, nick), DoLeave(0, nick)]
    ensures RunTo(actions, Dropped(nick, remote1))
  {
    actions := PairJoins("x:1", remote1);
    var st := Pair("x:1", "", remote1, "");
    var named := st.(nicknames := map[nick := 0], fields := st.fields[0 := Fields(nick, "x:1", "")]);
    actions := Perform(actions, st, DoRegister(0, nick), named);
    actions := Perform(actions, named, DoLeave(0, nick), Dropped(nick, remote1));
  }

  /** A dropped session asks for a new nickname: its old one is looked up and is not there. */
  lemma DroppedSessionMisses() returns (actions: seq<Action<nat>>, st: State<nat>)
    ensures RunTo(actions, st) && !st.stopped && Possible(st, DoRegister(0, "alice"))
    ensures NickIndex(st) && Register(st, 0, "alice").1.EndLookup?
  {
    assert ValidNick("bob") && ValidNick("alice");
    actions := NamedThenDropped("bob", "y:1");
    st := Dropped("bob", "y:1");
    LookupMissesExactly(st, 0, "alice");
  }

  /** A dropped session takes a first nickname: the index holds it, although nobody connected owns it. */
  lemma DroppedSessionRegisters() returns (actions: seq<Action<nat>>, st: State<nat>)
    ensures RunTo(actions, st) && !st.stopped && Possible(st, DoRegister(0, "alice"))
    ensures NickIndex(st) && Register(st, 0, "alice").1.Registered?
    ensures NamesOwned(Apply(st, DoRegister(0, "alice"))) && !NickIndex(Apply(st, DoRegister(0, "alice")))
  {
    assert ValidNick("alice");
    var both := Pair("x:1", "", "y:1", "");
    actions := PairJoins("x:1", "y:1");
    st := both.(sessions := {1});
    actions := Perform(actions, both, DoLeave(0, "x:1"), st);
    RegisterKeepsNames(st, 0, "alice");
    RegisteringExactly(st, 0, "alice");
  }

  /** A session that joins the server again under its old nickname does not get its name back. */
  lemma RejoinsUnderLostName() returns (actions: seq<Action<nat>>, st: State<nat>)
    ensures RunTo(actions, st) && !st.stopped && Possible(st, DoJoin(0))
    ensures NickIndex(st) && !NamesOwned(Apply(st, DoJoin(0)))
  {
    assert ValidNick("bob");
    actions := NamedThenDropped("bob", "y:1");
    st := Dropped("bob", "y:1");
    JoinKeepsNames(st, 0);
  }

  /** A dropped session is dropped once more, as after a failed read, and takes the name from its new holder. */
  lemma SecondDisconnectTakesName() returns (actions: seq<Action<nat>>, st: State<nat>)
    ensures RunTo(actions, st) && !st.stopped && 0 in st.fields && Possible(st, DoLeave(0, st.fields[0].nick))
    ensures NickIndex(st) && Chosen(st, 1) && !NamesOwned(Apply(st, DoLeave(0, st.fields[0].nick)))
  {
    assert ValidNick("bob");
    actions := NamedThenDropped("bob", "y:1");
    var free := Dropped("bob", "y:1");
    st := free.(nicknames := map["bob" := 1], fields := free.fields[1 := Fields("bob", "y:1", "")]);
    actions := Perform(actions, free, DoRegister(1, "bob"), st);
    LeaveKeepsNames(st, 0, "bob");
  }

  /** The default name of a session that is gone, left in the index, is the nickname of one that lives. */
  function StaleEntry(): State<nat> {
    State(false, {}, map["y:1" := 1], map[], map[0 := Fields("y:1", "x:1", ""), 1 := Fields("y:1", "y:1", "")], {1})
  }

  lemma StaleEntryArises() returns (actions: seq<Action<nat>>)
    ensures RunTo(actions, StaleEntry())
  {
    assert ValidNick("y:1");
    actions := NamedThenDropped("y:1", "y:1");
    var free := Dropped("y:1", "y:1");
    var held, left := free.(nicknames := map["y:1" := 1]), free.(nicknames := map["y:1" := 1], sessions := {});
    actions := Perform(actions, free, DoRegister(1, "y:1"), held);
    actions := Perform(actions, held, DoLeave(1, "y:1"), left);
    actions := Perform(actions, left, Expire(1), StaleEntry());
  }

  // ----- lazy expiry -----

  /** One use of the nickname index; `Expires` is a session being destroyed. */
  datatype Use<S> =
    | Registers(f: Fields, nick: string, s: S)
    | Unregisters(nick: string)
    | Finds(nick: string)
    | Lists
    | Expires(s: S)

  /** What the caller of a use gets to see. */
  datatype Answer<S> = Accepted(ok: bool) | FoundSession(s: Option<S>) | Names(names: set<string>) | Nothing

  /** `find_session_by_nickname_async`: the weak reference locked, if it still can be. */
  function Found<S(==)>(nicknames: map<string, S>, expired: set<S>, nick: string): Option<S> {
    if nick in nicknames && nicknames[nick] !in expired then Some(nicknames[nick]) else None
  }

  /** A registration for an available name by a session whose old nickname the index does not hold. */
  predicate Misses<S(==)>(nicknames: map<string, S>, expired: set<S>, u: Use<S>) {
    && u.Registers? && u.s !in expired && Available(nicknames, expired, u.nick, u.s)
    && LooksUpOld(u.f, u.nick) && u.f.nick !in nicknames
  }

  /** In any index, that is exactly when the old nickname is looked up and is not there. */
  lemma MissesExactly<S>(nicknames: map<string, S>, expired: set<S>, u: Use<S>)
    ensures Misses(nicknames, expired, u)
            <==> u.Registers? && RegisterImpl(nicknames, expired, u.f, u.nick, u.s).1.EndLookup?
  {
  }

  /** The index with weak references, which drops expired entries only when it comes across them. */
  function LazyUse<S(==)>(nicknames: map<string, S>, expired: set<S>, u: Use<S>): (map<string, S>, set<S>, Answer<S>) {
    match u
    case Registers(f, nick, s) =>
      var (index, outcome) := RegisterImpl(nicknames, expired, f, nick, s);
      (index, expired, Accepted(outcome.Registered?))
    case Unregisters(nick) => (Unregister(nicknames, nick), expired, Nothing)
    case Finds(nick) => (nicknames, expired, FoundSession(Found(nicknames, expired, nick)))
    case Lists => (Purged(nicknames, expired), expired, Names(Purged(nicknames, expired).Keys))
    case Expires(s) => (nicknames, expired + {s}, Nothing)
  }

  /** A plain map of live owners: what the index is meant to be. */
  function PlainRegister<S(==)>(live: map<string, S>, f: Fields, nick: string, s: S): (map<string, S>, bool) {
    if nick in live && live[nick] != s then (live, false)
    else
      var freed := if LooksUpOld(f, nick) && f.nick in live && live[f.nick] == s then live - {f.nick} else live;
      (freed[nick := s], true)
  }

  /** The plain map drops the names of a session at the moment the session goes away. */
  function PlainUse<S(==)>(live: map<string, S>, gone: set<S>, u: Use<S>): (map<string, S>, set<S>, Answer<S>) {
    match u
    case Registers(f, nick, s) =>
      if s in gone then (live, gone, Accepted(false))
      else
        var (index, ok) := PlainRegister(live, f, nick, s);
        (index, gone, Accepted(ok))
    case Unregisters(nick) => (live - {nick}, gone, Nothing)
    case Finds(nick) => (live, gone, FoundSession(if nick in live then Some(live[nick]) else None))
    case Lists => (live, gone, Names(live.Keys))
    case Expires(s) => (Purged(live, {s}), gone + {s}, Nothing)
  }

  function LazyAnswers<S(==)>(nicknames: map<string, S>, expired: set<S>, uses: seq<Use<S>>): seq<Answer<S>>
    decreases uses
  {
    if uses == [] then []
    else
      var (index, gone, answer) := LazyUse(nicknames, expired, uses[0]);
      [answer] + LazyAnswers(index, gone, uses[1..])
  }

  function PlainAnswers<S(==)>(live: map<string, S>, gone: set<S>, uses: seq<Use<S>>): seq<Answer<S>>
    decreases uses
  {
    if uses == [] then []
    else
      var (index, gone', answer) := PlainUse(live, gone, uses[0]);
      [answer] + PlainAnswers(index, gone', uses[1..])
  }

  predicate NeverMisses<S(==)>(nicknames: map<string, S>, expired: set<S>, uses: seq<Use<S>>)
    decreases uses
  {
    uses == [] ||
    (!Misses(nicknames, expired, uses[0]) &&
     var (index, gone, answer) := LazyUse(nicknames, expired, uses[0]); NeverMisses(index, gone, uses[1..]))
  }

  /** No empty nickname is ever registered, so none is in the index. */
  ghost predicate NoEmptyName<S>(nicknames: map<string, S>, uses: seq<Use<S>>) {
    "" !in nicknames && forall u :: u in uses && u.Registers? ==> u.nick != ""
  }

  /** Forgetting the expired entries turns every lazy use into the plain one, with the same answer. */
  lemma LazyUseRefines<S>(nicknames: map<string, S>, expired: set<S>, u: Use<S>)
    requires !Misses(nicknames, expired, u) && "" !in nicknames && (u.Registers? ==> u.nick != "")
    ensures var (index, gone, answer) := LazyUse(nicknames, expired, u);
            && PlainUse(Purged(nicknames, expired), expired, u) == (Purged(index, gone), gone, answer)
            && "" !in index
  {
    var (index, gone, answer) := LazyUse(nicknames, expired, u);
    var live := Purged(nicknames, expired);
    match u
    case Registers(f, nick, s) => assert PlainUse(live, expired, u).0 == Purged(index, gone);
    case Unregisters(nick) => assert Purged(index, gone) == live - {nick};
    case Finds(nick) =>
    case Lists => assert Purged(live, expired) == live;
    case Expires(s) => assert Purged(live, {s}) == Purged(index, gone);
  }

  /** One use is answered alike exactly when it does not miss. */
  lemma AnswersAgreeExactly<S>(nicknames: map<string, S>, expired: set<S>, u: Use<S>)
    requires "" !in nicknames && (u.Registers? ==> u.nick != "")
    ensures LazyUse(nicknames, expired, u).2 == PlainUse(Purged(nicknames, expired), expired, u).2
            <==> !Misses(nicknames, expired, u)
  {
    if Misses(nicknames, expired, u) {
      assert LazyUse(nicknames, expired, u).2 == Accepted(false);
      assert PlainUse(Purged(nicknames, expired), expired, u).2 == Accepted(true);
    } else {
      LazyUseRefines(nicknames, expired, u);
    }
  }

  /**
   Lazy expiry is invisible: over any sequence of uses and expirations the index answers exactly as the
   plain map of live owners does if, and only if, no registration in it misses.
   */
  lemma {:induction false} LazyExpiryInvisible<S>(nicknames: map<string, S>, expired: set<S>, uses: seq<Use<S>>)
    requires NoEmptyName(nicknames, uses)
    ensures LazyAnswers(nicknames, expired, uses) == PlainAnswers(Purged(nicknames, expired), expired, uses)
            <==> NeverMisses(nicknames, expired, uses)
    decreases uses
  {
    if uses != [] {
      assert uses[0] in uses;
      var (index, gone, answer) := LazyUse(nicknames, expired, uses[0]);
      var (live, gone', answer') := PlainUse(Purged(nicknames, expired), expired, uses[0]);
      AnswersAgreeExactly(nicknames, expired, uses[0]);
      SameAnswers(answer, LazyAnswers(index, gone, uses[1..]), answer', PlainAnswers(live, gone', uses[1..]));
      if !Misses(nicknames, expired, uses[0]) {
        LazyUseRefines(nicknames, expired, uses[0]);
        LazyExpiryInvisible(index, gone, uses[1..]);
      }
    }
  }

  lemma SameAnswers<S>(a: Answer<S>, rest: seq<Answer<S>>, a': Answer<S>, rest': seq<Answer<S>>)
    ensures [a] + rest == [a'] + rest' <==> a == a' && rest == rest'
  {
    assert ([a] + rest)[0] == a && ([a'] + rest')[0] == a';
    assert ([a] + rest)[1..] == rest && ([a'] + rest')[1..] == rest';
  }

  /**
   When purging makes a difference to a registration: exactly when the registration gets as far as
   its old nickname and only an expired entry of that name was left.
   */
  lemma PurgeVisibleExactly<S>(nicknames: map<string, S>, expired: set<S>, f: Fields, nick: string, s: S)
    ensures RegisterImpl(Purged(nicknames, expired), expired, f, nick, s).1
            != RegisterImpl(nicknames, expired, f, nick, s).1
            <==> s !in expired && Available(nicknames, expired, nick, s) && LooksUpOld(f, nick)
                 && f.nick in nicknames && nicknames[f.nick] in expired
  {
  }

  /**
   A run that gets there: the live session would be renamed, but after a user list, which purges the
   index, its old nickname is looked up and is not there.
   */
  lemma PurgeSpoilsRegistration() returns (actions: seq<Action<nat>>, st: State<nat>)
    ensures RunTo(actions, st) && RunTo(actions + [ListUsers], Apply(st, ListUsers)) && 0 !in st.expired
    ensures Possible(st, DoRegister(0, "alice")) && Register(st, 0, "alice").1.Registered?
    ensures Register(Apply(st, ListUsers), 0, "alice").1.EndLookup?
  {
    assert ValidNick("alice");
    actions := StaleEntryArises();
    st := StaleEntry();
    RunOn(actions, st, ListUsers);
    PurgeVisibleExactly(st.nicknames, st.expired, st.fields[0], "alice", 0);
  }

  // ----- disconnecting -----

  /** Nothing in the server's tables refers to the session. */
  ghost predicate NoTrace<S>(st: State<S>, s: S) {
    && s !in st.sessions
    && (forall k :: k in st.nicknames ==> st.nicknames[k] != s)
    && (forall r :: r in st.rooms ==> s !in st.rooms[r])
  }
}

/** Leaving and stopping: what remains of sessions that are gone. */
module Departures {
  import opened Registry
  import opened Rooms
  import opened Nicknames

  lemma OthersKeepRooms<S>(st: State<S>, s: S, nick: string)
    requires s in st.fields
    ensures forall r, t :: t != s ==>
              (t in Participants(Leave(st, s, nick).rooms, r) <==> t in Participants(st.rooms, r))
  {
    WithoutMembers(st.rooms, st.fields[s].room, s);
  }

  /** The session is in no room but its current one. */
  ghost predicate OnlyInCurrentRoom<S>(st: State<S>, s: S) {
    s in st.fields && forall r :: r in st.rooms && s in st.rooms[r] ==> r == st.fields[s].room && r != ""
  }

  /** The session holds no name but the one it is disconnected under, and that is not its remote id. */
  ghost predicate OnlyHolds<S>(st: State<S>, s: S, nick: string) {
    && s in st.fields
    && forall k :: k in st.nicknames && st.nicknames[k] == s ==> k == nick && nick != "" && nick != st.fields[s].remote
  }

  /** A disconnect looks at one room and one name only; it removes every trace exactly when there are no others. */
  lemma NoTraceExactly<S>(st: State<S>, s: S, nick: string)
    requires s in st.fields
    ensures NoTrace(Leave(st, s, nick), s)
            <==> if st.stopped then NoTrace(st, s) else OnlyInCurrentRoom(st, s) && OnlyHolds(st, s, nick)
  {
    if !st.stopped {
      LeaveNames(st, s, nick);
      RoomsWithoutTrace(st, s, nick);
      NamesWithoutTrace(st, s, nick);
    }
  }

  lemma RoomsWithoutTrace<S>(st: State<S>, s: S, nick: string)
    requires s in st.fields && !st.stopped
    ensures var rooms := Leave(st, s, nick).rooms;
            (forall r :: r in rooms ==> s !in rooms[r]) <==> OnlyInCurrentRoom(st, s)
  {
    var rooms, current := Leave(st, s, nick).rooms, st.fields[s].room;
    WithoutMembers(st.rooms, current, s);
    if r :| r in st.rooms && s in st.rooms[r] && (r != current || r == "") {
      assert s in Participants(st.rooms, r);
      assert s in Participants(rooms, r);
    } else {
      forall r | r in rooms ensures s !in rooms[r] {
        assert rooms[r] == Participants(rooms, r) && r in st.rooms;
      }
    }
  }

  lemma NamesWithoutTrace<S>(st: State<S>, s: S, nick: string)
    requires s in st.fields && !st.stopped
    ensures var names := Leave(st, s, nick).nicknames;
            (forall k :: k in names ==> names[k] != s) <==> OnlyHolds(st, s, nick)
  {
    LeaveNames(st, s, nick);
    var names := Leave(st, s, nick).nicknames;
    if k :| k in st.nicknames && st.nicknames[k] == s && !(k == nick && nick != "" && nick != st.fields[s].remote) {
      assert k in names && names[k] == s;
    }
  }

  /** Everything that belongs to other sessions. */
  ghost predicate OthersUntouched<S>(st: State<S>, st': State<S>, s: S) {
    && st'.sessions - {s} == st.sessions - {s}
    && (forall k :: k in st.nicknames && st.nicknames[k] != s ==>
          k in st'.nicknames && st'.nicknames[k] == st.nicknames[k])
    && (forall r :: Participants(st'.rooms, r) - {s} == Participants(st.rooms, r) - {s})
    && st'.fields - {s} == st.fields - {s}
  }

  /** It touches nothing of other sessions exactly when it does nothing or nobody else holds the name. */
  lemma OthersUntouchedExactly<S>(st: State<S>, s: S, nick: string)
    requires s in st.fields
    ensures OthersUntouched(st, Leave(st, s, nick), s) <==> st.stopped || !TakesForeignName(st, s, nick)
  {
    if !st.stopped {
      LeaveNames(st, s, nick);
      OthersKeepRooms(st, s, nick);
    }
  }

  /**
   So when participants are in their current room and keys belong to their owners, the disconnect of a
   connected session removes every trace of it and nothing that belongs to another one.
   */
  lemma DisconnectLeavesNoTrace<S>(st: State<S>, s: S)
    requires OneRoom(st) && NamesOwned(st) && s in st.sessions && !st.stopped
    ensures var st' := Leave(st, s, st.fields[s].nick);
            && NoTrace(st', s) && OthersUntouched(st, st', s)
            && st'.nicknames == (map k | k in st.nicknames && st.nicknames[k] != s :: st.nicknames[k])
  {
    NoTraceExactly(st, s, st.fields[s].nick);
    OthersUntouchedExactly(st, s, st.fields[s].nick);
    LeaveNames(st, s, st.fields[s].nick);
  }

  /** What would put a session back into a table. */
  predicate ComesBack<S(==)>(a: Action<S>, s: S) { (a.DoJoin? || a.DoRegister? || a.DoJoinRoom?) && a.s == s }

  lemma NoTraceStep<S>(st: State<S>, a: Action<S>, s: S)
    requires NoTrace(st, s) && Possible(st, a) && !ComesBack(a, s)
    ensures NoTrace(Apply(st, a), s)
  {
    var st' := Apply(st, a);
    match a
    case DoJoinRoom(t, r) =>
      WithoutMembers(st.rooms, st.fields[t].room, t);
      forall r' | r' in st'.rooms ensures s !in st'.rooms[r'] {
        assert s !in Participants(st.rooms, r');
      }
    case DoLeaveRoom(t, r) =>
      WithoutMembers(st.rooms, r, t);
      forall r' | r' in st'.rooms ensures s !in st'.rooms[r'] {
        assert s !in Participants(st.rooms, r') && st'.rooms[r'] == Participants(st'.rooms, r');
      }
    case DoLeave(t, nick) =>
      OthersKeepRooms(st, t, nick);
      forall r' | r' in st'.rooms ensures s !in st'.rooms[r'] {
        assert s !in Participants(st.rooms, r') && st'.rooms[r'] == Participants(st'.rooms, r');
      }
    case _ =>
  }

  /**
   In a run whose steps keep the names and leave own rooms, the disconnect of a connected session under its
   nickname takes it out of all tables and leaves everything of others alone; and whatever happens then,
   it stays out until it joins, registers or enters a room itself.
   */
  lemma {:induction false} GoneForGood<S>(states: seq<State<S>>, actions: seq<Action<S>>, i: nat, j: nat, s: S)
    requires Run(states, actions) && i < j < |states|
    requires forall k :: 0 <= k < i ==> KeepsNames(states[k], actions[k]) && LeavesOwnRoom(states[k], actions[k])
    requires !states[i].stopped && s in states[i].sessions && s in states[i].fields
    requires actions[i] == DoLeave(s, states[i].fields[s].nick)
    requires forall k :: i < k < j ==> !ComesBack(actions[k], s)
    ensures NoTrace(states[j], s) && OthersUntouched(states[i], states[i + 1], s)
    decreases j
  {
    if j == i + 1 {
      OneRoomPerSession(states, actions, i);
      NamesOwnedExactly(states, actions, i);
      assert NamesOwned(states[i]);
      DisconnectLeavesNoTrace(states[i], s);
    } else {
      GoneForGood(states, actions, i, j - 1, s);
      NoTraceStep(states[j - 1], actions[j - 1], s);
    }
  }

  /** A run in which a session takes its own remote id as nickname, disconnects and leaves its key behind. */
  lemma OwnRemoteIdStays() returns (actions: seq<Action<nat>>, st: State<nat>)
    ensures RunTo(actions, st) && !st.stopped && Possible(st, DoLeave(0, "x:1"))
            && 0 in st.sessions && st.fields[0].nick == "x:1"
    ensures Apply(st, DoLeave(0, "x:1")).nicknames == map["x:1" := 0] && !NoTrace(Apply(st, DoLeave(0, "x:1")), 0)
  {
    assert ValidNick("x:1");
    actions := PairJoins("x:1", "y:1");
    var free := Pair("x:1", "", "y:1", "");
    st := free.(nicknames := map["x:1" := 0]);
    actions := Perform(actions, free, DoRegister(0, "x:1"), st);
    assert Apply(st, DoLeave(0, "x:1")).nicknames["x:1"] == 0;
  }

  /**
   A run in which a session sends a leave of a room it is not in, disconnects, and stays a participant of
   the room it was in.
   */
  lemma ForeignLeaveLeavesTrace() returns (actions: seq<Action<nat>>, st: State<nat>)
    ensures RunTo(actions, st) && !st.stopped && NickIndex(st) && 0 in st.sessions && Possible(st, DoLeave(0, "x:1"))
    ensures var st' := Apply(st, DoLeave(0, "x:1")); "a" in st'.rooms && 0 in st'.rooms["a"] && !NoTrace(st', 0)
  {
    actions, st := TwoRooms();
    var out := Pair("x:1", "", "y:1", "b").(rooms := st.rooms);
    ForeignLeave(st, out);
    actions := Perform(actions, st, DoLeaveRoom(0, "b"), out);
    st := out;
    NoTraceExactly(st, 0, "x:1");
    assert 0 in st.rooms["a"];
  }

  lemma ForeignLeave(st: State<nat>, out: State<nat>)
    requires st == Pair("x:1", "a", "y:1", "b").(rooms := map["a" := {0}, "b" := {1}])
    requires out == Pair("x:1", "", "y:1", "b").(rooms := st.rooms)
    ensures Possible(st, DoLeaveRoom(0, "b")) && Apply(st, DoLeaveRoom(0, "b")) == out
  {
    assert st.rooms["b"] - {0} == {1};
    assert Without(st.rooms, "b", 0) == st.rooms;
  }

  // ----- stopping -----

  lemma StoppedStep<S>(st: State<S>, a: Action<S>)
    requires st.stopped && st.sessions == {} && st.rooms == map[] && Possible(st, a)
    ensures var st' := Apply(st, a); st'.stopped && st'.sessions == {} && st'.rooms == map[]
  {
  }

  /** Once the tables are cleared, no action whatever puts a session or a room back. */
  lemma {:induction false} ClearedForGood<S>(states: seq<State<S>>, actions: seq<Action<S>>, i: nat, j: nat)
    requires Run(states, actions) && i < j < |states|
    requires actions[i] == DoClear
    ensures states[j].stopped && states[j].sessions == {} && states[j].rooms == map[]
    decreases j
  {
    if j > i + 1 {
      ClearedForGood(states, actions, i, j - 1);
      StoppedStep(states[j - 1], actions[j - 1]);
    }
  }

  /** A registration that a stopped server still carries out: of a live session that has no other chosen name. */
  ghost predicate FillsEmptyIndex<S>(st: State<S>, a: Action<S>) {
    a.DoRegister? && a.s in st.fields && a.s !in st.expired && !LooksUpOld(st.fields[a.s], a.nick)
  }

  lemma EmptyIndexStep<S>(st: State<S>, a: Action<S>)
    requires st.nicknames == map[] && Possible(st, a)
    ensures Apply(st, a).nicknames == map[] <==> !FillsEmptyIndex(st, a)
  {
    if FillsEmptyIndex(st, a) {
      assert a.nick in Apply(st, a).nicknames;
    }
  }

  /**
   The nickname index does not stay empty after the clear: it is empty in every state up to `j` exactly
   when no registration of that kind, which must have been on its way when the server was stopped, is
   carried out between.
   */
  lemma {:induction false} IndexEmptyExactly<S>(states: seq<State<S>>, actions: seq<Action<S>>, i: nat, j: nat)
    requires Run(states, actions) && i < j < |states|
    requires actions[i] == DoClear
    ensures (forall k :: i < k <= j ==> states[k].nicknames == map[])
            <==> forall k :: i < k < j ==> !FillsEmptyIndex(states[k], actions[k])
    decreases j
  {
    if j == i + 1 {
      assert states[i + 1] == Apply(states[i], actions[i]);
    } else {
      IndexEmptyExactly(states, actions, i, j - 1);
      if states[j - 1].nicknames == map[] {
        EmptyIndexStep(states[j - 1], actions[j - 1]);
        assert states[j - 1 + 1] == Apply(states[j - 1], actions[j - 1]);
      }
    }
  }

  /** A run in which a registration on its way fills the index after the clear. */
  lemma NicknamesReturnAfterClear() returns (actions: seq<Action<nat>>, st: State<nat>)
    ensures RunTo(actions + [DoClear], st) && st.nicknames == map[] && 0 in st.fields
    ensures RunTo(actions + [DoClear] + [DoRegister(0, "bob")], Apply(st, DoRegister(0, "bob")))
    ensures Apply(st, DoRegister(0, "bob")).nicknames == map["bob" := 0]
  {
    assert ValidNick("bob");
    actions := PairJoins("x:1", "y:1");
    var up := Pair("x:1", "", "y:1", "");
    actions := Perform(actions, up, Action.RequestStop, up.(stopped := true));
    st := up.(stopped := true, sessions := {});
    RunOn(actions, up.(stopped := true), DoClear);
    RunOn(actions + [DoClear], st, DoRegister(0, "bob"));
  }
}
