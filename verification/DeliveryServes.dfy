/**
 Nothing that is asked for gets lost: what is posted to the server's strand is run, once and in order, and
 does what was asked; what is given to a session is on its way; a session that is told to stop stops.
 */
module DeliveryServes {
  import opened Seqs
  import opened Strands
  import opened Wrappers
  import opened Delivery
  import opened DeliveryOrder
  import opened DeliveryRuns
  import Framing
  import Registry
  import TcpPump

  // ----- first in, first out -----

  /** How many tasks the server's strand runs by the actions from `i` up to, not including, `k`. */
  function Taken(actions: seq<Action>, i: nat, k: nat): nat
    requires i <= k <= |actions|
    decreases k
  {
    if i == k then 0 else Taken(actions, i, k - 1) + if actions[k - 1].RunServer? then 1 else 0
  }

  /** Action `i` puts `t` at the end of the server's strand. */
  ghost predicate Posts(worlds: seq<World>, actions: seq<Action>, i: nat, t: ServerTask) {
    i < |actions| && i + 1 < |worlds| && !actions[i].RunServer? && worlds[i + 1].serverBox == worlds[i].serverBox + [t]
  }

  /** Action `k` runs the task that action `i` posted: it comes after all those that waited before it. */
  ghost predicate Serves(worlds: seq<World>, actions: seq<Action>, i: nat, k: nat) {
    i < k < |actions| && k < |worlds| && actions[k] == RunServer && Taken(actions, i + 1, k) == |worlds[i].serverBox|
  }

  lemma BoxStep(w: World, a: Action)
    requires Possible(w, a)
    ensures if a.RunServer? then w.serverBox != [] && Apply(w, a).serverBox == w.serverBox[1..]
            else w.serverBox <= Apply(w, a).serverBox
  {
  }

  /** The server's strand is a queue: what is run is taken from its front, what is posted goes to its end. */
  ghost predicate Fifo(worlds: seq<World>, actions: seq<Action>) {
    && |worlds| == |actions| + 1
    && forall k :: 0 <= k < |actions| ==>
         if actions[k].RunServer?
         then worlds[k].serverBox != [] && worlds[k + 1].serverBox == worlds[k].serverBox[1..]
         else worlds[k].serverBox <= worlds[k + 1].serverBox
  }

  lemma RunIsFifo(worlds: seq<World>, actions: seq<Action>)
    requires Run(worlds, actions)
    ensures Fifo(worlds, actions)
  {
    forall k | 0 <= k < |actions|
      ensures if actions[k].RunServer?
              then worlds[k].serverBox != [] && worlds[k + 1].serverBox == worlds[k].serverBox[1..]
              else worlds[k].serverBox <= worlds[k + 1].serverBox
    {
      BoxStep(worlds[k], actions[k]);
    }
  }

  lemma {:induction false} Waits(worlds: seq<World>, actions: seq<Action>, i: nat, k: nat, t: ServerTask)
    requires Fifo(worlds, actions) && Posts(worlds, actions, i, t) && i < k < |worlds|
    requires Taken(actions, i + 1, k) <= |worlds[i].serverBox|
    ensures var p := |worlds[i].serverBox| - Taken(actions, i + 1, k);
            p < |worlds[k].serverBox| && worlds[k].serverBox[p] == t
    decreases k
  {
    if k > i + 1 {
      Waits(worlds, actions, i, k - 1, t);
      assert worlds[k - 1].serverBox <= worlds[k - 1 + 1].serverBox || actions[k - 1].RunServer?;
    }
  }

  lemma {:induction false} TakenAt(actions: seq<Action>, i: nat, j: nat, c: nat) returns (k: nat)
    requires i <= j <= |actions| && c < Taken(actions, i, j)
    ensures i <= k < j && actions[k] == RunServer && Taken(actions, i, k) == c
    decreases j
  {
    if Taken(actions, i, j - 1) == c {
      k := j - 1;
    } else {
      k := TakenAt(actions, i, j - 1, c);
    }
  }

  lemma {:induction false} TakenSum(actions: seq<Action>, i: nat, j: nat, k: nat)
    requires i <= j <= k <= |actions|
    ensures Taken(actions, i, k) == Taken(actions, i, j) + Taken(actions, j, k)
    decreases k
  {
    if j < k {
      TakenSum(actions, i, j, k - 1);
    }
  }

  /** Once the strand is empty again, the task has been run, by exactly one action. */
  lemma PostedIsServed(worlds: seq<World>, actions: seq<Action>, i: nat, j: nat, t: ServerTask) returns (k: nat)
    requires Fifo(worlds, actions) && Posts(worlds, actions, i, t) && i < j < |worlds| && worlds[j].serverBox == []
    ensures Serves(worlds, actions, i, k) && k < j && worlds[k].serverBox != [] && worlds[k].serverBox[0] == t
    ensures forall k': nat :: Serves(worlds, actions, i, k') ==> k' == k
  {
    if Taken(actions, i + 1, j) <= |worlds[i].serverBox| {
      Waits(worlds, actions, i, j, t);
    }
    k := TakenAt(actions, i + 1, j, |worlds[i].serverBox|);
    Waits(worlds, actions, i, k, t);
    forall k': nat | Serves(worlds, actions, i, k') ensures k' == k {
      if k < k' {
        TakenSum(actions, i + 1, k + 1, k');
      } else if k' < k {
        TakenSum(actions, i + 1, k' + 1, k);
      }
    }
  }

  /** Tasks are run in the order they were posted. */
  lemma ServedInOrder(worlds: seq<World>, actions: seq<Action>, i1: nat, i2: nat, k1: nat, k2: nat,
                      t1: ServerTask, t2: ServerTask)
    requires Fifo(worlds, actions) && i1 < i2
    requires Posts(worlds, actions, i1, t1) && Posts(worlds, actions, i2, t2)
    requires Serves(worlds, actions, i1, k1) && Serves(worlds, actions, i2, k2)
    ensures k1 < k2
  {
    if i2 < k1 {
      TakenSum(actions, i1 + 1, i2, k1);
      Waits(worlds, actions, i1, i2, t1);
      TakenSum(actions, i2, i2 + 1, k1);
      if k2 <= k1 {
        TakenSum(actions, i2 + 1, k2, k1);
      }
    }
  }

  // ----- global broadcasts -----

  /** What the run of one broadcast does: a task for each listed session but the sender, and nothing else. */
  lemma BroadcastTaskRuns(w: World, sender: Option<Sid>)
    requires Possible(w, RunServer) && w.serverBox[0] == BroadcastTask(sender) && !w.tables.stopped
    requires |w.senders| == |w.reached|
    ensures var w' := Apply(w, RunServer);
            && w'.senders == w.senders + [sender] && w'.tables == w.tables && w'.all.Keys == w.all.Keys
            && forall s :: s in w.all ==>
                 w'.all[s] == w.all[s].(box := w.all[s].box +
                   if s in w.tables.sessions && sender != Some(s) then [Deliver(Numbered(Global, |w.senders|))]
                   else [])
  {
    forall s | s in w.all ensures w.all[s].(box := w.all[s].box + []) == w.all[s] {
      assert w.all[s].box + [] == w.all[s].box;
    }
  }

  lemma SendersStep(w: World, a: Action)
    requires Possible(w, a)
    ensures w.senders <= Apply(w, a).senders
  {
  }

  lemma {:induction false} SendersOn(worlds: seq<World>, i: nat, j: nat)
    requires i <= j < |worlds| && forall k: nat :: i <= k < j ==> worlds[k].senders <= worlds[k + 1].senders
    ensures worlds[i].senders <= worlds[j].senders
    decreases j
  {
    if i < j {
      SendersOn(worlds, i, j - 1);
      assert worlds[j - 1].senders <= worlds[j - 1 + 1].senders;
    }
  }

  lemma SendersStay(worlds: seq<World>, actions: seq<Action>, i: nat, j: nat)
    requires Run(worlds, actions) && i <= j < |worlds|
    ensures worlds[i].senders <= worlds[j].senders
  {
    forall k: nat | i <= k < j ensures worlds[k].senders <= worlds[k + 1].senders {
      SendersStep(worlds[k], actions[k]);
    }
    SendersOn(worlds, i, j);
  }

  /** A broadcast that is asked for is run: once the strand is empty it has its place in the order of broadcasts. */
  lemma BroadcastIsRun(worlds: seq<World>, actions: seq<Action>, i: nat, j: nat, sender: Option<Sid>) returns (k: nat)
    requires Run(worlds, actions) && i < j < |worlds| && actions[i] == CallBroadcast(sender)
    requires !worlds[j].tables.stopped && worlds[j].serverBox == []
    ensures Posts(worlds, actions, i, BroadcastTask(sender)) && Serves(worlds, actions, i, k) && k < j
    ensures |worlds[i].senders| <= |worlds[k].senders| < |worlds[j].senders|
    ensures worlds[j].senders[|worlds[k].senders|] == sender
    ensures worlds[k + 1].senders == worlds[k].senders + [sender]
    ensures worlds[k].all.Keys == worlds[k + 1].all.Keys
    ensures forall s :: s in worlds[k].all ==>
              worlds[k + 1].all[s].box == worlds[k].all[s].box
                + if s in worlds[k].tables.sessions && sender != Some(s)
                  then [Deliver(Numbered(Global, |worlds[k].senders|))] else []
  {
    StoppedStays(worlds, actions, i, j);
    assert worlds[i + 1] == Apply(worlds[i], actions[i]);
    RunIsFifo(worlds, actions);
    k := PostedIsServed(worlds, actions, i, j, BroadcastTask(sender));
    StoppedStays(worlds, actions, k, j);
    RunInv(worlds, actions, k);
    BroadcastTaskRuns(worlds[k], sender);
    assert worlds[k + 1] == Apply(worlds[k], actions[k]);
    SendersStay(worlds, actions, i, k);
    SendersStay(worlds, actions, k + 1, j);
  }

  /** Two broadcasts are run in the order in which they were asked for, whoever sent them. */
  lemma BroadcastsRunInOrder(worlds: seq<World>, actions: seq<Action>, i1: nat, i2: nat, j: nat,
                             sender1: Option<Sid>, sender2: Option<Sid>) returns (n1: nat, n2: nat)
    requires Run(worlds, actions) && i1 < i2 < j < |worlds|
    requires actions[i1] == CallBroadcast(sender1) && actions[i2] == CallBroadcast(sender2)
    requires !worlds[j].tables.stopped && worlds[j].serverBox == []
    ensures |worlds[i1].senders| <= n1 < n2 < |worlds[j].senders|
    ensures worlds[j].senders[n1] == sender1 && worlds[j].senders[n2] == sender2
  {
    var k1 := BroadcastIsRun(worlds, actions, i1, j, sender1);
    var k2 := BroadcastIsRun(worlds, actions, i2, j, sender2);
    RunIsFifo(worlds, actions);
    ServedInOrder(worlds, actions, i1, i2, k1, k2, BroadcastTask(sender1), BroadcastTask(sender2));
    SendersStay(worlds, actions, k1 + 1, k2);
    n1, n2 := |worlds[k1].senders|, |worlds[k2].senders|;
  }

  /** A listed session stays listed, with the moment it joined, unless its leaving is run or the server stops. */
  lemma ListedStep(w: World, a: Action, s: Sid)
    requires Inv(w) && Possible(w, a) && s in w.tables.sessions && !RunsLeave(w, a, s) && !w.tables.stopped
    ensures s in Apply(w, a).tables.sessions && s in w.joinedAt && s in Apply(w, a).joinedAt
    ensures Apply(w, a).joinedAt[s] == w.joinedAt[s]
  {
    if a.RunServer? {
      assert w.serverBox[0].ClearTask? ==> Clears(w.serverBox) > 0;
      var t, v := w.serverBox[0], w.(serverBox := w.serverBox[1..]);
      ListedTask(v, t, s);
    }
  }

  lemma ListedTask(w: World, t: ServerTask, s: Sid)
    requires TablesKnown(w.tables, w.all.Keys) && TaskKnown(w.all.Keys, t) && s in w.tables.sessions && s in w.joinedAt
    requires !w.tables.stopped && !t.ClearTask? && !(t.LeaveTask? && t.s == s)
    ensures s in RunServerTask(w, t).tables.sessions && s in RunServerTask(w, t).joinedAt
    ensures RunServerTask(w, t).joinedAt[s] == w.joinedAt[s]
  {
    if t.TableTask? {
      TableStep(w.tables, t.step, w.all.Keys);
    }
  }

  lemma ListedSince(w: World, s: Sid)
    requires Inv(w) && s in w.tables.sessions && !w.tables.stopped
    ensures s in w.joinedAt && w.joinedAt[s] <= |w.senders|
  {
  }

  /** If the session is listed in `w`, it is in `v`, with the moment it joined. */
  ghost predicate StaysListed(w: World, v: World, s: Sid) {
    s in w.tables.sessions ==>
      && s in v.tables.sessions && s in w.joinedAt && s in v.joinedAt
      && v.joinedAt[s] == w.joinedAt[s]
  }

  lemma ListedOneStep(worlds: seq<World>, actions: seq<Action>, k: nat, s: Sid)
    requires Run(worlds, actions) && k < |actions| && !worlds[k].tables.stopped && !RunsLeave(worlds[k], actions[k], s)
    ensures StaysListed(worlds[k], worlds[k + 1], s)
  {
    RunInv(worlds, actions, k);
    if s in worlds[k].tables.sessions {
      ListedStep(worlds[k], actions[k], s);
    }
  }

  lemma {:induction false} ListedOn(worlds: seq<World>, i: nat, j: nat, s: Sid)
    requires i <= j < |worlds| && s in worlds[i].tables.sessions && s in worlds[i].joinedAt
    requires forall k: nat :: i <= k < j ==> StaysListed(worlds[k], worlds[k + 1], s)
    ensures s in worlds[j].tables.sessions && s in worlds[j].joinedAt && worlds[j].joinedAt[s] == worlds[i].joinedAt[s]
    decreases j
  {
    if i < j {
      ListedOn(worlds, i, j - 1, s);
      assert StaysListed(worlds[j - 1], worlds[j - 1 + 1], s);
    }
  }

  lemma ListedStays(worlds: seq<World>, actions: seq<Action>, i: nat, j: nat, s: Sid)
    requires Run(worlds, actions) && i <= j < |worlds| && s in worlds[i].tables.sessions && !worlds[j].tables.stopped
    requires forall k :: i <= k < j ==> !RunsLeave(worlds[k], actions[k], s)
    ensures s in worlds[j].tables.sessions && s in worlds[i].joinedAt && s in worlds[j].joinedAt
    ensures worlds[j].joinedAt[s] == worlds[i].joinedAt[s] <= |worlds[i].senders|
  {
    RunInv(worlds, actions, i);
    StoppedStays(worlds, actions, i, j);
    ListedSince(worlds[i], s);
    forall k: nat | i <= k < j ensures StaysListed(worlds[k], worlds[k + 1], s) {
      StoppedStays(worlds, actions, k, j);
      ListedOneStep(worlds, actions, k, s);
    }
    ListedOn(worlds, i, j, s);
  }

  /**
   A broadcast that is asked for arrives: when the server has run what was posted, it is on the way to every
   other session that was listed and stayed, unless that lost something; and it is written once nothing is
   pending there.
   */
  lemma BroadcastArrives(worlds: seq<World>, actions: seq<Action>, i: nat, j: nat, sender: Option<Sid>, s: Sid)
    returns (n: nat)
    requires Run(worlds, actions) && i < j < |worlds| && actions[i] == CallBroadcast(sender) && sender != Some(s)
    requires !worlds[j].tables.stopped && worlds[j].serverBox == []
    requires s in worlds[i].tables.sessions && forall k :: i <= k < j ==> !RunsLeave(worlds[k], actions[k], s)
    requires s in worlds[j].all && Intact(worlds[j].all[s])
    ensures |worlds[i].senders| <= n < |worlds[j].senders| && worlds[j].senders[n] == sender
    ensures n in Proj(Global, Pipe(worlds[j].all[s]))
    ensures Quiescent(worlds[j].all[s]) ==> n in Proj(Global, worlds[j].all[s].written)
  {
    var k := BroadcastIsRun(worlds, actions, i, j, sender);
    n := |worlds[k].senders|;
    ListedStays(worlds, actions, i, j, s);
    LosslessSinceJoin(worlds, actions, j, s);
  }

  // ----- the other requests to the server -----

  /** A session that joins is listed, and announced to the listed others if it is named. */
  lemma JoinIsRun(worlds: seq<World>, actions: seq<Action>, i: nat, j: nat, s: Sid) returns (k: nat)
    requires Run(worlds, actions) && i < j < |worlds| && actions[i] == CallJoin(s)
    requires !worlds[j].tables.stopped && worlds[j].serverBox == []
    ensures i < k < j && s in worlds[k].tables.fields
    ensures worlds[k + 1].tables == worlds[k].tables.(sessions := worlds[k].tables.sessions + {s})
    ensures worlds[k + 1].senders == worlds[k].senders
              + if worlds[k].tables.fields[s].nick != worlds[k].tables.fields[s].remote then [Some(s)] else []
  {
    StoppedStays(worlds, actions, i, j);
    assert worlds[i + 1] == Apply(worlds[i], actions[i]);
    RunIsFifo(worlds, actions);
    k := PostedIsServed(worlds, actions, i, j, JoinTask(s));
    StoppedStays(worlds, actions, k, j);
    assert worlds[k + 1] == Apply(worlds[k], actions[k]);
    JoinTaskRuns(worlds[k], s);
  }

  lemma JoinTaskRuns(w: World, s: Sid)
    requires Possible(w, RunServer) && w.serverBox[0] == JoinTask(s) && !w.tables.stopped
    ensures var w' := Apply(w, RunServer);
            && w'.tables == w.tables.(sessions := w.tables.sessions + {s})
            && w'.senders == w.senders
                 + if w.tables.fields[s].nick != w.tables.fields[s].remote then [Some(s)] else []
  {
  }

  /** A session that leaves is not listed afterwards, and announced under its name if it was listed and had one. */
  lemma LeaveIsRun(worlds: seq<World>, actions: seq<Action>, i: nat, j: nat, s: Sid) returns (k: nat)
    requires Run(worlds, actions) && i < j < |worlds| && actions[i] == CallLeave(s)
    requires !worlds[j].tables.stopped && worlds[j].serverBox == []
    ensures i < k < j && s in worlds[i].tables.fields && s in worlds[k].tables.fields
    ensures var nick := worlds[i].tables.fields[s].nick;
            && worlds[k + 1].tables == Registry.Leave(worlds[k].tables, s, nick)
            && worlds[k + 1].tables.sessions == worlds[k].tables.sessions - {s}
            && worlds[k + 1].senders == worlds[k].senders
                 + if s in worlds[k].tables.sessions && nick != "" && nick != worlds[k].tables.fields[s].remote
                   then [None] else []
  {
    assert worlds[i + 1] == Apply(worlds[i], actions[i]);
    var nick := worlds[i].tables.fields[s].nick;
    RunIsFifo(worlds, actions);
    k := PostedIsServed(worlds, actions, i, j, LeaveTask(s, nick));
    StoppedStays(worlds, actions, k, j);
    assert worlds[k + 1] == Apply(worlds[k], actions[k]);
    LeaveTaskRuns(worlds[k], s, nick);
  }

  lemma LeaveTaskRuns(w: World, s: Sid, nick: string)
    requires Possible(w, RunServer) && w.serverBox[0] == LeaveTask(s, nick) && !w.tables.stopped
    ensures var w' := Apply(w, RunServer);
            && w'.tables == Registry.Leave(w.tables, s, nick)
            && w'.tables.sessions == w.tables.sessions - {s}
            && w'.senders == w.senders
                 + if s in w.tables.sessions && nick != "" && nick != w.tables.fields[s].remote then [None] else []
  {
  }

  /** A registration, or a join or leave of a room, that passes its check is carried out, stopped or not by then. */
  lemma RequestIsRun(worlds: seq<World>, actions: seq<Action>, i: nat, j: nat, step: Registry.Action<Sid>)
    returns (k: nat)
    requires Run(worlds, actions) && i < j < |worlds| && actions[i] == CallTables(step)
    requires !worlds[i].tables.stopped && worlds[j].serverBox == []
    ensures i < k < j && Registry.Possible(worlds[k].tables, step)
    ensures worlds[k + 1].tables == Registry.Apply(worlds[k].tables, step)
  {
    assert worlds[i + 1] == Apply(worlds[i], actions[i]);
    RunIsFifo(worlds, actions);
    k := PostedIsServed(worlds, actions, i, j, TableTask(step));
    RunInv(worlds, actions, k);
    assert worlds[k + 1] == Apply(worlds[k], actions[k]);
    TaskFollows(worlds[k].(serverBox := worlds[k].serverBox[1..]), TableTask(step));
  }

  /** Leaving a room off the strand takes effect at once: the session is not in it, and in no current room. */
  lemma LeavingActsAtOnce(worlds: seq<World>, actions: seq<Action>, i: nat, s: Sid, r: string)
    requires Run(worlds, actions) && i < |actions| && actions[i] == LeaveRoomNow(s, r)
    requires !worlds[i].tables.stopped && r in worlds[i].tables.rooms
    ensures var before, after := worlds[i].tables, worlds[i + 1].tables;
            && s in before.fields && after.fields == before.fields[s := before.fields[s].(room := "")]
            && (r in after.rooms ==> after.rooms[r] == before.rooms[r] - {s})
            && (r !in after.rooms ==> before.rooms[r] <= {s})
            && after == before.(rooms := after.rooms, fields := after.fields)
  {
    assert worlds[i + 1] == Apply(worlds[i], actions[i]);
  }

  // ----- stop -----

  /** A call of `stop` raises the flag and lets the clearing be posted, unless it was called before. */
  lemma StopIsRequested(worlds: seq<World>, actions: seq<Action>, i: nat)
    requires Run(worlds, actions) && i < |actions| && actions[i] == CallStop
    ensures worlds[i + 1].tables.stopped
    ensures !worlds[i].tables.stopped ==> Possible(worlds[i + 1], PostClear)
  {
    assert worlds[i + 1] == Apply(worlds[i], actions[i]);
  }

  /** Between `w` and `v` no broadcast has run and no line been begun. */
  ghost predicate NothingNew(w: World, v: World) {
    w.senders == v.senders && forall u :: u in w.lines ==> u in v.lines && |v.lines[u]| == |w.lines[u]|
  }

  /** What a stopped server does not take up. */
  predicate Refusable(a: Action) {
    a.CallJoin? || a.CallBroadcast? || a.CallTables? || a.LeaveRoomNow? || a.BeginLine?
  }

  lemma StoppedTask(w: World, t: ServerTask)
    requires w.tables.stopped && TaskKnown(w.tables.fields.Keys, t)
    ensures NothingNew(w, RunServerTask(w, t))
  {
  }

  lemma StoppedStep(w: World, a: Action)
    requires Inv(w) && Possible(w, a) && w.tables.stopped
    ensures NothingNew(w, Apply(w, a))
    ensures Refusable(a) ==> Apply(w, a) == w
  {
    if a.RunServer? {
      StoppedTask(w.(serverBox := w.serverBox[1..]), w.serverBox[0]);
    }
  }

  lemma {:induction false} NothingNewOn(worlds: seq<World>, i: nat, j: nat)
    requires i <= j < |worlds| && forall k: nat :: i <= k < j ==> NothingNew(worlds[k], worlds[k + 1])
    ensures NothingNew(worlds[i], worlds[j])
    decreases j
  {
    if i < j {
      NothingNewOn(worlds, i, j - 1);
      assert NothingNew(worlds[j - 1], worlds[j - 1 + 1]);
    }
  }

  /**
   From the moment the flag is up no broadcast is run and no line to a room is begun, whatever was posted before
   and is asked for after; and every request but that of a session to leave the server changes nothing.
   */
  lemma StoppedServerIsSilent(worlds: seq<World>, actions: seq<Action>, i: nat, j: nat)
    requires Run(worlds, actions) && i <= j < |worlds| && worlds[i].tables.stopped
    ensures worlds[j].senders == worlds[i].senders
    ensures forall u :: u in worlds[i].lines ==>
              u in worlds[j].lines && |worlds[j].lines[u]| == |worlds[i].lines[u]|
    ensures j < |actions| && Refusable(actions[j]) ==> worlds[j + 1] == worlds[j]
  {
    forall k: nat | i <= k < j ensures NothingNew(worlds[k], worlds[k + 1]) {
      SilentStep(worlds, actions, i, k);
    }
    NothingNewOn(worlds, i, j);
    if j < |actions| {
      SilentStep(worlds, actions, i, j);
    }
  }

  lemma SilentStep(worlds: seq<World>, actions: seq<Action>, i: nat, k: nat)
    requires Run(worlds, actions) && i <= k < |actions| && worlds[i].tables.stopped
    ensures NothingNew(worlds[k], worlds[k + 1])
    ensures Refusable(actions[k]) ==> worlds[k + 1] == worlds[k]
  {
    StoppedStays(worlds, actions, i, k);
    RunInv(worlds, actions, k);
    StoppedStep(worlds[k], actions[k]);
  }

  /** What the clearing does: it empties the lists and tells each session that was listed to stop. */
  lemma ClearTaskRuns(w: World)
    requires Possible(w, RunServer) && w.serverBox[0] == ClearTask
    ensures var w' := Apply(w, RunServer);
            && w'.clearing == Done && w'.atClear == w.tables.sessions && w'.all.Keys == w.all.Keys
            && w'.tables.sessions == {} && w'.tables.rooms == map[] && w'.tables.nicknames == map[]
            && forall s :: s in w.all ==>
                 && w'.all[s].box == w.all[s].box + (if s in w.tables.sessions then [Stop] else [])
                 && w'.all[s].pump == w.all[s].pump && w'.all[s].written == w.all[s].written
  {
    forall s | s in w.all ensures w.all[s].box + [] == w.all[s].box {
    }
  }

  /**
   Once posted, the clearing is run: when the strand is empty, no session is listed and no room exists, and
   exactly the sessions that were listed at that moment got a task to stop, last on their strands.
   */
  lemma StopIsCarriedOut(worlds: seq<World>, actions: seq<Action>, i: nat, j: nat) returns (k: nat)
    requires Run(worlds, actions) && i < j < |worlds| && actions[i] == PostClear && worlds[j].serverBox == []
    ensures i < k < j && worlds[k + 1].clearing.Done? && worlds[j].clearing.Done?
    ensures worlds[k + 1].atClear == worlds[k].tables.sessions == worlds[j].atClear
    ensures worlds[k + 1].tables.nicknames == map[]
    ensures worlds[j].tables.sessions == {} && worlds[j].tables.rooms == map[]
    ensures worlds[k].all.Keys == worlds[k + 1].all.Keys
    ensures forall s :: s in worlds[k].all ==>
              worlds[k + 1].all[s].box
              == worlds[k].all[s].box + (if s in worlds[k].tables.sessions then [Stop] else [])
  {
    assert worlds[i + 1] == Apply(worlds[i], actions[i]);
    RunIsFifo(worlds, actions);
    k := PostedIsServed(worlds, actions, i, j, ClearTask);
    assert worlds[k + 1] == Apply(worlds[k], actions[k]);
    ClearTaskRuns(worlds[k]);
    StopIsAbsorbing(worlds, actions, k + 1, j);
    DoneForever(worlds, actions, k + 1, j);
  }

  /** A TCP session has stopped, or will when its strand has run. */
  ghost predicate Stopping(x: Session) { x.pump.Tcp? ==> x.pump.tcp.stopped || Stop in x.box }

  lemma StepStops(x: Session, step: SessionStep)
    requires MayStep(x, step) && Stopping(x)
    ensures Stopping(StepSession(x, step)) && (StepSession(x, step).pump.Tcp? <==> x.pump.Tcp?)
  {
    if step.RunStrand? {
      assert x.box == [x.box[0]] + x.box[1..];
    }
  }

  lemma SessionStops(w: World, a: Action, s: Sid)
    requires Possible(w, a) && s in w.all && Stopping(w.all[s])
    ensures s in Apply(w, a).all && Stopping(Apply(w, a).all[s])
    ensures Apply(w, a).all[s].pump.Tcp? <==> w.all[s].pump.Tcp?
  {
    if a.RunServer? {
      TaskStops(w.(serverBox := w.serverBox[1..]), w.serverBox[0], s);
    } else if a.AtSession? && a.s == s {
      StepStops(w.all[s], a.does);
    }
  }

  lemma TaskStops(w: World, t: ServerTask, s: Sid)
    requires TaskKnown(w.tables.fields.Keys, t) && s in w.all
    ensures s in RunServerTask(w, t).all && RunServerTask(w, t).all[s].pump == w.all[s].pump
    ensures w.all[s].box <= RunServerTask(w, t).all[s].box
  {
  }

  /** If the session is stopping in `w`, it is in `v`. */
  ghost predicate StaysStopping(w: World, v: World, s: Sid) {
    s in w.all && Stopping(w.all[s]) ==>
      s in v.all && Stopping(v.all[s]) && (v.all[s].pump.Tcp? <==> w.all[s].pump.Tcp?)
  }

  lemma {:induction false} StoppingOn(worlds: seq<World>, i: nat, j: nat, s: Sid)
    requires i <= j < |worlds| && s in worlds[i].all && Stopping(worlds[i].all[s])
    requires forall k: nat :: i <= k < j ==> StaysStopping(worlds[k], worlds[k + 1], s)
    ensures s in worlds[j].all && Stopping(worlds[j].all[s])
    ensures worlds[j].all[s].pump.Tcp? <==> worlds[i].all[s].pump.Tcp?
    decreases j
  {
    if i < j {
      StoppingOn(worlds, i, j - 1, s);
      assert StaysStopping(worlds[j - 1], worlds[j - 1 + 1], s);
    }
  }

  lemma StoppingStays(worlds: seq<World>, actions: seq<Action>, i: nat, j: nat, s: Sid)
    requires Run(worlds, actions) && i <= j < |worlds| && s in worlds[i].all && Stopping(worlds[i].all[s])
    ensures s in worlds[j].all && Stopping(worlds[j].all[s])
    ensures worlds[j].all[s].pump.Tcp? <==> worlds[i].all[s].pump.Tcp?
  {
    forall k: nat | i <= k < j ensures StaysStopping(worlds[k], worlds[k + 1], s) {
      if s in worlds[k].all && Stopping(worlds[k].all[s]) {
        SessionStops(worlds[k], actions[k], s);
      }
    }
    StoppingOn(worlds, i, j, s);
  }

  /** A TCP session that is told to stop has stopped when its strand is empty again. */
  lemma ToldSessionsStop(worlds: seq<World>, actions: seq<Action>, i: nat, j: nat, s: Sid)
    requires Run(worlds, actions) && i < j < |worlds| && actions[i] == PostClear && worlds[j].serverBox == []
    requires s in worlds[j].atClear && s in worlds[j].all && worlds[j].all[s].pump.Tcp? && worlds[j].all[s].box == []
    ensures worlds[j].all[s].pump.tcp.stopped
  {
    var k := StopIsCarriedOut(worlds, actions, i, j);
    RunInv(worlds, actions, k);
    assert s in worlds[k].all;
    assert Stop in worlds[k + 1].all[s].box;
    StoppingStays(worlds, actions, k + 1, j, s);
  }

  /** Calling `stop_session`, like `/quit`, stops a TCP session at once and for good. */
  lemma StopSessionStops(worlds: seq<World>, actions: seq<Action>, i: nat, j: nat, s: Sid, step: SessionStep)
    requires Run(worlds, actions) && i < j < |worlds|
    requires actions[i] == AtSession(s, step) && step in {CallStopSession, Quit}
    requires s in worlds[i].all && worlds[i].all[s].pump.Tcp?
    ensures s in worlds[j].all && worlds[j].all[s].pump.Tcp? && worlds[j].all[s].pump.tcp.stopped
  {
    assert worlds[i + 1] == Apply(worlds[i], actions[i]);
    StoppedOnlySpends(worlds, actions, i + 1, j, s);
  }

  /** A broken connection posts a stop to a running TCP session, which has stopped when its strand is empty again. */
  lemma BrokenSessionStops(worlds: seq<World>, actions: seq<Action>, i: nat, j: nat, s: Sid)
    requires Run(worlds, actions) && i < j < |worlds| && actions[i] == AtSession(s, WriteEnds(TcpPump.Broken))
    requires s in worlds[i].all && worlds[i].all[s].pump.Tcp?
    requires s in worlds[j].all && worlds[j].all[s].box == []
    ensures worlds[j].all[s].pump.Tcp? && worlds[j].all[s].pump.tcp.stopped
  {
    assert worlds[i + 1] == Apply(worlds[i], actions[i]);
    StoppingStays(worlds, actions, i + 1, j, s);
  }

  // ----- what is lost -----

  /** More is queued than the write that is outstanding, so that a stop loses something. */
  predicate HasMoreQueued(p: Pump) { p.Tcp? && !p.tcp.stopped && |p.tcp.queue| > |p.tcp.outstanding| }

  /** The step of the session loses a message. */
  predicate Loses(x: Session, step: SessionStep)
    requires MayStep(x, step)
  {
    match step
    case CallDeliver(_) => false
    case RunStrand =>
      || (x.box[0].Push? && x.pump.Tcp? && x.pump.tcp.stopped)
      || (x.box[0].Push? && x.pump.Ws? && |x.pump.ws.queue| >= 100)
      || (x.box[0].Stop? && HasMoreQueued(x.pump))
    case WriteEnds(c) => x.pump.Tcp? && !c.Written?
    case _ => HasMoreQueued(x.pump)
  }

  lemma StepLoses(x: Session, step: SessionStep)
    requires MayStep(x, step)
    ensures StepSession(x, step).lossy <==> x.lossy || Loses(x, step)
    ensures StepSession(x, step).failed <==> x.failed || (step.WriteEnds? && !step.c.Written?)
  {
  }

  lemma OthersLoseNothing(w: World, a: Action, s: Sid)
    requires Possible(w, a) && s in w.all && !(a.AtSession? && a.s == s)
    ensures s in Apply(w, a).all
    ensures Apply(w, a).all[s].lossy == w.all[s].lossy && Apply(w, a).all[s].failed == w.all[s].failed
  {
    if a.RunServer? {
      TaskLosesNothing(w.(serverBox := w.serverBox[1..]), w.serverBox[0], s);
    }
  }

  lemma TaskLosesNothing(w: World, t: ServerTask, s: Sid)
    requires TaskKnown(w.tables.fields.Keys, t) && s in w.all
    ensures var v := RunServerTask(w, t);
            && s in v.all && v.all[s].lossy == w.all[s].lossy && v.all[s].failed == w.all[s].failed
            && v.all[s].pump == w.all[s].pump
  {
  }

  /** The step of the session stops it, fails a write, or drops a message. */
  predicate Harms(x: Session, step: SessionStep)
    requires MayStep(x, step)
  {
    match step
    case CallDeliver(_) => false
    case RunStrand => if x.pump.Tcp? then x.box[0].Stop? else x.box[0].Push? && |x.pump.ws.queue| >= 100
    case WriteEnds(c) => !c.Written?
    case _ => x.pump.Tcp?
  }

  lemma StepHarms(x: Session, step: SessionStep)
    requires MayStep(x, step) && Intact(x)
    ensures Intact(StepSession(x, step)) <==> !Harms(x, step)
  {
  }

  lemma OthersStayIntact(w: World, a: Action, s: Sid)
    requires Possible(w, a) && s in w.all && Intact(w.all[s]) && !(a.AtSession? && a.s == s)
    ensures s in Apply(w, a).all && Intact(Apply(w, a).all[s])
  {
    if a.RunServer? {
      TaskLosesNothing(w.(serverBox := w.serverBox[1..]), w.serverBox[0], s);
    }
  }

  /**
   A session loses a message exactly when one comes off its strand while it is stopped or has a hundred queued,
   when it is stopped with more queued than is being written, and when a write of a TCP session fails. It stays
   intact exactly until it is stopped, drops a message or a write fails.
   */
  lemma LossExactly(worlds: seq<World>, actions: seq<Action>, i: nat, s: Sid)
    requires Run(worlds, actions) && i < |actions| && s in worlds[i].all
    ensures s in worlds[i + 1].all
    ensures var own := actions[i].AtSession? && actions[i].s == s;
            && (worlds[i + 1].all[s].lossy <==>
                  worlds[i].all[s].lossy || (own && Loses(worlds[i].all[s], actions[i].does)))
            && (Intact(worlds[i].all[s]) ==>
                  (Intact(worlds[i + 1].all[s]) <==> !(own && Harms(worlds[i].all[s], actions[i].does))))
  {
    var w, a := worlds[i], actions[i];
    if a.AtSession? && a.s == s {
      StepLoses(w.all[s], a.does);
      if Intact(w.all[s]) {
        StepHarms(w.all[s], a.does);
      }
    } else {
      OthersLoseNothing(w, a, s);
      if Intact(w.all[s]) {
        OthersStayIntact(w, a, s);
      }
    }
  }

  // ----- messages given to one session -----

  /** The texts of messages that belong to no channel. */
  function Texts(items: seq<Item>): seq<string> {
    if items == [] then [] else (if items[0].Plain? then [items[0].text] else []) + Texts(items[1..])
  }

  lemma {:induction false} TextsConcat(a: seq<Item>, b: seq<Item>)
    ensures Texts(a + b) == Texts(a) + Texts(b)
  {
    if a == [] {
      assert a + b == b;
    } else {
      assert (a + b)[1..] == a[1..] + b;
      TextsConcat(a[1..], b);
    }
  }

  lemma {:induction false} NoTexts(items: seq<Item>)
    requires forall i :: i in items ==> i.Numbered?
    ensures Texts(items) == []
  {
    if items != [] {
      assert items[0] in items;
      NoTexts(items[1..]);
    }
  }

  lemma PushTexts(front: seq<Item>, p: seq<Item>, m: Item, d: seq<Item>)
    requires Texts(d) == []
    ensures Texts(front + (p + [m]) + d) == Texts(front + p + d) + if m.Plain? then [m.text] else []
  {
    Associative(front, p, [m]);
    TextsConcat(front + p, d);
    TextsConcat(front + p + [m], d);
    TextsConcat(front + p, [m]);
    assert Texts([m]) == (if m.Plain? then [m.text] else []) + Texts([]);
  }

  /** What of a message counts as given. */
  function TextOf(t: Task<Item>): seq<string> { if t.Push? && t.m.Plain? then [t.m.text] else [] }

  lemma PostPipe(x: Session, t: Task<Item>)
    ensures var front, p, d := x.written + InTransit(x.pump), Pushes(x.box), Delivers(x.box);
            Pipe(Post(x, t)) == if t.Push? then front + (p + [t.m]) + d
                                else if t.Deliver? then front + p + (d + [t.m])
                                else front + p + d
  {
    PostLast(x.box, t);
  }

  lemma PostTexts(x: Session, t: Task<Item>)
    requires Sound(x) && (t.Deliver? ==> t.m.Numbered?)
    ensures Texts(Pipe(Post(x, t))) == Texts(Pipe(x)) + TextOf(t)
  {
    var front, p, d := x.written + InTransit(x.pump), Pushes(x.box), Delivers(x.box);
    PostPipe(x, t);
    NoTexts(d);
    if t.Push? {
      PushTexts(front, p, t.m, d);
    } else if t.Deliver? {
      DeliverTexts(front + p, d, t.m);
    }
  }

  lemma DeliverTexts(front: seq<Item>, d: seq<Item>, m: Item)
    requires m.Numbered? && forall i :: i in d ==> i.Numbered?
    ensures Texts(front + (d + [m])) == Texts(front + d)
  {
    NoTexts(d);
    NoTexts(d + [m]);
    TextsConcat(front, d);
    TextsConcat(front, d + [m]);
  }

  /** The messages given to the session by action `a`. */
  function Given(w: World, a: Action, s: Sid): seq<string> {
    if a.AtSession? && a.s == s && a.does.CallDeliver? then [a.does.text]
    else if a.AtSession? && a.s == s && a.does.Quit? && s in w.all && w.all[s].pump.Tcp? && !w.all[s].pump.tcp.stopped
    then [Framing.FAREWELL]
    else []
  }

  function GivenUpTo(worlds: seq<World>, actions: seq<Action>, j: nat, s: Sid): seq<string>
    requires j <= |actions| && j <= |worlds|
  {
    if j == 0 then [] else GivenUpTo(worlds, actions, j - 1, s) + Given(worlds[j - 1], actions[j - 1], s)
  }

  /** Unless something is lost, nothing a session does by itself changes what is on its way. */
  lemma StepKeepsPipe(x: Session, step: SessionStep)
    requires Sound(x) && MayStep(x, step) && !StepSession(x, step).lossy && !step.CallDeliver? && !step.Quit?
    ensures !x.lossy && Pipe(StepSession(x, step)) == Pipe(x)
  {
    match step
    case RunStrand => RunKeepsPipe(x);
    case WriteEnds(c) =>
      CompleteKeepsBox(x, c);
      CompleteSound(x, c);
      if c.Written? {
        WriteKeepsPipe(x);
      }
    case CallStopSession => StopKeepsPipe(x);
  }

  lemma StopKeepsPipe(x: Session)
    requires Sound(x) && !StopPump(x).lossy
    ensures !x.lossy && Pipe(StopPump(x)) == Pipe(x)
  {
    if x.pump.Tcp? {
      assert InTransit(x.pump) == x.pump.tcp.outstanding;
    }
  }

  lemma RunKeepsPipe(x: Session)
    requires Sound(x) && x.box != [] && !RunFirst(x).lossy
    ensures !x.lossy && Pipe(RunFirst(x)) == Pipe(x)
  {
    var rest := x.box[1..];
    match x.box[0]
    case Deliver(i) =>
      PostLast(rest, Push(i));
      assert Delivers(x.box) == [i] + Delivers(rest) && Pushes(x.box) == Pushes(rest);
      Regroup(x.written + InTransit(x.pump), Pushes(rest), [i], Delivers(rest));
    case Push(i) =>
      assert Pushes(x.box) == [i] + Pushes(rest) && Delivers(x.box) == Delivers(rest);
      assert InTransit(RunFirst(x).pump) == InTransit(x.pump) + [i];
      Regroup(x.written, InTransit(x.pump), [i], Pushes(rest));
    case Stop =>
      var y := x.(box := rest);
      assert Pipe(y) == Pipe(x);
      StopKeepsPipe(y);
  }

  lemma StepTexts(w: World, s: Sid, step: SessionStep)
    requires s in w.all && Sound(w.all[s]) && MayStep(w.all[s], step) && !StepSession(w.all[s], step).lossy
    ensures !w.all[s].lossy
    ensures Texts(Pipe(StepSession(w.all[s], step))) == Texts(Pipe(w.all[s])) + Given(w, AtSession(s, step), s)
  {
    var x := w.all[s];
    match step
    case CallDeliver(text) => PostTexts(x, Push(Plain(text)));
    case Quit =>
      PostTexts(x, Push(Plain(Framing.FAREWELL)));
      var y := Post(x, Push(Plain(Framing.FAREWELL)));
      PostSound(x, Push(Plain(Framing.FAREWELL)));
      if x.pump.Tcp? && !x.pump.tcp.stopped {
        StopKeepsPipe(y);
      }
    case _ => StepKeepsPipe(x, step);
  }

  /** At most one task, without a text, has been posted. */
  ghost predicate NoTextPosted(x: Session, y: Session) {
    y == x || exists t: Task<Item> :: (t.Stop? || t.m.Numbered?) && y == Post(x, t).(told := y.told)
  }

  /** Posting a numbered message or a stop adds no text and loses nothing. */
  lemma PostedTexts(x: Session, y: Session)
    requires Sound(x) && NoTextPosted(x, y)
    ensures y.lossy == x.lossy && Texts(Pipe(y)) == Texts(Pipe(x))
  {
    if y != x {
      var t: Task<Item> :| (t.Stop? || t.m.Numbered?) && y == Post(x, t).(told := y.told);
      PostTexts(x, t);
      assert Pipe(y) == Pipe(Post(x, t));
    }
  }

  lemma TaskPosts(w: World, t: ServerTask, s: Sid)
    requires TaskKnown(w.tables.fields.Keys, t) && s in w.all
    ensures s in RunServerTask(w, t).all
    ensures NoTextPosted(w.all[s], RunServerTask(w, t).all[s])
  {
    var x, y := w.all[s], RunServerTask(w, t).all[s];
    var n := Deliver(Numbered(Global, |w.reached|));
    assert y == x || y == Post(x, n).(told := y.told) || y == Post(x, Stop).(told := y.told);
  }

  lemma LinePosts(w: World, u: Sid, t: Sid, s: Sid)
    requires MayReach(w, u, t) && s in w.all
    ensures NoTextPosted(w.all[s], ReachNext(w, u, t).all[s])
  {
    if t == s {
      var task := Push(Numbered(Room(u), |w.lines[u]| - 1));
      assert ReachNext(w, u, t).all[s] == Post(w.all[s], task).(told := w.all[s].told);
    }
  }

  lemma WorldTexts(w: World, a: Action, s: Sid)
    requires Sessions(w) && Possible(w, a) && s in w.all && s in Apply(w, a).all && !Apply(w, a).all[s].lossy
    ensures !w.all[s].lossy
    ensures Texts(Pipe(Apply(w, a).all[s])) == Texts(Pipe(w.all[s])) + Given(w, a, s)
  {
    assert SessionOk(w, s, w.all[s]);
    match a
    case RunServer =>
      TaskPosts(w.(serverBox := w.serverBox[1..]), w.serverBox[0], s);
      PostedTexts(w.all[s], Apply(w, a).all[s]);
    case LineReaches(u, t) =>
      LinePosts(w, u, t, s);
      PostedTexts(w.all[s], Apply(w, a).all[s]);
    case AtSession(t, step) =>
      if t == s {
        StepTexts(w, s, step);
      }
    case _ =>
  }

  /**
   The messages given to one session, such as answers, notices and private messages: as long as nothing was
   lost on its way, what is written, queued or posted of them is all of them, each once and in order.
   */
  lemma {:induction false} GivenIsDelivered(worlds: seq<World>, actions: seq<Action>, j: nat, s: Sid)
    requires Run(worlds, actions) && j < |worlds| && s in worlds[j].all && !worlds[j].all[s].lossy
    ensures Texts(Pipe(worlds[j].all[s])) == GivenUpTo(worlds, actions, j, s)
    ensures Quiescent(worlds[j].all[s]) && Intact(worlds[j].all[s]) ==>
              Texts(worlds[j].all[s].written) == GivenUpTo(worlds, actions, j, s)
  {
    RunInv(worlds, actions, j);
    assert SessionOk(worlds[j], s, worlds[j].all[s]);
    if Quiescent(worlds[j].all[s]) && Intact(worlds[j].all[s]) {
      assert Pipe(worlds[j].all[s]) == worlds[j].all[s].written;
    }
    if j > 0 {
      var w, a := worlds[j - 1], actions[j - 1];
      RunInv(worlds, actions, j - 1);
      if s in w.all {
        WorldTexts(w, a, s);
        GivenIsDelivered(worlds, actions, j - 1, s);
      } else {
        NewSession(worlds, actions, j, s);
      }
    }
  }

  lemma NewSession(worlds: seq<World>, actions: seq<Action>, j: nat, s: Sid)
    requires Run(worlds, actions) && 0 < j < |worlds| && s !in worlds[j - 1].all && s in worlds[j].all
    ensures Pipe(worlds[j].all[s]) == [] && GivenUpTo(worlds, actions, j, s) == []
  {
    assert worlds[j - 1 + 1] == Apply(worlds[j - 1], actions[j - 1]);
    NewInStep(worlds[j - 1], actions[j - 1], s);
    NothingGiven(worlds, actions, j - 1, s);
  }

  lemma NewInStep(w: World, a: Action, s: Sid)
    requires Possible(w, a) && s !in w.all && s in Apply(w, a).all
    ensures a.Create? && Pipe(Apply(w, a).all[s]) == []
  {
  }

  lemma KnownStay(w: World, a: Action)
    requires Possible(w, a)
    ensures w.all.Keys <= Apply(w, a).all.Keys
  {
  }

  lemma NothingGivenYet(w: World, a: Action, s: Sid)
    requires Possible(w, a) && s !in w.all
    ensures Given(w, a, s) == []
  {
  }

  lemma {:induction false} UnknownBefore(worlds: seq<World>, k: nat, j: nat, s: Sid)
    requires k <= j < |worlds| && s !in worlds[j].all
    requires forall i: nat :: i < j ==> worlds[i].all.Keys <= worlds[i + 1].all.Keys
    ensures s !in worlds[k].all
    decreases j
  {
    if k < j {
      assert worlds[j - 1].all.Keys <= worlds[j - 1 + 1].all.Keys;
      UnknownBefore(worlds, k, j - 1, s);
    }
  }

  ghost predicate GivesNone(w: World, a: Action, s: Sid) { Given(w, a, s) == [] }

  lemma {:induction false} NoneGiven(worlds: seq<World>, actions: seq<Action>, j: nat, s: Sid)
    requires j <= |actions| && j <= |worlds|
    requires forall i: nat :: i < j ==> GivesNone(worlds[i], actions[i], s)
    ensures GivenUpTo(worlds, actions, j, s) == []
  {
    if j > 0 {
      NoneGiven(worlds, actions, j - 1, s);
      assert GivesNone(worlds[j - 1], actions[j - 1], s);
    }
  }

  lemma NothingGiven(worlds: seq<World>, actions: seq<Action>, j: nat, s: Sid)
    requires Run(worlds, actions) && j < |worlds| && s !in worlds[j].all
    ensures GivenUpTo(worlds, actions, j, s) == []
  {
    forall i: nat | i < j ensures worlds[i].all.Keys <= worlds[i + 1].all.Keys {
      KnownStay(worlds[i], actions[i]);
    }
    forall i: nat | i < j ensures GivesNone(worlds[i], actions[i], s) {
      UnknownBefore(worlds, i, j, s);
      NothingGivenYet(worlds[i], actions[i], s);
    }
    NoneGiven(worlds, actions, j, s);
  }

  // ----- nothing is stuck -----

  lemma CallsPossible(w: World, s: Sid)
    requires Inv(w) && s in w.all
    ensures Possible(w, CallJoin(s)) && Possible(w, CallLeave(s)) && Possible(w, CallStop)
    ensures Possible(w, CallBroadcast(Some(s))) && Possible(w, CallBroadcast(None))
    ensures forall r :: Possible(w, LeaveRoomNow(s, r))
  {
  }

  lemma LinePossible(w: World, s: Sid, r: string, t: Sid)
    requires Inv(w) && s in w.all
    ensures s in w.pending
    ensures w.pending[s] == {} ==> Possible(w, BeginLine(s, r))
    ensures t in w.pending[s] ==> Possible(w, LineReaches(s, t))
  {
    assert LineOk(w.lines[s], w.pending[s], s, w.all.Keys);
  }

  lemma WritePossible(w: World, s: Sid, c: TcpPump.Completion)
    requires Inv(w) && s in w.all && Outstanding(w.all[s].pump) != []
    ensures Possible(w, AtSession(s, WriteEnds(c)))
  {
    assert SessionOk(w, s, w.all[s]);
  }

  /** In every world of every run each call can be made, and whatever waits can go on. */
  lemma NothingStuck(worlds: seq<World>, actions: seq<Action>, i: nat, s: Sid, r: string, t: Sid, text: string,
                     c: TcpPump.Completion)
    requires Run(worlds, actions) && i < |worlds| && s in worlds[i].all
    ensures s in worlds[i].pending
    ensures var w := worlds[i];
            && Possible(w, CallJoin(s)) && Possible(w, CallLeave(s)) && Possible(w, CallStop)
            && Possible(w, CallBroadcast(Some(s))) && Possible(w, CallBroadcast(None))
            && Possible(w, LeaveRoomNow(s, r))
            && (w.pending[s] == {} ==> Possible(w, BeginLine(s, r)))
            && (t in w.pending[s] ==> Possible(w, LineReaches(s, t)))
            && Possible(w, AtSession(s, CallDeliver(text)))
            && (w.all[s].box != [] ==> Possible(w, AtSession(s, RunStrand)))
            && (Outstanding(w.all[s].pump) != [] ==> Possible(w, AtSession(s, WriteEnds(c))))
            && (w.serverBox != [] ==> Possible(w, RunServer))
  {
    RunInv(worlds, actions, i);
    var w := worlds[i];
    CallsPossible(w, s);
    LinePossible(w, s, r, t);
    if Outstanding(w.all[s].pump) != [] {
      WritePossible(w, s, c);
    }
    if w.serverBox != [] {
      ServerNeverStuck(worlds, actions, i);
    }
  }
}
