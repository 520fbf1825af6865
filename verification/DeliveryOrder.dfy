/**
 What every interleaving of the delivery machine keeps: on each channel the messages on their way
 to a session, from written to still posted, are in order and each there once.
 */
module DeliveryOrder {
  import opened Seqs
  import opened Strands
  import opened Delivery
  import TcpPump

  // ----- one channel of a sequence of messages -----

  function NumberOn(c: Channel, i: Item): seq<nat> {
    if i.Numbered? && i.channel == c then [i.n] else []
  }

  /** The numbers that the messages of channel `c` carry, in the order of the sequence. */
  function Proj(c: Channel, items: seq<Item>): seq<nat> {
    if items == [] then [] else NumberOn(c, items[0]) + Proj(c, items[1..])
  }

  lemma {:induction false} ProjConcat(c: Channel, a: seq<Item>, b: seq<Item>)
    ensures Proj(c, a + b) == Proj(c, a) + Proj(c, b)
  {
    if a == [] {
      assert a + b == b;
    } else {
      assert (a + b)[1..] == a[1..] + b;
      ProjConcat(c, a[1..], b);
    }
  }

  lemma ProjOne(c: Channel, i: Item)
    ensures Proj(c, [i]) == NumberOn(c, i)
  {
    assert Proj(c, [i]) == NumberOn(c, i) + Proj(c, []);
  }

  ghost predicate Increasing(ns: seq<nat>) {
    forall i, j :: 0 <= i < j < |ns| ==> ns[i] < ns[j]
  }

  /** The positions up to `k` at which the history of a channel reached session `s`. */
  ghost function Expected(h: seq<set<Sid>>, s: Sid, k: nat): seq<nat>
    requires k <= |h|
  {
    if k == 0 then [] else Expected(h, s, k - 1) + if s in h[k - 1] then [k - 1] else []
  }

  lemma {:induction false} ExpectedAgrees(h: seq<set<Sid>>, h': seq<set<Sid>>, s: Sid, k: nat)
    requires k <= |h| && k <= |h'|
    requires forall n :: 0 <= n < k ==> (s in h[n] <==> s in h'[n])
    ensures Expected(h, s, k) == Expected(h', s, k)
  {
    if k > 0 {
      ExpectedAgrees(h, h', s, k - 1);
    }
  }

  lemma {:induction false} ExpectedMembers(h: seq<set<Sid>>, s: Sid, k: nat)
    requires k <= |h|
    ensures Increasing(Expected(h, s, k))
    ensures forall n :: n in Expected(h, s, k) <==> 0 <= n < k && s in h[n]
  {
    if k > 0 {
      ExpectedMembers(h, s, k - 1);
      var before := Expected(h, s, k - 1);
      assert forall i :: 0 <= i < |before| ==> before[i] in before;
    }
  }

  // ----- one channel to one session -----

  /** The numbers are those of messages that were posted to `s`, in order, and all of them if nothing was lost. */
  ghost predicate ChannelOk(ns: seq<nat>, h: seq<set<Sid>>, s: Sid, lossy: bool) {
    && Increasing(ns)
    && (forall n :: n in ns ==> n < |h| && s in h[n])
    && (!lossy ==> ns == Expected(h, s, |h|))
  }

  /** A history that grew without reaching `s`. */
  ghost predicate Passes(h: seq<set<Sid>>, h': seq<set<Sid>>, s: Sid) {
    && |h| <= |h'|
    && (forall n :: 0 <= n < |h| ==> (s in h[n] <==> s in h'[n]))
    && (forall n :: |h| <= n < |h'| ==> s !in h'[n])
  }

  lemma {:induction false} ExpectedPasses(h: seq<set<Sid>>, h': seq<set<Sid>>, s: Sid, k: nat)
    requires Passes(h, h', s) && |h| <= k <= |h'|
    ensures Expected(h', s, k) == Expected(h, s, |h|)
  {
    if k == |h| {
      ExpectedAgrees(h, h', s, k);
    } else {
      ExpectedPasses(h, h', s, k - 1);
    }
  }

  lemma ChannelPasses(ns: seq<nat>, h: seq<set<Sid>>, h': seq<set<Sid>>, s: Sid, lossy: bool)
    requires ChannelOk(ns, h, s, lossy) && Passes(h, h', s)
    ensures ChannelOk(ns, h', s, lossy)
  {
    ExpectedPasses(h, h', s, |h'|);
  }

  /** A history whose last entry, old or new, now reaches `s` as well. */
  ghost predicate Reaches(h: seq<set<Sid>>, h': seq<set<Sid>>, s: Sid) {
    && h' != [] && |h| <= |h'| <= |h| + 1
    && (forall n :: 0 <= n < |h'| - 1 ==> (s in h[n] <==> s in h'[n]))
    && s in h'[|h'| - 1]
    && (|h'| == |h| ==> s !in h[|h| - 1])
  }

  lemma ReachesExpected(h: seq<set<Sid>>, h': seq<set<Sid>>, s: Sid)
    requires Reaches(h, h', s)
    ensures Expected(h', s, |h'|) == Expected(h, s, |h|) + [|h'| - 1]
  {
    ExpectedAgrees(h, h', s, |h'| - 1);
    assert Expected(h', s, |h'|) == Expected(h', s, |h'| - 1) + [|h'| - 1];
    if |h| == |h'| {
      assert Expected(h, s, |h|) == Expected(h, s, |h| - 1) + [];
    }
  }

  lemma ReachesMembers(ns: seq<nat>, h: seq<set<Sid>>, h': seq<set<Sid>>, s: Sid)
    requires Reaches(h, h', s) && forall n :: n in ns ==> n < |h| && s in h[n]
    ensures forall n :: n in ns ==> n < |h'| - 1 && s in h'[n]
  {
  }

  lemma IncreasingLast(ns: seq<nat>, last: nat)
    requires Increasing(ns) && forall n :: n in ns ==> n < last
    ensures Increasing(ns + [last])
  {
    assert forall i :: 0 <= i < |ns| ==> ns[i] in ns;
  }

  lemma ChannelReaches(ns: seq<nat>, h: seq<set<Sid>>, h': seq<set<Sid>>, s: Sid, lossy: bool)
    requires ChannelOk(ns, h, s, lossy) && Reaches(h, h', s)
    ensures ChannelOk(ns + [|h'| - 1], h', s, lossy)
  {
    ReachesMembers(ns, h, h', s);
    IncreasingLast(ns, |h'| - 1);
    ReachesExpected(h, h', s);
  }

  lemma ChannelLoses(a: seq<nat>, b: seq<nat>, d: seq<nat>, h: seq<set<Sid>>, s: Sid, lossy: bool)
    requires ChannelOk(a + b + d, h, s, lossy)
    ensures ChannelOk(a + d, h, s, true)
  {
    var abd, ad := a + b + d, a + d;
    forall i, j | 0 <= i < j < |ad| ensures ad[i] < ad[j] {
      var i', j' := if i < |a| then i else i + |b|, if j < |a| then j else j + |b|;
      assert ad[i] == abd[i'] && ad[j] == abd[j'];
    }
    forall n | n in ad ensures n in abd {
      var i :| 0 <= i < |ad| && ad[i] == n;
      assert abd[if i < |a| then i else i + |b|] == n;
    }
  }

  // ----- one session -----

  ghost function History(w: World, c: Channel): seq<set<Sid>> {
    match c
    case Global => w.reached
    case Room(u) => if u in w.lines then w.lines[u] else []
  }

  ghost predicate PipeOk(w: World, s: Sid, x: Session) {
    forall c: Channel :: ChannelOk(Proj(c, Pipe(x)), History(w, c), s, x.lossy)
  }

  ghost predicate SessionOk(w: World, s: Sid, x: Session) { Sound(x) && PipeOk(w, s, x) }

  lemma SameProjOk(w: World, s: Sid, x: Session, y: Session)
    requires PipeOk(w, s, x)
    requires x.lossy == y.lossy
    requires forall c: Channel :: Proj(c, Pipe(y)) == Proj(c, Pipe(x))
    ensures PipeOk(w, s, y)
  {
    forall c: Channel ensures ChannelOk(Proj(c, Pipe(y)), History(w, c), s, y.lossy) {
      assert ChannelOk(Proj(c, Pipe(x)), History(w, c), s, x.lossy);
    }
  }

  lemma LossyOk(w: World, s: Sid, x: Session, y: Session, a: seq<Item>, b: seq<Item>, d: seq<Item>)
    requires PipeOk(w, s, x)
    requires Pipe(x) == a + b + d && Pipe(y) == a + d && y.lossy
    ensures PipeOk(w, s, y)
  {
    forall c: Channel ensures ChannelOk(Proj(c, Pipe(y)), History(w, c), s, y.lossy) {
      assert ChannelOk(Proj(c, Pipe(x)), History(w, c), s, x.lossy);
      ProjConcat(c, a + b, d);
      ProjConcat(c, a, b);
      ProjConcat(c, a, d);
      ChannelLoses(Proj(c, a), Proj(c, b), Proj(c, d), History(w, c), s, x.lossy);
    }
  }

  lemma HistoryPasses(w: World, w': World, s: Sid, x: Session)
    requires SessionOk(w, s, x)
    requires forall c: Channel :: Passes(History(w, c), History(w', c), s)
    ensures SessionOk(w', s, x)
  {
    forall c: Channel ensures ChannelOk(Proj(c, Pipe(x)), History(w', c), s, x.lossy) {
      assert ChannelOk(Proj(c, Pipe(x)), History(w, c), s, x.lossy);
      assert Passes(History(w, c), History(w', c), s);
      ChannelPasses(Proj(c, Pipe(x)), History(w, c), History(w', c), s, x.lossy);
    }
  }

  lemma ProjInsert(c: Channel, a: seq<Item>, i: Item, d: seq<Item>)
    ensures Proj(c, a + [i] + d) == Proj(c, a) + NumberOn(c, i) + Proj(c, d)
  {
    ProjConcat(c, a + [i], d);
    ProjConcat(c, a, [i]);
    ProjOne(c, i);
  }

  /** A task posted last on a strand: its message comes last on its channel and changes no other. */
  lemma PostProj(x: Session, t: Task<Item>, c: Channel)
    requires Sound(x)
    requires t.Push? ==> !(t.m.Numbered? && t.m.channel.Global?)
    ensures Proj(c, Pipe(Post(x, t))) == Proj(c, Pipe(x)) + if t.Stop? then [] else NumberOn(c, t.m)
  {
    var front := x.written + InTransit(x.pump);
    var p, d := Pushes(x.box), Delivers(x.box);
    PostLast(x.box, t);
    match t
    case Deliver(i) =>
      Associative(front + p, d, [i]);
      assert Pipe(Post(x, t)) == front + p + d + [i];
      ProjConcat(c, front + p + d, [i]);
      ProjOne(c, i);
    case Push(i) =>
      PushProj(front, p, i, d, c);
      assert Delivers(Post(x, t).box) == d;
    case Stop =>
      assert Pipe(Post(x, t)) == Pipe(x);
  }

  lemma PushProj(front: seq<Item>, p: seq<Item>, i: Item, d: seq<Item>, c: Channel)
    requires forall j :: j in d ==> j.Numbered? && j.channel.Global?
    requires !(i.Numbered? && i.channel.Global?)
    ensures Proj(c, front + (p + [i]) + d) == Proj(c, front + p + d) + NumberOn(c, i)
  {
    Associative(front, p, [i]);
    ProjInsert(c, front + p, i, d);
    ProjConcat(c, front + p, d);
    if !c.Global? { OnlyGlobal(c, d); }
  }

  lemma {:induction false} OnlyGlobal(c: Channel, items: seq<Item>)
    requires !c.Global? && forall i :: i in items ==> i.Numbered? && i.channel.Global?
    ensures Proj(c, items) == []
  {
    if items != [] {
      assert items[0] in items;
      OnlyGlobal(c, items[1..]);
    }
  }

  lemma PostSound(x: Session, t: Task<Item>)
    requires Sound(x)
    requires t.Deliver? ==> t.m.Numbered? && t.m.channel.Global?
    ensures Sound(Post(x, t))
  {
    PostLast(x.box, t);
  }

  lemma RunDeliverOk(w: World, s: Sid, x: Session, i: Item)
    requires SessionOk(w, s, x) && x.box != [] && x.box[0] == Deliver(i)
    ensures SessionOk(w, s, RunFirst(x)) && RunFirst(x).told == x.told
  {
    var y, z := x.(box := x.box[1..]), RunFirst(x);
    PostLast(y.box, Push(i));
    assert Delivers(x.box) == [i] + Delivers(y.box);
    Regroup(x.written + InTransit(x.pump), Pushes(y.box), [i], Delivers(y.box));
    assert Pipe(x) == Pipe(z);
    SameProjOk(w, s, x, z);
  }

  lemma RunStopOk(w: World, s: Sid, x: Session)
    requires SessionOk(w, s, x) && x.box != [] && x.box[0] == Stop
    ensures SessionOk(w, s, RunFirst(x)) && RunFirst(x).told == x.told
  {
    var y := x.(box := x.box[1..]);
    assert Pipe(x) == Pipe(y);
    SameProjOk(w, s, x, y);
    StopOk(w, s, y);
  }

  lemma TakenOk(w: World, s: Sid, x: Session, i: Item)
    requires SessionOk(w, s, x) && x.box != [] && x.box[0] == Push(i) && Takes(x.pump)
    ensures SessionOk(w, s, RunFirst(x))
  {
    var z := RunFirst(x);
    var rest := x.box[1..];
    assert Pushes(x.box) == [i] + Pushes(rest) && Delivers(x.box) == Delivers(rest);
    assert InTransit(z.pump) == InTransit(x.pump) + [i];
    Regroup(x.written, InTransit(x.pump), [i], Pushes(rest));
    assert Pipe(x) == Pipe(z);
    SameProjOk(w, s, x, z);
  }

  lemma RefusedOk(w: World, s: Sid, x: Session, i: Item)
    requires SessionOk(w, s, x) && x.box != [] && x.box[0] == Push(i) && !Takes(x.pump)
    ensures SessionOk(w, s, RunFirst(x))
  {
    var z := RunFirst(x);
    var rest := x.box[1..];
    var front := x.written + InTransit(x.pump);
    assert Pushes(x.box) == [i] + Pushes(rest) && Delivers(x.box) == Delivers(rest);
    assert InTransit(z.pump) == InTransit(x.pump);
    TakeOut(front, [i], Pushes(rest), Delivers(rest));
    LossyOk(w, s, x, z, front, [i], Pushes(rest) + Delivers(rest));
  }

  /** Running the first task of a strand keeps or loses messages, but never reorders a channel. */
  lemma RunFirstOk(w: World, s: Sid, x: Session)
    requires SessionOk(w, s, x) && x.box != []
    ensures SessionOk(w, s, RunFirst(x)) && RunFirst(x).told == x.told
  {
    match x.box[0]
    case Deliver(i) => RunDeliverOk(w, s, x, i);
    case Push(i) => if Takes(x.pump) { TakenOk(w, s, x, i); } else { RefusedOk(w, s, x, i); }
    case Stop => RunStopOk(w, s, x);
  }

  lemma StopOk(w: World, s: Sid, x: Session)
    requires SessionOk(w, s, x)
    ensures SessionOk(w, s, StopPump(x)) && StopPump(x).told == x.told
  {
    if x.pump.Tcp? {
      var y := StopPump(x);
      var q, o := InTransit(x.pump), x.pump.tcp.outstanding;
      assert InTransit(y.pump) == o;
      assert q == o + q[|o|..];
      if |q| > |o| {
        TakeOutSecond(x.written, o, q[|o|..], Pushes(x.box), Delivers(x.box));
        LossyOk(w, s, x, y, x.written + o, q[|o|..], Pushes(x.box) + Delivers(x.box));
      } else {
        assert q == o;
        SameProjOk(w, s, x, y);
      }
    }
  }

  lemma WriteKeepsPipe(x: Session)
    requires Sound(x) && MayComplete(x)
    ensures Pipe(CompleteWrite(x, TcpPump.Written)) == Pipe(x)
  {
    var q := InTransit(x.pump);
    CompleteKeepsBox(x, TcpPump.Written);
    CompleteSound(x, TcpPump.Written);
    MoveFront(x.written, q);
  }

  lemma WriteSucceedsOk(w: World, s: Sid, x: Session)
    requires SessionOk(w, s, x) && MayComplete(x)
    ensures SessionOk(w, s, CompleteWrite(x, TcpPump.Written))
  {
    CompleteSound(x, TcpPump.Written);
    WriteKeepsPipe(x);
    SameProjOk(w, s, x, CompleteWrite(x, TcpPump.Written));
  }

  lemma TcpWriteFailsOk(w: World, s: Sid, x: Session, c: TcpPump.Completion)
    requires SessionOk(w, s, x) && Outstanding(x.pump) != [] && x.pump.Tcp? && !c.Written?
    ensures SessionOk(w, s, CompleteWrite(x, c)) && CompleteWrite(x, c).told == x.told
  {
    var y, q := CompleteWrite(x, c), InTransit(x.pump);
    CompleteKeepsBox(x, c);
    CompleteSound(x, c);
    TakeOutSecond(x.written, [], q, Pushes(x.box), Delivers(x.box));
    assert [] + q == q;
    LossyOk(w, s, x, y, x.written + [], q, Pushes(x.box) + Delivers(x.box));
  }

  /** A write that ends moves the front of the queue to what was written, or loses what was queued. */
  lemma CompleteOk(w: World, s: Sid, x: Session, c: TcpPump.Completion)
    requires SessionOk(w, s, x) && MayComplete(x)
    ensures SessionOk(w, s, CompleteWrite(x, c)) && CompleteWrite(x, c).told == x.told
  {
    if c.Written? {
      WriteSucceedsOk(w, s, x);
    } else if x.pump.Tcp? {
      TcpWriteFailsOk(w, s, x, c);
    } else {
      CompleteSound(x, c);
      assert Pipe(CompleteWrite(x, c)) == Pipe(x);
      SameProjOk(w, s, x, CompleteWrite(x, c));
    }
  }

  lemma CompleteKeepsBox(x: Session, c: TcpPump.Completion)
    requires Sound(x) && MayComplete(x)
    ensures Pushes(CompleteWrite(x, c).box) == Pushes(x.box) && Delivers(CompleteWrite(x, c).box) == Delivers(x.box)
  {
    PostLast(x.box, Stop);
  }

  lemma CompleteSound(x: Session, c: TcpPump.Completion)
    requires Sound(x) && MayComplete(x)
    ensures Sound(CompleteWrite(x, c))
    ensures var q, y := InTransit(x.pump), CompleteWrite(x, c);
            && q != []
            && InTransit(y.pump) == (if c.Written? then q[1..] else if x.pump.Tcp? then [] else q)
            && y.written == (if c.Written? then x.written + [q[0]] else x.written)
  {
    CompleteKeepsBox(x, c);
  }

  /** Posting a numbered message to a session that its channel has just reached. */
  lemma PostReaches(w: World, w': World, s: Sid, x: Session, t: Task<Item>, ch: Channel)
    requires SessionOk(w, s, x)
    requires if ch.Global? then t.Deliver? else t.Push?
    requires Reaches(History(w, ch), History(w', ch), s)
    requires t.m == Numbered(ch, |History(w', ch)| - 1)
    requires forall c: Channel :: c != ch ==> Passes(History(w, c), History(w', c), s)
    ensures SessionOk(w', s, Post(x, t))
  {
    var y := Post(x, t);
    PostSound(x, t);
    forall c: Channel ensures ChannelOk(Proj(c, Pipe(y)), History(w', c), s, y.lossy) {
      assert ChannelOk(Proj(c, Pipe(x)), History(w, c), s, x.lossy);
      PostProj(x, t, c);
      if c == ch {
        ChannelReaches(Proj(c, Pipe(x)), History(w, c), History(w', c), s, x.lossy);
      } else {
        assert Proj(c, Pipe(y)) == Proj(c, Pipe(x));
        ChannelPasses(Proj(c, Pipe(x)), History(w, c), History(w', c), s, x.lossy);
      }
    }
  }
}
