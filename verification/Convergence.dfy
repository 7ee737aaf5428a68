/** No endless exchange of packets: what deliveries can still do is bounded, on the whole link and per connection. */
module Convergence {
  import opened SocketModel
  import opened Connection
  import opened Multiplexer
  import opened MultiplexerTheorems

  /** Weights that pay for every packet a delivery can give rise to. */
  function Weight(p: Packet): nat {
    match p
    case OPEN(_, _) => 5
    case WRTE(_, _, _) => 3
    case OKAY(_, _) => 2
    case CLSE(_, _) => 1
  }

  function ChannelWeight(ch: seq<Packet>): nat {
    if ch == [] then 0 else Weight(ch[0]) + ChannelWeight(ch[1..])
  }

  lemma {:induction false} ChannelWeightAppend(front: seq<Packet>, back: seq<Packet>)
    ensures ChannelWeight(front + back) == ChannelWeight(front) + ChannelWeight(back)
  {
    if front == [] {
      assert front + back == back;
    } else {
      assert (front + back)[1..] == front[1..] + back;
      ChannelWeightAppend(front[1..], back);
    }
  }

  function ListedIds(e: End): set<nat> {
    set id | id in e.socks && e.socks[id].phase.Listed?
  }

  /** The work still to be done by deliveries alone. */
  function Load(s: System): nat {
    ChannelWeight(s.xy) + ChannelWeight(s.yx) + 2 * |ListedIds(s.x)| + 2 * |ListedIds(s.y)|
  }

  lemma OutsWeight(outs: seq<Out>)
    requires |outs| <= 2
    ensures ChannelWeight(Packets(outs))
         == (if |outs| > 0 then Weight(outs[0].packet) else 0) + (if |outs| > 1 then Weight(outs[1].packet) else 0)
  {
    var ch := Packets(outs);
    if |ch| > 0 {
      assert ChannelWeight(ch) == Weight(ch[0]) + ChannelWeight(ch[1..]);
      if |ch| > 1 {
        assert ChannelWeight(ch[1..]) == Weight(ch[1..][0]) + ChannelWeight(ch[1..][1..]);
      }
    }
  }

  lemma OnPacketPays(s: Sock, p: Packet, io: WriteResult)
    requires !p.OPEN?
    ensures var r := OnPacket(s, LINK, p, io);
            && ChannelWeight(Packets(r.outs)) + 2 * One(r.sock.phase.Listed?) < Weight(p) + 2 * One(s.phase.Listed?)
            && (r.sock.phase.Listed? ==> s.phase.Listed?)
  {
    OutsWeight(OnPacket(s, LINK, p, io).outs);
  }

  lemma ListedAfter(e: End, id: nat, sock: Sock)
    requires sock.phase.Listed? ==> id !in e.socks || e.socks[id].phase.Listed?
    ensures var e' := e.(socks := e.socks[id := sock]);
            |ListedIds(e')| == |ListedIds(e)| - One(id in ListedIds(e)) + One(sock.phase.Listed?)
  {
    var e' := e.(socks := e.socks[id := sock]);
    assert forall k :: k in ListedIds(e') <==> if k == id then sock.phase.Listed? else k in ListedIds(e);
    Resized(ListedIds(e), ListedIds(e'), id, sock.phase.Listed?);
  }

  lemma Resized(was: set<nat>, now: set<nat>, id: nat, kept: bool)
    requires forall k :: k in now <==> if k == id then kept else k in was
    ensures |now| == |was| - One(id in was) + One(kept)
  {
    assert now - {id} == was - {id};
    assert kept ==> now == (now - {id}) + {id};
    assert id in was ==> was == (was - {id}) + {id};
  }

  /** Handling a packet costs more than the packets and listings it can create. */
  lemma HandlePacketPays(e: End, p: Packet, service: bool, io: WriteResult)
    requires e.nextId !in e.socks
    ensures var (e', outs) := HandlePacket(e, LINK, p, service, io);
            ChannelWeight(Packets(outs)) + 2 * |ListedIds(e')| < Weight(p) + 2 * |ListedIds(e)|
  {
    OutsWeight(HandlePacket(e, LINK, p, service, io).1);
    if p.OPEN? {
      ListedAfter(e, e.nextId, Accepted(p.arg0, LINK));
    } else if p.arg1 in e.socks {
      OnPacketPays(e.socks[p.arg1], p, io);
      ListedAfter(e, p.arg1, OnPacket(e.socks[p.arg1], LINK, p, io).sock);
    }
  }

  lemma SendingPays(s: Sock, id: nat, ev: Event)
    requires Enabled(s, ev) && !ev.Deliver?
    ensures var r := React(s, id, LINK, ev);
            && ChannelWeight(Packets(r.outs)) + 2 * One(r.sock.phase.Listed?)
               <= 2 * One(s.phase.Listed?) + 3 * One(s.phase.Listed?)
            && (r.sock.phase.Listed? ==> s.phase.Listed?)
  {
    OutsWeight(React(s, id, LINK, ev).outs);
  }

  // The whole link.

  /** What an action is allowed to add to the load. */
  function Allowance(act: Action): nat {
    match act
    case Connect => 7
    case Receive(_, _) => 0
    case OnDescriptor(_, _) => 3
  }

  lemma StepXLoad(s: System, act: Action, s': System)
    requires StepX(s, act, s') && IdsOk(s.x)
    ensures One(act.Receive?) + Load(s') <= Load(s) + Allowance(act)
  {
    match act
    case Connect =>
      var sent := Packets(OpenStream(s.x, LINK).1);
      assert sent == [OPEN(s.x.nextId, 0)] && ChannelWeight(sent[1..]) == 0;
      ChannelWeightAppend(s.xy, sent);
      ListedAfter(s.x, s.x.nextId, Opening(LINK));
    case Receive(service, io) =>
      var (e, outs) := HandlePacket(s.x, LINK, s.yx[0], service, io);
      HandlePacketPays(s.x, s.yx[0], service, io);
      ChannelWeightAppend(s.xy, Packets(outs));
    case OnDescriptor(id, ev) =>
      var r := React(s.x.socks[id], id, 0, ev);
      assert r == React(s.x.socks[id], id, LINK, ev);
      SendingPays(s.x.socks[id], id, ev);
      ListedAfter(s.x, id, r.sock);
      ChannelWeightAppend(s.xy, Packets(r.outs));
  }

  lemma RunStepLoad(run: seq<System>, acts: seq<Action>, m: nat)
    requires IsRun(run, acts) && m < |acts|
    ensures One(acts[m].Receive?) + Load(run[m + 1]) <= Load(run[m]) + Allowance(acts[m])
  {
    RunOk(run, acts, m);
    var s, act, s' := run[m], acts[m], run[m + 1];
    if StepX(s, act, s') {
      StepXLoad(s, act, s');
    } else {
      StepXLoad(s.Swap(), act, s'.Swap());
    }
  }

  function Deliveries(acts: seq<Action>, m: nat, n: nat): nat
    requires m <= n <= |acts|
    decreases n - m
  {
    if m == n then 0 else One(acts[m].Receive?) + Deliveries(acts, m + 1, n)
  }

  function Allowances(acts: seq<Action>, m: nat, n: nat): nat
    requires m <= n <= |acts|
    decreases n - m
  {
    if m == n then 0 else Allowance(acts[m]) + Allowances(acts, m + 1, n)
  }

  /**
   In every stretch of every run, deliveries are paid for by the starting load, streams
   opened and descriptor events.
   */
  lemma {:induction false} DeliveriesAreBounded(run: seq<System>, acts: seq<Action>, m: nat, n: nat)
    requires IsRun(run, acts) && m <= n <= |acts|
    ensures Deliveries(acts, m, n) + Load(run[n]) <= Load(run[m]) + Allowances(acts, m, n)
    decreases n - m
  {
    if m < n {
      RunStepLoad(run, acts, m);
      DeliveriesAreBounded(run, acts, m + 1, n);
    }
  }

  lemma {:induction false} OnlyDeliveries(acts: seq<Action>, m: nat, n: nat)
    requires m <= n <= |acts| && forall i :: m <= i < n ==> acts[i].Receive?
    ensures Deliveries(acts, m, n) == n - m && Allowances(acts, m, n) == 0
    decreases n - m
  {
    if m < n {
      OnlyDeliveries(acts, m + 1, n);
    }
  }

  /**
   Left to themselves, deliveries stop after at most Load steps.  With QuietEndsAgree, the
   ends then agree on every connection.
   */
  lemma DeliveriesEnd(run: seq<System>, acts: seq<Action>, m: nat, n: nat)
    requires IsRun(run, acts) && m <= n <= |acts|
    requires forall i :: m <= i < n ==> acts[i].Receive?
    ensures n - m + Load(run[n]) <= Load(run[m])
  {
    OnlyDeliveries(acts, m, n);
    DeliveriesAreBounded(run, acts, m, n);
  }

  // One connection, whatever the rest of the link does.

  function ConnLoad(k: Conn): nat {
    ChannelWeight(k.fwd) + ChannelWeight(k.bwd) + 2 * One(k.o.phase.Listed?) + 2 * One(k.b != 0 && k.c.phase.Listed?)
  }

  lemma HeadWeight(ch: seq<Packet>)
    requires ch != []
    ensures ChannelWeight(ch) == Weight(ch[0]) + ChannelWeight(ch[1..])
  {}

  /** The connection keeps its sockets, and one that is off its list stays off. */
  predicate Fades(k: Conn, k': Conn) {
    && (k'.o.phase.Listed? ==> k.o.phase.Listed?)
    && (k.b != 0 ==> k'.b == k.b && (k'.c.phase.Listed? ==> k.c.phase.Listed?))
  }

  lemma OpenerMoveLoad(k: Conn, ev: Event, k': Conn)
    requires OpenerMove(k, ev, k')
    ensures One(ev.Deliver?) + ConnLoad(k') <= ConnLoad(k) + 3 * One(!ev.Deliver? && k.o.phase.Listed?)
    ensures Fades(k, k')
  {
    var r := React(k.o, k.a, LINK, ev);
    ChannelWeightAppend(k.fwd, Packets(r.outs));
    if ev.Deliver? {
      OnPacketPays(k.o, ev.packet, ev.io);
      HeadWeight(k.bwd);
    } else {
      SendingPays(k.o, k.a, ev);
    }
  }

  lemma AcceptorMoveLoad(k: Conn, ev: Event, k': Conn)
    requires AcceptorMove(k, ev, k')
    ensures One(ev.Deliver?) + ConnLoad(k') <= ConnLoad(k) + 3 * One(!ev.Deliver? && k.c.phase.Listed?)
    ensures Fades(k, k')
  {
    var r := React(k.c, k.b, LINK, ev);
    ChannelWeightAppend(k.bwd, Packets(r.outs));
    if ev.Deliver? {
      OnPacketPays(k.c, ev.packet, ev.io);
      HeadWeight(k.fwd);
    } else {
      SendingPays(k.c, k.b, ev);
    }
  }

  lemma AnswerLoad(k: Conn, reply: Packet, k': Conn)
    requires k.b == 0 && k.fwd != [] && k.fwd[0].OPEN? && k'.fwd == k.fwd[1..] && k'.bwd == k.bwd + [reply]
    requires k'.o == k.o && Weight(reply) + 2 * One(k'.b != 0) < 5
    ensures 1 + ConnLoad(k') <= ConnLoad(k)
  {
    HeadWeight(k.fwd);
    ChannelWeightAppend(k.bwd, [reply]);
    HeadWeight([reply]);
  }

  /** The step takes a packet of the connection x opened as a off either channel. */
  predicate Delivery(s: System, act: Action, s': System, a: nat) {
    && act.Receive?
    && (|| (StepX(s, act, s') && Concerns(s.yx[0], 0, a))
        || (StepX(s.Swap(), act, s'.Swap()) && Concerns(s.xy[0], a, AcceptorId(s.y, a))))
  }

  predicate ListedAt(e: End, id: nat) {
    id in e.socks && e.socks[id].phase.Listed?
  }

  /** The step is a descriptor event of one of its two sockets, still listed. */
  predicate OwnEvent(s: System, act: Action, s': System, a: nat) {
    && act.OnDescriptor?
    && (|| (StepX(s, act, s') && act.id == a && ListedAt(s.x, a))
        || (StepX(s.Swap(), act, s'.Swap()) && act.id == AcceptorId(s.y, a) && ListedAt(s.y, act.id)))
  }

  lemma OneSided(s: System, act: Action, s': System)
    requires act.Receive? && StepX(s, act, s')
    ensures !StepX(s.Swap(), act, s'.Swap())
  {
    assert |s'.yx| < |s.yx|;
  }

  /** When end x takes the step, what it means for a connection x opened, and for one it accepted. */
  lemma Marks(s: System, act: Action, s': System, a: nat)
    requires StepX(s, act, s')
    ensures Delivery(s, act, s', a) <==> act.Receive? && Concerns(s.yx[0], 0, a)
    ensures Delivery(s.Swap(), act, s'.Swap(), a) <==> act.Receive? && Concerns(s.yx[0], a, AcceptorId(s.x, a))
    ensures act.OnDescriptor? && act.id == a && ListedAt(s.x, a) ==> OwnEvent(s, act, s', a)
    ensures act.OnDescriptor? && act.id == AcceptorId(s.x, a) && ListedAt(s.x, act.id)
            ==> OwnEvent(s.Swap(), act, s'.Swap(), a)
  {
    if act.Receive? {
      OneSided(s, act, s');
    }
  }

  lemma OpenerSocketLoad(s: System, id: nat, ev: Event, s': System, a: nat)
    requires SystemOk(s) && SocketMove(s, id, ev, s') && Opener(s.x, a)
    ensures Opener(s'.x, a)
    ensures var k, k' := View(s, a), View(s', a);
            && Fades(k, k')
            && if id == a then
                 One(ev.Deliver?) + ConnLoad(k') <= ConnLoad(k) + 3 * One(!ev.Deliver? && s.x.socks[id].phase.Listed?)
               else k' == k
  {
    ReactIdentity(s.x.socks[id], id, LINK, ev);
    if Acceptor(s.x, id) {
      AcceptorLeavesOpeners(s, id, ev, s', a);
    } else if a == id {
      OpenerActs(s, id, ev, s');
      OpenerMoveLoad(View(s, id), ev, View(s', id));
    } else {
      OpenerLeavesOpeners(s, id, ev, s', a);
    }
  }

  /** A step of the end that opened the connection. */
  lemma OpenerStepLoad(s: System, act: Action, s': System, a: nat)
    requires SystemOk(s) && StepX(s, act, s') && Opener(s.x, a)
    ensures Opener(s'.x, a) && Fades(View(s, a), View(s', a))
    ensures One(act.Receive? && Concerns(s.yx[0], 0, a)) + ConnLoad(View(s', a))
         <= ConnLoad(View(s, a)) + 3 * One(act.OnDescriptor? && act.id == a && ListedAt(s.x, a))
  {
    if act.Connect? {
      ConnectLeavesOpeners(s, s', a);
    } else if act.Receive? && s.yx[0].OPEN? {
      OpenLeavesOpeners(s, act.service, act.io, s', a);
    } else {
      var id, ev := OtherStepsAreSocketMoves(s, act, s');
      OpenerSocketLoad(s, id, ev, s', a);
    }
  }

  lemma AcceptorSocketLoad(s: System, id: nat, ev: Event, s': System, a: nat)
    requires SystemOk(s) && SocketMove(s, id, ev, s') && Opener(s.y, a)
    ensures var k, k' := View(s.Swap(), a), View(s'.Swap(), a);
            && Fades(k, k')
            && if id == AcceptorId(s.x, a) then
                 One(ev.Deliver?) + ConnLoad(k') <= ConnLoad(k) + 3 * One(!ev.Deliver? && s.x.socks[id].phase.Listed?)
               else k' == k
  {
    if Opener(s.x, id) {
      OpenerLeavesAcceptors(s, id, ev, s', a);
    } else if a == s.x.socks[id].peer {
      AcceptorActs(s, id, ev, s');
      AcceptorMoveLoad(View(s.Swap(), a), ev, View(s'.Swap(), a));
    } else {
      AcceptorLeavesAcceptors(s, id, ev, s', a);
    }
  }

  lemma AcceptorOpenLoad(s: System, act: Action, s': System, a: nat)
    requires SystemOk(s) && StepX(s, act, s') && Opener(s.y, a) && act.Receive? && s.yx[0].OPEN?
    ensures var k, k' := View(s.Swap(), a), View(s'.Swap(), a);
            Fades(k, k') && if a == s.yx[0].arg0 then 1 + ConnLoad(k') <= ConnLoad(k) else k' == k
  {
    if a == s.yx[0].arg0 {
      OpenTaken(s, act.service, act.io, s');
      AnswerLoad(View(s.Swap(), a), if act.service then OKAY(s.x.nextId, a) else CLSE(0, a), View(s'.Swap(), a));
    } else {
      OpenLeavesAcceptors(s, act.service, act.io, s', a);
    }
  }

  /** A step of the end that accepted it. */
  lemma AcceptorStepLoad(s: System, act: Action, s': System, a: nat)
    requires SystemOk(s) && StepX(s, act, s') && Opener(s.y, a)
    ensures Opener(s'.y, a) && Fades(View(s.Swap(), a), View(s'.Swap(), a))
    ensures One(act.Receive? && Concerns(s.yx[0], a, AcceptorId(s.x, a))) + ConnLoad(View(s'.Swap(), a))
         <= ConnLoad(View(s.Swap(), a))
            + 3 * One(act.OnDescriptor? && act.id == AcceptorId(s.x, a) && ListedAt(s.x, act.id))
  {
    assert s'.y == s.y;
    if act.Connect? {
      ConnectLeavesAcceptors(s, s', a);
    } else if act.Receive? && s.yx[0].OPEN? {
      AcceptorOpenLoad(s, act, s', a);
    } else {
      var id, ev := OtherStepsAreSocketMoves(s, act, s');
      AcceptorSocketLoad(s, id, ev, s', a);
    }
  }

  lemma ConnectionStepLoad(s: System, act: Action, s': System, a: nat)
    requires SystemOk(s) && Step(s, act, s') && Opener(s.x, a)
    ensures Opener(s'.x, a) && Fades(View(s, a), View(s', a))
    ensures One(Delivery(s, act, s', a)) + ConnLoad(View(s', a)) <=
            ConnLoad(View(s, a)) + 3 * One(OwnEvent(s, act, s', a))
  {
    if StepX(s, act, s') {
      Marks(s, act, s', a);
      OpenerStepLoad(s, act, s', a);
    } else {
      Marks(s.Swap(), act, s'.Swap(), a);
      AcceptorStepLoad(s.Swap(), act, s'.Swap(), a);
    }
  }

  // Runs.  Everything is said of the connections opened by end x; for those opened by y, swap the run.

  function Swapped(run: seq<System>): (r: seq<System>)
    ensures |r| == |run| && forall i :: 0 <= i < |r| ==> r[i] == run[i].Swap()
  {
    seq(|run|, i requires 0 <= i < |run| => run[i].Swap())
  }

  lemma SwappedIsRun(run: seq<System>, acts: seq<Action>)
    requires IsRun(run, acts)
    ensures IsRun(Swapped(run), acts)
  {
    forall i | 0 <= i < |acts|
      ensures Step(Swapped(run)[i], acts[i], Swapped(run)[i + 1])
    {
      assert Step(run[i], acts[i], run[i + 1]);
    }
  }

  /** Packets delivered for the connection, and descriptor events of its own listed sockets. */
  datatype Tally = Tally(delivered: nat, events: nat)

  /** Something counted over a stretch of a run, step by step. */
  function Counted(plus: (System, Action, System, Tally) -> Tally, run: seq<System>, acts: seq<Action>,
                   m: nat, n: nat): Tally
    requires |run| == |acts| + 1 && m <= n <= |acts|
    decreases n - m
  {
    if m == n then Tally(0, 0) else plus(run[n - 1], acts[n - 1], run[n], Counted(plus, run, acts, m, n - 1))
  }

  ghost predicate KeptAt(plus: (System, Action, System, Tally) -> Tally, inv: (System, Tally) -> bool,
                         run: seq<System>, acts: seq<Action>, i: nat)
    requires i < |acts| == |run| - 1
  {
    forall t :: inv(run[i], t) ==> inv(run[i + 1], plus(run[i], acts[i], run[i + 1], t))
  }

  /** What every step keeps, the whole stretch keeps. */
  lemma {:induction false} CountKeeps(plus: (System, Action, System, Tally) -> Tally, inv: (System, Tally) -> bool,
                                      run: seq<System>, acts: seq<Action>, m: nat, n: nat)
    requires |run| == |acts| + 1 && m <= n <= |acts| && inv(run[m], Tally(0, 0))
    requires forall i :: m <= i < n ==> KeptAt(plus, inv, run, acts, i)
    ensures inv(run[n], Counted(plus, run, acts, m, n))
    decreases n - m
  {
    if m < n {
      CountKeeps(plus, inv, run, acts, m, n - 1);
      assert KeptAt(plus, inv, run, acts, n - 1);
    }
  }

  function TallyOf(run: seq<System>, acts: seq<Action>, a: nat, m: nat, n: nat): Tally
    requires |run| == |acts| + 1 && m <= n <= |acts|
  {
    Counted((s, act, s', t) => Plus(s, act, s', a, t), run, acts, m, n)
  }

  function Plus(s: System, act: Action, s': System, a: nat, t: Tally): Tally {
    Tally(t.delivered + One(Delivery(s, act, s', a)), t.events + One(OwnEvent(s, act, s', a)))
  }

  function LoadOf(s: System, a: nat): nat {
    if Opener(s.x, a) then ConnLoad(View(s, a)) else 0
  }

  lemma PlusPays(s: System, act: Action, s': System, a: nat, t: Tally, start: nat)
    requires SystemOk(s) && Step(s, act, s') && Opener(s.x, a)
    requires t.delivered + LoadOf(s, a) <= start + 3 * t.events
    ensures var u := Plus(s, act, s', a, t);
            Opener(s'.x, a) && u.delivered + LoadOf(s', a) <= start + 3 * u.events
  {
    ConnectionStepLoad(s, act, s', a);
  }

  lemma PaysAt(run: seq<System>, acts: seq<Action>, a: nat, i: nat, t: Tally, start: nat)
    requires IsRun(run, acts) && i < |acts| && Opener(run[i].x, a)
    requires t.delivered + LoadOf(run[i], a) <= start + 3 * t.events
    ensures var u := Plus(run[i], acts[i], run[i + 1], a, t);
            Opener(run[i + 1].x, a) && u.delivered + LoadOf(run[i + 1], a) <= start + 3 * u.events
  {
    RunOk(run, acts, i);
    PlusPays(run[i], acts[i], run[i + 1], a, t, start);
  }

  /**
   In every run, whatever the other connections do: the packets delivered for a connection
   are paid for by its load at the start and by the events of its own listed sockets.
   */
  lemma ConnectionDeliveriesAreBounded(run: seq<System>, acts: seq<Action>, a: nat, m: nat, n: nat)
    requires IsRun(run, acts) && m <= n <= |acts| && Opener(run[m].x, a)
    ensures var t := TallyOf(run, acts, a, m, n);
            Opener(run[n].x, a) && t.delivered + LoadOf(run[n], a) <= LoadOf(run[m], a) + 3 * t.events
  {
    var start := LoadOf(run[m], a);
    var plus := (s, act, s', t) => Plus(s, act, s', a, t);
    var inv := (s: System, t: Tally) => Opener(s.x, a) && t.delivered + LoadOf(s, a) <= start + 3 * t.events;
    forall i | m <= i < n
      ensures KeptAt(plus, inv, run, acts, i)
    {
      forall t | inv(run[i], t)
        ensures inv(run[i + 1], plus(run[i], acts[i], run[i + 1], t))
      {
        PaysAt(run, acts, a, i, t, start);
      }
    }
    CountKeeps(plus, inv, run, acts, m, n);
  }

  /** The connection was accepted and neither end lists it any more. */
  predicate BothGone(s: System, a: nat) {
    Opener(s.x, a) && a in s.y.accepted && !ListedAt(s.x, a) && !ListedAt(s.y, s.y.accepted[a])
  }

  lemma GoneStep(s: System, act: Action, s': System, a: nat, t: Tally)
    requires SystemOk(s) && Step(s, act, s') && BothGone(s, a)
    ensures BothGone(s', a) && Plus(s, act, s', a, t).events == t.events
  {
    ConnectionStepLoad(s, act, s', a);
    var k := View(s, a);
    assert ConnOk(k) && k.b != 0 && k.b in s.y.socks;
    assert View(s', a).b == k.b;
  }

  lemma NoEventAt(run: seq<System>, acts: seq<Action>, a: nat, i: nat, t: Tally)
    requires IsRun(run, acts) && i < |acts| && BothGone(run[i], a)
    ensures BothGone(run[i + 1], a) && Plus(run[i], acts[i], run[i + 1], a, t).events == t.events
  {
    RunOk(run, acts, i);
    GoneStep(run[i], acts[i], run[i + 1], a, t);
  }

  lemma NoMoreEvents(run: seq<System>, acts: seq<Action>, a: nat, m: nat, n: nat)
    requires IsRun(run, acts) && m <= n <= |acts| && BothGone(run[m], a)
    ensures BothGone(run[n], a) && TallyOf(run, acts, a, m, n).events == 0
  {
    var plus := (s, act, s', t) => Plus(s, act, s', a, t);
    var inv := (s: System, t: Tally) => BothGone(s, a) && t.events == 0;
    forall i | m <= i < n
      ensures KeptAt(plus, inv, run, acts, i)
    {
      forall t | inv(run[i], t)
        ensures inv(run[i + 1], plus(run[i], acts[i], run[i + 1], t))
      {
        NoEventAt(run, acts, a, i, t);
      }
    }
    CountKeeps(plus, inv, run, acts, m, n);
  }

  /** Once both ends have closed, only what is in flight is still delivered: no CLSE is answered for ever. */
  lemma ClosedConnectionsFallSilent(run: seq<System>, acts: seq<Action>, a: nat, m: nat, n: nat)
    requires IsRun(run, acts) && m <= n <= |acts| && BothGone(run[m], a)
    ensures var s := run[m];
            TallyOf(run, acts, a, m, n).delivered
              <= ChannelWeight(Select(s.xy, a, s.y.accepted[a])) + ChannelWeight(Select(s.yx, 0, a))
  {
    ConnectionDeliveriesAreBounded(run, acts, a, m, n);
    NoMoreEvents(run, acts, a, m, n);
    RunOk(run, acts, m);
    GoneLoad(run[m], a);
  }

  lemma GoneLoad(s: System, a: nat)
    requires SystemOk(s) && BothGone(s, a)
    ensures LoadOf(s, a) == ChannelWeight(Select(s.xy, a, s.y.accepted[a])) + ChannelWeight(Select(s.yx, 0, a))
  {
    assert ConnOk(View(s, a));
  }
}
