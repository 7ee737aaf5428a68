/**
 A stream that its sender closes arrives whole: nothing follows the sender's CLSE, so a
 socket that is closed by it holds all that was sent, and writes it all out unless its
 descriptor fails or ends first.
 */
module OrderlyClose {
  import opened Bytes
  import opened SocketModel
  import opened Connection
  import opened Multiplexer
  import opened MultiplexerTheorems

  /** Once a CLSE of p is on the channel, p is off its list and no data follows. */
  ghost predicate TailOk(p: Sock, pq: seq<Packet>) {
    && (forall i :: 0 <= i < |pq| && pq[i].CLSE? ==> !p.phase.Listed?)
    && (forall i, j :: 0 <= i < j < |pq| && pq[i].CLSE? ==> !pq[j].WRTE?)
  }

  ghost predicate ConnTail(k: Conn) {
    k.b != 0 ==> TailOk(k.o, k.fwd) && TailOk(k.c, k.bwd)
  }

  /** A listed socket sends CLSE last and only when it leaves the list; one off it sends no data. */
  lemma ReactTail(p: Sock, i: nat, ev: Event)
    requires Enabled(p, ev)
    ensures var r := React(p, i, LINK, ev);
            && TailOk(r.sock, Packets(r.outs))
            && (!p.phase.Listed? ==> forall k :: 0 <= k < |r.outs| ==> !r.outs[k].packet.WRTE?)
  {}

  lemma TailAppend(p: Sock, p': Sock, pq: seq<Packet>, sent: seq<Packet>)
    requires TailOk(p, pq) && TailOk(p', sent)
    requires p'.phase.Listed? ==> p.phase.Listed?
    requires !p.phase.Listed? ==> forall k :: 0 <= k < |sent| ==> !sent[k].WRTE?
    ensures TailOk(p', pq + sent)
  {}

  lemma TailStep(p: Sock, i: nat, pq: seq<Packet>, ev: Event)
    requires Enabled(p, ev) && TailOk(p, pq)
    ensures var r := React(p, i, LINK, ev);
            TailOk(r.sock, pq + Packets(r.outs))
  {
    var r := React(p, i, LINK, ev);
    ReactTail(p, i, ev);
    ReactCloses(p, i, LINK, ev);
    TailAppend(p, r.sock, pq, Packets(r.outs));
  }

  lemma ConnStepTail(k: Conn, mv: Move, k': Conn)
    requires ConnOk(k) && ConnTail(k) && Moves(k, mv, k')
    ensures ConnTail(k')
  {
    match mv
    case ByOpener(ev) =>
      if k.b != 0 {
        TailStep(k.o, k.a, k.fwd, ev);
      }
    case ByAcceptor(ev) => TailStep(k.c, k.b, k.bwd, ev);
    case _ =>
  }

  lemma {:induction false} RunTail(run: seq<System>, acts: seq<Action>, n: nat, side: bool, a: nat)
    requires IsRun(run, acts) && n <= |acts|
    ensures var s := run[n].From(side); Opener(s.x, a) ==> ConnTail(View(s, a))
  {
    if n > 0 {
      RunTail(run, acts, n - 1, side, a);
      RunOk(run, acts, n - 1);
      StepFrom(run[n - 1], acts[n - 1], run[n], side);
      var s, act, s' := run[n - 1].From(side), acts[n - 1], run[n].From(side);
      if Opener(s.x, a) {
        ConnectionsRunAlone(s, act, s', a);
        ConnStepTail(View(s, a), Sees(s, act, s', a), View(s', a));
      } else if Opener(s'.x, a) {
        NewIsPending(s, act, s', a);
      }
    }
  }

  /** A socket off its list, where a freed one has nothing queued. */
  predicate Off(p: Sock) {
    !p.phase.Listed? && (p.phase.Freed? ==> p.queue == [])
  }

  /** Closed by the peer's CLSE, p holds all that the peer q ever sent. */
  lemma ClosedWhole(p: Sock, i: nat, q: Sock, j: nat, pq: seq<Packet>, qp: seq<Packet>, ev: Event)
    requires PairOk(p, i, q, j, pq, qp) && TailOk(q, qp) && Possible(p, qp, ev)
    requires ev.Deliver? && ev.packet.CLSE? && p.phase.Listed?
    ensures var p' := React(p, i, LINK, ev).sock;
            !p'.phase.Listed? ==> Off(p') && Off(q) && Held(p') == q.sent && p'.peer == p.peer
  {
    NoData(qp);
    assert Held(p) + [] == Held(p);
  }

  /** The step by which socket id of end x leaves its list is the delivery of its peer's CLSE. */
  predicate ClosedByPeer(s: System, act: Action, s': System, id: nat) {
    && StepX(s, act, s') && act.Receive? && s.yx[0].CLSE?
    && id in s.x.socks && s.x.socks[id].phase.Listed? && s.x.socks[id].peer != 0
    && id in s'.x.socks && !s'.x.socks[id].phase.Listed?
  }

  /** Socket id of end x and its peer are off their lists, and it has had all that the peer sent. */
  predicate Whole(s: System, id: nat) {
    && id in s.x.socks && s.x.socks[id].peer in s.y.socks
    && var p, q := s.x.socks[id], s.y.socks[s.x.socks[id].peer];
       Off(p) && Off(q) && Held(p) == q.sent
  }

  lemma ClosedIsWhole(run: seq<System>, acts: seq<Action>, m: nat, side: bool, id: nat)
    requires IsRun(run, acts) && m < |acts|
    requires ClosedByPeer(run[m].From(side), acts[m], run[m + 1].From(side), id)
    ensures Whole(run[m + 1].From(side), id)
  {
    RunOk(run, acts, m);
    var s, act, s' := run[m].From(side), acts[m], run[m + 1].From(side);
    var at, ev := OtherStepsAreSocketMoves(s, act, s');
    if Opener(s.x, id) {
      RunTail(run, acts, m, side, id);
      OpenerActs(s, id, ev, s');
      var k := View(s, id);
      assert ConnOk(k);
      ClosedWhole(k.o, k.a, k.c, k.b, k.fwd, k.bwd, ev);
    } else {
      var a := s.x.socks[id].peer;
      RunTail(run, acts, m, !side, a);
      AcceptorActs(s, id, ev, s');
      var k := View(s.Swap(), a);
      assert ConnOk(k);
      ClosedWhole(k.c, k.b, k.o, k.a, k.bwd, k.fwd, ev);
    }
  }

  /** The event makes a socket that is writing out its queue give up bytes of it. */
  predicate DropsBytes(p: Sock, ev: Event) {
    || (ev.Writable? && ev.io.failed && ev.io.count < |Concat(p.queue)|)
    || (ev.Readable? && ev.eof && Concat(p.queue) != [])
  }

  /** p became p' while off its list: it has at most lost bytes. */
  predicate Shed(p: Sock, p': Sock) {
    Off(p') && p'.sent == p.sent && p'.peer == p.peer && Held(p') <= Held(p)
  }

  lemma OffReact(p: Sock, i: nat, t: nat, ev: Event)
    requires Off(p) && Enabled(p, ev) && !ev.Deliver?
    ensures var p' := React(p, i, t, ev).sock;
            Shed(p, p') && (Held(p') == Held(p) <==> !DropsBytes(p, ev))
  {
    if ev.Writable? {
      var all := Concat(p.queue);
      var n := Min(ev.io.count, |all|);
      DrainQueueBytes(p.queue, n);
      SplitAt(p.written, all, n);
      assert Held(p) == p.written + all;
    }
  }

  /** The step makes socket id of end x drop bytes. */
  predicate DropsAt(s: System, act: Action, s': System, id: nat) {
    StepX(s, act, s') && act.OnDescriptor? && act.id == id && id in s.x.socks && DropsBytes(s.x.socks[id], act.ev)
  }

  /** Only its own descriptor events change a socket that is off its list. */
  lemma OffStep(s: System, act: Action, s': System, id: nat)
    requires SystemOk(s) && Step(s, act, s') && id in s.x.socks && Off(s.x.socks[id])
    ensures id in s'.x.socks && Shed(s.x.socks[id], s'.x.socks[id])
    ensures Held(s'.x.socks[id]) == Held(s.x.socks[id]) <==> !DropsAt(s, act, s', id)
  {
    if StepX(s, act, s') && act.OnDescriptor? && act.id == id {
      OffReact(s.x.socks[id], id, 0, act.ev);
    } else {
      assert s'.x.socks[id] == s.x.socks[id];
    }
  }

  /** Socket id of end x; an id without one stands for a socket not open yet. */
  function SockOf(s: System, id: nat): Sock {
    if id in s.x.socks then s.x.socks[id] else Opening(0)
  }

  /** The i-th step makes socket id of the end on that side drop bytes. */
  predicate DroppedAt(run: seq<System>, acts: seq<Action>, i: nat, side: bool, id: nat)
  {
    i < |acts| < |run| && DropsAt(run[i].From(side), acts[i], run[i + 1].From(side), id)
  }

  /** From the i-th state to the next, a socket off its list keeps its bytes unless it drops some. */
  ghost predicate ShedsAt(sock: nat -> Sock, drop: nat -> bool, i: nat) {
    Off(sock(i)) ==> Shed(sock(i), sock(i + 1)) && (Held(sock(i + 1)) == Held(sock(i)) <==> !drop(i))
  }

  /** Bytes once dropped never come back. */
  lemma {:induction false} Dwindles(sock: nat -> Sock, drop: nat -> bool, m: nat, n: nat)
    requires m <= n && Off(sock(m)) && forall i :: m <= i < n ==> ShedsAt(sock, drop, i)
    ensures Shed(sock(m), sock(n))
    ensures Held(sock(n)) == Held(sock(m)) <==> forall i :: m <= i < n ==> !drop(i)
    decreases n
  {
    if m < n {
      Dwindles(sock, drop, m, n - 1);
      assert ShedsAt(sock, drop, n - 1);
    }
  }

  function SocksOf(run: seq<System>, side: bool, id: nat): nat -> Sock {
    (i: nat) => if i < |run| then SockOf(run[i].From(side), id) else Opening(0)
  }

  function DropsOf(run: seq<System>, acts: seq<Action>, side: bool, id: nat): nat -> bool {
    (i: nat) => DroppedAt(run, acts, i, side, id)
  }

  lemma RunSheds(run: seq<System>, acts: seq<Action>, i: nat, side: bool, id: nat)
    requires IsRun(run, acts) && i < |acts|
    ensures ShedsAt(SocksOf(run, side, id), DropsOf(run, acts, side, id), i)
  {
    RunOk(run, acts, i);
    StepFrom(run[i], acts[i], run[i + 1], side);
    if Off(SockOf(run[i].From(side), id)) {
      OffStep(run[i].From(side), acts[i], run[i + 1].From(side), id);
    }
  }

  /** Off its list a socket keeps what it has had exactly as long as no event makes it drop bytes. */
  lemma OffRun(run: seq<System>, acts: seq<Action>, m: nat, n: nat, side: bool, id: nat)
    requires IsRun(run, acts) && m <= n <= |acts| && Off(SockOf(run[m].From(side), id))
    ensures var p, p' := SockOf(run[m].From(side), id), SockOf(run[n].From(side), id);
            Shed(p, p') && (Held(p') == Held(p) <==> forall i :: m <= i < n ==> !DroppedAt(run, acts, i, side, id))
  {
    var sock, drop := SocksOf(run, side, id), DropsOf(run, acts, side, id);
    forall i | m <= i < n
      ensures ShedsAt(sock, drop, i)
    {
      RunSheds(run, acts, i, side, id);
    }
    Dwindles(sock, drop, m, n);
    assert forall i :: m <= i < n ==> drop(i) == DroppedAt(run, acts, i, side, id);
  }

  /**
   An orderly close loses nothing.  In every run, a socket that is closed by its peer's CLSE
   has from then on had all the bytes the peer ever sent, and has written them all out once
   it is freed, if and only if no write error and no end of its descriptor made it drop some.
   */
  lemma OrderlyCloseLosesNothing(run: seq<System>, acts: seq<Action>, m: nat, n: nat, side: bool, id: nat)
    requires IsRun(run, acts) && m < n <= |acts|
    requires ClosedByPeer(run[m].From(side), acts[m], run[m + 1].From(side), id)
    ensures var t := run[n].From(side);
            && id in t.x.socks && t.x.socks[id].peer in t.y.socks
            && var p, q := t.x.socks[id], t.y.socks[t.x.socks[id].peer];
               && (Held(p) == q.sent <==> forall i :: m < i < n ==> !DroppedAt(run, acts, i, side, id))
               && (p.phase.Freed? ==>
                     (p.written == q.sent <==> forall i :: m < i < n ==> !DroppedAt(run, acts, i, side, id)))
  {
    ClosedIsWhole(run, acts, m, side, id);
    var s := run[m + 1].From(side);
    OffRun(run, acts, m + 1, n, side, id);
    OffRun(run, acts, m + 1, n, !side, s.x.socks[id].peer);
    var t := run[n].From(side);
    assert t.x.socks[id].phase.Freed? ==> Held(t.x.socks[id]) == t.x.socks[id].written + [];
  }
}
