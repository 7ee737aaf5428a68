/**
 Two honest adb ends joined by two FIFO channels, each carrying many connections at once.
 A step is taken by either end: it opens a stream, handles the next packet of its inbound
 channel, or handles an event on one of its descriptors.
 */
module Multiplexer {
  import opened SocketModel
  import opened Connection

  datatype System = System(x: End, y: End, xy: seq<Packet>, yx: seq<Packet>)
  {
    /** The same link seen from the other end. */
    function Swap(): System {
      System(y, x, yx, xy)
    }

    /** The link seen from end x (side) or from end y. */
    function From(side: bool): System {
      if side then this else Swap()
    }
  }

  datatype Action =
    | Connect
    | Receive(service: bool, io: WriteResult)
    | OnDescriptor(id: nat, ev: Event)

  const Initial := System(Start, Start, [], [])

  predicate CanInstall(e: End) {
    e.nextId < ID_LIMIT
  }

  /** What end x may do in s, and the state after it. */
  predicate StepX(s: System, act: Action, s': System) {
    match act
    case Connect =>
      && CanInstall(s.x)
      && var (e, outs) := OpenStream(s.x, LINK);
         s' == s.(x := e, xy := s.xy + Packets(outs))
    case Receive(service, io) =>
      && s.yx != []
      && (s.yx[0].OPEN? && service ==> CanInstall(s.x))
      && var (e, outs) := HandlePacket(s.x, LINK, s.yx[0], service, io);
         s' == s.(x := e, yx := s.yx[1..], xy := s.xy + Packets(outs))
    case OnDescriptor(id, ev) =>
      && id in s.x.socks && !ev.Deliver? && Enabled(s.x.socks[id], ev)
      && var (e, outs) := HandleEvent(s.x, id, ev);
         s' == s.(x := e, xy := s.xy + Packets(outs))
  }

  predicate Step(s: System, act: Action, s': System) {
    StepX(s, act, s') || StepX(s.Swap(), act, s'.Swap())
  }

  /** Does packet p belong to the connection opened by id `open` / addressed to id `dest`? */
  predicate Concerns(p: Packet, open: nat, dest: nat) {
    if p.OPEN? then open != 0 && p.arg0 == open else dest != 0 && p.arg1 == dest
  }

  /** The part of a channel that belongs to one connection, in channel order. */
  function Select(ch: seq<Packet>, open: nat, dest: nat): seq<Packet> {
    if ch == [] then []
    else (if Concerns(ch[0], open, dest) then [ch[0]] else []) + Select(ch[1..], open, dest)
  }

  lemma {:induction false} SelectAppend(front: seq<Packet>, back: seq<Packet>, open: nat, dest: nat)
    ensures Select(front + back, open, dest) == Select(front, open, dest) + Select(back, open, dest)
  {
    if front == [] {
      assert front + back == back;
    } else {
      var first := if Concerns(front[0], open, dest) then [front[0]] else [];
      SelectAppend(front[1..], back, open, dest);
      assert (front + back)[1..] == front[1..] + back && (front + back)[0] == front[0];
      Bytes.Regroup(first, Select(front[1..], open, dest), Select(back, open, dest));
    }
  }

  lemma {:induction false} SelectAll(ch: seq<Packet>, open: nat, dest: nat)
    requires forall k :: 0 <= k < |ch| ==> Concerns(ch[k], open, dest)
    ensures Select(ch, open, dest) == ch
  {
    if ch != [] {
      SelectAll(ch[1..], open, dest);
    }
  }

  lemma {:induction false} SelectNone(ch: seq<Packet>, open: nat, dest: nat)
    requires forall k :: 0 <= k < |ch| ==> !Concerns(ch[k], open, dest)
    ensures Select(ch, open, dest) == []
  {
    if ch != [] {
      SelectNone(ch[1..], open, dest);
    }
  }

  /** Naming a destination nobody has written to yet changes nothing. */
  lemma {:induction false} SelectFresh(ch: seq<Packet>, open: nat, dest: nat)
    requires forall k :: 0 <= k < |ch| ==> ch[k].OPEN? || ch[k].arg1 != dest
    ensures Select(ch, open, dest) == Select(ch, open, 0)
  {
    if ch != [] {
      SelectFresh(ch[1..], open, dest);
    }
  }

  /** The socket end y accepted for the stream opened as a, or 0. */
  function AcceptorId(y: End, a: nat): nat {
    if a in y.accepted then y.accepted[a] else 0
  }

  /** The connection opened by socket a of end x, cut out of the whole link. */
  function View(s: System, a: nat): Conn
    requires a in s.x.socks
  {
    var b := AcceptorId(s.y, a);
    Conn(a, s.x.socks[a], b, if b in s.y.socks then s.y.socks[b] else Opening(0),
         Select(s.xy, a, b), Select(s.yx, 0, a))
  }

  predicate Opener(e: End, id: nat) {
    id in e.socks && e.socks[id].opener
  }

  predicate Acceptor(e: End, id: nat) {
    id in e.socks && !e.socks[id].opener
  }

  ghost predicate IdsOk(e: End) {
    e.nextId >= 1 && forall id :: id in e.socks <==> 1 <= id < e.nextId
  }

  /** Accepted sockets of y and openers of x name each other uniquely. */
  ghost predicate MatchOk(x: End, y: End) {
    && (forall a :: a in y.accepted ==>
          Opener(x, a) && Acceptor(y, y.accepted[a]) && y.socks[y.accepted[a]].peer == a)
    && (forall b :: Acceptor(y, b) ==> y.socks[b].peer in y.accepted && y.accepted[y.socks[b].peer] == b)
  }

  /** Packets from x to y name sockets that exist. */
  ghost predicate TrafficOk(x: End, y: End, xy: seq<Packet>) {
    forall k :: 0 <= k < |xy| ==> if xy[k].OPEN? then Opener(x, xy[k].arg0) else xy[k].arg1 in y.socks
  }

  ghost predicate HalfOk(s: System) {
    && IdsOk(s.x)
    && MatchOk(s.x, s.y)
    && TrafficOk(s.x, s.y, s.xy)
    && (forall a :: Opener(s.x, a) ==> ConnOk(View(s, a)))
  }

  /** The invariant of the link. */
  ghost predicate SystemOk(s: System) {
    HalfOk(s) && HalfOk(s.Swap())
  }

  /** Socket id of end x handles ev: a packet it takes off the channel, or a descriptor event. */
  predicate SocketMove(s: System, id: nat, ev: Event, s': System) {
    && id in s.x.socks && Enabled(s.x.socks[id], ev)
    && (ev.Deliver? ==> s.yx != [] && ev.packet == s.yx[0] && ev.packet.arg1 == id)
    && var r := React(s.x.socks[id], id, LINK, ev);
       s' == s.(x := s.x.(socks := s.x.socks[id := r.sock]),
                yx := if ev.Deliver? then s.yx[1..] else s.yx,
                xy := s.xy + Packets(r.outs))
  }

  /** React never forgets who opened a connection, nor a peer once known. */
  lemma ReactIdentity(s: Sock, id: nat, t: nat, ev: Event)
    requires Enabled(s, ev)
    ensures var s' := React(s, id, t, ev).sock;
            s'.opener == s.opener && (s.peer != 0 ==> s'.peer == s.peer)
  {}

  lemma SelectHead(ch: seq<Packet>, open: nat, dest: nat)
    requires ch != []
    ensures Select(ch, open, dest)
         == if Concerns(ch[0], open, dest) then [ch[0]] + Select(ch[1..], open, dest) else Select(ch[1..], open, dest)
  {}

  /** The packets an opener sends all go to the socket accepted for it. */
  lemma OpenerOuts(s: System, id: nat, ev: Event, s': System)
    requires SystemOk(s) && SocketMove(s, id, ev, s') && Opener(s.x, id)
    ensures var outs := Packets(React(s.x.socks[id], id, LINK, ev).outs);
            var b := AcceptorId(s.y, id);
            if b == 0 then outs == [] else Between(outs, id, b)
  {
    var k := View(s, id);
    assert ConnOk(k);
    SelectHeadFor(s, id, ev);
    if k.b != 0 {
      ReactAddresses(k.o, id, k.b, k.bwd, ev);
    }
  }

  lemma SelectHeadFor(s: System, id: nat, ev: Event)
    requires id != 0
    requires ev.Deliver? ==> s.yx != [] && ev.packet == s.yx[0] && ev.packet.arg1 == id && !ev.packet.OPEN?
    ensures ev.Deliver? ==>
              var q := Select(s.yx, 0, id);
              q != [] && q[0] == ev.packet && q[1..] == Select(s.yx[1..], 0, id)
  {
    if ev.Deliver? {
      SelectHead(s.yx, 0, id);
    }
  }

  lemma OpenerSends(s: System, id: nat, ev: Event, s': System)
    requires SystemOk(s) && SocketMove(s, id, ev, s') && Opener(s.x, id)
    ensures var b := AcceptorId(s.y, id);
            Select(s'.xy, id, b) == Select(s.xy, id, b) + Packets(React(s.x.socks[id], id, LINK, ev).outs)
  {
    var outs := Packets(React(s.x.socks[id], id, LINK, ev).outs);
    var b := AcceptorId(s.y, id);
    OpenerOuts(s, id, ev, s');
    SelectAppend(s.xy, outs, id, b);
    if b != 0 {
      SelectAll(outs, id, b);
    }
  }

  lemma OpenerActs(s: System, id: nat, ev: Event, s': System)
    requires SystemOk(s) && SocketMove(s, id, ev, s') && Opener(s.x, id)
    ensures OpenerMove(View(s, id), ev, View(s', id))
  {
    OpenerSends(s, id, ev, s');
    SelectHeadFor(s, id, ev);
  }

  lemma OpenerSendsElsewhere(s: System, id: nat, ev: Event, s': System, open: nat, dest: nat)
    requires SystemOk(s) && SocketMove(s, id, ev, s') && Opener(s.x, id)
    requires dest == 0 || dest != AcceptorId(s.y, id)
    ensures Select(s'.xy, open, dest) == Select(s.xy, open, dest)
  {
    var outs := Packets(React(s.x.socks[id], id, LINK, ev).outs);
    OpenerOuts(s, id, ev, s');
    SelectAppend(s.xy, outs, open, dest);
    SelectNone(outs, open, dest);
  }

  lemma OpenerLeavesOpeners(s: System, id: nat, ev: Event, s': System, a: nat)
    requires SystemOk(s) && SocketMove(s, id, ev, s') && Opener(s.x, id)
    requires Opener(s.x, a) && a != id
    ensures View(s', a) == View(s, a)
  {
    OpenerSendsElsewhere(s, id, ev, s', a, AcceptorId(s.y, a));
    if ev.Deliver? {
      SelectHead(s.yx, 0, a);
    }
  }

  lemma OpenerLeavesAcceptors(s: System, id: nat, ev: Event, s': System, a: nat)
    requires SystemOk(s) && SocketMove(s, id, ev, s') && Opener(s.x, id)
    requires Opener(s.y, a)
    ensures View(s'.Swap(), a) == View(s.Swap(), a)
  {
    OpenerSendsElsewhere(s, id, ev, s', 0, a);
    if ev.Deliver? {
      SelectHead(s.yx, a, AcceptorId(s.x, a));
    }
  }

  /** The packets an accepted socket sends all go to the socket that opened the connection. */
  lemma AcceptorOuts(s: System, id: nat, ev: Event, s': System)
    requires SystemOk(s) && SocketMove(s, id, ev, s') && Acceptor(s.x, id)
    ensures var outs := Packets(React(s.x.socks[id], id, LINK, ev).outs);
            Opener(s.y, s.x.socks[id].peer) && Between(outs, id, s.x.socks[id].peer)
    ensures Possible(s.x.socks[id], Select(s.yx, s.x.socks[id].peer, id), ev)
    ensures ev.Deliver? ==> Select(s.yx[1..], s.x.socks[id].peer, id) == Select(s.yx, s.x.socks[id].peer, id)[1..]
  {
    var a := s.x.socks[id].peer;
    assert s.x.accepted[a] == id;
    var k := View(s.Swap(), a);
    assert ConnOk(k);
    if ev.Deliver? {
      SelectHead(s.yx, a, id);
    }
    ReactAddresses(k.c, id, a, k.fwd, ev);
  }

  lemma AcceptorActs(s: System, id: nat, ev: Event, s': System)
    requires SystemOk(s) && SocketMove(s, id, ev, s') && Acceptor(s.x, id)
    ensures var a := s.x.socks[id].peer;
            Opener(s.y, a) && AcceptorMove(View(s.Swap(), a), ev, View(s'.Swap(), a))
  {
    var a := s.x.socks[id].peer;
    var outs := Packets(React(s.x.socks[id], id, LINK, ev).outs);
    AcceptorOuts(s, id, ev, s');
    assert s.x.accepted[a] == id;
    SelectAppend(s.xy, outs, 0, a);
    SelectAll(outs, 0, a);
  }

  lemma AcceptorLeavesOpeners(s: System, id: nat, ev: Event, s': System, a: nat)
    requires SystemOk(s) && SocketMove(s, id, ev, s') && Acceptor(s.x, id)
    requires Opener(s.x, a)
    ensures View(s', a) == View(s, a)
  {
    var outs := Packets(React(s.x.socks[id], id, LINK, ev).outs);
    var b := AcceptorId(s.y, a);
    AcceptorOuts(s, id, ev, s');
    SelectAppend(s.xy, outs, a, b);
    SelectNone(outs, a, b);
    if ev.Deliver? {
      SelectHead(s.yx, 0, a);
    }
  }

  lemma AcceptorLeavesAcceptors(s: System, id: nat, ev: Event, s': System, a: nat)
    requires SystemOk(s) && SocketMove(s, id, ev, s') && Acceptor(s.x, id)
    requires Opener(s.y, a) && a != s.x.socks[id].peer
    ensures View(s'.Swap(), a) == View(s.Swap(), a)
  {
    var outs := Packets(React(s.x.socks[id], id, LINK, ev).outs);
    var b := AcceptorId(s.x, a);
    AcceptorOuts(s, id, ev, s');
    SelectAppend(s.xy, outs, 0, a);
    SelectNone(outs, 0, a);
    if ev.Deliver? {
      SelectHead(s.yx, a, b);
    }
  }

  lemma ConnectStarts(s: System, s': System)
    requires SystemOk(s) && StepX(s, Connect, s')
    ensures PendingOk(View(s', s.x.nextId))
  {
    var n := s.x.nextId;
    SelectAppend(s.xy, [OPEN(n, 0)], n, 0);
    SelectNone(s.xy, n, 0);
    SelectAll([OPEN(n, 0)], n, 0);
    SelectNone(s.yx, 0, n);
    assert Packets(OpenStream(s.x, LINK).1) == [OPEN(n, 0)];
  }

  lemma ConnectLeavesOpeners(s: System, s': System, a: nat)
    requires SystemOk(s) && StepX(s, Connect, s') && Opener(s.x, a)
    ensures View(s', a) == View(s, a)
  {
    var sent, b := [OPEN(s.x.nextId, 0)], AcceptorId(s.y, a);
    assert Packets(OpenStream(s.x, LINK).1) == sent;
    SelectAppend(s.xy, sent, a, b);
    SelectNone(sent, a, b);
  }

  lemma ConnectLeavesAcceptors(s: System, s': System, a: nat)
    requires SystemOk(s) && StepX(s, Connect, s') && Opener(s.y, a)
    ensures View(s'.Swap(), a) == View(s.Swap(), a)
  {
    var sent := [OPEN(s.x.nextId, 0)];
    assert Packets(OpenStream(s.x, LINK).1) == sent;
    SelectAppend(s.xy, sent, 0, a);
    SelectNone(sent, 0, a);
  }

  /** End x takes an OPEN off the channel. */
  predicate TakesOpen(s: System, service: bool, io: WriteResult, s': System) {
    s.yx != [] && s.yx[0].OPEN? && StepX(s, Receive(service, io), s')
  }

  lemma OpenIsPending(s: System)
    requires SystemOk(s) && s.yx != [] && s.yx[0].OPEN?
    ensures Opener(s.y, s.yx[0].arg0) && s.yx[0].arg0 !in s.x.accepted && s.yx[0].arg0 != 0
    ensures s.yx[0].arg1 == 0
  {
    var a := s.yx[0].arg0;
    var k := View(s.Swap(), a);
    assert ConnOk(k);
    SelectHead(s.yx, a, k.b);
    assert k.fwd[0] == s.yx[0];
  }

  lemma OpenTaken(s: System, service: bool, io: WriteResult, s': System)
    requires SystemOk(s) && TakesOpen(s, service, io, s')
    ensures var a := s.yx[0].arg0;
            && Opener(s.y, a)
            && if service then AcceptMove(View(s.Swap(), a), s.x.nextId, View(s'.Swap(), a))
               else RefuseMove(View(s.Swap(), a), View(s'.Swap(), a))
  {
    var a, n := s.yx[0].arg0, s.x.nextId;
    OpenIsPending(s);
    SelectHead(s.yx, a, 0);
    var reply := if service then OKAY(n, a) else CLSE(0, a);
    assert s'.xy == s.xy + [reply];
    SelectAppend(s.xy, [reply], 0, a);
    SelectAll([reply], 0, a);
    SelectFresh(s.yx[1..], a, n);
  }

  lemma OpenReply(s: System, service: bool, io: WriteResult, s': System) returns (reply: Packet)
    requires SystemOk(s) && TakesOpen(s, service, io, s')
    ensures !reply.OPEN? && reply.arg1 == s.yx[0].arg0 && Opener(s.y, s.yx[0].arg0)
    ensures s'.xy == s.xy + [reply] && s'.yx == s.yx[1..]
    ensures s'.y == s.y && forall i :: i in s.x.socks ==> i in s'.x.socks && s'.x.socks[i] == s.x.socks[i]
    ensures forall a :: a != s.yx[0].arg0 ==> AcceptorId(s'.x, a) == AcceptorId(s.x, a)
  {
    OpenIsPending(s);
    reply := if service then OKAY(s.x.nextId, s.yx[0].arg0) else CLSE(0, s.yx[0].arg0);
    assert s'.xy == s.xy + [reply];
  }

  lemma OpenLeavesOpeners(s: System, service: bool, io: WriteResult, s': System, a: nat)
    requires SystemOk(s) && TakesOpen(s, service, io, s') && Opener(s.x, a)
    ensures Opener(s'.x, a) && View(s', a) == View(s, a)
  {
    var reply := OpenReply(s, service, io, s');
    var b := AcceptorId(s.y, a);
    SelectAppend(s.xy, [reply], a, b);
    SelectNone([reply], a, b);
    SelectHead(s.yx, 0, a);
  }

  lemma OpenLeavesAcceptors(s: System, service: bool, io: WriteResult, s': System, a: nat)
    requires SystemOk(s) && TakesOpen(s, service, io, s') && Opener(s.y, a) && a != s.yx[0].arg0
    ensures View(s'.Swap(), a) == View(s.Swap(), a)
  {
    var reply := OpenReply(s, service, io, s');
    SelectAppend(s.xy, [reply], 0, a);
    SelectNone([reply], 0, a);
    SelectHead(s.yx, a, AcceptorId(s.x, a));
  }

  /** Every other step of end x is one of its sockets handling one event. */
  lemma OtherStepsAreSocketMoves(s: System, act: Action, s': System) returns (id: nat, ev: Event)
    requires SystemOk(s) && StepX(s, act, s')
    requires !act.Connect? && !(act.Receive? && s.yx[0].OPEN?)
    ensures SocketMove(s, id, ev, s')
    ensures id == (if act.Receive? then s.yx[0].arg1 else act.id)
    ensures ev == (if act.Receive? then Deliver(s.yx[0], act.io) else act.ev)
  {
    if act.Receive? {
      id, ev := s.yx[0].arg1, Deliver(s.yx[0], act.io);
      assert s.Swap().xy[0] == s.yx[0];
    } else {
      id, ev := act.id, act.ev;
    }
  }

  /** What a possible action of x is for the connection x opened as a. */
  function OpenerSees(s: System, act: Action, a: nat): Move {
    match act
    case Connect => Still
    case Receive(_, io) =>
      if s.yx != [] && !s.yx[0].OPEN? && s.yx[0].arg1 == a then ByOpener(Deliver(s.yx[0], io)) else Still
    case OnDescriptor(id, ev) => if id == a then ByOpener(ev) else Still
  }

  /** What it is for the connection y opened as a. */
  function AcceptorSees(s: System, act: Action, a: nat): Move {
    match act
    case Connect => Still
    case Receive(service, io) =>
      if s.yx == [] then Still
      else if s.yx[0].OPEN? then
        if s.yx[0].arg0 != a then Still else if service then Accepting(s.x.nextId) else Refusing
      else if s.yx[0].arg1 == AcceptorId(s.x, a) then ByAcceptor(Deliver(s.yx[0], io)) else Still
    case OnDescriptor(id, ev) => if id == AcceptorId(s.x, a) then ByAcceptor(ev) else Still
  }

  lemma StepSeenByOpener(s: System, act: Action, s': System, a: nat)
    requires SystemOk(s) && StepX(s, act, s') && Opener(s.x, a)
    ensures Opener(s'.x, a) && Moves(View(s, a), OpenerSees(s, act, a), View(s', a))
  {
    if act.Connect? {
      ConnectLeavesOpeners(s, s', a);
    } else if act.Receive? && s.yx[0].OPEN? {
      OpenLeavesOpeners(s, act.service, act.io, s', a);
    } else {
      var id, ev := OtherStepsAreSocketMoves(s, act, s');
      ReactIdentity(s.x.socks[id], id, LINK, ev);
      if Acceptor(s.x, id) {
        AcceptorLeavesOpeners(s, id, ev, s', a);
      } else if a == id {
        OpenerActs(s, id, ev, s');
      } else {
        OpenerLeavesOpeners(s, id, ev, s', a);
      }
    }
  }

  lemma StepSeenByAcceptor(s: System, act: Action, s': System, a: nat)
    requires SystemOk(s) && StepX(s, act, s') && Opener(s.y, a)
    ensures Opener(s'.y, a) && Moves(View(s.Swap(), a), AcceptorSees(s, act, a), View(s'.Swap(), a))
  {
    if act.Connect? {
      ConnectLeavesAcceptors(s, s', a);
    } else if act.Receive? && s.yx[0].OPEN? {
      if a == s.yx[0].arg0 {
        OpenTaken(s, act.service, act.io, s');
      } else {
        OpenLeavesAcceptors(s, act.service, act.io, s', a);
      }
    } else {
      var id, ev := OtherStepsAreSocketMoves(s, act, s');
      if Opener(s.x, id) {
        OpenerLeavesAcceptors(s, id, ev, s', a);
      } else if a == s.x.socks[id].peer {
        AcceptorActs(s, id, ev, s');
      } else {
        AcceptorLeavesAcceptors(s, id, ev, s', a);
      }
    }
  }

  /** What the step from s to s' is for the connection x opened as a. */
  function Sees(s: System, act: Action, s': System, a: nat): Move {
    if StepX(s, act, s') then OpenerSees(s, act, a) else AcceptorSees(s.Swap(), act, a)
  }

  /** Isolation: each connection of the link runs exactly as if it were alone on it. */
  lemma ConnectionsRunAlone(s: System, act: Action, s': System, a: nat)
    requires SystemOk(s) && Step(s, act, s') && Opener(s.x, a)
    ensures Opener(s'.x, a) && Moves(View(s, a), Sees(s, act, s', a), View(s', a))
  {
    if StepX(s, act, s') {
      StepSeenByOpener(s, act, s', a);
    } else {
      StepSeenByAcceptor(s.Swap(), act, s'.Swap(), a);
    }
  }

  /** Names survive when one socket changes anything but its role and its known peer. */
  lemma NamesKept(x: End, y: End, id: nat, sock: Sock)
    requires IdsOk(x) && MatchOk(x, y) && MatchOk(y, x)
    requires id in x.socks && sock.opener == x.socks[id].opener
    requires !sock.opener ==> sock.peer == x.socks[id].peer
    ensures var x' := x.(socks := x.socks[id := sock]);
            IdsOk(x') && MatchOk(x', y) && MatchOk(y, x')
  {
    var x' := x.(socks := x.socks[id := sock]);
    assert forall i :: Opener(x', i) <==> Opener(x, i);
    assert forall i :: Acceptor(x', i) <==> Acceptor(x, i);
  }

  lemma TrafficKept(x: End, x': End, y: End, y': End, ch: seq<Packet>, more: seq<Packet>)
    requires TrafficOk(x, y, ch)
    requires forall i :: Opener(x, i) ==> Opener(x', i)
    requires forall i :: i in y.socks ==> i in y'.socks
    requires TrafficOk(x', y', more)
    ensures TrafficOk(x', y', ch + more)
    ensures ch != [] ==> TrafficOk(x', y', ch[1..])
  {
    forall k | 0 <= k < |ch|
      ensures if ch[k].OPEN? then Opener(x', ch[k].arg0) else ch[k].arg1 in y'.socks
    {}
  }

  /** Every step of x keeps ids fresh and sockets matched, and addresses only sockets that exist. */
  lemma SocketMoveNames(s: System, id: nat, ev: Event, s': System)
    requires SystemOk(s) && SocketMove(s, id, ev, s')
    ensures NamesOk(s')
  {
    var r := React(s.x.socks[id], id, LINK, ev);
    ReactIdentity(s.x.socks[id], id, LINK, ev);
    if Acceptor(s.x, id) {
      AcceptorOuts(s, id, ev, s');
      PeerIsNamed(s, id);
    } else {
      OpenerOuts(s, id, ev, s');
    }
    NamesKept(s.x, s.y, id, r.sock);
    TrafficKept(s.x, s'.x, s.y, s.y, s.xy, Packets(r.outs));
    TrafficKept(s.y, s.y, s.x, s'.x, s.yx, []);
    assert s.yx + [] == s.yx;
  }

  lemma PeerIsNamed(s: System, id: nat)
    requires SystemOk(s) && Acceptor(s.x, id)
    ensures s.x.socks[id].peer != 0
  {
    assert Opener(s.y, s.x.socks[id].peer);
  }

  ghost predicate NamesOk(s: System) {
    && IdsOk(s.x) && IdsOk(s.y)
    && MatchOk(s.x, s.y) && MatchOk(s.y, s.x)
    && TrafficOk(s.x, s.y, s.xy) && TrafficOk(s.y, s.x, s.yx)
  }

  lemma ConnectNames(s: System, s': System)
    requires SystemOk(s) && StepX(s, Connect, s')
    ensures NamesOk(s')
  {
    var n := s.x.nextId;
    var sent := Packets(OpenStream(s.x, LINK).1);
    assert sent == [OPEN(n, 0)];
    TrafficKept(s.x, s'.x, s.y, s.y, s.xy, sent);
    TrafficKept(s.y, s.y, s.x, s'.x, s.yx, []);
    assert s.yx + [] == s.yx;
  }

  lemma OpenNames(s: System, service: bool, io: WriteResult, s': System)
    requires SystemOk(s) && TakesOpen(s, service, io, s')
    ensures NamesOk(s')
  {
    var a, n := s.yx[0].arg0, s.x.nextId;
    OpenIsPending(s);
    var reply := if service then OKAY(n, a) else CLSE(0, a);
    assert s'.xy == s.xy + [reply];
    TrafficKept(s.x, s'.x, s.y, s.y, s.xy, [reply]);
    TrafficKept(s.y, s.y, s.x, s'.x, s.yx, []);
  }

  lemma StepNames(s: System, act: Action, s': System)
    requires SystemOk(s) && StepX(s, act, s')
    ensures NamesOk(s')
  {
    if act.Connect? {
      ConnectNames(s, s');
    } else if act.Receive? && s.yx[0].OPEN? {
      OpenNames(s, act.service, act.io, s');
    } else {
      var id, ev := OtherStepsAreSocketMoves(s, act, s');
      SocketMoveNames(s, id, ev, s');
    }
  }
}
