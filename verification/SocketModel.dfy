/**
 Value semantics of one end of an adb link: what adb/sockets.cpp and the stream cases of
 handle_packet (adb/adb.cpp) do to one local socket and which packets they hand to the
 transport.  Every function takes the outcome of the system calls as an argument, so a
 statement that holds for all arguments holds for every behaviour of the descriptors.
 */
module SocketModel {
  import opened Bytes

  /** `local` and `remote` of adb/protocol.txt are arg0 and arg1, relative to the sender. */
  datatype Packet =
    | OPEN(arg0: nat, arg1: nat)
    | OKAY(arg0: nat, arg1: nat)
    | WRTE(arg0: nat, arg1: nat, data: bytes)
    | CLSE(arg0: nat, arg1: nat)

  /** A packet handed to send_packet together with the transport it goes to. */
  datatype Out = Out(transport: nat, packet: Packet)

  /** Listed: on local_socket_list.  Draining: on local_socket_closing_list.  Freed: destroyed. */
  datatype Phase = Listed | Draining | Freed

  /**
   One local socket over its whole life.
   `peer` is the id of the remote socket (0 while there is none) and `via` that socket's
   transport; both are kept as history once the socket is no longer Listed.
   `sent` and `written` are histories: the payloads sent in WRTE packets and the bytes the
   descriptor has accepted.
   */
  datatype Sock = Sock(
    phase: Phase,
    opener: bool,
    transport: nat,
    peer: nat,
    via: nat,
    queue: seq<bytes>,
    reading: bool,
    sent: bytes,
    written: bytes)

  /** How far a sequence of adb_write calls got: `count` bytes, then EAGAIN or a failure. */
  datatype WriteResult = WriteResult(count: nat, failed: bool)

  datatype Event =
    | Deliver(packet: Packet, io: WriteResult)
    | Writable(io: WriteResult)
    | Readable(data: bytes, eof: bool, hangup: bool)

  datatype Reaction = Reaction(sock: Sock, outs: seq<Out>)

  /** connect_to_remote on a fresh socket: no peer until the first OKAY. */
  function Opening(t: nat): Sock {
    Sock(Listed, true, t, 0, 0, [], false, [], [])
  }

  /** The socket made for an accepted OPEN: peer known at once, READ armed at once. */
  function Accepted(remote: nat, t: nat): Sock {
    Sock(Listed, false, 0, remote, t, [], true, [], [])
  }

  /** local_socket_close; `failed` is has_write_error. */
  function Close(s: Sock, id: nat, failed: bool): Reaction {
    var notice := if s.phase.Listed? && s.peer != 0 then [Out(s.via, CLSE(id, s.peer))] else [];
    if s.phase.Listed? && !failed && s.queue != [] then
      Reaction(s.(phase := Draining, reading := false), notice)
    else
      Reaction(s.(phase := Freed, reading := false, queue := []), notice)
  }

  /** local_socket_enqueue; `ready` is the return value 0. */
  function Enqueue(s: Sock, id: nat, data: bytes, io: WriteResult): (r: (Reaction, bool)) {
    if s.queue != [] then
      (Reaction(s.(queue := s.queue + [data]), []), false)
    else
      var n := Min(io.count, |data|);
      var s1 := s.(written := s.written + data[..n]);
      if n == |data| then (Reaction(s1, []), true)
      else if io.failed then (Close(s1, id, true), false)
      else (Reaction(s1.(queue := [data[n..]]), []), false)
  }

  /** The queue left once its first n bytes are written; written-out packets are popped. */
  function DrainQueue(queue: seq<bytes>, n: nat): seq<bytes> {
    if queue == [] then []
    else if |queue[0]| <= n then DrainQueue(queue[1..], n - |queue[0]|)
    else [queue[0][n..]] + queue[1..]
  }

  /** The FDE_WRITE half of local_socket_event_func. */
  function OnWritable(s: Sock, id: nat, io: WriteResult): Reaction {
    var all := Concat(s.queue);
    var n := Min(io.count, |all|);
    var s1 := s.(written := s.written + all[..n], queue := DrainQueue(s.queue, n));
    if n == |all| then
      if s.phase.Listed? then Reaction(s1, [Out(s.via, OKAY(id, s.peer))])
      else Close(s1, id, false)
    else if io.failed then Close(s1, id, true)
    else Reaction(s1, [])
  }

  /** The FDE_READ half of local_socket_event_func. */
  function OnReadable(s: Sock, id: nat, data: bytes, eof: bool): Reaction {
    var sends := data != [] && s.phase.Listed? && s.peer != 0;
    var s1 := if sends then s.(sent := s.sent + data, reading := false) else s;
    var outs := if sends then [Out(s.via, WRTE(id, s.peer, data))] else [];
    if eof then
      var r := Close(s1, id, false);
      r.(outs := outs + r.outs)
    else Reaction(s1, outs)
  }

  /** find_local_socket(id, wanted) applied to the socket with that id. */
  predicate Found(s: Sock, wanted: nat) {
    s.phase.Listed? && (wanted == 0 || s.peer == wanted)
  }

  /** The OKAY, CLSE and WRTE cases of handle_packet for the socket named by arg1. */
  function OnPacket(s: Sock, t: nat, p: Packet, io: WriteResult): Reaction
    requires !p.OPEN?
  {
    match p
    case OPEN(_, _) => Reaction(s, [])
    case OKAY(far, id) =>
      if far == 0 || id == 0 then Reaction(s, [])
      else if !Found(s, 0) then Reaction(s, [Out(t, CLSE(id, far))])
      else if s.peer == 0 then Reaction(s.(peer := far, via := t, reading := true), [])
      else if s.peer == far then Reaction(s.(reading := true), [])
      else Reaction(s, [])
    case CLSE(far, id) =>
      if id == 0 || !Found(s, far) then Reaction(s, [])
      else if far == 0 && s.peer != 0 && s.via != t then Reaction(s, [])
      else Close(s, id, false)
    case WRTE(far, id, data) =>
      if far == 0 || id == 0 || !Found(s, far) then Reaction(s, [])
      else
        var (r, ready) := Enqueue(s, id, data, io);
        if ready then r.(outs := r.outs + [Out(t, OKAY(id, far))]) else r
  }

  /** When the event loop or the link can present this event to the socket. */
  predicate Enabled(s: Sock, ev: Event) {
    match ev
    case Deliver(p, _) => !p.OPEN?
    case Writable(_) => !s.phase.Freed? && s.queue != []
    case Readable(_, _, hangup) => !s.phase.Freed? && (hangup || s.reading)
  }

  function React(s: Sock, id: nat, t: nat, ev: Event): Reaction
    requires Enabled(s, ev)
  {
    match ev
    case Deliver(p, io) => OnPacket(s, t, p, io)
    case Writable(io) => OnWritable(s, id, io)
    case Readable(data, eof, _) => OnReadable(s, id, data, eof)
  }

  /**
   One end: every local socket it ever had, by the id it was installed with.
   `accepted` is history: which socket was made for the OPEN of which remote id.
   */
  datatype End = End(nextId: nat, socks: map<nat, Sock>, accepted: map<nat, nat>)

  /** One past the last id; local_socket_next_id wrapping to 0 is fatal. */
  const ID_LIMIT: nat := 0xffff_ffff

  const Start := End(1, map[], map[])

  function OpenStream(e: End, t: nat): (End, seq<Out>) {
    (e.(nextId := e.nextId + 1, socks := e.socks[e.nextId := Opening(t)]),
     [Out(t, OPEN(e.nextId, 0))])
  }

  /** The OPEN case of handle_packet; `service` says whether a service socket could be made. */
  function HandleOpen(e: End, t: nat, p: Packet, service: bool): (End, seq<Out>)
    requires p.OPEN?
  {
    if p.arg0 == 0 || p.arg1 != 0 then (e, [])
    else if !service then (e, [Out(t, CLSE(0, p.arg0))])
    else
      (e.(nextId := e.nextId + 1,
          socks := e.socks[e.nextId := Accepted(p.arg0, t)],
          accepted := e.accepted[p.arg0 := e.nextId]),
       [Out(t, OKAY(e.nextId, p.arg0))])
  }

  /** What handle_packet does when no socket was ever installed under arg1. */
  function Unknown(t: nat, p: Packet): seq<Out> {
    if p.OKAY? && p.arg0 != 0 && p.arg1 != 0 then [Out(t, CLSE(p.arg1, p.arg0))] else []
  }

  /** The stream cases of handle_packet on an online transport t. */
  function HandlePacket(e: End, t: nat, p: Packet, service: bool, io: WriteResult): (End, seq<Out>) {
    if p.OPEN? then HandleOpen(e, t, p, service)
    else if p.arg1 !in e.socks then (e, Unknown(t, p))
    else
      var r := OnPacket(e.socks[p.arg1], t, p, io);
      (e.(socks := e.socks[p.arg1 := r.sock]), r.outs)
  }

  /** local_socket_event_func for one of its two halves. */
  function HandleEvent(e: End, id: nat, ev: Event): (End, seq<Out>)
    requires id in e.socks && !ev.Deliver? && Enabled(e.socks[id], ev)
  {
    var r := React(e.socks[id], id, 0, ev);
    (e.(socks := e.socks[id := r.sock]), r.outs)
  }

  lemma {:induction false} DrainQueueBytes(queue: seq<bytes>, n: nat)
    requires n <= |Concat(queue)|
    ensures Concat(DrainQueue(queue, n)) == Concat(queue)[n..]
    ensures DrainQueue(queue, n) == [] <==> n == |Concat(queue)|
    ensures |DrainQueue(queue, n)| <= |queue|
  {
    if queue != [] {
      var head, rest := queue[0], queue[1..];
      if |head| <= n {
        DrainQueueBytes(rest, n - |head|);
        assert Concat(queue)[n..] == Concat(rest)[n - |head|..];
      } else {
        var kept := [head[n..]] + rest;
        assert kept[1..] == rest;
        assert Concat(queue)[n..] == head[n..] + Concat(rest);
      }
    }
  }

  /** Writing the front packet further and then draining is draining further. */
  lemma {:induction false} DrainQueueMore(queue: seq<bytes>, n: nat, m: nat)
    ensures DrainQueue(DrainQueue(queue, n), m) == DrainQueue(queue, n + m)
  {
    if queue != [] {
      var head, rest := queue[0], queue[1..];
      if |head| <= n {
        DrainQueueMore(rest, n - |head|, m);
      } else {
        var kept := [head[n..]] + rest;
        assert kept[1..] == rest;
        assert |head| > n + m ==> head[n..][m..] == head[n + m..];
      }
    }
  }
}
