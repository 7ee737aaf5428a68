/**
 Local sockets as adb/sockets.cpp runs them: records mutated in place by loops over
 adb_write and adb_read, whose results are arbitrary.  Every method states its effect as
 the SocketModel function it performs on the socket's value.
 */
module Sockets {
  import opened Bytes
  import opened SocketModel

  /** What a remote asocket amounts to: the id at the far end and the transport to it. */
  datatype Remote = NoPeer | Peer(id: nat, transport: nat)

  /** The packets handed to send_packet so far. */
  class Outbox {
    var sent: seq<Out>

    constructor ()
      ensures sent == []
    {
      sent := [];
    }
  }

  /** One result of adb_write or adb_read: a positive count, EAGAIN, or end/failure. */
  datatype IoResult = Some(count: nat) | Again | Ended

  /** adb_write: nothing is known of its result but that it cannot exceed the request. */
  method AdbWrite(length: nat) returns (r: IoResult)
    requires length > 0
    ensures r.Some? ==> 0 < r.count <= length
  {
    r := *;
    if r.Some? && !(0 < r.count <= length) {
      r := Ended;
    }
  }

  /** adb_read: likewise, together with the bytes that arrived. */
  method AdbRead(room: nat) returns (r: IoResult, data: bytes)
    requires room > 0
    ensures r.Some? ==> 0 < r.count <= room && |data| == r.count
  {
    r, data := *, *;
    if r.Some? && !(0 < r.count <= room && |data| == r.count) {
      r := Ended;
    }
  }

  /** Taking n bytes off the front packet of a partly drained queue drains it n further. */
  lemma FrontWritten(was: seq<bytes>, queue: seq<bytes>, done: nat, n: nat)
    requires queue != [] && 0 < n <= |queue[0]|
    requires done <= |Concat(was)| && Concat(queue) == Concat(was)[done..]
    requires DrainQueue(queue, 0) == DrainQueue(was, done)
    ensures var queue' := [queue[0][n..]] + queue[1..];
            && done + n <= |Concat(was)|
            && Concat(queue') == Concat(was)[done + n..]
            && DrainQueue(queue', 0) == DrainQueue(was, done + n)
            && Concat(was)[..done] + queue[0][..n] == Concat(was)[..done + n]
  {
    var head, rest, all := queue[0], queue[1..], Concat(was);
    var queue' := [head[n..]] + rest;
    assert queue'[1..] == rest;
    assert Concat(queue') == head[n..] + Concat(rest);
    assert Concat(queue) == head + Concat(rest);
    assert all == all[..done] + Concat(queue);
    assert all == (all[..done] + head[..n]) + Concat(queue');
    DrainQueueMore(queue, 0, n);
    DrainQueueMore(was, done, n);
  }

  class LocalSocket {
    var id: nat
    var closing: bool
    var hasWriteError: bool
    var peer: Remote
    var transport: nat
    var readArmed: bool     // fde.state & FDE_READ
    var writeArmed: bool    // fde.state & FDE_WRITE
    var forceEof: bool      // fde.force_eof
    var freed: bool         // the record has been handed to free()
    var queue: seq<bytes>   // pkt_first .. pkt_last, each from p->ptr on
    var output: bytes       // everything the descriptor has accepted
    ghost const key: nat    // the id it was installed with
    ghost const opener: bool
    ghost var last: Remote  // the peer it has or last had
    ghost var sent: bytes   // payloads of the WRTE packets it sent

    /** The socket as a SocketModel value. */
    ghost function Value(): Sock
      reads this
    {
      Sock(if freed then Freed else if closing then Draining else Listed,
           opener, transport,
           if last.NoPeer? then 0 else last.id, if last.NoPeer? then 0 else last.transport,
           queue, readArmed, sent, output)
    }

    /**
     The closing discipline: WRITE is armed exactly while the queue is nonempty; on the
     closing list a socket has id 0, no peer, READ disarmed and something queued.
     */
    ghost predicate Valid()
      reads this
    {
      && key != 0
      && (peer.Peer? ==> peer.id != 0) && (last.Peer? ==> last.id != 0)
      && (writeArmed <==> queue != [])
      && if freed then peer.NoPeer? && queue == [] && !readArmed
         else if closing then peer.NoPeer? && id == 0 && !readArmed && queue != [] && !hasWriteError
         else peer == last && id == key && !hasWriteError && (queue != [] ==> peer.Peer?)
    }

    /** As Valid, but in the middle of a callback that is about to call close(). */
    ghost predicate Closable()
      reads this
    {
      && key != 0 && !freed
      && (peer.Peer? ==> peer.id != 0) && (last.Peer? ==> last.id != 0)
      && if closing then peer.NoPeer? && id == 0 && !readArmed
         else peer == last && id == key && (queue != [] && !hasWriteError ==> writeArmed)
    }

    constructor (ghost key: nat, id: nat, transport: nat, peer: Remote, ghost opener: bool)
      requires key == id != 0 && (peer.Peer? ==> peer.id != 0)
      ensures Valid() && this.key == key && this.id == id && this.peer == this.last == peer
      ensures !freed && !closing
      ensures Value() == Sock(Listed, opener, transport, if peer.NoPeer? then 0 else peer.id,
                              if peer.NoPeer? then 0 else peer.transport, [], false, [], [])
    {
      this.key, this.id, this.transport, this.peer, this.last, this.opener := key, id, transport, peer, peer, opener;
      closing, hasWriteError, readArmed, writeArmed, forceEof, freed := false, false, false, false, false, false;
      queue, output, sent := [], [], [];
    }

    /** local_socket_close, with remote_socket_shutdown and remote_socket_close for the peer. */
    method Close(box: Outbox)
      requires Closable()
      modifies this, box
      ensures Valid() && (freed || closing) && (old(closing) ==> closing)
      ensures var r := SocketModel.Close(old(Value()), key, old(hasWriteError));
              Value() == r.sock && box.sent == old(box.sent) + r.outs
    {
      if peer.Peer? {
        box.sent := box.sent + [Out(peer.transport, CLSE(id, peer.id))];
        peer := NoPeer;
      }
      if closing || hasWriteError || queue == [] {
        freed, readArmed, writeArmed, queue := true, false, false, [];
        return;
      }
      closing := true;
      readArmed := false;
      id := 0;
      assert writeArmed;
    }

    /** What the first OKAY (create the peer) and every later one (from the same peer) do. */
    method Acknowledge(far: nat, t: nat, ghost io: WriteResult)
      requires Valid() && !freed && !closing && far != 0
      modifies this
      ensures Valid() && !freed && !closing
      ensures OnPacket(old(Value()), t, OKAY(far, key), io) == Reaction(Value(), [])
    {
      if peer == NoPeer {
        peer := Peer(far, t);
        last := peer;
        readArmed := true;
      } else if peer.id == far {
        readArmed := true;
      }
    }

    /** local_socket_ready */
    method Ready()
      requires Valid() && !freed && !closing
      modifies this`readArmed
      ensures Valid() && !freed && !closing && Value() == old(Value()).(reading := true)
    {
      readArmed := true;
    }

    /** The write loop of local_socket_enqueue: n bytes go out, then done, blocked or failed. */
    method WriteOut(data: bytes) returns (n: nat, failed: bool)
      modifies this`output
      ensures n <= |data| && output == old(output) + data[..n]
      ensures failed ==> n < |data|
    {
      n, failed := 0, false;
      while n < |data|
        invariant n <= |data| && output == old(output) + data[..n]
      {
        var r := AdbWrite(|data| - n);
        match r
        case Some(count) =>
          assert data[..n] + data[n..n + count] == data[..n + count];
          output := output + data[n..n + count];
          n := n + count;
        case Ended => return n, true;
        case Again => break;
      }
    }

    /**
     local_socket_enqueue.  `ready` is the return value 0; `io` is how the writes went.
     */
    method Enqueue(data: bytes, box: Outbox) returns (ready: bool, ghost io: WriteResult)
      requires Valid() && !freed && !closing && peer.Peer?
      modifies this, box
      ensures Valid()
      ensures var (r, ok) := SocketModel.Enqueue(old(Value()), key, data, io);
              Value() == r.sock && box.sent == old(box.sent) + r.outs && ready == ok
      ensures ready ==> !freed && !closing
    {
      var n, failed := 0, false;
      if queue == [] {
        n, failed := WriteOut(data);
        io := WriteResult(n, failed);
        if failed {
          hasWriteError := true;
          Close(box);
          return false, io;
        }
        if n == |data| {
          return true, io;
        }
      }
      io := WriteResult(n, false);
      queue := queue + [data[n..]];
      writeArmed := true;
      ready := false;
    }

    /** n bytes of the packets in `was` have gone out since the output was `out`. */
    ghost predicate Flushed(was: seq<bytes>, out: bytes, n: nat)
      reads this`queue, this`output
    {
      var all := Concat(was);
      && n <= |all| && Concat(queue) == all[n..] && output == out + all[..n]
      && DrainQueue(queue, 0) == DrainQueue(was, n)
    }

    /** The inner loop: the front packet is written until it is empty, blocked or failed. */
    method FlushFront(ghost was: seq<bytes>, ghost out: bytes, ghost n: nat)
      returns (blocked: bool, failed: bool, ghost n': nat)
      requires queue != [] && Flushed(was, out, n)
      modifies this`queue, this`output
      ensures Flushed(was, out, n') && |queue| == |old(queue)|
      ensures (queue[0] == [] <==> !blocked && !failed) && !(blocked && failed)
    {
      n', blocked, failed := n, false, false;
      while queue[0] != []
        invariant |queue| == |old(queue)| && Flushed(was, out, n')
        decreases |queue[0]|
      {
        var r := AdbWrite(|queue[0]|);
        match r
        case Again => return true, false, n';
        case Ended => return false, true, n';
        case Some(count) =>
          FrontWritten(was, queue, n', count);
          output := output + queue[0][..count];
          queue := [queue[0][count..]] + queue[1..];
          n' := n' + count;
      }
    }

    /** The two write loops of local_socket_event_func: until drained, blocked or failed. */
    method Flush() returns (blocked: bool, failed: bool, ghost n: nat)
      modifies this`queue, this`output
      ensures n <= |Concat(old(queue))|
      ensures output == old(output) + Concat(old(queue))[..n]
      ensures queue == DrainQueue(old(queue), n)
      ensures (queue == [] <==> !blocked && !failed) && !(blocked && failed)
    {
      ghost var was, out := queue, output;
      n, blocked, failed := 0, false, false;
      while queue != []
        invariant Flushed(was, out, n) && !blocked && !failed
        decreases |queue|
      {
        blocked, failed, n := FlushFront(was, out, n);
        if blocked || failed {
          return;
        }
        queue := queue[1..];
      }
    }

    /** The FDE_WRITE half of local_socket_event_func; `stop` when the function returns there. */
    method WriteHalf(box: Outbox) returns (stop: bool, ghost io: WriteResult)
      requires Valid() && !freed && writeArmed
      modifies this, box
      ensures Valid() && (old(closing) ==> closing)
      ensures var r := OnWritable(old(Value()), key, io);
              Value() == r.sock && box.sent == old(box.sent) + r.outs
      ensures !stop ==> !freed && !closing && peer == old(peer) && readArmed == old(readArmed)
    {
      var blocked, failed;
      ghost var n;
      blocked, failed, n := Flush();
      io := WriteResult(n, failed);
      DrainQueueBytes(old(queue), n);
      if blocked {
        return true, io;
      }
      if failed {
        hasWriteError := true;
        Close(box);
        return true, io;
      }
      if closing {
        Close(box);
        return true, io;
      }
      writeArmed := false;
      box.sent := box.sent + [Out(peer.transport, OKAY(id, peer.id))];
      stop := false;
    }

    /** asocket::get_max_payload, for transports that accept `payload` bytes per packet. */
    function MaxPayload(payload: map<nat, nat>): (n: nat)
      reads this
      ensures n <= MAX_PAYLOAD
      ensures transport in payload ==> n <= payload[transport]
      ensures peer.Peer? && peer.transport in payload ==> n <= payload[peer.transport]
      ensures || n == MAX_PAYLOAD
              || (transport in payload && n == payload[transport])
              || (peer.Peer? && peer.transport in payload && n == payload[peer.transport])
    {
      var own := if transport in payload then Min(MAX_PAYLOAD, payload[transport]) else MAX_PAYLOAD;
      if peer.Peer? && peer.transport in payload then Min(own, payload[peer.transport]) else own
    }

    /** The FDE_READ half of local_socket_event_func: read what fits one packet and pass it on. */
    method ReadHalf(payload: map<nat, nat>, hangup: bool, box: Outbox) returns (ghost ev: Event)
      requires Valid() && !freed && (hangup || readArmed)
      modifies this, box
      ensures Valid() && (old(closing) ==> closing)
      ensures ev.Readable? && ev.hangup == hangup && |ev.data| <= old(MaxPayload(payload))
      ensures Enabled(old(Value()), ev)
      ensures var r := React(old(Value()), key, 0, ev);
              Value() == r.sock && box.sent == old(box.sent) + r.outs
    {
      var room := MaxPayload(payload);
      var data, eof := ReadUpTo(room);
      // A forced eof counts only if the last result was 0: here, if no read was attempted.
      var close := eof || (forceEof && room == 0);
      ev := Readable(data, close, hangup);
      if data != [] && peer.Peer? {
        box.sent := box.sent + [Out(peer.transport, WRTE(id, peer.id, data))];
        sent := sent + data;
        readArmed := false;
      }
      if close {
        Close(box);
      }
    }

    /** local_socket_event_func: the write half, then, unless it returned, the read half. */
    method EventFunc(write: bool, read: bool, hangup: bool, payload: map<nat, nat>, box: Outbox)
      returns (ghost evs: seq<Event>)
      requires Valid() && !freed
      requires write ==> writeArmed
      requires read ==> hangup || readArmed
      modifies this, box
      ensures Valid() && (old(closing) ==> closing)
      ensures |evs| <= 2 && Performs(old(Value()), key, evs, Value(), box.sent, old(box.sent))
    {
      evs := [];
      if write {
        var stop;
        ghost var io;
        stop, io := WriteHalf(box);
        evs := [Writable(io)];
        assert Performs(old(Value()), key, evs, Value(), box.sent, old(box.sent)) by {
          assert evs[1..] == [];
        }
        if stop {
          return;
        }
      }
      if read {
        ghost var mid, before := Value(), box.sent;
        ghost var ev := ReadHalf(payload, hangup, box);
        assert Performs(mid, key, [ev], Value(), box.sent, before) by {
          assert [ev][1..] == [];
        }
        evs := evs + [ev];
        assert evs[1..] == if write then [ev] else [];
      }
    }
  }

  /** The read loop of local_socket_event_func. */
  method ReadUpTo(room: nat) returns (data: bytes, eof: bool)
    ensures |data| <= room
    ensures room == 0 ==> data == [] && !eof
  {
    data, eof := [], false;
    while |data| < room
      invariant |data| <= room && (room == 0 ==> data == [] && !eof)
      decreases room - |data|
    {
      var r, more := AdbRead(room - |data|);
      match r
      case Some(_) => data := data + more;
      case Again => break;
      case Ended =>
        eof := true;
        break;
    }
  }

  /** s becomes s' by handling the events in turn, and the packets that sends are appended. */
  ghost predicate Performs(s: Sock, key: nat, evs: seq<Event>, s': Sock, sent': seq<Out>, sent: seq<Out>)
    decreases |evs|
  {
    if evs == [] then s' == s && sent' == sent
    else
      && !evs[0].Deliver? && Enabled(s, evs[0])
      && var r := React(s, key, 0, evs[0]);
         Performs(r.sock, key, evs[1..], s', sent', sent + r.outs)
  }
}
