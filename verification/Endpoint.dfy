/**
 One end of the link as a whole: the list of local sockets, the id counter and the stream
 cases of handle_packet (adb/adb.cpp), performed on records in place.
 */
module Endpoint {
  import opened Bytes
  import opened SocketModel
  import opened Sockets

  /** The list without s. */
  function Unlisted(list: seq<LocalSocket>, s: LocalSocket): (rest: seq<LocalSocket>)
    ensures forall t :: t in rest ==> t in list && t != s
    ensures forall t :: t in list && t != s ==> t in rest
  {
    if list == [] then []
    else if list[0] == s then Unlisted(list[1..], s)
    else [list[0]] + Unlisted(list[1..], s)
  }

  lemma Updated(was: map<nat, Sock>, now: map<nat, Sock>, k: nat, v: Sock)
    requires now.Keys == was.Keys + {k} && now[k] == v
    requires forall j :: j in was && j != k ==> now[j] == was[j]
    ensures now == was[k := v]
  {}

  /** e after socket k alone took the value m. */
  ghost function With(e: End, k: nat, m: Sock): End {
    e.(socks := e.socks[k := m])
  }

  /** Installing the socket of an accepted OPEN and then arming READ is one model step. */
  lemma InstalledThenReady(e: End, far: nat, t: nat, s: Sock)
    requires far != 0 && s == Accepted(far, t).(reading := false)
    ensures var installed := e.(nextId := e.nextId + 1, socks := e.socks[e.nextId := s],
                                accepted := e.accepted[far := e.nextId]);
            HandleOpen(e, t, OPEN(far, 0), true) ==
              (With(installed, e.nextId, s.(reading := true)), [Out(t, OKAY(e.nextId, far))])
  {
    assert e.socks[e.nextId := s][e.nextId := Accepted(far, t)] == e.socks[e.nextId := Accepted(far, t)];
  }

  /** An OKAY that names no listed socket changes nothing; with both ids given it is answered. */
  lemma OkayUnmatched(e: End, t: nat, p: Packet, io: WriteResult)
    requires p.OKAY? && (p.arg0 == 0 || p.arg1 == 0 || p.arg1 !in e.socks || !Found(e.socks[p.arg1], 0))
    ensures HandlePacket(e, t, p, false, io) == (e, Unknown(t, p))
  {
    assert p.arg1 in e.socks ==> e.socks == e.socks[p.arg1 := e.socks[p.arg1]];
  }

  class Endpoint {
    const box: Outbox
    var nextId: nat
    var list: seq<LocalSocket>              // local_socket_list
    ghost var all: map<nat, LocalSocket>    // every socket ever installed
    ghost var accepted: map<nat, nat>

    /** Every installed socket is filed under its id and obeys the closing discipline. */
    ghost predicate Filed()
      reads this`nextId, this`all, all.Values
    {
      nextId >= 1 && forall k :: k in all ==> all[k].key == k && 1 <= k < nextId && all[k].Valid()
    }

    /** The list holds exactly the sockets not closed, where `but` may be on it though closed. */
    ghost predicate Exact(but: LocalSocket?)
      reads this`list, this`all, all.Values
    {
      && (forall s :: s in list && s != but ==> s.key in all && all[s.key] == s && !s.freed && !s.closing)
      && (forall k :: k in all && !all[k].freed && !all[k].closing ==> all[k] in list)
    }

    ghost predicate Valid()
      reads this, all.Values
    {
      Filed() && Exact(null)
    }

    /** The end as a SocketModel value. */
    ghost function Model(): End
      reads this, all.Values
    {
      End(nextId, map k | k in all :: all[k].Value(), accepted)
    }

    constructor ()
      ensures Valid() && Model() == Start && fresh(box) && box.sent == [] && all == map[]
    {
      box := new Outbox();
      nextId, list, all, accepted := 1, [], map[], map[];
    }

    /** send_packet: nothing of this end changes. */
    method Send(o: Out)
      requires Valid()
      modifies box
      ensures Valid() && Model() == old(Model()) && box.sent == old(box.sent) + [o]
    {
      box.sent := box.sent + [o];
    }

    /** find_local_socket */
    method FindLocalSocket(localId: nat, peerId: nat) returns (s: LocalSocket?)
      requires Valid() && localId != 0
      ensures s != null ==> s in list && localId in all && all[localId] == s && Found(s.Value(), peerId)
      ensures s == null ==> localId !in all || !Found(all[localId].Value(), peerId)
    {
      for i := 0 to |list|
        invariant forall j :: 0 <= j < i ==> list[j].key != localId
      {
        assert all[list[i].key] == list[i] && list[i].Valid();
        if list[i].id != localId {
          continue;
        }
        if peerId == 0 || (list[i].peer.Peer? && list[i].peer.id == peerId) {
          return list[i];
        }
        return null;
      }
      return null;
    }

    /** s goes on the list under the next id. */
    method Put(s: LocalSocket)
      requires Valid() && s.Valid() && s.key == nextId && !s.freed && !s.closing
      modifies this`nextId, this`list, this`all, this`accepted
      ensures Valid() && s in list && nextId == old(nextId) + 1 && all == old(all)[s.key := s]
      ensures accepted == if s.last.Peer? then old(accepted)[s.last.id := s.key] else old(accepted)
    {
      nextId := nextId + 1;
      list := list + [s];
      all := all[s.key := s];
      accepted := if s.last.Peer? then accepted[s.last.id := s.key] else accepted;
    }

    /** install_local_socket */
    method Install(s: LocalSocket)
      requires Valid() && nextId < ID_LIMIT
      requires s.Valid() && s.key == nextId && !s.freed && !s.closing
      modifies this`nextId, this`list, this`all, this`accepted
      ensures Valid() && s in list && all == old(all)[s.key := s]
      ensures Model() == old(Model()).(
        nextId := old(nextId) + 1,
        socks := old(Model()).socks[s.key := s.Value()],
        accepted := if s.last.Peer? then old(accepted)[s.last.id := s.key] else old(accepted))
    {
      ghost var was := Model().socks;
      Put(s);
      Updated(was, Model().socks, s.key, s.Value());
    }

    /** No socket of this end has been replaced, and only new ones have come. */
    twostate predicate Grown()
      reads this
    {
      forall k :: k in all ==> (k in old(all) && all[k] == old(all)[k]) || fresh(all[k])
    }

    /** A new local socket, installed; null when the id counter has run out. */
    method Create(transport: nat, peer: Remote, ghost opener: bool) returns (s: LocalSocket?)
      requires Valid() && (peer.Peer? ==> peer.id != 0)
      modifies this`nextId, this`list, this`all, this`accepted
      ensures s == null <==> old(nextId) >= ID_LIMIT
      ensures s != null ==>
        && Valid() && fresh(s) && s in list && s.key == old(nextId) && s.id == s.key && s.peer == peer
        && all == old(all)[s.key := s]
        && s.Value() == Sock(Listed, opener, transport, if peer.NoPeer? then 0 else peer.id,
                             if peer.NoPeer? then 0 else peer.transport, [], false, [], [])
        && Model() == old(Model()).(
             nextId := old(nextId) + 1,
             socks := old(Model()).socks[s.key := s.Value()],
             accepted := if peer.Peer? then old(accepted)[peer.id := s.key] else old(accepted))
    {
      if nextId >= ID_LIMIT {
        return null;
      }
      s := new LocalSocket(nextId, nextId, transport, peer, opener);
      Install(s);
    }

    /** Valid, except that s may have been closed without having left the list. */
    ghost predicate ValidBut(s: LocalSocket)
      reads this, all.Values
    {
      Filed() && Exact(s) && s.key in all && all[s.key] == s
    }

    /** The remove_socket call of local_socket_close, if s has been closed. */
    method Unlist(s: LocalSocket)
      requires ValidBut(s)
      modifies this`list
      ensures Valid() && Model() == old(Model())
      ensures list == if s.freed || s.closing then Unlisted(old(list), s) else old(list)
    {
      if s.freed || s.closing {
        list := Unlisted(list, s);
      }
    }

    /** What follows when s is all that changed. */
    twostate lemma OneChanged(s: LocalSocket)
      requires old(Valid()) && s.key in all && all[s.key] == s && s.Valid()
      requires nextId == old(nextId) && list == old(list) && all == old(all)
      requires forall k :: k in all && k != s.key ==> unchanged(all[k])
      requires old(s.freed || s.closing) ==> s.freed || s.closing
      ensures ValidBut(s)
    {}

    twostate lemma OneRevalued(s: LocalSocket)
      requires s.key in all && all[s.key] == s
      requires nextId == old(nextId) && all == old(all) && accepted == old(accepted)
      requires forall k :: k in all && k != s.key ==> unchanged(all[k])
      ensures Model() == With(old(Model()), s.key, s.Value())
    {
      forall k | k in all && k != s.key
        ensures Model().socks[k] == old(Model()).socks[k]
      {
        assert unchanged(all[k]);
      }
      Updated(old(Model()).socks, Model().socks, s.key, s.Value());
    }

    method AcknowledgeOne(s: LocalSocket, far: nat, t: nat, ghost io: WriteResult)
      requires Valid() && s in list && far != 0
      modifies s
      ensures Valid() && Model() == With(old(Model()), s.key, OnPacket(old(s.Value()), t, OKAY(far, s.key), io).sock)
    {
      s.Acknowledge(far, t, io);
      OneChanged(s);
      OneRevalued(s);
    }

    /** local_socket_ready */
    method ReadyOne(s: LocalSocket)
      requires Valid() && s in list
      modifies s
      ensures Valid() && Model() == With(old(Model()), s.key, old(s.Value()).(reading := true))
      ensures s.Value() == old(s.Value()).(reading := true)
    {
      s.Ready();
      OneChanged(s);
      OneRevalued(s);
    }

    method CloseOne(s: LocalSocket)
      requires Valid() && s in list
      modifies this`list, box, s
      ensures Valid() && Model() == With(old(Model()), s.key, Close(old(s.Value()), s.key, false).sock)
      ensures box.sent == old(box.sent) + Close(old(s.Value()), s.key, false).outs
      ensures list == Unlisted(old(list), s)
    {
      s.Close(box);
      OneChanged(s);
      OneRevalued(s);
      Unlist(s);
    }

    method EnqueueOne(s: LocalSocket, data: bytes) returns (ready: bool, ghost io: WriteResult)
      requires Valid() && s in list && s.peer.Peer?
      modifies this`list, box, s
      ensures Valid() && Model() == With(old(Model()), s.key, Enqueue(old(s.Value()), s.key, data, io).0.sock)
      ensures box.sent == old(box.sent) + Enqueue(old(s.Value()), s.key, data, io).0.outs
      ensures ready == Enqueue(old(s.Value()), s.key, data, io).1
      ensures ready ==> s.id == s.key
    {
      ready, io := s.Enqueue(data, box);
      OneChanged(s);
      OneRevalued(s);
      Unlist(s);
    }

    /** The OKAY case of handle_packet. */
    method HandleOkay(p: Packet, t: nat, ghost io: WriteResult)
      requires Valid() && p.OKAY?
      modifies box, all.Values
      ensures Valid()
      ensures var (e, outs) := SocketModel.HandlePacket(old(Model()), t, p, false, io);
              Model() == e && box.sent == old(box.sent) + outs
    {
      if p.arg0 != 0 && p.arg1 != 0 {
        var s := FindLocalSocket(p.arg1, 0);
        if s != null {
          AcknowledgeOne(s, p.arg0, t, io);
          return;
        }
        Send(Out(t, CLSE(p.arg1, p.arg0)));
      }
      OkayUnmatched(old(Model()), t, p, io);
    }

    /** The CLSE case of handle_packet. */
    method HandleClse(p: Packet, t: nat, ghost io: WriteResult)
      requires Valid() && p.CLSE?
      modifies this`list, box, all.Values
      ensures Valid()
      ensures var (e, outs) := SocketModel.HandlePacket(old(Model()), t, p, false, io);
              Model() == e && box.sent == old(box.sent) + outs
    {
      if p.arg1 != 0 {
        var s := FindLocalSocket(p.arg1, p.arg0);
        if s != null && !(p.arg0 == 0 && s.peer.Peer? && s.peer.transport != t) {
          CloseOne(s);
          return;
        }
      }
      assert Model() == old(Model());
    }

    /** The body of the WRTE case once its socket is found. */
    method TakeData(s: LocalSocket, p: Packet, t: nat) returns (ghost io: WriteResult)
      requires Valid() && s in list && p.WRTE? && p.arg0 != 0 && p.arg1 == s.key && Found(s.Value(), p.arg0)
      modifies this`list, box, s
      ensures Valid() && Model() == With(old(Model()), s.key, OnPacket(old(s.Value()), t, p, io).sock)
      ensures box.sent == old(box.sent) + OnPacket(old(s.Value()), t, p, io).outs
    {
      var ready;
      ready, io := EnqueueOne(s, p.data);
      if ready {
        Send(Out(t, OKAY(s.id, p.arg0)));
      }
    }

    /** The WRTE case of handle_packet. */
    method HandleWrte(p: Packet, t: nat) returns (ghost io: WriteResult)
      requires Valid() && p.WRTE?
      modifies this`list, box, all.Values
      ensures Valid()
      ensures var (e, outs) := SocketModel.HandlePacket(old(Model()), t, p, false, io);
              Model() == e && box.sent == old(box.sent) + outs
    {
      io := WriteResult(0, false);
      if p.arg0 != 0 && p.arg1 != 0 {
        var s := FindLocalSocket(p.arg1, p.arg0);
        if s != null {
          io := TakeData(s, p, t);
          return;
        }
      }
      assert Model() == old(Model());
    }

    /** The OPEN case of handle_packet; false when installing the socket aborts the process. */
    method HandleOpen(p: Packet, t: nat, service: bool) returns (alive: bool)
      requires Valid() && p.OPEN?
      modifies this, box
      ensures alive <==> !(service && p.arg0 != 0 && p.arg1 == 0 && old(nextId) >= ID_LIMIT)
      ensures alive ==>
        var (e, outs) := SocketModel.HandleOpen(old(Model()), t, p, service);
        Valid() && Grown() && Model() == e && box.sent == old(box.sent) + outs
    {
      if p.arg0 != 0 && p.arg1 == 0 {
        if !service {
          Send(Out(t, CLSE(0, p.arg0)));
          return true;
        }
        alive := Accept(p.arg0, t);
        return;
      }
      assert Model() == old(Model());
      return true;
    }

    /** An OPEN whose service exists: install its socket, answer OKAY, arm READ. */
    method Accept(far: nat, t: nat) returns (alive: bool)
      requires Valid() && far != 0
      modifies this, box
      ensures alive <==> old(nextId) < ID_LIMIT
      ensures alive ==>
        var (e, outs) := SocketModel.HandleOpen(old(Model()), t, OPEN(far, 0), true);
        Valid() && Grown() && Model() == e && box.sent == old(box.sent) + outs
    {
      var s := Create(0, Peer(far, t), false);
      if s == null {
        return false;
      }
      InstalledThenReady(old(Model()), far, t, s.Value());
      Send(Out(t, OKAY(s.id, s.peer.id)));
      ReadyOne(s);
      return true;
    }

    /**
     The stream cases of handle_packet.  `service` says whether create_local_service_socket
     succeeds; `io` is how the writes it caused went.
     */
    method HandlePacket(p: Packet, t: nat, online: bool, service: bool) returns (alive: bool, ghost io: WriteResult)
      requires Valid()
      modifies this, box, all.Values
      ensures alive <==> !(online && p.OPEN? && service && p.arg0 != 0 && p.arg1 == 0 && old(nextId) >= ID_LIMIT)
      ensures alive && online ==>
        var (e, outs) := SocketModel.HandlePacket(old(Model()), t, p, service, io);
        Valid() && Grown() && Model() == e && box.sent == old(box.sent) + outs
      ensures !online ==> Valid() && Model() == old(Model()) && box.sent == old(box.sent)
    {
      alive, io := true, WriteResult(0, false);
      if online {
        match p
        case OPEN(_, _) => alive := HandleOpen(p, t, service);
        case OKAY(_, _) => HandleOkay(p, t, io);
        case CLSE(_, _) => HandleClse(p, t, io);
        case WRTE(_, _, _) => io := HandleWrte(p, t);
      }
    }

    /** connect_to_remote on a newly installed socket. */
    method ConnectToRemote(t: nat) returns (s: LocalSocket?)
      requires Valid()
      modifies this, box
      ensures s == null <==> old(nextId) >= ID_LIMIT
      ensures s != null ==>
        var (e, outs) := OpenStream(old(Model()), t);
        Valid() && Grown() && Model() == e && box.sent == old(box.sent) + outs
    {
      s := Create(t, NoPeer, true);
      if s != null {
        Send(Out(t, OPEN(s.id, 0)));
      }
    }

    /** local_socket_event_func, before the list is brought up to date. */
    method Perform(s: LocalSocket, write: bool, read: bool, hangup: bool, payload: map<nat, nat>)
      returns (ghost evs: seq<Event>)
      requires Valid() && s.key in all && all[s.key] == s && !s.freed
      requires (write ==> s.writeArmed) && (read ==> hangup || s.readArmed)
      modifies box, s
      ensures ValidBut(s) && Model() == With(old(Model()), s.key, s.Value())
      ensures Performs(old(s.Value()), s.key, evs, s.Value(), box.sent, old(box.sent))
    {
      evs := s.EventFunc(write, read, hangup, payload, box);
      OneChanged(s);
      OneRevalued(s);
    }

    /** local_socket_event_func for a socket of this end, listed or still draining. */
    method OnDescriptor(s: LocalSocket, write: bool, read: bool, hangup: bool, payload: map<nat, nat>)
      returns (ghost evs: seq<Event>)
      requires Valid() && s.key in all && all[s.key] == s && !s.freed
      requires (write ==> s.writeArmed) && (read ==> hangup || s.readArmed)
      modifies this`list, box, s
      ensures Valid() && Model() == With(old(Model()), s.key, s.Value())
      ensures Performs(old(s.Value()), s.key, evs, s.Value(), box.sent, old(box.sent))
    {
      evs := Perform(s, write, read, hangup, payload);
      Unlist(s);
    }
  }
}
