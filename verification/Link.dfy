/**
 The program side of the link: two endpoints joined by the packets each has sent and the
 other has not handled yet.  Whatever the two do, the states they go through are a run of
 the Multiplexer, so the theorems about its runs hold of the sockets' own fields.
 */
module Link {
  import opened Bytes
  import opened SocketModel
  import opened Sockets
  import opened Endpoint
  import opened Connection
  import opened Multiplexer
  import opened MultiplexerTheorems

  /** One action per event of the socket. */
  function Descriptors(id: nat, evs: seq<Event>): seq<Action> {
    seq(|evs|, i requires 0 <= i < |evs| => OnDescriptor(id, evs[i]))
  }

  /** A step of either end makes a run one step longer. */
  lemma OneStep(run: seq<System>, acts: seq<Action>, side: bool, act: Action, s: System)
    requires IsRun(run, acts) && StepX(run[|acts|].From(side), act, s.From(side))
    ensures IsRun(run + [s], acts + [act]) && (run + [s])[|acts + [act]|] == s
  {
    OneMore(run, acts, act, s);
  }

  /** Packets sent in two goes reach the channel in one piece. */
  lemma SentInTwo(ch: seq<Packet>, sent: seq<Out>, outs: seq<Out>, sent': seq<Out>)
    requires sent + outs <= sent'
    ensures ch + Packets(outs) + Packets(sent'[|sent + outs|..]) == ch + Packets(sent'[|sent|..])
  {
    assert sent'[|sent|..] == outs + sent'[|sent + outs|..];
  }

  /**
   What a callback does to a socket and its outbox is a chain of descriptor steps of the
   link, one for each event it performed.
   */
  lemma {:induction false} PerformedRun(run: seq<System>, acts: seq<Action>, side: bool, id: nat,
                                        evs: seq<Event>, sock: Sock, sent': seq<Out>, sent: seq<Out>)
    returns (run': seq<System>, acts': seq<Action>)
    requires IsRun(run, acts) && id in run[|acts|].From(side).x.socks
    requires Performs(run[|acts|].From(side).x.socks[id], id, evs, sock, sent', sent)
    ensures IsRun(run', acts') && run <= run' && acts' == acts + Descriptors(id, evs)
    ensures sent <= sent'
    ensures var s := run[|acts|].From(side);
            run'[|acts'|].From(side) == s.(x := With(s.x, id, sock), xy := s.xy + Packets(sent'[|sent|..]))
    decreases |evs|
  {
    var s := run[|acts|].From(side);
    if evs == [] {
      run', acts' := run, acts;
      assert s.x.socks == s.x.socks[id := sock];
      assert s.xy + Packets([]) == s.xy;
    } else {
      var r := React(s.x.socks[id], id, 0, evs[0]);
      var s1 := s.(x := With(s.x, id, r.sock), xy := s.xy + Packets(r.outs));
      var act := OnDescriptor(id, evs[0]);
      OneStep(run, acts, side, act, s1.From(side));
      run', acts' := PerformedRun(run + [s1.From(side)], acts + [act], side, id, evs[1..], sock, sent', sent + r.outs);
      assert s.x.socks[id := r.sock][id := sock] == s.x.socks[id := sock];
      assert [act] + Descriptors(id, evs[1..]) == Descriptors(id, evs);
      SentInTwo(s.xy, sent, r.outs, sent');
    }
  }

  /** The same with both end states given. */
  lemma EventsRun(run: seq<System>, acts: seq<Action>, side: bool, id: nat, evs: seq<Event>, sock: Sock, sock': Sock,
                  sent': seq<Out>, sent: seq<Out>, was: System, now: System)
    returns (run': seq<System>, acts': seq<Action>)
    requires IsRun(run, acts) && run[|acts|] == was
    requires var s := was.From(side);
             id in s.x.socks && s.x.socks[id] == sock && sent <= sent' &&
             now.From(side) == s.(x := With(s.x, id, sock'), xy := s.xy + Packets(sent'[|sent|..]))
    requires Performs(sock, id, evs, sock', sent', sent)
    ensures IsRun(run', acts') && run <= run' && acts' == acts + Descriptors(id, evs) && run'[|acts'|] == now
  {
    run', acts' := PerformedRun(run, acts, side, id, evs, sock', sent', sent);
  }

  /** Two endpoints that share nothing. */
  ghost predicate Apart(e: Endpoint, f: Endpoint)
    reads e, f
  {
    && e != f && e.box != f.box
    && forall j, k :: j in e.all && k in f.all ==> e.all[j] != f.all[k]
  }

  ghost predicate BothValid(e: Endpoint, f: Endpoint)
    reads e, f, e.all.Values, f.all.Values
  {
    Apart(e, f) && e.Valid() && f.Valid()
  }

  /** When an OPEN makes install_local_socket run out of ids. */
  predicate Exhausted(nextId: nat, p: Packet, service: bool) {
    p.OPEN? && service && p.arg0 != 0 && p.arg1 == 0 && nextId >= ID_LIMIT
  }

  /** connect_to_remote at one end leaves the other as it is. */
  method ConnectBeside(e: Endpoint, f: Endpoint) returns (s: LocalSocket?)
    requires BothValid(e, f)
    modifies e, e.box
    ensures s == null <==> old(e.nextId) >= ID_LIMIT
    ensures s != null ==>
      var (m, outs) := OpenStream(old(e.Model()), LINK);
      && BothValid(e, f) && f.Model() == old(f.Model())
      && e.Model() == m && e.box.sent == old(e.box.sent) + outs
  {
    s := e.ConnectToRemote(LINK);
  }

  /** So does handle_packet. */
  method HandleBeside(e: Endpoint, f: Endpoint, p: Packet, service: bool)
    returns (alive: bool, ghost io: WriteResult)
    requires BothValid(e, f)
    modifies e, e.box, e.all.Values
    ensures alive <==> !Exhausted(old(e.nextId), p, service)
    ensures alive ==>
      var (m, outs) := HandlePacket(old(e.Model()), LINK, p, service, io);
      && BothValid(e, f) && f.Model() == old(f.Model())
      && e.Model() == m && e.box.sent == old(e.box.sent) + outs
  {
    alive, io := e.HandlePacket(p, LINK, true, service);
  }

  /** And so does local_socket_event_func. */
  method EventsBeside(e: Endpoint, f: Endpoint, s: LocalSocket, write: bool, read: bool, hangup: bool,
                      payload: map<nat, nat>)
    returns (ghost evs: seq<Event>)
    requires BothValid(e, f) && s.key in e.all && e.all[s.key] == s && !s.freed
    requires (write ==> s.writeArmed) && (read ==> hangup || s.readArmed)
    modifies e`list, e.box, s
    ensures BothValid(e, f) && f.Model() == old(f.Model())
    ensures e.Model() == With(old(e.Model()), s.key, s.Value())
    ensures Performs(old(s.Value()), s.key, evs, s.Value(), e.box.sent, old(e.box.sent))
  {
    evs := e.OnDescriptor(s, write, read, hangup, payload);
  }

  lemma {:induction false} PerformsSends(s: Sock, id: nat, evs: seq<Event>, s': Sock,
                                         sent': seq<Out>, sent: seq<Out>)
    requires Performs(s, id, evs, s', sent', sent)
    ensures sent <= sent'
    decreases |evs|
  {
    if evs != [] {
      var r := React(s, id, 0, evs[0]);
      PerformsSends(r.sock, id, evs[1..], s', sent', sent + r.outs);
    }
  }

  lemma ChannelGrows(sent: seq<Out>, outs: seq<Out>, n: nat)
    requires n <= |sent|
    ensures Packets((sent + outs)[n..]) == Packets(sent[n..]) + Packets(outs)
  {
    assert (sent + outs)[n..] == sent[n..] + outs;
  }

  lemma ChannelShrinks(sent: seq<Out>, n: nat)
    requires n < |sent|
    ensures Packets(sent[n + 1..]) == Packets(sent[n..])[1..]
  {}

  class Link {
    const x: Endpoint
    const y: Endpoint
    var takenX: nat               // how many of x's packets y has handled
    var takenY: nat
    ghost var run: seq<System>    // the states so far, and what led from each to the next
    ghost var acts: seq<Action>

    function Near(side: bool): Endpoint {
      if side then x else y
    }

    function Taken(side: bool): nat
      reads this`takenX, this`takenY
    {
      if side then takenX else takenY
    }

    /** The packets on their way from the end of that side to the other. */
    ghost function Channel(side: bool): seq<Packet>
      reads this`takenX, this`takenY, Near(side).box
      requires Taken(side) <= |Near(side).box.sent|
    {
      Packets(Near(side).box.sent[Taken(side)..])
    }

    /** The link as a Multiplexer state, seen from one side. */
    ghost function Seen(side: bool): System
      reads this`takenX, this`takenY, x, y, x.box, y.box, x.all.Values, y.all.Values
      requires takenX <= |x.box.sent| && takenY <= |y.box.sent|
    {
      System(Near(side).Model(), Near(!side).Model(), Channel(side), Channel(!side))
    }

    /** All but the run: the two ends are in order. */
    ghost predicate EndsOk()
      reads this`takenX, this`takenY, x, y, x.box, y.box, x.all.Values, y.all.Values
    {
      var ok := BothValid(x, y) && takenX <= |x.box.sent| && takenY <= |y.box.sent|;
      ok
    }

    ghost predicate Valid()
      reads this, x, y, x.box, y.box, x.all.Values, y.all.Values
    {
      EndsOk() && IsRun(run, acts) && run[|acts|] == Seen(true)
    }

    constructor ()
      ensures Valid() && fresh(x) && fresh(y) && fresh(x.box) && fresh(y.box)
    {
      x := new Endpoint();
      y := new Endpoint();
      takenX, takenY := 0, 0;
      run, acts := [Initial], [];
    }

    lemma SeenFrom(side: bool)
      requires takenX <= |x.box.sent| && takenY <= |y.box.sent|
      ensures Seen(true).From(side) == Seen(side)
    {}

    /** The link has just made the step `act`. */
    ghost method Record(side: bool, act: Action)
      requires EndsOk() && IsRun(run, acts) && StepX(run[|acts|].From(side), act, Seen(true).From(side))
      modifies this`run, this`acts
      ensures Valid() && acts == old(acts) + [act] && run == old(run) + [Seen(true)]
    {
      OneStep(run, acts, side, act, Seen(true));
      Adopt(run + [Seen(true)], acts + [act]);
    }

    /** The link has just made the steps that lead from run to run'. */
    ghost method Adopt(run': seq<System>, acts': seq<Action>)
      requires EndsOk() && IsRun(run', acts') && run'[|acts'|] == Seen(true)
      modifies this`run, this`acts
      ensures Valid() && run == run' && acts == acts'
    {
      run, acts := run', acts';
    }

    /** An end opens a stream; false when it has run out of ids. */
    method Connect(side: bool) returns (alive: bool)
      requires Valid()
      modifies this, Near(side), Near(side).box
      ensures alive <==> old(Near(side).nextId) < ID_LIMIT
      ensures alive ==> Valid() && acts == old(acts) + [Action.Connect] && old(run) <= run
    {
      ghost var was := Seen(side);
      SeenFrom(side);
      var s := ConnectBeside(Near(side), Near(!side));
      if s == null {
        return false;
      }
      ChannelGrows(old(Near(side).box.sent), OpenStream(was.x, LINK).1, Taken(side));
      SeenFrom(side);
      Record(side, Action.Connect);
      alive := true;
    }

    /** What the far end sent first and this one has not handled yet. */
    function Next(side: bool): Packet
      reads this`takenX, this`takenY, Near(!side).box
      requires Taken(!side) < |Near(!side).box.sent|
    {
      Near(!side).box.sent[Taken(!side)].packet
    }

    /** An OPEN on the link always names its sender and no one else. */
    lemma NextIsProper(side: bool)
      requires Valid() && Taken(!side) < |Near(!side).box.sent|
      ensures Seen(side).yx != [] && Seen(side).yx[0] == Next(side)
      ensures Next(side).OPEN? ==> Next(side).arg0 != 0 && Next(side).arg1 == 0
    {
      SeenFrom(side);
      RunOk(run, acts, |acts|);
      if Next(side).OPEN? {
        OpenIsPending(Seen(side));
      }
    }

    /** The next packet is handled, but not yet off the channel. */
    method HandleNext(side: bool, service: bool) returns (alive: bool, ghost io: WriteResult)
      requires EndsOk() && Taken(!side) < |Near(!side).box.sent|
      modifies Near(side), Near(side).box, Near(side).all.Values
      ensures alive <==> !Exhausted(old(Near(side).nextId), old(Next(side)), service)
      ensures alive ==>
        var s := old(Seen(side));
        var (m, outs) := HandlePacket(s.x, LINK, old(Next(side)), service, io);
        && EndsOk() && Near(!side).box.sent == old(Near(!side).box.sent)
        && Seen(side) == s.(x := m, xy := s.xy + Packets(outs))
    {
      ghost var x, p := Near(side).Model(), Next(side);
      alive, io := HandleBeside(Near(side), Near(!side), Next(side), service);
      if alive {
        ChannelGrows(old(Near(side).box.sent), HandlePacket(x, LINK, p, service, io).1, Taken(side));
      }
    }

    method CountTaken(side: bool)
      modifies this`takenX, this`takenY
      ensures Taken(side) == old(Taken(side)) + 1 && Taken(!side) == old(Taken(!side))
      ensures x.Model() == old(x.Model()) && y.Model() == old(y.Model())
      ensures BothValid(x, y) == old(BothValid(x, y))
    {
      if side {
        takenX := takenX + 1;
      } else {
        takenY := takenY + 1;
      }
    }

    /** The packet comes off the channel. */
    method Advance(side: bool)
      requires EndsOk() && Taken(!side) < |Near(!side).box.sent|
      modifies this`takenX, this`takenY
      ensures EndsOk() && Seen(side) == old(Seen(side)).(yx := old(Channel(!side))[1..])
    {
      ChannelShrinks(Near(!side).box.sent, Taken(!side));
      CountTaken(!side);
    }

    /** An end handles the next packet; false when that is an OPEN and it has run out of ids. */
    method Receive(side: bool, service: bool) returns (alive: bool)
      requires Valid() && Taken(!side) < |Near(!side).box.sent|
      modifies this, Near(side), Near(side).box, Near(side).all.Values
      ensures alive <==> !(old(Next(side)).OPEN? && service && old(Near(side).nextId) >= ID_LIMIT)
      ensures alive ==> Valid() && |acts| == |old(acts)| + 1 && old(run) <= run
      ensures alive ==> acts[|old(acts)|].Receive? && acts[|old(acts)|].service == service
    {
      SeenFrom(side);
      NextIsProper(side);
      ghost var io;
      alive, io := HandleNext(side, service);
      if alive {
        Advance(side);
        SeenFrom(side);
        Record(side, Action.Receive(service, io));
      }
    }

    /** The events are handled, and what they sent is on the channel. */
    method Perform(side: bool, s: LocalSocket, write: bool, read: bool, hangup: bool, payload: map<nat, nat>)
      returns (ghost evs: seq<Event>)
      requires EndsOk() && s.key in Near(side).all && Near(side).all[s.key] == s && !s.freed
      requires (write ==> s.writeArmed) && (read ==> hangup || s.readArmed)
      modifies Near(side)`list, Near(side).box, s
      ensures EndsOk() && Performs(old(s.Value()), s.key, evs, s.Value(), Near(side).box.sent, old(Near(side).box.sent))
      ensures old(Near(side).box.sent) <= Near(side).box.sent
      ensures var was := old(Seen(side));
              Seen(side) == was.(x := With(was.x, s.key, s.Value()),
                                 xy := was.xy + Packets(Near(side).box.sent[|old(Near(side).box.sent)|..]))
    {
      evs := EventsBeside(Near(side), Near(!side), s, write, read, hangup, payload);
      ghost var sent, sent' := old(Near(side).box.sent), Near(side).box.sent;
      PerformsSends(old(s.Value()), s.key, evs, s.Value(), sent', sent);
      assert sent' == sent + sent'[|sent|..];
      ChannelGrows(sent, sent'[|sent|..], Taken(side));
    }

    /** An end handles what poll reported for one of its sockets. */
    method OnDescriptor(side: bool, s: LocalSocket, write: bool, read: bool, hangup: bool, payload: map<nat, nat>)
      returns (ghost evs: seq<Event>)
      requires Valid() && s.key in Near(side).all && Near(side).all[s.key] == s && !s.freed
      requires (write ==> s.writeArmed) && (read ==> hangup || s.readArmed)
      modifies this`run, this`acts, Near(side)`list, Near(side).box, s
      ensures Valid() && acts == old(acts) + Descriptors(s.key, evs) && old(run) <= run
    {
      SeenFrom(side);
      ghost var was, sock, sent := Seen(true), s.Value(), Near(side).box.sent;
      assert was.From(side).x.socks[s.key] == sock;
      evs := Perform(side, s, write, read, hangup, payload);
      SeenFrom(side);
      ghost var run', acts' := EventsRun(run, acts, side, s.key, evs, sock, s.Value(),
                                         Near(side).box.sent, sent, was, Seen(true));
      Adopt(run', acts');
    }

    /**
     End-to-end delivery, on the sockets themselves: whatever the two programs have done so
     far, what each descriptor of a connection was given is a prefix of what the socket at
     the other end sent, and while the receiving socket is listed, only what it has queued
     and what is on its way is missing.
     */
    lemma StreamsArrive(side: bool, a: nat)
      requires Valid() && a in Near(side).all && Near(side).all[a].opener
      ensures var o, far := Near(side).all[a], Near(!side);
              if a in far.accepted then
                && far.accepted[a] in far.all
                && var c := far.all[far.accepted[a]];
                   && c.output <= o.sent && o.output <= c.sent
                   && (!c.freed && !c.closing ==>
                         o.sent == c.output + Concat(c.queue) + Data(Select(Channel(side), a, c.key)))
                   && (!o.freed && !o.closing ==>
                         c.sent == o.output + Concat(o.queue) + Data(Select(Channel(!side), 0, a)))
              else o.output == [] && o.sent == []
    {
      SeenFrom(side);
      assert Seen(side).x.socks[a] == Near(side).all[a].Value();
      StreamsArePrefixes(run, acts, |acts|, side, a);
      var far := Near(!side);
      if a in far.accepted {
        assert Seen(side).y.socks[far.accepted[a]] == far.all[far.accepted[a]].Value();
      }
    }

    /** A listed socket none of whose packets is on its way has a listed peer that names it. */
    lemma QuietListsAgree(side: bool, s: LocalSocket)
      requires Valid() && s in Near(side).list && Quiet(Seen(side), s.key)
      ensures s.peer.Peer? && s.peer.id in Near(!side).all
      ensures var p := Near(!side).all[s.peer.id]; p in Near(!side).list && p.peer.Peer? && p.peer.id == s.id
    {
      SeenFrom(side);
      assert Near(side).all[s.key] == s && s.Valid();
      assert Seen(side).x.socks[s.key] == s.Value();
      QuietEndsAgree(run, acts, |acts|, side, s.key);
      var p := Near(!side).all[s.Value().peer];
      assert Seen(side).y.socks[p.key] == p.Value() && p.Valid();
    }
  }
}
