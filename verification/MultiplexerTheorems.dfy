/** What every run of the link guarantees, for every interleaving and every system-call result. */
module MultiplexerTheorems {
  import opened SocketModel
  import opened Connection
  import opened Multiplexer

  lemma ViewsStayOk(s: System, act: Action, s': System, a: nat)
    requires SystemOk(s) && StepX(s, act, s')
    ensures Opener(s'.x, a) ==> ConnOk(View(s', a))
    ensures Opener(s'.y, a) ==> ConnOk(View(s'.Swap(), a))
  {
    if Opener(s.x, a) {
      StepSeenByOpener(s, act, s', a);
      ConnStepOk(View(s, a), OpenerSees(s, act, a), View(s', a));
    } else if Opener(s'.x, a) {
      OnlyConnectOpens(s, act, s', a);
      ConnectStarts(s, s');
    }
    if Opener(s.y, a) {
      StepSeenByAcceptor(s, act, s', a);
      ConnStepOk(View(s.Swap(), a), AcceptorSees(s, act, a), View(s'.Swap(), a));
    }
  }

  lemma OnlyConnectOpens(s: System, act: Action, s': System, a: nat)
    requires SystemOk(s) && StepX(s, act, s')
    requires Opener(s'.x, a) && !Opener(s.x, a)
    ensures act.Connect? && a == s.x.nextId
  {
    if act.Receive? && s.yx[0].OPEN? {
      OpenIsPending(s);
    } else if !act.Connect? {
      var id, ev := OtherStepsAreSocketMoves(s, act, s');
      ReactIdentity(s.x.socks[id], id, LINK, ev);
    }
  }

  lemma StepXOk(s: System, act: Action, s': System)
    requires SystemOk(s) && StepX(s, act, s')
    ensures SystemOk(s')
  {
    StepNames(s, act, s');
    forall a | Opener(s'.x, a) ensures ConnOk(View(s', a)) {
      ViewsStayOk(s, act, s', a);
    }
    forall a | Opener(s'.y, a) ensures ConnOk(View(s'.Swap(), a)) {
      ViewsStayOk(s, act, s', a);
    }
  }

  lemma StepOk(s: System, act: Action, s': System)
    requires SystemOk(s) && Step(s, act, s')
    ensures SystemOk(s')
  {
    if StepX(s, act, s') {
      StepXOk(s, act, s');
    } else {
      StepXOk(s.Swap(), act, s'.Swap());
    }
  }

  /** States of the link, each reached from the one before by the matching action. */
  ghost predicate IsRun(run: seq<System>, acts: seq<Action>) {
    && |run| == |acts| + 1
    && run[0] == Initial
    && forall i :: 0 <= i < |acts| ==> Step(run[i], acts[i], run[i + 1])
  }

  lemma {:induction false} RunOk(run: seq<System>, acts: seq<Action>, n: nat)
    requires IsRun(run, acts) && n <= |acts|
    ensures SystemOk(run[n])
  {
    if n > 0 {
      RunOk(run, acts, n - 1);
      StepOk(run[n - 1], acts[n - 1], run[n]);
    }
  }

  /** Socket a of end x opened a connection for which end y made socket b. */
  predicate Joined(s: System, a: nat, b: nat) {
    a in s.x.socks && b in s.y.socks && a in s.y.accepted && s.y.accepted[a] == b
  }

  /**
   End-to-end streams, for the connections opened by either end.  The bytes written to
   each descriptor of a connection are a prefix of the WRTE payloads the other end sent for
   it; while the receiving socket is listed, what is missing is exactly its queue followed
   by the payloads in flight.  A connection nobody accepted has moved no byte at all.
   */
  lemma StreamsArePrefixes(run: seq<System>, acts: seq<Action>, n: nat, side: bool, a: nat)
    requires IsRun(run, acts) && n <= |acts|
    requires Opener(run[n].From(side).x, a)
    ensures var s := run[n].From(side);
            if a in s.y.accepted then
              var b := s.y.accepted[a];
              && Joined(s, a, b)
              && s.y.socks[b].written <= s.x.socks[a].sent
              && s.x.socks[a].written <= s.y.socks[b].sent
              && (s.y.socks[b].phase.Listed? ==>
                    s.x.socks[a].sent == Held(s.y.socks[b]) + Data(Select(s.xy, a, b)))
              && (s.x.socks[a].phase.Listed? ==>
                    s.y.socks[b].sent == Held(s.x.socks[a]) + Data(Select(s.yx, 0, a)))
            else s.x.socks[a].written == [] && s.x.socks[a].sent == []
  {
    RunOk(run, acts, n);
    assert ConnOk(View(run[n].From(side), a));
  }

  /** Two sockets list each other. */
  predicate Mutual(x: End, a: nat, y: End) {
    && a in x.socks && x.socks[a].phase.Listed?
    && var b := x.socks[a].peer;
       b in y.socks && y.socks[b].phase.Listed? && y.socks[b].peer == a
  }

  lemma QuietPair(p: Sock, i: nat, q: Sock, j: nat)
    requires PairOk(p, i, q, j, [], [])
    ensures p.phase.Listed? <==> q.phase.Listed?
    ensures p.phase.Listed? ==> p.peer == j && q.peer == i
  {}

  /** No packet of the connection that socket id of end x belongs to is in flight. */
  predicate Quiet(s: System, id: nat)
    requires id in s.x.socks
  {
    if s.x.socks[id].opener then
      Select(s.xy, id, AcceptorId(s.y, id)) == [] && Select(s.yx, 0, id) == []
    else
      Select(s.yx, s.x.socks[id].peer, id) == [] && Select(s.xy, 0, s.x.socks[id].peer) == []
  }

  /**
   Teardown converges.  Whenever a connection has no packet in flight, whatever others have,
   either both ends list it or neither does: a socket closed at one end, before or after its
   first OKAY, or never accepted, is listed at neither.
   */
  lemma QuietEndsAgree(run: seq<System>, acts: seq<Action>, n: nat, side: bool, id: nat)
    requires IsRun(run, acts) && n <= |acts|
    requires var s := run[n].From(side); id in s.x.socks && s.x.socks[id].phase.Listed? && Quiet(s, id)
    ensures Mutual(run[n].From(side).x, id, run[n].From(side).y)
  {
    RunOk(run, acts, n);
    var s := run[n].From(side);
    if Opener(s.x, id) {
      var k := View(s, id);
      assert ConnOk(k);
      if k.b != 0 {
        QuietPair(k.o, k.a, k.c, k.b);
      }
    } else {
      var a := s.x.socks[id].peer;
      assert Acceptor(s.x, id) && s.x.accepted[a] == id;
      var k := View(s.Swap(), a);
      assert ConnOk(k);
      QuietPair(k.o, k.a, k.c, k.b);
    }
  }

  lemma StepFrom(s: System, act: Action, s': System, side: bool)
    requires Step(s, act, s')
    ensures Step(s.From(side), act, s'.From(side))
  {}

  /** The i-th step of the run, seen from one side, is one by which the connection overdraws. */
  predicate OverdrawnAt(run: seq<System>, acts: seq<Action>, i: nat, side: bool, a: nat)
    requires i < |acts| < |run|
  {
    var s, s' := run[i].From(side), run[i + 1].From(side);
    Opener(s.x, a) && Overdrawing(View(s, a), Sees(s, acts[i], s', a))
  }

  /** And overspends. */
  predicate OverspentAt(run: seq<System>, acts: seq<Action>, i: nat, side: bool, a: nat)
    requires i < |acts| < |run|
  {
    var s, s' := run[i].From(side), run[i + 1].From(side);
    Opener(s.x, a) && Overspending(View(s, a), Sees(s, acts[i], s', a))
  }

  /** The connection opened as a, if it is there yet, holds one credit per direction. */
  predicate CreditAt(s: System, a: nat) {
    Opener(s.x, a) ==> ConnCredit(View(s, a))
  }

  /** A connection that is new is not accepted yet. */
  lemma NewIsPending(s: System, act: Action, s': System, a: nat)
    requires SystemOk(s) && Step(s, act, s') && Opener(s'.x, a) && !Opener(s.x, a)
    ensures View(s', a).b == 0
  {
    if StepX(s, act, s') {
      OnlyConnectOpens(s, act, s', a);
    }
  }

  lemma StepCredit(run: seq<System>, acts: seq<Action>, i: nat, side: bool, a: nat)
    requires IsRun(run, acts) && i < |acts| && CreditAt(run[i].From(side), a)
    ensures CreditAt(run[i + 1].From(side), a) <==> !OverspentAt(run, acts, i, side, a)
  {
    RunOk(run, acts, i);
    StepFrom(run[i], acts[i], run[i + 1], side);
    var s, s' := run[i].From(side), run[i + 1].From(side);
    if Opener(s.x, a) {
      ConnectionsRunAlone(s, acts[i], s', a);
      ConnStepCredit(View(s, a), Sees(s, acts[i], s', a), View(s', a));
    } else if Opener(s'.x, a) {
      NewIsPending(s, acts[i], s', a);
    }
  }

  lemma {:induction false} CreditUntilOverspent(run: seq<System>, acts: seq<Action>, n: nat, side: bool, a: nat)
    requires IsRun(run, acts) && n <= |acts|
    requires forall i :: 0 <= i < n ==> !OverspentAt(run, acts, i, side, a)
    ensures CreditAt(run[n].From(side), a)
  {
    if n > 0 {
      CreditUntilOverspent(run, acts, n - 1, side, a);
      StepCredit(run, acts, n - 1, side, a);
    }
  }

  /**
   The credit count of a connection holds all through a run if and only if the connection
   itself never overspends, whatever hangups and other connections do.
   */
  lemma CreditKeptIffNeverOverspent(run: seq<System>, acts: seq<Action>, n: nat, side: bool, a: nat)
    requires IsRun(run, acts) && n <= |acts|
    ensures (forall m :: 0 <= m <= n ==> CreditAt(run[m].From(side), a))
       <==> (forall i :: 0 <= i < n ==> !OverspentAt(run, acts, i, side, a))
  {
    if forall i :: 0 <= i < n ==> !OverspentAt(run, acts, i, side, a) {
      forall m | 0 <= m <= n
        ensures CreditAt(run[m].From(side), a)
      {
        CreditUntilOverspent(run, acts, m, side, a);
      }
    }
    if forall m :: 0 <= m <= n ==> CreditAt(run[m].From(side), a) {
      forall i | 0 <= i < n
        ensures !OverspentAt(run, acts, i, side, a)
      {
        StepCredit(run, acts, i, side, a);
      }
    }
  }

  /**
   Each direction of the connection, if it is live, holds exactly one token: READ armed at
   the sender, a WRTE in flight, a packet in the receiver's queue, or an OKAY in flight.
   Live or not, at most one WRTE is outstanding and no queue holds two packets.
   */
  predicate OneCredit(s: System, a: nat) {
    && a in s.y.accepted && Joined(s, a, s.y.accepted[a])
    && var b := s.y.accepted[a];
       var o, c, fwd, bwd := s.x.socks[a], s.y.socks[b], Select(s.xy, a, b), Select(s.yx, 0, a);
       && (o.phase.Listed? && c.phase.Listed? ==> Credits(o, c, fwd, bwd) == 1 == Credits(c, o, bwd, fwd))
       && Count(fwd, KWrte) <= 1 && Count(bwd, KWrte) <= 1
       && |o.queue| <= 1 && |c.queue| <= 1
  }

  /**
   Credit conservation: it is so as long as no hangup makes one of the connection's own
   listed sockets send with READ not armed.
   */
  lemma OneCreditPerDirection(run: seq<System>, acts: seq<Action>, n: nat, side: bool, a: nat)
    requires IsRun(run, acts) && n <= |acts|
    requires forall i :: 0 <= i < n ==> !OverdrawnAt(run, acts, i, side, a)
    requires Opener(run[n].From(side).x, a) && a in run[n].From(side).y.accepted
    ensures OneCredit(run[n].From(side), a)
  {
    RunOk(run, acts, n);
    forall i | 0 <= i < n
      ensures !OverspentAt(run, acts, i, side, a)
    {
      assert !OverdrawnAt(run, acts, i, side, a);
    }
    CreditUntilOverspent(run, acts, n, side, a);
    var s := run[n].From(side);
    assert ConnOk(View(s, a)) && ConnCredit(View(s, a));
  }

  predicate CalmAction(act: Action) {
    act.OnDescriptor? ==> Calm(act.ev)
  }

  lemma CalmNeverOverdraws(run: seq<System>, acts: seq<Action>, i: nat, side: bool, a: nat)
    requires IsRun(run, acts) && i < |acts| && CalmAction(acts[i])
    ensures !OverdrawnAt(run, acts, i, side, a)
  {
    RunOk(run, acts, i);
    StepFrom(run[i], acts[i], run[i + 1], side);
    var s, s' := run[i].From(side), run[i + 1].From(side);
    if Opener(s.x, a) {
      ConnectionsRunAlone(s, acts[i], s', a);
    }
  }

  /** In particular it is so for all connections while there has been no hangup. */
  lemma CalmRunsKeepCredit(run: seq<System>, acts: seq<Action>, n: nat, side: bool, a: nat)
    requires IsRun(run, acts) && n <= |acts| && forall i :: 0 <= i < n ==> CalmAction(acts[i])
    requires Opener(run[n].From(side).x, a) && a in run[n].From(side).y.accepted
    ensures OneCredit(run[n].From(side), a)
  {
    forall i | 0 <= i < n
      ensures !OverdrawnAt(run, acts, i, side, a)
    {
      CalmNeverOverdraws(run, acts, i, side, a);
    }
    OneCreditPerDirection(run, acts, n, side, a);
  }

  lemma OneMore(run: seq<System>, acts: seq<Action>, act: Action, s': System)
    requires IsRun(run, acts) && Step(run[|acts|], act, s')
    ensures IsRun(run + [s'], acts + [act])
  {
    var r, m := run + [s'], acts + [act];
    forall i | 0 <= i < |acts|
      ensures Step(r[i], m[i], r[i + 1])
    {
      assert r[i] == run[i] && r[i + 1] == run[i + 1] && m[i] == acts[i];
    }
  }

  /** One end opens a stream, the other accepts it, and the first sees that. */
  lemma Meeting() returns (run: seq<System>, acts: seq<Action>)
    ensures IsRun(run, acts) && run[|acts|].xy == [] && run[|acts|].yx == []
    ensures var s := run[|acts|];
            Joined(s, 1, 1) && s.x.socks[1].phase.Listed? && s.y.socks[1] == Accepted(1, LINK)
  {
    var io := WriteResult(0, false);
    var s0 := Initial;
    var (e1, o1) := OpenStream(s0.x, LINK);
    var s1 := s0.(x := e1, xy := Packets(o1));
    assert s1.xy == [OPEN(1, 0)];
    var (e2, o2) := HandlePacket(s1.y, LINK, OPEN(1, 0), true, io);
    var s2 := s1.(y := e2, xy := [], yx := Packets(o2));
    assert s2.yx == [OKAY(1, 1)];
    var (e3, o3) := HandlePacket(s2.x, LINK, OKAY(1, 1), true, io);
    var s3 := s2.(x := e3, yx := []);
    run, acts := [s0, s1, s2, s3], [Connect, Receive(true, io), Receive(true, io)];
  }

  const ARMED := OnDescriptor(1, Readable([7], false, false))
  const HANGUP := OnDescriptor(1, Readable([8], false, true))

  /** Two reads in a row, the second only because of a hangup. */
  lemma TwoReads(s: System) returns (s4: System, s5: System)
    requires s.yx == [] && Joined(s, 1, 1) && s.y.socks[1] == Accepted(1, LINK)
    ensures Step(s, ARMED, s4) && Step(s4, HANGUP, s5)
    ensures s5.x == s.x && s5.yx == [WRTE(1, 1, [7]), WRTE(1, 1, [8])]
    ensures Joined(s5, 1, 1) && s5.y.socks[1].phase.Listed?
  {
    var (e4, o4) := HandleEvent(s.y, 1, ARMED.ev);
    s4 := s.(y := e4, yx := Packets(o4));
    assert s4.yx == [WRTE(1, 1, [7])];
    var (e5, o5) := HandleEvent(s4.y, 1, HANGUP.ev);
    s5 := s4.(y := e5, yx := s4.yx + Packets(o5));
  }

  /**
   With a hangup event the credit count can be lost: the accepting end reads and sends
   once with READ armed, and once more because of the hangup, so two WRTE packets are
   outstanding in one direction of a live connection.
   */
  lemma HangupOverdraws() returns (run: seq<System>, acts: seq<Action>)
    ensures IsRun(run, acts) && exists i :: 0 <= i < |acts| && !CalmAction(acts[i])
    ensures var s := run[|acts|];
            Joined(s, 1, 1) && s.x.socks[1].phase.Listed? && s.y.socks[1].phase.Listed?
            && Count(Select(s.yx, 0, 1), KWrte) == 2
  {
    var run3, acts3 := Meeting();
    var s4, s5 := TwoReads(run3[|acts3|]);
    OneMore(run3, acts3, ARMED, s4);
    OneMore(run3 + [s4], acts3 + [ARMED], HANGUP, s5);
    run, acts := run3 + [s4] + [s5], acts3 + [ARMED] + [HANGUP];
    TwoWrites(s5.yx);
    assert !CalmAction(acts[|acts| - 1]);
  }

  lemma TwoWrites(ch: seq<Packet>)
    requires ch == [WRTE(1, 1, [7]), WRTE(1, 1, [8])]
    ensures Count(Select(ch, 0, 1), KWrte) == 2
  {
    SelectAll(ch, 0, 1);
    assert Count(ch[1..], KWrte) == 1 + Count(ch[1..][1..], KWrte);
  }
}
