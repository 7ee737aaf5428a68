/**
 One connection on its own: the two local sockets it joins and the packets in flight
 between them.  The invariants here are the content of the stream protocol; Multiplexer
 shows that every connection of a full link behaves like this machine.
 */
module Connection {
  import opened Bytes
  import opened SocketModel

  /** The transport both ends of the modelled link use. */
  const LINK: nat := 1

  datatype Kind = KOkay | KWrte | KClse | KOpen

  function KindOf(p: Packet): Kind {
    match p
    case OPEN(_, _) => KOpen
    case OKAY(_, _) => KOkay
    case WRTE(_, _, _) => KWrte
    case CLSE(_, _) => KClse
  }

  function Count(ch: seq<Packet>, k: Kind): nat {
    if ch == [] then 0 else (if KindOf(ch[0]) == k then 1 else 0) + Count(ch[1..], k)
  }

  /** The stream bytes in flight on a channel, oldest first. */
  function Data(ch: seq<Packet>): bytes {
    if ch == [] then [] else (if ch[0].WRTE? then ch[0].data else []) + Data(ch[1..])
  }

  function Packets(outs: seq<Out>): seq<Packet> {
    seq(|outs|, i requires 0 <= i < |outs| => outs[i].packet)
  }

  lemma {:induction false} CountAppend(front: seq<Packet>, back: seq<Packet>, k: Kind)
    ensures Count(front + back, k) == Count(front, k) + Count(back, k)
  {
    if front == [] {
      assert front + back == back;
    } else {
      assert (front + back)[1..] == front[1..] + back;
      CountAppend(front[1..], back, k);
    }
  }

  lemma {:induction false} DataAppend(front: seq<Packet>, back: seq<Packet>)
    ensures Data(front + back) == Data(front) + Data(back)
  {
    if front == [] {
      assert front + back == back;
    } else {
      assert (front + back)[1..] == front[1..] + back;
      DataAppend(front[1..], back);
    }
  }

  /** Every packet goes from socket i to socket j. */
  predicate Between(ch: seq<Packet>, i: nat, j: nat) {
    forall k :: 0 <= k < |ch| ==> !ch[k].OPEN? && ch[k].arg0 == i && ch[k].arg1 == j
  }

  /** Bytes flow from snd to rcv over ch without loss while rcv is listed, never reordered. */
  predicate StreamOk(snd: Sock, rcv: Sock, ch: seq<Packet>) {
    && Held(rcv) <= snd.sent
    && (rcv.phase.Listed? ==> snd.sent == Held(rcv) + Data(ch))
  }

  /** What a socket has taken from its connection: written out, then still queued. */
  function Held(s: Sock): bytes {
    s.written + Concat(s.queue)
  }

  /** If p is gone and q is not, something in flight will make q go too. */
  predicate CloseOk(p: Sock, q: Sock, pq: seq<Packet>, qp: seq<Packet>) {
    !p.phase.Listed? && q.phase.Listed? ==> Count(pq, KClse) > 0 || Count(qp, KOkay) > 0
  }

  predicate ShapeOk(p: Sock) {
    && (p.phase.Draining? ==> p.queue != [])
    && (p.phase.Freed? ==> p.queue == [])
    && (!p.phase.Listed? ==> !p.reading)
  }

  /** An opener that has not seen its first OKAY: nothing has moved, and that OKAY is next. */
  predicate Unlinked(p: Sock, qp: seq<Packet>) {
    && p.peer == 0 && p.queue == [] && p.sent == [] && p.written == [] && !p.reading
    && !p.phase.Draining?
    && (p.phase.Listed? ==> qp != [] && qp[0].OKAY?)
  }

  predicate Linked(p: Sock, j: nat, qp: seq<Packet>) {
    (p.peer == j && p.via == LINK) || Unlinked(p, qp)
  }

  /** Sockets p (id i) and q (id j) know each other, and so does all traffic between them. */
  predicate Addressed(p: Sock, i: nat, q: Sock, j: nat, pq: seq<Packet>, qp: seq<Packet>) {
    && i != 0 && j != 0
    && ShapeOk(p) && ShapeOk(q)
    && Between(pq, i, j) && Between(qp, j, i)
    && Linked(p, j, qp) && Linked(q, i, pq)
  }

  predicate Streams(p: Sock, q: Sock, pq: seq<Packet>, qp: seq<Packet>) {
    StreamOk(p, q, pq) && StreamOk(q, p, qp)
  }

  predicate Closes(p: Sock, q: Sock, pq: seq<Packet>, qp: seq<Packet>) {
    CloseOk(p, q, pq, qp) && CloseOk(q, p, qp, pq)
  }

  /** The invariant of an accepted connection; symmetric in its two sockets. */
  predicate PairOk(p: Sock, i: nat, q: Sock, j: nat, pq: seq<Packet>, qp: seq<Packet>) {
    Addressed(p, i, q, j, pq, qp) && Streams(p, q, pq, qp) && Closes(p, q, pq, qp)
  }

  /** Tokens of the direction p to q: permission to read, data on its way, or the answer. */
  function Credits(p: Sock, q: Sock, pq: seq<Packet>, qp: seq<Packet>): nat {
    (if p.reading then 1 else 0) + Count(pq, KWrte) + |q.queue| + Count(qp, KOkay)
  }

  predicate CreditOk(p: Sock, q: Sock, pq: seq<Packet>, qp: seq<Packet>) {
    && Credits(p, q, pq, qp) <= 1
    && (p.phase.Listed? && q.phase.Listed? ==> Credits(p, q, pq, qp) == 1)
  }

  /** qp after socket p handled ev: a delivered packet leaves the channel. */
  function Rest(qp: seq<Packet>, ev: Event): seq<Packet>
    requires ev.Deliver? ==> qp != []
  {
    if ev.Deliver? then qp[1..] else qp
  }

  /** The event is possible for p when qp is the channel towards it. */
  predicate Possible(p: Sock, qp: seq<Packet>, ev: Event) {
    Enabled(p, ev) && (ev.Deliver? ==> qp != [] && ev.packet == qp[0])
  }

  lemma {:induction false} NoData(ch: seq<Packet>)
    requires forall k :: 0 <= k < |ch| ==> !ch[k].WRTE?
    ensures Data(ch) == []
  {
    if ch != [] {
      NoData(ch[1..]);
    }
  }

  lemma ReadableSends(s: Sock, id: nat, data: bytes, eof: bool)
    ensures var r := OnReadable(s, id, data, eof);
            r.sock.sent == s.sent + Data(Packets(r.outs))
  {
    var r := OnReadable(s, id, data, eof);
    var ch := Packets(r.outs);
    if ch != [] && ch[0].WRTE? {
      NoData(ch[1..]);
    } else {
      NoData(ch);
    }
  }

  lemma OthersSendNone(s: Sock, id: nat, t: nat, ev: Event)
    requires Enabled(s, ev) && !ev.Readable?
    ensures var r := React(s, id, t, ev);
            r.sock.sent == s.sent && forall k :: 0 <= k < |r.outs| ==> !r.outs[k].packet.WRTE?
  {}

  /** Sent history grows by exactly the WRTE payloads put on the wire. */
  lemma ReactSends(s: Sock, id: nat, t: nat, ev: Event)
    requires Enabled(s, ev)
    ensures var r := React(s, id, t, ev);
            r.sock.sent == s.sent + Data(Packets(r.outs))
  {
    if ev.Readable? {
      ReadableSends(s, id, ev.data, ev.eof);
    } else {
      OthersSendNone(s, id, t, ev);
      NoData(Packets(React(s, id, t, ev).outs));
    }
  }

  /** The payload this event adds to what the socket holds. */
  function Arriving(s: Sock, ev: Event): bytes {
    if ev.Deliver? && ev.packet.WRTE? && ev.packet.arg0 != 0 && ev.packet.arg1 != 0 && Found(s, ev.packet.arg0)
    then ev.packet.data else []
  }

  lemma SplitAt(done: bytes, all: bytes, n: nat)
    requires n <= |all|
    ensures (done + all[..n]) + all[n..] == done + all
    ensures done + all[..n] <= done + all
  {
    assert all == all[..n] + all[n..];
  }

  lemma EnqueueHolds(s: Sock, id: nat, data: bytes, io: WriteResult)
    requires s.phase.Listed?
    ensures var s' := Enqueue(s, id, data, io).0.sock;
            Held(s') <= Held(s) + data && (s'.phase.Listed? ==> Held(s') == Held(s) + data)
  {
    if s.queue != [] {
      ConcatAppend(s.queue, [data]);
      ConcatOne(data);
    } else {
      var n := Min(io.count, |data|);
      ConcatOne(data[n..]);
      SplitAt(s.written, data, n);
    }
  }

  lemma WritableHolds(s: Sock, id: nat, io: WriteResult)
    ensures var s' := OnWritable(s, id, io).sock;
            Held(s') <= Held(s) && (s'.phase.Listed? ==> Held(s') == Held(s))
  {
    var all := Concat(s.queue);
    var n := Min(io.count, |all|);
    DrainQueueBytes(s.queue, n);
    SplitAt(s.written, all, n);
    var s1 := s.(written := s.written + all[..n], queue := DrainQueue(s.queue, n));
    assert Held(s1) == Held(s);
    var s' := OnWritable(s, id, io).sock;
    assert s' == s1 || Held(s') == s1.written;
  }

  /** No byte is lost while the socket stays listed; what is kept is always a front part. */
  lemma ReactHolds(s: Sock, id: nat, t: nat, ev: Event)
    requires Enabled(s, ev)
    ensures var s' := React(s, id, t, ev).sock;
            && Held(s') <= Held(s) + Arriving(s, ev)
            && (s'.phase.Listed? ==> s.phase.Listed? && Held(s') == Held(s) + Arriving(s, ev))
  {
    match ev
    case Deliver(p, io) =>
      if p.WRTE? && p.arg0 != 0 && p.arg1 != 0 && Found(s, p.arg0) {
        EnqueueHolds(s, p.arg1, p.data, io);
      }
    case Writable(io) => WritableHolds(s, id, io);
    case Readable(_, _, _) =>
  }

  /** Every packet a linked socket sends is addressed to its peer over the link. */
  lemma ReactAddresses(p: Sock, i: nat, j: nat, qp: seq<Packet>, ev: Event)
    requires i != 0 && j != 0
    requires Linked(p, j, qp) && Between(qp, j, i)
    requires Possible(p, qp, ev)
    ensures var r := React(p, i, LINK, ev);
            && Between(Packets(r.outs), i, j)
            && forall k :: 0 <= k < |r.outs| ==> r.outs[k].transport == LINK
  {}

  lemma ReactLinks(p: Sock, i: nat, j: nat, qp: seq<Packet>, ev: Event)
    requires i != 0 && j != 0
    requires Linked(p, j, qp) && Between(qp, j, i) && ShapeOk(p)
    requires Possible(p, qp, ev)
    ensures var r := React(p, i, LINK, ev);
            Linked(r.sock, j, Rest(qp, ev))
  {}

  lemma ReactShape(s: Sock, i: nat, t: nat, ev: Event)
    requires ShapeOk(s) && Enabled(s, ev)
    ensures ShapeOk(React(s, i, t, ev).sock)
  {
    if ev.Writable? {
      DrainQueueBytes(s.queue, Min(ev.io.count, |Concat(s.queue)|));
    }
  }

  lemma {:induction false} Counted(ch: seq<Packet>, n: nat)
    requires n < |ch|
    ensures Count(ch, KindOf(ch[n])) > 0
  {
    if n > 0 {
      Counted(ch[1..], n - 1);
    }
  }

  lemma LeavingTells(s: Sock, i: nat, t: nat, ev: Event)
    requires Enabled(s, ev)
    ensures var r := React(s, i, t, ev);
            && (r.sock.phase.Listed? ==> s.phase.Listed?)
            && (s.phase.Listed? && !r.sock.phase.Listed? && s.peer != 0 ==>
                  r.outs != [] && r.outs[|r.outs| - 1].packet.CLSE?)
  {}

  /** Leaving the list tells the peer, and an OKAY for an unlisted socket is answered by CLSE. */
  lemma ReactCloses(s: Sock, i: nat, t: nat, ev: Event)
    requires Enabled(s, ev)
    ensures var r := React(s, i, t, ev);
            && (r.sock.phase.Listed? ==> s.phase.Listed?)
            && (s.phase.Listed? && !r.sock.phase.Listed? && s.peer != 0 ==> Count(Packets(r.outs), KClse) > 0)
            && (!s.phase.Listed? && ev.Deliver? && ev.packet.OKAY? && ev.packet.arg0 != 0 && ev.packet.arg1 != 0
                ==> Count(Packets(r.outs), KClse) > 0)
  {
    LeavingTells(s, i, t, ev);
    var ch := Packets(React(s, i, t, ev).outs);
    if ch != [] && ch[|ch| - 1].CLSE? {
      Counted(ch, |ch| - 1);
    }
  }

  lemma AddressedStep(p: Sock, i: nat, q: Sock, j: nat, pq: seq<Packet>, qp: seq<Packet>, ev: Event)
    requires Addressed(p, i, q, j, pq, qp)
    requires Possible(p, qp, ev)
    ensures var r := React(p, i, LINK, ev);
            Addressed(r.sock, i, q, j, pq + Packets(r.outs), Rest(qp, ev))
  {
    ReactAddresses(p, i, j, qp, ev);
    ReactLinks(p, i, j, qp, ev);
    ReactShape(p, i, LINK, ev);
    AddressedAlgebra(i, q, j, pq, Packets(React(p, i, LINK, ev).outs), qp, Rest(qp, ev));
  }

  lemma AddressedAlgebra(i: nat, q: Sock, j: nat, pq: seq<Packet>, sent: seq<Packet>, qp: seq<Packet>, qp': seq<Packet>)
    requires Between(pq, i, j) && Between(sent, i, j) && Between(qp, j, i)
    requires qp' == qp || (qp != [] && qp' == qp[1..])
    requires Linked(q, i, pq)
    ensures Between(pq + sent, i, j) && Between(qp', j, i) && Linked(q, i, pq + sent)
  {}

  lemma StreamsStep(p: Sock, i: nat, q: Sock, j: nat, pq: seq<Packet>, qp: seq<Packet>, ev: Event)
    requires Addressed(p, i, q, j, pq, qp)
    requires Possible(p, qp, ev)
    requires Streams(p, q, pq, qp)
    ensures var r := React(p, i, LINK, ev);
            Streams(r.sock, q, pq + Packets(r.outs), Rest(qp, ev))
  {
    var r := React(p, i, LINK, ev);
    ReactSends(p, i, LINK, ev);
    ReactHolds(p, i, LINK, ev);
    StreamsAlgebra(p, r.sock, q, pq, Packets(r.outs), qp, Rest(qp, ev), Arriving(p, ev));
  }

  lemma StreamsAlgebra(p: Sock, p': Sock, q: Sock, pq: seq<Packet>, sent: seq<Packet>,
                       qp: seq<Packet>, qp': seq<Packet>, arriving: bytes)
    requires Streams(p, q, pq, qp)
    requires p'.sent == p.sent + Data(sent)
    requires Held(p') <= Held(p) + arriving
    requires p'.phase.Listed? ==> p.phase.Listed? && Held(p') == Held(p) + arriving
    requires p.phase.Listed? ==> Data(qp) == arriving + Data(qp')
    requires !p.phase.Listed? ==> arriving == []
    ensures Streams(p', q, pq + sent, qp')
  {
    DataAppend(pq, sent);
    Extends(Held(q), p.sent, Data(pq), Data(sent), q.phase.Listed?);
    if p.phase.Listed? {
      TakesNext(Held(p), Held(p'), q.sent, arriving, Data(qp'));
    } else {
      assert Held(p) + arriving == Held(p);
    }
  }

  lemma Extends(held: bytes, sent: bytes, flight: bytes, more: bytes, exact: bool)
    requires held <= sent
    requires exact ==> sent == held + flight
    ensures held <= sent + more
    ensures exact ==> sent + more == held + (flight + more)
  {}

  lemma TakesNext(held: bytes, held': bytes, sent: bytes, arriving: bytes, flight': bytes)
    requires sent == held + (arriving + flight')
    requires held' <= held + arriving
    ensures held' <= sent
    ensures sent == (held + arriving) + flight'
  {
    assert held + (arriving + flight') == (held + arriving) + flight';
  }

  lemma ClosesStep(p: Sock, i: nat, q: Sock, j: nat, pq: seq<Packet>, qp: seq<Packet>, ev: Event)
    requires Addressed(p, i, q, j, pq, qp)
    requires Possible(p, qp, ev)
    requires Closes(p, q, pq, qp)
    ensures var r := React(p, i, LINK, ev);
            Closes(r.sock, q, pq + Packets(r.outs), Rest(qp, ev))
  {
    var r := React(p, i, LINK, ev);
    ReactCloses(p, i, LINK, ev);
    CountAppend(pq, Packets(r.outs), KClse);
    CountAppend(pq, Packets(r.outs), KOkay);
  }

  function One(b: bool): nat {
    if b then 1 else 0
  }

  predicate Calm(ev: Event) {
    ev.Readable? ==> !ev.hangup
  }

  lemma CountOuts(outs: seq<Out>, k: Kind)
    requires |outs| <= 2
    ensures Count(Packets(outs), k)
         == One(|outs| > 0 && KindOf(outs[0].packet) == k) + One(|outs| > 1 && KindOf(outs[1].packet) == k)
  {
    var ch := Packets(outs);
    if |ch| > 0 {
      assert Count(ch, k) == One(KindOf(ch[0]) == k) + Count(ch[1..], k);
      if |ch| > 1 {
        assert Count(ch[1..], k) == One(KindOf(ch[1..][0]) == k) + Count(ch[1..][1..], k);
      }
    }
  }

  /** Permission to send, before and after an event: READ armed or an OKAY, then READ or a WRTE. */
  ghost predicate PassesReads(p: Sock, ev: Event, r: Reaction) {
    var before := One(p.reading) + One(ev.Deliver? && ev.packet.OKAY?);
    var after := One(r.sock.reading) + Count(Packets(r.outs), KWrte);
    after <= before && (r.sock.phase.Listed? ==> after == before)
  }

  /** Duty to answer, before and after an event: a queued or arriving packet, then queue or OKAY. */
  ghost predicate PassesTakes(p: Sock, ev: Event, r: Reaction) {
    var before := |p.queue| + One(ev.Deliver? && ev.packet.WRTE?);
    var after := |r.sock.queue| + Count(Packets(r.outs), KOkay);
    after <= before && (r.sock.phase.Listed? ==> after == before)
  }

  lemma DeliverTokens(p: Sock, i: nat, j: nat, qp: seq<Packet>, ev: Event)
    requires i != 0 && j != 0
    requires Linked(p, j, qp) && Between(qp, j, i) && ShapeOk(p)
    requires Possible(p, qp, ev) && ev.Deliver?
    requires |p.queue| + One(ev.packet.WRTE?) <= 1
    requires One(p.reading) + One(ev.packet.OKAY?) <= 1
    ensures PassesReads(p, ev, React(p, i, LINK, ev)) && PassesTakes(p, ev, React(p, i, LINK, ev))
  {
    var r := React(p, i, LINK, ev);
    CountOuts(r.outs, KWrte);
    CountOuts(r.outs, KOkay);
  }

  lemma WritableTokens(p: Sock, i: nat, io: WriteResult)
    requires ShapeOk(p) && !p.phase.Freed? && |p.queue| == 1
    ensures var ev := Writable(io);
            PassesReads(p, ev, React(p, i, LINK, ev)) && PassesTakes(p, ev, React(p, i, LINK, ev))
  {
    var r := OnWritable(p, i, io);
    DrainQueueBytes(p.queue, Min(io.count, |Concat(p.queue)|));
    CountOuts(r.outs, KWrte);
    CountOuts(r.outs, KOkay);
  }

  lemma ReadableTokens(p: Sock, i: nat, ev: Event)
    requires ShapeOk(p) && p.reading && ev.Readable? && Enabled(p, ev)
    ensures PassesReads(p, ev, React(p, i, LINK, ev)) && PassesTakes(p, ev, React(p, i, LINK, ev))
  {
    var r := React(p, i, LINK, ev);
    CountOuts(r.outs, KWrte);
    CountOuts(r.outs, KOkay);
  }

  /** A socket that holds at most one token per direction passes tokens on one for one. */
  lemma ReactTokens(p: Sock, i: nat, j: nat, qp: seq<Packet>, ev: Event)
    requires i != 0 && j != 0
    requires Linked(p, j, qp) && Between(qp, j, i) && ShapeOk(p)
    requires Possible(p, qp, ev) && Calm(ev)
    requires |p.queue| + One(ev.Deliver? && ev.packet.WRTE?) <= 1
    requires One(p.reading) + One(ev.Deliver? && ev.packet.OKAY?) <= 1
    ensures PassesReads(p, ev, React(p, i, LINK, ev)) && PassesTakes(p, ev, React(p, i, LINK, ev))
  {
    match ev
    case Deliver(_, _) => DeliverTokens(p, i, j, qp, ev);
    case Writable(io) => WritableTokens(p, i, io);
    case Readable(_, _, _) => ReadableTokens(p, i, ev);
  }

  lemma CreditStep(p: Sock, i: nat, q: Sock, j: nat, pq: seq<Packet>, qp: seq<Packet>, ev: Event)
    requires Addressed(p, i, q, j, pq, qp)
    requires Possible(p, qp, ev) && Calm(ev)
    requires CreditOk(p, q, pq, qp) && CreditOk(q, p, qp, pq)
    ensures var r := React(p, i, LINK, ev);
            var pq', qp' := pq + Packets(r.outs), Rest(qp, ev);
            CreditOk(r.sock, q, pq', qp') && CreditOk(q, r.sock, qp', pq')
  {
    var r := React(p, i, LINK, ev);
    ReactTokens(p, i, j, qp, ev);
    ReactCloses(p, i, LINK, ev);
    CountAppend(pq, Packets(r.outs), KWrte);
    CountAppend(pq, Packets(r.outs), KOkay);
  }

  /** A hangup makes a listed socket read and send data although READ is not armed. */
  predicate Overdraws(p: Sock, ev: Event) {
    ev.Readable? && ev.data != [] && !p.reading && p.phase.Listed? && p.peer != 0
  }

  /** It does so while the one credit of its direction is elsewhere. */
  predicate Overspends(p: Sock, q: Sock, pq: seq<Packet>, qp: seq<Packet>, ev: Event) {
    Overdraws(p, ev) && Credits(p, q, pq, qp) == 1
  }

  /** A read with READ not armed adds a token exactly if it sends, and takes none away. */
  lemma UnarmedRead(p: Sock, i: nat, q: Sock, j: nat, pq: seq<Packet>, qp: seq<Packet>, ev: Event)
    requires Addressed(p, i, q, j, pq, qp)
    requires ev.Readable? && Possible(p, qp, ev) && !p.reading
    requires CreditOk(p, q, pq, qp) && CreditOk(q, p, qp, pq)
    ensures var r := React(p, i, LINK, ev);
            var pq' := pq + Packets(r.outs);
            && Credits(r.sock, q, pq', qp) == Credits(p, q, pq, qp) + One(Overdraws(p, ev))
            && CreditOk(q, r.sock, qp, pq')
            && (r.sock.phase.Listed? ==> p.phase.Listed?)
  {
    var r := React(p, i, LINK, ev);
    CountOuts(r.outs, KWrte);
    CountOuts(r.outs, KOkay);
    CountAppend(pq, Packets(r.outs), KWrte);
    CountAppend(pq, Packets(r.outs), KOkay);
  }

  /** An event loses the credit count exactly when it overspends. */
  lemma CreditLostIffOverspent(p: Sock, i: nat, q: Sock, j: nat, pq: seq<Packet>, qp: seq<Packet>, ev: Event)
    requires Addressed(p, i, q, j, pq, qp)
    requires Possible(p, qp, ev)
    requires CreditOk(p, q, pq, qp) && CreditOk(q, p, qp, pq)
    ensures var r := React(p, i, LINK, ev);
            var pq', qp' := pq + Packets(r.outs), Rest(qp, ev);
            CreditOk(r.sock, q, pq', qp') && CreditOk(q, r.sock, qp', pq') <==> !Overspends(p, q, pq, qp, ev)
  {
    if !ev.Readable? {
      CreditStep(p, i, q, j, pq, qp, ev);
    } else if p.reading {
      var calm := ev.(hangup := false);
      assert React(p, i, LINK, calm) == React(p, i, LINK, ev);
      CreditStep(p, i, q, j, pq, qp, calm);
    } else {
      UnarmedRead(p, i, q, j, pq, qp, ev);
    }
  }

  /** On a live connection that is exactly when it overdraws. */
  lemma CreditLostIffOverdrawn(p: Sock, i: nat, q: Sock, j: nat, pq: seq<Packet>, qp: seq<Packet>, ev: Event)
    requires Addressed(p, i, q, j, pq, qp)
    requires Possible(p, qp, ev)
    requires CreditOk(p, q, pq, qp) && CreditOk(q, p, qp, pq)
    requires p.phase.Listed? && q.phase.Listed?
    ensures var r := React(p, i, LINK, ev);
            var pq', qp' := pq + Packets(r.outs), Rest(qp, ev);
            CreditOk(r.sock, q, pq', qp') && CreditOk(q, r.sock, qp', pq') <==> !Overdraws(p, ev)
  {
    CreditLostIffOverspent(p, i, q, j, pq, qp, ev);
  }

  /**
   A connection between the socket `o` that opened it (id a) and the socket `c` accepted
   for it (id b; 0 before that), with the packets in flight for it in each direction.
   */
  datatype Conn = Conn(a: nat, o: Sock, b: nat, c: Sock, fwd: seq<Packet>, bwd: seq<Packet>)

  /** OPEN under way, refusal under way, or refused and forgotten. */
  predicate PendingOk(k: Conn) {
    && k.a != 0
    && k.o.peer == 0 && k.o.queue == [] && k.o.sent == [] && k.o.written == [] && !k.o.reading
    && !k.o.phase.Draining?
    && (|| (k.fwd == [OPEN(k.a, 0)] && k.bwd == [])
        || (k.fwd == [] && k.bwd == [CLSE(0, k.a)])
        || (k.fwd == [] && k.bwd == [] && k.o.phase.Freed?))
  }

  predicate ConnOk(k: Conn) {
    if k.b == 0 then PendingOk(k) else PairOk(k.o, k.a, k.c, k.b, k.fwd, k.bwd)
  }

  predicate ConnCredit(k: Conn) {
    k.b != 0 ==> CreditOk(k.o, k.c, k.fwd, k.bwd) && CreditOk(k.c, k.o, k.bwd, k.fwd)
  }

  predicate OpenerMove(k: Conn, ev: Event, k': Conn) {
    && Possible(k.o, k.bwd, ev)
    && var r := React(k.o, k.a, LINK, ev);
       k' == k.(o := r.sock, fwd := k.fwd + Packets(r.outs), bwd := Rest(k.bwd, ev))
  }

  predicate AcceptorMove(k: Conn, ev: Event, k': Conn) {
    && k.b != 0
    && Possible(k.c, k.fwd, ev)
    && var r := React(k.c, k.b, LINK, ev);
       k' == k.(c := r.sock, bwd := k.bwd + Packets(r.outs), fwd := Rest(k.fwd, ev))
  }

  predicate AcceptMove(k: Conn, b: nat, k': Conn) {
    && k.b == 0 && b != 0
    && k.fwd != [] && k.fwd[0].OPEN?
    && k' == k.(b := b, c := Accepted(k.fwd[0].arg0, LINK),
                fwd := k.fwd[1..], bwd := k.bwd + [OKAY(b, k.fwd[0].arg0)])
  }

  predicate RefuseMove(k: Conn, k': Conn) {
    && k.b == 0
    && k.fwd != [] && k.fwd[0].OPEN?
    && k' == k.(fwd := k.fwd[1..], bwd := k.bwd + [CLSE(0, k.fwd[0].arg0)])
  }

  /** What one step of the link may be for a connection. */
  datatype Move =
    | Still
    | ByOpener(ev: Event)
    | ByAcceptor(ev: Event)
    | Accepting(b: nat)
    | Refusing

  predicate Moves(k: Conn, mv: Move, k': Conn) {
    match mv
    case Still => k' == k
    case ByOpener(ev) => OpenerMove(k, ev, k')
    case ByAcceptor(ev) => AcceptorMove(k, ev, k')
    case Accepting(b) => AcceptMove(k, b, k')
    case Refusing => RefuseMove(k, k')
  }

  lemma PendingMove(k: Conn, ev: Event, k': Conn)
    requires PendingOk(k) && OpenerMove(k, ev, k')
    ensures PendingOk(k')
  {}

  lemma OpenerMoveOk(k: Conn, ev: Event, k': Conn)
    requires ConnOk(k) && OpenerMove(k, ev, k')
    ensures ConnOk(k')
  {
    if k.b == 0 {
      PendingMove(k, ev, k');
    } else {
      AddressedStep(k.o, k.a, k.c, k.b, k.fwd, k.bwd, ev);
      StreamsStep(k.o, k.a, k.c, k.b, k.fwd, k.bwd, ev);
      ClosesStep(k.o, k.a, k.c, k.b, k.fwd, k.bwd, ev);
    }
  }

  lemma AcceptorMoveOk(k: Conn, ev: Event, k': Conn)
    requires ConnOk(k) && AcceptorMove(k, ev, k')
    ensures ConnOk(k')
  {
    AddressedStep(k.c, k.b, k.o, k.a, k.bwd, k.fwd, ev);
    StreamsStep(k.c, k.b, k.o, k.a, k.bwd, k.fwd, ev);
    ClosesStep(k.c, k.b, k.o, k.a, k.bwd, k.fwd, ev);
  }

  lemma AcceptMoveOk(k: Conn, b: nat, k': Conn)
    requires ConnOk(k) && AcceptMove(k, b, k')
    ensures ConnOk(k') && ConnCredit(k')
  {
    assert k'.bwd == [OKAY(b, k.a)];
    assert Count(k'.bwd[1..], KOkay) == 0 && Count(k'.bwd[1..], KWrte) == 0;
    assert Data(k'.bwd[1..]) == [];
  }

  /** Every step of a connection keeps its invariant. */
  lemma ConnStepOk(k: Conn, mv: Move, k': Conn)
    requires ConnOk(k) && Moves(k, mv, k')
    ensures ConnOk(k')
  {
    match mv
    case ByOpener(ev) => OpenerMoveOk(k, ev, k');
    case ByAcceptor(ev) => AcceptorMoveOk(k, ev, k');
    case Accepting(b) => AcceptMoveOk(k, b, k');
    case _ =>
  }

  /** The step is an event by which one of the two sockets overdraws. */
  predicate Overdrawing(k: Conn, mv: Move) {
    match mv
    case ByOpener(ev) => k.b != 0 && Overdraws(k.o, ev)
    case ByAcceptor(ev) => Overdraws(k.c, ev)
    case _ => false
  }

  /** And overspends. */
  predicate Overspending(k: Conn, mv: Move) {
    match mv
    case ByOpener(ev) => k.b != 0 && Overspends(k.o, k.c, k.fwd, k.bwd, ev)
    case ByAcceptor(ev) => Overspends(k.c, k.o, k.bwd, k.fwd, ev)
    case _ => false
  }

  /** Every step keeps the credit count of a connection unless it overspends, and loses it then. */
  lemma ConnStepCredit(k: Conn, mv: Move, k': Conn)
    requires ConnOk(k) && ConnCredit(k) && Moves(k, mv, k')
    ensures ConnCredit(k') <==> !Overspending(k, mv)
  {
    match mv
    case ByOpener(ev) =>
      if k.b != 0 {
        CreditLostIffOverspent(k.o, k.a, k.c, k.b, k.fwd, k.bwd, ev);
      }
    case ByAcceptor(ev) => CreditLostIffOverspent(k.c, k.b, k.o, k.a, k.bwd, k.fwd, ev);
    case Accepting(b) => AcceptMoveOk(k, b, k');
    case _ =>
  }
}
