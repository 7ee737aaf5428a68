/** The record adb keeps per socket, and the intrusive rings such records are linked on. */
module SocketRing {
  import opened Bytes
  import opened SocketModel

  class Socket {
    var next: Socket?
    var prev: Socket?
    var id: nat
    var closing: bool
    var hasWriteError: bool
    var peer: Socket?
    var transport: nat
    const remote: bool      // which functions enqueue/ready/shutdown/close point at
    var readArmed: bool     // fde.state & FDE_READ
    var writeArmed: bool    // fde.state & FDE_WRITE
    var forceEof: bool      // fde.force_eof
    var queue: seq<bytes>   // pkt_first .. pkt_last, each from p->ptr on

    constructor (remote: bool, id: nat, transport: nat)
      ensures this.remote == remote && this.id == id && this.transport == transport
      ensures next == null && prev == null && peer == null && queue == []
      ensures !closing && !hasWriteError && !readArmed && !writeArmed && !forceEof
    {
      this.remote, this.id, this.transport := remote, id, transport;
      next, prev, peer, queue := null, null, null, [];
      closing, hasWriteError, readArmed, writeArmed, forceEof := false, false, false, false, false;
    }
  }

  ghost predicate Distinct(c: seq<Socket>) {
    forall i, j :: 0 <= i < j < |c| ==> c[i] != c[j]
  }

  /** c lists a cycle: every element's next is the following one, the last wraps to c[0]. */
  ghost predicate Cycle(c: seq<Socket>)
    reads (set s | s in c)`next, (set s | s in c)`prev
  {
    && c != [] && Distinct(c)
    && c[|c| - 1].next == c[0] && c[0].prev == c[|c| - 1]
    && forall i :: 0 <= i < |c| - 1 ==> c[i].next == c[i + 1] && c[i + 1].prev == c[i]
  }

  ghost function Without(c: seq<Socket>, k: nat): seq<Socket>
    requires k < |c|
  {
    c[..k] + c[k + 1..]
  }

  lemma WithoutMembers(c: seq<Socket>, k: nat)
    requires Distinct(c) && k < |c|
    ensures Distinct(Without(c, k))
    ensures forall t :: t in Without(c, k) <==> t in c && t != c[k]
  {
    var rest := Without(c, k);
    forall t | t in c && t != c[k] ensures t in rest {
      var i :| 0 <= i < |c| && c[i] == t;
      assert t == rest[if i < k then i else i - 1];
    }
  }

  /** The elements of c that are in m, in order. */
  ghost function Keep(c: seq<Socket>, m: set<Socket>): seq<Socket> {
    if c == [] then [] else (if c[0] in m then [c[0]] else []) + Keep(c[1..], m)
  }

  lemma {:induction false} KeepAppend(a: seq<Socket>, b: seq<Socket>, m: set<Socket>)
    ensures Keep(a + b, m) == Keep(a, m) + Keep(b, m)
  {
    if a == [] {
      assert a + b == b;
    } else {
      var first := if a[0] in m then [a[0]] else [];
      KeepAppend(a[1..], b, m);
      assert (a + b)[1..] == a[1..] + b && (a + b)[0] == a[0];
      Regroup(first, Keep(a[1..], m), Keep(b, m));
    }
  }

  lemma {:induction false} KeepNone(c: seq<Socket>, m: set<Socket>)
    requires forall i :: 0 <= i < |c| ==> c[i] !in m
    ensures Keep(c, m) == []
  {
    if c != [] {
      KeepNone(c[1..], m);
    }
  }

  lemma {:induction false} KeepAll(c: seq<Socket>, m: set<Socket>)
    requires forall i :: 0 <= i < |c| ==> c[i] in m
    ensures Keep(c, m) == c
  {
    if c != [] {
      KeepAll(c[1..], m);
    }
  }

  /** Once nothing of m is left, c is what was kept of the original. */
  lemma Settled(c: seq<Socket>, left: set<Socket>, head: Socket, all: set<Socket>, m: set<Socket>)
    requires left <= all && m <= all && all - left <= m && left !! m && head !in m
    requires forall i :: 0 <= i < |c| ==> c[i] == head || c[i] in left
    ensures left == all - m && m == all - left && all - m + {head} == left + {head}
    ensures Keep(c, m) == [] && Keep(c, all - m + {head}) == c
  {
    KeepNone(c, m);
    KeepAll(c, all - m + {head});
  }

  /** What was said about the elements of c, one after the other. */
  ghost function Announce(notes: map<Socket, seq<Out>>, c: seq<Socket>): seq<Out> {
    if c == [] then []
    else
      var s := c[|c| - 1];
      Announce(notes, c[..|c| - 1]) + if s in notes then notes[s] else []
  }

  lemma OneMore(closed: seq<Socket>, s: Socket, rest: seq<Socket>, notes: map<Socket, seq<Out>>, before: seq<Out>)
    requires s in notes
    ensures closed + ([s] + rest) == (closed + [s]) + rest
    ensures before + Announce(notes, closed) + notes[s] == before + Announce(notes, closed + [s])
  {
    assert (closed + [s])[..|closed|] == closed;
  }

  /** Taking out c[k] takes it off the front of the kept elements, or changes nothing. */
  lemma KeepWithout(c: seq<Socket>, k: nat, m: set<Socket>)
    requires k < |c|
    ensures c[k] !in m ==> Keep(Without(c, k), m) == Keep(c, m)
    ensures c[k] in m && (forall i :: 0 <= i < k ==> c[i] !in m) ==> Keep(c, m) == [c[k]] + Keep(Without(c, k), m)
  {
    KeepAppend(c[..k], c[k + 1..], m);
    KeepAppend(c[..k], c[k..], m);
    assert c == c[..k] + c[k..] && c[k..][1..] == c[k + 1..];
    if forall i :: 0 <= i < k ==> c[i] !in m {
      KeepNone(c[..k], m);
    }
  }

  /** The ring through a sentinel; `elems` lists the sentinel first, then the others in order. */
  class Ring {
    const head: Socket
    ghost var elems: seq<Socket>
    ghost var members: set<Socket>

    ghost predicate Valid()
      reads this, head`next, head`prev, members`next, members`prev
    {
      && head !in members
      && (forall s :: s in elems ==> s == head || s in members)
      && (forall s :: s in members ==> s in elems)
      && Cycle(elems) && elems[0] == head
    }

    constructor ()
      ensures Valid() && elems == [head] && members == {} && fresh(head) && !head.remote
    {
      var h := new Socket(false, 0, 0);
      h.next, h.prev := h, h;
      head := h;
      elems, members := [h], {};
    }

    /** insert_local_socket(s, this ring): s becomes the last element. */
    method Insert(s: Socket)
      requires Valid() && s !in members && s != head
      modifies this, s`next, s`prev, head`next, head`prev, members`next, members`prev
      ensures Valid() && elems == old(elems) + [s] && members == old(members) + {s}
    {
      assert head.prev == elems[|elems| - 1];
      s.next := head;
      s.prev := s.next.prev;
      s.prev.next := s;
      s.next.prev := s;
      elems, members := elems + [s], members + {s};
    }

    /** The pointer updates of remove_socket take elems[k] out of the ring. */
    method Unlink(s: Socket, ghost k: nat)
      requires Valid() && 0 < k < |elems| && elems[k] == s && s in members
      modifies s`id, head`next, head`prev, members`next, members`prev
      ensures Cycle(Without(elems, k)) && s.id == 0
    {
      ghost var c, rest := elems, Without(elems, k);
      ghost var before, after := c[k - 1], if k + 1 < |c| then c[k + 1] else c[0];
      assert s.prev == before && s.next == after && before != s && after != s;
      if s.prev != null && s.next != null {
        s.prev.next := s.next;
        s.next.prev := s.prev;
        s.next := null;
        s.prev := null;
        s.id := 0;
      }
      forall i | 0 <= i < |rest| - 1
        ensures rest[i].next == rest[i + 1] && rest[i + 1].prev == rest[i]
      {
        if i < k - 1 {
          assert rest[i] == c[i] && rest[i + 1] == c[i + 1];
        } else if i == k - 1 {
          assert rest[i] == before && rest[i + 1] == after;
        } else {
          assert rest[i] == c[i + 1] && rest[i + 1] == c[i + 2];
        }
      }
    }

    /** remove_socket(s) for an element of this ring. */
    method Remove(s: Socket) returns (ghost k: nat)
      requires Valid() && s in members
      modifies this, s`id, head`next, head`prev, members`next, members`prev
      ensures Valid() && members == old(members) - {s} && s.id == 0
      ensures 0 < k < |old(elems)| && old(elems)[k] == s && elems == Without(old(elems), k)
    {
      k :| 0 <= k < |elems| && elems[k] == s;
      WithoutMembers(elems, k);
      Unlink(s, k);
      elems, members := Without(elems, k), members - {s};
    }
  }

  ghost function PeerSet(s: Socket): set<Socket>
    reads s`peer
  {
    if s.peer == null then {} else {s.peer}
  }

  /** A connected local socket and its remote peer point at each other. */
  ghost predicate Paired(s: Socket)
    reads s`closing, s`peer, s`queue, s`writeArmed, PeerSet(s)`peer
  {
    && !s.remote && !s.closing && (s.queue != [] ==> s.writeArmed)
    && (s.peer != null ==> s.peer.peer == s)
  }

  /** What is true of every socket that waits on the closing list for its queue to drain. */
  ghost predicate Waiting(s: Socket)
    reads s`closing, s`peer, s`queue, s`writeArmed, s`readArmed, s`id
  {
    !s.remote && s.closing && s.peer == null && s.id == 0 && !s.readArmed && s.queue != [] && s.writeArmed
  }

  /** The list when close_all_sockets starts: which sockets it is to close, what each would send. */
  datatype Start = Start(elems: seq<Socket>, members: set<Socket>, marked: set<Socket>,
                         notes: map<Socket, seq<Out>>, wire: seq<Out>)

  /** local_socket_list, local_socket_closing_list and the remote sockets they are paired with. */
  class SocketLists {
    const list: Ring
    const closingList: Ring
    var wire: seq<Out>
    ghost var remotes: set<Socket>

    ghost predicate Apart()
      reads list, closingList
    {
      && list != closingList && list.head != closingList.head && !list.head.remote && !closingList.head.remote
      && list.head !in closingList.members && closingList.head !in list.members
      && list.members !! closingList.members
    }

    ghost predicate RingsOk()
      reads list, closingList, list.head`next, list.head`prev, closingList.head`next, closingList.head`prev
      reads list.members`next, list.members`prev, closingList.members`next, closingList.members`prev
    {
      var ok := Apart() && list.Valid() && closingList.Valid();
      ok
    }

    ghost predicate PeersOk()
      reads this`remotes, list, closingList, list.members, closingList.members, remotes
    {
      && (forall s :: s in list.members && s.peer != null ==> s.peer in remotes)
      && (forall s :: s in list.members ==> Paired(s))
      && (forall s :: s in closingList.members ==> Waiting(s))
      && (forall r :: r in remotes ==> r.remote && r.peer != null && r.peer in list.members && r.peer.peer == r)
    }

    ghost predicate Valid()
      reads this, list, closingList, list.head, closingList.head, list.members, closingList.members, remotes
    {
      RingsOk() && PeersOk()
    }

    constructor ()
      ensures Valid() && wire == [] && list.members == {} && closingList.members == {} && remotes == {}
    {
      list := new Ring();
      closingList := new Ring();
      wire, remotes := [], {};
    }

    lemma OnlyPeer(s: Socket, r: Socket)
      requires PeersOk() && s in list.members && s.peer == r
      ensures r in remotes && r !in list.members && r !in closingList.members && s !in remotes
      ensures forall x :: x in list.members && x != s ==> x.peer != r
      ensures forall x :: x in remotes && x != r ==> x.peer != s
    {
      assert Paired(s) && r.remote && forall x :: x in list.members ==> Paired(x);
    }

    /** s and its remote socket let go of each other; the remote one is deleted. */
    method Part(s: Socket, r: Socket)
      requires Valid() && s in list.members && s.peer == r
      modifies this`remotes, s`peer, r`peer
      ensures Valid() && s.peer == null && remotes == old(remotes) - {r}
    {
      OnlyPeer(s, r);
      r.peer := null;
      s.peer := null;
      remotes := remotes - {r};
    }

    /** The peer part of local_socket_close. */
    method DropPeer(s: Socket)
      requires Valid() && s in list.members && s.peer != null
      modifies this`wire, this`remotes, s`peer, s.peer`peer
      ensures Valid() && s.peer == null && remotes == old(remotes) - {old(s.peer)}
      ensures wire == old(wire) + [Out(old(s.peer.transport), CLSE(s.id, old(s.peer.id)))]
    {
      var r := s.peer;
      wire := wire + [Out(r.transport, CLSE(if r.peer != null then r.peer.id else 0, r.id))];
      Part(s, r);
    }

    ghost function Links(): set<Socket>
      reads this, list, closingList
    {
      list.members + closingList.members + {list.head, closingList.head}
    }

    /** remove_socket on a listed socket whose peer is gone. */
    method Unlist(s: Socket) returns (ghost k: nat)
      requires Valid() && s in list.members && s.peer == null
      modifies list, s`id, Links()`next, Links()`prev
      ensures Valid() && list.members == old(list.members) - {s} && s.id == 0
      ensures 0 < k < |old(list.elems)| && old(list.elems)[k] == s && list.elems == Without(old(list.elems), k)
    {
      k := list.Remove(s);
    }

    /** insert_local_socket(s, &local_socket_closing_list) */
    method InsertClosing(s: Socket)
      requires Valid() && s !in Links() && s !in remotes && Waiting(s)
      modifies closingList, s`next, s`prev, Links()`next, Links()`prev
      ensures Valid() && closingList.members == old(closingList.members) + {s}
    {
      closingList.Insert(s);
    }

    /** The end of local_socket_close: s waits on the closing list for its queue to drain. */
    method Park(s: Socket)
      requires Valid() && s !in Links() && !s.remote
      requires s.peer == null && s.id == 0 && s.queue != [] && s.writeArmed
      modifies closingList, s`closing, s`readArmed, s`next, s`prev, Links()`next, Links()`prev
      ensures Valid() && closingList.members == old(closingList.members) + {s}
    {
      s.closing := true;
      s.readArmed := false;
      assert Valid();
      InsertClosing(s);
    }

    /** install_local_socket: a new socket becomes the last one listed, under the given id. */
    method InstallLocal(s: Socket, id: nat)
      requires Valid() && s !in Links() && s !in remotes && !s.remote && !s.closing && s.peer == null && s.queue == []
      modifies list, s`id, s`next, s`prev, Links()`next, Links()`prev
      ensures Valid() && list.elems == old(list.elems) + [s] && list.members == old(list.members) + {s} && s.id == id
    {
      s.id := id;
      list.Insert(s);
      forall x | x in list.members
        ensures Paired(x) && (x.peer != null ==> x.peer in remotes)
      {
        assert x != s ==> old(Paired(x));
      }
    }

    /** A listed socket and a remote one, neither with a peer, become each other's. */
    method Pair(s: Socket, r: Socket)
      requires Valid() && s in list.members && s.peer == null && r.remote && r !in remotes
      modifies this`remotes, s`peer, r`peer
      ensures Valid() && s.peer == r && r.peer == s && remotes == old(remotes) + {r}
    {
      assert !s.remote by { assert Paired(s); }
      assert r !in list.members by { assert forall x :: x in list.members ==> Paired(x); }
      s.peer := r;
      r.peer := s;
      remotes := remotes + {r};
    }

    /** create_remote_socket for a listed socket without a peer, and the two peer links. */
    method Connect(s: Socket, id: nat, transport: nat) returns (r: Socket)
      requires Valid() && s in list.members && s.peer == null
      modifies this`remotes, s`peer
      ensures Valid() && fresh(r) && r.id == id && r.transport == transport
      ensures s.peer == r && r.peer == s && remotes == old(remotes) + {r}
    {
      r := new Socket(true, id, transport);
      Pair(s, r);
    }

    /**
     * The second close of a socket on the closing list: its queue has been written
     * out or is given up, and the socket is destroyed.
     */
    method Destroy(s: Socket) returns (ghost k: nat)
      requires Valid() && s in closingList.members
      modifies closingList, s`queue, s`id, Links()`next, Links()`prev
      ensures Valid() && closingList.members == old(closingList.members) - {s} && s.queue == []
      ensures 0 < k < |old(closingList.elems)| && old(closingList.elems)[k] == s
      ensures closingList.elems == Without(old(closingList.elems), k)
    {
      s.queue := [];
      k := closingList.Remove(s);
    }

    /** local_socket_close, for the first time or again on the closing list. */
    method LocalSocketClose(s: Socket)
      requires Valid() && (s in list.members || s in closingList.members)
      modifies this`wire, this`remotes, list, closingList, s, PeerSet(s)`peer, Links()`next, Links()`prev
      ensures Valid() && list.members == old(list.members) - {s}
      ensures closingList.members ==
              if old(s in list.members && !s.hasWriteError && s.queue != []) then old(closingList.members) + {s}
              else old(closingList.members) - {s}
      ensures wire == old(wire) + old(Notice(s))
      ensures remotes == old(remotes) - old(PeerSet(s))
    {
      if s.closing {
        ghost var k := Destroy(s);
      } else {
        ghost var k := CloseListed(s);
      }
    }

    /** The first close: tell the peer, then destroy the socket or park it until drained. */
    method CloseListed(s: Socket) returns (ghost k: nat)
      requires Valid() && s in list.members
      modifies this`wire, this`remotes, list, closingList, s, PeerSet(s)`peer, Links()`next, Links()`prev
      ensures Valid() && list.members == old(list.members) - {s}
      ensures 0 < k < |old(list.elems)| && old(list.elems)[k] == s && list.elems == Without(old(list.elems), k)
      ensures closingList.members ==
              if old(s.hasWriteError || s.queue == []) then old(closingList.members) else old(closingList.members) + {s}
      ensures wire == old(wire) + old(Notice(s))
      ensures remotes == old(remotes) - old(PeerSet(s))
    {
      k := Detach(s);
      ParkIfQueued(s);
    }

    /** The socket loses its peer and leaves the list. */
    method Detach(s: Socket) returns (ghost k: nat)
      requires Valid() && s in list.members
      modifies this`wire, this`remotes, list, s`peer, s`id, PeerSet(s)`peer, Links()`next, Links()`prev
      ensures Valid() && list.members == old(list.members) - {s} && s.peer == null && s.id == 0
      ensures 0 < k < |old(list.elems)| && old(list.elems)[k] == s && list.elems == Without(old(list.elems), k)
      ensures wire == old(wire) + old(Notice(s)) && remotes == old(remotes) - old(PeerSet(s))
      ensures s !in remotes && !s.remote && (s.queue != [] ==> s.writeArmed)
    {
      assert Paired(s);
      Disconnect(s);
      k := Unlist(s);
    }

    method Disconnect(s: Socket)
      requires Valid() && s in list.members
      modifies this`wire, this`remotes, s`peer, PeerSet(s)`peer
      ensures Valid() && s.peer == null && remotes == old(remotes) - old(PeerSet(s))
      ensures wire == old(wire) + old(Notice(s))
    {
      if s.peer != null {
        DropPeer(s);
      }
    }

    method ParkIfQueued(s: Socket)
      requires Valid() && s !in Links() && s !in remotes && !s.remote
      requires s.peer == null && s.id == 0 && (s.queue != [] ==> s.writeArmed)
      modifies closingList, s`closing, s`readArmed, s`next, s`prev, Links()`next, Links()`prev
      ensures Valid() && closingList.members ==
              if s.hasWriteError || s.queue == [] then old(closingList.members) else old(closingList.members) + {s}
    {
      if !s.hasWriteError && s.queue != [] {
        Park(s);
      }
    }

    /** The CLSE that closing s sends to the other side, if there is one. */
    ghost function Notice(s: Socket): seq<Out>
      reads s, PeerSet(s)
    {
      if s.peer == null then [] else [Out(s.peer.transport, CLSE(s.id, s.peer.id))]
    }

    /** The test close_all_sockets makes on each element. */
    predicate UsesTransport(s: Socket, t: nat)
      reads s`transport, s`peer, PeerSet(s)`transport
    {
      s.transport == t || (s.peer != null && s.peer.transport == t)
    }

    /** The scan of close_all_sockets: the first listed socket on t, if any. */
    method FirstOn(t: nat) returns (s: Socket?, ghost p: nat)
      requires Valid()
      ensures s == null ==> forall x :: x in list.members ==> !UsesTransport(x, t)
      ensures s != null ==>
        && s in list.members && UsesTransport(s, t) && 0 < p < |list.elems| && list.elems[p] == s
        && forall i :: 0 < i < p ==> !UsesTransport(list.elems[i], t)
    {
      s, p := list.head.next, 1;
      while s != list.head
        invariant 1 <= p <= |list.elems| && s == if p < |list.elems| then list.elems[p] else list.head
        invariant forall j :: 0 < j < p ==> !UsesTransport(list.elems[j], t)
        decreases |list.elems| - p
      {
        assert s in list.members;
        if UsesTransport(s, t) {
          return;
        }
        s := s.next;
        p := p + 1;
      }
      s := null;
    }

    /** The listed sockets among m are exactly those on t. */
    ghost predicate Marks(m: set<Socket>, t: nat)
      reads this, list, list.members, remotes
      requires forall s :: s in list.members && s.peer != null ==> s.peer in remotes
    {
      list.head !in m && forall s :: s in list.members ==> (s in m <==> UsesTransport(s, t))
    }

    /** A close leaves the other listed sockets as they are. */
    method CloseAmong(s: Socket, t: nat, ghost m: set<Socket>) returns (ghost k: nat)
      requires Valid() && Marks(m, t) && s in m && s in list.members
      modifies this`wire, this`remotes, list, closingList, s, PeerSet(s)`peer, Links()`next, Links()`prev
      ensures Valid() && Marks(m, t) && list.members == old(list.members) - {s}
      ensures Links() <= old(Links()) && remotes <= old(remotes)
      ensures 0 < k < |old(list.elems)| && old(list.elems)[k] == s && list.elems == Without(old(list.elems), k)
      ensures wire == old(wire) + old(Notice(s))
      ensures forall x :: x in list.members ==> x.peer == old(x.peer) && Notice(x) == old(Notice(x))
    {
      k := CloseListed(s);
      forall x | x in list.members
        ensures UsesTransport(x, t) == old(UsesTransport(x, t)) && x.peer == old(x.peer)
      {
        assert old(Paired(x)) && x != s && x !in old(PeerSet(s)) && s !in old(PeerSet(x));
      }
    }

    /** One close of close_all_sockets: s is the first listed socket on t. */
    method CloseFirst(s: Socket, t: nat, ghost p: nat, ghost m: set<Socket>, ghost n: set<Socket>)
      requires Valid() && Marks(m, t) && s in m && s !in n
      requires 0 < p < |list.elems| && list.elems[p] == s && forall i :: 0 <= i < p ==> list.elems[i] !in m
      modifies this`wire, this`remotes, list, closingList, s, PeerSet(s)`peer, Links()`next, Links()`prev
      ensures Valid() && Marks(m, t) && list.members == old(list.members) - {s}
      ensures Links() <= old(Links()) && remotes <= old(remotes)
      ensures Keep(old(list.elems), m) == [s] + Keep(list.elems, m)
      ensures Keep(old(list.elems), n) == Keep(list.elems, n)
      ensures wire == old(wire) + old(Notice(s))
      ensures forall x :: x in list.members ==> x.peer == old(x.peer) && Notice(x) == old(Notice(x))
    {
      assert s in list.members;
      ghost var k := CloseAmong(s, t, m);
      KeepWithout(old(list.elems), k, m);
      KeepWithout(old(list.elems), k, n);
    }

    /** What closing each listed socket would send. */
    ghost predicate Noted(notes: map<Socket, seq<Out>>)
      reads this, list, list.members, remotes
      requires forall s :: s in list.members && s.peer != null ==> s.peer in remotes
    {
      forall s :: s in list.members ==> s in notes && Notice(s) == notes[s]
    }

    /** What holds after each round of close_all_sockets(t), compared with its start. */
    ghost predicate Progress(t: nat, start: Start, closed: seq<Socket>)
      reads this, list, closingList, list.head, closingList.head, list.members, closingList.members, remotes
    {
      var Start(elems, members, m, notes, before) := start;
      var ok :=
        && Valid() && Marks(m, t) && Noted(notes)
        && list.members <= members && members - list.members <= m
        && closed + Keep(list.elems, m) == Keep(elems, m)
        && Keep(list.elems, members - m + {list.head}) == Keep(elems, members - m + {list.head})
        && wire == before + Announce(notes, closed);
      ok
    }

    /** Closing the socket the scan has found. */
    method CloseFound(s: Socket, t: nat, ghost p: nat, ghost start: Start, ghost closed: seq<Socket>)
      returns (ghost closed': seq<Socket>)
      requires Progress(t, start, closed) && 0 < p < |list.elems| && list.elems[p] == s && s in list.members
      requires UsesTransport(s, t) && forall i :: 0 < i < p ==> !UsesTransport(list.elems[i], t)
      modifies this`wire, this`remotes, list, closingList, Links(), remotes
      ensures Progress(t, start, closed')
      ensures Links() <= old(Links()) && remotes <= old(remotes)
      ensures list.members == old(list.members) - {s}
      ensures forall x :: x in list.members ==> x.peer == old(x.peer)
    {
      ghost var m := start.marked;
      assert forall i :: 0 <= i < p ==> list.elems[i] !in m;
      CloseFirst(s, t, p, m, start.members - m + {list.head});
      closed' := closed + [s];
      OneMore(closed, s, Keep(list.elems, m), start.notes, start.wire);
    }

    /** One round of close_all_sockets: scan from the start, close what is found. */
    method Round(t: nat, ghost start: Start, ghost closed: seq<Socket>) returns (more: bool, ghost closed': seq<Socket>)
      requires Progress(t, start, closed)
      modifies this`wire, this`remotes, list, closingList, Links(), remotes
      ensures Progress(t, start, closed')
      ensures Links() <= old(Links()) && remotes <= old(remotes)
      ensures if more then |list.members| < |old(list.members)|
              else list.members == old(list.members) && list.members !! start.marked
      ensures forall x :: x in list.members ==> x in old(list.members) && x.peer == old(x.peer)
    {
      var s;
      ghost var p;
      s, p := FirstOn(t);
      if s == null {
        return false, closed;
      }
      more := true;
      closed' := CloseFound(s, t, p, start, closed);
    }

    /** The restart loop of close_all_sockets. */
    method CloseMarked(t: nat, ghost start: Start) returns (ghost closed: seq<Socket>)
      requires Progress(t, start, [])
      modifies this`wire, this`remotes, list, closingList, Links(), remotes
      ensures Progress(t, start, closed)
      ensures list.members !! start.marked
      ensures forall x :: x in list.members ==> x in old(list.members) && x.peer == old(x.peer)
    {
      closed := [];
      var more := true;
      while more
        invariant Progress(t, start, closed)
        invariant Links() <= old(Links()) && remotes <= old(remotes)
        invariant forall x :: x in list.members ==> x in old(list.members) && x.peer == old(x.peer)
        invariant !more ==> list.members !! start.marked
        decreases |list.members|, more
      {
        more, closed := Round(t, start, closed);
      }
    }

    /** What close_all_sockets(t) is going to do. */
    ghost function Plan(t: nat): (start: Start)
      reads this, list, list.members, remotes
      requires forall s :: s in list.members && s.peer != null ==> s.peer in remotes
      ensures start.elems == list.elems && start.members == list.members && start.wire == wire
      ensures start.marked == (set x | x in list.members && UsesTransport(x, t))
      ensures start.members - start.marked == (set x | x in list.members && !UsesTransport(x, t))
      ensures start.notes == (map x | x in list.members :: Notice(x))
    {
      Start(list.elems, list.members, set x | x in list.members && UsesTransport(x, t),
            map x | x in list.members :: Notice(x), wire)
    }

    lemma PlanStarts(t: nat)
      requires Valid()
      ensures Progress(t, Plan(t), [])
    {}

    /**
     * close_all_sockets: afterwards no listed socket is on t, every other listed
     * socket is still listed in the same order with the same peer, and the closed
     * ones were closed in list order, each telling its peer.
     */
    method CloseAllSockets(t: nat) returns (ghost closed: seq<Socket>)
      requires Valid()
      modifies this`wire, this`remotes, list, closingList, Links(), remotes
      ensures Valid()
      ensures list.members == old(set x | x in list.members && !UsesTransport(x, t))
      ensures list.elems == Keep(old(list.elems), list.members + {list.head})
      ensures closed == Keep(old(list.elems), old(list.members) - list.members)
      ensures wire == old(wire) + Announce(old(map x | x in list.members :: Notice(x)), closed)
      ensures forall s :: s in list.members ==> !UsesTransport(s, t) && s.peer == old(s.peer)
    {
      ghost var start := Plan(t);
      PlanStarts(t);
      closed := CloseMarked(t, start);
      Settled(list.elems, list.members, list.head, start.members, start.marked);
    }
  }
}
