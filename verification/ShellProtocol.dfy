/**
 * Shell packets: one byte of id, four of length, then the payload. A reader
 * with a small buffer takes a large packet in several reads.
 */
module ShellProtocol {
  import opened Bytes

  const HEADER_SIZE := 5

  datatype Packet = Packet(id: byte, payload: bytes)

  /** The four bytes of a length, least significant first. */
  function Encode32(n: nat): (r: bytes)
    requires n < WORD
    ensures |r| == 4
  {
    [n % 0x100, n / 0x100 % 0x100, n / 0x100 / 0x100 % 0x100, n / 0x100 / 0x100 / 0x100]
  }

  function Decode32(s: bytes): (n: nat)
    requires |s| == 4
    ensures n < WORD
  {
    s[0] as int + 0x100 * (s[1] as int + 0x100 * (s[2] as int + 0x100 * (s[3] as int)))
  }

  lemma Decode32Back(n: nat)
    requires n < WORD
    ensures Decode32(Encode32(n)) == n
  {
    var a := n / 0x100;
    var b := a / 0x100;
    assert n == 0x100 * a + n % 0x100 && a == 0x100 * b + a % 0x100 && b == 0x100 * (b / 0x100) + b % 0x100;
  }

  /** One more low byte. */
  lemma LowByte(low: byte, high: nat)
    ensures (low as int + 0x100 * high) % 0x100 == low && (low as int + 0x100 * high) / 0x100 == high
  {}

  /** What Write puts on the descriptor. */
  function Encode(p: Packet): bytes
    requires |p.payload| < WORD
  {
    [p.id] + Encode32(|p.payload|) + p.payload
  }

  predicate Sendable(ps: seq<Packet>) {
    forall i :: 0 <= i < |ps| ==> |ps[i].payload| < WORD
  }

  function EncodeAll(ps: seq<Packet>): bytes
    requires Sendable(ps)
  {
    if ps == [] then [] else Encode(ps[0]) + EncodeAll(ps[1..])
  }

  /** Writing one packet after others. */
  lemma {:induction false} EncodeAllMore(ps: seq<Packet>, p: Packet)
    requires Sendable(ps) && |p.payload| < WORD
    ensures Sendable(ps + [p]) && EncodeAll(ps + [p]) == EncodeAll(ps) + Encode(p)
  {
    if ps == [] {
      assert ps + [p] == [p] && EncodeAll([p]) == Encode(p) + EncodeAll([]);
    } else {
      EncodeAllMore(ps[1..], p);
      assert (ps + [p])[1..] == ps[1..] + [p] && (ps + [p])[0] == ps[0];
      assert Encode(ps[0]) + (EncodeAll(ps[1..]) + Encode(p)) == Encode(ps[0]) + EncodeAll(ps[1..]) + Encode(p);
    }
  }

  // What a reader of some capacity makes of a packet.

  /** The payload in pieces of at most cap bytes; a packet without payload is one empty piece. */
  function Pieces(payload: bytes, cap: nat): (r: seq<bytes>)
    requires cap > 0
    ensures |r| > 0
  {
    if |payload| <= cap then [payload] else [payload[..cap]] + Pieces(payload[cap..], cap)
  }

  lemma {:induction false} PiecesMean(payload: bytes, cap: nat)
    requires cap > 0
    ensures Concat(Pieces(payload, cap)) == payload
    ensures forall i :: 0 <= i < |Pieces(payload, cap)| ==> |Pieces(payload, cap)[i]| <= cap
    ensures forall i :: 0 <= i < |Pieces(payload, cap)| - 1 ==> |Pieces(payload, cap)[i]| == cap
    ensures (|Pieces(payload, cap)| - 1) * cap <= |payload| <= |Pieces(payload, cap)| * cap
    ensures |Pieces(payload, cap)| > 1 ==> (|Pieces(payload, cap)| - 1) * cap < |payload|
  {
    if |payload| <= cap {
      ConcatOne(payload);
    } else {
      PiecesMean(payload[cap..], cap);
      var rest := Pieces(payload[cap..], cap);
      var all := Pieces(payload, cap);
      assert all == [payload[..cap]] + rest && all[1..] == rest;
      assert payload[..cap] + payload[cap..] == payload;
      assert (|all| - 1) * cap == (|rest| - 1) * cap + cap && |all| * cap == |rest| * cap + cap;
    }
  }

  /** One piece for an empty payload, otherwise the payload's length over the capacity, rounded up. */
  lemma PieceCount(payload: bytes, cap: nat)
    requires cap > 0
    ensures |Pieces(payload, cap)| == if payload == [] then 1 else (|payload| + cap - 1) / cap
  {
    PiecesMean(payload, cap);
    var k := |Pieces(payload, cap)|;
    if payload != [] {
      Quotient(|payload| + cap - 1, cap, k, |payload| - 1 - (k - 1) * cap);
    }
  }

  lemma Quotient(x: int, d: nat, q: int, r: int)
    requires d > 0 && x == q * d + r && 0 <= r < d
    ensures x / d == q
  {
    var p, m := x / d, x % d;
    assert x == p * d + m && 0 <= m < d;
    if p > q {
      Grows(p, q, d);
    } else if p < q {
      Grows(q, p, d);
    }
  }

  lemma Grows(a: int, b: int, d: nat)
    requires a > b
    ensures a * d >= b * d + d
  {
    var n := a - b;
    assert n * d >= d by {
      assert (n - 1) * d >= 0;
      assert n * d == (n - 1) * d + d;
    }
    assert a * d == b * d + n * d;
  }

  function Labelled(id: byte, pieces: seq<bytes>): (r: seq<Packet>)
    ensures |r| == |pieces| && forall i :: 0 <= i < |r| ==> r[i] == Packet(id, pieces[i])
  {
    seq(|pieces|, i requires 0 <= i < |pieces| => Packet(id, pieces[i]))
  }

  /** What successive reads yield. */
  function Reads(ps: seq<Packet>, cap: nat): seq<Packet>
    requires cap > 0
  {
    if ps == [] then [] else Labelled(ps[0].id, Pieces(ps[0].payload, cap)) + Reads(ps[1..], cap)
  }

  /** What is still to come: the rest of a packet being read, then whole packets. */
  function ToCome(id: byte, rest: bytes, ps: seq<Packet>, cap: nat): seq<Packet>
    requires cap > 0
  {
    (if rest == [] then [] else Labelled(id, Pieces(rest, cap))) + Reads(ps, cap)
  }

  /** How many bytes the next read takes, header included. */
  function PieceSize(rest: bytes, ps: seq<Packet>, cap: nat): nat {
    if rest != [] then Min(|rest|, cap)
    else if ps == [] then 0
    else HEADER_SIZE + Min(|ps[0].payload|, cap)
  }

  lemma PieceIsThere(rest: bytes, ps: seq<Packet>, cap: nat)
    requires Sendable(ps)
    ensures PieceSize(rest, ps, cap) <= |rest + EncodeAll(ps)|
  {
    if rest == [] && ps != [] {
      Unpack(ps);
    }
  }

  /** One read of the packet under way. */
  lemma ReadMore(id: byte, rest: bytes, ps: seq<Packet>, cap: nat)
    requires cap > 0 && rest != []
    ensures var n := Min(|rest|, cap);
      ToCome(id, rest, ps, cap) == [Packet(id, rest[..n])] + ToCome(id, rest[n..], ps, cap)
  {
    var n := Min(|rest|, cap);
    var later := if n == |rest| then [] else Labelled(id, Pieces(rest[n..], cap));
    FirstPiece(id, rest, cap);
    Regroup([Packet(id, rest[..n])], later, Reads(ps, cap));
  }

  lemma FirstPiece(id: byte, rest: bytes, cap: nat)
    requires cap > 0
    ensures var n := Min(|rest|, cap);
      Labelled(id, Pieces(rest, cap)) ==
        [Packet(id, rest[..n])] + if n == |rest| then [] else Labelled(id, Pieces(rest[n..], cap))
  {
    if |rest| <= cap {
      assert rest[..|rest|] == rest;
    }
  }

  /** The first read of the next packet. */
  lemma ReadNext(id: byte, ps: seq<Packet>, cap: nat)
    requires cap > 0 && ps != []
    ensures var p := ps[0];
      var n := Min(|p.payload|, cap);
      ToCome(id, [], ps, cap) == [Packet(p.id, p.payload[..n])] + ToCome(p.id, p.payload[n..], ps[1..], cap)
  {
    var p := ps[0];
    var n := Min(|p.payload|, cap);
    var later := if n == |p.payload| then [] else Labelled(p.id, Pieces(p.payload[n..], cap));
    FirstPiece(p.id, p.payload, cap);
    assert [] + Reads(ps, cap) == Reads(ps, cap);
    Regroup([Packet(p.id, p.payload[..n])], later, Reads(ps[1..], cap));
  }

  /** A descriptor: what it will still deliver, and what has been written to it. */
  class Descriptor {
    var input: bytes
    var output: bytes

    constructor (input: bytes)
      ensures this.input == input && output == []
    {
      this.input, output := input, [];
    }

    /** ReadFdExactly into a buffer. */
    method ReadExactly(a: array<byte>, at: nat, n: nat) returns (ok: bool)
      requires at + n <= a.Length
      modifies this`input, a
      ensures ok <==> n <= |old(input)|
      ensures a[..at] == old(a[..at]) && a[at + n..] == old(a[at + n..])
      ensures ok ==> input == old(input)[n..] && a[at..at + n] == old(input)[..n]
    {
      if n > |input| {
        return false;
      }
      for i := 0 to n
        invariant input == old(input) && a[at..at + i] == input[..i]
        invariant a[..at] == old(a[..at]) && a[at + n..] == old(a[at + n..])
      {
        a[at + i] := input[i];
        assert a[at..at + i + 1] == a[at..at + i] + [input[i]];
      }
      input := input[n..];
      return true;
    }

    /** WriteFdExactly: n bytes go out, fewer than all exactly if it fails. */
    method WriteExactly(data: bytes) returns (ok: bool, ghost n: nat)
      modifies this`output
      ensures n <= |data| && output == old(output) + data[..n] && (ok <==> n == |data|)
    {
      n, ok := 0, true;
      var left := data;
      while left != [] && ok
        invariant n <= |data| && left == data[n..] && output == old(output) + data[..n] && (!ok ==> left != [])
        decreases |left|, ok
      {
        var count: nat := *;    // what adb_write took, or 0 when it failed
        if 0 < count <= |left| {
          assert data[..n] + left[..count] == data[..n + count];
          output := output + left[..count];
          left := left[count..];
          n := n + count;
        } else {
          ok := false;
        }
      }
    }
  }

  class Shell {
    const fd: Descriptor
    const buffer: array<byte>
    const end: nat               // buffer_end_
    var dataLength: nat
    var bytesLeft: nat

    ghost predicate Valid()
      reads this
    {
      HEADER_SIZE < end <= buffer.Length && dataLength <= Capacity()
    }

    function Capacity(): int {
      end - HEADER_SIZE
    }

    ghost function Data(): bytes
      reads this, buffer
      requires Valid()
    {
      buffer[HEADER_SIZE..HEADER_SIZE + dataLength]
    }

    constructor (fd: Descriptor, size: nat)
      requires size > HEADER_SIZE
      ensures Valid() && this.fd == fd && end == size && bytesLeft == 0 && fresh(buffer)
    {
      this.fd := fd;
      buffer := new byte[size];
      end, dataLength, bytesLeft := size, 0, 0;
    }

    /** Reading a header, when the last packet is finished. */
    method ReadHeader() returns (ok: bool)
      requires Valid() && bytesLeft == 0
      modifies fd`input, buffer, this`bytesLeft, this`dataLength
      ensures Valid() && (ok <==> |old(fd.input)| >= HEADER_SIZE)
      ensures ok ==>
        buffer[0] == old(fd.input)[0] && bytesLeft == Decode32(old(fd.input)[1..5]) && fd.input == old(fd.input)[5..]
    {
      ok := fd.ReadExactly(buffer, 0, HEADER_SIZE);
      if ok {
        assert buffer[1..5] == buffer[0..5][1..5] && old(fd.input)[1..5] == old(fd.input)[..5][1..5];
        assert buffer[0] == buffer[0..5][0];
        bytesLeft := Decode32(buffer[1..5]);
        dataLength := 0;
      }
    }

    /**
     * Read. The descriptor may end anywhere: `missing` is what would complete it
     * to the rest of the packet under way followed by whole packets, as is
     * possible for all bytes (AnyInput).
     */
    method Read(ghost rest: bytes, ghost ps: seq<Packet>, ghost missing: bytes)
      returns (ok: bool, ghost rest': bytes, ghost ps': seq<Packet>)
      requires Valid() && Sendable(ps) && bytesLeft == |rest| && fd.input + missing == rest + EncodeAll(ps)
      modifies fd`input, buffer, this`bytesLeft, this`dataLength
      ensures Valid() && (ok <==> (rest != [] || ps != []) && PieceSize(rest, ps, Capacity()) <= |old(fd.input)|)
      ensures ok ==>
        && Sendable(ps') && bytesLeft == |rest'| && fd.input + missing == rest' + EncodeAll(ps')
        && ToCome(old(buffer[0]), rest, ps, Capacity())
           == [Packet(buffer[0], Data())] + ToCome(buffer[0], rest', ps', Capacity())
        && |fd.input| < |old(fd.input)|
    {
      rest', ps' := rest, ps;
      if bytesLeft == 0 {
        assert rest + EncodeAll(ps) == EncodeAll(ps);
        if ps != [] {
          Unpack(ps);
        }
        ok := ReadHeader();
        if !ok {
          return;
        }
        rest', ps' := ps[0].payload, ps[1..];
        CutFront(old(fd.input), missing, HEADER_SIZE, EncodeAll(ps));
        ReadNext(old(buffer[0]), ps, Capacity());
      } else {
        ReadMore(buffer[0], rest, ps, Capacity());
      }
      ok, rest' := ReadPiece(rest', ps', missing);
    }

    /** The part of Read behind the header. */
    method ReadPiece(ghost rest: bytes, ghost ps: seq<Packet>, ghost missing: bytes)
      returns (ok: bool, ghost rest': bytes)
      requires Valid() && Sendable(ps) && bytesLeft == |rest| && fd.input + missing == rest + EncodeAll(ps)
      modifies fd`input, buffer, this`bytesLeft, this`dataLength
      ensures Valid() && buffer[0] == old(buffer[0])
      ensures var n := Min(|rest|, Capacity());
        && (ok <==> n <= |old(fd.input)|)
        && (ok ==> rest' == rest[n..] && bytesLeft == |rest'| && Data() == rest[..n]
                   && fd.input == old(fd.input)[n..] && fd.input + missing == rest' + EncodeAll(ps))
    {
      var n := Min(bytesLeft, Capacity());
      rest' := rest;
      if n != 0 {
        ok := fd.ReadExactly(buffer, HEADER_SIZE, n);
        assert buffer[0] == buffer[..HEADER_SIZE][0] && old(buffer[0]) == old(buffer[..HEADER_SIZE])[0];
        if !ok {
          return;
        }
      }
      CutFront(old(fd.input), missing, n, rest + EncodeAll(ps));
      Split(rest, EncodeAll(ps), n);
      bytesLeft := bytesLeft - n;
      dataLength := n;
      ok, rest' := true, rest[n..];
    }

    /** Read until it fails: the packets come back, in pieces that fit, as far as the descriptor goes. */
    method ReadAll(ghost ps: seq<Packet>, ghost missing: bytes) returns (got: seq<Packet>)
      requires Valid() && bytesLeft == 0 && Sendable(ps) && fd.input + missing == EncodeAll(ps)
      modifies fd`input, buffer, this`bytesLeft, this`dataLength
      ensures got <= Reads(ps, Capacity()) && (missing == [] ==> got == Reads(ps, Capacity()))
    {
      got := [];
      ghost var id, rest, left := buffer[0], [], ps;
      assert [] + EncodeAll(ps) == EncodeAll(ps);
      var ok := true;
      while ok
        invariant Valid() && Sendable(left)
        invariant ok ==> bytesLeft == |rest| && fd.input + missing == rest + EncodeAll(left)
        invariant !ok && missing == [] ==> rest == [] && left == []
        invariant ok ==> id == buffer[0]
        invariant got + ToCome(id, rest, left, Capacity()) == Reads(ps, Capacity())
        decreases ok, |fd.input|
      {
        ghost var rest', left';
        ok, rest', left' := Read(rest, left, missing);
        if ok {
          var p := Packet(buffer[0], buffer[HEADER_SIZE..HEADER_SIZE + dataLength]);
          Regroup(got, [p], ToCome(buffer[0], rest', left', Capacity()));
          got := got + [p];
          id, rest, left := buffer[0], rest', left';
        } else {
          PieceIsThere(rest, left, Capacity());
        }
      }
    }

    /** Write of the packet whose payload is in the buffer; a failed one leaves a front part. */
    method Write(id: byte, length: nat) returns (ok: bool, ghost n: nat)
      requires Valid() && length <= Capacity() && length < WORD
      modifies fd`output, buffer
      ensures var encoded := Encode(Packet(id, old(buffer[HEADER_SIZE..HEADER_SIZE + length])));
              n <= |encoded| && fd.output == old(fd.output) + encoded[..n] && (ok <==> n == |encoded|)
    {
      buffer[0] := id;
      var typed := Encode32(length);
      buffer[1], buffer[2], buffer[3], buffer[4] := typed[0], typed[1], typed[2], typed[3];
      assert buffer[..HEADER_SIZE] == [id] + typed;
      assert buffer[..HEADER_SIZE + length] == buffer[..HEADER_SIZE] + buffer[HEADER_SIZE..HEADER_SIZE + length];
      ok, n := fd.WriteExactly(buffer[..HEADER_SIZE + length]);
    }
  }

  lemma Split(a: bytes, b: bytes, n: nat)
    requires n <= |a|
    ensures n <= |a + b| && (a + b)[..n] == a[..n] && (a + b)[n..] == a[n..] + b
  {}

  lemma CutFront(input: bytes, missing: bytes, n: nat, all: bytes)
    requires n <= |input| && input + missing == all
    ensures input[..n] == all[..n] && input[n..] + missing == all[n..]
  {}

  lemma Encode32Back(s: bytes)
    requires |s| == 4
    ensures Encode32(Decode32(s)) == s
  {
    var d := s[3] as int;
    var c := s[2] as int + 0x100 * d;
    var b := s[1] as int + 0x100 * c;
    LowByte(s[2], d);
    LowByte(s[1], c);
    LowByte(s[0], b);
  }

  /** Any bytes at all are a beginning of some packets. */
  lemma {:induction false} AnyPackets(input: bytes) returns (ps: seq<Packet>, missing: bytes)
    ensures Sendable(ps) && input + missing == EncodeAll(ps)
    decreases |input|
  {
    if input == [] {
      return [], [];
    }
    var pad := seq(if |input| < 5 then 5 - |input| else 0, _ => 0);
    var header := (input + pad)[..5];
    var length := Decode32(header[1..5]);
    Encode32Back(header[1..5]);
    assert header == [header[0]] + header[1..5];
    if |input| < 5 + length {
      missing := seq(5 + length - |input|, _ => 0);
      var payload := (input + missing)[5..];
      ps := [Packet(header[0], payload)];
      assert input + missing == header + payload && EncodeAll(ps) == Encode(ps[0]) + EncodeAll([]);
    } else {
      var payload, ps1 := input[5..5 + length], [];
      ps1, missing := AnyPackets(input[5 + length..]);
      ps := [Packet(header[0], payload)] + ps1;
      assert ps[1..] == ps1 && input == header + payload + input[5 + length..];
      Regroup(header + payload, input[5 + length..], missing);
    }
  }

  /** So is what a reader in the middle of a packet of `left` more bytes is given. */
  lemma AnyInput(input: bytes, left: nat) returns (rest: bytes, ps: seq<Packet>, missing: bytes)
    ensures |rest| == left && Sendable(ps) && input + missing == rest + EncodeAll(ps)
  {
    if |input| < left {
      missing := seq(left - |input|, _ => 0);
      rest, ps := input + missing, [];
      assert rest + EncodeAll(ps) == rest;
    } else {
      rest := input[..left];
      ps, missing := AnyPackets(input[left..]);
      assert input == rest + input[left..];
      Regroup(rest, input[left..], missing);
    }
  }

  /** The header of the first packet, and what follows it. */
  lemma Unpack(ps: seq<Packet>)
    requires Sendable(ps) && ps != []
    ensures var s := EncodeAll(ps);
      && |s| >= 5 && s[0] == ps[0].id && Decode32(s[1..5]) == |ps[0].payload|
      && s[5..] == ps[0].payload + EncodeAll(ps[1..])
  {
    var p := ps[0];
    Unpack1(p.id, Encode32(|p.payload|), p.payload, EncodeAll(ps[1..]), EncodeAll(ps));
    Decode32Back(|p.payload|);
  }

  lemma Unpack1(id: byte, length: bytes, payload: bytes, rest: bytes, s: bytes)
    requires |length| == 4 && s == [id] + length + payload + rest
    ensures |s| >= 5 && s[0] == id && s[1..5] == length && s[5..] == payload + rest
  {}
}
