/**
 * The smart socket: it gathers a client's packets until they hold a whole
 * request, four hexadecimal digits of length and then that many bytes.
 */
module SmartSocket {
  import opened Bytes
  import opened Hex

  const BAD := 0xffff_ffff

  lemma FourDigits(s: bytes)
    requires |s| == 4 && AllHex(s)
    ensures Number(s) == 0x1000 * HexDigit(s[0]) + 0x100 * HexDigit(s[1]) + 0x10 * HexDigit(s[2]) + HexDigit(s[3])
    ensures Number(s) <= 0xffff
  {
    var a, b := s[..3], s[..2];
    assert a[..2] == b && b[..1] == s[..1] && s[..1][..0] == [];
    assert Number(s[..1]) == HexDigit(s[0]) && Number(b) == 16 * Number(s[..1]) + HexDigit(s[1]);
    assert Number(a) == 16 * Number(b) + HexDigit(s[2]);
  }

  /** One more digit, in 32 bits: the shifted value has its four low bits clear. */
  lemma ShiftIn(number: nat, d: nat)
    requires d < 16
    ensures (number % WORD * 16) % WORD + d == (16 * number + d) % WORD
  {
    var n := number % WORD;
    var high, low := n / 0x1000_0000, n % 0x1000_0000;
    Remainder(16 * n, high, 16 * low);
    Remainder(16 * number + d, 16 * (number / WORD) + high, 16 * low + d);
  }

  lemma Remainder(x: nat, q: nat, r: nat)
    requires x == WORD * q + r && r < WORD
    ensures x % WORD == r
  {}

  /** unhex on 32-bit unsigned arithmetic. */
  method Unhex(s: bytes) returns (n: nat)
    ensures n == if AllHex(s) then Number(s) % WORD else BAD
  {
    n := 0;
    for i := 0 to |s|
      invariant AllHex(s[..i]) && n == Number(s[..i]) % WORD
    {
      var c: nat;
      if 0x30 <= s[i] <= 0x39 {
        c := s[i] - 0x30;
      } else if 0x61 <= s[i] <= 0x66 {
        c := s[i] - 0x61 + 10;
      } else if 0x41 <= s[i] <= 0x46 {
        c := s[i] - 0x41 + 10;
      } else {
        return BAD;
      }
      assert s[..i + 1][..i] == s[..i];
      ShiftIn(Number(s[..i]), c);
      n := (n * 16) % WORD + c;
    }
    assert s[..|s|] == s;
  }

  datatype Verdict = Waiting | Request(body: bytes) | Rejected

  /** What a stretch of the client's bytes amounts to. */
  function Judge(data: bytes): Verdict {
    if |data| < 4 then Waiting
    else if !AllHex(data[..4]) || Number(data[..4]) == 0 then Rejected
    else if |data| < 4 + Number(data[..4]) then Waiting
    else Request(data[4..4 + Number(data[..4])])
  }

  /** r is a whole request with this body and nothing after it. */
  predicate IsRequest(r: bytes, body: bytes) {
    |r| == 4 + |body| && AllHex(r[..4]) && Number(r[..4]) == |body| > 0 && r[4..] == body
  }

  /** A request is understood when all of it is there, and no part of it is acted on before. */
  lemma JudgePrefix(r: bytes, body: bytes, n: nat)
    requires IsRequest(r, body) && n <= |r|
    ensures Judge(r[..n]) == if n < |r| then Waiting else Request(body)
  {
    if n >= 4 {
      assert r[..n][..4] == r[..4];
    }
    if n == |r| {
      assert r[..n] == r;
    }
  }

  /** A bad length is rejected as soon as its fourth byte is there, and not before. */
  lemma RejectedAtFour(r: bytes, n: nat)
    requires |r| >= 4 && (!AllHex(r[..4]) || Number(r[..4]) == 0) && n <= |r|
    ensures Judge(r[..n]) == if n < 4 then Waiting else Rejected
  {
    if n >= 4 {
      assert r[..n][..4] == r[..4];
    }
  }

  class Smart {
    const data: array<byte>         // the first packet's payload area
    var len: nat
    var started: bool               // pkt_first is set

    ghost predicate Valid()
      reads this
    {
      data.Length == MAX_PAYLOAD && len <= MAX_PAYLOAD && (!started ==> len == 0)
    }

    ghost function Gathered(): bytes
      reads this, data
      requires Valid()
    {
      data[..len]
    }

    constructor ()
      ensures Valid() && !started && Gathered() == [] && fresh(data)
    {
      data := new byte[MAX_PAYLOAD];
      len, started := 0, false;
    }

    /** memcpy of a packet's bytes behind those already there. */
    method Append(p: bytes)
      requires Valid() && len + |p| <= MAX_PAYLOAD
      modifies this, data
      ensures Valid() && started && Gathered() == old(Gathered()) + p
    {
      for i := 0 to |p|
        invariant Valid() && len == old(len) && data[..len + i] == old(data[..len]) + p[..i]
      {
        data[len + i] := p[i];
        assert data[..len + i + 1] == data[..len + i] + [p[i]];
      }
      len, started := len + |p|, true;
      assert p[..|p|] == p;
    }

    /** The length the first four bytes spell. */
    method Length() returns (size: nat)
      requires Valid() && len >= 4
      ensures var digits := Gathered()[..4];
        if AllHex(digits) then size == Number(digits) <= 0xffff else size == BAD
    {
      assert data[..4] == Gathered()[..4];
      size := Unhex(data[..4]);
      if AllHex(data[..4]) {
        FourDigits(data[..4]);
      }
    }

    /** Decoding what has been gathered; the terminator goes behind a whole request. */
    method Decode() returns (v: Verdict)
      requires Valid()
      modifies data
      ensures Valid() && v == Judge(old(Gathered())) && (!v.Request? ==> Gathered() == old(Gathered()))
      ensures v.Request? ==> 4 + |v.body| < MAX_PAYLOAD && data[4..4 + |v.body|] == v.body && data[4 + |v.body|] == 0
    {
      if len < 4 {
        return Waiting;
      }
      var size := Length();
      if size < 1 || size > MAX_PAYLOAD {
        return Rejected;
      }
      if size + 4 > len {
        return Waiting;
      }
      ghost var all := Gathered();
      v := Request(data[4..4 + size]);
      assert v.body == all[4..4 + size] by {
        assert forall i :: 0 <= i < len ==> all[i] == data[i];
      }
      data[size + 4] := 0;
      assert data[4..4 + size] == v.body;
    }

    /**
     * smart_socket_enqueue up to the point where the request is known. Any bytes
     * the client sent beyond it lose their first one to the terminator.
     */
    method Enqueue(p: bytes, maxPayload: nat) returns (v: Verdict)
      requires Valid() && |p| <= MAX_PAYLOAD && maxPayload <= MAX_PAYLOAD
      modifies this, data
      ensures Valid()
      ensures old(started) && old(len) + |p| > maxPayload ==> v == Rejected
      ensures !(old(started) && old(len) + |p| > maxPayload) ==>
        && v == Judge(old(Gathered()) + p) && len == old(len) + |p| && started
        && (!v.Request? ==> Gathered() == old(Gathered()) + p)
        && (v.Request? ==> 4 + |v.body| < MAX_PAYLOAD && data[4..4 + |v.body|] == v.body && data[4 + |v.body|] == 0)
    {
      if started && len + |p| > maxPayload {
        return Rejected;
      }
      Append(p);
      v := Decode();
    }

    /** A transport request has been answered: its bytes go, the packet that held them stays. */
    method AwaitNext()
      requires Valid()
      modifies this`len
      ensures Valid() && len == 0
    {
      len := 0;
    }

    /**
     * However a request is cut into packets, whether or not it is the first on the socket, all
     * but the last packet looked at are waited on. The last one is answered with exactly the
     * body if and only if the request fits the payload limit, or came whole in the very first
     * packet; otherwise the request is refused once it has passed the limit.
     */
    method Feed(chunks: seq<bytes>, maxPayload: nat, ghost r: bytes, ghost body: bytes) returns (vs: seq<Verdict>)
      requires Valid() && len == 0 && maxPayload <= MAX_PAYLOAD
      requires IsRequest(r, body) && Concat(chunks) == r && forall i :: 0 <= i < |chunks| ==> chunks[i] != []
      modifies this, data
      ensures Valid() && 0 < |vs| <= |chunks| && forall i :: 0 <= i < |vs| - 1 ==> vs[i] == Waiting
      ensures if |r| <= maxPayload || (|chunks| == 1 && !old(started))
              then |vs| == |chunks| && vs[|vs| - 1] == Request(body)
              else vs[|vs| - 1] == Rejected && |Concat(chunks[..|vs|])| > maxPayload
    {
      vs := [];
      RequestLength(r, body);
      for i := 0 to |chunks|
        invariant Valid() && |vs| == i && (started <==> old(started) || i > 0)
        invariant len == |Concat(chunks[..i])| && (i < |chunks| ==> Gathered() == Concat(chunks[..i]))
        invariant forall j :: 0 <= j < i ==> vs[j] == if j == |chunks| - 1 then Request(body) else Waiting
        invariant len <= maxPayload || (i == 1 && !old(started)) || i == 0
      {
        Cutting(chunks, i, r, body);
        var v := Enqueue(chunks[i], maxPayload);
        vs := vs + [v];
        if v.Rejected? {
          return;
        }
      }
      assert chunks[..|chunks|] == chunks;
    }
  }

  /** A request of 5000 bytes after a transport request, on a transport that takes 4096 a packet. */
  method LongRequestRefused() returns (r: bytes, body: bytes, chunks: seq<bytes>, vs: seq<Verdict>)
    ensures IsRequest(r, body) && Concat(chunks) == r
    ensures |chunks| == 2 && |chunks[0]| == 4096 && |chunks[1]| == 908 && vs == [Waiting, Rejected]
  {
    var s := new Smart();
    var first: bytes := [0x30, 0x30, 0x30, 0x31, 0x74];
    FourDigits(first[..4]);
    ConcatOne(first);
    var v := s.Feed([first], MAX_PAYLOAD, first, first[4..]);
    s.AwaitNext();
    body := seq(5000, _ => 0x78);
    r := [0x31, 0x33, 0x38, 0x38] + body;
    FourDigits(r[..4]);
    chunks := [r[..4096], r[4096..]];
    assert chunks == [r[..4096]] + [r[4096..]] && chunks[..1] == [r[..4096]];
    ConcatAppend([r[..4096]], [r[4096..]]);
    ConcatOne(r[..4096]);
    ConcatOne(r[4096..]);
    vs := s.Feed(chunks, 4096, r, body);
  }

  lemma RequestLength(r: bytes, body: bytes)
    requires IsRequest(r, body)
    ensures 4 < |r| < MAX_PAYLOAD
  {
    FourDigits(r[..4]);
  }

  /** The first i + 1 chunks are a beginning of the request, all of it only for the last i. */
  lemma Cutting(chunks: seq<bytes>, i: nat, r: bytes, body: bytes)
    requires IsRequest(r, body) && Concat(chunks) == r && i < |chunks|
    requires forall j :: 0 <= j < |chunks| ==> chunks[j] != []
    ensures Concat(chunks[..i + 1]) == Concat(chunks[..i]) + chunks[i] && |Concat(chunks[..i + 1])| <= |r|
    ensures Judge(Concat(chunks[..i + 1])) == if i == |chunks| - 1 then Request(body) else Waiting
  {
    var some, rest := chunks[..i + 1], chunks[i + 1..];
    assert some == chunks[..i] + [chunks[i]] && chunks == some + rest;
    ConcatAppend(chunks[..i], [chunks[i]]);
    ConcatOne(chunks[i]);
    ConcatAppend(some, rest);
    var n := |Concat(some)|;
    assert Concat(some) == r[..n];
    if rest != [] {
      assert |Concat(rest)| >= |rest[0]| > 0;
    }
    JudgePrefix(r, body, n);
  }
}
