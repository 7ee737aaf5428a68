/**
 * Writing UTF-8 to a console in pieces: a sequence cut off at the end of one
 * write is held back and put in front of the next.
 */
module Utf8 {
  import opened Bytes

  type octets = seq<bv8>

  /** utf8_codepoint_len: two bits of a constant, picked by the lead byte. */
  function CodepointLen(ch: bv8): nat {
    var shift := (ch >> 3) & 0x1e;
    (((0xe5000000 as bv32) >> shift) & 3) as nat + 1
  }

  lemma CodepointLenTable(ch: bv8)
    ensures CodepointLen(ch) == if ch < 0xc0 then 1 else if ch < 0xe0 then 2 else if ch < 0xf0 then 3 else 4
  {
    var shift := (ch >> 3) & 0x1e;
    var bits := ((0xe5000000 as bv32) >> shift) & 3;
    assert bits == if ch < 0xc0 then 0 else if ch < 0xe0 then 1 else if ch < 0xf0 then 2 else 3;
  }

  // Section 4 of RFC 3629.

  predicate Tail(b: bv8) {
    0x80 <= b <= 0xbf
  }

  /** c is one well-formed character. */
  predicate Char(c: octets) {
    || (|c| == 1 && c[0] <= 0x7f)
    || (|c| == 2 && 0xc2 <= c[0] <= 0xdf && Tail(c[1]))
    || (|c| == 3 && Tail(c[1]) && Tail(c[2])
        && ((c[0] == 0xe0 && 0xa0 <= c[1]) || 0xe1 <= c[0] <= 0xec
            || (c[0] == 0xed && c[1] <= 0x9f) || 0xee <= c[0] <= 0xef))
    || (|c| == 4 && Tail(c[1]) && Tail(c[2]) && Tail(c[3])
        && ((c[0] == 0xf0 && 0x90 <= c[1]) || 0xf1 <= c[0] <= 0xf3 || (c[0] == 0xf4 && c[1] <= 0x8f)))
  }

  /** The length of the character s starts with, 0 if it starts with none. */
  function Leading(s: octets): (k: nat)
    ensures k <= |s| && (k > 0 ==> Char(s[..k]))
  {
    if |s| >= 1 && Char(s[..1]) then 1
    else if |s| >= 2 && Char(s[..2]) then 2
    else if |s| >= 3 && Char(s[..3]) then 3
    else if |s| >= 4 && Char(s[..4]) then 4
    else 0
  }

  /** s is a sequence of well-formed characters. */
  predicate WellFormed(s: octets) {
    s == [] || (Leading(s) > 0 && WellFormed(s[Leading(s)..]))
  }

  /** t is the beginning of a character, but not all of it. */
  ghost predicate CutOff(t: octets) {
    t == [] || exists u :: u != [] && Char(t + u)
  }

  /** A character is as long as its first byte says, and that byte is the only one that is not a tail byte. */
  lemma CharShape(c: octets)
    requires Char(c)
    ensures |c| == CodepointLen(c[0]) && !Tail(c[0]) && (|c| > 1 <==> c[0] >= 0xc0)
    ensures forall i :: 1 <= i < |c| ==> Tail(c[i])
  {
    CodepointLenTable(c[0]);
  }

  lemma LeadingIs(s: octets, k: nat)
    requires k <= |s| && Char(s[..k])
    ensures Leading(s) == k
  {
    CharShape(s[..k]);
    if Leading(s) > 0 {
      CharShape(s[..Leading(s)]);
    }
  }

  lemma Front(a: octets, b: octets, k: nat)
    requires k <= |a|
    ensures (a + b)[..k] == a[..k] && (a + b)[k..] == a[k..] + b
  {}

  lemma Within(s: octets, k: nat, m: nat)
    requires k + m <= |s|
    ensures s[..k + m][..k] == s[..k] && s[..k + m][k..] == s[k..][..m] && s[k + m..] == s[k..][m..]
  {}

  /** Well-formed text can be cut wherever a well-formed part ends. */
  lemma {:induction false} CutAfter(a: octets, b: octets)
    requires WellFormed(a) && WellFormed(a + b)
    ensures WellFormed(b)
    decreases |a|
  {
    if a == [] {
      assert a + b == b;
    } else {
      var k := Leading(a);
      Front(a, b, k);
      LeadingIs(a + b, k);
      CutAfter(a[k..], b);
    }
  }

  lemma {:induction false} JoinWellFormed(a: octets, b: octets)
    requires WellFormed(a) && WellFormed(b)
    ensures WellFormed(a + b)
    decreases |a|
  {
    if a == [] {
      assert a + b == b;
    } else {
      var k := Leading(a);
      JoinWellFormed(a[k..], b);
      Front(a, b, k);
      LeadingIs(a + b, k);
    }
  }

  /** A beginning of well-formed text is whole characters and then a cut-off one. */
  lemma {:induction false} Boundary(s: octets, t: octets) returns (n: nat)
    requires WellFormed(s + t)
    ensures n <= |s| && WellFormed(s[..n]) && CutOff(s[n..])
    decreases |s|
  {
    n := 0;
    if s != [] {
      var k := Leading(s + t);
      if k <= |s| {
        Front(s, t, k);
        var m := Boundary(s[k..], t);
        n := k + m;
        Within(s, k, m);
        LeadingIs(s[..n], k);
      } else {
        var u := (s + t)[|s|..k];
        assert u != [] && s + u == (s + t)[..k] && s[0..] == s;
      }
    }
  }

  /** Where ParseCompleteUTF8 cuts, having found only tail bytes from `after` on. */
  function Cut(s: octets, after: nat): (n: nat)
    requires after <= |s|
    ensures n <= |s|
  {
    if after == 0 then |s|
    else
      var ch := s[after - 1];
      if ch & 0x80 == 0 then |s|
      else if ch & 0xc0 == 0xc0 then
        if |s| - (after - 1) < CodepointLen(ch) then after - 1 else |s|
      else Cut(s, after - 1)
  }

  /** ParseCompleteUTF8: how many bytes to use; the rest are to be held back. */
  method ParseComplete(s: octets) returns (n: nat, held: octets)
    ensures n == Cut(s, |s|) && n <= |s| && s[..n] + held == s && |held| <= 3
  {
    var after := |s|;
    while after != 0
      invariant 0 <= after <= |s| && Cut(s, |s|) == Cut(s, after)
    {
      var ch := s[after - 1];
      if ch & 0x80 == 0 {
        break;
      } else if ch & 0xc0 == 0xc0 {
        var available := |s| - (after - 1);
        if available < CodepointLen(ch) {
          CodepointLenTable(ch);
          return after - 1, s[after - 1..];
        }
        break;
      }
      after := after - 1;
    }
    return |s|, [];
  }

  /** The scan stops at the last byte that is not a tail byte. */
  lemma {:induction false} CutAt(s: octets, p: nat, after: nat)
    requires p < after <= |s| && !Tail(s[p]) && forall i :: p < i < after ==> Tail(s[i])
    ensures Cut(s, after) == if s[p] >= 0xc0 && |s| - p < CodepointLen(s[p]) then p else |s|
    decreases after
  {
    var ch := s[after - 1];
    assert ch & 0x80 == 0 <==> ch < 0x80;
    assert ch & 0xc0 == 0xc0 <==> ch >= 0xc0;
    if p < after - 1 {
      CutAt(s, p, after - 1);
    }
  }

  /** The last character of non-empty well-formed text. */
  lemma {:induction false} LastChar(s: octets) returns (p: nat)
    requires WellFormed(s) && s != []
    ensures p < |s| && Char(s[p..])
    decreases |s|
  {
    var k := Leading(s);
    if k == |s| {
      p := 0;
      assert s[0..] == s[..k];
    } else {
      var q := LastChar(s[k..]);
      p := k + q;
      assert s[k..][q..] == s[p..];
    }
  }

  /** The cut is where the whole characters end. */
  lemma CutIsBoundary(s: octets, n: nat)
    requires n <= |s| && WellFormed(s[..n]) && CutOff(s[n..])
    ensures Cut(s, |s|) == n
  {
    var t := s[n..];
    if t != [] {
      var u :| u != [] && Char(t + u);
      CharShape(t + u);
      assert forall i :: n < i < |s| ==> s[i] == (t + u)[i - n];
      assert s[n] == (t + u)[0];
      CutAt(s, n, |s|);
    } else if s != [] {
      assert s[..n] == s;
      var p := LastChar(s);
      CharShape(s[p..]);
      assert forall i :: p < i < |s| ==> s[i] == s[p..][i - p];
      CutAt(s, p, |s|);
    }
  }

  /** Cutting what follows well-formed text leaves well-formed text and a cut-off character. */
  lemma CutKeepsWhole(before: octets, s: octets, rest: octets)
    requires WellFormed(before) && WellFormed(before + (s + rest))
    ensures var n := Cut(s, |s|);
      n <= |s| && WellFormed(s[..n]) && WellFormed(before + s[..n]) && CutOff(s[n..])
  {
    CutAfter(before, s + rest);
    var m := Boundary(s, rest);
    CutIsBoundary(s, m);
    JoinWellFormed(before, s[..m]);
  }

  // The console.

  function Joined(pieces: seq<octets>): octets {
    if pieces == [] then [] else Joined(pieces[..|pieces| - 1]) + pieces[|pieces| - 1]
  }

  ghost predicate AllWhole(pieces: seq<octets>, buffer: octets) {
    (forall i :: 0 <= i < |pieces| ==> WellFormed(pieces[i])) && WellFormed(Joined(pieces)) && CutOff(buffer)
  }

  lemma JoinedMore(pieces: seq<octets>, piece: octets)
    ensures Joined(pieces + [piece]) == Joined(pieces) + piece
  {
    assert (pieces + [piece])[..|pieces|] == pieces;
  }

  lemma WriteStep(pieces: seq<octets>, buffer: octets, buf: octets, rest: octets)
    ensures var s := buffer + buf;
      var n := Cut(s, |s|);
      && n <= |s| && Joined(pieces + [s[..n]]) + s[n..] == Joined(pieces) + buffer + buf
      && (AllWhole(pieces, buffer) && WellFormed(Joined(pieces) + buffer + buf + rest)
          ==> AllWhole(pieces + [s[..n]], s[n..]))
  {
    var s, before := buffer + buf, Joined(pieces);
    var n := Cut(s, |s|);
    assert s[..n] + s[n..] == s;
    JoinedMore(pieces, s[..n]);
    Regroup(before, s[..n], s[n..]);
    Regroup(before, buffer, buf);
    if AllWhole(pieces, buffer) && WellFormed(before + buffer + buf + rest) {
      Regroup(before, s, rest);
      CutKeepsWhole(before, s, rest);
      OneMoreWhole(pieces, s[..n], s[n..]);
    }
  }

  lemma OneMoreWhole(pieces: seq<octets>, piece: octets, held: octets)
    requires WellFormed(piece) && WellFormed(Joined(pieces) + piece) && CutOff(held)
    requires forall i :: 0 <= i < |pieces| ==> WellFormed(pieces[i])
    ensures AllWhole(pieces + [piece], held)
  {
    JoinedMore(pieces, piece);
  }

  /** The console output buffer, with what has been written to the console and what callers asked to write. */
  class Console {
    var buffer: octets
    var pieces: seq<octets>
    ghost var input: octets

    /** Nothing is lost, repeated or reordered, whatever the bytes are. */
    ghost predicate Valid()
      reads this
    {
      Joined(pieces) + buffer == input && |buffer| <= 3
    }

    /** Every piece is whole characters and only a cut-off character is held back. */
    ghost predicate Whole()
      reads this
    {
      AllWhole(pieces, buffer)
    }

    constructor ()
      ensures Valid() && Whole() && input == []
    {
      buffer, pieces, input := [], [], [];
    }

    /** _console_write_utf8 up to the conversion. `rest` is any text that could follow. */
    method Write(buf: octets, ghost rest: octets)
      requires Valid()
      modifies this
      ensures Valid() && input == old(input) + buf
      ensures |pieces| == old(|pieces|) + 1 && pieces[..old(|pieces|)] == old(pieces)
      ensures old(Whole()) && WellFormed(input + rest) ==> Whole()
    {
      var s := if buffer == [] then buf else buffer + buf;
      assert s == buffer + buf;
      var n, held := ParseComplete(s);
      assert held == s[n..];
      WriteStep(pieces, buffer, buf, rest);
      pieces := pieces + [s[..n]];
      buffer := held;
      input := input + buf;
    }

    /** Any number of writes: however well-formed text is cut up, each piece written is whole characters. */
    method WriteAll(chunks: seq<octets>, ghost rest: octets)
      requires Valid() && input == []
      modifies this
      ensures Valid() && input == Joined(chunks)
      ensures old(Whole()) && WellFormed(Joined(chunks) + rest) ==> Whole()
    {
      for i := 0 to |chunks|
        invariant Valid() && input == Joined(chunks[..i])
        invariant old(Whole()) && WellFormed(Joined(chunks) + rest) ==> Whole()
      {
        assert chunks[..i + 1][..i] == chunks[..i];
        ghost var after := After(chunks, i + 1);
        assert Joined(chunks[..i + 1]) + (after + rest) == Joined(chunks) + rest;
        Write(chunks[i], after + rest);
      }
      assert chunks[..|chunks|] == chunks;
    }
  }

  /** What follows the first i chunks. */
  ghost function After(chunks: seq<octets>, i: nat): (r: octets)
    requires i <= |chunks|
    ensures Joined(chunks[..i]) + r == Joined(chunks)
    decreases |chunks|
  {
    if i == |chunks| then
      assert chunks[..i] == chunks;
      []
    else
      var n := |chunks| - 1;
      assert chunks[..n][..i] == chunks[..i];
      assert Joined(chunks) == Joined(chunks[..n]) + chunks[n];
      After(chunks[..n], i) + chunks[n]
  }
}
