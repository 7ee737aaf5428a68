/**
 * The cpio "newc" archive writer, and a reader of that format to judge it by.
 */
module Cpio {
  import opened Bytes
  import opened Hex

  /** One archive member; the name is what precedes its NUL. */
  datatype Entry = Entry(name: bytes, mode: nat, data: bytes)

  const HEADER_SIZE := 110                                               // 6 + 8 * 13
  const MAGIC: bytes := [0x30, 0x37, 0x30, 0x37, 0x30, 0x31]             // "070701"
  const TRAILER: bytes := [0x54, 0x52, 0x41, 0x49, 0x4c, 0x45, 0x52, 0x21, 0x21, 0x21]
  const FIRST_INODE := 300000

  // The writer's output.

  function Zeros(n: nat): (r: bytes)
    ensures |r| == n
  {
    seq(n, _ => 0)
  }

  /** How far n is from the next multiple of k. */
  function Gap(n: nat, k: nat): (g: nat)
    requires k == 4 || k == 256
    ensures g < k && (n + g) % k == 0
  {
    if n % k == 0 then 0 else k - n % k
  }

  /** No multiple of k comes before the end of the gap. */
  lemma NotYet(at: nat, k: nat, n: nat)
    requires (k == 4 || k == 256) && n <= Gap(at, k)
    ensures (at + n) % k == 0 <==> n == Gap(at, k)
  {
    if k == 4 {
      assert (at + n) % 4 == 0 <==> n == Gap(at, 4);
    } else {
      assert (at + n) % 256 == 0 <==> n == Gap(at, 256);
    }
  }

  predicate InRange(e: Entry) {
    e.mode < WORD && |e.name| + 1 < WORD && |e.data| < WORD
  }

  function Words(ws: seq<nat>): (r: bytes)
    ensures |r| == 8 * |ws| && AllHex(r)
  {
    if ws == [] then [] else Digits(ws[0], 8) + Words(ws[1..])
  }

  lemma {:induction false} WordAt(ws: seq<nat>, k: nat)
    requires k < |ws| && ws[k] < WORD
    ensures Number(Words(ws)[8 * k..8 * k + 8]) == ws[k]
  {
    if k == 0 {
      WordRoundTrip(ws[0]);
      assert Words(ws)[..8] == Digits(ws[0], 8);
    } else {
      WordAt(ws[1..], k - 1);
      assert Words(ws)[8 * k..8 * k + 8] == Words(ws[1..])[8 * (k - 1)..8 * (k - 1) + 8];
    }
  }

  function Header(inode: nat, e: Entry): (h: bytes)
    ensures |h| == HEADER_SIZE && AllHex(h)
  {
    MAGIC + Words([inode, e.mode, 0, 0, 1, 0, |e.data|, 0, 0, 0, 0, |e.name| + 1, 0])
  }

  /** Header and name, with the NUL. */
  function Named(inode: nat, e: Entry): (r: bytes)
    ensures |r| == HEADER_SIZE + |e.name| + 1
  {
    Header(inode, e) + (e.name + [0])
  }

  /** What _eject adds to an archive of `at` bytes. */
  function Member(at: nat, inode: nat, e: Entry): bytes {
    Zeros(Gap(at, 4)) + Aligned(at + Gap(at, 4), inode, e)
  }

  /** The same from the start of the header on. */
  function Aligned(start: nat, inode: nat, e: Entry): bytes {
    Named(inode, e) + (Zeros(Gap(start + HEADER_SIZE + |e.name| + 1, 4)) + e.data)
  }

  function NextInode(inode: nat): nat {
    (inode + 1) % WORD
  }

  /** What each of a sequence of _eject calls adds. */
  function Parts(at: nat, inode: nat, es: seq<Entry>): (r: seq<bytes>)
    ensures |r| == |es|
    decreases |es|
  {
    if es == [] then []
    else
      var m := Member(at, inode, es[0]);
      [m] + Parts(at + |m|, NextInode(inode), es[1..])
  }

  /** What they add together. */
  function Members(at: nat, inode: nat, es: seq<Entry>): bytes {
    Concat(Parts(at, inode, es))
  }

  // The reader.

  datatype Result = Malformed | Found(entries: seq<Entry>)

  /** One member and how many bytes it took, or nothing. */
  datatype One = Nothing | One(entry: Entry, length: nat)

  /** The 13 words after the magic number. */
  function Field(h: bytes, k: nat): nat
    requires |h| == HEADER_SIZE && AllHex(h) && k < 13
  {
    Number(h[6 + 8 * k..14 + 8 * k])
  }

  /** The name and data that follow a header; `input` starts at byte `at` of the archive. */
  function ParseBody(mode: nat, nameSize: nat, size: nat, input: bytes, at: nat): One {
    var pad := Gap(at + nameSize, 4);
    if nameSize == 0 || |input| < nameSize + pad + size || input[nameSize - 1] != 0 then Nothing
    else One(Entry(input[..nameSize - 1], mode, input[nameSize + pad..nameSize + pad + size]), nameSize + pad + size)
  }

  function ParseHeader(input: bytes, at: nat): One {
    if |input| < HEADER_SIZE || input[..6] != MAGIC || !AllHex(input[..HEADER_SIZE]) then Nothing
    else
      var h := input[..HEADER_SIZE];
      ParseBody(Field(h, 1), Field(h, 11), Field(h, 6), input[HEADER_SIZE..], at + HEADER_SIZE)
  }

  /** The member at the front of `input`, after the padding it starts with. */
  function ParseMember(input: bytes, at: nat): One {
    var skip := Gap(at, 4);
    if |input| < skip then Nothing
    else
      var one := ParseHeader(input[skip..], at + skip);
      if one.Nothing? then one else One(one.entry, skip + HEADER_SIZE + one.length)
  }

  /** The members a parser finds in `input`, up to the trailer. */
  function ReadWith(parse: (bytes, nat) -> One, input: bytes, at: nat): Result
    decreases |input|
  {
    var one := parse(input, at);
    if one.Nothing? || one.length == 0 || one.length > |input| then Malformed
    else if one.entry.name == TRAILER then Found([])
    else
      var rest := ReadWith(parse, input[one.length..], at + one.length);
      if rest.Found? then Found([one.entry] + rest.entries) else Malformed
  }

  /** A newc reader. */
  function Read(archive: bytes): Result {
    ReadWith(ParseMember, archive, 0)
  }

  lemma HeaderFields(inode: nat, e: Entry)
    requires InRange(e)
    ensures var h := Header(inode, e);
      h[..6] == MAGIC && Field(h, 1) == e.mode && Field(h, 6) == |e.data| && Field(h, 11) == |e.name| + 1
  {
    var h := Header(inode, e);
    var ws := [inode, e.mode, 0, 0, 1, 0, |e.data|, 0, 0, 0, 0, |e.name| + 1, 0];
    assert h == MAGIC + Words(ws);
    WordIn(ws, 1);
    WordIn(ws, 6);
    WordIn(ws, 11);
  }

  lemma WordIn(ws: seq<nat>, k: nat)
    requires k < |ws| == 13 && ws[k] < WORD
    ensures Field(MAGIC + Words(ws), k) == ws[k]
  {
    WordAt(ws, k);
    assert (MAGIC + Words(ws))[6 + 8 * k..14 + 8 * k] == Words(ws)[8 * k..8 * k + 8];
  }

  lemma ParseBodyBack(input: bytes, e: Entry, tail: bytes, at: nat, pad: nat)
    requires pad == Gap(at + |e.name| + 1, 4) && input == e.name + [0] + (Zeros(pad) + (e.data + tail))
    ensures ParseBody(e.mode, |e.name| + 1, |e.data|, input, at) == One(e, |e.name| + 1 + pad + |e.data|)
  {
    BodySlices(e.name, Zeros(pad), e.data, tail, input);
  }

  lemma BodySlices(name: bytes, zeros: bytes, data: bytes, tail: bytes, input: bytes)
    requires input == name + [0] + (zeros + (data + tail))
    ensures var n := |name| + 1;
      && n + |zeros| + |data| <= |input| && input[..n - 1] == name && input[n - 1] == 0
      && input[n + |zeros|..n + |zeros| + |data|] == data
  {
    var n := |name| + 1;
    Halves(name + [0], zeros + (data + tail));
    Halves(name, [0]);
    Halves(zeros, data + tail);
    Halves(data, tail);
    assert input[..n - 1] == input[..n][..n - 1] && input[n - 1] == input[..n][n - 1];
    assert input[n + |zeros|..] == input[n..][|zeros|..];
    assert input[n + |zeros|..n + |zeros| + |data|] == input[n + |zeros|..][..|data|];
  }

  lemma ParseHeaderBack(input: bytes, inode: nat, e: Entry, tail: bytes, at: nat, pad: nat)
    requires InRange(e) && pad == Gap(at + HEADER_SIZE + |e.name| + 1, 4)
    requires input == Named(inode, e) + ((Zeros(pad) + e.data) + tail)
    ensures ParseHeader(input, at) == One(e, |e.name| + 1 + pad + |e.data|)
  {
    var h := Header(inode, e);
    var after := Zeros(pad) + (e.data + tail);
    assert input == h + (e.name + [0] + after) by {
      Regroup(Zeros(pad), e.data, tail);
      Regroup(h, e.name + [0], after);
    }
    assert input[..HEADER_SIZE] == h && input[HEADER_SIZE..] == e.name + [0] + after;
    assert input[..6] == h[..6];
    HeaderFields(inode, e);
    ParseBodyBack(e.name + [0] + after, e, tail, at + HEADER_SIZE, pad);
  }

  lemma ParsePast(input: bytes, at: nat, after: bytes, e: Entry, n: nat)
    requires input == Zeros(Gap(at, 4)) + after && ParseHeader(after, at + Gap(at, 4)) == One(e, n)
    ensures ParseMember(input, at) == One(e, Gap(at, 4) + HEADER_SIZE + n)
  {
    Halves(Zeros(Gap(at, 4)), after);
  }

  /** What was ejected is what is parsed, whatever follows. */
  lemma ParseMemberBack(input: bytes, at: nat, inode: nat, e: Entry, tail: bytes)
    requires InRange(e) && input == Member(at, inode, e) + tail
    ensures ParseMember(input, at) == One(e, |Member(at, inode, e)|)
  {
    var start := at + Gap(at, 4);
    var pad := Gap(start + HEADER_SIZE + |e.name| + 1, 4);
    var after := Aligned(start, inode, e) + tail;
    assert after == Named(inode, e) + ((Zeros(pad) + e.data) + tail) by {
      Regroup(Named(inode, e), Zeros(pad) + e.data, tail);
    }
    ParseHeaderBack(after, inode, e, tail, start, pad);
    assert input == Zeros(Gap(at, 4)) + after by {
      Regroup(Zeros(Gap(at, 4)), Aligned(start, inode, e), tail);
    }
    ParsePast(input, at, after, e, |e.name| + 1 + pad + |e.data|);
  }

  /** Whatever follows it, m is parsed as e. */
  ghost predicate ParsesAs(parse: (bytes, nat) -> One, m: bytes, e: Entry, at: nat) {
    m != [] && forall tail :: parse(m + tail, at) == One(e, |m|)
  }

  ghost predicate AllParse(parse: (bytes, nat) -> One, parts: seq<bytes>, es: seq<Entry>, at: nat) {
    if parts == [] then es == []
    else es != [] && ParsesAs(parse, parts[0], es[0], at) && AllParse(parse, parts[1..], es[1..], at + |parts[0]|)
  }

  lemma ReadOne(parse: (bytes, nat) -> One, m: bytes, e: Entry, rest: bytes, at: nat)
    requires ParsesAs(parse, m, e, at)
    ensures e.name == TRAILER ==> ReadWith(parse, m + rest, at) == Found([])
    ensures e.name != TRAILER && ReadWith(parse, rest, at + |m|).Found? ==>
              ReadWith(parse, m + rest, at) == Found([e] + ReadWith(parse, rest, at + |m|).entries)
  {
    assert parse(m + rest, at) == One(e, |m|);
    Halves(m, rest);
  }

  /** The reader stops at the first entry with the trailer's name. */
  lemma {:induction false} ReadParts(parse: (bytes, nat) -> One, parts: seq<bytes>, es: seq<Entry>, k: nat,
                                     at: nat, tail: bytes)
    requires AllParse(parse, parts, es, at)
    requires k < |es| && es[k].name == TRAILER && forall i :: 0 <= i < k ==> es[i].name != TRAILER
    ensures ReadWith(parse, Concat(parts) + tail, at) == Found(es[..k])
    decreases k
  {
    var rest := Concat(parts[1..]) + tail;
    Regroup(parts[0], Concat(parts[1..]), tail);
    ReadOne(parse, parts[0], es[0], rest, at);
    if k > 0 {
      ReadParts(parse, parts[1..], es[1..], k - 1, at + |parts[0]|, tail);
      assert [es[0]] + es[1..][..k - 1] == es[..k];
    }
  }

  lemma MemberParses(at: nat, inode: nat, e: Entry)
    requires InRange(e)
    ensures ParsesAs(ParseMember, Member(at, inode, e), e, at)
  {
    var m := Member(at, inode, e);
    forall tail
      ensures ParseMember(m + tail, at) == One(e, |m|)
    {
      ParseMemberBack(m + tail, at, inode, e, tail);
    }
  }

  lemma {:induction false} PartsParse(at: nat, inode: nat, es: seq<Entry>)
    requires forall i :: 0 <= i < |es| ==> InRange(es[i])
    ensures AllParse(ParseMember, Parts(at, inode, es), es, at)
    decreases |es|
  {
    if es != [] {
      var next := at + |Member(at, inode, es[0])|;
      MemberParses(at, inode, es[0]);
      PartsParse(next, NextInode(inode), es[1..]);
      assert Parts(at, inode, es)[1..] == Parts(next, NextInode(inode), es[1..]);
    }
  }

  /** A whole archive: the members, the trailer with whatever mode it is given, and zeros up to a multiple of 256. */
  function Archive(es: seq<Entry>, mode: nat): bytes {
    var a := Members(0, FIRST_INODE, es + [Entry(TRAILER, mode, [])]);
    a + Zeros(Gap(|a|, 256))
  }

  /** A reader recovers exactly the members that were ejected, up to the first one named like the trailer. */
  lemma ReadUpTo(es: seq<Entry>, mode: nat, k: nat)
    requires mode < WORD && forall i :: 0 <= i < |es| ==> InRange(es[i])
    requires k <= |es| && (k < |es| ==> es[k].name == TRAILER) && forall i :: 0 <= i < k ==> es[i].name != TRAILER
    ensures Read(Archive(es, mode)) == Found(es[..k])
  {
    var all := es + [Entry(TRAILER, mode, [])];
    var parts := Parts(0, FIRST_INODE, all);
    assert forall i :: 0 <= i < |all| ==> InRange(all[i]);
    PartsParse(0, FIRST_INODE, all);
    ReadBack(ParseMember, Archive(es, mode), parts, all, k, Zeros(Gap(|Concat(parts)|, 256)));
    assert all[..k] == es[..k];
  }

  lemma ReadBack(parse: (bytes, nat) -> One, archive: bytes, parts: seq<bytes>, all: seq<Entry>, k: nat, tail: bytes)
    requires AllParse(parse, parts, all, 0) && archive == Concat(parts) + tail
    requires k < |all| && all[k].name == TRAILER && forall i :: 0 <= i < k ==> all[i].name != TRAILER
    ensures ReadWith(parse, archive, 0) == Found(all[..k])
  {
    ReadParts(parse, parts, all, k, 0, tail);
  }

  /** All members come back exactly when none is named like the trailer. */
  lemma ParseBack(es: seq<Entry>, mode: nat)
    requires mode < WORD && forall i :: 0 <= i < |es| ==> InRange(es[i])
    ensures Read(Archive(es, mode)) == Found(es) <==> forall i :: 0 <= i < |es| ==> es[i].name != TRAILER
  {
    var k := 0;
    while k < |es| && es[k].name != TRAILER
      invariant k <= |es| && forall i :: 0 <= i < k ==> es[i].name != TRAILER
    {
      k := k + 1;
    }
    ReadUpTo(es, mode, k);
    assert es[..|es|] == es;
    assert k < |es| ==> |es[..k]| < |es|;
  }

  /** An archive is a whole number of 256-byte blocks. */
  lemma WholeBlocks(es: seq<Entry>, mode: nat)
    ensures |Archive(es, mode)| % 256 == 0
  {
    var n := |Members(0, FIRST_INODE, es + [Entry(TRAILER, mode, [])])|;
    assert |Archive(es, mode)| == n + Gap(n, 256);
  }

  lemma MemberFlat(output: bytes, inode: nat, e: Entry)
    ensures var at := |output|;
      var front := output + Zeros(Gap(at, 4)) + Named(inode, e);
      output + Member(at, inode, e) == front + Zeros(Gap(|front|, 4)) + e.data
  {
    var at := |output|;
    var front := output + Zeros(Gap(at, 4)) + Named(inode, e);
    var filled := Zeros(Gap(|front|, 4)) + e.data;
    Regroup(output, Zeros(Gap(at, 4)), Named(inode, e) + filled);
    Regroup(output + Zeros(Gap(at, 4)), Named(inode, e), filled);
    Regroup(front, Zeros(Gap(|front|, 4)), e.data);
  }

  lemma MembersStep(output: bytes, inode: nat, es: seq<Entry>)
    requires es != []
    ensures var next := output + Member(|output|, inode, es[0]);
      output + Members(|output|, inode, es) == next + Members(|next|, NextInode(inode), es[1..])
  {
    var m := Member(|output|, inode, es[0]);
    Longer(output, m, Parts(|output| + |m|, NextInode(inode), es[1..]));
  }

  lemma Longer(output: bytes, m: bytes, parts: seq<bytes>)
    ensures output + Concat([m] + parts) == (output + m) + Concat(parts)
  {
    assert ([m] + parts)[1..] == parts;
    Regroup(output, m, Concat(parts));
  }

  lemma ArchiveIs(es: seq<Entry>, mode: nat, members: bytes)
    requires members == Members(0, FIRST_INODE, es + [Entry(TRAILER, mode, [])])
    ensures Archive(es, mode) == members + Zeros(Gap(|members|, 256))
  {}

  // The program that writes it.

  class Archiver {
    var output: bytes      // what has gone to standard output
    var totalSize: nat
    var nextInode: nat

    ghost predicate Valid()
      reads this
    {
      totalSize == |output| && nextInode < WORD
    }

    constructor ()
      ensures Valid() && output == [] && nextInode == FIRST_INODE
    {
      output, totalSize, nextInode := [], 0, FIRST_INODE;
    }

    /** The padding loops; k is 4 or 256. */
    method Pad(k: nat)
      requires Valid() && (k == 4 || k == 256)
      modifies this`output, this`totalSize
      ensures Valid() && output == old(output) + Zeros(Gap(old(|output|), k))
    {
      ghost var n, gap := 0, Gap(|output|, k);
      while totalSize % k != 0
        invariant Valid() && output == old(output) + Zeros(n) && n <= gap
        decreases gap - n
      {
        NotYet(old(|output|), k, n);
        totalSize := totalSize + 1;
        output := output + [0];
        assert Zeros(n + 1) == Zeros(n) + [0];
        n := n + 1;
      }
      NotYet(old(|output|), k, n);
    }

    /** _eject up to the member's data. */
    method EjectHeader(e: Entry) returns (ghost headerAt: nat)
      requires Valid() && InRange(e)
      modifies this
      ensures Valid() && nextInode == NextInode(old(nextInode))
      ensures headerAt == old(|output|) + Gap(old(|output|), 4)
      ensures output == old(output) + Zeros(Gap(old(|output|), 4)) + Named(old(nextInode), e)
    {
      Pad(4);
      headerAt := totalSize;
      output := output + Named(nextInode, e);
      nextInode := (nextInode + 1) % WORD;
      totalSize := totalSize + 6 + 8 * 13 + |e.name| + 1;
    }

    /** _eject of a member whose mode is already what fix_stat makes it. */
    method Eject(e: Entry) returns (ghost headerAt: nat, ghost dataAt: nat)
      requires Valid() && InRange(e)
      modifies this
      ensures Valid() && nextInode == NextInode(old(nextInode))
      ensures output == old(output) + Member(old(|output|), old(nextInode), e)
      ensures headerAt % 4 == 0 && dataAt % 4 == 0 && headerAt + HEADER_SIZE <= dataAt <= |output|
      ensures output[headerAt..headerAt + HEADER_SIZE] == Header(old(nextInode), e) && output[dataAt..] == e.data
    {
      MemberFlat(output, nextInode, e);
      headerAt := EjectHeader(e);
      Pad(4);
      dataAt := totalSize;
      if e.data != [] {
        output := output + e.data;
        totalSize := totalSize + |e.data|;
      }
    }

    /** A run of _eject calls. */
    method EjectAll(es: seq<Entry>)
      requires Valid() && forall i :: 0 <= i < |es| ==> InRange(es[i])
      modifies this
      ensures Valid() && output == old(output) + Members(old(|output|), old(nextInode), es)
    {
      ghost var whole := output + Members(|output|, nextInode, es);
      for i := 0 to |es|
        invariant Valid() && whole == output + Members(|output|, nextInode, es[i..])
      {
        MembersStep(output, nextInode, es[i..]);
        assert es[i..][1..] == es[i + 1..];
        var _, _ := Eject(es[i]);
      }
    }

    /** A run of _eject calls from the start, then _eject_trailer. */
    method WriteArchive(es: seq<Entry>, mode: nat)
      requires output == [] && totalSize == 0 && nextInode == FIRST_INODE && mode < WORD
      requires forall i :: 0 <= i < |es| ==> InRange(es[i])
      modifies this
      ensures output == Archive(es, mode) && totalSize == |output|
    {
      var all := es + [Entry(TRAILER, mode, [])];
      assert forall i :: 0 <= i < |all| ==> InRange(all[i]);
      ghost var members := Members(0, FIRST_INODE, all);
      EjectAll(all);
      assert [] + members == members;
      Pad(256);
      ArchiveIs(es, mode, members);
    }
  }
}
