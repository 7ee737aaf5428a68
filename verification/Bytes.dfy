/** Octets, concatenation of octet chunks, and a few constants shared by the other modules. */
module Bytes {
  type byte = x: int | 0 <= x < 256
  type bytes = seq<byte>

  const WORD := 0x1_0000_0000            // one past the largest 32-bit number
  const MAX_PAYLOAD: nat := 1024 * 1024

  function Min(x: nat, y: nat): nat {
    if x <= y then x else y
  }

  /** The chunks joined in order. */
  function Concat(parts: seq<bytes>): bytes {
    if parts == [] then [] else parts[0] + Concat(parts[1..])
  }

  lemma {:induction false} ConcatAppend(front: seq<bytes>, back: seq<bytes>)
    ensures Concat(front + back) == Concat(front) + Concat(back)
  {
    if front == [] {
      assert front + back == back;
    } else {
      assert (front + back)[1..] == front[1..] + back;
      ConcatAppend(front[1..], back);
    }
  }

  lemma ConcatOne(part: bytes)
    ensures Concat([part]) == part
  {
    assert Concat([part]) == part + Concat([]);
  }

  lemma Regroup<T>(a: seq<T>, b: seq<T>, c: seq<T>)
    ensures a + (b + c) == (a + b) + c
  {}

  lemma Halves<T>(a: seq<T>, b: seq<T>)
    ensures (a + b)[..|a|] == a && (a + b)[|a|..] == b
  {}
}
