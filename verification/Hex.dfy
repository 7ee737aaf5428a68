/** Numbers written in hexadecimal digits. */
module Hex {
  import opened Bytes

  predicate IsHex(b: byte) {
    0x30 <= b <= 0x39 || 0x61 <= b <= 0x66 || 0x41 <= b <= 0x46
  }

  function HexDigit(b: byte): (d: nat)
    requires IsHex(b)
    ensures d < 16
  {
    if b <= 0x39 then b - 0x30 else if b >= 0x61 then b - 0x61 + 10 else b - 0x41 + 10
  }

  predicate AllHex(s: bytes) {
    forall i :: 0 <= i < |s| ==> IsHex(s[i])
  }

  /** The number written, most significant digit first. */
  function Number(s: bytes): nat
    requires AllHex(s)
  {
    if s == [] then 0 else 16 * Number(s[..|s| - 1]) + HexDigit(s[|s| - 1])
  }

  /** The lower-case digit. */
  function Digit(d: nat): byte
    requires d < 16
  {
    if d < 10 then 0x30 + d else 0x57 + d
  }

  /** The k low digits of n, as the x conversion with a zero flag and width k prints any n below 16^k. */
  function Digits(n: nat, k: nat): (r: bytes)
    ensures |r| == k && AllHex(r)
  {
    if k == 0 then [] else Digits(n / 16, k - 1) + [Digit(n % 16)]
  }

  function Pow16(k: nat): nat {
    if k == 0 then 1 else 16 * Pow16(k - 1)
  }

  lemma {:induction false} DigitsRoundTrip(n: nat, k: nat)
    requires n < Pow16(k)
    ensures Number(Digits(n, k)) == n
  {
    if k > 0 {
      DigitsRoundTrip(n / 16, k - 1);
      assert Digits(n, k)[..k - 1] == Digits(n / 16, k - 1);
    }
  }

  lemma WordRoundTrip(n: nat)
    requires n < WORD
    ensures Number(Digits(n, 8)) == n
  {
    assert Pow16(8) == 16 * 16 * Pow16(6) && Pow16(6) == 16 * 16 * Pow16(4) && Pow16(4) == 65536;
    DigitsRoundTrip(n, 8);
  }
}
