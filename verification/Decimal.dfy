/** Bytes, and the decimal text of natural numbers as a sequence of ASCII bytes. */
module Decimal {
  type byte = b: int | 0 <= b < 256
  type Bytes = seq<byte>

  function Ascii(text: string): (bytes: Bytes)
    requires forall i :: 0 <= i < |text| ==> text[i] < 128 as char
    ensures |bytes| == |text|
  {
    seq(|text|, i requires 0 <= i < |text| => text[i] as int)
  }

  const LF: byte := 0x0A
  const QUOTE: byte := 0x22
  const COLON: byte := 0x3A
  const SEMICOLON: byte := 0x3B
  const BACKSLASH: byte := 0x5C

  predicate IsDigit(b: byte) { 0x30 <= b <= 0x39 }

  predicate IsHex(b: byte) { IsDigit(b) || 0x41 <= b <= 0x46 || 0x61 <= b <= 0x66 }

  predicate AllDigits(s: Bytes) { forall i :: 0 <= i < |s| ==> IsDigit(s[i]) }

  /** The number a string of digits denotes, most significant digit first. */
  function Value(s: Bytes): nat
    requires AllDigits(s)
  {
    if s == [] then 0 else 10 * Value(s[..|s| - 1]) + (s[|s| - 1] - 0x30)
  }

  /** The shortest decimal text of n. */
  function Text(n: nat): (s: Bytes)
    ensures AllDigits(s) && |s| > 0
  {
    if n < 10 then [0x30 + n] else Text(n / 10) + [0x30 + n % 10]
  }

  /** Reading the text of a number gives the number back. */
  lemma {:induction false} TextDenotes(n: nat)
    ensures Value(Text(n)) == n
  {
    if n >= 10 {
      TextDenotes(n / 10);
      assert Text(n)[..|Text(n)| - 1] == Text(n / 10);
    } else {
      assert Text(n)[..0] == [];
    }
  }

  /** The text carries no superfluous leading zero. */
  lemma {:induction false} TextIsNormal(n: nat)
    ensures |Text(n)| == 1 || Text(n)[0] != 0x30
    ensures Text(n)[0] == 0x30 ==> n == 0
  {
    if n >= 10 { TextIsNormal(n / 10); }
  }
}
