/**
 The Content-Length check: digit strings of any length are compared with the limit as
 text, before any of them is turned into a number.
 */
module ContentLength {
  import opened Basics
  import opened Decimal

  const ZERO: byte := 0x30

  function StripZeros(s: Bytes): Bytes {
    if s != [] && s[0] == ZERO then StripZeros(s[1..]) else s
  }

  function Normalized(digits: Bytes): Bytes {
    if StripZeros(digits) == [] then [ZERO] else StripZeros(digits)
  }

  /** The order of text: by the first difference, and a proper prefix comes first. */
  predicate TextAfter(a: Bytes, b: Bytes) {
    a != [] && (b == [] || a[0] > b[0] || (a[0] == b[0] && TextAfter(a[1..], b[1..])))
  }

  predicate ExceedsLimit(digits: Bytes, max: nat) {
    var length, limit := Normalized(digits), Text(max);
    |length| > |limit| || (|length| == |limit| && TextAfter(length, limit))
  }

  /** The length to read, or None for a request that is refused as too large. */
  function LengthToRead(digits: Bytes, max: nat): Option<nat>
    requires AllDigits(digits)
  {
    if ExceedsLimit(digits, max) then None
    else
      StrippingKeepsDigits(digits);
      Some(Value(Normalized(digits)))
  }

  lemma {:induction false} StrippingKeepsDigits(digits: Bytes)
    requires AllDigits(digits)
    ensures AllDigits(StripZeros(digits)) && AllDigits(Normalized(digits))
    ensures StripZeros(digits) == [] || StripZeros(digits)[0] != ZERO
  {
    if digits != [] && digits[0] == ZERO { StrippingKeepsDigits(digits[1..]); }
  }

  lemma {:induction false} LeadingZero(digits: Bytes)
    requires AllDigits(digits) && digits != [] && digits[0] == ZERO
    ensures Value(digits) == Value(digits[1..])
  {
    var n := |digits| - 1;
    if n == 0 {
      assert digits[..0] == [] && digits[1..] == [];
    } else {
      LeadingZero(digits[..n]);
      assert digits[..n][1..] == digits[1..][..n - 1];
    }
  }

  lemma {:induction false} StrippingKeepsValue(digits: Bytes)
    requires AllDigits(digits)
    ensures AllDigits(Normalized(digits)) && Value(Normalized(digits)) == Value(digits)
  {
    StrippingKeepsDigits(digits);
    if digits == [] {
      assert [ZERO][..0] == [];
    } else if digits[0] == ZERO {
      LeadingZero(digits);
      StrippingKeepsValue(digits[1..]);
    }
  }

  function Pow10(n: nat): nat { if n == 0 then 1 else 10 * Pow10(n - 1) }

  lemma {:induction false} ValueIsBelow(s: Bytes)
    requires AllDigits(s)
    ensures Value(s) < Pow10(|s|)
  {
    if s != [] { ValueIsBelow(s[..|s| - 1]); }
  }

  lemma {:induction false} ValueIsAtLeast(s: Bytes)
    requires AllDigits(s) && s != [] && s[0] != ZERO
    ensures Value(s) >= Pow10(|s| - 1)
  {
    if |s| == 1 {
      assert s[..0] == [] && Value([]) == 0;
    } else {
      ValueIsAtLeast(s[..|s| - 1]);
    }
  }

  lemma {:induction false} Pow10Grows(m: nat, n: nat)
    requires m <= n
    ensures Pow10(m) <= Pow10(n)
  {
    if m < n { Pow10Grows(m, n - 1); }
  }

  /** A longer text without leading zeros denotes a larger number. */
  lemma LongerIsLarger(a: Bytes, b: Bytes)
    requires AllDigits(a) && AllDigits(b) && |a| > |b| && a[0] != ZERO
    ensures Value(a) > Value(b)
  {
    ValueIsAtLeast(a);
    ValueIsBelow(b);
    Pow10Grows(|b|, |a| - 1);
  }

  lemma {:induction false} LastCharacterDecides(a: Bytes, x: byte, b: Bytes, y: byte)
    requires |a| == |b|
    ensures TextAfter(a + [x], b + [y]) <==> TextAfter(a, b) || (a == b && x > y)
  {
    if a != [] {
      assert (a + [x])[1..] == a[1..] + [x] && (b + [y])[1..] == b[1..] + [y];
      LastCharacterDecides(a[1..], x, b[1..], y);
      assert a == [a[0]] + a[1..] && b == [b[0]] + b[1..];
    }
  }

  /** For digit strings of one length the order of text is the order of numbers. */
  lemma {:induction false} TextOrderIsNumberOrder(a: Bytes, b: Bytes)
    requires AllDigits(a) && AllDigits(b) && |a| == |b|
    ensures TextAfter(a, b) <==> Value(a) > Value(b)
    ensures Value(a) == Value(b) ==> a == b
  {
    if a != [] {
      var n := |a| - 1;
      TextOrderIsNumberOrder(a[..n], b[..n]);
      LastCharacterDecides(a[..n], a[n], b[..n], b[n]);
      assert a == a[..n] + [a[n]] && b == b[..n] + [b[n]];
    }
  }

  /** The text comparison refuses exactly the numbers above the limit, and the number read is the one sent. */
  lemma LengthsAreComparedAsNumbers(digits: Bytes, max: nat)
    requires AllDigits(digits)
    ensures ExceedsLimit(digits, max) <==> Value(digits) > max
    ensures LengthToRead(digits, max) == if Value(digits) > max then None else Some(Value(digits))
  {
    var length, limit := Normalized(digits), Text(max);
    StrippingKeepsDigits(digits);
    StrippingKeepsValue(digits);
    TextDenotes(max);
    TextIsNormal(max);
    if |length| > |limit| {
      LongerIsLarger(length, limit);
    } else if |length| < |limit| {
      LongerIsLarger(limit, length);
    } else {
      TextOrderIsNumberOrder(length, limit);
    }
  }
}
