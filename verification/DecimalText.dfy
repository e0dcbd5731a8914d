/**
 The canonical text of a decimal: positional notation with no exponent and no trailing
 zeros. It is the same for two numbers exactly when they are equal, signs of zero apart.
 */
module DecimalText {
  import opened Decimal
  import opened ContentLength

  /** The decimal module's finite numbers: (-1)^negative * coefficient * 10^exponent. */
  datatype Number = Number(negative: bool, coefficient: nat, exponent: int)

  const POINT: byte := 0x2E
  const MINUS: byte := 0x2D

  /** The last k digits of n, with leading zeros. */
  function Pad(n: nat, k: nat): (s: Bytes)
    ensures |s| == k && AllDigits(s)
  {
    if k == 0 then [] else Pad(n / 10, k - 1) + [0x30 + n % 10]
  }

  /** n without its last k digits. */
  function Drop(n: nat, k: nat): nat { if k == 0 then n else Drop(n / 10, k - 1) }

  /** n shifted right by k digits, with a point in front of the last k. */
  function Pointed(n: nat, k: nat): Bytes { Text(Drop(n, k)) + ([POINT] + Pad(n, k)) }

  /** What format(value, "f") makes of a finite decimal without its sign. */
  function Fixed(coefficient: nat, exponent: int): Bytes {
    if exponent >= 0 then Text(coefficient * Pow10(exponent)) else Pointed(coefficient, -exponent)
  }

  function StripRight(s: Bytes, b: byte): Bytes {
    if s != [] && s[|s| - 1] == b then StripRight(s[..|s| - 1], b) else s
  }

  /** The canonical text: trailing zeros go only where there is a point. */
  function TextOf(d: Number): Bytes {
    var text := (if d.negative then [MINUS] else []) + Fixed(d.coefficient, d.exponent);
    var stripped := if POINT in text then StripRight(StripRight(text, 0x30), POINT) else text;
    if stripped == [] then [0x30] else stripped
  }

  /******* Numbers without superfluous digits *******/

  /** n * 10^-k, with no zero at the end of a fraction. */
  datatype Normal = Normal(n: nat, k: nat)

  predicate IsNormal(x: Normal) { x.k == 0 || x.n % 10 != 0 }

  function Reduce(n: nat, k: nat): (x: Normal)
    ensures IsNormal(x)
    decreases k
  {
    if k > 0 && n % 10 == 0 then Reduce(n / 10, k - 1) else Normal(n, k)
  }

  function NormalOf(coefficient: nat, exponent: int): (x: Normal)
    ensures IsNormal(x)
  {
    if exponent >= 0 then Normal(coefficient * Pow10(exponent), 0) else Reduce(coefficient, -exponent)
  }

  function Shown(x: Normal): Bytes { if x.k == 0 then Text(x.n) else Pointed(x.n, x.k) }

  /******* The text shows the normal form *******/

  lemma {:induction false} PointedShrinks(n: nat, k: nat)
    requires k > 0
    ensures Pointed(n, k) == Pointed(n / 10, k - 1) + [0x30 + n % 10]
  {
    var head, tail := Text(Drop(n, k)), Pad(n / 10, k - 1);
    assert [POINT] + Pad(n, k) == ([POINT] + tail) + [0x30 + n % 10];
    assert Pointed(n, k) == head + ([POINT] + tail) + [0x30 + n % 10];
  }

  lemma {:induction false} StripPointed(n: nat, k: nat)
    ensures StripRight(StripRight(Pointed(n, k), 0x30), POINT) == Shown(Reduce(n, k))
    decreases k
  {
    hide Pointed, StripRight, Text, Pad, Drop;
    if k == 0 {
      StripPoint(n);
    } else {
      PointedShrinks(n, k);
      StripOne(Pointed(n / 10, k - 1), n % 10);
      if n % 10 == 0 { StripPointed(n / 10, k - 1); }
    }
  }

  lemma StripOne(s: Bytes, digit: nat)
    requires digit < 10
    ensures var t := s + [0x30 + digit];
            StripRight(t, 0x30) == (if digit == 0 then StripRight(s, 0x30) else t)
            && (digit != 0 ==> StripRight(t, POINT) == t)
  {
    var t := s + [0x30 + digit];
    assert t[..|t| - 1] == s;
  }

  lemma StripPoint(n: nat)
    ensures StripRight(StripRight(Pointed(n, 0), 0x30), POINT) == Text(n)
  {
    var s := Pointed(n, 0);
    assert s == Text(n) + [POINT];
    assert s[..|s| - 1] == Text(n) && StripRight(s, 0x30) == s;
    assert Text(n)[|Text(n)| - 1] != POINT;
  }

  lemma {:induction false} StripBehindSign(s: Bytes, b: byte)
    requires StripRight(s, b) != []
    ensures StripRight([MINUS] + s, b) == [MINUS] + StripRight(s, b)
  {
    if s != [] && s[|s| - 1] == b {
      assert ([MINUS] + s)[..|s|] == [MINUS] + s[..|s| - 1];
      StripBehindSign(s[..|s| - 1], b);
    } else {
      assert ([MINUS] + s)[|s|] == s[|s| - 1];
    }
  }

  lemma {:induction false} StripStopsAtOthers(s: Bytes, b: byte, i: nat)
    requires i < |s| && s[i] != b
    ensures |StripRight(s, b)| > i
  {
    if s[|s| - 1] == b { StripStopsAtOthers(s[..|s| - 1], b, i); }
  }

  lemma ShownIsSomething(x: Normal)
    ensures Shown(x) != []
  {
  }

  /** The canonical text is the sign and the digits of the normal form. */
  lemma TextShowsTheNormalForm(d: Number)
    ensures TextOf(d) == (if d.negative then [MINUS] else []) + Shown(NormalOf(d.coefficient, d.exponent))
  {
    var digits := Fixed(d.coefficient, d.exponent);
    var sign := if d.negative then [MINUS] else [];
    var x := NormalOf(d.coefficient, d.exponent);
    ShownIsSomething(x);
    if d.exponent >= 0 {
      assert POINT !in digits && POINT !in sign + digits;
    } else {
      assert digits[|Text(Drop(d.coefficient, -d.exponent))|] == POINT;
      assert POINT in digits && POINT in sign + digits;
      StripPointed(d.coefficient, -d.exponent);
      var inner := StripRight(digits, 0x30);
      if d.negative {
        StripStopsAtOthers(digits, 0x30, |Text(Drop(d.coefficient, -d.exponent))|);
        StripBehindSign(digits, 0x30);
        StripBehindSign(inner, POINT);
      } else {
        assert sign + digits == digits;
      }
    }
  }

  /******* The digits determine the normal form *******/

  lemma {:induction false} PadAndDropDetermine(n: nat, m: nat, k: nat)
    requires Pad(n, k) == Pad(m, k) && Drop(n, k) == Drop(m, k)
    ensures n == m
  {
    if k > 0 {
      var a, b := Pad(n, k), Pad(m, k);
      assert a[..k - 1] == Pad(n / 10, k - 1) && b[..k - 1] == Pad(m / 10, k - 1);
      assert a[k - 1] == 0x30 + n % 10 && b[k - 1] == 0x30 + m % 10;
      PadAndDropDetermine(n / 10, m / 10, k - 1);
    }
  }

  lemma TextDetermines(n: nat, m: nat)
    requires Text(n) == Text(m)
    ensures n == m
  {
    TextDenotes(n);
    TextDenotes(m);
  }

  lemma PointedDetermines(n: nat, k: nat, m: nat, l: nat)
    requires Pointed(n, k) == Pointed(m, l)
    ensures n == m && k == l
  {
    var s, a, b := Pointed(n, k), Text(Drop(n, k)), Text(Drop(m, l));
    assert s[|a|] == POINT && s[|b|] == POINT;
    assert forall i :: 0 <= i < |a| ==> s[i] == a[i];
    assert forall i :: 0 <= i < |b| ==> s[i] == b[i];
    assert |a| == |b|;
    assert s[..|a|] == a && s[..|b|] == b;
    assert s[|a| + 1..] == Pad(n, k) && s[|b| + 1..] == Pad(m, l);
    TextDetermines(Drop(n, k), Drop(m, l));
    PadAndDropDetermine(n, m, k);
  }

  lemma ShownDetermines(x: Normal, y: Normal)
    requires Shown(x) == Shown(y)
    ensures x == y
  {
    if x.k == 0 && y.k == 0 {
      TextDetermines(x.n, y.n);
    } else if x.k > 0 && y.k > 0 {
      PointedDetermines(x.n, x.k, y.n, y.k);
    } else {
      var z := if x.k > 0 then x else y;
      assert Pointed(z.n, z.k)[|Text(Drop(z.n, z.k))|] == POINT;
      assert false;
    }
  }

  /******* The normal form determines the number, and the other way round *******/

  /** a * 10^-i == b * 10^-j, without fractions. */
  predicate SameFraction(a: nat, i: nat, b: nat, j: nat) { a * Pow10(j) == b * Pow10(i) }

  lemma {:induction false} Pow10Adds(i: nat, j: nat)
    ensures Pow10(i + j) == Pow10(i) * Pow10(j)
  {
    if i > 0 { Pow10Adds(i - 1, j); }
  }

  lemma {:induction false} ReduceKeepsValue(n: nat, k: nat)
    ensures var x := Reduce(n, k); x.k <= k && x.n * Pow10(k - x.k) == n
    decreases k
  {
    if k > 0 && n % 10 == 0 {
      ReduceKeepsValue(n / 10, k - 1);
      var x := Reduce(n, k);
      assert Pow10(k - x.k) == 10 * Pow10(k - 1 - x.k);
      assert x.n * Pow10(k - 1 - x.k) == n / 10;
      assert x.n * (10 * Pow10(k - 1 - x.k)) == 10 * (x.n * Pow10(k - 1 - x.k));
    }
  }

  lemma {:induction false} ReduceOfMultiple(n: nat, k: nat, more: nat)
    ensures Reduce(n * Pow10(more), k + more) == Reduce(n, k)
    decreases more
  {
    if more > 0 {
      assert n * Pow10(more) == 10 * (n * Pow10(more - 1)) by { assert Pow10(more) == 10 * Pow10(more - 1); }
      assert n * Pow10(more) % 10 == 0 && n * Pow10(more) / 10 == n * Pow10(more - 1);
      ReduceOfMultiple(n, k, more - 1);
    } else {
      assert n * Pow10(0) == n;
    }
  }

  /** Equal fractions reduce to one normal form, and only they do. */
  lemma ReducedAlikeIffEqual(a: nat, i: nat, b: nat, j: nat)
    ensures Reduce(a, i) == Reduce(b, j) <==> SameFraction(a, i, b, j)
  {
    ReduceOfMultiple(a, i, j);
    ReduceOfMultiple(b, j, i);
    if Reduce(a, i) == Reduce(b, j) { ReducedAlike(a, i, b, j); }
  }

  lemma ReducedAlike(a: nat, i: nat, b: nat, j: nat)
    requires Reduce(a, i) == Reduce(b, j)
    ensures SameFraction(a, i, b, j)
  {
    hide Reduce, Pow10;
    var x := Reduce(a, i);
    ReduceKeepsValue(a, i);
    ReduceKeepsValue(b, j);
    var p, q := Pow10(i - x.k), Pow10(j - x.k);
    Pow10Adds(i - x.k, j);
    Pow10Adds(j - x.k, i);
    assert i - x.k + j == j - x.k + i;
    Associate(x.n, p, Pow10(j));
    Associate(x.n, q, Pow10(i));
  }

  lemma Associate(n: nat, p: nat, q: nat)
    ensures n * p * q == n * (p * q)
  {
  }

  /** A decimal as a fraction: coefficient and number of digits behind the point. */
  function Numerator(d: Number): nat { if d.exponent >= 0 then d.coefficient * Pow10(d.exponent) else d.coefficient }

  function Places(d: Number): nat { if d.exponent >= 0 then 0 else -d.exponent }

  predicate IsZero(d: Number) { Numerator(d) == 0 }

  /** The two denote the same number. */
  predicate Equal(c: Number, d: Number) {
    && SameFraction(Numerator(c), Places(c), Numerator(d), Places(d))
    && (c.negative == d.negative || IsZero(c))
  }

  lemma NormalIsReduced(d: Number)
    ensures NormalOf(d.coefficient, d.exponent) == Reduce(Numerator(d), Places(d))
  {
  }

  lemma ShownHasNoSign(x: Normal)
    ensures Shown(x)[0] != MINUS
  {
    assert Text(if x.k == 0 then x.n else Drop(x.n, x.k))[0] != MINUS;
  }

  /** Equal texts are equal numbers of one sign: only the two zeros are equal and told apart. */
  lemma EqualTextsAreEqualNumbers(c: Number, d: Number)
    ensures TextOf(c) == TextOf(d) <==> Equal(c, d) && c.negative == d.negative
  {
    TextShowsTheNormalForm(c);
    TextShowsTheNormalForm(d);
    NormalIsReduced(c);
    NormalIsReduced(d);
    var x, y := NormalOf(c.coefficient, c.exponent), NormalOf(d.coefficient, d.exponent);
    ReducedAlikeIffEqual(Numerator(c), Places(c), Numerator(d), Places(d));
    ShownHasNoSign(x);
    ShownHasNoSign(y);
    if TextOf(c) == TextOf(d) {
      assert c.negative == d.negative by {
        assert TextOf(c)[0] == TextOf(d)[0];
      }
      if c.negative { assert TextOf(c)[1..] == Shown(x) && TextOf(d)[1..] == Shown(y); }
      else { assert TextOf(c) == Shown(x) && TextOf(d) == Shown(y); }
      ShownDetermines(x, y);
    }
  }

  /** Negative zero keeps its sign: equal to zero, and written differently. */
  lemma NegativeZeroIsWrittenApart()
    ensures var zero, negative := Number(false, 0, 0), Number(true, 0, 0);
            Equal(zero, negative) && TextOf(zero) != TextOf(negative)
  {
    EqualTextsAreEqualNumbers(Number(false, 0, 0), Number(true, 0, 0));
  }
}
