/** The DSSE v1.0.2 pre-authentication encoding. */
module Dsse {
  import opened Decimal

  /** "DSSEv1" SP LEN(type) SP type SP LEN(payload) SP payload. */
  function Pae(payloadType: Bytes, payload: Bytes): Bytes {
    Ascii("DSSEv1 ") + Text(|payloadType|) + [0x20] + payloadType + [0x20]
    + Text(|payload|) + [0x20] + payload
  }

  /** The first space ends the digits. */
  lemma DigitsStopAtTheSpace(d: Bytes, rest: Bytes, s: Bytes, k: nat)
    requires AllDigits(d) && s == d + [0x20] + rest
    requires k < |s| && s[k] == 0x20
    ensures |d| <= k
  {
    assert forall i :: 0 <= i < |d| ==> s[i] == d[i];
  }

  /** Digits followed by a space can be read back in only one way. */
  lemma LengthPrefixIsReadable(d1: Bytes, rest1: Bytes, d2: Bytes, rest2: Bytes)
    requires AllDigits(d1) && AllDigits(d2)
    requires d1 + [0x20] + rest1 == d2 + [0x20] + rest2
    ensures d1 == d2 && rest1 == rest2
  {
    var s := d1 + [0x20] + rest1;
    assert s[|d1|] == 0x20 && s[|d2|] == 0x20;
    DigitsStopAtTheSpace(d1, rest1, s, |d2|);
    DigitsStopAtTheSpace(d2, rest2, s, |d1|);
    assert d1 == s[..|d1|] && d2 == s[..|d2|];
    assert rest1 == s[|d1| + 1..] && rest2 == s[|d2| + 1..];
  }

  /** A length-prefixed field can be read back in only one way. */
  lemma FieldIsReadable(f1: Bytes, rest1: Bytes, f2: Bytes, rest2: Bytes)
    requires Text(|f1|) + [0x20] + (f1 + rest1) == Text(|f2|) + [0x20] + (f2 + rest2)
    ensures f1 == f2 && rest1 == rest2
  {
    LengthPrefixIsReadable(Text(|f1|), f1 + rest1, Text(|f2|), f2 + rest2);
    TextDenotes(|f1|);
    TextDenotes(|f2|);
    assert |f1| == |f2|;
    assert f1 == (f1 + rest1)[..|f1|] && f2 == (f2 + rest2)[..|f2|];
    assert rest1 == (f1 + rest1)[|f1|..] && rest2 == (f2 + rest2)[|f2|..];
  }

  /** No two different (type, payload) pairs are ever signed as the same bytes. */
  lemma PaeIsInjective(type1: Bytes, payload1: Bytes, type2: Bytes, payload2: Bytes)
    requires Pae(type1, payload1) == Pae(type2, payload2)
    ensures type1 == type2 && payload1 == payload2
  {
    hide Text;
    var head := Ascii("DSSEv1 ");
    var tail1 := [0x20] + (Text(|payload1|) + [0x20] + (payload1 + []));
    var tail2 := [0x20] + (Text(|payload2|) + [0x20] + (payload2 + []));
    var body1 := Text(|type1|) + [0x20] + (type1 + tail1);
    var body2 := Text(|type2|) + [0x20] + (type2 + tail2);
    assert Pae(type1, payload1) == head + body1;
    assert Pae(type2, payload2) == head + body2;
    assert body1 == (head + body1)[|head|..] && body2 == (head + body2)[|head|..];
    FieldIsReadable(type1, tail1, type2, tail2);
    assert tail1[1..] == Text(|payload1|) + [0x20] + (payload1 + []);
    assert tail2[1..] == Text(|payload2|) + [0x20] + (payload2 + []);
    FieldIsReadable(payload1, [], payload2, []);
  }
}
