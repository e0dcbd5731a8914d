/**
 Canonical base64: the decoder is lenient about the bits behind the last byte, the check
 behind it is not. Texts are sequences of code points.
 */
module Base64 {
  import opened Basics
  import opened Decimal

  type Text = seq<int>

  /** Six bits, or the padding behind the last of them. */
  type Sextet = v: int | 0 <= v <= PADDING
  const PADDING := 64

  /** The character for six bits: section 4 of RFC 4648, or its section 5. */
  function Symbol(v: Sextet, url: bool): int {
    if v < 26 then 0x41 + v
    else if v < 52 then 0x61 + (v - 26)
    else if v < 62 then 0x30 + (v - 52)
    else if v == 62 then (if url then 0x2D else 0x2B)
    else if v == 63 then (if url then 0x5F else 0x2F)
    else 0x3D
  }

  /** What a character of section 4 stands for. */
  function Meaning(c: int): Option<Sextet> {
    if 0x41 <= c <= 0x5A then Some(c - 0x41)
    else if 0x61 <= c <= 0x7A then Some(c - 0x61 + 26)
    else if 0x30 <= c <= 0x39 then Some(c - 0x30 + 52)
    else if c == 0x2B then Some(62)
    else if c == 0x2F then Some(63)
    else if c == 0x3D then Some(PADDING)
    else None
  }

  /** Three bytes in four sextets; a last group of one or two bytes is padded. */
  function Pack(bytes: Bytes): (six: seq<Sextet>)
    ensures |six| == 4 * ((|bytes| + 2) / 3)
  {
    if bytes == [] then []
    else if |bytes| == 1 then [bytes[0] / 4, bytes[0] % 4 * 16, PADDING, PADDING]
    else if |bytes| == 2 then [bytes[0] / 4, bytes[0] % 4 * 16 + bytes[1] / 16, bytes[1] % 16 * 4, PADDING]
    else
      [bytes[0] / 4, bytes[0] % 4 * 16 + bytes[1] / 16, bytes[1] % 16 * 4 + bytes[2] / 64, bytes[2] % 64]
      + Pack(bytes[3..])
  }

  function FirstByte(v: Sextet, w: Sextet): byte
    requires v < PADDING && w < PADDING
  {
    v * 4 + w / 16
  }

  function SecondByte(w: Sextet, x: Sextet): byte
    requires x < PADDING
  {
    w % 16 * 16 + x / 4
  }

  function ThirdByte(x: Sextet, y: Sextet): byte
    requires y < PADDING
  {
    x % 4 * 64 + y
  }

  /** Strict about where padding stands, lenient about the bits in front of it. */
  function Unpack(six: seq<Sextet>): Option<Bytes> {
    if six == [] then Some([])
    else if |six| < 4 || six[0] == PADDING || six[1] == PADDING then None
    else
      var a := FirstByte(six[0], six[1]);
      if |six| == 4 && six[2] == PADDING && six[3] == PADDING then Some([a])
      else if six[2] == PADDING then None
      else
        var b := SecondByte(six[1], six[2]);
        if |six| == 4 && six[3] == PADDING then Some([a, b])
        else if six[3] == PADDING || Unpack(six[4..]).None? then None
        else Some([a, b, ThirdByte(six[2], six[3])] + Unpack(six[4..]).value)
  }

  function Encode(bytes: Bytes, url: bool): (text: Text)
    ensures |text| == 4 * ((|bytes| + 2) / 3)
  {
    var six := Pack(bytes);
    seq(|six|, i requires 0 <= i < |six| => Symbol(six[i], url))
  }

  function Decode(text: Text): Option<Bytes> {
    if exists i :: 0 <= i < |text| && Meaning(text[i]).None? then None
    else Unpack(seq(|text|, i requires 0 <= i < |text| && Meaning(text[i]).Some? => Meaning(text[i]).value))
  }

  /** Turns the section 5 symbols into the section 4 ones. */
  function Translate(text: Text): (r: Text)
    ensures |r| == |text|
  {
    seq(|text|, i requires 0 <= i < |text| =>
      if text[i] == 0x2D then 0x2B else if text[i] == 0x5F then 0x2F else text[i])
  }

  predicate IsAscii(text: Text) { forall i :: 0 <= i < |text| ==> 0 <= text[i] < 128 }

  function DecodeCanonical(text: Text, expected: Option<nat>, allowUrl: bool): Option<Bytes> {
    if !IsAscii(text) then None
    else
      var decoded := Decode(if allowUrl then Translate(text) else text);
      if decoded.None? then None
      else if text != Encode(decoded.value, false) && !(allowUrl && text == Encode(decoded.value, true)) then None
      else if expected.Some? && |decoded.value| != expected.value then None
      else decoded
  }

  lemma OneByte(a: byte)
    ensures FirstByte(a / 4, a % 4 * 16) == a
  {
  }

  lemma TwoBytes(a: byte, b: byte, low: nat)
    requires low < 4
    ensures FirstByte(a / 4, a % 4 * 16 + b / 16) == a
    ensures SecondByte(a % 4 * 16 + b / 16, b % 16 * 4 + low) == b
  {
    assert (a % 4 * 16 + b / 16) / 16 == a % 4 && (a % 4 * 16 + b / 16) % 16 == b / 16;
  }

  lemma ThreeBytes(b: byte, c: byte)
    ensures ThirdByte(b % 16 * 4 + c / 64, c % 64) == c
  {
    assert (b % 16 * 4 + c / 64) % 4 == c / 64;
  }

  lemma {:induction false} UnpackInvertsPack(bytes: Bytes)
    ensures Unpack(Pack(bytes)) == Some(bytes)
  {
    hide FirstByte, SecondByte, ThirdByte;
    if |bytes| == 1 {
      OneByte(bytes[0]);
      assert Unpack(Pack(bytes)) == Some([bytes[0]]);
      assert bytes == [bytes[0]];
    } else if |bytes| == 2 {
      var six := Pack(bytes);
      TwoBytes(bytes[0], bytes[1], 0);
      assert SecondByte(six[1], six[2]) == bytes[1];
      assert Unpack(six) == Some([bytes[0], bytes[1]]);
      assert bytes == [bytes[0], bytes[1]];
    } else if |bytes| >= 3 {
      UnpackInvertsPack(bytes[3..]);
      TwoBytes(bytes[0], bytes[1], bytes[2] / 64);
      ThreeBytes(bytes[1], bytes[2]);
      assert Pack(bytes)[4..] == Pack(bytes[3..]);
      assert bytes == [bytes[0], bytes[1], bytes[2]] + bytes[3..];
    }
  }

  /** Decoding inverts encoding. */
  lemma DecodeInvertsEncode(bytes: Bytes)
    ensures Decode(Encode(bytes, false)) == Some(bytes)
  {
    hide Unpack, Pack;
    var six, text := Pack(bytes), Encode(bytes, false);
    assert forall i :: 0 <= i < |text| ==> Meaning(text[i]) == Some(six[i]);
    assert six == seq(|text|, i requires 0 <= i < |text| && Meaning(text[i]).Some? => Meaning(text[i]).value);
    UnpackInvertsPack(bytes);
  }

  /** Both alphabets, in both directions. */
  lemma EncodedText(bytes: Bytes)
    ensures IsAscii(Encode(bytes, false)) && IsAscii(Encode(bytes, true))
    ensures forall i :: 0 <= i < |Encode(bytes, false)| ==> Encode(bytes, false)[i] !in {0x2D, 0x5F}
    ensures forall i :: 0 <= i < |Encode(bytes, true)| ==> Encode(bytes, true)[i] !in {0x2B, 0x2F}
    ensures Translate(Encode(bytes, false)) == Encode(bytes, false)
    ensures Translate(Encode(bytes, true)) == Encode(bytes, false)
  {
    hide Pack;
  }

  /** Accepted are exactly the standard encoding of the bytes and, where allowed, the URL-safe one. */
  lemma AcceptsExactlyTheEncodings(text: Text, expected: Option<nat>, allowUrl: bool, bytes: Bytes)
    ensures DecodeCanonical(text, expected, allowUrl) == Some(bytes)
            <==> (text == Encode(bytes, false) || (allowUrl && text == Encode(bytes, true)))
                 && (expected.Some? ==> |bytes| == expected.value)
  {
    hide Encode, Decode, Translate;
    EncodedText(bytes);
    DecodeInvertsEncode(bytes);
  }

  /** No accepted text takes symbols from both alphabets. */
  lemma NoMixedAlphabets(text: Text, expected: Option<nat>, allowUrl: bool)
    requires DecodeCanonical(text, expected, allowUrl).Some?
    ensures (forall i :: 0 <= i < |text| ==> text[i] !in {0x2D, 0x5F})
         || (allowUrl && forall i :: 0 <= i < |text| ==> text[i] !in {0x2B, 0x2F})
  {
    hide Encode, Decode, Translate;
    EncodedText(DecodeCanonical(text, expected, allowUrl).value);
  }

  /** The lenient bits are why the canonical check is there: "QR==" decodes, and is refused. */
  lemma DecodableButNotCanonical()
    ensures var text := [0x51, 0x52, 0x3D, 0x3D];
            Decode(text) == Some([0x41]) && DecodeCanonical(text, None, true).None?
  {
    var text := [0x51, 0x52, 0x3D, 0x3D];
    assert Translate(text) == text;
    var six: seq<Sextet> := [16, 17, PADDING, PADDING];
    assert six == seq(|text|, i requires 0 <= i < |text| && Meaning(text[i]).Some? => Meaning(text[i]).value);
    assert Unpack(six) == Some([0x41]);
    assert Encode([0x41], false)[1] == 0x51 && Encode([0x41], true)[1] == 0x51;
  }
}
