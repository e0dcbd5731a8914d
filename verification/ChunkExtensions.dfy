/**
 Chunk extensions of section 7.1.1 of RFC 9112. The scanner advances an index over the
 bytes; it is proved to accept exactly the ASCII renderings of a list of extensions.
 */
module ChunkExtensions {
  import opened Basics
  import opened Decimal
  import opened Sequences

  const EQUALS: byte := 0x3D

  /** The token characters of section 5.6.2 of RFC 9110. */
  predicate IsTokenChar(b: byte) {
    || IsDigit(b) || 0x41 <= b <= 0x5A || 0x61 <= b <= 0x7A
    || b in {0x21, 0x23, 0x24, 0x25, 0x26, 0x27, 0x2A, 0x2B, 0x2D, 0x2E, 0x5E, 0x5F, 0x60, 0x7C, 0x7E}
  }

  predicate IsWs(b: byte) { b == 0x20 || b == 0x09 }

  /** A character the scanner lets stand for itself inside a quoted string. */
  predicate IsPlain(b: byte) {
    b == 0x09 || 0x20 <= b <= 0x21 || 0x23 <= b <= 0x5B || 0x5D <= b <= 0x7E
  }

  predicate IsEscapable(b: byte) { b == 0x09 || 0x20 <= b <= 0x7E }

  /** The obs-text characters of section 5.5 of RFC 9110, which the scanner refuses. */
  predicate IsObsText(b: byte) { 0x80 <= b }

  predicate IsAscii(s: Bytes) { forall i :: 0 <= i < |s| ==> s[i] < 0x80 }

  predicate AllWs(s: Bytes) { forall i :: 0 <= i < |s| ==> IsWs(s[i]) }

  predicate IsToken(s: Bytes) { |s| > 0 && forall i :: 0 <= i < |s| ==> IsTokenChar(s[i]) }

  /******* The grammar *******/

  datatype Unit = Plain(b: byte) | Escaped(b: byte)
  {
    predicate Valid() { IsObsText(b) || if Plain? then IsPlain(b) else IsEscapable(b) }
    function Text(): Bytes { if Plain? then [b] else [BACKSLASH, b] }
  }

  datatype Value = Token(text: Bytes) | Quoted(units: seq<Unit>)
  {
    predicate Valid() { if Token? then IsToken(text) else forall i :: 0 <= i < |units| ==> units[i].Valid() }
    function Text(): Bytes { if Token? then text else [QUOTE] + UnitsText(units) + [QUOTE] }
  }

  function UnitsText(units: seq<Unit>): Bytes {
    if units == [] then [] else units[0].Text() + UnitsText(units[1..])
  }

  /** BWS ";" BWS name [ BWS "=" BWS value ] */
  datatype Extension = Extension(w0: Bytes, w1: Bytes, name: Bytes, setting: Option<Setting>)
  {
    predicate Valid() {
      AllWs(w0) && AllWs(w1) && IsToken(name) && (setting.Some? ==> setting.value.Valid())
    }

    function Name(): Bytes { [SEMICOLON] + (w1 + name) }

    function Rest(): Bytes { if setting.None? then [] else setting.value.Text() }

    function Text(): Bytes { w0 + (Name() + Rest()) }
  }

  datatype Setting = Setting(w2: Bytes, w3: Bytes, value: Value)
  {
    predicate Valid() { AllWs(w2) && AllWs(w3) && value.Valid() }

    function Text(): Bytes { w2 + ([EQUALS] + (w3 + value.Text())) }
  }

  function Render(extensions: seq<Extension>): Bytes {
    if extensions == [] then [] else extensions[0].Text() + Render(extensions[1..])
  }

  ghost predicate AllValid(extensions: seq<Extension>) {
    forall i :: 0 <= i < |extensions| ==> extensions[i].Valid()
  }

  /** Nothing, or one or more extensions and optional trailing whitespace. */
  ghost predicate IsExtensionList(s: Bytes) {
    s == [] || exists extensions: seq<Extension>, tail: Bytes ::
      extensions != [] && AllValid(extensions) && AllWs(tail) && s == Render(extensions) + tail
  }

  /******* What the scanner computes, on the bytes from its index on *******/

  function SkipWs(s: Bytes): (r: Bytes)
    ensures |r| <= |s|
  {
    if s != [] && IsWs(s[0]) then SkipWs(s[1..]) else s
  }

  function SkipToken(s: Bytes): (r: Bytes)
    ensures |r| <= |s|
  {
    if s != [] && IsTokenChar(s[0]) then SkipToken(s[1..]) else s
  }

  /** What follows the closing quote, given what follows the opening one. */
  function SkipQuoted(s: Bytes): (r: Option<Bytes>)
    ensures r.Some? ==> |r.value| < |s|
  {
    if s == [] then None
    else if s[0] == QUOTE then Some(s[1..])
    else if s[0] == BACKSLASH then
      if |s| >= 2 && IsEscapable(s[1]) then SkipQuoted(s[2..]) else None
    else if IsPlain(s[0]) then SkipQuoted(s[1..]) else None
  }

  function SkipValue(s: Bytes): (r: Option<Bytes>)
    ensures r.Some? ==> |r.value| < |s|
  {
    if s == [] then None
    else if s[0] == QUOTE then SkipQuoted(s[1..])
    else if |SkipToken(s)| == |s| then None
    else Some(SkipToken(s))
  }

  /** What follows the semicolon and the name of an extension. */
  function SkipName(s: Bytes): (r: Option<Bytes>)
    ensures r.Some? ==> |r.value| < |s|
  {
    var s1 := SkipWs(s);
    if s1 == [] || s1[0] != SEMICOLON then None
    else
      var s2 := SkipWs(s1[1..]);
      if |SkipToken(s2)| == |s2| then None else Some(SkipToken(s2))
  }

  /** What follows the value, if there is one, and the whitespace before it. */
  function SkipSetting(s: Bytes): (r: Option<Bytes>)
    ensures r.Some? ==> |r.value| <= |s|
  {
    var s1 := SkipWs(s);
    if s1 != [] && s1[0] == EQUALS then SkipValue(SkipWs(s1[1..])) else Some(s1)
  }

  /** What follows one extension and the whitespace after it. */
  function SkipExtension(s: Bytes): (r: Option<Bytes>)
    ensures r.Some? ==> |r.value| < |s|
  {
    if SkipName(s).None? || SkipSetting(SkipName(s).value).None? then None
    else
      var rest := SkipWs(SkipSetting(SkipName(s).value).value);
      if rest != [] && rest[0] != SEMICOLON then None else Some(rest)
  }

  predicate Accepts(s: Bytes)
    decreases |s|
  {
    s == [] || (SkipExtension(s).Some? && Accepts(SkipExtension(s).value))
  }

  /******* The scanner *******/

  method SkipOptionalWhitespace(value: Bytes, start: nat) returns (index: nat)
    requires start <= |value|
    ensures start <= index <= |value|
    ensures value[index..] == SkipWs(value[start..])
  {
    index := start;
    while index < |value| && IsWs(value[index])
      invariant start <= index <= |value|
      invariant SkipWs(value[start..]) == SkipWs(value[index..])
    {
      assert value[index..][1..] == value[index + 1..];
      index := index + 1;
    }
  }

  method ConsumeToken(value: Bytes, start: nat) returns (index: nat)
    requires start <= |value|
    ensures start <= index <= |value|
    ensures value[index..] == SkipToken(value[start..])
  {
    index := start;
    while index < |value| && IsTokenChar(value[index])
      invariant start <= index <= |value|
      invariant SkipToken(value[start..]) == SkipToken(value[index..])
    {
      assert value[index..][1..] == value[index + 1..];
      index := index + 1;
    }
  }

  lemma SuffixOf(value: Bytes, index: nat)
    requires index < |value|
    ensures value[index..][0] == value[index] && value[index..][1..] == value[index + 1..]
  {
  }

  /** Returns -1 where the source does. */
  method ConsumeQuotedString(value: Bytes, start: nat) returns (index: int)
    requires start < |value|
    ensures index == -1 || start < index <= |value|
    ensures SkipQuoted(value[start + 1..]) == if index == -1 then None else Some(value[index..])
  {
    index := start + 1;
    while index < |value|
      invariant start < index <= |value|
      invariant SkipQuoted(value[start + 1..]) == SkipQuoted(value[index..])
    {
      var character := value[index];
      ghost var rest := value[index..];
      SuffixOf(value, index);
      if character == QUOTE { return index + 1; }
      if character == BACKSLASH {
        index := index + 1;
        if index >= |value| || !(value[index] == 0x09 || 0x20 <= value[index] <= 0x7E) { return -1; }
        SuffixOf(value, index);
        assert rest[2..] == rest[1..][1..];
      } else if !(character == 0x09 || 0x20 <= character <= 0x21 || 0x23 <= character <= 0x5B
                  || 0x5D <= character <= 0x7E) {
        return -1;
      }
      index := index + 1;
    }
    index := -1;
  }

  /** The part of the loop below that reads an optional "=" and value; -1 where it gives up. */
  method ConsumeSetting(value: Bytes, start: nat) returns (index: int)
    requires start <= |value|
    ensures index == -1 || start <= index <= |value|
    ensures SkipSetting(value[start..]) == if index == -1 then None else Some(value[index..])
  {
    index := SkipOptionalWhitespace(value, start);
    if index < |value| && value[index] == EQUALS {
      assert value[index..][1..] == value[index + 1..];
      index := SkipOptionalWhitespace(value, index + 1);
      if index >= |value| { return -1; }
      if value[index] == QUOTE {
        assert value[index..][1..] == value[index + 1..];
        index := ConsumeQuotedString(value, index);
      } else {
        var valueEnd := ConsumeToken(value, index);
        if valueEnd == index { return -1; }
        index := valueEnd;
      }
    }
  }

  method ValidChunkExtensions(extensions: Bytes) returns (valid: bool)
    ensures valid == Accepts(extensions)
  {
    var index: nat := 0;
    assert extensions[0..] == extensions;
    while index < |extensions|
      invariant 0 <= index <= |extensions|
      invariant Accepts(extensions) == Accepts(extensions[index..])
    {
      ghost var here := extensions[index..];
      index := SkipOptionalWhitespace(extensions, index);
      if index >= |extensions| || extensions[index] != SEMICOLON { return false; }
      assert extensions[index..][1..] == extensions[index + 1..];
      index := SkipOptionalWhitespace(extensions, index + 1);
      var nameEnd := ConsumeToken(extensions, index);
      if nameEnd == index { return false; }
      assert SkipName(here) == Some(extensions[nameEnd..]);
      var settingEnd := ConsumeSetting(extensions, nameEnd);
      if settingEnd < 0 { return false; }
      index := SkipOptionalWhitespace(extensions, settingEnd);
      if index < |extensions| && extensions[index] != SEMICOLON { return false; }
      assert SkipExtension(here) == Some(extensions[index..]);
    }
    valid := true;
  }

  /******* Soundness and completeness *******/

  lemma {:induction false} SkippedWs(s: Bytes) returns (w: Bytes)
    ensures AllWs(w) && s == w + SkipWs(s) && (SkipWs(s) == [] || !IsWs(SkipWs(s)[0]))
  {
    if s != [] && IsWs(s[0]) {
      var more := SkippedWs(s[1..]);
      w := [s[0]] + more;
      assert s == [s[0]] + s[1..];
    } else {
      w := [];
    }
  }

  lemma {:induction false} SkippedToken(s: Bytes) returns (t: Bytes)
    ensures forall i :: 0 <= i < |t| ==> IsTokenChar(t[i])
    ensures s == t + SkipToken(s) && (SkipToken(s) == [] || !IsTokenChar(SkipToken(s)[0]))
  {
    if s != [] && IsTokenChar(s[0]) {
      var more := SkippedToken(s[1..]);
      t := [s[0]] + more;
      assert s == [s[0]] + s[1..];
    } else {
      t := [];
    }
  }

  /** Whitespace in front of something else is what gets skipped. */
  lemma {:induction false} WsIsSkipped(w: Bytes, rest: Bytes)
    requires AllWs(w)
    ensures SkipWs(w + rest) == SkipWs(rest)
  {
    if w != [] {
      assert (w + rest)[1..] == w[1..] + rest;
      WsIsSkipped(w[1..], rest);
    } else {
      assert w + rest == rest;
    }
  }

  lemma {:induction false} TokenIsSkipped(t: Bytes, rest: Bytes)
    requires forall i :: 0 <= i < |t| ==> IsTokenChar(t[i])
    requires rest == [] || !IsTokenChar(rest[0])
    ensures SkipToken(t + rest) == rest
  {
    if t != [] {
      assert (t + rest)[1..] == t[1..] + rest;
      TokenIsSkipped(t[1..], rest);
    } else {
      assert t + rest == rest;
    }
  }

  lemma PartsAreAscii(a: Bytes, b: Bytes)
    ensures IsAscii(a + b) <==> IsAscii(a) && IsAscii(b)
  {
    assert forall i :: 0 <= i < |a| ==> (a + b)[i] == a[i];
    assert forall i :: 0 <= i < |b| ==> (a + b)[|a| + i] == b[i];
  }

  lemma {:induction false} QuotedIsSkipped(units: seq<Unit>, rest: Bytes)
    requires (forall i :: 0 <= i < |units| ==> units[i].Valid()) && IsAscii(UnitsText(units))
    ensures SkipQuoted(UnitsText(units) + [QUOTE] + rest) == Some(rest)
  {
    var s := UnitsText(units) + [QUOTE] + rest;
    if units == [] {
      assert s[1..] == rest;
    } else {
      var u := units[0];
      assert IsAscii(u.Text()) && IsAscii(UnitsText(units[1..])) by { PartsAreAscii(u.Text(), UnitsText(units[1..])); }
      assert u.Text()[|u.Text()| - 1] == u.b;
      QuotedIsSkipped(units[1..], rest);
      assert s == u.Text() + (UnitsText(units[1..]) + [QUOTE] + rest);
      assert s[|u.Text()|..] == UnitsText(units[1..]) + [QUOTE] + rest;
    }
  }

  lemma {:induction false} SkippedQuoted(s: Bytes) returns (units: seq<Unit>)
    requires SkipQuoted(s).Some?
    ensures forall i :: 0 <= i < |units| ==> units[i].Valid()
    ensures s == UnitsText(units) + [QUOTE] + SkipQuoted(s).value && IsAscii(UnitsText(units))
  {
    if s[0] == QUOTE {
      units := [];
    } else if s[0] == BACKSLASH {
      var more := SkippedQuoted(s[2..]);
      units := [Escaped(s[1])] + more;
      assert s == [s[0], s[1]] + s[2..];
    } else {
      var more := SkippedQuoted(s[1..]);
      units := [Plain(s[0])] + more;
      assert s == [s[0]] + s[1..];
    }
  }

  lemma {:induction false} WsSkippedTwice(s: Bytes)
    ensures SkipWs(SkipWs(s)) == SkipWs(s)
  {
    if s != [] && IsWs(s[0]) { WsSkippedTwice(s[1..]); }
  }

  /** The value the scanner passes over, and what follows it. */
  lemma SkippedValue(s: Bytes) returns (v: Value)
    requires SkipValue(s).Some?
    ensures v.Valid() && s == v.Text() + SkipValue(s).value && IsAscii(v.Text())
  {
    if s[0] == QUOTE {
      var units := SkippedQuoted(s[1..]);
      v := Quoted(units);
      assert s == [QUOTE] + s[1..];
    } else {
      var t := SkippedToken(s);
      v := Token(t);
    }
  }

  lemma SkippedName(s: Bytes) returns (w0: Bytes, w1: Bytes, name: Bytes)
    requires SkipName(s).Some?
    ensures AllWs(w0) && AllWs(w1) && IsToken(name)
    ensures s == w0 + ([SEMICOLON] + (w1 + name)) + SkipName(s).value
  {
    hide SkipWs, SkipToken;
    var s1 := SkipWs(s);
    w0 := SkippedWs(s);
    var s2 := SkipWs(s1[1..]);
    w1 := SkippedWs(s1[1..]);
    name := SkippedToken(s2);
    assert s1 == [SEMICOLON] + s1[1..];
    Regroup([SEMICOLON], w1 + name, SkipName(s).value);
    Regroup(w1, name, SkipName(s).value);
    Regroup(w0, [SEMICOLON] + (w1 + name), SkipName(s).value);
  }

  lemma SettingText(w2: Bytes, w3: Bytes, v: Value, rest: Bytes)
    requires AllWs(w2) && AllWs(w3) && v.Valid() && IsAscii(v.Text())
    ensures var setting := Setting(w2, w3, v);
            && setting.Valid() && IsAscii(setting.Text())
            && setting.Text() + rest == w2 + ([EQUALS] + (w3 + (v.Text() + rest)))
  {
    hide Value.Text;
    PartsAreAscii(w2, [EQUALS] + (w3 + v.Text()));
    PartsAreAscii([EQUALS], w3 + v.Text());
    PartsAreAscii(w3, v.Text());
    Regroup(w3, v.Text(), rest);
    Regroup([EQUALS], w3 + v.Text(), rest);
    Regroup(w2, [EQUALS] + (w3 + v.Text()), rest);
  }

  /** The text of an optional setting, and what follows it up to whitespace. */
  lemma SkippedSetting(s: Bytes) returns (setting: Option<Setting>, rest: Bytes)
    requires SkipSetting(s).Some?
    ensures setting.Some? ==> setting.value.Valid() && IsAscii(setting.value.Text())
    ensures s == (if setting.None? then [] else setting.value.Text()) + rest
    ensures SkipWs(rest) == SkipWs(SkipSetting(s).value)
  {
    hide SkipToken, SkipQuoted, SkipValue, Value.Valid, Value.Text, Setting.Valid, Setting.Text, IsAscii;
    var s1 := SkipWs(s);
    if s1 != [] && s1[0] == EQUALS {
      var w2 := SkippedWs(s);
      var t := SkipWs(s1[1..]);
      var w3 := SkippedWs(s1[1..]);
      var v := SkippedValue(t);
      rest := SkipValue(t).value;
      setting := Some(Setting(w2, w3, v));
      assert s1 == [EQUALS] + s1[1..];
      SettingText(w2, w3, v, rest);
    } else {
      setting, rest := None, s;
      WsSkippedTwice(s);
    }
  }

  /** One step of the scanner passes over one extension and the whitespace after it. */
  lemma SkippedExtension(s: Bytes) returns (e: Extension, rest: Bytes)
    requires SkipExtension(s).Some?
    ensures e.Valid() && s == e.Text() + rest && SkipWs(rest) == SkipExtension(s).value && IsAscii(e.Text())
  {
    var w0, w1, name := SkippedName(s);
    var setting;
    setting, rest := SkippedSetting(SkipName(s).value);
    e := Extension(w0, w1, name, setting);
    Regroup(w0 + e.Name(), e.Rest(), rest);
    Regroup(w0, e.Name(), e.Rest());
  }

  /** Everything accepted is a list of extensions; p is the whitespace already passed over. */
  lemma {:induction false} AcceptedIsRendered(p: Bytes, s: Bytes) returns (extensions: seq<Extension>, tail: Bytes)
    requires AllWs(p) && Accepts(s)
    ensures AllValid(extensions) && AllWs(tail) && p + s == Render(extensions) + tail && IsAscii(p + s)
    ensures s != [] ==> extensions != []
    decreases |s|
  {
    if s == [] {
      extensions, tail := [], p;
      assert Render(extensions) == [];
    } else {
      var e, rest := SkippedExtension(s);
      var w := SkippedWs(rest);
      var next := SkipExtension(s).value;
      var more;
      more, tail := AcceptedIsRendered(w, next);
      var first := e.(w0 := p + e.w0);
      extensions := [first] + more;
      assert extensions[1..] == more;
      PrefixedText(p, e, first);
      Regroup(p, e.Text(), rest);
      Regroup(first.Text(), Render(more), tail);
    }
  }

  lemma PrefixedText(p: Bytes, e: Extension, first: Extension)
    requires AllWs(p) && e.Valid() && first == e.(w0 := p + e.w0)
    ensures first.Valid() && first.Text() == p + e.Text()
  {
    Regroup(p, e.w0, e.Name() + e.Rest());
  }

  lemma ValueIsSkipped(v: Value, rest: Bytes)
    requires v.Valid() && IsAscii(v.Text()) && (rest == [] || !IsTokenChar(rest[0]))
    ensures SkipValue(v.Text() + rest) == Some(rest)
  {
    match v
    case Token(text) => TokenIsSkipped(text, rest);
    case Quoted(units) =>
      PartsAreAscii([QUOTE] + UnitsText(units), [QUOTE]);
      PartsAreAscii([QUOTE], UnitsText(units));
      QuotedIsSkipped(units, rest);
      assert (v.Text() + rest)[1..] == UnitsText(units) + [QUOTE] + rest;
  }

  /** What may follow an extension: whitespace, then nothing or a semicolon. */
  predicate Ends(rest: Bytes) { SkipWs(rest) == [] || SkipWs(rest)[0] == SEMICOLON }

  lemma ValueStarts(v: Value)
    requires v.Valid()
    ensures v.Text() != [] && !IsWs(v.Text()[0])
  {
  }

  lemma NameIsSkipped(e: Extension, rest: Bytes)
    requires e.Valid() && (rest == [] || !IsTokenChar(rest[0]))
    ensures SkipName(e.w0 + (e.Name() + rest)) == Some(rest)
  {
    var s1 := e.Name() + rest;
    WsIsSkipped(e.w0, s1);
    var s2 := e.name + rest;
    assert s1[1..] == e.w1 + s2;
    WsIsSkipped(e.w1, s2);
    TokenIsSkipped(e.name, rest);
  }

  lemma EndsWithoutToken(rest: Bytes)
    requires Ends(rest)
    ensures rest == [] || !IsTokenChar(rest[0])
  {
  }

  lemma StaysWithoutWs(s: Bytes)
    requires s != [] && !IsWs(s[0])
    ensures SkipWs(s) == s
  {
  }

  lemma SettingIsSkipped(setting: Setting, rest: Bytes)
    requires setting.Valid() && IsAscii(setting.Text()) && Ends(rest)
    ensures SkipSetting(setting.Text() + rest) == Some(rest)
    ensures var s := setting.Text() + rest; !IsTokenChar(s[0])
  {
    hide SkipQuoted, SkipToken, SkipValue, SkipWs;
    var t := setting.value.Text() + rest;
    var s1 := [EQUALS] + (setting.w3 + t);
    assert setting.Text() + rest == setting.w2 + s1;
    WsIsSkipped(setting.w2, s1);
    assert s1[1..] == setting.w3 + t;
    WsIsSkipped(setting.w3, t);
    ValueStarts(setting.value);
    EndsWithoutToken(rest);
    StaysWithoutWs(s1);
    StaysWithoutWs(t);
    PartsAreAscii(setting.w2, [EQUALS] + (setting.w3 + setting.value.Text()));
    PartsAreAscii([EQUALS], setting.w3 + setting.value.Text());
    PartsAreAscii(setting.w3, setting.value.Text());
    ValueIsSkipped(setting.value, rest);
  }

  lemma NoSettingIsSkipped(rest: Bytes)
    requires Ends(rest)
    ensures SkipSetting(rest) == Some(SkipWs(rest)) && SkipWs(SkipWs(rest)) == SkipWs(rest)
  {
    WsSkippedTwice(rest);
  }

  lemma ExtensionIsSkipped(e: Extension, rest: Bytes)
    requires e.Valid() && IsAscii(e.Text()) && Ends(rest)
    ensures SkipExtension(e.Text() + rest) == Some(SkipWs(rest))
  {
    hide SkipToken, SkipName, SkipSetting, SkipWs, IsTokenChar, IsAscii, Value.Valid, Value.Text;
    var after := e.Rest() + rest;
    EndsWithoutToken(rest);
    if e.setting.None? {
      assert after == rest;
      NoSettingIsSkipped(rest);
    } else {
      PartsAreAscii(e.w0, e.Name() + e.Rest());
      PartsAreAscii(e.Name(), e.Rest());
      SettingIsSkipped(e.setting.value, rest);
    }
    NameIsSkipped(e, after);
    Regroup(e.w0, e.Name() + e.Rest(), rest);
    Regroup(e.Name(), e.Rest(), rest);
  }

  lemma ListEnds(extensions: seq<Extension>, tail: Bytes)
    requires AllValid(extensions) && AllWs(tail)
    ensures Ends(Render(extensions) + tail)
  {
    if extensions == [] {
      WsIsSkipped(tail, []);
      assert tail + [] == tail == Render(extensions) + tail;
    } else {
      var e := extensions[0];
      var more := Render(extensions[1..]) + tail;
      Regroup(e.Text(), Render(extensions[1..]), tail);
      Regroup(e.w0, e.Name() + e.Rest(), more);
      WsIsSkipped(e.w0, e.Name() + e.Rest() + more);
    }
  }

  lemma {:induction false} RenderedIsAccepted(extensions: seq<Extension>, tail: Bytes)
    requires AllValid(extensions) && AllWs(tail) && IsAscii(Render(extensions))
    ensures Accepts(SkipWs(Render(extensions) + tail))
    ensures extensions != [] ==> Accepts(Render(extensions) + tail)
  {
    ListEnds(extensions, tail);
    if extensions == [] {
      WsIsSkipped(tail, []);
      assert tail + [] == tail == Render(extensions) + tail;
    } else {
      var s := Render(extensions) + tail;
      var rest := Render(extensions[1..]) + tail;
      ListEnds(extensions[1..], tail);
      Regroup(extensions[0].Text(), Render(extensions[1..]), tail);
      PartsAreAscii(extensions[0].Text(), Render(extensions[1..]));
      ExtensionIsSkipped(extensions[0], rest);
      RenderedIsAccepted(extensions[1..], tail);
      WsSkippedTwice(s);
      assert SkipExtension(SkipWs(s)) == SkipExtension(s);
    }
  }

  /**
   The scanner accepts exactly the grammar's texts that are ASCII: nothing, or extensions and
   optional trailing whitespace.
   */
  lemma AcceptsExactlyTheGrammar(s: Bytes)
    ensures Accepts(s) <==> IsExtensionList(s) && IsAscii(s)
  {
    if Accepts(s) {
      var extensions, tail := AcceptedIsRendered([], s);
      assert [] + s == s;
    }
    if IsExtensionList(s) && IsAscii(s) && s != [] {
      var extensions: seq<Extension>, tail: Bytes :|
        extensions != [] && AllValid(extensions) && AllWs(tail) && s == Render(extensions) + tail;
      PartsAreAscii(Render(extensions), tail);
      RenderedIsAccepted(extensions, tail);
    }
  }

  /** A list of extensions starts with its first semicolon or with whitespace in front of it. */
  lemma ListStarts(s: Bytes)
    requires IsExtensionList(s) && s != []
    ensures s[0] == SEMICOLON || IsWs(s[0])
  {
    var extensions: seq<Extension>, tail: Bytes :|
      extensions != [] && AllValid(extensions) && AllWs(tail) && s == Render(extensions) + tail;
    assert s[0] == extensions[0].Text()[0];
  }

  lemma {:induction false} UnitsHaveNoLineFeed(units: seq<Unit>)
    requires forall i :: 0 <= i < |units| ==> units[i].Valid()
    ensures LF !in UnitsText(units)
  {
    if units != [] { UnitsHaveNoLineFeed(units[1..]); }
  }

  lemma ExtensionHasNoLineFeed(e: Extension)
    requires e.Valid()
    ensures LF !in e.Text()
  {
    assert LF !in e.w0 && LF !in e.Name();
    if e.setting.Some? {
      var v := e.setting.value.value;
      if v.Quoted? { UnitsHaveNoLineFeed(v.units); }
      assert LF !in v.Text();
      assert LF !in e.setting.value.w2 && LF !in e.setting.value.w3;
    }
    assert LF !in e.Rest();
  }

  lemma {:induction false} RenderHasNoLineFeed(extensions: seq<Extension>)
    requires AllValid(extensions)
    ensures LF !in Render(extensions)
  {
    if extensions != [] {
      ExtensionHasNoLineFeed(extensions[0]);
      RenderHasNoLineFeed(extensions[1..]);
    }
  }

  /** A list of extensions cannot end the line it stands in. */
  lemma ListHasNoLineFeed(s: Bytes)
    requires IsExtensionList(s)
    ensures LF !in s
  {
    if s != [] {
      var extensions: seq<Extension>, tail: Bytes :|
        extensions != [] && AllValid(extensions) && AllWs(tail) && s == Render(extensions) + tail;
      RenderHasNoLineFeed(extensions);
    }
  }
}
