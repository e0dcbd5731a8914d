/**
 The nesting scanner in front of the JSON parser, against the grammar of RFC 8259:
 every value in every layout, with brackets and escapes inside strings.
 */
module JsonNesting {
  import opened Basics
  import opened Decimal

  const COMMA: byte := 0x2C

  predicate IsOpening(b: byte) { b == 0x5B || b == 0x7B }
  predicate IsClosing(b: byte) { b == 0x5D || b == 0x7D }

  /******* The scanner *******/

  datatype State = State(depth: nat, inString: bool, escaped: bool)

  function Step(st: State, b: byte): State {
    if st.inString then
      if st.escaped then st.(escaped := false)
      else if b == BACKSLASH then st.(escaped := true)
      else if b == QUOTE then st.(inString := false)
      else st
    else if b == QUOTE then st.(inString := true)
    else if IsOpening(b) then st.(depth := st.depth + 1)
    else if IsClosing(b) then st.(depth := if st.depth == 0 then 0 else st.depth - 1)
    else st
  }

  function After(st: State, s: Bytes): State
    decreases |s|
  {
    if s == [] then st else After(Step(st, s[0]), s[1..])
  }

  /** Whether some opening bracket takes the depth beyond the limit. */
  predicate Exceeds(st: State, s: Bytes, limit: int)
    decreases |s|
  {
    s != [] &&
    ((!st.inString && IsOpening(s[0]) && st.depth + 1 > limit) || Exceeds(Step(st, s[0]), s[1..], limit))
  }

  method JsonNestingExceeds(payload: Bytes, limit: int) returns (exceeds: bool)
    ensures exceeds == Exceeds(State(0, false, false), payload, limit)
  {
    var depth: nat := 0;
    var inString, escaped := false, false;
    var i := 0;
    assert payload[0..] == payload;
    while i < |payload|
      invariant 0 <= i <= |payload|
      invariant Exceeds(State(0, false, false), payload, limit)
             == Exceeds(State(depth, inString, escaped), payload[i..], limit)
    {
      var character := payload[i];
      assert payload[i..][1..] == payload[i + 1..];
      i := i + 1;
      if inString {
        if escaped {
          escaped := false;
        } else if character == BACKSLASH {
          escaped := true;
        } else if character == QUOTE {
          inString := false;
        }
      } else if character == QUOTE {
        inString := true;
      } else if character in [0x5B, 0x7B] {
        depth := depth + 1;
        if depth > limit { return true; }
      } else if character in [0x5D, 0x7D] {
        depth := if depth - 1 > 0 then depth - 1 else 0;
      }
    }
    exceeds := false;
  }

  /******* JSON texts *******/

  predicate IsWs(b: byte) { b in {0x20, 0x09, 0x0A, 0x0D} }

  predicate AllWs(s: Bytes) { forall i :: 0 <= i < |s| ==> IsWs(s[i]) }

  /** One character of a string, or one byte of a character beyond ASCII. */
  datatype Unit = Plain(b: byte) | Escape(b: byte) | Unicode(hex: Bytes)
  {
    predicate Valid() {
      match this
      case Plain(b) => b >= 0x20 && b != QUOTE && b != BACKSLASH
      case Escape(b) => b in {0x22, 0x5C, 0x2F, 0x62, 0x66, 0x6E, 0x72, 0x74}
      case Unicode(hex) => |hex| == 4 && forall i :: 0 <= i < 4 ==> IsHex(hex[i])
    }

    function Text(): Bytes {
      match this
      case Plain(b) => [b]
      case Escape(b) => [BACKSLASH, b]
      case Unicode(hex) => [BACKSLASH, 0x75] + hex
    }
  }

  function UnitsText(units: seq<Unit>): Bytes {
    if units == [] then [] else units[0].Text() + UnitsText(units[1..])
  }

  predicate ValidUnits(units: seq<Unit>) { forall i :: 0 <= i < |units| ==> units[i].Valid() }

  function StringText(units: seq<Unit>): Bytes { [QUOTE] + UnitsText(units) + [QUOTE] }

  /** The digits of a number and of its parts. */
  datatype Number = Number(minus: bool, whole: Bytes, fraction: Option<Bytes>, exponent: Option<Exponent>)
  {
    predicate Valid() {
      && whole != [] && AllDigits(whole) && (|whole| == 1 || whole[0] != 0x30)
      && (fraction.Some? ==> fraction.value != [] && AllDigits(fraction.value))
      && (exponent.Some? ==> exponent.value.Valid())
    }

    function Text(): Bytes {
      (if minus then [0x2D] else []) + whole
      + (if fraction.Some? then [0x2E] + fraction.value else [])
      + (if exponent.Some? then exponent.value.Text() else [])
    }
  }

  datatype Exponent = Exponent(e: byte, sign: Bytes, digits: Bytes)
  {
    predicate Valid() { (e == 0x65 || e == 0x45) && sign in {[], [0x2B], [0x2D]} && digits != [] && AllDigits(digits) }
    function Text(): Bytes { [e] + sign + digits }
  }

  datatype Json =
    | Literal(name: Bytes)
    | Numeral(number: Number)
    | String(units: seq<Unit>)
    | Array(items: Items)
    | Object(items: Items)

  /** What stands between the brackets of an array or object, with its layout. */
  datatype Items =
    | Blank(w: Bytes)
    | Last(item: Item)
    | More(item: Item, rest: Items)

  /** The key is there in objects only. */
  datatype Item = Item(w0: Bytes, key: Option<Key>, value: Json, w1: Bytes)

  datatype Key = Key(units: seq<Unit>, w0: Bytes, w1: Bytes)

  predicate ValidJson(v: Json) {
    match v
    case Literal(name) => name in {Ascii("true"), Ascii("false"), Ascii("null")}
    case Numeral(number) => number.Valid()
    case String(units) => ValidUnits(units)
    case Array(items) => ValidItems(items, false)
    case Object(items) => ValidItems(items, true)
  }

  predicate ValidItems(items: Items, keyed: bool) {
    match items
    case Blank(w) => AllWs(w)
    case Last(item) => ValidItem(item, keyed)
    case More(item, rest) => ValidItem(item, keyed) && !rest.Blank? && ValidItems(rest, keyed)
  }

  predicate ValidItem(item: Item, keyed: bool) {
    && AllWs(item.w0) && AllWs(item.w1) && item.key.Some? == keyed
    && (keyed ==> ValidUnits(item.key.value.units) && AllWs(item.key.value.w0) && AllWs(item.key.value.w1))
    && ValidJson(item.value)
  }

  function Text(v: Json): Bytes {
    match v
    case Literal(name) => name
    case Numeral(number) => number.Text()
    case String(units) => StringText(units)
    case Array(items) => [0x5B] + ItemsText(items) + [0x5D]
    case Object(items) => [0x7B] + ItemsText(items) + [0x7D]
  }

  function ItemsText(items: Items): Bytes {
    match items
    case Blank(w) => w
    case Last(item) => ItemText(item)
    case More(item, rest) => ItemText(item) + ([COMMA] + ItemsText(rest))
  }

  function KeyText(key: Option<Key>): Bytes {
    if key.None? then [] else StringText(key.value.units) + (key.value.w0 + [COLON] + key.value.w1)
  }

  function ItemText(item: Item): Bytes {
    item.w0 + (KeyText(item.key) + (Text(item.value) + item.w1))
  }

  function Max(a: nat, b: nat): nat { if a < b then b else a }

  /** How deep arrays and objects are nested in a value. */
  function Depth(v: Json): nat {
    match v
    case Array(items) => 1 + ItemsDepth(items)
    case Object(items) => 1 + ItemsDepth(items)
    case _ => 0
  }

  function ItemsDepth(items: Items): nat {
    match items
    case Blank(_) => 0
    case Last(item) => Depth(item.value)
    case More(item, rest) => Max(Depth(item.value), ItemsDepth(rest))
  }

  /******* The scanner finds the depth *******/

  function Outside(depth: nat): State { State(depth, false, false) }

  lemma {:induction false} ScanInTwo(st: State, a: Bytes, b: Bytes, limit: int)
    ensures After(st, a + b) == After(After(st, a), b)
    ensures Exceeds(st, a + b, limit) == (Exceeds(st, a, limit) || Exceeds(After(st, a), b, limit))
    decreases |a|
  {
    if a == [] {
      assert a + b == b;
    } else {
      assert (a + b)[1..] == a[1..] + b;
      ScanInTwo(Step(st, a[0]), a[1..], b, limit);
    }
  }

  predicate IsInert(b: byte) { b != QUOTE && !IsOpening(b) && !IsClosing(b) }

  lemma {:induction false} InertIsSkipped(st: State, s: Bytes, limit: int)
    requires !st.inString && forall i :: 0 <= i < |s| ==> IsInert(s[i])
    ensures After(st, s) == st && !Exceeds(st, s, limit)
  {
    if s != [] { InertIsSkipped(st, s[1..], limit); }
  }

  lemma UnitIsSkipped(depth: nat, u: Unit, limit: int)
    requires u.Valid()
    ensures var st := State(depth, true, false); After(st, u.Text()) == st && !Exceeds(st, u.Text(), limit)
  {
    var st := State(depth, true, false);
    match u
    case Plain(b) => PlainIsSkipped(st, [b], limit);
    case Escape(b) => EscapeIsSkipped(st, b, limit);
    case Unicode(hex) =>
      EscapeIsSkipped(st, 0x75, limit);
      PlainIsSkipped(st, hex, limit);
      ScanInTwo(st, [BACKSLASH, 0x75], hex, limit);
  }

  lemma EscapeIsSkipped(st: State, b: byte, limit: int)
    requires st.inString && !st.escaped
    ensures After(st, [BACKSLASH, b]) == st && !Exceeds(st, [BACKSLASH, b], limit)
  {
    var s := [BACKSLASH, b];
    assert s[1..] == [b] && [b][1..] == [];
    assert After(st.(escaped := true), [b]) == After(st, []);
    assert Exceeds(st.(escaped := true), [b], limit) == Exceeds(st, [], limit);
  }

  lemma {:induction false} PlainIsSkipped(st: State, s: Bytes, limit: int)
    requires st.inString && !st.escaped && forall i :: 0 <= i < |s| ==> s[i] != QUOTE && s[i] != BACKSLASH
    ensures After(st, s) == st && !Exceeds(st, s, limit)
  {
    if s != [] { PlainIsSkipped(st, s[1..], limit); }
  }

  lemma {:induction false} UnitsAreSkipped(depth: nat, units: seq<Unit>, limit: int)
    requires ValidUnits(units)
    ensures var st := State(depth, true, false);
            After(st, UnitsText(units)) == st && !Exceeds(st, UnitsText(units), limit)
  {
    if units != [] {
      UnitIsSkipped(depth, units[0], limit);
      UnitsAreSkipped(depth, units[1..], limit);
      ScanInTwo(State(depth, true, false), units[0].Text(), UnitsText(units[1..]), limit);
    }
  }

  lemma StringIsSkipped(depth: nat, units: seq<Unit>, limit: int)
    requires ValidUnits(units)
    ensures After(Outside(depth), StringText(units)) == Outside(depth)
    ensures !Exceeds(Outside(depth), StringText(units), limit)
  {
    var inner := UnitsText(units) + [QUOTE];
    UnitsAreSkipped(depth, units, limit);
    ScanInTwo(State(depth, true, false), UnitsText(units), [QUOTE], limit);
    assert StringText(units)[1..] == inner;
  }

  lemma KeyIsSkipped(depth: nat, key: Option<Key>, limit: int)
    requires key.Some? ==> ValidUnits(key.value.units) && AllWs(key.value.w0) && AllWs(key.value.w1)
    ensures After(Outside(depth), KeyText(key)) == Outside(depth) && !Exceeds(Outside(depth), KeyText(key), limit)
  {
    if key.Some? {
      var colon := key.value.w0 + [COLON] + key.value.w1;
      StringIsSkipped(depth, key.value.units, limit);
      InertIsSkipped(Outside(depth), colon, limit);
      ScanInTwo(Outside(depth), StringText(key.value.units), colon, limit);
    }
  }

  /** Whether a part nested `inner` deep, at a given depth, goes beyond the limit. */
  predicate Beyond(depth: nat, inner: nat, limit: int) { inner > 0 && depth + inner > limit }

  lemma BracketsAreCounted(depth: nat, open: byte, inside: Bytes, close: byte, inner: nat, limit: int)
    requires IsOpening(open) && IsClosing(close)
    requires After(Outside(depth + 1), inside) == Outside(depth + 1)
    requires Exceeds(Outside(depth + 1), inside, limit) == Beyond(depth + 1, inner, limit)
    ensures var s := [open] + inside + [close];
            After(Outside(depth), s) == Outside(depth)
            && Exceeds(Outside(depth), s, limit) == Beyond(depth, 1 + inner, limit)
  {
    var s := [open] + inside + [close];
    assert s[1..] == inside + [close];
    ScanInTwo(Outside(depth + 1), inside, [close], limit);
    assert open != QUOTE && close != QUOTE;
  }

  lemma {:induction false} ValueIsMeasured(depth: nat, v: Json, limit: int)
    requires ValidJson(v)
    ensures After(Outside(depth), Text(v)) == Outside(depth)
    ensures Exceeds(Outside(depth), Text(v), limit) == Beyond(depth, Depth(v), limit)
    decreases v
  {
    match v
    case Literal(name) => InertIsSkipped(Outside(depth), name, limit);
    case Numeral(number) => InertIsSkipped(Outside(depth), number.Text(), limit);
    case String(units) => StringIsSkipped(depth, units, limit);
    case Array(items) =>
      ItemsAreMeasured(depth + 1, items, false, limit);
      BracketsAreCounted(depth, 0x5B, ItemsText(items), 0x5D, ItemsDepth(items), limit);
    case Object(items) =>
      ItemsAreMeasured(depth + 1, items, true, limit);
      BracketsAreCounted(depth, 0x7B, ItemsText(items), 0x7D, ItemsDepth(items), limit);
  }

  lemma {:induction false} ItemsAreMeasured(depth: nat, items: Items, keyed: bool, limit: int)
    requires ValidItems(items, keyed)
    ensures After(Outside(depth), ItemsText(items)) == Outside(depth)
    ensures Exceeds(Outside(depth), ItemsText(items), limit) == Beyond(depth, ItemsDepth(items), limit)
    decreases items
  {
    match items
    case Blank(w) => InertIsSkipped(Outside(depth), w, limit);
    case Last(item) => ItemIsMeasured(depth, item, keyed, limit);
    case More(item, rest) =>
      ItemIsMeasured(depth, item, keyed, limit);
      ItemsAreMeasured(depth, rest, keyed, limit);
      InertIsSkipped(Outside(depth), [COMMA], limit);
      ScanInTwo(Outside(depth), [COMMA], ItemsText(rest), limit);
      ScanInTwo(Outside(depth), ItemText(item), [COMMA] + ItemsText(rest), limit);
  }

  lemma {:induction false} ItemIsMeasured(depth: nat, item: Item, keyed: bool, limit: int)
    requires ValidItem(item, keyed)
    ensures After(Outside(depth), ItemText(item)) == Outside(depth)
    ensures Exceeds(Outside(depth), ItemText(item), limit) == Beyond(depth, Depth(item.value), limit)
    decreases item
  {
    var st := Outside(depth);
    ValueIsMeasured(depth, item.value, limit);
    InertIsSkipped(st, item.w0, limit);
    InertIsSkipped(st, item.w1, limit);
    KeyIsSkipped(depth, item.key, limit);
    ScanInTwo(st, Text(item.value), item.w1, limit);
    ScanInTwo(st, KeyText(item.key), Text(item.value) + item.w1, limit);
    ScanInTwo(st, item.w0, KeyText(item.key) + (Text(item.value) + item.w1), limit);
  }

  /** On every JSON text, in every layout, the scanner says whether its nesting goes beyond the limit. */
  lemma NestingIsMeasured(w0: Bytes, v: Json, w1: Bytes, limit: nat)
    requires AllWs(w0) && ValidJson(v) && AllWs(w1)
    ensures Exceeds(State(0, false, false), w0 + (Text(v) + w1), limit) <==> Depth(v) > limit
  {
    var st := Outside(0);
    InertIsSkipped(st, w0, limit);
    InertIsSkipped(st, w1, limit);
    ValueIsMeasured(0, v, limit);
    ScanInTwo(st, Text(v), w1, limit);
    ScanInTwo(st, w0, Text(v) + w1, limit);
  }
}
