/** Texts in order, and lists sorted by a text of their elements. */
module TextOrder {
  /** Order of texts, code point by code point. */
  predicate Less(a: string, b: string) {
    b != [] && (a == [] || a[0] < b[0] || (a[0] == b[0] && Less(a[1..], b[1..])))
  }

  /** Puts a value behind those that do not come after it. */
  function Insert<T>(sorted: seq<T>, value: T, text: T -> string): seq<T> {
    if sorted == [] then [value]
    else if Less(text(value), text(sorted[0])) then [value] + sorted
    else [sorted[0]] + Insert(sorted[1..], value, text)
  }

  function Sort<T>(values: seq<T>, text: T -> string): seq<T> {
    if values == [] then [] else Insert(Sort(values[..|values| - 1], text), values[|values| - 1], text)
  }

  lemma {:induction false} LessIsTransitive(a: string, b: string, c: string)
    requires Less(a, b) && Less(b, c)
    ensures Less(a, c)
  {
    if a != [] && a[0] == b[0] && b[0] == c[0] { LessIsTransitive(a[1..], b[1..], c[1..]); }
  }

  lemma {:induction false} LessIsTotal(a: string, b: string)
    ensures Less(a, b) || a == b || Less(b, a)
    ensures !(Less(a, b) && Less(b, a)) && !Less(a, a)
  {
    if a != [] && b != [] && a[0] == b[0] {
      LessIsTotal(a[1..], b[1..]);
      assert a == [a[0]] + a[1..] && b == [b[0]] + b[1..];
    }
    if a != [] { LessIsIrreflexive(a); }
  }

  lemma {:induction false} LessIsIrreflexive(a: string)
    ensures !Less(a, a)
  {
    if a != [] { LessIsIrreflexive(a[1..]); }
  }

  ghost predicate SortedBy<T>(values: seq<T>, text: T -> string) {
    forall i, j :: 0 <= i < j < |values| ==> !Less(text(values[j]), text(values[i]))
  }

  lemma {:induction false} InsertKeepsOrder<T>(sorted: seq<T>, value: T, text: T -> string)
    requires SortedBy(sorted, text)
    ensures SortedBy(Insert(sorted, value, text), text)
    ensures multiset(Insert(sorted, value, text)) == multiset(sorted) + multiset{value}
  {
    hide Less;
    if sorted != [] {
      var head, rest := sorted[0], sorted[1..];
      assert sorted == [head] + rest;
      TailIsSorted(sorted, text);
      forall v | v in rest
        ensures !Less(text(v), text(head))
      {
        var i :| 0 <= i < |rest| && rest[i] == v;
        assert sorted[i + 1] == v;
      }
      if Less(text(value), text(head)) {
        forall v | v in sorted
          ensures !Less(text(v), text(value))
        {
          LessIsTotal(text(v), text(value));
          if Less(text(v), text(value)) { LessIsTransitive(text(v), text(value), text(head)); }
          LessIsTotal(text(head), text(value));
        }
        HeadIsLeast(value, sorted, text);
      } else {
        InsertKeepsOrder(rest, value, text);
        forall v | v in Insert(rest, value, text)
          ensures !Less(text(v), text(head))
        {
          assert v in multiset(Insert(rest, value, text));
          assert v in rest || v == value by { assert v in multiset(rest) + multiset{value}; }
        }
        HeadIsLeast(head, Insert(rest, value, text), text);
      }
    }
  }

  lemma HeadIsLeast<T>(head: T, rest: seq<T>, text: T -> string)
    requires SortedBy(rest, text) && forall v :: v in rest ==> !Less(text(v), text(head))
    ensures SortedBy([head] + rest, text)
  {
  }

  lemma {:induction false} SortSorts<T>(values: seq<T>, text: T -> string)
    ensures SortedBy(Sort(values, text), text) && multiset(Sort(values, text)) == multiset(values)
  {
    if values != [] {
      var n := |values| - 1;
      SortSorts(values[..n], text);
      InsertKeepsOrder(Sort(values[..n], text), values[n], text);
      assert values == values[..n] + [values[n]];
    }
  }

  /** With one JSON text per value, a sorted list is determined by what is in it and how often. */
  lemma {:induction false} SortedListsAreUnique<T(!new)>(a: seq<T>, b: seq<T>, text: T -> string)
    requires SortedBy(a, text) && SortedBy(b, text) && multiset(a) == multiset(b)
    requires forall v, w :: text(v) == text(w) ==> v == w
    ensures a == b
  {
    hide Less, SortedBy;
    assert |multiset(a)| == |multiset(b)|;
    if a != [] {
      LeastComesFirst(a, b, text);
      LeastComesFirst(b, a, text);
      LessIsTotal(text(a[0]), text(b[0]));
      var x, y := a[1..], b[1..];
      assert a == [a[0]] + x && b == [b[0]] + y;
      assert multiset(x) == multiset(a) - multiset{a[0]} && multiset(y) == multiset(b) - multiset{b[0]};
      TailIsSorted(a, text);
      TailIsSorted(b, text);
      SortedListsAreUnique(x, y, text);
    }
  }

  lemma LeastComesFirst<T>(a: seq<T>, b: seq<T>, text: T -> string)
    requires SortedBy(a, text) && multiset(a) == multiset(b) && a != [] && b != []
    ensures !Less(text(b[0]), text(a[0]))
  {
    hide Less;
    assert b[0] in multiset(a);
    var j :| 0 <= j < |a| && a[j] == b[0];
    LessIsTotal(text(a[0]), text(a[0]));
  }

  lemma TailIsSorted<T>(a: seq<T>, text: T -> string)
    requires SortedBy(a, text) && a != []
    ensures SortedBy(a[1..], text)
  {
    hide Less;
    assert forall i :: 0 <= i < |a| - 1 ==> a[1..][i] == a[i + 1];
  }
}

/**
 Canonical values: what canonicalize makes of a value, on values that stand for the Python
 objects it accepts. Raising is None. Model objects count as mappings of their fields.
 */
module Canonical {
  import opened Basics
  import opened Sequences
  import opened TextOrder
  import opened Decimal
  import D = DecimalText

  datatype Value =
    | Null
    | Bool(b: bool)
    | Int(i: int)
    | Str(s: string)
    | Dec(finite: bool, number: D.Number)
    | DateTime(aware: bool, utc: string)
    | Rendered(text: string)
    | Enum(inner: Value)
    | Mapping(items: seq<Field>)
    | SetOf(elements: seq<Value>)
    | List(elements: seq<Value>)
    | Float
    | Unsupported

  /** A key by its text, and a value. */
  datatype Field = Field(key: string, value: Value)

  datatype Canon =
    | CNull
    | CBool(b: bool)
    | CInt(i: int)
    | CText(s: string)
    | CList(elements: seq<Canon>)
    | CObject(fields: seq<CField>)

  datatype CField = CField(key: string, value: Canon)

  /** The JSON text that sets are sorted by. */
  datatype Texts = Texts(json: Canon -> string)

  /** ASCII bytes as characters. */
  function Characters(bytes: Bytes): string { seq(|bytes|, i requires 0 <= i < |bytes| => bytes[i] as char) }

  /** Writes a key: in order, and over an earlier value of the same key. */
  function Put(fields: seq<CField>, key: string, value: Canon): seq<CField> {
    if fields == [] then [CField(key, value)]
    else if fields[0].key == key then [CField(key, value)] + fields[1..]
    else if Less(key, fields[0].key) then [CField(key, value)] + fields
    else [fields[0]] + Put(fields[1..], key, value)
  }

  function Canonicalize(v: Value, exclude: set<string>, texts: Texts): Option<Canon>
    decreases v
  {
    match v
    case Null => Some(CNull)
    case Bool(b) => Some(CBool(b))
    case Int(i) => Some(CInt(i))
    case Str(s) => Some(CText(s))
    case Dec(finite, number) => if finite then Some(CText(Characters(D.TextOf(number)))) else None
    case DateTime(aware, utc) => if aware then Some(CText(utc)) else None
    case Rendered(text) => Some(CText(text))
    case Enum(inner) => Canonicalize(inner, exclude, texts)
    case Mapping(items) =>
      var fields := CanonFields(items, exclude, texts);
      if fields.None? then None else Some(CObject(fields.value))
    case SetOf(elements) =>
      var values := CanonElements(elements, exclude, texts);
      if values.None? then None else Some(CList(Sort(values.value, texts.json)))
    case List(elements) =>
      var values := CanonElements(elements, exclude, texts);
      if values.None? then None else Some(CList(values.value))
    case Float => None
    case Unsupported => None
  }

  function CanonFields(items: seq<Field>, exclude: set<string>, texts: Texts): Option<seq<CField>>
    decreases items
  {
    if items == [] then Some([])
    else
      var last := items[|items| - 1];
      var before := CanonFields(items[..|items| - 1], exclude, texts);
      if last.key in exclude then before
      else
        var value := Canonicalize(last.value, exclude, texts);
        if before.None? || value.None? then None else Some(Put(before.value, last.key, value.value))
  }

  function CanonElements(elements: seq<Value>, exclude: set<string>, texts: Texts): Option<seq<Canon>>
    decreases elements
  {
    if elements == [] then Some([])
    else
      var before := CanonElements(elements[..|elements| - 1], exclude, texts);
      var value := Canonicalize(elements[|elements| - 1], exclude, texts);
      if before.None? || value.None? then None else Some(before.value + [value.value])
  }

  /** A canonical value, as the value that json.loads gives back. */
  function Embed(c: Canon): Value
    decreases c
  {
    match c
    case CNull => Null
    case CBool(b) => Bool(b)
    case CInt(i) => Int(i)
    case CText(s) => Str(s)
    case CList(elements) => List(EmbedAll(elements))
    case CObject(fields) => Mapping(EmbedFields(fields))
  }

  function EmbedAll(elements: seq<Canon>): (r: seq<Value>)
    ensures |r| == |elements|
    decreases elements
  {
    if elements == [] then []
    else EmbedAll(elements[..|elements| - 1]) + [Embed(elements[|elements| - 1])]
  }

  function EmbedFields(fields: seq<CField>): (r: seq<Field>)
    ensures |r| == |fields|
    decreases fields
  {
    if fields == [] then []
    else
      var last := fields[|fields| - 1];
      EmbedFields(fields[..|fields| - 1]) + [Field(last.key, Embed(last.value))]
  }

  /******* Decimals *******/

  /** Two decimals have one canonical form exactly when they are equal and of one sign. */
  lemma DecimalsAlikeIffEqual(a: D.Number, b: D.Number, exclude: set<string>, texts: Texts)
    ensures Canonicalize(Dec(true, a), exclude, texts) == Canonicalize(Dec(true, b), exclude, texts)
            <==> D.Equal(a, b) && a.negative == b.negative
  {
    hide D.TextOf;
    D.EqualTextsAreEqualNumbers(a, b);
    var s, t := D.TextOf(a), D.TextOf(b);
    if Characters(s) == Characters(t) {
      assert |s| == |Characters(s)| == |Characters(t)| == |t|;
      assert forall i :: 0 <= i < |s| ==> s[i] as char == Characters(s)[i] == Characters(t)[i] == t[i] as char;
      assert s == t;
    }
  }

  /******* Mappings *******/

  ghost predicate SortedFields(fields: seq<CField>) {
    forall i, j :: 0 <= i < j < |fields| ==> Less(fields[i].key, fields[j].key)
  }

  lemma {:induction false} PutKeepsOrder(fields: seq<CField>, key: string, value: Canon)
    requires SortedFields(fields)
    ensures SortedFields(Put(fields, key, value))
    ensures forall f :: f in Put(fields, key, value) <==> f == CField(key, value) || (f in fields && f.key != key)
  {
    if fields != [] {
      var head, rest := fields[0], fields[1..];
      LessIsTotal(key, head.key);
      assert fields == [head] + rest;
      forall f | f in rest
        ensures Less(head.key, f.key)
      {
        var i :| 0 <= i < |rest| && rest[i] == f;
        assert fields[i + 1] == f;
      }
      assert SortedFields(rest) by { assert forall i :: 0 <= i < |rest| ==> rest[i] == fields[i + 1]; }
      if head.key == key {
        forall f | f in rest
          ensures f.key != key
        {
          LessIsIrreflexive(key);
        }
        HeadFirst(CField(key, value), rest);
      } else if Less(key, head.key) {
        forall f | f in fields
          ensures Less(key, f.key) && f.key != key
        {
          if f != head { LessIsTransitive(key, head.key, f.key); }
          LessIsIrreflexive(key);
        }
        HeadFirst(CField(key, value), fields);
      } else {
        PutKeepsOrder(rest, key, value);
        HeadFirst(head, Put(rest, key, value));
      }
    }
  }

  lemma HeadFirst(head: CField, rest: seq<CField>)
    requires SortedFields(rest) && forall f :: f in rest ==> Less(head.key, f.key)
    ensures SortedFields([head] + rest)
  {
  }

  /** A sorted list of fields is determined by which fields are in it. */
  lemma {:induction false} SortedFieldsAreUnique(a: seq<CField>, b: seq<CField>)
    requires SortedFields(a) && SortedFields(b) && forall f :: f in a <==> f in b
    ensures a == b
  {
    hide Less, SortedFields;
    if a == [] {
      assert forall i :: 0 <= i < |b| ==> b[i] in b;
    } else {
      assert a[0] in b && b != [];
      LeastFieldComesFirst(a, b);
      LeastFieldComesFirst(b, a);
      LessIsTotal(a[0].key, b[0].key);
      var i :| 0 <= i < |b| && b[i] == a[0];
      FirstIsFirst(a, b, i);
      var x, y := a[1..], b[1..];
      assert a == [a[0]] + x && b == [b[0]] + y;
      TailOfFields(a);
      TailOfFields(b);
      forall f
        ensures f in x <==> f in y
      {
        assert f in a <==> f == a[0] || f in x;
        assert f in b <==> f == b[0] || f in y;
      }
      SortedFieldsAreUnique(x, y);
    }
  }

  lemma TailOfFields(a: seq<CField>)
    requires SortedFields(a) && a != []
    ensures SortedFields(a[1..]) && a[0] !in a[1..]
  {
    hide Less;
    LessIsIrreflexive(a[0].key);
    assert forall k :: 0 <= k < |a| - 1 ==> a[1..][k] == a[k + 1] && Less(a[0].key, a[k + 1].key);
  }

  lemma FirstIsFirst(a: seq<CField>, b: seq<CField>, i: nat)
    requires SortedFields(b) && a != [] && i < |b| && b[i] == a[0] && a[0].key == b[0].key
    ensures a[0] == b[0]
  {
    hide Less;
    LessIsIrreflexive(b[0].key);
  }

  lemma LeastFieldComesFirst(a: seq<CField>, b: seq<CField>)
    requires SortedFields(a) && a != [] && b != [] && b[0] in a
    ensures !Less(b[0].key, a[0].key)
  {
    hide Less;
    var j :| 0 <= j < |a| && a[j] == b[0];
    LessIsTotal(a[0].key, b[0].key);
  }

  ghost predicate DistinctKeys(items: seq<Field>) {
    forall i, j :: 0 <= i < j < |items| ==> items[i].key != items[j].key
  }

  /** The value under the last item of a key. */
  function Last(items: seq<Field>, key: string): Option<Value> {
    if items == [] then None
    else if items[|items| - 1].key == key then Some(items[|items| - 1].value)
    else Last(items[..|items| - 1], key)
  }

  /** What that value comes to. */
  function LastForm(items: seq<Field>, key: string, exclude: set<string>, texts: Texts): Option<Canon> {
    var last := Last(items, key);
    if last.None? then None else Canonicalize(last.value, exclude, texts)
  }

  lemma NoFields()
    ensures SortedFields([])
  {
  }

  /** The fields are in order, and are those of the last item of each key that is not excluded. */
  lemma {:induction false} FieldsAreTheLast(items: seq<Field>, exclude: set<string>, texts: Texts)
    requires CanonFields(items, exclude, texts).Some?
    ensures SortedFields(CanonFields(items, exclude, texts).value)
    ensures forall f :: f in CanonFields(items, exclude, texts).value
                        <==> f.key !in exclude && LastForm(items, f.key, exclude, texts) == Some(f.value)
    decreases |items|
  {
    hide Put, SortedFields, Canonicalize;
    if items == [] {
      NoFields();
    } else {
      var n := |items| - 1;
      FieldsAreTheLast(items[..n], exclude, texts);
      if items[n].key !in exclude {
        PutKeepsOrder(CanonFields(items[..n], exclude, texts).value, items[n].key,
                      Canonicalize(items[n].value, exclude, texts).value);
      }
    }
  }

  /** A mapping has a canonical form exactly when every value that is not excluded has one. */
  lemma {:induction false} MappingSucceedsIff(items: seq<Field>, exclude: set<string>, texts: Texts)
    ensures Canonicalize(Mapping(items), exclude, texts).Some? <==>
            forall i :: 0 <= i < |items| && items[i].key !in exclude ==>
                Canonicalize(items[i].value, exclude, texts).Some?
    decreases |items|
  {
    if items != [] {
      var n := |items| - 1;
      MappingSucceedsIff(items[..n], exclude, texts);
      assert forall i :: 0 <= i < n ==> items[..n][i] == items[i];
    }
  }

  /** Two mappings have one canonical form exactly when the last values under each key not excluded do. */
  lemma MappingsAreAlikeIff(items: seq<Field>, others: seq<Field>, exclude: set<string>, texts: Texts)
    requires Canonicalize(Mapping(items), exclude, texts).Some? && Canonicalize(Mapping(others), exclude, texts).Some?
    ensures Canonicalize(Mapping(items), exclude, texts) == Canonicalize(Mapping(others), exclude, texts)
            <==> forall key :: key !in exclude ==>
                   LastForm(items, key, exclude, texts) == LastForm(others, key, exclude, texts)
  {
    hide LastForm, CanonFields;
    FieldsAreTheLast(items, exclude, texts);
    FieldsAreTheLast(others, exclude, texts);
    var a, b := CanonFields(items, exclude, texts).value, CanonFields(others, exclude, texts).value;
    if forall key :: key !in exclude ==> LastForm(items, key, exclude, texts) == LastForm(others, key, exclude, texts) {
      SortedFieldsAreUnique(a, b);
    } else if a == b {
      forall key | key !in exclude
        ensures LastForm(items, key, exclude, texts) == LastForm(others, key, exclude, texts)
      {
        SameFieldSameForm(items, others, key, exclude, texts);
        SameFieldSameForm(others, items, key, exclude, texts);
      }
    }
  }

  lemma SameFieldSameForm(items: seq<Field>, others: seq<Field>, key: string, exclude: set<string>, texts: Texts)
    requires CanonFields(items, exclude, texts).Some?
    requires CanonFields(items, exclude, texts) == CanonFields(others, exclude, texts) && key !in exclude
    ensures LastForm(items, key, exclude, texts).Some? ==>
      LastForm(others, key, exclude, texts) == LastForm(items, key, exclude, texts)
  {
    hide LastForm, CanonFields;
    FieldsAreTheLast(items, exclude, texts);
    FieldsAreTheLast(others, exclude, texts);
    var form := LastForm(items, key, exclude, texts);
    if form.Some? { assert CField(key, form.value) in CanonFields(items, exclude, texts).value; }
  }

  /** With different keys the last item of a key is its only one. */
  lemma {:induction false} OnlyIsLast(items: seq<Field>, i: nat)
    requires DistinctKeys(items) && i < |items|
    ensures Last(items, items[i].key) == Some(items[i].value)
  {
    var n := |items| - 1;
    if i < n {
      assert items[..n][i] == items[i];
      OnlyIsLast(items[..n], i);
    }
  }

  lemma {:induction false} LastIsAnItem(items: seq<Field>, key: string)
    ensures match Last(items, key)
            case None => forall i :: 0 <= i < |items| ==> items[i].key != key
            case Some(value) => Field(key, value) in items
  {
    if items != [] {
      var n := |items| - 1;
      LastIsAnItem(items[..n], key);
      assert items == items[..n] + [items[n]];
    }
  }

  lemma OneOrderOneLast(items: seq<Field>, others: seq<Field>, key: string)
    requires DistinctKeys(items) && DistinctKeys(others) && forall f :: f in items <==> f in others
    ensures Last(items, key) == Last(others, key)
  {
    LastIsAnItem(items, key);
    LastIsAnItem(others, key);
    if Last(items, key).Some? {
      var j :| 0 <= j < |others| && others[j] == Field(key, Last(items, key).value);
      OnlyIsLast(others, j);
    }
  }

  /** With different keys the order of the items is irrelevant, also to whether there is a canonical form. */
  lemma MappingOrderIsIrrelevant(items: seq<Field>, others: seq<Field>, exclude: set<string>, texts: Texts)
    requires DistinctKeys(items) && DistinctKeys(others) && forall f :: f in items <==> f in others
    ensures Canonicalize(Mapping(items), exclude, texts) == Canonicalize(Mapping(others), exclude, texts)
  {
    hide Canonicalize;
    MappingSucceedsIff(items, exclude, texts);
    MappingSucceedsIff(others, exclude, texts);
    assert forall i :: 0 <= i < |items| ==> items[i] in others;
    assert forall i :: 0 <= i < |others| ==> others[i] in items;
    if Canonicalize(Mapping(items), exclude, texts).Some? {
      MappingsAreAlikeIff(items, others, exclude, texts);
      forall key ensures Last(items, key) == Last(others, key) { OneOrderOneLast(items, others, key); }
    }
  }

  lemma LastOfFew(a: Field, b: Field, key: string)
    ensures Last([a], key) == if key == a.key then Some(a.value) else None
    ensures Last([a, b], key) == if key == b.key then Some(b.value) else Last([a], key)
  {
    assert [a][..0] == [] && [a, b][..1] == [a];
  }

  /** Of two items under one key the later one wins, so their order matters exactly when their values differ. */
  lemma OrderDecidesBetweenKeysOfOneText(key: string, v: Value, u: Value, exclude: set<string>, texts: Texts)
    requires key !in exclude
    requires Canonicalize(v, exclude, texts).Some? && Canonicalize(u, exclude, texts).Some?
    ensures var a, b := Field(key, v), Field(key, u);
            && Canonicalize(Mapping([a, b]), exclude, texts) == Canonicalize(Mapping([b]), exclude, texts)
            && (Canonicalize(Mapping([a, b]), exclude, texts) == Canonicalize(Mapping([b, a]), exclude, texts)
                <==> Canonicalize(v, exclude, texts) == Canonicalize(u, exclude, texts))
  {
    hide Canonicalize, Last;
    var a, b := Field(key, v), Field(key, u);
    MappingSucceedsIff([a, b], exclude, texts);
    MappingSucceedsIff([b, a], exclude, texts);
    MappingSucceedsIff([b], exclude, texts);
    MappingsAreAlikeIff([a, b], [b], exclude, texts);
    MappingsAreAlikeIff([a, b], [b, a], exclude, texts);
    forall k
      ensures Last([a, b], k) == Last([b], k) == if k == key then Some(u) else None
      ensures Last([b, a], k) == if k == key then Some(v) else None
    {
      LastOfFew(a, b, k);
      LastOfFew(b, a, k);
    }
    assert LastForm([a, b], key, exclude, texts) == Canonicalize(u, exclude, texts);
    assert LastForm([b, a], key, exclude, texts) == Canonicalize(v, exclude, texts);
  }

  /** Equal canonical forms have equal canonical values under every key of their own. */
  lemma MappingDeterminesItsFields(
      items: seq<Field>, i: nat, others: seq<Field>, j: nat, exclude: set<string>, texts: Texts)
    requires DistinctKeys(items) && DistinctKeys(others)
    requires Canonicalize(Mapping(items), exclude, texts).Some?
    requires Canonicalize(Mapping(items), exclude, texts) == Canonicalize(Mapping(others), exclude, texts)
    requires i < |items| && j < |others| && items[i].key == others[j].key && items[i].key !in exclude
    ensures Canonicalize(others[j].value, exclude, texts) == Canonicalize(items[i].value, exclude, texts)
  {
    hide Canonicalize;
    MappingsAreAlikeIff(items, others, exclude, texts);
    OnlyIsLast(items, i);
    OnlyIsLast(others, j);
    assert LastForm(items, items[i].key, exclude, texts) == LastForm(others, items[i].key, exclude, texts);
  }

  /******* Sets *******/

  lemma {:induction false} ElementsJoin(a: seq<Value>, b: seq<Value>, exclude: set<string>, texts: Texts)
    ensures var x, y := CanonElements(a, exclude, texts), CanonElements(b, exclude, texts);
            CanonElements(a + b, exclude, texts) == if x.None? || y.None? then None else Some(x.value + y.value)
  {
    hide Canonicalize;
    var all := CanonElements(a, exclude, texts);
    if b == [] {
      assert a + b == a && (all.Some? ==> all.value + [] == all.value);
    } else {
      var n := |b| - 1;
      ElementsJoin(a, b[..n], exclude, texts);
      assert (a + b)[..|a + b| - 1] == a + b[..n] && (a + b)[|a + b| - 1] == b[n];
      var most, last := CanonElements(b[..n], exclude, texts), Canonicalize(b[n], exclude, texts);
      if all.Some? && most.Some? && last.Some? { Regroup(all.value, most.value, [last.value]); }
    }
  }

  /** What one element adds to the canonical values does not depend on where it stands. */
  lemma ElementAdds(before: seq<Value>, v: Value, after: seq<Value>, exclude: set<string>, texts: Texts)
    ensures var all := CanonElements(before + ([v] + after), exclude, texts);
            var rest, form := CanonElements(before + after, exclude, texts), Canonicalize(v, exclude, texts);
            if rest.None? || form.None? then all.None?
            else all.Some? && multiset(all.value) == multiset(rest.value) + multiset{form.value}
  {
    hide Canonicalize;
    ElementsJoin(before, after, exclude, texts);
    ElementsJoin(before, [v] + after, exclude, texts);
    ElementsJoin([v], after, exclude, texts);
    assert [v][..0] == [] && CanonElements([], exclude, texts) == Some([]);
    assert CanonElements([v], exclude, texts).Some? <==> Canonicalize(v, exclude, texts).Some?;
  }

  lemma SplitOff<T>(s: seq<T>, i: nat)
    requires i < |s|
    ensures s == s[..i] + ([s[i]] + s[i + 1..])
    ensures multiset(s) == multiset(s[..i] + s[i + 1..]) + multiset{s[i]}
  {
    var before, after := s[..i], s[i + 1..];
    assert s == before + ([s[i]] + after);
    assert multiset(s) == multiset(before) + (multiset([s[i]]) + multiset(after));
  }

  /** The last element of one sequence, taken out of another that has the same elements. */
  lemma TakenOut<T>(elements: seq<T>, others: seq<T>) returns (before: seq<T>, after: seq<T>)
    requires elements != [] && multiset(elements) == multiset(others)
    ensures others == before + ([elements[|elements| - 1]] + after)
    ensures multiset(elements[..|elements| - 1]) == multiset(before + after)
  {
    var n := |elements| - 1;
    assert elements[n] in multiset(others);
    var j :| 0 <= j < |others| && others[j] == elements[n];
    before, after := others[..j], others[j + 1..];
    SplitOff(others, j);
    SplitOff(elements, n);
    assert elements[..n] + elements[n + 1..] == elements[..n];
    var rest, kept := multiset(elements[..n]), multiset(before + after);
    assert rest == (rest + multiset{elements[n]}) - multiset{elements[n]};
    assert kept == (kept + multiset{elements[n]}) - multiset{elements[n]};
  }

  /** Walked in another order, the same elements give the same canonical values, or raise just the same. */
  lemma {:induction false} ElementsInAnyOrder(
      elements: seq<Value>, others: seq<Value>, exclude: set<string>, texts: Texts)
    requires multiset(elements) == multiset(others)
    ensures var x, y := CanonElements(elements, exclude, texts), CanonElements(others, exclude, texts);
            if x.None? then y.None? else y.Some? && multiset(x.value) == multiset(y.value)
    decreases |elements|
  {
    hide Canonicalize, CanonElements;
    if elements == [] {
      assert |multiset(others)| == 0;
    } else {
      var n := |elements| - 1;
      var last := elements[n];
      var before, after := TakenOut(elements, others);
      ElementsInAnyOrder(elements[..n], before + after, exclude, texts);
      ElementAdds(before, last, after, exclude, texts);
      ElementAdds(elements[..n], last, [], exclude, texts);
      assert elements[..n] + ([last] + []) == elements && elements[..n] + [] == elements[..n];
    }
  }

  /** The canonical form of a set, or that there is none, does not depend on the order it is walked in. */
  lemma SetOrderIsIrrelevant(elements: seq<Value>, others: seq<Value>, exclude: set<string>, texts: Texts)
    requires multiset(elements) == multiset(others)
    requires forall v, w :: texts.json(v) == texts.json(w) ==> v == w
    ensures Canonicalize(SetOf(elements), exclude, texts) == Canonicalize(SetOf(others), exclude, texts)
  {
    hide CanonElements, Sort;
    ElementsInAnyOrder(elements, others, exclude, texts);
    if CanonElements(elements, exclude, texts).Some? {
      var a, b := CanonElements(elements, exclude, texts).value, CanonElements(others, exclude, texts).value;
      SortSorts(a, texts.json);
      SortSorts(b, texts.json);
      SortedListsAreUnique(Sort(a, texts.json), Sort(b, texts.json), texts.json);
    }
  }

  /******* Canonical forms are fixed points *******/

  /** Keys in order and none of them excluded, at every level. */
  ghost predicate Proper(c: Canon, exclude: set<string>)
    decreases c
  {
    match c
    case CList(elements) => forall i :: 0 <= i < |elements| ==> Proper(elements[i], exclude)
    case CObject(fields) =>
      && SortedFields(fields)
      && forall i :: 0 <= i < |fields| ==> fields[i].key !in exclude && Proper(fields[i].value, exclude)
    case _ => true
  }

  lemma {:induction false} CanonicalIsProper(v: Value, exclude: set<string>, texts: Texts)
    requires Canonicalize(v, exclude, texts).Some?
    ensures Proper(Canonicalize(v, exclude, texts).value, exclude)
    decreases v
  {
    match v
    case Enum(inner) => CanonicalIsProper(inner, exclude, texts);
    case Mapping(items) =>
      FieldsAreTheLast(items, exclude, texts);
      FieldValuesAreProper(items, exclude, texts);
    case SetOf(elements) =>
      ElementsAreProper(elements, exclude, texts);
      var values := CanonElements(elements, exclude, texts).value;
      SortSorts(values, texts.json);
      forall i | 0 <= i < |Sort(values, texts.json)|
        ensures Proper(Sort(values, texts.json)[i], exclude)
      {
        assert Sort(values, texts.json)[i] in multiset(Sort(values, texts.json));
        assert Sort(values, texts.json)[i] in values;
      }
    case List(elements) => ElementsAreProper(elements, exclude, texts);
    case _ =>
  }

  lemma {:induction false} FieldValuesAreProper(items: seq<Field>, exclude: set<string>, texts: Texts)
    requires CanonFields(items, exclude, texts).Some?
    ensures forall f :: f in CanonFields(items, exclude, texts).value ==> Proper(f.value, exclude)
    decreases items
  {
    hide Put, SortedFields;
    if items != [] {
      var n := |items| - 1;
      var last := items[n];
      FieldValuesAreProper(items[..n], exclude, texts);
      if last.key !in exclude {
        CanonicalIsProper(last.value, exclude, texts);
        FieldsAreTheLast(items[..n], exclude, texts);
        PutKeepsOrder(CanonFields(items[..n], exclude, texts).value, last.key,
                      Canonicalize(last.value, exclude, texts).value);
      }
    }
  }

  lemma {:induction false} ElementsAreProper(elements: seq<Value>, exclude: set<string>, texts: Texts)
    requires CanonElements(elements, exclude, texts).Some?
    ensures forall c :: c in CanonElements(elements, exclude, texts).value ==> Proper(c, exclude)
    decreases elements
  {
    if elements != [] {
      var n := |elements| - 1;
      ElementsAreProper(elements[..n], exclude, texts);
      CanonicalIsProper(elements[n], exclude, texts);
    }
  }

  lemma {:induction false} PutAtTheEnd(fields: seq<CField>, key: string, value: Canon)
    requires forall i :: 0 <= i < |fields| ==> Less(fields[i].key, key)
    ensures Put(fields, key, value) == fields + [CField(key, value)]
  {
    if fields != [] {
      LessIsTotal(fields[0].key, key);
      PutAtTheEnd(fields[1..], key, value);
      assert fields == [fields[0]] + fields[1..];
    }
  }

  lemma {:induction false} ProperIsFixed(c: Canon, exclude: set<string>, texts: Texts)
    requires Proper(c, exclude)
    ensures Canonicalize(Embed(c), exclude, texts) == Some(c)
    decreases c
  {
    hide CanonFields, CanonElements, EmbedAll, EmbedFields;
    match c
    case CList(elements) => ProperElementsAreFixed(elements, exclude, texts);
    case CObject(fields) => ProperFieldsAreFixed(fields, exclude, texts);
    case _ =>
  }

  lemma {:induction false} ProperElementsAreFixed(elements: seq<Canon>, exclude: set<string>, texts: Texts)
    requires forall i :: 0 <= i < |elements| ==> Proper(elements[i], exclude)
    ensures CanonElements(EmbedAll(elements), exclude, texts) == Some(elements)
    decreases elements
  {
    hide Canonicalize, Embed;
    if elements != [] {
      var n := |elements| - 1;
      ProperElementsAreFixed(elements[..n], exclude, texts);
      ProperIsFixed(elements[n], exclude, texts);
      assert EmbedAll(elements)[..n] == EmbedAll(elements[..n]);
      assert elements == elements[..n] + [elements[n]];
    }
  }

  lemma {:induction false} ProperFieldsAreFixed(fields: seq<CField>, exclude: set<string>, texts: Texts)
    requires SortedFields(fields)
    requires forall i :: 0 <= i < |fields| ==> fields[i].key !in exclude && Proper(fields[i].value, exclude)
    ensures CanonFields(EmbedFields(fields), exclude, texts) == Some(fields)
    decreases fields
  {
    hide Canonicalize, Embed, Less, Put;
    if fields != [] {
      var n := |fields| - 1;
      ProperFieldsAreFixed(fields[..n], exclude, texts);
      ProperIsFixed(fields[n].value, exclude, texts);
      assert EmbedFields(fields)[..n] == EmbedFields(fields[..n]);
      PutAtTheEnd(fields[..n], fields[n].key, fields[n].value);
      assert fields == fields[..n] + [fields[n]];
    }
  }

  /** Canonicalizing a canonical form gives it back: a digest recomputed from stored JSON is the same. */
  lemma CanonicalizeIsIdempotent(v: Value, exclude: set<string>, texts: Texts)
    requires Canonicalize(v, exclude, texts).Some?
    ensures Canonicalize(Embed(Canonicalize(v, exclude, texts).value), exclude, texts)
         == Canonicalize(v, exclude, texts)
  {
    CanonicalIsProper(v, exclude, texts);
    ProperIsFixed(Canonicalize(v, exclude, texts).value, exclude, texts);
  }
}
