/**
 The chunked transfer coding of section 7.1 of RFC 9112: the decoder reads it from the
 buffered reader, and is proved to invert an independent rendering of it.
 */
module ChunkedBody {
  import opened Basics
  import opened Decimal
  import opened Sequences
  import opened RequestReader
  import opened PieceLoop
  import Extensions = ChunkExtensions

  const MAX_LINE := 8192
  const MAX_TRAILERS := 16384
  const CRLF: Bytes := [0x0D, 0x0A]

  const FORBIDDEN_TRAILERS: set<Bytes> := {
    Ascii("authorization"), Ascii("connection"), Ascii("content-length"), Ascii("content-type"),
    Ascii("host"), Ascii("trailer"), Ascii("transfer-encoding")
  }

  predicate IsHexText(s: Bytes) { s != [] && forall i :: 0 <= i < |s| ==> IsHex(s[i]) }

  function HexDigit(b: byte): nat
    requires IsHex(b)
  {
    if IsDigit(b) then b - 0x30 else if b < 0x60 then b - 0x37 else b - 0x57
  }

  function HexValue(s: Bytes): nat
    requires forall i :: 0 <= i < |s| ==> IsHex(s[i])
  {
    if s == [] then 0 else 16 * HexValue(s[..|s| - 1]) + HexDigit(s[|s| - 1])
  }

  function Lower(s: Bytes): (r: Bytes)
    ensures |r| == |s|
  {
    seq(|s|, i requires 0 <= i < |s| => if 0x41 <= s[i] <= 0x5A then s[i] + 0x20 else s[i])
  }

  predicate EndsLine(line: Bytes) { |line| >= 2 && line[|line| - 2..] == CRLF }

  /******* One line *******/

  /** The chunk size a framing line announces. */
  function ParseChunkSize(line: Bytes): Option<nat> {
    if !EndsLine(line) then None
    else
      var raw := line[..|line| - 2];
      var size := raw[..Find(raw, SEMICOLON)];
      var extensions := raw[Find(raw, SEMICOLON)..];
      if !IsHexText(size) || !Extensions.Accepts(extensions) then None else Some(HexValue(size))
  }

  method ReadChunkSize(line: Bytes) returns (size: Option<nat>)
    ensures size == ParseChunkSize(line)
  {
    if !EndsLine(line) { return None; }
    var raw := line[..|line| - 2];
    var start := Find(raw, SEMICOLON);
    var token, extensions := raw[..start], raw[start..];
    if !IsHexText(token) { return None; }
    var valid := Extensions.ValidChunkExtensions(extensions);
    size := if valid then Some(HexValue(token)) else None;
  }

  predicate IsFieldByte(b: byte) { b == 0x09 || 0x20 <= b <= 0x7E }

  predicate IsForbidden(name: Bytes) { Lower(name) in FORBIDDEN_TRAILERS }

  predicate IsFieldName(name: Bytes) { Extensions.IsToken(name) && !IsForbidden(name) }

  predicate ValidTrailerLine(line: Bytes) {
    if !EndsLine(line) then false
    else
      var field := line[..|line| - 2];
      var n := Find(field, COLON);
      && n < |field| && IsFieldName(field[..n])
      && forall i :: n < i < |field| ==> IsFieldByte(field[i])
  }

  /******* What the decoder computes *******/

  datatype Failure = Malformed | TooLarge | TrailersTooLarge | Incomplete

  datatype Verdict = Body(data: Bytes) | Refused(failure: Failure)

  /** The verdict and the bytes left in front of the reader. */
  datatype Decoded = Decoded(verdict: Verdict, rest: Bytes)

  function TrailerStep(s: Bytes, room: int): (step: Step<Failure>)
    ensures step.Next? ==> |step.piece| + |step.rest| == |s| && step.piece != []
  {
    if room <= 0 then Stop(TrailersTooLarge, s)
    else
      var line := LineWithin(s, room);
      if !line.Got? then Stop(if line.TooLong? then TrailersTooLarge else Incomplete, s)
      else
        var rest := s[|line.bytes|..];
        if line.bytes == CRLF then Leave(rest)
        else if !ValidTrailerLine(line.bytes) then Stop(Malformed, rest)
        else Next(line.bytes, rest)
  }

  /** The data of a chunk of n bytes, and the line ending behind it. */
  function DataStep(s: Bytes, n: nat): (step: Step<Failure>)
    ensures step.Next? ==> |step.piece| == n && s == step.piece + (CRLF + step.rest)
    ensures !step.Leave?
  {
    if |s| < n then Stop(Incomplete, s)
    else if |s| < n + 2 then Stop(Incomplete, s[n..])
    else if s[n..][..2] != CRLF then Stop(Malformed, s[n..][2..])
    else
      assert s == s[..n] + (s[n..][..2] + s[n..][2..]);
      Next(s[..n], s[n..][2..])
  }

  function ChunkStep(s: Bytes, room: int): (step: Step<Failure>)
    ensures step.Next? ==> |step.rest| < |s|
  {
    var line := LineWithin(s, MAX_LINE);
    if !line.Got? then Stop(if line.TooLong? then Malformed else Incomplete, s)
    else
      var after := s[|line.bytes|..];
      var size := ParseChunkSize(line.bytes);
      if size.None? then Stop(Malformed, after)
      else if size.value == 0 then Leave(after)
      else if size.value > room then Stop(TooLarge, after)
      else DataStep(after, size.value)
  }

  ghost function Decode(s: Bytes, max: nat): (d: Decoded) {
    var chunks := Run(ChunkStep, s, max, []);
    if chunks.last.Stop? then Decoded(Refused(chunks.last.reason), chunks.last.rest)
    else DecodeTrailers(chunks.last.rest, chunks.seen)
  }

  ghost function DecodeTrailers(s: Bytes, body: Bytes): (d: Decoded) {
    var trailers := Run(TrailerStep, s, MAX_TRAILERS, []).last;
    Decoded(if trailers.Stop? then Refused(trailers.reason) else Body(body), trailers.rest)
  }

  /******* The decoder *******/

  /** One round of the loop below: a reason to stop, the empty line, or a trailer line. */
  method ReadTrailer(reader: DeadlineRequestReader, room: int) returns (late: bool, stop: Option<Failure>, line: Bytes)
    modifies reader, reader.stream
    ensures reader.Input() == old(reader.Input())
    ensures !late ==>
      TrailerStep(old(reader.Pending()), room)
        == if stop.Some? then Stop(stop.value, reader.Pending())
           else if line == CRLF then Leave(reader.Pending())
           else Next(line, reader.Pending())
  {
    if room <= 0 { return false, Some(TrailersTooLarge), []; }
    var read := reader.ReadLine(room);
    if !read.Got? {
      return read.TimedOut?, Some(if read.TooLong? then TrailersTooLarge else Incomplete), [];
    }
    if read.bytes != CRLF && !ValidTrailerLine(read.bytes) { return false, Some(Malformed), []; }
    late, stop, line := false, None, read.bytes;
  }

  /** Nothing is returned when the deadline passes. */
  method ReadTrailers(reader: DeadlineRequestReader, body: Bytes) returns (r: Option<Verdict>)
    modifies reader, reader.stream
    ensures reader.Input() == old(reader.Input())
    ensures r.Some? ==> DecodeTrailers(old(reader.Pending()), body) == Decoded(r.value, reader.Pending())
  {
    hide TrailerStep;
    var trailerBytes: nat := 0;
    ghost var seen: Bytes := [];
    while true
      invariant reader.Input() == old(reader.Input())
      invariant Run(TrailerStep, old(reader.Pending()), MAX_TRAILERS, [])
             == Run(TrailerStep, reader.Pending(), MAX_TRAILERS - trailerBytes, seen)
      decreases |reader.Pending()|
    {
      var late, stop, line := ReadTrailer(reader, MAX_TRAILERS - trailerBytes);
      if late { return None; }
      if stop.Some? { return Some(Refused(stop.value)); }
      if line == CRLF { return Some(Body(body)); }
      trailerBytes := trailerBytes + |line|;
      seen := seen + line;
    }
  }

  /** One round of the loop below: a reason to stop, the last chunk, or the data of a chunk. */
  method ReadChunk(reader: DeadlineRequestReader, room: int) returns (late: bool, stop: Option<Failure>, data: Bytes)
    modifies reader, reader.stream
    ensures reader.Input() == old(reader.Input())
    ensures !late ==>
      ChunkStep(old(reader.Pending()), room)
        == if stop.Some? then Stop(stop.value, reader.Pending())
           else if data == [] then Leave(reader.Pending())
           else Next(data, reader.Pending())
  {
    late, stop, data := false, None, [];
    var line := reader.ReadLine(MAX_LINE);
    if !line.Got? {
      return line.TimedOut?, Some(if line.TooLong? then Malformed else Incomplete), [];
    }
    var size := ReadChunkSize(line.bytes);
    if size.None? { return false, Some(Malformed), []; }
    if size.value == 0 { return; }
    if size.value > room { return false, Some(TooLarge), []; }
    late, stop, data := ReadData(reader, size.value);
  }

  method ReadData(reader: DeadlineRequestReader, n: nat) returns (late: bool, stop: Option<Failure>, data: Bytes)
    modifies reader, reader.stream
    ensures reader.Input() == old(reader.Input())
    ensures !late ==>
      DataStep(old(reader.Pending()), n)
        == if stop.Some? then Stop(stop.value, reader.Pending()) else Next(data, reader.Pending())
  {
    var bytes := reader.ReadExact(n);
    if !bytes.Got? { return bytes.TimedOut?, Some(Incomplete), []; }
    var ending := reader.ReadExact(2);
    if !ending.Got? { return ending.TimedOut?, Some(Incomplete), []; }
    late, data := false, bytes.bytes;
    stop := if ending.bytes != CRLF then Some(Malformed) else None;
  }

  method ReadChunkedBody(reader: DeadlineRequestReader, max: nat) returns (r: Option<Verdict>)
    modifies reader, reader.stream
    ensures reader.Input() == old(reader.Input())
    ensures r.Some? ==> Decode(old(reader.Pending()), max) == Decoded(r.value, reader.Pending())
  {
    hide ChunkStep;
    var body: Bytes := [];
    while true
      invariant reader.Input() == old(reader.Input())
      invariant Run(ChunkStep, old(reader.Pending()), max, []) == Run(ChunkStep, reader.Pending(), max - |body|, body)
      decreases |reader.Pending()|
    {
      var late, stop, data := ReadChunk(reader, max - |body|);
      if late { return None; }
      if stop.Some? { return Some(Refused(stop.value)); }
      if data == [] { break; }
      body := body + data;
    }
    r := ReadTrailers(reader, body);
  }

  /******* The coding itself *******/

  /** A character of a field value, obs-text included (section 5.5 of RFC 9110). */
  predicate IsValueByte(b: byte) { IsFieldByte(b) || Extensions.IsObsText(b) }

  /** A field line. `Served` says what the server asks beyond the grammar: it refuses some names, and obs-text. */
  datatype Field = Field(name: Bytes, value: Bytes)
  {
    predicate Valid() { Extensions.IsToken(name) && forall i :: 0 <= i < |value| ==> IsValueByte(value[i]) }
    predicate Served() { !IsForbidden(name) && Extensions.IsAscii(value) }
    function Text(): Bytes { name + ([COLON] + value) + CRLF }
  }

  /** The line in front of a chunk: its size in hexadecimal digits, and its extensions. */
  datatype SizeLine = SizeLine(size: Bytes, extensions: Bytes)
  {
    ghost predicate Valid() { IsHexText(size) && Extensions.IsExtensionList(extensions) }

    /** The server asks for no whitespace between the size and the first semicolon, and for ASCII. */
    predicate Served() { (extensions != [] ==> extensions[0] == SEMICOLON) && Extensions.IsAscii(extensions) }

    function Text(): Bytes { size + extensions + CRLF }

    predicate Fits() { |Text()| <= MAX_LINE }
  }

  datatype Chunk = Chunk(line: SizeLine, data: Bytes)
  {
    ghost predicate Valid() { line.Valid() && 0 < HexValue(line.size) == |data| }
    function Text(): Bytes { line.Text() + (data + CRLF) }
  }

  /** Chunks, the last chunk and the trailer section. */
  datatype Message = Message(chunks: seq<Chunk>, last: SizeLine, trailers: seq<Field>)

  function ChunkText(c: Chunk): Bytes { c.Text() }
  function ChunkData(c: Chunk): Bytes { c.data }
  function FieldText(f: Field): Bytes { f.Text() }

  function Trailing(m: Message): Bytes { Join(m.trailers, FieldText) + CRLF }

  function Render(m: Message): Bytes { Join(m.chunks, ChunkText) + (m.last.Text() + Trailing(m)) }

  function Data(m: Message): Bytes { Join(m.chunks, ChunkData) }

  /** What section 7.1 of RFC 9112 generates, and besides that whitespace behind the last extension of a line. */
  ghost predicate WellFormed(m: Message) {
    && (forall i :: 0 <= i < |m.chunks| ==> m.chunks[i].Valid())
    && m.last.Valid() && HexValue(m.last.size) == 0
    && (forall i :: 0 <= i < |m.trailers| ==> m.trailers[i].Valid())
  }

  /** Within the limits of the server. */
  predicate WithinLimits(m: Message, max: nat) {
    && (forall i :: 0 <= i < |m.chunks| ==> m.chunks[i].line.Fits()) && m.last.Fits()
    && |Data(m)| <= max && |Trailing(m)| <= MAX_TRAILERS
  }

  ghost predicate Fits(m: Message, max: nat) { WellFormed(m) && WithinLimits(m, max) }

  /** What the server asks of a message beyond the grammar and the limits. */
  predicate Served(m: Message) {
    && (forall i :: 0 <= i < |m.chunks| ==> m.chunks[i].line.Served()) && m.last.Served()
    && (forall i :: 0 <= i < |m.trailers| ==> m.trailers[i].Served())
  }

  ghost predicate GoodChunk(c: Chunk) { c.Valid() && c.line.Fits() && c.line.Served() }
  ghost predicate BadChunk(c: Chunk) { c.Valid() && c.line.Fits() && !c.line.Served() }
  predicate GoodField(f: Field) { f.Valid() && f.Served() }
  predicate BadField(f: Field) { f.Valid() && !f.Served() }

  /******* The rounds on well-formed input *******/

  lemma LineIsRead(line: Bytes, rest: Bytes, limit: int)
    requires EndsLine(line) && |line| <= limit && LF !in line[..|line| - 1]
    ensures LineWithin(line + rest, limit) == Got(line) && (line + rest)[|line|..] == rest
  {
    var s := line + rest;
    assert line[|line| - 1] == line[|line| - 2..][1] == LF;
    assert forall i :: 0 <= i < |line| - 1 ==> s[i] == line[..|line| - 1][i];
    assert s[|line| - 1] == LF;
    assert Find(s, LF) == |line| - 1;
    assert s[..|line|] == line;
  }

  lemma {:induction false} FoundAt(before: Bytes, b: byte, after: Bytes)
    requires b !in before
    ensures var s := before + ([b] + after);
            Find(s, b) == |before| && s[..|before|] == before && s[|before| + 1..] == after
  {
    var s := before + ([b] + after);
    assert s[|before|] == b;
    assert forall i :: 0 <= i < |before| ==> s[i] == before[i];
  }

  lemma SemicolonFound(size: Bytes, extensions: Bytes)
    requires IsHexText(size) && (extensions != [] ==> extensions[0] == SEMICOLON)
    ensures Find(size + extensions, SEMICOLON) == |size|
  {
    if extensions != [] {
      FoundAt(size, SEMICOLON, extensions[1..]);
      assert extensions == [SEMICOLON] + extensions[1..];
    } else {
      assert size + extensions == size;
    }
  }

  /** A size line of the grammar gives its size exactly when the server serves it, and nothing otherwise. */
  lemma SizeLineIsParsed(line: SizeLine)
    requires line.Valid()
    ensures ParseChunkSize(line.Text()) == if line.Served() then Some(HexValue(line.size)) else None
  {
    var text, raw := line.Text(), line.size + line.extensions;
    assert text[..|text| - 2] == raw && text[|text| - 2..] == CRLF;
    Extensions.AcceptsExactlyTheGrammar(line.extensions);
    if line.extensions != [] && line.extensions[0] != SEMICOLON {
      Extensions.ListStarts(line.extensions);
      assert raw[|line.size|] == line.extensions[0];
      assert forall i :: 0 <= i < |line.size| ==> raw[i] == line.size[i];
      var n := Find(raw, SEMICOLON);
      assert n > |line.size| && raw[..n][|line.size|] == line.extensions[0];
    } else {
      SemicolonFound(line.size, line.extensions);
      assert raw[..|line.size|] == line.size && raw[|line.size|..] == line.extensions;
    }
  }

  lemma SizeLineIsOneLine(line: SizeLine)
    requires line.Valid()
    ensures EndsLine(line.Text()) && LF !in line.Text()[..|line.Text()| - 1]
  {
    var text := line.Text();
    Extensions.ListHasNoLineFeed(line.extensions);
    assert text[|text| - 2..] == CRLF;
    assert text[..|text| - 1] == line.size + line.extensions + [0x0D];
  }

  lemma ServedValueBytes(value: Bytes)
    requires forall i :: 0 <= i < |value| ==> IsValueByte(value[i])
    ensures Extensions.IsAscii(value) <==> forall i :: 0 <= i < |value| ==> IsFieldByte(value[i])
  {
  }

  lemma BytesBehind(field: Bytes, n: nat, value: Bytes)
    requires n < |field| && field[n + 1..] == value
    ensures (forall i :: n < i < |field| ==> IsFieldByte(field[i]))
            <==> forall i :: 0 <= i < |value| ==> IsFieldByte(value[i])
  {
    hide IsFieldByte;
    assert forall i :: n < i < |field| ==> field[i] == value[i - n - 1];
    assert forall i :: 0 <= i < |value| ==> value[i] == field[n + 1 + i];
  }

  lemma FieldLineIsTaken(f: Field)
    requires COLON !in f.name
    ensures ValidTrailerLine(f.Text()) <==>
            IsFieldName(f.name) && forall i :: 0 <= i < |f.value| ==> IsFieldByte(f.value[i])
  {
    hide IsFieldName, IsFieldByte;
    var line, field := f.Text(), f.name + ([COLON] + f.value);
    assert line[..|line| - 2] == field && line[|line| - 2..] == CRLF;
    FoundAt(f.name, COLON, f.value);
    BytesBehind(field, |f.name|, f.value);
  }

  /** A field line of the grammar is a valid trailer line exactly when the server serves it. */
  lemma FieldLineIsValidIff(f: Field)
    requires f.Valid()
    ensures ValidTrailerLine(f.Text()) <==> f.Served()
    ensures EndsLine(f.Text()) && f.Text() != CRLF
  {
    hide IsForbidden, ValidTrailerLine, IsFieldByte, IsValueByte, Extensions.IsAscii;
    var line := f.Text();
    assert line[|line| - 2..] == CRLF;
    FieldLineIsTaken(f);
    ServedValueBytes(f.value);
  }

  lemma FieldLineIsOneLine(f: Field)
    requires f.Valid()
    ensures var line := f.Text(); LF !in line[..|line| - 1]
  {
    var line := f.Text();
    assert line[..|line| - 1] == f.name + ([COLON] + f.value) + [0x0D];
  }

  lemma TrailerStepOfField(f: Field, rest: Bytes, room: int)
    requires f.Valid() && |f.Text()| <= room
    ensures TrailerStep(f.Text() + rest, room) == if f.Served() then Next(f.Text(), rest) else Stop(Malformed, rest)
  {
    FieldLineIsValidIff(f);
    FieldLineIsOneLine(f);
    LineIsRead(f.Text(), rest, room);
  }

  lemma TrailerStepOfEnd(rest: Bytes, room: int)
    requires room >= 2
    ensures TrailerStep(CRLF + rest, room) == Leave(rest)
  {
    LineIsRead(CRLF, rest, room);
  }

  lemma DataStepOfData(data: Bytes, rest: Bytes)
    ensures DataStep(data + (CRLF + rest), |data|) == Next(data, rest)
  {
    var s := data + (CRLF + rest);
    assert s[..|data|] == data && s[|data|..] == CRLF + rest;
    assert (CRLF + rest)[..2] == CRLF && (CRLF + rest)[2..] == rest;
  }

  lemma ChunkStepOfLine(line: SizeLine, rest: Bytes, room: int)
    requires line.Valid() && line.Fits() && HexValue(line.size) <= room
    ensures ChunkStep(line.Text() + rest, room)
         == if !line.Served() then Stop(Malformed, rest)
            else if HexValue(line.size) == 0 then Leave(rest) else DataStep(rest, HexValue(line.size))
  {
    SizeLineIsParsed(line);
    SizeLineIsOneLine(line);
    LineIsRead(line.Text(), rest, MAX_LINE);
  }

  lemma ChunkStepOfChunk(c: Chunk, rest: Bytes, room: int)
    requires c.Valid() && c.line.Fits() && |c.data| <= room
    ensures var step := ChunkStep(c.Text() + rest, room);
            if c.line.Served() then step == Next(c.data, rest) else step.Stop? && step.reason == Malformed
  {
    Regroup(c.line.Text(), c.data + CRLF, rest);
    Regroup(c.data, CRLF, rest);
    ChunkStepOfLine(c.line, c.data + (CRLF + rest), room);
    DataStepOfData(c.data, rest);
  }

  /******* What the rounds passed over *******/

  lemma SizeLineWasRendered(text: Bytes) returns (line: SizeLine)
    requires ParseChunkSize(text).Some?
    ensures text == line.Text() && line.Valid() && line.Served()
    ensures ParseChunkSize(text) == Some(HexValue(line.size))
  {
    hide Extensions.IsExtensionList;
    var raw := text[..|text| - 2];
    var n := Find(raw, SEMICOLON);
    line := SizeLine(raw[..n], raw[n..]);
    Extensions.AcceptsExactlyTheGrammar(line.extensions);
    assert raw == line.size + line.extensions && text == raw + CRLF;
  }

  lemma TrailerLineWasRendered(line: Bytes) returns (f: Field)
    requires ValidTrailerLine(line)
    ensures f.Valid() && f.Served() && line == f.Text()
  {
    var field := line[..|line| - 2];
    var n := Find(field, COLON);
    f := Field(field[..n], field[n + 1..]);
    assert field == f.name + ([COLON] + f.value) && line == field + CRLF;
  }

  lemma TrailerStepWasField(s: Bytes, room: int) returns (f: Field)
    requires TrailerStep(s, room).Next?
    ensures var step := TrailerStep(s, room);
            GoodField(f) && step.piece == f.Text() && |step.piece| <= room && s == step.piece + step.rest
  {
    f := TrailerLineWasRendered(TrailerStep(s, room).piece);
  }

  lemma ChunkStepWasLine(s: Bytes, room: int) returns (line: SizeLine)
    requires !ChunkStep(s, room).Stop?
    ensures line.Valid() && line.Fits() && line.Served()
    ensures var step := ChunkStep(s, room);
            && (step.Leave? ==> HexValue(line.size) == 0 && s == line.Text() + step.rest)
            && (step.Next? ==>
                  && 0 < HexValue(line.size) == |step.piece| <= room
                  && s == line.Text() + (step.piece + (CRLF + step.rest)))
  {
    var text := LineWithin(s, MAX_LINE).bytes;
    line := SizeLineWasRendered(text);
    assert s == text + s[|text|..];
  }

  /******* The loops *******/

  lemma ChunksAreRead()
    ensures Reads(ChunkStep, GoodChunk, ChunkText, ChunkData)
    ensures StopsAt(ChunkStep, BadChunk, ChunkText, ChunkData, Malformed)
  {
    hide ChunkStep;
    forall c: Chunk, rest, room | c.Valid() && c.line.Fits() && |ChunkData(c)| <= room
      ensures var step := ChunkStep(ChunkText(c) + rest, room);
              if c.line.Served() then step == Next(ChunkData(c), rest) else step.Stop? && step.reason == Malformed
    {
      ChunkStepOfChunk(c, rest, room);
    }
  }

  lemma TrailersAreRead()
    ensures Reads(TrailerStep, GoodField, FieldText, FieldText)
    ensures StopsAt(TrailerStep, BadField, FieldText, FieldText, Malformed)
  {
    hide TrailerStep;
    forall f: Field, rest, room | f.Valid() && |FieldText(f)| <= room
      ensures TrailerStep(FieldText(f) + rest, room)
           == if f.Served() then Next(FieldText(f), rest) else Stop(Malformed, rest)
    {
      TrailerStepOfField(f, rest, room);
    }
  }

  lemma TheLoopsReadNothingElse()
    ensures ReadsOnly(ChunkStep, GoodChunk, ChunkText, ChunkData)
    ensures ReadsOnly(TrailerStep, GoodField, FieldText, FieldText)
  {
    hide ChunkStep, TrailerStep;
    forall s, room | ChunkStep(s, room).Next?
      ensures exists c :: GoodChunk(c) && s == ChunkText(c) + ChunkStep(s, room).rest
                && ChunkData(c) == ChunkStep(s, room).piece && |ChunkData(c)| <= room
    {
      var line := ChunkStepWasLine(s, room);
      var step := ChunkStep(s, room);
      var c := Chunk(line, step.piece);
      Regroup(step.piece, CRLF, step.rest);
      Regroup(line.Text(), step.piece + CRLF, step.rest);
      assert GoodChunk(c) && ChunkData(c) == step.piece && ChunkText(c) == c.Text();
    }
    forall s, room | TrailerStep(s, room).Next?
      ensures exists f :: GoodField(f) && s == FieldText(f) + TrailerStep(s, room).rest
                && FieldText(f) == TrailerStep(s, room).piece && |FieldText(f)| <= room
    {
      var f := TrailerStepWasField(s, room);
      assert GoodField(f) && FieldText(f) == f.Text();
    }
  }

  /** The trailer section ends the message as it should, or its first unserved field refuses it. */
  lemma TrailingIsDecoded(m: Message, rest: Bytes, body: Bytes)
    requires (forall i :: 0 <= i < |m.trailers| ==> m.trailers[i].Valid()) && |Trailing(m)| <= MAX_TRAILERS
    ensures var d := DecodeTrailers(Trailing(m) + rest, body);
            if AllValid(m.trailers, GoodField) then d == Decoded(Body(body), rest) else d.verdict == Refused(Malformed)
  {
    hide TrailerStep, IsForbidden, IsValueByte, Extensions.IsToken;
    TrailersAreRead();
    var fields := Join(m.trailers, FieldText);
    Regroup(fields, CRLF, rest);
    if AllValid(m.trailers, GoodField) {
      RunsPast(TrailerStep, GoodField, FieldText, FieldText, m.trailers, CRLF + rest, MAX_TRAILERS, []);
      TrailerStepOfEnd(rest, MAX_TRAILERS - |fields|);
    } else {
      RunsInto(TrailerStep, GoodField, BadField, FieldText, FieldText, m.trailers, CRLF + rest, MAX_TRAILERS, [],
               Malformed);
    }
  }

  lemma ServedMeansGood(m: Message, max: nat)
    requires Fits(m, max)
    ensures Served(m) <==> AllValid(m.chunks, GoodChunk) && m.last.Served() && AllValid(m.trailers, GoodField)
    ensures forall i :: 0 <= i < |m.chunks| ==> GoodChunk(m.chunks[i]) || BadChunk(m.chunks[i])
  {
    hide Extensions.IsExtensionList, HexValue, IsForbidden, IsValueByte, Extensions.IsToken, Extensions.IsAscii;
  }

  /** What the decoder finds behind the chunks of a message. */
  lemma EndIsDecoded(m: Message, rest: Bytes, room: nat)
    requires WellFormed(m) && m.last.Fits() && |Trailing(m)| <= MAX_TRAILERS
    ensures ChunkStep(m.last.Text() + (Trailing(m) + rest), room)
         == if m.last.Served() then Leave(Trailing(m) + rest) else Stop(Malformed, Trailing(m) + rest)
  {
    hide Extensions.IsExtensionList, IsForbidden, IsValueByte, Extensions.IsToken;
    ChunkStepOfLine(m.last, Trailing(m) + rest, room);
  }

  lemma GoodChunksAreDecoded(chunks: seq<Chunk>, behind: Bytes, max: nat)
    requires AllValid(chunks, GoodChunk) && |Join(chunks, ChunkData)| <= max
    ensures Run(ChunkStep, Join(chunks, ChunkText) + behind, max, [])
         == Run(ChunkStep, behind, max - |Join(chunks, ChunkData)|, Join(chunks, ChunkData))
  {
    hide ChunkStep, GoodChunk, BadChunk, Join;
    ChunksAreRead();
    RunsPast(ChunkStep, GoodChunk, ChunkText, ChunkData, chunks, behind, max, []);
    assert [] + Join(chunks, ChunkData) == Join(chunks, ChunkData);
  }

  lemma BadChunkIsRefused(chunks: seq<Chunk>, behind: Bytes, max: nat)
    requires forall i :: 0 <= i < |chunks| ==> GoodChunk(chunks[i]) || BadChunk(chunks[i])
    requires !AllValid(chunks, GoodChunk) && |Join(chunks, ChunkData)| <= max
    ensures var last := Run(ChunkStep, Join(chunks, ChunkText) + behind, max, []).last;
            last.Stop? && last.reason == Malformed
  {
    hide ChunkStep, GoodChunk, BadChunk, Join, AllValid;
    ChunksAreRead();
    RunsInto(ChunkStep, GoodChunk, BadChunk, ChunkText, ChunkData, chunks, behind, max, [], Malformed);
  }

  /**
   Every message within the limits is decoded to its data, and nothing behind it is touched,
   exactly when the server serves it; otherwise it is refused as malformed.
   */
  lemma MessageIsServedIff(m: Message, rest: Bytes, max: nat)
    requires Fits(m, max)
    ensures var d := Decode(Render(m) + rest, max);
            if Served(m) then d == Decoded(Body(Data(m)), rest) else d.verdict == Refused(Malformed)
  {
    hide ChunkStep, TrailerStep, GoodChunk, BadChunk, GoodField, Served, DecodeTrailers, Join, AllValid;
    hide Extensions.IsExtensionList, HexValue;
    var line := m.last.Text();
    Regroup(Join(m.chunks, ChunkText), line + Trailing(m), rest);
    Regroup(line, Trailing(m), rest);
    ServedMeansGood(m, max);
    var behind := line + (Trailing(m) + rest);
    if AllValid(m.chunks, GoodChunk) { GoodChunksAreDecoded(m.chunks, behind, max); }
    else { BadChunkIsRefused(m.chunks, behind, max); }
    EndIsDecoded(m, rest, max - |Data(m)|);
    TrailingIsDecoded(m, rest, Data(m));
  }

  lemma TrailersRan(s: Bytes) returns (fields: seq<Field>, rest: Bytes)
    ensures AllValid(fields, GoodField) && s == Join(fields, FieldText) + rest
    ensures Run(TrailerStep, s, MAX_TRAILERS, []).last == TrailerStep(rest, MAX_TRAILERS - |Join(fields, FieldText)|)
  {
    TheLoopsReadNothingElse();
    fields, rest := RanPast(TrailerStep, GoodField, FieldText, FieldText, s, MAX_TRAILERS, []);
  }

  lemma ChunksRan(s: Bytes, max: nat) returns (chunks: seq<Chunk>, rest: Bytes)
    ensures AllValid(chunks, GoodChunk) && s == Join(chunks, ChunkText) + rest && |Join(chunks, ChunkData)| <= max
    ensures Run(ChunkStep, s, max, []) == Ran(Join(chunks, ChunkData), ChunkStep(rest, max - |Join(chunks, ChunkData)|))
  {
    TheLoopsReadNothingElse();
    chunks, rest := RanPast(ChunkStep, GoodChunk, ChunkText, ChunkData, s, max, []);
    assert [] + Join(chunks, ChunkData) == Join(chunks, ChunkData);
  }

  lemma TrailerStepWasEnd(s: Bytes, room: int)
    requires TrailerStep(s, room).Leave?
    ensures room >= 2 && s == CRLF + TrailerStep(s, room).rest
  {
  }

  lemma DecodedTrailersWereRendered(s: Bytes, body: Bytes) returns (fields: seq<Field>)
    requires DecodeTrailers(s, body).verdict.Body?
    ensures AllValid(fields, GoodField) && |Join(fields, FieldText)| + 2 <= MAX_TRAILERS
    ensures s == Join(fields, FieldText) + CRLF + DecodeTrailers(s, body).rest
    ensures DecodeTrailers(s, body).verdict.data == body
  {
    hide TrailerStep;
    var rest;
    fields, rest := TrailersRan(s);
    TrailerStepWasEnd(rest, MAX_TRAILERS - |Join(fields, FieldText)|);
    Regroup(Join(fields, FieldText), CRLF, DecodeTrailers(s, body).rest);
  }

  lemma GoodPartsAreServed(m: Message, max: nat)
    requires AllValid(m.chunks, GoodChunk) && AllValid(m.trailers, GoodField)
    requires m.last.Valid() && m.last.Fits() && m.last.Served() && HexValue(m.last.size) == 0
    requires |Data(m)| <= max && |Trailing(m)| <= MAX_TRAILERS
    ensures Fits(m, max) && Served(m)
  {
    hide HexValue, Extensions.IsExtensionList, IsForbidden, Join;
    assert forall i :: 0 <= i < |m.chunks| ==> GoodChunk(m.chunks[i]);
    assert forall i :: 0 <= i < |m.trailers| ==> GoodField(m.trailers[i]);
  }

  lemma DecodedWasRendered(s: Bytes, max: nat) returns (m: Message)
    requires Decode(s, max).verdict.Body?
    ensures Fits(m, max) && Served(m) && s == Render(m) + Decode(s, max).rest
    ensures Decode(s, max).verdict.data == Data(m)
  {
    hide ChunkStep, Fits, Served, GoodChunk, GoodField, Extensions.IsExtensionList, HexValue;
    var chunks, rest := ChunksRan(s, max);
    var data := Join(chunks, ChunkData);
    var after := ChunkStep(rest, max - |data|).rest;
    var line := ChunkStepWasLine(rest, max - |data|);
    var fields := DecodedTrailersWereRendered(after, data);
    m := Message(chunks, line, fields);
    Regroup(line.Text(), Trailing(m), Decode(s, max).rest);
    Regroup(Join(chunks, ChunkText), line.Text() + Trailing(m), Decode(s, max).rest);
    GoodPartsAreServed(m, max);
  }

  /** A body is delivered exactly for the messages of the coding that fit the limits and are served. */
  lemma DecodesExactlyTheCoding(s: Bytes, max: nat, data: Bytes, rest: Bytes)
    ensures Decode(s, max) == Decoded(Body(data), rest)
            <==> exists m :: Fits(m, max) && Served(m) && s == Render(m) + rest && data == Data(m)
  {
    if Decode(s, max) == Decoded(Body(data), rest) {
      var m := DecodedWasRendered(s, max);
    }
    if m :| Fits(m, max) && Served(m) && s == Render(m) + rest && data == Data(m) {
      MessageIsServedIff(m, rest, max);
    }
  }

  /** No body exceeds the configured limit, whatever the bytes. */
  lemma BodyIsBounded(s: Bytes, max: nat)
    requires Decode(s, max).verdict.Body?
    ensures |Decode(s, max).verdict.data| <= max
  {
    var m := DecodedWasRendered(s, max);
  }

  /** The size line "1 ;a". */
  lemma SpaceBeforeSemicolon() returns (line: SizeLine)
    ensures line == SizeLine([0x31], [0x20, 0x3B, 0x61])
    ensures line.Valid() && line.Fits() && !line.Served() && HexValue(line.size) == 1
  {
    line := SizeLine([0x31], [0x20, 0x3B, 0x61]);
    var extension := Extensions.Extension([0x20], [], [0x61], None);
    assert [extension][1..] == [] && Extensions.Render([extension]) == extension.Text() + [];
    assert line.extensions == Extensions.Render([extension]) + [];
    assert Extensions.AllValid([extension]);
    assert HexValue([0x31]) == 16 * HexValue([0x31][..0]) + 1;
  }

  /** The size line "0". */
  lemma ZeroLine() returns (line: SizeLine)
    ensures line == SizeLine([0x30], []) && line.Valid() && line.Fits() && HexValue(line.size) == 0
  {
    line := SizeLine([0x30], []);
    assert HexValue([0x30]) == 16 * HexValue([0x30][..0]);
  }

  lemma OneChunk(c: Chunk)
    ensures Join([c], ChunkText) == c.Text() && Join([c], ChunkData) == c.data
  {
    assert [c][1..] == [] && Join([c], ChunkText) == c.Text() + [] && Join([c], ChunkData) == c.data + [];
  }

  /** A message of the grammar that is refused: "1 ;a", "X", "0" and the empty line. */
  lemma SpaceBeforeSemicolonIsRefused(rest: Bytes, max: nat) returns (m: Message)
    requires max >= 1
    ensures Fits(m, max)
    ensures Render(m) == [0x31, 0x20, 0x3B, 0x61] + CRLF + [0x58] + CRLF + [0x30] + CRLF + CRLF
    ensures Decode(Render(m) + rest, max).verdict == Refused(Malformed)
  {
    hide Extensions.IsExtensionList, Decode, HexValue, Join, Extensions.IsAscii;
    var line := SpaceBeforeSemicolon();
    var zero := ZeroLine();
    var c := Chunk(line, [0x58]);
    OneChunk(c);
    m := Message([c], zero, []);
    assert Join(m.trailers, FieldText) == [] by { NoFields(); }
    assert !m.chunks[0].line.Served();
    MessageIsServedIff(m, rest, max);
  }

  lemma NoFields()
    ensures Join([], FieldText) == []
  {
  }

  /******* Only a message cut short depends on what comes next *******/

  predicate IsOpen(f: Failure) { f.Incomplete? }

  lemma TrailerStepIsFinal(s: Bytes, more: Bytes, room: int)
    requires Settled(TrailerStep(s, room), IsOpen)
    ensures TrailerStep(s + more, room) == Extended(TrailerStep(s, room), more)
  {
    if room > 0 {
      LineIsDecidedByAPrefix(s, more, room);
      var line := LineWithin(s, room);
      if line.Got? { assert (s + more)[|line.bytes|..] == s[|line.bytes|..] + more; }
    }
  }

  lemma DataStepIsFinal(s: Bytes, more: Bytes, n: nat)
    requires Settled(DataStep(s, n), IsOpen)
    ensures DataStep(s + more, n) == Extended(DataStep(s, n), more)
  {
    var ending := s[n..];
    assert (s + more)[..n] == s[..n] && (s + more)[n..] == ending + more;
    assert (ending + more)[..2] == ending[..2] && (ending + more)[2..] == ending[2..] + more;
  }

  lemma ChunkStepIsFinal(s: Bytes, more: Bytes, room: int)
    requires Settled(ChunkStep(s, room), IsOpen)
    ensures ChunkStep(s + more, room) == Extended(ChunkStep(s, room), more)
  {
    LineIsDecidedByAPrefix(s, more, MAX_LINE);
    var line := LineWithin(s, MAX_LINE);
    if line.Got? {
      var after := s[|line.bytes|..];
      assert (s + more)[|line.bytes|..] == after + more;
      var size := ParseChunkSize(line.bytes);
      if size.Some? && 0 < size.value <= room { DataStepIsFinal(after, more, size.value); }
    }
  }

  /** A verdict other than Incomplete stays the verdict whatever arrives afterwards. */
  lemma VerdictIsFinal(s: Bytes, more: Bytes, max: nat)
    requires Decode(s, max).verdict != Refused(Incomplete)
    ensures var d := Decode(s, max); Decode(s + more, max) == Decoded(d.verdict, d.rest + more)
  {
    forall s, more, room | Settled(ChunkStep(s, room), IsOpen)
      ensures ChunkStep(s + more, room) == Extended(ChunkStep(s, room), more)
    {
      ChunkStepIsFinal(s, more, room);
    }
    forall s, more, room | Settled(TrailerStep(s, room), IsOpen)
      ensures TrailerStep(s + more, room) == Extended(TrailerStep(s, room), more)
    {
      TrailerStepIsFinal(s, more, room);
    }
    RunDecides(ChunkStep, IsOpen, s, more, max, []);
    var chunks := Run(ChunkStep, s, max, []);
    if chunks.last.Leave? { RunDecides(TrailerStep, IsOpen, chunks.last.rest, more, MAX_TRAILERS, []); }
  }
}
