/**
 The buffered reader under the HTTP parser. The peer's bytes arrive in pieces of any
 size; what each read returns depends only on the bytes, unless the deadline passes.
 */
module RequestReader {
  import opened Basics
  import opened Decimal

  /** The bytes a peer delivers before its stream ends or fails. */
  class ByteStream {
    var unread: Bytes

    constructor (bytes: Bytes)
      ensures unread == bytes
    {
      unread := bytes;
    }

    /** One read: some of the bytes, at most `max`; nothing only at the end. */
    method Read1(max: nat) returns (chunk: Bytes)
      requires max > 0
      modifies this
      ensures chunk + unread == old(unread) && |chunk| <= max
      ensures chunk == [] <==> old(unread) == []
    {
      if unread == [] { return []; }
      var n :| 1 <= n <= max && n <= |unread|;
      chunk, unread := unread[..n], unread[n..];
    }
  }

  datatype Read = Got(bytes: Bytes) | TooLong | Ended | TimedOut

  /** Where the first occurrence of b is, or |s|. */
  function Find(s: Bytes, b: byte): (n: nat)
    ensures n <= |s| && (n < |s| ==> s[n] == b)
    ensures forall i :: 0 <= i < n ==> s[i] != b
  {
    if s == [] || s[0] == b then 0 else 1 + Find(s[1..], b)
  }

  /******* What the bytes ahead determine *******/

  function Exactly(pending: Bytes, size: nat): Read {
    if |pending| >= size then Got(pending[..size]) else Ended
  }

  /** The next line with its line feed, if it is no longer than the limit. */
  function LineWithin(pending: Bytes, limit: int): Read {
    var n := Find(pending, LF);
    if n < |pending| && n + 1 <= limit then Got(pending[..n + 1])
    else if |pending| >= limit then TooLong
    else Ended
  }

  /** BinaryIO.readline: up to a line feed, the end, or `size` bytes when that is not negative. */
  function LineUpTo(pending: Bytes, size: int): (line: Bytes)
    ensures line <= pending
  {
    var n := Find(pending, LF);
    var end := if n < |pending| then n + 1 else n;
    pending[..if 0 <= size < end then size else end]
  }

  class DeadlineRequestReader {
    const stream: ByteStream
    var buffer: Bytes
    ghost var consumed: Bytes

    constructor (stream: ByteStream)
      ensures this.stream == stream && consumed == [] && Pending() == stream.unread
    {
      this.stream := stream;
      buffer, consumed := [], [];
    }

    /** The bytes not handed out yet. */
    ghost function Pending(): Bytes
      reads this, stream
    {
      buffer + stream.unread
    }

    /** Every byte the peer delivers. */
    ghost function Input(): Bytes
      reads this, stream
    {
      consumed + Pending()
    }

    method ReadFromStream(max: nat) returns (r: Read)
      requires max > 0
      modifies stream
      ensures !r.TooLong?
      ensures r.Got? ==> r.bytes != [] && |r.bytes| <= max && r.bytes + stream.unread == old(stream.unread)
      ensures !r.Got? ==> stream.unread == old(stream.unread)
      ensures r.Ended? ==> stream.unread == []
    {
      var late := *;
      if late { return TimedOut; }
      var chunk := stream.Read1(max);
      r := if chunk == [] then Ended else Got(chunk);
    }

    /** Adds one piece of the stream to the buffer. */
    method Extend(max: nat) returns (r: Read)
      requires max > 0
      modifies this, stream
      ensures Pending() == old(Pending()) && consumed == old(consumed)
      ensures r.Got? || r.Ended? || r.TimedOut?
      ensures r.Got? ==> |stream.unread| < |old(stream.unread)|
      ensures !r.Got? ==> buffer == old(buffer)
      ensures r.Ended? ==> stream.unread == []
    {
      r := ReadFromStream(max);
      if r.Got? {
        assert old(buffer) + (r.bytes + stream.unread) == (old(buffer) + r.bytes) + stream.unread;
        buffer := buffer + r.bytes;
      }
    }

    method Take(size: nat) returns (result: Bytes)
      requires size <= |buffer|
      modifies this
      ensures Input() == old(Input()) && stream.unread == old(stream.unread)
      ensures result == old(Pending())[..size] && Pending() == old(Pending())[size..]
      ensures consumed == old(consumed) + result
    {
      result := buffer[..size];
      assert Pending()[..size] == result && Pending()[size..] == buffer[size..] + stream.unread;
      buffer, consumed := buffer[size..], consumed + result;
      assert old(Pending()) == result + Pending();
      assert consumed + Pending() == old(consumed) + (result + Pending());
    }

    method ReadExact(size: nat) returns (r: Read)
      modifies this, stream
      ensures Input() == old(Input())
      ensures r.TimedOut? || r == Exactly(old(Pending()), size)
      ensures Pending() == if r.Got? then old(Pending())[size..] else old(Pending())
    {
      while |buffer| < size
        invariant Pending() == old(Pending()) && consumed == old(consumed)
        decreases |stream.unread|
      {
        var chunk := Extend(if size - |buffer| < 65536 then size - |buffer| else 65536);
        if !chunk.Got? { return chunk; }
      }
      var result := Take(size);
      r := Got(result);
    }

    method ReadLine(limit: int) returns (r: Read)
      modifies this, stream
      ensures Input() == old(Input())
      ensures r.TimedOut? || r == LineWithin(old(Pending()), limit)
      ensures Pending() == if r.Got? then old(Pending())[|r.bytes|..] else old(Pending())
    {
      while true
        invariant Pending() == old(Pending()) && consumed == old(consumed)
        decreases |stream.unread|
      {
        LineSoFar(buffer, stream.unread, limit);
        var newline := Find(buffer, LF);
        if newline < |buffer| {
          if newline + 1 > limit { return TooLong; }
          var result := Take(newline + 1);
          return Got(result);
        }
        if |buffer| >= limit { return TooLong; }
        var chunk := Extend(if limit - |buffer| < 4096 then limit - |buffer| else 4096);
        if !chunk.Got? { return chunk; }
      }
    }

    method Readline(size: int) returns (r: Read)
      modifies this, stream
      ensures Input() == old(Input())
      ensures r.TimedOut? || r == Got(LineUpTo(old(Pending()), size))
      ensures Pending() == if r.Got? then old(Pending())[|r.bytes|..] else old(Pending())
    {
      if size == 0 { return Got([]); }
      while true
        invariant Pending() == old(Pending()) && consumed == old(consumed)
        decreases |stream.unread|
      {
        LineUpToSoFar(buffer, stream.unread, size);
        var newline := Find(buffer, LF);
        if newline < |buffer| {
          var result := Take(if 0 <= size < newline + 1 then size else newline + 1);
          return Got(result);
        }
        if 0 <= size <= |buffer| {
          var result := Take(size);
          return Got(result);
        }
        var chunk := Extend(if 0 <= size && size - |buffer| < 4096 then size - |buffer| else 4096);
        if chunk.TimedOut? { return chunk; }
        if chunk.Ended? {
          if buffer == [] { return Got([]); }
          LineUpToSoFar(buffer, stream.unread, size);
          var result := Take(if 0 <= size < |buffer| then size else |buffer|);
          return Got(result);
        }
      }
    }
  }

  /** The first occurrence is where it is in a longer text, or beyond what has been seen. */
  lemma PrefixDecides(seen: Bytes, more: Bytes, b: byte)
    ensures Find(seen, b) < |seen| ==> Find(seen + more, b) == Find(seen, b)
    ensures Find(seen, b) == |seen| ==> Find(seen + more, b) == |seen| + Find(more, b)
  {
    if Find(seen, b) == |seen| {
      assert forall i :: 0 <= i < |seen| ==> (seen + more)[i] == seen[i];
      assert forall i :: 0 <= i < |more| ==> (seen + more)[|seen| + i] == more[i];
      var n, m := Find(seen + more, b), Find(more, b);
      assert m < |more| ==> (seen + more)[|seen| + m] == b;
      assert n >= |seen|;
      assert n < |seen + more| ==> more[n - |seen|] == b;
    } else {
      assert (seen + more)[Find(seen, b)] == b;
    }
  }

  /** What the buffered bytes already say about the next line. */
  lemma LineSoFar(seen: Bytes, more: Bytes, limit: int)
    ensures var n := Find(seen, LF); var line := LineWithin(seen + more, limit);
            && (n < |seen| ==> line == if n + 1 <= limit then Got((seen + more)[..n + 1]) else TooLong)
            && (n == |seen| >= limit ==> line.TooLong?)
            && (n == |seen| < limit && more == [] ==> line.Ended?)
  {
    PrefixDecides(seen, more, LF);
  }

  lemma LineUpToSoFar(seen: Bytes, more: Bytes, size: int)
    ensures var n := Find(seen, LF); var line := LineUpTo(seen + more, size);
            && (n < |seen| ==> line == (seen + more)[..if 0 <= size < n + 1 then size else n + 1])
            && (n == |seen| && 0 <= size <= |seen| ==> line == (seen + more)[..size])
            && (n == |seen| && more == [] && (size < 0 || size > |seen|) ==> line == (seen + more)[..|seen|])
  {
    PrefixDecides(seen, more, LF);
  }

  /** A line or a refusal read from a prefix of the input is what the whole input gives. */
  lemma LineIsDecidedByAPrefix(seen: Bytes, more: Bytes, limit: int)
    requires !LineWithin(seen, limit).Ended?
    ensures LineWithin(seen + more, limit) == LineWithin(seen, limit)
  {
    PrefixDecides(seen, more, LF);
    if LineWithin(seen, limit).Got? {
      var n := Find(seen, LF);
      assert (seen + more)[..n + 1] == seen[..n + 1];
    }
  }
}
