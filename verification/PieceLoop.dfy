/** Loops that read one piece of their input after another, on any step function. */
module PieceLoop {
  import opened Decimal
  import opened Sequences

  /** One round: the loop stops for a reason, is left, or goes on past a piece. */
  datatype Step<+R> = Stop(reason: R, rest: Bytes) | Leave(rest: Bytes) | Next(piece: Bytes, rest: Bytes)

  /** The pieces passed, joined, and the round that ended the loop. */
  datatype Ran<+R> = Ran(seen: Bytes, last: Step<R>)

  ghost predicate Shrinks<R>(step: (Bytes, int) -> Step<R>) {
    forall s, room :: step(s, room).Next? ==> |step(s, room).rest| < |s|
  }

  /** `room` is what the joined pieces may still take up. */
  ghost function Run<R>(step: (Bytes, int) -> Step<R>, s: Bytes, room: int, seen: Bytes): (ran: Ran<R>)
    requires Shrinks(step)
    ensures !ran.last.Next?
    decreases |s|
  {
    var next := step(s, room);
    if next.Next? then Run(step, next.rest, room - |next.piece|, seen + next.piece) else Ran(seen, next)
  }

  function Join<U>(units: seq<U>, text: U -> Bytes): Bytes {
    if units == [] then [] else text(units[0]) + Join(units[1..], text)
  }

  /** The round passes over the text of any valid unit whose piece fits. */
  ghost predicate Reads<R, U(!new)>(
      step: (Bytes, int) -> Step<R>, valid: U -> bool, text: U -> Bytes, piece: U -> Bytes)
  {
    forall u: U, rest: Bytes, room: int :: valid(u) && |piece(u)| <= room ==>
      step(text(u) + rest, room) == Next(piece(u), rest)
  }

  /** A round that goes on has passed over the text of a valid unit. */
  ghost predicate ReadsOnly<R, U(!new)>(
      step: (Bytes, int) -> Step<R>, valid: U -> bool, text: U -> Bytes, piece: U -> Bytes)
  {
    forall s: Bytes, room: int :: step(s, room).Next? ==>
      exists u: U :: valid(u) && s == text(u) + step(s, room).rest
                     && piece(u) == step(s, room).piece && |piece(u)| <= room
  }

  /** The round stops, for the reason given, at the text of any such unit whose piece fits. */
  ghost predicate StopsAt<R, U(!new)>(
      step: (Bytes, int) -> Step<R>, bad: U -> bool, text: U -> Bytes, piece: U -> Bytes, reason: R)
  {
    forall u: U, rest: Bytes, room: int :: bad(u) && |piece(u)| <= room ==>
      var next := step(text(u) + rest, room); next.Stop? && next.reason == reason
  }

  ghost predicate AllValid<U>(units: seq<U>, valid: U -> bool) {
    forall i :: 0 <= i < |units| ==> valid(units[i])
  }

  lemma {:induction false} RunsPast<R, U(!new)>(
      step: (Bytes, int) -> Step<R>, valid: U -> bool, text: U -> Bytes, piece: U -> Bytes,
      units: seq<U>, rest: Bytes, room: int, seen: Bytes)
    requires Shrinks(step) && Reads(step, valid, text, piece) && AllValid(units, valid)
    requires |Join(units, piece)| <= room
    ensures Run(step, Join(units, text) + rest, room, seen)
         == Run(step, rest, room - |Join(units, piece)|, seen + Join(units, piece))
  {
    if units == [] {
      assert Join(units, text) + rest == rest && seen + Join(units, piece) == seen;
    } else {
      var u := units[0];
      Regroup(text(u), Join(units[1..], text), rest);
      Regroup(seen, piece(u), Join(units[1..], piece));
      RunsPast(step, valid, text, piece, units[1..], rest, room - |piece(u)|, seen + piece(u));
    }
  }

  /** A loop ends at the first unit its rounds do not read. */
  lemma {:induction false} RunsInto<R, U(!new)>(
      step: (Bytes, int) -> Step<R>, valid: U -> bool, bad: U -> bool, text: U -> Bytes, piece: U -> Bytes,
      units: seq<U>, rest: Bytes, room: int, seen: Bytes, reason: R)
    requires Shrinks(step) && Reads(step, valid, text, piece) && StopsAt(step, bad, text, piece, reason)
    requires forall i :: 0 <= i < |units| ==> valid(units[i]) || bad(units[i])
    requires !AllValid(units, valid) && |Join(units, piece)| <= room
    ensures var last := Run(step, Join(units, text) + rest, room, seen).last; last.Stop? && last.reason == reason
  {
    var u, more := units[0], units[1..];
    Regroup(text(u), Join(more, text), rest);
    if valid(u) {
      assert AllValid(more, valid) ==> AllValid([u] + more, valid) && units == [u] + more;
      RunsInto(step, valid, bad, text, piece, more, rest, room - |piece(u)|, seen + piece(u), reason);
    } else {
      assert bad(u) && |piece(u)| <= room;
    }
  }

  lemma {:induction false} RanPast<R, U(!new)>(
      step: (Bytes, int) -> Step<R>, valid: U -> bool, text: U -> Bytes, piece: U -> Bytes,
      s: Bytes, room: int, seen: Bytes) returns (units: seq<U>, rest: Bytes)
    requires Shrinks(step) && ReadsOnly(step, valid, text, piece)
    ensures AllValid(units, valid) && s == Join(units, text) + rest
    ensures units == [] || |Join(units, piece)| <= room
    ensures Run(step, s, room, seen) == Ran(seen + Join(units, piece), step(rest, room - |Join(units, piece)|))
    decreases |s|
  {
    var next := step(s, room);
    if next.Next? {
      var u: U :| valid(u) && s == text(u) + next.rest && piece(u) == next.piece && |piece(u)| <= room;
      var more;
      more, rest := RanPast(step, valid, text, piece, next.rest, room - |next.piece|, seen + next.piece);
      units := [u] + more;
      assert units[1..] == more;
      Regroup(text(u), Join(more, text), rest);
      Regroup(seen, piece(u), Join(more, piece));
      assert more == [] ==> Join(more, piece) == [];
    } else {
      units, rest := [], s;
      assert seen + Join(units, piece) == seen;
      assert Join(units, text) + rest == s;
    }
  }

  ghost predicate Settled<R>(step: Step<R>, open: R -> bool) { step.Stop? ==> !open(step.reason) }

  function Extended<R>(step: Step<R>, more: Bytes): Step<R> { step.(rest := step.rest + more) }

  /** A round that does not stop for want of input does the same with more input behind it. */
  ghost predicate Decides<R>(step: (Bytes, int) -> Step<R>, open: R -> bool) {
    forall s: Bytes, more: Bytes, room: int :: Settled(step(s, room), open) ==>
      step(s + more, room) == Extended(step(s, room), more)
  }

  lemma {:induction false} RunDecides<R>(
      step: (Bytes, int) -> Step<R>, open: R -> bool, s: Bytes, more: Bytes, room: int, seen: Bytes)
    requires Shrinks(step) && Decides(step, open) && Settled(Run(step, s, room, seen).last, open)
    ensures var ran := Run(step, s, room, seen);
            Run(step, s + more, room, seen) == Ran(ran.seen, Extended(ran.last, more))
    decreases |s|
  {
    var next := step(s, room);
    assert Settled(next, open);
    assert step(s + more, room) == Extended(next, more);
    if next.Next? { RunDecides(step, open, next.rest, more, room - |next.piece|, seen + next.piece); }
  }
}
