/**
 * The control flow shared by the four field loops of proto_decoder.go: read a
 * tag, dispatch on the field number, read or skip the value. What a field does
 * to the record is kept apart (module Decoder); where the loop goes next
 * depends on the position alone.
 */
module Wire {
  import opened Basics
  import opened Varints

  /** Which of the four loops is running. */
  datatype Msg = Request | Header | Metrics | Status

  /** How a loop reads the value of a field number; the wire type matters only for unlisted numbers. */
  datatype Shape = LenDelim | VarintValue | Fixed32 | Unlisted

  function ShapeOf(m: Msg, num: nat): Shape {
    match m
    case Request => if 1 <= num <= 3 then LenDelim else Unlisted
    case Header => if num == 1 || num == 4 then LenDelim else if 2 <= num <= 5 then VarintValue else Unlisted
    case Metrics => if 1 <= num <= 3 then Fixed32 else if 4 <= num <= 6 then VarintValue else Unlisted
    case Status => if 1 <= num <= 3 then VarintValue else Unlisted
  }

  datatype Payload = Bytes(bytes: seq<byte>) | Num(num: uint64) | Bits(raw: uint32) | Skipped
  datatype Event = Event(field: nat, payload: Payload)

  /** One loop iteration: leave the loop silently, fail, or take a field and move to `next`. */
  datatype Token = Stop | Fail | Field(event: Event, next: nat)

  function LittleEndian32(b: seq<byte>): (raw: uint32)
    requires |b| == 4
  {
    var (b0: int, b1: int, b2: int, b3: int) := (b[0], b[1], b[2], b[3]);
    b0 + 0x100 * b1 + 0x1_0000 * b2 + 0x100_0000 * b3
  }

  /** A length and that many bytes: make + io.ReadFull. */
  function LexBytes(data: seq<byte>, field: nat, p: nat): Token {
    match ReadUvarint(data, p)
    case Ok(len, q) =>
      if q + len <= |data| then Field(Event(field, Bytes(data[q..q + len])), q + len) else Fail
    case _ => Fail
  }

  function LexNum(data: seq<byte>, field: nat, p: nat): Token {
    match ReadUvarint(data, p)
    case Ok(v, q) => Field(Event(field, Num(v)), q)
    case _ => Fail
  }

  function LexBits(data: seq<byte>, field: nat, p: nat): Token {
    if p + 4 <= |data| then Field(Event(field, Bits(LittleEndian32(data[p..p + 4]))), p + 4) else Fail
  }

  /**
   * bytes.Reader.Seek(int64(len), io.SeekCurrent): the offset is signed, the sum
   * wraps at 2^63, a negative target fails, and a target past the end is accepted.
   */
  function SeekTarget(p: nat, len: uint64): int {
    var abs := p + AsInt64(len);
    if abs >= TWO_63 then abs - TWO_64 else abs
  }

  function LexSkip(data: seq<byte>, field: nat, wire: nat, p: nat): Token {
    var e := Event(field, Skipped);
    if wire == 0 then
      match ReadUvarint(data, p)
      case Ok(_, q) => Field(e, q)
      case _ => Fail
    else if wire == 1 then
      if p + 8 <= |data| then Field(e, p + 8) else Fail
    else if wire == 2 then
      match ReadUvarint(data, p)
      case Ok(len, q) => if SeekTarget(q, len) >= 0 then Field(e, SeekTarget(q, len)) else Fail
      case _ => Fail
    else if wire == 5 then
      if p + 4 <= |data| then Field(e, p + 4) else Fail
    else Fail
  }

  function LexValue(m: Msg, data: seq<byte>, tag: uint64, p: nat): Token {
    match ShapeOf(m, tag / 8)
    case LenDelim => LexBytes(data, tag / 8, p)
    case VarintValue => LexNum(data, tag / 8, p)
    case Fixed32 => LexBits(data, tag / 8, p)
    case Unlisted => LexSkip(data, tag / 8, tag % 8, p)
  }

  /** A bad tag ends the submessage loops silently and fails the top-level one. */
  function Lex(m: Msg, data: seq<byte>, pos: nat): Token {
    match ReadUvarint(data, pos)
    case Ok(tag, p) => LexValue(m, data, tag, p)
    case _ => if m.Request? then Fail else Stop
  }

  datatype End = Finished | Failed | Unfinished
  datatype Trace = Trace(events: seq<Event>, end: End)

  /** The loop from `pos`, for at most `fuel` iterations. */
  function Run(m: Msg, data: seq<byte>, pos: nat, fuel: nat): Trace
    decreases fuel
  {
    if pos >= |data| then Trace([], Finished)
    else if fuel == 0 then Trace([], Unfinished)
    else
      match Lex(m, data, pos)
      case Stop => Trace([], Finished)
      case Fail => Trace([], Failed)
      case Field(e, next) =>
        var rest := Run(m, data, next, fuel - 1);
        Trace([e] + rest.events, rest.end)
  }

  // ---------------------------------------------------------------------
  // Termination
  // ---------------------------------------------------------------------

  /** Where a length-delimited skip at `pos` starts to seek, and the length it was given. */
  function SkipAt(m: Msg, data: seq<byte>, pos: nat): Option<(nat, uint64)> {
    match ReadUvarint(data, pos)
    case Ok(tag, p) =>
      if ShapeOf(m, tag / 8).Unlisted? && tag % 8 == 2 then
        match ReadUvarint(data, p)
        case Ok(len, q) => Some((q, len))
        case _ => None
      else None
    case _ => None
  }

  /**
   * An iteration shortens the unread input unless it skips a length that, read as int64, rewinds past the
   * field's own start.
   */
  lemma StepProgress(m: Msg, data: seq<byte>, pos: nat)
    requires Lex(m, data, pos).Field? && |data| < TWO_63
    ensures Lex(m, data, pos).next > pos <==>
            !(SkipAt(m, data, pos).Some? && SkipAt(m, data, pos).value.0 + AsInt64(SkipAt(m, data, pos).value.1) <= pos)
    ensures SkipAt(m, data, pos).Some? && SkipAt(m, data, pos).value.1 < TWO_63 ==> Lex(m, data, pos).next > pos
    ensures SkipAt(m, data, pos).None? ==> pos < Lex(m, data, pos).next <= |data|
  {
  }

  /** Every skip that is reached from `pos` within fuel iterations has a length below 2^63. */
  predicate ShortSkips(m: Msg, data: seq<byte>, pos: nat, fuel: nat)
    decreases fuel
  {
    pos < |data| && fuel > 0 ==>
      && (SkipAt(m, data, pos).Some? ==> SkipAt(m, data, pos).value.1 < TWO_63)
      && (Lex(m, data, pos).Field? ==> ShortSkips(m, data, Lex(m, data, pos).next, fuel - 1))
  }

  /** A loop whose reached skips are short ends within as many iterations as there are unread bytes. */
  lemma {:induction false} ShortSkipsTerminate(m: Msg, data: seq<byte>, pos: nat, fuel: nat)
    requires ShortSkips(m, data, pos, fuel) && |data| < TWO_63 && pos + fuel >= |data|
    ensures !Run(m, data, pos, fuel).end.Unfinished?
    decreases fuel
  {
    if Goes(m, data, pos) {
      StepProgress(m, data, pos);
      hide Lex, SkipAt;
      ShortSkipsTerminate(m, data, Lex(m, data, pos).next, fuel - 1);
    }
  }

  /** A finished run does not change when it is given more iterations. */
  lemma {:induction false} RunStable(m: Msg, data: seq<byte>, pos: nat, fuel: nat, more: nat)
    requires !Run(m, data, pos, fuel).end.Unfinished? && fuel <= more
    ensures Run(m, data, pos, more) == Run(m, data, pos, fuel)
    decreases fuel
  {
    hide Lex;
    if pos < |data| && Lex(m, data, pos).Field? {
      RunStable(m, data, Lex(m, data, pos).next, fuel - 1, more - 1);
    }
  }

  /** The loop passes through `pos` and takes a field there. */
  predicate Goes(m: Msg, data: seq<byte>, pos: nat) { pos < |data| && Lex(m, data, pos).Field? }

  /** Where the loop stands after n iterations from `pos`, if it gets that far. */
  function Reached(m: Msg, data: seq<byte>, pos: nat, n: nat): Option<nat>
    decreases n
  {
    if n == 0 then Some(pos)
    else if Goes(m, data, pos) then Reached(m, data, Lex(m, data, pos).next, n - 1)
    else None
  }

  lemma {:induction false} ReachedThen(m: Msg, data: seq<byte>, pos: nat, a: nat, b: nat)
    ensures Reached(m, data, pos, a + b) ==
            if Reached(m, data, pos, a).Some? then Reached(m, data, Reached(m, data, pos, a).value, b) else None
    decreases a
  {
    hide Lex;
    if a > 0 && Goes(m, data, pos) { ReachedThen(m, data, Lex(m, data, pos).next, a - 1, b); }
  }

  /** A run is unfinished exactly if it still stands inside the input. */
  lemma {:induction false} UnfinishedReaches(m: Msg, data: seq<byte>, pos: nat, fuel: nat)
    ensures Run(m, data, pos, fuel).end.Unfinished? <==>
            Reached(m, data, pos, fuel).Some? && Reached(m, data, pos, fuel).value < |data|
    decreases fuel
  {
    hide Lex;
    if fuel > 0 && Goes(m, data, pos) { UnfinishedReaches(m, data, Lex(m, data, pos).next, fuel - 1); }
  }

  /** After j iterations the loop stands where it stood after i. */
  predicate Repeats(m: Msg, data: seq<byte>, i: nat, j: nat) {
    i < j && Reached(m, data, 0, j).Some? && Reached(m, data, 0, i) == Reached(m, data, 0, j)
  }

  /** A loop that comes back to where it stood is still going after any number of iterations. */
  lemma {:induction false} ComesBack(m: Msg, data: seq<byte>, p: nat, period: nat, fuel: nat)
    requires period > 0 && Reached(m, data, p, period) == Some(p)
    ensures Reached(m, data, p, fuel).Some? && Goes(m, data, Reached(m, data, p, fuel).value)
    decreases fuel
  {
    hide Lex;
    if fuel >= period {
      ReachedThen(m, data, p, period, fuel - period);
      ComesBack(m, data, p, period, fuel - period);
    } else {
      ReachedThen(m, data, p, fuel, period - fuel);
    }
  }

  /** From the first repetition on the loop goes round: nothing is reached that was not reached before. */
  lemma {:induction false} GoesRound(m: Msg, data: seq<byte>, i: nat, j: nat, k: nat) returns (l: nat)
    requires Repeats(m, data, i, j)
    ensures l < j && (k >= j || l == k) && Reached(m, data, 0, k) == Reached(m, data, 0, l)
    decreases k
  {
    hide Lex, Reached;
    if k < j {
      l := k;
    } else {
      ReachedThen(m, data, 0, j, k - j);
      ReachedThen(m, data, 0, i, k - j);
      l := GoesRound(m, data, i, j, i + (k - j));
    }
  }

  lemma {:induction false} BoundedSetSize(s: set<nat>, n: nat)
    requires forall p | p in s :: p < n
    ensures |s| <= n
  {
    if n == 0 {
      assert s == {};
    } else {
      BoundedSetSize(s - {n - 1}, n - 1);
    }
  }

  /** The loop stood at p before iteration k. */
  predicate StoodAt(m: Msg, data: seq<byte>, p: nat, k: nat) {
    exists x: nat | x < k :: Reached(m, data, 0, x) == Some(p)
  }

  /** n + 1 iterations that stay inside n bytes stand somewhere twice. */
  lemma {:induction false} Pigeonhole(m: Msg, data: seq<byte>, k: nat, seen: set<nat>) returns (i: nat, j: nat)
    requires forall x | 0 <= x <= |data| :: Reached(m, data, 0, x).Some? && Reached(m, data, 0, x).value < |data|
    requires k <= |data| && |seen| == k
    requires forall p | p in seen :: p < |data|
    requires forall p | p in seen :: StoodAt(m, data, p, k)
    ensures Repeats(m, data, i, j) && j <= |data|
    decreases |data| - k
  {
    hide Reached;
    var p := Reached(m, data, 0, k).value;
    if p in seen {
      i :| i < k && Reached(m, data, 0, i) == Some(p);
      j := k;
    } else {
      assert |seen + {p}| == k + 1;
      BoundedSetSize(seen + {p}, |data|);
      forall q | q in seen + {p} ensures StoodAt(m, data, q, k + 1) {
        if q in seen {
          assert StoodAt(m, data, q, k);
        } else {
          assert Reached(m, data, 0, k) == Some(q);
        }
      }
      i, j := Pigeonhole(m, data, k + 1, seen + {p});
    }
  }

  lemma RepeatsForever(m: Msg, data: seq<byte>, i: nat, j: nat, fuel: nat)
    requires Repeats(m, data, i, j)
    ensures Run(m, data, 0, fuel).end.Unfinished?
  {
    hide Run, Lex, Reached;
    var p := Reached(m, data, 0, i).value;
    ReachedThen(m, data, 0, i, j - i);
    ReachedThen(m, data, 0, i, fuel);
    ComesBack(m, data, p, j - i, fuel);
    ReachedThen(m, data, 0, fuel, i);
    var q := Reached(m, data, 0, fuel).value;
    StillInside(m, data, q, i);
    UnfinishedReaches(m, data, 0, fuel);
  }

  lemma StillInside(m: Msg, data: seq<byte>, pos: nat, n: nat)
    requires Reached(m, data, pos, n).Some? && Goes(m, data, Reached(m, data, pos, n).value)
    ensures pos < |data|
  {
    hide Lex;
  }

  ghost predicate NeverEnds(m: Msg, data: seq<byte>) { forall fuel: nat :: Run(m, data, 0, fuel).end.Unfinished? }

  ghost predicate ComesRound(m: Msg, data: seq<byte>) { exists i: nat, j: nat :: j <= |data| && Repeats(m, data, i, j) }

  /**
   * A loop never ends if and only if it comes back, within |data| iterations, to a
   * position where it already stood.
   */
  lemma NeverEndsIffComesRound(m: Msg, data: seq<byte>)
    ensures NeverEnds(m, data) <==> ComesRound(m, data)
    ensures Run(m, data, 0, |data|).end.Unfinished? <==> ComesRound(m, data)
  {
    hide Run, Repeats;
    if Run(m, data, 0, |data|).end.Unfinished? {
      var i, j := UnfinishedRepeats(m, data);
    }
    if ComesRound(m, data) {
      var i: nat, j: nat :| j <= |data| && Repeats(m, data, i, j);
      forall fuel: nat ensures Run(m, data, 0, fuel).end.Unfinished? { RepeatsForever(m, data, i, j, fuel); }
    }
  }

  lemma UnfinishedRepeats(m: Msg, data: seq<byte>) returns (i: nat, j: nat)
    requires Run(m, data, 0, |data|).end.Unfinished?
    ensures Repeats(m, data, i, j) && j <= |data|
  {
    hide Run, Lex, Reached;
    UnfinishedReaches(m, data, 0, |data|);
    forall x: nat | x <= |data| ensures Reached(m, data, 0, x).Some? && Reached(m, data, 0, x).value < |data| {
      ReachedThen(m, data, 0, x, |data| - x);
      StandsInside(m, data, Reached(m, data, 0, x).value, |data| - x);
    }
    i, j := Pigeonhole(m, data, 0, {});
  }

  lemma StandsInside(m: Msg, data: seq<byte>, pos: nat, n: nat)
    requires Reached(m, data, pos, n).Some? && Reached(m, data, pos, n).value < |data|
    ensures pos < |data|
  {
    hide Lex;
  }

  /** A loop that has not ended after |data| iterations never ends. */
  lemma UnfinishedIsForever(m: Msg, data: seq<byte>, fuel: nat)
    ensures Run(m, data, 0, |data|).end.Unfinished? ==> Run(m, data, 0, fuel).end.Unfinished?
  {
    if Run(m, data, 0, |data|).end.Unfinished? {
      var i, j := UnfinishedRepeats(m, data);
      RepeatsForever(m, data, i, j, fuel);
    }
  }

  /** Field 15, length-delimited, length 2^64 - 11: the seek lands back on the tag. */
  const REWIND: seq<byte> := [122, 245, 255, 255, 255, 255, 255, 255, 255, 255, 1]

  lemma RewindNeverEnds(m: Msg, fuel: nat)
    ensures Run(m, REWIND, 0, fuel).end.Unfinished?
  {
    RewindLex(m);
    hide Lex, Run;
    RepeatsForever(m, REWIND, 0, 1, fuel);
  }

  lemma RewindLex(m: Msg)
    ensures Lex(m, REWIND, 0) == Field(Event(15, Skipped), 0)
  {
    RewindLength();
    assert ReadUvarint(REWIND, 0) == Ok(122, 1);
    hide ReadUvarint, ReadAt;
    assert LexSkip(REWIND, 15, 2, 1) == Field(Event(15, Skipped), 0);
  }

  lemma RewindLength()
    ensures ReadUvarint(REWIND, 1) == Ok(TWO_64 - 11, 11)
  {
    assert ReadAt(REWIND, 8, 7) == Ok(127 + 128 * (127 + 128), 11);
    assert ReadAt(REWIND, 5, 4) == Ok(127 + 128 * (127 + 128 * (127 + 128 * (127 + 128 * (127 + 128)))), 11);
  }

  // ---------------------------------------------------------------------
  // Concatenation
  // ---------------------------------------------------------------------

  /** The iteration at `pos` takes a field that lies wholly inside the input. */
  predicate Clean(m: Msg, data: seq<byte>, pos: nat) {
    && Lex(m, data, pos).Field?
    && (SkipAt(m, data, pos).Some? ==> SkipAt(m, data, pos).value.1 < TWO_63)
    && pos < Lex(m, data, pos).next <= |data|
  }

  /** From `pos` on the input is a sequence of whole fields. */
  predicate WellFormed(m: Msg, data: seq<byte>, pos: nat)
    decreases |data| - pos
  {
    pos == |data| || (pos < |data| && Clean(m, data, pos) && WellFormed(m, data, Lex(m, data, pos).next))
  }

  /** Every skip that is reached stays inside the input; anything else may go wrong. */
  predicate Tame(m: Msg, data: seq<byte>, pos: nat)
    decreases |data| - pos
  {
    && (pos < |data| && SkipAt(m, data, pos).Some? ==>
          SkipAt(m, data, pos).value.0 + SkipAt(m, data, pos).value.1 <= |data| < TWO_63)
    && (Goes(m, data, pos) ==> Lex(m, data, pos).next > pos && Tame(m, data, Lex(m, data, pos).next))
  }

  function Moved(t: Token, shift: int): Token
    requires t.Field? ==> t.next + shift >= 0
  {
    if t.Field? then t.(next := t.next + shift) else t
  }

  /** The k bytes of `data` at `pos` also stand in `other` at `at`. */
  predicate Same(data: seq<byte>, pos: nat, other: seq<byte>, at: nat, k: nat) {
    pos + k <= |data| && at + k <= |other| && other[at..at + k] == data[pos..pos + k]
  }

  lemma SameInside(data: seq<byte>, pos: nat, other: seq<byte>, at: nat, k: nat, lo: nat, hi: nat)
    requires Same(data, pos, other, at, k) && lo <= hi <= k
    ensures Same(data, pos + lo, other, at + lo, hi - lo)
  {
    var x, y := other[at + lo..at + hi], data[pos + lo..pos + hi];
    var u, v := other[at..at + k], data[pos..pos + k];
    forall j | 0 <= j < hi - lo
      ensures x[j] == y[j]
    {
      assert x[j] == u[lo + j] && y[j] == v[lo + j];
    }
    assert x == y;
  }

  /** A varint that ends within the shared bytes is read the same way in both. */
  lemma SameVarint(data: seq<byte>, pos: nat, other: seq<byte>, at: nat, k: nat)
    requires Same(data, pos, other, at, k) && ReadUvarint(data, pos).Ok? && ReadUvarint(data, pos).next <= pos + k
    ensures var Ok(v, n) := ReadUvarint(data, pos);
            && ReadUvarint(other, at) == Ok(v, n - pos + at)
            && Same(data, n, other, n - pos + at, k - (n - pos))
  {
    hide ReadAt;
    var n := ReadUvarint(data, pos).next;
    SameInside(data, pos, other, at, k, 0, n - pos);
    SameInside(data, pos, other, at, k, n - pos, k);
    ReadLocal(data, pos, 0, other, at);
  }

  lemma SameValue(m: Msg, data: seq<byte>, tag: uint64, p: nat, other: seq<byte>, at: nat, k: nat)
    requires LexValue(m, data, tag, p).Field? && LexValue(m, data, tag, p).next == p + k
    requires Same(data, p, other, at, k) && |other| < TWO_63
    requires ShapeOf(m, tag / 8).Unlisted? && tag % 8 == 2 && ReadUvarint(data, p).Ok? ==>
               ReadUvarint(data, p).value < TWO_63
    ensures LexValue(m, other, tag, at) == Moved(LexValue(m, data, tag, p), at - p)
  {
    hide ReadUvarint, LittleEndian32;
    if ReadUvarint(data, p).Ok? && ReadUvarint(data, p).next <= p + k {
      SameVarint(data, p, other, at, k);
    }
  }

  /** A whole field is read the same way wherever its bytes stand. */
  lemma CleanLocal(m: Msg, data: seq<byte>, pos: nat, other: seq<byte>, at: nat)
    requires Clean(m, data, pos) && |other| < TWO_63
    requires Same(data, pos, other, at, Lex(m, data, pos).next - pos)
    ensures Clean(m, other, at)
    ensures Lex(m, other, at) == Moved(Lex(m, data, pos), at - pos)
  {
    hide ReadUvarint, LexBytes, LexNum, LexBits;
    var k := Lex(m, data, pos).next - pos;
    var Ok(tag, p) := ReadUvarint(data, pos);
    TagInside(m, data, pos);
    SameVarint(data, pos, other, at, k);
    SameValue(m, data, tag, p, other, p - pos + at, k - (p - pos));
    if SkipAt(m, data, pos).Some? {
      SameVarint(data, p, other, p - pos + at, k - (p - pos));
    }
  }

  /** The tag, and a skipped length, lie inside the field they belong to. */
  lemma TagInside(m: Msg, data: seq<byte>, pos: nat)
    requires Clean(m, data, pos)
    ensures ReadUvarint(data, pos).Ok? && ReadUvarint(data, pos).next <= Lex(m, data, pos).next
    ensures SkipAt(m, data, pos).Some? && |data| < TWO_63 ==>
              SkipAt(m, data, pos).value.0 + SkipAt(m, data, pos).value.1 == Lex(m, data, pos).next
  {
  }

  lemma ShiftVarint(a: seq<byte>, b: seq<byte>, pos: nat)
    ensures var r := ReadUvarint(b, pos);
            ReadUvarint(a + b, |a| + pos) == if r.Ok? then Ok(r.value, |a| + r.next) else r
  {
    ReadShift(a, b, pos, 0);
  }

  lemma ShiftSlice(a: seq<byte>, b: seq<byte>, lo: nat, hi: nat)
    requires lo <= hi <= |b|
    ensures (a + b)[|a| + lo..|a| + hi] == b[lo..hi]
  {
  }

  lemma ShiftSkip(a: seq<byte>, b: seq<byte>, field: nat, wire: nat, p: nat)
    requires p <= |b| && |a + b| < TWO_63
    requires wire == 2 && ReadUvarint(b, p).Ok? ==> ReadUvarint(b, p).next + ReadUvarint(b, p).value <= |b|
    ensures LexSkip(a + b, field, wire, |a| + p) == Moved(LexSkip(b, field, wire, p), |a|)
  {
    hide ReadUvarint;
    ShiftVarint(a, b, p);
  }

  lemma ShiftValue(m: Msg, a: seq<byte>, b: seq<byte>, tag: uint64, p: nat)
    requires p <= |b| && |a + b| < TWO_63
    requires ShapeOf(m, tag / 8).Unlisted? && tag % 8 == 2 && ReadUvarint(b, p).Ok? ==>
               ReadUvarint(b, p).next + ReadUvarint(b, p).value <= |b|
    ensures LexValue(m, a + b, tag, |a| + p) == Moved(LexValue(m, b, tag, p), |a|)
  {
    hide ReadUvarint, LittleEndian32, LexSkip;
    if ShapeOf(m, tag / 8).Unlisted? { ShiftSkip(a, b, tag / 8, tag % 8, p); return; }
    ShiftVarint(a, b, p);
    if p + 4 <= |b| { ShiftSlice(a, b, p, p + 4); }
    if ReadUvarint(b, p).Ok? {
      var Ok(len, q) := ReadUvarint(b, p);
      if q + len <= |b| { ShiftSlice(a, b, q, q + len); }
    }
  }

  /** Bytes put in front of a tame input only move its positions. */
  lemma TameShift(m: Msg, a: seq<byte>, b: seq<byte>, pos: nat)
    requires Tame(m, b, pos) && pos < |b| && |a + b| < TWO_63
    ensures Lex(m, a + b, |a| + pos) == Moved(Lex(m, b, pos), |a|)
    ensures SkipAt(m, b, pos).None? ==> SkipAt(m, a + b, |a| + pos).None?
    ensures SkipAt(m, b, pos).Some? ==>
              SkipAt(m, a + b, |a| + pos) == Some((SkipAt(m, b, pos).value.0 + |a|, SkipAt(m, b, pos).value.1))
  {
    hide LexValue;
    ShiftVarint(a, b, pos);
    match ReadUvarint(b, pos)
    case Ok(tag, p) =>
      ShiftVarint(a, b, p);
      ShiftValue(m, a, b, tag, p);
    case _ =>
  }

  /** Running over a + b is running over a and then over b. */
  lemma {:induction false} RunConcat(m: Msg, a: seq<byte>, b: seq<byte>, pos: nat, fuel: nat)
    requires WellFormed(m, a, pos) && Tame(m, b, 0) && |a + b| < TWO_63
    requires pos + fuel >= |a + b|
    ensures Run(m, a, pos, |a| - pos).end == Finished
    ensures var ra := Run(m, a, pos, |a| - pos); var rb := Run(m, b, 0, |b|);
            Run(m, a + b, pos, fuel) == Trace(ra.events + rb.events, rb.end)
    decreases |a| - pos
  {
    hide Lex, SkipAt;
    if pos == |a| {
      RunShift(m, a, b, 0, fuel, |b|);
      var ra := Run(m, a, pos, 0); var rb := Run(m, b, 0, |b|);
      assert ra.events + rb.events == rb.events;
    } else {
      var next := Lex(m, a, pos).next;
      assert Same(a, pos, a + b, pos, next - pos);
      CleanLocal(m, a, pos, a + b, pos);
      RunConcat(m, a, b, next, fuel - 1);
      var ra := Run(m, a, next, |a| - next); var rb := Run(m, b, 0, |b|);
      RunStable(m, a, next, |a| - next, |a| - pos - 1);
      assert [Lex(m, a, pos).event] + (ra.events + rb.events) == [Lex(m, a, pos).event] + ra.events + rb.events;
    }
  }

  lemma {:induction false} RunShift(m: Msg, a: seq<byte>, b: seq<byte>, pos: nat, fuel: nat, own: nat)
    requires Tame(m, b, pos) && |a + b| < TWO_63
    requires pos + fuel >= |b| && pos + own >= |b|
    ensures Run(m, a + b, |a| + pos, fuel) == Run(m, b, pos, own)
    decreases fuel
  {
    hide Lex, SkipAt;
    if pos < |b| {
      TameShift(m, a, b, pos);
      if Lex(m, b, pos).Field? { RunShift(m, a, b, Lex(m, b, pos).next, fuel - 1, own - 1); }
    }
  }

  /** Whole fields followed by whole fields are whole fields, and whole fields are tame. */
  lemma {:induction false} WellFormedConcat(m: Msg, a: seq<byte>, b: seq<byte>, pos: nat)
    requires WellFormed(m, a, pos) && WellFormed(m, b, 0) && |a + b| < TWO_63
    ensures WellFormed(m, a + b, pos)
    decreases |a| - pos
  {
    hide Lex, SkipAt;
    if pos == |a| {
      WellFormedShift(m, a, b, 0);
    } else {
      var next := Lex(m, a, pos).next;
      assert Same(a, pos, a + b, pos, next - pos);
      CleanLocal(m, a, pos, a + b, pos);
      WellFormedConcat(m, a, b, next);
    }
  }

  lemma {:induction false} WellFormedShift(m: Msg, a: seq<byte>, b: seq<byte>, pos: nat)
    requires WellFormed(m, b, pos) && |a + b| < TWO_63
    ensures WellFormed(m, a + b, |a| + pos)
    decreases |b| - pos
  {
    hide Lex, SkipAt;
    if pos < |b| {
      var next := Lex(m, b, pos).next;
      ShiftSlice(a, b, pos, next);
      CleanLocal(m, b, pos, a + b, |a| + pos);
      WellFormedShift(m, a, b, next);
    }
  }

  lemma {:induction false} WellFormedIsTame(m: Msg, data: seq<byte>, pos: nat)
    requires WellFormed(m, data, pos) && |data| < TWO_63
    ensures Tame(m, data, pos)
    decreases |data| - pos
  {
    hide Lex, SkipAt;
    if pos < |data| {
      TagInside(m, data, pos);
      WellFormedIsTame(m, data, Lex(m, data, pos).next);
    }
  }

  /** Tails of whole fields are still whole fields when bytes that are tame follow them. */
  lemma {:induction false} TameConcat(m: Msg, a: seq<byte>, b: seq<byte>, pos: nat)
    requires WellFormed(m, a, pos) && Tame(m, b, 0) && |a + b| < TWO_63
    ensures Tame(m, a + b, pos)
    decreases |a| - pos
  {
    hide Lex, SkipAt;
    if pos == |a| {
      TameShiftAll(m, a, b, 0);
    } else {
      var next := Lex(m, a, pos).next;
      assert Same(a, pos, a + b, pos, next - pos);
      CleanLocal(m, a, pos, a + b, pos);
      TagInside(m, a + b, pos);
      TameConcat(m, a, b, next);
    }
  }

  lemma {:induction false} TameShiftAll(m: Msg, a: seq<byte>, b: seq<byte>, pos: nat)
    requires Tame(m, b, pos) && |a + b| < TWO_63
    ensures Tame(m, a + b, |a| + pos)
    decreases |b| - pos
  {
    hide Lex, SkipAt;
    if pos < |b| {
      TameShift(m, a, b, pos);
      if Lex(m, b, pos).Field? { TameShiftAll(m, a, b, Lex(m, b, pos).next); }
    }
  }
}
