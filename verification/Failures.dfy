/**
 * When decoding fails, told from the bytes alone: which values cannot be read,
 * and what becomes of a message that is cut off inside a field.
 */
module Failures {
  import opened Basics
  import opened Varints
  import opened Wire
  import opened Decoder
  import opened DecoderLaws
  import opened Fields
  import opened Termination

  // ---------------------------------------------------------------------
  // Values that cannot be read
  // ---------------------------------------------------------------------

  /** A varint with the value v stands from pos to n. */
  predicate NumberAt(data: seq<byte>, pos: nat, v: nat, n: nat) {
    VarintAt(data, pos, n) && v == VarintSum(data, pos, n)
  }

  ghost predicate NoNumber(data: seq<byte>, pos: nat) { forall n: nat :: !VarintAt(data, pos, n) }

  /** A length and as many bytes as it says stand at p. */
  ghost predicate BlockAt(data: seq<byte>, p: nat) {
    exists len: nat, q: nat :: NumberAt(data, p, len, q) && q + len <= |data|
  }

  /** A length stands at p, and the relative seek by it, as a signed 64-bit number, does not end before the input. */
  ghost predicate SeekableAt(data: seq<byte>, p: nat) {
    exists len: nat, q: nat :: NumberAt(data, p, len, q) &&
      if len < 0x8000_0000_0000_0000 then q + len < 0x8000_0000_0000_0000
      else q + len >= 0x1_0000_0000_0000_0000
  }

  /** The value at p of a field with this number and wire type cannot be read. */
  ghost predicate Unreadable(m: Msg, num: nat, wire: nat, data: seq<byte>, p: nat) {
    if (m.Request? && 1 <= num <= 3) || (m.Header? && (num == 1 || num == 4)) then !BlockAt(data, p)
    else if (m.Header? && (num == 2 || num == 3 || num == 5)) || (m.Metrics? && 4 <= num <= 6) ||
            (m.Status? && 1 <= num <= 3) then NoNumber(data, p)
    else if m.Metrics? && 1 <= num <= 3 then p + 4 > |data|
    else if wire == 0 then NoNumber(data, p)
    else if wire == 1 then p + 8 > |data|
    else if wire == 2 then !SeekableAt(data, p)
    else if wire == 5 then p + 4 > |data|
    else true
  }

  /** An iteration at pos fails: no tag can be read at top level, or a tag whose value cannot. */
  ghost predicate FailsAt(m: Msg, data: seq<byte>, pos: nat) {
    || (m.Request? && NoNumber(data, pos))
    || exists tag: nat, p: nat :: NumberAt(data, pos, tag, p) && Unreadable(m, tag / 8, tag % 8, data, p)
  }

  lemma NumberRead(data: seq<byte>, pos: nat)
    ensures NoNumber(data, pos) <==> !ReadUvarint(data, pos).Ok?
    ensures forall v: nat, n: nat :: NumberAt(data, pos, v, n) <==> ReadUvarint(data, pos) == Ok(v, n)
  {
    hide ReadUvarint, VarintAt, VarintSum;
    ReadsExactly(data, pos);
    forall v: nat, n: nat ensures NumberAt(data, pos, v, n) <==> ReadUvarint(data, pos) == Ok(v, n) {}
  }

  lemma BlockRead(data: seq<byte>, field: nat, p: nat)
    ensures LexBytes(data, field, p).Fail? <==> !BlockAt(data, p)
    ensures !LexBytes(data, field, p).Stop?
  {
    hide ReadUvarint, NumberAt;
    NumberRead(data, p);
    if LexBytes(data, field, p).Field? {
      var Ok(len, q) := ReadUvarint(data, p);
      assert NumberAt(data, p, len, q);
    }
  }

  lemma SkipRead(data: seq<byte>, field: nat, wire: nat, p: nat)
    requires |data| < TWO_63
    ensures LexSkip(data, field, wire, p).Fail? <==>
            if wire == 0 then NoNumber(data, p)
            else if wire == 1 then p + 8 > |data|
            else if wire == 2 then !SeekableAt(data, p)
            else if wire == 5 then p + 4 > |data|
            else true
    ensures !LexSkip(data, field, wire, p).Stop?
  {
    hide NumberAt, ReadUvarint, NoNumber;
    NumberRead(data, p);
    if wire == 2 && ReadUvarint(data, p).Ok? {
      var Ok(len, q) := ReadUvarint(data, p);
      ReadBounds(data, p);
      assert NumberAt(data, p, len, q);
    }
  }

  lemma ReadBounds(data: seq<byte>, p: nat)
    requires ReadUvarint(data, p).Ok?
    ensures ReadUvarint(data, p).next <= |data| && ReadUvarint(data, p).value < TWO_64
  {
  }

  lemma ValueFails(m: Msg, data: seq<byte>, tag: uint64, p: nat)
    requires |data| < TWO_63
    ensures LexValue(m, data, tag, p).Fail? <==> Unreadable(m, tag / 8, tag % 8, data, p)
    ensures !LexValue(m, data, tag, p).Stop?
  {
    hide ReadUvarint, LexSkip, LexBytes, BlockAt, SeekableAt, NoNumber, LittleEndian32;
    NumberRead(data, p);
    BlockRead(data, tag / 8, p);
    SkipRead(data, tag / 8, tag % 8, p);
  }

  /** How one iteration ends, told from the bytes. */
  lemma IterationFails(m: Msg, data: seq<byte>, pos: nat)
    requires |data| < TWO_63
    ensures Lex(m, data, pos).Fail? <==> FailsAt(m, data, pos)
    ensures Lex(m, data, pos).Stop? <==> !m.Request? && NoNumber(data, pos)
  {
    hide ReadUvarint, LexValue, NoNumber, NumberAt, Unreadable;
    NumberRead(data, pos);
    if ReadUvarint(data, pos).Ok? {
      var Ok(tag, p) := ReadUvarint(data, pos);
      ReadBounds(data, pos);
      ValueFails(m, data, tag, p);
      assert NumberAt(data, pos, tag, p);
    }
  }

  // ---------------------------------------------------------------------
  // Loops that fail
  // ---------------------------------------------------------------------

  /** The loop stands inside the input after k iterations, at a position where it fails. */
  ghost predicate FailsAfter(m: Msg, data: seq<byte>, pos: nat, k: nat) {
    var r := Reached(m, data, pos, k);
    r.Some? && r.value < |data| && FailsAt(m, data, r.value)
  }

  lemma {:induction false} RunFails(m: Msg, data: seq<byte>, pos: nat, fuel: nat)
    requires |data| < TWO_63
    ensures Run(m, data, pos, fuel).end.Failed? <==> exists k: nat :: k < fuel && FailsAfter(m, data, pos, k)
    decreases fuel
  {
    hide Lex, FailsAt;
    IterationFails(m, data, pos);
    assert Reached(m, data, pos, 0) == Some(pos);
    if fuel > 0 && Goes(m, data, pos) {
      var next := Lex(m, data, pos).next;
      RunFails(m, data, next, fuel - 1);
      forall k: nat | k > 0 ensures FailsAfter(m, data, pos, k) <==> FailsAfter(m, data, next, k - 1) {
        assert Reached(m, data, pos, k) == Reached(m, data, next, k - 1);
      }
      assert !FailsAfter(m, data, pos, 0);
      if k: nat :| k < fuel - 1 && FailsAfter(m, data, next, k) { assert FailsAfter(m, data, pos, k + 1); }
    } else if pos < |data| && fuel > 0 {
      if Lex(m, data, pos).Fail? { assert FailsAfter(m, data, pos, 0); }
      forall k: nat | k > 0 ensures !FailsAfter(m, data, pos, k) { assert Reached(m, data, pos, k).None?; }
    } else if pos >= |data| {
      forall k: nat ensures !FailsAfter(m, data, pos, k) {
        if k > 0 { assert Reached(m, data, pos, k).None?; }
      }
    }
  }

  /**
   * A loop returns an error if and only if it comes to a field it cannot read: a
   * tag whose value is a bad varint, a length beyond the end, too few bytes, an
   * unknown wire type or a seek to before the start; at top level also a bad tag.
   */
  lemma LoopFailsIff(m: Msg, data: seq<byte>)
    requires |data| < TWO_63
    ensures Run(m, data, 0, |data|).end.Failed? <==> exists k: nat :: k < |data| && FailsAfter(m, data, 0, k)
  {
    RunFails(m, data, 0, |data|);
  }

  /**
   * Decoding returns an error if and only if the first submessage that does not
   * finish fails, or all of them finish and the top-level loop fails.
   */
  lemma DecodingFailsIff(p: PayloadRec, data: seq<byte>)
    requires |data| < TWO_63
    ensures var end := FirstEnd(Run(Request, data, 0, |data|).events);
            DecodedOnto(p, data) == Error <==>
            end.Failed? || (end.Finished? && exists k: nat :: k < |data| && FailsAfter(Request, data, 0, k))
    ensures forall e | SubLoop(e).Some? && |e.payload.bytes| < TWO_63 ::
              SubEnd(e).Failed? <==>
              exists k: nat :: k < |e.payload.bytes| && FailsAfter(SubLoop(e).value, e.payload.bytes, 0, k)
  {
    hide Run, FoldRequest, FirstEnd, FailsAfter;
    FoldEnds(p, Run(Request, data, 0, |data|).events);
    LoopFailsIff(Request, data);
    forall e | SubLoop(e).Some? && |e.payload.bytes| < TWO_63
      ensures SubEnd(e).Failed? <==>
              exists k: nat :: k < |e.payload.bytes| && FailsAfter(SubLoop(e).value, e.payload.bytes, 0, k)
    {
      LoopFailsIff(SubLoop(e).value, e.payload.bytes);
    }
  }

  // ---------------------------------------------------------------------
  // Input that is cut off
  // ---------------------------------------------------------------------

  /** The first n bytes of an encoded field, cut behind its tag. */
  predicate CutAt(num: nat, x: Raw, n: nat) { |Varint(8 * num + WireType(x))| <= n < |Encode(num, x)| }

  /** The one cut that does no harm: in an unlisted length-delimited value, as a seek may go past the end. */
  predicate Swallowed(m: Msg, num: nat, x: Raw, n: nat) {
    ShapeOf(m, num).Unlisted? && x.RBytes? && n >= |Varint(8 * num + WireType(x))| + |Varint(|x.bytes|)|
  }

  lemma CutNumber(v: nat, data: seq<byte>, p: nat, c: nat)
    requires p <= |data| && c < |Varint(v)| && data[p..] == Varint(v)[..c]
    ensures !ReadUvarint(data, p).Ok?
  {
    VarintFront(v);
    ReadsExactly(data, p);
    forall n: nat ensures !VarintAt(data, p, n) {
      if p < n <= |data| { assert data[n - 1] == data[p..][n - 1 - p] == Varint(v)[n - 1 - p]; }
    }
  }

  lemma CutValue(m: Msg, num: nat, x: Raw, data: seq<byte>, p: nat, c: nat)
    requires Fits(m, num, x) && |data| < TWO_63
    requires p <= |data| && c < |ValueBytes(x)| && data[p..] == ValueBytes(x)[..c] && p + |ValueBytes(x)| < TWO_63
    ensures var t := LexValue(m, data, 8 * num + WireType(x), p);
            if ShapeOf(m, num).Unlisted? && x.RBytes? && c >= |Varint(|x.bytes|)|
            then t.Field? && t.event == Event(num, Skipped) && t.next >= |data|
            else t.Fail?
  {
    hide ReadUvarint, Varint, LittleEndian32, Bytes32;
    assert (8 * num + WireType(x)) / 8 == num && (8 * num + WireType(x)) % 8 == WireType(x);
    assert |data| == p + c;
    match x
    case RVarint(v) => CutNumber(v, data, p, c);
    case RBytes(b) =>
      var len := Varint(|b|);
      if c < |len| {
        assert data[p..] == len[..c];
        CutNumber(|b|, data, p, c);
      } else {
        assert data[p..p + |len|] == data[p..][..|len|] == len;
        ReadVarint(|b|, data, p);
        assert p + |len| + |b| > |data|;
      }
    case _ =>
  }

  /** An iteration over an encoded field that is cut behind its tag fails, but for that one cut. */
  lemma CutField(m: Msg, num: nat, x: Raw, data: seq<byte>, pos: nat, n: nat)
    requires Fits(m, num, x) && CutAt(num, x, n) && |data| < TWO_63
    requires pos <= |data| && data[pos..] == Encode(num, x)[..n] && pos + |Encode(num, x)| < TWO_63
    ensures var t := Lex(m, data, pos);
            if Swallowed(m, num, x, n) then t.Field? && t.event == Event(num, Skipped) && t.next >= |data| else t.Fail?
  {
    hide ReadUvarint, Varint, LexValue, ValueBytes;
    var tag := 8 * num + WireType(x);
    var head := Varint(tag);
    var p := pos + |head|;
    assert data[pos..p] == data[pos..][..|head|] == head;
    ReadVarint(tag, data, pos);
    assert data[p..] == data[pos..][|head|..] == ValueBytes(x)[..n - |head|];
    CutValue(m, num, x, data, p, n - |head|);
  }

  /** Whole fields, then an iteration that is the last one. */
  lemma {:induction false} RunThen(m: Msg, a: seq<byte>, b: seq<byte>, pos: nat, fuel: nat)
    requires WellFormed(m, a, pos) && pos <= |a| && b != [] && |a + b| < TWO_63 && fuel > |a| - pos
    requires var t := Lex(m, a + b, |a|); t.Fail? || (t.Field? && t.next >= |a + b|)
    ensures var t := Lex(m, a + b, |a|);
            Run(m, a + b, pos, fuel) ==
            Trace(Run(m, a, pos, |a| - pos).events + (if t.Fail? then [] else [t.event]),
                  if t.Fail? then Failed else Finished)
    decreases |a| - pos
  {
    hide Lex, SkipAt;
    if pos < |a| {
      var next := Lex(m, a, pos).next;
      assert Same(a, pos, a + b, pos, next - pos);
      CleanLocal(m, a, pos, a + b, pos);
      RunThen(m, a, b, next, fuel - 1);
      WellFormedFinishes(m, a, next);
      RunStable(m, a, next, |a| - next, |a| - pos - 1);
    }
  }

  lemma {:induction false} WellFormedFinishes(m: Msg, a: seq<byte>, pos: nat)
    requires WellFormed(m, a, pos)
    ensures !Run(m, a, pos, |a| - pos).end.Unfinished?
    decreases |a| - pos
  {
    hide Lex, SkipAt;
    if pos < |a| {
      var next := Lex(m, a, pos).next;
      WellFormedFinishes(m, a, next);
      RunStable(m, a, next, |a| - next, |a| - pos - 1);
    }
  }

  /** Whole fields followed by an encoded field that is cut behind its tag. */
  lemma TruncatedRun(m: Msg, a: seq<byte>, num: nat, x: Raw, n: nat)
    requires WellFormed(m, a, 0) && Fits(m, num, x) && CutAt(num, x, n) && |a + Encode(num, x)| < TWO_63
    ensures var data := a + Encode(num, x)[..n];
            Run(m, data, 0, |data|) ==
            if Swallowed(m, num, x, n) then Trace(Run(m, a, 0, |a|).events + [Event(num, Skipped)], Finished)
            else Trace(Run(m, a, 0, |a|).events, Failed)
  {
    hide Lex, Run, Encode, Fits, Swallowed, WellFormed, CutAt;
    CutLength(num, x, n);
    var cut := Encode(num, x)[..n];
    var data := a + cut;
    assert data[|a|..] == cut;
    CutField(m, num, x, data, |a|, n);
    RunThen(m, a, cut, 0, |data|);
    assert Run(m, a, 0, |a|).events + [] == Run(m, a, 0, |a|).events;
  }

  lemma CutLength(num: nat, x: Raw, n: nat)
    requires CutAt(num, x, n)
    ensures 0 < n < |Encode(num, x)|
  {
    hide Varint;
  }

  /** The truncation law for a submessage: it is an error, but for the one cut that a seek swallows. */
  lemma TruncatedSubmessage(e: Event, a: seq<byte>, num: nat, x: Raw, n: nat)
    requires SubLoop(e).Some? && WellFormed(SubLoop(e).value, a, 0)
    requires Fits(SubLoop(e).value, num, x) && CutAt(num, x, n)
    requires e.payload.bytes == a + Encode(num, x)[..n] && |a + Encode(num, x)| < TWO_63
    ensures SubEnd(e) == if Swallowed(SubLoop(e).value, num, x, n) then Finished else Failed
    ensures forall p :: ApplyRequest(p, e) == Error <==> !Swallowed(SubLoop(e).value, num, x, n)
  {
    hide Run, Encode, Fits, Swallowed, WellFormed, CutAt, ApplyRequest;
    TruncatedRun(SubLoop(e).value, a, num, x, n);
    forall p ensures ApplyRequest(p, e) == Error <==> !Swallowed(SubLoop(e).value, num, x, n) { ApplyEnds(p, e); }
  }

  /** The truncation law for a message: unless the whole fields before it already fail, decoding it is an error. */
  lemma TruncatedMessage(p: PayloadRec, a: seq<byte>, num: nat, x: Raw, n: nat)
    requires WellFormed(Request, a, 0) && Fits(Request, num, x) && CutAt(num, x, n)
    requires |a + Encode(num, x)| < TWO_63 && DecodedOnto(p, a).Done?
    ensures DecodedOnto(p, a + Encode(num, x)[..n]) ==
            if Swallowed(Request, num, x, n) then DecodedOnto(p, a) else Error
  {
    hide Run, Encode, Fits, Swallowed, WellFormed, CutAt, FoldRequest;
    TruncatedRun(Request, a, num, x, n);
    WellFormedFolds(p, a);
    var es, last := Run(Request, a, 0, |a|).events, Event(num, Skipped);
    FoldRequestConcat(p, es, [last]);
    FoldOne(FoldRequest(p, es).value, last);
  }

  /** And for a submessage inside a whole message. */
  lemma TruncatedInside(pre: seq<byte>, field: nat, a: seq<byte>, num: nat, x: Raw, n: nat, post: seq<byte>)
    requires 1 <= field <= 3
    requires var m := if field == 1 then Header else if field == 2 then Metrics else Status;
             WellFormed(m, a, 0) && Fits(m, num, x) && CutAt(num, x, n) && !Swallowed(m, num, x, n)
    requires WellFormed(Request, pre, 0) && Tame(Request, post, 0) && Decoded(pre).Done?
    requires |a + Encode(num, x)| < TWO_63
    requires |pre + Encode(field, RBytes(a + Encode(num, x)[..n])) + post| < TWO_63
    ensures Decoded(pre + Encode(field, RBytes(a + Encode(num, x)[..n])) + post) == Error
  {
    hide Run, Encode, Fits, Swallowed, WellFormed, Tame, CutAt, DecodedOnto, ApplyRequest;
    CutLength(num, x, n);
    var sub := a + Encode(num, x)[..n];
    EncodeLonger(field, sub);
    SubmessageStep(EMPTY, pre, field, sub, post);
    TruncatedSubmessage(Event(field, Bytes(sub)), a, num, x, n);
  }
}
