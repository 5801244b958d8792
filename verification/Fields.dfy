/**
 * Encoded fields: the four value kinds of the wire format, what one loop
 * iteration makes of an encoded field, and the general round trip from a list
 * of fields to the events of its decoding.
 */
module Fields {
  import opened Basics
  import opened Varints
  import opened Wire
  import opened Decoder
  import opened DecoderLaws
  import opened Termination

  /** A field value, one constructor for each of the wire types 0, 1, 2 and 5. */
  datatype Raw = RVarint(v: uint64) | RFixed64(octets: seq<byte>) | RBytes(bytes: seq<byte>) | RFixed32(raw: uint32)

  function WireType(x: Raw): nat {
    match x
    case RVarint(_) => 0
    case RFixed64(_) => 1
    case RBytes(_) => 2
    case RFixed32(_) => 5
  }

  /** encode_fixed32_float: least significant byte first. */
  function Bytes32(raw: uint32): (b: seq<byte>)
    ensures |b| == 4 && LittleEndian32(b) == raw
  {
    var q1 := raw / 0x100;
    assert raw == 0x100 * q1 + raw % 0x100;
    var q2 := raw / 0x1_0000;
    assert q2 == q1 / 0x100 && q1 == 0x100 * q2 + q1 % 0x100;
    var q3 := raw / 0x100_0000;
    assert q3 == q2 / 0x100 && q2 == 0x100 * q3 + q2 % 0x100 && q3 < 0x100;
    [raw % 0x100, (raw / 0x100) % 0x100, (raw / 0x1_0000) % 0x100, (raw / 0x100_0000) % 0x100]
  }

  function ValueBytes(x: Raw): seq<byte> {
    match x
    case RVarint(v) => Varint(v)
    case RFixed64(o) => o
    case RBytes(b) => Varint(|b|) + b
    case RFixed32(raw) => Bytes32(raw)
  }

  function Encode(num: nat, x: Raw): seq<byte> { Varint(8 * num + WireType(x)) + ValueBytes(x) }

  /** The value has the kind that loop m reads for this number; an unlisted number may carry any. */
  predicate Fits(m: Msg, num: nat, x: Raw) {
    && 8 * num + 7 < TWO_64
    && (x.RFixed64? ==> |x.octets| == 8)
    && (x.RBytes? ==> |x.bytes| < TWO_63)
    && match ShapeOf(m, num)
       case LenDelim => x.RBytes?
       case VarintValue => x.RVarint?
       case Fixed32 => x.RFixed32?
       case Unlisted => true
  }

  function EventOf(m: Msg, num: nat, x: Raw): Event {
    Event(num,
          if ShapeOf(m, num).Unlisted? then Skipped
          else match x
               case RVarint(v) => Num(v)
               case RBytes(b) => Bytes(b)
               case RFixed32(raw) => Bits(raw)
               case RFixed64(_) => Skipped)
  }

  predicate Stands(data: seq<byte>, pos: nat, s: seq<byte>) {
    pos + |s| <= |data| && data[pos..pos + |s|] == s
  }

  lemma StandsParts(data: seq<byte>, pos: nat, a: seq<byte>, b: seq<byte>)
    requires Stands(data, pos, a + b)
    ensures Stands(data, pos, a) && Stands(data, pos + |a|, b)
  {
    var n := pos + |a| + |b|;
    assert data[pos..n] == a + b;
    assert data[pos..pos + |a|] == data[pos..n][..|a|];
    assert data[pos + |a|..n] == data[pos..n][|a|..];
  }

  lemma EncodedValue(m: Msg, num: nat, x: Raw, data: seq<byte>, p: nat)
    requires Fits(m, num, x) && Stands(data, p, ValueBytes(x)) && |data| < TWO_63
    ensures LexValue(m, data, 8 * num + WireType(x), p) == Field(EventOf(m, num, x), p + |ValueBytes(x)|)
    ensures x.RVarint? ==> ReadUvarint(data, p).Ok?
    ensures x.RBytes? ==> ReadUvarint(data, p) == Ok(|x.bytes|, p + |Varint(|x.bytes|)|)
  {
    hide ReadUvarint, Varint, LittleEndian32, Bytes32;
    assert (8 * num + WireType(x)) / 8 == num && (8 * num + WireType(x)) % 8 == WireType(x);
    match x
    case RVarint(v) => ReadVarint(v, data, p);
    case RBytes(b) =>
      StandsParts(data, p, Varint(|b|), b);
      ReadVarint(|b|, data, p);
    case _ =>
  }

  /** One iteration over an encoded field takes exactly that field, wherever it stands. */
  lemma EncodedField(m: Msg, num: nat, x: Raw, data: seq<byte>, pos: nat)
    requires Fits(m, num, x) && Stands(data, pos, Encode(num, x)) && |data| < TWO_63
    ensures Clean(m, data, pos)
    ensures Lex(m, data, pos) == Field(EventOf(m, num, x), pos + |Encode(num, x)|)
  {
    hide ReadUvarint, Varint, LexValue, EventOf, Stands, ValueBytes;
    var tag := 8 * num + WireType(x);
    StandsParts(data, pos, Varint(tag), ValueBytes(x));
    StandsIs(data, pos, Varint(tag));
    ReadVarint(tag, data, pos);
    EncodedValue(m, num, x, data, pos + |Varint(tag)|);
  }

  lemma StandsIs(data: seq<byte>, pos: nat, s: seq<byte>)
    requires Stands(data, pos, s)
    ensures pos + |s| <= |data| && data[pos..pos + |s|] == s
  {
  }

  // ---------------------------------------------------------------------
  // Lists of fields
  // ---------------------------------------------------------------------

  function EncodeAll(fs: seq<(nat, Raw)>): seq<byte>
    decreases |fs|
  {
    if fs == [] then [] else Encode(fs[0].0, fs[0].1) + EncodeAll(fs[1..])
  }

  function EventsOf(m: Msg, fs: seq<(nat, Raw)>): seq<Event>
    decreases |fs|
  {
    if fs == [] then [] else [EventOf(m, fs[0].0, fs[0].1)] + EventsOf(m, fs[1..])
  }

  predicate AllFit(m: Msg, fs: seq<(nat, Raw)>) {
    forall f | f in fs :: Fits(m, f.0, f.1)
  }

  /** Round trip for every list of fields, listed or not: the loop sees exactly those fields, in order. */
  lemma {:induction false} EncodedFields(m: Msg, fs: seq<(nat, Raw)>, data: seq<byte>, pos: nat, fuel: nat)
    requires AllFit(m, fs) && |data| < TWO_63
    requires pos + |EncodeAll(fs)| == |data| && data[pos..] == EncodeAll(fs)
    requires pos + fuel >= |data|
    ensures WellFormed(m, data, pos)
    ensures Run(m, data, pos, fuel) == Trace(EventsOf(m, fs), Finished)
    decreases |fs|
  {
    hide Lex, Clean, Encode, EventOf, Fits;
    if fs != [] {
      var e, rest := Encode(fs[0].0, fs[0].1), EncodeAll(fs[1..]);
      assert data[pos..pos + |e|] == data[pos..][..|e|];
      assert data[pos + |e|..] == data[pos..][|e|..];
      EncodedField(m, fs[0].0, fs[0].1, data, pos);
      CleanMoves(m, data, pos);
      EncodedFields(m, fs[1..], data, pos + |e|, fuel - 1);
    }
  }

  lemma CleanMoves(m: Msg, data: seq<byte>, pos: nat)
    requires Clean(m, data, pos)
    ensures Lex(m, data, pos).Field? && pos < Lex(m, data, pos).next <= |data|
  {
    hide Lex;
  }

  /** Any unlisted number with any of the four value kinds is an unlisted field. */
  lemma EncodedUnlisted(m: Msg, num: nat, x: Raw)
    requires Fits(m, num, x) && ShapeOf(m, num).Unlisted? && |Encode(num, x)| < TWO_63
    ensures UnlistedField(m, Encode(num, x))
  {
    hide Lex;
    var u := Encode(num, x);
    assert u[0..|u|] == u;
    EncodedField(m, num, x, u, 0);
  }

  /** An unlisted field inside a submessage, at any of its field boundaries, leaves the whole request unchanged. */
  lemma UnlistedInSubmessage(pre: seq<byte>, field: nat, a: seq<byte>, u: seq<byte>, b: seq<byte>, post: seq<byte>)
    requires 1 <= field <= 3
    requires var m := if field == 1 then Header else if field == 2 then Metrics else Status;
             WellFormed(m, a, 0) && UnlistedField(m, u) && Tame(m, b, 0)
    requires WellFormed(Request, pre, 0) && Tame(Request, post, 0)
    requires |pre + Encode(field, RBytes(a + u + b)) + post| < TWO_63
    requires |pre + Encode(field, RBytes(a + b)) + post| < TWO_63
    ensures Decoded(pre + Encode(field, RBytes(a + u + b)) + post) == Decoded(pre + Encode(field, RBytes(a + b)) + post)
  {
    hide WellFormed, Tame, UnlistedField, DecodedOnto, ParsedHeader, ParsedMetrics, ParsedStatus, Encode;
    SubmessageStep(EMPTY, pre, field, a + u + b, post);
    SubmessageStep(EMPTY, pre, field, a + b, post);
    EncodeLonger(field, a + u + b);
    match DecodedOnto(EMPTY, pre)
    case Done(q) =>
      if field == 1 { UnlistedInHeader(a, u, b, q.header); }
      else if field == 2 { UnlistedInMetrics(a, u, b, q.metrics); }
      else { UnlistedInStatus(a, u, b, q.status); }
    case _ =>
  }

  lemma EncodeLonger(num: nat, b: seq<byte>)
    ensures |Encode(num, RBytes(b))| >= |b|
  {
  }

  /** A submessage between whole fields and a tame rest is applied between them. */
  lemma SubmessageStep(p: PayloadRec, pre: seq<byte>, field: nat, sub: seq<byte>, post: seq<byte>)
    requires 1 <= field <= 3 && WellFormed(Request, pre, 0) && Tame(Request, post, 0)
    requires |pre + Encode(field, RBytes(sub)) + post| < TWO_63
    ensures Tame(Request, Encode(field, RBytes(sub)) + post, 0)
    ensures DecodedOnto(p, pre + Encode(field, RBytes(sub)) + post) ==
            ThenDecode(ThenApply(DecodedOnto(p, pre), Event(field, Bytes(sub))), post)
  {
    hide WellFormed, Tame, Lex, ParsedHeader, ParsedMetrics, ParsedStatus, Encode, Fits;
    var x := RBytes(sub);
    var e := Encode(field, x);
    EncodeLonger(field, sub);
    FitsBytes(field, sub);
    assert EncodeAll([(field, x)]) == e + EncodeAll([(field, x)][1..]) == e;
    assert e[0..] == e;
    EncodedFields(Request, [(field, x)], e, 0, |e|);
    var ev := Event(field, Bytes(sub));
    assert EventsOf(Request, [(field, x)]) == [EventOf(Request, field, x)] + EventsOf(Request, [(field, x)][1..]);
    assert [EventOf(Request, field, x)] + EventsOf(Request, [(field, x)][1..]) == [ev];
    WellFormedIsTame(Request, pre, 0);
    TameConcat(Request, e, post, 0);
    assert pre + e + post == pre + (e + post);
    MergeRequest(pre, e + post, p);
    match DecodedOnto(p, pre)
    case Done(q) =>
      MergeRequest(e, post, q);
      FoldOne(q, ev);
    case _ =>
  }

  lemma FoldOne(p: PayloadRec, e: Event)
    ensures FoldRequest(p, [e]) == ApplyRequest(p, e)
    ensures RequestOf(Trace([e], Finished), p) == ApplyRequest(p, e)
  {
    hide ApplyRequest;
    assert [e][1..] == [];
  }

  lemma FitsBytes(field: nat, sub: seq<byte>)
    requires 1 <= field <= 3 && |sub| < TWO_63
    ensures Fits(Request, field, RBytes(sub))
  {
  }

  function ThenApply(first: Outcome<PayloadRec>, e: Event): Outcome<PayloadRec> {
    match first
    case Done(q) => ApplyRequest(q, e)
    case o => o
  }

  // ---------------------------------------------------------------------
  // Repeated submessages
  // ---------------------------------------------------------------------

  /** Both succeed with the same payload, or neither does. */
  predicate SameIfDone(x: Outcome<PayloadRec>, y: Outcome<PayloadRec>) { x == y || (!x.Done? && !y.Done?) }

  /** Fields with different numbers write different parts of the payload. */
  lemma SwapApply(p: PayloadRec, x: Event, e: Event)
    requires x.field != e.field && ApplyRequest(p, x).Done? && ApplyRequest(p, e).Done?
    ensures ApplyRequest(ApplyRequest(p, x).value, e) == ApplyRequest(ApplyRequest(p, e).value, x)
  {
    ApplyEnds(p, x);
    ApplyEnds(p, e);
    ApplyEnds(ApplyRequest(p, x).value, e);
    ApplyEnds(ApplyRequest(p, e).value, x);
    hide ParsedHeader, ParsedMetrics, ParsedStatus, SubEnd;
  }

  /** A submessage may be applied before or after fields with other numbers. */
  lemma {:induction false} Commutes(p: PayloadRec, es: seq<Event>, e: Event)
    requires forall x | x in es :: x.field != e.field
    ensures SameIfDone(ThenApply(FoldRequest(p, es), e), Then(ApplyRequest(p, e), es))
    decreases |es|
  {
    hide ApplyRequest, SubEnd;
    if es != [] {
      var x := es[0];
      ApplyEnds(p, x);
      ApplyEnds(p, e);
      if ApplyRequest(p, x).Done? {
        var q := ApplyRequest(p, x).value;
        Commutes(q, es[1..], e);
        ApplyEnds(q, e);
        if ApplyRequest(p, e).Done? { SwapApply(p, x, e); }
      } else if ApplyRequest(p, e).Done? {
        ApplyEnds(ApplyRequest(p, e).value, x);
      }
    }
  }

  /** Whole fields decode to the fold of their events. */
  lemma WellFormedFolds(p: PayloadRec, data: seq<byte>)
    requires WellFormed(Request, data, 0) && |data| < TWO_63
    ensures DecodedOnto(p, data) == FoldRequest(p, Run(Request, data, 0, |data|).events)
  {
    hide Run, FoldRequest;
    assert data + [] == data;
    assert Tame(Request, [], 0);
    RunConcat(Request, data, [], 0, |data|);
  }

  /**
   * A submessage sent twice, other fields in between, decodes as one submessage
   * holding both contents: with the same payload, or to no payload at all.
   */
  lemma RepeatedSubmessageMerges(pre: seq<byte>, field: nat, a: seq<byte>, mid: seq<byte>, b: seq<byte>,
      post: seq<byte>)
    requires 1 <= field <= 3
    requires var m := if field == 1 then Header else if field == 2 then Metrics else Status;
             WellFormed(m, a, 0) && Tame(m, b, 0)
    requires WellFormed(Request, pre, 0) && WellFormed(Request, mid, 0) && Tame(Request, post, 0)
    requires forall e | e in Run(Request, mid, 0, |mid|).events :: e.field != field
    requires |pre + Encode(field, RBytes(a)) + (mid + Encode(field, RBytes(b)) + post)| < TWO_63
    requires |pre + Encode(field, RBytes(a + b)) + (mid + post)| < TWO_63
    ensures SameIfDone(Decoded(pre + Encode(field, RBytes(a)) + (mid + Encode(field, RBytes(b)) + post)),
                       Decoded(pre + Encode(field, RBytes(a + b)) + (mid + post)))
  {
    hide WellFormed, Tame, Run, FoldRequest, ApplyRequest, DecodedOnto, Encode;
    EncodeLonger(field, a + b);
    var eb := Encode(field, RBytes(b));
    var (va, vb, vab) := (Event(field, Bytes(a)), Event(field, Bytes(b)), Event(field, Bytes(a + b)));
    var es := Run(Request, mid, 0, |mid|).events;
    WellFormedIsTame(Request, mid, 0);
    SubmessageStep(EMPTY, mid, field, b, post);
    TameConcat(Request, mid, eb + post, 0);
    assert mid + (eb + post) == mid + eb + post;
    TameConcat(Request, mid, post, 0);
    SubmessageStep(EMPTY, pre, field, a, mid + eb + post);
    SubmessageStep(EMPTY, pre, field, a + b, mid + post);
    match DecodedOnto(EMPTY, pre)
    case Done(q) =>
      AdjacentSubmessages(q, field, a, b);
      var qa := ApplyRequest(q, va).value;
      SubmessageStep(qa, mid, field, b, post);
      WellFormedFolds(qa, mid);
      Commutes(qa, es, vb);
      match ApplyRequest(q, vab) {
        case Done(r) =>
          MergeRequest(mid, post, r);
          WellFormedFolds(r, mid);
        case _ =>
      }
    case _ =>
  }
}
