/**
 * Laws of the decoder: concatenation merges, the last occurrence of a field
 * wins, repeated submessages merge, and unlisted fields are invisible.
 */
module DecoderLaws {
  import opened Basics
  import opened Varints
  import opened Wire
  import opened Decoder

  // ---------------------------------------------------------------------
  // Folds over concatenations
  // ---------------------------------------------------------------------

  lemma {:induction false} FoldHeaderConcat(h: HeaderRec, a: seq<Event>, b: seq<Event>)
    ensures FoldHeader(h, a + b) == FoldHeader(FoldHeader(h, a), b)
    decreases |a|
  {
    hide ApplyHeader;
    if a == [] {
      assert a + b == b;
    } else {
      assert (a + b)[1..] == a[1..] + b;
      FoldHeaderConcat(ApplyHeader(h, a[0]), a[1..], b);
    }
  }

  lemma {:induction false} FoldMetricsConcat(r: MetricsRec, a: seq<Event>, b: seq<Event>)
    ensures FoldMetrics(r, a + b) == FoldMetrics(FoldMetrics(r, a), b)
    decreases |a|
  {
    hide ApplyMetrics;
    if a == [] {
      assert a + b == b;
    } else {
      assert (a + b)[1..] == a[1..] + b;
      FoldMetricsConcat(ApplyMetrics(r, a[0]), a[1..], b);
    }
  }

  lemma {:induction false} FoldStatusConcat(s: StatusRec, a: seq<Event>, b: seq<Event>)
    ensures FoldStatus(s, a + b) == FoldStatus(FoldStatus(s, a), b)
    decreases |a|
  {
    hide ApplyStatus;
    if a == [] {
      assert a + b == b;
    } else {
      assert (a + b)[1..] == a[1..] + b;
      FoldStatusConcat(ApplyStatus(s, a[0]), a[1..], b);
    }
  }

  /** Continue with f only when the first half succeeded. */
  function Then(first: Outcome<PayloadRec>, es: seq<Event>): Outcome<PayloadRec> {
    match first
    case Done(q) => FoldRequest(q, es)
    case e => e
  }

  lemma {:induction false} FoldRequestConcat(p: PayloadRec, a: seq<Event>, b: seq<Event>)
    ensures FoldRequest(p, a + b) == Then(FoldRequest(p, a), b)
    decreases |a|
  {
    hide ApplyRequest;
    if a == [] {
      assert a + b == b;
    } else {
      assert (a + b)[1..] == a[1..] + b;
      match ApplyRequest(p, a[0])
      case Done(q) => FoldRequestConcat(q, a[1..], b);
      case _ =>
    }
  }

  // ---------------------------------------------------------------------
  // Merge
  // ---------------------------------------------------------------------

  lemma MergeHeader(a: seq<byte>, b: seq<byte>, h: HeaderRec)
    requires WellFormed(Header, a, 0) && Tame(Header, b, 0) && |a + b| < TWO_63
    ensures ParsedHeader(a, h).Done?
    ensures ParsedHeader(a + b, h) == ParsedHeader(b, ParsedHeader(a, h).value)
  {
    hide Run, WellFormed, Tame, FoldHeader;
    RunConcat(Header, a, b, 0, |a + b|);
    FoldHeaderConcat(h, Run(Header, a, 0, |a|).events, Run(Header, b, 0, |b|).events);
  }

  lemma MergeMetrics(a: seq<byte>, b: seq<byte>, r: MetricsRec)
    requires WellFormed(Metrics, a, 0) && Tame(Metrics, b, 0) && |a + b| < TWO_63
    ensures ParsedMetrics(a, r).Done?
    ensures ParsedMetrics(a + b, r) == ParsedMetrics(b, ParsedMetrics(a, r).value)
  {
    hide Run, WellFormed, Tame, FoldMetrics;
    RunConcat(Metrics, a, b, 0, |a + b|);
    FoldMetricsConcat(r, Run(Metrics, a, 0, |a|).events, Run(Metrics, b, 0, |b|).events);
  }

  lemma MergeStatus(a: seq<byte>, b: seq<byte>, s: StatusRec)
    requires WellFormed(Status, a, 0) && Tame(Status, b, 0) && |a + b| < TWO_63
    ensures ParsedStatus(a, s).Done?
    ensures ParsedStatus(a + b, s) == ParsedStatus(b, ParsedStatus(a, s).value)
  {
    hide Run, WellFormed, Tame, FoldStatus;
    RunConcat(Status, a, b, 0, |a + b|);
    FoldStatusConcat(s, Run(Status, a, 0, |a|).events, Run(Status, b, 0, |b|).events);
  }

  /** Decode b on top of a result, unless that result is already an error or a hang. */
  function ThenDecode(first: Outcome<PayloadRec>, b: seq<byte>): Outcome<PayloadRec> {
    match first
    case Done(q) => DecodedOnto(q, b)
    case e => e
  }

  /**
   * Decoding whole fields a followed by b is decoding b on top of the result of
   * a; an error inside a submessage of a, or a hang, is the result of both.
   */
  lemma MergeRequest(a: seq<byte>, b: seq<byte>, p: PayloadRec)
    requires WellFormed(Request, a, 0) && Tame(Request, b, 0) && |a + b| < TWO_63
    ensures DecodedOnto(p, a + b) == ThenDecode(DecodedOnto(p, a), b)
  {
    hide Run, WellFormed, Tame, FoldRequest;
    RunConcat(Request, a, b, 0, |a + b|);
    FoldRequestConcat(p, Run(Request, a, 0, |a|).events, Run(Request, b, 0, |b|).events);
  }

  function Joined(parts: seq<seq<byte>>): seq<byte> { if parts == [] then [] else parts[0] + Joined(parts[1..]) }

  /** Decode the parts one on top of the other, up to the first that is no payload. */
  function DecodedParts(p: PayloadRec, parts: seq<seq<byte>>): Outcome<PayloadRec>
    decreases |parts|
  {
    if parts == [] then Done(p)
    else
      match DecodedOnto(p, parts[0])
      case Done(q) => DecodedParts(q, parts[1..])
      case e => e
  }

  lemma {:induction false} JoinedWellFormed(parts: seq<seq<byte>>)
    requires (forall a | a in parts :: WellFormed(Request, a, 0)) && |Joined(parts)| < TWO_63
    ensures WellFormed(Request, Joined(parts), 0)
    decreases |parts|
  {
    hide Lex, Clean;
    if parts != [] {
      assert parts[0] in parts && forall a | a in parts[1..] :: a in parts;
      JoinedWellFormed(parts[1..]);
      WellFormedConcat(Request, parts[0], Joined(parts[1..]), 0);
    }
  }

  /** The merge law for any number of parts. */
  lemma {:induction false} MergeParts(p: PayloadRec, parts: seq<seq<byte>>)
    requires (forall a | a in parts :: WellFormed(Request, a, 0)) && |Joined(parts)| < TWO_63
    ensures DecodedOnto(p, Joined(parts)) == DecodedParts(p, parts)
    decreases |parts|
  {
    hide WellFormed, Tame, Lex;
    if parts != [] {
      hide DecodedOnto;
      var rest := Joined(parts[1..]);
      assert parts[0] in parts && forall a | a in parts[1..] :: a in parts;
      JoinedWellFormed(parts[1..]);
      WellFormedIsTame(Request, rest, 0);
      MergeRequest(parts[0], rest, p);
      match DecodedOnto(p, parts[0])
      case Done(q) => MergeParts(q, parts[1..]);
      case _ =>
    }
  }

  /** Two adjacent occurrences of one submessage act as a single one holding both contents. */
  lemma AdjacentSubmessages(p: PayloadRec, field: nat, a: seq<byte>, b: seq<byte>)
    requires 1 <= field <= 3
    requires var m := if field == 1 then Header else if field == 2 then Metrics else Status;
             WellFormed(m, a, 0) && Tame(m, b, 0)
    requires |a + b| < TWO_63
    ensures ApplyRequest(p, Event(field, Bytes(a))).Done?
    ensures ApplyRequest(ApplyRequest(p, Event(field, Bytes(a))).value, Event(field, Bytes(b))) ==
            ApplyRequest(p, Event(field, Bytes(a + b)))
  {
    hide ParsedHeader, ParsedMetrics, ParsedStatus, WellFormed, Tame;
    if field == 1 { MergeHeader(a, b, p.header); }
    else if field == 2 { MergeMetrics(a, b, p.metrics); }
    else { MergeStatus(a, b, p.status); }
  }

  // ---------------------------------------------------------------------
  // Last one wins
  // ---------------------------------------------------------------------

  /** The last occurrence of a field, in an independent right-to-left reading. */
  function Last(es: seq<Event>, field: nat): Option<Payload>
    decreases |es|
  {
    if es == [] then None
    else if es[|es| - 1].field == field then Some(es[|es| - 1].payload)
    else Last(es[..|es| - 1], field)
  }

  /** Events as the loops produce them: every listed field carries its own kind of payload. */
  predicate Typed(m: Msg, e: Event) {
    match ShapeOf(m, e.field)
    case LenDelim => e.payload.Bytes?
    case VarintValue => e.payload.Num?
    case Fixed32 => e.payload.Bits?
    case Unlisted => e.payload.Skipped?
  }

  lemma {:induction false} RunTyped(m: Msg, data: seq<byte>, pos: nat, fuel: nat)
    ensures forall e | e in Run(m, data, pos, fuel).events :: Typed(m, e)
    decreases fuel
  {
    if Goes(m, data, pos) && fuel > 0 {
      LexTyped(m, data, pos);
      hide Lex, Typed;
      RunTyped(m, data, Lex(m, data, pos).next, fuel - 1);
    }
  }

  lemma LexTyped(m: Msg, data: seq<byte>, pos: nat)
    requires Lex(m, data, pos).Field?
    ensures Typed(m, Lex(m, data, pos).event)
  {
    hide ReadUvarint, LittleEndian32, SeekTarget;
  }

  /** r is h, each field overwritten by its last occurrence among es, if it has one. */
  predicate HeaderFromLast(r: HeaderRec, h: HeaderRec, es: seq<Event>) {
    && (match Last(es, 1)
        case Some(v) => v.Bytes? && r.deviceId == v.bytes
        case None => r.deviceId == h.deviceId)
    && (match Last(es, 2)
        case Some(v) => v.Num? && r.timestamp == AsInt64(v.num)
        case None => r.timestamp == h.timestamp)
    && (match Last(es, 3)
        case Some(v) => v.Num? && r.seqNo == AsUint32(v.num)
        case None => r.seqNo == h.seqNo)
    && (match Last(es, 4)
        case Some(v) => v.Bytes? && r.firmware == v.bytes
        case None => r.firmware == h.firmware)
    && (match Last(es, 5)
        case Some(v) => v.Num? && r.bootCount == AsUint32(v.num)
        case None => r.bootCount == h.bootCount)
  }

  predicate MetricsFromLast(q: MetricsRec, r: MetricsRec, es: seq<Event>) {
    && (match Last(es, 1)
        case Some(v) => v.Bits? && q.temperature == v.raw
        case None => q.temperature == r.temperature)
    && (match Last(es, 2)
        case Some(v) => v.Bits? && q.humidity == v.raw
        case None => q.humidity == r.humidity)
    && (match Last(es, 3)
        case Some(v) => v.Bits? && q.voltage == v.raw
        case None => q.voltage == r.voltage)
    && (match Last(es, 4)
        case Some(v) => v.Num? && q.level == AsUint32(v.num)
        case None => q.level == r.level)
    && (match Last(es, 5)
        case Some(v) => v.Num? && q.rssi == AsInt32(v.num)
        case None => q.rssi == r.rssi)
    && (match Last(es, 6)
        case Some(v) => v.Num? && q.interval == AsUint32(v.num)
        case None => q.interval == r.interval)
  }

  predicate StatusFromLast(r: StatusRec, s: StatusRec, es: seq<Event>) {
    && (match Last(es, 1)
        case Some(v) => v.Num? && r.state == StateName(v.num)
        case None => r.state == s.state)
    && (match Last(es, 2)
        case Some(v) => v.Num? && r.uptime == AsUint32(v.num)
        case None => r.uptime == s.uptime)
    && (match Last(es, 3)
        case Some(v) => v.Num? && r.freeHeap == AsUint32(v.num)
        case None => r.freeHeap == s.freeHeap)
  }

  lemma {:induction false} FoldHeaderLast(h: HeaderRec, es: seq<Event>)
    requires forall e | e in es :: Typed(Header, e)
    ensures HeaderFromLast(FoldHeader(h, es), h, es)
    decreases |es|
  {
    if es != [] {
      var n := |es| - 1;
      FoldHeaderLast(h, es[..n]);
      FoldHeaderConcat(h, es[..n], [es[n]]);
      assert es == es[..n] + [es[n]] && [es[n]][1..] == [];
      assert FoldHeader(h, es) == ApplyHeader(FoldHeader(h, es[..n]), es[n]);
      HeaderLastStep(FoldHeader(h, es[..n]), h, es[..n], es[n]);
    }
  }

  lemma HeaderLastStep(r: HeaderRec, h: HeaderRec, es: seq<Event>, e: Event)
    requires HeaderFromLast(r, h, es) && Typed(Header, e)
    ensures HeaderFromLast(ApplyHeader(r, e), h, es + [e])
  {
    hide Last;
    LastSnoc(es, e, 1); LastSnoc(es, e, 2); LastSnoc(es, e, 3); LastSnoc(es, e, 4); LastSnoc(es, e, 5);
  }

  lemma {:induction false} FoldMetricsLast(r: MetricsRec, es: seq<Event>)
    requires forall e | e in es :: Typed(Metrics, e)
    ensures MetricsFromLast(FoldMetrics(r, es), r, es)
    decreases |es|
  {
    if es != [] {
      var n := |es| - 1;
      FoldMetricsLast(r, es[..n]);
      FoldMetricsConcat(r, es[..n], [es[n]]);
      assert es == es[..n] + [es[n]] && [es[n]][1..] == [];
      assert FoldMetrics(r, es) == ApplyMetrics(FoldMetrics(r, es[..n]), es[n]);
      MetricsLastStep(FoldMetrics(r, es[..n]), r, es[..n], es[n]);
    }
  }

  lemma LastSnoc(es: seq<Event>, e: Event, field: nat)
    ensures Last(es + [e], field) == if e.field == field then Some(e.payload) else Last(es, field)
  {
    assert (es + [e])[..|es|] == es;
  }

  lemma MetricsLastStep(q: MetricsRec, r: MetricsRec, es: seq<Event>, e: Event)
    requires MetricsFromLast(q, r, es) && Typed(Metrics, e)
    ensures MetricsFromLast(ApplyMetrics(q, e), r, es + [e])
  {
    hide Last;
    LastSnoc(es, e, 1); LastSnoc(es, e, 2); LastSnoc(es, e, 3);
    LastSnoc(es, e, 4); LastSnoc(es, e, 5); LastSnoc(es, e, 6);
  }

  lemma {:induction false} FoldStatusLast(s: StatusRec, es: seq<Event>)
    requires forall e | e in es :: Typed(Status, e)
    ensures StatusFromLast(FoldStatus(s, es), s, es)
    decreases |es|
  {
    if es != [] {
      var n := |es| - 1;
      FoldStatusLast(s, es[..n]);
      FoldStatusConcat(s, es[..n], [es[n]]);
      assert es == es[..n] + [es[n]] && [es[n]][1..] == [];
      assert FoldStatus(s, es) == ApplyStatus(FoldStatus(s, es[..n]), es[n]);
      StatusLastStep(FoldStatus(s, es[..n]), s, es[..n], es[n]);
    }
  }

  lemma StatusLastStep(r: StatusRec, s: StatusRec, es: seq<Event>, e: Event)
    requires StatusFromLast(r, s, es) && Typed(Status, e)
    ensures StatusFromLast(ApplyStatus(r, e), s, es + [e])
  {
    hide Last, StateName;
    LastSnoc(es, e, 1); LastSnoc(es, e, 2); LastSnoc(es, e, 3);
  }

  /** Whatever bytes were parsed: each header field is its last occurrence in them, or as it was. */
  lemma HeaderLastOneWins(data: seq<byte>, h: HeaderRec)
    requires ParsedHeader(data, h).Done?
    ensures HeaderFromLast(ParsedHeader(data, h).value, h, Run(Header, data, 0, |data|).events)
  {
    hide HeaderFromLast, Run, Typed;
    RunTyped(Header, data, 0, |data|);
    FoldHeaderLast(h, Run(Header, data, 0, |data|).events);
  }

  lemma MetricsLastOneWins(data: seq<byte>, r: MetricsRec)
    requires ParsedMetrics(data, r).Done?
    ensures MetricsFromLast(ParsedMetrics(data, r).value, r, Run(Metrics, data, 0, |data|).events)
  {
    hide MetricsFromLast, Run, Typed;
    RunTyped(Metrics, data, 0, |data|);
    FoldMetricsLast(r, Run(Metrics, data, 0, |data|).events);
  }

  lemma StatusLastOneWins(data: seq<byte>, s: StatusRec)
    requires ParsedStatus(data, s).Done?
    ensures StatusFromLast(ParsedStatus(data, s).value, s, Run(Status, data, 0, |data|).events)
  {
    hide StatusFromLast, Run, Typed;
    RunTyped(Status, data, 0, |data|);
    FoldStatusLast(s, Run(Status, data, 0, |data|).events);
  }

  // ---------------------------------------------------------------------
  // Unlisted fields
  // ---------------------------------------------------------------------

  /** u is exactly one well-formed field whose number loop m does not list. */
  predicate UnlistedField(m: Msg, u: seq<byte>) {
    u != [] && Clean(m, u, 0) && Lex(m, u, 0).next == |u| && Lex(m, u, 0).event.payload.Skipped?
  }

  /** With u inserted at a field boundary the loop sees one more skipped field and nothing else. */
  lemma InsertedRun(m: Msg, a: seq<byte>, u: seq<byte>, b: seq<byte>)
    requires WellFormed(m, a, 0) && UnlistedField(m, u) && Tame(m, b, 0) && |a + u + b| < TWO_63
    ensures WellFormed(m, u, 0) && Tame(m, u + b, 0)
    ensures Lex(m, u, 0).Field? && Lex(m, u, 0).event.payload.Skipped?
    ensures Run(m, u + b, 0, |u + b|) ==
            Trace([Lex(m, u, 0).event] + Run(m, b, 0, |b|).events, Run(m, b, 0, |b|).end)
  {
    hide Lex, SkipAt, Tame;
    assert WellFormed(m, u, |u|);
    TameConcat(m, u, b, 0);
    RunConcat(m, u, b, 0, |u + b|);
    var e := Lex(m, u, 0).event;
    assert Run(m, u, |u|, |u| - 1) == Trace([], Finished);
    assert Run(m, u, 0, |u|) == Trace([e], Finished);
  }

  lemma UnlistedInHeader(a: seq<byte>, u: seq<byte>, b: seq<byte>, h: HeaderRec)
    requires WellFormed(Header, a, 0) && UnlistedField(Header, u) && Tame(Header, b, 0) && |a + u + b| < TWO_63
    ensures ParsedHeader(a + u + b, h) == ParsedHeader(a + b, h)
  {
    hide WellFormed, Tame, UnlistedField, Run, Lex;
    InsertedRun(Header, a, u, b);
    assert a + u + b == a + (u + b);
    MergeHeader(a, u + b, h);
    MergeHeader(a, b, h);
    var es := Run(Header, b, 0, |b|).events;
    assert ([Lex(Header, u, 0).event] + es)[1..] == es;
  }

  lemma UnlistedInMetrics(a: seq<byte>, u: seq<byte>, b: seq<byte>, r: MetricsRec)
    requires WellFormed(Metrics, a, 0) && UnlistedField(Metrics, u) && Tame(Metrics, b, 0) && |a + u + b| < TWO_63
    ensures ParsedMetrics(a + u + b, r) == ParsedMetrics(a + b, r)
  {
    hide WellFormed, Tame, UnlistedField, Run, Lex;
    InsertedRun(Metrics, a, u, b);
    assert a + u + b == a + (u + b);
    MergeMetrics(a, u + b, r);
    MergeMetrics(a, b, r);
    var es := Run(Metrics, b, 0, |b|).events;
    assert ([Lex(Metrics, u, 0).event] + es)[1..] == es;
  }

  lemma UnlistedInStatus(a: seq<byte>, u: seq<byte>, b: seq<byte>, s: StatusRec)
    requires WellFormed(Status, a, 0) && UnlistedField(Status, u) && Tame(Status, b, 0) && |a + u + b| < TWO_63
    ensures ParsedStatus(a + u + b, s) == ParsedStatus(a + b, s)
  {
    hide WellFormed, Tame, UnlistedField, Run, Lex;
    InsertedRun(Status, a, u, b);
    assert a + u + b == a + (u + b);
    MergeStatus(a, u + b, s);
    MergeStatus(a, b, s);
    var es := Run(Status, b, 0, |b|).events;
    assert ([Lex(Status, u, 0).event] + es)[1..] == es;
  }

  lemma UnlistedInRequest(a: seq<byte>, u: seq<byte>, b: seq<byte>, p: PayloadRec)
    requires WellFormed(Request, a, 0) && UnlistedField(Request, u) && Tame(Request, b, 0) && |a + u + b| < TWO_63
    ensures DecodedOnto(p, a + u + b) == DecodedOnto(p, a + b)
  {
    hide WellFormed, Tame, UnlistedField, Run, Lex;
    InsertedRun(Request, a, u, b);
    assert a + u + b == a + (u + b);
    MergeRequest(a, u + b, p);
    MergeRequest(a, b, p);
    var es := Run(Request, b, 0, |b|).events;
    assert ([Lex(Request, u, 0).event] + es)[1..] == es;
  }
}
