/**
 * serialize_telemetry_protobuf: the C encoder with its scratch buffers and
 * running offsets, the bounds of those buffers, and the round trip through the
 * Go decoder.
 */
module Encoder {
  import opened Basics
  import opened Varints
  import opened Wire
  import opened Decoder
  import opened DecoderLaws
  import opened Fields

  // ---------------------------------------------------------------------
  // Meaning
  // ---------------------------------------------------------------------

  function DeviceId(d: Telemetry): seq<byte> { if d.deviceId.Some? then d.deviceId.value else Ascii("UNKNOWN") }
  function Firmware(d: Telemetry): seq<byte> { if d.firmware.Some? then d.firmware.value else Ascii("1.0.0") }

  function StateEnum(d: Telemetry): uint64 {
    if d.state == Some(LOW_POWER) then 1
    else if d.state == Some(WARNING) then 2
    else if d.state == Some(ERROR) then 3
    else 0
  }

  function HeaderFields(d: Telemetry): seq<(nat, Raw)> {
    [(1, RBytes(DeviceId(d))), (2, RVarint(d.timestamp)), (3, RVarint(d.seqNo)), (4, RBytes(Firmware(d))),
     (5, RVarint(d.bootCount))]
  }

  function MetricsFields(d: Telemetry): seq<(nat, Raw)> {
    [(1, RFixed32(d.temperature)), (2, RFixed32(d.humidity)), (3, RFixed32(d.voltage)),
     (4, RVarint(d.level)), (5, RVarint(SignExtend(d.rssi))), (6, RVarint(d.interval))]
  }

  function StatusFields(d: Telemetry): seq<(nat, Raw)> {
    [(1, RVarint(StateEnum(d))), (2, RVarint(d.uptime)), (3, RVarint(d.freeHeap))]
  }

  function HeaderBytes(d: Telemetry): seq<byte> { EncodeAll(HeaderFields(d)) }
  function MetricsBytes(d: Telemetry): seq<byte> { EncodeAll(MetricsFields(d)) }
  function StatusBytes(d: Telemetry): seq<byte> { EncodeAll(StatusFields(d)) }

  function RequestFields(d: Telemetry): seq<(nat, Raw)> {
    [(1, RBytes(HeaderBytes(d))), (2, RBytes(MetricsBytes(d))), (3, RBytes(StatusBytes(d)))]
  }

  function RequestBytes(d: Telemetry): seq<byte> { EncodeAll(RequestFields(d)) }

  function ShownState(d: Telemetry): seq<byte> {
    if d.state in {Some(LOW_POWER), Some(WARNING), Some(ERROR)} then d.state.value else NORMAL
  }

  /** The payload the server should see: null strings defaulted, any unlisted state read as NORMAL. */
  function Sent(d: Telemetry): PayloadRec {
    PayloadRec(
      HeaderRec(if d.deviceId.Some? then d.deviceId.value else Ascii("UNKNOWN"), d.timestamp, d.seqNo,
                if d.firmware.Some? then d.firmware.value else Ascii("1.0.0"), d.bootCount),
      MetricsRec(d.temperature, d.humidity, d.voltage, d.level, d.rssi, d.interval),
      StatusRec(ShownState(d), d.uptime, d.freeHeap))
  }

  /** p holds what d holds, field by field; null strings are defaulted and any other state is NORMAL. */
  predicate Survives(d: Telemetry, p: PayloadRec) {
    && p.header.deviceId == (if d.deviceId.Some? then d.deviceId.value else Ascii("UNKNOWN"))
    && p.header.firmware == (if d.firmware.Some? then d.firmware.value else Ascii("1.0.0"))
    && p.header.timestamp == d.timestamp && p.header.seqNo == d.seqNo && p.header.bootCount == d.bootCount
    && p.metrics.temperature == d.temperature && p.metrics.humidity == d.humidity && p.metrics.voltage == d.voltage
    && p.metrics.level == d.level && p.metrics.rssi == d.rssi && p.metrics.interval == d.interval
    && p.status.uptime == d.uptime && p.status.freeHeap == d.freeHeap
    && (d.state == Some(Ascii("LOW_POWER")) ==> p.status.state == Ascii("LOW_POWER"))
    && (d.state == Some(Ascii("WARNING")) ==> p.status.state == Ascii("WARNING"))
    && (d.state == Some(Ascii("ERROR")) ==> p.status.state == Ascii("ERROR"))
    && (d.state !in {Some(Ascii("LOW_POWER")), Some(Ascii("WARNING")), Some(Ascii("ERROR"))} ==>
          p.status.state == Ascii("NORMAL"))
  }

  // ---------------------------------------------------------------------
  // Round trip
  // ---------------------------------------------------------------------

  /** With distinct field numbers every occurrence is the last. */
  lemma {:induction false} LastAt(es: seq<Event>, k: nat)
    requires k < |es| && forall j | k < j < |es| :: es[j].field != es[k].field
    ensures Last(es, es[k].field) == Some(es[k].payload)
    decreases |es|
  {
    if k < |es| - 1 { LastAt(es[..|es| - 1], k); }
  }

  lemma {:induction false} EventsUnroll(m: Msg, fs: seq<(nat, Raw)>)
    ensures |EventsOf(m, fs)| == |fs|
    ensures forall i | 0 <= i < |fs| :: EventsOf(m, fs)[i] == EventOf(m, fs[i].0, fs[i].1)
    decreases |fs|
  {
    hide EventOf;
    if fs != [] { EventsUnroll(m, fs[1..]); }
  }

  lemma {:induction false} EncodeAllLonger(fs: seq<(nat, Raw)>, k: nat)
    requires k < |fs|
    ensures |EncodeAll(fs)| >= |Encode(fs[k].0, fs[k].1)|
    ensures fs[k].1.RBytes? ==> |EncodeAll(fs)| >= |fs[k].1.bytes|
    decreases |fs|
  {
    if k > 0 { EncodeAllLonger(fs[1..], k - 1); }
  }

  function HeaderEvents(d: Telemetry): seq<Event> {
    [Event(1, Bytes(DeviceId(d))), Event(2, Num(d.timestamp)), Event(3, Num(d.seqNo)), Event(4, Bytes(Firmware(d))),
     Event(5, Num(d.bootCount))]
  }

  lemma HeaderEventList(d: Telemetry)
    ensures EventsOf(Header, HeaderFields(d)) == HeaderEvents(d)
  {
    hide EventsOf;
    EventsUnroll(Header, HeaderFields(d));
  }

  lemma HeaderMeaning(d: Telemetry, h: HeaderRec)
    ensures FoldHeader(h, HeaderEvents(d)) == Sent(d).header
  {
    var es := HeaderEvents(d);
    FoldHeaderLast(h, es);
    LastAt(es, 0); LastAt(es, 1); LastAt(es, 2); LastAt(es, 3); LastAt(es, 4);
  }

  lemma HeaderRoundTrip(d: Telemetry, h: HeaderRec)
    requires |HeaderBytes(d)| < TWO_63
    ensures ParsedHeader(HeaderBytes(d), h) == Done(Sent(d).header)
  {
    hide Lex, Encode, EventsOf, Sent, HeaderEvents, FoldHeader, DeviceId, Firmware;
    var data := HeaderBytes(d);
    EncodeAllLonger(HeaderFields(d), 0);
    EncodeAllLonger(HeaderFields(d), 3);
    assert data[0..] == data;
    EncodedFields(Header, HeaderFields(d), data, 0, |data|);
    HeaderEventList(d);
    HeaderMeaning(d, h);
  }

  function MetricsEvents(d: Telemetry): seq<Event> {
    [Event(1, Bits(d.temperature)), Event(2, Bits(d.humidity)), Event(3, Bits(d.voltage)), Event(4, Num(d.level)),
     Event(5, Num(SignExtend(d.rssi))), Event(6, Num(d.interval))]
  }

  lemma MetricsEventList(d: Telemetry)
    ensures EventsOf(Metrics, MetricsFields(d)) == MetricsEvents(d)
  {
    hide EventsOf;
    EventsUnroll(Metrics, MetricsFields(d));
  }

  lemma MetricsMeaning(d: Telemetry, r: MetricsRec)
    ensures FoldMetrics(r, MetricsEvents(d)) == Sent(d).metrics
  {
    hide DeviceId, Firmware;
    var es := MetricsEvents(d);
    FoldMetricsLast(r, es);
    LastAt(es, 0); LastAt(es, 1); LastAt(es, 2); LastAt(es, 3); LastAt(es, 4); LastAt(es, 5);
    assert AsInt32(SignExtend(d.rssi)) == d.rssi;
  }

  lemma MetricsRoundTrip(d: Telemetry, r: MetricsRec)
    requires |MetricsBytes(d)| < TWO_63
    ensures ParsedMetrics(MetricsBytes(d), r) == Done(Sent(d).metrics)
  {
    hide Lex, Encode, EventsOf, Sent, MetricsEvents, FoldMetrics, DeviceId, Firmware;
    var data := MetricsBytes(d);
    assert data[0..] == data;
    EncodedFields(Metrics, MetricsFields(d), data, 0, |data|);
    MetricsEventList(d);
    MetricsMeaning(d, r);
  }

  function StatusEvents(d: Telemetry): seq<Event> {
    [Event(1, Num(StateEnum(d))), Event(2, Num(d.uptime)), Event(3, Num(d.freeHeap))]
  }

  lemma StatusEventList(d: Telemetry)
    ensures EventsOf(Status, StatusFields(d)) == StatusEvents(d)
  {
    hide EventsOf;
    EventsUnroll(Status, StatusFields(d));
  }

  lemma StatusMeaning(d: Telemetry, s: StatusRec)
    ensures FoldStatus(s, StatusEvents(d)) == Sent(d).status
  {
    hide DeviceId, Firmware;
    var es := StatusEvents(d);
    FoldStatusLast(s, es);
    LastAt(es, 0); LastAt(es, 1); LastAt(es, 2);
  }

  lemma StatusRoundTrip(d: Telemetry, s: StatusRec)
    requires |StatusBytes(d)| < TWO_63
    ensures ParsedStatus(StatusBytes(d), s) == Done(Sent(d).status)
  {
    hide Lex, Encode, EventsOf, Sent, StatusEvents, FoldStatus, DeviceId, Firmware;
    var data := StatusBytes(d);
    assert data[0..] == data;
    EncodedFields(Status, StatusFields(d), data, 0, |data|);
    StatusEventList(d);
    StatusMeaning(d, s);
  }

  function RequestEvents(d: Telemetry): seq<Event> {
    [Event(1, Bytes(HeaderBytes(d))), Event(2, Bytes(MetricsBytes(d))), Event(3, Bytes(StatusBytes(d)))]
  }

  lemma RequestEventList(d: Telemetry)
    ensures EventsOf(Request, RequestFields(d)) == RequestEvents(d)
  {
    hide EventsOf, HeaderBytes, MetricsBytes, StatusBytes;
    EventsUnroll(Request, RequestFields(d));
  }

  /** The Go decoder recovers every record the C encoder writes, whatever it was decoded onto. */
  lemma RoundTrip(d: Telemetry, p: PayloadRec)
    requires |RequestBytes(d)| < TWO_63
    ensures DecodedOnto(p, RequestBytes(d)) == Done(Sent(d)) && Survives(d, Sent(d))
  {
    SentSurvives(d);
    hide Lex, Encode, EventsOf, Run, Sent, HeaderBytes, MetricsBytes, StatusBytes, ParsedHeader, ParsedMetrics,
        ParsedStatus;
    var data := RequestBytes(d);
    EncodeAllLonger(RequestFields(d), 0);
    EncodeAllLonger(RequestFields(d), 1);
    EncodeAllLonger(RequestFields(d), 2);
    assert data[0..] == data;
    EncodedFields(Request, RequestFields(d), data, 0, |data|);
    RequestEventList(d);
    HeaderRoundTrip(d, p.header);
    MetricsRoundTrip(d, p.metrics);
    StatusRoundTrip(d, p.status);
    var es := RequestEvents(d);
    var q1 := p.(header := Sent(d).header);
    assert ApplyRequest(p, es[0]) == Done(q1);
    var q2 := q1.(metrics := Sent(d).metrics);
    assert ApplyRequest(q1, es[1]) == Done(q2);
    assert ApplyRequest(q2, es[2]) == Done(q2.(status := Sent(d).status));
    FoldThree(p, es[0], es[1], es[2]);
    assert es == [es[0], es[1], es[2]];
    assert q2.(status := Sent(d).status) == Sent(d);
  }

  lemma SentSurvives(d: Telemetry)
    ensures Survives(d, Sent(d))
  {
  }

  lemma FoldThree(p: PayloadRec, e1: Event, e2: Event, e3: Event)
    ensures FoldRequest(p, [e1, e2, e3]) == ThenApply(ThenApply(ApplyRequest(p, e1), e2), e3)
  {
    hide ApplyRequest, FoldRequest;
    assert [e1, e2, e3] == [e1] + ([e2] + [e3]);
    FoldRequestConcat(p, [e1], [e2] + [e3]);
    FoldOne(p, e1);
    match ApplyRequest(p, e1)
    case Done(q) =>
      FoldRequestConcat(q, [e2], [e3]);
      FoldOne(q, e2);
      match ApplyRequest(q, e2) {
        case Done(t) => FoldOne(t, e3);
        case _ =>
      }
    case _ =>
  }

  // ---------------------------------------------------------------------
  // The bytes, written out
  // ---------------------------------------------------------------------

  lemma FirstField(fs: seq<(nat, Raw)>)
    requires fs != []
    ensures EncodeAll(fs) == Encode(fs[0].0, fs[0].1) + EncodeAll(fs[1..])
    ensures |fs| == 1 ==> EncodeAll(fs) == Encode(fs[0].0, fs[0].1)
  {
    hide Encode;
    var e := Encode(fs[0].0, fs[0].1);
    assert e + [] == e;
  }

  lemma TagBytes(num: nat, x: Raw)
    requires 1 <= num <= 6
    ensures x.RVarint? ==> Encode(num, x) == [8 * num] + Varint(x.v)
    ensures x.RBytes? ==> Encode(num, x) == [8 * num + 2] + (Varint(|x.bytes|) + x.bytes)
    ensures x.RFixed32? ==>
              Encode(num, x) == [8 * num + 5] + [x.raw % 0x100, x.raw / 0x100 % 0x100, x.raw / 0x1_0000 % 0x100,
                                                 x.raw / 0x100_0000 % 0x100]
  {
  }

  lemma Five(fs: seq<(nat, Raw)>)
    requires |fs| == 5
    ensures EncodeAll(fs) == Encode(fs[0].0, fs[0].1) + (Encode(fs[1].0, fs[1].1) + (Encode(fs[2].0, fs[2].1) +
                             (Encode(fs[3].0, fs[3].1) + Encode(fs[4].0, fs[4].1))))
  {
    hide Encode, EncodeAll;
    FirstField(fs);
    FirstField(fs[1..]);
    FirstField(fs[1..][1..]);
    FirstField(fs[1..][1..][1..]);
    FirstField(fs[1..][1..][1..][1..]);
  }

  lemma Three(fs: seq<(nat, Raw)>)
    requires |fs| == 3
    ensures EncodeAll(fs) == Encode(fs[0].0, fs[0].1) + (Encode(fs[1].0, fs[1].1) + Encode(fs[2].0, fs[2].1))
  {
    hide Encode, EncodeAll;
    FirstField(fs);
    FirstField(fs[1..]);
    FirstField(fs[1..][1..]);
  }

  /** The header on the wire, tag by tag. */
  lemma HeaderLayout(d: Telemetry)
    requires d.deviceId.Some? && d.firmware.Some?
    ensures var id, fw := d.deviceId.value, d.firmware.value;
            HeaderBytes(d) == [10] + (Varint(|id|) + id) + ([16] + Varint(d.timestamp) + ([24] + Varint(d.seqNo) +
                              ([34] + (Varint(|fw|) + fw) + ([40] + Varint(d.bootCount)))))
  {
    hide Encode, EncodeAll, Varint;
    var fs := HeaderFields(d);
    Five(fs);
    TagBytes(1, fs[0].1); TagBytes(2, fs[1].1); TagBytes(3, fs[2].1); TagBytes(4, fs[3].1); TagBytes(5, fs[4].1);
  }

  function LittleEndian(raw: uint32): seq<byte> {
    [raw % 0x100, raw / 0x100 % 0x100, raw / 0x1_0000 % 0x100, raw / 0x100_0000 % 0x100]
  }

  /** The metrics on the wire: three floats, least significant byte first, and three varints, rssi as 64 bits. */
  lemma MetricsLayout(d: Telemetry)
    ensures MetricsBytes(d) ==
            [13] + LittleEndian(d.temperature) + ([21] + LittleEndian(d.humidity) + ([29] + LittleEndian(d.voltage) +
            ([32] + Varint(d.level) +
            ([40] + Varint(if d.rssi < 0 then d.rssi + 0x1_0000_0000_0000_0000 else d.rssi) +
            ([48] + Varint(d.interval))))))
  {
    hide Encode, EncodeAll, Varint;
    var fs := MetricsFields(d);
    FirstField(fs);
    Five(fs[1..]);
    TagBytes(1, fs[0].1); TagBytes(2, fs[1].1); TagBytes(3, fs[2].1);
    TagBytes(4, fs[3].1); TagBytes(5, fs[4].1); TagBytes(6, fs[5].1);
  }

  /** The status on the wire, and the numbers of the states. */
  lemma StatusLayout(d: Telemetry)
    ensures StatusBytes(d) == [8, StateNumber(d)] + ([16] + Varint(d.uptime) + ([24] + Varint(d.freeHeap)))
  {
    hide EncodeAll, Encode;
    var fs := StatusFields(d);
    Three(fs);
    TagBytes(1, fs[0].1); TagBytes(2, fs[1].1); TagBytes(3, fs[2].1);
    assert Varint(StateEnum(d)) == [StateNumber(d)];
    assert [8] + [StateNumber(d)] == [8, StateNumber(d)];
  }

  function StateNumber(d: Telemetry): byte {
    if d.state == Some(Ascii("LOW_POWER")) then 1
    else if d.state == Some(Ascii("WARNING")) then 2
    else if d.state == Some(Ascii("ERROR")) then 3
    else 0
  }

  /** The message on the wire: three length-delimited submessages. */
  lemma RequestLayout(d: Telemetry)
    ensures var h, m, s := HeaderBytes(d), MetricsBytes(d), StatusBytes(d);
            RequestBytes(d) == [10] + (Varint(|h|) + h) + ([18] + (Varint(|m|) + m) + ([26] + (Varint(|s|) + s)))
  {
    hide EncodeAll, Encode, Varint, HeaderBytes, MetricsBytes, StatusBytes;
    var fs := RequestFields(d);
    Three(fs);
    TagBytes(1, fs[0].1); TagBytes(2, fs[1].1); TagBytes(3, fs[2].1);
  }

  // ---------------------------------------------------------------------
  // Bounds of the scratch buffers
  // ---------------------------------------------------------------------

  lemma FieldSizes(num: nat, x: Raw)
    requires 1 <= num <= 6
    ensures x.RVarint? ==> |Encode(num, x)| == 1 + |Varint(x.v)|
    ensures x.RFixed32? ==> |Encode(num, x)| == 5
    ensures x.RBytes? && |x.bytes| < 128 ==> |Encode(num, x)| == 2 + |x.bytes|
  {
    hide Bytes32;
    VarintWidths(8 * num + WireType(x));
    if x.RBytes? { VarintWidths(|x.bytes|); }
  }

  lemma EncodeAllCons(fs: seq<(nat, Raw)>)
    requires fs != []
    ensures |EncodeAll(fs)| == |Encode(fs[0].0, fs[0].1)| + |EncodeAll(fs[1..])|
  {
    hide Encode;
  }

  /** The length of the header, exactly, while its strings are shorter than 128 bytes. */
  lemma HeaderLength(d: Telemetry)
    requires |DeviceId(d)| < 128 && |Firmware(d)| < 128
    ensures |HeaderBytes(d)| == 7 + |DeviceId(d)| + |Firmware(d)| +
                                |Varint(d.timestamp)| + |Varint(d.seqNo)| + |Varint(d.bootCount)|
  {
    hide Encode, Varint, DeviceId, Firmware;
    var fs := HeaderFields(d);
    FieldSizes(1, fs[0].1); FieldSizes(2, fs[1].1); FieldSizes(3, fs[2].1);
    FieldSizes(4, fs[3].1); FieldSizes(5, fs[4].1);
    EncodeAllCons(fs);
    var f1 := fs[1..];
    EncodeAllCons(f1);
    var f2 := f1[1..];
    EncodeAllCons(f2);
    var f3 := f2[1..];
    EncodeAllCons(f3);
    var f4 := f3[1..];
    EncodeAllCons(f4);
    assert |f4| == 1;
  }

  /** |device_id| + |firmware_version| <= 42 keeps every write inside the 64-, 64- and 32-byte buffers. */
  lemma ScratchBounds(d: Telemetry)
    requires (if d.deviceId.Some? then |d.deviceId.value| else 7) +
             (if d.firmware.Some? then |d.firmware.value| else 5) <= 42
    ensures |HeaderBytes(d)| <= 64 && |MetricsBytes(d)| <= 38 && |StatusBytes(d)| <= 14
    ensures |RequestBytes(d)| <= 122
  {
    HeaderLength(d);
    VarintWidths(d.timestamp);
    VarintWidths(d.seqNo);
    VarintWidths(d.bootCount);
    MetricsBound(d);
    StatusBound(d);
    RequestLength(d);
  }

  lemma MetricsBound(d: Telemetry)
    ensures |MetricsBytes(d)| <= 38
  {
    hide Encode, Varint;
    var fs := MetricsFields(d);
    FieldSizes(1, fs[0].1); FieldSizes(2, fs[1].1); FieldSizes(3, fs[2].1);
    FieldSizes(4, fs[3].1); FieldSizes(5, fs[4].1); FieldSizes(6, fs[5].1);
    VarintWidths(d.level);
    VarintWidths(SignExtend(d.rssi));
    VarintWidths(d.interval);
    EncodeAllCons(fs);
    var f1 := fs[1..];
    EncodeAllCons(f1);
    var f2 := f1[1..];
    EncodeAllCons(f2);
    var f3 := f2[1..];
    EncodeAllCons(f3);
    var f4 := f3[1..];
    EncodeAllCons(f4);
    var f5 := f4[1..];
    EncodeAllCons(f5);
    assert |f5| == 1;
  }

  lemma StatusBound(d: Telemetry)
    ensures |StatusBytes(d)| <= 14
  {
    hide Encode, Varint;
    var fs := StatusFields(d);
    FieldSizes(1, fs[0].1); FieldSizes(2, fs[1].1); FieldSizes(3, fs[2].1);
    VarintWidths(StateEnum(d));
    VarintWidths(d.uptime);
    VarintWidths(d.freeHeap);
    EncodeAllCons(fs);
    var f1 := fs[1..];
    EncodeAllCons(f1);
    var f2 := f1[1..];
    EncodeAllCons(f2);
    assert |f2| == 1;
  }

  lemma RequestLength(d: Telemetry)
    requires |HeaderBytes(d)| <= 64 && |MetricsBytes(d)| <= 38 && |StatusBytes(d)| <= 14
    ensures |RequestBytes(d)| == 6 + |HeaderBytes(d)| + |MetricsBytes(d)| + |StatusBytes(d)|
  {
    hide Encode, Varint, HeaderBytes, MetricsBytes, StatusBytes;
    var fs := RequestFields(d);
    FieldSizes(1, fs[0].1); FieldSizes(2, fs[1].1); FieldSizes(3, fs[2].1);
    EncodeAllCons(fs);
    var f1 := fs[1..];
    EncodeAllCons(f1);
    var f2 := f1[1..];
    EncodeAllCons(f2);
    assert |f2| == 1;
  }

  /**
   * 42 is the best bound on the two strings alone: one byte more overflows for some clock, sequence number
   * and boot count.
   */
  lemma FortyThreeOverflows(d: Telemetry)
    requires |DeviceId(d)| + |Firmware(d)| == 43
    ensures |HeaderBytes(d.(timestamp := TWO_32 - 1, seqNo := TWO_32 - 1, bootCount := TWO_32 - 1))| == 65
  {
    var e := d.(timestamp := TWO_32 - 1, seqNo := TWO_32 - 1, bootCount := TWO_32 - 1);
    HeaderLength(e);
    WidestVarint();
  }

  /** A string of 128 bytes or more does not fit by itself. */
  lemma LongStringOverflows(d: Telemetry)
    requires |DeviceId(d)| >= 128 || |Firmware(d)| >= 128
    ensures |HeaderBytes(d)| > 64
  {
    hide Varint, DeviceId, Firmware, EncodeAll;
    var fs := HeaderFields(d);
    EncodeAllLonger(fs, 0);
    EncodeAllLonger(fs, 3);
  }

  function WithNumbers(d: Telemetry, timestamp: uint32, seqNo: uint32, bootCount: uint32): Telemetry {
    d.(timestamp := timestamp, seqNo := seqNo, bootCount := bootCount)
  }

  predicate AlwaysFits(d: Telemetry) {
    forall t: uint32, s: uint32, b: uint32 :: |HeaderBytes(WithNumbers(d, t, s, b))| <= 64
  }

  /**
   * The header fits its 64-byte buffer for every clock, sequence number and boot
   * count if and only if the two strings together have at most 42 bytes.
   */
  lemma HeaderFitsIff(d: Telemetry)
    ensures AlwaysFits(d) <==>
            (if d.deviceId.Some? then |d.deviceId.value| else 7) +
            (if d.firmware.Some? then |d.firmware.value| else 5) <= 42
  {
    hide HeaderBytes;
    var most := WithNumbers(d, TWO_32 - 1, TWO_32 - 1, TWO_32 - 1);
    if |DeviceId(d)| + |Firmware(d)| <= 42 {
      forall t: uint32, s: uint32, b: uint32 ensures |HeaderBytes(WithNumbers(d, t, s, b))| <= 64 {
        ScratchBounds(WithNumbers(d, t, s, b));
      }
    } else {
      if |DeviceId(d)| >= 128 || |Firmware(d)| >= 128 {
        LongStringOverflows(most);
      } else {
        HeaderLength(most);
        WidestVarint();
      }
      assert |HeaderBytes(most)| > 64;
    }
  }

  lemma WidestVarint()
    ensures |Varint(TWO_32 - 1)| == 5
  {
    VarintWidths(TWO_32 - 1);
    assert Pow128(4) == 128 * Pow128(3) == 128 * (128 * Pow128(2)) && Pow128(2) == 128 * Pow128(1) && Pow128(1) == 128;
    VarintLength(TWO_32 - 1, 4);
  }

  // ---------------------------------------------------------------------
  // The C code
  // ---------------------------------------------------------------------

  /*
   * Every writer appends at an offset: the bytes before it stay, the new bytes
   * follow, and nothing behind them is touched.
   */

  method EncodeVarint(v: uint64, out: array<byte>, at: nat) returns (n: nat)
    requires at + |Varint(v)| <= out.Length
    modifies out
    ensures n == |Varint(v)| && out[..at + n] == old(out[..at]) + Varint(v)
    ensures forall j | at + n <= j < out.Length :: out[j] == old(out[j])
  {
    hide Varint;
    var value: nat := v;
    var i := 0;
    ghost var done: seq<byte> := [];
    while value >= 0x80
      invariant |done| == i && done + Varint(value) == Varint(v)
      invariant out[..at + i] == old(out[..at]) + done
      invariant forall j | at + i <= j < out.Length :: out[j] == old(out[j])
    {
      VarintStep(value);
      assert done + Varint(value) == done + [value % 0x80 + 0x80] + Varint(value / 0x80);
      out[at + i] := value % 0x80 + 0x80;
      done := done + [value % 0x80 + 0x80];
      value := value / 0x80;
      i := i + 1;
    }
    VarintStep(value);
    out[at + i] := value % 0x80;
    return i + 1;
  }

  lemma VarintStep(value: nat)
    ensures Varint(value) == if value < 0x80 then [value % 0x80] else [value % 0x80 + 0x80] + Varint(value / 0x80)
  {
  }

  method Memcpy(out: array<byte>, at: nat, src: seq<byte>) returns (n: nat)
    requires at + |src| <= out.Length
    modifies out
    ensures n == |src| && out[..at + n] == old(out[..at]) + src
    ensures forall j | at + n <= j < out.Length :: out[j] == old(out[j])
  {
    for i := 0 to |src|
      invariant out[..at + i] == old(out[..at]) + src[..i]
      invariant forall j | at + i <= j < out.Length :: out[j] == old(out[j])
    {
      out[at + i] := src[i];
    }
    return |src|;
  }

  method EncodeTag(num: nat, wire: nat, out: array<byte>, at: nat) returns (n: nat)
    requires wire < 8 && 8 * num + wire < TWO_64
    requires at + |Varint(8 * num + wire)| <= out.Length
    modifies out
    ensures n == |Varint(8 * num + wire)| && out[..at + n] == old(out[..at]) + Varint(8 * num + wire)
    ensures forall j | at + n <= j < out.Length :: out[j] == old(out[j])
  {
    n := EncodeVarint(8 * num + wire, out, at);
  }

  method EncodeStringField(num: nat, str: seq<byte>, out: array<byte>, at: nat) returns (n: nat)
    requires 8 * num + 7 < TWO_64 && |str| < TWO_64
    requires at + |Encode(num, RBytes(str))| <= out.Length
    modifies out
    ensures n == |Encode(num, RBytes(str))| && out[..at + n] == old(out[..at]) + Encode(num, RBytes(str))
    ensures forall j | at + n <= j < out.Length :: out[j] == old(out[j])
  {
    hide Varint, Encode;
    BytesField(num, str);
    n := EncodeTag(num, 2, out, at);
    var m := EncodeVarint(|str|, out, at + n);
    n := n + m;
    m := Memcpy(out, at + n, str);
    n := n + m;
    Associate(old(out[..at]), Varint(8 * num + 2), Varint(|str|), str);
  }

  lemma BytesField(num: nat, b: seq<byte>)
    ensures Encode(num, RBytes(b)) == Varint(8 * num + 2) + (Varint(|b|) + b)
  {
    hide Varint;
  }

  lemma Associate(a: seq<byte>, b: seq<byte>, c: seq<byte>, d: seq<byte>)
    ensures a + b + c + d == a + (b + (c + d))
    ensures a + b + c == a + (b + c)
  {
  }

  method EncodeVarintField(num: nat, v: uint64, out: array<byte>, at: nat) returns (n: nat)
    requires 8 * num + 7 < TWO_64
    requires at + |Encode(num, RVarint(v))| <= out.Length
    modifies out
    ensures n == |Encode(num, RVarint(v))| && out[..at + n] == old(out[..at]) + Encode(num, RVarint(v))
    ensures forall j | at + n <= j < out.Length :: out[j] == old(out[j])
  {
    hide Varint;
    n := EncodeTag(num, 0, out, at);
    var m := EncodeVarint(v, out, at + n);
    n := n + m;
    Associate(old(out[..at]), Varint(8 * num), Varint(v), []);
  }

  method EncodeFixed32Float(raw: uint32, out: array<byte>, at: nat) returns (n: nat)
    requires at + |Bytes32(raw)| <= out.Length
    modifies out
    ensures n == |Bytes32(raw)| && out[..at + n] == old(out[..at]) + Bytes32(raw)
    ensures forall j | at + n <= j < out.Length :: out[j] == old(out[j])
  {
    out[at] := raw % 0x100;
    out[at + 1] := (raw / 0x100) % 0x100;
    out[at + 2] := (raw / 0x1_0000) % 0x100;
    out[at + 3] := (raw / 0x100_0000) % 0x100;
    return 4;
  }

  method EncodeFloatField(num: nat, raw: uint32, out: array<byte>, at: nat) returns (n: nat)
    requires 8 * num + 7 < TWO_64
    requires at + |Encode(num, RFixed32(raw))| <= out.Length
    modifies out
    ensures n == |Encode(num, RFixed32(raw))| && out[..at + n] == old(out[..at]) + Encode(num, RFixed32(raw))
    ensures forall j | at + n <= j < out.Length :: out[j] == old(out[j])
  {
    hide Varint, Bytes32;
    n := EncodeTag(num, 5, out, at);
    var m := EncodeFixed32Float(raw, out, at + n);
    n := n + m;
    Associate(old(out[..at]), Varint(8 * num + 5), Bytes32(raw), []);
  }

  /** Tag, length and contents of a submessage, copied from its scratch buffer. */
  method EncodeSubmessage(num: nat, sub: array<byte>, len: nat, out: array<byte>, at: nat) returns (n: nat)
    requires len <= sub.Length && sub != out && len < TWO_64 && 8 * num + 7 < TWO_64
    requires at + |Encode(num, RBytes(sub[..len]))| <= out.Length
    modifies out
    ensures n == |Encode(num, RBytes(sub[..len]))| && out[..at + n] == old(out[..at]) + Encode(num, RBytes(sub[..len]))
    ensures forall j | at + n <= j < out.Length :: out[j] == old(out[j])
  {
    hide Varint, Encode;
    ghost var contents := sub[..len];
    BytesField(num, contents);
    n := EncodeTag(num, 2, out, at);
    var m := EncodeVarint(len, out, at + n);
    n := n + m;
    m := Memcpy(out, at + n, sub[..len]);
    n := n + m;
    Associate(old(out[..at]), Varint(8 * num + 2), Varint(len), contents);
  }

  /** The bytes of the first k + 1 fields, and that they fit where all of them fit. */
  lemma {:induction false} Prefix(fs: seq<(nat, Raw)>, k: nat)
    requires k < |fs|
    ensures EncodeAll(fs[..k + 1]) == EncodeAll(fs[..k]) + Encode(fs[k].0, fs[k].1)
    ensures |EncodeAll(fs[..k + 1])| <= |EncodeAll(fs)|
    ensures fs[k].1.RBytes? ==> |fs[k].1.bytes| <= |EncodeAll(fs)|
    ensures k + 1 == |fs| ==> fs[..k + 1] == fs
    decreases |fs|
  {
    hide Encode;
    if fs[k].1.RBytes? { EncodeAllLonger(fs, k); }
    if k == 0 {
      assert fs[..1][1..] == [];
    } else {
      Prefix(fs[1..], k - 1);
      assert fs[..k + 1][1..] == fs[1..][..k] && fs[..k][1..] == fs[1..][..k - 1];
    }
  }

  lemma NoFields(fs: seq<(nat, Raw)>)
    ensures EncodeAll(fs[..0]) == []
  {
  }

  method SerializeIdentity(d: Telemetry, buf: array<byte>) returns (len: nat)
    requires |HeaderBytes(d)| <= buf.Length < TWO_63
    modifies buf
    ensures len == |EncodeAll(HeaderFields(d)[..3])| <= buf.Length && buf[..len] == EncodeAll(HeaderFields(d)[..3])
  {
    hide Encode, EncodeAll, DeviceId, Firmware;
    ghost var fs := HeaderFields(d);
    NoFields(fs);
    var n: nat;
    len := 0;
    Prefix(fs, 0);
    n := EncodeStringField(1, DeviceId(d), buf, len);
    len := len + n;
    Prefix(fs, 1);
    n := EncodeVarintField(2, d.timestamp, buf, len);
    len := len + n;
    Prefix(fs, 2);
    n := EncodeVarintField(3, d.seqNo, buf, len);
    len := len + n;
  }

  method SerializeHeader(d: Telemetry, buf: array<byte>) returns (len: nat)
    requires |HeaderBytes(d)| <= buf.Length < TWO_63
    modifies buf
    ensures len == |HeaderBytes(d)| && buf[..len] == HeaderBytes(d)
  {
    hide Encode, EncodeAll, DeviceId, Firmware;
    ghost var fs := HeaderFields(d);
    len := SerializeIdentity(d, buf);
    Prefix(fs, 3);
    var n := EncodeStringField(4, Firmware(d), buf, len);
    len := len + n;
    Prefix(fs, 4);
    n := EncodeVarintField(5, d.bootCount, buf, len);
    len := len + n;
  }

  method SerializeFloats(d: Telemetry, buf: array<byte>) returns (len: nat)
    requires |MetricsBytes(d)| <= buf.Length < TWO_63
    modifies buf
    ensures len == |EncodeAll(MetricsFields(d)[..3])| <= buf.Length && buf[..len] == EncodeAll(MetricsFields(d)[..3])
  {
    hide Encode, EncodeAll;
    ghost var fs := MetricsFields(d);
    NoFields(fs);
    var n: nat;
    len := 0;
    Prefix(fs, 0);
    n := EncodeFloatField(1, d.temperature, buf, len);
    len := len + n;
    Prefix(fs, 1);
    n := EncodeFloatField(2, d.humidity, buf, len);
    len := len + n;
    Prefix(fs, 2);
    n := EncodeFloatField(3, d.voltage, buf, len);
    len := len + n;
  }

  method SerializeMetrics(d: Telemetry, buf: array<byte>) returns (len: nat)
    requires |MetricsBytes(d)| <= buf.Length < TWO_63
    modifies buf
    ensures len == |MetricsBytes(d)| && buf[..len] == MetricsBytes(d)
  {
    hide Encode, EncodeAll, SignExtend;
    ghost var fs := MetricsFields(d);
    len := SerializeFloats(d, buf);
    Prefix(fs, 3);
    var n := EncodeVarintField(4, d.level, buf, len);
    len := len + n;
    Prefix(fs, 4);
    n := EncodeVarintField(5, SignExtend(d.rssi), buf, len);
    len := len + n;
    Prefix(fs, 5);
    n := EncodeVarintField(6, d.interval, buf, len);
    len := len + n;
  }

  method SerializeStatus(d: Telemetry, buf: array<byte>) returns (len: nat)
    requires |StatusBytes(d)| <= buf.Length < TWO_63
    modifies buf
    ensures len == |StatusBytes(d)| && buf[..len] == StatusBytes(d)
  {
    hide Encode, EncodeAll, DeviceId, Firmware, StateEnum;
    ghost var fs := StatusFields(d);
    NoFields(fs);
    var n: nat;
    len := 0;
    Prefix(fs, 0);
    n := EncodeVarintField(1, StateEnum(d), buf, len);
    len := len + n;
    Prefix(fs, 1);
    n := EncodeVarintField(2, d.uptime, buf, len);
    len := len + n;
    Prefix(fs, 2);
    n := EncodeVarintField(3, d.freeHeap, buf, len);
    len := len + n;
  }

  /**
   * The three scratch buffers have fixed sizes, so the caller must not hand in a
   * record whose header exceeds 64 bytes; ScratchBounds turns that into a
   * bound on the two strings.
   */
  method SerializeTelemetryProtobuf(data: Option<Telemetry>, out: array?<byte>, bufferSize: nat) returns (total: int)
    requires out != null ==> bufferSize <= out.Length
    requires data.Some? ==> |HeaderBytes(data.value)| <= 64
    modifies out
    ensures total == -1 <==> data.None? || out == null || bufferSize < 128
    ensures out != null && total == -1 ==> out[..] == old(out[..])
    ensures total != -1 ==> total == |RequestBytes(data.value)| <= 122 && out[..total] == RequestBytes(data.value)
    ensures total != -1 ==> Decoded(out[..total]).Done? && Survives(data.value, Decoded(out[..total]).value)
    ensures total != -1 ==> forall j | total <= j < out.Length :: out[j] == old(out[j])
  {
    if data.None? || out == null || bufferSize < 128 {
      return -1;
    }
    hide EncodeAll, HeaderBytes, MetricsBytes, StatusBytes, RequestFields;
    var d := data.value;
    MetricsBound(d);
    StatusBound(d);
    RequestLength(d);

    var headerBuf := new byte[64];
    var hLen := SerializeHeader(d, headerBuf);
    var metricsBuf := new byte[64];
    var mLen := SerializeMetrics(d, metricsBuf);
    var statusBuf := new byte[32];
    var sLen := SerializeStatus(d, statusBuf);

    total := Assemble(d, headerBuf, hLen, metricsBuf, mLen, statusBuf, sLen, out);
    RoundTrip(d, EMPTY);
  }

  /** The root message: the three scratch buffers, each behind its tag and length. */
  method Assemble(d: Telemetry, headerBuf: array<byte>, hLen: nat, metricsBuf: array<byte>, mLen: nat,
                  statusBuf: array<byte>, sLen: nat, out: array<byte>)
    returns (total: nat)
    requires hLen <= headerBuf.Length < TWO_63 && headerBuf[..hLen] == HeaderBytes(d)
    requires mLen <= metricsBuf.Length < TWO_63 && metricsBuf[..mLen] == MetricsBytes(d)
    requires sLen <= statusBuf.Length < TWO_63 && statusBuf[..sLen] == StatusBytes(d)
    requires out !in {headerBuf, metricsBuf, statusBuf} && |RequestBytes(d)| <= out.Length
    modifies out
    ensures total == |RequestBytes(d)| && out[..total] == RequestBytes(d)
    ensures forall j | total <= j < out.Length :: out[j] == old(out[j])
  {
    hide Encode, EncodeAll, HeaderBytes, MetricsBytes, StatusBytes;
    ghost var fs := RequestFields(d);
    NoFields(fs);
    Prefix(fs, 0);
    var n := EncodeSubmessage(1, headerBuf, hLen, out, 0);
    total := n;
    Prefix(fs, 1);
    n := EncodeSubmessage(2, metricsBuf, mLen, out, total);
    total := total + n;
    Prefix(fs, 2);
    n := EncodeSubmessage(3, statusBuf, sLen, out, total);
    total := total + n;
  }
}
