/**
 * DecodeTelemetryProtobuf: what each field does to the payload, the Go methods
 * with their in-place assignments, and the laws of the decoded meaning.
 */
module Decoder {
  import opened Basics
  import opened Varints
  import opened Wire
  import opened GoReader

  // ---------------------------------------------------------------------
  // Meaning: a payload is the fold of its fields
  // ---------------------------------------------------------------------

  datatype HeaderRec =
    HeaderRec(deviceId: seq<byte>, timestamp: int, seqNo: uint32, firmware: seq<byte>, bootCount: uint32)

  /** The three floats are kept as their raw 32-bit patterns. */
  datatype MetricsRec =
    MetricsRec(temperature: uint32, humidity: uint32, voltage: uint32, level: uint32, rssi: int32, interval: uint32)

  datatype StatusRec = StatusRec(state: seq<byte>, uptime: uint32, freeHeap: uint32)
  datatype PayloadRec = PayloadRec(header: HeaderRec, metrics: MetricsRec, status: StatusRec)

  const EMPTY: PayloadRec :=
    PayloadRec(HeaderRec([], 0, 0, [], 0), MetricsRec(0, 0, 0, 0, 0, 0), StatusRec([], 0, 0))

  /** What a caller sees: a value, an error, or a call that never returns. */
  datatype Outcome<T> = Done(value: T) | Error | Hangs

  function StateName(v: uint64): seq<byte> {
    if v == 1 then LOW_POWER else if v == 2 then WARNING else if v == 3 then ERROR else NORMAL
  }

  function ApplyHeader(h: HeaderRec, e: Event): HeaderRec {
    match e.payload
    case Bytes(b) => if e.field == 1 then h.(deviceId := b) else if e.field == 4 then h.(firmware := b) else h
    case Num(v) =>
      if e.field == 2 then h.(timestamp := AsInt64(v))
      else if e.field == 3 then h.(seqNo := AsUint32(v))
      else if e.field == 5 then h.(bootCount := AsUint32(v))
      else h
    case _ => h
  }

  function ApplyMetrics(r: MetricsRec, e: Event): MetricsRec {
    match e.payload
    case Bits(raw) =>
      if e.field == 1 then r.(temperature := raw)
      else if e.field == 2 then r.(humidity := raw)
      else if e.field == 3 then r.(voltage := raw)
      else r
    case Num(v) =>
      if e.field == 4 then r.(level := AsUint32(v))
      else if e.field == 5 then r.(rssi := AsInt32(v))
      else if e.field == 6 then r.(interval := AsUint32(v))
      else r
    case _ => r
  }

  function ApplyStatus(s: StatusRec, e: Event): StatusRec {
    match e.payload
    case Num(v) =>
      if e.field == 1 then s.(state := StateName(v))
      else if e.field == 2 then s.(uptime := AsUint32(v))
      else if e.field == 3 then s.(freeHeap := AsUint32(v))
      else s
    case _ => s
  }

  function FoldHeader(h: HeaderRec, es: seq<Event>): HeaderRec
    decreases |es|
  {
    if es == [] then h else FoldHeader(ApplyHeader(h, es[0]), es[1..])
  }

  function FoldMetrics(r: MetricsRec, es: seq<Event>): MetricsRec
    decreases |es|
  {
    if es == [] then r else FoldMetrics(ApplyMetrics(r, es[0]), es[1..])
  }

  function FoldStatus(s: StatusRec, es: seq<Event>): StatusRec
    decreases |es|
  {
    if es == [] then s else FoldStatus(ApplyStatus(s, es[0]), es[1..])
  }

  function Ending<T>(end: End, value: T): Outcome<T> {
    match end
    case Finished => Done(value)
    case Failed => Error
    case Unfinished => Hangs
  }

  function HeaderOf(t: Trace, h: HeaderRec): Outcome<HeaderRec> { Ending(t.end, FoldHeader(h, t.events)) }
  function MetricsOf(t: Trace, r: MetricsRec): Outcome<MetricsRec> { Ending(t.end, FoldMetrics(r, t.events)) }
  function StatusOf(t: Trace, s: StatusRec): Outcome<StatusRec> { Ending(t.end, FoldStatus(s, t.events)) }

  function ParsedHeader(data: seq<byte>, h: HeaderRec): Outcome<HeaderRec> {
    HeaderOf(Run(Header, data, 0, |data|), h)
  }
  function ParsedMetrics(data: seq<byte>, r: MetricsRec): Outcome<MetricsRec> {
    MetricsOf(Run(Metrics, data, 0, |data|), r)
  }
  function ParsedStatus(data: seq<byte>, s: StatusRec): Outcome<StatusRec> {
    StatusOf(Run(Status, data, 0, |data|), s)
  }

  function ApplyRequest(p: PayloadRec, e: Event): Outcome<PayloadRec> {
    match e.payload
    case Bytes(sub) =>
      if e.field == 1 then
        match ParsedHeader(sub, p.header)
        case Done(h) => Done(p.(header := h))
        case Error => Error
        case Hangs => Hangs
      else if e.field == 2 then
        match ParsedMetrics(sub, p.metrics)
        case Done(r) => Done(p.(metrics := r))
        case Error => Error
        case Hangs => Hangs
      else if e.field == 3 then
        match ParsedStatus(sub, p.status)
        case Done(s) => Done(p.(status := s))
        case Error => Error
        case Hangs => Hangs
      else Done(p)
    case _ => Done(p)
  }

  function FoldRequest(p: PayloadRec, es: seq<Event>): Outcome<PayloadRec>
    decreases |es|
  {
    if es == [] then Done(p)
    else
      match ApplyRequest(p, es[0])
      case Done(q) => FoldRequest(q, es[1..])
      case e => e
  }

  function RequestOf(t: Trace, p: PayloadRec): Outcome<PayloadRec> {
    match FoldRequest(p, t.events)
    case Done(q) => Ending(t.end, q)
    case e => e
  }

  /** Decoding `data` on top of an existing payload. */
  function DecodedOnto(p: PayloadRec, data: seq<byte>): Outcome<PayloadRec> {
    RequestOf(Run(Request, data, 0, |data|), p)
  }

  function Decoded(data: seq<byte>): Outcome<PayloadRec> { DecodedOnto(EMPTY, data) }

  // ---------------------------------------------------------------------
  // The Go code: records filled in place
  // ---------------------------------------------------------------------

  class MessageHeader {
    var deviceId: seq<byte>
    var timestamp: int
    var seqNo: uint32
    var firmwareVersion: seq<byte>
    var bootCount: uint32

    function Value(): HeaderRec reads this { HeaderRec(deviceId, timestamp, seqNo, firmwareVersion, bootCount) }

    constructor ()
      ensures Value() == EMPTY.header
    {
      deviceId, timestamp, seqNo, firmwareVersion, bootCount := [], 0, 0, [], 0;
    }
  }

  class MetricsData {
    var temperature: uint32
    var humidity: uint32
    var batteryVoltage: uint32
    var batteryLevelPct: uint32
    var rssi: int32
    var intervalSec: uint32

    function Value(): MetricsRec reads this {
      MetricsRec(temperature, humidity, batteryVoltage, batteryLevelPct, rssi, intervalSec)
    }

    constructor ()
      ensures Value() == EMPTY.metrics
    {
      temperature, humidity, batteryVoltage, batteryLevelPct, rssi, intervalSec := 0, 0, 0, 0, 0, 0;
    }
  }

  class DeviceStatus {
    var state: seq<byte>
    var uptimeSec: uint32
    var freeHeapBytes: uint32

    function Value(): StatusRec reads this { StatusRec(state, uptimeSec, freeHeapBytes) }

    constructor ()
      ensures Value() == EMPTY.status
    {
      state, uptimeSec, freeHeapBytes := [], 0, 0;
    }
  }

  lemma HeaderStep(data: seq<byte>, pos: nat, h: HeaderRec, fuel: nat)
    requires pos < |data| && fuel > 0
    ensures HeaderOf(Run(Header, data, pos, fuel), h) ==
            match Lex(Header, data, pos)
            case Stop => Done(h)
            case Fail => Error
            case Field(e, next) => HeaderOf(Run(Header, data, next, fuel - 1), ApplyHeader(h, e))
  {
    hide Lex, ApplyHeader;
    if Lex(Header, data, pos).Field? {
      var rest := Run(Header, data, Lex(Header, data, pos).next, fuel - 1).events;
      assert ([Lex(Header, data, pos).event] + rest)[1..] == rest;
    }
  }

  lemma MetricsStep(data: seq<byte>, pos: nat, r: MetricsRec, fuel: nat)
    requires pos < |data| && fuel > 0
    ensures MetricsOf(Run(Metrics, data, pos, fuel), r) ==
            match Lex(Metrics, data, pos)
            case Stop => Done(r)
            case Fail => Error
            case Field(e, next) => MetricsOf(Run(Metrics, data, next, fuel - 1), ApplyMetrics(r, e))
  {
    hide Lex, ApplyMetrics;
    if Lex(Metrics, data, pos).Field? {
      var rest := Run(Metrics, data, Lex(Metrics, data, pos).next, fuel - 1).events;
      assert ([Lex(Metrics, data, pos).event] + rest)[1..] == rest;
    }
  }

  lemma StatusStep(data: seq<byte>, pos: nat, s: StatusRec, fuel: nat)
    requires pos < |data| && fuel > 0
    ensures StatusOf(Run(Status, data, pos, fuel), s) ==
            match Lex(Status, data, pos)
            case Stop => Done(s)
            case Fail => Error
            case Field(e, next) => StatusOf(Run(Status, data, next, fuel - 1), ApplyStatus(s, e))
  {
    hide Lex, ApplyStatus;
    if Lex(Status, data, pos).Field? {
      var rest := Run(Status, data, Lex(Status, data, pos).next, fuel - 1).events;
      assert ([Lex(Status, data, pos).event] + rest)[1..] == rest;
    }
  }

  lemma RequestStep(data: seq<byte>, pos: nat, p: PayloadRec, fuel: nat)
    requires pos < |data| && fuel > 0
    ensures RequestOf(Run(Request, data, pos, fuel), p) ==
            match Lex(Request, data, pos)
            case Stop => Done(p)
            case Fail => Error
            case Field(e, next) =>
              match ApplyRequest(p, e)
              case Done(q) => RequestOf(Run(Request, data, next, fuel - 1), q)
              case e => e
  {
    hide Lex, ApplyRequest;
    if Lex(Request, data, pos).Field? {
      var rest := Run(Request, data, Lex(Request, data, pos).next, fuel - 1).events;
      assert ([Lex(Request, data, pos).event] + rest)[1..] == rest;
    }
  }

  /** How an iteration ends: the next one, the loop's `break`, or a returned error. */
  datatype Flow = Continue | Leave | Abort

  /*
   * Each loop carries an explicit iteration budget of |data|; Termination.BudgetIsEnough
   * shows that no larger budget changes the outcome.
   */

  /** One iteration of parseHeader: the tag and the switch on its field number. */
  method HeaderIteration(r: Reader, h: MessageHeader) returns (flow: Flow)
    modifies r, h
    ensures match Lex(Header, r.data, old(r.pos))
            case Stop => flow == Leave && h.Value() == old(h.Value())
            case Fail => flow == Abort
            case Field(e, next) => flow == Continue && r.pos == next && h.Value() == ApplyHeader(old(h.Value()), e)
  {
    hide ReadUvarint, LittleEndian32, SeekTarget;
    var tag := r.ReadUvarint();
    if tag.None? { return Leave; }
    var field, wire := tag.value / 8, tag.value % 8;
    match field {
      case 1 =>
        var str := r.ReadString();
        if str.None? { return Abort; }
        h.deviceId := str.value;
      case 2 =>
        var v := r.ReadUvarint();
        if v.None? { return Abort; }
        h.timestamp := AsInt64(v.value);
      case 3 =>
        var v := r.ReadUvarint();
        if v.None? { return Abort; }
        h.seqNo := AsUint32(v.value);
      case 4 =>
        var str := r.ReadString();
        if str.None? { return Abort; }
        h.firmwareVersion := str.value;
      case 5 =>
        var v := r.ReadUvarint();
        if v.None? { return Abort; }
        h.bootCount := AsUint32(v.value);
      case _ =>
        var ok := r.SkipField(wire);
        if !ok { return Abort; }
    }
    return Continue;
  }

  method ParseHeader(data: seq<byte>, h: MessageHeader) returns (result: Outcome<()>)
    modifies h
    ensures match ParsedHeader(data, old(h.Value()))
            case Done(v) => result == Done(()) && h.Value() == v
            case Error => result == Error
            case Hangs => result == Hangs
  {
    hide Lex, ApplyHeader;
    var r := new Reader(data);
    var budget: nat := |data|;
    while r.pos < |data|
      invariant r.data == data
      invariant HeaderOf(Run(Header, data, r.pos, budget), h.Value()) == ParsedHeader(data, old(h.Value()))
      decreases budget
    {
      if budget == 0 { return Hangs; }
      HeaderStep(data, r.pos, h.Value(), budget);
      budget := budget - 1;
      var flow := HeaderIteration(r, h);
      match flow {
        case Leave => break;
        case Abort => return Error;
        case Continue =>
      }
    }
    return Done(());
  }

  /** One iteration of parseMetrics: the tag and the switch on its field number. */
  method MetricsIteration(r: Reader, m: MetricsData) returns (flow: Flow)
    modifies r, m
    ensures match Lex(Metrics, r.data, old(r.pos))
            case Stop => flow == Leave && m.Value() == old(m.Value())
            case Fail => flow == Abort
            case Field(e, next) => flow == Continue && r.pos == next && m.Value() == ApplyMetrics(old(m.Value()), e)
  {
    hide ReadUvarint, LittleEndian32, SeekTarget;
    var tag := r.ReadUvarint();
    if tag.None? { return Leave; }
    var field, wire := tag.value / 8, tag.value % 8;
    match field {
      case 1 =>
        var raw := r.ReadFixed32();
        if raw.None? { return Abort; }
        m.temperature := raw.value;
      case 2 =>
        var raw := r.ReadFixed32();
        if raw.None? { return Abort; }
        m.humidity := raw.value;
      case 3 =>
        var raw := r.ReadFixed32();
        if raw.None? { return Abort; }
        m.batteryVoltage := raw.value;
      case 4 =>
        var v := r.ReadUvarint();
        if v.None? { return Abort; }
        m.batteryLevelPct := AsUint32(v.value);
      case 5 =>
        var v := r.ReadUvarint();
        if v.None? { return Abort; }
        m.rssi := AsInt32(v.value);
      case 6 =>
        var v := r.ReadUvarint();
        if v.None? { return Abort; }
        m.intervalSec := AsUint32(v.value);
      case _ =>
        var ok := r.SkipField(wire);
        if !ok { return Abort; }
    }
    return Continue;
  }

  method ParseMetrics(data: seq<byte>, m: MetricsData) returns (result: Outcome<()>)
    modifies m
    ensures match ParsedMetrics(data, old(m.Value()))
            case Done(v) => result == Done(()) && m.Value() == v
            case Error => result == Error
            case Hangs => result == Hangs
  {
    hide Lex, ApplyMetrics;
    var r := new Reader(data);
    var budget: nat := |data|;
    while r.pos < |data|
      invariant r.data == data
      invariant MetricsOf(Run(Metrics, data, r.pos, budget), m.Value()) == ParsedMetrics(data, old(m.Value()))
      decreases budget
    {
      if budget == 0 { return Hangs; }
      MetricsStep(data, r.pos, m.Value(), budget);
      budget := budget - 1;
      var flow := MetricsIteration(r, m);
      match flow {
        case Leave => break;
        case Abort => return Error;
        case Continue =>
      }
    }
    return Done(());
  }

  /** One iteration of parseStatus: the tag and the switch on its field number. */
  method StatusIteration(r: Reader, s: DeviceStatus) returns (flow: Flow)
    modifies r, s
    ensures match Lex(Status, r.data, old(r.pos))
            case Stop => flow == Leave && s.Value() == old(s.Value())
            case Fail => flow == Abort
            case Field(e, next) => flow == Continue && r.pos == next && s.Value() == ApplyStatus(old(s.Value()), e)
  {
    hide ReadUvarint, LittleEndian32, SeekTarget;
    var tag := r.ReadUvarint();
    if tag.None? { return Leave; }
    var field, wire := tag.value / 8, tag.value % 8;
    match field {
      case 1 =>
        var v := r.ReadUvarint();
        if v.None? { return Abort; }
        match v.value {
          case 1 => s.state := LOW_POWER;
          case 2 => s.state := WARNING;
          case 3 => s.state := ERROR;
          case _ => s.state := NORMAL;
        }
      case 2 =>
        var v := r.ReadUvarint();
        if v.None? { return Abort; }
        s.uptimeSec := AsUint32(v.value);
      case 3 =>
        var v := r.ReadUvarint();
        if v.None? { return Abort; }
        s.freeHeapBytes := AsUint32(v.value);
      case _ =>
        var ok := r.SkipField(wire);
        if !ok { return Abort; }
    }
    return Continue;
  }

  method ParseStatus(data: seq<byte>, s: DeviceStatus) returns (result: Outcome<()>)
    modifies s
    ensures match ParsedStatus(data, old(s.Value()))
            case Done(v) => result == Done(()) && s.Value() == v
            case Error => result == Error
            case Hangs => result == Hangs
  {
    hide Lex, ApplyStatus;
    var r := new Reader(data);
    var budget: nat := |data|;
    while r.pos < |data|
      invariant r.data == data
      invariant StatusOf(Run(Status, data, r.pos, budget), s.Value()) == ParsedStatus(data, old(s.Value()))
      decreases budget
    {
      if budget == 0 { return Hangs; }
      StatusStep(data, r.pos, s.Value(), budget);
      budget := budget - 1;
      var flow := StatusIteration(r, s);
      match flow {
        case Leave => break;
        case Abort => return Error;
        case Continue =>
      }
    }
    return Done(());
  }

  /** The top-level loop; the three records are the parts of the payload it returns. */
  method DecodeTelemetryProtobuf(data: seq<byte>) returns (result: Outcome<PayloadRec>)
    ensures result == Decoded(data)
  {
    hide Lex, ParsedHeader, ParsedMetrics, ParsedStatus;
    var r := new Reader(data);
    var h := new MessageHeader();
    var m := new MetricsData();
    var s := new DeviceStatus();
    var budget: nat := |data|;
    while r.pos < |data|
      invariant r.data == data
      invariant RequestOf(Run(Request, data, r.pos, budget), PayloadRec(h.Value(), m.Value(), s.Value())) ==
          Decoded(data)
      decreases budget
    {
      if budget == 0 { return Hangs; }
      RequestStep(data, r.pos, PayloadRec(h.Value(), m.Value(), s.Value()), budget);
      budget := budget - 1;
      var flow := RequestIteration(r, h, m, s);
      match flow {
        case Done(_) =>
        case Error => return Error;
        case Hangs => return Hangs;
      }
    }
    return Done(PayloadRec(h.Value(), m.Value(), s.Value()));
  }

  /** One iteration of the top-level loop. A tag that cannot be read is an error here. */
  method RequestIteration(r: Reader, h: MessageHeader, m: MetricsData, s: DeviceStatus) returns (flow: Outcome<()>)
    modifies r, h, m, s
    ensures match Lex(Request, r.data, old(r.pos))
            case Field(e, next) =>
              (match ApplyRequest(PayloadRec(old(h.Value()), old(m.Value()), old(s.Value())), e)
               case Done(q) => flow == Done(()) && r.pos == next && PayloadRec(h.Value(), m.Value(), s.Value()) == q
               case Error => flow == Error
               case Hangs => flow == Hangs)
            case Fail => flow == Error
            case Stop => false
  {
    hide ReadUvarint, ParsedHeader, ParsedMetrics, ParsedStatus, SeekTarget;
    var tag := r.ReadUvarint();
    if tag.None? { return Error; }
    var field, wire := tag.value / 8, tag.value % 8;
    match field {
      case 1 =>
        var sub := r.ReadString();
        if sub.None? { return Error; }
        flow := ParseHeader(sub.value, h);
      case 2 =>
        var sub := r.ReadString();
        if sub.None? { return Error; }
        flow := ParseMetrics(sub.value, m);
      case 3 =>
        var sub := r.ReadString();
        if sub.None? { return Error; }
        flow := ParseStatus(sub.value, s);
      case _ =>
        var ok := r.SkipField(wire);
        return if ok then Done(()) else Error;
    }
  }
}
