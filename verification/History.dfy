/**
 * The device summaries and telemetry histories of the two Go repositories, and
 * their agreement with the raw log.
 */
module History {
  import opened Basics
  import opened Decoder
  import opened Commands
  import opened BoundedFifo

  /** A telemetry payload as handed to SaveTelemetry; the status pointer may be nil. */
  datatype Report = Report(header: HeaderRec, metrics: MetricsRec, status: Option<StatusRec>)

  function ReportsOf(ts: seq<Report>, d: DeviceId): seq<Report>
    decreases |ts|
  {
    if ts == [] then []
    else ReportsOf(ts[..|ts| - 1], d) + (if ts[|ts| - 1].header.deviceId == d then [ts[|ts| - 1]] else [])
  }

  // ---------------------------------------------------------------------
  // SQL tables
  // ---------------------------------------------------------------------

  /** A row of `telemetries`; the schema has no column for the interval. */
  datatype LogRow = LogRow(id: nat, header: HeaderRec, metrics: MetricsRec, status: StatusRec)

  datatype DeviceRow = DeviceRow(firmware: seq<byte>, lastSeq: uint32, total: nat, metrics: MetricsRec,
      interval: uint32)

  function Stored(id: nat, t: Report): LogRow {
    LogRow(id, t.header, t.metrics.(interval := 0), if t.status.Some? then t.status.value else StatusRec(NORMAL, 0, 0))
  }

  function Upserted(previous: Option<DeviceRow>, t: Report): DeviceRow {
    var interval := if t.metrics.interval == 0 then 60 else t.metrics.interval;
    match previous
    case None => DeviceRow(t.header.firmware, t.header.seqNo, 1, t.metrics.(interval := 0), interval)
    case Some(r) =>
      DeviceRow(t.header.firmware, t.header.seqNo, r.total + 1, t.metrics.(interval := 0),
                if interval > 0 then interval else r.interval)
  }

  type DeviceTable = map<DeviceId, DeviceRow>

  function Lookup<T>(m: map<DeviceId, T>, d: DeviceId): Option<T> { if d in m then Some(m[d]) else None }

  function RowsFor(rows: seq<LogRow>, d: DeviceId): seq<LogRow>
    decreases |rows|
  {
    if rows == [] then []
    else RowsFor(rows[..|rows| - 1], d) + (if rows[|rows| - 1].header.deviceId == d then [rows[|rows| - 1]] else [])
  }

  /**
   * ORDER BY timestamp DESC; equal timestamps keep their row order, as the (device_id, timestamp) index
   * yields them.
   */
  function InsertDesc(s: seq<LogRow>, r: LogRow): seq<LogRow>
    decreases |s|
  {
    if s == [] || s[|s| - 1].header.timestamp >= r.header.timestamp then s + [r]
    else InsertDesc(s[..|s| - 1], r) + [s[|s| - 1]]
  }

  function OrderDesc(rows: seq<LogRow>): seq<LogRow>
    decreases |rows|
  {
    if rows == [] then [] else InsertDesc(OrderDesc(rows[..|rows| - 1]), rows[|rows| - 1])
  }

  /** The payload rebuilt from a row. */
  function Rebuilt(r: LogRow, d: DeviceId): Report {
    Report(r.header.(deviceId := d), r.metrics, Some(r.status))
  }

  function RebuiltAll(rows: seq<LogRow>, d: DeviceId): (s: seq<Report>)
    ensures |s| == |rows| && forall i | 0 <= i < |s| :: s[i] == Rebuilt(rows[i], d)
  {
    seq(|rows|, i requires 0 <= i < |rows| => Rebuilt(rows[i], d))
  }

  function SqlHistory(rows: seq<LogRow>, d: DeviceId, limit: int): seq<Report> {
    var n := if limit <= 0 then 50 else limit;
    var all := OrderDesc(RowsFor(rows, d));
    RebuiltAll(all[..Min(n, |all|)], d)
  }

  class SqlLog {
    var telemetries: seq<LogRow>
    var devices: DeviceTable

    constructor ()
      ensures telemetries == [] && devices == map[]
    {
      telemetries, devices := [], map[];
    }

    /** One transaction: the log row and the device upsert. */
    method SaveTelemetry(t: Report)
      modifies this
      ensures telemetries == old(telemetries) + [Stored(|old(telemetries)| + 1, t)]
      ensures devices == old(devices)[t.header.deviceId := Upserted(Lookup(old(devices), t.header.deviceId), t)]
    {
      telemetries := telemetries + [Stored(|telemetries| + 1, t)];
      devices := devices[t.header.deviceId := Upserted(Lookup(devices, t.header.deviceId), t)];
    }

    method GetTelemetryHistory(d: DeviceId, limit: int) returns (list: seq<Report>)
      ensures list == SqlHistory(telemetries, d, limit)
    {
      var n := if limit <= 0 then 50 else limit;
      var all := OrderDesc(RowsFor(telemetries, d));
      var rows := all[..Min(n, |all|)];
      list := [];
      for i := 0 to |rows|
        invariant list == RebuiltAll(rows[..i], d)
      {
        list := list + [Rebuilt(rows[i], d)];
      }
      assert rows[..|rows|] == rows;
    }
  }

  // ---------------------------------------------------------------------
  // In memory
  // ---------------------------------------------------------------------

  datatype DeviceRec = DeviceRec(firmware: seq<byte>, lastSeq: uint32, total: nat, metrics: MetricsRec,
      status: Option<StatusRec>)

  class DeviceState {
    var firmwareVersion: seq<byte>
    var lastSeqNo: uint32
    var lastMetrics: MetricsRec
    var lastStatus: Option<StatusRec>
    var totalTelemetries: nat

    function Value(): DeviceRec reads this {
      DeviceRec(firmwareVersion, lastSeqNo, totalTelemetries, lastMetrics, lastStatus)
    }

    /** The field assignments of SaveTelemetry. */
    method Touch(t: Report)
      modifies this
      ensures Value() == Touched(Some(old(Value())), t)
    {
      firmwareVersion := t.header.firmware;
      lastSeqNo := t.header.seqNo;
      lastMetrics := t.metrics;
      lastStatus := t.status;
      totalTelemetries := totalTelemetries + 1;
    }

    constructor ()
      ensures totalTelemetries == 0
    {
      firmwareVersion, lastSeqNo, lastMetrics, lastStatus, totalTelemetries := [], 0, EMPTY.metrics, None, 0;
    }
  }

  function Touched(previous: Option<DeviceRec>, t: Report): DeviceRec {
    var total := if previous.Some? then previous.value.total else 0;
    DeviceRec(t.header.firmware, t.header.seqNo, total + 1, t.metrics, t.status)
  }

  function HistoryOf(m: map<DeviceId, seq<Report>>, d: DeviceId): seq<Report> { if d in m then m[d] else [] }

  function MemHistory(m: map<DeviceId, seq<Report>>, d: DeviceId, limit: int): seq<Report> {
    if limit > 0 then LastN(HistoryOf(m, d), limit) else HistoryOf(m, d)
  }

  class InMemoryLog {
    var devices: map<DeviceId, DeviceState>
    var telemetries: map<DeviceId, seq<Report>>

    /** Every device has its own state object. */
    ghost predicate Valid() reads this {
      forall a, b | a in devices && b in devices && a != b :: devices[a] != devices[b]
    }

    ghost function View(): map<DeviceId, DeviceRec>
      reads this, devices.Values
    {
      map d | d in devices :: devices[d].Value()
    }

    constructor ()
      ensures Valid() && devices == map[] && telemetries == map[]
    {
      devices, telemetries := map[], map[];
    }

    method SaveTelemetry(t: Report)
      requires Valid()
      modifies this, devices.Values
      ensures Valid()
      ensures View() == old(View())[t.header.deviceId := Touched(Lookup(old(View()), t.header.deviceId), t)]
      ensures telemetries == old(telemetries)[t.header.deviceId := HistoryOf(old(telemetries), t.header.deviceId) + [t]]
    {
      var id := t.header.deviceId;
      if id !in devices {
        var dev := new DeviceState();
        devices := devices[id := dev];
      }
      devices[id].Touch(t);
      telemetries := telemetries[id := HistoryOf(telemetries, id) + [t]];
    }

    method GetTelemetryHistory(d: DeviceId, limit: int) returns (list: seq<Report>)
      ensures list == MemHistory(telemetries, d, limit)
    {
      if d !in telemetries { return []; }
      var hist := telemetries[d];
      if limit > 0 && |hist| > limit { return hist[|hist| - limit..]; }
      return hist;
    }
  }

  // ---------------------------------------------------------------------
  // Runs of saves
  // ---------------------------------------------------------------------

  function SqlLogAfter(ts: seq<Report>): (rows: seq<LogRow>)
    ensures |rows| == |ts|
    ensures forall i | 0 <= i < |ts| :: rows[i] == Stored(i + 1, ts[i])
    decreases |ts|
  {
    if ts == [] then [] else SqlLogAfter(ts[..|ts| - 1]) + [Stored(|ts|, ts[|ts| - 1])]
  }

  function SqlDevicesAfter(ts: seq<Report>): DeviceTable
    decreases |ts|
  {
    if ts == [] then map[]
    else
      var t, m := ts[|ts| - 1], SqlDevicesAfter(ts[..|ts| - 1]);
      m[t.header.deviceId := Upserted(Lookup(m, t.header.deviceId), t)]
  }

  function MemDevicesAfter(ts: seq<Report>): map<DeviceId, DeviceRec>
    decreases |ts|
  {
    if ts == [] then map[]
    else
      var t, m := ts[|ts| - 1], MemDevicesAfter(ts[..|ts| - 1]);
      m[t.header.deviceId := Touched(Lookup(m, t.header.deviceId), t)]
  }

  function MemLogAfter(ts: seq<Report>): map<DeviceId, seq<Report>>
    decreases |ts|
  {
    if ts == [] then map[]
    else
      var t, m := ts[|ts| - 1], MemLogAfter(ts[..|ts| - 1]);
      m[t.header.deviceId := HistoryOf(m, t.header.deviceId) + [t]]
  }

  /**
   * After any saves both summaries agree with the log: a device is known exactly
   * if it reported, its total counts its records, and its last sequence number,
   * firmware and readings are those of its last record.
   */
  lemma {:induction false} SummariesAgreeWithLog(ts: seq<Report>, d: DeviceId)
    ensures var own := ReportsOf(ts, d);
            var sql, mem := Lookup(SqlDevicesAfter(ts), d), Lookup(MemDevicesAfter(ts), d);
            && (own == [] ==> sql == None && mem == None)
            && (own != [] ==>
                  var last := own[|own| - 1];
                  && sql.Some? && sql.value.total == |own| && sql.value.lastSeq == last.header.seqNo
                  && sql.value.firmware == last.header.firmware
                  && sql.value.metrics == last.metrics.(interval := 0)
                  && sql.value.interval == (if last.metrics.interval == 0 then 60 else last.metrics.interval)
                  && mem == Some(DeviceRec(last.header.firmware, last.header.seqNo, |own|, last.metrics, last.status)))
    decreases |ts|
  {
    if ts != [] {
      var n := |ts| - 1;
      SummariesAgreeWithLog(ts[..n], d);
      var own := ReportsOf(ts[..n], d);
      assert own + [] == own;
      assert ts[n].header.deviceId == d ==> (own + [ts[n]])[|own|] == ts[n];
    }
  }

  /** Row by row the stored columns of the reports of d, under increasing row ids up to n. */
  predicate RowsHold(rows: seq<LogRow>, own: seq<Report>, n: nat, d: DeviceId) {
    && |rows| == |own|
    && (forall i | 0 <= i < |own| ::
          rows[i] == Stored(rows[i].id, own[i]) && rows[i].id <= n && own[i].header.deviceId == d)
    && InIdOrder(rows)
  }

  lemma RowsHoldMore(rows: seq<LogRow>, own: seq<Report>, n: nat, d: DeviceId, t: Report)
    requires RowsHold(rows, own, n, d)
    ensures RowsHold(rows, own, n + 1, d)
    ensures t.header.deviceId == d ==> RowsHold(rows + [Stored(n + 1, t)], own + [t], n + 1, d)
  {
    assert Stored(n + 1, t).id == n + 1;
    hide Stored;
  }

  /**
   * Both logs hold exactly the records saved for a device, in order: in memory
   * as they are, in SQL as the stored columns of each, under increasing row ids.
   */
  lemma {:induction false} LogsHoldReports(ts: seq<Report>, d: DeviceId)
    ensures HistoryOf(MemLogAfter(ts), d) == ReportsOf(ts, d)
    ensures RowsHold(RowsFor(SqlLogAfter(ts), d), ReportsOf(ts, d), |ts|, d)
    decreases |ts|
  {
    if ts != [] {
      var n := |ts| - 1;
      LogsHoldReports(ts[..n], d);
      var rows, own := RowsFor(SqlLogAfter(ts[..n]), d), ReportsOf(ts[..n], d);
      RowsHoldMore(rows, own, n, d, ts[n]);
      hide RowsHold;
      assert SqlLogAfter(ts)[..n] == SqlLogAfter(ts[..n]);
      assert own + [] == own && rows + [] == rows;
    }
  }

  // ---------------------------------------------------------------------
  // Histories
  // ---------------------------------------------------------------------

  function Reverse<T>(s: seq<T>): (r: seq<T>)
    ensures |r| == |s| && forall i | 0 <= i < |s| :: r[i] == s[|s| - 1 - i]
  {
    seq(|s|, i requires 0 <= i < |s| => s[|s| - 1 - i])
  }

  predicate Increasing(rows: seq<LogRow>) {
    forall i, j | 0 <= i < j < |rows| :: rows[i].header.timestamp < rows[j].header.timestamp
  }

  predicate InIdOrder(rows: seq<LogRow>) { forall i, j | 0 <= i < j < |rows| :: rows[i].id < rows[j].id }

  /** Newest first, equal timestamps in row order. */
  predicate Precedes(a: LogRow, b: LogRow) {
    a.header.timestamp > b.header.timestamp || (a.header.timestamp == b.header.timestamp && a.id < b.id)
  }

  predicate Ordered(s: seq<LogRow>) { forall i, j | 0 <= i < j < |s| :: Precedes(s[i], s[j]) }

  lemma {:induction false} InsertPermutes(s: seq<LogRow>, r: LogRow)
    ensures multiset(InsertDesc(s, r)) == multiset(s) + multiset{r}
    decreases |s|
  {
    if s != [] && s[|s| - 1].header.timestamp < r.header.timestamp {
      InsertPermutes(s[..|s| - 1], r);
      assert s == s[..|s| - 1] + [s[|s| - 1]];
    }
  }

  lemma {:induction false} InsertKeepsOrder(s: seq<LogRow>, r: LogRow)
    requires Ordered(s) && forall x | x in s :: x.id < r.id
    ensures Ordered(InsertDesc(s, r))
    decreases |s|
  {
    if s == [] { return; }
    var n := |s| - 1;
    var last := s[n];
    if last.header.timestamp < r.header.timestamp {
      InsertKeepsOrder(s[..n], r);
      InsertPermutes(s[..n], r);
      var t := InsertDesc(s[..n], r);
      forall x | x in t ensures Precedes(x, last) {
        assert x in multiset(t);
        assert x == r || x in s[..n];
      }
      hide Ordered;
      AppendOrdered(t, last);
    } else {
      forall x | x in s ensures Precedes(x, r) {
        assert x == last || Precedes(x, last);
      }
      AppendOrdered(s, r);
    }
  }

  lemma AppendOrdered(s: seq<LogRow>, r: LogRow)
    requires Ordered(s) && forall x | x in s :: Precedes(x, r)
    ensures Ordered(s + [r])
  {
    hide Precedes;
  }

  lemma {:induction false} OrderPermutes(rows: seq<LogRow>)
    ensures multiset(OrderDesc(rows)) == multiset(rows)
    ensures forall x | x in OrderDesc(rows) :: x in rows
    decreases |rows|
  {
    if rows != [] {
      var n := |rows| - 1;
      OrderPermutes(rows[..n]);
      assert rows == rows[..n] + [rows[n]];
      InsertPermutes(OrderDesc(rows[..n]), rows[n]);
    }
    forall x | x in OrderDesc(rows) ensures x in rows {
      assert x in multiset(OrderDesc(rows));
    }
  }

  lemma {:induction false} OrderDescSorts(rows: seq<LogRow>)
    requires InIdOrder(rows)
    ensures Ordered(OrderDesc(rows))
    decreases |rows|
  {
    if rows != [] {
      var n := |rows| - 1;
      OrderDescSorts(rows[..n]);
      OrderPermutes(rows[..n]);
      InsertKeepsOrder(OrderDesc(rows[..n]), rows[n]);
    }
  }

  lemma {:induction false} InsertNewest(s: seq<LogRow>, r: LogRow)
    requires forall x | x in s :: x.header.timestamp < r.header.timestamp
    ensures InsertDesc(s, r) == [r] + s
    decreases |s|
  {
    if s != [] { InsertNewest(s[..|s| - 1], r); }
  }

  lemma ReverseSnoc<T>(s: seq<T>, x: T)
    ensures Reverse(s + [x]) == [x] + Reverse(s)
  {
  }

  lemma IncreasingPrefix(rows: seq<LogRow>, n: nat)
    requires Increasing(rows) && |rows| == n + 1
    ensures rows == rows[..n] + [rows[n]] && Increasing(rows[..n])
    ensures forall x | x in rows[..n] :: x.header.timestamp < rows[n].header.timestamp
  {
  }

  lemma {:induction false} IncreasingReverses(rows: seq<LogRow>)
    requires Increasing(rows)
    ensures OrderDesc(rows) == Reverse(rows)
    decreases |rows|
  {
    if rows == [] {
      assert Reverse(rows) == [];
    } else {
      hide Increasing, Reverse, InsertDesc;
      var n := |rows| - 1;
      IncreasingPrefix(rows, n);
      IncreasingReverses(rows[..n]);
      OrderPermutes(rows[..n]);
      InsertNewest(OrderDesc(rows[..n]), rows[n]);
      ReverseSnoc(rows[..n], rows[n]);
    }
  }

  /** Newest-first order is the exact reverse of the log precisely when the timestamps strictly increase. */
  lemma ReversedIffIncreasing(rows: seq<LogRow>)
    requires InIdOrder(rows)
    ensures OrderDesc(rows) == Reverse(rows) <==> Increasing(rows)
  {
    OrderDescSorts(rows);
    if Increasing(rows) {
      IncreasingReverses(rows);
    } else if OrderDesc(rows) == Reverse(rows) {
      var r := Reverse(rows);
      var n := |rows| - 1;
      forall i, j | 0 <= i < j < |rows| ensures rows[i].header.timestamp < rows[j].header.timestamp {
        assert r[n - j] == rows[j] && r[n - i] == rows[i];
        assert Precedes(r[n - j], r[n - i]);
      }
    }
  }

  /** What survives the SQL round trip of a report. */
  function AsReturned(t: Report): Report {
    Report(t.header, t.metrics.(interval := 0),
        Some(if t.status.Some? then t.status.value else StatusRec(NORMAL, 0, 0)))
  }

  /** sql is mem read backwards, as far as SQL keeps it. */
  predicate Mirrors(sql: seq<Report>, mem: seq<Report>) {
    |sql| == |mem| && forall i | 0 <= i < |mem| :: sql[i] == AsReturned(mem[|mem| - 1 - i])
  }

  lemma RowTimes(ts: seq<Report>, d: DeviceId)
    requires var own := ReportsOf(ts, d);
             forall i, j | 0 <= i < j < |own| :: own[i].header.timestamp < own[j].header.timestamp
    ensures Increasing(RowsFor(SqlLogAfter(ts), d))
  {
    var rows, own := RowsFor(SqlLogAfter(ts), d), ReportsOf(ts, d);
    LogsHoldReports(ts, d);
    forall i, j | 0 <= i < j < |rows| ensures rows[i].header.timestamp < rows[j].header.timestamp {
      assert rows[i] == Stored(rows[i].id, own[i]) && rows[j] == Stored(rows[j].id, own[j]);
    }
  }

  /**
   * For a device whose timestamps strictly increase and any positive limit, the
   * SQL history is the in-memory history read backwards.
   */
  lemma HistoriesMirror(ts: seq<Report>, d: DeviceId, limit: int)
    requires limit > 0
    requires var own := ReportsOf(ts, d);
             forall i, j | 0 <= i < j < |own| :: own[i].header.timestamp < own[j].header.timestamp
    ensures var sql, mem := SqlHistory(SqlLogAfter(ts), d, limit), MemHistory(MemLogAfter(ts), d, limit);
            Mirrors(sql, mem)
  {
    hide RowsFor, SqlLogAfter, ReportsOf, OrderDesc, Stored, MemLogAfter, AsReturned, Mirrors;
    var rows, own := RowsFor(SqlLogAfter(ts), d), ReportsOf(ts, d);
    RowTimes(ts, d);
    LogsHoldReports(ts, d);
    IncreasingReverses(rows);
    MirrorAt(rows, own, |ts|, d, limit);
  }

  lemma MirrorAt(rows: seq<LogRow>, own: seq<Report>, last: nat, d: DeviceId, limit: int)
    requires limit > 0 && |rows| == |own| && RowsHold(rows, own, last, d)
    ensures Mirrors(RebuiltAll(Reverse(rows)[..Min(limit, |rows|)], d), LastN(own, limit))
  {
    hide RowsHold, LastN, AsReturned, RebuiltAll, Reverse, Mirrors;
    LastNIs(own, limit);
    MirrorTail(rows, own, last, d, Min(limit, |own|));
  }

  lemma MirrorTail(rows: seq<LogRow>, own: seq<Report>, last: nat, d: DeviceId, n: nat)
    requires n <= |rows| == |own| && RowsHold(rows, own, last, d)
    ensures Mirrors(RebuiltAll(Reverse(rows)[..n], d), own[|own| - n..])
  {
    hide RowsHold, AsReturned, RebuiltAll, Reverse;
    forall i | 0 <= i < n
      ensures RebuiltAll(Reverse(rows)[..n], d)[i] == AsReturned(own[|own| - n..][n - 1 - i])
    {
      RowAt(rows, own, last, d, |own| - 1 - i);
      MirrorOne(rows, own, d, n, i);
    }
  }

  lemma RowAt(rows: seq<LogRow>, own: seq<Report>, last: nat, d: DeviceId, k: nat)
    requires RowsHold(rows, own, last, d) && k < |own|
    ensures |rows| == |own| && rows[k] == Stored(rows[k].id, own[k]) && own[k].header.deviceId == d
  {
  }

  lemma LastNIs<T>(s: seq<T>, n: nat)
    ensures LastN(s, n) == s[|s| - Min(n, |s|)..]
  {
  }

  lemma MirrorOne(rows: seq<LogRow>, own: seq<Report>, d: DeviceId, n: nat, i: nat)
    requires i < n <= |own| == |rows|
    requires var k := |own| - 1 - i; rows[k] == Stored(rows[k].id, own[k]) && own[k].header.deviceId == d
    ensures RebuiltAll(Reverse(rows)[..n], d)[i] == AsReturned(own[|own| - n..][n - 1 - i])
  {
    hide Stored, Rebuilt;
    hide Reverse, AsReturned;
    var k := |own| - 1 - i;
    assert Reverse(rows)[..n][i] == rows[k];
    ReturnedAs(rows[k].id, own[k], d);
  }

  lemma ReturnedAs(id: nat, t: Report, d: DeviceId)
    requires t.header.deviceId == d
    ensures Rebuilt(Stored(id, t), d) == AsReturned(t)
  {
  }

  // ---------------------------------------------------------------------
  // What a history is, whatever the order of the timestamps
  // ---------------------------------------------------------------------

  function ReturnedAll(ts: seq<Report>): (s: seq<Report>)
    ensures |s| == |ts| && forall i | 0 <= i < |s| :: s[i] == AsReturned(ts[i])
  {
    seq(|ts|, i requires 0 <= i < |ts| => AsReturned(ts[i]))
  }

  lemma RebuiltSnoc(rows: seq<LogRow>, r: LogRow, d: DeviceId)
    ensures RebuiltAll(rows + [r], d) == RebuiltAll(rows, d) + [Rebuilt(r, d)]
  {
    hide Rebuilt;
  }

  lemma {:induction false} InsertRebuilt(s: seq<LogRow>, r: LogRow, d: DeviceId)
    ensures multiset(RebuiltAll(InsertDesc(s, r), d)) == multiset(RebuiltAll(s, d)) + multiset{Rebuilt(r, d)}
    decreases |s|
  {
    hide RebuiltAll, Rebuilt;
    if s == [] || s[|s| - 1].header.timestamp >= r.header.timestamp {
      RebuiltSnoc(s, r, d);
    } else {
      var front, last := s[..|s| - 1], s[|s| - 1];
      assert s == front + [last];
      InsertRebuilt(front, r, d);
      RebuiltSnoc(front, last, d);
      RebuiltSnoc(InsertDesc(front, r), last, d);
    }
  }

  /** Ordering the rows before or after rebuilding the reports gives the same reports. */
  lemma {:induction false} OrderRebuilt(rows: seq<LogRow>, d: DeviceId)
    ensures multiset(RebuiltAll(OrderDesc(rows), d)) == multiset(RebuiltAll(rows, d))
    decreases |rows|
  {
    hide RebuiltAll, Rebuilt, InsertDesc;
    if rows != [] {
      var front, last := rows[..|rows| - 1], rows[|rows| - 1];
      assert rows == front + [last];
      OrderRebuilt(front, d);
      InsertRebuilt(OrderDesc(front), last, d);
      RebuiltSnoc(front, last, d);
    } else {
      assert OrderDesc(rows) == rows;
    }
  }

  lemma {:induction false} RowsAsReturned(ts: seq<Report>, d: DeviceId)
    ensures RebuiltAll(RowsFor(SqlLogAfter(ts), d), d) == ReturnedAll(ReportsOf(ts, d))
  {
    hide Stored, Rebuilt, AsReturned, RowsFor, SqlLogAfter, ReportsOf, InIdOrder;
    LogsHoldReports(ts, d);
    var rows, own := RowsFor(SqlLogAfter(ts), d), ReportsOf(ts, d);
    forall i | 0 <= i < |own| ensures RebuiltAll(rows, d)[i] == ReturnedAll(own)[i] {
      ReturnedAs(rows[i].id, own[i], d);
    }
  }

  predicate NewestFirst(s: seq<Report>) {
    forall i, j | 0 <= i < j < |s| :: s[i].header.timestamp >= s[j].header.timestamp
  }

  lemma OrderedNewestFirst(rows: seq<LogRow>, d: DeviceId)
    requires Ordered(rows)
    ensures NewestFirst(RebuiltAll(rows, d))
  {
    var s := RebuiltAll(rows, d);
    forall i, j | 0 <= i < j < |s| ensures s[i].header.timestamp >= s[j].header.timestamp {
      assert Precedes(rows[i], rows[j]);
      assert s[i] == Rebuilt(rows[i], d) && s[j] == Rebuilt(rows[j], d);
    }
  }

  /**
   * For every log, device and limit: the SQL history holds min(limit, count) of the
   * device's reports, 50 in place of a limit that is not positive; its timestamps
   * never increase; and none of the omitted reports is newer than one it holds.
   */
  lemma HistoryIsNewest(ts: seq<Report>, d: DeviceId, limit: int) returns (omitted: seq<Report>)
    ensures var answer, all := SqlHistory(SqlLogAfter(ts), d, limit), ReturnedAll(ReportsOf(ts, d));
            && multiset(answer) + multiset(omitted) == multiset(all)
            && (limit <= 0 ==> |answer| == if |all| < 50 then |all| else 50)
            && (limit > 0 ==> |answer| == if |all| < limit then |all| else limit)
            && (forall i, j | 0 <= i < j < |answer| :: answer[i].header.timestamp >= answer[j].header.timestamp)
            && (forall x, y | x in omitted && y in answer :: x.header.timestamp <= y.header.timestamp)
  {
    hide RebuiltAll, Rebuilt, OrderDesc, RowsFor, SqlLogAfter, ReportsOf, ReturnedAll, RowsHold, Ordered, NewestFirst;
    var rows := RowsFor(SqlLogAfter(ts), d);
    LogsHoldReports(ts, d);
    HoldInIdOrder(rows, ReportsOf(ts, d), |ts|, d);
    OrderDescSorts(rows);
    OrderedNewestFirst(OrderDesc(rows), d);
    OrderRebuilt(rows, d);
    RowsAsReturned(ts, d);
    var n := if limit <= 0 then 50 else limit;
    var full := RebuiltAll(OrderDesc(rows), d);
    OrderCount(rows);
    omitted := full[Min(n, |full|)..];
    Cut(full, Min(n, |full|));
    RebuiltFront(OrderDesc(rows), d, Min(n, |full|));
    assert |full| == |ReturnedAll(ReportsOf(ts, d))|;
  }

  lemma HoldInIdOrder(rows: seq<LogRow>, own: seq<Report>, n: nat, d: DeviceId)
    requires RowsHold(rows, own, n, d)
    ensures InIdOrder(rows) && |rows| == |own|
  {
  }

  lemma OrderCount(rows: seq<LogRow>)
    ensures |OrderDesc(rows)| == |rows|
  {
    OrderPermutes(rows);
    assert |multiset(OrderDesc(rows))| == |multiset(rows)|;
  }

  lemma RebuiltFront(rows: seq<LogRow>, d: DeviceId, n: nat)
    requires n <= |rows|
    ensures RebuiltAll(rows[..n], d) == RebuiltAll(rows, d)[..n]
  {
    hide Rebuilt;
  }

  lemma Cut(full: seq<Report>, n: nat)
    requires NewestFirst(full) && n <= |full|
    ensures multiset(full[..n]) + multiset(full[n..]) == multiset(full)
    ensures forall i, j | 0 <= i < j < n :: full[..n][i].header.timestamp >= full[..n][j].header.timestamp
    ensures forall x, y | x in full[n..] && y in full[..n] :: x.header.timestamp <= y.header.timestamp
  {
    assert full == full[..n] + full[n..];
  }

  /** The in-memory history: the last reports of the device, as many as the limit says, or all. */
  lemma MemoryHistoryIsLast(ts: seq<Report>, d: DeviceId, limit: int)
    ensures var answer, all := MemHistory(MemLogAfter(ts), d, limit), ReportsOf(ts, d);
            && |answer| == (if 0 < limit < |all| then limit else |all|)
            && answer == all[|all| - |answer|..]
  {
    hide RowsFor, SqlLogAfter, ReportsOf, RowsHold, MemLogAfter;
    LogsHoldReports(ts, d);
  }
}
