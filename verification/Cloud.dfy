/** The PHP endpoint with its device and command tables, one request at a time. */
module Cloud {
  import opened Basics
  import opened Commands
  import opened Json
  import opened Scanner
  import opened Acknowledgement

  /** PHP's (int) of a float: truncation toward zero. */
  function Truncate(v: real): int { if v >= 0.0 then v.Floor else -((-v).Floor) }

  /** The interval of a CONFIG_UPDATE, taken whatever its value. */
  function Requested(c: Command): Option<int> {
    if c.action == "CONFIG_UPDATE" && c.sleep.Some? then Some(Truncate(c.sleep.value)) else None
  }

  /** start, overridden by each CONFIG_UPDATE in turn. */
  function Chosen(cs: seq<Command>, start: int): int
    decreases |cs|
  {
    if cs == [] then start
    else if Requested(cs[|cs| - 1]).Some? then Requested(cs[|cs| - 1]).value
    else Chosen(cs[..|cs| - 1], start)
  }

  /** Which command asks for an interval, and for which: its number of seconds, truncated toward zero. */
  lemma RequestedOf(c: Command)
    ensures Requested(c) ==
            if c.action == "CONFIG_UPDATE" && c.sleep.Some? then Some(Truncate(c.sleep.value)) else None
    ensures Requested(c).Some? ==> TowardZero(c.sleep.value, Requested(c).value)
  {
  }

  /** n is v without its fraction. */
  predicate TowardZero(v: real, n: int) {
    if v >= 0.0 then n as real <= v < n as real + 1.0 else n as real - 1.0 < v <= n as real
  }

  /** The last command of a list that is a CONFIG_UPDATE with a sleep_interval_sec stands at position k. */
  predicate LastRequests(cs: seq<Command>, k: nat) {
    && k < |cs| && cs[k].action == "CONFIG_UPDATE" && cs[k].sleep.Some?
    && forall j | k < j < |cs| :: cs[j].action == "CONFIG_UPDATE" ==> cs[j].sleep.None?
  }

  predicate NoneRequests(cs: seq<Command>) {
    forall j | 0 <= j < |cs| :: cs[j].action == "CONFIG_UPDATE" ==> cs[j].sleep.None?
  }

  /** What Chosen means: that command's seconds truncated toward zero, or the start without one. */
  lemma {:induction false} ChosenMeans(cs: seq<Command>, start: int)
    ensures forall k: nat | LastRequests(cs, k) :: TowardZero(cs[k].sleep.value, Chosen(cs, start))
    ensures NoneRequests(cs) ==> Chosen(cs, start) == start
    ensures NoneRequests(cs) || exists k: nat :: LastRequests(cs, k)
    decreases |cs|
  {
    hide Requested, TowardZero, Truncate;
    if cs != [] {
      var n := |cs| - 1;
      var front := cs[..n];
      ChosenMeans(front, start);
      RequestedOf(cs[n]);
      if cs[n].action == "CONFIG_UPDATE" && cs[n].sleep.Some? {
        assert LastRequests(cs, n);
      } else {
        forall k: nat | LastRequests(cs, k) ensures LastRequests(front, k) {}
        if k: nat :| LastRequests(front, k) { assert LastRequests(cs, k); }
        assert forall j | 0 <= j < n :: front[j] == cs[j];
      }
    }
  }

  /** The number of seconds does not depend on where the list starts from. */
  lemma {:induction false} ChosenAnywhere(cs: seq<Command>, a: int, b: int)
    requires !NoneRequests(cs)
    ensures Chosen(cs, a) == Chosen(cs, b)
    decreases |cs|
  {
    hide Requested;
    var n := |cs| - 1;
    RequestedOf(cs[n]);
    if Requested(cs[n]).None? {
      assert forall j | 0 <= j < n :: cs[..n][j] == cs[j];
      ChosenAnywhere(cs[..n], a, b);
    }
  }

  type Devices = map<DeviceId, int>

  /** current_interval_sec; a device seen for the first time is stored with the interval it reports. */
  function Stored(m: Devices, d: DeviceId, reported: int): int { if d in m then m[d] else reported }

  /** What the reply carries when no command overrides it: a stored interval counts only if it is positive. */
  function Offered(m: Devices, d: DeviceId, reported: int): int { if d in m && m[d] > 0 then m[d] else reported }

  /** PHP's empty() on a decoded device id; '0' is 0x30. */
  predicate EmptyId(d: DeviceId) { d == [] || d == [0x30] }

  class CloudApi {
    var devices: Devices
    var commands: seq<Row>

    ghost predicate Valid() reads this { UniqueIds(commands) }

    constructor ()
      ensures Valid() && devices == map[] && commands == []
    {
      devices := map[];
      commands := [];
    }

    /** POST telemetry: interval choice, pending-command pickup, one statement marking everything pending. */
    method Telemetry(d: DeviceId, reported: int) returns (next: int, cmds: seq<Command>)
      requires Valid()
      modifies this
      ensures Valid()
      ensures cmds == PendingOf(old(commands), d) && commands == Dispatched(old(commands), d)
      ensures devices == old(devices)[d := Chosen(cmds, Stored(old(devices), d, reported))]
      ensures next == Chosen(cmds, Offered(old(devices), d, reported))
      // The same, spelled out: k is the last CONFIG_UPDATE with a number of seconds, which is truncated toward zero.
      ensures forall k | 0 <= k < |cmds| && cmds[k].action == "CONFIG_UPDATE" && cmds[k].sleep.Some? &&
                (forall j | k < j < |cmds| :: cmds[j].action == "CONFIG_UPDATE" ==> cmds[j].sleep.None?) ::
                && devices == old(devices)[d := next]
                && (cmds[k].sleep.value >= 0.0 ==> next as real <= cmds[k].sleep.value < next as real + 1.0)
                && (cmds[k].sleep.value < 0.0 ==> next as real - 1.0 < cmds[k].sleep.value <= next as real)
      ensures (forall j | 0 <= j < |cmds| :: cmds[j].action == "CONFIG_UPDATE" ==> cmds[j].sleep.None?) ==>
                && devices == (if d in old(devices) then old(devices) else old(devices)[d := reported])
                && next == if d in old(devices) && old(devices)[d] > 0 then old(devices)[d] else reported
    {
      hide PendingOf, Dispatched, UniqueIds, Requested;
      next := reported;
      if d in devices {
        if devices[d] > 0 { next := devices[d]; }
      } else {
        devices := devices[d := reported];
      }
      cmds := SelectPending(commands, d);
      for i := 0 to |cmds|
        invariant commands == old(commands)
        invariant devices == old(devices)[d := Chosen(cmds[..i], Stored(old(devices), d, reported))]
        invariant next == Chosen(cmds[..i], Offered(old(devices), d, reported))
      {
        assert cmds[..i + 1][..i] == cmds[..i];
        RequestedOf(cmds[i]);
        if cmds[i].action == "CONFIG_UPDATE" && cmds[i].sleep.Some? {
          next := Truncate(cmds[i].sleep.value);
          devices := devices[d := next];
        }
      }
      assert cmds[..|cmds|] == cmds;
      ChosenMeans(cmds, Stored(old(devices), d, reported));
      ChosenMeans(cmds, Offered(old(devices), d, reported));
      if !NoneRequests(cmds) {
        ChosenAnywhere(cmds, Stored(old(devices), d, reported), Offered(old(devices), d, reported));
      }
      NothingToDispatch(commands, d);
      if cmds != [] { commands := Dispatched(commands, d); }
      UniqueKept(old(commands), commands);
    }

    /** POST commands: the id comes from the clock, and a second command in the same millisecond is refused. */
    method Queue(millis: nat, d: DeviceId, action: string, params: string, sleep: Option<real>) returns (ok: bool)
      requires Valid()
      modifies this
      ensures Valid() && devices == old(devices)
      ensures ok == (d != [] && d != [0x30] && action != "" && action != "0" &&
                     forall r | r in old(commands) :: r.cmd.id != "cmd-" + Digits(millis))
      ensures commands == old(commands) +
              (if ok then [Row(d, Command("cmd-" + Digits(millis), action, params, sleep), Pending)] else [])
    {
      if EmptyId(d) || Empty(action) { return false; }
      var cmd := Command("cmd-" + Digits(millis), action, params, sleep);
      if Known(commands, cmd.id) { return false; }
      UniqueAppend(commands, Row(d, cmd, Pending));
      commands := commands + [Row(d, cmd, Pending)];
      return true;
    }

    method Ack(d: DeviceId, id: string)
      requires Valid()
      modifies this
      ensures Valid() && devices == old(devices)
      ensures d == [] || d == [0x30] || id == "" || id == "0" ==> commands == old(commands)
      ensures d != [] && d != [0x30] && id != "" && id != "0" ==>
                && |commands| == |old(commands)|
                && forall i | 0 <= i < |commands| ::
                     if old(commands)[i].device == d && old(commands)[i].cmd.id == id
                     then commands[i] == Row(d, old(commands)[i].cmd, Acked)
                     else commands[i] == old(commands)[i]
    {
      if !EmptyId(d) && !Empty(id) {
        commands := AckRow(commands, d, id);
        UniqueKept(old(commands), commands);
      }
    }
  }

  lemma NothingToDispatch(rows: seq<Row>, d: DeviceId)
    ensures PendingOf(rows, d) == [] ==> Dispatched(rows, d) == rows
  {
    forall i | 0 <= i < |rows| && rows[i].device == d && rows[i].status == Pending
      ensures rows[i].cmd in PendingOf(rows, d)
    {
      PendingMember(rows, d, rows[i].cmd);
    }
  }

  // ---------------------------------------------------------------------
  // The log and the pending commands of a device
  // ---------------------------------------------------------------------

  function Log(rows: seq<Row>, d: DeviceId): seq<Command> { CommandsIn(RowsOf(rows, d)) }

  lemma SnocLog(rows: seq<Row>, r: Row, d: DeviceId)
    ensures Log(rows + [r], d) == Log(rows, d) + (if r.device == d then [r.cmd] else [])
    ensures PendingOf(rows + [r], d) ==
            PendingOf(rows, d) + (if r.device == d && r.status == Pending then [r.cmd] else [])
  {
    assert (rows + [r])[..|rows|] == rows;
    assert RowsOf(rows, d) + [] == RowsOf(rows, d);
  }

  lemma {:induction false} DispatchLog(rows: seq<Row>, e: DeviceId, d: DeviceId)
    ensures Log(Dispatched(rows, e), d) == Log(rows, d)
    ensures PendingOf(Dispatched(rows, e), d) == if e == d then [] else PendingOf(rows, d)
    decreases |rows|
  {
    hide Log, RowsOf, PendingOf, Dispatched;
    if rows != [] {
      var n := |rows| - 1;
      DispatchLog(rows[..n], e, d);
      SnocLog(rows[..n], rows[n], d);
      var after := Dispatched(rows, e);
      SnocLog(Dispatched(rows[..n], e), after[n], d);
      assert rows == rows[..n] + [rows[n]];
      assert after == Dispatched(rows[..n], e) + [after[n]];
    } else {
      NothingPending(d);
      assert Dispatched(rows, e) == rows;
    }
  }

  lemma NothingPending(d: DeviceId)
    ensures PendingOf([], d) == []
  {
  }

  lemma {:induction false} AckLog(rows: seq<Row>, e: DeviceId, id: string, d: DeviceId)
    requires forall r | r in rows && r.device == e && r.cmd.id == id :: r.status != Pending
    ensures Log(AckRow(rows, e, id), d) == Log(rows, d) && PendingOf(AckRow(rows, e, id), d) == PendingOf(rows, d)
    decreases |rows|
  {
    if rows != [] {
      var n := |rows| - 1;
      hide Log, PendingOf, AckRow;
      assert rows == rows[..n] + [rows[n]];
      AckLog(rows[..n], e, id, d);
      SnocLog(rows[..n], rows[n], d);
      var after := AckRow(rows, e, id);
      SnocLog(AckRow(rows[..n], e, id), after[n], d);
      assert after == AckRow(rows[..n], e, id) + [after[n]];
    } else {
      assert AckRow(rows, e, id) == rows;
    }
  }

  lemma {:induction false} ChosenConcat(a: seq<Command>, b: seq<Command>, start: int)
    ensures Chosen(a + b, start) == Chosen(b, Chosen(a, start))
    decreases |b|
  {
    if b == [] {
      assert a + b == a;
    } else {
      assert (a + b)[..|a + b| - 1] == a + b[..|b| - 1];
      ChosenConcat(a, b[..|b| - 1], start);
    }
  }

  predicate InRange(n: int) { 1 <= n <= MAX_INTERVAL }

  /** Every CONFIG_UPDATE of the list asks for 1 to 86400 whole seconds. */
  predicate AllInRange(cs: seq<Command>) {
    forall c | c in cs && c.action == "CONFIG_UPDATE" && c.sleep.Some? :: 1.0 <= c.sleep.value < 86401.0
  }

  lemma {:induction false} ChosenInRange(cs: seq<Command>, start: int)
    requires AllInRange(cs) && InRange(start)
    ensures InRange(Chosen(cs, start))
    decreases |cs|
  {
    if cs != [] {
      ChosenInRange(cs[..|cs| - 1], start);
      assert cs[|cs| - 1] in cs;
      RequestedOf(cs[|cs| - 1]);
    }
  }
}
