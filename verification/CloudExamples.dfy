/**
 * Single telemetries of the runs of CloudRuns: run uninterrupted they do what the
 * sequential endpoint does, and two short runs show what goes wrong otherwise.
 */
module CloudExamples {
  import opened Basics
  import opened Commands
  import opened Cloud
  import opened CloudRuns
  import opened CloudResults
  import opened CloudAcks
  import opened Scanner
  import opened Acknowledgement
  import C2

  lemma {:induction false} RunConcat(w: World, a: seq<Step>, b: seq<Step>)
    requires Possible(w, a) && Possible(After(w, a), b)
    ensures Possible(w, a + b) && After(w, a + b) == After(After(w, a), b)
    ensures FairRun(w, a) && FairRun(After(w, a), b) ==> FairRun(w, a + b)
    decreases |a|
  {
    hide Enabled, Next, Fair;
    if a == [] {
      assert a + b == b;
    } else {
      assert (a + b)[0] == a[0] && (a + b)[1..] == a[1..] + b;
      RunConcat(Next(w, a[0]), a[1..], b);
    }
  }

  lemma OneStep(w: World, t: Step)
    requires Enabled(w, t)
    ensures Possible(w, [t]) && After(w, [t]) == Next(w, t) && (Fair(w, t) ==> FairRun(w, [t]))
  {
    hide Enabled, Next, Fair;
    assert [t][1..] == [];
  }

  lemma Continue(w: World, run: seq<Step>, t: Step)
    requires Possible(w, run) && Enabled(After(w, run), t)
    ensures Possible(w, run + [t]) && After(w, run + [t]) == Next(After(w, run), t)
    ensures FairRun(w, run) && Fair(After(w, run), t) ==> FairRun(w, run + [t])
  {
    OneStep(After(w, run), t);
    RunConcat(w, run, [t]);
  }

  function Writes(c: Call, n: nat): seq<Step> { seq(n, _ => Write(c)) }

  /** Processing what is left of a selection. */
  lemma {:induction false} WritesRun(w: World, c: Call, n: nat)
    requires c in w.requests && w.requests[c].stage.Selected?
    requires w.requests[c].stage.written + n == |w.requests[c].stage.cmds| && w.requests[c].device in w.devices
    ensures Possible(w, Writes(c, n)) && FairRun(w, Writes(c, n))
    ensures var r := w.requests[c];
            var left := r.stage.cmds[r.stage.written..];
            var done := r.(next := Chosen(left, r.next), stage := Selected(r.stage.cmds, |r.stage.cmds|));
            After(w, Writes(c, n)) ==
            w.(devices := w.devices[r.device := Chosen(left, w.devices[r.device])], requests := w.requests[c := done])
    decreases n
  {
    hide Requested, Chosen;
    var r := w.requests[c];
    var (cmds, i) := (r.stage.cmds, r.stage.written);
    if n == 0 {
      assert cmds[i..] == [];
      NoneChosen(r.next);
      NoneChosen(w.devices[r.device]);
      assert w.devices[r.device := w.devices[r.device]] == w.devices;
      assert w.requests[c := r] == w.requests;
    } else {
      var s := Next(w, Write(c));
      WritesRun(s, c, n - 1);
      assert Writes(c, n)[1..] == Writes(c, n - 1);
      ChosenFirst(cmds, i, r.next);
      ChosenFirst(cmds, i, w.devices[r.device]);
    }
  }

  lemma ChosenFirst(cs: seq<Command>, i: nat, start: int)
    requires i < |cs|
    ensures Chosen(cs[i..], start) ==
            Chosen(cs[i + 1..], if Requested(cs[i]).Some? then Requested(cs[i]).value else start)
  {
    assert cs[i..] == [cs[i]] + cs[i + 1..];
    ChosenConcat([cs[i]], cs[i + 1..], start);
    ChosenMore([], cs[i], start);
    NoneChosen(start);
    assert [] + [cs[i]] == [cs[i]];
  }

  // ---------------------------------------------------------------------
  // One telemetry
  // ---------------------------------------------------------------------

  /** A telemetry of d that has just selected its commands. */
  function PickedUp(w: World, c: Call, d: DeviceId): World {
    var i := IntervalOf(w, d);
    var r := Request(d, i, Offered(w.devices, d, i), Selected(PendingOf(w.rows, d), 0));
    w.(devices := w.devices[d := Stored(w.devices, d, i)], requests := w.requests[c := r])
  }

  lemma PickUp(w: World, c: Call, d: DeviceId)
    requires c !in w.requests
    ensures var run := [Look(c, d), Register(c), Select(c)];
            && Possible(w, run) && After(w, run) == PickedUp(w, c, d)
            && (Fair(w, Look(c, d)) ==> FairRun(w, run))
  {
    hide PendingOf, Possible, After, FairRun, ProperName;
    OneStep(w, Look(c, d));
    Continue(w, [Look(c, d)], Register(c));
    var s := After(w, [Look(c, d)] + [Register(c)]);
    Continue(w, [Look(c, d)] + [Register(c)], Select(c));
    assert [Look(c, d)] + [Register(c)] + [Select(c)] == [Look(c, d), Register(c), Select(c)];
    if d in w.devices { assert w.devices[d := w.devices[d]] == w.devices; }
    assert s.devices == w.devices[d := Stored(w.devices, d, IntervalOf(w, d))];
  }

  /** The rest of a telemetry that was selected when `cmds` were pending. */
  function Rest(c: Call, cmds: seq<Command>, time: int, arrives: bool): seq<Step> {
    Writes(c, |cmds|) + [Mark(c)] + [Respond(c, time, arrives)]
  }

  /** The acknowledgement a device posts for a reply that listed `cmds`. */
  function FirstAck(d: DeviceId, cmds: seq<Command>): seq<Post> {
    if cmds == [] || cmds[0].id == "" then [] else [Post(d, cmds, AckBody(IdText(cmds[0].id), Name(d)), false)]
  }

  lemma Finish(w: World, c: Call, time: int, arrives: bool)
    requires c in w.requests && w.requests[c].stage.Selected? && w.requests[c].stage.written == 0
    requires w.requests[c].device in w.devices
    ensures var (r, cmds, d) := (w.requests[c], w.requests[c].stage.cmds, w.requests[c].device);
            var run := Rest(c, cmds, time, arrives);
            && Possible(w, run) && FairRun(w, run)
            && var n := After(w, run);
            && n.devices == w.devices[d := Chosen(cmds, w.devices[d])]
            && n.requests == w.requests - {c}
            && n.rows == (if cmds == [] then w.rows else Dispatched(w.rows, d))
            && n.picks == w.picks + (if cmds == [] then [] else Picked(d, PendingOf(w.rows, d), cmds))
            && n.replied == w.replied + C2.Deliveries(d, cmds)
            && n.intervals ==
               (if arrives then w.intervals[d := Adopted(IntervalOf(w, d), Chosen(cmds, r.next))] else w.intervals)
            && n.posts == w.posts + (if arrives then FirstAck(d, cmds) else [])
  {
    hide PendingOf, Possible, After, FairRun, Chosen, Requested, Dispatched, Picked, ScannedInterval, ReplyText, Posted,
      C2.Deliveries;
    var cmds := w.requests[c].stage.cmds;
    assert cmds[0..] == cmds;
    WritesRun(w, c, |cmds|);
    var run := Writes(c, |cmds|);
    var s := After(w, run);
    Continue(w, run, Mark(c));
    var m := Next(s, Mark(c));
    Continue(w, run + [Mark(c)], Respond(c, time, arrives));
    ReplySets(m.requests[c], time, IntervalOf(m, m.requests[c].device));
    PostOfReply(m.requests[c], time);
    assert w.posts + [] == w.posts;
    assert w.picks + [] == w.picks;
    assert m.requests - {c} == w.requests - {c};
  }

  /** Uninterrupted, a telemetry does what Cloud.CloudApi.Telemetry does, and its reply sets the interval it carries. */
  lemma UninterruptedTelemetry(w: World, c: Call, d: DeviceId, time: int, arrives: bool)
    requires c !in w.requests
    ensures var (cs, i) := (PendingOf(w.rows, d), IntervalOf(w, d));
            var run := [Look(c, d), Register(c), Select(c)] + Rest(c, cs, time, arrives);
            && Possible(w, run) && (Fair(w, Look(c, d)) ==> FairRun(w, run))
            && var n := After(w, run);
            && n.devices == w.devices[d := Chosen(cs, Stored(w.devices, d, i))]
            && n.rows == Dispatched(w.rows, d) && n.requests == w.requests
            && n.replied == w.replied + C2.Deliveries(d, cs)
            && n.intervals ==
               (if arrives then w.intervals[d := Adopted(i, Chosen(cs, Offered(w.devices, d, i)))] else w.intervals)
            && n.posts == w.posts + (if arrives then FirstAck(d, cs) else [])
  {
    hide PendingOf, Possible, After, FairRun, Chosen, Dispatched, Picked, C2.Deliveries, Rest;
    PickUp(w, c, d);
    var s := PickedUp(w, c, d);
    var cs := PendingOf(w.rows, d);
    Finish(s, c, time, arrives);
    RunConcat(w, [Look(c, d), Register(c), Select(c)], Rest(c, cs, time, arrives));
    NothingToDispatch(w.rows, d);
    assert s.requests - {c} == w.requests;
  }

  // ---------------------------------------------------------------------
  // What goes right
  // ---------------------------------------------------------------------

  /** One row, for a command with an interval. */
  lemma OneRow(d: DeviceId, a: Command, start: int)
    requires a.action == "CONFIG_UPDATE" && a.sleep == Some(30.0)
    ensures PendingOf([Row(d, a, Pending)], d) == [a] && PendingOf([Row(d, a, Sent)], d) == []
    ensures Requested(a) == Some(30) && Chosen([a], start) == 30 && Chosen([], start) == start
    ensures Dispatched([Row(d, a, Pending)], d) == [Row(d, a, Sent)]
    ensures Dispatched([Row(d, a, Sent)], d) == [Row(d, a, Sent)]
  {
    assert [Row(d, a, Pending)][..0] == [] && [Row(d, a, Sent)][..0] == [] && [a][..0] == [];
  }

  /** A telemetry is aborted by a failing statement behind its write, and then the device resets. */
  lemma AbortedThenReset(d: DeviceId, a: Command) returns (run: seq<Step>)
    requires ProperName(d) && a.action == "CONFIG_UPDATE" && a.sleep == Some(30.0)
    ensures Possible(START, run) && FairRun(START, run)
    ensures After(START, run) == World(map[d := 30], [Row(d, a, Pending)], map[], map[d := 15], [], [], [])
  {
    hide PendingOf, Possible, After, FairRun, Chosen, ProperName, Requested;
    OneRow(d, a, 15);
    OneStep(START, Insert(d, a));
    run := [Insert(d, a)];
    var s1 := START.(rows := [Row(d, a, Pending)]);
    assert After(START, run) == s1;
    PickUp(s1, 0, d);
    RunConcat(START, run, [Look(0, d), Register(0), Select(0)]);
    run := run + [Look(0, d), Register(0), Select(0)];
    Continue(START, run, Write(0));
    run := run + [Write(0)];
    assert After(START, run).devices == map[d := 30];
    Continue(START, run, Abort(0));
    run := run + [Abort(0)];
    assert After(START, run).requests == map[];
    Continue(START, run, Reset(d));
    run := run + [Reset(d)];
  }

  /**
   * A fair run from the start in which a telemetry fails, the device resets, and the reply that lists a is
   * lost: the next reply still brings the device to the interval.
   */
  lemma RecoversAfterFailures(d: DeviceId, a: Command, time: int) returns (run: seq<Step>)
    requires ProperName(d) && a.action == "CONFIG_UPDATE" && a.sleep == Some(30.0)
    ensures Possible(START, run) && FairRun(START, run)
    ensures var w := After(START, run);
            && Idle(w, d) && w.rows == [Row(d, a, Sent)] && w.replied == C2.Deliveries(d, [a])
            && d in w.devices && IntervalOf(w, d) == w.devices[d] == 30
  {
    hide PendingOf, Possible, After, FairRun, Chosen, Dispatched, ProperName, Requested, C2.Deliveries, Rest;
    run := AbortedThenReset(d, a);
    var s := After(START, run);
    OneRow(d, a, 30);
    UninterruptedTelemetry(s, 0, d, time, false);
    var lost := [Look(0, d), Register(0), Select(0)] + Rest(0, [a], time, false);
    RunConcat(START, run, lost);
    run := run + lost;
    var t := After(START, run);
    assert t.devices == map[d := 30] && t.requests == map[] && IntervalOf(t, d) == 15;
    UninterruptedTelemetry(t, 0, d, time, true);
    var heard := [Look(0, d), Register(0), Select(0)] + Rest(0, [], time, true);
    RunConcat(START, run, heard);
    run := run + heard;
    NoDeliveries(d, [a]);
  }

  lemma NoDeliveries(d: DeviceId, cs: seq<Command>)
    ensures [] + C2.Deliveries(d, cs) + C2.Deliveries(d, []) == C2.Deliveries(d, cs)
  {
  }

  /** A fair run from the start in which a is queued, listed, acknowledged by the device, and then ACKED. */
  lemma ListedAndAcked(d: DeviceId, a: Command, time: int) returns (run: seq<Step>)
    requires ProperName(d) && a.action == "CONFIG_UPDATE" && a.sleep == Some(30.0)
    requires '\"' !in a.id && a.id != "" && a.id != "0"
    ensures Possible(START, run) && FairRun(START, run)
    ensures After(START, run).rows == [Row(d, a, Acked)] && IntervalOf(After(START, run), d) == 30
  {
    hide PendingOf, Possible, After, FairRun, Chosen, Dispatched, ProperName, Requested, C2.Deliveries, Rest, AckBody;
    OneRow(d, a, 15);
    OneStep(START, Insert(d, a));
    run := [Insert(d, a)];
    var s := After(START, run);
    assert s.rows == [Row(d, a, Pending)];
    UninterruptedTelemetry(s, 0, d, time, true);
    var heard := [Look(0, d), Register(0), Select(0)] + Rest(0, [a], time, true);
    RunConcat(START, run, heard);
    run := run + heard;
    var t := After(START, run);
    assert t.posts == FirstAck(d, [a]) && t.rows == [Row(d, a, Sent)] && IntervalOf(t, d) == 30;
    Continue(START, run, AckArrives(0));
    run := run + [AckArrives(0)];
    AckRead(t, d, a);
  }

  lemma AckRead(t: World, d: DeviceId, a: Command)
    requires t.posts == FirstAck(d, [a]) && t.rows == [Row(d, a, Sent)] && ProperName(d)
    requires '\"' !in a.id && a.id != "" && a.id != "0"
    ensures var n := Next(t, AckArrives(0)); n.rows == [Row(d, a, Acked)] && n.intervals == t.intervals
  {
    hide AckBody, AckOf, Plain;
    AckIdentifies(a.id, Name(d));
    NameBack(d);
  }

  // ---------------------------------------------------------------------
  // What goes wrong
  // ---------------------------------------------------------------------

  /** Two telemetries of one device in flight: everything pending is listed twice. */
  lemma OverlapListsTwice(w: World, c: Call, e: Call, d: DeviceId, t0: int, t1: int) returns (run: seq<Step>)
    requires c != e && c !in w.requests && e !in w.requests
    ensures Possible(w, run)
    ensures var ds := C2.Deliveries(d, PendingOf(w.rows, d)); After(w, run).replied == w.replied + ds + ds
  {
    hide PendingOf, Possible, After, FairRun, Chosen, Dispatched, Picked, C2.Deliveries, Rest;
    var cs := PendingOf(w.rows, d);
    PickUp(w, c, d);
    run := [Look(c, d), Register(c), Select(c)];
    var s1 := PickedUp(w, c, d);
    PickUp(s1, e, d);
    RunConcat(w, run, [Look(e, d), Register(e), Select(e)]);
    run := run + [Look(e, d), Register(e), Select(e)];
    var s2 := PickedUp(s1, e, d);
    Finish(s2, c, t0, true);
    RunConcat(w, run, Rest(c, cs, t0, true));
    run := run + Rest(c, cs, t0, true);
    var s3 := After(w, run);
    Finish(s3, e, t1, true);
    RunConcat(w, run, Rest(e, cs, t1, true));
    run := run + Rest(e, cs, t1, true);
  }

  /** The table after a is queued, and its telemetry has selected it when b is queued. */
  lemma RacedRows(a: Command, b: Command, d: DeviceId)
    requires a.id != b.id
    ensures var rows := [Row(d, a, Pending), Row(d, b, Pending)];
            && PendingOf([Row(d, a, Pending)], d) == [a] && PendingOf(rows, d) == [a, b]
            && PendingOf(Dispatched(rows, d), d) == [] && Log(Dispatched(rows, d), d) == [a, b]
            && !Known([], a.id) && !Known([Row(d, a, Pending)], b.id)
  {
    var (x, y) := (Row(d, a, Pending), Row(d, b, Pending));
    assert [x][..0] == [] && [x, y][..1] == [x];
    DispatchLog([x, y], d, d);
    assert RowsOf([x], d) == [x] && RowsOf([x, y], d) == [x, y];
  }

  /**
   * A fair run from the start: b is queued between the selection of a and its
   * mark. It is marked with a, never listed, and the interval it asks for is
   * neither stored nor ever again pending.
   */
  lemma RaceLosesUpdate(d: DeviceId, a: Command, b: Command, time: int) returns (run: seq<Step>)
    requires ProperName(d) && a.id != b.id && Requested(a).Some? && Requested(b).Some?
    ensures Possible(START, run) && FairRun(START, run)
    ensures var w := After(START, run);
            && w.requests == map[] && w.rows == Dispatched([Row(d, a, Pending), Row(d, b, Pending)], d)
            && Idle(w, d) && PendingOf(w.rows, d) == [] && Log(w.rows, d) == [a, b]
            && w.replied == C2.Deliveries(d, [a])
            && Stored(w.devices, d, FACTORY_INTERVAL) == Requested(a).value
            && Chosen(Log(w.rows, d), FACTORY_INTERVAL) == Requested(b).value
  {
    hide PendingOf, Possible, After, FairRun, Chosen, Dispatched, Picked, C2.Deliveries, Rest, Requested, Log, Known,
      ProperName;
    RacedRows(a, b, d);
    OneStep(START, Insert(d, a));
    run := [Insert(d, a)];
    var s1 := START.(rows := [Row(d, a, Pending)]);
    assert [] + [Row(d, a, Pending)] == [Row(d, a, Pending)];
    PickUp(s1, 0, d);
    RunConcat(START, run, [Look(0, d), Register(0), Select(0)]);
    run := run + [Look(0, d), Register(0), Select(0)];
    var s2 := PickedUp(s1, 0, d);
    Continue(START, run, Insert(d, b));
    run := run + [Insert(d, b)];
    var s3 := After(START, run);
    assert s3.rows == [Row(d, a, Pending), Row(d, b, Pending)];
    Finish(s3, 0, time, true);
    RunConcat(START, run, Rest(0, [a], time, true));
    run := run + Rest(0, [a], time, true);
    AskOne(a, b, s3.devices[d]);
    assert [] + C2.Deliveries(d, [a]) == C2.Deliveries(d, [a]);
  }

  /** The loss of b is made up for when a later CONFIG_UPDATE is listed: then the last one queued is stored again. */
  lemma LaterUpdateRepairs(d: DeviceId, a: Command, b: Command, x: Command, time: int) returns (run: seq<Step>)
    requires ProperName(d) && a.id != b.id && Requested(a).Some? && Requested(b).Some?
    requires x.id != a.id && x.id != b.id && Requested(x).Some?
    ensures Possible(START, run) && FairRun(START, run)
    ensures var w := After(START, run);
            && Idle(w, d) && PendingOf(w.rows, d) == []
            && C2.Delivery(d, b) !in w.replied
            && Stored(w.devices, d, FACTORY_INTERVAL) == Requested(x).value == Chosen(Log(w.rows, d), FACTORY_INTERVAL)
  {
    hide PendingOf, Possible, After, FairRun, Chosen, Dispatched, Requested, Log, ProperName, Rest;
    run := RaceLosesUpdate(d, a, b, time);
    var w := After(START, run);
    NotKnown(w.rows, a, b, x, d);
    Continue(START, run, Insert(d, x));
    run := run + [Insert(d, x)];
    var s := After(START, run);
    SnocLog(w.rows, Row(d, x, Pending), d);
    UninterruptedTelemetry(s, 0, d, time, true);
    var more := [Look(0, d), Register(0), Select(0)] + Rest(0, PendingOf(s.rows, d), time, true);
    RunConcat(START, run, more);
    run := run + more;
    assert [] + [x] == [x];
    DispatchLog(s.rows, d, d);
    ChosenMore([a, b], x, FACTORY_INTERVAL);
    ChosenMore([], x, Stored(s.devices, d, IntervalOf(s, d)));
  }

  lemma NotKnown(rows: seq<Row>, a: Command, b: Command, x: Command, d: DeviceId)
    requires rows == Dispatched([Row(d, a, Pending), Row(d, b, Pending)], d) && x.id != a.id && x.id != b.id
    ensures !Known(rows, x.id)
  {
    assert rows == [Row(d, a, Sent), Row(d, b, Sent)];
  }

  lemma AskOne(a: Command, b: Command, start: int)
    requires Requested(a).Some? && Requested(b).Some?
    ensures Chosen([a], start) == Requested(a).value && Chosen([a, b], FACTORY_INTERVAL) == Requested(b).value
  {
    hide Requested;
    ChosenMore([], a, start);
    ChosenMore([a], b, FACTORY_INTERVAL);
    assert [] + [a] == [a] && [a] + [b] == [a, b];
  }
}
