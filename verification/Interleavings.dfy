/**
 * What the interleaved server does when a call runs uninterrupted, and why each
 * condition of C2.Orderly is there: without it the main results fail.
 */
module Interleavings {
  import opened Basics
  import opened Commands
  import opened Handler
  import opened C2

  lemma {:induction false} RunConcat(s: Server, a: seq<Step>, b: seq<Step>)
    requires Possible(s, a) && Possible(After(s, a), b)
    ensures Possible(s, a + b) && After(s, a + b) == After(After(s, a), b)
    decreases |a|
  {
    if a == [] {
      assert a + b == b;
    } else {
      assert (a + b)[0] == a[0] && (a + b)[1..] == a[1..] + b;
      RunConcat(Next(s, a[0]), a[1..], b);
    }
  }

  lemma OneStep(s: Server, t: Step)
    requires Enabled(s, t)
    ensures Possible(s, [t]) && After(s, [t]) == Next(s, t)
  {
    assert [t][1..] == [];
  }

  lemma Continue(s: Server, run: seq<Step>, t: Step)
    requires Possible(s, run) && Enabled(After(s, run), t)
    ensures Possible(s, run + [t]) && After(s, run + [t]) == Next(After(s, run), t)
  {
    OneStep(After(s, run), t);
    RunConcat(s, run, [t]);
  }

  function Marks(c: Call, n: nat): seq<Step> { seq(n, _ => PollMark(c)) }

  function Writes(c: Call, n: nat): seq<Step> { seq(n, _ => PollWrite(c)) }

  function AllMarked(s: Server, c: Call): Server
    requires c in s.polls && s.polls[c].marked <= |s.polls[c].cmds|
  {
    var p := s.polls[c];
    s.(rows := MarkAll(s.rows, p.cmds[p.marked..]), polls := s.polls[c := p.(marked := |p.cmds|)])
  }

  lemma OneMark(s: Server, c: Call)
    requires c in s.polls && s.polls[c].marked < |s.polls[c].cmds|
    ensures var n := Next(s, PollMark(c));
            && c in n.polls && n.polls[c] == s.polls[c].(marked := s.polls[c].marked + 1)
            && AllMarked(n, c) == AllMarked(s, c)
  {
    var p := s.polls[c];
    var n := Next(s, PollMark(c));
    assert p.cmds[p.marked..][1..] == p.cmds[p.marked + 1..];
    assert n.polls[c := p.(marked := |p.cmds|)] == s.polls[c := p.(marked := |p.cmds|)];
  }

  lemma NoneToMark(s: Server, c: Call)
    requires c in s.polls && s.polls[c].marked == |s.polls[c].cmds|
    ensures AllMarked(s, c) == s
  {
    assert s.polls[c := s.polls[c]] == s.polls;
  }

  lemma {:induction false} MarksRun(s: Server, c: Call, n: nat)
    requires c in s.polls && s.polls[c].marked + n == |s.polls[c].cmds|
    ensures Possible(s, Marks(c, n)) && After(s, Marks(c, n)) == AllMarked(s, c)
    decreases n
  {
    hide AllMarked, Next;
    if n == 0 {
      NoneToMark(s, c);
    } else {
      OneMark(s, c);
      MarksRun(Next(s, PollMark(c)), c, n - 1);
      assert Marks(c, n)[1..] == Marks(c, n - 1);
    }
  }

  lemma ConfigureFirst(m: Configs, d: DeviceId, cs: seq<Command>, w: nat)
    requires w < |cs|
    ensures Configured(Configure(m, d, cs[w]), d, cs[w + 1..]) == Configured(m, d, cs[w..])
    ensures LastUpdate(cs[w..]) == if LastUpdate(cs[w + 1..]).Some? then LastUpdate(cs[w + 1..]) else Update(cs[w])
  {
    assert cs[w..] == [cs[w]] + cs[w + 1..];
    LastUpdateConcat([cs[w]], cs[w + 1..]);
    assert [cs[w]][..0] == [];
  }

  /** The interval of a poll after it has processed its selection from position w on. */
  function AfterUpdates(p: C2.Poll, w: nat): uint32
    requires w <= |p.cmds|
  {
    if LastUpdate(p.cmds[w..]).Some? then LastUpdate(p.cmds[w..]).value else p.interval
  }

  function AllWritten(s: Server, c: Call): Server
    requires c in s.polls && s.polls[c].written <= |s.polls[c].cmds|
  {
    var p := s.polls[c];
    s.(config := Configured(s.config, p.device, p.cmds[p.written..]),
       polls := s.polls[c := p.(written := |p.cmds|, interval := AfterUpdates(p, p.written))])
  }

  lemma OneWrite(s: Server, c: Call)
    requires Enabled(s, PollWrite(c))
    ensures var n := Next(s, PollWrite(c));
            && c in n.polls && n.polls[c].cmds == s.polls[c].cmds && n.polls[c].marked == s.polls[c].marked
            && n.polls[c].written == s.polls[c].written + 1 && AllWritten(n, c) == AllWritten(s, c)
  {
    hide Configured, Configure, LastUpdate, Update;
    var p := s.polls[c];
    var n := Next(s, PollWrite(c));
    var done := p.(written := |p.cmds|, interval := AfterUpdates(p, p.written));
    ConfigureFirst(s.config, p.device, p.cmds, p.written);
    assert AfterUpdates(n.polls[c], p.written + 1) == AfterUpdates(p, p.written);
    assert n.polls[c := done] == s.polls[c := done];
  }

  lemma NoneToWrite(s: Server, c: Call)
    requires c in s.polls && s.polls[c].written == |s.polls[c].cmds|
    ensures AllWritten(s, c) == s
  {
    assert s.polls[c].cmds[s.polls[c].written..] == [];
    assert s.polls[c := s.polls[c]] == s.polls;
  }

  lemma {:induction false} WritesRun(s: Server, c: Call, n: nat)
    requires c in s.polls && s.polls[c].marked == |s.polls[c].cmds| && s.polls[c].written + n == |s.polls[c].cmds|
    ensures Possible(s, Writes(c, n)) && After(s, Writes(c, n)) == AllWritten(s, c)
    decreases n
  {
    hide AllWritten, Next;
    if n == 0 {
      NoneToWrite(s, c);
    } else {
      OneWrite(s, c);
      WritesRun(Next(s, PollWrite(c)), c, n - 1);
      assert Writes(c, n)[1..] == Writes(c, n - 1);
    }
  }

  /** What a poll replies once it has processed its selection. */
  function Answered(p: C2.Poll, cs: seq<Command>, batteryPct: nat): Answer {
    var interval := if LastUpdate(cs).Some? then LastUpdate(cs).value else p.interval;
    Answer(p.device, if batteryPct < 20 then LOW_BATTERY_SLEEP else interval)
  }

  /** From a selection already made: mark, write and reply with no other step in between. */
  lemma FinishPoll(s: Server, c: Call, batteryPct: nat) returns (run: seq<Step>)
    requires c in s.polls && s.polls[c].selected && s.polls[c].marked == 0 && s.polls[c].written == 0
    ensures Possible(s, run)
    ensures var p := s.polls[c];
            After(s, run) == s.(rows := MarkAll(s.rows, p.cmds), config := Configured(s.config, p.device, p.cmds),
                                polls := s.polls - {c}, delivered := s.delivered + Deliveries(p.device, p.cmds),
                                answers := s.answers + [Answered(p, p.cmds, batteryPct)])
  {
    var p := s.polls[c];
    var n := |p.cmds|;
    assert p.cmds[0..] == p.cmds;
    MarksRun(s, c, n);
    var a := After(s, Marks(c, n));
    WritesRun(a, c, n);
    RunConcat(s, Marks(c, n), Writes(c, n));
    run := Marks(c, n) + Writes(c, n);
    Continue(s, run, PollReply(c, batteryPct));
    run := run + [PollReply(c, batteryPct)];
    assert After(s, run).polls == s.polls - {c};
  }

  lemma StartPoll(s: Server, c: Call, d: DeviceId)
    requires c !in s.polls
    ensures var p := C2.Poll.Poll(d, ReadInterval(s.config, d), true, PendingOf(s.rows, d), 0, 0);
            && Possible(s, [PollRead(c, d), PollSelect(c)])
            && After(s, [PollRead(c, d), PollSelect(c)]) == s.(polls := s.polls[c := p])
  {
    hide PendingOf, Possible, After;
    OneStep(s, PollRead(c, d));
    Continue(s, [PollRead(c, d)], PollSelect(c));
    assert [PollRead(c, d)] + [PollSelect(c)] == [PollRead(c, d), PollSelect(c)];
  }

  /** An uninterrupted poll has the effect of the sequential HandleTelemetry, and replies the same interval. */
  lemma UninterruptedPoll(s: Server, c: Call, d: DeviceId, batteryPct: nat) returns (run: seq<Step>)
    requires c !in s.polls && UniqueIds(s.rows)
    ensures Possible(s, run)
    ensures var cs := PendingOf(s.rows, d);
            After(s, run) == s.(rows := Dispatched(s.rows, d), config := Configured(s.config, d, cs),
                                delivered := s.delivered + Deliveries(d, cs),
                                answers := s.answers + [Answer(d, ReplyInterval(s.config, d, cs, batteryPct))])
  {
    hide Possible, After, PendingOf, LastUpdate, Dispatched, UniqueIds, Deliveries;
    StartPoll(s, c, d);
    run := [PollRead(c, d), PollSelect(c)];
    var a := After(s, run);
    var rest := FinishPoll(a, c, batteryPct);
    RunConcat(s, run, rest);
    run := run + rest;
    MarkSelected(s.rows, d);
    assert a.polls - {c} == s.polls;
  }

  /** An uninterrupted queue call has the effect of the sequential HandleQueueCommand on a valid request. */
  lemma UninterruptedQueue(s: Server, c: Call, d: DeviceId, cmd: Command)
    requires c !in s.queueing
    ensures var run := [QueueWrite(c, d, cmd), QueueInsert(c)];
            && Possible(s, run)
            && After(s, run) == s.(config := Configure(s.config, d, cmd),
                                   rows := if Known(s.rows, cmd.id) then s.rows else s.rows + [Row(d, cmd, Pending)])
  {
    OneStep(s, QueueWrite(c, d, cmd));
    var a := Next(s, QueueWrite(c, d, cmd));
    Continue(s, [QueueWrite(c, d, cmd)], QueueInsert(c));
    assert [QueueWrite(c, d, cmd)] + [QueueInsert(c)] == [QueueWrite(c, d, cmd), QueueInsert(c)];
    assert a.queueing - {c} == s.queueing;
  }

  // ---------------------------------------------------------------------
  // Orderly runs exist
  // ---------------------------------------------------------------------

  lemma {:induction false} BehavedStep(s: Server, run: seq<Step>, t: Step)
    requires Behaved(s, run) && Enabled(After(s, run), t) && Orderly(After(s, run), t)
    ensures Behaved(s, run + [t]) && After(s, run + [t]) == Next(After(s, run), t)
    decreases |run|
  {
    hide Enabled, Orderly, Next;
    if run == [] {
      assert run + [t] == [t] && [t][1..] == [];
    } else {
      assert (run + [t])[1..] == run[1..] + [t];
      BehavedStep(Next(s, run[0]), run[1..], t);
    }
  }

  /** A server with one telemetry in flight that has answered nothing yet. */
  function Holding(m: Configs, rows: seq<Row>, p: Poll): Server { Server(m, rows, map[], map[0 := p], [], []) }

  lemma HandOut(d: DeviceId, a: Command, m: Configs) returns (run: seq<Step>)
    requires m == Configure(map[], d, a)
    ensures Behaved(START, run)
    ensures After(START, run) ==
            Holding(m, [Row(d, a, Sent)], C2.Poll.Poll(d, ReadInterval(m, d), true, [a], 1, 0))
  {
    hide Behaved, After, Update, PendingOf, RowsOf, LastUpdate, ReadInterval;
    run := [];
    NothingBehaved();
    BehavedStep(START, run, QueueWrite(0, d, a));
    run := run + [QueueWrite(0, d, a)];
    BehavedStep(START, run, QueueInsert(0));
    run := run + [QueueInsert(0)];
    assert After(START, run).rows == [Row(d, a, Pending)] && After(START, run).queueing == map[];
    BehavedStep(START, run, PollRead(0, d));
    run := run + [PollRead(0, d)];
    TwoRows(Row(d, a, Pending), Row(d, a, Pending), d);
    BehavedStep(START, run, PollSelect(0));
    run := run + [PollSelect(0)];
    BehavedStep(START, run, PollMark(0));
    run := run + [PollMark(0)];
    assert After(START, run).rows == [Row(d, a, Sent)];
  }

  lemma NothingBehaved()
    ensures Behaved(START, []) && After(START, []) == START
  {
  }

  lemma Deliver(d: DeviceId, a: Command, batteryPct: nat) returns (run: seq<Step>)
    requires a.action == "CONFIG_UPDATE" && a.sleep == Some(30.0)
    ensures Behaved(START, run)
    ensures After(START, run) == Server(map[d := 30], [Row(d, a, Sent)], map[], map[], [Delivery(d, a)],
                                        [Answer(d, if batteryPct < 20 then 300 else 30)])
  {
    hide Behaved, After, PendingOf, Update, RowsOf, LastUpdate, ReadInterval;
    UpdateOf(a);
    var m := Configure(map[], d, a);
    run := HandOut(d, a, m);
    BehavedStep(START, run, PollWrite(0));
    run := run + [PollWrite(0)];
    assert After(START, run).config == map[d := 30];
    BehavedStep(START, run, PollReply(0, batteryPct));
    run := run + [PollReply(0, batteryPct)];
    assert After(START, run).polls == map[] && After(START, run).delivered == [Delivery(d, a)];
  }

  lemma OneSettled(d: DeviceId, a: Command)
    ensures PendingOf([Row(d, a, Acked)], d) == []
  {
    assert [Row(d, a, Acked)][..0] == [];
  }

  /**
   * An orderly run from the start: a is queued, delivered with the interval it asks for unless the battery
   * is low, and acknowledged.
   */
  lemma DeliveredAndAcked(d: DeviceId, a: Command, batteryPct: nat) returns (run: seq<Step>)
    requires a.action == "CONFIG_UPDATE" && a.sleep == Some(30.0)
    ensures Behaved(START, run)
    ensures var s := After(START, run);
            && Quiescent(s, d) && s.rows == [Row(d, a, Acked)] && s.config == map[d := 30]
            && s.delivered == [Delivery(d, a)] && s.answers == [Answer(d, if batteryPct < 20 then 300 else 30)]
  {
    hide Behaved, After, PendingOf, RowsOf, LastUpdate;
    run := Deliver(d, a, batteryPct);
    assert Delivery(d, a) in After(START, run).delivered;
    BehavedStep(START, run, AckReceived(d, a.id));
    run := run + [AckReceived(d, a.id)];
    OneSettled(d, a);
    assert After(START, run).rows == [Row(d, a, Acked)];
  }

  // ---------------------------------------------------------------------
  // Each condition of Orderly is needed
  // ---------------------------------------------------------------------

  /** Two telemetries of one device in flight: everything pending can be delivered twice. */
  lemma OverlappingPollsDeliverTwice(s: Server, c: Call, e: Call, d: DeviceId) returns (run: seq<Step>)
    requires c != e && c !in s.polls && e !in s.polls
    ensures Possible(s, run)
    ensures var ds := Deliveries(d, PendingOf(s.rows, d));
            After(s, run).delivered == s.delivered + ds + ds
  {
    hide Possible, After, PendingOf, LastUpdate, Deliveries, MarkAll, Configured;
    StartPoll(s, c, d);
    run := [PollRead(c, d), PollSelect(c)];
    var s1 := After(s, run);
    StartPoll(s1, e, d);
    RunConcat(s, run, [PollRead(e, d), PollSelect(e)]);
    run := run + [PollRead(e, d), PollSelect(e)];
    var a := FinishPoll(After(s, run), c, 100);
    RunConcat(s, run, a);
    run := run + a;
    var b := FinishPoll(After(s, run), e, 100);
    RunConcat(s, run, b);
    run := run + b;
  }

  /** The condition under which a refused insert leaves the stored interval right: it asked for nothing new. */
  lemma RefusedInsert(s: Server, c: Call, d: DeviceId, cmd: Command)
    requires c !in s.queueing && Known(s.rows, cmd.id) && ConfigOf(s.config, d) == Wanted(s, d)
    ensures var run := [QueueWrite(c, d, cmd), QueueInsert(c)];
            && Possible(s, run)
            && var n := After(s, run);
               ConfigOf(n.config, d) == Wanted(n, d) <==> Update(cmd).None? || Update(cmd) == Wanted(s, d)
  {
    UninterruptedQueue(s, c, d, cmd);
  }

  lemma TwoRows(a: Row, b: Row, d: DeviceId)
    requires a.device == b.device == d
    ensures RowsOf([a], d) == [a] && RowsOf([a, b], d) == [a, b]
    ensures PendingOf([a], d) == if a.status == Pending then [a.cmd] else []
    ensures PendingOf([a, b], d) == PendingOf([a], d) + if b.status == Pending then [b.cmd] else []
    ensures Update(b.cmd).Some? ==> LastUpdate(CommandsIn([a, b])) == Update(b.cmd)
  {
    assert [a, b][..1] == [a] && [a][..0] == [];
  }

  /** A telemetry that has selected and marked `a`, while `b` was queued behind it. */
  function Overtaken(d: DeviceId, a: Command, b: Command): Server {
    Marked(d, a).(config := Configure(map[], d, b), rows := [Row(d, a, Sent), Row(d, b, Pending)])
  }

  function Marked(d: DeviceId, a: Command): Server {
    var m := Configure(map[], d, a);
    Server(m, [Row(d, a, Sent)], map[], map[0 := C2.Poll.Poll(d, ReadInterval(m, d), true, [a], 1, 0)], [], [])
  }

  lemma ReachMarked(d: DeviceId, a: Command) returns (run: seq<Step>)
    ensures Possible(START, run) && After(START, run) == Marked(d, a)
  {
    hide Possible, After, Update, RowsOf, LastUpdate, CommandsIn, PendingOf;
    UninterruptedQueue(START, 0, d, a);
    run := [QueueWrite(0, d, a), QueueInsert(0)];
    assert After(START, run).rows == [Row(d, a, Pending)];
    TwoRows(Row(d, a, Pending), Row(d, a, Pending), d);
    StartPoll(After(START, run), 0, d);
    RunConcat(START, run, [PollRead(0, d), PollSelect(0)]);
    run := run + [PollRead(0, d), PollSelect(0)];
    Continue(START, run, PollMark(0));
    run := run + [PollMark(0)];
    assert After(START, run).rows == [Row(d, a, Sent)];
    assert After(START, run) == Marked(d, a);
  }

  lemma ReachOvertaken(d: DeviceId, a: Command, b: Command) returns (run: seq<Step>)
    requires a.id != b.id && Update(a).Some? && Update(b).Some?
    ensures Possible(START, run) && After(START, run) == Overtaken(d, a, b)
  {
    hide Possible, After, Update;
    run := ReachMarked(d, a);
    var s := Marked(d, a);
    UninterruptedQueue(s, 0, d, b);
    RunConcat(START, run, [QueueWrite(0, d, b), QueueInsert(0)]);
    run := run + [QueueWrite(0, d, b), QueueInsert(0)];
    assert Row(d, a, Sent).cmd.id != b.id;
    assert After(START, run).rows == [Row(d, a, Sent), Row(d, b, Pending)];
    assert After(START, run).config == Overtaken(d, a, b).config;
  }

  /**
   * Two telemetries in flight again: the slower one writes its older interval
   * last, and no call is left to correct it.
   */
  lemma OverlappingPollsRollBack(d: DeviceId, a: Command, b: Command) returns (run: seq<Step>)
    requires a.id != b.id && Update(a).Some? && Update(b).Some?
    ensures Possible(START, run)
    ensures var s := After(START, run);
            Quiescent(s, d) && ConfigOf(s.config, d) == Update(a) && Wanted(s, d) == Update(b)
  {
    hide Possible, After, Update, Overtaken, UniqueIds, Wanted;
    run := ReachOvertaken(d, a, b);
    var rest := LeaveOvertaken(d, a, b);
    RunConcat(START, run, rest);
    run := run + rest;
  }

  /** The second telemetry runs from start to end before the first one continues. */
  lemma LeaveOvertaken(d: DeviceId, a: Command, b: Command) returns (run: seq<Step>)
    requires a.id != b.id && Update(a).Some? && Update(b).Some?
    ensures Possible(Overtaken(d, a, b), run)
    ensures var s := After(Overtaken(d, a, b), run);
            Quiescent(s, d) && ConfigOf(s.config, d) == Update(a) && Wanted(s, d) == Update(b)
  {
    hide Possible, After, Update, LastUpdate, RowsOf, CommandsIn, PendingOf;
    var s := Overtaken(d, a, b);
    run := UninterruptedPoll(s, 1, d, 100);
    var t := After(s, run);
    TwoRows(Row(d, a, Sent), Row(d, b, Pending), d);
    assert t.rows == [Row(d, a, Sent), Row(d, b, Sent)];
    TwoRows(Row(d, a, Sent), Row(d, b, Sent), d);
    Continue(s, run, PollWrite(0));
    Continue(s, run + [PollWrite(0)], PollReply(0, 100));
    run := run + [PollWrite(0)] + [PollReply(0, 100)];
  }

  /**
   * Acknowledging commands that were never delivered: two queue calls insert in
   * the order opposite to their map writes, and no telemetry is left to correct the map.
   */
  lemma UndeliveredAcksDiverge(d: DeviceId, a: Command, b: Command)
    requires a.id != b.id && Update(a).Some? && Update(b).Some?
    ensures var run := [QueueWrite(0, d, a), QueueWrite(1, d, b), QueueInsert(1), QueueInsert(0),
                        AckReceived(d, a.id), AckReceived(d, b.id)];
            && Possible(START, run)
            && var s := After(START, run);
               Quiescent(s, d) && ConfigOf(s.config, d) == Update(b) && Wanted(s, d) == Update(a)
  {
    hide Possible, After, Update, LastUpdate, RowsOf, CommandsIn, PendingOf;
    InsertedBackwards(d, a, b);
    var four := [QueueWrite(0, d, a), QueueWrite(1, d, b), QueueInsert(1), QueueInsert(0)];
    Continue(START, four, AckReceived(d, a.id));
    Continue(START, four + [AckReceived(d, a.id)], AckReceived(d, b.id));
    var all := four + [AckReceived(d, a.id)] + [AckReceived(d, b.id)];
    assert After(START, all).rows == [Row(d, b, Acked), Row(d, a, Acked)];
    TwoRows(Row(d, b, Acked), Row(d, a, Acked), d);
    assert all == [QueueWrite(0, d, a), QueueWrite(1, d, b), QueueInsert(1), QueueInsert(0), AckReceived(d, a.id),
        AckReceived(d, b.id)];
  }

  lemma InsertedBackwards(d: DeviceId, a: Command, b: Command)
    requires a.id != b.id && Update(a).Some? && Update(b).Some?
    ensures var run := [QueueWrite(0, d, a), QueueWrite(1, d, b), QueueInsert(1), QueueInsert(0)];
            && Possible(START, run)
            && After(START, run) ==
               Server(map[d := Update(b).value], [Row(d, b, Pending), Row(d, a, Pending)], map[], map[], [], [])
  {
    hide Possible, After, Update;
    OneStep(START, QueueWrite(0, d, a));
    Continue(START, [QueueWrite(0, d, a)], QueueWrite(1, d, b));
    var two := [QueueWrite(0, d, a)] + [QueueWrite(1, d, b)];
    Continue(START, two, QueueInsert(1));
    Continue(START, two + [QueueInsert(1)], QueueInsert(0));
    var four := two + [QueueInsert(1)] + [QueueInsert(0)];
    assert four == [QueueWrite(0, d, a), QueueWrite(1, d, b), QueueInsert(1), QueueInsert(0)];
  }
}
