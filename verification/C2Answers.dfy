/**
 * The interval a telemetry replies in the interleaved server of C2: it is the
 * one wanted, unless a queue call for the device overlaps.
 */
module C2Answers {
  import opened Basics
  import opened Commands
  import opened Handler
  import opened C2

  predicate NoQueueing(s: Server, d: DeviceId) { forall c | c in s.queueing :: s.queueing[c].device != d }

  /** The commands the poll c of d has selected, or would select now. */
  function Selection(s: Server, d: DeviceId, c: Call): seq<Command>
    requires c in s.polls
  {
    if s.polls[c].selected then s.polls[c].cmds else PendingOf(s.rows, d)
  }

  /**
   * The poll c of d is on its way to reply the interval wanted: an update in its
   * selection is the one wanted, and without one it has read the one wanted.
   */
  predicate Due(s: Server, d: DeviceId, c: Call) {
    && NoQueueing(s, d) && c in s.polls && s.polls[c].device == d
    && DueAt(s.polls[c], Selection(s, d, c), Wanted(s, d))
  }

  predicate DueAt(p: C2.Poll, cs: seq<Command>, wanted: Option<uint32>) {
    && p.written <= |cs|
    && (LastUpdate(cs).Some? ==> LastUpdate(cs) == wanted)
    && if LastUpdate(cs[..p.written]).Some? then p.interval == LastUpdate(cs[..p.written]).value
       else LastUpdate(cs).None? ==> p.interval == OrDefault(wanted)
  }

  // ---------------------------------------------------------------------
  // The start of a telemetry
  // ---------------------------------------------------------------------

  /** Behind what was delivered, the log is what is pending. */
  lemma PendingBehind(s: Server, d: DeviceId, k: Option<Call>)
    requires Fifo(s, d, k) && HeldBy(s, k) == []
    ensures var log, n := CommandsIn(RowsOf(s.rows, d)), |DeliveredTo(s.delivered, d)|;
            n <= |log| && PendingOf(s.rows, d) == log[n..]
  {
    PendingTail(s.rows, d, |DeliveredTo(s.delivered, d)|);
  }

  lemma NoneInTail(own: seq<Row>, n: nat)
    requires n <= |own| && (forall i | 0 <= i < n :: own[i].status != Pending)
    requires LastUpdate(CommandsIn(own)[n..]).None?
    ensures NoPendingUpdates(own)
  {
    hide LastUpdate, Update;
    var tail := CommandsIn(own)[n..];
    NoUpdates(tail);
    forall i | 0 <= i < |own| && own[i].status == Pending ensures Update(own[i].cmd).None? {
      assert tail[i - n] == own[i].cmd;
      assert own[i].cmd in tail;
    }
  }

  lemma ReadsWanted(s: Server, d: DeviceId)
    requires Inv(s, d, None) && NoQueueing(s, d) && LastUpdate(PendingOf(s.rows, d)).None?
    ensures ConfigOf(s.config, d) == Wanted(s, d)
  {
    hide LastUpdate, PendingOf, RowsOf, DeliveredTo, CommandsIn, Sound;
    var own, n := RowsOf(s.rows, d), |DeliveredTo(s.delivered, d)|;
    PendingBehind(s, d, None);
    NoneInTail(own, n);
    NoneLeft();
    assert Settled(s, d, None);
  }

  lemma NoneLeft()
    ensures LastUpdate([]).None?
  {
  }

  lemma DueStart(s: Server, d: DeviceId, c: Call)
    requires Inv(s, d, None) && NoQueueing(s, d) && Enabled(s, PollRead(c, d))
    ensures Due(Next(s, PollRead(c, d)), d, c)
  {
    hide LastUpdate, PendingOf, RowsOf, DeliveredTo, Sound, Split;
    var cs := PendingOf(s.rows, d);
    PendingBehind(s, d, None);
    var log, n := CommandsIn(RowsOf(s.rows, d)), |DeliveredTo(s.delivered, d)|;
    assert log == log[..n] + cs;
    LastUpdateConcat(log[..n], cs);
    if LastUpdate(cs).None? { ReadsWanted(s, d); }
    assert cs[..0] == [];
    NoneLeft();
  }

  // ---------------------------------------------------------------------
  // Every step until the reply
  // ---------------------------------------------------------------------

  /** A step that neither queues for d nor replies to it. */
  predicate Apart(t: Step, d: DeviceId, c: Call) {
    !(t.QueueWrite? && t.d == d) && !(t.PollReply? && t.c == c)
  }

  lemma LogStays(s: Server, t: Step, d: DeviceId, k: Option<Call>)
    requires Sound(s) && Fifo(s, d, k) && NoQueueing(s, d) && Enabled(s, t) && Orderly(s, t)
    ensures CommandsIn(RowsOf(Next(s, t).rows, d)) == CommandsIn(RowsOf(s.rows, d))
  {
    hide RowsOf, Split, Sound, DeliveredTo, AckRow, MarkSent, NoPendingUpdates;
    RowsStep(s, t, d, k);
    var own, done := RowsOf(s.rows, d), DeliveredTo(s.delivered, d);
    if t.PollMark? && k == Some(t.c) {
      MarkedCommand(s, d, k);
      MarkUpdates(own, |done| + MarkedBy(s, k));
    } else if t.AckReceived? {
      AckDelivered(s, d, k, t.d, t.id);
      AckUpdates(own, done, HeldBy(s, k), MarkedBy(s, k), t.d, t.id);
    }
  }

  lemma PendingStays(s: Server, t: Step, d: DeviceId, c: Call)
    requires Inv(s, d, Some(c)) && NoQueueing(s, d) && Enabled(s, t) && Orderly(s, t) && Apart(t, d, c)
    requires Fifo(Next(s, t), d, Some(c)) && !Next(s, t).polls[c].selected && !s.polls[c].selected
    ensures PendingOf(Next(s, t).rows, d) == PendingOf(s.rows, d)
  {
    hide Next, Enabled, Orderly, Split, RowsOf, PendingOf, DeliveredTo, Consistent, Sound;
    LogStays(s, t, d, Some(c));
    PendingBehind(s, d, Some(c));
    PendingBehind(Next(s, t), d, Some(c));
    DeliveredStep(s, t, d, Some(c));
    var done := DeliveredTo(s.delivered, d);
    assert done + [] == done;
  }

  /** What a step makes of the poll itself. */
  lemma OwnPollStep(s: Server, t: Step, d: DeviceId, c: Call)
    requires OnlyPoll(s, d, Some(c)) && Enabled(s, t) && Orderly(s, t) && Apart(t, d, c)
    ensures NextPoll(t, d, Some(c)) == Some(c) && c in Next(s, t).polls
    ensures var p, q := s.polls[c], Next(s, t).polls[c];
            && q.device == d
            && (t == PollSelect(c) ==> q == p.(selected := true, cmds := PendingOf(s.rows, d)))
            && (t == PollWrite(c) ==> q == Written(p))
            && (t != PollSelect(c) && t != PollWrite(c) ==> q == p.(marked := q.marked))
    ensures t == PollSelect(c) ==> !s.polls[c].selected
    ensures t == PollWrite(c) ==> s.polls[c].selected && s.polls[c].written < |s.polls[c].cmds|
  {
    hide PendingOf, MarkSent, AckRow, Known, Update, Configure;
  }

  function Written(p: C2.Poll): C2.Poll {
    if p.written < |p.cmds| then
      var u := Update(p.cmds[p.written]);
      p.(written := p.written + 1, interval := if u.Some? then u.value else p.interval)
    else p
  }

  lemma WrittenDue(p: C2.Poll, wanted: Option<uint32>)
    requires p.written < |p.cmds| && DueAt(p, p.cmds, wanted)
    ensures DueAt(Written(p), p.cmds, wanted)
  {
    hide LastUpdate, Update;
    OneMoreUpdate(p.cmds, p.written);
    var q := Written(p);
    if Update(p.cmds[p.written]).None? { assert q.interval == p.interval; }
  }

  lemma QueueStays(s: Server, t: Step, d: DeviceId, c: Call)
    requires NoQueueing(s, d) && Enabled(s, t) && Apart(t, d, c)
    ensures NoQueueing(Next(s, t), d)
  {
    hide PendingOf, MarkSent, AckRow, Known, Update, Configure;
  }

  lemma DueStep(s: Server, t: Step, d: DeviceId, c: Call)
    requires Inv(s, d, Some(c)) && Due(s, d, c) && Enabled(s, t) && Orderly(s, t) && Apart(t, d, c)
    ensures Inv(Next(s, t), d, Some(c)) && Due(Next(s, t), d, c)
  {
    hide Next, Enabled, Orderly, Split, RowsOf, PendingOf, Sound, LastUpdate, Update, NextPoll, Apart, Consistent,
      DeliveredTo;
    OwnPollStep(s, t, d, c);
    StepKeepsInv(s, t, d, Some(c));
    QueueStays(s, t, d, c);
    LogStays(s, t, d, Some(c));
    var p, q := s.polls[c], Next(s, t).polls[c];
    if t == PollWrite(c) {
      WrittenDue(p, Wanted(s, d));
    } else if t != PollSelect(c) && !p.selected {
      PendingStays(s, t, d, c);
    }
  }

  lemma {:induction false} RunDue(s: Server, run: seq<Step>, d: DeviceId, c: Call)
    requires Inv(s, d, Some(c)) && Due(s, d, c) && Behaved(s, run) && forall t | t in run :: Apart(t, d, c)
    ensures Inv(After(s, run), d, Some(c)) && Due(After(s, run), d, c)
    decreases |run|
  {
    hide Inv, Due, Next, Enabled, Orderly, Apart;
    if run != [] {
      assert run[0] in run && forall t | t in run[1..] :: t in run;
      DueStep(s, run[0], d, c);
      RunDue(Next(s, run[0]), run[1..], d, c);
    }
  }

  // ---------------------------------------------------------------------
  // Main result
  // ---------------------------------------------------------------------

  /** The interval a reply should carry; a wanted interval of zero is replied only by the telemetry that picks it up. */
  function ShouldReply(wanted: Option<uint32>, pickedUp: bool, batteryPct: nat): uint32 {
    if batteryPct < 20 then LOW_BATTERY_SLEEP
    else if wanted == Some(0) && pickedUp then 0
    else OrDefault(wanted)
  }

  /**
   * Over every orderly interleaving: a telemetry of d during which no queue call
   * for d is in flight replies the last valid CONFIG_UPDATE inserted for d, the
   * default without one, and 300 on a low battery.
   */
  lemma RepliesWanted(before: seq<Step>, d: DeviceId, c: Call, during: seq<Step>, batteryPct: nat)
    requires Behaved(START, before + [PollRead(c, d)] + during)
    requires Behaved(START, before) && NoQueueing(After(START, before), d)
    requires forall t | t in during :: Apart(t, d, c)
    requires var s := After(START, before + [PollRead(c, d)] + during); Enabled(s, PollReply(c, batteryPct))
    ensures var s := After(START, before + [PollRead(c, d)] + during);
            && s.polls[c].device == d
            && Next(s, PollReply(c, batteryPct)).answers ==
               s.answers + [Answer(d, ShouldReply(Wanted(s, d), LastUpdate(s.polls[c].cmds).Some?, batteryPct))]
    ensures var s := After(START, before + [PollRead(c, d)] + during);
            var log, now := CommandsIn(RowsOf(s.rows, d)), Next(s, PollReply(c, batteryPct)).answers;
            && (batteryPct < 20 ==> now == s.answers + [Answer(d, 300)])
            && (batteryPct >= 20 && NoneAsks(log) ==> now == s.answers + [Answer(d, 60)])
            && (forall k: nat | batteryPct >= 20 && LastAsks(log, k) ::
                  var n := log[k].sleep.value.Floor % 0x1_0000_0000;
                  now == s.answers + [Answer(d, if n == 0 && NoneAsks(s.polls[c].cmds) then 60 else n)])
  {
    var all := before + [PollRead(c, d)] + during;
    Parts(START, before, PollRead(c, d), during);
    hide After, Behaved, Possible, LastUpdate, Inv, Due, Next, Enabled, Orderly, Apart, NoQueueing, Wanted;
    var s0 := After(START, before);
    StartInv(d);
    var k := RunKeepsInv(START, before, d, None);
    NoPollYet(s0, d, c, k);
    DueStart(s0, d, c);
    StepKeepsInv(s0, PollRead(c, d), d, None);
    RunDue(Next(s0, PollRead(c, d)), during, d, c);
    ReplyDue(After(START, all), d, c, batteryPct);
    ReplyMeans(After(START, all), d, c, batteryPct);
  }

  /** The interval that should be replied, in terms of the commands themselves. */
  lemma ReplyMeans(s: Server, d: DeviceId, c: Call, batteryPct: nat)
    requires c in s.polls
    ensures var log := CommandsIn(RowsOf(s.rows, d));
            var reply := ShouldReply(Wanted(s, d), LastUpdate(s.polls[c].cmds).Some?, batteryPct);
            && (batteryPct < 20 ==> reply == 300)
            && (batteryPct >= 20 && NoneAsks(log) ==> reply == 60)
            && (forall k: nat | batteryPct >= 20 && LastAsks(log, k) ::
                  var n := log[k].sleep.value.Floor % 0x1_0000_0000;
                  reply == if n == 0 && NoneAsks(s.polls[c].cmds) then 60 else n)
  {
    hide LastUpdate, RowsOf, CommandsIn, LastAsks, NoneAsks;
    LastUpdateMeans(CommandsIn(RowsOf(s.rows, d)));
    LastUpdateMeans(s.polls[c].cmds);
  }

  lemma ReplyDue(s: Server, d: DeviceId, c: Call, batteryPct: nat)
    requires Due(s, d, c) && Enabled(s, PollReply(c, batteryPct))
    ensures s.polls[c].device == d
    ensures Next(s, PollReply(c, batteryPct)).answers ==
            s.answers + [Answer(d, ShouldReply(Wanted(s, d), LastUpdate(s.polls[c].cmds).Some?, batteryPct))]
  {
    hide LastUpdate, Wanted, PendingOf;
    var p := s.polls[c];
    assert p.cmds[..p.written] == p.cmds;
  }

  lemma NoPollYet(s: Server, d: DeviceId, c: Call, k: Option<Call>)
    requires Inv(s, d, k) && Orderly(s, PollRead(c, d))
    ensures k == None && NextPoll(PollRead(c, d), d, k) == Some(c)
  {
    hide Sound, Split, Consistent;
  }

  lemma {:induction false} Parts(s: Server, a: seq<Step>, t: Step, b: seq<Step>)
    requires Behaved(s, a + [t] + b)
    ensures Behaved(s, a) && Enabled(After(s, a), t) && Orderly(After(s, a), t)
    ensures Behaved(Next(After(s, a), t), b) && After(s, a + [t] + b) == After(Next(After(s, a), t), b)
    decreases |a|
  {
    hide Next, Enabled, Orderly;
    var run := a + [t] + b;
    if a == [] {
      assert run[0] == t && run[1..] == b;
    } else {
      assert run[0] == a[0] && run[1..] == a[1..] + [t] + b;
      Parts(Next(s, a[0]), a[1..], t, b);
    }
  }
}
