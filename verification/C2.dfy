/**
 * Command and control on the Go server with the SQL repository, interleaved:
 * every shared read or write of HandleQueueCommand, HandleTelemetry and
 * HandleAckCommand is a step of its own, and any number of calls overlap.
 */
module C2 {
  import opened Basics
  import opened Commands
  import opened Handler

  type Call = nat

  /** A HandleQueueCommand that has written the map and not yet inserted its row. */
  datatype Queueing = Queueing(device: DeviceId, cmd: Command)

  /**
   * A HandleTelemetry that has read the map and, once it has selected `cmds`, marked the first `marked` rows
   * and processed the first `written`; interval is what it would reply now.
   */
  datatype Poll =
    Poll(device: DeviceId, interval: uint32, selected: bool, cmds: seq<Command>, marked: nat, written: nat)

  datatype Delivery = Delivery(device: DeviceId, cmd: Command)

  /** The interval a reply carried. */
  datatype Answer = Answer(device: DeviceId, interval: uint32)

  datatype Server = Server(config: Configs, rows: seq<Row>, queueing: map<Call, Queueing>, polls: map<Call, Poll>,
                           delivered: seq<Delivery>, answers: seq<Answer>)

  const START: Server := Server(map[], [], map[], map[], [], [])

  datatype Step =
    | QueueWrite(c: Call, d: DeviceId, cmd: Command)  // deviceSleepConfigs[d] = ...
    | QueueInsert(c: Call)                            // INSERT INTO commands
    | PollRead(c: Call, d: DeviceId)                  // ... = deviceSleepConfigs[d]
    | PollSelect(c: Call)                             // SELECT ... PENDING
    | PollMark(c: Call)                               // UPDATE ... SENT, one id
    | PollWrite(c: Call)                              // one iteration over pendingCmds
    | PollReply(c: Call, batteryPct: nat)             // the response leaves
    | AckReceived(d: DeviceId, id: string)            // UPDATE ... ACKED

  predicate Enabled(s: Server, t: Step) {
    match t
    case QueueWrite(c, _, _) => c !in s.queueing
    case QueueInsert(c) => c in s.queueing
    case PollRead(c, _) => c !in s.polls
    case PollSelect(c) => c in s.polls && !s.polls[c].selected
    case PollMark(c) => c in s.polls && s.polls[c].marked < |s.polls[c].cmds|
    case PollWrite(c) =>
      c in s.polls && s.polls[c].marked == |s.polls[c].cmds| && s.polls[c].written < |s.polls[c].cmds|
    case PollReply(c, _) =>
      c in s.polls && s.polls[c].selected &&
      s.polls[c].marked == |s.polls[c].cmds| && s.polls[c].written == |s.polls[c].cmds|
    case AckReceived(_, _) => true
  }

  function Deliveries(d: DeviceId, cs: seq<Command>): (ds: seq<Delivery>)
    ensures |ds| == |cs| && forall i | 0 <= i < |cs| :: ds[i] == Delivery(d, cs[i])
  {
    seq(|cs|, i requires 0 <= i < |cs| => Delivery(d, cs[i]))
  }

  function Configure(m: Configs, d: DeviceId, cmd: Command): Configs {
    if Update(cmd).Some? then m[d := Update(cmd).value] else m
  }

  function Next(s: Server, t: Step): Server
    requires Enabled(s, t)
  {
    match t
    case QueueWrite(c, d, cmd) =>
      s.(config := Configure(s.config, d, cmd), queueing := s.queueing[c := Queueing(d, cmd)])
    case QueueInsert(c) =>
      var q := s.queueing[c];
      s.(queueing := s.queueing - {c},
         rows := if Known(s.rows, q.cmd.id) then s.rows else s.rows + [Row(q.device, q.cmd, Pending)])
    case PollRead(c, d) => s.(polls := s.polls[c := Poll(d, ReadInterval(s.config, d), false, [], 0, 0)])
    case PollSelect(c) =>
      var p := s.polls[c];
      s.(polls := s.polls[c := p.(selected := true, cmds := PendingOf(s.rows, p.device))])
    case PollMark(c) =>
      var p := s.polls[c];
      s.(rows := MarkSent(s.rows, p.cmds[p.marked].id), polls := s.polls[c := p.(marked := p.marked + 1)])
    case PollWrite(c) =>
      var p := s.polls[c];
      var u := Update(p.cmds[p.written]);
      s.(config := Configure(s.config, p.device, p.cmds[p.written]),
         polls := s.polls[c := p.(written := p.written + 1, interval := if u.Some? then u.value else p.interval)])
    case PollReply(c, batteryPct) =>
      var p := s.polls[c];
      var interval := if batteryPct < 20 then LOW_BATTERY_SLEEP else p.interval;
      s.(polls := s.polls - {c}, delivered := s.delivered + Deliveries(p.device, p.cmds),
         answers := s.answers + [Answer(p.device, interval)])
    case AckReceived(d, id) => s.(rows := AckRow(s.rows, d, id))
  }

  /**
   * What the environment guarantees: inserts succeed, a device has one telemetry in flight, and acknowledges
   * only what it was delivered.
   */
  predicate Orderly(s: Server, t: Step) {
    match t
    case QueueInsert(c) => c in s.queueing ==> !Known(s.rows, s.queueing[c].cmd.id)
    case PollRead(_, d) => forall c | c in s.polls :: s.polls[c].device != d
    case AckReceived(d, id) => exists e | e in s.delivered :: e.device == d && e.cmd.id == id
    case _ => true
  }

  predicate Possible(s: Server, run: seq<Step>)
    decreases |run|
  {
    run != [] ==> Enabled(s, run[0]) && Possible(Next(s, run[0]), run[1..])
  }

  function After(s: Server, run: seq<Step>): Server
    requires Possible(s, run)
    decreases |run|
  {
    if run == [] then s else After(Next(s, run[0]), run[1..])
  }

  predicate Behaved(s: Server, run: seq<Step>): (b: bool)
    ensures b ==> Possible(s, run)
    decreases |run|
  {
    run != [] ==> Enabled(s, run[0]) && Orderly(s, run[0]) && Behaved(Next(s, run[0]), run[1..])
  }

  // ---------------------------------------------------------------------
  // The view of one device
  // ---------------------------------------------------------------------

  /** Commands already handed to d, in order. */
  function DeliveredTo(ds: seq<Delivery>, d: DeviceId): seq<Command>
    decreases |ds|
  {
    if ds == [] then []
    else DeliveredTo(ds[..|ds| - 1], d) + (if ds[|ds| - 1].device == d then [ds[|ds| - 1].cmd] else [])
  }

  /**
   * The queue log of d splits into delivered, held by the poll in flight, and
   * pending. Held rows are SENT once marked.
   */
  predicate Split(rows: seq<Row>, done: seq<Command>, held: seq<Command>, marked: nat) {
    && marked <= |held| && |done| + |held| <= |rows|
    && (forall i | 0 <= i < |done| :: rows[i].cmd == done[i] && rows[i].status != Pending)
    && (forall i | |done| <= i < |done| + |held| ::
          rows[i].cmd == held[i - |done|] && rows[i].status == if i < |done| + marked then Sent else Pending)
    && (forall i | |done| + |held| <= i < |rows| :: rows[i].status == Pending)
  }

  function HeldBy(s: Server, k: Option<Call>): seq<Command>
    requires k.Some? ==> k.value in s.polls
  {
    if k.Some? then s.polls[k.value].cmds else []
  }

  function MarkedBy(s: Server, k: Option<Call>): nat
    requires k.Some? ==> k.value in s.polls
  {
    if k.Some? then s.polls[k.value].marked else 0
  }

  /** Selected commands whose interval has not been written yet. */
  function Unwritten(s: Server, k: Option<Call>): seq<Command>
    requires k.Some? ==> k.value in s.polls && s.polls[k.value].written <= |s.polls[k.value].cmds|
  {
    if k.Some? then s.polls[k.value].cmds[s.polls[k.value].written..] else []
  }

  /** k is the one poll of d in flight, or there is none. */
  predicate OnlyPoll(s: Server, d: DeviceId, k: Option<Call>) {
    && (forall c | c in s.polls && s.polls[c].device == d :: k == Some(c))
    && (k.Some? ==>
          && k.value in s.polls && s.polls[k.value].device == d
          && s.polls[k.value].written <= |s.polls[k.value].cmds|
          && (!s.polls[k.value].selected ==> s.polls[k.value].cmds == [] && s.polls[k.value].marked == 0)
          && (s.polls[k.value].written > 0 ==> s.polls[k.value].marked == |s.polls[k.value].cmds|))
  }

  predicate Fifo(s: Server, d: DeviceId, k: Option<Call>) {
    OnlyPoll(s, d, k) && Split(RowsOf(s.rows, d), DeliveredTo(s.delivered, d), HeldBy(s, k), MarkedBy(s, k))
  }

  predicate OwnRow(rows: seq<Row>, d: DeviceId, x: Command) { exists r :: r in rows && r.device == d && r.cmd == x }

  /** Ids are unique, and a poll holds only rows of its own device. */
  predicate Sound(s: Server) {
    && UniqueIds(s.rows)
    && forall c, x | c in s.polls && x in s.polls[c].cmds :: OwnRow(s.rows, s.polls[c].device, x)
  }

  predicate NoPendingUpdates(own: seq<Row>) {
    forall i | 0 <= i < |own| && own[i].status == Pending :: Update(own[i].cmd).None?
  }

  /**
   * Nothing that changes the interval of d is on its way: not in a queue call, a pending row or a selection
   * still to be written.
   */
  predicate Settled(s: Server, d: DeviceId, k: Option<Call>)
    requires OnlyPoll(s, d, k)
  {
    && (forall c | c in s.queueing && s.queueing[c].device == d :: Update(s.queueing[c].cmd).None?)
    && NoPendingUpdates(RowsOf(s.rows, d))
    && LastUpdate(Unwritten(s, k)).None?
  }

  /** The last valid CONFIG_UPDATE inserted for d. */
  function Wanted(s: Server, d: DeviceId): Option<uint32> { LastUpdate(CommandsIn(RowsOf(s.rows, d))) }

  predicate Consistent(s: Server, d: DeviceId, k: Option<Call>)
    requires OnlyPoll(s, d, k)
  {
    Settled(s, d, k) ==> ConfigOf(s.config, d) == Wanted(s, d)
  }

  predicate Inv(s: Server, d: DeviceId, k: Option<Call>) { Sound(s) && Fifo(s, d, k) && Consistent(s, d, k) }

  // ---------------------------------------------------------------------
  // Rows of one device under the statements
  // ---------------------------------------------------------------------

  lemma {:induction false} RowsOfMark(rows: seq<Row>, d: DeviceId, id: string)
    ensures RowsOf(MarkSent(rows, id), d) == MarkSent(RowsOf(rows, d), id)
    decreases |rows|
  {
    if rows != [] {
      var n := |rows| - 1;
      RowsOfMark(rows[..n], d, id);
      assert MarkSent(rows, id)[..n] == MarkSent(rows[..n], id);
    }
  }

  lemma {:induction false} RowsOfAck(rows: seq<Row>, e: DeviceId, d: DeviceId, id: string)
    ensures RowsOf(AckRow(rows, e, id), d) == AckRow(RowsOf(rows, d), e, id)
    decreases |rows|
  {
    if rows != [] {
      var n := |rows| - 1;
      RowsOfAck(rows[..n], e, d, id);
      assert AckRow(rows, e, id)[..n] == AckRow(rows[..n], e, id);
    }
  }

  lemma RowsOfInsert(rows: seq<Row>, r: Row, d: DeviceId)
    ensures RowsOf(rows + [r], d) == RowsOf(rows, d) + (if r.device == d then [r] else [])
  {
    assert (rows + [r])[..|rows|] == rows;
  }

  lemma {:induction false} OwnPending(rows: seq<Row>, d: DeviceId)
    ensures PendingOf(RowsOf(rows, d), d) == PendingOf(rows, d)
    decreases |rows|
  {
    if rows != [] {
      var n := |rows| - 1;
      var before := RowsOf(rows[..n], d);
      OwnPending(rows[..n], d);
      assert before + [] == before;
      assert (before + [rows[n]])[..|before|] == before;
    }
  }

  lemma {:induction false} NonePending(front: seq<Row>, d: DeviceId)
    requires forall r | r in front :: r.status != Pending
    ensures PendingOf(front, d) == []
    decreases |front|
  {
    if front != [] {
      NonePending(front[..|front| - 1], d);
      assert front[|front| - 1] in front;
    }
  }

  lemma {:induction false} TailPending(front: seq<Row>, back: seq<Row>, d: DeviceId)
    requires forall r | r in front :: r.status != Pending
    requires forall r | r in back :: r.device == d && r.status == Pending
    ensures PendingOf(front + back, d) == CommandsIn(back)
    decreases |back|
  {
    hide PendingOf, CommandsIn;
    if back == [] {
      assert front + back == front;
      NonePending(front, d);
    } else {
      var n := |back| - 1;
      var less, last := back[..n], back[n];
      TailPending(front, less, d);
      PendingSnoc(front + less, last, d);
      CommandsSnoc(less, last);
      assert back == less + [last] && last in back;
      assert front + back == (front + less) + [last];
    }
  }

  lemma PendingSnoc(rows: seq<Row>, r: Row, d: DeviceId)
    ensures PendingOf(rows + [r], d) ==
            PendingOf(rows, d) + (if r.device == d && r.status == Pending then [r.cmd] else [])
  {
    assert (rows + [r])[..|rows|] == rows;
  }

  lemma CommandsSnoc(rows: seq<Row>, r: Row)
    ensures CommandsIn(rows + [r]) == CommandsIn(rows) + [r.cmd]
  {
  }

  /** The pending commands of d are the tail of its log behind the last row that is not pending. */
  lemma PendingTail(rows: seq<Row>, d: DeviceId, a: nat)
    requires var own := RowsOf(rows, d);
             && a <= |own| && (forall i | 0 <= i < a :: own[i].status != Pending)
             && (forall i | a <= i < |own| :: own[i].status == Pending)
    ensures PendingOf(rows, d) == CommandsIn(RowsOf(rows, d))[a..]
  {
    hide RowsOf, PendingOf;
    OwnPending(rows, d);
    RowsOfMember(rows, d);
    var own := RowsOf(rows, d);
    TailPending(own[..a], own[a..], d);
    assert own == own[..a] + own[a..];
    assert CommandsIn(own)[a..] == CommandsIn(own[a..]);
  }

  lemma {:induction false} NoUpdates(cs: seq<Command>)
    ensures LastUpdate(cs).None? <==> forall c | c in cs :: Update(c).None?
    decreases |cs|
  {
    if cs != [] {
      NoUpdates(cs[..|cs| - 1]);
      assert cs == cs[..|cs| - 1] + [cs[|cs| - 1]];
    }
  }

  lemma {:induction false} DeliveredAppend(ds: seq<Delivery>, e: DeviceId, cs: seq<Command>, d: DeviceId)
    ensures DeliveredTo(ds + Deliveries(e, cs), d) == DeliveredTo(ds, d) + (if e == d then cs else [])
    decreases |cs|
  {
    hide DeliveredTo;
    if cs == [] {
      assert ds + Deliveries(e, cs) == ds;
      assert DeliveredTo(ds, d) + [] == DeliveredTo(ds, d);
    } else {
      var n := |cs| - 1;
      DeliveredAppend(ds, e, cs[..n], d);
      DeliveredSnoc(ds + Deliveries(e, cs[..n]), Delivery(e, cs[n]), d);
      assert ds + Deliveries(e, cs) == ds + Deliveries(e, cs[..n]) + [Delivery(e, cs[n])];
      var before := DeliveredTo(ds, d);
      assert e == d ==> before + cs == before + cs[..n] + [cs[n]];
    }
  }

  lemma DeliveredSnoc(ds: seq<Delivery>, x: Delivery, d: DeviceId)
    ensures DeliveredTo(ds + [x], d) == DeliveredTo(ds, d) + (if x.device == d then [x.cmd] else [])
  {
    assert (ds + [x])[..|ds|] == ds;
  }

  lemma {:induction false} DeliveredMember(ds: seq<Delivery>, e: Delivery)
    ensures e in ds <==> e.cmd in DeliveredTo(ds, e.device)
    decreases |ds|
  {
    if ds != [] {
      DeliveredMember(ds[..|ds| - 1], e);
      assert ds == ds[..|ds| - 1] + [ds[|ds| - 1]];
    }
  }

  // ---------------------------------------------------------------------
  // Each step keeps the invariant of each device
  // ---------------------------------------------------------------------

  lemma SoundStep(s: Server, t: Step)
    requires Sound(s) && Enabled(s, t) && Orderly(s, t)
    ensures Sound(Next(s, t))
  {
    var n := Next(s, t);
    match t
    case QueueInsert(c) => UniqueAppend(s.rows, Row(s.queueing[c].device, s.queueing[c].cmd, Pending));
    case PollSelect(c) =>
      var d := s.polls[c].device;
      forall x | x in n.polls[c].cmds ensures OwnRow(n.rows, d, x) {
        PendingMember(s.rows, d, x);
        assert Row(d, x, Pending) in n.rows;
      }
    case PollMark(c) =>
      UniqueKept(s.rows, n.rows);
      StillOwned(s, n);
    case AckReceived(_, _) =>
      UniqueKept(s.rows, n.rows);
      StillOwned(s, n);
    case _ =>
  }

  lemma StillOwned(s: Server, n: Server)
    requires Sound(s) && SameCommands(s.rows, n.rows)
    requires n.polls.Keys == s.polls.Keys
    requires forall c | c in s.polls :: n.polls[c].device == s.polls[c].device && n.polls[c].cmds == s.polls[c].cmds
    ensures forall c, x | c in n.polls && x in n.polls[c].cmds :: OwnRow(n.rows, n.polls[c].device, x)
  {
    forall c, x | c in n.polls && x in n.polls[c].cmds
      ensures OwnRow(n.rows, n.polls[c].device, x)
    {
      assert OwnRow(s.rows, s.polls[c].device, x);
      var r :| r in s.rows && r.device == s.polls[c].device && r.cmd == x;
      var i :| 0 <= i < |s.rows| && s.rows[i] == r;
      assert n.rows[i] in n.rows;
    }
  }

  function NextPoll(t: Step, d: DeviceId, k: Option<Call>): Option<Call> {
    match t
    case PollRead(c, e) => if e == d then Some(c) else k
    case PollReply(c, _) => if k == Some(c) then None else k
    case _ => k
  }

  /** The rows of d after a step, in terms of its own log only. */
  function OwnRowsAfter(s: Server, t: Step, d: DeviceId, k: Option<Call>): seq<Row>
    requires Fifo(s, d, k) && Enabled(s, t)
  {
    var own := RowsOf(s.rows, d);
    match t
    case QueueInsert(c) => if s.queueing[c].device == d then own + [Row(d, s.queueing[c].cmd, Pending)] else own
    case PollMark(c) =>
      if k == Some(c) then
        var j := |DeliveredTo(s.delivered, d)| + s.polls[c].marked;
        own[j := own[j].(status := Sent)]
      else own
    case AckReceived(e, id) => AckRow(own, e, id)
    case _ => own
  }

  lemma RowsStep(s: Server, t: Step, d: DeviceId, k: Option<Call>)
    requires Sound(s) && Fifo(s, d, k) && Enabled(s, t) && Orderly(s, t)
    ensures RowsOf(Next(s, t).rows, d) == OwnRowsAfter(s, t, d, k)
  {
    hide RowsOf, Split, UniqueIds, MarkSent, AckRow, Known;
    assert RowsOf(s.rows, d) + [] == RowsOf(s.rows, d);
    match t
    case QueueInsert(c) => RowsOfInsert(s.rows, Row(s.queueing[c].device, s.queueing[c].cmd, Pending), d);
    case PollMark(c) =>
      RowsOfMark(s.rows, d, s.polls[c].cmds[s.polls[c].marked].id);
      if k == Some(c) { MarkOwn(s, d, c); } else { MarkOther(s, d, c); }
    case AckReceived(e, id) => RowsOfAck(s.rows, e, d, id);
    case _ =>
  }

  lemma MarkOwn(s: Server, d: DeviceId, c: Call)
    requires Sound(s) && Fifo(s, d, Some(c)) && Enabled(s, PollMark(c))
    ensures var own := RowsOf(s.rows, d);
            var p, j := s.polls[c], |DeliveredTo(s.delivered, d)| + s.polls[c].marked;
            MarkSent(own, p.cmds[p.marked].id) == own[j := own[j].(status := Sent)]
  {
    RowsOfUnique(s.rows, d);
  }

  lemma MarkOther(s: Server, d: DeviceId, c: Call)
    requires Sound(s) && Enabled(s, PollMark(c)) && s.polls[c].device != d
    ensures MarkSent(RowsOf(s.rows, d), s.polls[c].cmds[s.polls[c].marked].id) == RowsOf(s.rows, d)
  {
    var x := s.polls[c].cmds[s.polls[c].marked];
    assert x in s.polls[c].cmds && OwnRow(s.rows, s.polls[c].device, x);
    var r :| r in s.rows && r.device == s.polls[c].device && r.cmd == x;
    RowsOfMember(s.rows, d);
    forall q | q in RowsOf(s.rows, d) ensures q.cmd.id != x.id {
      var i :| 0 <= i < |s.rows| && s.rows[i] == r;
      var j :| 0 <= j < |s.rows| && s.rows[j] == q;
      assert i != j;
    }
  }

  lemma OnlyPollStep(s: Server, t: Step, d: DeviceId, k: Option<Call>)
    requires OnlyPoll(s, d, k) && Enabled(s, t) && Orderly(s, t)
    ensures OnlyPoll(Next(s, t), d, NextPoll(t, d, k))
  {
  }

  lemma DeliveredStep(s: Server, t: Step, d: DeviceId, k: Option<Call>)
    requires OnlyPoll(s, d, k) && Enabled(s, t)
    ensures DeliveredTo(Next(s, t).delivered, d) ==
            DeliveredTo(s.delivered, d) + (if t.PollReply? && k == Some(t.c) then s.polls[t.c].cmds else [])
  {
    if t.PollReply? { DeliveredAppend(s.delivered, s.polls[t.c].device, s.polls[t.c].cmds, d); }
  }

  /** An acknowledgement hits no row of the log beyond the first n. */
  predicate AckedBelow(own: seq<Row>, e: DeviceId, id: string, n: nat) {
    forall i | 0 <= i < |own| && own[i].device == e && own[i].cmd.id == id :: i < n
  }

  /** An orderly acknowledgement touches only delivered rows. */
  lemma AckDelivered(s: Server, d: DeviceId, k: Option<Call>, e: DeviceId, id: string)
    requires Sound(s) && Fifo(s, d, k) && Orderly(s, AckReceived(e, id))
    ensures AckedBelow(RowsOf(s.rows, d), e, id, |DeliveredTo(s.delivered, d)|)
  {
    RowsOfMember(s.rows, d);
    var own := RowsOf(s.rows, d);
    if e == d {
      RowsOfUnique(s.rows, d);
      var x :| x in s.delivered && x.device == d && x.cmd.id == id;
      DeliveredMember(s.delivered, x);
      var j :| 0 <= j < |DeliveredTo(s.delivered, d)| && DeliveredTo(s.delivered, d)[j] == x.cmd;
      assert own[j].cmd.id == id;
    } else {
      assert forall i | 0 <= i < |own| :: own[i] in own;
    }
  }

  lemma SplitSelect(own: seq<Row>, done: seq<Command>)
    requires Split(own, done, [], 0)
    ensures Split(own, done, CommandsIn(own)[|done|..], 0)
  {
  }

  lemma SplitMark(own: seq<Row>, done: seq<Command>, held: seq<Command>, m: nat)
    requires Split(own, done, held, m) && m < |held|
    ensures var j := |done| + m; Split(own[j := own[j].(status := Sent)], done, held, m + 1)
  {
  }

  lemma SplitReply(own: seq<Row>, done: seq<Command>, held: seq<Command>)
    requires Split(own, done, held, |held|)
    ensures Split(own, done + held, [], 0)
  {
  }

  lemma SplitInsert(own: seq<Row>, done: seq<Command>, held: seq<Command>, m: nat, r: Row)
    requires Split(own, done, held, m) && r.status == Pending
    ensures Split(own + [r], done, held, m)
  {
  }

  lemma SplitAck(own: seq<Row>, done: seq<Command>, held: seq<Command>, m: nat, d: DeviceId, id: string)
    requires Split(own, done, held, m)
    requires AckedBelow(own, d, id, |done|)
    ensures Split(AckRow(own, d, id), done, held, m)
  {
  }

  lemma FifoStep(s: Server, t: Step, d: DeviceId, k: Option<Call>)
    requires Sound(s) && Fifo(s, d, k) && Enabled(s, t) && Orderly(s, t)
    ensures Fifo(Next(s, t), d, NextPoll(t, d, k))
  {
    hide Split, RowsOf, DeliveredTo, Sound, PendingOf, AckRow;
    RowsStep(s, t, d, k);
    OnlyPollStep(s, t, d, k);
    DeliveredStep(s, t, d, k);
    var own, done := RowsOf(s.rows, d), DeliveredTo(s.delivered, d);
    assert done + [] == done;
    match t
    case PollSelect(c) =>
      if k == Some(c) { SelectFifo(s, c, d); }
    case QueueInsert(c) =>
      SplitInsert(own, done, HeldBy(s, k), MarkedBy(s, k), Row(d, s.queueing[c].cmd, Pending));
    case PollMark(c) =>
      if k == Some(c) { SplitMark(own, done, HeldBy(s, k), MarkedBy(s, k)); }
    case PollReply(c, _) =>
      if k == Some(c) { SplitReply(own, done, HeldBy(s, k)); }
    case AckReceived(e, id) =>
      AckDelivered(s, d, k, e, id);
      SplitAck(own, done, HeldBy(s, k), MarkedBy(s, k), e, id);
    case _ =>
  }

  lemma SelectFifo(s: Server, c: Call, d: DeviceId)
    requires Fifo(s, d, Some(c)) && Enabled(s, PollSelect(c))
    ensures Split(RowsOf(s.rows, d), DeliveredTo(s.delivered, d), PendingOf(s.rows, d), 0)
  {
    PendingTail(s.rows, d, |DeliveredTo(s.delivered, d)|);
    SplitSelect(RowsOf(s.rows, d), DeliveredTo(s.delivered, d));
  }

  // ---------------------------------------------------------------------
  // The stored interval
  // ---------------------------------------------------------------------

  lemma QueueWriteKeeps(s: Server, t: Step, d: DeviceId, k: Option<Call>)
    requires Inv(s, d, k) && t.QueueWrite? && Enabled(s, t)
    ensures OnlyPoll(Next(s, t), d, k) && Consistent(Next(s, t), d, k)
  {
    var n := Next(s, t);
    if Settled(n, d, k) {
      assert n.queueing[t.c] == Queueing(t.d, t.cmd);
      forall c | c in s.queueing && s.queueing[c].device == d ensures Update(s.queueing[c].cmd).None? {
        assert n.queueing[c] == s.queueing[c];
      }
      assert Settled(s, d, k);
    }
  }

  lemma InsertUpdates(own: seq<Row>, r: Row)
    requires r.status == Pending && NoPendingUpdates(own + [r])
    ensures NoPendingUpdates(own) && Update(r.cmd).None?
    ensures LastUpdate(CommandsIn(own + [r])) == LastUpdate(CommandsIn(own))
  {
    var now := own + [r];
    assert now[|own|] == r && forall i | 0 <= i < |own| :: now[i] == own[i];
    assert CommandsIn(now)[..|own|] == CommandsIn(own);
  }

  lemma QueueInsertKeeps(s: Server, t: Step, d: DeviceId, k: Option<Call>)
    requires Inv(s, d, k) && t.QueueInsert? && Enabled(s, t) && Orderly(s, t)
    ensures OnlyPoll(Next(s, t), d, k) && Consistent(Next(s, t), d, k)
  {
    hide RowsOf, Split, Sound, CommandsIn, LastUpdate, NoPendingUpdates, Update, Known;
    RowsStep(s, t, d, k);
    var n := Next(s, t);
    var q := s.queueing[t.c];
    if Settled(n, d, k) {
      if q.device == d { InsertUpdates(RowsOf(s.rows, d), Row(d, q.cmd, Pending)); }
      forall c | c in s.queueing && s.queueing[c].device == d ensures Update(s.queueing[c].cmd).None? {
        if c != t.c { assert c in n.queueing; }
      }
      assert Settled(s, d, k);
    }
  }

  lemma PollReadKeeps(s: Server, t: Step, d: DeviceId, k: Option<Call>)
    requires Inv(s, d, k) && t.PollRead? && Enabled(s, t) && Orderly(s, t)
    ensures OnlyPoll(Next(s, t), d, NextPoll(t, d, k)) && Consistent(Next(s, t), d, NextPoll(t, d, k))
  {
    OnlyPollStep(s, t, d, k);
  }

  lemma PollSelectKeeps(s: Server, t: Step, d: DeviceId, k: Option<Call>)
    requires Inv(s, d, k) && t.PollSelect? && Enabled(s, t) && Orderly(s, t)
    ensures OnlyPoll(Next(s, t), d, NextPoll(t, d, k)) && Consistent(Next(s, t), d, NextPoll(t, d, k))
  {
    OnlyPollStep(s, t, d, k);
  }

  lemma MarkUpdates(own: seq<Row>, j: nat)
    requires j < |own|
    ensures var now := own[j := own[j].(status := Sent)];
            && CommandsIn(now) == CommandsIn(own)
            && (NoPendingUpdates(now) && Update(own[j].cmd).None? ==> NoPendingUpdates(own))
  {
    var now := own[j := own[j].(status := Sent)];
    assert forall i | 0 <= i < |own| && i != j :: now[i] == own[i];
  }

  lemma MarkedCommand(s: Server, d: DeviceId, k: Option<Call>)
    requires Fifo(s, d, k) && k.Some? && MarkedBy(s, k) < |HeldBy(s, k)|
    ensures var j := |DeliveredTo(s.delivered, d)| + MarkedBy(s, k);
            j < |RowsOf(s.rows, d)| && RowsOf(s.rows, d)[j].cmd == HeldBy(s, k)[MarkedBy(s, k)]
  {
  }

  lemma PollMarkKeeps(s: Server, t: Step, d: DeviceId, k: Option<Call>)
    requires Inv(s, d, k) && t.PollMark? && Enabled(s, t) && Orderly(s, t)
    ensures OnlyPoll(Next(s, t), d, k) && Consistent(Next(s, t), d, k)
  {
    hide RowsOf, Split, Sound, CommandsIn, LastUpdate, NoPendingUpdates, Update, MarkSent, DeliveredTo;
    RowsStep(s, t, d, k);
    var n := Next(s, t);
    if Settled(n, d, k) {
      if k == Some(t.c) {
        var u := Unwritten(s, k);
        NoUpdates(u);
        MarkedCommand(s, d, k);
        assert u[MarkedBy(s, k)] in u;
        MarkUpdates(RowsOf(s.rows, d), |DeliveredTo(s.delivered, d)| + MarkedBy(s, k));
      }
      assert Settled(s, d, k);
    }
  }

  /** The heart: once the last held update is written, it is the last one in the log. */
  lemma PollWriteKeeps(s: Server, t: Step, d: DeviceId, k: Option<Call>)
    requires Inv(s, d, k) && t.PollWrite? && Enabled(s, t) && Orderly(s, t)
    ensures OnlyPoll(Next(s, t), d, k) && Consistent(Next(s, t), d, k)
  {
    hide RowsOf, Split, Sound, CommandsIn, LastUpdate, NoPendingUpdates, Update, DeliveredTo;
    var n := Next(s, t);
    if Settled(n, d, k) {
      if k == Some(t.c) {
        var p := s.polls[t.c];
        WrittenUpdate(p.cmds, p.written);
        assert Unwritten(n, k) == p.cmds[p.written + 1..];
        if Update(p.cmds[p.written]).Some? {
          WantedIsHeld(s, d, k);
        } else {
          assert Settled(s, d, k);
        }
      } else {
        assert Settled(s, d, k);
      }
    }
  }

  /** Writing one command, when none after it is an update. */
  lemma WrittenUpdate(cs: seq<Command>, w: nat)
    requires w < |cs| && LastUpdate(cs[w + 1..]).None?
    ensures LastUpdate(cs[w..]) == Update(cs[w])
    ensures Update(cs[w]).Some? ==> LastUpdate(cs) == Update(cs[w])
  {
    hide LastUpdate, Update;
    assert cs[w..] == [cs[w]] + cs[w + 1..];
    LastUpdateConcat([cs[w]], cs[w + 1..]);
    OneUpdate(cs[w]);
    assert cs == cs[..w] + cs[w..];
    LastUpdateConcat(cs[..w], cs[w..]);
  }

  lemma OneUpdate(c: Command)
    ensures LastUpdate([c]) == Update(c)
  {
    assert [c][..0] == [];
  }

  /** With no update pending, the last update of a held selection is the last one inserted. */
  lemma WantedIsHeld(s: Server, d: DeviceId, k: Option<Call>)
    requires Fifo(s, d, k) && LastUpdate(HeldBy(s, k)).Some?
    requires MarkedBy(s, k) == |HeldBy(s, k)|
    requires NoPendingUpdates(RowsOf(s.rows, d))
    ensures Wanted(s, d) == LastUpdate(HeldBy(s, k))
  {
    hide RowsOf, DeliveredTo, LastUpdate, Update;
    var own, done, held := RowsOf(s.rows, d), DeliveredTo(s.delivered, d), HeldBy(s, k);
    var all := CommandsIn(own);
    var m := |done| + |held|;
    SplitLog(own, done, held, MarkedBy(s, k));
    NoUpdates(all[m..]);
    LastUpdateConcat(done + held, all[m..]);
    LastUpdateConcat(done, held);
  }

  lemma SplitLog(own: seq<Row>, done: seq<Command>, held: seq<Command>, n: nat)
    requires Split(own, done, held, n) && NoPendingUpdates(own)
    ensures var all, m := CommandsIn(own), |done| + |held|;
            && all == done + held + all[m..]
            && forall c | c in all[m..] :: Update(c).None?
  {
    hide Update;
    var all, m := CommandsIn(own), |done| + |held|;
    forall c | c in all[m..] ensures Update(c).None? {
      var i :| 0 <= i < |all[m..]| && all[m..][i] == c;
      assert all[m..][i] == own[m + i].cmd && own[m + i].status == Pending;
    }
    ThreeParts(all, done, held);
  }

  lemma ThreeParts(all: seq<Command>, a: seq<Command>, b: seq<Command>)
    requires |a| + |b| <= |all| && (forall i | 0 <= i < |a| :: all[i] == a[i])
    requires forall i | |a| <= i < |a| + |b| :: all[i] == b[i - |a|]
    ensures all == a + b + all[|a| + |b|..]
  {
    assert all[..|a|] == a && all[|a|..|a| + |b|] == b;
  }

  lemma PollReplyKeeps(s: Server, t: Step, d: DeviceId, k: Option<Call>)
    requires Inv(s, d, k) && t.PollReply? && Enabled(s, t) && Orderly(s, t)
    ensures OnlyPoll(Next(s, t), d, NextPoll(t, d, k)) && Consistent(Next(s, t), d, NextPoll(t, d, k))
  {
    hide RowsOf, Split, Sound, CommandsIn, NoPendingUpdates, Update, DeliveredTo;
    OnlyPollStep(s, t, d, k);
    assert k == Some(t.c) ==> Unwritten(s, k) == [];
    assert Settled(Next(s, t), d, NextPoll(t, d, k)) ==> Settled(s, d, k);
  }

  lemma AckUpdates(own: seq<Row>, done: seq<Command>, held: seq<Command>, m: nat, e: DeviceId, id: string)
    requires Split(own, done, held, m) && AckedBelow(own, e, id, |done|)
    ensures CommandsIn(AckRow(own, e, id)) == CommandsIn(own)
    ensures NoPendingUpdates(AckRow(own, e, id)) ==> NoPendingUpdates(own)
  {
    var now := AckRow(own, e, id);
    assert forall i | 0 <= i < |own| :: own[i].status == Pending ==> now[i] == own[i];
  }

  lemma AckKeeps(s: Server, t: Step, d: DeviceId, k: Option<Call>)
    requires Inv(s, d, k) && t.AckReceived? && Enabled(s, t) && Orderly(s, t)
    ensures OnlyPoll(Next(s, t), d, k) && Consistent(Next(s, t), d, k)
  {
    hide RowsOf, Split, Sound, CommandsIn, LastUpdate, NoPendingUpdates, Update, DeliveredTo, AckRow;
    RowsStep(s, t, d, k);
    AckDelivered(s, d, k, t.d, t.id);
    AckUpdates(RowsOf(s.rows, d), DeliveredTo(s.delivered, d), HeldBy(s, k), MarkedBy(s, k), t.d, t.id);
    assert Settled(Next(s, t), d, k) ==> Settled(s, d, k);
  }

  lemma StepKeepsInv(s: Server, t: Step, d: DeviceId, k: Option<Call>)
    requires Inv(s, d, k) && Enabled(s, t) && Orderly(s, t)
    ensures Inv(Next(s, t), d, NextPoll(t, d, k))
  {
    SoundStep(s, t);
    FifoStep(s, t, d, k);
    hide Sound, Next, Enabled, Orderly, OnlyPoll, Settled;
    match t
    case QueueWrite(_, _, _) => QueueWriteKeeps(s, t, d, k);
    case QueueInsert(_) => QueueInsertKeeps(s, t, d, k);
    case PollRead(_, _) => PollReadKeeps(s, t, d, k);
    case PollSelect(_) => PollSelectKeeps(s, t, d, k);
    case PollMark(_) => PollMarkKeeps(s, t, d, k);
    case PollWrite(_) => PollWriteKeeps(s, t, d, k);
    case PollReply(_, _) => PollReplyKeeps(s, t, d, k);
    case AckReceived(_, _) => AckKeeps(s, t, d, k);
  }

  lemma {:induction false} RunKeepsInv(s: Server, run: seq<Step>, d: DeviceId, k: Option<Call>)
    returns (k': Option<Call>)
    requires Inv(s, d, k) && Behaved(s, run)
    ensures Inv(After(s, run), d, k')
    decreases |run|
  {
    hide Inv, Next, Enabled, Orderly;
    k' := k;
    if run != [] {
      StepKeepsInv(s, run[0], d, k);
      k' := RunKeepsInv(Next(s, run[0]), run[1..], d, NextPoll(run[0], d, k));
    }
  }

  // ---------------------------------------------------------------------
  // Main results
  // ---------------------------------------------------------------------

  /** No call for d is in flight and nothing is pending for it. */
  predicate Quiescent(s: Server, d: DeviceId) {
    && (forall c | c in s.queueing :: s.queueing[c].device != d)
    && (forall c | c in s.polls :: s.polls[c].device != d)
    && (forall r | r in s.rows && r.device == d :: r.status != Pending)
  }

  /**
   * Over every orderly interleaving from a fresh server: whenever d is quiescent,
   * its stored interval is the last valid CONFIG_UPDATE inserted for it, and is
   * absent if there was none.
   */
  lemma QuiescentInterval(run: seq<Step>, d: DeviceId)
    requires Behaved(START, run) && Quiescent(After(START, run), d)
    ensures ConfigOf(After(START, run).config, d) == Wanted(After(START, run), d)
    ensures var config, log := After(START, run).config, CommandsIn(RowsOf(After(START, run).rows, d));
            && (forall k: nat | LastAsks(log, k) ::
                  d in config && config[d] == log[k].sleep.value.Floor % 0x1_0000_0000)
            && (NoneAsks(log) ==> d !in config)
  {
    LastUpdateMeans(CommandsIn(RowsOf(After(START, run).rows, d)));
    var s := After(START, run);
    StartInv(d);
    var k := RunKeepsInv(START, run, d, None);
    assert k == None;
    RowsOfMember(s.rows, d);
    assert forall i | 0 <= i < |RowsOf(s.rows, d)| :: RowsOf(s.rows, d)[i] in RowsOf(s.rows, d);
    assert Settled(s, d, k);
  }

  /**
   * Over every orderly interleaving: what was delivered to d is a prefix of its
   * queue log, in queue order and with no command twice.
   */
  lemma OrderedAtMostOnce(run: seq<Step>, d: DeviceId)
    requires Behaved(START, run)
    ensures var s := After(START, run);
            var sent, log := DeliveredTo(s.delivered, d), CommandsIn(RowsOf(s.rows, d));
            && sent <= log
            && (forall i, j | 0 <= i < j < |sent| :: sent[i].id != sent[j].id)
  {
    var s := After(START, run);
    var k := RunKeepsInv(START, run, d, None);
    RowsOfUnique(s.rows, d);
    var sent, own := DeliveredTo(s.delivered, d), RowsOf(s.rows, d);
    assert forall i | 0 <= i < |sent| :: sent[i] == own[i].cmd;
  }

  function Rank(s: Commands.Status): nat { match s case Pending => 0 case Sent => 1 case Acked => 2 }

  predicate Forward(own: seq<Row>, now: seq<Row>) {
    && |own| <= |now|
    && forall i | 0 <= i < |own| ::
         now[i].cmd == own[i].cmd && Rank(own[i].status) <= Rank(now[i].status) <= Rank(own[i].status) + 1
  }

  lemma StepForward(s: Server, t: Step, d: DeviceId, k: Option<Call>)
    requires Sound(s) && Fifo(s, d, k) && Enabled(s, t) && Orderly(s, t)
    ensures Forward(RowsOf(s.rows, d), RowsOf(Next(s, t).rows, d))
  {
    hide RowsOf, Next, Sound, DeliveredTo, Orderly, AckRow, Split;
    RowsStep(s, t, d, k);
    var own := RowsOf(s.rows, d);
    if t.PollMark? && k == Some(t.c) {
      MarkForward(own, DeliveredTo(s.delivered, d), HeldBy(s, k), MarkedBy(s, k));
    }
    if t.AckReceived? {
      AckDelivered(s, d, k, t.d, t.id);
      AckForward(own, DeliveredTo(s.delivered, d), HeldBy(s, k), MarkedBy(s, k), t.d, t.id);
    }
    assert Forward(own, OwnRowsAfter(s, t, d, k));
  }

  lemma MarkForward(own: seq<Row>, done: seq<Command>, held: seq<Command>, m: nat)
    requires Split(own, done, held, m) && m < |held|
    ensures var j := |done| + m; Forward(own, own[j := own[j].(status := Sent)])
  {
  }

  lemma AckForward(own: seq<Row>, done: seq<Command>, held: seq<Command>, m: nat, e: DeviceId, id: string)
    requires Split(own, done, held, m) && AckedBelow(own, e, id, |done|)
    ensures Forward(own, AckRow(own, e, id))
  {
  }

  /** Each row of d only moves from PENDING to SENT to ACKED, never back and never past SENT. */
  lemma StatusMovesForward(run: seq<Step>, t: Step, d: DeviceId)
    requires Behaved(START, run) && Enabled(After(START, run), t) &&
        Orderly(After(START, run), t)
    ensures Forward(RowsOf(After(START, run).rows, d), RowsOf(Next(After(START, run), t).rows, d))
  {
    StartInv(d);
    hide After, RowsOf, Next, Enabled, Orderly, Sound, Fifo, Consistent, Forward;
    var k := RunKeepsInv(START, run, d, None);
    StepForward(After(START, run), t, d, k);
  }

  lemma StartInv(d: DeviceId)
    ensures Inv(START, d, None)
  {
    assert CommandsIn(RowsOf(START.rows, d)) == [];
  }
}
