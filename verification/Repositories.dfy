/** The command queues of the two Go repositories, and when they answer alike. */
module Repositories {
  import opened Commands

  // ---------------------------------------------------------------------
  // SQL
  // ---------------------------------------------------------------------

  class SqlCommands {
    var commands: seq<Row>

    ghost predicate Valid() reads this { UniqueIds(commands) }

    constructor ()
      ensures Valid() && commands == []
    {
      commands := [];
    }

    /** INSERT; the UNIQUE constraint refuses a known id. */
    method QueueCommand(d: DeviceId, cmd: Command) returns (ok: bool)
      requires Valid()
      modifies this
      ensures Valid() && ok == (forall r | r in old(commands) :: r.cmd.id != cmd.id)
      ensures commands == old(commands) + (if ok then [Row(d, cmd, Pending)] else [])
    {
      if Known(commands, cmd.id) { return false; }
      UniqueAppend(commands, Row(d, cmd, Pending));
      commands := commands + [Row(d, cmd, Pending)];
      return true;
    }

    /** Select the pending rows, then mark the selected ids one statement at a time. */
    method GetPendingCommands(d: DeviceId) returns (list: seq<Command>)
      requires Valid()
      modifies this
      ensures Valid() && list == PendingOf(old(commands), d) && commands == Dispatched(old(commands), d)
    {
      list := SelectPending(commands, d);
      for i := 0 to |list|
        invariant MarkAll(commands, list[i..]) == MarkAll(old(commands), list)
      {
        assert list[i..][1..] == list[i + 1..];
        commands := MarkSent(commands, list[i].id);
      }
      MarkSelected(old(commands), d);
      UniqueKept(old(commands), commands);
    }

    method AckCommand(d: DeviceId, id: string)
      requires Valid()
      modifies this
      ensures Valid() && commands == AckRow(old(commands), d, id)
    {
      commands := AckRow(commands, d, id);
      UniqueKept(old(commands), commands);
    }
  }

  // ---------------------------------------------------------------------
  // In memory
  // ---------------------------------------------------------------------

  type Queues = map<DeviceId, seq<Command>>

  function QueueOf(m: Queues, d: DeviceId): seq<Command> { if d in m then m[d] else [] }

  function Without(cs: seq<Command>, id: string): seq<Command>
    decreases |cs|
  {
    if cs == [] then []
    else Without(cs[..|cs| - 1], id) + (if cs[|cs| - 1].id != id then [cs[|cs| - 1]] else [])
  }

  class InMemoryCommands {
    var commands: Queues

    constructor ()
      ensures commands == map[]
    {
      commands := map[];
    }

    method QueueCommand(d: DeviceId, cmd: Command)
      modifies this
      ensures commands == old(commands)[d := QueueOf(old(commands), d) + [cmd]]
    {
      commands := commands[d := QueueOf(commands, d) + [cmd]];
    }

    method GetPendingCommands(d: DeviceId) returns (res: seq<Command>)
      ensures res == QueueOf(commands, d)
    {
      if d !in commands { return []; }
      var cmds := commands[d];
      res := [];
      for i := 0 to |cmds|
        invariant res == cmds[..i]
      {
        res := res + [cmds[i]];
      }
    }

    method AckCommand(d: DeviceId, id: string)
      modifies this
      ensures commands == old(commands)[d := Without(QueueOf(old(commands), d), id)]
    {
      var cmds := QueueOf(commands, d);
      var remaining := [];
      for i := 0 to |cmds|
        invariant remaining == Without(cmds[..i], id)
      {
        assert cmds[..i + 1][..i] == cmds[..i];
        if cmds[i].id != id { remaining := remaining + [cmds[i]]; }
      }
      assert cmds[..|cmds|] == cmds;
      commands := commands[d := remaining];
    }
  }

  // ---------------------------------------------------------------------
  // Runs of both
  // ---------------------------------------------------------------------

  datatype Op = Queue(d: DeviceId, cmd: Command) | Poll(d: DeviceId) | Ack(d: DeviceId, id: string)

  function SqlNext(rows: seq<Row>, op: Op): seq<Row> {
    match op
    case Queue(d, cmd) => rows + (if Known(rows, cmd.id) then [] else [Row(d, cmd, Pending)])
    case Poll(d) => Dispatched(rows, d)
    case Ack(d, id) => AckRow(rows, d, id)
  }

  function MemNext(m: Queues, op: Op): Queues {
    match op
    case Queue(d, cmd) => m[d := QueueOf(m, d) + [cmd]]
    case Poll(_) => m
    case Ack(d, id) => m[d := Without(QueueOf(m, d), id)]
  }

  /** The lists handed out by the polls of a run. */
  function SqlReplies(rows: seq<Row>, run: seq<Op>): seq<seq<Command>>
    decreases |run|
  {
    if run == [] then []
    else (if run[0].Poll? then [PendingOf(rows, run[0].d)] else []) + SqlReplies(SqlNext(rows, run[0]), run[1..])
  }

  function MemReplies(m: Queues, run: seq<Op>): seq<seq<Command>>
    decreases |run|
  {
    if run == [] then []
    else (if run[0].Poll? then [QueueOf(m, run[0].d)] else []) + MemReplies(MemNext(m, run[0]), run[1..])
  }

  /** Queued commands carry ids that were not used before. */
  predicate FreshIds(rows: seq<Row>, run: seq<Op>)
    decreases |run|
  {
    run != [] ==>
      (run[0].Queue? ==> !Known(rows, run[0].cmd.id)) && FreshIds(SqlNext(rows, run[0]), run[1..])
  }

  /** Every command delivered to d has been acknowledged. */
  predicate AllAcked(rows: seq<Row>, d: DeviceId) {
    forall r | r in rows && r.device == d :: r.status != Sent
  }

  /** Each device acknowledges everything it was sent before it polls again. */
  predicate Prompt(rows: seq<Row>, run: seq<Op>)
    decreases |run|
  {
    run != [] ==>
      (run[0].Poll? ==> AllAcked(rows, run[0].d)) && Prompt(SqlNext(rows, run[0]), run[1..])
  }

  /** What the in-memory queue of d corresponds to: the rows not yet acknowledged. */
  function Unacked(rows: seq<Row>, d: DeviceId): seq<Command>
    decreases |rows|
  {
    if rows == [] then []
    else
      var last := rows[|rows| - 1];
      Unacked(rows[..|rows| - 1], d) + (if last.device == d && last.status != Acked then [last.cmd] else [])
  }

  ghost predicate Related(m: Queues, rows: seq<Row>) { forall d :: QueueOf(m, d) == Unacked(rows, d) }

  lemma {:induction false} UnackedAfterDispatch(rows: seq<Row>, d: DeviceId, e: DeviceId)
    ensures Unacked(Dispatched(rows, d), e) == Unacked(rows, e)
    decreases |rows|
  {
    if rows != [] {
      UnackedAfterDispatch(rows[..|rows| - 1], d, e);
      assert Dispatched(rows, d)[..|rows| - 1] == Dispatched(rows[..|rows| - 1], d);
    }
  }

  lemma {:induction false} WithoutAppend(a: seq<Command>, c: Command, id: string)
    ensures Without(a + [c], id) == Without(a, id) + (if c.id != id then [c] else [])
  {
    assert (a + [c])[..|a|] == a;
  }

  lemma {:induction false} UnackedAfterAck(rows: seq<Row>, d: DeviceId, id: string, e: DeviceId)
    ensures Unacked(AckRow(rows, d, id), e) == if e == d then Without(Unacked(rows, e), id) else Unacked(rows, e)
    decreases |rows|
  {
    if rows != [] {
      var last := rows[|rows| - 1];
      UnackedAfterAck(rows[..|rows| - 1], d, id, e);
      assert AckRow(rows, d, id)[..|rows| - 1] == AckRow(rows[..|rows| - 1], d, id);
      WithoutAppend(Unacked(rows[..|rows| - 1], e), last.cmd, id);
      var before := Unacked(rows[..|rows| - 1], e);
      assert before + [] == before;
    }
  }

  lemma UnackedAfterQueue(rows: seq<Row>, d: DeviceId, cmd: Command, e: DeviceId)
    ensures Unacked(rows + [Row(d, cmd, Pending)], e) == Unacked(rows, e) + (if e == d then [cmd] else [])
    ensures e != d ==> Unacked(rows + [Row(d, cmd, Pending)], e) == Unacked(rows, e)
  {
    assert (rows + [Row(d, cmd, Pending)])[..|rows|] == rows;
    assert Unacked(rows, e) + [] == Unacked(rows, e);
  }

  /** The two repositories stay related through every operation whatever the devices do. */
  lemma StepRelated(m: Queues, rows: seq<Row>, op: Op)
    requires Related(m, rows) && (op.Queue? ==> !Known(rows, op.cmd.id))
    ensures Related(MemNext(m, op), SqlNext(rows, op))
  {
    hide Unacked, Without, Dispatched, AckRow;
    forall e ensures QueueOf(MemNext(m, op), e) == Unacked(SqlNext(rows, op), e) {
      assert QueueOf(m, e) == Unacked(rows, e);
      match op
      case Queue(d, cmd) => UnackedAfterQueue(rows, d, cmd, e);
      case Poll(d) => UnackedAfterDispatch(rows, d, e);
      case Ack(d, id) =>
        assert QueueOf(m, d) == Unacked(rows, d);
        UnackedAfterAck(rows, d, id, e);
    }
  }

  /** On related states the answers agree exactly when nothing delivered is unacknowledged. */
  lemma {:induction false} AnswersAgree(rows: seq<Row>, d: DeviceId)
    ensures |PendingOf(rows, d)| <= |Unacked(rows, d)|
    ensures PendingOf(rows, d) == Unacked(rows, d) <==> AllAcked(rows, d)
    decreases |rows|
  {
    if rows != [] {
      var n := |rows| - 1;
      AnswersAgree(rows[..n], d);
      assert rows == rows[..n] + [rows[n]];
      var a, b := PendingOf(rows[..n], d), Unacked(rows[..n], d);
      if rows[n].device == d && rows[n].status == Pending {
        assert (a + [rows[n].cmd])[..|a|] == a && (b + [rows[n].cmd])[..|b|] == b;
      } else if rows[n].device == d && rows[n].status == Sent {
        assert |PendingOf(rows, d)| < |Unacked(rows, d)|;
        assert rows[n] in rows;
      } else {
        assert a + [] == a && b + [] == b;
        assert AllAcked(rows, d) <==> AllAcked(rows[..n], d);
      }
    }
  }

  /**
   * From related repositories and with fresh ids, all polls of a run return the
   * same lists exactly when every device acknowledges promptly.
   */
  lemma {:induction false} SameRepliesIffPrompt(m: Queues, rows: seq<Row>, run: seq<Op>)
    requires Related(m, rows) && FreshIds(rows, run)
    ensures MemReplies(m, run) == SqlReplies(rows, run) <==> Prompt(rows, run)
    decreases |run|
  {
    hide Related, AllAcked, Known, MemNext, SqlNext;
    if run != [] {
      var op := run[0];
      var m', rows' := MemNext(m, op), SqlNext(rows, op);
      StepRelated(m, rows, op);
      SameRepliesIffPrompt(m', rows', run[1..]);
      assert [] + MemReplies(m', run[1..]) == MemReplies(m', run[1..]);
      assert [] + SqlReplies(rows', run[1..]) == SqlReplies(rows', run[1..]);
      if op.Poll? {
        RelatedAt(m, rows, op.d);
        AnswersAgree(rows, op.d);
        var x, y := QueueOf(m, op.d), PendingOf(rows, op.d);
        HeadAndTail([x], MemReplies(m', run[1..]), [y], SqlReplies(rows', run[1..]));
        assert MemReplies(m, run) == [x] + MemReplies(m', run[1..]);
        assert SqlReplies(rows, run) == [y] + SqlReplies(rows', run[1..]);
      }
    }
  }

  lemma RelatedAt(m: Queues, rows: seq<Row>, d: DeviceId)
    requires Related(m, rows)
    ensures QueueOf(m, d) == Unacked(rows, d)
  {
  }

  lemma HeadAndTail<T>(a: seq<T>, s: seq<T>, b: seq<T>, t: seq<T>)
    requires |a| == |b| == 1
    ensures a + s == b + t <==> a[0] == b[0] && s == t
  {
    if a + s == b + t {
      assert (a + s)[0] == (b + t)[0] && (a + s)[1..] == (b + t)[1..];
      assert s == (a + s)[1..] && t == (b + t)[1..];
    }
  }

  /**
   * From fresh repositories: every run that queues fresh ids is answered alike by both exactly if
   * acknowledgement is prompt.
   */
  lemma FreshRepliesIffPrompt(run: seq<Op>)
    requires FreshIds([], run)
    ensures MemReplies(map[], run) == SqlReplies([], run) <==> Prompt([], run)
  {
    SameRepliesIffPrompt(map[], [], run);
  }
}
