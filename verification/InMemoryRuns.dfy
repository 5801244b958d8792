/**
 * The Go handlers on the in-memory repository, whose polls hand out everything
 * not yet acknowledged: when the stored interval is rolled back, and when not.
 */
module InMemoryRuns {
  import opened Commands
  import opened Repositories
  import opened Handler
  import C2

  datatype Server = Server(config: Configs, queues: Queues)

  const FRESH: Server := Server(map[], map[])

  /** A queue call writes the map at once, a telemetry writes it for everything it hands out. */
  function Serve(s: Server, op: Op): Server {
    match op
    case Queue(d, cmd) => Server(Configured(s.config, d, [cmd]), MemNext(s.queues, op))
    case Poll(d) => Server(Configured(s.config, d, QueueOf(s.queues, d)), MemNext(s.queues, op))
    case Ack(_, _) => Server(s.config, MemNext(s.queues, op))
  }

  function Served(s: Server, run: seq<Op>): Server
    decreases |run|
  {
    if run == [] then s else Served(Serve(s, run[0]), run[1..])
  }

  /** The commands queued for d, in order. */
  function QueuedFor(run: seq<Op>, d: DeviceId): seq<Command>
    decreases |run|
  {
    if run == [] then []
    else (if run[0].Queue? && run[0].d == d then [run[0].cmd] else []) + QueuedFor(run[1..], d)
  }

  /** An acknowledgement names the oldest command of the queue, or none of it; a queued id is not in the queue yet. */
  predicate OldestFirst(m: Queues, op: Op) {
    match op
    case Queue(d, cmd) => !IdIn(QueueOf(m, d), cmd.id)
    case Poll(_) => true
    case Ack(d, id) => var q := QueueOf(m, d); !IdIn(q, id) || q[0].id == id
  }

  predicate AlwaysOldestFirst(s: Server, run: seq<Op>)
    decreases |run|
  {
    run != [] ==> OldestFirst(s.queues, run[0]) && AlwaysOldestFirst(Serve(s, run[0]), run[1..])
  }

  // ---------------------------------------------------------------------
  // Queues without one of their commands
  // ---------------------------------------------------------------------

  lemma {:induction false} WithoutConcat(a: seq<Command>, b: seq<Command>, id: string)
    ensures Without(a + b, id) == Without(a, id) + Without(b, id)
    decreases |b|
  {
    if b == [] {
      assert a + b == a;
    } else {
      var n := |b| - 1;
      assert (a + b)[..|a + b| - 1] == a + b[..n];
      WithoutConcat(a, b[..n], id);
    }
  }

  lemma {:induction false} WithoutAbsent(q: seq<Command>, id: string)
    requires forall c | c in q :: c.id != id
    ensures Without(q, id) == q
    decreases |q|
  {
    if q != [] {
      var front := q[..|q| - 1];
      assert q == front + [q[|q| - 1]];
      WithoutAbsent(front, id);
    }
  }

  lemma WithoutOne(c: Command)
    ensures Without([c], c.id) == []
  {
    assert [c][..0] == [];
  }

  /** With distinct ids exactly the named command goes. */
  lemma WithoutAt(q: seq<Command>, k: nat)
    requires DistinctIds(q) && k < |q|
    ensures Without(q, q[k].id) == q[..k] + q[k + 1..]
  {
    hide Without, DistinctIds;
    IdsAround(q, k);
    WithoutMiddle(q[..k], q[k], q[k + 1..]);
  }

  lemma IdsAround(q: seq<Command>, k: nat)
    requires DistinctIds(q) && k < |q|
    ensures q == q[..k] + ([q[k]] + q[k + 1..])
    ensures forall x | x in q[..k] :: x.id != q[k].id
    ensures forall x | x in q[k + 1..] :: x.id != q[k].id
  {
  }

  lemma WithoutMiddle(a: seq<Command>, c: Command, b: seq<Command>)
    requires (forall x | x in a :: x.id != c.id) && (forall x | x in b :: x.id != c.id)
    ensures Without(a + ([c] + b), c.id) == a + b
  {
    hide Without;
    WithoutConcat(a, [c] + b, c.id);
    WithoutConcat([c], b, c.id);
    WithoutAbsent(a, c.id);
    WithoutAbsent(b, c.id);
    WithoutOne(c);
    assert [] + b == b;
  }

  // ---------------------------------------------------------------------
  // One acknowledgement between two polls
  // ---------------------------------------------------------------------

  /** Position k holds the last CONFIG_UPDATE of the queue. */
  predicate LastUpdateAt(q: seq<Command>, k: nat) {
    k < |q| && Update(q[k]).Some? && LastUpdate(q[k + 1..]).None?
  }

  lemma LastUpdateHere(q: seq<Command>, k: nat)
    requires LastUpdateAt(q, k)
    ensures k < |q| && Update(q[k]).Some? && LastUpdate(q) == Update(q[k]) && LastUpdate(q[k + 1..]).None?
  {
    C2.WrittenUpdate(q, k);
  }

  /** Without a command that is not the last CONFIG_UPDATE, the last one stays. */
  lemma OtherAck(q: seq<Command>, k: nat, j: nat)
    requires DistinctIds(q) && LastUpdateAt(q, k) && j < |q| && j != k
    ensures LastUpdate(Without(q, q[j].id)) == Update(q[k])
  {
    hide LastUpdate, Update, Without, DistinctIds;
    WithoutAt(q, j);
    LastUpdateHere(q, k);
    if j < k { DropBefore(q, k, j); } else { DropBehind(q, k, j); }
  }

  lemma DropBefore(q: seq<Command>, k: nat, j: nat)
    requires LastUpdateAt(q, k) && j < k
    ensures LastUpdate(q[..j] + q[j + 1..]) == Update(q[k])
  {
    hide LastUpdate, Update;
    var left := q[..j] + q[j + 1..];
    assert left[k - 1] == q[k] && left[k - 1 + 1..] == q[k + 1..];
    C2.WrittenUpdate(left, k - 1);
  }

  lemma DropBehind(q: seq<Command>, k: nat, j: nat)
    requires LastUpdateAt(q, k) && k < j < |q|
    ensures LastUpdate(q[..j] + q[j + 1..]) == Update(q[k])
  {
    hide LastUpdate, Update;
    var left := q[..j] + q[j + 1..];
    var (a, b, c) := (q[k + 1..j], [q[j]], q[j + 1..]);
    assert left[k] == q[k] && left[k + 1..] == a + c;
    assert q[k + 1..] == a + (b + c);
    LastUpdateConcat(a, b + c);
    LastUpdateConcat(b, c);
    LastUpdateConcat(a, c);
    C2.WrittenUpdate(left, k);
  }

  /**
   * A queue is polled, one id acknowledged, and the rest polled again: the
   * interval survives if and only if the id is not that of the last
   * CONFIG_UPDATE in the queue, or the updates before that one ask for no
   * interval or for the same.
   */
  lemma SecondPollKeepsInterval(s: Server, d: DeviceId, k: nat, id: string)
    requires DistinctIds(QueueOf(s.queues, d)) && LastUpdateAt(QueueOf(s.queues, d), k)
    ensures var q := QueueOf(s.queues, d);
            var once := Serve(s, Poll(d));
            var twice := Served(once, [Ack(d, id), Poll(d)]);
            && ConfigOf(once.config, d) == Update(q[k])
            && (ConfigOf(twice.config, d) == ConfigOf(once.config, d) <==>
                  id != q[k].id || LastUpdate(q[..k]).None? || LastUpdate(q[..k]) == Update(q[k]))
  {
    hide LastUpdate, Update, Without, LastUpdateAt;
    var q := QueueOf(s.queues, d);
    var once := Serve(s, Poll(d));
    LastUpdateHere(q, k);
    TwoMore(once, Ack(d, id), Poll(d));
    if j: nat :| j < |q| && q[j].id == id {
      if j == k {
        WithoutAt(q, k);
        LastUpdateConcat(q[..k], q[k + 1..]);
      } else {
        OtherAck(q, k, j);
      }
    } else {
      WithoutAbsent(q, id);
    }
  }

  lemma TwoMore(s: Server, a: Op, b: Op)
    ensures Served(s, [a, b]) == Serve(Serve(s, a), b)
  {
    assert [a, b][1..] == [b] && [b][1..] == [];
    assert Served(Serve(s, a), [b]) == Serve(Serve(s, a), b);
  }

  // ---------------------------------------------------------------------
  // Runs
  // ---------------------------------------------------------------------

  /** The map holds the last update queued, and no update in the queue says otherwise. */
  predicate Holds(s: Server, log: seq<Command>, d: DeviceId) {
    var q := QueueOf(s.queues, d);
    && ConfigOf(s.config, d) == LastUpdate(log)
    && (LastUpdate(q).None? || LastUpdate(q) == LastUpdate(log))
    && DistinctIds(q)
  }

  /** Acknowledging the oldest keeps the last update of the queue, or leaves none. */
  lemma OldestAck(q: seq<Command>)
    requires q != [] && DistinctIds(q)
    ensures DistinctIds(Without(q, q[0].id))
    ensures var left := LastUpdate(Without(q, q[0].id)); left.None? || left == LastUpdate(q)
  {
    hide LastUpdate, Without;
    WithoutAt(q, 0);
    assert q[..0] + q[1..] == q[1..];
    assert DistinctIds(q[1..]);
    assert q == [q[0]] + q[1..];
    LastUpdateConcat([q[0]], q[1..]);
  }

  lemma QueueHolds(s: Server, log: seq<Command>, op: Op, d: DeviceId)
    requires Holds(s, log, d) && op.Queue? && op.d == d && OldestFirst(s.queues, op)
    ensures Holds(Serve(s, op), log + [op.cmd], d)
  {
    hide LastUpdate, Update;
    var q := QueueOf(s.queues, d);
    C2.OneUpdate(op.cmd);
    LastUpdateConcat(log, [op.cmd]);
    LastUpdateConcat(q, [op.cmd]);
    forall i | 0 <= i < |q| ensures q[i].id != op.cmd.id { assert q[i] in q; }
  }

  lemma AckHolds(s: Server, log: seq<Command>, op: Op, d: DeviceId)
    requires Holds(s, log, d) && op.Ack? && op.d == d && OldestFirst(s.queues, op)
    ensures Holds(Serve(s, op), log, d)
  {
    hide LastUpdate, Update, Without;
    var q := QueueOf(s.queues, d);
    if IdIn(q, op.id) {
      OldestAck(q);
    } else {
      WithoutAbsent(q, op.id);
    }
  }

  lemma {:induction false} RunHolds(s: Server, log: seq<Command>, run: seq<Op>, d: DeviceId)
    requires Holds(s, log, d) && AlwaysOldestFirst(s, run)
    ensures Holds(Served(s, run), log + QueuedFor(run, d), d)
    decreases |run|
  {
    hide Holds, Serve, OldestFirst;
    if run == [] {
      assert log + [] == log;
    } else {
      var op := run[0];
      var added := if op.Queue? && op.d == d then [op.cmd] else [];
      assert log + added + QueuedFor(run[1..], d) == log + QueuedFor(run, d);
      ServeHolds(s, log, op, d);
      RunHolds(Serve(s, op), log + added, run[1..], d);
    }
  }

  lemma ServeHolds(s: Server, log: seq<Command>, op: Op, d: DeviceId)
    requires Holds(s, log, d) && OldestFirst(s.queues, op)
    ensures Holds(Serve(s, op), log + (if op.Queue? && op.d == d then [op.cmd] else []), d)
  {
    hide LastUpdate, Update, DistinctIds, Without, OldestFirst;
    assert log + [] == log;
    if op.Queue? && op.d == d { QueueHolds(s, log, op, d); }
    else if op.Ack? && op.d == d { AckHolds(s, log, op, d); }
  }

  /**
   * Over every run from a fresh server in which acknowledgements name the oldest
   * command: at every moment, in particular after every poll, the stored
   * interval is the last CONFIG_UPDATE queued, and absent without one.
   */
  lemma OldestFirstKeepsInterval(run: seq<Op>, d: DeviceId)
    requires AlwaysOldestFirst(FRESH, run)
    ensures ConfigOf(Served(FRESH, run).config, d) == LastUpdate(QueuedFor(run, d))
    ensures var config, log := Served(FRESH, run).config, QueuedFor(run, d);
            && (forall k: nat | LastAsks(log, k) ::
                  d in config && config[d] == log[k].sleep.value.Floor % 0x1_0000_0000)
            && (NoneAsks(log) ==> d !in config)
  {
    LastUpdateMeans(QueuedFor(run, d));
    RunHolds(FRESH, [], run, d);
    assert [] + QueuedFor(run, d) == QueuedFor(run, d);
  }

  /**
   * Two updates queued, both polled, the newer acknowledged first: the next poll rolls the interval back to
   * the older one.
   */
  lemma NewestAckFirstRollsBack(d: DeviceId, a: Command, b: Command)
    requires a.id != b.id && Update(a).Some? && Update(b).Some?
    ensures var polled := Served(FRESH, [Queue(d, a), Queue(d, b), Poll(d)]);
            var again := Served(polled, [Ack(d, b.id), Poll(d)]);
            && QueueOf(polled.queues, d) == [a, b]
            && ConfigOf(polled.config, d) == Update(b) && ConfigOf(again.config, d) == Update(a)
  {
    hide Update;
    var s := Serve(Serve(FRESH, Queue(d, a)), Queue(d, b));
    assert Served(FRESH, [Queue(d, a), Queue(d, b), Poll(d)]) == Serve(s, Poll(d)) by {
      assert [Queue(d, a), Queue(d, b), Poll(d)][1..] == [Queue(d, b), Poll(d)];
      TwoMore(Serve(FRESH, Queue(d, a)), Queue(d, b), Poll(d));
    }
    hide LastUpdate, Without;
    assert [] + [a] + [b] == [a, b];
    RollBack(s, d, a, b);
  }

  lemma RollBack(s: Server, d: DeviceId, a: Command, b: Command)
    requires a.id != b.id && Update(a).Some? && Update(b).Some? && QueueOf(s.queues, d) == [a, b]
    ensures var polled := Serve(s, Poll(d));
            var again := Served(polled, [Ack(d, b.id), Poll(d)]);
            ConfigOf(polled.config, d) == Update(b) && ConfigOf(again.config, d) == Update(a)
  {
    hide Update, LastUpdate, Without;
    var polled := Serve(s, Poll(d));
    TwoMore(polled, Ack(d, b.id), Poll(d));
    WithoutAt([a, b], 1);
    assert [a, b][..1] + [a, b][2..] == [a];
    C2.OneUpdate(a);
    C2.OneUpdate(b);
    assert [a, b] == [a] + [b];
    LastUpdateConcat([a], [b]);
  }

  lemma TwoOrderly(s: Server, a: Op, b: Op)
    requires OldestFirst(s.queues, a) && OldestFirst(Serve(s, a).queues, b)
    ensures AlwaysOldestFirst(s, [a, b])
  {
    hide Serve, OldestFirst;
    assert [a, b][1..] == [b] && [b][1..] == [];
    assert AlwaysOldestFirst(Serve(s, a), [b]);
  }

  /** In the other order the run meets the condition, and the interval stays that of b. */
  lemma OldestAckFirstKeeps(d: DeviceId, a: Command, b: Command)
    requires a.id != b.id && Update(a).Some? && Update(b).Some?
    ensures AlwaysOldestFirst(FRESH, [Queue(d, a), Queue(d, b)])
    ensures var queued := Served(FRESH, [Queue(d, a), Queue(d, b)]);
            && QueueOf(queued.queues, d) == [a, b]
            && AlwaysOldestFirst(queued, [Poll(d), Ack(d, a.id)])
            && var acked := Served(queued, [Poll(d), Ack(d, a.id)]);
               QueueOf(acked.queues, d) == [b] && ConfigOf(acked.config, d) == Update(b)
  {
    hide Update, LastUpdate, Without, AlwaysOldestFirst;
    var s := Serve(FRESH, Queue(d, a));
    assert [] + [a] == [a] && [a] + [b] == [a, b];
    assert QueueOf(s.queues, d) == [a] && !IdIn([a], b.id);
    TwoMore(FRESH, Queue(d, a), Queue(d, b));
    TwoOrderly(FRESH, Queue(d, a), Queue(d, b));
    var queued := Serve(s, Queue(d, b));
    assert QueueOf(queued.queues, d) == [a, b];
    TwoMore(queued, Poll(d), Ack(d, a.id));
    TwoOrderly(queued, Poll(d), Ack(d, a.id));
    WithoutAt([a, b], 0);
    assert [a, b][..0] + [a, b][1..] == [b];
    C2.OneUpdate(b);
    LastUpdateConcat([a], [b]);
  }
}
