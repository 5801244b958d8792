/** The view of one device in the runs of CloudRuns: every statement keeps it in step. */
module CloudInvariant {
  import opened Basics
  import opened Commands
  import opened Scanner
  import opened Acknowledgement
  import opened Cloud
  import opened CloudRuns
  import opened CloudAcks
  import C2

  // ---------------------------------------------------------------------
  // The log
  // ---------------------------------------------------------------------

  /** What a step queues for d. */
  function Added(w: World, t: Step, d: DeviceId): seq<Command> {
    if t.Insert? && t.d == d && !Known(w.rows, t.cmd.id) then [t.cmd] else []
  }

  /** The step marks all that is pending for d. */
  predicate Clears(w: World, t: Step, d: DeviceId) {
    t.Mark? && t.c in w.requests && w.requests[t.c].device == d && w.requests[t.c].stage.Selected? &&
    w.requests[t.c].stage.cmds != []
  }

  lemma LogStep(w: World, t: Step, d: DeviceId)
    requires Sound(w) && Enabled(w, t)
    ensures Log(Next(w, t).rows, d) == Log(w.rows, d) + Added(w, t, d)
    ensures PendingOf(Next(w, t).rows, d) == if Clears(w, t, d) then [] else PendingOf(w.rows, d) + Added(w, t, d)
  {
    hide Log, PendingOf, Dispatched, AckRow, Known, Picked, Requested, ScannedInterval, ScannedId, Reply, AckOf,
      RequestsOk, AckedRows, UniqueIds;
    var log, p := Log(w.rows, d), PendingOf(w.rows, d);
    assert log + [] == log && p + [] == p;
    match t
    case Mark(c) => DispatchLog(w.rows, w.requests[c].device, d);
    case Insert(e, cmd) => SnocLog(w.rows, Row(e, cmd, Pending), d);
    case AckArrives(i) => AckStep(w, i, d);
    case _ =>
  }

  lemma AckStep(w: World, i: nat, d: DeviceId)
    requires Sound(w) && i < |w.posts|
    ensures Log(AfterAck(w, i).rows, d) == Log(w.rows, d) && PendingOf(AfterAck(w, i).rows, d) == PendingOf(w.rows, d)
  {
    hide Log, PendingOf, AckRow, AckOf, AckBody, AckedRows, RequestsOk;
    assert w.posts[i] in w.posts;
    AckHits(w, i);
    AckLog(w.rows, w.posts[i].device, w.posts[i].cmds[0].id, d);
  }

  lemma PendingDistinct(w: World, d: DeviceId)
    requires Ordered(w, d)
    ensures Distinct(PendingOf(w.rows, d))
    ensures forall i, j | 0 <= i < j < |Log(w.rows, d)| :: Log(w.rows, d)[i].id != Log(w.rows, d)[j].id
  {
    hide PendingOf, Picks, Log, Distinct;
    LogDistinct(w.rows, d);
    TailDistinct(Picks(w.picks, d, false), PendingOf(w.rows, d));
  }

  lemma LogDistinct(rows: seq<Row>, d: DeviceId)
    requires UniqueIds(rows)
    ensures forall i, j | 0 <= i < j < |Log(rows, d)| :: Log(rows, d)[i].id != Log(rows, d)[j].id
  {
    hide RowsOf;
    RowsOfUnique(rows, d);
  }

  lemma TailDistinct(a: seq<Command>, p: seq<Command>)
    requires forall i, j | 0 <= i < j < |a + p| :: (a + p)[i].id != (a + p)[j].id
    ensures Distinct(p)
  {
    assert forall i | 0 <= i < |p| :: p[i] == (a + p)[|a| + i];
  }

  /** Picks of d after a step. */
  lemma PicksStep(w: World, t: Step, d: DeviceId, k: Option<Call>)
    requires Ordered(w, d) && OnlyRequest(w, d, k) && InStep(w, d, k) && Enabled(w, t)
    ensures Picks(Next(w, t).picks, d, false) ==
            Picks(w.picks, d, false) + (if Clears(w, t, d) then PendingOf(w.rows, d) else [])
    ensures Picks(Next(w, t).picks, d, true) ==
            Picks(w.picks, d, true) + (if Clears(w, t, d) then w.requests[t.c].stage.cmds else [])
  {
    hide PendingOf, Dispatched, Known, Requested, ScannedInterval, ScannedId, Reply, AckOf, Picks, Ordered, AckRow;
    assert forall l :: Picks(w.picks, d, l) + [] == Picks(w.picks, d, l);
    if t.Mark? && w.requests[t.c].stage.cmds != [] {
      var r := w.requests[t.c];
      var pending := PendingOf(w.rows, r.device);
      var ps := Picked(r.device, pending, r.stage.cmds);
      PicksConcat(w.picks, ps, d, false);
      PicksConcat(w.picks, ps, d, true);
      if r.device == d {
        PendingDistinct(w, d);
        PicksOfMark(d, pending, r.stage.cmds, d);
      } else {
        PicksOfOther(r.device, ps, d);
      }
    }
  }

  lemma {:induction false} PicksOfOther(e: DeviceId, ps: seq<Pick>, d: DeviceId)
    requires e != d && forall i | 0 <= i < |ps| :: ps[i].device == e
    ensures forall l :: Picks(ps, d, l) == []
    decreases |ps|
  {
    if ps != [] { PicksOfOther(e, ps[..|ps| - 1], d); }
  }

  lemma OrderedStep(w: World, t: Step, d: DeviceId, k: Option<Call>)
    requires Sound(w) && Ordered(w, d) && OnlyRequest(w, d, k) && InStep(w, d, k) && Enabled(w, t)
    ensures Ordered(Next(w, t), d)
  {
    hide Sound, Log, PendingOf, Picks, Clears, Added, Next, Enabled, OnlyRequest, InStep;
    StepUnique(w, t);
    LogStep(w, t, d);
    PicksStep(w, t, d, k);
    NotBoth(w, t, d);
  }

  lemma NotBoth(w: World, t: Step, d: DeviceId)
    ensures Clears(w, t, d) ==> Added(w, t, d) == []
  {
  }

  // ---------------------------------------------------------------------
  // The request in flight
  // ---------------------------------------------------------------------

  /** The request a step works on. */
  function StepCall(t: Step): Option<Call> {
    match t
    case Look(c, _) => Some(c)
    case Register(c) => Some(c)
    case Select(c) => Some(c)
    case Write(c) => Some(c)
    case Mark(c) => Some(c)
    case Respond(c, _, _) => Some(c)
    case Insert(_, _) => None
    case AckArrives(_) => None
    case Abort(c) => Some(c)
    case Reset(_) => None
  }

  /** The step ends its request. */
  predicate Ends(t: Step) { t.Respond? || t.Abort? }

  /** A step leaves all other requests alone, and does not move its own to another device. */
  lemma RequestsStep(w: World, t: Step)
    requires Enabled(w, t)
    ensures var n := Next(w, t);
            && (forall x | Some(x) != StepCall(t) :: x in n.requests <==> x in w.requests)
            && (forall x | Some(x) != StepCall(t) && x in w.requests :: n.requests[x] == w.requests[x])
    ensures forall c | StepCall(t) == Some(c) && c in Next(w, t).requests ::
              Next(w, t).requests[c].device == if t.Look? then t.d else w.requests[c].device
    ensures t.Respond? || t.Abort? ==> t.c !in Next(w, t).requests
    ensures t.Look? || t.Select? || t.Write? || t.Mark? ==> t.c in Next(w, t).requests
    ensures t.Register? && (w.requests[t.c].stage.found || w.requests[t.c].device !in w.devices) ==>
              t.c in Next(w, t).requests
  {
    hide PendingOf, Dispatched, Known, Requested, ScannedInterval, ReplyText, Posted, AckOf, Picked, AckRow;
  }

  lemma OnlyRequestStep(w: World, t: Step, d: DeviceId, k: Option<Call>)
    requires OnlyRequest(w, d, k) && InStep(w, d, k) && Enabled(w, t) && Fair(w, t)
    ensures OnlyRequest(Next(w, t), d, NextRequest(w, t, d, k))
  {
    RequestsStep(w, t);
    hide Next, ProperName, Carries;
    var k' := NextRequest(w, t, d, k);
    forall x | x in Next(w, t).requests && Next(w, t).requests[x].device == d ensures k' == Some(x) {
      if Some(x) != StepCall(t) { assert k == Some(x); }
    }
  }

  /** Only the request of d itself changes what is stored for d, or what d sleeps by. */
  lemma TablesStep(w: World, t: Step, d: DeviceId)
    requires Enabled(w, t) && !(t.Reset? && t.d == d)
    requires forall c | StepCall(t) == Some(c) && c in w.requests :: w.requests[c].device != d
    ensures d in Next(w, t).devices <==> d in w.devices
    ensures d in w.devices ==> Next(w, t).devices[d] == w.devices[d]
    ensures IntervalOf(Next(w, t), d) == IntervalOf(w, d)
  {
    hide PendingOf, Dispatched, Known, Requested, ScannedInterval, ReplyText, Posted, AckOf, Picked, AckRow;
  }

  lemma OwnStep(w: World, t: Step, d: DeviceId, k: Option<Call>)
    requires OnlyRequest(w, d, k) && Enabled(w, t) && (k.None? || k != StepCall(t)) && !(t.Reset? && t.d == d)
    ensures d in Next(w, t).devices <==> d in w.devices
    ensures d in w.devices ==> Next(w, t).devices[d] == w.devices[d]
    ensures IntervalOf(Next(w, t), d) == IntervalOf(w, d)
    ensures k.Some? ==> k.value in Next(w, t).requests && Next(w, t).requests[k.value] == w.requests[k.value]
  {
    hide Next;
    RequestsStep(w, t);
    TablesStep(w, t, d);
  }

  /** A step of the device's own request keeps it in step with the tables. */
  lemma OwnInStep(w: World, t: Step, d: DeviceId, k: Option<Call>)
    requires OnlyRequest(w, d, k) && InStep(w, d, k) && Enabled(w, t) && k.Some? && k == StepCall(t) && !Ends(t)
    ensures OnlyRequest(Next(w, t), d, k) && InStep(Next(w, t), d, k)
  {
    hide PendingOf, Dispatched, Known, Requested, ScannedInterval, ScannedId, Reply, AckOf, Picked, ProperName, AckRow;
  }

  lemma InStepStep(w: World, t: Step, d: DeviceId, k: Option<Call>)
    requires Sound(w) && OnlyRequest(w, d, k) && InStep(w, d, k) && Enabled(w, t) && Fair(w, t)
    ensures var k' := NextRequest(w, t, d, k); OnlyRequest(Next(w, t), d, k') && InStep(Next(w, t), d, k')
  {
    hide Sound, InStep, Next, Enabled, Fair, OnlyRequest;
    OnlyRequestStep(w, t, d, k);
    if k.Some? && k == StepCall(t) {
      if Ends(t) { Gone(w, t, d, k); } else { OwnInStep(w, t, d, k); OwnRequest(w, t, d, k); }
    } else if t.Look? && t.d == d {
      LookInStep(w, t, d);
    } else if t.Reset? && t.d == d {
      ResetInStep(w, t, d, k);
    } else {
      OtherInStep(w, t, d, k);
    }
  }

  lemma ResetInStep(w: World, t: Step, d: DeviceId, k: Option<Call>)
    requires OnlyRequest(w, d, k) && Enabled(w, t) && Fair(w, t) && t == Reset(d)
    ensures k == None && NextRequest(w, t, d, k) == None
    ensures OnlyRequest(Next(w, t), d, None) && InStep(Next(w, t), d, None)
  {
  }

  lemma Gone(w: World, t: Step, d: DeviceId, k: Option<Call>)
    requires k.Some? && k == StepCall(t) && Ends(t) && Enabled(w, t) && OnlyRequest(Next(w, t), d, None)
    ensures NextRequest(w, t, d, k) == None && InStep(Next(w, t), d, None)
  {
    hide Next;
  }

  lemma OwnRequest(w: World, t: Step, d: DeviceId, k: Option<Call>)
    requires k.Some? && k == StepCall(t) && !Ends(t) && OnlyRequest(w, d, k) && Enabled(w, t)
    ensures NextRequest(w, t, d, k) == k
  {
  }

  lemma LookInStep(w: World, t: Step, d: DeviceId)
    requires Enabled(w, t) && t.Look? && t.d == d && OnlyRequest(Next(w, t), d, Some(t.c))
    ensures InStep(Next(w, t), d, Some(t.c))
  {
  }

  lemma OtherInStep(w: World, t: Step, d: DeviceId, k: Option<Call>)
    requires Sound(w) && OnlyRequest(w, d, k) && InStep(w, d, k) && Enabled(w, t)
    requires (k.None? || k != StepCall(t)) && !((t.Look? || t.Reset?) && t.d == d) && OnlyRequest(Next(w, t), d, k)
    ensures NextRequest(w, t, d, k) == k && InStep(Next(w, t), d, k)
  {
    hide Sound, Next, PendingOf, Added, Clears, Enabled, Log, NextRequest, StepCall;
    OwnStep(w, t, d, k);
    LogStep(w, t, d);
    OtherClears(w, t, d, k);
    SameRequest(t, d, k, w);
  }

  lemma SameRequest(t: Step, d: DeviceId, k: Option<Call>, w: World)
    requires !(t.Look? && t.d == d) && (k.None? || k != StepCall(t))
    ensures NextRequest(w, t, d, k) == k
  {
  }

  lemma OtherClears(w: World, t: Step, d: DeviceId, k: Option<Call>)
    requires OnlyRequest(w, d, k) && (k.None? || k != StepCall(t))
    ensures !Clears(w, t, d)
  {
  }

  // ---------------------------------------------------------------------
  // The stored interval, the replies, and the interval in use
  // ---------------------------------------------------------------------

  lemma ChosenSnoc(a: seq<Command>, cs: seq<Command>, n: nat, start: int)
    requires n < |cs|
    ensures Chosen(a + cs[..n + 1], start) ==
            if Requested(cs[n]).Some? then Requested(cs[n]).value else Chosen(a + cs[..n], start)
  {
    assert a + cs[..n + 1] == (a + cs[..n]) + [cs[n]];
    assert ((a + cs[..n]) + [cs[n]])[..|a| + n] == a + cs[..n];
  }

  /** How far processing has come after a step. */
  function NextProcessed(w: World, t: Step, d: DeviceId, k: Option<Call>, m: nat): nat
    requires Enabled(w, t)
  {
    if k.Some? && t == Write(k.value) then
      var r := w.requests[k.value];
      if Requested(r.stage.cmds[r.stage.written]).Some? || m == r.stage.written then r.stage.written + 1 else m
    else if k.Some? && t == Mark(k.value) then 0
    else m
  }

  /** The account of d survives while its picks and stored interval stay, and its pending commands only grow. */
  lemma AccountKept(w: World, n: World, d: DeviceId, k: Option<Call>, k': Option<Call>, m: nat, added: seq<Command>)
    requires (k.Some? ==> k.value in w.requests) && (k'.Some? ==> k'.value in n.requests)
    requires TracksAt(w, d, k, m)
    requires Picks(n.picks, d, true) == Picks(w.picks, d, true) && PendingOf(n.rows, d) == PendingOf(w.rows, d) + added
    requires Stored(n.devices, d, FACTORY_INTERVAL) == Stored(w.devices, d, FACTORY_INTERVAL)
    requires k'.Some? ==> n.requests[k'.value].stage.Looked? || (k == k' && n.requests[k.value] == w.requests[k.value])
    ensures TracksAt(n, d, k', m)
  {
    hide Picks, PendingOf, Chosen, Stored;
    var pending := PendingOf(w.rows, d);
    assert (pending + added)[..m] == pending[..m];
  }

  /** A device that posts, or is reset, has no other request. */
  lemma OwnEvent(w: World, t: Step, d: DeviceId, k: Option<Call>)
    requires OnlyRequest(w, d, k) && Enabled(w, t) && Fair(w, t) && (t.Look? || t.Reset?) && t.d == d
    ensures k == None && Next(w, t).devices == w.devices
    ensures var k' := NextRequest(w, t, d, k);
            k'.Some? ==> k'.value in Next(w, t).requests && Next(w, t).requests[k'.value].stage.Looked?
    ensures t.Look? ==> IntervalOf(Next(w, t), d) == IntervalOf(w, d)
    ensures t.Reset? ==> IntervalOf(Next(w, t), d) == FACTORY_INTERVAL
  {
  }

  /** A step that is not of d's own request leaves its account as it is. */
  lemma TracksOther(w: World, t: Step, d: DeviceId, k: Option<Call>, m: nat)
    requires Sound(w) && Inv(w, d, k) && Enabled(w, t) && Fair(w, t) && TracksAt(w, d, k, m)
    requires k.None? || k != StepCall(t)
    requires OnlyRequest(Next(w, t), d, NextRequest(w, t, d, k))
    ensures TracksAt(Next(w, t), d, NextRequest(w, t, d, k), m)
    ensures d !in Next(w, t).devices ==> IntervalOf(Next(w, t), d) == FACTORY_INTERVAL
  {
    hide Next, Sound, TracksAt, Picks, PendingOf, Log, Added, Clears, Enabled, Fair, Ordered, InStep, Accounted,
      NextRequest, Chosen;
    PicksStep(w, t, d, k);
    LogStep(w, t, d);
    OtherClears(w, t, d, k);
    var listed := Picks(w.picks, d, true);
    assert listed + [] == listed;
    if (t.Look? || t.Reset?) && t.d == d {
      OwnEvent(w, t, d, k);
    } else {
      OwnStep(w, t, d, k);
      SameRequest(t, d, k, w);
    }
    AccountKept(w, Next(w, t), d, k, NextRequest(w, t, d, k), m, Added(w, t, d));
  }

  /** Writing moves along the selection. */
  lemma TracksWrite(w: World, c: Call, d: DeviceId, m: nat)
    requires Inv(w, d, Some(c)) && Enabled(w, Write(c)) && TracksAt(w, d, Some(c), m)
    requires OnlyRequest(Next(w, Write(c)), d, Some(c))
    ensures TracksAt(Next(w, Write(c)), d, Some(c), NextProcessed(w, Write(c), d, Some(c), m))
    ensures d in Next(w, Write(c)).devices
  {
    hide Picks, PendingOf, Requested, Chosen, Ordered, Accounted, Tracks;
    var r := w.requests[c];
    var listed, pending, i := Picks(w.picks, d, true), PendingOf(w.rows, d), r.stage.written;
    assert pending[i] == r.stage.cmds[i];
    ChosenSnoc(listed, pending, i, FACTORY_INTERVAL);
  }

  lemma MarkMoves(w: World, c: Call)
    requires Enabled(w, Mark(c))
    ensures var n := Next(w, Mark(c));
            && n.devices == w.devices && n.intervals == w.intervals && c in n.requests
            && n.requests[c] == w.requests[c].(stage := Marked(w.requests[c].stage.cmds))
  {
    hide PendingOf, Dispatched, Picked;
  }

  /** Marking turns the selection into listed commands. */
  lemma TracksMark(w: World, c: Call, d: DeviceId, m: nat)
    requires Sound(w) && Inv(w, d, Some(c)) && Enabled(w, Mark(c)) && TracksAt(w, d, Some(c), m)
    requires OnlyRequest(Next(w, Mark(c)), d, Some(c))
    ensures TracksAt(Next(w, Mark(c)), d, Some(c), 0)
    ensures d in Next(w, Mark(c)).devices
  {
    hide Next, Picks, PendingOf, Chosen, Ordered, Accounted, Tracks, Sound, Clears;
    PicksStep(w, Mark(c), d, Some(c));
    ClearsOwn(w, Mark(c), d, Some(c));
    MarkMoves(w, c);
    var listed, pending, cmds := Picks(w.picks, d, true), PendingOf(w.rows, d), w.requests[c].stage.cmds;
    assert listed + [] == listed && listed + cmds + [] == listed + cmds;
    assert pending[..|cmds|] == cmds;
    assert PendingOf(Next(w, Mark(c)).rows, d)[..0] == [];
  }

  /** The other statements of d's own request leave its account as it is, and so does their failure. */
  lemma TracksSame(w: World, t: Step, d: DeviceId, k: Option<Call>, m: nat)
    requires Inv(w, d, k) && Enabled(w, t) && k.Some? && k == StepCall(t) && TracksAt(w, d, k, m)
    requires !t.Write? && !t.Mark? && OnlyRequest(Next(w, t), d, NextRequest(w, t, d, k))
    ensures TracksAt(Next(w, t), d, NextRequest(w, t, d, k), m)
    ensures d !in Next(w, t).devices ==> IntervalOf(Next(w, t), d) == FACTORY_INTERVAL
  {
    hide Picks, PendingOf, Requested, ScannedInterval, ReplyText, Posted, Chosen, Ordered, Accounted, AckOf, AckRow,
      Known;
  }

  lemma TracksOwn(w: World, t: Step, d: DeviceId, k: Option<Call>, m: nat)
    requires Sound(w) && Inv(w, d, k) && Enabled(w, t) && k.Some? && k == StepCall(t) && TracksAt(w, d, k, m)
    requires OnlyRequest(Next(w, t), d, NextRequest(w, t, d, k))
    ensures TracksAt(Next(w, t), d, NextRequest(w, t, d, k), NextProcessed(w, t, d, k, m))
    ensures d !in Next(w, t).devices ==> IntervalOf(Next(w, t), d) == FACTORY_INTERVAL
  {
    hide TracksAt, Inv, Next, Sound;
    if t.Write? {
      TracksWrite(w, t.c, d, m);
    } else if t.Mark? {
      TracksMark(w, t.c, d, m);
    } else {
      TracksSame(w, t, d, k, m);
    }
  }

  lemma TracksStep(w: World, t: Step, d: DeviceId, k: Option<Call>)
    requires Sound(w) && Inv(w, d, k) && Enabled(w, t) && Fair(w, t)
    requires OnlyRequest(Next(w, t), d, NextRequest(w, t, d, k))
    ensures Tracks(Next(w, t), d, NextRequest(w, t, d, k))
  {
    hide TracksAt, Sound, Next, Enabled, Fair, Ordered, InStep, Accounted, NextRequest;
    var m :| TracksAt(w, d, k, m);
    if k.Some? && k == StepCall(t) { TracksOwn(w, t, d, k, m); } else { TracksOther(w, t, d, k, m); }
  }

  lemma RepliedStep(w: World, t: Step, d: DeviceId, k: Option<Call>)
    requires OnlyRequest(w, d, k) && Enabled(w, t)
    ensures C2.DeliveredTo(Next(w, t).replied, d) ==
            C2.DeliveredTo(w.replied, d) + (if t.Respond? && k == Some(t.c) then w.requests[t.c].stage.cmds else [])
  {
    hide Picks, PendingOf, Dispatched, Requested, ScannedInterval, ScannedId, Reply, Picked, Known, AckOf, AckRow,
      C2.DeliveredTo;
    var sent := C2.DeliveredTo(w.replied, d);
    assert sent + [] == sent;
    if t.Respond? { C2.DeliveredAppend(w.replied, w.requests[t.c].device, w.requests[t.c].stage.cmds, d); }
  }

  lemma LeavingOwn(w: World, t: Step, d: DeviceId, k: Option<Call>)
    requires OnlyRequest(w, d, k) && InStep(w, d, k) && Enabled(w, t) && k.Some? && k == StepCall(t)
    requires OnlyRequest(Next(w, t), d, NextRequest(w, t, d, k))
    ensures t.Abort? ==> !w.requests[t.c].stage.Marked?
    ensures var cmds := if t.Mark? || t.Respond? then w.requests[t.c].stage.cmds else [];
            && Leaving(w, k) == (if t.Respond? then cmds else [])
            && Leaving(Next(w, t), NextRequest(w, t, d, k)) == (if t.Mark? then cmds else [])
  {
    hide PendingOf, Dispatched, Requested, ScannedInterval, ScannedId, Reply, Picked, Known, AckOf, AckRow, ProperName;
  }

  lemma AccountedStep(w: World, t: Step, d: DeviceId, k: Option<Call>)
    requires Inv(w, d, k) && Enabled(w, t) && Fair(w, t)
    requires OnlyRequest(Next(w, t), d, NextRequest(w, t, d, k))
    ensures Accounted(Next(w, t), d, NextRequest(w, t, d, k))
  {
    PicksStep(w, t, d, k);
    RepliedStep(w, t, d, k);
    var sent := C2.DeliveredTo(w.replied, d);
    assert sent + [] == sent && Picks(w.picks, d, true) + [] == Picks(w.picks, d, true);
    if k.Some? && k == StepCall(t) {
      LeavingOwn(w, t, d, k);
      ClearsOwn(w, t, d, k);
      hide Picks, Next, Enabled, Fair, OnlyRequest, InStep, Ordered, Tracks, C2.DeliveredTo, Leaving, Clears;
    } else if (t.Look? || t.Reset?) && t.d == d {
      hide Picks, PendingOf, C2.DeliveredTo, Ordered, Tracks;
    } else {
      OwnStep(w, t, d, k);
      OtherClears(w, t, d, k);
      SameRequest(t, d, k, w);
      hide Picks, Next, Enabled, Fair, OnlyRequest, InStep, Ordered, Tracks, C2.DeliveredTo, Clears;
    }
  }

  lemma ClearsOwn(w: World, t: Step, d: DeviceId, k: Option<Call>)
    requires OnlyRequest(w, d, k) && Enabled(w, t) && k.Some? && k == StepCall(t)
    ensures Clears(w, t, d) <==> t.Mark? && w.requests[t.c].stage.cmds != []
  {
  }

  lemma RangeStep(w: World, t: Step, d: DeviceId)
    requires InRange(IntervalOf(w, d)) && Enabled(w, t)
    ensures InRange(IntervalOf(Next(w, t), d))
  {
    hide PendingOf, Dispatched, Requested, ScannedId, Reply, Picked, Known, AckOf, AckRow, NumberBehind;
  }

  lemma StepKeepsInv(w: World, t: Step, d: DeviceId, k: Option<Call>)
    requires Sound(w) && Inv(w, d, k) && Enabled(w, t) && Fair(w, t)
    ensures Inv(Next(w, t), d, NextRequest(w, t, d, k))
  {
    OrderedStep(w, t, d, k);
    InStepStep(w, t, d, k);
    TracksStep(w, t, d, k);
    AccountedStep(w, t, d, k);
    RangeStep(w, t, d);
  }

  lemma {:induction false} RunKeepsInv(w: World, run: seq<Step>, d: DeviceId, k: Option<Call>)
    returns (k': Option<Call>)
    requires Sound(w) && Inv(w, d, k) && Possible(w, run) && FairRun(w, run)
    ensures Sound(After(w, run)) && Inv(After(w, run), d, k')
    decreases |run|
  {
    hide Sound, Inv, Next, Enabled, Fair;
    k' := k;
    if run != [] {
      StepSound(w, run[0]);
      StepKeepsInv(w, run[0], d, k);
      k' := RunKeepsInv(Next(w, run[0]), run[1..], d, NextRequest(w, run[0], d, k));
    }
  }

  lemma StartInv(d: DeviceId)
    ensures Sound(START) && Inv(START, d, None)
  {
    assert TracksAt(START, d, None, 0);
  }
}
