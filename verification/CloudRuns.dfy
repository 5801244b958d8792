/**
 * The PHP endpoint under overlapping requests: every SQL statement of a
 * telemetry request is a step of its own, commands are queued and acknowledged
 * between them, replies reach the device as printed text or are lost, and the
 * device's acknowledgements travel as the JSON text it posts.
 */
module CloudRuns {
  import opened Basics
  import opened Commands
  import opened Scanner
  import opened Acknowledgement
  import opened Cloud
  import C2

  // ---------------------------------------------------------------------
  // The state machine
  // ---------------------------------------------------------------------

  const FACTORY_INTERVAL: uint32 := 15

  type Call = nat

  /** How far a telemetry request has come. */
  datatype Stage =
    | Looked(found: bool)                            // SELECT ... FROM devices
    | Registered                                     // INSERT INTO or UPDATE devices
    | Selected(cmds: seq<Command>, written: nat)     // SELECT ... FROM commands, some of them processed
    | Marked(cmds: seq<Command>)                     // UPDATE commands SET status = 'DELIVERED'

  /** reported is the device's own interval, next the one the reply will carry. */
  datatype Request = Request(device: DeviceId, reported: int, next: int, stage: Stage)

  /** A command as it left PENDING: listed in the reply of the request that marked it, or not. */
  datatype Pick = Pick(device: DeviceId, cmd: Command, listed: bool)

  /** An acknowledgement a device posted after a reply that listed `cmds`. */
  datatype Post = Post(device: DeviceId, cmds: seq<Command>, body: string, arrived: bool)

  type Intervals = map<DeviceId, uint32>

  /**
   * The tables, the requests in flight, the intervals devices sleep by, and accounts of what was picked up,
   * replied and posted.
   */
  datatype World = World(devices: Devices, rows: seq<Row>, requests: map<Call, Request>, intervals: Intervals,
                         picks: seq<Pick>, replied: seq<C2.Delivery>, posts: seq<Post>)

  const START: World := World(map[], [], map[], map[], [], [], [])

  datatype Step =
    | Look(c: Call, d: DeviceId)                     // a device posts its telemetry
    | Register(c: Call)
    | Select(c: Call)
    | Write(c: Call)                                 // one round of the foreach
    | Mark(c: Call)
    | Respond(c: Call, time: int, arrives: bool)     // the reply leaves, and reaches the device or not
    | Insert(d: DeviceId, cmd: Command)              // POST commands
    | AckArrives(i: nat)                             // POST commands/ack
    | Abort(c: Call)                                 // the next SQL statement throws; the catch ends the request
    | Reset(d: DeviceId)                             // power-on: the RTC interval is back at its initial value

  function IntervalOf(w: World, d: DeviceId): uint32 { if d in w.intervals then w.intervals[d] else FACTORY_INTERVAL }

  /** The device's name as text. */
  function Name(d: DeviceId): string { seq(|d|, i requires 0 <= i < |d| => d[i] as char) }

  function Listing(cs: seq<Command>): seq<Listed> {
    seq(|cs|, i requires 0 <= i < |cs| => Listed(cs[i].id, cs[i].action, cs[i].params))
  }

  /** All of `pending` leaves PENDING; `cmds` is what the reply lists. */
  function Picked(d: DeviceId, pending: seq<Command>, cmds: seq<Command>): (ps: seq<Pick>)
    ensures |ps| == |pending| && forall i | 0 <= i < |ps| :: ps[i] == Pick(d, pending[i], pending[i] in cmds)
  {
    seq(|pending|, i requires 0 <= i < |pending| => Pick(d, pending[i], pending[i] in cmds))
  }

  predicate Enabled(w: World, t: Step) {
    match t
    case Look(c, _) => c !in w.requests
    case Register(c) => c in w.requests && w.requests[c].stage.Looked?
    case Select(c) => c in w.requests && w.requests[c].stage.Registered?
    case Write(c) =>
      c in w.requests && w.requests[c].stage.Selected? && w.requests[c].stage.written < |w.requests[c].stage.cmds|
    case Mark(c) =>
      c in w.requests && w.requests[c].stage.Selected? && w.requests[c].stage.written == |w.requests[c].stage.cmds|
    case Respond(c, _, _) => c in w.requests && w.requests[c].stage.Marked?
    case Insert(_, _) => true
    case AckArrives(i) => i < |w.posts|
    case Abort(c) => c in w.requests && !w.requests[c].stage.Marked?
    case Reset(_) => true
  }

  /** INSERT INTO devices fails if another request got there first, and ends this one. */
  function AfterRegister(w: World, c: Call): World
    requires Enabled(w, Register(c))
  {
    var r := w.requests[c];
    var registered := w.(requests := w.requests[c := r.(stage := Registered)]);
    if r.stage.found then registered
    else if r.device in w.devices then w.(requests := w.requests - {c})
    else registered.(devices := w.devices[r.device := r.reported])
  }

  function AfterWrite(w: World, c: Call): World
    requires Enabled(w, Write(c))
  {
    var r := w.requests[c];
    var u := Requested(r.stage.cmds[r.stage.written]);
    var moved := r.(stage := Selected(r.stage.cmds, r.stage.written + 1));
    if u.None? then w.(requests := w.requests[c := moved])
    else w.(devices := w.devices[r.device := u.value], requests := w.requests[c := moved.(next := u.value)])
  }

  function AfterMark(w: World, c: Call): World
    requires Enabled(w, Mark(c))
  {
    var r := w.requests[c];
    var moved := w.(requests := w.requests[c := r.(stage := Marked(r.stage.cmds))]);
    if r.stage.cmds == [] then moved
    else moved.(rows := Dispatched(w.rows, r.device),
                picks := w.picks + Picked(r.device, PendingOf(w.rows, r.device), r.stage.cmds))
  }

  function ReplyText(r: Request, time: int): string
    requires r.stage.Marked?
  {
    Reply(time, r.next, Listing(r.stage.cmds))
  }

  /** It lists id, action and parameters of each command, in order. */
  lemma ReplyTextLists(r: Request, time: int)
    requires r.stage.Marked?
    ensures var cs := r.stage.cmds;
            exists ls: seq<Listed> ::
              && ReplyText(r, time) == Reply(time, r.next, ls) && |ls| == |cs|
              && forall i | 0 <= i < |cs| ::
                   ls[i].id == cs[i].id && ls[i].action == cs[i].action && ls[i].params == cs[i].params
  {
    hide Reply;
    var ls := Listing(r.stage.cmds);
    assert ReplyText(r, time) == Reply(time, r.next, ls);
  }

  function AfterRespond(w: World, c: Call, time: int, arrives: bool): World
    requires Enabled(w, Respond(c, time, arrives))
  {
    var r := w.requests[c];
    var resp := ReplyText(r, time);
    var gone := w.(requests := w.requests - {c}, replied := w.replied + C2.Deliveries(r.device, r.stage.cmds));
    if !arrives then gone
    else gone.(intervals := w.intervals[r.device := ScannedInterval(IntervalOf(w, r.device), resp)],
               posts := w.posts + Posted(r, resp))
  }

  /** What the device posts after that reply. */
  function Posted(r: Request, resp: string): seq<Post>
    requires r.stage.Marked?
  {
    if ScannedId(resp).None? then []
    else [Post(r.device, r.stage.cmds, AckBody(ScannedId(resp).value, Name(r.device)), false)]
  }

  function AfterAck(w: World, i: nat): World
    requires Enabled(w, AckArrives(i))
  {
    var a := AckOf(w.posts[i].body);
    var seen := w.(posts := w.posts[i := w.posts[i].(arrived := true)]);
    if a.None? then seen else seen.(rows := AckRow(w.rows, Ascii(a.value.0), a.value.1))
  }

  function Next(w: World, t: Step): World
    requires Enabled(w, t)
  {
    match t
    case Look(c, d) =>
      var reported := IntervalOf(w, d);
      w.(requests := w.requests[c := Request(d, reported, Offered(w.devices, d, reported), Looked(d in w.devices))])
    case Register(c) => AfterRegister(w, c)
    case Select(c) =>
      var r := w.requests[c];
      w.(requests := w.requests[c := r.(stage := Selected(PendingOf(w.rows, r.device), 0))])
    case Write(c) => AfterWrite(w, c)
    case Mark(c) => AfterMark(w, c)
    case Respond(c, time, arrives) => AfterRespond(w, c, time, arrives)
    case Insert(d, cmd) => if Known(w.rows, cmd.id) then w else w.(rows := w.rows + [Row(d, cmd, Pending)])
    case AckArrives(i) => AfterAck(w, i)
    case Abort(c) => w.(requests := w.requests - {c})
    case Reset(d) => w.(intervals := w.intervals[d := FACTORY_INTERVAL])
  }

  /** Device names are compile-time constants without special characters. */
  predicate ProperName(d: DeviceId) { Plain(Name(d)) && !Empty(Name(d)) }

  /**
   * A device has one telemetry in flight, and a proper name. A reset during it is
   * counted behind it: the reply is lost either way, and nothing else of the
   * device changes in between.
   */
  predicate Fair(w: World, t: Step) {
    && (t.Look? ==> ProperName(t.d))
    && (t.Look? || t.Reset? ==> forall c | c in w.requests :: w.requests[c].device != t.d)
  }

  predicate Possible(w: World, run: seq<Step>)
    decreases |run|
  {
    run != [] ==> Enabled(w, run[0]) && Possible(Next(w, run[0]), run[1..])
  }

  function After(w: World, run: seq<Step>): World
    requires Possible(w, run)
    decreases |run|
  {
    if run == [] then w else After(Next(w, run[0]), run[1..])
  }

  predicate FairRun(w: World, run: seq<Step>)
    requires Possible(w, run)
    decreases |run|
  {
    run != [] ==> Fair(w, run[0]) && FairRun(Next(w, run[0]), run[1..])
  }

  // ---------------------------------------------------------------------
  // What was picked up
  // ---------------------------------------------------------------------

  /** The commands of d that left PENDING, in order; without the unlisted ones if `listed`. */
  function Picks(ps: seq<Pick>, d: DeviceId, listed: bool): seq<Command>
    decreases |ps|
  {
    if ps == [] then []
    else
      var p := ps[|ps| - 1];
      Picks(ps[..|ps| - 1], d, listed) + (if p.device == d && (p.listed || !listed) then [p.cmd] else [])
  }

  lemma {:induction false} PicksConcat(a: seq<Pick>, b: seq<Pick>, d: DeviceId, listed: bool)
    ensures Picks(a + b, d, listed) == Picks(a, d, listed) + Picks(b, d, listed)
    decreases |b|
  {
    if b == [] {
      assert a + b == a;
    } else {
      assert (a + b)[..|a + b| - 1] == a + b[..|b| - 1];
      PicksConcat(a, b[..|b| - 1], d, listed);
    }
  }

  predicate Distinct(cs: seq<Command>) { forall i, j | 0 <= i < j < |cs| :: cs[i] != cs[j] }

  function Tagged(e: DeviceId, cs: seq<Command>, listed: bool): (ps: seq<Pick>)
    ensures |ps| == |cs| && forall i | 0 <= i < |ps| :: ps[i] == Pick(e, cs[i], listed)
  {
    seq(|cs|, i requires 0 <= i < |cs| => Pick(e, cs[i], listed))
  }

  lemma {:induction false} PicksTagged(e: DeviceId, cs: seq<Command>, tag: bool, d: DeviceId, listed: bool)
    ensures Picks(Tagged(e, cs, tag), d, listed) == if e == d && (tag || !listed) then cs else []
    decreases |cs|
  {
    hide Picks, Tagged;
    if cs == [] {
      NoPicks(Tagged(e, cs, tag), d, listed);
    } else {
      var n := |cs| - 1;
      var front, last := cs[..n], cs[n];
      assert cs == front + [last];
      PicksTagged(e, front, tag, d, listed);
      TaggedSnoc(e, front, last, tag);
      PicksSnoc(Tagged(e, front, tag), Pick(e, last, tag), d, listed);
    }
  }

  lemma NoPicks(ps: seq<Pick>, d: DeviceId, listed: bool)
    requires ps == []
    ensures Picks(ps, d, listed) == []
  {
  }

  lemma TaggedSnoc(e: DeviceId, cs: seq<Command>, c: Command, tag: bool)
    ensures Tagged(e, cs + [c], tag) == Tagged(e, cs, tag) + [Pick(e, c, tag)]
  {
  }

  lemma PicksSnoc(ps: seq<Pick>, p: Pick, d: DeviceId, listed: bool)
    ensures Picks(ps + [p], d, listed) ==
            Picks(ps, d, listed) + (if p.device == d && (p.listed || !listed) then [p.cmd] else [])
  {
    assert (ps + [p])[..|ps|] == ps;
  }

  /** Marking tags what was selected as listed, and what came behind it as not. */
  lemma PickedTags(e: DeviceId, cmds: seq<Command>, more: seq<Command>)
    requires Distinct(cmds + more)
    ensures Picked(e, cmds + more, cmds) == Tagged(e, cmds, true) + Tagged(e, more, false)
  {
    var all := cmds + more;
    forall i | |cmds| <= i < |all| ensures all[i] !in cmds {
      assert forall j | 0 <= j < |cmds| :: cmds[j] == all[j] != all[i];
    }
  }

  /** Marking picks up everything pending, and lists exactly what was selected. */
  lemma PicksOfMark(e: DeviceId, pending: seq<Command>, cmds: seq<Command>, d: DeviceId)
    requires cmds <= pending && Distinct(pending)
    ensures Picks(Picked(e, pending, cmds), d, false) == (if e == d then pending else [])
    ensures Picks(Picked(e, pending, cmds), d, true) == if e == d then cmds else []
  {
    hide Picks, Distinct;
    var more := pending[|cmds|..];
    assert pending == cmds + more;
    PickedTags(e, cmds, more);
    PicksTagged(e, cmds, true, d, false);
    PicksTagged(e, cmds, true, d, true);
    PicksTagged(e, more, false, d, false);
    PicksTagged(e, more, false, d, true);
    PicksConcat(Tagged(e, cmds, true), Tagged(e, more, false), d, false);
    PicksConcat(Tagged(e, cmds, true), Tagged(e, more, false), d, true);
  }

  // ---------------------------------------------------------------------
  // The view of one device
  // ---------------------------------------------------------------------

  /** k is the one request of d in flight, or there is none. */
  predicate OnlyRequest(w: World, d: DeviceId, k: Option<Call>) {
    && (forall c | c in w.requests && w.requests[c].device == d :: k == Some(c))
    && (k.Some? ==> k.value in w.requests && w.requests[k.value].device == d)
  }

  function NextRequest(w: World, t: Step, d: DeviceId, k: Option<Call>): Option<Call> {
    match t
    case Look(c, e) => if e == d then Some(c) else k
    case Respond(c, _, _) => if k == Some(c) then None else k
    case Abort(c) => if k == Some(c) then None else k
    case _ => k
  }

  /** The log of d is what was picked up, then what is pending. */
  predicate Ordered(w: World, d: DeviceId) {
    UniqueIds(w.rows) && Log(w.rows, d) == Picks(w.picks, d, false) + PendingOf(w.rows, d)
  }

  /** The reply carries the stored interval, or, when that is not positive, the device's own. */
  predicate Carries(w: World, r: Request) {
    r.device in w.devices &&
    (r.next == w.devices[r.device] || (w.devices[r.device] <= 0 && r.next == r.reported))
  }

  /** The request of d in flight agrees with the tables. */
  predicate InStep(w: World, d: DeviceId, k: Option<Call>)
    requires OnlyRequest(w, d, k)
  {
    k.Some? ==>
      var r := w.requests[k.value];
      && r.reported == IntervalOf(w, d)
      && match r.stage
         case Looked(found) => found == (d in w.devices) && r.next == Offered(w.devices, d, r.reported)
         case Registered => Carries(w, r)
         case Selected(cmds, written) => Carries(w, r) && written <= |cmds| && cmds <= PendingOf(w.rows, d)
         case Marked(_) => Carries(w, r)
  }

  /**
   * How many pending commands may have been processed: in a selection at least
   * those of this round, and earlier rounds that were aborted may have gone further.
   */
  predicate Processed(w: World, d: DeviceId, k: Option<Call>, m: nat)
    requires k.Some? ==> k.value in w.requests
  {
    && m <= |PendingOf(w.rows, d)|
    && (k.Some? ==>
          match w.requests[k.value].stage
          case Selected(cmds, written) => written <= m <= |cmds|
          case Marked(_) => m == 0
          case _ => true)
  }

  /**
   * The stored interval is the last CONFIG_UPDATE among those listed and the first m pending, or the factory
   * default.
   */
  predicate TracksAt(w: World, d: DeviceId, k: Option<Call>, m: nat)
    requires k.Some? ==> k.value in w.requests
  {
    && Processed(w, d, k, m)
    && Stored(w.devices, d, FACTORY_INTERVAL) ==
       Chosen(Picks(w.picks, d, true) + PendingOf(w.rows, d)[..m], FACTORY_INTERVAL)
  }

  /** Marked commands whose reply has not left. */
  function Leaving(w: World, k: Option<Call>): seq<Command>
    requires k.Some? ==> k.value in w.requests
  {
    if k.Some? && w.requests[k.value].stage.Marked? then w.requests[k.value].stage.cmds else []
  }

  ghost predicate Tracks(w: World, d: DeviceId, k: Option<Call>)
    requires k.Some? ==> k.value in w.requests
  {
    && (exists m :: TracksAt(w, d, k, m))
    && (d !in w.devices ==> IntervalOf(w, d) == FACTORY_INTERVAL)
  }

  /** What replies carried, and the one about to leave, is what was listed. */
  predicate Accounted(w: World, d: DeviceId, k: Option<Call>)
    requires k.Some? ==> k.value in w.requests
  {
    C2.DeliveredTo(w.replied, d) + Leaving(w, k) == Picks(w.picks, d, true)
  }

  ghost predicate Inv(w: World, d: DeviceId, k: Option<Call>) {
    && Ordered(w, d)
    && OnlyRequest(w, d, k) && InStep(w, d, k)
    && Tracks(w, d, k) && Accounted(w, d, k)
    && InRange(IntervalOf(w, d))
  }
}
