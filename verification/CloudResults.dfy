/**
 * What the runs of CloudRuns come to: when device and server agree, when the
 * stored interval is the last one queued, and what replies list.
 */
module CloudResults {
  import opened Basics
  import opened Commands
  import opened Scanner
  import opened Acknowledgement
  import opened Cloud
  import opened CloudRuns
  import opened CloudAcks
  import opened CloudInvariant
  import C2

  // ---------------------------------------------------------------------
  // After a reply has arrived
  // ---------------------------------------------------------------------

  /** An arrived reply sets the interval it carries, exactly when that is in range. */
  lemma ReplySets(r: Request, time: int, interval: uint32)
    requires r.stage.Marked?
    ensures ScannedInterval(interval, ReplyText(r, time)) == Adopted(interval, r.next)
  {
    hide Reply, ScannedInterval, ScannedClock, ScannedId;
    ScanOfReply(time, r.next, Listing(r.stage.cmds), 0, interval);
  }

  lemma RespondSets(w: World, c: Call, time: int)
    requires Enabled(w, Respond(c, time, true))
    ensures var d, n := w.requests[c].device, Next(w, Respond(c, time, true));
            n.devices == w.devices && n.picks == w.picks && n.rows == w.rows
            && IntervalOf(n, d) == Adopted(IntervalOf(w, d), w.requests[c].next)
  {
    hide ScannedInterval, ReplyText, Posted;
    ReplySets(w.requests[c], time, IntervalOf(w, w.requests[c].device));
  }

  /** Server and device agree after an arrived reply exactly if the stored interval is one the device adopts. */
  lemma AgreeIffInRange(run: seq<Step>, c: Call, time: int)
    requires Possible(START, run) && FairRun(START, run) && Enabled(After(START, run), Respond(c, time, true))
    ensures var d, n := After(START, run).requests[c].device, Next(After(START, run), Respond(c, time, true));
            && d in n.devices && n.devices[d] == Chosen(Picks(n.picks, d, true), FACTORY_INTERVAL)
            && (IntervalOf(n, d) == n.devices[d] <==> 1 <= n.devices[d] <= 86400)
  {
    hide After, Possible, FairRun, Next, Picks, Chosen, Sound, Ordered, Accounted;
    var w := After(START, run);
    var d := w.requests[c].device;
    StartInv(d);
    var k := RunKeepsInv(START, run, d, None);
    RespondSets(w, c, time);
    assert Picks(w.picks, d, true) + [] == Picks(w.picks, d, true);
  }

  lemma {:induction false} PicksInside(ps: seq<Pick>, d: DeviceId)
    ensures forall x | x in Picks(ps, d, true) :: x in Picks(ps, d, false)
    decreases |ps|
  {
    if ps != [] { PicksInside(ps[..|ps| - 1], d); }
  }

  /**
   * The next reply that arrives repairs everything, whatever was lost or
   * interleaved before it: as long as the CONFIG_UPDATEs in the log are in range,
   * the device then sleeps by the stored interval.
   */
  lemma Converges(run: seq<Step>, c: Call, time: int)
    requires Possible(START, run) && FairRun(START, run) && Enabled(After(START, run), Respond(c, time, true))
    requires AllInRange(Log(After(START, run).rows, After(START, run).requests[c].device))
    ensures var d, n := After(START, run).requests[c].device, Next(After(START, run), Respond(c, time, true));
            d in n.devices && IntervalOf(n, d) == n.devices[d] == Chosen(Picks(n.picks, d, true), FACTORY_INTERVAL)
  {
    hide After, Possible, FairRun, Next, Picks, Chosen, Sound, Log;
    AgreeIffInRange(run, c, time);
    var w := After(START, run);
    var d := w.requests[c].device;
    StartInv(d);
    var k := RunKeepsInv(START, run, d, None);
    RespondSets(w, c, time);
    PicksInside(w.picks, d);
    var listed, all := Picks(w.picks, d, true), Picks(w.picks, d, false);
    forall x | x in listed ensures x in Log(w.rows, d) { assert x in all; }
    ChosenInRange(listed, FACTORY_INTERVAL);
  }

  // ---------------------------------------------------------------------
  // Which interval is stored
  // ---------------------------------------------------------------------

  predicate Idle(w: World, d: DeviceId) { forall c | c in w.requests :: w.requests[c].device != d }

  /** The last CONFIG_UPDATE of d among the picks, or among the listed ones. */
  function LastAsk(ps: seq<Pick>, d: DeviceId, listed: bool): Option<Pick>
    decreases |ps|
  {
    if ps == [] then None
    else
      var p := ps[|ps| - 1];
      if p.device == d && (p.listed || !listed) && Requested(p.cmd).Some? then Some(p)
      else LastAsk(ps[..|ps| - 1], d, listed)
  }

  /** What it asks for, or the factory default without one. */
  function Asked(p: Option<Pick>): int {
    if p.Some? && Requested(p.value.cmd).Some? then Requested(p.value.cmd).value else FACTORY_INTERVAL
  }

  /** p is a CONFIG_UPDATE with a sleep_interval_sec that was listed to d. */
  predicate ListedAsk(p: Pick, d: DeviceId) {
    p.device == d && p.listed && p.cmd.action == "CONFIG_UPDATE" && p.cmd.sleep.Some?
  }

  predicate LastListed(ps: seq<Pick>, d: DeviceId, k: nat) {
    k < |ps| && ListedAsk(ps[k], d) && forall j | k < j < |ps| :: !ListedAsk(ps[j], d)
  }

  predicate NoneListed(ps: seq<Pick>, d: DeviceId) { forall j | 0 <= j < |ps| :: !ListedAsk(ps[j], d) }

  lemma {:induction false} AskedMeans(ps: seq<Pick>, d: DeviceId, k: nat)
    requires LastListed(ps, d, k)
    ensures TowardZero(ps[k].cmd.sleep.value, Asked(LastAsk(ps, d, true)))
    decreases |ps|
  {
    hide TowardZero, Asked, ListedAsk, LastAsk;
    LastAskSnoc(ps, d);
    var n := |ps| - 1;
    if k < n {
      assert forall j | 0 <= j < n :: ps[..n][j] == ps[j];
      AskedMeans(ps[..n], d, k);
    }
  }

  lemma {:induction false} NoneAsked(ps: seq<Pick>, d: DeviceId)
    requires NoneListed(ps, d)
    ensures Asked(LastAsk(ps, d, true)) == 15
    decreases |ps|
  {
    hide TowardZero, Asked, ListedAsk, LastAsk;
    LastAskSnoc(ps, d);
    if ps != [] {
      assert forall j | 0 <= j < |ps| - 1 :: ps[..|ps| - 1][j] == ps[j];
      NoneAsked(ps[..|ps| - 1], d);
    }
  }

  lemma LastAskSnoc(ps: seq<Pick>, d: DeviceId)
    ensures var n := |ps| - 1;
            if ps == [] then Asked(LastAsk(ps, d, true)) == 15
            else if ListedAsk(ps[n], d) then TowardZero(ps[n].cmd.sleep.value, Asked(LastAsk(ps, d, true)))
            else LastAsk(ps, d, true) == LastAsk(ps[..n], d, true)
  {
    if ps != [] { RequestedOf(ps[|ps| - 1].cmd); }
  }

  lemma NoneChosen(start: int)
    ensures Chosen([], start) == start
  {
  }

  lemma ChosenMore(cs: seq<Command>, c: Command, start: int)
    ensures Chosen(cs + [c], start) == if Requested(c).Some? then Requested(c).value else Chosen(cs, start)
  {
    assert (cs + [c])[..|cs|] == cs;
  }

  lemma {:induction false} LastAsked(ps: seq<Pick>, d: DeviceId, listed: bool)
    ensures Chosen(Picks(ps, d, listed), FACTORY_INTERVAL) == Asked(LastAsk(ps, d, listed))
    decreases |ps|
  {
    hide Requested, Chosen;
    if ps == [] {
      NoneChosen(FACTORY_INTERVAL);
    } else {
      var n := |ps| - 1;
      LastAsked(ps[..n], d, listed);
      var a := Picks(ps[..n], d, listed);
      assert a + [] == a;
      ChosenMore(a, ps[n].cmd, FACTORY_INTERVAL);
    }
  }

  /** When the last CONFIG_UPDATE is listed, it is the last listed one. */
  lemma {:induction false} ListedLast(ps: seq<Pick>, d: DeviceId)
    ensures LastAsk(ps, d, false).None? || LastAsk(ps, d, false).value.listed ==>
              LastAsk(ps, d, true) == LastAsk(ps, d, false)
    decreases |ps|
  {
    hide Requested;
    if ps != [] { ListedLast(ps[..|ps| - 1], d); }
  }

  /**
   * After every fair run, with no telemetry of d in flight and nothing pending
   * for it: the stored interval is that of the last CONFIG_UPDATE that was listed;
   * and it is that of the last one queued exactly if that one was not marked
   * unlisted, or asks for the same as the last listed one.
   */
  lemma StoredInterval(run: seq<Step>, d: DeviceId)
    requires Possible(START, run) && FairRun(START, run)
    requires Idle(After(START, run), d) && PendingOf(After(START, run).rows, d) == []
    ensures var w := After(START, run);
            var stored, last, listed :=
              Stored(w.devices, d, FACTORY_INTERVAL), LastAsk(w.picks, d, false), LastAsk(w.picks, d, true);
            && stored == Asked(listed)
            && (stored == Chosen(Log(w.rows, d), FACTORY_INTERVAL) <==>
                  last.None? || last.value.listed || Asked(last) == Asked(listed))
            && (forall k: nat | LastListed(w.picks, d, k) :: TowardZero(w.picks[k].cmd.sleep.value, stored))
            && (NoneListed(w.picks, d) ==> stored == 15)
  {
    hide NoneListed, TowardZero, After, Possible, FairRun, Picks, Chosen, Sound, Log, LastAsk, Requested, PendingOf,
      UniqueIds, Asked;
    var w := After(START, run);
    StartInv(d);
    var k := RunKeepsInv(START, run, d, None);
    assert k == None;
    assert Picks(w.picks, d, true) + [] == Picks(w.picks, d, true);
    assert Picks(w.picks, d, false) + [] == Picks(w.picks, d, false);
    LastAsked(w.picks, d, true);
    LastAsked(w.picks, d, false);
    ListedLast(w.picks, d);
    if NoneListed(w.picks, d) { NoneAsked(w.picks, d); }
    forall k: nat | LastListed(w.picks, d, k)
      ensures TowardZero(w.picks[k].cmd.sleep.value, Asked(LastAsk(w.picks, d, true)))
    {
      AskedMeans(w.picks, d, k);
    }
  }

  // ---------------------------------------------------------------------
  // Which commands are marked unlisted
  // ---------------------------------------------------------------------

  /** What a run queues for d. */
  function Inserted(w: World, run: seq<Step>, d: DeviceId): seq<Command>
    requires Possible(w, run)
    decreases |run|
  {
    if run == [] then [] else Added(w, run[0], d) + Inserted(Next(w, run[0]), run[1..], d)
  }

  /** Steps between the selection of request c and its mark. */
  predicate InWindow(run: seq<Step>, c: Call) {
    forall t | t in run :: t != Mark(c) && t != Abort(c)
  }

  lemma SelectedStep(w: World, t: Step, d: DeviceId, c: Call)
    requires Inv(w, d, Some(c)) && w.requests[c].stage.Selected?
    requires Enabled(w, t) && Fair(w, t) && t != Mark(c) && t != Abort(c)
    ensures c in Next(w, t).requests && Next(w, t).requests[c].stage.Selected?
    ensures Next(w, t).requests[c].stage.cmds == w.requests[c].stage.cmds && Next(w, t).requests[c].device == d
    ensures NextRequest(w, t, d, Some(c)) == Some(c)
    ensures !Clears(w, t, d)
  {
    RequestsStep(w, t);
    hide PendingOf, Dispatched, Requested, ScannedInterval, ReplyText, Posted, Picked, Known, AckOf, AckRow, ProperName,
      Ordered, InStep, Tracks, Accounted;
  }

  /** In a window the pending commands of d grow by what is inserted, and the selection stays. */
  lemma {:induction false} Window(w: World, run: seq<Step>, d: DeviceId, c: Call)
    requires Sound(w) && Inv(w, d, Some(c)) && w.requests[c].stage.Selected?
    requires Possible(w, run) && FairRun(w, run) && InWindow(run, c)
    ensures var n := After(w, run);
            && Sound(n) && Inv(n, d, Some(c)) && n.requests[c].stage.Selected?
            && n.requests[c].stage.cmds == w.requests[c].stage.cmds
            && PendingOf(n.rows, d) == PendingOf(w.rows, d) + Inserted(w, run, d)
    decreases |run|
  {
    hide Sound, Inv, Next, Enabled, Fair, Added, PendingOf;
    var pending := PendingOf(w.rows, d);
    if run == [] {
      assert pending + [] == pending;
    } else {
      var t := run[0];
      assert t in run && forall x | x in run[1..] :: x in run;
      WindowStep(w, t, d, c);
      var s, rest := Next(w, t), run[1..];
      Window(s, rest, d, c);
      assert pending + Added(w, t, d) + Inserted(s, rest, d) == pending + (Added(w, t, d) + Inserted(s, rest, d));
    }
  }

  lemma WindowStep(w: World, t: Step, d: DeviceId, c: Call)
    requires Sound(w) && Inv(w, d, Some(c)) && w.requests[c].stage.Selected?
    requires Enabled(w, t) && Fair(w, t) && t != Mark(c) && t != Abort(c)
    ensures var n := Next(w, t);
            && Sound(n) && Inv(n, d, Some(c)) && n.requests[c].stage.Selected?
            && n.requests[c].stage.cmds == w.requests[c].stage.cmds
            && PendingOf(n.rows, d) == PendingOf(w.rows, d) + Added(w, t, d)
  {
    hide Sound, Inv, Next, Enabled, Fair, Added, Clears, PendingOf, NextRequest;
    StepSound(w, t);
    StepKeepsInv(w, t, d, Some(c));
    SelectedStep(w, t, d, c);
    LogStep(w, t, d);
  }

  lemma SelectStep(w: World, d: DeviceId, c: Call)
    requires OnlyRequest(w, d, Some(c)) && Enabled(w, Select(c))
    ensures var s := Next(w, Select(c));
            && c in s.requests && s.requests[c].stage == Selected(PendingOf(w.rows, d), 0) && s.rows == w.rows
            && NextRequest(w, Select(c), d, Some(c)) == Some(c)
  {
    hide PendingOf;
  }

  /**
   * A telemetry lists what it selected, and marks with it - unlisted - exactly the
   * commands queued for the device between its SELECT and its UPDATE; if it
   * selected nothing it marks nothing.
   */
  lemma UnlistedIffInWindow(w: World, run: seq<Step>, d: DeviceId, c: Call)
    requires Sound(w) && Inv(w, d, Some(c)) && Enabled(w, Select(c))
    requires var s := Next(w, Select(c));
             Possible(s, run) && FairRun(s, run) && InWindow(run, c) && Enabled(After(s, run), Mark(c))
    ensures var s, cmds := Next(w, Select(c)), PendingOf(w.rows, d);
            var n := After(s, run);
            var added := Inserted(s, run, d);
            Next(n, Mark(c)).picks ==
            n.picks + if cmds == [] then [] else Tagged(d, cmds, true) + Tagged(d, added, false)
  {
    var s, cmds := Next(w, Select(c)), PendingOf(w.rows, d);
    StepSound(w, Select(c));
    StepKeepsInv(w, Select(c), d, Some(c));
    SelectStep(w, d, c);
    hide Next;
    Window(s, run, d, c);
    var n := After(s, run);
    var added := Inserted(s, run, d);
    PendingDistinct(n, d);
    MarkPicks(n, d, c, cmds, added);
  }

  lemma MarkPicks(n: World, d: DeviceId, c: Call, cmds: seq<Command>, added: seq<Command>)
    requires Enabled(n, Mark(c)) && n.requests[c].device == d && n.requests[c].stage.cmds == cmds
    requires PendingOf(n.rows, d) == cmds + added && Distinct(cmds + added)
    ensures Next(n, Mark(c)).picks ==
            n.picks + if cmds == [] then [] else Tagged(d, cmds, true) + Tagged(d, added, false)
  {
    hide PendingOf, Dispatched;
    if cmds != [] { PickedTags(d, cmds, added); } else { assert n.picks + [] == n.picks; }
  }

  // ---------------------------------------------------------------------
  // Calm: nothing asks for another interval
  // ---------------------------------------------------------------------

  /** No CONFIG_UPDATE for d is pending, and the device sleeps by the stored interval or cannot adopt it. */
  predicate Calm(w: World, d: DeviceId) {
    && d in w.devices && (IntervalOf(w, d) == w.devices[d] || !InRange(w.devices[d]))
    && forall x | x in PendingOf(w.rows, d) :: Requested(x).None?
  }

  predicate QuietStep(t: Step, d: DeviceId) {
    (t.Insert? && t.d == d ==> Requested(t.cmd).None?) && t != Reset(d)
  }

  predicate Quiet(run: seq<Step>, d: DeviceId) { forall t | t in run :: QuietStep(t, d) }

  /** The request of d itself changes neither the stored interval nor the one in use. */
  lemma OwnCalm(w: World, t: Step, d: DeviceId, k: Option<Call>)
    requires Inv(w, d, k) && Calm(w, d) && Enabled(w, t) && k.Some? && k == StepCall(t)
    ensures d in Next(w, t).devices && Next(w, t).devices[d] == w.devices[d]
    ensures IntervalOf(Next(w, t), d) == IntervalOf(w, d)
  {
    hide Dispatched, Requested, ScannedInterval, ReplyText, Posted, Picked, Ordered, Tracks, Accounted, PendingOf;
    match t
    case Write(c) =>
      var r := w.requests[c];
      assert r.stage.cmds[r.stage.written] == PendingOf(w.rows, d)[r.stage.written];
    case Respond(c, time, arrives) => if arrives { RespondSets(w, c, time); }
    case _ =>
  }

  lemma StepCalm(w: World, t: Step, d: DeviceId, k: Option<Call>)
    requires Sound(w) && Inv(w, d, k) && Calm(w, d) && Enabled(w, t) && Fair(w, t) && QuietStep(t, d)
    ensures Calm(Next(w, t), d)
    ensures Next(w, t).devices[d] == w.devices[d] && IntervalOf(Next(w, t), d) == IntervalOf(w, d)
  {
    LogStep(w, t, d);
    if k.Some? && k == StepCall(t) { OwnCalm(w, t, d, k); } else { OwnStep(w, t, d, k); }
    hide Sound, Inv, Next, PendingOf, Log, Known, Requested, Clears, Enabled, Fair;
  }

  /**
   * From then on - in every run without a new CONFIG_UPDATE for d or a reset of it, whichever
   * replies are lost and whatever else is queued - neither the stored interval
   * nor the one in use changes: agreement stays, and so does disagreement over
   * an interval out of range.
   */
  lemma {:induction false} CalmForever(w: World, run: seq<Step>, d: DeviceId, k: Option<Call>)
    requires Sound(w) && Inv(w, d, k) && Calm(w, d)
    requires Possible(w, run) && FairRun(w, run) && Quiet(run, d)
    ensures Calm(After(w, run), d)
    ensures After(w, run).devices[d] == w.devices[d] && IntervalOf(After(w, run), d) == IntervalOf(w, d)
    decreases |run|
  {
    hide Sound, Inv, Next, Enabled, Fair, QuietStep;
    if run != [] {
      assert run[0] in run;
      StepCalm(w, run[0], d, k);
      StepSound(w, run[0]);
      StepKeepsInv(w, run[0], d, k);
      DevicesStay(w, run[0], d);
      CalmForever(Next(w, run[0]), run[1..], d, NextRequest(w, run[0], d, k));
    }
  }

  lemma DevicesStay(w: World, t: Step, d: DeviceId)
    requires Enabled(w, t) && Calm(Next(w, t), d)
    ensures d in Next(w, t).devices
  {
    hide Next, Enabled;
  }

  /** An out-of-range CONFIG_UPDATE that was stored parts device and server for good. */
  lemma OutOfRangeForever(before: seq<Step>, d: DeviceId, after: seq<Step>)
    requires Possible(START, before) && FairRun(START, before)
    requires var w := After(START, before);
             && d in w.devices && !InRange(w.devices[d]) && (forall x | x in PendingOf(w.rows, d) :: Requested(x).None?)
             && Possible(w, after) && FairRun(w, after) && Quiet(after, d)
    ensures var w, n := After(START, before), After(After(START, before), after);
            && d in n.devices && n.devices[d] == w.devices[d] && IntervalOf(n, d) == IntervalOf(w, d) != n.devices[d]
  {
    hide After, Possible, FairRun, Sound, Quiet, Ordered, InStep, Tracks, Accounted, OnlyRequest, PendingOf;
    StartInv(d);
    var k := RunKeepsInv(START, before, d, None);
    CalmForever(After(START, before), after, d, k);
  }

  // ---------------------------------------------------------------------
  // What replies list
  // ---------------------------------------------------------------------

  lemma {:induction false} ListedDistinct(ps: seq<Pick>, d: DeviceId)
    requires DistinctIds(Picks(ps, d, false))
    ensures DistinctIds(Picks(ps, d, true))
    decreases |ps|
  {
    if ps != [] {
      var n := |ps| - 1;
      var (a, b) := (Picks(ps[..n], d, false), Picks(ps[..n], d, true));
      assert a <= Picks(ps, d, false);
      assert DistinctIds(a);
      ListedDistinct(ps[..n], d);
      PicksInside(ps[..n], d);
      if ps[n].device == d {
        forall x | x in b ensures x.id != ps[n].cmd.id {
          var i :| 0 <= i < |a| && a[i] == x;
          assert Picks(ps, d, false)[|a|] == ps[n].cmd;
        }
        forall i | 0 <= i < |b| ensures b[i].id != ps[n].cmd.id { assert b[i] in b; }
      }
    }
  }

  lemma {:induction false} AllListed(ps: seq<Pick>, d: DeviceId)
    requires forall p | p in ps && p.device == d :: p.listed
    ensures Picks(ps, d, true) == Picks(ps, d, false)
    decreases |ps|
  {
    if ps != [] { AllListed(ps[..|ps| - 1], d); }
  }

  /**
   * After every fair run: the commands that replies to d listed, whether they
   * arrived or not, are commands of its log in queue order and without repeats,
   * namely those picked up and listed; they are a prefix of the log if none was
   * marked unlisted.
   */
  lemma ListedOnceInOrder(run: seq<Step>, d: DeviceId)
    requires Possible(START, run) && FairRun(START, run)
    ensures var w := After(START, run);
            var sent := C2.DeliveredTo(w.replied, d);
            && sent <= Picks(w.picks, d, true) && Picks(w.picks, d, false) <= Log(w.rows, d)
            && DistinctIds(sent)
            && ((forall p | p in w.picks && p.device == d :: p.listed) ==> sent <= Log(w.rows, d))
  {
    hide After, Possible, FairRun, Picks, C2.DeliveredTo, Log, PendingOf, Sound, InStep, Tracks, OnlyRequest;
    StartInv(d);
    var k := RunKeepsInv(START, run, d, None);
    var w := After(START, run);
    var (sent, listed, all, log) :=
      (C2.DeliveredTo(w.replied, d), Picks(w.picks, d, true), Picks(w.picks, d, false), Log(w.rows, d));
    PendingDistinct(w, d);
    assert forall i | 0 <= i < |all| :: all[i] == log[i];
    ListedDistinct(w.picks, d);
    assert forall i | 0 <= i < |sent| :: sent[i] == listed[i];
    if forall p | p in w.picks && p.device == d :: p.listed { AllListed(w.picks, d); }
  }
}
