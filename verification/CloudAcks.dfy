/** What holds of all devices at once in the runs of CloudRuns: above all, which rows are acknowledged. */
module CloudAcks {
  import opened Basics
  import opened Commands
  import opened Scanner
  import opened Acknowledgement
  import opened Cloud
  import opened CloudRuns

  /** A row for x exists, and is no longer pending. */
  predicate Settled(rows: seq<Row>, d: DeviceId, x: Command) { Row(d, x, Sent) in rows || Row(d, x, Acked) in rows }

  predicate Held(rows: seq<Row>, d: DeviceId, x: Command) { Row(d, x, Pending) in rows || Settled(rows, d, x) }

  /** Requests hold only rows of their own device; once marked, none of them is pending. */
  predicate RequestOk(rows: seq<Row>, r: Request) {
    && ProperName(r.device)
    && (r.stage.Selected? ==> forall x | x in r.stage.cmds :: Held(rows, r.device, x))
    && (r.stage.Marked? ==> forall x | x in r.stage.cmds :: Settled(rows, r.device, x))
  }

  /** An acknowledgement names the first command of the reply it answers. */
  predicate PostOk(rows: seq<Row>, p: Post) {
    && ProperName(p.device) && p.cmds != []
    && p.body == AckBody(IdText(p.cmds[0].id), Name(p.device))
    && Settled(rows, p.device, p.cmds[0])
  }

  /** p acknowledges x: it has arrived, x comes first, and the id survives the JSON text. */
  predicate Confirms(p: Post, d: DeviceId, x: Command) {
    p.arrived && p.device == d && p.cmds != [] && p.cmds[0] == x && '\"' !in x.id && x.id != "" && x.id != "0"
  }

  predicate Confirmed(posts: seq<Post>, d: DeviceId, x: Command) {
    exists i :: 0 <= i < |posts| && Confirms(posts[i], d, x)
  }

  /** A row is ACKED exactly if some acknowledgement that arrived names it first. */
  predicate AckedRows(rows: seq<Row>, posts: seq<Post>) {
    forall r | r in rows :: r.status == Acked <==> Confirmed(posts, r.device, r.cmd)
  }

  predicate RequestsOk(w: World) { forall c | c in w.requests :: RequestOk(w.rows, w.requests[c]) }

  predicate PostsOk(w: World) { forall p | p in w.posts :: PostOk(w.rows, p) }

  predicate Sound(w: World) {
    UniqueIds(w.rows) && RequestsOk(w) && PostsOk(w) && AckedRows(w.rows, w.posts)
  }

  // ---------------------------------------------------------------------
  // Rows
  // ---------------------------------------------------------------------

  /** Rows stay where they are, and never become pending again. */
  predicate RowsKept(a: seq<Row>, b: seq<Row>) {
    && |a| <= |b|
    && forall i | 0 <= i < |a| ::
         b[i].device == a[i].device && b[i].cmd == a[i].cmd && (a[i].status != Pending ==> b[i].status != Pending)
  }

  lemma KeptAt(a: seq<Row>, b: seq<Row>, r: Row) returns (s: Row)
    requires RowsKept(a, b) && r in a
    ensures s in b && s.device == r.device && s.cmd == r.cmd && (r.status != Pending ==> s.status != Pending)
    ensures s.status == Pending || s == Row(r.device, r.cmd, Sent) || s == Row(r.device, r.cmd, Acked)
  {
    var i :| 0 <= i < |a| && a[i] == r;
    s := b[i];
  }

  lemma SettledKept(a: seq<Row>, b: seq<Row>, d: DeviceId, x: Command)
    requires RowsKept(a, b)
    ensures Settled(a, d, x) ==> Settled(b, d, x)
    ensures Held(a, d, x) ==> Held(b, d, x)
  {
    hide RowsKept;
    if Row(d, x, Sent) in a {
      var s := KeptAt(a, b, Row(d, x, Sent));
    } else if Row(d, x, Acked) in a {
      var s := KeptAt(a, b, Row(d, x, Acked));
    } else if Row(d, x, Pending) in a {
      var s := KeptAt(a, b, Row(d, x, Pending));
      assert s == Row(d, x, s.status);
    }
  }

  lemma StepRowsKept(w: World, t: Step)
    requires Enabled(w, t)
    ensures RowsKept(w.rows, Next(w, t).rows)
  {
    hide PendingOf, AckOf, ScannedId, ScannedInterval, Reply;
  }

  lemma RequestKept(a: seq<Row>, b: seq<Row>, r: Request)
    requires RowsKept(a, b) && RequestOk(a, r)
    ensures RequestOk(b, r)
  {
    hide RowsKept, ProperName;
    if r.stage.Selected? || r.stage.Marked? {
      forall x | x in r.stage.cmds ensures Settled(a, r.device, x) ==> Settled(b, r.device, x) {
        SettledKept(a, b, r.device, x);
      }
      forall x | x in r.stage.cmds ensures Held(a, r.device, x) ==> Held(b, r.device, x) {
        SettledKept(a, b, r.device, x);
      }
    }
  }

  /** Marking settles everything the request holds. */
  lemma MarkSettles(rows: seq<Row>, d: DeviceId, x: Command)
    requires Held(rows, d, x)
    ensures Settled(Dispatched(rows, d), d, x)
  {
    var now := Dispatched(rows, d);
    var s: Status :| Row(d, x, s) in rows;
    var i :| 0 <= i < |rows| && rows[i] == Row(d, x, s);
    assert now[i] in now;
  }

  lemma SelectHolds(rows: seq<Row>, d: DeviceId)
    ensures forall x | x in PendingOf(rows, d) :: Held(rows, d, x)
  {
    forall x | x in PendingOf(rows, d) ensures Held(rows, d, x) { PendingMember(rows, d, x); }
  }

  /** A request is as it was, or has just moved on. */
  lemma StepRequestsOk(w: World, t: Step)
    requires Sound(w) && Enabled(w, t) && Fair(w, t)
    ensures RequestsOk(Next(w, t))
  {
    StepRowsKept(w, t);
    var n := Next(w, t);
    forall c | c in n.requests ensures RequestOk(n.rows, n.requests[c]) {
      if c in w.requests && n.requests[c] == w.requests[c] {
        RequestKept(w.rows, n.rows, w.requests[c]);
      } else {
        StepOwnRequest(w, t, c);
      }
    }
  }

  lemma StepOwnRequest(w: World, t: Step, c: Call)
    requires RequestsOk(w) && Enabled(w, t) && Fair(w, t) && c in Next(w, t).requests
    requires c !in w.requests || Next(w, t).requests[c] != w.requests[c]
    ensures RequestOk(Next(w, t).rows, Next(w, t).requests[c])
  {
    hide PendingOf, Dispatched, ProperName, Requested, ScannedId, ScannedInterval, Reply, AckOf, Held, Settled, Picked;
    var n := Next(w, t);
    match t
    case Select(_) => SelectHolds(w.rows, w.requests[c].device);
    case Mark(_) =>
      var r := w.requests[c];
      forall x | x in r.stage.cmds ensures Settled(n.rows, r.device, x) { MarkSettles(w.rows, r.device, x); }
    case _ =>
  }

  // ---------------------------------------------------------------------
  // Acknowledgements
  // ---------------------------------------------------------------------

  lemma NameBack(d: DeviceId)
    ensures Ascii(Name(d)) == d
  {
  }

  /** A reply makes the device post one acknowledgement, for the first command listed, or none. */
  lemma PostOfReply(r: Request, time: int)
    requires r.stage.Marked?
    ensures var cmds := r.stage.cmds;
            Posted(r, ReplyText(r, time)) ==
            if cmds == [] || cmds[0].id == "" then []
            else [Post(r.device, cmds, AckBody(IdText(cmds[0].id), Name(r.device)), false)]
  {
    hide Reply, ScannedId, ScannedClock, ScannedInterval, AckBody, IdText;
    ScanOfReply(time, r.next, Listing(r.stage.cmds), 0, 0);
  }

  /** What the endpoint does with an acknowledgement: it touches the row of the first command, or nothing. */
  lemma AckHits(w: World, i: nat)
    requires i < |w.posts| && PostOk(w.rows, w.posts[i]) && UniqueIds(w.rows)
    ensures var p, x := w.posts[i], w.posts[i].cmds[0];
            && AfterAck(w, i).rows ==
               (if '\"' !in x.id && x.id != "" && x.id != "0" then AckRow(w.rows, p.device, x.id) else w.rows)
            && (forall r | r in w.rows && r.device == p.device && r.cmd.id == x.id :: r.cmd == x && r.status != Pending)
  {
    hide AckOf, AckBody, IdText, QuoteFree, Plain, AckRow, Ascii, Name;
    var p, x := w.posts[i], w.posts[i].cmds[0];
    AckIdentifies(x.id, Name(p.device));
    NameBack(p.device);
    OnlyRow(w.rows, p.device, x);
  }

  lemma OnlyRow(rows: seq<Row>, d: DeviceId, x: Command)
    requires UniqueIds(rows) && Settled(rows, d, x)
    ensures forall r | r in rows && r.cmd.id == x.id :: r.device == d && r.cmd == x && r.status != Pending
  {
    var s: Status :| s != Pending && Row(d, x, s) in rows;
    var i :| 0 <= i < |rows| && rows[i] == Row(d, x, s);
    forall r | r in rows && r.cmd.id == x.id ensures r == rows[i] {
      var j :| 0 <= j < |rows| && rows[j] == r;
    }
  }

  lemma StepPostsOk(w: World, t: Step)
    requires Sound(w) && Enabled(w, t)
    ensures PostsOk(Next(w, t))
  {
    hide UniqueIds, AckedRows, Picked, Requested, ScannedInterval, PendingOf, RowsKept, Reply, AckBody, IdText, AckOf;
    StepRowsKept(w, t);
    var n := Next(w, t);
    forall p | p in n.posts ensures PostOk(n.rows, p) {
      if p in w.posts {
        SettledKept(w.rows, n.rows, p.device, p.cmds[0]);
      } else if t.Respond? {
        PostOfReply(w.requests[t.c], t.time);
      } else {
        var q := w.posts[t.i];
        assert q in w.posts && p == q.(arrived := true);
        SettledKept(w.rows, n.rows, q.device, q.cmds[0]);
      }
    }
  }

  lemma AckedDispatch(rows: seq<Row>, posts: seq<Post>, d: DeviceId)
    requires AckedRows(rows, posts)
    ensures AckedRows(Dispatched(rows, d), posts)
  {
    hide Confirmed;
    var now := Dispatched(rows, d);
    forall r | r in now ensures r.status == Acked <==> Confirmed(posts, r.device, r.cmd) {
      var i :| 0 <= i < |now| && now[i] == r;
      assert rows[i] in rows;
    }
  }

  lemma ConfirmedKnown(rows: seq<Row>, posts: seq<Post>, d: DeviceId, x: Command)
    requires Confirmed(posts, d, x) && forall p | p in posts :: PostOk(rows, p)
    ensures Known(rows, x.id)
  {
    var i :| 0 <= i < |posts| && Confirms(posts[i], d, x);
    assert posts[i] in posts && Settled(rows, d, x);
    var s: Status :| Row(d, x, s) in rows;
  }

  lemma AckedInsert(rows: seq<Row>, posts: seq<Post>, d: DeviceId, cmd: Command)
    requires AckedRows(rows, posts) && !Known(rows, cmd.id) && forall p | p in posts :: PostOk(rows, p)
    ensures AckedRows(rows + [Row(d, cmd, Pending)], posts)
  {
    hide Confirmed, Known;
    if Confirmed(posts, d, cmd) { ConfirmedKnown(rows, posts, d, cmd); }
  }

  lemma ConfirmedMore(posts: seq<Post>, more: seq<Post>, d: DeviceId, x: Command)
    requires forall p | p in more :: !p.arrived
    ensures Confirmed(posts + more, d, x) <==> Confirmed(posts, d, x)
  {
    var all := posts + more;
    if i :| 0 <= i < |posts| && Confirms(posts[i], d, x) { assert all[i] == posts[i]; }
    if i :| 0 <= i < |all| && Confirms(all[i], d, x) {
      if i >= |posts| { assert all[i] in more; }
    }
  }

  lemma ConfirmedArrival(posts: seq<Post>, i: nat, d: DeviceId, x: Command)
    requires i < |posts|
    ensures var p := posts[i].(arrived := true);
            Confirmed(posts[i := p], d, x) <==> Confirmed(posts, d, x) || Confirms(p, d, x)
  {
    var p := posts[i].(arrived := true);
    var now := posts[i := p];
    if Confirms(p, d, x) { assert now[i] == p; }
    if j :| 0 <= j < |posts| && Confirms(posts[j], d, x) {
      assert j == i || now[j] == posts[j];
      assert Confirms(now[j], d, x);
    }
    if j :| 0 <= j < |now| && Confirms(now[j], d, x) { assert j == i || now[j] == posts[j]; }
  }

  lemma AckedArrival(w: World, i: nat)
    requires i < |w.posts| && Sound(w)
    ensures AckedRows(AfterAck(w, i).rows, AfterAck(w, i).posts)
  {
    hide RequestsOk, AckOf, AckBody, IdText, QuoteFree, Confirmed, ProperName;
    assert w.posts[i] in w.posts;
    AckHits(w, i);
    var n := AfterAck(w, i);
    var p, x := w.posts[i], w.posts[i].cmds[0];
    OnlyRow(w.rows, p.device, x);
    forall r | r in n.rows ensures r.status == Acked <==> Confirmed(n.posts, r.device, r.cmd) {
      var j :| 0 <= j < |n.rows| && n.rows[j] == r;
      assert w.rows[j] in w.rows;
      ConfirmedArrival(w.posts, i, r.device, r.cmd);
    }
  }

  lemma StepAckedRows(w: World, t: Step)
    requires Sound(w) && Enabled(w, t)
    ensures AckedRows(Next(w, t).rows, Next(w, t).posts)
  {
    hide Dispatched, Picked, Requested, ScannedInterval, PendingOf, Known, AckOf, AckRow, Reply, UniqueIds, RequestsOk;
    match t
    case Mark(c) => AckedDispatch(w.rows, w.posts, w.requests[c].device);
    case Insert(d, cmd) => if !Known(w.rows, cmd.id) { AckedInsert(w.rows, w.posts, d, cmd); }
    case Respond(c, time, arrives) =>
      if arrives {
        var more := Posted(w.requests[c], ReplyText(w.requests[c], time));
        forall r | r in w.rows ensures r.status == Acked <==> Confirmed(w.posts + more, r.device, r.cmd) {
          ConfirmedMore(w.posts, more, r.device, r.cmd);
        }
      }
    case AckArrives(i) => AckedArrival(w, i);
    case _ =>
  }

  lemma StepUnique(w: World, t: Step)
    requires UniqueIds(w.rows) && Enabled(w, t)
    ensures UniqueIds(Next(w, t).rows)
  {
    hide UniqueIds, PendingOf, Picked, Requested, ScannedInterval, ScannedId, AckOf, Reply;
    match t
    case Insert(d, cmd) => if !Known(w.rows, cmd.id) { UniqueAppend(w.rows, Row(d, cmd, Pending)); }
    case _ => UniqueKept(w.rows, Next(w, t).rows);
  }

  lemma StepSound(w: World, t: Step)
    requires Sound(w) && Enabled(w, t) && Fair(w, t)
    ensures Sound(Next(w, t))
  {
    StepUnique(w, t);
    StepRequestsOk(w, t);
    StepPostsOk(w, t);
    StepAckedRows(w, t);
  }

  lemma {:induction false} RunSound(w: World, run: seq<Step>)
    requires Sound(w) && Possible(w, run) && FairRun(w, run)
    ensures Sound(After(w, run))
    decreases |run|
  {
    hide Sound, Enabled, Next, Fair;
    if run != [] {
      StepSound(w, run[0]);
      RunSound(Next(w, run[0]), run[1..]);
    }
  }

  lemma StartSound()
    ensures Sound(START)
  {
  }

  /**
   * Over every run with any number of devices: a row is ACKED exactly if an
   * acknowledgement has arrived from a device whose reply listed that command
   * first, and its id holds no quote and is not empty in PHP's sense.
   */
  lemma AckedExactly(run: seq<Step>, r: Row)
    requires Possible(START, run) && FairRun(START, run) && r in After(START, run).rows
    ensures r.status == Acked <==> Confirmed(After(START, run).posts, r.device, r.cmd)
  {
    hide Confirmed, After, Possible, FairRun, RequestsOk, PostsOk, UniqueIds;
    StartSound();
    RunSound(START, run);
  }
}
