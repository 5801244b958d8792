/**
 * The wake cycle of app_state_machine.c: measure, connect, flush the offline
 * buffer, send the live record or buffer it. The body of case STATE_BOOT is
 * one cycle; runs repeat it on the ring it leaves behind.
 */
module WakeCycle {
  import opened Basics
  import opened BoundedFifo
  import opened Rings

  /** What became of one POST: answered 200, landed with its reply lost, or never landed. */
  datatype Tx = Confirmed | ReplyLost | NotSent

  /** One wake-up: the measured values, whether the network came up, and the fate of its k-th POST. */
  datatype Input = Input(reading: Telemetry, online: bool, tx: nat -> Tx)

  /**
   * The edge and a full account of what happened to its records: issued by the
   * measurement, confirmed to the device, landed at the server, evicted by the ring.
   */
  datatype Edge = Edge(buffer: seq<Telemetry>, seqNo: uint32, issued: seq<Telemetry>,
                       confirmed: seq<Telemetry>, landed: seq<Telemetry>, evicted: seq<Telemetry>, lostReplies: nat)

  const START: Edge := Edge([], 1, [], [], [], [], 0)

  function DeviceName(): (s: CString) {
    assert forall c | c in Ascii("DEV-ESP32-001") :: c != 0;
    Ascii("DEV-ESP32-001")
  }

  function FirmwareName(): (s: CString) { assert forall c | c in Ascii("1.0.0") :: c != 0; Ascii("1.0.0") }
  function StateLabel(): (s: CString) { assert forall c | c in Ascii("NORMAL") :: c != 0; Ascii("NORMAL") }

  /** The record measured in this cycle. */
  function Measured(reading: Telemetry, seqNo: uint32): Telemetry {
    reading.(deviceId := Some(DeviceName()), firmware := Some(FirmwareName()), state := Some(StateLabel()),
        seqNo := seqNo)
  }

  /** How many records the flush delivers before it is interrupted or done. */
  function Flushed(q: seq<Telemetry>, tx: nat -> Tx, k: nat): (n: nat)
    ensures n <= |q|
    decreases |q|
  {
    if q == [] || tx(k) != Confirmed then 0 else 1 + Flushed(q[1..], tx, k + 1)
  }

  function Buffered(e: Edge, d: Telemetry): Edge {
    e.(buffer := Push(CAPACITY, e.buffer, d),
       evicted := e.evicted + (if |e.buffer| < CAPACITY then [] else [e.buffer[0]]))
  }

  /** The edge after a POST of d that had the outcome t. */
  function Posted(e: Edge, d: Telemetry, t: Tx): Edge {
    match t
    case Confirmed => e.(confirmed := e.confirmed + [d], landed := e.landed + [d])
    case ReplyLost => e.(landed := e.landed + [d], lostReplies := e.lostReplies + 1)
    case NotSent => e
  }

  function FlushedEdge(e: Edge, tx: nat -> Tx): Edge {
    var n := Flushed(e.buffer, tx, 0);
    var f := e.(buffer := e.buffer[n..], confirmed := e.confirmed + e.buffer[..n], landed := e.landed + e.buffer[..n]);
    if n == |e.buffer| then f else Posted(f, e.buffer[n], tx(n))
  }

  /** The number of POSTs the flush made; the live record is the next one. */
  function FlushPosts(e: Edge, tx: nat -> Tx): nat {
    var n := Flushed(e.buffer, tx, 0);
    if n == |e.buffer| then n else n + 1
  }

  function Cycle(e: Edge, i: Input): Edge {
    var d := Measured(i.reading, e.seqNo);
    var m := e.(seqNo := (e.seqNo + 1) % TWO_32, issued := e.issued + [d]);
    if !i.online then Buffered(m, d)
    else
      var f := FlushedEdge(m, i.tx);
      var t := i.tx(FlushPosts(m, i.tx));
      var p := Posted(f, d, t);
      if t == Confirmed then p else Buffered(p, d)
  }

  function Run(e: Edge, inputs: seq<Input>): Edge
    decreases |inputs|
  {
    if inputs == [] then e else Run(Cycle(e, inputs[0]), inputs[1..])
  }

  // ---------------------------------------------------------------------
  // Conservation
  // ---------------------------------------------------------------------

  /** Every record issued is in exactly one place, counted with multiplicity; every confirmed record has landed. */
  ghost predicate Conserved(e: Edge) {
    && |e.buffer| <= CAPACITY
    && multiset(e.issued) == multiset(e.confirmed) + multiset(e.buffer) + multiset(e.evicted)
    && multiset(e.confirmed) <= multiset(e.landed)
    && |e.landed| == |e.confirmed| + e.lostReplies
    && (forall d | d in e.landed :: d in e.issued)
  }

  /** An interrupted flush ends with a POST that was not confirmed. */
  lemma {:induction false} FlushStops(q: seq<Telemetry>, tx: nat -> Tx, k: nat)
    ensures Flushed(q, tx, k) < |q| ==> tx(k + Flushed(q, tx, k)) != Confirmed
    decreases |q|
  {
    if q != [] && tx(k) == Confirmed { FlushStops(q[1..], tx, k + 1); }
  }

  function FlushCount(e: Edge, i: Input): (n: nat)
    ensures n <= |e.buffer|
  {
    if i.online then Flushed(e.buffer, i.tx, 0) else 0
  }

  predicate LiveConfirmed(e: Edge, i: Input) { i.online && i.tx(FlushPosts(e, i.tx)) == Confirmed }

  /** Records that land without the device learning of it: the one that stops the flush, and the live one. */
  function LostInFlush(e: Edge, i: Input): seq<Telemetry> {
    var n := FlushCount(e, i);
    if i.online && n < |e.buffer| && i.tx(n) == ReplyLost then [e.buffer[n]] else []
  }

  function LiveLanded(e: Edge, i: Input): seq<Telemetry> {
    if i.online && i.tx(FlushPosts(e, i.tx)) != NotSent then [Measured(i.reading, e.seqNo)] else []
  }

  lemma FlushFacts(e: Edge, i: Input)
    requires i.online
    ensures var f := FlushedEdge(e, i.tx);
            var n := FlushCount(e, i);
            && f.buffer == e.buffer[n..] && f.confirmed == e.confirmed + e.buffer[..n]
            && f.evicted == e.evicted && f.issued == e.issued && f.seqNo == e.seqNo
            && f.landed == e.landed + e.buffer[..n] + LostInFlush(e, i)
            && f.lostReplies == e.lostReplies + |LostInFlush(e, i)|
  {
    FlushStops(e.buffer, i.tx, 0);
  }

  /** One cycle, as it moves records: n are flushed, q stay behind, the live one is confirmed or buffered. */
  lemma CycleFacts(e: Edge, i: Input)
    requires |e.buffer| <= CAPACITY
    ensures var c := Cycle(e, i);
            var d := Measured(i.reading, e.seqNo);
            var n := FlushCount(e, i);
            var q := e.buffer[n..];
            && c.seqNo == (e.seqNo + 1) % TWO_32
            && c.issued == e.issued + [d]
            && c.confirmed == e.confirmed + e.buffer[..n] + (if LiveConfirmed(e, i) then [d] else [])
            && c.evicted + c.buffer == e.evicted + q + (if LiveConfirmed(e, i) then [] else [d])
            && c.buffer == (if LiveConfirmed(e, i) then q else Push(CAPACITY, q, d))
  {
    var d := Measured(i.reading, e.seqNo);
    var m := e.(seqNo := (e.seqNo + 1) % TWO_32, issued := e.issued + [d]);
    hide Measured, FlushedEdge, FlushPosts, Flushed, LostInFlush, Buffered, Push;
    SameFlush(e, m, i);
    if i.online {
      FlushFacts(m, i);
      var p := Posted(FlushedEdge(m, i.tx), d, i.tx(FlushPosts(m, i.tx)));
      BufferedFacts(p, d);
    } else {
      BufferedFacts(m, d);
      assert e.buffer[0..] == e.buffer && e.buffer[..0] == [];
    }
  }

  /** n is the number of leading POSTs of buffered records that are confirmed: the flush delivers just these. */
  predicate Delivers(q: seq<Telemetry>, tx: nat -> Tx, n: nat) {
    n <= |q| && (forall j: nat | j < n :: tx(j) == Confirmed) && (n < |q| ==> tx(n) != Confirmed)
  }

  lemma {:induction false} FlushedAre(q: seq<Telemetry>, tx: nat -> Tx, k: nat, n: nat)
    requires n <= |q| && (forall j: nat | k <= j < k + n :: tx(j) == Confirmed) && (n < |q| ==> tx(k + n) != Confirmed)
    ensures Flushed(q, tx, k) == n
    decreases |q|
  {
    if n > 0 { FlushedAre(q[1..], tx, k + 1, n - 1); }
  }

  /** There is always such a number. */
  lemma {:induction false} SomeDelivers(q: seq<Telemetry>, tx: nat -> Tx, k: nat)
    requires k <= |q| && forall j: nat | j < k :: tx(j) == Confirmed
    ensures exists n: nat :: Delivers(q, tx, n)
    decreases |q| - k
  {
    if k < |q| && tx(k) == Confirmed { SomeDelivers(q, tx, k + 1); } else { assert Delivers(q, tx, k); }
  }

  /**
   * What a cycle does, from the fates of its POSTs alone. Online it flushes the n oldest records, then
   * sends the live one with the next POST, behind the one that interrupted the flush if there was one;
   * unless that was confirmed the record joins the buffer, which is then full if anything was evicted.
   */
  lemma CycleMeans(e: Edge, i: Input, n: nat)
    requires |e.buffer| <= 32 && Delivers(e.buffer, i.tx, n)
    ensures var c, live := Cycle(e, i), if n == |e.buffer| then n else n + 1;
            && |c.issued| == |e.issued| + 1 && c.issued[..|e.issued|] == e.issued
            && IssuedAs(c.issued[|e.issued|], i.reading, e.seqNo)
            && c.seqNo == (e.seqNo + 1) % 0x1_0000_0000
            && (|c.evicted| > |e.evicted| ==> |c.buffer| == 32) && e.evicted <= c.evicted
            && var d := [c.issued[|e.issued|]];
               if !i.online then c.confirmed == e.confirmed && c.landed == e.landed &&
                   c.evicted + c.buffer == e.evicted + e.buffer + d
               else if i.tx(live) == Confirmed then c.confirmed == e.confirmed + e.buffer[..n] + d &&
                   c.evicted == e.evicted && c.buffer == e.buffer[n..]
               else c.confirmed == e.confirmed + e.buffer[..n] && c.evicted + c.buffer == e.evicted + e.buffer[n..] + d
    ensures var c, live := Cycle(e, i), if n == |e.buffer| then n else n + 1;
            i.online ==>
              c.landed == e.landed + e.buffer[..n] +
                          (if n < |e.buffer| && i.tx(n) == ReplyLost then [e.buffer[n]] else []) +
                          (if i.tx(live) == NotSent then [] else [c.issued[|e.issued|]])
  {
    hide Measured, Cycle, Flushed;
    FlushedAre(e.buffer, i.tx, 0, n);
    CycleFacts(e, i);
    CycleEvicts(e, i);
    LandedFacts(e, i);
    Readings(i.reading, e.seqNo);
    assert e.buffer[0..] == e.buffer && e.buffer[..0] == [];
  }

  lemma CycleEvicts(e: Edge, i: Input)
    requires |e.buffer| <= CAPACITY
    ensures var c := Cycle(e, i);
            && e.evicted <= c.evicted && (|c.evicted| > |e.evicted| ==> |c.buffer| == CAPACITY)
            && (LiveConfirmed(e, i) ==> c.evicted == e.evicted)
  {
    var d := Measured(i.reading, e.seqNo);
    var m := e.(seqNo := (e.seqNo + 1) % TWO_32, issued := e.issued + [d]);
    SameFlush(e, m, i);
    hide Measured, FlushedEdge, FlushPosts, Flushed, LostInFlush;
    if i.online { FlushFacts(m, i); }
  }

  /** d is the reading under the device's name, firmware and state, numbered n. */
  predicate IssuedAs(d: Telemetry, reading: Telemetry, n: nat) {
    && d.deviceId == Some(Ascii("DEV-ESP32-001")) && d.firmware == Some(Ascii("1.0.0"))
    && d.state == Some(Ascii("NORMAL")) && d.seqNo == n
    && d.timestamp == reading.timestamp && d.bootCount == reading.bootCount
    && d.temperature == reading.temperature && d.humidity == reading.humidity && d.voltage == reading.voltage
    && d.level == reading.level && d.rssi == reading.rssi && d.interval == reading.interval
    && d.uptime == reading.uptime && d.freeHeap == reading.freeHeap
  }

  lemma Readings(reading: Telemetry, seqNo: uint32)
    ensures IssuedAs(Measured(reading, seqNo), reading, seqNo)
  {
  }

  /** Over every run the j-th record issued holds the j-th reading, under the next number modulo 2^32. */
  lemma {:induction false} RunIssues(e: Edge, inputs: seq<Input>, j: nat)
    requires |e.buffer| <= CAPACITY && j < |inputs|
    ensures var r := Run(e, inputs);
            && |r.issued| == |e.issued| + |inputs| && r.issued[..|e.issued|] == e.issued
            && IssuedAs(r.issued[|e.issued| + j], inputs[j].reading, (e.seqNo + j) % 0x1_0000_0000)
    decreases |inputs|
  {
    hide Cycle, IssuedAs, Measured;
    var c, rest := Cycle(e, inputs[0]), inputs[1..];
    CycleIssues(e, inputs[0]);
    if rest == [] {
      assert Run(c, rest) == c;
    } else {
      RunIssues(c, rest, if j > 0 then j - 1 else 0);
      var r := Run(e, inputs);
      assert r.issued[|e.issued|] == r.issued[..|c.issued|][|e.issued|];
      assert r.issued[..|e.issued|] == r.issued[..|c.issued|][..|e.issued|];
    }
  }

  lemma CycleIssues(e: Edge, i: Input)
    requires |e.buffer| <= CAPACITY
    ensures var c := Cycle(e, i);
            && |c.issued| == |e.issued| + 1 && c.issued[..|e.issued|] == e.issued
            && IssuedAs(c.issued[|e.issued|], i.reading, e.seqNo)
            && c.seqNo == (e.seqNo + 1) % 0x1_0000_0000 && |c.buffer| <= CAPACITY
  {
    hide Cycle, Measured, IssuedAs;
    CycleFacts(e, i);
    Readings(i.reading, e.seqNo);
  }

  lemma BufferedFacts(e: Edge, d: Telemetry)
    requires |e.buffer| <= CAPACITY
    ensures var b := Buffered(e, d);
            && b.evicted + b.buffer == e.evicted + e.buffer + [d] && b.buffer == Push(CAPACITY, e.buffer, d)
            && b.seqNo == e.seqNo && b.issued == e.issued && b.confirmed == e.confirmed
            && b.landed == e.landed && b.lostReplies == e.lostReplies
  {
  }

  /** The flush sees nothing of the edge but its buffer. */
  lemma SameFlush(e: Edge, m: Edge, i: Input)
    requires e.buffer == m.buffer
    ensures FlushCount(e, i) == FlushCount(m, i) && LiveConfirmed(e, i) == LiveConfirmed(m, i)
    ensures LostInFlush(e, i) == LostInFlush(m, i) && FlushPosts(e, i.tx) == FlushPosts(m, i.tx)
  {
  }

  lemma LandedFacts(e: Edge, i: Input)
    ensures var c := Cycle(e, i);
            && c.landed == e.landed + e.buffer[..FlushCount(e, i)] + LostInFlush(e, i) + LiveLanded(e, i)
            && c.lostReplies == e.lostReplies + |LostInFlush(e, i)| +
                (if LiveConfirmed(e, i) then 0 else |LiveLanded(e, i)|)
  {
    var d := Measured(i.reading, e.seqNo);
    var m := e.(seqNo := (e.seqNo + 1) % TWO_32, issued := e.issued + [d]);
    SameFlush(e, m, i);
    var landing := LostInFlush(e, i);
    if !i.online { assert landing == [] && LiveLanded(e, i) == []; }
    hide Measured, FlushedEdge, FlushPosts, Flushed, LostInFlush;
    if i.online {
      FlushFacts(m, i);
    }
  }

  /** Moving n records to `confirmed` and the live one to either side keeps the balance. */
  lemma Balance(issued: seq<Telemetry>, confirmed: seq<Telemetry>, buffer: seq<Telemetry>, evicted: seq<Telemetry>,
                n: nat, live: seq<Telemetry>, kept: seq<Telemetry>,
                confirmed': seq<Telemetry>, buffer': seq<Telemetry>, evicted': seq<Telemetry>)
    requires multiset(issued) == multiset(confirmed) + multiset(buffer) + multiset(evicted) && n <= |buffer|
    requires confirmed' == confirmed + buffer[..n] + live && evicted' + buffer' == evicted + buffer[n..] + kept
    ensures multiset(issued + (live + kept)) == multiset(confirmed') + multiset(buffer') + multiset(evicted')
  {
    assert buffer == buffer[..n] + buffer[n..];
    assert multiset(issued + (live + kept)) == multiset(issued) + (multiset(live) + multiset(kept));
    assert multiset(confirmed') == multiset(confirmed) + multiset(buffer[..n]) + multiset(live);
    assert multiset(evicted + buffer[n..] + kept) == multiset(evicted) + multiset(buffer[n..]) + multiset(kept);
    assert multiset(evicted' + buffer') == multiset(evicted') + multiset(buffer');
    assert multiset(confirmed') + multiset(buffer') + multiset(evicted') ==
           multiset(confirmed') + (multiset(evicted') + multiset(buffer'));
    assert multiset(buffer) == multiset(buffer[..n]) + multiset(buffer[n..]);
  }

  lemma CycleConserves(e: Edge, i: Input)
    requires Conserved(e)
    ensures Conserved(Cycle(e, i))
  {
    hide Cycle, Measured, FlushPosts, Flushed;
    CycleFacts(e, i);
    var c := Cycle(e, i);
    var d := Measured(i.reading, e.seqNo);
    var sent := LiveConfirmed(e, i);
    var live, kept := if sent then [d] else [], if sent then [] else [d];
    Balance(e.issued, e.confirmed, e.buffer, e.evicted, FlushCount(e, i), live, kept, c.confirmed, c.buffer, c.evicted);
    assert live + kept == [d];
    LandedConserves(e, i);
  }

  lemma LandedConserves(e: Edge, i: Input)
    requires Conserved(e)
    ensures var c := Cycle(e, i);
            && multiset(c.confirmed) <= multiset(c.landed)
            && |c.landed| == |c.confirmed| + c.lostReplies
            && (forall d | d in c.landed :: d in c.issued)
  {
    CycleFacts(e, i);
    LandedFacts(e, i);
    var d := Measured(i.reading, e.seqNo);
    var n := FlushCount(e, i);
    var lost, live := LostInFlush(e, i), LiveLanded(e, i);
    var confirmedLive := if LiveConfirmed(e, i) then [d] else [];
    assert confirmedLive == live || confirmedLive == [];
    forall x | x in e.buffer ensures x in e.issued {
      assert x in multiset(e.issued);
    }
    hide Cycle, Measured, FlushPosts, Flushed, Push, LiveConfirmed;
    var c := Cycle(e, i);
    LandedBalance(e.confirmed, e.landed, e.buffer[..n], confirmedLive, live, lost);
  }

  lemma LandedBalance(confirmed: seq<Telemetry>, landed: seq<Telemetry>, flushed: seq<Telemetry>,
                      confirmedLive: seq<Telemetry>, live: seq<Telemetry>, lost: seq<Telemetry>)
    requires multiset(confirmed) <= multiset(landed) && (confirmedLive == live || confirmedLive == [])
    ensures multiset(confirmed + flushed + confirmedLive) <= multiset(landed + flushed + lost + live)
  {
    assert multiset(landed + flushed + lost + live) ==
        multiset(landed) + multiset(flushed) + multiset(lost) + multiset(live);
    assert multiset(confirmed + flushed + confirmedLive) ==
        multiset(confirmed) + multiset(flushed) + multiset(confirmedLive);
  }

  /** Over every run of cycles with arbitrary network outcomes. */
  lemma {:induction false} Conservation(e: Edge, inputs: seq<Input>)
    requires Conserved(e)
    ensures Conserved(Run(e, inputs))
    decreases |inputs|
  {
    if inputs != [] {
      CycleConserves(e, inputs[0]);
      Conservation(Cycle(e, inputs[0]), inputs[1..]);
    }
  }

  // ---------------------------------------------------------------------
  // Sequence numbers and order
  // ---------------------------------------------------------------------

  /** Sequence numbers were issued 1, 2, 3, ... and have not wrapped. */
  predicate Numbered(e: Edge) {
    && e.seqNo == |e.issued| + 1
    && forall j | 0 <= j < |e.issued| :: e.issued[j].seqNo == j + 1
  }

  lemma {:induction false} RunNumbered(e: Edge, inputs: seq<Input>)
    requires Numbered(e) && |e.issued| + |inputs| + 1 < TWO_32
    ensures Numbered(Run(e, inputs)) && |Run(e, inputs).issued| == |e.issued| + |inputs|
    decreases |inputs|
  {
    hide Cycle, Numbered;
    if inputs != [] {
      StepNumbered(e, inputs[0]);
      RunNumbered(Cycle(e, inputs[0]), inputs[1..]);
    }
  }

  lemma StepNumbered(e: Edge, i: Input)
    requires Numbered(e) && |e.issued| + 2 < TWO_32
    ensures Numbered(Cycle(e, i)) && |Cycle(e, i).issued| == |e.issued| + 1
  {
    hide Flushed, Push, Ascii, DeviceName, FirmwareName, StateLabel;
  }

  lemma {:induction false} OneOccurrence(s: seq<Telemetry>, j: nat)
    requires j < |s| && forall a, b | 0 <= a < b < |s| :: s[a] != s[b]
    ensures multiset(s)[s[j]] == 1
  {
    assert s == s[..j] + [s[j]] + s[j + 1..];
    assert s[j] !in s[..j] && s[j] !in s[j + 1..];
    assert multiset(s) == multiset(s[..j]) + multiset{s[j]} + multiset(s[j + 1..]);
  }

  /** From power-on, every record issued is exactly once in exactly one of confirmed, buffered and evicted. */
  lemma ExactlyOnePlace(inputs: seq<Input>, j: nat)
    requires |inputs| + 1 < TWO_32 && j < |inputs|
    ensures var e := Run(START, inputs);
            && |e.issued| == |inputs| && e.issued[j].seqNo == j + 1
            && multiset(e.confirmed)[e.issued[j]] + multiset(e.buffer)[e.issued[j]] +
                multiset(e.evicted)[e.issued[j]] == 1
  {
    Conservation(START, inputs);
    RunNumbered(START, inputs);
    var e := Run(START, inputs);
    assert forall a, b | 0 <= a < b < |e.issued| :: e.issued[a].seqNo != e.issued[b].seqNo;
    OneOccurrence(e.issued, j);
  }

  predicate Ascending(s: seq<Telemetry>) { forall a, b | 0 <= a < b < |s| :: s[a].seqNo < s[b].seqNo }

  /** Everything still known to the device is older than the next record. */
  predicate Older(e: Edge) {
    forall d | d in e.confirmed + e.buffer + e.evicted :: d.seqNo < e.seqNo
  }

  /** The ring always gives up its oldest record: what is evicted is older than all that is kept, over every run. */
  lemma {:induction false} EvictsOldest(e: Edge, inputs: seq<Input>)
    requires Ascending(e.evicted + e.buffer) && Older(e) && |e.buffer| <= CAPACITY
    requires e.seqNo + |inputs| < TWO_32
    ensures var r := Run(e, inputs); Ascending(r.evicted + r.buffer) && Older(r)
    decreases |inputs|
  {
    hide Cycle;
    if inputs != [] {
      CycleFacts(e, inputs[0]);
      EvictStep(e, inputs[0]);
      EvictsOldest(Cycle(e, inputs[0]), inputs[1..]);
    }
  }

  lemma EvictStep(e: Edge, i: Input)
    requires Ascending(e.evicted + e.buffer) && Older(e) && |e.buffer| <= CAPACITY && e.seqNo + 1 < TWO_32
    ensures var c := Cycle(e, i); Ascending(c.evicted + c.buffer) && Older(c) && |c.buffer| <= CAPACITY
  {
    hide Cycle, FlushCount, LiveConfirmed, Measured, Ascending;
    CycleFacts(e, i);
    CycleOlder(e, i);
    var n := FlushCount(e, i);
    var q := e.buffer[n..];
    NumberedAs(i.reading, e.seqNo);
    DropMiddle(e.evicted, e.buffer, n);
    assert forall x | x in e.evicted + q :: x in e.confirmed + e.buffer + e.evicted;
    if LiveConfirmed(e, i) {
      assert e.evicted + q + [] == e.evicted + q;
    } else {
      AppendAscending(e.evicted + q, Measured(i.reading, e.seqNo));
    }
  }

  /** Confirmations so far, followed by the buffer, are in the order of issue: delivery has been FIFO. */
  predicate InOrder(e: Edge) { Ascending(e.confirmed + e.buffer) }

  /**
   * Delivery stays FIFO through a cycle unless the live record is confirmed while
   * an interrupted flush has left older records behind - and then it does not.
   */
  lemma FifoExactly(e: Edge, i: Input)
    requires InOrder(e) && Older(e) && |e.buffer| <= CAPACITY && e.seqNo + 1 < TWO_32
    ensures InOrder(Cycle(e, i)) <==> !(LiveConfirmed(e, i) && FlushCount(e, i) < |e.buffer|)
  {
    hide Cycle, LiveConfirmed, FlushPosts, Flushed, Push, Ascending, Measured;
    CycleFacts(e, i);
    var c := Cycle(e, i);
    var d := Measured(i.reading, e.seqNo);
    var n := FlushCount(e, i);
    var q := e.buffer[n..];
    var sofar := e.confirmed + e.buffer[..n];
    assert sofar + q == e.confirmed + e.buffer;
    assert forall x | x in sofar + q :: x in e.confirmed + e.buffer + e.evicted;
    NumberedAs(i.reading, e.seqNo);
    if LiveConfirmed(e, i) {
      assert c.confirmed + c.buffer == sofar + [d] + q;
      NewestFirst(sofar, q, d);
    } else {
      assert c.confirmed == sofar;
      NewestLast(sofar, q, d);
    }
  }

  /** Some cycle of the run confirms its live record although its flush was interrupted. */
  predicate Overtakes(e: Edge, inputs: seq<Input>)
    decreases |inputs|
  {
    inputs != [] &&
    var now := LiveConfirmed(e, inputs[0]) && FlushCount(e, inputs[0]) < |e.buffer|;
    now || Overtakes(Cycle(e, inputs[0]), inputs[1..])
  }

  /** After a cycle the next one may rely on the same facts. */
  lemma CycleOlder(e: Edge, i: Input)
    requires Older(e) && |e.buffer| <= CAPACITY && e.seqNo + 1 < TWO_32
    ensures var c := Cycle(e, i); Older(c) && |c.buffer| <= CAPACITY && c.seqNo == e.seqNo + 1
  {
    hide Cycle, FlushPosts, Flushed, LiveConfirmed, Measured;
    CycleFacts(e, i);
    NumberedAs(i.reading, e.seqNo);
    var c := Cycle(e, i);
    forall d | d in c.confirmed + c.buffer + c.evicted ensures d.seqNo < c.seqNo {
      assert d in c.confirmed || d in c.evicted + c.buffer;
      assert d in e.confirmed + e.buffer + e.evicted || d == Measured(i.reading, e.seqNo);
    }
  }

  /** Delivery has been FIFO after every cycle of the run. */
  predicate AlwaysInOrder(e: Edge, inputs: seq<Input>) {
    forall k | 0 <= k <= |inputs| :: InOrder(Run(e, inputs[..k]))
  }

  lemma AlwaysStep(e: Edge, inputs: seq<Input>)
    requires inputs != []
    ensures AlwaysInOrder(e, inputs) <==> InOrder(e) && AlwaysInOrder(Cycle(e, inputs[0]), inputs[1..])
  {
    hide Cycle, InOrder;
    var c, rest := Cycle(e, inputs[0]), inputs[1..];
    assert inputs[..0] == [];
    forall k | 0 <= k <= |rest| ensures Run(e, inputs[..k + 1]) == Run(c, rest[..k]) {
      assert inputs[..k + 1][1..] == rest[..k];
    }
    if InOrder(e) && AlwaysInOrder(c, rest) {
      forall k | 0 <= k <= |inputs| ensures InOrder(Run(e, inputs[..k])) {
        if k > 0 { assert Run(e, inputs[..k - 1 + 1]) == Run(c, rest[..k - 1]); }
      }
    }
    if AlwaysInOrder(e, inputs) {
      forall k | 0 <= k <= |rest| ensures InOrder(Run(c, rest[..k])) {
        assert InOrder(Run(e, inputs[..k + 1]));
      }
      assert InOrder(Run(e, inputs[..0]));
    }
  }

  /** Over every run: delivery is FIFO throughout if and only if no cycle overtakes. */
  lemma {:induction false} RunInOrder(e: Edge, inputs: seq<Input>)
    requires InOrder(e) && Older(e) && |e.buffer| <= CAPACITY && e.seqNo + |inputs| < TWO_32
    ensures AlwaysInOrder(e, inputs) <==> !Overtakes(e, inputs)
    decreases |inputs|
  {
    hide Cycle, InOrder, Older, LiveConfirmed, FlushCount, AlwaysInOrder;
    if inputs == [] {
      NothingRun(e, inputs);
    } else {
      AlwaysStep(e, inputs);
      FifoExactly(e, inputs[0]);
      CycleOlder(e, inputs[0]);
      if InOrder(Cycle(e, inputs[0])) {
        RunInOrder(Cycle(e, inputs[0]), inputs[1..]);
      } else {
        AlwaysFirst(Cycle(e, inputs[0]), inputs[1..]);
      }
    }
  }

  lemma NothingRun(e: Edge, inputs: seq<Input>)
    requires inputs == []
    ensures AlwaysInOrder(e, inputs) <==> InOrder(e)
  {
    hide InOrder;
    assert inputs[..0] == [];
    if InOrder(e) {
      forall k | 0 <= k <= |inputs| ensures InOrder(Run(e, inputs[..k])) { assert inputs[..k] == []; }
    } else {
      assert !InOrder(Run(e, inputs[..0]));
    }
  }

  lemma AlwaysFirst(e: Edge, inputs: seq<Input>)
    ensures AlwaysInOrder(e, inputs) ==> InOrder(e)
  {
    hide InOrder, Cycle;
    assert inputs[..0] == [];
    assert AlwaysInOrder(e, inputs) ==> InOrder(Run(e, inputs[..0]));
  }

  /**
   * From power-on delivery gets out of order: after an offline cycle, one whose
   * first POST fails and whose second is confirmed.
   */
  lemma OvertakingRun(offline: Input, recovering: Input)
    requires !offline.online && recovering.online && recovering.tx(0) == NotSent && recovering.tx(1) == Confirmed
    ensures var e := Run(START, [offline, recovering]);
            && e.confirmed == [Measured(recovering.reading, 2)] && e.buffer == [Measured(offline.reading, 1)]
            && !InOrder(e) && Overtakes(START, [offline, recovering])
  {
    hide Measured;
    NumberedAs(offline.reading, 1);
    NumberedAs(recovering.reading, 2);
    var c := Cycle(START, offline);
    assert c.buffer == [Measured(offline.reading, 1)] && c.confirmed == [] && c.seqNo == 2;
    OvertakingCycle(c, recovering);
    TwoCycles(START, offline, recovering);
    hide Cycle, Run, Overtakes, LiveConfirmed, FlushCount;
    var e := Cycle(c, recovering);
    var s := e.confirmed + e.buffer;
    assert s[0] == Measured(recovering.reading, 2) && s[1] == Measured(offline.reading, 1);
  }

  lemma TwoCycles(e: Edge, i: Input, j: Input)
    ensures Run(e, [i, j]) == Cycle(Cycle(e, i), j)
    ensures LiveConfirmed(Cycle(e, i), j) && FlushCount(Cycle(e, i), j) < |Cycle(e, i).buffer| ==> Overtakes(e, [i, j])
  {
    hide Cycle, LiveConfirmed, FlushCount;
    assert [i, j][1..] == [j] && [j][1..] == [];
    assert Run(Cycle(e, i), [j]) == Cycle(Cycle(e, i), j);
    assert LiveConfirmed(Cycle(e, i), j) && FlushCount(Cycle(e, i), j) < |Cycle(e, i).buffer| ==>
        Overtakes(Cycle(e, i), [j]);
  }

  lemma OvertakingCycle(c: Edge, i: Input)
    requires |c.buffer| == 1 && c.confirmed == [] && i.online && i.tx(0) == NotSent && i.tx(1) == Confirmed
    ensures var e := Cycle(c, i); e.confirmed == [Measured(i.reading, c.seqNo)] && e.buffer == c.buffer
    ensures LiveConfirmed(c, i) && FlushCount(c, i) < |c.buffer|
  {
    hide Measured;
    assert Flushed(c.buffer, i.tx, 0) == 0;
    assert c.buffer[0..] == c.buffer;
  }

  lemma NumberedAs(reading: Telemetry, seqNo: uint32)
    ensures Measured(reading, seqNo).seqNo == seqNo
  {
  }

  lemma NewestFirst(s: seq<Telemetry>, q: seq<Telemetry>, d: Telemetry)
    requires Ascending(s + q) && forall x | x in s + q :: x.seqNo < d.seqNo
    ensures Ascending(s + [d] + q) <==> q == []
  {
    if q == [] {
      assert s + q == s && s + [d] + q == s + [d];
      AppendAscending(s, d);
    } else {
      var t := s + [d] + q;
      assert t[|s|] == d && t[|s| + 1] == q[0] && q[0] in s + q;
    }
  }

  lemma NewestLast(s: seq<Telemetry>, q: seq<Telemetry>, d: Telemetry)
    requires Ascending(s + q) && |q| <= CAPACITY && forall x | x in s + q :: x.seqNo < d.seqNo
    ensures Ascending(s + Push(CAPACITY, q, d))
  {
    AppendAscending(s + q, d);
    assert s + q + [d] == s + (q + [d]);
    var k := if |q| < CAPACITY then 0 else 1;
    DropMiddle(s, q + [d], k);
    assert Push(CAPACITY, q, d) == (q + [d])[k..];
  }

  lemma AppendAscending(s: seq<Telemetry>, d: Telemetry)
    requires Ascending(s) && forall x | x in s :: x.seqNo < d.seqNo
    ensures Ascending(s + [d])
  {
  }

  lemma DropMiddle(a: seq<Telemetry>, b: seq<Telemetry>, n: nat)
    requires Ascending(a + b) && n <= |b|
    ensures Ascending(a + b[n..])
  {
    var s, t := a + b, a + b[n..];
    forall x, y | 0 <= x < y < |t| ensures t[x].seqNo < t[y].seqNo {
      var x', y' := if x < |a| then x else x + n, if y < |a| then y else y + n;
      assert t[x] == s[x'] && t[y] == s[y'];
    }
  }

  // ---------------------------------------------------------------------
  // The C code
  // ---------------------------------------------------------------------

  class App {
    const ring: TelemetryRing
    var seqNo: uint32
    ghost var account: Edge

    ghost predicate Valid()
      reads this, ring, ring.items, ring.deviceIdStorage, ring.fwVersionStorage, ring.stateStorage
    {
      && ring.Valid()
      && ring.Contents() == account.buffer && seqNo == account.seqNo
    }

    /** app_state_machine_init. */
    constructor ()
      ensures Valid() && account == START
    {
      ring := new TelemetryRing();
      seqNo := 1;
      account := START;
    }

    /** transmit_telemetry_item: the device sees success only for an answered POST. */
    method Transmit(item: Telemetry, outcome: Tx) returns (ok: bool)
      requires Valid()
      modifies this`account
      ensures Valid() && ok == (outcome == Confirmed)
      ensures account == Posted(old(account), item, outcome)
    {
      account := Posted(account, item, outcome);
      return outcome == Confirmed;
    }

    /** telemetry_buffer_push of the live record; its strings fit their storage rows. */
    method Save(d: Telemetry)
      requires Valid() && Clip(d) == d
      modifies this`account, ring.Repr()
      ensures Valid() && account == Buffered(old(account), d)
    {
      var ok := ring.Push(d);
      account := Buffered(account, d);
    }

    /** The body of case STATE_BOOT, from any ring and sequence number. */
    method BootBody(reading: Telemetry, online: bool, tx: nat -> Tx)
      requires Valid()
      modifies this, ring.Repr()
      ensures Valid() && account == Cycle(old(account), Input(reading, online, tx))
    {
      hide BoundedFifo.Push, Measured, Clip, Buffered, FlushedEdge, FlushPosts, Posted, TelemetryRing.Valid,
          TelemetryRing.Stores, TelemetryRing.Contents;
      var d := Measured(reading, seqNo);
      StringsFit(reading, seqNo);
      account := account.(seqNo := (seqNo + 1) % TWO_32, issued := account.issued + [d]);
      seqNo := (seqNo + 1) % TWO_32;
      if online {
        var posts := Flush(tx);
        var ok := Transmit(d, tx(posts));
        if !ok { Save(d); }
      } else {
        Save(d);
      }
    }

    /** One round of the flush: peek, transmit, and pop only what was confirmed. */
    method SendOldest(outcome: Tx) returns (ok: bool)
      requires Valid() && account.buffer != []
      modifies this`account, ring`head, ring`count
      ensures Valid() && ok == (outcome == Confirmed)
      ensures account == OldestSent(old(account), outcome)
    {
      var item := ring.Peek();
      ok := Transmit(item.value, outcome);
      if ok {
        var popped := ring.Pop();
        account := account.(buffer := account.buffer[1..]);
      }
    }

    method Drained() returns (empty: bool)
      requires Valid()
      ensures empty <==> account.buffer == []
    {
      empty := ring.IsEmpty();
    }

    /** Send the buffered records oldest first until one fails; `posts` counts the attempts. */
    method Flush(tx: nat -> Tx) returns (posts: nat)
      requires Valid()
      modifies this`account, ring`head, ring`count
      ensures Valid() && account == FlushedEdge(old(account), tx) && posts == FlushPosts(old(account), tx)
    {
      hide Valid, Midway, AtPost, FlushedEdge, FlushPosts, OldestSent;
      ghost var m := account;
      FlushStart(m, tx);
      posts := 0;
      var empty := Drained();
      while !empty
        invariant Valid() && posts <= |m.buffer| && (empty <==> posts == |m.buffer|)
        invariant AtPost(m, tx, posts) && account == Midway(m, posts) && account.buffer == m.buffer[posts..]
        decreases |m.buffer| - posts
      {
        FlushStep(m, tx, posts);
        var ok := SendOldest(tx(posts));
        posts := posts + 1;
        if !ok { break; }
        MidwayBuffer(m, posts);
        empty := Drained();
      }
      if empty { FlushDone(m, tx); }
    }
  }

  /** The edge after k confirmed posts of a flush. */
  function Midway(m: Edge, k: nat): Edge
    requires k <= |m.buffer|
  {
    m.(buffer := m.buffer[k..], confirmed := m.confirmed + m.buffer[..k], landed := m.landed + m.buffer[..k])
  }

  /** One round of the flush: the oldest record is posted, and leaves the buffer only if that was confirmed. */
  function OldestSent(e: Edge, t: Tx): Edge
    requires e.buffer != []
  {
    var p := Posted(e, e.buffer[0], t);
    if t == Confirmed then p.(buffer := p.buffer[1..]) else p
  }

  predicate AtPost(m: Edge, tx: nat -> Tx, k: nat) {
    k <= |m.buffer| && Flushed(m.buffer, tx, 0) == k + Flushed(m.buffer[k..], tx, k)
  }

  lemma FlushStart(m: Edge, tx: nat -> Tx)
    ensures AtPost(m, tx, 0) && Midway(m, 0) == m
  {
    assert m.buffer[0..] == m.buffer;
    assert m.confirmed + m.buffer[..0] == m.confirmed && m.landed + m.buffer[..0] == m.landed;
  }

  lemma FlushStep(m: Edge, tx: nat -> Tx, k: nat)
    requires AtPost(m, tx, k) && k < |m.buffer|
    ensures Midway(m, k).buffer == m.buffer[k..]
    ensures var p := OldestSent(Midway(m, k), tx(k));
            if tx(k) == Confirmed then AtPost(m, tx, k + 1) && Midway(m, k + 1) == p
            else FlushedEdge(m, tx) == p && FlushPosts(m, tx) == k + 1
  {
    assert m.buffer[k..][1..] == m.buffer[k + 1..];
    if tx(k) == Confirmed {
      assert m.buffer[..k + 1] == m.buffer[..k] + [m.buffer[k]];
      assert m.confirmed + m.buffer[..k + 1] == m.confirmed + m.buffer[..k] + [m.buffer[k]];
      assert m.landed + m.buffer[..k + 1] == m.landed + m.buffer[..k] + [m.buffer[k]];
    }
  }

  lemma MidwayBuffer(m: Edge, k: nat)
    requires k <= |m.buffer|
    ensures Midway(m, k).buffer == m.buffer[k..]
  {
  }

  lemma FlushDone(m: Edge, tx: nat -> Tx)
    ensures AtPost(m, tx, |m.buffer|) ==> FlushedEdge(m, tx) == Midway(m, |m.buffer|) && FlushPosts(m, tx) == |m.buffer|
    ensures Midway(m, |m.buffer|).buffer == [] && Midway(m, |m.buffer|).seqNo == m.seqNo
  {
  }

  lemma StringsFit(reading: Telemetry, seqNo: uint32)
    ensures Clip(Measured(reading, seqNo)) == Measured(reading, seqNo)
  {
  }
}
