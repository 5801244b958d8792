/**
 * The send and receive loops of the OSAL queue as interleaved passes of any
 * number of threads over one mutex and two condition variables. Each pass has
 * the effect that OsalQueue.MockQueue proves of the code.
 */
module Monitor {
  import opened Basics
  import opened OsalQueue

  type Tid = nat
  type Item = seq<byte>

  /**
   * Threads asleep on a condition, and threads that were woken but have not yet
   * taken the mutex again. All other threads are outside the queue.
   */
  datatype Queue = Queue(capacity: nat, items: seq<Item>,
                         sendAsleep: set<Tid>, sendWoken: set<Tid>,
                         recvAsleep: set<Tid>, recvWoken: set<Tid>,
                         sent: seq<Item>, received: seq<Item>)

  /**
   * A pass of one thread, entering or resuming, with the threads its signal wakes
   * (at least one if any is asleep); or a spurious wake-up.
   */
  datatype Step =
    | Send(t: Tid, item: Item, noWait: bool, woken: set<Tid>)
    | Receive(t: Tid, noWait: bool, woken: set<Tid>)
    | SpuriousSender(t: Tid)
    | SpuriousReceiver(t: Tid)

  /** pthread_cond_signal unblocks at least one of the sleepers, if there are any. */
  predicate Signals(asleep: set<Tid>, woken: set<Tid>) {
    woken <= asleep && (asleep != {} ==> woken != {})
  }

  predicate Enabled(q: Queue, s: Step) {
    match s
    case Send(t, _, _, woken) =>
      t !in q.sendAsleep + q.recvAsleep + q.recvWoken && Signals(q.recvAsleep, woken)
    case Receive(t, _, woken) =>
      t !in q.sendAsleep + q.sendWoken + q.recvAsleep && Signals(q.sendAsleep, woken)
    case SpuriousSender(t) => t in q.sendAsleep
    case SpuriousReceiver(t) => t in q.recvAsleep
  }

  function Next(q: Queue, s: Step): Queue {
    match s
    case Send(t, item, noWait, woken) =>
      var r := SendResult(q.capacity, q.items, item, noWait);
      var awake := q.(sendWoken := q.sendWoken - {t}, items := r.1);
      (match r.0
       case Done =>
         awake.(sent := q.sent + [item], recvAsleep := q.recvAsleep - woken, recvWoken := q.recvWoken + woken)
       case GiveUp(_) => awake
       case Sleep => awake.(sendAsleep := q.sendAsleep + {t}))
    case Receive(t, noWait, woken) =>
      var r := ReceiveResult(q.items, noWait);
      var awake := q.(recvWoken := q.recvWoken - {t}, items := r.1);
      (match r.0
       case Done =>
         awake.(received := q.received + [q.items[0]],
                sendAsleep := q.sendAsleep - woken, sendWoken := q.sendWoken + woken)
       case GiveUp(_) => awake
       case Sleep => awake.(recvAsleep := q.recvAsleep + {t}))
    case SpuriousSender(t) => q.(sendAsleep := q.sendAsleep - {t}, sendWoken := q.sendWoken + {t})
    case SpuriousReceiver(t) => q.(recvAsleep := q.recvAsleep - {t}, recvWoken := q.recvWoken + {t})
  }

  function Fresh(capacity: nat): Queue { Queue(capacity, [], {}, {}, {}, {}, [], []) }

  /** Every step of the run is possible where it is taken. */
  predicate Possible(q: Queue, run: seq<Step>)
    decreases |run|
  {
    run != [] ==> Enabled(q, run[0]) && Possible(Next(q, run[0]), run[1..])
  }

  function After(q: Queue, run: seq<Step>): Queue
    decreases |run|
  {
    if run == [] then q else After(Next(q, run[0]), run[1..])
  }

  /** A thread is in at most one of the four sets. */
  predicate Apart(q: Queue) {
    && q.sendAsleep !! q.sendWoken && q.sendAsleep !! q.recvAsleep && q.sendAsleep !! q.recvWoken
    && q.sendWoken !! q.recvAsleep && q.sendWoken !! q.recvWoken && q.recvAsleep !! q.recvWoken
  }

  /**
   * While a receiver sleeps, every message is matched by a woken receiver; while a sender sleeps, every free
   * slot by a woken sender.
   */
  predicate NoLostWakeup(q: Queue) {
    && (q.recvAsleep != {} ==> |q.items| <= |q.recvWoken|)
    && (q.sendAsleep != {} ==> q.capacity - |q.items| <= |q.sendWoken|)
  }

  predicate Inv(q: Queue) {
    && Apart(q) && NoLostWakeup(q)
    && |q.items| <= q.capacity
    && q.sent == q.received + q.items
  }

  lemma Wakes(awake: set<Tid>, asleep: set<Tid>, woken: set<Tid>)
    requires awake !! asleep && Signals(asleep, woken)
    ensures |awake + woken| == |awake| + |woken|
    ensures asleep != {} ==> |awake + woken| >= |awake| + 1
  {
    assert awake !! woken;
    if asleep != {} {
      var t :| t in woken;
      assert |woken| == |woken - {t}| + 1;
    }
  }

  lemma Leaves(awake: set<Tid>, t: Tid)
    ensures |awake - {t}| >= |awake| - 1
    ensures t !in awake ==> awake - {t} == awake
  {
    if t in awake { assert awake == (awake - {t}) + {t}; }
  }

  lemma KeepsApart(q: Queue, s: Step)
    requires Apart(q) && Enabled(q, s)
    ensures Apart(Next(q, s))
  {
  }

  lemma SendKeepsWakeups(q: Queue, s: Step)
    requires Apart(q) && NoLostWakeup(q) && |q.items| <= q.capacity && Enabled(q, s) && s.Send?
    ensures NoLostWakeup(Next(q, s))
  {
    Leaves(q.sendWoken, s.t);
    Wakes(q.recvWoken, q.recvAsleep, s.woken);
  }

  lemma ReceiveKeepsWakeups(q: Queue, s: Step)
    requires Apart(q) && NoLostWakeup(q) && Enabled(q, s) && s.Receive?
    ensures NoLostWakeup(Next(q, s))
  {
    Leaves(q.recvWoken, s.t);
    Wakes(q.sendWoken, q.sendAsleep, s.woken);
  }

  lemma SpuriousKeepsWakeups(q: Queue, s: Step)
    requires Apart(q) && NoLostWakeup(q) && Enabled(q, s) && (s.SpuriousSender? || s.SpuriousReceiver?)
    ensures NoLostWakeup(Next(q, s))
  {
    if s.SpuriousSender? { Wakes(q.sendWoken, q.sendAsleep, {s.t}); } else { Wakes(q.recvWoken, q.recvAsleep, {s.t}); }
  }

  lemma KeepsOrder(q: Queue, s: Step)
    requires q.sent == q.received + q.items && |q.items| <= q.capacity
    ensures var n := Next(q, s); n.sent == n.received + n.items && |n.items| <= n.capacity == q.capacity
  {
    if s.Send? {
      assert q.sent + [s.item] == q.received + (q.items + [s.item]);
    } else if s.Receive? && q.items != [] {
      assert q.received + q.items == q.received + [q.items[0]] + q.items[1..];
    }
  }

  lemma StepKeepsInv(q: Queue, s: Step)
    requires Inv(q) && Enabled(q, s)
    ensures Inv(Next(q, s)) && Next(q, s).capacity == q.capacity
  {
    hide Apart, NoLostWakeup, Enabled, Next;
    KeepsApart(q, s);
    KeepsOrder(q, s);
    match s
    case Send(_, _, _, _) => SendKeepsWakeups(q, s);
    case Receive(_, _, _) => ReceiveKeepsWakeups(q, s);
    case _ => SpuriousKeepsWakeups(q, s);
  }

  lemma {:induction false} RunKeepsInv(q: Queue, run: seq<Step>)
    requires Inv(q) && Possible(q, run)
    ensures Inv(After(q, run)) && After(q, run).capacity == q.capacity
    decreases |run|
  {
    hide Inv, Next, Enabled;
    if run != [] {
      StepKeepsInv(q, run[0]);
      RunKeepsInv(Next(q, run[0]), run[1..]);
    }
  }

  /**
   * In every run of any number of senders and receivers: no thread sleeps on an
   * available queue with nobody woken to take it, not everybody is asleep at
   * once, and messages come out in the order they went in, none lost or doubled.
   */
  lemma NobodySleepsOnAnAvailableQueue(capacity: nat, run: seq<Step>)
    requires Possible(Fresh(capacity), run)
    ensures var q := After(Fresh(capacity), run);
            && NoLostWakeup(q)
            && (q.recvAsleep != {} && q.items != [] ==> q.recvWoken != {})
            && (q.sendAsleep != {} && |q.items| < capacity ==> q.sendWoken != {})
            && (q.sendAsleep != {} && q.recvAsleep != {} ==> |q.sendWoken| + |q.recvWoken| >= capacity)
            && q.sent == q.received + q.items && |q.items| <= capacity
  {
    RunKeepsInv(Fresh(capacity), run);
  }

  /** The thread has left the queue. */
  predicate Outside(q: Queue, t: Tid) { t !in q.sendAsleep + q.sendWoken + q.recvAsleep + q.recvWoken }

  /** What a send pass does to its thread and its message. */
  predicate SendDoes(q: Queue, n: Queue, t: Tid, item: Item, noWait: bool) {
    && (noWait || |q.items| < q.capacity ==> Outside(n, t))
    && (!noWait && |q.items| == q.capacity ==> t in n.sendAsleep)
    && n.sent == q.sent + (if |q.items| < q.capacity then [item] else []) && n.received == q.received
  }

  predicate ReceiveDoes(q: Queue, n: Queue, t: Tid, noWait: bool) {
    && (noWait || q.items != [] ==> Outside(n, t))
    && (!noWait && q.items == [] ==> t in n.recvAsleep)
    && n.received == q.received + (if q.items != [] then [q.items[0]] else []) && n.sent == q.sent
  }

  lemma SendPassDoes(q: Queue, s: Step)
    requires Apart(q) && |q.items| <= q.capacity && Enabled(q, s) && s.Send?
    ensures SendDoes(q, Next(q, s), s.t, s.item, s.noWait)
  {
  }

  lemma ReceivePassDoes(q: Queue, s: Step)
    requires Apart(q) && Enabled(q, s) && s.Receive?
    ensures ReceiveDoes(q, Next(q, s), s.t, s.noWait)
  {
  }

  /**
   * In every run: a thread that does not wait is outside the queue after its
   * pass. One that waits is asleep exactly if the queue was not available, and
   * otherwise outside, having delivered its message or taken the oldest one.
   */
  lemma WhoSleeps(capacity: nat, run: seq<Step>, s: Step)
    requires Possible(Fresh(capacity), run) && Enabled(After(Fresh(capacity), run), s)
    ensures var q := After(Fresh(capacity), run);
            && q.capacity == capacity
            && (s.Send? ==> SendDoes(q, Next(q, s), s.t, s.item, s.noWait))
            && (s.Receive? ==> ReceiveDoes(q, Next(q, s), s.t, s.noWait))
  {
    hide After, Possible, Next, Enabled, NoLostWakeup, SendDoes, ReceiveDoes, Apart;
    FreshInv(capacity);
    RunKeepsInv(Fresh(capacity), run);
    var q := After(Fresh(capacity), run);
    if s.Send? { SendPassDoes(q, s); }
    if s.Receive? { ReceivePassDoes(q, s); }
  }

  lemma FreshInv(capacity: nat)
    ensures Inv(Fresh(capacity))
  {
  }
}
