/**
 * The OSAL message queue of osal_mock.c (POSIX branch): the byte buffer that
 * send and receive change under the mutex, and the two-condition-variable
 * monitor around it for any number of threads.
 */
module OsalQueue {
  import opened Basics
  import opened BoundedFifo

  datatype Status = Ok | InvalidParam | NoMemory | ResourceBusy | Timeout

  /** One pass through the loop under the mutex: done, given up, or about to sleep on the condition. */
  datatype Pass = Done | GiveUp(status: Status) | Sleep

  /** What one pass of the send loop does to the queued messages. */
  function SendResult(capacity: nat, q: seq<seq<byte>>, item: seq<byte>, noWait: bool): (Pass, seq<seq<byte>>) {
    if |q| < capacity then (Done, q + [item])
    else (if noWait then GiveUp(ResourceBusy) else Sleep, q)
  }

  /** What one pass of the receive loop does to them; Done has taken the oldest. */
  function ReceiveResult(q: seq<seq<byte>>, noWait: bool): (Pass, seq<seq<byte>>) {
    if q != [] then (Done, q[1..])
    else (if noWait then GiveUp(Timeout) else Sleep, q)
  }

  lemma CellInside(i: nat, n: nat, size: nat)
    requires i < n
    ensures i * size + size <= n * size
  {
    assert n * size == (i + 1) * size + (n - i - 1) * size;
  }

  lemma CellsApart(k: nat, i: nat, size: nat)
    requires k != i
    ensures k * size + size <= i * size || i * size + size <= k * size
  {
    if k < i { CellInside(k, i, size); } else { CellInside(i, k, size); }
  }

  /** A slice outside the bytes that changed is as it was. */
  lemma SliceKept(was: seq<byte>, now: seq<byte>, base: nat, n: nat, at: nat, size: nat)
    requires |now| == |was| && at + size <= |was| && (at + size <= base || base + n <= at)
    requires forall k | 0 <= k < |was| && !(base <= k < base + n) :: now[k] == was[k]
    ensures now[at..at + size] == was[at..at + size]
  {
  }

  /** Cell k of n in a buffer. */
  function Slot(b: seq<byte>, k: nat, n: nat, size: nat): seq<byte>
    requires k < n && |b| == n * size
  {
    CellInside(k, n, size);
    b[k * size..k * size + size]
  }

  lemma OtherCells(was: seq<byte>, now: seq<byte>, i: nat, n: nat, size: nat)
    requires i < n && |was| == |now| == n * size
    requires forall k | 0 <= k < |was| && !(i * size <= k < i * size + size) :: now[k] == was[k]
    ensures forall k | 0 <= k < n && k != i :: Slot(now, k, n, size) == Slot(was, k, n, size)
  {
    forall k | 0 <= k < n && k != i ensures Slot(now, k, n, size) == Slot(was, k, n, size) {
      CellInside(k, n, size);
      CellsApart(k, i, size);
      SliceKept(was, now, i * size, size, k * size, size);
    }
  }

  class MockQueue {
    const buffer: array<byte>
    const itemSize: nat
    const capacity: nat
    var count: nat
    var head: nat
    var tail: nat

    ghost predicate Valid()
      reads this, buffer
    {
      && itemSize > 0 && capacity > 0 && buffer.Length == capacity * itemSize
      && count <= capacity && head < capacity && tail == Wrap(head + count, capacity)
    }

    /** The i-th slot of the buffer. */
    function Cell(i: nat): seq<byte>
      requires i < capacity && buffer.Length == capacity * itemSize
      reads buffer
    {
      Slot(buffer[..], i, capacity, itemSize)
    }

    ghost function Cells(): (s: seq<seq<byte>>)
      requires buffer.Length == capacity * itemSize
      reads buffer
      ensures |s| == capacity && forall i | 0 <= i < capacity :: s[i] == Cell(i)
    {
      seq(capacity, i requires 0 <= i < capacity && buffer.Length == capacity * itemSize reads buffer => Cell(i))
    }

    /** The messages, oldest first. */
    ghost function Contents(): seq<seq<byte>>
      requires Valid()
      reads this, buffer
    {
      Window(Cells(), head, count)
    }

    constructor (queueLength: nat, itemSize: nat)
      requires queueLength > 0 && itemSize > 0
      ensures Valid() && Contents() == [] && capacity == queueLength && this.itemSize == itemSize && fresh(buffer)
    {
      buffer := new byte[queueLength * itemSize];
      this.itemSize, capacity := itemSize, queueLength;
      count, head, tail := 0, 0, 0;
    }

    /** memcpy of one item into slot i. */
    method WriteCell(i: nat, item: seq<byte>)
      requires i < capacity && buffer.Length == capacity * itemSize && |item| == itemSize
      modifies buffer
      ensures Cells() == old(Cells())[i := item]
    {
      CellInside(i, capacity, itemSize);
      ghost var was := buffer[..];
      Copy(i * itemSize, item);
      OtherCells(was, buffer[..], i, capacity, itemSize);
      assert forall k | 0 <= k < capacity && k != i :: Cell(k) == Slot(was, k, capacity, itemSize);
    }

    /** memcpy to an offset. */
    method Copy(base: nat, item: seq<byte>)
      requires base + |item| <= buffer.Length
      modifies buffer
      ensures buffer[base..base + |item|] == item
      ensures forall k | 0 <= k < buffer.Length && !(base <= k < base + |item|) :: buffer[k] == old(buffer[k])
    {
      for j := 0 to |item|
        invariant buffer[base..base + j] == item[..j]
        invariant forall k | 0 <= k < buffer.Length && !(base <= k < base + j) :: buffer[k] == old(buffer[k])
      {
        buffer[base + j] := item[j];
      }
    }

    /** One pass of osal_queue_send; Done has also signalled not_empty. */
    method SendPass(item: seq<byte>, noWait: bool) returns (p: Pass)
      requires Valid() && |item| == itemSize
      modifies this`count, this`tail, buffer
      ensures Valid()
      ensures (p, Contents()) == SendResult(capacity, old(Contents()), item, noWait)
      ensures p == Done <==> |old(Contents())| < capacity
      ensures p == Sleep <==> |old(Contents())| == capacity && !noWait
      ensures p == GiveUp(ResourceBusy) <==> |old(Contents())| == capacity && noWait
      ensures Contents() == if p == Done then old(Contents()) + [item] else old(Contents())
    {
      if count == capacity {
        return if noWait then GiveUp(ResourceBusy) else Sleep;
      }
      hide Window;
      WindowPush(Cells(), head, count, item);
      EndMoves(head, count, capacity);
      WriteCell(tail, item);
      tail := Advance(tail, capacity);
      count := count + 1;
      return Done;
    }

    /** One pass of osal_queue_receive; Done has also signalled not_full. */
    method ReceivePass(noWait: bool) returns (p: Pass, item: seq<byte>)
      requires Valid()
      modifies this`count, this`head
      ensures Valid()
      ensures (p, Contents()) == ReceiveResult(old(Contents()), noWait)
      ensures p == Done <==> |old(Contents())| > 0
      ensures p == Sleep <==> |old(Contents())| == 0 && !noWait
      ensures p == GiveUp(Timeout) <==> |old(Contents())| == 0 && noWait
      ensures if p == Done then old(Contents()) == [item] + Contents() else Contents() == old(Contents())
    {
      if count == 0 {
        p := if noWait then GiveUp(Timeout) else Sleep;
        item := [];
        return;
      }
      hide Window;
      item := Cell(head);
      WindowPop(Cells(), head, count);
      PopMoves(head, count, capacity);
      head := Advance(head, capacity);
      count := count - 1;
      return Done, item;
    }
  }

  /** osal_queue_create: a zero size or no place for the handle is refused, and so is a queue without memory. */
  method Create(queueLength: nat, itemSize: nat, outGiven: bool, memory: bool) returns (status: Status, q: MockQueue?)
    ensures status == (if queueLength == 0 || itemSize == 0 || !outGiven then InvalidParam
                       else if !memory then NoMemory else Ok)
    ensures status == Ok <==> q != null
    ensures q != null ==> q.Valid() && q.Contents() == [] && q.capacity == queueLength && q.itemSize == itemSize
  {
    if queueLength == 0 || itemSize == 0 || !outGiven { return InvalidParam, null; }
    if !memory { return NoMemory, null; }
    q := new MockQueue(queueLength, itemSize);
    status := Ok;
  }
}
