/**
 * The two ring buffers of the edge: telemetry_buffer.c (head is the oldest
 * slot, strings copied into per-slot storage) and the PSRAM buffer of
 * main.cpp (head is the next slot to write).
 */
module Rings {
  import opened Basics
  import opened BoundedFifo

  const CAPACITY: nat := 32

  // ---------------------------------------------------------------------
  // C strings in fixed storage
  // ---------------------------------------------------------------------

  /** The C string at the start of a character array. */
  function Terminated(s: seq<byte>): CString
    decreases |s|
  {
    if s == [] || s[0] == 0 then [] else [s[0]] + Terminated(s[1..])
  }

  lemma {:induction false} TerminatedAt(s: seq<byte>, k: nat)
    requires k < |s| && s[k] == 0 && 0 !in s[..k]
    ensures Terminated(s) == s[..k]
    decreases k
  {
    if k > 0 {
      assert s[0] in s[..k];
      assert s[1..][..k - 1] == s[..k][1..];
      TerminatedAt(s[1..], k - 1);
      assert s[..k] == [s[0]] + s[1..][..k - 1];
    }
  }

  function Clipped(s: CString, n: nat): CString { if |s| <= n then s else Take(s, n) }

  function Take(s: CString, n: nat): (t: CString)
    requires n <= |s|
    ensures t == s[..n]
  {
    assert forall i | 0 <= i < n :: s[..n][i] == s[i];
    s[..n]
  }

  function Row(a: array2<byte>, i: nat): (s: seq<byte>)
    requires i < a.Length0
    reads a
    ensures |s| == a.Length1
    ensures forall j | 0 <= j < |s| :: s[j] == a[i, j]
  {
    seq(a.Length1, j requires 0 <= j < a.Length1 reads a => a[i, j])
  }

  /** strncpy(dst[row], src, n): copies up to n bytes and pads the rest with zeros. */
  method StrNCpy(dst: array2<byte>, row: nat, src: CString, n: nat)
    requires row < dst.Length0 && n < dst.Length1 && dst[row, n] == 0
    modifies dst
    ensures Terminated(Row(dst, row)) == Clipped(src, n)
    ensures forall i | 0 <= i < dst.Length0 && i != row :: Row(dst, i) == old(Row(dst, i))
    ensures forall i | 0 <= i < dst.Length0 :: dst[i, n] == old(dst[i, n])
  {
    for j := 0 to n
      invariant forall k | 0 <= k < j :: dst[row, k] == if k < |src| then src[k] else 0
      invariant dst[row, n] == 0
      invariant forall i, k | 0 <= i < dst.Length0 && 0 <= k < dst.Length1 && i != row :: dst[i, k] == old(dst[i, k])
    {
      dst[row, j] := if j < |src| then src[j] else 0;
    }
    var len := Min(|src|, n);
    assert Row(dst, row)[..len] == src[..len];
    assert forall k | 0 <= k < len :: src[..len][k] in src;
    TerminatedAt(Row(dst, row), len);
  }

  // ---------------------------------------------------------------------
  // telemetry_buffer.c
  // ---------------------------------------------------------------------

  /** A stored item: its numbers, and for each char pointer whether it points into the slot's own storage or is null. */
  datatype Slot = Slot(numbers: Telemetry, id: bool, fw: bool, st: bool)

  /** What the ring keeps of a record. */
  function Clip(d: Telemetry): Telemetry {
    d.(deviceId := if d.deviceId.Some? then Some(Clipped(d.deviceId.value, 31)) else None,
       firmware := if d.firmware.Some? then Some(Clipped(d.firmware.value, 15)) else None,
       state := if d.state.Some? then Some(Clipped(d.state.value, 15)) else None)
  }

  /** kept is given cut behind its first n bytes; a null pointer stays null. */
  predicate Cut(kept: Option<CString>, given: Option<CString>, n: nat) {
    if given.None? then kept.None?
    else kept.Some? && kept.value <= given.value && |kept.value| == if |given.value| < n then |given.value| else n
  }

  /** The first 31, 15 and 15 bytes of the strings, and every number. */
  lemma ClipMeans(d: Telemetry)
    ensures var c := Clip(d);
            && Cut(c.deviceId, d.deviceId, 31) && Cut(c.firmware, d.firmware, 15) && Cut(c.state, d.state, 15)
            && c.timestamp == d.timestamp && c.seqNo == d.seqNo && c.bootCount == d.bootCount
            && c.temperature == d.temperature && c.humidity == d.humidity && c.voltage == d.voltage
            && c.level == d.level && c.rssi == d.rssi && c.interval == d.interval
            && c.uptime == d.uptime && c.freeHeap == d.freeHeap
  {
  }

  function Shown(slot: Slot, id: seq<byte>, fw: seq<byte>, st: seq<byte>): Telemetry {
    slot.numbers.(deviceId := if slot.id then Some(Terminated(id)) else None,
                  firmware := if slot.fw then Some(Terminated(fw)) else None,
                  state := if slot.st then Some(Terminated(st)) else None)
  }

  class TelemetryRing {
    const items: array<Slot>
    const deviceIdStorage: array2<byte>
    const fwVersionStorage: array2<byte>
    const stateStorage: array2<byte>
    var head: nat
    var tail: nat
    var count: nat

    /** The stores have their C dimensions, and no string fills its row: the last byte is never written. */
    ghost predicate Stores()
      reads items, deviceIdStorage, fwVersionStorage, stateStorage
    {
      && items.Length == CAPACITY
      && deviceIdStorage.Length0 == CAPACITY && deviceIdStorage.Length1 == 32
      && fwVersionStorage.Length0 == CAPACITY && fwVersionStorage.Length1 == 16
      && stateStorage.Length0 == CAPACITY && stateStorage.Length1 == 16
      && deviceIdStorage != fwVersionStorage && deviceIdStorage != stateStorage && fwVersionStorage != stateStorage
      && (forall i | 0 <= i < CAPACITY :: deviceIdStorage[i, 31] == 0)
      && (forall i | 0 <= i < CAPACITY :: fwVersionStorage[i, 15] == 0)
      && (forall i | 0 <= i < CAPACITY :: stateStorage[i, 15] == 0)
    }

    ghost predicate Valid()
      reads this, items, deviceIdStorage, fwVersionStorage, stateStorage
    {
      && Stores()
      && head < CAPACITY && count <= CAPACITY && tail == Wrap(head + count, CAPACITY)
    }

    ghost function Repr(): set<object> { {this, items, deviceIdStorage, fwVersionStorage, stateStorage} }

    /** The record a reader sees in slot i, strings read through the pointers. */
    function At(i: nat): Telemetry
      requires Stores() && i < CAPACITY
      reads items, deviceIdStorage, fwVersionStorage, stateStorage
    {
      Shown(items[i], Row(deviceIdStorage, i), Row(fwVersionStorage, i), Row(stateStorage, i))
    }

    ghost function Cells(): (s: seq<Telemetry>)
      requires Stores()
      reads items, deviceIdStorage, fwVersionStorage, stateStorage
      ensures |s| == CAPACITY && forall i | 0 <= i < CAPACITY :: s[i] == At(i)
    {
      seq(CAPACITY, i requires 0 <= i < CAPACITY && Stores()
                    reads items, deviceIdStorage, fwVersionStorage, stateStorage => At(i))
    }

    /** Oldest first. */
    ghost function Contents(): seq<Telemetry>
      requires Valid()
      reads this, items, deviceIdStorage, fwVersionStorage, stateStorage
    {
      Window(Cells(), head, count)
    }

    /** telemetry_buffer_init: memset to zero. */
    constructor ()
      ensures Valid() && Contents() == []
      ensures fresh(items) && fresh(deviceIdStorage) && fresh(fwVersionStorage) && fresh(stateStorage)
    {
      var zero := Telemetry(None, 0, 0, None, 0, 0, 0, 0, 0, 0, 0, None, 0, 0);
      items := new Slot[CAPACITY](_ => Slot(zero, false, false, false));
      deviceIdStorage := new byte[CAPACITY, 32]((_, _) => 0);
      fwVersionStorage := new byte[CAPACITY, 16]((_, _) => 0);
      stateStorage := new byte[CAPACITY, 16]((_, _) => 0);
      head, tail, count := 0, 0, 0;
    }

    method Push(data: Telemetry) returns (ok: bool)
      requires Valid()
      modifies Repr()
      ensures Valid() && ok && Contents() == BoundedFifo.Push(CAPACITY, old(Contents()), Clip(data))
    {
      hide Window, BoundedFifo.Push, Clip, Row, Shown;
      WindowPush(Cells(), head, count, Clip(data));
      EndMoves(head, count, CAPACITY);
      if count == CAPACITY {
        head := Advance(head, CAPACITY);
        count := count - 1;
      }
      var idx := tail;
      Store(idx, data);
      tail := Advance(tail, CAPACITY);
      count := count + 1;
      return true;
    }

    /** items[idx] = *data, then the deep copies of the non-null strings. */
    method Store(idx: nat, data: Telemetry)
      requires Stores() && idx < CAPACITY
      modifies items, deviceIdStorage, fwVersionStorage, stateStorage
      ensures Stores() && Cells() == old(Cells())[idx := Clip(data)]
    {
      items[idx] := Slot(data.(deviceId := None, firmware := None, state := None), false, false, false);
      if data.deviceId.Some? {
        StrNCpy(deviceIdStorage, idx, data.deviceId.value, 31);
        items[idx] := items[idx].(id := true);
      }
      if data.firmware.Some? {
        StrNCpy(fwVersionStorage, idx, data.firmware.value, 15);
        items[idx] := items[idx].(fw := true);
      }
      if data.state.Some? {
        StrNCpy(stateStorage, idx, data.state.value, 15);
        items[idx] := items[idx].(st := true);
      }
    }

    method Peek() returns (r: Option<Telemetry>)
      requires Valid()
      ensures r == if |Contents()| == 0 then None else Some(Contents()[0])
    {
      if count == 0 { return None; }
      return Some(At(head));
    }

    method Pop() returns (ok: bool)
      requires Valid()
      modifies this`head, this`count
      ensures Valid() && ok == (|old(Contents())| > 0)
      ensures Contents() == if ok then old(Contents())[1..] else old(Contents())
    {
      if count == 0 { return false; }
      WindowPop(Cells(), head, count);
      PopMoves(head, count, CAPACITY);
      head := Advance(head, CAPACITY);
      count := count - 1;
      return true;
    }

    method Count() returns (n: nat)
      requires Valid()
      ensures n == |Contents()|
    {
      return count;
    }

    method IsEmpty() returns (empty: bool)
      requires Valid()
      ensures empty <==> Contents() == []
    {
      return count == 0;
    }
  }

  // ---------------------------------------------------------------------
  // The PSRAM buffer
  // ---------------------------------------------------------------------

  class PsramRing<T> {
    const items: array<T>
    var head: nat
    var tail: nat
    var count: nat

    ghost predicate Valid()
      reads this, items
    {
      && count <= items.Length
      && (items.Length == 0 ==> head == tail == 0)
      && (items.Length > 0 ==> tail < items.Length && head == Wrap(tail + count, items.Length))
    }

    ghost function Contents(): seq<T>
      requires Valid()
      reads this, items
    {
      Window(items[..], tail, count)
    }

    /** init_psram_buffer; `items` is the block it obtained, empty when both allocations failed. */
    constructor (items: array<T>)
      ensures Valid() && Contents() == [] && this.items == items
    {
      this.items := items;
      head, tail, count := 0, 0, 0;
    }

    method Push(data: T)
      requires Valid()
      modifies this, items
      ensures Valid() && Contents() == BoundedFifo.Push(items.Length, old(Contents()), data)
    {
      if items.Length == 0 { return; }
      hide Window, BoundedFifo.Push;
      WindowPush(items[..], tail, count, data);
      EndMoves(tail, count, items.Length);
      ghost var was := items[..];
      items[head] := data;
      assert items[..] == was[head := data];
      head := Advance(head, items.Length);
      if count < items.Length {
        count := count + 1;
      } else {
        tail := Advance(tail, items.Length);
      }
    }
  }
}
