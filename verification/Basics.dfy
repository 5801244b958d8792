/** Shared vocabulary: bytes, machine widths, and the usual option type. */
module Basics {
  datatype Option<+T> = None | Some(value: T)

  type byte = b: int | 0 <= b < 0x100

  const TWO_31: int := 0x8000_0000
  const TWO_32: int := 0x1_0000_0000
  const TWO_63: int := 0x8000_0000_0000_0000
  const TWO_64: int := 0x1_0000_0000_0000_0000

  type uint32 = x: int | 0 <= x < TWO_32
  type uint64 = x: int | 0 <= x < TWO_64
  type int32 = x: int | -TWO_31 <= x < TWO_31

  function Min(a: int, b: int): int { if a < b then a else b }

  /** Go's int64(v) for an unsigned 64-bit v: two's complement reinterpretation. */
  function AsInt64(v: uint64): int { if v < TWO_63 then v else v - TWO_64 }

  /** Go's uint32(v): the low 32 bits. */
  function AsUint32(v: uint64): uint32 { v % TWO_32 }

  /** Go's int32(v): the low 32 bits, read as two's complement. */
  function AsInt32(v: uint64): int32 {
    var low := v % TWO_32;
    if low < TWO_31 then low else low - TWO_32
  }

  /** C's (uint64_t)(int64_t)x for a 32-bit x: sign extension. */
  function SignExtend(x: int32): uint64 { if x >= 0 then x else x + TWO_64 }

  /** The conversions keep the value modulo the width, within the range of their type. */
  lemma Conversions(v: uint64, x: int32)
    ensures (AsInt64(v) - v) % 0x1_0000_0000_0000_0000 == 0
    ensures -0x8000_0000_0000_0000 <= AsInt64(v) < 0x8000_0000_0000_0000
    ensures (AsUint32(v) - v) % 0x1_0000_0000 == 0 && 0 <= AsUint32(v) < 0x1_0000_0000
    ensures (AsInt32(v) - v) % 0x1_0000_0000 == 0 && -0x8000_0000 <= AsInt32(v) < 0x8000_0000
    ensures (SignExtend(x) - x) % 0x1_0000_0000_0000_0000 == 0 && 0 <= SignExtend(x) < 0x1_0000_0000_0000_0000
  {
  }

  /** The bytes of an ASCII literal. */
  function Ascii(s: string): (b: seq<byte>)
    ensures |b| == |s|
    ensures forall i | 0 <= i < |s| && s[i] as int < 0x100 :: b[i] == s[i] as int
  {
    seq(|s|, i requires 0 <= i < |s| => s[i] as int % 0x100)
  }

  const LOW_POWER: seq<byte> := Ascii("LOW_POWER")
  const WARNING: seq<byte> := Ascii("WARNING")
  const ERROR: seq<byte> := Ascii("ERROR")
  const NORMAL: seq<byte> := Ascii("NORMAL")

  /** A C string up to its terminator. */
  type CString = s: seq<byte> | 0 !in s

  /** telemetry_data_t: char pointers may be null, floats are kept as their raw 32-bit patterns. */
  datatype Telemetry = Telemetry(
    deviceId: Option<CString>, timestamp: uint32, seqNo: uint32, firmware: Option<CString>, bootCount: uint32,
    temperature: uint32, humidity: uint32, voltage: uint32, level: uint32, rssi: int32, interval: uint32,
    state: Option<CString>, uptime: uint32, freeHeap: uint32)
}
