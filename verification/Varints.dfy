/**
 * Base-128 varints: the C encoder's byte string, Go's binary.ReadUvarint, and
 * the theory that joins them (section "Base 128 Varints" of the Protocol
 * Buffers encoding guide).
 */
module Varints {
  import opened Basics

  /** The bytes encode_varint writes: low seven bits first, continuation bit on all but the last. */
  function Varint(v: nat): (s: seq<byte>)
    ensures |s| >= 1
  {
    if v < 128 then [v] else [v % 128 + 128] + Varint(v / 128)
  }

  function Pow128(n: nat): (p: nat)
    ensures p >= 1
  {
    if n == 0 then 1 else 128 * Pow128(n - 1)
  }

  /** Outcome of binary.ReadUvarint; `next` is the position after the last byte read. */
  datatype Read = Ok(value: nat, next: nat) | Eof | Truncated | Overflow

  /** Largest value plus one that still fits after i bytes: 2^(64 - 7i). */
  function Cap(i: nat): (c: nat)
    requires i <= 9
    ensures c >= 2 && (i < 9 ==> c >= 256)
    decreases 9 - i
  {
    if i == 9 then 2 else 128 * Cap(i + 1)
  }

  /** ReadUvarint from `pos`, i bytes of the varint having been consumed already. */
  function ReadAt(data: seq<byte>, pos: nat, i: nat): (r: Read)
    requires i <= 10
    ensures r.Ok? ==> i < 10 && pos < r.next <= |data| && r.next <= pos + 10 - i && r.value < Cap(i)
    decreases 10 - i, data  // data keeps the solver from unrolling the literal i == 0
  {
    if i == 10 then Overflow
    else if pos >= |data| then if i == 0 then Eof else Truncated
    else if data[pos] < 128 then
      if i == 9 && data[pos] > 1 then Overflow else Ok(data[pos], pos + 1)
    else
      match ReadAt(data, pos + 1, i + 1)
      case Ok(v, n) => Ok(data[pos] - 128 + 128 * v, n)
      case e => e
  }

  function ReadUvarint(data: seq<byte>, pos: nat): (r: Read)
    ensures r.Ok? ==> pos < r.next <= |data| && r.next <= pos + 10 && r.value < TWO_64
  {
    CapZero();
    ReadAt(data, pos, 0)
  }

  lemma CapZero()
    ensures Cap(0) == TWO_64
  {
    assert Cap(6) == 128 * 128 * 128 * 2;
    assert Cap(3) == 128 * 128 * 128 * Cap(6);
  }

  /** A successful read depends only on the bytes it consumed. */
  lemma {:induction false} ReadLocal(data: seq<byte>, pos: nat, i: nat, other: seq<byte>, at: nat)
    requires i <= 10 && ReadAt(data, pos, i).Ok?
    requires var k := ReadAt(data, pos, i).next - pos;
             at + k <= |other| && other[at..at + k] == data[pos..pos + k]
    ensures ReadAt(other, at, i) == Ok(ReadAt(data, pos, i).value, at + ReadAt(data, pos, i).next - pos)
    decreases 10 - i
  {
    var k := ReadAt(data, pos, i).next - pos;
    assert other[at] == other[at..at + k][0] == data[pos..pos + k][0] == data[pos];
    if data[pos] >= 128 {
      assert other[at + 1..at + k] == other[at..at + k][1..] == data[pos..pos + k][1..] == data[pos + 1..pos + k];
      ReadLocal(data, pos + 1, i + 1, other, at + 1);
    }
  }

  /** Prepending bytes only shifts positions, for failures as well as successes. */
  lemma {:induction false} ReadShift(a: seq<byte>, b: seq<byte>, pos: nat, i: nat)
    requires i <= 10
    ensures var r := ReadAt(b, pos, i);
            ReadAt(a + b, |a| + pos, i) == if r.Ok? then Ok(r.value, |a| + r.next) else r
    decreases 10 - i
  {
    if i < 10 && pos < |b| {
      assert (a + b)[|a| + pos] == b[pos];
      if b[pos] >= 128 { ReadShift(a, b, pos + 1, i + 1); }
    }
  }

  /** Decoding inverts encoding and leaves whatever follows untouched. */
  lemma {:induction false} ReadInverts(v: nat, data: seq<byte>, pos: nat, i: nat)
    requires i <= 9 && v < Cap(i)
    requires pos + |Varint(v)| <= |data| && data[pos..pos + |Varint(v)|] == Varint(v)
    ensures ReadAt(data, pos, i) == Ok(v, pos + |Varint(v)|)
    decreases 10 - i
  {
    var n := |Varint(v)|;
    assert data[pos] == data[pos..pos + n][0];
    if v >= 128 {
      assert Varint(v)[1..] == Varint(v / 128);
      assert data[pos + 1..pos + n] == data[pos..pos + n][1..];
      ReadInverts(v / 128, data, pos + 1, i + 1);
    }
  }

  /** The same, from the start of a varint and for every 64-bit value. */
  lemma ReadVarint(v: nat, data: seq<byte>, pos: nat)
    requires v < TWO_64
    requires pos + |Varint(v)| <= |data| && data[pos..pos + |Varint(v)|] == Varint(v)
    ensures ReadUvarint(data, pos) == Ok(v, pos + |Varint(v)|)
  {
    CapZero();
    ReadInverts(v, data, pos, 0);
  }

  /** n bytes are enough exactly for the values below 128^n: the encoding is as short as possible. */
  lemma {:induction false} VarintLength(v: nat, n: nat)
    requires n >= 1
    ensures |Varint(v)| <= n <==> v < Pow128(n)
    decreases v
  {
    if v >= 128 {
      if n == 1 {
        assert Pow128(1) == 128 * Pow128(0);
      } else {
        VarintLength(v / 128, n - 1);
      }
    } else {
      PowGrows(n);
    }
  }

  lemma {:induction false} PowGrows(n: nat)
    requires n >= 1
    ensures Pow128(n) >= 128
  {
    if n > 1 { PowGrows(n - 1); }
  }

  /** Every 64-bit value takes 1 to 10 bytes, every 32-bit value at most 5. */
  lemma VarintWidths(v: nat)
    ensures v < TWO_64 ==> 1 <= |Varint(v)| <= 10
    ensures v < TWO_32 ==> |Varint(v)| <= 5
    ensures |Varint(v)| == 1 <==> v < 128
  {
    var p4 := Pow128(4);
    assert Pow128(2) == 128 * Pow128(1) == 16384;
    assert p4 == 128 * Pow128(3) == 128 * (128 * 16384) == 268435456;
    assert Pow128(6) == 128 * Pow128(5) == 128 * (128 * p4);
    assert Pow128(8) == 128 * Pow128(7) == 128 * (128 * Pow128(6)) == p4 * p4;
    assert Pow128(10) == 128 * Pow128(9) == 128 * (128 * Pow128(8));
    VarintLength(v, 10);
    VarintLength(v, 5);
    VarintLength(v, 1);
    assert Pow128(1) == 128;
  }

  /** No accepted byte string for v is shorter than the encoder's, and only a minimal one equals it. */
  lemma {:induction false} ReadMinimal(data: seq<byte>, pos: nat, i: nat)
    requires i <= 10 && ReadAt(data, pos, i).Ok?
    ensures var Ok(v, n) := ReadAt(data, pos, i);
            && |Varint(v)| <= n - pos
            && (data[pos..n] == Varint(v) <==> n == pos + 1 || data[n - 1] != 0)
    decreases 10 - i
  {
    var Ok(v, n) := ReadAt(data, pos, i);
    if data[pos] >= 128 {
      ReadMinimal(data, pos + 1, i + 1);
      var w := ReadAt(data, pos + 1, i + 1).value;
      assert v == data[pos] - 128 + 128 * w;
      assert data[pos..n] == [data[pos]] + data[pos + 1..n];
      if v >= 128 {
        assert v / 128 == w && v % 128 + 128 == data[pos];
        assert data[pos..n] == Varint(v) <==> data[pos + 1..n] == Varint(w);
        if n == pos + 2 { assert w == data[pos + 1] != 0; }
      } else {
        assert w == 0 && |data[pos..n]| > 1;
        assert data[pos + 1..n] == Varint(0) <==> n == pos + 2 && data[n - 1] == 0;
      }
    } else {
      assert data[pos..n] == [data[pos]];
    }
  }

  /** The code is prefix-free: a stream of varints splits in only one way. */
  lemma {:induction false} PrefixFree(u: nat, v: nat, s: seq<byte>, t: seq<byte>)
    requires Varint(u) + s == Varint(v) + t
    ensures u == v && s == t
    decreases u
  {
    assert (Varint(u) + s)[0] == Varint(u)[0] && (Varint(v) + t)[0] == Varint(v)[0];
    if u >= 128 {
      assert Varint(u) + s == [u % 128 + 128] + (Varint(u / 128) + s);
      assert Varint(v) + t == [v % 128 + 128] + (Varint(v / 128) + t);
      assert Varint(u / 128) + s == (Varint(u) + s)[1..] == (Varint(v) + t)[1..] == Varint(v / 128) + t;
      PrefixFree(u / 128, v / 128, s, t);
    } else {
      assert s == (Varint(u) + s)[1..] == (Varint(v) + t)[1..] == t;
    }
  }

  // ---------------------------------------------------------------------
  // What is a varint, byte by byte
  // ---------------------------------------------------------------------

  /** Bytes pos to n are a varint of at most room bytes: only the last is below 128, and a tenth one is 0 or 1. */
  predicate VarintWithin(data: seq<byte>, pos: nat, n: nat, room: nat) {
    && pos < n <= |data| && n - pos <= room
    && (forall j | pos <= j < n - 1 :: data[j] >= 128) && data[n - 1] < 128
    && (n - pos == room ==> data[n - 1] <= 1)
  }

  /** Bytes pos to n are a varint that Go reads. */
  predicate VarintAt(data: seq<byte>, pos: nat, n: nat) { VarintWithin(data, pos, n, 10) }

  /** Its value: seven bits a byte, the lowest first. */
  function VarintSum(data: seq<byte>, pos: nat, n: nat): nat
    requires pos <= n <= |data|
    decreases n - pos
  {
    if pos == n then 0 else data[pos] % 128 + 128 * VarintSum(data, pos + 1, n)
  }

  lemma {:induction false} ReadsWithin(data: seq<byte>, pos: nat, i: nat, n: nat)
    requires i <= 10
    ensures ReadAt(data, pos, i).Ok? && ReadAt(data, pos, i).next == n <==> VarintWithin(data, pos, n, 10 - i)
    ensures ReadAt(data, pos, i).Ok? && ReadAt(data, pos, i).next == n ==>
              ReadAt(data, pos, i).value == VarintSum(data, pos, n)
    decreases 10 - i
  {
    if i < 10 && pos < |data| {
      if data[pos] >= 128 {
        ReadsWithin(data, pos + 1, i + 1, n);
      } else if n == pos + 1 {
        assert VarintSum(data, n, n) == 0;
      }
    }
  }

  /** Reading a varint, in terms of the bytes alone. */
  lemma ReadsExactly(data: seq<byte>, pos: nat)
    ensures forall v: nat, n: nat ::
              ReadUvarint(data, pos) == Ok(v, n) <==> VarintAt(data, pos, n) && v == VarintSum(data, pos, n)
    ensures ReadUvarint(data, pos).Ok? <==> exists n: nat :: VarintAt(data, pos, n)
  {
    forall n: nat
      ensures ReadUvarint(data, pos).Ok? && ReadUvarint(data, pos).next == n <==> VarintAt(data, pos, n)
      ensures VarintAt(data, pos, n) ==> ReadUvarint(data, pos).value == VarintSum(data, pos, n)
    {
      ReadsWithin(data, pos, 0, n);
    }
    if ReadUvarint(data, pos).Ok? { assert VarintAt(data, pos, ReadUvarint(data, pos).next); }
  }

  /** All but the last byte of an encoding ask for more. */
  lemma {:induction false} VarintFront(v: nat)
    ensures forall j | 0 <= j < |Varint(v)| - 1 :: Varint(v)[j] >= 128
    decreases v
  {
    if v >= 128 { VarintFront(v / 128); }
  }
}
