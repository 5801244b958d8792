/**
 * Go's bytes.Reader together with the helpers the decoder reads through. The
 * bits of a varint never overlap, so `x |= (b & 0x7f) << s` is written as an
 * addition with scale = 2^s.
 */
module GoReader {
  import opened Basics
  import opened Varints
  import opened Wire

  /** Reading the rest `r` after x has been accumulated at `scale` gives the whole read `w`. */
  predicate Agree(w: Read, r: Read, x: int, scale: int) {
    && w.Ok? == r.Ok?
    && (r.Ok? ==> w.value == x + scale * r.value && w.next == r.next)
  }

  lemma Distribute(scale: int, b: int, v: int)
    ensures scale * (b + 128 * v) == scale * b + (128 * scale) * v
    ensures scale >= 0 && b >= 0 ==> scale * b >= 0
  {
    assert scale * (128 * v) == (128 * scale) * v;
  }

  lemma ReadStep(w: Read, data: seq<byte>, pos: nat, i: nat, x: int, scale: int)
    requires i < 10 && pos < |data| && Agree(w, ReadAt(data, pos, i), x, scale)
    ensures data[pos] >= 128 ==>
              Agree(w, ReadAt(data, pos + 1, i + 1), x + scale * (data[pos] as int - 128), 128 * scale)
    ensures x >= 0 && scale >= 1 && data[pos] >= 128 ==> x + scale * (data[pos] as int - 128) >= 0
  {
    var b: int := data[pos];
    Distribute(scale, b - 128, 0);
    if b >= 128 && ReadAt(data, pos + 1, i + 1).Ok? {
      var v := ReadAt(data, pos + 1, i + 1).value;
      Distribute(scale, b - 128, v);
    }
  }

  /** bytes.Reader: the bytes and a position that may lie past their end. */
  class Reader {
    const data: seq<byte>
    var pos: nat

    constructor (data: seq<byte>)
      ensures this.data == data && pos == 0
    {
      this.data := data;
      pos := 0;
    }

    /** binary.ReadUvarint: on an error the position no longer matters to any caller. */
    method ReadUvarint() returns (r: Option<uint64>)
      modifies this
      ensures match Varints.ReadUvarint(data, old(pos))
              case Ok(v, n) => r == Some(v) && pos == n
              case _ => r == None
    {
      var x, scale := 0, 1;
      ghost var start := pos;
      var i := 0;
      while i < 10
        invariant 0 <= i <= 10 && pos == start + i && x >= 0 && scale >= 1
        invariant Agree(ReadAt(data, start, 0), ReadAt(data, pos, i), x, scale)
      {
        if pos >= |data| { return None; }
        var b: int := data[pos];
        ReadStep(ReadAt(data, start, 0), data, pos, i, x, scale);
        pos := pos + 1;
        if b < 0x80 {
          if i == 9 && b > 1 { return None; }
          return Some(x + scale * b);
        }
        x := x + scale * (b - 128);
        scale := 128 * scale;
        i := i + 1;
      }
      return None;
    }

    /** io.ReadFull into a fresh buffer of `n` bytes. */
    method ReadFull(n: nat) returns (r: Option<seq<byte>>)
      modifies this
      ensures old(pos) + n <= |data| ==> r == Some(data[old(pos)..old(pos) + n]) && pos == old(pos) + n
      ensures old(pos) + n > |data| ==> r == None
    {
      if pos + n > |data| { return None; }
      r := Some(data[pos..pos + n]);
      pos := pos + n;
    }

    /** readString, and the length-delimited prefix of the top-level cases. */
    method ReadString() returns (r: Option<seq<byte>>)
      modifies this
      ensures match LexBytes(data, 0, old(pos))
              case Field(e, n) => r == Some(e.payload.bytes) && pos == n
              case _ => r == None
    {
      var len := ReadUvarint();
      if len.None? { return None; }
      r := ReadFull(len.value);
    }

    /** binary.Read of a little-endian uint32. */
    method ReadFixed32() returns (r: Option<uint32>)
      modifies this
      ensures match LexBits(data, 0, old(pos))
              case Field(e, n) => r == Some(e.payload.raw) && pos == n
              case _ => r == None
    {
      var b := ReadFull(4);
      if b.None? { return None; }
      return Some(LittleEndian32(b.value));
    }

    /** Seek(int64(len), io.SeekCurrent). */
    method Seek(len: uint64) returns (ok: bool)
      modifies this
      ensures ok == (SeekTarget(old(pos), len) >= 0)
      ensures ok ==> pos == SeekTarget(old(pos), len)
      ensures var signed := if len < 0x8000_0000_0000_0000 then len else len - 0x1_0000_0000_0000_0000;
              && (old(pos) + signed < 0 ==> !ok)
              && (0 <= old(pos) + signed < 0x8000_0000_0000_0000 ==> ok && pos == old(pos) + signed)
    {
      var abs := pos + AsInt64(len);
      if abs >= TWO_63 { abs := abs - TWO_64; }
      if abs < 0 { return false; }
      pos := abs;
      return true;
    }

    method SkipField(wireType: nat) returns (ok: bool)
      modifies this
      ensures match LexSkip(data, 0, wireType, old(pos))
              case Field(_, n) => ok && pos == n
              case _ => !ok
    {
      if wireType == 0 {
        var v := ReadUvarint();
        return v.Some?;
      } else if wireType == 1 {
        var b := ReadFull(8);
        return b.Some?;
      } else if wireType == 2 {
        var len := ReadUvarint();
        if len.None? { return false; }
        ok := Seek(len.value);
      } else if wireType == 5 {
        var b := ReadFull(4);
        return b.Some?;
      } else {
        return false;
      }
    }
  }
}
