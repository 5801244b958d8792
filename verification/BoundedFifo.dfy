/** The one meaning behind both ring buffers: a FIFO of fixed capacity that drops its oldest element. */
module BoundedFifo {
  /** Append x, dropping the oldest element when full; with no capacity nothing is kept. */
  function Push<T>(cap: nat, q: seq<T>, x: T): seq<T> {
    if cap == 0 then q
    else (if |q| < cap then q else q[1..]) + [x]
  }

  function Pushes<T>(cap: nat, q: seq<T>, xs: seq<T>): seq<T>
    decreases |xs|
  {
    if xs == [] then q else Pushes(cap, Push(cap, q, xs[0]), xs[1..])
  }

  function LastN<T>(s: seq<T>, n: nat): seq<T> { if |s| <= n then s else s[|s| - n..] }

  /** After any pushes exactly the last min(cap, n) elements remain, in order. */
  lemma {:induction false} PushesKeepLast<T>(cap: nat, q: seq<T>, xs: seq<T>)
    requires cap > 0 && |q| <= cap
    ensures Pushes(cap, q, xs) == LastN(q + xs, cap)
    decreases |xs|
  {
    if xs == [] {
      assert q + xs == q;
    } else {
      var p := Push(cap, q, xs[0]);
      PushesKeepLast(cap, p, xs[1..]);
      if |q| < cap {
        assert p + xs[1..] == q + xs;
      } else {
        assert p + xs[1..] == (q + xs)[1..];
      }
    }
  }

  /** (i + j) mod cap for indices below cap. */
  function Wrap(i: nat, cap: nat): (r: nat)
    requires 0 < cap && i < 2 * cap
    ensures r < cap
  {
    if i < cap then i else i - cap
  }

  lemma WrapIsMod(i: nat, cap: nat)
    requires 0 < cap && i < 2 * cap
    ensures Wrap(i, cap) == i % cap
  {
  }

  /** The index after i, as both rings compute it. */
  function Advance(i: nat, cap: nat): (r: nat)
    requires i < cap
    ensures r == Wrap(i + 1, cap)
  {
    WrapIsMod(i + 1, cap);
    (i + 1) % cap
  }

  /** The `count` cells of a circular store that start at `first`. */
  function Window<T>(cells: seq<T>, first: nat, count: nat): (w: seq<T>)
    requires count <= |cells| && (first < |cells| || count == 0)
    ensures |w| == count
    ensures forall k | 0 <= k < count :: w[k] == cells[Wrap(first + k, |cells|)]
  {
    seq(count, k requires 0 <= k < count && first < |cells| => cells[Wrap(first + k, |cells|)])
  }

  /** Writing behind the window and widening it appends; a full window first gives up its oldest cell. */
  lemma WindowPush<T>(cells: seq<T>, first: nat, count: nat, x: T)
    requires first < |cells| && count <= |cells|
    ensures var cap := |cells|;
            var last := Wrap(first + count, cap);
            Push(cap, Window(cells, first, count), x) ==
            if count < cap then Window(cells[last := x], first, count + 1)
            else Window(cells[last := x], Wrap(first + 1, cap), cap)
  {
    var cap := |cells|;
    var last := Wrap(first + count, cap);
    var w := Push(cap, Window(cells, first, count), x);
    if count < cap {
      var v := Window(cells[last := x], first, count + 1);
      forall k | 0 <= k < count + 1 ensures w[k] == v[k] {}
    } else {
      var v := Window(cells[last := x], Wrap(first + 1, cap), cap);
      forall k | 0 <= k < cap ensures w[k] == v[k] {
        assert v[k] == cells[last := x][Wrap(Wrap(first + 1, cap) + k, cap)];
      }
    }
  }

  lemma WindowPop<T>(cells: seq<T>, first: nat, count: nat)
    requires first < |cells| && 0 < count <= |cells|
    ensures Window(cells, first, count) == [cells[first]] + Window(cells, Wrap(first + 1, |cells|), count - 1)
  {
  }

  /** Where the end of a window moves when one element is pushed. */
  lemma EndMoves(first: nat, count: nat, cap: nat)
    requires first < cap && count <= cap
    ensures var next := Advance(Wrap(first + count, cap), cap);
            next == if count < cap then Wrap(first + (count + 1), cap) else Wrap(Advance(first, cap) + cap, cap)
  {
  }

  /** The end of a window stays put when its oldest element is popped. */
  lemma PopMoves(first: nat, count: nat, cap: nat)
    requires first < cap && 0 < count <= cap
    ensures Wrap(Advance(first, cap) + (count - 1), cap) == Wrap(first + count, cap)
  {
  }
}
