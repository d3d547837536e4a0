/** The scrollback store: a fixed array written as a circle, which must always
    read back as the most recent bytes ever written to it. */
module Scrollback {
  import opened Common

  /** `s` with the elements from index `at` on overwritten by `p`. */
  function Splice<T>(s: seq<T>, at: nat, p: seq<T>): seq<T>
    requires at + |p| <= |s|
  {
    s[..at] + p + s[at + |p|..]
  }

  /** Copies `src` into `dst[at..]`. No copy in this file runs past the end. */
  method CopyInto(dst: array<byte>, at: nat, src: Bytes)
    requires at + |src| <= dst.Length
    modifies dst
    ensures dst[..] == Splice(old(dst[..]), at, src)
  {
    forall i | 0 <= i < |src| {
      dst[at + i] := src[i];
    }
  }

  /** The circle read from `head`, wrapping once. */
  function Unrolled<T>(circle: seq<T>, head: nat): seq<T>
    requires head <= |circle|
  {
    circle[head..] + circle[..head]
  }

  /** Overwriting without reaching the end: the circle is `x + y + z`, with `y` replaced. */
  lemma OverwriteInPlace<T>(x: seq<T>, y: seq<T>, z: seq<T>, p: seq<T>)
    requires |p| == |y|
    ensures Splice(x + y + z, |x|, p) == x + p + z
    ensures z == [] ==> Unrolled(x + p + z, 0) == (Unrolled(x + y + z, |x|) + p)[|p|..]
    ensures Unrolled(x + p + z, |x| + |y|) == (Unrolled(x + y + z, |x|) + p)[|p|..]
  {
    assert x + y + z == x + (y + z);
    assert Unrolled(x + y + z, |x|) + p == y + (z + x + p);
  }

  /** Overwriting past the end: `z` is replaced by `q`, then `x` at the front by `r`. */
  lemma OverwriteWrapped<T>(x: seq<T>, y: seq<T>, z: seq<T>, q: seq<T>, r: seq<T>)
    requires |q| == |z| && |r| == |x|
    ensures Splice(x + y + z, |x + y|, q) == x + y + q
    ensures Splice(x + y + q, 0, r) == r + y + q
    ensures Unrolled(r + y + q, |x|) == (Unrolled(x + y + z, |x + y|) + (q + r))[|q + r|..]
  {
    assert Unrolled(x + y + z, |x + y|) + (q + r) == (z + x) + (y + q + r);
    assert x + y + q == x + (y + q);
    assert r + y + q == r + (y + q);
  }

  lemma OverwriteAt<T>(was: seq<T>, head: nat, p: seq<T>)
    requires head < |was| && |p| <= |was| - head
    ensures Unrolled(Splice(was, head, p), if head + |p| == |was| then 0 else head + |p|)
         == (Unrolled(was, head) + p)[|p|..]
  {
    var x, y, z := was[..head], was[head..head + |p|], was[head + |p|..];
    assert was == x + y + z;
    OverwriteInPlace(x, y, z, p);
  }

  lemma OverwriteAround<T>(was: seq<T>, head: nat, p: seq<T>)
    requires head < |was| && |was| - head < |p| < |was|
    ensures Unrolled(Splice(Splice(was, head, p[..|was| - head]), 0, p[|was| - head..]), head + |p| - |was|)
         == (Unrolled(was, head) + p)[|p|..]
  {
    var first := |was| - head;
    var wrap := |p| - first;
    var x, y, z := was[..wrap], was[wrap..head], was[head..];
    assert was == x + y + z;
    assert p == p[..first] + p[first..];
    OverwriteWrapped(x, y, z, p[..first], p[first..]);
  }

  method Modulo(n: nat, c: nat) returns (r: nat)
    requires 0 < c && n < 2 * c
    ensures r == if n < c then n else n - c
  {
    r := n % c;
  }

  /** Overwrites the oldest bytes, starting at `head`, and returns the index of
      the byte that is oldest afterwards. */
  method WriteAtHead(buf: array<byte>, head: nat, p: Bytes) returns (next: nat)
    requires head < buf.Length
    requires |p| < buf.Length
    modifies buf
    ensures next < buf.Length
    ensures Unrolled(buf[..], next) == (old(Unrolled(buf[..], head)) + p)[|p|..]
  {
    var c := buf.Length;
    var pos := Modulo(head + c, c);
    next := Modulo(pos + |p|, c);
    var first := c - pos;
    if |p| <= first {
      OverwriteAt(buf[..], head, p);
      CopyInto(buf, pos, p);
    } else {
      OverwriteAround(buf[..], head, p);
      CopyInto(buf, pos, p[..first]);
      CopyInto(buf, 0, p[first..]);
    }
  }

  // The three ways `Write` can go, each as a fact about what the buffer then holds.

  lemma Replaced<T>(was: seq<T>, before: seq<T>, p: seq<T>)
    requires |before| <= |was| <= |p|
    ensures Unrolled(Splice(was, 0, p[|p| - |was|..]), 0) == Tail(before + p, |was|)
  {
    var kept := p[|p| - |was|..];
    assert Splice(was, 0, kept) == kept;
    assert Unrolled(kept, 0) == kept;
    if before == [] {
      assert before + p == p;
    } else {
      DropPast(before, p, |before| + |p| - |was|);
    }
  }

  lemma Grown<T>(was: seq<T>, size: nat, p: seq<T>)
    requires size + |p| <= |was|
    ensures Splice(was, size, p)[..size + |p|] == was[..size] + p == Tail(was[..size] + p, |was|)
    ensures size + |p| == |was| ==> Unrolled(Splice(was, size, p), 0) == was[..size] + p
  {
  }

  lemma Shifted<T>(before: seq<T>, p: seq<T>)
    requires |p| <= |before|
    ensures (before + p)[|p|..] == Tail(before + p, |before|)
  {
  }

  class RingBuffer {
    const buf: array<byte>
    var head: nat
    var size: nat
    // Every byte ever written, oldest first.
    ghost var written: Bytes

    /** What the fields hold, oldest byte first. */
    ghost function Contents(): Bytes
      reads this, buf
      requires head <= buf.Length && size <= buf.Length
    {
      if size < buf.Length then buf[..size] else Unrolled(buf[..], head)
    }

    ghost predicate Valid()
      reads this, buf
    {
      && head < buf.Length
      && size <= buf.Length
      && (size < buf.Length ==> head == 0)
      && Contents() == Tail(written, buf.Length)
    }

    constructor (capacity: int)
      ensures Valid() && fresh(buf)
      ensures written == []
      ensures buf.Length == if capacity < 1 then 1 else capacity
    {
      buf := new byte[if capacity < 1 then 1 else capacity](_ => 0);
      head, size := 0, 0;
      written := [];
    }

    /** The chunk alone fills the buffer: keep its last bytes, in order. */
    method Replace(p: Bytes)
      requires Valid() && |p| >= buf.Length
      modifies this, buf
      ensures Valid() && written == old(written) + p
    {
      TailOfTail(written, p, buf.Length);
      Replaced(buf[..], Contents(), p);
      written := written + p;
      CopyInto(buf, 0, p[|p| - buf.Length..]);
      head := 0;
      size := buf.Length;
    }

    /** There is room at the end; `head` is 0 while the buffer grows. */
    method Grow(p: Bytes)
      requires Valid() && size + |p| <= buf.Length
      requires size < buf.Length
      modifies this, buf
      ensures Valid() && written == old(written) + p
      ensures size == old(size) + |p| && head == 0
    {
      TailOfTail(written, p, buf.Length);
      Grown(buf[..], size, p);
      written := written + p;
      CopyInto(buf, size, p);
      size := size + |p|;
    }

    /** The buffer is full: the oldest bytes go. */
    method Overwrite(p: Bytes)
      requires Valid() && size == buf.Length && |p| < buf.Length
      modifies this, buf
      ensures Valid() && written == old(written) + p
    {
      TailOfTail(written, p, buf.Length);
      Shifted(Contents(), p);
      written := written + p;
      var h := WriteAtHead(buf, head, p);
      head := h;
    }

    /** Appends `p`, evicting the oldest bytes. */
    method Write(p: Bytes) returns (n: nat)
      requires Valid()
      modifies this, buf
      ensures Valid()
      ensures written == old(written) + p
      ensures n == |p|
    {
      n := |p|;
      if |p| == 0 {
        assert written + p == written;
        return;
      }
      var c := buf.Length;
      if |p| >= c {
        Replace(p);
      } else if size < c {
        var free := c - size;
        if |p| <= free {
          Grow(p);
        } else {
          Grow(p[..free]);
          Overwrite(p[free..]);
          assert p == p[..free] + p[free..];
          ConcatAssociates(old(written), p[..free], p[free..]);
        }
      } else {
        Overwrite(p);
      }
    }

    /** A fresh copy of the last `Length` bytes ever written. */
    method Snapshot() returns (out: array<byte>)
      requires Valid()
      ensures fresh(out)
      ensures out[..] == Tail(written, buf.Length)
    {
      out := new byte[size](_ => 0);
      if size == 0 {
        return;
      }
      var c := buf.Length;
      if size < c {
        CopyInto(out, 0, buf[..size]);
        return;
      }
      var first := c - head;
      CopyInto(out, 0, buf[head..]);
      ghost var mid := out[..];
      assert mid[..first] == buf[head..];
      CopyInto(out, first, buf[..head]);
      assert out[..] == mid[..first] + buf[..head];
    }
  }

  /** What a buffer of capacity `cap` holds after the writes, one at a time. */
  function AfterWrites(cap: nat, writes: seq<Bytes>): Bytes {
    if writes == [] then [] else Tail(AfterWrites(cap, writes[..|writes| - 1]) + writes[|writes| - 1], cap)
  }

  /** How output is cut into writes never shows in the scrollback. */
  lemma {:induction false} WritesAreTail(cap: nat, writes: seq<Bytes>)
    ensures AfterWrites(cap, writes) == Tail(Join(writes), cap)
  {
    if writes != [] {
      var init, last := writes[..|writes| - 1], writes[|writes| - 1];
      WritesAreTail(cap, init);
      TailOfTail(Join(init), last, cap);
    }
  }
}
