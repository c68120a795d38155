/** The stderr tail of ffmpeg: a wrap-around byte array that must always agree
    with "the last `size` bytes of everything ever written". */
module RingBuffers {
  import opened Collections

  newtype byte = x: int | 0 <= x < 256

  function Concat<T>(chunks: seq<seq<T>>): seq<T> {
    if chunks == [] then [] else Concat(chunks[..|chunks| - 1]) + chunks[|chunks| - 1]
  }

  /** What a buffer of capacity `n` holds after it was given `chunks` one by one,
      remembering nothing but its own contents in between. */
  function Remembered<T>(chunks: seq<seq<T>>, n: nat): seq<T> {
    if chunks == [] then []
    else Tail(Remembered(chunks[..|chunks| - 1], n) + chunks[|chunks| - 1], n)
  }

  lemma TailOfSum<T>(x: seq<T>, y: seq<T>, n: nat)
    requires n <= |y|
    ensures Tail(x + y, n) == Tail(y, n)
  {
    assert (x + y)[|x| + |y| - n..] == y[|y| - n..];
  }

  lemma Assoc<T>(x: seq<T>, y: seq<T>, z: seq<T>)
    ensures x + y + z == x + (y + z)
  {
  }

  /** Forgetting early does not change what is remembered later. */
  lemma TailAbsorbs<T>(s: seq<T>, p: seq<T>, n: nat)
    ensures Tail(Tail(s, n) + p, n) == Tail(s + p, n)
  {
    if |s| > n {
      var x, t := s[..|s| - n], s[|s| - n..];
      assert s == x + t;
      Assoc(x, t, p);
      TailOfSum(x, t + p, n);
    }
  }

  lemma {:induction false} RememberedIsTail<T>(chunks: seq<seq<T>>, n: nat)
    ensures Remembered(chunks, n) == Tail(Concat(chunks), n)
  {
    if chunks != [] {
      var front := chunks[..|chunks| - 1];
      RememberedIsTail(front, n);
      TailAbsorbs(Concat(front), chunks[|chunks| - 1], n);
    }
  }

  /** Two ways of cutting one byte stream into writes leave the same tail. */
  lemma ChunkingIndependent<T>(a: seq<seq<T>>, b: seq<seq<T>>, n: nat)
    requires Concat(a) == Concat(b)
    ensures Remembered(a, n) == Remembered(b, n)
  {
    RememberedIsTail(a, n);
    RememberedIsTail(b, n);
  }

  /** The bytes of a wrapped layout in chronological order. */
  ghost function Unroll<T>(buf: seq<T>, full: bool, head: nat): seq<T>
    requires head <= |buf|
  {
    if full then buf[head..] + buf[..head] else buf[..head]
  }

  lemma UnrollSplit<T>(x: seq<T>, y: seq<T>)
    ensures Unroll(x + y, true, |x|) == y + x
    ensures Unroll(x + y, false, |x|) == x
  {
    assert (x + y)[|x|..] == y && (x + y)[..|x|] == x;
  }

  /** A write that fits before the end of the array `a + b + c` overwrites `b`. */
  lemma PlaceFlat<T>(a: seq<T>, b: seq<T>, c: seq<T>, p: seq<T>, full: bool)
    requires |p| == |b|
    ensures Tail(Unroll(a + (b + c), full, |a|) + p, |a + (b + c)|)
         == if c == [] then Unroll(a + p + c, true, 0) else Unroll(a + p + c, full, |a + p|)
  {
    UnrollSplit(a, b + c);
    UnrollSplit(a + p, c);
    if full {
      Assoc(b + c, a, p);
      Assoc(b, c, a + p);
      TailOfSum(b, c + (a + p), |a + (b + c)|);
    }
    if c == [] {
      UnrollSplit([], a + p);
      assert [] + (a + p) == a + p == a + p + c;
    }
  }

  /** A write over the end of the array `a + b + c`, with the head before `c`, overwrites
      `c` with its first part and `a` with the rest. */
  lemma PlaceWrapped<T>(a: seq<T>, b: seq<T>, c: seq<T>, p: seq<T>, q: seq<T>, full: bool)
    requires |p| == |c| && |q| == |a|
    ensures Tail(Unroll(a + b + c, full, |a + b|) + (p + q), |a + b + c|) == Unroll(q + (b + p), true, |q|)
  {
    var kept := b + (p + q);
    UnrollSplit(a + b, c);
    UnrollSplit(q, b + p);
    Assoc(b, p, q);
    Assoc(a, b, p + q);
    if full {
      Assoc(c, a + b, p + q);
      Assoc(c, a, kept);
      TailOfSum(c + a, kept, |a + b + c|);
    } else {
      TailOfSum(a, kept, |a + b + c|);
    }
  }

  /** Go's copy(buf[at:], p) on the contents. */
  function Overwritten<T>(buf: seq<T>, at: nat, p: seq<T>): seq<T>
    requires at + |p| <= |buf|
  {
    buf[..at] + p + buf[at + |p|..]
  }

  lemma FlatWrite<T>(was: seq<T>, full: bool, head: nat, p: seq<T>)
    requires head + |p| <= |was|
    ensures var now := Overwritten(was, head, p);
            && |now| == |was|
            && Tail(Unroll(was, full, head) + p, |was|)
               == if head + |p| == |was| then Unroll(now, true, 0) else Unroll(now, full, head + |p|)
  {
    hide Tail;
    hide Unroll;
    var a, b, c := was[..head], was[head..head + |p|], was[head + |p|..];
    assert was == a + (b + c);
    assert Overwritten(was, head, p) == a + p + c;
    PlaceFlat(a, b, c, p, full);
  }

  /** A write at least as long as the array leaves its own last bytes. */
  lemma LongWrite<T>(was: seq<T>, w: seq<T>, p: seq<T>)
    requires |was| <= |p|
    ensures Unroll(Overwritten(was, 0, p[|p| - |was|..]), true, 0) == Tail(w + p, |was|)
  {
    TailOfSum(w, p, |was|);
    var q := p[|p| - |was|..];
    assert Overwritten(was, 0, q) == q;
    assert q[0..] + q[..0] == q;
  }

  /** The two copies of a write that runs over the end. */
  function Wrapped<T>(was: seq<T>, head: nat, p: seq<T>): seq<T>
    requires head <= |was| < head + |p| && |p| < |was|
  {
    var k := |was| - head;
    Overwritten(Overwritten(was, head, p[..k]), 0, p[k..])
  }

  lemma WrappedParts<T>(a: seq<T>, b: seq<T>, c: seq<T>, p: seq<T>, q: seq<T>)
    requires |p| == |c| && |q| == |a|
    ensures Overwritten(Overwritten(a + b + c, |a + b|, p), 0, q) == q + (b + p)
  {
    assert Overwritten(a + b + c, |a + b|, p) == a + (b + p);
  }

  lemma WrappedWrite<T>(was: seq<T>, full: bool, head: nat, p: seq<T>)
    requires head <= |was| < head + |p| && |p| < |was|
    ensures var now := Wrapped(was, head, p);
            |now| == |was| && Tail(Unroll(was, full, head) + p, |was|) == Unroll(now, true, head + |p| - |was|)
  {
    var k := |was| - head;
    var a, b, c := was[..|p| - k], was[|p| - k..head], was[head..];
    assert was == a + b + c && p == p[..k] + p[k..] && head == |a + b|;
    WrappedParts(a, b, c, p[..k], p[k..]);
    PlaceWrapped(a, b, c, p[..k], p[k..], full);
  }

  lemma ConcatStep(before: seq<byte>, chunks: seq<seq<byte>>, i: nat, line: seq<byte>, end: seq<byte>)
    requires i < |chunks| && chunks[i] == line + end
    ensures before + Concat(chunks[..i + 1]) == before + Concat(chunks[..i]) + line + end
  {
    assert chunks[..i + 1][..i] == chunks[..i];
  }

  class RingBuffer {
    const size: nat
    const buf: array<byte>
    var full: bool
    var head: nat
    ghost var written: seq<byte>  // everything ever written

    ghost predicate Valid()
      reads this, buf
    {
      && buf.Length == size
      && (head < size || head == size == 0)
      && Contents() == Tail(written, size)
    }

    /** The stored bytes, oldest first. */
    ghost function Contents(): seq<byte>
      requires buf.Length == size && head <= size
      reads this, buf
    {
      Unroll(buf[..], full, head)
    }

    constructor (capacity: nat)
      ensures Valid() && fresh(buf)
      ensures size == capacity && written == []
    {
      size, full, head := capacity, false, 0;
      buf := new byte[capacity](_ => 0);
      written := [];
    }

    method CopyIn(at: nat, p: seq<byte>)
      requires at + |p| <= buf.Length
      modifies buf
      ensures buf[..] == Overwritten(old(buf[..]), at, p)
    {
      for i := 0 to |p|
        invariant forall j :: 0 <= j < buf.Length ==>
                    buf[j] == if at <= j < at + i then p[j - at] else old(buf[j])
      {
        buf[at + i] := p[i];
      }
    }

    /** The part of Write for fewer bytes than the capacity. */
    method Store(p: seq<byte>)
      requires buf.Length == size && head < size && |p| < size
      modifies this`head, this`full, buf
      ensures head < size
      ensures Contents() == Tail(old(Contents()) + p, size)
    {
      var n := |p|;
      if head + n <= size {
        FlatWrite(buf[..], full, head, p);
        CopyIn(head, p);
      } else {
        WrappedWrite(buf[..], full, head, p);
        var k := size - head;
        CopyIn(head, p[..k]);
        CopyIn(0, p[k..]);
        full := true;
      }
      head := head + n;
      if head >= size {
        head := head - size;
        full := true;
      }
    }

    /** Whatever the length of `p` and wherever `head` is, the stored bytes stay the tail of
        everything written. */
    method Write(p: seq<byte>) returns (n: nat)
      requires Valid()
      modifies this, buf
      ensures Valid()
      ensures written == old(written) + p && n == |p|
    {
      n := |p|;
      if n >= size {
        LongWrite(buf[..], written, p);
        // Only the last `size` bytes matter.
        CopyIn(0, p[n - size..]);
        head, full := 0, true;
      } else {
        TailAbsorbs(written, p, size);
        Store(p);
      }
      written := written + p;
    }

    /** Writes of the drain goroutine: one line, then one newline, until the pipe ends. */
    method Drain(lines: seq<seq<byte>>)
      requires Valid()
      modifies this, buf
      ensures Valid()
      ensures written == old(written) + Concat(seq(|lines|, i requires 0 <= i < |lines| => lines[i] + [10]))
    {
      ghost var before := written;
      ghost var ended := seq(|lines|, i requires 0 <= i < |lines| => lines[i] + [10]);
      assert before == before + Concat(ended[..0]);
      for i := 0 to |lines|
        invariant Valid()
        invariant written == before + Concat(ended[..i])
      {
        ConcatStep(before, ended, i, lines[i], [10]);
        var _ := Write(lines[i]);
        var _ := Write([10]);
      }
      assert ended[..|lines|] == ended;
    }

    /** A copy of the stored bytes in chronological order. */
    method Snapshot() returns (out: array<byte>)
      requires Valid()
      ensures fresh(out)
      ensures out[..] == Tail(written, size)
      ensures out[..] == if |written| <= size then written else written[|written| - size..]
    {
      if !full {
        out := new byte[head](i requires 0 <= i < head <= buf.Length reads this, buf => buf[i]);
        assert out[..] == buf[..head];
        return;
      }
      out := new byte[size](_ => 0);
      for i := 0 to size - head
        invariant forall j :: 0 <= j < i ==> out[j] == buf[head + j]
      {
        out[i] := buf[head + i];
      }
      for i := 0 to head
        invariant forall j :: 0 <= j < size - head ==> out[j] == buf[head + j]
        invariant forall j :: 0 <= j < i ==> out[size - head + j] == buf[j]
      {
        out[size - head + i] := buf[i];
      }
      assert out[..] == buf[head..] + buf[..head];
    }
  }
}
