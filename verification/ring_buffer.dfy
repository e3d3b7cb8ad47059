/**
 The fixed-size buffer that holds the newest bytes of a proxy's log.
 */
module RingBuffer {
  /** The last `n` bytes, or all of them. */
  function Last(s: string, n: nat): string {
    if |s| <= n then s else s[|s| - n..]
  }

  /** Forgetting early loses nothing. */
  lemma {:induction false} LastAppend(a: string, b: string, n: nat)
    ensures Last(Last(a, n) + b, n) == Last(a + b, n)
  {
    if |a| > n {
      DropAppend(a, b, |a| - n);
      LastDrop(a + b, |a| - n, n);
    }
  }

  lemma LastDrop(s: string, k: nat, n: nat)
    requires k <= |s| && n <= |s| - k
    ensures Last(s[k..], n) == Last(s, n)
  {
    DropDrop(s, k, |s| - k - n);
    assert n == |s| ==> s[0..] == s;
  }

  lemma DropAppend(a: string, b: string, k: nat)
    requires k <= |a|
    ensures (a + b)[k..] == a[k..] + b
  {
  }

  lemma DropDrop(s: string, j: nat, k: nat)
    requires j + k <= |s|
    ensures s[j..][k..] == s[j + k..]
  {
  }

  lemma Regroup(a: string, b: string, c: string)
    ensures (a + b) + c == a + (b + c)
  {
  }

  datatype Op = WriteOp(chunk: string) | ResetOp

  /** Everything written since the last reset, if `start` was there before. */
  function SinceReset(start: string, ops: seq<Op>): string {
    if ops == [] then start
    else
      match ops[|ops| - 1]
      case WriteOp(chunk) => SinceReset(start, ops[..|ops| - 1]) + chunk
      case ResetOp => ""
  }

  class Ring {
    const buf: array<char>
    const size: nat
    var full: bool
    var head: nat

    ghost predicate Valid()
      reads this
    {
      buf.Length == size && (head < size || head == size == 0)
    }

    /** What a reader is shown. */
    ghost function Shown(): string
      requires Valid()
      reads this, buf
    {
      ShownOf(buf[..], head, full)
    }

    constructor (size: nat)
      ensures Valid() && Shown() == [] && this.size == size && fresh(buf)
    {
      this.size := size;
      buf := new char[size];
      full, head := false, 0;
    }

    /** Go's copy: as many bytes as fit. */
    method Copy(at: nat, p: string) returns (n: nat)
      requires at <= buf.Length
      modifies buf
      ensures n == if |p| <= buf.Length - at then |p| else buf.Length - at
      ensures buf[..] == Overwritten(old(buf[..]), at, p[..n])
    {
      n := 0;
      while n < |p| && at + n < buf.Length
        invariant n <= |p| && at + n <= buf.Length
        invariant forall i :: 0 <= i < n ==> buf[at + i] == p[i]
        invariant forall i :: 0 <= i < at || at + n <= i < buf.Length ==> buf[i] == old(buf[i])
      {
        buf[at + n] := p[n];
        n := n + 1;
      }
      assert buf[..] == Overwritten(old(buf[..]), at, p[..n]);
    }

    /** A chunk that fills the buffer: only its end is kept. */
    method Fill(p: string)
      requires Valid() && |p| >= size
      modifies this`full, this`head, buf
      ensures Valid() && full && head == 0 && buf[..] == p[|p| - size..]
    {
      var _ := Copy(0, p[|p| - size..]);
      head, full := 0, true;
    }

    /** A shorter chunk goes behind the head and, past the end, to the front. */
    method Advance(p: string)
      requires Valid() && 0 < |p| < size
      modifies this`full, this`head, buf
      ensures Valid() && Shown() == Last(old(Shown()) + p, size)
    {
      ghost var before, end := buf[..], head + |p|;
      var first := Copy(head, p);
      if first < |p| {
        ghost var tail := buf[..];
        var _ := Copy(0, p[first..]);
        WrapShown(before, tail, buf[..], head, p, first, full);
        full, head := true, |p| - first;
      } else {
        assert p[..first] == p;
        AdvanceShown(before, buf[..], head, p, full);
        Turn(end, size);
        FullTurn(buf[..], full);
        head := (head + |p|) % size;
        if head == 0 {
          full := true;
        }
      }
    }

    /** Whatever the chunk's length, the newest `size` bytes are shown. */
    method Write(p: string) returns (n: nat)
      requires Valid()
      modifies this`full, this`head, buf
      ensures Valid() && n == |p|
      ensures Shown() == Last(old(Shown()) + p, size)
    {
      n := |p|;
      if n == 0 {
        assert old(Shown()) + p == old(Shown());
        ShownFits(buf[..], head, full);
      } else if n >= size {
        Fill(p);
        FilledShown(old(Shown()), p, size);
      } else {
        Advance(p);
      }
    }

    method String() returns (out: string)
      requires Valid()
      ensures out == Shown()
    {
      if !full {
        return buf[..head];
      }
      out := [];
      out := out + buf[head..];
      out := out + buf[..head];
    }

    method Reset()
      requires Valid()
      modifies this`head, this`full
      ensures Valid() && Shown() == []
    {
      head, full := 0, false;
    }

    /** Any run of writes and resets: what is shown is exactly the last
        min(size, total) bytes written since the last reset. */
    method Run(ops: seq<Op>)
      requires Valid()
      modifies this`full, this`head, buf
      ensures Valid() && Shown() == Last(SinceReset(old(Shown()), ops), size)
    {
      assert |Shown()| <= size by { ShownFits(buf[..], head, full); }
      for i := 0 to |ops|
        invariant Valid() && Shown() == Last(SinceReset(old(Shown()), ops[..i]), size)
      {
        assert ops[..i + 1][..i] == ops[..i];
        match ops[i] {
          case WriteOp(chunk) =>
            LastAppend(SinceReset(old(Shown()), ops[..i]), chunk, size);
            var _ := Write(chunk);
          case ResetOp =>
            Reset();
        }
      }
      assert ops[..|ops|] == ops;
    }
  }

  function Overwritten(buf: string, at: nat, p: string): string
    requires at + |p| <= |buf|
  {
    buf[..at] + p + buf[at + |p|..]
  }

  lemma Turn(end: nat, size: nat)
    requires 0 < end <= size
    ensures end % size == if end == size then 0 else end
  {
  }

  function ShownOf(buf: string, head: nat, full: bool): string
    requires head <= |buf|
  {
    if full then buf[head..] + buf[..head] else buf[..head]
  }

  lemma ShownFits(buf: string, head: nat, full: bool)
    requires head <= |buf|
    ensures |ShownOf(buf, head, full)| <= |buf|
  {
  }

  lemma FilledShown(shown: string, p: string, size: nat)
    requires |p| >= size
    ensures ShownOf(p[|p| - size..], 0, true) == Last(shown + p, size)
  {
    var all := shown + p;
    DropAppend(shown, p, |shown|);
    assert all[|shown|..] == p;
    DropDrop(all, |shown|, |p| - size);
    assert p[|p| - size..] == ShownOf(p[|p| - size..], 0, true);
  }

  /** A chunk that runs over the end. */
  lemma WrapShown(before: string, tail: string, after: string, head: nat, p: string, first: nat, full: bool)
    requires head < |before| && |p| < |before| && first == |before| - head < |p|
    requires tail == Overwritten(before, head, p[..first]) && after == Overwritten(tail, 0, p[first..])
    ensures ShownOf(after, |p| - first, true) == Last(ShownOf(before, head, full) + p, |before|)
  {
    var shown, h := ShownOf(before, head, full), |p| - first;
    WrapHolds(before, tail, after, head, p, first);
    ShownEnds(before, head, full, h);
    var from := |shown| - (head - h);
    DropAppend(shown, p, from);
    LastDrop(shown + p, from, |before|);
  }

  lemma WrapHolds(before: string, tail: string, after: string, head: nat, p: string, first: nat)
    requires head < |before| && |p| < |before| && first == |before| - head < |p|
    requires tail == Overwritten(before, head, p[..first]) && after == Overwritten(tail, 0, p[first..])
    ensures var h := |p| - first; ShownOf(after, h, true) == before[h..head] + p
  {
    var h := |p| - first;
    assert tail == before[..head] + p[..first];
    assert after[..h] == p[first..] && after[h..] == tail[h..];
    DropAppend(before[..head], p[..first], h);
    assert before[..head][h..] == before[h..head];
    Regroup(before[h..head], p[..first], p[first..]);
    assert p[..first] + p[first..] == p;
  }

  /** What is shown ends with what was written last. */
  lemma ShownEnds(buf: string, head: nat, full: bool, h: nat)
    requires h <= head <= |buf|
    ensures var shown := ShownOf(buf, head, full); head - h <= |shown| && shown[|shown| - (head - h)..] == buf[h..head]
  {
    if full {
      DropAppend(buf[head..], buf[..head], |buf| - head);
      assert (buf[head..] + buf[..head])[|buf| - head..] == buf[..head];
      DropDrop(buf[head..] + buf[..head], |buf| - head, h);
    }
    assert buf[..head][h..] == buf[h..head];
  }

  /** A chunk that fits behind the head. */
  lemma AdvanceShown(before: string, after: string, head: nat, p: string, full: bool)
    requires head < |before| && head + |p| <= |before| && p != []
    requires after == Overwritten(before, head, p)
    ensures ShownOf(after, head + |p|, full) == Last(ShownOf(before, head, full) + p, |before|)
  {
    var end := head + |p|;
    assert after[end..] == before[end..] && after[..end] == before[..head] + p;
    if full {
      var shown := before[head..] + before[..head];
      DropAppend(shown, p, |p|);
      DropAppend(before[head..], before[..head], |p|);
      DropDrop(before, head, |p|);
      Regroup(before[end..], before[..head], p);
    }
  }

  /** A full turn of the head reads like none, once the buffer is full. */
  lemma FullTurn(buf: string, full: bool)
    ensures ShownOf(buf, 0, true) == ShownOf(buf, |buf|, full)
  {
    assert buf[0..] + buf[..0] == buf == buf[..|buf|];
    assert buf[|buf|..] + buf[..|buf|] == buf;
  }
}
