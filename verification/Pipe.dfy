/** Pipes: a ring of bytes with 32-bit counters that wrap around, and processes that sleep on it. */
module Pipes {
  const PIPESIZE: nat := 512
  const WRAP: nat := 0x1_0000_0000

  type byte = x: int | 0 <= x < 0x100
  type word = x: int | 0 <= x < 0x1_0000_0000

  /** How one stay inside the pipe's lock ends: the call is over, it has failed, or the process sleeps and will go on. */
  datatype Outcome = Done | Failed | Asleep

  /** What a write gets into a pipe before it is full. */
  function Fits(contents: seq<byte>, todo: seq<byte>): nat
    requires |contents| <= PIPESIZE
  {
    if |todo| <= PIPESIZE - |contents| then |todo| else PIPESIZE - |contents|
  }

  function WriteOutcome(contents: seq<byte>, todo: seq<byte>, readopen: bool, killed: bool): Outcome
    requires |contents| <= PIPESIZE
  {
    if Fits(contents, todo) == |todo| then Done else if !readopen || killed then Failed else Asleep
  }

  function ReadOutcome(contents: seq<byte>, writeopen: bool, killed: bool): Outcome {
    if |contents| > 0 || !writeopen then Done else if killed then Failed else Asleep
  }

  function Taken(contents: seq<byte>, n: nat): nat {
    if n <= |contents| then n else |contents|
  }

  /** n bytes of a ring, from counter r on. */
  function Ring(data: seq<byte>, r: nat, n: nat): (s: seq<byte>)
    requires |data| == PIPESIZE
    ensures |s| == n
  {
    seq(n, k requires 0 <= k < n => data[(r + k) % PIPESIZE])
  }

  /** The counters may wrap around: the ring size divides 2 to the 32. */
  lemma Wrapped(x: nat)
    ensures x % WRAP % PIPESIZE == x % PIPESIZE
  {
    Multiple(x % WRAP, x / WRAP * 0x80_0000);
    assert x == x % WRAP + PIPESIZE * (x / WRAP * 0x80_0000);
  }

  lemma RingPush(data: seq<byte>, r: nat, n: nat, w: nat, b: byte)
    requires |data| == PIPESIZE && n < PIPESIZE && w % PIPESIZE == (r + n) % PIPESIZE
    ensures Ring(data[w % PIPESIZE := b], r, n + 1) == Ring(data, r, n) + [b]
  {
    var before, after := Ring(data, r, n), Ring(data[w % PIPESIZE := b], r, n + 1);
    forall k: nat | k < n
      ensures after[k] == before[k]
    {
      Apart(r + k, n - k);
    }
  }

  lemma Apart(x: nat, d: nat)
    requires 0 < d < PIPESIZE
    ensures x % PIPESIZE != (x + d) % PIPESIZE
  {
  }

  lemma RingPop(data: seq<byte>, r: nat, n: nat, r': nat)
    requires |data| == PIPESIZE && n > 0 && r' % PIPESIZE == (r + 1) % PIPESIZE
    ensures Ring(data, r', n - 1) == Ring(data, r, n)[1..]
  {
    var before, after := Ring(data, r, n), Ring(data, r', n - 1);
    forall k: nat | k < n - 1
      ensures after[k] == before[k + 1]
    {
      SameSlot(r', r + 1, k);
    }
  }

  lemma RingFirst(data: seq<byte>, r: nat, n: nat)
    requires |data| == PIPESIZE && n > 0
    ensures Ring(data, r, n)[0] == data[r % PIPESIZE]
  {
  }

  lemma SameSlot(x: nat, y: nat, k: nat)
    requires x % PIPESIZE == y % PIPESIZE
    ensures (x + k) % PIPESIZE == (y + k) % PIPESIZE
  {
    Multiple(x % PIPESIZE + k, x / PIPESIZE);
    Multiple(y % PIPESIZE + k, y / PIPESIZE);
    assert x + k == x % PIPESIZE + k + PIPESIZE * (x / PIPESIZE);
    assert y + k == y % PIPESIZE + k + PIPESIZE * (y / PIPESIZE);
  }

  lemma Multiple(z: nat, a: nat)
    ensures (z + PIPESIZE * a) % PIPESIZE == z % PIPESIZE
  {
  }

  /** w - r in 32 bits */
  function Minus(w: word, r: word): (n: word)
    ensures n == (w - r) % WRAP
  {
    if w >= r then w - r else w - r + WRAP
  }

  /** x + 1 in 32 bits */
  function Succ(x: word): (y: word)
    ensures y == (x + 1) % WRAP
  {
    if x + 1 == WRAP then 0 else x + 1
  }

  /** The difference of the counters, however they have wrapped. */
  lemma Difference(r: word, w: word)
    ensures var n := Minus(w, r); w == r + n || w == r + n - WRAP
    ensures var n := Minus(w, r); n + 1 < WRAP ==> Minus(Succ(w), r) == n + 1
    ensures var n := Minus(w, r); n > 0 ==> Minus(w, Succ(r)) == n - 1
  {
  }

  lemma WrappedSlot(r: word, w: word)
    ensures w % PIPESIZE == (r + Minus(w, r)) % PIPESIZE
  {
    Difference(r, w);
    Wrapped(r + Minus(w, r));
  }

  class Pipe {
    var data: array<byte>
    /** How many bytes have been read and written, modulo 2 to the 32. */
    var nread: word
    var nwrite: word
    var readopen: bool
    var writeopen: bool

    function Count(): (n: nat)
      reads this
      ensures n == 0 <==> nread == nwrite
      ensures n == PIPESIZE <==> nwrite == (nread + PIPESIZE) % WRAP
    {
      Minus(nwrite, nread)
    }

    ghost predicate Valid()
      reads this
    {
      data.Length == PIPESIZE && Count() <= PIPESIZE
    }

    /** The bytes in the pipe, oldest first. */
    ghost function Contents(): (s: seq<byte>)
      requires Valid()
      reads this, data
      ensures |s| == Count()
    {
      Ring(data[..], nread, Count())
    }

    constructor ()
      ensures Valid() && Contents() == [] && readopen && writeopen && fresh(data)
    {
      data := new byte[PIPESIZE];
      nread, nwrite, readopen, writeopen := 0, 0, true, true;
    }

    /** pipewrite from byte i on, up to where it returns or sleeps. */
    method Write(src: seq<byte>, i: nat, killed: bool) returns (j: nat, outcome: Outcome, wakeReaders: bool)
      requires Valid() && i <= |src|
      modifies this`nwrite, data
      ensures Valid() && j == i + Fits(old(Contents()), src[i..])
      ensures Contents() == old(Contents()) + src[i..j]
      ensures j == |src| || |Contents()| == PIPESIZE
      ensures outcome == Done <==> old(|Contents()|) + |src| - i <= PIPESIZE
      ensures outcome == Failed <==> old(|Contents()|) + |src| - i > PIPESIZE && (!readopen || killed)
      ensures outcome == WriteOutcome(old(Contents()), src[i..], readopen, killed)
      ensures wakeReaders <==> outcome != Failed
    {
      hide Ring, Count;
      j := i;
      while j < |src|
        invariant i <= j <= |src| && Valid()
        invariant Contents() == old(Contents()) + src[i..j]
      {
        if nwrite == (nread + PIPESIZE) % WRAP {
          if !readopen || killed {
            return j, Failed, false;
          }
          return j, Asleep, true;
        }
        StoreByte(src[j]);
        assert src[i..j + 1] == src[i..j] + [src[j]];
        j := j + 1;
      }
      return j, Done, true;
    }

    method StoreByte(b: byte)
      requires Valid() && Count() < PIPESIZE
      modifies this`nwrite, data
      ensures Valid() && Contents() == old(Contents()) + [b]
    {
      Difference(nread, nwrite);
      WrappedSlot(nread, nwrite);
      RingPush(data[..], nread, Count(), nwrite, b);
      data[nwrite % PIPESIZE] := b;
      nwrite := Succ(nwrite);
    }

    /** piperead up to where it returns or sleeps. */
    method Read(dst: array<byte>, n: nat, killed: bool) returns (i: nat, outcome: Outcome, wakeWriters: bool)
      requires Valid() && n <= dst.Length && dst != data
      modifies this`nread, dst
      ensures Valid() && outcome == ReadOutcome(old(Contents()), writeopen, killed)
      ensures outcome == Failed <==> old(Contents()) == [] && writeopen && killed
      ensures outcome == Asleep <==> old(Contents()) == [] && writeopen && !killed
      ensures outcome == Done ==> i <= n && i <= old(|Contents()|) && (i == n || i == old(|Contents()|))
      ensures i == if outcome == Done then Taken(old(Contents()), n) else 0
      ensures Contents() == old(Contents())[i..] && dst[..i] == old(Contents())[..i]
      ensures forall k :: i <= k < dst.Length ==> dst[k] == old(dst[k])
      ensures wakeWriters <==> outcome == Done
    {
      hide Ring, Count;
      i := 0;
      if nread == nwrite && writeopen {
        return i, if killed then Failed else Asleep, false;
      }
      ghost var all := Contents();
      while i < n
        invariant 0 <= i <= n && i <= |all| && Valid() && Contents() == all[i..]
        invariant dst[..i] == all[..i]
        invariant forall k :: i <= k < dst.Length ==> dst[k] == old(dst[k])
      {
        if nread == nwrite {
          break;
        }
        var b := TakeByte();
        dst[i] := b;
        i := i + 1;
      }
      return i, Done, true;
    }

    method TakeByte() returns (b: byte)
      requires Valid() && Count() > 0
      modifies this`nread
      ensures Valid() && old(Contents()) == [b] + Contents()
    {
      RingFirst(data[..], nread, Count());
      b := data[nread % PIPESIZE];
      Difference(nread, nwrite);
      Wrapped(nread + 1);
      RingPop(data[..], nread, Count(), Succ(nread));
      nread := Succ(nread);
    }

    /** pipeclose: who is woken, and whether the pipe is given back. */
    method Close(writable: bool) returns (wakeReaders: bool, freed: bool)
      modifies this`readopen, this`writeopen
      ensures readopen == (old(readopen) && writable) && writeopen == (old(writeopen) && !writable)
      ensures wakeReaders == writable && (freed <==> !readopen && !writeopen)
    {
      if writable {
        writeopen := false;
      } else {
        readopen := false;
      }
      return writable, !readopen && !writeopen;
    }
  }
}
