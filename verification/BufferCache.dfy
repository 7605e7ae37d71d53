/** The buffer cache over a synchronous disk. Each method is one atomic section of the source. */
module BufferCaches {
  import opened Blocks
  import opened LruList

  const ROOTDEV: nat := 1

  datatype Holder = Free | Pid(pid: nat)

  datatype Buf = Buf(dev: nat, blockno: nat, valid: bool, dirty: bool, refcnt: nat, holder: Holder, data: Block) {
    predicate Recyclable() {
      refcnt == 0 && !dirty
    }
  }

  /** A valid clean buffer nobody holds equals the disk; a dirty one is valid; an unused one is not locked. */
  ghost predicate BufOk(b: Buf, image: Image) {
    && (b.dev == ROOTDEV ==> b.blockno < |image|)
    && (b.dev != ROOTDEV ==> !b.valid)
    && (b.dirty ==> b.valid)
    && (b.refcnt == 0 ==> b.holder == Free)
    && (b.valid && !b.dirty && b.holder == Free ==> b.data == image[b.blockno])
  }

  /** Coherence of the buffers with the disk; `slot` finds the one buffer that stands for a block. */
  ghost predicate Coherent(bufs: seq<Buf>, slot: map<nat, nat>, image: Image) {
    && (forall b :: 0 <= b < |bufs| ==> BufOk(bufs[b], image))
    && (forall b :: 0 <= b < |bufs| && bufs[b].dev == ROOTDEV ==> bufs[b].blockno in slot && slot[bufs[b].blockno] == b)
    && (forall bn :: bn in slot ==> slot[bn] < |bufs| && bufs[slot[bn]].dev == ROOTDEV && bufs[slot[bn]].blockno == bn)
  }

  /** A block as every user of the cache sees it. */
  ghost function Seen(bufs: seq<Buf>, slot: map<nat, nat>, image: Image, bn: nat): Block
    requires Coherent(bufs, slot, image) && bn < |image|
  {
    if bn in slot && bufs[slot[bn]].valid then bufs[slot[bn]].data else image[bn]
  }

  ghost function SeenAll(bufs: seq<Buf>, slot: map<nat, nat>, image: Image): Image
    requires Coherent(bufs, slot, image)
  {
    seq(|image|, bn requires 0 <= bn < |image| => Seen(bufs, slot, image, bn))
  }

  /** The blocks logged but not yet written home, with their new contents. */
  ghost function Pinned(bufs: seq<Buf>, slot: map<nat, nat>, image: Image): map<nat, Block>
    requires Coherent(bufs, slot, image)
  {
    map bn | bn in slot && bufs[slot[bn]].dirty :: bufs[slot[bn]].data
  }

  /** Unused buffers stand in the list in order of their last release, the latest first. */
  ghost predicate ByRelease(bufs: seq<Buf>, order: seq<nat>, stamp: seq<nat>, clock: nat) {
    && IsPermutation(order) && |bufs| == |stamp| == NBUF
    && (forall b :: 0 <= b < NBUF ==> stamp[b] < clock)
    && (forall i, j :: 0 <= i < j < NBUF && bufs[order[i]].refcnt == 0 && bufs[order[j]].refcnt == 0 ==>
          stamp[order[i]] > stamp[order[j]])
  }

  ghost function Rehomed(bufs: seq<Buf>, slot: map<nat, nat>, b: nat, bn: nat): map<nat, nat>
    requires b < |bufs|
  {
    (if bufs[b].dev == ROOTDEV then slot - {bufs[b].blockno} else slot)[bn := b]
  }

  /** Giving a clean unused buffer to an uncached block changes nothing that a user can see. */
  lemma RecycleUnseen(bufs: seq<Buf>, slot: map<nat, nat>, image: Image, b: nat, bn: nat)
    requires Coherent(bufs, slot, image) && b < |bufs| && bufs[b].Recyclable()
    requires bn < |image| && bn !in slot
    ensures var bufs' := bufs[b := Buf(ROOTDEV, bn, false, false, 1, Free, bufs[b].data)];
            var slot' := Rehomed(bufs, slot, b, bn);
            && Coherent(bufs', slot', image)
            && Pinned(bufs', slot', image) == Pinned(bufs, slot, image)
            && SeenAll(bufs', slot', image) == SeenAll(bufs, slot, image)
  {
  }

  /** Changing only the user count or lock of a buffer changes nothing that a user can see. */
  lemma UseUnseen(bufs: seq<Buf>, slot: map<nat, nat>, image: Image, b: nat, x: Buf)
    requires Coherent(bufs, slot, image) && b < |bufs| && BufOk(x, image)
    requires x.(refcnt := 0, holder := Free) == bufs[b].(refcnt := 0, holder := Free)
    ensures Coherent(bufs[b := x], slot, image)
    ensures Pinned(bufs[b := x], slot, image) == Pinned(bufs, slot, image)
    ensures SeenAll(bufs[b := x], slot, image) == SeenAll(bufs, slot, image)
  {
  }

  /** Reading a block into its buffer. */
  lemma FillUnseen(bufs: seq<Buf>, slot: map<nat, nat>, image: Image, b: nat)
    requires Coherent(bufs, slot, image) && b < |bufs| && bufs[b].dev == ROOTDEV && !bufs[b].valid
    ensures var bufs' := bufs[b := bufs[b].(valid := true, data := image[bufs[b].blockno])];
            && Coherent(bufs', slot, image)
            && Pinned(bufs', slot, image) == Pinned(bufs, slot, image)
            && SeenAll(bufs', slot, image) == SeenAll(bufs, slot, image)
  {
  }

  /** Changing the data of a buffer somebody holds, or pinning it, shows in its own block only. */
  lemma ModifySeen(bufs: seq<Buf>, slot: map<nat, nat>, image: Image, b: nat, data: Block, dirty: bool)
    requires Coherent(bufs, slot, image) && b < |bufs| && bufs[b].valid && bufs[b].holder != Free
    ensures var bufs' := bufs[b := bufs[b].(data := data, dirty := dirty)];
            var bn := bufs[b].blockno;
            && Coherent(bufs', slot, image)
            && Pinned(bufs', slot, image) == (if dirty then Pinned(bufs, slot, image)[bn := data]
                                              else Pinned(bufs, slot, image) - {bn})
            && SeenAll(bufs', slot, image) == SeenAll(bufs, slot, image)[bn := data]
  {
  }

  /** Writing a buffer to the disk. */
  lemma WriteBackSeen(bufs: seq<Buf>, slot: map<nat, nat>, image: Image, b: nat)
    requires Coherent(bufs, slot, image) && b < |bufs| && bufs[b].dirty && bufs[b].holder != Free
    ensures var bufs' := bufs[b := bufs[b].(dirty := false)];
            var bn := bufs[b].blockno;
            var image' := image[bn := bufs[b].data];
            && Coherent(bufs', slot, image')
            && Pinned(bufs', slot, image') == Pinned(bufs, slot, image) - {bn}
            && SeenAll(bufs', slot, image') == SeenAll(bufs, slot, image)
  {
  }

  /** Releasing a buffer for the last time makes it the most recently used. */
  lemma ReleaseOrder(bufs: seq<Buf>, order: seq<nat>, stamp: seq<nat>, clock: nat, k: nat, x: Buf)
    requires ByRelease(bufs, order, stamp, clock) && k < NBUF && bufs[order[k]].refcnt > 0
    ensures ByRelease(bufs[order[k] := x], MoveToFront(order, k), stamp[order[k] := clock], clock + 1)
  {
    var b, o := order[k], MoveToFront(order, k);
    forall c | 0 <= c < NBUF
      ensures c in o
    {
      assert c in order;
      var i :| 0 <= i < NBUF && order[i] == c;
      assert i < k ==> o[i + 1] == c;
      assert i == k ==> o[0] == c;
      assert i > k ==> o[i] == c;
    }
  }

  /** A disk that writes one block at a time; `history` lists the image after every write. */
  class Disk {
    var blocks: Image
    ghost var history: seq<Image>

    constructor (image: Image)
      ensures blocks == image && history == []
    {
      blocks, history := image, [];
    }

    method Write(bn: nat, data: Block)
      requires bn < |blocks|
      modifies this
      ensures blocks == old(blocks)[bn := data]
      ensures history == old(history) + [blocks]
    {
      blocks := blocks[bn := data];
      history := history + [blocks];
    }
  }

  /** The order binit leaves the first n buffers in. */
  function Descending(n: nat): (s: seq<nat>)
    ensures |s| == n && forall i :: 0 <= i < n ==> s[i] == n - 1 - i
  {
    seq(n, i requires 0 <= i < n => n - 1 - i)
  }

  lemma DescendingIsPermutation()
    ensures IsPermutation(Descending(NBUF))
  {
    forall b | 0 <= b < NBUF
      ensures b in Descending(NBUF)
    {
      assert Descending(NBUF)[NBUF - 1 - b] == b;
    }
  }

  class BufferCache {
    const disk: Disk
    const buf: array<Buf>
    const next: array<nat>
    const prev: array<nat>
    /** The buffers from most to least recently used. */
    ghost var order: seq<nat>
    /** When each buffer was last released by its last user. */
    ghost var stamp: seq<nat>
    ghost var clock: nat
    /** Which buffer stands for a block. */
    ghost var slot: map<nat, nat>
    /** The disk as every user of the cache sees it. */
    ghost var view: Image
    /** The blocks logged but not yet written home, with their new contents. */
    ghost var pins: map<nat, Block>

    ghost predicate Valid()
      reads this, buf, next, prev, disk
    {
      && buf.Length == NBUF && next.Length == NBUF + 1 && prev.Length == NBUF + 1 && next != prev
      && Linked(next[..], prev[..], order)
      && ByRelease(buf[..], order, stamp, clock)
      && Coherent(buf[..], slot, disk.blocks)
      && view == SeenAll(buf[..], slot, disk.blocks) && pins == Pinned(buf[..], slot, disk.blocks)
    }

    /** The buffers in use are those in u. */
    ghost predicate InUse(u: set<nat>)
      reads buf
    {
      && (forall b :: 0 <= b < buf.Length ==> (buf[b].refcnt > 0 <==> b in u))
      && (forall b :: b in u ==> b < buf.Length)
    }

    constructor (disk: Disk)
      ensures this.disk == disk && fresh(buf) && fresh(next) && fresh(prev)
      ensures Valid() && InUse({}) && view == disk.blocks && pins == map[]
      ensures order == Descending(NBUF)
    {
      this.disk := disk;
      buf := new Buf[NBUF](_ => Buf(0, 0, false, false, 0, Free, ZeroBlock()));
      next := new nat[NBUF + 1](_ => NBUF);
      prev := new nat[NBUF + 1](_ => NBUF);
      order, slot, clock := [], map[], NBUF;
      view, pins := disk.blocks, map[];
      stamp := seq(NBUF, i => i);
      new;
      for b := 0 to NBUF
        modifies `order, next, prev
        invariant order == Descending(b)
        invariant Linked(next[..], prev[..], order)
      {
        PushFront(b, order);
        order := [b] + order;
      }
      DescendingIsPermutation();
    }

    /** Link an unlinked buffer right after the list head. */
    method PushFront(b: nat, ghost o: seq<nat>)
      requires next.Length == NBUF + 1 && prev.Length == NBUF + 1 && next != prev
      requires Linked(next[..], prev[..], o) && b !in o && b < NBUF
      modifies next, prev
      ensures Linked(next[..], prev[..], [b] + o)
    {
      ghost var n0: seq<nat>, p0: seq<nat> := next[..], prev[..];
      LinkFront(n0, p0, o, b);
      next[b] := next[NBUF];
      prev[b] := NBUF;
      prev[next[NBUF]] := b;
      next[NBUF] := b;
      assert next[..] == n0[b := n0[NBUF]][NBUF := b];
      assert prev[..] == p0[b := NBUF][n0[NBUF] := b];
    }

    /** Is the block cached? Walks the list from its head. */
    method FindCached(dev: nat, blockno: nat) returns (b: nat)
      requires Valid() && dev == ROOTDEV
      ensures b == if blockno in slot then slot[blockno] else NBUF
    {
      ghost var k: nat := 0;
      assert next[At(order, 0)] == At(order, 1);
      b := next[NBUF];
      while b != NBUF
        invariant k <= NBUF && b == At(order, k + 1)
        invariant forall i :: 0 <= i < k ==> !(buf[order[i]].dev == dev && buf[order[i]].blockno == blockno)
        decreases NBUF - k
      {
        if buf[b].dev == dev && buf[b].blockno == blockno {
          return;
        }
        k := k + 1;
        assert next[At(order, k)] == At(order, k + 1);
        b := next[b];
      }
      forall i | 0 <= i < NBUF
        ensures !(buf[i].dev == dev && buf[i].blockno == blockno)
      {
        assert i in order;
      }
    }

    /** The least recently released clean buffer that nobody uses. Walks the list from its tail. */
    method FindVictim() returns (b: nat)
      requires Valid()
      ensures b <= NBUF
      ensures b == NBUF <==> forall i :: 0 <= i < NBUF ==> !buf[i].Recyclable()
      ensures b < NBUF ==>
                && buf[b].Recyclable()
                && forall i :: 0 <= i < NBUF && i != b && buf[i].Recyclable() ==> stamp[b] < stamp[i]
    {
      ghost var k: nat := 0;
      assert prev[At(order, NBUF + 1)] == At(order, NBUF);
      b := prev[NBUF];
      while b != NBUF
        invariant k <= NBUF && b == At(order, NBUF - k)
        invariant forall i :: NBUF - k <= i < NBUF ==> !buf[order[i]].Recyclable()
        decreases NBUF - k
      {
        if buf[b].refcnt == 0 && !buf[b].dirty {
          forall i | 0 <= i < NBUF && i != b && buf[i].Recyclable()
            ensures stamp[b] < stamp[i]
          {
            assert i in order;
          }
          return;
        }
        k := k + 1;
        assert prev[At(order, NBUF - k + 1)] == At(order, NBUF - k);
        b := prev[b];
      }
      forall i | 0 <= i < NBUF
        ensures !buf[i].Recyclable()
      {
        assert i in order;
      }
    }

    /** Change who uses buffer b. */
    method SetUse(b: nat, refcnt: nat, holder: Holder)
      requires Valid() && b < NBUF && refcnt > 0
      requires BufOk(buf[b].(refcnt := refcnt, holder := holder), disk.blocks)
      modifies buf
      ensures Valid()
      ensures buf[..] == old(buf[..])[b := old(buf[b]).(refcnt := refcnt, holder := holder)]
    {
      ghost var bufs := buf[..];
      UseUnseen(bufs, slot, disk.blocks, b, buf[b].(refcnt := refcnt, holder := holder));
      buf[b] := buf[b].(refcnt := refcnt, holder := holder);
      assert buf[..] == bufs[b := buf[b]];
    }

    /** Give the recyclable buffer b to an uncached block. */
    method Recycle(b: nat, dev: nat, blockno: nat)
      requires Valid() && b < NBUF && buf[b].Recyclable()
      requires dev == ROOTDEV && blockno < |disk.blocks| && blockno !in slot
      modifies this`slot, buf
      ensures Valid()
      ensures buf[..] == old(buf[..])[b := Buf(dev, blockno, false, false, 1, Free, old(buf[b]).data)]
      ensures slot == Rehomed(old(buf[..]), old(slot), b, blockno)
    {
      ghost var bufs := buf[..];
      RecycleUnseen(bufs, slot, disk.blocks, b, blockno);
      slot := Rehomed(bufs, slot, b, blockno);
      buf[b] := buf[b].(dev := dev, blockno := blockno, valid := false, dirty := false, refcnt := 1);
      assert buf[..] == bufs[b := Buf(dev, blockno, false, false, 1, Free, bufs[b].data)];
    }

    /** Find or recycle a buffer for a block and count one more user. Fails just when the source panics. */
    method Bget(dev: nat, blockno: nat) returns (b: nat, ok: bool)
      requires Valid() && dev == ROOTDEV && blockno < |disk.blocks|
      modifies this`slot, buf
      ensures Valid()
      ensures ok <==> blockno in old(slot) || exists i :: 0 <= i < NBUF && old(buf[i]).Recyclable()
      ensures !ok ==> buf[..] == old(buf[..]) && slot == old(slot)
      ensures ok && blockno in old(slot) ==>
                && slot == old(slot) && b == slot[blockno]
                && buf[..] == old(buf[..])[b := old(buf[b]).(refcnt := old(buf[b]).refcnt + 1)]
      ensures ok && blockno !in old(slot) ==>
                && b < NBUF && old(buf[b]).Recyclable()
                && (forall i :: 0 <= i < NBUF && i != b && old(buf[i]).Recyclable() ==> stamp[b] < stamp[i])
                && slot == Rehomed(old(buf[..]), old(slot), b, blockno)
                && buf[..] == old(buf[..])[b := Buf(dev, blockno, false, false, 1, Free, old(buf[b]).data)]
    {
      b := FindCached(dev, blockno);
      if b != NBUF {
        SetUse(b, buf[b].refcnt + 1, buf[b].holder);
        return b, true;
      }
      b := FindVictim();
      if b == NBUF {
        return 0, false;
      }
      Recycle(b, dev, blockno);
      return b, true;
    }

    /** Take the sleep-lock of a buffer that is counted in use and not locked. */
    method Lock(b: nat, pid: nat)
      requires Valid() && b < NBUF && buf[b].refcnt > 0 && buf[b].holder == Free
      modifies buf
      ensures Valid()
      ensures buf[..] == old(buf[..])[b := old(buf[b]).(holder := Pid(pid))]
    {
      SetUse(b, buf[b].refcnt, Pid(pid));
    }

    /** Bring a locked buffer and the disk in step: a dirty buffer is written, an invalid one read. */
    method Iderw(b: nat, pid: nat)
      requires Valid() && b < NBUF && buf[b].holder == Pid(pid) && buf[b].dev == ROOTDEV
      requires !buf[b].valid || buf[b].dirty
      modifies this`pins, buf, disk
      ensures Valid()
      ensures !old(buf[b].dirty) ==>
                && disk.blocks == old(disk.blocks) && disk.history == old(disk.history)
                && pins == old(pins)
                && buf[..] == old(buf[..])[b := old(buf[b]).(valid := true, data := disk.blocks[old(buf[b]).blockno])]
      ensures old(buf[b].dirty) ==>
                && disk.blocks == old(disk.blocks)[old(buf[b]).blockno := old(buf[b]).data]
                && disk.history == old(disk.history) + [disk.blocks]
                && pins == old(pins) - {old(buf[b]).blockno}
                && buf[..] == old(buf[..])[b := old(buf[b]).(valid := true, dirty := false)]
    {
      hide Linked;
      ghost var bufs, image := buf[..], disk.blocks;
      if buf[b].dirty {
        WriteBackSeen(bufs, slot, image, b);
        pins := pins - {buf[b].blockno};
        buf[b] := buf[b].(dirty := false);
        disk.Write(buf[b].blockno, buf[b].data);
      } else {
        FillUnseen(bufs, slot, image, b);
        buf[b] := buf[b].(data := disk.blocks[buf[b].blockno]);
      }
      buf[b] := buf[b].(valid := true);
      assert buf[..] == bufs[b := buf[b]];
    }

    /** A locked buffer with the current contents of a block. Fails just when bget panics. */
    method Bread(pid: nat, dev: nat, blockno: nat) returns (b: nat, ok: bool)
      requires Valid() && dev == ROOTDEV && blockno < |disk.blocks|
      requires blockno in slot ==> buf[slot[blockno]].holder == Free
      modifies this`slot, this`pins, buf, disk
      ensures Valid()
      ensures disk.blocks == old(disk.blocks) && disk.history == old(disk.history) && pins == old(pins)
      ensures ok <==> blockno in old(slot) || exists i :: 0 <= i < NBUF && old(buf[i]).Recyclable()
      ensures ok ==> b < NBUF && blockno in slot && slot[blockno] == b
      ensures ok ==> (old(buf[b]).dev == dev && old(buf[b]).blockno == blockno) || old(buf[b]).Recyclable()
      ensures ok ==> buf[b] == Buf(dev, blockno, true, blockno in pins, old(buf[b]).refcnt + 1, Pid(pid), view[blockno])
      ensures forall i :: 0 <= i < NBUF && (ok ==> i != b) ==> buf[i] == old(buf[i])
    {
      hide Linked, ByRelease, SeenAll;
      b, ok := Bget(dev, blockno);
      if ok {
        LockFilled(b, pid);
      }
    }

    /** Take the sleep-lock of a buffer in use, and read its block if need be. */
    method LockFilled(b: nat, pid: nat)
      requires Valid() && b < NBUF && buf[b].refcnt > 0 && buf[b].holder == Free && buf[b].dev == ROOTDEV
      modifies this`pins, buf, disk
      ensures Valid() && buf[b].blockno < |view|
      ensures disk.blocks == old(disk.blocks) && disk.history == old(disk.history) && pins == old(pins)
      ensures buf[..] == old(buf[..])[b := old(buf[b]).(holder := Pid(pid), valid := true, data := view[old(buf[b]).blockno])]
    {
      hide Linked, ByRelease;
      Lock(b, pid);
      if !buf[b].valid {
        Iderw(b, pid);
      }
    }

    /** Replace the contents of a buffer the process holds. */
    method SetData(b: nat, pid: nat, data: Block)
      requires Valid() && b < NBUF && buf[b].holder == Pid(pid) && buf[b].valid
      modifies this`view, this`pins, buf
      ensures Valid()
      ensures buf[..] == old(buf[..])[b := old(buf[b]).(data := data)]
      ensures pins == if buf[b].dirty then old(pins)[buf[b].blockno := data] else old(pins)
      ensures buf[b].blockno < |old(view)| && view == old(view)[buf[b].blockno := data]
    {
      hide Linked;
      ghost var bufs := buf[..];
      ModifySeen(bufs, slot, disk.blocks, b, data, buf[b].dirty);
      pins := if buf[b].dirty then pins[buf[b].blockno := data] else pins;
      view := view[buf[b].blockno := data];
      buf[b] := buf[b].(data := data);
      assert buf[..] == bufs[b := buf[b]];
    }

    /** Keep a logged buffer in the cache until the log has written it home. */
    method Pin(b: nat, pid: nat)
      requires Valid() && b < NBUF && buf[b].holder == Pid(pid) && buf[b].valid
      modifies this`pins, buf
      ensures Valid()
      ensures buf[..] == old(buf[..])[b := old(buf[b]).(dirty := true)]
      ensures pins == old(pins)[buf[b].blockno := buf[b].data]
    {
      ghost var bufs := buf[..];
      ModifySeen(bufs, slot, disk.blocks, b, buf[b].data, true);
      pins := pins[buf[b].blockno := buf[b].data];
      buf[b] := buf[b].(dirty := true);
      assert buf[..] == bufs[b := buf[b]];
    }

    /** Write a held buffer to the disk. */
    method Bwrite(b: nat, pid: nat)
      requires Valid() && b < NBUF && buf[b].holder == Pid(pid) && buf[b].valid
      modifies this`pins, buf, disk
      ensures Valid()
      ensures disk.blocks == old(disk.blocks)[old(buf[b]).blockno := old(buf[b]).data]
      ensures disk.history == old(disk.history) + [disk.blocks]
      ensures buf[..] == old(buf[..])[b := old(buf[b]).(dirty := false)]
      ensures pins == old(pins) - {buf[b].blockno}
    {
      hide Linked;
      Pin(b, pid);
      Iderw(b, pid);
    }

    /** Drop the sleep-lock of a buffer; its data must be logged or on the disk. */
    method Unlock(b: nat, pid: nat)
      requires Valid() && b < NBUF && buf[b].holder == Pid(pid) && buf[b].valid
      requires buf[b].dirty || buf[b].data == disk.blocks[buf[b].blockno]
      modifies buf
      ensures Valid()
      ensures buf[..] == old(buf[..])[b := old(buf[b]).(holder := Free)]
    {
      SetUse(b, buf[b].refcnt, Free);
    }

    /** Count one user less; the last one moves the buffer to the front of the list. */
    method Put(b: nat)
      requires Valid() && b < NBUF && buf[b].refcnt > 0 && (buf[b].refcnt == 1 ==> buf[b].holder == Free)
      modifies this`order, this`stamp, this`clock, buf, next, prev
      ensures Valid()
      ensures buf[..] == old(buf[..])[b := old(buf[b]).(refcnt := old(buf[b]).refcnt - 1)]
      ensures buf[b].refcnt == 0 ==> order[0] == b && stamp == old(stamp)[b := old(clock)] && clock > old(clock)
      ensures buf[b].refcnt > 0 ==> order == old(order) && stamp == old(stamp) && clock == old(clock)
    {
      hide Linked, Pinned, SeenAll;
      ghost var bufs := buf[..];
      UseUnseen(bufs, slot, disk.blocks, b, buf[b].(refcnt := buf[b].refcnt - 1));
      buf[b] := buf[b].(refcnt := buf[b].refcnt - 1);
      assert buf[..] == bufs[b := buf[b]];
      if buf[b].refcnt == 0 {
        ghost var k := MoveToHead(b);
        ReleaseOrder(bufs, old(order), stamp, clock, k, buf[b]);
        stamp, clock := stamp[b := clock], clock + 1;
      }
    }

    /** Release a held buffer. */
    method Brelse(b: nat, pid: nat)
      requires Valid() && b < NBUF && buf[b].holder == Pid(pid) && buf[b].valid
      requires buf[b].dirty || buf[b].data == disk.blocks[buf[b].blockno]
      modifies this`order, this`stamp, this`clock, buf, next, prev
      ensures Valid()
      ensures buf[..] == old(buf[..])[b := old(buf[b]).(refcnt := old(buf[b]).refcnt - 1, holder := Free)]
    {
      Unlock(b, pid);
      Put(b);
    }

    /** Unlink a buffer and link it again right after the list head. */
    method MoveToHead(b: nat) returns (ghost k: nat)
      requires next.Length == NBUF + 1 && prev.Length == NBUF + 1 && next != prev
      requires Linked(next[..], prev[..], order) && IsPermutation(order) && b < NBUF
      modifies this`order, next, prev
      ensures k < NBUF && old(order)[k] == b
      ensures order == MoveToFront(old(order), k)
      ensures Linked(next[..], prev[..], order)
    {
      assert b in order;
      k :| 0 <= k < NBUF && order[k] == b;
      ghost var n0: seq<nat>, p0: seq<nat> := next[..], prev[..];
      Unlink(n0, p0, order, k);
      prev[next[b]] := prev[b];
      next[prev[b]] := next[b];
      assert next[..] == n0[p0[b] := n0[b]] && prev[..] == p0[n0[b] := p0[b]];
      PushFront(b, Without(order, k));
      order := MoveToFront(order, k);
    }
  }
}
