/** The redo log running over the buffer cache. */
module RedoLogs {
  import opened Blocks
  import opened LruList
  import opened BufferCaches
  import opened RedoSpec

  /** The contents the pinned buffers hold for the logged blocks. */
  ghost function Contents(pins: map<nat, Block>, blocks: seq<word>): (xs: seq<Block>)
    ensures |xs| == |blocks|
    ensures forall i :: 0 <= i < |blocks| && blocks[i] in pins ==> xs[i] == pins[blocks[i]]
  {
    seq(|blocks|, i requires 0 <= i < |blocks| => if blocks[i] in pins then pins[blocks[i]] else ZeroBlock())
  }

  ghost function Elements(blocks: seq<word>): (s: set<nat>)
    ensures |s| <= |blocks|
  {
    if blocks == [] then {} else Elements(blocks[..|blocks| - 1]) + {blocks[|blocks| - 1]}
  }

  lemma {:induction false} InElements(blocks: seq<word>, x: nat)
    ensures x in Elements(blocks) <==> exists i :: 0 <= i < |blocks| && blocks[i] == x
  {
    if blocks != [] {
      InElements(blocks[..|blocks| - 1], x);
    }
  }

  ghost predicate Distinct(blocks: seq<word>) {
    forall i, j :: 0 <= i < j < |blocks| ==> blocks[i] != blocks[j]
  }

  lemma NextElement(blocks: seq<word>, i: nat)
    requires i < |blocks|
    ensures Elements(blocks[..i + 1]) == Elements(blocks[..i]) + {blocks[i] as int}
    ensures Distinct(blocks) ==> blocks[i] !in Elements(blocks[..i])
  {
    assert blocks[..i + 1][..i] == blocks[..i];
    InElements(blocks[..i], blocks[i]);
  }

  /** The pinned blocks of the first m buffers, when all of them that are not in u are pinned. */
  lemma {:induction false} DirtyBlocks(bufs: seq<Buf>, slot: map<nat, nat>, image: Image, u: set<nat>,
                                       m: nat) returns (s: set<nat>)
    requires Coherent(bufs, slot, image) && m <= |bufs|
    requires forall b :: 0 <= b < m && b !in u ==> bufs[b].dirty
    ensures s <= Pinned(bufs, slot, image).Keys
    ensures forall bn :: bn in s ==> slot[bn] < m
    ensures |s| + |u| >= m
  {
    s := {};
    if m > 0 {
      s := DirtyBlocks(bufs, slot, image, u - {m - 1}, m - 1);
      if m - 1 !in u {
        assert u - {m - 1} == u;
        s := s + {bufs[m - 1].blockno};
      }
    }
  }

  /** The pinned blocks of the first m buffers, when none of them is in one of u. */
  lemma {:induction false} PinnedBlocks(bufs: seq<Buf>, slot: map<nat, nat>, image: Image, u: set<nat>,
                                        m: nat) returns (s: set<nat>)
    requires Coherent(bufs, slot, image) && m <= |bufs|
    requires forall bn :: bn in Pinned(bufs, slot, image) ==> slot[bn] !in u
    requires forall b :: b in u ==> b < m
    ensures forall bn :: bn in Pinned(bufs, slot, image) && slot[bn] < m ==> bn in s
    ensures |s| + |u| <= m
  {
    s := {};
    if m == 0 {
      assert u == {};
    } else if m - 1 in u {
      s := PinnedBlocks(bufs, slot, image, u - {m - 1}, m - 1);
    } else {
      s := PinnedBlocks(bufs, slot, image, u, m - 1);
      s := s + {bufs[m - 1].blockno};
    }
  }

  /** When the pinned blocks and the buffers in use are as many as there are buffers, none can be had. */
  lemma NoBuffer(bufs: seq<Buf>, slot: map<nat, nat>, image: Image, u: set<nat>)
    requires Coherent(bufs, slot, image) && |Pinned(bufs, slot, image)| + |u| >= |bufs|
    requires forall b :: b in u ==> b < |bufs| && !bufs[b].dirty
    ensures forall b :: 0 <= b < |bufs| ==> bufs[b].dirty || b in u
    ensures forall bn :: bn in slot ==> bn in Pinned(bufs, slot, image) || slot[bn] in u
  {
    var pins := Pinned(bufs, slot, image);
    forall b | 0 <= b < |bufs|
      ensures bufs[b].dirty || b in u
    {
      if !bufs[b].dirty && b !in u {
        var s := PinnedBlocks(bufs, slot, image, u + {b}, |bufs|);
        assert pins.Keys <= s;
        SubsetSize(pins.Keys, s);
        assert false;
      }
    }
  }

  lemma {:induction false} ElementsSize(blocks: seq<word>)
    requires Distinct(blocks)
    ensures |Elements(blocks)| == |blocks|
  {
    if blocks != [] {
      var n := |blocks| - 1;
      ElementsSize(blocks[..n]);
      InElements(blocks[..n], blocks[n]);
    }
  }

  /** Only pinned blocks and buffers in use are not to be had. */
  lemma SpareBuffer(bufs: seq<Buf>, slot: map<nat, nat>, image: Image, u: set<nat>)
    requires Coherent(bufs, slot, image) && |Pinned(bufs, slot, image)| + |u| < |bufs|
    requires forall b :: 0 <= b < |bufs| && b !in u ==> bufs[b].refcnt == 0
    ensures exists b :: 0 <= b < |bufs| && bufs[b].Recyclable()
  {
    if forall b :: 0 <= b < |bufs| && b !in u ==> bufs[b].dirty {
      var s := DirtyBlocks(bufs, slot, image, u, |bufs|);
      SubsetSize(s, Pinned(bufs, slot, image).Keys);
      assert false;
    }
  }

  lemma {:induction false} SubsetSize(a: set<nat>, b: set<nat>)
    requires a <= b
    ensures |a| <= |b|
  {
    if a != {} {
      var x :| x in a;
      SubsetSize(a - {x}, b - {x});
    }
  }

  /**
   * The log can be installed while others use k buffers: either nothing is pinned, as after a crash, or the logged
   * blocks are, each once.
   */
  ghost predicate Installable(r: Region, blocks: seq<word>, image: Image, pins: map<nat, Block>, k: nat) {
    && Loggable(image, r, blocks)
    && (forall bn :: bn in pins ==> r.Home(bn))
    && if pins == map[] then k < NBUF - 1
       else Distinct(blocks) && |pins| + k < NBUF && forall i :: 0 <= i < |blocks| ==> blocks[i] in pins
  }

  /** A round of install_trans reads what write_log stored, and writes the next installed image. */
  lemma InstallStep(r: Region, blocks: seq<word>, image: Image, tail: nat)
    requires Loggable(image, r, blocks) && tail < |blocks|
    ensures var part := AfterInstall(image, r, blocks, tail);
            AfterInstall(image, r, blocks, tail + 1) == part[blocks[tail] := part[r.start + tail + 1]]
  {
    InstallKeepsLog(image, r, blocks, tail, r.start + tail + 1);
  }

  lemma InstallNext(r: Region, blocks: seq<word>, image: Image, tail: nat, part: Image, lbn: nat, hbn: nat, next: Image)
    requires Loggable(image, r, blocks) && tail < |blocks| && part == AfterInstall(image, r, blocks, tail)
    requires hbn == blocks[tail] && lbn == r.start + tail + 1 && lbn < |part| && hbn < |part|
    requires next == part[hbn := part[lbn]]
    ensures next == AfterInstall(image, r, blocks, tail + 1)
  {
    InstallStep(r, blocks, image, tail);
  }

  lemma DropElement(blocks: seq<word>, pins: map<nat, Block>, tail: nat)
    requires tail < |blocks|
    ensures (pins - Elements(blocks[..tail])) - {blocks[tail] as int} == pins - Elements(blocks[..tail + 1])
  {
    NextElement(blocks, tail);
  }

  /** There are buffers for a block of the log and its home. */
  ghost predicate Roomy(pins: map<nat, Block>, home: nat, k: nat) {
    |pins| + k < if home in pins then NBUF else NBUF - 1
  }

  /** In each round of install_trans there are buffers for both blocks. */
  lemma InstallFits(r: Region, blocks: seq<word>, image: Image, pins: map<nat, Block>, tail: nat, k: nat)
    requires Installable(r, blocks, image, pins, k) && tail < |blocks|
    ensures var left := pins - Elements(blocks[..tail]);
            && !r.Home(r.start + tail + 1) && r.start + tail + 1 !in left && |AfterInstall(image, r, blocks, tail)| == |image|
            && r.start + tail + 1 < |image| && blocks[tail] < |image| && r.start + tail + 1 != blocks[tail]
            && Roomy(left, blocks[tail], k)
  {
    InstallStep(r, blocks, image, tail);
    if pins != map[] {
      NextElement(blocks, tail);
      SubsetSize((pins - Elements(blocks[..tail])).Keys, pins.Keys);
    }
  }

  /** What is pinned is what is logged: the transaction can be installed if that leaves a buffer. */
  lemma PinnedOnce(r: Region, blocks: seq<word>, image: Image, pins: map<nat, Block>, k: nat)
    requires Homes(image, r, blocks) && Distinct(blocks) && pins.Keys == Elements(blocks)
    ensures |pins| == |blocks| && (forall i :: 0 <= i < |blocks| ==> blocks[i] in pins)
    ensures (forall bn :: bn in pins ==> r.Home(bn)) && pins - Elements(blocks) == map[]
    ensures Loggable(image, r, blocks) && 0 < |blocks| < NBUF - k ==> Installable(r, blocks, image, pins, k)
  {
    hide Elements;
    ElementsSize(blocks);
    assert |pins| == |pins.Keys|;
    forall bn | bn in pins
      ensures r.Home(bn)
    {
      InElements(blocks, bn);
    }
    forall i | 0 <= i < |blocks|
      ensures blocks[i] in pins
    {
      InElements(blocks, blocks[i]);
    }
  }

  /** One round of write_log. */
  lemma LogStep(image: Image, r: Region, xs: seq<Block>, tail: nat)
    requires r.start + |xs| < |image| && tail < |xs|
    ensures AfterLog(image, r, xs[..tail + 1]) == AfterLog(image, r, xs[..tail])[r.start + tail + 1 := xs[tail]]
    ensures LogWrites(image, r, xs[..tail + 1]) == LogWrites(image, r, xs[..tail]) + [AfterLog(image, r, xs[..tail + 1])]
  {
    assert xs[..tail + 1][..tail] == xs[..tail];
  }

  lemma LogNothing(image: Image, r: Region, xs: seq<Block>)
    requires r.start < |image|
    ensures AfterLog(image, r, xs[..0]) == image && LogWrites(image, r, xs[..0]) == [] && xs[..|xs|] == xs
  {
  }

  /** The writes of commit are those up to the header, and then those of install_trans and the header that empties the log. */
  lemma CommitParts(image: Image, r: Region, blocks: seq<word>, xs: seq<Block>, committed: Image, h0: seq<Image>,
                    h1: seq<Image>, h2: seq<Image>)
    requires Loggable(image, r, blocks) && |xs| == |blocks| > 0 && committed == Committed(image, r, blocks, xs)
    requires Loggable(committed, r, blocks)
    requires h1 == h0 + (LogWrites(image, r, xs) + [committed]) && h2 == h1 + InstallTrace(committed, r, blocks)
    ensures h2 == h0 + CommitTrace(image, r, blocks, xs)
    ensures AfterCommit(image, r, blocks, xs) == WithHeader(AfterInstall(committed, r, blocks, |blocks|), r, [])
  {
    hide LogWrites, InstallTrace, Committed, AfterInstall;
  }

  datatype LogWriteResult = Recorded | TooBig | OutsideTransaction

  class RedoLog {
    const cache: BufferCache
    const r: Region
    const block: array<word>
    var n: nat
    var outstanding: int
    var committing: bool

    ghost function Objects(): set<object> {
      {block, cache, cache.buf, cache.next, cache.prev, cache.disk}
    }

    ghost predicate Wired()
      reads this, Objects()
    {
      && cache.Valid() && cache.buf.Length == NBUF
      && block.Length == LOGSIZE && n <= LOGSIZE
      && {block as object} !! {cache, cache.buf, cache.next, cache.prev, cache.disk}
    }

    /** lh.block[0..n): the blocks of the current transaction. */
    ghost function Logged(): seq<word>
      requires Wired()
      reads this, Objects()
    {
      block[..n]
    }

    /**
     * Between commits the log on the disk is empty, and exactly the logged blocks are pinned, each once.
     * Nothing is said of their number but that the header can hold it: log_write may let through more than fits the log.
     */
    ghost predicate Valid()
      reads this, Objects()
    {
      && Wired()
      && LogOk(cache.disk.blocks, r) && Word(cache.disk.blocks[r.start], 0) == 0
      && Homes(cache.disk.blocks, r, Logged()) && Distinct(Logged())
      && cache.pins.Keys == Elements(Logged())
    }

    constructor (cache: BufferCache, r: Region)
      requires cache.Valid()
      ensures this.cache == cache && this.r == r && fresh(block) && n == 0 && outstanding == 0 && !committing
      ensures Wired()
    {
      this.cache, this.r := cache, r;
      block := new word[LOGSIZE](_ => 0);
      n, outstanding, committing := 0, 0, false;
    }

    /** Process pid alone uses buffer b, which holds block bn. */
    ghost predicate Using(b: nat, pid: nat, bn: nat)
      requires cache.buf.Length == NBUF
      reads Objects()
    {
      && b < NBUF && cache.buf[b].dev == ROOTDEV && cache.buf[b].blockno == bn && cache.buf[b].valid
      && cache.buf[b].refcnt == 1 && cache.buf[b].holder == Pid(pid)
    }

    /** Process pid alone uses buffer b, which holds block bn as the cache has it. */
    ghost predicate Fetched(b: nat, pid: nat, bn: nat)
      requires cache.buf.Length == NBUF
      reads Objects()
    {
      && Using(b, pid, bn) && bn < |cache.disk.blocks| && cache.buf[b].dirty == (bn in cache.pins)
      && cache.buf[b].data == if bn in cache.pins then cache.pins[bn] else cache.disk.blocks[bn]
    }

    /** The buffers in u hold nothing that is logged, and not block bn. */
    ghost predicate Avoids(u: set<nat>, bn: nat)
      reads cache.buf
    {
      forall b :: b in u && b < cache.buf.Length ==>
        !cache.buf[b].dirty && !(cache.buf[b].dev == ROOTDEV && cache.buf[b].blockno == bn)
    }

    /**
     * The buffers in use are those in u, which other processes hold, and they hold neither a block of the log nor a
     * logged block: commit asks for none of them.
     */
    ghost predicate Others(u: set<nat>)
      requires Wired()
      reads this, Objects()
    {
      && cache.InUse(u)
      && (forall b :: b in u ==> !cache.buf[b].dirty)
      && (forall b :: b in u && cache.buf[b].dev == ROOTDEV ==>
            r.Home(cache.buf[b].blockno) && cache.buf[b].blockno !in Logged())
    }

    /** The buffers in u are as they were. */
    ghost predicate Kept(u: set<nat>, was: seq<Buf>)
      reads cache.buf
    {
      |was| == cache.buf.Length && forall b :: b in u && b < |was| ==> cache.buf[b] == was[b]
    }

    lemma OthersAvoid(u: set<nat>, bn: nat)
      requires Wired() && Others(u) && (bn in Logged() || !r.Home(bn))
      ensures cache.InUse(u) && Avoids(u, bn)
    {
    }

    twostate lemma StillOthers(u: set<nat>)
      requires old(Wired() && Others(u)) && Wired() && cache.InUse(u) && Kept(u, old(cache.buf[..]))
      requires Logged() == old(Logged())
      ensures Others(u)
    {
    }

    /** When the buffers in u are in use, there is a buffer for another block, and nobody holds it. */
    lemma Bufferable(bn: nat, u: set<nat>)
      requires cache.Valid() && cache.InUse(u) && Avoids(u, bn)
      requires bn in cache.pins || |cache.pins| + |u| < NBUF
      ensures bn in cache.slot ==> cache.slot[bn] < cache.buf.Length && cache.buf[cache.slot[bn]].holder == Free
      ensures bn in cache.slot || exists b :: 0 <= b < cache.buf.Length && cache.buf[b].Recyclable()
    {
      if bn !in cache.pins {
        SpareBuffer(cache.buf[..], cache.slot, cache.disk.blocks, u);
      }
    }

    /** With every buffer pinned or in use, there is none for a block in none of them. */
    lemma Unbufferable(bn: nat, u: set<nat>)
      requires cache.Valid() && cache.InUse(u) && Avoids(u, bn)
      requires bn !in cache.pins && |cache.pins| + |u| >= NBUF
      ensures bn !in cache.slot && forall b :: 0 <= b < cache.buf.Length ==> !cache.buf[b].Recyclable()
    {
      NoBuffer(cache.buf[..], cache.slot, cache.disk.blocks, u);
      assert forall b :: 0 <= b < cache.buf.Length ==> cache.buf[..][b].dirty || b in u;
    }

    /** Read a block that is in none of the buffers in use. Not ok where the source panics for want of a buffer. */
    method Fetch(pid: nat, bn: nat, ghost u: set<nat>) returns (b: nat, ok: bool)
      requires Wired() && cache.InUse(u) && Avoids(u, bn) && bn < |cache.disk.blocks|
      modifies cache, cache.buf, cache.next, cache.prev, cache.disk
      ensures Wired() && Kept(u, old(cache.buf[..])) && cache.InUse(if ok then u + {b} else u)
      ensures cache.disk.blocks == old(cache.disk.blocks) && cache.disk.history == old(cache.disk.history)
      ensures cache.pins == old(cache.pins)
      ensures ok <==> bn in cache.pins || |cache.pins| + |u| < NBUF
      ensures ok ==> b !in u && Fetched(b, pid, bn)
    {
      hide BufferCache.Valid;
      if bn in cache.pins || |cache.pins| + |u| < NBUF {
        Bufferable(bn, u);
      } else {
        Unbufferable(bn, u);
      }
      UnusedView(bn, u);
      b, ok := cache.Bread(pid, ROOTDEV, bn);
    }

    /** Read a block of the log, then its home block. Not ok where the source panics for want of a buffer. */
    method ReadPair(pid: nat, lbn: nat, hbn: nat, ghost u: set<nat>) returns (l: nat, h: nat, ok: bool)
      requires Wired() && cache.InUse(u) && Avoids(u, lbn) && Avoids(u, hbn)
      requires lbn < |cache.disk.blocks| && hbn < |cache.disk.blocks| && lbn != hbn
      requires lbn !in cache.pins && (Roomy(cache.pins, hbn, |u|) || hbn in cache.pins)
      modifies cache, cache.buf, cache.next, cache.prev, cache.disk
      ensures Wired() && Kept(u, old(cache.buf[..])) && cache.InUse(if ok then u + {l, h} else u)
      ensures cache.disk.blocks == old(cache.disk.blocks) && cache.disk.history == old(cache.disk.history)
      ensures cache.pins == old(cache.pins)
      ensures ok <==> |cache.pins| + |u| < NBUF
      ensures ok ==> {l, h} !! u && Fetched(l, pid, lbn) && Fetched(h, pid, hbn)
    {
      hide BufferCache.Valid, BufferCache.InUse;
      h := 0;
      l, ok := Fetch(pid, lbn, u);
      if !ok {
        return;
      }
      h, ok := Fetch(pid, hbn, u + {l});
      assert u + {l} + {h} == u + {l, h};
    }

    /** Write new contents to a held buffer and to the disk. */
    method Overwrite(pid: nat, b: nat, ghost bn: nat, data: Block)
      requires Wired() && Using(b, pid, bn)
      modifies cache, cache.buf, cache.disk
      ensures Wired() && Using(b, pid, bn) && bn < |cache.disk.blocks|
      ensures cache.disk.blocks == old(cache.disk.blocks)[bn := data]
      ensures cache.disk.history == old(cache.disk.history) + [cache.disk.blocks]
      ensures cache.pins == old(cache.pins) - {bn}
      ensures cache.buf[b].data == data
      ensures forall i :: 0 <= i < NBUF && i != b ==> cache.buf[i] == old(cache.buf[i])
    {
      hide Linked, ByRelease, Pinned;
      cache.SetData(b, pid, data);
      cache.Bwrite(b, pid);
    }

    /** Release the two buffers in use beside those of others. */
    method ReleasePair(pid: nat, src: nat, dst: nat, ghost sbn: nat, ghost dbn: nat, ghost u: set<nat>)
      requires Wired() && Using(src, pid, sbn) && Using(dst, pid, dbn) && sbn != dbn
      requires cache.InUse(u + {src, dst}) && {src, dst} !! u
      requires cache.buf[src].dirty || cache.buf[src].data == cache.disk.blocks[sbn]
      requires cache.buf[dst].dirty || cache.buf[dst].data == cache.disk.blocks[dbn]
      modifies cache`order, cache`stamp, cache`clock, cache.buf, cache.next, cache.prev
      ensures Wired() && cache.InUse(u) && Kept(u, old(cache.buf[..]))
    {
      hide BufferCache.Valid;
      cache.Brelse(src, pid);
      cache.Brelse(dst, pid);
    }

    /** A block in no buffer in use reads as pinned, or else as on the disk. */
    lemma UnusedView(bn: nat, u: set<nat>)
      requires cache.Valid() && cache.InUse(u) && Avoids(u, bn) && bn < |cache.disk.blocks|
      ensures cache.view[bn] == if bn in cache.pins then cache.pins[bn] else cache.disk.blocks[bn]
    {
    }

    /** Copy one fetched buffer over another, write the copy to the disk, and release both. */
    method CopyOver(pid: nat, src: nat, dst: nat, ghost sbn: nat, ghost dbn: nat, ghost u: set<nat>)
      requires Wired() && Fetched(src, pid, sbn) && Fetched(dst, pid, dbn) && sbn != dbn
      requires cache.InUse(u + {src, dst}) && {src, dst} !! u
      modifies cache, cache.buf, cache.next, cache.prev, cache.disk
      ensures Wired() && cache.InUse(u) && Kept(u, old(cache.buf[..])) && cache.pins == old(cache.pins) - {dbn}
      ensures cache.disk.blocks == old(cache.disk.blocks)[dbn := old(cache.buf[src].data)]
      ensures cache.disk.history == old(cache.disk.history) + [cache.disk.blocks]
    {
      hide BufferCache.Valid;
      Overwrite(pid, dst, dbn, cache.buf[src].data);
      ReleasePair(pid, src, dst, sbn, dbn, u);
    }

    /** One round of write_log: a logged block goes to its place in the log. Not ok where bread finds no buffer. */
    method LogBlock(pid: nat, lbn: nat, hbn: nat, ghost u: set<nat>) returns (ok: bool)
      requires Wired() && Others(u) && !r.Home(lbn) && hbn in Logged()
      requires lbn < |cache.disk.blocks| && lbn !in cache.pins
      requires hbn < |cache.disk.blocks| && hbn in cache.pins
      modifies cache, cache.buf, cache.next, cache.prev, cache.disk
      ensures Wired() && Others(u) && Kept(u, old(cache.buf[..])) && cache.pins == old(cache.pins)
      ensures ok <==> |cache.pins| + |u| < NBUF
      ensures cache.disk.blocks == if ok then old(cache.disk.blocks)[lbn := cache.pins[hbn]] else old(cache.disk.blocks)
      ensures cache.disk.history == old(cache.disk.history) + if ok then [cache.disk.blocks] else []
    {
      hide BufferCache.Valid, BufferCache.InUse, Others, Avoids;
      assert cache.pins - {lbn} == cache.pins;
      OthersAvoid(u, lbn);
      OthersAvoid(u, hbn);
      var to, from;
      to, from, ok := ReadPair(pid, lbn, hbn, u);
      if ok {
        assert {to, from} == {from, to};
        CopyOver(pid, from, to, hbn, lbn, u);
      }
      StillOthers(u);
    }

    /** One round of install_trans: a block of the log goes home. */
    method InstallBlock(pid: nat, lbn: nat, hbn: nat, ghost u: set<nat>)
      requires Wired() && cache.InUse(u) && Avoids(u, lbn) && Avoids(u, hbn)
      requires lbn < |cache.disk.blocks| && lbn !in cache.pins
      requires hbn < |cache.disk.blocks| && lbn != hbn
      requires Roomy(cache.pins, hbn, |u|)
      modifies cache, cache.buf, cache.next, cache.prev, cache.disk
      ensures Wired() && cache.InUse(u) && Kept(u, old(cache.buf[..])) && cache.pins == old(cache.pins) - {hbn}
      ensures cache.disk.blocks == old(cache.disk.blocks)[hbn := old(cache.disk.blocks)[lbn]]
      ensures cache.disk.history == old(cache.disk.history) + [cache.disk.blocks]
    {
      hide BufferCache.Valid, BufferCache.InUse, Avoids;
      var lbuf, dbuf, _ := ReadPair(pid, lbn, hbn, u);
      CopyOver(pid, lbuf, dbuf, lbn, hbn, u);
    }

    /** The images after each write of write_log from this state. */
    ghost function LogTrace(): seq<Image>
      requires Wired() && r.start + n < |cache.disk.blocks|
      reads this, Objects()
    {
      LogWrites(cache.disk.blocks, r, Contents(cache.pins, Logged()))
    }

    /** The image write_log leaves from this state. */
    ghost function LogOutcome(): Image
      requires Wired() && r.start + n < |cache.disk.blocks|
      reads this, Objects()
    {
      AfterLog(cache.disk.blocks, r, Contents(cache.pins, Logged()))
    }

    /** Copy the logged blocks from the cache to the log on the disk. Not ok where bread finds no buffer. */
    method WriteLog(pid: nat, ghost u: set<nat>) returns (ok: bool)
      requires Wired() && Others(u) && r.start + r.size <= |cache.disk.blocks| && (n > 0 ==> r.size > 1)
      requires Homes(cache.disk.blocks, r, Logged()) && (|cache.pins| + |u| < NBUF ==> n < r.size)
      requires r.start < |cache.disk.blocks| && forall i :: 0 <= i < n ==> block[i] in cache.pins
      requires forall bn :: bn in cache.pins ==> r.Home(bn)
      modifies cache, cache.buf, cache.next, cache.prev, cache.disk
      ensures Wired() && Others(u) && Kept(u, old(cache.buf[..])) && cache.pins == old(cache.pins)
      ensures ok <==> n == 0 || |cache.pins| + |u| < NBUF
      ensures !ok ==> cache.disk.blocks == old(cache.disk.blocks) && cache.disk.history == old(cache.disk.history)
      ensures ok ==> cache.disk.blocks == old(LogOutcome())
      ensures ok ==> cache.disk.history == old(cache.disk.history) + old(LogTrace())
    {
      hide BufferCache.Valid, AfterLog, LogWrites;
      ghost var blocks, image, pins := Logged(), cache.disk.blocks, cache.pins;
      ghost var xs := Contents(pins, blocks);
      LogNothing(image, r, xs);
      ok := true;
      for tail := 0 to n
        invariant Wired() && Others(u) && Kept(u, old(cache.buf[..])) && Logged() == blocks && cache.pins == pins
        invariant ok && (tail > 0 ==> |pins| + |u| < NBUF)
        invariant cache.disk.blocks == AfterLog(image, r, xs[..tail])
        invariant cache.disk.history == old(cache.disk.history) + LogWrites(image, r, xs[..tail])
      {
        assert blocks[tail] == block[tail];
        ok := LogBlock(pid, r.start + tail + 1, block[tail], u);
        if !ok {
          return;
        }
        LogStep(image, r, xs, tail);
      }
    }

    /** Copy the blocks of the log home and drop their pins. */
    method InstallTrans(pid: nat, ghost u: set<nat>)
      requires Wired() && Others(u) && Installable(r, Logged(), cache.disk.blocks, cache.pins, |u|)
      modifies cache, cache.buf, cache.next, cache.prev, cache.disk
      ensures Wired() && Others(u) && Kept(u, old(cache.buf[..]))
      ensures cache.pins == old(cache.pins) - Elements(Logged())
      ensures cache.disk.blocks == AfterInstall(old(cache.disk.blocks), r, Logged(), n)
      ensures cache.disk.history == old(cache.disk.history) + InstallWrites(old(cache.disk.blocks), r, Logged(), n)
    {
      hide BufferCache.Valid;
      ghost var blocks, image, pins := Logged(), cache.disk.blocks, cache.pins;
      for tail := 0 to n
        invariant Wired() && Others(u) && Kept(u, old(cache.buf[..])) && Logged() == blocks
        invariant cache.pins == pins - Elements(blocks[..tail])
        invariant cache.disk.blocks == AfterInstall(image, r, blocks, tail)
        invariant cache.disk.history == old(cache.disk.history) + InstallWrites(image, r, blocks, tail)
      {
        InstallRound(pid, blocks, image, pins, tail, u);
      }
      assert blocks[..n] == blocks;
    }

    method InstallRound(pid: nat, ghost blocks: seq<word>, ghost image: Image, ghost pins: map<nat, Block>, tail: nat,
                        ghost u: set<nat>)
      requires Wired() && Others(u) && Logged() == blocks && tail < n && Installable(r, blocks, image, pins, |u|)
      requires cache.pins == pins - Elements(blocks[..tail])
      requires cache.disk.blocks == AfterInstall(image, r, blocks, tail)
      modifies cache, cache.buf, cache.next, cache.prev, cache.disk
      ensures Wired() && Others(u) && Kept(u, old(cache.buf[..]))
      ensures cache.pins == pins - Elements(blocks[..tail + 1])
      ensures cache.disk.blocks == AfterInstall(image, r, blocks, tail + 1)
      ensures cache.disk.history == old(cache.disk.history) + [cache.disk.blocks]
    {
      hide BufferCache.Valid, BufferCache.InUse, Others, Avoids, Kept, Elements, AfterInstall, Loggable, Roomy;
      ghost var part, left := cache.disk.blocks, cache.pins;
      var lbn, hbn := r.start + tail + 1, block[tail];
      assert hbn == blocks[tail];
      InstallFits(r, blocks, image, pins, tail, |u|);
      OthersAvoid(u, lbn);
      OthersAvoid(u, hbn);
      InstallBlock(pid, lbn, hbn, u);
      StillOthers(u);
      DropElement(blocks, pins, tail);
      InstallNext(r, blocks, image, tail, part, lbn, hbn, cache.disk.blocks);
    }

    /** Write the in-memory header to the disk: the point where a transaction commits, or is forgotten. */
    method WriteHead(pid: nat, ghost u: set<nat>)
      requires Wired() && cache.InUse(u) && Avoids(u, r.start) && r.start < |cache.disk.blocks|
      requires r.start !in cache.pins && |cache.pins| + |u| < NBUF
      modifies cache, cache.buf, cache.next, cache.prev, cache.disk
      ensures Wired() && cache.InUse(u) && Kept(u, old(cache.buf[..])) && cache.pins == old(cache.pins)
      ensures cache.disk.blocks == WithHeader(old(cache.disk.blocks), r, Logged())
      ensures cache.disk.history == old(cache.disk.history) + [cache.disk.blocks]
    {
      hide BufferCache.Valid, BufferCache.InUse, Avoids, EncodeHeader;
      assert cache.pins - {r.start} == cache.pins;
      var b, _ := Fetch(pid, r.start, u);
      var hb := HeaderFrom(cache.buf[b].data);
      StoreHeader(pid, b, hb, u);
    }

    /** The header block with the in-memory header copied into it. */
    method HeaderFrom(b: Block) returns (hb: Block)
      requires block.Length == LOGSIZE && n <= LOGSIZE
      ensures hb == EncodeHeader(b, n, block[..n])
    {
      hb := SetWord(b, 0, n);
      ghost var blocks := block[..n];
      assert blocks[..0] == [];
      for i := 0 to n
        invariant hb == EncodeHeader(b, n, blocks[..i])
      {
        hb := SetWord(hb, i + 1, block[i]);
        assert blocks[..i + 1][..i] == blocks[..i];
      }
      assert blocks[..n] == blocks;
    }

    method StoreHeader(pid: nat, b: nat, hb: Block, ghost u: set<nat>)
      requires Wired() && Using(b, pid, r.start) && cache.InUse(u + {b}) && b !in u && r.start < |cache.disk.blocks|
      modifies cache, cache.buf, cache.next, cache.prev, cache.disk
      ensures Wired() && cache.InUse(u) && Kept(u, old(cache.buf[..])) && cache.pins == old(cache.pins) - {r.start}
      ensures cache.disk.blocks == old(cache.disk.blocks)[r.start := hb]
      ensures cache.disk.history == old(cache.disk.history) + [cache.disk.blocks]
    {
      hide BufferCache.Valid;
      Overwrite(pid, b, r.start, hb);
      cache.Brelse(b, pid);
    }

    /** Read the header on the disk into memory. */
    method ReadHead(pid: nat)
      requires Wired() && cache.InUse({}) && LogOk(cache.disk.blocks, r)
      requires r.start !in cache.pins && |cache.pins| < NBUF
      modifies this`n, block, cache, cache.buf, cache.next, cache.prev, cache.disk
      ensures Wired() && cache.InUse({}) && cache.pins == old(cache.pins)
      ensures cache.disk.blocks == old(cache.disk.blocks) && cache.disk.history == old(cache.disk.history)
      ensures Logged() == Header(cache.disk.blocks[r.start])
    {
      hide BufferCache.Valid;
      var b, _ := Fetch(pid, r.start, {});
      LoadHeader(cache.buf[b].data);
      cache.Brelse(b, pid);
    }

    method LoadHeader(hb: Block)
      requires Word(hb, 0) <= LOGSIZE && block.Length == LOGSIZE
      modifies this`n, block
      ensures n <= LOGSIZE && block[..n] == Header(hb)
    {
      n := Word(hb, 0);
      for i := 0 to n
        modifies block
        invariant forall j :: 0 <= j < i ==> block[j] == Word(hb, j + 1)
      {
        block[i] := Word(hb, i + 1);
      }
    }

    /** Each logged block is pinned, once; if they fit the log, they can be written and, if that leaves a buffer, installed. */
    lemma Committable(k: nat)
      requires Valid()
      ensures |cache.pins| == n && (n < r.size ==> Loggable(cache.disk.blocks, r, Logged()))
      ensures 0 < n < NBUF - k && n < r.size ==> Installable(r, Logged(), cache.disk.blocks, cache.pins, k)
      ensures forall i :: 0 <= i < n ==> block[i] in cache.pins
      ensures (forall bn :: bn in cache.pins ==> r.Home(bn)) && cache.pins - Elements(Logged()) == map[]
    {
      hide BufferCache.Valid;
      PinnedOnce(r, Logged(), cache.disk.blocks, cache.pins, k);
      assert forall i :: 0 <= i < n ==> Logged()[i] == block[i];
    }

    /** Write the transaction to the log, then the header that commits it. */
    method WriteAhead(pid: nat, ghost u: set<nat>) returns (ok: bool)
      requires Valid() && Others(u) && n > 0 && Room(|u|)
      modifies cache, cache.buf, cache.next, cache.prev, cache.disk
      ensures Wired() && Others(u) && Kept(u, old(cache.buf[..])) && cache.pins == old(cache.pins)
      ensures ok <==> n + |u| < NBUF
      ensures !ok ==> cache.disk.blocks == old(cache.disk.blocks) && cache.disk.history == old(cache.disk.history)
      ensures ok ==> Installable(r, Logged(), cache.disk.blocks, cache.pins, |u|)
      ensures ok ==> cache.disk.blocks == Committed(old(cache.disk.blocks), r, Logged(), Contents(cache.pins, Logged()))
      ensures ok ==>
                cache.disk.history == old(cache.disk.history)
                                      + (LogWrites(old(cache.disk.blocks), r, Contents(cache.pins, Logged())) + [cache.disk.blocks])
    {
      hide BufferCache.Valid, AfterLog, LogWrites, Contents, Elements, Distinct;
      Committable(|u|);
      ok := WriteLog(pid, u);
      if !ok {
        return;
      }
      WriteHead(pid, u);
    }

    /** Install the log of the disk and empty it. */
    method InstallAndErase(pid: nat, ghost u: set<nat>)
      requires Wired() && Others(u) && Installable(r, Logged(), cache.disk.blocks, cache.pins, |u|)
      requires cache.pins - Elements(Logged()) == map[]
      modifies this`n, cache, cache.buf, cache.next, cache.prev, cache.disk
      ensures Valid() && Others(u) && Kept(u, old(cache.buf[..])) && n == 0 && cache.pins == map[]
      ensures cache.disk.history == old(cache.disk.history) + InstallTrace(old(cache.disk.blocks), r, old(Logged()))
      ensures cache.disk.blocks == WithHeader(AfterInstall(old(cache.disk.blocks), r, old(Logged()), |old(Logged())|), r, [])
    {
      hide BufferCache.Valid, BufferCache.InUse, Others, AfterInstall;
      InstallTrans(pid, u);
      Erase(pid, u);
    }

    /** Empty the log, when nothing is pinned. */
    method Erase(pid: nat, ghost u: set<nat>)
      requires Wired() && Others(u) && cache.pins == map[] && |u| < NBUF
      requires 0 < r.size && r.start + r.size <= |cache.disk.blocks|
      modifies this`n, cache, cache.buf, cache.next, cache.prev, cache.disk
      ensures Valid() && Others(u) && Kept(u, old(cache.buf[..])) && n == 0 && cache.pins == map[]
      ensures cache.disk.blocks == WithHeader(old(cache.disk.blocks), r, [])
      ensures cache.disk.history == old(cache.disk.history) + [cache.disk.blocks]
    {
      hide BufferCache.Valid, BufferCache.InUse;
      ClearedIsRecovered(cache.disk.blocks, r);
      OthersAvoid(u, r.start);
      n := 0;
      assert Logged() == [];
      WriteHead(pid, u);
    }

    /**
     * The transaction fits the log, or it pins every buffer but the k others use, so that commit does not come to
     * write it. With a log of at least NBUF blocks, as mkfs makes, that is always so.
     */
    predicate Room(k: nat)
      reads this
    {
      (n + k < NBUF ==> n < r.size) && (n > 0 ==> r.size > 1)
    }

    /** The images after each disk write of a commit from this state. */
    ghost function CommitWrites(): seq<Image>
      requires Valid() && n < r.size
      reads this, Objects()
    {
      CommitTrace(cache.disk.blocks, r, Logged(), Contents(cache.pins, Logged()))
    }

    /** The image a commit from this state leaves. */
    ghost function CommitOutcome(): Image
      requires Valid() && n < r.size
      reads this, Objects()
    {
      AfterCommit(cache.disk.blocks, r, Logged(), Contents(cache.pins, Logged()))
    }

    /**
     * Commit the current transaction, while others hold the buffers in u. Every disk write appears in the trace, in order.
     * Not ok where the source panics before its first write, every buffer being pinned or held.
     */
    method Commit(pid: nat, ghost u: set<nat>) returns (ok: bool)
      requires Valid() && Others(u) && Room(|u|)
      modifies this`n, cache, cache.buf, cache.next, cache.prev, cache.disk
      ensures Valid() && Others(u) && Kept(u, old(cache.buf[..]))
      ensures ok <==> old(n) == 0 || old(n) + |u| < NBUF
      ensures ok ==> n == 0 && cache.pins == map[]
      ensures ok ==> cache.disk.history == old(cache.disk.history) + old(CommitWrites())
      ensures ok ==> cache.disk.blocks == old(CommitOutcome())
      ensures !ok ==> n == old(n) && cache.pins == old(cache.pins)
                      && cache.disk.blocks == old(cache.disk.blocks) && cache.disk.history == old(cache.disk.history)
    {
      hide BufferCache.Valid, AfterLog, LogWrites, AfterInstall, InstallTrace;
      if n > 0 {
        ok := CommitBlocks(pid, u);
      } else {
        assert Logged() == [];
        ok := true;
      }
    }

    method CommitBlocks(pid: nat, ghost u: set<nat>) returns (ok: bool)
      requires Valid() && Others(u) && n > 0 && Room(|u|)
      modifies this`n, cache, cache.buf, cache.next, cache.prev, cache.disk
      ensures Valid() && Others(u) && Kept(u, old(cache.buf[..]))
      ensures ok <==> old(n) == 0 || old(n) + |u| < NBUF
      ensures ok ==> n == 0 && cache.pins == map[]
      ensures ok ==> cache.disk.history == old(cache.disk.history) + old(CommitWrites())
      ensures ok ==> cache.disk.blocks == old(CommitOutcome())
      ensures !ok ==> n == old(n) && cache.pins == old(cache.pins)
                      && cache.disk.blocks == old(cache.disk.blocks) && cache.disk.history == old(cache.disk.history)
    {
      hide BufferCache.Valid, Elements, AfterLog, LogWrites, AfterInstall, InstallTrace;
      hide Contents, Committed, Loggable, LogOk, Distinct, Homes, CommitTrace, AfterCommit;
      Committable(|u|);
      ghost var image, blocks, xs, history := cache.disk.blocks, Logged(), Contents(cache.pins, Logged()), cache.disk.history;
      ok := WriteAhead(pid, u);
      if ok {
        ghost var committed, ahead := cache.disk.blocks, cache.disk.history;
        InstallAndErase(pid, u);
        CommitParts(image, r, blocks, xs, committed, history, ahead, cache.disk.history);
      }
    }

    /** One round of begin_op under the lock: start the operation, or report that it has to sleep. */
    method TryBegin() returns (started: bool)
      modifies this`outstanding
      ensures started <==> !NoRoom(committing, n, old(outstanding))
      ensures outstanding == old(outstanding) + if started then 1 else 0
    {
      if committing {
        return false;
      } else if n + (outstanding + 1) * MAXOPBLOCKS > LOGSIZE {
        return false;
      }
      outstanding := outstanding + 1;
      return true;
    }

    /** end_op: the last operation out commits, while others hold the buffers in u. False where the source panics. */
    method EndOp(pid: nat, ghost u: set<nat>) returns (ok: bool)
      requires Valid() && (outstanding == 1 ==> Others(u) && Room(|u|))
      modifies this`n, this`outstanding, this`committing, cache, cache.buf, cache.next, cache.prev, cache.disk
      ensures ok <==> !old(committing) && (outstanding == 0 ==> old(n) == 0 || old(n) + |u| < NBUF)
      ensures Kept(u, old(cache.buf[..]))
      ensures Valid() && (ok ==> committing == old(committing)) && outstanding == old(outstanding) - 1
      ensures ok && outstanding == 0 ==>
                && n == 0 && cache.pins == map[]
                && cache.disk.history == old(cache.disk.history) + old(CommitWrites())
                && cache.disk.blocks == old(CommitOutcome())
      ensures !(ok && outstanding == 0) ==>
                n == old(n) && cache.pins == old(cache.pins) && cache.disk.history == old(cache.disk.history)
    {
      hide BufferCache.Valid, LogOk, Loggable, Homes, Elements, Distinct, CommitTrace, AfterCommit, Contents;
      outstanding := outstanding - 1;
      if committing {
        return false;
      }
      if outstanding == 0 {
        committing := true;
        ok := Commit(pid, u);
        if !ok {
          return;
        }
        committing := false;
      }
      return true;
    }

    /** Replay and empty the log on the disk after a restart. */
    method RecoverFromLog(pid: nat)
      requires Wired() && cache.InUse({}) && cache.pins == map[] && LogOk(cache.disk.blocks, r)
      modifies this`n, block, cache, cache.buf, cache.next, cache.prev, cache.disk
      ensures Valid() && cache.InUse({}) && n == 0 && cache.pins == map[]
      ensures var trace := RecoveryTrace(old(cache.disk.blocks), r);
              && cache.disk.history == old(cache.disk.history) + trace
              && cache.disk.blocks == trace[|trace| - 1]
    {
      hide BufferCache.Valid;
      ReadHead(pid);
      InstallAndErase(pid, {});
    }

    /** The tests of log_write, made before it takes log.lock. */
    method TestWrite() returns (result: LogWriteResult)
      ensures result == if n >= LOGSIZE || n >= r.size - 1 then TooBig
                        else if outstanding < 1 then OutsideTransaction else Recorded
    {
      if n >= LOGSIZE || n >= r.size - 1 {
        return TooBig;
      }
      if outstanding < 1 {
        return OutsideTransaction;
      }
      return Recorded;
    }

    /**
     * The rest of log_write, under log.lock: the caller has modified the held buffer b; record its block in the
     * transaction, once, and pin it. Others may have come in since the tests; the reservation leaves a place in the header.
     */
    method RecordWrite(b: nat, pid: nat)
      requires Valid() && b < NBUF && cache.buf[b].holder == Pid(pid) && cache.buf[b].valid
      requires cache.buf[b].blockno < |cache.disk.blocks| && r.Home(cache.buf[b].blockno)
      requires cache.buf[b].blockno < 0x1_0000_0000
      requires n < LOGSIZE || cache.buf[b].blockno in Logged()
      modifies this`n, block, cache`pins, cache.buf
      ensures Valid()
      ensures Logged() == (if old(cache.buf[b]).blockno in old(Logged()) then old(Logged())
                           else old(Logged()) + [old(cache.buf[b]).blockno])
      ensures cache.pins == old(cache.pins)[old(cache.buf[b]).blockno := old(cache.buf[b]).data]
      ensures cache.buf[..] == old(cache.buf[..])[b := old(cache.buf[b]).(dirty := true)]
    {
      hide BufferCache.Valid, Distinct, Elements, LogOk;
      Absorb(cache.buf[b].blockno);
      cache.Pin(b, pid);
    }

    /** log_write with nobody in between: then the transaction keeps fitting the log. */
    method LogWrite(b: nat, pid: nat) returns (result: LogWriteResult)
      requires Valid() && b < NBUF && cache.buf[b].holder == Pid(pid) && cache.buf[b].valid
      requires cache.buf[b].blockno < |cache.disk.blocks| && r.Home(cache.buf[b].blockno)
      requires cache.buf[b].blockno < 0x1_0000_0000
      modifies this`n, block, cache`pins, cache.buf
      ensures Valid() && (old(n) < r.size ==> n < r.size)
      ensures result == if old(n) >= LOGSIZE || old(n) >= r.size - 1 then TooBig
                        else if outstanding < 1 then OutsideTransaction else Recorded
      ensures result != Recorded ==> Logged() == old(Logged()) && cache.pins == old(cache.pins) && cache.buf[..] == old(cache.buf[..])
      ensures result == Recorded ==>
                && Logged() == (if old(cache.buf[b]).blockno in old(Logged()) then old(Logged())
                                else old(Logged()) + [old(cache.buf[b]).blockno])
                && cache.pins == old(cache.pins)[old(cache.buf[b]).blockno := old(cache.buf[b]).data]
                && cache.buf[..] == old(cache.buf[..])[b := old(cache.buf[b]).(dirty := true)]
    {
      hide BufferCache.Valid, Distinct, Elements, LogOk, Homes;
      result := TestWrite();
      if result == Recorded {
        RecordWrite(b, pid);
        assert n == |Logged()|;
      }
    }

    /** Add a block to the transaction unless it is there already. */
    method Absorb(bn: word)
      requires block.Length == LOGSIZE && n <= LOGSIZE && Distinct(block[..n]) && (n < LOGSIZE || bn in block[..n])
      modifies this`n, block
      ensures n <= LOGSIZE && n <= old(n) + 1 && Distinct(block[..n])
      ensures block[..n] == if bn in old(block[..n]) then old(block[..n]) else old(block[..n]) + [bn]
      ensures Elements(block[..n]) == old(Elements(block[..n])) + {bn as int}
    {
      ghost var blocks := block[..n];
      var i := 0;
      while i < n && block[i] != bn
        invariant i <= n && bn !in blocks[..i]
      {
        assert blocks[..i + 1] == blocks[..i] + [block[i]];
        i := i + 1;
      }
      block[i] := bn;
      if i == n {
        n := n + 1;
        assert block[..n] == blocks + [bn];
        assert block[..n][..|blocks|] == blocks;
      } else {
        assert block[..n] == blocks;
        InElements(blocks, bn);
      }
    }
  }
}
