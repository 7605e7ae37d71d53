/** Block allocation, block maps, reading, writing and truncating files. */
module FileSystems {
  import opened Blocks
  import opened Bitmap
  import opened BlockTree
  import opened BlockCount
  import opened Truncation

  /** The block of a file that holds its blocks' data number bn; 0 if there is none. */
  function DataBlock(image: Image, addrs: seq<word>, bn: nat): nat {
    BlockOf(image, addrs, PathOf(bn))
  }

  /** Byte k of a file, as far as blocks are allocated. */
  function FileByte(image: Image, addrs: seq<word>, k: nat): byte {
    var b := DataBlock(image, addrs, k / BSIZE);
    if 0 < b < |image| then image[b][k % BSIZE] else 0
  }

  /** The contents of a file of the given size. */
  function Contents(image: Image, addrs: seq<word>, size: nat): (s: seq<byte>)
    ensures |s| == size
  {
    seq(size, k requires 0 <= k < size => FileByte(image, addrs, k))
  }

  /** Every block below the size of a file is allocated. */
  ghost predicate NoHoles(image: Image, inodes: seq<seq<word>>, sizes: seq<nat>) {
    && |sizes| == |inodes|
    && forall i: nat, bn: nat :: i < |inodes| && bn * BSIZE < sizes[i] ==> HasBlock(image, inodes[i], bn)
  }

  ghost predicate HasBlock(image: Image, addrs: seq<word>, bn: nat) {
    DataBlock(image, addrs, bn) != 0
  }

  /** Adding blocks does not change a byte that was there. */
  lemma ExtendsByte(image: Image, inodes: seq<seq<word>>, image': Image, inodes': seq<seq<word>>, lay: Layout, i: nat,
                    g: Path, j: nat, k: nat)
    requires Tree(image, inodes, lay) && Extends(image, inodes, image', inodes', i, g)
    requires j < |inodes| && k < MAXFILE * BSIZE && HasBlock(image, inodes[j], k / BSIZE)
    ensures HasBlock(image', inodes'[j], k / BSIZE) && FileByte(image', inodes'[j], k) == FileByte(image, inodes[j], k)
  {
    hide PathOf, BlockOf;
    var q := PathOf(k / BSIZE);
    PathOfLeaf(k / BSIZE);
    assert ExtendsAt(image, inodes[j], image', inodes'[j], j == i && q <= g, q);
    assert PlaceOk(image, inodes[j], lay, q);
  }

  /** Writing one data block changes the bytes of that block of that file, and nothing else. */
  lemma WriteByte(image: Image, inodes: seq<seq<word>>, lay: Layout, i: nat, bn: nat, data: Block, j: nat, k: nat)
    requires Tree(image, inodes, lay) && i < |inodes| && bn < MAXFILE && HasBlock(image, inodes[i], bn)
    requires j < |inodes| && k < MAXFILE * BSIZE
    ensures DataBlock(image, inodes[i], bn) < |image|
    ensures FileByte(image[DataBlock(image, inodes[i], bn) := data], inodes[j], k) ==
            if j == i && k / BSIZE == bn then data[k % BSIZE] else FileByte(image, inodes[j], k)
  {
    hide PathOf, BlockOf;
    WriteTree(image, inodes, lay, i, bn, data);
    PathOfLeaf(bn);
    PathOfLeaf(k / BSIZE);
    var b := DataBlock(image, inodes[i], bn);
    var image' := image[b := data];
    assert SamePlace(image, inodes[j], image', inodes[j], PathOf(k / BSIZE));
    if j != i || k / BSIZE != bn {
      LeafOfBlock(PathOf(bn));
      LeafOfBlock(PathOf(k / BSIZE));
      DifferentPlaces(image, inodes, lay, i, PathOf(bn), j, PathOf(k / BSIZE));
    }
  }

  lemma WriteTree(image: Image, inodes: seq<seq<word>>, lay: Layout, i: nat, bn: nat, data: Block)
    requires Tree(image, inodes, lay) && i < |inodes| && bn < MAXFILE && HasBlock(image, inodes[i], bn)
    ensures var b := DataBlock(image, inodes[i], bn);
            && lay.nmeta <= b < |image|
            && SameTrees(image, inodes, image[b := data], inodes)
            && Tree(image[b := data], inodes, lay)
            && forall c: nat :: c < lay.size ==> (Used(image[b := data], lay.bmapstart, c) <==> Used(image, lay.bmapstart, c))
  {
    hide PathOf, BlockOf, Used;
    PathOfLeaf(bn);
    var b := DataBlock(image, inodes[i], bn);
    assert PlaceOk(image, inodes[i], lay, PathOf(bn));
    var image' := image[b := data];
    forall j: nat, q | j < |inodes| && ValidPath(q)
      ensures SamePlace(image, inodes[j], image', inodes[j], q)
    {
      forall q' | ValidPath(q') && !IsLeaf(q')
        ensures SameBlock(image, image', BlockOf(image, inodes[j], q'))
      {
        DifferentPlaces(image, inodes, lay, i, PathOf(bn), j, q');
      }
      BlockOfFrame(image, image', inodes[j], q);
    }
    forall c: nat | c < lay.size
      ensures Used(image', lay.bmapstart, c) <==> Used(image, lay.bmapstart, c)
    {
      UsedFrame(image, image', lay, c);
    }
    SameTreesTree(image, inodes, image', inodes, lay);
  }

  lemma SameTreesNoLeak(image: Image, inodes: seq<seq<word>>, image': Image, inodes': seq<seq<word>>, lay: Layout)
    requires lay.Ok() && |image| == lay.size && SameTrees(image, inodes, image', inodes') && NoLeak(image, inodes, lay)
    requires forall c: nat :: c < lay.size ==> (Used(image', lay.bmapstart, c) <==> Used(image, lay.bmapstart, c))
    ensures NoLeak(image', inodes', lay)
  {
    hide BlockOf, Used;
    forall b: nat | lay.nmeta <= b < lay.size && Used(image', lay.bmapstart, b)
      ensures InTree(image', inodes', b)
    {
      var j: nat, q :| j < |inodes| && ValidPath(q) && BlockOf(image, inodes[j], q) == b;
      assert SamePlace(image, inodes[j], image', inodes'[j], q);
    }
  }

  /** A sequence with data written over it from position off on, growing if need be. */
  function Overlay(s: seq<byte>, off: nat, data: seq<byte>): (r: seq<byte>)
    requires off <= |s|
    ensures |r| == Max(|s|, off + |data|)
  {
    seq(Max(|s|, off + |data|), k requires 0 <= k < Max(|s|, off + |data|) => if off <= k < off + |data| then data[k - off] else s[k])
  }

  function Max(x: nat, y: nat): nat {
    if x < y then y else x
  }

  /** After the first |data| bytes at off have been written to file i. */
  ghost predicate Written(image: Image, inodes: seq<seq<word>>, image': Image, inodes': seq<seq<word>>,
                          sizes: seq<nat>, i: nat, off: nat, data: seq<byte>) {
    && |image'| == |image| && |inodes'| == |inodes| == |sizes|
    && forall j: nat, k: nat :: j < |inodes| && (k < sizes[j] || (j == i && off <= k < off + |data|)) ==>
         WrittenAt(image, inodes, image', inodes', i, off, data, j, k)
  }

  ghost predicate WrittenAt(image: Image, inodes: seq<seq<word>>, image': Image, inodes': seq<seq<word>>, i: nat,
                            off: nat, data: seq<byte>, j: nat, k: nat)
    requires j < |inodes| == |inodes'|
  {
    && HasBlock(image', inodes'[j], k / BSIZE)
    && FileByte(image', inodes'[j], k) == if j == i && off <= k < off + |data| then data[k - off] else FileByte(image, inodes[j], k)
  }

  /** One turn of the loop of writei: more is written at position o of block bn. */
  lemma WrittenStep(lay: Layout, m0: Image, a0: seq<seq<word>>, m1: Image, a1: seq<seq<word>>, m2: Image, a2: seq<seq<word>>,
                    sizes: seq<nat>, i: nat, off: nat, done: seq<byte>, more: seq<byte>, bn: nat, o: nat)
    requires Tree(m1, a1, lay) && Tree(m2, a2, lay) && Written(m0, a0, m1, a1, sizes, i, off, done)
    requires i < |a1| && off + |done| == bn * BSIZE + o && o + |more| <= BSIZE && bn < MAXFILE
    requires Extends(m1, a1, m2, a2, i, PathOf(bn)) && HasBlock(m2, a2[i], bn)
    requires forall j :: 0 <= j < |sizes| ==> sizes[j] <= MAXFILE * BSIZE
    ensures var b := DataBlock(m2, a2[i], bn);
            b < |m2| && Written(m0, a0, m2[b := Overlay(m2[b], o, more)], a2, sizes, i, off, done + more)
  {
    hide BlockOf, PathOf, Tree, ExtendsAt;
    WriteTree(m2, a2, lay, i, bn, ZeroBlock());
    var b := DataBlock(m2, a2[i], bn);
    var m3 := m2[b := Overlay(m2[b], o, more)];
    forall j: nat, k: nat | j < |a0| && (k < sizes[j] || (j == i && off <= k < off + |done| + |more|))
      ensures WrittenAt(m0, a0, m3, a2, i, off, done + more, j, k)
    {
      WrittenStepAt(lay, m0, a0, m1, a1, m2, a2, sizes, i, off, done, more, bn, o, j, k);
    }
  }

  lemma WrittenStepAt(lay: Layout, m0: Image, a0: seq<seq<word>>, m1: Image, a1: seq<seq<word>>, m2: Image,
                      a2: seq<seq<word>>,
                      sizes: seq<nat>, i: nat, off: nat, done: seq<byte>, more: seq<byte>, bn: nat, o: nat, j: nat, k: nat)
    requires Tree(m1, a1, lay) && Tree(m2, a2, lay) && Written(m0, a0, m1, a1, sizes, i, off, done)
    requires i < |a1| && off + |done| == bn * BSIZE + o && o + |more| <= BSIZE && bn < MAXFILE
    requires Extends(m1, a1, m2, a2, i, PathOf(bn)) && HasBlock(m2, a2[i], bn)
    requires j < |a0| && (k < sizes[j] || (j == i && off <= k < off + |done| + |more|)) && k < MAXFILE * BSIZE
    ensures var b := DataBlock(m2, a2[i], bn);
            b < |m2| && WrittenAt(m0, a0, m2[b := Overlay(m2[b], o, more)], a2, i, off, done + more, j, k)
  {
    hide BlockOf, PathOf, Tree, ExtendsAt;
    WriteTree(m2, a2, lay, i, bn, ZeroBlock());
    var b := DataBlock(m2, a2[i], bn);
    var data := Overlay(m2[b], o, more);
    WriteTree(m2, a2, lay, i, bn, data);
    WriteByte(m2, a2, lay, i, bn, data, j, k);
    PathOfLeaf(k / BSIZE);
    assert SamePlace(m2, a2[j], m2[b := data], a2[j], PathOf(k / BSIZE));
    if k < sizes[j] || (j == i && off <= k < off + |done|) {
      assert WrittenAt(m0, a0, m1, a1, i, off, done, j, k);
      ExtendsByte(m1, a1, m2, a2, lay, i, PathOf(bn), j, k);
    }
  }

  lemma WrittenNothing(image: Image, inodes: seq<seq<word>>, sizes: seq<nat>, i: nat, off: nat)
    requires NoHoles(image, inodes, sizes)
    ensures Written(image, inodes, image, inodes, sizes, i, off, [])
  {
    forall j: nat, k: nat | j < |inodes| && k < sizes[j]
      ensures WrittenAt(image, inodes, image, inodes, i, off, [], j, k)
    {
      assert k / BSIZE * BSIZE < sizes[j];
    }
  }

  /** Once everything is written, the file is its old contents with the data laid over, and the others are as before. */
  lemma WrittenAll(image: Image, inodes: seq<seq<word>>, image': Image, inodes': seq<seq<word>>, sizes: seq<nat>,
                   i: nat, off: nat, data: seq<byte>)
    requires Written(image, inodes, image', inodes', sizes, i, off, data) && i < |inodes| && off <= sizes[i]
    ensures var sizes' := sizes[i := Max(sizes[i], off + |data|)];
            && NoHoles(image', inodes', sizes')
            && Contents(image', inodes'[i], sizes'[i]) == Overlay(Contents(image, inodes[i], sizes[i]), off, data)
            && forall j :: 0 <= j < |inodes| && j != i ==> Contents(image', inodes'[j], sizes[j]) == Contents(image, inodes[j], sizes[j])
  {
    hide HasBlock, FileByte;
    var sizes' := sizes[i := Max(sizes[i], off + |data|)];
    forall j: nat, bn: nat | j < |inodes| && bn * BSIZE < sizes'[j]
      ensures HasBlock(image', inodes'[j], bn)
    {
      assert WrittenAt(image, inodes, image', inodes', i, off, data, j, bn * BSIZE);
    }
    forall j: nat, k: nat | j < |inodes| && k < sizes'[j]
      ensures FileByte(image', inodes'[j], k) == if j == i && off <= k < off + |data| then data[k - off] else FileByte(image, inodes[j], k)
    {
      assert WrittenAt(image, inodes, image', inodes', i, off, data, j, k);
    }
    forall j: nat | j < |inodes| && j != i
      ensures Contents(image', inodes'[j], sizes[j]) == Contents(image, inodes[j], sizes[j])
    {
      assert forall k: nat :: k < sizes[j] ==> FileByte(image', inodes'[j], k) == FileByte(image, inodes[j], k);
    }
  }

  /** Adding blocks does not undo what has been written. */
  lemma WrittenExtends(lay: Layout, m0: Image, a0: seq<seq<word>>, m1: Image, a1: seq<seq<word>>, m2: Image,
                       a2: seq<seq<word>>, sizes: seq<nat>, i: nat, off: nat, done: seq<byte>, g: Path)
    requires Tree(m1, a1, lay) && Written(m0, a0, m1, a1, sizes, i, off, done) && Extends(m1, a1, m2, a2, i, g)
    requires off + |done| <= MAXFILE * BSIZE && forall j :: 0 <= j < |sizes| ==> sizes[j] <= MAXFILE * BSIZE
    ensures Written(m0, a0, m2, a2, sizes, i, off, done)
  {
    hide Tree, Extends, HasBlock, FileByte;
    assert |m2| == |m1| && |a2| == |a1| by {
      ExtendsShape(m1, a1, m2, a2, i, g);
    }
    forall j: nat, k: nat | j < |a0| && (k < sizes[j] || (j == i && off <= k < off + |done|))
      ensures WrittenAt(m0, a0, m2, a2, i, off, done, j, k)
    {
      assert WrittenAt(m0, a0, m1, a1, i, off, done, j, k);
      ExtendsByte(m1, a1, m2, a2, lay, i, g, j, k);
    }
  }

  lemma ExtendsShape(m1: Image, a1: seq<seq<word>>, m2: Image, a2: seq<seq<word>>, i: nat, g: Path)
    requires Extends(m1, a1, m2, a2, i, g)
    ensures |m2| == |m1| && |a2| == |a1|
  {
  }

  /** A write that stops short leaves the file at its old size, with the bytes written so far in place. */
  lemma WrittenPart(image: Image, inodes: seq<seq<word>>, image': Image, inodes': seq<seq<word>>, sizes: seq<nat>,
                    i: nat, off: nat, data: seq<byte>)
    requires Written(image, inodes, image', inodes', sizes, i, off, data) && i < |inodes| && off <= sizes[i]
    ensures NoHoles(image', inodes', sizes)
    ensures Contents(image', inodes'[i], sizes[i]) == Overlay(Contents(image, inodes[i], sizes[i]), off, data)[..sizes[i]]
    ensures forall j :: 0 <= j < |inodes| && j != i ==> Contents(image', inodes'[j], sizes[j]) == Contents(image, inodes[j], sizes[j])
  {
    WrittenAll(image, inodes, image', inodes', sizes, i, off, data);
    hide HasBlock, FileByte, Written;
    var longer := sizes[i := Max(sizes[i], off + |data|)];
    assert forall j :: 0 <= j < |sizes| ==> sizes[j] <= longer[j];
    assert Contents(image', inodes'[i], sizes[i]) == Contents(image', inodes'[i], longer[i])[..sizes[i]];
  }

  /** A file system whose trees are sound, whatever the sizes of its files. The boot block holds zeroes. */
  ghost predicate SoundBlocks(image: Image, addrs: seq<seq<word>>, lay: Layout) {
    && lay.Ok() && |image| == lay.size && image[0] == ZeroBlock()
    && Tree(image, addrs, lay) && MetaUsed(image, lay)
    && (forall i :: 0 <= i < |addrs| ==> |addrs[i]| == SLOTS)
  }

  /** Writing a data block keeps the trees and the free map. */
  lemma WriteKeeps(image: Image, addrs: seq<seq<word>>, lay: Layout, i: nat, bn: nat, data: Block)
    requires SoundBlocks(image, addrs, lay) && i < |addrs| && bn < MAXFILE && HasBlock(image, addrs[i], bn)
    ensures var b := DataBlock(image, addrs[i], bn);
            && 0 < b < |image| && SoundBlocks(image[b := data], addrs, lay)
            && (NoLeak(image, addrs, lay) ==> NoLeak(image[b := data], addrs, lay))
  {
    hide Used, BlockOf, PathOf;
    WriteTree(image, addrs, lay, i, bn, data);
    if NoLeak(image, addrs, lay) {
      SameTreesNoLeak(image, addrs, image[DataBlock(image, addrs[i], bn) := data], addrs, lay);
    }
    var image' := image[DataBlock(image, addrs[i], bn) := data];
    forall c: nat | c < lay.nmeta
      ensures Used(image', lay.bmapstart, c)
    {
      assert c < lay.size && Used(image, lay.bmapstart, c);
    }
  }

  /** Blocks were added on the way to place g of inode i: nothing else moved, nothing leaked, and no block was taken for less. */
  ghost predicate Grown(lay: Layout, image: Image, addrs: seq<seq<word>>, image': Image, addrs': seq<seq<word>>,
                        i: nat, g: Path)
    requires lay.Ok() && |image| == lay.size
  {
    && SoundBlocks(image', addrs', lay)
    && Extends(image, addrs, image', addrs', i, g)
    && (NoLeak(image, addrs, lay) ==> NoLeak(image', addrs', lay))
    && (i < |addrs| ==> PaidFor(lay, image, addrs[i], image', addrs'[i], g))
  }

  /** The first n blocks are in use. */
  ghost predicate AllUsed(image: Image, lay: Layout, n: nat)
    requires lay.Ok() && |image| == lay.size
  {
    forall c: nat :: c < n && c < lay.size ==> Used(image, lay.bmapstart, c)
  }

  /** No block is left to allocate. */
  ghost predicate Full(image: Image, lay: Layout)
    requires lay.Ok() && |image| == lay.size
  {
    AllUsed(image, lay, lay.size)
  }

  lemma GrownNothing(lay: Layout, image: Image, addrs: seq<seq<word>>, i: nat, g: Path)
    requires SoundBlocks(image, addrs, lay)
    ensures Grown(lay, image, addrs, image, addrs, i, g)
  {
    ExtendsNothing(image, addrs, i, g);
    if i < |addrs| {
      PaidNothing(lay, image, addrs[i], g);
    }
  }

  lemma GrownTransitive(lay: Layout, m0: Image, a0: seq<seq<word>>, m1: Image, a1: seq<seq<word>>, m2: Image,
                        a2: seq<seq<word>>, i: nat, g: Path)
    requires lay.Ok() && |m0| == |m1| == lay.size
    requires Grown(lay, m0, a0, m1, a1, i, g) && Grown(lay, m1, a1, m2, a2, i, g)
    ensures Grown(lay, m0, a0, m2, a2, i, g)
  {
    hide SoundBlocks, NoLeak, BlockOf;
    ExtendsTransitive(m0, a0, m1, a1, m2, a2, i, g);
    hide PaidFor;
    if i < |a0| {
      PaidTwice(lay, m0, a0[i], m1, a1[i], m2, a2[i], g);
    }
  }

  lemma PlantedGrown(lay: Layout, image: Image, addrs: seq<seq<word>>, image': Image, addrs': seq<seq<word>>, i: nat,
                     h: Path, v: word, g: Path)
    requires SoundBlocks(image, addrs, lay) && v < lay.size && !Used(image, lay.bmapstart, v)
    requires Planted(image, addrs, image', addrs', lay, i, h, v) && h <= g && ValidPath(h) && i < |addrs|
    requires BlockOf(image, addrs[i], h) == 0 && (forall j :: 0 <= j < |addrs'| ==> |addrs'[j]| == SLOTS)
    requires |image'| == |image| && image'[0] == image[0]
    ensures Grown(lay, image, addrs, image', addrs', i, g) && BlockOf(image', addrs'[i], h) == v != 0
  {
    hide Planted, Tree, Used, BlockOf, NoLeak, ValidPath;
    PlantedKeeps(image, addrs, image', addrs', lay, i, h, v, g);
    PathNotEmpty(h);
    hide PaidFor;
    PaidOne(lay, image, addrs[i], image', addrs'[i], h, v, g);
  }

  lemma GrownShape(lay: Layout, m: Image, a: seq<seq<word>>, m': Image, a': seq<seq<word>>, i: nat, g: Path)
    requires lay.Ok() && |m| == lay.size && Grown(lay, m, a, m', a', i, g)
    ensures |m'| == lay.size && |a'| == |a| && SoundBlocks(m', a', lay) && Extends(m, a, m', a', i, g)
    ensures NoLeak(m, a, lay) ==> NoLeak(m', a', lay)
  {
  }

  /** What bmap needs on its way against what is free. */
  lemma BmapExact(lay: Layout, m: Image, a: seq<seq<word>>, m': Image, a': seq<seq<word>>, i: nat, bn: nat, ok: bool)
    requires lay.Ok() && |m| == |m'| == lay.size && i < |a| && bn < MAXFILE && Grown(lay, m, a, m', a', i, PathOf(bn)) && i < |a'|
    requires if ok then DataBlock(m', a'[i], bn) != 0 else Full(m', lay) && DataBlock(m', a'[i], bn) == 0
    ensures ok <==> |FreeBlocks(m, lay)| >= |Empty(m, a[i], Steps(PathOf(bn)))|
  {
    hide SoundBlocks, Extends, NoLeak, Used, BlockOf, Empty, FreeBlocks, Steps, PathOf, ValidPath;
    var g := PathOf(bn);
    StepsValid(bn);
    assert Paid(lay, m, a[i], m', a'[i], Steps(g));
    if ok {
      StepsThere(m', a'[i], g);
      Enough(lay, m, a[i], m', a'[i], Steps(g));
    } else {
      Short(lay, m, a[i], m', a'[i], Steps(g), g);
    }
  }

  /** The file block behind the last one that n bytes from off on touch. */
  function TouchedEnd(off: nat, n: nat): nat {
    if n == 0 then off / BSIZE else (off + n - 1) / BSIZE + 1
  }

  /** Of the blocks from lo up to hi, those before k are there, and each block taken for any of them fills a place on the way. */
  ghost predicate Paying(lay: Layout, m0: Image, a0: seq<word>, m: Image, a: seq<word>, lo: nat, hi: nat, k: nat)
    requires lay.Ok() && |m0| == |m| == lay.size
  {
    && Paid(lay, m0, a0, m, a, Places(lo, hi))
    && forall p :: p in Places(lo, k) ==> BlockOf(m, a, p) != 0
  }

  lemma PayingStarts(lay: Layout, m: Image, a: seq<word>, lo: nat, hi: nat)
    requires lay.Ok() && |m| == lay.size
    ensures Paying(lay, m, a, m, a, lo, hi, lo)
  {
  }

  /** A turn of writei: bmap takes what is missing, and then the data is written. */
  lemma PayingGoesOn(lay: Layout, m0: Image, a0: seq<word>, m1: Image, a1: seq<seq<word>>, m2: Image, a2: seq<seq<word>>, i: nat,
                     lo: nat, hi: nat, k: nat, bn: nat, data: Block)
    requires lay.Ok() && |m0| == |m1| == lay.size && i < |a1| && lo <= bn < hi <= MAXFILE && bn <= k <= bn + 1
    requires Grown(lay, m1, a1, m2, a2, i, PathOf(bn)) && i < |a2| && Paying(lay, m0, a0, m1, a1[i], lo, hi, k)
    requires HasBlock(m2, a2[i], bn)
    ensures |m2| == lay.size && var b := DataBlock(m2, a2[i], bn); b < |m2| && Paying(lay, m0, a0, m2[b := data], a2[i], lo, hi, bn + 1)
  {
    hide Used, BlockOf, PathOf, Places, Steps, Empty, FreeBlocks, ValidPath, NoLeak;
    var g := PathOf(bn);
    PlacesValid(lo, hi);
    assert Steps(PathOf(bn)) <= Places(lo, hi);
    assert Paid(lay, m1, a1[i], m2, a2[i], Places(lo, hi));
    StepsThere(m2, a2[i], g);
    PlacesSplit(lo, bn);
    PlacesValid(lo, bn + 1);
    forall p | p in Places(lo, bn + 1)
      ensures BlockOf(m2, a2[i], p) != 0
    {
      StaysThere(m1, a1, m2, a2, i, g, p);
    }
    WriteTree(m2, a2, lay, i, bn, data);
    WritePays(lay, m2, a2, i, bn, data, Places(lo, hi));
    var m3 := m2[DataBlock(m2, a2[i], bn) := data];
    forall p | p in Places(lo, bn + 1)
      ensures BlockOf(m3, a2[i], p) != 0
    {
      assert SamePlace(m2, a2[i], m3, a2[i], p);
    }
  }

  lemma PlacesSplit(lo: nat, bn: nat)
    requires lo <= bn
    ensures Places(lo, bn + 1) == Places(lo, bn) + Steps(PathOf(bn))
  {
  }

  lemma StaysThere(m: Image, a: seq<seq<word>>, m': Image, a': seq<seq<word>>, i: nat, g: Path, p: Path)
    requires Extends(m, a, m', a', i, g) && i < |a| && ValidPath(p)
    ensures i < |a'| && (BlockOf(m, a[i], p) != 0 ==> BlockOf(m', a'[i], p) != 0)
  {
    assert ExtendsAt(m, a[i], m', a'[i], p <= g, p);
  }

  /** Writing a data block takes no block. */
  lemma WritePays(lay: Layout, m: Image, a: seq<seq<word>>, i: nat, bn: nat, data: Block, ps: set<Path>)
    requires Tree(m, a, lay) && i < |a| && bn < MAXFILE && HasBlock(m, a[i], bn) && AllValid(ps)
    ensures var b := DataBlock(m, a[i], bn);
            && b < |m| == lay.size && Empty(m[b := data], a[i], ps) == Empty(m, a[i], ps)
            && FreeBlocks(m[b := data], lay) == FreeBlocks(m, lay)
  {
    hide Used, BlockOf, PathOf, ValidPath;
    WriteTree(m, a, lay, i, bn, data);
    var m' := m[DataBlock(m, a[i], bn) := data];
    forall p | p in ps
      ensures BlockOf(m', a[i], p) == BlockOf(m, a[i], p)
    {
      assert SamePlace(m, a[i], m', a[i], p);
    }
  }

  lemma PayingFails(lay: Layout, m0: Image, a0: seq<word>, m1: Image, a1: seq<seq<word>>, m2: Image, a2: seq<seq<word>>, i: nat,
                    lo: nat, hi: nat, k: nat, bn: nat)
    requires lay.Ok() && |m0| == |m1| == |m2| == lay.size && i < |a1| && lo <= bn < hi <= MAXFILE
    requires Grown(lay, m1, a1, m2, a2, i, PathOf(bn)) && i < |a2| && Paying(lay, m0, a0, m1, a1[i], lo, hi, k)
    requires Full(m2, lay) && DataBlock(m2, a2[i], bn) == 0
    ensures |FreeBlocks(m0, lay)| < |Empty(m0, a0, Places(lo, hi))|
  {
    hide Used, BlockOf, PathOf, Places, Steps, Empty, FreeBlocks, ValidPath, NoLeak, SoundBlocks, Extends;
    PlacesValid(lo, hi);
    assert Steps(PathOf(bn)) <= Places(lo, hi);
    StepsValid(bn);
    assert Paid(lay, m1, a1[i], m2, a2[i], Places(lo, hi));
    Short(lay, m0, a0, m2, a2[i], Places(lo, hi), PathOf(bn));
  }

  lemma PayingDone(lay: Layout, m0: Image, a0: seq<word>, m: Image, a: seq<word>, lo: nat, hi: nat)
    requires lay.Ok() && |m0| == |m| == lay.size && Paying(lay, m0, a0, m, a, lo, hi, hi)
    ensures |FreeBlocks(m0, lay)| >= |Empty(m0, a0, Places(lo, hi))|
  {
    hide BlockOf, Places, Empty, FreeBlocks;
    Enough(lay, m0, a0, m, a, Places(lo, hi));
  }

  /** What writei has achieved after tot of n bytes. */
  ghost predicate Going(lay: Layout, m0: Image, a0: seq<seq<word>>, m: Image, a: seq<seq<word>>, sizes: seq<nat>, i: nat, off: nat,
                        src: seq<byte>, tot: nat, n: nat)
    requires lay.Ok() && |m0| == lay.size && tot <= |src|
  {
    && SoundBlocks(m, a, lay) && (NoLeak(m0, a0, lay) ==> NoLeak(m, a, lay)) && i < |a0| == |a|
    && Written(m0, a0, m, a, sizes, i, off, src[..tot])
    && Paying(lay, m0, a0[i], m, a[i], off / BSIZE, TouchedEnd(off, n), TouchedEnd(off, tot))
  }

  lemma GoingStarts(lay: Layout, m: Image, a: seq<seq<word>>, sizes: seq<nat>, i: nat, off: nat, src: seq<byte>, n: nat)
    requires SoundBlocks(m, a, lay) && i < |a| && NoHoles(m, a, sizes)
    ensures Going(lay, m, a, m, a, sizes, i, off, src, 0, n)
  {
    WrittenNothing(m, a, sizes, i, off);
    PayingStarts(lay, m, a[i], off / BSIZE, TouchedEnd(off, n));
    assert src[..0] == [];
  }

  /** A turn: bmap has found or made the block, and the next k bytes are written to it. */
  lemma GoingOn(lay: Layout, m0: Image, a0: seq<seq<word>>, m1: Image, a1: seq<seq<word>>, m2: Image, a2: seq<seq<word>>,
                sizes: seq<nat>, i: nat, off: nat, src: seq<byte>, tot: nat, n: nat, k: nat)
    requires lay.Ok() && |m0| == lay.size && tot + k <= n <= |src| && Going(lay, m0, a0, m1, a1, sizes, i, off, src, tot, n)
    requires off + n <= MAXFILE * BSIZE && 0 < k <= BSIZE - (off + tot) % BSIZE
    requires forall j :: 0 <= j < |sizes| ==> sizes[j] <= MAXFILE * BSIZE
    requires Grown(lay, m1, a1, m2, a2, i, PathOf((off + tot) / BSIZE)) && i < |a2| && HasBlock(m2, a2[i], (off + tot) / BSIZE)
    ensures var b, o := DataBlock(m2, a2[i], (off + tot) / BSIZE), (off + tot) % BSIZE;
            && 0 < b < |m2|
            && Going(lay, m0, a0, m2[b := Overlay(m2[b], o, src[tot..tot + k])], a2, sizes, i, off, src, tot + k, n)
  {
    var bn, o := (off + tot) / BSIZE, (off + tot) % BSIZE;
    NextTouched(off, tot, k, n);
    assert bn < MAXFILE && TouchedEnd(off, n) <= MAXFILE;
    hide Tree, MetaUsed, PathOf, NoLeak, ExtendsAt, DataBlock, Contents, Written, HasBlock, Paying, Grown, TouchedEnd, Extends, Overlay;
    GrownShape(lay, m1, a1, m2, a2, i, PathOf(bn));
    WrittenStep(lay, m0, a0, m1, a1, m2, a2, sizes, i, off, src[..tot], src[tot..tot + k], bn, o);
    var data := Overlay(m2[DataBlock(m2, a2[i], bn)], o, src[tot..tot + k]);
    WriteKeeps(m2, a2, lay, i, bn, data);
    PayingGoesOn(lay, m0, a0[i], m1, a1, m2, a2, i, off / BSIZE, TouchedEnd(off, n), TouchedEnd(off, tot), bn, data);
    assert src[..tot] + src[tot..tot + k] == src[..tot + k];
  }

  /** bmap finds no block: there were too few, and what is written so far is in place. */
  lemma GoingFails(lay: Layout, m0: Image, a0: seq<seq<word>>, m1: Image, a1: seq<seq<word>>, m2: Image, a2: seq<seq<word>>,
                   sizes: seq<nat>, i: nat, off: nat, src: seq<byte>, tot: nat, n: nat)
    requires lay.Ok() && |m0| == lay.size && tot < n <= |src| && Going(lay, m0, a0, m1, a1, sizes, i, off, src, tot, n)
    requires off + n <= MAXFILE * BSIZE && i < |sizes| && off <= sizes[i]
    requires forall j :: 0 <= j < |sizes| ==> sizes[j] <= MAXFILE * BSIZE
    requires Grown(lay, m1, a1, m2, a2, i, PathOf((off + tot) / BSIZE)) && i < |a2|
    requires |m2| == lay.size && Full(m2, lay) && DataBlock(m2, a2[i], (off + tot) / BSIZE) == 0
    ensures |FreeBlocks(m0, lay)| < |Empty(m0, a0[i], Places(off / BSIZE, TouchedEnd(off, n)))|
    ensures NoHoles(m2, a2, sizes) && (NoLeak(m0, a0, lay) ==> NoLeak(m2, a2, lay))
    ensures Contents(m2, a2[i], sizes[i]) == Overlay(Contents(m0, a0[i], sizes[i]), off, src[..tot])[..sizes[i]]
    ensures |a2| == |a0| && forall j :: 0 <= j < |a0| && j != i ==> Contents(m2, a2[j], sizes[j]) == Contents(m0, a0[j], sizes[j])
  {
    var bn := (off + tot) / BSIZE;
    NextTouched(off, tot, 1, n);
    assert bn < MAXFILE && TouchedEnd(off, n) <= MAXFILE;
    hide Tree, MetaUsed, PathOf, NoLeak, ExtendsAt, DataBlock, Contents, Written, NoHoles, Full, Paying, Grown, TouchedEnd, FreeBlocks, Empty, Places;
    GrownShape(lay, m1, a1, m2, a2, i, PathOf(bn));
    PayingFails(lay, m0, a0[i], m1, a1, m2, a2, i, off / BSIZE, TouchedEnd(off, n), TouchedEnd(off, tot), bn);
    WrittenExtends(lay, m0, a0, m1, a1, m2, a2, sizes, i, off, src[..tot], PathOf(bn));
    WrittenPart(m0, a0, m2, a2, sizes, i, off, src[..tot]);
  }

  lemma GoingSound(lay: Layout, m0: Image, a0: seq<seq<word>>, m: Image, a: seq<seq<word>>, sizes: seq<nat>, i: nat, off: nat,
                   src: seq<byte>, tot: nat, n: nat)
    requires lay.Ok() && |m0| == lay.size && tot <= |src| && Going(lay, m0, a0, m, a, sizes, i, off, src, tot, n)
    ensures SoundBlocks(m, a, lay)
  {
  }

  lemma GoingDone(lay: Layout, m0: Image, a0: seq<seq<word>>, m: Image, a: seq<seq<word>>, sizes: seq<nat>, i: nat, off: nat,
                  src: seq<byte>, n: nat)
    requires lay.Ok() && |m0| == lay.size && n <= |src| && Going(lay, m0, a0, m, a, sizes, i, off, src, n, n)
    requires i < |sizes| && off <= sizes[i]
    ensures |FreeBlocks(m0, lay)| >= |Empty(m0, a0[i], Places(off / BSIZE, TouchedEnd(off, n)))|
    ensures |a| == |a0| && (NoLeak(m0, a0, lay) ==> NoLeak(m, a, lay))
    ensures var sizes' := sizes[i := Max(sizes[i], off + n)];
            && NoHoles(m, a, sizes')
            && Contents(m, a[i], sizes'[i]) == Overlay(Contents(m0, a0[i], sizes[i]), off, src[..n])
    ensures forall j :: 0 <= j < |a0| && j != i ==> Contents(m, a[j], sizes[j]) == Contents(m0, a0[j], sizes[j])
  {
    hide Tree, MetaUsed, PathOf, NoLeak, Contents, Written, NoHoles, Paying, TouchedEnd, FreeBlocks, Empty, Places;
    PayingDone(lay, m0, a0[i], m, a[i], off / BSIZE, TouchedEnd(off, n));
    WrittenAll(m0, a0, m, a, sizes, i, off, src[..n]);
  }

  lemma NextTouched(off: nat, tot: nat, m: nat, n: nat)
    requires tot < n && 0 < m <= BSIZE - (off + tot) % BSIZE
    ensures var bn := (off + tot) / BSIZE;
            off / BSIZE <= bn < TouchedEnd(off, n) && bn <= TouchedEnd(off, tot) <= bn + 1 && TouchedEnd(off, tot + m) == bn + 1
  {
    var bn, o := (off + tot) / BSIZE, (off + tot) % BSIZE;
    assert off + tot == bn * BSIZE + o;
    assert (off + tot + m - 1) / BSIZE == bn by {
      assert off + tot + m - 1 == bn * BSIZE + (o + m - 1) && o + m - 1 < BSIZE;
    }
  }

  lemma PathNotEmpty(h: Path)
    requires ValidPath(h)
    ensures 0 < |h|
  {
  }

  class FileSystem {
    const lay: Layout
    /** The disk as seen through the buffer cache: bread reads a block of it, log_write publishes one. */
    var image: Image
    /** ip->addrs and ip->size of every inode. */
    var addrs: seq<seq<word>>
    var sizes: seq<nat>

    ghost predicate Valid()
      reads this
    {
      && SoundBlocks(image, addrs, lay) && |sizes| == |addrs| && NoHoles(image, addrs, sizes)
      && (forall i :: 0 <= i < |sizes| ==> sizes[i] <= MAXFILE * BSIZE)
    }

    /** No inode has a block, only metadata is in use. */
    constructor (lay: Layout, image: Image, ninodes: nat)
      requires lay.Ok() && |image| == lay.size && image[0] == ZeroBlock()
      requires forall b: nat :: b < lay.size ==> (Used(image, lay.bmapstart, b) <==> b < lay.nmeta)
      ensures this.lay == lay && this.image == image && |addrs| == ninodes && sizes == seq(ninodes, _ => 0)
      ensures Valid() && NoLeak(image, addrs, lay)
    {
      this.lay, this.image := lay, image;
      addrs := seq(ninodes, _ => NoBlocks());
      sizes := seq(ninodes, _ => 0);
      new;
      forall i: nat, p | i < ninodes && ValidPath(p)
        ensures BlockOf(image, addrs[i], p) == 0
      {
        EmptyTree(image, p);
      }
      assert forall i: nat, p :: i < ninodes && ValidPath(p) ==> PlaceOk(image, addrs[i], lay, p);
    }

    /** Allocate a zeroed block. Fails just when the source panics, being out of blocks. */
    method Balloc() returns (b: word, ok: bool)
      requires lay.Ok() && |image| == lay.size
      modifies this`image
      ensures ok <==> !Full(old(image), lay)
      ensures ok ==> b < lay.size && !Used(old(image), lay.bmapstart, b) && image == Allocated(old(image), lay, b)
      ensures ok ==> AllUsed(old(image), lay, b)
      ensures !ok ==> image == old(image)
    {
      hide Used, AllUsed, Allocated;
      AllUsedUpTo(image, lay, 0, 0, 0);
      var b0 := 0;
      while b0 < lay.size
        invariant b0 % BPB == 0 && b0 < lay.size + BPB
        invariant image == old(image) && AllUsed(image, lay, b0)
      {
        b, ok := BallocIn(b0);
        if ok {
          return;
        }
        b0 := b0 + BPB;
      }
      AllUsedBeyond(image, lay, b0, b0);
      return 0, false;
    }

    /** The loop of balloc over one block of the free map. */
    method BallocIn(b0: nat) returns (b: word, ok: bool)
      requires lay.Ok() && |image| == lay.size && b0 % BPB == 0 && b0 < lay.size && AllUsed(image, lay, b0)
      modifies this`image
      ensures ok ==> b < lay.size && !Used(old(image), lay.bmapstart, b) && image == Allocated(old(image), lay, b)
      ensures ok ==> AllUsed(old(image), lay, b) && !Full(old(image), lay)
      ensures !ok ==> image == old(image) && AllUsed(image, lay, b0 + BPB)
    {
      hide BitOf, SetBitOf, Used, AllUsed, Allocated;
      ghost var image0 := image;
      var data := image[lay.bmapstart + b0 / BPB];
      var bi := 0;
      while bi < BPB && b0 + bi < lay.size
        invariant 0 <= bi <= BPB && image == image0
        invariant AllUsed(image0, lay, b0 + bi)
      {
        AllUsedUpTo(image0, lay, b0, bi, b0 + bi);
        if !BitOf(data[bi / 8], bi % 8) {
          TakenBit(image0, lay, b0, bi);
          data := data[bi / 8 := SetBitOf(data[bi / 8], bi % 8, true)];
          image := image[lay.bmapstart + b0 / BPB := data];
          image := image[b0 + bi := ZeroBlock()];
          return b0 + bi, true;
        }
        bi := bi + 1;
      }
      AllUsedBeyond(image, lay, b0 + bi, b0 + BPB);
      return 0, false;
    }

    /** The block in a slot of an inode, allocated if necessary. */
    method SlotBlock(i: nat, slot: nat, ghost g: Path) returns (addr: word, ok: bool)
      requires SoundBlocks(image, addrs, lay) && i < |addrs| && slot < SLOTS && [slot] <= g
      modifies this`image, this`addrs
      ensures Grown(lay, old(image), old(addrs), image, addrs, i, g)
      ensures if ok then addr == BlockOf(image, addrs[i], [slot]) != 0 else Full(image, lay) && BlockOf(image, addrs[i], [slot]) == 0
      ensures old(BlockOf(image, addrs[i], [slot])) != 0 ==> ok && image == old(image) && addrs == old(addrs)
    {
      hide Planted, Tree, Used, NoLeak, Extends, ValidPath, MetaUsed, Allocated, PaidFor;
      addr, ok := addrs[i][slot], true;
      GrownNothing(lay, image, addrs, i, g);
      if addr == 0 {
        ghost var image0, addrs0 := image, addrs;
        addr, ok := Balloc();
        if ok {
          addrs := GraftRoot(addrs, i, slot, addr);
          PlantRoot(image0, addrs0, lay, i, slot, addr);
          BootKept(image0, lay, addr);
          SlotPath(slot);
          PlantedGrown(lay, image0, addrs0, image, addrs, i, [slot], addr, g);
        }
      }
    }

    /** The block in entry e of the table at place p, whose number is t, allocated if necessary. */
    method EntryBlock(i: nat, ghost p: Path, t: word, e: nat, ghost g: Path) returns (addr: word, ok: bool)
      requires SoundBlocks(image, addrs, lay) && i < |addrs| && 0 < |p| && ValidPath(p + [e]) && p + [e] <= g
      requires t == BlockOf(image, addrs[i], p) != 0
      modifies this`image
      ensures Grown(lay, old(image), old(addrs), image, addrs, i, g)
      ensures if ok then addr == BlockOf(image, addrs[i], p + [e]) != 0 else Full(image, lay) && BlockOf(image, addrs[i], p + [e]) == 0
      ensures old(BlockOf(image, addrs[i], p + [e])) != 0 ==> ok && image == old(image)
    {
      hide Planted, Tree, Used, NoLeak, Extends, ValidPath, MetaUsed, Allocated, Word, SetWord, BlockOf, PaidFor;
      ChildBlock(image, addrs, lay, i, p, e);
      var a := image[t];
      addr, ok := Word(a, e), true;
      GrownNothing(lay, image, addrs, i, g);
      if addr == 0 {
        ghost var image0 := image;
        addr, ok := Balloc();
        if ok {
          PlantChild(image0, addrs, lay, i, p, e, addr);
          BootKept(image0, lay, addr);
          AllocatedTable(image0, addrs, lay, i, p, addr);
          image := image[t := SetWord(a, e, addr)];
          PlantedGrown(lay, image0, addrs, image, addrs, i, p + [e], addr, g);
        }
      }
    }

    /**
     * The disk block of block bn of a file, allocated if necessary together with the tables on the way. Fails just when fewer
     * blocks are free than are missing on the way.
     */
    method Bmap(i: nat, bn: nat) returns (addr: word, ok: bool)
      requires SoundBlocks(image, addrs, lay) && i < |addrs| && bn < MAXFILE
      modifies this`image, this`addrs
      ensures Grown(lay, old(image), old(addrs), image, addrs, i, PathOf(bn))
      ensures if ok then addr == DataBlock(image, addrs[i], bn) != 0 else Full(image, lay) && DataBlock(image, addrs[i], bn) == 0
      ensures old(DataBlock(image, addrs[i], bn)) != 0 ==> ok && image == old(image) && addrs == old(addrs)
      ensures ok <==> old(|FreeBlocks(image, lay)|) >= old(|Empty(image, addrs[i], Steps(PathOf(bn)))|)
    {
      hide Tree, MetaUsed, NoLeak, ExtendsAt, BlockOf, Full, ValidPath, PaidFor, FreeBlocks, Empty, Steps, Grown;
      ghost var image0, addrs0 := image, addrs;
      PathOfLeaf(bn);
      var b := bn;
      if b < NDIRECT {
        addr, ok := SlotBlock(i, b, PathOf(bn));
      } else {
        b := b - NDIRECT;
        if b < NINDIRECT {
          addr, ok := BmapSingle(i, b, bn);
        } else {
          b := b - NINDIRECT;
          if b < NINDIRECT_D {
            addr, ok := BmapDouble(i, b, bn);
          } else {
            addr, ok := BmapTriple(i, b - NINDIRECT_D, bn);
          }
        }
      }
      GrownShape(lay, image0, addrs0, image, addrs, i, PathOf(bn));
      BmapExact(lay, image0, addrs0, image, addrs, i, bn, ok);
    }

    /** Block b of those below the single table. */
    method BmapSingle(i: nat, b: nat, ghost bn: nat) returns (addr: word, ok: bool)
      requires SoundBlocks(image, addrs, lay) && i < |addrs| && bn < MAXFILE && bn == b + NDIRECT && b < NINDIRECT
      modifies this`image, this`addrs
      ensures Grown(lay, old(image), old(addrs), image, addrs, i, PathOf(bn))
      ensures if ok then addr == DataBlock(image, addrs[i], bn) != 0 else Full(image, lay) && DataBlock(image, addrs[i], bn) == 0
      ensures old(DataBlock(image, addrs[i], bn)) != 0 ==> ok && image == old(image) && addrs == old(addrs)
    {
      hide Tree, MetaUsed, NoLeak, ExtendsAt, BlockOf, Full, ValidPath, PaidFor;
      ghost var g, image0, addrs0 := PathOf(bn), image, addrs;
      PathOfLeaf(bn);
      Way(image0, addrs0[i], g, 1);
      addr, ok := SlotBlock(i, NDIRECT, g);
      Way(image, addrs[i], g, 1);
      if !ok {
        return;
      }
      ghost var m, n := image, addrs;
      addr, ok := EntryBlock(i, g[..1], addr, b, g);
      GrownTransitive(lay, image0, addrs0, m, n, image, addrs, i, g);
    }

    /** Block b of those below the double root. */
    method BmapDouble(i: nat, b: nat, ghost bn: nat) returns (addr: word, ok: bool)
      requires SoundBlocks(image, addrs, lay) && i < |addrs| && bn < MAXFILE && bn == b + NDIRECT + NINDIRECT && b < NINDIRECT_D
      modifies this`image, this`addrs
      ensures Grown(lay, old(image), old(addrs), image, addrs, i, PathOf(bn))
      ensures if ok then addr == DataBlock(image, addrs[i], bn) != 0 else Full(image, lay) && DataBlock(image, addrs[i], bn) == 0
      ensures old(DataBlock(image, addrs[i], bn)) != 0 ==> ok && image == old(image) && addrs == old(addrs)
    {
      hide Tree, MetaUsed, NoLeak, ExtendsAt, BlockOf, Full, ValidPath, PaidFor;
      ghost var g, image0, addrs0 := PathOf(bn), image, addrs;
      ghost var m, n;
      PathOfLeaf(bn);
      Way(image0, addrs0[i], g, 1);
      addr, ok := SlotBlock(i, NDIRECT + 1, g);
      Way(image, addrs[i], g, 1);
      if !ok {
        return;
      }
      m, n := image, addrs;
      addr, ok := EntryBlock(i, g[..1], addr, b / NINDIRECT, g);
      GrownTransitive(lay, image0, addrs0, m, n, image, addrs, i, g);
      Way(image, addrs[i], g, 2);
      if !ok {
        return;
      }
      m, n := image, addrs;
      Way(image0, addrs0[i], g, 2);
      addr, ok := EntryBlock(i, g[..2], addr, b % NINDIRECT, g);
      GrownTransitive(lay, image0, addrs0, m, n, image, addrs, i, g);
    }

    /** Block b0 of those below the triple root. */
    method BmapTriple(i: nat, b0: nat, ghost bn: nat) returns (addr: word, ok: bool)
      requires SoundBlocks(image, addrs, lay) && i < |addrs| && bn < MAXFILE && bn == b0 + NDIRECT + NINDIRECT + NINDIRECT_D
      modifies this`image, this`addrs
      ensures Grown(lay, old(image), old(addrs), image, addrs, i, PathOf(bn))
      ensures if ok then addr == DataBlock(image, addrs[i], bn) != 0 else Full(image, lay) && DataBlock(image, addrs[i], bn) == 0
      ensures old(DataBlock(image, addrs[i], bn)) != 0 ==> ok && image == old(image) && addrs == old(addrs)
    {
      hide Tree, MetaUsed, NoLeak, ExtendsAt, BlockOf, Full, ValidPath, PaidFor;
      ghost var g, image0, addrs0 := PathOf(bn), image, addrs;
      ghost var m, n;
      PathOfLeaf(bn);
      var b := b0 % NINDIRECT_D;
      Way(image0, addrs0[i], g, 1);
      addr, ok := SlotBlock(i, NDIRECT + 2, g);
      Way(image, addrs[i], g, 1);
      if !ok {
        return;
      }
      m, n := image, addrs;
      addr, ok := EntryBlock(i, g[..1], addr, b0 / NINDIRECT_D, g);
      GrownTransitive(lay, image0, addrs0, m, n, image, addrs, i, g);
      Way(image, addrs[i], g, 2);
      if !ok {
        return;
      }
      m, n := image, addrs;
      Way(image0, addrs0[i], g, 2);
      addr, ok := EntryBlock(i, g[..2], addr, b / NINDIRECT, g);
      GrownTransitive(lay, image0, addrs0, m, n, image, addrs, i, g);
      Way(image, addrs[i], g, 3);
      if !ok {
        return;
      }
      b := b % NINDIRECT;
      m, n := image, addrs;
      Way(image0, addrs0[i], g, 3);
      addr, ok := EntryBlock(i, g[..3], addr, b, g);
      GrownTransitive(lay, image0, addrs0, m, n, image, addrs, i, g);
    }

    /** The contents of file i. */
    ghost function File(i: nat): seq<byte>
      requires i < |addrs| && i < |sizes|
      reads this
    {
      Contents(image, addrs[i], sizes[i])
    }

    /** Copy up to n bytes of a file from position off on to dst; -1 where the source refuses. */
    method Readi(i: nat, dst: array<byte>, off: word, n: word) returns (r: int)
      requires Valid() && i < |addrs| && n <= dst.Length
      modifies this`image, this`addrs, dst
      ensures image == old(image) && addrs == old(addrs)
      ensures r == if off > sizes[i] || off + n >= 0x1_0000_0000 then -1 else if off + n > sizes[i] then sizes[i] - off else n
      ensures r >= 0 ==> dst[..r] == File(i)[off..off + r]
      ensures forall k :: Max(0, if r < 0 then 0 else r) <= k < dst.Length ==> dst[k] == old(dst[k])
    {
      hide SoundBlocks, PathOf, NoLeak, Extends, DataBlock, PaidFor;
      if off > sizes[i] || (off + n) % 0x1_0000_0000 < off {
        return -1;
      }
      var n := if off + n > sizes[i] then sizes[i] - off else n;
      var tot, at := 0, off;
      while tot < n
        invariant 0 <= tot <= n && at == off + tot
        invariant image == old(image) && addrs == old(addrs)
        invariant forall k :: 0 <= k < tot ==> dst[k] == FileByte(image, addrs[i], off + k)
        invariant forall k :: tot <= k < dst.Length ==> dst[k] == old(dst[k])
      {
        assert at / BSIZE * BSIZE < sizes[i] && HasBlock(image, addrs[i], at / BSIZE);
        WriteKeeps(image, addrs, lay, i, at / BSIZE, ZeroBlock());
        var addr, ok := Bmap(i, at / BSIZE);
        var m := if n - tot < BSIZE - at % BSIZE then n - tot else BSIZE - at % BSIZE;
        forall k | 0 <= k < m {
          dst[tot + k] := image[addr][at % BSIZE + k];
        }
        tot, at := tot + m, at + m;
      }
      return n;
    }

    /**
     * Write src over a file from position off on; -1 where the source refuses. Not ok where it panics for want of blocks:
     * then `done` bytes have been written, and the size is still the old one. That is just when fewer blocks are free than
     * are missing, tables included, for the bytes to be written.
     */
    method Writei(i: nat, src: seq<byte>, off: word, n: word) returns (r: int, ok: bool, ghost done: nat)
      requires Valid() && i < |addrs| && n <= |src|
      modifies this
      ensures Valid() && |addrs| == old(|addrs|) && (old(NoLeak(image, addrs, lay)) ==> NoLeak(image, addrs, lay))
      ensures ok <==> off > old(sizes[i]) || off + n > MAXFILE * BSIZE || off + n >= 0x1_0000_0000
                      || old(|FreeBlocks(image, lay)|) >= old(|Empty(image, addrs[i], Places(off / BSIZE, TouchedEnd(off, n)))|)
      ensures !ok ==> Full(image, lay) && sizes == old(sizes) && off <= sizes[i] && done < n
      ensures !ok ==> File(i) == Overlay(old(File(i)), off, src[..done])[..sizes[i]]
      ensures ok ==> r == if off > old(sizes[i]) || off + n >= 0x1_0000_0000 || off + n > MAXFILE * BSIZE then -1 else n
      ensures ok && r == -1 ==> image == old(image) && addrs == old(addrs) && sizes == old(sizes)
      ensures ok && r == n ==> sizes == old(sizes)[i := Max(old(sizes[i]), off + n)]
      ensures ok && r == n ==> off <= old(sizes[i]) && File(i) == Overlay(old(File(i)), off, src[..n])
      ensures forall j :: 0 <= j < |addrs| && j != i ==>
                Contents(image, addrs[j], sizes[j]) == Contents(old(image), old(addrs)[j], old(sizes)[j])
    {
      hide Tree, MetaUsed, PathOf, NoLeak, ExtendsAt, DataBlock, Contents, Written, NoHoles, Full, Grown, Going, FreeBlocks, Empty, Places;
      if off > sizes[i] || (off + n) % 0x1_0000_0000 < off {
        return -1, true, 0;
      }
      if off + n > MAXFILE * BSIZE {
        return -1, true, 0;
      }
      ghost var m0, a0, sizes0 := image, addrs, sizes;
      var tot, at := 0, off;
      GoingStarts(lay, image, addrs, sizes, i, off, src, n);
      while tot < n
        invariant 0 <= tot <= n && at == off + tot && sizes == sizes0 && |addrs| == |a0|
        invariant SoundBlocks(image, addrs, lay) && Going(lay, m0, a0, image, addrs, sizes, i, off, src, tot, n)
      {
        ghost var m1, a1 := image, addrs;
        var addr;
        addr, ok := Bmap(i, at / BSIZE);
        GrownShape(lay, m1, a1, image, addrs, i, PathOf(at / BSIZE));
        if !ok {
          GoingFails(lay, m0, a0, m1, a1, image, addrs, sizes, i, off, src, tot, n);
          return -1, false, tot;
        }
        var m := if n - tot < BSIZE - at % BSIZE then n - tot else BSIZE - at % BSIZE;
        GoingOn(lay, m0, a0, m1, a1, image, addrs, sizes, i, off, src, tot, n, m);
        var data := Overlay(image[addr], at % BSIZE, src[tot..tot + m]);
        image := image[addr := data];
        GoingSound(lay, m0, a0, image, addrs, sizes, i, off, src, tot + m, n);
        tot, at := tot + m, at + m;
      }
      GoingDone(lay, m0, a0, image, addrs, sizes, i, off, src, n);
      if n > 0 && at > sizes[i] {
        sizes := sizes[i := at];
      }
      assert sizes == sizes0[i := Max(sizes0[i], off + n)];
      return n, true, n;
    }

    /** Free a block. False where the source panics on a free block. */
    method Bfree(b: nat) returns (ok: bool)
      requires lay.Ok() && |image| == lay.size && b < lay.size
      modifies this`image
      ensures ok <==> Used(old(image), lay.bmapstart, b)
      ensures image == if ok then SetUsed(old(image), lay.bmapstart, b, false) else old(image)
    {
      var data := image[lay.bmapstart + b / BPB];
      var bi := b % BPB;
      if !BitOf(data[bi / 8], bi % 8) {
        return false;
      }
      data := data[bi / 8 := SetBitOf(data[bi / 8], bi % 8, false)];
      image := image[lay.bmapstart + b / BPB := data];
      return true;
    }

    /** Free all blocks below a table, with lev levels below it. No bfree meets a free block. */
    method RemoveChildren(addr: word, lev: nat)
      requires lay.Ok() && |image| == lay.size && addr < lay.size && Clear(lay, addr) && lev > 0
      requires Freeable(image, lay, BelowFrom(image, addr, lev, 0))
      modifies this`image
      ensures forall x :: 0 <= x < |old(BelowFrom(image, addr, lev, 0))| ==> old(BelowFrom(image, addr, lev, 0))[x] < lay.size
      ensures image == Freed(old(image), lay, old(BelowFrom(image, addr, lev, 0)))
      decreases lev, 1
    {
      hide Freeable, Used, Word, SetUsed, BelowFrom;
      var a := image[addr];
      var i := 0;
      ghost var m0, all := image, BelowFrom(image, addr, lev, 0);
      ghost var done: seq<nat>, below: seq<nat>, rest: seq<nat> := [], [], [];
      FreeablePart(m0, lay, all, [], [], all);
      while i < NINDIRECT
        invariant 0 <= i <= NINDIRECT && all == done + BelowFrom(m0, addr, lev, i)
        invariant forall x :: 0 <= x < |done| ==> done[x] < lay.size
        invariant |image| == lay.size && image == Freed(m0, lay, done)
      {
        BelowStep(m0, addr, lev, i, done);
        rest := BelowFrom(m0, addr, lev, i + 1);
        var b := Word(a, i);
        if b != 0 {
          below := if lev > 1 then BelowFrom(m0, b, lev - 1, 0) else [];
          RemoveChild(b, lev, m0, all, done, below, rest);
          done := done + below + [b];
        }
        i := i + 1;
      }
      BelowEnd(m0, addr, lev, done);
    }

    /** One child of a table: what is below it, then the child itself. */
    method RemoveChild(b: word, lev: nat, ghost m0: Image, ghost all: seq<nat>, ghost done: seq<nat>, ghost below: seq<nat>,
                       ghost rest: seq<nat>)
      requires lay.Ok() && |m0| == lay.size && lev > 0 && Freeable(m0, lay, all) && all == done + below + [b] + rest
      requires below == if lev > 1 then BelowFrom(m0, b, lev - 1, 0) else []
      requires forall x :: 0 <= x < |done| ==> done[x] < lay.size
      requires |image| == lay.size && image == Freed(m0, lay, done)
      modifies this`image
      ensures forall x :: 0 <= x < |done + below + [b]| ==> (done + below + [b])[x] < lay.size
      ensures |image| == lay.size && image == Freed(m0, lay, done + below + [b])
      decreases lev, 0
    {
      hide Freeable, Used, Word, SetUsed, BelowFrom;
      assert all == done + below + ([b] + rest);
      FreeablePart(m0, lay, all, done, below, [b] + rest);
      FreeablePart(m0, lay, all, done + below, [b], rest);
      if lev > 1 {
        BelowFrame(m0, image, lay, b, lev - 1, 0);
        RemoveChildren(b, lev - 1);
      }
      FreedOne(image, lay, b);
      var ok := Bfree(b);
      assert ok;
    }

    /** The loop of itrunc over the direct blocks. */
    method FreeDirects(i: nat)
      requires lay.Ok() && |image| == lay.size && i < |addrs| && |addrs[i]| == SLOTS
      requires Freeable(image, lay, Directs(addrs[i], 0))
      modifies this`image, this`addrs
      ensures forall x :: 0 <= x < |old(Directs(addrs[i], 0))| ==> old(Directs(addrs[i], 0))[x] < lay.size
      ensures image == Freed(old(image), lay, old(Directs(addrs[i], 0)))
      ensures addrs == old(addrs)[i := Cleared(old(addrs)[i], NDIRECT)]
    {
      hide Freeable, Used, SetUsed, Directs, Cleared;
      ghost var m0, a0, all := image, addrs[i], Directs(addrs[i], 0);
      ghost var done: seq<nat> := [];
      FreeablePart(m0, lay, all, [], [], all);
      ClearedNone(a0);
      var s := 0;
      while s < NDIRECT
        invariant 0 <= s <= NDIRECT && all == done + Directs(a0, s)
        invariant forall x :: 0 <= x < |done| ==> done[x] < lay.size
        invariant |image| == lay.size && image == Freed(m0, lay, done)
        invariant |addrs| == |old(addrs)| && addrs[i] == Cleared(a0, s)
        invariant addrs == old(addrs)[i := Cleared(a0, s)]
      {
        ClearedNext(a0, s, done);
        var b := addrs[i][s];
        if b != 0 {
          FreeablePart(m0, lay, all, done, [b], Directs(a0, s + 1));
          FreedOne(image, lay, b);
          var ok := Bfree(b);
          assert ok;
          done := done + [b];
          var a: seq<word> := addrs[i];
          addrs := addrs[i := a[s := 0]];
        }
        s := s + 1;
      }
      ClearedAll(a0, done);
    }

    /** The loop of itrunc over the table of the single tree. */
    method FreeTable(addr: word)
      requires lay.Ok() && |image| == lay.size && addr < lay.size
      requires Freeable(image, lay, BelowFrom(image, addr, 1, 0))
      modifies this`image
      ensures forall x :: 0 <= x < |old(BelowFrom(image, addr, 1, 0))| ==> old(BelowFrom(image, addr, 1, 0))[x] < lay.size
      ensures image == Freed(old(image), lay, old(BelowFrom(image, addr, 1, 0)))
    {
      hide Freeable, Used, Word, SetUsed, BelowFrom;
      var a := image[addr];
      var j := 0;
      ghost var m0, all := image, BelowFrom(image, addr, 1, 0);
      ghost var done: seq<nat> := [];
      FreeablePart(m0, lay, all, [], [], all);
      while j < NINDIRECT
        invariant 0 <= j <= NINDIRECT && all == done + BelowFrom(m0, addr, 1, j)
        invariant forall x :: 0 <= x < |done| ==> done[x] < lay.size
        invariant |image| == lay.size && image == Freed(m0, lay, done)
      {
        BelowStep(m0, addr, 1, j, done);
        if Word(a, j) != 0 {
          FreeablePart(m0, lay, all, done, [Word(a, j)], BelowFrom(m0, addr, 1, j + 1));
          FreedOne(image, lay, Word(a, j));
          var ok := Bfree(Word(a, j));
          assert ok;
          done := done + [Word(a, j)];
        }
        j := j + 1;
      }
      BelowEnd(m0, addr, 1, done);
    }

    /** The part of itrunc that frees the single tree. */
    method FreeSingle(i: nat)
      requires lay.Ok() && |image| == lay.size && i < |addrs| && |addrs[i]| == SLOTS
      requires Freeable(image, lay, BelowSlot(image, addrs[i], NDIRECT) + Root(addrs[i], NDIRECT)) && addrs[i][NDIRECT] < lay.size
      modifies this`image, this`addrs
      ensures var l := old(BelowSlot(image, addrs[i], NDIRECT) + Root(addrs[i], NDIRECT));
              (forall x :: 0 <= x < |l| ==> l[x] < lay.size) && image == Freed(old(image), lay, l)
      ensures addrs == old(addrs)[i := old(addrs)[i][NDIRECT := 0]]
    {
      hide Freeable, Used, SetUsed, BelowFrom;
      ghost var m0, below, root := image, BelowSlot(image, addrs[i], NDIRECT), Root(addrs[i], NDIRECT);
      FreeablePart(m0, lay, below + root, [], below + root, []);
      var a: seq<word>, r := addrs[i], addrs[i][NDIRECT];
      if r != 0 {
        FreeablePart(m0, lay, below + root, [], below, root);
        FreeTable(r);
        FreeablePart(m0, lay, below + root, below, root, []);
        FreedOne(image, lay, r);
        var ok := Bfree(r);
        assert ok;
        addrs := addrs[i := a[NDIRECT := 0]];
      } else {
        assert a[NDIRECT := 0] == a;
      }
    }

    /**
     * The part of itrunc that frees blocks. Block 0, the boot block, holds zeroes: the source reads it as a table
     * when there is a triple tree, having cleared the double root it passes.
     */
    method FreeTrees(i: nat)
      requires SoundBlocks(image, addrs, lay) && i < |addrs|
      modifies this`image, this`addrs
      ensures old(SoundBlocks(image, addrs, lay)) && image == Truncated(old(image), old(addrs), lay, i)
      ensures addrs == old(addrs)[i := NoBlocks()] && image[0] == ZeroBlock()
    {
      hide Tree, MetaUsed, Freeable, Used, SetUsed, BelowFrom, Directs, Freed;
      ghost var m0, a0 := image, addrs;
      ghost var a, all := a0[i], TruncList(m0, a0[i]);
      ghost var direct, single, double := Directs(a, 0), BelowSlot(m0, a, NDIRECT) + Root(a, NDIRECT), BelowSlot(m0, a, NDIRECT + 1);
      TruncFreeable(m0, a0, lay, i);
      FreeablePart(m0, lay, all, [], direct, single + double);
      FreedNothing(m0, lay);
      FreeDirects(i);
      FreeablePart(m0, lay, all, direct, single, double);
      SlotFrame(m0, image, a0, lay, i, NDIRECT);
      FreeSingle(i);
      FreeablePart(m0, lay, all, direct + single, double, []);
      FreeablePart(m0, lay, all, all, [], []);
      SlotFrame(m0, image, a0, lay, i, NDIRECT + 1);
      FreeDeep(i);
      assert addrs[i] == NoBlocks();
    }

    /** The part of itrunc that frees the double tree, except its root, and not the triple tree. */
    method FreeDeep(i: nat)
      requires lay.Ok() && |image| == lay.size && i < |addrs| && |addrs[i]| == SLOTS && image[0] == ZeroBlock()
      requires addrs[i][NDIRECT + 1] < lay.size && Clear(lay, addrs[i][NDIRECT + 1])
      requires Freeable(image, lay, BelowSlot(image, addrs[i], NDIRECT + 1))
      modifies this`image, this`addrs
      ensures var l := old(BelowSlot(image, addrs[i], NDIRECT + 1));
              (forall x :: 0 <= x < |l| ==> l[x] < lay.size) && image == Freed(old(image), lay, l)
      ensures addrs == old(addrs)[i := old(addrs)[i][NDIRECT + 1 := 0][NDIRECT + 2 := 0]] && image[0] == ZeroBlock()
    {
      hide Used, SetUsed, BelowFrom, Freed, Freeable;
      ghost var all := BelowSlot(image, addrs[i], NDIRECT + 1);
      FreeablePart(image, lay, all, all, [], []);
      FreedNothing(image, lay);
      var b: seq<word> := addrs[i];
      if b[NDIRECT + 1] != 0 {
        RemoveChildren(b[NDIRECT + 1], 2);
      }
      b := b[NDIRECT + 1 := 0];
      if b[NDIRECT + 2] != 0 {
        NothingBelowZero(image, 3, 0);
        FreedNothing(image, lay);
        RemoveChildren(b[NDIRECT + 1], 3);
      }
      b := b[NDIRECT + 2 := 0];
      addrs := addrs[i := b];
    }

    /** Discard the contents of a file. */
    method Itrunc(i: nat)
      requires Valid() && i < |addrs|
      modifies this
      ensures Valid()
      ensures old(SoundBlocks(image, addrs, lay)) && image == Truncated(old(image), old(addrs), lay, i)
      ensures addrs == old(addrs)[i := NoBlocks()] && sizes == old(sizes)[i := 0]
      ensures forall j :: 0 <= j < |addrs| && j != i ==> File(j) == Contents(old(image), old(addrs)[j], old(sizes)[j])
      ensures old(NoLeak(image, addrs, lay)) ==>
                (NoLeak(image, addrs, lay) <==> old(addrs)[i][NDIRECT + 1] == 0 && old(addrs)[i][NDIRECT + 2] == 0)
    {
      hide Tree, MetaUsed, NoLeak, Truncated, Contents, NoHoles;
      ghost var m0, a0, s0 := image, addrs, sizes;
      FreeTrees(i);
      sizes := sizes[i := 0];
      TruncatedFiles(m0, a0, s0, lay, i);
    }
  }

  /** A read gives back what was just written. */
  method WriteThenRead(fs: FileSystem, i: nat, src: seq<byte>, dst: array<byte>, off: word) returns (ok: bool)
    requires fs.Valid() && i < |fs.addrs| && |src| == dst.Length && off <= fs.sizes[i] && off + |src| <= MAXFILE * BSIZE
    modifies fs, dst
    ensures ok ==> dst[..] == src
  {
    hide SoundBlocks, NoHoles, Overlay, Contents, NoLeak, Full;
    var r, n;
    ghost var done;
    ghost var was := fs.File(i);
    r, ok, done := fs.Writei(i, src, off, |src|);
    if ok {
      assert src[..|src|] == src;
      OverlayReads(was, off, src);
      ghost var now := fs.File(i);
      n := fs.Readi(i, dst, off, |src|);
      assert dst[..] == dst[..n] == now[off..off + |src|];
    }
  }

  lemma OverlayReads(s: seq<byte>, off: nat, data: seq<byte>)
    requires off <= |s|
    ensures Overlay(s, off, data)[off..off + |data|] == data
  {
  }

  /** Truncating a file empties it and leaves the others as they were. */
  lemma TruncatedFiles(image: Image, inodes: seq<seq<word>>, sizes: seq<nat>, lay: Layout, i: nat)
    requires SoundBlocks(image, inodes, lay) && NoHoles(image, inodes, sizes) && i < |inodes|
    requires forall j :: 0 <= j < |sizes| ==> sizes[j] <= MAXFILE * BSIZE
    ensures var image', inodes' := Truncated(image, inodes, lay, i), inodes[i := NoBlocks()];
            && SoundBlocks(image', inodes', lay) && NoHoles(image', inodes', sizes[i := 0])
            && (forall j :: 0 <= j < |inodes| && j != i ==> Contents(image', inodes'[j], sizes[j]) == Contents(image, inodes[j], sizes[j]))
            && (NoLeak(image, inodes, lay) ==>
                  (NoLeak(image', inodes', lay) <==> inodes[i][NDIRECT + 1] == 0 && inodes[i][NDIRECT + 2] == 0))
  {
    hide BlockOf, Used, Truncated, PathOf, NoLeak;
    TruncatedPlaces(image, inodes, lay, i);
    TruncatedTree(image, inodes, lay, i);
    var image', inodes' := Truncated(image, inodes, lay, i), inodes[i := NoBlocks()];
    forall j: nat, bn: nat | j < |inodes| && j != i && bn * BSIZE < sizes[j]
      ensures HasBlock(image', inodes'[j], bn) && SameBlock(image, image', DataBlock(image', inodes[j], bn))
      ensures DataBlock(image', inodes'[j], bn) == DataBlock(image, inodes[j], bn)
    {
      PathOfLeaf(bn);
      assert SamePlace(image, inodes[j], image', inodes[j], PathOf(bn)) && HasBlock(image, inodes[j], bn);
      assert PlaceOk(image, inodes[j], lay, PathOf(bn));
    }
    forall j: nat | j < |inodes| && j != i
      ensures Contents(image', inodes'[j], sizes[j]) == Contents(image, inodes[j], sizes[j])
    {
      forall k: nat | k < sizes[j]
        ensures FileByte(image', inodes'[j], k) == FileByte(image, inodes[j], k)
      {
        assert k / BSIZE * BSIZE < sizes[j];
        assert HasBlock(image', inodes'[j], k / BSIZE);
      }
    }
    if NoLeak(image, inodes, lay) {
      TruncatedLeak(image, inodes, lay, i);
    }
  }

  /** addrs with the first k slots emptied. */
  function Cleared(addrs: seq<word>, k: nat): (r: seq<word>)
    requires |addrs| == SLOTS && k <= SLOTS
    ensures |r| == SLOTS
  {
    seq(SLOTS, s requires 0 <= s < SLOTS => if s < k then 0 else addrs[s])
  }

  lemma ClearedNone(addrs: seq<word>)
    requires |addrs| == SLOTS
    ensures Cleared(addrs, 0) == addrs
  {
  }

  lemma ClearedNext(addrs: seq<word>, k: nat, done: seq<nat>)
    requires |addrs| == SLOTS && k < NDIRECT
    ensures Cleared(addrs, k)[k] == addrs[k]
    ensures Cleared(addrs, k + 1) == if addrs[k] == 0 then Cleared(addrs, k) else Cleared(addrs, k)[k := 0]
    ensures done + Directs(addrs, k) == (if addrs[k] == 0 then done else done + [addrs[k]]) + Directs(addrs, k + 1)
  {
  }

  lemma ClearedAll(addrs: seq<word>, done: seq<nat>)
    requires |addrs| == SLOTS
    ensures done + Directs(addrs, NDIRECT) == done
  {
  }

  /** The places on the way to a data block. */
  lemma Way(image: Image, addrs: seq<word>, g: Path, k: nat)
    requires IsLeaf(g) && 0 < k < |g|
    ensures g[..k] + [g[k]] == g[..k + 1] <= g && ValidPath(g[..k + 1])
    ensures k == 1 ==> g[..k] == [g[0]]
    ensures k + 1 == |g| ==> g[..k + 1] == g
    ensures BlockOf(image, addrs, g[..k + 1]) != 0 ==> BlockOf(image, addrs, g[..k]) != 0
    ensures BlockOf(image, addrs, g) != 0 ==> BlockOf(image, addrs, g[..k + 1]) != 0
    decreases |g| - k
  {
    assert g[..k + 1][..k] == g[..k];
    if k + 1 < |g| {
      Way(image, addrs, g, k + 1);
    }
  }

  /** The mark balloc looks at is that of block b0 + bi; behind the end of the map there is none. */
  lemma AllUsedUpTo(image: Image, lay: Layout, b0: nat, bi: nat, n: nat)
    requires lay.Ok() && |image| == lay.size && b0 % BPB == 0 && bi < BPB && n == b0 + bi
    ensures n == 0 ==> AllUsed(image, lay, n)
    ensures n < lay.size ==>
              && lay.bmapstart + b0 / BPB < |image|
              && var x := image[lay.bmapstart + b0 / BPB][bi / 8];
                 && (BitOf(x, bi % 8) <==> Used(image, lay.bmapstart, n))
                 && (BitOf(x, bi % 8) && AllUsed(image, lay, n) ==> AllUsed(image, lay, n + 1))
    ensures Full(image, lay) ==> forall b :: 0 <= b < lay.size ==> Used(image, lay.bmapstart, b)
  {
    InMapBlock(b0, bi);
  }

  lemma AllUsedBeyond(image: Image, lay: Layout, n: nat, n': nat)
    requires lay.Ok() && |image| == lay.size && AllUsed(image, lay, n) && (n == n' || lay.size <= n <= n')
    ensures AllUsed(image, lay, n') && (lay.size <= n' ==> Full(image, lay))
  {
  }

  /** Setting that bit and zeroing the block is allocating it. */
  lemma TakenBit(image: Image, lay: Layout, b0: nat, bi: nat)
    requires lay.Ok() && |image| == lay.size && b0 % BPB == 0 && bi < BPB && b0 + bi < lay.size
    ensures lay.bmapstart + b0 / BPB < |image| && var data := image[lay.bmapstart + b0 / BPB];
            image[lay.bmapstart + b0 / BPB := data[bi / 8 := SetBitOf(data[bi / 8], bi % 8, true)]][b0 + bi := ZeroBlock()]
            == Allocated(image, lay, b0 + bi)
  {
    hide SetBitOf;
    InMapBlock(b0, bi);
  }

  lemma InMapBlock(b0: nat, bi: nat)
    requires b0 % BPB == 0 && bi < BPB
    ensures (b0 + bi) / BPB == b0 / BPB && (b0 + bi) % BPB == bi
  {
  }

  lemma SlotPath(slot: nat)
    requires slot < SLOTS
    ensures ValidPath([slot])
  {
  }

  /** The free map marks the metadata, so the boot block is never handed out. */
  lemma BootKept(image: Image, lay: Layout, v: word)
    requires lay.Ok() && |image| == lay.size && MetaUsed(image, lay) && v < lay.size && !Used(image, lay.bmapstart, v)
    ensures Allocated(image, lay, v)[0] == image[0]
  {
  }

  lemma AllocatedTable(image: Image, addrs: seq<seq<word>>, lay: Layout, i: nat, p: Path, v: word)
    requires Tree(image, addrs, lay) && MetaUsed(image, lay) && v < lay.size && !Used(image, lay.bmapstart, v)
    requires i < |addrs| && ValidPath(p) && 0 < BlockOf(image, addrs[i], p) < lay.size
    ensures var t := BlockOf(image, addrs[i], p); Allocated(image, lay, v)[t] == image[t]
  {
    hide Used, BlockOf;
    AllocatedFrame(image, addrs, lay, v, i, p);
  }
}
