/** The blocks of an inode as a tree of up to four levels. */
module BlockTree {
  import opened Blocks
  import opened Bitmap

  const NDIRECT: nat := 6
  const NINDIRECT: nat := 128
  const NINDIRECT_D: nat := 16384    // NINDIRECT squared
  const NINDIRECT_T: nat := 2097152  // NINDIRECT cubed
  const MAXFILE: nat := NDIRECT + NINDIRECT + NINDIRECT_D + NINDIRECT_T
  const SLOTS: nat := NDIRECT + 3

  /** Levels of tables below a slot of ip->addrs: none for a direct block, up to three. */
  function Height(slot: nat): nat {
    if slot < NDIRECT then 0 else slot - NDIRECT + 1
  }

  /** A place in the tree: a slot of addrs, then an index into each table on the way. */
  type Path = seq<nat>

  predicate ValidPath(p: Path) {
    && 0 < |p| && p[0] < SLOTS && |p| <= Height(p[0]) + 1
    && forall i :: 0 < i < |p| ==> p[i] < NINDIRECT
  }

  /** Places of data blocks, as opposed to tables. */
  predicate IsLeaf(p: Path) {
    ValidPath(p) && |p| == Height(p[0]) + 1
  }

  /** Where bmap looks for block bn of a file. */
  function PathOf(bn: nat): Path {
    if bn < NDIRECT then [bn]
    else
      var b1 := bn - NDIRECT;
      if b1 < NINDIRECT then [NDIRECT, b1]
      else
        var b2 := b1 - NINDIRECT;
        if b2 < NINDIRECT_D then [NDIRECT + 1, b2 / NINDIRECT, b2 % NINDIRECT]
        else
          var b3 := b2 - NINDIRECT_D;
          [NDIRECT + 2, b3 / NINDIRECT_D, b3 % NINDIRECT_D / NINDIRECT, b3 % NINDIRECT_D % NINDIRECT]
  }

  /** The file block whose data is at a leaf. */
  function BlockAt(p: Path): nat
    requires IsLeaf(p)
  {
    if p[0] < NDIRECT then p[0]
    else if p[0] == NDIRECT then NDIRECT + p[1]
    else if p[0] == NDIRECT + 1 then NDIRECT + NINDIRECT + p[1] * NINDIRECT + p[2]
    else NDIRECT + NINDIRECT + NINDIRECT_D + p[1] * NINDIRECT_D + p[2] * NINDIRECT + p[3]
  }

  lemma PathOfLeaf(bn: nat)
    requires bn < MAXFILE
    ensures IsLeaf(PathOf(bn)) && BlockAt(PathOf(bn)) == bn
  {
    if bn >= NDIRECT + NINDIRECT + NINDIRECT_D {
      Digits(bn - NDIRECT - NINDIRECT - NINDIRECT_D);
    } else if bn >= NDIRECT + NINDIRECT {
      Digits(bn - NDIRECT - NINDIRECT);
    }
  }

  lemma Digits(b: nat)
    ensures b == b / NINDIRECT * NINDIRECT + b % NINDIRECT && b % NINDIRECT < NINDIRECT
    ensures b == b / NINDIRECT_D * NINDIRECT_D + b % NINDIRECT_D / NINDIRECT * NINDIRECT + b % NINDIRECT_D % NINDIRECT
    ensures b < NINDIRECT_D ==> b / NINDIRECT < NINDIRECT
    ensures b < NINDIRECT_T ==> b / NINDIRECT_D < NINDIRECT
    ensures b % NINDIRECT_D / NINDIRECT < NINDIRECT && b % NINDIRECT_D % NINDIRECT < NINDIRECT
  {
    var r := b % NINDIRECT_D;
    assert b == b / NINDIRECT_D * NINDIRECT_D + r;
    assert r == r / NINDIRECT * NINDIRECT + r % NINDIRECT;
  }

  lemma LeafOfBlock(p: Path)
    requires IsLeaf(p)
    ensures BlockAt(p) < MAXFILE && PathOf(BlockAt(p)) == p
  {
    if p[0] == NDIRECT + 1 {
      Quotient(p[1], p[2]);
    } else if p[0] == NDIRECT + 2 {
      Quotient(p[2], p[3]);
      QuotientD(p[1], p[2] * NINDIRECT + p[3]);
    }
  }

  lemma Quotient(a: nat, r: nat)
    requires r < NINDIRECT
    ensures (a * NINDIRECT + r) / NINDIRECT == a && (a * NINDIRECT + r) % NINDIRECT == r
  {
  }

  lemma QuotientD(a: nat, r: nat)
    requires r < NINDIRECT_D
    ensures (a * NINDIRECT_D + r) / NINDIRECT_D == a && (a * NINDIRECT_D + r) % NINDIRECT_D == r
  {
  }

  /** The block at a place of an inode's tree; 0 where there is none. */
  function BlockOf(image: Image, addrs: seq<word>, p: Path): nat {
    if |p| == 0 then 0
    else if |p| == 1 then (if p[0] < |addrs| then addrs[p[0]] else 0)
    else
      var t := BlockOf(image, addrs, p[..|p| - 1]);
      if t == 0 || t >= |image| || p[|p| - 1] >= NINDIRECT then 0 else Word(image[t], p[|p| - 1])
  }

  /** Where things lie on the disk: the free map within the first nmeta blocks. */
  datatype Layout = Layout(size: nat, bmapstart: nat, nmeta: nat) {
    predicate Ok() {
      && 0 < bmapstart && nmeta <= size < 0x1_0000_0000 && bmapstart + (size + BPB - 1) / BPB <= nmeta
    }
  }

  /** Every block of every tree is a data block marked in use, and no two places share a block. */
  ghost predicate Tree(image: Image, inodes: seq<seq<word>>, lay: Layout) {
    && lay.Ok() && |image| == lay.size
    && (forall i: nat, p :: i < |inodes| && ValidPath(p) ==> PlaceOk(image, inodes[i], lay, p))
    && (forall i: nat, p, j: nat, q :: i < |inodes| && j < |inodes| && ValidPath(p) && ValidPath(q) && (i != j || p != q) ==>
          Apart(image, inodes[i], p, inodes[j], q))
  }

  ghost predicate PlaceOk(image: Image, addrs: seq<word>, lay: Layout, p: Path)
    requires lay.Ok() && |image| == lay.size
  {
    BlockOf(image, addrs, p) != 0 ==> BlockOk(image, lay, BlockOf(image, addrs, p))
  }

  ghost predicate Apart(image: Image, a: seq<word>, p: Path, b: seq<word>, q: Path) {
    BlockOf(image, a, p) != 0 ==> BlockOf(image, a, p) != BlockOf(image, b, q)
  }

  predicate BlockOk(image: Image, lay: Layout, b: nat)
    requires lay.Ok() && |image| == lay.size
  {
    lay.nmeta <= b < lay.size && Used(image, lay.bmapstart, b)
  }

  ghost predicate InTree(image: Image, inodes: seq<seq<word>>, b: nat) {
    exists i: nat, p :: i < |inodes| && ValidPath(p) && BlockOf(image, inodes[i], p) == b
  }

  /** A block number the trees do not use yet, holding zeroes. */
  ghost predicate FreshBlock(image: Image, inodes: seq<seq<word>>, v: word) {
    && 0 < v < |image| && !InTree(image, inodes, v) && forall e: nat :: e < NINDIRECT ==> Word(image[v], e) == 0
  }

  lemma DifferentPlaces(image: Image, inodes: seq<seq<word>>, lay: Layout, i: nat, p: Path, j: nat, q: Path)
    requires Tree(image, inodes, lay) && i < |inodes| && j < |inodes| && ValidPath(p) && ValidPath(q)
    requires (i != j || p != q) && BlockOf(image, inodes[i], p) != 0
    ensures BlockOf(image, inodes[i], p) != BlockOf(image, inodes[j], q)
  {
    assert Apart(image, inodes[i], p, inodes[j], q);
  }

  /** A tree does not change when its tables do not. */
  lemma {:induction false} BlockOfFrame(image: Image, image': Image, addrs: seq<word>, p: Path)
    requires |image'| == |image| && ValidPath(p)
    requires forall q :: ValidPath(q) && !IsLeaf(q) ==> SameBlock(image, image', BlockOf(image, addrs, q))
    ensures BlockOf(image', addrs, p) == BlockOf(image, addrs, p)
  {
    if |p| > 1 {
      var r := p[..|p| - 1];
      BlockOfFrame(image, image', addrs, r);
      assert SameBlock(image, image', BlockOf(image, addrs, r));
    }
  }

  predicate SameBlock(image: Image, image': Image, b: nat) {
    0 < b < |image| && b < |image'| ==> image'[b] == image[b]
  }

  /** Put block v at entry e of the table at place p of inode i. */
  function Graft(image: Image, inodes: seq<seq<word>>, i: nat, p: Path, e: nat, v: word): Image
    requires i < |inodes| && BlockOf(image, inodes[i], p) < |image| && e < NINDIRECT
  {
    var t := BlockOf(image, inodes[i], p);
    image[t := SetWord(image[t], e, v)]
  }

  lemma {:induction false} GraftAt(image: Image, inodes: seq<seq<word>>, lay: Layout, i: nat, p: Path, e: nat, v: word,
                                   j: nat, q: Path)
    requires Tree(image, inodes, lay) && i < |inodes| && ValidPath(p + [e]) && 0 < |p| && FreshBlock(image, inodes, v)
    requires BlockOf(image, inodes[i], p) != 0 && BlockOf(image, inodes[i], p + [e]) == 0
    requires j < |inodes| && ValidPath(q)
    ensures BlockOf(image, inodes[i], p) < |image| && e < NINDIRECT
    ensures BlockOf(Graft(image, inodes, i, p, e, v), inodes[j], q) ==
            if j == i && q == p + [e] then v else BlockOf(image, inodes[j], q)
  {
    hide Word, SetWord, Used, BlockOf, Tree;
    ChildBlock(image, inodes, lay, i, p, e);
    var t := BlockOf(image, inodes[i], p);
    var image' := Graft(image, inodes, i, p, e, v);
    if |q| == 1 {
      RootBlock(image, inodes[j], q);
      RootBlock(image', inodes[j], q);
    } else {
      var r := q[..|q| - 1];
      var last := q[|q| - 1];
      assert q == r + [last];
      GraftAt(image, inodes, lay, i, p, e, v, j, r);
      EntryBlock(image, inodes[j], r, last);
      EntryBlock(image', inodes[j], r, last);
      WordSetWord(image[t], e, v, last);
      if j == i && r == p + [e] {
        assert InTree(image, inodes, t);
        assert image'[v] == image[v];
      } else if j != i || r != p {
        DifferentPlaces(image, inodes, lay, i, p, j, r);
      }
    }
  }

  lemma RootBlock(image: Image, addrs: seq<word>, q: Path)
    requires |q| == 1
    ensures BlockOf(image, addrs, q) == if q[0] < |addrs| then addrs[q[0]] else 0
  {
  }

  lemma EntryBlock(image: Image, addrs: seq<word>, p: Path, e: nat)
    requires 0 < |p| && e < NINDIRECT
    ensures var t := BlockOf(image, addrs, p);
            BlockOf(image, addrs, p + [e]) == if t == 0 || t >= |image| then 0 else Word(image[t], e)
  {
    assert (p + [e])[..|p|] == p;
  }

  /** Put block v at a slot of inode i. */
  function GraftRoot(inodes: seq<seq<word>>, i: nat, slot: nat, v: word): seq<seq<word>>
    requires i < |inodes| && slot < |inodes[i]|
  {
    var addrs: seq<word> := inodes[i];
    inodes[i := addrs[slot := v]]
  }

  lemma {:induction false} GraftRootAt(image: Image, inodes: seq<seq<word>>, i: nat, slot: nat, v: word, j: nat, q: Path)
    requires i < |inodes| && slot < SLOTS <= |inodes[i]| && FreshBlock(image, inodes, v)
    requires inodes[i][slot] == 0 && j < |inodes| && ValidPath(q)
    ensures BlockOf(image, GraftRoot(inodes, i, slot, v)[j], q) ==
            if j == i && q == [slot] then v else BlockOf(image, inodes[j], q)
  {
    if |q| > 1 {
      GraftRootAt(image, inodes, i, slot, v, j, q[..|q| - 1]);
      assert q[..|q| - 1] == [slot] ==> BlockOf(image, inodes[i], [slot]) == 0;
    }
  }

  /** The trees after v has been added at place g of inode i: everything else stays where it was. */
  ghost predicate Grafted(image: Image, inodes: seq<seq<word>>, image': Image, inodes': seq<seq<word>>, i: nat,
                          g: Path, v: word) {
    && |inodes'| == |inodes| && |image'| == |image|
    && forall j: nat, q :: j < |inodes| && ValidPath(q) ==> GraftedAt(image, inodes[j], image', inodes'[j], j == i && q == g, q, v)
  }

  ghost predicate GraftedAt(image: Image, addrs: seq<word>, image': Image, addrs': seq<word>, here: bool, q: Path, v: word) {
    BlockOf(image', addrs', q) == if here then v else BlockOf(image, addrs, q)
  }

  /** Adding a fresh, marked block at an empty place keeps the trees sound. */
  lemma GraftKeepsTree(image: Image, inodes: seq<seq<word>>, image': Image, inodes': seq<seq<word>>, lay: Layout,
                       i: nat, g: Path, v: word)
    requires Tree(image, inodes, lay) && Grafted(image, inodes, image', inodes', i, g, v)
    requires FreshBlock(image, inodes, v) && BlockOk(image, lay, v)
    requires forall b: nat :: b < lay.size ==> (Used(image', lay.bmapstart, b) <==> Used(image, lay.bmapstart, b))
    ensures Tree(image', inodes', lay)
  {
    forall j: nat, q | j < |inodes'| && ValidPath(q)
      ensures PlaceOk(image', inodes'[j], lay, q)
    {
      assert PlaceOk(image, inodes[j], lay, q);
      assert GraftedAt(image, inodes[j], image', inodes'[j], j == i && q == g, q, v);
    }
    forall j: nat, p, k: nat, q | j < |inodes'| && k < |inodes'| && ValidPath(p) && ValidPath(q) && (j != k || p != q)
      ensures Apart(image', inodes'[j], p, inodes'[k], q)
    {
      assert Apart(image, inodes[j], p, inodes[k], q);
      assert GraftedAt(image, inodes[j], image', inodes'[j], j == i && p == g, p, v);
      assert GraftedAt(image, inodes[k], image', inodes'[k], k == i && q == g, q, v);
    }
  }

  // ---------------------------------------------------------------- allocation

  /** The first nmeta blocks hold the boot block, superblock, log, inodes and free map. */
  ghost predicate MetaUsed(image: Image, lay: Layout)
    requires lay.Ok() && |image| == lay.size
  {
    forall b: nat :: b < lay.nmeta ==> Used(image, lay.bmapstart, b)
  }

  /** Only metadata and trees are marked in use. */
  ghost predicate NoLeak(image: Image, inodes: seq<seq<word>>, lay: Layout)
    requires lay.Ok() && |image| == lay.size
  {
    forall b: nat :: lay.nmeta <= b < lay.size && Used(image, lay.bmapstart, b) ==> InTree(image, inodes, b)
  }

  /** The disk after balloc has handed out block b. */
  function Allocated(image: Image, lay: Layout, b: nat): (image': Image)
    requires lay.Ok() && |image| == lay.size && b < lay.size
    ensures |image'| == |image| && image'[b] == ZeroBlock()
  {
    SetUsed(image, lay.bmapstart, b, true)[b := ZeroBlock()]
  }

  lemma AllocatedUsed(image: Image, lay: Layout, b: nat, c: nat)
    requires lay.Ok() && |image| == lay.size && lay.nmeta <= b < lay.size && c < lay.size
    ensures Used(Allocated(image, lay, b), lay.bmapstart, c) <==> c == b || Used(image, lay.bmapstart, c)
  {
    UsedSetUsed(image, lay.bmapstart, b, true, c);
  }

  lemma AllocatedFrame(image: Image, inodes: seq<seq<word>>, lay: Layout, b: word, j: nat, q: Path)
    requires Tree(image, inodes, lay) && MetaUsed(image, lay) && b < lay.size && !Used(image, lay.bmapstart, b)
    requires j < |inodes| && ValidPath(q)
    ensures SameBlock(image, Allocated(image, lay, b), BlockOf(image, inodes[j], q)) && BlockOf(image, inodes[j], q) != b
  {
    assert PlaceOk(image, inodes[j], lay, q);
    assert b >= lay.nmeta;
  }

  /** balloc keeps every tree, and its block is fresh. */
  lemma AllocatedTree(image: Image, inodes: seq<seq<word>>, lay: Layout, b: word)
    requires Tree(image, inodes, lay) && MetaUsed(image, lay) && b < lay.size && !Used(image, lay.bmapstart, b)
    ensures var image' := Allocated(image, lay, b);
            && b >= lay.nmeta && SameTrees(image, inodes, image', inodes)
            && Tree(image', inodes, lay) && MetaUsed(image', lay)
            && FreshBlock(image', inodes, b) && BlockOk(image', lay, b)
  {
    hide Allocated, Used;
    var image' := Allocated(image, lay, b);
    assert b >= lay.nmeta;
    forall c: nat | c < lay.size
      ensures Used(image', lay.bmapstart, c) <==> c == b || Used(image, lay.bmapstart, c)
    {
      AllocatedUsed(image, lay, b, c);
    }
    forall j: nat, q | j < |inodes| && ValidPath(q)
      ensures SamePlace(image, inodes[j], image', inodes[j], q) && BlockOf(image, inodes[j], q) != b
    {
      forall q' | ValidPath(q') && !IsLeaf(q')
        ensures SameBlock(image, image', BlockOf(image, inodes[j], q'))
      {
        AllocatedFrame(image, inodes, lay, b, j, q');
      }
      AllocatedFrame(image, inodes, lay, b, j, q);
      BlockOfFrame(image, image', inodes[j], q);
    }
    SameTreesTree(image, inodes, image', inodes, lay);
    ZeroFresh(image, inodes, image', b);
  }

  lemma ZeroFresh(image: Image, inodes: seq<seq<word>>, image': Image, b: word)
    requires SameTrees(image, inodes, image', inodes) && 0 < b < |image'| && image'[b] == ZeroBlock()
    requires forall j: nat, q :: j < |inodes| && ValidPath(q) ==> BlockOf(image, inodes[j], q) != b
    ensures FreshBlock(image', inodes, b)
  {
    hide BlockOf, ValidPath, Word;
    forall e: nat | e < NINDIRECT
      ensures Word(image'[b], e) == 0
    {
      ZeroWord(e);
    }
    forall j: nat, q | j < |inodes| && ValidPath(q)
      ensures BlockOf(image', inodes[j], q) != b
    {
      assert SamePlace(image, inodes[j], image', inodes[j], q);
    }
  }

  ghost predicate SameTrees(image: Image, inodes: seq<seq<word>>, image': Image, inodes': seq<seq<word>>) {
    && |image'| == |image| && |inodes'| == |inodes|
    && forall j: nat, q :: j < |inodes| && ValidPath(q) ==> SamePlace(image, inodes[j], image', inodes'[j], q)
  }

  ghost predicate SamePlace(image: Image, addrs: seq<word>, image': Image, addrs': seq<word>, q: Path) {
    BlockOf(image', addrs', q) == BlockOf(image, addrs, q)
  }

  lemma SameTreesTree(image: Image, inodes: seq<seq<word>>, image': Image, inodes': seq<seq<word>>, lay: Layout)
    requires Tree(image, inodes, lay) && |image'| == |image| && |inodes'| == |inodes|
    requires SameTrees(image, inodes, image', inodes')
    requires forall b: nat :: b < lay.size && Used(image, lay.bmapstart, b) ==> Used(image', lay.bmapstart, b)
    ensures Tree(image', inodes', lay)
  {
    forall j: nat, q | j < |inodes'| && ValidPath(q)
      ensures PlaceOk(image', inodes'[j], lay, q)
    {
      assert PlaceOk(image, inodes[j], lay, q) && SamePlace(image, inodes[j], image', inodes'[j], q);
    }
    forall j: nat, p, k: nat, q | j < |inodes'| && k < |inodes'| && ValidPath(p) && ValidPath(q) && (j != k || p != q)
      ensures Apart(image', inodes'[j], p, inodes'[k], q)
    {
      assert Apart(image, inodes[j], p, inodes[k], q);
      assert SamePlace(image, inodes[j], image', inodes'[j], p) && SamePlace(image, inodes[k], image', inodes'[k], q);
    }
  }

  // ---------------------------------------------------------------- growing a tree

  /** What may change when blocks are added on the way to place g of inode i. */
  ghost predicate Extends(image: Image, inodes: seq<seq<word>>, image': Image, inodes': seq<seq<word>>, i: nat, g: Path) {
    && |image'| == |image| && |inodes'| == |inodes|
    && forall j: nat, q :: j < |inodes| && ValidPath(q) ==> ExtendsAt(image, inodes[j], image', inodes'[j], j == i && q <= g, q)
  }

  /** A block in place stays, with its data if it is a data block; a new block lies on the way, and new data is zero. */
  ghost predicate ExtendsAt(image: Image, addrs: seq<word>, image': Image, addrs': seq<word>, onWay: bool, q: Path) {
    var b, b' := BlockOf(image, addrs, q), BlockOf(image', addrs', q);
    && (b != 0 ==> b' == b && (IsLeaf(q) ==> SameBlock(image, image', b)))
    && (b == 0 && !onWay ==> b' == 0)
    && (b == 0 && b' != 0 && IsLeaf(q) && b' < |image'| ==> image'[b'] == ZeroBlock())
  }

  lemma ExtendsTransitive(m0: Image, a0: seq<seq<word>>, m1: Image, a1: seq<seq<word>>, m2: Image, a2: seq<seq<word>>,
                          i: nat, g: Path)
    requires Extends(m0, a0, m1, a1, i, g) && Extends(m1, a1, m2, a2, i, g)
    ensures Extends(m0, a0, m2, a2, i, g)
  {
    forall j: nat, q | j < |a0| && ValidPath(q)
      ensures ExtendsAt(m0, a0[j], m2, a2[j], j == i && q <= g, q)
    {
      assert ExtendsAt(m0, a0[j], m1, a1[j], j == i && q <= g, q);
      assert ExtendsAt(m1, a1[j], m2, a2[j], j == i && q <= g, q);
    }
  }

  lemma ExtendsNothing(image: Image, inodes: seq<seq<word>>, i: nat, g: Path)
    ensures Extends(image, inodes, image, inodes, i, g)
  {
  }

  /** One allocation: v is taken from the free map, zeroed, and put at place h of inode i. */
  ghost predicate Planted(image: Image, inodes: seq<seq<word>>, image': Image, inodes': seq<seq<word>>, lay: Layout,
                          i: nat, h: Path, v: word)
    requires lay.Ok() && |image| == lay.size && v < lay.size
  {
    var image1 := Allocated(image, lay, v);
    && Grafted(image1, inodes, image', inodes', i, h, v)
    && (forall b: nat :: b < lay.size ==> (Used(image', lay.bmapstart, b) <==> Used(image1, lay.bmapstart, b)))
    && (forall j: nat, q :: j < |inodes| && ValidPath(q) && IsLeaf(q) ==> SameBlock(image1, image', BlockOf(image1, inodes[j], q)))
    && image'[v] == ZeroBlock()
  }

  lemma PlantedKeeps(image: Image, inodes: seq<seq<word>>, image': Image, inodes': seq<seq<word>>, lay: Layout, i: nat,
                     h: Path, v: word, g: Path)
    requires Tree(image, inodes, lay) && MetaUsed(image, lay) && v < lay.size && !Used(image, lay.bmapstart, v)
    requires Planted(image, inodes, image', inodes', lay, i, h, v) && h <= g && ValidPath(h) && i < |inodes|
    requires BlockOf(image, inodes[i], h) == 0
    ensures Tree(image', inodes', lay) && MetaUsed(image', lay) && v >= lay.nmeta
    ensures Extends(image, inodes, image', inodes', i, g) && BlockOf(image', inodes'[i], h) == v
    ensures NoLeak(image, inodes, lay) ==> NoLeak(image', inodes', lay)
    ensures forall b: nat :: b < lay.size ==> (Used(image', lay.bmapstart, b) <==> b == v || Used(image, lay.bmapstart, b))
    ensures forall q :: ValidPath(q) ==> BlockOf(image', inodes'[i], q) == if q == h then v else BlockOf(image, inodes[i], q)
  {
    hide Allocated, Used, BlockOf, ValidPath, IsLeaf;
    var image1 := Allocated(image, lay, v);
    AllocatedTree(image, inodes, lay, v);
    GraftKeepsTree(image1, inodes, image', inodes', lay, i, h, v);
    forall b: nat | b < lay.size
      ensures Used(image', lay.bmapstart, b) <==> b == v || Used(image, lay.bmapstart, b)
    {
      AllocatedUsed(image, lay, v, b);
    }
    assert GraftedAt(image1, inodes[i], image', inodes'[i], true, h, v);
    forall j: nat, q | j < |inodes| && ValidPath(q)
      ensures BlockOf(image', inodes'[j], q) == if j == i && q == h then v else BlockOf(image, inodes[j], q)
      ensures ExtendsAt(image, inodes[j], image', inodes'[j], j == i && q <= g, q)
    {
      assert SamePlace(image, inodes[j], image1, inodes[j], q);
      assert GraftedAt(image1, inodes[j], image', inodes'[j], j == i && q == h, q, v);
      AllocatedFrame(image, inodes, lay, v, j, q);
      assert IsLeaf(q) ==> SameBlock(image1, image', BlockOf(image1, inodes[j], q));
    }
    if NoLeak(image, inodes, lay) {
      PlantedNoLeak(image, inodes, image', inodes', lay, i, h, v);
    }
  }

  lemma PlantedNoLeak(image: Image, inodes: seq<seq<word>>, image': Image, inodes': seq<seq<word>>, lay: Layout,
                      i: nat, h: Path, v: word)
    requires lay.Ok() && |image'| == |image| == lay.size && |inodes'| == |inodes| && NoLeak(image, inodes, lay)
    requires forall b: nat :: b < lay.size ==> (Used(image', lay.bmapstart, b) <==> b == v || Used(image, lay.bmapstart, b))
    requires i < |inodes| && ValidPath(h) && BlockOf(image, inodes[i], h) == 0
    requires forall j: nat, q :: j < |inodes| && ValidPath(q) ==>
               BlockOf(image', inodes'[j], q) == if j == i && q == h then v else BlockOf(image, inodes[j], q)
    ensures NoLeak(image', inodes', lay)
  {
    hide BlockOf, ValidPath, Used;
    forall b: nat | lay.nmeta <= b < lay.size && Used(image', lay.bmapstart, b)
      ensures InTree(image', inodes', b)
    {
      if b == v {
        assert BlockOf(image', inodes'[i], h) == v;
      } else {
        assert InTree(image, inodes, b);
        var j: nat, q :| j < |inodes| && ValidPath(q) && BlockOf(image, inodes[j], q) == b;
        assert BlockOf(image', inodes'[j], q) == b;
      }
    }
  }

  lemma ValidPrefix(p: Path, e: nat)
    requires ValidPath(p + [e]) && 0 < |p|
    ensures ValidPath(p) && !IsLeaf(p) && e < NINDIRECT && (p + [e])[..|p|] == p
  {
    assert (p + [e])[|p|] == e;
    assert forall i :: 0 < i < |p| ==> p[i] == (p + [e])[i];
  }

  /** The entry of a table is the block at that place. */
  lemma ChildBlock(image: Image, inodes: seq<seq<word>>, lay: Layout, i: nat, p: Path, e: nat)
    requires Tree(image, inodes, lay) && i < |inodes| && 0 < |p| && ValidPath(p + [e]) && BlockOf(image, inodes[i], p) != 0
    ensures e < NINDIRECT && ValidPath(p) && lay.nmeta <= BlockOf(image, inodes[i], p) < |image|
    ensures BlockOf(image, inodes[i], p + [e]) == Word(image[BlockOf(image, inodes[i], p)], e)
  {
    ValidPrefix(p, e);
    assert PlaceOk(image, inodes[i], lay, p);
  }

  /** The allocation of bmap in a table. */
  lemma PlantChild(image: Image, inodes: seq<seq<word>>, lay: Layout, i: nat, p: Path, e: nat, v: word)
    requires Tree(image, inodes, lay) && MetaUsed(image, lay) && v < lay.size && !Used(image, lay.bmapstart, v)
    requires i < |inodes| && 0 < |p| && ValidPath(p + [e])
    requires BlockOf(image, inodes[i], p) != 0 && BlockOf(image, inodes[i], p + [e]) == 0
    ensures e < NINDIRECT && BlockOf(Allocated(image, lay, v), inodes[i], p) == BlockOf(image, inodes[i], p) < lay.size
    ensures Planted(image, inodes, Graft(Allocated(image, lay, v), inodes, i, p, e, v), inodes, lay, i, p + [e], v)
  {
    hide Allocated, Used, BlockOf, Word, SetWord;
    hide ValidPath, IsLeaf;
    var image1 := Allocated(image, lay, v);
    AllocatedTree(image, inodes, lay, v);
    ValidPrefix(p, e);
    assert SamePlace(image, inodes[i], image1, inodes[i], p) && SamePlace(image, inodes[i], image1, inodes[i], p + [e]);
    assert PlaceOk(image1, inodes[i], lay, p);
    var image' := Graft(image1, inodes, i, p, e, v);
    var t := BlockOf(image1, inodes[i], p);
    forall j: nat, q | j < |inodes| && ValidPath(q)
      ensures GraftedAt(image1, inodes[j], image', inodes[j], j == i && q == p + [e], q, v)
      ensures IsLeaf(q) ==> SameBlock(image1, image', BlockOf(image1, inodes[j], q))
    {
      GraftAt(image1, inodes, lay, i, p, e, v, j, q);
      if IsLeaf(q) {
        DifferentPlaces(image1, inodes, lay, i, p, j, q);
      }
    }
    forall b: nat | b < lay.size
      ensures Used(image', lay.bmapstart, b) <==> Used(image1, lay.bmapstart, b)
    {
      UsedFrame(image1, image', lay, b);
    }
    assert InTree(image1, inodes, t);
    assert v != t && image'[v] == ZeroBlock();
    assert Grafted(image1, inodes, image', inodes, i, p + [e], v);
  }

  /** The allocation of bmap in ip->addrs. */
  lemma PlantRoot(image: Image, inodes: seq<seq<word>>, lay: Layout, i: nat, slot: nat, v: word)
    requires Tree(image, inodes, lay) && MetaUsed(image, lay) && v < lay.size && !Used(image, lay.bmapstart, v)
    requires i < |inodes| && slot < SLOTS <= |inodes[i]| && inodes[i][slot] == 0
    ensures Planted(image, inodes, Allocated(image, lay, v), GraftRoot(inodes, i, slot, v), lay, i, [slot], v)
  {
    hide Allocated, Used, BlockOf;
    var image1 := Allocated(image, lay, v);
    AllocatedTree(image, inodes, lay, v);
    forall j: nat, q | j < |inodes| && ValidPath(q)
      ensures GraftedAt(image1, inodes[j], image1, GraftRoot(inodes, i, slot, v)[j], j == i && q == [slot], q, v)
    {
      GraftRootAt(image1, inodes, i, slot, v, j, q);
    }
  }

  /** Changing blocks beyond the metadata leaves the free map alone. */
  lemma UsedFrame(image: Image, image': Image, lay: Layout, b: nat)
    requires lay.Ok() && |image'| == |image| == lay.size && b < lay.size
    requires forall c: nat :: c < lay.nmeta ==> image'[c] == image[c]
    ensures Used(image', lay.bmapstart, b) <==> Used(image, lay.bmapstart, b)
  {
    assert lay.bmapstart + b / BPB < lay.nmeta;
  }
}
