/** Counting the blocks that are free against the places that lack one. */
module BlockCount {
  import opened Blocks
  import opened Bitmap
  import opened BlockTree

  /** The blocks balloc can hand out. */
  ghost function FreeBlocks(image: Image, lay: Layout): set<nat>
    requires lay.Ok() && |image| == lay.size
  {
    set b: nat | b < lay.size && !Used(image, lay.bmapstart, b)
  }

  /** The places bmap passes on its way to g: tables, then the place itself. */
  ghost function Steps(g: Path): set<Path> {
    set k: nat | 1 <= k <= |g| :: g[..k]
  }

  /** The places on the way to the file blocks from lo up to hi. */
  ghost function Places(lo: nat, hi: nat): set<Path> {
    if hi <= lo then {} else Places(lo, hi - 1) + Steps(PathOf(hi - 1))
  }

  /** Those of the places that have no block. */
  ghost function Empty(image: Image, addrs: seq<word>, ps: set<Path>): set<Path> {
    set p | p in ps && BlockOf(image, addrs, p) == 0
  }

  ghost predicate AllValid(ps: set<Path>) {
    forall p :: p in ps ==> ValidPath(p)
  }

  /** Each block that has been taken fills a place. */
  ghost predicate Paid(lay: Layout, m: Image, a: seq<word>, m': Image, a': seq<word>, ps: set<Path>)
    requires lay.Ok() && |m| == lay.size && |m'| == lay.size
  {
    && Empty(m', a', ps) <= Empty(m, a, ps)
    && |FreeBlocks(m, lay)| - |Empty(m, a, ps)| == |FreeBlocks(m', lay)| - |Empty(m', a', ps)|
  }

  /** Blocks have been taken for places on the way to g only. */
  ghost predicate PaidFor(lay: Layout, m: Image, a: seq<word>, m': Image, a': seq<word>, g: Path)
    requires lay.Ok() && |m| == lay.size && |m'| == lay.size
  {
    forall ps: set<Path> :: Steps(g) <= ps && AllValid(ps) ==> Paid(lay, m, a, m', a', ps)
  }

  lemma PaidNothing(lay: Layout, m: Image, a: seq<word>, g: Path)
    requires lay.Ok() && |m| == lay.size
    ensures PaidFor(lay, m, a, m, a, g)
  {
  }

  lemma PaidTwice(lay: Layout, m0: Image, a0: seq<word>, m1: Image, a1: seq<word>, m2: Image, a2: seq<word>, g: Path)
    requires lay.Ok() && |m0| == |m1| == |m2| == lay.size
    requires PaidFor(lay, m0, a0, m1, a1, g) && PaidFor(lay, m1, a1, m2, a2, g)
    ensures PaidFor(lay, m0, a0, m2, a2, g)
  {
    hide Empty, FreeBlocks, AllValid, Steps;
    forall ps: set<Path> | Steps(g) <= ps && AllValid(ps)
      ensures Paid(lay, m0, a0, m2, a2, ps)
    {
      assert Paid(lay, m0, a0, m1, a1, ps) && Paid(lay, m1, a1, m2, a2, ps);
    }
  }

  /** Planting one block at place h pays for h. */
  lemma PaidOne(lay: Layout, m: Image, a: seq<word>, m': Image, a': seq<word>, h: Path, v: nat, g: Path)
    requires lay.Ok() && |m| == |m'| == lay.size && v < lay.size && v != 0 && !Used(m, lay.bmapstart, v)
    requires forall b: nat :: b < lay.size ==> (Used(m', lay.bmapstart, b) <==> b == v || Used(m, lay.bmapstart, b))
    requires BlockOf(m, a, h) == 0 && ValidPath(h) && 0 < |h| && h <= g
    requires forall q :: ValidPath(q) ==> BlockOf(m', a', q) == if q == h then v else BlockOf(m, a, q)
    ensures PaidFor(lay, m, a, m', a', g)
  {
    hide Used, BlockOf, ValidPath;
    assert v in FreeBlocks(m, lay) && FreeBlocks(m', lay) == FreeBlocks(m, lay) - {v};
    assert h == g[..|h|] && h in Steps(g);
    forall ps: set<Path> | Steps(g) <= ps && AllValid(ps)
      ensures Paid(lay, m, a, m', a', ps)
    {
      assert h in Empty(m, a, ps) && Empty(m', a', ps) == Empty(m, a, ps) - {h};
    }
  }

  /** With no free block, what is still empty is too much. */
  lemma Short(lay: Layout, m: Image, a: seq<word>, m': Image, a': seq<word>, ps: set<Path>, p: Path)
    requires lay.Ok() && |m| == |m'| == lay.size && Paid(lay, m, a, m', a', ps)
    requires (forall b: nat :: b < lay.size ==> Used(m', lay.bmapstart, b)) && p in ps && BlockOf(m', a', p) == 0
    ensures |FreeBlocks(m, lay)| < |Empty(m, a, ps)|
  {
    hide Used, BlockOf;
    assert FreeBlocks(m', lay) == {};
    assert p in Empty(m', a', ps);
  }

  /** Where nothing is empty any more, there was enough. */
  lemma Enough(lay: Layout, m: Image, a: seq<word>, m': Image, a': seq<word>, ps: set<Path>)
    requires lay.Ok() && |m| == |m'| == lay.size && Paid(lay, m, a, m', a', ps)
    requires forall p :: p in ps ==> BlockOf(m', a', p) != 0
    ensures |FreeBlocks(m, lay)| >= |Empty(m, a, ps)|
  {
    hide Used, BlockOf;
    assert Empty(m', a', ps) == {};
  }

  /** With data at a place, all on the way to it is there. */
  lemma {:induction false} AllThere(m: Image, a: seq<word>, g: Path, k: nat)
    requires BlockOf(m, a, g) != 0 && k < |g|
    ensures BlockOf(m, a, g[..k + 1]) != 0
    decreases |g| - k
  {
    if k + 1 < |g| {
      AllThere(m, a, g, k + 1);
      assert g[..k + 2][..k + 1] == g[..k + 1];
    } else {
      assert g[..k + 1] == g;
    }
  }

  lemma StepsThere(m: Image, a: seq<word>, g: Path)
    requires BlockOf(m, a, g) != 0
    ensures forall p :: p in Steps(g) ==> BlockOf(m, a, p) != 0
  {
    forall k: nat | 1 <= k <= |g|
      ensures BlockOf(m, a, g[..k]) != 0
    {
      AllThere(m, a, g, k - 1);
    }
  }

  lemma StepsValid(bn: nat)
    requires bn < MAXFILE
    ensures AllValid(Steps(PathOf(bn))) && PathOf(bn) in Steps(PathOf(bn))
  {
    PathOfLeaf(bn);
    var g := PathOf(bn);
    assert g[..|g|] == g;
  }

  lemma {:induction false} PlacesValid(lo: nat, hi: nat)
    requires hi <= MAXFILE
    ensures AllValid(Places(lo, hi))
    ensures forall bn :: lo <= bn < hi ==> Steps(PathOf(bn)) <= Places(lo, hi)
  {
    hide Steps, PathOf, ValidPath;
    if lo < hi {
      PlacesValid(lo, hi - 1);
      StepsValid(hi - 1);
    }
  }
}
