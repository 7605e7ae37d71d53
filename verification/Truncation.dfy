/** What truncation frees: the blocks below a table, in the order remove_children frees them. */
module Truncation {
  import opened Blocks
  import opened Bitmap
  import opened BlockTree

  ghost predicate Distinct(l: seq<nat>) {
    forall x, y :: 0 <= x < y < |l| ==> l[x] != l[y]
  }

  lemma DistinctConcat(l: seq<nat>, m: seq<nat>)
    requires Distinct(l) && Distinct(m) && forall b, c :: b in l && c in m ==> b != c
    ensures Distinct(l + m)
  {
    forall x, y | 0 <= x < y < |l + m|
      ensures (l + m)[x] != (l + m)[y]
    {
      if x < |l| <= y {
        assert (l + m)[x] in l && (l + m)[y] in m;
      }
    }
  }

  /** Blocks below table t, from entry e on; lev is how many levels of blocks hang below t. */
  function BelowFrom(image: Image, t: nat, lev: nat, e: nat): seq<nat>
    requires lev > 0
    decreases lev, NINDIRECT - e
  {
    if t >= |image| || e >= NINDIRECT then [] else Entry(image, Word(image[t], e), lev) + BelowFrom(image, t, lev, e + 1)
  }

  /** What goes with one table entry: all below it, then the block itself. */
  function Entry(image: Image, b: nat, lev: nat): seq<nat>
    requires lev > 0
    decreases lev, 0
  {
    if b == 0 then [] else (if lev > 1 then BelowFrom(image, b, lev - 1, 0) else []) + [b]
  }

  /** The disk with the blocks of l marked free. */
  function Freed(image: Image, lay: Layout, l: seq<nat>): (r: Image)
    requires lay.Ok() && |image| == lay.size && forall x :: 0 <= x < |l| ==> l[x] < lay.size
    ensures |r| == |image|
  {
    if l == [] then image
    else SetUsed(Freed(image, lay, l[..|l| - 1]), lay.bmapstart, l[|l| - 1], false)
  }

  /** Exactly the blocks of l become free; beyond the free map nothing changes. */
  lemma {:induction false} FreedMarks(image: Image, lay: Layout, l: seq<nat>)
    requires lay.Ok() && |image| == lay.size && forall x :: 0 <= x < |l| ==> l[x] < lay.size
    ensures forall c: nat :: c < lay.size ==> (Used(Freed(image, lay, l), lay.bmapstart, c) <==> Used(image, lay.bmapstart, c) && c !in l)
    ensures forall c: nat :: c < lay.size && Clear(lay, c) ==> Freed(image, lay, l)[c] == image[c]
  {
    hide Used;
    if l != [] {
      var m, b := l[..|l| - 1], l[|l| - 1];
      assert l == m + [b];
      FreedMarks(image, lay, m);
      var r := Freed(image, lay, m);
      forall c: nat | c < lay.size
        ensures Used(SetUsed(r, lay.bmapstart, b, false), lay.bmapstart, c) <==> Used(image, lay.bmapstart, c) && c !in l
      {
        UsedSetUsed(r, lay.bmapstart, b, false, c);
      }
    }
  }

  /** Blocks outside the free map. */
  predicate Clear(lay: Layout, b: nat) {
    b < lay.bmapstart || b >= lay.nmeta
  }

  lemma FreedSnoc(image: Image, lay: Layout, l: seq<nat>, b: nat)
    requires lay.Ok() && |image| == lay.size && b < lay.size
    requires forall x :: 0 <= x < |l| ==> l[x] < lay.size
    ensures forall x :: 0 <= x < |l + [b]| ==> (l + [b])[x] < lay.size
    ensures lay.bmapstart + b / BPB < |image|
    ensures Freed(image, lay, l + [b]) == SetUsed(Freed(image, lay, l), lay.bmapstart, b, false)
  {
    assert (l + [b])[..|l|] == l;
  }

  lemma {:induction false} FreedConcat(image: Image, lay: Layout, l: seq<nat>, m: seq<nat>)
    requires lay.Ok() && |image| == lay.size
    requires (forall x :: 0 <= x < |l| ==> l[x] < lay.size) && forall x :: 0 <= x < |m| ==> m[x] < lay.size
    ensures forall x :: 0 <= x < |l + m| ==> (l + m)[x] < lay.size
    ensures Freed(Freed(image, lay, l), lay, m) == Freed(image, lay, l + m)
  {
    hide SetUsed;
    if m == [] {
      assert l + m == l;
    } else {
      var n, b := m[..|m| - 1], m[|m| - 1];
      FreedConcat(image, lay, l, n);
      assert m == n + [b] && l + m == l + n + [b];
      FreedSnoc(image, lay, l + n, b);
      FreedSnoc(Freed(image, lay, l), lay, n, b);
    }
  }

  /** All of l can be freed, one after the other. */
  ghost predicate Freeable(image: Image, lay: Layout, l: seq<nat>)
    requires lay.Ok() && |image| == lay.size
  {
    Distinct(l) && forall x :: 0 <= x < |l| ==> BlockOk(image, lay, l[x])
  }

  /** Freeing the first part leaves the rest to be freed. */
  lemma FreeableRest(image: Image, lay: Layout, l: seq<nat>, m: seq<nat>, n: seq<nat>)
    requires lay.Ok() && |image| == lay.size && Freeable(image, lay, l + m + n)
    ensures forall x :: 0 <= x < |l| ==> l[x] < lay.size
    ensures Freeable(Freed(image, lay, l), lay, m)
  {
    hide Used;
    forall x | 0 <= x < |l|
      ensures l[x] < lay.size
    {
      assert l[x] == (l + m + n)[x];
    }
    FreedMarks(image, lay, l);
    forall x | 0 <= x < |m|
      ensures BlockOk(Freed(image, lay, l), lay, m[x])
    {
      assert m[x] == (l + m + n)[|l| + x];
      assert forall y :: 0 <= y < |l| ==> l[y] == (l + m + n)[y];
    }
    forall x, y | 0 <= x < y < |m|
      ensures m[x] != m[y]
    {
      assert m[x] == (l + m + n)[|l| + x] && m[y] == (l + m + n)[|l| + y];
    }
  }

  /** The next table entry. */
  lemma BelowStep(image: Image, t: nat, lev: nat, e: nat, done: seq<nat>)
    requires lev > 0 && t < |image| && e < NINDIRECT
    ensures var b := Word(image[t], e);
            var below := if lev > 1 then BelowFrom(image, b, lev - 1, 0) else [];
            done + BelowFrom(image, t, lev, e) == (if b == 0 then done else done + below + [b]) + BelowFrom(image, t, lev, e + 1)
  {
  }

  lemma BelowEnd(image: Image, t: nat, lev: nat, done: seq<nat>)
    requires lev > 0
    ensures done + BelowFrom(image, t, lev, NINDIRECT) == done
  {
  }

  lemma FreedOne(image: Image, lay: Layout, b: nat)
    requires lay.Ok() && |image| == lay.size && Freeable(image, lay, [b])
    ensures b < lay.size && lay.bmapstart + b / BPB < |image| && Used(image, lay.bmapstart, b)
    ensures Freed(image, lay, [b]) == SetUsed(image, lay.bmapstart, b, false)
  {
    hide SetUsed, Used;
    assert BlockOk(image, lay, [b][0]);
    FreedSnoc(image, lay, [], b);
    assert [] + [b] == [b];
  }

  /** The blocks below a table do not depend on the free map. */
  lemma {:induction false} BelowFrame(image: Image, image': Image, lay: Layout, t: nat, lev: nat, e: nat)
    requires lay.Ok() && |image| == |image'| == lay.size && lev > 0 && Clear(lay, t)
    requires forall c: nat :: c < lay.size && Clear(lay, c) ==> image'[c] == image[c]
    requires forall b :: b in BelowFrom(image, t, lev, e) ==> Clear(lay, b)
    ensures BelowFrom(image', t, lev, e) == BelowFrom(image, t, lev, e)
    decreases lev, NINDIRECT - e
  {
    if t < |image| && e < NINDIRECT {
      var b := Word(image[t], e);
      BelowFrame(image, image', lay, t, lev, e + 1);
      if b != 0 && lev > 1 {
        assert b in Entry(image, b, lev);
        BelowFrame(image, image', lay, b, lev - 1, 0);
      }
    }
  }

  // ---------------------------------------------------------------- places

  /** Block b is at place q, strictly below place p by way of entry e or a later one. */
  ghost predicate Under(image: Image, addrs: seq<word>, p: Path, e: nat, q: Path, b: nat) {
    ValidPath(q) && p < q && q[|p|] >= e && BlockOf(image, addrs, q) == b != 0
  }

  /** l has just the blocks at the places below p, from entry e on, each once. */
  ghost predicate Lists(l: seq<nat>, image: Image, addrs: seq<word>, p: Path, e: nat) {
    && Distinct(l)
    && (forall b :: b in l ==> exists q :: Under(image, addrs, p, e, q, b))
    && (forall b, q :: Under(image, addrs, p, e, q, b) ==> b in l)
  }

  /** What remove_children frees below a table of a sound tree: every strict descendant, once. */
  lemma {:induction false} BelowIsTree(image: Image, inodes: seq<seq<word>>, lay: Layout, i: nat, p: Path, lev: nat, e: nat)
    requires Tree(image, inodes, lay) && i < |inodes| && ValidPath(p) && Height(p[0]) + 1 == |p| + lev && lev > 0
    requires e <= NINDIRECT
    requires BlockOf(image, inodes[i], p) != 0
    ensures Lists(BelowFrom(image, BlockOf(image, inodes[i], p), lev, e), image, inodes[i], p, e)
    decreases lev, NINDIRECT - e
  {
    hide Tree, BlockOf, Lists, Word;
    var t := BlockOf(image, inodes[i], p);
    if e == NINDIRECT {
      NothingBelow(image, inodes[i], p);
    } else {
      assert ValidPath(p + [e]);
      ChildBlock(image, inodes, lay, i, p, e);
      var b := Word(image[t], e);
      var below := if b != 0 && lev > 1 then BelowFrom(image, b, lev - 1, 0) else [];
      if b != 0 && lev > 1 {
        BelowIsTree(image, inodes, lay, i, p + [e], lev - 1, 0);
      }
      BelowIsTree(image, inodes, lay, i, p, lev, e + 1);
      EntryLists(image, inodes, lay, i, p, e, b, below, lev);
      ListsConcat(image, inodes, lay, i, p, e, Entry(image, b, lev), BelowFrom(image, t, lev, e + 1));
    }
  }

  lemma NothingBelow(image: Image, addrs: seq<word>, p: Path)
    requires ValidPath(p)
    ensures Lists([], image, addrs, p, NINDIRECT)
  {
  }

  /** l has just the blocks at places below p by way of entry e. */
  ghost predicate ListsEntry(l: seq<nat>, image: Image, addrs: seq<word>, p: Path, e: nat) {
    && Distinct(l)
    && (forall b :: b in l ==> exists q :: Under(image, addrs, p, e, q, b) && q[|p|] == e)
    && (forall b, q :: Under(image, addrs, p, e, q, b) && q[|p|] == e ==> b in l)
  }

  lemma EntryLists(image: Image, inodes: seq<seq<word>>, lay: Layout, i: nat, p: Path, e: nat, b: nat, below: seq<nat>,
                   lev: nat)
    requires Tree(image, inodes, lay) && i < |inodes| && ValidPath(p) && ValidPath(p + [e])
    requires b == BlockOf(image, inodes[i], p + [e])
    requires 0 < |p| && Height(p[0]) + 1 == |p| + lev && lev > 0
    requires if b != 0 && lev > 1 then Lists(below, image, inodes[i], p + [e], 0) else below == []
    ensures ListsEntry(if b == 0 then [] else below + [b], image, inodes[i], p, e)
  {
    hide BlockOf, Tree, ValidPath;
    if b != 0 {
      assert Under(image, inodes[i], p, e, p + [e], b);
      forall c | c in below
        ensures c != b && exists q :: Under(image, inodes[i], p, e, q, c) && q[|p|] == e
      {
        var q :| Under(image, inodes[i], p + [e], 0, q, c);
        assert q[|p|] == (p + [e])[|p|];
        DifferentPlaces(image, inodes, lay, i, q, i, p + [e]);
        assert Under(image, inodes[i], p, e, q, c);
      }
      DistinctConcat(below, [b]);
    }
    forall c, q | Under(image, inodes[i], p, e, q, c) && q[|p|] == e
      ensures b != 0 && c in below + [b]
    {
      BelowEntry(image, inodes[i], p, e, q);
      if q != p + [e] {
        assert Under(image, inodes[i], p + [e], 0, q, c);
      }
    }
  }

  /** A place below p by way of entry e is p + [e], or below it; then there is a block at p + [e]. */
  lemma {:induction false} BelowEntry(image: Image, addrs: seq<word>, p: Path, e: nat, q: Path)
    requires ValidPath(q) && p < q && q[|p|] == e && BlockOf(image, addrs, q) != 0
    ensures BlockOf(image, addrs, p + [e]) != 0 && (q == p + [e] || p + [e] < q)
    ensures 0 < |p| ==> |q| <= Height(p[0]) + 1
  {
    if |q| == |p| + 1 {
      assert q == p + [e];
    } else {
      assert q[..|q| - 1][..|p|] == q[..|p|];
      BelowEntry(image, addrs, p, e, q[..|q| - 1]);
    }
  }

  lemma ListsConcat(image: Image, inodes: seq<seq<word>>, lay: Layout, i: nat, p: Path, e: nat, first: seq<nat>,
                    rest: seq<nat>)
    requires Tree(image, inodes, lay) && i < |inodes|
    requires ListsEntry(first, image, inodes[i], p, e) && Lists(rest, image, inodes[i], p, e + 1)
    ensures Lists(first + rest, image, inodes[i], p, e)
  {
    hide BlockOf, Tree;
    forall b, c | b in first && c in rest
      ensures b != c
    {
      var q :| Under(image, inodes[i], p, e, q, b) && q[|p|] == e;
      var r :| Under(image, inodes[i], p, e + 1, r, c);
      DifferentPlaces(image, inodes, lay, i, q, i, r);
    }
    DistinctConcat(first, rest);
    forall b | b in first + rest
      ensures exists q :: Under(image, inodes[i], p, e, q, b)
    {
      if b in rest {
        var q :| Under(image, inodes[i], p, e + 1, q, b);
        assert Under(image, inodes[i], p, e, q, b);
      } else {
        assert b in first;
      }
    }
    forall b, q | Under(image, inodes[i], p, e, q, b)
      ensures b in first + rest
    {
      assert q[|p|] > e ==> Under(image, inodes[i], p, e + 1, q, b);
    }
  }

  /** In a sound file system everything below any table, at any depth, can be freed: remove_children never meets a free block. */
  lemma BelowFreeable(image: Image, inodes: seq<seq<word>>, lay: Layout, i: nat, p: Path, lev: nat)
    requires Tree(image, inodes, lay) && i < |inodes| && ValidPath(p) && Height(p[0]) + 1 == |p| + lev && lev > 0
    requires BlockOf(image, inodes[i], p) != 0
    ensures var t := BlockOf(image, inodes[i], p);
            t < lay.size && Clear(lay, t) && Freeable(image, lay, BelowFrom(image, t, lev, 0))
  {
    hide BlockOf, Used, BelowFrom;
    assert PlaceOk(image, inodes[i], lay, p);
    BelowIsTree(image, inodes, lay, i, p, lev, 0);
    var l := BelowFrom(image, BlockOf(image, inodes[i], p), lev, 0);
    forall x | 0 <= x < |l|
      ensures BlockOk(image, lay, l[x])
    {
      assert l[x] in l;
      var q :| Under(image, inodes[i], p, 0, q, l[x]);
      assert PlaceOk(image, inodes[i], lay, q);
    }
  }

  // ---------------------------------------------------------------- itrunc

  /** The block in a slot, if any. */
  function Root(addrs: seq<word>, slot: nat): seq<nat>
    requires slot < |addrs|
  {
    if addrs[slot] == 0 then [] else [addrs[slot]]
  }

  /** The direct blocks from slot k on. */
  function Directs(addrs: seq<word>, k: nat): seq<nat>
    requires |addrs| == SLOTS && k <= NDIRECT
    decreases NDIRECT - k
  {
    if k == NDIRECT then [] else Root(addrs, k) + Directs(addrs, k + 1)
  }

  function BelowSlot(image: Image, addrs: seq<word>, slot: nat): seq<nat>
    requires NDIRECT <= slot < |addrs|
  {
    if addrs[slot] == 0 then [] else BelowFrom(image, addrs[slot], Height(slot), 0)
  }

  /** What itrunc frees, in order: the direct blocks, the single tree, and the double tree without its root. */
  function TruncList(image: Image, addrs: seq<word>): seq<nat>
    requires |addrs| == SLOTS
  {
    Directs(addrs, 0) + (BelowSlot(image, addrs, NDIRECT) + Root(addrs, NDIRECT)) + BelowSlot(image, addrs, NDIRECT + 1)
  }

  /** The places whose blocks itrunc frees. */
  predicate Gone(q: Path) {
    ValidPath(q) && q[0] <= NDIRECT + 1 && q != [NDIRECT + 1]
  }

  /** l has just the blocks at the valid places in s, each once. */
  ghost predicate Covers(l: seq<nat>, image: Image, addrs: seq<word>, s: Path -> bool) {
    && Distinct(l)
    && (forall b :: b in l ==> exists q :: Has(image, addrs, q, b) && s(q))
    && (forall b, q :: Has(image, addrs, q, b) && s(q) ==> b in l)
  }

  ghost predicate Has(image: Image, addrs: seq<word>, q: Path, b: nat) {
    ValidPath(q) && BlockOf(image, addrs, q) == b != 0
  }

  lemma CoversUnion(image: Image, inodes: seq<seq<word>>, lay: Layout, i: nat, l: seq<nat>, s: Path -> bool,
                    m: seq<nat>, t: Path -> bool, u: Path -> bool)
    requires Tree(image, inodes, lay) && i < |inodes|
    requires Covers(l, image, inodes[i], s) && Covers(m, image, inodes[i], t)
    requires forall q :: ValidPath(q) ==> (u(q) <==> s(q) || t(q)) && !(s(q) && t(q))
    ensures Covers(l + m, image, inodes[i], u)
  {
    hide Tree, BlockOf, ValidPath;
    forall b, c | b in l && c in m
      ensures b != c
    {
      var q :| Has(image, inodes[i], q, b) && s(q);
      var r :| Has(image, inodes[i], r, c) && t(r);
      DifferentPlaces(image, inodes, lay, i, q, i, r);
    }
    DistinctConcat(l, m);
    forall b | b in l + m
      ensures exists q :: Has(image, inodes[i], q, b) && u(q)
    {
      if b in l {
        var q :| Has(image, inodes[i], q, b) && s(q);
        assert u(q);
      } else {
        var q :| Has(image, inodes[i], q, b) && t(q);
        assert u(q);
      }
    }
    forall b, q | Has(image, inodes[i], q, b) && u(q)
      ensures b in l + m
    {
      assert s(q) || t(q);
    }
  }

  lemma RootCovers(image: Image, addrs: seq<word>, slot: nat)
    requires |addrs| == SLOTS && slot < SLOTS
    ensures Covers(Root(addrs, slot), image, addrs, q => q == [slot])
  {
    assert BlockOf(image, addrs, [slot]) == addrs[slot];
    assert addrs[slot] != 0 ==> Has(image, addrs, [slot], addrs[slot]);
  }

  lemma {:induction false} DirectsCover(image: Image, inodes: seq<seq<word>>, lay: Layout, i: nat, k: nat)
    requires Tree(image, inodes, lay) && i < |inodes| && |inodes[i]| == SLOTS && k <= NDIRECT
    ensures Covers(Directs(inodes[i], k), image, inodes[i], q => |q| == 1 && k <= q[0] < NDIRECT)
    decreases NDIRECT - k
  {
    hide Tree, BlockOf, Covers;
    if k == NDIRECT {
      CoversNothing(image, inodes[i], q => |q| == 1 && NDIRECT <= q[0] < NDIRECT);
    } else {
      DirectsCover(image, inodes, lay, i, k + 1);
      RootCovers(image, inodes[i], k);
      CoversUnion(image, inodes, lay, i, Root(inodes[i], k), q => q == [k], Directs(inodes[i], k + 1),
                  q => |q| == 1 && k + 1 <= q[0] < NDIRECT, q => |q| == 1 && k <= q[0] < NDIRECT);
    }
  }

  lemma CoversNothing(image: Image, addrs: seq<word>, s: Path -> bool)
    requires forall q :: ValidPath(q) && s(q) ==> BlockOf(image, addrs, q) == 0
    ensures Covers([], image, addrs, s)
  {
  }

  /** Below an empty slot there is nothing. */
  lemma {:induction false} RootZero(image: Image, addrs: seq<word>, q: Path)
    requires ValidPath(q) && q[0] < |addrs| && addrs[q[0]] == 0
    ensures BlockOf(image, addrs, q) == 0
  {
    if |q| > 1 {
      RootZero(image, addrs, q[..|q| - 1]);
    }
  }

  lemma BelowSlotCovers(image: Image, inodes: seq<seq<word>>, lay: Layout, i: nat, slot: nat)
    requires Tree(image, inodes, lay) && i < |inodes| && |inodes[i]| == SLOTS && NDIRECT <= slot < SLOTS
    ensures Covers(BelowSlot(image, inodes[i], slot), image, inodes[i], q => [slot] < q)
  {
    hide Tree;
    if inodes[i][slot] == 0 {
      forall q | ValidPath(q) && [slot] < q
        ensures BlockOf(image, inodes[i], q) == 0
      {
        RootZero(image, inodes[i], q);
      }
    } else {
      assert BlockOf(image, inodes[i], [slot]) == inodes[i][slot];
      BelowIsTree(image, inodes, lay, i, [slot], Height(slot), 0);
      ListsCovers(BelowSlot(image, inodes[i], slot), image, inodes[i], slot);
    }
  }

  lemma ListsCovers(l: seq<nat>, image: Image, addrs: seq<word>, slot: nat)
    requires Lists(l, image, addrs, [slot], 0)
    ensures Covers(l, image, addrs, q => [slot] < q)
  {
    hide BlockOf;
    forall b | b in l
      ensures exists q :: Has(image, addrs, q, b) && [slot] < q
    {
      var q :| Under(image, addrs, [slot], 0, q, b);
      assert Has(image, addrs, q, b);
    }
    forall b, q | Has(image, addrs, q, b) && [slot] < q
      ensures b in l
    {
      assert Under(image, addrs, [slot], 0, q, b);
    }
  }

  /** itrunc frees the blocks at the places Gone, each once. */
  lemma TruncListCovers(image: Image, inodes: seq<seq<word>>, lay: Layout, i: nat)
    requires Tree(image, inodes, lay) && i < |inodes| && |inodes[i]| == SLOTS
    ensures Covers(TruncList(image, inodes[i]), image, inodes[i], Gone)
  {
    hide Tree, Covers, BlockOf, BelowSlot, Directs, Root;
    var a := inodes[i];
    DirectsCover(image, inodes, lay, i, 0);
    BelowSlotCovers(image, inodes, lay, i, NDIRECT);
    RootCovers(image, a, NDIRECT);
    BelowSlotCovers(image, inodes, lay, i, NDIRECT + 1);
    var single := BelowSlot(image, a, NDIRECT) + Root(a, NDIRECT);
    CoversUnion(image, inodes, lay, i, BelowSlot(image, a, NDIRECT), q => [NDIRECT] < q, Root(a, NDIRECT), q => q == [NDIRECT],
                q => [NDIRECT] <= q);
    CoversUnion(image, inodes, lay, i, Directs(a, 0), q => |q| == 1 && 0 <= q[0] < NDIRECT, single, q => [NDIRECT] <= q,
                q => (|q| == 1 && q[0] < NDIRECT) || [NDIRECT] <= q);
    CoversUnion(image, inodes, lay, i, Directs(a, 0) + single, q => (|q| == 1 && q[0] < NDIRECT) || [NDIRECT] <= q,
                BelowSlot(image, a, NDIRECT + 1), q => [NDIRECT + 1] < q, Gone);
  }

  /** Block 0 holds zeroes, so no block is below it. */
  lemma {:induction false} NothingBelowZero(image: Image, lev: nat, e: nat)
    requires 0 < |image| && image[0] == ZeroBlock() && lev > 0 && e <= NINDIRECT
    ensures BelowFrom(image, 0, lev, e) == []
    decreases NINDIRECT - e
  {
    if e < NINDIRECT {
      ZeroWord(e);
      NothingBelowZero(image, lev, e + 1);
    }
  }

  /** Freeing proceeds from one part of a list to the next. */
  lemma FreeablePart(image: Image, lay: Layout, l: seq<nat>, done: seq<nat>, part: seq<nat>, rest: seq<nat>)
    requires lay.Ok() && |image| == lay.size && Freeable(image, lay, l) && l == done + part + rest
    ensures forall x :: 0 <= x < |done| ==> done[x] < lay.size
    ensures forall x :: 0 <= x < |done + part| ==> (done + part)[x] < lay.size
    ensures (forall x :: 0 <= x < |part| ==> BlockOk(image, lay, part[x])) && Freeable(Freed(image, lay, done), lay, part)
    ensures Freed(Freed(image, lay, done), lay, part) == Freed(image, lay, done + part)
    ensures forall b: nat :: b < lay.size && Clear(lay, b) ==> Freed(image, lay, done)[b] == image[b]
  {
    hide SetUsed, Used;
    FreeableRest(image, lay, done, part, rest);
    assert forall x :: 0 <= x < |part| ==> part[x] == l[|done| + x];
    FreedConcat(image, lay, done, part);
    FreedMarks(image, lay, done);
  }

  lemma FreedNothing(image: Image, lay: Layout)
    requires lay.Ok() && |image| == lay.size
    ensures Freeable(image, lay, []) && Freed(image, lay, []) == image
  {
  }

  /** What hangs below a slot does not depend on the free map. */
  lemma SlotFrame(image: Image, image': Image, inodes: seq<seq<word>>, lay: Layout, i: nat, slot: nat)
    requires Tree(image, inodes, lay) && |image'| == lay.size && i < |inodes| && |inodes[i]| == SLOTS
    requires NDIRECT <= slot <= NDIRECT + 1
    requires forall c: nat :: c < lay.size && Clear(lay, c) ==> image'[c] == image[c]
    ensures BelowSlot(image', inodes[i], slot) == BelowSlot(image, inodes[i], slot)
    ensures inodes[i][slot] != 0 ==> lay.nmeta <= inodes[i][slot] < lay.size
  {
    hide BlockOf, Used, BelowFrom;
    BelowSlotCovers(image, inodes, lay, i, slot);
    RootCovers(image, inodes[i], slot);
    forall b | b in BelowSlot(image, inodes[i], slot) || b in Root(inodes[i], slot)
      ensures lay.nmeta <= b < lay.size
    {
      var q :| Has(image, inodes[i], q, b);
      assert PlaceOk(image, inodes[i], lay, q);
    }
    if inodes[i][slot] != 0 {
      assert inodes[i][slot] in Root(inodes[i], slot);
      BelowFrame(image, image', lay, inodes[i][slot], Height(slot), 0);
    }
  }

  lemma TruncFreeable(image: Image, inodes: seq<seq<word>>, lay: Layout, i: nat)
    requires Tree(image, inodes, lay) && i < |inodes| && |inodes[i]| == SLOTS
    ensures Freeable(image, lay, TruncList(image, inodes[i]))
  {
    hide BlockOf, Used, TruncList;
    TruncListCovers(image, inodes, lay, i);
    var l := TruncList(image, inodes[i]);
    forall x | 0 <= x < |l|
      ensures BlockOk(image, lay, l[x])
    {
      assert l[x] in l;
      var q :| Has(image, inodes[i], q, l[x]) && Gone(q);
      assert PlaceOk(image, inodes[i], lay, q);
    }
  }

  function NoBlocks(): seq<word> {
    seq(SLOTS, _ => 0)
  }

  lemma {:induction false} EmptyTree(image: Image, p: Path)
    requires ValidPath(p)
    ensures BlockOf(image, NoBlocks(), p) == 0
  {
    if |p| > 1 {
      EmptyTree(image, p[..|p| - 1]);
    }
  }

  /** The disk after itrunc. */
  function Truncated(image: Image, inodes: seq<seq<word>>, lay: Layout, i: nat): (image': Image)
    requires Tree(image, inodes, lay) && i < |inodes| && |inodes[i]| == SLOTS
    ensures |image'| == |image|
  {
    TruncFreeable(image, inodes, lay, i);
    Freed(image, lay, TruncList(image, inodes[i]))
  }

  /** Every mark, place and data block after itrunc. */
  lemma TruncatedPlaces(image: Image, inodes: seq<seq<word>>, lay: Layout, i: nat)
    requires Tree(image, inodes, lay) && i < |inodes| && |inodes[i]| == SLOTS
    ensures var image' := Truncated(image, inodes, lay, i);
            && (forall b: nat :: b < lay.size ==> (Used(image', lay.bmapstart, b) <==> Used(image, lay.bmapstart, b) && b !in TruncList(image, inodes[i])))
            && (forall b: nat :: b < lay.size && Clear(lay, b) ==> image'[b] == image[b])
            && (forall j: nat, q :: j < |inodes| && j != i && ValidPath(q) ==> SamePlace(image, inodes[j], image', inodes[j], q))
            && (forall q :: ValidPath(q) ==> BlockOf(image', NoBlocks(), q) == 0)
  {
    hide BlockOf, Used, TruncList, NoBlocks;
    TruncFreeable(image, inodes, lay, i);
    FreedMarks(image, lay, TruncList(image, inodes[i]));
    var image' := Truncated(image, inodes, lay, i);
    forall j: nat, q | j < |inodes| && j != i && ValidPath(q)
      ensures SamePlace(image, inodes[j], image', inodes[j], q)
    {
      forall r | ValidPath(r) && !IsLeaf(r)
        ensures SameBlock(image, image', BlockOf(image, inodes[j], r))
      {
        assert PlaceOk(image, inodes[j], lay, r);
      }
      BlockOfFrame(image, image', inodes[j], q);
    }
    forall q | ValidPath(q)
      ensures BlockOf(image', NoBlocks(), q) == 0
    {
      EmptyTree(image', q);
    }
  }

  /** The other files keep sound trees. */
  lemma TruncatedTree(image: Image, inodes: seq<seq<word>>, lay: Layout, i: nat)
    requires Tree(image, inodes, lay) && MetaUsed(image, lay) && i < |inodes| && |inodes[i]| == SLOTS
    ensures var image' := Truncated(image, inodes, lay, i);
            && Tree(image', inodes[i := NoBlocks()], lay) && MetaUsed(image', lay)
  {
    hide BlockOf, Used, TruncList, Truncated, NoBlocks, ValidPath;
    TruncatedPlaces(image, inodes, lay, i);
    TruncListCovers(image, inodes, lay, i);
    var l, image', inodes' := TruncList(image, inodes[i]), Truncated(image, inodes, lay, i), inodes[i := NoBlocks()];
    forall b | b in l
      ensures b >= lay.nmeta
    {
      var q :| Has(image, inodes[i], q, b) && Gone(q);
      assert PlaceOk(image, inodes[i], lay, q);
    }
    forall j: nat, q | j < |inodes'| && ValidPath(q)
      ensures PlaceOk(image', inodes'[j], lay, q)
    {
      if j != i && BlockOf(image, inodes[j], q) != 0 {
        assert SamePlace(image, inodes[j], image', inodes[j], q) && PlaceOk(image, inodes[j], lay, q);
        Kept(image, inodes, lay, i, j, q);
      }
    }
    forall j: nat, p, k: nat, q | j < |inodes'| && k < |inodes'| && ValidPath(p) && ValidPath(q) && (j != k || p != q)
      ensures Apart(image', inodes'[j], p, inodes'[k], q)
    {
      assert Apart(image, inodes[j], p, inodes[k], q);
      assert j != i ==> SamePlace(image, inodes[j], image', inodes[j], p);
      assert k != i ==> SamePlace(image, inodes[k], image', inodes[k], q);
    }
    forall b: nat | b < lay.nmeta
      ensures Used(image', lay.bmapstart, b)
    {
      assert Used(image, lay.bmapstart, b) && b < lay.size;
    }
  }

  /** No block outside the places Gone of inode i is freed. */
  lemma Kept(image: Image, inodes: seq<seq<word>>, lay: Layout, i: nat, j: nat, q: Path)
    requires Tree(image, inodes, lay) && i < |inodes| && |inodes[i]| == SLOTS && j < |inodes| && ValidPath(q)
    requires (j != i || !Gone(q)) && BlockOf(image, inodes[j], q) != 0
    ensures BlockOf(image, inodes[j], q) !in TruncList(image, inodes[i])
  {
    hide BlockOf, TruncList;
    TruncListCovers(image, inodes, lay, i);
    var b := BlockOf(image, inodes[j], q);
    if b in TruncList(image, inodes[i]) {
      var r :| Has(image, inodes[i], r, b) && Gone(r);
      DifferentPlaces(image, inodes, lay, j, q, i, r);
    }
  }

  /**
   * itrunc returns every block of the file to the free map just when the file has neither a double nor a triple tree:
   * the root of the double tree is never freed, and nothing at all of the triple tree.
   */
  lemma TruncatedLeak(image: Image, inodes: seq<seq<word>>, lay: Layout, i: nat)
    requires Tree(image, inodes, lay) && MetaUsed(image, lay) && i < |inodes| && |inodes[i]| == SLOTS
    requires NoLeak(image, inodes, lay)
    ensures NoLeak(Truncated(image, inodes, lay, i), inodes[i := NoBlocks()], lay) <==>
            inodes[i][NDIRECT + 1] == 0 && inodes[i][NDIRECT + 2] == 0
  {
    hide BlockOf, Used, TruncList, Truncated, NoBlocks;
    TruncatedPlaces(image, inodes, lay, i);
    TruncListCovers(image, inodes, lay, i);
    var l, image', inodes' := TruncList(image, inodes[i]), Truncated(image, inodes, lay, i), inodes[i := NoBlocks()];
    if inodes[i][NDIRECT + 1] == 0 && inodes[i][NDIRECT + 2] == 0 {
      forall b: nat | lay.nmeta <= b < lay.size && Used(image', lay.bmapstart, b)
        ensures InTree(image', inodes', b)
      {
        assert InTree(image, inodes, b);
        var j: nat, q :| j < |inodes| && ValidPath(q) && BlockOf(image, inodes[j], q) == b;
        if j == i {
          AllGone(image, inodes, lay, i, q);
          assert false;
        } else {
          assert SamePlace(image, inodes[j], image', inodes[j], q);
          assert BlockOf(image', inodes'[j], q) == b;
        }
      }
    } else {
      var slot := if inodes[i][NDIRECT + 1] != 0 then NDIRECT + 1 else NDIRECT + 2;
      LostRoot(image, inodes, lay, i, slot);
    }
  }

  lemma AllGone(image: Image, inodes: seq<seq<word>>, lay: Layout, i: nat, q: Path)
    requires Tree(image, inodes, lay) && i < |inodes| && |inodes[i]| == SLOTS && ValidPath(q)
    requires inodes[i][NDIRECT + 1] == 0 && inodes[i][NDIRECT + 2] == 0 && BlockOf(image, inodes[i], q) != 0
    ensures BlockOf(image, inodes[i], q) in TruncList(image, inodes[i])
  {
    hide BlockOf, TruncList;
    TruncListCovers(image, inodes, lay, i);
    if q[0] > NDIRECT {
      RootZero(image, inodes[i], q);
      assert false;
    }
    assert Has(image, inodes[i], q, BlockOf(image, inodes[i], q)) && Gone(q);
  }

  lemma LostRoot(image: Image, inodes: seq<seq<word>>, lay: Layout, i: nat, slot: nat)
    requires Tree(image, inodes, lay) && i < |inodes| && |inodes[i]| == SLOTS
    requires NDIRECT < slot < SLOTS && inodes[i][slot] != 0
    ensures !NoLeak(Truncated(image, inodes, lay, i), inodes[i := NoBlocks()], lay)
  {
    hide Used, TruncList, Truncated, NoBlocks;
    TruncatedPlaces(image, inodes, lay, i);
    var b: nat, image', inodes' := inodes[i][slot], Truncated(image, inodes, lay, i), inodes[i := NoBlocks()];
    assert ValidPath([slot]) && BlockOf(image, inodes[i], [slot]) == b;
    assert PlaceOk(image, inodes[i], lay, [slot]);
    Kept(image, inodes, lay, i, i, [slot]);
    forall j: nat, q | j < |inodes'| && ValidPath(q)
      ensures BlockOf(image', inodes'[j], q) != b
    {
      if j != i {
        assert SamePlace(image, inodes[j], image', inodes[j], q);
        DifferentPlaces(image, inodes, lay, i, [slot], j, q);
      }
    }
    assert !InTree(image', inodes', b);
  }

  /** A file with an empty table for its double tree, on a disk of three blocks: block 2 is lost. */
  lemma LeakExample()
    ensures var image: Image := [ZeroBlock(), ZeroBlock()[0 := 7], ZeroBlock()];
            var inodes: seq<seq<word>> := [[0, 0, 0, 0, 0, 0, 0, 2, 0]];
            var lay := Layout(3, 1, 2);
            && Tree(image, inodes, lay) && MetaUsed(image, lay) && NoLeak(image, inodes, lay)
            && !NoLeak(Truncated(image, inodes, lay, 0), inodes[0 := NoBlocks()], lay)
  {
    hide Truncated, NoBlocks;
    var image: Image := [ZeroBlock(), ZeroBlock()[0 := 7], ZeroBlock()];
    var inodes: seq<seq<word>> := [[0, 0, 0, 0, 0, 0, 0, 2, 0]];
    var lay := Layout(3, 1, 2);
    assert BitOf(7, 0) && BitOf(7, 1) && BitOf(7, 2);
    forall b: nat | b < 3
      ensures Used(image, 1, b)
    {
      assert b == 0 || b == 1 || b == 2;
    }
    forall q | ValidPath(q)
      ensures BlockOf(image, inodes[0], q) == if q == [NDIRECT + 1] then 2 else 0
    {
      LonePlace(image, inodes[0], q);
    }
    assert ValidPath([NDIRECT + 1]);
    assert InTree(image, inodes, 2);
    TruncatedLeak(image, inodes, lay, 0);
  }

  lemma {:induction false} LonePlace(image: Image, addrs: seq<word>, q: Path)
    requires |image| == 3 && image[2] == ZeroBlock() && addrs == [0, 0, 0, 0, 0, 0, 0, 2, 0] && ValidPath(q)
    ensures BlockOf(image, addrs, q) == if q == [NDIRECT + 1] then 2 else 0
  {
    if |q| > 1 {
      LonePlace(image, addrs, q[..|q| - 1]);
      ZeroWord(q[|q| - 1]);
    }
  }
}
