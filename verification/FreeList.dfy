/** The free list of the heap allocator, as the sequence of its chunks in address order. */
module FreeList {

  /** A chunk of `size` units starting at unit `addr`; its first unit is the header. */
  datatype Chunk = Chunk(addr: nat, size: nat)

  datatype Header = Header(ptr: nat, size: nat)

  function Nxt(n: nat, i: nat): (j: nat)
    requires i < n
    ensures j < n
  {
    if i + 1 == n then 0 else i + 1
  }

  /** How many steps lead from node i to node j around a list of n nodes. */
  function Dist(n: nat, i: nat, j: nat): nat
    requires i < n && j < n
  {
    if i <= j then j - i else n - i + j
  }

  /** The headers in memory link the chunks into one cycle, in this order. */
  ghost predicate Linked(mem: map<nat, Header>, list: seq<Chunk>) {
    forall i: nat :: i < |list| ==> LinkedAt(mem, list, i)
  }

  ghost predicate LinkedAt(mem: map<nat, Header>, list: seq<Chunk>, i: nat)
    requires i < |list|
  {
    list[i].addr in mem && mem[list[i].addr] == Header(list[Nxt(|list|, i)].addr, list[i].size)
  }

  /** Strictly increasing addresses, and at least one unit that is not free between two chunks.
      The first chunk is the empty one at base; no other chunk is empty. */
  ghost predicate Spaced(list: seq<Chunk>, base: nat) {
    && 0 < |list| && list[0] == Chunk(base, 0)
    && (forall i :: 0 < i < |list| ==> list[i].size > 0)
    && (forall i, j :: 0 <= i < j < |list| ==> list[i].addr + list[i].size < list[j].addr)
  }

  ghost predicate Covers(list: seq<Chunk>, u: nat) {
    exists i :: 0 <= i < |list| && list[i].addr <= u < list[i].addr + list[i].size
  }

  /** A chunk lies clear of every chunk of the list, and above base. */
  ghost predicate Clear(list: seq<Chunk>, c: Chunk) {
    && c.size > 0
    && (forall i :: 0 <= i < |list| ==> c.addr + c.size <= list[i].addr || list[i].addr + list[i].size <= c.addr)
    && (forall i :: 0 <= i < |list| ==> c.addr != list[i].addr)
    && 0 < |list| && list[0].addr < c.addr
  }

  /** c belongs right after node k. */
  predicate Gap(list: seq<Chunk>, c: Chunk, k: nat) {
    k < |list| && list[k].addr < c.addr && (k + 1 < |list| ==> c.addr < list[k + 1].addr)
  }

  /** Do chunks i and i + 1 touch? */
  predicate Touch(list: seq<Chunk>, i: nat) {
    i + 1 < |list| && list[i].addr + list[i].size == list[i + 1].addr
  }

  function Insert(list: seq<Chunk>, c: Chunk, k: nat): (list': seq<Chunk>)
    requires k < |list|
    ensures |list'| == |list| + 1
    ensures forall i :: 0 <= i < |list'| ==> list'[i] == if i <= k then list[i] else if i == k + 1 then c else list[i - 1]
  {
    seq(|list| + 1, i requires 0 <= i <= |list| => if i <= k then list[i] else if i == k + 1 then c else list[i - 1])
  }

  /** Chunk i absorbs chunk i + 1. */
  function Merge(list: seq<Chunk>, i: nat): (list': seq<Chunk>)
    requires i + 1 < |list|
    ensures |list'| == |list| - 1
    ensures forall j :: 0 <= j < |list'| && j != i ==> list'[j] == list[if j < i then j else j + 1]
    ensures list'[i] == Chunk(list[i].addr, list[i].size + list[i + 1].size)
  {
    seq(|list| - 1, j requires 0 <= j < |list| - 1 =>
      if j < i then list[j]
      else if j == i then Chunk(list[i].addr, list[i].size + list[i + 1].size)
      else list[j + 1])
  }

  function Join(list: seq<Chunk>, i: nat): seq<Chunk> {
    if Touch(list, i) then Merge(list, i) else list
  }

  /** What free makes of the list: c joins its neighbours where they touch. */
  function Freed(list: seq<Chunk>, c: Chunk, k: nat): seq<Chunk>
    requires k < |list|
  {
    Join(Join(Insert(list, c, k), k + 1), k)
  }

  lemma {:induction false} GapExists(list: seq<Chunk>, base: nat, c: Chunk, n: nat) returns (k: nat)
    requires Spaced(list, base) && Clear(list, c) && 0 < n <= |list|
    requires n < |list| ==> c.addr < list[n].addr
    ensures Gap(list, c, k)
  {
    if list[n - 1].addr < c.addr {
      k := n - 1;
    } else {
      k := GapExists(list, base, c, n - 1);
    }
  }

  /** A free list is determined by the units it covers: it is their decomposition into maximal runs. */
  lemma Canonical(a: seq<Chunk>, b: seq<Chunk>, base: nat)
    requires Spaced(a, base) && Spaced(b, base)
    requires forall u: nat :: Covers(a, u) <==> Covers(b, u)
    ensures a == b
  {
    CanonicalPrefix(a, b, base, |a|);
    CanonicalPrefix(b, a, base, |b|);
  }

  lemma {:induction false} CanonicalPrefix(a: seq<Chunk>, b: seq<Chunk>, base: nat, n: nat)
    requires Spaced(a, base) && Spaced(b, base)
    requires forall u: nat :: Covers(a, u) <==> Covers(b, u)
    requires n <= |a|
    ensures n <= |b| && forall i :: 0 <= i < n ==> a[i] == b[i]
  {
    if n > 1 {
      CanonicalPrefix(a, b, base, n - 1);
      SameStart(a, b, base, n - 1);
      NoLonger(a, b, base, n - 1);
      NoLonger(b, a, base, n - 1);
    }
  }

  /** With the first i chunks equal, chunk i of b exists and starts where chunk i of a does. */
  lemma SameStart(a: seq<Chunk>, b: seq<Chunk>, base: nat, i: nat)
    requires Spaced(a, base) && Spaced(b, base)
    requires forall u: nat :: Covers(a, u) <==> Covers(b, u)
    requires 0 < i < |a| && i <= |b| && forall m :: 0 <= m < i ==> a[m] == b[m]
    ensures i < |b| && b[i].addr == a[i].addr
  {
    assert Covers(a, a[i].addr);
    var j :| 0 <= j < |b| && b[j].addr <= a[i].addr < b[j].addr + b[j].size;
    assert j >= i;
    assert Covers(b, b[i].addr);
    var m :| 0 <= m < |a| && a[m].addr <= b[i].addr < a[m].addr + a[m].size;
    assert m >= i;
  }

  lemma NoLonger(a: seq<Chunk>, b: seq<Chunk>, base: nat, i: nat)
    requires Spaced(a, base) && Spaced(b, base)
    requires forall u: nat :: Covers(a, u) <==> Covers(b, u)
    requires 0 < i < |a| && i < |b| && a[i].addr == b[i].addr
    ensures b[i].size <= a[i].size
  {
    var end := a[i].addr + a[i].size;
    if end < b[i].addr + b[i].size {
      assert Covers(b, end);
    }
  }

  // ---------------------------------------------------------------- free

  /** Spaced, except that chunks may touch where `open` allows it. */
  ghost predicate Ordered(list: seq<Chunk>, base: nat, open: set<nat>) {
    && 0 < |list| && list[0] == Chunk(base, 0)
    && (forall i :: 0 < i < |list| ==> list[i].size > 0)
    && (forall i, j :: 0 <= i < j < |list| ==> Below(list[i], list[j]))
    && (forall i: nat :: Touch(list, i) ==> i in open)
  }

  lemma SpacedIsOrdered(list: seq<Chunk>, base: nat)
    ensures Spaced(list, base) <==> Ordered(list, base, {})
  {
    if Ordered(list, base, {}) {
      forall i, j | 0 <= i < j < |list|
        ensures list[i].addr + list[i].size < list[j].addr
      {
        assert !Touch(list, i);
      }
    }
  }

  /** a lies below b, possibly touching it. */
  predicate Below(a: Chunk, b: Chunk) {
    a.addr + a.size <= b.addr && a.addr < b.addr
  }

  lemma InsertOrdered(list: seq<Chunk>, base: nat, c: Chunk, k: nat)
    requires Spaced(list, base) && Clear(list, c) && Gap(list, c, k)
    ensures Ordered(Insert(list, c, k), base, {k, k + 1})
  {
    var list' := Insert(list, c, k);
    forall i | 0 <= i < |list|
      ensures if i <= k then Below(list[i], c) else Below(c, list[i])
    {
      assert i < k ==> Below(list[i], list[k]);
      assert k + 1 < i ==> Below(list[k + 1], list[i]);
    }
    forall i, j | 0 <= i < j < |list'|
      ensures Below(list'[i], list'[j])
    {
      InsertPair(list, c, k, i, j);
    }
    forall i: nat | Touch(list', i)
      ensures i in {k, k + 1}
    {
    }
  }

  lemma InsertPair(list: seq<Chunk>, c: Chunk, k: nat, i: nat, j: nat)
    requires k < |list| && i < j <= |list|
    requires forall a, b :: 0 <= a < b < |list| ==> Below(list[a], list[b])
    requires forall a :: 0 <= a < |list| ==> if a <= k then Below(list[a], c) else Below(c, list[a])
    ensures Below(Insert(list, c, k)[i], Insert(list, c, k)[j])
  {
  }

  lemma JoinOrdered(list: seq<Chunk>, base: nat, i: nat, open: set<nat>)
    requires Ordered(list, base, open) && forall j :: j in open ==> j <= i
    ensures Ordered(Join(list, i), base, open - {i})
  {
    if Touch(list, i) {
      var list' := Merge(list, i);
      assert Below(list[i], list[i + 1]) && i > 0;
      forall a, b | 0 <= a < b < |list'|
        ensures Below(list'[a], list'[b])
      {
        var a' := if a < i then a else a + 1;
        var b' := if b < i then b else b + 1;
        assert Below(list[a'], list[b']) && (a == i ==> Below(list[i], list[b'])) && (b == i ==> Below(list[a], list[i]));
      }
      forall j: nat | Touch(list', j)
        ensures j in open - {i}
      {
        var j' := if j < i then j else j + 1;
        assert Touch(list, j');
      }
    }
  }

  lemma FreedSpaced(list: seq<Chunk>, base: nat, c: Chunk, k: nat)
    requires Spaced(list, base) && Clear(list, c) && Gap(list, c, k)
    ensures Spaced(Freed(list, c, k), base)
  {
    hide Spaced, Ordered, Insert, Join;
    InsertOrdered(list, base, c, k);
    JoinOrdered(Insert(list, c, k), base, k + 1, {k, k + 1});
    assert {k, k + 1} - {k + 1} == {k} && {k} - {k} == {};
    JoinOrdered(Join(Insert(list, c, k), k + 1), base, k, {k});
    SpacedIsOrdered(Freed(list, c, k), base);
  }

  lemma InsertCovers(list: seq<Chunk>, c: Chunk, k: nat, u: nat)
    requires k < |list|
    ensures Covers(Insert(list, c, k), u) <==> Covers(list, u) || c.addr <= u < c.addr + c.size
  {
    var list' := Insert(list, c, k);
    assert list'[k + 1] == c;
    assert forall i :: 0 <= i < |list| ==> list[i] == list'[if i <= k then i else i + 1];
  }

  lemma JoinCovers(list: seq<Chunk>, i: nat, u: nat)
    ensures Covers(Join(list, i), u) <==> Covers(list, u)
  {
    var list' := Join(list, i);
    if Touch(list, i) && Covers(list, u) {
      var j :| 0 <= j < |list| && list[j].addr <= u < list[j].addr + list[j].size;
      var j' := if j <= i then j else j - 1;
      assert list'[j'].addr <= u < list'[j'].addr + list'[j'].size;
    }
    if Touch(list, i) && Covers(list', u) {
      var j :| 0 <= j < |list'| && list'[j].addr <= u < list'[j].addr + list'[j].size;
      assert j < i ==> list[j] == list'[j];
      assert j > i ==> list[j + 1] == list'[j];
    }
  }

  /** Afterwards the list covers what it did, and the freed chunk. */
  lemma FreedCovers(list: seq<Chunk>, c: Chunk, k: nat, u: nat)
    requires k < |list|
    ensures Covers(Freed(list, c, k), u) <==> Covers(list, u) || c.addr <= u < c.addr + c.size
  {
    InsertCovers(list, c, k, u);
    JoinCovers(Insert(list, c, k), k + 1, u);
    JoinCovers(Join(Insert(list, c, k), k + 1), k, u);
  }

  ghost predicate DistinctAddrs(list: seq<Chunk>) {
    forall i, j :: 0 <= i < j < |list| ==> list[i].addr != list[j].addr
  }

  lemma InsertLinked(mem: map<nat, Header>, list: seq<Chunk>, c: Chunk, k: nat)
    requires Linked(mem, list) && k < |list| && DistinctAddrs(Insert(list, c, k))
    ensures Linked(mem[c.addr := Header(list[Nxt(|list|, k)].addr, c.size)][list[k].addr := Header(c.addr, list[k].size)], Insert(list, c, k))
  {
    var n := |list|;
    var list' := Insert(list, c, k);
    var mem' := mem[c.addr := Header(list[Nxt(n, k)].addr, c.size)][list[k].addr := Header(c.addr, list[k].size)];
    forall i: nat | i < |list'|
      ensures LinkedAt(mem', list', i)
    {
      assert list'[k] == list[k] && list'[k + 1] == c && list'[0] == list[0];
      if i == k + 1 {
        assert list'[Nxt(n + 1, i)] == list[Nxt(n, k)];
      } else if i != k {
        var i' := if i < k then i else i - 1;
        assert LinkedAt(mem, list, i');
        assert list'[i] == list[i'] && list'[Nxt(n + 1, i)] == list[Nxt(n, i')];
        assert list'[i].addr != list'[k].addr && list'[i].addr != list'[k + 1].addr;
      }
    }
  }

  lemma MergeLinked(mem: map<nat, Header>, list: seq<Chunk>, i: nat)
    requires Linked(mem, list) && i + 1 < |list| && DistinctAddrs(list)
    ensures list[i].addr in mem && list[i + 1].addr in mem
    ensures Linked(mem[list[i].addr := Header(mem[list[i + 1].addr].ptr, list[i].size + mem[list[i + 1].addr].size)], Merge(list, i))
  {
    var list' := Merge(list, i);
    assert LinkedAt(mem, list, i) && LinkedAt(mem, list, i + 1);
    var mem' := mem[list[i].addr := Header(mem[list[i + 1].addr].ptr, list[i].size + mem[list[i + 1].addr].size)];
    forall j: nat | j < |list'|
      ensures LinkedAt(mem', list', j)
    {
      MergeNext(list, i, j);
      assert LinkedAt(mem, list, if j < i then j else j + 1);
      assert j != i ==> list'[j].addr != list[i].addr;
    }
  }

  lemma MergeNext(list: seq<Chunk>, i: nat, j: nat)
    requires i + 1 < |list| && j < |list| - 1
    ensures var list' := Merge(list, i);
            && list'[j].addr == list[if j <= i then j else j + 1].addr
            && list'[Nxt(|list'|, j)].addr == list[Nxt(|list|, if j < i then j else j + 1)].addr
  {
    var list' := Merge(list, i);
    assert list'[0].addr == list[0].addr;
  }

  lemma SpacedDistinct(list: seq<Chunk>, base: nat)
    requires Spaced(list, base)
    ensures DistinctAddrs(list)
  {
  }

  /** The header free sets up for bp: joined with what follows p if they touch. */
  function Upper(mem: map<nat, Header>, p: nat, bp: nat): Header
    requires p in mem && bp in mem && (bp + mem[bp].size == mem[p].ptr ==> mem[p].ptr in mem)
  {
    var up := mem[p].ptr;
    if bp + mem[bp].size == up then Header(mem[up].ptr, mem[bp].size + mem[up].size) else Header(up, mem[bp].size)
  }

  /** The header free then gives p: joined with bp if they touch. */
  function Lower(mem: map<nat, Header>, p: nat, bp: nat, h: Header): Header
    requires p in mem
  {
    if p + mem[p].size == bp then Header(h.ptr, mem[p].size + h.size) else Header(bp, mem[p].size)
  }

  /** After the first update bp is linked behind p, and joined with what follows. */
  lemma UpperLinked(mem: map<nat, Header>, list: seq<Chunk>, base: nat, c: Chunk, k: nat)
    requires Linked(mem, list) && Spaced(list, base) && Clear(list, c) && Gap(list, c, k)
    requires c.addr in mem && mem[c.addr].size == c.size
    ensures var p := list[k].addr;
            && p in mem && (c.addr + c.size == mem[p].ptr ==> mem[p].ptr in mem)
            && Linked(mem[c.addr := Upper(mem, p, c.addr)][p := Header(c.addr, mem[p].size)], Join(Insert(list, c, k), k + 1))
  {
    var p := list[k].addr;
    assert LinkedAt(mem, list, k) && LinkedAt(mem, list, Nxt(|list|, k));
    var l1 := Insert(list, c, k);
    InsertOrdered(list, base, c, k);
    InsertLinked(mem, list, c, k);
    var m1 := mem[c.addr := Header(list[Nxt(|list|, k)].addr, c.size)][p := Header(c.addr, list[k].size)];
    if Touch(l1, k + 1) {
      MergeLinked(m1, l1, k + 1);
      var m2 := m1[c.addr := Header(m1[mem[p].ptr].ptr, c.size + m1[mem[p].ptr].size)];
      assert m2 == mem[c.addr := Upper(mem, p, c.addr)][p := Header(c.addr, mem[p].size)];
    }
  }

  /** The two header updates of free link the list it is meant to leave. */
  lemma FreedLinked(mem: map<nat, Header>, list: seq<Chunk>, base: nat, c: Chunk, k: nat)
    requires Linked(mem, list) && Spaced(list, base) && Clear(list, c) && Gap(list, c, k)
    requires c.addr in mem && mem[c.addr].size == c.size
    ensures var p := list[k].addr;
            && p in mem && (c.addr + c.size == mem[p].ptr ==> mem[p].ptr in mem)
            && var h := Upper(mem, p, c.addr);
               Linked(mem[c.addr := h][p := Lower(mem, p, c.addr, h)], Freed(list, c, k))
  {
    assert LinkedAt(mem, list, k);
    var l := Join(Insert(list, c, k), k + 1);
    UpperLinked(mem, list, base, c, k);
    InsertOrdered(list, base, c, k);
    JoinOrdered(Insert(list, c, k), base, k + 1, {k, k + 1});
    LowerLinked(mem, l, c.addr, k, Upper(mem, list[k].addr, c.addr));
  }

  lemma LowerLinked(mem: map<nat, Header>, l: seq<Chunk>, bp: nat, k: nat, h: Header)
    requires DistinctAddrs(l) && k + 1 < |l| && l[k + 1].addr == bp
    requires l[k].addr in mem && mem[l[k].addr].size == l[k].size
    requires Linked(mem[bp := h][l[k].addr := Header(bp, l[k].size)], l)
    ensures Linked(mem[bp := h][l[k].addr := Lower(mem, l[k].addr, bp, h)], Join(l, k))
  {
    var p := l[k].addr;
    var m := mem[bp := h][p := Header(bp, l[k].size)];
    if Touch(l, k) {
      MergeLinked(m, l, k);
      assert m[p := Header(h.ptr, l[k].size + h.size)] == mem[bp := h][p := Lower(mem, p, bp, h)];
    }
  }

  lemma JoinClear(list: seq<Chunk>, i: nat, d: Chunk)
    requires Clear(list, d)
    ensures Clear(Join(list, i), d)
  {
    if Touch(list, i) {
      var list' := Merge(list, i);
      forall j | 0 <= j < |list'|
        ensures d.addr + d.size <= list'[j].addr || list'[j].addr + list'[j].size <= d.addr
        ensures d.addr != list'[j].addr
      {
        assert j != i ==> list'[j] == list[if j < i then j else j + 1];
      }
    }
  }

  /** A block apart from c and from the list is apart from the new list. */
  lemma FreedClear(list: seq<Chunk>, c: Chunk, k: nat, d: Chunk)
    requires k < |list| && Clear(list, c) && Clear(list, d)
    requires c.addr + c.size <= d.addr || d.addr + d.size <= c.addr
    ensures Clear(Freed(list, c, k), d)
  {
    var l := Insert(list, c, k);
    forall j | 0 <= j < |l|
      ensures d.addr + d.size <= l[j].addr || l[j].addr + l[j].size <= d.addr
      ensures d.addr != l[j].addr
    {
      assert j != k + 1 ==> l[j] == list[if j <= k then j else j - 1];
    }
    JoinClear(l, k + 1, d);
    JoinClear(Join(l, k + 1), k, d);
  }

  /** The freed units end up in the chunk at k or in the one after it. */
  lemma FreedPlace(list: seq<Chunk>, c: Chunk, k: nat)
    requires k < |list|
    ensures var list' := Freed(list, c, k);
            && k < |list'| && list'[k].addr == list[k].addr
            && (list'[k].size >= c.size || (k + 1 < |list'| && list'[k + 1].size >= c.size))
  {
  }

  // ---------------------------------------------------------------- malloc

  /** Chunk i is taken off the list whole. */
  function Remove(list: seq<Chunk>, i: nat): (list': seq<Chunk>)
    requires i < |list|
    ensures |list'| == |list| - 1
    ensures forall j :: 0 <= j < |list'| ==> list'[j] == list[if j < i then j else j + 1]
  {
    seq(|list| - 1, j requires 0 <= j < |list| - 1 => if j < i then list[j] else list[j + 1])
  }

  /** Chunk i loses its last n units. */
  function Shrink(list: seq<Chunk>, i: nat, n: nat): seq<Chunk>
    requires i < |list| && n <= list[i].size
  {
    list[i := Chunk(list[i].addr, list[i].size - n)]
  }

  /** The list after malloc has taken n units from chunk i. */
  function Taken(list: seq<Chunk>, i: nat, n: nat): seq<Chunk>
    requires i < |list| && n <= list[i].size
  {
    if list[i].size == n then Remove(list, i) else Shrink(list, i, n)
  }

  /** The block malloc hands out: the tail of chunk i. */
  function Tail(list: seq<Chunk>, i: nat, n: nat): Chunk
    requires i < |list| && n <= list[i].size
  {
    Chunk(list[i].addr + list[i].size - n, n)
  }

  lemma TakenSpaced(list: seq<Chunk>, base: nat, i: nat, n: nat)
    requires Spaced(list, base) && 0 < i < |list| && 0 < n <= list[i].size
    ensures Spaced(Taken(list, i, n), base) && Clear(Taken(list, i, n), Tail(list, i, n))
  {
    var list' := Taken(list, i, n);
    if list[i].size == n {
      forall a, b | 0 <= a < b < |list'|
        ensures list'[a].addr + list'[a].size < list'[b].addr
      {
        assert list'[a] == list[if a < i then a else a + 1] && list'[b] == list[if b < i then b else b + 1];
      }
    }
    assert list'[0] == list[0];
  }

  lemma TakenCovers(list: seq<Chunk>, base: nat, i: nat, n: nat, u: nat)
    requires Spaced(list, base) && 0 < i < |list| && 0 < n <= list[i].size
    ensures var t := Tail(list, i, n);
            && (Covers(list, u) <==> Covers(Taken(list, i, n), u) || t.addr <= u < t.addr + t.size)
            && !(Covers(Taken(list, i, n), u) && t.addr <= u < t.addr + t.size)
  {
    var list' := Taken(list, i, n);
    if Covers(list, u) {
      var j :| 0 <= j < |list| && list[j].addr <= u < list[j].addr + list[j].size;
      if j != i {
        assert list[j] == list'[if list[i].size == n && j > i then j - 1 else j];
      } else if list[i].size > n {
        assert list'[i] == Chunk(list[i].addr, list[i].size - n);
      }
    }
    TakenSpaced(list, base, i, n);
  }

  lemma RemoveLinked(mem: map<nat, Header>, list: seq<Chunk>, i: nat)
    requires Linked(mem, list) && 0 < i < |list| && DistinctAddrs(list)
    ensures list[i].addr in mem && list[i - 1].addr in mem
    ensures Linked(mem[list[i - 1].addr := Header(mem[list[i].addr].ptr, mem[list[i - 1].addr].size)], Remove(list, i))
  {
    var list' := Remove(list, i);
    assert LinkedAt(mem, list, i) && LinkedAt(mem, list, i - 1);
    var mem' := mem[list[i - 1].addr := Header(mem[list[i].addr].ptr, mem[list[i - 1].addr].size)];
    forall j: nat | j < |list'|
      ensures LinkedAt(mem', list', j)
    {
      RemoveNext(list, i, j);
      assert LinkedAt(mem, list, if j < i then j else j + 1);
      assert j != i - 1 ==> list'[j].addr != list[i - 1].addr;
    }
  }

  lemma RemoveNext(list: seq<Chunk>, i: nat, j: nat)
    requires 0 < i < |list| && j < |list| - 1
    ensures Remove(list, i)[Nxt(|list| - 1, j)].addr == list[Nxt(|list|, if j < i - 1 then j else j + 1)].addr
  {
    assert Remove(list, i)[0] == list[0];
  }

  lemma ShrinkLinked(mem: map<nat, Header>, list: seq<Chunk>, i: nat, n: nat, ptr: nat)
    requires Linked(mem, list) && i < |list| && 0 < n < list[i].size && DistinctAddrs(list)
    requires forall j :: 0 <= j < |list| ==> list[j].addr != list[i].addr + list[i].size - n
    ensures list[i].addr in mem && mem[list[i].addr].size == list[i].size
    ensures Linked(mem[list[i].addr := Header(mem[list[i].addr].ptr, list[i].size - n)]
                      [list[i].addr + list[i].size - n := Header(ptr, n)], Shrink(list, i, n))
  {
    var list' := Shrink(list, i, n);
    assert LinkedAt(mem, list, i);
    var mem' := mem[list[i].addr := Header(mem[list[i].addr].ptr, list[i].size - n)]
                   [list[i].addr + list[i].size - n := Header(ptr, n)];
    forall j: nat | j < |list|
      ensures LinkedAt(mem', list', j)
    {
      assert LinkedAt(mem, list, j);
      assert list'[j].addr == list[j].addr && list'[Nxt(|list|, j)].addr == list[Nxt(|list|, j)].addr;
    }
  }

  // ---------------------------------------------------------------- the search of malloc

  function Prv(n: nat, i: nat): (j: nat)
    requires i < n
    ensures j < n && Nxt(n, j) == i
  {
    if i == 0 then n - 1 else i - 1
  }

  lemma PrvNxt(n: nat, i: nat)
    requires i < n
    ensures Prv(n, Nxt(n, i)) == i
  {
  }

  /** The search that started after chunk f and has come to chunk i found all chunks on its way too small. */
  ghost predicate Scanned(list: seq<Chunk>, i: nat, f: nat, n: nat) {
    i < |list| && f < |list| &&
    forall j: nat :: j < |list| && Dist(|list|, j, f) > Dist(|list|, i, f) ==> list[j].size < n
  }

  ghost predicate Big(list: seq<Chunk>, n: nat) {
    exists i :: 0 <= i < |list| && list[i].size >= n
  }

  lemma ScanStart(list: seq<Chunk>, f: nat, n: nat)
    requires f < |list|
    ensures Scanned(list, Nxt(|list|, f), f, n)
  {
  }

  lemma ScanStep(list: seq<Chunk>, i: nat, f: nat, n: nat)
    requires Scanned(list, i, f, n) && list[i].size < n && i != f
    ensures Scanned(list, Nxt(|list|, i), f, n) && Dist(|list|, Nxt(|list|, i), f) < Dist(|list|, i, f)
  {
  }

  lemma ScanEnd(list: seq<Chunk>, f: nat, n: nat)
    requires Scanned(list, f, f, n) && list[f].size < n
    ensures !Big(list, n)
  {
    forall j | 0 <= j < |list| && j != f
      ensures list[j].size < n
    {
      assert Dist(|list|, j, f) > Dist(|list|, f, f);
    }
  }
}
