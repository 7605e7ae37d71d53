/** The Kernighan and Ritchie allocator. Addresses and sizes count header units of 8 bytes. */
module Heaps {
  import opened FreeList

  const UNIT: nat := 8
  const MIN_GROWTH: nat := 4096

  datatype Option<T> = None | Some(value: T)

  /** The units malloc needs for nbytes: a header and the bytes rounded up. */
  function Units(nbytes: nat): (n: nat)
    ensures (n - 1) * UNIT >= nbytes > (n - 2) * UNIT
  {
    (nbytes + UNIT - 1) / UNIT + 1
  }

  ghost predicate InLive(live: map<nat, nat>, u: nat) {
    exists a :: a in live && a <= u < a + live[a]
  }

  /** The blocks in use have their headers in place and lie apart from each other and from the free list. */
  ghost predicate LiveOk(mem: map<nat, Header>, list: seq<Chunk>, live: map<nat, nat>) {
    && (forall a :: a in live ==> a in mem && mem[a].size == live[a] && Clear(list, Chunk(a, live[a])))
    && (forall a, b :: a in live && b in live && a != b ==> a + live[a] <= b || b + live[b] <= a)
  }

  /** Free and used blocks together are exactly what sbrk returned. */
  ghost predicate Partition(list: seq<Chunk>, live: map<nat, nat>, arena: seq<Chunk>) {
    forall u: nat :: Covers(arena, u) <==> Covers(list, u) || InLive(live, u)
  }

  /** What sbrk returned lies between base and the break. */
  ghost predicate Bounded(arena: seq<Chunk>, base: nat, brk: nat) {
    forall i :: 0 <= i < |arena| ==> base < arena[i].addr && arena[i].addr + arena[i].size <= brk
  }

  /** No header or data unit of a used block has changed. */
  ghost predicate Untouched(mem: map<nat, Header>, mem': map<nat, Header>, live: map<nat, nat>) {
    forall a, u :: a in live && a <= u < a + live[a] ==> (u in mem <==> u in mem') && (u in mem ==> mem[u] == mem'[u])
  }

  class Heap {
    const base: nat
    var mem: map<nat, Header>
    /** Where searches start; 0 before the first malloc. */
    var freep: nat
    /** The first unit sbrk has not handed out. */
    var brk: nat
    ghost var list: seq<Chunk>
    /** Sizes of the blocks in use, by header address. */
    ghost var live: map<nat, nat>
    /** The regions sbrk has handed to the allocator. */
    ghost var arena: seq<Chunk>

    ghost predicate Valid()
      reads this
    {
      && 0 < base < brk && Bounded(arena, base, brk)
      && if freep == 0 then list == [] && live == map[] && arena == []
         else
           && Spaced(list, base) && Linked(mem, list)
           && (exists f :: 0 <= f < |list| && list[f].addr == freep)
           && LiveOk(mem, list, live) && Partition(list, live, arena)
    }

    constructor (base: nat, brk: nat)
      requires 0 < base < brk
      ensures Valid() && live == map[] && arena == [] && this.base == base && this.brk == brk
    {
      this.base, this.brk := base, brk;
      mem, freep, list, live, arena := map[], 0, [], map[], [];
    }

    /** Return a block to the free list, joining it with its free neighbours. */
    method Free(ap: nat)
      requires Valid() && ap > 0 && ap - 1 in live
      modifies this`mem, this`freep, this`list, this`live
      ensures Valid()
      ensures live == old(live) - {ap - 1}
      ensures forall u: nat :: Covers(list, u) <==> Covers(old(list), u) || ap - 1 <= u < ap - 1 + old(live)[ap - 1]
      ensures exists f :: 0 <= f < |list| && list[f].addr == freep
                && (list[f].size >= old(live)[ap - 1] || list[Nxt(|list|, f)].size >= old(live)[ap - 1])
      ensures Untouched(old(mem), mem, live)
    {
      hide LiveOk, Partition, Spaced, Linked, Freed, Untouched, Covers, Gap, Clear, Bounded;
      var bp := ap - 1;
      ghost var c := Chunk(bp, live[bp]);
      LiveBlock(mem, list, live, bp);
      ghost var k := GapExists(list, base, c, |list|);
      GapInside(list, base, c, k);
      var p := Search(bp, c, k);
      FreedLinked(mem, list, base, c, k);
      FreedSpaced(list, base, c, k);
      FreedLive(mem, list, base, live, c, k, Upper(mem, p, bp), Lower(mem, p, bp, Upper(mem, p, bp)));
      FreedPartition(list, live, arena, c, k);
      FreedPlace(list, c, k);
      SetHeaders(bp, p);
      freep := p;
      list, live := Freed(list, c, k), live - {bp};
    }

    /** The two header updates of free. */
    method SetHeaders(bp: nat, p: nat)
      requires p in mem && bp in mem && p != bp && (bp + mem[bp].size == mem[p].ptr ==> mem[p].ptr in mem)
      modifies this`mem
      ensures var h := Upper(old(mem), p, bp); mem == old(mem)[bp := h][p := Lower(old(mem), p, bp, h)]
    {
      if bp + mem[bp].size == mem[p].ptr {
        mem := mem[bp := Header(mem[mem[p].ptr].ptr, mem[bp].size + mem[mem[p].ptr].size)];
      } else {
        mem := mem[bp := Header(mem[p].ptr, mem[bp].size)];
      }
      if p + mem[p].size == bp {
        mem := mem[p := Header(mem[bp].ptr, mem[p].size + mem[bp].size)];
      } else {
        mem := mem[p := Header(bp, mem[p].size)];
      }
    }

    /** Walk the list from freep to the chunk after which a block belongs. */
    method Search(bp: nat, ghost c: Chunk, ghost k: nat) returns (p: nat)
      requires Spaced(list, base) && Linked(mem, list) && Clear(list, c) && Gap(list, c, k) && c.addr == bp
      requires exists f :: 0 <= f < |list| && list[f].addr == freep
      ensures p == list[k].addr
    {
      hide Spaced, Gap, Clear, Dist, Nxt, Linked;
      p := freep;
      ghost var i: nat :| i < |list| && list[i].addr == freep;
      SearchStep(mem, list, base, c, k, i);
      while !(bp > p && bp < mem[p].ptr)
        invariant i < |list| && list[i].addr == p && k < |list|
        invariant p in mem && mem[p].ptr == list[Nxt(|list|, i)].addr
        decreases Dist(|list|, i, k)
      {
        SearchStep(mem, list, base, c, k, i);
        if p >= mem[p].ptr && (bp > p || bp < mem[p].ptr) {
          break;
        }
        p := mem[p].ptr;
        i := Nxt(|list|, i);
        SearchStep(mem, list, base, c, k, i);
      }
      SearchStep(mem, list, base, c, k, i);
    }

    /** Get more units from the kernel and free them into the list. `answer` is what sbrk returns. */
    method Morecore(nu: nat, answer: Option<nat>) returns (p: nat)
      requires Valid() && freep != 0 && (answer.Some? ==> answer.value >= brk)
      modifies this
      ensures Valid() && live == old(live) && Untouched(old(mem), mem, live)
      ensures answer.None? ==> p == 0 && mem == old(mem) && list == old(list) && arena == old(arena) && freep == old(freep) && brk == old(brk)
      ensures answer.Some? ==>
                && p == freep != 0
                && arena == old(arena) + [Chunk(answer.value, Growth(nu))] && brk == answer.value + Growth(nu)
                && (forall u: nat :: Covers(list, u) <==> Covers(old(list), u) || answer.value <= u < answer.value + Growth(nu))
                && exists f :: 0 <= f < |list| && list[f].addr == freep && (list[f].size >= nu || list[Nxt(|list|, f)].size >= nu)
    {
      var n := nu;
      if n < MIN_GROWTH {
        n := MIN_GROWTH;
      }
      if answer.None? {
        return 0;
      }
      var hp := answer.value;
      hide LiveOk, Partition, Spaced, Linked, Untouched, Covers, Bounded;
      Adopt(hp, n);
      ghost var m := mem;
      Free(hp + 1);
      UntouchedTwice(old(mem), m, mem, live);
      return freep;
    }

    /** Make the units sbrk returned one block in use. */
    method Adopt(hp: nat, n: nat)
      requires Valid() && freep != 0 && brk <= hp && n > 0
      modifies this`mem, this`brk, this`arena, this`live
      ensures Valid() && hp !in old(live) && live == old(live)[hp := n] && Untouched(old(mem), mem, old(live))
      ensures arena == old(arena) + [Chunk(hp, n)] && brk == hp + n
      ensures live - {hp} == old(live)
    {
      hide LiveOk, Partition, Spaced, Linked, Untouched, Covers, Bounded;
      var h := Header(if hp in mem then mem[hp].ptr else 0, n);
      Grow(mem, list, base, live, arena, brk, hp, h);
      mem := mem[hp := h];
      brk, arena, live := hp + n, arena + [Chunk(hp, n)], live[hp := n];
    }

    /** Allocate nbytes. `answer` is what sbrk returns if it is asked; the result is 0 if there is no memory. */
    method Malloc(nbytes: nat, answer: Option<nat>) returns (ap: nat)
      requires Valid() && nbytes < 0x7fff_0000 && (answer.Some? ==> answer.value >= brk)
      modifies this
      ensures Valid() && Untouched(old(mem), mem, old(live))
      ensures ap == 0 <==> !Big(old(list), Units(nbytes)) && answer.None?
      ensures ap == 0 ==> live == old(live)
      ensures ap != 0 ==> ap - 1 !in old(live) && live == old(live)[ap - 1 := Units(nbytes)]
      ensures arena == if !Big(old(list), Units(nbytes)) && answer.Some? then old(arena) + [Chunk(answer.value, Growth(Units(nbytes)))]
                       else old(arena)
    {
      hide LiveOk, Partition, Spaced, Linked, Untouched, Covers, Bounded, Scanned, Big, Nxt, Prv, Dist;
      var nunits := Units(nbytes);
      var prevp := Init(nunits);
      ghost var m0 := mem;
      ghost var f: nat :| f < |list| && list[f].addr == freep;
      ghost var grown := false;
      Node(mem, list, f);
      ScanStart(list, f, nunits);
      var p := mem[prevp].ptr;
      PrvNxt(|list|, f);
      ghost var i: nat := Nxt(|list|, f);
      Node(mem, list, i);
      while true
        invariant Valid() && freep != 0 && live == old(live) && Untouched(old(mem), mem, live)
        invariant Scanned(list, i, f, nunits) && i < |list| && f < |list| && list[i].addr == p && list[f].addr == freep
        invariant p in mem && mem[p].size == list[i].size && list[Prv(|list|, i)].addr == prevp
        invariant if grown then Big(list, nunits) else Big(list, nunits) == Big(old(list), nunits)
        invariant grown ==> !Big(old(list), nunits) && answer.Some?
        invariant arena == if grown then old(arena) + [Chunk(answer.value, Growth(nunits))] else old(arena)
        invariant !grown ==> brk == old(brk)
        decreases !grown, Dist(|list|, i, f)
      {
        if mem[p].size >= nunits {
          BigAt(list, i, nunits);
          ghost var m := mem;
          p := Take(p, prevp, nunits, i);
          UntouchedTwice(old(mem), m, mem, old(live));
          return p + 1;
        }
        if p == freep {
          SameNode(list, base, i, f);
          ScanEnd(list, f, nunits);
          ghost var m := mem;
          p := Morecore(nunits, answer);
          if p == 0 {
            return 0;
          }
          UntouchedTwice(old(mem), m, mem, live);
          grown := true;
          f :| f < |list| && list[f].addr == freep && (list[f].size >= nunits || list[Nxt(|list|, f)].size >= nunits);
          BigAt(list, if list[f].size >= nunits then f else Nxt(|list|, f), nunits);
          ScanStart(list, f, nunits);
          i := f;
        } else {
          ScanStep(list, i, f, nunits);
        }
        Node(mem, list, i);
        PrvNxt(|list|, i);
        prevp := p;
        p := mem[p].ptr;
        i := Nxt(|list|, i);
        Node(mem, list, i);
      }
    }

    /** The first malloc sets up an empty list. */
    method Init(nunits: nat) returns (prevp: nat)
      requires Valid() && nunits > 0
      modifies this`mem, this`freep, this`list
      ensures Valid() && prevp == freep != 0 && Untouched(old(mem), mem, live) && Big(list, nunits) == Big(old(list), nunits)
    {
      prevp := freep;
      if prevp == 0 {
        mem := mem[base := Header(base, 0)];
        freep, prevp := base, base;
        list := [Chunk(base, 0)];
      }
    }

    /** Take a block of nunits from chunk i at p, whole or from its end. */
    method Take(p: nat, prevp: nat, nunits: nat, ghost i: nat) returns (q: nat)
      requires Valid() && freep != 0 && i < |list| && list[i].addr == p && list[Prv(|list|, i)].addr == prevp
      requires 0 < nunits <= list[i].size
      modifies this`mem, this`freep, this`list, this`live
      ensures Valid() && q !in old(live) && live == old(live)[q := nunits] && Untouched(old(mem), mem, old(live))
    {
      hide Untouched, Covers, Bounded, Linked, Partition, LiveOk, Taken;
      TakenOk(mem, list, base, live, arena, i, nunits);
      q := p;
      if mem[p].size == nunits {
        mem := mem[prevp := Header(mem[p].ptr, mem[prevp].size)];
      } else {
        mem := mem[p := Header(mem[p].ptr, mem[p].size - nunits)];
        q := q + mem[p].size;
        mem := mem[q := Header(if q in mem then mem[q].ptr else 0, nunits)];
      }
      freep := prevp;
      list, live := Taken(list, i, nunits), live[q := nunits];
    }
  }

  /** The loop of free stops at the gap, and otherwise comes nearer to it. */
  lemma SearchStep(mem: map<nat, Header>, list: seq<Chunk>, base: nat, c: Chunk, k: nat, i: nat)
    requires Spaced(list, base) && Linked(mem, list) && Clear(list, c) && Gap(list, c, k) && i < |list|
    ensures k < |list| && Nxt(|list|, i) < |list| && list[i].addr in mem && mem[list[i].addr].ptr == list[Nxt(|list|, i)].addr
    ensures var p, q := list[i].addr, list[Nxt(|list|, i)].addr;
            if (c.addr > p && c.addr < q) || (p >= q && (c.addr > p || c.addr < q)) then i == k
            else Dist(|list|, Nxt(|list|, i), k) < Dist(|list|, i, k)
  {
    assert LinkedAt(mem, list, i);
  }

  function Growth(nu: nat): (n: nat)
    ensures n >= nu && n >= MIN_GROWTH && (n == nu || n == MIN_GROWTH)
  {
    if nu < MIN_GROWTH then MIN_GROWTH else nu
  }

  lemma UntouchedTwice(m0: map<nat, Header>, m1: map<nat, Header>, m2: map<nat, Header>, live: map<nat, nat>)
    requires Untouched(m0, m1, live) && Untouched(m1, m2, live)
    ensures Untouched(m0, m2, live)
  {
  }

  /** Every block, free or in use, lies below the break. */
  lemma BelowBreak(list: seq<Chunk>, live: map<nat, nat>, arena: seq<Chunk>, base: nat, brk: nat)
    requires Spaced(list, base) && Partition(list, live, arena) && Bounded(arena, base, brk) && base < brk
    requires forall a :: a in live ==> live[a] > 0
    ensures forall i :: 0 <= i < |list| ==> list[i].addr + list[i].size <= brk && list[i].addr < brk
    ensures forall a :: a in live ==> base < a && a + live[a] <= brk
  {
    forall i | 0 < i < |list|
      ensures list[i].addr + list[i].size <= brk
    {
      assert Covers(list, list[i].addr + list[i].size - 1);
      assert Covers(arena, list[i].addr + list[i].size - 1);
    }
    forall a | a in live
      ensures base < a && a + live[a] <= brk
    {
      assert InLive(live, a) && InLive(live, a + live[a] - 1);
      assert Covers(arena, a) && Covers(arena, a + live[a] - 1);
    }
  }

  /** New units from sbrk join the heap as a block in use. */
  lemma Grow(mem: map<nat, Header>, list: seq<Chunk>, base: nat, live: map<nat, nat>, arena: seq<Chunk>, brk: nat,
             hp: nat, h: Header)
    requires Spaced(list, base) && LiveOk(mem, list, live) && Partition(list, live, arena) && Linked(mem, list)
    requires 0 < base < brk <= hp && Bounded(arena, base, brk) && h.size > 0
    ensures hp !in live
    ensures LiveOk(mem[hp := h], list, live[hp := h.size]) && Linked(mem[hp := h], list) && Untouched(mem, mem[hp := h], live)
    ensures Partition(list, live[hp := h.size], arena + [Chunk(hp, h.size)])
    ensures Bounded(arena + [Chunk(hp, h.size)], base, hp + h.size)
  {
    BelowBreak(list, live, arena, base, brk);
    var mem' := mem[hp := h];
    forall i: nat | i < |list|
      ensures LinkedAt(mem', list, i)
    {
      assert LinkedAt(mem, list, i);
    }
    GrowPartition(list, live, arena, hp, h.size);
  }

  lemma GrowPartition(list: seq<Chunk>, live: map<nat, nat>, arena: seq<Chunk>, hp: nat, n: nat)
    requires Partition(list, live, arena) && hp !in live
    ensures Partition(list, live[hp := n], arena + [Chunk(hp, n)])
  {
    var arena' := arena + [Chunk(hp, n)];
    forall u: nat
      ensures Covers(arena', u) <==> Covers(arena, u) || hp <= u < hp + n
      ensures InLive(live[hp := n], u) <==> InLive(live, u) || hp <= u < hp + n
    {
      assert arena'[|arena|] == Chunk(hp, n);
      if Covers(arena, u) {
        var i :| 0 <= i < |arena| && arena[i].addr <= u < arena[i].addr + arena[i].size;
        assert arena'[i] == arena[i];
      }
      if InLive(live, u) {
        var a :| a in live && a <= u < a + live[a];
        assert a in live[hp := n] && live[hp := n][a] == live[a];
      }
      assert hp in live[hp := n];
    }
  }

  lemma Node(mem: map<nat, Header>, list: seq<Chunk>, i: nat)
    requires Linked(mem, list) && i < |list|
    ensures list[i].addr in mem && mem[list[i].addr] == Header(list[Nxt(|list|, i)].addr, list[i].size)
  {
    assert LinkedAt(mem, list, i);
  }

  lemma SameNode(list: seq<Chunk>, base: nat, i: nat, j: nat)
    requires Spaced(list, base) && i < |list| && j < |list| && list[i].addr == list[j].addr
    ensures i == j
  {
  }

  lemma BigAt(list: seq<Chunk>, i: nat, n: nat)
    requires i < |list| && list[i].size >= n
    ensures Big(list, n)
  {
  }

  /** The header updates of malloc. */
  function TakenMem(mem: map<nat, Header>, p: nat, prevp: nat, n: nat): map<nat, Header>
    requires p in mem && prevp in mem && n <= mem[p].size
  {
    if mem[p].size == n then mem[prevp := Header(mem[p].ptr, mem[prevp].size)]
    else
      var m := mem[p := Header(mem[p].ptr, mem[p].size - n)];
      var q := p + mem[p].size - n;
      m[q := Header(if q in m then m[q].ptr else 0, n)]
  }

  /** What malloc keeps of the heap invariant when it takes n units from chunk i. */
  lemma TakenOk(mem: map<nat, Header>, list: seq<Chunk>, base: nat, live: map<nat, nat>, arena: seq<Chunk>, i: nat, n: nat)
    requires Spaced(list, base) && Linked(mem, list) && LiveOk(mem, list, live) && Partition(list, live, arena)
    requires i < |list| && 0 < n <= list[i].size
    ensures i > 0 && list[i].addr in mem && list[i - 1].addr in mem && mem[list[i].addr].size == list[i].size
    ensures var q := Tail(list, i, n).addr;
            var mem' := TakenMem(mem, list[i].addr, list[i - 1].addr, n);
            && q !in live
            && Spaced(Taken(list, i, n), base) && Linked(mem', Taken(list, i, n))
            && LiveOk(mem', Taken(list, i, n), live[q := n]) && Untouched(mem, mem', live)
            && Partition(Taken(list, i, n), live[q := n], arena)
    ensures i - 1 < |Taken(list, i, n)| && Taken(list, i, n)[i - 1].addr == list[i - 1].addr >= base
  {
    Node(mem, list, i);
    Node(mem, list, i - 1);
    SpacedDistinct(list, base);
    TakenSpaced(list, base, i, n);
    var t := Tail(list, i, n);
    if list[i].size == n {
      RemoveLinked(mem, list, i);
    } else {
      var m := mem[list[i].addr := Header(mem[list[i].addr].ptr, list[i].size - n)];
      ShrinkLinked(mem, list, i, n, if t.addr in m then m[t.addr].ptr else 0);
    }
    TakenLive(mem, list, base, live, i, n);
    TakenPartition(list, base, live, arena, i, n);
  }

  lemma TakenLive(mem: map<nat, Header>, list: seq<Chunk>, base: nat, live: map<nat, nat>, i: nat, n: nat)
    requires Spaced(list, base) && LiveOk(mem, list, live)
    requires 0 < i < |list| && 0 < n <= list[i].size
    requires list[i].addr in mem && list[i - 1].addr in mem && mem[list[i].addr].size == list[i].size
    ensures var q := Tail(list, i, n).addr;
            var mem' := TakenMem(mem, list[i].addr, list[i - 1].addr, n);
            q !in live && LiveOk(mem', Taken(list, i, n), live[q := n]) && Untouched(mem, mem', live)
  {
    hide Spaced;
    var t := Tail(list, i, n);
    var mem' := TakenMem(mem, list[i].addr, list[i - 1].addr, n);
    TakenSpaced(list, base, i, n);
    assert mem'[t.addr].size == n;
    forall a | a in live
      ensures live[a] > 0 && (a + live[a] <= t.addr || t.addr + n <= a)
      ensures a in mem' && mem'[a] == mem[a]
      ensures !(a <= list[i].addr < a + live[a]) && !(a <= list[i - 1].addr < a + live[a])
      ensures Clear(Taken(list, i, n), Chunk(a, live[a]))
    {
      TakenLiveAt(mem, list, live, i, n, a);
    }
    hide Taken, Clear;
    TakenUntouched(mem, list, live, i, n);
  }

  lemma TakenLiveAt(mem: map<nat, Header>, list: seq<Chunk>, live: map<nat, nat>, i: nat, n: nat, a: nat)
    requires LiveOk(mem, list, live) && 0 < i < |list| && 0 < n <= list[i].size && a in live
    requires list[i].addr in mem && list[i - 1].addr in mem && mem[list[i].addr].size == list[i].size
    ensures var t := Tail(list, i, n).addr;
            var mem' := TakenMem(mem, list[i].addr, list[i - 1].addr, n);
            && live[a] > 0 && (a + live[a] <= t || t + n <= a) && a in mem' && mem'[a] == mem[a]
            && !(a <= list[i].addr < a + live[a]) && !(a <= list[i - 1].addr < a + live[a])
            && Clear(Taken(list, i, n), Chunk(a, live[a]))
  {
    TakenClear(list, i, n, Chunk(a, live[a]));
  }

  lemma TakenUntouched(mem: map<nat, Header>, list: seq<Chunk>, live: map<nat, nat>, i: nat, n: nat)
    requires 0 < i < |list| && 0 < n <= list[i].size && list[i].addr in mem && list[i - 1].addr in mem
    requires mem[list[i].addr].size == list[i].size
    requires forall a :: a in live ==>
               && !(a <= list[i].addr < a + live[a]) && !(a <= list[i - 1].addr < a + live[a])
               && (a + live[a] <= Tail(list, i, n).addr || Tail(list, i, n).addr + n <= a)
    ensures Untouched(mem, TakenMem(mem, list[i].addr, list[i - 1].addr, n), live)
  {
  }

  lemma TakenClear(list: seq<Chunk>, i: nat, n: nat, d: Chunk)
    requires Clear(list, d) && 0 < i < |list| && 0 < n <= list[i].size
    ensures Clear(Taken(list, i, n), d)
    ensures d.addr + d.size <= list[i].addr || list[i].addr + list[i].size <= d.addr
  {
    var list' := Taken(list, i, n);
    forall j | 0 <= j < |list'|
      ensures d.addr + d.size <= list'[j].addr || list'[j].addr + list'[j].size <= d.addr
      ensures d.addr != list'[j].addr
    {
      if list[i].size == n {
        assert list'[j] == list[if j < i then j else j + 1];
      } else {
        assert list'[j].addr == list[j].addr && list'[j].size <= list[j].size;
      }
    }
  }

  lemma TakenPartition(list: seq<Chunk>, base: nat, live: map<nat, nat>, arena: seq<Chunk>, i: nat, n: nat)
    requires Spaced(list, base) && Partition(list, live, arena)
    requires 0 < i < |list| && 0 < n <= list[i].size && Tail(list, i, n).addr !in live
    ensures Partition(Taken(list, i, n), live[Tail(list, i, n).addr := n], arena)
  {
    hide Taken, Covers, Spaced;
    var t := Tail(list, i, n);
    var live' := live[t.addr := n];
    forall u: nat
      ensures Covers(list, u) <==> Covers(Taken(list, i, n), u) || t.addr <= u < t.addr + t.size
      ensures InLive(live', u) <==> InLive(live, u) || t.addr <= u < t.addr + t.size
    {
      TakenCovers(list, base, i, n, u);
      if InLive(live, u) {
        var a :| a in live && a <= u < a + live[a];
        assert a in live' && live'[a] == live[a];
      }
      assert t.addr in live';
    }
  }

  lemma LiveBlock(mem: map<nat, Header>, list: seq<Chunk>, live: map<nat, nat>, a: nat)
    requires LiveOk(mem, list, live) && a in live
    ensures a in mem && mem[a].size == live[a] && Clear(list, Chunk(a, live[a]))
  {
  }

  lemma GapInside(list: seq<Chunk>, base: nat, c: Chunk, k: nat)
    requires Spaced(list, base) && Gap(list, c, k)
    ensures k < |list| && list[k].addr != c.addr && list[k].addr >= base
  {
  }

  /** The other blocks in use stay in place, apart and untouched. */
  lemma FreedLive(mem: map<nat, Header>, list: seq<Chunk>, base: nat, live: map<nat, nat>, c: Chunk, k: nat, h: Header,
                  h': Header)
    requires LiveOk(mem, list, live) && k < |list| && c.addr in live && c == Chunk(c.addr, live[c.addr])
    ensures LiveOk(mem[c.addr := h][list[k].addr := h'], Freed(list, c, k), live - {c.addr})
    ensures Untouched(mem, mem[c.addr := h][list[k].addr := h'], live - {c.addr})
  {
    hide Freed;
    forall a | a in live && a != c.addr
      ensures Clear(Freed(list, c, k), Chunk(a, live[a]))
      ensures !(a <= c.addr < a + live[a]) && !(a <= list[k].addr < a + live[a])
    {
      assert Clear(list, Chunk(a, live[a]));
      FreedClear(list, c, k, Chunk(a, live[a]));
    }
  }

  lemma FreedPartition(list: seq<Chunk>, live: map<nat, nat>, arena: seq<Chunk>, c: Chunk, k: nat)
    requires Partition(list, live, arena) && k < |list| && c.addr in live && c == Chunk(c.addr, live[c.addr])
    ensures Partition(Freed(list, c, k), live - {c.addr}, arena)
    ensures forall u: nat :: Covers(Freed(list, c, k), u) <==> Covers(list, u) || c.addr <= u < c.addr + c.size
  {
    hide Freed, Covers;
    forall u: nat
      ensures Covers(Freed(list, c, k), u) <==> Covers(list, u) || c.addr <= u < c.addr + c.size
    {
      FreedCovers(list, c, k, u);
    }
    forall u: nat
      ensures InLive(live, u) <==> InLive(live - {c.addr}, u) || c.addr <= u < c.addr + c.size
    {
      if InLive(live, u) {
        var a :| a in live && a <= u < a + live[a];
        assert a != c.addr ==> a in live - {c.addr};
      }
    }
  }
}
