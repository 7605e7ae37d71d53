/** Address spaces: mapping, growing, shrinking, copying and freeing them. */
module VirtualMemory {
  import opened PageTables

  const PGSIZE: nat := 4096
  const KERNBASE: nat := 0x8000_0000
  const PTE_W: nat := 2
  const PTE_U: nat := 4

  /** The bit that lets the kernel and user programs write the page. */
  predicate Writable(e: Entry) {
    e.flags / PTE_W % 2 == 1
  }

  /** The bit that lets user programs use the page. */
  predicate UserPage(e: Entry) {
    e.flags / PTE_U % 2 == 1
  }

  /** pa | perm | PTE_P: the present bit is set, the others are those of perm. */
  function Entry1(frame: nat, perm: nat): (e: Entry)
    ensures Present(e) && e.frame == frame && e.flags / 2 == perm / 2 && (perm % 2 == 1 ==> e == Entry(frame, perm))
  {
    Entry(frame, if perm % 2 == 1 then perm else perm + 1)
  }

  /** Tables may have been added, made of free frames; no other frame outside the tables is touched. */
  ghost predicate Grew(m: Memory, free: seq<nat>, m': Memory, free': seq<nat>, d: nat) {
    && (forall x: nat :: x < ENTRIES && Tab(m, d, x) != 0 ==> Tab(m', d, x) == Tab(m, d, x))
    && Tables(m', d) <= Tables(m, d) + Elements(free)
    && Elements(free') <= Elements(free)
    && OnlyTables(m, free, d, m')
  }

  lemma GrewTransitive(m0: Memory, f0: seq<nat>, m1: Memory, f1: seq<nat>, m2: Memory, f2: seq<nat>, d: nat)
    requires Grew(m0, f0, m1, f1, d) && Grew(m1, f1, m2, f2, d)
    ensures Grew(m0, f0, m2, f2, d)
  {
    hide Tab, Elements, Tables;
    forall x: nat | x < ENTRIES && Tab(m0, d, x) != 0
      ensures Tab(m2, d, x) == Tab(m0, d, x)
    {
      assert Tab(m1, d, x) == Tab(m0, d, x);
    }
  }

  /** The user frames among k consecutive ones mapped from page v on. */
  ghost function UserFrames(v: nat, frame: nat, k: nat): (r: set<nat>)
    ensures forall f :: f in r ==> f < frame + k
  {
    if k == 0 then {} else UserFrames(v, frame, k - 1) + if v + k - 1 < UPAGES then {frame + k - 1} else {}
  }

  /** k pages from page v on are mapped to consecutive frames. */
  ghost predicate Mapped(m: Memory, m': Memory, d: nat, v: nat, k: nat, frame: nat, perm: nat) {
    forall u: nat :: u < VPAGES ==> Pte(m', d, u) == if v <= u < v + k then Entry1(frame + (u - v), perm) else Pte(m, d, u)
  }

  lemma TookNext(m0: Memory, f0: seq<nat>, m1: Memory, f1: seq<nat>, m2: Memory, f2: seq<nat>, d: nat, v: nat, k: nat)
    requires Took(m0, f0, m1, f1, d, SlotsOf(v, k)) && Took(m1, f1, m2, f2, d, {Slot(v + k)})
    ensures Took(m0, f0, m2, f2, d, SlotsOf(v, k + 1))
  {
    TookTwice(m0, f0, m1, f1, m2, f2, d, SlotsOf(v, k), {Slot(v + k)});
  }

  /** One more page of mappages. */
  lemma MappedNext(m0: Memory, f0: seq<nat>, m1: Memory, f1: seq<nat>, m2: Memory, f2: seq<nat>, d: nat, v: nat, frame: nat,
                   k: nat, perm: nat)
    requires Mapped(m0, m1, d, v, k, frame, perm) && Grew(m0, f0, m1, f1, d) && Grew(m1, f1, m2, f2, d)
    requires forall u: nat :: u < VPAGES ==> Pte(m2, d, u) == if u == v + k then Entry1(frame + k, perm) else Pte(m1, d, u)
    requires Took(m0, f0, m1, f1, d, SlotsOf(v, k)) && Took(m1, f1, m2, f2, d, {Slot(v + k)})
    requires Total(m1, f1, d) == Total(m0, f0, d) + UserFrames(v, frame, k)
    requires Total(m2, f2, d) == Total(m1, f1, d) + if v + k < UPAGES then {frame + k} else {}
    ensures Mapped(m0, m2, d, v, k + 1, frame, perm) && Grew(m0, f0, m2, f2, d) && Took(m0, f0, m2, f2, d, SlotsOf(v, k + 1))
    ensures Total(m2, f2, d) == Total(m0, f0, d) + UserFrames(v, frame, k + 1)
  {
    hide Pte, Total, Grew, Took, SlotsOf, Entry1;
    TookNext(m0, f0, m1, f1, m2, f2, d, v, k);
    GrewTransitive(m0, f0, m1, f1, m2, f2, d);
    assert UserFrames(v, frame, k + 1) == UserFrames(v, frame, k) + if v + k < UPAGES then {frame + k} else {};
  }

  lemma MappedNothing(m: Memory, free: seq<nat>, d: nat, v: nat, frame: nat, perm: nat)
    ensures Mapped(m, m, d, v, 0, frame, perm) && Grew(m, free, m, free, d) && Took(m, free, m, free, d, SlotsOf(v, 0))
    ensures Total(m, free, d) == Total(m, free, d) + UserFrames(v, frame, 0)
  {
    TookNothing(m, free, m, d, {});
  }

  /** A page not mapped at the start is still not mapped when those before it are. */
  lemma NotMapped(m0: Memory, m: Memory, d: nat, v: nat, frame: nat, k: nat, perm: nat)
    requires Mapped(m0, m, d, v, k, frame, perm) && v + k < VPAGES && !Present(Pte(m0, d, v + k))
    ensures !Present(Pte(m, d, v + k))
  {
  }

  /** The table of a slot, if there is one. */
  lemma TableThere(m: Memory, free: seq<nat>, lo: nat, d: nat, x: nat)
    requires Sound(m, free, lo, d) && x < ENTRIES
    ensures d < |m| && FreeList(m, free, lo) && (Tab(m, d, x) != 0 <==> Present(m[d][x]))
    ensures Present(m[d][x]) ==> Tab(m, d, x) == m[d][x].frame && m[d][x].frame in Tables(m, d)
    ensures Took(m, free, m, free, d, if Tab(m, d, x) != 0 then {x} else {}) && (x in Slots(m, d) <==> Tab(m, d, x) != 0)
  {
    if Present(m[d][x]) {
      assert TableOk(m, free, lo, d, x);
    }
    TookNothing(m, free, m, d, if Tab(m, d, x) != 0 then {x} else {});
  }

  /** A new table for a slot without one, in the frame just taken. */
  lemma MadeTable(m: Memory, free: seq<nat>, lo: nat, d: nat, x: nat, f: nat)
    requires Sound(m, [f] + free, lo, d) && x < ENTRIES && Tab(m, d, x) == 0 && f != 0
    ensures d < |m| && f < |m| && f != d
    ensures var m' := m[f := Zeroes()][d := m[f := Zeroes()][d][x := Entry(f, 1 + PTE_W + PTE_U)]];
            && Sound(m', free, lo, d) && Total(m', free, d) == Total(m, [f] + free, d) && Tab(m', d, x) == f
            && (forall v: nat :: v < VPAGES ==> Pte(m', d, v) == Pte(m, d, v))
            && Grew(m, [f] + free, m', free, d) && Took(m, [f] + free, m', free, d, {x})
            && Writable(Pde(m', d, x)) && UserPage(Pde(m', d, x))
    ensures f in Elements([f] + free)
  {
    hide Pte, Pde, WithTable, Sound, Owned, Took;
    TableThere(m, [f] + free, lo, d, x);
    NewTable(m, free, lo, d, x, f);
    NewTableMap(m, free, lo, d, x, f);
    NewTableFrame(m, d, x, f);
    TookTable(m, f, free, WithTable(m, d, x, f), d, x);
    ElementsCons(f, free);
    MadeGrew(m, free, d, x, f, WithTable(m, d, x, f));
  }

  lemma MadeGrew(m: Memory, free: seq<nat>, d: nat, x: nat, f: nat, m': Memory)
    requires x < ENTRIES && Tab(m, d, x) == 0 && |m'| == |m| && d < |m|
    requires forall y: nat :: y < ENTRIES ==> Pde(m', d, y) == if y == x then Entry(f, 7) else Pde(m, d, y)
    requires forall g: nat :: g < |m| && g != f && g != d ==> m'[g] == m[g]
    ensures Tab(m', d, x) == f && Grew(m, [f] + free, m', free, d)
  {
    hide Pde;
    assert forall y: nat :: y < ENTRIES ==> Tab(m', d, y) == if y == x then f else Tab(m, d, y);
    ElementsCons(f, free);
  }

  lemma GrewLoose(m: Memory, free: seq<nat>, m': Memory, free': seq<nat>, lo: nat, d: nat, f: nat)
    requires Loose(m, free, lo, d, f) && Grew(m, free, m', free', d) && Total(m', free', d) == Total(m, free, d)
    ensures Loose(m', free', lo, d, f)
  {
    LooseStays(m, free, m', free', lo, d, f);
  }

  lemma EntryGrew(m0: Memory, f0: seq<nat>, m: Memory, free: seq<nat>, d: nat, v: nat, e: Entry)
    requires Grew(m0, f0, m, free, d) && v < VPAGES && 0 != Tab(m, d, v / ENTRIES) < |m|
    requires var m' := WithEntry(m, Tab(m, d, v / ENTRIES), v, e);
             Tables(m', d) == Tables(m, d) && forall x: nat :: x < ENTRIES ==> Pde(m', d, x) == Pde(m, d, x)
    ensures Grew(m0, f0, WithEntry(m, Tab(m, d, v / ENTRIES), v, e), free, d)
  {
    hide Pde;
    OnePage(v, v);
    var m' := WithEntry(m, Tab(m, d, v / ENTRIES), v, e);
    assert forall x: nat :: x < ENTRIES ==> Tab(m', d, x) == Tab(m, d, x);
    assert Tab(m, d, v / ENTRIES) in Tables(m, d);
    GrewTransitive(m0, f0, m, free, m', free, d);
  }

  /** An entry put into a table that walkpgdir has found or made. */
  lemma EntryMade(m0: Memory, f0: seq<nat>, m: Memory, free: seq<nat>, lo: nat, d: nat, v: nat, e: Entry)
    requires Sound(m, free, lo, d) && v < VPAGES && Tab(m, d, v / ENTRIES) != 0 && !Present(Pte(m, d, v)) && Present(e)
    requires Grew(m0, f0, m, free, d) && Took(m0, f0, m, free, d, {Slot(v)}) && Total(m, free, d) == Total(m0, f0, d)
    requires v < UPAGES ==> Loose(m0, f0, lo, d, e.frame)
    ensures Tab(m, d, v / ENTRIES) < |m| && var m' := WithEntry(m, Tab(m, d, v / ENTRIES), v, e);
            && Sound(m', free, lo, d) && Total(m', free, d) == Total(m0, f0, d) + (if v < UPAGES then {e.frame} else {})
            && (forall u: nat :: u < VPAGES ==> Pte(m', d, u) == if u == v then e else Pte(m, d, u))
            && Grew(m0, f0, m', free, d) && Took(m0, f0, m', free, d, {Slot(v)})
  {
    hide Pte, Pde, Tab, Tables, Sound, Owned, Slots, Slot, Grew, Elements, Loose, WithEntry, Took;
    if v < UPAGES {
      GrewLoose(m0, f0, m, free, lo, d, e.frame);
    }
    MapEntry(m, free, lo, d, v, e);
    WriteEntry(m, free, lo, d, v, e);
    var m' := WithEntry(m, Tab(m, d, v / ENTRIES), v, e);
    EntryMap(m, d, v, e);
    EntryGrew(m0, f0, m, free, d, v, e);
    TookSame(m0, f0, m, m', free, d, {Slot(v)});
  }

  lemma EntryMap(m: Memory, d: nat, v: nat, e: Entry)
    requires Tab(m, d, v / ENTRIES) < |m|
    ensures var t := Tab(m, d, v / ENTRIES); WithEntry(m, t, v, e) == m[t := m[t][v % ENTRIES := e]]
  {
  }

  lemma TookSame(m0: Memory, f0: seq<nat>, m1: Memory, m2: Memory, free: seq<nat>, d: nat, more: set<nat>)
    requires Took(m0, f0, m1, free, d, more) && forall x: nat :: x < ENTRIES ==> Pde(m2, d, x) == Pde(m1, d, x)
    ensures Took(m0, f0, m2, free, d, more)
  {
    TookNothing(m1, free, m2, d, {});
  }

  class Vm {
    /** The frames from lo on belong to the allocator at boot. */
    const lo: nat
    /** The kernel's mappings, which every page directory has. */
    const kmap: seq<Range>
    var m: Memory
    var free: seq<nat>

    method Kalloc() returns (f: nat)
      requires FreeList(m, free, lo)
      modifies this`free
      ensures if old(free) == [] then f == 0 && free == [] else f == old(free)[0] && old(free) == [f] + free
      ensures FreeList(m, free, lo) && (f != 0 <==> old(free) != [])
      ensures f != 0 ==> Taken(m, free, lo, f) && Elements(old(free)) == {f} + Elements(free)
    {
      if free == [] {
        return 0;
      }
      f := free[0];
      assert free == [f] + free[1..];
      free := free[1..];
      FreeTail(m, free, lo, f);
    }

    method Kfree(f: nat)
      requires lo <= f < |m|
      modifies this`m, this`free
      ensures m == old(m)[f := Junk()] && free == [f] + old(free)
    {
      m := m[f := Junk()];
      free := [f] + free;
    }

    /** walkpgdir: the frame of the table with the entry for page v, or 0. */
    method Walk(d: nat, v: nat, alloc: bool) returns (t: nat)
      requires Sound(m, free, lo, d) && v < VPAGES
      modifies this`m, this`free
      ensures Sound(m, free, lo, d) && Total(m, free, d) == old(Total(m, free, d))
      ensures t == Tab(m, d, v / ENTRIES) && forall u: nat :: u < VPAGES ==> Pte(m, d, u) == old(Pte(m, d, u))
      ensures !alloc || old(Tab(m, d, v / ENTRIES)) != 0 || old(free) == [] ==> m == old(m) && free == old(free)
      ensures (alloc && old(free) != [] ==> t != 0) && (t != 0 ==> t in old(Tables(m, d)) + old(Elements(free)))
      ensures Grew(old(m), old(free), m, free, d)
      ensures Took(old(m), old(free), m, free, d, if t != 0 then {Slot(v)} else {}) && (t == 0 ==> Slot(v) !in Slots(m, d))
      ensures t != 0 && old(Tab(m, d, v / ENTRIES)) == 0 ==> Writable(Pde(m, d, v / ENTRIES)) && UserPage(Pde(m, d, v / ENTRIES))
    {
      hide Pte, WithTable, Took, Grew, Sound, Owned, Tables, Slots, Elements;
      OnePage(v, v);
      var x := v / ENTRIES;
      GrewNothing(m, free, d);
      TableThere(m, free, lo, d, x);
      if Present(m[d][x]) {
        return m[d][x].frame;
      }
      if !alloc {
        return 0;
      }
      ghost var m0 := m;
      t := Kalloc();
      if t == 0 {
        return 0;
      }
      MadeTable(m0, free, lo, d, x, t);
      m := m[t := Zeroes()];
      m := m[d := m[d][x := Entry(t, 1 + PTE_W + PTE_U)]];
    }

    /** The loop body of mappages. */
    method MapOne(d: nat, v: nat, e: Entry) returns (ok: bool)
      requires Sound(m, free, lo, d) && v < VPAGES && Present(e) && !Present(Pte(m, d, v))
      requires v < UPAGES ==> Loose(m, free, lo, d, e.frame)
      modifies this`m, this`free
      ensures Sound(m, free, lo, d) && Total(m, free, d) == old(Total(m, free, d)) + if ok && v < UPAGES then {e.frame} else {}
      ensures forall u: nat :: u < VPAGES ==> Pte(m, d, u) == if ok && u == v then e else old(Pte(m, d, u))
      ensures !ok ==> m == old(m) && free == old(free) && free == []
      ensures Grew(old(m), old(free), m, free, d)
      ensures ok ==> Took(old(m), old(free), m, free, d, {Slot(v)})
      ensures !ok ==> Slot(v) !in Slots(m, d)
    {
      hide Pte, Pde, Tab, Tables, Sound, Owned, Took, Slots, Slot, Grew, Elements, Loose;
      ghost var m0, free0 := m, free;
      var t := Walk(d, v, true);
      if t == 0 {
        return false;
      }
      EntryMade(m0, free0, m, free, lo, d, v, e);
      ghost var m1 := m;
      m := m[t := m[t][v % ENTRIES := e]];
      assert m == WithEntry(m1, t, v, e);
      return true;
    }

    /** Map the pages of [va, va + size) to the frames from pa on. False if there is no memory for a table. */
    method MapPages(d: nat, va: nat, size: nat, pa: nat, perm: nat) returns (ok: bool, ghost k: nat)
      requires Sound(m, free, lo, d) && size > 0 && va + size <= VPAGES * PGSIZE && pa % PGSIZE == 0
      requires forall v: nat :: va / PGSIZE <= v <= (va + size - 1) / PGSIZE ==>
                 !Present(Pte(m, d, v)) && (v < UPAGES ==> Loose(m, free, lo, d, pa / PGSIZE + (v - va / PGSIZE)))
      modifies this`m, this`free
      ensures Sound(m, free, lo, d) && Grew(old(m), old(free), m, free, d)
      ensures var n := (va + size - 1) / PGSIZE - va / PGSIZE + 1;
              if ok then k == n else k < n && (k == 0 ==> m == old(m) && free == old(free))
      ensures Mapped(old(m), m, d, va / PGSIZE, k, pa / PGSIZE, perm)
      ensures Total(m, free, d) == old(Total(m, free, d)) + UserFrames(va / PGSIZE, pa / PGSIZE, k)
      ensures Took(old(m), old(free), m, free, d, SlotsOf(va / PGSIZE, k))
      ensures ok <==> old(|free|) >= old(Missing(m, d, va / PGSIZE, (va + size - 1) / PGSIZE - va / PGSIZE + 1))
    {
      hide Pte, Pde, Tab, Tables, Sound, Owned, Total, Grew, Elements, Loose, Slots, Slot, SlotsOf, Took, Missing, Mapped, UserFrames;
      ghost var m0, free0 := m, free;
      ghost var first, frame := va / PGSIZE, pa / PGSIZE;
      var a, last := va / PGSIZE * PGSIZE, (va + size - 1) / PGSIZE * PGSIZE;
      var p := pa;
      k := 0;
      MappedNothing(m, free, d, first, frame, perm);
      while true
        invariant a == (first + k) * PGSIZE && p == (frame + k) * PGSIZE && first * PGSIZE <= a <= last
        invariant Sound(m, free, lo, d) && Grew(m0, free0, m, free, d)
        invariant Mapped(m0, m, d, first, k, frame, perm) && (k == 0 ==> m == m0 && free == free0)
        invariant Total(m, free, d) == Total(m0, free0, d) + UserFrames(first, frame, k)
        invariant Took(m0, free0, m, free, d, SlotsOf(first, k))
        decreases last - a
      {
        ghost var m1, free1 := m, free;
        assert a / PGSIZE == first + k && p / PGSIZE == frame + k;
        NotMapped(m0, m, d, first, frame, k, perm);
        if first + k < UPAGES {
          NextLoose(m0, free0, m, free, lo, d, first, frame, k);
        }
        ok := MapOne(d, a / PGSIZE, Entry1(p / PGSIZE, perm));
        if !ok {
          TookSome(m0, free0, m, free, d, first, k, (va + size - 1) / PGSIZE - first + 1);
          return;
        }
        MappedNext(m0, free0, m1, free1, m, free, d, first, frame, k, perm);
        k := k + 1;
        if a == last {
          TookAll(m0, free0, m, free, d, first, k);
          return;
        }
        a, p := a + PGSIZE, p + PGSIZE;
      }
    }

    /** Free the user pages between two sizes, skipping over absent tables. */
    method Deallocuvm(d: nat, oldsz: nat, newsz: nat) returns (r: nat)
      requires Sound(m, free, lo, d) && oldsz <= KERNBASE
      modifies this`m, this`free
      ensures r == if newsz >= oldsz then oldsz else newsz
      ensures Sound(m, free, lo, d) && Total(m, free, d) == old(Total(m, free, d))
      ensures Unmapped(old(m), m, d, PageUp(newsz), PageUp(oldsz))
      ensures Shed(old(m), old(free), m, free, d)
    {
      hide Pte, Pde, Sound, Owned, Elements, Shed, Unmapped, Slots, Slot, Took, Grew, Tables;
      ghost var m0, free0 := m, free;
      ShedNothing(m, free, d);
      UnmappedNothing(m, d, PageUp(newsz), PageUp(if newsz >= oldsz then oldsz else newsz));
      if newsz >= oldsz {
        return oldsz;
      }
      var a := PageUp(newsz) * PGSIZE;
      ghost var first, last := PageUp(newsz), PageUp(oldsz);
      while a < oldsz
        invariant a % PGSIZE == 0 && first <= a / PGSIZE
        invariant Sound(m, free, lo, d) && Total(m, free, d) == Total(m0, free0, d)
        invariant Unmapped(m0, m, d, first, a / PGSIZE)
        invariant forall v: nat :: last <= v < a / PGSIZE ==> !Present(Pte(m0, d, v))
        invariant Shed(m0, free0, m, free, d)
      {
        ghost var m1, free1, v := m, free, a / PGSIZE;
        var t := Walk(d, a / PGSIZE, false);
        if t == 0 {
          NoTable(m0, m, d, v, first, v);
          SkipTable(a);
          a := (a / PGSIZE / ENTRIES + 1) * ENTRIES * PGSIZE - PGSIZE;
          UnmappedMore(m0, m, d, first, v, a / PGSIZE + 1);
        } else {
          WalkEntry(m, free, lo, d, v);
          var e := m[t][a / PGSIZE % ENTRIES];
          if Present(e) {
            UnmapFree(m, free, lo, d, v);
            Kfree(e.frame);
            m := m[t := m[t][a / PGSIZE % ENTRIES := Entry(0, 0)]];
            UnmappedStep(m0, m1, m, d, first, v);
            ShedTransitive(m0, free0, m1, free1, m, free, d);
          } else {
            UnmappedMore(m0, m, d, first, v, v + 1);
          }
        }
        a := a + PGSIZE;
      }
      UnmappedMore(m0, m, d, first, a / PGSIZE, last);
      return newsz;
    }

    /** Give back all frames of an address space. */
    method Freevm(d: nat)
      requires Sound(m, free, lo, d)
      modifies this`m, this`free
      ensures FreeList(m, free, lo) && Elements(free) == old(Total(m, free, d))
      ensures Untouched(old(m), m, old(Total(m, free, d)))
    {
      hide Pte, Elements, TablesBelow;
      ghost var m0, free0 := m, free;
      var _ := Deallocuvm(d, KERNBASE, 0);
      ghost var m1, free1 := m, free;
      NoPagesLeft(m0, m, free, lo, d);
      NoTables(m, d);
      var i := 0;
      while i < ENTRIES
        invariant 0 <= i <= ENTRIES && |m| == |m1| && m[d] == m1[d]
        invariant FreeList(m, free, lo) && Elements(free) == Elements(free1) + TablesBelow(m1, d, i)
        invariant forall f: nat :: f < |m| && f !in Elements(free) ==> m[f] == m1[f]
      {
        NextTable(m1, free1, lo, d, i);
        if Present(m[d][i]) {
          FreeCons(m, free, lo, m[d][i].frame);
          Kfree(m[d][i].frame);
        }
        i := i + 1;
      }
      NextTable(m1, free1, lo, d, ENTRIES - 1);
      FreeCons(m, free, lo, d);
      Kfree(d);
    }

    /** Grow an address space. All or nothing: if memory runs out, only page tables have been added. */
    method Allocuvm(d: nat, oldsz: nat, newsz: nat) returns (r: nat)
      requires Sound(m, free, lo, d)
      requires forall v: nat :: PageUp(oldsz) <= v < PageUp(newsz) && v < UPAGES ==> !Present(Pte(m, d, v))
      modifies this`m, this`free
      ensures newsz >= KERNBASE ==> r == 0 && m == old(m) && free == old(free)
      ensures newsz < KERNBASE && newsz < oldsz ==> r == oldsz && m == old(m) && free == old(free)
      ensures oldsz <= newsz < KERNBASE ==>
                || (r == newsz && NewPages(old(m), m, d, PageUp(oldsz), PageUp(newsz)))
                || (r == 0 && SameMappings(old(m), m, d) && Elements(free) + (Tables(m, d) - old(Tables(m, d))) == old(Elements(free)))
      ensures Sound(m, free, lo, d) && Total(m, free, d) == old(Total(m, free, d)) && Grew(old(m), old(free), m, free, d)
      ensures oldsz <= newsz < KERNBASE ==>
                var n := PageUp(newsz) - PageUp(oldsz);
                r == if old(|free|) >= n + old(Missing(m, d, PageUp(oldsz), n)) then newsz else 0
    {
      hide Pte, Pde, Tab, Tables, Sound, Owned, Elements, Grew, Slots, Slot, SlotsOf, Took, Missing, Growing;
      ghost var m0, free0 := m, free;
      GrewNothing(m, free, d);
      if newsz >= KERNBASE {
        return 0;
      }
      if newsz < oldsz {
        return oldsz;
      }
      ghost var first, n := PageUp(oldsz), PageUp(newsz) - PageUp(oldsz);
      GrowthStart(m, free, d, first);
      var a := PageUp(oldsz) * PGSIZE;
      while a < newsz
        invariant a % PGSIZE == 0 && first <= a / PGSIZE <= PageUp(newsz)
        invariant Sound(m, free, lo, d) && Total(m, free, d) == Total(m0, free0, d) && Grew(m0, free0, m, free, d)
        invariant NewPages(m0, m, d, first, a / PGSIZE)
        invariant Growing(m0, free0, m, free, d, first, a / PGSIZE - first)
      {
        ghost var m1, free1, v := m, free, a / PGSIZE;
        SoundFreeList(m, free, lo, d);
        var mem := Kalloc();
        if mem == 0 {
          GrowthNoFrame(m0, free0, m1, d, first, v - first, n);
          var _ := Deallocuvm(d, newsz, oldsz);
          AllocFailed(m0, free0, m1, free1, m, free, lo, d, first, v, PageUp(newsz));
          return 0;
        }
        TakeFrame(m1, free1, free, lo, d, mem, Zeroes());
        m := m[mem := Zeroes()];
        ghost var m2, free2 := m, free;
        GrewTransitive(m0, free0, m1, free1, m2, free2, d);
        OneFrame(v, mem, m1, d);
        var ok, k := MapPages(d, a, PGSIZE, mem * PGSIZE, PTE_W + PTE_U);
        if !ok {
          GrowthNoTable(m0, free0, m1, mem, free2, m2, d, first, v - first, n);
          var _ := Deallocuvm(d, newsz, oldsz);
          ghost var m3, free3 := m, free;
          TakenNotFree(m2, free2, lo, mem);
          NotTotalLoose(m, free, lo, d, mem);
          FreeLoose(m, free, lo, d, mem);
          Kfree(mem);
          GivenBack(m1, free1, m2, free2, m3, free3, m, d, mem);
          AllocFailed(m0, free0, m1, free1, m, free, lo, d, first, v, PageUp(newsz));
          return 0;
        }
        GrewTransitive(m0, free0, m2, free2, m, free, d);
        NewPagesStep(m0, m1, free1, m2, free2, m, free, lo, d, first, v, mem);
        GrowthStep(m0, free0, m1, mem, free2, m2, m, free, d, first, v - first);
        a := a + PGSIZE;
      }
      GrowthDone(m0, free0, m, free, d, first, n);
      return newsz;
    }

    /** A page directory with the kernel's mappings; 0, and everything given back, if memory runs out. */
    method Setupkvm() returns (d: nat)
      requires FreeList(m, free, lo) && KmapOk(kmap)
      modifies this`m, this`free
      ensures d == 0 ==> FreeList(m, free, lo) && Elements(free) == old(Elements(free))
      ensures d != 0 ==> Sound(m, free, lo, d) && Total(m, free, d) == old(Elements(free)) && KernelOnly(m, d, kmap, |kmap|)
      ensures d != 0 ==> d in old(Elements(free))
      ensures Untouched(old(m), m, old(Elements(free)))
      ensures d != 0 <==> old(|free|) >= 1 + |KernelSlots(kmap, |kmap|)|
      ensures d != 0 ==> Spent(old(|free|), m, free, d, 0, KernelSlots(kmap, |kmap|))
    {
      hide Pte, Pde, Tab, Tables, Sound, Owned, Elements, KernelPte, Grew, Slots, Slot, SlotsOf, Took, Missing, Spent, KernelSlots;
      ghost var m0, free0 := m, free;
      d := Kalloc();
      if d == 0 {
        return;
      }
      m := m[d := Zeroes()];
      ghost var m1, free1 := m, free;
      NewDir(m0, free0, free, lo, d);
      NoneYet(kmap);
      SpentDirectory(free0, m, free, d, kmap);
      GrewNothing(m, free, d);
      var i := 0;
      while i < |kmap|
        invariant 0 <= i <= |kmap|
        invariant Sound(m, free, lo, d) && Total(m, free, d) == Elements(free0) && Grew(m1, free1, m, free, d)
        invariant KernelOnly(m, d, kmap, i) && Spent(|free0|, m, free, d, 0, KernelSlots(kmap, i))
      {
        ghost var m2, free2 := m, free;
        var ok := MapRow(d, i, |free0|);
        GrewTransitive(m1, free1, m2, free2, m, free, d);
        if !ok {
          NewDirUntouched(m0, free0, m1, free1, m, free, d);
          Freevm(d);
          return 0;
        }
        i := i + 1;
      }
      NewDirUntouched(m0, free0, m1, free1, m, free, d);
      SpentEnough(|free0|, m, free, d, 0, KernelSlots(kmap, |kmap|));
    }

    /** The loop body of setupkvm. */
    method MapRow(d: nat, i: nat, ghost had: nat) returns (ok: bool)
      requires Sound(m, free, lo, d) && KmapOk(kmap) && i < |kmap| && KernelOnly(m, d, kmap, i)
      requires Spent(had, m, free, d, 0, KernelSlots(kmap, i))
      modifies this`m, this`free
      ensures Sound(m, free, lo, d) && Total(m, free, d) == old(Total(m, free, d)) && Grew(old(m), old(free), m, free, d)
      ensures ok ==> KernelOnly(m, d, kmap, i + 1) && Spent(had, m, free, d, 0, KernelSlots(kmap, i + 1))
      ensures !ok ==> had < 1 + |KernelSlots(kmap, |kmap|)|
    {
      hide Pte, Pde, Tab, Tables, Sound, Owned, Elements, KernelPte, Grew, Slots, Slot, SlotsOf, Took, Missing, Spent, KernelSlots;
      ghost var m2, free2 := m, free;
      var r := kmap[i];
      NotYet(kmap, i);
      ghost var k;
      ok, k := MapPages(d, r.va, r.size, r.pa, r.perm);
      KernelFrames(r.va / PGSIZE, r.pa / PGSIZE, k);
      if ok {
        RowSpent(had, m2, free2, m, free, d, kmap, i);
        MoreKernel(m2, m, d, kmap, i);
      } else {
        RowTooMuch(had, m2, free2, d, kmap, i);
      }
    }

    /** A copy of an address space up to size sz; 0, and everything given back, if memory runs out. */
    method Copyuvm(d0: nat, sz: nat) returns (d: nat)
      requires Sound(m, free, lo, d0) && KmapOk(kmap) && sz <= KERNBASE
      requires forall v: nat :: v < PageUp(sz) ==> Present(Pte(m, d0, v))
      modifies this`m, this`free
      ensures d == 0 ==> FreeList(m, free, lo) && Elements(free) == old(Elements(free))
      ensures d != 0 ==> Sound(m, free, lo, d) && Total(m, free, d) == old(Elements(free)) && Owned(m, d) !! Owned(m, d0)
      ensures d != 0 ==> Copied(old(m), d0, m, d, kmap, PageUp(sz))
      ensures Sound(m, free, lo, d0) && SameMap(old(m), m, d0) && Untouched(old(m), m, old(Elements(free)))
      ensures d != 0 <==> old(|free|) >= 1 + PageUp(sz) + |SpaceSlots(kmap, PageUp(sz))|
      ensures d != 0 ==> Spent(old(|free|), m, free, d, PageUp(sz), SpaceSlots(kmap, PageUp(sz)))
    {
      hide Pte, Pde, Sound, Owned, Elements, KernelPte, Copied, Grew, Spent, SpaceSlots, KernelSlots, Slots;
      ghost var m0, free0 := m, free;
      SoundFreeList(m, free, lo, d0);
      d := Setupkvm();
      SpaceGrows(kmap, 0, PageUp(sz));
      if d == 0 {
        Bystander(m0, free0, m, free, lo, d0);
        return;
      }
      CopiedNothing(m0, d0, m, d, kmap);
      var i := 0;
      while i < sz
        invariant i % PGSIZE == 0 && i / PGSIZE <= PageUp(sz)
        invariant Sound(m, free, lo, d) && Total(m, free, d) == Elements(free0) && Untouched(m0, m, Elements(free0))
        invariant Copied(m0, d0, m, d, kmap, i / PGSIZE)
        invariant Spent(|free0|, m, free, d, i / PGSIZE, SpaceSlots(kmap, i / PGSIZE))
      {
        var ok := CopyPage(d0, d, i, m0, free0);
        if !ok {
          SpaceGrows(kmap, i / PGSIZE + 1, PageUp(sz));
          Freevm(d);
          Bystander(m0, free0, m, free, lo, d0);
          return 0;
        }
        i := i + PGSIZE;
      }
      SpentEnough(|free0|, m, free, d, PageUp(sz), SpaceSlots(kmap, PageUp(sz)));
      SoundFreeList(m, free, lo, d);
      ElementsOfTotal(m, free, d);
      Bystander(m0, free0, m, free, lo, d0);
      Separate(m0, free0, m, free, lo, d0, d);
    }

    /** The loop body of copyuvm. */
    method CopyPage(d0: nat, d: nat, i: nat, ghost m0: Memory, ghost free0: seq<nat>) returns (ok: bool)
      requires Sound(m0, free0, lo, d0) && KmapOk(kmap) && i % PGSIZE == 0 && i < KERNBASE
      requires forall v: nat :: v <= i / PGSIZE ==> Present(Pte(m0, d0, v))
      requires Sound(m, free, lo, d) && Total(m, free, d) == Elements(free0) && Untouched(m0, m, Elements(free0))
      requires Copied(m0, d0, m, d, kmap, i / PGSIZE)
      requires Spent(|free0|, m, free, d, i / PGSIZE, SpaceSlots(kmap, i / PGSIZE))
      modifies this`m, this`free
      ensures Sound(m, free, lo, d) && Total(m, free, d) == Elements(free0) && Untouched(m0, m, Elements(free0))
      ensures ok ==> Copied(m0, d0, m, d, kmap, i / PGSIZE + 1)
      ensures ok ==> Spent(|free0|, m, free, d, i / PGSIZE + 1, SpaceSlots(kmap, i / PGSIZE + 1))
      ensures !ok ==> |free0| < 1 + (i / PGSIZE + 1) + |SpaceSlots(kmap, i / PGSIZE + 1)|
    {
      hide Pte, Pde, Tab, Tables, Sound, Owned, Elements, KernelPte, Copied, Grew, Untouched, Slots, Slot, SlotsOf, Took, Missing, Spent, SpaceSlots, Mapped;
      ghost var m1, free1, v := m, free, i / PGSIZE;
      SoundFreeList(m, free, lo, d);
      ElementsOfTotal(m, free, d);
      Bystander(m0, free0, m, free, lo, d0);
      var t := Walk(d0, i / PGSIZE, false);
      assert Present(Pte(m0, d0, v));
      if t == 0 {
        NoTable(m, m, d0, v, 0, 0);
        assert false;
      }
      WalkEntry(m, free, lo, d0, v);
      var e := m[t][i / PGSIZE % ENTRIES];
      PageFrame(m, free, lo, d0, v);
      PageOwned(m0, d0, v);
      var mem := Kalloc();
      if mem == 0 {
        NoPage(|free0|, m, free, d, kmap, v);
        return false;
      }
      TakeFrame(m1, free1, free, lo, d, mem, m[e.frame]);
      m := m[mem := m[e.frame]];
      ghost var m2, free2 := m, free;
      OneFrame(v, mem, m, d);
      CopiedRest(m0, d0, m1, d, kmap, v);
      ghost var k;
      ok, k := MapPages(d, i, PGSIZE, mem * PGSIZE, e.flags);
      if !ok {
        PageTooMuch(|free0|, m1, mem, free2, m2, d, kmap, v);
        FreeLoose(m, free, lo, d, mem);
        Kfree(mem);
        FailedUntouched(m0, free0, m1, free1, m2, m, d, mem);
        return;
      }
      GrewTransitive(m1, free1, m2, free2, m, free, d);
      GrewUntouched(m0, free0, m1, free1, m, free, d);
      CopiedStep(m0, d0, m1, free1, m2, free2, m, free, lo, d, v, mem, kmap);
      PageSpent(|free0|, m1, mem, free2, m2, m, free, d, kmap, v);
    }
  }

  /** Copying an address space and freeing the copy restores the free set, and does the original no harm. */
  method CopyThenFree(vm: Vm, d0: nat, sz: nat)
    requires Sound(vm.m, vm.free, vm.lo, d0) && KmapOk(vm.kmap) && sz <= KERNBASE
    requires forall v: nat :: v < PageUp(sz) ==> Present(Pte(vm.m, d0, v))
    modifies vm
    ensures Elements(vm.free) == old(Elements(vm.free))
    ensures Sound(vm.m, vm.free, vm.lo, d0) && SameMap(old(vm.m), vm.m, d0) && forall f :: f in old(Owned(vm.m, d0)) ==> f < |vm.m| && vm.m[f] == old(vm.m)[f]
  {
    hide Pte, Pde, Sound, Owned, Elements, Copied, KmapOk;
    ghost var m0, free0 := vm.m, vm.free;
    var d := vm.Copyuvm(d0, sz);
    if d != 0 {
      vm.Freevm(d);
    }
    Bystander(m0, free0, vm.m, vm.free, vm.lo, d0);
  }

  /** The first n pages hold what the original's do, with the same flags; the rest of the map is the kernel's. */
  ghost predicate Copied(m0: Memory, d0: nat, m: Memory, d: nat, kmap: seq<Range>, n: nat)
    requires KmapOk(kmap)
  {
    && (forall v: nat :: v < n && v < UPAGES ==> CopiedPage(m0, Pte(m0, d0, v), m, Pte(m, d, v)))
    && (forall v: nat :: n <= v < VPAGES ==> Pte(m, d, v) == KernelPte(kmap, |kmap|, v))
  }

  ghost predicate CopiedPage(m0: Memory, e0: Entry, m: Memory, e: Entry) {
    e.flags == e0.flags && e0.frame < |m0| && e.frame < |m| && m[e.frame] == m0[e0.frame]
  }

  lemma CopiedNothing(m0: Memory, d0: nat, m: Memory, d: nat, kmap: seq<Range>)
    requires KmapOk(kmap) && KernelOnly(m, d, kmap, |kmap|)
    ensures Copied(m0, d0, m, d, kmap, 0)
  {
  }

  lemma CopiedRest(m0: Memory, d0: nat, m: Memory, d: nat, kmap: seq<Range>, n: nat)
    requires KmapOk(kmap) && Copied(m0, d0, m, d, kmap, n) && n < UPAGES
    ensures !Present(Pte(m, d, n))
  {
    NotKernel(kmap, |kmap|, n);
  }

  lemma {:induction false} NotKernel(kmap: seq<Range>, n: nat, v: nat)
    requires KmapOk(kmap) && n <= |kmap| && v < UPAGES
    ensures KernelPte(kmap, n, v) == Entry(0, 0)
  {
    if n > 0 {
      NotKernel(kmap, n - 1, v);
    }
  }

  lemma CopiedStep(m0: Memory, d0: nat, m1: Memory, f1: seq<nat>, m2: Memory, f2: seq<nat>, m3: Memory, f3: seq<nat>,
                   lo: nat, d: nat,
                   v: nat, f: nat, kmap: seq<Range>)
    requires KmapOk(kmap) && Copied(m0, d0, m1, d, kmap, v) && v < UPAGES && Sound(m1, f1, lo, d) && Sound(m2, f2, lo, d)
    requires forall u: nat :: u <= v ==> Present(Pte(m0, d0, u))
    requires var g := Pte(m0, d0, v).frame; g < |m1| && g < |m0| && f < |m1| && m1[g] == m0[g] && m2 == m1[f := m1[g]]
    requires f1 == [f] + f2 && SameMap(m1, m2, d) && Loose(m2, f2, lo, d, f)
    requires Grew(m2, f2, m3, f3, d) && Mapped(m2, m3, d, v, 1, f, Pte(m0, d0, v).flags)
    ensures Copied(m0, d0, m3, d, kmap, v + 1)
  {
    hide Pte, Pde, KernelPte;
    SameMapOwned(m1, m2, d);
    OwnedParts(m2, d);
    TakenNotFree(m2, f2, lo, f);
    forall u: nat | u < v
      ensures CopiedPage(m0, Pte(m0, d0, u), m3, Pte(m3, d, u))
    {
      assert CopiedPage(m0, Pte(m0, d0, u), m1, Pte(m1, d, u));
      StillThere(m1, f1, m2, f2, m3, f3, lo, d, u, f);
    }
  }

  lemma ElementsOfTotal(m: Memory, free: seq<nat>, d: nat)
    ensures Elements(free) <= Total(m, free, d)
  {
  }

  lemma GrewUntouched(m0: Memory, f0: seq<nat>, m1: Memory, f1: seq<nat>, m2: Memory, f2: seq<nat>, d: nat)
    requires Untouched(m0, m1, Elements(f0)) && Total(m1, f1, d) <= Elements(f0) && Grew(m1, f1, m2, f2, d)
    ensures Untouched(m0, m2, Elements(f0))
  {
    OwnedParts(m1, d);
    hide Owned;
  }

  lemma FailedUntouched(m0: Memory, f0: seq<nat>, m1: Memory, f1: seq<nat>, m2: Memory, m3: Memory, d: nat, f: nat)
    requires Untouched(m0, m1, Elements(f0)) && Total(m1, f1, d) <= Elements(f0) && f in Elements(f1) && f < |m1| == |m2|
    requires (forall g: nat :: g < |m1| && g != f ==> m2[g] == m1[g]) && m3 == m2[f := Junk()]
    ensures Untouched(m0, m3, Elements(f0))
  {
    hide Owned;
  }

  lemma PageOwned(m: Memory, d: nat, v: nat)
    requires v < UPAGES && Present(Pte(m, d, v))
    ensures Pte(m, d, v).frame in Owned(m, d)
  {
    OwnedParts(m, d);
  }

  lemma Separate(m0: Memory, f0: seq<nat>, m: Memory, free: seq<nat>, lo: nat, d0: nat, d: nat)
    requires Sound(m0, f0, lo, d0) && Total(m, free, d) == Elements(f0) && SameMap(m0, m, d0)
    ensures Owned(m, d) !! Owned(m, d0)
  {
    OwnedNotFree(m0, f0, lo, d0);
    SameMapOwned(m0, m, d0);
    assert Owned(m, d) <= Total(m, free, d);
  }

  /** An address space is not affected by what is done with frames that were free. */
  lemma Bystander(m0: Memory, f0: seq<nat>, m: Memory, free: seq<nat>, lo: nat, d: nat)
    requires Sound(m0, f0, lo, d) && Untouched(m0, m, Elements(f0)) && FreeList(m, free, lo) && Elements(free) <= Elements(f0)
    ensures Sound(m, free, lo, d) && SameMap(m0, m, d)
    ensures forall f :: f in Owned(m0, d) ==> f < |m0| && m[f] == m0[f]
  {
    OwnedNotFree(m0, f0, lo, d);
    OwnedParts(m0, d);
    BystanderMap(m0, f0, m, lo, d);
    hide Pte, Pde, Owned, Elements;
    SameMapSound(m0, f0, m, free, lo, d);
  }

  lemma BystanderMap(m0: Memory, f0: seq<nat>, m: Memory, lo: nat, d: nat)
    requires Sound(m0, f0, lo, d) && Untouched(m0, m, Elements(f0))
    ensures SameMap(m0, m, d)
  {
    TakenNotFree(m0, f0, lo, d);
    forall x: nat | x < ENTRIES && Present(Pde(m0, d, x))
      ensures TableOk(m0, f0, lo, d, x) && Tab(m0, d, x) !in Elements(f0)
    {
      assert TableOk(m0, f0, lo, d, x);
      TakenNotFree(m0, f0, lo, Tab(m0, d, x));
    }
    forall v: nat | v < VPAGES
      ensures Pte(m, d, v) == Pte(m0, d, v)
    {
      OnePage(v, v);
      var x := v / ENTRIES;
      assert Pde(m, d, x) == Pde(m0, d, x);
    }
  }

  /** A row of the kernel's map. */
  datatype Range = Range(va: nat, size: nat, pa: nat, perm: nat)

  predicate Covers(r: Range, v: nat)
    requires r.va + r.size > 0
  {
    r.va / PGSIZE <= v <= (r.va + r.size - 1) / PGSIZE
  }

  ghost predicate KmapOk(kmap: seq<Range>) {
    && (forall i :: 0 <= i < |kmap| ==>
          KERNBASE <= kmap[i].va && kmap[i].size > 0 && kmap[i].va + kmap[i].size <= VPAGES * PGSIZE && kmap[i].pa % PGSIZE == 0)
    && (forall i, j, v: nat :: 0 <= i < j < |kmap| ==> !(Covers(kmap[i], v) && Covers(kmap[j], v)))
  }

  /** What the first n rows map page v to. */
  function KernelPte(kmap: seq<Range>, n: nat, v: nat): Entry
    requires n <= |kmap| && forall i :: 0 <= i < |kmap| ==> kmap[i].size > 0
  {
    if n == 0 then Entry(0, 0)
    else
      var r := kmap[n - 1];
      if Covers(r, v) then Entry1(r.pa / PGSIZE + (v - r.va / PGSIZE), r.perm) else KernelPte(kmap, n - 1, v)
  }

  /** The pages of a row. */
  function RowPages(r: Range): nat
    requires r.size > 0
  {
    (r.va + r.size - 1) / PGSIZE - r.va / PGSIZE + 1
  }

  /** The directory slots of the first n rows. */
  ghost function KernelSlots(kmap: seq<Range>, n: nat): set<nat>
    requires n <= |kmap| && forall i :: 0 <= i < |kmap| ==> kmap[i].size > 0
  {
    if n == 0 then {} else KernelSlots(kmap, n - 1) + SlotsOf(kmap[n - 1].va / PGSIZE, RowPages(kmap[n - 1]))
  }

  lemma KernelSlotsGrow(kmap: seq<Range>, i: nat)
    requires KmapOk(kmap) && i < |kmap|
    ensures KernelSlots(kmap, i + 1) == KernelSlots(kmap, i) + SlotsOf(kmap[i].va / PGSIZE, RowPages(kmap[i]))
    ensures |KernelSlots(kmap, i + 1)| <= |KernelSlots(kmap, |kmap|)|
  {
    KernelSlotsMore(kmap, i + 1, |kmap|);
    SubsetSize(KernelSlots(kmap, i + 1), KernelSlots(kmap, |kmap|));
  }

  lemma {:induction false} KernelSlotsMore(kmap: seq<Range>, i: nat, n: nat)
    requires KmapOk(kmap) && i <= n <= |kmap|
    ensures KernelSlots(kmap, i) <= KernelSlots(kmap, n)
  {
    if i < n {
      KernelSlotsMore(kmap, i, n - 1);
    }
  }

  lemma RowSpent(had: nat, m: Memory, free: seq<nat>, m': Memory, free': seq<nat>, d: nat, kmap: seq<Range>, i: nat)
    requires KmapOk(kmap) && i < |kmap| && Spent(had, m, free, d, 0, KernelSlots(kmap, i))
    requires Took(m, free, m', free', d, SlotsOf(kmap[i].va / PGSIZE, RowPages(kmap[i])))
    ensures Spent(had, m', free', d, 0, KernelSlots(kmap, i + 1))
  {
    SpentMapping(had, m, free, m', free', d, 0, KernelSlots(kmap, i), kmap[i].va / PGSIZE, RowPages(kmap[i]));
    KernelSlotsGrow(kmap, i);
  }

  lemma RowTooMuch(had: nat, m: Memory, free: seq<nat>, d: nat, kmap: seq<Range>, i: nat)
    requires KmapOk(kmap) && i < |kmap| && Spent(had, m, free, d, 0, KernelSlots(kmap, i))
    requires |free| < Missing(m, d, kmap[i].va / PGSIZE, RowPages(kmap[i]))
    ensures had < 1 + |KernelSlots(kmap, |kmap|)|
  {
    SpentTooMuch(had, m, free, d, 0, KernelSlots(kmap, i), kmap[i].va / PGSIZE, RowPages(kmap[i]));
    KernelSlotsGrow(kmap, i);
  }

  lemma PageSpent(had: nat, m1: Memory, f: nat, f2: seq<nat>, m2: Memory, m3: Memory, f3: seq<nat>, d: nat, kmap: seq<Range>,
                  v: nat)
    requires KmapOk(kmap) && Spent(had, m1, [f] + f2, d, v, SpaceSlots(kmap, v)) && SameMap(m1, m2, d)
    requires Took(m2, f2, m3, f3, d, SlotsOf(v, 1))
    ensures Spent(had, m3, f3, d, v + 1, SpaceSlots(kmap, v + 1))
  {
    hide Took, Spent, Pte, Slots, KernelSlots;
    SpentPage(had, m1, f, f2, m2, d, v, SpaceSlots(kmap, v));
    SpentMapping(had, m2, f2, m3, f3, d, v + 1, SpaceSlots(kmap, v), v, 1);
    SpaceGrows(kmap, v, v + 1);
  }

  lemma PageTooMuch(had: nat, m1: Memory, f: nat, f2: seq<nat>, m2: Memory, d: nat, kmap: seq<Range>, v: nat)
    requires KmapOk(kmap) && Spent(had, m1, [f] + f2, d, v, SpaceSlots(kmap, v)) && SameMap(m1, m2, d)
    requires |f2| < Missing(m2, d, v, 1)
    ensures had < 1 + (v + 1) + |SpaceSlots(kmap, v + 1)|
  {
    hide Spent, Pte, Slots, KernelSlots, Missing;
    SpentPage(had, m1, f, f2, m2, d, v, SpaceSlots(kmap, v));
    SpentTooMuch(had, m2, f2, d, v + 1, SpaceSlots(kmap, v), v, 1);
    SpaceGrows(kmap, v, v + 1);
  }

  lemma NoPage(had: nat, m: Memory, free: seq<nat>, d: nat, kmap: seq<Range>, v: nat)
    requires KmapOk(kmap) && Spent(had, m, free, d, v, SpaceSlots(kmap, v)) && free == []
    ensures had < 1 + (v + 1) + |SpaceSlots(kmap, v + 1)|
  {
    hide SpaceSlots, Slots, KernelSlots;
    SpaceGrows(kmap, v, v + 1);
  }

  lemma SpentDirectory(free0: seq<nat>, m: Memory, free: seq<nat>, d: nat, kmap: seq<Range>)
    requires free0 == [d] + free && Tables(m, d) == {} && KmapOk(kmap)
    ensures Spent(|free0|, m, free, d, 0, KernelSlots(kmap, 0))
  {
    assert forall x: nat :: x < ENTRIES && Tab(m, d, x) != 0 ==> Tab(m, d, x) in Tables(m, d);
    assert Slots(m, d) == {};
  }

  /** Growing by k pages from v on has taken a frame for each, and one for each table that was missing. */
  ghost predicate Growing(m0: Memory, f0: seq<nat>, m: Memory, free: seq<nat>, d: nat, v: nat, k: nat) {
    Spent(|f0| + 1 + |Slots(m0, d)|, m, free, d, k, Slots(m0, d) + SlotsOf(v, k))
  }

  lemma GrowthStart(m: Memory, free: seq<nat>, d: nat, v: nat)
    ensures Growing(m, free, m, free, d, v, 0)
  {
    hide Slots;
    assert Slots(m, d) + SlotsOf(v, 0) == Slots(m, d);
  }

  lemma GrowthNone(slots: set<nat>, v: nat)
    ensures slots + SlotsOf(v, 0) == slots
  {
  }

  lemma NextSlot(slots: set<nat>, v: nat, k: nat)
    ensures slots + SlotsOf(v, k) + SlotsOf(v + k, 1) == slots + SlotsOf(v, k + 1)
  {
    assert SlotsOf(v + k, 1) == SlotsOf(v + k, 0) + {Slot(v + k)};
  }

  lemma GrowthStep(m0: Memory, f0: seq<nat>, m1: Memory, f: nat, f2: seq<nat>, m2: Memory, m3: Memory, f3: seq<nat>, d: nat,
                   v: nat, k: nat)
    requires Growing(m0, f0, m1, [f] + f2, d, v, k) && SameMap(m1, m2, d) && Took(m2, f2, m3, f3, d, SlotsOf(v + k, 1))
    ensures Growing(m0, f0, m3, f3, d, v, k + 1)
  {
    hide Pte, Slots, SlotsOf, Took, Spent;
    var had, slots := |f0| + 1 + |Slots(m0, d)|, Slots(m0, d) + SlotsOf(v, k);
    SpentPage(had, m1, f, f2, m2, d, k, slots);
    SpentMapping(had, m2, f2, m3, f3, d, k + 1, slots, v + k, 1);
    NextSlot(Slots(m0, d), v, k);
  }

  lemma GrowthNoFrame(m0: Memory, f0: seq<nat>, m: Memory, d: nat, v: nat, k: nat, n: nat)
    requires Growing(m0, f0, m, [], d, v, k) && k < n
    ensures |f0| < n + Missing(m0, d, v, n)
  {
    hide Slots, SlotsOf;
    SlotsGrow(Slots(m0, d), v, k, n);
    UnionSize(Slots(m0, d), SlotsOf(v, n));
  }

  lemma GrowthNoTable(m0: Memory, f0: seq<nat>, m1: Memory, f: nat, f2: seq<nat>, m2: Memory, d: nat, v: nat, k: nat, n: nat)
    requires Growing(m0, f0, m1, [f] + f2, d, v, k) && SameMap(m1, m2, d) && |f2| < Missing(m2, d, v + k, 1) && k < n
    ensures |f0| < n + Missing(m0, d, v, n)
  {
    hide Pte, Slots, SlotsOf, Spent;
    var had, slots := |f0| + 1 + |Slots(m0, d)|, Slots(m0, d) + SlotsOf(v, k);
    SpentPage(had, m1, f, f2, m2, d, k, slots);
    SpentTooMuch(had, m2, f2, d, k + 1, slots, v + k, 1);
    NextSlot(Slots(m0, d), v, k);
    SlotsGrow(Slots(m0, d), v, k + 1, n);
    UnionSize(Slots(m0, d), SlotsOf(v, n));
  }

  lemma GrowthDone(m: Memory, free: seq<nat>, m': Memory, free': seq<nat>, d: nat, v: nat, n: nat)
    requires Growing(m, free, m', free', d, v, n)
    ensures |free| >= n + Missing(m, d, v, n)
  {
    hide Slots, SlotsOf;
    UnionSize(Slots(m, d), SlotsOf(v, n));
  }

  lemma SpaceGrows(kmap: seq<Range>, n: nat, n': nat)
    requires KmapOk(kmap) && n <= n'
    ensures |SpaceSlots(kmap, n)| <= |SpaceSlots(kmap, n')|
    ensures SpaceSlots(kmap, 0) == KernelSlots(kmap, |kmap|)
    ensures n' == n + 1 ==> SpaceSlots(kmap, n') == SpaceSlots(kmap, n) + SlotsOf(n, 1)
  {
    SlotsGrow(KernelSlots(kmap, |kmap|), 0, n, n');
    NextSlot(KernelSlots(kmap, |kmap|), 0, n);
    GrowthNone(KernelSlots(kmap, |kmap|), 0);
    hide KernelSlots, SlotsOf, KmapOk;
  }

  lemma SpentEnough(had: nat, m: Memory, free: seq<nat>, d: nat, pages: nat, slots: set<nat>)
    requires Spent(had, m, free, d, pages, slots)
    ensures had >= 1 + pages + |slots| && (free == [] ==> had == 1 + pages + |slots|)
  {
  }

  /** The directory slots an address space of n pages needs, the kernel's included. */
  ghost function SpaceSlots(kmap: seq<Range>, n: nat): set<nat>
    requires KmapOk(kmap)
  {
    KernelSlots(kmap, |kmap|) + SlotsOf(0, n)
  }

  ghost predicate KernelOnly(m: Memory, d: nat, kmap: seq<Range>, n: nat)
    requires n <= |kmap| && KmapOk(kmap)
  {
    forall v: nat :: v < VPAGES ==> Pte(m, d, v) == KernelPte(kmap, n, v)
  }

  lemma NoneYet(kmap: seq<Range>)
    requires KmapOk(kmap)
    ensures forall v: nat :: KernelPte(kmap, 0, v) == Entry(0, 0)
  {
  }

  lemma NotYet(kmap: seq<Range>, i: nat)
    requires KmapOk(kmap) && i < |kmap|
    ensures kmap[i].va / PGSIZE >= UPAGES
    ensures forall v: nat :: Covers(kmap[i], v) ==> KernelPte(kmap, i, v) == Entry(0, 0)
  {
    forall v: nat | Covers(kmap[i], v)
      ensures KernelPte(kmap, i, v) == Entry(0, 0)
    {
      NotYetAt(kmap, i, i, v);
    }
  }

  lemma {:induction false} NotYetAt(kmap: seq<Range>, i: nat, n: nat, v: nat)
    requires KmapOk(kmap) && n <= i < |kmap| && Covers(kmap[i], v)
    ensures KernelPte(kmap, n, v) == Entry(0, 0)
  {
    if n > 0 {
      NotYetAt(kmap, i, n - 1, v);
    }
  }

  lemma {:induction false} KernelFrames(v: nat, frame: nat, k: nat)
    requires v >= UPAGES
    ensures UserFrames(v, frame, k) == {}
  {
    if k > 0 {
      KernelFrames(v, frame, k - 1);
    }
  }

  lemma MoreKernel(m: Memory, m': Memory, d: nat, kmap: seq<Range>, i: nat)
    requires KmapOk(kmap) && i < |kmap| && KernelOnly(m, d, kmap, i)
    requires var r := kmap[i];
             Mapped(m, m', d, r.va / PGSIZE, (r.va + r.size - 1) / PGSIZE - r.va / PGSIZE + 1, r.pa / PGSIZE, r.perm)
    ensures KernelOnly(m', d, kmap, i + 1)
  {
    hide Pte;
  }

  lemma NewDir(m: Memory, free: seq<nat>, free': seq<nat>, lo: nat, d: nat)
    requires FreeList(m, free, lo) && free == [d] + free'
    ensures d < |m| && var m' := m[d := Zeroes()];
            && Sound(m', free', lo, d) && Tables(m', d) == {} && Total(m', free', d) == Elements(free)
            && forall v: nat :: v < VPAGES ==> Pte(m', d, v) == Entry(0, 0)
  {
    FreeTail(m, free', lo, d);
    assert free[0] == d;
    var m' := m[d := Zeroes()];
    assert forall x: nat :: x < ENTRIES ==> Pde(m', d, x) == Entry(0, 0);
    forall v: nat | v < VPAGES
      ensures Pte(m', d, v) == Entry(0, 0)
    {
      OnePage(v, v);
    }
  }

  lemma NewDirUntouched(m0: Memory, f0: seq<nat>, m1: Memory, f1: seq<nat>, m2: Memory, f2: seq<nat>, d: nat)
    requires f0 == [d] + f1 && d < |m0| && m1 == m0[d := Zeroes()] && Tables(m1, d) == {} && Grew(m1, f1, m2, f2, d)
    ensures Untouched(m0, m2, Elements(f0))
  {
    ElementsCons(d, f1);
  }

  lemma OneFrame(v: nat, f: nat, m: Memory, d: nat)
    requires v < UPAGES
    ensures v * PGSIZE / PGSIZE == v && (v * PGSIZE + PGSIZE - 1) / PGSIZE == v && f * PGSIZE / PGSIZE == f
    ensures f * PGSIZE % PGSIZE == 0
    ensures UserFrames(v, f, 1) == {f} && UserFrames(v, f, 0) == {}
  {
    assert UserFrames(v, f, 1) == UserFrames(v, f, 0) + {f};
  }

  lemma NotTotalLoose(m: Memory, free: seq<nat>, lo: nat, d: nat, f: nat)
    requires lo <= f < |m| && f !in Total(m, free, d)
    ensures Loose(m, free, lo, d, f)
  {
    hide Owned;
    assert forall i :: 0 <= i < |free| ==> free[i] in Elements(free);
  }

  lemma NewPagesStep(m0: Memory, m1: Memory, f1: seq<nat>, m2: Memory, f2: seq<nat>, m3: Memory, f3: seq<nat>, lo: nat,
                     d: nat, v: nat, w: nat, f: nat)
    requires NewPages(m0, m1, d, v, w) && v <= w < UPAGES && Sound(m1, f1, lo, d) && Sound(m2, f2, lo, d)
    requires f1 == [f] + f2 && f < |m1| && m2 == m1[f := Zeroes()] && SameMap(m1, m2, d) && Loose(m2, f2, lo, d, f)
    requires Grew(m2, f2, m3, f3, d) && Mapped(m2, m3, d, w, 1, f, PTE_W + PTE_U)
    ensures NewPages(m0, m3, d, v, w + 1)
  {
    hide Pte, Pde;
    SameMapOwned(m1, m2, d);
    OwnedParts(m2, d);
    TakenNotFree(m2, f2, lo, f);
    forall u: nat | v <= u < w
      ensures NewPage(m3, Pte(m3, d, u))
    {
      assert NewPage(m1, Pte(m1, d, u));
      StillThere(m1, f1, m2, f2, m3, f3, lo, d, u, f);
    }
  }

  /** Mapping a frame fresh from the free list does not change what another page holds. */
  lemma StillThere(m1: Memory, f1: seq<nat>, m2: Memory, f2: seq<nat>, m3: Memory, f3: seq<nat>, lo: nat, d: nat,
                   u: nat, f: nat)
    requires Sound(m1, f1, lo, d) && Sound(m2, f2, lo, d) && u < UPAGES && Present(Pte(m1, d, u))
    requires f1 == [f] + f2 && f < |m1| && |m2| == |m1| && SameMap(m1, m2, d) && Grew(m2, f2, m3, f3, d)
    requires forall g: nat :: g < |m1| && g != f ==> m2[g] == m1[g]
    ensures var g := Pte(m1, d, u).frame; g < |m1| && |m3| == |m1| && m3[g] == m1[g]
  {
    hide Pte, Pde;
    assert PageOk(m1, f1, lo, d, u) && PageOk(m2, f2, lo, d, u);
    TakenNotFree(m2, f2, lo, Pte(m2, d, u).frame);
    assert f1[0] == f;
  }

  lemma GivenBack(m1: Memory, f1: seq<nat>, m2: Memory, f2: seq<nat>, m3: Memory, f3: seq<nat>, m4: Memory, d: nat, f: nat)
    requires f1 == [f] + f2 && f < |m1| && m2 == m1[f := Zeroes()] && SameMap(m1, m2, d)
    requires Shed(m2, f2, m3, f3, d) && |m3| == |m2| && m4 == m3[f := Junk()] && SameMap(m3, m4, d)
    ensures Shed(m1, f1, m4, [f] + f3, d)
  {
    hide Pte, Pde;
    SameMapOwned(m1, m2, d);
    SameMapOwned(m3, m4, d);
    assert Elements([f] + f3) == {f} + Elements(f3) by { ElementsCons(f, f3); }
    ElementsCons(f, f2);
  }

  /** The pages from v to w are new: writable user pages filled with zeroes. The others are as before. */
  ghost predicate NewPages(m: Memory, m': Memory, d: nat, v: nat, w: nat) {
    forall u: nat :: u < VPAGES ==>
      if v <= u < w then NewPage(m', Pte(m', d, u)) else Pte(m', d, u) == Pte(m, d, u)
  }

  ghost predicate NewPage(m: Memory, e: Entry) {
    e.flags == 1 + PTE_W + PTE_U && e.frame < |m| && m[e.frame] == Zeroes()
  }

  /** The same pages are mapped, to the same frames. */
  ghost predicate SameMappings(m: Memory, m': Memory, d: nat) {
    forall u: nat :: u < VPAGES ==> (Present(Pte(m', d, u)) <==> Present(Pte(m, d, u))) && (Present(Pte(m, d, u)) ==> Pte(m', d, u) == Pte(m, d, u))
  }

  lemma SoundFreeList(m: Memory, free: seq<nat>, lo: nat, d: nat)
    requires Sound(m, free, lo, d)
    ensures FreeList(m, free, lo)
  {
  }

  /** Taking a frame off the free list and filling it. */
  lemma TakeFrame(m: Memory, free: seq<nat>, free': seq<nat>, lo: nat, d: nat, f: nat, data: Frame)
    requires Sound(m, free, lo, d) && free == [f] + free'
    ensures f < |m| && var m' := m[f := data];
            && Sound(m', free', lo, d) && SameMap(m, m', d) && Owned(m', d) == Owned(m, d) && Loose(m', free', lo, d, f)
            && Grew(m, free, m', free', d) && Elements(free) == {f} + Elements(free')
  {
    hide Pte, Pde, Owned;
    FreeTail(m, free', lo, f);
    OwnedNotFree(m, free, lo, d);
    OwnedParts(m, d);
    assert free[0] == f;
    WriteFrame(m, d, f, data);
    var m' := m[f := data];
    SameMapSound(m, free, m', free', lo, d);
    SameMapOwned(m, m', d);
  }

  /** Undoing a failed growth. */
  lemma AllocFailed(m0: Memory, f0: seq<nat>, m1: Memory, f1: seq<nat>, m2: Memory, f2: seq<nat>, lo: nat, d: nat,
                    v: nat, w: nat, x: nat)
    requires Sound(m0, f0, lo, d) && Sound(m2, f2, lo, d) && Total(m0, f0, d) == Total(m2, f2, d)
    requires Grew(m0, f0, m1, f1, d) && NewPages(m0, m1, d, v, w) && Unmapped(m1, m2, d, v, x) && Shed(m1, f1, m2, f2, d)
    requires v <= w <= x <= UPAGES
    requires forall u: nat :: v <= u < x ==> !Present(Pte(m0, d, u))
    ensures SameMappings(m0, m2, d) && Elements(f2) + (Tables(m2, d) - Tables(m0, d)) == Elements(f0)
    ensures Grew(m0, f0, m2, f2, d)
  {
    hide Pte, Pde;
  }

  /** Only the frames of a set have been written. */
  ghost predicate Untouched(m: Memory, m': Memory, but: set<nat>) {
    |m'| == |m| && forall f: nat :: f < |m| && f !in but ==> m'[f] == m[f]
  }

  ghost function TablesBelow(m: Memory, d: nat, i: nat): set<nat> {
    set x: nat | x < i && Tab(m, d, x) != 0 :: Tab(m, d, x)
  }

  lemma NoTables(m: Memory, d: nat)
    ensures TablesBelow(m, d, 0) == {} && TablesBelow(m, d, ENTRIES) == Tables(m, d)
  {
  }

  lemma NextTable(m: Memory, free: seq<nat>, lo: nat, d: nat, i: nat)
    requires Sound(m, free, lo, d) && i < ENTRIES
    ensures TablesBelow(m, d, i + 1) == TablesBelow(m, d, i) + if Present(m[d][i]) then {m[d][i].frame} else {}
    ensures Present(m[d][i]) ==> lo <= m[d][i].frame < |m| && m[d][i].frame != d
    ensures Present(m[d][i]) ==> m[d][i].frame !in Elements(free) + TablesBelow(m, d, i)
    ensures d !in Elements(free) + TablesBelow(m, d, i + 1)
  {
    hide Pte, Elements;
    forall x: nat | x <= i && Present(Pde(m, d, x))
      ensures lo <= Tab(m, d, x) < |m| && Tab(m, d, x) != d && (x < i ==> Tab(m, d, x) != Tab(m, d, i))
    {
      assert TableOk(m, free, lo, d, x);
    }
    assert Pde(m, d, i) == m[d][i];
    var low, high := TablesBelow(m, d, i), TablesBelow(m, d, i + 1);
    forall f | f in high
      ensures f in low || f == Tab(m, d, i)
    {
    }
    assert Tab(m, d, i) != 0 ==> Tab(m, d, i) in high;
    TakenNotFree(m, free, lo, d);
    if Present(m[d][i]) {
      assert TableOk(m, free, lo, d, i);
      TakenNotFree(m, free, lo, m[d][i].frame);
    }
  }

  lemma TakenNotFree(m: Memory, free: seq<nat>, lo: nat, f: nat)
    requires Taken(m, free, lo, f)
    ensures f !in Elements(free)
  {
  }

  lemma NoPagesLeft(m0: Memory, m: Memory, free: seq<nat>, lo: nat, d: nat)
    requires Unmapped(m0, m, d, PageUp(0), PageUp(KERNBASE))
    ensures Pages(m, d) == {} && Owned(m, d) == {d} + Tables(m, d)
  {
    hide Pte;
  }

  lemma UnmappedNothing(m: Memory, d: nat, v: nat, w: nat)
    requires v >= w
    ensures Unmapped(m, m, d, v, w)
  {
  }

  lemma UnmappedStep(m0: Memory, m1: Memory, m2: Memory, d: nat, v: nat, w: nat)
    requires Unmapped(m0, m1, d, v, w) && Unmapped(m1, m2, d, w, w + 1) && v <= w
    ensures Unmapped(m0, m2, d, v, w + 1)
  {
    hide Pte, Pde;
  }

  /** It makes no difference whether pages that are not mapped count as visited: the skip is as good as visiting them all. */
  lemma UnmappedMore(m: Memory, m': Memory, d: nat, v: nat, w: nat, w': nat)
    requires Unmapped(m, m', d, v, w) && v <= w && v <= w'
    requires forall u: nat :: w <= u < w' && u < VPAGES ==> !Present(Pte(m', d, u))
    requires forall u: nat :: w' <= u < w && u < VPAGES ==> !Present(Pte(m, d, u))
    ensures Unmapped(m, m', d, v, w')
  {
    hide Pte, Pde;
  }

  lemma SkipTable(a: nat)
    requires a % PGSIZE == 0
    ensures var v, b := a / PGSIZE, (a / PGSIZE / ENTRIES + 1) * ENTRIES * PGSIZE - PGSIZE;
            b % PGSIZE == 0 && b / PGSIZE == (v / ENTRIES + 1) * ENTRIES - 1 && v <= b / PGSIZE && a <= b
  {
    var c := (a / PGSIZE / ENTRIES + 1) * ENTRIES - 1;
    assert c * PGSIZE == (a / PGSIZE / ENTRIES + 1) * ENTRIES * PGSIZE - PGSIZE;
    assert c >= a / PGSIZE && a == a / PGSIZE * PGSIZE;
  }

  /** PGROUNDUP, as a page number. */
  function PageUp(a: nat): (v: nat)
    ensures v * PGSIZE >= a && v * PGSIZE < a + PGSIZE
  {
    (a + PGSIZE - 1) / PGSIZE
  }

  /** The pages from v to w are no longer mapped; all other entries, and all tables, are as before. */
  ghost predicate Unmapped(m: Memory, m': Memory, d: nat, v: nat, w: nat) {
    && |m'| == |m|
    && (forall x: nat :: x < ENTRIES ==> Pde(m', d, x) == Pde(m, d, x))
    && (forall u: nat :: u < VPAGES ==> Pte(m', d, u) == if v <= u < w && Present(Pte(m, d, u)) then Entry(0, 0) else Pte(m, d, u))
  }

  /** Frames have been given back; others, but for tables, hold what they did. */
  ghost predicate Shed(m: Memory, free: seq<nat>, m': Memory, free': seq<nat>, d: nat) {
    && Tables(m', d) == Tables(m, d) && Elements(free) <= Elements(free')
    && forall f: nat :: f < |m| && f !in Elements(free') && f !in Tables(m, d) ==> f < |m'| && m'[f] == m[f]
  }

  lemma ShedNothing(m: Memory, free: seq<nat>, d: nat)
    ensures Shed(m, free, m, free, d)
  {
  }

  lemma ShedTransitive(m0: Memory, f0: seq<nat>, m1: Memory, f1: seq<nat>, m2: Memory, f2: seq<nat>, d: nat)
    requires Shed(m0, f0, m1, f1, d) && Shed(m1, f1, m2, f2, d)
    ensures Shed(m0, f0, m2, f2, d)
  {
    hide Tables, Elements;
  }

  /** Without a table, none of its 1024 pages is mapped, nor was before. */
  lemma NoTable(m0: Memory, m: Memory, d: nat, v: nat, a: nat, b: nat)
    requires v < VPAGES && Tab(m, d, v / ENTRIES) == 0 && Unmapped(m0, m, d, a, b)
    ensures forall u: nat :: u / ENTRIES == v / ENTRIES ==> Pte(m, d, u) == Pte(m0, d, u) == Entry(0, 0)
    ensures v < (v / ENTRIES + 1) * ENTRIES
    ensures forall u: nat :: v <= u < (v / ENTRIES + 1) * ENTRIES ==> Pte(m, d, u) == Pte(m0, d, u) == Entry(0, 0)
  {
    OnePage(v, v);
  }

  lemma WalkEntry(m: Memory, free: seq<nat>, lo: nat, d: nat, v: nat)
    requires Sound(m, free, lo, d) && v < VPAGES && Tab(m, d, v / ENTRIES) != 0
    ensures var t := Tab(m, d, v / ENTRIES); t < |m| && Pte(m, d, v) == m[t][v % ENTRIES]
  {
    OnePage(v, v);
    assert TableOk(m, free, lo, d, v / ENTRIES);
  }

  /** Freeing a mapped page and clearing its entry. */
  lemma UnmapFree(m: Memory, free: seq<nat>, lo: nat, d: nat, v: nat)
    requires Sound(m, free, lo, d) && v < UPAGES && Present(Pte(m, d, v))
    ensures var t, f := Tab(m, d, v / ENTRIES), Pte(m, d, v).frame;
            && lo <= f < |m| && 0 != t < |m|
            && var m' := m[f := Junk()][t := m[f := Junk()][t][v % ENTRIES := Entry(0, 0)]];
               && Sound(m', [f] + free, lo, d) && Total(m', [f] + free, d) == Total(m, free, d)
               && Unmapped(m, m', d, v, v + 1) && Shed(m, free, m', [f] + free, d)
  {
    hide Pte, Pde, Sound, Owned, Elements, Tables;
    var t, f := Tab(m, d, v / ENTRIES), Pte(m, d, v).frame;
    PageFrame(m, free, lo, d, v);
    UnmapEntry(m, free, lo, d, v);
    WriteEntry(m, free, lo, d, v, Entry(0, 0));
    var m1 := WithEntry(m, t, v, Entry(0, 0));
    FreeLoose(m1, free, lo, d, f);
    var m2 := m[f := Junk()][t := m[f := Junk()][t][v % ENTRIES := Entry(0, 0)]];
    assert m1[f := Junk()] == m2;
    SameMapOwned(m1, m2, d);
    assert forall g: nat :: g < |m| && g != f && g != t ==> m2[g] == m[g];
    assert f in Elements([f] + free);
  }

  lemma PageFrame(m: Memory, free: seq<nat>, lo: nat, d: nat, v: nat)
    requires Sound(m, free, lo, d) && v < UPAGES && Present(Pte(m, d, v))
    ensures var t, f := Tab(m, d, v / ENTRIES), Pte(m, d, v).frame;
            lo <= f < |m| && 0 != t < |m| && f != t && t in Tables(m, d)
  {
    OnePage(v, v);
    assert PageOk(m, free, lo, d, v) && TableOk(m, free, lo, d, v / ENTRIES);
  }

  lemma GrewNothing(m: Memory, free: seq<nat>, d: nat)
    ensures Grew(m, free, m, free, d)
  {
  }

  lemma NextLoose(m: Memory, free: seq<nat>, m': Memory, free': seq<nat>, lo: nat, d: nat, v: nat, frame: nat, k: nat)
    requires Loose(m, free, lo, d, frame + k) && Grew(m, free, m', free', d)
    requires Total(m', free', d) == Total(m, free, d) + UserFrames(v, frame, k)
    ensures Loose(m', free', lo, d, frame + k)
  {
    hide Owned;
    assert frame + k !in Total(m, free, d);
    assert forall i :: 0 <= i < |free'| ==> free'[i] in Elements(free');
  }

  lemma LooseStays(m: Memory, free: seq<nat>, m': Memory, free': seq<nat>, lo: nat, d: nat, f: nat)
    requires Loose(m, free, lo, d, f) && |m'| == |m| && Elements(free') <= Elements(free)
    requires Total(m', free', d) <= Total(m, free, d)
    ensures Loose(m', free', lo, d, f)
  {
    hide Owned;
    assert f !in Total(m, free, d);
    assert forall i :: 0 <= i < |free'| ==> free'[i] in Elements(free');
  }

  lemma NewTableFrame(m: Memory, d: nat, x: nat, f: nat)
    requires d < |m| && f < |m| && x < ENTRIES && d != f
    ensures |WithTable(m, d, x, f)| == |m|
    ensures forall g: nat :: g < |m| && g != f && g != d ==> WithTable(m, d, x, f)[g] == m[g]
    ensures WithTable(m, d, x, f) == m[f := Zeroes()][d := m[f := Zeroes()][d][x := Entry(f, 1 + PTE_W + PTE_U)]]
  {
  }
}
