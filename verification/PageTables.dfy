/** Page directories in physical memory, and the frames they own. */
module PageTables {
  const ENTRIES: nat := 1024
  const UPAGES: nat := 524288    // user pages: KERNBASE / PGSIZE
  const VPAGES: nat := 1048576   // pages of the whole address space

  /** A word of memory as the paging hardware sees it: PTE_ADDR as a frame number, and PTE_FLAGS. */
  datatype Entry = Entry(frame: nat, flags: nat)

  /** e & PTE_P */
  predicate Present(e: Entry) {
    e.flags % 2 == 1
  }

  /** A frame of memory, as 1024 words. */
  type Frame = s: seq<Entry> | |s| == ENTRIES witness seq(ENTRIES, _ => Entry(0, 0))

  /** All frames; the kernel hands out those from number lo on. */
  type Memory = seq<Frame>

  function Zeroes(): (r: Frame)
    ensures forall k :: 0 <= k < ENTRIES ==> r[k] == Entry(0, 0)
  {
    seq(ENTRIES, _ => Entry(0, 0))
  }

  /** The fill of a freed page: every byte is 1. */
  function Junk(): Frame {
    seq(ENTRIES, _ => Entry(0x01010, 0x101))
  }

  /** Slot x of directory d. */
  function Pde(m: Memory, d: nat, x: nat): Entry {
    if d < |m| && x < ENTRIES then m[d][x] else Entry(0, 0)
  }

  /** The frame of the page table for a slot; 0 if there is none. */
  function Tab(m: Memory, d: nat, x: nat): nat {
    if Present(Pde(m, d, x)) then Pde(m, d, x).frame else 0
  }

  /** The page table entry for virtual page v. */
  function Pte(m: Memory, d: nat, v: nat): Entry {
    var t := Tab(m, d, v / ENTRIES);
    if t == 0 || t >= |m| then Entry(0, 0) else m[t][v % ENTRIES]
  }

  ghost function Elements(s: seq<nat>): set<nat> {
    set i | 0 <= i < |s| :: s[i]
  }

  ghost function Tables(m: Memory, d: nat): set<nat> {
    set x: nat | x < ENTRIES && Tab(m, d, x) != 0 :: Tab(m, d, x)
  }

  /** The frames of the user pages. */
  ghost function Pages(m: Memory, d: nat): set<nat> {
    set v: nat | v < UPAGES && Present(Pte(m, d, v)) :: Pte(m, d, v).frame
  }

  /** The directory slot of page v. */
  function Slot(v: nat): nat {
    v / ENTRIES
  }

  /** The directory slots that have a table. */
  ghost function Slots(m: Memory, d: nat): set<nat> {
    set x: nat | x < ENTRIES && Tab(m, d, x) != 0
  }

  /** Frames have left the free list only for the tables of new slots, which are those in more. */
  ghost predicate Took(m: Memory, free: seq<nat>, m': Memory, free': seq<nat>, d: nat, more: set<nat>) {
    && Slots(m', d) == Slots(m, d) + more
    && |free'| + |Slots(m', d)| == |free| + |Slots(m, d)|
  }

  lemma TookNothing(m: Memory, free: seq<nat>, m': Memory, d: nat, more: set<nat>)
    requires (forall x: nat :: x < ENTRIES ==> Pde(m', d, x) == Pde(m, d, x)) && more <= Slots(m, d)
    ensures Took(m, free, m', free, d, more)
  {
    assert forall x: nat :: x < ENTRIES ==> Tab(m', d, x) == Tab(m, d, x);
    assert Slots(m', d) == Slots(m, d) == Slots(m, d) + more;
  }

  lemma TookTable(m: Memory, f: nat, free: seq<nat>, m': Memory, d: nat, x: nat)
    requires x < ENTRIES && Tab(m, d, x) == 0 && f != 0
    requires forall y: nat :: y < ENTRIES ==> Pde(m', d, y) == if y == x then Entry(f, 7) else Pde(m, d, y)
    ensures Took(m, [f] + free, m', free, d, {x})
  {
    assert forall y: nat :: y < ENTRIES ==> Tab(m', d, y) == if y == x then f else Tab(m, d, y);
    assert x !in Slots(m, d) && Slots(m', d) == Slots(m, d) + {x};
  }

  lemma TookTwice(m0: Memory, f0: seq<nat>, m1: Memory, f1: seq<nat>, m2: Memory, f2: seq<nat>, d: nat, a: set<nat>, b: set<nat>)
    requires Took(m0, f0, m1, f1, d, a) && Took(m1, f1, m2, f2, d, b)
    ensures Took(m0, f0, m2, f2, d, a + b)
  {
    hide Slots;
    assert Slots(m0, d) + a + b == Slots(m0, d) + (a + b);
  }

  /** How many tables are missing for the n pages from v on. */
  ghost function Missing(m: Memory, d: nat, v: nat, n: nat): nat {
    |SlotsOf(v, n) - Slots(m, d)|
  }

  lemma UnionSize(a: set<nat>, b: set<nat>)
    ensures |a + b| == |a| + |b - a|
  {
    assert a + b == a + (b - a);
  }

  /** Where n pages have their tables, there were frames for those that were missing. */
  lemma TookAll(m: Memory, free: seq<nat>, m': Memory, free': seq<nat>, d: nat, v: nat, n: nat)
    requires Took(m, free, m', free', d, SlotsOf(v, n))
    ensures |free| == |free'| + Missing(m, d, v, n)
  {
    hide Slots, SlotsOf;
    UnionSize(Slots(m, d), SlotsOf(v, n));
  }

  /** Where only k have, the next has none and no frame is left, there were too few. */
  lemma TookSome(m: Memory, free: seq<nat>, m': Memory, free': seq<nat>, d: nat, v: nat, k: nat, n: nat)
    requires Took(m, free, m', free', d, SlotsOf(v, k)) && k < n && Slot(v + k) !in Slots(m', d) && free' == []
    ensures |free| < Missing(m, d, v, n)
  {
    hide Slots, SlotsOf;
    MoreSlots(v, k, n);
    SlotsOfAt(v, n, Slot(v + k));
    assert Slot(v + k) in SlotsOf(v, n) - Slots(m, d) && Slot(v + k) !in SlotsOf(v, k);
    UnionSize(Slots(m, d), SlotsOf(v, k));
    SubsetSize(SlotsOf(v, k) - Slots(m, d), SlotsOf(v, n) - Slots(m, d));
  }

  /** The directory slots of the n pages from v on. */
  ghost function SlotsOf(v: nat, n: nat): set<nat> {
    if n == 0 then {} else SlotsOf(v, n - 1) + {Slot(v + n - 1)}
  }

  lemma {:induction false} SlotsOfAt(v: nat, n: nat, x: nat)
    ensures x in SlotsOf(v, n) <==> n > 0 && v / ENTRIES <= x <= (v + n - 1) / ENTRIES
  {
    if n > 0 {
      SlotsOfAt(v, n - 1, x);
    }
  }

  lemma {:induction false} MoreSlots(v: nat, n: nat, n': nat)
    requires n <= n'
    ensures SlotsOf(v, n) <= SlotsOf(v, n')
  {
    if n < n' {
      MoreSlots(v, n, n' - 1);
    }
  }

  /** Of `had` frames, one is a directory, `pages` hold pages, and each of `slots`, which are those in use, has one for its table. */
  ghost predicate Spent(had: nat, m: Memory, free: seq<nat>, d: nat, pages: nat, slots: set<nat>) {
    Slots(m, d) == slots && had == |free| + 1 + pages + |slots|
  }

  lemma SpentMapping(had: nat, m: Memory, free: seq<nat>, m': Memory, free': seq<nat>, d: nat, pages: nat, slots: set<nat>,
                     v: nat, n: nat)
    requires Spent(had, m, free, d, pages, slots) && Took(m, free, m', free', d, SlotsOf(v, n))
    ensures Spent(had, m', free', d, pages, slots + SlotsOf(v, n))
  {
    hide Slots, SlotsOf;
  }

  lemma SpentTooMuch(had: nat, m: Memory, free: seq<nat>, d: nat, pages: nat, slots: set<nat>, v: nat, n: nat)
    requires Spent(had, m, free, d, pages, slots) && |free| < Missing(m, d, v, n)
    ensures had < 1 + pages + |slots + SlotsOf(v, n)|
  {
    hide Slots, SlotsOf;
    UnionSize(slots, SlotsOf(v, n));
  }

  lemma SpentPage(had: nat, m: Memory, f: nat, free: seq<nat>, m': Memory, d: nat, pages: nat, slots: set<nat>)
    requires Spent(had, m, [f] + free, d, pages, slots) && forall x: nat :: x < ENTRIES ==> Pde(m', d, x) == Pde(m, d, x)
    ensures Spent(had, m', free, d, pages + 1, slots)
  {
    TookNothing(m, free, m', d, {});
  }

  /** The pages from a on need no fewer slots when there are more of them. */
  lemma SlotsGrow(slots: set<nat>, v: nat, n: nat, n': nat)
    requires n <= n'
    ensures |slots + SlotsOf(v, n)| <= |slots + SlotsOf(v, n')|
  {
    MoreSlots(v, n, n');
    SubsetSize(slots + SlotsOf(v, n), slots + SlotsOf(v, n'));
  }

  lemma {:induction false} SubsetSize(a: set<nat>, b: set<nat>)
    requires a <= b
    ensures |a| <= |b| && (a != b ==> |a| < |b|)
  {
    if a != {} {
      var x :| x in a;
      SubsetSize(a - {x}, b - {x});
    }
  }

  /** What freevm has to give back. */
  ghost function Owned(m: Memory, d: nat): set<nat> {
    {d} + Tables(m, d) + Pages(m, d)
  }

  /** The frames an address space and the allocator have between them. */
  ghost function Total(m: Memory, free: seq<nat>, d: nat): set<nat> {
    Elements(free) + Owned(m, d)
  }

  ghost predicate FreeList(m: Memory, free: seq<nat>, lo: nat) {
    && lo > 0
    && (forall i, j :: 0 <= i < j < |free| ==> free[i] != free[j])
    && (forall i :: 0 <= i < |free| ==> lo <= free[i] < |m|)
  }

  /** A frame the allocator does not have. */
  ghost predicate Taken(m: Memory, free: seq<nat>, lo: nat, f: nat) {
    lo <= f < |m| && forall i :: 0 <= i < |free| ==> free[i] != f
  }

  /** A sound address space: no frame is used twice, or is free. */
  ghost predicate Sound(m: Memory, free: seq<nat>, lo: nat, d: nat) {
    && FreeList(m, free, lo) && Taken(m, free, lo, d)
    && (forall x: nat :: x < ENTRIES && Present(Pde(m, d, x)) ==> TableOk(m, free, lo, d, x))
    && (forall x: nat, y: nat :: x < y < ENTRIES && Tab(m, d, x) != 0 ==> Tab(m, d, x) != Tab(m, d, y))
    && (forall v: nat :: v < UPAGES && Present(Pte(m, d, v)) ==> PageOk(m, free, lo, d, v))
    && (forall v: nat, w: nat :: v < w < UPAGES && Present(Pte(m, d, v)) && Present(Pte(m, d, w)) ==> Pte(m, d, v).frame != Pte(m, d, w).frame)
  }

  ghost predicate TableOk(m: Memory, free: seq<nat>, lo: nat, d: nat, x: nat) {
    Taken(m, free, lo, Tab(m, d, x)) && Tab(m, d, x) != d
  }

  ghost predicate PageOk(m: Memory, free: seq<nat>, lo: nat, d: nat, v: nat) {
    var f := Pte(m, d, v).frame;
    Taken(m, free, lo, f) && f != d && f !in Tables(m, d)
  }

  /** The directories agree. */
  ghost predicate SameMap(m: Memory, m': Memory, d: nat) {
    && |m'| == |m|
    && (forall x: nat :: x < ENTRIES ==> Pde(m', d, x) == Pde(m, d, x))
    && (forall v: nat :: v < VPAGES ==> Pte(m', d, v) == Pte(m, d, v))
  }

  lemma SameMapSound(m: Memory, free: seq<nat>, m': Memory, free': seq<nat>, lo: nat, d: nat)
    requires Sound(m, free, lo, d) && SameMap(m, m', d) && FreeList(m', free', lo) && Elements(free') !! Owned(m, d)
    ensures Sound(m', free', lo, d) && Owned(m', d) == Owned(m, d)
  {
    SameMapOwned(m, m', d);
    hide Pde, Pte;
    forall x: nat | x < ENTRIES && Present(Pde(m', d, x))
      ensures TableOk(m', free', lo, d, x)
    {
      assert TableOk(m, free, lo, d, x) && Tab(m', d, x) == Tab(m, d, x) && Tab(m, d, x) in Owned(m, d);
    }
    forall v: nat | v < UPAGES && Present(Pte(m', d, v))
      ensures PageOk(m', free', lo, d, v)
    {
      assert PageOk(m, free, lo, d, v) && Pte(m, d, v).frame in Owned(m, d);
    }
  }

  lemma SameMapOwned(m: Memory, m': Memory, d: nat)
    requires SameMap(m, m', d)
    ensures forall x: nat :: x < ENTRIES ==> Tab(m', d, x) == Tab(m, d, x)
    ensures Tables(m', d) == Tables(m, d) && Pages(m', d) == Pages(m, d) && Owned(m', d) == Owned(m, d)
  {
    hide Pde, Pte;
    assert forall x: nat :: x < ENTRIES ==> Tab(m', d, x) == Tab(m, d, x);
  }

  /** Writing a frame that is neither the directory nor one of its tables leaves the map alone. */
  lemma WriteFrame(m: Memory, d: nat, f: nat, data: Frame)
    requires d != f < |m| && f !in Tables(m, d)
    ensures SameMap(m, m[f := data], d)
  {
    var m' := m[f := data];
    forall v: nat | v < VPAGES
      ensures Pte(m', d, v) == Pte(m, d, v)
    {
      assert Tab(m', d, v / ENTRIES) == Tab(m, d, v / ENTRIES);
    }
  }

  /** Writing one entry changes that entry alone. */
  lemma WriteEntry(m: Memory, free: seq<nat>, lo: nat, d: nat, v: nat, e: Entry)
    requires Sound(m, free, lo, d) && v < VPAGES && Tab(m, d, v / ENTRIES) != 0
    ensures var t := Tab(m, d, v / ENTRIES);
            && t < |m| && t != d
            && var m' := m[t := m[t][v % ENTRIES := e]];
               && (forall x: nat :: x < ENTRIES ==> Pde(m', d, x) == Pde(m, d, x))
               && (forall u: nat :: u < VPAGES ==> Pte(m', d, u) == if u == v then e else Pte(m, d, u))
  {
    var t := Tab(m, d, v / ENTRIES);
    assert TableOk(m, free, lo, d, v / ENTRIES);
    var m' := m[t := m[t][v % ENTRIES := e]];
    forall u: nat | u < VPAGES
      ensures Pte(m', d, u) == if u == v then e else Pte(m, d, u)
    {
      OnePage(u, v);
      assert Tab(m', d, u / ENTRIES) == Tab(m, d, u / ENTRIES);
    }
  }

  lemma OnePage(u: nat, v: nat)
    ensures u / ENTRIES == v / ENTRIES && u % ENTRIES == v % ENTRIES ==> u == v
    ensures v < VPAGES ==> v / ENTRIES < ENTRIES
  {
  }

  /** A new, empty table for slot x in the frame just taken from the free list. */
  function WithTable(m: Memory, d: nat, x: nat, f: nat): Memory
    requires d < |m| && f < |m| && x < ENTRIES
  {
    m[f := Zeroes()][d := m[d][x := Entry(f, 7)]]
  }

  lemma NewTableMap(m: Memory, free: seq<nat>, lo: nat, d: nat, x: nat, f: nat)
    requires Sound(m, [f] + free, lo, d) && x < ENTRIES && Tab(m, d, x) == 0
    ensures f < |m| && f != d && |WithTable(m, d, x, f)| == |m|
    ensures forall y: nat :: y < ENTRIES ==> Pde(WithTable(m, d, x, f), d, y) == if y == x then Entry(f, 7) else Pde(m, d, y)
    ensures forall v: nat :: v < VPAGES ==> Pte(WithTable(m, d, x, f), d, v) == Pte(m, d, v)
  {
    assert ([f] + free)[0] == f;
    var m' := WithTable(m, d, x, f);
    forall v: nat | v < VPAGES
      ensures Pte(m', d, v) == Pte(m, d, v)
    {
      OnePage(v, v);
      var y := v / ENTRIES;
      if y != x {
        assert Pde(m', d, y) == Pde(m, d, y);
        assert Present(Pde(m, d, y)) ==> TableOk(m, [f] + free, lo, d, y);
      }
    }
  }

  lemma NewTable(m: Memory, free: seq<nat>, lo: nat, d: nat, x: nat, f: nat)
    requires Sound(m, [f] + free, lo, d) && x < ENTRIES && Tab(m, d, x) == 0
    ensures f < |m| && f != d
    ensures Sound(WithTable(m, d, x, f), free, lo, d)
    ensures Total(WithTable(m, d, x, f), free, d) == Total(m, [f] + free, d)
  {
    hide Pde, Pte, WithTable;
    NewTableMap(m, free, lo, d, x, f);
    FreeTail(m, free, lo, f);
    var m' := WithTable(m, d, x, f);
    assert forall y: nat :: y < ENTRIES ==> Tab(m', d, y) == if y == x then f else Tab(m, d, y);
    forall y: nat | y < ENTRIES && Tab(m, d, y) != 0
      ensures TableOk(m, [f] + free, lo, d, y) && Tab(m, d, y) != f
    {
    }
    forall y: nat | y < ENTRIES && Present(Pde(m', d, y))
      ensures TableOk(m', free, lo, d, y)
    {
      assert y != x ==> TableOk(m, [f] + free, lo, d, y);
    }
    forall v: nat | v < UPAGES && Present(Pte(m', d, v))
      ensures PageOk(m', free, lo, d, v)
    {
      assert PageOk(m, [f] + free, lo, d, v);
    }
  }

  lemma FreeTail(m: Memory, free: seq<nat>, lo: nat, f: nat)
    requires FreeList(m, [f] + free, lo)
    ensures FreeList(m, free, lo) && Taken(m, free, lo, f) && Elements([f] + free) == {f} + Elements(free)
    ensures forall g :: Taken(m, [f] + free, lo, g) ==> Taken(m, free, lo, g) && g != f
  {
    var all := [f] + free;
    assert all[0] == f && forall i :: 0 <= i < |free| ==> free[i] == all[i + 1];
    forall i, j | 0 <= i < j < |free|
      ensures free[i] != free[j]
    {
      assert all[i + 1] != all[j + 1];
    }
  }

  /** m' differs from m only in free frames, the directory and its tables. */
  ghost predicate OnlyTables(m: Memory, free: seq<nat>, d: nat, m': Memory) {
    |m'| == |m| && forall f: nat :: f < |m| && f !in Elements(free) && f != d && f !in Tables(m, d) ==> m'[f] == m[f]
  }

  function WithEntry(m: Memory, t: nat, v: nat, e: Entry): Memory
    requires t < |m|
  {
    m[t := m[t][v % ENTRIES := e]]
  }

  /** A frame that belongs to neither the allocator nor the address space. */
  ghost predicate Loose(m: Memory, free: seq<nat>, lo: nat, d: nat, f: nat) {
    Taken(m, free, lo, f) && f !in Owned(m, d)
  }

  /** Putting an entry into an existing table: a user page comes into the address space. */
  lemma MapEntry(m: Memory, free: seq<nat>, lo: nat, d: nat, v: nat, e: Entry)
    requires Sound(m, free, lo, d) && v < VPAGES && Tab(m, d, v / ENTRIES) != 0 && !Present(Pte(m, d, v)) && Present(e)
    requires v < UPAGES ==> Loose(m, free, lo, d, e.frame)
    ensures var t := Tab(m, d, v / ENTRIES);
            && t < |m| && var m' := WithEntry(m, t, v, e);
               && Sound(m', free, lo, d) && Tables(m', d) == Tables(m, d)
               && Owned(m', d) == Owned(m, d) + if v < UPAGES then {e.frame} else {}
  {
    WriteEntry(m, free, lo, d, v, e);
    MappedSound(m, WithEntry(m, Tab(m, d, v / ENTRIES), v, e), free, lo, d, v, e);
  }

  lemma MappedSound(m: Memory, m': Memory, free: seq<nat>, lo: nat, d: nat, v: nat, e: Entry)
    requires Sound(m, free, lo, d) && |m'| == |m| && v < VPAGES && !Present(Pte(m, d, v)) && Present(e)
    requires v < UPAGES ==> Loose(m, free, lo, d, e.frame)
    requires forall x: nat :: x < ENTRIES ==> Pde(m', d, x) == Pde(m, d, x)
    requires forall u: nat :: u < VPAGES ==> Pte(m', d, u) == if u == v then e else Pte(m, d, u)
    ensures Sound(m', free, lo, d) && Tables(m', d) == Tables(m, d)
    ensures Owned(m', d) == Owned(m, d) + if v < UPAGES then {e.frame} else {}
  {
    hide Pde, Pte;
    assert forall x: nat :: x < ENTRIES ==> Tab(m', d, x) == Tab(m, d, x);
    forall x: nat | x < ENTRIES && Present(Pde(m', d, x))
      ensures TableOk(m', free, lo, d, x)
    {
      assert TableOk(m, free, lo, d, x);
    }
    forall u: nat | u < UPAGES && Present(Pte(m', d, u))
      ensures PageOk(m', free, lo, d, u)
    {
      assert u != v ==> PageOk(m, free, lo, d, u) && Pte(m, d, u).frame in Pages(m, d);
    }
    if v < UPAGES {
      forall u: nat | u < UPAGES && u != v && Present(Pte(m', d, u))
        ensures Pte(m', d, u).frame != e.frame
      {
        assert Pte(m, d, u).frame in Pages(m, d);
      }
      assert Pte(m', d, v).frame in Pages(m', d);
    }
    assert Pages(m', d) == Pages(m, d) + if v < UPAGES then {e.frame} else {};
  }

  /** Taking an entry out of its table: the user page leaves the address space. */
  lemma UnmapEntry(m: Memory, free: seq<nat>, lo: nat, d: nat, v: nat)
    requires Sound(m, free, lo, d) && v < UPAGES && Present(Pte(m, d, v))
    ensures var t, f := Tab(m, d, v / ENTRIES), Pte(m, d, v).frame;
            && 0 != t < |m| && var m' := WithEntry(m, t, v, Entry(0, 0));
               && Sound(m', free, lo, d) && Loose(m', free, lo, d, f) && Tables(m', d) == Tables(m, d)
               && Owned(m', d) + {f} == Owned(m, d)
  {
    WriteEntry(m, free, lo, d, v, Entry(0, 0));
    UnmappedSound(m, WithEntry(m, Tab(m, d, v / ENTRIES), v, Entry(0, 0)), free, lo, d, v);
  }

  lemma UnmappedSound(m: Memory, m': Memory, free: seq<nat>, lo: nat, d: nat, v: nat)
    requires Sound(m, free, lo, d) && |m'| == |m| && v < UPAGES && Present(Pte(m, d, v))
    requires forall x: nat :: x < ENTRIES ==> Pde(m', d, x) == Pde(m, d, x)
    requires forall u: nat :: u < VPAGES ==> Pte(m', d, u) == if u == v then Entry(0, 0) else Pte(m, d, u)
    ensures Sound(m', free, lo, d) && Tables(m', d) == Tables(m, d)
    ensures Loose(m', free, lo, d, Pte(m, d, v).frame) && Owned(m', d) + {Pte(m, d, v).frame} == Owned(m, d)
  {
    hide Pde, Pte;
    assert forall x: nat :: x < ENTRIES ==> Tab(m', d, x) == Tab(m, d, x);
    forall x: nat | x < ENTRIES && Present(Pde(m', d, x))
      ensures TableOk(m', free, lo, d, x)
    {
      assert TableOk(m, free, lo, d, x);
    }
    forall u: nat | u < UPAGES && Present(Pte(m', d, u))
      ensures PageOk(m', free, lo, d, u)
    {
      assert PageOk(m, free, lo, d, u);
    }
    assert PageOk(m, free, lo, d, v);
    var f := Pte(m, d, v).frame;
    forall u: nat | u < UPAGES && u != v && Present(Pte(m, d, u))
      ensures Pte(m, d, u).frame != f
    {
    }
    assert Pages(m', d) + {f} == Pages(m, d);
  }

  /** Giving a loose frame back. */
  lemma FreeLoose(m: Memory, free: seq<nat>, lo: nat, d: nat, f: nat)
    requires Sound(m, free, lo, d) && Loose(m, free, lo, d, f)
    ensures var m' := m[f := Junk()];
            && SameMap(m, m', d) && Sound(m', [f] + free, lo, d) && Owned(m', d) == Owned(m, d)
            && Elements([f] + free) == {f} + Elements(free)
  {
    hide Pte, Pde, Owned;
    assert f !in Elements(free) && d in Owned(m, d) && Tables(m, d) <= Owned(m, d) by {
      OwnedParts(m, d);
    }
    WriteFrame(m, d, f, Junk());
    FreeCons(m, free, lo, f);
    OwnedNotFree(m, free, lo, d);
    SameMapSound(m, free, m[f := Junk()], [f] + free, lo, d);
  }

  lemma OwnedParts(m: Memory, d: nat)
    ensures d in Owned(m, d) && Tables(m, d) <= Owned(m, d) && Pages(m, d) <= Owned(m, d)
  {
  }

  lemma FreeCons(m: Memory, free: seq<nat>, lo: nat, f: nat)
    requires FreeList(m, free, lo) && lo <= f < |m| && f !in Elements(free)
    ensures FreeList(m, [f] + free, lo) && Elements([f] + free) == {f} + Elements(free)
  {
    hide Elements;
    ElementsCons(f, free);
    NotElement(free, f);
    var all := [f] + free;
    forall i | 0 <= i < |all|
      ensures all[i] == if i == 0 then f else free[i - 1]
    {
    }
  }

  lemma NotElement(s: seq<nat>, f: nat)
    requires f !in Elements(s)
    ensures forall i :: 0 <= i < |s| ==> s[i] != f
  {
    assert forall i :: 0 <= i < |s| ==> s[i] in Elements(s);
  }

  lemma ElementsCons(f: nat, s: seq<nat>)
    ensures Elements([f] + s) == {f} + Elements(s)
  {
    var all := [f] + s;
    assert all[0] == f && forall i :: 0 <= i < |s| ==> s[i] == all[i + 1];
    forall g | g in Elements(all)
      ensures g in {f} + Elements(s)
    {
      var i :| 0 <= i < |all| && all[i] == g;
      assert i > 0 ==> s[i - 1] == g;
    }
  }

  lemma OwnedNotFree(m: Memory, free: seq<nat>, lo: nat, d: nat)
    requires Sound(m, free, lo, d)
    ensures Elements(free) !! Owned(m, d)
    ensures forall f :: f in Owned(m, d) ==> Taken(m, free, lo, f)
  {
    hide Pte, Pde;
    forall f | f in Owned(m, d)
      ensures Taken(m, free, lo, f)
    {
      if f in Tables(m, d) {
        var x: nat :| x < ENTRIES && Tab(m, d, x) != 0 && f == Tab(m, d, x);
        assert TableOk(m, free, lo, d, x);
      } else if f in Pages(m, d) {
        var v: nat :| v < UPAGES && Present(Pte(m, d, v)) && f == Pte(m, d, v).frame;
        assert PageOk(m, free, lo, d, v);
      }
    }
  }
}
