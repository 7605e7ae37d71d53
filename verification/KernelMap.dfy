/** The kernel's own mappings, row by row, and how many frames an address space takes. */
module KernelMap {
  import opened PageTables
  import opened VirtualMemory

  const EXTMEM: nat := 0x10_0000
  const PHYSTOP: nat := 0xE00_0000
  const DEVSPACE: nat := 0xFE00_0000
  const KERNLINK: nat := KERNBASE + EXTMEM

  /** Where the linker puts the kernel's data: behind the text, at the start of a page. */
  predicate DataOk(data: nat) {
    KERNLINK < data < KERNBASE + PHYSTOP && data % PGSIZE == 0
  }

  /** The rows of kmap; the last one ends where the address space does. */
  function Kmap(data: nat): (rows: seq<Range>)
    requires DataOk(data)
  {
    [ Range(KERNBASE, EXTMEM, 0, PTE_W),
      Range(KERNLINK, data - KERNLINK, EXTMEM, 0),
      Range(data, PHYSTOP - (data - KERNBASE), data - KERNBASE, PTE_W),
      Range(DEVSPACE, 0x1_0000_0000 - DEVSPACE, DEVSPACE, PTE_W) ]
  }

  lemma RowSpan(data: nat, v: nat)
    requires DataOk(data)
    ensures var rows := Kmap(data);
            && (Covers(rows[0], v) <==> 524288 <= v < 524544) && (Covers(rows[1], v) <==> 524544 <= v < data / PGSIZE)
            && (Covers(rows[2], v) <==> data / PGSIZE <= v < 581632) && (Covers(rows[3], v) <==> 1040384 <= v < 1048576)
    ensures 524544 < data / PGSIZE < 581632
  {
    var k := data / PGSIZE;
    assert data == k * PGSIZE;
    assert (data - 1) / PGSIZE == k - 1;
  }

  /** The rows suit setupkvm: they lie in the kernel's half and do not overlap. */
  lemma KmapFits(data: nat)
    requires DataOk(data)
    ensures KmapOk(Kmap(data))
  {
    forall i, j, v: nat | 0 <= i < j < 4
      ensures !(Covers(Kmap(data)[i], v) && Covers(Kmap(data)[j], v))
    {
      RowSpan(data, v);
    }
  }

  /**
   * What setupkvm and copyuvm map in the kernel's half: physical memory and the devices, each page where it belongs, no page
   * for user programs, and all writable but the kernel's text.
   */
  lemma KernelPages(data: nat, v: nat)
    requires DataOk(data) && v < VPAGES
    ensures var e := KernelPte(Kmap(data), 4, v);
            && (Present(e) <==> KERNBASE / PGSIZE <= v < (KERNBASE + PHYSTOP) / PGSIZE || DEVSPACE / PGSIZE <= v)
            && (Present(e) ==>
                  && !UserPage(e) && (Writable(e) <==> !(KERNLINK / PGSIZE <= v < data / PGSIZE)) && e.flags < 4
                  && e.frame == if v < DEVSPACE / PGSIZE then v - KERNBASE / PGSIZE else v)
  {
    RowSpan(data, v);
    var rows := Kmap(data);
    assert KernelPte(rows, 1, v) == if Covers(rows[0], v) then Entry1(v - 524288, PTE_W) else KernelPte(rows, 0, v);
    assert KernelPte(rows, 2, v) == if Covers(rows[1], v) then Entry1(256 + (v - 524544), 0) else KernelPte(rows, 1, v);
    assert KernelPte(rows, 3, v) ==
           if Covers(rows[2], v) then Entry1((data - KERNBASE) / PGSIZE + (v - data / PGSIZE), PTE_W) else KernelPte(rows, 2, v);
    assert (data - KERNBASE) / PGSIZE == data / PGSIZE - 524288;
  }

  // ---------------------------------------------------------------- how many frames

  /** The numbers from a up to b. */
  ghost function Interval(a: nat, b: nat): (r: set<nat>)
    ensures forall x :: x in r <==> a <= x < b
    ensures a <= b ==> |r| == b - a
  {
    if a >= b then {} else Interval(a, b - 1) + {b - 1}
  }

  lemma SlotInterval(v: nat, n: nat)
    ensures SlotsOf(v, n) == if n == 0 then {} else Interval(v / ENTRIES, (v + n - 1) / ENTRIES + 1)
  {
    forall x: nat
      ensures x in SlotsOf(v, n) <==> n > 0 && v / ENTRIES <= x <= (v + n - 1) / ENTRIES
    {
      SlotsOfAt(v, n, x);
    }
  }

  lemma RowSlots(data: nat)
    requires DataOk(data)
    ensures var rows := Kmap(data);
            && SlotsOf(rows[0].va / PGSIZE, RowPages(rows[0])) == Interval(512, 513)
            && SlotsOf(rows[1].va / PGSIZE, RowPages(rows[1])) == Interval(512, (data / PGSIZE - 1) / ENTRIES + 1)
            && SlotsOf(rows[2].va / PGSIZE, RowPages(rows[2])) == Interval(data / PGSIZE / ENTRIES, 568)
            && SlotsOf(rows[3].va / PGSIZE, RowPages(rows[3])) == Interval(1016, 1024)
    ensures 524544 < data / PGSIZE < 581632
  {
    hide Interval, SlotsOf;
    RowSpan(data, 0);
    var rows, k := Kmap(data), data / PGSIZE;
    assert data == k * PGSIZE;
    SlotInterval(524288, 256);
    SlotInterval(524544, k - 524544);
    SlotInterval(k, 581632 - k);
    SlotInterval(1040384, 8192);
  }

  lemma Overlap(k: nat)
    requires 524544 < k < 581632
    ensures Interval(512, 513) + Interval(512, (k - 1) / ENTRIES + 1) + Interval(k / ENTRIES, 568) == Interval(512, 568)
  {
    hide Interval;
    assert 512 <= k / ENTRIES <= (k - 1) / ENTRIES + 1 <= 568;
  }

  /** The kernel's half takes 64 tables: 56 for physical memory, 8 for the devices. */
  lemma KernelTables(data: nat)
    requires DataOk(data)
    ensures KmapOk(Kmap(data)) && KernelSlots(Kmap(data), 4) == Interval(512, 568) + Interval(1016, 1024)
  {
    KmapFits(data);
    RowSlots(data);
    hide Interval, SlotsOf, KmapOk;
    var rows, k := Kmap(data), data / PGSIZE;
    Overlap(k);
    FourRows(rows);
  }

  lemma FourRows(rows: seq<Range>)
    requires |rows| == 4 && forall i :: 0 <= i < 4 ==> rows[i].size > 0
    ensures KernelSlots(rows, 4) ==
            SlotsOf(rows[0].va / PGSIZE, RowPages(rows[0])) + SlotsOf(rows[1].va / PGSIZE, RowPages(rows[1]))
            + SlotsOf(rows[2].va / PGSIZE, RowPages(rows[2])) + SlotsOf(rows[3].va / PGSIZE, RowPages(rows[3]))
  {
    hide SlotsOf, RowPages;
    assert KernelSlots(rows, 1) == KernelSlots(rows, 0) + SlotsOf(rows[0].va / PGSIZE, RowPages(rows[0]));
    assert KernelSlots(rows, 2) == KernelSlots(rows, 1) + SlotsOf(rows[1].va / PGSIZE, RowPages(rows[1]));
    assert KernelSlots(rows, 3) == KernelSlots(rows, 2) + SlotsOf(rows[2].va / PGSIZE, RowPages(rows[2]));
  }

  /**
   * So copying n pages takes 65 frames, one more for each page and one more for each 1024 pages or part of them: with the
   * contract of copyuvm, it succeeds if and only if so many are free.
   */
  lemma SpaceFrames(data: nat, n: nat)
    requires DataOk(data) && n <= UPAGES
    ensures KmapOk(Kmap(data)) && 1 + n + |SpaceSlots(Kmap(data), n)| == 65 + n + (n + ENTRIES - 1) / ENTRIES
  {
    hide Interval, SlotsOf, KernelSlots;
    KernelTables(data);
    SlotInterval(0, n);
    var low, mid, high := Interval(0, (n + ENTRIES - 1) / ENTRIES), Interval(512, 568), Interval(1016, 1024);
    assert SlotsOf(0, n) == low;
    assert low !! mid && mid !! high && low + mid !! high;
    assert SpaceSlots(Kmap(data), n) == low + mid + high;
  }
}
