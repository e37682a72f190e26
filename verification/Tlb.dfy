/** Page addresses and masks as 64-bit words. */
module PageBits {
  const PAGE_MASK: bv64 := 0xffff_ffff_ffff_f000
  const INVALID: bv64 := 0x8            // TLB_INVALID_MASK
  const FLAGS: bv64 := 0x30             // TLB_NOTDIRTY and TLB_MMIO
  const NONE: bv64 := 0xffff_ffff_ffff_ffff

  /** The mask of a region whose size is a power of two: ones, then zeros. */
  predicate IsMask(m: bv64) { (0 - m) & ((0 - m) - 1) == 0 }

  predicate IsPage(a: bv64) { a & !PAGE_MASK == 0 }

  predicate PowerOfTwo(n: bv64) { n != 0 && n & (n - 1) == 0 }

  function And(a: bv64, m: bv64): bv64 { a & m }

  /** Mask m is no finer than mask n. */
  predicate Within(m: bv64, n: bv64) { m & n == m }

  /** Two addresses are the same under a mask. */
  predicate Agree(f: bv64, v: bv64, m: bv64) { (f ^ v) & m == 0 }

  function Doubled(m: bv64): bv64 { m << 1 }

  /** The mask that tlb_add_large_page makes of a size. */
  function MaskOf(size: bv64): bv64 { !(size - 1) }

  /** A mask of regions larger than a page. */
  predicate Coarse(m: bv64) { m & 0x1fff == 0 }

  lemma SizeMask(size: bv64)
    requires PowerOfTwo(size) && size > 0x1000
    ensures IsMask(MaskOf(size)) && Coarse(MaskOf(size))
  {}

  lemma BothMasks(a: bv64, b: bv64)
    requires IsMask(a) && IsMask(b)
    ensures IsMask(And(a, b))
  {}

  lemma AndWithin(a: bv64, b: bv64)
    ensures Within(And(a, b), a) && Within(And(a, b), b)
  {}

  lemma Widen(m: bv64, f: bv64, v: bv64)
    requires IsMask(m) && !Agree(f, v, m)
    ensures IsMask(Doubled(m)) && Doubled(m) < m && Within(Doubled(m), m)
  {}

  /** The next mask is the finest of those coarser than this one. */
  lemma NextMask(k: bv64, m: bv64)
    requires IsMask(k) && IsMask(m) && Within(k, m) && k != m
    ensures Within(k, Doubled(m))
  {}

  /** No mask within mask0 under which the addresses agree is finer. */
  ghost predicate Finest(f: bv64, v: bv64, mask0: bv64, mask: bv64) {
    forall k :: IsMask(k) && Within(k, mask0) && Agree(f, v, k) ==> Within(k, mask)
  }

  lemma FinestOn(f: bv64, v: bv64, mask0: bv64, m: bv64)
    requires Finest(f, v, mask0, m) && IsMask(m) && !Agree(f, v, m)
    ensures Finest(f, v, mask0, Doubled(m))
  {
    forall k | IsMask(k) && Within(k, mask0) && Agree(f, v, k) ensures Within(k, Doubled(m)) {
      hide IsMask, Within, Agree, Doubled;
      NextMask(k, m);
    }
  }

  lemma WithinTrans(m: bv64, n: bv64, k: bv64)
    requires Within(m, n) && Within(n, k)
    ensures Within(m, k)
  {}

  lemma WithinCoarse(m: bv64, n: bv64)
    requires Within(m, n) && Coarse(n)
    ensures Coarse(m)
  {}

  lemma WithinSelf(m: bv64)
    ensures Within(m, m)
  {}

  /** A region with a coarser mask holds every address that one with a finer mask holds. */
  lemma Holds(a: bv64, v: bv64, m: bv64, n: bv64)
    requires And(a, n) == v && Within(m, n)
    ensures And(a, m) == And(v, m)
  {}

  lemma HoldsAgreeing(a: bv64, f: bv64, v: bv64, m: bv64, n: bv64)
    requires And(a, n) == And(v, n) && Within(m, n) && Agree(f, v, m)
    ensures And(a, m) == And(f, m)
  {}

  lemma NotNone(a: bv64, m: bv64)
    requires Coarse(m)
    ensures And(a, m) != NONE
  {}

  /** A comparator field for a page, with its flags. */
  lemma Field(field: bv64, page: bv64)
    requires IsPage(page) && field & !FLAGS == page
    ensures field & (PAGE_MASK | INVALID) == page
  {}

  lemma EmptyField(page: bv64)
    requires IsPage(page)
    ensures NONE & (PAGE_MASK | INVALID) != page
  {}

  lemma PageOf(a: bv64)
    ensures IsPage(And(a, PAGE_MASK))
  {}
}

/** The software TLB with its victim table, and how large pages are remembered (cputlb.c). */
module Tlb {
  import opened PageBits

  const TLB_SIZE: nat := 256            // CPU_TLB_SIZE
  const VTLB_SIZE: nat := 8             // CPU_VTLB_SIZE
  const PAGE_SIZE: bv64 := 0x1000       // TARGET_PAGE_SIZE

  // The three comparators of a CPUTLBEntry.
  datatype Entry = Entry(read: bv64, write: bv64, code: bv64)

  const EMPTY: Entry := Entry(NONE, NONE, NONE)

  predicate Matches(field: bv64, page: bv64) { field & (PAGE_MASK | INVALID) == page }

  /** The entry translates some access to the page. */
  predicate Maps(e: Entry, page: bv64) {
    Matches(e.read, page) || Matches(e.write, page) || Matches(e.code, page)
  }

  function Index(page: bv64): (i: nat)
    ensures i < TLB_SIZE
  {
    ((page >> 12) & 0xff) as nat
  }

  /** Two pages have the same index if and only if they are a multiple of 256 pages apart. */
  lemma SameIndex(p: bv64, q: bv64)
    ensures Index(p) == Index(q) <==> (p ^ q) & 0xf_f000 == 0
  {
    var i, j := (p >> 12) & 0xff, (q >> 12) & 0xff;
    assert i == j <==> (p ^ q) & 0xf_f000 == 0;
    assert i as nat == j as nat <==> i == j;
  }

  // A region of addresses, as its first address and mask.
  datatype Region = Region(addr: bv64, mask: bv64)

  predicate In(a: bv64, r: Region) { And(a, r.mask) == r.addr }

  /** The region remembered holds every large page seen since the last flush. */
  ghost predicate Covers(f: Region, large: set<Region>) {
    && (f.addr == NONE ==> large == {})
    && (forall r, a :: r in large && In(a, r) ==> In(a, f))
  }

  /** An entry of the main table translates pages of its own index only. */
  ghost predicate Placed(e: Entry, i: nat) {
    forall page :: IsPage(page) && Maps(e, page) ==> Index(page) == i
  }

  lemma EmptyMapsNothing(page: bv64)
    requires IsPage(page)
    ensures !Maps(EMPTY, page)
  {
    EmptyField(page);
  }

  lemma EmptyPlaced(i: nat)
    ensures Placed(EMPTY, i)
  {
    forall page | IsPage(page) ensures !Maps(EMPTY, page) { EmptyMapsNothing(page); }
  }

  /** A field that tlb_set_page writes: the page with flags, or nothing. */
  predicate FieldFor(field: bv64, page: bv64) {
    field == NONE || field & !FLAGS == page
  }

  lemma FieldMatches(field: bv64, page: bv64, q: bv64)
    requires IsPage(page) && IsPage(q) && FieldFor(field, page) && Matches(field, q)
    ensures q == page
  {
    EmptyField(q);
    if field != NONE {
      Field(field, page);
    }
  }

  /** What tlb_set_page writes for a page translates it, flags or not, as far as a field is not empty. */
  lemma EntryMaps(e: Entry, page: bv64)
    requires IsPage(page) && FieldFor(e.read, page) && FieldFor(e.write, page) && FieldFor(e.code, page)
    ensures e.read != NONE ==> Matches(e.read, page)
    ensures e.write != NONE ==> Matches(e.write, page)
    ensures e.code != NONE ==> Matches(e.code, page)
    ensures Maps(e, page) <==> e != EMPTY
  {
    hide FieldFor, Matches, IsPage;
    FieldFound(e.read, page);
    FieldFound(e.write, page);
    FieldFound(e.code, page);
  }

  lemma FieldFound(field: bv64, page: bv64)
    requires IsPage(page) && FieldFor(field, page)
    ensures Matches(field, page) <==> field != NONE
  {
    if field == NONE { EmptyField(page); } else { Field(field, page); }
  }

  lemma NewPlaced(e: Entry, page: bv64)
    requires IsPage(page) && FieldFor(e.read, page) && FieldFor(e.write, page) && FieldFor(e.code, page)
    ensures Placed(e, Index(page))
  {
    forall q | IsPage(q) && Maps(e, q)
      ensures q == page
    {
      if Matches(e.read, q) {
        FieldMatches(e.read, page, q);
      } else if Matches(e.write, q) {
        FieldMatches(e.write, page, q);
      } else {
        FieldMatches(e.code, page, q);
      }
    }
  }

  /** Remembering the first large page. */
  lemma CoverFirst(vaddr: bv64, n: bv64)
    requires Coarse(n)
    ensures var r := Region(And(vaddr, n), n); r.addr != NONE && Covers(r, {r})
  {
    NotNone(vaddr, n);
    hide And;
  }

  /** Widening the region remembered. */
  lemma CoverMore(f: Region, large: set<Region>, vaddr: bv64, n: bv64, m: bv64)
    requires Covers(f, large) && f.addr != NONE
    requires Within(m, f.mask) && Within(m, n) && Agree(f.addr, vaddr, m) && Coarse(m)
    ensures And(f.addr, m) != NONE && Covers(Region(And(f.addr, m), m), large + {Region(And(vaddr, n), n)})
  {
    hide And, Within, Agree, Coarse;
    NotNone(f.addr, m);
    var g, page := Region(And(f.addr, m), m), Region(And(vaddr, n), n);
    forall r, a | r in large + {page} && In(a, r)
      ensures In(a, g)
    {
      if r in large {
        Holds(a, f.addr, m, f.mask);
      } else {
        HoldsAgreeing(a, f.addr, vaddr, m, n);
      }
    }
  }

  /** The region remembered is the page, or else the smallest, with the first address of the old
      one, that holds both. */
  ghost predicate Extended(f: Region, f': Region, vaddr: bv64, n: bv64) {
    if f.addr == NONE then f' == Region(And(vaddr, n), n)
    else
      && f' == Region(And(f.addr, f'.mask), f'.mask) && IsMask(f'.mask) && Within(f'.mask, And(n, f.mask))
      && Agree(f.addr, vaddr, f'.mask) && Finest(f.addr, vaddr, And(n, f.mask), f'.mask)
  }

  ghost predicate Shape(table: seq<seq<Entry>>, victims: seq<seq<Entry>>, modes: nat) {
    && |table| == |victims| == modes
    && forall m :: 0 <= m < modes ==> |table[m]| == TLB_SIZE && |victims[m]| == VTLB_SIZE
  }

  ghost predicate AllPlaced(table: seq<seq<Entry>>) {
    forall m, i :: 0 <= m < |table| && 0 <= i < |table[m]| ==> Placed(table[m][i], i)
  }

  /** Entries have only been emptied, those for the page among them. */
  ghost predicate Emptied(before: seq<seq<Entry>>, after: seq<seq<Entry>>, page: bv64) {
    && |after| == |before|
    && (forall m :: 0 <= m < |before| ==> |after[m]| == |before[m]|)
    && (forall m, i :: 0 <= m < |before| && 0 <= i < |before[m]| ==>
      after[m][i] == if Maps(before[m][i], page) then EMPTY else before[m][i])
  }

  ghost predicate Blank(table: seq<seq<Entry>>) {
    forall m, i :: 0 <= m < |table| && 0 <= i < |table[m]| ==> table[m][i] == EMPTY
  }

  lemma BlankMapsNothing(table: seq<seq<Entry>>, page: bv64)
    requires Blank(table) && IsPage(page)
    ensures NoneMaps(table, page)
  {
    EmptyMapsNothing(page);
    hide Maps;
  }

  ghost predicate NoneMaps(table: seq<seq<Entry>>, page: bv64) {
    forall m, i :: 0 <= m < |table| && 0 <= i < |table[m]| ==> !Maps(table[m][i], page)
  }

  lemma PutPlaced(table: seq<seq<Entry>>, mode: nat, i: nat, e: Entry)
    requires AllPlaced(table) && mode < |table| && i < |table[mode]| && Placed(e, i)
    ensures AllPlaced(table[mode := table[mode][i := e]])
  {}

  lemma EmptiedPlaced(before: seq<seq<Entry>>, after: seq<seq<Entry>>, page: bv64)
    requires AllPlaced(before) && Emptied(before, after, page)
    ensures AllPlaced(after)
  {
    forall i ensures Placed(EMPTY, i) { EmptyPlaced(i); }
    hide Placed, Maps;
  }

  lemma EmptiedGone(before: seq<seq<Entry>>, after: seq<seq<Entry>>, page: bv64)
    requires Emptied(before, after, page) && IsPage(page)
    ensures NoneMaps(after, page)
  {
    EmptyMapsNothing(page);
    hide Maps;
  }

  class CpuTlb {
    const modes: nat                      // NB_MMU_MODES
    var table: seq<seq<Entry>>
    var victims: seq<seq<Entry>>
    var victimNext: nat                   // vtlb_index
    var flush: Region                     // tlb_flush_addr and tlb_flush_mask
    ghost var large: set<Region>          // large pages seen since the last flush

    ghost predicate Valid()
      reads this
    {
      Shape(table, victims, modes) && AllPlaced(table) && FlushOk(flush) && Covers(flush, large)
    }

    constructor (modes: nat)
      ensures Valid() && this.modes == modes && large == {} && AllEmpty() && victimNext == 0 && flush.addr == NONE
    {
      this.modes := modes;
      table := seq(modes, _ => seq(TLB_SIZE, _ => EMPTY));
      victims := seq(modes, _ => seq(VTLB_SIZE, _ => EMPTY));
      victimNext, flush, large := 0, Region(NONE, 0), {};
      new;
      forall i ensures Placed(EMPTY, i) { EmptyPlaced(i); }
    }

    ghost predicate AllEmpty()
      reads this
    {
      Blank(table) && Blank(victims)
    }

    /** tlb_flush. */
    method Flush()
      requires Valid()
      modifies this
      ensures Valid() && AllEmpty() && large == {} && victimNext == 0 && flush.addr == NONE
    {
      table := seq(modes, _ => seq(TLB_SIZE, _ => EMPTY));
      victims := seq(modes, _ => seq(VTLB_SIZE, _ => EMPTY));
      victimNext, flush, large := 0, Region(NONE, 0), {};
      forall i ensures Placed(EMPTY, i) { EmptyPlaced(i); }
    }

    /** The widening loop of tlb_add_large_page. */
    static method Widened(addr: bv64, vaddr: bv64, mask0: bv64) returns (mask: bv64)
      requires IsMask(mask0)
      ensures IsMask(mask) && Within(mask, mask0) && Agree(addr, vaddr, mask) && Finest(addr, vaddr, mask0, mask)
    {
      hide IsMask, Within, Agree, Doubled;
      mask := mask0;
      WithinSelf(mask0);
      assert Finest(addr, vaddr, mask0, mask0);
      while !Agree(addr, vaddr, mask)
        invariant IsMask(mask) && Within(mask, mask0) && Finest(addr, vaddr, mask0, mask)
        decreases mask
      {
        mask := WidenOnce(addr, vaddr, mask, mask0);
      }
    }

    static method WidenOnce(addr: bv64, vaddr: bv64, mask: bv64, ghost mask0: bv64) returns (wider: bv64)
      requires IsMask(mask) && Within(mask, mask0) && !Agree(addr, vaddr, mask) && Finest(addr, vaddr, mask0, mask)
      ensures IsMask(wider) && Within(wider, mask0) && wider < mask && Finest(addr, vaddr, mask0, wider)
    {
      hide IsMask, Within, Agree, Doubled;
      Widen(mask, addr, vaddr);
      FinestOn(addr, vaddr, mask0, mask);
      WithinTrans(Doubled(mask), mask, mask0);
      wider := Doubled(mask);
    }

    /** tlb_add_large_page: the region remembered comes to hold the new page and still holds
        all before it. */
    method AddLargePage(vaddr: bv64, size: bv64)
      requires Valid() && PowerOfTwo(size) && size > PAGE_SIZE
      modifies `flush, `large
      ensures Valid() && large == old(large) + {Region(And(vaddr, MaskOf(size)), MaskOf(size))}
      ensures Extended(old(flush), flush, vaddr, MaskOf(size))
    {
      var n := MaskOf(size);
      SizeMask(size);
      hide Placed, Covers, In, IsMask, Within, Agree, And, MaskOf, Coarse, PowerOfTwo;
      if flush.addr == NONE {
        CoverFirst(vaddr, n);
        NoneSeen(flush, large);
        flush := Region(And(vaddr, n), n);
        large := {flush};
      } else {
        BothMasks(n, flush.mask);
        AndWithin(n, flush.mask);
        var m := Widened(flush.addr, vaddr, And(n, flush.mask));
        WithinTrans(m, And(n, flush.mask), n);
        WithinTrans(m, And(n, flush.mask), flush.mask);
        WithinCoarse(m, n);
        CoverMore(flush, large, vaddr, n, m);
        flush := Region(And(flush.addr, m), m);
        large := large + {Region(And(vaddr, n), n)};
      }
    }

    /** tlb_set_page: the entry that was in the way becomes a victim, and the new one is put at
        the page's index. The fields carry the page and flags, or nothing, as protection has it. */
    method SetPage(vaddr: bv64, entry: Entry, mode: nat, size: bv64)
      requires Valid() && IsPage(vaddr) && mode < modes && PowerOfTwo(size) && size >= PAGE_SIZE
      requires FieldFor(entry.read, vaddr) && FieldFor(entry.write, vaddr) && FieldFor(entry.code, vaddr)
      modifies this
      ensures Valid() && table == old(table)[mode := old(table)[mode][Index(vaddr) := entry]]
      ensures victims ==
        old(victims)[mode := old(victims)[mode][old(victimNext) % VTLB_SIZE := old(table)[mode][Index(vaddr)]]]
      ensures size == PAGE_SIZE ==> large == old(large)
      ensures victimNext == old(victimNext) + 1
      ensures if size == PAGE_SIZE then flush == old(flush) else Extended(old(flush), flush, vaddr, MaskOf(size))
      ensures size != PAGE_SIZE ==> large == old(large) + {Region(And(vaddr, MaskOf(size)), MaskOf(size))}
    {
      hide AllPlaced, Placed, Covers, FieldFor, MaskOf, And, FlushOk, IsPage, PowerOfTwo, Index;
      NewPlaced(entry, vaddr);
      var v := victimNext % VTLB_SIZE;
      victimNext := victimNext + 1;
      if size != PAGE_SIZE {
        AddLargePage(vaddr, size);
      }
      var index := Index(vaddr);
      victims := victims[mode := victims[mode][v := table[mode][index]]];
      PutPlaced(table, mode, index, entry);
      table := table[mode := table[mode][index := entry]];
    }

    /** tlb_flush_entry. */
    static function Flushed(e: Entry, page: bv64): Entry {
      if Maps(e, page) then EMPTY else e
    }

    /** The main table is searched at the page's index only, which is where its entries are. */
    method FlushMain(page: bv64)
      requires Valid() && IsPage(page)
      modifies `table
      ensures Valid() && Emptied(old(table), table, page)
    {
      var i := Index(page);
      for m := 0 to modes
        invariant |table| == modes && forall n :: 0 <= n < modes ==> |table[n]| == TLB_SIZE
        invariant forall n :: m <= n < modes ==> table[n] == old(table)[n]
        invariant forall n :: 0 <= n < m ==> table[n] == old(table)[n][i := Flushed(old(table)[n][i], page)]
      {
        hide Maps, AllPlaced, Covers, FlushOk, Index;
        table := table[m := table[m][i := Flushed(table[m][i], page)]];
      }
      OwnIndexOnly(old(table), page);
      hide Maps, AllPlaced, Covers, FlushOk, Index;
      EmptiedPlaced(old(table), table, page);
    }

    /** The victim table is searched as a whole. */
    method FlushVictims(page: bv64)
      requires Valid()
      modifies `victims
      ensures Valid() && Emptied(old(victims), victims, page)
    {
      hide Maps, AllPlaced, Covers, FlushOk;
      for m := 0 to modes
        invariant |victims| == modes && forall n :: 0 <= n < modes ==> |victims[n]| == VTLB_SIZE
        invariant forall n :: m <= n < modes ==> victims[n] == old(victims)[n]
        invariant forall n, j :: 0 <= n < m && 0 <= j < VTLB_SIZE ==> victims[n][j] == Flushed(old(victims)[n][j], page)
      {
        for k := 0 to VTLB_SIZE
          invariant |victims| == modes && forall n :: 0 <= n < modes ==> |victims[n]| == VTLB_SIZE
          invariant forall n :: m < n < modes ==> victims[n] == old(victims)[n]
          invariant forall n, j :: 0 <= n < m && 0 <= j < VTLB_SIZE ==>
            victims[n][j] == Flushed(old(victims)[n][j], page)
          invariant forall j :: 0 <= j < VTLB_SIZE ==> victims[m][j] == if j < k then Flushed(old(victims)[m][j], page)
            else old(victims)[m][j]
        {
          victims := victims[m := victims[m][k := Flushed(victims[m][k], page)]];
        }
      }
    }

    /** No entry, in any table and mode, translates the page. */
    ghost predicate Gone(page: bv64)
      reads this
    {
      NoneMaps(table, page) && NoneMaps(victims, page)
    }

    /** tlb_flush_page: nothing translates the page any more, nor any page of a large page seen
        since the last flush that holds the address. Short of a full flush other entries stay. */
    method FlushPage(addr: bv64)
      requires Valid()
      modifies this
      ensures Valid() && Gone(And(addr, PAGE_MASK))
      ensures forall r, page :: r in old(large) && In(addr, r) && IsPage(page) && In(page, r) ==> Gone(page)
      ensures if In(addr, old(flush)) then AllEmpty()
        else
          && Emptied(old(table), table, And(addr, PAGE_MASK))
          && Emptied(old(victims), victims, And(addr, PAGE_MASK))
    {
      hide Maps, AllPlaced, FlushOk, Index, In, And, IsPage, Blank, NoneMaps, Emptied;
      PageOf(addr);
      var page := And(addr, PAGE_MASK);
      if In(addr, flush) {
        Flush();
        forall q | IsPage(q) ensures Gone(q) {
          BlankMapsNothing(table, q);
          BlankMapsNothing(victims, q);
        }
        return;
      }
      FlushMain(page);
      FlushVictims(page);
      EmptiedGone(old(table), table, page);
      EmptiedGone(old(victims), victims, page);
    }
  }

  /** Where the page's entries are. */
  lemma OwnIndexOnly(table: seq<seq<Entry>>, page: bv64)
    requires AllPlaced(table) && IsPage(page)
    ensures forall m, i :: 0 <= m < |table| && 0 <= i < |table[m]| && i != Index(page) ==> !Maps(table[m][i], page)
  {
    hide Maps, Index, IsPage;
  }

  /** What tlb_add_large_page and tlb_flush leave. */
  predicate FlushOk(f: Region) { IsMask(f.mask) && (f.addr == NONE ==> f.mask == 0) }

  lemma NoneSeen(f: Region, large: set<Region>)
    requires Covers(f, large) && f.addr == NONE
    ensures large == {}
  {}
}
