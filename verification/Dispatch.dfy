/** The dispatch structure of an address space: mem_begin, mem_add and mem_commit of exec.c,
    and the lookups made through it. */
module Dispatch {
  import opened Arith
  import opened Radix
  import opened PhysMap
  import opened PhysCompact
  import opened Flat
  import opened FlatSteps

  class AddressSpaceDispatch {
    const tree: PhysPageMap
    var sections: seq<Section>
    var subs: seq<seq<nat>>
    var bases: seq<nat>

    ghost function S(): Snap
      reads this, tree
    {
      Snap(tree.nodes, tree.root, sections, subs, bases)
    }

    /** The structure as mem_begin and mem_add leave it. */
    ghost predicate Valid()
      reads this, tree
    {
      && tree.Valid() && Inv(S()) && SubsUsed(subs)
      && |sections| <= PAGE && |tree.nodes| <= (2 * LEVELS - 1) * |sections|
    }

    /** mem_begin. */
    constructor ()
      ensures Valid() && fresh(tree) && |sections| == FIRST_SECTION
      ensures forall a: nat :: a < ADDR_LIMIT ==> Target(S(), a) == (Unassigned, a)
    {
      tree := new PhysPageMap();
      sections := [Section(Unassigned, 0, 0, ADDR_LIMIT), Section(NotDirty, 0, 0, ADDR_LIMIT),
                   Section(Rom, 0, 0, ADDR_LIMIT), Section(Watch, 0, 0, ADDR_LIMIT)];
      subs, bases := [], [];
      new;
      forall p: nat | p < TREE_PAGES ensures PageOk(S(), p) { assert tree.At(p) == UNASSIGNED; }
      forall a: nat | a < ADDR_LIMIT
        ensures Target(S(), a) == (Unassigned, a)
      {
        ResolveCases(S(), a); assert tree.At(a / PAGE) == UNASSIGNED;
      }
    }

    /** The page map part of adding section x: phys_section_add, then phys_page_set. */
    method MapSection(x: Section, page: nat, n: nat, ghost s: Snap)
      requires tree.Valid() && s == S() && FIRST_SECTION <= |sections| < PAGE && n > 0 && page + n <= PAGES
      requires |tree.nodes| <= (2 * LEVELS - 1) * |sections|
      requires forall p: nat :: page <= p < page + n ==> PageSec(S(), p) == UNASSIGNED
      requires x.addr == page * PAGE && x.size == n * PAGE
      modifies this`sections, tree
      ensures tree.Valid() && Mapped(s, S(), x, page, n)
      ensures |tree.nodes| <= (2 * LEVELS - 1) * |sections|
    {
      PagesFit();
      var k := |sections|;
      forall p: nat | page <= p < page + n ensures tree.At(p) == UNASSIGNED { assert PageSec(S(), p) == UNASSIGNED; }
      sections := sections + [x];
      tree.SetPages(page, n, k);
      forall p: nat | p < TREE_PAGES
        ensures PageSec(S(), p) == if page <= p < page + n then |s.sections| else PageSec(s, p)
      {
        assert tree.At(p) == PageSec(S(), p);
      }
    }

    /** register_multipage. */
    method RegisterMultipage(x: Section) returns (ok: bool)
      requires Valid() && x.mr.Mem? && x.addr % PAGE == 0 && x.size % PAGE == 0 && x.size > 0
      requires x.addr + x.size <= ADDR_LIMIT
      requires Vacant(S(), x)
      modifies this, tree
      ensures ok ==> Valid() && Shows(old(S()), S(), x)
      ensures old(|sections|) < PAGE ==> ok
      ensures ok ==> |sections| == old(|sections|) + 1
    {
      if |sections| >= PAGE {
        return false;
      }
      ghost var s := S();
      var page, n := x.addr / PAGE, x.size / PAGE;
      VacantResolves(s, x);
      forall p: nat | page <= p < page + n ensures PageSec(s, p) == UNASSIGNED {
        forall a: nat | p * PAGE <= a < p * PAGE + PAGE ensures Resolve(s, a) == UNASSIGNED { assert Holds(x, a); }
        FreePage(s, p);
      }
      MapSection(x, page, n, s);
      MultipageShows(s, S(), x, page, n);
      ok := true;
    }

    /** The part of register_subpage that gives a page a subpage: subpage_init and its section. */
    method NewSubpage(page: nat) returns (id: nat)
      requires Valid() && page < PAGES && |sections| < PAGE && PageSec(S(), page) == UNASSIGNED
      modifies this, tree
      ensures Opened(old(S()), S(), page, id) && tree.Valid() && |tree.nodes| <= (2 * LEVELS - 1) * |sections|
      ensures |sections| == old(|sections|) + 1
    {
      ghost var s := S();
      id := |subs|;
      MapSection(Section(Sub(id), page * PAGE, 0, PAGE), page, 1, s);
      subs, bases := subs + [EmptyTable()], bases + [page * PAGE];
      assert forall p: nat :: PageSec(S(), p) == PageSec(S().(subs := s.subs, bases := s.bases), p);
      SubpageUnseen(s, S(), page);
      NewIsOpen(s, S(), page);
    }

    /** The part of register_subpage that finds or makes the page's subpage. */
    method OpenSubpage(page: nat) returns (ok: bool, id: nat)
      requires Valid() && page < PAGES
      requires PageSec(S(), page) != UNASSIGNED ==>
        PageSec(S(), page) < |sections| && sections[PageSec(S(), page)].mr.Sub?
      modifies this, tree
      ensures ok ==> Opened(old(S()), S(), page, id) && tree.Valid() && |tree.nodes| <= (2 * LEVELS - 1) * |sections|
      ensures ok ==> |sections| <= Min(PAGE, old(|sections|) + 1)
      ensures old(|sections|) < PAGE ==> ok
    {
      PageOfByte(page, 0);
      ResolveCases(S(), page * PAGE);
      FindIsPageSec(S(), page * PAGE);
      TreeLinked(this);
      var existing := PhysPageFind(page * PAGE);
      if !sections[existing].mr.Sub? {
        if |sections| >= PAGE {
          return false, 0;
        }
        id := NewSubpage(page);
      } else {
        id := sections[existing].mr.id;
      }
      ok := true;
    }

    /** subpage_register: entries start to end of a table. */
    static method SubpageRegister(table: seq<nat>, start: nat, end: nat, section: nat) returns (ok: bool, r: seq<nat>)
      requires |table| == PAGE
      ensures ok <==> start < PAGE && end < PAGE
      ensures !ok ==> r == table
      ensures |r| == PAGE
      ensures ok ==> forall o :: 0 <= o < PAGE ==> r[o] == if start <= o <= end then section else table[o]
    {
      if start >= PAGE || end >= PAGE {
        return false, table;
      }
      ok, r := true, table;
      var idx := start;
      while idx <= end
        invariant start <= idx <= Max(start, end + 1) && |r| == PAGE
        invariant forall o :: 0 <= o < PAGE ==> r[o] == if start <= o < idx then section else table[o]
      {
        r := r[idx := section];
        idx := idx + 1;
      }
    }

    /** Filling the page's subpage table where x is. */
    method FillSubpage(x: Section, page: nat, id: nat, ghost s: Snap)
      requires Opened(s, S(), page, id) && tree.Valid() && |tree.nodes| <= (2 * LEVELS - 1) * |sections|
      requires |sections| < PAGE
      requires page < PAGES && x.mr.Mem? && x.size > 0 && page * PAGE <= x.addr && x.addr + x.size <= page * PAGE + PAGE
      modifies `sections, `subs
      ensures Valid() && Shows(s, S(), x) && |sections| == old(|sections|) + 1
    {
      hide Shows, SectionsOk, TablesOk, PagesOk, SubsUsed, TableUsed, Target, PhysPageMap.Valid;
      ghost var s1 := S();
      TablesSized(s1);
      OpenedId(s, s1, page, id);
      var start := x.addr - page * PAGE;
      var k := |sections|;
      sections := sections + [x];
      var done, table := SubpageRegister(subs[id], start, start + x.size - 1, k);
      assert done;
      subs := subs[id := table];
      FillAll(s, s1, S(), x, id, page);
    }

    /** register_subpage, for a piece x that does not cross a page boundary. */
    method RegisterSubpage(x: Section) returns (ok: bool)
      requires Valid() && x.mr.Mem? && x.size > 0 && x.addr + x.size <= ADDR_LIMIT && x.addr % PAGE + x.size <= PAGE
      requires Vacant(S(), x)
      modifies this, tree
      ensures ok ==> Valid() && Shows(old(S()), S(), x)
      ensures old(|sections|) + 2 <= PAGE ==> ok
      ensures ok ==> |sections| <= old(|sections|) + 2
    {
      hide Shows, SectionsOk, TablesOk, SubsUsed, TableUsed, Opened;
      ghost var s := S();
      var page := x.addr / PAGE;
      PageOf(x.addr);
      VacantResolves(s, x);
      assert Holds(x, x.addr);
      ResolveCases(s, x.addr);
      var id;
      ok, id := OpenSubpage(page);
      if !ok || |sections| >= PAGE {
        return false;
      }
      FillSubpage(x, page, id, s);
    }

    /** The head of mem_add: the bytes of x before the first page boundary, if any. */
    method AddHead(x: Section) returns (ok: bool, now: Section)
      requires Valid() && x.mr.Mem? && x.size > 0 && x.addr + x.size <= ADDR_LIMIT && Vacant(S(), x)
      modifies this, tree
      ensures ok ==> Valid() && Added(old(S()), S(), x, x.addr + now.size) && now == x.(size := now.size)
      ensures now.size <= x.size && (now.size == x.size || (x.addr + now.size) % PAGE == 0)
      ensures old(|sections|) + 2 <= PAGE ==> ok
      ensures ok ==> |sections| <= old(|sections|) + 2
    {
      hide HeadSize, Target, Vacant, Added;
      ghost var s := S();
      NoneAdded(s, x);
      now := x;
      if now.addr % PAGE != 0 {
        now := now.(size := HeadSize(now.addr, now.size));
        PieceVacant(s, s, x, now, x.addr);
        ok := RegisterSubpage(now);
        if ok { PieceAdded(s, s, S(), x, now); }
      } else {
        ok, now := true, now.(size := 0);
      }
    }

    /** One round of the loop in mem_add. */
    method AddPiece(x: Section, remain: Section, ghost s0: Snap) returns (ok: bool, now: Section)
      requires Valid() && x.mr.Mem? && x.addr + x.size <= ADDR_LIMIT && Vacant(s0, x)
      requires PieceOf(x, remain) && remain.size > 0 && remain.addr % PAGE == 0 && Added(s0, S(), x, remain.addr)
      modifies this, tree
      ensures ok ==> Valid() && Added(s0, S(), x, remain.addr + now.size) && now == remain.(size := now.size)
      ensures 0 < now.size <= remain.size
      ensures remain.size >= PAGE ==> now.size % PAGE == 0 && remain.size - now.size < PAGE
      ensures remain.size < PAGE ==> now.size == remain.size
      ensures old(|sections|) + (if remain.size < PAGE then 2 else 1) <= PAGE ==> ok
      ensures ok ==> |sections| <= old(|sections|) + if remain.size < PAGE then 2 else 1
    {
      ghost var s := S();
      now := remain;
      if remain.size < PAGE {
        PieceVacant(s0, s, x, now, now.addr);
        ok := RegisterSubpage(now);
      } else if remain.addr % PAGE != 0 {
        assert false;
      } else {
        now := now.(size := now.size - now.size % PAGE);
        PieceVacant(s0, s, x, now, now.addr);
        ok := RegisterMultipage(now);
      }
      if ok { PieceAdded(s0, s, S(), x, now); }
    }

    /** mem_add: the addresses of the section, and no others, come to show it. The branch for
        a whole unaligned page cannot be reached. `ok` is false when the section table is full,
        where the source aborts. */
    method MemAdd(x: Section) returns (ok: bool)
      requires Valid() && x.mr.Mem? && x.size > 0 && x.addr + x.size <= ADDR_LIMIT && Vacant(S(), x)
      modifies this, tree
      ensures ok ==> Valid() && Shows(old(S()), S(), x)
      ensures old(|sections|) + 5 <= PAGE ==> ok
      ensures ok ==> |sections| <= old(|sections|) + 5
    {
      ghost var s0 := S();
      var now, remain := x, x;
      ok, now := AddHead(x);
      while ok && remain.size != now.size
        invariant ok ==> Valid() && Added(s0, S(), x, remain.addr + now.size)
        invariant PieceOf(x, remain) && remain.addr + remain.size == x.addr + x.size && now.size <= remain.size
        invariant remain.size != now.size ==> (remain.addr + now.size) % PAGE == 0
        invariant ok ==> |sections| <= old(|sections|) + if remain.size - now.size >= PAGE then 2
          else if remain.size != now.size then 3 else 5
        invariant old(|sections|) + 5 <= PAGE ==> ok
        decreases ok, remain.size - now.size
      {
        remain := remain.(size := remain.size - now.size, addr := remain.addr + now.size,
            offset := remain.offset + now.size);
        ok, now := AddPiece(x, remain, s0);
      }
    }

    /** mem_commit: path compression. Every address keeps its target. */
    method MemCommit()
      requires Valid()
      modifies tree
      ensures Committed() && forall a: nat :: a < ADDR_LIMIT ==> Target(S(), a) == old(Target(S(), a))
      ensures Tight(tree.nodes, tree.root, LEVELS)
    {
      ghost var s, g := S(), tree.G();
      PagesFit();
      TreeLinked(this);
      FreshTree(g);
      tree.root := CompactEntry(tree, tree.root, LEVELS, 0);
      forall a: nat | a < ADDR_LIMIT ensures Target(S(), a) == Target(s, a) && PageSec(S(), a / PAGE) < |sections| {
        CompactFind(s, S(), g, tree.G(), a);
      }
      forall v | FIRST_SECTION <= v < |sections| ensures SectionOk(S(), v) { assert SectionOk(s, v); }
      forall id | 0 <= id < |subs| ensures TableOk(S(), id) { assert TableOk(s, id); }
    }

    /** What the lookups need of a structure that has been committed. */
    ghost predicate Committed()
      reads this, tree
    {
      && AllLinked(tree.G()) && Linked(tree.G(), tree.root, LEVELS, 0) && Dummies(S())
      && (forall a: nat :: a < ADDR_LIMIT ==> PageSec(S(), a / PAGE) < |sections|)
      && (forall v :: FIRST_SECTION <= v < |sections| ==> SectionOk(S(), v)) && TablesOk(S())
    }

    /** address_space_translate_internal, without the length: the region an address leads to
        and the offset in it. */
    method Translate(addr: nat) returns (mr: Region, xlat: int)
      requires Committed() && addr < ADDR_LIMIT
      ensures (mr, xlat) == Target(S(), addr)
    {
      hide Walk, AllLinked, Linked, NodeLinked;
      var v := PhysPageFind(addr);
      if sections[v].mr.Sub? {
        assert v >= FIRST_SECTION && SectionOk(S(), v);
        assert TableOk(S(), sections[v].mr.id);
        v := subs[sections[v].mr.id][addr % PAGE];
      }
      mr, xlat := sections[v].mr, addr - sections[v].addr + sections[v].offset;
    }

    /** phys_page_find. */
    method PhysPageFind(addr: nat) returns (v: nat)
      requires AllLinked(tree.G()) && Linked(tree.G(), tree.root, LEVELS, 0)
      requires PageSec(S(), addr / PAGE) < |sections|
      ensures v == Find(S(), addr)
    {
      hide Step;
      var index := addr / PAGE;
      var lp, i := tree.root, LEVELS;
      ghost var b: nat := 0;
      while lp.skip != 0 && i >= lp.skip
        invariant 0 <= i <= LEVELS && Linked(tree.G(), lp, i, b)
        invariant Walk(tree.nodes, lp, i, index) == PageSec(S(), index)
        decreases i
      {
        i := i - lp.skip;
        if lp.ptr == NIL {
          return UNASSIGNED;
        }
        assert NodeLinked(tree.G(), lp.ptr);
        b := SlotBase(tree.place[lp.ptr], Digit(index, i));
        lp := tree.nodes[lp.ptr][Digit(index, i)];
      }
      v := if CoversByte(sections[lp.ptr], addr) then lp.ptr else UNASSIGNED;
    }
  }

  lemma FreshTree(g: Heap)
    requires Built(g)
    ensures FreshInside(g, LEVELS, 0)
  {}

  /** Compaction can send a lookup astray only to a section that fails the range test. */
  lemma CompactFind(s: Snap, s': Snap, g: Heap, g': Heap, a: nat)
    requires Inv(s) && s' == s.(nodes := s'.nodes, root := s'.root) && a < ADDR_LIMIT
    requires g.nodes == s.nodes && g'.nodes == s'.nodes && Agrees(g, g', s.root, s'.root, LEVELS, 0)
    ensures Target(s', a) == Target(s, a) && PageSec(s', a / PAGE) < |s.sections|
  {
    hide Walk, Step, TableOk;
    var page := a / PAGE;
    PageOf(a);
    PagesFit();
    assert AgreesAt(g, g', s.root, s'.root, LEVELS, 0, page);
    assert PageOk(s, page);
    var v, v' := PageSec(s, page), PageSec(s', page);
    if v' != v {
      var q: nat :| q < Step(LEVELS) && Walk(g.nodes, s.root, LEVELS, q) == v';
      assert PageOk(s, q);
      if v' != UNASSIGNED {
        assert SectionOk(s, v');
        assert !Holds(s.sections[v'], page * PAGE);
        assert !CoversByte(s.sections[v'], a);
      }
    }
    assert Find(s', a) == Find(s, a);
  }

  lemma TreeLinked(d: AddressSpaceDispatch)
    requires d.tree.Valid()
    ensures AllLinked(d.tree.G()) && Linked(d.tree.G(), d.tree.root, LEVELS, 0)
  {
    BuiltLinked(d.tree.G());
  }

  /** The page has subpage number id, nothing that could be seen has changed, and every other
      subpage is in use. */
  ghost predicate Opened(s: Snap, s': Snap, page: nat, id: nat) {
    && Inv(s') && SubpageOpen(s', page, id)
    && (forall i :: 0 <= i < |s'.subs| && i != id ==> TableUsed(s'.subs[i]))
    && (forall a: nat :: a < ADDR_LIMIT ==> Target(s', a) == Target(s, a))
  }

  lemma OpenedId(s: Snap, s': Snap, page: nat, id: nat)
    requires Opened(s, s', page, id)
    ensures id < |s'.subs|
  {}

  lemma NewIsOpen(s: Snap, s': Snap, page: nat)
    requires Inv(s) && SubsUsed(s.subs) && Mapped(s, s', Section(Sub(|s.subs|), page * PAGE, 0, PAGE), page, 1)
    requires s'.subs == s.subs + [EmptyTable()] && s'.bases == s.bases + [page * PAGE] && Inv(s')
    ensures SubpageOpen(s', page, |s.subs|)
    ensures forall i :: 0 <= i < |s'.subs| && i != |s.subs| ==> TableUsed(s'.subs[i])
  {
    assert PageSec(s', page) == |s.sections|;
  }

  lemma FillAll(s: Snap, s1: Snap, s2: Snap, x: Section, id: nat, page: nat)
    requires Opened(s, s1, page, id) && page < PAGES && x.mr.Mem? && x.size > 0 && page * PAGE <= x.addr
    requires x.addr + x.size <= page * PAGE + PAGE
    requires s2.sections == s1.sections + [x] && s2.nodes == s1.nodes && s2.root == s1.root && s2.bases == s1.bases
    requires id < |s1.subs| && |s1.subs[id]| == PAGE && |s2.subs| == |s1.subs| && |s2.subs[id]| == PAGE
    requires forall i :: 0 <= i < |s1.subs| && i != id ==> s2.subs[i] == s1.subs[i]
    requires var from := x.addr - page * PAGE;
      forall o :: 0 <= o < PAGE ==>
        s2.subs[id][o] == if from <= o < from + x.size then |s1.sections| else s1.subs[id][o]
    ensures Inv(s2) && SubsUsed(s2.subs) && Shows(s, s2, x)
  {
    assert Filled(s1, s2, x, id);
    SubpageShows(s1, s2, x, id, page);
    assert s2.subs[id][x.addr - page * PAGE] != UNASSIGNED;
    assert TableUsed(s2.subs[id]);
    assert Shows(s, s2, x);
  }

  // ----- whole address spaces -----

  /** Pairwise disjoint, non-empty sections of memory within the address space. */
  ghost predicate FlatView(xs: seq<Section>) {
    && (forall i :: 0 <= i < |xs| ==> xs[i].mr.Mem? && xs[i].size > 0 && xs[i].addr + xs[i].size <= ADDR_LIMIT)
    && (forall i, j, a: nat :: 0 <= i < j < |xs| && Holds(xs[i], a) ==> !Holds(xs[j], a))
  }

  /** The meaning of a flat view, section by section. */
  function FlatTarget(xs: seq<Section>, a: nat): (Region, int) {
    if xs == [] then (Unassigned, a)
    else
      var x := xs[|xs| - 1];
      if Holds(x, a) then (x.mr, a - x.addr + x.offset) else FlatTarget(xs[..|xs| - 1], a)
  }

  lemma {:induction false} FlatVacant(xs: seq<Section>, x: Section, a: nat)
    requires Holds(x, a) && forall i :: 0 <= i < |xs| ==> !Holds(xs[i], a)
    ensures FlatTarget(xs, a) == (Unassigned, a)
  {
    if xs != [] { FlatVacant(xs[..|xs| - 1], x, a); }
  }

  /** Every address leads where the flat view says. */
  ghost predicate Means(s: Snap, xs: seq<Section>) {
    forall a: nat :: a < ADDR_LIMIT ==> Target(s, a) == FlatTarget(xs, a)
  }

  lemma NextVacant(s: Snap, xs: seq<Section>, i: nat)
    requires FlatView(xs) && i < |xs| && Means(s, xs[..i])
    ensures Vacant(s, xs[i])
  {
    forall a: nat | a < ADDR_LIMIT && Holds(xs[i], a) ensures Target(s, a).0 == Unassigned {
      FlatVacant(xs[..i], xs[i], a);
    }
  }

  lemma NextMeans(s: Snap, s': Snap, xs: seq<Section>, i: nat)
    requires i < |xs| && Means(s, xs[..i]) && Shows(s, s', xs[i])
    ensures Means(s', xs[..i + 1])
  {
    assert xs[..i + 1][..i] == xs[..i];
  }

  /** mem_begin, mem_add for each section of a flat view, mem_commit: a translation through
      the structure, for every address, is the one the flat view gives. */
  method BuildDispatch(xs: seq<Section>) returns (ok: bool, d: AddressSpaceDispatch)
    requires FlatView(xs)
    ensures ok ==> d.Committed() && Means(d.S(), xs)
    ensures FIRST_SECTION + 5 * |xs| <= PAGE ==> ok
  {
    d := new AddressSpaceDispatch();
    ok := AddAll(d, xs);
    if ok {
      d.MemCommit();
    }
  }

  method AddAll(d: AddressSpaceDispatch, xs: seq<Section>) returns (ok: bool)
    requires FlatView(xs) && d.Valid() && Means(d.S(), []) && |d.sections| == FIRST_SECTION
    modifies d, d.tree
    ensures ok ==> d.Valid() && Means(d.S(), xs)
    ensures FIRST_SECTION + 5 * |xs| <= PAGE ==> ok
  {
    var i := 0;
    ok := true;
    assert xs[..0] == [];
    while ok && i < |xs|
      invariant 0 <= i <= |xs|
      invariant ok ==> d.Valid() && |d.sections| <= FIRST_SECTION + 5 * i && Means(d.S(), xs[..i])
      invariant FIRST_SECTION + 5 * |xs| <= PAGE ==> ok
      decreases ok, |xs| - i
    {
      ghost var s := d.S();
      NextVacant(s, xs, i);
      ok := d.MemAdd(xs[i]);
      if ok { NextMeans(s, d.S(), xs, i); }
      i := i + 1;
    }
    assert ok ==> xs[..i] == xs;
  }

  // ----- pieces of a section -----

  /** Nothing is mapped where x is to go: the caller's flat view has disjoint sections. */
  ghost predicate Vacant(s: Snap, x: Section) {
    forall a: nat :: a < ADDR_LIMIT && Holds(x, a) ==> Target(s, a).0 == Unassigned
  }

  lemma VacantResolves(s: Snap, x: Section)
    requires Inv(s) && Vacant(s, x) && x.addr + x.size <= ADDR_LIMIT
    ensures forall a: nat :: Holds(x, a) ==> Resolve(s, a) == UNASSIGNED
  {
    forall a: nat | Holds(x, a) ensures Resolve(s, a) == UNASSIGNED {
      assert Target(s, a).0 == Unassigned;
      ResolveCases(s, a);
    }
  }

  /** y shows the same bytes of the same region as x, where it lies in x. */
  predicate PieceOf(x: Section, y: Section) {
    y.mr == x.mr && y.offset - y.addr == x.offset - x.addr && x.addr <= y.addr && y.addr + y.size <= x.addr + x.size
  }

  /** The addresses of x below `upto` have been added. */
  ghost predicate Added(s0: Snap, s: Snap, x: Section, upto: nat) {
    forall a: nat :: a < ADDR_LIMIT ==>
      Target(s, a) == if x.addr <= a < upto then (x.mr, a - x.addr + x.offset) else Target(s0, a)
  }

  lemma PieceVacant(s0: Snap, s: Snap, x: Section, y: Section, upto: nat)
    requires Vacant(s0, x) && Added(s0, s, x, upto) && PieceOf(x, y) && upto <= y.addr
    ensures Vacant(s, y)
  {
    forall a: nat | a < ADDR_LIMIT && Holds(y, a) ensures Target(s, a).0 == Unassigned {
      assert Holds(x, a);
    }
  }

  lemma NoneAdded(s: Snap, x: Section)
    ensures Added(s, s, x, x.addr)
  {}

  lemma PieceAdded(s0: Snap, s: Snap, s': Snap, x: Section, y: Section)
    requires Added(s0, s, x, y.addr) && PieceOf(x, y) && Shows(s, s', y)
    ensures Added(s0, s', x, y.addr + y.size)
  {}

  /** The bytes left in the page of an address, as mem_add works them out in 64 bits. */
  function LeftInPage(addr: nat): (left: nat)
    requires addr < ADDR_LIMIT && addr % PAGE != 0
    ensures 0 < left < PAGE && (addr + left) % PAGE == 0
  {
    NextPageUp(addr);
    Distance(AlignUp(addr, PAGE), addr, ADDR_LIMIT);
    (AlignUp(addr, PAGE) % ADDR_LIMIT - addr) % ADDR_LIMIT
  }

  /** How much of a section lies in the page it begins in. */
  function HeadSize(addr: nat, size: nat): (n: nat)
    requires addr < ADDR_LIMIT && addr % PAGE != 0 && size > 0
    ensures 0 < n <= size && addr % PAGE + n <= PAGE && (n == size || (addr + n) % PAGE == 0)
  {
    var left := LeftInPage(addr);
    PageEnd(addr, left);
    Min(left, size)
  }

  lemma PageEnd(addr: nat, left: nat)
    requires 0 < left < PAGE && (addr + left) % PAGE == 0
    ensures addr % PAGE + left == PAGE
  {}

  lemma NextPageUp(addr: nat)
    requires addr < ADDR_LIMIT && addr % PAGE != 0
    ensures addr < AlignUp(addr, PAGE) <= ADDR_LIMIT
  {
    var up := AlignUp(addr, PAGE);
    assert ADDR_LIMIT % PAGE == 0;
    if up > ADDR_LIMIT { MultiplesApart(ADDR_LIMIT, up, PAGE); }
  }

  lemma Distance(up: nat, addr: nat, limit: nat)
    requires 0 < addr < up <= limit
    ensures (up % limit - addr) % limit == up - addr
  {
    if up == limit {
      DivModUnique(up, limit, 1, 0);
      DivModUnique(0 - addr, limit, -1, limit - addr);
    } else {
      DivModUnique(up, limit, 0, up);
      DivModUnique(up - addr, limit, 0, up - addr);
    }
  }

  /** The page has subpage number id. */
  ghost predicate SubpageOpen(s: Snap, page: nat, id: nat) {
    var v := PageSec(s, page);
    FIRST_SECTION <= v < |s.sections| && s.sections[v].mr == Sub(id) && id < |s.bases| && s.bases[id] == page * PAGE
  }

  lemma PagesFit()
    ensures PAGES <= TREE_PAGES == Step(LEVELS)
  {
    assert Step(1) == 512;
    assert Step(2) == 0x4_0000;
    assert Step(3) == 0x800_0000;
    assert Step(4) == 0x10_0000_0000;
    assert Step(5) == 0x2000_0000_0000;
    assert Step(6) == 0x40_0000_0000_0000;
  }
}
