/** What a dispatch structure means: the region and offset each address leads to. */
module Flat {
  import opened Radix

  const PAGE: nat := 4096                        // TARGET_PAGE_SIZE
  const ADDR_LIMIT: nat := 0x1_0000_0000_0000_0000
  const PAGES: nat := 0x10_0000_0000_0000        // ADDR_LIMIT / PAGE
  const TREE_PAGES: nat := 0x40_0000_0000_0000   // pages the tree has room for, Step(LEVELS)
  const FIRST_SECTION: nat := 4                  // after unassigned, notdirty, rom and watch

  datatype Region = Unassigned | NotDirty | Rom | Watch | Sub(id: nat) | Mem(id: nat)

  // A MemoryRegionSection: `size` bytes at `addr` show `mr` from `offset` on.
  datatype Section = Section(mr: Region, addr: nat, offset: nat, size: nat)

  // `subs` are the sub_section tables and `bases` the base addresses of the subpages.
  datatype Snap = Snap(nodes: seq<Node>, root: Entry, sections: seq<Section>, subs: seq<seq<nat>>, bases: seq<nat>)

  predicate Holds(s: Section, addr: nat) { s.addr <= addr < s.addr + s.size }

  /** The test at the end of phys_page_find: a size of 2^64 covers everything. */
  predicate CoversByte(s: Section, addr: nat) {
    s.size >= ADDR_LIMIT || (s.addr <= addr && addr <= s.addr + s.size - 1)
  }

  function PageSec(s: Snap, page: nat): nat { Walk(s.nodes, s.root, LEVELS, page) }

  /** phys_page_find. */
  function Find(s: Snap, addr: nat): nat {
    var v := PageSec(s, addr / PAGE);
    if v < |s.sections| && CoversByte(s.sections[v], addr) then v else UNASSIGNED
  }

  /** address_space_lookup_region with subpages resolved. */
  function Resolve(s: Snap, addr: nat): nat {
    var v := Find(s, addr);
    if v < |s.sections| && s.sections[v].mr.Sub? then
      var id := s.sections[v].mr.id;
      if id < |s.subs| && |s.subs[id]| == PAGE then s.subs[id][addr % PAGE] else v
    else v
  }

  /** address_space_translate_internal: the region and the offset in it. */
  function Target(s: Snap, addr: nat): (Region, int) {
    var v := Resolve(s, addr);
    if v < |s.sections| then (s.sections[v].mr, addr - s.sections[v].addr + s.sections[v].offset)
        else (Unassigned, addr)
  }

  // ----- the invariant while a map is built -----

  predicate SectionOk(s: Snap, v: nat)
    requires v < |s.sections|
  {
    var x := s.sections[v];
    match x.mr
    case Mem(_) => x.size > 0 && x.addr + x.size <= ADDR_LIMIT
    case Sub(id) =>
      && id < |s.subs| && id < |s.bases| && x.addr == s.bases[id]
      && x.size == PAGE && x.addr % PAGE == 0 && x.addr + PAGE <= ADDR_LIMIT
    case _ => false
  }

  predicate Dummies(s: Snap) {
    && |s.sections| >= FIRST_SECTION
    && s.sections[0] == Section(Unassigned, 0, 0, ADDR_LIMIT) && s.sections[1] == Section(NotDirty, 0, 0, ADDR_LIMIT)
    && s.sections[2] == Section(Rom, 0, 0, ADDR_LIMIT) && s.sections[3] == Section(Watch, 0, 0, ADDR_LIMIT)
  }

  predicate SectionsOk(s: Snap) {
    && Dummies(s) && |s.subs| == |s.bases|
    && (forall v :: FIRST_SECTION <= v < |s.sections| ==> SectionOk(s, v))
    && (forall v, w :: FIRST_SECTION <= v < w < |s.sections| && s.sections[v].mr.Sub? ==>
      s.sections[v].mr != s.sections[w].mr)
  }

  /** A subpage table leads only to sections that hold the byte. */
  predicate TableOk(s: Snap, id: nat)
    requires id < |s.subs| == |s.bases|
  {
    && |s.subs[id]| == PAGE
    && forall o :: 0 <= o < PAGE ==>
         var t := s.subs[id][o];
         || t == UNASSIGNED
         || (FIRST_SECTION <= t < |s.sections| && s.sections[t].mr.Mem? && Holds(s.sections[t], s.bases[id] + o))
  }

  predicate TablesOk(s: Snap) {
    |s.subs| == |s.bases| && forall id :: 0 <= id < |s.subs| ==> TableOk(s, id)
  }

  /** A page's section starts and ends on page boundaries and is the section of all its pages. */
  ghost predicate PageOk(s: Snap, page: nat) {
    var v := PageSec(s, page);
    v == UNASSIGNED ||
    ( && FIRST_SECTION <= v < |s.sections|
      && s.sections[v].addr % PAGE == 0
      && s.sections[v].addr <= page * PAGE && page * PAGE + PAGE <= s.sections[v].addr + s.sections[v].size
      && forall q: nat :: q < PAGES && Holds(s.sections[v], q * PAGE) ==> PageSec(s, q) == v)
  }

  ghost predicate PagesOk(s: Snap) {
    forall page: nat :: page < TREE_PAGES ==> PageOk(s, page)
  }

  /** A subpage shows at least one byte of some section. */
  ghost predicate SubsUsed(subs: seq<seq<nat>>) {
    forall id :: 0 <= id < |subs| ==> TableUsed(subs[id])
  }

  ghost predicate TableUsed(table: seq<nat>) {
    exists o :: 0 <= o < |table| && table[o] != UNASSIGNED
  }

  ghost predicate Inv(s: Snap) {
    SectionsOk(s) && TablesOk(s) && PagesOk(s)
  }

  // ----- reading the invariant -----

  lemma PageOf(addr: nat)
    requires addr < ADDR_LIMIT
    ensures addr / PAGE < PAGES && (addr / PAGE) * PAGE <= addr < (addr / PAGE) * PAGE + PAGE
    ensures addr % PAGE == addr - (addr / PAGE) * PAGE
  {}

  lemma PageOfByte(page: nat, o: nat)
    requires o < PAGE
    ensures (page * PAGE + o) / PAGE == page && (page * PAGE + o) % PAGE == o
  {}

  /** In a map that is being built the range test never fails. */
  lemma FindIsPageSec(s: Snap, addr: nat)
    requires Inv(s) && addr < ADDR_LIMIT
    ensures Find(s, addr) == PageSec(s, addr / PAGE)
  {
    PageOf(addr);
    assert PageOk(s, addr / PAGE);
  }

  /** How an address resolves, by the kind of its page's section. */
  lemma ResolveCases(s: Snap, addr: nat)
    requires Inv(s) && addr < ADDR_LIMIT
    ensures var v := PageSec(s, addr / PAGE);
      && (v == UNASSIGNED ==> Resolve(s, addr) == UNASSIGNED)
      && (v != UNASSIGNED ==> FIRST_SECTION <= v < |s.sections| && SectionOk(s, v))
      && (v != UNASSIGNED && s.sections[v].mr.Mem? ==> Resolve(s, addr) == v)
      && (v != UNASSIGNED && s.sections[v].mr.Sub? ==>
            && s.bases[s.sections[v].mr.id] == (addr / PAGE) * PAGE
            && TableOk(s, s.sections[v].mr.id)
            && Resolve(s, addr) == s.subs[s.sections[v].mr.id][addr % PAGE])
  {
    FindIsPageSec(s, addr);
    PageOf(addr);
    assert PageOk(s, addr / PAGE);
    var v := PageSec(s, addr / PAGE);
    if v != UNASSIGNED {
      assert SectionOk(s, v);
      if s.sections[v].mr.Sub? {
        assert TableOk(s, s.sections[v].mr.id);
        MultipleUnique(s.sections[v].addr, (addr / PAGE) * PAGE);
      }
    }
  }

  lemma MultipleUnique(a: nat, b: nat)
    requires a % PAGE == 0 && b % PAGE == 0 && a <= b < a + PAGE
    ensures a == b
  {}

  /** A page without free bytes only: if all its bytes are unassigned, so is the page. */
  lemma FreePage(s: Snap, page: nat)
    requires Inv(s) && SubsUsed(s.subs) && page < PAGES
    requires forall a: nat :: page * PAGE <= a < page * PAGE + PAGE ==> Resolve(s, a) == UNASSIGNED
    ensures PageSec(s, page) == UNASSIGNED
  {
    var v := PageSec(s, page);
    PageOfByte(page, 0);
    ResolveCases(s, page * PAGE);
    if v != UNASSIGNED && s.sections[v].mr.Sub? {
      var id := s.sections[v].mr.id;
      assert TableUsed(s.subs[id]);
      var o :| 0 <= o < |s.subs[id]| && s.subs[id][o] != UNASSIGNED;
      PageOfByte(page, o);
      ResolveCases(s, page * PAGE + o);
    }
  }
}
