/** The effect on the meaning of a dispatch structure of registering one piece of a section. */
module FlatSteps {
  import opened Radix
  import opened Flat

  /** From s to s' the addresses of x, and no others, start to show x. */
  ghost predicate Shows(s: Snap, s': Snap, x: Section) {
    forall a: nat :: a < ADDR_LIMIT ==>
      Target(s', a) == if Holds(x, a) then (x.mr, a - x.addr + x.offset) else Target(s, a)
  }

  /** x has been given its own entry in the page map, for n pages from `page` on. */
  ghost predicate Mapped(s: Snap, s': Snap, x: Section, page: nat, n: nat) {
    && s'.sections == s.sections + [x]
    && (forall p: nat :: p < TREE_PAGES ==> PageSec(s', p) == if page <= p < page + n then |s.sections|
        else PageSec(s, p))
    && (forall p: nat :: page <= p < page + n ==> PageSec(s, p) == UNASSIGNED)
    && x.addr == page * PAGE && x.size == n * PAGE && n > 0 && page + n <= PAGES
  }

  lemma MappedPages(s: Snap, s': Snap, x: Section, page: nat, n: nat)
    requires PagesOk(s) && Mapped(s, s', x, page, n) && |s.sections| >= FIRST_SECTION
    ensures PagesOk(s')
  {
    var k := |s.sections|;
    forall p: nat | p < TREE_PAGES ensures PageOk(s', p) {
      assert PageOk(s, p);
      var v := PageSec(s', p);
      if page <= p < page + n {
        forall q: nat | q < PAGES && Holds(s'.sections[v], q * PAGE) ensures PageSec(s', q) == v {}
      } else if v != UNASSIGNED {
        forall q: nat | q < PAGES && Holds(s'.sections[v], q * PAGE) ensures PageSec(s', q) == v {
          assert PageSec(s, q) == v;
        }
      }
    }
  }

  lemma SectionAdded(s: Snap, s': Snap, x: Section)
    requires SectionsOk(s) && s'.sections == s.sections + [x] && |s.subs| <= |s'.subs| && s.bases <= s'.bases
    requires |s'.subs| == |s'.bases|
    requires SectionOk(s', |s.sections|)
    requires x.mr.Sub? ==> x.mr.id == |s.subs|
    ensures SectionsOk(s')
  {
    forall v | FIRST_SECTION <= v < |s'.sections| ensures SectionOk(s', v) {
      if v < |s.sections| { assert SectionOk(s, v); }
    }
    forall v, w | FIRST_SECTION <= v < w < |s'.sections| && s'.sections[v].mr.Sub?
      ensures s'.sections[v].mr != s'.sections[w].mr
    {
      assert SectionOk(s, v);
    }
  }

  lemma TableKept(s: Snap, s': Snap, id: nat)
    requires id < |s.subs| == |s.bases| && TableOk(s, id) && s.sections <= s'.sections
    requires id < |s'.subs| == |s'.bases| && s'.subs[id] == s.subs[id] && s'.bases[id] == s.bases[id]
    ensures TableOk(s', id)
  {}

  /** An address of a page whose section and table are as they were keeps its target. */
  lemma TargetKept(s: Snap, s': Snap, a: nat)
    requires Inv(s) && Inv(s') && a < ADDR_LIMIT && s.sections <= s'.sections
    requires PageSec(s', a / PAGE) == PageSec(s, a / PAGE)
    requires forall id :: 0 <= id < |s.subs| ==>
      && id < |s'.subs| && |s'.subs[id]| == PAGE == |s.subs[id]|
      && (s.bases[id] == (a / PAGE) * PAGE ==> s'.subs[id][a % PAGE] == s.subs[id][a % PAGE])
    ensures Target(s', a) == Target(s, a)
  {
    ResolveCases(s, a);
    ResolveCases(s', a);
    assert Resolve(s', a) == Resolve(s, a);
    assert Resolve(s, a) < |s.sections|;
  }

  /** register_multipage: whole pages of x. */
  lemma MultipageShows(s: Snap, s': Snap, x: Section, page: nat, n: nat)
    requires Inv(s) && Mapped(s, s', x, page, n) && x.mr.Mem? && s'.subs == s.subs && s'.bases == s.bases
    ensures Inv(s') && Shows(s, s', x)
  {
    MappedPages(s, s', x, page, n);
    SectionAdded(s, s', x);
    forall id | 0 <= id < |s'.subs| ensures TableOk(s', id) { TableKept(s, s', id); }
    forall a: nat | a < ADDR_LIMIT
      ensures Target(s', a) == if Holds(x, a) then (x.mr, a - x.addr + x.offset) else Target(s, a)
    {
      PageOf(a);
      assert Holds(x, a) <==> page <= a / PAGE < page + n;
      if Holds(x, a) { ResolveCases(s', a); } else { TablesSized(s); TargetKept(s, s', a); }
    }
  }

  lemma TablesSized(s: Snap)
    requires TablesOk(s)
    ensures forall id :: 0 <= id < |s.subs| ==> |s.subs[id]| == PAGE
  {
    forall id | 0 <= id < |s.subs| ensures |s.subs[id]| == PAGE { assert TableOk(s, id); }
  }

  function EmptyTable(): seq<nat> { seq(PAGE, _ => UNASSIGNED) }

  /** subpage_init and its entry in the map: nothing can be seen of it yet. */
  lemma SubpageUnseen(s: Snap, s': Snap, page: nat)
    requires Inv(s) && Mapped(s, s', Section(Sub(|s.subs|), page * PAGE, 0, PAGE), page, 1)
    requires s'.subs == s.subs + [EmptyTable()] && s'.bases == s.bases + [page * PAGE]
    ensures Inv(s') && forall a: nat :: a < ADDR_LIMIT ==> Target(s', a) == Target(s, a)
  {
    var x := Section(Sub(|s.subs|), page * PAGE, 0, PAGE);
    MappedPages(s, s', x, page, 1);
    SectionAdded(s, s', x);
    forall id | 0 <= id < |s'.subs| ensures TableOk(s', id) {
      if id < |s.subs| { TableKept(s, s', id); }
    }
    TablesSized(s);
    forall a: nat | a < ADDR_LIMIT ensures Target(s', a) == Target(s, a) {
      if a / PAGE == page {
        ResolveCases(s', a);
        ResolveCases(s, a);
      } else {
        TargetKept(s, s', a);
      }
    }
  }

  /** subpage_register: the bytes of x, all on one page, in the page's table. */
  ghost predicate Filled(s: Snap, s': Snap, x: Section, id: nat) {
    && s'.sections == s.sections + [x] && s'.nodes == s.nodes && s'.root == s.root && s'.bases == s.bases
    && id < |s.subs| == |s'.subs| && id < |s.bases| && |s.subs[id]| == PAGE == |s'.subs[id]|
    && (forall i :: 0 <= i < |s.subs| && i != id ==> s'.subs[i] == s.subs[i])
    && (forall o :: 0 <= o < PAGE ==> s'.subs[id][o] == if Holds(x, s.bases[id] + o) then |s.sections|
        else s.subs[id][o])
    && s.bases[id] <= x.addr && x.addr + x.size <= s.bases[id] + PAGE
  }

  lemma FilledInv(s: Snap, s': Snap, x: Section, id: nat)
    requires Inv(s) && Filled(s, s', x, id) && x.mr.Mem? && x.size > 0 && x.addr + x.size <= ADDR_LIMIT
    ensures Inv(s')
  {
    SectionAdded(s, s', x);
    forall p: nat | p < TREE_PAGES ensures PageOk(s', p) {
      assert PageOk(s, p);
      var v := PageSec(s, p);
      forall q: nat | v != UNASSIGNED && q < PAGES && Holds(s'.sections[v], q * PAGE) ensures PageSec(s', q) == v {
        assert PageSec(s, q) == v;
      }
    }
    forall i | 0 <= i < |s'.subs| ensures TableOk(s', i) {
      if i != id { TableKept(s, s', i); } else { assert TableOk(s, id); }
    }
  }

  lemma SubpageShows(s: Snap, s': Snap, x: Section, id: nat, page: nat)
    requires Inv(s) && Filled(s, s', x, id) && x.mr.Mem? && x.size > 0 && page < PAGES
    requires PageSec(s, page) >= FIRST_SECTION && PageSec(s, page) < |s.sections|
    requires s.sections[PageSec(s, page)].mr == Sub(id)
    requires s.bases[id] == page * PAGE
    ensures Inv(s') && Shows(s, s', x)
  {
    FilledInv(s, s', x, id);
    TablesSized(s);
    forall a: nat | a < ADDR_LIMIT
      ensures Target(s', a) == if Holds(x, a) then (x.mr, a - x.addr + x.offset) else Target(s, a)
    {
      PageOf(a);
      if a / PAGE == page {
        ResolveCases(s, a);
        ResolveCases(s', a);
        assert s'.subs[id][a % PAGE] == if Holds(x, s.bases[id] + a % PAGE) then |s.sections| else s.subs[id][a % PAGE];
      } else {
        OtherPage(s, s', x, id, a);
      }
    }
  }

  lemma OtherPage(s: Snap, s': Snap, x: Section, id: nat, a: nat)
    requires Inv(s) && Inv(s') && Filled(s, s', x, id) && a < ADDR_LIMIT && s.bases[id] != (a / PAGE) * PAGE
    requires s.bases[id] % PAGE == 0
    ensures !Holds(x, a) && Target(s', a) == Target(s, a)
  {
    TablesSized(s);
    PageOf(a);
    if Holds(x, a) { MultipleUnique2(s.bases[id], a); }
    TargetKept(s, s', a);
  }

  lemma MultipleUnique2(b: nat, a: nat)
    requires b % PAGE == 0 && b <= a < b + PAGE
    ensures b == (a / PAGE) * PAGE
  {}
}
