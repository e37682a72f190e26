/** The multi-level page map of exec.c as an array of nodes, and the walk over it. */
module Radix {
  import opened Arith

  const L2_SIZE: nat := 512       // P_L2_SIZE
  const LEVELS: nat := 6          // P_L2_LEVELS for 12-bit target pages
  const NIL: nat := 0x3ff_ffff    // PHYS_MAP_NODE_NIL, 26 bits
  const UNASSIGNED: nat := 0      // PHYS_SECTION_UNASSIGNED

  // skip is 0 for a leaf, whose ptr is a section number; otherwise ptr is a node number
  // or NIL and skip says how many levels down that node is.
  datatype Entry = Entry(skip: nat, ptr: nat)

  type Node = seq<Entry>

  /** Pages covered by an entry at height h: 1 << (h * P_L2_BITS). */
  function Step(h: nat): (r: nat)
    ensures r >= 1
  {
    if h == 0 then 1 else L2_SIZE * Step(h - 1)
  }

  /** The index bits of a page at a level. */
  function Digit(page: nat, level: nat): (d: nat)
    ensures d < L2_SIZE
  {
    (page / Step(level)) % L2_SIZE
  }

  /** The loop of phys_page_find from an entry at height h: the section number it ends on. */
  function Walk(nodes: seq<Node>, e: Entry, h: nat, page: nat): nat
    decreases h
  {
    if e.skip == 0 || h < e.skip then e.ptr
    else if e.ptr == NIL then UNASSIGNED
    else if e.ptr < |nodes| && |nodes[e.ptr]| == L2_SIZE then
      Walk(nodes, nodes[e.ptr][Digit(page, h - e.skip)], h - e.skip, page)
    else UNASSIGNED
  }

  // ----- where nodes sit -----

  // A node of level l based at page b covers [b, b + Step(l + 1)).
  datatype Place = Place(level: nat, base: nat)

  datatype Heap = Heap(nodes: seq<Node>, place: seq<Place>)

  /** The node's pages lie in the Step(h) pages from b on. */
  predicate Inside(p: Place, h: nat, b: nat) {
    b <= p.base && p.base + Step(p.level + 1) <= b + Step(h)
  }

  function SlotBase(p: Place, k: nat): nat { p.base + k * Step(p.level) }

  /** An entry that covers the Step(h) pages from b on, before compaction. */
  predicate SlotOk(g: Heap, e: Entry, h: nat, b: nat) {
    if e.skip == 0 then e.ptr < NIL && (h > 0 ==> e.ptr != UNASSIGNED)
    else
      && e.skip == 1 && h > 0
      && (e.ptr != NIL ==> e.ptr < |g.nodes| && e.ptr < |g.place| && g.place[e.ptr] == Place(h - 1, b))
  }

  predicate NodeOk(g: Heap, n: nat)
    requires n < |g.nodes| && n < |g.place|
  {
    && |g.nodes[n]| == L2_SIZE && g.place[n].level < LEVELS
    && g.place[n].base % Step(g.place[n].level + 1) == 0
    && forall k :: 0 <= k < L2_SIZE ==> SlotOk(g, g.nodes[n][k], g.place[n].level, SlotBase(g.place[n], k))
  }

  predicate Built(g: Heap) {
    && |g.nodes| == |g.place|
    && forall n :: 0 <= n < |g.nodes| ==> NodeOk(g, n)
  }

  // ----- index arithmetic -----

  lemma SlotRange(p: Place, k: nat)
    requires k < L2_SIZE
    ensures p.base <= SlotBase(p, k) && SlotBase(p, k) + Step(p.level) <= p.base + Step(p.level + 1)
    ensures SlotBase(p, k) + Step(p.level) == SlotBase(p, k + 1)
  {
    var s := Step(p.level);
    assert (k + 1) * s == k * s + s;
    MulMono(k + 1, L2_SIZE, s);
  }

  lemma SlotsApart(p: Place, j: nat, k: nat)
    requires j < k
    ensures SlotBase(p, j) + Step(p.level) <= SlotBase(p, k)
  {
    var s := Step(p.level);
    assert (j + 1) * s == j * s + s;
    MulMono(j + 1, k, s);
  }

  lemma DigitArith(base: nat, page: nat, s: nat, q: nat, d: nat, r: nat)
    requires s > 0 && base == q * (L2_SIZE * s) && base <= page < base + L2_SIZE * s
    requires page - base == d * s + r && r < s
    ensures d < L2_SIZE && page / s % L2_SIZE == d
  {
    if d >= L2_SIZE { MulMono(L2_SIZE, d, s); }
    assert q * (L2_SIZE * s) == (q * L2_SIZE) * s;
    assert page == (q * L2_SIZE + d) * s + r;
    DivModUnique(page, s, q * L2_SIZE + d, r);
    DivModUnique(q * L2_SIZE + d, L2_SIZE, q, d);
  }

  /** A page's digit names the slot of a node that holds the page. */
  lemma DigitSlot(p: Place, page: nat)
    requires p.base % Step(p.level + 1) == 0 && p.base <= page < p.base + Step(p.level + 1)
    ensures var k := Digit(page, p.level); SlotBase(p, k) <= page < SlotBase(p, k) + Step(p.level)
  {
    var s, t := Step(p.level), Step(p.level + 1);
    assert t == L2_SIZE * s;
    hide Step;
    var q := p.base / t;
    assert p.base == q * t;
    var d, r := (page - p.base) / s, (page - p.base) % s;
    DigitArith(p.base, page, s, q, d, r);
  }

  lemma SlotDigit(p: Place, k: nat, page: nat)
    requires p.base % Step(p.level + 1) == 0 && k < L2_SIZE
    requires SlotBase(p, k) <= page < SlotBase(p, k) + Step(p.level)
    ensures Digit(page, p.level) == k
  {
    SlotRange(p, k);
    DigitSlot(p, page);
    var d := Digit(page, p.level);
    if d < k { SlotsApart(p, d, k); } else if k < d { SlotsApart(p, k, d); }
  }

  lemma SlotAligned(p: Place, k: nat)
    requires p.base % Step(p.level + 1) == 0
    ensures SlotBase(p, k) % Step(p.level) == 0
  {
    var s := Step(p.level);
    var q := p.base / Step(p.level + 1);
    assert p.base == q * (L2_SIZE * s);
    assert SlotBase(p, k) == (q * L2_SIZE + k) * s;
    MulMod(q * L2_SIZE + k, s);
  }

  // ----- frames -----

  /** g' has g's nodes, possibly with other entries, and maybe more. */
  predicate Extends(g: Heap, g': Heap) {
    && |g.nodes| == |g.place| && |g'.nodes| == |g'.place|
    && g.place <= g'.place
  }

  /** Every node of g that lies in the Step(h) pages from b on is as it was. */
  predicate SameInside(g: Heap, g': Heap, h: nat, b: nat)
    requires Extends(g, g')
  {
    forall m :: 0 <= m < |g.nodes| && Inside(g.place[m], h, b) ==> g'.nodes[m] == g.nodes[m]
  }

  /** Only nodes that lie in the Step(h) pages from b on may differ. */
  predicate SameOutside(g: Heap, g': Heap, h: nat, b: nat)
    requires Extends(g, g')
  {
    forall m :: 0 <= m < |g.nodes| && !Inside(g.place[m], h, b) ==> g'.nodes[m] == g.nodes[m]
  }

  lemma SlotKept(g: Heap, g': Heap, e: Entry, h: nat, b: nat)
    requires Extends(g, g') && SlotOk(g, e, h, b)
    ensures SlotOk(g', e, h, b)
  {}

  lemma InsideSlot(q: Place, p: Place, k: nat)
    requires k < L2_SIZE && Inside(q, p.level, SlotBase(p, k))
    ensures Inside(q, p.level + 1, p.base) && q != p
  {
    SlotRange(p, k);
  }

  lemma InsideTrans(q: Place, p: Place, h: nat, b: nat)
    requires Inside(q, p.level + 1, p.base) && Inside(p, h, b)
    ensures Inside(q, h, b)
  {}

  // ----- linked heaps -----

  /** An entry that covers the Step(h) pages from b on, compacted or not: the node it leads to
      is `skip` levels down and lies in those pages. */
  predicate Linked(g: Heap, e: Entry, h: nat, b: nat) {
    e.skip != 0 ==>
      && e.skip <= h
      && (e.ptr != NIL ==>
            && e.ptr < |g.nodes| && e.ptr < |g.place|
            && g.place[e.ptr].level == h - e.skip && Inside(g.place[e.ptr], h, b))
  }

  predicate NodeLinked(g: Heap, n: nat)
    requires n < |g.nodes| && n < |g.place|
  {
    && |g.nodes[n]| == L2_SIZE && g.place[n].level < LEVELS
    && g.place[n].base % Step(g.place[n].level + 1) == 0
    && forall k :: 0 <= k < L2_SIZE ==> Linked(g, g.nodes[n][k], g.place[n].level, SlotBase(g.place[n], k))
  }

  predicate AllLinked(g: Heap) {
    && |g.nodes| == |g.place|
    && forall n :: 0 <= n < |g.nodes| ==> NodeLinked(g, n)
  }

  lemma NodeOkLinked(g: Heap, n: nat)
    requires n < |g.nodes| == |g.place| && NodeOk(g, n)
    ensures NodeLinked(g, n)
  {
    forall k | 0 <= k < L2_SIZE ensures Linked(g, g.nodes[n][k], g.place[n].level, SlotBase(g.place[n], k)) {
      assert SlotOk(g, g.nodes[n][k], g.place[n].level, SlotBase(g.place[n], k));
    }
  }

  lemma BuiltLinked(g: Heap)
    requires Built(g)
    ensures AllLinked(g)
  {
    forall n | 0 <= n < |g.nodes| ensures NodeLinked(g, n) { NodeOkLinked(g, n); }
  }

  /** A walk from an entry stays in the entry's pages. */
  lemma {:induction false} WalkFrame(g: Heap, g': Heap, e: Entry, h: nat, b: nat, page: nat)
    requires AllLinked(g) && Extends(g, g') && Linked(g, e, h, b) && SameInside(g, g', h, b)
    ensures Walk(g'.nodes, e, h, page) == Walk(g.nodes, e, h, page)
    decreases h
  {
    if e.skip != 0 && e.ptr != NIL {
      var p, k := g.place[e.ptr], Digit(page, h - e.skip);
      assert NodeLinked(g, e.ptr);
      forall m | 0 <= m < |g.nodes| && Inside(g.place[m], p.level, SlotBase(p, k)) ensures g'.nodes[m] == g.nodes[m] {
        InsideSlot(g.place[m], p, k);
        InsideTrans(g.place[m], p, h, b);
      }
      WalkFrame(g, g', g.nodes[e.ptr][k], h - e.skip, SlotBase(p, k), page);
    }
  }

  /** Places in two different slots of a node are different. */
  lemma SlotsDisjoint(q: Place, p: Place, j: nat, k: nat)
    requires j != k && Inside(q, p.level, SlotBase(p, j))
    ensures !Inside(q, p.level, SlotBase(p, k))
  {
    if j < k { SlotsApart(p, j, k); } else { SlotsApart(p, k, j); }
  }
}
