/** Path compression of the page map: phys_page_compact of exec.c. */
module PhysCompact {
  import opened Arith
  import opened Radix
  import opened PhysMap

  const SKIP_LIMIT: nat := 8      // 1 << 3

  ghost predicate Hits(g: Heap, e: Entry, h: nat, b: nat, v: nat) {
    exists q: nat :: b <= q < b + Step(h) && Walk(g.nodes, e, h, q) == v
  }

  /** The new walk may go astray only for an unassigned page, and then it ends on the section
      of another page of the entry. */
  ghost predicate AgreesAt(g: Heap, g': Heap, e: Entry, e': Entry, h: nat, b: nat, page: nat) {
    var r, r' := Walk(g.nodes, e, h, page), Walk(g'.nodes, e', h, page);
    r' == r || (r == UNASSIGNED && Hits(g, e, h, b, r'))
  }

  ghost predicate Agrees(g: Heap, g': Heap, e: Entry, e': Entry, h: nat, b: nat) {
    forall page: nat :: b <= page < b + Step(h) ==> AgreesAt(g, g', e, e', h, b, page)
  }

  /** The nodes under an entry have not been compacted yet. */
  predicate FreshInside(g: Heap, h: nat, b: nat) {
    forall m :: 0 <= m < |g.nodes| && m < |g.place| && Inside(g.place[m], h, b) ==> NodeOk(g, m)
  }

  // ----- digits -----

  lemma DigitMod(page: nat, l: nat)
    ensures Digit(page, l) == (page % Step(l + 1)) / Step(l)
    ensures page % Step(l) == (page % Step(l + 1)) % Step(l)
  {
    var s := Step(l);
    var q, r := page / (L2_SIZE * s), page % (L2_SIZE * s);
    var d, t := r / s, r % s;
    assert page == q * (L2_SIZE * s) + r && r == d * s + t;
    assert q * (L2_SIZE * s) == (q * L2_SIZE) * s;
    assert page == (q * L2_SIZE + d) * s + t;
    DivModUnique(page, s, q * L2_SIZE + d, t);
    if d >= L2_SIZE { MulMono(L2_SIZE, d, s); }
    DivModUnique(q * L2_SIZE + d, L2_SIZE, q, d);
  }

  lemma {:induction false} ModDown(page: nat, page': nat, l: nat, h: nat)
    requires l <= h && page % Step(h) == page' % Step(h)
    ensures page % Step(l) == page' % Step(l)
    decreases h - l
  {
    if l < h {
      ModDown(page, page', l + 1, h);
      DigitMod(page, l);
      DigitMod(page', l);
    }
  }

  /** A walk looks only at the digits below its height. */
  lemma {:induction false} WalkDigits(g: Heap, e: Entry, h: nat, page: nat, page': nat)
    requires page % Step(h) == page' % Step(h)
    ensures Walk(g.nodes, e, h, page) == Walk(g.nodes, e, h, page')
    decreases h
  {
    if 0 < e.skip <= h && e.ptr != NIL && e.ptr < |g.nodes| && |g.nodes[e.ptr]| == L2_SIZE {
      var l := h - e.skip;
      ModDown(page, page', l + 1, h);
      DigitMod(page, l);
      DigitMod(page', l);
      WalkDigits(g, g.nodes[e.ptr][Digit(page, l)], l, page, page');
    }
  }

  // ----- one node -----

  lemma HitsUp(g: Heap, n: nat, k: nat, v: nat)
    requires n < |g.nodes| && n < |g.place| && n != NIL && NodeLinked(g, n) && k < L2_SIZE
    requires Hits(g, g.nodes[n][k], g.place[n].level, SlotBase(g.place[n], k), v)
    ensures Hits(g, Entry(1, n), g.place[n].level + 1, g.place[n].base, v)
  {
    var p := g.place[n];
    var h := p.level + 1;
    var q: nat :| SlotBase(p, k) <= q < SlotBase(p, k) + Step(p.level) && Walk(g.nodes, g.nodes[n][k], p.level, q) == v;
    SlotRange(p, k);
    SlotDigit(p, k, q);
    NodeWalk(g, n, p.level, q);
    assert Walk(g.nodes, Entry(1, n), h, q) == v;
  }

  /** Every entry of the node agrees with what it was. */
  ghost predicate SlotsAgree(g: Heap, g': Heap, n: nat, hi: nat)
    requires n < |g.nodes| && n < |g.place| && n < |g'.nodes|
    requires |g.nodes[n]| == L2_SIZE && |g'.nodes[n]| == L2_SIZE
  {
    forall k :: 0 <= k < hi && k < L2_SIZE ==>
      Agrees(g, g', g.nodes[n][k], g'.nodes[n][k], g.place[n].level, SlotBase(g.place[n], k))
  }

  lemma KeepAgrees(g: Heap, g': Heap, n: nat)
    requires n < |g.nodes| && n < |g.place| && n < |g'.nodes| && n != NIL && NodeLinked(g, n)
    requires |g'.nodes[n]| == L2_SIZE
    requires SlotsAgree(g, g', n, L2_SIZE)
    ensures Agrees(g, g', Entry(1, n), Entry(1, n), g.place[n].level + 1, g.place[n].base)
  {
    var p := g.place[n];
    var h := p.level + 1;
    forall page: nat | p.base <= page < p.base + Step(h)
      ensures AgreesAt(g, g', Entry(1, n), Entry(1, n), h, p.base, page)
    {
      DigitSlot(p, page);
      var k := Digit(page, p.level);
      assert AgreesAt(g, g', g.nodes[n][k], g'.nodes[n][k], p.level, SlotBase(p, k), page);
      NodeWalk(g, n, p.level, page);
      NodeWalk(g', n, p.level, page);
      var r' := Walk(g'.nodes, g'.nodes[n][k], p.level, page);
      if Hits(g, g.nodes[n][k], p.level, SlotBase(p, k), r') { HitsUp(g, n, k, r'); }
    }
  }

  /** The entry phys_page_compact leaves when node n has one child, c. */
  function Bypass(lp: Entry, c: Entry): Entry {
    if c.skip == 0 then Entry(0, c.ptr) else Entry(lp.skip + c.skip, c.ptr)
  }

  lemma BypassWalk(g: Heap, c: Entry, level: nat, page: nat)
    requires c.skip <= level
    ensures Walk(g.nodes, Bypass(Entry(1, 0), c), level + 1, page) == Walk(g.nodes, c, level, page)
  {}

  /** An image of a page in slot v: the page with the same digits below the node. */
  lemma SlotTwin(p: Place, v: nat, page: nat) returns (q: nat)
    requires p.base % Step(p.level + 1) == 0 && v < L2_SIZE
    ensures SlotBase(p, v) <= q < SlotBase(p, v) + Step(p.level) && q % Step(p.level) == page % Step(p.level)
  {
    var s := Step(p.level);
    q := SlotBase(p, v) + page % s;
    SlotAligned(p, v);
    var d := SlotBase(p, v) / s;
    assert SlotBase(p, v) == d * s;
    DivModUnique(q, s, d, page % s);
  }

  lemma NilWalk(g: Heap, h: nat, page: nat)
    ensures Walk(g.nodes, Entry(1, NIL), h, page) == if h == 0 then NIL else UNASSIGNED
  {}

  lemma BypassAgreesAt(g: Heap, g': Heap, n: nat, v: nat, page: nat)
    requires n < |g.nodes| && n < |g.place| && n < |g'.nodes| && n != NIL && NodeLinked(g, n)
    requires |g'.nodes[n]| == L2_SIZE
    requires SlotsAgree(g, g', n, L2_SIZE) && v < L2_SIZE && g'.nodes[n][v].skip <= g.place[n].level
    requires forall k :: 0 <= k < L2_SIZE && k != v ==> g.nodes[n][k] == Entry(1, NIL)
    requires g.place[n].base <= page < g.place[n].base + Step(g.place[n].level + 1)
    ensures AgreesAt(g, g', Entry(1, n), Bypass(Entry(1, n), g'.nodes[n][v]), g.place[n].level + 1, g.place[n].base,
      page)
  {
    hide Walk, Digit;
    var p, c := g.place[n], g'.nodes[n][v];
    var sb := SlotBase(p, v);
    DigitSlot(p, page);
    NodeWalk(g, n, p.level, page);
    NilWalk(g, p.level, page);
    BypassWalk(g', c, p.level, page);
    var q := SlotTwin(p, v, page);
    WalkDigits(g', c, p.level, page, q);
    var twin := if Digit(page, p.level) == v then page else q;
    assert AgreesAt(g, g', g.nodes[n][v], c, p.level, sb, twin);
    var r' := Walk(g'.nodes, c, p.level, page);
    if Walk(g.nodes, g.nodes[n][v], p.level, twin) == r' {
      assert Hits(g, g.nodes[n][v], p.level, sb, r');
    }
    HitsUp(g, n, v, r');
  }

  // ----- the recursion -----

  lemma AgreesFrom(g0: Heap, g: Heap, g': Heap, e: Entry, e': Entry, h: nat, b: nat)
    requires AllLinked(g0) && Extends(g0, g) && Linked(g0, e, h, b) && SameInside(g0, g, h, b)
    requires Agrees(g, g', e, e', h, b)
    ensures Agrees(g0, g', e, e', h, b)
  {
    forall page: nat
      ensures Walk(g.nodes, e, h, page) == Walk(g0.nodes, e, h, page)
    {
      WalkFrame(g0, g, e, h, b, page);
    }
    forall page: nat | b <= page < b + Step(h) ensures AgreesAt(g0, g', e, e', h, b, page) {
      assert AgreesAt(g, g', e, e', h, b, page);
    }
  }

  lemma AgreesKeep(g0: Heap, g: Heap, g': Heap, e: Entry, e': Entry, h: nat, b: nat)
    requires AllLinked(g) && Extends(g, g') && Linked(g, e', h, b) && SameInside(g, g', h, b)
    requires Agrees(g0, g, e, e', h, b)
    ensures Agrees(g0, g', e, e', h, b)
  {
    forall page: nat | b <= page < b + Step(h) ensures AgreesAt(g0, g', e, e', h, b, page) {
      assert AgreesAt(g0, g, e, e', h, b, page);
      WalkFrame(g, g', e', h, b, page);
    }
  }

  /** The loop invariant of phys_page_compact: entries below i are compacted, the rest and
      everything under them is untouched. */
  ghost predicate NodeAt(g0: Heap, g: Heap, n: nat, i: nat) {
    && AllLinked(g0) && AllLinked(g) && g.place == g0.place && n < |g0.nodes| && n != NIL && i <= L2_SIZE
    && |g0.nodes[n]| == L2_SIZE && |g.nodes[n]| == L2_SIZE
    && SameOutside(g0, g, g0.place[n].level + 1, g0.place[n].base)
    && (forall k :: i <= k < L2_SIZE ==> g.nodes[n][k] == g0.nodes[n][k])
    && (forall k :: i <= k < L2_SIZE ==> SameInside(g0, g, g0.place[n].level, SlotBase(g0.place[n], k)))
    && SlotsAgree(g0, g, n, i)
    && (forall k :: 0 <= k < i ==> (g.nodes[n][k].ptr == NIL <==> g0.nodes[n][k].ptr == NIL))
  }

  lemma StoreLinked(g: Heap, n: nat, i: nat, e: Entry)
    requires AllLinked(g) && n < |g.nodes| && i < L2_SIZE && Linked(g, e, g.place[n].level, SlotBase(g.place[n], i))
    ensures |g.nodes[n]| == L2_SIZE
    ensures AllLinked(Heap(g.nodes[n := g.nodes[n][i := e]], g.place))
  {
    assert NodeLinked(g, n);
    var g' := Heap(g.nodes[n := g.nodes[n][i := e]], g.place);
    forall m | 0 <= m < |g'.nodes| ensures NodeLinked(g', m) {
      assert NodeLinked(g, m);
      forall k | 0 <= k < L2_SIZE ensures Linked(g', g'.nodes[m][k], g'.place[m].level, SlotBase(g'.place[m], k)) {
        assert Linked(g, g.nodes[m][k], g.place[m].level, SlotBase(g.place[m], k));
      }
    }
  }

  /** Entry i has been compacted to e, in g1, and is stored. */
  lemma SlotCompacted(g0: Heap, g: Heap, g1: Heap, g': Heap, n: nat, i: nat, e: Entry)
    requires NodeAt(g0, g, n, i) && i < L2_SIZE
    requires AllLinked(g1) && g1.place == g.place && SameOutside(g, g1, g.place[n].level, SlotBase(g.place[n], i))
    requires Linked(g1, e, g.place[n].level, SlotBase(g.place[n], i))
    requires Agrees(g, g1, g.nodes[n][i], e, g.place[n].level, SlotBase(g.place[n], i))
    requires e.ptr == NIL <==> g.nodes[n][i].ptr == NIL
    requires |g1.nodes[n]| == L2_SIZE && g' == Heap(g1.nodes[n := g1.nodes[n][i := e]], g1.place)
    ensures NodeAt(g0, g', n, i + 1)
  {
    var p := g.place[n];
    var sb := SlotBase(p, i);
    StoreLinked(g1, n, i, e);
    assert NodeLinked(g0, n) && NodeLinked(g, n);
    if Inside(p, p.level, sb) { InsideSlot(p, p, i); }
    assert g1.nodes[n] == g.nodes[n];
    assert Extends(g1, g') && Extends(g, g');
    AgreesFrom(g0, g, g1, g.nodes[n][i], e, p.level, sb);
    assert SameInside(g1, g', p.level, sb);
    AgreesKeep(g0, g1, g', g0.nodes[n][i], e, p.level, sb);
    forall k | 0 <= k < L2_SIZE && k != i ensures SameInside(g, g', p.level, SlotBase(p, k)) {
      OtherSlotSame(g, g1, g', n, i, k);
    }
    forall k | 0 <= k < i ensures Agrees(g0, g', g0.nodes[n][k], g'.nodes[n][k], p.level, SlotBase(p, k)) {
      AgreesKeep(g0, g, g', g0.nodes[n][k], g.nodes[n][k], p.level, SlotBase(p, k));
    }
    NodeOutside(g0, g, g1, g', n, i);
  }

  lemma OtherSlotSame(g: Heap, g1: Heap, g': Heap, n: nat, i: nat, k: nat)
    requires Extends(g, g1) && Extends(g, g') && g1.place == g.place == g'.place && n < |g.nodes| && i < L2_SIZE
    requires k < L2_SIZE && k != i
    requires SameOutside(g, g1, g.place[n].level, SlotBase(g.place[n], i))
    requires forall m :: 0 <= m < |g1.nodes| && m != n ==> g'.nodes[m] == g1.nodes[m]
    ensures SameInside(g, g', g.place[n].level, SlotBase(g.place[n], k))
  {
    var p := g.place[n];
    forall m | 0 <= m < |g.nodes| && Inside(g.place[m], p.level, SlotBase(p, k)) ensures g'.nodes[m] == g.nodes[m] {
      InsideSlot(g.place[m], p, k);
      SlotsDisjoint(g.place[m], p, k, i);
    }
  }

  lemma NodeOutside(g0: Heap, g: Heap, g1: Heap, g': Heap, n: nat, i: nat)
    requires Extends(g0, g) && Extends(g, g1) && Extends(g0, g') && g0.place == g.place == g1.place == g'.place
    requires n < |g.nodes| && i < L2_SIZE
    requires SameOutside(g0, g, g.place[n].level + 1, g.place[n].base)
    requires SameOutside(g, g1, g.place[n].level, SlotBase(g.place[n], i))
    requires forall m :: 0 <= m < |g1.nodes| && m != n ==> g'.nodes[m] == g1.nodes[m]
    ensures SameOutside(g0, g', g.place[n].level + 1, g.place[n].base)
  {
    var p := g.place[n];
    forall m | 0 <= m < |g0.nodes| && !Inside(g0.place[m], p.level + 1, p.base) ensures g'.nodes[m] == g0.nodes[m] {
      if Inside(g.place[m], p.level, SlotBase(p, i)) { InsideSlot(g.place[m], p, i); }
    }
  }

  // ----- how much is skipped -----

  /** Only one entry of the node leads anywhere. */
  ghost predicate OneChild(node: seq<Entry>) {
    exists k :: 0 <= k < |node| && OnlyAt(node, k)
  }

  predicate OnlyAt(node: seq<Entry>, k: nat)
    requires k < |node|
  {
    node[k].ptr != NIL && forall j :: 0 <= j < |node| && j != k ==> node[j].ptr == NIL
  }

  /** Nothing is left to skip: no walk from the entry passes through a node with a single child. */
  ghost predicate Tight(nodes: seq<seq<Entry>>, e: Entry, h: nat)
    decreases h
  {
    0 < e.skip <= h && e.ptr != NIL && e.ptr < |nodes| ==>
      && !OneChild(nodes[e.ptr])
      && forall k :: 0 <= k < |nodes[e.ptr]| ==> Tight(nodes, nodes[e.ptr][k], h - e.skip)
  }

  lemma {:induction false} TightFrame(g: Heap, g': Heap, e: Entry, h: nat, b: nat)
    requires AllLinked(g) && Extends(g, g') && g'.place == g.place && Linked(g, e, h, b) && SameInside(g, g', h, b)
    requires Tight(g.nodes, e, h)
    ensures Tight(g'.nodes, e, h)
    decreases h
  {
    if e.skip != 0 && e.ptr != NIL {
      var p := g.place[e.ptr];
      assert NodeLinked(g, e.ptr) && g'.nodes[e.ptr] == g.nodes[e.ptr];
      forall k | 0 <= k < L2_SIZE ensures Tight(g'.nodes, g'.nodes[e.ptr][k], h - e.skip) {
        forall m | 0 <= m < |g.nodes| && Inside(g.place[m], p.level, SlotBase(p, k)) ensures g'.nodes[m] == g.nodes[m] {
          InsideSlot(g.place[m], p, k);
          InsideTrans(g.place[m], p, h, b);
        }
        TightFrame(g, g', g.nodes[e.ptr][k], h - e.skip, SlotBase(p, k));
      }
    }
  }

  ghost predicate SlotsTight(g: Heap, n: nat, i: nat)
    requires n < |g.nodes| && n < |g.place| && i <= |g.nodes[n]|
  {
    forall k :: 0 <= k < i ==> Tight(g.nodes, g.nodes[n][k], g.place[n].level)
  }

  /** Entry i is compacted to e, in g1, and stored: the entries before it stay as they are. */
  lemma SlotTight(g: Heap, g1: Heap, g': Heap, n: nat, i: nat, e: Entry)
    requires AllLinked(g) && AllLinked(g1) && g1.place == g.place && n < |g.nodes| && i < L2_SIZE
    requires SameOutside(g, g1, g.place[n].level, SlotBase(g.place[n], i))
    requires Linked(g1, e, g.place[n].level, SlotBase(g.place[n], i)) && Tight(g1.nodes, e, g.place[n].level)
    requires |g.nodes[n]| == L2_SIZE == |g1.nodes[n]| && SlotsTight(g, n, i)
    requires g' == Heap(g1.nodes[n := g1.nodes[n][i := e]], g1.place)
    ensures SlotsTight(g', n, i + 1)
  {
    hide Tight;
    var p := g.place[n];
    assert NodeLinked(g, n);
    if Inside(p, p.level, SlotBase(p, i)) { InsideSlot(p, p, i); }
    assert g1.nodes[n] == g.nodes[n];
    assert SameInside(g1, g', p.level, SlotBase(p, i));
    TightFrame(g1, g', e, p.level, SlotBase(p, i));
    forall k | 0 <= k < i ensures Tight(g'.nodes, g'.nodes[n][k], p.level) {
      OtherSlotSame(g, g1, g', n, i, k);
      TightFrame(g, g', g.nodes[n][k], p.level, SlotBase(p, k));
    }
  }

  /** Skipping the node of an only child leaves nothing to skip. */
  lemma BypassTight(nodes: seq<seq<Entry>>, n: nat, v: nat, h: nat)
    requires n < |nodes| && v < |nodes[n]| && h > 0 && Tight(nodes, nodes[n][v], h - 1)
    ensures Tight(nodes, Bypass(Entry(1, n), nodes[n][v]), h)
  {
    var c := nodes[n][v];
    if 0 < c.skip <= h - 1 && c.ptr != NIL && c.ptr < |nodes| {
      assert h - 1 - c.skip == h - (1 + c.skip);
    }
  }

  lemma ManyTight(g: Heap, n: nat, h: nat)
    requires AllLinked(g) && n < |g.nodes| && |g.nodes[n]| == L2_SIZE && g.place[n].level == h - 1 && h > 0
    requires !OneChild(g.nodes[n]) && SlotsTight(g, n, L2_SIZE)
    ensures Tight(g.nodes, Entry(1, n), h)
  {}

  /** One round of the loop: entry i of node n. */
  method CompactSlot(map_: PhysPageMap, n: nat, i: nat, ghost g0: Heap) returns (valid: bool)
    requires NodeAt(g0, map_.G(), n, i) && i < L2_SIZE
    requires FreshInside(g0, g0.place[n].level + 1, g0.place[n].base) && SlotsTight(map_.G(), n, i)
    modifies map_`nodes
    ensures NodeAt(g0, map_.G(), n, i + 1) && SlotsTight(map_.G(), n, i + 1)
    ensures valid <==> g0.nodes[n][i].ptr != NIL
    decreases g0.place[n].level, 1
  {
    ghost var g := map_.G();
    ghost var p := g.place[n];
    var c := map_.nodes[n][i];
    valid := c.ptr != NIL;
    if valid && c.skip != 0 {
      SlotFresh(g0, g, n, i);
      var e := CompactEntry(map_, c, p.level, SlotBase(p, i));
      SlotCompacted(g0, g, map_.G(), Heap(map_.nodes[n := map_.nodes[n][i := e]], map_.place), n, i, e);
      SlotTight(g, map_.G(), Heap(map_.nodes[n := map_.nodes[n][i := e]], map_.place), n, i, e);
      map_.nodes := map_.nodes[n := map_.nodes[n][i := e]];
    } else {
      SlotUntouched(g0, g, n, i);
    }
  }

  lemma SlotFresh(g0: Heap, g: Heap, n: nat, i: nat)
    requires NodeAt(g0, g, n, i) && i < L2_SIZE && FreshInside(g0, g0.place[n].level + 1, g0.place[n].base)
    ensures SlotOk(g, g.nodes[n][i], g.place[n].level, SlotBase(g.place[n], i))
    ensures FreshInside(g, g.place[n].level, SlotBase(g.place[n], i))
  {
    var p := g.place[n];
    assert NodeOk(g0, n);
    assert SlotOk(g0, g0.nodes[n][i], p.level, SlotBase(p, i));
    forall m | 0 <= m < |g.nodes| && Inside(g.place[m], p.level, SlotBase(p, i)) ensures NodeOk(g, m) {
      InsideSlot(g.place[m], p, i);
      assert NodeOk(g0, m);
      forall k | 0 <= k < L2_SIZE ensures SlotOk(g, g.nodes[m][k], g.place[m].level, SlotBase(g.place[m], k)) {
        assert SlotOk(g0, g0.nodes[m][k], g.place[m].level, SlotBase(g.place[m], k));
      }
    }
  }

  lemma SlotUntouched(g0: Heap, g: Heap, n: nat, i: nat)
    requires NodeAt(g0, g, n, i) && i < L2_SIZE
    ensures NodeAt(g0, g, n, i + 1)
  {
    var p := g0.place[n];
    var e := g0.nodes[n][i];
    assert NodeLinked(g0, n);
    forall page: nat | SlotBase(p, i) <= page < SlotBase(p, i) + Step(p.level)
      ensures AgreesAt(g0, g, e, e, p.level, SlotBase(p, i), page)
    {
      WalkFrame(g0, g, e, p.level, SlotBase(p, i), page);
    }
  }

  /** phys_page_compact on the entry lp, which covers the Step(h) pages from b on; the caller
      stores the entry returned. */
  method CompactEntry(map_: PhysPageMap, lp: Entry, ghost h: nat, ghost b: nat) returns (lp': Entry)
    requires AllLinked(map_.G()) && SlotOk(map_.G(), lp, h, b) && lp.skip == 1 && FreshInside(map_.G(), h, b)
    modifies map_`nodes
    ensures AllLinked(map_.G()) && SameOutside(old(map_.G()), map_.G(), h, b)
    ensures Linked(map_.G(), lp', h, b) && Agrees(old(map_.G()), map_.G(), lp, lp', h, b)
    ensures lp'.ptr == NIL <==> lp.ptr == NIL
    ensures Tight(map_.nodes, lp', h)
    decreases h, 0
  {
    if lp.ptr == NIL {
      return lp;
    }
    ghost var g0 := map_.G();
    var n := lp.ptr;
    NodeStarts(g0, n);
    assert g0.place[n] == Place(h - 1, b);
    hide FreshInside, Agrees, SlotsTight, SlotsAgree, AllLinked;
    var valid, validPtr := CompactNode(map_, n);
    ChildrenCount(g0, map_.G(), n, valid, validPtr);
    if valid != 1 || lp.skip + map_.nodes[n][validPtr].skip >= SKIP_LIMIT {
      KeepAgrees(g0, map_.G(), n);
      ManyTight(map_.G(), n, h);
      return lp;
    }
    OnlyChild(g0, map_.G(), n, validPtr);
    assert Tight(map_.nodes, map_.nodes[n][validPtr], h - 1) by { ChildTight(map_.G(), n, validPtr); }
    BypassTight(map_.nodes, n, validPtr, h);
    lp' := Bypass(lp, map_.nodes[n][validPtr]);
  }

  lemma ChildTight(g: Heap, n: nat, v: nat)
    requires n < |g.nodes| && n < |g.place| && v < |g.nodes[n]| && SlotsTight(g, n, |g.nodes[n]|)
    ensures Tight(g.nodes, g.nodes[n][v], g.place[n].level)
  {}

  /** The loop of phys_page_compact: how many entries of the node lead anywhere, and the last that
      does. */
  method CompactNode(map_: PhysPageMap, n: nat) returns (valid: nat, validPtr: nat)
    requires NodeAt(map_.G(), map_.G(), n, 0)
    requires FreshInside(map_.G(), map_.place[n].level + 1, map_.place[n].base)
    modifies map_`nodes
    ensures NodeAt(old(map_.G()), map_.G(), n, L2_SIZE) && SlotsTight(map_.G(), n, L2_SIZE)
    ensures valid == 0 ==> forall k :: 0 <= k < L2_SIZE ==> old(map_.nodes)[n][k].ptr == NIL
    ensures valid == 1 ==> forall k :: 0 <= k < L2_SIZE && k != validPtr ==> old(map_.nodes)[n][k].ptr == NIL
    ensures valid > 0 ==> validPtr < L2_SIZE && old(map_.nodes)[n][validPtr].ptr != NIL
    ensures valid > 1 ==> exists k :: 0 <= k < validPtr && old(map_.nodes)[n][k].ptr != NIL
    decreases map_.place[n].level, 2
  {
    hide FreshInside, SlotsAgree, NodeLinked, Tight;
    ghost var g0 := map_.G();
    var i := 0;
    valid, validPtr := 0, L2_SIZE;
    while i < L2_SIZE
      invariant NodeAt(g0, map_.G(), n, i) && SlotsTight(map_.G(), n, i)
      invariant valid == 0 ==> forall k :: 0 <= k < i ==> g0.nodes[n][k].ptr == NIL
      invariant valid == 1 ==> forall k :: 0 <= k < i && k != validPtr ==> g0.nodes[n][k].ptr == NIL
      invariant valid > 0 ==> validPtr < i && g0.nodes[n][validPtr].ptr != NIL
      invariant valid > 1 ==> exists k :: 0 <= k < validPtr && g0.nodes[n][k].ptr != NIL
    {
      var v := CompactSlot(map_, n, i, g0);
      if v {
        validPtr := i;
        valid := valid + 1;
      }
      i := i + 1;
    }
  }

  /** With six levels the room for `skip` never runs out, so that only nodes with no entry in use or
      with several are kept. */
  lemma ChildrenCount(g0: Heap, g: Heap, n: nat, valid: nat, v: nat)
    requires NodeAt(g0, g, n, L2_SIZE) && (valid > 0 ==> v < L2_SIZE && g0.nodes[n][v].ptr != NIL)
    requires valid == 0 ==> forall k :: 0 <= k < L2_SIZE ==> g0.nodes[n][k].ptr == NIL
    requires valid > 1 ==> exists k :: 0 <= k < v && g0.nodes[n][k].ptr != NIL
    ensures valid == 1 ==> 1 + g.nodes[n][v].skip < SKIP_LIMIT
    ensures valid != 1 ==> !OneChild(g.nodes[n])
  {
    assert NodeLinked(g, n);
    if valid == 1 { assert Linked(g, g.nodes[n][v], g.place[n].level, SlotBase(g.place[n], v)); }
    if valid > 1 {
      var j :| 0 <= j < v && g0.nodes[n][j].ptr != NIL;
      forall k | 0 <= k < L2_SIZE ensures !OnlyAt(g.nodes[n], k) {
        assert g.nodes[n][if k == v then j else v].ptr != NIL;
      }
    }
  }

  lemma NodeStarts(g: Heap, n: nat)
    requires AllLinked(g) && n < |g.nodes| && n != NIL
    ensures NodeAt(g, g, n, 0)
  {
    assert NodeLinked(g, n);
  }

  lemma OnlyChild(g0: Heap, g: Heap, n: nat, v: nat)
    requires NodeAt(g0, g, n, L2_SIZE) && v < L2_SIZE && FreshInside(g0, g0.place[n].level + 1, g0.place[n].base)
    requires g0.nodes[n][v].ptr != NIL && forall k :: 0 <= k < L2_SIZE && k != v ==> g0.nodes[n][k].ptr == NIL
    ensures var e := Bypass(Entry(1, n), g.nodes[n][v]);
      && Linked(g, e, g0.place[n].level + 1, g0.place[n].base) && e.ptr != NIL
      && Agrees(g0, g, Entry(1, n), e, g0.place[n].level + 1, g0.place[n].base)
  {
    var p, c := g0.place[n], g.nodes[n][v];
    assert NodeOk(g0, n) && NodeLinked(g0, n) && NodeLinked(g, n);
    assert Linked(g, c, p.level, SlotBase(p, v));
    if c.skip != 0 { InsideSlot(g.place[c.ptr], p, v); }
    forall k | 0 <= k < L2_SIZE && k != v ensures g0.nodes[n][k] == Entry(1, NIL) {
      assert SlotOk(g0, g0.nodes[n][k], p.level, SlotBase(p, k));
    }
    var h := p.level + 1;
    forall page: nat | p.base <= page < p.base + Step(h)
      ensures AgreesAt(g0, g, Entry(1, n), Bypass(Entry(1, n), c), h, p.base, page)
    {
      BypassAgreesAt(g0, g, n, v, page);
    }
  }
}
