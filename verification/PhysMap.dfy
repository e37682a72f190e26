/** Building the page map: phys_map_node_reserve, phys_map_node_alloc,
    phys_page_set_level and phys_page_set of exec.c. */
module PhysMap {
  import opened Arith
  import opened Radix

  /** g' differs from g only in entry j of node n and in nodes that lie in that entry's pages. */
  predicate SlotChange(g: Heap, g': Heap, n: nat, j: nat)
    requires Extends(g, g') && n < |g.nodes|
  {
    && j < |g.nodes[n]| && |g'.nodes[n]| == |g.nodes[n]|
    && (forall k :: 0 <= k < |g.nodes[n]| && k != j ==> g'.nodes[n][k] == g.nodes[n][k])
    && (forall m :: 0 <= m < |g.nodes| && m != n && !Inside(g.place[m], g.place[n].level, SlotBase(g.place[n], j))
          ==> g'.nodes[m] == g.nodes[m])
  }

  /** From e in g to e' in g', the pages [lo, hi) of the entry change to `leaf` and the others
      keep their section. */
  ghost predicate Painted(g: Heap, g': Heap, e: Entry, e': Entry, h: nat, b: nat, lo: nat, hi: nat, leaf: nat) {
    forall page: nat :: b <= page < b + Step(h) ==>
      Walk(g'.nodes, e', h, page) == if lo <= page < hi then leaf else Walk(g.nodes, e, h, page)
  }

  ghost predicate Free(g: Heap, e: Entry, h: nat, lo: nat, hi: nat) {
    forall page: nat :: lo <= page < hi ==> Walk(g.nodes, e, h, page) == UNASSIGNED
  }

  lemma NodeWalk(g: Heap, n: nat, level: nat, page: nat)
    requires n < |g.nodes| && n != NIL && |g.nodes[n]| == L2_SIZE
    ensures Walk(g.nodes, Entry(1, n), level + 1, page) == Walk(g.nodes, g.nodes[n][Digit(page, level)], level, page)
  {}

  lemma OtherSlots(g: Heap, g': Heap, n: nat, j: nat, page: nat)
    requires Built(g) && Built(g') && Extends(g, g') && n < |g.nodes| && n != NIL && SlotChange(g, g', n, j)
    requires Digit(page, g.place[n].level) != j
    ensures Walk(g'.nodes, Entry(1, n), g.place[n].level + 1, page) ==
      Walk(g.nodes, Entry(1, n), g.place[n].level + 1, page)
  {
    var p := g.place[n];
    var k := Digit(page, p.level);
    assert NodeOk(g, n) && NodeOk(g', n);
    forall m | 0 <= m < |g.nodes| && Inside(g.place[m], p.level, SlotBase(p, k)) ensures g'.nodes[m] == g.nodes[m] {
      InsideSlot(g.place[m], p, k);
      SlotsDisjoint(g.place[m], p, k, j);
    }
    BuiltLinked(g);
    assert NodeLinked(g, n);
    WalkFrame(g, g', g.nodes[n][k], p.level, SlotBase(p, k), page);
    NodeWalk(g, n, p.level, page);
    NodeWalk(g', n, p.level, page);
  }

  /** A page of a node, when one slot is painted after the slots to its left. */
  lemma PaintPage(g: Heap, g': Heap, n: nat, j: nat, index: nat, index': nat, leaf: nat, page: nat)
    requires Built(g) && Built(g') && Extends(g, g') && n < |g.nodes| && n != NIL && SlotChange(g, g', n, j)
    requires Painted(g, g', g.nodes[n][j], g'.nodes[n][j], g.place[n].level, SlotBase(g.place[n], j), index, index',
      leaf)
    requires SlotBase(g.place[n], j) <= index && index' <= SlotBase(g.place[n], j) + Step(g.place[n].level)
    requires g.place[n].base <= page < g.place[n].base + Step(g.place[n].level + 1)
    ensures Walk(g'.nodes, Entry(1, n), g.place[n].level + 1, page)
      == if index <= page < index' then leaf else Walk(g.nodes, Entry(1, n), g.place[n].level + 1, page)
  {
    var p := g.place[n];
    assert NodeOk(g, n) && NodeOk(g', n);
    hide Built, Step, Digit, SlotOk, Walk, SlotChange;
    DigitSlot(p, page);
    var k := Digit(page, p.level);
    if k == j {
      NodeWalk(g, n, p.level, page);
      NodeWalk(g', n, p.level, page);
    } else {
      OtherSlots(g, g', n, j, page);
      if k < j { SlotsApart(p, k, j); } else { SlotsApart(p, j, k); }
    }
  }

  /** One slot painted after the slots to its left. */
  lemma PaintSlot(g0: Heap, g: Heap, g': Heap, e0: Entry, n: nat, j: nat, index0: nat, index: nat, index': nat,
                  leaf: nat)
    requires Built(g) && Built(g') && Extends(g, g') && n < |g.nodes| && n != NIL && SlotChange(g, g', n, j)
    requires Painted(g0, g, e0, Entry(1, n), g.place[n].level + 1, g.place[n].base, index0, index, leaf)
    requires Painted(g, g', g.nodes[n][j], g'.nodes[n][j], g.place[n].level, SlotBase(g.place[n], j), index, index',
      leaf)
    requires index0 <= index <= index' && SlotBase(g.place[n], j) <= index
    requires index' <= SlotBase(g.place[n], j) + Step(g.place[n].level)
    ensures Painted(g0, g', e0, Entry(1, n), g.place[n].level + 1, g.place[n].base, index0, index', leaf)
  {
    hide Built, Step, Walk, SlotChange, SlotBase;
    var p, h := g.place[n], g.place[n].level + 1;
    forall page: nat | p.base <= page < p.base + Step(h)
      ensures Walk(g'.nodes, Entry(1, n), h, page) == if index0 <= page < index' then leaf
        else Walk(g0.nodes, e0, h, page)
    {
      PaintPage(g, g', n, j, index, index', leaf, page);
    }
  }

  /** A new node: every entry empty, or at level 0 an unassigned leaf. */
  function NewNode(level: nat): (r: Node)
    ensures |r| == L2_SIZE
  {
    seq(L2_SIZE, _ => if level == 0 then Entry(0, UNASSIGNED) else Entry(1, NIL))
  }

  function Alloc(g: Heap, level: nat, b: nat): Heap {
    Heap(g.nodes + [NewNode(level)], g.place + [Place(level, b)])
  }

  lemma AllocBuilt(g: Heap, level: nat, b: nat)
    requires Built(g) && level < LEVELS && b % Step(level + 1) == 0
    ensures Built(Alloc(g, level, b)) && Extends(g, Alloc(g, level, b))
  {
    var g' := Alloc(g, level, b);
    forall n | 0 <= n < |g'.nodes| ensures NodeOk(g', n) {
      if n < |g.nodes| {
        assert NodeOk(g, n);
        forall k | 0 <= k < L2_SIZE ensures SlotOk(g', g'.nodes[n][k], g'.place[n].level, SlotBase(g'.place[n], k)) {
          SlotKept(g, g', g.nodes[n][k], g.place[n].level, SlotBase(g.place[n], k));
        }
      }
    }
  }

  lemma AllocWalk(g: Heap, level: nat, b: nat, page: nat)
    requires |g.nodes| < NIL
    ensures Walk(Alloc(g, level, b).nodes, Entry(1, |g.nodes|), level + 1, page) == UNASSIGNED
  {
    var g' := Alloc(g, level, b);
    NodeWalk(g', |g.nodes|, level, page);
  }

  /** Storing a leaf or a subtree in one entry of a node keeps the map well formed. */
  lemma StoreBuilt(g: Heap, n: nat, j: nat, e: Entry)
    requires Built(g) && n < |g.nodes| && j < L2_SIZE
    requires SlotOk(g, e, g.place[n].level, SlotBase(g.place[n], j))
    ensures NodeOk(g, n)
    ensures Built(Heap(g.nodes[n := g.nodes[n][j := e]], g.place))
  {
    assert NodeOk(g, n);
    var g' := Heap(g.nodes[n := g.nodes[n][j := e]], g.place);
    forall m | 0 <= m < |g'.nodes| ensures NodeOk(g', m) {
      assert NodeOk(g, m);
      forall k | 0 <= k < L2_SIZE ensures SlotOk(g', g'.nodes[m][k], g'.place[m].level, SlotBase(g'.place[m], k)) {
        if m != n || k != j { SlotKept(g, g', g.nodes[m][k], g.place[m].level, SlotBase(g.place[m], k)); }
        else { SlotKept(g, g', e, g.place[m].level, SlotBase(g.place[m], k)); }
      }
    }
  }

  /** How many nodes one phys_page_set_level call may allocate: one a level when the range
      starts at the entry's first page or reaches its last, and at most two a level, but one
      at the top, in general. */
  function Budget(level: nat, oneSided: bool): nat {
    if oneSided then level + 1 else 2 * level + 1
  }

  class PhysPageMap {
    var nodes: seq<Node>      // the first nodes_nb nodes
    var nodesAlloc: nat       // nodes_nb_alloc
    var root: Entry           // phys_map of the dispatch that owns the nodes
    ghost var place: seq<Place>

    ghost function G(): Heap
      reads this
    {
      Heap(nodes, place)
    }

    /** The map as it is built up: nothing compacted yet. */
    ghost predicate Valid()
      reads this
    {
      Built(G()) && SlotOk(G(), root, LEVELS, 0) && root.skip == 1
    }

    /** The section number the map gives a page. */
    ghost function At(page: nat): nat
      reads this
    {
      Walk(nodes, root, LEVELS, page)
    }

    constructor ()
      ensures Valid() && nodes == [] && forall page :: At(page) == UNASSIGNED
    {
      nodes, place, nodesAlloc := [], [], 0;
      root := Entry(1, NIL);
    }

    /** phys_page_set: the pages of the range get `leaf`, all others keep what they had. It
        allocates at most 2 * P_L2_LEVELS - 1 nodes, which the reservation covers. */
    method SetPages(index: nat, nb: nat, leaf: nat)
      requires Valid() && nb > 0 && index + nb <= Step(LEVELS) && UNASSIGNED < leaf < NIL
      requires forall page :: index <= page < index + nb ==> At(page) == UNASSIGNED
      requires |nodes| + 3 * LEVELS <= NIL
      modifies this
      ensures Valid()
      ensures forall page :: 0 <= page < Step(LEVELS) ==>
                At(page) == if index <= page < index + nb then leaf else old(At(page))
      ensures |nodes| - old(|nodes|) <= 2 * LEVELS - 1 <= 3 * LEVELS
      ensures nodesAlloc == if old(|nodes|) + 18 <= old(nodesAlloc) then old(nodesAlloc)
        else Max(Max(2 * old(nodesAlloc), 16), old(|nodes|) + 18)
    {
      forall page: nat | index <= page < index + nb ensures Walk(nodes, root, LEVELS, page) == UNASSIGNED {
        assert At(page) == UNASSIGNED;
      }
      Reserve(3 * LEVELS);
      var rest, left;
      root, rest, left := SetLevel(root, index, nb, leaf, LEVELS - 1, 0);
    }

    /** phys_map_node_reserve. */
    method Reserve(n: nat)
      modifies `nodesAlloc
      ensures |nodes| + n <= nodesAlloc
      ensures nodesAlloc == if |nodes| + n <= old(nodesAlloc) then old(nodesAlloc)
        else Max(Max(2 * old(nodesAlloc), 16), |nodes| + n)
    {
      if |nodes| + n > nodesAlloc {
        nodesAlloc := Max(nodesAlloc * 2, 16);
        nodesAlloc := Max(nodesAlloc, |nodes| + n);
      }
    }

    /** phys_map_node_alloc, with the level 0 fill that follows it; its assertions hold. */
    method NodeAlloc(level: nat, ghost b: nat) returns (ret: nat)
      requires |nodes| < nodesAlloc && |nodes| < NIL
      modifies `nodes, `place
      ensures ret == old(|nodes|) && ret != NIL && ret != nodesAlloc
      ensures G() == Alloc(old(G()), level, b)
    {
      ret := |nodes|;
      assert ret != NIL && ret != nodesAlloc;
      nodes := nodes + [NewNode(level)];
      place := place + [Place(level, b)];
    }

    /** One round of the loop in phys_page_set_level: entry j of node n. */
    method SetSlot(n: nat, j: nat, index: nat, nb: nat, leaf: nat, level: nat) returns (index': nat, nb': nat)
      requires Built(G()) && n < |nodes| && n < |place| && place[n].level == level
      requires j < L2_SIZE && |nodes[n]| == L2_SIZE && nb > 0 && UNASSIGNED < leaf < NIL
      requires SlotBase(place[n], j) <= index < SlotBase(place[n], j) + Step(level)
      requires Free(G(), nodes[n][j], level, index, Min(index + nb, SlotBase(place[n], j) + Step(level)))
      requires |nodes| + SlotBudget(level, index == SlotBase(place[n], j), nb >= Step(level),
        index + nb >= SlotBase(place[n], j) + Step(level)) <= Min(nodesAlloc, NIL)
      modifies `nodes, `place
      ensures SlotDone(old(G()), G(), n, j, index, index', leaf)
      ensures index' == Min(index + nb, SlotBase(old(place)[n], j) + Step(level)) && nb' == index + nb - index'
      ensures |nodes| - old(|nodes|) <= SlotBudget(level, index == SlotBase(old(place)[n], j), nb >= Step(level),
        index + nb >= SlotBase(old(place)[n], j) + Step(level))
      decreases level, 0
    {
      hide SlotDone, Painted, SameOutside;
      ghost var g := G();
      ghost var sb := SlotBase(place[n], j);
      var step := Step(level);
      assert NodeOk(g, n);
      SlotAligned(place[n], j);
      AlignedIsBase(sb, index, step);
      if index % step == 0 && nb >= step {
        LeafDone(g, n, j, leaf);
        nodes := nodes[n := nodes[n][j := Entry(0, leaf)]];
        index', nb' := index + step, nb - step;
      } else {
        assert Walk(nodes, nodes[n][j], level, index) == UNASSIGNED;
        ChildOpen(g, n, j, index);
        var e;
        e, index', nb' := SetLevel(nodes[n][j], index, nb, leaf, level - 1, sb);
        ChildDone(g, G(), n, j, e, index, index', leaf);
        nodes := nodes[n := nodes[n][j := e]];
      }
    }

    /** The body of the loop. */
    method SetNextSlot(n: nat, j: nat, index: nat, nb: nat, leaf: nat, level: nat, ghost g0: Heap, ghost r: Range)
      returns (index': nat, nb': nat)
      requires LoopAt(g0, G(), n, r, j, index, nb, leaf) && j < L2_SIZE && nb > 0
      requires n < |g0.place| && g0.place[n].level == level && UNASSIGNED < leaf < NIL && RangeOk(g0, n, r)
      requires |g0.nodes| + Budget(level, r.oneSided) <= Min(nodesAlloc, NIL) + 1
      modifies `nodes, `place
      ensures LoopAt(g0, G(), n, r, j + 1, index', nb', leaf)
      decreases level, 1
    {
      hide Walk, Step, Free, Painted, SlotDone, SlotBudget, Budget;
      ghost var g := G();
      assert place[n] == g0.place[n];
      NextSlot(g0, g, n, j, index, nb, leaf, r);
      index', nb' := SetSlot(n, j, index, nb, leaf, level);
      SlotJoined(g0, g, G(), n, j, r.index, index, index', leaf);
    }

    /** The loop of phys_page_set_level over the entries of node n. */
    method SetSlots(n: nat, index0: nat, nb0: nat, leaf: nat, level: nat, ghost oneSided: bool)
      returns (index: nat, nb: nat)
      requires Built(G()) && n < |nodes| && n < |place| && n != NIL && place[n].level == level
      requires place[n].base <= index0 < place[n].base + Step(level + 1) && nb0 > 0 && UNASSIGNED < leaf < NIL
      requires Free(G(), Entry(1, n), level + 1, index0, Min(index0 + nb0, place[n].base + Step(level + 1)))
      requires oneSided <==> index0 == place[n].base || index0 + nb0 >= place[n].base + Step(level + 1)
      requires |nodes| + Budget(level, oneSided) <= Min(nodesAlloc, NIL) + 1
      modifies `nodes, `place
      ensures Built(G()) && Extends(old(G()), G()) && SameOutside(old(G()), G(), level + 1, old(place)[n].base)
      ensures index == Min(index0 + nb0, old(place)[n].base + Step(level + 1)) && nb == index0 + nb0 - index
      ensures Painted(old(G()), G(), Entry(1, n), Entry(1, n), level + 1, old(place)[n].base, index0, index, leaf)
      ensures |nodes| - old(|nodes|) + 1 <= Budget(level, oneSided)
      decreases level, 2
    {
      ghost var g0 := G();
      index, nb := index0, nb0;
      var j: nat := Digit(index, level);
      ghost var r := Range(index0, nb0, j, oneSided);
      LoopStarts(g0, n, r, leaf);
      while nb > 0 && j < L2_SIZE
        invariant LoopAt(g0, G(), n, r, j, index, nb, leaf)
      {
        index, nb := SetNextSlot(n, j, index, nb, leaf, level, g0, r);
        j := j + 1;
      }
      LoopEnds(g0, G(), n, r, j, index, nb, leaf);
    }

    /** phys_page_set_level. `lp` is the entry it is given a pointer to, which covers the
        pages from b on; the caller stores the entry returned. */
    method SetLevel(lp: Entry, index0: nat, nb0: nat, leaf: nat, level: nat, ghost b: nat)
      returns (lp': Entry, index: nat, nb: nat)
      requires Built(G()) && level < LEVELS && SlotOk(G(), lp, level + 1, b) && lp.skip == 1
      requires b % Step(level + 1) == 0 && b <= index0 < b + Step(level + 1) && nb0 > 0 && UNASSIGNED < leaf < NIL
      requires Free(G(), lp, level + 1, index0, Min(index0 + nb0, b + Step(level + 1)))
      requires |nodes| + Budget(level, index0 == b || index0 + nb0 >= b + Step(level + 1)) <= Min(nodesAlloc, NIL)
      modifies `nodes, `place
      ensures Built(G()) && Extends(old(G()), G()) && SameOutside(old(G()), G(), level + 1, b)
      ensures SlotOk(G(), lp', level + 1, b) && lp'.skip == 1 && lp'.ptr != NIL
      ensures index == Min(index0 + nb0, b + Step(level + 1)) && nb == index0 + nb0 - index
      ensures Painted(old(G()), G(), lp, lp', level + 1, b, index0, index, leaf)
      ensures |nodes| - old(|nodes|) <= Budget(level, index0 == b || index0 + nb0 >= b + Step(level + 1))
      decreases level, 3
    {
      hide Walk, Step, Painted, Free, SameOutside;
      ghost var g0 := G();
      ghost var oneSided := index0 == b || index0 + nb0 >= b + Step(level + 1);
      lp' := lp;
      if lp.ptr == NIL {
        var ret := NodeAlloc(level, b);
        lp' := lp.(ptr := ret);
        AllocBuilt(g0, level, b);
      }
      ghost var g := G();
      OpenPainted(g0, g, lp, lp'.ptr, index0, leaf);
      FreeOpened(g0, g, lp, lp', level + 1, b, index0, index0 + nb0, leaf);
      index, nb := SetSlots(lp'.ptr, index0, nb0, leaf, level, oneSided);
      LevelSet(g0, g, G(), lp, lp', level + 1, b, index0, index, leaf);
    }
  }

  /** Opening an entry leaves what was free free. */
  lemma FreeOpened(g0: Heap, g: Heap, e: Entry, e': Entry, h: nat, b: nat, lo: nat, hi: nat, leaf: nat)
    requires Painted(g0, g, e, e', h, b, lo, lo, leaf) && b <= lo && Free(g0, e, h, lo, Min(hi, b + Step(h)))
    ensures Free(g, e', h, lo, Min(hi, b + Step(h)))
  {
    hide Walk, Step;
  }

  /** Opening an entry and then painting it. */
  lemma LevelSet(g0: Heap, g: Heap, g': Heap, e: Entry, e': Entry, h: nat, b: nat, lo: nat, hi: nat, leaf: nat)
    requires Extends(g0, g) && Extends(g, g') && g0.nodes <= g.nodes && SameOutside(g, g', h, b)
    requires Painted(g0, g, e, e', h, b, lo, lo, leaf) && Painted(g, g', e', e', h, b, lo, hi, leaf)
    ensures Painted(g0, g', e, e', h, b, lo, hi, leaf) && Extends(g0, g') && SameOutside(g0, g', h, b)
  {
    hide Walk, Step;
  }

  /** Nodes allocated when the loop of phys_page_set_level is at a given point. */
  function LoopBudget(level: nat, begun: bool, aligned: bool, more: bool, oneSided: bool): nat {
    if !begun then 1
    else if more then (if aligned then 1 else level + 1)
    else Budget(level, oneSided)
  }

  /** The pages a loop is asked to set, the entry it starts at, and whether the range reaches
      an end of the node. */
  datatype Range = Range(index: nat, nb: nat, j: nat, oneSided: bool)

  ghost predicate RangeOk(g: Heap, n: nat, r: Range)
    requires n < |g.place|
  {
    var p := g.place[n];
    && SlotBase(p, r.j) <= r.index < SlotBase(p, r.j) + Step(p.level)
    && Free(g, Entry(1, n), p.level + 1, r.index, Min(r.index + r.nb, p.base + Step(p.level + 1)))
    && (r.oneSided <==> r.index == p.base || r.index + r.nb >= p.base + Step(p.level + 1))
  }

  /** The loop invariant of phys_page_set_level: everything left of `index` is painted. */
  ghost predicate LoopAt(g0: Heap, g: Heap, n: nat, r: Range, j: nat, index: nat, nb: nat, leaf: nat) {
    && Built(g) && Extends(g0, g) && n < |g0.place| && n != NIL
    && var p := g0.place[n];
    && SameOutside(g0, g, p.level + 1, p.base)
    && r.j <= j <= L2_SIZE && r.index <= index && nb == r.index + r.nb - index
    && index == (if j == r.j then r.index else Min(r.index + r.nb, SlotBase(p, j)))
    && Painted(g0, g, Entry(1, n), Entry(1, n), p.level + 1, p.base, r.index, index, leaf)
    && |g.nodes| - |g0.nodes| + 1 <= LoopBudget(p.level, j > r.j, r.index == SlotBase(p, r.j), nb > 0, r.oneSided)
  }

  lemma LoopStarts(g: Heap, n: nat, r: Range, leaf: nat)
    requires Built(g) && n < |g.nodes| && n != NIL && r.nb > 0
    requires g.place[n].base <= r.index < g.place[n].base + Step(g.place[n].level + 1)
    requires r.j == Digit(r.index, g.place[n].level)
    requires Free(g, Entry(1, n), g.place[n].level + 1, r.index,
      Min(r.index + r.nb, g.place[n].base + Step(g.place[n].level + 1)))
    requires r.oneSided <==>
      r.index == g.place[n].base || r.index + r.nb >= g.place[n].base + Step(g.place[n].level + 1)
    ensures LoopAt(g, g, n, r, r.j, r.index, r.nb, leaf) && RangeOk(g, n, r)
  {
    assert NodeOk(g, n);
    DigitSlot(g.place[n], r.index);
  }

  lemma LoopEnds(g0: Heap, g: Heap, n: nat, r: Range, j: nat, index: nat, nb: nat, leaf: nat)
    requires LoopAt(g0, g, n, r, j, index, nb, leaf) && (nb == 0 || j == L2_SIZE) && r.j < L2_SIZE && r.nb > 0
    ensures index == Min(r.index + r.nb, g0.place[n].base + Step(g0.place[n].level + 1))
    ensures |g.nodes| - |g0.nodes| + 1 <= Budget(g0.place[n].level, r.oneSided)
  {
    var p := g0.place[n];
    SlotEnd(p);
    if 0 < j < L2_SIZE { SlotsApart(p, j, L2_SIZE); }
  }

  /** The allocations of one more round fit in what is left. */
  lemma BudgetStep(p: Place, j0: nat, j: nat, index0: nat, nb0: nat, index: nat, nb: nat)
    requires j0 <= j < L2_SIZE && nb > 0 && index0 <= index && nb == index0 + nb0 - index
    requires SlotBase(p, j0) <= index0 < SlotBase(p, j0) + Step(p.level)
    requires j == j0 ==> index == index0
    requires j > j0 ==> index == Min(index0 + nb0, SlotBase(p, j))
    ensures var oneSided := index0 == p.base || index0 + nb0 >= p.base + Step(p.level + 1);
      var end := SlotBase(p, j) + Step(p.level);
      var sum := LoopBudget(p.level, j > j0, index0 == SlotBase(p, j0), true, oneSided)
                 + SlotBudget(p.level, index == SlotBase(p, j), nb >= Step(p.level), index + nb >= end);
      && sum <= Budget(p.level, oneSided)
      && sum <= LoopBudget(p.level, true, index0 == SlotBase(p, j0), index + nb > end, oneSided)
  {
    SlotRange(p, j0);
    SlotRange(p, j);
    if j0 < j { SlotsApart(p, j0, j); }
    if index0 == p.base && j0 > 0 { SlotsApart(p, 0, j0); }
  }

  lemma SlotEnd(p: Place)
    ensures SlotBase(p, L2_SIZE) == p.base + Step(p.level + 1)
  {}

  /** What SetSlot asks for holds at the top of the loop. */
  lemma NextSlot(g0: Heap, g: Heap, n: nat, j: nat, index: nat, nb: nat, leaf: nat, r: Range)
    requires LoopAt(g0, g, n, r, j, index, nb, leaf) && j < L2_SIZE && nb > 0 && RangeOk(g0, n, r)
    ensures |g.nodes[n]| == L2_SIZE
    ensures SlotBase(g.place[n], j) <= index < SlotBase(g.place[n], j) + Step(g.place[n].level)
    ensures SlotBase(g.place[n], j) + Step(g.place[n].level) == SlotBase(g.place[n], j + 1)
    ensures Free(g, g.nodes[n][j], g.place[n].level, index,
      Min(index + nb, SlotBase(g.place[n], j) + Step(g.place[n].level)))
    ensures var end := SlotBase(g.place[n], j) + Step(g.place[n].level);
      var sum := LoopBudget(g.place[n].level, j > r.j, r.index == SlotBase(g.place[n], r.j), true, r.oneSided)
                 + SlotBudget(g.place[n].level, index == SlotBase(g.place[n], j), nb >= Step(g.place[n].level),
                     index + nb >= end);
      && sum <= Budget(g.place[n].level, r.oneSided)
      && sum <= LoopBudget(g.place[n].level, true, r.index == SlotBase(g.place[n], r.j), index + nb > end, r.oneSided)
  {
    SlotRange(g.place[n], j);
    SlotFree(g0, g, Entry(1, n), n, j, r.index, index, nb, leaf);
    BudgetStep(g.place[n], r.j, j, r.index, r.nb, index, nb);
  }

  lemma SlotJoined(g0: Heap, g: Heap, g': Heap, n: nat, j: nat, index0: nat, index: nat, index': nat, leaf: nat)
    requires Built(g) && Extends(g0, g) && n < |g.nodes| && n != NIL && j < L2_SIZE
    requires SlotDone(g, g', n, j, index, index', leaf)
    requires Painted(g0, g, Entry(1, n), Entry(1, n), g.place[n].level + 1, g.place[n].base, index0, index, leaf)
    requires SameOutside(g0, g, g.place[n].level + 1, g.place[n].base)
    requires index0 <= index <= index' && SlotBase(g.place[n], j) <= index
    requires index' <= SlotBase(g.place[n], j) + Step(g.place[n].level)
    ensures Extends(g0, g') && Built(g') && g'.place[n] == g.place[n]
    ensures Painted(g0, g', Entry(1, n), Entry(1, n), g.place[n].level + 1, g.place[n].base, index0, index', leaf)
    ensures SameOutside(g0, g', g.place[n].level + 1, g.place[n].base)
  {
    PaintSlot(g0, g, g', Entry(1, n), n, j, index0, index, index', leaf);
    SlotOutside(g0, g, g', n, j);
  }

  lemma OpenPainted(g0: Heap, g: Heap, e: Entry, n: nat, index: nat, leaf: nat)
    requires Built(g0) && n < |g.nodes| && n < |g.place| && n != NIL && e.skip == 1
    requires
      || (g == g0 && e == Entry(1, n))
      || (e.ptr == NIL && n == |g0.nodes| < NIL && g == Alloc(g0, g.place[n].level, g.place[n].base))
    ensures Painted(g0, g, e, Entry(1, n), g.place[n].level + 1, g.place[n].base, index, index, leaf)
  {
    if e.ptr == NIL {
      var h := g.place[n].level + 1;
      forall page: nat ensures Walk(g.nodes, Entry(1, n), h, page) == Walk(g0.nodes, e, h, page) {
        AllocWalk(g0, g.place[n].level, g.place[n].base, page);
      }
    }
  }

  /** Entry j is still free where the range has yet to be entered. */
  lemma SlotFree(g0: Heap, g: Heap, e: Entry, n: nat, j: nat, index0: nat, index: nat, nb: nat, leaf: nat)
    requires Built(g) && n < |g.nodes| && n != NIL && j < L2_SIZE && index0 <= index
    requires Painted(g0, g, e, Entry(1, n), g.place[n].level + 1, g.place[n].base, index0, index, leaf)
    requires Free(g0, e, g.place[n].level + 1, index0, Min(index + nb, g.place[n].base + Step(g.place[n].level + 1)))
    requires SlotBase(g.place[n], j) <= index
    ensures |g.nodes[n]| == L2_SIZE
    ensures Free(g, g.nodes[n][j], g.place[n].level, index,
      Min(index + nb, SlotBase(g.place[n], j) + Step(g.place[n].level)))
  {
    var p := g.place[n];
    assert NodeOk(g, n);
    SlotRange(p, j);
    forall page: nat | index <= page < Min(index + nb, SlotBase(p, j) + Step(p.level))
      ensures Walk(g.nodes, g.nodes[n][j], p.level, page) == UNASSIGNED
    {
      SlotDigit(p, j, page);
      NodeWalk(g, n, p.level, page);
    }
  }

  lemma SlotOutside(g0: Heap, g: Heap, g': Heap, n: nat, j: nat)
    requires Built(g) && Extends(g0, g) && Extends(g, g') && Extends(g0, g') && n < |g.nodes| && SlotChange(g, g', n, j)
    requires j < L2_SIZE
    requires SameOutside(g0, g, g.place[n].level + 1, g.place[n].base)
    ensures SameOutside(g0, g', g.place[n].level + 1, g.place[n].base)
  {
    var p := g.place[n];
    forall m | 0 <= m < |g0.nodes| && !Inside(g0.place[m], p.level + 1, p.base) ensures g'.nodes[m] == g0.nodes[m] {
      assert g.place[m] == g0.place[m];
      if Inside(g.place[m], p.level, SlotBase(p, j)) { InsideSlot(g.place[m], p, j); }
    }
  }

  /** Entry j of node n has been given `leaf` on the pages [lo, hi). */
  ghost predicate SlotDone(g: Heap, g': Heap, n: nat, j: nat, lo: nat, hi: nat, leaf: nat) {
    && Built(g') && Extends(g, g') && n < |g.nodes| && SlotChange(g, g', n, j)
    && Painted(g, g', g.nodes[n][j], g'.nodes[n][j], g.place[n].level, SlotBase(g.place[n], j), lo, hi, leaf)
  }

  lemma LeafDone(g: Heap, n: nat, j: nat, leaf: nat)
    requires Built(g) && n < |g.nodes| && j < L2_SIZE && |g.nodes[n]| == L2_SIZE && UNASSIGNED < leaf < NIL
    ensures SlotDone(g, Heap(g.nodes[n := g.nodes[n][j := Entry(0, leaf)]], g.place), n, j,
                     SlotBase(g.place[n], j), SlotBase(g.place[n], j) + Step(g.place[n].level), leaf)
  {
    StoreBuilt(g, n, j, Entry(0, leaf));
  }

  /** The same for one round of the loop, where `whole` says the entry becomes a leaf. */
  function SlotBudget(level: nat, atStart: bool, long: bool, toEnd: bool): nat {
    if (atStart && long) || level == 0 then 0 else Budget(level - 1, atStart || toEnd)
  }

  lemma AlignedIsBase(b: nat, index: nat, step: nat)
    requires step > 0 && b % step == 0 && b <= index < b + step
    ensures index % step == 0 <==> index == b
  {
    if index % step == 0 && b < index { MultiplesApart(b, index, step); }
  }

  /** An entry that is not to become a leaf and has a free page is a link to a lower level. */
  lemma ChildOpen(g: Heap, n: nat, j: nat, index: nat)
    requires Built(g) && n < |g.nodes| && n < |g.place| && j < L2_SIZE && |g.nodes[n]| == L2_SIZE
    requires g.place[n].level > 0 && Walk(g.nodes, g.nodes[n][j], g.place[n].level, index) == UNASSIGNED
    ensures g.nodes[n][j].skip == 1 && g.place[n].level < LEVELS
    ensures SlotOk(g, g.nodes[n][j], g.place[n].level, SlotBase(g.place[n], j))
  {
    assert NodeOk(g, n);
  }

  lemma ChildStored(g: Heap, g1: Heap, n: nat, j: nat, e: Entry)
    requires Built(g) && Built(g1) && Extends(g, g1) && n < |g.nodes| && j < L2_SIZE
    requires SameOutside(g, g1, g.place[n].level, SlotBase(g.place[n], j))
    requires SlotOk(g1, e, g.place[n].level, SlotBase(g.place[n], j))
    ensures |g1.nodes[n]| == L2_SIZE
    ensures var g' := Heap(g1.nodes[n := g1.nodes[n][j := e]], g1.place);
      Built(g') && Extends(g, g') && SlotChange(g, g', n, j)
  {
    var p := g.place[n];
    assert g1.place[n] == p;
    assert NodeOk(g, n) && NodeOk(g1, n);
    StoreBuilt(g1, n, j, e);
    assert !Inside(p, p.level, SlotBase(p, j)) by {
      if Inside(p, p.level, SlotBase(p, j)) { InsideSlot(p, p, j); }
    }
  }

  lemma ChildDone(g: Heap, g1: Heap, n: nat, j: nat, e: Entry, lo: nat, hi: nat, leaf: nat)
    requires Built(g) && Built(g1) && Extends(g, g1) && n < |g.nodes| && j < L2_SIZE && |g.nodes[n]| == L2_SIZE
    requires SameOutside(g, g1, g.place[n].level, SlotBase(g.place[n], j))
    requires SlotOk(g1, e, g.place[n].level, SlotBase(g.place[n], j))
    requires Painted(g, g1, g.nodes[n][j], e, g.place[n].level, SlotBase(g.place[n], j), lo, hi, leaf)
    ensures |g1.nodes[n]| == L2_SIZE
    ensures SlotDone(g, Heap(g1.nodes[n := g1.nodes[n][j := e]], g1.place), n, j, lo, hi, leaf)
  {
    ChildStored(g, g1, n, j, e);
    ChildPainted(g, g1, n, j, e, lo, hi, leaf);
  }

  lemma ChildPainted(g: Heap, g1: Heap, n: nat, j: nat, e: Entry, lo: nat, hi: nat, leaf: nat)
    requires Built(g) && Built(g1) && Extends(g, g1) && n < |g.nodes| && j < L2_SIZE && |g.nodes[n]| == L2_SIZE
    requires |g1.nodes[n]| == L2_SIZE
    requires SlotOk(g1, e, g.place[n].level, SlotBase(g.place[n], j))
    requires Painted(g, g1, g.nodes[n][j], e, g.place[n].level, SlotBase(g.place[n], j), lo, hi, leaf)
    ensures Painted(g, Heap(g1.nodes[n := g1.nodes[n][j := e]], g1.place), g.nodes[n][j], e, g.place[n].level,
      SlotBase(g.place[n], j), lo, hi, leaf)
  {
    var p := g.place[n];
    var g' := Heap(g1.nodes[n := g1.nodes[n][j := e]], g1.place);
    var h, b := p.level, SlotBase(p, j);
    assert g1.place[n] == p;
    assert SameInside(g1, g', h, b) by {
      if Inside(p, h, b) { InsideSlot(p, p, j); }
    }
    BuiltLinked(g1);
    forall page: nat | b <= page < b + Step(h)
      ensures Walk(g'.nodes, e, h, page) == if lo <= page < hi then leaf else Walk(g.nodes, g.nodes[n][j], h, page)
    {
      WalkFrame(g1, g', e, h, b, page);
    }
  }
}
