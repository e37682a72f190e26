/** The sending side of RAM migration, next to the memory its stream builds on the other side. */
module RamSave {
  import opened Wrappers
  import opened LongWords
  import opened Xbzrle
  import opened PageCaches
  import opened RamStream
  import opened DirtyPages

  ghost predicate PagesOk(s: seq<Bytes>) {
    forall p :: 0 <= p < |s| ==> |s[p]| == PAGE
  }

  /** What the receiver has after the stream so far. */
  ghost predicate Tied(blocks: seq<Block>, dst0: seq<Bytes>, stream: seq<Record>, cur: Option<nat>, dst: seq<Bytes>) {
    && LoadAll(blocks, Receiver(None, dst0), stream) == Some(Receiver(cur, dst))
    && forall i :: 0 <= i < |stream| ==> Sendable(stream[i])
  }

  lemma TiedMore(blocks: seq<Block>, dst0: seq<Bytes>, stream: seq<Record>, cur: Option<nat>, dst: seq<Bytes>, b: nat,
                 offset: nat, body: Body, page: Bytes)
    requires Tied(blocks, dst0, stream, cur, dst) && BlocksOk(blocks, |dst|) && b < |blocks| && offset < blocks[b].len
    requires Apply(body, dst[blocks[b].base + offset]) == Some(page)
    requires (body.Plain? ==> |body.page| == PAGE) && (body.Delta? ==> |body.bytes| <= PAGE)
    ensures Tied(blocks, dst0, stream + [Header(blocks, b, offset, cur, body)], Some(b),
      dst[blocks[b].base + offset := page])
  {
    var rec := Header(blocks, b, offset, cur, body);
    LocateHeader(blocks, |dst|, b, offset, cur, body);
    HeaderSendable(blocks, |dst|, b, offset, cur, body);
    hide Sendable, Header, Locate;
    LoadSnoc(blocks, Receiver(None, dst0), stream, rec);
  }

  /** Every page that differs on the other side, but for those lost, is still marked dirty. */
  ghost predicate Covered(blocks: seq<Block>, mem: seq<Bytes>, dst: seq<Bytes>, log: seq<bool>, bits: seq<bool>,
                          lost: set<nat>)
    requires |mem| == |dst| == |log| == |bits|
  {
    forall p: nat :: p < |mem| && p !in lost && Used(blocks, p) && dst[p] != mem[p] ==> log[p] || bits[p]
  }

  /** Cached pages are the receiver's; in the last stage, those still to be sent. */
  ghost predicate CacheAgrees(view: map<nat, Bytes>, dst: seq<Bytes>, bits: seq<bool>, last: bool)
    requires |dst| == |bits|
  {
    forall a :: a in view ==> a < |dst| && (!last || bits[a] ==> view[a] == dst[a])
  }

  lemma AgreesOn(view: map<nat, Bytes>, dst: seq<Bytes>, bits: seq<bool>, last: bool, p: nat)
    requires |dst| == |bits| && p < |dst| && bits[p] && CacheAgrees(view, dst, bits, last)
    ensures p in view ==> view[p] == dst[p]
  {}

  /** Lost pages are not marked, so that they are not sent until the guest writes them again. */
  ghost predicate Unmarked(lost: set<nat>, log: seq<bool>, bits: seq<bool>)
    requires |log| == |bits|
  {
    forall p :: p in lost ==> p < |bits| && !log[p] && !bits[p]
  }

  lemma StillUnmarked(lost: set<nat>, log: seq<bool>, bits: seq<bool>, rest: seq<bool>, p: nat)
    requires |log| == |bits| && Unmarked(lost, log, bits) && Found(bits, rest, p)
    ensures Unmarked(lost, log, rest) && (!log[p] ==> Unmarked(lost + {p}, log, rest))
  {}

  /** What a search does not find dirty it leaves alone. */
  ghost predicate Untouched(bits0: seq<bool>, dst0: seq<Bytes>, bits: seq<bool>, dst: seq<Bytes>) {
    && |bits0| == |dst0| == |bits| == |dst|
    && forall p :: 0 <= p < |bits0| && !bits0[p] ==> !bits[p] && dst[p] == dst0[p]
  }

  lemma UntouchedMore(bits0: seq<bool>, dst0: seq<Bytes>, bits: seq<bool>, dst: seq<Bytes>, rest: seq<bool>, p: nat,
                      page: Bytes)
    requires Untouched(bits0, dst0, bits, dst) && Found(bits, rest, p)
    ensures Untouched(bits0, dst0, rest, dst) && Untouched(bits0, dst0, rest, dst[p := page])
  {}

  lemma UntouchedSelf(bits: seq<bool>, dst: seq<Bytes>)
    requires |bits| == |dst|
    ensures Untouched(bits, dst, bits, dst)
  {}

  /** Only the last page of all can have been lost, by the search that ended the bulk stage. */
  ghost predicate LostOk(blocks: seq<Block>, lost: set<nat>, bulk: bool, drops: nat) {
    && blocks != [] && lost <= {LastPage(blocks)} && drops <= 1 && (bulk ==> drops == 0)
    && (drops == 0 || blocks[|blocks| - 1].len == 1 ==> lost == {})
  }

  /** Sending page p covers it. */
  lemma CoversAgain(blocks: seq<Block>, mem: seq<Bytes>, dst: seq<Bytes>, log: seq<bool>, bits: seq<bool>,
                    lost: set<nat>, p: nat)
    requires |mem| == |dst| == |log| == |bits| && p < |mem| && Covered(blocks, mem, dst, log, bits, lost + {p})
    ensures Covered(blocks, mem, dst[p := mem[p]], log, bits, lost)
  {}

  lemma CoveredByLog(blocks: seq<Block>, mem: seq<Bytes>, dst: seq<Bytes>, log: seq<bool>, bits: seq<bool>,
                     lost: set<nat>, p: nat)
    requires |mem| == |dst| == |log| == |bits| && p < |mem| && Covered(blocks, mem, dst, log, bits, lost + {p})
    requires log[p]
    ensures Covered(blocks, mem, dst, log, bits, lost)
  {}

  lemma AgreesAgain(before: map<nat, Bytes>, after: map<nat, Bytes>, dst: seq<Bytes>, bits: seq<bool>, last: bool,
                    p: nat, page: Bytes)
    requires |dst| == |bits| && p < |dst| && CacheAgrees(before, dst, bits, last)
    requires CacheStep(before, after, p, page, last)
    ensures CacheAgrees(after, dst[p := page], bits[p := false], last)
  {}

  /** What sending page p may do to the cache. */
  ghost predicate CacheStep(before: map<nat, Bytes>, after: map<nat, Bytes>, p: nat, page: Bytes, last: bool) {
    && (forall a :: a in after && a != p ==> a in before && after[a] == before[a])
    && (p in after ==> after[p] == page || (last && p in before && after[p] == before[p]))
  }

  /** In the bulk stage every page after the last one sent is dirty. */
  ghost predicate Ahead(blocks: seq<Block>, bits: seq<bool>, seen: Option<nat>, offset: nat)
    requires BlocksOk(blocks, |bits|)
  {
    && (seen.Some? ==>
          && seen.value < |blocks| && offset < blocks[seen.value].len
          && (forall p :: blocks[seen.value].base + offset < p < blocks[seen.value].base + blocks[seen.value].len ==>
            bits[p]))
    && (forall k, p: nat :: 0 <= k < |blocks| && (seen.Some? ==> seen.value < k) && InBlock(blocks[k], p) ==> bits[p])
  }

  /** Where the search has come to. */
  ghost predicate At(blocks: seq<Block>, bits: seq<bool>, seen: Option<nat>, offset: nat, bulk: bool)
    requires BlocksOk(blocks, |bits|)
  {
    && (if seen.None? then bulk && offset == 0 else seen.value < |blocks| && offset <= blocks[seen.value].len)
    && (bulk ==> Ahead(blocks, bits, seen, offset))
  }

  /** Page p was the next dirty one and has been taken. */
  ghost predicate Found(bits: seq<bool>, rest: seq<bool>, p: nat) {
    p < |bits| && bits[p] && rest == bits[p := false]
  }

  /** The page a search from page `start` of a block comes to. */
  ghost predicate Next(bulk: bool, bits: seq<bool>, b: Block, start: nat, offset: nat) {
    && b.base + b.len <= |bits|
    && (if bulk && start > 0 then offset == start + 1 else start <= offset <= b.len && ClearIn(bits, b, start, offset))
    && (offset < b.len ==> bits[b.base + offset])
  }

  function LastPage(blocks: seq<Block>): nat
    requires blocks != []
  {
    var b := blocks[|blocks| - 1];
    if b.len > 0 then b.base + b.len - 1 else b.base
  }

  /** The page the search stands at. */
  function Here(blocks: seq<Block>, seen: Option<nat>, offset: nat): nat {
    if seen.Some? && seen.value < |blocks| then blocks[seen.value].base + offset else 0
  }

  /** The last page of all was the last one sent. */
  predicate AtEnd(blocks: seq<Block>, seen: Option<nat>, offset: nat) {
    seen.Some? && seen.value + 1 == |blocks| && offset + 1 == blocks[seen.value].len
  }

  /** In the bulk stage the next page is the next dirty one of the block, or else the first of
      the next block. */
  ghost predicate InOrder(blocks: seq<Block>, bits: seq<bool>, seen: Option<nat>, offset: nat, k: nat, n: nat) {
    var l := if seen.None? then 0 else seen.value;
    && l < |blocks|
    && if k == l then Next(true, bits, blocks[l], offset, n)
       else
         && k == l + 1 && n == 0 && offset + 1 == blocks[l].len
         && (offset == 0 ==> blocks[l].base < |bits| && !bits[blocks[l].base])
  }

  lemma FoundAt(bits: seq<bool>, rest: seq<bool>, p: nat)
    requires Found(bits, rest, p)
    ensures p < |bits| && bits[p] && rest == bits[p := false]
  {}

  /** Page o, the last of the last block, is the only one dirty. */
  ghost predicate Drops(blocks: seq<Block>, bits: seq<bool>, l: nat, o: nat) {
    && l + 1 == |blocks| && 0 < o == blocks[l].len - 1 && blocks[l].base + o < |bits| && bits[blocks[l].base + o]
    && NoneDirty(blocks, bits[blocks[l].base + o := false])
  }

  /** The part of a round already looked at, which starts in block l at page o and has come to
      block k, page j. When `skip` holds, page o itself was passed over. */
  ghost predicate Scanned(blocks: seq<Block>, bits: seq<bool>, l: nat, o: nat, skip: bool, round: bool, k: nat, j: nat)
    requires BlocksOk(blocks, |bits|) && l < |blocks| && k < |blocks| && o <= blocks[l].len && j <= blocks[k].len
  {
    && (if round then k <= l else l <= k)
    && ClearIn(bits, blocks[k], if !round && k == l then o else 0, j)
    && (round || l < k ==> ClearIn(bits, blocks[l], if skip then o + 1 else o, blocks[l].len))
    && (forall i :: (if round then l < i < |blocks| || 0 <= i < k else l < i < k) ==>
      ClearIn(bits, blocks[i], 0, blocks[i].len))
  }

  /** A search: entered in block l at page o, it has come to block k, page j. */
  datatype Search = Search(l: nat, o: nat, bulk: bool, round: bool, k: nat, j: nat)

  ghost predicate Walk(blocks: seq<Block>, bits: seq<bool>, seen: Option<nat>, offset: nat, w: Search) {
    && BlocksOk(blocks, |bits|) && w.l < |blocks| && w.o <= blocks[w.l].len && w.k < |blocks| && w.j <= blocks[w.k].len
    && At(blocks, bits, seen, offset, w.bulk && !w.round)
    && (if seen.None? then !w.round && w.k == w.j == w.l == w.o == 0 else seen.value == w.l && offset == w.o)
    && (w.bulk && !w.round ==> (w.k == w.l && w.j == w.o) || (w.k == w.l + 1 && w.j == 0 && w.o + 1 == blocks[w.l].len))
    && (w.bulk && w.round ==> AtEnd(blocks, seen, offset))
    && Scanned(blocks, bits, w.l, w.o, w.bulk && w.o > 0, w.round, w.k, w.j)
  }

  function Advance(blocks: seq<Block>, w: Search): Search {
    if w.k + 1 < |blocks| then w.(k := w.k + 1, j := 0) else w.(round := true, k := 0, j := 0)
  }

  lemma WalkStarts(blocks: seq<Block>, bits: seq<bool>, seen: Option<nat>, offset: nat, bulk: bool)
    requires BlocksOk(blocks, |bits|) && blocks != [] && At(blocks, bits, seen, offset, bulk)
    ensures var k := if seen.None? then 0 else seen.value;
      Walk(blocks, bits, seen, offset, Search(k, offset, bulk, false, k, offset))
  {}

  /** In the bulk stage the page after the last one is dirty. */
  lemma WalkAhead(blocks: seq<Block>, bits: seq<bool>, seen: Option<nat>, offset: nat, w: Search)
    requires Walk(blocks, bits, seen, offset, w) && w.bulk && !w.round && 0 < w.j && w.j + 1 < blocks[w.k].len
    ensures bits[blocks[w.k].base + w.j + 1]
  {}

  /** In the bulk stage the first page of a block that is not begun is dirty, and so is the
      second when the first was sent. */
  lemma Unbegun(blocks: seq<Block>, bits: seq<bool>, seen: Option<nat>, offset: nat, w: Search)
    requires Walk(blocks, bits, seen, offset, w) && w.bulk && !w.round
    ensures seen.None? || w.l < w.k ==> bits[blocks[w.k].base]
    ensures seen.Some? && w.k == w.l && w.o == 0 && 1 < blocks[w.k].len ==> bits[blocks[w.k].base + 1]
  {
    assert InBlock(blocks[w.k], blocks[w.k].base);
  }

  /** In the bulk stage a block that is not begun has a page to send. */
  lemma FirstAhead(blocks: seq<Block>, bits: seq<bool>, seen: Option<nat>, offset: nat, w: Search, n: nat)
    requires Walk(blocks, bits, seen, offset, w) && Next(w.bulk && !w.round, bits, blocks[w.k], w.j, n)
    requires n >= blocks[w.k].len
    ensures w.bulk && !w.round ==> seen.Some? && w.k == w.l && w.o + 1 == blocks[w.l].len
  {
    if w.bulk && !w.round {
      Unbegun(blocks, bits, seen, offset, w);
    }
  }

  /** Coming to the end of a block. */
  lemma WalkOn(blocks: seq<Block>, bits: seq<bool>, seen: Option<nat>, offset: nat, w: Search, n: nat)
    requires Walk(blocks, bits, seen, offset, w) && Next(w.bulk && !w.round, bits, blocks[w.k], w.j, n)
    requires n >= blocks[w.k].len
    requires !(w.round && seen == Some(w.k))
    ensures Walk(blocks, bits, seen, offset, Advance(blocks, w))
  {
    FirstAhead(blocks, bits, seen, offset, w, n);
  }

  /** Going on from a page that was found. */
  lemma WalkPast(blocks: seq<Block>, bits: seq<bool>, seen: Option<nat>, offset: nat, w: Search, n: nat)
    requires Walk(blocks, bits, seen, offset, w) && Next(w.bulk && !w.round, bits, blocks[w.k], w.j, n)
    requires n < blocks[w.k].len
    requires !w.bulk
    ensures Walk(blocks, bits[blocks[w.k].base + n := false], seen, offset, w.(j := n))
  {}

  /** Stopping at a page that was found. */
  lemma WalkStops(blocks: seq<Block>, bits: seq<bool>, seen: Option<nat>, offset: nat, w: Search, n: nat)
    requires Walk(blocks, bits, seen, offset, w) && Next(w.bulk && !w.round, bits, blocks[w.k], w.j, n)
    requires n < blocks[w.k].len
    requires w.round && seen == Some(w.k) ==> n < offset
    ensures At(blocks, bits[blocks[w.k].base + n := false], Some(w.k), n, w.bulk && !w.round)
  {}

  lemma WalkFinds(blocks: seq<Block>, bits: seq<bool>, seen: Option<nat>, offset: nat, w: Search, n: nat)
    requires Walk(blocks, bits, seen, offset, w) && Next(w.bulk && !w.round, bits, blocks[w.k], w.j, n)
    requires n < blocks[w.k].len
    requires w.round && seen == Some(w.k) ==> n < offset
    ensures w.bulk ==> !Drops(blocks, bits, w.l, w.o)
    ensures !Drops(blocks, bits[blocks[w.k].base + n := false], w.k, n)
    ensures w.bulk ==> if w.round then AtEnd(blocks, seen, offset) else InOrder(blocks, bits, seen, offset, w.k, n)
    ensures w.bulk && AtEnd(blocks, seen, offset) && offset > 0 ==> w.round
  {
    assert InBlock(blocks[w.k], blocks[w.k].base);
    assert w.bulk && !w.round && w.l < w.k ==> bits[blocks[w.k].base];
    if w.o < blocks[w.l].len && (w.k != w.l || n != w.o) {
      NotDropping(blocks, bits, w.l, w.o, w.k, n);
    }
  }

  lemma NotDropping(blocks: seq<Block>, bits: seq<bool>, l: nat, o: nat, k: nat, n: nat)
    requires BlocksOk(blocks, |bits|) && l < |blocks| && k < |blocks| && o < blocks[l].len && n < blocks[k].len
    requires bits[blocks[k].base + n] && (k != l || n != o)
    ensures !NoneDirty(blocks, bits[blocks[l].base + o := false])
  {
    assert InBlock(blocks[k], blocks[k].base + n);
    assert Used(blocks, blocks[k].base + n);
  }

  /** A round ends with nothing dirty, after dropping the one page it passed over if that is. */
  lemma WalkEnds(blocks: seq<Block>, bits: seq<bool>, rest: seq<bool>, seen: Option<nat>, offset: nat, w: Search,
                 n: nat)
    requires Walk(blocks, bits, seen, offset, w) && Next(false, bits, blocks[w.k], w.j, n)
    requires w.round && seen == Some(w.k) && n >= offset
    requires if n < blocks[w.k].len then Found(bits, rest, blocks[w.k].base + n) else rest == bits
    ensures NoneDirty(blocks, rest) && At(blocks, rest, Some(w.k), n, false)
    ensures n < blocks[w.k].len ==> w.bulk && Drops(blocks, bits, w.l, w.o)
    ensures n < blocks[w.k].len ==>
      LostOk(blocks, {blocks[w.k].base + n}, false, 1) && LostOk(blocks, {}, false, 1)
    ensures w.bulk ==> AtEnd(blocks, seen, offset) && (Drops(blocks, bits, w.l, w.o) ==> n == w.o < blocks[w.k].len)
  {}

  /** What a search looks at and changes. */
  datatype Entry = Entry(bits: seq<bool>, log: seq<bool>, mem: seq<Bytes>, stream: seq<Record>, dst: seq<Bytes>,
                         seen: Option<nat>, offset: nat, bulk: bool, lost: set<nat>, drops: nat)

  /** The state in which a search drops a page: the bulk stage has just sent the last page of
      the last block, that page is dirty again, and it is the only one. */
  ghost predicate Dropping(blocks: seq<Block>, e: Entry) {
    e.bulk && e.seen.Some? && Drops(blocks, e.bits, e.seen.value, e.offset)
  }

  /** What a search does, besides keeping the invariant. */
  ghost predicate Outcome(blocks: seq<Block>, e: Entry, f: Entry, pages: nat) {
    && (pages == 0 ==> NoneDirty(blocks, f.bits))
    && (pages > 0 ==> !Dropping(blocks, f))
    && f.drops == e.drops + (if Dropping(blocks, e) then 1 else 0)
    && f.log == e.log && f.mem == e.mem && Untouched(e.bits, e.dst, f.bits, f.dst)
    && (if Dropping(blocks, e)
        then pages == 0 && f.stream == e.stream && f.dst == e.dst && Loss(blocks, e, f)
        else f.lost == e.lost)
    && Stage(blocks, e, f, pages)
  }

  /** The bulk stage goes through the pages in order, and ends after the last one. */
  ghost predicate Stage(blocks: seq<Block>, e: Entry, f: Entry, pages: nat) {
    && (e.bulk && !AtEnd(blocks, e.seen, e.offset) ==> f.bulk && pages == 1 && Sent(blocks, e, f))
    && (!e.bulk || (AtEnd(blocks, e.seen, e.offset) && e.offset > 0) ==> !f.bulk)
  }

  /** The page the search stands at loses its mark and is lost, unless another write to it is in
      the log. */
  ghost predicate Loss(blocks: seq<Block>, e: Entry, f: Entry) {
    var p := Here(blocks, e.seen, e.offset);
    Found(e.bits, f.bits, p) && p < |e.log| && f.lost == if e.log[p] then {} else {p}
  }

  /** The next page in order is taken and sent. */
  ghost predicate Sent(blocks: seq<Block>, e: Entry, f: Entry) {
    && f.seen.Some? && f.seen.value < |blocks| && InOrder(blocks, e.bits, e.seen, e.offset, f.seen.value, f.offset)
    && var p := blocks[f.seen.value].base + f.offset;
       Found(e.bits, f.bits, p) && p < |e.mem| && p < |e.dst| && f.dst == e.dst[p := e.mem[p]]
  }

  /** Nothing is sent for an unchanged page, and a delta exactly when it is not too long. */
  ghost predicate XbzrleChoice(prev: Bytes, cur: Bytes, ret: int) {
    && |prev| == |cur| == PAGE
    && (ret == 0 <==> prev == cur)
    && (ret == 1 <==> prev != cur && !TooLong(Enc(prev, cur), prev, cur, PAGE))
  }

  /** What goes over the wire for a page: a fill for zeroes, nothing for a cached page that has not
      changed, a delta when the old page is cached and the delta is not too long, and the whole page
      otherwise. */
  ghost predicate BodyChoice(deltas: bool, prev: Option<Bytes>, page: Bytes, sent: Option<Body>) {
    if AllZero(page) then sent == Some(Fill(0))
    else if !deltas || prev.None? then sent == Some(Plain(page))
    else if prev.value == page then sent.None?
    else
      && |prev.value| == |page| == PAGE && sent.Some?
      && if TooLong(Enc(prev.value, page), prev.value, page, PAGE) then sent.value == Plain(page)
         else sent.value == Delta(Enc(prev.value, page))
  }

  function CachedAt(view: map<nat, Bytes>, p: nat): Option<Bytes> { if p in view then Some(view[p]) else None }

  /** What looking a page up for a delta does to the cache: in the last stage nothing; otherwise a
      cached page is brought up to date, and one that is not cached is put in if there is room
      without an allocation, and left out if there is none with one. */
  ghost predicate CacheUse(before: map<nat, Bytes>, after: map<nat, Bytes>, p: nat, page: Bytes, last: bool,
                           room: bool, roomWithMemory: bool)
  {
    if last then after == before
    else if p in before then after == before[p := page]
    else (room ==> p in after) && (!roomWithMemory ==> after == before)
  }

  class RamSaver {
    const blocks: seq<Block>
    const dirty: DirtyBitmap
    const cache: PageCache<Bytes>
    const xbzrle: bool
    var mem: seq<Bytes>               // the guest's memory, by page
    var stream: seq<Record>
    var lastSeen: Option<nat>
    var lastOffset: nat
    var lastSent: Option<nat>
    var bulk: bool
    var syncs: nat
    ghost const dst0: seq<Bytes>
    ghost var dst: seq<Bytes>         // the receiver's memory once it has read the stream
    ghost var lost: set<nat>          // pages whose mark was cleared without sending them, not written since
    ghost var drops: nat              // searches that did so

    /** ram_save_setup. */
    constructor (blocks: seq<Block>, mem: seq<Bytes>, xbzrle: bool, cacheSize: nat, ghost dst0: seq<Bytes>)
      requires BlocksOk(blocks, |mem|) && blocks != [] && cacheSize > 0
      requires |dst0| == |mem| && PagesOk(mem) && PagesOk(dst0)
      ensures Valid(false) && fresh(dirty) && fresh(cache)
      ensures this.blocks == blocks && this.mem == mem && this.dst0 == dst0 && stream == []
      ensures bulk && lastSeen == None && lastOffset == 0 && drops == 0
      ensures |dirty.bits| == |dirty.log| == |mem| && forall p :: 0 <= p < |mem| ==> dirty.bits[p] && !dirty.log[p]
    {
      this.blocks, this.mem, this.xbzrle := blocks, mem, xbzrle;
      this.dst0, dst, lost, drops := dst0, dst0, {}, 0;
      dirty := new DirtyBitmap(blocks, |mem|);
      cache := new PageCache<Bytes>(cacheSize);
      stream, lastSeen, lastOffset, lastSent, bulk, syncs := [], None, 0, None, true, 0;
    }

    ghost predicate Wired(cur: Option<nat>)
      reads this, dirty, cache
    {
      && dirty.Valid() && cache.Valid() && dirty.blocks == blocks && blocks != []
      && |mem| == |dst| == |dirty.bits| == |dirty.log| && PagesOk(mem) && PagesOk(dst)
      && Tied(blocks, dst0, stream, cur, dst)
    }

    ghost predicate Kept(bits: seq<bool>, last: bool)
      requires |dst| == |bits|
      reads this, cache
    {
      CacheAgrees(cache.view, dst, bits, last) && (bulk || !xbzrle ==> cache.view == map[])
    }

    /** Valid, but for the wiring, once the search position is stored. */
    ghost predicate Ready(last: bool, seen: Option<nat>, offset: nat)
      reads this, dirty, cache
    {
      && |mem| == |dst| == |dirty.bits| == |dirty.log| && BlocksOk(blocks, |dirty.bits|)
      && Covered(blocks, mem, dst, dirty.log, dirty.bits, lost) && LostOk(blocks, lost, bulk, drops)
      && Unmarked(lost, dirty.log, dirty.bits)
      && Kept(dirty.bits, last) && At(blocks, dirty.bits, seen, offset, bulk)
    }

    /** All but what is said of pages that differ. */
    ghost predicate Shape(last: bool)
      reads this, dirty, cache
    {
      Wired(lastSent) && Kept(dirty.bits, last) && At(blocks, dirty.bits, lastSeen, lastOffset, bulk)
    }

    ghost predicate Valid(last: bool)
      reads this, dirty, cache
    {
      && Shape(last) && Covered(blocks, mem, dst, dirty.log, dirty.bits, lost)
      && LostOk(blocks, lost, bulk, drops) && Unmarked(lost, dirty.log, dirty.bits)
    }

    /** Appending the record of one page. */
    method Put(b: nat, offset: nat, body: Body, ghost page: Bytes)
      requires Wired(lastSent) && b < |blocks| && offset < blocks[b].len
      requires Apply(body, dst[blocks[b].base + offset]) == Some(page) && |page| == PAGE
      requires (body.Plain? ==> |body.page| == PAGE) && (body.Delta? ==> |body.bytes| <= PAGE)
      modifies `stream, `dst
      ensures Wired(Some(b)) && dst == old(dst)[blocks[b].base + offset := page]
      ensures stream == old(stream) + [Header(blocks, b, offset, lastSent, body)]
    {
      hide Tied, Header, PageCache.Valid;
      var rec := Header(blocks, b, offset, lastSent, body);
      TiedMore(blocks, dst0, stream, lastSent, dst, b, offset, body, page);
      stream := stream + [rec];
      dst := dst[blocks[b].base + offset := page];
    }

    /** save_xbzrle_page: 1 for a delta sent, 0 for a page that is as the receiver has it, -1
        when the page has to be sent whole. */
    method SaveXbzrlePage(b: nat, offset: nat, last: bool) returns (ret: int)
      requires Wired(lastSent) && b < |blocks| && offset < blocks[b].len
      requires var p := blocks[b].base + offset; p in cache.view ==> cache.view[p] == dst[p]
      modifies `stream, `dst, cache
      ensures ret == 1 || ret == 0 || ret == -1
      ensures ret == 1 ==> Wired(Some(b)) && dst == old(dst)[blocks[b].base + offset := mem[blocks[b].base + offset]]
      ensures ret != 1 ==> Wired(lastSent) && dst == old(dst) && stream == old(stream)
      ensures ret == 0 ==> blocks[b].base + offset in old(cache.view)
      ensures ret == 0 ==> dst[blocks[b].base + offset] == mem[blocks[b].base + offset]
      ensures CacheStep(old(cache.view), cache.view, blocks[b].base + offset, mem[blocks[b].base + offset], last)
      ensures blocks[b].base + offset !in old(cache.view) ==> ret == -1
      ensures blocks[b].base + offset in old(cache.view) ==>
        XbzrleChoice(old(cache.view)[blocks[b].base + offset], mem[blocks[b].base + offset], ret)
      ensures ret == 1 ==> |stream| == |old(stream)| + 1 && |mem[blocks[b].base + offset]| == PAGE
      ensures ret == 1 ==>
        stream[|old(stream)|].body == Delta(Enc(old(cache.view)[blocks[b].base + offset], mem[blocks[b].base + offset]))
      ensures CacheUse(old(cache.view), cache.view, blocks[b].base + offset, mem[blocks[b].base + offset], last,
        old(cache.Admits(blocks[b].base + offset, syncs, false)),
        old(cache.Admits(blocks[b].base + offset, syncs, true)))
    {
      hide Tied, PageCache.Valid, Locate, Enc;
      var p := blocks[b].base + offset;
      var cur := mem[p];
      var hit := cache.IsCached(p, syncs);
      if !hit {
        if !last {
          var memory: bool := *;
          var _ := cache.Insert(p, cur, syncs, memory);
        }
        return -1;
      }
      var prev := cache.Get(p);
      var enc;
      ret, enc := EncodeBuffer(prev, cur, PAGE);
      if ret == 0 {
        return;
      }
      if !last {
        cache.Overwrite(p, cur);
      }
      if ret == -1 {
        return;
      }
      DeltaRebuilds(prev, cur);
      Put(b, offset, Delta(enc), cur);
      ret := 1;
    }

    /** ram_save_page: afterwards the receiver has the page as it is here. Nothing is sent only
        for a cached page that has not changed. */
    method SavePage(b: nat, offset: nat, last: bool) returns (pages: nat)
      requires Wired(lastSent) && b < |blocks| && offset < blocks[b].len
      requires var p := blocks[b].base + offset; p in cache.view ==> cache.view[p] == dst[p]
      requires bulk || !xbzrle ==> cache.view == map[]
      modifies `stream, `dst, cache
      ensures pages <= 1 && Wired(if pages == 1 then Some(b) else lastSent)
      ensures dst == old(dst)[blocks[b].base + offset := mem[blocks[b].base + offset]]
      ensures pages == 0 ==> !bulk && stream == old(stream) && blocks[b].base + offset in old(cache.view)
      ensures CacheStep(old(cache.view), cache.view, blocks[b].base + offset, mem[blocks[b].base + offset], last)
      ensures bulk || !xbzrle ==> cache.view == map[]
      ensures AllZero(mem[blocks[b].base + offset]) <==>
        stream == old(stream) + [Header(blocks, b, offset, lastSent, Fill(0))]
      ensures bulk && !AllZero(mem[blocks[b].base + offset]) ==>
        stream == old(stream) + [Header(blocks, b, offset, lastSent, Plain(mem[blocks[b].base + offset]))]
      ensures |stream| == |old(stream)| + pages
      ensures BodyChoice(!bulk && xbzrle, CachedAt(old(cache.view), blocks[b].base + offset),
        mem[blocks[b].base + offset], if pages == 1 then Some(stream[|old(stream)|].body) else None)
    {
      var p := blocks[b].base + offset;
      ZeroPageIs(mem[p]);
      if AllZero(mem[p]) {
        Put(b, offset, Fill(0), mem[p]);
        if !bulk && xbzrle {
          var memory: bool := *;
          var _ := cache.Insert(p, mem[p], syncs, memory);
        }
        return 1;
      }
      pages := SaveNonZero(b, offset, last);
    }

    /** The rest of ram_save_page, for a page that is not all zeroes. */
    method SaveNonZero(b: nat, offset: nat, last: bool) returns (pages: nat)
      requires Wired(lastSent) && b < |blocks| && offset < blocks[b].len
      requires var p := blocks[b].base + offset; !AllZero(mem[p]) && (p in cache.view ==> cache.view[p] == dst[p])
      requires bulk || !xbzrle ==> cache.view == map[]
      modifies `stream, `dst, cache
      ensures pages <= 1 && Wired(if pages == 1 then Some(b) else lastSent)
      ensures dst == old(dst)[blocks[b].base + offset := mem[blocks[b].base + offset]]
      ensures pages == 0 ==> !bulk && stream == old(stream) && blocks[b].base + offset in old(cache.view)
      ensures CacheStep(old(cache.view), cache.view, blocks[b].base + offset, mem[blocks[b].base + offset], last)
      ensures bulk || !xbzrle ==> cache.view == map[]
      ensures bulk ==>
        stream == old(stream) + [Header(blocks, b, offset, lastSent, Plain(mem[blocks[b].base + offset]))]
      ensures |stream| == |old(stream)| + pages && (pages == 1 ==> !stream[|old(stream)|].body.Fill?)
      ensures BodyChoice(!bulk && xbzrle, CachedAt(old(cache.view), blocks[b].base + offset),
        mem[blocks[b].base + offset], if pages == 1 then Some(stream[|old(stream)|].body) else None)
    {
      hide Tied, PageCache.Valid, Locate, Enc, CacheUse, AllZero;
      var p := blocks[b].base + offset;
      var ret := -1;
      if !bulk && xbzrle {
        ret := SaveXbzrlePage(b, offset, last);
      }
      if ret == -1 {
        Put(b, offset, Plain(mem[p]), mem[p]);
        return 1;
      }
      pages := ret;
    }

    ghost function Snap(): Entry
      reads this, dirty
    {
      Entry(dirty.bits, dirty.log, mem, stream, dst, lastSeen, lastOffset, bulk, lost, drops)
    }

    /** The state as it will be once the search position is stored. */
    ghost function SnapAt(k: nat, n: nat): Entry
      reads this, dirty
    {
      Entry(dirty.bits, dirty.log, mem, stream, dst, Some(k), n, bulk, lost, drops)
    }

    /** The head of the search loop, in a search that was entered in the state e. */
    ghost predicate Head(last: bool, e: Entry, w: Search, log: seq<bool>, bits: seq<bool>)
      reads this, cache
    {
      && |mem| == |dst| == |bits| == |log| && bulk == (w.bulk && !w.round)
      && Covered(blocks, mem, dst, log, bits, lost) && Kept(bits, last) && Walk(blocks, bits, lastSeen, lastOffset, w)
      && LostOk(blocks, lost, w.bulk, drops) && Entered(e, w, log) && Unmarked(lost, log, bits)
      && Untouched(e.bits, e.dst, bits, dst)
      && (w.bulk ==> bits == e.bits && stream == e.stream && dst == e.dst && cache.view == map[])
    }

    ghost predicate Entered(e: Entry, w: Search, log: seq<bool>)
      reads this
    {
      && e.seen == lastSeen && e.offset == lastOffset == w.o && e.bulk == w.bulk
      && (e.seen.Some? ==> e.seen.value == w.l)
      && lost == e.lost && drops == e.drops && log == e.log && mem == e.mem
    }

    /** Looking for the next dirty page keeps all but that page covered. */
    method NextDirty(k: nat, start: nat, last: bool) returns (offset: nat)
      requires Wired(lastSent) && Covered(blocks, mem, dst, dirty.log, dirty.bits, lost) && Kept(dirty.bits, last)
      requires k < |blocks| && start <= blocks[k].len
      requires bulk && 0 < start && start + 1 < blocks[k].len ==> dirty.bits[blocks[k].base + start + 1]
      modifies dirty
      ensures Wired(lastSent) && dirty.log == old(dirty.log) && Kept(dirty.bits, last)
      ensures Next(bulk, old(dirty.bits), blocks[k], start, offset)
      ensures offset < blocks[k].len ==>
        Found(old(dirty.bits), dirty.bits, blocks[k].base + offset) && dirty.pages < old(dirty.pages)
      ensures offset < blocks[k].len ==>
        Covered(blocks, mem, dst, dirty.log, dirty.bits, lost + {blocks[k].base + offset})
      ensures offset >= blocks[k].len ==> dirty.bits == old(dirty.bits) && dirty.pages == old(dirty.pages)
    {
      offset := dirty.FindAndResetDirty(bulk, k, start);
    }

    /** Sending the page found covers it again. */
    method SaveDirty(k: nat, offset: nat, last: bool, ghost bits: seq<bool>) returns (pages: nat)
      requires Wired(lastSent) && k < |blocks| && offset < blocks[k].len
      requires Covered(blocks, mem, dst, dirty.log, dirty.bits, lost + {blocks[k].base + offset})
      requires Found(bits, dirty.bits, blocks[k].base + offset) && |bits| == |dst| && Kept(bits, last)
      modifies `stream, `dst, `lastSent, cache
      ensures pages <= 1 && Wired(lastSent) && dst == old(dst)[blocks[k].base + offset := mem[blocks[k].base + offset]]
      ensures Covered(blocks, mem, dst, dirty.log, dirty.bits, lost) && Kept(dirty.bits, last)
      ensures pages == 0 ==> blocks[k].base + offset in old(cache.view)
    {
      hide Covered, CacheAgrees, CacheStep, PagesOk, Tied, BlocksOk, LostOk, Header, ZeroPage, Found;
      hide DirtyBitmap.Valid, PageCache.Valid;
      ghost var p := blocks[k].base + offset;
      assert p < |mem| && bits[p] && dirty.bits == bits[p := false] by { FoundAt(bits, dirty.bits, p); }
      CoversAgain(blocks, mem, dst, dirty.log, dirty.bits, lost, p);
      AgreesOn(cache.view, dst, bits, last, p);
      ghost var before, dst1 := cache.view, dst;
      pages := SavePage(k, offset, last);
      AgreesAgain(before, cache.view, dst1, bits, last, p, mem[p]);
      if pages > 0 {
        lastSent := Some(k);
      }
    }

    /** Nothing more in this block: on to the next, which after the last is the first. */
    method NextBlock(last: bool, round: bool, k: nat, ghost e: Entry, ghost w: Search, ghost n: nat,
                     ghost log: seq<bool>, ghost bits: seq<bool>)
      returns (round': bool, k': nat)
      requires Head(last, e, w, log, bits) && w.round == round && w.k == k
      requires Next(bulk, bits, blocks[k], w.j, n) && n >= blocks[k].len
      requires round && lastSeen == Some(k) ==> n < lastOffset
      modifies `bulk
      ensures Head(last, e, Advance(blocks, w), log, bits)
      ensures Advance(blocks, w).round == round' && Advance(blocks, w).k == k' < |blocks|
      ensures round == round' ==> k' == k + 1
    {
      WalkOn(blocks, bits, lastSeen, lastOffset, w, n);
      k', round' := k + 1, round;
      if k' == |blocks| {
        k' := 0;
        round' := true;
        bulk := false;
      }
    }

    /** A page is found: it is sent, or the search goes on from it. */
    method SaveFound(last: bool, round: bool, k: nat, n: nat, ghost e: Entry, ghost w: Search, ghost bits: seq<bool>)
      returns (pages: nat)
      requires Wired(lastSent) && Head(last, e, w, dirty.log, bits) && w.round == round && w.k == k
      requires Next(bulk, bits, blocks[k], w.j, n) && n < blocks[k].len
      requires round && lastSeen == Some(k) ==> n < lastOffset
      requires Found(bits, dirty.bits, blocks[k].base + n)
      requires Covered(blocks, mem, dst, dirty.log, dirty.bits, lost + {blocks[k].base + n})
      modifies `stream, `dst, `lastSent, cache
      ensures pages <= 1 && Wired(lastSent)
      ensures pages == 0 ==> Head(last, e, w.(j := n), dirty.log, dirty.bits)
      ensures pages == 1 ==> Ready(last, Some(k), n) && Outcome(blocks, e, SnapAt(k, n), 1)
    {
      hide Covered, CacheAgrees, PagesOk, Tied, Scanned, Ahead, NoneDirty, BlocksOk, Drops, ClearIn;
      hide DirtyBitmap.Valid, PageCache.Valid;
      hide Unmarked, Untouched;
      ghost var p := blocks[k].base + n;
      FoundAt(bits, dirty.bits, p);
      StillUnmarked(lost, dirty.log, bits, dirty.bits, p);
      UntouchedMore(e.bits, e.dst, bits, dst, dirty.bits, p, mem[p]);
      pages := SaveDirty(k, n, last, bits);
      if pages > 0 {
        WalkStops(blocks, bits, lastSeen, lastOffset, w, n);
        WalkFinds(blocks, bits, lastSeen, lastOffset, w, n);
      } else {
        WalkPast(blocks, bits, lastSeen, lastOffset, w, n);
      }
    }

    lemma StartSearch(last: bool, k: nat, offset: nat)
      requires Valid(last) && k == (if lastSeen.None? then 0 else lastSeen.value) && offset == lastOffset
      ensures Head(last, Snap(), Search(k, offset, bulk, false, k, offset), dirty.log, dirty.bits)
      ensures k < |blocks| && offset <= blocks[k].len && dirty.pages >= 0
    {
      WalkStarts(blocks, dirty.bits, lastSeen, lastOffset, bulk);
      UntouchedSelf(dirty.bits, dst);
    }

    method StopSearch(last: bool, k: nat, offset: nat)
      requires Wired(lastSent) && Ready(last, Some(k), offset)
      modifies `lastSeen, `lastOffset
      ensures Valid(last) && Snap() == old(SnapAt(k, offset))
    {
      lastSeen := Some(k);
      lastOffset := offset;
    }

    /** The round is over: nothing was found, or the page passed over is dropped. */
    ghost method EndRound(last: bool, e: Entry, w: Search, n: nat, bits: seq<bool>)
      requires Wired(lastSent) && Head(last, e, w, dirty.log, bits) && Kept(dirty.bits, last)
      requires w.round && lastSeen == Some(w.k) && n >= lastOffset && Next(bulk, bits, blocks[w.k], w.j, n)
      requires if n < blocks[w.k].len then Found(bits, dirty.bits, blocks[w.k].base + n) else dirty.bits == bits
      requires n < blocks[w.k].len ==> Covered(blocks, mem, dst, dirty.log, dirty.bits, lost + {blocks[w.k].base + n})
      modifies `lost, `drops
      ensures Ready(last, Some(w.k), n) && Outcome(blocks, e, SnapAt(w.k, n), 0)
    {
      hide Covered, CacheAgrees, PagesOk, Tied, Scanned, Ahead, NoneDirty, BlocksOk, Drops, ClearIn;
      hide DirtyBitmap.Valid, PageCache.Valid;
      hide Unmarked, Untouched;
      WalkEnds(blocks, bits, dirty.bits, lastSeen, lastOffset, w, n);
      if n < blocks[w.k].len {
        ghost var p := blocks[w.k].base + n;
        FoundAt(bits, dirty.bits, p);
        StillUnmarked(lost, dirty.log, bits, dirty.bits, p);
        UntouchedMore(e.bits, e.dst, bits, dst, dirty.bits, p, mem[p]);
        drops := drops + 1;
        if dirty.log[p] {
          CoveredByLog(blocks, mem, dst, dirty.log, dirty.bits, lost, p);
        } else {
          lost := lost + {p};
        }
      }
    }

    /** The next dirty page, in a search. */
    method Look(last: bool, round: bool, k: nat, start: nat, ghost e: Entry, ghost w: Search) returns (offset: nat)
      requires Wired(lastSent) && Head(last, e, w, dirty.log, dirty.bits) && w.round == round && w.k == k
      requires w.j == start
      modifies dirty
      ensures Wired(lastSent) && Head(last, e, w, dirty.log, old(dirty.bits)) && Kept(dirty.bits, last)
      ensures dirty.log == old(dirty.log) && Next(bulk, old(dirty.bits), blocks[k], start, offset) && 0 <= dirty.pages
      ensures offset < blocks[k].len ==>
        Found(old(dirty.bits), dirty.bits, blocks[k].base + offset) && dirty.pages < old(dirty.pages)
      ensures offset < blocks[k].len ==>
        Covered(blocks, mem, dst, dirty.log, dirty.bits, lost + {blocks[k].base + offset})
      ensures offset >= blocks[k].len ==> dirty.bits == old(dirty.bits) && dirty.pages == old(dirty.pages)
    {
      hide Covered, CacheAgrees, PagesOk, Tied, Scanned, Ahead, Unmarked, Untouched;
      if bulk && 0 < start && start + 1 < blocks[k].len {
        WalkAhead(blocks, dirty.bits, lastSeen, lastOffset, w);
      }
      offset := NextDirty(k, start, last);
    }

    /** ram_find_and_save_block. */
    method FindAndSaveBlock(last: bool) returns (pages: nat)
      requires Valid(last)
      modifies `stream, `dst, `lastSeen, `lastOffset, `lastSent, `bulk, `lost, `drops, dirty, cache
      ensures Valid(last) && dirty.log == old(dirty.log) && (pages > 0 ==> dirty.pages < old(dirty.pages))
      ensures Outcome(blocks, old(Snap()), Snap(), pages)
    {
      hide Covered, CacheAgrees, PagesOk, Tied, Walk, At, BlocksOk, Next, Kept, Outcome, LostOk, Entered, Ready;
      hide Unmarked, Untouched, DirtyBitmap.Valid, PageCache.Valid;
      var round := false;
      var k: nat, offset: nat := if lastSeen.None? then 0 else lastSeen.value, lastOffset;
      ghost var e := Snap();
      ghost var w := Search(k, offset, bulk, false, k, offset);
      StartSearch(last, k, offset);
      pages := 0;
      while true
        invariant Wired(lastSent) && Head(last, e, w, dirty.log, dirty.bits)
        invariant k < |blocks| && offset <= blocks[k].len && 0 <= dirty.pages <= old(dirty.pages)
        invariant w.round == round && w.k == k && w.j == offset && dirty.log == old(dirty.log) && pages == 0
        decreases !round, |blocks| - k, dirty.pages
      {
        ghost var bits := dirty.bits;
        offset := Look(last, round, k, offset, e, w);
        if round && lastSeen == Some(k) && offset >= lastOffset {
          EndRound(last, e, w, offset, bits);
          break;
        }
        if offset >= blocks[k].len {
          round, k := NextBlock(last, round, k, e, w, offset, dirty.log, bits);
          offset := 0;
          w := Advance(blocks, w);
        } else {
          pages := SaveFound(last, round, k, offset, e, w, bits);
          if pages > 0 {
            break;
          }
          w := w.(j := offset);
        }
      }
      StopSearch(last, k, offset);
    }
  }
}
