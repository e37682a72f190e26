/** Whole migrations: guest writes, synchronisations and sends in any order, then completion. */
module RamMigration {
  import opened Wrappers
  import opened LongWords
  import opened RamStream
  import opened DirtyPages
  import opened RamSave
  import opened RamWire

  /** The receiver has the guest's memory. */
  ghost predicate SameMemory(blocks: seq<Block>, mem: seq<Bytes>, dst: seq<Bytes>) {
    |mem| == |dst| && forall p :: 0 <= p < |mem| && Used(blocks, p) ==> dst[p] == mem[p]
  }

  /** The guest writes a page; the write is logged with it. */
  method GuestWrite(s: RamSaver, p: nat, page: Bytes)
    requires s.Valid(false) && p < |s.mem| && Used(s.blocks, p) && |page| == PAGE
    modifies s`mem, s`lost, s.dirty
    ensures s.Valid(false) && s.mem == old(s.mem)[p := page] && s.lost == old(s.lost) - {p}
    ensures s.dirty.bits == old(s.dirty.bits) && s.dirty.log == old(s.dirty.log)[p := true]
  {
    s.mem := s.mem[p := page];
    s.lost := s.lost - {p};
    s.dirty.Log(p);
  }

  /** migration_bitmap_sync. */
  method BitmapSync(s: RamSaver, ghost last: bool)
    requires s.Valid(false)
    modifies s`syncs, s.dirty
    ensures s.Valid(last) && s.dirty.Moved(old(s.dirty.bits), old(s.dirty.log), 0, |s.mem|)
    ensures s.syncs == old(s.syncs) + 1
  {
    s.syncs := s.syncs + 1;
    s.dirty.Sync();
  }

  /** The receiver has all the guest's memory but for lost pages. */
  ghost predicate NoneBut(blocks: seq<Block>, mem: seq<Bytes>, dst: seq<Bytes>, lost: set<nat>) {
    |mem| == |dst| && forall p: nat :: p < |mem| && p !in lost && Used(blocks, p) ==> dst[p] == mem[p]
  }

  /** When nothing is marked, only lost pages can differ. */
  lemma OnlyLostDiffer(blocks: seq<Block>, mem: seq<Bytes>, dst: seq<Bytes>, log: seq<bool>, bits: seq<bool>,
                       lost: set<nat>)
    requires |mem| == |dst| == |log| == |bits| && Covered(blocks, mem, dst, log, bits, lost) && NoneDirty(blocks, bits)
    requires forall p :: 0 <= p < |log| ==> !log[p]
    ensures NoneBut(blocks, mem, dst, lost)
  {}

  /** Completion would drop a page: with the log added, only the last page of all is dirty, and
      the bulk stage has just sent it. */
  ghost predicate WouldDrop(s: RamSaver)
    requires s.Valid(false)
    reads s, s.dirty, s.cache
  {
    s.bulk && s.lastSeen.Some? && Drops(s.blocks, Merge(s.dirty.bits, s.dirty.log, 0, |s.mem|), s.lastSeen.value,
        s.lastOffset)
  }

  ghost predicate LogEmpty(s: RamSaver)
    reads s, s.dirty
  {
    |s.dirty.log| == |s.mem| && forall p :: 0 <= p < |s.dirty.log| ==> !s.dirty.log[p]
  }

  /** The synchronisation of ram_save_complete. */
  method LastSync(s: RamSaver)
    requires s.Valid(false)
    modifies s`syncs, s.dirty
    ensures s.Valid(true) && LogEmpty(s) && (Dropping(s.blocks, s.Snap()) <==> old(WouldDrop(s)))
  {
    BitmapSync(s, true);
    assert s.dirty.bits == Merge(old(s.dirty.bits), old(s.dirty.log), 0, |s.mem|);
  }

  /** What completion leaves of the pages lost before it, and of the one it drops itself. */
  ghost predicate Completed(blocks: seq<Block>, drop: bool, e: Entry, f: Entry) {
    && f.drops == e.drops + (if drop then 1 else 0)
    && f.lost == (if drop then {Here(blocks, e.seen, e.offset)} else e.lost)
    && |f.dst| == |e.dst| && forall p :: p in f.lost && p < |e.dst| ==> f.dst[p] == e.dst[p]
  }

  lemma CompletedOne(blocks: seq<Block>, e: Entry, f: Entry, pages: nat)
    requires Outcome(blocks, e, f, pages) && |e.log| == |e.bits| && Unmarked(e.lost, e.log, e.bits)
    requires forall p :: 0 <= p < |e.log| ==> !e.log[p]
    ensures Completed(blocks, Dropping(blocks, e), e, f)
  {}

  lemma CompletedMore(blocks: seq<Block>, drop: bool, e: Entry, f: Entry, g: Entry)
    requires Completed(blocks, drop, e, f) && Completed(blocks, false, f, g)
    ensures Completed(blocks, drop, e, g)
  {}

  /** One send of the completion loop. */
  method LastSend(s: RamSaver) returns (pages: nat)
    requires s.Valid(true) && LogEmpty(s)
    modifies s`stream, s`dst, s`lastSeen, s`lastOffset, s`lastSent, s`bulk, s`lost, s`drops, s.dirty, s.cache
    ensures s.Valid(true) && LogEmpty(s) && 0 <= s.dirty.pages
    ensures Completed(s.blocks, old(Dropping(s.blocks, s.Snap())), old(s.Snap()), s.Snap())
    ensures old(Dropping(s.blocks, s.Snap())) ==> pages == 0
    ensures pages > 0 ==> s.dirty.pages < old(s.dirty.pages) && !Dropping(s.blocks, s.Snap())
    ensures pages == 0 ==> NoneBut(s.blocks, s.mem, s.dst, s.lost)
  {
    pages := s.FindAndSaveBlock(true);
    CompletedOne(s.blocks, old(s.Snap()), s.Snap(), pages);
    if pages == 0 {
      OnlyLostDiffer(s.blocks, s.mem, s.dst, s.dirty.log, s.dirty.bits, s.lost);
    }
  }

  /** The loop of ram_save_complete: at its end only lost pages can differ, and a page is lost
      only if the first search drops it. */
  method SendRest(s: RamSaver)
    requires s.Valid(true) && LogEmpty(s)
    modifies s`stream, s`dst, s`lastSeen, s`lastOffset, s`lastSent, s`bulk, s`lost, s`drops, s.dirty, s.cache
    ensures s.Valid(true)
    ensures NoneBut(s.blocks, s.mem, s.dst, s.lost)
    ensures Completed(s.blocks, old(Dropping(s.blocks, s.Snap())), old(s.Snap()), s.Snap())
  {
    hide RamSaver.Valid, LogEmpty, NoneBut, Dropping, Completed;
    ghost var e := s.Snap();
    ghost var drop := Dropping(s.blocks, e);
    var pages := LastSend(s);
    while pages > 0
      invariant s.Valid(true) && LogEmpty(s) && 0 <= s.dirty.pages && Completed(s.blocks, drop, e, s.Snap())
      invariant if pages > 0 then !Dropping(s.blocks, s.Snap()) else NoneBut(s.blocks, s.mem, s.dst, s.lost)
      decreases if pages > 0 then s.dirty.pages + 1 else 0
    {
      ghost var f := s.Snap();
      pages := LastSend(s);
      CompletedMore(s.blocks, drop, e, f, s.Snap());
    }
  }

  /** The receiver's pages, of those named, are the guest's. */
  ghost predicate Arrived(blocks: seq<Block>, mem: seq<Bytes>, dst: seq<Bytes>, pages: set<nat>) {
    forall p :: p in pages && p < |mem| && p < |dst| && Used(blocks, p) ==> dst[p] == mem[p]
  }

  /** ram_save_complete, with the guest stopped: the receiver ends with the guest's memory if and
      only if it has each page that was lost before, or that completion drops, as it is here. */
  method SaveComplete(s: RamSaver)
    requires s.Valid(false)
    modifies s`syncs, s`stream, s`dst, s`lastSeen, s`lastOffset, s`lastSent, s`bulk, s`lost, s`drops, s.dirty, s.cache
    ensures Tied(s.blocks, s.dst0, s.stream, s.lastSent, s.dst)
    ensures s.drops == old(s.drops) + (if old(WouldDrop(s)) then 1 else 0)
    ensures SameMemory(s.blocks, s.mem, s.dst) <==>
      Arrived(s.blocks, s.mem, old(s.dst),
          if old(WouldDrop(s)) then {Here(s.blocks, old(s.lastSeen), old(s.lastOffset))} else old(s.lost))
    ensures NoneBut(s.blocks, s.mem, s.dst, s.lost) && LostOk(s.blocks, s.lost, s.bulk, s.drops)
  {
    hide WouldDrop, Dropping, LogEmpty, NoneBut, Covered, RamSaver.Kept, At;
    LastSync(s);
    SendRest(s);
    SameIff(s.blocks, s.mem, old(s.dst), s.dst, s.lost);
  }

  lemma SameIff(blocks: seq<Block>, mem: seq<Bytes>, before: seq<Bytes>, dst: seq<Bytes>, lost: set<nat>)
    requires NoneBut(blocks, mem, dst, lost) && |before| == |dst|
    requires forall p :: p in lost && p < |before| ==> dst[p] == before[p]
    ensures SameMemory(blocks, mem, dst) <==> Arrived(blocks, mem, before, lost)
  {}

  datatype Step = Write(p: nat, page: Bytes) | Sync | Send

  ghost predicate StepOk(blocks: seq<Block>, total: nat, step: Step) {
    step.Write? ==> step.p < total && Used(blocks, step.p) && |step.page| == PAGE
  }

  // ----- what becomes of a run, from its steps alone -----

  /** Where the bulk stage of a run is. It goes through all pages in order, whatever is on them:
      `sent` is what was on the last page sent. When it is past, `dropped` says whether the search
      that ended it dropped the last page of all, and `lost` what the receiver has of that page as
      long as the guest has not written it again. */
  datatype Fate =
    | InBulk(bits: seq<bool>, log: seq<bool>, mem: seq<Bytes>, seen: Option<nat>, offset: nat, sent: Bytes)
    | Past(dropped: bool, lost: Option<Bytes>)

  /** The page the bulk stage sends next: the one after the last, also across blocks; from page 0
      of a block it is page 0 again if that is dirty again. */
  function NextPage(blocks: seq<Block>, bits: seq<bool>, seen: Option<nat>, offset: nat): (nat, nat) {
    var l := if seen.None? then 0 else seen.value;
    if l >= |blocks| then (l, 0)
    else
      var n := if offset > 0 then offset + 1 else if blocks[l].base < |bits| && bits[blocks[l].base] then 0 else 1;
      if n < blocks[l].len then (l, n) else (l + 1, 0)
  }

  function Begin(mem: seq<Bytes>): Fate {
    InBulk(seq(|mem|, _ => true), seq(|mem|, _ => false), mem, None, 0, [])
  }

  ghost function FateStep(blocks: seq<Block>, fate: Fate, step: Step): Fate
    requires blocks != []
  {
    match fate
    case InBulk(bits, log, mem, seen, offset, sent) => (
      match step
      case Write(p, page) => if p < |log| && p < |mem| then fate.(log := log[p := true], mem := mem[p := page])
          else fate
      case Sync => if |bits| == |log| then fate.(bits := Merge(bits, log, 0, |bits|), log := Reset(log, 0, |log|))
          else fate
      case Send => if AtEnd(blocks, seen, offset) then Leave(blocks, bits, log, seen, offset, sent)
          else SendNext(blocks, fate))
    case Past(dropped, lost) =>
      if step.Write? && step.p == LastPage(blocks) then Past(dropped, None) else fate
  }

  ghost function Leave(blocks: seq<Block>, bits: seq<bool>, log: seq<bool>, seen: Option<nat>, offset: nat,
                       sent: Bytes): Fate
    requires seen.Some?
  {
    var drop := Drops(blocks, bits, seen.value, offset);
    var p := Here(blocks, seen, offset);
    Past(drop, if drop && p < |log| && !log[p] then Some(sent) else None)
  }

  function SendNext(blocks: seq<Block>, fate: Fate): Fate
    requires fate.InBulk?
  {
    var (k, n) := NextPage(blocks, fate.bits, fate.seen, fate.offset);
    if k >= |blocks| then fate
    else
      var p := blocks[k].base + n;
      if p < |fate.bits| && p < |fate.mem| then fate.(bits := fate.bits[p := false], seen := Some(k), offset := n,
          sent := fate.mem[p]) else fate
  }

  ghost function FateOf(blocks: seq<Block>, mem: seq<Bytes>, steps: seq<Step>): Fate
    requires blocks != []
  {
    if steps == [] then Begin(mem)
    else FateStep(blocks, FateOf(blocks, mem, steps[..|steps| - 1]), steps[|steps| - 1])
  }

  /** A migration with these steps drops the last page, in the run or on completion. */
  ghost predicate DropsIn(blocks: seq<Block>, mem: seq<Bytes>, steps: seq<Step>)
    requires blocks != []
  {
    match FateOf(blocks, mem, steps)
    case InBulk(bits, log, _, seen, offset, _) => DropsAtEnd(blocks, bits, log, seen, offset)
    case Past(dropped, _) => dropped
  }

  ghost predicate DropsAtEnd(blocks: seq<Block>, bits: seq<bool>, log: seq<bool>, seen: Option<nat>, offset: nat) {
    seen.Some? && |bits| == |log| && Drops(blocks, Merge(bits, log, 0, |bits|), seen.value, offset)
  }

  /** And the receiver is left with something else on that page than the guest. */
  ghost predicate LosesIn(blocks: seq<Block>, mem: seq<Bytes>, steps: seq<Step>)
    requires blocks != []
  {
    var p, final := LastPage(blocks), Written(mem, steps);
    p < |final| &&
    match FateOf(blocks, mem, steps)
    case InBulk(bits, log, _, seen, offset, sent) => DropsAtEnd(blocks, bits, log, seen, offset) && sent != final[p]
    case Past(_, lost) => lost.Some? && lost.value != final[p]
  }

  /** A sender is where the steps say. */
  ghost predicate Tracks(blocks: seq<Block>, fate: Fate, e: Entry)
    requires blocks != []
  {
    match fate
    case InBulk(bits, log, mem, seen, offset, sent) =>
      && e.bulk && e.bits == bits && e.log == log && e.mem == mem && e.seen == seen && e.offset == offset
      && e.drops == 0
      && (seen.Some? ==> var p := Here(blocks, seen, offset); p < |e.dst| && e.dst[p] == sent)
    case Past(dropped, lost) =>
      && (e.bulk ==> blocks[|blocks| - 1].len == 1) && e.drops == (if dropped then 1 else 0)
      && e.lost == (if lost.Some? then {LastPage(blocks)} else {})
      && (lost.Some? ==> LastPage(blocks) < |e.dst| && e.dst[LastPage(blocks)] == lost.value)
  }

  lemma NextIs(blocks: seq<Block>, bits: seq<bool>, seen: Option<nat>, offset: nat, k: nat, n: nat)
    requires BlocksOk(blocks, |bits|) && At(blocks, bits, seen, offset, true) && k < |blocks| && n < blocks[k].len
    requires InOrder(blocks, bits, seen, offset, k, n)
    ensures NextPage(blocks, bits, seen, offset) == (k, n)
  {
    var l := if seen.None? then 0 else seen.value;
    if k == l && offset == 0 {
      FirstOf(bits, blocks[l], n);
      assert InBlock(blocks[l], blocks[l].base);
    }
  }

  lemma FirstOf(bits: seq<bool>, b: Block, n: nat)
    requires Next(true, bits, b, 0, n) && n < b.len
    ensures n == 0 <==> bits[b.base]
    ensures n > 1 ==> !bits[b.base + 1]
  {}

  /** What the invariant says of the state a search looks at. */
  ghost predicate Sound(blocks: seq<Block>, e: Entry) {
    && blocks != [] && BlocksOk(blocks, |e.bits|) && |e.log| == |e.mem| == |e.dst| == |e.bits|
    && At(blocks, e.bits, e.seen, e.offset, e.bulk)
    && LostOk(blocks, e.lost, e.bulk, e.drops) && Unmarked(e.lost, e.log, e.bits)
  }

  lemma ValidSound(s: RamSaver, last: bool)
    requires s.Valid(last)
    ensures Sound(s.blocks, s.Snap())
  {
    hide At, LostOk, Unmarked, BlocksOk;
  }

  /** In the bulk stage a search sends the page the steps say. */
  lemma BulkTracks(blocks: seq<Block>, fate: Fate, e: Entry, f: Entry, pages: nat)
    requires Sound(blocks, e) && Sound(blocks, f) && Tracks(blocks, fate, e) && Outcome(blocks, e, f, pages)
    requires fate.InBulk? && !AtEnd(blocks, e.seen, e.offset)
    ensures Tracks(blocks, SendNext(blocks, fate), f)
  {
    hide Drops, NoneDirty, Untouched, Unmarked, Covered, InOrder, LostOk, NextPage;
    NextIs(blocks, e.bits, e.seen, e.offset, f.seen.value, f.offset);
  }

  /** After the last page it leaves the bulk stage, and drops that page or not. */
  lemma LeaveTracks(blocks: seq<Block>, fate: Fate, e: Entry, f: Entry, pages: nat)
    requires Sound(blocks, e) && Sound(blocks, f) && Tracks(blocks, fate, e) && Outcome(blocks, e, f, pages)
    requires fate.InBulk? && AtEnd(blocks, e.seen, e.offset)
    ensures Tracks(blocks, Leave(blocks, fate.bits, fate.log, fate.seen, fate.offset, fate.sent), f)
  {
    hide NoneDirty, Untouched, Unmarked, At, BlocksOk;
  }

  /** And later it leaves a lost page alone. */
  lemma PastTracks(blocks: seq<Block>, fate: Fate, e: Entry, f: Entry, pages: nat)
    requires Sound(blocks, e) && Sound(blocks, f) && Tracks(blocks, fate, e) && Outcome(blocks, e, f, pages)
    requires fate.Past?
    ensures Tracks(blocks, fate, f)
  {
    hide NoneDirty, At, BlocksOk;
  }

  /** A search does what the steps say. */
  lemma SendTracks(blocks: seq<Block>, fate: Fate, e: Entry, f: Entry, pages: nat)
    requires Sound(blocks, e) && Sound(blocks, f) && Tracks(blocks, fate, e) && Outcome(blocks, e, f, pages)
    ensures Tracks(blocks, FateStep(blocks, fate, Send), f)
  {
    hide Outcome, Leave, SendNext, At, LostOk, Unmarked, BlocksOk;
    if fate.Past? {
      PastTracks(blocks, fate, e, f, pages);
    } else if AtEnd(blocks, e.seen, e.offset) {
      LeaveTracks(blocks, fate, e, f, pages);
    } else {
      BulkTracks(blocks, fate, e, f, pages);
    }
  }

  lemma WriteTracks(blocks: seq<Block>, fate: Fate, e: Entry, f: Entry, p: nat, page: Bytes)
    requires blocks != [] && Tracks(blocks, fate, e) && p < |e.mem| == |e.log|
    requires f == e.(log := e.log[p := true], mem := e.mem[p := page], lost := e.lost - {p})
    ensures Tracks(blocks, FateStep(blocks, fate, Write(p, page)), f)
  {}

  lemma SyncTracks(blocks: seq<Block>, fate: Fate, e: Entry, f: Entry)
    requires blocks != [] && Tracks(blocks, fate, e) && |e.bits| == |e.log|
    requires f == e.(bits := Merge(e.bits, e.log, 0, |e.bits|), log := Reset(e.log, 0, |e.log|))
    ensures Tracks(blocks, FateStep(blocks, fate, Sync), f)
  {}

  lemma SoundSizes(blocks: seq<Block>, e: Entry)
    requires Sound(blocks, e)
    ensures |e.log| == |e.mem| == |e.dst| == |e.bits|
  {}

  lemma SendMem(blocks: seq<Block>, e: Entry, f: Entry, pages: nat)
    requires Outcome(blocks, e, f, pages)
    ensures f.mem == e.mem
  {}

  /** One step of a run. */
  method Take(s: RamSaver, step: Step, ghost fate: Fate)
    requires s.Valid(false) && s.blocks != [] && StepOk(s.blocks, |s.mem|, step) && Tracks(s.blocks, fate, s.Snap())
    modifies s, s.dirty, s.cache
    ensures s.Valid(false) && |s.mem| == old(|s.mem|)
    ensures s.mem == if step.Write? then old(s.mem)[step.p := step.page] else old(s.mem)
    ensures Tracks(s.blocks, FateStep(s.blocks, fate, step), s.Snap())
  {
    hide RamSaver.Valid, Tracks, FateStep, Outcome, Sound, Used;
    ValidSound(s, false);
    SoundSizes(s.blocks, s.Snap());
    match step
    case Write(p, page) =>
      GuestWrite(s, p, page);
      WriteTracks(s.blocks, fate, old(s.Snap()), s.Snap(), p, page);
    case Sync =>
      BitmapSync(s, false);
      assert s.dirty.bits == Merge(old(s.dirty.bits), old(s.dirty.log), 0, |s.mem|);
      assert s.dirty.log == Reset(old(s.dirty.log), 0, |s.mem|);
      SyncTracks(s.blocks, fate, old(s.Snap()), s.Snap());
    case Send =>
      var pages := s.FindAndSaveBlock(false);
      ValidSound(s, false);
      SendMem(s.blocks, old(s.Snap()), s.Snap(), pages);
      SendTracks(s.blocks, fate, old(s.Snap()), s.Snap(), pages);
  }

  /** The guest's memory after a run. */
  function Written(mem: seq<Bytes>, steps: seq<Step>): (r: seq<Bytes>)
    ensures |r| == |mem|
  {
    if steps == [] then mem
    else
      var before := Written(mem, steps[..|steps| - 1]);
      match steps[|steps| - 1]
      case Write(p, page) => if p < |before| then before[p := page] else before
      case _ => before
  }

  /** Any run of guest writes, synchronisations and sends keeps every page that differs marked,
      but for the one that may be lost; and it is where its steps say. */
  method Run(s: RamSaver, steps: seq<Step>)
    requires s.Valid(false) && forall i :: 0 <= i < |steps| ==> StepOk(s.blocks, |s.mem|, steps[i])
    requires s.blocks != [] && Tracks(s.blocks, Begin(s.mem), s.Snap())
    modifies s, s.dirty, s.cache
    ensures s.Valid(false) && |s.mem| == old(|s.mem|) && s.mem == Written(old(s.mem), steps)
    ensures Tracks(s.blocks, FateOf(s.blocks, old(s.mem), steps), s.Snap())
  {
    hide RamSaver.Valid, FateStep, Tracks, Begin;
    for i := 0 to |steps|
      invariant s.Valid(false) && |s.mem| == old(|s.mem|) && s.mem == Written(old(s.mem), steps[..i])
      invariant Tracks(s.blocks, FateOf(s.blocks, old(s.mem), steps[..i]), s.Snap())
    {
      Take(s, steps[i], FateOf(s.blocks, old(s.mem), steps[..i]));
      assert steps[..i + 1][..i] == steps[..i];
    }
    assert steps[..|steps|] == steps;
  }

  lemma AllArrives(blocks: seq<Block>, mem: seq<Bytes>, dst: seq<Bytes>, lost: set<nat>, bulk: bool, drops: nat)
    requires NoneBut(blocks, mem, dst, lost) && LostOk(blocks, lost, bulk, drops)
    ensures NoneBut(blocks, mem, dst, {LastPage(blocks)})
    ensures drops == 0 || blocks[|blocks| - 1].len == 1 ==> SameMemory(blocks, mem, dst)
  {}

  /** What completion does follows from the steps before it. */
  lemma FateDecides(blocks: seq<Block>, mem: seq<Bytes>, steps: seq<Step>, e: Entry, drop: bool)
    requires Sound(blocks, e) && e.mem == Written(mem, steps) && Tracks(blocks, FateOf(blocks, mem, steps), e)
    requires drop <==> e.bulk && e.seen.Some? && Drops(blocks, Merge(e.bits, e.log, 0, |e.mem|), e.seen.value, e.offset)
    ensures e.drops + (if drop then 1 else 0) == if DropsIn(blocks, mem, steps) then 1 else 0
    ensures Arrived(blocks, e.mem, e.dst, if drop then {Here(blocks, e.seen, e.offset)} else e.lost) <==>
      !LosesIn(blocks, mem, steps)
  {
    hide FateOf, Written, Merge, NoneDirty;
    LastUsed(blocks, |e.mem|);
  }

  lemma LastUsed(blocks: seq<Block>, total: nat)
    requires BlocksOk(blocks, total) && blocks != []
    ensures LastPage(blocks) < total && Used(blocks, LastPage(blocks))
  {
    assert InBlock(blocks[|blocks| - 1], LastPage(blocks));
  }

  /** A whole migration, in any order of guest writes, synchronisations and sends: the stream,
      cut into sections anywhere, rebuilds the guest's final memory from whatever the receiver
      had, all but the last page of the last block; and that too, if and only if the steps do not
      lose it. */
  method Migrate(blocks: seq<Block>, mem: seq<Bytes>, xbzrle: bool, cacheSize: nat, steps: seq<Step>,
                 ghost dst0: seq<Bytes>)
    returns (s: RamSaver)
    requires BlocksOk(blocks, |mem|) && blocks != [] && cacheSize > 0
    requires |dst0| == |mem| && PagesOk(mem) && PagesOk(dst0)
    requires forall i :: 0 <= i < |steps| ==> StepOk(blocks, |mem|, steps[i])
    ensures s.blocks == blocks && s.dst0 == dst0 && s.mem == Written(mem, steps)
    ensures Tied(blocks, dst0, s.stream, s.lastSent, s.dst)
    ensures LoadBytes(blocks, Receiver(None, dst0), WireAll(s.stream)) == Some((Receiver(s.lastSent, s.dst), []))
    ensures EveryCutLoads(blocks, Receiver(None, dst0), s.stream, Receiver(s.lastSent, s.dst))
    ensures NoneBut(blocks, s.mem, s.dst, {LastPage(blocks)})
    ensures SameMemory(blocks, s.mem, s.dst) <==> !LosesIn(blocks, mem, steps)
    ensures s.drops == if DropsIn(blocks, mem, steps) then 1 else 0
    ensures s.drops == 0 || blocks[|blocks| - 1].len == 1 ==> SameMemory(blocks, s.mem, s.dst)
  {
    hide Drops, NoneBut, LostOk, SameMemory, Arrived, Tracks, FateOf, LosesIn, DropsIn, RamSaver.Valid, Sound, Tied;
    hide Written, EveryCutLoads, LoadBytes, WireAll;
    s := new RamSaver(blocks, mem, xbzrle, cacheSize, dst0);
    Begins(s);
    Run(s, steps);
    ValidSound(s, false);
    SoundSizes(blocks, s.Snap());
    FateDecides(blocks, mem, steps, s.Snap(), WouldDrop(s));
    SaveComplete(s);
    AllArrives(blocks, s.mem, s.dst, s.lost, s.bulk, s.drops);
    TiedLoads(blocks, dst0, s.stream, s.lastSent, s.dst);
  }

  lemma TiedLoads(blocks: seq<Block>, dst0: seq<Bytes>, stream: seq<Record>, cur: Option<nat>, dst: seq<Bytes>)
    requires Tied(blocks, dst0, stream, cur, dst)
    ensures LoadBytes(blocks, Receiver(None, dst0), WireAll(stream)) == Some((Receiver(cur, dst), []))
    ensures EveryCutLoads(blocks, Receiver(None, dst0), stream, Receiver(cur, dst))
  {
    hide Load, LoadAll, Sendable, EveryCutLoads;
    LoadSection(blocks, Receiver(None, dst0), stream, []);
    assert WireAll(stream) + [] == WireAll(stream);
    CutsLoad(blocks, Receiver(None, dst0), stream, Receiver(cur, dst));
  }

  lemma Begins(s: RamSaver)
    requires s.blocks != [] && s.bulk && s.lastSeen == None && s.lastOffset == 0 && s.drops == 0
    requires |s.dirty.bits| == |s.dirty.log| == |s.mem|
    requires forall p :: 0 <= p < |s.mem| ==> s.dirty.bits[p] && !s.dirty.log[p]
    ensures Tracks(s.blocks, Begin(s.mem), s.Snap())
  {
    var fate := Begin(s.mem);
    assert s.dirty.bits == fate.bits && s.dirty.log == fate.log;
  }

  lemma TwoPages(id: Bytes)
    ensures Used([Block(id, 0, 2)], 0) && Used([Block(id, 0, 2)], 1)
    ensures Drops([Block(id, 0, 2)], [false, true], 0, 1)
  {
    assert InBlock([Block(id, 0, 2)][0], 0) && InBlock([Block(id, 0, 2)][0], 1);
    assert [false, true][1 := false] == [false, false];
  }

  /** Both pages of a block of two are sent, and the second is written again. */
  lemma TwoSteps(id: Bytes, z: Bytes, page: Bytes)
    ensures var blocks, mem, steps := [Block(id, 0, 2)], [z, z], [Send, Send, Write(1, page)];
      && FateOf(blocks, mem, steps) == InBulk([false, false], [false, true], [z, page], Some(0), 1, z)
      && Written(mem, steps) == [z, page]
  {
    var blocks, mem := [Block(id, 0, 2)], [z, z];
    var s1, s2, s3 := [Send], [Send, Send], [Send, Send, Write(1, page)];
    assert s1[..0] == [] && s2[..1] == s1 && s3[..2] == s2;
    assert FateOf(blocks, mem, []) == InBulk([true, true], [false, false], mem, None, 0, []);
    assert FateOf(blocks, mem, s1) == InBulk([false, true], [false, false], mem, Some(0), 0, z);
    assert FateOf(blocks, mem, s2) == InBulk([false, false], [false, false], mem, Some(0), 1, z);
    assert Written(mem, []) == Written(mem, s1) == Written(mem, s2) == mem;
    assert mem[1 := page] == [z, page] && [false, false][1 := true] == [false, true];
  }

  /** The loss happens: once both pages are sent the guest writes the second again, and
      completion ends without it. */
  method LosesAPage(id: Bytes, page: Bytes, xbzrle: bool) returns (s: RamSaver)
    requires |id| < 256 && |page| == PAGE && page != ZeroPage()
    ensures s.blocks == [Block(id, 0, 2)] && s.dst0 == [page, page]
    ensures s.mem == Written([ZeroPage(), ZeroPage()], [Send, Send, Write(1, page)]) == [ZeroPage(), page]
    ensures Tied(s.blocks, s.dst0, s.stream, s.lastSent, s.dst) && s.drops == 1
    ensures DropsIn(s.blocks, [ZeroPage(), ZeroPage()], [Send, Send, Write(1, page)])
    ensures !SameMemory(s.blocks, s.mem, s.dst)
  {
    hide Drops, FateOf, SameMemory, Tied, ZeroPage, Written, Used, BlocksOk;
    var z := ZeroPage();
    TwoPages(id);
    TwoSteps(id, z, page);
    TwoBlocks(id);
    s := Migrate([Block(id, 0, 2)], [z, z], xbzrle, 1, [Send, Send, Write(1, page)], [page, page]);
    assert Merge([false, false], [false, true], 0, 2) == [false, true];
  }

  lemma TwoBlocks(id: Bytes)
    requires |id| < 256
    ensures BlocksOk([Block(id, 0, 2)], 2) && |ZeroPage()| == PAGE
  {}
}
