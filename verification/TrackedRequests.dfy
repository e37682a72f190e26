/** The overlapping-request protocol of block.c: coroutines that register tracked
    requests, mark unaligned writes serialising, wait for conflicting requests and
    carry out a read-modify-write cycle. One step is one piece of a coroutine that
    cannot yield; `running` names the coroutine that holds the thread. */
module TrackedRequests {
  import opened Arith
  import opened Image
  import opened Lists
  import opened Wrappers

  type Id = nat

  datatype Kind = Read | Write

  // Where the coroutine is. A *Wait is a call of wait_serialising_requests, an *Io
  // is a driver call.
  datatype Pc =
    | HeadMark | HeadWait | HeadReadWait | HeadIo
    | TailMark | TailWait | TailReadWait | TailIo
    | WriteWait | WriteIo
    | ReadWait | ReadIo
    | End

  // What a caller asked for. [lo, hi) is [offset, offset + bytes) rounded out to the
  // device's alignment; NewRead and NewWrite compute it.
  datatype Issue = Issue(kind: Kind, offset: nat, bytes: nat, data: Bytes, lo: nat, hi: nat)

  /** bdrv_co_do_preadv tracks a read by its aligned range. */
  function NewRead(offset: nat, bytes: nat, align: nat): Issue
    requires align > 0
  {
    var lo, hi := AlignDown(offset, align), AlignUp(offset + bytes, align);
    Issue(Read, lo, hi - lo, [], lo, hi)
  }

  function NewWrite(offset: nat, data: Bytes, align: nat): Issue
    requires align > 0
  {
    Issue(Write, offset, |data|, data, AlignDown(offset, align), AlignUp(offset + |data|, align))
  }

  /** The alignment tests of bdrv_co_do_pwritev, as comparisons with the rounded range. */
  lemma AlignmentTests(offset: nat, data: Bytes, align: nat)
    requires align > 0
    ensures var q := NewWrite(offset, data, align);
      && (HeadUnaligned(q) <==> offset % align != 0)
      && (TailUnaligned(q) <==> (offset + |data|) % align != 0)
      && q.offset - q.lo == offset % align
      && (TailUnaligned(q) ==> q.hi - align == AlignDown(offset + |data|, align))
  {
    var q := NewWrite(offset, data, align);
    var end := offset + |data|;
    if TailUnaligned(q) {
      var d := AlignDown(end, align);
      AddMod(d, align);
      if q.hi < d + align { MultiplesApart(q.hi, d + align, align); }
      if d + align < q.hi { MultiplesApart(d + align, q.hi, align); }
    }
  }

  datatype Request = Request(
    issue: Issue,
    serialising: bool, overlapOffset: int, overlapBytes: int,
    pc: Pc,
    waitingFor: Option<Id>,  // waiting_for; stays set from the yield until the coroutine runs again
    woken: bool,             // on the wake-up list of a request that has ended
    inIo: bool,              // inside a driver call
    waited: bool,            // the local of the current wait call
    head: Bytes, tail: Bytes // head_buf and tail_buf, [] until read
  )

  // `issued`, `applied`, `failed` and `results` are history: what callers asked for,
  // the writes that reached the driver, in order, the writes that reported an error,
  // and for each read that returned, the bytes and how many writes came before it.
  datatype State = State(
    align: nat, image: Bytes,
    tracked: seq<Id>, reqs: map<Id, Request>, serialisingInFlight: int,
    running: Option<Id>, assertsHold: bool,
    issued: map<Id, Issue>, applied: seq<Id>, failed: set<Id>,
    results: map<Id, (nat, Bytes)>
  )

  // ----- the coroutine's text -----

  predicate HeadUnaligned(q: Issue) { q.kind.Write? && q.lo != q.offset }

  predicate TailUnaligned(q: Issue) { q.kind.Write? && q.offset + q.bytes != q.hi }

  predicate Unaligned(q: Issue) { HeadUnaligned(q) || TailUnaligned(q) }

  function First(q: Issue): Pc {
    if q.kind.Read? then ReadWait
    else if HeadUnaligned(q) then HeadMark
    else if TailUnaligned(q) then TailMark
    else WriteWait
  }

  function After(pc: Pc, q: Issue): Pc {
    match pc
    case HeadMark => HeadWait
    case HeadWait => HeadReadWait
    case HeadReadWait => HeadIo
    case HeadIo => if TailUnaligned(q) then TailMark else WriteWait
    case TailMark => TailWait
    case TailWait => TailReadWait
    case TailReadWait => TailIo
    case TailIo => WriteWait
    case WriteWait => WriteIo
    case WriteIo => End
    case ReadWait => ReadIo
    case ReadIo => End
    case End => End
  }

  predicate IsMark(pc: Pc) { pc.HeadMark? || pc.TailMark? }
  predicate IsIo(pc: Pc) { pc.HeadIo? || pc.TailIo? || pc.WriteIo? || pc.ReadIo? }
  predicate IsWait(pc: Pc) { !IsMark(pc) && !IsIo(pc) && !pc.End? }

  /** Every driver call comes right after the wait in bdrv_aligned_preadv or bdrv_aligned_pwritev, and
      those that read around an unaligned write also after a mark and a wait of their own. */
  lemma EveryIoWaits(pc: Pc, q: Issue)
    ensures !IsIo(First(q)) && !First(q).HeadWait? && !First(q).TailWait?
    ensures After(pc, q).WriteIo? <==> pc.WriteWait?
    ensures After(pc, q).ReadIo? <==> pc.ReadWait?
    ensures After(pc, q).HeadIo? <==> pc.HeadReadWait?
    ensures After(pc, q).TailIo? <==> pc.TailReadWait?
    ensures (After(pc, q).HeadReadWait? <==> pc.HeadWait?) && (After(pc, q).HeadWait? <==> pc.HeadMark?)
    ensures (After(pc, q).TailReadWait? <==> pc.TailWait?) && (After(pc, q).TailWait? <==> pc.TailMark?)
  {}

  /** The request has come through its first wait. */
  predicate Admitted(r: Request) {
    && !r.pc.HeadMark? && !r.pc.HeadWait? && !r.pc.ReadWait?
    && (HeadUnaligned(r.issue) || (!r.pc.TailMark? && !r.pc.TailWait?))
    && (Unaligned(r.issue) || !r.pc.WriteWait?)
  }

  predicate Overlaps(r: Request, offset: int, bytes: int) {
    if offset >= r.overlapOffset + r.overlapBytes then false
    else if r.overlapOffset >= offset + bytes then false
    else true
  }

  /** mark_request_serialising, without the in-flight counter. */
  function MarkSerialising(r: Request): Request {
    r.(serialising := true,
       overlapOffset := Min(r.overlapOffset, r.issue.lo),
       overlapBytes := Max(r.overlapBytes, r.issue.hi - r.issue.lo))
  }

  predicate Conflicts(r: Request, self: Request) {
    (r.serialising || self.serialising) && Overlaps(r, self.overlapOffset, self.overlapBytes)
  }

  /** The request wait_serialising_requests goes to sleep on, if any: the first one in
      list order that conflicts and is not itself waiting. */
  function FirstBlocker(tracked: seq<Id>, reqs: map<Id, Request>, self: Id): (b: Option<Id>)
    requires self in reqs
    requires forall i :: i in tracked ==> i in reqs
    ensures b.Some? ==> b.value in tracked && b.value != self
                        && Conflicts(reqs[b.value], reqs[self]) && reqs[b.value].waitingFor.None?
    ensures b.Some? ==> exists k :: 0 <= k < |tracked| && tracked[k] == b.value && NoneBefore(tracked, reqs, self, k)
    ensures b.None? ==> forall i :: i in tracked && i != self && Conflicts(reqs[i], reqs[self]) ==>
      reqs[i].waitingFor.Some?
  {
    if tracked == [] then None
    else if tracked[0] != self && Conflicts(reqs[tracked[0]], reqs[self]) && reqs[tracked[0]].waitingFor.None?
    then Some(tracked[0])
    else
      var rest := FirstBlocker(tracked[1..], reqs, self);
      var others := tracked[1..];
      assert rest.Some? ==>
        exists k :: 0 <= k < |tracked| && tracked[k] == rest.value && NoneBefore(tracked, reqs, self, k) by {
        if k :| rest.Some? && 0 <= k < |others| && others[k] == rest.value && NoneBefore(others, reqs, self, k) {
          assert tracked[k + 1] == rest.value && forall j :: 0 < j < k + 1 ==> tracked[j] == tracked[1..][j - 1];
          assert NoneBefore(tracked, reqs, self, k + 1);
        }
      }
      rest
  }

  /** None of the first k requests in the list is one to sleep on. */
  ghost predicate NoneBefore(tracked: seq<Id>, reqs: map<Id, Request>, self: Id, k: nat)
    requires k <= |tracked| && self in reqs && forall i :: i in tracked ==> i in reqs
  {
    forall j :: 0 <= j < k && tracked[j] != self && Conflicts(reqs[tracked[j]], reqs[self]) ==>
      reqs[tracked[j]].waitingFor.Some?
  }

  /** The vector bdrv_aligned_pwritev gets: the caller's bytes between the parts of the
      head and tail blocks that were read. */
  function Padded(r: Request, align: nat): Bytes
    requires BuffersRead(r, align)
  {
    var q := r.issue;
    (if HeadUnaligned(q) then r.head[..q.offset - q.lo] else [])
    + q.data
    + (if TailUnaligned(q) then r.tail[align - (q.hi - (q.offset + q.bytes))..] else [])
  }

  predicate BuffersRead(r: Request, align: nat) {
    var q := r.issue;
    && q.lo <= q.offset <= q.lo + align && q.offset + q.bytes <= q.hi <= q.offset + q.bytes + align
    && (HeadUnaligned(q) ==> |r.head| == align)
    && (TailUnaligned(q) ==> |r.tail| == align)
  }

  // ----- steps -----

  datatype Step =
    | BeginRead(id: Id, offset: nat, bytes: nat)
    | BeginWrite(id: Id, offset: nat, data: Bytes)
    | Run                                   // the running coroutine goes on to its next yield point
    | IoDone(id: Id, ok: bool)              // a driver call returns
    | Resume(id: Id)                        // a woken coroutine is entered again

  ghost predicate Inited(s: State) {
    && s.align >= SECTOR && s.align % SECTOR == 0 && |s.image| % SECTOR == 0
    && s.tracked == [] && s.reqs == map[] && s.serialisingInFlight == 0
    && s.running.None? && s.assertsHold
    && s.issued == map[] && s.applied == [] && s.failed == {} && s.results == map[]
  }

  /** When a step may happen. */
  ghost predicate Guard(s: State, step: Step) {
    match step
    case BeginRead(id, _, _) => s.running.None? && id !in s.issued
    case BeginWrite(id, _, _) => s.running.None? && id !in s.issued
    case Run => s.running.Some?
    case IoDone(id, ok) => s.running.None? && id in s.reqs && s.reqs[id].inIo
    case Resume(id) => s.running.None? && id in s.reqs && s.reqs[id].woken
  }

  /** What makes a step well defined; InvReady shows that it adds nothing to Guard. */
  ghost predicate Ready(s: State, step: Step) {
    && s.align >= SECTOR && s.align % SECTOR == 0
    && (forall i :: i in s.tracked ==> i in s.reqs)
    && (step.Run? && s.running.Some? ==> s.running.value in s.reqs)
    && (step.IoDone? && step.id in s.reqs ==> IoReady(s, step.id))
  }

  ghost predicate IoReady(s: State, id: Id)
    requires id in s.reqs
  {
    var r := s.reqs[id];
    && |s.image| % SECTOR == 0
    && r.issue.lo % SECTOR == 0 && r.issue.hi % SECTOR == 0
    && r.issue.lo <= r.issue.hi
    && (r.pc.TailIo? ==> s.align <= r.issue.hi)
    && (r.pc.ReadIo? ==> r.issue.offset == r.issue.lo && r.issue.bytes == r.issue.hi - r.issue.lo)
    && (r.pc.WriteIo? ==> BuffersRead(r, s.align))
  }

  ghost function Apply(s: State, step: Step): State
    requires Guard(s, step) && Ready(s, step)
  {
    match step
    case BeginRead(id, offset, bytes) => ApplyBegin(s, id, NewRead(offset, bytes, s.align))
    case BeginWrite(id, offset, data) => ApplyBegin(s, id, NewWrite(offset, data, s.align))
    case Run => ApplyRun(s, s.running.value)
    case IoDone(id, ok) => ApplyIo(s, id, ok)
    case Resume(id) =>
      s.(reqs := s.reqs[id := s.reqs[id].(waitingFor := None, woken := false)], running := Some(id))
  }

  /** tracked_request_begin, up to the first mark or wait. */
  function ApplyBegin(s: State, id: Id, q: Issue): State {
    s.(tracked := [id] + s.tracked,
       reqs := s.reqs[id := Request(q, false, q.offset, q.bytes, First(q), None, false, false, false, [], [])],
       running := Some(id), issued := s.issued[id := q])
  }

  ghost function ApplyRun(s: State, id: Id): State
    requires id in s.reqs && forall i :: i in s.tracked ==> i in s.reqs
  {
    var r := s.reqs[id];
    if IsMark(r.pc) then
      s.(reqs := s.reqs[id := MarkSerialising(r).(pc := After(r.pc, r.issue))],
         serialisingInFlight := if r.serialising then s.serialisingInFlight else s.serialisingInFlight + 1)
    else if IsIo(r.pc) then
      s.(reqs := s.reqs[id := r.(inIo := true)], running := None)
    else if r.pc.End? then
      s.(tracked := Without(s.tracked, id), reqs := WakeAll(s.reqs - {id}, id), running := None,
         serialisingInFlight := if r.serialising then s.serialisingInFlight - 1 else s.serialisingInFlight)
    else
      var b := if s.serialisingInFlight == 0 then None else FirstBlocker(s.tracked, s.reqs, id);
      if b.Some? then
        s.(reqs := s.reqs[id := r.(waitingFor := b, woken := false, waited := true)], running := None)
      else
        s.(reqs := s.reqs[id := r.(pc := After(r.pc, r.issue), waited := false)],
           assertsHold := s.assertsHold && WaitAsserts(r))
  }

  /** The assertions that follow a completed wait in bdrv_co_do_pwritev and
      bdrv_aligned_pwritev. */
  predicate WaitAsserts(r: Request) {
    && (r.pc.TailWait? ==> !r.waited || r.head == [])
    && (r.pc.WriteWait? ==>
          && (!r.waited || !r.serialising)
          && r.overlapOffset <= (if HeadUnaligned(r.issue) then r.issue.lo else r.issue.offset)
          && (if TailUnaligned(r.issue) then r.issue.hi else r.issue.offset + r.issue.bytes)
             <= r.overlapOffset + r.overlapBytes)
  }

  /** qemu_co_queue_restart_all on the wait queue of `id`. */
  function WakeAll(reqs: map<Id, Request>, id: Id): (m: map<Id, Request>)
    ensures m.Keys == reqs.Keys
    ensures forall i :: i in reqs ==> m[i] == reqs[i].(woken := reqs[i].woken || reqs[i].waitingFor == Some(id))
  {
    map i | i in reqs :: Woken(reqs[i], id)
  }

  function Woken(r: Request, id: Id): Request {
    if r.waitingFor == Some(id) then r.(woken := true) else r
  }

  ghost function ApplyIo(s: State, id: Id, ok: bool): State
    requires id in s.reqs && IoReady(s, id)
  {
    var r := s.reqs[id].(inIo := false);
    var q := r.issue;
    if !ok then
      s.(reqs := s.reqs[id := r.(pc := End)], running := Some(id),
         failed := if q.kind.Write? then s.failed + {id} else s.failed)
    else if r.pc.WriteIo? then
      s.(reqs := s.reqs[id := r.(pc := After(r.pc, q))], running := Some(id),
         image := WriteAt(s.image, if HeadUnaligned(q) then q.lo
             else q.offset, Padded(r, s.align)), applied := s.applied + [id])
    else
      s.(reqs := s.reqs[id := HasRead(s.image, s.align, r)], running := Some(id),
         results := if r.pc.ReadIo? then s.results[id := (|s.applied|, View(s.image, q.offset, q.bytes))]
             else s.results)
  }

  /** What a driver read brings a request: the head or the tail buffer, or the bytes its caller
      asked for. */
  function HasRead(image: Bytes, align: nat, r: Request): Request
    requires r.pc.TailIo? ==> align <= r.issue.hi
  {
    r.(pc := After(r.pc, r.issue),
       head := if r.pc.HeadIo? then View(image, r.issue.lo, align) else r.head,
       tail := if r.pc.TailIo? then View(image, r.issue.hi - align, align) else r.tail)
  }

  lemma AlignedSector(x: nat, align: nat)
    requires align > 0 && x % align == 0 && align % SECTOR == 0
    ensures x % SECTOR == 0
  {
    var p, q := x / align, align / SECTOR;
    assert x == p * align && align == q * SECTOR;
    assert x == (p * q) * SECTOR;
    MulMod(p * q, SECTOR);
  }
}
