/** Whole-run properties of the overlapping-request protocol. */
module TrackedProtocol {
  import opened Arith
  import opened Image
  import opened Lists
  import opened Wrappers
  import opened TrackedRequests

  // ----- the invariant -----

  ghost function Serialising(s: State): set<Id> {
    set i | i in s.reqs && s.reqs[i].serialising
  }

  ghost predicate IssueOk(q: Issue, align: nat) {
    && q.lo % SECTOR == 0 && q.hi % SECTOR == 0
    && q.lo <= q.offset < q.lo + align
    && q.offset + q.bytes <= q.hi < q.offset + q.bytes + align
    && (q.kind.Write? ==> q.bytes == |q.data|)
    && (q.kind.Read? ==> q.offset == q.lo && q.bytes == q.hi - q.lo)
    && (TailUnaligned(q) ==> align <= q.hi)
  }

  /** [lo, hi) is the range rounded out to the alignment. */
  ghost predicate Rounded(q: Issue, align: nat) {
    align > 0 && q.lo == AlignDown(q.offset, align) && q.hi == AlignUp(q.offset + q.bytes, align)
  }

  ghost predicate AllRounded(issued: map<Id, Issue>, align: nat) {
    forall i :: i in issued ==> Rounded(issued[i], align)
  }

  ghost predicate PcOk(r: Request) {
    && (r.pc.ReadWait? || r.pc.ReadIo? ==> r.issue.kind.Read?)
    && (r.issue.kind.Read? ==> r.pc.ReadWait? || r.pc.ReadIo? || r.pc.End?)
    && (r.pc.HeadMark? || r.pc.HeadWait? || r.pc.HeadReadWait? || r.pc.HeadIo? ==> HeadUnaligned(r.issue))
    && (r.pc.TailMark? || r.pc.TailWait? || r.pc.TailReadWait? || r.pc.TailIo? ==> TailUnaligned(r.issue))
  }

  ghost predicate WindowOk(r: Request) {
    var q := r.issue;
    && (r.serialising <==> Unaligned(q) && r.pc != First(q))
    && if r.serialising then r.overlapOffset == q.lo && r.overlapBytes == q.hi - q.lo
       else r.overlapOffset == q.offset && r.overlapBytes == q.bytes
  }

  /** The buffers of the read-modify-write cycle still show the image. */
  ghost predicate BuffersOk(r: Request, image: Bytes, align: nat) {
    var q := r.issue;
    && (!HeadUnaligned(q) ==> r.head == [])
    && (HeadUnaligned(q) && PastHead(r.pc) ==>
          var pad := q.offset - q.lo;
          |r.head| == align && 0 <= pad <= align && r.head[..pad] == View(image, q.lo, pad))
    && (TailUnaligned(q) && PastTail(r.pc) ==>
          var pad := q.hi - (q.offset + q.bytes);
          |r.tail| == align && 0 <= pad <= align && r.tail[align - pad..] == View(image, q.offset + q.bytes, pad))
  }

  predicate PastTail(pc: Pc) { pc.WriteWait? || pc.WriteIo? }
  predicate PastHead(pc: Pc) { PastTail(pc) || pc.TailMark? || pc.TailWait? || pc.TailReadWait? || pc.TailIo? }

  ghost predicate SchedOk(s: State, id: Id)
    requires id in s.reqs
  {
    var r := s.reqs[id];
    && (r.inIo ==> IsIo(r.pc) && s.running != Some(id))
    && (r.waitingFor.Some? ==> IsWait(r.pc) && !Admitted(r) && s.running != Some(id))
    && (s.running != Some(id) ==> r.inIo || r.waitingFor.Some?)
    && (r.woken ==> r.waitingFor.Some?)
    && (r.waitingFor.Some? && !r.woken ==> r.waitingFor.value in s.reqs && Admitted(s.reqs[r.waitingFor.value]))
    && (Admitted(r) ==> !r.waited)
  }

  ghost predicate ReqOk(r: Request, image: Bytes, align: nat) {
    PcOk(r) && WindowOk(r) && BuffersOk(r, image, align)
  }

  ghost predicate ReqsOk(s: State) {
    forall i :: i in s.reqs ==> ReqOk(s.reqs[i], s.image, s.align)
  }

  ghost predicate AllSched(s: State) {
    forall i :: i in s.reqs ==> SchedOk(s, i)
  }

  ghost predicate Shape(s: State) {
    && s.align >= SECTOR && s.align % SECTOR == 0 && |s.image| % SECTOR == 0
    && Distinct(s.tracked)
    && (forall i :: i in s.tracked <==> i in s.reqs)
    && s.serialisingInFlight == |Serialising(s)|
    && (s.running.Some? ==> s.running.value in s.reqs)
    && s.assertsHold
  }

  /** Which writes have taken effect and which have failed. */
  ghost predicate HistoryOk(s: State) {
    && (forall i :: i in s.reqs ==> i in s.issued && s.reqs[i].issue == s.issued[i])
    && (forall i :: i in s.issued ==> IssueOk(s.issued[i], s.align))
    && Distinct(s.applied)
    && (forall i :: i in s.applied ==> i in s.issued && s.issued[i].kind.Write? && i !in s.failed)
    && (forall i :: i in s.failed ==> i in s.issued)
    && (forall i :: i in s.issued && s.issued[i].kind.Write? && i !in s.reqs ==> i in s.applied || i in s.failed)
    && (forall i :: i in s.reqs && s.reqs[i].pc.End? && s.reqs[i].issue.kind.Write? ==> i in s.applied || i in s.failed)
    && (forall i :: i in s.reqs && !s.reqs[i].pc.End? ==> i !in s.applied && i !in s.failed)
  }

  /** No two admitted requests touch when one of them is serialising. */
  ghost predicate Exclusion(s: State) {
    forall i, j :: i in s.reqs && j in s.reqs && i != j && Admitted(s.reqs[i]) && Admitted(s.reqs[j])
      ==> !Conflicts(s.reqs[i], s.reqs[j])
  }

  ghost predicate Inv(s: State) {
    Shape(s) && HistoryOk(s) && ReqsOk(s) && AllSched(s) && Exclusion(s) && AllRounded(s.issued, s.align)
  }

  lemma InvReady(s: State, step: Step)
    requires Inv(s) && Guard(s, step)
    ensures Ready(s, step)
  {
    if step.IoDone? {
      assert IssueOk(s.issued[step.id], s.align);
      assert ReqOk(s.reqs[step.id], s.image, s.align);
    }
  }

  // ----- preservation -----

  lemma NewReadOk(offset: nat, bytes: nat, align: nat)
    requires align > 0 && align % SECTOR == 0
    ensures IssueOk(NewRead(offset, bytes, align), align) && Rounded(NewRead(offset, bytes, align), align)
  {
    hide AlignDown, AlignUp;
    AlignedSector(AlignDown(offset, align), align);
    AlignedSector(AlignUp(offset + bytes, align), align);
  }

  lemma NewWriteOk(offset: nat, data: Bytes, align: nat)
    requires align > 0 && align % SECTOR == 0
    ensures IssueOk(NewWrite(offset, data, align), align) && Rounded(NewWrite(offset, data, align), align)
  {
    hide AlignDown, AlignUp;
    AlignedSector(AlignDown(offset, align), align);
    AlignedSector(AlignUp(offset + |data|, align), align);
    AlignmentTests(offset, data, align);
  }

  /** A step of one request that is tracked before and after. */
  ghost predicate OneRequest(s: State, t: State, id: Id) {
    && id in s.reqs && id in t.reqs
    && t.reqs == s.reqs[id := t.reqs[id]]
    && t.align == s.align && t.tracked == s.tracked && t.issued == s.issued
    && t.reqs[id].issue == s.reqs[id].issue
    && (Admitted(s.reqs[id]) ==> Admitted(t.reqs[id]))
    && (s.running.Some? ==> s.running.value == id)
    && (t.running.Some? ==> t.running.value == id)
  }

  lemma SchedFrame(s: State, t: State, id: Id)
    requires OneRequest(s, t, id) && AllSched(s) && SchedOk(t, id)
    ensures AllSched(t)
  {
    forall i | i in t.reqs ensures SchedOk(t, i) {
      assert SchedOk(s, i);
    }
  }

  lemma ExclusionFrame(s: State, t: State, id: Id)
    requires OneRequest(s, t, id) && Exclusion(s)
    requires Admitted(t.reqs[id]) ==>
      forall j :: j in s.reqs && j != id && Admitted(s.reqs[j]) ==> !Conflicts(s.reqs[j], t.reqs[id])
    ensures Exclusion(t)
  {
    forall i, j | i in t.reqs && j in t.reqs && i != j && Admitted(t.reqs[i]) && Admitted(t.reqs[j])
      ensures !Conflicts(t.reqs[i], t.reqs[j])
    {
      if i == id { assert !Conflicts(t.reqs[j], t.reqs[i]); }
    }
  }

  ghost predicate SameWindow(r: Request, r': Request) {
    r'.serialising == r.serialising && r'.overlapOffset == r.overlapOffset && r'.overlapBytes == r.overlapBytes
  }

  lemma SameWindowExclusion(s: State, t: State, id: Id)
    requires OneRequest(s, t, id) && Exclusion(s)
    requires Admitted(t.reqs[id]) ==> Admitted(s.reqs[id]) && SameWindow(s.reqs[id], t.reqs[id])
    ensures Exclusion(t)
  {
    forall j | Admitted(t.reqs[id]) && j in s.reqs && j != id && Admitted(s.reqs[j])
      ensures !Conflicts(s.reqs[j], t.reqs[id])
    {
      assert !Conflicts(s.reqs[j], s.reqs[id]);
    }
    ExclusionFrame(s, t, id);
  }

  lemma HistoryFrame(s: State, t: State, id: Id)
    requires OneRequest(s, t, id) && HistoryOk(s)
    requires t.applied == s.applied && t.failed == s.failed
    requires t.reqs[id].pc.End? <==> s.reqs[id].pc.End?
    ensures HistoryOk(t)
  {
    hide IssueOk, Admitted, Distinct;
  }

  function NewlySerialising(r: Request, r': Request): nat {
    if r'.serialising && !r.serialising then 1 else 0
  }

  lemma ShapeFrame(s: State, t: State, id: Id)
    requires OneRequest(s, t, id) && Shape(s) && |t.image| % SECTOR == 0 && t.assertsHold
    requires s.reqs[id].serialising ==> t.reqs[id].serialising
    requires t.serialisingInFlight == s.serialisingInFlight + NewlySerialising(s.reqs[id], t.reqs[id])
    ensures Shape(t)
  {
    if t.reqs[id].serialising && !s.reqs[id].serialising {
      assert Serialising(t) == Serialising(s) + {id};
    } else {
      assert Serialising(t) == Serialising(s);
    }
  }

  /** All parts at once, for a step that leaves the disk and the history alone. */
  lemma QuietStep(s: State, t: State, id: Id)
    requires Inv(s) && OneRequest(s, t, id)
    requires t.image == s.image && t.applied == s.applied && t.failed == s.failed && t.assertsHold
    requires t.reqs[id].pc.End? <==> s.reqs[id].pc.End?
    requires s.reqs[id].serialising ==> t.reqs[id].serialising
    requires t.serialisingInFlight == s.serialisingInFlight + NewlySerialising(s.reqs[id], t.reqs[id])
    requires SchedOk(t, id) && ReqOk(t.reqs[id], t.image, t.align)
    requires Exclusion(t)
    ensures Inv(t)
  {
    hide ReqOk, IssueOk, Conflicts, Distinct, Serialising, Admitted, AllRounded, Exclusion;
    ShapeFrame(s, t, id);
    HistoryFrame(s, t, id);
    SchedFrame(s, t, id);
  }

  ghost predicate Added(s: State, t: State, id: Id) {
    && s.running.None? && t.running == Some(id) && id !in s.issued && id !in s.reqs
    && t.align == s.align && t.image == s.image && t.tracked == [id] + s.tracked && t.assertsHold
    && t.serialisingInFlight == s.serialisingInFlight && t.applied == s.applied && t.failed == s.failed
    && t.reqs.Keys == s.reqs.Keys + {id} && (forall i :: i in s.reqs ==> t.reqs[i] == s.reqs[i])
    && t.issued == s.issued[id := t.reqs[id].issue]
    && !t.reqs[id].serialising && !Admitted(t.reqs[id]) && !t.reqs[id].pc.End?
  }

  lemma BeginReq(q: Issue, image: Bytes, align: nat)
    requires IssueOk(q, align)
    ensures ReqOk(Request(q, false, q.offset, q.bytes, First(q), None, false, false, false, [], []), image, align)
  {}

  lemma BeginKeepsInv(s: State, t: State, id: Id, q: Issue)
    requires Inv(s) && s.running.None? && id !in s.issued && IssueOk(q, s.align) && Rounded(q, s.align)
    requires t == ApplyBegin(s, id, q)
    ensures Inv(t)
  {
    hide IssueOk, Conflicts, Distinct, Serialising, AllSched, Exclusion, Rounded;
    assert Added(s, t, id);
    BeginReq(q, s.image, s.align);
    BeginShape(s, t, id);
    BeginHistory(s, t, id);
    BeginSched(s, t, id);
  }

  lemma BeginShape(s: State, t: State, id: Id)
    requires Shape(s) && Added(s, t, id)
    ensures Shape(t)
  {
    assert Serialising(t) == Serialising(s);
  }

  lemma BeginHistory(s: State, t: State, id: Id)
    requires HistoryOk(s) && Added(s, t, id) && IssueOk(t.reqs[id].issue, t.align)
    ensures HistoryOk(t)
  {
    hide IssueOk, Distinct, PcOk, WindowOk, BuffersOk;
  }

  lemma BeginSched(s: State, t: State, id: Id)
    requires AllSched(s) && Exclusion(s) && Added(s, t, id) && SchedOk(t, id)
    ensures AllSched(t) && Exclusion(t)
  {
    forall i | i in t.reqs ensures SchedOk(t, i) {
      if i != id { assert SchedOk(s, i); }
    }
  }

  /** Only waiting and I/O flags change. */
  ghost predicate SameReq(r: Request, r': Request) {
    r' == r.(waitingFor := r'.waitingFor, woken := r'.woken, inIo := r'.inIo, waited := r'.waited)
  }

  lemma SameReqOk(r: Request, r': Request, image: Bytes, align: nat)
    requires ReqOk(r, image, align) && SameReq(r, r')
    ensures ReqOk(r', image, align)
  {}

  lemma FlagsOnly(s: State, t: State, id: Id)
    requires Inv(s) && OneRequest(s, t, id) && SameReq(s.reqs[id], t.reqs[id])
    requires t.image == s.image && t.applied == s.applied && t.failed == s.failed && t.assertsHold
    requires t.serialisingInFlight == s.serialisingInFlight && SchedOk(t, id)
    ensures Inv(t)
  {
    SameReqOk(s.reqs[id], t.reqs[id], s.image, s.align);
    SameWindowExclusion(s, t, id);
    QuietStep(s, t, id);
  }

  lemma ResumeKeepsInv(s: State, t: State, id: Id)
    requires Inv(s) && Guard(s, Resume(id)) && Ready(s, Resume(id)) && t == Apply(s, Resume(id))
    ensures Inv(t)
  {
    assert SchedOk(s, id);
    FlagsOnly(s, t, id);
  }

  lemma MarkReq(r: Request, r': Request, image: Bytes, align: nat)
    requires ReqOk(r, image, align) && IssueOk(r.issue, align) && IsMark(r.pc)
    requires r' == MarkSerialising(r).(pc := After(r.pc, r.issue))
    ensures ReqOk(r', image, align) && (Admitted(r') <==> Admitted(r))
    ensures Admitted(r) ==> SameWindow(r, r')
  {}

  lemma MarkKeepsInv(s: State, t: State)
    requires Inv(s) && s.running.Some? && IsMark(s.reqs[s.running.value].pc)
    requires Ready(s, Run) && t == Apply(s, Run)
    ensures Inv(t)
  {
    hide BuffersOk, Conflicts, Distinct, Serialising, AllRounded, FirstBlocker, NoneBefore, WakeAll, Without, Exclusion;
    var id := s.running.value;
    assert SchedOk(s, id) && ReqOk(s.reqs[id], s.image, s.align) && IssueOk(s.reqs[id].issue, s.align);
    MarkReq(s.reqs[id], t.reqs[id], s.image, s.align);
    SameWindowExclusion(s, t, id);
    QuietStep(s, t, id);
  }

  lemma SubmitKeepsInv(s: State, t: State)
    requires Inv(s) && s.running.Some? && IsIo(s.reqs[s.running.value].pc)
    requires Ready(s, Run) && t == Apply(s, Run)
    ensures Inv(t)
  {
    hide ReqOk, IssueOk, Conflicts, Serialising, Distinct, AllRounded, HistoryOk, Exclusion;
    hide FirstBlocker, NoneBefore, WakeAll, Without, MarkSerialising, WaitAsserts, Padded, View, WriteAt;
    var id := s.running.value;
    assert SchedOk(s, id);
    FlagsOnly(s, t, id);
  }

  lemma EndKeepsInv(s: State, t: State)
    requires Inv(s) && s.running.Some? && s.reqs[s.running.value].pc.End?
    requires Ready(s, Run) && t == Apply(s, Run)
    ensures Inv(t)
  {
    var id := s.running.value;
    EndRemoves(s, t, id);
    EndShape(s, t, id);
    EndHistory(s, t, id);
    EndSched(s, t, id);
    EndReqs(s, t, id);
  }

  ghost predicate Removed(s: State, t: State, id: Id) {
    && s.running == Some(id) && t.running.None? && id in s.reqs && s.reqs[id].pc.End?
    && t.align == s.align && t.image == s.image && t.tracked == Without(s.tracked, id) && t.assertsHold
    && t.serialisingInFlight == s.serialisingInFlight - (if s.reqs[id].serialising then 1 else 0)
    && t.applied == s.applied && t.failed == s.failed && t.issued == s.issued
    && t.reqs.Keys == s.reqs.Keys - {id}
    && (forall i :: i in t.reqs ==> t.reqs[i] == Woken(s.reqs[i], id))
  }

  lemma EndRemoves(s: State, t: State, id: Id)
    requires s.running == Some(id) && Ready(s, Run) && t == Apply(s, Run) && s.reqs[id].pc.End? && s.assertsHold
    ensures Removed(s, t, id)
  {}

  lemma EndShape(s: State, t: State, id: Id)
    requires Shape(s) && Removed(s, t, id)
    ensures Shape(t)
  {
    EndSerialising(s, t, id);
  }

  lemma EndSerialising(s: State, t: State, id: Id)
    requires Removed(s, t, id)
    ensures |Serialising(t)| == |Serialising(s)| - (if s.reqs[id].serialising then 1 else 0)
  {
    assert Serialising(t) == Serialising(s) - {id};
    assert s.reqs[id].serialising <==> id in Serialising(s);
  }

  lemma EndHistory(s: State, t: State, id: Id)
    requires HistoryOk(s) && Removed(s, t, id)
    ensures HistoryOk(t)
  {
    hide IssueOk;
  }

  lemma EndSched(s: State, t: State, id: Id)
    requires AllSched(s) && Removed(s, t, id)
    ensures AllSched(t)
  {
    forall i | i in t.reqs ensures SchedOk(t, i) {
      assert SchedOk(s, i);
    }
  }

  lemma EndReqs(s: State, t: State, id: Id)
    requires ReqsOk(s) && Exclusion(s) && Removed(s, t, id)
    ensures ReqsOk(t) && Exclusion(t)
  {
    hide PcOk, WindowOk, BuffersOk;
    forall i | i in t.reqs ensures ReqOk(t.reqs[i], t.image, t.align) {
      SameReqOk(s.reqs[i], t.reqs[i], s.image, s.align);
    }
    forall i, j | i in t.reqs && j in t.reqs && i != j && Admitted(t.reqs[i]) && Admitted(t.reqs[j])
      ensures !Conflicts(t.reqs[i], t.reqs[j])
    {
      assert !Conflicts(s.reqs[i], s.reqs[j]);
    }
  }

  /** The request a wait would block on is already admitted, so an admitted request
      never blocks again. */
  lemma BlockerAdmitted(s: State)
    requires Inv(s) && s.running.Some?
    ensures var id := s.running.value;
      var b := FirstBlocker(s.tracked, s.reqs, id);
      b.Some? ==> Admitted(s.reqs[b.value]) && !Admitted(s.reqs[id])
  {
    hide BuffersOk, WindowOk, HistoryOk, AllRounded, Serialising, Distinct, NoneBefore, Overlaps;
    var id := s.running.value;
    var b := FirstBlocker(s.tracked, s.reqs, id);
    if b.Some? {
      assert SchedOk(s, b.value);
      assert Admitted(s.reqs[b.value]);
    }
  }

  lemma BlockKeepsInv(s: State, t: State)
    requires Inv(s) && s.running.Some? && IsWait(s.reqs[s.running.value].pc)
    requires Ready(s, Run) && t == Apply(s, Run) && t.running.None?
    ensures Inv(t)
  {
    hide ReqOk, IssueOk, Conflicts, Serialising, Distinct, AllRounded, HistoryOk, Exclusion, NoneBefore, WakeAll;
    hide Without;
    var id := s.running.value;
    assert SchedOk(s, id);
    BlockerAdmitted(s);
    FlagsOnly(s, t, id);
  }

  lemma PassReq(r: Request, r': Request, image: Bytes, align: nat)
    requires ReqOk(r, image, align) && IssueOk(r.issue, align) && IsWait(r.pc) && (Admitted(r) ==> !r.waited)
    requires r' == r.(pc := After(r.pc, r.issue), waited := false)
    ensures ReqOk(r', image, align) && WaitAsserts(r) && SameWindow(r, r')
  {}

  lemma PassFacts(s: State, t: State, id: Id)
    requires s.running == Some(id) && Ready(s, Run) && t == Apply(s, Run) && IsWait(s.reqs[id].pc) && t.running.Some?
    requires PcOk(s.reqs[id])
    ensures OneRequest(s, t, id) && t.running == Some(id) && t.image == s.image && t.applied == s.applied
    ensures t.failed == s.failed
    ensures t.serialisingInFlight == s.serialisingInFlight
    ensures t.reqs[id] == s.reqs[id].(pc := After(s.reqs[id].pc, s.reqs[id].issue), waited := false)
    ensures t.assertsHold == (s.assertsHold && WaitAsserts(s.reqs[id]))
    ensures s.serialisingInFlight == 0 || FirstBlocker(s.tracked, s.reqs, id).None?
  {}

  lemma PassKeepsInv(s: State, t: State)
    requires Inv(s) && s.running.Some? && IsWait(s.reqs[s.running.value].pc)
    requires Ready(s, Run) && t == Apply(s, Run) && t.running.Some?
    ensures Inv(t)
  {
    var id := s.running.value;
    assert SchedOk(s, id) && ReqOk(s.reqs[id], s.image, s.align);
    PassFacts(s, t, id);
    Passed(s, t, id);
  }

  lemma Passed(s: State, t: State, id: Id)
    requires Inv(s) && OneRequest(s, t, id) && s.running == Some(id) && t.running == Some(id)
    requires IsWait(s.reqs[id].pc)
    requires t.reqs[id] == s.reqs[id].(pc := After(s.reqs[id].pc, s.reqs[id].issue), waited := false)
    requires t.image == s.image && t.applied == s.applied && t.failed == s.failed
    requires t.serialisingInFlight == s.serialisingInFlight
    requires t.assertsHold == (s.assertsHold && WaitAsserts(s.reqs[id]))
    requires s.serialisingInFlight == 0 || FirstBlocker(s.tracked, s.reqs, id).None?
    ensures Inv(t)
  {
    assert SchedOk(s, id) && IssueOk(s.issued[id], s.align);
    PassReq(s.reqs[id], t.reqs[id], s.image, s.align);
    PassExclusion(s, t, id);
    QuietStep(s, t, id);
  }

  lemma PassExclusion(s: State, t: State, id: Id)
    requires Inv(s) && s.running == Some(id) && OneRequest(s, t, id) && SameWindow(s.reqs[id], t.reqs[id])
    requires s.serialisingInFlight == 0 || FirstBlocker(s.tracked, s.reqs, id).None?
    ensures Exclusion(t)
  {
    assert s.serialisingInFlight == 0 ==> Serialising(s) == {};
    forall j | j in s.reqs && j != id && Admitted(s.reqs[j])
      ensures !Conflicts(s.reqs[j], t.reqs[id])
    {
      assert SchedOk(s, j);
      assert s.serialisingInFlight == 0 ==> j !in Serialising(s) && id !in Serialising(s);
    }
    ExclusionFrame(s, t, id);
  }

  // ----- driver calls -----

  /** All parts at once, for a driver call that returns. */
  lemma IoStep(s: State, t: State, id: Id)
    requires Inv(s) && OneRequest(s, t, id) && !s.reqs[id].pc.End?
    requires Admitted(s.reqs[id]) && SameWindow(s.reqs[id], t.reqs[id]) && SchedOk(t, id)
    requires t.serialisingInFlight == s.serialisingInFlight && t.assertsHold
    requires |t.image| % SECTOR == 0 && ReqsOk(t) && HistoryOk(t)
    ensures Inv(t)
  {
    hide IssueOk, Distinct, Serialising, AllRounded, HistoryOk, ReqsOk;
    ShapeFrame(s, t, id);
    SchedFrame(s, t, id);
    SameWindowExclusion(s, t, id);
  }

  lemma NoWriteHistory(s: State, t: State, id: Id)
    requires OneRequest(s, t, id) && HistoryOk(s) && !s.reqs[id].pc.End? && t.applied == s.applied
    requires t.failed == if t.reqs[id].pc.End? && t.reqs[id].issue.kind.Write? then s.failed + {id} else s.failed
    ensures HistoryOk(t)
  {
    hide IssueOk, Admitted, Distinct;
  }

  lemma OneMoreId(ids: seq<Id>, id: Id)
    requires Distinct(ids) && id !in ids
    ensures Distinct(ids + [id]) && forall i :: i in ids + [id] <==> i == id || i in ids
  {}

  lemma WriteHistory(s: State, t: State, id: Id)
    requires OneRequest(s, t, id) && HistoryOk(s) && !s.reqs[id].pc.End? && s.reqs[id].issue.kind.Write?
    requires t.applied == s.applied + [id] && t.failed == s.failed && t.reqs[id].pc.End?
    ensures HistoryOk(t)
  {
    hide IssueOk, Admitted, Distinct;
    OneMoreId(s.applied, id);
  }

  lemma ReqsFrame(s: State, t: State, id: Id)
    requires OneRequest(s, t, id) && t.image == s.image && ReqsOk(s) && ReqOk(t.reqs[id], t.image, t.align)
    ensures ReqsOk(t)
  {}

  /** What a returning driver call does to the state, in terms of its fields. */
  ghost predicate IoReturned(s: State, t: State, id: Id) {
    && OneRequest(s, t, id) && s.running.None? && t.running == Some(id) && IsIo(s.reqs[id].pc)
    && t.serialisingInFlight == s.serialisingInFlight && t.assertsHold == s.assertsHold
  }

  lemma IoFails(s: State, t: State, id: Id)
    requires Guard(s, IoDone(id, false)) && Ready(s, IoDone(id, false)) && PcOk(s.reqs[id])
    requires IsIo(s.reqs[id].pc) && t == Apply(s, IoDone(id, false))
    ensures IoReturned(s, t, id)
    ensures t.image == s.image && t.applied == s.applied && t.reqs[id] == s.reqs[id].(inIo := false, pc := End)
    ensures t.failed == if s.reqs[id].issue.kind.Write? then s.failed + {id} else s.failed
  {}

  lemma IoWrites(s: State, t: State, id: Id)
    requires Guard(s, IoDone(id, true)) && Ready(s, IoDone(id, true)) && PcOk(s.reqs[id])
    requires s.reqs[id].pc.WriteIo? && t == Apply(s, IoDone(id, true))
    ensures IoReturned(s, t, id)
    ensures t.failed == s.failed && t.applied == s.applied + [id]
    ensures t.reqs[id] == s.reqs[id].(inIo := false, pc := End)
  {}

  lemma ReadApplied(s: State, t: State, id: Id)
    requires id in s.reqs && IoReady(s, id) && IsIo(s.reqs[id].pc) && !s.reqs[id].pc.WriteIo?
    requires t == ApplyIo(s, id, true)
    ensures id in t.reqs && t.reqs == s.reqs[id := t.reqs[id]] && ReadResult(s.image, s.align, s.reqs[id], t.reqs[id])
    ensures t == s.(reqs := t.reqs, running := Some(id), results := t.results)
  {
    hide View, At, Padded, WriteAt, BuffersRead;
  }

  lemma IoReadResult(s: State, t: State, id: Id)
    requires Guard(s, IoDone(id, true)) && Ready(s, IoDone(id, true)) && PcOk(s.reqs[id])
    requires IsIo(s.reqs[id].pc) && !s.reqs[id].pc.WriteIo? && t == Apply(s, IoDone(id, true))
    ensures id in t.reqs && ReadResult(s.image, s.align, s.reqs[id], t.reqs[id])
  {
    hide ApplyIo, ApplyBegin, ApplyRun, ReadResult, IoReady, PcOk;
    ReadApplied(s, t, id);
  }

  lemma ReadAdmitted(r: Request, r': Request)
    requires PcOk(r) && IsIo(r.pc) && !r.pc.WriteIo? && r'.issue == r.issue && r'.pc == After(r.pc, r.issue)
    ensures Admitted(r) ==> Admitted(r')
  {}

  lemma IoReads(s: State, t: State, id: Id)
    requires Guard(s, IoDone(id, true)) && Ready(s, IoDone(id, true)) && PcOk(s.reqs[id])
    requires IsIo(s.reqs[id].pc) && !s.reqs[id].pc.WriteIo? && t == Apply(s, IoDone(id, true))
    ensures IoReturned(s, t, id)
    ensures t.image == s.image && t.applied == s.applied && t.failed == s.failed
  {
    hide ApplyIo, ApplyBegin, ApplyRun, IoReady, Admitted, PcOk;
    ReadApplied(s, t, id);
    ReadAdmitted(s.reqs[id], t.reqs[id]);
  }

  lemma IoSched(s: State, t: State, id: Id)
    requires IoReturned(s, t, id) && SchedOk(s, id)
    requires !t.reqs[id].inIo
    requires t.reqs[id] == t.reqs[id].(waitingFor := s.reqs[id].waitingFor, woken := s.reqs[id].woken,
      waited := s.reqs[id].waited)
    ensures SchedOk(t, id)
  {}

  lemma InvAt(s: State, id: Id)
    requires Inv(s) && id in s.reqs
    ensures SchedOk(s, id) && ReqOk(s.reqs[id], s.image, s.align) && IssueOk(s.reqs[id].issue, s.align)
    ensures |s.image| % SECTOR == 0 && s.assertsHold
  {
    hide ReqOk, IssueOk, SchedOk, Exclusion, AllRounded, Serialising, Distinct;
    assert IssueOk(s.issued[id], s.align);
  }

  lemma FailKeepsInv(s: State, t: State, id: Id)
    requires Inv(s) && IoReturned(s, t, id) && t.image == s.image && t.applied == s.applied
    requires t.reqs[id] == s.reqs[id].(inIo := false, pc := End)
    requires t.failed == if s.reqs[id].issue.kind.Write? then s.failed + {id} else s.failed
    ensures Inv(t)
  {
    hide Shape, HistoryOk, ReqsOk, AllSched, Exclusion, AllRounded, IssueOk, BuffersOk, WindowOk, SchedOk;
    InvAt(s, id);
    FailReq(s.reqs[id], t.reqs[id], s.image, s.align);
    ReqsFrame(s, t, id);
    NoWriteHistory(s, t, id);
    IoSched(s, t, id);
    IoStep(s, t, id);
  }

  lemma FailReq(r: Request, r': Request, image: Bytes, align: nat)
    requires ReqOk(r, image, align) && IsIo(r.pc) && r' == r.(inIo := false, pc := End)
    ensures ReqOk(r', image, align) && SameWindow(r, r')
  {}

  /** A driver call that leaves the disk alone. */
  lemma ReadKeepsInv(s: State, t: State, id: Id)
    requires Inv(s) && IoReturned(s, t, id) && t.image == s.image && t.applied == s.applied && t.failed == s.failed
    requires !s.reqs[id].pc.WriteIo? && ReadResult(s.image, s.align, s.reqs[id], t.reqs[id])
    ensures Inv(t)
  {
    hide Shape, HistoryOk, ReqsOk, AllSched, Exclusion, AllRounded, IssueOk, BuffersOk, WindowOk, SchedOk, View;
    hide ReadResult;
    InvAt(s, id);
    ReadFlags(s.image, s.align, s.reqs[id], t.reqs[id]);
    ReadReq(s.image, s.align, s.reqs[id], t.reqs[id]);
    ReqsFrame(s, t, id);
    NoWriteHistory(s, t, id);
    IoSched(s, t, id);
    IoStep(s, t, id);
  }

  ghost predicate ReadResult(image: Bytes, align: nat, r: Request, r': Request) {
    && (r.pc.TailIo? ==> align <= r.issue.hi)
    && r' == r.(inIo := false, pc := After(r.pc, r.issue),
                head := if r.pc.HeadIo? then View(image, r.issue.lo, align) else r.head,
                tail := if r.pc.TailIo? then View(image, r.issue.hi - align, align) else r.tail)
  }

  lemma ReadFlags(image: Bytes, align: nat, r: Request, r': Request)
    requires ReadResult(image, align, r, r') && PcOk(r) && IsIo(r.pc) && !r.pc.WriteIo?
    ensures !r'.inIo && r' == r'.(waitingFor := r.waitingFor, woken := r.woken, waited := r.waited)
    ensures r'.pc.End? ==> r'.issue.kind.Read?
  {
    hide View;
  }

  lemma ReadWindow(image: Bytes, align: nat, r: Request, r': Request)
    requires ReqOk(r, image, align) && IssueOk(r.issue, align) && IsIo(r.pc) && !r.pc.WriteIo?
    requires ReadResult(image, align, r, r')
    ensures PcOk(r') && WindowOk(r') && SameWindow(r, r')
  {
    hide BuffersOk, View;
  }

  lemma ViewParts(image: Bytes, lo: nat, n: nat, m: nat, mid: nat)
    requires n <= m && mid == lo + (m - n)
    ensures View(image, lo, m)[..n] == View(image, lo, n) && View(image, lo, m)[m - n..] == View(image, mid, n)
  {}

  lemma HeadBuffer(image: Bytes, align: nat, r: Request, r': Request)
    requires PcOk(r) && BuffersOk(r, image, align) && IssueOk(r.issue, align) && r.pc.HeadIo?
    requires ReadResult(image, align, r, r')
    ensures BuffersOk(r', image, align)
  {
    hide View;
    var q := r.issue;
    ViewParts(image, q.lo, q.offset - q.lo, align, q.lo + align - (q.offset - q.lo));
  }

  lemma TailBuffer(image: Bytes, align: nat, r: Request, r': Request)
    requires PcOk(r) && BuffersOk(r, image, align) && IssueOk(r.issue, align) && r.pc.TailIo?
    requires ReadResult(image, align, r, r')
    ensures BuffersOk(r', image, align)
  {
    hide View;
    var q := r.issue;
    ViewParts(image, q.hi - align, q.hi - (q.offset + q.bytes), align, q.offset + q.bytes);
  }

  lemma ReadBuffers(image: Bytes, align: nat, r: Request, r': Request)
    requires ReqOk(r, image, align) && IssueOk(r.issue, align) && IsIo(r.pc) && !r.pc.WriteIo?
    requires ReadResult(image, align, r, r')
    ensures BuffersOk(r', image, align)
  {
    hide View, WindowOk, IssueOk;
    if r.pc.HeadIo? { HeadBuffer(image, align, r, r'); }
    if r.pc.TailIo? { TailBuffer(image, align, r, r'); }
  }

  lemma ReadReq(image: Bytes, align: nat, r: Request, r': Request)
    requires ReqOk(r, image, align) && IssueOk(r.issue, align) && IsIo(r.pc) && !r.pc.WriteIo?
    requires ReadResult(image, align, r, r')
    ensures ReqOk(r', image, align) && SameWindow(r, r')
  {
    hide BuffersOk, WindowOk, PcOk, IssueOk, ReadResult;
    ReadWindow(image, align, r, r');
    ReadBuffers(image, align, r, r');
  }

  function Surrounded(image: Bytes, lo: nat, offset: nat, data: Bytes, hi: nat): Bytes
    requires lo <= offset && offset + |data| <= hi
  {
    View(image, lo, offset - lo) + data + View(image, offset + |data|, hi - (offset + |data|))
  }

  /** Writing back what surrounds a range changes only the range. */
  lemma Sandwich(image: Bytes, lo: nat, offset: nat, data: Bytes, hi: nat)
    requires lo <= offset && offset + |data| <= hi
    ensures SameView(WriteAt(image, lo, Surrounded(image, lo, offset, data, hi)), WriteAt(image, offset, data))
  {
    var p := Surrounded(image, lo, offset, data, hi);
    forall k: nat ensures At(WriteAt(image, lo, p), k) == At(WriteAt(image, offset, data), k) {
      AtWrite(image, lo, p, k);
      AtWrite(image, offset, data, k);
    }
  }

  lemma ViewFrame(a: Bytes, b: Bytes, offset: nat, n: nat)
    requires forall k: nat :: offset <= k < offset + n ==> At(a, k) == At(b, k)
    ensures View(a, offset, n) == View(b, offset, n)
  {}

  /** What a padded write hands to the driver is the image around the caller's bytes. */
  lemma PaddedIsSandwich(image: Bytes, align: nat, r: Request)
    requires ReqOk(r, image, align) && IssueOk(r.issue, align) && r.pc.WriteIo?
    ensures BuffersRead(r, align)
    ensures var q := r.issue;
      Padded(r, align) == Surrounded(image, if HeadUnaligned(q) then q.lo else q.offset, q.offset, q.data, q.hi)
  {
    var q := r.issue;
    assert BuffersOk(r, image, align);
    assert !HeadUnaligned(q) ==> View(image, q.offset, 0) == [];
    assert !TailUnaligned(q) ==> View(image, q.offset + q.bytes, 0) == [];
  }

  lemma OthersBuffers(r: Request, w: Request, image: Bytes, image': Bytes, align: nat)
    requires ReqOk(r, image, align) && ReqOk(w, image, align) && IssueOk(r.issue, align) && IssueOk(w.issue, align)
    requires w.pc.WriteIo? && (Admitted(r) ==> !Conflicts(r, w))
    requires SameView(image', WriteAt(image, w.issue.offset, w.issue.data))
    ensures ReqOk(r, image', align)
  {
    hide View, WriteAt, At;
    var q := r.issue;
    if r.serialising && Admitted(r) {
      forall k: nat | q.lo <= k < q.hi ensures At(image', k) == At(image, k) {
        AtWrite(image, w.issue.offset, w.issue.data, k);
      }
      ViewFrame(image', image, q.lo, q.offset - q.lo);
      ViewFrame(image', image, q.offset + q.bytes, q.hi - (q.offset + q.bytes));
    }
  }

  lemma WriteKeepsInv(s: State, t: State, id: Id)
    requires Inv(s) && IoReturned(s, t, id) && s.reqs[id].pc.WriteIo?
    requires t.reqs[id] == s.reqs[id].(inIo := false, pc := End)
    requires t.applied == s.applied + [id] && t.failed == s.failed && |t.image| % SECTOR == 0
    requires SameView(t.image, WriteAt(s.image, s.reqs[id].issue.offset, s.reqs[id].issue.data))
    ensures Inv(t)
  {
    hide Shape, HistoryOk, ReqsOk, AllSched, Exclusion, AllRounded, IssueOk, BuffersOk, WindowOk, SchedOk, SameView;
    hide WriteAt;
    InvAt(s, id);
    FinishReq(s.reqs[id], t.reqs[id], s.image, t.image, s.align);
    WriteReqs(s, t, id);
    WriteHistory(s, t, id);
    IoSched(s, t, id);
    IoStep(s, t, id);
  }

  /** The driver write of a read-modify-write cycle is, to a reader of the zero-extended
      image, the caller's write and nothing else. */
  lemma WriteReturns(s: State, t: State, id: Id)
    requires Guard(s, IoDone(id, true)) && Ready(s, IoDone(id, true))
    requires ReqOk(s.reqs[id], s.image, s.align) && IssueOk(s.reqs[id].issue, s.align)
    requires s.reqs[id].pc.WriteIo? && t == Apply(s, IoDone(id, true))
    ensures |t.image| % SECTOR == 0
    ensures SameView(t.image, WriteAt(s.image, s.reqs[id].issue.offset, s.reqs[id].issue.data))
  {
    var r := s.reqs[id];
    var q := r.issue;
    var base := if HeadUnaligned(q) then q.lo else q.offset;
    PaddedIsSandwich(s.image, s.align, r);
    SamePadding(r, s.align);
    assert t.image == WriteAt(s.image, base, Padded(r, s.align));
    Sandwich(s.image, base, q.offset, q.data, q.hi);
    WriteLength(s.image, base, q.offset, q.data, q.hi);
  }

  lemma WriteLength(image: Bytes, base: nat, offset: nat, data: Bytes, hi: nat)
    requires base <= offset && offset + |data| <= hi && |image| % SECTOR == 0 && hi % SECTOR == 0
    ensures |WriteAt(image, base, Surrounded(image, base, offset, data, hi))| % SECTOR == 0
  {}

  lemma SamePadding(r: Request, align: nat)
    requires BuffersRead(r, align)
    ensures Padded(r.(inIo := false), align) == Padded(r, align)
  {}

  lemma FinishReq(r: Request, r': Request, image: Bytes, image': Bytes, align: nat)
    requires ReqOk(r, image, align) && r.pc.WriteIo? && r' == r.(inIo := false, pc := End)
    ensures ReqOk(r', image', align) && SameWindow(r, r')
  {}

  /** What the invariant says of a request beside one that is writing. */
  lemma BesideWriter(s: State, j: Id, id: Id)
    requires Inv(s) && j in s.reqs && id in s.reqs && j != id && s.reqs[id].pc.WriteIo?
    ensures ReqOk(s.reqs[j], s.image, s.align) && IssueOk(s.reqs[j].issue, s.align)
    ensures ReqOk(s.reqs[id], s.image, s.align) && IssueOk(s.reqs[id].issue, s.align)
    ensures Admitted(s.reqs[j]) ==> !Conflicts(s.reqs[j], s.reqs[id])
  {
    hide Shape, HistoryOk, ReqsOk, AllSched, AllRounded, ReqOk, IssueOk, Conflicts, SchedOk;
    InvAt(s, j);
    InvAt(s, id);
  }

  lemma WriteReqs(s: State, t: State, id: Id)
    requires Inv(s) && OneRequest(s, t, id) && s.reqs[id].pc.WriteIo? && ReqOk(t.reqs[id], t.image, t.align)
    requires SameView(t.image, WriteAt(s.image, s.reqs[id].issue.offset, s.reqs[id].issue.data))
    ensures ReqsOk(t)
  {
    hide Inv, ReqOk, IssueOk, Conflicts, Admitted, SameView, WriteAt;
    forall j | j in t.reqs ensures ReqOk(t.reqs[j], t.image, t.align) {
      if j != id {
        BesideWriter(s, j, id);
        OthersBuffers(s.reqs[j], s.reqs[id], s.image, t.image, s.align);
      }
    }
  }

  // ----- runs -----

  lemma StepKeepsInv(s: State, step: Step)
    requires Inv(s) && Guard(s, step)
    ensures Ready(s, step) && Inv(Apply(s, step))
  {
    InvReady(s, step);
    var t := Apply(s, step);
    match step
    case BeginRead(id, offset, bytes) =>
      NewReadOk(offset, bytes, s.align);
      BeginKeepsInv(s, t, id, NewRead(offset, bytes, s.align));
    case BeginWrite(id, offset, data) =>
      NewWriteOk(offset, data, s.align);
      BeginKeepsInv(s, t, id, NewWrite(offset, data, s.align));
    case Run => RunKeepsInv(s, t);
    case IoDone(id, ok) => IoKeepsInv(s, t, id, ok);
    case Resume(id) => ResumeKeepsInv(s, t, id);
  }

  lemma IoKeepsInv(s: State, t: State, id: Id, ok: bool)
    requires Inv(s) && Guard(s, IoDone(id, ok)) && Ready(s, IoDone(id, ok))
    requires t == Apply(s, IoDone(id, ok))
    ensures Inv(t)
  {
    assert SchedOk(s, id);
    if !ok {
      IoFails(s, t, id);
      FailKeepsInv(s, t, id);
    } else if s.reqs[id].pc.WriteIo? {
      IoWrites(s, t, id);
      WriteReturns(s, t, id);
      WriteKeepsInv(s, t, id);
    } else {
      IoReads(s, t, id);
      IoReadResult(s, t, id);
      ReadKeepsInv(s, t, id);
    }
  }

  lemma RunKeepsInv(s: State, t: State)
    requires Inv(s) && s.running.Some? && Ready(s, Run) && t == Apply(s, Run)
    ensures Inv(t)
  {
    var pc := s.reqs[s.running.value].pc;
    if IsMark(pc) { MarkKeepsInv(s, t); }
    else if IsIo(pc) { SubmitKeepsInv(s, t); }
    else if pc.End? { EndKeepsInv(s, t); }
    else if t.running.None? { BlockKeepsInv(s, t); }
    else { PassKeepsInv(s, t); }
  }
}
