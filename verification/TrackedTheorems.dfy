/** What the overlapping-request protocol promises over whole runs: it linearises, it
    loses no update, its assertions hold and it never deadlocks. */
module TrackedTheorems {
  import opened Image
  import opened Lists
  import opened TrackedHistory
  import opened TrackedProtocol
  import opened TrackedRequests
  import opened Wrappers

  lemma InitInv(s: State)
    requires Inited(s)
    ensures Inv(s) && Outcomes(s, {}) && Linear(s, s.image)
  {
    assert Serialising(s) == {};
  }

  /** The image after the named writes, one after the other. */
  ghost function Replay(img: Bytes, ids: seq<Id>, issued: map<Id, Issue>): Bytes
    requires forall i :: i in ids ==> i in issued
  {
    if ids == [] then img
    else
      var last := ids[|ids| - 1];
      WriteAt(Replay(img, ids[..|ids| - 1], issued), issued[last].offset, issued[last].data)
  }

  lemma {:induction false} ReplayFrame(img: Bytes, ids: seq<Id>, m: map<Id, Issue>, m': map<Id, Issue>)
    requires forall i :: i in ids ==> i in m && i in m' && m[i] == m'[i]
    ensures Replay(img, ids, m) == Replay(img, ids, m')
  {
    if ids != [] { ReplayFrame(img, ids[..|ids| - 1], m, m'); }
  }

  lemma WriteCong(a: Bytes, b: Bytes, offset: nat, data: Bytes)
    requires SameView(a, b)
    ensures SameView(WriteAt(a, offset, data), WriteAt(b, offset, data))
  {
    forall k: nat ensures At(WriteAt(a, offset, data), k) == At(WriteAt(b, offset, data), k) {
      AtWrite(a, offset, data, k);
      AtWrite(b, offset, data, k);
    }
  }

  /** The image is the replay of the applied writes, and each read returned the replay of
      the writes that came before it. */
  ghost predicate Linear(s: State, img0: Bytes) {
    && (forall i :: i in s.applied ==> i in s.issued)
    && SameView(s.image, Replay(img0, s.applied, s.issued))
    && (forall i :: i in s.results ==> i in s.issued && ResultOk(s, img0, i))
  }

  ghost predicate ResultOk(s: State, img0: Bytes, i: Id)
    requires i in s.results && i in s.issued
    requires forall j :: j in s.applied ==> j in s.issued
  {
    && s.results[i].0 <= |s.applied|
    && s.results[i].1 == View(Replay(img0, s.applied[..s.results[i].0], s.issued), s.issued[i].offset,
        s.issued[i].bytes)
  }

  /** What a step does to the disk: nothing, a read that returns, or a write. */
  datatype Touch = Nothing | Reads(id: Id) | Writes(id: Id)

  ghost predicate Effect(s: State, t: State, touch: Touch) {
    && (forall i :: i in s.issued ==> i in t.issued && t.issued[i] == s.issued[i])
    && match touch
       case Nothing => t.image == s.image && t.applied == s.applied && t.results == s.results
       case Reads(i) =>
         && i in s.issued && t.image == s.image && t.applied == s.applied
         && t.results == s.results[i := (|s.applied|, View(s.image, s.issued[i].offset, s.issued[i].bytes))]
       case Writes(i) =>
         && i in s.issued && t.applied == s.applied + [i] && t.results == s.results
         && SameView(t.image, WriteAt(s.image, s.issued[i].offset, s.issued[i].data))
  }

  lemma StepEffect(s: State, step: Step) returns (touch: Touch)
    requires Inv(s) && Guard(s, step) && Ready(s, step)
    ensures Effect(s, Apply(s, step), touch)
  {
    if step.IoDone? {
      assert SchedOk(s, step.id) && ReqOk(s.reqs[step.id], s.image, s.align) && IssueOk(s.issued[step.id], s.align);
      touch := IoEffect(s, Apply(s, step), step.id, step.ok);
    } else {
      touch := Nothing;
      QuietEffect(s, step);
    }
  }

  lemma QuietEffect(s: State, step: Step)
    requires Guard(s, step) && Ready(s, step) && !step.IoDone?
    ensures Effect(s, Apply(s, step), Nothing)
  {
    if step.Run? {
      RunEffect(s, s.running.value);
    }
  }

  lemma RunEffect(s: State, id: Id)
    requires id in s.reqs && forall i :: i in s.tracked ==> i in s.reqs
    ensures Effect(s, ApplyRun(s, id), Nothing)
  {}

  lemma IoEffect(s: State, t: State, id: Id, ok: bool) returns (touch: Touch)
    requires Guard(s, IoDone(id, ok)) && Ready(s, IoDone(id, ok)) && t == Apply(s, IoDone(id, ok))
    requires id in s.issued && s.issued[id] == s.reqs[id].issue && IsIo(s.reqs[id].pc)
    requires ReqOk(s.reqs[id], s.image, s.align) && IssueOk(s.reqs[id].issue, s.align)
    ensures Effect(s, t, touch)
  {
    if !ok || s.reqs[id].pc.HeadIo? || s.reqs[id].pc.TailIo? {
      touch := Nothing;
    } else if s.reqs[id].pc.ReadIo? {
      touch := Reads(id);
    } else {
      WriteReturns(s, t, id);
      touch := Writes(id);
    }
  }

  lemma EffectKeepsLinear(s: State, t: State, img0: Bytes, touch: Touch)
    requires Linear(s, img0) && Effect(s, t, touch)
    ensures Linear(t, img0)
  {
    ReplayFrame(img0, s.applied, s.issued, t.issued);
    if touch.Writes? {
      WriteReplay(s, t, img0, touch.id);
    }
    forall i | i in t.results ensures i in t.issued && ResultOk(t, img0, i) {
      KeepsResult(s, t, img0, touch, i);
    }
  }

  lemma WriteReplay(s: State, t: State, img0: Bytes, i: Id)
    requires (forall i :: i in s.applied ==> i in s.issued) && SameView(s.image, Replay(img0, s.applied, s.issued))
    requires Effect(s, t, Writes(i))
    ensures (forall i :: i in t.applied ==> i in t.issued) && SameView(t.image, Replay(img0, t.applied, t.issued))
  {
    ReplayFrame(img0, s.applied, s.issued, t.issued);
    var before := Replay(img0, s.applied, s.issued);
    assert forall j :: j in t.applied ==> j in s.applied || j == i;
    assert t.applied[..|t.applied| - 1] == s.applied && t.applied[|t.applied| - 1] == i;
    WriteCong(s.image, before, s.issued[i].offset, s.issued[i].data);
    assert Replay(img0, t.applied, t.issued) == WriteAt(before, s.issued[i].offset, s.issued[i].data);
  }

  lemma KeepsResult(s: State, t: State, img0: Bytes, touch: Touch, i: Id)
    requires Linear(s, img0) && Effect(s, t, touch) && i in t.results && forall j :: j in t.applied ==> j in t.issued
    ensures i in t.issued && ResultOk(t, img0, i)
  {
    hide Replay, View, At;
    if touch == Reads(i) {
      ReplayFrame(img0, s.applied, s.issued, t.issued);
      assert t.applied[..|s.applied|] == s.applied;
      ViewFrame(s.image, Replay(img0, s.applied, s.issued), s.issued[i].offset, s.issued[i].bytes);
    } else {
      assert ResultOk(s, img0, i);
      var n := s.results[i].0;
      assert t.applied[..n] == s.applied[..n];
      ReplayFrame(img0, s.applied[..n], s.issued, t.issued);
    }
  }

  lemma {:induction false} RunKeeps(s: State, steps: seq<Step>, t: State, img0: Bytes)
    requires Inv(s) && Linear(s, img0) && RunFrom(s, steps, t)
    ensures Inv(t) && Linear(t, img0)
    decreases |steps|
  {
    if steps != [] {
      StepKeepsInv(s, steps[0]);
      var touch := StepEffect(s, steps[0]);
      EffectKeepsLinear(s, Apply(s, steps[0]), img0, touch);
      RunKeeps(Apply(s, steps[0]), steps[1..], t, img0);
    }
  }

  /** What came of a caller's request: a write that has ended took effect unless a driver call of
      it failed; a read that has ended and did not fail was given, at the caller's offset in the
      rounded range, the bytes that the writes before it left there. */
  ghost predicate Answered(img0: Bytes, steps: seq<Step>, t: State, step: Step)
    requires forall i :: i in t.applied ==> i in t.issued
  {
    match step
    case BeginWrite(id, _, _) => id !in t.reqs ==> (id in t.applied <==> IoDone(id, false) !in steps)
    case BeginRead(id, offset, bytes) =>
      && (id !in t.reqs ==> (id in t.results <==> IoDone(id, false) !in steps))
      && (id in t.results ==> Returned(img0, t, id, offset, bytes))
    case _ => true
  }

  ghost predicate Returned(img0: Bytes, t: State, id: Id, offset: nat, bytes: nat)
    requires id in t.results && forall i :: i in t.applied ==> i in t.issued
  {
    var n, got := t.results[id].0, t.results[id].1;
    && t.align > 0 && offset % t.align + bytes <= |got| && n <= |t.applied|
    && got[offset % t.align..offset % t.align + bytes]
       == View(Replay(img0, t.applied[..n], t.issued), offset, bytes)
  }

  lemma PartOfView(img: Bytes, lo: nat, n: nat, offset: nat, bytes: nat)
    requires lo <= offset && offset + bytes <= lo + n
    ensures View(img, lo, n)[offset - lo..offset - lo + bytes] == View(img, offset, bytes)
  {}

  lemma ReadReturned(img0: Bytes, t: State, step: Step)
    requires (forall i :: i in t.applied ==> i in t.issued) && step.BeginRead? && step.id in t.results
    requires step.id in t.issued && AsAsked(step, t.issued[step.id], t.align) && ResultOk(t, img0, step.id)
    ensures Returned(img0, t, step.id, step.offset, step.bytes)
  {
    hide Replay, View;
    var q, n := t.issued[step.id], t.results[step.id].0;
    PartOfView(Replay(img0, t.applied[..n], t.issued), q.offset, q.bytes, step.offset, step.bytes);
  }

  lemma CallAnswered(img0: Bytes, steps: seq<Step>, t: State, step: Step)
    requires Linear(t, img0) && HistoryOk(t) && Outcomes(t, Failures(steps)) && step in steps && Begins(step)
    requires step.id in t.issued && AsAsked(step, t.issued[step.id], t.align)
    ensures Answered(img0, steps, t, step)
  {
    hide Replay, View, Failures, Distinct, IssueOk, Returned, ResultOk, SameView;
    FailuresAre(steps, step.id);
    if step.BeginRead? && step.id in t.results { ReadReturned(img0, t, step); }
  }

  /** Every run is equivalent to doing its successful writes one at a time, each exactly
      once and with its caller's bytes, with every read returning the state between two of them;
      no assertion fails and no two admitted requests overlap when one is serialising. */
  lemma Linearisable(s: State, steps: seq<Step>, t: State)
    requires Inited(s) && RunFrom(s, steps, t)
    ensures Linear(t, s.image) && Distinct(t.applied) && t.assertsHold && Exclusion(t)
    ensures Recorded(map[], steps, t.issued, s.align)
    ensures forall step :: step in steps && Begins(step) ==> Answered(s.image, steps, t, step)
    ensures forall i :: i in t.applied ==> t.issued[i].kind.Write? && IoDone(i, false) !in steps
    ensures forall i :: i in t.tracked <==> i in t.reqs
  {
    hide RunFrom, Answered, Replay, Exclusion, Distinct, AsAsked, Failures;
    InitInv(s);
    RunKeeps(s, steps, t, s.image);
    RunRecords(s, steps, t);
    RunOutcomes(s, steps, t, {});
    assert {} + Failures(steps) == Failures(steps);
    forall step | step in steps && Begins(step) ensures Answered(s.image, steps, t, step) {
      CallAnswered(s.image, steps, t, step);
    }
    forall i | i in t.applied ensures t.issued[i].kind.Write? && IoDone(i, false) !in steps {
      FailuresAre(steps, i);
    }
  }

  /** What later steps add to the record. */
  ghost predicate Grown(s: State, t: State) {
    && s.applied <= t.applied
    && (forall i :: i in s.results ==> i in t.results && t.results[i] == s.results[i])
    && (forall i :: i in t.results && i !in s.results ==> |s.applied| <= t.results[i].0)
  }

  lemma StepGrows(s: State, step: Step, bad: set<Id>)
    requires Inv(s) && Outcomes(s, bad) && Guard(s, step) && Ready(s, step)
    ensures Grown(s, Apply(s, step))
  {
    hide Apply, Inv;
    var touch := StepEffect(s, step);
    if step.IoDone? { IoInv(s, step.id, step.ok); }
    ReadsOnce(s, step, touch, bad);
  }

  lemma ReadsOnce(s: State, step: Step, touch: Touch, bad: set<Id>)
    requires Outcomes(s, bad) && Guard(s, step) && Ready(s, step) && Effect(s, Apply(s, step), touch)
    requires step.IoDone? ==> IsIo(s.reqs[step.id].pc)
    ensures Grown(s, Apply(s, step))
  {
    if step.IoDone? {
      assert !Over(s, step.id);
      IoRecords(s, step.id, step.ok);
    }
  }

  lemma {:induction false} RunGrows(s: State, steps: seq<Step>, t: State, bad: set<Id>)
    requires Inv(s) && Outcomes(s, bad) && RunFrom(s, steps, t)
    ensures Grown(s, t)
    decreases |steps|
  {
    hide Inv, Outcomes, Apply, Guard, Ready;
    if steps != [] {
      StepKeepsInv(s, steps[0]);
      StepGrows(s, steps[0], bad);
      StepOutcomes(s, steps[0], bad);
      RunGrows(Apply(s, steps[0]), steps[1..], t, bad + if steps[0].IoDone? && !steps[0].ok then {steps[0].id} else {});
    }
  }

  /** The order respects time: a request that begins after some writes have taken effect comes
      after them, and what a read was given does not change. */
  lemma RealTime(s: State, steps: seq<Step>, m: State, more: seq<Step>, t: State)
    requires Inited(s) && RunFrom(s, steps, m) && RunFrom(m, more, t)
    ensures m.applied <= t.applied
    ensures forall i :: i in m.results ==> i in t.results && t.results[i] == m.results[i]
    ensures forall step :: step in more && step.BeginRead? && step.id in t.results ==>
      |m.applied| <= t.results[step.id].0
    ensures forall step :: step in more && step.BeginWrite? ==> step.id !in m.applied
  {
    hide RunFrom, Inv, Replay, Failures, AsAsked;
    InitInv(s);
    RunKeeps(s, steps, m, s.image);
    RunOutcomes(s, steps, m, {});
    RunGrows(m, more, t, {} + Failures(steps));
    RunRecords(m, more, t);
  }

  // ----- no lost update -----

  predicate Covers(q: Issue, k: nat) { q.offset <= k < q.offset + |q.data| }

  lemma {:induction false} ReplayOutside(img: Bytes, ids: seq<Id>, issued: map<Id, Issue>, k: nat)
    requires forall i :: i in ids ==> i in issued && !Covers(issued[i], k)
    ensures At(Replay(img, ids, issued), k) == At(img, k)
  {
    if ids != [] {
      var rest, last := ids[..|ids| - 1], ids[|ids| - 1];
      ReplayOutside(img, rest, issued, k);
      AtWrite(Replay(img, rest, issued), issued[last].offset, issued[last].data, k);
    }
  }

  lemma {:induction false} ReplayInside(img: Bytes, ids: seq<Id>, issued: map<Id, Issue>, w: Id, k: nat)
    requires w in ids && forall i :: i in ids ==> i in issued
    requires Covers(issued[w], k) && forall i :: i in ids && i != w ==> !Covers(issued[i], k)
    ensures At(Replay(img, ids, issued), k) == issued[w].data[k - issued[w].offset]
  {
    var rest, last := ids[..|ids| - 1], ids[|ids| - 1];
    AtWrite(Replay(img, rest, issued), issued[last].offset, issued[last].data, k);
    if last != w { ReplayInside(img, rest, issued, w, k); }
  }

  /** The caller's write covers byte k. */
  predicate WritesByte(step: Step, k: nat) { step.BeginWrite? && step.offset <= k < step.offset + |step.data| }

  /** At most one of the run's writes covers byte k. */
  ghost predicate DisjointAt(steps: seq<Step>, k: nat) {
    forall a, b :: a in steps && b in steps && WritesByte(a, k) && WritesByte(b, k) ==> a == b
  }

  /** Concurrent writes to disjoint byte ranges: once every request has ended, the image is
      the original with each write that did not fail applied and every other byte as it was,
      whatever the interleaving and however unaligned the writes. */
  lemma NoLostUpdate(s: State, steps: seq<Step>, t: State, k: nat)
    requires Inited(s) && RunFrom(s, steps, t) && t.tracked == []
    requires DisjointAt(steps, k)
    ensures forall w :: w in steps && WritesByte(w, k) && IoDone(w.id, false) !in steps ==>
      At(t.image, k) == w.data[k - w.offset]
    ensures (forall w :: w in steps && WritesByte(w, k) ==> IoDone(w.id, false) in steps) ==>
      At(t.image, k) == At(s.image, k)
  {
    hide RunFrom, Replay, At, DisjointAt, Inited, ResultOk, Exclusion, Distinct, Covers;
    Linearisable(s, steps, t);
    assert t.reqs.Keys == {};
    RunRecords(s, steps, t);
    forall i | i in t.applied && Covers(t.issued[i], k) ensures WrittenBy(steps, i, k) {
      WriterOf(steps, t.issued, s.align, i, k);
    }
    ReplayDisjoint(s.image, steps, t.applied, t.issued, k);
    assert At(t.image, k) == At(Replay(s.image, t.applied, t.issued), k);
    forall w | w in steps && WritesByte(w, k) && IoDone(w.id, false) !in steps
      ensures At(t.image, k) == w.data[k - w.offset]
    {
      assert Answered(s.image, steps, t, w);
      assert AsAsked(w, t.issued[w.id], s.align);
      SameCover(w, t.issued[w.id], k);
    }
  }

  /** A write that covers byte k was asked for. */
  ghost predicate WrittenBy(steps: seq<Step>, i: Id, k: nat) {
    exists w :: w in steps && WritesByte(w, k) && w.id == i
  }

  lemma SameCover(w: Step, q: Issue, k: nat)
    requires w.BeginWrite? && q.offset == w.offset && q.data == w.data
    ensures Covers(q, k) <==> WritesByte(w, k)
  {}

  lemma WriterOf(steps: seq<Step>, issued: map<Id, Issue>, align: nat, i: Id, k: nat)
    requires Recorded(map[], steps, issued, align) && i in issued && issued[i].kind.Write? && Covers(issued[i], k)
    ensures WrittenBy(steps, i, k)
  {
    var w :| w in steps && Begins(w) && w.id == i;
    assert AsAsked(w, issued[w.id], align);
    assert WritesByte(w, k);
  }

  lemma ReplayDisjoint(img: Bytes, steps: seq<Step>, ids: seq<Id>, issued: map<Id, Issue>, k: nat)
    requires (forall i :: i in ids ==> i in issued) && DisjointAt(steps, k)
    requires forall i :: i in ids && Covers(issued[i], k) ==> WrittenBy(steps, i, k)
    ensures forall w :: w in ids && Covers(issued[w], k) ==>
      At(Replay(img, ids, issued), k) == issued[w].data[k - issued[w].offset]
    ensures (forall w :: w in ids ==> !Covers(issued[w], k)) ==> At(Replay(img, ids, issued), k) == At(img, k)
  {
    hide Replay, At, Covers;
    if w :| w in ids && Covers(issued[w], k) {
      forall i | i in ids && Covers(issued[i], k) ensures i == w {
        assert WrittenBy(steps, i, k) && WrittenBy(steps, w, k);
      }
      ReplayInside(img, ids, issued, w, k);
    } else {
      ReplayOutside(img, ids, issued, k);
    }
  }

  // ----- waiting -----

  /** Nobody waits for a request that is itself waiting, so there is no wait cycle; and
      while requests are outstanding some step other than a new request is possible. */
  lemma NoDeadlock(s: State, steps: seq<Step>, t: State)
    requires Inited(s) && RunFrom(s, steps, t)
    ensures forall i :: i in t.reqs && t.reqs[i].waitingFor.Some? && !t.reqs[i].woken ==>
              t.reqs[i].waitingFor.value in t.reqs && t.reqs[t.reqs[i].waitingFor.value].waitingFor.None?
    ensures t.tracked != [] ==>
      exists step: Step :: !step.BeginRead? && !step.BeginWrite? && Guard(t, step) && Ready(t, step)
  {
    InitInv(s);
    RunKeeps(s, steps, t, s.image);
    forall i | i in t.reqs && t.reqs[i].waitingFor.Some? && !t.reqs[i].woken
      ensures t.reqs[i].waitingFor.value in t.reqs && t.reqs[t.reqs[i].waitingFor.value].waitingFor.None?
    {
      assert SchedOk(t, i);
      assert SchedOk(t, t.reqs[i].waitingFor.value);
    }
    if t.tracked != [] {
      var step := SomeStep(t);
      InvReady(t, step);
    }
  }

  /** Byte k is in the request's range, rounded out to the alignment. */
  predicate InRange(q: Issue, k: nat) { q.lo <= k < q.hi }

  ghost predicate Meet(q: Issue, p: Issue) {
    exists k: nat :: InRange(q, k) && InRange(p, k)
  }

  /** Nobody waits without need: the request gone to sleep on is not aligned, or the sleeper is not,
      and they meet. */
  lemma SleepsOnConflict(s: State, steps: seq<Step>, t: State)
    requires Inited(s) && RunFrom(s, steps, t) && Guard(t, Run) && Ready(t, Run)
    requires IsWait(t.reqs[t.running.value].pc)
    ensures var id, u := t.running.value, Apply(t, Run);
      u.running.None? ==>
        exists b :: b in t.reqs && b != id && u.reqs[id].waitingFor == Some(b)
          && (Unaligned(t.reqs[b].issue) || Unaligned(t.reqs[id].issue))
          && (t.reqs[b].issue.bytes > 0 && t.reqs[id].issue.bytes > 0 ==> Meet(t.reqs[b].issue, t.reqs[id].issue))
  {
    hide RunFrom, Inv, Linear, Inited, Outcomes, IsMark, Conflicts, Unaligned, Meet;
    InitInv(s);
    RunKeeps(s, steps, t, s.image);
    var id := t.running.value;
    var b := FirstBlocker(t.tracked, t.reqs, id);
    if b.Some? {
      ConflictMeets(t, b.value, id);
    }
  }

  lemma ConflictMeets(t: State, b: Id, id: Id)
    requires Inv(t) && b in t.reqs && id in t.reqs && Conflicts(t.reqs[b], t.reqs[id])
    ensures var q, p := t.reqs[b].issue, t.reqs[id].issue;
      (Unaligned(q) || Unaligned(p)) && (q.bytes > 0 && p.bytes > 0 ==> Meet(q, p))
  {
    hide Shape, HistoryOk, ReqsOk, AllSched, Exclusion, AllRounded, BuffersOk, PcOk;
    InvAt(t, b);
    InvAt(t, id);
    var r, self := t.reqs[b], t.reqs[id];
    var k := if r.overlapOffset < self.overlapOffset then self.overlapOffset else r.overlapOffset;
    assert r.issue.bytes > 0 && self.issue.bytes > 0 ==>
      InRange(r.issue, k) && InRange(self.issue, k);
  }

  /** What the driver is given to write lies in the window by which others wait for the request. */
  lemma WriteInWindow(s: State, steps: seq<Step>, t: State, id: Id)
    requires Inited(s) && RunFrom(s, steps, t) && id in t.reqs && t.reqs[id].pc.WriteIo?
    ensures var r := t.reqs[id];
      var base := if HeadUnaligned(r.issue) then r.issue.lo else r.issue.offset;
      && BuffersRead(r, t.align) && r.overlapOffset <= base
      && base + |Padded(r, t.align)| <= r.overlapOffset + r.overlapBytes
  {
    hide RunFrom, Inv, Linear, Inited, Outcomes, Padded, Replay;
    InitInv(s);
    RunKeeps(s, steps, t, s.image);
    InvAt(t, id);
    PaddedIsSandwich(t.image, t.align, t.reqs[id]);
  }

  lemma SomeStep(t: State) returns (step: Step)
    requires Inv(t) && t.tracked != []
    ensures !step.BeginRead? && !step.BeginWrite? && Guard(t, step)
  {
    var i := t.tracked[0];
    assert SchedOk(t, i);
    if t.running.Some? {
      step := Run;
    } else if t.reqs[i].inIo {
      step := IoDone(i, true);
    } else if t.reqs[i].woken {
      step := Resume(i);
    } else {
      assert SchedOk(t, t.reqs[i].waitingFor.value);
      step := IoDone(t.reqs[i].waitingFor.value, true);
    }
  }

  /** A request that has come through one wait comes through every later one at once: the
      two assertions on `waited` are about a case that does not arise. */
  lemma AdmittedNeverBlocks(s: State, steps: seq<Step>, t: State)
    requires Inited(s) && RunFrom(s, steps, t)
    requires t.running.Some? && t.running.value in t.reqs && Admitted(t.reqs[t.running.value])
    requires IsWait(t.reqs[t.running.value].pc)
    ensures Guard(t, Run) && Ready(t, Run) && Apply(t, Run).running == t.running
  {
    InitInv(s);
    RunKeeps(s, steps, t, s.image);
    InvReady(t, Run);
    BlockerAdmitted(t);
  }
}
