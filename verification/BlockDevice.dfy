/** The fields block.c updates in place, and the code that updates them, proved to take
    exactly the steps of TrackedRequests, and so to be subject to every theorem about its runs. */
module BlockDevice {
  import opened Arith
  import opened Image
  import opened Lists
  import opened Wrappers
  import opened TrackedHistory
  import opened TrackedProtocol
  import opened TrackedRequests
  import opened TrackedTheorems

  class BlockDriverState {
    var align: nat
    var image: Bytes
    var tracked: seq<Id>             // tracked_requests, most recent first
    var reqs: map<Id, Request>
    var serialisingInFlight: int
    var running: Option<Id>          // the coroutine that holds the thread
    ghost var assertsHold: bool
    ghost var issued: map<Id, Issue>
    ghost var applied: seq<Id>
    ghost var failed: set<Id>
    ghost var results: map<Id, (nat, Bytes)>

    ghost function Abs(): State
      reads this
    {
      State(align, image, tracked, reqs, serialisingInFlight, running, assertsHold, issued, applied, failed, results)
    }

    constructor (align: nat, image: Bytes)
      requires align >= SECTOR && align % SECTOR == 0 && |image| % SECTOR == 0
      ensures Inited(Abs()) && this.align == align && this.image == image
    {
      this.align, this.image := align, image;
      tracked, reqs, serialisingInFlight := [], map[], 0;
      running, assertsHold := None, true;
      issued, applied, failed, results := map[], [], {}, map[];
    }

    method BeginRead(id: Id, offset: nat, bytes: nat)
      requires Guard(Abs(), TrackedRequests.BeginRead(id, offset, bytes))
      requires Ready(Abs(), TrackedRequests.BeginRead(id, offset, bytes))
      modifies this
      ensures Abs() == Apply(old(Abs()), TrackedRequests.BeginRead(id, offset, bytes))
    {
      TrackedRequestBegin(id, NewRead(offset, bytes, align));
    }

    method BeginWrite(id: Id, offset: nat, data: Bytes)
      requires Guard(Abs(), TrackedRequests.BeginWrite(id, offset, data))
      requires Ready(Abs(), TrackedRequests.BeginWrite(id, offset, data))
      modifies this
      ensures Abs() == Apply(old(Abs()), TrackedRequests.BeginWrite(id, offset, data))
    {
      TrackedRequestBegin(id, NewWrite(offset, data, align));
    }

    method TrackedRequestBegin(id: Id, q: Issue)
      modifies this
      ensures Abs() == ApplyBegin(old(Abs()), id, q)
    {
      reqs := reqs[id := Request(q, false, q.offset, q.bytes, First(q), None, false, false, false, [], [])];
      tracked := [id] + tracked;
      running, issued := Some(id), issued[id := q];
    }

    /** mark_request_serialising. */
    method MarkRequestSerialising(id: Id)
      requires align > 0 && id in reqs
      requires reqs[id].issue.lo == AlignDown(reqs[id].issue.offset, align)
      requires reqs[id].issue.hi == AlignUp(reqs[id].issue.offset + reqs[id].issue.bytes, align)
      modifies this
      ensures Abs() == old(Abs()).(
                reqs := old(reqs)[id := MarkSerialising(old(reqs)[id])],
                serialisingInFlight := old(serialisingInFlight) + if old(reqs)[id].serialising then 0 else 1)
    {
      var r := reqs[id];
      var overlapOffset := AlignDown(r.issue.offset, align);
      var overlapBytes := AlignUp(r.issue.offset + r.issue.bytes, align) - overlapOffset;
      if !r.serialising {
        serialisingInFlight := serialisingInFlight + 1;
        r := r.(serialising := true);
      }
      reqs := reqs[id := r.(overlapOffset := Min(r.overlapOffset, overlapOffset),
                            overlapBytes := Max(r.overlapBytes, overlapBytes))];
    }

    /** One pass of the loop in wait_serialising_requests: the request to sleep on, if any. */
    method FindBlocker(self: Id) returns (b: Option<Id>)
      requires self in reqs && forall i :: i in tracked ==> i in reqs
      ensures b == if serialisingInFlight == 0 then None else FirstBlocker(tracked, reqs, self)
    {
      if serialisingInFlight == 0 {
        return None;
      }
      var i := 0;
      while i < |tracked|
        invariant 0 <= i <= |tracked|
        invariant FirstBlocker(tracked, reqs, self) == FirstBlocker(tracked[i..], reqs, self)
      {
        var r := reqs[tracked[i]];
        if !(tracked[i] == self || (!r.serialising && !reqs[self].serialising)) {
          if Overlaps(r, reqs[self].overlapOffset, reqs[self].overlapBytes) {
            if r.waitingFor.None? {
              return Some(tracked[i]);
            }
          }
        }
        assert tracked[i..][1..] == tracked[i + 1..];
        i := i + 1;
      }
      b := None;
    }

    /** qemu_co_queue_restart_all: every request asleep on `id` is put on the wake-up list. */
    static method RestartAll(tracked: seq<Id>, reqs: map<Id, Request>, id: Id) returns (m: map<Id, Request>)
      requires forall i :: i in tracked <==> i in reqs
      ensures m == WakeAll(reqs, id)
    {
      m := reqs;
      var i := 0;
      while i < |tracked|
        invariant 0 <= i <= |tracked| && m.Keys == reqs.Keys
        invariant forall k :: 0 <= k < i ==> m[tracked[k]] == Woken(reqs[tracked[k]], id)
        invariant forall j :: j in reqs ==> m[j] == reqs[j] || m[j] == Woken(reqs[j], id)
      {
        m := m[tracked[i] := Woken(m[tracked[i]], id)];
        i := i + 1;
      }
      forall j | j in m ensures m[j] == WakeAll(reqs, id)[j] {
        assert j in tracked;
      }
    }

    /** Out of the list, and everyone who waited for it woken. */
    static method Unlink(tracked: seq<Id>, reqs: map<Id, Request>, id: Id)
      returns (left: seq<Id>, woken: map<Id, Request>)
      requires forall i :: i in tracked <==> i in reqs
      ensures left == Without(tracked, id) && woken == WakeAll(reqs - {id}, id)
    {
      hide Without, WakeAll;
      left := Without(tracked, id);
      woken := RestartAll(left, reqs - {id}, id);
    }

    /** tracked_request_end. */
    method TrackedRequestEnd(id: Id)
      requires id in reqs && (forall i :: i in tracked <==> i in reqs)
      modifies this
      ensures Abs() == old(Abs()).(
                tracked := Without(old(tracked), id), reqs := WakeAll(old(reqs) - {id}, id), running := None,
                serialisingInFlight := old(serialisingInFlight) - if old(reqs)[id].serialising then 1 else 0)
    {
      hide Without, WakeAll;
      if reqs[id].serialising {
        serialisingInFlight := serialisingInFlight - 1;
      }
      tracked, reqs := Unlink(tracked, reqs, id);
      running := None;
    }

    /** The running coroutine goes on to its next yield point. */
    method RunCoroutine(id: Id)
      requires align > 0 && id in reqs && (forall i :: i in tracked <==> i in reqs)
      requires reqs[id].issue.lo == AlignDown(reqs[id].issue.offset, align)
      requires reqs[id].issue.hi == AlignUp(reqs[id].issue.offset + reqs[id].issue.bytes, align)
      modifies this
      ensures Abs() == ApplyRun(old(Abs()), id)
    {
      var r := reqs[id];
      if IsMark(r.pc) {
        MarkRequestSerialising(id);
        reqs := reqs[id := reqs[id].(pc := After(r.pc, r.issue))];
      } else if IsIo(r.pc) {
        reqs := reqs[id := r.(inIo := true)];
        running := None;
      } else if r.pc.End? {
        TrackedRequestEnd(id);
      } else {
        var b := FindBlocker(id);
        if b.Some? {
          reqs := reqs[id := r.(waitingFor := b, woken := false, waited := true)];
          running := None;
        } else {
          reqs := reqs[id := r.(pc := After(r.pc, r.issue), waited := false)];
          assertsHold := assertsHold && WaitAsserts(r);
        }
      }
    }

    /** What an aligned read leaves in the buffers. */
    method ReadInto(offset: nat, bytes: nat, held: Iovec) returns (buf: Bytes)
      requires align >= SECTOR && align % SECTOR == 0 && |image| % SECTOR == 0
      requires offset % SECTOR == 0 && bytes % SECTOR == 0 && |Flat(held)| == bytes
      ensures buf == View(image, offset, bytes)
    {
      var v, _ := AlignedPreadv(image, offset, bytes, align, held);
      buf := Flat(v);
    }

    /** A driver call returns; `held` is what the buffers read into held before it. */
    method FinishIo(id: Id, ok: bool, held: Iovec)
      requires align >= SECTOR && align % SECTOR == 0 && id in reqs && IoReady(Abs(), id) && IsIo(reqs[id].pc)
      requires |Flat(held)| == if reqs[id].pc.ReadIo? then reqs[id].issue.bytes else align
      modifies this
      ensures Abs() == ApplyIo(old(Abs()), id, ok)
    {
      if ok && reqs[id].pc.WriteIo? {
        WriteDone(id);
      } else if ok {
        ReadDone(id, held);
      } else {
        var q := reqs[id].issue;
        reqs := reqs[id := reqs[id].(inIo := false, pc := End)];
        running := Some(id);
        failed := if q.kind.Write? then failed + {id} else failed;
      }
    }

    /** A driver write reaches the disk. */
    method WriteDone(id: Id)
      requires id in reqs && IoReady(Abs(), id) && reqs[id].pc.WriteIo?
      modifies this
      ensures Abs() == ApplyIo(old(Abs()), id, true)
    {
      hide WriteAt, Padded;
      var r := reqs[id].(inIo := false);
      var q := r.issue;
      running := Some(id);
      image := WriteAt(image, if HeadUnaligned(q) then q.lo else q.offset, Padded(r, align));
      reqs := reqs[id := r.(pc := After(r.pc, q))];
      applied := applied + [id];
    }

    method ReadDone(id: Id, held: Iovec)
      requires align >= SECTOR && align % SECTOR == 0 && id in reqs && IoReady(Abs(), id) && IsIo(reqs[id].pc)
      requires !reqs[id].pc.WriteIo?
      requires |Flat(held)| == if reqs[id].pc.ReadIo? then reqs[id].issue.bytes else align
      modifies this
      ensures Abs() == ApplyIo(old(Abs()), id, true)
    {
      hide View, WriteAt, Padded, At, Flat;
      var r := reqs[id].(inIo := false);
      var q := r.issue;
      running := Some(id);
      var r' := r.(pc := After(r.pc, q));
      match r.pc
      case HeadIo =>
        var buf := ReadInto(q.lo, align, held);
        reqs := reqs[id := r'.(head := buf)];
      case TailIo =>
        var buf := ReadInto(q.hi - align, align, held);
        reqs := reqs[id := r'.(tail := buf)];
      case ReadIo =>
        var buf := ReadInto(q.offset, q.bytes, held);
        reqs := reqs[id := r'];
        results := results[id := (|applied|, buf)];
    }

    /** A woken coroutine is entered again, inside qemu_co_queue_wait. */
    method Resume(id: Id)
      requires Guard(Abs(), TrackedRequests.Resume(id)) && Ready(Abs(), TrackedRequests.Resume(id))
      modifies this
      ensures Abs() == Apply(old(Abs()), TrackedRequests.Resume(id))
    {
      reqs := reqs[id := reqs[id].(waitingFor := None, woken := false)];
      running := Some(id);
    }

    /** One step, by the code above; `fill` is what buffers hold before they are read into. */
    method TakeStep(step: Step, fill: nat -> Byte)
      requires Inv(Abs()) && Guard(Abs(), step)
      modifies this
      ensures Ready(old(Abs()), step) && Abs() == Apply(old(Abs()), step) && Inv(Abs())
    {
      hide Inv, Apply, ApplyRun, ApplyIo, ApplyBegin;
      StepKeepsInv(Abs(), step);
      match step
      case BeginRead(id, offset, bytes) => BeginRead(id, offset, bytes);
      case BeginWrite(id, offset, data) => BeginWrite(id, offset, data);
      case Run =>
        RunReady(Abs());
        RunCoroutine(running.value);
        ApplyIs(old(Abs()), step);
      case IoDone(id, ok) =>
        IoReadyAt(Abs(), id, ok);
        var size := if reqs[id].pc.ReadIo? then reqs[id].issue.bytes else align;
        var held := [seq(size, k requires 0 <= k < size => fill(k))];
        assert Flat(held) == held[0];
        FinishIo(id, ok, held);
        ApplyIs(old(Abs()), step);
      case Resume(id) => Resume(id);
    }

    /** Any run the protocol has is one the code takes, step by step. */
    method Drive(steps: seq<Step>, fill: nat -> Byte)
      requires Inited(Abs()) && Enabled(Abs(), steps)
      modifies this
      ensures RunFrom(old(Abs()), steps, Abs()) && Inv(Abs())
      ensures Linear(Abs(), old(image)) && assertsHold
      ensures Recorded(map[], steps, issued, old(align))
      ensures forall step :: step in steps && Begins(step) ==> Answered(old(image), steps, Abs(), step)
    {
      hide Inv, Inited, Linear, Apply, Recorded, Answered;
      InitInv(Abs());
      assert steps[..0] == [] && steps[0..] == steps;
      for i := 0 to |steps|
        invariant Inv(Abs()) && RunFrom(old(Abs()), steps[..i], Abs()) && Enabled(Abs(), steps[i..])
      {
        ghost var s := Abs();
        assert steps[i..][0] == steps[i] && steps[i..][1..] == steps[i + 1..];
        assert steps[..i + 1] == steps[..i] + [steps[i]];
        TakeStep(steps[i], fill);
        RunOn(old(Abs()), steps[..i], s, steps[i]);
      }
      assert steps[..|steps|] == steps;
      Linearisable(old(Abs()), steps, Abs());
    }
  }

  /** Every step's guard holds where the step is taken. */
  ghost predicate Enabled(s: State, steps: seq<Step>)
    decreases |steps|
  {
    steps == [] || (Guard(s, steps[0]) && Ready(s, steps[0]) && Enabled(Apply(s, steps[0]), steps[1..]))
  }

  lemma {:induction false} RunOn(s: State, steps: seq<Step>, t: State, step: Step)
    requires RunFrom(s, steps, t) && Guard(t, step) && Ready(t, step)
    ensures RunFrom(s, steps + [step], Apply(t, step))
    decreases |steps|
  {
    hide Apply, Guard, Ready;
    var more := steps + [step];
    if steps == [] {
      assert more[1..] == [] && RunFrom(Apply(t, step), [], Apply(t, step));
    } else {
      RunOn(Apply(s, steps[0]), steps[1..], t, step);
      assert more[1..] == steps[1..] + [step] && more[0] == steps[0];
    }
  }

  lemma ApplyIs(s: State, step: Step)
    requires Guard(s, step) && Ready(s, step)
    ensures step.Run? ==> Apply(s, step) == ApplyRun(s, s.running.value)
    ensures step.IoDone? ==> Apply(s, step) == ApplyIo(s, step.id, step.ok)
  {}

  /** What the code asks of the coroutine it goes on with. */
  lemma RunReady(s: State)
    requires Inv(s) && s.running.Some?
    ensures s.align > 0 && s.running.value in s.reqs && (forall i :: i in s.tracked <==> i in s.reqs)
    ensures Rounded(s.reqs[s.running.value].issue, s.align)
  {}

  lemma IoReadyAt(s: State, id: Id, ok: bool)
    requires Inv(s) && Guard(s, IoDone(id, ok))
    ensures s.align >= SECTOR && s.align % SECTOR == 0 && IoReady(s, id) && IsIo(s.reqs[id].pc)
  {
    InvReady(s, IoDone(id, ok));
    assert SchedOk(s, id);
  }
}
