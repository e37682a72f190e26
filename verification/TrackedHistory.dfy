/** What a run leaves on record: each caller's request as it was asked for, which requests
    failed, and which reads returned. */
module TrackedHistory {
  import Image
  import opened Lists
  import opened TrackedRequests
  import opened TrackedProtocol

  /** A run of the protocol: every step's guard holds where the step is taken. */
  ghost predicate RunFrom(s: State, steps: seq<Step>, t: State)
    decreases |steps|
  {
    if steps == [] then s == t
    else Guard(s, steps[0]) && Ready(s, steps[0]) && RunFrom(Apply(s, steps[0]), steps[1..], t)
  }

  predicate Begins(step: Step) { step.BeginRead? || step.BeginWrite? }

  /** The request on record is the one the caller asked for, a read rounded out to the alignment. */
  predicate AsAsked(step: Step, q: Issue, align: nat) {
    match step
    case BeginWrite(_, offset, data) => q.kind.Write? && q.offset == offset && q.bytes == |data| && q.data == data
    case BeginRead(_, offset, bytes) =>
      && q.kind.Read? && align > 0 && q.offset == offset - offset % align
      && offset + bytes <= q.offset + q.bytes < offset + bytes + align
    case _ => true
  }

  /** `issued'` is `issued` with the requests of the run added, each as it was asked for. */
  ghost predicate Recorded(issued: map<Id, Issue>, steps: seq<Step>, issued': map<Id, Issue>, align: nat) {
    && (forall i :: i in issued ==> i in issued' && issued'[i] == issued[i])
    && (forall i :: i in issued' && i !in issued ==> exists step :: step in steps && Begins(step) && step.id == i)
    && (forall step :: step in steps && Begins(step) ==>
          step.id !in issued && step.id in issued' && AsAsked(step, issued'[step.id], align))
  }

  lemma ReadAsAsked(id: Id, offset: nat, bytes: nat, align: nat)
    requires align > 0
    ensures AsAsked(BeginRead(id, offset, bytes), NewRead(offset, bytes, align), align)
  {}

  lemma StepRecords(s: State, step: Step)
    requires Guard(s, step) && Ready(s, step)
    ensures Apply(s, step).align == s.align
    ensures Recorded(s.issued, [step], Apply(s, step).issued, s.align)
  {
    hide AsAsked, NewRead, NewWrite, ApplyRun, ApplyIo;
    if step.Run? { RunKeepsRecord(s, s.running.value); }
    if step.BeginRead? { ReadAsAsked(step.id, step.offset, step.bytes, s.align); }
    if step.BeginWrite? { WriteAsAsked(step.id, step.offset, step.data, s.align); }
    if step.IoDone? { IoKeepsIssued(s, step.id, step.ok); }
    assert step in [step];
  }

  lemma WriteAsAsked(id: Id, offset: nat, data: Image.Bytes, align: nat)
    requires align > 0
    ensures AsAsked(BeginWrite(id, offset, data), NewWrite(offset, data, align), align)
  {}

  lemma IoKeepsIssued(s: State, id: Id, ok: bool)
    requires id in s.reqs && IoReady(s, id)
    ensures ApplyIo(s, id, ok).issued == s.issued && ApplyIo(s, id, ok).align == s.align
  {}

  lemma RecordedOn(a: map<Id, Issue>, step: Step, b: map<Id, Issue>, steps: seq<Step>, c: map<Id, Issue>, align: nat)
    requires Recorded(a, [step], b, align) && Recorded(b, steps, c, align)
    ensures Recorded(a, [step] + steps, c, align)
  {
    hide AsAsked;
    var all := [step] + steps;
    assert forall x :: x in all <==> x == step || x in steps;
    assert step in [step];
    forall i | i in c && i !in a ensures exists x :: x in all && Begins(x) && x.id == i {
      if i in b {
        var x :| x in [step] && Begins(x) && x.id == i;
        assert x in all;
      } else {
        var x :| x in steps && Begins(x) && x.id == i;
        assert x in all;
      }
    }
  }

  lemma {:induction false} RunRecords(s: State, steps: seq<Step>, t: State)
    requires RunFrom(s, steps, t)
    ensures t.align == s.align && Recorded(s.issued, steps, t.issued, s.align)
    decreases |steps|
  {
    hide Apply, Guard, Ready, AsAsked;
    if steps != [] {
      hide Recorded;
      var u := Apply(s, steps[0]);
      StepRecords(s, steps[0]);
      RunRecords(u, steps[1..], t);
      RecordedOn(s.issued, steps[0], u.issued, steps[1..], t.issued, s.align);
      assert steps == [steps[0]] + steps[1..];
    }
  }

  // ----- outcomes -----

  /** The requests a driver call of theirs failed. */
  ghost function Failures(steps: seq<Step>): set<Id> {
    set step | step in steps && step.IoDone? && !step.ok :: step.id
  }

  lemma FailuresCons(step: Step, steps: seq<Step>)
    ensures Failures([step] + steps) == (if step.IoDone? && !step.ok then {step.id} else {}) + Failures(steps)
  {
    assert forall x :: x in [step] + steps <==> x == step || x in steps;
  }

  lemma FailuresAre(steps: seq<Step>, i: Id)
    ensures i in Failures(steps) <==> IoDone(i, false) in steps
  {
    if i in Failures(steps) {
      var step :| step in steps && step.IoDone? && !step.ok && step.id == i;
      assert step == IoDone(i, false);
    }
  }

  ghost predicate Over(s: State, i: Id) { i !in s.reqs || s.reqs[i].pc.End? }

  /** A request that is over has failed, or has taken effect: exactly one of the two. */
  ghost predicate Outcomes(s: State, bad: set<Id>) {
    && (forall i :: i in s.failed <==> i in bad && i in s.issued && s.issued[i].kind.Write?)
    && (forall i :: i in bad ==> i in s.issued && Over(s, i))
    && (forall i :: i in s.results ==> i in s.issued && s.issued[i].kind.Read? && i !in bad && Over(s, i))
    && (forall i :: i in s.issued && s.issued[i].kind.Read? && Over(s, i) ==> i in s.results || i in bad)
  }

  /** A step after which the same requests are over as before. */
  lemma SameOutcomes(s: State, t: State, bad: set<Id>)
    requires Outcomes(s, bad) && t.failed == s.failed && t.results == s.results
    requires forall i :: i in s.issued ==> i in t.issued && t.issued[i] == s.issued[i] && (Over(t, i) <==> Over(s, i))
    requires forall i :: i in t.issued && i !in s.issued ==> !Over(t, i)
    ensures Outcomes(t, bad)
  {
    hide Over;
  }

  lemma OverUpdate(s: State, t: State, id: Id)
    requires id in s.reqs && id in t.reqs && t.reqs == s.reqs[id := t.reqs[id]]
    ensures forall i :: i != id ==> (Over(t, i) <==> Over(s, i))
    ensures Over(t, id) <==> t.reqs[id].pc.End?
  {}

  lemma RunKeepsRecord(s: State, id: Id)
    requires id in s.reqs && forall i :: i in s.tracked ==> i in s.reqs
    ensures var t := ApplyRun(s, id);
      t.failed == s.failed && t.results == s.results && t.issued == s.issued && t.align == s.align
  {
    hide FirstBlocker, NoneBefore, WaitAsserts, Without, WakeAll;
  }

  lemma RunOver(s: State, id: Id)
    requires id in s.reqs && forall i :: i in s.tracked ==> i in s.reqs
    ensures forall i :: Over(ApplyRun(s, id), i) <==> Over(s, i)
  {
    hide FirstBlocker, NoneBefore, WaitAsserts, Over, Without, WakeAll;
    var t := ApplyRun(s, id);
    if s.reqs[id].pc.End? {
      EndOver(s, t, id);
    } else {
      OverUpdate(s, t, id);
      assert !Over(s, id) by { OverUpdate(s, s, id); }
    }
  }

  lemma EndOver(s: State, t: State, id: Id)
    requires id in s.reqs && s.reqs[id].pc.End? && t.reqs == WakeAll(s.reqs - {id}, id)
    ensures forall i :: Over(t, i) <==> Over(s, i)
  {}

  lemma BeginOver(s: State, id: Id, q: Issue)
    requires id !in s.issued
    ensures var t := ApplyBegin(s, id, q);
      && t.failed == s.failed && t.results == s.results
      && (forall i :: i in s.issued ==> i in t.issued && t.issued[i] == s.issued[i] && (Over(t, i) <==> Over(s, i)))
      && (forall i :: i in t.issued && i !in s.issued ==> !Over(t, i))
  {}

  /** What a driver call that returns does to the record. */
  ghost predicate IoRecord(s: State, t: State, id: Id, ok: bool)
    requires id in s.reqs
  {
    var r := s.reqs[id];
    && t.issued == s.issued
    && (forall i :: i != id ==> (Over(t, i) <==> Over(s, i)))
    && (Over(t, id) <==> !ok || r.pc.WriteIo? || r.pc.ReadIo?)
    && t.failed == (if !ok && r.issue.kind.Write? then s.failed + {id} else s.failed)
    && t.results.Keys == (if ok && r.pc.ReadIo? then s.results.Keys + {id} else s.results.Keys)
  }

  lemma IoRecords(s: State, id: Id, ok: bool)
    requires id in s.reqs && IoReady(s, id) && IsIo(s.reqs[id].pc)
    ensures IoRecord(s, ApplyIo(s, id, ok), id, ok)
  {
    hide Padded, Image.View, Image.WriteAt, BuffersRead, Over;
    var t := ApplyIo(s, id, ok);
    OverUpdate(s, t, id);
    assert t.issued == s.issued;
    assert t.failed == if !ok && s.reqs[id].issue.kind.Write? then s.failed + {id} else s.failed;
    assert t.results.Keys == if ok && s.reqs[id].pc.ReadIo? then s.results.Keys + {id} else s.results.Keys;
    assert t.reqs[id].pc.End? <==> !ok || s.reqs[id].pc.WriteIo? || s.reqs[id].pc.ReadIo?;
    hide ApplyIo;
  }

  lemma IoOutcomes(s: State, t: State, id: Id, ok: bool, bad: set<Id>)
    requires Outcomes(s, bad) && id in s.reqs && !Over(s, id) && IoRecord(s, t, id, ok)
    requires id in s.issued && s.issued[id] == s.reqs[id].issue && PcOk(s.reqs[id]) && IsIo(s.reqs[id].pc)
    ensures Outcomes(t, bad + if ok then {} else {id})
  {
    var read := s.reqs[id].issue.kind.Read?;
    assert s.reqs[id].pc.ReadIo? <==> read;
    hide PcOk, Over;
  }

  lemma IoInv(s: State, id: Id, ok: bool)
    requires Inv(s) && Guard(s, IoDone(id, ok))
    ensures id in s.issued && s.issued[id] == s.reqs[id].issue && PcOk(s.reqs[id]) && IsIo(s.reqs[id].pc)
  {
    InvAt(s, id);
  }

  lemma StepOutcomes(s: State, step: Step, bad: set<Id>)
    requires Inv(s) && Outcomes(s, bad) && Guard(s, step) && Ready(s, step)
    ensures Outcomes(Apply(s, step), bad + if step.IoDone? && !step.ok then {step.id} else {})
  {
    hide Inv, Outcomes, ApplyBegin, ApplyRun, ApplyIo, NewRead, NewWrite;
    assert bad + {} == bad;
    match step
    case BeginRead(id, offset, bytes) =>
      BeginOver(s, id, NewRead(offset, bytes, s.align));
      SameOutcomes(s, Apply(s, step), bad);
    case BeginWrite(id, offset, data) =>
      BeginOver(s, id, NewWrite(offset, data, s.align));
      SameOutcomes(s, Apply(s, step), bad);
    case Run =>
      RunKeepsRecord(s, s.running.value);
      RunOver(s, s.running.value);
      SameOutcomes(s, Apply(s, step), bad);
    case IoDone(id, ok) =>
      IoInv(s, id, ok);
      IoRecords(s, id, ok);
      IoOutcomes(s, Apply(s, step), id, ok, bad);
    case Resume(id) => SameOutcomes(s, Apply(s, step), bad);
  }

  lemma {:induction false} RunOutcomes(s: State, steps: seq<Step>, t: State, bad: set<Id>)
    requires Inv(s) && Outcomes(s, bad) && RunFrom(s, steps, t)
    ensures Outcomes(t, bad + Failures(steps))
    decreases |steps|
  {
    hide Inv, Outcomes, Apply, Guard, Ready;
    if steps == [] {
      assert bad + Failures(steps) == bad;
    } else {
      var u := Apply(s, steps[0]);
      var bad' := bad + if steps[0].IoDone? && !steps[0].ok then {steps[0].id} else {};
      StepKeepsInv(s, steps[0]);
      StepOutcomes(s, steps[0], bad);
      RunOutcomes(u, steps[1..], t, bad');
      FailuresCons(steps[0], steps[1..]);
      assert steps == [steps[0]] + steps[1..];
      assert bad' + Failures(steps[1..]) == bad + Failures(steps);
    }
  }
}
