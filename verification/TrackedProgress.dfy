/** Requests that are outstanding end: a run that starts no new one is of bounded length. */
module TrackedProgress {
  import opened Lists
  import opened TrackedHistory
  import opened TrackedProtocol
  import opened TrackedRequests
  import opened TrackedTheorems

  /** How many pieces of its text a coroutine has before it, at most. */
  function Rank(pc: Pc): nat {
    match pc
    case HeadMark => 10
    case HeadWait => 9
    case HeadReadWait => 8
    case HeadIo => 7
    case TailMark => 6
    case TailWait => 5
    case TailReadWait => 4
    case TailIo => 3
    case WriteWait => 2
    case WriteIo => 1
    case ReadWait => 2
    case ReadIo => 1
    case End => 0
  }

  /** A coroutine that was woken may run and go to sleep again before it gets any further. */
  function Weight(r: Request): nat {
    3 * Rank(r.pc) + if r.woken then 2 else if r.waitingFor.Some? || r.inIo then 0 else 1
  }

  function Sum(ids: seq<Id>, reqs: map<Id, Request>): nat
    requires forall i :: i in ids ==> i in reqs
  {
    if ids == [] then 0 else Weight(reqs[ids[0]]) + Sum(ids[1..], reqs)
  }

  /** Each request that ends can wake all the others. */
  function Wakeups(n: nat): nat {
    if n == 0 then 0 else 2 * n + Wakeups(n - 1)
  }

  lemma {:induction false} WakeupsAre(n: nat)
    ensures Wakeups(n) == n * (n + 1)
  {
    if n > 0 { WakeupsAre(n - 1); }
  }

  function Measure(s: State): nat
    requires forall i :: i in s.tracked ==> i in s.reqs
  {
    Sum(s.tracked, s.reqs) + Wakeups(|s.tracked|)
  }

  lemma {:induction false} SumBound(ids: seq<Id>, reqs: map<Id, Request>)
    requires forall i :: i in ids ==> i in reqs
    ensures Sum(ids, reqs) <= 32 * |ids|
  {
    if ids != [] { SumBound(ids[1..], reqs); }
  }

  lemma {:induction false} SumSame(ids: seq<Id>, reqs: map<Id, Request>, reqs': map<Id, Request>)
    requires forall i :: i in ids ==> i in reqs && i in reqs' && reqs'[i] == reqs[i]
    ensures Sum(ids, reqs') == Sum(ids, reqs)
  {
    if ids != [] { SumSame(ids[1..], reqs, reqs'); }
  }

  lemma {:induction false} SumChange(ids: seq<Id>, reqs: map<Id, Request>, id: Id, r: Request)
    requires Distinct(ids) && id in ids && forall i :: i in ids ==> i in reqs
    ensures Sum(ids, reqs[id := r]) == Sum(ids, reqs) - Weight(reqs[id]) + Weight(r)
  {
    if ids[0] == id {
      assert forall i :: i in ids[1..] ==> i != id;
      SumSame(ids[1..], reqs, reqs[id := r]);
    } else {
      SumChange(ids[1..], reqs, id, r);
    }
  }

  lemma {:induction false} SumWoken(ids: seq<Id>, reqs: map<Id, Request>, reqs': map<Id, Request>, id: Id)
    requires forall i :: i in ids ==> i in reqs && i in reqs' && reqs'[i] == Woken(reqs[i], id)
    ensures Sum(ids, reqs') <= Sum(ids, reqs) + 2 * |ids|
  {
    if ids != [] { SumWoken(ids[1..], reqs, reqs', id); }
  }

  lemma {:induction false} SumWithout(ids: seq<Id>, reqs: map<Id, Request>, id: Id)
    requires Distinct(ids) && id in ids && forall i :: i in ids ==> i in reqs
    ensures |Without(ids, id)| == |ids| - 1
    ensures Sum(Without(ids, id), reqs) == Sum(ids, reqs) - Weight(reqs[id])
  {
    if ids[0] == id {
      WithoutAbsent(ids[1..], id);
    } else {
      SumWithout(ids[1..], reqs, id);
      var rest := Without(ids[1..], id);
      assert Without(ids, id) == [ids[0]] + rest && ([ids[0]] + rest)[1..] == rest;
    }
  }

  lemma AfterRank(pc: Pc, q: Issue)
    requires !pc.End?
    ensures Rank(After(pc, q)) < Rank(pc)
  {}

  /** A step of one request that makes it lighter. */
  lemma Lighter(s: State, t: State, id: Id)
    requires Shape(s) && id in s.reqs && t.tracked == s.tracked && id in t.reqs && t.reqs == s.reqs[id := t.reqs[id]]
    requires Weight(t.reqs[id]) < Weight(s.reqs[id])
    ensures Measure(t) < Measure(s)
  {
    SumChange(s.tracked, s.reqs, id, t.reqs[id]);
  }

  lemma EndMeasure(s: State, t: State, id: Id)
    requires Shape(s) && Removed(s, t, id) && Weight(s.reqs[id]) > 0 && forall i :: i in t.tracked ==> i in t.reqs
    ensures Measure(t) < Measure(s)
  {
    hide Sum, Weight, Without, WakeAll, Woken, Serialising;
    SumWithout(s.tracked, s.reqs, id);
    SumWoken(t.tracked, s.reqs, t.reqs, id);
  }

  lemma RunLightens(s: State, t: State, id: Id)
    requires id in s.reqs && (forall i :: i in s.tracked ==> i in s.reqs) && t == ApplyRun(s, id) && !s.reqs[id].pc.End?
    requires s.reqs[id].waitingFor.None? && !s.reqs[id].woken && !s.reqs[id].inIo
    ensures t.tracked == s.tracked && id in t.reqs && t.reqs == s.reqs[id := t.reqs[id]]
    ensures Weight(t.reqs[id]) < Weight(s.reqs[id])
  {
    hide FirstBlocker, NoneBefore, WakeAll, Without, WaitAsserts, Rank, After;
    AfterRank(s.reqs[id].pc, s.reqs[id].issue);
  }

  lemma RunMeasure(s: State, t: State)
    requires Inv(s) && s.running.Some? && Ready(s, Run) && t == Apply(s, Run)
    requires forall i :: i in t.tracked ==> i in t.reqs
    ensures Measure(t) < Measure(s)
  {
    hide HistoryOk, ReqsOk, Exclusion, AllRounded, Serialising, Distinct, Measure, Sum, Removed, ApplyRun, Weight;
    var id := s.running.value;
    assert SchedOk(s, id);
    if s.reqs[id].pc.End? {
      EndRemoves(s, t, id);
      EndWeighs(s.reqs[id]);
      EndMeasure(s, t, id);
    } else {
      RunLightens(s, t, id);
      Lighter(s, t, id);
    }
  }

  lemma EndWeighs(r: Request)
    requires r.pc.End? && r.waitingFor.None? && !r.inIo
    ensures Weight(r) > 0
  {}

  lemma IoMeasure(s: State, t: State, id: Id, ok: bool)
    requires Inv(s) && Guard(s, IoDone(id, ok)) && Ready(s, IoDone(id, ok)) && t == Apply(s, IoDone(id, ok))
    requires forall i :: i in t.tracked ==> i in t.reqs
    ensures Measure(t) < Measure(s)
  {
    hide HistoryOk, WindowOk, BuffersOk, Exclusion, AllRounded, Distinct, Serialising, Measure, Sum, Admitted, Apply;
    hide IoReady;
    assert SchedOk(s, id) && ReqOk(s.reqs[id], s.image, s.align);
    AfterRank(s.reqs[id].pc, s.reqs[id].issue);
    assert Rank(End) == 0;
    if !ok {
      IoFails(s, t, id);
    } else if s.reqs[id].pc.WriteIo? {
      IoWrites(s, t, id);
    } else {
      IoReads(s, t, id);
      IoReadResult(s, t, id);
    }
    IoLighter(s, t, id);
  }

  lemma IoLighter(s: State, t: State, id: Id)
    requires Shape(s) && IoReturned(s, t, id) && s.reqs[id].inIo && !s.reqs[id].woken && s.reqs[id].waitingFor.None?
    requires !t.reqs[id].woken && Rank(t.reqs[id].pc) < Rank(s.reqs[id].pc)
    ensures Measure(t) < Measure(s)
  {
    Lighter(s, t, id);
  }

  ghost predicate NoBegin(step: Step) { !step.BeginRead? && !step.BeginWrite? }

  /** Every step but a new request brings the end nearer. */
  lemma StepDecreases(s: State, step: Step)
    requires Inv(s) && Guard(s, step) && Ready(s, step) && NoBegin(step)
    ensures Inv(Apply(s, step)) && Measure(Apply(s, step)) < Measure(s)
  {
    hide Measure, Inv, SchedOk, Apply;
    StepKeepsInv(s, step);
    var t := Apply(s, step);
    TrackedThere(s);
    TrackedThere(t);
    match step
    case Run => RunMeasure(s, t);
    case IoDone(id, ok) => IoMeasure(s, t, id, ok);
    case Resume(id) => ResumeMeasure(s, t, id);
  }

  lemma TrackedThere(s: State)
    requires Inv(s)
    ensures forall i :: i in s.tracked ==> i in s.reqs
  {}

  lemma ResumeMeasure(s: State, t: State, id: Id)
    requires Inv(s) && Guard(s, Resume(id)) && Ready(s, Resume(id)) && t == Apply(s, Resume(id))
    requires forall i :: i in t.tracked ==> i in t.reqs
    ensures Measure(t) < Measure(s)
  {
    assert SchedOk(s, id);
    Lighter(s, t, id);
  }

  lemma {:induction false} RunBounded(s: State, steps: seq<Step>, t: State)
    requires Inv(s) && RunFrom(s, steps, t) && forall i :: 0 <= i < |steps| ==> NoBegin(steps[i])
    ensures Inv(t) && |steps| + Measure(t) <= Measure(s)
    decreases |steps|
  {
    hide Inv, Measure, Apply;
    TrackedThere(s);
    if steps != [] {
      StepDecreases(s, steps[0]);
      RunBounded(Apply(s, steps[0]), steps[1..], t);
    }
    TrackedThere(t);
  }

  lemma MeasureBound(s: State)
    requires forall i :: i in s.tracked ==> i in s.reqs
    ensures Measure(s) <= |s.tracked| * (|s.tracked| + 33)
  {
    var n := |s.tracked|;
    SumBound(s.tracked, s.reqs);
    WakeupsAre(n);
    assert n * (n + 33) == n * (n + 1) + 32 * n;
  }

  lemma InitLinear(s: State)
    requires Inited(s)
    ensures Linear(s, s.image)
  {}

  /** From any state a run can reach, with n requests outstanding, every way to go on without
      new ones is over after n * (n + 33) steps at most; and when it can go no further, every
      request has ended. */
  lemma AllEnd(s: State, steps: seq<Step>, t: State, more: seq<Step>, u: State)
    requires Inited(s) && RunFrom(s, steps, t) && RunFrom(t, more, u)
    requires forall i :: 0 <= i < |more| ==> NoBegin(more[i])
    ensures |more| <= |t.tracked| * (|t.tracked| + 33)
    ensures (forall step: Step :: NoBegin(step) ==> !Guard(u, step)) ==> u.tracked == []
  {
    hide Inv, Measure, RunFrom, Linear, Inited, Guard;
    InitInv(s);
    InitLinear(s);
    RunKeeps(s, steps, t, s.image);
    RunBounded(t, more, u);
    TrackedThere(t);
    MeasureBound(t);
    if u.tracked != [] {
      var step := SomeStep(u);
      assert NoBegin(step) && Guard(u, step);
    }
  }
}
