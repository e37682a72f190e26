/** The handshake between the thread that polls an AioContext and the threads that schedule its
    bottom halves (async.c, aio-posix.c). Every write of a field the threads share, and every read
    whose value matters later, is a step of its own, in any interleaving. */
module BottomHalves {
  // usedIdle: a call of qemu_bh_schedule_idle on it is under way, or has left it scheduled.
  datatype Bh = Bh(scheduled: bool, idle: bool, deleted: bool, usedIdle: bool)

  datatype Timeout = Never | Idle10ms

  // Where the polling thread is. Bottom halves are scanned from the end: aio_bh_new, which
  // inserts at the head of the list, is an append here. `left` is how many are not yet passed.
  datatype Poller =
    | Running                                       // callbacks, or outside aio_poll
    | Entering(blocking: bool)                      // has saved `dispatching`, about to write it
    | Armed                                         // has cleared it, about to load first_bh
    | Scanning(left: nat, stage: Stage, timeout: Timeout)
    | Blocked(timeout: Timeout)                     // in qemu_poll_ns
    | Returned                                      // back from it, before dispatching
    | Looking(b: nat)                               // aio_bh_poll has read `deleted`, about to exchange `scheduled`
    | Taken(b: nat)                                 // and has cleared `scheduled`

  datatype Stage = ReadDeleted | ReadScheduled | ReadIdle

  // Where a thread is in qemu_bh_schedule, qemu_bh_schedule_idle or qemu_bh_delete.
  datatype Thread =
    | Elsewhere
    | Exchange(b: nat)        // idle cleared, about to exchange `scheduled`
    | Notify(b: nat)          // was not scheduled before, about to read `dispatching`
    | Wake(b: nat)            // not dispatching, about to set the notifier
    | MarkIdle(b: nat)        // idle set, about to set `scheduled`
    | MarkDeleted(b: nat)     // `scheduled` cleared, about to set `deleted`

  // Thread 0 is the polling thread itself, when its callbacks schedule something. `was` holds
  // the saved values of `dispatching` of the nested aio_poll calls.
  datatype State = State(bhs: seq<Bh>, dispatching: bool, notifier: bool, poller: Poller, was: seq<bool>,
                         threads: seq<Thread>)

  datatype Step =
    | New(t: nat)
    | Schedule(t: nat, b: nat) | DoExchange(t: nat) | ReadDispatching(t: nat) | SetNotifier(t: nat)
    | ScheduleIdle(t: nat, b: nat) | DoMarkIdle(t: nat)
    | Cancel(t: nat, b: nat)
    | Delete(t: nat, b: nat) | DoMarkDeleted(t: nat)
    | EnterPoll(blocking: bool) | SetDispatching | LoadFirst
    | Scan | ScanEnd(due: bool) | PollReturns | Dispatch | LeavePoll
    | Look(b: nat) | Take | ClearIdle | ClearNotifier

  /** The thread may run: thread 0 only while the poller is in a callback or outside aio_poll. */
  predicate CanRun(s: State, t: nat) {
    t < |s.threads| && (t == 0 ==> s.poller.Running?)
  }

  /** The poller may run: it is not inside a scheduling call of its own. */
  predicate PollerFree(s: State) {
    |s.threads| > 0 ==> s.threads[0].Elsewhere?
  }

  predicate Enabled(s: State, step: Step) {
    match step
    case New(t) => CanRun(s, t) && s.threads[t].Elsewhere?
    case Schedule(t, b) => CanRun(s, t) && s.threads[t].Elsewhere? && b < |s.bhs|
    case DoExchange(t) => CanRun(s, t) && s.threads[t].Exchange? && s.threads[t].b < |s.bhs|
    case ReadDispatching(t) => CanRun(s, t) && s.threads[t].Notify?
    case SetNotifier(t) => CanRun(s, t) && s.threads[t].Wake?
    case ScheduleIdle(t, b) => CanRun(s, t) && s.threads[t].Elsewhere? && b < |s.bhs|
    case DoMarkIdle(t) => CanRun(s, t) && s.threads[t].MarkIdle? && s.threads[t].b < |s.bhs|
    case Cancel(t, b) => CanRun(s, t) && s.threads[t].Elsewhere? && b < |s.bhs|
    case Delete(t, b) => CanRun(s, t) && s.threads[t].Elsewhere? && b < |s.bhs|
    case DoMarkDeleted(t) => CanRun(s, t) && s.threads[t].MarkDeleted? && s.threads[t].b < |s.bhs|
    case EnterPoll(_) => PollerFree(s) && s.poller.Running?
    case SetDispatching => s.poller.Entering?
    case LoadFirst => s.poller.Armed?
    case Scan => s.poller.Scanning? && 0 < s.poller.left <= |s.bhs|
    case ScanEnd(_) => s.poller.Scanning? && s.poller.left == 0
    case PollReturns => s.poller.Blocked?
    case Dispatch => s.poller.Returned?
    case LeavePoll => PollerFree(s) && s.poller.Running? && s.was != []
    case Look(b) => PollerFree(s) && s.poller.Running? && b < |s.bhs|
    case Take => s.poller.Looking? && s.poller.b < |s.bhs|
    case ClearIdle => s.poller.Taken? && s.poller.b < |s.bhs|
    case ClearNotifier => PollerFree(s) && s.poller.Running?
  }

  function SetBh(s: State, b: nat, bh: Bh): State
    requires b < |s.bhs|
  {
    s.(bhs := s.bhs[b := bh])
  }

  function SetThread(s: State, t: nat, th: Thread): State
    requires t < |s.threads|
  {
    s.(threads := s.threads[t := th])
  }

  /** What becomes of usedIdle when `idle` is cleared: it stays while a call is under way, and
      while the bottom half is scheduled, if the clearing leaves it so. */
  predicate StillIdle(s: State, b: nat, scheduled: bool)
    requires b < |s.bhs|
  {
    s.bhs[b].usedIdle && (scheduled || exists t :: 0 <= t < |s.threads| && s.threads[t] == MarkIdle(b))
  }

  /** One round of aio_compute_timeout's loop takes up to three reads. */
  function ScanStep(s: State): State
    requires Enabled(s, Scan)
  {
    var p := s.poller;
    var bh := s.bhs[p.left - 1];
    match p.stage
    case ReadDeleted => s.(poller := if bh.deleted then p.(left := p.left - 1) else p.(stage := ReadScheduled))
    case ReadScheduled => s.(poller := if bh.scheduled then p.(stage := ReadIdle)
        else Scanning(p.left - 1, ReadDeleted, p.timeout))
    case ReadIdle => s.(poller := if bh.idle then Scanning(p.left - 1, ReadDeleted, Idle10ms) else Returned)
  }

  function Apply(s: State, step: Step): State
    requires Enabled(s, step)
  {
    match step
    case New(t) => s.(bhs := s.bhs + [Bh(false, false, false, false)])
    case Schedule(t, b) => SetThread(SetBh(s, b,
        s.bhs[b].(idle := false, usedIdle := StillIdle(s, b, s.bhs[b].scheduled))), t, Exchange(b))
    case DoExchange(t) =>
      var b := s.threads[t].b;
      SetThread(SetBh(s, b, s.bhs[b].(scheduled := true)), t, if s.bhs[b].scheduled then Elsewhere else Notify(b))
    case ReadDispatching(t) => SetThread(s, t, if s.dispatching then Elsewhere else Wake(s.threads[t].b))
    case SetNotifier(t) => SetThread(s, t, Elsewhere).(notifier := true)
    case ScheduleIdle(t, b) => SetThread(SetBh(s, b, s.bhs[b].(idle := true, usedIdle := true)), t, MarkIdle(b))
    case DoMarkIdle(t) =>
      var b := s.threads[t].b;
      SetThread(SetBh(s, b, s.bhs[b].(scheduled := true)), t, Elsewhere)
    case Cancel(t, b) => SetBh(s, b, s.bhs[b].(scheduled := false))
    case Delete(t, b) => SetThread(SetBh(s, b, s.bhs[b].(scheduled := false)), t, MarkDeleted(b))
    case DoMarkDeleted(t) =>
      var b := s.threads[t].b;
      SetThread(SetBh(s, b, s.bhs[b].(deleted := true)), t, Elsewhere)
    case EnterPoll(blocking) => s.(was := s.was + [s.dispatching], poller := Entering(blocking))
    case SetDispatching => s.(dispatching := !s.poller.blocking, poller := if s.poller.blocking then Armed
        else Returned)
    case LoadFirst => s.(poller := Scanning(|s.bhs|, ReadDeleted, Never))
    case Scan => ScanStep(s)
    case ScanEnd(due) => s.(poller := if due then Returned else Blocked(s.poller.timeout))
    case PollReturns => s.(poller := Returned)
    case Dispatch => s.(dispatching := true, poller := Running)
    case LeavePoll => s.(dispatching := s.was[|s.was| - 1], was := s.was[..|s.was| - 1])
    case Look(b) => if s.bhs[b].deleted then s else s.(poller := Looking(b))
    case Take =>
      var b := s.poller.b;
      SetBh(s, b, s.bhs[b].(scheduled := false)).(poller := if s.bhs[b].scheduled then Taken(b) else Running)
    case ClearIdle =>
      var b := s.poller.b;
      SetBh(s, b, s.bhs[b].(idle := false, usedIdle := StillIdle(s, b, false))).(poller := Running)
    case ClearNotifier => s.(notifier := false)
  }

  predicate Unsafe(p: Poller) { p.Armed? || p.Scanning? || p.Blocked? }

  /** Some thread is between setting `scheduled` of b and notifying. */
  predicate Between(s: State, b: nat) {
    exists t :: 0 <= t < |s.threads| && (s.threads[t] == Notify(b) || s.threads[t] == Wake(b))
  }

  predicate Pending(bh: Bh) { bh.scheduled && !bh.deleted }

  /** A pending bottom half that the poller will find, or be woken for. */
  predicate Seen(s: State, b: nat) {
    s.notifier || Between(s, b) || s.poller.Armed? || (s.poller.Scanning? && b < s.poller.left)
  }

  ghost predicate Inv(s: State) {
    && (Unsafe(s.poller) ==> !s.dispatching) && (!s.poller.Running? ==> PollerFree(s))
    && (s.poller.Scanning? ==> s.poller.left <= |s.bhs|)
    && (forall b :: 0 <= b < |s.bhs| && !s.bhs[b].usedIdle ==> !s.bhs[b].idle)
    && (forall t :: 0 <= t < |s.threads| && s.threads[t].MarkIdle? ==>
      s.threads[t].b < |s.bhs| && s.bhs[s.threads[t].b].usedIdle)
    && (Unsafe(s.poller) ==> forall b :: 0 <= b < |s.bhs| && !s.bhs[b].usedIdle && Pending(s.bhs[b]) ==> Seen(s, b))
  }

  lemma BetweenStays(s: State, s': State, t: nat, b: nat)
    requires t < |s.threads| == |s'.threads| && s'.threads == s.threads[t := s'.threads[t]] && Between(s, b)
    requires s.threads[t] == Notify(b) || s.threads[t] == Wake(b) ==> s'.threads[t] == Wake(b)
    ensures Between(s', b)
  {
    var u :| 0 <= u < |s.threads| && (s.threads[u] == Notify(b) || s.threads[u] == Wake(b));
    assert s'.threads[u] == Notify(b) || s'.threads[u] == Wake(b);
  }

  /** A thread goes on with one of its calls. */
  predicate ByThread(step: Step) {
    || step.Schedule? || step.DoExchange? || step.ReadDispatching? || step.ScheduleIdle? || step.DoMarkIdle?
    || step.Delete? || step.DoMarkDeleted?
  }

  lemma SeenAfter(s: State, step: Step, b: nat)
    requires Inv(s) && Enabled(s, step)
    requires var s' := Apply(s, step); Unsafe(s'.poller) && b < |s'.bhs| && !s'.bhs[b].usedIdle && Pending(s'.bhs[b])
    ensures Seen(Apply(s, step), b)
  {
    hide Inv, Apply, Seen, Pending, Enabled;
    if ByThread(step) { SeenByThread(s, step, b); } else { SeenByOthers(s, step, b); }
  }

  lemma SeenByThread(s: State, step: Step, b: nat)
    requires Inv(s) && Enabled(s, step) && ByThread(step)
    requires var s' := Apply(s, step); Unsafe(s'.poller) && b < |s'.bhs| && !s'.bhs[b].usedIdle && Pending(s'.bhs[b])
    ensures Seen(Apply(s, step), b)
  {
    hide PollerFree;
    var s' := Apply(s, step);
    if step.DoExchange? && s.threads[step.t] == Exchange(b) && !s.bhs[b].scheduled {
      assert s'.threads[step.t] == Notify(b);
    } else if Between(s, b) {
      BetweenStays(s, s', step.t, b);
    }
  }

  lemma SeenByOthers(s: State, step: Step, b: nat)
    requires Inv(s) && Enabled(s, step) && !ByThread(step)
    requires var s' := Apply(s, step); Unsafe(s'.poller) && b < |s'.bhs| && !s'.bhs[b].usedIdle && Pending(s'.bhs[b])
    ensures Seen(Apply(s, step), b)
  {
    hide CanRun, PollerFree;
  }

  lemma PollerAfter(s: State, step: Step)
    requires Inv(s) && Enabled(s, step)
    ensures var s' := Apply(s, step);
      && (Unsafe(s'.poller) ==> !s'.dispatching) && (!s'.poller.Running? ==> PollerFree(s'))
      && (s'.poller.Scanning? ==> s'.poller.left <= |s'.bhs|)
  {}

  lemma IdleAfter(s: State, step: Step, b: nat)
    requires Inv(s) && Enabled(s, step) && b < |Apply(s, step).bhs| && !Apply(s, step).bhs[b].usedIdle
    ensures !Apply(s, step).bhs[b].idle
  {}

  lemma MarkAfter(s: State, step: Step, t: nat)
    requires Inv(s) && Enabled(s, step) && t < |Apply(s, step).threads| && Apply(s, step).threads[t].MarkIdle?
    ensures var s' := Apply(s, step); s'.threads[t].b < |s'.bhs| && s'.bhs[s'.threads[t].b].usedIdle
  {
    var s' := Apply(s, step);
    assert step != ScheduleIdle(t, s'.threads[t].b) ==> s'.threads[t] == s.threads[t];
  }

  /** Every step keeps the invariant. */
  lemma StepKeeps(s: State, step: Step)
    requires Inv(s) && Enabled(s, step)
    ensures Inv(Apply(s, step))
  {
    var s' := Apply(s, step);
    PollerAfter(s, step);
    hide Apply, Enabled;
    forall b | 0 <= b < |s'.bhs| && !s'.bhs[b].usedIdle
      ensures !s'.bhs[b].idle
    {
      IdleAfter(s, step, b);
    }
    forall t | 0 <= t < |s'.threads| && s'.threads[t].MarkIdle?
      ensures s'.threads[t].b < |s'.bhs| && s'.bhs[s'.threads[t].b].usedIdle
    {
      MarkAfter(s, step, t);
    }
    if Unsafe(s'.poller) {
      forall b | 0 <= b < |s'.bhs| && !s'.bhs[b].usedIdle && Pending(s'.bhs[b])
        ensures Seen(s', b)
      {
        SeenAfter(s, step, b);
      }
    }
  }

  /** The states of a run; a step that is not enabled does not happen. */
  function Run(s: State, steps: seq<Step>): State {
    if steps == [] then s
    else
      var before := Run(s, steps[..|steps| - 1]);
      if Enabled(before, steps[|steps| - 1]) then Apply(before, steps[|steps| - 1]) else before
  }

  /** aio_context_new, with any number of threads. */
  predicate Initial(s: State) {
    && s.bhs == [] && !s.dispatching && !s.notifier && s.poller == Running && s.was == []
    && forall t :: 0 <= t < |s.threads| ==> s.threads[t].Elsewhere?
  }

  lemma {:induction false} RunKeeps(s: State, steps: seq<Step>)
    requires Initial(s)
    ensures Inv(Run(s, steps))
  {
    if steps != [] {
      RunKeeps(s, steps[..|steps| - 1]);
      var before, step := Run(s, steps[..|steps| - 1]), steps[|steps| - 1];
      if Enabled(before, step) { StepKeeps(before, step); }
    }
  }

  /** No lost wakeup, in any run of any number of threads with any nesting of aio_poll: when the
      poller is blocked and the notifier clear, a live bottom half that is scheduled, and that
      qemu_bh_schedule_idle has not left scheduled, has a thread about to notify for it. */
  lemma NoLostWakeup(s: State, steps: seq<Step>, b: nat)
    requires Initial(s)
    requires var e := Run(s, steps);
      e.poller.Blocked? && !e.notifier && b < |e.bhs| && Pending(e.bhs[b]) && !e.bhs[b].usedIdle
    ensures Between(Run(s, steps), b)
  {
    RunKeeps(s, steps);
  }

  /** And that thread's own next steps wake the poller. */
  lemma ThenWoken(s: State, b: nat) returns (t: nat, steps: seq<Step>)
    requires Inv(s) && s.poller.Blocked? && Between(s, b)
    ensures t < |s.threads| && (s.threads[t] == Notify(b) || s.threads[t] == Wake(b))
    ensures forall i :: 0 <= i < |steps| ==> steps[i] == ReadDispatching(t) || steps[i] == SetNotifier(t)
    ensures Run(s, steps).notifier && Run(s, steps).poller == s.poller
  {
    t :| 0 <= t < |s.threads| && (s.threads[t] == Notify(b) || s.threads[t] == Wake(b));
    RunNone(s);
    assert PollerFree(s) && !s.dispatching;
    hide Run, Inv;
    if s.threads[t] == Notify(b) {
      var s1 := Apply(s, ReadDispatching(t));
      RunOne(s, [], s, ReadDispatching(t), s1);
      RunOne(s, [] + [ReadDispatching(t)], s1, SetNotifier(t), Apply(s1, SetNotifier(t)));
      steps := [] + [ReadDispatching(t)] + [SetNotifier(t)];
    } else {
      RunOne(s, [], s, SetNotifier(t), Apply(s, SetNotifier(t)));
      steps := [] + [SetNotifier(t)];
    }
  }

  /** The bottom half the poller is at exists. */
  predicate AtBh(s: State) { s.poller.Looking? || s.poller.Taken? ==> s.poller.b < |s.bhs| }

  lemma {:induction false} RunAtBh(s: State, steps: seq<Step>)
    requires Initial(s)
    ensures AtBh(Run(s, steps))
  {
    hide Enabled, Apply;
    if steps != [] {
      RunAtBh(s, steps[..|steps| - 1]);
      var before, step := Run(s, steps[..|steps| - 1]), steps[|steps| - 1];
      if Enabled(before, step) { StepAtBh(before, step); }
    }
  }

  lemma StepAtBh(s: State, step: Step)
    requires AtBh(s) && Enabled(s, step)
    ensures AtBh(Apply(s, step))
  {}

  predicate ByPoller(step: Step) {
    || step.SetDispatching? || step.LoadFirst? || step.Scan? || step.ScanEnd? || step.PollReturns? || step.Dispatch?
    || step.Take? || step.ClearIdle?
  }

  /** In any run the poller can always go on by itself, until it is back in callbacks. */
  lemma PollerGoesOn(s: State, steps: seq<Step>)
    requires Initial(s) && !Run(s, steps).poller.Running?
    ensures exists step :: ByPoller(step) && Enabled(Run(s, steps), step)
  {
    RunKeeps(s, steps);
    RunAtBh(s, steps);
    var e := Run(s, steps);
    hide Run;
    var step := match e.poller
      case Entering(_) => SetDispatching
      case Armed => LoadFirst
      case Scanning(left, _, _) => if left > 0 then Scan else ScanEnd(false)
      case Blocked(_) => PollReturns
      case Returned => Dispatch
      case Looking(_) => Take
      case _ => ClearIdle;
    assert ByPoller(step) && Enabled(e, step);
  }

  /** A poll that returns goes on to dispatch, whatever it waited for. */
  lemma ReturnsToDispatch(s: State)
    requires s.poller.Blocked?
    ensures Run(s, [PollReturns]) == s.(poller := Returned)
    ensures Run(s, [PollReturns, Dispatch]) == s.(poller := Running, dispatching := true)
  {
    hide Run;
    RunNone(s);
    var s1 := Apply(s, PollReturns);
    RunOne(s, [], s, PollReturns, s1);
    RunOne(s, [] + [PollReturns], s1, Dispatch, Apply(s1, Dispatch));
    assert [] + [PollReturns] == [PollReturns] && [] + [PollReturns] + [Dispatch] == [PollReturns, Dispatch];
  }

  /** A whole call of qemu_bh_schedule, with no other thread running meanwhile. */
  function CallSchedule(s: State, t: nat, b: nat): State {
    Run(s, [Schedule(t, b), DoExchange(t), ReadDispatching(t), SetNotifier(t)])
  }

  /** What a call does: it sets the notifier if and only if the bottom half was not scheduled yet
      and the poller is not dispatching. */
  lemma ScheduleWakes(s: State, t: nat, b: nat)
    requires 0 < t < |s.threads| && s.threads[t].Elsewhere? && b < |s.bhs|
    ensures var e := CallSchedule(s, t, b);
      && |e.bhs| == |s.bhs| && e.poller == s.poller && e.threads == s.threads && Pending(e.bhs[b]) == !s.bhs[b].deleted
      && !e.bhs[b].idle && (!s.bhs[b].scheduled && !MidIdle(s, b) ==> !e.bhs[b].usedIdle)
      && (e.notifier <==> s.notifier || (!s.bhs[b].scheduled && !s.dispatching))
  {
    hide Run;
    RunNone(s);
    var one := [] + [Schedule(t, b)];
    var two := one + [DoExchange(t)];
    var three := two + [ReadDispatching(t)];
    assert three + [SetNotifier(t)] == [Schedule(t, b), DoExchange(t), ReadDispatching(t), SetNotifier(t)];
    var s1 := Apply(s, Schedule(t, b));
    var s2 := Apply(s1, DoExchange(t));
    RunOne(s, [], s, Schedule(t, b), s1);
    RunOne(s, one, s1, DoExchange(t), s2);
    if s.bhs[b].scheduled {
      RunSkip(s, two, s2, ReadDispatching(t));
      RunSkip(s, three, s2, SetNotifier(t));
      assert s2.threads == s.threads;
    } else {
      var s3 := Apply(s2, ReadDispatching(t));
      RunOne(s, two, s2, ReadDispatching(t), s3);
      if s.dispatching {
        RunSkip(s, three, s3, SetNotifier(t));
        assert s3.threads == s.threads;
      } else {
        RunOne(s, three, s3, SetNotifier(t), Apply(s3, SetNotifier(t)));
        assert Apply(s3, SetNotifier(t)).threads == s.threads;
      }
    }
  }

  // ----- `dispatching` -----

  /** The saved values: the outermost aio_poll found `dispatching` clear, those inside found it set. */
  ghost predicate Flagged(s: State) {
    && (forall i :: 0 <= i < |s.was| ==> (s.was[i] <==> i > 0))
    && match s.poller
       case Running => s.dispatching <==> s.was != []
       case Looking(_) => s.dispatching <==> s.was != []
       case Taken(_) => s.dispatching <==> s.was != []
       case Entering(_) => s.was != [] && (s.dispatching <==> |s.was| > 1)
       case Armed => s.was != [] && !s.dispatching
       case Scanning(_, _, _) => s.was != [] && !s.dispatching
       case Blocked(_) => s.was != [] && !s.dispatching
       case Returned => s.was != []
  }

  lemma StepFlagged(s: State, step: Step)
    requires Flagged(s) && Enabled(s, step)
    ensures Flagged(Apply(s, step))
  {
    hide CanRun, PollerFree, StillIdle;
  }

  /** In any run `dispatching` is set while callbacks of an aio_poll run, clear outside of all of them,
      and clear from before the scan until the poller is back from blocking. */
  lemma {:induction false} DispatchingMeans(s: State, steps: seq<Step>)
    requires Initial(s)
    ensures Flagged(Run(s, steps))
  {
    hide Enabled, Apply, Flagged;
    if steps == [] {
      assert Flagged(s) by { InitFlagged(s); }
    } else {
      DispatchingMeans(s, steps[..|steps| - 1]);
      var before, step := Run(s, steps[..|steps| - 1]), steps[|steps| - 1];
      if Enabled(before, step) { StepFlagged(before, step); }
    }
  }

  lemma InitFlagged(s: State)
    requires Initial(s)
    ensures Flagged(s)
  {}

  // ----- taking -----

  /** aio_bh_poll looks at a bottom half with no other thread running meanwhile: it takes it if and
      only if it is pending, and leaves nothing of an earlier qemu_bh_schedule_idle. */
  lemma PollTakes(s: State, b: nat)
    requires PollerFree(s) && s.poller.Running? && b < |s.bhs|
    ensures var seen, e := Run(s, [Look(b), Take]), Run(s, [Look(b), Take, ClearIdle]);
      && (seen.poller == Taken(b) <==> Pending(s.bhs[b]))
      && e.poller.Running? && e.threads == s.threads && |e.bhs| == |s.bhs|
      && (forall x :: 0 <= x < |s.bhs| && x != b ==> e.bhs[x] == s.bhs[x])
      && (if Pending(s.bhs[b])
          then !e.bhs[b].scheduled && !e.bhs[b].idle && (e.bhs[b].usedIdle ==> MidIdle(s, b))
          else e.bhs[b] == s.bhs[b])
  {
    hide Run;
    RunNone(s);
    var one, two, three := [] + [Look(b)], [] + [Look(b)] + [Take], [] + [Look(b)] + [Take] + [ClearIdle];
    assert two == [Look(b), Take] && three == [Look(b), Take, ClearIdle];
    var s1 := Apply(s, Look(b));
    RunOne(s, [], s, Look(b), s1);
    if s.bhs[b].deleted {
      RunSkip(s, one, s, Take);
      RunSkip(s, two, s, ClearIdle);
    } else {
      var s2 := Apply(s1, Take);
      RunOne(s, one, s1, Take, s2);
      if s.bhs[b].scheduled {
        RunOne(s, two, s2, ClearIdle, Apply(s2, ClearIdle));
      } else {
        RunSkip(s, two, s2, ClearIdle);
      }
    }
  }

  /** Once the notifier is cleared it stays so until a thread sets it. */
  lemma {:induction false} NoSpuriousWake(s: State, steps: seq<Step>)
    requires PollerFree(s) && s.poller.Running? && forall i :: 0 <= i < |steps| ==> !steps[i].SetNotifier?
    ensures !Run(s, [ClearNotifier] + steps).notifier
  {
    hide Enabled, Apply;
    var all := [ClearNotifier] + steps;
    if steps == [] {
      RunNone(s);
      assert all == [] + [ClearNotifier];
      RunClear(s);
    } else {
      var less, last := steps[..|steps| - 1], steps[|steps| - 1];
      NoSpuriousWake(s, less);
      assert all[..|all| - 1] == [ClearNotifier] + less && all[|all| - 1] == last;
      var before := Run(s, [ClearNotifier] + less);
      if Enabled(before, last) { OnlySetters(before, last); }
    }
  }

  lemma RunClear(s: State)
    requires PollerFree(s) && s.poller.Running?
    ensures !Run(s, [] + [ClearNotifier]).notifier
  {
    RunNone(s);
    RunOne(s, [], s, ClearNotifier, Apply(s, ClearNotifier));
  }

  lemma OnlySetters(s: State, step: Step)
    requires Enabled(s, step) && !s.notifier && !step.SetNotifier?
    ensures !Apply(s, step).notifier
  {}

  /** A thread is in the middle of qemu_bh_schedule_idle. */
  predicate MidIdle(s: State, b: nat) { exists t :: 0 <= t < |s.threads| && s.threads[t] == MarkIdle(b) }

  /** A bottom half on which qemu_bh_schedule_idle is never called is never left to it. */
  lemma {:induction false} NeverIdle(s: State, steps: seq<Step>, b: nat)
    requires Initial(s) && forall i :: 0 <= i < |steps| && steps[i].ScheduleIdle? ==> steps[i].b != b
    ensures b < |Run(s, steps).bhs| ==> !Run(s, steps).bhs[b].usedIdle
  {
    hide Enabled;
    if steps != [] {
      var before, step := Run(s, steps[..|steps| - 1]), steps[|steps| - 1];
      NeverIdle(s, steps[..|steps| - 1], b);
      if Enabled(before, step) { UsedOnlyByIdle(before, step, b); }
    }
  }

  lemma UsedOnlyByIdle(s: State, step: Step, b: nat)
    requires Enabled(s, step) && (b < |s.bhs| ==> !s.bhs[b].usedIdle) && (step.ScheduleIdle? ==> step.b != b)
    ensures b < |Apply(s, step).bhs| ==> !Apply(s, step).bhs[b].usedIdle
  {}

  // ----- the timeout -----

  /** In every state of the run the bottom half is live, scheduled and as idle as said. */
  ghost predicate Stays(s: State, steps: seq<Step>, b: nat, idle: bool) {
    forall k :: 0 <= k <= |steps| ==> IsDue(Run(s, steps[..k]), b, idle)
  }

  predicate IsDue(s: State, b: nat, idle: bool) {
    b < |s.bhs| && Pending(s.bhs[b]) && s.bhs[b].idle == idle
  }

  lemma StaysBefore(s: State, steps: seq<Step>, b: nat, idle: bool)
    requires Stays(s, steps, b, idle)
    ensures IsDue(Run(s, steps), b, idle)
    ensures steps != [] ==> Stays(s, steps[..|steps| - 1], b, idle)
  {
    hide Run, IsDue;
    assert steps[..|steps|] == steps;
    if steps != [] {
      var before := steps[..|steps| - 1];
      forall k | 0 <= k <= |before| ensures IsDue(Run(s, before[..k]), b, idle) {
        assert before[..k] == steps[..k];
      }
    }
  }

  /** The scan has the bottom half before it, or has taken account of it. */
  predicate Accounted(p: Poller, b: nat, idle: bool) {
    && (p.Scanning? && b >= p.left ==> idle && p.timeout.Idle10ms?)
    && (p.Blocked? ==> idle && p.timeout.Idle10ms?)
  }

  lemma ScanAccounts(s: State, step: Step, b: nat, idle: bool)
    requires Enabled(s, step) && IsDue(s, b, idle) && Accounted(s.poller, b, idle)
    ensures Accounted(Apply(s, step).poller, b, idle)
  {}

  /** A bottom half that stays scheduled through a whole scan is not overlooked: the poller does not
      block for it if it is not idle, and for an idle one it blocks for ten milliseconds at most. */
  lemma {:induction false} ScanSees(s: State, steps: seq<Step>, b: nat, idle: bool)
    requires !s.poller.Scanning? && !s.poller.Blocked? && Stays(s, steps, b, idle)
    ensures Accounted(Run(s, steps).poller, b, idle)
    ensures Run(s, steps).poller.Blocked? ==> idle && Run(s, steps).poller.timeout == Idle10ms
  {
    hide Enabled, Apply, IsDue, Stays;
    if steps != [] {
      StaysBefore(s, steps, b, idle);
      StaysBefore(s, steps[..|steps| - 1], b, idle);
      ScanSees(s, steps[..|steps| - 1], b, idle);
      var before, step := Run(s, steps[..|steps| - 1]), steps[|steps| - 1];
      if Enabled(before, step) { ScanAccounts(before, step, b, idle); }
    }
  }

  /** In no state of the run a scheduled bottom half is idle. */
  ghost predicate NoneIdle(s: State, steps: seq<Step>) {
    forall k, b :: 0 <= k <= |steps| ==> !IsIdle(Run(s, steps[..k]), b)
  }

  predicate IsIdle(s: State, b: nat) { b < |s.bhs| && s.bhs[b].idle }

  predicate Short(p: Poller) { (p.Scanning? || p.Blocked?) && p.timeout.Idle10ms? }

  /** The poller blocks for ten milliseconds only when some bottom half has been idle. */
  lemma {:induction false} ShortOnlyForIdle(s: State, steps: seq<Step>)
    requires !Short(s.poller) && NoneIdle(s, steps)
    ensures !Short(Run(s, steps).poller)
  {
    hide IsIdle;
    if steps != [] {
      var less := steps[..|steps| - 1];
      forall k, b | 0 <= k <= |less| ensures !IsIdle(Run(s, less[..k]), b) {
        assert less[..k] == steps[..k];
      }
      ShortOnlyForIdle(s, less);
      var before, step := Run(s, less), steps[|steps| - 1];
      assert forall b :: !IsIdle(before, b);
      if Enabled(before, step) { StaysLong(before, step); }
    }
  }

  lemma StaysLong(s: State, step: Step)
    requires Enabled(s, step) && !Short(s.poller) && forall b :: !IsIdle(s, b)
    ensures !Short(Apply(s, step).poller)
  {
    if step.Scan? { assert !IsIdle(s, s.poller.left - 1); }
  }

  lemma RunOne(s: State, steps: seq<Step>, s1: State, step: Step, s2: State)
    requires Run(s, steps) == s1 && Enabled(s1, step) && Apply(s1, step) == s2
    ensures Run(s, steps + [step]) == s2
  {
    assert (steps + [step])[..|steps + [step]| - 1] == steps;
  }

  lemma RunSkip(s: State, steps: seq<Step>, s1: State, step: Step)
    requires Run(s, steps) == s1 && !Enabled(s1, step)
    ensures Run(s, steps + [step]) == s1
  {
    assert (steps + [step])[..|steps + [step]| - 1] == steps;
  }

  /** A poller that has gone to sleep over one bottom half, not scheduled, with two threads. */
  function Asleep(bh: Bh, th: Thread): State {
    State([bh], false, false, Blocked(Never), [false], [Elsewhere, th])
  }

  lemma GoesToSleep() returns (s: State, steps: seq<Step>)
    ensures Initial(s) && Run(s, steps) == Asleep(Bh(false, false, false, false), Elsewhere)
  {
    hide Run;
    s := State([], false, false, Running, [], [Elsewhere, Elsewhere]);
    var s1 := s.(bhs := [Bh(false, false, false, false)]);
    var a1 := s1.(was := [false], poller := Entering(true));
    var a2 := a1.(poller := Armed);
    var s2 := a1.(poller := Scanning(1, ReadDeleted, Never));
    var s3 := s2.(poller := Scanning(1, ReadScheduled, Never));
    var s4 := s2.(poller := Scanning(0, ReadDeleted, Never));
    RunNone(s);
    RunOne(s, [], s, New(1), s1);
    steps := [] + [New(1)];
    RunOne(s, steps, s1, EnterPoll(true), a1);
    steps := steps + [EnterPoll(true)];
    RunOne(s, steps, a1, SetDispatching, a2);
    steps := steps + [SetDispatching];
    RunOne(s, steps, a2, LoadFirst, s2);
    steps := steps + [LoadFirst];
    RunOne(s, steps, s2, Scan, s3);
    steps := steps + [Scan];
    RunOne(s, steps, s3, Scan, s4);
    steps := steps + [Scan];
    RunOne(s, steps, s4, ScanEnd(false), s2.(poller := Blocked(Never)));
    steps := steps + [ScanEnd(false)];
  }

  lemma RunNone(s: State)
    ensures Run(s, []) == s
  {}

  /** Without that restriction a wakeup is lost: qemu_bh_schedule_idle, which does not notify,
      makes the following qemu_bh_schedule think it need not either. */
  lemma IdleLosesWakeup() returns (s: State, steps: seq<Step>)
    ensures Initial(s) && LostIn(Run(s, steps), 0)
  {
    hide Run;
    s, steps := GoesToSleep();
    RunOne(s, steps, Asleep(Bh(false, false, false, false), Elsewhere), ScheduleIdle(1, 0),
        Asleep(Bh(false, true, false, true), MarkIdle(0)));
    steps := steps + [ScheduleIdle(1, 0)];
    RunOne(s, steps, Asleep(Bh(false, true, false, true), MarkIdle(0)), DoMarkIdle(1),
        Asleep(Bh(true, true, false, true), Elsewhere));
    steps := steps + [DoMarkIdle(1)];
    RunOne(s, steps, Asleep(Bh(true, true, false, true), Elsewhere), Schedule(1, 0),
        Asleep(Bh(true, false, false, true), Exchange(0)));
    steps := steps + [Schedule(1, 0)];
    RunOne(s, steps, Asleep(Bh(true, false, false, true), Exchange(0)), DoExchange(1),
        Asleep(Bh(true, false, false, true), Elsewhere));
    steps := steps + [DoExchange(1)];
  }

  /** A blocked poller, a scheduled bottom half that is not idle, and nobody about to notify. */
  predicate LostIn(e: State, b: nat) {
    e.poller.Blocked? && !e.notifier && b < |e.bhs| && Pending(e.bhs[b]) && !e.bhs[b].idle && !Between(e, b)
  }
}
