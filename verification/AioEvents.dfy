/** What callbacks may and may not do to the events and bottom halves of an AioContext
    (aio-posix.c, async.c). */
module AioEvents {
  import opened Lists
  import opened NodeLists
  import opened Wrappers

  /** An AioHandler; `readable` and `writable` are its revents as far as its events ask for them. */
  datatype Handler = Handler(fd: int, ioRead: bool, ioWrite: bool, deleted: bool, readable: bool, writable: bool)

  datatype Bh = Bh(scheduled: bool, idle: bool, deleted: bool)

  /** What has been done so far: the callbacks called, the bottom halves cancelled, the callbacks
      taken away from live handlers, and the events that a later poll found over. */
  datatype Call =
    | BhCall(b: nat)
    | ReadCall(node: nat)
    | WriteCall(node: nat)
    | Cancelled(b: nat)
    | Dropped(node: nat, read: bool)
    | Repolled(node: nat, read: bool)

  function IoCall(n: nat, read: bool): Call { if read then ReadCall(n) else WriteCall(n) }

  datatype Events = Events(nodes: map<nat, Handler>, bhNodes: map<nat, Bh>, calls: multiset<Call>, dead: set<nat>,
                           deadBh: set<nat>)

  // ----- handlers -----

  predicate Noisy(nodes: map<nat, Handler>, n: nat) {
    n in nodes && (nodes[n].readable || nodes[n].writable)
  }

  /** The handler is live and has the callback. */
  predicate HasCb(nodes: map<nat, Handler>, n: nat, read: bool) {
    n in nodes && !nodes[n].deleted && if read then nodes[n].ioRead else nodes[n].ioWrite
  }

  /** The callback is to be called when the walk comes to the handler. */
  predicate Wants(nodes: map<nat, Handler>, n: nat, read: bool) {
    HasCb(nodes, n, read) && if read then nodes[n].readable else nodes[n].writable
  }

  predicate Wanted(nodes: map<nat, Handler>, n: nat) {
    Wants(nodes, n, true) || Wants(nodes, n, false)
  }

  /** The handler is live, has the callback, and its descriptor is ready for it. */
  predicate Reported(nodes: map<nat, Handler>, ready: map<int, (bool, bool)>, n: nat, read: bool) {
    && HasCb(nodes, n, read) && nodes[n].fd in ready
    && if read then ready[nodes[n].fd].0 else ready[nodes[n].fd].1
  }

  /** poll() has something to report. */
  ghost predicate Hit(nodes: map<nat, Handler>, ready: map<int, (bool, bool)>) {
    exists n, read :: Reported(nodes, ready, n, read)
  }

  /** What poll() tells a handler that is polled. */
  function Told(h: Handler, ready: map<int, (bool, bool)>): Handler {
    if h.deleted || (!h.ioRead && !h.ioWrite) then h
    else
      var r := if h.fd in ready then ready[h.fd] else (false, false);
      h.(readable := r.0 && h.ioRead, writable := r.1 && h.ioWrite)
  }

  /** Afterwards exactly the callbacks whose descriptors are ready are to be called. */
  lemma ToldWants(a: map<nat, Handler>, b: map<nat, Handler>, ready: map<int, (bool, bool)>, n: nat, read: bool)
    requires a.Keys == b.Keys && (n in a ==> b[n] == Told(a[n], ready))
    ensures Wants(b, n, read) <==> Reported(a, ready, n, read)
    ensures HasCb(b, n, read) <==> HasCb(a, n, read)
  {}

  /** The events of handler n have been taken, and the others are as they were. */
  ghost predicate Heard(before: map<nat, Handler>, after: map<nat, Handler>, n: nat) {
    !Noisy(after, n) && Others(before, after, n)
  }

  ghost predicate Others(before: map<nat, Handler>, after: map<nat, Handler>, n: nat) {
    forall x :: x != n ==> (x in after <==> x in before) && (x in before ==> after[x] == before[x])
  }

  ghost predicate SilentBut(nodes: map<nat, Handler>, rest: seq<nat>) {
    forall x :: Noisy(nodes, x) ==> x in rest
  }

  lemma SilentStep(a: Events, b: Events, list: seq<nat>, n: nat)
    requires n in list && SilentBut(a.nodes, From(list, n)) && Served(a, b) && !Noisy(b.nodes, n)
    ensures SilentBut(b.nodes, After(list, n))
  {
    FromIn(list, n);
    forall x | Noisy(b.nodes, x) ensures x in After(list, n) {
      assert Noisy(a.nodes, x);
      assert x in From(list, n) && x != n;
    }
  }

  // ----- bottom halves -----

  /** The bottom half is to be called when the walk comes to it. */
  predicate Due(bhNodes: map<nat, Bh>, b: nat) {
    b in bhNodes && !bhNodes[b].deleted && bhNodes[b].scheduled
  }

  /** A bottom half that counts as progress is due. */
  ghost predicate Loud(bhNodes: map<nat, Bh>) {
    exists b :: Due(bhNodes, b) && !bhNodes[b].idle
  }

  /** Bottom half b has been taken if it was due, and the others are as they were. */
  ghost predicate Polled(before: map<nat, Bh>, after: map<nat, Bh>, b: nat) {
    after == if Due(before, b) then before[b := before[b].(scheduled := false, idle := false)] else before
  }

  lemma PolledLoud(before: map<nat, Bh>, after: map<nat, Bh>, b: nat)
    requires Polled(before, after, b)
    ensures Loud(before) <==> Loud(after) || (Due(before, b) && !before[b].idle)
  {
    if x :| Due(before, x) && !before[x].idle {
      assert x != b ==> Due(after, x) && !after[x].idle;
    }
    if x :| Due(after, x) && !after[x].idle {
      assert Due(before, x) && !before[x].idle;
    }
  }

  /** No bottom half is due but those in `rest`. */
  ghost predicate QuietBut(bhNodes: map<nat, Bh>, rest: seq<nat>) {
    forall x :: Due(bhNodes, x) ==> x in rest
  }

  lemma QuietStep(before: map<nat, Bh>, after: map<nat, Bh>, list: seq<nat>, b: nat, next: Option<nat>)
    requires Distinct(list) && b in list && next == Next(list, b) && QuietBut(before, From(list, b))
    requires Polled(before, after, b)
    ensures QuietBut(after, if next.Some? then From(list, next.value) else [])
  {
    FromIn(list, b);
    if next.Some? { FromNext(list, b); }
    forall x | Due(after, x) ensures x in (if next.Some? then From(list, next.value) else []) {
      assert Due(before, x);
      assert x in From(list, b) && x != b;
    }
  }

  // ----- what callbacks do -----

  /** What any callback does to events and bottom halves. It leaves no handler with an event that
      had none. A bottom half that was due is due still, or has been called, cancelled or deleted.
      A live handler keeps its callbacks unless they are taken away, and a callback that was to be
      called still is, or has been called, or has gone, or a later poll found its descriptor not
      ready. */
  ghost predicate Served(a: Events, b: Events) {
    && Quieter(a.nodes, b.nodes) && Logged(a.calls, b.calls) && a.dead <= b.dead && a.deadBh <= b.deadBh
    && NoneForgotten(a, b) && CbKept(a, b) && IoKept(a, b)
  }

  ghost predicate Quieter(before: map<nat, Handler>, after: map<nat, Handler>) {
    forall n :: Noisy(after, n) ==> Noisy(before, n)
  }

  ghost predicate Logged(before: multiset<Call>, after: multiset<Call>) {
    forall c :: before[c] <= after[c]
  }

  ghost predicate NoneForgotten(a: Events, b: Events) {
    forall x :: Due(a.bhNodes, x) ==> Due(b.bhNodes, x) || Settled(a, b, x)
  }

  /** The bottom half has been called or cancelled in between, or is deleted. */
  ghost predicate Settled(a: Events, b: Events, x: nat) {
    b.calls[BhCall(x)] > a.calls[BhCall(x)] || b.calls[Cancelled(x)] > a.calls[Cancelled(x)] || x in b.deadBh
  }

  ghost predicate CbKept(a: Events, b: Events) {
    forall n, read :: HasCb(a.nodes, n, read) ==> HasCb(b.nodes, n, read) || Gone(a, b, n, read)
  }

  /** The handler is deleted, or the callback has been taken away from it. */
  ghost predicate Gone(a: Events, b: Events, n: nat, read: bool) {
    n in b.dead || b.calls[Dropped(n, read)] > a.calls[Dropped(n, read)]
  }

  ghost predicate IoKept(a: Events, b: Events) {
    forall n, read :: Wants(a.nodes, n, read) ==> Wants(b.nodes, n, read) || IoSettled(a, b, n, read)
  }

  ghost predicate IoSettled(a: Events, b: Events, n: nat, read: bool) {
    || b.calls[IoCall(n, read)] > a.calls[IoCall(n, read)]
    || Gone(a, b, n, read) || b.calls[Repolled(n, read)] > a.calls[Repolled(n, read)]
  }

  lemma ServedSelf(a: Events)
    ensures Served(a, a)
  {}

  lemma CallLogged(a: Events, b: Events)
    requires b == a.(calls := b.calls) && a.calls <= b.calls
    ensures Served(a, b)
  {}

  /** For proofs: the records grow. */
  lemma RecordsGrow(a: Events, b: Events, c: Events, n: nat, read: bool)
    requires Logged(a.calls, b.calls) && Logged(b.calls, c.calls) && b.dead <= c.dead
    ensures Gone(a, b, n, read) || Gone(b, c, n, read) ==> Gone(a, c, n, read)
    ensures IoSettled(a, b, n, read) || IoSettled(b, c, n, read) ==> IoSettled(a, c, n, read)
  {
    assert a.calls[Dropped(n, read)] <= b.calls[Dropped(n, read)] <= c.calls[Dropped(n, read)];
    assert a.calls[Repolled(n, read)] <= b.calls[Repolled(n, read)] <= c.calls[Repolled(n, read)];
    assert a.calls[IoCall(n, read)] <= b.calls[IoCall(n, read)] <= c.calls[IoCall(n, read)];
  }

  lemma IoTrans(a: Events, b: Events, c: Events)
    requires Logged(a.calls, b.calls) && Logged(b.calls, c.calls) && b.dead <= c.dead
    ensures CbKept(a, b) && CbKept(b, c) ==> CbKept(a, c)
    ensures IoKept(a, b) && IoKept(b, c) ==> IoKept(a, c)
  {
    hide Gone, IoSettled, HasCb, Wants, Logged;
    forall n, read
      ensures Gone(a, b, n, read) || Gone(b, c, n, read) ==> Gone(a, c, n, read)
      ensures IoSettled(a, b, n, read) || IoSettled(b, c, n, read) ==> IoSettled(a, c, n, read)
    {
      RecordsGrow(a, b, c, n, read);
    }
  }

  lemma BhTrans(a: Events, b: Events, c: Events)
    requires Logged(a.calls, b.calls) && Logged(b.calls, c.calls) && b.deadBh <= c.deadBh
    requires NoneForgotten(a, b) && NoneForgotten(b, c)
    ensures NoneForgotten(a, c)
  {
    forall x | Due(a.bhNodes, x) && !Due(c.bhNodes, x) ensures Settled(a, c, x) {
      assert a.calls[BhCall(x)] <= b.calls[BhCall(x)] <= c.calls[BhCall(x)];
      assert a.calls[Cancelled(x)] <= b.calls[Cancelled(x)] <= c.calls[Cancelled(x)];
      assert Settled(a, b, x) || Due(b.bhNodes, x);
    }
  }

  lemma ServedTrans(a: Events, b: Events, c: Events)
    requires Served(a, b) && Served(b, c)
    ensures Served(a, c)
  {
    hide NoneForgotten, CbKept, IoKept;
    IoTrans(a, b, c);
    BhTrans(a, b, c);
    assert Quieter(a.nodes, c.nodes) by {
      forall n | Noisy(c.nodes, n) ensures Noisy(a.nodes, n) { assert Noisy(b.nodes, n); }
    }
  }

  /** Scheduling a bottom half, or deleting it. */
  lemma FlagsServed(a: Events, b: Events, x: nat)
    requires x in a.bhNodes && x in b.bhNodes && b.bhNodes == a.bhNodes[x := b.bhNodes[x]]
    requires b == a.(bhNodes := b.bhNodes, deadBh := b.deadBh) && a.deadBh <= b.deadBh
    requires Due(a.bhNodes, x) ==> Due(b.bhNodes, x) || Settled(a, b, x)
    ensures Served(a, b)
  {
    forall y | Due(a.bhNodes, y) ensures Due(b.bhNodes, y) || Settled(a, b, y) {}
  }

  /** Cancelling a bottom half. */
  lemma CancelServed(a: Events, b: Events, x: nat)
    requires x in a.bhNodes && b.bhNodes == a.bhNodes[x := a.bhNodes[x].(scheduled := false)]
    requires b == a.(bhNodes := b.bhNodes, calls := a.calls + multiset{Cancelled(x)}, deadBh := b.deadBh)
    requires a.deadBh <= b.deadBh
    ensures Served(a, b)
  {
    forall y | Due(a.bhNodes, y) ensures Due(b.bhNodes, y) || Settled(a, b, y) {}
  }

  /** A bottom half that is taken and then called. */
  lemma TakenPolled(a: Events, b: Events, c: Events, x: nat)
    requires x in a.bhNodes && x in b.bhNodes && b == a.(bhNodes := a.bhNodes[x := b.bhNodes[x]])
    requires Served(b, c) && Settled(b, c, x)
    ensures Served(a, c) && Settled(a, c, x)
  {
    forall y | Due(a.bhNodes, y) ensures Due(c.bhNodes, y) || Settled(a, c, y) {
      assert y == x || Due(b.bhNodes, y);
    }
    assert CbKept(a, c) && IoKept(a, c) by {
      assert forall n, read :: Gone(b, c, n, read) ==> Gone(a, c, n, read);
      assert forall n, read :: IoSettled(b, c, n, read) ==> IoSettled(a, c, n, read);
    }
  }

  /** As Served, but for what handler n is to be called for. */
  ghost predicate ServedBut(a: Events, b: Events, n: nat) {
    && Quieter(a.nodes, b.nodes) && Logged(a.calls, b.calls) && a.dead <= b.dead && a.deadBh <= b.deadBh
    && NoneForgotten(a, b) && CbKept(a, b) && IoKeptBut(a, b, n)
  }

  ghost predicate IoKeptBut(a: Events, b: Events, n: nat) {
    forall m, read :: m != n && Wants(a.nodes, m, read) ==> Wants(b.nodes, m, read) || IoSettled(a, b, m, read)
  }

  /** Taking the events of one handler. */
  lemma HeardServed(a: Events, b: Events, n: nat)
    requires b == a.(nodes := b.nodes, dead := b.dead) && a.dead <= b.dead && Heard(a.nodes, b.nodes, n)
    requires forall read :: HasCb(a.nodes, n, read) ==> HasCb(b.nodes, n, read) || n in b.dead
    ensures ServedBut(a, b, n)
    ensures n in b.dead || !Wanted(a.nodes, n) ==> Served(a, b)
  {
    forall x | Noisy(b.nodes, x) ensures Noisy(a.nodes, x) {}
  }

  lemma ServedButTrans(a: Events, b: Events, c: Events, n: nat)
    requires ServedBut(a, b, n) && Served(b, c)
    ensures ServedBut(a, c, n)
  {
    hide NoneForgotten, CbKept;
    IoTrans(a, b, c);
    BhTrans(a, b, c);
    assert Quieter(a.nodes, c.nodes) by {
      forall m | Noisy(c.nodes, m) ensures Noisy(a.nodes, m) { assert Noisy(b.nodes, m); }
    }
    forall m, read | m != n && Wants(a.nodes, m, read) && !Wants(c.nodes, m, read) ensures IoSettled(a, c, m, read) {
      RecordsGrow(a, b, c, m, read);
    }
  }

  lemma ServedAll(a: Events, b: Events, n: nat)
    requires ServedBut(a, b, n)
    requires forall read :: Wants(a.nodes, n, read) ==> IoSettled(a, b, n, read)
    ensures Served(a, b)
  {
    hide Quieter, Logged, NoneForgotten, CbKept, IoSettled, Wants;
  }

  /** A callback that has gone since the events were taken. */
  lemma GoneSince(a: Events, b: Events, c: Events, n: nat, read: bool)
    requires b == a.(nodes := b.nodes) && HasCb(b.nodes, n, read) && Served(b, c) && !HasCb(c.nodes, n, read)
    ensures Gone(a, c, n, read)
  {}

  /** The callbacks taken from live handlers. */
  ghost function Withdrawn(a: map<nat, Handler>, b: map<nat, Handler>): set<Call> {
    set n, read | n in a && HasCb(a, n, read) && n in b && !b[n].deleted && !HasCb(b, n, read) :: Dropped(n, read)
  }

  /** Changing the callbacks of one handler. */
  lemma CallbacksServed(a: Events, b: Events, n: nat)
    requires n in a.nodes && n in b.nodes
    requires b == a.(nodes := a.nodes[n := a.nodes[n].(ioRead := b.nodes[n].ioRead, ioWrite := b.nodes[n].ioWrite)],
      calls := a.calls + multiset(Withdrawn(a.nodes, b.nodes)))
    ensures Served(a, b)
  {
    forall x | Noisy(b.nodes, x) ensures Noisy(a.nodes, x) {}
    forall m, read | HasCb(a.nodes, m, read) && !HasCb(b.nodes, m, read) ensures Gone(a, b, m, read) {
      assert Dropped(m, read) in Withdrawn(a.nodes, b.nodes);
    }
  }

  /** The callbacks that were to be called and are not any more. */
  ghost function Silenced(a: map<nat, Handler>, b: map<nat, Handler>): set<Call> {
    set n, read | n in a && Wants(a, n, read) && !Wants(b, n, read) :: Repolled(n, read)
  }

  /** Reporting events. */
  lemma ToldServed(a: Events, b: Events, ready: map<int, (bool, bool)>)
    requires a.nodes.Keys == b.nodes.Keys && forall n :: n in a.nodes ==> b.nodes[n] == Told(a.nodes[n], ready)
    requires b == a.(nodes := b.nodes, calls := a.calls + multiset(Silenced(a.nodes, b.nodes)))
    ensures Logged(a.calls, b.calls) && CbKept(a, b) && IoKept(a, b)
    ensures forall c: Call :: !c.Repolled? ==> b.calls[c] == a.calls[c]
  {
    hide Told;
    forall n, read | HasCb(a.nodes, n, read) ensures HasCb(b.nodes, n, read) {
      ToldWants(a.nodes, b.nodes, ready, n, read);
    }
    forall n, read | Wants(a.nodes, n, read) && !Wants(b.nodes, n, read) ensures IoSettled(a, b, n, read) {
      assert Repolled(n, read) in Silenced(a.nodes, b.nodes);
    }
  }

  lemma CallsGrow(a: Events, b: Events, n: nat)
    requires Served(a, b)
    ensures a.calls[ReadCall(n)] <= b.calls[ReadCall(n)] && a.calls[WriteCall(n)] <= b.calls[WriteCall(n)]
    ensures !Noisy(a.nodes, n) ==> !Noisy(b.nodes, n)
  {}

  // ----- whole walks -----

  /** Of the bottom halves that were due, only those in `rest` are not settled yet. */
  ghost predicate SettledBut(a: Events, b: Events, rest: seq<nat>) {
    forall x :: Due(a.bhNodes, x) ==> Settled(a, b, x) || (Due(b.bhNodes, x) && x in rest)
  }

  /** One round of aio_bh_poll settles the bottom half it comes to. */
  lemma SettledStep(a: Events, b: Events, c: Events, list: seq<nat>, x: nat)
    requires SettledBut(a, b, From(list, x)) && Served(a, b) && Served(b, c)
    requires (Due(b.bhNodes, x) ==> Settled(b, c, x)) && x in list
    ensures SettledBut(a, c, After(list, x))
  {
    hide CbKept, IoKept, Quieter;
    FromIn(list, x);
    forall y | Due(a.bhNodes, y) && !Settled(a, c, y) ensures Due(c.bhNodes, y) && y in After(list, x) {
      assert a.calls[BhCall(y)] <= b.calls[BhCall(y)] <= c.calls[BhCall(y)];
      assert a.calls[Cancelled(y)] <= b.calls[Cancelled(y)] <= c.calls[Cancelled(y)];
      assert !Settled(a, b, y) && !Settled(b, c, y);
      assert y in From(list, x) && y != x;
    }
  }

  /** When the walk is over, all are settled, also for whoever looks at the lists afterwards. */
  lemma WalkServed(a: Events, b: Events, c: Events)
    requires SettledBut(a, b, []) && Served(a, b) && c == b.(bhNodes := c.bhNodes)
    ensures Served(a, c) && AllSettled(a, c)
  {
    forall x | Due(a.bhNodes, x) ensures Settled(a, c, x) { assert Settled(a, b, x); }
    assert CbKept(a, c) && IoKept(a, c) by {
      assert forall n, read :: Gone(a, b, n, read) ==> Gone(a, c, n, read);
      assert forall n, read :: IoSettled(a, b, n, read) ==> IoSettled(a, c, n, read);
    }
  }

  /** Every bottom half that was due has been called or cancelled in between, or is deleted. */
  ghost predicate AllSettled(a: Events, b: Events) {
    forall x :: Due(a.bhNodes, x) ==> Settled(a, b, x)
  }

  /** Every callback that was to be called has been called in between, or has gone, or a later poll
      found its descriptor not ready. */
  ghost predicate AllHeard(a: Events, b: Events) {
    forall n, read :: Wants(a.nodes, n, read) ==> IoSettled(a, b, n, read)
  }

  lemma SilentHeard(a: Events, b: Events)
    requires Served(a, b) && SilentBut(b.nodes, [])
    ensures AllHeard(a, b)
  {
    forall n, read | Wants(a.nodes, n, read) ensures IoSettled(a, b, n, read) {
      assert !Noisy(b.nodes, n);
    }
  }

  lemma SettledOn(a: Events, b: Events, c: Events)
    requires Served(b, c) && AllSettled(a, b)
    ensures AllSettled(a, c)
  {
    forall x | Due(a.bhNodes, x) ensures Settled(a, c, x) {
      assert Settled(a, b, x);
      assert b.calls[BhCall(x)] <= c.calls[BhCall(x)] && b.calls[Cancelled(x)] <= c.calls[Cancelled(x)];
    }
  }

  /** Reporting events before a walk that takes them all. */
  lemma TakenServed(a: Events, b: Events, c: Events)
    requires b == a.(nodes := b.nodes, calls := b.calls) && Logged(a.calls, b.calls) && CbKept(a, b) && IoKept(a, b)
    requires Served(b, c) && SilentBut(c.nodes, []) && AllSettled(b, c)
    ensures Served(a, c) && AllSettled(a, c)
  {
    hide CbKept, IoKept;
    IoTrans(a, b, c);
    assert forall n :: !Noisy(c.nodes, n);
    forall x | Due(a.bhNodes, x) ensures Settled(a, c, x) {
      assert Settled(b, c, x);
      assert a.calls[BhCall(x)] <= b.calls[BhCall(x)] && a.calls[Cancelled(x)] <= b.calls[Cancelled(x)];
    }
  }

  /** Every callback whose descriptor was ready has been called in between, or has gone, or a poll
      from a callback found its descriptor not ready any more. */
  ghost predicate AllReported(a: Events, b: Events, ready: map<int, (bool, bool)>) {
    forall n, read :: Reported(a.nodes, ready, n, read) ==> IoSettled(a, b, n, read)
  }

  lemma ReportedHeard(a: Events, b: Events, c: Events, ready: map<int, (bool, bool)>)
    requires a.nodes.Keys == b.nodes.Keys && forall n :: n in a.nodes ==> b.nodes[n] == Told(a.nodes[n], ready)
    requires Logged(a.calls, b.calls) && Served(b, c) && AllHeard(b, c)
    ensures AllReported(a, c, ready)
  {
    hide Told, Reported, Wants, IoSettled, Gone, NoneForgotten, CbKept, IoKept, Quieter, HasCb;
    forall n, read | Reported(a.nodes, ready, n, read) ensures IoSettled(a, c, n, read) {
      ToldWants(a.nodes, b.nodes, ready, n, read);
      RecordsGrow(a, b, c, n, read);
    }
  }

  /** The scripts cancel no other bottom halves than these. */
  ghost predicate OnlyThese(calls: multiset<Call>, cancelling: set<nat>) {
    forall x :: calls[Cancelled(x)] > 0 ==> x in cancelling
  }

  lemma OnlyMore(calls: multiset<Call>, cancelling: set<nat>, more: multiset<Call>)
    requires OnlyThese(calls, cancelling) && forall c :: c in more && c.Cancelled? ==> c.b in cancelling
    ensures OnlyThese(calls + more, cancelling)
  {}

  /** A bottom half that nobody cancels is settled by being called or deleted. */
  lemma NotCancelled(a: Events, b: Events, cancelling: set<nat>)
    requires AllSettled(a, b) && OnlyThese(b.calls, cancelling)
    ensures AllCalled(a, b, cancelling)
  {
    forall x | Due(a.bhNodes, x) && x !in cancelling ensures b.calls[BhCall(x)] > a.calls[BhCall(x)] || x in b.deadBh {
      assert Settled(a, b, x) && b.calls[Cancelled(x)] == 0;
    }
  }

  /** Every bottom half that was due, but for those that may be cancelled, has been called in
      between or is deleted. */
  ghost predicate AllCalled(a: Events, b: Events, cancelling: set<nat>) {
    forall x :: Due(a.bhNodes, x) && x !in cancelling ==> b.calls[BhCall(x)] > a.calls[BhCall(x)] || x in b.deadBh
  }

  // ----- callbacks that do nothing -----

  ghost function Once(p: bool): nat { if p then 1 else 0 }

  /** Every callback has been called as often as it no longer is to be called. */
  ghost predicate Tally(a: Events, b: Events) {
    && (forall n, read :: b.calls[IoCall(n, read)] + Once(Wants(b.nodes, n, read))
          == a.calls[IoCall(n, read)] + Once(Wants(a.nodes, n, read)))
    && (forall x :: b.calls[BhCall(x)] + Once(Due(b.bhNodes, x)) == a.calls[BhCall(x)] + Once(Due(a.bhNodes, x)))
  }

  /** Exactly the callbacks that were to be called have been called, once each. */
  ghost predicate CalledOnce(a: Events, b: Events) {
    && (forall n, read :: b.calls[IoCall(n, read)] == a.calls[IoCall(n, read)] + Once(Wants(a.nodes, n, read)))
    && (forall x :: b.calls[BhCall(x)] == a.calls[BhCall(x)] + Once(Due(a.bhNodes, x)))
  }

  lemma TallyTrans(a: Events, b: Events, c: Events)
    requires Tally(a, b) && Tally(b, c)
    ensures Tally(a, c)
  {
    hide Wants, Due, IoCall, Once;
    forall n, read
      ensures c.calls[IoCall(n, read)] + Once(Wants(c.nodes, n, read))
          == a.calls[IoCall(n, read)] + Once(Wants(a.nodes, n, read))
    {
      assert b.calls[IoCall(n, read)] + Once(Wants(b.nodes, n, read))
          == a.calls[IoCall(n, read)] + Once(Wants(a.nodes, n, read));
    }
    forall x ensures c.calls[BhCall(x)] + Once(Due(c.bhNodes, x)) == a.calls[BhCall(x)] + Once(Due(a.bhNodes, x)) {
      assert b.calls[BhCall(x)] + Once(Due(b.bhNodes, x)) == a.calls[BhCall(x)] + Once(Due(a.bhNodes, x));
    }
  }

  lemma PolledTally(a: Events, b: Events, x: nat)
    requires Polled(a.bhNodes, b.bhNodes, x) && b.nodes == a.nodes
    requires b.calls == a.calls + if Due(a.bhNodes, x) then multiset{BhCall(x)} else multiset{}
    ensures Tally(a, b)
  {}

  /** The calls for one handler's events. */
  ghost function CallsFor(nodes: map<nat, Handler>, n: nat): multiset<Call> {
    (if Wants(nodes, n, true) then multiset{ReadCall(n)} else multiset{})
    + (if Wants(nodes, n, false) then multiset{WriteCall(n)} else multiset{})
  }

  lemma HeardTally(a: Events, b: Events, n: nat)
    requires Heard(a.nodes, b.nodes, n) && b.bhNodes == a.bhNodes && b.calls == a.calls + CallsFor(a.nodes, n)
    ensures Tally(a, b)
  {
    forall m, read
      ensures b.calls[IoCall(m, read)] + Once(Wants(b.nodes, m, read))
          == a.calls[IoCall(m, read)] + Once(Wants(a.nodes, m, read))
    {
      assert IoCall(m, read) in CallsFor(a.nodes, n) <==> m == n && Wants(a.nodes, n, read);
    }
  }

  lemma TallyDone(a: Events, b: Events)
    requires Tally(a, b) && SilentBut(b.nodes, []) && QuietBut(b.bhNodes, [])
    ensures CalledOnce(a, b)
  {
    forall n, read ensures b.calls[IoCall(n, read)] == a.calls[IoCall(n, read)] + Once(Wants(a.nodes, n, read)) {
      assert !Noisy(b.nodes, n);
      assert b.calls[IoCall(n, read)] + Once(Wants(b.nodes, n, read))
          == a.calls[IoCall(n, read)] + Once(Wants(a.nodes, n, read));
    }
    forall x ensures b.calls[BhCall(x)] == a.calls[BhCall(x)] + Once(Due(a.bhNodes, x)) {
      assert b.calls[BhCall(x)] + Once(Due(b.bhNodes, x)) == a.calls[BhCall(x)] + Once(Due(a.bhNodes, x));
    }
  }

  /** A callback that counts as progress is to be called; reading the notifier does not count. */
  ghost predicate LoudIo(nodes: map<nat, Handler>, notifier: int) {
    exists n, read :: Wants(nodes, n, read) && Counts(nodes, n, read, notifier)
  }

  predicate Counts(nodes: map<nat, Handler>, n: nat, read: bool, notifier: int) {
    n in nodes && (read ==> nodes[n].fd != notifier)
  }

  ghost predicate LoudAt(nodes: map<nat, Handler>, n: nat, notifier: int) {
    exists read :: Wants(nodes, n, read) && Counts(nodes, n, read, notifier)
  }

  lemma HeardLoud(a: map<nat, Handler>, b: map<nat, Handler>, n: nat, notifier: int)
    requires Heard(a, b, n)
    ensures LoudIo(a, notifier) <==> LoudAt(a, n, notifier) || LoudIo(b, notifier)
  {
    if m, read :| Wants(a, m, read) && Counts(a, m, read, notifier) {
      assert m == n || (Wants(b, m, read) && Counts(b, m, read, notifier));
    }
    if m, read :| Wants(b, m, read) && Counts(b, m, read, notifier) {
      assert m != n && Wants(a, m, read) && Counts(a, m, read, notifier);
    }
  }
}
