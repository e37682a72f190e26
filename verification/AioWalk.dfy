/** The handler and bottom half lists of an AioContext, walked while callbacks change them
    (aio-posix.c, async.c). */
module AioWalk {
  import opened AioEvents
  import opened Lists
  import opened NodeLists
  import opened Wrappers

  // What a callback may do. What file descriptors are ready for is up to the kernel.
  datatype Action =
    | SetFd(fd: int, ioRead: bool, ioWrite: bool)
    | BhNew
    | BhSchedule(b: nat, idle: bool)
    | BhCancel(b: nat)
    | BhDelete(b: nat)
    | Poll(ready: map<int, (bool, bool)>)

  /** The nodes of a list are those allocated, each once. */
  ghost predicate Linked(list: seq<nat>, keys: set<nat>, unused: nat) {
    && Distinct(list)
    && (forall id :: id in keys <==> id in list)
    && (forall id :: id in keys ==> id < unused)
  }

  /** Each file descriptor has at most one handler that is not deleted. */
  ghost predicate OneLive(nodes: map<nat, Handler>) {
    forall a, b :: a in nodes && b in nodes && a != b && !nodes[a].deleted && !nodes[b].deleted ==>
      nodes[a].fd != nodes[b].fd
  }

  /** Exactly the nodes deleted so far, of those still there, are marked. */
  ghost predicate Marked(nodes: map<nat, Handler>, dead: set<nat>, unused: nat) {
    && (forall id :: id in nodes ==> (nodes[id].deleted <==> id in dead))
    && (forall id :: id in dead ==> id < unused)
  }

  ghost predicate MarkedBh(nodes: map<nat, Bh>, dead: set<nat>, unused: nat) {
    && (forall id :: id in nodes ==> (nodes[id].deleted <==> id in dead))
    && (forall id :: id in dead ==> id < unused)
  }

  /** Changes to a handler other than of its descriptor or its mark. */
  lemma SameMarks(a: map<nat, Handler>, b: map<nat, Handler>, dead: set<nat>, unused: nat, n: nat)
    requires OneLive(a) && Marked(a, dead, unused) && n in a && n in b && b == a[n := b[n]]
    requires b[n].fd == a[n].fd && b[n].deleted == a[n].deleted
    ensures OneLive(b) && Marked(b, dead, unused) && b.Keys == a.Keys
  {}

  lemma MarkedMore(a: map<nat, Handler>, dead: set<nat>, unused: nat, n: nat)
    requires OneLive(a) && Marked(a, dead, unused) && n in a && n < unused
    ensures var b := a[n := a[n].(deleted := true, readable := false, writable := false)];
      OneLive(b) && Marked(b, dead + {n}, unused) && b.Keys == a.Keys
  {}

  /** What walks in progress hold is in the list. */
  ghost predicate Held(list: seq<nat>, held: seq<set<nat>>) {
    forall i, id :: 0 <= i < |held| && id in held[i] ==> id in list
  }

  lemma LinkedInsert(list: seq<nat>, keys: set<nat>, unused: nat)
    requires Linked(list, keys, unused)
    ensures Linked([unused] + list, keys + {unused}, unused + 1) && Grown(list, [unused] + list) && unused !in keys
  {}

  lemma LinkedRemove(list: seq<nat>, keys: set<nat>, unused: nat, id: nat)
    requires Linked(list, keys, unused)
    ensures Linked(Without(list, id), keys - {id}, unused)
  {}

  lemma HeldGrown(list: seq<nat>, list': seq<nat>, held: seq<set<nat>>)
    requires Held(list, held) && Grown(list, list')
    ensures Held(list', held)
  {
    forall i, id | 0 <= i < |held| && id in held[i] ensures id in list' { GrownIn(list, list', id); }
  }

  datatype Snap = Snap(handlers: seq<nat>, bhs: seq<nat>, walkingHandlers: nat, walkingBh: nat, dead: set<nat>,
                       deadBh: set<nat>, tape: nat)

  /** What any callback leaves alone: the walks in progress, and, while there are any, every
      node of the list they walk. What is deleted stays deleted. */
  ghost predicate Kept(a: Snap, b: Snap) {
    && b.walkingHandlers == a.walkingHandlers && b.walkingBh == a.walkingBh
    && (a.walkingHandlers > 0 ==> Grown(a.handlers, b.handlers))
    && (a.walkingBh > 0 ==> Grown(a.bhs, b.bhs))
    && a.dead <= b.dead && a.deadBh <= b.deadBh && b.tape <= a.tape
  }

  lemma KeptSelf(a: Snap)
    ensures Kept(a, a)
  {}

  lemma KeptDead(a: Snap, b: Snap)
    requires b == a.(handlers := b.handlers, dead := b.dead) && a.dead <= b.dead
    requires a.walkingHandlers > 0 ==> b.handlers == a.handlers
    ensures Kept(a, b)
  {}

  lemma KeptTrans(a: Snap, b: Snap, c: Snap)
    requires Kept(a, b) && Kept(b, c)
    ensures Kept(a, c)
  {
    if a.walkingHandlers > 0 { GrownTrans(a.handlers, b.handlers, c.handlers); }
    if a.walkingBh > 0 { GrownTrans(a.bhs, b.bhs, c.bhs); }
  }

  /** A walk that ends keeps what its callbacks kept; without an outer one, bottom halves may go. */
  lemma BhWalkKept(s0: Snap, s1: Snap, s2: Snap, s3: Snap)
    requires s1 == s0.(walkingBh := s0.walkingBh + 1) && Kept(s1, s2)
    requires s2.walkingBh > 0 && s3 == s2.(walkingBh := s2.walkingBh - 1, bhs := s3.bhs)
    requires s0.walkingBh > 0 ==> s3.bhs == s2.bhs
    ensures Kept(s0, s3)
  {}

  /** The scripts cancel no other bottom halves than these. */
  ghost predicate Within(tape: seq<seq<Action>>, cancelling: set<nat>) {
    forall i, j :: 0 <= i < |tape| && 0 <= j < |tape[i]| && tape[i][j].BhCancel? ==> tape[i][j].b in cancelling
  }

  lemma WithinParts(tape: seq<seq<Action>>, cancelling: set<nat>)
    requires Within(tape, cancelling) && tape != []
    ensures Within([tape[0]], cancelling) && Within(tape[1..], cancelling)
  {}

  lemma WithinAt(script: seq<Action>, cancelling: set<nat>, i: nat)
    requires Within([script], cancelling) && i < |script|
    ensures script[i].BhCancel? ==> script[i].b in cancelling
  {
    assert [script][0][i] == script[i];
  }

  class AioContext {
    var handlers: seq<nat>
    var nodes: map<nat, Handler>
    var bhs: seq<nat>
    var bhNodes: map<nat, Bh>
    var walkingHandlers: nat
    var walkingBh: nat
    var unused: nat                       // names not yet given to a node
    var tape: seq<seq<Action>>            // what the callbacks to come will do, one entry a call
    ghost var dead: set<nat>              // handlers deleted so far
    ghost var deadBh: set<nat>
    ghost var held: seq<set<nat>>         // nodes each handler walk in progress holds
    ghost var heldBh: seq<set<nat>>
    ghost var calls: multiset<Call>       // what has been called so far, or has gone
    ghost const cancelling: set<nat>      // the bottom halves that scripts may cancel
    const notifier: int                   // the descriptor of ctx->notifier

    ghost predicate ValidHandlers()
      reads `handlers, `nodes, `unused, `dead, `walkingHandlers, `held
    {
      && Linked(handlers, nodes.Keys, unused) && OneLive(nodes) && Marked(nodes, dead, unused)
      && |held| == walkingHandlers && Held(handlers, held)
    }

    ghost predicate ValidBhs()
      reads `bhs, `bhNodes, `unused, `deadBh, `walkingBh, `heldBh
    {
      && Linked(bhs, bhNodes.Keys, unused) && MarkedBh(bhNodes, deadBh, unused)
      && |heldBh| == walkingBh && Held(bhs, heldBh)
    }

    ghost predicate Valid()
      reads this
    {
      ValidHandlers() && ValidBhs() && Within(tape, cancelling) && OnlyThese(calls, cancelling)
    }

    constructor (tape: seq<seq<Action>>, notifier: int, ghost cancelling: set<nat>)
      requires Within(tape, cancelling)
      ensures Valid() && this.cancelling == cancelling && this.notifier == notifier && handlers == [] && bhs == []
      ensures walkingHandlers == walkingBh == 0
    {
      handlers, nodes, bhs, bhNodes := [], map[], [], map[];
      walkingHandlers, walkingBh, unused := 0, 0, 0;
      this.tape, this.notifier, this.cancelling := tape, notifier, cancelling;
      dead, deadBh, held, heldBh, calls := {}, {}, [], [], multiset{};
    }

    ghost function Now(): Snap
      reads this
    {
      Snap(handlers, bhs, walkingHandlers, walkingBh, dead, deadBh, |tape|)
    }

    ghost function EventsNow(): Events
      reads this
    {
      Events(nodes, bhNodes, calls, dead, deadBh)
    }

    /** find_aio_handler. */
    method FindAioHandler(fd: int) returns (node: Option<nat>)
      requires Valid()
      ensures node.Some? ==> node.value in nodes && nodes[node.value].fd == fd && !nodes[node.value].deleted
      ensures node.None? ==> forall id :: id in nodes && !nodes[id].deleted ==> nodes[id].fd != fd
    {
      for i := 0 to |handlers|
        invariant forall j :: 0 <= j < i ==> nodes[handlers[j]].deleted || nodes[handlers[j]].fd != fd
      {
        if nodes[handlers[i]].fd == fd && !nodes[handlers[i]].deleted {
          return Some(handlers[i]);
        }
      }
      node := None;
    }

    /** Taking a deleted handler out of the list for good. */
    method RemoveHandler(node: nat)
      requires Valid() && node in nodes && walkingHandlers == 0
      modifies `handlers, `nodes, `dead
      ensures Valid() && handlers == Without(old(handlers), node) && nodes == old(nodes) - {node}
      ensures dead == old(dead) + {node}
    {
      hide AioContext.ValidBhs, Within, OnlyThese, Without;
      LinkedRemove(handlers, nodes.Keys, unused, node);
      handlers := Without(handlers, node);
      nodes := nodes - {node};
      dead := dead + {node};
    }

    /** Deleting a handler: at once when no walk is in progress, by a mark otherwise. */
    method DeleteHandler(node: nat)
      requires Valid() && node in nodes && !nodes[node].deleted
      modifies `handlers, `nodes, `dead
      ensures Valid() && Kept(old(Now()), Now()) && dead == old(dead) + {node}
      ensures node in nodes ==> nodes[node].deleted && nodes[node].fd == old(nodes)[node].fd
      ensures !Noisy(nodes, node)
      ensures Others(old(nodes), nodes, node) && (node in nodes <==> walkingHandlers > 0)
    {
      hide AioContext.ValidBhs, Within, OnlyThese;
      assert node < unused;
      hide Linked, Held, OneLive, Marked, Kept, Without;
      if walkingHandlers > 0 {
        MarkedMore(nodes, dead, unused, node);
        nodes := nodes[node := nodes[node].(deleted := true, readable := false, writable := false)];
        dead := dead + {node};
      } else {
        RemoveHandler(node);
      }
      KeptDead(old(Now()), Now());
    }

    /** A new handler goes to the head of the list. */
    method InsertHandler(fd: int, ioRead: bool, ioWrite: bool)
      requires Valid() && forall id :: id in nodes && !nodes[id].deleted ==> nodes[id].fd != fd
      modifies `handlers, `nodes, `unused
      ensures Valid() && Kept(old(Now()), Now()) && unused == old(unused) + 1
      ensures nodes == old(nodes)[old(unused) := Handler(fd, ioRead, ioWrite, false, false, false)]
      ensures old(unused) !in old(nodes)
    {
      hide Linked, Held, OneLive, Marked, MarkedBh;
      LinkedInsert(handlers, nodes.Keys, unused);
      LinkedMore(bhs, bhNodes.Keys, unused);
      HeldGrown(handlers, [unused] + handlers, held);
      LiveInsert(nodes, dead, bhNodes, deadBh, unused, Handler(fd, ioRead, ioWrite, false, false, false));
      handlers := [unused] + handlers;
      nodes := nodes[unused := Handler(fd, ioRead, ioWrite, false, false, false)];
      unused := unused + 1;
      assert nodes.Keys == old(nodes).Keys + {old(unused)};
    }

    /** aio_set_fd_handler: afterwards the descriptor has a live handler with just these callbacks if
        any was given, and none otherwise. */
    method SetFdHandler(fd: int, ioRead: bool, ioWrite: bool)
      requires Valid()
      modifies `handlers, `nodes, `dead, `unused, `calls
      ensures Valid() && Kept(old(Now()), Now()) && Served(old(EventsNow()), EventsNow())
      ensures ioRead || ioWrite <==> HasLive(nodes, fd)
      ensures ioRead || ioWrite ==> HandledBy(nodes, fd, ioRead, ioWrite)
      ensures OtherFds(old(nodes), nodes, fd)
      ensures walkingHandlers == 0 ==> NoneMarked(old(nodes), nodes)
    {
      hide Linked, Held, Served, MarkedBh, OnlyThese, HasLive, HandledBy, OtherFds, OneLive, Marked, Within, Others;
      hide NoneMarked;
      var node := FindAioHandler(fd);
      ServedSelf(EventsNow());
      if !ioRead && !ioWrite {
        if node.Some? {
          DeleteHandler(node.value);
          HeardServed(old(EventsNow()), EventsNow(), node.value);
          FdDeleted(old(nodes), nodes, node.value, fd);
        } else {
          FdAbsent(nodes, fd);
        }
      } else if node.None? {
        InsertHandler(fd, ioRead, ioWrite);
        NewServed(old(EventsNow()), EventsNow(), old(unused));
        FdInserted(old(nodes), nodes, old(unused), nodes[old(unused)]);
      } else {
        SetCallbacks(node.value, ioRead, ioWrite);
        FdChanged(old(nodes), nodes, node.value, ioRead, ioWrite);
      }
    }

    method SetCallbacks(node: nat, ioRead: bool, ioWrite: bool)
      requires Valid() && node in nodes
      modifies `nodes, `calls
      ensures Valid() && Now() == old(Now()) && Served(old(EventsNow()), EventsNow())
      ensures nodes == old(nodes)[node := old(nodes)[node].(ioRead := ioRead, ioWrite := ioWrite)]
    {
      hide Linked, Held, Served, MarkedBh, OnlyThese, OneLive, Marked, Withdrawn, Within;
      SameMarks(nodes, nodes[node := nodes[node].(ioRead := ioRead, ioWrite := ioWrite)], dead, unused, node);
      nodes := nodes[node := nodes[node].(ioRead := ioRead, ioWrite := ioWrite)];
      WithdrawnOnly(old(nodes), nodes);
      OnlyMore(calls, cancelling, multiset(Withdrawn(old(nodes), nodes)));
      calls := calls + multiset(Withdrawn(old(nodes), nodes));
      CallbacksServed(old(EventsNow()), EventsNow(), node);
    }

    method NewBh()
      requires Valid()
      modifies `bhs, `bhNodes, `unused
      ensures Valid() && Kept(old(Now()), Now()) && Served(old(EventsNow()), EventsNow())
      ensures bhNodes == old(bhNodes)[old(unused) := Bh(false, false, false)] && old(unused) !in old(bhNodes)
    {
      hide Within, OnlyThese, OneLive;
      LinkedInsert(bhs, bhNodes.Keys, unused);
      LinkedMore(handlers, nodes.Keys, unused);
      HeldGrown(bhs, [unused] + bhs, heldBh);
      assert unused !in bhNodes.Keys;
      hide Linked, Held;
      bhs := [unused] + bhs;
      bhNodes := bhNodes[unused := Bh(false, false, false)];
      unused := unused + 1;
      assert bhNodes.Keys == old(bhNodes).Keys + {old(unused)};
    }

    lemma BhMark(b: nat)
      requires ValidBhs() && b in bhNodes
      ensures bhNodes[b].deleted <==> b in deadBh
    {}

    /** Changing the flags of a bottom half. */
    method SetBh(b: nat, bh: Bh)
      requires Valid() && b in bhNodes && (bhNodes[b].deleted ==> bh.deleted)
      modifies `bhNodes, `deadBh
      ensures Valid() && Kept(old(Now()), Now()) && bhNodes == old(bhNodes)[b := bh]
      ensures deadBh == if bh.deleted then old(deadBh) + {b} else old(deadBh)
    {
      hide AioContext.ValidHandlers, Within, OnlyThese;
      assert b < unused && bhNodes.Keys == bhNodes.Keys + {b};
      hide Linked, Held;
      bhNodes := bhNodes[b := bh];
      if bh.deleted { deadBh := deadBh + {b}; }
    }

    /** qemu_bh_schedule and qemu_bh_schedule_idle, as far as a callback goes. */
    method ScheduleBh(b: nat, idle: bool)
      requires Valid() && b in bhNodes
      modifies `bhNodes, `deadBh
      ensures Valid() && Kept(old(Now()), Now()) && Served(old(EventsNow()), EventsNow())
      ensures b !in deadBh ==> Due(bhNodes, b) && bhNodes[b].idle == idle
      ensures bhNodes == old(bhNodes)[b := bhNodes[b]] && deadBh == old(deadBh)
    {
      hide Linked, OneLive, Marked, MarkedBh, Held, Within, OnlyThese, Kept, Served;
      BhMark(b);
      SetBh(b, bhNodes[b].(scheduled := true, idle := idle));
      FlagsServed(old(EventsNow()), EventsNow(), b);
    }

    /** qemu_bh_cancel. */
    method CancelBh(b: nat)
      requires Valid() && b in bhNodes && b in cancelling
      modifies `bhNodes, `deadBh, `calls
      ensures Valid() && Kept(old(Now()), Now()) && Served(old(EventsNow()), EventsNow()) && !Due(bhNodes, b)
      ensures bhNodes == old(bhNodes)[b := bhNodes[b]] && bhNodes[b].deleted == old(bhNodes)[b].deleted
    {
      hide Linked, OneLive, Marked, MarkedBh, Held, Within, OnlyThese, Kept, Served;
      SetBh(b, bhNodes[b].(scheduled := false));
      OnlyMore(calls, cancelling, multiset{Cancelled(b)});
      calls := calls + multiset{Cancelled(b)};
      CancelServed(old(EventsNow()), EventsNow(), b);
    }

    /** qemu_bh_delete. */
    method DeleteBh(b: nat)
      requires Valid() && b in bhNodes
      modifies `bhNodes, `deadBh
      ensures Valid() && Kept(old(Now()), Now()) && Served(old(EventsNow()), EventsNow()) && b in deadBh
      ensures bhNodes == old(bhNodes)[b := bhNodes[b]] && bhNodes[b].deleted && !bhNodes[b].scheduled
    {
      hide Linked, OneLive, Marked, MarkedBh, Held, Within, OnlyThese, Kept, Served;
      SetBh(b, bhNodes[b].(scheduled := false, deleted := true));
      FlagsServed(old(EventsNow()), EventsNow(), b);
    }

    /** bh->cb: the bottom half is there, and not deleted. */
    method CallBh(b: nat)
      requires Valid() && b in bhs && b !in deadBh
      modifies this
      ensures Valid() && Kept(old(Now()), Now()) && held == old(held) && heldBh == old(heldBh) && |tape| <= old(|tape|)
      ensures Served(old(EventsNow()), EventsNow()) && calls[BhCall(b)] > old(calls[BhCall(b)])
      ensures old(tape) != [] ==> |tape| < old(|tape|)
      ensures old(tape) == [] ==> Now() == old(Now()) && nodes == old(nodes) && bhNodes == old(bhNodes)
      ensures old(tape) == [] ==> calls == old(calls) + multiset{BhCall(b)}
      decreases |tape|, 1, 1
    {
      Invoke(BhCall(b));
    }

    /** node->io_read or node->io_write: the handler is there, and not deleted. */
    method CallIo(node: nat, read: bool)
      requires Valid() && node in handlers && node !in dead
      modifies this
      ensures Valid() && Kept(old(Now()), Now()) && held == old(held) && heldBh == old(heldBh) && |tape| <= old(|tape|)
      ensures Served(old(EventsNow()), EventsNow())
      ensures calls[IoCall(node, read)] > old(calls)[IoCall(node, read)]
      ensures old(tape) != [] ==> |tape| < old(|tape|)
      ensures old(tape) == [] ==> Now() == old(Now()) && nodes == old(nodes) && bhNodes == old(bhNodes)
      ensures old(tape) == [] ==> calls == old(calls) + multiset{IoCall(node, read)}
      decreases |tape|, 1, 1
    {
      Invoke(IoCall(node, read));
    }

    method Invoke(ghost call: Call)
      requires Valid() && !call.Cancelled?
      modifies this
      ensures Valid() && Kept(old(Now()), Now()) && held == old(held) && heldBh == old(heldBh) && |tape| <= old(|tape|)
      ensures Served(old(EventsNow()), EventsNow()) && calls[call] > old(calls)[call]
      ensures old(tape) != [] ==> |tape| < old(|tape|)
      ensures old(tape) == [] ==> Now() == old(Now()) && nodes == old(nodes) && bhNodes == old(bhNodes)
      ensures old(tape) == [] ==> calls == old(calls) + multiset{call}
      decreases |tape|, 1, 0
    {
      hide Linked, OneLive, Marked, MarkedBh, Held, Within, OnlyThese, Kept, Quieter, NoneForgotten, CbKept, IoKept;
      ghost var e0 := EventsNow();
      OnlyMore(calls, cancelling, multiset{call});
      calls := calls + multiset{call};
      ghost var e1 := EventsNow();
      CallLogged(e0, e1);
      Callback();
      ServedTrans(e0, e1, EventsNow());
      assert old(calls)[call] < e1.calls[call] <= calls[call];
    }

    method Callback()
      requires Valid()
      modifies this
      ensures Valid() && Kept(old(Now()), Now()) && held == old(held) && heldBh == old(heldBh) && |tape| <= old(|tape|)
      ensures Served(old(EventsNow()), EventsNow())
      ensures old(tape) != [] ==> |tape| < old(|tape|)
      ensures old(tape) != [] && old(tape)[0] != [] ==> Ran(EventsNow(), old(tape)[0][|old(tape)[0]| - 1])
      ensures old(tape) == [] ==> Now() == old(Now()) && EventsNow() == old(EventsNow())
      decreases |tape|, 0
    {
      hide Linked, OneLive, Marked, MarkedBh, Held, Within, OnlyThese, Quieter, Logged, NoneForgotten, CbKept, IoKept;
      ServedSelf(EventsNow());
      if tape == [] {
        return;
      }
      WithinParts(tape, cancelling);
      var script := tape[0];
      ghost var s0 := Now();
      tape := tape[1..];
      ghost var s1 := Now();
      RunScript(script);
      KeptTrans(s0, s1, Now());
    }

    /** What a callback does. */
    method RunScript(script: seq<Action>)
      requires Valid() && Within([script], cancelling)
      modifies this
      ensures Valid() && Kept(old(Now()), Now()) && held == old(held) && heldBh == old(heldBh) && |tape| <= old(|tape|)
      ensures Served(old(EventsNow()), EventsNow()) && (script != [] ==> Ran(EventsNow(), script[|script| - 1]))
      decreases |tape|, 9
    {
      hide Linked, OneLive, Marked, MarkedBh, Held, Within, OnlyThese, HasLive, Quieter, Logged, NoneForgotten;
      hide CbKept, IoKept;
      ServedSelf(EventsNow());
      for i := 0 to |script|
        invariant Valid() && Kept(old(Now()), Now()) && held == old(held) && heldBh == old(heldBh)
        invariant Served(old(EventsNow()), EventsNow()) && (i > 0 ==> Ran(EventsNow(), script[i - 1]))
      {
        ghost var s1, e1 := Now(), EventsNow();
        WithinAt(script, cancelling, i);
        RunAction(script[i]);
        KeptTrans(old(Now()), s1, Now());
        ServedTrans(old(EventsNow()), e1, EventsNow());
      }
    }

    method RunAction(action: Action)
      requires Valid() && (action.BhCancel? ==> action.b in cancelling)
      modifies this
      ensures Valid() && Kept(old(Now()), Now()) && held == old(held) && heldBh == old(heldBh) && |tape| <= old(|tape|)
      ensures Served(old(EventsNow()), EventsNow()) && ActionDone(old(EventsNow()), EventsNow(), action)
      decreases |tape|, 8
    {
      hide AioContext.Valid, Kept, HasLive, SilentBut, Served, AllSettled, AllCalled, Due, HandledBy, OtherFds;
      hide AllHeard, NoneMarked, AllReported, Hit, CalledOnce, WillCall;
      KeptSelf(Now());
      ServedSelf(EventsNow());
      match action
      case SetFd(fd, r, w) => SetFdHandler(fd, r, w);
      case BhNew =>
        NewBh();
        assert NewIn(old(bhNodes), bhNodes, old(unused));
      case BhSchedule(b, idle) =>
        if b in bhNodes { ScheduleBh(b, idle); }
      case BhCancel(b) =>
        if b in bhNodes { CancelBh(b); } else { NotThere(bhNodes, b); }
      case BhDelete(b) =>
        if b in bhNodes { DeleteBh(b); }
      case Poll(ready) => var _ := AioPoll(ready);
    }

    lemma BhThere(b: nat)
      requires ValidBhs() && b in bhs
      ensures b in bhNodes && (bhNodes[b].deleted <==> b in deadBh)
    {}

    lemma HandlerThere(node: nat)
      requires ValidHandlers() && node in handlers
      ensures node in nodes && (nodes[node].deleted <==> node in dead)
    {}

    /** aio_bh_poll, for one bottom half. What follows it in the list stays what follows it. */
    method PollBh(b: nat) returns (progress: bool)
      requires Valid() && b in bhs && walkingBh > 0
      modifies this
      ensures Valid() && Kept(old(Now()), Now()) && held == old(held) && heldBh == old(heldBh) && |tape| <= old(|tape|)
      ensures Served(old(EventsNow()), EventsNow())
      ensures progress <==> old(Due(bhNodes, b)) && !old(bhNodes)[b].idle
      ensures old(Due(bhNodes, b)) ==> Settled(old(EventsNow()), EventsNow(), b)
      ensures if old(Due(bhNodes, b)) then old(tape) != [] ==> |tape| < old(|tape|)
        else Now() == old(Now()) && bhNodes == old(bhNodes)
      ensures old(tape) == [] ==> Now() == old(Now()) && nodes == old(nodes) && Polled(old(bhNodes), bhNodes, b)
      ensures old(tape) == [] ==> Tally(old(EventsNow()), EventsNow())
      decreases |tape|, 2
    {
      hide Linked, OneLive, Marked, MarkedBh, Held, Within, OnlyThese, Kept, Quieter, Logged, NoneForgotten;
      hide CbKept, IoKept;
      BhThere(b);
      progress := false;
      ghost var s0, e0 := Now(), EventsNow();
      KeptSelf(s0);
      ServedSelf(e0);
      if !bhNodes[b].deleted && bhNodes[b].scheduled {
        progress := !bhNodes[b].idle;
        SetBh(b, bhNodes[b].(scheduled := false, idle := false));
        ghost var s1 := Now();
        BhThere(b);
        ghost var e1 := EventsNow();
        CallBh(b);
        KeptTrans(s0, s1, Now());
        TakenPolled(e0, e1, EventsNow(), b);
      }
      if old(tape) == [] { PolledTally(e0, EventsNow(), b); }
    }

    /** The removal of deleted bottom halves, once no walk is left. */
    method RemoveDeletedBhs()
      requires Valid() && walkingBh == 0
      modifies `bhs, `bhNodes
      ensures Valid() && bhNodes == LiveBhs(old(bhNodes))
    {
      hide AioContext.ValidHandlers, Within, OnlyThese, LiveBhs;
      var i := 0;
      while i < |bhs|
        invariant Valid() && 0 <= i <= |bhs| && forall j :: 0 <= j < i ==> bhs[j] in bhNodes && !bhNodes[bhs[j]].deleted
        invariant LiveBhs(bhNodes) == LiveBhs(old(bhNodes))
        decreases |bhs| - i
      {
        if bhNodes[bhs[i]].deleted {
          LinkedCut(bhs, bhNodes.Keys, unused, i);
          DropDeleted(bhNodes, bhs[i]);
          bhNodes := bhNodes - {bhs[i]};
          bhs := bhs[..i] + bhs[i + 1..];
        } else {
          i := i + 1;
        }
      }
      AllLive(bhNodes);
    }

    /** Holding other bottom halves in the innermost walk. */
    ghost method HoldBhs(b: nat, next: Option<nat>)
      requires Valid() && walkingBh > 0 && b in bhs && next == Next(bhs, b)
      modifies `heldBh
      ensures Valid() && |heldBh| == |old(heldBh)| && heldBh[..|heldBh| - 1] == old(heldBh)[..|heldBh| - 1]
      ensures Distinct(bhs)
    {
      if next.Some? { FromNext(bhs, b); }
      heldBh := heldBh[|heldBh| - 1 := if next.None? then {b} else {b, next.value}];
    }

    /** After a callback what follows a bottom half is what followed it before. */
    lemma NextStays(s: Snap, b: nat, next: Option<nat>)
      requires ValidBhs() && Kept(s, Now()) && s.walkingBh > 0 && Distinct(s.bhs) && b in s.bhs
      requires next == Next(s.bhs, b)
      ensures From(s.bhs, b) != []
      ensures next.Some? ==> next.value in bhs && |From(bhs, next.value)| < |From(s.bhs, b)|
      ensures After(s.bhs, b) == if next.Some? then From(bhs, next.value) else []
    {
      FromIn(s.bhs, b);
      if next.Some? {
        FromNext(s.bhs, b);
        GrownIn(s.bhs, bhs, next.value);
        FromGrown(s.bhs, bhs, next.value);
      }
    }

    /** One round of aio_bh_poll's loop: the bottom half that follows is looked up before the callback
        runs, and still follows it afterwards. */
    method BhRound(b: nat) returns (progress: bool, next: Option<nat>)
      requires Valid() && b in bhs && walkingBh > 0
      modifies this
      ensures Valid() && Kept(old(Now()), Now()) && held == old(held) && |tape| <= old(|tape|)
      ensures |heldBh| == |old(heldBh)| && heldBh[..|heldBh| - 1] == old(heldBh)[..|heldBh| - 1]
      ensures Served(old(EventsNow()), EventsNow())
      ensures old(Due(bhNodes, b)) ==> Settled(old(EventsNow()), EventsNow(), b)
      ensures From(old(bhs), b) != []
      ensures next.Some? ==> next.value in bhs && |From(bhs, next.value)| < |From(old(bhs), b)|
      ensures After(old(bhs), b) == if next.Some? then From(bhs, next.value) else []
      ensures progress <==> old(Due(bhNodes, b)) && !old(bhNodes)[b].idle
      ensures old(tape) == [] ==> nodes == old(nodes) && Polled(old(bhNodes), bhNodes, b)
      ensures old(tape) == [] ==> Tally(old(EventsNow()), EventsNow())
      ensures old(tape) == [] && old(QuietBut(bhNodes, From(bhs, b))) ==>
        QuietBut(bhNodes, if next.Some? then From(bhs, next.value) else [])
      decreases |tape|, 3, 0
    {
      hide AioContext.ValidHandlers, Linked, MarkedBh, Held, Within, OnlyThese, From, Next, Kept, Distinct, QuietBut;
      hide After, Polled, Served, Settled, Tally;
      next := Next(bhs, b);
      HoldBhs(b, next);
      ghost var s0, list := Now(), bhs;
      progress := PollBh(b);
      NextStays(s0, b, next);
      if old(tape) == [] && old(QuietBut(bhNodes, From(bhs, b))) {
        QuietStep(old(bhNodes), bhNodes, list, b, next);
      }
    }

    method StartBhWalk()
      requires Valid()
      modifies `walkingBh, `heldBh
      ensures Valid() && walkingBh == old(walkingBh) + 1 && heldBh == old(heldBh) + [{}]
    {
      walkingBh := walkingBh + 1;
      heldBh := heldBh + [{}];
    }

    method EndBhWalk()
      requires Valid() && walkingBh > 0
      modifies `walkingBh, `heldBh
      ensures Valid() && walkingBh == old(walkingBh) - 1 && heldBh == old(heldBh)[..|old(heldBh)| - 1]
    {
      walkingBh := walkingBh - 1;
      heldBh := heldBh[..|heldBh| - 1];
    }

    /** aio_bh_poll: callbacks may do anything, and the walk is not disturbed. Every bottom half
        due on entry has been called by then, by this walk or by one inside a callback, or it was
        cancelled, or is deleted; cancelled are only those that some script cancels. When no
        outer walk is in progress the deleted bottom halves are gone afterwards; and when the
        callbacks do nothing, no bottom half is left scheduled. */
    method AioBhPoll() returns (progress: bool)
      requires Valid()
      modifies this
      ensures Valid() && Kept(old(Now()), Now()) && held == old(held) && heldBh == old(heldBh) && |tape| <= old(|tape|)
      ensures Served(old(EventsNow()), EventsNow())
      ensures AllSettled(old(EventsNow()), EventsNow()) && AllCalled(old(EventsNow()), EventsNow(), cancelling)
      ensures walkingBh == 0 ==> forall b :: b in bhNodes ==> !bhNodes[b].deleted
      ensures old(tape) == [] ==> QuietBut(bhNodes, []) && nodes == old(nodes) && Tally(old(EventsNow()), EventsNow())
      ensures old(tape) == [] ==> (progress <==> Loud(old(bhNodes)))
      decreases |tape|, 4
    {
      hide AioContext.ValidHandlers, Linked, MarkedBh, Held, Within, OnlyThese, Kept, QuietBut, Served, SettledBut;
      hide AllSettled, AllCalled, Tally, Loud;
      ghost var s0, e0 := Now(), EventsNow();
      StartBhWalk();
      ghost var s1 := Now();
      progress := WalkBhs();
      ghost var s3, e3 := Now(), EventsNow();
      EndBhWalk();
      if old(tape) == [] { LiveTally(e0, e3); }
      if walkingBh == 0 {
        StillQuiet(bhNodes);
        RemoveDeletedBhs();
      }
      BhWalkKept(s0, s1, s3, Now());
      WalkServed(e0, e3, EventsNow());
      NotCancelled(e0, EventsNow(), cancelling);
    }

    /** The loop of aio_bh_poll. */
    method WalkBhs() returns (progress: bool)
      requires Valid() && walkingBh > 0
      modifies this
      ensures Valid() && Kept(old(Now()), Now()) && held == old(held) && |tape| <= old(|tape|)
      ensures |heldBh| == |old(heldBh)| && heldBh[..|heldBh| - 1] == old(heldBh)[..|heldBh| - 1]
      ensures Served(old(EventsNow()), EventsNow()) && SettledBut(old(EventsNow()), EventsNow(), [])
      ensures old(tape) == [] ==> QuietBut(bhNodes, []) && nodes == old(nodes) && Tally(old(EventsNow()), EventsNow())
      ensures old(tape) == [] ==> (progress <==> Loud(old(bhNodes)))
      decreases |tape|, 3, 1
    {
      hide AioContext.ValidHandlers, Linked, MarkedBh, Held, Within, OnlyThese, From, Next, Kept, Distinct, QuietBut;
      hide After, Polled, Served, Settled, SettledBut, Tally, Loud;
      ghost var s0, e0 := Now(), EventsNow();
      ServedSelf(e0);
      KeptSelf(s0);
      var bh := First(bhs);
      progress := false;
      AllAhead();
      TallySelf(e0);
      while bh.Some?
        invariant Valid() && Kept(s0, Now()) && held == old(held) && |tape| <= old(|tape|)
        invariant |heldBh| == |old(heldBh)| && heldBh[..|heldBh| - 1] == old(heldBh)[..|heldBh| - 1]
        invariant bh.Some? ==> bh.value in bhs
        invariant Served(e0, EventsNow()) && SettledBut(e0, EventsNow(), if bh.Some? then From(bhs, bh.value) else [])
        invariant old(tape) == [] ==> QuietBut(bhNodes, if bh.Some? then From(bhs, bh.value) else [])
        invariant old(tape) == [] ==> nodes == old(nodes) && Tally(e0, EventsNow())
        invariant old(tape) == [] ==> (progress || Loud(bhNodes) <==> Loud(e0.bhNodes))
        decreases if bh.Some? then |From(bhs, bh.value)| else 0
      {
        ghost var s1, e1, at := Now(), EventsNow(), bh.value;
        var p;
        p, bh := BhRound(bh.value);
        progress := progress || p;
        SettledStep(e0, e1, EventsNow(), s1.bhs, at);
        ServedTrans(e0, e1, EventsNow());
        if old(tape) == [] {
          TallyTrans(e0, e1, EventsNow());
          PolledLoud(e1.bhNodes, bhNodes, at);
        }
        KeptTrans(s0, s1, Now());
      }
      NotLoud(bhNodes);
    }

    lemma AllAhead()
      requires ValidBhs()
      ensures QuietBut(bhNodes, if bhs == [] then [] else From(bhs, bhs[0]))
      ensures SettledBut(EventsNow(), EventsNow(), if bhs == [] then [] else From(bhs, bhs[0]))
    {}

    method StartVisit(node: nat)
      requires Valid() && node in handlers
      modifies `walkingHandlers, `held
      ensures Valid() && walkingHandlers == old(walkingHandlers) + 1 && held == old(held) + [{node}]
    {
      walkingHandlers := walkingHandlers + 1;
      held := held + [{node}];
    }

    method EndVisit()
      requires Valid() && walkingHandlers > 0
      modifies `walkingHandlers, `held
      ensures Valid() && walkingHandlers == old(walkingHandlers) - 1 && held == old(held)[..|old(held)| - 1]
    {
      walkingHandlers := walkingHandlers - 1;
      held := held[..|held| - 1];
    }

    /** Changing what a handler's descriptor is ready for. */
    method SetRevents(node: nat, readable: bool, writable: bool)
      requires Valid() && node in nodes
      modifies `nodes
      ensures Valid() && nodes == old(nodes)[node := old(nodes)[node].(readable := readable, writable := writable)]
    {
      hide Linked, Held, MarkedBh, OneLive, Marked, Within, OnlyThese;
      SameMarks(nodes, nodes[node := nodes[node].(readable := readable, writable := writable)], dead, unused, node);
      nodes := nodes[node := nodes[node].(readable := readable, writable := writable)];
    }

    /** The callbacks of one handler. The first may delete the handler, or poll. */
    method CallHandler(node: nat) returns (progress: bool)
      requires Valid() && node in handlers && walkingHandlers > 0
      modifies this
      ensures Valid() && Kept(old(Now()), Now()) && held == old(held) && heldBh == old(heldBh) && |tape| <= old(|tape|)
      ensures Served(old(EventsNow()), EventsNow()) && node in handlers
      ensures HandlerDone(old(EventsNow()), EventsNow(), node, progress, notifier)
      ensures if old(Wanted(nodes, node)) then old(tape) != [] ==> |tape| < old(|tape|)
        else Now() == old(Now()) && calls == old(calls)
      ensures old(tape) == [] ==>
        Now() == old(Now()) && HandlerQuiet(old(EventsNow()), EventsNow(), node, progress, notifier)
      decreases |tape|, 4
    {
      hide AioContext.Valid, Kept, Served, ServedBut, HandlerDone, HandlerQuiet, Wants, Wanted, HasCb, Heard;
      HandlerLive(node);
      ghost var e := EventsNow();
      var fd, revIn, revOut := nodes[node].fd, nodes[node].readable, nodes[node].writable;
      SetRevents(node, false, false);
      ghost var s0, e0 := Now(), EventsNow();
      EventsTaken(e, e0, node);
      var read := CallIf(node, revIn, true);
      ghost var s1, e1 := Now(), EventsNow();
      var write := CallIf(node, revOut, false);
      progress := (read && fd != notifier) || write;
      KeptTrans(s0, s1, Now());
      HandlerServed(e, e0, e1, EventsNow(), node, read, write);
      HandlerIsDone(e, e0, e1, EventsNow(), node, read, write, notifier);
      if old(tape) == [] { HandlerIsQuiet(e, e0, EventsNow(), node, read, write, notifier); }
    }

    lemma HandlerLive(node: nat)
      requires Valid() && node in handlers
      ensures node in nodes
    {}

    /** One callback of a handler, if its event was reported and it is there to be called. */
    method CallIf(node: nat, reported: bool, read: bool) returns (called: bool)
      requires Valid() && node in handlers && walkingHandlers > 0
      modifies this
      ensures Valid() && Kept(old(Now()), Now()) && held == old(held) && heldBh == old(heldBh) && |tape| <= old(|tape|)
      ensures Served(old(EventsNow()), EventsNow()) && node in handlers && walkingHandlers > 0
      ensures called <==> reported && old(HasCb(nodes, node, read))
      ensures called ==> calls[IoCall(node, read)] > old(calls)[IoCall(node, read)]
      ensures if called then old(tape) != [] ==> |tape| < old(|tape|)
        else Now() == old(Now()) && EventsNow() == old(EventsNow()) && tape == old(tape)
      ensures old(tape) == [] ==> Now() == old(Now()) && tape == [] && nodes == old(nodes) && bhNodes == old(bhNodes)
      ensures old(tape) == [] && called ==> calls == old(calls) + multiset{IoCall(node, read)}
      decreases |tape|, 3
    {
      hide Linked, OneLive, Marked, MarkedBh, Held, Within, OnlyThese, Served;
      HandlerThere(node);
      ServedSelf(EventsNow());
      called := reported && HasCb(nodes, node, read);
      if called {
        ghost var s0 := Now();
        CallIo(node, read);
        StillThere(s0, node);
      }
    }

    lemma StillThere(s: Snap, node: nat)
      requires Kept(s, Now()) && s.walkingHandlers > 0 && node in s.handlers
      ensures node in handlers
    {
      GrownIn(s.handlers, handlers, node);
    }

    /** One round of aio_dispatch's loop: the node that follows is in the list when the round is
        over, also when this one was removed, and less of the list is left. */
    method Visit(node: nat) returns (progress: bool, next: Option<nat>)
      requires Valid() && node in handlers
      modifies this
      ensures Valid() && Kept(old(Now()), Now()) && held == old(held) && heldBh == old(heldBh) && |tape| <= old(|tape|)
      ensures Served(old(EventsNow()), EventsNow())
      ensures From(old(handlers), node) != []
      ensures next.Some? ==> next.value in handlers && |From(handlers, next.value)| < |From(old(handlers), node)|
      ensures !Noisy(nodes, node)
      ensures After(old(handlers), node) == if next.Some? then From(handlers, next.value) else []
      ensures walkingHandlers == 0 && node in nodes ==> !nodes[node].deleted
      ensures old(tape) == [] ==> bhNodes == old(bhNodes) && Tally(old(EventsNow()), EventsNow())
      ensures old(tape) == [] ==> (LoudIo(old(nodes), notifier) <==> progress || LoudIo(nodes, notifier))
      decreases |tape|, 5
    {
      hide Linked, OneLive, Marked, MarkedBh, Held, Within, OnlyThese, Kept, From, Next, Distinct, After;
      hide Served, Tally, LoudIo, LoudAt, CallsFor, Wanted, Wants, Heard;
      ghost var s0, e0 := Now(), EventsNow();
      StartVisit(node);
      ghost var s1 := Now();
      progress := CallHandler(node);
      HandlerThere(node);
      next := Next(handlers, node);
      ghost var s2, e2 := Now(), EventsNow();
      ListsDistinct();
      EndVisit();
      if walkingHandlers == 0 && nodes[node].deleted {
        RemoveHandler(node);
        RemovedServed(e2, EventsNow(), node);
        ServedTrans(e0, e2, EventsNow());
      }
      if old(tape) == [] {
        HeardOn(e0.nodes, e2.nodes, nodes, node);
        HeardTally(e0, EventsNow(), node);
        HeardLoud(e0.nodes, nodes, node, notifier);
      }
      ListsDistinct();
      VisitKept(s0, s1, s2, Now(), node, next);
    }

    lemma ListsDistinct()
      requires ValidHandlers()
      ensures Distinct(handlers)
    {}

    lemma AllHandlersAhead()
      requires ValidHandlers()
      ensures SilentBut(nodes, if handlers == [] then [] else From(handlers, handlers[0]))
    {}

    /** aio_dispatch: callbacks may do anything, and the walk is not disturbed. Whatever they do,
        every event that was reported has been taken, and every bottom half due on entry settled. */
    method AioDispatch() returns (progress: bool)
      requires Valid()
      modifies this
      ensures Valid() && Kept(old(Now()), Now()) && held == old(held) && heldBh == old(heldBh) && |tape| <= old(|tape|)
      ensures Served(old(EventsNow()), EventsNow())
      ensures SilentBut(nodes, []) && AllHeard(old(EventsNow()), EventsNow())
      ensures AllSettled(old(EventsNow()), EventsNow()) && AllCalled(old(EventsNow()), EventsNow(), cancelling)
      ensures old(tape) == [] ==> CalledOnce(old(EventsNow()), EventsNow())
      ensures old(tape) == [] ==> (progress <==> Loud(old(bhNodes)) || LoudIo(old(nodes), notifier))
      decreases |tape|, 6
    {
      hide Linked, OneLive, Marked, MarkedBh, Held, Within, OnlyThese, Kept, From, After, SilentBut, QuietBut, Served;
      hide AllSettled, AllCalled, AllHeard, Tally, CalledOnce, Loud, LoudIo;
      ghost var s0, e0 := Now(), EventsNow();
      progress := AioBhPoll();
      var node := First(handlers);
      AllHandlersAhead();
      while node.Some?
        invariant Valid() && Kept(s0, Now()) && held == old(held) && heldBh == old(heldBh) && |tape| <= old(|tape|)
        invariant node.Some? ==> node.value in handlers
        invariant Served(e0, EventsNow()) && AllSettled(e0, EventsNow())
        invariant SilentBut(nodes, if node.Some? then From(handlers, node.value) else [])
        invariant old(tape) == [] ==> QuietBut(bhNodes, []) && Tally(e0, EventsNow())
        invariant old(tape) == [] ==> (progress || LoudIo(nodes, notifier) <==>
            Loud(e0.bhNodes) || LoudIo(e0.nodes, notifier))
        decreases if node.Some? then |From(handlers, node.value)| else 0
      {
        ghost var s1, e1, at := Now(), EventsNow(), node.value;
        var p;
        p, node := Visit(node.value);
        progress := progress || p;
        SilentStep(e1, EventsNow(), s1.handlers, at);
        ServedTrans(e0, e1, EventsNow());
        SettledOn(e0, e1, EventsNow());
        if old(tape) == [] { TallyTrans(e0, e1, EventsNow()); }
        KeptTrans(s0, s1, Now());
      }
      NotCancelled(e0, EventsNow(), cancelling);
      SilentHeard(e0, EventsNow());
      if old(tape) == [] {
        TallyDone(e0, EventsNow());
        NotLoudIo(nodes, notifier);
      }
    }

    /** Whether poll() has anything to report. */
    method AnyReady(ready: map<int, (bool, bool)>) returns (hit: bool)
      requires Valid()
      ensures hit <==> Hit(nodes, ready)
    {
      hide OneLive, Marked, MarkedBh, Held, Within, OnlyThese;
      for i := 0 to |handlers|
        invariant forall j, read :: 0 <= j < i ==> !Reported(nodes, ready, handlers[j], read)
      {
        if Reported(nodes, ready, handlers[i], true) || Reported(nodes, ready, handlers[i], false) {
          return true;
        }
      }
      hit := false;
    }

    /** The handlers polled get what their descriptors are ready for. */
    method StoreEvents(ready: map<int, (bool, bool)>)
      requires Valid()
      modifies `nodes, `calls
      ensures Valid() && Now() == old(Now())
      ensures nodes.Keys == old(nodes).Keys && forall n :: n in nodes ==> nodes[n] == Told(old(nodes)[n], ready)
      ensures calls == old(calls) + multiset(Silenced(old(nodes), nodes))
    {
      hide AioContext.ValidHandlers, AioContext.ValidBhs, OnlyThese, Within, Silenced;
      ListsDistinct();
      EveryNode();
      for i := 0 to |handlers|
        invariant Valid() && nodes.Keys == old(nodes).Keys && calls == old(calls)
        invariant forall j :: 0 <= j < i ==> nodes[handlers[j]] == Told(old(nodes)[handlers[j]], ready)
        invariant forall n :: n in nodes && n !in handlers[..i] ==> nodes[n] == old(nodes)[n]
      {
        var h := nodes[handlers[i]];
        if !h.deleted && (h.ioRead || h.ioWrite) {
          var r := if h.fd in ready then ready[h.fd] else (false, false);
          SetRevents(handlers[i], r.0 && h.ioRead, r.1 && h.ioWrite);
        }
      }
      WithdrawnOnly(old(nodes), nodes);
      OnlyMore(calls, cancelling, multiset(Silenced(old(nodes), nodes)));
      calls := calls + multiset(Silenced(old(nodes), nodes));
    }

    lemma EveryNode()
      requires ValidHandlers()
      ensures forall n :: n in nodes <==> n in handlers
    {}

    /** aio_poll: the callbacks whose descriptors are ready are called, unless others they run after
        delete their handlers or take them away, or poll again and find nothing. If the callbacks do
        nothing, no other is called. */
    method AioPoll(ready: map<int, (bool, bool)>) returns (progress: bool)
      requires Valid()
      modifies this
      ensures Valid() && Kept(old(Now()), Now()) && held == old(held) && heldBh == old(heldBh) && |tape| <= old(|tape|)
      ensures Served(old(EventsNow()), EventsNow())
      ensures SilentBut(nodes, []) && AllReported(old(EventsNow()), EventsNow(), ready)
      ensures AllSettled(old(EventsNow()), EventsNow()) && AllCalled(old(EventsNow()), EventsNow(), cancelling)
      ensures old(tape) == [] ==> PolledOnce(old(EventsNow()), EventsNow(), ready)
      ensures old(tape) == [] ==> (progress <==> Loud(old(bhNodes)) || LoudPoll(old(nodes), ready, notifier))
      decreases |tape|, 7
    {
      hide Linked, OneLive, Marked, MarkedBh, Held, Within, OnlyThese, Kept, Served, AllSettled, AllCalled, SilentBut;
      hide Hit, AllReported, AllHeard, CalledOnce, PolledOnce, Loud, LoudIo, LoudPoll, Told, Logged, CbKept, IoKept;
      ghost var e0 := EventsNow();
      ServedSelf(e0);
      ServedParts(e0, e0);
      var hit := AnyReady(ready);
      if hit {
        StoreEvents(ready);
        ToldServed(e0, EventsNow(), ready);
      }
      ghost var e1 := EventsNow();
      progress := AioDispatch();
      TakenServed(e0, e1, EventsNow());
      NotCancelled(e0, EventsNow(), cancelling);
      if hit {
        ReportedHeard(e0, e1, EventsNow(), ready);
        if old(tape) == [] { ToldOnce(e0, e1, EventsNow(), ready, notifier); }
      } else {
        NothingReported(e0, EventsNow(), ready);
        if old(tape) == [] { PendingOnce(e0, EventsNow(), ready, notifier); }
      }
    }

    /** Whatever is done from outside, and whatever the callbacks then do, however deep they nest:
        the lists are in order afterwards, and no walk is left. */
    method Use(script: seq<Action>)
      requires Valid() && walkingHandlers == 0 && walkingBh == 0 && Within([script], cancelling)
      modifies this
      ensures Valid() && walkingHandlers == 0 && walkingBh == 0
      ensures script != [] ==> Ran(EventsNow(), script[|script| - 1])
    {
      RunScript(script);
    }
  }

  /** What an action of a callback comes to. */
  ghost predicate ActionDone(a: Events, b: Events, action: Action) {
    match action
    case SetFd(fd, r, w) =>
      && (r || w <==> HasLive(b.nodes, fd)) && (r || w ==> HandledBy(b.nodes, fd, r, w))
      && OtherFds(a.nodes, b.nodes, fd)
    case BhNew => exists x :: NewIn(a.bhNodes, b.bhNodes, x)
    case BhSchedule(x, idle) =>
      x in a.bhNodes && x !in a.deadBh ==> Due(b.bhNodes, x) && b.bhNodes[x].idle == idle
    case BhCancel(x) => !Due(b.bhNodes, x)
    case BhDelete(x) => x in a.bhNodes ==> x in b.deadBh
    case Poll(ready) => AllReported(a, b, ready) && SilentBut(b.nodes, [])
  }

  predicate NewIn(before: map<nat, Bh>, after: map<nat, Bh>, x: nat) {
    x !in before && after == before[x := Bh(false, false, false)]
  }

  /** The action is the last thing that was done. */
  ghost predicate Ran(b: Events, action: Action) {
    exists a :: ActionDone(a, b, action)
  }

  /** What aio_poll makes be called: what is reported, or, when there is nothing to report, what was
      left to be called. */
  ghost predicate WillCall(nodes: map<nat, Handler>, ready: map<int, (bool, bool)>, n: nat, read: bool) {
    if Hit(nodes, ready) then Reported(nodes, ready, n, read) else Wants(nodes, n, read)
  }

  ghost predicate PolledOnce(a: Events, b: Events, ready: map<int, (bool, bool)>) {
    && (forall n, read ::
          b.calls[IoCall(n, read)] == a.calls[IoCall(n, read)] + Once(WillCall(a.nodes, ready, n, read)))
    && (forall x :: b.calls[BhCall(x)] == a.calls[BhCall(x)] + Once(Due(a.bhNodes, x)))
  }

  ghost predicate LoudPoll(nodes: map<nat, Handler>, ready: map<int, (bool, bool)>, notifier: int) {
    exists n, read :: WillCall(nodes, ready, n, read) && Counts(nodes, n, read, notifier)
  }

  lemma ServedParts(a: Events, b: Events)
    requires Served(a, b)
    ensures Logged(a.calls, b.calls) && CbKept(a, b) && IoKept(a, b)
  {}

  lemma NothingReported(a: Events, b: Events, ready: map<int, (bool, bool)>)
    requires !Hit(a.nodes, ready)
    ensures AllReported(a, b, ready)
  {}

  lemma PendingOnce(a: Events, b: Events, ready: map<int, (bool, bool)>, notifier: int)
    requires !Hit(a.nodes, ready)
    ensures CalledOnce(a, b) ==> PolledOnce(a, b, ready)
    ensures LoudIo(a.nodes, notifier) <==> LoudPoll(a.nodes, ready, notifier)
  {
    hide Hit, Reported, HasCb;
    assert forall n, read :: WillCall(a.nodes, ready, n, read) <==> Wants(a.nodes, n, read);
  }

  lemma ToldOnce(a: Events, b: Events, c: Events, ready: map<int, (bool, bool)>, notifier: int)
    requires Hit(a.nodes, ready) && a.nodes.Keys == b.nodes.Keys && b.bhNodes == a.bhNodes
    requires forall n :: n in a.nodes ==> b.nodes[n] == Told(a.nodes[n], ready)
    requires forall c: Call :: !c.Repolled? ==> b.calls[c] == a.calls[c]
    ensures CalledOnce(b, c) ==> PolledOnce(a, c, ready)
    ensures LoudIo(b.nodes, notifier) <==> LoudPoll(a.nodes, ready, notifier)
  {
    assert forall n :: n in a.nodes ==> b.nodes[n].fd == a.nodes[n].fd;
    hide Hit, Reported, HasCb, Told, Wants;
    forall n, read ensures WillCall(a.nodes, ready, n, read) <==> Wants(b.nodes, n, read) {
      ToldWants(a.nodes, b.nodes, ready, n, read);
    }
  }

  lemma EventsTaken(e: Events, e0: Events, n: nat)
    requires n in e.nodes && e0 == e.(nodes := e.nodes[n := e.nodes[n].(readable := false, writable := false)])
    ensures Heard(e.nodes, e0.nodes, n) && ServedBut(e, e0, n)
    ensures forall read :: HasCb(e0.nodes, n, read) <==> HasCb(e.nodes, n, read)
    ensures Wants(e.nodes, n, true) <==> HasCb(e.nodes, n, true) && e.nodes[n].readable
    ensures Wants(e.nodes, n, false) <==> HasCb(e.nodes, n, false) && e.nodes[n].writable
  {
    HeardServed(e, e0, n);
  }

  /** The events of a handler taken, and its callbacks called, as far as they are there. */
  lemma HandlerServed(e: Events, e0: Events, e1: Events, e2: Events, n: nat, read: bool, write: bool)
    requires n in e.nodes && e0 == e.(nodes := e0.nodes) && Heard(e.nodes, e0.nodes, n) && ServedBut(e, e0, n)
    requires forall r :: HasCb(e0.nodes, n, r) <==> HasCb(e.nodes, n, r)
    requires Served(e0, e1) && Served(e1, e2) && (!read ==> e1 == e0)
    requires (read <==> Wants(e.nodes, n, true)) && (read ==> e1.calls[ReadCall(n)] > e0.calls[ReadCall(n)])
    requires write <==> e.nodes[n].writable && HasCb(e1.nodes, n, false)
    requires write ==> e2.calls[WriteCall(n)] > e1.calls[WriteCall(n)]
    ensures Served(e, e2)
    ensures Wanted(e.nodes, n) <==> read || write
  {
    CallsGrow(e0, e1, n);
    CallsGrow(e1, e2, n);
    if Wants(e.nodes, n, false) && !write { GoneAfter(e, e0, e1, e2, n); }
    hide Served, ServedBut, Heard, Gone;
    ServedButTrans(e, e0, e1, n);
    ServedButTrans(e, e1, e2, n);
    ServedAll(e, e2, n);
  }

  lemma GoneAfter(e: Events, e0: Events, e1: Events, e2: Events, n: nat)
    requires e0 == e.(nodes := e0.nodes) && HasCb(e0.nodes, n, false) && !HasCb(e1.nodes, n, false)
    requires Served(e0, e1) && Served(e1, e2)
    ensures Gone(e, e2, n, false)
  {
    GoneSince(e, e0, e1, n, false);
    RecordsGrow(e, e1, e2, n, false);
  }

  /** What has been done for a handler: the events are taken; the read callback has been called if it
      was to be; so has the write callback, unless the read callback deleted the handler or took it
      away. Progress is reported for the callbacks called, but for the notifier's. */
  ghost predicate HandlerDone(e: Events, e2: Events, n: nat, progress: bool, notifier: int) {
    && !Noisy(e2.nodes, n)
    && (Wants(e.nodes, n, true) ==> e2.calls[ReadCall(n)] > e.calls[ReadCall(n)])
    && (Wants(e.nodes, n, false) && e2.calls[WriteCall(n)] <= e.calls[WriteCall(n)] ==>
          Wants(e.nodes, n, true) && Gone(e, e2, n, false))
    && (progress ==> Wanted(e.nodes, n))
    && (LoudAt(e.nodes, n, notifier) && !progress ==> Gone(e, e2, n, false))
  }

  lemma HandlerIsDone(e: Events, e0: Events, e1: Events, e2: Events, n: nat, read: bool, write: bool, notifier: int)
    requires n in e.nodes && e0 == e.(nodes := e0.nodes) && Heard(e.nodes, e0.nodes, n)
    requires forall r :: HasCb(e0.nodes, n, r) <==> HasCb(e.nodes, n, r)
    requires Served(e0, e1) && Served(e1, e2) && (!read ==> e1 == e0)
    requires (read <==> Wants(e.nodes, n, true)) && (read ==> e1.calls[ReadCall(n)] > e0.calls[ReadCall(n)])
    requires write <==> e.nodes[n].writable && HasCb(e1.nodes, n, false)
    requires write ==> e2.calls[WriteCall(n)] > e1.calls[WriteCall(n)]
    ensures HandlerDone(e, e2, n, (read && e.nodes[n].fd != notifier) || write, notifier)
  {
    CallsGrow(e0, e1, n);
    CallsGrow(e1, e2, n);
    if Wants(e.nodes, n, false) && !write { GoneAfter(e, e0, e1, e2, n); }
    hide Served, Gone;
  }

  /** As HandlerDone, when the callbacks do nothing. */
  ghost predicate HandlerQuiet(e: Events, e2: Events, n: nat, progress: bool, notifier: int) {
    && e2.bhNodes == e.bhNodes && Heard(e.nodes, e2.nodes, n) && e2.calls == e.calls + CallsFor(e.nodes, n)
    && (progress <==> LoudAt(e.nodes, n, notifier))
  }

  lemma HandlerIsQuiet(e: Events, e0: Events, e2: Events, n: nat, read: bool, write: bool, notifier: int)
    requires n in e.nodes && Heard(e.nodes, e0.nodes, n) && e2.nodes == e0.nodes && e2.bhNodes == e.bhNodes
    requires forall r :: HasCb(e0.nodes, n, r) <==> HasCb(e.nodes, n, r)
    requires read <==> Wants(e.nodes, n, true)
    requires write <==> e.nodes[n].writable && HasCb(e0.nodes, n, false)
    requires e2.calls == e.calls + (if read then multiset{ReadCall(n)} else multiset{})
      + if write then multiset{WriteCall(n)} else multiset{}
    ensures HandlerQuiet(e, e2, n, (read && e.nodes[n].fd != notifier) || write, notifier)
  {
    assert Counts(e.nodes, n, true, notifier) <==> e.nodes[n].fd != notifier;
    assert Counts(e.nodes, n, false, notifier);
  }

  /** What a visit keeps, and where it goes on. */
  lemma VisitKept(s0: Snap, s1: Snap, s2: Snap, s3: Snap, node: nat, next: Option<nat>)
    requires s1 == s0.(walkingHandlers := s0.walkingHandlers + 1) && Kept(s1, s2)
    requires s2.walkingHandlers > 0
    requires s3 == s2.(walkingHandlers := s2.walkingHandlers - 1, handlers := s3.handlers, dead := s3.dead)
    requires s2.dead <= s3.dead
    requires s3.handlers == s2.handlers || (s0.walkingHandlers == 0 && s3.handlers == Without(s2.handlers, node))
    requires node in s0.handlers && Distinct(s2.handlers) && Distinct(s3.handlers) && next == Next(s2.handlers, node)
    ensures Kept(s0, s3) && From(s0.handlers, node) != []
    ensures After(s0.handlers, node) == if next.Some? then From(s3.handlers, next.value) else []
    ensures next.Some? ==> next.value in s3.handlers && |From(s3.handlers, next.value)| < |From(s0.handlers, node)|
  {
    FromIn(s0.handlers, node);
    FromGrown(s0.handlers, s2.handlers, node);
    if next.Some? {
      GrownIn(s0.handlers, s2.handlers, node);
      FromNext(s2.handlers, node);
      var rest := After(s2.handlers, node);
      FromIn(s2.handlers, node);
      assert rest[0] == next.value;
      if s3.handlers != s2.handlers {
        WithoutAfter(s2.handlers, node);
        GrownIn(rest, s3.handlers, next.value);
        FromGrown(rest, s3.handlers, next.value);
      }
    }
  }

  function LiveBhs(bhNodes: map<nat, Bh>): map<nat, Bh> {
    map b | b in bhNodes && !bhNodes[b].deleted :: bhNodes[b]
  }

  lemma DropDeleted(bhNodes: map<nat, Bh>, b: nat)
    requires b in bhNodes && bhNodes[b].deleted
    ensures LiveBhs(bhNodes - {b}) == LiveBhs(bhNodes)
  {}

  lemma AllLive(bhNodes: map<nat, Bh>)
    requires forall b :: b in bhNodes ==> !bhNodes[b].deleted
    ensures LiveBhs(bhNodes) == bhNodes
  {}

  lemma StillQuiet(bhNodes: map<nat, Bh>)
    ensures QuietBut(bhNodes, []) ==> QuietBut(LiveBhs(bhNodes), [])
  {
    forall x | Due(LiveBhs(bhNodes), x) ensures Due(bhNodes, x) {}
  }

  lemma WithdrawnOnly(a: map<nat, Handler>, b: map<nat, Handler>)
    ensures forall c :: c in Withdrawn(a, b) ==> c.Dropped?
    ensures forall c :: c in Silenced(a, b) ==> c.Repolled?
  {}

  /** The descriptor's live handler is deleted. */
  lemma FdDeleted(a: map<nat, Handler>, b: map<nat, Handler>, n: nat, fd: int)
    requires OneLive(a) && Others(a, b, n) && n in a && !a[n].deleted && a[n].fd == fd
    requires n in b ==> b[n].deleted && b[n].fd == fd
    ensures !HasLive(b, fd) && OtherFds(a, b, fd) && (n !in b ==> NoneMarked(a, b))
  {}

  lemma RemovedServed(a: Events, b: Events, n: nat)
    requires n in a.nodes && a.nodes[n].deleted && b == a.(nodes := a.nodes - {n}, dead := a.dead + {n})
    ensures Served(a, b)
  {
    HeardServed(a, b, n);
  }

  lemma HeardOn(a: map<nat, Handler>, b: map<nat, Handler>, c: map<nat, Handler>, n: nat)
    requires Heard(a, b, n) && (c == b || c == b - {n})
    ensures Heard(a, c, n)
  {}

  lemma FdAbsent(a: map<nat, Handler>, fd: int)
    requires forall id :: id in a && !a[id].deleted ==> a[id].fd != fd
    ensures !HasLive(a, fd) && OtherFds(a, a, fd) && NoneMarked(a, a)
  {}

  lemma NewServed(a: Events, b: Events, n: nat)
    requires n !in a.nodes && n in b.nodes && !b.nodes[n].readable && !b.nodes[n].writable
    requires b == a.(nodes := a.nodes[n := b.nodes[n]])
    ensures Served(a, b)
  {
    HeardServed(a, b, n);
  }

  lemma FdInserted(a: map<nat, Handler>, b: map<nat, Handler>, n: nat, h: Handler)
    requires n !in a && b == a[n := h] && !h.deleted && forall id :: id in a && !a[id].deleted ==> a[id].fd != h.fd
    ensures HasLive(b, h.fd) && HandledBy(b, h.fd, h.ioRead, h.ioWrite) && OtherFds(a, b, h.fd) && NoneMarked(a, b)
  {
    assert n in b && !b[n].deleted && b[n].fd == h.fd;
  }

  lemma FdChanged(a: map<nat, Handler>, b: map<nat, Handler>, n: nat, ioRead: bool, ioWrite: bool)
    requires OneLive(a) && n in a && !a[n].deleted && b == a[n := a[n].(ioRead := ioRead, ioWrite := ioWrite)]
    ensures HasLive(b, a[n].fd) && HandledBy(b, a[n].fd, ioRead, ioWrite) && OtherFds(a, b, a[n].fd) && NoneMarked(a, b)
  {
    assert n in b && !b[n].deleted && b[n].fd == a[n].fd;
  }

  lemma NotThere(m: map<nat, Bh>, b: nat)
    requires b !in m
    ensures !Due(m, b)
  {}

  lemma NotLoud(bhNodes: map<nat, Bh>)
    ensures QuietBut(bhNodes, []) ==> !Loud(bhNodes)
  {}

  lemma NotLoudIo(nodes: map<nat, Handler>, notifier: int)
    requires SilentBut(nodes, [])
    ensures !LoudIo(nodes, notifier)
  {
    forall n, read ensures !Wants(nodes, n, read) { assert !Noisy(nodes, n); }
  }

  lemma TallySelf(a: Events)
    ensures Tally(a, a)
  {}

  lemma LiveTally(a: Events, b: Events)
    requires Tally(a, b)
    ensures Tally(a, b.(bhNodes := LiveBhs(b.bhNodes)))
  {
    var c := b.(bhNodes := LiveBhs(b.bhNodes));
    assert forall x :: Due(c.bhNodes, x) <==> Due(b.bhNodes, x);
  }

  /** The descriptor's live handler has just these callbacks. */
  ghost predicate HandledBy(nodes: map<nat, Handler>, fd: int, ioRead: bool, ioWrite: bool) {
    forall n :: n in nodes && !nodes[n].deleted && nodes[n].fd == fd ==>
      nodes[n].ioRead == ioRead && nodes[n].ioWrite == ioWrite
  }

  /** No handler has been left in the list with a mark. */
  ghost predicate NoneMarked(before: map<nat, Handler>, after: map<nat, Handler>) {
    forall n :: n in after && after[n].deleted ==> n in before && before[n].deleted
  }

  /** The handlers of other descriptors are as they were. */
  ghost predicate OtherFds(before: map<nat, Handler>, after: map<nat, Handler>, fd: int) {
    && (forall n :: n in before && before[n].fd != fd ==> n in after && after[n] == before[n])
    && (forall n :: n in after && after[n].fd != fd ==> n in before)
  }

  lemma LinkedCut(list: seq<nat>, keys: set<nat>, unused: nat, i: nat)
    requires Linked(list, keys, unused) && i < |list|
    ensures Linked(list[..i] + list[i + 1..], keys - {list[i]}, unused)
  {
    var cut := list[..i] + list[i + 1..];
    forall id ensures id in keys - {list[i]} <==> id in cut {
      if id in list && id != list[i] {
        var j :| 0 <= j < |list| && list[j] == id;
        assert cut[if j < i then j else j - 1] == id;
      }
    }
  }

  ghost predicate HasLive(nodes: map<nat, Handler>, fd: int) {
    exists id :: id in nodes && !nodes[id].deleted && nodes[id].fd == fd
  }

  lemma LiveInsert(nodes: map<nat, Handler>, dead: set<nat>, bhNodes: map<nat, Bh>, deadBh: set<nat>, unused: nat,
                   h: Handler)
    requires OneLive(nodes) && Marked(nodes, dead, unused) && MarkedBh(bhNodes, deadBh, unused) && !h.deleted
    requires forall id :: id in nodes && !nodes[id].deleted ==> nodes[id].fd != h.fd
    ensures OneLive(nodes[unused := h]) && Marked(nodes[unused := h], dead, unused + 1)
    ensures MarkedBh(bhNodes, deadBh, unused + 1)
  {}

  lemma LinkedMore(list: seq<nat>, keys: set<nat>, unused: nat)
    requires Linked(list, keys, unused)
    ensures Linked(list, keys, unused + 1)
  {}
}
