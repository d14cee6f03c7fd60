/**
 What the relay guarantees in every reachable state, and a run showing why the stream
 guarantees need a hypothesis. `Reachable(w, {})` allows every event the environment can produce;
 `Reachable(w, {a, b})` asks only that `a` and `b` themselves are not read over their own queues,
 whatever happens on other connections.
 */
module RelayTheorems {
  import opened Wrappers
  import opened Relay
  import opened RelayRuns

  /** Bytes delivered to `b` and then its queue are what the hook let through of everything read from `a`. */
  lemma StreamConservation(w: World, a: Addr, b: Addr)
    requires Reachable(w, {a, b}) && a in w.ctxs && w.ctxs[a].peer == Some(b)
    ensures b in w.ctxs
    ensures w.ctxs[b].delivered + Window(w.ctxs[b]) == Forwarded(w.ctxs[a].taken)
  {
    ReachableIsSafe(w, {a, b});
    assert LinkOk(w, a);
  }

  /** Through errors, drops, hang-ups and flushes after severing, what was delivered is a prefix of what was accepted. */
  lemma PrefixSafety(w: World, a: Addr)
    requires a in w.ctxs && Reachable(w, {a, w.ctxs[a].mate})
    ensures w.ctxs[a].mate in w.ctxs
    ensures w.ctxs[a].delivered <= Forwarded(w.ctxs[w.ctxs[a].mate].taken)
    ensures w.ctxs[a].win.partial ==>
              w.ctxs[a].delivered + Window(w.ctxs[a]) == Forwarded(w.ctxs[w.ctxs[a].mate].taken)
  {
    ReachableIsSafe(w, {a, w.ctxs[a].mate});
    assert LinkOk(w, a);
  }

  /** Links are symmetric and never lead to a context that is dead or freed, or is the context itself. */
  lemma LinkSymmetry(w: World, spared: set<Addr>, a: Addr, b: Addr)
    requires Reachable(w, spared) && a in w.ctxs && b in w.ctxs
    ensures w.ctxs[a].peer == Some(b) <==> w.ctxs[b].peer == Some(a)
    ensures w.ctxs[a].peer == Some(b) ==>
              a != b && a in w.registered && b in w.registered
              && a !in w.dead && b !in w.dead && a !in w.freed && b !in w.freed
    ensures a in w.dead || a in w.freed ==> w.ctxs[a].peer == None
  {
    ReachableIsSafe(w, spared);
    assert LinkOk(w, a) && LinkOk(w, b);
  }

  /** The link of a reachable context leads to an allocated one. */
  lemma NoDanglingPeer(w: World, spared: set<Addr>, a: Addr)
    requires Reachable(w, spared) && a in w.ctxs && w.ctxs[a].peer.Some?
    ensures w.ctxs[a].peer.value in w.ctxs && w.ctxs[a].peer.value in w.registered
  {
    ReachableIsSafe(w, spared);
    assert LinkOk(w, a) && LinkOk(w, w.ctxs[a].mate);
  }

  lemma ClosedOnce(ctxs: map<Addr, Ctx>, s: seq<Addr>, a: Addr)
    requires NoDuplicates(s) && forall x :: x in s ==> x in ctxs
    ensures multiset(Closing(ctxs, s))[a] == if a in s && ctxs[a].fd > 0 then 1 else 0
  {
    if |s| > 0 {
      var n := |s| - 1;
      assert s == s[..n] + [s[n]];
      ClosedOnce(ctxs, s[..n], a);
      assert s[n] !in s[..n];
    }
  }

  /**
   A context is given up at most once, freed at most once, its descriptor if positive closed
   exactly once when it is freed, and by nobody else: unreleased contexts hold different
   descriptors. Whatever epoll may still report is neither dead nor freed.
   */
  lemma ExactlyOnceRelease(w: World, spared: set<Addr>, a: Addr)
    requires Reachable(w, spared) && a in w.ctxs
    ensures multiset(w.dead)[a] + multiset(w.freed)[a] + (if a in w.registered then 1 else 0) == 1
    ensures multiset(w.closed)[a] == if a in w.freed && w.ctxs[a].fd > 0 then 1 else 0
    ensures forall b :: b in w.ctxs && a != b && a !in w.freed && b !in w.freed ==> w.ctxs[a].fd != w.ctxs[b].fd
  {
    hide Closing;
    ReachableIsSafe(w, spared);
    ClosedOnce(w.ctxs, w.freed, a);
    CountOnce(w.dead, a);
    CountOnce(w.freed, a);
  }

  lemma CountOnce(s: seq<Addr>, a: Addr)
    requires NoDuplicates(s)
    ensures multiset(s)[a] == if a in s then 1 else 0
  {
    if |s| > 0 {
      var n := |s| - 1;
      assert s == s[..n] + [s[n]];
      CountOnce(s[..n], a);
      assert s[n] !in s[..n];
    }
  }

  /** After a batch nothing is left between given up and freed, and what was given up in it is freed. */
  lemma BatchReleasesItsDead(w: World, spared: set<Addr>, a: Addr)
    requires Reachable(w, spared) && a in w.ctxs
    ensures EndBatch(w).dead == []
    ensures a in EndBatch(w).freed <==> a in w.dead || a in w.freed
    ensures a in EndBatch(w).freed <==> a !in EndBatch(w).registered
  {
    ReachableIsSafe(w, spared);
  }

  /** The context that holds an accepted descriptor is registered, or freed with the descriptor closed if it is positive. */
  ghost predicate Accounted(w: World, a: Addr, fd: int) {
    && a in w.ctxs && w.ctxs[a].fd == fd
    && (a in w.registered || (a in w.freed && (fd > 0 ==> a in w.closed)))
  }

  /** However serving the listening socket ends, no accepted or connected positive descriptor is lost, and the two ends of a connection are each other's peer. */
  lemma AcceptLosesNoDescriptor(w: World, spared: set<Addr>, r: AcceptResult)
    requires Reachable(w, spared) && !r.NotAccepted?
    ensures var v, a := Accept(w, r), w.next;
            && Accounted(v, a, if r.Established? then r.client else r.fd)
            && (r.Established? <==> a in v.registered)
            && (r.Established? ==> Accounted(v, a + 1, r.upstream) && a + 1 in v.registered
                                   && v.ctxs[a].peer == Some(a + 1) && v.ctxs[a + 1].peer == Some(a))
  {
    hide NewCtx, Reachable, Windows, Descriptors, NoDuplicates, Closing;
    ReachableIsSafe(w, spared);
    var a := w.next;
    match r
    case Refused(fd) => NewPairOk(fd, None, a, fd, None, a);
    case Unrouted(fd) => NewPairOk(fd, None, a, fd, None, a);
    case Unreachable(fd) => NewPairOk(fd, None, a, fd, None, a);
    case Established(client, upstream) =>
      NewPairOk(client, Some(a + 1), a + 1, upstream, Some(a), a);
      NewPairOk(upstream, Some(a), a, client, Some(a + 1), a + 1);
  }

  /** Interest masks agree with the backlog, so the wake-up the pair waits for is always armed. */
  lemma MasksAgree(w: World, a: Addr, b: Addr)
    requires Reachable(w, {a, b}) && a in w.ctxs && w.ctxs[a].peer == Some(b)
    ensures b in w.ctxs
    ensures !(w.ctxs[a].win.partial && w.ctxs[b].win.partial)
    ensures var idle := Interest(true, false, true);
            !w.ctxs[a].win.partial && !w.ctxs[b].win.partial ==> w.ctxs[a].mask == w.ctxs[b].mask == idle
    ensures var backlogged, stalled := Interest(true, true, true), Interest(false, false, true);
            && (w.ctxs[b].win.partial ==> w.ctxs[b].mask == backlogged && w.ctxs[a].mask == stalled)
            && (w.ctxs[a].win.partial ==> w.ctxs[a].mask == backlogged && w.ctxs[b].mask == stalled)
  {
    ReachableIsSafe(w, {a, b});
    assert LinkOk(w, a);
  }

  /** Linked or severed, a context with queued bytes waits to write, and every context waits for a hang-up. */
  lemma NoLostWakeup(w: World, a: Addr)
    requires a in w.ctxs && Reachable(w, {a, w.ctxs[a].mate})
    ensures w.ctxs[a].mask.hangup
    ensures w.ctxs[a].win.partial ==> w.ctxs[a].mask.output
  {
    ReachableIsSafe(w, {a, w.ctxs[a].mate});
    assert LinkOk(w, a);
  }

  /** The window stays inside the buffer and is marked pending exactly while it holds bytes. */
  lemma WindowInvariant(w: World, spared: set<Addr>, a: Addr)
    requires Reachable(w, spared) && a in w.ctxs
    ensures WindowOk(w.ctxs[a])
  {
    ReachableIsSafe(w, spared);
  }

  /** A severed context stays severed and only drains, in every state of every continuation, inside batches too. */
  lemma SeveringIsAbsorbing(w: World, spared: set<Addr>, a: Addr, batches: seq<seq<Event>>, events: seq<Event>)
    requires Reachable(w, spared) && a in w.ctxs && w.ctxs[a].peer.None?
    requires RunOk(w, batches, spared) && BatchOk(Run(w, batches), events, spared)
    ensures a in RunEvents(Run(w, batches), events).ctxs
    ensures var c, d := w.ctxs[a], RunEvents(Run(w, batches), events).ctxs[a];
            && d.peer.None? && d.taken == c.taken
            && c.delivered <= d.delivered <= c.delivered + Window(c)
            && d.delivered + Window(d) == c.delivered + Window(c)
  {
    hide Reachable, Run, RunOk, RunEvents, BatchOk, Safe, Flows, Window;
    ReachableIsSafe(w, spared);
    ContinuationFollows(w, batches, events, spared);
    var d := RunEvents(Run(w, batches), events).ctxs[a];
    assert d.delivered <= d.delivered + Window(d);
  }

  // ---------------------------------------------------------------- orderly close

  /** A hang-up on `a` leaves everything accepted for `b` delivered or queued, and `b` on its own. */
  lemma AfterHangUp(w: World, a: Addr, b: Addr, bits: Interest, io: Io)
    requires Reachable(w, {a, b}) && a in w.ctxs && b in w.ctxs && w.ctxs[a].peer == Some(b)
    requires HangsUp(w.ctxs[a], w.ctxs[b], bits, io)
    ensures var v := Step(w, Ready(a, bits, io));
            && a in w.registered && b in v.registered && a in v.ctxs && b in v.ctxs && Safe(v)
            && v.ctxs[a].peer.None? && v.ctxs[b].peer.None? && v.ctxs[b].win == w.ctxs[b].win
            && v.ctxs[b].delivered + Window(v.ctxs[b]) == Forwarded(v.ctxs[a].taken)
  {
    hide Step, Flows, Reachable, HangsUp, Phases, Windows, Descriptors, Forwarded;
    StreamConservation(w, a, b);
    ReachableIsSafe(w, {a, b});
    assert LinkOk(w, a) && LinkOk(w, b);
    StepRegisters(w, Ready(a, bits, io));
    HangUpStep(w, a, b, bits, io);
    StepKeeps(w, Ready(a, bits, io), {});
  }

  lemma HangUpStep(w: World, a: Addr, b: Addr, bits: Interest, io: Io)
    requires Links(w) && a in w.ctxs && b in w.ctxs && w.ctxs[a].peer == Some(b)
    requires HangsUp(w.ctxs[a], w.ctxs[b], bits, io)
    ensures var v := Step(w, Ready(a, bits, io));
            && a in v.ctxs && b in v.ctxs && v.ctxs[a].peer.None? && v.ctxs[b].peer.None?
            && v.ctxs[a].taken == w.ctxs[a].taken && v.ctxs[b].delivered == w.ctxs[b].delivered
            && v.ctxs[b].win == w.ctxs[b].win && v.ctxs[b].buffer == w.ctxs[b].buffer
  {
    hide Handle, HangsUp, Links, Dispatch;
    DispatchLinked(w, a, bits, io);
    HangUpSevers(w.ctxs[a], w.ctxs[b], bits, io);
  }

  /**
   Orderly close. When one side ends the connection, the other side gets everything that was ever
   accepted for it exactly when every later event on it is gentle and together they have room for what
   was queued. Once it has left the epoll set, that is exactly when they were all gentle. What happens
   on other connections, and in which batches, does not matter.
   */
  lemma OrderlyCloseDeliversExactly(w: World, a: Addr, b: Addr, bits: Interest, io: Io, u: World,
                                    batches: seq<seq<Event>>, events: seq<Event>)
    requires Reachable(w, {a, b}) && a in w.ctxs && b in w.ctxs && w.ctxs[a].peer == Some(b)
    requires HangsUp(w.ctxs[a], w.ctxs[b], bits, io)
    requires u == Step(w, Ready(a, bits, io)) && RunOk(u, batches, {}) && BatchOk(Run(u, batches), events, {})
    ensures var v, pokes := RunEvents(Run(u, batches), events), RunPokes(batches, b) + Pokes(events, b);
            && a in v.ctxs && b in v.ctxs
            && (v.ctxs[b].delivered == Forwarded(v.ctxs[a].taken)
                <==> (w.ctxs[b].win.partial ==> Unhindered(w.ctxs[b], pokes)))
            && (w.ctxs[b].win.partial && b !in v.registered ==>
                  (v.ctxs[b].delivered == Forwarded(v.ctxs[a].taken) <==> AllGentle(pokes)))
  {
    hide Reachable, HangsUp, Run, RunOk, RunEvents, BatchOk, Safe, Step, Takes, AllGentle, Forwarded, Window;
    AfterHangUp(w, a, b, bits, io);
    ContinuationFollows(u, batches, events, {});
    SeveredDeliversExactly(u, batches, events, b, Forwarded(u.ctxs[a].taken));
  }

  /** The same for any severed context, from the state in which `accepted` is delivered or queued. */
  lemma SeveredDeliversExactly(u: World, batches: seq<seq<Event>>, events: seq<Event>, b: Addr, accepted: seq<Byte>)
    requires Safe(u) && RunOk(u, batches, {}) && BatchOk(Run(u, batches), events, {})
    requires b in u.ctxs && b in u.registered && u.ctxs[b].peer.None?
    requires u.ctxs[b].delivered + Window(u.ctxs[b]) == accepted
    ensures var v, pokes := RunEvents(Run(u, batches), events), RunPokes(batches, b) + Pokes(events, b);
            && b in v.ctxs
            && (v.ctxs[b].delivered == accepted <==> (u.ctxs[b].win.partial ==> Unhindered(u.ctxs[b], pokes)))
            && (u.ctxs[b].win.partial && b !in v.registered ==> (v.ctxs[b].delivered == accepted <==> AllGentle(pokes)))
  {
    hide Run, RunOk, RunEvents, BatchOk, Drain, Takes, AllGentle, Kept, Links, Phases, Descriptors;
    var c, pokes := u.ctxs[b], RunPokes(batches, b) + Pokes(events, b);
    ContinuationDrains(u, batches, events, b);
    if c.win.partial {
      DrainDeliversExactly(c, pokes);
      if AllGentle(pokes) { GentleDrain(c, pokes); }
    } else {
      DrainConserves(c, pokes);
      assert Window(c) == [];
    }
  }

  lemma ContinuationDrains(u: World, batches: seq<seq<Event>>, events: seq<Event>, b: Addr)
    requires Safe(u) && RunOk(u, batches, {}) && BatchOk(Run(u, batches), events, {})
    requires b in u.ctxs && u.ctxs[b].peer.None?
    ensures DrainsTo(u, RunEvents(Run(u, batches), events), b, RunPokes(batches, b) + Pokes(events, b))
  {
    hide Safe, Run, RunOk, RunEvents, BatchOk, Drain;
    RunKeeps(u, batches, {});
    RunDrains(u, batches, b, {});
    var v := Run(u, batches);
    EventsDrain(v, events, b, {});
    DrainsToTransitive(u, v, RunEvents(v, events), b, RunPokes(batches, b), Pokes(events, b));
  }

  lemma ContinuationFollows(u: World, batches: seq<seq<Event>>, events: seq<Event>, spared: set<Addr>)
    requires Safe(u) && RunOk(u, batches, spared) && BatchOk(Run(u, batches), events, spared)
    ensures Follows(u, RunEvents(Run(u, batches), events))
  {
    hide Safe, Run, RunOk, RunEvents, BatchOk, Follows;
    RunKeeps(u, batches, spared);
    RunFollows(u, batches, spared);
    var v := Run(u, batches);
    EventsFollow(v, events, spared);
    FollowsTransitive(u, v, RunEvents(v, events));
  }

  /**
   What is queued on a severed context is thrown away exactly when some event on it is not gentle:
   it does not report writability, or the kernel fails or takes nothing.
   */
  lemma QueueLostExactly(w: World, spared: set<Addr>, b: Addr, batches: seq<seq<Event>>, events: seq<Event>)
    requires Reachable(w, spared) && b in w.ctxs && b in w.registered
    requires w.ctxs[b].peer.None? && w.ctxs[b].win.partial
    requires RunOk(w, batches, {}) && BatchOk(Run(w, batches), events, {})
    ensures var v, pokes := RunEvents(Run(w, batches), events), RunPokes(batches, b) + Pokes(events, b);
            b in v.ctxs && (b !in v.registered && v.ctxs[b].win.partial <==> !AllGentle(pokes))
  {
    hide Reachable, Run, RunOk, RunEvents, BatchOk, Flows, Drain, Kept, AllGentle;
    ReachableIsSafe(w, spared);
    ContinuationDrains(w, batches, events, b);
    assert WindowOk(w.ctxs[b]);
    DrainDeliversExactly(w.ctxs[b], RunPokes(batches, b) + Pokes(events, b));
  }

  // ---------------------------------------------------------------- why reads must spare the queue

  const READABLE := Interest(true, false, false)
  const WRITABLE := Interest(false, true, false)

  const QUEUE_TWO := Ready(0, READABLE, Io(Arrive([1, 2]), Absent, SendAgain))
  const READ_OVER := Ready(1, READABLE, Io(Arrive([3]), Absent, Room(1)))
  const FLUSH_BOTH := Ready(1, WRITABLE, Io(RecvAgain, Absent, Room(2)))

  /** A connection; two bytes queued for the upstream and, in the same batch, a read from it; a flush. */
  const CONNECT := [Incoming(Established(5, 6))]
  const CROSSING := [QUEUE_TWO, READ_OVER]
  const FLUSH := [FLUSH_BOTH]

  /** The three handler calls of that run, on the two ends. */
  lemma ClobberingCalls()
    ensures var c, q := NewCtx(5, Some(1), 1), NewCtx(6, Some(0), 0);
            var o1 := Handle(c, Some(q), READABLE, QUEUE_TWO.io);
            && o1.keep && o1.peer.Some?
            && var o2 := Handle(o1.peer.value, Some(o1.ctx), READABLE, READ_OVER.io);
            && o2.keep && o2.peer.Some?
            && var o3 := Handle(o2.ctx, o2.peer, WRITABLE, FLUSH_BOTH.io);
            && o3.keep && o3.peer.Some? && o3.ctx.delivered == [3, 2] && o3.peer.value.taken == [Chunk([1, 2], Absent)]
  {
    hide Forwarded;
    var c, q := NewCtx(5, Some(1), 1), NewCtx(6, Some(0), 0);
    var o1 := Handle(c, Some(q), READABLE, QUEUE_TWO.io);
    assert Received([1, 2]) == [1, 2] && Received([3]) == [3];
    assert o1 == Outcome(o1.ctx, Some(Enqueue(q, [1, 2])), true);
    var o2 := Handle(o1.peer.value, Some(o1.ctx), READABLE, READ_OVER.io);
    assert o2.keep && o2.ctx.win == Win(0, 2, true);
    assert Output(Chunk([3], Absent)) == [3];
    assert o2.ctx.buffer == Overwrite(Overwrite(Overwrite(q.buffer, [1, 2]), [3]), [3]);
    ReadTwiceOver(q.buffer);
    assert Window(o2.ctx) == [3, 2];
  }

  lemma ReadTwiceOver(buffer: seq<Byte>)
    requires |buffer| >= 2
    ensures var b := Overwrite(Overwrite(Overwrite(buffer, [1, 2]), [3]), [3]);
            |b| == |buffer| && b[0] == 3 && b[1] == 2
  {
    var b1 := Overwrite(buffer, [1, 2]);
    var b2 := Overwrite(b1, [3]);
    assert |b1| == |b2| == |buffer| && b1[1] == 2;
    assert b2[1] == b1[1];
    assert Overwrite(b2, [3])[1] == b2[1];
  }

  lemma RunSnoc(w: World, batches: seq<seq<Event>>, b: seq<Event>, spared: set<Addr>)
    requires RunOk(w, batches, spared) && BatchOk(Run(w, batches), b, spared)
    ensures RunOk(w, batches + [b], spared)
    ensures Run(w, batches + [b]) == EndBatch(RunEvents(Run(w, batches), b))
  {
    hide BatchOk, RunEvents, EndBatch;
    var all := batches + [b];
    assert all[..|batches|] == batches;
  }

  lemma OneEvent(w: World, e: Event, spared: set<Addr>)
    requires StepOk(w, e, spared) && (e.Ready? ==> e.addr in w.registered)
    ensures BatchOk(w, [e], spared) && RunEvents(w, [e]) == Step(w, e)
  {
    hide Step, StepOk;
    assert [e][..0] == [];
    assert StepsOk(w, [], spared) && RunEvents(w, []) == w;
    assert StepsOk(w, [e], spared);
  }

  lemma TwoEvents(w: World, e: Event, f: Event)
    requires StepOk(w, e, {}) && StepOk(Step(w, e), f, {})
    requires Reported(w, [e, f])
    ensures BatchOk(w, [e, f], {}) && RunEvents(w, [e, f]) == Step(Step(w, e), f)
  {
    hide Step, StepOk;
    assert [e, f][..1] == [e] && [e][..0] == [];
    assert StepsOk(w, [], {}) && RunEvents(w, []) == w;
    assert StepsOk(w, [e], {}) && RunEvents(w, [e]) == Step(w, e);
    assert StepsOk(w, [e, f], {});
  }

  lemma Connected(spared: set<Addr>) returns (w: World)
    ensures Safe(w) && RunOk(START, [CONNECT], spared) && w == Run(START, [CONNECT])
    ensures w == EndBatch(Link(START, 5, 6))
  {
    hide NewCtx, RunEvents, Run, RunOk, BatchOk, Flows, Safe;
    NoBatches(START, spared);
    StartIsSafe(spared);
    OneEvent(START, CONNECT[0], spared);
    RunSnoc(START, [], CONNECT, spared);
    assert [] + [CONNECT] == [CONNECT];
    RunKeeps(START, [CONNECT], spared);
    w := Run(START, [CONNECT]);
  }

  lemma Crossed() returns (w: World, c: Ctx, q: Ctx)
    ensures Safe(w) && RunOk(START, [CONNECT, CROSSING], {}) && w == Run(START, [CONNECT, CROSSING])
    ensures 0 in w.ctxs && 1 in w.ctxs && 1 in w.registered && c == w.ctxs[1] && q == w.ctxs[0]
    ensures c.peer == Some(0) && c.mate == 0
    ensures var o := Handle(c, Some(q), WRITABLE, FLUSH_BOTH.io);
            o.keep && o.peer.Some? && o.ctx.delivered == [3, 2] && o.peer.value.taken == [Chunk([1, 2], Absent)]
  {
    hide Handle, NewCtx, Window, Forwarded, RunEvents, Run, RunOk, BatchOk, Flows, Safe;
    ClobberingCalls();
    NewPairOk(5, Some(1), 1, 6, Some(0), 0);
    NewPairOk(6, Some(0), 0, 5, Some(1), 1);
    var w1 := Connected({});
    UnfoldLinks(w1);
    DispatchLinked(w1, 0, QUEUE_TWO.bits, QUEUE_TWO.io);
    var w2 := Step(w1, QUEUE_TWO);
    StepKeeps(w1, QUEUE_TWO, {});
    UnfoldLinks(w2);
    DispatchLinked(w2, 1, READ_OVER.bits, READ_OVER.io);
    TwoEvents(w1, QUEUE_TWO, READ_OVER);
    RunSnoc(START, [CONNECT], CROSSING, {});
    assert [CONNECT] + [CROSSING] == [CONNECT, CROSSING];
    StartIsSafe({});
    RunKeeps(START, [CONNECT, CROSSING], {});
    w := Run(START, [CONNECT, CROSSING]);
    c, q := w.ctxs[1], w.ctxs[0];
  }

  /** The run is possible, and in its last state the bytes delivered are not the bytes that were accepted. */
  lemma ExclusivityIsNeeded()
    ensures var w := Run(START, [CONNECT, CROSSING, FLUSH]);
            && Reachable(w, {})
            && 0 in w.ctxs && 1 in w.ctxs && w.ctxs[0].peer == Some(1)
            && w.ctxs[1].delivered == [3, 2] && Forwarded(w.ctxs[0].taken) == [1, 2]
  {
    hide Handle, Window, Forwarded, RunEvents, Run, RunOk, BatchOk, Flows, Safe, Reachable;
    var w, c, q := Crossed();
    UnfoldLinks(w);
    assert LinkOk(w, 0) && LinkOk(w, 1);
    DispatchLinked(w, 1, FLUSH_BOTH.bits, FLUSH_BOTH.io);
    OneEvent(w, FLUSH_BOTH, {});
    RunSnoc(START, [CONNECT, CROSSING], FLUSH, {});
    assert [CONNECT, CROSSING] + [FLUSH] == [CONNECT, CROSSING, FLUSH];
    WholeBatchesAreReachable([CONNECT, CROSSING, FLUSH], {});
    TwoForwarded();
  }

  /** The two handler calls of the orderly run: two bytes are queued, then flushed together. */
  lemma OrderlyCalls()
    ensures var c, q := NewCtx(5, Some(1), 1), NewCtx(6, Some(0), 0);
            var o1 := Handle(c, Some(q), READABLE, QUEUE_TWO.io);
            && !Clobbers(c, READABLE)
            && o1.keep && o1.peer.Some? && o1.ctx.taken == [Chunk([1, 2], Absent)]
            && !Clobbers(o1.peer.value, WRITABLE) && o1.peer.value.win == Win(0, 2, true) && !o1.ctx.win.partial
            && var o2 := Handle(o1.peer.value, Some(o1.ctx), WRITABLE, FLUSH_BOTH.io);
            && o2.keep && o2.peer.Some? && o2.ctx.delivered == [1, 2] && o2.peer.value.taken == [Chunk([1, 2], Absent)]
  {
    hide Forwarded;
    var c, q := NewCtx(5, Some(1), 1), NewCtx(6, Some(0), 0);
    assert Received([1, 2]) == [1, 2];
    EnqueuedWindow(q, [1, 2]);
    var o1 := Handle(c, Some(q), READABLE, QUEUE_TWO.io);
    assert o1.peer == Some(Enqueue(q, [1, 2]));
  }

  /** The two ends of the connection, with the bytes queued on one of them. */
  ghost predicate BothQueued(w: World) {
    && 0 in w.ctxs && 1 in w.ctxs && 0 in w.registered && 1 in w.registered
    && var c, q := w.ctxs[1], w.ctxs[0];
    && c.peer == Some(0) && c.mate == 0 && q.peer == Some(1) && q.mate == 1
    && c.win == Win(0, 2, true) && !q.win.partial && q.taken == [Chunk([1, 2], Absent)] && !Clobbers(c, WRITABLE)
    && var o := Handle(c, Some(q), WRITABLE, FLUSH_BOTH.io);
    && o.keep && o.peer.Some? && o.ctx.delivered == [1, 2] && o.peer.value.taken == [Chunk([1, 2], Absent)]
  }

  lemma QueueStep(w: World)
    requires w == EndBatch(Link(START, 5, 6)) && Links(w)
    ensures 0 in w.registered && StepOk(w, QUEUE_TWO, {0, 1})
    ensures BothQueued(Step(w, QUEUE_TWO))
  {
    hide Handle, NewCtx, Dispatch, Links, Closing, WindowOk, PairOk;
    OrderlyCalls();
    NewPairOk(5, Some(1), 1, 6, Some(0), 0);
    NewPairOk(6, Some(0), 0, 5, Some(1), 1);
    assert w.ctxs == map[0 := NewCtx(5, Some(1), 1), 1 := NewCtx(6, Some(0), 0)] && w.registered == {0, 1};
    DispatchLinked(w, 0, READABLE, QUEUE_TWO.io);
  }

  lemma StillQueued(w: World)
    requires BothQueued(w)
    ensures BothQueued(EndBatch(w))
  {
    hide Handle, Closing;
  }

  /** A run that leads there. */
  lemma Queued() returns (w: World)
    ensures Safe(w) && RunOk(START, [CONNECT, [QUEUE_TWO]], {0, 1}) && w == Run(START, [CONNECT, [QUEUE_TWO]])
    ensures BothQueued(w)
  {
    hide Step, StepOk, Link, EndBatch, RunEvents, Run, RunOk, BatchOk, Flows, Safe, BothQueued;
    var w1 := Connected({0, 1});
    UnfoldLinks(w1);
    QueueStep(w1);
    StillQueued(Step(w1, QUEUE_TWO));
    OneEvent(w1, QUEUE_TWO, {0, 1});
    RunSnoc(START, [CONNECT], [QUEUE_TWO], {0, 1});
    assert [CONNECT] + [[QUEUE_TWO]] == [CONNECT, [QUEUE_TWO]];
    StartIsSafe({0, 1});
    RunKeeps(START, [CONNECT, [QUEUE_TWO]], {0, 1});
    w := Run(START, [CONNECT, [QUEUE_TWO]]);
  }

  /** Runs that spare a pair are not idle: in this one two bytes are read, queued, flushed and so delivered. */
  lemma OrderlyRun()
    ensures var w := Run(START, [CONNECT, [QUEUE_TWO], FLUSH]);
            && Reachable(w, {0, 1})
            && 0 in w.ctxs && 1 in w.ctxs && w.ctxs[0].peer == Some(1)
            && w.ctxs[0].taken == [Chunk([1, 2], Absent)] && w.ctxs[1].delivered == [1, 2]
  {
    hide Handle, Window, Forwarded, RunEvents, Run, RunOk, BatchOk, Flows, Safe, Reachable;
    var w := Queued();
    UnfoldLinks(w);
    DispatchLinked(w, 1, WRITABLE, FLUSH_BOTH.io);
    OneEvent(w, FLUSH_BOTH, {0, 1});
    RunSnoc(START, [CONNECT, [QUEUE_TWO]], FLUSH, {0, 1});
    assert [CONNECT, [QUEUE_TWO]] + [FLUSH] == [CONNECT, [QUEUE_TWO], FLUSH];
    WholeBatchesAreReachable([CONNECT, [QUEUE_TWO], FLUSH], {0, 1});
  }

  const ENDED := Interest(false, false, true)
  const NOTHING_READ := Io(RecvAgain, Absent, SendAgain)

  /** An orderly close can happen with bytes still queued, and one send delivers them after it. */
  lemma OrderlyCloseHappens() returns (w: World, u: World)
    ensures Reachable(w, {0, 1}) && 0 in w.ctxs && 1 in w.ctxs && w.ctxs[0].peer == Some(1)
    ensures HangsUp(w.ctxs[0], w.ctxs[1], ENDED, NOTHING_READ) && u == Step(w, Ready(0, ENDED, NOTHING_READ))
    ensures RunOk(u, [], {}) && BatchOk(Run(u, []), FLUSH, {})
    ensures w.ctxs[1].win.partial && Unhindered(w.ctxs[1], RunPokes([], 1) + Pokes(FLUSH, 1))
    ensures var v := RunEvents(Run(u, []), FLUSH); 1 in v.ctxs && v.ctxs[1].delivered == [1, 2]
  {
    hide Handle, Window, Forwarded, RunEvents, Run, RunOk, BatchOk, Flows, Safe, Reachable;
    w := Queued();
    u := Step(w, Ready(0, ENDED, NOTHING_READ));
    UnfoldLinks(w);
    WholeBatchesAreReachable([CONNECT, [QUEUE_TWO]], {0, 1});
    HangUpStep(w, 0, 1, ENDED, NOTHING_READ);
    StepRegisters(w, Ready(0, ENDED, NOTHING_READ));
    OneEvent(u, FLUSH_BOTH, {});
    NoBatches(u, {});
    OnePoke();
    OrderlyCloseDeliversExactly(w, 0, 1, ENDED, NOTHING_READ, u, [], FLUSH);
    StepKeeps(w, Ready(0, ENDED, NOTHING_READ), {});
    ContinuationFollows(u, [], FLUSH, {});
    TwoForwarded();
  }

  lemma TwoForwarded()
    ensures Forwarded([Chunk([1, 2], Absent)]) == [1, 2]
  {
    assert [Chunk([1, 2], Absent)][..0] == [];
  }

  lemma OnePoke()
    ensures RunPokes([], 1) + Pokes(FLUSH, 1) == [Poke(WRITABLE, FLUSH_BOTH.io)]
    ensures Takes([Poke(WRITABLE, FLUSH_BOTH.io)]) == 2
  {
    assert FLUSH[..0] == [];
  }

  lemma NoBatches(w: World, spared: set<Addr>)
    ensures RunOk(w, [], spared) && Run(w, []) == w
  {}

  lemma UnfoldLinks(w: World)
    requires Safe(w)
    ensures Links(w)
  {}

  lemma WholeBatchesAreReachable(batches: seq<seq<Event>>, spared: set<Addr>)
    requires RunOk(START, batches, spared)
    ensures Reachable(Run(START, batches), spared)
  {
    hide Run, RunOk;
    var w := Run(START, batches);
    assert BatchOk(w, [], spared) && w == RunEvents(w, []);
  }
}
