/**
 Whole runs judged from outside: which events end a connection, and how the bytes a remote
 sent relate to the bytes the other remote got.
 */
module RelayOutcomes {
  import opened Wrappers
  import opened Relay
  import opened RelayRuns
  import RelayTheorems

  // ---------------------------------------------------------------- what serving the listening socket does

  /** A context as it starts: nothing read, delivered, queued or marked, waiting for input and hang-ups. */
  ghost predicate Pristine(c: Ctx, fd: int, peer: Option<Addr>) {
    && c.fd == fd && c.peer == peer && c.taken == [] && c.delivered == [] && c.win == Win(0, 0, false)
    && !c.readEof && !c.writeEof && !c.shut && c.mask == Interest(true, false, true)
  }

  /** Which contexts an accept makes, with which descriptors, and what becomes of them at once. */
  lemma AcceptExactly(w: World, r: AcceptResult)
    requires Safe(w)
    ensures var v, a, b := Accept(w, r), w.next, w.next + 1;
            && v.dead == w.dead && Grows(w, v)
            && match r
               case NotAccepted => v == w
               case Refused(fd) =>
                 && v.ctxs.Keys == w.ctxs.Keys + {a} && Pristine(v.ctxs[a], fd, None)
                 && v.registered == w.registered && v.freed == w.freed + [a]
               case Unrouted(fd) =>
                 && v.ctxs.Keys == w.ctxs.Keys + {a, b} && Pristine(v.ctxs[a], fd, None) && Pristine(v.ctxs[b], 0, None)
                 && v.registered == w.registered && v.freed == w.freed + [a, b]
               case Unreachable(fd) =>
                 && v.ctxs.Keys == w.ctxs.Keys + {a, b} && Pristine(v.ctxs[a], fd, None) && Pristine(v.ctxs[b], -1, None)
                 && v.registered == w.registered && v.freed == w.freed + [a, b]
               case Established(client, upstream) =>
                 && v.ctxs.Keys == w.ctxs.Keys + {a, b}
                 && Pristine(v.ctxs[a], client, Some(b)) && Pristine(v.ctxs[b], upstream, Some(a))
                 && v.registered == w.registered + {a, b} && v.freed == w.freed
  {
    hide NoDuplicates, Closing, Links, Windows, Descriptors;
  }

  // ---------------------------------------------------------------- who is given up, and when

  /** The event makes the handler give `a` up. */
  ghost predicate GivenUp(w: World, e: Event, a: Addr) {
    && e.Ready? && e.addr == a && a in w.ctxs
    && var c := w.ctxs[a];
    if c.peer.Some? then c.peer.value in w.ctxs && GivesUp(c, w.ctxs[c.peer.value], e.bits, e.io)
    else !Flushes(c, e.bits) || Refuses(e.io.send) || (e.io.send.Room? && e.io.send.n >= c.win.len)
  }

  ghost predicate GivenUpIn(w: World, events: seq<Event>, a: Addr) {
    exists i :: 0 <= i < |events| && GivenUp(RunEvents(w, events[..i]), events[i], a)
  }

  lemma StepGivesUp(w: World, e: Event, a: Addr)
    requires Safe(w) && a in w.registered && (e.Ready? ==> e.addr in w.registered)
    ensures a in Step(w, e).registered <==> !GivenUp(w, e, a)
  {
    hide Handle, Dispatch, NoDuplicates, Closing, Descriptors, WindowOk, GivesUp;
    if e.Ready? && e.addr == a {
      var c := w.ctxs[a];
      assert WindowOk(c) && LinkOk(w, a);
      if c.peer.Some? {
        DispatchLinked(w, a, e.bits, e.io);
        GivesUpExactly(c, w.ctxs[c.mate], e.bits, e.io);
      } else {
        DispatchAlone(w, a, e.bits, e.io);
        AloneExactly(c, e.bits, e.io);
      }
    } else {
      StepRegisters(w, e);
    }
  }

  /** Nobody is registered again, and nobody is released before the batch is over. */
  lemma StepNeverReturns(w: World, e: Event, a: Addr)
    requires Safe(w) && a in w.ctxs && (e.Ready? ==> e.addr in w.registered)
    ensures a in Step(w, e).ctxs && (a !in w.registered ==> a !in Step(w, e).registered)
    ensures a !in w.freed ==> a !in Step(w, e).freed
  {
    hide Dispatch, NewCtx, NoDuplicates, Closing, Descriptors;
    if e.Ready? { DispatchFrame(w, e.addr, e.bits, e.io); }
  }

  /** Within a batch a context leaves the epoll set for the dead list exactly by an event that gives it up. */
  lemma {:induction false} EventsGiveUp(w: World, events: seq<Event>, a: Addr, spared: set<Addr>)
    requires Safe(w) && BatchOk(w, events, spared) && a in w.registered
    ensures var v := RunEvents(w, events);
            && a in v.ctxs && a !in v.freed
            && (a in v.registered <==> !GivenUpIn(w, events, a)) && (a in v.dead <==> GivenUpIn(w, events, a))
    decreases |events|
  {
    hide Step, Safe, GivenUp, GivenUpIn;
    EventsKeep(w, events, spared);
    if |events| > 0 {
      var n := |events| - 1;
      var front, e := events[..n], events[n];
      assert forall i :: 0 <= i < n ==> front[i] == events[i];
      EventsGiveUp(w, front, a, spared);
      EventsKeep(w, front, spared);
      var v := RunEvents(w, front);
      GivenUpSnoc(w, events, a);
      if a in v.registered { StepGivesUp(v, e, a); }
      StepNeverReturns(v, e, a);
    } else {
      assert RunEvents(w, events) == w;
      NoneGivenUp(w, events, a);
      InPhase(w, a);
    }
    InPhase(RunEvents(w, events), a);
  }

  lemma NoneGivenUp(w: World, events: seq<Event>, a: Addr)
    requires |events| == 0
    ensures !GivenUpIn(w, events, a)
  {}

  lemma GivenUpSnoc(w: World, events: seq<Event>, a: Addr)
    requires |events| > 0
    ensures var n := |events| - 1;
            GivenUpIn(w, events, a) <==> GivenUpIn(w, events[..n], a) || GivenUp(RunEvents(w, events[..n]), events[n], a)
  {
    hide RunEvents, GivenUp;
    var n := |events| - 1;
    var front := events[..n];
    assert forall i :: 0 <= i < n ==> front[i] == events[i] && front[..i] == events[..i];
    if GivenUpIn(w, front, a) {
      var i :| 0 <= i < n && GivenUp(RunEvents(w, front[..i]), front[i], a);
      assert GivenUp(RunEvents(w, events[..i]), events[i], a);
    }
    if GivenUpIn(w, events, a) {
      var i :| 0 <= i <= n && GivenUp(RunEvents(w, events[..i]), events[i], a);
      if i < n { assert GivenUp(RunEvents(w, front[..i]), front[i], a); }
    }
  }

  lemma InPhase(w: World, a: Addr)
    requires Safe(w)
    ensures a in w.registered ==> a in w.ctxs && a !in w.dead && a !in w.freed
    ensures a in w.ctxs && a !in w.registered && a !in w.freed ==> a in w.dead
  {
    hide NoDuplicates, Closing, Links, Windows, Descriptors;
  }

  /** Some batch of a run gives `a` up. */
  ghost predicate GivenUpBy(w: World, batches: seq<seq<Event>>, a: Addr) {
    exists k :: 0 <= k < |batches| && GivenUpIn(Run(w, batches[..k]), batches[k], a)
  }

  lemma GivenUpBySnoc(w: World, batches: seq<seq<Event>>, a: Addr)
    requires |batches| > 0
    ensures var n := |batches| - 1;
            GivenUpBy(w, batches, a) <==> GivenUpBy(w, batches[..n], a) || GivenUpIn(Run(w, batches[..n]), batches[n], a)
  {
    hide Run, GivenUpIn;
    var n := |batches| - 1;
    var front := batches[..n];
    assert forall k :: 0 <= k < n ==> front[k] == batches[k] && front[..k] == batches[..k];
    if GivenUpBy(w, front, a) {
      var k :| 0 <= k < n && GivenUpIn(Run(w, front[..k]), front[k], a);
      assert GivenUpIn(Run(w, batches[..k]), batches[k], a);
    }
    if GivenUpBy(w, batches, a) {
      var k :| 0 <= k <= n && GivenUpIn(Run(w, batches[..k]), batches[k], a);
      if k < n { assert GivenUpIn(Run(w, front[..k]), front[k], a); }
    }
  }

  /** Over whole runs a context is released exactly when some event gave it up, and stays registered otherwise. */
  lemma {:induction false} ReleasedExactly(w: World, batches: seq<seq<Event>>, a: Addr, spared: set<Addr>)
    requires Safe(w) && RunOk(w, batches, spared) && a in w.registered
    ensures var v := Run(w, batches);
            && a in v.ctxs && a !in v.dead
            && (a in v.registered <==> !GivenUpBy(w, batches, a)) && (a in v.freed <==> GivenUpBy(w, batches, a))
    decreases |batches|
  {
    hide RunEvents, BatchOk, Safe, GivenUpIn;
    if |batches| > 0 {
      var n := |batches| - 1;
      var front := batches[..n];
      ReleasedExactly(w, front, a, spared);
      RunKeeps(w, front, spared);
      var v := Run(w, front);
      GivenUpBySnoc(w, batches, a);
      if a in v.registered {
        EventsGiveUp(v, batches[n], a, spared);
      } else {
        EventsFollow(v, batches[n], spared);
        NeverReturns(v, batches[n], a, spared);
      }
      EventsKeep(v, batches[n], spared);
      InPhase(RunEvents(v, batches[n]), a);
    } else {
      InPhase(w, a);
    }
  }

  lemma {:induction false} NeverReturns(w: World, events: seq<Event>, a: Addr, spared: set<Addr>)
    requires Safe(w) && BatchOk(w, events, spared) && a in w.ctxs && a !in w.registered
    ensures a in RunEvents(w, events).ctxs && a !in RunEvents(w, events).registered
    decreases |events|
  {
    hide Step, Safe;
    if |events| > 0 {
      var n := |events| - 1;
      var front := events[..n];
      assert forall i :: 0 <= i < n ==> front[i] == events[i];
      NeverReturns(w, front, a, spared);
      EventsKeep(w, front, spared);
      StepNeverReturns(RunEvents(w, front), events[n], a);
    }
  }

  // ---------------------------------------------------------------- bytes in, bytes out

  /** Everything read, in order, before any hook saw it. */
  function Data(taken: seq<Chunk>): seq<Byte> {
    if |taken| == 0 then [] else Data(taken[..|taken| - 1]) + taken[|taken| - 1].data
  }

  /** The remote behind `a` sends the stream `s`: what a read finds is the next of it that was not read yet. */
  ghost predicate Feeds(w: World, e: Event, a: Addr, s: seq<Byte>) {
    e.Ready? && e.addr == a && a in w.ctxs && w.ctxs[a].peer.Some? && w.ctxs[a].peer.value in w.ctxs
    && ReadsData(w.ctxs[a], w.ctxs[w.ctxs[a].peer.value], e.bits, e.io)
    ==> var read := |Data(w.ctxs[a].taken)|; read <= |s| && e.io.recv.data <= s[read..]
  }

  ghost predicate EventsFeed(w: World, events: seq<Event>, a: Addr, s: seq<Byte>) {
    forall i :: 0 <= i < |events| ==> Feeds(RunEvents(w, events[..i]), events[i], a, s)
  }

  ghost predicate RunFeeds(w: World, batches: seq<seq<Event>>, a: Addr, s: seq<Byte>) {
    forall k :: 0 <= k < |batches| ==> EventsFeed(Run(w, batches[..k]), batches[k], a, s)
  }

  /** What was read from `a` so far is the beginning of the stream. */
  ghost predicate ReadInOrder(w: World, a: Addr, s: seq<Byte>) {
    a in w.ctxs ==> Data(w.ctxs[a].taken) <= s
  }

  lemma DataAppend(taken: seq<Chunk>, chunk: Chunk)
    ensures Data(taken + [chunk]) == Data(taken) + chunk.data
  {
    assert (taken + [chunk])[..|taken|] == taken;
  }

  /** The log of `a` after an event: one more chunk if the event read it, the same otherwise. */
  lemma StepLogs(w: World, e: Event, a: Addr)
    requires Safe(w) && (e.Ready? ==> e.addr in w.registered) && a in w.ctxs
    ensures a in Step(w, e).ctxs
    ensures var c, d := w.ctxs[a], Step(w, e).ctxs[a];
            if e.Ready? && e.addr == a && c.peer.Some? && c.peer.value in w.ctxs
               && ReadsData(c, w.ctxs[c.peer.value], e.bits, e.io)
            then
              && |d.taken| == |c.taken| + 1 && c.taken <= d.taken && d.taken[|c.taken|].reply == e.io.reply
              && d.taken[|c.taken|].data <= e.io.recv.data
              && |d.taken[|c.taken|].data| == Min(|e.io.recv.data|, 1023)
            else d.taken == c.taken
  {
    hide Handle, Dispatch, NewCtx, NoDuplicates, Closing, Descriptors, WindowOk, ReadsData, Window;
    match e
    case Incoming(r) => AcceptPasses(w, r, a);
    case Ready(x, bits, io) =>
      var c := w.ctxs[x];
      assert LinkOk(w, x) && WindowOk(c);
      DispatchFrame(w, x, bits, io);
      if c.peer.Some? {
        DispatchLinked(w, x, bits, io);
        ReadTakes(c, w.ctxs[c.mate], bits, io);
      } else {
        DispatchAlone(w, x, bits, io);
      }
  }

  lemma NewLogs(w: World, e: Event, a: Addr)
    requires Safe(w) && (e.Ready? ==> e.addr in w.registered) && a !in w.ctxs && a in Step(w, e).ctxs
    ensures Step(w, e).ctxs[a].taken == []
  {
    hide Dispatch, NoDuplicates, Closing, Descriptors;
    if e.Ready? { DispatchFrame(w, e.addr, e.bits, e.io); }
  }

  /** What the events read from `a`: of each read all that arrived, or its first 1023 bytes. */
  ghost function Intake(w: World, events: seq<Event>, a: Addr): seq<Byte> {
    if |events| == 0 then []
    else
      var n := |events| - 1;
      var v, e := RunEvents(w, events[..n]), events[n];
      Intake(w, events[..n], a)
      + (if e.Ready? && e.addr == a && a in v.ctxs && v.ctxs[a].peer.Some? && v.ctxs[a].peer.value in v.ctxs
            && ReadsData(v.ctxs[a], v.ctxs[v.ctxs[a].peer.value], e.bits, e.io)
         then e.io.recv.data[..Min(|e.io.recv.data|, 1023)] else [])
  }

  ghost function RunIntake(w: World, batches: seq<seq<Event>>, a: Addr): seq<Byte> {
    if |batches| == 0 then []
    else
      var n := |batches| - 1;
      RunIntake(w, batches[..n], a) + Intake(Run(w, batches[..n]), batches[n], a)
  }

  /** The log of a context, over any events, is what they read from it. */
  lemma {:induction false} EventsLog(w: World, events: seq<Event>, a: Addr, spared: set<Addr>)
    requires Safe(w) && BatchOk(w, events, spared) && a in w.ctxs
    ensures var v := RunEvents(w, events); a in v.ctxs && Data(v.ctxs[a].taken) == Data(w.ctxs[a].taken) + Intake(w, events, a)
    decreases |events|
  {
    hide Step, Safe, ReadsData, Data;
    if |events| > 0 {
      var n := |events| - 1;
      var front := events[..n];
      assert forall i :: 0 <= i < n ==> front[i] == events[i];
      EventsLog(w, front, a, spared);
      EventsKeep(w, front, spared);
      var v := RunEvents(w, front);
      StepLogs(v, events[n], a);
      var before, after := v.ctxs[a].taken, Step(v, events[n]).ctxs[a].taken;
      if |after| > |before| {
        assert after == before + [after[|before|]];
        DataAppend(before, after[|before|]);
      }
    }
  }

  lemma {:induction false} RunLogs(w: World, batches: seq<seq<Event>>, a: Addr, spared: set<Addr>)
    requires Safe(w) && RunOk(w, batches, spared) && a in w.ctxs
    ensures var v := Run(w, batches); a in v.ctxs && Data(v.ctxs[a].taken) == Data(w.ctxs[a].taken) + RunIntake(w, batches, a)
    decreases |batches|
  {
    hide RunEvents, BatchOk, Safe, Data, Intake;
    if |batches| > 0 {
      var n := |batches| - 1;
      RunLogs(w, batches[..n], a, spared);
      RunKeeps(w, batches[..n], spared);
      EventsLog(Run(w, batches[..n]), batches[n], a, spared);
    }
  }

  lemma StepReadsInOrder(w: World, e: Event, a: Addr, s: seq<Byte>)
    requires Safe(w) && (e.Ready? ==> e.addr in w.registered) && Feeds(w, e, a, s) && ReadInOrder(w, a, s)
    ensures ReadInOrder(Step(w, e), a, s)
  {
    hide Step, Safe, ReadsData;
    if a in w.ctxs {
      StepLogs(w, e, a);
      var before, after := w.ctxs[a].taken, Step(w, e).ctxs[a].taken;
      if |after| > |before| {
        assert after == before + [after[|before|]];
        DataAppend(before, after[|before|]);
      }
    } else if a in Step(w, e).ctxs {
      NewLogs(w, e, a);
    }
  }

  lemma {:induction false} EventsReadInOrder(w: World, events: seq<Event>, a: Addr, s: seq<Byte>, spared: set<Addr>)
    requires Safe(w) && BatchOk(w, events, spared) && EventsFeed(w, events, a, s) && ReadInOrder(w, a, s)
    ensures ReadInOrder(RunEvents(w, events), a, s)
    decreases |events|
  {
    hide Step, Safe, Feeds, ReadInOrder;
    if |events| > 0 {
      var n := |events| - 1;
      var front := events[..n];
      assert forall i :: 0 <= i < n ==> front[i] == events[i] && front[..i] == events[..i];
      EventsReadInOrder(w, front, a, s, spared);
      EventsKeep(w, front, spared);
      StepReadsInOrder(RunEvents(w, front), events[n], a, s);
    }
  }

  lemma {:induction false} RunReadsInOrder(w: World, batches: seq<seq<Event>>, a: Addr, s: seq<Byte>, spared: set<Addr>)
    requires Safe(w) && RunOk(w, batches, spared) && RunFeeds(w, batches, a, s) && ReadInOrder(w, a, s)
    ensures ReadInOrder(Run(w, batches), a, s)
    decreases |batches|
  {
    hide RunEvents, BatchOk, Safe, EventsFeed;
    if |batches| > 0 {
      var n := |batches| - 1;
      var front := batches[..n];
      assert forall k :: 0 <= k < n ==> front[k] == batches[k] && front[..k] == batches[..k];
      RunReadsInOrder(w, front, a, s, spared);
      RunKeeps(w, front, spared);
      EventsReadInOrder(Run(w, front), batches[n], a, s, spared);
    }
  }

  /** No hook touched the data. */
  ghost predicate Untouched(taken: seq<Chunk>) {
    forall i :: 0 <= i < |taken| ==> !Drops(taken[i].reply) && !Replaces(taken[i].reply)
  }

  lemma {:induction false} UntouchedIsForwarded(taken: seq<Chunk>)
    requires Untouched(taken)
    ensures Forwarded(taken) == Data(taken)
    decreases |taken|
  {
    if |taken| > 0 {
      var n := |taken| - 1;
      assert forall i :: 0 <= i < n ==> taken[..n][i] == taken[i];
      UntouchedIsForwarded(taken[..n]);
      HookRule(taken[n].data, taken[n].reply);
    }
  }

  /**
   End to end: in every state of every run in which the pair was not read over, if the remote behind `a`
   sends the stream `s` and no hook touched the data, then what the remote behind `b` got is a beginning
   of `s`, with nothing lost, repeated or out of order; and with the queue of `b` it is all that was read.
   */
  lemma BytesArriveInOrder(batches: seq<seq<Event>>, events: seq<Event>, a: Addr, b: Addr, s: seq<Byte>)
    requires RunOk(START, batches, {a, b}) && BatchOk(Run(START, batches), events, {a, b})
    requires RunFeeds(START, batches, a, s) && EventsFeed(Run(START, batches), events, a, s)
    requires var w := RunEvents(Run(START, batches), events);
             b in w.ctxs && w.ctxs[b].mate == a && a in w.ctxs && Untouched(w.ctxs[a].taken)
    ensures var c, d := RunEvents(Run(START, batches), events).ctxs[b], RunEvents(Run(START, batches), events).ctxs[a];
            && c.delivered <= Data(d.taken) <= s
            && (c.peer.Some? || c.win.partial ==> c.delivered + Window(c) == Data(d.taken))
  {
    hide RunEvents, Run, RunOk, BatchOk, RunFeeds, EventsFeed, Safe, Flows, Window, Forwarded, Data;
    var w := RunEvents(Run(START, batches), events);
    StartIsSafe({a, b});
    RunReadsInOrder(START, batches, a, s, {a, b});
    RunKeeps(START, batches, {a, b});
    EventsReadInOrder(Run(START, batches), events, a, s, {a, b});
    assert Reachable(w, {a, b});
    UntouchedIsForwarded(w.ctxs[a].taken);
    assert {b, a} == {a, b};
    RelayTheorems.PrefixSafety(w, b);
    if w.ctxs[b].peer.Some? { LinkedConserves(w, a, b); }
  }

  lemma LinkedConserves(w: World, a: Addr, b: Addr)
    requires Reachable(w, {a, b}) && a in w.ctxs && b in w.ctxs && w.ctxs[b].mate == a && w.ctxs[b].peer.Some?
    ensures w.ctxs[b].delivered + Window(w.ctxs[b]) == Forwarded(w.ctxs[a].taken)
  {
    hide Reachable, Flows;
    ReachableIsSafe(w, {a, b});
    assert LinkOk(w, b);
    RelayTheorems.StreamConservation(w, a, b);
  }
}
