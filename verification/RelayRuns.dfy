/**
 Whole runs of the event loop: accept, dispatch, the dead list and its release at the
 end of each batch. A run is a sequence of batches, each a sequence of events, and
 every state between two events counts as reachable.
 */
module RelayRuns {
  import opened Wrappers
  import opened Relay

  /** How serving the listening socket can end; a descriptor appears once accept has returned it. */
  datatype AcceptResult =
    | NotAccepted
    | Refused(fd: int)                          // no peer name, or the on_connect hook drops
    | Unrouted(fd: int)                         // no upstream address for this mode
    | Unreachable(fd: int)                      // connecting to the upstream fails
    | Established(client: int, upstream: int)

  datatype Event =
    | Incoming(result: AcceptResult)
    | Ready(addr: Addr, bits: Interest, io: Io)

  /**
   `ctxs` holds every context ever allocated. `registered` is the epoll set; `dead`,
   `freed` and `closed` list contexts in the order the loop collects them, frees them and
   closes their descriptors.
   */
  datatype World = World(
    ctxs: map<Addr, Ctx>, next: Addr, registered: set<Addr>,
    dead: seq<Addr>, freed: seq<Addr>, closed: seq<Addr>)

  const START := World(map[], 0, {}, [], [], [])

  function Cleanup(w: World, a: Addr): World
    requires a in w.ctxs
  {
    w.(freed := w.freed + [a], closed := w.closed + (if w.ctxs[a].fd > 0 then [a] else []))
  }

  /** A context allocated and released within one accept. */
  function Reject(w: World, fd: int): World {
    Cleanup(w.(ctxs := w.ctxs[w.next := NewCtx(fd, None, w.next)], next := w.next + 1), w.next)
  }

  function Link(w: World, client: int, upstream: int): World {
    var a, b := w.next, w.next + 1;
    w.(ctxs := w.ctxs[a := NewCtx(client, Some(b), b)][b := NewCtx(upstream, Some(a), a)],
       next := b + 1, registered := w.registered + {a, b})
  }

  function Accept(w: World, r: AcceptResult): World {
    match r
    case NotAccepted => w
    case Refused(fd) => Reject(w, fd)
    case Unrouted(fd) => Reject(Reject(w, fd), 0)
    case Unreachable(fd) => Reject(Reject(w, fd), -1)
    case Established(client, upstream) => Link(w, client, upstream)
  }

  /** The peer's state, read through the link. */
  function PeerOf(w: World, c: Ctx): Option<Ctx> {
    if c.peer.Some? && c.peer.value in w.ctxs then Some(w.ctxs[c.peer.value]) else None
  }

  /** The handler returned `keep`; a context it gave up leaves the epoll set for the dead list. */
  function Collect(w: World, a: Addr, ctxs: map<Addr, Ctx>, keep: bool): World {
    if keep then w.(ctxs := ctxs)
    else w.(ctxs := ctxs, registered := w.registered - {a}, dead := w.dead + [a])
  }

  function Handled(w: World, a: Addr, bits: Interest, io: Io): Outcome
    requires a in w.ctxs
  {
    Handle(w.ctxs[a], PeerOf(w, w.ctxs[a]), bits, io)
  }

  /** The contexts after the call: the one dispatched and, through the link, its peer. */
  function Stored(w: World, a: Addr, o: Outcome): map<Addr, Ctx>
    requires a in w.ctxs
  {
    var own := w.ctxs[a := o.ctx];
    if w.ctxs[a].peer.Some? && o.peer.Some? then own[w.ctxs[a].peer.value := o.peer.value] else own
  }

  function Dispatch(w: World, a: Addr, bits: Interest, io: Io): World
    requires a in w.ctxs
  {
    var o := Handled(w, a, bits, io);
    Collect(w, a, Stored(w, a, o), o.keep)
  }

  function Step(w: World, e: Event): World {
    match e
    case Incoming(r) => Accept(w, r)
    case Ready(a, bits, io) => if a in w.ctxs then Dispatch(w, a, bits, io) else w
  }

  function RunEvents(w: World, events: seq<Event>): World {
    if |events| == 0 then w else Step(RunEvents(w, events[..|events| - 1]), events[|events| - 1])
  }

  /** The contexts of `dead` whose descriptors are closed when they are freed. */
  function Closing(ctxs: map<Addr, Ctx>, dead: seq<Addr>): seq<Addr> {
    if |dead| == 0 then []
    else
      var a := dead[|dead| - 1];
      Closing(ctxs, dead[..|dead| - 1]) + (if a in ctxs && ctxs[a].fd > 0 then [a] else [])
  }

  /** The end of a batch: every dead context is released. */
  function EndBatch(w: World): World {
    w.(dead := [], freed := w.freed + w.dead, closed := w.closed + Closing(w.ctxs, w.dead))
  }

  function Run(w: World, batches: seq<seq<Event>>): World {
    if |batches| == 0 then w
    else EndBatch(RunEvents(Run(w, batches[..|batches| - 1]), batches[|batches| - 1]))
  }

  // ---------------------------------------------------------------- environment

  /** No descriptor handed out by the kernel is still held by an unreleased context. */
  ghost predicate FreshFd(w: World, fd: int) {
    forall a :: a in w.ctxs && a !in w.freed ==> w.ctxs[a].fd != fd
  }

  ghost predicate FreshFds(w: World, r: AcceptResult) {
    match r
    case NotAccepted => true
    case Refused(fd) => FreshFd(w, fd)
    case Unrouted(fd) => FreshFd(w, fd)
    case Unreachable(fd) => FreshFd(w, fd)
    case Established(client, upstream) => client != upstream && FreshFd(w, client) && FreshFd(w, upstream)
  }

  /** The event does not read data over the queue of a context in `spared`. */
  ghost predicate Spares(w: World, e: Event, spared: set<Addr>) {
    e.Ready? && e.addr in spared && e.addr in w.ctxs ==> !ReadsOver(w.ctxs[e.addr], e.bits, e.io)
  }

  /** epoll reports only contexts registered when it was asked, each at most once. */
  ghost predicate Reported(w: World, events: seq<Event>) {
    && (forall i :: 0 <= i < |events| && events[i].Ready? ==> events[i].addr in w.registered)
    && (forall i, j :: 0 <= i < j < |events| && events[i].Ready? && events[j].Ready? ==> events[i].addr != events[j].addr)
  }

  ghost predicate Mentions(events: seq<Event>, a: Addr) {
    exists i :: 0 <= i < |events| && events[i].Ready? && events[i].addr == a
  }

  /** A batch the environment can produce, in which no context of `spared` is read over its own queue. */
  ghost predicate BatchOk(w: World, events: seq<Event>, spared: set<Addr>) {
    Reported(w, events) && StepsOk(w, events, spared)
  }

  /** Every event is possible in the state the ones before it lead to. */
  ghost predicate StepsOk(w: World, events: seq<Event>, spared: set<Addr>) {
    |events| == 0 ||
    (var n := |events| - 1;
     StepsOk(w, events[..n], spared) && StepOk(RunEvents(w, events[..n]), events[n], spared))
  }

  ghost predicate StepOk(w: World, e: Event, spared: set<Addr>) {
    && (e.Incoming? ==> FreshFds(w, e.result))
    && Spares(w, e, spared)
  }

  ghost predicate RunOk(w: World, batches: seq<seq<Event>>, spared: set<Addr>) {
    |batches| == 0 ||
    (var n := |batches| - 1;
     RunOk(w, batches[..n], spared) && BatchOk(Run(w, batches[..n]), batches[n], spared))
  }

  /** Some run is in state `w` after some whole batches and part of another. */
  ghost predicate Reachable(w: World, spared: set<Addr>) {
    exists batches: seq<seq<Event>>, events: seq<Event> ::
      && RunOk(START, batches, spared)
      && BatchOk(Run(START, batches), events, spared)
      && w == RunEvents(Run(START, batches), events)
  }

  // ---------------------------------------------------------------- invariants

  /** A context is registered, awaiting release, or released: one of the three. */
  ghost predicate Phases(w: World) {
    && (forall a :: a in w.ctxs <==> 0 <= a < w.next)
    && w.registered <= w.ctxs.Keys
    && (forall a :: a in w.dead ==> a in w.ctxs && a !in w.registered && a !in w.freed)
    && (forall a :: a in w.freed ==> a in w.ctxs && a !in w.registered)
    && (forall a :: a in w.ctxs ==> a in w.registered || a in w.dead || a in w.freed)
    && NoDuplicates(w.dead) && NoDuplicates(w.freed)
    && w.closed == Closing(w.ctxs, w.freed)
  }

  /** Links are symmetric, join registered contexts only, and always the original two. */
  ghost predicate Links(w: World) {
    forall a :: a in w.ctxs ==> LinkOk(w, a)
  }

  ghost predicate LinkOk(w: World, a: Addr)
    requires a in w.ctxs
  {
    var c := w.ctxs[a];
    && c.mate in w.ctxs && w.ctxs[c.mate].mate == a
    && (a in w.registered ==> c.mate != a)
    && (c.peer.Some? ==> c.peer.value == c.mate && w.ctxs[c.mate].peer == Some(a) && a in w.registered)
  }

  ghost predicate Windows(w: World) {
    forall a :: a in w.ctxs ==> WindowOk(w.ctxs[a])
  }

  /** Streams are conserved and masks agree, for every pair of contexts in `spared`. */
  ghost predicate Flows(w: World, spared: set<Addr>)
  {
    forall a :: a in w.ctxs && a in spared && w.ctxs[a].mate in spared ==>
      w.ctxs[a].mate in w.ctxs && PairOk(w.ctxs[a], w.ctxs[w.ctxs[a].mate])
  }

  /** Unreleased contexts hold different descriptors. */
  ghost predicate Descriptors(w: World) {
    forall a, b :: a in w.ctxs && b in w.ctxs && a !in w.freed && b !in w.freed && a != b
      ==> w.ctxs[a].fd != w.ctxs[b].fd
  }

  ghost predicate Safe(w: World) { Phases(w) && Links(w) && Windows(w) && Descriptors(w) }

  // ---------------------------------------------------------------- accept

  lemma ClosingExtends(m: map<Addr, Ctx>, n: map<Addr, Ctx>, dead: seq<Addr>)
    requires forall a :: a in dead ==> a in m && a in n && n[a].fd == m[a].fd
    ensures Closing(n, dead) == Closing(m, dead)
  {
    if |dead| > 0 {
      assert forall a :: a in dead[..|dead| - 1] ==> a in dead;
      ClosingExtends(m, n, dead[..|dead| - 1]);
    }
  }

  lemma ClosingAppend(m: map<Addr, Ctx>, s: seq<Addr>, t: seq<Addr>)
    ensures Closing(m, s + t) == Closing(m, s) + Closing(m, t)
  {
    if |t| == 0 {
      assert s + t == s;
    } else {
      assert (s + t)[..|s + t| - 1] == s + t[..|t| - 1];
      ClosingAppend(m, s, t[..|t| - 1]);
    }
  }

  /** Old contexts are untouched; new ones are fresh. */
  ghost predicate Grows(w: World, w1: World) {
    && w.ctxs.Keys <= w1.ctxs.Keys
    && (forall a :: a in w.ctxs ==> w1.ctxs[a] == w.ctxs[a])
  }

  lemma NewPairOk(fd: int, p: Option<Addr>, m: Addr, gd: int, r: Option<Addr>, n: Addr)
    requires p.Some? <==> r.Some?
    ensures var c, q := NewCtx(fd, p, m), NewCtx(gd, r, n);
            WindowOk(c) && WindowOk(q) && PairOk(c, q) && c.fd == fd && c.peer == p && c.mate == m
  {}

  lemma RejectPhases(w: World, fd: int)
    requires Phases(w)
    ensures Phases(Reject(w, fd)) && Grows(w, Reject(w, fd))
  {
    hide NewCtx, Closing;
    RejectCloses(w, fd);
    assert w.next !in w.freed;
  }

  lemma RejectCloses(w: World, fd: int)
    requires Phases(w)
    ensures var w1 := Reject(w, fd); w1.closed == Closing(w1.ctxs, w1.freed)
  {
    hide NewCtx, NoDuplicates;
    var w1 := Reject(w, fd);
    ClosingExtends(w.ctxs, w1.ctxs, w.freed);
    assert w1.freed[..|w.freed|] == w.freed;
  }

  lemma LinkPhases(w: World, client: int, upstream: int)
    requires Phases(w)
    ensures Phases(Link(w, client, upstream)) && Grows(w, Link(w, client, upstream))
  {
    hide NewCtx;
    ClosingExtends(w.ctxs, Link(w, client, upstream).ctxs, w.freed);
  }

  lemma RejectLinks(w: World, fd: int, spared: set<Addr>)
    requires Phases(w) && Links(w) && Windows(w)
    ensures Links(Reject(w, fd)) && Windows(Reject(w, fd)) && (Flows(w, spared) ==> Flows(Reject(w, fd), spared))
  {
    hide NewCtx, WindowOk, PairOk, NoDuplicates, Closing;
    var w1 := Reject(w, fd);
    NewPairOk(fd, None, w.next, fd, None, w.next);
    forall a | a in w1.ctxs ensures LinkOk(w1, a) {
      if a != w.next { assert LinkOk(w, a); }
    }
  }

  lemma LinkFlows(w: World, client: int, upstream: int, spared: set<Addr>)
    requires Phases(w) && Flows(w, spared)
    ensures Flows(Link(w, client, upstream), spared)
  {
    hide NewCtx, WindowOk, PairOk, NoDuplicates, Closing;
    var a, b := w.next, w.next + 1;
    NewPairOk(client, Some(b), b, upstream, Some(a), a);
    NewPairOk(upstream, Some(a), a, client, Some(b), b);
  }

  lemma LinkLinks(w: World, client: int, upstream: int)
    requires Phases(w) && Links(w) && Windows(w)
    ensures var w1 := Link(w, client, upstream); Links(w1) && Windows(w1)
  {
    hide NewCtx, WindowOk, PairOk, NoDuplicates, Closing;
    var w1 := Link(w, client, upstream);
    var a, b := w.next, w.next + 1;
    NewPairOk(client, Some(b), b, upstream, Some(a), a);
    NewPairOk(upstream, Some(a), a, client, Some(b), b);
    forall x | x in w1.ctxs ensures LinkOk(w1, x) {
      if x < a { assert LinkOk(w, x); }
    }
  }

  lemma RejectKeeps(w: World, fd: int, spared: set<Addr>)
    requires Safe(w)
    ensures Safe(Reject(w, fd)) && (Flows(w, spared) ==> Flows(Reject(w, fd), spared))
  {
    hide Phases, Links, Windows, Flows, NewCtx;
    RejectPhases(w, fd);
    RejectLinks(w, fd, spared);
  }

  lemma NewCtxFd(fd: int, p: Option<Addr>, m: Addr)
    ensures NewCtx(fd, p, m).fd == fd
  {}

  lemma LinkDescriptors(w: World, client: int, upstream: int)
    requires Descriptors(w) && FreshFd(w, client) && FreshFd(w, upstream) && client != upstream
    ensures Descriptors(Link(w, client, upstream))
  {
    hide NewCtx;
    NewCtxFd(client, Some(w.next + 1), w.next + 1);
    NewCtxFd(upstream, Some(w.next), w.next);
    var w1 := Link(w, client, upstream);
    forall x, y | x in w1.ctxs && y in w1.ctxs && x !in w1.freed && y !in w1.freed && x != y
      ensures w1.ctxs[x].fd != w1.ctxs[y].fd
    {
    }
  }

  lemma LinkKeeps(w: World, client: int, upstream: int, spared: set<Addr>)
    requires Safe(w) && FreshFd(w, client) && FreshFd(w, upstream) && client != upstream
    ensures Safe(Link(w, client, upstream)) && (Flows(w, spared) ==> Flows(Link(w, client, upstream), spared))
  {
    hide Phases, Links, Windows, Flows, Descriptors, Link;
    LinkPhases(w, client, upstream);
    LinkLinks(w, client, upstream);
    if Flows(w, spared) { LinkFlows(w, client, upstream, spared); }
    LinkDescriptors(w, client, upstream);
  }

  lemma AcceptKeeps(w: World, r: AcceptResult, spared: set<Addr>)
    requires Safe(w) && FreshFds(w, r)
    ensures Safe(Accept(w, r)) && (Flows(w, spared) ==> Flows(Accept(w, r), spared))
  {
    hide Reject, Link, Phases, Links, Windows, Descriptors, Flows;
    match r
    case NotAccepted =>
    case Refused(fd) => RejectKeeps(w, fd, spared);
    case Unrouted(fd) => RejectKeeps(w, fd, spared); RejectKeeps(Reject(w, fd), 0, spared);
    case Unreachable(fd) => RejectKeeps(w, fd, spared); RejectKeeps(Reject(w, fd), -1, spared);
    case Established(client, upstream) => LinkKeeps(w, client, upstream, spared);
  }

  // ---------------------------------------------------------------- dispatch

  lemma DispatchLinked(w: World, a: Addr, bits: Interest, io: Io)
    requires a in w.ctxs && Links(w) && w.ctxs[a].peer.Some?
    ensures var c := w.ctxs[a];
            var o := Handle(c, Some(w.ctxs[c.mate]), bits, io);
            && c.peer == Some(c.mate) && c.mate in w.ctxs && c.mate != a
            && LinksOk(c, w.ctxs[c.mate], o)
            && Dispatch(w, a, bits, io) == Collect(w, a, w.ctxs[a := o.ctx][c.mate := o.peer.value], o.keep)
  {
    hide Handle;
    assert LinkOk(w, a);
    HandleLinks(w.ctxs[a], w.ctxs[w.ctxs[a].mate], bits, io);
  }

  lemma DispatchAlone(w: World, a: Addr, bits: Interest, io: Io)
    requires a in w.ctxs && w.ctxs[a].peer.None? && WindowOk(w.ctxs[a])
    ensures var o := Handle(w.ctxs[a], None, bits, io);
            && Drained(w.ctxs[a], o.ctx)
            && Dispatch(w, a, bits, io) == Collect(w, a, w.ctxs[a := o.ctx], o.keep)
  {
    hide Handle;
    HandleAlone(w.ctxs[a], bits, io);
  }

  /** A dispatch changes the dispatched context and its peer, and neither one's identity. */
  lemma DispatchFrame(w: World, a: Addr, bits: Interest, io: Io)
    requires a in w.ctxs && Links(w) && Windows(w)
    ensures var w1, c := Dispatch(w, a, bits, io), w.ctxs[a];
            && w1.ctxs.Keys == w.ctxs.Keys
            && (forall x :: x in w.ctxs ==> w1.ctxs[x].fd == w.ctxs[x].fd && w1.ctxs[x].mate == w.ctxs[x].mate)
            && (forall x :: x in w.ctxs && x != a && Some(x) != c.peer ==> w1.ctxs[x] == w.ctxs[x])
            && exists keep :: w1 == Collect(w, a, w1.ctxs, keep)
  {
    hide Handle, Dispatch, Links;
    if w.ctxs[a].peer.Some? {
      DispatchLinked(w, a, bits, io);
    } else {
      DispatchAlone(w, a, bits, io);
    }
  }

  lemma DispatchPhases(w: World, a: Addr, bits: Interest, io: Io)
    requires a in w.registered && Safe(w)
    ensures Phases(Dispatch(w, a, bits, io)) && Descriptors(Dispatch(w, a, bits, io))
  {
    hide Dispatch, Links, Windows;
    var w1 := Dispatch(w, a, bits, io);
    DispatchFrame(w, a, bits, io);
    ClosingExtends(w.ctxs, w1.ctxs, w.freed);
  }

  lemma DispatchLinks(w: World, a: Addr, bits: Interest, io: Io)
    requires a in w.registered && Safe(w)
    ensures Links(Dispatch(w, a, bits, io))
  {
    hide Handle, Dispatch, WindowOk, NoDuplicates, Closing, Descriptors;
    var w1 := Dispatch(w, a, bits, io);
    if w.ctxs[a].peer.Some? {
      DispatchLinked(w, a, bits, io);
    } else {
      DispatchAlone(w, a, bits, io);
    }
    forall x | x in w1.ctxs ensures LinkOk(w1, x) {
      assert LinkOk(w, x) && LinkOk(w, w.ctxs[x].mate);
    }
  }

  lemma DispatchWindows(w: World, a: Addr, bits: Interest, io: Io)
    requires a in w.ctxs && Links(w) && Windows(w)
    ensures Windows(Dispatch(w, a, bits, io))
  {
    hide Handle, WindowOk;
    var c := w.ctxs[a];
    assert LinkOk(w, a);
    HandleKeepsWindow(c, PeerOf(w, c), bits, io);
  }

  /** Only the pair around `a` has to be looked at again. */
  lemma PairFlows(w: World, w1: World, a: Addr, spared: set<Addr>)
    requires Links(w) && Flows(w, spared) && a in w.ctxs && w1.ctxs.Keys == w.ctxs.Keys
    requires forall x :: x in w.ctxs ==> w1.ctxs[x].mate == w.ctxs[x].mate
    requires forall x :: x in w.ctxs && x != a && x != w.ctxs[a].mate ==> w1.ctxs[x] == w.ctxs[x]
    requires LinkOk(w, a)
    requires a in spared && w.ctxs[a].mate in spared ==> PairOk(w1.ctxs[a], w1.ctxs[w.ctxs[a].mate])
    ensures Flows(w1, spared)
  {
    hide PairOk;
    if a in spared && w.ctxs[a].mate in spared { PairOkSymmetric(w1.ctxs[a], w1.ctxs[w.ctxs[a].mate]); }
    forall x | x in w1.ctxs && x in spared && w1.ctxs[x].mate in spared
      ensures w1.ctxs[x].mate in w1.ctxs && PairOk(w1.ctxs[x], w1.ctxs[w1.ctxs[x].mate])
    {
      assert LinkOk(w, x) && LinkOk(w, w.ctxs[x].mate);
    }
  }

  lemma DispatchFlows(w: World, a: Addr, bits: Interest, io: Io, spared: set<Addr>)
    requires a in w.registered && Safe(w) && Flows(w, spared)
    requires a in spared ==> !ReadsOver(w.ctxs[a], bits, io)
    ensures Flows(Dispatch(w, a, bits, io), spared)
  {
    hide Handle, Dispatch, PairOk, WindowOk, NoDuplicates, Closing, Descriptors;
    var w1 := Dispatch(w, a, bits, io);
    var c := w.ctxs[a];
    DispatchFrame(w, a, bits, io);
    assert LinkOk(w, a);
    if a in spared && c.mate in spared {
      if c.peer.Some? {
        DispatchLinked(w, a, bits, io);
        HandleKeepsPair(c, w.ctxs[c.mate], bits, io);
      } else {
        DispatchAlone(w, a, bits, io);
        AloneKeepsPair(c, w.ctxs[c.mate], bits, io);
      }
    }
    hide Flows;
    PairFlows(w, w1, a, spared);
  }

  lemma PairOkSymmetric(c: Ctx, q: Ctx)
    requires PairOk(c, q)
    ensures PairOk(q, c)
  {}

  lemma AloneKeepsPair(c: Ctx, q: Ctx, bits: Interest, io: Io)
    requires WindowOk(c) && c.peer.None? && PairOk(c, q)
    ensures PairOk(Handle(c, None, bits, io).ctx, q)
  {
    hide Handle, Forwarded, Window;
    HandleAlone(c, bits, io);
    var d := Handle(c, None, bits, io).ctx;
    assert d.delivered <= d.delivered + Window(d);
  }

  // ---------------------------------------------------------------- runs

  /** One event keeps every invariant; the streams and masks of a pair only if it does not read over that pair's queues. */
  lemma StepKeeps(w: World, e: Event, spared: set<Addr>)
    requires Safe(w) && StepOk(w, e, spared) && (e.Ready? ==> e.addr in w.registered)
    ensures Safe(Step(w, e)) && (Flows(w, spared) ==> Flows(Step(w, e), spared))
  {
    hide Dispatch, Accept, Links, Windows, Flows, Descriptors, NoDuplicates, Closing;
    match e
    case Incoming(r) => AcceptKeeps(w, r, spared);
    case Ready(a, bits, io) =>
      DispatchPhases(w, a, bits, io);
      DispatchLinks(w, a, bits, io);
      DispatchWindows(w, a, bits, io);
      if Flows(w, spared) { DispatchFlows(w, a, bits, io, spared); }
  }

  /** An event unregisters nothing but the context it is about. */
  lemma StepRegisters(w: World, e: Event)
    requires Safe(w) && (e.Ready? ==> e.addr in w.registered)
    ensures forall x :: x in w.registered && !(e.Ready? && e.addr == x) ==> x in Step(w, e).registered
  {
    hide Dispatch, Descriptors, NoDuplicates, Closing;
    if e.Ready? { DispatchFrame(w, e.addr, e.bits, e.io); }
  }

  lemma {:induction false} EventsKeep(w: World, events: seq<Event>, spared: set<Addr>)
    requires Safe(w) && BatchOk(w, events, spared)
    ensures Safe(RunEvents(w, events)) && (Flows(w, spared) ==> Flows(RunEvents(w, events), spared))
    ensures forall x :: x in w.registered && !Mentions(events, x) ==> x in RunEvents(w, events).registered
    decreases |events|
  {
    hide Step, Safe, Flows;
    if |events| > 0 {
      var n := |events| - 1;
      var front, e := events[..n], events[n];
      assert forall i :: 0 <= i < n ==> front[i] == events[i];
      EventsKeep(w, front, spared);
      var w1 := RunEvents(w, front);
      StepKeeps(w1, e, spared);
      StepRegisters(w1, e);
    }
  }

  lemma NoDuplicatesConcat(s: seq<Addr>, t: seq<Addr>)
    requires NoDuplicates(s) && NoDuplicates(t) && forall a :: a in t ==> a !in s
    ensures NoDuplicates(s + t)
  {
    forall i, j | 0 <= i < j < |s + t| ensures (s + t)[i] != (s + t)[j] {
      if i < |s| <= j { assert t[j - |s|] in t; }
    }
  }

  lemma EndBatchPhases(w: World)
    requires Phases(w)
    ensures Phases(EndBatch(w))
  {
    ClosingAppend(w.ctxs, w.freed, w.dead);
    NoDuplicatesConcat(w.freed, w.dead);
  }

  lemma EndBatchKeeps(w: World, spared: set<Addr>)
    requires Safe(w)
    ensures Safe(EndBatch(w)) && (Flows(w, spared) ==> Flows(EndBatch(w), spared)) && EndBatch(w).registered == w.registered
  {
    hide WindowOk, PairOk, Phases;
    EndBatchPhases(w);
    forall a | a in w.ctxs ensures LinkOk(EndBatch(w), a) { assert LinkOk(w, a); }
  }

  lemma {:induction false} BatchPrefix(w: World, events: seq<Event>, spared: set<Addr>, k: nat)
    requires BatchOk(w, events, spared) && k < |events|
    ensures BatchOk(w, events[..k], spared) && StepOk(RunEvents(w, events[..k]), events[k], spared)
    decreases |events|
  {
    hide RunEvents, StepOk;
    var n := |events| - 1;
    var front := events[..n];
    assert forall i :: 0 <= i < n ==> front[i] == events[i];
    if k < n {
      BatchPrefix(w, front, spared, k);
      assert front[..k] == events[..k];
    }
  }

  lemma {:induction false} RunPrefix(w: World, batches: seq<seq<Event>>, spared: set<Addr>, k: nat)
    requires RunOk(w, batches, spared) && k < |batches|
    ensures BatchOk(Run(w, batches[..k]), batches[k], spared)
    decreases |batches|
  {
    hide Run, BatchOk;
    var n := |batches| - 1;
    if k < n {
      RunPrefix(w, batches[..n], spared, k);
      assert batches[..n][..k] == batches[..k];
    }
  }

  lemma StartIsSafe(spared: set<Addr>)
    ensures Safe(START) && Flows(START, spared)
  {}

  lemma {:induction false} RunKeeps(w: World, batches: seq<seq<Event>>, spared: set<Addr>)
    requires Safe(w) && RunOk(w, batches, spared)
    ensures Safe(Run(w, batches)) && (Flows(w, spared) ==> Flows(Run(w, batches), spared))
    decreases |batches|
  {
    hide RunEvents, EndBatch, BatchOk, Safe, Flows;
    if |batches| > 0 {
      var n := |batches| - 1;
      var front := batches[..n];
      RunKeeps(w, front, spared);
      EventsKeep(Run(w, front), batches[n], spared);
      EndBatchKeeps(RunEvents(Run(w, front), batches[n]), spared);
    }
  }

  /** Every reachable state is safe, and the streams and masks of spared pairs are in order. */
  lemma ReachableIsSafe(w: World, spared: set<Addr>)
    requires Reachable(w, spared)
    ensures Safe(w) && Flows(w, spared)
  {
    hide RunEvents, Run, Safe, Flows, BatchOk, RunOk;
    var batches, events :| RunOk(START, batches, spared) && BatchOk(Run(START, batches), events, spared)
                           && w == RunEvents(Run(START, batches), events);
    StartIsSafe(spared);
    RunKeeps(START, batches, spared);
    EventsKeep(Run(START, batches), events, spared);
  }

  // ---------------------------------------------------------------- what later states keep

  /** What a later state keeps of an earlier one: releases, identities, and what was severed. */
  ghost predicate Follows(w: World, v: World) {
    && w.freed <= v.freed
    && w.ctxs.Keys <= v.ctxs.Keys
    && (forall a :: a in w.ctxs && w.ctxs[a].peer.None? ==> Drained(w.ctxs[a], v.ctxs[a]))
  }

  lemma FollowsTransitive(u: World, v: World, w: World)
    requires Follows(u, v) && Follows(v, w)
    ensures Follows(u, w)
  {
    hide Window;
  }

  lemma AcceptFollows(w: World, r: AcceptResult)
    requires Phases(w)
    ensures Follows(w, Accept(w, r))
  {
    hide NewCtx, Window, NoDuplicates, Closing;
  }

  lemma StepFollows(w: World, e: Event)
    requires Safe(w) && (e.Ready? ==> e.addr in w.registered)
    ensures Follows(w, Step(w, e))
  {
    hide Dispatch, Accept, Follows, NoDuplicates, Closing, Links, Windows, Descriptors;
    match e
    case Incoming(r) => AcceptFollows(w, r);
    case Ready(a, bits, io) => DispatchFollows(w, a, bits, io);
  }

  lemma DispatchFollows(w: World, a: Addr, bits: Interest, io: Io)
    requires a in w.ctxs && Links(w) && Windows(w)
    ensures Follows(w, Dispatch(w, a, bits, io))
  {
    hide Dispatch, Handle, Window, WindowOk;
    DispatchFrame(w, a, bits, io);
    assert LinkOk(w, a);
    if w.ctxs[a].peer.None? { DispatchAlone(w, a, bits, io); }
  }

  lemma {:induction false} EventsFollow(w: World, events: seq<Event>, spared: set<Addr>)
    requires Safe(w) && BatchOk(w, events, spared)
    ensures Follows(w, RunEvents(w, events))
    decreases |events|
  {
    hide Step, Safe, Drained;
    if |events| == 0 {
      assert Follows(w, w) by { RefreshDrained(w); }
    } else {
      var n := |events| - 1;
      var front := events[..n];
      assert forall i :: 0 <= i < n ==> front[i] == events[i];
      EventsFollow(w, front, spared);
      EventsKeep(w, front, spared);
      StepFollows(RunEvents(w, front), events[n]);
      FollowsTransitive(w, RunEvents(w, front), RunEvents(w, events));
    }
  }

  lemma RefreshDrained(w: World)
    ensures Follows(w, w) && Follows(w, EndBatch(w))
  {}

  /** Over any continuation, freed stays freed and a severed context only drains: it never reads and is never relinked. */
  lemma {:induction false} RunFollows(w: World, batches: seq<seq<Event>>, spared: set<Addr>)
    requires Safe(w) && RunOk(w, batches, spared)
    ensures Follows(w, Run(w, batches))
    decreases |batches|
  {
    hide RunEvents, EndBatch, BatchOk, Safe, Drained, Follows;
    if |batches| == 0 {
      RefreshDrained(w);
    } else {
      var n := |batches| - 1;
      var front := batches[..n];
      RunFollows(w, front, spared);
      RunKeeps(w, front, spared);
      var v := Run(w, front);
      EventsFollow(v, batches[n], spared);
      RefreshDrained(RunEvents(v, batches[n]));
      FollowsTransitive(w, v, RunEvents(v, batches[n]));
      FollowsTransitive(w, RunEvents(v, batches[n]), EndBatch(RunEvents(v, batches[n])));
    }
  }

  // ---------------------------------------------------------------- one severed context among all events

  /** The events addressed to `b`. */
  function Pokes(events: seq<Event>, b: Addr): seq<Poke> {
    if |events| == 0 then []
    else
      var e := events[|events| - 1];
      Pokes(events[..|events| - 1], b) + (if e.Ready? && e.addr == b then [Poke(e.bits, e.io)] else [])
  }

  function RunPokes(batches: seq<seq<Event>>, b: Addr): seq<Poke> {
    if |batches| == 0 then [] else RunPokes(batches[..|batches| - 1], b) + Pokes(batches[|batches| - 1], b)
  }

  /** What became of `b` from `w` to `v`: it drained under `pokes`, and left the epoll set exactly when it was given up. */
  ghost predicate DrainsTo(w: World, v: World, b: Addr, pokes: seq<Poke>) {
    && b in w.ctxs && b in v.ctxs && v.ctxs[b].peer.None?
    && v.ctxs[b] == Drain(w.ctxs[b], pokes).0
    && (b in w.registered && Drain(w.ctxs[b], pokes).1 <==> b in v.registered)
    && (b !in w.registered ==> pokes == []) && Kept(w.ctxs[b], pokes)
  }

  /** An event addressed elsewhere leaves a severed context alone. */
  lemma OtherEventsPass(w: World, e: Event, b: Addr)
    requires Safe(w) && (e.Ready? ==> e.addr in w.registered && e.addr != b)
    requires b in w.ctxs && w.ctxs[b].peer.None?
    ensures var v := Step(w, e); b in v.ctxs && v.ctxs[b] == w.ctxs[b] && (b in v.registered <==> b in w.registered)
  {
    hide Dispatch, Accept, NoDuplicates, Closing, Descriptors;
    match e
    case Incoming(r) => AcceptPasses(w, r, b);
    case Ready(a, bits, io) =>
      DispatchFrame(w, a, bits, io);
      assert LinkOk(w, a);
  }

  lemma AcceptPasses(w: World, r: AcceptResult, b: Addr)
    requires Phases(w) && b in w.ctxs
    ensures var v := Accept(w, r); b in v.ctxs && v.ctxs[b] == w.ctxs[b] && (b in v.registered <==> b in w.registered)
  {
    hide NewCtx, NoDuplicates, Closing;
  }

  lemma OwnEventDrains(w: World, e: Event, b: Addr)
    requires Safe(w) && e.Ready? && e.addr == b && b in w.registered && b in w.ctxs && w.ctxs[b].peer.None?
    ensures var v, o := Step(w, e), Handle(w.ctxs[b], None, e.bits, e.io);
            && b in v.ctxs && v.ctxs[b] == o.ctx && o.ctx.peer.None? && (b in v.registered <==> o.keep)
  {
    hide Handle, Dispatch, Phases, Links, Descriptors, WindowOk, Window;
    DispatchAlone(w, b, e.bits, e.io);
  }

  lemma {:induction false} EventsDrain(w: World, events: seq<Event>, b: Addr, spared: set<Addr>)
    requires Safe(w) && BatchOk(w, events, spared) && b in w.ctxs && w.ctxs[b].peer.None?
    ensures DrainsTo(w, RunEvents(w, events), b, Pokes(events, b))
    decreases |events|
  {
    hide Safe, Step, Handle;
    if |events| > 0 {
      var n := |events| - 1;
      var front, e := events[..n], events[n];
      assert forall i :: 0 <= i < n ==> front[i] == events[i];
      EventsDrain(w, front, b, spared);
      EventsKeep(w, front, spared);
      var v := RunEvents(w, front);
      if e.Ready? && e.addr == b {
        OwnEventDrains(v, e, b);
        var pokes := Pokes(events, b);
        assert pokes[..|pokes| - 1] == Pokes(front, b);
        KeptConcat(w.ctxs[b], Pokes(front, b), [Poke(e.bits, e.io)]);
      } else {
        OtherEventsPass(v, e, b);
        assert Pokes(events, b) == Pokes(front, b);
      }
    }
  }

  lemma {:induction false} DrainConcat(c: Ctx, s: seq<Poke>, t: seq<Poke>)
    ensures Drain(c, s + t) == if Drain(c, s).1 then Drain(Drain(c, s).0, t) else Drain(c, s)
    decreases |t|
  {
    hide Handle;
    if |t| == 0 {
      assert s + t == s;
    } else {
      assert (s + t)[..|s + t| - 1] == s + t[..|t| - 1];
      DrainConcat(c, s, t[..|t| - 1]);
    }
  }

  lemma KeptConcat(c: Ctx, s: seq<Poke>, t: seq<Poke>)
    requires Kept(c, s) && Drain(c, s).1 && Kept(Drain(c, s).0, t)
    ensures Kept(c, s + t)
  {
    hide Drain;
    forall i | 0 <= i < |s + t| ensures Drain(c, (s + t)[..i]).1 {
      if i < |s| {
        assert (s + t)[..i] == s[..i];
      } else {
        assert (s + t)[..i] == s + t[..i - |s|];
        DrainConcat(c, s, t[..i - |s|]);
      }
    }
  }

  lemma DrainsToTransitive(u: World, v: World, w: World, b: Addr, s: seq<Poke>, t: seq<Poke>)
    requires DrainsTo(u, v, b, s) && DrainsTo(v, w, b, t)
    ensures DrainsTo(u, w, b, s + t)
  {
    hide Drain, Kept;
    DrainConcat(u.ctxs[b], s, t);
    NoPokes(v.ctxs[b]);
    if b !in v.registered { assert s + t == s; } else { KeptConcat(u.ctxs[b], s, t); }
  }

  lemma NoPokes(c: Ctx)
    ensures Drain(c, []) == (c, true)
  {}

  /** Over whole runs a severed context is what its own events make of it, whatever happens to the others. */
  lemma {:induction false} RunDrains(w: World, batches: seq<seq<Event>>, b: Addr, spared: set<Addr>)
    requires Safe(w) && RunOk(w, batches, spared) && b in w.ctxs && w.ctxs[b].peer.None?
    ensures DrainsTo(w, Run(w, batches), b, RunPokes(batches, b))
    decreases |batches|
  {
    hide Safe, RunEvents, BatchOk, Drain;
    if |batches| == 0 {
      NoPokes(w.ctxs[b]);
    } else {
      var n := |batches| - 1;
      var front := batches[..n];
      RunDrains(w, front, b, spared);
      RunKeeps(w, front, spared);
      var v := Run(w, front);
      EventsDrain(v, batches[n], b, spared);
      DrainsToTransitive(w, v, RunEvents(v, batches[n]), b, RunPokes(front, b), Pokes(batches[n], b));
    }
  }
}
