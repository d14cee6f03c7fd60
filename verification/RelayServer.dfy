/**
 The event loop over objects: accept and link, dispatch, the dead list, and the release
 at the end of a batch. Its contract follows `RelayRuns`: one batch takes the state from
 `w` to `EndBatch(RunEvents(w, events))`.
 */
module RelayServer {
  import opened Wrappers
  import opened Relay
  import opened RelayRuns
  import opened RelayContext
  import RelayTheorems
  import V = Vec

  type Table = map<Addr, Context>
  type Owners = map<array<Byte>, Addr>
  type Views = map<Addr, Ctx>

  /** The context at `a` is the one its address names, owns its buffer, and looks as recorded. */
  ghost predicate Placed(t: Table, owner: Owners, views: Views, a: Addr)
    requires a in t
    reads t[a], t[a].buffer
  {
    var c := t[a];
    && c.addr == a
    && c.buffer in owner && owner[c.buffer] == a
    && (c.peer != null ==> c.peer.addr in t && t[c.peer.addr] == c.peer)
    && a in views && views[a] == c.View()
  }

  ghost predicate AllPlaced(t: Table, owner: Owners, views: Views)
    reads set a | a in t :: t[a], set a | a in t :: t[a].buffer
  {
    forall a :: a in t ==> Placed(t, owner, views, a)
  }

  ghost predicate Owned(t: Table, repr: set<object>) {
    forall a :: a in t ==> t[a] in repr && t[a].buffer in repr
  }

  lemma OwnedExtends(t: Table, repr: set<object>, c: Context)
    requires Owned(t, repr)
    ensures Owned(t[c.addr := c], repr + {c, c.buffer})
  {}

  lemma OneExtends(t: Table, owner: Owners, views: Views, c: Context)
    requires AllPlaced(t, owner, views) && c.addr !in t && c.buffer !in owner && c.peer == null
    ensures AllPlaced(t[c.addr := c], owner[c.buffer := c.addr], views[c.addr := c.View()])
  {
    hide Context.View;
    var t1, o1, v1 := t[c.addr := c], owner[c.buffer := c.addr], views[c.addr := c.View()];
    forall a | a in t1 ensures Placed(t1, o1, v1, a) {
      if a in t { assert Placed(t, owner, views, a); }
    }
  }

  lemma PairExtends(t: Table, owner: Owners, views: Views, c: Context, u: Context)
    requires AllPlaced(t, owner, views)
    requires c.addr !in t && c.buffer !in owner && u.addr !in t && u.buffer !in owner
    requires c.addr != u.addr && c.buffer != u.buffer && c.peer == u && u.peer == c
    ensures AllPlaced(t[c.addr := c][u.addr := u], owner[c.buffer := c.addr][u.buffer := u.addr],
                      views[c.addr := c.View()][u.addr := u.View()])
  {
    hide Context.View;
    var t1, o1, v1 := t[c.addr := c][u.addr := u], owner[c.buffer := c.addr][u.buffer := u.addr],
                      views[c.addr := c.View()][u.addr := u.View()];
    forall a | a in t1 ensures Placed(t1, o1, v1, a) {
      if a in t { assert Placed(t, owner, views, a); }
    }
  }

  /** The dead list holds the objects of the addresses recorded for it. */
  ghost predicate Lists(d: seq<Context?>, t: Table, gone: seq<Addr>) {
    |d| == |gone| && forall i :: 0 <= i < |d| ==> gone[i] in t && d[i] == t[gone[i]]
  }

  lemma ListsExtends(d: seq<Context?>, t: Table, gone: seq<Addr>, c: Context)
    requires Lists(d, t, gone) && c.addr !in t
    ensures Lists(d, t[c.addr := c], gone)
  {}

  class Server {
    /** Every context ever allocated, by address. */
    var table: Table
    var next: Addr
    /** The addresses in the epoll set. */
    var registered: set<Addr>
    const dead: V.Vec<Context?>
    /** The calls made to free and to close, in order. */
    var freed: seq<Addr>
    var closed: seq<Addr>

    /** What the objects look like, whose buffer is whose, and who is on the dead list. */
    ghost var views: Views
    ghost var owner: Owners
    ghost var gone: seq<Addr>
    ghost var Repr: set<object>

    constructor ()
      ensures Valid() && fresh(Repr) && State() == START
    {
      table, next, registered, freed, closed := map[], 0, {}, [], [];
      views, owner, gone := map[], map[], [];
      dead := new V.Vec<Context?>();
      new;
      Repr := {this, dead, dead.data};
      StartIsSafe({});
    }

    ghost function State(): World
      reads this
    {
      World(views, next, registered, gone, freed, closed)
    }

    ghost predicate Wired()
      reads this, Repr
    {
      && this in Repr && dead in Repr && dead.data in Repr && dead.Valid()
      && table.Keys == views.Keys
      && Owned(table, Repr) && AllPlaced(table, owner, views)
      && Lists(dead.Contents(), table, gone)
    }

    ghost predicate Valid()
      reads this, Repr
    {
      Wired() && Safe(State())
    }

    /** A new context enters the table, linked to nothing. */
    method Adopt(c: Context)
      requires Wired() && next !in table && c.addr == next && c.peer == null && c.buffer !in owner
      modifies this`table, this`next, this`views, this`owner, this`Repr
      ensures Wired() && Repr == old(Repr) + {c, c.buffer} && table == old(table)[old(next) := c]
      ensures next == old(next) + 1 && views == old(views)[old(next) := c.View()]
    {
      hide Context.View, AllPlaced, Lists, Owned;
      OwnedExtends(table, Repr, c);
      ListsExtends(dead.Contents(), table, gone, c);
      OneExtends(table, owner, views, c);
      table := table[next := c];
      owner := owner[c.buffer := next];
      views := views[next := c.View()];
      Repr := Repr + {c, c.buffer};
      next := next + 1;
    }

    /** Frees a context: its descriptor is closed when it has a positive number. */
    method Cleanup(c: Context)
      requires Wired() && c.addr in table && table[c.addr] == c
      modifies this`freed, this`closed
      ensures Wired() && State() == RelayRuns.Cleanup(old(State()), c.addr)
    {
      hide AllPlaced, Lists;
      PlacedView(table, owner, views, c.addr);
      if c.fd > 0 { closed := closed + [c.addr]; }
      freed := freed + [c.addr];
    }

    lemma NextIsFree()
      requires Valid()
      ensures this in Repr && next !in table && next + 1 !in table
    {}

    /** A connection given up before it was linked. */
    method RejectNew(fd: int)
      requires Valid()
      modifies this
      ensures Valid() && State() == Reject(old(State()), fd) && fresh(Repr - old(Repr))
      ensures dead.data == old(dead.data)
    {
      hide Safe, NewCtx, Context.View, Server.Wired;
      NextIsFree();
      RejectKeeps(State(), fd, {});
      var c := new Context(next, fd, next);
      Adopt(c);
      Cleanup(c);
    }

    /** Two new contexts, already each other's peer, enter the table. */
    method AdoptPair(c: Context, u: Context)
      requires Wired() && next !in table && next + 1 !in table && c.addr == next && u.addr == next + 1
      requires c.peer == u && u.peer == c && c.buffer != u.buffer && c.buffer !in owner && u.buffer !in owner
      modifies this`table, this`next, this`views, this`owner, this`Repr
      ensures Wired() && Repr == old(Repr) + {c, c.buffer} + {u, u.buffer} && next == old(next) + 2
      ensures views == old(views)[old(next) := c.View()][old(next) + 1 := u.View()]
    {
      hide Context.View, AllPlaced, Lists, Owned;
      OwnedExtends(table, Repr, c);
      OwnedExtends(table[next := c], Repr + {c, c.buffer}, u);
      ListsExtends(dead.Contents(), table, gone, c);
      ListsExtends(dead.Contents(), table[next := c], gone, u);
      PairExtends(table, owner, views, c, u);
      table := table[next := c][next + 1 := u];
      owner := owner[c.buffer := next][u.buffer := next + 1];
      views := views[next := c.View()][next + 1 := u.View()];
      Repr := Repr + {c, c.buffer} + {u, u.buffer};
      next := next + 2;
    }

    method Register(a: Addr)
      requires Wired()
      modifies this`registered
      ensures Wired() && registered == old(registered) + {a}
    {
      hide AllPlaced, Lists, Owned;
      registered := registered + {a};
    }

    /** A connection linked to its upstream and registered. */
    method LinkNew(client: int, upstream: int)
      requires Valid() && FreshFds(State(), Established(client, upstream))
      modifies this
      ensures Valid() && State() == Link(old(State()), client, upstream) && fresh(Repr - old(Repr))
      ensures dead.data == old(dead.data)
    {
      hide Safe, NewCtx, Context.View, Server.Wired;
      NextIsFree();
      LinkKeeps(State(), client, upstream, {});
      var c, u := NewPair(next, client, upstream);
      AdoptPair(c, u);
      Register(u.addr);
      Register(c.addr);
      assert registered == old(registered) + {c.addr, u.addr};
    }

    /** The handler runs on the context at `a`, and perhaps on its peer; nothing else is touched. */
    method Deliver(a: Addr, bits: Interest, io: Io) returns (keep: bool)
      requires Valid() && a in table
      modifies Repr
      ensures Wired() && Repr == old(Repr) && dead.data == old(dead.data) && table == old(table)
      ensures var o := Handled(old(State()), a, bits, io);
              keep == o.keep && State() == old(State()).(ctxs := Stored(old(State()), a, o))
    {
      hide Context.View, Placed, Lists, Safe, Handle;
      var c := table[a];
      CtxIsReady(a);
      ghost var v, p := views, c.peer;
      AllNamed(table, owner, views);
      keep := c.OnEvent(bits, io);
      views := Looks(v, c, p);
      Rewired(table, owner, v, c, p);
    }

    /** The handler gave up the context at `a`: out of the epoll set, onto the dead list. */
    method Bury(a: Addr)
      requires Wired() && a in table
      modifies Repr
      ensures Wired() && fresh(Repr - old(Repr)) && table == old(table)
      ensures State() == old(State()).(registered := old(registered) - {a}, dead := old(gone) + [a])
    {
      hide Context.View, AllPlaced;
      registered := registered - {a};
      dead.Append(table[a]);
      gone := gone + [a];
      Repr := Repr + {dead.data};
    }

    method DispatchOne(a: Addr, bits: Interest, io: Io)
      requires Valid() && a in table && a in registered
      modifies Repr
      ensures Valid() && fresh(Repr - old(Repr)) && State() == Dispatch(old(State()), a, bits, io)
    {
      hide Safe, Handled, Stored, AllPlaced, Lists;
      assert Safe(Dispatch(State(), a, bits, io)) by {
        StepKeeps(State(), Ready(a, bits, io), {});
      }
      var keep := Deliver(a, bits, io);
      if !keep { Bury(a); }
    }

    method AcceptOne(r: AcceptResult)
      requires Valid() && FreshFds(State(), r)
      modifies Repr
      ensures Valid() && fresh(Repr - old(Repr)) && State() == Accept(old(State()), r)
    {
      hide Safe, Reject, Link, AllPlaced, Lists;
      match r
      case NotAccepted =>
      case Refused(fd) => RejectNew(fd);
      case Unrouted(fd) =>
        RejectNew(fd);
        RejectNew(0);
      case Unreachable(fd) =>
        RejectNew(fd);
        RejectNew(-1);
      case Established(client, upstream) => LinkNew(client, upstream);
    }

    method Serve(e: Event)
      requires Valid() && StepOk(State(), e, {}) && (e.Ready? ==> e.addr in registered)
      modifies Repr
      ensures Valid() && fresh(Repr - old(Repr)) && State() == Step(old(State()), e)
    {
      hide Accept, Dispatch, AllPlaced, Lists;
      match e
      case Incoming(r) => AcceptOne(r);
      case Ready(a, bits, io) => DispatchOne(a, bits, io);
    }

    /** Frees every context on the dead list, in order. */
    method FreeAll()
      requires Wired()
      modifies this`freed, this`closed
      ensures Wired() && freed == old(freed) + gone && closed == old(closed) + Closing(views, gone)
    {
      hide AllPlaced;
      var i := 0;
      while i < dead.size
        invariant i <= |gone| == dead.size && Wired()
        invariant freed == old(freed) + gone[..i] && closed == old(closed) + Closing(views, gone[..i])
      {
        ListedAt(i);
        assert gone[..i + 1][..i] == gone[..i];
        Cleanup(dead.data[i]);
        i := i + 1;
      }
      assert gone[..i] == gone;
    }

    lemma ListedAt(i: nat)
      requires Wired() && i < dead.size
      ensures i < |gone| && gone[i] in table && dead.data[i] == table[gone[i]] && table[gone[i]].addr == gone[i]
    {}

    /** Releases the dead list and empties it. */
    method ReleaseDead()
      requires Valid()
      modifies Repr
      ensures Valid() && Repr == old(Repr) && State() == EndBatch(old(State()))
    {
      hide Safe, AllPlaced, Owned, Closing;
      EndBatchKeeps(State(), {});
      FreeAll();
      dead.Reset();
      gone := [];
    }

    /** One batch of the loop: every reported event in turn, then the release. */
    method RunBatch(events: seq<Event>, ghost spared: set<Addr>)
      requires Valid() && BatchOk(State(), events, spared)
      modifies Repr
      ensures Valid() && fresh(Repr - old(Repr))
      ensures State() == EndBatch(RunEvents(old(State()), events))
    {
      hide Safe, AllPlaced, Lists, Step, Server.Wired;
      ghost var w := State();
      var i := 0;
      while i < |events|
        invariant i <= |events| && Valid() && fresh(Repr - old(Repr))
        invariant State() == RunEvents(w, events[..i])
      {
        assert events[..i + 1][..i] == events[..i];
        NextIsReported(w, events, i, spared);
        Serve(events[i]);
        i := i + 1;
      }
      assert events[..i] == events;
      ReleaseDead();
    }

    /**
     The server's loop until epoll fails. The state it leaves is reachable, sparing whatever contexts the
     run spares, so everything proved of reachable states holds of these objects; in particular peers
     point at each other.
     */
    method RunServer(batches: seq<seq<Event>>, ghost spared: set<Addr>)
      requires Valid() && State() == START && RunOk(START, batches, spared)
      modifies Repr
      ensures Valid() && State() == Run(START, batches) && Reachable(State(), spared)
      ensures forall a :: a in table && table[a].peer != null ==> table[a].peer.peer == table[a]
    {
      hide Safe, RunEvents, EndBatch, BatchOk, Server.Wired, Reachable, Context.View;
      var i := 0;
      while i < |batches|
        invariant i <= |batches| && Valid() && fresh(Repr - old(Repr))
        invariant State() == Run(START, batches[..i])
      {
        assert batches[..i + 1][..i] == batches[..i];
        RunPrefix(START, batches, spared, i);
        RunBatch(batches[i], spared);
        i := i + 1;
      }
      assert batches[..i] == batches;
      RelayTheorems.WholeBatchesAreReachable(batches, spared);
      forall a | a in table && table[a].peer != null ensures table[a].peer.peer == table[a] {
        CtxIsReady(a);
      }
    }

    /** What the handler relies on holds of every context of a valid server. */
    lemma CtxIsReady(a: Addr)
      requires Valid() && a in table
      ensures table[a].Ready() && views[a] == table[a].View()
      ensures PeerOf(State(), views[a]) == table[a].PeerView()
      ensures table[a].peer == null ==> views[a].peer == None
      ensures table[a].peer != null ==>
                && table[a].peer in Repr && table[a].peer.buffer in Repr && table[a].peer.addr in table
                && table[table[a].peer.addr] == table[a].peer && views[a].peer == Some(table[a].peer.addr)
    {
      hide Phases, Descriptors, Lists;
      assert Placed(table, owner, views, a);
      assert LinkOk(State(), a);
      if table[a].peer != null {
        assert Placed(table, owner, views, table[a].peer.addr);
      }
    }
  }

  /** Whatever a batch still has to report is registered when its turn comes. */
  lemma NextIsReported(w: World, events: seq<Event>, i: nat, spared: set<Addr>)
    requires Safe(w) && BatchOk(w, events, spared) && i < |events|
    ensures var v := RunEvents(w, events[..i]);
            StepOk(v, events[i], {}) && (events[i].Ready? ==> events[i].addr in v.registered)
  {
    hide Safe, Step, RunEvents, FreshFds;
    BatchPrefix(w, events, spared, i);
    EventsKeep(w, events[..i], spared);
  }

  /** Two contexts that are each other's peer. */
  method NewPair(a: Addr, client: int, upstream: int) returns (c: Context, u: Context)
    ensures fresh({c, u, c.buffer, u.buffer}) && c.buffer != u.buffer && c.addr == a && u.addr == a + 1
    ensures c.peer == u && u.peer == c
    ensures c.View() == NewCtx(client, Some(a + 1), a + 1) && u.View() == NewCtx(upstream, Some(a), a)
  {
    hide NewCtx, Context.View;
    c := new Context(a, client, a + 1);
    u := new Context(a + 1, upstream, a);
    LinkedCtx(client, Some(u.addr), u.addr);
    LinkedCtx(upstream, Some(c.addr), c.addr);
    c.LinkTo(u);
    u.LinkTo(c);
  }

  /** The record of looks once `c` and perhaps its peer have changed. */
  ghost function Looks(v: Views, c: Context, p: Context?): Views
    reads c, c.buffer, p, if p == null then {} else {p.buffer}
  {
    var own := v[c.addr := c.View()];
    if p == null then own else own[p.addr := p.View()]
  }

  lemma Rewired(t: Table, owner: Owners, v: Views, c: Context, p: Context?)
    requires c.addr in t && t[c.addr] == c && c.buffer in owner && owner[c.buffer] == c.addr
    requires p != null ==> p.addr in t && t[p.addr] == p && p.buffer in owner && owner[p.buffer] == p.addr && p != c
    requires c.NotRelinked(p)
    requires forall x :: x in t ==> t[x].addr == x
    requires forall x :: x in t && t[x] != c && t[x] != p ==> Placed(t, owner, v, x)
    ensures AllPlaced(t, owner, Looks(v, c, p))
  {
    hide Context.View;
    forall x | x in t ensures Placed(t, owner, Looks(v, c, p), x) {
      if t[x] != c && t[x] != p { assert Placed(t, owner, v, x); }
    }
  }

  lemma AllNamed(t: Table, owner: Owners, views: Views)
    requires AllPlaced(t, owner, views)
    ensures forall x :: x in t ==> t[x].addr == x && t[x].buffer in owner && owner[t[x].buffer] == x
  {}

  lemma PlacedView(t: Table, owner: Owners, views: Views, a: Addr)
    requires a in t && AllPlaced(t, owner, views)
    ensures t[a].addr == a && a in views && views[a] == t[a].View()
    ensures t[a].buffer in owner && owner[t[a].buffer] == a
    ensures t[a].peer != null ==> t[a].peer.addr in t && t[t[a].peer.addr] == t[a].peer
  {}

  lemma LinkedCtx(fd: int, p: Option<Addr>, m: Addr)
    ensures NewCtx(fd, None, m).(peer := p) == NewCtx(fd, p, m)
  {}
}
