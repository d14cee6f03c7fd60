/**
 The TCP relay as a state machine over one connected pair.

 `Handle` is one call of the epoll handler on a context and, while the two are
 linked, on its peer. What the operating system and the Lua hook answer is the
 parameter `Io`, so a statement about all `Io` is a statement about every
 behaviour of the sockets and of the hook.
 */
module Relay {
  import opened Wrappers

  type Byte = b: int | 0 <= b < 256

  /** Contexts are named by the order in which they were allocated, never reused. */
  type Addr = nat

  const BUFFER_SIZE: nat := 1024

  /** An epoll interest mask, and also the bits epoll reports. */
  datatype Interest = Interest(input: bool, output: bool, hangup: bool)

  const IDLE := Interest(true, false, true)
  const BACKLOGGED := Interest(true, true, true)
  const STALLED := Interest(false, false, true)

  /** What the on_data hook answered; `Absent` when there is no such function. */
  datatype HookReply = Absent | Raised | NotString | Reply(bytes: seq<Byte>)

  /** `Arrive` carries what the kernel holds for the socket: nothing at all is end of file. */
  datatype RecvResult = RecvAgain | RecvFail | Arrive(data: seq<Byte>)

  /** `Room(n)` lets the kernel take at most `n` bytes; `Room(0)` is a zero-byte send. */
  datatype SendResult = SendAgain | SendFail | Room(n: nat)

  datatype Io = Io(recv: RecvResult, reply: HookReply, send: SendResult)

  /** One successful read together with the hook's answer to it. */
  datatype Chunk = Chunk(data: seq<Byte>, reply: HookReply)

  /** The pending-write window: the fields wstart, wlen and wpartial. */
  datatype Win = Win(start: int, len: int, partial: bool)

  /**
   A connection context. `mate` (who it was first linked to), `taken` (what was read
   from its descriptor) and `delivered` (what its descriptor accepted) are history:
   no branch reads them. `shut` records shutdown(SHUT_WR) on the descriptor.
   */
  datatype Ctx = Ctx(
    fd: int, mate: Addr, peer: Option<Addr>, readEof: bool, writeEof: bool, shut: bool,
    win: Win, buffer: seq<Byte>, mask: Interest, taken: seq<Chunk>, delivered: seq<Byte>)

  function NewCtx(fd: int, peer: Option<Addr>, mate: Addr): Ctx {
    Ctx(fd, mate, peer, false, false, false, Win(0, 0, false), seq(BUFFER_SIZE, _ => 0), IDLE, [], [])
  }

  /** The queued bytes; a window outside the buffer has none. */
  function Window(c: Ctx): seq<Byte> {
    if 0 <= c.win.start && 0 <= c.win.len && c.win.start + c.win.len <= |c.buffer|
    then c.buffer[c.win.start..c.win.start + c.win.len] else []
  }

  /** memcpy of `data` to the start of `buffer`. */
  function Overwrite(buffer: seq<Byte>, data: seq<Byte>): seq<Byte> {
    if |data| <= |buffer| then data + buffer[|data|..] else data
  }

  /** What the hook lets through: the data, its replacement, or nothing when it drops. */
  function HookOutput(data: seq<Byte>, reply: HookReply): Option<seq<Byte>> {
    match reply
    case Absent => Some(data)
    case Raised => Some(data)
    case NotString => None
    case Reply(bytes) =>
      if |bytes| == 0 then Some(data) else if |bytes| <= BUFFER_SIZE then Some(bytes) else None
  }

  /** The bytes one read puts on the wire. */
  function Output(chunk: Chunk): seq<Byte> {
    var out := HookOutput(chunk.data, chunk.reply);
    if out.Some? then out.value else []
  }

  /** The in-order concatenation of the hook outputs for everything read. */
  function Forwarded(taken: seq<Chunk>): seq<Byte> {
    if |taken| == 0 then [] else Forwarded(taken[..|taken| - 1]) + Output(taken[|taken| - 1])
  }

  datatype Outcome = Outcome(ctx: Ctx, peer: Option<Ctx>, keep: bool)

  function Unlink(c: Ctx): Ctx { c.(peer := None) }

  function Sever(c: Ctx, q: Ctx): Outcome { Outcome(Unlink(c), Some(Unlink(q)), false) }

  /** A hang-up or end of file on `c`: the peer is shut down unless it still has bytes queued. */
  function HangUp(c: Ctx, q: Ctx): Outcome {
    Sever(c.(readEof := true), q.(writeEof := true, shut := q.shut || !q.win.partial))
  }

  function CheckHangUp(c: Ctx, q: Ctx, ev: Interest): Outcome {
    if ev.hangup then HangUp(c, q) else Outcome(c, Some(q), true)
  }

  /** The kernel took the first `k` bytes of the window. */
  function Advance(c: Ctx, k: nat): Ctx
    requires k <= |Window(c)|
  {
    var sent := c.(delivered := c.delivered + Window(c)[..k]);
    if k == c.win.len then sent.(win := Win(0, 0, false), mask := IDLE)
    else sent.(win := Win(c.win.start + k, c.win.len - k, c.win.partial))
  }

  function Flush(c: Ctx, p: Option<Ctx>, send: SendResult): Outcome {
    var severed := Outcome(Unlink(c), if p.Some? then Some(Unlink(p.value)) else None, false);
    match send
    case SendAgain => Outcome(c, p, true)
    case SendFail => severed
    case Room(n) =>
      var k := Min(n, |Window(c)|);
      if k == 0 then severed.(ctx := severed.ctx.(writeEof := true))
      else if k < c.win.len then Outcome(Advance(c, k), p, true)
      else if p.Some? then Outcome(Advance(c, k), Some(p.value.(mask := IDLE)), true)
      else Outcome(Advance(c, k), None, false)
  }

  function Enqueue(q: Ctx, rest: seq<Byte>): Ctx {
    q.(buffer := Overwrite(q.buffer, rest), win := Win(0, |rest|, true), mask := BACKLOGGED)
  }

  function Forward(c: Ctx, q: Ctx, out: seq<Byte>, send: SendResult): Outcome {
    match send
    case SendAgain => Outcome(c.(mask := STALLED), Some(Enqueue(q, out)), true)
    case SendFail => Sever(c, q)
    case Room(n) =>
      var k := Min(n, |out|);
      var q1 := q.(delivered := q.delivered + out[..k]);
      if k == 0 then Sever(c, q.(writeEof := true, shut := true))
      else if k < |out| then Outcome(c.(mask := STALLED), Some(Enqueue(q1, out[k..])), true)
      else Outcome(c, Some(q1), true)
  }

  /** The reader's own buffer and log once the hook has answered. */
  function Ingest(c: Ctx, chunk: Chunk): Ctx {
    c.(buffer := Overwrite(Overwrite(c.buffer, chunk.data), Output(chunk)), taken := c.taken + [chunk])
  }

  function Relayed(c: Ctx, q: Ctx, chunk: Chunk, send: SendResult): Outcome {
    if HookOutput(chunk.data, chunk.reply).None? then Sever(Ingest(c, chunk), q)
    else Forward(Ingest(c, chunk), q, Output(chunk), send)
  }

  /** recv takes at most one byte less than the buffer holds. */
  function Received(held: seq<Byte>): seq<Byte> {
    held[..Min(|held|, BUFFER_SIZE - 1)]
  }

  function Pump(c: Ctx, q: Ctx, ev: Interest, io: Io): Outcome {
    match io.recv
    case RecvAgain => CheckHangUp(c, q, ev)
    case RecvFail => Sever(c, q)
    case Arrive(held) =>
      if |held| == 0 then HangUp(c, q)
      else Relayed(c, q, Chunk(Received(held), io.reply), io.send)
  }

  /** One call of the handler; `p` is the peer's state while the link is up. */
  function Handle(c: Ctx, p: Option<Ctx>, ev: Interest, io: Io): Outcome {
    if p.None? && !c.win.partial then Outcome(c.(readEof := true, writeEof := true), None, false)
    else if ev.output && c.win.partial then Flush(c, p, io.send)
    else if p.None? then Outcome(c, None, false)
    else if ev.input && !p.value.win.partial then Pump(c, p.value, ev, io)
    else CheckHangUp(c, p.value, ev)
  }

  // ---------------------------------------------------------------- one step

  /** The window invariant of a context; the write side is shut down only once unlinked and with nothing queued. */
  ghost predicate WindowOk(c: Ctx) {
    && |c.buffer| == BUFFER_SIZE
    && 0 <= c.win.len && 0 <= c.win.start && c.win.start + c.win.len <= BUFFER_SIZE
    && (c.win.partial <==> c.win.len > 0)
    && (c.win.len == 0 ==> c.win.start == 0)
    && (c.shut ==> c.peer.None? && !c.win.partial)
  }

  /** An event on which a linked context is read while bytes are queued in its own buffer. */
  ghost predicate Clobbers(c: Ctx, ev: Interest) {
    c.win.partial && ev.input && !ev.output
  }

  /** A call that does read data over the context's own queue. */
  ghost predicate ReadsOver(c: Ctx, ev: Interest, io: Io) {
    c.peer.Some? && Clobbers(c, ev) && io.recv.Arrive? && |io.recv.data| > 0
  }

  /** Delivered bytes against the bytes accepted for this side. */
  ghost predicate StreamOk(c: Ctx, accepted: seq<Byte>) {
    && (c.peer.Some? || c.win.partial ==> c.delivered + Window(c) == accepted)
    && c.delivered <= accepted
  }

  ghost predicate StreamsOk(c: Ctx, q: Ctx) {
    StreamOk(c, Forwarded(q.taken)) && StreamOk(q, Forwarded(c.taken))
  }

  /** Interest armed by a context that is on its own. */
  ghost predicate MaskAlone(c: Ctx) {
    c.mask.hangup && (c.win.partial ==> c.mask == BACKLOGGED)
  }

  /** Masks of a linked pair agree with its backlog, and at most one end has one. */
  ghost predicate MasksOk(c: Ctx, q: Ctx) {
    && !(c.win.partial && q.win.partial)
    && c.mask == (if c.win.partial then BACKLOGGED else if q.win.partial then STALLED else IDLE)
    && q.mask == (if q.win.partial then BACKLOGGED else if c.win.partial then STALLED else IDLE)
  }

  /** Two ends in good order: conserved streams both ways and agreeing masks. */
  ghost predicate PairOk(c: Ctx, q: Ctx) {
    && (c.peer.Some? <==> q.peer.Some?)
    && StreamsOk(c, q)
    && (if c.peer.Some? then MasksOk(c, q) else MaskAlone(c) && MaskAlone(q))
  }

  // ------------------------------------------------------------ window

  ghost predicate WindowsOk(o: Outcome) { WindowOk(o.ctx) && (o.peer.Some? ==> WindowOk(o.peer.value)) }

  lemma FlushKeepsWindow(c: Ctx, p: Option<Ctx>, send: SendResult)
    requires WindowOk(c) && c.win.partial && (p.Some? ==> WindowOk(p.value))
    ensures WindowsOk(Flush(c, p, send))
  {}

  lemma ForwardKeepsWindow(c: Ctx, q: Ctx, out: seq<Byte>, send: SendResult)
    requires WindowOk(c) && WindowOk(q) && q.peer.Some? && !q.win.partial && 0 < |out| <= BUFFER_SIZE
    ensures WindowsOk(Forward(c, q, out, send))
  {}

  lemma RelayedKeepsWindow(c: Ctx, q: Ctx, chunk: Chunk, send: SendResult)
    requires WindowOk(c) && WindowOk(q) && q.peer.Some? && !q.win.partial && 0 < |chunk.data| < BUFFER_SIZE
    ensures WindowsOk(Relayed(c, q, chunk, send))
  {
    hide Forward;
    if HookOutput(chunk.data, chunk.reply).Some? {
      ForwardKeepsWindow(Ingest(c, chunk), q, Output(chunk), send);
    }
  }

  /** The window invariant needs no hypothesis on the events. */
  lemma HandleKeepsWindow(c: Ctx, p: Option<Ctx>, ev: Interest, io: Io)
    requires WindowOk(c) && (p.Some? ==> WindowOk(p.value) && c.peer.Some? && p.value.peer.Some?)
    ensures WindowsOk(Handle(c, p, ev, io))
  {
    hide Flush, Relayed;
    if c.win.partial { FlushKeepsWindow(c, p, io.send); }
    if p.Some? && !p.value.win.partial && io.recv.Arrive? && |io.recv.data| > 0 {
      RelayedKeepsWindow(c, p.value, Chunk(Received(io.recv.data), io.reply), io.send);
    }
  }

  /**
   A pending window is never replaced by a second queueing, and only a flush of its
   own context moves it; this needs no hypothesis on the events either.
   */
  lemma PendingWindowIsNotReplaced(c: Ctx, q: Ctx, ev: Interest, io: Io)
    ensures var o := Handle(c, Some(q), ev, io);
            && o.peer.Some?
            && (q.win.partial ==> o.peer.value.win == q.win && o.peer.value.buffer == q.buffer)
            && (!(ev.output && c.win.partial) ==> o.ctx.win == c.win)
  {
    hide Overwrite, HookOutput, Advance, Received, Window;
  }

  // ------------------------------------------------------------ links

  /** What a call does to the link, and what it never touches. */
  ghost predicate LinksOk(c: Ctx, q: Ctx, o: Outcome) {
    && o.peer.Some?
    && o.ctx.fd == c.fd && o.peer.value.fd == q.fd
    && o.ctx.mate == c.mate && o.peer.value.mate == q.mate
    && o.ctx.peer == (if o.keep then c.peer else None)
    && o.peer.value.peer == (if o.keep then q.peer else None)
  }

  lemma RelayedLinks(c: Ctx, q: Ctx, chunk: Chunk, send: SendResult)
    ensures LinksOk(c, q, Relayed(c, q, chunk, send))
  {
    hide Overwrite, HookOutput;
  }

  lemma FlushLinks(c: Ctx, q: Ctx, send: SendResult)
    ensures LinksOk(c, q, Flush(c, Some(q), send))
  {}

  /** A call that returns false leaves both ends unlinked, and one that returns true keeps the link. */
  lemma HandleLinks(c: Ctx, q: Ctx, ev: Interest, io: Io)
    ensures LinksOk(c, q, Handle(c, Some(q), ev, io))
  {
    hide Relayed, Flush;
    FlushLinks(c, q, io.send);
    if io.recv.Arrive? && |io.recv.data| > 0 {
      RelayedLinks(c, q, Chunk(Received(io.recv.data), io.reply), io.send);
    }
  }

  // ------------------------------------------------------------ streams and masks

  lemma ForwardedAppend(taken: seq<Chunk>, chunk: Chunk)
    ensures Forwarded(taken + [chunk]) == Forwarded(taken) + Output(chunk)
  {
    assert (taken + [chunk])[..|taken|] == taken;
  }

  lemma Rejoin(a: seq<Byte>, b: seq<Byte>, k: nat)
    requires k <= |b|
    ensures (a + b[..k]) + b[k..] == a + b && a + b[..k] <= a + b
  {}

  lemma AdvanceConserves(c: Ctx, k: nat)
    requires WindowOk(c) && k <= c.win.len
    ensures Advance(c, k).delivered + Window(Advance(c, k)) == c.delivered + Window(c)
    ensures c.delivered <= Advance(c, k).delivered
  {
    var w := Window(c);
    Rejoin(c.delivered, w, k);
    if k == c.win.len {
      assert w[k..] == [];
    } else {
      assert Window(Advance(c, k)) == w[k..];
    }
  }

  /** A flush moves bytes from the window to the wire and does nothing else to the streams. */
  lemma FlushConserves(c: Ctx, q: Ctx, send: SendResult)
    requires WindowOk(c) && c.win.partial
    ensures var o := Flush(c, Some(q), send);
            && o.peer.Some?
            && o.ctx.delivered + Window(o.ctx) == c.delivered + Window(c) && c.delivered <= o.ctx.delivered
            && o.ctx.taken == c.taken && o.peer.value == q.(mask := o.peer.value.mask, peer := o.peer.value.peer)
  {
    if send.Room? { AdvanceConserves(c, Min(send.n, c.win.len)); }
  }

  lemma FlushMasks(c: Ctx, q: Ctx, send: SendResult)
    requires WindowOk(c) && c.win.partial
    ensures var o := Flush(c, Some(q), send);
            && o.peer.Some?
            && o.ctx.mask == (if o.ctx.win.partial then c.mask else IDLE)
            && o.peer.value.mask == (if o.ctx.win.partial then q.mask else IDLE)
  {}

  lemma FlushKeepsPair(c: Ctx, q: Ctx, send: SendResult)
    requires WindowOk(c) && WindowOk(q) && c.win.partial && c.peer.Some? && PairOk(c, q)
    ensures var o := Flush(c, Some(q), send); PairOk(o.ctx, o.peer.value)
  {
    hide Flush, Forwarded;
    var o := Flush(c, Some(q), send);
    FlushLinks(c, q, send);
    FlushConserves(c, q, send);
    FlushMasks(c, q, send);
    assert o.ctx.delivered <= o.ctx.delivered + Window(o.ctx);
    assert Window(o.peer.value) == Window(q);
  }

  lemma EnqueuedWindow(q: Ctx, rest: seq<Byte>)
    requires WindowOk(q) && |rest| <= BUFFER_SIZE
    ensures Window(Enqueue(q, rest)) == rest
  {}

  lemma ForwardConserves(c: Ctx, q: Ctx, out: seq<Byte>, send: SendResult)
    requires WindowOk(q) && !q.win.partial && 0 < |out| <= BUFFER_SIZE
    ensures var o := Forward(c, q, out, send);
            && o.ctx == c.(mask := o.ctx.mask, peer := o.ctx.peer)
            && o.peer.Some? && o.peer.value.taken == q.taken
            && (o.keep ==> o.peer.value.delivered + Window(o.peer.value) == q.delivered + out)
            && o.peer.value.delivered <= q.delivered + out
            && (!o.keep ==> !o.peer.value.win.partial)
  {
    if send.SendAgain? {
      EnqueuedWindow(q, out);
    } else if send.Room? {
      var k := Min(send.n, |out|);
      var q1 := q.(delivered := q.delivered + out[..k]);
      EnqueuedWindow(q1, out[k..]);
      Rejoin(q.delivered, out, k);
    }
  }

  lemma ForwardMasks(c: Ctx, q: Ctx, out: seq<Byte>, send: SendResult)
    requires WindowOk(q) && !q.win.partial && 0 < |out| <= BUFFER_SIZE
    ensures var o := Forward(c, q, out, send);
            && o.peer.Some?
            && o.ctx.mask == (if o.peer.value.win.partial then STALLED else c.mask)
            && o.peer.value.mask == (if o.peer.value.win.partial then BACKLOGGED else q.mask)
  {
    hide Overwrite, Window;
  }

  lemma RelayedKeepsStreams(c: Ctx, q: Ctx, chunk: Chunk, send: SendResult)
    requires WindowOk(q) && q.delivered == Forwarded(c.taken)
    requires !q.win.partial && 0 < |chunk.data| < BUFFER_SIZE
    ensures var o := Relayed(c, q, chunk, send);
            && o.peer.Some? && StreamOk(o.peer.value, Forwarded(o.ctx.taken))
            && o.peer.value.taken == q.taken && o.ctx.delivered == c.delivered
            && o.ctx.win == c.win
  {
    hide Forward, Window, Forwarded, Overwrite;
    RelayedLinks(c, q, chunk, send);
    ForwardedAppend(c.taken, chunk);
    if HookOutput(chunk.data, chunk.reply).Some? {
      ForwardConserves(Ingest(c, chunk), q, Output(chunk), send);
    }
  }

  lemma RelayedMasks(c: Ctx, q: Ctx, chunk: Chunk, send: SendResult)
    requires WindowOk(q) && !q.win.partial && 0 < |chunk.data| < BUFFER_SIZE
    ensures var o := Relayed(c, q, chunk, send);
            && o.peer.Some?
            && o.ctx.mask == (if o.peer.value.win.partial then STALLED else c.mask)
            && o.peer.value.mask == (if o.peer.value.win.partial then BACKLOGGED else q.mask)
  {
    hide Forward, Overwrite;
    if HookOutput(chunk.data, chunk.reply).Some? {
      ForwardMasks(Ingest(c, chunk), q, Output(chunk), send);
    }
  }

  lemma RelayedKeepsPair(c: Ctx, q: Ctx, chunk: Chunk, send: SendResult)
    requires WindowOk(c) && WindowOk(q) && c.peer.Some? && PairOk(c, q)
    requires !c.win.partial && !q.win.partial && 0 < |chunk.data| < BUFFER_SIZE
    ensures var o := Relayed(c, q, chunk, send); PairOk(o.ctx, o.peer.value)
  {
    hide Relayed, Forwarded;
    var o := Relayed(c, q, chunk, send);
    RelayedKeepsWindow(c, q, chunk, send);
    RelayedLinks(c, q, chunk, send);
    RelayedKeepsStreams(c, q, chunk, send);
    RelayedMasks(c, q, chunk, send);
  }

  lemma CheckHangUpKeepsPair(c: Ctx, q: Ctx, ev: Interest)
    requires c.peer.Some? && PairOk(c, q)
    ensures PairOk(HangUp(c, q).ctx, HangUp(c, q).peer.value) && PairOk(Sever(c, q).ctx, Sever(c, q).peer.value)
    ensures var o := CheckHangUp(c, q, ev); PairOk(o.ctx, o.peer.value)
  {
    hide Forwarded;
  }

  /** A call that does not read data over the context's own queue keeps a pair in good order. */
  lemma HandleKeepsPair(c: Ctx, q: Ctx, ev: Interest, io: Io)
    requires WindowOk(c) && WindowOk(q) && c.peer.Some? && PairOk(c, q) && !ReadsOver(c, ev, io)
    ensures var o := Handle(c, Some(q), ev, io); PairOk(o.ctx, o.peer.value)
  {
    hide Flush, Relayed, CheckHangUp, HangUp, Sever, Window, Forwarded;
    CheckHangUpKeepsPair(c, q, ev);
    if ev.output && c.win.partial {
      FlushKeepsPair(c, q, io.send);
    } else if ev.input && !q.win.partial && io.recv.Arrive? && |io.recv.data| > 0 {
      RelayedKeepsPair(c, q, Chunk(Received(io.recv.data), io.reply), io.send);
    }
  }

  // ------------------------------------------------------------ what one call achieves

  /** The call flushes the context's own queue. */
  ghost predicate Flushes(c: Ctx, ev: Interest) { ev.output && c.win.partial }

  /** The call asks the kernel for data. */
  ghost predicate Receives(c: Ctx, q: Ctx, ev: Interest) { !Flushes(c, ev) && ev.input && !q.win.partial }

  /** The call asks for data and gets some. */
  ghost predicate ReadsData(c: Ctx, q: Ctx, ev: Interest, io: Io) {
    Receives(c, q, ev) && io.recv.Arrive? && |io.recv.data| > 0
  }

  /** The hook refuses the data: its answer is no string, or one that does not fit the buffer. */
  ghost predicate Drops(reply: HookReply) { reply.NotString? || (reply.Reply? && |reply.bytes| > 1024) }

  /** The hook replaces the data. */
  ghost predicate Replaces(reply: HookReply) { reply.Reply? && 0 < |reply.bytes| <= 1024 }

  /** The send fails or takes nothing. */
  ghost predicate Refuses(send: SendResult) { send.SendFail? || send == Room(0) }

  /** What the hook rule computes, answer by answer. */
  lemma HookRule(data: seq<Byte>, reply: HookReply)
    ensures HookOutput(data, reply) == None <==> Drops(reply)
    ensures Replaces(reply) ==> HookOutput(data, reply) == Some(reply.bytes)
    ensures !Drops(reply) && !Replaces(reply) ==> HookOutput(data, reply) == Some(data)
  {}

  /**
   What a call logs as read: when it gets data, all of it if that is less than the buffer holds and the
   first 1023 bytes otherwise, with the hook's answer; in every other case nothing, and never for the peer.
   */
  lemma ReadTakes(c: Ctx, q: Ctx, ev: Interest, io: Io)
    ensures var o := Handle(c, Some(q), ev, io);
            && o.peer.Some? && o.peer.value.taken == q.taken
            && (if ReadsData(c, q, ev, io) then
                  && |o.ctx.taken| == |c.taken| + 1 && c.taken <= o.ctx.taken
                  && var chunk := o.ctx.taken[|c.taken|];
                  && chunk.reply == io.reply && chunk.data <= io.recv.data
                  && |chunk.data| == (if |io.recv.data| <= 1023 then |io.recv.data| else 1023)
                else o.ctx.taken == c.taken)
  {
    hide Flush, Relayed;
    FlushLogs(c, q, io.send);
    if ReadsData(c, q, ev, io) { RelayedLogs(c, q, Chunk(Received(io.recv.data), io.reply), io.send); }
  }

  lemma FlushLogs(c: Ctx, q: Ctx, send: SendResult)
    ensures var o := Flush(c, Some(q), send);
            o.ctx.taken == c.taken && o.peer.Some? && o.peer.value.taken == q.taken && o.peer.value.delivered == q.delivered
  {
    hide Window;
  }

  lemma RelayedLogs(c: Ctx, q: Ctx, chunk: Chunk, send: SendResult)
    ensures var o := Relayed(c, q, chunk, send);
            && o.ctx.taken == c.taken + [chunk] && o.ctx.delivered == c.delivered
            && o.peer.Some? && o.peer.value.taken == q.taken
  {
    hide Overwrite, HookOutput;
  }

  /**
   Where the data of a read goes: the hook's replacement or the data itself, as much as there is room
   for to the wire and the rest to the queue; nothing when the hook refuses.
   */
  lemma ReadDelivers(c: Ctx, q: Ctx, ev: Interest, io: Io)
    requires WindowOk(q) && ReadsData(c, q, ev, io)
    ensures var o := Handle(c, Some(q), ev, io);
            && o.peer.Some? && |o.ctx.taken| > 0
            && var data := o.ctx.taken[|o.ctx.taken| - 1].data;
            var out := if Replaces(io.reply) then io.reply.bytes else data;
            var k := if !Drops(io.reply) && io.send.Room? then Min(io.send.n, |out|) else 0;
            && o.peer.value.delivered == q.delivered + out[..k]
            && Window(o.peer.value) == (if Drops(io.reply) || Refuses(io.send) then [] else out[k..])
  {
    hide Received, HookOutput, Window, Overwrite;
    var chunk := Chunk(Received(io.recv.data), io.reply);
    assert Handle(c, Some(q), ev, io) == Relayed(c, q, chunk, io.send);
    ReceivedSome(io.recv.data);
    HookRule(chunk.data, chunk.reply);
    assert Window(q) == [] by { NoWindow(q); }
    RelayedLogs(c, q, chunk, io.send);
    if !Drops(io.reply) {
      ForwardDelivers(Ingest(c, chunk), q, Output(chunk), io.send);
    } else {
      assert Window(Unlink(q)) == Window(q) by { SameWindow(q, Unlink(q)); }
    }
  }

  lemma SameWindow(c: Ctx, d: Ctx)
    requires d.win == c.win && d.buffer == c.buffer
    ensures Window(d) == Window(c)
  {}

  lemma ReceivedSome(held: seq<Byte>)
    requires |held| > 0
    ensures 0 < |Received(held)| < BUFFER_SIZE
  {}

  lemma NoWindow(q: Ctx)
    requires WindowOk(q) && !q.win.partial
    ensures Window(q) == []
  {}

  lemma ForwardDelivers(c: Ctx, q: Ctx, out: seq<Byte>, send: SendResult)
    requires WindowOk(q) && !q.win.partial && 0 < |out| <= BUFFER_SIZE
    ensures var o := Forward(c, q, out, send);
            var k := if send.Room? then Min(send.n, |out|) else 0;
            && o.ctx.taken == c.taken && o.peer.Some? && o.peer.value.delivered == q.delivered + out[..k]
            && Window(o.peer.value) == (if Refuses(send) then [] else out[k..])
  {
    var k := if send.Room? then Min(send.n, |out|) else 0;
    EnqueuedWindow(q.(delivered := q.delivered + out[..k]), out[k..]);
    EnqueuedWindow(q, out);
    NoWindow(q);
    assert out[0..] == out;
  }

  /** Only a read delivers to the peer, and only a flush to the context itself. */
  lemma NothingElseDelivers(c: Ctx, q: Ctx, ev: Interest, io: Io)
    ensures var o := Handle(c, Some(q), ev, io);
            && o.peer.Some?
            && (!ReadsData(c, q, ev, io) ==> o.peer.value.delivered == q.delivered)
            && (!Flushes(c, ev) ==> o.ctx.delivered == c.delivered)
  {
    hide Flush, Relayed, Received;
    FlushLogs(c, q, io.send);
    if ReadsData(c, q, ev, io) { RelayedLogs(c, q, Chunk(Received(io.recv.data), io.reply), io.send); }
  }

  // ------------------------------------------------------------ when a call gives up, and what it marks

  /** Why a call on a linked context gives the connection up. */
  ghost predicate GivesUp(c: Ctx, q: Ctx, ev: Interest, io: Io) {
    if Flushes(c, ev) then Refuses(io.send)
    else if Receives(c, q, ev) then
      || io.recv.RecvFail?
      || io.recv == Arrive([])
      || (ReadsData(c, q, ev, io) && (Drops(io.reply) || Refuses(io.send)))
      || (io.recv.RecvAgain? && ev.hangup)
    else ev.hangup
  }

  /** A call gives up exactly for one of these reasons. */
  lemma GivesUpExactly(c: Ctx, q: Ctx, ev: Interest, io: Io)
    requires WindowOk(c)
    ensures !Handle(c, Some(q), ev, io).keep <==> GivesUp(c, q, ev, io)
  {
    hide Overwrite, Received, HookOutput;
    assert c.win.partial ==> |Window(c)| > 0;
    hide Window;
    if ReadsData(c, q, ev, io) {
      ReceivedSome(io.recv.data);
      HookRule(Received(io.recv.data), io.reply);
    }
  }

  /** The marks of both ends after a call, by what happened in it. */
  ghost predicate Marked(c: Ctx, q: Ctx, o: Outcome, ended: bool, stuck: bool, refused: bool) {
    && o.peer.Some?
    && (o.ctx.readEof <==> c.readEof || ended)
    && (o.ctx.writeEof <==> c.writeEof || stuck)
    && (o.ctx.shut <==> c.shut)
    && (o.peer.value.readEof <==> q.readEof)
    && (o.peer.value.writeEof <==> q.writeEof || ended || refused)
    && (o.peer.value.shut <==> q.shut || (ended && !q.win.partial) || refused)
  }

  /**
   End of file and hang-up mark both ends and shut the peer down exactly when nothing is queued on it;
   a zero-byte flush marks the context, a zero-byte forward marks and shuts down the peer; nothing else marks.
   */
  lemma MarksExactly(c: Ctx, q: Ctx, ev: Interest, io: Io)
    requires WindowOk(c)
    ensures Marked(c, q, Handle(c, Some(q), ev, io), HangsUp(c, q, ev, io), Flushes(c, ev) && io.send == Room(0),
                   ReadsData(c, q, ev, io) && !Drops(io.reply) && io.send == Room(0))
  {
    hide Flush, Relayed, Received;
    if Flushes(c, ev) {
      FlushMarks(c, q, io.send);
    } else if ReadsData(c, q, ev, io) {
      ReceivedSome(io.recv.data);
      RelayedMarks(c, q, Chunk(Received(io.recv.data), io.reply), io.send);
    } else {
      QuietMarks(c, q, ev, io);
    }
  }

  lemma QuietMarks(c: Ctx, q: Ctx, ev: Interest, io: Io)
    requires !Flushes(c, ev) && !ReadsData(c, q, ev, io)
    ensures Marked(c, q, Handle(c, Some(q), ev, io), HangsUp(c, q, ev, io), false, false)
  {
    hide Flush, Relayed;
  }

  lemma FlushMarks(c: Ctx, q: Ctx, send: SendResult)
    requires WindowOk(c) && c.win.partial
    ensures Marked(c, q, Flush(c, Some(q), send), false, send == Room(0), false)
  {}

  lemma RelayedMarks(c: Ctx, q: Ctx, chunk: Chunk, send: SendResult)
    requires |chunk.data| > 0
    ensures Marked(c, q, Relayed(c, q, chunk, send), false, false, !Drops(chunk.reply) && send == Room(0))
  {
    hide Overwrite, HookOutput;
    HookRule(chunk.data, chunk.reply);
  }

  /** A flush hands over as much of the window as there is room for, and one that empties it re-arms reading on both ends. */
  lemma FlushDelivers(c: Ctx, q: Ctx, ev: Interest, io: Io)
    requires WindowOk(c) && c.win.partial && ev.output && io.send.Room? && io.send.n > 0
    ensures var o := Handle(c, Some(q), ev, io);
            var k := Min(io.send.n, c.win.len);
            && o.keep && o.peer.Some? && |Window(c)| == c.win.len
            && o.ctx.delivered == c.delivered + Window(c)[..k] && Window(o.ctx) == Window(c)[k..]
            && (k == c.win.len ==> o.ctx.mask == IDLE && o.peer.value.mask == IDLE)
  {
    AdvanceWindow(c, Min(io.send.n, c.win.len));
  }

  /** The call finds the connection ended from the other side: end of file, or a hang-up with nothing to read. */
  ghost predicate HangsUp(c: Ctx, q: Ctx, ev: Interest, io: Io) {
    && !(ev.output && c.win.partial)
    && (if ev.input && !q.win.partial then io.recv == Arrive([]) || (io.recv.RecvAgain? && ev.hangup) else ev.hangup)
  }

  /** A hang-up severs and touches neither the queue nor the streams. */
  lemma HangUpSevers(c: Ctx, q: Ctx, ev: Interest, io: Io)
    requires HangsUp(c, q, ev, io)
    ensures var o := Handle(c, Some(q), ev, io);
            && !o.keep && o.peer.Some? && o.ctx.peer == None && o.peer.value.peer == None
            && o.ctx.taken == c.taken
            && o.peer.value.win == q.win && o.peer.value.buffer == q.buffer && o.peer.value.delivered == q.delivered
  {
    hide Window, Overwrite, HookOutput, Flush, Relayed;
  }

  // ------------------------------------------------------------ exactly when

  ghost predicate Conserved(o: Outcome) { o.peer.Some? && StreamsOk(o.ctx, o.peer.value) }

  ghost predicate Agreeing(o: Outcome) { o.peer.Some? && (o.keep ==> MasksOk(o.ctx, o.peer.value)) }

  /** A read whose replacement fills the whole buffer with `b`. */
  function Filling(b: Byte, send: SendResult): Io {
    Io(Arrive([0]), Reply(seq(BUFFER_SIZE, _ => b)), send)
  }

  lemma FillingOverwrites(c: Ctx, q: Ctx, ev: Interest, b: Byte, send: SendResult)
    requires WindowOk(c) && c.peer.Some? && Clobbers(c, ev) && !q.win.partial
    requires send.SendAgain? || send == Room(BUFFER_SIZE)
    ensures var o := Handle(c, Some(q), ev, Filling(b, send));
            && o.keep && o.peer.Some? && o.ctx.peer == c.peer && o.peer.value.peer == q.peer
            && o.ctx.buffer == seq(BUFFER_SIZE, _ => b) && o.ctx.win == c.win
            && o.ctx.delivered == c.delivered && o.peer.value.taken == q.taken
            && (send.SendAgain? ==> o.peer.value.win.partial)
  {
    hide Window;
    var io := Filling(b, send);
    var chunk := Chunk([0], io.reply);
    assert Received([0]) == [0];
    assert Handle(c, Some(q), ev, io) == Relayed(c, q, chunk, send);
    assert Ingest(c, chunk).buffer == seq(BUFFER_SIZE, _ => b);
  }

  lemma AppendsDiffer(a: seq<Byte>, b: seq<Byte>, c: seq<Byte>)
    requires |b| > 0 && |c| > 0 && b[0] != c[0]
    ensures a + b != a + c
  {
    assert (a + b)[|a|] != (a + c)[|a|];
  }

  /** From a conserved pair every outcome of the call conserves it, exactly when the call does not read over its own queue. */
  lemma ConservedExactlyWhenExclusive(c: Ctx, q: Ctx, ev: Interest)
    requires WindowOk(c) && WindowOk(q) && c.peer.Some? && PairOk(c, q)
    ensures (forall io :: Conserved(Handle(c, Some(q), ev, io)))
            <==> !Clobbers(c, ev)
  {
    hide Handle, Forwarded;
    if Clobbers(c, ev) {
      var b: Byte := if c.buffer[c.win.start] == 0 then 1 else 0;
      var io := Filling(b, Room(BUFFER_SIZE));
      FillingOverwrites(c, q, ev, b, io.send);
      var o := Handle(c, Some(q), ev, io);
      assert Window(o.ctx)[0] != Window(c)[0];
      AppendsDiffer(c.delivered, Window(o.ctx), Window(c));
      assert !Conserved(o);
    } else {
      forall io ensures Conserved(Handle(c, Some(q), ev, io)) {
        HandleLinks(c, q, ev, io);
        HandleKeepsPair(c, q, ev, io);
      }
    }
  }

  /** Likewise for the masks: otherwise both ends can be left with a backlog and the wake-up for one is disarmed. */
  lemma MasksAgreeExactlyWhenExclusive(c: Ctx, q: Ctx, ev: Interest)
    requires WindowOk(c) && WindowOk(q) && c.peer.Some? && PairOk(c, q)
    ensures (forall io :: Agreeing(Handle(c, Some(q), ev, io))) <==> !Clobbers(c, ev)
  {
    hide Handle, Forwarded;
    if Clobbers(c, ev) {
      var io := Filling(0, SendAgain);
      FillingOverwrites(c, q, ev, 0, SendAgain);
      var o := Handle(c, Some(q), ev, io);
      assert !Agreeing(o);
    } else {
      forall io ensures Agreeing(Handle(c, Some(q), ev, io)) {
        HandleKeepsPair(c, q, ev, io);
        HandleLinks(c, q, ev, io);
      }
    }
  }

  // ------------------------------------------------------------ after severing

  /** What a call on a severed context may do: drain the window and nothing else. */
  ghost predicate Drained(c: Ctx, d: Ctx) {
    && d.peer.None? && d.taken == c.taken && d.fd == c.fd && d.mate == c.mate
    && d.delivered + Window(d) == c.delivered + Window(c)
    && c.delivered <= d.delivered
    && (d.win.partial ==> c.win.partial) && (!c.win.partial ==> d.delivered == c.delivered)
  }

  lemma HandleAlone(c: Ctx, ev: Interest, io: Io)
    requires WindowOk(c) && c.peer.None?
    ensures var o := Handle(c, None, ev, io);
            && o.peer.None? && Drained(c, o.ctx) && (MaskAlone(c) ==> MaskAlone(o.ctx))
            && (o.keep ==> o.ctx.win.partial)
  {
    if c.win.partial && ev.output && io.send.Room? {
      AdvanceConserves(c, Min(io.send.n, c.win.len));
    }
  }

  /** A severed context is kept exactly while bytes stay queued and the event flushes some of them or is told to try again. */
  lemma AloneExactly(c: Ctx, ev: Interest, io: Io)
    requires WindowOk(c) && c.peer.None?
    ensures var o := Handle(c, None, ev, io);
            && (o.keep <==> Flushes(c, ev) && !Refuses(io.send) && (io.send.Room? ==> io.send.n < c.win.len))
            && (o.ctx.readEof <==> c.readEof || !c.win.partial) && o.ctx.shut == c.shut
            && (o.ctx.writeEof <==> c.writeEof || !c.win.partial || (Flushes(c, ev) && io.send == Room(0)))
            && o.ctx.delivered == c.delivered + (if Flushes(c, ev) && io.send.Room? then Window(c)[..Min(io.send.n, |Window(c)|)] else [])
  {
    if c.win.partial && ev.output && io.send.Room? { AdvanceWindow(c, Min(io.send.n, c.win.len)); }
  }

  /** An event on a severed context. */
  datatype Poke = Poke(bits: Interest, io: Io)

  /** It reports writability, and the kernel neither fails nor refuses to take anything. */
  ghost predicate Gentle(p: Poke) {
    p.bits.output && !p.io.send.SendFail? && p.io.send != Room(0)
  }

  /** A severed context with queued bytes is given up with some of them undelivered exactly when the event is not gentle. */
  lemma DiscardsExactly(c: Ctx, p: Poke)
    requires WindowOk(c) && c.peer.None? && c.win.partial
    ensures var o := Handle(c, None, p.bits, p.io);
            !o.keep && o.ctx.win.partial <==> !Gentle(p)
  {
    if p.bits.output && p.io.send.Room? { AdvanceWindow(c, Min(p.io.send.n, c.win.len)); }
  }

  /** A severed context under a sequence of events, until it is given up. */
  function Drain(c: Ctx, pokes: seq<Poke>): (Ctx, bool) {
    if |pokes| == 0 then (c, true)
    else
      var n := |pokes| - 1;
      var (d, keep) := Drain(c, pokes[..n]);
      if !keep then (d, false)
      else
        var o := Handle(d, None, pokes[n].bits, pokes[n].io);
        (o.ctx, o.keep)
  }

  /** How many bytes the kernel had room for, over all the events. */
  function Takes(pokes: seq<Poke>): nat {
    if |pokes| == 0 then 0
    else
      var send := pokes[|pokes| - 1].io.send;
      Takes(pokes[..|pokes| - 1]) + if send.Room? then send.n else 0
  }

  lemma DrainedTransitive(c: Ctx, d: Ctx, e: Ctx)
    requires Drained(c, d) && Drained(d, e)
    ensures Drained(c, e)
  {
    hide Window;
  }

  /** Whatever the events, draining only moves bytes from the window to the wire. */
  lemma {:induction false} DrainConserves(c: Ctx, pokes: seq<Poke>)
    requires WindowOk(c) && c.peer.None?
    ensures var (d, keep) := Drain(c, pokes); Drained(c, d) && WindowOk(d)
    ensures c.win.partial && Drain(c, pokes).1 ==> Drain(c, pokes).0.win.partial
    decreases |pokes|
  {
    if |pokes| > 0 {
      hide Handle, Drained;
      var n := |pokes| - 1;
      DrainConserves(c, pokes[..n]);
      var (d, keep) := Drain(c, pokes[..n]);
      if keep {
        assert d.peer.None? by { SeveredStays(c, d); }
        HandleAlone(d, pokes[n].bits, pokes[n].io);
        HandleKeepsWindow(d, None, pokes[n].bits, pokes[n].io);
        DrainedTransitive(c, d, Handle(d, None, pokes[n].bits, pokes[n].io).ctx);
      }
    } else {
      assert Drained(c, c);
    }
  }

  lemma SeveredStays(c: Ctx, d: Ctx)
    requires Drained(c, d)
    ensures d.peer.None?
  {}

  ghost predicate AllGentle(pokes: seq<Poke>) { forall i :: 0 <= i < |pokes| ==> Gentle(pokes[i]) }

  /** One gentle event: nothing is lost, and the window is shorter by what the kernel had room for, or gone. */
  lemma GentlePoke(c: Ctx, p: Poke)
    requires WindowOk(c) && c.peer.None? && c.win.partial && Gentle(p)
    ensures var o := Handle(c, None, p.bits, p.io);
            && (o.keep <==> o.ctx.win.partial)
            && (p.io.send.Room? ==> (o.keep <==> p.io.send.n < c.win.len))
            && (p.io.send.Room? && o.keep ==> o.ctx.win.len + p.io.send.n == c.win.len)
            && (p.io.send.SendAgain? ==> o.ctx == c)
  {
    hide Window;
    if p.io.send.Room? { AdvanceWindow(c, Min(p.io.send.n, c.win.len)); }
  }

  /** Under gentle events the window shrinks by what there was room for, and the context is kept exactly until it is empty. */
  lemma {:induction false} GentleDrain(c: Ctx, pokes: seq<Poke>)
    requires WindowOk(c) && c.peer.None? && c.win.partial && AllGentle(pokes)
    ensures var (d, keep) := Drain(c, pokes);
            && (keep <==> d.win.partial) && (keep <==> Takes(pokes) < c.win.len)
            && (keep ==> d.win.len + Takes(pokes) == c.win.len)
    decreases |pokes|
  {
    if |pokes| > 0 {
      hide Handle, Gentle;
      var n := |pokes| - 1;
      var front := pokes[..n];
      assert forall i :: 0 <= i < n ==> front[i] == pokes[i];
      GentleDrain(c, front);
      DrainConserves(c, front);
      var (d, keep) := Drain(c, front);
      if keep {
        SeveredStays(c, d);
        GentlePoke(d, pokes[n]);
        assert pokes[n].io.send.Room? || pokes[n].io.send.SendAgain? by { GentleSends(pokes[n]); }
      }
    }
  }

  /** Some event reaches the context while it is still kept, and is not gentle. */
  ghost predicate Jolted(c: Ctx, pokes: seq<Poke>) {
    exists i :: 0 <= i < |pokes| && JoltedAt(c, pokes, i)
  }

  ghost predicate JoltedAt(c: Ctx, pokes: seq<Poke>, i: nat)
    requires i < |pokes|
  {
    Drain(c, pokes[..i]).1 && !Gentle(pokes[i])
  }

  /** Draining loses bytes exactly when some event finds bytes in the window and is not gentle. */
  lemma {:induction false} DrainLosesExactly(c: Ctx, pokes: seq<Poke>)
    requires WindowOk(c) && c.peer.None? && c.win.partial
    ensures !Drain(c, pokes).1 && Drain(c, pokes).0.win.partial <==> Jolted(c, pokes)
    decreases |pokes|
  {
    if |pokes| > 0 {
      hide Handle, Gentle;
      var n := |pokes| - 1;
      var front := pokes[..n];
      DrainLosesExactly(c, front);
      DrainConserves(c, front);
      JoltedSnoc(c, pokes);
      var (d, keep) := Drain(c, front);
      SeveredStays(c, d);
      if keep { DiscardsExactly(d, pokes[n]); }
    }
  }

  lemma JoltedSnoc(c: Ctx, pokes: seq<Poke>)
    requires |pokes| > 0
    ensures var n := |pokes| - 1; Jolted(c, pokes) <==> Jolted(c, pokes[..n]) || JoltedAt(c, pokes, n)
  {
    hide Drain, Gentle;
    var n := |pokes| - 1;
    var front := pokes[..n];
    assert forall i :: 0 <= i < n ==> front[..i] == pokes[..i] && front[i] == pokes[i];
    forall i | 0 <= i < n ensures JoltedAt(c, front, i) <==> JoltedAt(c, pokes, i) {}
  }

  lemma GentleSends(p: Poke)
    requires Gentle(p)
    ensures p.io.send.Room? || p.io.send.SendAgain?
  {}

  /** Every event is gentle, and together they have room for the whole queue. */
  ghost predicate Unhindered(c: Ctx, pokes: seq<Poke>) {
    Takes(pokes) >= c.win.len && AllGentle(pokes)
  }

  /**
   Draining ends: once there was room for as many bytes as were queued, in whatever portions, whatever
   else the events reported and however often the kernel said to try again, the whole window is delivered.
   */
  lemma DrainTerminates(c: Ctx, pokes: seq<Poke>)
    requires WindowOk(c) && c.peer.None? && c.win.partial && Unhindered(c, pokes)
    ensures !Drain(c, pokes).1 && !Drain(c, pokes).0.win.partial
    ensures Drain(c, pokes).0.delivered == c.delivered + Window(c)
  {
    hide Drain, AllGentle;
    GentleDrain(c, pokes);
    DrainConserves(c, pokes);
    assert WindowOk(Drain(c, pokes).0);
    assert Window(Drain(c, pokes).0) == [];
  }

  /** Every event finds the context still kept, as it does when epoll reports it. */
  ghost predicate Kept(c: Ctx, pokes: seq<Poke>) {
    forall i :: 0 <= i < |pokes| ==> Drain(c, pokes[..i]).1
  }

  /** Exactly when the whole queue of a severed context is delivered, and when what is left of it is thrown away. */
  lemma DrainDeliversExactly(c: Ctx, pokes: seq<Poke>)
    requires WindowOk(c) && c.peer.None? && c.win.partial && Kept(c, pokes)
    ensures Drain(c, pokes).0.delivered == c.delivered + Window(c) <==> Unhindered(c, pokes)
    ensures !Drain(c, pokes).1 && Drain(c, pokes).0.win.partial <==> !AllGentle(pokes)
  {
    hide Drain, Gentle;
    var d := Drain(c, pokes).0;
    DrainConserves(c, pokes);
    DrainLosesExactly(c, pokes);
    assert forall i :: 0 <= i < |pokes| ==> (JoltedAt(c, pokes, i) <==> !Gentle(pokes[i]));
    assert d.delivered == c.delivered + Window(c) <==> !d.win.partial by {
      assert |Window(d)| == d.win.len && |d.delivered + Window(d)| == |d.delivered| + d.win.len;
      if !d.win.partial { assert d.delivered + [] == d.delivered; }
    }
    if AllGentle(pokes) { GentleDrain(c, pokes); }
  }

  lemma AdvanceWindow(c: Ctx, k: nat)
    requires WindowOk(c) && k <= c.win.len
    ensures |Window(c)| == c.win.len
    ensures Window(Advance(c, k)) == Window(c)[k..]
  {}
}
