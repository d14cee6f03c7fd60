/**
 The connection context as the program keeps it: a mutable object with a fixed buffer,
 linked to its peer by reference. The handler updates the two objects in place; its
 contract says that their views move exactly as `Relay.Handle` says.
 */
module RelayContext {
  import opened Wrappers
  import opened Relay

  /** Copies `src` to the start of `dst`. */
  method CopyIn(dst: array<Byte>, src: seq<Byte>)
    requires |src| <= dst.Length
    modifies dst
    ensures dst[..] == Overwrite(old(dst[..]), src)
  {
    var i := 0;
    while i < |src|
      invariant i <= |src|
      invariant dst[..i] == src[..i]
      invariant dst[i..] == old(dst[i..])
    {
      dst[i] := src[i];
      i := i + 1;
    }
    assert dst[..] == dst[..i] + dst[i..];
  }

  /** The on_data hook on the reader's buffer: passes with a new length, or drops. */
  method OnData(buf: array<Byte>, len: nat, reply: HookReply) returns (pass: bool, newLen: nat)
    requires buf.Length == BUFFER_SIZE && 0 < len <= buf.Length
    modifies buf
    ensures var out := HookOutput(old(buf[..len]), reply);
            && pass == out.Some?
            && (pass ==> 0 < newLen <= buf.Length && buf[..newLen] == out.value)
            && buf[..] == Overwrite(old(buf[..]), if out.Some? then out.value else [])
    ensures pass <==> !reply.NotString? && !(reply.Reply? && |reply.bytes| > 1024)
    ensures reply.Reply? && 0 < |reply.bytes| <= 1024 ==> newLen == |reply.bytes| && buf[..newLen] == reply.bytes
    ensures reply.Absent? || reply.Raised? || reply == Reply([]) ==> newLen == len && buf[..] == old(buf[..])
  {
    pass, newLen := true, len;
    match reply
    case Absent =>
    case Raised =>
    case NotString => pass := false;
    case Reply(bytes) =>
      if |bytes| == 0 {
      } else if |bytes| <= BUFFER_SIZE {
        CopyIn(buf, bytes);
        newLen := |bytes|;
      } else {
        pass := false;
      }
  }

  class Context {
    const addr: Addr
    const buffer: array<Byte>
    var fd: int
    var peer: Context?
    var readEof: bool
    var writeEof: bool
    var shut: bool
    var wlen: int
    var wstart: int
    var wpartial: bool
    var mask: Interest

    ghost var mate: Addr
    ghost var taken: seq<Chunk>
    ghost var delivered: seq<Byte>

    constructor (addr: Addr, fd: int, ghost mate: Addr)
      ensures this.addr == addr && fresh(buffer) && buffer.Length == BUFFER_SIZE && peer == null
      ensures View() == NewCtx(fd, None, mate)
    {
      this.addr := addr;
      this.mate := mate;
      buffer := new Byte[BUFFER_SIZE](_ => 0);
      this.fd, peer, readEof, writeEof, shut := fd, null, false, false, false;
      wlen, wstart, wpartial, mask := 0, 0, false, IDLE;
      taken, delivered := [], [];
      new;
      assert buffer[..] == seq(BUFFER_SIZE, _ => 0);
    }

    ghost function View(): Ctx
      reads this, buffer
    {
      Ctx(fd, mate, if peer == null then None else Some(peer.addr), readEof, writeEof, shut,
          Win(wstart, wlen, wpartial), buffer[..], mask, taken, delivered)
    }

    /** What the handler relies on. */
    ghost predicate Ready()
      reads this, buffer, peer, if peer == null then {} else {peer.buffer}
    {
      && WindowOk(View())
      && (peer != null ==> peer != this && peer.peer == this && peer.buffer != buffer && WindowOk(peer.View()))
    }

    ghost function PeerView(): Option<Ctx>
      reads this, peer, if peer == null then {} else {peer.buffer}
    {
      if peer == null then None else Some(peer.View())
    }

    method LinkTo(other: Context)
      modifies this`peer
      ensures peer == other && View() == old(View()).(peer := Some(other.addr))
    {
      peer := other;
    }

    /** The links after a call on a context whose peer was `p`: dropped or as before, never new. */
    ghost predicate NotRelinked(p: Context?)
      reads this, p
    {
      (peer == null || peer == p) && (p != null ==> p.peer == null || p.peer == this)
    }

    /** Both ends forget each other. */
    method Sever()
      requires peer != this
      modifies this, peer
      ensures NotRelinked(old(peer))
      ensures View() == Unlink(old(View()))
      ensures old(peer) != null ==> old(peer).View() == Unlink(old(peer.View()))
    {
      if peer != null { peer.peer := null; }
      peer := null;
    }

    /** The kernel took the first `sent` queued bytes. */
    method AdvanceBy(sent: nat)
      requires Ready() && wpartial && 0 < sent <= wlen
      modifies this`delivered, this`wstart, this`wlen, this`wpartial, this`mask
      ensures View() == Advance(old(View()), sent)
      ensures wpartial == (sent < old(wlen))
    {
      assert Window(View()) == buffer[wstart..wstart + wlen];
      assert buffer[wstart..wstart + sent] == Window(View())[..sent];
      delivered := delivered + buffer[wstart..wstart + sent];
      wstart := wstart + sent;
      wlen := wlen - sent;
      if wlen == 0 {
        wstart := 0;
        wpartial := false;
        mask := IDLE;
      }
    }

    method FlushQueued(send: SendResult) returns (keep: bool)
      requires Ready() && wpartial
      modifies this, peer
      ensures NotRelinked(old(peer))
      ensures var o := Flush(old(View()), old(PeerView()), send);
              && keep == o.keep && View() == o.ctx
              && (old(peer) != null ==> o.peer == Some(old(peer).View()))
    {
      match send
      case SendAgain => return true;
      case SendFail =>
        Sever();
        return false;
      case Room(n) =>
        var sent := Min(n, wlen);
        if sent == 0 {
          writeEof := true;
          Sever();
          return false;
        }
        AdvanceBy(sent);
        if wpartial { return true; }
        if peer == null { return false; }
        peer.mask := IDLE;
        return true;
    }

    method HangUpBoth() returns (keep: bool)
      requires Ready() && peer != null
      modifies this, peer
      ensures NotRelinked(old(peer))
      ensures var o := HangUp(old(View()), old(peer.View()));
              keep == o.keep && View() == o.ctx && o.peer == Some(old(peer).View())
    {
      readEof := true;
      peer.writeEof := true;
      if !peer.wpartial { peer.shut := true; }
      Sever();
      return false;
    }

    /** Queues `rest` on the peer and stops reading until it is gone. */
    method QueueOnPeer(rest: seq<Byte>)
      requires peer != null && peer != this && peer.buffer != buffer && peer.peer == this
      requires |rest| <= peer.buffer.Length
      modifies this`mask, peer, peer.buffer
      ensures NotRelinked(old(peer))
      ensures View() == old(View()).(mask := STALLED)
      ensures peer.View() == Enqueue(old(peer.View()), rest)
    {
      CopyIn(peer.buffer, rest);
      peer.wpartial := true;
      peer.wstart := 0;
      peer.wlen := |rest|;
      mask := STALLED;
      peer.mask := BACKLOGGED;
    }

    method ForwardToPeer(len: nat, send: SendResult) returns (keep: bool)
      requires Ready() && peer != null && 0 < len <= buffer.Length
      modifies this, peer, peer.buffer
      ensures NotRelinked(old(peer))
      ensures var o := Forward(old(View()), old(peer.View()), old(buffer[..len]), send);
              keep == o.keep && View() == o.ctx && o.peer == Some(old(peer).View())
    {
      match send
      case SendAgain =>
        QueueOnPeer(buffer[..len]);
        return true;
      case SendFail =>
        Sever();
        return false;
      case Room(n) =>
        var sent := Min(n, len);
        if sent == 0 {
          peer.writeEof := true;
          peer.shut := true;
          Sever();
          return false;
        }
        peer.delivered := peer.delivered + buffer[..sent];
        assert buffer[..sent] == buffer[..len][..sent];
        if sent < len {
          assert buffer[sent..len] == buffer[..len][sent..];
          QueueOnPeer(buffer[sent..len]);
        }
        return true;
    }

    method CheckHup(bits: Interest) returns (keep: bool)
      requires Ready() && peer != null
      modifies this, peer
      ensures NotRelinked(old(peer))
      ensures var o := CheckHangUp(old(View()), old(peer.View()), bits);
              keep == o.keep && View() == o.ctx && o.peer == Some(old(peer).View())
    {
      if bits.hangup {
        keep := HangUpBoth();
      } else {
        keep := true;
      }
    }

    /** Reads into the buffer, runs the hook on it and forwards what it lets through. */
    method RelayData(data: seq<Byte>, reply: HookReply, send: SendResult) returns (keep: bool)
      requires Ready() && peer != null && 0 < |data| < BUFFER_SIZE
      modifies this, buffer, peer, peer.buffer
      ensures NotRelinked(old(peer))
      ensures var o := Relayed(old(View()), old(peer.View()), Chunk(data, reply), send);
              keep == o.keep && View() == o.ctx && o.peer == Some(old(peer).View())
    {
      hide Forward, Window;
      CopyIn(buffer, data);
      assert buffer[..|data|] == data;
      var pass, len := OnData(buffer, |data|, reply);
      taken := taken + [Chunk(data, reply)];
      assert View() == Ingest(old(View()), Chunk(data, reply));
      if !pass {
        Sever();
        return false;
      }
      keep := ForwardToPeer(len, send);
    }

    method ReadAndForward(bits: Interest, io: Io) returns (keep: bool)
      requires Ready() && peer != null
      modifies this, buffer, peer, peer.buffer
      ensures NotRelinked(old(peer))
      ensures var o := Pump(old(View()), old(peer.View()), bits, io);
              keep == o.keep && View() == o.ctx && o.peer == Some(old(peer).View())
    {
      hide Relayed, Window;
      match io.recv
      case RecvAgain => keep := CheckHup(bits);
      case RecvFail =>
        Sever();
        return false;
      case Arrive(held) =>
        if |held| == 0 {
          keep := HangUpBoth();
        } else {
          keep := RelayData(held[..Min(|held|, BUFFER_SIZE - 1)], io.reply, io.send);
        }
    }

    /** The TCP handler: one call moves the two ends as `Relay.Handle` says. */
    method OnEvent(bits: Interest, io: Io) returns (keep: bool)
      requires Ready()
      modifies this, buffer, peer, if peer == null then {} else {peer.buffer}
      ensures NotRelinked(old(peer))
      ensures var o := Handle(old(View()), old(PeerView()), bits, io);
              && keep == o.keep && View() == o.ctx
              && (old(peer) != null ==> o.peer == Some(old(peer).View()))
    {
      hide Flush, Pump, CheckHangUp, Window;
      if peer == null && !wpartial {
        writeEof := true;
        readEof := true;
        return false;
      }
      if bits.output && wpartial {
        keep := FlushQueued(io.send);
        return;
      }
      if peer == null { return false; }
      if bits.input && !peer.wpartial {
        keep := ReadAndForward(bits, io);
      } else {
        keep := CheckHup(bits);
      }
    }
  }
}
