/** `TcpConnection` (evk/tcp_conn.cc) over its channel and its two buffers. Every
    method is one event of the step system, and leaves exactly that event's state,
    bytes on the wire and queued callbacks. */
module Connections {
  import opened Common
  import opened Layouts
  import opened Buffers
  import opened Channels
  import opened ConnectionStatus
  import M = ConnectionModel

  class TcpConnection {
    const cfg: M.Config
    const channel: Channel
    const input: Buffer
    const output: Buffer
    var status: Status
    /** The peer's view of the socket: bytes taken, and calls to ShutDownWrite. */
    var sent: seq<byte>
    var halfCloses: nat
    /** Shutdowns handed to the loop. */
    var queuedShutdowns: nat
    /** Callbacks made or handed to the loop. */
    var notices: seq<M.Notice>

    ghost predicate Valid()
      reads this, input, output
    { input.Valid() && output.Valid() && input != output && input.mem != output.mem }

    ghost function State(): M.Conn
      requires Valid()
      reads this, channel, input, output, output.mem
    {
      M.Conn(status, channel.events.read, channel.events.write, output.Contents(),
             halfCloses, queuedShutdowns)
    }

    ghost function History(): M.History
      requires Valid()
      reads this, channel, input, output, output.mem
    { M.History(State(), sent, notices) }

    constructor (fd: nat, cfg: M.Config)
      ensures Valid() && State() == M.FRESH && sent == [] && notices == [] && this.cfg == cfg
      ensures input.Contents() == [] && fresh(channel) && fresh(input) && fresh(output) && fresh(output.mem)
    {
      this.cfg := cfg;
      channel := new Channel(fd);
      input := new Buffer(INITIAL_SIZE, CHEAP_PREPEND_SIZE);
      output := new Buffer(INITIAL_SIZE, CHEAP_PREPEND_SIZE);
      status := Connecting;
      sent, halfCloses, queuedShutdowns, notices := [], 0, 0, [];
    }

    /** write(2) on the socket: `r` is the kernel's answer. Returns nwrote. */
    method SockWrite(data: seq<byte>, r: M.WriteResult) returns (n: int)
      requires M.Possible(halfCloses, r, |data|)
      modifies `sent
      ensures n == if r.Wrote? then r.n else -1
      ensures sent == old(sent) + data[..M.Taken(r)]
    {
      match r
      case Wrote(k) =>
        sent := sent + data[..k];
        n := k;
      case _ =>
        n := -1;
    }

    method ShutdownInLoop()
      requires Valid()
      modifies `halfCloses
      ensures State() == M.ShutdownInLoop(old(State()))
    {
      if !channel.events.write {
        halfCloses := halfCloses + 1;
      }
    }

    method SendInLoop(message: seq<byte>, r: M.WriteResult)
      requires Valid() && M.Possible(halfCloses, r, |message|)
      modifies `sent, `notices, channel`events, channel`addedToLoop, output, output.mem
      ensures Valid() && State() == M.SendInLoop(old(State()), message, r)
      ensures output.mem == old(output.mem) || fresh(output.mem)
      ensures !old(status).Disconnected? ==>
                && sent == (if M.Direct(old(State())) then old(sent) + message[..M.Taken(r)] else old(sent))
                && notices == old(notices) + M.SendNotices(cfg, old(State()), message, r)
      ensures old(status).Disconnected? ==> sent == old(sent) && notices == old(notices)
    {
      if status.Disconnected? {
        return;
      }
      SendOpen(message, r);
    }

    /** The rest of SendInLoop, once the status has been looked at. */
    method SendOpen(message: seq<byte>, r: M.WriteResult)
      requires Valid() && M.Possible(halfCloses, r, |message|) && !status.Disconnected?
      modifies `sent, `notices, channel`events, channel`addedToLoop, output, output.mem
      ensures Valid() && State() == M.SendInLoop(old(State()), message, r)
      ensures output.mem == old(output.mem) || fresh(output.mem)
      ensures sent == (if M.Direct(old(State())) then old(sent) + message[..M.Taken(r)] else old(sent))
      ensures notices == old(notices) + M.SendNotices(cfg, old(State()), message, r)
    {
      ghost var before, noted := State(), notices;
      ghost var direct := M.DirectNotices(cfg, M.Direct(before), |message|, r);
      M.SendParts(cfg, before, message, r);
      var nwrote, faultError := TryDirect(message, r);
      assert State() == before && notices == noted + direct;
      var remaining := |message| - nwrote;
      if !faultError && remaining > 0 {
        Append3(noted, direct, M.BufferNotices(cfg, |before.output|, remaining));
        Enqueue(message[nwrote..]);
        assert State() == before.(output := before.output + message[nwrote..], writing := true);
      }
    }

    /** The socket is tried only if nothing waits to be written. */
    method TryDirect(message: seq<byte>, r: M.WriteResult) returns (nwrote: nat, faultError: bool)
      requires Valid() && M.Possible(halfCloses, r, |message|)
      modifies `sent, `notices
      ensures Valid() && State() == old(State())
      ensures nwrote == (if M.Direct(State()) then M.Taken(r) else 0) && faultError == (M.Direct(State()) && r.Gone?)
      ensures sent == if M.Direct(State()) then old(sent) + message[..nwrote] else old(sent)
      ensures notices == old(notices) + M.DirectNotices(cfg, M.Direct(State()), |message|, r)
    {
      nwrote, faultError := 0, false;
      if !channel.events.write && output.Length() == 0 {
        nwrote, faultError := WriteDirect(message, r);
      }
    }

    /** The first part of SendInLoop: nothing is buffered, so the socket is tried. */
    method WriteDirect(message: seq<byte>, r: M.WriteResult) returns (nwrote: nat, faultError: bool)
      requires M.Possible(halfCloses, r, |message|)
      modifies `sent, `notices
      ensures nwrote == M.Taken(r) && faultError == r.Gone?
      ensures sent == old(sent) + message[..nwrote]
      ensures notices == old(notices) + M.DirectNotices(cfg, true, |message|, r)
    {
      var n := SockWrite(message, r);
      nwrote, faultError := 0, false;
      if n >= 0 {
        nwrote := n;
        if |message| - nwrote == 0 && cfg.onWriteComplete {
          notices := notices + [M.WriteComplete];
        }
      } else if r.Gone? {
        faultError := true;
      }
    }

    /** The last part of SendInLoop: what the socket has not taken is buffered. */
    method Enqueue(rest: seq<byte>)
      requires Valid() && rest != []
      modifies `notices, channel`events, channel`addedToLoop, output, output.mem
      ensures Valid() && (output.mem == old(output.mem) || fresh(output.mem))
      ensures State() == old(State()).(output := old(output.Contents()) + rest, writing := true)
      ensures notices == old(notices) + M.BufferNotices(cfg, |old(output.Contents())|, |rest|)
    {
      NoteHighWater(output.Length(), |rest|);
      AppendOutput(rest);
    }

    /** The test of the high-water mark, before the bytes are appended. */
    method NoteHighWater(oldLen: nat, remaining: nat)
      modifies `notices
      ensures notices == old(notices) + M.BufferNotices(cfg, oldLen, remaining)
    {
      if oldLen + remaining >= cfg.mark && oldLen < cfg.mark && cfg.onHighWater {
        notices := notices + [M.HighWater(oldLen + remaining)];
      }
    }

    method AppendOutput(rest: seq<byte>)
      requires Valid()
      modifies channel`events, channel`addedToLoop, output, output.mem
      ensures Valid() && (output.mem == old(output.mem) || fresh(output.mem))
      ensures State() == old(State()).(output := old(output.Contents()) + rest, writing := true)
    {
      output.Write(rest);
      if !channel.events.write {
        channel.EnableWriteEvent();
      }
    }

    /** Send called in the loop thread. */
    method Send(message: seq<byte>, r: M.WriteResult)
      requires Valid() && M.Possible(halfCloses, r, |message|)
      modifies `sent, `notices, channel`events, channel`addedToLoop, output, output.mem
      ensures Valid() && State() == M.Step(old(State()), M.Send(message, r))
      ensures output.mem == old(output.mem) || fresh(output.mem)
      ensures sent == old(sent) + M.SentBy(old(State()), M.Send(message, r))
      ensures notices == old(notices) + M.NoticesBy(cfg, old(State()), M.Send(message, r))
    {
      if status.Connected? {
        SendInLoop(message, r);
      }
    }

    method HandleWrite(r: M.WriteResult)
      requires Valid() && M.Possible(halfCloses, r, output.Length())
      modifies `sent, `notices, `halfCloses, channel`events, channel`addedToLoop, output`readIndex, output`writeIndex
      ensures Valid() && State() == M.Step(old(State()), M.Writable(r))
      ensures sent == old(sent) + M.SentBy(old(State()), M.Writable(r))
      ensures notices == old(notices) + M.NoticesBy(cfg, old(State()), M.Writable(r))
    {
      if channel.events.write {
        var n := SockWrite(output.mem[output.readIndex..output.writeIndex], r);
        if n > 0 {
          output.Skip(n);
          if output.Length() == 0 {
            channel.DisableWriteEvent();
            if cfg.onWriteComplete {
              notices := notices + [M.WriteComplete];
            }
            if status.Disconnecting? {
              ShutdownInLoop();
            }
          }
        }
      }
    }

    method HandleClose()
      requires Valid() && Open(status)
      modifies `status, `notices, channel`events, channel`addedToLoop
      ensures Valid() && State() == M.Step(old(State()), M.Close)
      ensures notices == old(notices) + M.NoticesBy(cfg, old(State()), M.Close)
    {
      status := Disconnected;
      channel.DisableAllEvent();
      notices := notices + [M.Closed];
    }

    /** readv failed or delivered `data`; nothing at all is the end of the stream, and
        closes, which asserts an open connection. */
    method HandleRead(failed: bool, data: seq<byte>)
      requires Valid() && |data| <= input.Shape().ReceiveLimit()
      requires !failed && data == [] ==> Open(status)
      modifies `status, `notices, channel`events, channel`addedToLoop, input, input.mem
      ensures Valid() && input.Contents() == old(input.Contents()) + if failed then [] else data
      ensures State() == if !failed && data == [] then M.Step(old(State()), M.Close) else old(State())
      ensures notices == old(notices) + if failed then [] else if data == [] then [M.Closed] else [M.Message]
    {
      if !failed {
        var n := input.ReadFromFD(data);
        if n > 0 {
          notices := notices + [M.Message];
        } else {
          HandleClose();
        }
      }
    }

    method Shutdown(inLoop: bool)
      requires Valid()
      modifies `status, `halfCloses, `queuedShutdowns
      ensures Valid() && State() == M.Step(old(State()), M.Shutdown(inLoop))
    {
      if status.Connected? {
        status := Disconnecting;
        if inLoop {
          ShutdownInLoop();
        } else {
          queuedShutdowns := queuedShutdowns + 1;
        }
      }
    }

    /** The loop runs a ShutdownInLoop posted by another thread. */
    method RunQueuedShutdown()
      requires Valid() && queuedShutdowns > 0
      modifies `halfCloses, `queuedShutdowns
      ensures Valid() && State() == M.Step(old(State()), M.QueuedShutdown)
    {
      queuedShutdowns := queuedShutdowns - 1;
      ShutdownInLoop();
    }

    method OnConnectEstablished()
      requires Valid() && status.Connecting?
      modifies `status, `notices, channel`events, channel`addedToLoop
      ensures Valid() && State() == M.Step(old(State()), M.Establish)
      ensures notices == old(notices) + M.NoticesBy(cfg, old(State()), M.Establish)
    {
      status := Connected;
      channel.EnableReadEvent();
      notices := notices + [M.Up];
    }

    /** Ends with Channel::Remove, which asserts that no event is wanted. */
    method OnConnectDestroyed()
      requires Valid() && (status.Connected? || (status.Disconnected? && channel.events == NONE))
      modifies `status, `notices, channel`events, channel`addedToLoop
      ensures Valid() && State() == M.Step(old(State()), M.Destroy)
      ensures notices == old(notices) + M.NoticesBy(cfg, old(State()), M.Destroy)
      ensures channel.events == NONE && !channel.addedToLoop
    {
      if status.Connected? {
        status := Disconnected;
        channel.DisableAllEvent();
        notices := notices + [M.Down];
      }
      assert channel.events == NONE;
      channel.addedToLoop := false;
    }
  }

  method Perform(c: TcpConnection, e: M.Event)
    requires c.Valid() && M.Wellformed(c.State()) && M.Enabled(c.State(), e)
    modifies c, c.channel, c.output, c.output.mem
    ensures c.Valid() && c.State() == M.Step(old(c.State()), e)
    ensures c.sent == old(c.sent) + M.SentBy(old(c.State()), e)
    ensures c.notices == old(c.notices) + M.NoticesBy(c.cfg, old(c.State()), e)
    ensures c.output.mem == old(c.output.mem) || fresh(c.output.mem)
  {
    match e
    case Establish => c.OnConnectEstablished();
    case Send(m, r) => c.Send(m, r);
    case QueuedSend(m, r) => c.SendInLoop(m, r);
    case Writable(r) => c.HandleWrite(r);
    case Close => c.HandleClose();
    case Shutdown(inLoop) => c.Shutdown(inLoop);
    case QueuedShutdown => c.RunQueuedShutdown();
    case Destroy => c.OnConnectDestroyed();
  }

  /** A whole run of calls is a run of the step system. */
  method Replay(c: TcpConnection, es: seq<M.Event>)
    requires c.Valid() && M.Wellformed(c.State()) && M.RunEnabled(c.State(), es)
    modifies c, c.channel, c.output, c.output.mem
    ensures c.Valid() && c.History() == M.AdvanceAll(c.cfg, old(c.History()), es)
    decreases |es|
  {
    if es != [] {
      M.StepWellformed(c.State(), es[0]);
      ghost var next := M.Advance(c.cfg, c.History(), es[0]);
      Perform(c, es[0]);
      assert c.History() == next;
      Replay(c, es[1..]);
    }
  }

  /** Whatever the loop and the socket do to a new connection, and in whatever order,
      the bytes on the wire followed by the bytes in the buffer are the accepted
      messages, end to end. */
  method ServeNew(fd: nat, cfg: M.Config, es: seq<M.Event>) returns (wire: seq<byte>, buffered: seq<byte>)
    requires M.RunEnabled(M.FRESH, es)
    ensures wire + buffered == M.Accepted(M.FRESH, es)
  {
    var c := new TcpConnection(fd, cfg);
    ghost var h := c.History();
    Replay(c, es);
    M.AdvanceIsRun(cfg, h, es);
    M.ConservedFromFresh(es);
    assert [] + M.Sent(M.FRESH, es) == M.Sent(M.FRESH, es);
    wire, buffered := c.sent, c.output.mem[c.output.readIndex..c.output.writeIndex];
  }
}
