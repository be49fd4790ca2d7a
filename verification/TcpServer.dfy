/** `TcpServer` (evk/tcp_server.cc): its methods, each tied to the lifecycle. */
module TcpServers {
  import opened Channels
  import opened ConnectionStatus
  import L = Lifecycle

  class TcpServer {
    var nextConnId: L.ConnId
    var connections: set<L.ConnId>
    /** The connection objects, and the loops with their task queues. */
    var conns: map<L.ConnId, L.Conn>
    var loops: map<L.LoopId, L.Loop>

    function State(): L.Server
      reads this
    { L.Server(nextConnId, connections, conns, loops, false) }

    constructor (pool: set<L.LoopId>)
      ensures State() == L.Start(pool) && L.Inv(State())
    {
      nextConnId, connections, conns := 1, {}, map[];
      loops := map l | l in pool + {L.BASE} :: L.Loop(L.Polling, [], []);
      new;
      L.StartIsSafe(pool);
    }

    method QueueInLoop(l: L.LoopId, t: L.Task)
      requires l in loops
      modifies `loops
      ensures State() == L.Push(old(State()), l, t)
    {
      loops := loops[l := loops[l].(pending := loops[l].pending + [t])];
    }

    /** Called by the acceptor in the base loop; GetNextLoop has chosen `ioLoop`. */
    method HandleNewConnection(ioLoop: L.LoopId)
      requires L.Inv(State()) && L.Enabled(State(), L.Accept(ioLoop))
      modifies this
      ensures L.Inv(State()) && State() == L.Step(old(State()), L.Accept(ioLoop))
    {
      L.KeepStep(State(), L.Accept(ioLoop));
      var c := nextConnId;
      nextConnId := nextConnId + 1;
      conns := conns[c := L.Conn(ioLoop, Connecting, false, false, 0, 0, 0)];
      connections := connections + {c};
      if ioLoop == L.BASE {
        conns := conns[c := L.Conn(ioLoop, Connected, true, true, 1, 0, 0)];
      } else {
        QueueInLoop(ioLoop, L.Establish(c));
      }
    }

    /** The erase must find the name: `assert(n == 1)`. */
    method RemoveConnectionInLoop(c: L.ConnId)
      requires c in conns && c in connections && conns[c].loop in loops
      modifies this
      ensures State() == L.RemoveConnectionInLoop(old(State()), c)
      ensures connections == old(connections) - {c}
    {
      connections := connections - {c};
      conns := conns[c := conns[c].(erased := conns[c].erased + 1)];
      QueueInLoop(conns[c].loop, L.Destroy(c));
    }

    /** RemoveConnection, the close callback, called in loop l. */
    method RemoveConnection(l: L.LoopId, c: L.ConnId)
      requires L.BASE in loops
      requires l == L.BASE ==> c in conns && c in connections && conns[c].loop in loops
      modifies this
      ensures State() == if l == L.BASE then L.RemoveConnectionInLoop(old(State()), c)
                         else L.Push(old(State()), L.BASE, L.Remove(c))
    {
      if l == L.BASE {
        RemoveConnectionInLoop(c);
      } else {
        QueueInLoop(L.BASE, L.Remove(c));
      }
    }

    /** A loop takes the next task of its batch: the asserts in it hold. */
    method RunNextTask(l: L.LoopId)
      requires L.Inv(State()) && L.Enabled(State(), L.RunTask(l))
      modifies this
      ensures L.Inv(State()) && State() == L.Step(old(State()), L.RunTask(l))
    {
      L.KeepStep(State(), L.RunTask(l));
      L.HeadTask(State(), l);
      var t := loops[l].batch[0];
      loops := loops[l := loops[l].(batch := loops[l].batch[1..])];
      var k := conns[t.c];
      match t
      case Establish(c) =>
        assert k.status.Connecting?;
        conns := conns[c := k.(status := Connected, interested := true, registered := true,
                               established := k.established + 1)];
      case Remove(c) =>
        assert c in connections;
        RemoveConnectionInLoop(c);
      case Destroy(c) =>
        assert k.status.Disconnected? && k.registered && !k.interested;
        conns := conns[c := k.(registered := false, removed := k.removed + 1)];
    }

    /** HandleClose of connection c, in loop l, and the close callback. */
    method HandleClose(l: L.LoopId, c: L.ConnId)
      requires L.BASE in loops && c in conns && Open(conns[c].status)
      requires l == L.BASE ==> c in connections && conns[c].loop in loops
      modifies this
      ensures State() == L.HandleClose(old(State()), l, c)
    {
      conns := conns[c := conns[c].(status := Disconnected, interested := false)];
      RemoveConnection(l, c);
    }

    /** HandleEvent of the next active channel, whose read finds end of file or not. */
    method HandleNext(l: L.LoopId, revents: bv16, eof: bool)
      requires L.Inv(State()) && L.Enabled(State(), L.Handle(l, revents, eof))
      requires !L.Over(State(), L.Handle(l, revents, eof))
      modifies this
      ensures L.Inv(State()) && State() == L.Step(old(State()), L.Handle(l, revents, eof))
    {
      L.KeepStep(State(), L.Handle(l, revents, eof));
      L.KeepNextActive(State(), l);
      var c := loops[l].phase.active[0];
      assert L.ConnOk(State(), c);
      loops := loops[l := loops[l].(phase := L.Dispatching(loops[l].phase.active[1..]))];
      L.ClosesOnce(State(), l, c, CloseCalls(revents, eof));
      if Close.Due(revents) {
        HandleClose(l, c);
      }
      if Read.Due(revents) && eof {
        HandleClose(l, c);
      }
    }

    /** Shutdown of connection c. */
    method ShutDown(c: L.ConnId)
      requires c in conns
      modifies `conns
      ensures State() == L.Step(old(State()), L.ShutDown(c))
    {
      if conns[c].status.Connected? {
        conns := conns[c := conns[c].(status := Disconnecting)];
      }
    }

    /** Loop l moves on: its poll returns, its handlers are done, its tasks are done. */
    method MoveOn(l: L.LoopId, e: L.Event)
      requires (e.PollReturns? || e.EndDispatch? || e.EndTasks?) && e.l == l && L.Enabled(State(), e)
      modifies `loops
      ensures State() == L.Step(old(State()), e)
    {
      var p := loops[l];
      loops := loops[l := if e.PollReturns? then p.(phase := L.Dispatching(e.active))
                          else if e.EndDispatch? then L.Loop(L.RunningTasks, p.pending, [])
                          else p.(phase := L.Polling)];
    }

    method Perform(e: L.Event)
      requires L.Inv(State()) && L.Enabled(State(), e) && !L.Over(State(), e)
      modifies this
      ensures L.Inv(State()) && State() == L.Step(old(State()), e)
    {
      L.KeepStep(State(), e);
      match e
      case Accept(l) => HandleNewConnection(l);
      case Handle(l, revents, eof) => HandleNext(l, revents, eof);
      case ShutDown(c) => ShutDown(c);
      case RunTask(l) => RunNextTask(l);
      case _ => MoveOn(e.l, e);
    }

    /** Whatever the loops do, in whatever order, the server object is a run of the
        lifecycle, unless an event closes a connection more often than it is open. */
    method Replay(es: seq<L.Event>)
      requires L.Inv(State()) && L.RunEnabled(State(), es) && !L.Overruns(State(), es)
      modifies this
      ensures L.Inv(State()) && State() == L.Run(old(State()), es)
      decreases |es|
    {
      if es != [] {
        Perform(es[0]);
        Replay(es[1..]);
      }
    }
  }
}
