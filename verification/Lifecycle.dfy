/** The life of a server connection across loops (evk/tcp_server.cc, evk/tcp_conn.cc):
    accepted in the base loop, established, served and destroyed in its own loop,
    erased from the server's map in the base loop. The loops take turns in any order;
    each alternates between polling, dispatching events and running tasks. */
module Lifecycle {
  import opened Channels
  import opened ConnectionStatus

  type LoopId = nat
  const BASE: LoopId := 0

  /** The server's name for a connection ends in next_conn_id_, which is unique. */
  type ConnId = nat

  datatype Task = Establish(c: ConnId) | Remove(c: ConnId) | Destroy(c: ConnId)

  datatype Phase = Polling | Dispatching(active: seq<ConnId>) | RunningTasks

  datatype Loop = Loop(phase: Phase, batch: seq<Task>, pending: seq<Task>)

  datatype Conn = Conn(
    loop: LoopId,
    status: Status,
    registered: bool,      // its channel is in the loop's poller
    interested: bool,      // its channel wants events
    established: nat,      // times OnConnectEstablished ran
    erased: nat,           // times its name was erased from connections_
    removed: nat)          // times its channel was removed from the poller

  datatype Server = Server(
    nextConnId: ConnId,
    connections: set<ConnId>,
    conns: map<ConnId, Conn>,
    loops: map<LoopId, Loop>,
    failed: bool)          // some assert has failed

  datatype Event =
    | Accept(l: LoopId)                                  // HandleNewConnection; GetNextLoop gave l
    | PollReturns(l: LoopId, active: seq<ConnId>)
    | Handle(l: LoopId, revents: bv16, eof: bool)        // HandleEvent of the next active channel
    | ShutDown(c: ConnId)                                // TcpConnection::Shutdown, any thread
    | EndDispatch(l: LoopId)
    | RunTask(l: LoopId)
    | EndTasks(l: LoopId)

  //
  // The steps
  //

  predicate Enabled(s: Server, e: Event) {
    match e
    case Accept(l) => BASE in s.loops && s.loops[BASE].phase.Dispatching? && l in s.loops
    case PollReturns(l, active) =>
      && l in s.loops && s.loops[l].phase.Polling?
      && (forall i :: 0 <= i < |active| ==>
            active[i] in s.conns && s.conns[active[i]].loop == l && s.conns[active[i]].registered)
      && (forall i, j :: 0 <= i < j < |active| ==> active[i] != active[j])
    case Handle(l, _, _) => l in s.loops && s.loops[l].phase.Dispatching? && s.loops[l].phase.active != []
    case ShutDown(c) => c in s.conns
    case EndDispatch(l) => l in s.loops && s.loops[l].phase == Dispatching([])
    case RunTask(l) => l in s.loops && s.loops[l].phase.RunningTasks? && s.loops[l].batch != []
    case EndTasks(l) => l in s.loops && s.loops[l].phase.RunningTasks? && s.loops[l].batch == []
  }

  function Fail(s: Server): Server { s.(failed := true) }

  function SetConn(s: Server, c: ConnId, k: Conn): Server { s.(conns := s.conns[c := k]) }

  function Push(s: Server, l: LoopId, t: Task): Server {
    if l !in s.loops then Fail(s)
    else s.(loops := s.loops[l := s.loops[l].(pending := s.loops[l].pending + [t])])
  }

  function OnConnectEstablished(s: Server, c: ConnId): Server {
    if c !in s.conns || !s.conns[c].status.Connecting? || s.conns[c].registered then Fail(s)
    else
      var k := s.conns[c];
      SetConn(s, c, k.(status := Connected, interested := true, registered := true, established := k.established + 1))
  }

  function RemoveConnectionInLoop(s: Server, c: ConnId): Server {
    if c !in s.conns || c !in s.connections then Fail(s)
    else
      var k := s.conns[c];
      Push(SetConn(s.(connections := s.connections - {c}), c, k.(erased := k.erased + 1)), k.loop, Destroy(c))
  }

  function OnConnectDestroyed(s: Server, c: ConnId): Server {
    if c !in s.conns then Fail(s)
    else
      var k := s.conns[c];
      var d := if k.status.Connected? then k.(status := Disconnected, interested := false) else k;
      if d.interested || !d.registered then Fail(s)
      else SetConn(s, c, d.(registered := false, removed := d.removed + 1))
  }

  /** HandleClose and the RemoveConnection it calls, in loop l: RunInLoop runs the
      removal at once in the base loop and posts it from another. */
  function HandleClose(s: Server, l: LoopId, c: ConnId): Server {
    if c !in s.conns || !Open(s.conns[c].status) then Fail(s)
    else
      var closed := SetConn(s, c, s.conns[c].(status := Disconnected, interested := false));
      if l == BASE then RemoveConnectionInLoop(closed, c) else Push(closed, BASE, Remove(c))
  }

  function HandleCloses(s: Server, l: LoopId, c: ConnId, times: nat): Server
    decreases times
  {
    if times == 0 then s else HandleCloses(HandleClose(s, l, c), l, c, times - 1)
  }

  function Execute(s: Server, t: Task): Server {
    match t
    case Establish(c) => OnConnectEstablished(s, c)
    case Remove(c) => RemoveConnectionInLoop(s, c)
    case Destroy(c) => OnConnectDestroyed(s, c)
  }

  function AcceptConn(s: Server, l: LoopId): Server {
    var c := s.nextConnId;
    var added := s.(nextConnId := c + 1, connections := s.connections + {c},
                    conns := s.conns[c := Conn(l, Connecting, false, false, 0, 0, 0)]);
    if l == BASE then OnConnectEstablished(added, c) else Push(added, l, Establish(c))
  }

  function SetPhase(s: Server, l: LoopId, p: Phase): Server
    requires l in s.loops
  { s.(loops := s.loops[l := s.loops[l].(phase := p)]) }

  function Pop(s: Server, l: LoopId): Server
    requires l in s.loops && s.loops[l].batch != []
  { s.(loops := s.loops[l := s.loops[l].(batch := s.loops[l].batch[1..])]) }

  function Step(s: Server, e: Event): Server
    requires Enabled(s, e)
  {
    match e
    case Accept(l) => AcceptConn(s, l)
    case PollReturns(l, active) => SetPhase(s, l, Dispatching(active))
    case Handle(l, revents, eof) =>
      var c := s.loops[l].phase.active[0];
      var taken := SetPhase(s, l, Dispatching(s.loops[l].phase.active[1..]));
      if c !in s.conns || !s.conns[c].registered then Fail(s)
      else HandleCloses(taken, l, c, CloseCalls(revents, eof))
    case ShutDown(c) =>
      if s.conns[c].status.Connected? then SetConn(s, c, s.conns[c].(status := Disconnecting)) else s
    case EndDispatch(l) =>
      s.(loops := s.loops[l := Loop(RunningTasks, s.loops[l].pending, [])])
    case RunTask(l) => Execute(Pop(s, l), s.loops[l].batch[0])
    case EndTasks(l) => SetPhase(s, l, Polling)
  }

  //
  // The invariant
  //

  ghost function Count(ts: seq<Task>, t: Task): nat {
    if ts == [] then 0 else Count(ts[..|ts| - 1], t) + (if ts[|ts| - 1] == t then 1 else 0)
  }

  /** How often task t is among those loop l still has to run. */
  ghost function Waiting(s: Server, l: LoopId, t: Task): nat {
    if l in s.loops then Count(s.loops[l].batch, t) + Count(s.loops[l].pending, t) else 0
  }

  /** The stages of a connection's life. */
  datatype Stage = Accepted | Serving | Closed | Erased | Gone

  function StageOf(k: Conn): Stage {
    if k.status.Connecting? then Accepted
    else if Open(k.status) then Serving
    else if k.erased == 0 then Closed
    else if k.removed == 0 then Erased
    else Gone
  }

  /** The one task, if any, that a connection waits for, and the loop it waits in. */
  function Expected(c: ConnId, home: LoopId, g: Stage, l: LoopId, t: Task): nat {
    if (g.Accepted? && t == Establish(c) && l == home)
       || (g.Closed? && t == Remove(c) && l == BASE)
       || (g.Erased? && t == Destroy(c) && l == home)
    then 1 else 0
  }

  ghost predicate TaskOk(s: Server, c: ConnId, g: Stage, l: LoopId, t: Task)
    requires c in s.conns
  { Waiting(s, l, t) == Expected(c, s.conns[c].loop, g, l, t) }

  /** The connection's own fields, and its place in the server's map, at stage g. */
  predicate FieldsAt(k: Conn, mapped: bool, g: Stage) {
    && k.registered == (g.Serving? || g.Closed? || g.Erased?)
    && k.interested == g.Serving?
    && k.established == (if g.Accepted? then 0 else 1)
    && k.erased == (if g.Erased? || g.Gone? then 1 else 0)
    && k.removed == (if g.Gone? then 1 else 0)
    && (mapped <==> !g.Erased? && !g.Gone?)
    && (g.Accepted? || g.Closed? ==> k.loop != BASE)
    && g == StageOf(k)
  }

  ghost predicate ConnOk(s: Server, c: ConnId)
    requires c in s.conns
  {
    var k := s.conns[c];
    && c < s.nextConnId && k.loop in s.loops
    && FieldsAt(k, c in s.connections, StageOf(k))
    && (forall l: LoopId, t: Task {:trigger TaskOk(s, c, StageOf(k), l, t)} ::
          t.c == c ==> TaskOk(s, c, StageOf(k), l, t))
  }

  ghost predicate InService(s: Server, c: ConnId)
    requires c in s.conns
  { StageOf(s.conns[c]).Serving? }

  /** Events yet to be handled are for channels of this loop still in its poller; in the
      base loop, for connections being served. */
  ghost predicate ActiveOk(s: Server, l: LoopId, c: ConnId) {
    && c in s.conns && s.conns[c].loop == l && s.conns[c].registered
    && (l == BASE ==> InService(s, c))
  }

  ghost predicate LoopOk(s: Server, l: LoopId)
    requires l in s.loops
  {
    var p := s.loops[l];
    && (!p.phase.RunningTasks? ==> p.batch == [])
    && (p.phase.Dispatching? ==>
          && (forall i {:trigger p.phase.active[i]} :: 0 <= i < |p.phase.active| ==> ActiveOk(s, l, p.phase.active[i]))
          && (forall i, j :: 0 <= i < j < |p.phase.active| ==> p.phase.active[i] != p.phase.active[j]))
  }

  /** Outside its dispatching phase the base loop has no destruction left to queue, so
      it never polls a closed connection of its own. */
  ghost predicate BaseOk(s: Server) {
    && BASE in s.loops
    && (!s.loops[BASE].phase.Dispatching? ==>
          forall t {:trigger t in s.loops[BASE].pending} :: t in s.loops[BASE].pending ==> !t.Destroy?)
  }

  ghost predicate Known(s: Server, l: LoopId, t: Task) { Waiting(s, l, t) > 0 ==> t.c in s.conns }

  ghost predicate Inv(s: Server) {
    && !s.failed
    && (forall c {:trigger ConnOk(s, c)} :: c in s.conns ==> ConnOk(s, c))
    && (forall l: LoopId, t: Task {:trigger Known(s, l, t)} :: Known(s, l, t))
    && (forall l {:trigger LoopOk(s, l)} :: l in s.loops ==> LoopOk(s, l))
    && BaseOk(s)
  }

  /** An event closes the connection more often than it is open. */
  ghost predicate Over(s: Server, e: Event)
    requires Enabled(s, e)
  {
    e.Handle? &&
    var c := s.loops[e.l].phase.active[0];
    CloseCalls(e.revents, e.eof) > if c in s.conns && InService(s, c) then 1 else 0
  }

  //
  // Every step keeps the invariant
  //

  /** Only tasks of connection c are queued or taken. */
  ghost predicate SameTasks(s: Server, r: Server, c: ConnId) {
    forall l: LoopId, t: Task {:trigger Waiting(r, l, t)} :: t.c != c ==> Waiting(r, l, t) == Waiting(s, l, t)
  }

  /** Only connection c is changed. */
  ghost predicate SameConns(s: Server, r: Server, c: ConnId) {
    && r.nextConnId >= s.nextConnId
    && r.conns.Keys == s.conns.Keys + {c}
    && (forall d :: d in s.conns && d != c ==> r.conns[d] == s.conns[d])
    && (forall d :: d != c ==> (d in r.connections <==> d in s.connections))
  }

  /** No loop changes phase, but one may move on to its next active channel. */
  ghost predicate SamePhases(s: Server, r: Server) {
    && r.loops.Keys == s.loops.Keys
    && forall l :: l in s.loops ==>
         && (r.loops[l].phase == s.loops[l].phase
             || (s.loops[l].phase.Dispatching? && s.loops[l].phase.active != []
                 && r.loops[l].phase == Dispatching(s.loops[l].phase.active[1..])))
         && (!r.loops[l].phase.RunningTasks? ==> r.loops[l].batch == s.loops[l].batch)
  }

  lemma KeepConn(s: Server, r: Server, c: ConnId, d: ConnId)
    requires SameTasks(s, r, c) && SameConns(s, r, c) && r.loops.Keys == s.loops.Keys
    requires d != c && d in s.conns && ConnOk(s, d)
    ensures ConnOk(r, d)
  {
    var g := StageOf(s.conns[d]);
    forall l: LoopId, t: Task | t.c == d ensures TaskOk(r, d, g, l, t) {
      assert TaskOk(s, d, g, l, t) && Waiting(r, l, t) == Waiting(s, l, t);
    }
  }

  lemma KeepLoop(s: Server, r: Server, c: ConnId, l: LoopId)
    requires SameConns(s, r, c) && SamePhases(s, r)
    requires l in s.loops && LoopOk(s, l)
    requires c in r.conns && (c in s.conns ==> r.conns[c].loop == s.conns[c].loop)
    requires (r.conns[c].registered && (r.conns[c].loop == BASE ==> InService(r, c)))
             || (r.loops[l].phase.Dispatching? ==> c !in r.loops[l].phase.active)
    ensures LoopOk(r, l)
  {
    if r.loops[l].phase.Dispatching? {
      var a, b := r.loops[l].phase.active, s.loops[l].phase.active;
      forall i | 0 <= i < |a| ensures ActiveOk(r, l, a[i]) {
        assert a[i] == if a == b then b[i] else b[i + 1];
        assert ActiveOk(s, l, a[i]);
      }
    }
  }

  /** What remains to be shown of a step that concerns connection c. */
  lemma KeepOthers(s: Server, r: Server, c: ConnId)
    requires Inv(s) && !r.failed && BaseOk(r)
    requires SameTasks(s, r, c) && SameConns(s, r, c) && SamePhases(s, r)
    requires c in r.conns && ConnOk(r, c) && (c in s.conns ==> r.conns[c].loop == s.conns[c].loop)
    requires (r.conns[c].registered && (r.conns[c].loop == BASE ==> InService(r, c)))
             || forall l :: l in r.loops && r.loops[l].phase.Dispatching? ==> c !in r.loops[l].phase.active
    ensures Inv(r)
  {
    forall d | d in r.conns ensures ConnOk(r, d) {
      if d != c {
        assert ConnOk(s, d);
        KeepConn(s, r, c, d);
      }
    }
    forall l: LoopId, t: Task ensures Known(r, l, t) {
      assert Known(s, l, t) && (t.c != c ==> Waiting(r, l, t) == Waiting(s, l, t));
    }
    forall l | l in r.loops ensures LoopOk(r, l) {
      assert LoopOk(s, l);
      KeepLoop(s, r, c, l);
    }
  }

  /** One loop changes phase, keeping its tasks. */
  lemma KeepPhase(s: Server, r: Server, l: LoopId)
    requires Inv(s) && l in s.loops && l in r.loops && r == s.(loops := s.loops[l := r.loops[l]])
    requires BaseOk(r) && (forall t: Task :: Waiting(r, l, t) == Waiting(s, l, t)) && LoopOk(r, l)
    ensures Inv(r)
  {
    forall k: LoopId, t: Task ensures Waiting(r, k, t) == Waiting(s, k, t) {}
    forall k: LoopId, t: Task ensures Known(r, k, t) { assert Known(s, k, t); }
    forall d | d in r.conns ensures ConnOk(r, d) {
      assert ConnOk(s, d);
      var g := StageOf(s.conns[d]);
      forall k: LoopId, t: Task | t.c == d ensures TaskOk(r, d, g, k, t) { assert TaskOk(s, d, g, k, t); }
    }
    forall k | k in r.loops ensures LoopOk(r, k) {
      if k != l {
        assert LoopOk(s, k);
        if r.loops[k].phase.Dispatching? {
          var a := r.loops[k].phase.active;
          forall i | 0 <= i < |a| ensures ActiveOk(r, k, a[i]) { assert ActiveOk(s, k, a[i]); }
        }
      }
    }
  }

  lemma WaitingAfterPush(s: Server, l: LoopId, t: Task, k: LoopId, u: Task)
    requires l in s.loops
    ensures Waiting(Push(s, l, t), k, u) == Waiting(s, k, u) + (if k == l && u == t then 1 else 0)
  {
    var p := s.loops[l].pending;
    assert (p + [t])[..|p|] == p;
  }

  lemma {:induction false} CountTail(ts: seq<Task>, t: Task)
    requires ts != []
    ensures Count(ts, t) == Count(ts[1..], t) + (if ts[0] == t then 1 else 0)
  {
    if |ts| > 1 {
      CountTail(ts[..|ts| - 1], t);
      assert ts[1..][..|ts| - 2] == ts[..|ts| - 1][1..];
    }
  }

  lemma WaitingAfterPop(s: Server, l: LoopId, k: LoopId, u: Task)
    requires l in s.loops && s.loops[l].batch != []
    ensures Waiting(s, k, u) == Waiting(Pop(s, l), k, u) + (if k == l && u == s.loops[l].batch[0] then 1 else 0)
  {
    CountTail(s.loops[l].batch, u);
  }

  /** A channel not in a loop's poller has no event waiting to be handled there. */
  lemma NotActive(s: Server, c: ConnId, l: LoopId)
    requires Inv(s) && l in s.loops && s.loops[l].phase.Dispatching?
    requires c in s.conns ==> s.conns[c].loop != l || !s.conns[c].registered
    ensures c !in s.loops[l].phase.active
  {
    assert LoopOk(s, l);
    var a := s.loops[l].phase.active;
    forall i | 0 <= i < |a| ensures a[i] != c { assert ActiveOk(s, l, a[i]); }
  }

  function NewConn(s: Server, l: LoopId): Server {
    s.(nextConnId := s.nextConnId + 1, connections := s.connections + {s.nextConnId},
       conns := s.conns[s.nextConnId := Conn(l, Connecting, false, false, 0, 0, 0)])
  }

  /** The tasks of connection c in r are those its stage calls for. */
  ghost predicate TasksOf(r: Server, c: ConnId) {
    c in r.conns && forall l: LoopId, t: Task {:trigger TaskOk(r, c, StageOf(r.conns[c]), l, t)} ::
      t.c == c ==> TaskOk(r, c, StageOf(r.conns[c]), l, t)
  }

  lemma AcceptTasks(s: Server, l: LoopId)
    requires Inv(s) && Enabled(s, Accept(l)) && s.nextConnId !in s.conns
    ensures SameTasks(s, AcceptConn(s, l), s.nextConnId) && TasksOf(AcceptConn(s, l), s.nextConnId)
  {
    var c := s.nextConnId;
    var r := AcceptConn(s, l);
    forall k: LoopId, t: Task
      ensures Waiting(r, k, t) == Waiting(s, k, t) + (if l != BASE && k == l && t == Establish(c) then 1 else 0)
    {
      if l != BASE {
        WaitingAfterPush(NewConn(s, l), l, Establish(c), k, t);
      }
    }
    forall k: LoopId, t: Task | t.c == c ensures TaskOk(r, c, StageOf(r.conns[c]), k, t) { assert Known(s, k, t); }
  }

  lemma KeepAccept(s: Server, l: LoopId)
    requires Inv(s) && Enabled(s, Accept(l))
    ensures Inv(AcceptConn(s, l))
  {
    var c := s.nextConnId;
    var r := AcceptConn(s, l);
    assert c !in s.conns by { assert c in s.conns ==> ConnOk(s, c); }
    AcceptTasks(s, l);
    forall k | k in s.loops && s.loops[k].phase.Dispatching? ensures c !in s.loops[k].phase.active {
      NotActive(s, c, k);
    }
    KeepOthers(s, r, c);
  }

  /** A new connection gets a number never used, the loop chosen for it and a place in the
      server's map; nothing else changes but the tasks of that loop. */
  lemma AcceptIsForTheChosenLoop(s: Server, l: LoopId)
    requires Inv(s) && Enabled(s, Accept(l))
    ensures var c, r := s.nextConnId, Step(s, Accept(l));
            && c !in s.conns && r.conns.Keys == s.conns.Keys + {c} && r.conns[c].loop == l
            && r.connections == s.connections + {c} && c < r.nextConnId
            && (r.conns[c].registered <==> l == BASE)
            && Waiting(r, l, Establish(c)) == (if l == BASE then 0 else 1)
            && (forall d :: d in s.conns ==> r.conns[d] == s.conns[d])
            && (forall k :: k in s.loops && k != l ==> r.loops[k] == s.loops[k])
  {
    assert s.nextConnId in s.conns ==> ConnOk(s, s.nextConnId);
    KeepAccept(s, l);
    AcceptTasks(s, l);
    var c, r := s.nextConnId, AcceptConn(s, l);
    assert TaskOk(r, c, StageOf(r.conns[c]), l, Establish(c));
  }

  /** In stage g, c's task t is at the head of loop l: then it is the one expected. */
  lemma HeadTask(s: Server, l: LoopId)
    requires Inv(s) && Enabled(s, RunTask(l))
    ensures var t := s.loops[l].batch[0];
            && t.c in s.conns && ConnOk(s, t.c)
            && Expected(t.c, s.conns[t.c].loop, StageOf(s.conns[t.c]), l, t) == 1
  {
    var t := s.loops[l].batch[0];
    WaitingAfterPop(s, l, l, t);
    assert Known(s, l, t) && ConnOk(s, t.c) && TaskOk(s, t.c, StageOf(s.conns[t.c]), l, t);
  }

  lemma RunTasks(s: Server, l: LoopId)
    requires Inv(s) && Enabled(s, RunTask(l))
    ensures var c := s.loops[l].batch[0].c;
            SameTasks(s, Step(s, RunTask(l)), c) && TasksOf(Step(s, RunTask(l)), c)
  {
    HeadTask(s, l);
    var t := s.loops[l].batch[0];
    var c, r, k, p := t.c, Step(s, RunTask(l)), s.conns[t.c], Pop(s, l);
    forall j: LoopId, u: Task
      ensures Waiting(r, j, u) == Waiting(s, j, u) - (if j == l && u == t then 1 else 0)
                                  + (if t.Remove? && j == k.loop && u == Destroy(c) then 1 else 0)
    {
      WaitingAfterPop(s, l, j, u);
      if t.Remove? {
        var q := SetConn(p.(connections := p.connections - {c}), c, k.(erased := k.erased + 1));
        assert Waiting(q, j, u) == Waiting(p, j, u);
        WaitingAfterPush(q, k.loop, Destroy(c), j, u);
      }
    }
    forall j: LoopId, u: Task | u.c == c ensures TaskOk(r, c, StageOf(r.conns[c]), j, u) {
      assert TaskOk(s, c, StageOf(k), j, u);
    }
  }

  lemma KeepRunTask(s: Server, l: LoopId)
    requires Inv(s) && Enabled(s, RunTask(l))
    ensures Inv(Step(s, RunTask(l)))
  {
    var t := s.loops[l].batch[0];
    var r := Step(s, RunTask(l));
    HeadTask(s, l);
    RunTasks(s, l);
    if !t.Remove? {
      forall k | k in s.loops && s.loops[k].phase.Dispatching? ensures t.c !in s.loops[k].phase.active {
        NotActive(s, t.c, k);
      }
    }
    KeepOthers(s, r, t.c);
  }

  lemma CloseTasks(s: Server, l: LoopId, c: ConnId)
    requires Inv(s) && l in s.loops && c in s.conns && s.conns[c].loop == l && InService(s, c)
    ensures SameTasks(s, HandleClose(s, l, c), c) && TasksOf(HandleClose(s, l, c), c)
  {
    var r, k := HandleClose(s, l, c), s.conns[c];
    var shut := k.(status := Disconnected, interested := false);
    var closed := SetConn(s, c, shut);
    assert ConnOk(s, c);
    forall j: LoopId, u: Task
      ensures Waiting(r, j, u) == Waiting(s, j, u)
                                  + (if j == BASE && u == (if l == BASE then Destroy(c) else Remove(c)) then 1 else 0)
    {
      if l == BASE {
        var q := SetConn(closed.(connections := closed.connections - {c}), c, shut.(erased := shut.erased + 1));
        assert Waiting(q, j, u) == Waiting(s, j, u);
        WaitingAfterPush(q, BASE, Destroy(c), j, u);
      } else {
        assert Waiting(closed, j, u) == Waiting(s, j, u);
        WaitingAfterPush(closed, BASE, Remove(c), j, u);
      }
    }
    forall j: LoopId, u: Task | u.c == c ensures TaskOk(r, c, StageOf(r.conns[c]), j, u) {
      assert TaskOk(s, c, StageOf(k), j, u);
    }
  }

  /** Dropping the channel whose turn it is from the active list. */
  lemma KeepNextActive(s: Server, l: LoopId)
    requires Inv(s) && l in s.loops && s.loops[l].phase.Dispatching? && s.loops[l].phase.active != []
    ensures var c, r := s.loops[l].phase.active[0], SetPhase(s, l, Dispatching(s.loops[l].phase.active[1..]));
            && Inv(r) && ActiveOk(s, l, c) && ActiveOk(r, l, c)
            && forall k :: k in r.loops && r.loops[k].phase.Dispatching? ==> c !in r.loops[k].phase.active
  {
    var a := s.loops[l].phase.active;
    var c, r := a[0], SetPhase(s, l, Dispatching(a[1..]));
    assert LoopOk(s, l) && ActiveOk(s, l, a[0]);
    forall i | 0 <= i < |a[1..]| ensures ActiveOk(r, l, a[1..][i]) { assert ActiveOk(s, l, a[i + 1]); }
    KeepPhase(s, r, l);
    forall k | k in r.loops && r.loops[k].phase.Dispatching? ensures c !in r.loops[k].phase.active {
      if k != l {
        NotActive(s, c, k);
      }
    }
  }

  lemma KeepClose(s: Server, l: LoopId, c: ConnId)
    requires Inv(s) && ActiveOk(s, l, c) && InService(s, c) && l in s.loops && s.loops[l].phase.Dispatching?
    requires forall k :: k in s.loops && s.loops[k].phase.Dispatching? ==> c !in s.loops[k].phase.active
    ensures Inv(HandleClose(s, l, c))
  {
    assert ConnOk(s, c);
    CloseTasks(s, l, c);
    KeepOthers(s, HandleClose(s, l, c), c);
  }

  /** Closing once fails unless the connection is in service, and twice always fails. */
  lemma ClosesFail(s: Server, l: LoopId, c: ConnId, times: nat)
    requires Inv(s) && ActiveOk(s, l, c) && times <= 2
    ensures HandleCloses(s, l, c, times).failed <==> times > if InService(s, c) then 1 else 0
  {
    assert ConnOk(s, c);
    var once := HandleClose(s, l, c);
    assert once.failed <==> !InService(s, c);
    assert HandleCloses(s, l, c, 1) == HandleCloses(once, l, c, 0) == once;
    assert HandleCloses(s, l, c, 2) == HandleCloses(once, l, c, 1) == HandleClose(once, l, c);
  }

  lemma ClosesOnce(s: Server, l: LoopId, c: ConnId, times: nat)
    requires times <= 1
    ensures HandleCloses(s, l, c, times) == if times == 1 then HandleClose(s, l, c) else s
  {
    if times == 1 {
      assert HandleCloses(s, l, c, 1) == HandleCloses(HandleClose(s, l, c), l, c, 0);
    }
  }

  lemma KeepHandle(s: Server, l: LoopId, revents: bv16, eof: bool)
    requires Inv(s) && Enabled(s, Handle(l, revents, eof))
    ensures var e := Handle(l, revents, eof);
            if Over(s, e) then Step(s, e).failed else Inv(Step(s, e))
  {
    var c, taken := s.loops[l].phase.active[0], SetPhase(s, l, Dispatching(s.loops[l].phase.active[1..]));
    KeepNextActive(s, l);
    var times := CloseCalls(revents, eof);
    ClosesFail(taken, l, c, times);
    if times == 1 && InService(s, c) {
      KeepClose(taken, l, c);
      assert HandleCloses(taken, l, c, 1) == HandleCloses(HandleClose(taken, l, c), l, c, 0);
    }
  }

  /** What the base loop polls is in service even if hang-ups are reported for channels
      that want no events: its own closed connections are gone before it polls. */
  lemma BasePollsServed(s: Server, c: ConnId)
    requires Inv(s) && s.loops[BASE].phase.Polling?
    requires c in s.conns && s.conns[c].loop == BASE && s.conns[c].registered
    ensures InService(s, c)
  {
    assert ConnOk(s, c) && LoopOk(s, BASE);
    NoDestroys(s.loops[BASE].pending, c);
    assert TaskOk(s, c, StageOf(s.conns[c]), BASE, Destroy(c));
  }

  lemma KeepPoll(s: Server, l: LoopId, active: seq<ConnId>)
    requires Inv(s) && Enabled(s, PollReturns(l, active))
    ensures Inv(Step(s, PollReturns(l, active)))
  {
    var r := Step(s, PollReturns(l, active));
    assert LoopOk(s, l);
    forall i | 0 <= i < |active| ensures ActiveOk(r, l, active[i]) {
      var c := active[i];
      assert ConnOk(s, c);
      if l == BASE {
        BasePollsServed(s, c);
      }
    }
    KeepPhase(s, r, l);
  }

  lemma {:induction false} NoDestroys(ts: seq<Task>, c: ConnId)
    requires forall t {:trigger t in ts} :: t in ts ==> !t.Destroy?
    ensures Count(ts, Destroy(c)) == 0
  {
    if ts != [] {
      assert ts[|ts| - 1] in ts;
      forall t | t in ts[..|ts| - 1] ensures t in ts && !t.Destroy? {}
      NoDestroys(ts[..|ts| - 1], c);
    }
  }

  lemma KeepShutDown(s: Server, c: ConnId)
    requires Inv(s) && c in s.conns
    ensures Inv(Step(s, ShutDown(c)))
  {
    var r := Step(s, ShutDown(c));
    assert ConnOk(s, c);
    if s.conns[c].status.Connected? {
      forall j: LoopId, u: Task ensures Waiting(r, j, u) == Waiting(s, j, u) {}
      forall j: LoopId, u: Task | u.c == c ensures TaskOk(r, c, StageOf(r.conns[c]), j, u) {
        assert TaskOk(s, c, StageOf(s.conns[c]), j, u);
      }
      KeepOthers(s, r, c);
    }
  }

  /** No assert fails, and the invariant is kept, unless an event closes a connection
      more often than it is open; then an assert does fail. */
  lemma KeepStep(s: Server, e: Event)
    requires Inv(s) && Enabled(s, e)
    ensures if Over(s, e) then Step(s, e).failed else Inv(Step(s, e))
  {
    match e
    case Accept(l) => KeepAccept(s, l);
    case PollReturns(l, active) => KeepPoll(s, l, active);
    case Handle(l, revents, eof) => KeepHandle(s, l, revents, eof);
    case ShutDown(c) => KeepShutDown(s, c);
    case EndDispatch(l) =>
      assert LoopOk(s, l);
      KeepPhase(s, Step(s, e), l);
    case RunTask(l) => KeepRunTask(s, l);
    case EndTasks(l) =>
      assert LoopOk(s, l);
      KeepPhase(s, Step(s, e), l);
  }

  //
  // Whole runs
  //

  ghost predicate RunEnabled(s: Server, es: seq<Event>)
    decreases |es|
  { es == [] || (Enabled(s, es[0]) && RunEnabled(Step(s, es[0]), es[1..])) }

  /** Some step of the run closes a connection more often than it is open. */
  ghost predicate Overruns(s: Server, es: seq<Event>)
    requires RunEnabled(s, es)
    decreases |es|
  { es != [] && (Over(s, es[0]) || Overruns(Step(s, es[0]), es[1..])) }

  ghost function Run(s: Server, es: seq<Event>): Server
    requires RunEnabled(s, es)
    decreases |es|
  { if es == [] then s else Run(Step(s, es[0]), es[1..]) }

  /** The server at start: the base loop and the pool's loops, all polling. */
  function Start(pool: set<LoopId>): Server {
    Server(1, {}, map[], map l | l in pool + {BASE} :: Loop(Polling, [], []), false)
  }

  lemma StartIsSafe(pool: set<LoopId>)
    ensures Inv(Start(pool))
  {
    var s := Start(pool);
    forall l | l in s.loops ensures LoopOk(s, l) {}
    forall l: LoopId, t: Task ensures Known(s, l, t) {}
  }

  /** What the invariant says of one connection: events only after it is established,
      and never two of anything. */
  ghost predicate OrderlyLife(s: Server, c: ConnId)
    requires c in s.conns
  {
    var k := s.conns[c];
    && k.removed <= k.erased <= k.established <= 1
    && (k.registered <==> k.established == 1 && k.removed == 0)
    && (c in s.connections <==> k.erased == 0)
    && (k.interested ==> k.registered && c in s.connections)
    && (forall l :: l in s.loops && s.loops[l].phase.Dispatching? && c in s.loops[l].phase.active ==>
          k.loop == l && k.registered && (l == BASE ==> Open(k.status)))
  }

  lemma LivesAreOrderly(s: Server, c: ConnId)
    requires Inv(s) && c in s.conns
    ensures OrderlyLife(s, c)
  {
    assert ConnOk(s, c);
    forall l | l in s.loops && s.loops[l].phase.Dispatching? && c in s.loops[l].phase.active
      ensures ActiveOk(s, l, c)
    {
      assert LoopOk(s, l);
      var i :| 0 <= i < |s.loops[l].phase.active| && s.loops[l].phase.active[i] == c;
    }
  }

  lemma {:induction false} ClosesKeepRegistered(s: Server, l: LoopId, c: ConnId, times: nat, d: ConnId)
    requires d in s.conns
    ensures var r := HandleCloses(s, l, c, times);
            d in r.conns && r.conns[d].registered == s.conns[d].registered
    decreases times
  {
    if times > 0 {
      ClosesKeepRegistered(HandleClose(s, l, c), l, c, times - 1, d);
    }
  }

  lemma {:induction false} ClosesKeepFailed(s: Server, l: LoopId, c: ConnId, times: nat)
    requires s.failed
    ensures HandleCloses(s, l, c, times).failed
    decreases times
  {
    if times > 0 {
      ClosesKeepFailed(HandleClose(s, l, c), l, c, times - 1);
    }
  }

  lemma {:induction false} FailedSticks(s: Server, es: seq<Event>)
    requires s.failed && RunEnabled(s, es)
    ensures Run(s, es).failed
    decreases |es|
  {
    if es != [] {
      if es[0].Handle? {
        var l := es[0].l;
        ClosesKeepFailed(SetPhase(s, l, Dispatching(s.loops[l].phase.active[1..])), l, s.loops[l].phase.active[0],
                         CloseCalls(es[0].revents, es[0].eof));
      }
      FailedSticks(Step(s, es[0]), es[1..]);
    }
  }

  /** A run fails an assert if and only if some event in it closes a connection more
      often than it is open; in every other run every connection leads an orderly life. */
  lemma {:induction false} LifecycleIsSafe(s: Server, es: seq<Event>)
    requires Inv(s) && RunEnabled(s, es)
    ensures Run(s, es).failed <==> Overruns(s, es)
    ensures !Run(s, es).failed ==> Inv(Run(s, es)) && forall c :: c in Run(s, es).conns ==> OrderlyLife(Run(s, es), c)
    decreases |es|
  {
    if es == [] {
      forall c | c in s.conns ensures OrderlyLife(s, c) { LivesAreOrderly(s, c); }
    } else {
      KeepStep(s, es[0]);
      if Over(s, es[0]) {
        FailedSticks(Step(s, es[0]), es[1..]);
      } else {
        LifecycleIsSafe(Step(s, es[0]), es[1..]);
      }
    }
  }

  /** In the base loop the events are to blame alone: an assert fails exactly when a
      hang-up without input comes with POLLPRI or POLLRDHUP and the read finds the end. */
  lemma BaseFailsIff(s: Server, revents: bv16, eof: bool)
    requires Inv(s) && Enabled(s, Handle(BASE, revents, eof))
    ensures Step(s, Handle(BASE, revents, eof)).failed
       <==> revents & POLLHUP != 0 && revents & POLLIN == 0 && revents & (POLLPRI | POLLRDHUP) != 0 && eof
  {
    KeepStep(s, Handle(BASE, revents, eof));
    KeepNextActive(s, BASE);
    DoubleClose(revents, eof);
  }

  /** A channel leaves the poller only as a task of its own loop, with no event wanted
      and none of its events waiting in any loop. */
  lemma RemovedOnlyAsATask(s: Server, e: Event, c: ConnId)
    requires Inv(s) && Enabled(s, e)
    requires c in s.conns && c in Step(s, e).conns && s.conns[c].registered && !Step(s, e).conns[c].registered
    ensures e == RunTask(s.conns[c].loop) && !s.conns[c].interested && c !in s.connections
    ensures forall l :: l in s.loops && s.loops[l].phase.Dispatching? ==> c !in s.loops[l].phase.active
  {
    assert ConnOk(s, c);
    match e
    case Handle(l, revents, eof) =>
      ClosesKeepRegistered(SetPhase(s, l, Dispatching(s.loops[l].phase.active[1..])), l, s.loops[l].phase.active[0],
                           CloseCalls(revents, eof), c);
    case RunTask(l) =>
      HeadTask(s, l);
      forall k | k in s.loops && s.loops[k].phase.Dispatching? ensures c !in s.loops[k].phase.active {
        NotActive(s, c, k);
      }
    case _ =>
  }

  /** When no loop has a task left, every connection is in service and in the server's
      map, or gone and out of it: none is half-way. */
  lemma NothingLeftBehind(s: Server, c: ConnId)
    requires Inv(s) && c in s.conns
    requires forall l :: l in s.loops ==> s.loops[l].batch == [] && s.loops[l].pending == []
    ensures if c in s.connections then InService(s, c) else StageOf(s.conns[c]).Gone?
  {
    assert ConnOk(s, c);
    var g := StageOf(s.conns[c]);
    assert TaskOk(s, c, g, s.conns[c].loop, Establish(c)) && TaskOk(s, c, g, s.conns[c].loop, Destroy(c));
    assert TaskOk(s, c, g, BASE, Remove(c));
  }

  /** In another loop a connection closed earlier is to blame too: a hang-up reported for
      it while it is still registered fails an assert. */
  lemma IdleHangUpFails(s: Server, l: LoopId, c: ConnId)
    requires Inv(s) && l in s.loops && s.loops[l].phase.Polling?
    requires c in s.conns && s.conns[c].loop == l && s.conns[c].registered && !s.conns[c].interested
    ensures l != BASE && Enabled(s, PollReturns(l, [c]))
    ensures Step(Step(s, PollReturns(l, [c])), Handle(l, POLLHUP, false)).failed
  {
    assert ConnOk(s, c);
    if l == BASE {
      BasePollsServed(s, c);
    }
    assert CloseCalls(POLLHUP, false) == 1;
    KeepPoll(s, l, [c]);
    KeepStep(Step(s, PollReturns(l, [c])), Handle(l, POLLHUP, false));
  }

  /** And it comes to that: an I/O loop that closes a connection and has nothing else to
      do polls again with the connection still registered. */
  lemma ClosedStaysRegistered(s: Server, l: LoopId, c: ConnId)
    requires Inv(s) && l in s.loops && l != BASE && s.loops[l] == Loop(Dispatching([c]), [], [])
    requires c in s.conns && InService(s, c)
    ensures var s1 := Step(s, Handle(l, POLLHUP, false));
            && Enabled(s1, EndDispatch(l)) && Enabled(Step(s1, EndDispatch(l)), EndTasks(l))
            && var s2 := Step(Step(s1, EndDispatch(l)), EndTasks(l));
            && Inv(s2) && s2.loops[l].phase.Polling?
            && c in s2.conns && s2.conns[c].loop == l && s2.conns[c].registered && !s2.conns[c].interested
  {
    assert CloseCalls(POLLHUP, false) == 1;
    KeepNextActive(s, l);
    var taken := SetPhase(s, l, Dispatching([c][1..]));
    assert HandleCloses(taken, l, c, 1) == HandleCloses(HandleClose(taken, l, c), l, c, 0) == HandleClose(taken, l, c);
    var s1 := Step(s, Handle(l, POLLHUP, false));
    KeepStep(s, Handle(l, POLLHUP, false));
    KeepStep(s1, EndDispatch(l));
    KeepStep(Step(s1, EndDispatch(l)), EndTasks(l));
  }

  /** A run by its first step. */
  lemma RunCons(s: Server, e: Event, es: seq<Event>)
    requires Enabled(s, e) && RunEnabled(Step(s, e), es)
    ensures RunEnabled(s, [e] + es) && Run(s, [e] + es) == Run(Step(s, e), es)
  {
    assert ([e] + es)[0] == e && ([e] + es)[1..] == es;
  }

  lemma {:induction false} RunAppend(s: Server, es: seq<Event>, more: seq<Event>)
    requires RunEnabled(s, es) && RunEnabled(Run(s, es), more)
    ensures RunEnabled(s, es + more) && Run(s, es + more) == Run(Run(s, es), more)
    decreases |es|
  {
    if es == [] {
      assert es + more == more;
    } else {
      RunAppend(Step(s, es[0]), es[1..], more);
      RunCons(s, es[0], es[1..] + more);
      assert es + more == [es[0]] + (es[1..] + more);
    }
  }

  /** Loop l has nothing to do and serves connection c. */
  ghost predicate Serves(s: Server, l: LoopId, c: ConnId) {
    && l in s.loops && s.loops[l] == Loop(Polling, [], [])
    && c in s.conns && s.conns[c].loop == l && s.conns[c].registered && InService(s, c)
  }

  function Turn(l: LoopId): seq<Event> { [PollReturns(l, []), EndDispatch(l), RunTask(l), EndTasks(l)] }

  /** A loop that finds a new connection among its tasks serves it. */
  lemma EstablishedRun(s: Server, l: LoopId, c: ConnId)
    requires l in s.loops && s.loops[l] == Loop(Polling, [], [Establish(c)])
    requires c in s.conns && s.conns[c] == Conn(l, Connecting, false, false, 0, 0, 0)
    ensures RunEnabled(s, Turn(l)) && Serves(Run(s, Turn(l)), l, c)
  {
    var s1 := Step(s, PollReturns(l, []));
    var s2 := Step(s1, EndDispatch(l));
    var s3 := Step(s2, RunTask(l));
    RunCons(s3, EndTasks(l), []);
    RunCons(s2, RunTask(l), [EndTasks(l)] + []);
    RunCons(s1, EndDispatch(l), [RunTask(l)] + ([EndTasks(l)] + []));
    RunCons(s, PollReturns(l, []), [EndDispatch(l)] + ([RunTask(l)] + ([EndTasks(l)] + [])));
    assert Turn(l) == [PollReturns(l, [])] + ([EndDispatch(l)] + ([RunTask(l)] + ([EndTasks(l)] + [])));
  }

  /** A server with a pool of one loop accepts a connection for it. */
  lemma AcceptedRun()
    ensures var es := [PollReturns(0, []), Accept(1)] + Turn(1);
            RunEnabled(Start({1}), es) && Serves(Run(Start({1}), es), 1, 1)
  {
    var s0 := Start({1});
    assert s0.loops.Keys == {0, 1};
    var s1 := Step(s0, PollReturns(0, []));
    var s2 := Step(s1, Accept(1));
    assert s2.loops[1] == Loop(Polling, [], [Establish(1)]);
    EstablishedRun(s2, 1, 1);
    RunCons(s1, Accept(1), Turn(1));
    RunCons(s0, PollReturns(0, []), [Accept(1)] + Turn(1));
    assert [PollReturns(0, []), Accept(1)] + Turn(1) == [PollReturns(0, [])] + ([Accept(1)] + Turn(1));
  }

  function HangUp(l: LoopId, c: ConnId): seq<Event> {
    [PollReturns(l, [c]), Handle(l, POLLHUP, false), EndDispatch(l), EndTasks(l)]
  }

  lemma AfterHangUp(s: Server, l: LoopId, c: ConnId)
    requires Inv(s) && l != BASE && Serves(s, l, c)
    ensures RunEnabled(s, HangUp(l, c))
    ensures var r := Run(s, HangUp(l, c));
            && Inv(r) && l in r.loops && r.loops[l].phase.Polling?
            && c in r.conns && r.conns[c].loop == l && r.conns[c].registered && !r.conns[c].interested
  {
    var poll, hup := PollReturns(l, [c]), Handle(l, POLLHUP, false);
    var s1 := Step(s, poll);
    KeepPoll(s, l, [c]);
    ClosedStaysRegistered(s1, l, c);
    var s2 := Step(s1, hup);
    var s3 := Step(s2, EndDispatch(l));
    RunCons(s3, EndTasks(l), []);
    RunCons(s2, EndDispatch(l), [EndTasks(l)] + []);
    RunCons(s1, hup, [EndDispatch(l)] + ([EndTasks(l)] + []));
    RunCons(s, poll, [hup] + ([EndDispatch(l)] + ([EndTasks(l)] + [])));
    assert HangUp(l, c) == [poll] + ([hup] + ([EndDispatch(l)] + ([EndTasks(l)] + [])));
  }

  lemma SecondHangUp(s: Server, l: LoopId, c: ConnId)
    requires Inv(s) && l in s.loops && s.loops[l].phase.Polling?
    requires c in s.conns && s.conns[c].loop == l && s.conns[c].registered && !s.conns[c].interested
    ensures var es := [PollReturns(l, [c]), Handle(l, POLLHUP, false)];
            RunEnabled(s, es) && Run(s, es).failed
  {
    var poll, hup := PollReturns(l, [c]), Handle(l, POLLHUP, false);
    IdleHangUpFails(s, l, c);
    RunCons(Step(s, poll), hup, []);
    RunCons(s, poll, [hup] + []);
    assert [poll, hup] == [poll] + ([hup] + []);
  }

  /** A run of a server from its start on which an assert fails: a connection hangs up,
      and the hang-up is reported once more before the base loop has run the removal. */
  lemma HangUpReportedTwiceFails()
    ensures var es := [PollReturns(0, []), Accept(1)] + Turn(1) + HangUp(1, 1)
                      + [PollReturns(1, [1]), Handle(1, POLLHUP, false)];
            RunEnabled(Start({1}), es) && Run(Start({1}), es).failed
  {
    var s, start, more := Start({1}), [PollReturns(0, []), Accept(1)] + Turn(1),
                          [PollReturns(1, [1]), Handle(1, POLLHUP, false)];
    StartIsSafe({1});
    AcceptedRun();
    NoOverruns(s, start);
    LifecycleIsSafe(s, start);
    AfterHangUp(Run(s, start), 1, 1);
    RunAppend(s, start, HangUp(1, 1));
    SecondHangUp(Run(s, start + HangUp(1, 1)), 1, 1);
    RunAppend(s, start + HangUp(1, 1), more);
  }

  /** A run without a Handle fails no assert. */
  lemma {:induction false} NoOverruns(s: Server, es: seq<Event>)
    requires RunEnabled(s, es) && forall e :: e in es ==> !e.Handle?
    ensures !Overruns(s, es)
    decreases |es|
  {
    if es != [] {
      NoOverruns(Step(s, es[0]), es[1..]);
    }
  }
}
