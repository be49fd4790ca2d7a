/** One loop of a server seen on its own: what the server does to it is a run of the
    loop's step system, wakeups included, so no task waits in a loop left asleep. */
module ServerLoops {
  import opened Channels
  import opened ConnectionStatus
  import S = Lifecycle
  import M = LoopModel

  /** Tasks are numbered by any function. */
  function Codes(code: S.Task -> M.Task, ts: seq<S.Task>): (r: seq<M.Task>)
    ensures |r| == |ts| && forall i :: 0 <= i < |ts| ==> r[i] == code(ts[i])
  { seq(|ts|, i requires 0 <= i < |ts| => code(ts[i])) }

  predicate SamePlace(p: S.Phase, m: M.Loop) {
    match p
    case Polling => m.place.AtPoll? && !m.calling
    case Dispatching(_) => m.place == M.Dispatching(false) && !m.calling
    case RunningTasks => m.place.RunningTasks? && m.calling
  }

  /** The two views of a loop: the same tasks at the same place, and outside the handlers
      a task that waits has been signalled. */
  ghost predicate Agree(code: S.Task -> M.Task, p: S.Loop, m: M.Loop) {
    && m.status.Running? && m.owing == {} && !m.loopOwes
    && m.pending == Codes(code, p.pending) && m.batch == Codes(code, p.batch)
    && SamePlace(p.phase, m)
    && (!p.phase.Dispatching? && p.pending != [] ==> m.counter > 0)
  }

  //
  // What one step of the server is to loop l
  //

  /** The loop whose thread takes the step. */
  function Actor(e: S.Event): S.LoopId {
    match e
    case Accept(_) => S.BASE
    case ShutDown(_) => S.BASE
    case _ => e.l
  }

  /** How loop l itself moves on. A readable eventfd is reported, and read first. */
  function Moves(e: S.Event, l: S.LoopId, m: M.Loop): seq<M.Event> {
    match e
    case PollReturns(k, _) =>
      if k != l then [] else if m.counter > 0 then [M.PollReturns(true), M.Drain] else [M.PollReturns(false)]
    case EndDispatch(k) => if k != l then [] else [M.EndDispatch, M.Swap]
    case RunTask(k) => if k != l then [] else [M.RunTask]
    case EndTasks(k) => if k != l then [] else [M.EndTasks, M.Check]
    case _ => []
  }

  /** The task a step posts to loop l, if any. */
  function Posts(s: S.Server, e: S.Event, l: S.LoopId): seq<S.Task>
    requires S.Enabled(s, e)
  {
    match e
    case Accept(k) => if k == l && l != S.BASE then [S.Establish(s.nextConnId)] else []
    case Handle(k, revents, eof) =>
      var c := s.loops[k].phase.active[0];
      if CloseCalls(revents, eof) == 0 || l != S.BASE then []
      else if k == S.BASE then [S.Destroy(c)] else [S.Remove(c)]
    case RunTask(k) =>
      var t := s.loops[k].batch[0];
      if t.Remove? && t.c in s.conns && s.conns[t.c].loop == l then [S.Destroy(t.c)] else []
    case _ => []
  }

  /** Posting: in the loop's own thread only the push, from another push and signal. */
  function Signals(code: S.Task -> M.Task, ts: seq<S.Task>, actor: S.LoopId, l: S.LoopId): seq<M.Event> {
    if ts == [] then []
    else if actor == l then [M.LoopPush(code(ts[0]))]
    else [M.Push(actor, code(ts[0])), M.WakeBy(actor)]
  }

  function Seen(code: S.Task -> M.Task, s: S.Server, e: S.Event, l: S.LoopId, m: M.Loop): seq<M.Event>
    requires S.Enabled(s, e)
  { Moves(e, l, m) + Signals(code, Posts(s, e, l), Actor(e), l) }

  /** Loop l after it has moved on, before anything is posted. */
  function Moved(p: S.Loop, e: S.Event, l: S.LoopId): S.Loop {
    match e
    case PollReturns(k, active) => if k == l then p.(phase := S.Dispatching(active)) else p
    case Handle(k, _, _) =>
      if k == l && p.phase.Dispatching? && p.phase.active != []
      then p.(phase := S.Dispatching(p.phase.active[1..])) else p
    case EndDispatch(k) => if k == l then S.Loop(S.RunningTasks, p.pending, []) else p
    case RunTask(k) => if k == l && p.batch != [] then p.(batch := p.batch[1..]) else p
    case EndTasks(k) => if k == l then p.(phase := S.Polling) else p
    case _ => p
  }

  /** Each step moves loop l on as said, and appends to its tasks what it posts. */
  lemma LoopAfter(s: S.Server, e: S.Event, l: S.LoopId)
    requires S.Inv(s) && S.Enabled(s, e) && !S.Over(s, e) && l in s.loops
    ensures l in S.Step(s, e).loops
    ensures var moved := Moved(s.loops[l], e, l);
            S.Step(s, e).loops[l] == moved.(pending := moved.pending + Posts(s, e, l))
    ensures Posts(s, e, l) != [] && Actor(e) == l ==> s.loops[l].phase.Dispatching? && e.Handle?
  {
    var moved := Moved(s.loops[l], e, l);
    assert moved.pending + [] == moved.pending;
    match e
    case Handle(k, revents, eof) =>
      HandleAfter(s, e, l);
    case RunTask(k) =>
      S.HeadTask(s, k);
    case _ =>
  }

  lemma HandleAfter(s: S.Server, e: S.Event, l: S.LoopId)
    requires S.Inv(s) && S.Enabled(s, e) && e.Handle? && !S.Over(s, e) && l in s.loops
    ensures l in S.Step(s, e).loops
    ensures var moved := Moved(s.loops[l], e, l);
            S.Step(s, e).loops[l] == moved.(pending := moved.pending + Posts(s, e, l))
  {
    var c := s.loops[e.l].phase.active[0];
    var taken := S.SetPhase(s, e.l, S.Dispatching(s.loops[e.l].phase.active[1..]));
    S.KeepNextActive(s, e.l);
    S.ClosesOnce(taken, e.l, c, CloseCalls(e.revents, e.eof));
    assert S.ConnOk(s, c);
    var moved := Moved(s.loops[l], e, l);
    assert moved.pending + [] == moved.pending;
  }

  //
  // The loop's own steps
  //

  lemma MovesAgree(code: S.Task -> M.Task, p: S.Loop, e: S.Event, l: S.LoopId, m: M.Loop)
    requires Agree(code, p, m)
    requires match e
             case PollReturns(k, _) => k == l ==> p.phase.Polling?
             case Handle(k, _, _) => k == l ==> p.phase.Dispatching?
             case EndDispatch(k) => k == l ==> p.phase.Dispatching?
             case RunTask(k) => k == l ==> p.phase.RunningTasks? && p.batch != []
             case EndTasks(k) => k == l ==> p.phase.RunningTasks? && p.batch == []
             case _ => true
    ensures M.RunEnabled(m, Moves(e, l, m)) && Agree(code, Moved(p, e, l), M.Run(m, Moves(e, l, m)))
  {
    var es := Moves(e, l, m);
    if es != [] {
      M.RunShort(m, es[0]);
      assert es == [es[0]] || es == [es[0], es[1]];
    }
  }

  lemma SignalsAgree(code: S.Task -> M.Task, p: S.Loop, ts: seq<S.Task>, actor: S.LoopId, l: S.LoopId, m: M.Loop)
    requires Agree(code, p, m) && |ts| <= 1 && (ts != [] && actor == l ==> p.phase.Dispatching?)
    ensures M.RunEnabled(m, Signals(code, ts, actor, l))
    ensures Agree(code, p.(pending := p.pending + ts), M.Run(m, Signals(code, ts, actor, l)))
  {
    if ts == [] {
      assert p.pending + ts == p.pending;
    } else {
      var es := Signals(code, ts, actor, l);
      M.RunShort(m, es[0]);
      assert es == [es[0]] || es == [es[0], es[1]];
      assert p.pending + ts == p.pending + [ts[0]];
      assert Codes(code, p.pending + ts) == Codes(code, p.pending) + [code(ts[0])];
      assert m.owing + {actor} - {actor} == {};
    }
  }

  lemma StepAgrees(code: S.Task -> M.Task, s: S.Server, e: S.Event, l: S.LoopId, m: M.Loop)
    requires S.Inv(s) && S.Enabled(s, e) && !S.Over(s, e) && l in s.loops && Agree(code, s.loops[l], m)
    ensures var es := Seen(code, s, e, l, m);
            && M.RunEnabled(m, es) && l in S.Step(s, e).loops
            && Agree(code, S.Step(s, e).loops[l], M.Run(m, es))
  {
    LoopAfter(s, e, l);
    MovesAgree(code, s.loops[l], e, l, m);
    var moves := Moves(e, l, m);
    var moved, n := Moved(s.loops[l], e, l), M.Run(m, moves);
    SignalsAgree(code, moved, Posts(s, e, l), Actor(e), l, n);
    M.RunAppend(m, moves, Signals(code, Posts(s, e, l), Actor(e), l));
  }

  //
  // Whole runs
  //

  /** A loop whose Run has reached its first poll. */
  const STARTED := M.INITIAL.(status := M.Running, place := M.AtPoll)

  lemma StartedRun()
    ensures var es := [M.Enter, M.StoreRunning, M.Check];
            M.RunEnabled(M.INITIAL, es) && M.Run(M.INITIAL, es) == STARTED
  {
    var es := [M.Enter, M.StoreRunning, M.Check];
    assert es[1..] == [M.StoreRunning, M.Check];
    M.RunShort(M.Step(M.INITIAL, M.Enter), M.StoreRunning);
  }

  ghost function After(m: M.Loop, fs: seq<M.Event>): M.Loop { if M.RunEnabled(m, fs) then M.Run(m, fs) else m }

  /** All that a run of the server is to loop l. */
  ghost function Trace(code: S.Task -> M.Task, s: S.Server, es: seq<S.Event>, l: S.LoopId, m: M.Loop): seq<M.Event>
    requires S.RunEnabled(s, es)
    decreases |es|
  {
    if es == [] then []
    else
      var seen := Seen(code, s, es[0], l, m);
      seen + Trace(code, S.Step(s, es[0]), es[1..], l, After(m, seen))
  }

  lemma {:induction false} LoopOfServer(code: S.Task -> M.Task, s: S.Server, es: seq<S.Event>, l: S.LoopId, m: M.Loop)
    requires S.Inv(s) && S.RunEnabled(s, es) && !S.Overruns(s, es) && l in s.loops && Agree(code, s.loops[l], m)
    ensures l in S.Run(s, es).loops
    ensures var fs := Trace(code, s, es, l, m);
            M.RunEnabled(m, fs) && Agree(code, S.Run(s, es).loops[l], M.Run(m, fs))
    decreases |es|
  {
    if es != [] {
      StepAgrees(code, s, es[0], l, m);
      S.KeepStep(s, es[0]);
      var seen := Seen(code, s, es[0], l, m);
      LoopOfServer(code, S.Step(s, es[0]), es[1..], l, M.Run(m, seen));
      M.RunAppend(m, seen, Trace(code, S.Step(s, es[0]), es[1..], l, M.Run(m, seen)));
    }
  }

  /** In every run of a server from its start in which no assert fails, what happens to
      each of its loops is a run of the loop's step system; whenever the loop polls with a
      task waiting, an Establish, Remove or Destroy, its eventfd is readable and the poll
      returns. */
  lemma NoTaskWaitsUnsignalled(code: S.Task -> M.Task, pool: set<S.LoopId>, es: seq<S.Event>, l: S.LoopId)
    requires S.RunEnabled(S.Start(pool), es) && !S.Run(S.Start(pool), es).failed && l in S.Start(pool).loops
    ensures l in S.Run(S.Start(pool), es).loops && M.RunEnabled(STARTED, Trace(code, S.Start(pool), es, l, STARTED))
    ensures var p := S.Run(S.Start(pool), es).loops[l];
            var m := M.Run(STARTED, Trace(code, S.Start(pool), es, l, STARTED));
            && m.pending == Codes(code, p.pending)
            && (p.phase.Polling? && p.pending != [] ==> M.Enabled(m, M.PollReturns(true)))
  {
    S.StartIsSafe(pool);
    S.LifecycleIsSafe(S.Start(pool), es);
    LoopOfServer(code, S.Start(pool), es, l, STARTED);
  }
}
