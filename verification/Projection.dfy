/** One connection of a server seen on its own: whatever the loops of the server do to
    it is a run of the connection's step system. */
module Projection {
  import opened ConnectionStatus
  import opened Channels
  import L = Lifecycle
  import M = ConnectionModel

  /** What happens to connection c: a step of the server, or a step of the data path of
      c. `inLoop` says in which thread a Shutdown is called. */
  datatype Happening = OfServer(e: L.Event, inLoop: bool) | OfData(f: M.Event)

  /** Sending, writing and the posted half of a shutdown are the data path. */
  predicate IsData(f: M.Event) { f.Send? || f.QueuedSend? || f.Writable? || f.QueuedShutdown? }

  /** What a step of the server is to connection c. */
  function Seen(s: L.Server, e: L.Event, inLoop: bool, c: L.ConnId): seq<M.Event>
    requires L.Enabled(s, e)
  {
    match e
    case Accept(l) => if c == s.nextConnId && l == L.BASE then [M.Establish] else []
    case Handle(l, revents, eof) =>
      if c == s.loops[l].phase.active[0] then seq(CloseCalls(revents, eof), _ => M.Close) else []
    case ShutDown(d) => if c == d then [M.Shutdown(inLoop)] else []
    case RunTask(l) =>
      var t := s.loops[l].batch[0];
      if t == L.Establish(c) then [M.Establish] else if t == L.Destroy(c) then [M.Destroy] else []
    case _ => []
  }

  /** The server's own run. */
  function ServerRun(hs: seq<Happening>): seq<L.Event> {
    if hs == [] then []
    else (match hs[0] case OfServer(e, _) => [e] case OfData(_) => []) + ServerRun(hs[1..])
  }

  ghost predicate Happens(s: L.Server, hs: seq<Happening>): (b: bool)
    ensures b ==> L.RunEnabled(s, ServerRun(hs))
    decreases |hs|
  {
    hs == [] ||
    var rest := hs[1..];
    match hs[0]
    case OfServer(e, _) =>
      assert ([e] + ServerRun(rest))[1..] == ServerRun(rest);
      L.Enabled(s, e) && Happens(L.Step(s, e), rest)
    case OfData(f) =>
      assert [] + ServerRun(rest) == ServerRun(rest);
      IsData(f) && Happens(s, rest)
  }

  /** All that happens to connection c. */
  ghost function Trace(s: L.Server, hs: seq<Happening>, c: L.ConnId): seq<M.Event>
    requires Happens(s, hs)
    decreases |hs|
  {
    if hs == [] then []
    else match hs[0]
         case OfServer(e, inLoop) => Seen(s, e, inLoop, c) + Trace(L.Step(s, e), hs[1..], c)
         case OfData(f) => [f] + Trace(s, hs[1..], c)
  }

  /** The kernel and the loop's queue answer as they may: nothing is said of what the
      handlers assert. */
  ghost predicate Answered(k: M.Conn, fs: seq<M.Event>)
    decreases |fs|
  {
    fs == [] || (M.Allowed(k, fs[0]) && (M.Asserted(k, fs[0]) ==> Answered(M.Step(k, fs[0]), fs[1..])))
  }

  /** The two views of c: not yet accepted, or of one status. */
  ghost predicate Agree(s: L.Server, c: L.ConnId, k: M.Conn) {
    if c in s.conns then k.status == s.conns[c].status else k.status.Connecting? && c >= s.nextConnId
  }

  /** One step of the server is at most one of c, which asserts nothing false. */
  ghost predicate Follows(s: L.Server, e: L.Event, inLoop: bool, c: L.ConnId, k: M.Conn)
    requires L.Enabled(s, e)
  {
    var seen, r := Seen(s, e, inLoop, c), L.Step(s, e);
    if seen == [] then Agree(r, c, k)
    else |seen| == 1 && M.Enabled(k, seen[0]) && Agree(r, c, M.Step(k, seen[0]))
  }

  lemma HandleFollows(s: L.Server, e: L.Event, inLoop: bool, c: L.ConnId, k: M.Conn)
    requires L.Inv(s) && L.Enabled(s, e) && e.Handle? && !L.Over(s, e) && Agree(s, c, k)
    ensures Follows(s, e, inLoop, c, k)
  {
    var l := e.l;
    var d := s.loops[l].phase.active[0];
    var taken := L.SetPhase(s, l, L.Dispatching(s.loops[l].phase.active[1..]));
    L.KeepNextActive(s, l);
    L.KeepStep(s, e);
    var times := CloseCalls(e.revents, e.eof);
    if times == 1 {
      assert L.HandleCloses(taken, l, d, 1) == L.HandleCloses(L.HandleClose(taken, l, d), l, d, 0);
    }
  }

  lemma StepFollows(s: L.Server, e: L.Event, inLoop: bool, c: L.ConnId, k: M.Conn)
    requires L.Inv(s) && L.Enabled(s, e) && !L.Over(s, e) && Agree(s, c, k)
    ensures Follows(s, e, inLoop, c, k)
  {
    assert c in s.conns ==> L.ConnOk(s, c);
    match e
    case Handle(_, _, _) => HandleFollows(s, e, inLoop, c, k);
    case RunTask(l) => L.HeadTask(s, l);
    case _ =>
  }

  /** In every run of the server without a failing assert, and whatever the data path of
      a connection meets between the server's steps, what happens to the connection is a
      run of its step system: every assert of its handlers holds. */
  lemma {:induction false} ServedIsARun(s: L.Server, hs: seq<Happening>, c: L.ConnId, k: M.Conn)
    requires L.Inv(s) && Happens(s, hs) && Agree(s, c, k)
    requires !L.Overruns(s, ServerRun(hs))
    requires Answered(k, Trace(s, hs, c))
    ensures M.RunEnabled(k, Trace(s, hs, c))
    decreases |hs|
  {
    if hs != [] {
      var rest := hs[1..];
      match hs[0]
      case OfServer(e, inLoop) =>
        assert ServerRun(hs)[1..] == ServerRun(rest);
        StepFollows(s, e, inLoop, c, k);
        L.KeepStep(s, e);
        var seen, more := Seen(s, e, inLoop, c), Trace(L.Step(s, e), rest, c);
        if seen == [] {
          assert seen + more == more;
          ServedIsARun(L.Step(s, e), rest, c, k);
        } else {
          assert (seen + more)[1..] == more && (seen + more)[0] == seen[0];
          ServedIsARun(L.Step(s, e), rest, c, M.Step(k, seen[0]));
        }
      case OfData(f) =>
        assert ServerRun(hs) == ServerRun(rest);
        var more := Trace(s, rest, c);
        assert ([f] + more)[1..] == more;
        ServedIsARun(s, rest, c, M.Step(k, f));
    }
  }

  /** So for every connection of every server, from its start: the bytes sent followed by
      the bytes buffered are the messages accepted. */
  lemma EveryConnectionConserves(pool: set<L.LoopId>, hs: seq<Happening>, c: L.ConnId)
    requires c >= 1 && Happens(L.Start(pool), hs)
    requires !L.Run(L.Start(pool), ServerRun(hs)).failed
    requires Answered(M.FRESH, Trace(L.Start(pool), hs, c))
    ensures var es := Trace(L.Start(pool), hs, c);
            M.RunEnabled(M.FRESH, es) && M.Sent(M.FRESH, es) + M.Run(M.FRESH, es).output == M.Accepted(M.FRESH, es)
  {
    L.StartIsSafe(pool);
    L.LifecycleIsSafe(L.Start(pool), ServerRun(hs));
    ServedIsARun(L.Start(pool), hs, c, M.FRESH);
    M.ConservedFromFresh(Trace(L.Start(pool), hs, c));
  }
}
