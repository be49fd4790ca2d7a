/** The timer queue behind its loop's task queue: AddTimerInLoop and CancelInLoop called
    from other threads are tasks, and tasks run in the order they were pushed. */
module TimerPosting {
  import opened TimerModel
  import opened TimerInvariant
  import opened TimerRuns
  import L = LoopModel

  /** What a task of the loop does to the timer queue. */
  datatype Op = AddOp(a: Addr) | CancelOp(id: Id) | OtherOp

  datatype Joint = Joint(loop: L.Loop, queue: Queue)

  /** A step of the loop, or one of the timer queue alone: a timer is created in any
      thread, timers fire in the loop thread, and there AddTimerInLoop and CancelInLoop
      are called directly. */
  datatype Happening = OfLoop(e: L.Event, clock: int) | OfTimer(t: TimerModel.Event)

  function Does(op: L.Task -> Op, l: L.Loop, h: Happening): seq<TimerModel.Event> {
    match h
    case OfTimer(e) => [e]
    case OfLoop(e, clock) =>
      if e.RunTask? && l.batch != [] then
        match op(l.batch[0])
        case AddOp(a) => [Add(a, clock)]
        case CancelOp(id) => [Cancel(id)]
        case OtherOp => []
      else []
  }

  ghost predicate CanHappen(op: L.Task -> Op, j: Joint, h: Happening)
    requires Inv(j.queue)
  {
    && (h.OfLoop? ==> L.Enabled(j.loop, h.e))
    && TimerInvariant.RunEnabled(j.queue, Does(op, j.loop, h))
  }

  ghost function After(op: L.Task -> Op, j: Joint, h: Happening): (r: Joint)
    requires Inv(j.queue) && CanHappen(op, j, h)
    ensures Inv(r.queue)
  {
    Joint(if h.OfLoop? then L.Step(j.loop, h.e) else j.loop, TimerInvariant.Run(j.queue, Does(op, j.loop, h)))
  }

  ghost predicate AllHappen(op: L.Task -> Op, j: Joint, hs: seq<Happening>)
    requires Inv(j.queue)
    decreases |hs|
  { hs == [] || (CanHappen(op, j, hs[0]) && AllHappen(op, After(op, j, hs[0]), hs[1..])) }

  ghost function AfterAll(op: L.Task -> Op, j: Joint, hs: seq<Happening>): (r: Joint)
    requires Inv(j.queue) && AllHappen(op, j, hs)
    ensures Inv(r.queue)
    decreases |hs|
  { if hs == [] then j else AfterAll(op, After(op, j, hs[0]), hs[1..]) }

  /** What happens to the timer queue. */
  ghost function Trace(op: L.Task -> Op, j: Joint, hs: seq<Happening>): seq<TimerModel.Event>
    requires Inv(j.queue) && AllHappen(op, j, hs)
    decreases |hs|
  { if hs == [] then [] else Does(op, j.loop, hs[0]) + Trace(op, After(op, j, hs[0]), hs[1..]) }

  lemma {:induction false} RunAppend(q: Queue, es: seq<TimerModel.Event>, more: seq<TimerModel.Event>)
    requires Inv(q) && TimerInvariant.RunEnabled(q, es) && TimerInvariant.RunEnabled(TimerInvariant.Run(q, es), more)
    ensures TimerInvariant.RunEnabled(q, es + more)
    ensures TimerInvariant.Run(q, es + more) == TimerInvariant.Run(TimerInvariant.Run(q, es), more)
    decreases |es|
  {
    if es == [] {
      assert es + more == more;
    } else {
      assert (es + more)[1..] == es[1..] + more && (es + more)[0] == es[0];
      RunAppend(TimerInvariant.Step(q, es[0]), es[1..], more);
    }
  }

  lemma {:induction false} TraceIsARun(op: L.Task -> Op, j: Joint, hs: seq<Happening>)
    requires Inv(j.queue) && AllHappen(op, j, hs)
    ensures TimerInvariant.RunEnabled(j.queue, Trace(op, j, hs))
    ensures TimerInvariant.Run(j.queue, Trace(op, j, hs)) == AfterAll(op, j, hs).queue
    decreases |hs|
  {
    if hs != [] {
      var next := After(op, j, hs[0]);
      TraceIsARun(op, next, hs[1..]);
      RunAppend(j.queue, Does(op, j.loop, hs[0]), Trace(op, next, hs[1..]));
    }
  }

  lemma {:induction false} AddsConcat(es: seq<TimerModel.Event>, more: seq<TimerModel.Event>, a: Addr)
    ensures Adds(es + more, a) <==> Adds(es, a) || Adds(more, a)
  {
    if es == [] {
      assert es + more == more;
    } else {
      assert (es + more)[1..] == es[1..] + more && (es + more)[0] == es[0];
      AddsConcat(es[1..], more, a);
    }
  }

  /** What a loop has pushed and executed stays, and tasks run in the order pushed. */
  lemma LoopGrows(op: L.Task -> Op, j: Joint, h: Happening)
    requires Inv(j.queue) && CanHappen(op, j, h) && L.Conserved(j.loop)
    ensures var r := After(op, j, h).loop;
            L.Conserved(r) && j.loop.executed <= r.executed && j.loop.pushed <= r.pushed
  {
    if h.OfLoop? {
      L.ConservedStep(j.loop, h.e);
    }
  }

  lemma {:induction false} QueueGrows(op: L.Task -> Op, j: Joint, hs: seq<Happening>)
    requires Inv(j.queue) && AllHappen(op, j, hs) && L.Conserved(j.loop)
    ensures var r := AfterAll(op, j, hs).loop;
            L.Conserved(r) && j.loop.executed <= r.executed && j.loop.pushed <= r.pushed
    decreases |hs|
  {
    if hs != [] {
      LoopGrows(op, j, hs[0]);
      QueueGrows(op, After(op, j, hs[0]), hs[1..]);
    }
  }

  /** A step that executes an add at position i does it. */
  lemma StepAdds(op: L.Task -> Op, j: Joint, h: Happening, i: nat, a: Addr)
    requires Inv(j.queue) && CanHappen(op, j, h)
    requires |j.loop.executed| <= i < |After(op, j, h).loop.executed| && op(After(op, j, h).loop.executed[i]) == AddOp(a)
    ensures Adds(Does(op, j.loop, h), a)
  {
  }

  /** A task executed on the way has done its part. */
  lemma {:induction false} ExecutedAdds(op: L.Task -> Op, j: Joint, hs: seq<Happening>, i: nat, a: Addr)
    requires Inv(j.queue) && AllHappen(op, j, hs) && L.Conserved(j.loop)
    requires |j.loop.executed| <= i < |AfterAll(op, j, hs).loop.executed|
    requires op(AfterAll(op, j, hs).loop.executed[i]) == AddOp(a)
    ensures Adds(Trace(op, j, hs), a)
    decreases |hs|
  {
    var next := After(op, j, hs[0]);
    LoopGrows(op, j, hs[0]);
    QueueGrows(op, next, hs[1..]);
    AddsConcat(Does(op, j.loop, hs[0]), Trace(op, next, hs[1..]), a);
    if i >= |next.loop.executed| {
      ExecutedAdds(op, next, hs[1..], i, a);
    } else {
      assert next.loop.executed[i] == AfterAll(op, j, hs).loop.executed[i];
      StepAdds(op, j, hs[0], i, a);
    }
  }

  /** When the loop comes to the task at position k, an add pushed before it has run. */
  lemma PushedBeforeHasRun(op: L.Task -> Op, j: Joint, hs: seq<Happening>, i: nat, k: nat, a: Addr)
    requires Inv(j.queue) && L.Conserved(j.loop) && AllHappen(op, j, hs)
    requires var r := AfterAll(op, j, hs).loop;
             && L.Enabled(r, L.RunTask) && |j.loop.pushed| <= i < k == |r.executed| < |r.pushed|
             && op(r.pushed[i]) == AddOp(a)
    ensures var r := AfterAll(op, j, hs).loop;
            Adds(Trace(op, j, hs), a) && r.batch[0] == r.pushed[k]
  {
    QueueGrows(op, j, hs);
    var r := AfterAll(op, j, hs).loop;
    assert r.executed[i] == r.pushed[i] && r.batch[0] == r.pushed[k];
    ExecutedAdds(op, j, hs, i, a);
  }

  lemma OneStep(q: Queue, e: TimerModel.Event)
    requires Inv(q)
    ensures TimerInvariant.RunEnabled(q, [e]) <==> TimerModel.Enabled(q, e)
    ensures TimerModel.Enabled(q, e) ==> TimerInvariant.Run(q, [e]) == TimerInvariant.Step(q, e)
  {
  }

  lemma CancelTask(op: L.Task -> Op, j: Joint, id: Id, clock: int)
    requires Inv(j.queue) && L.Enabled(j.loop, L.RunTask) && op(j.loop.batch[0]) == CancelOp(id)
    ensures var h := OfLoop(L.RunTask, clock);
            CanHappen(op, j, h) && After(op, j, h).queue == TimerInvariant.Step(j.queue, Cancel(id))
  {
    OneStep(j.queue, Cancel(id));
  }

  /** A timer's add is posted, and behind it its cancel. */
  ghost predicate Posted(op: L.Task -> Op, r: L.Loop, first: nat, i: nat, k: nat, id: Id) {
    && L.Enabled(r, L.RunTask) && first <= i < k == |r.executed| < |r.pushed|
    && op(r.pushed[i]) == AddOp(id.addr) && op(r.pushed[k]) == CancelOp(id)
  }

  /** A cancel posted after its add never overtakes it, whatever other threads, the loop
      and the timers do. AddTimer creates the timer, which makes the id genuine, and posts
      its add; a later Cancel by the same thread posts the cancel behind it; when the loop
      comes to run the cancel, it takes effect. Only a cancel that is not posted behind
      the add can come too early. */
  lemma PostedCancelTakesEffect(op: L.Task -> Op, j: Joint, id: Id, hs: seq<Happening>, i: nat, k: nat, clock: int)
    requires Inv(j.queue) && L.Conserved(j.loop) && Genuine(j.queue, id) && AllHappen(op, j, hs)
    requires Posted(op, AfterAll(op, j, hs).loop, |j.loop.pushed|, i, k, id)
    ensures var r := AfterAll(op, j, hs);
            && CanHappen(op, r, OfLoop(L.RunTask, clock))
            && Doomed(After(op, r, OfLoop(L.RunTask, clock)).queue, id.sequence)
  {
    PushedBeforeHasRun(op, j, hs, i, k, id.addr);
    TraceIsARun(op, j, hs);
    IdsAlongRuns(j.queue, Trace(op, j, hs), id);
    var r := AfterAll(op, j, hs);
    CancelTask(op, r, id, clock);
    CancelDoomsIff(r.queue, id);
  }
}
