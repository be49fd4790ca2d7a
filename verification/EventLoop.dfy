/** `EventLoop` (evk/event_loop.cc): the methods, each one or a few atomic steps. */
module EventLoops {
  import opened LoopModel

  class EventLoop {
    var status: Status
    var pendingFunctors: seq<Task>
    var isCallingPendingFunctors: bool
    /** The kernel's eventfd. */
    var wakeupFd: nat
    /** The local of DoPendingFunctors. */
    var functors: seq<Task>
    /** Other threads and the loop thread itself, between a push and its Wakeup. */
    var owing: set<Thread>
    var loopOwes: bool
    /** Where the loop thread is. */
    var place: Place
    ghost var pushed: seq<Task>
    ghost var executed: seq<Task>
    ghost var swapped: nat

    ghost function State(): Loop
      reads this
    {
      Loop(status, pendingFunctors, isCallingPendingFunctors, wakeupFd, place, functors, owing, loopOwes,
           pushed, executed, swapped)
    }

    constructor ()
      ensures State() == INITIAL
    {
      status, pendingFunctors, isCallingPendingFunctors, wakeupFd := Initialized, [], false, 0;
      functors, owing, loopOwes := [], {}, false;
      place, pushed, executed, swapped := BeforeRun, [], [], 0;
    }

    /** The critical section of QueueInLoop. */
    method PushPending(task: Task)
      modifies `pendingFunctors, `pushed
      ensures State() == PushTask(old(State()), task)
    {
      pendingFunctors := pendingFunctors + [task];
      pushed := pushed + [task];
    }

    method Wakeup()
      modifies `wakeupFd
      ensures State() == old(State()).(counter := old(wakeupFd) + 1)
    {
      wakeupFd := wakeupFd + 1;
    }

    /** QueueInLoop called in the loop thread: it signals exactly when tasks are being
        run, since only then has the swap that would have taken it passed. */
    method QueueInLoop(task: Task)
      requires InUserCode(State())
      modifies this
      ensures var pushed := Step(old(State()), LoopPush(task));
              State() == if old(isCallingPendingFunctors) then Step(pushed, LoopWake) else pushed
    {
      PushInLoop(task);
      if isCallingPendingFunctors {
        WakeInLoop();
      }
    }

    /** Its critical section and its test, between which and the signal other threads may
        run. */
    method PushInLoop(task: Task)
      requires InUserCode(State())
      modifies `pendingFunctors, `pushed, `loopOwes
      ensures State() == Step(old(State()), LoopPush(task))
    {
      PushPending(task);
      loopOwes := isCallingPendingFunctors;
    }

    method WakeInLoop()
      requires loopOwes
      modifies `wakeupFd, `loopOwes
      ensures State() == Step(old(State()), LoopWake)
    {
      Wakeup();
      loopOwes := false;
    }

    /** QueueInLoop called in thread t, as far as the end of the critical section; the
        second half is WakeupFrom. */
    method QueueFrom(t: Thread, task: Task)
      requires t !in owing
      modifies this
      ensures State() == Step(old(State()), Push(t, task))
    {
      PushPending(task);
      owing := owing + {t};
    }

    /** Stop called in thread t, as far as the store. */
    method StopFrom(t: Thread)
      requires t !in owing
      modifies `status, `owing
      ensures State() == Step(old(State()), StopBy(t))
    {
      status := Stopping;
      owing := owing + {t};
    }

    method WakeupFrom(t: Thread)
      requires t in owing
      modifies `wakeupFd, `owing
      ensures State() == Step(old(State()), WakeBy(t))
    {
      Wakeup();
      owing := owing - {t};
    }

    /** The wakeup channel's read callback. */
    method HandleRead()
      requires place == Dispatching(true)
      modifies `wakeupFd, `place
      ensures State() == Step(old(State()), Drain)
    {
      wakeupFd := 0;
      place := Dispatching(false);
    }

    /** What user code in the loop thread, or another thread meanwhile, does to the loop;
        an action that is not possible at the moment is not done. */
    method Act(e: Event) returns (ghost steps: seq<Event>)
      modifies this
      ensures RunEnabled(old(State()), steps) && State() == Run(old(State()), steps)
      ensures Stays(old(State()), State()) && (e.LoopWake? ==> !loopOwes)
    {
      steps := [];
      match e
      case Push(t, task) =>
        if t !in owing { RunShort(State(), e); QueueFrom(t, task); steps := [e]; }
      case StopBy(t) =>
        if t !in owing { RunShort(State(), e); StopFrom(t); steps := [e]; }
      case WakeBy(t) =>
        if t in owing { RunShort(State(), e); WakeupFrom(t); steps := [e]; }
      case LoopPush(task) =>
        if !loopOwes && UserCode(place) { RunShort(State(), e); PushInLoop(task); steps := [e]; }
      case LoopWake =>
        if loopOwes { RunShort(State(), e); WakeInLoop(); steps := [e]; }
      case LoopStop =>
        if !loopOwes && UserCode(place) { RunShort(State(), e); status := Stopping; steps := [e]; }
      case _ =>
    }

    /** Any number of actions, after which the loop thread has made its last signal. */
    method ActAll(actions: seq<Event>, ghost before: Loop, ghost sofar: seq<Event>) returns (ghost trace: seq<Event>)
      requires RunEnabled(before, sofar) && State() == Run(before, sofar)
      modifies this
      ensures RunEnabled(before, trace) && State() == Run(before, trace)
      ensures Stays(old(State()), State()) && !loopOwes
    {
      trace := sofar;
      for j := 0 to |actions|
        invariant RunEnabled(before, trace) && State() == Run(before, trace)
        invariant Stays(old(State()), State())
      {
        ghost var more := Act(actions[j]);
        RunAppend(before, trace, more);
        trace := trace + more;
      }
      ghost var last := Act(LoopWake);
      RunAppend(before, trace, last);
      trace := trace + last;
    }

    /** The flag of DoPendingFunctors goes up or down. */
    method SetCalling(on: bool)
      requires !loopOwes && if on then place == Dispatching(false) else place.RunningTasks? && functors == []
      modifies `isCallingPendingFunctors, `place
      ensures State() == Step(old(State()), if on then EndDispatch else EndTasks)
    {
      isCallingPendingFunctors := on;
      place := if on then AtSwap else AtCheck;
    }

    /** The swap at the head of DoPendingFunctors, under the mutex. */
    method TakePending()
      requires place.AtSwap?
      modifies `functors, `pendingFunctors, `place, `swapped
      ensures State() == Step(old(State()), Swap)
    {
      functors := pendingFunctors;
      pendingFunctors := [];
      place, swapped := RunningTasks, |pushed|;
    }

    method RunFirst()
      requires place.RunningTasks? && functors != [] && !loopOwes
      modifies `executed, `functors
      ensures State() == Step(old(State()), RunTask)
    {
      executed := executed + [functors[0]];
      functors := functors[1..];
    }

    /** The loop of DoPendingFunctors: other threads act before the first task, and after
        the start of each that task and other threads do. */
    method RunBatch(meanwhile: seq<seq<Event>>, ghost before: Loop, ghost sofar: seq<Event>)
      returns (ghost trace: seq<Event>)
      requires place.RunningTasks? && !loopOwes && RunEnabled(before, sofar) && State() == Run(before, sofar)
      modifies this
      ensures RunEnabled(before, trace) && State() == Run(before, trace)
      ensures place.RunningTasks? && !loopOwes && functors == [] && executed == old(executed) + old(functors)
    {
      var k := 0;
      trace := ActAll(if k < |meanwhile| then meanwhile[k] else [], before, sofar);
      while functors != []
        invariant place.RunningTasks? && !loopOwes && executed + functors == old(executed) + old(functors)
        invariant RunEnabled(before, trace) && State() == Run(before, trace)
        decreases |functors|
      {
        k := k + 1;
        trace := RunOne(if k < |meanwhile| then meanwhile[k] else [], before, trace);
      }
    }

    method RunOne(actions: seq<Event>, ghost before: Loop, ghost sofar: seq<Event>) returns (ghost trace: seq<Event>)
      requires place.RunningTasks? && functors != [] && !loopOwes
      requires RunEnabled(before, sofar) && State() == Run(before, sofar)
      modifies this
      ensures RunEnabled(before, trace) && State() == Run(before, trace)
      ensures place.RunningTasks? && !loopOwes && |functors| < old(|functors|)
      ensures executed + functors == old(executed) + old(functors)
    {
      RunShort(State(), RunTask);
      RunAppend(before, sofar, [RunTask]);
      FirstMoves(executed, functors);
      RunFirst();
      trace := ActAll(actions, before, sofar + [RunTask]);
    }

    /** DoPendingFunctors, with anything its tasks and other threads may do at every point:
        a run of the step system that executes exactly the tasks pending at the swap, in
        order; those are the tasks pending at the call and what other threads add until
        the swap. */
    method DoPendingFunctors(atSwap: seq<Event>, meanwhile: seq<seq<Event>>, ghost before: Loop, ghost sofar: seq<Event>)
      returns (ghost trace: seq<Event>, ghost taken: seq<Task>)
      requires place == Dispatching(false) && !loopOwes && RunEnabled(before, sofar) && State() == Run(before, sofar)
      modifies this
      ensures RunEnabled(before, trace) && State() == Run(before, trace)
      ensures place.AtCheck? && !isCallingPendingFunctors && !loopOwes && functors == []
      ensures executed == old(executed) + taken && old(pendingFunctors) <= taken
    {
      RunShort(State(), EndDispatch);
      RunAppend(before, sofar, [EndDispatch]);
      SetCalling(true);
      trace := ActAll(atSwap, before, sofar + [EndDispatch]);
      taken := pendingFunctors;
      RunShort(State(), Swap);
      RunAppend(before, trace, [Swap]);
      TakePending();
      trace := RunBatch(meanwhile, before, trace + [Swap]);
      RunShort(State(), EndTasks);
      RunAppend(before, trace, [EndTasks]);
      SetCalling(false);
      trace := trace + [EndTasks];
    }

    /** The poll, before which other threads may still act; `wake` if the eventfd is among
        the events. */
    method CheckAndPoll(atPoll: seq<Event>, wake: bool, ghost before: Loop, ghost sofar: seq<Event>)
      returns (ghost trace: seq<Event>)
      requires place.AtCheck? && status.Running? && !loopOwes && !isCallingPendingFunctors
      requires RunEnabled(before, sofar) && State() == Run(before, sofar)
      modifies this
      ensures RunEnabled(before, trace) && State() == Run(before, trace)
      ensures place == Dispatching(wake && wakeupFd > 0) && !loopOwes
    {
      RunShort(State(), Check);
      RunAppend(before, sofar, [Check]);
      place := AtPoll;
      trace := ActAll(atPoll, before, sofar + [Check]);
      ghost var e := PollReturns(wake && wakeupFd > 0);
      RunShort(State(), e);
      RunAppend(before, trace, [e]);
      place := Dispatching(wake && wakeupFd > 0);
      trace := trace + [e];
    }

    /** The event handlers: those before the eventfd's own, that one, and the rest. */
    method Dispatch(first: seq<Event>, handlers: seq<Event>, ghost before: Loop, ghost sofar: seq<Event>)
      returns (ghost trace: seq<Event>)
      requires place.Dispatching? && !loopOwes && RunEnabled(before, sofar) && State() == Run(before, sofar)
      modifies this
      ensures RunEnabled(before, trace) && State() == Run(before, trace)
      ensures place == Dispatching(false) && !loopOwes
    {
      trace := ActAll(first, before, sofar);
      if place.wake {
        RunShort(State(), Drain);
        RunAppend(before, trace, [Drain]);
        HandleRead();
        trace := trace + [Drain];
      }
      trace := ActAll(handlers, before, trace);
    }

    /** One turn of the loop in Run. */
    method Iterate(turn: Turn, ghost before: Loop, ghost sofar: seq<Event>) returns (ghost trace: seq<Event>)
      requires place.AtCheck? && status.Running? && !loopOwes && !isCallingPendingFunctors
      requires RunEnabled(before, sofar) && State() == Run(before, sofar)
      modifies this
      ensures RunEnabled(before, trace) && State() == Run(before, trace)
      ensures place.AtCheck? && !loopOwes && !isCallingPendingFunctors
    {
      trace := CheckAndPoll(turn.atPoll, turn.wake, before, sofar);
      trace := Dispatch(turn.first, turn.handlers, before, trace);
      ghost var taken;
      trace, taken := DoPendingFunctors(turn.atSwap, turn.meanwhile, before, trace);
      trace := ActAll(turn.atCheck, before, trace);
    }

    /** Run, as far as the given turns go: a run of the step system, which returns as
        soon as a check finds the status changed. */
    method RunLoop(entering: seq<Event>, turns: seq<Turn>) returns (ghost trace: seq<Event>)
      requires Outside(place) && !status.Running? && !loopOwes && !isCallingPendingFunctors
      modifies this
      ensures RunEnabled(old(State()), trace) && State() == Run(old(State()), trace)
      ensures if place.Left? then status.Stopped? else place.AtCheck? && status.Running?
    {
      ghost var before := State();
      RunShort(before, Enter);
      status, place := Starting, Entered;
      trace := ActAll(entering, before, [Enter]);
      RunShort(State(), StoreRunning);
      RunAppend(before, trace, [StoreRunning]);
      status, place := Running, AtCheck;
      trace := trace + [StoreRunning];
      var k := 0;
      while status.Running? && k < |turns|
        invariant place.AtCheck? && !loopOwes && !isCallingPendingFunctors
        invariant RunEnabled(before, trace) && State() == Run(before, trace)
      {
        trace := Iterate(turns[k], before, trace);
        k := k + 1;
      }
      if !status.Running? {
        RunShort(State(), Check);
        RunAppend(before, trace, [Check]);
        status := Stopped;
        place := Left;
        trace := trace + [Check];
      }
    }
  }

  /** What one turn of the loop meets: what other threads do between the check and the
      poll, whether the eventfd is reported, what the event handlers do before and after
      the eventfd's own, what happens before the swap, around each task, and before the
      next check. Other threads may be among the actions everywhere. */
  datatype Turn = Turn(
    atPoll: seq<Event>, wake: bool, first: seq<Event>, handlers: seq<Event>,
    atSwap: seq<Event>, meanwhile: seq<seq<Event>>, atCheck: seq<Event>)

  /** The loop thread has not moved, and no task was lost. */
  ghost predicate Stays(l: Loop, r: Loop) {
    && r.place == l.place && r.calling == l.calling
    && r.batch == l.batch && r.executed == l.executed && l.pending <= r.pending
  }

  lemma FirstMoves(done: seq<Task>, todo: seq<Task>)
    requires todo != []
    ensures done + [todo[0]] + todo[1..] == done + todo
  {
  }
}
