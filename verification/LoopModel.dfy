/** `EventLoop` (evk/event_loop.cc): its task queue and wakeup protocol, as a step
    system in which other threads may run between any two steps of the loop. Pushing a
    task (or storing the status) and signalling are separate steps, and so are
    checking the status and polling. */
module LoopModel {
  import opened Common

  type Task = nat
  type Thread = nat

  datatype Status = Initialized | Starting | Running | Stopping | Stopped

  /** Where the loop thread is. */
  datatype Place =
    | BeforeRun                  // Run has not been called
    | Entered                    // has stored kStarting
    | AtCheck                    // at the loop condition
    | AtPoll                     // about to block in poll
    | Dispatching(wake: bool)    // handling events; `wake`: the wakeup event is still to come
    | AtSwap                     // DoPendingFunctors has set its flag
    | RunningTasks               // in the loop of DoPendingFunctors
    | Left                       // Run has returned; it may be called again

  datatype Loop = Loop(
    status: Status,
    pending: seq<Task>,
    calling: bool,               // is_calling_pending_functors_
    counter: nat,                // the eventfd
    place: Place,
    batch: seq<Task>,            // what is left of `functors`
    owing: set<Thread>,          // threads between their push or status store and Wakeup
    loopOwes: bool,              // the loop thread itself is there
    pushed: seq<Task>,           // every task, in the order of the pushes
    executed: seq<Task>,
    swapped: nat)                // how many tasks had been pushed at the last swap

  const INITIAL := Loop(Initialized, [], false, 0, BeforeRun, [], {}, false, [], [], 0)

  datatype Event =
    | Push(t: Thread, task: Task)        // another thread, under the mutex
    | StopBy(t: Thread)                  // another thread stores kStopping
    | WakeBy(t: Thread)                  // and signals
    | LoopPush(task: Task)               // QueueInLoop in the loop thread
    | LoopWake
    | LoopStop
    | Enter                              // Run: status_.store(kStarting)
    | StoreRunning
    | Check
    | PollReturns(wake: bool)
    | Drain                              // HandleRead on the eventfd
    | EndDispatch                        // is_calling_pending_functors_.store(true)
    | Swap
    | RunTask
    | EndTasks

  /** The loop thread is not in Run. */
  predicate Outside(p: Place) { p.BeforeRun? || p.Left? }

  /** User code is running in the loop thread. */
  predicate UserCode(p: Place) { Outside(p) || p.Dispatching? || p.RunningTasks? }

  predicate InUserCode(l: Loop) { !l.loopOwes && UserCode(l.place) }

  predicate Enabled(l: Loop, e: Event) {
    match e
    case Push(t, _) => t !in l.owing
    case StopBy(t) => t !in l.owing
    case WakeBy(t) => t in l.owing
    case LoopPush(_) => InUserCode(l)
    case LoopWake => l.loopOwes
    case LoopStop => InUserCode(l)
    case Enter => Outside(l.place) && !l.status.Running?
    case StoreRunning => l.place.Entered?
    case Check => l.place.AtCheck?
    case PollReturns(wake) => l.place.AtPoll? && (wake ==> l.counter > 0)
    case Drain => l.place == Dispatching(true)
    case EndDispatch => l.place == Dispatching(false) && !l.loopOwes
    case Swap => l.place.AtSwap?
    case RunTask => l.place.RunningTasks? && l.batch != [] && !l.loopOwes
    case EndTasks => l.place.RunningTasks? && l.batch == [] && !l.loopOwes
  }

  function PushTask(l: Loop, task: Task): Loop {
    l.(pending := l.pending + [task], pushed := l.pushed + [task])
  }

  function Step(l: Loop, e: Event): Loop
    requires Enabled(l, e)
  {
    match e
    case Push(t, task) => PushTask(l, task).(owing := l.owing + {t})
    case StopBy(t) => l.(status := Stopping, owing := l.owing + {t})
    case WakeBy(t) => l.(counter := l.counter + 1, owing := l.owing - {t})
    case LoopPush(task) => PushTask(l, task).(loopOwes := l.calling)
    case LoopWake => l.(counter := l.counter + 1, loopOwes := false)
    case LoopStop => l.(status := Stopping)
    case Enter => l.(status := Starting, place := Entered)
    case StoreRunning => l.(status := Running, place := AtCheck)
    case Check => if l.status.Running? then l.(place := AtPoll) else l.(status := Stopped, place := Left)
    case PollReturns(wake) => l.(place := Dispatching(wake))
    case Drain => l.(counter := 0, place := Dispatching(false))
    case EndDispatch => l.(calling := true, place := AtSwap)
    case Swap => l.(batch := l.pending, pending := [], place := RunningTasks, swapped := |l.pushed|)
    case RunTask => l.(executed := l.executed + [l.batch[0]], batch := l.batch[1..])
    case EndTasks => l.(calling := false, place := AtCheck)
  }

  ghost predicate RunEnabled(l: Loop, es: seq<Event>)
    decreases |es|
  { es == [] || (Enabled(l, es[0]) && RunEnabled(Step(l, es[0]), es[1..])) }

  ghost function Run(l: Loop, es: seq<Event>): Loop
    requires RunEnabled(l, es)
    decreases |es|
  { if es == [] then l else Run(Step(l, es[0]), es[1..]) }

  /** Runs compose. */
  lemma {:induction false} RunAppend(l: Loop, es: seq<Event>, more: seq<Event>)
    requires RunEnabled(l, es) && RunEnabled(Run(l, es), more)
    ensures RunEnabled(l, es + more) && Run(l, es + more) == Run(Run(l, es), more)
    decreases |es|
  {
    if es == [] {
      assert es + more == more;
    } else {
      assert (es + more)[1..] == es[1..] + more;
      RunAppend(Step(l, es[0]), es[1..], more);
    }
  }

  /** What one or two steps in a row amount to. */
  lemma RunShort(l: Loop, e: Event)
    requires Enabled(l, e)
    ensures RunEnabled(l, [e]) && Run(l, [e]) == Step(l, e)
    ensures forall f :: Enabled(Step(l, e), f) ==>
              RunEnabled(l, [e, f]) && Run(l, [e, f]) == Step(Step(l, e), f)
  {
    forall f | Enabled(Step(l, e), f)
      ensures RunEnabled(l, [e, f]) && Run(l, [e, f]) == Step(Step(l, e), f)
    {
      assert [e, f][1..] == [f];
      assert RunEnabled(Step(l, e), [f]) && Run(Step(l, e), [f]) == Step(Step(l, e), f);
    }
  }

  //
  // No wakeup is lost
  //

  predicate Signalled(l: Loop) { l.counter > 0 || l.owing != {} || l.loopOwes }

  /** Poll would block although there is work, and nobody is about to signal. */
  predicate Stuck(l: Loop) {
    l.place.AtPoll? && (l.pending != [] || l.status.Stopping?) && l.counter == 0 && l.owing == {}
  }

  /** The loop thread queues a task while it is not in Run: QueueInLoop does not signal. */
  predicate EarlyPush(l: Loop, e: Event) { e.LoopPush? && Outside(l.place) }

  /** Whether a task so queued still waits for a swap after the step. */
  predicate EarlyAfter(l: Loop, e: Event, early: bool) { !e.Swap? && (early || EarlyPush(l, e)) }

  ghost predicate Early(l: Loop, es: seq<Event>, early: bool)
    requires RunEnabled(l, es)
    decreases |es|
  { if es == [] then early else Early(Step(l, es[0]), es[1..], EarlyAfter(l, es[0], early)) }

  predicate Awake(l: Loop, early: bool) {
    && (l.calling <==> l.place.AtSwap? || l.place.RunningTasks?)
    && (l.loopOwes ==> l.place.RunningTasks?)
    && (early ==> l.pending != [])
    && (!l.place.Dispatching? && !l.place.AtSwap? && l.pending != [] ==> Signalled(l) || early)
    && (l.place.AtPoll? && l.status.Stopping? ==> Signalled(l))
    && (l.place.AtPoll? ==> l.status.Running? || l.status.Stopping?)
  }

  lemma AwakeStep(l: Loop, e: Event, early: bool)
    requires Awake(l, early) && Enabled(l, e)
    ensures Awake(Step(l, e), EarlyAfter(l, e, early))
  {
  }

  /** For all interleavings: whenever the loop is about to block with work to do, the
      eventfd is readable or another thread is about to make it so, except exactly when
      the loop thread queued a task outside Run, no swap has taken it yet, and nobody
      has signalled for another reason. */
  lemma {:induction false} NoLostWakeup(l: Loop, es: seq<Event>, early: bool)
    requires Awake(l, early) && RunEnabled(l, es)
    ensures Awake(Run(l, es), Early(l, es, early))
    ensures var r := Run(l, es);
            Stuck(r) <==> r.place.AtPoll? && Early(l, es, early) && r.counter == 0 && r.owing == {}
    decreases |es|
  {
    if es != [] {
      AwakeStep(l, es[0], early);
      NoLostWakeup(Step(l, es[0]), es[1..], EarlyAfter(l, es[0], early));
    }
  }

  /** Another thread has queued a task or stopped the loop. */
  predicate OthersAct(es: seq<Event>) {
    es != [] && (es[0].Push? || es[0].StopBy? || OthersAct(es[1..]))
  }

  /** The loop thread has queued a task. */
  predicate LoopPushes(es: seq<Event>) {
    es != [] && (es[0].LoopPush? || LoopPushes(es[1..]))
  }

  /** Before the first poll returns. */
  predicate NotPolled(l: Loop) {
    && !l.calling && !l.loopOwes
    && (Outside(l.place) || l.place.Entered? || l.place.AtCheck? || l.place.AtPoll?)
    && (!Outside(l.place) && l.status.Stopping? ==> l.place.Entered? || Signalled(l))
  }

  lemma {:induction false} BeforeFirstPoll(l: Loop, es: seq<Event>)
    requires NotPolled(l) && RunEnabled(l, es)
    requires forall wake :: PollReturns(wake) !in es
    ensures NotPolled(Run(l, es))
    ensures Signalled(Run(l, es)) <==> Signalled(l) || OthersAct(es)
    ensures Run(l, es).pending != [] <==> l.pending != [] || LoopPushes(es) || Run(l, es).pushed != l.pushed
    ensures l.pushed <= Run(l, es).pushed
    ensures Run(l, es).pushed != l.pushed ==> LoopPushes(es) || OthersAct(es)
    decreases |es|
  {
    if es != [] {
      BeforeFirstPoll(Step(l, es[0]), es[1..]);
    }
  }

  /** On the way to its first poll, whatever other threads do, the loop gets stuck if and
      only if its own thread has queued a task and no other thread has queued one or
      stopped the loop. */
  lemma StuckAtFirstPollIff(es: seq<Event>)
    requires RunEnabled(INITIAL, es) && Run(INITIAL, es).place.AtPoll?
    requires forall wake :: PollReturns(wake) !in es
    ensures Stuck(Run(INITIAL, es)) <==> LoopPushes(es) && !OthersAct(es)
  {
    BeforeFirstPoll(INITIAL, es);
  }

  /** The shortest such run: it polls with a task pending and nobody about to signal. */
  lemma PushBeforeRunGetsStuck(task: Task)
    ensures var es := [LoopPush(task), Enter, StoreRunning, Check];
            RunEnabled(INITIAL, es) && Stuck(Run(INITIAL, es)) && Run(INITIAL, es).pending == [task]
  {
    var es := [LoopPush(task), Enter, StoreRunning, Check];
    var l := Step(INITIAL, LoopPush(task));
    assert es[1..] == [Enter, StoreRunning, Check] && es[1..][1..] == [StoreRunning, Check];
    assert [StoreRunning, Check][1..] == [Check] && [Check][1..] == [];
    RunShort(Step(l, Enter), StoreRunning);
    assert RunEnabled(l, es[1..]) && Run(l, es[1..]) == l.(status := Running, place := AtPoll);
  }

  //
  // The eventfd
  //

  function Bit(b: bool): nat { if b then 1 else 0 }

  /** The signals made. */
  function Signals(es: seq<Event>): nat {
    if es == [] then 0 else Bit(es[0].WakeBy? || es[0].LoopWake?) + Signals(es[1..])
  }

  /** How often the wakeup handler ran. */
  function Drains(es: seq<Event>): nat {
    if es == [] then 0 else Bit(es[0].Drain?) + Drains(es[1..])
  }

  lemma {:induction false} CounterCountsSignals(l: Loop, es: seq<Event>)
    requires RunEnabled(l, es) && Drain !in es
    ensures Run(l, es).counter == l.counter + Signals(es)
    decreases |es|
  {
    if es != [] {
      CounterCountsSignals(Step(l, es[0]), es[1..]);
    }
  }

  /** After the wakeup handler has run the counter is the signals made since, so a wakeup
      is reported again only if there was one. */
  lemma WakeupAnswersASignal(l: Loop, es: seq<Event>)
    requires Enabled(l, Drain) && RunEnabled(Step(l, Drain), es) && Drain !in es
    ensures Run(Step(l, Drain), es).counter == Signals(es)
    ensures Enabled(Run(Step(l, Drain), es), PollReturns(true)) ==> Signals(es) > 0
  {
    CounterCountsSignals(Step(l, Drain), es);
  }

  /** In every run the wakeup handler runs at most once for each signal: a loop that nobody
      signals is not woken. */
  lemma {:induction false} WakeupsAreEarned(l: Loop, es: seq<Event>)
    requires RunEnabled(l, es) && (l.place == Dispatching(true) ==> l.counter > 0)
    ensures Drains(es) + Bit(Run(l, es).counter > 0) <= Signals(es) + Bit(l.counter > 0)
    decreases |es|
  {
    if es != [] {
      WakeupsAreEarned(Step(l, es[0]), es[1..]);
    }
  }

  //
  // The status
  //

  /** What a stop has not overwritten says where the loop is. */
  predicate StatusOk(l: Loop) {
    l.status.Stopping? || match l.place
                          case BeforeRun => l.status.Initialized?
                          case Entered => l.status.Starting?
                          case Left => l.status.Stopped?
                          case _ => l.status.Running?
  }

  lemma {:induction false} StatusFollowsPlace(l: Loop, es: seq<Event>)
    requires RunEnabled(l, es) && StatusOk(l)
    ensures StatusOk(Run(l, es))
    decreases |es|
  {
    if es != [] {
      StatusFollowsPlace(Step(l, es[0]), es[1..]);
    }
  }

  //
  // Stop
  //

  /** The check at which Run returns. */
  predicate Returns(l: Loop, e: Event) { e.Check? && l.place.AtCheck? && !l.status.Running? }

  ghost predicate NoReturn(l: Loop, es: seq<Event>)
    requires RunEnabled(l, es)
    decreases |es|
  { es == [] || (!Returns(l, es[0]) && NoReturn(Step(l, es[0]), es[1..])) }

  /** A stop stored once kRunning is stored is never overwritten: the loop does not poll
      again before Run returns. */
  lemma {:induction false} StopSticks(l: Loop, es: seq<Event>)
    requires RunEnabled(l, es) && NoReturn(l, es)
    requires !Outside(l.place) && !l.place.Entered? && l.status.Stopping?
    ensures Run(l, es).status.Stopping? && !Outside(Run(l, es).place)
    ensures Run(l, es).place.AtPoll? ==> l.place.AtPoll?
    decreases |es|
  {
    if es != [] {
      StopSticks(Step(l, es[0]), es[1..]);
    }
  }

  predicate Stops(es: seq<Event>) { es != [] && (es[0].StopBy? || es[0].LoopStop? || Stops(es[1..])) }

  lemma {:induction false} OutsideAfterReturn(l: Loop, es: seq<Event>)
    requires RunEnabled(l, es) && Enter !in es && l.place.Left? && (l.status.Stopped? || l.status.Stopping?)
    ensures Run(l, es).place.Left?
    ensures Run(l, es).status == if Stops(es) then Stopping else l.status
    decreases |es|
  {
    if es != [] {
      OutsideAfterReturn(Step(l, es[0]), es[1..]);
    }
  }

  /** The destructor asserts kStopped. Once Run has returned, and until it is called
      again, that holds if and only if nobody has called Stop since. */
  lemma StoppedAfterReturnIff(l: Loop, es: seq<Event>)
    requires Enabled(l, Check) && Returns(l, Check) && RunEnabled(Step(l, Check), es) && Enter !in es
    ensures var r := Run(Step(l, Check), es);
            r.place.Left? && (r.status.Stopped? <==> !Stops(es))
  {
    OutsideAfterReturn(Step(l, Check), es);
  }

  ghost predicate PollsBeforeReturn(l: Loop, es: seq<Event>) {
    RunEnabled(l, es) && NoReturn(l, es) && Run(l, es).place.AtPoll?
  }

  /** One stored before that is overwritten by Run. So after Stop the loop may poll again
      before Run returns if and only if Stop came while the loop thread was not in Run,
      or between its stores of kStarting and kRunning. */
  lemma StopIsLostIff(l: Loop, e: Event)
    requires (e.StopBy? || e.LoopStop?) && Enabled(l, e) && !l.place.AtPoll?
    ensures (exists es :: PollsBeforeReturn(Step(l, e), es)) <==> Outside(l.place) || l.place.Entered?
  {
    var s := Step(l, e);
    var tail := [StoreRunning, Check];
    if l.place.Entered? {
      assert tail[1..] == [Check];
      assert PollsBeforeReturn(s, tail);
    } else if Outside(l.place) {
      var es := [Enter] + tail;
      assert es[1..] == tail && tail[1..] == [Check];
      assert PollsBeforeReturn(Step(s, Enter), tail);
      assert PollsBeforeReturn(s, es);
    } else {
      forall es | RunEnabled(s, es) && NoReturn(s, es) ensures !Run(s, es).place.AtPoll? {
        StopSticks(s, es);
      }
    }
  }

  //
  // Tasks are conserved and run in order
  //

  /** Executed, batch and pending are the pushes, in order; a batch is what had been
      pushed at its swap, so a task queued by a task is in a later one. */
  predicate Conserved(l: Loop) {
    && l.executed + l.batch + l.pending == l.pushed
    && |l.executed| + |l.batch| == l.swapped
    && (!l.place.RunningTasks? ==> l.batch == [])
  }

  lemma ConservedStep(l: Loop, e: Event)
    requires Conserved(l) && Enabled(l, e)
    ensures Conserved(Step(l, e))
  {
    match e
    case RunTask => assert [l.batch[0]] + l.batch[1..] == l.batch;
    case _ =>
  }

  /** The tasks queued, by whichever thread, in order. */
  function PushesOf(es: seq<Event>): seq<Task> {
    if es == [] then []
    else (if es[0].Push? || es[0].LoopPush? then [es[0].task] else []) + PushesOf(es[1..])
  }

  lemma {:induction false} PushedAreThePushes(l: Loop, es: seq<Event>)
    requires RunEnabled(l, es)
    ensures Run(l, es).pushed == l.pushed + PushesOf(es)
    decreases |es|
  {
    if es == [] {
      assert l.pushed + [] == l.pushed;
    } else {
      var first := if es[0].Push? || es[0].LoopPush? then [es[0].task] else [];
      assert Step(l, es[0]).pushed == l.pushed + first;
      PushedAreThePushes(Step(l, es[0]), es[1..]);
      Append3(l.pushed, first, PushesOf(es[1..]));
    }
  }

  /** For all interleavings of producers, and tasks that queue tasks. */
  lemma {:induction false} TasksRunOnceInOrder(l: Loop, es: seq<Event>)
    requires Conserved(l) && RunEnabled(l, es)
    ensures Conserved(Run(l, es))
    ensures Run(l, es).executed <= Run(l, es).pushed
    decreases |es|
  {
    if es != [] {
      ConservedStep(l, es[0]);
      TasksRunOnceInOrder(Step(l, es[0]), es[1..]);
    }
  }

  lemma BatchStep(l: Loop, e: Event)
    requires Enabled(l, e) && !e.Swap?
    ensures l.pending <= Step(l, e).pending
    ensures Step(l, e).executed + Step(l, e).batch == l.executed + l.batch
  {
    if e.RunTask? {
      assert [l.batch[0]] + l.batch[1..] == l.batch;
    }
  }

  /** No task pending now is run before the next swap: in particular a task queued by a
      task of the current batch, or by another thread meanwhile, waits for a later one. */
  lemma {:induction false} PendingWaitsForSwap(l: Loop, es: seq<Event>)
    requires RunEnabled(l, es) && Swap !in es
    ensures l.pending <= Run(l, es).pending
    ensures Run(l, es).executed + Run(l, es).batch == l.executed + l.batch
    decreases |es|
  {
    if es != [] {
      BatchStep(l, es[0]);
      PendingWaitsForSwap(Step(l, es[0]), es[1..]);
    }
  }

  /** The promises together, for every run of a new loop. */
  lemma LoopIsSound(es: seq<Event>)
    requires RunEnabled(INITIAL, es)
    ensures Run(INITIAL, es).pushed == PushesOf(es) && Run(INITIAL, es).executed <= PushesOf(es)
    ensures Drains(es) <= Signals(es)
    ensures Stuck(Run(INITIAL, es)) ==> Early(INITIAL, es, false)
  {
    TasksRunOnceInOrder(INITIAL, es);
    NoLostWakeup(INITIAL, es, false);
    PushedAreThePushes(INITIAL, es);
    assert [] + PushesOf(es) == PushesOf(es);
    WakeupsAreEarned(INITIAL, es);
  }
}
