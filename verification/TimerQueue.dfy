/** `TimerQueue` (evk/timer_queue.cc): the methods, each tied to its step. */
module TimerQueues {
  import opened TimerModel
  import opened TimerInvariant

  /** *timers.begin() */
  method First(timers: set<Entry>) returns (first: Entry)
    requires timers != {}
    ensures first in timers && forall e :: e in timers && e != first ==> Less(first, e)
  {
    first :| first in timers;
    var rest := timers - {first};
    while rest != {}
      invariant rest <= timers && first in timers
      invariant forall e :: e in timers && e !in rest && e != first ==> Less(first, e)
      decreases rest
    {
      var e :| e in rest;
      if Less(e, first) {
        first := e;
      }
      rest := rest - {e};
    }
  }

  /** Copies the elements before lower_bound((when, addr)), in set order. */
  method Before(timers: set<Entry>, when: int, addr: nat) returns (es: seq<Entry>)
    ensures Listing(es, set e | e in timers && Precedes(e, when, addr))
  {
    es := [];
    var rest := timers;
    while rest != {}
      invariant rest <= timers
      invariant forall i, j :: 0 <= i < j < |es| ==> Less(es[i], es[j])
      invariant forall e :: e in es <==> e in timers && e !in rest
      invariant forall i, e :: 0 <= i < |es| && e in rest ==> Less(es[i], e)
      invariant forall e :: e in es ==> Precedes(e, when, addr)
      decreases rest
    {
      var first := First(rest);
      if !Precedes(first, when, addr) {
        return;
      }
      es := es + [first];
      rest := rest - {first};
    }
  }

  class TimerQueue {
    var timers: set<Entry>
    var active: set<Id>
    var canceling: set<Id>
    var isCallingExpiredTimers: bool
    /** The allocator: InvokeTimer objects by address, and InvokeTimer::num_created_. */
    var heap: map<Addr, Timer>
    var numCreated: nat
    /** The kernel's timerfd. */
    var alarm: Alarm
    /** Timers whose AddTimerInLoop is queued on the loop. */
    var transit: set<Addr>
    /** The locals of a HandleRead in progress. */
    var expired: seq<Entry>
    var called: nat
    var now: int
    ghost var log: seq<Note>

    ghost function State(): Queue
      reads this
    {
      Queue(heap, transit, timers, active, canceling, isCallingExpiredTimers, expired, called, now,
            numCreated, alarm, log)
    }

    constructor ()
      ensures State() == EMPTY
    {
      timers, active, canceling, isCallingExpiredTimers := {}, {}, {}, false;
      heap, numCreated, alarm, transit := map[], 0, Off, {};
      expired, called, now, log := [], 0, 0, [];
    }

    /** The part of AddTimer that runs in the caller's thread; `addr` is where the
        allocator puts the new timer. */
    method AddTimer(addr: Addr, when: int, interval: nat, repeat: bool) returns (id: Id)
      requires Inv(State()) && addr !in heap
      modifies this
      ensures State() == Step(old(State()), Create(addr, when, interval, repeat)) && Inv(State())
      ensures id == Id(addr, numCreated) && numCreated == old(numCreated) + 1
      ensures heap == old(heap)[addr := Timer(when, interval, repeat, numCreated)] && addr in transit
      ensures forall a :: a in heap && heap[a].sequence == id.sequence ==> a == addr
    {
      ghost var before := State();
      numCreated := numCreated + 1;
      heap := heap[addr := Timer(when, interval, repeat, numCreated)];
      transit := transit + {addr};
      id := Id(addr, numCreated);
      assert State() == Step(before, Create(addr, when, interval, repeat));
      assert LiveOk(State(), addr);
      forall a | a in heap && heap[a].sequence == id.sequence ensures a == addr {
        assert SameSequence(State(), a, addr);
      }
    }

    /** Duration(double): whole nanoseconds, cut off. */
    static function Nanoseconds(seconds: real): (ns: nat)
      requires seconds >= 0.0
      ensures ns as real <= seconds * 1_000_000_000.0 < ns as real + 1.0
    { (seconds * 1_000_000_000.0).Floor }

    /** EventLoop::RunAt: interval 0.0, so the timer fires once. */
    method RunAt(addr: Addr, time: int) returns (id: Id)
      requires Inv(State()) && addr !in heap
      modifies this
      ensures Inv(State()) && State() == Step(old(State()), Create(addr, time, 0, false))
      ensures id.addr == addr && heap == old(heap)[addr := Timer(time, 0, false, id.sequence)]
    {
      id := AddTimer(addr, time, 0, false);
    }

    /** EventLoop::RunEvery, for an interval that is not negative: the timer repeats if it
        is positive, for the first time one interval from now. */
    method RunEvery(addr: Addr, now: int, seconds: real) returns (id: Id)
      requires Inv(State()) && addr !in heap && seconds >= 0.0
      modifies this
      ensures Inv(State())
      ensures State() == Step(old(State()), Create(addr, now + Nanoseconds(seconds), Nanoseconds(seconds), seconds > 0.0))
      ensures id.addr == addr && addr in heap && heap[addr].sequence == id.sequence
      ensures heap[addr].repeat <==> seconds > 0.0
      ensures heap[addr].expiration - now == heap[addr].interval == Nanoseconds(seconds)
    {
      id := AddTimer(addr, now + Nanoseconds(seconds), Nanoseconds(seconds), seconds > 0.0);
    }

    method Insert(a: Addr) returns (earliestChanged: bool)
      requires a in heap && Entry(heap[a].expiration, a) !in timers && Id(a, heap[a].sequence) !in active
      requires |timers| == |active|
      modifies `timers, `active
      ensures State() == TimerModel.Insert(old(State()), a)
      ensures earliestChanged <==> EarliestChanged(old(timers), heap[a].expiration)
      ensures |timers| == |active|
    {
      var when := heap[a].expiration;
      earliestChanged := false;
      if timers == {} {
        earliestChanged := true;
      } else {
        var first := First(timers);
        if when < first.when {
          earliestChanged := true;
        }
      }
      timers := timers + {Entry(when, a)};
      active := active + {Id(a, heap[a].sequence)};
    }

    method ResetTimerfd(when: int, clock: int)
      modifies `alarm
      ensures State() == Arm(old(State()), when, clock)
      ensures alarm == Armed(if when - clock < 100_000 then clock + 100_000 else when, clock)
    {
      var nanoseconds := when - clock;
      if nanoseconds < SLACK {
        nanoseconds := SLACK;
      }
      alarm := Armed(clock + nanoseconds, clock);
    }

    method AddTimerInLoop(a: Addr, clock: int)
      requires Inv(State()) && a in transit
      modifies `timers, `active, `alarm, `transit
      ensures State() == Step(old(State()), Add(a, clock)) && Inv(State())
    {
      ghost var before := State();
      SizesAgree(before);
      assert Entry(heap[a].expiration, a) in timers ==> EntryOk(before, Entry(heap[a].expiration, a));
      assert Id(a, heap[a].sequence) in active ==> IdOk(before, Id(a, heap[a].sequence));
      transit := transit - {a};
      var earliestChanged := Insert(a);
      if earliestChanged {
        ResetTimerfd(heap[a].expiration, clock);
      }
      assert State() == Step(before, Add(a, clock));
    }

    method CancelInLoop(id: Id)
      requires Inv(State())
      modifies this
      ensures State() == Step(old(State()), Cancel(id)) && Inv(State())
    {
      ghost var before := State();
      if id in active {
        assert IdOk(before, id);
        var entry := Entry(heap[id.addr].expiration, id.addr);
        assert entry in timers;
        timers := timers - {entry};
        log := log + [Deleted(heap[id.addr].sequence)];
        heap := heap - {id.addr};
        active := active - {id};
      } else if isCallingExpiredTimers {
        canceling := canceling + {id};
      }
      assert State() == Step(before, Cancel(id));
    }

    /** Moves out exactly the timers due at `t`, in order of time and address. */
    method GetExpired(t: int) returns (es: seq<Entry>)
      requires Inv(State())
      modifies `timers, `active
      ensures forall i, j :: 0 <= i < j < |es| ==> Less(es[i], es[j])
      ensures forall e :: e in es <==> e in old(timers) && e.when <= t
      ensures forall e :: e in timers <==> e in old(timers) && e.when > t
      ensures active == old(active) - IdsOf(heap, es)
    {
      ghost var before, due := State(), Expired(timers, t);
      es := Before(timers, t, ADDRESS_MAX);
      assert (set e | e in timers && Precedes(e, t, ADDRESS_MAX)) == due;
      timers := set e | e in timers && e !in es;
      assert timers == old(timers) - due;
      for k := 0 to |es|
        invariant timers == old(timers) - due
        invariant active == old(active) - IdsOf(heap, es[..k])
      {
        assert es[k] in es && EntryOk(before, es[k]);
        var id := Id(es[k].addr, heap[es[k].addr].sequence);
        assert id in active by { StillActive(before, es, k); }
        active := active - {id};
        assert IdsOf(heap, es[..k + 1]) == IdsOf(heap, es[..k]) + {id};
      }
      assert es[..|es|] == es;
    }

    /** HandleRead up to the first callback. */
    method BeginHandleRead(t: int)
      requires Inv(State()) && !isCallingExpiredTimers
      modifies this
      ensures Enabled(old(State()), Begin(t, expired))
      ensures State() == Step(old(State()), Begin(t, expired)) && Inv(State())
    {
      ghost var before := State();
      alarm := Off;
      KeepAside(before, State());
      var es := GetExpired(t);
      StartCalling(t, es);
      assert State() == BeginBatch(before, t, es);
      KeepBegin(before, t, es);
    }

    method StartCalling(t: int, es: seq<Entry>)
      modifies `now, `isCallingExpiredTimers, `canceling, `expired, `called
      ensures State() == old(State()).(calling := true, canceling := {}, batch := es, next := 0, now := t)
    {
      isCallingExpiredTimers := true;
      canceling := {};
      now, expired, called := t, es, 0;
    }

    /** One turn of the callback loop in HandleRead: the timer is still allocated. */
    method CallNext()
      requires Inv(State()) && isCallingExpiredTimers && called < |expired|
      modifies `called, `log
      ensures State() == Step(old(State()), Fire) && Inv(State())
    {
      ghost var before := State();
      assert BatchOk(before, called);
      var t := heap[expired[called].addr];
      log := log + [Fired(t.sequence, now, t.expiration, t.interval, t.repeat)];
      called := called + 1;
      assert State() == Step(before, Fire);
    }

    /** The rest of HandleRead: every timer of the batch is queued again or deleted,
        and the timerfd is set for the next one. */
    method Reset(clock: int)
      requires Inv(State()) && isCallingExpiredTimers && called == |expired|
      modifies this
      ensures State() == Step(old(State()), End(clock)) && Inv(State())
    {
      ghost var before := State();
      while expired != []
        invariant Inv(State()) && isCallingExpiredTimers && called == |expired|
        invariant ResetAll(State()) == ResetAll(before)
        decreases |expired|
      {
        ResetFirst();
      }
      isCallingExpiredTimers := false;
      SetNext(clock);
      assert State() == EndBatch(before, clock);
    }

    /** Sets the timerfd for the first timer, if its expiration is valid. */
    method SetNext(clock: int)
      modifies `alarm
      ensures State() == Rearm(old(State()), clock)
    {
      if timers != {} {
        var first := First(timers);
        if first.when > 0 {
          ResetTimerfd(first.when, clock);
        }
      }
    }

    method ResetFirst()
      requires Inv(State()) && isCallingExpiredTimers && called == |expired| && expired != []
      modifies this
      ensures BatchOk(old(State()), 0) && State() == ResetOne(old(State())) && Inv(State())
    {
      ghost var before := State();
      KeepReset(before);
      SizesAgree(before);
      var a := expired[0].addr;
      var t := heap[a];
      expired := expired[1..];
      called := called - 1;
      if t.repeat && Id(a, t.sequence) !in canceling {
        heap := heap[a := t.(expiration := now + t.interval)];
        assert Entry(now + t.interval, a) in timers ==> EntryOk(before, Entry(now + t.interval, a));
        var _ := Insert(a);
      } else {
        log := log + [Deleted(t.sequence)];
        heap := heap - {a};
      }
    }

    /** Something a callback does to the queue; an action whose moment has not come (an
        address in use, a timer not in transit) is not done. */
    method Act(e: Event) returns (done: bool)
      requires Inv(State())
      modifies this
      ensures done ==> Enabled(old(State()), e) && State() == Step(old(State()), e)
      ensures !done ==> State() == old(State())
      ensures isCallingExpiredTimers == old(isCallingExpiredTimers) && Inv(State())
      ensures expired == old(expired) && called == old(called)
    {
      done := false;
      match e
      case Create(a, when, interval, repeat) =>
        if a !in heap {
          var _ := AddTimer(a, when, interval, repeat);
          done := true;
        }
      case Add(a, clock) =>
        if a in transit {
          AddTimerInLoop(a, clock);
          done := true;
        }
      case Cancel(id) =>
        CancelInLoop(id);
        done := true;
      case _ =>
    }

    /** The whole of HandleRead, with callbacks that add and cancel timers: a run of the
        step system from `Begin` to `End` in which the batch is called once each. */
    method HandleRead(t: int, clock: int, callbacks: seq<seq<Event>>) returns (ghost trace: seq<Event>)
      requires Inv(State()) && !isCallingExpiredTimers
      modifies this
      ensures Inv(State()) && !isCallingExpiredTimers && expired == []
      ensures RunEnabled(old(State()), trace) && State() == Run(old(State()), trace)
      ensures |trace| >= 2 && trace[0].Begin? && trace[0].now == t && trace[|trace| - 1] == End(clock)
    {
      ghost var before := State();
      BeginHandleRead(t);
      ghost var begin := Begin(t, expired);
      trace := [begin];
      while called < |expired|
        invariant Inv(State()) && isCallingExpiredTimers && called <= |expired|
        invariant RunEnabled(before, trace) && State() == Run(before, trace)
        invariant [begin] <= trace
        decreases |expired| - called
      {
        trace := CallWith(if called < |callbacks| then callbacks[called] else [], before, trace);
      }
      Reset(clock);
      RunSnoc(before, trace, End(clock));
      trace := trace + [End(clock)];
    }

    /** The next timer is called, and its callback acts. */
    method CallWith(actions: seq<Event>, ghost before: Queue, ghost sofar: seq<Event>) returns (ghost trace: seq<Event>)
      requires Inv(State()) && isCallingExpiredTimers && called < |expired|
      requires Inv(before) && RunEnabled(before, sofar) && State() == Run(before, sofar)
      modifies this
      ensures Inv(State()) && isCallingExpiredTimers && expired == old(expired) && called == old(called) + 1
      ensures sofar <= trace && RunEnabled(before, trace) && State() == Run(before, trace)
    {
      CallNext();
      RunSnoc(before, sofar, Fire);
      trace := sofar + [Fire];
      for j := 0 to |actions|
        invariant Inv(State()) && isCallingExpiredTimers && expired == old(expired) && called == old(called) + 1
        invariant sofar <= trace && RunEnabled(before, trace) && State() == Run(before, trace)
      {
        var done := Act(actions[j]);
        if done {
          RunSnoc(before, trace, actions[j]);
          trace := trace + [actions[j]];
        }
      }
    }
  }
}
