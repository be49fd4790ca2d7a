/** What was asked of AddTimer is what happens: over every run a timer keeps the interval
    it was made with, and is due when it should be. */
module TimerRequests {
  import opened TimerModel
  import opened TimerInvariant
  import opened TimerRuns
  import opened TimerBatches

  datatype Request = Request(when: int, interval: nat, repeat: bool)

  /** When a timer is next due, by the first k notes: as asked at first, then an interval
      after the time of the delivery that called it last. */
  function DueIn(log: seq<Note>, k: nat, s: nat, r: Request): int
    requires k <= |log|
  {
    if k == 0 then r.when
    else if IsCall(log[k - 1], s) then log[k - 1].now + r.interval
    else DueIn(log, k - 1, s, r)
  }

  function NextDue(log: seq<Note>, s: nat, r: Request): int { DueIn(log, |log|, s, r) }

  /** A call of the timer is with its interval, and at the time it was due. */
  predicate CallAsAsked(log: seq<Note>, k: nat, s: nat, r: Request)
    requires k < |log|
  {
    IsCall(log[k], s) ==>
      log[k].expiration == DueIn(log, k, s, r) && log[k].interval == r.interval && log[k].repeat == r.repeat
  }

  ghost predicate OnSchedule(log: seq<Note>, s: nat, r: Request) {
    forall k: nat {:trigger CallAsAsked(log, k, s, r)} :: k < |log| ==> CallAsAsked(log, k, s, r)
  }

  /** The timer as it is kept between its calls. */
  ghost predicate TimerAsAsked(q: Queue, s: nat, r: Request, a: Addr)
    requires a in q.heap
  {
    var t := q.heap[a];
    t.sequence == s ==>
      && t.interval == r.interval && t.repeat == r.repeat
      && if FiredInBatch(q, a) then Firings(q.log, s) > 0 && NextDue(q.log, s, r) == q.now + r.interval
         else t.expiration == NextDue(q.log, s, r)
  }

  ghost predicate AsAsked(q: Queue, s: nat, r: Request) {
    && s <= q.created && OnSchedule(q.log, s, r)
    && forall a {:trigger TimerAsAsked(q, s, r, a)} :: a in q.heap ==> TimerAsAsked(q, s, r, a)
  }

  lemma {:induction false} DuePrefix(log: seq<Note>, more: seq<Note>, k: nat, s: nat, r: Request)
    requires k <= |log|
    ensures DueIn(log + more, k, s, r) == DueIn(log, k, s, r)
  {
    if k > 0 {
      DuePrefix(log, more, k - 1, s, r);
    }
  }

  lemma AppendNote(log: seq<Note>, n: Note, s: nat, r: Request)
    requires OnSchedule(log, s, r)
    requires IsCall(n, s) ==> n.expiration == NextDue(log, s, r) && n.interval == r.interval && n.repeat == r.repeat
    ensures OnSchedule(log + [n], s, r)
    ensures NextDue(log + [n], s, r) == if IsCall(n, s) then n.now + r.interval else NextDue(log, s, r)
    ensures Firings(log + [n], s) == Firings(log, s) + if IsCall(n, s) then 1 else 0
  {
    DuePrefix(log, [n], |log|, s, r);
    FiringsSnoc(log, n, s);
    forall k: nat | k < |log + [n]| ensures CallAsAsked(log + [n], k, s, r) {
      if k < |log| {
        assert CallAsAsked(log, k, s, r);
        DuePrefix(log, [n], k, s, r);
      }
    }
  }

  lemma AskedFire(q: Queue, s: nat, r: Request)
    requires Inv(q) && AsAsked(q, s, r) && Enabled(q, Fire)
    ensures AsAsked(Step(q, Fire), s, r)
  {
    KeepFire(q);
    var p, a := FireNext(q), q.batch[q.next].addr;
    assert TimerAsAsked(q, s, r, a) && !FiredInBatch(q, a);
    AppendNote(q.log, p.log[|q.log|], s, r);
    assert FiredInBatch(p, a) by { assert p.batch[q.next].addr == a; }
    forall b | b in p.heap ensures TimerAsAsked(p, s, r, b) {
      assert TimerAsAsked(q, s, r, b);
      assert SameSequence(q, a, b) ==> a == b;
      assert b != a ==> (FiredInBatch(p, b) <==> FiredInBatch(q, b));
    }
  }

  lemma AskedReset(q: Queue, s: nat, r: Request)
    requires Inv(q) && AsAsked(q, s, r) && q.calling && q.batch != [] && q.next == |q.batch| && BatchOk(q, 0)
    ensures AsAsked(ResetOne(q), s, r)
  {
    var p, a := ResetOne(q), q.batch[0].addr;
    assert FiredInBatch(q, a) && TimerAsAsked(q, s, r, a);
    if a !in p.heap {
      AppendNote(q.log, Deleted(q.heap[a].sequence), s, r);
    } else {
      assert !FiredInBatch(p, a);
    }
    forall b | b in p.heap ensures TimerAsAsked(p, s, r, b) {
      assert TimerAsAsked(q, s, r, b);
      if b != a {
        FiredAfterReset(q, p, b);
      }
    }
  }

  lemma {:induction false} AskedResetAll(q: Queue, s: nat, r: Request)
    requires Inv(q) && AsAsked(q, s, r) && q.calling && q.next == |q.batch|
    ensures AsAsked(ResetAll(q), s, r)
    decreases |q.batch|
  {
    if q.batch != [] {
      KeepReset(q);
      AskedReset(q, s, r);
      AskedResetAll(ResetOne(q), s, r);
    }
  }

  /** Steps that leave this timer as it is. */
  lemma AskedQuiet(q: Queue, p: Queue, s: nat, r: Request)
    requires AsAsked(q, s, r) && p.created >= q.created
    requires p.log == q.log || exists d :: p.log == q.log + [Deleted(d)]
    requires forall a :: a in p.heap && p.heap[a].sequence == s ==>
               && a in q.heap && p.heap[a] == q.heap[a]
               && (FiredInBatch(p, a) <==> FiredInBatch(q, a)) && (FiredInBatch(p, a) ==> p.now == q.now)
    ensures AsAsked(p, s, r)
  {
    if p.log != q.log {
      var d :| p.log == q.log + [Deleted(d)];
      AppendNote(q.log, Deleted(d), s, r);
    }
    forall a | a in p.heap ensures TimerAsAsked(p, s, r, a) {
      assert a in q.heap ==> TimerAsAsked(q, s, r, a);
    }
  }

  lemma AskedStep(q: Queue, e: Event, s: nat, r: Request)
    requires Inv(q) && AsAsked(q, s, r) && Enabled(q, e)
    ensures AsAsked(Step(q, e), s, r)
  {
    var p := Step(q, e);
    match e
    case Fire => AskedFire(q, s, r);
    case End(_) =>
      AskedResetAll(q, s, r);
      AskedQuiet(ResetAll(q), p, s, r);
    case Cancel(id) =>
      if id in q.active {
        assert p.log == q.log + [Deleted(id.sequence)] by { assert IdOk(q, id); }
      }
      AskedQuiet(q, p, s, r);
    case _ => AskedQuiet(q, p, s, r);
  }

  lemma {:induction false} AskedRun(q: Queue, es: seq<Event>, s: nat, r: Request)
    requires Inv(q) && AsAsked(q, s, r) && RunEnabled(q, es)
    ensures AsAsked(Run(q, es), s, r)
    decreases |es|
  {
    if es != [] {
      AskedStep(q, es[0], s, r);
      AskedRun(Step(q, es[0]), es[1..], s, r);
    }
  }

  lemma {:induction false} FirstDue(log: seq<Note>, k: nat, s: nat, r: Request)
    requires k <= |log|
    ensures FiringsIn(log, k, s) == 0 ==> DueIn(log, k, s, r) == r.when
  {
    if k > 0 {
      FirstDue(log, k - 1, s, r);
    }
  }

  lemma {:induction false} NoFirings(log: seq<Note>, k: nat, s: nat)
    requires k <= |log| && forall n {:trigger n in log} :: n in log ==> n.sequence < s
    ensures FiringsIn(log, k, s) == 0
  {
    if k > 0 {
      assert log[k - 1] in log;
      NoFirings(log, k - 1, s);
    }
  }

  lemma NewTimerIsAsAsked(q: Queue, create: Event)
    requires Inv(q) && create.Create? && Enabled(q, create)
    ensures AsAsked(Step(q, create), q.created + 1, Request(create.when, create.interval, create.repeat))
  {
    var p, s, r := Step(q, create), q.created + 1, Request(create.when, create.interval, create.repeat);
    forall n | n in q.log ensures n.sequence < s {}
    NoFirings(q.log, |q.log|, s);
    FirstDue(q.log, |q.log|, s, r);
    forall k: nat | k < |p.log| ensures CallAsAsked(p.log, k, s, r) { assert p.log[k] in q.log; }
    forall i: nat | i < |q.batch| ensures q.batch[i].addr != create.addr { assert BatchOk(q, i); }
    forall a | a in p.heap ensures TimerAsAsked(p, s, r, a) {
      assert a in q.heap ==> LiveOk(q, a);
    }
  }

  /** After any run, a timer that AddTimer made and that is still live has the interval and
      the repetition it was asked for; until it is first called it is due when it was
      asked; and every call of it was made with that interval, for the time it was due:
      the time asked for at first, then an interval after the delivery before. */
  lemma TimerIsAsAsked(q: Queue, create: Event, es: seq<Event>, a: Addr)
    requires Inv(q) && create.Create? && Enabled(q, create) && RunEnabled(Step(q, create), es)
    ensures var p, s := Run(Step(q, create), es), q.created + 1;
            && OnSchedule(p.log, s, Request(create.when, create.interval, create.repeat))
            && (a in p.heap && p.heap[a].sequence == s ==>
                  && a == create.addr
                  && p.heap[a].interval == create.interval && p.heap[a].repeat == create.repeat
                  && (Firings(p.log, s) == 0 ==> p.heap[a].expiration == create.when))
  {
    var s, r := q.created + 1, Request(create.when, create.interval, create.repeat);
    NewTimerIsAsAsked(q, create);
    AskedRun(Step(q, create), es, s, r);
    NewIdIsGenuine(q, create);
    IdsAlongRuns(Step(q, create), es, Id(create.addr, s));
    var p := Run(Step(q, create), es);
    assert a in p.heap ==> TimerAsAsked(p, s, r, a);
    FirstDue(p.log, |p.log|, s, r);
  }

  /** So a timer that was asked to repeat, and is not cancelled while it is delivered, is
      queued again its own interval after the delivery; one that was not is deleted. */
  lemma AskedTimerRepeats(q: Queue, s: nat, r: Request, now: int, due: seq<Entry>, es: seq<Event>, clock: int, e: Entry)
    requires Inv(q) && AsAsked(q, s, r) && Enabled(q, Begin(now, due))
    requires e in due && e.addr in q.heap && q.heap[e.addr].sequence == s
    requires var b := Step(q, Begin(now, due)); RunEnabled(b, es) && Enabled(Run(b, es), End(clock))
    requires forall x :: x in es ==> WithinBatch(x)
    ensures var p := Step(Run(Step(q, Begin(now, due)), es), End(clock));
            if r.repeat && Cancel(Id(e.addr, s)) !in es
            then e.addr in p.heap && p.heap[e.addr].sequence == s && Entry(now + r.interval, e.addr) in p.timers
            else !Live(p, s)
  {
    assert TimerAsAsked(q, s, r, e.addr);
    RepeatsIffNotCancelled(q, now, due, es, clock, e);
  }

  /** A delivery at `now` calls a queued timer, exactly once, if and only if it is due. */
  lemma CalledIffDue(q: Queue, now: int, due: seq<Entry>, es: seq<Event>, e: Entry)
    requires Inv(q) && Enabled(q, Begin(now, due)) && e in q.timers && e.addr in q.heap
    requires var b := Step(q, Begin(now, due)); RunEnabled(b, es) && Enabled(Run(b, es), End(0))
    requires forall x :: x in es ==> WithinBatch(x)
    ensures var s := q.heap[e.addr].sequence;
            Firings(Run(Step(q, Begin(now, due)), es).log, s) == Firings(q.log, s) + if e.when <= now then 1 else 0
  {
    var b, s := Step(q, Begin(now, due)), q.heap[e.addr].sequence;
    OutstandingAreCalled(b, es, s);
    assert EntryOk(q, e);
    if e.when <= now {
      assert e in Expired(q.timers, now) && e in due;
      var i :| 0 <= i < |due| && due[i] == e;
      assert b.batch[i].addr in b.heap;
    } else {
      forall i: nat | i < |due| ensures due[i].addr in q.heap && q.heap[due[i].addr].sequence != s {
        assert due[i] in due && EntryOk(q, due[i]);
        assert !SameSequence(q, due[i].addr, e.addr);
      }
    }
  }
}
