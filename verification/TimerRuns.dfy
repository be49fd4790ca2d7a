/** What holds of the timer queue over whole runs: who fires when, what a cancel does,
    and that the timerfd is always set early enough. */
module TimerRuns {
  import opened Common
  import opened TimerModel
  import opened TimerInvariant

  //
  // Firings and deletions
  //

  /** Two notes on one timer: the first is a firing, and if the second is one too, the
      timer repeats and its interval has passed between the two batches. */
  ghost predicate Follows(m: Note, n: Note) {
    m.sequence == n.sequence ==>
      m.Fired? && (n.Fired? ==> m.repeat && m.now + m.interval <= n.now)
  }

  /** No timer fires early, none fires again too soon or, being one-shot, at all; none
      is deleted twice or fires after its deletion. */
  ghost predicate WellBehaved(log: seq<Note>) {
    && (forall i :: 0 <= i < |log| && log[i].Fired? ==> log[i].expiration <= log[i].now)
    && (forall i, j :: 0 <= i < j < |log| ==> Follows(log[i], log[j]))
  }

  ghost predicate FiredInBatch(q: Queue, a: Addr) {
    exists i :: 0 <= i < q.next && i < |q.batch| && q.batch[i].addr == a
  }

  /** How the past firings of a live timer bound its next one. */
  ghost predicate NoteOk(q: Queue, a: Addr, n: Note)
    requires a in q.heap
  {
    var t := q.heap[a];
    n.sequence == t.sequence ==>
      && n.Fired? && n.interval == t.interval && n.repeat == t.repeat
      && if FiredInBatch(q, a) then n.now <= q.now else n.repeat && n.now + n.interval <= t.expiration
  }

  ghost predicate LogOk(q: Queue) {
    && WellBehaved(q.log)
    && forall a, n {:trigger NoteOk(q, a, n)} :: a in q.heap && n in q.log ==> NoteOk(q, a, n)
  }

  lemma AppendNote(log: seq<Note>, n: Note)
    requires WellBehaved(log) && (n.Fired? ==> n.expiration <= n.now)
    requires forall m :: m in log ==> Follows(m, n)
    ensures WellBehaved(log + [n])
  {
  }

  lemma LogFire(q: Queue)
    requires Inv(q) && LogOk(q) && q.calling && q.next < |q.batch| && BatchOk(q, q.next)
    ensures LogOk(FireNext(q))
  {
    var r := FireNext(q);
    var a := q.batch[q.next].addr;
    var n := r.log[|q.log|];
    assert !FiredInBatch(q, a);
    forall m | m in q.log ensures Follows(m, n) { assert NoteOk(q, a, m); }
    AppendNote(q.log, n);
    assert FiredInBatch(r, a) by { assert r.batch[q.next].addr == a; }
    forall b, m | b in r.heap && m in r.log ensures NoteOk(r, b, m) {
      if m in q.log {
        assert NoteOk(q, b, m);
        assert b != a ==> (FiredInBatch(r, b) <==> FiredInBatch(q, b));
      }
      assert SameSequence(q, a, b) ==> a == b;
    }
  }

  lemma LogReset(q: Queue)
    requires Inv(q) && LogOk(q) && q.calling && q.batch != [] && q.next == |q.batch| && BatchOk(q, 0)
    ensures LogOk(ResetOne(q))
  {
    var r := ResetOne(q);
    var a := q.batch[0].addr;
    assert FiredInBatch(q, a);
    if a in r.heap {
      assert r.log == q.log;
      assert !FiredInBatch(r, a);
    } else {
      var n := r.log[|q.log|];
      forall m | m in q.log ensures Follows(m, n) { assert NoteOk(q, a, m); }
      AppendNote(q.log, n);
    }
    forall b, m | b in r.heap && m in r.log ensures NoteOk(r, b, m) {
      if b != a {
        FiredAfterReset(q, r, b);
      }
      assert m in q.log ==> NoteOk(q, b, m);
      assert SameSequence(q, a, b) ==> a == b;
    }
  }

  lemma FiredAfterReset(q: Queue, r: Queue, b: Addr)
    requires q.batch != [] && q.next == |q.batch| && q.batch[0].addr != b
    requires r.batch == q.batch[1..] && r.next == q.next - 1
    ensures FiredInBatch(r, b) <==> FiredInBatch(q, b)
  {
    if FiredInBatch(q, b) {
      var i :| 0 <= i < q.next && i < |q.batch| && q.batch[i].addr == b;
      assert r.batch[i - 1].addr == b;
    }
    if FiredInBatch(r, b) {
      var i :| 0 <= i < r.next && i < |r.batch| && r.batch[i].addr == b;
      assert q.batch[i + 1].addr == b;
    }
  }

  lemma {:induction false} LogResetAll(q: Queue)
    requires Inv(q) && LogOk(q) && q.calling && q.next == |q.batch|
    ensures LogOk(ResetAll(q))
    decreases |q.batch|
  {
    if q.batch != [] {
      KeepReset(q);
      LogReset(q);
      LogResetAll(ResetOne(q));
    }
  }

  /** Steps that neither fire, delete nor reschedule keep the log's promises. */
  lemma LogQuiet(q: Queue, r: Queue)
    requires Inv(q) && LogOk(q) && r.log == q.log && r.heap.Keys <= q.heap.Keys
    requires forall a :: a in r.heap ==> r.heap[a] == q.heap[a]
    requires r.now == q.now || q.batch == []
    requires (r.batch == q.batch && r.next == q.next) || (q.batch == [] && r.next == 0)
             || (r.batch == [] && q.batch == [])
    ensures LogOk(r)
  {
    forall b, m | b in r.heap && m in r.log ensures NoteOk(r, b, m) {
      assert NoteOk(q, b, m);
      assert FiredInBatch(r, b) <==> FiredInBatch(q, b);
    }
  }

  lemma LogStep(q: Queue, e: Event)
    requires Inv(q) && LogOk(q) && Enabled(q, e)
    ensures LogOk(Step(q, e))
  {
    var r := Step(q, e);
    match e
    case Create(a, _, _, _) =>
      forall b, m | b in r.heap && m in r.log ensures NoteOk(r, b, m) {
        assert b in q.heap ==> NoteOk(q, b, m) && (FiredInBatch(r, b) <==> FiredInBatch(q, b));
      }
    case Add(_, _) => LogQuiet(q, r);
    case Cancel(id) =>
      if id in q.active {
        assert IdOk(q, id);
        var n := r.log[|q.log|];
        forall m | m in q.log ensures Follows(m, n) {
          assert NoteOk(q, id.addr, m);
        }
        AppendNote(q.log, n);
        forall b, m | b in r.heap && m in r.log ensures NoteOk(r, b, m) {
          assert m in q.log ==> NoteOk(q, b, m) && (FiredInBatch(r, b) <==> FiredInBatch(q, b));
          assert SameSequence(q, id.addr, b) ==> id.addr == b;
        }
      } else {
        LogQuiet(q, r);
      }
    case Begin(_, _) => LogQuiet(q, r);
    case Fire => KeepFire(q); LogFire(q);
    case End(_) =>
      LogResetAll(q);
      LogQuiet(ResetAll(q), r);
  }

  /** Over every run, with callbacks adding and cancelling timers in the middle of a
      batch and whatever the clock reads. */
  lemma {:induction false} FiringsAreWellBehaved(q: Queue, es: seq<Event>)
    requires Inv(q) && LogOk(q) && RunEnabled(q, es)
    ensures WellBehaved(Run(q, es).log) && LogOk(Run(q, es))
    decreases |es|
  {
    if es != [] {
      LogStep(q, es[0]);
      FiringsAreWellBehaved(Step(q, es[0]), es[1..]);
    }
  }

  //
  // What a batch does
  //

  /** How Reset leaves the timer at `a`: one that repeats and was not cancelled is due an
      interval after the batch's time; any other is gone. */
  ghost predicate Disposed(q: Queue, r: Queue, a: Addr)
    requires a in q.heap
  {
    var t := q.heap[a];
    if t.repeat && Id(a, t.sequence) !in q.canceling
    then a in r.heap && r.heap[a] == t.(expiration := q.now + t.interval) && Entry(q.now + t.interval, a) in r.timers
    else a !in r.heap && Deleted(t.sequence) in r.log
  }

  lemma {:induction false} ResetKeepsOthers(q: Queue, a: Addr)
    requires Inv(q) && q.calling && q.next == |q.batch| && !InBatch(q, a)
    ensures a in ResetAll(q).heap <==> a in q.heap
    ensures a in q.heap ==> ResetAll(q).heap[a] == q.heap[a]
    ensures forall e :: e in q.timers ==> e in ResetAll(q).timers
    ensures q.log <= ResetAll(q).log
    decreases |q.batch|
  {
    if q.batch != [] {
      KeepReset(q);
      var r := ResetOne(q);
      assert q.batch[0].addr != a;
      forall i | 0 <= i < |r.batch| ensures r.batch[i].addr != a { assert r.batch[i] == q.batch[i + 1]; }
      ResetKeepsOthers(r, a);
    }
  }

  lemma {:induction false} BatchIsDisposedOf(q: Queue, i: nat)
    requires Inv(q) && q.calling && q.next == |q.batch| && i < |q.batch| && BatchOk(q, i)
    ensures Disposed(q, ResetAll(q), q.batch[i].addr)
    decreases |q.batch|
  {
    KeepReset(q);
    var r, a := ResetOne(q), q.batch[i].addr;
    if i == 0 {
      forall j | 0 <= j < |r.batch| ensures r.batch[j].addr != a { assert r.batch[j] == q.batch[j + 1]; }
      ResetKeepsOthers(r, a);
      assert a !in r.heap ==> r.log[|q.log|] == Deleted(q.heap[a].sequence);
    } else {
      assert r.batch[i - 1] == q.batch[i] && a != q.batch[0].addr;
      assert BatchOk(r, i - 1);
      BatchIsDisposedOf(r, i - 1);
    }
  }

  /** Repeating timers are queued again for exactly one interval after the batch. */
  lemma EndDisposesOfBatch(q: Queue, clock: int, i: nat)
    requires Inv(q) && Enabled(q, End(clock)) && i < |q.batch| && BatchOk(q, i)
    ensures Disposed(q, Step(q, End(clock)), q.batch[i].addr)
  {
    BatchIsDisposedOf(q, i);
  }

  //
  // No timer is lost
  //

  ghost predicate Live(q: Queue, s: nat) { exists a :: a in q.heap && q.heap[a].sequence == s }

  /** Every timer ever created is live or has been deleted. */
  ghost predicate Accounted(q: Queue) {
    forall s: nat {:trigger Live(q, s)} :: 1 <= s <= q.created ==> Live(q, s) || Deleted(s) in q.log
  }

  lemma {:induction false} AccountedResetAll(q: Queue)
    requires Inv(q) && Accounted(q) && q.calling && q.next == |q.batch|
    ensures Accounted(ResetAll(q))
    decreases |q.batch|
  {
    if q.batch != [] {
      KeepReset(q);
      AccountedAfter(q, ResetOne(q), q.batch[0].addr);
      AccountedResetAll(ResetOne(q));
    }
  }

  /** Only the timer at `a` may have been deleted. */
  lemma AccountedAfter(q: Queue, r: Queue, a: Addr)
    requires Accounted(q) && r.created == q.created && q.log <= r.log
    requires forall b :: b in q.heap && b != a ==> b in r.heap && r.heap[b].sequence == q.heap[b].sequence
    requires a in q.heap ==>
               if a in r.heap then r.heap[a].sequence == q.heap[a].sequence
               else Deleted(q.heap[a].sequence) in r.log
    ensures Accounted(r)
  {
    forall s: nat | 1 <= s <= r.created ensures Live(r, s) || Deleted(s) in r.log {
      if Live(q, s) {
        var b :| b in q.heap && q.heap[b].sequence == s;
        assert b in r.heap ==> Live(r, s);
      }
    }
  }

  lemma AccountedStep(q: Queue, e: Event)
    requires Inv(q) && Accounted(q) && Enabled(q, e)
    ensures Accounted(Step(q, e))
  {
    var r := Step(q, e);
    match e
    case Create(a, _, _, _) =>
      forall s: nat | 1 <= s <= r.created ensures Live(r, s) || Deleted(s) in r.log {
        if s == r.created {
          assert r.heap[a].sequence == s;
        } else if Live(q, s) {
          var b :| b in q.heap && q.heap[b].sequence == s;
          assert r.heap[b].sequence == s;
        }
      }
    case Add(a, _) => AccountedAfter(q, r, a);
    case Cancel(id) =>
      assert id in q.active ==> IdOk(q, id) && r.log[|q.log|] == Deleted(id.sequence);
      AccountedAfter(q, r, id.addr);
    case Begin(_, _) => AccountedAfter(q, r, 0);
    case Fire => AccountedAfter(q, r, 0);
    case End(_) =>
      AccountedResetAll(q);
      AccountedAfter(ResetAll(q), r, 0);
  }

  /** In every run each timer created so far is in exactly one place: on its way to the
      loop, queued, in the batch being delivered, or deleted. */
  lemma {:induction false} EveryTimerIsAccountedFor(q: Queue, es: seq<Event>)
    requires Inv(q) && Accounted(q) && RunEnabled(q, es)
    ensures Accounted(Run(q, es))
    decreases |es|
  {
    if es != [] {
      AccountedStep(q, es[0]);
      EveryTimerIsAccountedFor(Step(q, es[0]), es[1..]);
    }
  }

  lemma ExactlyOnePlace(q: Queue, s: nat, a: Addr)
    requires Inv(q) && Accounted(q) && 1 <= s <= q.created
    ensures Live(q, s) <==> Deleted(s) !in q.log
    ensures a in q.heap && q.heap[a].sequence == s ==>
              && (a in q.transit || Queued(q, a) || InBatch(q, a))
              && !(a in q.transit && Queued(q, a))
              && !(a in q.transit && InBatch(q, a))
              && !(Queued(q, a) && InBatch(q, a))
  {
    if Live(q, s) {
      var b :| b in q.heap && q.heap[b].sequence == s;
      assert LiveOk(q, b);
    }
    if a in q.heap {
      assert LiveOk(q, a);
      assert Queued(q, a) ==> IdOk(q, Id(a, q.heap[a].sequence));
      forall i: nat | i < |q.batch| && q.batch[i].addr == a ensures a !in q.transit && !Queued(q, a) {
        assert BatchOk(q, i);
      }
    }
  }

  //
  // The timerfd
  //

  /** The timerfd will become readable (or is) in time for a timer due at `when`. */
  predicate Covered(alarm: Alarm, when: int) {
    alarm.Armed? && alarm.deadline <= Max(when, alarm.armedAt + SLACK)
  }

  /** Between timerfd events every queued timer is covered. While a batch is delivered
      only those already overdue need be: Reset sees to the others. */
  ghost predicate AlarmOk(q: Queue) {
    && (q.calling ==> q.now > 0)
    && (q.alarm.Armed? ==> q.alarm.deadline >= q.alarm.armedAt + SLACK)
    && (forall e :: e in q.timers && (q.calling ==> e.when < q.now) ==> Covered(q.alarm, e.when))
  }

  lemma AlarmAdd(q: Queue, a: Addr, clock: int)
    requires Inv(q) && AlarmOk(q) && a in q.transit
    ensures AlarmOk(AddInLoop(q, a, clock))
  {
    var when := q.heap[a].expiration;
    if !EarliestChanged(q.timers, when) {
      var x :| x in q.timers && x.when <= when;
      assert (q.calling ==> when < q.now) ==> Covered(q.alarm, x.when);
    }
  }

  /** Reset queues timers again only at or after the batch's own time. */
  lemma {:induction false} AlarmResetAll(q: Queue)
    requires Inv(q) && AlarmOk(q) && q.calling && q.next == |q.batch|
    ensures AlarmOk(ResetAll(q))
    decreases |q.batch|
  {
    if q.batch != [] {
      KeepReset(q);
      assert AlarmOk(ResetOne(q));
      AlarmResetAll(ResetOne(q));
    }
  }

  lemma AlarmEnd(q: Queue, clock: int)
    requires Inv(q) && AlarmOk(q) && q.calling && q.batch == [] && q.next == 0
    ensures AlarmOk(Rearm(q.(calling := false), clock))
  {
    if q.timers != {} && Earliest(q.timers) <= 0 {
      var first :| first in q.timers && first.when == Earliest(q.timers);
      assert Covered(q.alarm, first.when);
    }
  }

  lemma AlarmStep(q: Queue, e: Event)
    requires Inv(q) && AlarmOk(q) && Enabled(q, e) && (e.Begin? ==> e.now > 0)
    ensures AlarmOk(Step(q, e))
  {
    match e
    case Add(a, clock) => AlarmAdd(q, a, clock);
    case End(clock) =>
      AlarmResetAll(q);
      AlarmEnd(ResetAll(q), clock);
    case _ =>
  }

  /** When the timerfd is set, and to what: to the first expiration then queued, but not
      sooner than 100 microseconds from the clock's reading; by an add that comes first,
      and at the end of every batch that leaves a valid one. Reading it disarms it. */
  ghost predicate SetBy(q: Queue, e: Event)
    requires Inv(q) && Enabled(q, e)
  {
    var r := Step(q, e);
    match e
    case Begin(_, _) => r.alarm == Off
    case Add(a, clock) =>
      r.timers != {} && r.alarm == if q.heap[a].expiration == Earliest(r.timers)
                                      && (forall x :: x in q.timers ==> x.when > Earliest(r.timers))
                                   then Armed(Max(Earliest(r.timers), clock + 100_000), clock) else q.alarm
    case End(clock) =>
      r.alarm == if r.timers != {} && Earliest(r.timers) > 0
                 then Armed(Max(Earliest(r.timers), clock + 100_000), clock) else q.alarm
    case _ => r.alarm == q.alarm
  }

  ghost predicate SetThroughout(q: Queue, es: seq<Event>)
    requires Inv(q) && RunEnabled(q, es)
    decreases |es|
  { es == [] || (SetBy(q, es[0]) && SetThroughout(Step(q, es[0]), es[1..])) }

  lemma TimerfdIsSetExactly(q: Queue, e: Event)
    requires Inv(q) && Enabled(q, e)
    ensures SetBy(q, e)
  {
    match e
    case Add(a, clock) =>
      var r := Step(q, e);
      assert Entry(q.heap[a].expiration, a) in r.timers;
    case End(_) =>
      assert ResetAll(q).alarm == q.alarm;
    case _ =>
  }

  /** A timer is due when the timerfd next becomes readable. */
  ghost predicate WakesForATimer(q: Queue) {
    q.alarm.Armed? ==> exists e :: e in q.timers && e.when <= q.alarm.deadline
  }

  /** A cancel takes away the only timer due by then. */
  ghost predicate CancelsWakeup(q: Queue, e: Event) {
    && e.Cancel? && e.id in q.active && q.alarm.Armed?
    && forall x :: x in q.timers && x.when <= q.alarm.deadline ==> x.addr == e.id.addr
  }

  lemma {:induction false} ResetKeepsQueued(q: Queue)
    requires Inv(q) && q.calling && q.next == |q.batch|
    ensures q.timers <= ResetAll(q).timers
    decreases |q.batch|
  {
    if q.batch != [] {
      KeepReset(q);
      ResetKeepsQueued(ResetOne(q));
    }
  }

  /** The timerfd wakes the loop for nothing only after such a cancel: resettimerfd is not
      called by CancelInLoop. */
  lemma WakesStep(q: Queue, e: Event)
    requires Inv(q) && Enabled(q, e) && WakesForATimer(q)
    ensures WakesForATimer(Step(q, e)) <==> !CancelsWakeup(q, e)
  {
    var r := Step(q, e);
    TimerfdIsSetExactly(q, e);
    match e
    case End(_) =>
      ResetKeepsQueued(q);
      assert r.timers == ResetAll(q).timers;
      WakesAfter(q, r);
    case Add(_, _) => WakesAfter(q, r);
    case Cancel(id) =>
      if id in q.active {
        assert IdOk(q, id);
        CancelledEntry(q, id);
      }
    case _ =>
  }

  lemma WakesAfter(q: Queue, r: Queue)
    requires WakesForATimer(q) && q.timers <= r.timers
    requires r.alarm == q.alarm || (r.timers != {} && r.alarm.Armed? && r.alarm.deadline >= Earliest(r.timers))
    ensures WakesForATimer(r)
  {
    if r.alarm != q.alarm {
      var e :| e in r.timers && e.when == Earliest(r.timers);
    }
  }

  lemma CancelledEntry(q: Queue, id: Id)
    requires Inv(q) && id in q.active && IdOk(q, id)
    ensures forall x :: x in q.timers ==> (x in Step(q, Cancel(id)).timers <==> x.addr != id.addr)
  {
    forall x | x in q.timers ensures x in Step(q, Cancel(id)).timers <==> x.addr != id.addr {
      assert EntryOk(q, x);
    }
  }

  lemma {:induction false} NoIdleWakeup(q: Queue, es: seq<Event>)
    requires Inv(q) && RunEnabled(q, es) && WakesForATimer(q) && forall id :: Cancel(id) !in es
    ensures WakesForATimer(Run(q, es))
    decreases |es|
  {
    if es != [] {
      WakesStep(q, es[0]);
      NoIdleWakeup(Step(q, es[0]), es[1..]);
    }
  }

  /** In every run, whenever no batch is being delivered and a timer is queued, the
      timerfd is set no later than that timer's expiration, or 100 microseconds after
      it was last set; and each time it is set exactly so. The clock must read
      positive, since Reset takes a time that is not for an invalid one. */
  lemma {:induction false} TimerfdIsSetEarlyEnough(q: Queue, es: seq<Event>)
    requires Inv(q) && AlarmOk(q) && RunEnabled(q, es)
    requires forall i {:trigger es[i]} :: 0 <= i < |es| && es[i].Begin? ==> es[i].now > 0
    ensures AlarmOk(Run(q, es))
    ensures !Run(q, es).calling ==>
              forall e :: e in Run(q, es).timers ==> Covered(Run(q, es).alarm, e.when)
    ensures SetThroughout(q, es)
    decreases |es|
  {
    if es != [] {
      AlarmStep(q, es[0]);
      TimerfdIsSetExactly(q, es[0]);
      TimerfdIsSetEarlyEnough(Step(q, es[0]), es[1..]);
    }
  }

  //
  // Cancelling
  //

  /** The timer numbered s is gone, or waits in the current batch to be deleted. */
  ghost predicate DoomedAt(q: Queue, s: nat, a: Addr)
    requires a in q.heap
  { q.heap[a].sequence == s ==> q.calling && InBatch(q, a) && Id(a, s) in q.canceling }

  ghost predicate Doomed(q: Queue, s: nat) {
    s <= q.created && forall a {:trigger DoomedAt(q, s, a)} :: a in q.heap ==> DoomedAt(q, s, a)
  }

  /** An id that AddTimer returned (or the null id, which names nothing). */
  predicate Genuine(q: Queue, id: Id) {
    id.sequence <= q.created && forall a :: a in q.heap && q.heap[a].sequence == id.sequence ==> a == id.addr
  }

  lemma {:induction false} GenuineResetAll(q: Queue, id: Id)
    requires Inv(q) && q.calling && q.next == |q.batch| && Genuine(q, id)
    ensures Genuine(ResetAll(q), id)
    decreases |q.batch|
  {
    if q.batch != [] {
      KeepReset(q);
      GenuineResetAll(ResetOne(q), id);
    }
  }

  /** An id stays one, though its address may be reused. */
  lemma GenuineStep(q: Queue, e: Event, id: Id)
    requires Inv(q) && Enabled(q, e) && Genuine(q, id)
    ensures Genuine(Step(q, e), id)
  {
    if e.End? {
      GenuineResetAll(q, id);
    }
  }

  /** The timer's AddTimerInLoop is still on its way to the loop. */
  predicate OnItsWay(q: Queue, id: Id) {
    id.addr in q.transit && id.addr in q.heap && q.heap[id.addr].sequence == id.sequence
  }

  lemma OnItsWayStep(q: Queue, e: Event, id: Id)
    requires Inv(q) && Enabled(q, e) && id.sequence <= q.created
    ensures OnItsWay(Step(q, e), id) <==> OnItsWay(q, id) && !(e.Add? && e.addr == id.addr)
  {
    if e.End? {
      if id.addr in q.transit {
        forall i: nat | i < |q.batch| ensures q.batch[i].addr != id.addr { assert BatchOk(q, i); }
        ResetKeepsOthers(q, id.addr);
      }
      TransitResetAll(q);
    } else if e.Cancel? && e.id in q.active {
      assert IdOk(q, e.id);
    }
  }

  lemma {:induction false} TransitResetAll(q: Queue)
    requires Inv(q) && q.calling && q.next == |q.batch|
    ensures ResetAll(q).transit == q.transit
    decreases |q.batch|
  {
    if q.batch != [] {
      KeepReset(q);
      TransitResetAll(ResetOne(q));
    }
  }

  predicate Adds(es: seq<Event>, a: Addr) { es != [] && ((es[0].Add? && es[0].addr == a) || Adds(es[1..], a)) }

  lemma {:induction false} IdsAlongRuns(q: Queue, es: seq<Event>, id: Id)
    requires Inv(q) && RunEnabled(q, es) && Genuine(q, id)
    ensures Genuine(Run(q, es), id)
    ensures OnItsWay(Run(q, es), id) <==> OnItsWay(q, id) && !Adds(es, id.addr)
    decreases |es|
  {
    if es != [] {
      GenuineStep(q, es[0], id);
      OnItsWayStep(q, es[0], id);
      IdsAlongRuns(Step(q, es[0]), es[1..], id);
    }
  }

  /** Cancelling takes effect exactly when the timer's AddTimerInLoop is not still on
      its way to the loop. */
  lemma CancelDoomsIff(q: Queue, id: Id)
    requires Inv(q) && Genuine(q, id)
    ensures Doomed(Step(q, Cancel(id)), id.sequence) <==> !OnItsWay(q, id)
  {
    var r := Step(q, Cancel(id));
    if id.addr in q.transit && q.heap[id.addr].sequence == id.sequence {
      assert id in q.active ==> IdOk(q, id);
      assert id.addr in r.heap;
      forall i: nat | i < |q.batch| ensures q.batch[i].addr != id.addr { assert BatchOk(q, i); }
      assert !DoomedAt(r, id.sequence, id.addr);
    } else {
      forall a | a in r.heap ensures DoomedAt(r, id.sequence, a) {
        if r.heap[a].sequence == id.sequence {
          assert a == id.addr && LiveOk(q, a);
          assert InBatch(q, a) ==> InBatch(r, a);
        }
      }
    }
  }

  /** For the id that AddTimer returns, and after any run: cancelling takes effect if and
      only if the posted AddTimerInLoop has run in it. */
  lemma CancelTakesEffectIffAdded(q: Queue, create: Event, es: seq<Event>)
    requires Inv(q) && create.Create? && Enabled(q, create) && RunEnabled(Step(q, create), es)
    ensures var id := Id(create.addr, q.created + 1);
            Doomed(Step(Run(Step(q, create), es), Cancel(id)), id.sequence) <==> Adds(es, create.addr)
  {
    var id := Id(create.addr, q.created + 1);
    var s := Step(q, create);
    NewIdIsGenuine(q, create);
    IdsAlongRuns(s, es, id);
    CancelDoomsIff(Run(s, es), id);
  }

  lemma NewIdIsGenuine(q: Queue, create: Event)
    requires Inv(q) && create.Create? && Enabled(q, create)
    ensures var id := Id(create.addr, q.created + 1);
            Genuine(Step(q, create), id) && OnItsWay(Step(q, create), id)
  {
    var s := Step(q, create);
    forall a | a in s.heap && s.heap[a].sequence == q.created + 1 ensures a == create.addr {
      assert a in q.heap ==> LiveOk(q, a);
    }
  }

  /** So a cancel that overtakes its add is lost: the timer is queued all the same, */
  lemma OvertakenCancelIsLost()
    ensures Inv(EMPTY)
    ensures var es := [Create(0, 5, 0, false), Cancel(Id(0, 1)), Add(0, 1)];
            && RunEnabled(EMPTY, es)
            && var q := Run(EMPTY, es);
            q.timers == {Entry(5, 0)} && !q.calling && q.log == [] && 0 in q.heap && q.heap[0].sequence == 1
  {
    EmptyIsSound();
    var es := [Create(0, 5, 0, false), Cancel(Id(0, 1)), Add(0, 1)];
    var q1 := Step(EMPTY, es[0]);
    var q2 := Step(q1, es[1]);
    assert q2 == q1 && es[2..] == [es[2]] && es[1..] == [es[1]] + es[2..];
    assert RunEnabled(q2, es[2..]) && RunEnabled(q1, es[1..]);
  }

  /** and fires. */
  lemma QueuedTimerFires(q: Queue, e: Entry)
    requires Inv(q) && q.timers == {e} && !q.calling && e.addr in q.heap
    ensures var es := [Begin(e.when, [e]), Fire];
            RunEnabled(q, es) && Firings(Run(q, es).log, q.heap[e.addr].sequence)
                              == Firings(q.log, q.heap[e.addr].sequence) + 1
  {
    var es := [Begin(e.when, [e]), Fire];
    assert Expired(q.timers, e.when) == {e};
    var q1 := Step(q, es[0]);
    var q2 := Step(q1, Fire);
    assert es[1..] == [Fire] && Run(q1, es[1..]) == q2;
    FiringsSnoc(q.log, q2.log[|q.log|], q.heap[e.addr].sequence);
  }

  /** A cancel leaves every other timer as it was, even one that reuses the address of
      the timer the id once named. */
  lemma CancelTouchesOnlyItsTimer(q: Queue, id: Id, a: Addr)
    requires Inv(q) && a in q.heap && q.heap[a].sequence != id.sequence
    ensures var r := Step(q, Cancel(id));
            && a in r.heap && r.heap[a] == q.heap[a]
            && (Queued(r, a) <==> Queued(q, a))
            && (Entry(q.heap[a].expiration, a) in r.timers <==> Entry(q.heap[a].expiration, a) in q.timers)
            && (Id(a, q.heap[a].sequence) in r.canceling <==> Id(a, q.heap[a].sequence) in q.canceling)
            && r.batch == q.batch && r.next == q.next
  {
    assert id in q.active ==> IdOk(q, id);
  }

  predicate IsCall(n: Note, s: nat) { n.Fired? && n.sequence == s }

  /** How often the timer numbered s was called, in the first k notes and in all. */
  function FiringsIn(log: seq<Note>, k: nat, s: nat): nat
    requires k <= |log|
  { if k == 0 then 0 else FiringsIn(log, k - 1, s) + (if IsCall(log[k - 1], s) then 1 else 0) }

  function Firings(log: seq<Note>, s: nat): nat { FiringsIn(log, |log|, s) }

  lemma {:induction false} FiringsPrefix(log: seq<Note>, more: seq<Note>, k: nat, s: nat)
    requires k <= |log|
    ensures FiringsIn(log + more, k, s) == FiringsIn(log, k, s)
  {
    if k > 0 {
      FiringsPrefix(log, more, k - 1, s);
    }
  }

  lemma FiringsSnoc(log: seq<Note>, n: Note, s: nat)
    ensures Firings(log + [n], s) == Firings(log, s) + if IsCall(n, s) then 1 else 0
  {
    FiringsPrefix(log, [n], |log|, s);
  }

  /** 1 if the batch being delivered has yet to call the timer numbered s. */
  ghost function Outstanding(q: Queue, s: nat): nat {
    if exists i :: q.next <= i < |q.batch| && q.batch[i].addr in q.heap && q.heap[q.batch[i].addr].sequence == s
    then 1 else 0
  }

  predicate WithinBatch(e: Event) { !e.Begin? && !e.End? }

  /** Outside the beginning and the end of a delivery a call is made or outstanding,
      whatever is created, added or cancelled. */
  lemma OutstandingStep(q: Queue, e: Event, s: nat)
    requires Inv(q) && Enabled(q, e) && WithinBatch(e)
    ensures Firings(Step(q, e).log, s) + Outstanding(Step(q, e), s) == Firings(q.log, s) + Outstanding(q, s)
  {
    if e.Fire? {
      FireIsOutstanding(q, s);
    } else {
      OthersFireNothing(q, e, s);
      OthersKeepOutstanding(q, e, s);
    }
  }

  lemma FireIsOutstanding(q: Queue, s: nat)
    requires Inv(q) && Enabled(q, Fire)
    ensures Firings(Step(q, Fire).log, s) + Outstanding(Step(q, Fire), s) == Firings(q.log, s) + Outstanding(q, s)
  {
    KeepFire(q);
    var r := FireNext(q);
    FiringsSnoc(q.log, r.log[|q.log|], s);
    var a := q.batch[q.next].addr;
    forall i: nat | q.next < i < |q.batch|
      ensures q.batch[i].addr in q.heap && !SameSequence(q, a, q.batch[i].addr)
    {
      assert BatchOk(q, i) && a != q.batch[i].addr;
    }
  }

  lemma OthersFireNothing(q: Queue, e: Event, s: nat)
    requires Inv(q) && Enabled(q, e) && WithinBatch(e) && !e.Fire?
    ensures Firings(Step(q, e).log, s) == Firings(q.log, s)
  {
    if e.Cancel? && e.id in q.active {
      assert IdOk(q, e.id);
      FiringsSnoc(q.log, Deleted(e.id.sequence), s);
    }
  }

  lemma OthersKeepOutstanding(q: Queue, e: Event, s: nat)
    requires Inv(q) && Enabled(q, e) && WithinBatch(e) && !e.Fire?
    ensures Outstanding(Step(q, e), s) == Outstanding(q, s)
  {
    var r := Step(q, e);
    forall i: nat | i < |q.batch|
      ensures r.batch == q.batch && r.next == q.next
      ensures q.batch[i].addr in q.heap && q.batch[i].addr in r.heap && r.heap[q.batch[i].addr] == q.heap[q.batch[i].addr]
    {
      assert BatchOk(q, i);
      if e.Cancel? && e.id in q.active {
        assert IdOk(q, e.id);
      }
    }
    assert r.batch == q.batch;
  }

  /** So a delivery, whatever its callbacks do, makes every call still outstanding. */
  lemma {:induction false} OutstandingAreCalled(q: Queue, es: seq<Event>, s: nat)
    requires Inv(q) && RunEnabled(q, es) && forall e :: e in es ==> WithinBatch(e)
    ensures Firings(Run(q, es).log, s) + Outstanding(Run(q, es), s) == Firings(q.log, s) + Outstanding(q, s)
    ensures Run(q, es).next == |Run(q, es).batch| ==>
              Firings(Run(q, es).log, s) == Firings(q.log, s) + Outstanding(q, s)
    decreases |es|
  {
    if es != [] {
      OutstandingStep(q, es[0], s);
      OutstandingAreCalled(Step(q, es[0]), es[1..], s);
    }
  }

  lemma {:induction false} DoomedResetAll(q: Queue, s: nat)
    requires Inv(q) && q.calling && q.next == |q.batch| && Doomed(q, s)
    ensures Doomed(ResetAll(q), s) && Firings(ResetAll(q).log, s) == Firings(q.log, s)
    decreases |q.batch|
  {
    if q.batch != [] {
      KeepReset(q);
      var r := ResetOne(q);
      assert DoomedAt(q, s, q.batch[0].addr);
      forall a | a in r.heap ensures DoomedAt(r, s, a) {
        assert DoomedAt(q, s, a);
        if InBatch(q, a) && a != q.batch[0].addr {
          var i :| 0 <= i < |q.batch| && q.batch[i].addr == a;
          assert r.batch[i - 1].addr == a;
        }
      }
      if r.log != q.log {
        FiringsSnoc(q.log, r.log[|q.log|], s);
      }
      DoomedResetAll(r, s);
    }
  }

  /** A doomed timer is in no later batch. */
  lemma DoomedStep(q: Queue, e: Event, s: nat)
    requires Inv(q) && Enabled(q, e) && Doomed(q, s)
    ensures Doomed(Step(q, e), s)
    ensures Firings(Step(q, e).log, s) + Outstanding(Step(q, e), s) == Firings(q.log, s) + Outstanding(q, s)
  {
    match e
    case End(_) => DoomedEnd(q, e, s);
    case Begin(_, _) =>
      DoomedStays(q, e, s);
      DoomedBegin(q, e, s);
    case _ =>
      DoomedStays(q, e, s);
      OutstandingStep(q, e, s);
  }

  lemma DoomedEnd(q: Queue, e: Event, s: nat)
    requires Inv(q) && Enabled(q, e) && e.End? && Doomed(q, s)
    ensures Doomed(Step(q, e), s)
    ensures Firings(Step(q, e).log, s) == Firings(q.log, s) && Outstanding(Step(q, e), s) == Outstanding(q, s) == 0
  {
    DoomedResetAll(q, s);
    var r, done := Step(q, e), ResetAll(q);
    forall a | a in r.heap ensures DoomedAt(r, s, a) { assert DoomedAt(done, s, a); }
  }

  lemma DoomedStays(q: Queue, e: Event, s: nat)
    requires Inv(q) && Enabled(q, e) && !e.End? && Doomed(q, s)
    ensures Doomed(Step(q, e), s)
  {
    var r := Step(q, e);
    forall a | a in r.heap ensures DoomedAt(r, s, a) {
      if a in q.heap {
        assert DoomedAt(q, s, a);
        assert InBatch(q, a) && q.batch == r.batch ==> InBatch(r, a);
      }
    }
  }

  lemma DoomedBegin(q: Queue, e: Event, s: nat)
    requires Inv(q) && Enabled(q, e) && e.Begin? && Doomed(q, s)
    ensures Step(q, e).log == q.log && Outstanding(Step(q, e), s) == Outstanding(q, s) == 0
  {
    forall i: nat | i < |e.batch| ensures e.batch[i].addr in q.heap && q.heap[e.batch[i].addr].sequence != s {
      assert e.batch[i] in Expired(q.timers, e.now);
      assert EntryOk(q, e.batch[i]);
      assert DoomedAt(q, s, e.batch[i].addr);
    }
  }

  /** After a cancel that takes effect the timer is called exactly as often as the batch
      being delivered has yet to call it, once or not at all, and never again. */
  lemma {:induction false} CancelledFiresOnlyInBatch(q: Queue, es: seq<Event>, s: nat)
    requires Inv(q) && RunEnabled(q, es) && Doomed(q, s)
    ensures var r := Run(q, es);
            Firings(r.log, s) + Outstanding(r, s) == Firings(q.log, s) + Outstanding(q, s)
    decreases |es|
  {
    if es != [] {
      DoomedStep(q, es[0], s);
      CancelledFiresOnlyInBatch(Step(q, es[0]), es[1..], s);
    }
  }

  /** A timer that is cancelled once its add has run is called again if and only if the
      batch being delivered has yet to call it; then exactly once. This over every run
      after the cancel that does not stop in the middle of delivering a batch. */
  lemma CancelledIsCalledAgainIff(q: Queue, id: Id, es: seq<Event>)
    requires Inv(q) && Genuine(q, id) && !OnItsWay(q, id)
    requires RunEnabled(Step(q, Cancel(id)), es)
    requires var r := Run(Step(q, Cancel(id)), es); r.next == |r.batch|
    ensures Firings(Run(Step(q, Cancel(id)), es).log, id.sequence)
         == Firings(q.log, id.sequence) + Outstanding(q, id.sequence)
  {
    CancelDoomsIff(q, id);
    OutstandingStep(q, Cancel(id), id.sequence);
    CancelledFiresOnlyInBatch(Step(q, Cancel(id)), es, id.sequence);
  }

  //
  // From the empty queue
  //

  lemma EmptyIsSound()
    ensures Inv(EMPTY) && LogOk(EMPTY) && AlarmOk(EMPTY) && Accounted(EMPTY)
  {
    assert forall a: Addr :: a !in EMPTY.heap;
  }

  /** All of the above, for every run of a new queue. */
  lemma TimerQueueIsSound(es: seq<Event>)
    requires Inv(EMPTY) && RunEnabled(EMPTY, es)
    ensures var q := Run(EMPTY, es);
            Inv(q) && WellBehaved(q.log) && Accounted(q) && |q.timers| == |q.active|
    ensures (forall i {:trigger es[i]} :: 0 <= i < |es| && es[i].Begin? ==> es[i].now > 0) ==>
              AlarmOk(Run(EMPTY, es))
  {
    EmptyIsSound();
    FiringsAreWellBehaved(EMPTY, es);
    if forall i {:trigger es[i]} :: 0 <= i < |es| && es[i].Begin? ==> es[i].now > 0 {
      TimerfdIsSetEarlyEnough(EMPTY, es);
    }
    EveryTimerIsAccountedFor(EMPTY, es);
    SizesAgree(Run(EMPTY, es));
  }
}
