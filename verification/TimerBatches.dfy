/** What one delivery of expired timers does from its first step to its last, whatever
    the callbacks do in between. */
module TimerBatches {
  import opened TimerModel
  import opened TimerInvariant
  import opened TimerRuns

  /** The calls made, in order, in the first k notes and in all. */
  function CallsIn(log: seq<Note>, k: nat): seq<Note>
    requires k <= |log|
  { if k == 0 then [] else CallsIn(log, k - 1) + (if log[k - 1].Fired? then [log[k - 1]] else []) }

  function Calls(log: seq<Note>): seq<Note> { CallsIn(log, |log|) }

  lemma {:induction false} CallsPrefix(log: seq<Note>, more: seq<Note>, k: nat)
    requires k <= |log|
    ensures CallsIn(log + more, k) == CallsIn(log, k)
  {
    if k > 0 {
      CallsPrefix(log, more, k - 1);
    }
  }

  lemma CallsSnoc(log: seq<Note>, n: Note)
    ensures Calls(log + [n]) == if n.Fired? then Calls(log) + [n] else Calls(log)
  {
    CallsPrefix(log, [n], |log|);
  }

  /** A call of each of the timers at `es`, in order. */
  function CallsFor(heap: map<Addr, Timer>, es: seq<Entry>, now: int): seq<Note> {
    if es == [] then []
    else
      (if es[0].addr in heap
       then var t := heap[es[0].addr]; [Fired(t.sequence, now, es[0].when, t.interval, t.repeat)]
       else [])
      + CallsFor(heap, es[1..], now)
  }

  /** What the batch has yet to call. */
  function Remaining(q: Queue): seq<Note>
    requires q.next <= |q.batch|
  { CallsFor(q.heap, q.batch[q.next..], q.now) }

  lemma {:induction false} SameCalls(heap: map<Addr, Timer>, other: map<Addr, Timer>, es: seq<Entry>, now: int)
    requires forall i {:trigger es[i]} :: 0 <= i < |es| ==>
               es[i].addr in heap && es[i].addr in other && heap[es[i].addr] == other[es[i].addr]
    ensures CallsFor(heap, es, now) == CallsFor(other, es, now)
  {
    if es != [] {
      assert es[0].addr in heap;
      SameCalls(heap, other, es[1..], now);
    }
  }

  /** While a batch is delivered its timers stay as they are, whatever callbacks cancel
      or create. */
  lemma BatchTimersStay(q: Queue, e: Event, i: nat)
    requires Inv(q) && Enabled(q, e) && WithinBatch(e) && i < |q.batch|
    ensures var r, a := Step(q, e), q.batch[i].addr;
            a in q.heap && r.batch == q.batch && r.now == q.now && a in r.heap && r.heap[a] == q.heap[a]
  {
    assert BatchOk(q, i);
    if e.Cancel? && e.id in q.active {
      assert IdOk(q, e.id);
    }
  }

  /** A call is the first of those that remained. */
  lemma FireTakesOne(q: Queue)
    requires Inv(q) && Enabled(q, Fire)
    ensures Calls(Step(q, Fire).log) + Remaining(Step(q, Fire)) == Calls(q.log) + Remaining(q)
  {
    KeepFire(q);
    var r := FireNext(q);
    var call := r.log[|q.log|];
    assert q.batch[q.next..][1..] == q.batch[r.next..];
    CallsSnoc(q.log, call);
    assert Remaining(q) == [call] + Remaining(r);
    assert Calls(q.log) + [call] + Remaining(r) == Calls(q.log) + ([call] + Remaining(r));
  }

  lemma OthersCallNothing(q: Queue, e: Event)
    requires Inv(q) && Enabled(q, e) && WithinBatch(e) && !e.Fire?
    ensures Calls(Step(q, e).log) == Calls(q.log)
  {
    if e.Cancel? && e.id in q.active {
      assert IdOk(q, e.id);
      CallsSnoc(q.log, Deleted(e.id.sequence));
    }
  }

  lemma OthersKeepRemaining(q: Queue, e: Event)
    requires Inv(q) && Enabled(q, e) && WithinBatch(e) && !e.Fire?
    ensures Remaining(Step(q, e)) == Remaining(q)
  {
    var r := Step(q, e);
    if q.batch != [] {
      var rest := q.batch[q.next..];
      BatchTimersStay(q, e, 0);
      forall i {:trigger rest[i]} | 0 <= i < |rest|
        ensures rest[i].addr in q.heap && rest[i].addr in r.heap && r.heap[rest[i].addr] == q.heap[rest[i].addr]
      {
        BatchTimersStay(q, e, q.next + i);
      }
      SameCalls(q.heap, r.heap, rest, q.now);
    }
  }

  lemma BatchStep(q: Queue, e: Event)
    requires Inv(q) && Enabled(q, e) && WithinBatch(e)
    ensures Calls(Step(q, e).log) + Remaining(Step(q, e)) == Calls(q.log) + Remaining(q)
  {
    if e.Fire? {
      FireTakesOne(q);
    } else {
      OthersCallNothing(q, e);
      OthersKeepRemaining(q, e);
    }
  }

  lemma {:induction false} BatchConserved(q: Queue, es: seq<Event>)
    requires Inv(q) && RunEnabled(q, es) && forall e :: e in es ==> WithinBatch(e)
    ensures Calls(Run(q, es).log) + Remaining(Run(q, es)) == Calls(q.log) + Remaining(q)
    decreases |es|
  {
    if es != [] {
      BatchStep(q, es[0]);
      BatchConserved(Step(q, es[0]), es[1..]);
    }
  }

  lemma {:induction false} AllCalled(heap: map<Addr, Timer>, es: seq<Entry>, now: int)
    requires forall i {:trigger es[i]} :: 0 <= i < |es| ==> es[i].addr in heap
    ensures |CallsFor(heap, es, now)| == |es|
  {
    if es != [] {
      assert es[0].addr in heap;
      AllCalled(heap, es[1..], now);
    }
  }

  /** One delivery, from the read of the timerfd to the last call. `due` lists the queued
      timers that have expired, in order: exactly those are called, each once and in that
      order; nothing the callbacks add or cancel meanwhile changes it. */
  lemma DeliversAllDue(q: Queue, now: int, due: seq<Entry>, es: seq<Event>)
    requires Inv(q) && Enabled(q, Begin(now, due))
    requires var b := Step(q, Begin(now, due)); RunEnabled(b, es) && Enabled(Run(b, es), End(0))
    requires forall e :: e in es ==> WithinBatch(e)
    ensures Calls(Run(Step(q, Begin(now, due)), es).log) == Calls(q.log) + CallsFor(q.heap, due, now)
    ensures |CallsFor(q.heap, due, now)| == |due|
  {
    var b := Step(q, Begin(now, due));
    BatchConserved(b, es);
    var r := Run(b, es);
    assert Remaining(r) == [] && b.batch[0..] == due;
    assert Calls(r.log) + [] == Calls(r.log);
    forall i | 0 <= i < |due| ensures due[i].addr in q.heap { assert due[i] in due && EntryOk(q, due[i]); }
    AllCalled(q.heap, due, now);
  }

  lemma CancellingStep(q: Queue, e: Event, i: nat, id: Id)
    requires Inv(q) && Enabled(q, e) && WithinBatch(e) && q.calling && i < |q.batch| && BatchOk(q, i)
    requires id == Id(q.batch[i].addr, q.heap[q.batch[i].addr].sequence)
    ensures id in Step(q, e).canceling <==> id in q.canceling || e == Cancel(id)
    ensures Step(q, e).calling
  {
  }

  lemma {:induction false} CancellingIsCancelled(q: Queue, es: seq<Event>, i: nat, id: Id)
    requires Inv(q) && RunEnabled(q, es) && (forall e :: e in es ==> WithinBatch(e))
    requires q.calling && i < |q.batch| && BatchOk(q, i)
    requires id == Id(q.batch[i].addr, q.heap[q.batch[i].addr].sequence)
    ensures var r := Run(q, es);
            && r.batch == q.batch && r.now == q.now
            && id.addr in r.heap && r.heap[id.addr] == q.heap[id.addr]
            && (id in r.canceling <==> id in q.canceling || Cancel(id) in es)
    decreases |es|
  {
    if es != [] {
      CancellingStep(q, es[0], i, id);
      BatchTimersStay(q, es[0], i);
      assert BatchOk(Step(q, es[0]), i);
      CancellingIsCancelled(Step(q, es[0]), es[1..], i, id);
    }
  }

  /** A delivered timer t at address a is queued again an interval later, or gone. */
  ghost predicate Fate(r: Queue, a: Addr, t: Timer, now: int, again: bool) {
    if again
    then && a in r.heap && r.heap[a] == t.(expiration := now + t.interval)
         && Entry(now + t.interval, a) in r.timers
    else !Live(r, t.sequence) && Deleted(t.sequence) in r.log
  }

  lemma DeletedIsNotLive(q: Queue, s: nat)
    requires Inv(q)
    ensures Deleted(s) in q.log ==> !Live(q, s)
  {
    forall a | a in q.heap ensures Deleted(q.heap[a].sequence) !in q.log { assert LiveOk(q, a); }
  }

  lemma FateOfBatch(q: Queue, clock: int, i: nat, id: Id)
    requires Inv(q) && Enabled(q, End(clock)) && i < |q.batch| && BatchOk(q, i)
    requires id == Id(q.batch[i].addr, q.heap[q.batch[i].addr].sequence)
    ensures var t := q.heap[id.addr];
            Fate(Step(q, End(clock)), id.addr, t, q.now, t.repeat && id !in q.canceling)
  {
    EndDisposesOfBatch(q, clock, i);
    DeletedIsNotLive(Step(q, End(clock)), id.sequence);
  }

  lemma FateAfterRun(b: Queue, es: seq<Event>, clock: int, i: nat, id: Id)
    requires Inv(b) && RunEnabled(b, es) && (forall x :: x in es ==> WithinBatch(x)) && Enabled(Run(b, es), End(clock))
    requires b.calling && i < |b.batch| && BatchOk(b, i) && b.canceling == {}
    requires id == Id(b.batch[i].addr, b.heap[b.batch[i].addr].sequence)
    ensures var t := b.heap[id.addr];
            Fate(Step(Run(b, es), End(clock)), id.addr, t, b.now, t.repeat && Cancel(id) !in es)
  {
    CancellingIsCancelled(b, es, i, id);
    var m := Run(b, es);
    assert BatchOk(m, i);
    FateOfBatch(m, clock, i, id);
  }

  /** What becomes of a timer that was delivered: it is queued again, one interval after
      the delivery's time, if and only if it repeats and no callback of that delivery
      cancelled it. A cancel before the delivery does not count, nor one of another
      timer; otherwise the timer is deleted. */
  lemma RepeatsIffNotCancelled(q: Queue, now: int, due: seq<Entry>, es: seq<Event>, clock: int, e: Entry)
    requires Inv(q) && Enabled(q, Begin(now, due)) && e in due && e.addr in q.heap
    requires var b := Step(q, Begin(now, due)); RunEnabled(b, es) && Enabled(Run(b, es), End(clock))
    requires forall x :: x in es ==> WithinBatch(x)
    ensures var t := q.heap[e.addr];
            Fate(Step(Run(Step(q, Begin(now, due)), es), End(clock)), e.addr, t, now,
                 t.repeat && Cancel(Id(e.addr, t.sequence)) !in es)
  {
    var b := Step(q, Begin(now, due));
    var i :| 0 <= i < |due| && due[i] == e;
    assert b.batch == due && b.heap == q.heap && b.canceling == {} && b.now == now && b.calling;
    assert BatchOk(b, i);
    FateAfterRun(b, es, clock, i, Id(e.addr, q.heap[e.addr].sequence));
  }
}
