/** Every step of the timer queue keeps its two indexes, the batch and the heap in
    agreement. */
module TimerInvariant {
  import opened TimerModel

  /** Nothing but the timerfd, the canceled ids, the count of calls and the log of
      firings changes. */
  lemma KeepAside(q: Queue, r: Queue)
    requires Inv(q) && r == q.(alarm := r.alarm, canceling := r.canceling, next := r.next, log := r.log)
    requires r.next <= |r.batch| && q.log <= r.log
    requires forall i :: |q.log| <= i < |r.log| ==> r.log[i].Fired? && r.log[i].sequence <= q.created
    ensures Inv(r)
  {
    forall e | e in r.timers ensures EntryOk(r, e) { assert EntryOk(q, e); }
    forall id | id in r.active ensures IdOk(r, id) { assert IdOk(q, id); }
    forall i: nat | i < |r.batch| ensures BatchOk(r, i) { assert BatchOk(q, i); }
    forall n | n in r.log && n !in q.log ensures n.Fired? && n.sequence <= q.created {
      var i :| 0 <= i < |r.log| && r.log[i] == n;
    }
    forall b | b in r.heap ensures LiveOk(r, b) {
      assert LiveOk(q, b);
      assert InBatch(q, b) ==> InBatch(r, b);
    }
    forall b, c | b in r.heap && c in r.heap && SameSequence(r, b, c) ensures b == c { assert SameSequence(q, b, c); }
  }

  lemma KeepCreate(q: Queue, a: Addr, t: Timer)
    requires Inv(q) && a !in q.heap && t.sequence == q.created + 1
    ensures Inv(q.(heap := q.heap[a := t], transit := q.transit + {a}, created := q.created + 1))
  {
    var r := q.(heap := q.heap[a := t], transit := q.transit + {a}, created := q.created + 1);
    forall e | e in r.timers ensures EntryOk(r, e) { assert EntryOk(q, e); }
    forall id | id in r.active ensures IdOk(r, id) { assert IdOk(q, id); }
    forall i: nat | i < |r.batch| ensures BatchOk(r, i) { assert BatchOk(q, i); }
    forall b | b in r.heap ensures LiveOk(r, b) {
      if b != a {
        assert LiveOk(q, b);
      }
    }
    forall b, c | b in r.heap && c in r.heap && SameSequence(r, b, c) ensures b == c {
      if b != a && c != a {
        assert SameSequence(q, b, c);
      } else {
        assert b != a ==> LiveOk(q, b);
        assert c != a ==> LiveOk(q, c);
      }
    }
  }

  lemma KeepAdd(q: Queue, a: Addr, clock: int)
    requires Inv(q) && a in q.transit
    ensures Inv(AddInLoop(q, a, clock))
  {
    var r := AddInLoop(q, a, clock);
    forall e | e in r.timers ensures EntryOk(r, e) { assert e in q.timers ==> EntryOk(q, e); }
    forall id | id in r.active ensures IdOk(r, id) { assert id in q.active ==> IdOk(q, id); }
    forall i: nat | i < |r.batch| ensures BatchOk(r, i) { assert BatchOk(q, i); }
    forall b | b in r.heap ensures LiveOk(r, b) {
      assert LiveOk(q, b);
      assert InBatch(q, b) ==> InBatch(r, b);
    }
    forall b, c | b in r.heap && c in r.heap && SameSequence(r, b, c) ensures b == c { assert SameSequence(q, b, c); }
  }

  lemma KeepCancel(q: Queue, id: Id)
    requires Inv(q)
    ensures id in q.active ==> id.addr in q.heap && Inv(CancelInLoop(q, id))
    ensures id !in q.active ==> Inv(CancelInLoop(q, id))
  {
    if id in q.active {
      assert IdOk(q, id) && LiveOk(q, id.addr);
      var r := CancelInLoop(q, id);
      forall e | e in r.timers ensures EntryOk(r, e) { assert EntryOk(q, e); }
      forall x | x in r.active ensures IdOk(r, x) { assert IdOk(q, x); }
      forall i: nat | i < |r.batch| ensures BatchOk(r, i) { assert BatchOk(q, i); }
      forall b | b in r.heap ensures LiveOk(r, b) {
        assert LiveOk(q, b) && (SameSequence(q, b, id.addr) ==> b == id.addr);
        assert InBatch(q, b) ==> InBatch(r, b);
      }
      forall b, c | b in r.heap && c in r.heap && SameSequence(r, b, c) ensures b == c { assert SameSequence(q, b, c); }
    } else {
      KeepAside(q, CancelInLoop(q, id));
    }
  }

  lemma KeepBegin(q: Queue, now: int, batch: seq<Entry>)
    requires Inv(q) && !q.calling && Listing(batch, Expired(q.timers, now))
    ensures Inv(BeginBatch(q, now, batch))
  {
    var r := BeginBatch(q, now, batch);
    forall e | e in r.timers ensures EntryOk(r, e) {
      assert EntryOk(q, e);
      forall x | x in batch ensures x.addr != e.addr { assert EntryOk(q, x); }
    }
    forall id | id in r.active ensures IdOk(r, id) {
      assert IdOk(q, id);
      var e := Entry(q.heap[id.addr].expiration, id.addr);
      assert e in batch ==> id in IdsOf(q.heap, batch);
    }
    forall i: nat | i < |r.batch| ensures BatchOk(r, i) {
      assert batch[i] in Expired(q.timers, now);
      assert EntryOk(q, batch[i]) && IdOk(q, Id(batch[i].addr, q.heap[batch[i].addr].sequence));
      assert Id(batch[i].addr, q.heap[batch[i].addr].sequence) in IdsOf(q.heap, batch);
    }
    forall b | b in r.heap ensures LiveOk(r, b) {
      assert LiveOk(q, b);
      if Queued(q, b) && !Queued(r, b) {
        var x :| x in batch && x.addr == b;
        assert InBatch(r, b);
      }
    }
    forall b, c | b in r.heap && c in r.heap && SameSequence(r, b, c) ensures b == c { assert SameSequence(q, b, c); }
    forall i, j | 0 <= i < j < |batch| ensures batch[i].addr != batch[j].addr {
      assert batch[i] in Expired(q.timers, now) && batch[j] in Expired(q.timers, now);
      assert EntryOk(q, batch[i]) && EntryOk(q, batch[j]) && Less(batch[i], batch[j]);
    }
  }

  /** The erase that GetExpired makes for its k-th timer finds its id. */
  lemma StillActive(q: Queue, es: seq<Entry>, k: nat)
    requires Inv(q) && k < |es| && (forall e :: e in es ==> e in q.timers)
    requires forall i, j :: 0 <= i < j < |es| ==> Less(es[i], es[j])
    ensures es[k].addr in q.heap
    ensures Id(es[k].addr, q.heap[es[k].addr].sequence) in q.active - IdsOf(q.heap, es[..k])
  {
    assert es[k] in es && EntryOk(q, es[k]);
    forall i | 0 <= i < k ensures es[i].addr != es[k].addr {
      assert es[i] in es && EntryOk(q, es[i]);
    }
  }

  lemma KeepFire(q: Queue)
    requires Inv(q) && q.calling && q.next < |q.batch|
    ensures BatchOk(q, q.next) && Inv(FireNext(q))
  {
    assert BatchOk(q, q.next) && LiveOk(q, q.batch[q.next].addr);
    KeepAside(q, FireNext(q));
  }

  lemma KeepReset(q: Queue)
    requires Inv(q) && q.calling && q.batch != [] && q.next == |q.batch|
    ensures BatchOk(q, 0) && Inv(ResetOne(q))
  {
    assert BatchOk(q, 0);
    var a := q.batch[0].addr;
    var r := ResetOne(q);
    assert LiveOk(q, a);
    forall e | e in r.timers ensures EntryOk(r, e) { assert e in q.timers ==> EntryOk(q, e); }
    forall x | x in r.active ensures IdOk(r, x) { assert x in q.active ==> IdOk(q, x); }
    forall i: nat | i < |r.batch| ensures BatchOk(r, i) {
      assert BatchOk(q, i + 1) && q.batch[i + 1].addr != q.batch[0].addr;
    }
    forall b | b in r.heap ensures LiveOk(r, b) {
      assert LiveOk(q, b) && (SameSequence(q, b, a) ==> b == a);
      if InBatch(q, b) && b != a {
        var i :| 0 <= i < |q.batch| && q.batch[i].addr == b;
        assert r.batch[i - 1] == q.batch[i];
      }
    }
    forall b, c | b in r.heap && c in r.heap && SameSequence(r, b, c) ensures b == c { assert SameSequence(q, b, c); }
  }

  /** The loop in Reset: every timer of the batch is queued again or deleted. */
  ghost function ResetAll(q: Queue): (r: Queue)
    requires Inv(q) && q.calling && q.next == |q.batch|
    ensures Inv(r) && r.calling && r.batch == [] && r.now == q.now && r.alarm == q.alarm
    decreases |q.batch|
  {
    if q.batch == [] then q else
      KeepReset(q);
      ResetAll(ResetOne(q))
  }

  lemma {:induction false} FirstExists(timers: set<Entry>)
    requires timers != {}
    ensures exists e :: e in timers && forall x :: x in timers ==> e.when <= x.when
    decreases |timers|
  {
    var y :| y in timers;
    if timers - {y} != {} {
      FirstExists(timers - {y});
      var e :| e in timers - {y} && forall x :: x in timers - {y} ==> e.when <= x.when;
      var first := if e.when <= y.when then e else y;
      assert forall x :: x in timers ==> first.when <= x.when;
    } else {
      assert timers == {y};
    }
  }

  /** timers_.begin()->first */
  ghost function Earliest(timers: set<Entry>): (when: int)
    requires timers != {}
    ensures (exists e :: e in timers && e.when == when) && forall x :: x in timers ==> when <= x.when
  {
    FirstExists(timers);
    var e :| e in timers && forall x :: x in timers ==> e.when <= x.when;
    e.when
  }

  /** The end of Reset: the timerfd is set again if the next expiration is valid. */
  ghost function Rearm(q: Queue, clock: int): Queue {
    if q.timers != {} && Earliest(q.timers) > 0 then Arm(q, Earliest(q.timers), clock) else q
  }

  ghost function EndBatch(q: Queue, clock: int): (r: Queue)
    requires Inv(q) && q.calling && q.next == |q.batch|
    ensures Inv(r)
  {
    var done := ResetAll(q).(calling := false);
    KeepIdle(ResetAll(q));
    KeepAside(done, Rearm(done, clock));
    Rearm(done, clock)
  }

  lemma KeepIdle(q: Queue)
    requires Inv(q) && q.batch == []
    ensures Inv(q.(calling := false))
  {
    var r := q.(calling := false);
    forall e | e in r.timers ensures EntryOk(r, e) { assert EntryOk(q, e); }
    forall id | id in r.active ensures IdOk(r, id) { assert IdOk(q, id); }
    forall b | b in r.heap ensures LiveOk(r, b) { assert LiveOk(q, b); }
    forall b, c | b in r.heap && c in r.heap && SameSequence(r, b, c) ensures b == c { assert SameSequence(q, b, c); }
  }

  ghost function Step(q: Queue, e: Event): (r: Queue)
    requires Inv(q) && Enabled(q, e)
    ensures Inv(r)
  {
    match e
    case Create(a, when, interval, repeat) =>
      var t := Timer(when, interval, repeat, q.created + 1);
      KeepCreate(q, a, t);
      q.(heap := q.heap[a := t], transit := q.transit + {a}, created := q.created + 1)
    case Add(a, clock) => KeepAdd(q, a, clock); AddInLoop(q, a, clock)
    case Cancel(id) => KeepCancel(q, id); CancelInLoop(q, id)
    case Begin(now, batch) => KeepBegin(q, now, batch); BeginBatch(q, now, batch)
    case Fire => KeepFire(q); FireNext(q)
    case End(clock) => EndBatch(q, clock)
  }

  ghost predicate RunEnabled(q: Queue, es: seq<Event>)
    requires Inv(q)
    decreases |es|
  { es == [] || (Enabled(q, es[0]) && RunEnabled(Step(q, es[0]), es[1..])) }

  ghost function Run(q: Queue, es: seq<Event>): (r: Queue)
    requires Inv(q) && RunEnabled(q, es)
    ensures Inv(r)
    decreases |es|
  { if es == [] then q else Run(Step(q, es[0]), es[1..]) }

  lemma {:induction false} RunSnoc(q: Queue, es: seq<Event>, e: Event)
    requires Inv(q) && RunEnabled(q, es) && Enabled(Run(q, es), e)
    ensures RunEnabled(q, es + [e]) && Run(q, es + [e]) == Step(Run(q, es), e)
    decreases |es|
  {
    if es == [] {
      assert es + [e] == [e];
    } else {
      assert (es + [e])[1..] == es[1..] + [e];
      RunSnoc(Step(q, es[0]), es[1..], e);
    }
  }

  /** The same timers in both indexes: as many entries as ids. */
  lemma {:induction false} SizesAgree(q: Queue)
    requires Inv(q)
    ensures |q.timers| == |q.active|
  {
    var ids := set e | e in q.timers && e.addr in q.heap :: Id(e.addr, q.heap[e.addr].sequence);
    forall id ensures id in ids <==> id in q.active {
      if id in q.active {
        assert IdOk(q, id);
        assert Entry(q.heap[id.addr].expiration, id.addr) in q.timers;
      }
      if id in ids {
        var e :| e in q.timers && e.addr in q.heap && Id(e.addr, q.heap[e.addr].sequence) == id;
        assert EntryOk(q, e);
      }
    }
    assert ids == q.active;
    ImageSize(q, q.timers, ids);
  }

  lemma {:induction false} ImageSize(q: Queue, es: set<Entry>, ids: set<Id>)
    requires Inv(q) && es <= q.timers
    requires ids == set e | e in es && e.addr in q.heap :: Id(e.addr, q.heap[e.addr].sequence)
    ensures |es| == |ids|
    decreases |es|
  {
    if es != {} {
      var e :| e in es;
      assert EntryOk(q, e);
      var id := Id(e.addr, q.heap[e.addr].sequence);
      forall x | x in es && x != e ensures x.addr != e.addr { assert EntryOk(q, x); }
      assert ids - {id} == set x | x in es - {e} && x.addr in q.heap :: Id(x.addr, q.heap[x.addr].sequence);
      ImageSize(q, es - {e}, ids - {id});
    }
  }
}
