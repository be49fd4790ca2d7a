/** `TimerQueue` and `InvokeTimer` (evk/timer_queue.cc, evk/invoke_timer.cc) as a step
    system. Time is in nanoseconds, addresses are numbers that the allocator may reuse
    after a delete, sequence numbers do not wrap. */
module TimerModel {
  import opened Common

  type Addr = a: nat | a < ADDRESS_MAX
  /** UINTPTR_MAX, the address of no object */
  const ADDRESS_MAX: nat := 0xffff_ffff_ffff_ffff

  /** 100 microseconds: the least delay the timerfd is ever set to. */
  const SLACK := 100_000

  datatype Timer = Timer(expiration: int, interval: nat, repeat: bool, sequence: nat)

  /** An element of timers_. */
  datatype Entry = Entry(when: int, addr: Addr)

  /** An element of active_timers_ and canceling_timers_, and what AddTimer returns. */
  datatype Id = Id(addr: Addr, sequence: nat)

  /** The timerfd: disarmed, or set at `armedAt` to expire at `deadline`. It is readable
      from the deadline on, until it is read or set again. */
  datatype Alarm = Off | Armed(deadline: int, armedAt: int)

  /** What becomes of timers, in order. */
  datatype Note =
    | Fired(sequence: nat, now: int, expiration: int, interval: nat, repeat: bool)
    | Deleted(sequence: nat)

  datatype Queue = Queue(
    heap: map<Addr, Timer>,    // InvokeTimer objects not yet deleted
    transit: set<Addr>,        // those whose AddTimerInLoop has not run
    timers: set<Entry>,
    active: set<Id>,
    canceling: set<Id>,
    calling: bool,             // is_calling_expired_timers_
    batch: seq<Entry>,         // HandleRead's `expired`
    next: nat,                 // how many of the batch have been called
    now: int,                  // HandleRead's `now`
    created: nat,              // num_created_
    alarm: Alarm,
    log: seq<Note>)

  const EMPTY := Queue(map[], {}, {}, {}, {}, false, [], 0, 0, 0, Off, [])

  /** `Create` is the part of AddTimer that runs in the caller's thread, `Add` the
      posted AddTimerInLoop. `Begin`, `Fire` and `End` are the parts of HandleRead; the
      callback of each `Fire` may do any number of the other steps before the next.
      `clock` is what Timestamp::Now() reads when the timerfd is set. */
  datatype Event =
    | Create(addr: Addr, when: int, interval: nat, repeat: bool)
    | Add(addr: Addr, clock: int)
    | Cancel(id: Id)
    | Begin(now: int, batch: seq<Entry>)
    | Fire
    | End(clock: int)

  /** The order of std::pair: by time, then by address. */
  predicate Precedes(e: Entry, when: int, addr: nat) { e.when < when || (e.when == when && e.addr < addr) }

  predicate Less(a: Entry, b: Entry) { Precedes(a, b.when, b.addr) }

  /** The elements of s, in the order of std::set. */
  ghost predicate Listing(es: seq<Entry>, s: set<Entry>) {
    && (forall i, j :: 0 <= i < j < |es| ==> Less(es[i], es[j]))
    && (forall e :: e in es <==> e in s)
  }

  function Expired(timers: set<Entry>, now: int): set<Entry> { set e | e in timers && e.when <= now }

  //
  // The invariant of the two indexes
  //

  ghost predicate Queued(q: Queue, a: Addr)
    requires a in q.heap
  { Id(a, q.heap[a].sequence) in q.active }

  ghost predicate InBatch(q: Queue, a: Addr) { exists i :: 0 <= i < |q.batch| && q.batch[i].addr == a }

  /** An entry carries its timer's expiration, and the timer is active. */
  ghost predicate EntryOk(q: Queue, e: Entry) {
    && e.addr in q.heap
    && q.heap[e.addr].expiration == e.when
    && Queued(q, e.addr)
  }

  /** An active id names a live timer, and its entry is queued. */
  ghost predicate IdOk(q: Queue, id: Id) {
    && id.addr in q.heap
    && q.heap[id.addr].sequence == id.sequence
    && Entry(q.heap[id.addr].expiration, id.addr) in q.timers
    && id.addr !in q.transit
  }

  /** A timer in the batch is live and nowhere else. */
  ghost predicate BatchOk(q: Queue, i: nat)
    requires i < |q.batch|
  {
    var e := q.batch[i];
    && e.addr in q.heap
    && q.heap[e.addr].expiration == e.when <= q.now
    && e.addr !in q.transit
    && !Queued(q, e.addr)
  }

  /** A live timer is in transit, queued or in the batch, and not deleted. */
  ghost predicate LiveOk(q: Queue, a: Addr)
    requires a in q.heap
  {
    && (a in q.transit || Queued(q, a) || InBatch(q, a))
    && 1 <= q.heap[a].sequence <= q.created
    && Deleted(q.heap[a].sequence) !in q.log
  }

  ghost predicate SameSequence(q: Queue, a: Addr, b: Addr)
    requires a in q.heap && b in q.heap
  { q.heap[a].sequence == q.heap[b].sequence }

  ghost predicate Inv(q: Queue) {
    && (forall e {:trigger EntryOk(q, e)} :: e in q.timers ==> EntryOk(q, e))
    && (forall id {:trigger IdOk(q, id)} :: id in q.active ==> IdOk(q, id))
    && (forall i: nat {:trigger BatchOk(q, i)} :: i < |q.batch| ==> BatchOk(q, i))
    && (forall a {:trigger LiveOk(q, a)} :: a in q.heap ==> LiveOk(q, a))
    && (forall a, b {:trigger SameSequence(q, a, b)} ::
          a in q.heap && b in q.heap && SameSequence(q, a, b) ==> a == b)
    && (forall i, j {:trigger q.batch[i], q.batch[j]} ::
          0 <= i < j < |q.batch| ==> q.batch[i].addr != q.batch[j].addr)
    && q.transit <= q.heap.Keys
    && q.next <= |q.batch|
    && (!q.calling ==> q.batch == [])
    && (forall n {:trigger n in q.log} :: n in q.log ==> n.sequence <= q.created)
  }

  //
  // The steps
  //

  ghost predicate Enabled(q: Queue, e: Event) {
    match e
    case Create(a, _, _, _) => a !in q.heap
    case Add(a, _) => a in q.transit
    case Cancel(_) => true
    case Begin(now, batch) => !q.calling && Listing(batch, Expired(q.timers, now))
    case Fire => q.calling && q.next < |q.batch|
    case End(_) => q.calling && q.next == |q.batch|
  }

  function Insert(q: Queue, a: Addr): Queue
    requires a in q.heap
  {
    q.(timers := q.timers + {Entry(q.heap[a].expiration, a)},
       active := q.active + {Id(a, q.heap[a].sequence)})
  }

  function Delete(q: Queue, a: Addr): Queue
    requires a in q.heap
  { q.(heap := q.heap - {a}, log := q.log + [Deleted(q.heap[a].sequence)]) }

  /** resettimerfd: the delay is cut off below at SLACK. */
  function Arm(q: Queue, when: int, clock: int): Queue {
    q.(alarm := Armed(clock + Max(when - clock, SLACK), clock))
  }

  /** What Insert returns: the new timer is the first to expire. */
  ghost predicate EarliestChanged(timers: set<Entry>, when: int) { forall e :: e in timers ==> when < e.when }

  ghost function AddInLoop(q: Queue, a: Addr, clock: int): Queue
    requires a in q.heap
  {
    var inserted := Insert(q.(transit := q.transit - {a}), a);
    if EarliestChanged(q.timers, q.heap[a].expiration)
    then Arm(inserted, q.heap[a].expiration, clock) else inserted
  }

  function CancelInLoop(q: Queue, id: Id): Queue
    requires id in q.active ==> id.addr in q.heap
  {
    if id in q.active then
      Delete(q.(timers := q.timers - {Entry(q.heap[id.addr].expiration, id.addr)}, active := q.active - {id}), id.addr)
    else if q.calling then q.(canceling := q.canceling + {id})
    else q
  }

  function IdsOf(heap: map<Addr, Timer>, es: seq<Entry>): set<Id> {
    set e | e in es && e.addr in heap :: Id(e.addr, heap[e.addr].sequence)
  }

  function BeginBatch(q: Queue, now: int, batch: seq<Entry>): Queue {
    q.(timers := q.timers - Expired(q.timers, now), active := q.active - IdsOf(q.heap, batch),
       calling := true, canceling := {}, batch := batch, next := 0, now := now, alarm := Off)
  }

  function FireNext(q: Queue): Queue
    requires q.next < |q.batch| && q.batch[q.next].addr in q.heap
  {
    var t := q.heap[q.batch[q.next].addr];
    q.(next := q.next + 1, log := q.log + [Fired(t.sequence, q.now, t.expiration, t.interval, t.repeat)])
  }

  /** One turn of the loop in Reset. */
  function ResetOne(q: Queue): Queue
    requires q.batch != [] && q.next > 0 && q.batch[0].addr in q.heap
  {
    var a := q.batch[0].addr;
    var t := q.heap[a];
    var rest := q.(batch := q.batch[1..], next := q.next - 1);
    if t.repeat && Id(a, t.sequence) !in q.canceling
    then Insert(rest.(heap := q.heap[a := t.(expiration := q.now + t.interval)]), a)
    else Delete(rest, a)
  }
}
