/** `Channel` (evk/channel.h, evk/channel.cc): one descriptor, the events it wants,
    and the order in which a ready descriptor's callbacks run. */
module Channels {

  const POLLIN: bv16 := 0x1
  const POLLPRI: bv16 := 0x2
  const POLLOUT: bv16 := 0x4
  const POLLERR: bv16 := 0x8
  const POLLHUP: bv16 := 0x10
  const POLLNVAL: bv16 := 0x20
  const POLLRDHUP: bv16 := 0x2000

  const READABLE: bv16 := POLLIN | POLLPRI
  const WRITABLE: bv16 := POLLOUT

  /** The events a channel wants. `events_` is only ever built from kReadable and
      kWritable, so it is modelled by which of the two it holds; `Bits` is the word. */
  datatype Mask = Mask(read: bool, write: bool) {
    function Bits(): bv16 { (if read then READABLE else 0) | (if write then WRITABLE else 0) }
  }

  const NONE := Mask(false, false)

  /** The bit operations of channel.cc are the updates of the two parts, and the tests
      IsReading, IsWriting and IsNoneEvent read them. */
  lemma MaskOperations(m: Mask)
    ensures m.(read := true).Bits() == m.Bits() | READABLE
    ensures m.(write := true).Bits() == m.Bits() | WRITABLE
    ensures m.(read := false).Bits() == m.Bits() & !READABLE
    ensures m.(write := false).Bits() == m.Bits() & !WRITABLE
    ensures (m.Bits() & READABLE != 0 <==> m.read) && (m.Bits() & WRITABLE != 0 <==> m.write)
    ensures m.Bits() == 0 <==> m == NONE
  {
  }

  /** In the order HandleEvent considers them. */
  datatype Callback = Close | Error | Read | Write {
    function Rank(): nat {
      match this
      case Close => 0
      case Error => 1
      case Read => 2
      case Write => 3
    }

    /** When a reported event mask calls for this callback. */
    predicate Due(revents: bv16) {
      match this
      case Close => revents & POLLHUP != 0 && revents & POLLIN == 0
      case Error => revents & (POLLERR | POLLNVAL) != 0
      case Read => revents & (POLLIN | POLLPRI | POLLRDHUP) != 0
      case Write => revents & POLLOUT != 0
    }
  }

  class Channel {
    const fd: nat
    var events: Mask
    var revents: bv16
    var index: int
    var addedToLoop: bool
    var eventHandling: bool

    constructor (fd: nat)
      ensures this.fd == fd && events == NONE && revents == 0 && index == -1
      ensures !addedToLoop && !eventHandling
    {
      this.fd := fd;
      events, revents, index := NONE, 0, -1;
      addedToLoop, eventHandling := false, false;
    }

    method EnableReadEvent()
      modifies `events, `addedToLoop
      ensures events == old(events).(read := true) && addedToLoop
    {
      events := events.(read := true);
      addedToLoop := true;
    }

    method EnableWriteEvent()
      modifies `events, `addedToLoop
      ensures events == old(events).(write := true) && addedToLoop
    {
      events := events.(write := true);
      addedToLoop := true;
    }

    method DisableReadEvent()
      modifies `events, `addedToLoop
      ensures events == old(events).(read := false) && addedToLoop
    {
      events := events.(read := false);
      addedToLoop := true;
    }

    method DisableWriteEvent()
      modifies `events, `addedToLoop
      ensures events == old(events).(write := false) && addedToLoop
    {
      events := events.(write := false);
      addedToLoop := true;
    }

    method DisableAllEvent()
      modifies `events, `addedToLoop
      ensures events == NONE && addedToLoop
    {
      events := NONE;
      addedToLoop := true;
    }

    /** Runs the installed callbacks the reported mask calls for: each at most once,
        in rank order, and no others. `calls` lists them as they are made. */
    method HandleEvent(installed: set<Callback>) returns (calls: seq<Callback>)
      modifies `eventHandling
      ensures Dispatched(calls, installed, revents) && !eventHandling
      ensures Close in installed && Read in installed ==>
                forall eof :: Closes(calls, eof) == CloseCalls(revents, eof)
    {
      eventHandling := true;
      calls := Dispatch(installed, revents);
      eventHandling := false;
      DispatchedCloses(calls, installed, revents);
    }
  }

  /** Only callbacks considered before the one of rank n. */
  predicate Below(calls: seq<Callback>, n: nat) { forall i :: 0 <= i < |calls| ==> calls[i].Rank() < n }

  /** One test of HandleEvent: `if (due) if (fn_) fn_();` */
  method Call(calls: seq<Callback>, c: Callback, due: bool, installed: set<Callback>) returns (more: seq<Callback>)
    requires Ranked(calls) && Below(calls, c.Rank())
    ensures Ranked(more) && Below(more, c.Rank() + 1)
    ensures forall d :: d in more <==> d in calls || (d == c && due && c in installed)
  {
    more := calls;
    if due {
      if c in installed { more := more + [c]; }
    }
  }

  /** The four tests, in order. */
  method Dispatch(installed: set<Callback>, revents: bv16) returns (calls: seq<Callback>)
    ensures Dispatched(calls, installed, revents)
  {
    calls := Call([], Close, revents & POLLHUP != 0 && revents & POLLIN == 0, installed);
    calls := Call(calls, Error, revents & (POLLERR | POLLNVAL) != 0, installed);
    calls := Call(calls, Read, revents & (POLLIN | POLLPRI | POLLRDHUP) != 0, installed);
    calls := Call(calls, Write, revents & POLLOUT != 0, installed);
  }

  /** The calls are those due, of the callbacks installed. */
  predicate Dispatched(calls: seq<Callback>, installed: set<Callback>, revents: bv16) {
    && (Close in calls <==> Close in installed && Close.Due(revents))
    && (Error in calls <==> Error in installed && Error.Due(revents))
    && (Read in calls <==> Read in installed && Read.Due(revents))
    && (Write in calls <==> Write in installed && Write.Due(revents))
    && Ranked(calls)
  }

  /** What is reported is answered. A channel that asked to read is read when any bit it
      asked for is set, or the peer has shut down its side; one that asked to write is
      written; a read call means one of those bits, and an error call POLLERR or POLLNVAL.
      A hang-up closes unless there is input left to read. */
  lemma ReportIsAnswered(calls: seq<Callback>, installed: set<Callback>, revents: bv16)
    requires Dispatched(calls, installed, revents)
    ensures Read in installed ==>
              (Read in calls <==> revents & Mask(true, false).Bits() != 0 || revents & POLLRDHUP != 0)
    ensures Write in installed ==> (Write in calls <==> revents & Mask(false, true).Bits() != 0)
    ensures Error in installed ==> (Error in calls <==> revents & POLLERR != 0 || revents & POLLNVAL != 0)
    ensures Close in installed ==> (Close in calls <==> revents & POLLHUP != 0 && revents & POLLIN == 0)
  {
    ReadBits(revents);
  }

  lemma ReadBits(revents: bv16)
    ensures revents & (POLLIN | POLLPRI | POLLRDHUP) != 0 <==> revents & READABLE != 0 || revents & POLLRDHUP != 0
    ensures revents & (POLLERR | POLLNVAL) != 0 <==> revents & POLLERR != 0 || revents & POLLNVAL != 0
  {
  }

  lemma DispatchedCloses(calls: seq<Callback>, installed: set<Callback>, revents: bv16)
    requires Dispatched(calls, installed, revents)
    ensures Close in installed && Read in installed ==>
              forall eof :: Closes(calls, eof) == CloseCalls(revents, eof)
  {
    forall eof: bool {
      ClosesOfRanked(calls, eof);
    }
  }

  /** No callback twice, each before those considered after it. */
  predicate Ranked(calls: seq<Callback>) {
    forall i, j :: 0 <= i < j < |calls| ==> calls[i].Rank() < calls[j].Rank()
  }

  /** How often a connection's HandleClose runs in these calls: the close callback is
      one, and the read callback calls it at end of file. */
  function Closes(calls: seq<Callback>, eof: bool): nat {
    if calls == [] then 0
    else Closes(calls[..|calls| - 1], eof)
         + (if calls[|calls| - 1].Close? || (calls[|calls| - 1].Read? && eof) then 1 else 0)
  }

  lemma {:induction false} ClosesOfRanked(calls: seq<Callback>, eof: bool)
    requires Ranked(calls)
    ensures Closes(calls, eof) == (if Close in calls then 1 else 0) + (if Read in calls && eof then 1 else 0)
    decreases |calls|
  {
    if calls != [] {
      var init, last := calls[..|calls| - 1], calls[|calls| - 1];
      assert calls == init + [last];
      ClosesOfRanked(init, eof);
      assert last !in init;
    }
  }

  /** Close calls made while one event is handled: one for a hang-up without input,
      one for a read that finds end of file. */
  function CloseCalls(revents: bv16, eof: bool): nat {
    (if Close.Due(revents) then 1 else 0) + (if Read.Due(revents) && eof then 1 else 0)
  }

  /** One event closes a connection twice exactly when a hang-up without POLLIN comes
      with POLLPRI or POLLRDHUP and the read finds end of file. */
  lemma DoubleClose(revents: bv16, eof: bool)
    ensures CloseCalls(revents, eof) > 1
       <==> revents & POLLHUP != 0 && revents & POLLIN == 0
            && revents & (POLLPRI | POLLRDHUP) != 0 && eof
  {
    assert revents & POLLIN == 0 ==>
        revents & (POLLIN | POLLPRI | POLLRDHUP) == revents & (POLLPRI | POLLRDHUP);
  }
}
