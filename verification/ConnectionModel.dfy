/** The output side of `TcpConnection` (evk/tcp_conn.cc) as a step system: what each
    handler does to status, write interest and buffered bytes, for every outcome the
    socket may give. All steps run in the loop thread. */
module ConnectionModel {
  import opened Common
  import opened Layouts
  import opened ConnectionStatus

  /** What write(2) answers. `Gone` is EPIPE or ECONNRESET, `Failed` any other error. */
  datatype WriteResult = Wrote(n: nat) | WouldBlock | Gone | Failed

  /** Callbacks the connection makes: the first two are queued on its loop, the others
      called at once (conn_cb_ with the connection up or down, close_cb_ and msg_cb_). */
  datatype Notice = WriteComplete | HighWater(len: nat) | Up | Down | Closed | Message

  datatype Config = Config(onWriteComplete: bool, onHighWater: bool, mark: nat)

  datatype Conn = Conn(
    status: Status,
    reading: bool,
    writing: bool,
    output: seq<byte>,
    halfCloses: nat,           // times ShutDownWrite was called
    queuedShutdowns: nat)      // ShutdownInLoop tasks posted by other threads

  /** `Send` and `Shutdown(true)` are calls made in the loop thread. `QueuedSend` is
      SendInLoop run for another thread, `Shutdown(false)` a call made in another
      thread, whose posted half runs as `QueuedShutdown`. */
  datatype Event =
    | Establish
    | Send(msg: seq<byte>, result: WriteResult)
    | QueuedSend(msg: seq<byte>, result: WriteResult)
    | Writable(result: WriteResult)
    | Close
    | Shutdown(inLoop: bool)
    | QueuedShutdown
    | Destroy

  const FRESH := Conn(Connecting, false, false, [], 0, 0)

  /** The answers write(2) may give to `len` bytes on a socket half-closed that many
      times: any part of them, or none. Once the write side is shut down it takes none:
      POSIX has it fail with EPIPE, and the model leaves open how it fails. */
  predicate Possible(halfCloses: nat, r: WriteResult, len: nat) {
    r.Wrote? ==> r.n <= len && (halfCloses > 0 ==> r.n == 0)
  }

  /** What the handlers assert. */
  predicate Asserted(c: Conn, e: Event) {
    match e
    case Establish => c.status.Connecting?
    case Close => Open(c.status)
    case Destroy => c.status.Connected? || c.status.Disconnected?
    case _ => true
  }

  /** What the kernel may answer, and the loop's queue may hold: another thread posts a
      message only once it has seen the connection up. */
  predicate Allowed(c: Conn, e: Event) {
    match e
    case Send(m, r) => Possible(c.halfCloses, r, |m|)
    case QueuedSend(m, r) => !c.status.Connecting? && Possible(c.halfCloses, r, |m|)
    case Writable(r) => Possible(c.halfCloses, r, |c.output|)
    case QueuedShutdown => c.queuedShutdowns > 0
    case _ => true
  }

  predicate Enabled(c: Conn, e: Event) { Asserted(c, e) && Allowed(c, e) }

  /** SendInLoop tries the socket first only when nothing waits to be written. */
  predicate Direct(c: Conn) { !c.writing && c.output == [] }

  /** The message reaches SendInLoop and is not refused there. */
  predicate Takes(c: Conn, e: Event) {
    match e
    case Send(_, _) => c.status.Connected?
    case QueuedSend(_, _) => !c.status.Disconnected?
    case _ => false
  }

  function Taken(r: WriteResult): nat { if r.Wrote? then r.n else 0 }

  function SendInLoop(c: Conn, msg: seq<byte>, r: WriteResult): Conn
    requires Possible(c.halfCloses, r, |msg|)
  {
    if c.status.Disconnected? then c
    else
      var nwrote := if Direct(c) then Taken(r) else 0;
      if (Direct(c) && r.Gone?) || nwrote == |msg| then c
      else c.(output := c.output + msg[nwrote..], writing := true)
  }

  function ShutdownInLoop(c: Conn): Conn { if c.writing then c else c.(halfCloses := c.halfCloses + 1) }

  function HandleWrite(c: Conn, r: WriteResult): Conn
    requires Possible(c.halfCloses, r, |c.output|)
  {
    if !c.writing || Taken(r) == 0 then c
    else
      var rest := c.output[r.n..];
      if rest != [] then c.(output := rest)
      else
        var idle := c.(output := rest, writing := false);
        if c.status.Disconnecting? then ShutdownInLoop(idle) else idle
  }

  function CloseAll(c: Conn): Conn { c.(status := Disconnected, reading := false, writing := false) }

  function Step(c: Conn, e: Event): Conn
    requires Enabled(c, e)
  {
    match e
    case Establish => c.(status := Connected, reading := true)
    case Send(m, r) => if c.status.Connected? then SendInLoop(c, m, r) else c
    case QueuedSend(m, r) => SendInLoop(c, m, r)
    case Writable(r) => HandleWrite(c, r)
    case Close => CloseAll(c)
    case Shutdown(inLoop) =>
      if !c.status.Connected? then c
      else if inLoop then ShutdownInLoop(c.(status := Disconnecting))
      else c.(status := Disconnecting, queuedShutdowns := c.queuedShutdowns + 1)
    case QueuedShutdown => ShutdownInLoop(c.(queuedShutdowns := c.queuedShutdowns - 1))
    case Destroy => if c.status.Connected? then CloseAll(c) else c
  }

  /** The bytes the socket takes in this step. */
  function SentBy(c: Conn, e: Event): seq<byte>
    requires Enabled(c, e)
  {
    match e
    case Writable(r) => if c.writing then c.output[..Taken(r)] else []
    case Send(m, r) => if Takes(c, e) && Direct(c) then m[..Taken(r)] else []
    case QueuedSend(m, r) => if Takes(c, e) && Direct(c) then m[..Taken(r)] else []
    case _ => []
  }

  /** The message the connection becomes responsible for: not one refused for the
      status, and not one dropped whole because the peer is gone. */
  function AcceptedBy(c: Conn, e: Event): seq<byte> {
    if Takes(c, e) && !(Direct(c) && e.result.Gone?) then e.msg else []
  }

  function SendNotices(cfg: Config, c: Conn, msg: seq<byte>, r: WriteResult): seq<Notice>
    requires Possible(c.halfCloses, r, |msg|)
  {
    var remaining := if Direct(c) then |msg| - Taken(r) else |msg|;
    if Direct(c) && r.Wrote? && remaining == 0 then
      if cfg.onWriteComplete then [WriteComplete] else []
    else if !(Direct(c) && r.Gone?) && remaining > 0 && cfg.onHighWater
            && |c.output| + remaining >= cfg.mark && |c.output| < cfg.mark then
      [HighWater(|c.output| + remaining)]
    else []
  }

  /** The two parts of a send: what the direct write notes, and what buffering n more
      bytes notes. */
  function DirectNotices(cfg: Config, direct: bool, len: nat, r: WriteResult): seq<Notice> {
    if direct && r == Wrote(len) && cfg.onWriteComplete then [WriteComplete] else []
  }

  function BufferNotices(cfg: Config, oldLen: nat, n: nat): seq<Notice> {
    if oldLen + n >= cfg.mark && oldLen < cfg.mark && cfg.onHighWater then [HighWater(oldLen + n)] else []
  }

  lemma SendParts(cfg: Config, c: Conn, msg: seq<byte>, r: WriteResult)
    requires Possible(c.halfCloses, r, |msg|) && !c.status.Disconnected?
    ensures var n := if Direct(c) then Taken(r) else 0;
            if !(Direct(c) && r.Gone?) && |msg| > n
            then && SendInLoop(c, msg, r) == c.(output := c.output + msg[n..], writing := true)
                 && SendNotices(cfg, c, msg, r)
                    == DirectNotices(cfg, Direct(c), |msg|, r) + BufferNotices(cfg, |c.output|, |msg| - n)
            else && SendInLoop(c, msg, r) == c
                 && SendNotices(cfg, c, msg, r) == DirectNotices(cfg, Direct(c), |msg|, r)
  {
  }

  /** The callbacks made in this step. */
  function NoticesBy(cfg: Config, c: Conn, e: Event): seq<Notice>
    requires Enabled(c, e)
  {
    match e
    case Writable(r) =>
      if cfg.onWriteComplete && c.writing && Taken(r) > 0 && Taken(r) == |c.output|
      then [WriteComplete] else []
    case Send(m, r) => if Takes(c, e) then SendNotices(cfg, c, m, r) else []
    case QueuedSend(m, r) => if Takes(c, e) then SendNotices(cfg, c, m, r) else []
    case Establish => [Up]
    case Close => [Closed]
    case Destroy => if c.status.Connected? then [Down] else []
    case _ => []
  }

  ghost predicate RunEnabled(c: Conn, es: seq<Event>)
    decreases |es|
  {
    es == [] || (Enabled(c, es[0]) && RunEnabled(Step(c, es[0]), es[1..]))
  }

  ghost function Run(c: Conn, es: seq<Event>): Conn
    requires RunEnabled(c, es)
    decreases |es|
  { if es == [] then c else Run(Step(c, es[0]), es[1..]) }

  ghost function Sent(c: Conn, es: seq<Event>): seq<byte>
    requires RunEnabled(c, es)
    decreases |es|
  { if es == [] then [] else SentBy(c, es[0]) + Sent(Step(c, es[0]), es[1..]) }

  ghost function Accepted(c: Conn, es: seq<Event>): seq<byte>
    requires RunEnabled(c, es)
    decreases |es|
  { if es == [] then [] else AcceptedBy(c, es[0]) + Accepted(Step(c, es[0]), es[1..]) }

  lemma StepConserves(c: Conn, e: Event)
    requires Enabled(c, e)
    ensures SentBy(c, e) + Step(c, e).output == c.output + AcceptedBy(c, e)
  {
    if Takes(c, e) {
      SendConserves(c, e.msg, e.result);
    } else if e.Writable? && c.writing {
      var n := Taken(e.result);
      assert c.output[..n] + c.output[n..] == c.output + [];
    } else {
      assert [] + c.output == c.output + [];
    }
  }

  lemma SendConserves(c: Conn, m: seq<byte>, r: WriteResult)
    requires Possible(c.halfCloses, r, |m|) && !c.status.Disconnected?
    ensures (if Direct(c) then m[..Taken(r)] else []) + SendInLoop(c, m, r).output
         == c.output + if Direct(c) && r.Gone? then [] else m
  {
    if Direct(c) {
      var n := Taken(r);
      assert m[..n] + m[n..] == m && m[..n] + (c.output + m[n..]) == c.output + m;
    }
  }

  /** Conservation: in every run, what the socket took followed by what is still
      buffered is what was buffered at first followed by every accepted message. */
  lemma {:induction false} ByteStreamConserved(c: Conn, es: seq<Event>)
    requires RunEnabled(c, es)
    ensures Sent(c, es) + Run(c, es).output == c.output + Accepted(c, es)
    decreases |es|
  {
    if es != [] {
      var next, rest := Step(c, es[0]), es[1..];
      StepConserves(c, es[0]);
      ByteStreamConserved(next, rest);
      Splice(SentBy(c, es[0]), next.output, c.output, AcceptedBy(c, es[0]),
             Sent(next, rest), Run(next, rest).output, Accepted(next, rest));
    }
  }

  lemma Splice(sent: seq<byte>, mid: seq<byte>, first: seq<byte>, accepted: seq<byte>,
               sent': seq<byte>, last: seq<byte>, accepted': seq<byte>)
    requires sent + mid == first + accepted && sent' + last == mid + accepted'
    ensures (sent + sent') + last == first + (accepted + accepted')
  {
    assert (sent + sent') + last == sent + (sent' + last);
    assert sent + (mid + accepted') == (sent + mid) + accepted';
    assert (first + accepted) + accepted' == first + (accepted + accepted');
  }

  /** From a new connection: wire then buffer is the accepted messages, so nothing is
      reordered, invented or repeated on the wire. */
  lemma ConservedFromFresh(es: seq<Event>)
    requires RunEnabled(FRESH, es)
    ensures Sent(FRESH, es) + Run(FRESH, es).output == Accepted(FRESH, es)
    ensures Sent(FRESH, es) <= Accepted(FRESH, es)
  {
    ByteStreamConserved(FRESH, es);
    assert [] + Accepted(FRESH, es) == Accepted(FRESH, es);
  }

  /** Write interest is on exactly while bytes are buffered; an open connection always
      wants to read, and a closed one wants no events. */
  predicate Wellformed(c: Conn) {
    && (!c.status.Disconnected? ==> (c.writing <==> c.output != []))
    && (c.reading <==> c.status.Connected? || c.status.Disconnecting?)
    && (c.status.Disconnected? ==> !c.writing)
    && (c.status.Connecting? ==> c == FRESH)
  }

  lemma StepWellformed(c: Conn, e: Event)
    requires Wellformed(c) && Enabled(c, e)
    ensures Wellformed(Step(c, e))
    ensures c.status.Disconnected? || e.Close? || e.Destroy? ==>
              Step(c, e).status.Disconnected? && Step(c, e).output == c.output
  {
  }

  /** A connection that has closed stays closed, and keeps what it had buffered. */
  lemma {:induction false} WriteInterestMatchesBuffer(c: Conn, es: seq<Event>)
    requires Wellformed(c) && RunEnabled(c, es)
    ensures Wellformed(Run(c, es))
    ensures c.status.Disconnected? ==> Run(c, es).status.Disconnected? && Run(c, es).output == c.output
    decreases |es|
  {
    if es != [] {
      StepWellformed(c, es[0]);
      WriteInterestMatchesBuffer(Step(c, es[0]), es[1..]);
    }
  }

  /** The step raises the buffered length from below the mark to the mark or above. */
  function CrossingBy(cfg: Config, c: Conn, e: Event): seq<Notice>
    requires Enabled(c, e)
  {
    var len := |Step(c, e).output|;
    if |c.output| < cfg.mark <= len then [HighWater(len)] else []
  }

  ghost function Notices(cfg: Config, c: Conn, es: seq<Event>): seq<Notice>
    requires RunEnabled(c, es)
    decreases |es|
  { if es == [] then [] else NoticesBy(cfg, c, es[0]) + Notices(cfg, Step(c, es[0]), es[1..]) }

  ghost function Crossings(cfg: Config, c: Conn, es: seq<Event>): seq<Notice>
    requires RunEnabled(c, es)
    decreases |es|
  { if es == [] then [] else CrossingBy(cfg, c, es[0]) + Crossings(cfg, Step(c, es[0]), es[1..]) }

  function HighWaters(ns: seq<Notice>): seq<Notice> {
    if ns == [] then [] else (if ns[0].HighWater? then [ns[0]] else []) + HighWaters(ns[1..])
  }

  lemma {:induction false} HighWatersConcat(a: seq<Notice>, b: seq<Notice>)
    ensures HighWaters(a + b) == HighWaters(a) + HighWaters(b)
  {
    if a == [] {
      assert a + b == b;
    } else {
      assert (a + b)[1..] == a[1..] + b && (a + b)[0] == a[0];
      HighWatersConcat(a[1..], b);
      Append3(if a[0].HighWater? then [a[0]] else [], HighWaters(a[1..]), HighWaters(b));
    }
  }

  /** In every run the high-water callbacks are, one for one and in order, the steps
      that cross the mark, each with the exact new length. */
  lemma {:induction false} HighWaterMatchesCrossings(cfg: Config, c: Conn, es: seq<Event>)
    requires RunEnabled(c, es) && cfg.onHighWater
    ensures HighWaters(Notices(cfg, c, es)) == Crossings(cfg, c, es)
    decreases |es|
  {
    if es != [] {
      assert HighWaters(NoticesBy(cfg, c, es[0])) == CrossingBy(cfg, c, es[0]);
      HighWatersConcat(NoticesBy(cfg, c, es[0]), Notices(cfg, Step(c, es[0]), es[1..]));
      HighWaterMatchesCrossings(cfg, Step(c, es[0]), es[1..]);
    }
  }

  /** Whenever write-complete is queued, every byte accepted so far is on the wire. */
  lemma WriteCompleteMeansAllSent(cfg: Config, es: seq<Event>, e: Event)
    requires RunEnabled(FRESH, es) && Enabled(Run(FRESH, es), e)
    requires WriteComplete in NoticesBy(cfg, Run(FRESH, es), e)
    ensures RunEnabled(FRESH, es + [e])
    ensures Sent(FRESH, es + [e]) == Accepted(FRESH, es + [e])
  {
    RunAppend(FRESH, es, [e]);
    ConservedFromFresh(es + [e]);
    assert Run(FRESH, es + [e]).output == [];
    assert Sent(FRESH, es + [e]) + [] == Sent(FRESH, es + [e]);
  }

  /** A run by its first step. */
  lemma RunCons(c: Conn, e: Event, es: seq<Event>)
    requires Enabled(c, e) && RunEnabled(Step(c, e), es)
    ensures RunEnabled(c, [e] + es) && Run(c, [e] + es) == Run(Step(c, e), es)
    ensures Sent(c, [e] + es) == SentBy(c, e) + Sent(Step(c, e), es)
    ensures Accepted(c, [e] + es) == AcceptedBy(c, e) + Accepted(Step(c, e), es)
  {
    assert ([e] + es)[0] == e && ([e] + es)[1..] == es;
  }

  /** Runs compose. */
  lemma {:induction false} RunAppend(c: Conn, es: seq<Event>, more: seq<Event>)
    requires RunEnabled(c, es) && RunEnabled(Run(c, es), more)
    ensures RunEnabled(c, es + more)
    ensures Run(c, es + more) == Run(Run(c, es), more)
    decreases |es|
  {
    if es == [] {
      assert es + more == more;
    } else {
      assert (es + more)[1..] == es[1..] + more;
      RunAppend(Step(c, es[0]), es[1..], more);
    }
  }

  ghost function Count(ns: seq<Notice>, n: Notice): nat {
    if ns == [] then 0 else (if ns[0] == n then 1 else 0) + Count(ns[1..], n)
  }

  lemma {:induction false} CountConcat(a: seq<Notice>, b: seq<Notice>, n: Notice)
    ensures Count(a + b, n) == Count(a, n) + Count(b, n)
  {
    if a == [] {
      assert a + b == b;
    } else {
      assert (a + b)[1..] == a[1..] + b;
      CountConcat(a[1..], b, n);
    }
  }

  function Bit(b: bool): nat { if b then 1 else 0 }

  lemma LifeStep(cfg: Config, c: Conn, e: Event)
    requires Enabled(c, e)
    ensures var ns, r := NoticesBy(cfg, c, e), Step(c, e);
            && Count(ns, Up) == Bit(!r.status.Connecting?) - Bit(!c.status.Connecting?)
            && Count(ns, Closed) + Count(ns, Down) == Bit(r.status.Disconnected?) - Bit(c.status.Disconnected?)
            && Count(ns, Closed) == Closes([e])
  {
  }

  /** How often HandleClose ran. */
  function Closes(es: seq<Event>): nat {
    if es == [] then 0 else Bit(es[0].Close?) + Closes(es[1..])
  }

  /** The callbacks that tell of the connection's life: in every run the connection
      callback reports it up once, and then either the close callback or the connection
      callback reports its end once, never both, exactly when it has come; the close
      callback does so exactly when it was HandleClose that closed the connection. */
  lemma {:induction false} LifeIsReportedOnce(cfg: Config, c: Conn, es: seq<Event>)
    requires RunEnabled(c, es)
    ensures var ns, r := Notices(cfg, c, es), Run(c, es);
            && Count(ns, Up) == Bit(!r.status.Connecting?) - Bit(!c.status.Connecting?)
            && Count(ns, Closed) + Count(ns, Down) == Bit(r.status.Disconnected?) - Bit(c.status.Disconnected?)
            && Count(ns, Closed) == Closes(es)
    decreases |es|
  {
    if es != [] {
      var made, next := NoticesBy(cfg, c, es[0]), Step(c, es[0]);
      LifeStep(cfg, c, es[0]);
      LifeIsReportedOnce(cfg, next, es[1..]);
      var rest := Notices(cfg, next, es[1..]);
      CountConcat(made, rest, Up);
      CountConcat(made, rest, Closed);
      CountConcat(made, rest, Down);
    }
  }

  /** The step hands the socket the last byte there was. */
  predicate Completes(c: Conn, e: Event)
    requires Enabled(c, e)
  { Attempts(c, e) && e.result.Wrote? && Step(c, e).output == [] }

  ghost function Completions(c: Conn, es: seq<Event>): nat
    requires RunEnabled(c, es)
    decreases |es|
  { if es == [] then 0 else Bit(Completes(c, es[0])) + Completions(Step(c, es[0]), es[1..]) }

  lemma WriteCompleteStep(cfg: Config, c: Conn, e: Event)
    requires Wellformed(c) && Enabled(c, e)
    ensures WriteComplete in NoticesBy(cfg, c, e) <==> cfg.onWriteComplete && Completes(c, e)
    ensures Count(NoticesBy(cfg, c, e), WriteComplete) == Bit(cfg.onWriteComplete && Completes(c, e))
  {
  }

  /** Write-complete comes: in every run it is queued, if asked for, one for one with the
      steps on which a write leaves nothing to be written. */
  lemma {:induction false} WriteCompleteMatchesCompletions(cfg: Config, c: Conn, es: seq<Event>)
    requires Wellformed(c) && RunEnabled(c, es)
    ensures Count(Notices(cfg, c, es), WriteComplete) == if cfg.onWriteComplete then Completions(c, es) else 0
    decreases |es|
  {
    if es != [] {
      var next := Step(c, es[0]);
      WriteCompleteStep(cfg, c, es[0]);
      StepWellformed(c, es[0]);
      WriteCompleteMatchesCompletions(cfg, next, es[1..]);
      CountConcat(NoticesBy(cfg, c, es[0]), Notices(cfg, next, es[1..]), WriteComplete);
    }
  }

  /** 1 while a drained buffer will still close the write side. */
  function Draining(c: Conn): nat {
    Bit(c.status.Disconnecting? && c.output != [] && c.halfCloses == 0)
  }

  /** The write side is closed only after a shutdown was asked for, and is closed as soon
      as one has reached the loop and the buffer is empty. */
  predicate HalfCloseOrder(c: Conn) {
    && Wellformed(c)
    && (c.status.Connecting? || c.status.Connected? ==> c.halfCloses == c.queuedShutdowns == 0)
    && (c.status.Disconnecting? && c.output == [] && c.queuedShutdowns == 0 ==> c.halfCloses > 0)
    && c.queuedShutdowns <= 1
    && c.halfCloses + c.queuedShutdowns + Draining(c) <= 2
  }

  lemma HalfCloseStep(c: Conn, e: Event)
    requires HalfCloseOrder(c) && Enabled(c, e)
    ensures HalfCloseOrder(Step(c, e))
    ensures Step(c, e).halfCloses >= c.halfCloses
    ensures c.halfCloses > 0 || c.status.Disconnected? ==> SentBy(c, e) == []
  {
  }

  /** In every run no byte follows the half-close, which happens at most twice, and has
      happened once a shutdown has reached the loop and all is written. A closed
      connection sends nothing either. */
  lemma {:induction false} NothingSentAfterHalfClose(c: Conn, es: seq<Event>)
    requires HalfCloseOrder(c) && RunEnabled(c, es)
    ensures HalfCloseOrder(Run(c, es)) && Run(c, es).halfCloses <= 2
    ensures var r := Run(c, es);
            r.status.Disconnecting? && r.output == [] && r.queuedShutdowns == 0 ==> r.halfCloses > 0
    ensures c.halfCloses > 0 || c.status.Disconnected? ==> Sent(c, es) == []
    decreases |es|
  {
    if es != [] {
      HalfCloseStep(c, es[0]);
      StepWellformed(c, es[0]);
      NothingSentAfterHalfClose(Step(c, es[0]), es[1..]);
    }
  }

  /** The step calls write(2) on the socket. */
  predicate Attempts(c: Conn, e: Event) {
    match e
    case Writable(_) => c.writing
    case Send(_, _) => Takes(c, e) && Direct(c)
    case QueuedSend(_, _) => Takes(c, e) && Direct(c)
    case _ => false
  }

  /** The socket is tried whenever it can be: by a writable event while bytes wait, by a
      message while none do; and what it takes is what it answers. */
  lemma AttemptsIff(c: Conn, e: Event)
    requires Wellformed(c) && Enabled(c, e)
    ensures e.Writable? ==> (Attempts(c, e) <==> !c.status.Disconnected? && c.output != [])
    ensures e.Send? ==> (Attempts(c, e) <==> c.status.Connected? && c.output == [])
    ensures e.QueuedSend? ==> (Attempts(c, e) <==> !c.status.Disconnected? && c.output == [])
    ensures |SentBy(c, e)| == if Attempts(c, e) && e.result.Wrote? then e.result.n else 0
  {
  }

  /** A message is refused for the status alone: once the connection is shutting down, or
      for one already posted once it is closed. It is dropped when nothing waits and the
      peer is gone. Any other is sent or buffered, whole and behind what waits. */
  lemma MessageIsTakenIff(c: Conn, e: Event)
    requires Wellformed(c) && Enabled(c, e) && (e.Send? || e.QueuedSend?)
    ensures var refused := if e.Send? then !c.status.Connected? else c.status.Disconnected?;
            var dropped := c.output == [] && e.result.Gone?;
            SentBy(c, e) + Step(c, e).output == if refused || dropped then c.output else c.output + e.msg
  {
    StepConserves(c, e);
    assert c.output + [] == c.output;
  }

  /** A posted shutdown reaches the loop. */
  predicate Arrives(es: seq<Event>) { es != [] && (es[0].QueuedShutdown? || Arrives(es[1..])) }

  /** The first Shutdown puts the connection into shutdown, where messages of the loop
      thread are refused, and half-closes at once if it is made there with none waiting. */
  lemma ShutdownStep(c: Conn, inLoop: bool)
    requires HalfCloseOrder(c) && c.status.Connected?
    ensures var r := Step(c, Shutdown(inLoop));
            && HalfCloseOrder(r) && r.status.Disconnecting? && r.queuedShutdowns == Bit(!inLoop)
            && r.halfCloses == Bit(inLoop && c.output == [])
  {
  }

  /** Shutdown holds: unless the connection closes first it stays in shutdown, and its
      write side is closed once the request has reached the loop and all is written. */
  lemma {:induction false} ShutdownIsHonoured(c: Conn, es: seq<Event>)
    requires HalfCloseOrder(c) && c.status.Disconnecting? && RunEnabled(c, es) && Closes(es) == 0
    ensures var r := Run(c, es);
            && r.status.Disconnecting? && HalfCloseOrder(r)
            && (c.queuedShutdowns == 0 || Arrives(es) ==> r.queuedShutdowns == 0)
            && ((c.queuedShutdowns == 0 || Arrives(es)) && r.output == [] ==> r.halfCloses > 0)
    decreases |es|
  {
    if es != [] {
      HalfCloseStep(c, es[0]);
      ShutdownIsHonoured(Step(c, es[0]), es[1..]);
    }
  }

  /** Another thread's message reaches the loop after the half-close, and is taken. */
  predicate Late(c: Conn, e: Event) { e.QueuedSend? && c.halfCloses > 0 && Takes(c, e) }

  /** No byte goes out but by a call of write(2). Once the write side is closed no write
      interest is left, and only a late message makes the code call it again. */
  lemma AttemptStep(c: Conn, e: Event)
    requires HalfCloseOrder(c) && Enabled(c, e) && (c.halfCloses > 0 ==> !c.writing)
    ensures !Attempts(c, e) ==> SentBy(c, e) == []
    ensures c.halfCloses > 0 ==> (Attempts(c, e) <==> Late(c, e))
    ensures !Late(c, e) && Step(c, e).halfCloses > 0 ==> !Step(c, e).writing
  {
  }

  ghost predicate WritesAfterHalfClose(c: Conn, es: seq<Event>)
    requires RunEnabled(c, es)
    decreases |es|
  {
    es != [] && ((c.halfCloses > 0 && Attempts(c, es[0])) || WritesAfterHalfClose(Step(c, es[0]), es[1..]))
  }

  ghost predicate SomeLate(c: Conn, es: seq<Event>)
    requires RunEnabled(c, es)
    decreases |es|
  { es != [] && (Late(c, es[0]) || SomeLate(Step(c, es[0]), es[1..])) }

  /** The code's own half of the promise, whatever the socket would answer: in every run
      it calls write(2) after the half-close if and only if another thread's message
      reaches the loop after it while the connection is not yet closed. */
  lemma {:induction false} WritesAfterHalfCloseIff(c: Conn, es: seq<Event>)
    requires HalfCloseOrder(c) && RunEnabled(c, es) && (c.halfCloses > 0 ==> !c.writing)
    ensures WritesAfterHalfClose(c, es) <==> SomeLate(c, es)
    decreases |es|
  {
    if es != [] {
      AttemptStep(c, es[0]);
      if !Late(c, es[0]) {
        HalfCloseStep(c, es[0]);
        WritesAfterHalfCloseIff(Step(c, es[0]), es[1..]);
      }
    }
  }

  /** When Shutdown is only called in the loop thread, it happens at most once. */
  lemma {:induction false} HalfClosedAtMostOnce(c: Conn, es: seq<Event>)
    requires HalfCloseOrder(c) && RunEnabled(c, es)
    requires c.queuedShutdowns == 0 && c.halfCloses + Draining(c) <= 1
    requires Shutdown(false) !in es
    ensures Run(c, es).halfCloses <= 1
    decreases |es|
  {
    if es != [] {
      HalfCloseStep(c, es[0]);
      HalfClosedAtMostOnce(Step(c, es[0]), es[1..]);
    }
  }

  /** The buffered bytes and all of m are put on the wire. */
  ghost predicate Reaches(c: Conn, m: seq<byte>, r: WriteResult, es: seq<Event>) {
    var run := [QueuedSend(m, r)] + es;
    RunEnabled(c, run) && c.output + m <= Sent(c, run)
  }

  /** A message another thread has sent can still reach the wire, for some answers of the
      socket, if and only if the connection has not closed and its write side is open
      when the loop comes to it. Otherwise none of it ever does. */
  lemma PostedMessageReachesWireIff(c: Conn, m: seq<byte>)
    requires HalfCloseOrder(c) && !c.status.Connecting? && m != []
    ensures (exists r, es :: Reaches(c, m, r, es)) <==> !c.status.Disconnected? && c.halfCloses == 0
  {
    if c.status.Disconnected? || c.halfCloses > 0 {
      forall r, es ensures !Reaches(c, m, r, es) {
        if RunEnabled(c, [QueuedSend(m, r)] + es) {
          NothingSentAfterHalfClose(c, [QueuedSend(m, r)] + es);
        }
      }
    } else if Direct(c) {
      var run := [QueuedSend(m, Wrote(|m|))] + [];
      assert run[1..] == [] && Sent(c, run) == m + [] && c.output + m == m;
      assert Reaches(c, m, Wrote(|m|), []);
    } else {
      var e, drain := QueuedSend(m, WouldBlock), Writable(Wrote(|c.output + m|));
      var next := Step(c, e);
      assert [drain][1..] == [] && RunEnabled(next, [drain]);
      assert Sent(next, [drain]) == c.output + m + Sent(Step(next, drain), []);
      assert ([e] + [drain])[1..] == [drain] && Sent(c, [e] + [drain]) == [] + Sent(next, [drain]);
      assert Reaches(c, m, WouldBlock, [drain]);
    }
  }

  /** A run on which one is lost: the loop thread shuts down, another thread's message
      comes after it. */
  lemma PostedMessageMayBeLost()
    ensures var es := [Establish, Shutdown(true), QueuedSend([1], Gone)];
            RunEnabled(FRESH, es) && Sent(FRESH, es) == [] && Run(FRESH, es).output == []
  {
    var late := QueuedSend([1], Gone);
    var c1 := Step(FRESH, Establish);
    var c2 := Step(c1, Shutdown(true));
    RunCons(c2, late, []);
    RunCons(c1, Shutdown(true), [late] + []);
    RunCons(FRESH, Establish, [Shutdown(true)] + ([late] + []));
    assert [Establish, Shutdown(true), late] == [Establish] + ([Shutdown(true)] + ([late] + []));
  }

  /** A step half-closes over buffered bytes, cutting them off, if and only if it is the
      posted half of another thread's Shutdown that reaches the loop after the connection
      was closed with bytes still buffered. */
  lemma HalfCloseFindsBufferEmptyIff(c: Conn, e: Event)
    requires Wellformed(c) && Enabled(c, e)
    ensures Step(c, e).halfCloses > c.halfCloses && Step(c, e).output != []
       <==> e.QueuedShutdown? && c.status.Disconnected? && c.output != []
  {
  }

  lemma ShutdownThenClose(c: Conn)
    requires c.status.Connected?
    ensures var es := [Shutdown(false), Close, QueuedShutdown];
            && RunEnabled(c, es)
            && Run(c, es) == CloseAll(c).(halfCloses := c.halfCloses + 1)
  {
    var c1 := Step(c, Shutdown(false));
    var c2 := Step(c1, Close);
    RunCons(c2, QueuedShutdown, []);
    RunCons(c1, Close, [QueuedShutdown] + []);
    RunCons(c, Shutdown(false), [Close] + ([QueuedShutdown] + []));
    assert [Shutdown(false), Close, QueuedShutdown] == [Shutdown(false)] + ([Close] + ([QueuedShutdown] + []));
  }

  /** Such a run: a partial write, Shutdown from another thread, the peer closes. */
  lemma HalfCloseMayCutOffBytes()
    ensures var es := [Establish, Send([1, 2], Wrote(1))] + [Shutdown(false), Close, QueuedShutdown];
            RunEnabled(FRESH, es) && Run(FRESH, es).halfCloses == 1 && Run(FRESH, es).output == [2]
  {
    var tail := [Shutdown(false), Close, QueuedShutdown];
    var send := Send([1, 2], Wrote(1));
    var c1 := Step(FRESH, Establish);
    var c2 := Step(c1, send);
    assert c2.output == [2];
    ShutdownThenClose(c2);
    RunCons(c1, send, tail);
    RunCons(FRESH, Establish, [send] + tail);
    assert [Establish, send] + tail == [Establish] + ([send] + tail);
  }

  /** A connection together with what has come out of it. */
  datatype History = History(conn: Conn, sent: seq<byte>, notices: seq<Notice>)

  function Advance(cfg: Config, h: History, e: Event): History
    requires Enabled(h.conn, e)
  {
    History(Step(h.conn, e), h.sent + SentBy(h.conn, e), h.notices + NoticesBy(cfg, h.conn, e))
  }

  ghost function AdvanceAll(cfg: Config, h: History, es: seq<Event>): History
    requires RunEnabled(h.conn, es)
    decreases |es|
  { if es == [] then h else AdvanceAll(cfg, Advance(cfg, h, es[0]), es[1..]) }

  lemma {:induction false} AdvanceIsRun(cfg: Config, h: History, es: seq<Event>)
    requires RunEnabled(h.conn, es)
    ensures AdvanceAll(cfg, h, es)
         == History(Run(h.conn, es), h.sent + Sent(h.conn, es), h.notices + Notices(cfg, h.conn, es))
    decreases |es|
  {
    if es == [] {
      assert h.sent + [] == h.sent && h.notices + [] == h.notices;
    } else {
      var next, rest := Advance(cfg, h, es[0]), es[1..];
      AdvanceIsRun(cfg, next, rest);
      Append3(h.sent, SentBy(h.conn, es[0]), Sent(next.conn, rest));
      Append3(h.notices, NoticesBy(cfg, h.conn, es[0]), Notices(cfg, next.conn, rest));
    }
  }
}
