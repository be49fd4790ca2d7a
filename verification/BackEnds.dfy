/** The two pollers behind a loop (evk/event_loop.cc): how a channel's changes reach
    them, and when they watch the same. */
module BackEnds {
  import opened Channels
  import opened Registry
  import P = Pollers
  import E = EPollers

  /** The public ways to change what a channel wants. */
  datatype Change = EnableRead | EnableWrite | DisableRead | DisableWrite | DisableAll {
    function Of(m: Mask): Mask {
      match this
      case EnableRead => m.(read := true)
      case EnableWrite => m.(write := true)
      case DisableRead => m.(read := false)
      case DisableWrite => m.(write := false)
      case DisableAll => NONE
    }
  }

  method Make(ch: Channel, change: Change)
    modifies ch`events, ch`addedToLoop
    ensures ch.events == change.Of(old(ch.events)) && ch.addedToLoop
  {
    match change
    case EnableRead => ch.EnableReadEvent();
    case EnableWrite => ch.EnableWriteEvent();
    case DisableRead => ch.DisableReadEvent();
    case DisableWrite => ch.DisableWriteEvent();
    case DisableAll => ch.DisableAllEvent();
  }

  /** A change and the Update that follows it, with the epoll back end: the kernel's
      table again holds what every channel wants. */
  method ChangeWithEPoll(p: E.EPoller, ch: Channel, change: Change)
    requires p.Valid() && p.Synced({}) && E.Recorded(p.kernel, p.history)
    requires if ch.index == E.NEW then ch.fd !in p.channelMap
             else ch.fd in p.channelMap && p.channelMap[ch.fd] == ch
    modifies p, ch`index, ch`events, ch`addedToLoop
    ensures p.Valid() && p.Synced({}) && E.Recorded(p.kernel, p.history)
    ensures ch.events == change.Of(old(ch.events)) && ch.addedToLoop
    ensures p.channelMap == old(p.channelMap)[ch.fd := ch]
    ensures p.history == old(p.history) + [Update(ch.fd, ch.events)]
  {
    Make(ch, change);
    p.UpdateChannel(ch);
  }

  /** The same with the poll(2) back end. */
  method ChangeWithPoll(p: P.Poller, ch: Channel, change: Change)
    requires p.Valid() && p.view.Recorded()
    requires if ch.index < 0 then ch.fd !in p.channelMap
             else ch.fd in p.channelMap && p.channelMap[ch.fd] == ch
    modifies p, ch`index, ch`events, ch`addedToLoop
    ensures p.Valid() && p.view.Recorded()
    ensures ch.events == change.Of(old(ch.events)) && ch.addedToLoop
    ensures p.channelMap == old(p.channelMap)[ch.fd := ch]
    ensures p.view.history == old(p.view.history) + [Update(ch.fd, ch.events)]
  {
    Make(ch, change);
    p.UpdateChannel(ch);
  }

  /** Channel::Remove, which asserts that no event is wanted. */
  method RemoveWithEPoll(p: E.EPoller, ch: Channel)
    requires p.Valid() && p.Synced({}) && E.Recorded(p.kernel, p.history)
    requires ch.fd in p.channelMap && ch.index == E.ADDED && ch.events == NONE
    modifies p, ch`index, ch`addedToLoop
    ensures p.Valid() && p.Synced({}) && E.Recorded(p.kernel, p.history)
    ensures p.channelMap == old(p.channelMap) - {ch.fd} && ch.index == E.NEW && !ch.addedToLoop
    ensures p.history == old(p.history) + [Remove(ch.fd)]
  {
    ch.addedToLoop := false;
    p.RemoveChannel(ch);
  }

  //
  // Side by side
  //

  /** A state of the poll(2) back end after the calls h. */
  ghost predicate PollAfter(slots: seq<P.PollFd>, index: map<nat, int>, h: seq<Call>) {
    P.Indexed(slots, index) && P.Faithful(slots, Interest(h), Muted(h)) && index.Keys == Interest(h).Keys
  }

  /** poll(2) is asked for event mask e on fd. */
  ghost predicate PollWatches(slots: seq<P.PollFd>, fd: nat, e: Mask) {
    e != NONE && exists i :: 0 <= i < |slots| && slots[i].fd == fd && slots[i].events == e
  }

  ghost predicate EPollWatches(kernel: map<nat, E.Entry>, fd: nat, e: Mask) {
    e != NONE && fd in kernel && kernel[fd].events == e
  }

  ghost predicate WatchSame(slots: seq<P.PollFd>, kernel: map<nat, E.Entry>) {
    forall fd: nat, e: Mask {:trigger PollWatches(slots, fd, e)} ::
      PollWatches(slots, fd, e) <==> EPollWatches(kernel, fd, e)
  }

  lemma WatchSameIff(slots: seq<P.PollFd>, index: map<nat, int>, kernel: map<nat, E.Entry>, h: seq<Call>)
    requires PollAfter(slots, index, h) && E.Recorded(kernel, h)
    ensures WatchSame(slots, kernel) <==> Polled(h) == NonEmpty(Interest(h))
  {
    forall fd: nat, e: Mask
      ensures PollWatches(slots, fd, e) <==> fd in Polled(h) && Polled(h)[fd] == e
      ensures EPollWatches(kernel, fd, e) <==> fd in NonEmpty(Interest(h)) && NonEmpty(Interest(h))[fd] == e
    {
      P.SlotsWatchPolled(slots, index, h, fd, e);
    }
    if WatchSame(slots, kernel) {
      forall fd | fd in NonEmpty(Interest(h)) ensures fd in Polled(h) {
        assert PollWatches(slots, fd, Interest(h)[fd]) <==> EPollWatches(kernel, fd, Interest(h)[fd]);
      }
    }
  }

  /** States of the poll(2) back end after each of the first |slots| - 1 calls. */
  ghost predicate PollStates(h: seq<Call>, slots: seq<seq<P.PollFd>>, index: seq<map<nat, int>>) {
    && |slots| == |index| <= |h| + 1
    && forall k: nat {:trigger slots[k]} :: k < |slots| ==> PollAfter(slots[k], index[k], h[..k])
  }

  ghost predicate EPollStates(h: seq<Call>, tables: seq<map<nat, E.Entry>>) {
    && |tables| <= |h| + 1
    && forall k: nat {:trigger tables[k]} :: k < |tables| ==> E.Recorded(tables[k], h[..k])
  }

  /** Given the same calls, the two back ends watch the same events after every one of
      them if and only if no call asks for events on a channel after having updated it
      to none. `slots[k]` and `tables[k]` are their states after the first k calls. */
  lemma BackEndsAgreeIff(h: seq<Call>, slots: seq<seq<P.PollFd>>, index: seq<map<nat, int>>,
                         tables: seq<map<nat, E.Entry>>)
    requires |slots| == |tables| == |h| + 1 && PollStates(h, slots, index) && EPollStates(h, tables)
    ensures (forall k: nat {:trigger slots[k]} :: k <= |h| ==> WatchSame(slots[k], tables[k]))
       <==> (forall i: nat :: i < |h| ==> !ReEnables(h, i))
  {
    forall k: nat | k <= |h|
      ensures WatchSame(slots[k], tables[k]) <==> Polled(h[..k]) == NonEmpty(Interest(h[..k]))
    {
      WatchSameIff(slots[k], index[k], tables[k], h[..k]);
    }
    if forall k: nat {:trigger slots[k]} :: k <= |h| ==> WatchSame(slots[k], tables[k]) {
      forall k: nat | k <= |h| ensures Polled(h[..k]) == NonEmpty(Interest(h[..k])) {
        assert WatchSame(slots[k], tables[k]);
      }
    }
    PollAgreesIff(h);
  }

  //
  // One history, two real pollers
  //

  /** A channel is removed only while registered and wanting nothing. */
  ghost predicate CallOk(h: seq<Call>, call: Call) {
    call.Remove? ==> call.fd in Interest(h) && Interest(h)[call.fd] == NONE
  }

  ghost predicate Legal(h: seq<Call>) { forall i: nat {:trigger h[i]} :: i < |h| ==> CallOk(h[..i], h[i]) }

  function PollChannels(p: P.Poller): set<Channel>
    reads p
  { set fd | fd in p.channelMap :: p.channelMap[fd] }

  function EPollChannels(p: E.EPoller): set<Channel>
    reads p
  { set fd | fd in p.channelMap :: p.channelMap[fd] }

  /** A poll(2) back end after the calls h, with every channel wanting what it said last. */
  ghost predicate PollReady(p: P.Poller, h: seq<Call>)
    reads p, PollChannels(p)
  {
    && p.Valid() && p.view.Recorded() && p.view.history == h
    && forall fd :: fd in p.channelMap ==> p.channelMap[fd].events == p.view.interest[fd]
  }

  ghost predicate EPollReady(p: E.EPoller, h: seq<Call>)
    reads p, EPollChannels(p)
  { p.Valid() && p.Synced({}) && E.Recorded(p.kernel, p.history) && p.history == h }

  /** One call, on the channel registered for its descriptor or on a new one. */
  method PollCall(p: P.Poller, call: Call)
    requires PollReady(p, p.view.history) && CallOk(p.view.history, call)
    modifies p, PollChannels(p)
    ensures PollReady(p, old(p.view.history) + [call])
    ensures forall fd :: fd in p.channelMap ==> p.channelMap[fd] in old(PollChannels(p)) || fresh(p.channelMap[fd])
  {
    match call
    case Update(fd, e) => PollUpdate(p, fd, e);
    case Remove(fd) => p.RemoveChannel(p.channelMap[fd]);
  }

  method PollUpdate(p: P.Poller, fd: nat, e: Mask)
    requires PollReady(p, p.view.history)
    modifies p, PollChannels(p)
    ensures PollReady(p, old(p.view.history) + [Update(fd, e)])
    ensures forall g :: g in p.channelMap ==> p.channelMap[g] in old(PollChannels(p)) || fresh(p.channelMap[g])
  {
    if fd in p.channelMap {
      PollRewrite(p, fd, e);
    } else {
      PollRegister(p, fd, e);
    }
  }

  method PollRewrite(p: P.Poller, fd: nat, e: Mask)
    requires PollReady(p, p.view.history) && fd in p.channelMap
    modifies p, p.channelMap[fd]
    ensures PollReady(p, old(p.view.history) + [Update(fd, e)]) && p.channelMap == old(p.channelMap)
  {
    var ch := p.channelMap[fd];
    assert P.PointsAtOwn(p.slots, p.view.index, fd);
    ch.events := e;
    p.UpdateChannel(ch);
  }

  method PollRegister(p: P.Poller, fd: nat, e: Mask)
    requires PollReady(p, p.view.history) && fd !in p.channelMap
    modifies p
    ensures PollReady(p, old(p.view.history) + [Update(fd, e)])
    ensures fd in p.channelMap && fresh(p.channelMap[fd]) && p.channelMap == old(p.channelMap)[fd := p.channelMap[fd]]
  {
    var ch := new Channel(fd);
    ch.events := e;
    p.UpdateChannel(ch);
  }

  /** The registered channel, or a new one. */
  method ChannelFor(fd: nat, channels: map<nat, Channel>) returns (ch: Channel)
    ensures if fd in channels then ch == channels[fd] else fresh(ch) && ch.fd == fd && ch.index == -1
  {
    if fd in channels {
      ch := channels[fd];
    } else {
      ch := new Channel(fd);
    }
  }

  method EPollCall(p: E.EPoller, call: Call)
    requires EPollReady(p, p.history) && CallOk(p.history, call)
    modifies p, EPollChannels(p)
    ensures EPollReady(p, old(p.history) + [call])
    ensures forall fd :: fd in p.channelMap ==> p.channelMap[fd] in old(EPollChannels(p)) || fresh(p.channelMap[fd])
  {
    match call
    case Update(fd, e) => EPollUpdate(p, fd, e);
    case Remove(fd) => p.RemoveChannel(p.channelMap[fd]);
  }

  method EPollUpdate(p: E.EPoller, fd: nat, e: Mask)
    requires EPollReady(p, p.history)
    modifies p, EPollChannels(p)
    ensures EPollReady(p, old(p.history) + [Update(fd, e)])
    ensures forall g :: g in p.channelMap ==> p.channelMap[g] in old(EPollChannels(p)) || fresh(p.channelMap[g])
  {
    var ch := ChannelFor(fd, p.channelMap);
    ch.events := e;
    p.UpdateChannel(ch);
  }

  lemma NextCall(h: seq<Call>, k: nat)
    requires Legal(h) && k < |h|
    ensures CallOk(h[..k], h[k]) && h[..k] + [h[k]] == h[..k + 1]
  {
  }

  lemma NextPollState(h: seq<Call>, slots: seq<seq<P.PollFd>>, index: seq<map<nat, int>>,
                      s: seq<P.PollFd>, i: map<nat, int>)
    requires PollStates(h, slots, index) && |slots| <= |h| && PollAfter(s, i, h[..|slots|])
    ensures PollStates(h, slots + [s], index + [i])
  {
  }

  lemma NextEPollState(h: seq<Call>, tables: seq<map<nat, E.Entry>>, t: map<nat, E.Entry>)
    requires EPollStates(h, tables) && |tables| <= |h| && E.Recorded(t, h[..|tables|])
    ensures EPollStates(h, tables + [t])
  {
  }

  method PollNext(p: P.Poller, h: seq<Call>, k: nat) returns (slots: seq<P.PollFd>, ghost index: map<nat, int>)
    requires Legal(h) && k < |h| && PollReady(p, h[..k])
    modifies p, PollChannels(p)
    ensures PollReady(p, h[..k + 1]) && PollAfter(slots, index, h[..k + 1])
    ensures fresh(PollChannels(p) - old(PollChannels(p)))
  {
    NextCall(h, k);
    PollCall(p, h[k]);
    slots, index := p.slots, p.view.index;
  }

  /** Makes the calls of h on a new poller and keeps its states. */
  method ReplayPoll(h: seq<Call>) returns (slots: seq<seq<P.PollFd>>, ghost index: seq<map<nat, int>>)
    requires Legal(h)
    ensures |slots| == |h| + 1 && PollStates(h, slots, index)
  {
    var p := new P.Poller();
    slots, index := [p.slots], [p.view.index];
    assert h[..0] == [] && PollAfter(p.slots, p.view.index, h[..0]);
    for k := 0 to |h|
      invariant fresh(p) && fresh(PollChannels(p)) && PollReady(p, h[..k])
      invariant |slots| == k + 1 && PollStates(h, slots, index)
    {
      var s, i := PollNext(p, h, k);
      NextPollState(h, slots, index, s, i);
      slots, index := slots + [s], index + [i];
    }
  }

  method EPollNext(p: E.EPoller, h: seq<Call>, k: nat) returns (table: map<nat, E.Entry>)
    requires Legal(h) && k < |h| && EPollReady(p, h[..k])
    modifies p, EPollChannels(p)
    ensures EPollReady(p, h[..k + 1]) && E.Recorded(table, h[..k + 1])
    ensures fresh(EPollChannels(p) - old(EPollChannels(p)))
  {
    NextCall(h, k);
    EPollCall(p, h[k]);
    table := p.kernel;
  }

  method ReplayEPoll(h: seq<Call>) returns (tables: seq<map<nat, E.Entry>>)
    requires Legal(h)
    ensures |tables| == |h| + 1 && EPollStates(h, tables)
  {
    var p := new E.EPoller();
    tables := [p.kernel];
    assert h[..0] == [];
    for k := 0 to |h|
      invariant fresh(p) && fresh(EPollChannels(p)) && EPollReady(p, h[..k])
      invariant |tables| == k + 1 && EPollStates(h, tables)
    {
      var t := EPollNext(p, h, k);
      NextEPollState(h, tables, t);
      tables := tables + [t];
    }
  }

  /** The states of both after each call of a legal history, made on two new pollers:
      they watch the same throughout if and only if no call asks for events on a channel
      after having updated it to none. */
  method Replay(h: seq<Call>) returns (slots: seq<seq<P.PollFd>>, tables: seq<map<nat, E.Entry>>)
    requires Legal(h)
    ensures |slots| == |tables| == |h| + 1
    ensures (forall k: nat {:trigger slots[k]} :: k <= |h| ==> WatchSame(slots[k], tables[k]))
       <==> (forall i: nat :: i < |h| ==> !ReEnables(h, i))
  {
    ghost var index;
    slots, index := ReplayPoll(h);
    tables := ReplayEPoll(h);
    BackEndsAgreeIff(h, slots, index, tables);
  }
}
