/** `EPoller` (evk/epoller.cc): the epoll back end. The kernel keeps the interest
    table; the poller mirrors it in a map from descriptor to channel. */
module EPollers {
  import opened Channels
  import opened Registry

  const NEW := -1
  const ADDED := 1
  const DELETED := 2
  const INIT_EVENT_LIST_SIZE: nat := 16

  datatype CtlOp = Add | Mod | Del

  /** A row of the kernel's table: the mask and the pointer stored with it. */
  datatype Entry = Entry(events: Mask, channel: Channel)

  /** One event reported by epoll_wait, for a descriptor in the table. */
  datatype Report = Report(fd: nat, events: bv16)

  /** The table is the interest that the calls so far describe. */
  ghost predicate Recorded(kernel: map<nat, Entry>, h: seq<Call>) {
    Interest(h) == map fd | fd in kernel :: kernel[fd].events
  }

  lemma RecordedAfterUpdate(kernel: map<nat, Entry>, h: seq<Call>, fd: nat, e: Entry)
    requires Recorded(kernel, h)
    ensures Recorded(kernel[fd := e], h + [Update(fd, e.events)])
  {
    AfterUpdate(h, fd, e.events);
  }

  lemma RecordedAfterRemove(kernel: map<nat, Entry>, h: seq<Call>, fd: nat)
    requires Recorded(kernel, h)
    ensures Recorded(kernel - {fd}, h + [Remove(fd)])
  {
    AfterRemove(h, fd);
  }

  class EPoller {
    var channelMap: map<nat, Channel>
    var eventListSize: nat
    /** The table behind epollfd_. */
    var kernel: map<nat, Entry>
    ghost var history: seq<Call>

    /** The kernel's table is channelMap; no registered channel is ever DELETED. */
    ghost predicate Valid()
      reads this, set fd | fd in channelMap :: channelMap[fd]
    {
      && eventListSize > 0
      && kernel.Keys == channelMap.Keys
      && forall fd :: fd in channelMap ==>
           && channelMap[fd].fd == fd
           && channelMap[fd].index == ADDED
           && kernel[fd].channel == channelMap[fd]
    }

    /** The table holds the current events of every channel but `except`. */
    ghost predicate Synced(except: set<Channel>)
      requires Valid()
      reads this, set fd | fd in channelMap :: channelMap[fd]
    {
      forall fd :: fd in channelMap && channelMap[fd] !in except ==> kernel[fd].events == channelMap[fd].events
    }

    constructor ()
      ensures Valid() && Synced({}) && Recorded(kernel, history)
      ensures channelMap == map[] && history == [] && eventListSize == INIT_EVENT_LIST_SIZE
    {
      channelMap, kernel, history := map[], map[], [];
      eventListSize := INIT_EVENT_LIST_SIZE;
    }

    /** epoll_ctl, with what the kernel demands: adding needs an absent descriptor,
        the other two a present one. Every caller meets it, so no call fails. */
    method Ctl(op: CtlOp, ch: Channel)
      requires if op.Add? then ch.fd !in kernel else ch.fd in kernel
      modifies `kernel
      ensures kernel == if op.Del? then old(kernel) - {ch.fd} else old(kernel)[ch.fd := Entry(ch.events, ch)]
    {
      if op.Del? {
        kernel := kernel - {ch.fd};
      } else {
        kernel := kernel[ch.fd := Entry(ch.events, ch)];
      }
    }

    method UpdateChannel(ch: Channel)
      requires Valid() && Synced({ch}) && Recorded(kernel, history)
      requires if ch.index == NEW then ch.fd !in channelMap
               else ch.fd in channelMap && channelMap[ch.fd] == ch
      modifies this, ch`index
      ensures Valid() && Synced({}) && Recorded(kernel, history)
      ensures channelMap == old(channelMap)[ch.fd := ch]
      ensures history == old(history) + [Update(ch.fd, ch.events)]
      ensures eventListSize == old(eventListSize)
    {
      ghost var table, h := kernel[ch.fd := Entry(ch.events, ch)], history + [Update(ch.fd, ch.events)];
      assert Recorded(table, h) by {
        RecordedAfterUpdate(kernel, history, ch.fd, Entry(ch.events, ch));
      }
      Register(ch);
      assert kernel == table;
      history := h;
    }

    method Register(ch: Channel)
      requires Valid() && Synced({ch})
      requires if ch.index == NEW then ch.fd !in channelMap
               else ch.fd in channelMap && channelMap[ch.fd] == ch
      modifies `channelMap, `kernel, ch`index
      ensures Valid() && Synced({})
      ensures channelMap == old(channelMap)[ch.fd := ch]
      ensures kernel == old(kernel)[ch.fd := Entry(ch.events, ch)]
    {
      var idx := ch.index;
      if idx == NEW || idx == DELETED {
        var fd := ch.fd;
        if idx == NEW {
          channelMap := channelMap[fd := ch];
        }
        ch.index := ADDED;
        Ctl(Add, ch);
      } else {
        Ctl(Mod, ch);
      }
    }

    /** The channel becomes NEW again, so it may be added once more. Which channel
        object the map holds is not looked at, only its descriptor. */
    method RemoveChannel(ch: Channel)
      requires Valid() && Synced({}) && Recorded(kernel, history)
      requires ch.fd in channelMap && ch.index == ADDED && ch.events == NONE
      modifies this, ch`index
      ensures Valid() && Synced({}) && Recorded(kernel, history)
      ensures channelMap == old(channelMap) - {ch.fd} && ch.index == NEW
      ensures history == old(history) + [Remove(ch.fd)]
      ensures eventListSize == old(eventListSize)
    {
      RecordedAfterRemove(kernel, history, ch.fd);
      history := history + [Remove(ch.fd)];
      Unregister(ch);
    }

    method Unregister(ch: Channel)
      requires Valid() && Synced({})
      requires ch.fd in channelMap && ch.index == ADDED
      modifies `channelMap, `kernel, ch`index
      ensures Valid() && Synced({})
      ensures channelMap == old(channelMap) - {ch.fd} && ch.index == NEW
      ensures kernel == old(kernel) - {ch.fd}
    {
      var idx := ch.index;
      channelMap := channelMap - {ch.fd};
      if idx == ADDED {
        Ctl(Del, ch);
      }
      ch.index := NEW;
    }

    /** epoll_wait reports rows of the table, each at most once and no more than fit.
        The pointers stored in the kernel lead back to the mapped channels. */
    method Poll(ready: seq<Report>) returns (active: seq<Channel>)
      requires Valid() && |ready| <= eventListSize
      requires forall i :: 0 <= i < |ready| ==> ready[i].fd in kernel
      requires forall i, j :: 0 <= i < j < |ready| ==> ready[i].fd != ready[j].fd
      modifies `eventListSize, (set fd | fd in channelMap :: channelMap[fd])`revents
      ensures Valid()
      ensures |active| == |ready|
      ensures forall i :: 0 <= i < |ready| ==>
                active[i] == channelMap[ready[i].fd] && active[i].revents == ready[i].events
      ensures eventListSize == if |ready| == old(eventListSize) then 2 * |ready| else old(eventListSize)
    {
      active := [];
      for i := 0 to |ready|
        invariant Valid() && eventListSize == old(eventListSize)
        invariant |active| == i
        invariant forall k :: 0 <= k < i ==>
                    active[k] == channelMap[ready[k].fd] && active[k].revents == ready[k].events
      {
        var channel := kernel[ready[i].fd].channel;
        assert channel.fd in channelMap && channelMap[channel.fd] == channel;
        channel.revents := ready[i].events;
        active := active + [channel];
      }
      if |ready| > 0 && |ready| == eventListSize {
        eventListSize := eventListSize * 2;
      }
    }
  }
}
