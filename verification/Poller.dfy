/** `Poller` (evk/poller.cc): the poll(2) back end. A dense list of slots, a map from
    descriptor to channel, and in each channel the index of its slot. */
module Pollers {
  import opened Channels
  import opened Registry

  datatype PollFd = PollFd(fd: int, events: Mask, revents: bv16) {
    /** The descriptor the slot belongs to, negated or not. */
    function Owner(): nat { if fd < 0 then -fd - 1 else fd }

    /** `revents > 0` on a C short */
    predicate HasEvents() { revents != 0 && revents < 0x8000 }
  }

  ghost predicate PointsAtOwn(slots: seq<PollFd>, index: map<nat, int>, fd: nat)
    requires fd in index
  { 0 <= index[fd] < |slots| && slots[index[fd]].Owner() == fd }

  ghost predicate PointedAt(slots: seq<PollFd>, index: map<nat, int>, i: nat)
    requires i < |slots|
  { slots[i].Owner() in index && index[slots[i].Owner()] == i }

  /** Each descriptor points at its own slot, and each slot is pointed at. */
  ghost predicate Indexed(slots: seq<PollFd>, index: map<nat, int>) {
    && (forall fd {:trigger PointsAtOwn(slots, index, fd)} :: fd in index ==> PointsAtOwn(slots, index, fd))
    && (forall i: nat {:trigger PointedAt(slots, index, i)} :: i < |slots| ==> PointedAt(slots, index, i))
  }

  /** The slot carries the events last asked for, and is negated once muted. */
  ghost predicate SlotFaithful(slots: seq<PollFd>, interest: map<nat, Mask>, muted: set<nat>, i: nat)
    requires i < |slots|
  {
    && slots[i].Owner() in interest
    && slots[i].events == interest[slots[i].Owner()]
    && (slots[i].fd < 0 <==> slots[i].Owner() in muted)
  }

  ghost predicate Faithful(slots: seq<PollFd>, interest: map<nat, Mask>, muted: set<nat>) {
    forall i: nat {:trigger SlotFaithful(slots, interest, muted, i)} ::
      i < |slots| ==> SlotFaithful(slots, interest, muted, i)
  }

  lemma AddSlot(slots: seq<PollFd>, index: map<nat, int>, p: PollFd)
    requires Indexed(slots, index) && p.Owner() !in index
    ensures Indexed(slots + [p], index[p.Owner() := |slots|])
  {
    var slots', index' := slots + [p], index[p.Owner() := |slots|];
    forall fd | fd in index' ensures PointsAtOwn(slots', index', fd) {
      assert fd in index ==> PointsAtOwn(slots, index, fd);
    }
    forall i: nat | i < |slots'| ensures PointedAt(slots', index', i) {
      assert i < |slots| ==> PointedAt(slots, index, i);
    }
  }

  lemma SetSlot(slots: seq<PollFd>, index: map<nat, int>, p: PollFd)
    requires Indexed(slots, index) && p.Owner() in index && PointsAtOwn(slots, index, p.Owner())
    ensures Indexed(slots[index[p.Owner()] := p], index)
  {
    var slots' := slots[index[p.Owner()] := p];
    forall fd | fd in index ensures PointsAtOwn(slots', index, fd) {
      assert PointsAtOwn(slots, index, fd);
    }
    forall i: nat | i < |slots'| ensures PointedAt(slots', index, i) {
      assert PointedAt(slots, index, i);
    }
  }

  /** The owner of the slot that a removal moves. */
  function LastOwner(slots: seq<PollFd>): nat { if slots == [] then 0 else slots[|slots| - 1].Owner() }

  function SwapOut(slots: seq<PollFd>, i: nat): seq<PollFd>
    requires i < |slots|
  { slots[i := slots[|slots| - 1]][..|slots| - 1] }

  /** Moving the last slot into the freed one, and its owner's index with it, keeps
      the two in step. */
  lemma RemoveSlot(slots: seq<PollFd>, index: map<nat, int>, fd: nat)
    requires Indexed(slots, index) && fd in index && PointsAtOwn(slots, index, fd)
    ensures var i, moved := index[fd], slots[|slots| - 1].Owner();
            Indexed(SwapOut(slots, i), if moved == fd then index - {fd} else (index - {fd})[moved := i])
  {
    var i, moved := index[fd], slots[|slots| - 1].Owner();
    assert PointedAt(slots, index, |slots| - 1);
    var slots' := SwapOut(slots, i);
    var index' := if moved == fd then index - {fd} else (index - {fd})[moved := i];
    assert index'.Keys == index.Keys - {fd};
    forall f | f in index' ensures PointsAtOwn(slots', index', f) {
      assert PointsAtOwn(slots, index, f);
    }
    forall k: nat | k < |slots'| ensures PointedAt(slots', index', k) {
      assert PointedAt(slots, index, k);
    }
  }

  /** The muted set after updating a registered descriptor. */
  function Mute(muted: set<nat>, fd: nat, e: Mask): set<nat> { if e == NONE then muted + {fd} else muted }

  lemma FaithfulAfterAdd(slots: seq<PollFd>, index: map<nat, int>, interest: map<nat, Mask>, muted: set<nat>, p: PollFd)
    requires Indexed(slots, index) && Faithful(slots, interest, muted)
    requires p.fd >= 0 && p.Owner() !in index && p.Owner() !in muted
    ensures Faithful(slots + [p], interest[p.Owner() := p.events], muted)
  {
    var slots', interest' := slots + [p], interest[p.Owner() := p.events];
    forall i: nat | i < |slots'| ensures SlotFaithful(slots', interest', muted, i) {
      if i < |slots| {
        assert PointedAt(slots, index, i);
        assert SlotFaithful(slots, interest, muted, i);
      }
    }
  }

  lemma FaithfulAfterSet(slots: seq<PollFd>, index: map<nat, int>, interest: map<nat, Mask>, muted: set<nat>, p: PollFd)
    requires Indexed(slots, index) && Faithful(slots, interest, muted)
    requires p.Owner() in index && PointsAtOwn(slots, index, p.Owner())
    requires p.fd == if p.events == NONE then -1 - p.Owner() else slots[index[p.Owner()]].fd
    ensures Faithful(slots[index[p.Owner()] := p], interest[p.Owner() := p.events], Mute(muted, p.Owner(), p.events))
  {
    var slots', interest' := slots[index[p.Owner()] := p], interest[p.Owner() := p.events];
    forall i: nat | i < |slots'| ensures SlotFaithful(slots', interest', Mute(muted, p.Owner(), p.events), i) {
      assert PointedAt(slots, index, i);
      assert SlotFaithful(slots, interest, muted, i);
    }
  }

  lemma FaithfulAfterRemove(slots: seq<PollFd>, index: map<nat, int>, interest: map<nat, Mask>, muted: set<nat>, fd: nat)
    requires Indexed(slots, index) && Faithful(slots, interest, muted)
    requires fd in index && PointsAtOwn(slots, index, fd)
    ensures Faithful(SwapOut(slots, index[fd]), interest - {fd}, muted - {fd})
  {
    var slots' := SwapOut(slots, index[fd]);
    forall i: nat | i < |slots'| ensures SlotFaithful(slots', interest - {fd}, muted - {fd}, i) {
      var j := if i == index[fd] then |slots| - 1 else i;
      assert PointedAt(slots, index, j);
      assert SlotFaithful(slots, interest, muted, j);
    }
  }

  /** The map and the list have the same size. */
  lemma {:induction false} SameSize(slots: seq<PollFd>, index: map<nat, int>)
    requires Indexed(slots, index)
    ensures |index| == |slots|
    decreases |slots|
  {
    if slots == [] {
      assert forall fd :: fd in index ==> PointsAtOwn(slots, index, fd);
      assert index == map[];
    } else {
      assert PointedAt(slots, index, |slots| - 1);
      var last := slots[|slots| - 1].Owner();
      assert PointsAtOwn(slots, index, last);
      RemoveSlot(slots, index, last);
      SameSize(SwapOut(slots, |slots| - 1), index - {last});
      assert index.Keys == (index - {last}).Keys + {last};
    }
  }

  /** No two channels share a slot, and poll(2) is asked for exactly the interest
      that the calls made so far leave unmuted. */
  lemma SlotsWatchPolled(slots: seq<PollFd>, index: map<nat, int>, h: seq<Call>, fd: nat, e: Mask)
    requires Indexed(slots, index) && Faithful(slots, Interest(h), Muted(h)) && index.Keys == Interest(h).Keys
    ensures forall a, b :: a in index && b in index && a != b ==> index[a] != index[b]
    ensures (fd in Polled(h) && Polled(h)[fd] == e)
       <==> (e != NONE && exists i :: 0 <= i < |slots| && slots[i].fd == fd && slots[i].events == e)
  {
    forall a, b | a in index && b in index && a != b ensures index[a] != index[b] {
      assert PointsAtOwn(slots, index, a) && PointsAtOwn(slots, index, b);
    }
    if fd in Polled(h) && Polled(h)[fd] == e {
      assert PointsAtOwn(slots, index, fd);
      assert SlotFaithful(slots, Interest(h), Muted(h), index[fd]);
    }
    forall i: nat | i < |slots| && slots[i].fd == fd && slots[i].events == e && e != NONE
      ensures fd in Polled(h) && Polled(h)[fd] == e
    {
      assert SlotFaithful(slots, Interest(h), Muted(h), i);
    }
  }

  /** The slots with events among the first k, in order: the full scan. */
  ghost function Active(slots: seq<PollFd>, k: nat): seq<PollFd>
    requires k <= |slots|
  {
    if k == 0 then []
    else Active(slots, k - 1) + (if slots[k - 1].HasEvents() then [slots[k - 1]] else [])
  }

  /** The scan finds exactly the slots whose `revents`, a C short, is positive. */
  lemma {:induction false} ActiveIff(slots: seq<PollFd>, k: nat, p: PollFd)
    requires k <= |slots|
    ensures p in Active(slots, k) <==> p in slots[..k] && 0 < p.revents < 0x8000
  {
    if k > 0 {
      ActiveIff(slots, k - 1, p);
      assert slots[..k] == slots[..k - 1] + [slots[k - 1]];
    }
  }

  lemma {:induction false} ActivePrefix(slots: seq<PollFd>, j: nat, k: nat)
    requires j <= k <= |slots|
    ensures Active(slots, j) <= Active(slots, k)
  {
    if j < k {
      ActivePrefix(slots, j, k - 1);
    }
  }

  /** What the poller's fields stand for: the calls made so far, the interest and the
      muted descriptors they leave, and the slot index of each registered channel. */
  datatype View = View(history: seq<Call>, interest: map<nat, Mask>, muted: set<nat>, index: map<nat, int>) {
    ghost predicate Of(slots: seq<PollFd>) {
      && index.Keys == interest.Keys
      && muted <= interest.Keys
      && Indexed(slots, index)
      && Faithful(slots, interest, muted)
    }

    ghost predicate Recorded() { interest == Interest(history) && muted == Muted(history) }

    ghost function Added(fd: nat, e: Mask, i: nat): View {
      View(history + [Update(fd, e)], interest[fd := e], muted, index[fd := i])
    }

    ghost function Updated(fd: nat, e: Mask): View {
      View(history + [Update(fd, e)], interest[fd := e], Mute(muted, fd, e), index)
    }

    ghost function Removed(fd: nat, moved: nat): View
      requires fd in index
    {
      View(history + [Remove(fd)], interest - {fd}, muted - {fd},
           if moved == fd then index - {fd} else (index - {fd})[moved := index[fd]])
    }
  }

  lemma ViewAfterAdd(v: View, slots: seq<PollFd>, p: PollFd)
    requires v.Of(slots) && p.fd >= 0 && p.fd !in v.index
    ensures v.Added(p.fd, p.events, |slots|).Of(slots + [p])
  {
    AddSlot(slots, v.index, p);
    FaithfulAfterAdd(slots, v.index, v.interest, v.muted, p);
  }

  lemma ViewAfterSet(v: View, slots: seq<PollFd>, p: PollFd)
    requires v.Of(slots) && p.Owner() in v.index && PointsAtOwn(slots, v.index, p.Owner())
    requires p.fd == if p.events == NONE then -1 - p.Owner() else slots[v.index[p.Owner()]].fd
    ensures v.Updated(p.Owner(), p.events).Of(slots[v.index[p.Owner()] := p])
  {
    SetSlot(slots, v.index, p);
    FaithfulAfterSet(slots, v.index, v.interest, v.muted, p);
  }

  lemma ViewAfterRemove(v: View, slots: seq<PollFd>, fd: nat)
    requires v.Of(slots) && fd in v.index && PointsAtOwn(slots, v.index, fd)
    ensures v.Removed(fd, LastOwner(slots)).Of(SwapOut(slots, v.index[fd]))
  {
    assert PointedAt(slots, v.index, |slots| - 1);
    RemoveSlot(slots, v.index, fd);
    FaithfulAfterRemove(slots, v.index, v.interest, v.muted, fd);
  }

  /** Each step of the view is the step of the history it records. */
  lemma RecordedAfter(v: View, fd: nat, e: Mask, i: nat)
    requires v.Recorded()
    ensures fd !in v.interest ==> v.Added(fd, e, i).Recorded()
    ensures fd in v.interest ==> v.Updated(fd, e).Recorded()
    ensures fd in v.index ==> v.Removed(fd, i).Recorded()
  {
    AfterUpdate(v.history, fd, e);
    AfterRemove(v.history, fd);
  }

  class Poller {
    var slots: seq<PollFd>
    var channelMap: map<nat, Channel>
    ghost var view: View

    /** Every channel in the map knows its slot, and the slots are those of the view. */
    ghost predicate Valid()
      reads this, set fd | fd in channelMap :: channelMap[fd]
    {
      && channelMap.Keys == view.index.Keys
      && (forall fd :: fd in channelMap ==> channelMap[fd].fd == fd && channelMap[fd].index == view.index[fd])
      && view.Of(slots)
    }

    constructor ()
      ensures Valid() && slots == [] && channelMap == map[] && view.history == [] && view.Recorded()
    {
      slots, channelMap := [], map[];
      view := View([], map[], {}, map[]);
    }

    method UpdateChannel(ch: Channel)
      requires Valid()
      requires if ch.index < 0 then ch.fd !in channelMap
               else ch.fd in channelMap && channelMap[ch.fd] == ch
      modifies this, ch`index
      ensures Valid()
      ensures view == if old(ch.index) < 0 then old(view).Added(ch.fd, ch.events, old(|slots|))
                      else old(view).Updated(ch.fd, ch.events)
      ensures old(view).Recorded() ==> view.Recorded()
      ensures channelMap == old(channelMap)[ch.fd := ch]
      ensures 0 <= ch.index < |slots| && slots[ch.index].events == ch.events && slots[ch.index].revents == 0
    {
      if view.Recorded() {
        RecordedAfter(view, ch.fd, ch.events, |slots|);
      }
      if ch.index < 0 {
        AddSlotFor(ch);
      } else {
        SetSlotOf(ch);
      }
    }

    method AddSlotFor(ch: Channel)
      requires Valid() && ch.index < 0 && ch.fd !in channelMap
      modifies this, ch`index
      ensures Valid() && view == old(view).Added(ch.fd, ch.events, old(|slots|))
      ensures channelMap == old(channelMap)[ch.fd := ch]
      ensures 0 <= ch.index < |slots| && slots[ch.index].events == ch.events && slots[ch.index].revents == 0
    {
      var pfd := PollFd(ch.fd, ch.events, 0);
      ViewAfterAdd(view, slots, pfd);
      view := view.Added(ch.fd, ch.events, |slots|);
      forall fd | fd in channelMap ensures channelMap[fd] != ch {
        assert PointsAtOwn(slots, old(view).index, fd);
      }
      slots := slots + [pfd];
      ch.index := |slots| - 1;
      channelMap := channelMap[ch.fd := ch];
    }

    method SetSlotOf(ch: Channel)
      requires Valid() && ch.fd in channelMap && channelMap[ch.fd] == ch
      modifies `slots, `view
      ensures Valid() && view == old(view).Updated(ch.fd, ch.events)
      ensures 0 <= ch.index < |slots| && slots[ch.index].events == ch.events && slots[ch.index].revents == 0
    {
      var idx := ch.index;
      assert PointsAtOwn(slots, view.index, ch.fd);
      assert idx < |channelMap| by {
        SameSize(slots, view.index);
        assert |channelMap.Keys| == |view.index.Keys|;
      }
      var pfd := slots[idx];
      assert pfd.fd == ch.fd || pfd.fd == -1 - ch.fd;
      pfd := PollFd(if ch.events == NONE then -1 - ch.fd else pfd.fd, ch.events, 0);
      ViewAfterSet(view, slots, pfd);
      view := view.Updated(ch.fd, ch.events);
      slots := slots[idx := pfd];
    }

    /** The removed channel keeps its old index, so it cannot be given to
        UpdateChannel again. */
    method RemoveChannel(ch: Channel)
      requires Valid()
      requires ch.fd in channelMap && channelMap[ch.fd] == ch && ch.events == NONE
      modifies this, (set fd | fd in channelMap :: channelMap[fd])`index
      ensures Valid() && view == old(view).Removed(ch.fd, LastOwner(old(slots)))
      ensures old(view).Recorded() ==> view.Recorded()
      ensures channelMap == old(channelMap) - {ch.fd}
      ensures ch.index == old(ch.index) && ch.index >= 0
    {
      if view.Recorded() {
        RecordedAfter(view, ch.fd, ch.events, LastOwner(slots));
      }
      SwapWithLast(ch);
    }

    method SwapWithLast(ch: Channel)
      requires Valid()
      requires ch.fd in channelMap && channelMap[ch.fd] == ch
      modifies this, (set fd | fd in channelMap :: channelMap[fd])`index
      ensures Valid() && view == old(view).Removed(ch.fd, LastOwner(old(slots)))
      ensures channelMap == old(channelMap) - {ch.fd}
      ensures ch.index == old(ch.index) && ch.index >= 0
    {
      var idx := ch.index;
      assert PointsAtOwn(slots, view.index, ch.fd);
      assert PointedAt(slots, view.index, |slots| - 1);
      ViewAfterRemove(view, slots, ch.fd);
      assert LastOwner(slots) == ch.fd <==> idx == |slots| - 1;
      view := view.Removed(ch.fd, LastOwner(slots));
      ghost var after := SwapOut(slots, idx);
      channelMap := channelMap - {ch.fd};
      if idx == |slots| - 1 {
        slots := slots[..|slots| - 1];
      } else {
        var fdAtEnd := slots[|slots| - 1].fd;
        var swapped := slots[idx := slots[|slots| - 1]][|slots| - 1 := slots[idx]];
        if fdAtEnd < 0 {
          fdAtEnd := -fdAtEnd - 1;
        }
        channelMap[fdAtEnd].index := idx;
        slots := swapped[..|swapped| - 1];
      }
      assert slots == after;
    }

    /** The early-exit scan. poll(2) leaves no events in a slot with a negative
        descriptor; the caller has seen numEvents > 0. */
    method FillActiveChannels(numEvents: int) returns (active: seq<Channel>)
      requires Valid() && numEvents > 0
      requires forall i :: 0 <= i < |slots| && slots[i].fd < 0 ==> slots[i].revents == 0
      modifies (set fd | fd in channelMap :: channelMap[fd])`revents
      ensures Valid()
      ensures forall p :: p in Active(slots, |slots|) <==> p in slots && 0 < p.revents < 0x8000
      ensures |active| == if numEvents < |Active(slots, |slots|)| then numEvents else |Active(slots, |slots|)|
      ensures forall i :: 0 <= i < |active| ==>
                var s := Active(slots, |slots|)[i];
                s.fd in channelMap && active[i] == channelMap[s.fd] && active[i].revents == s.revents
    {
      forall p ensures p in Active(slots, |slots|) <==> p in slots && 0 < p.revents < 0x8000 {
        ActiveIff(slots, |slots|, p);
        assert slots[..|slots|] == slots;
      }
      active := Scan(numEvents);
    }

    method Scan(numEvents: int) returns (active: seq<Channel>)
      requires Valid() && numEvents > 0
      requires forall i :: 0 <= i < |slots| && slots[i].fd < 0 ==> slots[i].revents == 0
      modifies (set fd | fd in channelMap :: channelMap[fd])`revents
      ensures Valid()
      ensures |active| == if numEvents < |Active(slots, |slots|)| then numEvents else |Active(slots, |slots|)|
      ensures forall i :: 0 <= i < |active| ==>
                var s := Active(slots, |slots|)[i];
                s.fd in channelMap && active[i] == channelMap[s.fd] && active[i].revents == s.revents
    {
      active := [];
      var left := numEvents;
      for k := 0 to |slots|
        invariant left == numEvents - |active| > 0
        invariant |active| == |Active(slots, k)|
        invariant forall i :: 0 <= i < |active| ==>
                    var s := Active(slots, k)[i];
                    s.fd in channelMap && active[i] == channelMap[s.fd]
                    && view.index[s.fd] < k && active[i].revents == s.revents
      {
        ActivePrefix(slots, k + 1, |slots|);
        var pfd := slots[k];
        if pfd.HasEvents() {
          left := left - 1;
          assert PointedAt(slots, view.index, k);
          var channel := channelMap[pfd.fd];
          assert channel.fd == pfd.fd;
          channel.revents := pfd.revents;
          active := active + [channel];
          if left <= 0 {
            return;
          }
        }
      }
    }
  }
}
