/** What a poller is asked for, as a history of calls, and what each of the two
    pollers makes of it. */
module Registry {
  import opened Channels

  /** UpdateChannel and RemoveChannel, as seen by the registry. */
  datatype Call = Update(fd: nat, events: Mask) | Remove(fd: nat)

  /** The interest map the calls describe: the last update of each descriptor that
      has not been removed since. */
  ghost function Interest(h: seq<Call>): map<nat, Mask> {
    if h == [] then map[]
    else
      var before := Interest(h[..|h| - 1]);
      match h[|h| - 1]
      case Update(fd, e) => before[fd := e]
      case Remove(fd) => before - {fd}
  }

  ghost function NonEmpty(m: map<nat, Mask>): map<nat, Mask> {
    map fd | fd in m && m[fd] != NONE :: m[fd]
  }

  /** Descriptors that, since they were added, were once updated to no events. The
      poll(2) back end negates their slot and never restores it. */
  ghost function Muted(h: seq<Call>): set<nat> {
    if h == [] then {}
    else
      var before := h[..|h| - 1];
      match h[|h| - 1]
      case Update(fd, e) =>
        if fd in Interest(before) && e == NONE then Muted(before) + {fd} else Muted(before)
      case Remove(fd) => Muted(before) - {fd}
  }

  /** The interest the poll(2) back end acts on. */
  ghost function Polled(h: seq<Call>): map<nat, Mask> { NonEmpty(Interest(h)) - Muted(h) }

  /** The call asks for events on a descriptor already muted: the caller's way to see,
      from its own past calls, that poll(2) will ignore the request. */
  ghost predicate ReEnables(h: seq<Call>, i: nat)
    requires i < |h|
  {
    h[i].Update? && h[i].events != NONE && h[i].fd in Muted(h[..i])
  }

  ghost predicate AgreesThroughout(h: seq<Call>) {
    forall k: nat :: k <= |h| ==> Polled(h[..k]) == NonEmpty(Interest(h[..k]))
  }

  lemma AfterUpdate(h: seq<Call>, fd: nat, e: Mask)
    ensures var h' := h + [Update(fd, e)];
            && Interest(h') == Interest(h)[fd := e]
            && Muted(h') == if fd in Interest(h) && e == NONE then Muted(h) + {fd} else Muted(h)
  {
    assert (h + [Update(fd, e)])[..|h|] == h;
  }

  lemma AfterRemove(h: seq<Call>, fd: nat)
    ensures var h' := h + [Remove(fd)];
            Interest(h') == Interest(h) - {fd} && Muted(h') == Muted(h) - {fd}
  {
    assert (h + [Remove(fd)])[..|h|] == h;
  }

  /** No call after the one at j is for fd. */
  ghost predicate LastFor(h: seq<Call>, j: nat, fd: nat)
    requires j < |h|
  { h[j].fd == fd && forall k :: j < k < |h| ==> h[k].fd != fd }

  /** What a descriptor is registered for is what its last call said. */
  lemma {:induction false} InterestIff(h: seq<Call>, fd: nat, e: Mask)
    ensures (fd in Interest(h) && Interest(h)[fd] == e)
       <==> exists j: nat :: j < |h| && LastFor(h, j, fd) && h[j] == Update(fd, e)
  {
    if h != [] {
      var before, last := h[..|h| - 1], |h| - 1;
      InterestIff(before, fd, e);
      if h[last].fd == fd {
        assert LastFor(h, last, fd);
      } else {
        forall j: nat | j < last ensures LastFor(h, j, fd) <==> LastFor(before, j, fd) {}
      }
    }
  }

  ghost predicate Mutes(h: seq<Call>, j: nat, fd: nat)
    requires j < |h|
  { h[j] == Update(fd, NONE) && fd in Interest(h[..j]) && forall k :: j < k < |h| ==> h[k] != Remove(fd) }

  /** A descriptor is muted if some call updated it to none while it was registered, and
      it was not removed since. */
  lemma {:induction false} MutedIff(h: seq<Call>, fd: nat)
    ensures fd in Muted(h) <==> exists j: nat :: j < |h| && Mutes(h, j, fd)
  {
    if h != [] {
      var before, last := h[..|h| - 1], |h| - 1;
      MutedIff(before, fd);
      forall j: nat | j < last ensures Mutes(h, j, fd) <==> Mutes(before, j, fd) && h[last] != Remove(fd) {
        assert before[..j] == h[..j];
      }
      assert Mutes(h, last, fd) <==> h[last] == Update(fd, NONE) && fd in Interest(before);
    }
  }

  lemma {:induction false} MutedStayEmpty(h: seq<Call>)
    requires forall i: nat :: i < |h| ==> !ReEnables(h, i)
    ensures forall fd :: fd in Muted(h) ==> fd in Interest(h) && Interest(h)[fd] == NONE
  {
    if h != [] {
      var before := h[..|h| - 1];
      forall i: nat | i < |before| ensures !ReEnables(before, i) {
        assert before[..i] == h[..i];
        assert !ReEnables(h, i);
      }
      MutedStayEmpty(before);
      assert !ReEnables(h, |h| - 1);
    }
  }

  /** The poll(2) back end watches exactly the non-empty interest, all through a run,
      if and only if the run never asks for events on a channel after having updated
      it to none. */
  lemma PollAgreesIff(h: seq<Call>)
    ensures AgreesThroughout(h) <==> forall i: nat :: i < |h| ==> !ReEnables(h, i)
  {
    if forall i: nat :: i < |h| ==> !ReEnables(h, i) {
      forall k: nat | k <= |h| ensures Polled(h[..k]) == NonEmpty(Interest(h[..k])) {
        forall i: nat | i < k ensures !ReEnables(h[..k], i) {
          assert h[..k][..i] == h[..i];
          assert !ReEnables(h, i);
        }
        MutedStayEmpty(h[..k]);
      }
    } else {
      var i: nat :| i < |h| && ReEnables(h, i);
      var after := h[..i + 1];
      assert after[..|after| - 1] == h[..i];
      assert h[i].fd in Muted(after) && Interest(after)[h[i].fd] != NONE;
      assert h[i].fd in NonEmpty(Interest(after)) && h[i].fd !in Polled(after);
    }
  }

  /** The shortest run on which they part: add, disable everything, enable again. */
  lemma ReEnabledChannelIsNotPolled(fd: nat, events: Mask)
    requires events != NONE
    ensures var h := [Update(fd, events), Update(fd, NONE), Update(fd, events)];
            Interest(h) == map[fd := events] && Polled(h) == map[]
  {
    var h := [Update(fd, events), Update(fd, NONE), Update(fd, events)];
    assert h[..2][..1] == h[..1] && h[..1][..0] == [];
    assert Interest(h[..1]) == map[fd := events] && Muted(h[..1]) == {};
    assert Interest(h[..2]) == map[fd := NONE] && Muted(h[..2]) == {fd};
    assert Muted(h) == {fd};
  }
}
