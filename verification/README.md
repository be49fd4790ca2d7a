# evk, verified

A Dafny model of evk, a reactor-style network library, and proofs of what its state
machines keep over whole runs. Every part is modelled twice. A value-level step system
(or a byte sequence, or a call history) says what each handler does for every answer the
kernel, other threads and user callbacks may give; the main theorems are inductions over
its runs. A class with the source's own fields carries the imperative code, and each of
its methods is proved to take exactly the step it stands for.

| file | models |
|---|---|
| `Common.dfy` | shared definitions |
| `Layout.dfy`, `Buffer.dfy`, `Codec.dfy` | `evk/buffer.h`, `evk/buffer.cc` |
| `Channel.dfy`, `Registry.dfy`, `Poller.dfy`, `EPoller.dfy`, `BackEnds.dfy` | `evk/channel.cc`, `evk/poller.cc`, `evk/epoller.cc` |
| `Status.dfy`, `ConnectionModel.dfy`, `Connection.dfy` | `evk/tcp_conn.h`, `evk/tcp_conn.cc` |
| `TimerModel.dfy`, `TimerInvariant.dfy`, `TimerRuns.dfy`, `TimerBatches.dfy`, `TimerRequests.dfy`, `TimerPosting.dfy`, `TimerQueue.dfy` | `evk/timer_queue.cc`, `evk/invoke_timer.cc` |
| `LoopModel.dfy`, `EventLoop.dfy` | `evk/event_loop.cc` |
| `Lifecycle.dfy`, `TcpServer.dfy`, `Projection.dfy`, `ServerLoops.dfy` | `evk/tcp_server.cc`, across loops |

Conventions. The kernel is an adversary: write(2) takes any part of what it is offered or
fails, readv delivers anything that fits, poll reports anything the interest table allows.
One law of POSIX is kept: after shutdown(SHUT_WR) write(2) takes nothing. These answers
are parameters. `size_t`, `int` sequence numbers and times are unbounded.
Time is in nanoseconds. A callback that re-enters the library is a sequence of further
steps. An assert in the source is a `requires`, or a `failed` flag with the exact condition
on which it is set.

Where the code falls short of the property one would like, the project keeps the code,
and proves when the property holds:

- A channel updated to no events and then enabled again is not polled by the poll(2) back
  end, where epoll does watch it: `PollAgreesIff`, `BackEndsAgreeIff`.
- A half-close may cut off buffered bytes, when another thread's `Shutdown` reaches the
  loop after the connection closed: `HalfCloseFindsBufferEmptyIff`; such a run is
  `HalfCloseMayCutOffBytes`.
- write(2) is called after the half-close when another thread's message reaches the loop
  after it: `WritesAfterHalfCloseIff`. Such a message never reaches the wire:
  `PostedMessageReachesWireIff`; a run is `PostedMessageMayBeLost`.
- A cancel does nothing to a timer whose `AddTimerInLoop` is still queued:
  `CancelTakesEffectIffAdded`; a run is `OvertakenCancelIsLost`. One posted behind the
  add is not lost: `PostedCancelTakesEffect`. A cancel does not stop a call that the batch
  being delivered has yet to make: `CancelledIsCalledAgainIff`.
- The timerfd wakes the loop for nothing when a cancel has taken away the only timer due by
  then: `WakesStep`.
- The destructor of a loop asserts kStopped, which a Stop after Run has returned breaks:
  `StoppedAfterReturnIff`.
- A task the loop thread queues outside `Run` is not signalled: `NoLostWakeup`,
  `StuckAtFirstPollIff`; a run is `PushBeforeRunGetsStuck`. A stop stored before kRunning is overwritten: `StopIsLostIff`.
- A hang-up reported for a closed connection that an I/O loop still has registered, or one
  that closes twice in one event, fails an assert: `LifecycleIsSafe`, `BaseFailsIff`; a run
  of a server from its start is `HangUpReportedTwiceFails`.

Where code and comments disagree the model follows the code: `EPoller::RemoveChannel`
assigns where its assert means to compare (evk/epoller.cc:114), so the model does not ask
which channel object is mapped; the comment that `QueueInLoop` is always called by another
thread (evk/event_loop.cc:144) is not assumed.

## Model

| member | source | states |
|---|---|---|
| Layouts.Layout.Apply | evk/buffer.h:51-101 | every call on a buffer keeps read ≤ write ≤ capacity and reserved ≤ capacity, and only Shrink changes the reserve |
| Layouts.CopyingIsPaidForByGrowth | evk/buffer.h:406-417 | over every run without Shrink, all bytes copied by reallocations together are at most the capacity gained |
| Layouts.CapacityFollowsPeak | evk/buffer.h:406-417 | when only writes and reads from a descriptor grow the buffer, capacity ≤ max(initial capacity, 3·peak readable length + 2·reserved) |
| Layouts.HeaderAlwaysFits | evk/buffer.h:182-187 | through every run without a prepend, a header as long as the reserve can be prepended |
| Layouts.StartsOver | evk/buffer.h:51-101 | emptying the buffer, or any growth, leaves the read index at the reserve; Shrink(n) leaves exactly n writable bytes behind the default reserve of 8 |
| Buffers.Buffer.constructor | evk/buffer.h:25-34 | a new buffer is empty, with the asked room behind the reserved prefix |
| Buffers.Buffer.Swap | evk/buffer.h:42-48 | exchanges storage and indexes |
| Buffers.Buffer.Truncate | evk/buffer.h:68-75 | keeps the first n readable bytes; n = 0 moves both indexes to the reserve |
| Buffers.Buffer.Skip | evk/buffer.h:51-57 | drops the first n readable bytes, or all of them |
| Buffers.Buffer.Grow | evk/buffer.h:406-428 | the readable bytes are unchanged, the room suffices and the read index is at the reserve; storage is replaced exactly when the free bytes cannot hold the request and the reserve; both inner asserts hold |
| Buffers.Buffer.Reserve | evk/buffer.h:87-93 | contents unchanged, capacity at least the request; whenever it grows, storage is replaced |
| Buffers.Buffer.EnsureWritableBytes | evk/buffer.h:96-101 | contents unchanged and at least len bytes writable |
| Buffers.Buffer.Write | evk/buffer.h:122-127 | appends the bytes to the contents |
| Buffers.Buffer.Prepend | evk/buffer.h:182-187 | puts the bytes in front of the contents, if they fit before the read index |
| Buffers.Buffer.Next | evk/buffer.h:248-264 | splits the contents into the returned bytes and the rest |
| Buffers.Buffer.Shrink | evk/buffer.h:234-238 | contents unchanged in fresh storage of exactly the asked size, with the default reserve |
| Buffers.Buffer.ReadFromFD | evk/buffer.cc:24-48 | whatever readv delivers is appended in order, also when it overflows into extrabuf |
| Buffers.Replay | evk/buffer.h:51-108 | for every sequence of calls the readable region is the byte sequence those calls build, and the indexes are those of the layout model |
| Codec.BswapReverses | evk/buffer.h:111-119 | the mask-and-shift macro, on 64-bit words, reverses the bytes of the word's memory image |
| Codec.BswapIsNetOrder | evk/buffer.h:111-119 | so the macro's value is the byte-swapped value used by the codec at 64 bits |
| Codec.ImageIsInjective | evk/buffer.h:111-119 | a 64-bit word is known by its memory image |
| Codec.SwappedImage | evk/buffer.h:142-155 | what the source copies into memory is the byte-reversed image of the integer, at every width |
| Codec.MostSignificantFirst | evk/buffer.h:141-159 | encoded byte i is the i-th most significant byte |
| Codec.TwosComplement | evk/buffer.h:141-159 | the word of a non-negative value is the value; of a negative one, the value plus the number of words |
| Codec.SignedInRange | evk/buffer.h:299-324 | the value read from a word lies in the width's range and is the word, or the word less the number of words |
| Codec.DecodeEncode | evk/buffer.h:299-324 | decoding an encoded integer returns it, negative ones included |
| Codec.AppendInt | evk/buffer.h:142-159 | appends the network form |
| Codec.PrependInt | evk/buffer.h:162-179 | prepends the network form |
| Codec.PeekInt | evk/buffer.h:299-324 | returns the integer whose network form leads the contents |
| Codec.ReadInt | evk/buffer.h:202-224 | the same, and drops those bytes |
| Codec.PrependThenPeek | evk/buffer.h:162-187 | peeking after prepending returns the integer |
| Codec.RoundTrip | evk/buffer.h:141-224 | any list of mixed-width integers appended to an empty buffer of any size reads back equal and leaves it empty |
| Channels.MaskOperations | evk/channel.cc:61-80 | the bit operations on events_ switch the read and the write part independently; no bits means neither |
| Channels.Channel.constructor | evk/channel.cc:13-22 | a new channel wants nothing and is in no poller |
| Channels.Channel.EnableReadEvent | evk/channel.cc:61-64 | read interest on, write interest as before |
| Channels.Channel.DisableReadEvent | evk/channel.cc:69-72 | read interest off, write interest as before |
| Channels.Channel.EnableWriteEvent | evk/channel.cc:65-68 | write interest on, read interest as before |
| Channels.Channel.DisableWriteEvent | evk/channel.cc:73-76 | write interest off, read interest as before |
| Channels.Channel.DisableAllEvent | evk/channel.cc:77-80 | no interest left |
| Channels.Channel.HandleEvent | evk/channel.cc:41-59 | runs exactly the installed callbacks the reported mask calls for, each once, in the order close, error, read, write; a connection's handlers among them close it exactly CloseCalls times |
| Channels.Dispatch | evk/channel.cc:46-57 | the four tests make exactly the calls due |
| Channels.ReportIsAnswered | evk/channel.cc:46-57 | the read callback runs if and only if a bit the channel asked to read for, or POLLRDHUP, is reported; write, error and close for exactly their bits |
| Channels.DoubleClose | evk/channel.cc:46-54 | one event closes twice if and only if it is a hang-up without POLLIN but with POLLPRI or POLLRDHUP, and the read finds end of file |
| Registry.PollAgreesIff | evk/poller.cc:66-82 | the poll(2) back end watches exactly the non-empty interest throughout a run if and only if the run never asks for events on a channel after updating it to none |
| Registry.InterestIff | evk/poller.cc:48-83 | a descriptor is registered for exactly what its last call said |
| Registry.MutedIff | evk/poller.cc:73-81 | its slot is negated if and only if some call updated it to none while it was registered, and it was not removed since |
| Registry.ReEnabledChannelIsNotPolled | evk/poller.cc:73-81 | add, disable, enable: the interest is there and is not polled |
| Pollers.RemoveSlot | evk/poller.cc:105-116 | swap-with-last removal keeps every index pointing at its own slot and every slot pointed at |
| Pollers.SameSize | evk/poller.cc:70-71 | the list and the map have equal size, which the index assert relies on |
| Pollers.SlotsWatchPolled | evk/poller.cc:56-82 | no two channels share a slot, and the slots poll(2) looks at are exactly the unmuted non-empty interest of the call history |
| Pollers.Poller.constructor | evk/poller.cc:8-9 | an empty registry is consistent |
| Pollers.Poller.UpdateChannel | evk/poller.cc:48-83 | adds a slot or rewrites the channel's own, keeps the registry consistent and faithful to the call history, clears the reported events |
| Pollers.Poller.RemoveChannel | evk/poller.cc:91-117 | removes channel and slot, re-indexes the moved one, keeps the registry consistent; the removed channel keeps its stale index |
| Pollers.Poller.FillActiveChannels | evk/poller.cc:30-46 | the early-exit scan returns the first numEvents channels of the full scan, in order, with their events; the full scan is exactly the slots whose revents is positive as a C short |
| EPollers.EPoller.constructor | evk/epoller.cc:26-33 | the empty table matches the empty map |
| EPollers.EPoller.Ctl | evk/epoller.cc:128-141 | epoll_ctl changes the table; ADD needs an absent descriptor, MOD and DEL a present one |
| EPollers.EPoller.UpdateChannel | evk/epoller.cc:82-101 | the kernel table stays the map with every channel's current events, and the interest of the call history; no call of epoll_ctl can fail |
| EPollers.EPoller.RemoveChannel | evk/epoller.cc:108-126 | the same after a removal; the channel may be added again |
| EPollers.EPoller.Poll | evk/epoller.cc:39-80 | the pointers stored in the kernel lead to the mapped channels, in report order; the event list doubles exactly when it was filled |
| BackEnds.ChangeWithEPoll | evk/channel.cc:36-80 | a channel's change and its Update, through to epoll: the kernel table again holds every channel's events, and the history gains that update |
| BackEnds.ChangeWithPoll | evk/channel.cc:36-80 | the same with the poll(2) registry |
| BackEnds.RemoveWithEPoll | evk/channel.cc:30-34 | Channel::Remove, through to epoll: the channel is out of map and table, and new again |
| BackEnds.BackEndsAgreeIff | evk/poller.cc:66-82 | for one call history, states of the two back ends that are faithful to it watch the same events after every call if and only if no call asks for events on a channel after having updated it to none |
| BackEnds.ReplayPoll | evk/poller.cc:48-117 | any legal history of calls, made on a new poll(2) poller with real channels, leaves it faithful to that history after every call |
| BackEnds.ReplayEPoll | evk/epoller.cc:82-126 | the same for a new epoll poller |
| BackEnds.Replay | evk/poller.cc:66-82 | so the two real pollers watch the same events throughout a legal history if and only if no call in it re-enables a channel |
| ConnectionModel.ByteStreamConserved | evk/tcp_conn.cc:84-206 | in every run, bytes taken by the socket followed by bytes buffered are what was buffered at first followed by every accepted message |
| ConnectionModel.ConservedFromFresh | evk/tcp_conn.cc:159-206 | for a new connection: wire then buffer is the accepted messages end to end, so the wire is a prefix of them |
| ConnectionModel.MessageIsTakenIff | evk/tcp_conn.cc:130-206 | a message is refused for the status alone, dropped only when nothing waits and the peer is gone, and otherwise sent or buffered whole, behind what waits |
| ConnectionModel.AttemptsIff | evk/tcp_conn.cc:84-108 | write(2) is called by a writable event exactly while bytes wait, by a message exactly while none do; the bytes sent are as many as it answers |
| ConnectionModel.WriteInterestMatchesBuffer | evk/tcp_conn.cc:84-118 | in every run write interest is on exactly while bytes are buffered, an open connection reads, a closed one wants nothing and stays closed |
| ConnectionModel.HighWaterMatchesCrossings | evk/tcp_conn.cc:192-201 | in every run the high-water callbacks are one for one the steps that cross the mark, with the exact new length |
| ConnectionModel.WriteCompleteMeansAllSent | evk/tcp_conn.cc:90-97 | whenever write-complete is queued every byte accepted so far is on the wire |
| ConnectionModel.WriteCompleteStep | evk/tcp_conn.cc:92-97 | write-complete is queued if and only if it was asked for and a write of this step leaves nothing to be written |
| ConnectionModel.WriteCompleteMatchesCompletions | evk/tcp_conn.cc:90-97 | in every run it is queued one for one with those steps |
| ConnectionModel.WritesAfterHalfCloseIff | evk/tcp_conn.cc:163-223 | in every run, whatever the socket would answer, the code calls write(2) after the half-close if and only if another thread's message reaches the loop after it while the connection is not yet closed |
| ConnectionModel.AttemptStep | evk/tcp_conn.cc:84-223 | no byte goes out but by a call of write(2); after the half-close no write interest is left, and every step but such a late message keeps it so |
| ConnectionModel.NothingSentAfterHalfClose | evk/tcp_conn.cc:208-223 | the half-close (section 3.6 of RFC 9293) happens at most twice, and has happened once a shutdown has reached the loop and the buffer is empty; given that write(2) takes nothing after shutdown(SHUT_WR), no byte follows it or the close |
| ConnectionModel.HalfClosedAtMostOnce | evk/tcp_conn.cc:208-223 | at most once when Shutdown too is only called in the loop thread |
| ConnectionModel.ShutdownStep | evk/tcp_conn.cc:208-216 | the first Shutdown puts the connection into shutdown, and half-closes at once if made in the loop thread with nothing waiting |
| ConnectionModel.ShutdownIsHonoured | evk/tcp_conn.cc:208-223 | in every run from there without a close it stays so, and its write side is closed once the request has reached the loop and all is written |
| ConnectionModel.PostedMessageReachesWireIff | evk/tcp_conn.cc:130-142 | a message another thread posted can still be sent, behind what is buffered, if and only if the loop comes to it before the close and the half-close; otherwise none of it is, in any run |
| ConnectionModel.PostedMessageMayBeLost | evk/tcp_conn.cc:130-142 | a run on which one is lost |
| ConnectionModel.HalfCloseFindsBufferEmptyIff | evk/tcp_conn.cc:218-223 | a step half-closes over buffered bytes if and only if it is a posted ShutdownInLoop run after the connection closed with bytes buffered |
| ConnectionModel.HalfCloseMayCutOffBytes | evk/tcp_conn.cc:208-223 | a run on which one does |
| ConnectionModel.LifeIsReportedOnce | evk/tcp_conn.cc:51-67 | in every run the connection callback reports the connection up once, and its end is reported once, exactly when it has come: by the close callback if HandleClose closed it, else by the connection callback |
| Connections.TcpConnection.constructor | evk/tcp_conn.cc:11-36 | a new connection is the fresh state |
| Connections.TcpConnection.WriteDirect | evk/tcp_conn.cc:173-189 | tries the socket, queues write-complete if it took everything, tells a gone peer from a full socket |
| Connections.TcpConnection.TryDirect | evk/tcp_conn.cc:172-189 | the socket is tried exactly when nothing waits to be written |
| Connections.TcpConnection.Enqueue | evk/tcp_conn.cc:192-205 | buffers the rest, queues the high-water callback, turns write interest on |
| Connections.TcpConnection.SendInLoop | evk/tcp_conn.cc:163-206 | exactly the send step, its bytes on the wire and its callbacks, for every answer of the socket |
| Connections.TcpConnection.Send | evk/tcp_conn.cc:130-142 | the same in the loop thread, refused unless connected |
| Connections.TcpConnection.HandleWrite | evk/tcp_conn.cc:84-108 | exactly the writable step: what the socket took is dropped, an emptied buffer turns interest off and may half-close |
| Connections.TcpConnection.HandleClose | evk/tcp_conn.cc:110-118 | exactly the close step, and the close callback |
| Connections.TcpConnection.HandleRead | evk/tcp_conn.cc:69-82 | received bytes are appended to the input buffer and the message callback is called, an empty read closes, an error changes nothing |
| Connections.TcpConnection.ShutdownInLoop | evk/tcp_conn.cc:218-223 | half-closes unless write interest is on |
| Connections.TcpConnection.Shutdown | evk/tcp_conn.cc:208-216 | only the first call on a connected connection counts |
| Connections.TcpConnection.RunQueuedShutdown | evk/tcp_conn.cc:212-214 | exactly the posted-shutdown step |
| Connections.TcpConnection.OnConnectEstablished | evk/tcp_conn.cc:51-57 | exactly the establish step, and the connection callback |
| Connections.TcpConnection.OnConnectDestroyed | evk/tcp_conn.cc:59-67 | exactly the destroy step, with the connection callback if it was still connected; no event is wanted when the channel is removed |
| Connections.Replay | evk/tcp_conn.cc:51-223 | a whole run of calls, over the real buffer and channel, is a run of the step system |
| Connections.ServeNew | evk/tcp_conn.cc:159-206 | for a connection object built from scratch and any run: wire followed by buffer is the accepted messages |
| TimerInvariant.KeepCreate | evk/invoke_timer.cc:9-23 | a new timer has a fresh sequence number and keeps the invariant, wherever the allocator puts it |
| TimerInvariant.KeepAdd | evk/timer_queue.cc:93-122 | inserting keeps the two indexes, the batch and the heap in agreement |
| TimerInvariant.KeepCancel | evk/timer_queue.cc:129-145 | so does cancelling, and a timer found active is live |
| TimerInvariant.KeepBegin | evk/timer_queue.cc:166-186 | so does taking out the expired timers |
| TimerInvariant.KeepFire | evk/timer_queue.cc:158-160 | a timer about to be called has not been deleted |
| TimerInvariant.KeepReset | evk/timer_queue.cc:191-200 | so does each turn of the loop in Reset |
| TimerInvariant.Step | evk/timer_queue.cc:93-209 | every step, re-entered ones included, keeps the invariant |
| TimerInvariant.SizesAgree | evk/timer_queue.cc:103-120 | the two indexes have equal size, which the asserts check |
| TimerInvariant.Earliest | evk/timer_queue.cc:202-204 | the first entry carries the least expiration |
| TimerRuns.FiringsAreWellBehaved | evk/timer_queue.cc:147-200 | over every run and any clock: no timer fires early, a one-shot fires at most once, firings of a repeating one are an interval apart, none is deleted twice or fires after deletion |
| TimerBatches.DeliversAllDue | evk/timer_queue.cc:147-186 | one delivery, whatever its callbacks add or cancel, calls exactly the timers due when it began, each once, by expiration and address, with that time |
| TimerBatches.RepeatsIffNotCancelled | evk/timer_queue.cc:155-200 | a delivered timer is queued again, one interval after the delivery's time, if and only if it repeats and was not cancelled during that delivery; otherwise it is deleted |
| TimerRequests.TimerIsAsAsked | evk/invoke_timer.cc:9-23 | over every run, a timer that AddTimer made keeps its interval and repetition, is due when asked until it is first called, and every call of it is for the time due: the time asked, then an interval after the delivery before |
| TimerRequests.AskedTimerRepeats | evk/invoke_timer.cc:34-41 | so a timer asked to repeat and not cancelled in its delivery is queued again its own interval later, and any other is gone |
| TimerRequests.CalledIffDue | evk/timer_queue.cc:147-186 | a delivery at `now` calls a queued timer, exactly once, if and only if its expiration is not after `now` |
| TimerRuns.EndDisposesOfBatch | evk/timer_queue.cc:188-200 | a repeating timer not cancelled is queued again for exactly one interval after the batch, any other is deleted |
| TimerRuns.EveryTimerIsAccountedFor | evk/timer_queue.cc:85-145 | over every run each timer ever created is live or deleted |
| TimerRuns.ExactlyOnePlace | evk/timer_queue.cc:101-200 | a live timer is in exactly one of transit, queue and batch; deleted and live exclude each other |
| TimerRuns.TimerfdIsSetEarlyEnough | evk/timer_queue.cc:23-58 | between timerfd events every queued timer is covered: deadline ≤ max(expiration, arming time + 100 µs), through any mix of inserts, cancels and batches; and each time it is set exactly as below |
| TimerRuns.TimerfdIsSetExactly | evk/timer_queue.cc:23-58 | the timerfd is set to the first expiration queued, not sooner than 100 µs from the clock, by an add that comes first and at the end of every batch that leaves a valid one; reading disarms it, nothing else touches it |
| TimerRuns.WakesStep | evk/timer_queue.cc:124-145 | a timer is due when the timerfd becomes readable, and every step keeps it so if and only if it is not a cancel of the only timer due by then |
| TimerRuns.NoIdleWakeup | evk/timer_queue.cc:93-209 | so in every run without cancels the timerfd never wakes the loop for nothing |
| TimerRuns.CancelDoomsIff | evk/timer_queue.cc:129-145 | a cancel takes effect if and only if the timer's AddTimerInLoop is not still on its way |
| TimerRuns.CancelTakesEffectIffAdded | evk/timer_queue.cc:85-127 | for the id AddTimer returned and after any run: cancelling takes effect if and only if the posted AddTimerInLoop is in that run |
| TimerRuns.IdsAlongRuns | evk/timer_queue.cc:85-91 | an id names its own timer for good, over every run, even when the address is reused |
| TimerRuns.OvertakenCancelIsLost | evk/timer_queue.cc:129-145 | create, cancel, add: the timer is queued all the same |
| TimerRuns.QueuedTimerFires | evk/timer_queue.cc:147-164 | and a lone queued timer fires at the next delivery |
| TimerRuns.CancelTouchesOnlyItsTimer | evk/timer_queue.cc:129-145 | no other timer is affected, even one reusing the address |
| TimerRuns.OutstandingAreCalled | evk/timer_queue.cc:155-163 | a delivery, whatever its callbacks create, add or cancel, makes exactly the calls still outstanding |
| TimerRuns.CancelledFiresOnlyInBatch | evk/timer_queue.cc:155-200 | over every run after a cancel that takes effect, the calls made and those outstanding are the ones that were made and outstanding at the cancel: no later batch adds one |
| TimerRuns.CancelledIsCalledAgainIff | evk/timer_queue.cc:124-163 | a timer cancelled once its add has run is called again if and only if the batch being delivered has yet to call it, and then exactly once |
| TimerPosting.PostedCancelTakesEffect | evk/timer_queue.cc:85-127 | through the loop's task queue, with any other threads, tasks and timers: a cancel posted behind its add takes effect when the loop runs it |
| TimerRuns.TimerQueueIsSound | evk/timer_queue.cc:63-209 | all of it, for every run of a new queue |
| TimerQueues.First | evk/timer_queue.cc:107-108 | the first element in set order |
| TimerQueues.Before | evk/timer_queue.cc:170-175 | the elements before the bound, in set order |
| TimerQueues.TimerQueue.constructor | evk/timer_queue.cc:63-72 | the empty queue |
| TimerQueues.TimerQueue.AddTimer | evk/timer_queue.cc:85-91 | exactly the creating step: the new timer has the expiration, interval and repetition asked for; the id returned names it alone |
| TimerQueues.TimerQueue.RunAt | evk/event_loop.cc:109-111 | a timer that fires once, at the time given |
| TimerQueues.TimerQueue.RunEvery | evk/event_loop.cc:118-121 | a timer that repeats exactly if the interval is positive, every whole number of nanoseconds in it, first one interval from now |
| TimerQueues.TimerQueue.Insert | evk/timer_queue.cc:101-122 | both inserts are new, both indexes grow by one, and the result says whether the timer is first to expire |
| TimerQueues.TimerQueue.ResetTimerfd | evk/timer_queue.cc:23-58 | sets the timerfd to the expiration, not sooner than 100 µs from now |
| TimerQueues.TimerQueue.AddTimerInLoop | evk/timer_queue.cc:93-99 | exactly the adding step |
| TimerQueues.TimerQueue.CancelInLoop | evk/timer_queue.cc:129-145 | exactly the cancelling step |
| TimerQueues.TimerQueue.GetExpired | evk/timer_queue.cc:166-186 | moves out exactly the timers with expiration ≤ now, ordered by expiration and address, from both indexes |
| TimerQueues.TimerQueue.BeginHandleRead | evk/timer_queue.cc:149-156 | exactly the step that begins a batch |
| TimerQueues.TimerQueue.CallNext | evk/timer_queue.cc:158-160 | exactly one call, on a live timer |
| TimerQueues.TimerQueue.Reset | evk/timer_queue.cc:188-209 | exactly the step that ends a batch |
| TimerQueues.TimerQueue.HandleRead | evk/timer_queue.cc:147-164 | with any callbacks adding and cancelling timers in between, HandleRead is a run of the step system from begin to end, and leaves no batch behind |
| LoopModel.NoLostWakeup | evk/event_loop.cc:79-148 | for all interleavings and repeated calls of Run: a loop about to block with pending tasks or a stop requested has a readable eventfd or a thread about to signal, except exactly while a task its own thread queued outside Run waits for a swap and nobody signalled for another reason |
| LoopModel.StuckAtFirstPollIff | evk/event_loop.cc:135-148 | in every run to the first poll, with any other threads, the loop is stuck if and only if its own thread queued a task and no other thread queued one or stopped the loop |
| LoopModel.PushBeforeRunGetsStuck | evk/event_loop.cc:135-148 | the shortest such run |
| LoopModel.WakeupAnswersASignal | evk/event_loop.cc:167-184 | once the wakeup handler has run the eventfd counts the signals made since, so another wakeup is reported only if there was one |
| LoopModel.WakeupsAreEarned | evk/event_loop.cc:167-184 | in every run the wakeup handler runs at most once for each signal |
| LoopModel.StatusFollowsPlace | evk/event_loop.cc:79-99 | in every run the status, unless a stop has overwritten it, says where Run is |
| LoopModel.StopSticks | evk/event_loop.cc:84-107 | a stop stored after kRunning is never overwritten and the loop does not poll again before Run returns |
| LoopModel.StopIsLostIff | evk/event_loop.cc:84-107 | after a Stop by any thread the loop may poll again before Run returns if and only if the stop came outside Run or between the stores of kStarting and kRunning |
| LoopModel.StoppedAfterReturnIff | evk/event_loop.cc:58-64 | once Run has returned, the kStopped that the destructor asserts holds if and only if nobody has called Stop since |
| LoopModel.TasksRunOnceInOrder | evk/event_loop.cc:135-165 | for all producers and tasks that queue tasks: executed, batch and pending are the pushes in order, so nothing is lost, repeated or reordered |
| LoopModel.PushedAreThePushes | evk/event_loop.cc:135-140 | what a run has pushed is the tasks queued in it, by whichever thread, in order |
| LoopModel.PendingWaitsForSwap | evk/event_loop.cc:150-165 | a pending task, one queued by a task included, is not run before the next swap |
| LoopModel.LoopIsSound | evk/event_loop.cc:79-184 | the promises together, for every run of a new loop: tasks run as a prefix of those queued, wakeups are earned, and a stuck loop has an early task |
| EventLoops.EventLoop.constructor | evk/event_loop.cc:37-56 | the initial state |
| EventLoops.EventLoop.PushPending | evk/event_loop.cc:137-140 | appends one functor to the pending list |
| EventLoops.EventLoop.Wakeup | evk/event_loop.cc:167-175 | the eventfd counts one more |
| EventLoops.EventLoop.QueueInLoop | evk/event_loop.cc:135-148 | in the loop thread: pushes, and signals exactly while tasks are being run |
| EventLoops.EventLoop.PushInLoop | evk/event_loop.cc:137-145 | its push, exactly that step |
| EventLoops.EventLoop.WakeInLoop | evk/event_loop.cc:145-147 | its signal, exactly that step |
| EventLoops.EventLoop.QueueFrom | evk/event_loop.cc:135-140 | in another thread: exactly the push step |
| EventLoops.EventLoop.StopFrom | evk/event_loop.cc:101-103 | exactly the store of kStopping |
| EventLoops.EventLoop.WakeupFrom | evk/event_loop.cc:104-106 | exactly the signal that follows |
| EventLoops.EventLoop.HandleRead | evk/event_loop.cc:177-184 | exactly the step that empties the eventfd |
| EventLoops.EventLoop.TakePending | evk/event_loop.cc:155-158 | exactly the swap |
| EventLoops.EventLoop.RunLoop | evk/event_loop.cc:79-99 | any number of turns, with any events and tasks, the eventfd's handler anywhere among the others, and other threads between any two steps, is a run of the step system; Run returns, with kStopped stored, as soon as a check finds the status changed |
| EventLoops.EventLoop.DoPendingFunctors | evk/event_loop.cc:150-165 | with anything tasks and other threads do meanwhile, executes exactly the tasks pending at the swap, in order: those pending at the call and what other threads add until the swap |
| Lifecycle.KeepStep | evk/tcp_server.cc:59-99 | every step of every loop either closes a connection more often than it is open, and fails an assert, or keeps each connection at one stage of its life with exactly the one task that stage waits for |
| Lifecycle.LifecycleIsSafe | evk/tcp_server.cc:59-99 | a run over any number of loops fails an assert if and only if some event in it closes a connection more often than it is open; in every other run each connection is established at most once before anything else, erased at most once and found, its channel removed at most once |
| Lifecycle.BaseFailsIff | evk/tcp_conn.cc:110-118 | in the base loop an event fails an assert if and only if it is a hang-up without POLLIN but with POLLPRI or POLLRDHUP, and the read finds end of file |
| Lifecycle.LivesAreOrderly | evk/tcp_conn.cc:51-67 | a connection whose event is waiting is registered and in its own loop, and open if that is the base loop |
| Lifecycle.RemovedOnlyAsATask | evk/event_loop.cc:88-95 | a channel leaves the poller only as a task of its own loop, wanting no events, erased, and with no event of it waiting anywhere |
| Lifecycle.NothingLeftBehind | evk/tcp_server.cc:87-99 | when no task is left every connection is in service and mapped, or gone and unmapped |
| Lifecycle.BasePollsServed | evk/tcp_server.cc:87-99 | the base loop never polls a closed connection of its own, so it needs no assumption about idle hang-ups |
| Lifecycle.AcceptIsForTheChosenLoop | evk/tcp_server.cc:59-85 | a new connection gets a number never used, the loop chosen for it and a place in the map, and waits there to be established unless that is the base loop; nothing else changes |
| Lifecycle.IdleHangUpFails | evk/epoller.cc:82-101 | a hang-up on a closed, still registered channel fails, and only a loop other than the base loop can poll one |
| Lifecycle.ClosedStaysRegistered | evk/tcp_conn.cc:110-118 | an I/O loop that closes a connection does poll again with it registered |
| Lifecycle.HangUpReportedTwiceFails | evk/tcp_conn.cc:110-118 | a run of a server from its start on which an assert fails |
| Lifecycle.StartIsSafe | evk/tcp_server.cc:12-33 | the server at start satisfies the invariant |
| TcpServers.TcpServer.constructor | evk/tcp_server.cc:12-33 | the server at start |
| TcpServers.TcpServer.HandleNewConnection | evk/tcp_server.cc:59-85 | exactly the accepting step, in every loop GetNextLoop may choose |
| TcpServers.TcpServer.RemoveConnection | evk/tcp_server.cc:87-89 | at once in the base loop, posted from any other |
| TcpServers.TcpServer.RemoveConnectionInLoop | evk/tcp_server.cc:91-99 | erases the name, which must be there, and queues the destruction |
| TcpServers.TcpServer.RunNextTask | evk/tcp_conn.cc:51-67 | exactly the step of the batch's first functor, whose asserts hold |
| TcpServers.TcpServer.HandleClose | evk/tcp_conn.cc:110-118 | exactly the closing of one connection, with the close callback |
| TcpServers.TcpServer.HandleNext | evk/event_loop.cc:91-93 | exactly the step that handles the next active channel, unless it closes too often |
| TcpServers.TcpServer.ShutDown | evk/tcp_conn.cc:208-216 | exactly the shutdown step |
| TcpServers.TcpServer.MoveOn | evk/event_loop.cc:88-95 | exactly the step between the phases of a loop |
| TcpServers.TcpServer.Replay | evk/tcp_server.cc:59-99 | a whole run of the server object is a run of the lifecycle |
| Projection.ServedIsARun | evk/tcp_server.cc:59-99 | in every run of the server without a failing assert, what happens to one connection, woven with anything its data path meets, is a run of the connection's step system: all asserts of its handlers hold |
| Projection.EveryConnectionConserves | evk/tcp_conn.cc:159-206 | so for every connection of every server from its start, bytes sent followed by bytes buffered are the messages accepted |
| ServerLoops.LoopOfServer | evk/event_loop.cc:79-165 | what a run of the server is to one of its loops, with pushes, signals and polls, is a run of the loop's step system with the same tasks |
| ServerLoops.StartedRun | evk/event_loop.cc:84-90 | a new loop whose Run is called comes to its first poll, the state a server's loops start in |
| ServerLoops.NoTaskWaitsUnsignalled | evk/event_loop.cc:135-148 | so whenever a loop of a server polls with an Establish, Remove or Destroy waiting, its eventfd is readable |

## Left out

- Threads, sockets and addresses (evk/event_loop_thread.cc, evk/event_loop_thread_pool.cc, evk/socket.cc, evk/socket_ops.cc, evk/inet_address.cc, evk/acceptor.cc): system calls; GetNextLoop may choose any loop, and write, readv and poll may answer anything they promise.
- Logging, callback types, Slice, and the arithmetic and formatting of Duration and Timestamp: no properties of their own.
- Object destructors, ~TcpServer and ~EventLoop among them, and shared_ptr lifetime.
- Codec.BswapIsNetOrder: the value of a 64-bit word is that of its image's bytes, which `Codec.ImageIsInjective` shows to determine the word; Dafny's own conversion of `bv64` to `nat` is not tied to it.
- Cross-thread Send as C++: its lambdas capture references to the caller's storage. The model runs such a message with its bytes copied, as `QueuedSend`.
- Wrap-around of size_t, of the int sequence number and of the eventfd counter.
- Send(Buffer*), which sends a buffer's contents and resets it; RunInLoop, whose two cases are steps of their own.
- Failures of allocation, of timerfd_settime, and of the eventfd read and write.
- The timerfd runs on the monotonic clock and Timestamp::Now on the wall clock; the timerfd results take them as one clock, with positive readings.
- Big-endian hosts: bswap_64 swaps there too, so the codec results are for little-endian ones.
- FindCRLF, FindEOL, ToText, ReadByte, UnreadBytes, UnwriteBytes, WriteBytes: library searches and single index moves.
- InvokeTimer objects are values in a map from address to timer rather than heap objects, so that addresses can be reused; std::set is a set whose order is stated where it is iterated.
- Connection names: the model uses the number that makes a name unique, not the string.
- Channels.Channel.EnableReadEvent: states the channel's own fields; the Update into the poller that follows is `BackEnds.ChangeWithEPoll` and `BackEnds.ChangeWithPoll`.
- Channels.Channel.EnableWriteEvent: likewise.
- Channels.Channel.DisableReadEvent: likewise.
- Channels.Channel.DisableWriteEvent: likewise.
- Channels.Channel.DisableAllEvent: likewise.
- Connections.TcpConnection.OnConnectDestroyed: the channel's removal from the poller is `BackEnds.RemoveWithEPoll`; the connection object has the channel but no poller.
- Buffers.Buffer.ReadFromFD: the failing readv, which changes nothing, is the `ReceiveFails` call of `Buffers.Replay`.
