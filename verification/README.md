# FluxGate, verified

FluxGate is a TCP proxy: an acceptor hands clients to reactor workers, each worker picks a backend
and relays bytes in both directions. This project models that machinery in Dafny and proves what it
is for: no byte accepted by `recv` is lost, reordered or invented, half-close is exact, no session
stalls, no event reaches the wrong session when descriptor numbers are reused, every descriptor is
closed once, load follows the weights, health follows the probe history, no wakeup is lost, every
client is accounted for, and a configuration file means one thing. Verify with
`dafny verify dfyconfig.toml`.

How the parts fit together:

- `ByteBuffers`, `Sessions`, `Traces`, `SessionRuns`, `SessionTheorems`, `SessionProgress`,
  `SessionFates`, `ProxySessions`: the data plane. A session is described twice, by functions on values and by a class whose methods are proved
  to compute them. The kernel is an argument: the answers to `recv`, `send`, `SO_ERROR` and the clock
  during one event. Counts larger than asked for are cut to size, and a list that runs out keeps
  answering EAGAIN, so every finite behaviour of a socket is covered. Each session keeps the list of
  its calls; the theorems are about that list: safety for every answer of the kernel, and delivery
  of both streams when the peers cooperate.
- `Intakes`, `WorkerTables`, `Workers`: one reactor with its tables, its epoll registrations and the set of open
  descriptors it has to close. Descriptor numbers come from the kernel and may be any number that is
  not open, so reuse is covered. Other threads act between any two steps of a drain or a batch.
- `Backends`, `BackendPools`, `WeightedSharing`: selection under the lock while other threads release
  connections and change health, and the arithmetic of fair shares. What the other threads do is an
  argument: whose health stays, whose load stays, and what each health flag says when it is looked at.
- `GuardedCounters`: the load-compare-subtract release, under every interleaving of threads.
- `HealthHistories`, `HealthCheckers`: the hysteresis, against the whole history of probes.
- `Acceptors`, `Dispatch`, `MetricsCounters`: choosing a worker, the accept loop, and the acceptor with all
  workers as a state machine over atomic steps: safety, a bound on the steps of every run, and where
  a run that cannot go on has stopped. The class `Worker` records its
  steps, and the record is a schedule of that state machine.
- `ConfigText`, `ConfigReadings`, `ConfigLoaders`, `ConfigRules`: the loader against a declarative reading,
  and that reading against rules in which every name, limit and default is written out. A file is
  its content, one character per byte, cut into lines as `std::getline` does.
- `ConfigRoundTrips`: which configurations the loader can produce. The source has no printer; the one
  here exists to say that loading loses nothing that a file can express.
- `UniqueFds`: single ownership of descriptors.

Findings about the code:

- A read side is also closed when a hangup flag arrives while the buffer is full, because `readInto`
  answers WouldBlock for a full buffer too (src/ProxySession.cpp:87, 105, 193-194). Bytes the peer
  sent before its FIN can then be dropped. `HangupEventLosesIffFull` says exactly when: the buffer
  was full and bytes remained. `HangupLosesBytes` gives a run of this kind for every capacity and every
  longer stream. Bytes that `recv` accepted are never lost.
- EPOLLRDHUP stays in both interest sets for good (src/ProxySession.cpp:131, 143) and epoll is
  level-triggered, so a peer that has half-closed is reported again by every `epoll_wait` until the
  session ends, in events that change nothing. `HangupIsIdleIff` says exactly which events those are.
- The check for an empty backend name (src/Config.cpp:166-168) can never fire
  (`BackendAlwaysHasAName`).
- The guard against zero in `Backend::release` and `Metrics::onClosed` never has to act
  (`NeverUnderflows`, `ActiveIsNeverShort`), and it would not be enough by itself
  (`GuardAloneIsNotEnough`).

## Model

| member | source | states |
|---|---|---|
| ByteBuffers.CompactedIsTight | include/fluxgate/ByteBuffer.h:55-64 | compaction keeps the unsent bytes, never shrinks the free tail, and leaves no room only when all cells hold unsent bytes |
| ByteBuffers.ByteBuffer.constructor | include/fluxgate/ByteBuffer.h:19-20 | a new buffer is empty and has its whole capacity free |
| ByteBuffers.ByteBuffer.ReadableBytes | include/fluxgate/ByteBuffer.h:23 | the number of bytes in the queue the buffer stands for |
| ByteBuffers.ByteBuffer.WritableBytes | include/fluxgate/ByteBuffer.h:26 | the free cells behind the queue, not those freed in front of it |
| ByteBuffers.ByteBuffer.HasWritten | include/fluxgate/ByteBuffer.h:37 | the cells just filled join the queue at its end |
| ByteBuffers.ByteBuffer.Receive | src/ProxySession.cpp:197-200 | bytes delivered by recv join the queue in order |
| ByteBuffers.ByteBuffer.Consume | include/fluxgate/ByteBuffer.h:43-49 | the oldest bytes leave; an emptied buffer has both cursors at zero |
| ByteBuffers.ByteBuffer.MakeWritable | include/fluxgate/ByteBuffer.h:55-64 | the overlapping in-place copy moves the queue to the front and changes no byte of it |
| Traces.SentIsPrefix | src/ProxySession.cpp:224-246 | if every call was allowed when made, what a side was sent is a prefix of what the other side delivered |
| Traces.ShutdownIsLast | src/ProxySession.cpp:249-258 | after a shutdown of a side it is not shut down again, nothing is sent to it, nothing is received for it |
| Traces.ShutdownIsComplete | src/ProxySession.cpp:249-258 | what a side had been sent at its shutdown is all it ever gets and all that was ever received for it |
| Traces.ConnectSettledOnce | src/ProxySession.cpp:165-186 | an upstream attempt is settled at most once, by one success or one failure |
| SessionRuns.ReadIntoIsSound | src/ProxySession.cpp:189-221 | reading keeps received == sent + buffered, the flags in step with the calls, and makes only allowed calls, for every answer list |
| SessionRuns.WriteFromIsSound | src/ProxySession.cpp:224-246 | writing does the same for every answer list |
| SessionRuns.SettleSettles | src/ProxySession.cpp:121-126 | after the half-close step the upstream is shut down exactly when the request is over, drained and connected, and a finished session is closing |
| SessionRuns.AdmitIsSound | src/ProxySession.cpp:43-76 | a connect outcome or an error moves no byte, and a session that goes on after an upstream event is connected |
| SessionRuns.HandleSettles | src/ProxySession.cpp:43-127 | one event, whatever its flags and answers, keeps the whole session invariant |
| SessionRuns.StartSettles | src/ProxySession.cpp:13-38 | a new session satisfies the invariant, connected or still connecting |
| SessionRuns.RunSettles | src/ProxySession.cpp:43-127 | so does every session after any sequence of events |
| SessionRuns.ReadIntoLogs | src/ProxySession.cpp:189-221 | the bytes received are the bytes appended to the buffer, across compactions |
| SessionRuns.WriteFromLogs | src/ProxySession.cpp:224-246 | the bytes sent are the bytes taken off the front of the buffer, across short writes |
| SessionRuns.ServeGains | src/ProxySession.cpp:80-126 | the buffer growth of one event is the number of bytes received in it, per direction |
| SessionTheorems.EveryRunIsFaithful | src/ProxySession.cpp:43-127 | over every run and in both directions, received == sent + buffered, buffered stays within capacity, and every call was allowed |
| SessionTheorems.HalfCloseIsExact | src/ProxySession.cpp:249-263 | an open session has shut the upstream down exactly if the client's stream is over and fully relayed and the upstream is connected; the client is shut down only by a session that ends with the response fully relayed |
| SessionTheorems.EndToEnd | src/ProxySession.cpp:192-212 | a direction that ended by end of stream and was passed on carried the peer's entire stream |
| SessionTheorems.CompletedDeliversAll | src/ProxySession.cpp:121-125 | a session that ends by itself has delivered every response byte it received |
| SessionTheorems.NeverStalls | src/ProxySession.cpp:130-155 | every direction of an open session is over and drained, or asks for input at its source or output at its destination |
| SessionTheorems.ReadIntoIsBounded | src/ProxySession.cpp:189-221 | one call uses at most one answer per free cell and one more, interruptions aside |
| SessionTheorems.ReadIntoFills | src/ProxySession.cpp:189-221 | from a socket holding given bytes, one call takes as many as the buffer has free cells, wherever its cursors stand, and reports the end only with a cell to spare |
| SessionTheorems.WriteFromDrains | src/ProxySession.cpp:224-246 | one call passes on the oldest bytes, as many as the kernel takes before it first refuses |
| SessionTheorems.HangupLosesIffFull | src/ProxySession.cpp:78-107 | the read step of a hangup closes the read side with peer bytes unread if and only if the buffer was full and unread bytes remained |
| SessionTheorems.HangupEventLosesIffFull | src/ProxySession.cpp:78-127 | the same for a whole event on either side: what had been received when the read side closed is short of the stream if and only if the buffer was full and unread bytes remained |
| SessionTheorems.HangupLosesBytes | src/ProxySession.cpp:78-127 | for every capacity and every longer stream, a run in which the client sends the stream and hangs up, the upstream is told the request is over, and exactly the first capacity bytes were received and sent |
| SessionTheorems.HangupIsIdleIff | src/ProxySession.cpp:78-155 | an event with only hangup flags leaves an open session as it was if and only if that read side is closed already or a half-close comes before the connect outcome; the flag stays armed on both sides |
| SessionProgress.EventHelps | src/ProxySession.cpp:43-127 | whatever a session asks for and gets is of use to it: no byte is lost between wire, buffer and destination, and strictly less is left to do |
| SessionProgress.SomethingHelps | src/ProxySession.cpp:130-155 | while anything is unread, buffered or unnoticed, some event that the session asks for can do part of it |
| SessionProgress.CooperationEnds | src/ProxySession.cpp:43-127 | a cooperative run, whatever its order and portions, is at most as long as two steps per unread byte, one per buffered byte, and one per end and connect |
| SessionProgress.FinishedIsDelivered | src/ProxySession.cpp:249-263 | where nothing more can be done, the response has been delivered, the session is over exactly if the upstream ended it, and otherwise the request has been delivered and its end passed on |
| SessionProgress.EveryServiceDelivers | src/ProxySession.cpp:43-155 | every cooperative run from the start is short, and a finished one has delivered the whole response, and the whole request unless the upstream ended first; the upstream is shut down exactly if the client ended |
| SessionProgress.EveryServiceCanFinish | src/ProxySession.cpp:43-155 | every cooperative run can be continued to a finished one |
| SessionFates.EventTouches | src/ProxySession.cpp:165-246 | the activity clock moves to the time of an event exactly if the event moved a byte or connected the upstream |
| SessionFates.RunTouches | src/ProxySession.cpp:165-246 | over a run the clock is the time of the last event in which something moved |
| SessionFates.TimeoutsAreExact | src/ProxySession.cpp:157-163 | a session is idle exactly if nothing has moved for the timeout, counted from its creation; its connect is overdue exactly if it has not connected and was created that long ago |
| SessionFates.EventEnds | src/ProxySession.cpp:43-127 | which events are ignored; otherwise a session is over after an event exactly if an error flag, a foreign descriptor, a failed connect, recv or send broke it, or the response is over and delivered; only in the last case is the client shut down |
| SessionFates.ReadIntoFails | src/ProxySession.cpp:189-221 | the read loop reports an error exactly if a fatal recv is met before the buffer is full, the stream over or nothing there |
| SessionFates.WriteFromFails | src/ProxySession.cpp:224-246 | the write loop fails exactly if a send takes nothing or fails for good while bytes are left |
| ProxySessions.ProxySession.constructor | src/ProxySession.cpp:13-38 | the object starts as the specified session; an immediate connect counts one success for the backend |
| ProxySessions.ProxySession.ReadInto | src/ProxySession.cpp:189-221 | the retry loop computes the specified transition and adds to the byte counter what the buffer gained |
| ProxySessions.ProxySession.WriteFrom | src/ProxySession.cpp:224-246 | the retry loop computes the specified transition |
| ProxySessions.ProxySession.FinishUpstreamConnect | src/ProxySession.cpp:165-186 | exactly one of success and failure is counted, the failure for the backend and globally |
| ProxySessions.ProxySession.UpdateHalfClose | src/ProxySession.cpp:249-258 | shuts down exactly the destinations whose source is over and drained |
| ProxySessions.ProxySession.ClientEvents | src/ProxySession.cpp:130-139 | asks for input while there is room and for output while there is a response |
| ProxySessions.ProxySession.UpstreamEvents | src/ProxySession.cpp:142-155 | asks only for the outcome while connecting, then by the state of both buffers |
| ProxySessions.ProxySession.HandleEvent | src/ProxySession.cpp:43-127 | keeps the invariant, computes the specified event, moves byte and connect counters by exactly what the history gained, touches the clock exactly if something moved, and ends the session exactly for the reasons `EventEnds` lists |
| ProxySessions.HandleCounts | src/ProxySession.cpp:43-127 | how one event changes received bytes and settlements, in terms of the buffers and SO_ERROR |
| WorkerTables.DeliverySettles | src/ProxySession.cpp:165-186 | one event records at most one settlement, and none for an attempt already settled |
| WorkerTables.DeliveryIsNews | src/Worker.cpp:115-131 | one delivery keeps a session fit, keeps its descriptors, and settles its attempt at most once over its whole life |
| WorkerTables.EntryChanges | src/Worker.cpp:115-131 | replacing one session by its successor keeps tables, index and registrations coherent |
| WorkerTables.EntryPublished | src/Worker.cpp:213-233 | publishing a session for the first waiting client keeps tables, index, registrations, descriptor accounts, leases and outcome books coherent |
| WorkerTables.EntryAttended | src/Worker.cpp:121-131 | a session that received an event, with its registrations renewed, leaves tables, index, registrations and outcome books coherent |
| WorkerTables.EntryClosed | src/Worker.cpp:246-258 | taking a session out does too, and its two descriptors are then listed nowhere else |
| WorkerTables.EntriesDestroyed | src/Worker.cpp:135-144 | when the removed sessions die their descriptors and leases go, and exactly the leases of the open sessions remain |
| WorkerTables.OneMoreDelivery | src/Worker.cpp:115-131 | one more entry of a batch changes the session it is for by that one delivery, and no other |
| WorkerTables.CarriedDelivery | src/Worker.cpp:107-131 | an entry of a batch reaches the session that owned its descriptor when the batch began, and no other |
| WorkerTables.CarriedSkip | src/Worker.cpp:115-118 | an entry without an owner, or whose owner is closing, changes nothing |
| WorkerTables.PunctualLater | src/Worker.cpp:146-150 | a session not overdue at the last sweep is less than the sweep distance late now |
| WorkerTables.CarriedPunctual | src/Worker.cpp:106-150 | nothing that happens in a batch makes a session overdue as of an earlier time |
| WorkerTables.BatchTouches | src/Worker.cpp:115-131 | a batch touches exactly the sessions it moves something in |
| WorkerTables.SurvivorsAre | src/Worker.cpp:133-150 | what a round leaves, session by session, in terms of its own entries and of what moved in them |
| WorkerTables.EntryGivenUp | src/Worker.cpp:271-276 | giving up a pending attempt keeps tables, index, registrations and books coherent, and it had not been settled before |
| WorkerTables.GivenUpIsSettled | src/Worker.cpp:271-276 | an attempt given up by the sweep had not been settled before |
| Workers.Worker.constructor | src/Worker.cpp:24-41 | empty tables, the wake descriptor registered and owned; to `Dispatch` it is the launched worker |
| Workers.Worker.Enqueue | src/Worker.cpp:71-88 | the descriptor is the worker's exactly when it says so; it refuses when stopped or at four times the backlog; an accepted one is a push and a signal of `Dispatch` |
| Workers.Worker.Stop | src/Worker.cpp:55-62 | clears the flag once and signals, which are the stopping steps of `Dispatch` |
| Workers.Worker.OtherThreads | src/Worker.cpp:55-88 | whatever the acceptor does meanwhile is a number of such hand-overs and perhaps a stop |
| Workers.Worker.ReadSignal | src/Worker.cpp:109-110 | reads the eventfd until it is empty, which are the waking and reading steps of `Dispatch` |
| Workers.Worker.TakeQueue | src/Worker.cpp:171-176 | the swap of the queues is the step of that name in `Dispatch` |
| Workers.Worker.ServeNext | src/Worker.cpp:177-187 | one client of the local queue is opened, rejected or discarded, which is the serving step of `Dispatch`; no other session changes |
| Workers.Worker.DiscardQueued | src/Worker.cpp:154-157 | a client that nobody will serve is closed and counted, which is the discarding step of `Dispatch` |
| Workers.ImageFits | src/Worker.cpp:71-187 | the worker's invariant implies the invariant of the hand-over for its image, in every phase it can be in |
| Workers.LifeIsInDispatch | src/Worker.cpp:91-187 | at every moment the worker satisfies the invariant that all schedules keep, with a pending signal for a waiting client, and has taken at most seventeen steps per client given to it and twenty-one more |
| Workers.LifeCanBeFinished | src/Worker.cpp:91-168 | from wherever it is when asked to stop, the worker can finish by its own steps |
| Workers.Worker.HandleReady | src/Worker.cpp:115-131 | exactly the owner of the descriptor receives the event; failures of epoll_ctl end it; all tables stay coherent |
| Workers.Worker.HandleEntry | src/Worker.cpp:106-131 | an entry of the eventfd gets everybody in the queue dealt with; any other reaches its owner and nobody else |
| Workers.Worker.WakeUp | src/Worker.cpp:108-113 | reads the eventfd and deals with everybody handed over so far, as the answers say |
| Workers.Worker.ServeClient | src/Worker.cpp:178-186 | a client of a stopped worker is thrown away, any other gets what the answers say |
| Intakes.AllAreServed | src/Worker.cpp:190-233 | when nothing goes wrong every client owns a session, in order, on the backend picked for it; nobody is rejected and no failure counted |
| Intakes.ServedAll | src/Worker.cpp:171-233 | so after a batch every client fetched in it owns a session |
| Intakes.EachIsCounted | src/Worker.cpp:190-233 | every client is opened or rejected, and the failures of a backend are the connects to it that threw |
| Workers.Worker.UpdateInterests | src/Worker.cpp:240-243 | both registrations equal what the session asks for, or the session is closing; nobody else's change |
| Workers.Worker.CreateSession | src/Worker.cpp:190-238 | a session is opened exactly if a backend was picked, connecting did not throw, a new descriptor came back and epoll took both; then it is the client's, on that backend; a thrown connect is charged to its backend; otherwise the client is closed and rejected |
| Workers.Worker.AbandonSession | src/Worker.cpp:217-227 | a session that epoll refuses leaves no trace but its number, its outcome and one rejection; both descriptors are closed |
| Workers.Worker.DrainQueue | src/Worker.cpp:171-187 | everything queued at the swap is dealt with in order, each client as the answers say, and nobody is thrown away by a worker that still runs; no existing session is touched, and every step is one of `Dispatch` |
| Workers.Worker.ProcessBatch | src/Worker.cpp:106-132 | every session that was open has received exactly the entries for its own descriptors, even if the batch creates sessions on recycled numbers; if the eventfd is among them, everybody handed over before has been dealt with, as the answers say |
| Workers.Worker.CloseSession | src/Worker.cpp:246-261 | removes one session from every table and lists both its descriptors for closing, which is the closing step of `Dispatch` |
| Workers.Worker.Destroy | src/Worker.cpp:135-144 | the listed descriptors are all still open when they are closed, then none is left, and only open sessions hold a lease |
| Workers.Worker.TidyUp | src/Worker.cpp:135-150 | after a batch exactly the sessions it marked, and those a due sweep finds overdue, are gone with their descriptors and leases |
| Workers.Worker.GiveUp | src/Worker.cpp:271-276 | a timed-out connect is counted once, as one failure |
| Workers.Worker.CollectExpired | src/Worker.cpp:264-280 | lists exactly the overdue sessions and counts one failure per pending connect among them |
| Workers.Worker.SweepIdleSessions | src/Worker.cpp:264-285 | what remains is exactly the sessions that are not overdue, unchanged |
| Workers.Worker.Round | src/Worker.cpp:96-151 | a session survives a round exactly if its own entries leave it open and no sweep finds it overdue, and one in which something just moved is not idle; new sessions are fresh; an eventfd entry gets everybody handed over before dealt with and nobody thrown away by a running worker; with waits of at most a second nobody outlives a timeout by two seconds |
| Workers.Worker.Run | src/Worker.cpp:91-168 | every batch that epoll reports is handled, until another thread asks for the stop or epoll fails; however the loop ends, all tables and the queue are empty, only the wake descriptor is open, no lease is left, and every client was rejected, opened or discarded; unless epoll failed under it, the recorded steps are a schedule of `Dispatch` from the launched worker to this one, stopped |
| Workers.RunOnTime | src/Worker.cpp:96-151 | after any number of rounds without EINTR and with waits of at most a second, and until the next wait returns, nobody is two seconds past either timeout |
| Workers.Worker.CleanUp | src/Worker.cpp:153-166 | the clean-up closes every queued client and every session |
| Workers.NoSessionStalls | src/Worker.cpp:120-131 | between rounds, epoll watches for what each direction of each session needs to go on |
| BackendPools.BackendPool.Create | src/BackendPool.cpp:42-49 | an empty pool is refused; otherwise new backends in order, idle and healthy, and the rotation starts at zero |
| BackendPools.BackendPool.HasHealthyBackend | src/BackendPool.cpp:80-87 | true exactly if some backend is healthy |
| BackendPools.BackendPool.Scan | src/BackendPool.cpp:56-75 | the loop with interference: the pick was healthy when looked at and is no more loaded than any backend that was healthy when looked at had been at the start; there is none exactly if none was healthy; without interference it is the first least-loaded backend in rotation order |
| BackendPools.BackendPool.Undercuts | src/BackendPool.cpp:69-72 | compares two loads taken at different moments |
| BackendPools.BackendPool.Acquire | src/BackendPool.cpp:52-78 | whatever is released or changes health meanwhile, the pick is one of the backends that were healthy when the scan looked at them, and when charged no more loaded per weight than any of them was when the lock was taken; none is picked exactly when none was healthy; without interference it is the first least-loaded one in rotation order |
| BackendPools.LeadsCompared | src/BackendPool.cpp:69-74 | a comparison of loads taken at different moments still leaves a leader that beats everything seen so far |
| BackendPools.ScanStep | src/BackendPool.cpp:58-75 | one turn of an undisturbed scan keeps the first least-loaded backend met so far |
| BackendPools.FullScanChooses | src/BackendPool.cpp:58-77 | a full undisturbed scan has found the first least-loaded backend in rotation order |
| BackendPools.ServeFromIdle | tests/fluxgate_tests.cpp:34-52 | serving from an idle pool picks greedily; after whole rounds each healthy backend holds its weight per round and the others nothing, for all weights and every rotation start |
| BackendPools.BackendLease.constructor | src/BackendPool.cpp:10-14 | a lease charges its backend once |
| BackendPools.BackendLease.Moved | src/BackendPool.cpp:17-19 | moving charges nobody and empties the source |
| BackendPools.BackendLease.Assign | src/BackendPool.cpp:21-28 | assignment gives back the old backend once and takes over the other's lease; self-assignment does nothing |
| BackendPools.BackendLease.Reset | src/BackendPool.cpp:34-39 | gives the backend back once and is idempotent |
| WeightedSharing.RotationMeets | src/BackendPool.cpp:58-62 | a scan from any start meets every backend once, at its offset |
| WeightedSharing.ChosenIsUnique | src/BackendPool.cpp:56-75 | the selection rule has one result, so only the rotating start decides among equals |
| WeightedSharing.PickKeepsBalance | src/BackendPool.cpp:69-74 | a least-loaded pick never puts a backend ahead of another by more than one connection |
| WeightedSharing.GreedyIsBalanced | src/BackendPool.cpp:52-78 | after any number of picks from idle the pool is balanced and every pick counts once |
| WeightedSharing.SharesAreProportional | src/BackendPool.cpp:56-77 | after n picks, k healthy backends, total weight W: (n - k + 1) w <= a W <= n w + W - w for every healthy backend |
| WeightedSharing.WholeRoundsAreExact | src/BackendPool.cpp:56-77 | after m W picks every healthy backend has exactly m w and the others nothing, whatever the ties |
| GuardedCounters.StepIsExact | src/Backend.cpp:16-26 | taking, moving, loading, subtracting and clearing keep each counter equal to its unspent tokens |
| GuardedCounters.EveryScheduleIsExact | src/BackendPool.cpp:10-39 | so does every interleaving of any number of threads |
| GuardedCounters.NeverUnderflows | src/Backend.cpp:21-26 | no counter is ever negative, the guard never fires, and spent tokens leave all counters at zero |
| GuardedCounters.GuardAloneIsNotEnough | src/Backend.cpp:21-26 | two tokens for one unit drive the guarded counter to minus one |
| HealthHistories.VerdictRefinesHistory | src/HealthChecker.cpp:63-95 | a backend trusted at the start is up exactly if every window of failures has been followed by a window of successes, and one distrusted at the start if in addition some window of successes came; the counters are the trailing runs |
| HealthHistories.FlapsAreRare | src/HealthChecker.cpp:69-83 | the k-th change of health takes at least ceil(k/2) F + floor(k/2) S probes |
| HealthHistories.CostIsReached | src/HealthChecker.cpp:69-83 | and some series of exactly that length changes it k times |
| HealthHistories.StreakFlips | src/HealthChecker.cpp:69-83 | a run against the verdict changes it with its last probe and not before |
| HealthCheckers.HealthChecker.constructor | src/HealthChecker.cpp:10-20 | every backend starts with an empty history and the flag it has, up or down |
| HealthCheckers.HealthChecker.CheckOnce | src/HealthChecker.cpp:63-95 | one probe per backend joins its history, and every flag equals the verdict of its whole history and its starting flag |
| HealthCheckers.HealthChecker.CheckOne | src/HealthChecker.cpp:66-83 | one backend's counters and flag follow its probe, nobody else's change |
| ConfigText.TrimmedIsTheCore | src/Config.cpp:16-27 | trimming removes white space at both ends and nothing else |
| ConfigText.TrimmedOf | src/Config.cpp:16-27 | any tight text between blanks is recovered by trimming |
| ConfigText.Trim | src/Config.cpp:16-27 | the two cursor loops compute the trimmed text |
| ConfigText.FindFirst | src/Config.cpp:142 | the first position of a stop character, or the length |
| ConfigText.ParseLong | src/Config.cpp:37-49 | accepts exactly the texts that denote an integer within the limits and the width of long |
| ConfigText.NumeralRoundTrip | src/Config.cpp:37-49 | a printed number reads back as itself |
| ConfigText.IntegerMeans | src/Config.cpp:37-49 | white space, at most one sign and digits to the end denote an integer |
| ConfigText.IntegerOnly | src/Config.cpp:37-49 | and nothing else does |
| ConfigReadings.Meaning | src/Config.cpp:52-91 | a value that is accepted is within the limits of its setting |
| ConfigReadings.FileLinesAreStored | src/Config.cpp:137-139 | the lines of a file of bytes hold no line break |
| ConfigReadings.ReadingIsUnique | src/Config.cpp:113-226 | a file has at most one reading |
| ConfigReadings.EntryInAnyLayout | src/Config.cpp:141-185 | white space, letter case of the key and comments make no difference |
| ConfigReadings.BackendAlwaysHasAName | src/Config.cpp:164-168 | the check for an empty backend name can never fire |
| ConfigReadings.ReadableSoFar | src/Config.cpp:139-206 | a readable file is readable up to every line |
| ConfigReadings.AcceptedConfigIsUsable | src/Config.cpp:208-225 | an accepted configuration has distinct complete backends with ports 1 to 65535 and weights 1 to 1000, buffers of at least 4096, thresholds of at least 1, and a timeout below the interval |
| ConfigLoaders.AssignServerValue | src/Config.cpp:52-76 | changes exactly the named setting to what its text means, or fails exactly if key or value is not acceptable |
| ConfigLoaders.AssignHealthValue | src/Config.cpp:79-91 | the same for the health section |
| ConfigLoaders.AssignBackendValue | src/Config.cpp:191-203 | the same for the backend in hand, marking what was given |
| ConfigLoaders.FinishBackend | src/Config.cpp:127-135 | commits the backend in hand exactly if it has host and port |
| ConfigLoaders.Interpret | src/Config.cpp:141-185 | reads one line by the line grammar |
| ConfigLoaders.LineIsReadable | src/Config.cpp:139-206 | a line is acceptable exactly if well formed, closing no unfinished backend, and usable by its section |
| ConfigLoaders.ReadLine | src/Config.cpp:139-206 | the deferred commit keeps the partial configuration equal to the reading of all closed sections |
| ConfigLoaders.NamesAreDistinct | src/Config.cpp:218-224 | true exactly if no two backends share a name |
| ConfigLoaders.Load | src/Config.cpp:113-226 | succeeds exactly on the acceptable files and yields their one reading, backends in file order and last values winning; otherwise stops at the first line that makes the file unreadable, or after the last |
| ConfigRules.ReadableIffLawful | src/Config.cpp:139-206 | a file is read to its end exactly if each line is empty, a header of one of the three kinds that leaves no backend unfinished, or an entry under a header with one of the ten, four or three literal keys of its section and a number within the literal limits |
| ConfigRules.AcceptableIff | src/Config.cpp:113-226 | the loader accepts exactly these files if moreover the last backend is complete, there is one, names are distinct, and the timeout is below the interval |
| ConfigRules.ReadingIs | src/Config.cpp:52-110 | every setting has the last value given for it in a section of its name, else its literal default; the backends are those of the file |
| ConfigRules.BackendsAreGiven | src/Config.cpp:157-203 | the backends are the backend sections in order, each with the last host, port and weight given in it |
| ConfigRoundTrips.RoundTrip | src/Config.cpp:113-226 | a printed configuration is acceptable and reads as itself, as no other |
| ConfigRoundTrips.RenderedIsStored | src/Config.cpp:139 | no printed line holds a line break, whatever the names, host and log level |
| ConfigRoundTrips.JoinedReadsBack | src/Config.cpp:139 | lines without line breaks, written one after the other, are read back as the same lines |
| ConfigRoundTrips.LastLineNeedsNoBreak | src/Config.cpp:139 | a last line is read even if no line break ends it |
| ConfigRoundTrips.Reload | src/Config.cpp:113-226 | loading the printed file yields the configuration it was printed from |
| ConfigRoundTrips.LoadableIffPrintable | src/Config.cpp:113-226 | the configurations some file of bytes loads as are exactly those with permitted values, distinct complete backends, and names, host and log level that are trimmed one-line text without comment characters |
| Dispatch.WorkerStepFits | src/Worker.cpp:91-187 | no step of a worker loses, duplicates or reorders a client, or leaves a queue unattended |
| Dispatch.AcceptorTouchFits | src/Worker.cpp:55-88 | neither does a push, a signal or a stop |
| Dispatch.StepIsCoherent | src/Worker.cpp:71-187 | every atomic step of acceptor or worker keeps the hand-over invariant |
| Dispatch.StepConserves | src/main.cpp:199-213 | every atomic step keeps accepted == rejected + held by the acceptor + waiting + opened + discarded, and active == live sessions |
| Dispatch.EveryInterleaving | src/main.cpp:169-226 | both invariants hold in every reachable state, for any number of workers |
| Dispatch.NoLostWakeup | src/Worker.cpp:71-88 | a client in the queue of a waiting worker has a pending signal, unless the acceptor is between push and write |
| Dispatch.HandoverIsFifo | src/Worker.cpp:171-187 | handled, local and queued clients are the enqueued ones in order; at most four times the backlog wait |
| Dispatch.LeftAloneItFetchesAll | src/Worker.cpp:106-187 | from every coherent state in which the acceptor is not between push and signal to it, a worker by itself fetches everything handed over to it |
| Dispatch.EveryClientIsFetched | src/Worker.cpp:71-187 | from every reachable state without exception: once a pending signal is given, the worker by itself fetches everything handed over to it |
| Dispatch.StepWorks | src/Worker.cpp:55-187 | every atomic step leaves less to do, except that an accepted client brings at most sixteen steps |
| Dispatch.EveryRunIsShort | src/Worker.cpp:55-187 | the hand-over makes no busy loop: every run of it has at most seventeen steps per accepted client, nineteen per worker and two more |
| Dispatch.AtRestAllIsFetched | src/Worker.cpp:91-187 | any run in which only a new client, the end of a session or the end of the process could happen next has handled all clients handed over, in order |
| Dispatch.AskedItStops | src/Worker.cpp:91-168 | a worker that has been asked to stop reaches the end by itself from every phase |
| Dispatch.ShutdownEnds | src/main.cpp:217-226 | once told to stop, every run is bounded, and one that can go no further has stopped every worker, closed every session and settled every client |
| Dispatch.LivesOn | src/Worker.cpp:91-187 | a schedule that has led to a worker is continued by each of its own steps |
| Dispatch.LivesGiven | src/Worker.cpp:71-88 | and by a client being accepted, pushed and signalled |
| Dispatch.LivesAsked | src/Worker.cpp:55-62 | and by the steps of a shutdown |
| Dispatch.LifeIsOrderly | src/Worker.cpp:71-187 | so what holds of all interleavings, and the bound on their length, holds of the life of a worker |
| Dispatch.LifeCanEnd | src/Worker.cpp:91-168 | a life that has been asked to end can be continued to its end by the worker's own steps |
| Dispatch.RunningLosesNobody | src/main.cpp:199-213 | until shutdown every accepted client is rejected, waiting or opened |
| Dispatch.ShutdownIsComplete | src/main.cpp:217-226 | after shutdown no session is active, and every accepted client was rejected, opened or discarded |
| Dispatch.ActiveIsNeverShort | src/Metrics.cpp:19-22 | whenever a session closes the active counter is positive |
| Acceptors.SelectWorker | src/main.cpp:82-94 | the first least busy worker in rotation order |
| Acceptors.LeastBusyIsUnique | src/main.cpp:82-94 | there is only one such worker |
| Acceptors.EqualWorkersTakeTurns | src/main.cpp:82-94 | among equally busy workers the cursor decides |
| Acceptors.BurstTakesEveryClient | src/main.cpp:182-198 | a burst takes every client before accept has no more or fails, passing over interruptions |
| Acceptors.Acceptor.AcceptBurst | src/main.cpp:182-214 | every client of a readiness event goes to the least busy worker or is closed, and accepted == rejected + handed over |
| Acceptors.Acceptor.Dispatch | src/main.cpp:199-213 | one client is handed over or closed and rejected; the cursor moves only for configured clients |
| UniqueFds.UniqueFd.constructor | include/fluxgate/UniqueFd.h:17 | takes over a descriptor; ownership is exclusive exactly if it was open and nobody's |
| UniqueFds.UniqueFd.Moved | include/fluxgate/UniqueFd.h:19 | ownership moves, nothing is closed |
| UniqueFds.UniqueFd.Release | include/fluxgate/UniqueFd.h:34-38 | gives the descriptor away open |
| UniqueFds.UniqueFd.Reset | include/fluxgate/UniqueFd.h:41-46 | closes the old descriptor exactly once and takes the new one; every owner stays exclusive exactly if the new one is open and nobody else's |
| UniqueFds.UniqueFd.Assign | include/fluxgate/UniqueFd.h:21-26 | closes the old descriptor, takes over the other's; self-assignment closes nothing |

## Left out

- src/Net.cpp: sockets, name resolution and poll appear only as outcomes (connected, in progress, refused, reachable).
- src/Logger.cpp, log text, error message text, `Metrics::snapshot` and `peerAddress`: formatting. A failed load reports the line it stops at and nothing else.
- Signals, command line, listener setup and the statistics thread in src/main.cpp: process plumbing.
- Starting, stopping and waiting of the health thread (src/HealthChecker.cpp:28-60): only the probe loop is modelled, with arbitrary outcomes.
- Weak memory: atomics use the sequentially consistent default, so steps interleave at the granularity of atomic operations.
- Counter wrap-around at 2^64: counters and products are unbounded, except the pool's rotating start, which wraps.
- An unending storm of EINTR: every answer list is finite.
- Between the entries of a batch other threads act at marked points, with a push and its signal together; `Dispatch` has every finer interleaving.
- Progress of a session is proved for runs in which its timeouts do not strike and a hangup is reported while the buffer has room; the other case is the first finding.
- The clock is read once per event; within one event the source may read it several times.
- A worker holds its sessions as values under their numbers instead of shared pointers to objects; the class `ProxySession` is tied to the same functions, but object lifetime appears only as the moment its descriptors are closed.
- The order in which the descriptors of several closed sessions are closed at the end of one round or sweep.
- `epoll_wait` failing for good while clients keep coming: `Workers.Worker.Run` covers the clean-up after it, but `Dispatch` has no such step. Eventfd writes failing with anything but EAGAIN are excluded.
- Which backend a worker gets from the pool is an argument of `Workers`; `BackendPools` says which it is.
- The connection counters of the backends are not fields of `Worker`: a worker's part of a counter is the leases of its sessions, and `GuardedCounters` puts the parts of all threads together.
- Workers.Worker.Run: the list of what epoll_wait does is finite, because a run that is never stopped has no end state; every finite run is covered.
- tools/, deploy/, benchmark-results/ and the build files: scripts and data.
