# The vsomeip endpoint layer in Dafny

This project models the parts of vsomeip's endpoint layer in which state, time and arithmetic meet,
and proves what they guarantee over every run:

- **Trains.** Messages to a remote service board a *train*. Trains are parked by departure time, are
  released by a dispatch timer into a send queue, and the queue is written one entry at a time.
  `TrainModel` is the endpoint as a state machine over values (with the history of acceptances,
  releases and finished writes); `TrainInvariants`, `TrainWriter`, `TrainBoarding`,
  `TrainTiming`, `TrainDebounce`, `TrainSegments`, `TrainOrder` and `TrainBlocking` prove its laws;
  `ClientEndpoints.ClientEndpoint` is the endpoint with mutable trains, shared buffers and a map of
  buckets, each operation proved to change the state exactly as the state machine does.
- **Local connections.** `Framing` models how commands travel between tags and how the receiver
  rebuilds them from arbitrary reads. `Deframing`, `ReadBuffer` and `AnyBytes` prove when
  that works and what happens to any other bytes,
  `Connections.Connection` runs it in place on a growing and shrinking buffer, and `LocalLink` joins
  sender, byte stream and receiver; `LocalClients.LocalClient` is the sending side.
- **Remote client endpoints.** `ClientPorts` and `PortConfigurations` choose local ports,
  `EndpointIndex` models the maps that say which endpoint serves which service instance,
  `EndpointInvariants` and `EndpointPorts` prove what every run keeps, and
  `EndpointManagers.EndpointManager` is the manager that updates the maps.
- **Guest ports.** `GuestPorts` models the correction of guest port ranges, the search for a free
  port pair, and the loop that tries to listen.
- **Reconnecting.** `Reconnect` models the connection state, the count of failures and the waiting time.

Sockets, timers, clocks and locks are abstract steps: each operation takes the current time as an
argument, a completion says how it ended, and every operation is atomic. Time only moves forward. Where
one operation reads the clock several times, the model reads it once. Durations are unbounded integers
in nanoseconds; the largest 64-bit duration is kept as the "no limit" value of an empty train.

## Where the code and its documentation disagree

The model follows the code. These promises turned out to hold only under a condition, which is proved exactly:

- The debounce time is documented as the minimal time between two messages to the same method
  (`vsomeip/documentation/vsomeipConfiguration.md:748-750`). The code guarantees that only where all
  debounce times are zero (`TrainOrder.DebouncePromiseIff`). What it does guarantee is a distance to the
  writes that had finished when a train was parked (`TrainDebounce.ParkedTrainsAreSpaced`).
- The dispatch timer releases no train before its departure, and so keeps the distance of a train that is held
  back, exactly if no message can be cut into segments while others wait, or no method has both a debounce and a
  retention time (`TrainSegments.TimerReleasesWhenDueIff`, `TrainSegments.HeldBackSpacedIff`): a segmented
  message parks the waiting passengers without setting the timer anew (`TrainTiming.MakeRoomNotEarlyIff`).
- A write that is aborted on a live connection blocks the endpoint but leaves its queue; no connect resumes it
  (`TrainWriter.ConnectResumesIff`, `TrainWriter.AbortSilences`, `TrainWriter.SilentForever`; for local
  connections `LocalLink.StrandsFromStart`, `LocalLink.StrandedUntilStart`). Which steps can leave a queue that
  nobody writes is proved exactly (`TrainWriter.RunsKeepWriterAliveIff`, `LocalLink.SenderLivelyIff`).
- Messages keep the order of acceptance exactly if all of them share one retention time and none has a
  debounce time above it (`TrainOrder.FifoIff`).
- Flushing can get stuck: an empty current train that is due before every parked train keeps all of them back
  until the next message boards a train (`TrainBlocking.StuckUntilBoarding`). Without segmentation that
  happens exactly if messages do not share one such retention time and some configured time exceeds six hours
  (`TrainBlocking.NeverStuckIff`); a message that is cut into segments can cause it with short times, too,
  exactly if its retention time ends before every parked departure (`TrainBlocking.SegmentsBlockIff`,
  `TrainBlocking.SegmentsCanBlock`).
- A frame is lost or misread if a read ends after its first three bytes without having completed a command,
  or inside a header that shows an end tag
  (`Deframing.RunFaithfulIff`, `Deframing.ClearHeaderIff`, `Deframing.HeadersCanBeUnclear`).
- If the peer of a local connection closes it during a write and that write ends without an error, the sender
  goes on accepting commands and writes none of them until it is restarted (`LocalLink.PeerClosedStallsIff`,
  `LocalLink.StalledUntilRestart`, `LocalLink.StallsFromStart`); a command accepted before that write ends is
  lost (`LocalLink.PeerClosedLosesCommand`). A write that ends with an error does not stall the sender. What
  the registered error handler does is not part of this model.
- A configured local port chosen after a bind error is not recorded as used (`EndpointPorts.RebindFromSearchIff`),
  so that it can be given out a second time (`EndpointPorts.RebindCollides`).
- A message is attributed to the wrong service instance when two instances of a service share an
  endpoint (`EndpointPorts.AttributionIff`, `EndpointPorts.SharedEndpointMisattributes`).
- The search for a configured port looks only behind the port used last; its fallback searches the ports in
  use and finds nothing (`ClientPorts.TakeSpecificIff`, `ClientPorts.TakeSpecificMisses`). A range that ends
  with port 65535, as one that is not set does, hides free ports exactly if some legal port lies in no range
  before it (`ClientPorts.FindPortCompleteIff`, `ClientPorts.UncoveredMisses`).
- A guest range that starts with port 65535 wraps around to all ports if the host's port is even
  (`GuestPorts.CorrectedIff`).
- The comment on slowing down after thirty failed connection attempts applies only to limits above 31;
  without a limit failures are not counted (`Reconnect.BacksOffIff`). A limit on retries holds until the
  32-bit count of failures wraps around (`Reconnect.RetriesWithinLimitIff`).

## Model

| member | source | states |
|---|---|---|
| TrainInvariants.RunsConserve | vsomeip/implementation/endpoints/src/client_endpoint_impl.cpp:175-390 | in every reachable state: each train carries one message per passenger and fits the message size, parked trains are sorted by departure and not empty, accepted messages are as a multiset those waiting plus those that entered the queue, and `queue_size_` is the sum of the queued sizes |
| TrainInvariants.SuccessfulRuns | vsomeip/implementation/endpoints/src/client_endpoint_impl.cpp:514-540 | when every write succeeds, accepted messages are those waiting, queued or sent, queue order is kept, and exactly one write is in flight while anything is queued |
| TrainWriter.RunsKeepWriterAliveIff | vsomeip/implementation/endpoints/src/client_endpoint_impl.cpp:393-659 | through a whole run a queued entry is being written or the next connect resumes writing (which it does only if the endpoint is not blocked), if and only if no write ends well behind a queue that a stop has cleared, and none fails that leaves a queue and blocks the endpoint or finds it blocked |
| TrainWriter.RunsKeepWriterBusy | vsomeip/implementation/endpoints/src/client_endpoint_impl.cpp:393-659 | until the endpoint is stopped, through any failures, connects and restarts, a writer at work has a write in flight and something to write, a queue without a writer waits for a connect, and none is forgotten unless an aborted write has blocked the endpoint |
| TrainWriter.RunsWaitIff | vsomeip/implementation/endpoints/src/client_endpoint_impl.cpp:393-446 | in every run the queue waits for a connect after a failed write or a restart, until a connect of an endpoint that is not blocked |
| TrainWriter.RunsNoteWrites | vsomeip/implementation/endpoints/src/client_endpoint_impl.cpp:514-540 | in every run a finished write is noted, and its time remembered for debouncing, exactly when an entry has been sent |
| TrainWriter.ConnectResumesIff | vsomeip/implementation/endpoints/src/client_endpoint_impl.cpp:393-446 | a connect that finds a queue waiting for it starts a write if and only if the endpoint is not blocked |
| TrainWriter.SilentForever | vsomeip/implementation/endpoints/src/client_endpoint_impl.cpp:393-402 | a blocked endpoint without a write in flight and without waiting messages never writes again, and keeps its queue until a stop or restart drops it |
| TrainWriter.AbortSilences | vsomeip/implementation/endpoints/src/client_endpoint_impl.cpp:613-631 | in every configuration that accepts a message at all: a run to such an endpoint with a queued entry |
| TrainInvariants.StepKeepsEntries | vsomeip/implementation/endpoints/src/client_endpoint_impl.cpp:514-659 | a step that is not one of the four that drop the queue (see DropsIff) keeps that what entered the queue is what was sent followed by what is queued |
| TrainInvariants.RunsKeepEntries | vsomeip/implementation/endpoints/src/client_endpoint_impl.cpp:514-659 | as long as no step drops the queue, in every run what entered it is what was sent followed by what is queued |
| TrainInvariants.DropsIff | vsomeip/implementation/endpoints/src/client_endpoint_impl.cpp:541-659 | what is queued is dropped unsent if and only if the step is a stop, a restart, a write that fails on a live connection for lack of permission, or one that finds its pipe broken there while the endpoint is blocked |
| TrainInvariants.StepAccounts | vsomeip/implementation/endpoints/src/client_endpoint_impl.cpp:514-659 | every step, failures, stop and restart included, keeps `queue_size_` equal to the bytes queued |
| TrainInvariants.StepConserves | vsomeip/implementation/endpoints/src/client_endpoint_impl.cpp:175-325 | no step loses, duplicates or invents a message between acceptance and the queue |
| TrainInvariants.StepKeepsShape | vsomeip/implementation/endpoints/src/client_endpoint_impl.cpp:189-259 | every step keeps trains well formed and the parked line sorted |
| TrainBoarding.UnsegmentedBoardsIff | vsomeip/implementation/endpoints/src/client_endpoint_impl.cpp:207-267 | in every state reached without segmented messages, an accepted message joins those in the current train if and only if none of them goes to its method, the joint bytes fit, its debounce passes by every deadline and within every retention time on board, and its retention reaches the smallest debounce on board; otherwise they are parked together and it waits alone |
| TrainBoarding.BoardsIff | vsomeip/implementation/endpoints/src/client_endpoint_impl.cpp:207-310 | the same in every reachable state, with the times of segmented messages that passed the empty train counted as if on board |
| TrainBoarding.RunsShape | vsomeip/implementation/endpoints/src/client_endpoint_impl.cpp:260-302 | in every run a train remembers exactly the smallest debounce and retention time of the messages that have shaped it |
| TrainBoarding.RunsAcceptIff | vsomeip/implementation/endpoints/src/client_endpoint_impl.cpp:175-195 | in every run a message is accepted if and only if the endpoint is not blocked, the bytes queued leave room for it, and it is small enough or comes with segments; segments follow what is queued, each alone and with the separation time |
| TrainWriter.RunsBlockIff | vsomeip/implementation/endpoints/src/client_endpoint_impl.cpp:124-140 | an endpoint is blocked if and only if it was stopped or a write was aborted on a live connection |
| TrainBoarding.FlushQueues | vsomeip/implementation/endpoints/src/client_endpoint_impl.cpp:348-390 | what `flush` releases follows what is queued as one entry without a separation time |
| TrainBoarding.TimerRestartsIff | vsomeip/implementation/endpoints/src/client_endpoint_impl.cpp:348-390 | when the timer has fired, it is set again exactly if trains were parked |
| TrainTiming.StepKeepsWindow | vsomeip/implementation/endpoints/src/client_endpoint_impl.cpp:207-267 | the current train departs at the earliest deadline on board and, if debounce is within retention, no sooner than its minimal debounce after its last passenger; a parked train departs at its earliest deadline or, later, its minimal debounce after a finished write |
| TrainDebounce.RunsDebounceParkedTrains | vsomeip/implementation/endpoints/src/client_endpoint_impl.cpp:328-337 | in every run, segmented or not: a train that is parked departs exactly at the earliest deadline on board or, if that is later, its minimal debounce after the last write finished by then; so no sooner than that after each such write |
| TrainDebounce.ParkedBefore | vsomeip/implementation/endpoints/src/client_endpoint_impl.cpp:328-337 | every train in the line was parked by some step of the run |
| TrainDebounce.ParkedTrainsAreSpaced | vsomeip/implementation/endpoints/src/client_endpoint_impl.cpp:328-337 | where only the timer flushes and nothing is segmented, or segments are harmless: a train parked after a write has finished enters the queue no sooner than that write plus its minimal debounce, which without segments is the smallest debounce of its messages |
| TrainDebounce.AskedFlushIsEarly | vsomeip/implementation/endpoints/src/client_endpoint_impl.cpp:348-390 | for every method with a positive debounce within its retention, a reachable state in which a flush that was asked for has released a debounced train right after the write |
| TrainTiming.RunsWakeUp | vsomeip/implementation/endpoints/src/client_endpoint_impl.cpp:852-880 | no lost wake-up: in every reachable state with waiting messages the dispatch timer is armed no later than any such train departs, or for now if that has passed |
| TrainTiming.FlushTakesEarliest | vsomeip/implementation/endpoints/src/client_endpoint_impl.cpp:348-369 | `flush` takes a train that departs no later than any other waiting train, a parked one on a tie |
| TrainTiming.FlushReleasesIff | vsomeip/implementation/endpoints/src/client_endpoint_impl.cpp:348-390 | `flush` releases a train exactly if a message waits and no empty current train is due before all parked ones |
| TrainTiming.StuckStaysStuck | vsomeip/implementation/endpoints/src/client_endpoint_impl.cpp:348-390 | in the exceptional case flushing changes nothing but the timer, and the case persists |
| TrainTiming.RunsReleaseInTime | vsomeip/implementation/endpoints/src/client_endpoint_impl.cpp:662-667 | on runs without segmented messages, and on all runs where these are harmless, a timer that fires never releases a train before its departure |
| TrainTiming.MakeRoomNotEarlyIff | vsomeip/implementation/endpoints/src/client_endpoint_impl.cpp:282-325 | sending passengers off before a segmented message lets the timer release a train early, if and only if the first parked train then departs after the timer but within the retention time of the segments |
| TrainTiming.PromptRunsArePunctual | vsomeip/implementation/endpoints/src/client_endpoint_impl.cpp:852-880 | if timers fire on time, no train enters the queue after its departure, segmented messages or not: no message is buffered longer than its retention time unless held back the minimal debounce after a finished write; without segmented messages, or where they are harmless, every train enters the queue exactly at its departure |
| TrainSegments.TimerReleasesWhenDueIff | vsomeip/implementation/endpoints/src/client_endpoint_impl.cpp:282-325 | with segmented messages, on all runs on which only the timer flushes, no train is released before its departure if and only if no message is too large, or none fits into a train, or no method has both a debounce and a retention time |
| TrainSegments.HeldBackSpacedIff | vsomeip/implementation/endpoints/src/client_endpoint_impl.cpp:282-337 | the same condition decides whether a train held back after a write always keeps its minimal debounce to it |
| TrainSegments.ShortDebounceEarly | vsomeip/implementation/endpoints/src/client_endpoint_impl.cpp:282-325 | for every method with both times and a debounce within its retention, a run on which the timer releases a train that is held back before its departure |
| TrainSegments.LongDebounceEarly | vsomeip/implementation/endpoints/src/client_endpoint_impl.cpp:282-325 | the same for every method with both times and a debounce above its retention |
| TrainOrder.SharedRunsAreFifo | vsomeip/implementation/endpoints/src/client_endpoint_impl.cpp:175-390 | with one retention time, any debounce times within it and no segmentation, messages enter the queue in the order of acceptance in every run |
| TrainOrder.FifoIff | vsomeip/implementation/endpoints/src/client_endpoint_impl.cpp:175-390 | all unsegmented runs keep the order of acceptance if and only if all identifiers a message can carry share one retention time and none has a debounce above it |
| TrainOrder.LongDebounceOvertakes | vsomeip/implementation/endpoints/src/client_endpoint_impl.cpp:328-337 | for every configuration with a debounce above the retention of its method, a reachable state in which a later message has overtaken |
| TrainOrder.UnequalOvertakes | vsomeip/implementation/endpoints/src/client_endpoint_impl.cpp:355-369 | for every configuration with two different retention times, a reachable state in which a later message has overtaken |
| TrainOrder.FlushInOrderIff | vsomeip/implementation/endpoints/src/client_endpoint_impl.cpp:355-369 | a flush that releases a train keeps the order of waiting exactly if it turns to the parked trains first or there are none |
| TrainOrder.DebouncePromiseIff | vsomeip/documentation/vsomeipConfiguration.md:748-750 | the documented spacing of messages to one method holds on all unsegmented runs if and only if all debounce times are zero |
| TrainBlocking.NeverStuckIff | vsomeip/implementation/endpoints/src/client_endpoint_impl.cpp:348-390 | flushing never gets stuck on unsegmented runs if and only if no configured time exceeds six hours, or all messages share one retention time and none has a debounce above it |
| TrainBlocking.UniformNeverStuckIff | vsomeip/implementation/endpoints/src/client_endpoint_impl.cpp:348-390 | with the same times for all methods it never gets stuck if and only if the debounce is within the retention or within six hours |
| TrainBlocking.StuckUntilBoarding | vsomeip/implementation/endpoints/src/client_endpoint_impl.cpp:207-210 | a stuck yard stays stuck through every step but an accepted message that boards a train, and such a message always ends it |
| TrainBlocking.SegmentsBlockIff | vsomeip/implementation/endpoints/src/client_endpoint_impl.cpp:282-325 | a segmented message that sends waiting passengers off blocks the parked trains exactly if its retention ends before every parked departure |
| TrainBlocking.SegmentsCanBlock | vsomeip/implementation/endpoints/src/client_endpoint_impl.cpp:282-325 | a reachable state in which a message waits and no flush at any time releases it |
| ParkedTrains.FileIntoBucket | vsomeip/implementation/endpoints/src/client_endpoint_impl.cpp:328-337 | appending to the bucket of a departure is filing behind all trains that depart no later, with no empty bucket |
| ParkedTrains.FirstBucket | vsomeip/implementation/endpoints/src/client_endpoint_impl.cpp:355-360 | the first bucket of the map holds the train that is first in line |
| ParkedTrains.TakeFromFirstBucket | vsomeip/implementation/endpoints/src/client_endpoint_impl.cpp:357-366 | taking the front of the first bucket, dropping the bucket when empty, leaves the rest of the line |
| ClientEndpoints.TrainRecord.Reset | vsomeip/implementation/endpoints/include/buffer.hpp:45-51 | a reset train has a new empty buffer, no passengers and the departure of an empty train |
| ClientEndpoints.ClientEndpoint.constructor | vsomeip/implementation/endpoints/src/client_endpoint_impl.cpp:28-41 | a new endpoint is in the initial state of the state machine and owns its train and buffer |
| ClientEndpoints.ClientEndpoint.Send | vsomeip/implementation/endpoints/src/client_endpoint_impl.cpp:175-273 | `send` on mutable trains changes the state exactly as the state machine does and returns whether the message is accepted; no queued or parked byte changes |
| ClientEndpoints.ClientEndpoint.SendSegments | vsomeip/implementation/endpoints/src/client_endpoint_impl.cpp:282-325 | waiting passengers are sent off and one queue entry per segment is added |
| ClientEndpoints.ClientEndpoint.ScheduleTrain | vsomeip/implementation/endpoints/src/client_endpoint_impl.cpp:328-337 | the current train is postponed and parked under its departure, and a new train becomes current |
| ClientEndpoints.ClientEndpoint.StartDispatchTimer | vsomeip/implementation/endpoints/src/client_endpoint_impl.cpp:852-880 | the timer is set to the next departure, or to now if that has passed |
| ClientEndpoints.ClientEndpoint.Flush | vsomeip/implementation/endpoints/src/client_endpoint_impl.cpp:348-390 | `flush` on mutable trains changes trains, timer, queue and history exactly as the state machine does, nothing else, and returns whether a train was queued |
| ClientEndpoints.ClientEndpoint.FlushCbk | vsomeip/implementation/endpoints/src/client_endpoint_impl.cpp:662-667 | the expired timer is off before the flush, which may set it again |
| ClientEndpoints.ClientEndpoint.QueueTrain | vsomeip/implementation/endpoints/src/client_endpoint_impl.cpp:830-842 | the buffer of a train is queued, shared and unchanged, and a write starts if none is in progress |
| ClientEndpoints.ClientEndpoint.SendDone | vsomeip/implementation/endpoints/src/client_endpoint_impl.cpp:519-540 | a successful write changes the state as the state machine does: the front is removed and the next entry written |
| ClientEndpoints.ClientEndpoint.SendFailed | vsomeip/implementation/endpoints/src/client_endpoint_impl.cpp:541-659 | a failed write changes the state as the state machine does for each kind of error |
| ClientEndpoints.ClientEndpoint.ConnectCbk | vsomeip/implementation/endpoints/src/client_endpoint_impl.cpp:434-446 | a connect resumes writing with the front of the queue |
| ClientEndpoints.ClientEndpoint.StopEndpoint | vsomeip/implementation/endpoints/src/client_endpoint_impl.cpp:124-140 | a stop blocks sending and clears the queue |
| Framing.ScanStops | vsomeip/implementation/endpoints/src/local_tcp_server_endpoint_impl.cpp:541-545 | a scan stops at the first whole tag from its start, or where no whole tag fits |
| Deframing.FrameLayout | vsomeip/implementation/endpoints/src/local_tcp_client_endpoint_impl.cpp:251-262 | a command stands between the four bytes of each tag, and a well-formed one announces its payload in little-endian bytes 5 to 8 |
| Deframing.ParseWhole | vsomeip/implementation/endpoints/src/local_tcp_server_endpoint_impl.cpp:541-582 | a whole frame is recognised with its exact bounds, whatever its payload contains and whatever follows |
| Deframing.ParsePiece | vsomeip/implementation/endpoints/src/local_tcp_server_endpoint_impl.cpp:583-600 | a proper piece of a frame is found incomplete with the exact number of missing bytes, except after three bytes and inside a header that shows an end tag |
| Deframing.DeframeStream | vsomeip/implementation/endpoints/src/local_tcp_server_endpoint_impl.cpp:526-706 | whole frames at the front of the buffer are delivered one by one, whatever bytes follow |
| Deframing.RunFaithfulIff | vsomeip/implementation/endpoints/src/local_tcp_server_endpoint_impl.cpp:482-726 | for every way to cut a stream of commands into reads: after every read exactly the whole commands are delivered, in order, and the cut one is kept, if and only if no read stops after the first three bytes of a frame without having completed a command, or inside a header that shows an end tag |
| Deframing.ClearHeaderIff | vsomeip/implementation/endpoints/src/local_tcp_server_endpoint_impl.cpp:553-578 | a frame can be cut anywhere but after three bytes exactly if its first eight header bytes contain no end tag |
| Deframing.ClearStreamsArrive | vsomeip/implementation/endpoints/src/local_tcp_server_endpoint_impl.cpp:482-726 | chunking independence: with clear headers and no three-byte stop, every cutting of the stream delivers all commands once and in order, and leaves nothing buffered |
| Deframing.HeadersCanBeUnclear | vsomeip/implementation/endpoints/src/local_tcp_server_endpoint_impl.cpp:557-558 | a well-formed command whose header shows an end tag, and a read after which a command that was never sent is delivered |
| AnyBytes.RunsDeliverFrames | vsomeip/implementation/endpoints/src/local_tcp_server_endpoint_impl.cpp:482-726 | whatever bytes arrive, in whatever pieces: the delivered commands stand in the stream between their tags, in order and apart, and none with a whole header announces more than itself or than the limit |
| AnyBytes.DeliveredWithinLimit | vsomeip/implementation/endpoints/src/local_tcp_server_endpoint_impl.cpp:553-570 | whatever arrives, no delivered command with a whole header announces more than a finite limit |
| AnyBytes.TooLargeEndsRun | vsomeip/implementation/endpoints/src/local_tcp_server_endpoint_impl.cpp:553-570 | over every good way to cut a stream that ends with a command above a finite limit: from the moment its header is whole the connection is given up, with exactly the commands before it delivered; until then the limit does not matter |
| AnyBytes.DeframeRefuses | vsomeip/implementation/endpoints/src/local_tcp_server_endpoint_impl.cpp:553-570 | whole commands before a header that announces too much are delivered, the rest is refused, whatever follows |
| AnyBytes.TooLargeIff | vsomeip/implementation/endpoints/src/local_tcp_server_endpoint_impl.cpp:553-570 | a buffer is refused as too large if and only if a whole header behind its first start tag announces more than a finite limit |
| AnyBytes.NoStartIff | vsomeip/implementation/endpoints/src/local_tcp_server_endpoint_impl.cpp:541-552 | no start is found exactly in three bytes or more without a start tag; fewer bytes always miss the rest of an empty command |
| AnyBytes.ParseIff | vsomeip/implementation/endpoints/src/local_tcp_server_endpoint_impl.cpp:541-606 | in any buffer with a start tag and no too large header: the command up to the first end tag behind the announced payload is found; without one exactly the missing bytes of the frame are counted, in 32 bits; where none is missing the frame is malformed |
| AnyBytes.CallbackEndsIff | vsomeip/implementation/endpoints/src/local_tcp_server_endpoint_impl.cpp:583-720 | how a callback ends on bytes without a further command: kept, dropped as garbage or refused, and whether the missing bytes are asked for |
| ReadBuffer.PostedReadsFit | vsomeip/implementation/endpoints/src/local_tcp_server_endpoint_impl.cpp:341-387 | whatever bytes arrive in whatever pieces, the next read is not empty and lies within the buffer, for limits below 4 GiB minus four bytes |
| ReadBuffer.ReadsNeverEmptyIff | vsomeip/implementation/endpoints/src/local_tcp_server_endpoint_impl.cpp:592-595 | reads are never empty, whatever arrives, if and only if the message size is so limited |
| ReadBuffer.StreamReadsFit | vsomeip/implementation/endpoints/src/local_tcp_server_endpoint_impl.cpp:341-387 | on a stream of commands the next read is not empty and lies within the buffer, also without a limit |
| ReadBuffer.ShrinkCountIff | vsomeip/implementation/endpoints/src/local_tcp_server_endpoint_impl.cpp:744-755 | a callback in less than half a buffer adds its commands to the shrink count, one in more starts it again, and where nothing is to be shrunk it stays |
| ReadBuffer.PostIff | vsomeip/implementation/endpoints/src/local_tcp_server_endpoint_impl.cpp:341-387 | between two reads the buffer grows to room for exactly what is missing, or shrinks to its initial size exactly if nothing is missing or kept and the count is above the threshold |
| Connections.Connection.constructor | vsomeip/implementation/endpoints/src/local_tcp_server_endpoint_impl.cpp:308-316 | a new connection has an empty buffer of its initial size |
| Connections.Connection.Start | vsomeip/implementation/endpoints/src/local_tcp_server_endpoint_impl.cpp:341-387 | the buffer grows by what is missing, or shrinks after enough small commands, keeping its contents, and the posted read has the specified size |
| Connections.Connection.FindTag | vsomeip/implementation/endpoints/src/local_tcp_server_endpoint_impl.cpp:574-578 | the loop over the buffer finds what the scan over the window finds, within bounds |
| Connections.Connection.ParseWindow | vsomeip/implementation/endpoints/src/local_tcp_server_endpoint_impl.cpp:541-620 | one round over the window behind the gap decides as the parser over values does |
| Connections.Connection.ShiftToFront | vsomeip/implementation/endpoints/src/local_tcp_server_endpoint_impl.cpp:690-695 | the in-place copy moves the rest of the buffer to its front |
| Connections.Connection.Deliver | vsomeip/implementation/endpoints/src/local_tcp_server_endpoint_impl.cpp:683-688 | exactly the bytes between the tags are handed over, gap plus size stays constant, and the shrink count follows its rule |
| Connections.Connection.ReceiveCbk | vsomeip/implementation/endpoints/src/local_tcp_server_endpoint_impl.cpp:482-726 | the callback on the mutable buffer delivers, keeps and asks for exactly what the receiver over values does |
| LocalLink.DeliveredIsAccepted | vsomeip/implementation/endpoints/src/local_tcp_client_endpoint_impl.cpp:224-276 | end to end, commands accepted before the connection is there included: in every run whose reads stop well, the commands delivered are a prefix of those accepted, and all of them once queue and stream are empty |
| LocalLink.RunsStaySound | vsomeip/implementation/endpoints/src/local_tcp_client_endpoint_impl.cpp:224-276 | on runs without failure, from before the first connect on: the stream carries exactly the accepted commands that are not waiting, in order; one write is in flight while anything is queued, or there is no socket yet and the queue waits for the connect |
| LocalLink.SenderRunsAccount | vsomeip/implementation/endpoints/src/local_tcp_client_endpoint_impl.cpp:48-119 | in every run, with failures, closed connections, starts, stops that keep the queue, and restarts, the queue size is what is queued and a configured limit is never exceeded |
| LocalLink.RunsKeepCommands | vsomeip/implementation/endpoints/src/client_endpoint_impl.cpp:514-659 | as long as nothing drops the queue, in every run the accepted commands are those sent followed by those queued |
| LocalLink.DropsIff | vsomeip/implementation/endpoints/src/client_endpoint_impl.cpp:541-659 | what is queued is dropped unsent if and only if the peer closes, the sender is restarted, a write fails on a live connection for lack of permission, or finds its pipe broken there while the sender is blocked |
| LocalLink.RunsAcceptIff | vsomeip/implementation/endpoints/src/local_tcp_client_endpoint_impl.cpp:224-249 | in every run a command is accepted, behind all others, if and only if sending is not blocked, the bytes queued leave room for it and it is not too large; otherwise nothing changes |
| LocalLink.RunsBlock | vsomeip/implementation/endpoints/src/local_tcp_client_endpoint_impl.cpp:48-119 | in every run sending is blocked after a stop or an aborted write, until a start, a restart or the end of the stream |
| LocalLink.RunsOpen | vsomeip/implementation/endpoints/src/client_endpoint_impl.cpp:541-659 | in every run the socket is open from an opening until a stop, a restart, a connect of a blocked sender, or a write that fails on a live connection for a reason that concerns the connection |
| LocalLink.ActWritesIff | vsomeip/implementation/endpoints/src/local_tcp_client_endpoint_impl.cpp:251-276 | every action hands at most one frame to the socket, the front of the queue, exactly when that is due and there is a socket; which actions leave the writer at work |
| LocalLink.ActWaitsIff | vsomeip/implementation/endpoints/src/local_tcp_client_endpoint_impl.cpp:251-276 | the queue waits for a connect after a failed write, a restart or a turn without a socket, until a connect of a sender that is not blocked |
| LocalLink.SenderLivelyIff | vsomeip/implementation/endpoints/src/client_endpoint_impl.cpp:393-659 | through a whole run a queued command is being written or the next connect resumes writing, if and only if no step strands it: a write ends well behind a dropped queue, or finds the socket of a blocked sender closed; a write fails, leaves a queue, and blocks the sender or finds it blocked; a queue that waits for a connect is stopped |
| LocalLink.OpenRunsLively | vsomeip/implementation/endpoints/src/client_endpoint_impl.cpp:514-659 | where the peer never closes, through any failures, stops, starts, connects and restarts: a writer at work has a write in flight and something to write, a queue without a writer waits for a connect, and none is forgotten unless the sender is blocked |
| LocalLink.StrandedUntilStart | vsomeip/implementation/endpoints/src/client_endpoint_impl.cpp:395-402 | a blocked sender with a queue and no write in flight keeps the queue and writes nothing, whatever happens, until a start, a restart or the end of the stream |
| LocalLink.StrandsFromStart | vsomeip/implementation/endpoints/src/client_endpoint_impl.cpp:613-659 | for all sizes that admit two commands, a run from the start to such a sender: a write is aborted while a second command is queued |
| LocalLink.StartResumes | vsomeip/implementation/endpoints/src/local_tcp_client_endpoint_impl.cpp:74-83 | a start followed by a connect resumes it with the front of its queue |
| LocalLink.StopDrains | vsomeip/implementation/endpoints/src/local_tcp_client_endpoint_impl.cpp:85-119 | after a stop that finds a write in flight, as many successful writes as there are commands empty the queue onto the wire, in order |
| LocalLink.StopWritesAll | vsomeip/implementation/endpoints/src/local_tcp_client_endpoint_impl.cpp:85-119 | on runs without failure such a stop has put every accepted command on the wire |
| LocalLink.StalledUntilRestart | vsomeip/implementation/endpoints/src/client_endpoint_impl.cpp:835-841 | a sender that waits for a write that does not exist writes nothing, whatever happens, until it is restarted |
| LocalLink.PeerClosedStallsIff | vsomeip/implementation/endpoints/src/local_tcp_client_endpoint_impl.cpp:299-307 | after the peer closed the connection the sender is stalled if and only if a write was in progress and ends without an error; after a restart it is not |
| LocalLink.PeerClosedLosesCommand | vsomeip/implementation/endpoints/src/client_endpoint_impl.cpp:519-528 | a command accepted before that write ends is taken for the written one and never written |
| LocalLink.StallsFromStart | vsomeip/implementation/endpoints/src/local_tcp_client_endpoint_impl.cpp:299-307 | a run from the start to a stalled sender that holds an accepted command |
| LocalClients.LocalClient.Send | vsomeip/implementation/endpoints/src/local_tcp_client_endpoint_impl.cpp:224-249 | a send adds exactly one entry holding exactly the command if it is accepted, and changes nothing otherwise |
| LocalClients.LocalClient.QueueTrainBuffer | vsomeip/implementation/endpoints/src/local_tcp_client_endpoint_impl.cpp:387-395 | a train that would become too large is queued first; an empty one never is |
| LocalClients.LocalClient.SendQueued | vsomeip/implementation/endpoints/src/local_tcp_client_endpoint_impl.cpp:251-276 | the front of the queue is handed to the socket between its tags; without an open socket it waits for the next connect |
| LocalClients.LocalClient.SendCbk | vsomeip/implementation/endpoints/src/client_endpoint_impl.cpp:519-540 | a finished write removes the front and writes the next entry |
| LocalClients.LocalClient.LoseConnection | vsomeip/implementation/endpoints/src/client_endpoint_impl.cpp:541-633 | a write that fails on a live connection drops the queue for two errors, blocks sending for one, and closes the socket for all but two |
| LocalClients.LocalClient.SendFailed | vsomeip/implementation/endpoints/src/client_endpoint_impl.cpp:541-659 | a failed write stops the writer until the next connect or accepted send, and drops the queue, closes the socket or blocks sending for some errors |
| LocalClients.LocalClient.ConnectCbk | vsomeip/implementation/endpoints/src/client_endpoint_impl.cpp:393-446 | a connect resumes with the front of the queue, unless sending is blocked: then it only closes the socket |
| LocalClients.LocalClient.ReceiveEof | vsomeip/implementation/endpoints/src/local_tcp_client_endpoint_impl.cpp:299-307 | the end of the stream drops the queue and unblocks sending; a lively sender stays lively |
| LocalClients.LocalClient.Restart | vsomeip/implementation/endpoints/src/local_tcp_client_endpoint_impl.cpp:48-72 | a restart drops everything, and the sender is lively afterwards, whatever it was before |
| LocalClients.LocalClient.Stop | vsomeip/implementation/endpoints/src/local_tcp_client_endpoint_impl.cpp:85-90 | a stop refuses new commands and keeps the queue; no command is forgotten exactly if none is queued or one is being written |
| LocalClients.LocalClient.Start | vsomeip/implementation/endpoints/src/local_tcp_client_endpoint_impl.cpp:74-83 | sending is possible again and the socket is opened, if it can be; a lively sender stays lively |
| ClientPorts.FirstFreeIff | vsomeip/implementation/configuration/src/configuration_impl.cpp:3300-3307 | the loop finds the first unused port of a range, or none exactly if all are used |
| ClientPorts.FindPortIff | vsomeip/implementation/configuration/src/configuration_impl.cpp:3278-3334 | `find_port` returns an unused port of a matching range, or none only if every port of all matching ranges is used; only the memory of last ports changes |
| ClientPorts.FindPortDecides | vsomeip/implementation/configuration/src/configuration_impl.cpp:3278-3334 | the first client that, continuing, finds a port decides; if none does, the first with a free port gives its lowest, and all others for the remote port forget what they used last |
| ClientPorts.ContinueIff | vsomeip/implementation/configuration/src/configuration_impl.cpp:3284-3312 | a continued search takes the lowest free port behind the one used last, and moves the memory on exactly as the code does where there is none |
| ClientPorts.RestartIff | vsomeip/implementation/configuration/src/configuration_impl.cpp:3314-3334 | a search from the beginning of a range takes its lowest free port, and changes nothing without one |
| ClientPorts.FindPortKeepsOthers | vsomeip/implementation/configuration/src/configuration_impl.cpp:3278-3334 | clients for other remote ports are not changed, and a range counts as configured exactly if a client serves the remote port |
| ClientPorts.FindPortCompleteIff | vsomeip/implementation/configuration/src/configuration_impl.cpp:3278-3334 | for a loaded configuration and a remote port: every search for it, after any searches for it since loading, finds a free legal port if there is one, if and only if every legal port of the matching ranges lies in one before the first that ends with 65535 |
| ClientPorts.UncoveredMisses | vsomeip/implementation/configuration/src/configuration_impl.cpp:3278-3334 | wherever that condition fails: at most one search from the loaded memory, and ports in use for which the next search finds nothing although a legal port is free |
| ClientPorts.TakeSpecificIff | vsomeip/implementation/configuration/src/configuration_impl.cpp:3336-3386 | `find_specific_port` returns only unused configured ports, finds one exactly if one is free behind the last, and finds any free one within two calls |
| ClientPorts.TakeSpecificMisses | vsomeip/implementation/configuration/src/configuration_impl.cpp:3369-3382 | a configuration and ports in use for which one call misses a free port |
| ClientPorts.SpecificComesFirst | vsomeip/implementation/configuration/src/configuration_impl.cpp:2970-2983 | if a port configured for the service instance, behind the one used last, is free, the first such port is returned and remembered, and nothing else changes, whatever the ranges offer |
| ClientPorts.RangesComeSecond | vsomeip/implementation/configuration/src/configuration_impl.cpp:2985-2993 | if the service instance has configured ports and none behind the last is free, the result is that of the ranges |
| ClientPorts.RangesOnly | vsomeip/implementation/configuration/src/configuration_impl.cpp:2985-3004 | without configured ports for the service instance the ranges decide; without a range for the remote port, too, the result is 0 |
| ClientPorts.GetClientPortSound | vsomeip/implementation/configuration/src/configuration_impl.cpp:2970-3004 | `get_client_port` returns an unused configured port, or 0 exactly without configuration (unless 0 itself is configured), or none; then there is configuration and no generic port is free unless a range ends with 65535 |
| ClientPorts.SearchAlternates | vsomeip/implementation/configuration/src/configuration_impl.cpp:3278-3334 | over a range of two ports, four searches with no port, the first, no port and the first in use give the two ports in turn |
| PortConfigurations.FindFree | vsomeip/implementation/configuration/src/configuration_impl.cpp:3300-3307 | the loop over a range finds its first unused port |
| PortConfigurations.PortConfiguration.FindPort | vsomeip/implementation/configuration/src/configuration_impl.cpp:3278-3334 | both passes over the clients, with the reset between them, compute and remember what the specification says |
| PortConfigurations.PortConfiguration.FindSpecificPort | vsomeip/implementation/configuration/src/configuration_impl.cpp:3336-3386 | the search over a client's ports computes and remembers what the specification says |
| PortConfigurations.PortConfiguration.GetClientPort | vsomeip/implementation/configuration/src/configuration_impl.cpp:2970-3004 | specific ports come first, then ranges, then the system's choice |
| EndpointIndex.FindIff | vsomeip/implementation/endpoints/src/endpoint_manager_impl.cpp:957-1016 | the endpoint of a service instance is found, or the one filed for its remote and its partition, which is then attached; otherwise nothing changes |
| EndpointIndex.OfferAttaches | vsomeip/implementation/endpoints/src/endpoint_manager_impl.cpp:154-176 | an offer is recorded; a reliable one without an endpoint is attached to the one filed for it, an unreliable one is not |
| EndpointIndex.OfferBothAttaches | vsomeip/implementation/endpoints/src/endpoint_manager_impl.cpp:178-205 | both offers of a service instance are recorded and attached, each to the endpoint of its own protocol |
| EndpointIndex.ClearForgets | vsomeip/implementation/endpoints/src/endpoint_manager_impl.cpp:335-438 | a service instance that is gone takes its attribution with it, and no other |
| EndpointIndex.ClearKeepsFiles | vsomeip/implementation/endpoints/src/endpoint_manager_impl.cpp:335-438 | no endpoint but that of the service instance leaves the files |
| EndpointInvariants.RunsStayLinked | vsomeip/implementation/endpoints/src/endpoint_manager_impl.cpp:335-438 | in every run whose definitions name one port: each service instance has a running endpoint, filed under its address, port, reliability and partition, and each filed endpoint has a user and is filed once |
| EndpointInvariants.CreateKeepsLinkedIff | vsomeip/implementation/endpoints/src/endpoint_manager_impl.cpp:1018-1072 | a new endpoint keeps the index linked if and only if no endpoint is filed under its slot yet |
| EndpointInvariants.FindOrCreateKeepsLinked | vsomeip/implementation/endpoints/src/endpoint_manager_impl.cpp:62-77 | where both ports of the definition agree, an endpoint is created only if none can be shared |
| EndpointInvariants.UsersAgree | vsomeip/implementation/endpoints/src/endpoint_manager_impl.cpp:957-1016 | all users of an endpoint are of one partition and of its protocol |
| EndpointInvariants.StopsWithLastUser | vsomeip/implementation/endpoints/src/endpoint_manager_impl.cpp:335-438 | an endpoint is stopped exactly when its last user goes, and no other endpoint is |
| EndpointInvariants.UsedIffFound | vsomeip/implementation/endpoints/src/endpoint_manager_impl.cpp:957-1016 | exactly the endpoints in use can be found, and none of them is stopped |
| EndpointPorts.RunsKeepPorts | vsomeip/implementation/endpoints/src/endpoint_manager_impl.cpp:925-955 | in every run without a configured rebind the recorded non-zero ports are exactly those of the running endpoints, and no two towards the same remote share one |
| EndpointPorts.RebindKeepsPortsIff | vsomeip/implementation/endpoints/src/endpoint_manager_impl.cpp:883-912 | after a bind error the record stays right if and only if the system chooses the new port |
| EndpointPorts.RebindFromSearchIff | vsomeip/implementation/endpoints/src/endpoint_manager_impl.cpp:899-905 | where the new port comes from the search, the record stays right if and only if no ports are configured for that service instance and remote port |
| EndpointPorts.RebindCollides | vsomeip/implementation/endpoints/src/endpoint_manager_impl.cpp:899-905 | for any three partitions at one server and any two ports, a run after which two running endpoints have the same remote and the same local port |
| EndpointPorts.AttributionIff | vsomeip/implementation/endpoints/src/endpoint_manager_impl.cpp:744-756 | through a whole run `find_instance` is right for every user if and only if at no time two instances of a service share an endpoint |
| EndpointPorts.SharedEndpointMisattributes | vsomeip/implementation/endpoints/src/endpoint_manager_impl.cpp:744-756 | for any two instances of a service in one partition at one server, a run after which the first is taken for the second |
| EndpointManagers.EndpointManager.FindRemoteClient | vsomeip/implementation/endpoints/src/endpoint_manager_impl.cpp:957-1016 | an endpoint is found under the service instance or shared through its slot, and then recorded for it |
| EndpointManagers.EndpointManager.ChoosePort | vsomeip/implementation/endpoints/src/endpoint_manager_impl.cpp:1040-1048 | the port of a reliable endpoint is what the search over the TCP clients gives, that of an unreliable one what the search over the UDP clients gives; the other protocol keeps its memory |
| EndpointManagers.EndpointManager.CreateRemoteClient | vsomeip/implementation/endpoints/src/endpoint_manager_impl.cpp:1018-1072 | a new endpoint with a port from the search over the ports of its own protocol is recorded in all maps, and the other protocol keeps its memory; nothing changes without definition or port |
| EndpointManagers.EndpointManager.FindOrCreateRemoteClient | vsomeip/implementation/endpoints/src/endpoint_manager_impl.cpp:62-77 | takes the step of the index; a new endpoint has the port that the search over the ports of its own protocol gives, which no running endpoint is recorded with |
| EndpointManagers.EndpointManager.AddRemoteServiceInfo | vsomeip/implementation/endpoints/src/endpoint_manager_impl.cpp:154-176 | the definition is recorded, and a reliable one is attached to an endpoint that can be shared |
| EndpointManagers.EndpointManager.AddBothServiceInfos | vsomeip/implementation/endpoints/src/endpoint_manager_impl.cpp:178-205 | both definitions are recorded and attached |
| EndpointManagers.EndpointManager.IsInUse | vsomeip/implementation/endpoints/src/endpoint_manager_impl.cpp:367-381 | the loop over the services decides whether another one uses the endpoint |
| EndpointManagers.EndpointManager.ClearClientEndpoints | vsomeip/implementation/endpoints/src/endpoint_manager_impl.cpp:335-438 | takes the step of the index: the service instance is detached and an unused endpoint stopped and its port released |
| EndpointManagers.EndpointManager.OnBindError | vsomeip/implementation/endpoints/src/endpoint_manager_impl.cpp:883-912 | on success the endpoint has a port that the search over the ports of its own protocol gives for a service instance that uses it, and its old port is released; on failure nothing changes, and for every service instance that uses it ports are configured and no generic one is free; the other protocol keeps its memory |
| GuestPorts.CorrectedIff | vsomeip/implementation/configuration/src/configuration_impl.cpp:692-716 | the correction yields the largest part of a range that consists of whole pairs with the host's parity, if and only if it does not wrap around |
| GuestPorts.CorrectRanges | vsomeip/implementation/configuration/src/configuration_impl.cpp:696-728 | each range is replaced by its correction |
| GuestPorts.FirstPortIff | vsomeip/implementation/endpoints/src/endpoint_manager_base.cpp:332-362 | a server port is found exactly if there is an unused pair that is not the host's, and it is the first port of one |
| GuestPorts.FirstPortInOrder | vsomeip/implementation/endpoints/src/endpoint_manager_base.cpp:332-362 | the port found is the lowest candidate of the first range that has one |
| GuestPorts.PairsAreDisjoint | vsomeip/implementation/endpoints/src/endpoint_manager_base.cpp:332-362 | pairs of different candidates and of the host have no port in common, even if ranges overlap |
| GuestPorts.GuestPairsAreSafe | vsomeip/implementation/configuration/src/configuration_impl.cpp:692-728 | from the loaded ranges on, none of which the correction wraps around: every pair lies within a loaded range and is disjoint from every other client's and the host's |
| GuestPorts.GetLocalServerPort | vsomeip/implementation/endpoints/src/endpoint_manager_base.cpp:332-362 | the nested loops find the first candidate |
| GuestPorts.CreateLocalServer | vsomeip/implementation/endpoints/src/endpoint_manager_base.cpp:128-164 | the loop ends; the port reported as a guest is the one that was bound, on the first attempt that succeeded; it fails only if every candidate was refused or the waiting time is used up |
| Reconnect.RunsStayConsistent | vsomeip/implementation/endpoints/src/client_endpoint_impl.cpp:85-114 | in every run, failed openings, restarts and stops included, a connected or established endpoint has an open socket, and the waiting time is 100, 200, 400, 800 or 1600 ms |
| Reconnect.TellingIff | vsomeip/implementation/endpoints/src/client_endpoint_impl.cpp:85-114 | in every run the endpoint becomes connected or established exactly if it is told so and its socket is open; while it is connecting, that it is established is ignored |
| Reconnect.RunsOpen | vsomeip/implementation/endpoints/src/client_endpoint_impl.cpp:85-140 | in every run there is an open socket from a successful opening until a failure, an abort, a stop or a restart |
| Reconnect.RunsState | vsomeip/implementation/endpoints/src/client_endpoint_impl.cpp:85-140 | in every run the endpoint connects from a bound attempt or a restart until it is told what became of it or the socket is closed |
| Reconnect.DelayIff | vsomeip/implementation/endpoints/src/client_endpoint_impl.cpp:403-433 | the waiting time is 100 ms after a success or a stop, and changes otherwise only where a counted failure doubles it |
| Reconnect.RetriesWithinLimitIff | vsomeip/implementation/endpoints/src/client_endpoint_impl.cpp:403-433 | with a limit, in every run no more retries than the limit are started between two resets, if and only if fewer than 2^32 attempts fail between them |
| Reconnect.RunsTally | vsomeip/implementation/endpoints/src/client_endpoint_impl.cpp:403-433 | in every run the retries since the last reset are as many as the failures, or as the limit if that is less, until the count of failures wraps around |
| Reconnect.CountedStreak | vsomeip/implementation/endpoints/src/client_endpoint_impl.cpp:413-421 | the exact number and waiting times of the retries after any number of failures in a row, where failures are counted |
| Reconnect.UnlimitedStreak | vsomeip/implementation/endpoints/src/client_endpoint_impl.cpp:413-421 | without a limit every failure is followed by a retry after 100 ms |
| Reconnect.BacksOffIff | vsomeip/implementation/endpoints/src/client_endpoint_impl.cpp:413-421 | some retry of a streak waits longer than the first if and only if the limit is above 31 and not "unlimited" |
| Reconnect.Endpoint.ConnectFailed | vsomeip/implementation/endpoints/src/client_endpoint_impl.cpp:403-421 | the failed connect keeps retries tallied and waiting times in bounds, and counts, retries and backs off as the state machine does |
| Reconnect.Endpoint.Stopped | vsomeip/implementation/endpoints/src/client_endpoint_impl.cpp:124-140 | a stop closes the socket and resets the waiting time, and keeps the count of failures |
| Reconnect.Endpoint.Connect | vsomeip/implementation/endpoints/src/local_tcp_client_endpoint_impl.cpp:120-212 | an attempt changes the state only if its socket could be opened and bound |

## Left out

- Sockets, strands, threads, locks, logging: operations are atomic steps over abstract completions.
- Exactly-once writes across reconnects: a connect resumes writing without asking whether a write is in progress, so a single write in flight is claimed only for runs in which every write succeeds.
- 64-bit overflow of times and of `queue_size_`: times and sizes are unbounded.
- How messages are cut into segments: the segments of a too large message are an argument.
- The socket of a remote client endpoint: a write that finds it closed counts as one that fails without a connection, which leaves the same state. Between opening the socket of a local client endpoint and its connection, what a write does is left to the socket.
- The TCP and UDP client endpoints beyond the shared base class, Unix domain sockets, server endpoints, multicast, service discovery and routing.
- Assigning client identifiers and the bookkeeping of connections in the local server: a delivered command is recorded, whatever the host does with it.
- Vector capacity: the capacity of the receive buffer is the length of its array.
- Nested maps: the maps of the endpoint manager are flattened to one key, so the pruning of empty inner maps has no counterpart; endpoints are records with an identity that is never used again.
- Loading of the JSON configuration, except the correction of guest ranges; the lookup of guest ranges by user and group.
- TrainOrder.FifoIff: the half that shows overtaking is for endpoints without a message size and queue limit, because a limit can refuse the messages that overtake; the other half, SharedRunsAreFifo, is for all limits. The same holds of TrainOrder.DebouncePromiseIff and TrainBlocking.NeverStuckIff.
- TrainDebounce.ParkedTrainsAreSpaced: is for runs in which only the timer flushes, because a flush that is asked for does not wait for the departure (AskedFlushIsEarly), and for unsegmented runs or harmless segments, because it is false otherwise (TrainSegments.HeldBackSpacedIff); the departures themselves are debounced on all runs (RunsDebounceParkedTrains).
- TrainSegments.TimerReleasesWhenDueIff: the half that shows an early release is for endpoints without a queue limit, because a limit can refuse the messages it takes; the other half, RunsReleaseInTime, is for all limits. The same holds of TrainSegments.HeldBackSpacedIff.
- ClientPorts.FindPortCompleteIff: is for searches for one remote port; searches for another one share memory with these only where a client's range of remote ports holds both.
- ReadBuffer.PostedReadsFit: covers limits below 4 GiB minus four bytes; what holds beyond is stated by ReadsNeverEmptyIff and StreamReadsFit.
- LocalLink.DeliveredIsAccepted: covers runs without failure, end of stream and restart, after which the rest of a frame may be missing from the stream.
