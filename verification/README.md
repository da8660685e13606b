# Verified model of the Iris send pipeline

Iris accepts Solana transactions over QUIC and JSON-RPC and hands them to the TPU client through a
bounded channel. A transaction may be flagged MEV-protected: it must not be sent while any leader of
the current fan-out is on the shield list. This project models that pipeline and what surrounds it,
and proves what it guarantees over whole runs and under every interleaving.

Run `dafny verify dfyconfig.toml` (Dafny 4.11).

## How the project is organised

| file | content |
|---|---|
| `Prelude.dfy` | shared types, sequence functions, 64-bit wrap-around |
| `TpuPayload.dfy` | the payload codec: wire bytes plus one flag byte |
| `HoldAndRelease.dfy` | one call of `prepare_transactions` on abstract payloads, runs of calls, windows, order, conservation |
| `ReleaseSchedule.dfy` | which call each payload of a run leaves with, and the only kind of overtaking |
| `FanOut.dfy` | the transaction-major send loop as a sequence of sends |
| `TransactionStats.dfy` | the counters as a class, the non-atomic snapshot, the reporter |
| `Broadcaster.dfy` | `MevProtectedBroadcaster` and the worker cache as classes, with a refresher that stores sets at any time |
| `Shield.dfy` | the policy parser and the join with the cluster nodes |
| `Pipeline.dfy` | handlers, channel, flush task, consumer and refresher as one state machine |
| `PipelineInvariant.dfy` | its inductive invariant |
| `PipelineRuns.dfy` | composing runs; what every run only adds to |
| `DeliveryGuarantees.dfy` | blocked leaders, order, conservation, exactly-once, payload identity |
| `StaleSnapshots.dfy` | snapshots are taken inside their call; when a send goes to a leader that is blocked at that moment |
| `ChannelLaws.dfy` | what the bounded channel accepts |
| `Accounting.dfy` | conservation laws of the counters |
| `FlushProgress.dfy` | what the flush task guarantees |
| `BroadcasterRefinement.dfy` | every execution of the broadcaster's call is a run of the machine |
| `RequestHandlers.dfy` | sender and request handlers as sequential programs, and their outcome among other threads |
| `SlotWatchdog.dfy` | the slot-update subscription as a timed run |
| `Pinning.dfy` | round-robin CPU pinning |

The classes follow the Rust objects; their methods are proved against the functions the lemmas are
about. The state machine takes atomic steps, one shared access each. Its histories (accepted
messages, calls, attempts, stored sets) are written by steps and never read by them. `Reachable` means
reachable by any sequence of enabled actions from the start.

## Results that are not what one might expect

* The guarantee for protected transactions is about the snapshot of blocked leaders loaded for a call.
  A refresh between the snapshot and an attempt can make the attempt go to a leader that is in the
  current set at that moment: `StaleSnapshots.StaleAttemptHappens` gives the run. The exact condition:
  a send loop with a protected payload, run to its end without a store in between, makes such an
  attempt if and only if the call's fan-out meets the set that is current when the loop starts
  (`StaleSnapshots.StaleSendCondition`); so it needs a store since the snapshot.
* A call with an empty fan-out is never blocked, so it empties the buffer to nobody.
  `DeliveryGuarantees.EmptyFanOutLosesPayloads` says exactly when a call has attempted anything,
  `LostPayloadIsReachable` gives a run that loses an enqueued transaction, and `LostForGood` says that
  no continuation ever tries it.
* The policy parser never looks at the length field of the header. The announced number of identities
  is the parsed one if and only if it equals the number of complete chunks behind the header
  (`Shield.LengthFieldIsIgnored`).
* The reports of a counter add up to what the last reading counted if and only if that is below 2^64
  (`TransactionStats.Statistics.Report`); after a wrap-around the saturating difference loses counts.
* Round-robin pinning stays balanced for every number of thread starts if and only if the length of the
  CPU list divides 2^64 (`Pinning.BalancedForever`); below the wrap-around it is always balanced.
* A refresh that is answered in time with an account of length zero panics, and no other does
  (`Shield.PanicCondition`). The model ends the refresher thread there, and the last stored set stays
  in force.

## Model

| member | source | states |
|---|---|---|
| TpuPayload.New | src/tpu_next_client.rs:35-45 | building a payload gives bytes and flag that read back as given |
| TpuPayload.RoundTrip | src/tpu_next_client.rs:48-68 | decoding an encoded payload restores bytes and flag, for all byte strings |
| TpuPayload.NoPayloadIsFlush | src/tpu_next_client.rs:137-138 | no payload, even of an empty transaction, encodes to the flush message, and the flush message decodes to nothing |
| TpuPayload.EncodeIsInjective | src/tpu_next_client.rs:35-45 | different transactions or flags never share an encoding |
| TpuPayload.ReencodeRestores | src/tpu_next_client.rs:48-52 | unknown flag bits are dropped: re-encoding restores a message exactly when it has none |
| HoldAndRelease.RunsAreWindows | src/broadcaster.rs:88-127 | the outputs of any run are its windows: passing payloads in order, then the held ones, then that of the unblocked call that closes the window; the buffer is the open window's protected payloads |
| HoldAndRelease.FifoPerClass | src/broadcaster.rs:100-122 | protected inputs are protected outputs followed by the buffer, unprotected inputs are unprotected outputs, in order |
| HoldAndRelease.Conservation | src/broadcaster.rs:93-126 | inputs are outputs plus buffer as multisets, so equal byte strings keep their multiplicity |
| ReleaseSchedule.RunsFollowSchedule | src/broadcaster.rs:100-122 | payload by payload: a held one leaves with the first unblocked call after it, any other with its own call, one call's payloads in arrival order, the rest are held |
| ReleaseSchedule.PayloadsOfIndexes | src/broadcaster.rs:100-122 | a run on payloads is the run on call indexes with the payloads put back |
| ReleaseSchedule.OnlyHeldPayloadsAreOvertaken | src/broadcaster.rs:100-122 | a later payload gets out first if and only if it is unprotected, the earlier one is protected, and every call from the one to the other was blocked |
| FanOut.SendsAt | src/broadcaster.rs:148-151 | the sends are transactions times leaders, in transaction-major order |
| FanOut.EveryLeaderSeesAll | src/broadcaster.rs:148-151 | every fan-out position is sent all transactions, once each and in order |
| Broadcaster.WorkersCache.TrySendTransactionToAddress | src/broadcaster.rs:150-151 | one attempt with an arbitrary outcome |
| Broadcaster.WorkersCache.Pop | src/broadcaster.rs:160 | removes at most the one peer and returns its worker |
| Broadcaster.WorkersCache.ShutdownWorker | src/broadcaster.rs:161 | shuts down one worker |
| Broadcaster.PrunedStep | src/broadcaster.rs:153-168 | an attempt removes its peer if and only if it reported ReceiverDropped, and shuts a present worker down once |
| Broadcaster.MevProtectedBroadcaster.constructor | src/broadcaster.rs:79-83 | starts with no blocked leader and an empty buffer |
| Broadcaster.MevProtectedBroadcaster.Store | src/broadcaster.rs:61 | replaces the blocked set |
| Broadcaster.MevProtectedBroadcaster.RefreshLoop | src/broadcaster.rs:52-74 | stores one set per successful request, none for errors and time-outs, and ends at the first request that panics |
| Broadcaster.NewestSetMeaning | src/broadcaster.rs:59-70 | the newest stored set is exactly what the latest good refresh denies |
| Broadcaster.StoredSetsMeaning | src/broadcaster.rs:59-70 | every good refresh stores a set of its own, in order, exactly what its replies deny |
| Broadcaster.MevProtectedBroadcaster.PrepareTransactions | src/broadcaster.rs:88-127 | one more call of the run: its output, the buffer and the stored size; buffered counts up by 1 exactly for a protected payload in a blocked call, released by the old buffer length exactly in an unblocked one; nothing stays buffered after an unblocked call |
| Broadcaster.MevProtectedBroadcaster.SendToWorkers | src/broadcaster.rs:132-172 | with stores at any moment, always succeeds; uses one snapshot that was current inside the call; attempts exactly the output times the fan-out; sends to a blocked address only the call's own unprotected payload; prunes exactly the dropped peers |
| Broadcaster.MevProtectedBroadcaster.SendAll | src/broadcaster.rs:148-170 | the outer loop attempts all transactions at all leaders in order |
| Broadcaster.MevProtectedBroadcaster.SendRow | src/broadcaster.rs:149-169 | the inner loop attempts one transaction at every leader |
| Broadcaster.MevProtectedBroadcaster.SendOne | src/broadcaster.rs:150-168 | one attempt and its effect on the cache |
| Broadcaster.OnlyOwnPayloadToBlocked | src/broadcaster.rs:139-142 | while any target is blocked nothing but the call's own unprotected payload goes out |
| Broadcaster.BufferCountersAgree | src/transaction_stats.rs:103-113 | at every call boundary of every run buffered is its start value plus the number of blocked calls with a protected payload, released is that minus the buffer length, modulo 2^64 |
| Broadcaster.ItemOfMessage | src/tpu_next_client.rs:48-68 | the empty message means nothing; any other means all bytes but the last, protected exactly if the last has the protection bit |
| TransactionStats.Statistics.Add | src/transaction_stats.rs:68-109 | one fetch_add changes one counter, modulo 2^64 |
| TransactionStats.Statistics.SetMevBufferSize | src/transaction_stats.rs:111-113 | stores the buffer size |
| TransactionStats.Statistics.Load | src/transaction_stats.rs:33-45 | with other threads counting between the nine loads, each field lies between its counter's values at start and end; the pass is logged |
| TransactionStats.DeltaLosesWraps | src/transaction_stats.rs:47-65 | adding a saturating difference keeps the sum exact as long as the count fits, and short from the first wrap on |
| TransactionStats.Statistics.Report | src/transaction_stats.rs:115-129 | each tick makes one pass of loads, no pass starts before the last one ended, and each report is the saturating difference of two consecutive passes; the reports add up to the last pass's exact count if and only if that is below 2^64, and never to more |
| Shield.HeaderLength | src/shield.rs:36-52 | the header decoder succeeds exactly when the slice from LEN is in range, consumes LEN bytes, and reads the fields at their offsets, for both layouts |
| Shield.IdentitiesRoundTrip | src/shield.rs:45-52 | header, any identities and an incomplete chunk parse back to exactly the identities |
| Shield.PolicyRoundTrip | src/shield.rs:105-128 | a Deny account of either layout reads back exactly the identities it was written with |
| Shield.ChunkPositions | src/shield.rs:47-50 | the number of chunks and the bytes of each |
| Shield.IdentitySlots | src/shield.rs:72-78 | an identity is parsed if and only if it stands in a complete slot; their number is (length minus LEN) divided by 32 |
| Shield.IdentitiesOfPolicy | src/shield.rs:105-147 | identities are returned exactly for a Deny policy of a known kind and sufficient length, and they are those that stand in its bytes |
| Shield.JoinMembers | src/shield.rs:92-101 | the joined addresses are the QUIC addresses of the listed nodes |
| Shield.RefreshMeaning | src/shield.rs:89-148 | a refresh succeeds if and only if it is good, and then yields exactly the addresses of nodes whose identity stands in the policy bytes |
| Shield.NodeIsBlocked | src/shield.rs:95-99 | with an injective text form a node's own address is blocked if and only if its own key is listed |
| Shield.LengthFieldIsIgnored | src/shield.rs:33-51 | the length field does not influence the result; it is right exactly when it equals the number of complete chunks |
| Shield.PanicCondition | src/shield.rs:105-112 | a refresh panics if and only if both requests were answered in time and the account is empty |
| Shield.RefreshErrors | src/shield.rs:89-139 | which failure a refresh reports, in the order of the checks |
| PipelineInvariant.CountersPrepare | src/broadcaster.rs:110-125 | a call moves the buffer counters with the buffer |
| PipelineInvariant.InvNext | src/broadcaster.rs:132-172 | every step of every thread keeps the invariant of the pipeline |
| PipelineInvariant.InvReachable | src/main.rs:224-249 | the invariant holds in every reachable state |
| DeliveryGuarantees.ProtectedAttemptsAvoidSnapshot | src/broadcaster.rs:138-151 | in every interleaving, a protected attempt avoids the snapshot of its call, which was current at a moment inside the call; a blocked address only ever gets the call's own payload |
| DeliveryGuarantees.StoredSetMeaning | src/broadcaster.rs:58-71 | every stored set is empty and initial, or exactly what the replies of its refresh deny |
| DeliveryGuarantees.RefreshStoresOrKeeps | src/broadcaster.rs:59-71 | a refresh stores a new set and enters the history if and only if it is good; errors, time-outs, Allow policies and unknown kinds keep the old one; only an empty account ends the refresher |
| DeliveryGuarantees.StoppedStoresNothing | src/broadcaster.rs:54-57 | once the refresher is cancelled the current set stays in every continuation |
| DeliveryGuarantees.RefreshesOfRun | src/broadcaster.rs:58-71 | the refresh history of a run is the list of its good replies, in order |
| DeliveryGuarantees.LatestRefreshDecides | src/broadcaster.rs:58-71 | after every run the blocked set is empty if no refresh was good, and otherwise exactly what the latest good one denies |
| DeliveryGuarantees.ProtectedAttemptsAvoidDenied | src/shield.rs:89-148 | from account bytes to attempts: protected attempts avoid every node the policy behind their snapshot denies |
| StaleSnapshots.StaleAttemptHappens | src/broadcaster.rs:138-151 | a reachable state whose next send tries a protected transaction at a leader that is in the current set at that moment |
| StaleSnapshots.StaleSendCondition | src/broadcaster.rs:138-151 | a send loop with a protected payload, run to its end among any other steps but stores, makes such a send if and only if the fan-out meets the set current at its start |
| StaleSnapshots.FreshSnapshotAvoidsCurrent | src/broadcaster.rs:138-142 | whenever the next send is such a send, a set has been stored since its call loaded the snapshot |
| StaleSnapshots.SnapshotIsTakenInside | src/broadcaster.rs:138-142 | in every run a call is blocked exactly if its fan-out meets a set that was current between its entry and its preparation |
| DeliveryGuarantees.FifoThroughPipeline | src/broadcaster.rs:100-122 | in every reachable state the accepted payloads of each class are the released, the held and those still ahead, in order |
| DeliveryGuarantees.OvertakingInPipeline | src/broadcaster.rs:100-122 | overtaking in the pipeline, in terms of flags, fan-outs and snapshots, as an equivalence |
| DeliveryGuarantees.ConservationThroughPipeline | src/tpu_next_client.rs:147-158 | accepted payloads are released, held or ahead, as multisets |
| DeliveryGuarantees.InExactlyOnePlace | src/tpu_next_client.rs:147-158 | each delivered payload is in exactly one place, any other in none |
| DeliveryGuarantees.AttemptedExactlyOnce | src/broadcaster.rs:148-171 | in every reachable state no payload is tried twice at a fan-out position; a released one is in the output of one call, which made all its attempts, and exactly one per position as soon as that call is complete, whatever later calls are doing |
| DeliveryGuarantees.EmptyFanOutLosesPayloads | src/broadcaster.rs:24-28 | in every reachable state a call has attempted something if and only if output and fan-out are non-empty and, while its own loop runs, a send is done; an empty fan-out is unblocked and empties the buffer |
| DeliveryGuarantees.LostPayloadIsReachable | src/broadcaster.rs:24-28 | a run in which a transaction a handler enqueued is released to an empty fan-out and never tried |
| DeliveryGuarantees.LostForGood | src/broadcaster.rs:148-151 | a payload released to an empty fan-out is tried in no continuation of the run |
| DeliveryGuarantees.SentBytesAreSubmittedBytes | src/broadcaster.rs:100-108 | whatever is sent is byte for byte what a handler enqueued, buffered according to that handler's flag |
| Accounting.RequestsAreAccountedFor | src/transaction_stats.rs:68-101 | received equals invalid plus enqueued plus dropped plus in flight, modulo 2^64 always and exactly below 2^64 requests |
| Accounting.EnqueuedCountsAccepted | src/tpu_next_client.rs:148-157 | the enqueued counter is the number of accepted payloads, short only of handlers between send and count |
| Accounting.EnqueuedAreSomewhere | src/transaction_stats.rs:95-97 | enqueued payloads are released, held or ahead, by number |
| Accounting.BufferIsAccountedFor | src/broadcaster.rs:110-125 | the buffer counters differ by the buffer length modulo 2^64 and the stored size is the length, in every reachable state |
| Accounting.UnblockedCallEmptiesBuffer | src/broadcaster.rs:115-122 | the buffer is empty after an unblocked call |
| Accounting.CountersCountTheirEvents | src/transaction_stats.rs:68-101 | each request counter, by name, is the number of handlers at or past the place that counts it, modulo 2^64 |
| Accounting.BufferCountersCountPayloads | src/broadcaster.rs:103-122 | buffered is the number of blocked calls with a protected payload, released that minus the buffer length, modulo 2^64 |
| FlushProgress.FlushTickLeavesMessage | src/tpu_next_client.rs:133-138 | a tick leaves the queue non-empty even when its own send is refused |
| FlushProgress.FlushedPayloadsLeave | src/tpu_next_client.rs:126-142 | after a tick and any further run, held payloads left with the first unblocked call, and everything accepted left as soon as the call for the last message then queued, or any later call, was unblocked |
| FlushProgress.ConsumerCanDrain | src/broadcaster.rs:115-122 | after a tick the consumer can empty the buffer by its own steps, wherever it stands, given an unblocked fan-out |
| ChannelLaws.SendIsRefused | src/tpu_next_client.rs:150-155 | a handler's send is refused exactly if the channel is closed or holds capacity messages, and appended otherwise as wire bytes plus flag byte |
| ChannelLaws.FlushIsRefused | src/tpu_next_client.rs:137-138 | a flush is refused exactly if the channel is closed or full, and appended otherwise |
| ChannelLaws.SendsFillTheQueue | src/tpu_next_client.rs:133-150 | while nothing is taken, n sends among any other steps fill an open queue to min(length + n, capacity) |
| ChannelLaws.ClosedAcceptsNothing | src/tpu_next_client.rs:150 | a closed channel accepts nothing in any continuation |
| BroadcasterRefinement.MapRun | src/broadcaster.rs:88-127 | holding and releasing does not depend on the payloads |
| BroadcasterRefinement.CallsStayInStep | src/broadcaster.rs:132-151 | one more call keeps the calls of object and machine in step, and its sends are the machine's |
| BroadcasterRefinement.CallIsMachineRun | src/broadcaster.rs:132-172 | whatever a call may do by its contract, with sets stored before and after its snapshot, the machine does by entering, loading, preparing, sending all and leaving |
| BroadcasterRefinement.SendToWorkersRefines | src/broadcaster.rs:132-172 | every execution of SendToWorkers from a matched state is a run of the machine's call steps with the refreshes in between, and ends with matching sets, calls, attempts, buffer bytes and buffer counters |
| RequestHandlers.TpuClientNextSender.TrySendTransaction | src/tpu_next_client.rs:150 | a non-blocking send: refused exactly if the channel is closed or already holds capacity messages |
| RequestHandlers.TpuClientNextSender.SendTransaction | src/tpu_next_client.rs:148-157 | enqueues and counts as enqueued if the channel is open with room, else drops and counts as dropped |
| RequestHandlers.TpuClientNextSender.SendConsecutively | src/tpu_next_client.rs:148-157 | n consecutive sends accept the first min(n, room) and count the rest as dropped |
| RequestHandlers.TpuClientNextSender.FlushTick | src/tpu_next_client.rs:133-138 | one tick of the flush task |
| RequestHandlers.HandleUniStream | src/quic_server.rs:160-198 | named counters and queue after a QUIC request, over the bytes read and what they decode to |
| RequestHandlers.SendTransaction | src/rpc_server.rs:37-80 | reply, named counters and queue after a JSON-RPC request, over the results of the library calls: each error exactly when its check is the first to fail, and otherwise the wire bytes are queued with the flag and the first signature answered |
| RequestHandlers.QuicPlay | src/quic_server.rs:177-195 | the QUIC program is a run of the machine's moves |
| RequestHandlers.RpcPlay | src/rpc_server.rs:43-79 | the JSON-RPC program is a run of the machine's moves |
| RequestHandlers.QuicInMachine | src/quic_server.rs:177-195 | the QUIC program run undisturbed in the machine has exactly the program's end, counters and queue |
| RequestHandlers.RpcInMachine | src/rpc_server.rs:43-79 | the same for the JSON-RPC program |
| RequestHandlers.QuicInterleaved | src/quic_server.rs:177-195 | in every interleaving with other threads a QUIC request ends like its program, has contributed to each counter what the program counts, and has its payload accepted once exactly if its send succeeded |
| RequestHandlers.RpcInterleaved | src/rpc_server.rs:43-79 | the same for a JSON-RPC request |
| SlotWatchdog.StallCondition | src/websocket_node_address_service.rs:152-161 | a wait ends as stalled if and only if nothing comes within the time-out |
| SlotWatchdog.WaitOutcome | src/websocket_node_address_service.rs:152-162 | exactly when a wait returns an item, the end of the stream or a cancellation, and at which time |
| SlotWatchdog.Subscription.NextNotification | src/websocket_node_address_service.rs:144-162 | one wait advances the stream by what it returned |
| SlotWatchdog.Subscription.Run | src/websocket_node_address_service.rs:100-123 | every run of the loop is a run of the timed machine, with the same exit, time and deliveries; a Start for each first shred sent, an End for each completion sent |
| SlotWatchdog.StallsInTime | src/websocket_node_address_service.rs:144-162 | a stalled end comes between 30 s and 30.1 s after the last notification |
| SlotWatchdog.StallBoundsAreExact | src/websocket_node_address_service.rs:113-121 | every silence from 30 s to 30.1 s is that of some stalled run |
| SlotWatchdog.SilenceStalls | src/websocket_node_address_service.rs:152-160 | any silence of 30.1 s after the last notification ends the next turn as stalled, whatever comes later, and a stalled end means 30 s without anything |
| SlotWatchdog.LivelyFeedNeverStalls | src/websocket_node_address_service.rs:100-111 | notifications at most 30 s apart, relevant or not, never stall, however slow the consumer |
| SlotWatchdog.EventsAreForwarded | src/websocket_node_address_service.rs:107-123 | delivered events are the offered ones in order, without exactly those whose send timed out and at most a last one on a closed channel |
| SlotWatchdog.SlotsAreForwarded | src/websocket_node_address_service.rs:164-170 | in every run the delivered starts are the slots of the first shreds sent, the ends those of the completions sent, in order, and other updates offer nothing |
| SlotWatchdog.ExitReasons | src/websocket_node_address_service.rs:113-123 | what each way of ending implies; a normal end only after cancellation |
| Pinning.StartHook.OnThreadStart | src/runtime.rs:53-57 | one start takes the next index and pins to its CPU |
| Pinning.StartHook.StartThreads | src/runtime.rs:50-57 | start i is pinned to the CPU at position i modulo the list length |
| Pinning.TicketsInOrder | src/runtime.rs:54 | in every interleaving the i-th draw is i modulo 2^64 |
| Pinning.PinsFollowDraws | src/runtime.rs:53-57 | the threads pinned to a position are its draws, short only of hooks between draw and pin |
| Pinning.PinningIsBalanced | src/runtime.rs:53-57 | up to 2^64 starts, position p is drawn n/k times, and once more if it is among the first n modulo k, and as many threads are pinned to it once all hooks completed |
| Pinning.BalancedForever | src/runtime.rs:53-57 | balanced for every number of starts if and only if the list length divides 2^64 |

## Left out

- QUIC, TLS and endpoint set-up, accept loops, HTTP middleware, admin RPC, command line, configuration, tracing and the Prometheus metrics: plumbing without a hard property.
- Internals of `solana_tpu_client_next` (workers, scheduler, leader estimation) are not part of this model. Assumed are one serial consumer that takes messages in FIFO order, arbitrary fan-outs and send outcomes, and sends that leave the worker cache alone.
- Send outcomes and the worker cache are in the broadcaster class, not in the state machine, where they would influence no later step.
- Memory ordering: atomic steps are sequentially consistent, and the clock is ideal. A notification that becomes available exactly at a deadline counts as received.
- The decoders of packets, transactions and encodings are arbitrary functions. The text form of a key is an arbitrary function, injective only where a lemma says so.
- PrepareCall is one step of the machine, as `prepare_transactions` runs under the buffer lock; the moments between its counter updates, which only the reporter could see, are not modelled. Lock poisoning is not modelled.
- Intervals: flush ticks and refreshes may come at any time, so progress is bounded in consumer calls, not in milliseconds.
- Shutdown of the channel: closing refuses further sends, but messages already queued stay queued; the loss of a queue that is dropped with its receiver is not modelled.
- Connection set-up and the unsubscribe and shutdown after the subscription loop, with their own errors, and the process abort on failure.
- SendToWorkersRefines: leaves out the request counters, which only other threads change.
- The send loop of `send_to_workers` is split over SendAll (outer loop), SendRow (inner loop) and SendOne (body).
- The sums of counters that the reporter prints, and the read of the buffer size beside them.
