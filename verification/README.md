# momoHDB: verified models of the feed, the queues and the kdb+ encoder

This project models five connected parts of momoHDB in Dafny and proves what
they keep over all inputs, runs and schedules.

1. **The ring queue and its overflow users.** `SPSCQueue` is a ring with a
   power-of-two number of slots, one of them always empty. `SpscQueue` is the
   class, proved against a bounded FIFO. `RingProtocol` is the same code cut at
   every atomic load and store and at the slot access, with a producer and a
   consumer interleaved in any way. `DropOldest` is the drop-oldest policy used
   by the feed's inbox, the dispatcher's downstreams and the Kafka client;
   `Dispatcher` is the fan-out of `Envelopes` over downstreams. `Bits` has both forms of
   `next_pow2` and the mask arithmetic.
2. **Subscription reconciliation.** `Subscription` and `SubscriptionTools` are
   the canonical state and the difference of two states. `SubscriptionServer`
   says what a sequence of requests does to the set of (security, subtype)
   streams the server has turned on. `SubscriptionManager` is the control loop,
   as a class proved against a function on its control state.
   `ReconciliationRuns` interleaves its cycles with lost sessions, reconnects
   and lost subscribes.
3. **The Kafka decode pipeline.** `KfkpbClient` is the client with its raw and
   event queues, `KfkpbPipeline` its threads (one consumer, any number of
   workers, the drain) as a transition system, `KfkpbProgress` says that it
   moves on, and `KfkpbWake` is the epoch that a worker waits on.
4. **The kdb+ encoder.** `QIpc` is the builder and the four serializers, proved
   to append exactly the bytes of `QCodec`, which also holds a parser of kdb+
   IPC messages that knows the format by its numbers. `QIpcRoundTrip` takes rows
   through columns and bytes back to rows, read by a receiver that addresses
   columns by name and counts timestamps from 2000 by the `Calendar`.
   `Decoders` builds the rows from decoded protobuf responses and connects the
   feed's splitting of a response with the decoding of its parts.
5. **JSON logging.** `JsonLogger` is the escaping and the record layout, with a
   reader after RFC 8259.

`Seqs` holds the vocabulary: order-preserving merges (`Merge(a, b, c)`: `c`
interleaves `a` and `b` and keeps the order of each), filters, and the FIFO.

Conventions. A C++ exception or `std::unexpected` is a result value. A
`size_t` or `uint64_t` is a natural number, and every operation that can wrap
says so. A double is its 64-bit pattern. Foreign code appears as a function
parameter: the protobuf runtime, the time parser, `std::hash`, the decoder
registry, the file system, the API's serial numbers and, where a constructor
can fail on it, the allocator. Unordered containers
are enumerated in an arbitrary order. Ghost parameters and results carry
history for the proofs and compute nothing.

Where the code does not always meet a property it seems meant for, the model
keeps the code, and the exact condition under which the property holds is
proved, with an input that breaks it:

- `ReconciliationRuns.StaleIff`, `StaleExample`: a file changed without a new
  modification time is not noticed.
- `ReconciliationRuns.UnforcedCycleConvergesIff`, `LostSubscribeExample`: a
  plain difference does not repair streams that were lost earlier.
- `Decoders.SplitCommutesIff`, `BadTimeExample`, `MissingRetTypeExample`: one
  unparseable time loses a whole response, and a response without a return type
  does not survive being split.
- `Decoders.KeyIsSymbolIff`, `EmptyCodeExample`: the feed's key and the
  decoder's symbol differ for a quote without a market or code.
- `KfkpbWake.ParkedWithMessagesIff`, `MessageLeftBehind`: a worker can sleep on
  a nonempty queue until the next push.
- `Bits.LoopTerminatesIff`, `EndlessLoopExample`, and `KfkpbClient.RingFor`,
  `HugeBoundExample`: sizes beyond 2^63.
- `Bits.InboxRoomIff`, `DefaultInboxExample`: the inbox holds one envelope less
  than its capacity when that is a power of two of at least two.
- `QCodec.MessageRoundTripIff`, `NulMessageExample`, and
  `QIpcRoundTrip.*RoundTripIff`, `NulSymbolExample`: exactly which batches the
  receiver gets back.
- `JsonLogger.RecordReadsBackIff`, `OpenFragmentExample`, `MismatchExample`, and
  `RecordIsOneLineIff`, `NewlineExample`: what callers of `raw` must promise.

## Model

| member | source | states |
|---|---|---|
| SpscQueue.NewQueue | momo_common/include/SPSCQueue.hpp:18-26 | construction succeeds exactly when the slots can be allocated and the capacity is a power of two of at least two, and tells the two failures apart; the new queue is empty and has room for all slots but one |
| SpscQueue.SPSCQueue.constructor | momo_common/include/SPSCQueue.hpp:18-26 | the ring built for an accepted capacity is empty and holds capacity - 1 elements |
| SpscQueue.SPSCQueue.TryPush | momo_common/include/SPSCQueue.hpp:31-55 | appends to the FIFO if it is not full, otherwise changes nothing and reports it |
| SpscQueue.SPSCQueue.TryPop | momo_common/include/SPSCQueue.hpp:57-66 | takes the oldest element, or reports an empty queue and changes nothing |
| SpscQueue.SPSCQueue.PopMany | momo_common/include/SPSCQueue.hpp:68-80 | appends the oldest elements in order, as many as there are up to the limit, and leaves the rest |
| Bits.CapacityOkIffPow2 | momo_common/include/SPSCQueue.hpp:23-25 | the constructor's mask test accepts exactly the powers of two of at least two |
| Bits.AndMaskIsMod | momo_common/include/SPSCQueue.hpp:19-21 | masking with 2^k - 1 is the remainder modulo 2^k, for every index |
| Bits.MaskedSuccessor | momo_common/include/SPSCQueue.hpp:33-34 | the masked next index is the cyclic successor in every accepted ring |
| RingProtocol.StepRefines | momo_common/include/SPSCQueue.hpp:31-66 | every single atomic step keeps the invariant and is a step of the bounded FIFO; success happens at the index store, failure only when the FIFO is full or empty at the load of the other index |
| RingProtocol.ProducerStepRefines | momo_common/include/SPSCQueue.hpp:31-55 | the same for each step of the producer, in any state of the consumer |
| RingProtocol.ConsumerStepRefines | momo_common/include/SPSCQueue.hpp:57-66 | the same for each step of the consumer, in any state of the producer |
| RingProtocol.Exec | momo_common/include/SPSCQueue.hpp:31-66 | every schedule can be run and every state it reaches satisfies the ring's invariant |
| RingProtocol.RingIsFifo | momo_common/include/SPSCQueue.hpp:31-66 | for every schedule the outcomes the two threads see are those of one atomic FIFO with capacity - 1 places whose contents are the ring's window |
| RingProtocol.PoppedIsPrefix | momo_common/include/SPSCQueue.hpp:31-66 | for every schedule the pushed values are the popped values followed by the window, at most capacity - 1 of them |
| RingProtocol.HistoryIsLabels | momo_common/include/SPSCQueue.hpp:31-66 | the history kept with the state is exactly what callers saw succeed |
| RingProtocol.NoRace | momo_common/include/SPSCQueue.hpp:36-38 | in every reachable state the queued elements lie in the slots counted from the tail, and the slot being written is none of them |
| RingProtocol.PushEnds | momo_common/include/SPSCQueue.hpp:31-55 | in every schedule a push ends: the producer's second move reports full exactly when the queue is full then, otherwise its fourth reports success and the queue gains the value, whatever the consumer does in between |
| RingProtocol.PopEnds | momo_common/include/SPSCQueue.hpp:57-66 | in every schedule a pop ends: the consumer's second move reports empty exactly when the queue is empty then, otherwise its fourth reports the oldest element, which leaves the queue |
| Bits.NextPow2Loop | momo_feed/src/futu_quote/SubscriptionManager.cpp:14-19 | the doubling loop returns the least power of two that is at least max(v, 2), for all v up to 2^63 |
| Bits.LoopTerminatesIff | momo_feed/src/futu_quote/SubscriptionManager.cpp:14-19 | on a 64-bit word the loop reaches its exit condition exactly when v is at most 2^63 |
| Bits.EndlessLoopExample | momo_feed/src/futu_quote/SubscriptionManager.cpp:14-19 | for 2^63 + 1 no iteration ever meets the exit condition |
| Bits.NextPow2Smear | momo_subpb/src/kfkpb_core.cpp:8-18 | bit smearing returns the least power of two that is at least max(v, 2) up to 2^63, and 0 beyond |
| Bits.SmearStep | momo_subpb/src/kfkpb_core.cpp:11-16 | or-ing with the value shifted right by s doubles s leading ones to 2s |
| Bits.NextPow2FormsAgree | momo_subpb/src/kfkpb_core.cpp:8-18 | both forms give the same size and the ring's constructor accepts it |
| Bits.QueueRoom | momo_subpb/src/kfkpb_core.cpp:86-87 | rounding up max + 1 leaves room for at least max elements, and less than doubles it |
| Bits.InboxRoomIff | momo_feed/src/futu_quote/SubscriptionManager.cpp:45-47 | the inbox holds its configured capacity exactly when that is not a power of two of at least two |
| Bits.DefaultInboxExample | momo_feed/include/futu_quote/SubscriptionManager.hpp:25 | the default capacity of 8192 makes a ring of 8192 slots, which holds 8191 |
| DropOldest.PushDropOldest | momo_feed/src/futu_quote/SubscriptionManager.cpp:441-449 | the value always gets in, behind what was queued; a full queue gives up exactly its oldest element, and the second push is never refused |
| DropOldest.PushAllKeepsNewest | momo_feed/src/futu_quote/SubscriptionManager.cpp:441-449 | with no consumer the queue holds exactly the last submissions that fit, whatever their number |
| DropOldest.PusherStepOk | momo_subpb/src/kfkpb_core.cpp:410-435 | each queue operation of the pushing thread keeps the account of submitted, delivered, dropped and queued, and is never refused a second time |
| DropOldest.ConsumerStepOk | momo_subpb/src/kfkpb_core.cpp:410-435 | so does each pop of the consumer, at any moment of a submission |
| DropOldest.NothingLost | momo_feed/src/runtime/Dispatcher.cpp:19-25 | in every interleaving, what was submitted is an order-preserving merge of delivered and dropped, then the queue, then the value in hand; no second push fails |
| DropOldest.DropsOnlyOnOverflow | momo_feed/src/runtime/Dispatcher.cpp:19-25 | as long as no more was submitted than fits, nothing is dropped |
| DropOldest.SubmissionAlone | momo_feed/src/runtime/Dispatcher.cpp:19-25 | an undisturbed submission drops exactly the oldest element of a full queue and nothing else |
| DropOldest.SubmissionEnds | momo_feed/src/runtime/Dispatcher.cpp:19-25 | with any consumer pops in between, a submission ends with its first queue operation or its third, with the value last in the queue and at most the element that was oldest at the second operation dropped |
| Dispatcher.QueuedDownstream.constructor | momo_feed/include/runtime/Dispatcher.hpp:34 | a downstream starts stopped, with an empty queue of its own that holds 8191 envelopes |
| Dispatcher.QueuedDownstream.Submit | momo_feed/src/runtime/Dispatcher.cpp:19-25 | the envelope is queued last; a full queue loses its oldest |
| Dispatcher.QueuedDownstream.Turn | momo_feed/src/runtime/Dispatcher.cpp:32-38 | a running worker hands the oldest envelope to its sink, or does nothing |
| Dispatcher.QueuedDownstream.DrainRemaining | momo_feed/src/runtime/Dispatcher.cpp:40-43 | after the stop everything still queued reaches the sink, in order |
| Dispatcher.Dispatch | momo_feed/src/runtime/Dispatcher.cpp:77-81 | every downstream gets the envelope and each queue changes as if it were the only one |
| Dispatcher.StopDeliversInFan | momo_feed/src/runtime/Dispatcher.cpp:10-44 | in every schedule in which a downstream has been stopped, every continuation that submits nothing more to it and gives its worker enough turns ends with its queue empty and its sink having received the submissions minus its own drops, in order, whatever all other threads do in between |
| Dispatcher.StopDelivers | momo_feed/src/runtime/Dispatcher.cpp:30-44 | the same for the turns of one worker, from any point of its loop |
| Dispatcher.EveryDownstreamGetsAll | momo_feed/src/runtime/Dispatcher.cpp:77-81 | in every schedule of the dispatching thread, all workers and stops, each downstream was given exactly the dispatched envelopes and accounts for all of them |
| Dispatcher.RunningDeliversInFan | momo_feed/src/runtime/Dispatcher.cpp:30-38 | in every schedule a running worker that gets 2k turns, with no stop and no submission to it, has handed over the k oldest elements of its queue, or all, in order, however the other threads move |
| Dispatcher.DispatchEnds | momo_feed/src/runtime/Dispatcher.cpp:77-81 | in every schedule the idle dispatching thread takes the envelope and, after at most three turns per downstream and one more, is idle again with nothing else dispatched meanwhile |
| Dispatcher.FewEnvelopesNoDrops | momo_feed/src/runtime/Dispatcher.cpp:19-25 | while no more than 8191 envelopes were dispatched no downstream has dropped any, in every schedule |
| Dispatcher.OthersDoNotInterfere | momo_feed/src/runtime/Dispatcher.cpp:30-44 | the state of a downstream is determined by the moves addressed to it alone, so a slow one changes nothing for the others |
| Dispatcher.FanExecOk | momo_feed/src/runtime/Dispatcher.cpp:77-81 | the account of every downstream holds in every reachable state, also in the middle of a dispatch |
| Subscription.SubsOfBit | momo_feed/include/futu_quote/Subscription.hpp:45-56 | the bit of a known subtype stands for that subtype alone, any other subtype for nothing |
| Subscription.SubtypeBits | momo_feed/include/futu_quote/Subscription.hpp:45-56 | the six bit values, and 0 for every other subtype |
| Subscription.SubsInjective | momo_feed/include/futu_quote/Subscription.hpp:40-56 | two masks below 64 with the same subtypes are equal |
| Subscription.Canonicalize | momo_feed/include/futu_quote/Subscription.hpp:61-72 | the two nested loops compute the canonical state |
| Subscription.CanonicalMeans | momo_feed/include/futu_quote/Subscription.hpp:58-72 | the canonical state has exactly the mentioned securities; each mask is below 64 and stands for exactly the known subtypes asked for in any of its entries |
| Subscription.CanonicalDecides | momo_feed/include/futu_quote/Subscription.hpp:58-72 | two configurations have the same canonical state exactly when they mention the same securities and ask the same subtypes for each |
| Subscription.CanonicalIgnoresOrder | momo_feed/include/futu_quote/Subscription.hpp:58-60 | reordering or repeating entries and subtypes changes nothing |
| Subscription.CanonicalIgnoresSplit | momo_feed/include/futu_quote/Subscription.hpp:58-60 | splitting the subtypes of a security over several entries changes nothing |
| Subscription.CanonicalPairs | momo_feed/include/futu_quote/Subscription.hpp:61-72 | the streams of the canonical state are exactly the streams the configuration asks for |
| Subscription.MaskToVec | momo_feed/include/futu_quote/Subscription.hpp:75-84 | lists each subtype of the mask once, lowest bit first; or-ing their bits gives back any mask below 64 |
| Subscription.StEqual | momo_feed/include/futu_quote/Subscription.hpp:86-94 | decides equality of states, in whatever order the map is enumerated |
| SubscriptionTools.DiffState | momo_feed/include/futu_quote/SubscriptionTools.hpp:21-44 | the four lists hold, once each and in any map order, the removed and added securities and the nonempty mask differences |
| SubscriptionTools.LostStreams | momo_feed/include/futu_quote/SubscriptionTools.hpp:24-35 | removed securities and deleted subtypes together are exactly the streams in the old and not in the new state, without overlap |
| SubscriptionServer.LossIsPartial | momo_feed/src/futu_quote/SubscriptionManager.cpp:384-434 | the assumption on the server: any part of a subscribe request may be lost, none of an unsubscribe request |
| SubscriptionServer.PlanHistory | momo_feed/src/futu_quote/SubscriptionManager.cpp:300-355 | while a plan is carried out the server first loses exactly the deleted streams and then gains only added ones, all of them if nothing is lost |
| SubscriptionServer.DiffContinuity | momo_feed/src/futu_quote/SubscriptionManager.cpp:320-355 | at every prefix of the requests kept streams stay on, only streams of either state show, and there are never more of them than the larger state has |
| SubscriptionServer.DiffMiddle | momo_feed/src/futu_quote/SubscriptionManager.cpp:322-338 | between the last unsubscribe and the first subscribe exactly the common streams are on |
| SubscriptionServer.DiffConvergesIff | momo_feed/src/futu_quote/SubscriptionManager.cpp:320-355 | with all subscribes accepted a difference ends at the pending streams exactly when no common stream was missing before |
| SubscriptionServer.FullResubscribeHistory | momo_feed/src/futu_quote/SubscriptionManager.cpp:300-319 | a full resubscribe empties the server whatever part of the current state it held, stays within the larger state and ends at the target |
| SubscriptionServer.DiffIsMinimal | momo_feed/src/futu_quote/SubscriptionManager.cpp:320-355 | a difference carries as many items as streams differ, and no request sequence to the same end carries fewer |
| SubscriptionServer.ItemsLowerBound | momo_feed/src/futu_quote/SubscriptionManager.cpp:357-382 | any requests carry at least as many items as the streams they toggle |
| SubscriptionManager.SubscriptionManager.OnConnected | momo_feed/src/futu_quote/SubscriptionManager.cpp:53-59 | a successful connection sets connected and asks for a resubscribe; a failed one clears connected and keeps an earlier request |
| SubscriptionManager.SubscriptionManager.LoadIfChanged | momo_feed/src/futu_quote/SubscriptionManager.cpp:240-278 | state and result after each of the stat, modification time, loader and equality branches |
| SubscriptionManager.SubscriptionManager.Call | momo_feed/src/futu_quote/SubscriptionManager.cpp:357-382 | sends one request with exactly the subtypes of the mask, once each; fails without a session or on serial number 0 |
| SubscriptionManager.SubscriptionManager.DoFullResubscribe | momo_feed/src/futu_quote/SubscriptionManager.cpp:300-319 | unsubscribes every current stream, if there is a current state, then subscribes every stream of the target, each once |
| SubscriptionManager.SubscriptionManager.ExecuteDiff | momo_feed/src/futu_quote/SubscriptionManager.cpp:320-355 | for every map order: unsubscribes exactly the streams to delete, then subscribes exactly those to add, each once |
| SubscriptionManager.SubscriptionManager.ApplyPending | momo_feed/src/futu_quote/SubscriptionManager.cpp:280-298 | the pending state becomes current and none is left pending; full resubscribe when forced or without a current state, difference otherwise |
| SubscriptionManager.SubscriptionManager.ControlCycle | momo_feed/src/futu_quote/SubscriptionManager.cpp:174-211 | one control cycle does exactly what the cycle function says to the state and sends exactly its plan; nothing without a session |
| ReconciliationRuns.ServerWithinCurrent | momo_feed/src/futu_quote/SubscriptionManager.cpp:174-211 | after every run with lost sessions, failed loads and lost subscribes the server has only streams of the current state, and nothing stays pending |
| ReconciliationRuns.InvStep | momo_feed/src/futu_quote/SubscriptionManager.cpp:174-211 | every event keeps that |
| ReconciliationRuns.ForcedCycleAppliesIff | momo_feed/src/futu_quote/SubscriptionManager.cpp:191-210 | a forced cycle applies a state exactly when there is a current one or the file loads, and only then the request to resubscribe is cleared |
| ReconciliationRuns.ForcedCycleRecovers | momo_feed/src/futu_quote/SubscriptionManager.cpp:280-319 | whatever was lost before, a forced cycle that applies a state with all subscribes accepted makes the server equal to it |
| ReconciliationRuns.UnforcedCycleConvergesIff | momo_feed/src/futu_quote/SubscriptionManager.cpp:280-298 | an unforced one does so exactly when no stream kept by the change was missing |
| ReconciliationRuns.LostSubscribeExample | momo_feed/src/futu_quote/SubscriptionManager.cpp:280-298 | a run in which it does not: the first subscribe is lost, and a later cycle with everything accepted leaves that stream missing |
| ReconciliationRuns.ReconnectConverges | momo_feed/src/futu_quote/SubscriptionManager.cpp:53-59 | after a connection, whatever was lost before and is lost until then, the first control cycle, with a readable file and all subscribes accepted, leaves the server with exactly the streams the file asks for |
| ReconciliationRuns.ConnectionForces | momo_feed/src/futu_quote/SubscriptionManager.cpp:53-59 | a connection keeps the manager connected and asked to resubscribe until the next control cycle or failed connection |
| ReconciliationRuns.AskedFor | momo_feed/include/futu_quote/SubscriptionManager.hpp:48 | a connection, or a request while connected, asks for a full resubscribe and touches nothing on the server |
| ReconciliationRuns.FailedConnection | momo_feed/src/futu_quote/SubscriptionManager.cpp:53-59 | a failed connection stops the control cycles |
| ReconciliationRuns.LostSessionExample | momo_feed/src/futu_quote/SubscriptionManager.cpp:174-211 | a run in which the server has everything and then loses it |
| ReconciliationRuns.CurrentIsLastLoaded | momo_feed/src/futu_quote/SubscriptionManager.cpp:240-278 | if contents go with modification times, the current state is always the canonical state of the file of that time |
| ReconciliationRuns.ShortcutsRefineReload | momo_feed/src/futu_quote/SubscriptionManager.cpp:174-271 | under the same condition, every turn that is connected and forced or polling leaves the state that reloading and applying on every poll would give |
| ReconciliationRuns.DueSendsPlan | momo_feed/src/futu_quote/SubscriptionManager.cpp:180-201 | such a turn that finds a new modification time makes the file's state current and sends the full plan if forced or new, nothing if the state is unchanged, and the difference otherwise |
| ReconciliationRuns.NotDueDoesNothing | momo_feed/src/futu_quote/SubscriptionManager.cpp:180 | a turn that is not connected, or neither forced nor polling, changes nothing and sends nothing |
| ReconciliationRuns.LoadFailsIff | momo_feed/src/futu_quote/SubscriptionManager.cpp:240-258 | a load fails exactly without a loader, without a readable time, or when a file that must be read cannot be loaded, and then changes nothing |
| ReconciliationRuns.StaleIff | momo_feed/src/futu_quote/SubscriptionManager.cpp:250 | without it, a turn that is connected and forced or polling leaves a stale state exactly when the time is unchanged and the contents are not |
| ReconciliationRuns.StaleExample | momo_feed/src/futu_quote/SubscriptionManager.cpp:250 | a run in which that happens |
| ReconciliationRuns.LoadErrorKeeps | momo_feed/src/futu_quote/SubscriptionManager.cpp:185-189 | a failed load advances neither the recorded time nor the current state |
| Decoders.MarketPrefixMeans | momo_subpb/include/parse_helpers.hpp:8-27 | a market name between prefix and suffix is reduced to the part between them; every other name is kept, except the one where prefix and suffix overlap |
| Decoders.KeyIsSymbolIff | momo_feed/src/futu_quote/SubscriptionManager.cpp:41-43 | the feed's key equals the decoder's symbol exactly when the quote has a market and a nonempty code |
| Decoders.EmptyCodeExample | momo_feed/src/futu_quote/SubscriptionManager.cpp:41-43 | they differ for a quote with an empty code, whatever its market is called |
| Decoders.OnPushBasicQot | momo_feed/src/futu_quote/SubscriptionManager.cpp:68-95 | the envelopes of the items in order, skipping those that do not serialize |
| Decoders.OneEnvelopePerItem | momo_feed/src/futu_quote/SubscriptionManager.cpp:74-94 | with a faithful protobuf there is one envelope per item in order, on the topic futu.basicqot.pb, stamped with the clock and carrying that item alone; its key is the symbol of the decoded row exactly for a fully specified security |
| Decoders.DecodeBasicQuote | momo_subpb/src/decoders.cpp:17-91 | each error branch, the exception of the time parser, and otherwise the table of one row per item in order |
| Decoders.EnvelopeRowsAreGood | momo_subpb/src/decoders.cpp:48-90 | the rows received from the envelopes one after the other are the rows of the items whose time parses, or none if the envelopes carry an error as their return type |
| Decoders.SplitCommutesIff | momo_subpb/src/decoders.cpp:36-90 | for every response that reports success, decoding it whole gives the same rows exactly when every time parses or none does; without a return type under an error default, exactly when some time does not parse |
| Decoders.BadTimeExample | momo_subpb/src/decoders.cpp:60-82 | a response with one good and one bad time: one row from its envelopes, none from the whole |
| Decoders.MissingRetTypeExample | momo_feed/src/futu_quote/SubscriptionManager.cpp:78-79 | a response without a return type: no row from its envelopes, one from the whole |
| Decoders.QuotesRecovered | momo_subpb/src/decoders.cpp:60-81 | end to end, the receiver recovers every quote of a response whose times parse, in order and field by field, absent fields as zero |
| Decoders.RowIsFaithful | momo_subpb/src/decoders.cpp:60-79 | a row shows every field of its quote, or zero if it is absent, and is missing exactly for a time that does not parse |
| Decoders.OutcomeIff | momo_subpb/src/decoders.cpp:27-90 | exactly which responses fail to parse, report an error (with its codes), lack their payload, have no items, or make the time parser throw |
| Decoders.DecodeOrderBook | momo_subpb/src/decoders.cpp:93-182 | each error branch, and otherwise one table with both ladders, levels counted from 0 on each side |
| Decoders.AppendLadder | momo_subpb/src/decoders.cpp:138-153 | appends one row per level with its rank, in order |
| Decoders.LevelsRecovered | momo_subpb/src/decoders.cpp:137-169 | a row shows its level's fields, or zero where absent, its rank, side, symbol and time |
| Decoders.BookOutcomeIff | momo_subpb/src/decoders.cpp:103-133 | exactly which order-book responses have which error, and that none throws |
| Decoders.LaddersRecovered | momo_subpb/src/decoders.cpp:134-169 | the receiver that selects a side of the received table gets that side's levels back in order |
| QIpc.Builder.PutU32Le | momo_schema/include/qcodec.hpp:14-19 | appends the four little-endian bytes of the value |
| QIpc.Builder.PutU64Le | momo_schema/include/qcodec.hpp:21-23 | appends the eight little-endian bytes of the value |
| QIpc.Builder.PutI64Le | momo_schema/include/qcodec.hpp:29-31 | appends the two's complement bytes of a signed value |
| QIpc.Builder.PutCstr | momo_schema/include/qcodec.hpp:40-43 | appends the bytes of the string and a zero byte |
| QIpc.Builder.EmitSymList | momo_schema/include/qcodec.hpp:81-84 | appends a symbol column, its count truncated to 32 bits |
| QIpc.Builder.BeginTable | momo_schema/src/qipc.cpp:43-48 | appends the table head with the column names and the number of columns |
| QIpc.Builder.FinishIpc | momo_schema/include/qcodec.hpp:94-109 | fills the reserved header with the little-endian total length modulo 2^32 and hands the buffer over |
| QIpc.EmitSymCol | momo_schema/src/qipc.cpp:12-16 | appends exactly one symbol column with the rows' values in order |
| QIpc.EmitTsCol | momo_schema/src/qipc.cpp:18-22 | appends exactly one timestamp column, shifted by the constant that EpochIsZero ties to the calendar |
| QIpcRoundTrip.EpochIsZero | momo_schema/include/qcodec.hpp:56-63 | the first instant of 2000, counted from 1970 by the leap-year rule, is written as timestamp 0 |
| Calendar.KdbEpochSeconds | momo_schema/include/qcodec.hpp:59 | the 30 years from 1970 to 2000 have 946684800 seconds |
| QIpc.EmitF64Col | momo_schema/src/qipc.cpp:24-28 | appends exactly one float column of bit patterns |
| QIpc.EmitI64Col | momo_schema/src/qipc.cpp:30-34 | appends exactly one long column |
| QIpc.EmitI32Col | momo_schema/src/qipc.cpp:36-40 | appends exactly one int column |
| QIpc.SerializeBasicQuote | momo_schema/src/qipc.cpp:51-84 | the bytes of the framed 13-column table of the rows |
| QIpc.SerializeOrderBook | momo_schema/src/qipc.cpp:87-111 | the bytes of the framed 7-column table of the rows |
| QIpc.SerializeTicker | momo_schema/src/qipc.cpp:114-139 | the bytes of the framed 8-column table of the rows |
| QIpc.SerializeKL1Min | momo_schema/src/qipc.cpp:142-176 | the bytes of the framed 14-column table of the rows |
| QCodec.LeRoundTrip | momo_schema/include/qcodec.hpp:14-23 | reading n little-endian bytes gives the value back, for every value below 256^n |
| QCodec.ColumnRoundTrip | momo_schema/src/qipc.cpp:12-40 | a parsed column is the emitted one and the bytes behind it are untouched |
| QCodec.TableRoundTripIff | momo_schema/src/qipc.cpp:43-48 | a table is parsed back from its bytes, whatever follows, exactly when its symbols are NUL-free bytes and its numbers and counts fit |
| QCodec.MessageRoundTripIff | momo_schema/include/qcodec.hpp:86-111 | a framed message is parsed back exactly when moreover it is shorter than 2^32 bytes |
| QCodec.NulMessageExample | momo_schema/include/qcodec.hpp:40-43 | a table that is not parsed back |
| QCodec.MessageRoundTrip | momo_schema/include/qcodec.hpp:94-105 | and then header bytes 4 to 7 hold its length |
| QCodec.MessageLength | momo_schema/include/qcodec.hpp:101 | that length in closed form, from names and columns |
| QCodec.UniquelyDecodable | momo_schema/include/qcodec.hpp:86-111 | if two messages start a common byte stream they are the same table with the same rest |
| QCodec.ParsedTableOk | momo_schema/src/qipc.cpp:43-48 | whatever bytes are parsed, a parsed table is one that can be sent |
| QIpcRoundTrip.BasicQuoteRoundTripIff | momo_schema/src/qipc.cpp:51-84 | all columns have one entry per row, and the fields read from the columns of their names are the rows; the receiver gets them exactly when all rows are representable, fewer than 2^32, in a message shorter than 2^32 bytes |
| QIpcRoundTrip.NulSymbolExample | momo_schema/include/qcodec.hpp:40-43 | a quote whose symbol contains a NUL byte is not received |
| QIpcRoundTrip.OrderBookRoundTripIff | momo_schema/src/qipc.cpp:87-111 | the same for order books |
| QIpcRoundTrip.TickerRoundTripIff | momo_schema/src/qipc.cpp:114-139 | the same for tickers |
| QIpcRoundTrip.KL1MinRoundTripIff | momo_schema/src/qipc.cpp:142-176 | the same for one-minute bars |
| QIpcRoundTrip.BasicQuoteTranspose | momo_schema/src/qipc.cpp:52-81 | a receiver that looks each field up in the column of its name reads the rows back, in order |
| QIpcRoundTrip.OrderBookTranspose | momo_schema/src/qipc.cpp:88-108 | the same for order books |
| QIpcRoundTrip.TickerTranspose | momo_schema/src/qipc.cpp:115-136 | the same for tickers |
| QIpcRoundTrip.KL1MinTranspose | momo_schema/src/qipc.cpp:143-173 | the same for one-minute bars |
| KfkpbClient.NewClient | momo_subpb/src/kfkpb_core.cpp:83-106 | construction succeeds exactly when every ring is allocated and passes the size test; each queue then holds at least its bound if and only if that is below 2^63 |
| KfkpbClient.RingFor | momo_subpb/src/kfkpb_core.cpp:86-87 | the size test rejects exactly the bounds from 2^63 up to but not including the largest word; an accepted ring holds its bound exactly when that is below 2^63 |
| KfkpbClient.HugeBoundExample | momo_subpb/src/kfkpb_core.cpp:86-87 | no ring for 2^63 passes the size test, and the ring of the largest word holds one element |
| KfkpbClient.EventReports | momo_subpb/src/kfkpb_core.cpp:320-389 | the event for a message has its topic, key and time, carries the decoder's bytes or an error text, and is data exactly when the message is no error, its topic is mapped and the decoder succeeds |
| KfkpbClient.EventErrors | momo_subpb/src/kfkpb_core.cpp:320-389 | the message type of every event and the text of every error |
| KfkpbClient.KfkpbClient.WorkerIndexFor | momo_subpb/src/kfkpb_core.cpp:437-443 | by hash for a keyed message, else round-robin with a wrapping counter |
| KfkpbClient.KfkpbClient.PushRaw | momo_subpb/src/kfkpb_core.cpp:410-423 | the message enters its worker's queue, a full one losing its oldest; that worker's epoch and no other is bumped |
| KfkpbClient.KfkpbClient.PushEvent | momo_subpb/src/kfkpb_core.cpp:425-435 | the event enters that worker's event queue, a full one losing its oldest |
| KfkpbClient.KfkpbClient.DecodeTurn | momo_subpb/src/kfkpb_core.cpp:315-391 | one message leaves the raw queue and exactly one event that reports it is pushed |
| KfkpbClient.KfkpbClient.DrainTo | momo_subpb/src/kfkpb_core.cpp:148-173 | every event queue is emptied and appended, whole queues in rotated order from the counter; the fallback loop adds nothing |
| KfkpbClient.KfkpbClient.DrainFrom | momo_subpb/src/kfkpb_core.cpp:155-163 | the first loop visits each queue once and takes all of it |
| KfkpbClient.KfkpbClient.TakeFirst | momo_subpb/src/kfkpb_core.cpp:165-172 | the fallback takes one event of the first nonempty queue in rotated order, or nothing if all are empty |
| KfkpbClient.RotatedAt | momo_subpb/src/kfkpb_core.cpp:157 | (start + i) modulo the number of queues enumerates the rotation |
| KfkpbClient.NextRotates | momo_subpb/src/kfkpb_core.cpp:151-152 | the counters advance cyclically by one queue per call, except when they wrap at 2^64 |
| KfkpbPipeline.PerKeyOrder | momo_subpb/src/kfkpb_core.cpp:315-443 | for every schedule and nonempty key the drained events report, in order, a subsequence of the messages consumed with that key; without drops, and so while the key's worker was sent no more messages than its queues hold, drained, undrained and waiting together are exactly those messages |
| KfkpbPipeline.FewMessagesNoDrops | momo_subpb/src/kfkpb_core.cpp:410-435 | in every schedule a worker that was sent no more messages than its queues hold has dropped none and no event |
| KfkpbPipeline.Conservation | momo_subpb/src/kfkpb_core.cpp:315-435 | per worker and in every reachable state, consumed equals drained plus queued plus in flight plus dropped, and each message taken gave exactly one event |
| KfkpbProgress.EverythingIsDrained | momo_subpb/src/kfkpb_core.cpp:315-391 | from every reachable state with an idle consumer, enough turns of a worker and then enough pops of its event queue leave nothing of it waiting or undrained, wherever other moves fall |
| KfkpbProgress.KeyArrives | momo_subpb/src/kfkpb_core.cpp:315-443 | and while its worker was sent no more than its queues hold, the drained events of a key then report exactly the messages consumed with it, one each and in order |
| KfkpbProgress.ConsumerFinishes | momo_subpb/src/kfkpb_core.cpp:410-423 | an idle consumer takes a message, routed by key or in turn, and is idle again within two more of its turns, wherever they fall |
| KfkpbProgress.KeylessInTurn | momo_subpb/src/kfkpb_core.cpp:437-443 | in every schedule the i-th message without a key goes to worker i modulo the number of workers |
| KfkpbPipeline.DrainedFrom | momo_subpb/src/kfkpb_core.cpp:437-443 | a drained keyed event comes from the worker that its key hashes to |
| KfkpbPipeline.LaneHistory | momo_subpb/src/kfkpb_core.cpp:315-435 | the messages of one worker split, in order, into those reported, those waiting and those lost |
| KfkpbPipeline.StepOk | momo_subpb/src/kfkpb_core.cpp:315-443 | every step of consumer, workers and drain keeps the invariant |
| KfkpbWake.ExecInv | momo_subpb/src/kfkpb_core.cpp:398-423 | the invariant of queue, epoch and waiting worker holds in every schedule |
| KfkpbWake.ParkedMessages | momo_subpb/src/kfkpb_core.cpp:398-423 | a message queued while the worker is parked on the current epoch entered after its last empty pop, and was bumped before its epoch load or belongs to a push that has not bumped yet |
| KfkpbWake.ParkedWithMessagesIff | momo_subpb/src/kfkpb_core.cpp:402-406 | a parked worker has messages left behind exactly when a push bumped between its empty pop and its epoch load |
| KfkpbWake.MessageLeftBehind | momo_subpb/src/kfkpb_core.cpp:402-406 | a schedule in which that happens |
| KfkpbWake.NextPushReleases | momo_subpb/src/kfkpb_core.cpp:398-423 | in every continuation the worker leaves its wait exactly once a whole later push has run, which five producer steps always contain; the epoch then differs, the worker's next steps take a message, and if it waits again it has seen the queue empty of all it was parked on |
| KfkpbWake.TakesInOrder | momo_subpb/src/kfkpb_core.cpp:398-408 | a worker that is awake takes the queued messages in order, and gets ready to wait only when none is left |
| KfkpbWake.FiveStepsPush | momo_subpb/src/kfkpb_core.cpp:410-423 | five steps of the producer contain a whole push with its notification, however the worker's steps fall between them |
| JsonLogger.MemoryBuffer.AppendJsonEscaped | momo_common/include/JsonLogger.hpp:95-114 | appends the escaped string |
| JsonLogger.QuotedReads | momo_common/include/JsonLogger.hpp:95-114 | a reader after section 7 of RFC 8259 gets every string back from its literal and stops exactly at the closing quote |
| JsonLogger.EscapedHasNoControl | momo_common/include/JsonLogger.hpp:106-108 | no control byte survives escaping |
| JsonLogger.MemoryBuffer.AppendKvString | momo_common/include/JsonLogger.hpp:122-128 | appends a member with an escaped key and value |
| JsonLogger.MemoryBuffer.AppendKvRaw | momo_common/include/JsonLogger.hpp:130-136 | appends a member with an escaped key and the fragment as it is |
| JsonLogger.Logger.Log | momo_common/include/JsonLogger.hpp:215-262 | hands on exactly one record with the time, level, component, event and fields, and none before `init` or if the threshold does not let its level pass |
| JsonLogger.RecordReadsBackIff | momo_common/include/JsonLogger.hpp:229-261 | a reader finds exactly what was logged, in order and nothing else, if and only if every raw fragment is self-contained: quotes closed, brackets matched, no separator outside them |
| JsonLogger.HeadMembersAre | momo_common/include/JsonLogger.hpp:232-246 | the first four members by key and value, with the four level names |
| JsonLogger.FieldMembersAre | momo_common/include/JsonLogger.hpp:248-256 | the further members are the fields in order, strings quoted and fragments as they are |
| JsonLogger.OpenFragmentExample | momo_common/include/JsonLogger.hpp:130-136 | the fragment `1,2` spoils a record |
| JsonLogger.MismatchExample | momo_common/include/JsonLogger.hpp:130-136 | so does a fragment that closes a bracket of the other kind |
| JsonLogger.RecordDetermines | momo_common/include/JsonLogger.hpp:229-261 | with string fields only, equal lines come from equal entries |
| JsonLogger.RecordIsOneLineIff | momo_common/include/JsonLogger.hpp:258-261 | a record has no control byte exactly when its raw fragments have none |
| JsonLogger.NewlineExample | momo_common/include/JsonLogger.hpp:130-136 | a newline in a fragment breaks the line |
| JsonLogger.DecimalReads | momo_common/include/JsonLogger.hpp:233 | the time is read back from its decimal form |

## Left out

- RingProtocol.RingIsFifo: steps are sequentially consistent; the weaker effects of acquire and release, and cache-line placement, are not modelled.
- DropOldest.NothingLost: each `try_push` and `try_pop` is one atomic step, because here the producer also pops and the ring's single-consumer argument does not cover that; the block policy's retry loop is pure single-producer single-consumer use and is covered by RingProtocol.
- ReconciliationRuns.ServerWithinCurrent: a reconnect does not fall inside a control cycle (a lost session may); unsubscribe requests that are sent take effect; the file's time and contents are one observation per cycle.
- SubscriptionManager.SubscriptionManager.ControlCycle: the file poll timer is a parameter, and the data half of `run` (moving the inbox to the sink, and what is left in the inbox at shutdown) is not part of it.
- KfkpbClient.KfkpbClient.PushRaw: the queues of the client are the bounded FIFOs that the ring implements, as sequences in its fields, not ring objects; the caller must have at least one worker, as indexing an empty vector is undefined in the source.
- KfkpbWake.NextPushReleases: the epoch is an unbounded number; wrapping after 2^64 pushes during one wait is not modelled.
- KfkpbWake.ParkedWithMessagesIff: freedom from lost wake-ups is false of the code, so only its exact condition is stated; the stop flag and termination of the destructor are not modelled.
- KfkpbClient.EventReports: error texts are not cut to 96 bytes, and the wake-up socket is not modelled.
- Decoders.DecodeBasicQuote: protobuf messages are records and parsing a parameter; time parsing is an arbitrary partial function; the texts of error messages are kept as structured values.
- Decoders.DecodeOrderBook: takes the parsed response; its warnings for a missing side never leave the function and are dropped.
- QIpc.SerializeBasicQuote: the serializers' always-true results and `reserve` calls are not modelled, and a timestamp is the integer number of nanoseconds its clock value converts to.
- KfkpbClient.NewClient: allocation is asked for the ring buffers only; the smaller allocations of the constructor and the start of the threads are taken to succeed.
- JsonLogger.RecordReadsBackIff: self-contained is a lexical notion, which does not check that a fragment is a JSON value inside its quotes and brackets; the reader accepts the compact form only and refuses surrogate escapes, neither of which the logger writes otherwise; several `num` fields in one call share a scratch string in the source, so raw fragments are taken as fixed strings.
- The ticker and K-line decoders: row filling like the two decoders shown; the K-line decoder's `amount` column receives the volume (momo_subpb/src/decoders.cpp:317).
- Subscribing with a time seek in the Kafka consumer loop, and librdkafka.
- The Futu session and its reply handling beyond connect results, and the push handlers that forward one message unsplit.
- Sockets, spdlog, YAML and configuration loading, kdb+ `K` objects and the q scripts.
- Floating-point arithmetic, `mktime` and locales.
