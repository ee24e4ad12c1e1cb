# Verified model of the VHTTP transport

VHTTP carries HTTP bodies over Veilid messages that may be lost, repeated or reordered. This project models the parts
that make that safe, and proves what they promise together:

- the reliable stream pair: a sliding-window sender and a reordering receiver for one direction of one stream, and the
  network between them (`Sender`, `Receiver`, `Protocol` and the modules above them);
- the frames they exchange and the bundles frames travel in (`Wire`, `Stream`, `Bundling`);
- the flow-control credits between the Electron client and its native sidecar (`Credits` and the modules named after it), and the
  local framing that carries them (`Ipc`, `IpcChunks`);
- the bridge's completion store, which keeps a request from being executed twice, and the atomic calls that share it
  (`Completion`, `CompletionRuns`, `Retention`, `AtomicCalls`).

Every object the source updates in place is a class here (`Sender.OutboundBody`, `Receiver.InboundBody`,
`Core.ReceiveWindow`, `Core.Reassembler`, `Core.FrameBatcher`, `Stream.StreamEncoder`, `Stream.StreamDecoder`,
`Completion.CompletionStore`, `Credits.StreamPending`, `Credits.Connection`, `Ipc.FrameReceiver`). Each method is proved
equal to a function on the object's state, failed calls included; the properties are then proved about those functions,
over all states, all runs and all schedules.

## How a run is described

`Protocol.World` joins one sender, one receiver and everything ever sent between them. An action is one call: a push, a
finish, a window change, a dispatch, the delivery of any frame ever sent, an acknowledgement emitted or any
acknowledgement ever sent processed. Delivering any subset any number of times in any order is loss, duplication and
reordering. Five fields are history only: what was pushed, what was delivered, and whether a call dropped encoded bytes
(`lost`), a decoder failed (`broken`), or any receive failed (`clean` is then false).

`Protocol.Step` is one call of the source, whatever happened before it, and a `Protocol.IsFreeRun` a sequence of worlds
each one such step after the one before. The source lets a caller push on after a call that dropped bytes, and receive
on after its decoder failed; `Protocol.GoesOn` says of an action that it does either. Both break the delivery guarantee
(`Scenarios.GoingOnSkipsBytes`, `Edges.ContinuingSkipsBytes`), so the guarantee is stated on free runs up to the first
such action, and a `Protocol.IsRun` is a run on which such actions have no effect. `Heeding.HeedfulIff` says which runs
these are by what a caller can compute before each call: nothing is pushed or finished after a call for which the budget
had no room (`Loss.Exceeds`), and nothing is received after a frame that made more of the stream contiguous than the
output bound allows (`Heeding.ExceedsBound`). `Budget.NeverOverBudget` and `Edges.AmpleBoundNeverBreaks` give
conditions under which the first and the second never happen.

By `Protocol.EveryScheduleRuns` every sequence of actions has a run of both kinds, and the theorems hold at every point of
every run. Products that would slow the verifier down are written `Prelude.Times`, proved to be the product.

`Credits.Pair` joins Electron's stream entry, two first-in-first-out channels and the sidecar's tasks for one request;
an event is one step of one of them, and `Credits.IsPlay` a run of them. `CompletionRuns.Trace` is a sequence of store
states, each a call or a reopening away from the one before.

Assumptions, all stated as preconditions: a body codec's output only grows and decoding all of it gives all of the input
(`Stream.Lawful`, proved for the uncompressed mode); MessagePack reads back what it wrote (`Wire.Faithful` and
`Stream.Honest`). BLAKE3 is an arbitrary function. `Codecs.SomeContextIsRoomy` writes out a codec that meets all of them
at once.

## Results that qualify the documentation

- `abandon` is documented for executions known not to have reached the upstream, but the atomic path abandons on any
  forwarding error and records the error afterwards (`apps/veilid-http-bridge/src/main.rs:373-395`), so a duplicate that
  was waiting forwards again, and the two calls get different answers: `AtomicCalls.FailedForwardAnswersTwice`.
  Abandoning also forgets a completed entry, while its file stays and is loaded again: `Retention.AbandonedComesBack`.
- The adapters acknowledge only on completion, on a gap, or for every fourth sequence. Once the receiver has everything in
  flight without a gap, retransmissions bring an acknowledgement exactly for sequences that are 3 modulo 4
  (`Edges.RetriesGoUnanswered`), so a sender with a full window and none of those in flight waits for ever:
  `Stall.StallsForEver`. `Stall.AdaptersStall` is a run of six steps that ends there.
- At the last sequence number a waiting item is dropped with an error, after which the sender can report completion
  without its end record: `Delivery.ExhaustionDropsTheEnd`. Completion means delivery for all streams that stay below
  it.
- The receive window's saturating cursor forgets the top sequence number: `Core.TopSequenceIsForgotten`. Senders never use
  it.
- A sender that is not backpressured can exceed its byte budget. Under any codec, window and budget, a push does so
  exactly when what is buffered, what the push queues and the most that launching what then waits adds are together over
  the budget (`Overrun.PushOverIff`), and so does a finish (`Overrun.FinishOverIff`). `Budget.FlushedPushCanFail` and
  `Budget.ReserveIsExact` are these conditions in the sizes of a one-frame sender, and `Parts.PartsOverIff` the
  condition for the adapters, which push a whole chunk in parts after one look at the backpressure; `Parts.RoomForParts`
  says how much is safe.
- A push that meets the pending limit while queueing has already taken its input, and drops it; the source returns the
  error and keeps accepting pushes, so a caller that carries on sends a stream with a hole:
  `Scenarios.GoingOnSkipsBytes` is such a run. Bytes are dropped exactly when the budget has no room for what the call
  queues: `Loss.PushDropsIff`, `Loss.FinishDropsIff`, and on whole runs `Heeding.LostIff`. Even then the receiver does
  not take the stream for complete unless its length and digest are those of what was pushed:
  `Careless.CompletionIsVerified`.
- A decoder that has failed on the output bound stays in place, and feeding it on delivers later bytes as if they were the
  missing ones: `Edges.ContinuingSkipsBytes`. It fails exactly when more of the stream has become contiguous than the
  bound allows: `Edges.BreaksExactlyAtTheBound`, and on whole runs `Heeding.BrokenIff`.

## Model

| member | source | states |
|---|---|---|
| Protocol.DeliveredPrefixOfPushed | crates/veilid-http-engine/src/incoming.rs:69-157 | On every run of the source with any loss, repetition and reordering, until the caller pushes on after dropped bytes or receives on after a decoder failure: the delivered bytes are a prefix of the pushed ones, and a completed receiver has delivered exactly all of them after the sender's input was finished. |
| Heeding.PrefixWhenStoppingInTime | crates/veilid-http-engine/src/incoming.rs:69-157 | The same for every caller that stops in time, by conditions on the state and the arguments before each call. |
| Careless.OutputIsNumbered | crates/veilid-http-engine/src/incoming.rs:69-137 | On every run of the source, with callers that carry on after drops, until a decoder fails: the output is what a first part of the numbered items decodes to, all that is contiguous while the decoder lives, and without compression a prefix of the numbered payloads. |
| Careless.CompletionIsVerified | crates/veilid-http-stream/src/lib.rs:661-708 | On the same runs, a completed receiver has delivered bytes of the length and the digest of all that was pushed, after the input was finished. |
| Careless.SenderCompleteIsVerified | crates/veilid-http-engine/src/outgoing.rs:245-247 | On every run of the source without a failed receive, whatever the callers do: when the sender reports completion below the last sequence number, the receiver is complete and its output has that length and digest. |
| Heeding.HeedfulIff | crates/veilid-http-engine/src/outgoing.rs:124-166 | A caller never carries on after a drop or a decoder failure if and only if it pushes nothing after a call the budget had no room for and receives nothing after a frame beyond the output bound. |
| Heeding.LostIff | crates/veilid-http-engine/src/outgoing.rs:277-296 | On every run of the source, whatever the caller does, a call has dropped bytes or the end record if and only if for some call what was buffered and what it would queue were together over the budget. |
| Heeding.BrokenIff | crates/veilid-http-engine/src/incoming.rs:69-105 | Until the caller carries on after a drop or a decoder failure, a decoder has failed if and only if some delivery made more of the stream contiguous than the output bound allows. |
| Heeding.DeliverBreaksIff | crates/veilid-http-engine/src/incoming.rs:69-105 | The same for one delivery, by the receiver's state and the frame before it. |
| Protocol.EveryScheduleRuns | crates/veilid-http-engine/src/incoming.rs:69-157 | Every sequence of calls and deliveries, in any order, is some run's, with any caller and with one that heeds drops and failures. |
| Protocol.NextInv | crates/veilid-http-engine/src/outgoing.rs:124-340 | Every call on either side, failed or not, keeps: waiting and numbered items are a stretch of the encoded stream with the true end record last, every frame on the network encodes a numbered item, and the receiver's decoder stands exactly behind what was delivered. |
| Delivery.NothingIsLost | crates/veilid-http-engine/src/outgoing.rs:188-212 | On every run of the source, whatever its callers do, stale and reordered acknowledgements included, each numbered item is still retained by the sender or recorded by the receiver, and until a receive fails what is recorded is held or delivered. |
| Delivery.SenderCompleteMeansDelivered | crates/veilid-http-engine/src/outgoing.rs:245-247 | On every run of the source whose callers heed drops and failures: when the sender reports completion below the last sequence number, the receiver is complete and has delivered exactly what was pushed. |
| Delivery.CompleteWhenEnded | crates/veilid-http-engine/src/incoming.rs:139-157 | For a sender that holds nothing, the receiver is complete if and only if an end record was numbered. |
| Delivery.HonestFramesVerify | crates/veilid-http-stream/src/lib.rs:661-708 | On such runs, until a receive fails, the next frame can fail only on the receiver's own two limits: never on the length or digest of the end record, never as a conflict or as malformed. |
| Delivery.ExhaustionDropsTheEnd | crates/veilid-http-engine/src/outgoing.rs:323-326 | At the last sequence number the waiting end record is dropped with an error and the sender then reports completion. |
| Coupling.BothAdvance | crates/veilid-http-core/src/lib.rs:29-99 | Recording a new sequence and reassembling its payload leave both cursors at the same gap with the same sequences held above it. |
| Coupling.DataCoupled | crates/veilid-http-engine/src/incoming.rs:69-105 | Receiving any honest data frame keeps window and reassembler describing the same sequences, and fails only on the receiver's own limits. |
| Coupling.EndCoupled | crates/veilid-http-engine/src/incoming.rs:88-105 | Receiving the honest end frame, early, late or repeated, never conflicts and never fails its length or digest check. |
| Coupling.LateDuplicateIsSilent | crates/veilid-http-core/src/lib.rs:29-35 | A late duplicate of a delivered sequence is admitted to the window again but changes neither the output nor the acknowledgement. |
| Coupling.HeldDuplicateIsSilent | crates/veilid-http-engine/src/incoming.rs:72-87 | A duplicate of a sequence still being held changes nothing. |
| Always.AlwaysAligned | crates/veilid-http-core/src/lib.rs:29-99 | At every point of every run without a failed receive, window and reassembler stand at the same gap and hold the same sequences above it; after completion nothing is held and the window stands past the end record. |
| Always.CompletionIsFinal | crates/veilid-http-engine/src/incoming.rs:69-105 | On every run of the source, once the receiver is complete its state and what was delivered never change again. |
| Always.WindowKeptFull | crates/veilid-http-engine/src/outgoing.rs:298-340 | At every point of every run of the source, until a call fails while queueing or launching, nothing waits while the window has room; calls refused for any other reason do not matter. |
| Always.PushRefusedIff | crates/veilid-http-engine/src/outgoing.rs:124-146 | A push is refused, and changes nothing, exactly when the input is finished, the piece is longer than one payload, or the stream would outgrow its length field. |
| Always.FinishRefusedIff | crates/veilid-http-engine/src/outgoing.rs:153-166 | Finishing again is harmless, and a finish is refused only after one that failed. |
| Always.AckRefusedIff | crates/veilid-http-engine/src/outgoing.rs:188-196 | An acknowledgement of the other direction or with a window above 64 is refused and changes nothing, and no other is refused for these reasons. |
| Always.WindowRefusedIff | crates/veilid-http-engine/src/outgoing.rs:173-181 | A window above 64 is refused and changes nothing, and no other is. |
| ReceiverInvariant.DrainedPayloads | crates/veilid-http-core/src/lib.rs:78-99 | Draining hands out exactly the logged payloads from the cursor to the first missing sequence, and leaves the rest untouched. |
| ReceiverInvariant.FinishSucceeds | crates/veilid-http-stream/src/lib.rs:607-708 | Finishing on the whole honest stream yields the rest of the input and fails only when the output bound is below the input's length. |
| Windowed.NeverAheadOfCapacity | crates/veilid-http-engine/src/incoming.rs:109-117 | On every run of the source, whatever its callers do, when acknowledgements are lost or repeated but not reordered, the sender never numbers beyond the last base it was told plus the capacity, what the receiver holds out of order fits its bitmap, its acknowledgement covers exactly what it recorded, and the advertised window is between one and the capacity. |
| Span.SpanCount | crates/veilid-http-engine/src/outgoing.rs:298-340 | After the last processed acknowledgement, frames in flight plus marks in its bitmap are exactly the sequences numbered from its base up. |
| Capacity.NoReceiveFails | crates/veilid-http-core/src/lib.rs:78-99 | On such runs, with reassembly room for one window of full payloads and an output bound the pushed bytes respect, no receive ever fails. |
| Capacity.NoReassemblyLimit | crates/veilid-http-core/src/lib.rs:78-90 | With that reassembly room alone, no frame on such a run is ever refused for lack of it, however much is pushed and whatever the output bound. |
| Capacity.InsertFits | crates/veilid-http-core/src/lib.rs:78-90 | Any payload within the capacity of the cursor fits beside what is held in as many full payloads as the capacity. |
| Progress.RoundClears | crates/veilid-http-engine/src/outgoing.rs:188-212 | Delivering every frame in flight at least once, in any order, and then the resulting acknowledgement leaves the sender as refilling an emptied window of full capacity does. |
| Progress.PumpLaunches | crates/veilid-http-engine/src/outgoing.rs:298-340 | With budget for the framing overhead of the open window, refilling launches exactly as many waiting items as fit, in order, without an error. |
| Progress.CompletesWithinRounds | crates/veilid-http-engine/src/outgoing.rs:245-340 | After any run without reordered acknowledgements, a finished sender with k items waiting completes within 1 + ceil(k / smaller window) such rounds, and the receiver has then delivered exactly what was pushed. |
| Progress.RunAnnounced | crates/veilid-http-engine/src/outgoing.rs:216-241 | At every point of every ordered run, each frame that was ever sent and is still in flight is on the network. |
| Progress.FairPlans | crates/veilid-http-engine/src/outgoing.rs:216-241 | From any such state, for dispatches at any times and any retry policy, there are as many rounds as asked for that deliver only what is on the network and cover what is in flight. |
| Progress.FairRoundsComplete | crates/veilid-http-engine/src/outgoing.rs:216-340 | After any ordered run such rounds exist in the number `CompletesWithinRounds` asks for, and complete the transfer. |
| Lossy.FreshRoundsComplete | crates/veilid-http-engine/src/outgoing.rs:216-340 | Even if the network has lost everything sent so far: when the first dispatch comes the maximum delay after the last transmissions, as many rounds, each delivering only what its own dispatch sends, complete the transfer. |
| Progress.RoundAnnounced | crates/veilid-http-engine/src/outgoing.rs:216-241 | A round keeps every frame that was ever sent and is still in flight on the network. |
| Budget.NeverOverBudget | crates/veilid-http-engine/src/outgoing.rs:113-166 | A caller without compression that pushes unflushed, and finishes, only when not backpressured never gets the pending limit, from those calls or from any acknowledgement or window change between them. |
| Parts.OpenIff | crates/veilid-http-engine/src/outgoing.rs:113-116 | Backpressure is exact: such a sender, with its input open and sequence numbers and stream length to spare, is not backpressured if and only if some unflushed push of at most one payload puts a new frame in flight. |
| Parts.BackpressureMeans | crates/veilid-http-engine/src/outgoing.rs:113-116 | For any codec, a sender is not backpressured if and only if its window has room and one more byte can be queued. |
| Codecs.SomeContextIsRoomy | apps/veilid-http-bridge/src/streaming.rs:534-543 | The assumptions of `Budget.NeverOverBudget` can be met together: for any 32-byte digest, any reserve of 66 bytes or more (the adapters use 256) and frames of at least 324 bytes there is a metadata codec, and a packing of end records, that reads back what it wrote and keeps within the sizes assumed. |
| Overrun.PumpOverIff | crates/veilid-http-engine/src/outgoing.rs:298-340 | A refill meets the pending limit if and only if what is buffered plus the peak of what it launches, an end record counting for its true size less 64, exceeds the budget. |
| Overrun.PushOverIff | crates/veilid-http-engine/src/outgoing.rs:124-146 | For any codec, window, budget and payload size, a push meets the pending limit if and only if it is accepted and what is buffered, what it queues and the most that launching what then waits adds at any moment are together over the budget. |
| Overrun.FramedPushOverIff | crates/veilid-http-engine/src/outgoing.rs:124-146 | When every payload can be framed, that most is the framing of the frames that launch. |
| Overrun.FinishOverIff | crates/veilid-http-engine/src/outgoing.rs:153-166 | The same for a finish, which queues the rest of the buffer and the end record. |
| Overrun.FramedFinishOverIff | crates/veilid-http-engine/src/outgoing.rs:153-166 | When every payload can be framed, in numbers of frames and the size of the end frame. |
| Parts.PartsOverIff | apps/veilid-http-bridge/src/streaming.rs:608-623 | Pushing a chunk in parts after one look at the backpressure, the last one flushed or not, meets the pending limit if and only if the most it needs, up to the part that uses up the sequence numbers if one does, is over the budget. |
| Parts.PartsOverInOneGo | apps/veilid-http-bridge/src/streaming.rs:608-623 | While sequence numbers last, that most is what all the parts emit, queued and launched in one go. |
| Parts.RoomForParts | apps/veilid-http-native/src/runtime.rs:511-518 | Without compression, unflushed parts that do not complete more payloads than the window has open places never meet the pending limit. |
| Budget.ReserveIsExact | crates/veilid-http-engine/src/outgoing.rs:284-340 | For a one-frame window and budget, finishing with a nearly full buffer exceeds the budget if and only if the reserved metadata is less than 63 plus the size of empty metadata. |
| Budget.FlushedPushCanFail | crates/veilid-http-engine/src/outgoing.rs:124-146 | A flushed push that completes one payload and starts another exceeds a one-frame budget if and only if the two together are longer than the frame. |
| Loss.PushDropsIff | crates/veilid-http-engine/src/outgoing.rs:124-146 | After a push, bytes are missing from what will be sent if and only if, before it, the call was acceptable and what was buffered and what it would queue were together over the budget. |
| Loss.FinishDropsIff | crates/veilid-http-engine/src/outgoing.rs:153-166 | After a finish, part of the encoding or the end record is missing if and only if the rest of the buffer, what the codec still emits and the 64 bytes counted for the end record did not fit the budget. |
| Loss.UncompressedExceeds | crates/veilid-http-engine/src/outgoing.rs:277-296 | Without compression these conditions are in lengths alone: a flushed push queues the buffer and the input, an unflushed one their whole payloads, a finish the buffer and 64 bytes. |
| Scenarios.GoingOnSkipsBytes | crates/veilid-http-engine/src/outgoing.rs:124-212 | A run of eight steps from a fresh pair on which the second of three pushed bytes is dropped, the first is delivered and acknowledged, and the third, pushed after that, is delivered in the second's place: the output is no prefix of the input. |
| Edges.ContinuingSkipsBytes | crates/veilid-http-engine/src/incoming.rs:74-87 | A receiver fed on after its decoder failed delivers bytes that are no prefix of what was pushed. |
| Edges.BreaksExactlyAtTheBound | crates/veilid-http-stream/src/lib.rs:691-708 | A data frame breaks the decoder if and only if the part of the stream it makes contiguous decodes to more than the bound. |
| Edges.AmpleBoundNeverBreaks | crates/veilid-http-stream/src/lib.rs:691-708 | With an output bound the pushed bytes respect, no decoder fails on any run. |
| Edges.RetriesGoUnanswered | apps/veilid-http-bridge/src/streaming.rs:358-367 | For a receiver that holds everything sent without a gap or an end record, a retransmission makes the adapter acknowledge if and only if its sequence is 3 modulo 4. |
| Edges.FullWindowWaits | crates/veilid-http-engine/src/outgoing.rs:298-306 | Without an acknowledgement a sender with a full window keeps the same frames in flight through every push, finish and dispatch. |
| Stall.AnswersIff | apps/veilid-http-bridge/src/streaming.rs:358-367 | The adapter acknowledges a received frame if and only if the stream is then complete, something within the bitmap is held above a gap, or the frame's sequence is 3 modulo 4. |
| Stall.StallsForEver | apps/veilid-http-bridge/src/streaming.rs:358-367 | When everything in flight has arrived, the window is full and no sequence in flight is 3 modulo 4: on every run of any length on which acknowledgements come only from the adapter's answers, no delivery is answered and the sender never empties. |
| Stall.AdaptersStall | apps/veilid-http-native/src/runtime.rs:474-482 | From a fresh pair such a state is reached in six steps: two frames are sent, the second arrives first and is acknowledged, and the first, which fills the gap, is not. |
| Untrusted.StaysWithinBounds | crates/veilid-http-engine/src/incoming.rs:69-137 | Whatever byte strings arrive, in whatever order, the payloads held for reassembly never exceed the reassembly bound and the bytes put out never exceed the output bound. |
| Untrusted.RefusedForRoomIff | crates/veilid-http-core/src/lib.rs:78-90 | A frame is refused for lack of room if and only if it carries a new payload ahead of the cursor that does not fit beside what is held. |
| Untrusted.ForeignChangesNothing | crates/veilid-http-engine/src/incoming.rs:119-137 | A byte string that is no data or end frame of this transaction and direction changes nothing, and is refused with the error that says why. |
| Untrusted.EndIsFixed | crates/veilid-http-engine/src/incoming.rs:88-105 | No frame replaces an end record once noted; a frame conflicts, and changes nothing, if and only if it is an end frame of this stream with another sequence or record before completion. |
| Untrusted.ReportsTruly | crates/veilid-http-engine/src/incoming.rs:69-137 | A receive that succeeds reports the acknowledgement and the completion of the state it leaves, and no empty chunk. |
| Untrusted.DirectionsAgree | crates/veilid-http-stream/src/lib.rs:355-413 | A data or end frame is read with the direction, sequence and payload of its own type, and an end record of the other direction is refused. |
| Untrusted.ControlsExactly | crates/veilid-http-stream/src/lib.rs:355-451 | A control frame is read as one if and only if it carries the extension of its own type and that parses. |
| Untrusted.FinishesExactly | crates/veilid-http-stream/src/lib.rs:661-708 | A finish succeeds if and only if direction, output bound, length and digest all agree with the end record. |
| SenderInvariant.PushOk | crates/veilid-http-engine/src/outgoing.rs:124-146 | After every push, failed ones included, both byte counters are exact sums, the budget and the local window are respected, and every retained frame is the encoding of its numbered item; without an error nothing waits while the window has room. |
| SenderInvariant.FinishInputOk | crates/veilid-http-engine/src/outgoing.rs:153-166 | The same after every finish. |
| SenderInvariant.SetPeerWindowOk | crates/veilid-http-engine/src/outgoing.rs:173-181 | The same after every window change. |
| SenderInvariant.AcknowledgeOk | crates/veilid-http-engine/src/outgoing.rs:188-212 | The same after every acknowledgement, from whatever peer. |
| SenderInvariant.AfterReleaseIs | crates/veilid-http-engine/src/outgoing.rs:196-210 | An acknowledgement releases exactly the frames it covers and changes nothing else but the byte counter and the peer window. |
| SenderInvariant.TakeSendableOk | crates/veilid-http-engine/src/outgoing.rs:216-241 | A dispatch keeps the invariant and changes only send times and counts. |
| SenderFlow.PumpFlow | crates/veilid-http-engine/src/outgoing.rs:298-340 | Refilling moves items from waiting to numbered without losing, repeating or reordering a byte. |
| SenderFlow.LoadedFlow | crates/veilid-http-engine/src/outgoing.rs:124-146 | A push extends the waiting stream by exactly what the encoder emitted, or records that bytes were dropped. |
| SenderFlow.LoadedEndFlow | crates/veilid-http-engine/src/outgoing.rs:153-166 | Finishing completes the waiting stream to the whole encoding followed by the true end record, or records that bytes were dropped. |
| Dispatch.DispatchIs | crates/veilid-http-engine/src/outgoing.rs:216-241 | A dispatch sends exactly the due frames, once each, in sequence order, marks those as sent and leaves the others alone. |
| Retry.RetransmitsIff | crates/veilid-http-engine/src/outgoing.rs:216-241 | On every run of the source with one policy and a clock that does not run backwards, a dispatch sends a frame if and only if it is in flight and has not been sent, or its last transmission is at least as long ago as the delay its transmissions so far have earned it. |
| Retry.NeverGivenUp | crates/veilid-http-engine/src/outgoing.rs:216-241 | As long as a frame is in flight, every dispatch that comes the maximum delay after its last transmission sends it again. |
| Retry.RetriesBackOff | crates/veilid-http-engine/src/outgoing.rs:216-241 | On every run of the source with one policy and a clock that does not run backwards, a frame's n-th retransmission comes no earlier than its first transmission plus the first n delays, which never shrink or exceed the maximum. |
| Core.DelayGrows | crates/veilid-http-core/src/lib.rs:272-275 | Retry delays never shrink from one attempt to a later one and never exceed the maximum. |
| Core.AckOfHistory | crates/veilid-http-core/src/lib.rs:29-58 | Over any history of recorded sequences, an acknowledgement covers exactly the recorded ones below the cursor or within 64 of it. |
| Core.AckGrows | crates/veilid-http-core/src/lib.rs:38-58 | Every later snapshot acknowledges at least what an earlier one did. |
| Core.TopSequenceIsForgotten | crates/veilid-http-core/src/lib.rs:29-35 | For the top sequence number it does not. |
| Core.ReceiveWindow.Record | crates/veilid-http-core/src/lib.rs:29-35 | Recording advances the cursor over everything contiguous and reports whether the sequence was absent from the set. |
| Core.ReceiveWindow.Snapshot | crates/veilid-http-core/src/lib.rs:38-48 | The bitmap built in a loop has bit i set exactly when the sequence i above the cursor is held. |
| Core.Reassembler.Push | crates/veilid-http-core/src/lib.rs:78-99 | Either everything that became contiguous is handed out in order, or the bound is reported and nothing changes. |
| Core.FrameBatcher.Push | crates/veilid-http-core/src/lib.rs:121-135 | The filling loop cuts what was buffered and the input into full payloads and keeps less than one. |
| Core.BatchesKeepBytes | crates/veilid-http-core/src/lib.rs:121-142 | Batching neither adds, loses nor reorders bytes. |
| Sender.OutboundBody.New | crates/veilid-http-engine/src/outgoing.rs:65-103 | A sender is made exactly for 1 to 64 frames of window and a budget of at least that many frames and one payload, and starts empty; otherwise the error says which bound is missed. |
| Sender.OutboundBody.PushBytes | crates/veilid-http-engine/src/outgoing.rs:124-146 | The state and error of a push, for every state and input. |
| Sender.OutboundBody.Finish | crates/veilid-http-engine/src/outgoing.rs:153-166 | The state and error of a finish, for every state. |
| Sender.OutboundBody.AdvertisePeerWindow | crates/veilid-http-engine/src/outgoing.rs:173-181 | The state and error of a window change. |
| Sender.OutboundBody.ApplyAck | crates/veilid-http-engine/src/outgoing.rs:188-212 | The state, the error and the list of released sequences of an acknowledgement. |
| Sender.OutboundBody.TakeDueFrames | crates/veilid-http-engine/src/outgoing.rs:216-241 | The frames a dispatch hands out and the state it leaves. |
| Sender.OutboundBody.PumpFrames | crates/veilid-http-engine/src/outgoing.rs:298-340 | The refill loop, with the state it leaves on each of its errors. |
| Receiver.InboundBody.ReceiveFrame | crates/veilid-http-engine/src/incoming.rs:69-105 | The state, the chunks, the acknowledgement and the error of a receive, for every byte string. |
| Receiver.InboundBody.FinishIfComplete | crates/veilid-http-engine/src/incoming.rs:139-157 | The attempt to finish, which gives up the decoder whether or not it succeeds. |
| Receiver.InboundBody.CurrentAck | crates/veilid-http-engine/src/incoming.rs:109-117 | The current acknowledgement and the window it advertises. |
| Stream.DecodeEncodedItem | crates/veilid-http-stream/src/lib.rs:271-413 | The receiver reads exactly the item, sequence and direction the sender encoded. |
| Stream.EncodeItemSize | crates/veilid-http-stream/src/lib.rs:271-314 | An item can be encoded exactly when its frame and metadata are within their limits, and its size does not depend on its sequence. |
| Stream.NoCompressionIsLawful | crates/veilid-http-stream/src/lib.rs:502-574 | The uncompressed mode meets everything assumed of a codec. |
| Stream.StreamEncoder.Push | crates/veilid-http-stream/src/lib.rs:525-552 | The encoder's running length and hash follow the bytes written, and an overlong stream is refused unchanged. |
| Stream.StreamDecoder.Push | crates/veilid-http-stream/src/lib.rs:630-660 | A piece is decompressed and counted, or the output bound is reported after the piece was taken in. |
| Wire.DecodeEncode | crates/veilid-http-wire/src/lib.rs:261-351 | What one side encodes under any limit, the other decodes to the same frame. |
| Wire.DecodeRawEncodeRaw | crates/veilid-http-wire/src/lib.rs:261-351 | Decoding the layout of any frame within bounds gives the frame back. |
| Wire.EncodeRawDecodeRaw | crates/veilid-http-wire/src/lib.rs:297-351 | Every accepted byte string is the layout of the frame it decodes to. |
| Wire.EncodeBundle | crates/veilid-http-wire/src/lib.rs:121-147 | The loops write the header, the length table and the frames, or report the limit that is exceeded. |
| Wire.DecodeBundle | crates/veilid-http-wire/src/lib.rs:150-196 | The loops read exactly what the bundle format says, with the source's error for each malformation. |
| Wire.DecodeEncodeBundle | crates/veilid-http-wire/src/lib.rs:121-196 | A bundle of valid frames decodes to exactly those frames. |
| Wire.EncodeDecodeBundle | crates/veilid-http-wire/src/lib.rs:150-196 | Every accepted bundle is the encoding of the valid frames it holds. |
| Wire.FrameIsNotBundle | crates/veilid-http-wire/src/lib.rs:150-351 | No byte string is accepted both as a frame and as a bundle. |
| Bundling.SendEncodedFrames | apps/veilid-http-bridge/src/streaming.rs:650-674 | The packing loop sends exactly the greedy groups, each of which can be encoded. |
| Bundling.SendBundle | apps/veilid-http-bridge/src/streaming.rs:676-686 | A group within the limit always encodes, as itself when it is a single frame. |
| Bundling.GroupsPartition | apps/veilid-http-native/src/runtime.rs:573-597 | The groups put end to end are the frames in order, and each fits a message. |
| Bundling.PackThenSplit | apps/veilid-http-bridge/src/streaming.rs:650-719 | Splitting the messages sent and concatenating gives the original frames in order, and every message fits 32,768 bytes. |
| Bundling.FewestMessages | apps/veilid-http-bridge/src/streaming.rs:650-674 | No other order-preserving partition into sendable groups has fewer messages. |
| CreditInvariant.ResponseCreditsConserved | apps/veilid-http-electron/src/main/sidecar.ts:295-311 | On every run of a live stream, Electron's response credits are exactly those on their way, held as permits or spent on chunks on their way back, and with the queued chunks never exceed the high-water mark. |
| CreditInvariant.UploadCreditsConserved | apps/veilid-http-native/src/runtime.rs:173-185 | On every run, the four upload credits of a live request are all accounted for across both sides, both channels, the body channel, the runtime and its credit channel; never more than four exist. |
| CreditInvariant.NoWindowIsExceeded | apps/veilid-http-native/src/main.rs:549-667 | Whatever frame is read next, the permits stay within the high-water mark, the body channel has room, and a chunk or grant reaching Electron is accepted. |
| CreditInvariant.OnlyTheRuntimeFailsAStream | apps/veilid-http-electron/src/main/sidecar.ts:396-456 | On every run, a stream that failed in Electron failed because the runtime did or the request was refused; one that completed did because the runtime finished. |
| CreditInvariant.LateCreditsAreHarmless | apps/veilid-http-native/src/main.rs:632-666 | Once the runtime has finished and the end is queued or the request let go, a live stream completes when Electron reads what is queued, whatever credits crossed it. |
| CreditInvariant.PullFillsTheQueue | apps/veilid-http-electron/src/main/sidecar.ts:295-311 | After a pull there is one credit out for every free place in the reader's queue. |
| CreditEnds.AbortLetsGo | apps/veilid-http-native/src/main.rs:668-672 | On every run, once the sidecar has read an abort the request is let go for good: its entry stays gone, no permit is ever acquired, and at most the one chunk then held is still queued. |
| CreditEnds.LateFramesChangeNothing | apps/veilid-http-native/src/main.rs:549-667 | Credits and body frames read after that change nothing and are answered with a cancellation. |
| CreditEnds.AbortArrives | apps/veilid-http-electron/src/main/sidecar.ts:463-474 | When the application aborts a live stream over a working connection, at every later point the abort is on its way or the sidecar has let go of the request. |
| CreditEnds.BodyEndArrives | apps/veilid-http-native/src/main.rs:583-602 | At every point of every upload, once the writer of a live stream has finished, the end of the body is on its way or the sidecar's body is closed. |
| CreditEnds.FailureIsHeard | apps/veilid-http-native/src/main.rs:388-412 | Once the runtime has failed and the failure is queued or the request let go, a live stream is refused or fails when Electron reads what is queued. |
| CreditEnds.NoWriterWaitsForACredit | apps/veilid-http-electron/src/main/sidecar.ts:260-293 | At every point of every run, a live stream never keeps a writer waiting while it counts a credit. |
| CreditGuards.SidecarStaysWithin | apps/veilid-http-native/src/main.rs:549-673 | Whatever frames arrive, the permits of a response stay within 64 and the chunks in the body channel within 4. |
| CreditGuards.ElectronStaysWithin | apps/veilid-http-electron/src/main/sidecar.ts:274-456 | Whatever frames arrive, Electron never queues more chunks than it granted and never counts more than 64 upload credits. |
| CreditGuards.AnswersExactly | apps/veilid-http-native/src/main.rs:457-673 | The sidecar answers a frame exactly when it does not accept it, with the reason, and what it does not accept changes nothing but what the reason says. |
| CreditGuards.EndsExactly | apps/veilid-http-electron/src/main/sidecar.ts:274-456 | Electron ends a live stream exactly on an end, a refusal, a cancellation and a frame that breaks the rules, and tells the sidecar only of the last. |
| CreditGuards.AcceptsExactly | apps/veilid-http-electron/src/main/sidecar.ts:274-456 | A payload costs one credit and is queued unless a read was waiting for it, and upload credits go to waiting writers first. |
| CreditGuards.TasksStayWithin | apps/veilid-http-native/src/main.rs:335-412 | The sidecar's own tasks and the runtime keep to the same bounds. |
| CreditGuards.TakesExactly | apps/veilid-http-electron/src/main/sidecar.ts:260-272 | A writer gets a credit if there is one and waits otherwise. |
| CreditGuards.PullsExactly | apps/veilid-http-electron/src/main/sidecar.ts:295-311 | A pull with places to offer tells the sidecar of all of them or, when it cannot write, fails the stream and counts none. |
| Credits.StreamPending.AddCredits | apps/veilid-http-electron/src/main/sidecar.ts:274-293 | Credits go to waiting writers first and the rest are counted, or the stream fails as in the source. |
| Credits.StreamPending.TakeCredit | apps/veilid-http-electron/src/main/sidecar.ts:260-272 | A credit is spent if there is one, and waited for otherwise. |
| Credits.StreamPending.GrantCredits | apps/veilid-http-electron/src/main/sidecar.ts:295-311 | A grant tops the outstanding credits up to the free places, is not sent when there is nothing to add, and is taken back with the stream failed when the write fails. |
| Credits.StreamPending.HearFrame | apps/veilid-http-electron/src/main/sidecar.ts:379-456 | What each kind of frame does to a stream's entry, a response with a payload and a malformed credit frame included. |
| Credits.Connection.ReadFrame | apps/veilid-http-native/src/main.rs:457-673 | Each frame changes only its own request, and what is queued in answer; a request that is already active is refused and its entry kept, and a malformed credit frame is answered without touching the request. |
| CompletionRuns.AtMostOnce | apps/veilid-http-bridge/src/completion.rs:159-245 | Between two grants of one identifier, over any run with any number of reopenings, it was abandoned, expired, evicted, or lost by a reopening. |
| CompletionRuns.ReleasesIff | apps/veilid-http-bridge/src/completion.rs:159-290 | These reasons are exact: a call makes a known identifier unknown or grants it anew if and only if one of them applies. |
| Retention.RetainedUntilDeadline | apps/veilid-http-bridge/src/completion.rs:159-233 | Over every run, until the retention time after it was recorded, a completion answers every claim and every lookup with its response if that is within the threshold and with a tombstone otherwise, unless it is abandoned, recorded again or evicted; across reopenings too if it reached the disk. |
| Retention.ForgottenAtDeadline | apps/veilid-http-bridge/src/completion.rs:247-263 | The first call that prunes at that time or later, or without a readable clock, removes the completion and its file; a claim is then granted if there is capacity, and a lookup finds nothing. |
| Retention.LookupAgrees | apps/veilid-http-bridge/src/completion.rs:159-195 | For every store a lookup tells what a claim would answer: a response, a tombstone, an execution, or nothing when the claim would be granted or wait for capacity. |
| Retention.FilesMirrorMemory | apps/veilid-http-bridge/src/completion.rs:205-327 | On every run without abandonments and failed writes, the files on disk are exactly the completed entries in memory, with their responses and expiries. |
| Retention.AbandonedComesBack | apps/veilid-http-bridge/src/completion.rs:236-245 | A completion that was abandoned is found by no lookup, but a reopening before its deadline that has room for it brings it back. |
| CompletionRuns.ReplaysTheRecord | apps/veilid-http-bridge/src/completion.rs:99-233 | After a record that reached the disk, every claim, before and after reopening, answers with exactly the retained response or a tombstone until the identifier is released or recorded again. |
| CompletionRuns.AlwaysWithin | apps/veilid-http-bridge/src/completion.rs:159-327 | In every state of every run there are no more executions and no more completed entries than their limits. |
| CompletionRuns.RecordEvictsOldest | apps/veilid-http-bridge/src/completion.rs:205-290 | Recording leaves executions alone, the recorded identifier survives its own eviction, and whoever is evicted expires no later than any unprotected survivor. |
| CompletionRuns.AbandonAllowsAnother | apps/veilid-http-bridge/src/completion.rs:236-245 | A claim, an abandon and a claim grant the same identifier twice. |
| AtomicCalls.FailedForwardAnswersTwice | apps/veilid-http-bridge/src/main.rs:366-404 | A history of two calls of one identifier on which both forward it, the second after the first's failure was abandoned, and one is answered with the error and the other with the response. |
| AtomicCalls.DuplicateIsAnswered | apps/veilid-http-bridge/src/main.rs:366-441 | For every interleaving, once a handler has recorded its response, the next claim of any other handler waiting on the identifier ends in an answer, with that response if it is within the threshold, until its retention ends or it is abandoned, recorded again or evicted. |
| AtomicCalls.LateClaimsEnd | apps/veilid-http-bridge/src/main.rs:405-441 | Past the overall timeout no handler goes on waiting: a late claim forwards, answers, or times out exactly when there is nothing to answer and nothing to execute. |
| AtomicCalls.EveryAnswerIsTheSame | apps/veilid-http-bridge/src/main.rs:366-441 | For every interleaving of any number of calls for one identifier that was not abandoned, evicted or expired, at most one is forwarding it, nobody has been answered while it does, and all answered calls got the same response. |
| AtomicCalls.MoveKeepsOne | apps/veilid-http-bridge/src/main.rs:366-441 | Every step of every handler keeps that single owner, and the agreement of the answers with what the store would replay. |
| Completion.CompletionStore.OpenWithActiveLimit | apps/veilid-http-bridge/src/completion.rs:99-156 | Opening loads exactly the unexpired files, deletes the expired ones, and trims the oldest beyond the limit. |
| Completion.CompletionStore.Claim | apps/veilid-http-bridge/src/completion.rs:159-181 | The answer and the new state of a claim, after pruning. |
| Completion.CompletionStore.Lookup | apps/veilid-http-bridge/src/completion.rs:184-195 | The answer of a lookup, after pruning. |
| Completion.CompletionStore.Record | apps/veilid-http-bridge/src/completion.rs:205-233 | The entries and files after a record, for each outcome of the clock readings for the expiry and for the pruning, and with and without a writable disk. |
| Completion.CompletionStore.Abandon | apps/veilid-http-bridge/src/completion.rs:236-245 | The entry is forgotten, completed or not, and its file stays. |
| Completion.CompletionStore.Prune | apps/veilid-http-bridge/src/completion.rs:247-263 | Exactly the completed entries whose expiry has been reached go, with their files. |
| Completion.CompletionStore.EnforceCompletedLimit | apps/veilid-http-bridge/src/completion.rs:265-290 | Eviction stops at the limit, oldest expiry first, and spares the protected identifier and executions. |
| Completion.CompletionStore.TrimLoaded | apps/veilid-http-bridge/src/completion.rs:304-327 | The same for loaded entries, with their files. |
| IpcChunks.ChunksDoNotMatter | apps/veilid-http-electron/src/main/sidecar.ts:353-377 | For every byte stream and every cut into chunks, the frames taken, the bytes kept and the failure are those of parsing it all at once. |
| IpcChunks.TakesFramesInOrder | apps/veilid-http-electron/src/main/sidecar.ts:353-377 | While well-formed frames arrive, the frames taken are the first ones sent and the buffer is a proper prefix of the next. |
| IpcChunks.TakesEveryFrame | apps/veilid-http-electron/src/main/sidecar.ts:353-377 | Once all of them have arrived, exactly the frames sent have been taken, in order, and nothing is left. |
| Ipc.FrameReceiver.Receive | apps/veilid-http-electron/src/main/sidecar.ts:353-377 | The parse loop over the retained buffer, with its failures. |
| Ipc.ParsesSidecarFrames | apps/veilid-http-electron/src/main/sidecar.ts:360-377 | Electron takes a frame exactly when the sidecar's own codec reads one of a kind a sidecar sends, and fails exactly on the headers that codec refuses or that are of another kind. |
| Ipc.Encode | crates/veilid-http-ipc/src/lib.rs:113-131 | The frame layout, or the field that is too large. |
| Ipc.ReadEncoded | crates/veilid-http-ipc/src/lib.rs:113-190 | Reading what was written gives the frame back and leaves what follows it. |
| Ipc.EncodeRead | crates/veilid-http-ipc/src/lib.rs:149-190 | Everything read is the encoding of the frame it gave. |

## Left out

- Sizes and counts are unbounded numbers; `usize` and `u64` overflow is modelled only where the source handles it (sequence numbers, logical lengths, expiry times, retry delays).
- The acknowledgement bitmap is 64 booleans rather than one integer; its wire encoding is part of opaque metadata.
- Zstd, BLAKE3, MessagePack and Base64 internals, which are library code.
- Protocol.DeliveredPrefixOfPushed: promises nothing once a caller has pushed on after a call that dropped bytes or received on after a decoder failure; `Scenarios.GoingOnSkipsBytes` and `Edges.ContinuingSkipsBytes` show that the prefix property is lost then, `Heeding.HeedfulIff` says exactly when, and `Careless.OutputIsNumbered` and `Careless.CompletionIsVerified` say what remains after a drop.
- Budget.NeverOverBudget: is stated for the uncompressed mode and one push for each look at the backpressure; what a compressor emits at once is bounded by nothing the sender knows, so for other codecs and callers `Overrun.PushOverIff`, `Overrun.FinishOverIff` and `Parts.PartsOverIff` give the exact condition instead.
- Parts.PartsOverIff: is about parts the encoder accepts and payloads small enough to be framed; for a single push of any size there is `Overrun.PushOverIff`.
- Windowed.NeverAheadOfCapacity: excludes a second window change during the stream, because `set_peer_window` advertises the full window again whatever is held out of order.
- Progress.CompletesWithinRounds: assumes an acknowledgement after the deliveries of each round; through the adapters' acknowledgement filter progress is not guaranteed, as `Stall.StallsForEver` shows.
- Progress under loss over time, wall-clock timeouts, the final acknowledgement after a client drops a finished transaction, and task wake-up fairness.
- CompletionRuns.AtMostOnce: each store call is one atomic step, so interleavings between unlocking and the file writes inside `record` are not modelled; file removal is taken to succeed and record files to be the store's own.
- The notification handles that wake waiting duplicates; a waiting call may claim again at any time.
- Credits.Connection.ReadFrame: the semaphore, channels and tasks of a request are counters and steps of `Credits.Pair`; a Hello, Response or Event frame from Electron, control requests, and the reuse of an identifier while tasks of its earlier request still run are left out.
- The dispatch of parsed frames to pending unary requests, and the failures it can raise.
- Veilid adapters, sockets, HTTP clients and servers, child processes, command lines and the user interface.
- `SendWindow` and `TransactionJournal`, which the engine does not use, and header filters and site identifiers, which are one-pass checks.
