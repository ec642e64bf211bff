# Verified model of the FoA Wi-Fi stack

FoA is an asynchronous Wi-Fi stack for one core. Shared state is only touched in
short locked sections, so each locked section and each poll of a future is one
atomic step, and a run is any interleaving of such steps. The project models the
parts of the stack whose correctness depends on what happens over a whole run:

- **Transmit side** (`TxQueueSpec`, `TxQueueRing`, `TxSystem`, `TxTheorems`,
  `TxContents`, `TxRefinement`, `TxProgress`, `TxBuffers`, `TxProbe`). A transmit queue is a ring of `n` slots indexed by a
  64-bit generation. `TxQueueRing.TxQueue` is that ring, updated in place, and
  every method is proved to do to an abstract first-in-first-out queue what
  `TxQueueSpec` says. `TxSystem` puts four such queues, their runners, all
  handles, all callers and the shared buffer pool into one world; `TxTheorems`
  states what holds in every state of every run, for every `n >= 1`;
  `TxRefinement` performs every such run on the ring itself, and `TxProgress`
  shows that every run can be brought to rest.
- **WPA2-PSK supplicant** (`Rsn`, `CryptoStates`, `Handshake`, `EapolFraming`,
  `PacketOrder`). Keys, receive floors, EAPOL counters and hardware slots of a
  connection; the handshake that sets them up; the in-place CCMP framing of key
  frames; and the order of packet numbers from their draw to the air.
- **Receive router** (`RxRouter`), **AWDL slot arithmetic** (`Awdl`) and the
  **hardware key slots** (`SlotMask`, `KeySlots`, `KeySlotManagers`).

Code that works in place is a class whose methods are proved against functions on
values; runs and their invariants are lemmas about those functions.

Where the code falls short of what one would expect, the model keeps the code and
says exactly when it is right:

- `slot_start_timestamp` saturates when a channel sequence began before the clock
  did, and is right exactly when it did not (`Awdl.SlotStartExact`, failing input
  in `Awdl.SlotStartWrongAfterBoot`). For peers with one epoch the same condition
  decides whether `next_overlap_timestamp` is right (`Awdl.OverlapExact`, failing
  input in `Awdl.OverlapWrongAfterBoot`).
- For peers whose epochs differ a little, as recovered ones do,
  `next_overlap_timestamp` can also skip a shared slot: it looks at the current
  slot first and reports it one channel sequence later, although the two meet
  within this slot or in the next one. `Awdl.NearestSlotExact` gives the exact
  condition and `Awdl.OverlapSkipsNextSlot` an input.

## Model

| member | source | states |
|---|---|---|
| TxTheorems.Conservation | foa/src/tx_queue.rs:182-215 | In every state of every run the pool, the callers and the four queues own disjoint sets of buffers that together are exactly the `n` initial ones, and no two queued frames share a buffer |
| TxTheorems.NoFaults | foa/src/tx_queue.rs:182-215 | Room in the queue, asserted by the source, is there whenever a caller submits a pool buffer; and the pool's channel has room for every buffer that is outside it |
| TxTheorems.NothingStranded | foa/src/tx_queue.rs:393-526 | A kept completion always has a live handle of exactly its generation; when queues are drained and handles and caller buffers gone, all `n` buffers are back in the pool and zeroed |
| TxTheorems.RadioOrder | foa/src/tx_queue.rs:238-299 | With aborts and cancelled handles anywhere, the frames taken to the radio are a prefix of the frames submitted, in order, each once |
| TxTheorems.QueueOrder | foa/src/tx_queue.rs:182-291 | The queue's frame list is what was submitted, and what its runner took is exactly the leading part of it |
| TxTheorems.AnsweredOnce | foa/src/tx_queue.rs:474-503 | A handle obtains a completion at most once in any run |
| TxTheorems.AnswerIsOwn | foa/src/tx_queue.rs:450-526 | What a handle of generation g obtains is the buffer and length of the g-th submission and the result the radio gave while g was in flight |
| TxTheorems.NobodySleepsForever | foa/src/tx_queue.rs:187-236 | A nonempty queue never has a sleeping runner; a sleeping handle's frame is still queued and its slot not reused |
| TxTheorems.NoWakeupIsLost | foa/src/tx_queue.rs:393-503 | A poll that is put off, exactly while the frame is queued, registers its waiter; a waiter stops waiting only through the end of its own frame, after which its poll is answered, or its own drop; a runner goes on after each completion and parks exactly on an empty queue, with its waker stored, and the next frame schedules it |
| TxTheorems.AnswerIsKept | foa/src/tx_queue.rs:393-526 | The result of a frame whose handle lives, with the frame's own buffer and length, is what that handle's poll gets until it is polled or dropped or `n` later frames have needed the slot |
| TxTheorems.KeptByOneStep | foa/src/tx_queue.rs:182-526 | A submission makes its handle and only its own drop unmakes it; the radio's result is kept for a live handle and goes only to its poll, its drop or the reuse of its slot |
| TxContents.RadioGetsSubmitted | foa/src/tx_queue.rs:182-291 | While a frame is queued, up to and including its time in flight, its buffer holds the bytes it was submitted with |
| TxContents.BytesMove | foa/src/tx_buffer_management.rs:47-55 | Only a write of its caller, the end of its transmission and its return, which wipes it, change the bytes of a buffer |
| TxContents.PoolMoves | foa/src/tx_buffer_management.rs:47-91 | The pool gives its oldest buffer to an allocation and takes back exactly what a step returns |
| TxContents.CallersMove | foa/src/tx_queue.rs:182-526 | A caller gives up what it submits or discards and gets what it allocates or what its handle is answered with |
| TxProgress.ComesToRest | foa/src/tx_queue.rs:393-526 | Every run can be continued by runner polls, radio completions and drops of handles and buffers alone to a world at rest with all `n` buffers in the pool |
| TxProgress.CallersAreFree | foa/src/tx_queue.rs:182-526 | Nothing but ownership limits the callers: buffers in hand may be written, submitted and discarded, live handles polled and dropped, runners started and stopped |
| TxProgress.OneFrame | foa/src/tx_queue.rs:182-503 | For every pool size, content and result a frame can be allocated, filled, submitted and sent with those bytes, and its handle is answered with that result and the buffer as the radio left it |
| TxRefinement.Perform | foa/src/tx_queue.rs:182-526 | Every event of the transmit side, performed on the ring, takes the abstract queue where the event takes it, gives up the same buffer and tells the handle the same |
| TxRefinement.GivenUpIsReturned | foa/src/tx_queue.rs:182-526 | The buffer the ring gives up is the one the pool takes back |
| TxRefinement.Replay | foa/src/tx_queue.rs:182-526 | Any run of the transmit side can be performed on a new ring without an assertion failing, and the ring ends up representing the queue |
| TxSystem.RunInv | foa/src/tx_queue.rs:182-526 | The world invariant (queue invariants, ownership books, wiped pool memory) holds in every state of every run |
| TxSystem.StepInv | foa/src/tx_queue.rs:182-526 | Each of alloc, write, discard, submit, runner poll, completion, abort, restart, handle poll and handle drop keeps that invariant |
| TxSystem.QueueHasRoom | foa/src/tx_queue.rs:182-195 | A caller holding a pool buffer finds every queue with a free slot |
| TxSystem.PoolBelow | foa/src/tx_buffer_management.rs:47-55 | With a buffer outside it the channel is not full, so `try_send` does not fail |
| TxSystem.ReleaseSound | foa/src/tx_buffer_management.rs:47-55 | Dropping the one buffer in transit wipes it, puts it into the pool and balances the books |
| TxSystem.ApplyIsLocal | foa/src/tx_queue.rs:182-526 | What a world step does to a queue is what the step does to that queue alone |
| TxQueueSpec.EnqueueInv | foa/src/tx_queue.rs:182-215 | Enqueueing with room keeps the queue invariant |
| TxQueueSpec.RunnerPollInv | foa/src/tx_queue.rs:223-291 | The runner's poll, parking or taking a frame, keeps it |
| TxQueueSpec.FinishInv | foa/src/tx_queue.rs:393-421 | Ending a transmission, with or without result, keeps it |
| TxQueueSpec.PollHandleInv | foa/src/tx_queue.rs:474-503 | Polling a handle keeps it |
| TxQueueSpec.DropHandleInv | foa/src/tx_queue.rs:505-526 | Dropping a handle keeps it |
| TxQueueSpec.StaleHandleIsInert | foa/src/tx_queue.rs:162-167 | Once more than `n` frames were queued from g on, polling handle g answers nothing and changes nothing, and dropping it only removes the handle |
| TxQueueRing.TxQueue.constructor | foa/src/tx_queue.rs:91-130 | A new ring represents the empty queue |
| TxQueueRing.TxQueue.StartRunner | foa/src/tx_queue.rs:292-299 | A runner may be started on any queue without one |
| TxQueueRing.TxQueue.StopRunner | foa/src/tx_queue.rs:292-299 | A runner that holds no frame may be dropped; the ring is unaffected |
| TxQueueRing.TxQueue.RunOnce | foa/src/tx_queue.rs:292-299 | One turn picks up the oldest frame and ends it with the radio's result |
| TxQueueRing.TxQueue.FrontIndex | foa/src/tx_queue.rs:131-142 | The index computed from counter and capacity is the residue of the oldest generation in the queue |
| TxQueueRing.TxQueue.EnqueueFrame | foa/src/tx_queue.rs:182-215 | The ring then represents the queue with the frame appended; the handle is its generation; the buffer given up is that of the completion whose slot is reused; a parked runner is woken |
| TxQueueRing.TxQueue.PollNotEmpty | foa/src/tx_queue.rs:223-236 | Ready exactly when frames are queued; otherwise the runner parks with its waker stored |
| TxQueueRing.TxQueue.TryReceive | foa/src/tx_queue.rs:238-291 | Takes the oldest frame if there is one; the three arms called unreachable are |
| TxQueueRing.TxQueue.FinishSlot | foa/src/tx_queue.rs:393-421 | The frame leaves the queue, its completion kept exactly when its handle lives; a sleeping waiter of that generation is woken |
| TxQueueRing.TxQueue.Run | foa/src/tx_queue.rs:292-299 | The loop sends the queued frames in order, each with its own result, until results or frames run out |
| TxQueueRing.TxQueue.GetStatus | foa/src/tx_queue.rs:450-470 | The status is that of the handle's own frame, never of a later one in the same slot |
| TxQueueRing.TxQueue.PollCompletion | foa/src/tx_queue.rs:474-503 | The answer and the new state are those of the abstract queue; a poll put off leaves the handle's waker in its slot; a stale handle changes no slot and no waker |
| TxQueueRing.TxQueue.DropPending | foa/src/tx_queue.rs:505-526 | The new state is that of the abstract queue; exactly an unclaimed completion's buffer is released; a stale handle changes no slot and no interest flag |
| TxQueueRing.NextSlotDisplaces | foa/src/tx_queue.rs:187-205 | The slot the next generation maps to holds precisely the completion `n` generations back, if unclaimed |
| TxBuffers.TxBufferManager.constructor | foa/src/tx_buffer_management.rs:64-75 | All buffers are in the channel, none is out |
| TxBuffers.TxBufferManager.TryAlloc | foa/src/tx_buffer_management.rs:79-91 | Fails exactly on an empty channel; otherwise hands out the oldest free buffer, zeroed and not already out |
| TxBuffers.TxBufferManager.DropBuffer | foa/src/tx_buffer_management.rs:47-55 | The buffer is zeroed and back in the channel, which always has room |
| TxBuffers.NewManager | foa/src/tx_buffer_management.rs:64-75 | The manager of zeroed buffers represents channel and memory of a fresh world |
| TxBuffers.Allocate | foa/src/tx_buffer_management.rs:79-91 | Succeeds exactly when the world allows allocation and hands out the buffer the world gives to the caller |
| TxBuffers.ReleaseBuffer | foa/src/tx_buffer_management.rs:47-55 | Dropping a buffer outside the pool does to channel and memory what the world's release does |
| TxProbe.Recorder.Accept | foa/src/tx_probe.rs:115-142 | Gives a new identity, or none with exactly one counter raised |
| TxProbe.Recorder.Index | foa/src/tx_probe.rs:143-156 | Finds the record exactly for the right identity, phase and a time not before the last one; otherwise counts an invalid event |
| TxProbe.Recorder.Record | foa/src/tx_probe.rs:157-175 | The log moves by the reported boundary, or only its invalid counter does |
| TxProbe.AcceptRecords | foa/src/tx_probe.rs:115-142 | A valid echo gets the next identity and a record of its own while there is room; otherwise no record changes and exactly the counter that names the reason rises |
| TxProbe.ReportStamps | foa/src/tx_probe.rs:157-175 | A report in order and in time stamps its boundary with the time given and keeps every other stamp and record |
| TxProbe.ReportRefused | foa/src/tx_probe.rs:143-156 | A report for no record, another identity, another phase or a time before the last stamp only counts as invalid; any other is taken |
| TxProbe.StampsInOrder | foa/src/tx_probe.rs:143-175 | In every run a record has exactly the stamps of its phase, in order of time |
| TxProbe.RecorderAgrees | foa/src/tx_probe.rs:143-175 | In every run a waiting frame is recorded Queued, one in flight Picked, a finished one Finished with the radio's result, an aborted one Picked without; the queues never cause an invalid event |
| TxProbe.ProbedStep | foa/src/tx_probe.rs:115-175 | Every step of queues and recorder keeps that agreement |
| Rsn.RunInv | foa_sta/src/rsn.rs:102-205 | In every run group keys at different IDs differ, the active ID is installed, hardware slots hold the software keys, and floors bound all accepted packet numbers |
| Rsn.StepInv | foa_sta/src/rsn.rs:127-205 | Every key frame, data frame and packet number draw keeps that invariant |
| Rsn.NewInv | foa_sta/src/rsn.rs:128-147 | It holds of the state built at the end of the handshake |
| Rsn.ReplaySafety | foa_sta/src/rsn.rs:75-88 | Under one key instance, data and protected key frames together are accepted with strictly increasing packet numbers in any run |
| Rsn.FloorsNeverFall | foa_sta/src/rsn.rs:41-88 | While a key stays installed its floor, and the EAPOL counter, never go down; another key at that ID is a later installation |
| Rsn.ProgramsOnlyNewKeys | foa_sta/src/rsn.rs:150-205 | Hardware is written only for a key not installed at its ID, with the message's RSC as floor, and no other ID changes |
| Rsn.DataMovesOneFloor | foa_sta/src/runner.rs:467-503 | A data frame moves at most the floor of the key its wire ID names |
| Rsn.UnansweredIsInert | foa_sta/src/runner.rs:51-116 | A key frame without reply changes nothing but the pairwise floor |
| Rsn.AnsweredFrame | foa_sta/src/runner.rs:51-153 | A reply carries the counter after its step, which rises unless the last group message is repeated exactly; such a repeat is answered again and changes nothing but the pairwise floor |
| Rsn.AnsweredExactly | foa_sta/src/rsn.rs:150-190 | A key frame past the packet number check is answered exactly when it is a group message with a larger counter and a key no other ID has, the last group message once more, or an M3 of this session's nonce for the active key and ID with a larger counter |
| Rsn.StaleFrameIsInert | foa_sta/src/runner.rs:68-72 | A protected key frame not above the pairwise floor is neither answered nor looked at |
| Rsn.NewGroupTakesEffect | foa_sta/src/rsn.rs:150-190 | A new group message makes its key the installed and active one, in hardware too, and its counter the current one; a key already there keeps its floor, a new one starts at the RSC, and nothing else changes but the pairwise floor |
| Rsn.RetryTakesEffect | foa_sta/src/rsn_retransmit.rs:38-58 | An answered M3 retry moves the EAPOL counter to its own and nothing else but the pairwise floor |
| Rsn.DeliveredExactly | foa_sta/src/runner.rs:467-503 | Group data under any installed ID, pairwise data under ID 0 and protected key frames get through exactly above the floor of their key, and set it |
| Rsn.NothingNewIsDropped | foa_sta/src/rsn.rs:75-88 | In every run, while a group key stays installed, a number above its floor at some time and above all accepted under it since is accepted |
| Rsn.NothingNewIsDroppedPairwise | foa_sta/src/rsn.rs:75-88 | The same for data and key frames under the pairwise key |
| Rsn.NewConnection | foa_sta/src/rsn.rs:128-147 | A new connection has the session's nonces, M3's counter and its key alone and active; number 1 is accepted under both keys and is the next to send |
| CryptoStates.CryptoState.constructor | foa_sta/src/rsn.rs:128-147 | The agreed keys, both programmed |
| CryptoStates.CryptoState.ProgramGroupKey | foa_sta/src/rsn.rs:191-205 | Writes the key of that ID to the slot of that ID only |
| CryptoStates.CryptoState.KeyElsewhere | foa_sta/src/rsn.rs:164-173 | True exactly when another ID has the key |
| CryptoStates.CryptoState.AcceptGroupMessage | foa_sta/src/rsn.rs:150-190 | New state and verdict are those of the abstract state; the invariant is kept |
| CryptoStates.CryptoState.AcceptMessage3 | foa_sta/src/rsn_retransmit.rs:38-58 | An M3 retry moves nothing but the EAPOL counter, and only for the installed nonce, key and ID with a larger counter |
| CryptoStates.CryptoState.ValidatePairwise | foa_sta/src/rsn.rs:75-88 | Accepts exactly above the floor, and raises it |
| CryptoStates.CryptoState.HandleEapolRetry | foa_sta/src/runner.rs:51-153 | State and reply of a connected key frame, from packet number check to answer |
| CryptoStates.CryptoState.ProcessWrappedPayload | foa_sta/src/runner.rs:467-503 | Delivery and new floor of a protected data frame under its wire key ID |
| CryptoStates.CryptoState.NextPacketNumber | foa_sta/src/rsn.rs:69-74 | Each draw returns the next number and moves nothing else |
| Handshake.ConversationOrder | foa_sta/src/operations/connect.rs:395-498 | Over any frames, M2 replies reuse one nonce and one key with counters that do not fall, and every later reply has a larger counter, except for repeats of the same group message |
| Handshake.UpIsAhead | foa_sta/src/runner.rs:51-153 | Once connected the counter exceeds every M2 and equals the counter of each new reply |
| Handshake.EveryReplyEchoes | foa_sta/src/operations/connect.rs:338-498 | Along every session each frame gets at most one reply, of the kind that answers it and with the counter it carries |
| Handshake.RepliesEcho | foa_sta/src/runner.rs:51-153 | The same for one step, with the station's own nonce in M2 and M4 |
| Handshake.FirstMessage1 | foa_sta/src/operations/connect.rs:408-455 | The first M1 is answered with its counter under the key of both nonces, and its exchange is the one pending; nothing else moves the session |
| Handshake.PendingExchange | foa_sta/src/operations/connect.rs:338-378 | M1 retries of the nonce with a counter not fallen, and an unprotected M3 of the nonce with a larger one, are answered with their counters; the M3 completes the connection with its keys and counter; nothing else moves the session |
| Handshake.ConnectedExchange | foa_sta/src/runner.rs:51-153 | Once connected, every frame does to the keys what the key state machine says, and is answered exactly when that machine answers it |
| Handshake.KeysAgreed | foa_sta/src/operations/connect.rs:408-498 | In every session the pairwise key of every M2 and of the connection is the one derived from the access point's nonce and the own |
| Handshake.AdvanceInv | foa_sta/src/operations/connect.rs:338-498 | Each received frame keeps the order of replies |
| Handshake.InitialHandshake.Message1Retry | foa_sta/src/rsn_initial.rs:22-40 | Answers an M1 of the same nonce whose counter did not fall, and remembers it |
| Handshake.InitialHandshake.AcceptMessage3 | foa_sta/src/rsn_initial.rs:41-56 | Accepts an unprotected M3 of the same nonce with a larger counter |
| Handshake.ProcessMessage1 | foa_sta/src/operations/connect.rs:291-308 | Stops at the first M1 and leaves the session as it was |
| Handshake.FourWayHandshake | foa_sta/src/operations/connect.rs:395-498 | The loops end in the state and with the replies of the session machine, at the first frame that settles it or when frames run out |
| EapolFraming.ProtectThenNormalize | foa_sta/src/rsn_group.rs:15-88 | For every access-point key frame and packet number in range, protecting, dropping the MIC and normalizing restores every byte, the length and the number |
| EapolFraming.NormalizeThenProtect | foa_sta/src/rsn_group.rs:15-88 | A protected frame that normalizes is recovered by protecting the result with the number it carried |
| EapolFraming.PnRoundTrip | foa_sta/src/rsn_group.rs:15-33 | Writing and reading a 48-bit packet number gives it back |
| EapolFraming.HeaderRoundTrip | foa_sta/src/rsn_group.rs:58-88 | Reading and writing a CCMP header of key ID 0 gives it back |
| EapolFraming.HeaderOctets | foa_sta/src/rsn_group.rs:15-33 | The CCMP header has the number's octets 0 and 1 first, then a reserved octet and the key ID octet 0x20, then octets 2 to 5 |
| EapolFraming.NumberByPlace | foa_sta/src/rsn_group.rs:58-88 | The number read from a header is the sum of its octets by place |
| EapolFraming.ProtectedLayout | foa_sta/src/rsn_group.rs:15-33 | The protected frame octet by octet: header with bit 6 of octet 1 set, CCMP header, payload eight octets later, eight zero octets |
| EapolFraming.HeaderLengths | foa_sta/src/rsn_group.rs:15-33 | The MAC header's length by its type and direction bits |
| EapolFraming.NormalizedExactly | foa_sta/src/rsn_group.rs:58-88 | Accepted are key frames from the access point: clear ones as they are, protected ones with key ID 0, extended IV and nothing reserved |
| EapolFraming.FromApMeans | foa_sta/src/rsn_group.rs:38-80 | Which octets make a key frame from the access point to this station: type, direction, both addresses in place, LLC header and packet type |
| EapolFraming.ProtectEapol | foa_sta/src/rsn_group.rs:15-33 | In place: fails without touching the buffer exactly on a bad number, too little room, an unparsable or already protected frame; otherwise the buffer holds the protected frame and its tail is untouched |
| EapolFraming.Normalize | foa_sta/src/rsn_group.rs:58-88 | In place: the outcome, the bytes and the number are those of the specification; refused frames are untouched |
| EapolFraming.CopyWithin | foa_sta/src/rsn_group.rs:15-88 | An overlapping move within one buffer reads every byte before it is overwritten |
| PacketOrder.AirOrder | foa_sta/src/runner.rs:323-383 | In every run frames reach the radio in strictly increasing packet number order for each pairwise key |
| PacketOrder.AirIsPrefix | foa/src/tx_queue.rs:182-291 | What the station has on the air is exactly the leading part of what it queued |
| PacketOrder.NoFrameLooksReplayed | foa_sta/src/rsn.rs:69-88 | From a new pairwise key on, a receiver with this replay check accepts every frame of any subsequence it hears, data or key frame |
| PacketOrder.ReceiverAcceptsAll | foa_sta/src/rsn.rs:75-88 | The same for any ordered list of frames and any floor reached by an earlier one |
| PacketOrder.OrderedRun | foa_sta/src/runner.rs:323-383 | In every run the numbers of the queued frames increase strictly for each key, all were drawn, and the key state stays sound |
| PacketOrder.DrawIsCarried | foa_sta/src/operations/connect.rs:198-268 | Data frames and group replies take the next number and carry it; clear frames, messages 2 and 4 among them, take none and carry none |
| PacketOrder.ProtectedSend | foa_sta/src/runner.rs:323-383 | Connected, every data frame and group reply takes the next number; if it fits and the number is in range that very frame is queued under it, otherwise nothing is |
| PacketOrder.ClearSend | foa_sta/src/operations/connect.rs:198-268 | Messages 2 and 4, and data without a connection, are queued clear and leave the connection as it is; a group reply without a connection is not sent |
| PacketOrder.LinkFollowsRsn | foa_sta/src/runner.rs:51-153 | The station's key state moves by the key state machine's steps only: one for each received frame and a draw for each protected frame |
| PacketOrder.SendAllowed | foa_sta/src/runner.rs:323-383 | A station with a buffer in hand may always send |
| PacketOrder.CounterCountsDraws | foa_sta/src/rsn.rs:69-74 | In every run the transmit counter is one more than the protected frames built since the connection was made |
| PacketOrder.Erase | foa_sta/src/runner.rs:323-383 | A run of the station is a run of the transmit side |
| RxRouter.Exclusion | foa/src/util/rx_router.rs:326-432 | In every run at most one operation is active; a starter let through by the signal finds the other side free although it does not look again; a transition always takes effect; a waiter has an active opposite operation or a set signal |
| RxRouter.WaitingEndsWithCompletion | foa/src/util/rx_router.rs:423-432 | A waiting starter polled in any reachable state gets through exactly when the other side is free |
| RxRouter.RunInv | foa/src/util/rx_router.rs:326-432 | The signal and exclusion invariant holds in every state of every run |
| RxRouter.QueueHistory | foa/src/util/rx_router.rs:235-261 | Each endpoint receives exactly the frames that landed there, in order; a frame lands in the foreground exactly when the foreground operation asks for it |
| RxRouter.AskedKinds | foa_sta/src/rx_router.rs:36-55 | The kinds of frame each operation asks for |
| RxRouter.AskedOnce | foa_sta/src/rx_router.rs:36-55 | No frame is asked for by two different steps |
| RxRouter.ResponseReachesItsStep | foa/src/util/rx_router.rs:235-261 | An authentication, association or key frame joins the queue of the foreground step that waits for it, while there is room |
| RxRouter.AlwaysOpen | foa/src/util/rx_router.rs:326-432 | What each call does from any reachable state: an idle side runs exactly when the other is free and otherwise fails or waits, a waiting one gets through exactly then, a running one may change or end, which sets the signal |
| RxRouter.RunsAsAsked | foa/src/util/rx_router.rs:326-432 | In every run the active operation of a side, started at once, after waiting or by a transition, is the one asked for last |
| RxRouter.RxRouterState.TryStartOperation | foa/src/util/rx_router.rs:413-421 | Starts exactly when the other side is free |
| RxRouter.RxRouterState.StartOperation | foa/src/util/rx_router.rs:423-432 | Starts or waits, keeping the invariant |
| RxRouter.RxRouterState.ResumeStart | foa/src/util/rx_router.rs:423-432 | A start after the signal finds the other side free |
| RxRouter.RxRouterState.TransitionTo | foa/src/util/rx_router.rs:326-337 | Always succeeds, and the new operation is the active one |
| RxRouter.RxRouterState.Finish | foa/src/util/rx_router.rs:347-352 | The operation ends and the signal is set |
| RxRouter.RxRouterState.RouteFrame | foa/src/util/rx_router.rs:235-261 | The frame joins the queue it belongs to, or is refused exactly when that one is full |
| RxRouter.RxRouterState.CancelStart | foa/src/util/rx_router.rs:423-432 | Dropping a waiting start keeps the invariant |
| RxRouter.RxRouterState.TryReceive | foa/src/util/rx_router.rs:229-234 | Either endpoint gets the head of its queue, or nothing from an empty one |
| RxRouter.RxRouterState.TakeResponse | foa_sta/src/rx_router.rs:72-105 | Of the frames queued, those dropped were of another step, and the one returned is of this step |
| RxRouter.RxRouterState.ReceiveConnectionResponse | foa_sta/src/rx_router.rs:72-105 | Returns the first frame of the current step among those queued and those that arrive while it waits, and none while there is none |
| Awdl.SlotIndexExact | foa_awdl/src/peer.rs:131-162 | Slot indices are `(elapsed / 2^16) % 16` and its successor despite the 16-bit truncation |
| Awdl.CurrentSlotIsReal | foa_awdl/src/peer.rs:127-155 | The index computed from the clock is the peer's true slot, even for an epoch after now |
| Awdl.NextStartFound | foa_awdl/src/peer.rs:185-205 | The result is the least instant from now on congruent to the slot start modulo a channel sequence |
| Awdl.SlotStartExact | foa_awdl/src/peer.rs:185-205 | That holds exactly when the elapsed part of the sequence does not exceed now |
| Awdl.SlotStartWrongAfterBoot | foa_awdl/src/peer.rs:185-205 | A concrete peer and a clock after boot for which the result is 700 milliseconds late |
| Awdl.NextOverlap | foa_awdl/src/peer.rs:211-228 | Overlap now exactly when the channels agree now, none exactly when no slot agrees, and a time that is right exactly under the conditions of the next rows, for one epoch and for epochs less than a slot apart |
| Awdl.OverlapExact | foa_awdl/src/peer.rs:211-228 | For one epoch the time reported is the earliest future instant at which the two are together exactly when the elapsed part of the sequence does not exceed now |
| Awdl.OverlapWrongAfterBoot | foa_awdl/src/peer.rs:211-228 | Two concrete peers and a clock after boot for which it is 700 milliseconds late |
| Awdl.NearestSlotExact | foa_awdl/src/peer.rs:211-228 | For epochs less than a slot apart, up to wraps, the time reported starts the nearest slot the two share exactly when, besides, the current slot does not agree, or starts just now, or has been left by the other peer and is the only one to agree |
| Awdl.OverlapSkipsNextSlot | foa_awdl/src/peer.rs:211-228 | Two concrete peers with equal channels, half a millisecond apart, for which the next shared slot is missed by 983 milliseconds |
| Awdl.NearestOverlap | foa_awdl/src/peer.rs:211-228 | The start of the first agreeing slot is the nearest overlap |
| Awdl.NeverTogether | foa_awdl/src/peer.rs:211-228 | No slot agrees exactly when the two are never on one channel |
| Awdl.ClockRoundTrip | foa_awdl/src/peer.rs:78-99 | Recovering the epoch from generated timing fields gives the sender's epoch plus an error below 1024 microseconds, plus a multiple of 2^30 microseconds, plus the delays |
| Awdl.RecoveredLag | foa_awdl/src/peer.rs:78-99 | So a recovered epoch and the own one on the same clock are apart by less than a time unit and the delays, and less than a slot when these are short |
| Awdl.RecoveredSlot | foa_awdl/src/peer.rs:78-155 | Peers less than a slot apart number slots alike except at the beginning or the end of each slot, for as long as they are apart |
| KeySlots.RunInv | foa/src/lmac/crypto.rs:38-77 | In every run slots are either free and empty or held by exactly one station, and hardware mirrors software |
| KeySlots.StepInv | foa_sta/src/operations/connect.rs:738-786 | Starting, failing and completing an attempt and all key traffic keep that invariant |
| KeySlots.LiveSlotsDistinct | foa/src/lmac/crypto.rs:38-77 | Live slots are pairwise distinct across all stations, attempts and connections, and none is free |
| KeySlots.HardwareMirrorsSoftware | foa_sta/src/rsn.rs:127-205 | Each connection's slots hold exactly its pairwise key and, per ID, its group key or nothing |
| KeySlots.NoStrayKeys | foa/src/lmac/crypto.rs:38-50 | A programmed slot belongs to the live connection that programmed it |
| KeySlots.ReconnectKeepsNewKeys | foa_sta/src/operations/connect.rs:773-786 | Dropping the old state after building the new one deletes none of the new keys, frees and empties the old slots and touches no other station's |
| KeySlots.RotationReachesHardware | foa_sta/src/rsn.rs:150-205 | In every run a new group message puts its key into the hardware slot of its ID, and the connection keeps its slots |
| KeySlots.FailedAttemptReturnsSlots | foa_sta/src/operations/connect.rs:738-786 | A failed attempt returns all five slots, empty, and leaves the station the slots it had, whatever others did meanwhile |
| KeySlots.BeginIff | foa_sta/src/operations/connect.rs:738-757 | An attempt gets its slots exactly when the passphrase is usable and five are free; otherwise nothing changed |
| KeySlots.TenPerStationSuffice | foa_sta/src/operations/connect.rs:738-786 | With ten slots per station no attempt ever fails for want of slots |
| KeySlots.TakeIsLowest | foa/src/lmac/crypto.rs:65-72 | Slots are handed out lowest first, each once, as many as asked for or as are free |
| KeySlots.TakeThenRelease | foa/src/lmac/crypto.rs:65-77 | Giving back what was just taken restores the table |
| KeySlots.WrittenIsMirrored | foa_sta/src/rsn.rs:176-205 | The hardware write of a key frame is exactly the change of the software's picture of its slots |
| KeySlotManagers.MaskIsSet | foa/src/lmac/crypto.rs:65-77 | Clearing and setting a mask bit removes and adds exactly that slot |
| KeySlotManagers.KeySlotManager.constructor | foa/src/lmac/crypto.rs:57-63 | All slots free and empty |
| KeySlotManagers.KeySlotManager.AcquireKeySlot | foa/src/lmac/crypto.rs:65-72 | Returns the lowest free slot and takes it, or none when none is free |
| KeySlotManagers.KeySlotManager.ReleaseKeySlot | foa/src/lmac/crypto.rs:73-77 | The slot is free and its key deleted |
| KeySlotManagers.KeySlotManager.DropKeySlot | foa/src/lmac/crypto.rs:38-50 | The same for the drop of a slot |
| KeySlotManagers.KeySlotManager.SetKey | foa/src/lmac/crypto.rs:21-36 | Writes this slot only |
| KeySlotManagers.KeySlotManager.AcquireForConnection | foa_sta/src/operations/connect.rs:742-748 | Five requests in a row yield the lowest free slots |
| KeySlotManagers.KeySlotManager.BeginAttempt | foa_sta/src/operations/connect.rs:738-757 | All five slots, or none is kept |
| KeySlotManagers.KeySlotManager.CompleteAttempt | foa_sta/src/operations/connect.rs:773-786 | New keys are programmed, then the old connection's slots dropped |
| SlotMask.OneBit | foa/src/lmac/crypto.rs:65-77 | On 32-bit words, clearing or setting bit k changes bit k and no other |

## Left out

- Cryptography and parsing: MIC checks, key unwrapping, PBKDF2 and the frame parsers are not modelled; frames arrive decoded, or as nothing when they do not decode. The header layout used for framing is that of section 9.2.4, and the CCMP header that of section 12.5.3.2, of IEEE 802.11-2016.
- The radio, DMA, timers, the executor and the channel and signal primitives: only what their callers rely on is modelled (a bounded channel, a one-shot signal, one waker per cell, any transmit result).
- TxQueueRing.TxQueue.EnqueueFrame: the generation counter is required to be below 2^64 - 1, because the source panics there.
- TxQueueRing.TxQueue.Run: one call covers as many frames as results are given; parking between them is `PollNotEmpty`.
- Wakers: a waker left behind by a dropped handle or an aborted runner may be called once more than needed; spurious wakeups are not modelled.
- RxRouter.WaitingEndsWithCompletion: says what a poll finds, not that the signal primitive keeps a registered waker across a reset.
- Router operations that run concurrently: the station does not enable them.
- Rsn.FloorsNeverFall: a key that is replaced and later installed again at an ID is a new installation, as in the source; the RSC of M3 is ignored there too, so the first group key starts at floor 0.
- Handshake.FourWayHandshake: timeouts and the deauthentication path are not modelled; the frame list simply ends.
- PacketOrder.AirOrder: the station's frames share one fixed queue; a packet number beyond 48 bits is drawn and not sent, as for group replies in the source; its data path panics there.
- PacketOrder.DrawIsCarried: a reply may be sent at any time after the frame it answers; which frame that was is stated in `Handshake`.
- TxProbe.RecorderAgrees: identities are attached to at most one frame each, as the transmit path does.
- Awdl.NextOverlap: one clock sample stands for the several the source takes; `i64` subtraction wraps, and ticks are microseconds.
- Awdl.ClockRoundTrip: the sender's window has 16 time units, as `generate_tlv` announces.
- KeySlots.HardwareMirrorsSoftware: the address a slot matches on and cipher flags are not modelled; `set_key` is taken to succeed, as the source unwraps it; the pairwise key slot is written once per connection.
- Key release on disconnect: keys stay until the next connection replaces them, so nothing is claimed about slots after a disconnect.
- AWDL master election and the choice of a slot for multicast frames: the comparison of candidates reads the own counter on both sides, so it is no order, and the slot choice takes elapsed for remaining time; nothing is claimed of either.
- RxRouter.RxRouterState.ReceiveConnectionResponse: requires queues of depth at least one, as configured; with none no frame could ever arrive.
- Off-channel operations and channel locks: granting is awaited between the check and the claim, so exclusion does not hold over all interleavings and none is claimed.
- Scanning, choice of a network, credentials and deauthentication frames: they fill and read lists and frames without state that outlives them.
- AWDL element building and Ethernet conversion: serialisation by a library.
- The receive buffer pool and the diagnostic recorders other than the transmission recorder: they take no part in the protocols above.
