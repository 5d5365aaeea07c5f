# Authenticated BLE broadcast: a verified model

Broadcasters encrypt short payloads with a session key that they replace every so many packets.
They send the key itself in four masked, tagged fragments in between the data. An observer hears some
of the frames, some of them twice, checks their timing against the interval the session id stands
for, collects fragments until a key is complete, keeps the last few keys of each sender, and decrypts
what it can; what it cannot decrypt yet waits in a queue. This project models that pipeline in Dafny
and proves what it keeps.

`dafny verify dfyconfig.toml` checks everything.

## Main results

- **Safety, end to end** (`EndToEnd`). A state machine of any number of senders with any session ids, a
  lossy, repeating and reordering air, and the observer's tasks, interleaved step by step. In every run
  every delivered payload is accounted for: the key it was opened with is made of fragments of that
  sender's sessions of that low byte and of strays, fragments of sessions with low byte zero left in an
  entry that counts as free (for a PDU with low byte zero: any such key of the sender, or a blank one).
  It is what was encrypted into the PDU if and only if that key's keystream agrees with the sealing
  key's. Under a clean low byte (not zero, one key per sender and low byte, no stray left behind) it is
  always right. Exactly when a fragment becomes a stray is `IdLimits.StrayPassedOnIff` (its sender's cache
  is full) and `ReconstructorTheorems.StepLeavesStrayIff` (it verifies and an entry is free); `IdLimits`
  also gives a run from power-up that goes wrong for each of the three conditions.
- **Delivery, end to end** (`EndToEndDelivery`, `PromptSystem`, `DeliveryTheorems`). From power-up, for every
  run in which a session is heard in its rhythm and one window of its fragments is among what is heard:
  the observers are told exactly the payloads the application gave its sender at the turns heard, in order.
- **The system, part by part** (`SystemTheorems`). Over every run, each part is what a machine of its own
  says: the table a run of the processor, the collection what its fragments make of it, the slots those of
  the scans, the queues first in, first out, the air what was sent.
- **PDU processor** (`ProcessorTheorems`, `ConsumerTheorems`, `OrderTheorems`, `ReachableTheorems`).
  Isolation of senders, conservation of PDUs, order, the end of draining and the absence of lost
  wake-ups, each over arbitrary interleaved runs and for any ids. The fate of every waiting PDU is told in
  closed form; order over runs and the end of draining are if-and-only-if statements about it.
- **Interval authorisation** (`AuthorizeTheorems`, `FilterTheorems`). Exactly when cutting the stream into
  batches changes what is forwarded; the C arithmetic accepts exactly a window of real jitter, up to
  wraps of the clock; an on-time sender gets everything through under any loss but the last packet of
  a session; exactly when a repeated frame passes the duplicate filter, over runs of the callback.
- **Key reconstruction** (`ReconstructorTheorems`). The array with its zero-means-free ids, counters and
  flags refines a bounded map, over every stream of fragments; a key comes out if and only if all four
  indices came in.
- **Key cache** (`KeyCacheSpec`). Slots, hint and wrap-extended stamps refine a bounded map with true
  last-use times, over every sequence of operations stamped in time, and so do the records that use them
  (`RecordHistory`).
- **Broadcaster** (`BroadcasterTheorems`, `ScheduleTheorems`). Closed forms for counter, session,
  fragments and schedule; any window of four rounds reveals the session's key.
- **Wire and crypto** (`Wire`, `Crypto`). Round trips both ways for frames, masking, splitting and
  counter mode.

## How it is built

Every component appears twice. A specification module (`KeyCacheSpec`, `ConsumerSpec`, `ProcessorSpec`,
`ReconstructorSpec`, `AuthorizeSpec`, `BroadcasterSpec`) holds the state as a value and each step as a
function; the theorems are about these. A class module (`KeyCaches`, `BleConsumers`, `Processor`,
`Reconstructor`, `AdvTimeAuthorize`, `Broadcaster`) holds the arrays, queues, counters and loops as the
firmware has them; each method's contract equates its new state with the specification's. A ghost
`view` or `table` field, tied to the real fields by `Valid()`, is the value a class stands for, and a
ghost `trace` is everything a processor has delivered or dropped. `SystemSpec` composes the
specifications into one state machine. From `ConsumerSpec` on, a step carries what parsing reads from a
frame (`Wire.Read`), and a delivery carries the PDU with the key it is opened with (`Wire.Open`).

The cryptographic primitives are parameters: `keystream(key, nonce, i)` is byte i of the counter-mode
keystream (section 6.5 of NIST SP 800-38A) and `tag(fragment, masked)` is the truncated HMAC (section 2
of RFC 2104). Nothing is assumed of them. Random values (keys, ids, seeds), payloads, arrival times and
tick counts are inputs.

## Where the code differs from its description

- The repository's README gives "session ID x 50 ms" as an example of the advertising interval. The code
  scales the id linearly to 3000..5000 ms and rounds to multiples of 80 ms
  (components/core/src/beacon_pdu/beacon_pdu_data.c:204-220).
- The README says that tags are computed from the fragment and a shared secret. The code keys the HMAC
  with the clear fragment itself (components/core/src/crypto/crypto.c:148-152).
- `MAX_PDU_PAYLOAD_SIZE` comes out as 27, but a frame has 31 bytes and the header 9, so the encryptor
  accepts payloads of 23 to 27 bytes that never go on the air.
- `reset_timestamp` assigns to its own parameters and so has no effect; stamps survive removal
  (components/utils/src/tick_count_timestamp.c:27-34).
- The sender application stops broadcasting on every new session id before it sets the payload, which the
  stopped controller ignores; the first frame of a session id is never heard
  (projects/sender_app_2nd/sender_main.c:360-379).
- The duplicate filter keeps its last-seen record in slot 0 whoever the sender is
  (components/ble_broadcast_security_processing_engine/src/adv_time_authorize/adv_time_authorize.c:311-337).
- The new-PDU event is cleared before a batch of at most 20 is taken and not raised again, so frames behind a
  full batch wait until the next one is queued
  (components/ble_broadcast_security_processing_engine/src/sec_pdu_processing.c:122-152).
- On eviction the processor remembers the index of the slot where the field's name says the id
  (components/ble_broadcast_security_processing_engine/src/sec_pdu_processing.c:370-392).
- Properties that turned out not to hold without a condition are stated with the exact one:
  `EndToEnd.EndToEndProvenance`, `IdLimits.ImmediateDelivery`, `IdLimits.StrayPassedOnIff`, `ReachableTheorems.InOrderIff`,
  `OrderTheorems.DrainKeepsOrderIff`, `ReachableTheorems.DrainEventsCeaseFromPowerUp`,
  `AuthorizeTheorems.BatchesAgreeIff`, `AuthorizeTheorems.VerdictIsRealIff`,
  `FilterTheorems.RepeatQueuedIff`, `BroadcasterTheorems.RotatesOnTimeIff`,
  `KeyCacheSpec.LookupIsMapLookup`, `ReconstructorTheorems.StepKeepsInvIff`,
  `ReconstructorTheorems.StepLeavesStrayIff`, `DeliveryTheorems.NothingLostIff`,
  `TickStamp.SaveTracksTrueTime`.

## Model

| member | source | states |
|---|---|---|
| `EndToEnd.EndToEndProvenance` | components/ble_broadcast_security_processing_engine/src/sec_pdu_processing.c:142-272 | Over every run from power-up, with any number of senders, any session ids, loss, repetition and reordering on the air and any interleaving of the observer's tasks: each PDU delivered for a sender was opened with a key whose fragments are of its own sessions of that low byte or strays, fragments of sessions with low byte zero that have been left in an entry that counts as free (for low byte zero itself, with any such key of that sender, or the blank one), and gives what the sender encrypted into that PDU if and only if that key's keystream agrees with the sealing key's |
| `EndToEnd.EndToEndSafety` | components/ble_broadcast_security_processing_engine/src/sec_pdu_processing.c:142-272 | In every such run, each payload delivered under a clean low byte (not zero, one key for this sender and low byte, and no fragment of a session with low byte zero left in an entry that counts as free) is the one that sender encrypted into that PDU, and the only one it ever did; every key cached under a clean low byte is the session's key |
| `EndToEnd.NextKeepsInv` | components/ble_broadcast_security_processing_engine/src/sec_pdu_processing.c:118-140 | Each step of each task (send, scan, authorise, process, reconstruct with callback, drain) keeps the system invariant |
| `EndToEnd.ObserverNeverBlocks` | components/ble_broadcast_security_processing_engine/src/sec_pdu_processing.c:118-140 | In every reachable state every observer task can take its step, so safety is not bought with blocked tasks |
| `EndToEnd.NotificationsRight` | components/ble_broadcast_security_processing_engine/src/sec_pdu_processing.c:252-272 | In every such run each notification stands for a delivery, is not empty, and under a clean low byte carries what its sender encrypted |
| `EndToEndDelivery.DeliveredFromPowerUp` | components/ble_broadcast_security_processing_engine/src/sec_pdu_processing.c:118-322 | From power-up, through timer, air, scan, authorisation, queues, table, collection, callback and drain: if up to 50 turns of a session are heard in its rhythm, the fragments of one window of four rounds among them and not last, then the moves can be made, every data PDU heard but in the last frame is delivered in order under the session's key, and the observers are told exactly what the application gave the sender for these turns |
| `EndToEndDelivery.HeardWithoutLoss` | projects/sender_app_2nd/sender_main.c:69-132 | Such runs exist: any sender heard without loss for one packet more than its first window is heard in that sense, with exact intervals in between |
| `PromptSystem.CyclesAreHear` | components/ble_broadcast_security_processing_engine/src/sec_pdu_processing.c:118-322 | For one sender the system with prompt tasks (each frame processed, its fragment consumed, the drain event raised) does what the reference of `DeliveryTheorems` does, over every queue of a session's frames |
| `SystemTheorems.TableIsRun` | components/ble_broadcast_security_processing_engine/src/sec_pdu_processing.c:118-140 | Over every run of the system: table and trace are those of the processor run on the frames taken from its queue, one key for each one completed, and the drain events, in the order they come |
| `SystemTheorems.KeysAreHandedOut` | components/ble_broadcast_security_processing_engine/src/key_reconstruction/key_reconstructor.c:77-125 | Over every run: the collection is what consuming the fragments taken makes of it, and the keys the table gets are exactly those it hands out, as the callback is called: in order, each for the sender and the id of the fragment that completed it |
| `SystemTheorems.FramesInOrder` | components/ble_broadcast_security_processing_engine/src/sec_pdu_processing.c:505-526 | Over every run the processor's queue is first in, first out: frames taken, then those waiting, are those waiting at first, then the forwarded ones that found room among 100 |
| `SystemTheorems.FragmentsInOrder` | components/ble_broadcast_security_processing_engine/src/key_reconstruction/key_reconstructor.c:200-259 | And so is the reconstructor's: what enters is each wanted fragment that is of use and finds room among 15 |
| `SystemTheorems.SlotsAreScanned` | components/ble_broadcast_security_processing_engine/src/adv_time_authorize/adv_time_authorize.c:293-349 | Over every run the slots are those of the scans and the authorisations alone |
| `SystemTheorems.AirIsSent` | components/ble_security_payload_encryption/src/ble_security_payload_encryption.c:89-159 | Over every run without a restart of it, a sender is where its callbacks have brought it, and of its frames exactly those of its outputs are on the air |
| `SystemTheorems.ForwardIsAppend` | components/ble_broadcast_security_processing_engine/src/adv_time_authorize/adv_time_authorize.c:242-245 | What an authorisation forwards joins the end of the processor's queue in order, as far as there is room |
| `SystemTheorems.EventIsTurns` | components/ble_broadcast_security_processing_engine/src/adv_time_authorize/adv_time_authorize.c:170-194 | The authorisation event on the whole system: what it hands out, in its order, is what the turns of the slots put into the processor's queue, and nothing else changes |
| `Genuine.ConsumeOk` | components/ble_broadcast_security_processing_engine/src/key_reconstruction/key_reconstructor.c:77-125 | For any ids, a key handed to the callback is made of fragments of sessions of exactly the pair it is handed out for, or of strays left behind before |
| `EndToEnd.FrameForOk` | components/ble_broadcast_security_processing_engine/src/sec_pdu_processing.c:142-225 | Processing a genuine frame, admission included, delivers only genuine payloads and asks only for genuine fragments |
| `EndToEnd.DrainAllOk` | components/ble_broadcast_security_processing_engine/src/sec_pdu_processing.c:228-322 | A drain event over the whole table delivers only genuine payloads, although a key is reused while the session id repeats |
| `EndToEnd.AuthoriseSlotOk` | components/ble_broadcast_security_processing_engine/src/adv_time_authorize/adv_time_authorize.c:196-262 | What a sender's slot forwards was sent by that sender; a free slot forwards nothing |
| `EndToEnd.SendKeepsInv` | components/ble_security_payload_encryption/src/ble_security_payload_encryption.c:89-159 | What a sender puts on the air is sealed in the session it is in, and was recorded as such |
| `Genuine.OpensAlikeIff` | components/core/src/crypto/crypto.c:51-74 | Two keys open a PDU alike if and only if their keystreams agree over its payload |
| `IdLimits.ImmediateDelivery` | components/ble_broadcast_security_processing_engine/src/sec_pdu_processing.c:172-196 | For any record with nothing waiting: a PDU is delivered at once if and only if the lookup of its low byte hits, and is right if and only if the keystream of what is hit agrees with the session's |
| `IdLimits.SharedLowByteRun` | components/ble_broadcast_security_processing_engine/src/sec_pdu_processing.c:172-196 | From power-up: once one session's key is in, a PDU of another with the same low byte is delivered under it, right if and only if the keystreams agree |
| `IdLimits.ZeroLowByteRun` | components/ble_broadcast_security_processing_engine/src/key_cache/key_cache.c:204-251 | From power-up: the first PDU of a session with low byte zero is delivered at once under the blank key, right if and only if the keystreams agree |
| `IdLimits.ZeroLowByteTakesForeignKey` | components/ble_broadcast_security_processing_engine/src/key_cache/key_cache.c:204-251 | From power-up: after another session's key has been stored, the same PDU is delivered under that key, through the hint left on id 0 |
| `IdLimits.StrayPassedOnIff` | components/ble_broadcast_security_processing_engine/src/sec_pdu_processing.c:198-218 | A fragment of a session with low byte zero is passed on to the reconstructor if and only if its sender's cache is full and its hint is not on 0 |
| `IdLimits.StrayRun` | components/ble_broadcast_security_processing_engine/src/key_reconstruction/key_management.c:99-147 | From power-up: one sender fills its cache, a fragment of its session with low byte zero is passed on, and the reconstructor, fed what is passed on, hands out a key with that fragment in it for another sender, whose PDU is delivered under it, right if and only if the keystreams agree |
| `Genuine.HandleDataOk` | components/ble_broadcast_security_processing_engine/src/sec_pdu_processing.c:172-196 | One data PDU: what is delivered was opened with a usable key, and what is deferred was sent |
| `Genuine.DrainLoopOk` | components/ble_broadcast_security_processing_engine/src/sec_pdu_processing.c:274-322 | The drain loop never uses a key on a PDU it is not usable for, although it keeps the key while the session id repeats |
| `Genuine.CompleteKeyOk` | components/ble_broadcast_security_processing_engine/src/sec_pdu_processing.c:353-406 | Storing a key made of its id's fragments, with eviction if need be, leaves every slot holding a key made of its own id's fragments |
| `ProcessorSpec.SenderIsolation` | components/ble_broadcast_security_processing_engine/src/sec_pdu_processing.c:142-248 | In any interleaved run an admitted sender ends with the state and the events of a run of its own steps alone |
| `ProcessorSpec.ExecKeepsOk` | components/ble_broadcast_security_processing_engine/src/ble_consumer/ble_consumer_collection.c:118-153 | No step makes two records of one address |
| `ProcessorSpec.ExecNewcomer` | components/ble_broadcast_security_processing_engine/src/sec_pdu_processing.c:155-170 | A sender without a record is silent until a frame of its own admits it to a freshly reset one |
| `ProcessorTheorems.AdmittedIff` | components/ble_broadcast_security_processing_engine/src/sec_pdu_processing.c:155-170 | An unknown sender's frame gets it a record if and only if fewer than two, and fewer than there are, are in use |
| `ProcessorTheorems.ExecKeepsCount` | components/ble_broadcast_security_processing_engine/src/ble_consumer/ble_consumer_collection.c:118-153 | The separately kept count is the number of records in use, after every step |
| `ProcessorTheorems.RecordsKept` | components/ble_broadcast_security_processing_engine/src/ble_consumer/ble_consumer_collection.c:118-153 | From power-up at most two senders ever have a record, and one that has it keeps it |
| `ProcessorTheorems.NewRecord` | components/ble_broadcast_security_processing_engine/src/ble_consumer/ble_consumer.c:95-111 | A new sender finds an empty queue and cache and no request, and of the sender before it only the session last seen and the stamps of the slots |
| `RecordHistory.RunRemembers` | components/ble_broadcast_security_processing_engine/src/sec_pdu_processing.c:181-207 | Over every run of a record: the session last seen is that of its last data or fragment frame, and its stamp has been saved at every frame and key and at nothing else |
| `RecordHistory.CacheHistory` | components/ble_broadcast_security_processing_engine/src/sec_pdu_processing.c:181-406 | Over every run of a record: its cache has been through one lookup per frame, one per change of session in a drained batch, and for each new key an add, after an eviction if it was full, at these times |
| `RecordHistory.RecordIsMap` | components/ble_broadcast_security_processing_engine/src/key_cache/key_cache.c:101-376 | So the keys a record holds are those of a bounded map that gives up the one used longest ago in true time, for every run stamped in time |
| `ProcessorTheorems.Conservation` | components/ble_broadcast_security_processing_engine/src/sec_pdu_processing.c:172-322 | Per sender, over every interleaved run, before and after admission: accepted = delivered + dropped for a full queue + dropped as stale + waiting, as multisets |
| `ReachableTheorems.InOrderIff` | components/ble_broadcast_security_processing_engine/src/sec_pdu_processing.c:188-195 | In a whole table, whatever the others do and however all is interleaved: an admitted sender's PDUs are in order after every step if and only if each of its data frames finds fewer than 80 waiting and each drain takes a safe batch, told from the record as the drain finds it; for any ids |
| `OrderTheorems.RunInOrderIff` | components/ble_broadcast_security_processing_engine/src/sec_pdu_processing.c:188-195 | The same for one record, over every run from a record whose cache keeps the invariant, as every reachable one does |
| `ReachableTheorems.NoWakeUpIsLost` | components/ble_broadcast_security_processing_engine/src/sec_pdu_processing.c:188-195 | From power-up, for any ids: wherever PDUs wait with no drain due, the oldest one's key is missing |
| `ReachableTheorems.NothingPassesTheHead` | components/ble_broadcast_security_processing_engine/src/sec_pdu_processing.c:188-195 | While PDUs wait with no drain due, frames, drain events and keys of ids already cached deliver nothing of that sender, whatever keys are cached; PDUs pile up to 80 and the rest is lost |
| `ReachableTheorems.DrainEventsCeaseFromPowerUp` | components/ble_broadcast_security_processing_engine/src/sec_pdu_processing.c:228-248 | From every state reached from power-up with any frames, keys and ids: after `Rounds` drain events the event is raised again if and only if some pending record holds a stuck PDU, one that is put back when its turn comes; all other pending records are empty |
| `ConsumerTheorems.AdvanceKeepsOk` | components/ble_broadcast_security_processing_engine/src/key_cache/key_cache.c:101-376 | Every step of a record keeps the cache's invariant, whatever the ids |
| `ProcessorTheorems.DrainEventsCease` | components/ble_broadcast_security_processing_engine/src/sec_pdu_processing.c:228-248 | Without arrivals, after `Rounds` drain events the event is raised again if and only if some pending record holds a stuck PDU; all others are empty |
| `ProcessorTheorems.DrainsInOrder` | components/ble_broadcast_security_processing_engine/src/sec_pdu_processing.c:228-248 | A drain event serves the records in table order, each as if alone |
| `ConsumerTheorems.RunConserves` | components/ble_broadcast_security_processing_engine/src/sec_pdu_processing.c:172-322 | Conservation for one sender's record |
| `ConsumerTheorems.DrainIsPlain` | components/ble_broadcast_security_processing_engine/src/sec_pdu_processing.c:274-322 | Key reuse, stamping and the moving hint come to fates that can be told when the drain begins: each of the first 20 PDUs is delivered under the key its low byte finds (low byte zero by the hint only until another id has been found), put back if its session is the last one seen, or lost; the rest keeps its order, with those put back behind |
| `ConsumerTheorems.DrainsFinish` | components/ble_broadcast_security_processing_engine/src/sec_pdu_processing.c:228-248 | With no stuck PDU, `Rounds` = max(1, ceil(n/20)) drains empty the queue and clear the request |
| `ConsumerTheorems.DrainingEndsIff` | components/ble_broadcast_security_processing_engine/src/sec_pdu_processing.c:228-248 | Draining ends if and only if no waiting PDU is stuck, for any ids and any hint |
| `ConsumerTheorems.StuckNeverDrains` | components/ble_broadcast_security_processing_engine/src/sec_pdu_processing.c:303-313 | A PDU put back once is put back for ever: it survives any number of drains and keeps the request pending |
| `ConsumerTheorems.CompleteKeyEffect` | components/ble_broadcast_security_processing_engine/src/sec_pdu_processing.c:353-406 | After the callback with a non-zero id it has the new key, or nothing changed as it was cached; at most one other entry is gone, one with the smallest combined stamp, and the index remembered is where it was; capacity holds |
| `OrderTheorems.DrainKeepsOrderIff` | components/ble_broadcast_security_processing_engine/src/sec_pdu_processing.c:274-322 | One drain keeps the order if and only if from the first PDU that is not delivered on its batch is all put back, and moving these behind the rest of the queue leaves the queue as it is |
| `OrderTheorems.ServedIsSafe` | components/ble_broadcast_security_processing_engine/src/sec_pdu_processing.c:188-195 | In particular a batch every PDU of which finds a key keeps the order |
| `OrderTheorems.MovingDistinct` | components/ble_broadcast_security_processing_engine/src/sec_pdu_processing.c:310-312 | With no PDU waiting twice that means that none is put back or nothing is behind them |
| `OrderTheorems.RotationExample` | components/ble_broadcast_security_processing_engine/src/sec_pdu_processing.c:310-312 | A queue of two that a drain turns round |
| `Processor.PduProcessor.constructor` | components/ble_broadcast_security_processing_engine/src/sec_pdu_processing.c:408-451 | The processor starts with an empty queue and a fresh table |
| `Processor.PduProcessor.EnqueuePduForProcessing` | components/ble_broadcast_security_processing_engine/src/sec_pdu_processing.c:505-526 | Any frame joins the queue and raises the event unless 100 are waiting |
| `Processor.PduProcessor.DecryptAndNotify` | components/ble_broadcast_security_processing_engine/src/sec_pdu_processing.c:252-272 | The delivery is logged, and if the PDU was sealed with that key the observers get exactly one notification with the clear payload, or none if it is empty |
| `Processor.NotifiedSealed` | components/ble_broadcast_security_processing_engine/src/sec_pdu_processing.c:252-272 | For a PDU sealed with the key it is opened with, whatever the key, the observers get the clear payload, unless it is empty |
| `Processor.PduProcessor.AddToConsumerDeferredQueue` | components/ble_broadcast_security_processing_engine/src/sec_pdu_processing.c:325-337 | A PDU joins the deferred queue, or its loss is logged |
| `Processor.PduProcessor.HandleDataPdu` | components/ble_broadcast_security_processing_engine/src/sec_pdu_processing.c:181-197 | Decrypted at once only with the key cached and nothing waiting, else deferred; record and log are those of the specification |
| `Processor.PduProcessor.HandleKeyFragmentPdu` | components/ble_broadcast_security_processing_engine/src/sec_pdu_processing.c:198-218 | A fragment goes to the reconstructor only if its key is not cached |
| `Processor.PduProcessor.TakeBatch` | components/ble_broadcast_security_processing_engine/src/sec_pdu_processing.c:274-289 | The batch is the first up to 20 waiting PDUs, which leave the queue |
| `Processor.PduProcessor.ProcessDeferredQueue` | components/ble_broadcast_security_processing_engine/src/sec_pdu_processing.c:274-322 | The loop's result is the specification's; returns -1 if and only if nothing was waiting |
| `Processor.PduProcessor.HandleEventProcessDeferredPdus` | components/ble_broadcast_security_processing_engine/src/sec_pdu_processing.c:228-248 | Each pending record gets one batch; the event is raised again if and only if a record is still pending |
| `Processor.PduProcessor.KeyReconstructionComplete` | components/ble_broadcast_security_processing_engine/src/sec_pdu_processing.c:353-406 | Stores the key with the sender's record and ignores unknown senders; afterwards, as always, the drain event is raised wherever a drain is due |
| `Processor.NewRequestIff` | components/ble_broadcast_security_processing_engine/src/sec_pdu_processing.c:353-406 | The callback raises the drain event by itself if and only if it knows the sender and, for a non-zero id, the cache did not hold it |
| `Processor.PduProcessor.AcquireConsumer` | components/ble_broadcast_security_processing_engine/src/sec_pdu_processing.c:155-170 | Finds the sender's record, or admits it while fewer than two are in use |
| `Processor.PduProcessor.ProcessFrame` | components/ble_broadcast_security_processing_engine/src/sec_pdu_processing.c:155-222 | One frame changes the table and the log as the specification says; a frame that finds no record is lost |
| `Processor.PduProcessor.HandleEventNewPdu` | components/ble_broadcast_security_processing_engine/src/sec_pdu_processing.c:142-225 | Up to 20 frames leave the queue and are processed in order; the queue is empty afterwards if and only if at most 20 waited, and the event is not raised again either way |
| `Processor.FrameByFrame` | components/ble_broadcast_security_processing_engine/src/sec_pdu_processing.c:155-222 | A batch has the effect of its first frame alone, then that of the rest on what that left |
| `Processor.AcceptedInOrder` | components/ble_broadcast_security_processing_engine/src/sec_pdu_processing.c:142-197 | What a batch makes the processor accept for a known sender is the data PDUs of its frames, in queue order |
| `BleConsumers.BleConsumer.ResetBleConsumer` | components/ble_broadcast_security_processing_engine/src/ble_consumer/ble_consumer.c:95-111 | A reset empties queue and cache and clears every field but the last seen session id |
| `BleConsumers.BleConsumer.AddToDeferredQueue` | components/ble_broadcast_security_processing_engine/src/ble_consumer/ble_consumer.c:137-150 | Appends and counts, or fails without effect when 80 are waiting |
| `BleConsumers.BleConsumer.GetDeferredQueueItem` | components/ble_broadcast_security_processing_engine/src/ble_consumer/ble_consumer.c:153-175 | Takes the oldest waiting PDU; the separate counter stays the queue's length |
| `BleConsumers.BleConsumer.IsPduInDeferredQueue` | components/ble_broadcast_security_processing_engine/src/ble_consumer/ble_consumer.c:192-209 | Answers from the counter whether the queue is non-empty |
| `BleConsumers.BleConsumer.SetDeferredPending` | components/ble_broadcast_security_processing_engine/src/ble_consumer/ble_consumer.c:211-229 | Only the request flag changes |
| `BleConsumers.BleConsumer.StoreKey` | components/ble_broadcast_security_processing_engine/src/sec_pdu_processing.c:365-400 | Adds a key, evicting first if the cache is full; tells whether a drain is due |
| `BleConsumers.BleConsumerCollection.GetFirstFreeIndex` | components/ble_broadcast_security_processing_engine/src/ble_consumer/ble_consumer_collection.c:79-98 | The first free record if the table is not full, else -1 |
| `BleConsumers.BleConsumerCollection.GetIndexForAddress` | components/ble_broadcast_security_processing_engine/src/ble_consumer/ble_consumer_collection.c:100-116 | The first record of an address, else -1 |
| `BleConsumers.BleConsumerCollection.GetBleConsumer` | components/ble_broadcast_security_processing_engine/src/ble_consumer/ble_consumer_collection.c:155-184 | Finds and stamps a sender's record, leaving all others alone |
| `BleConsumers.BleConsumerCollection.AddConsumer` | components/ble_broadcast_security_processing_engine/src/ble_consumer/ble_consumer_collection.c:118-153 | Resets the first free record, gives it to the sender and counts it; no other record changes |
| `DeliveryTheorems.WindowDelivers` | components/ble_broadcast_security_processing_engine/src/sec_pdu_processing.c:142-322 | From a sender's timer to the observers, for a sender with a record and tasks that run promptly: when the fragments of one window of four rounds of a session are heard, in any order and among anything else of that session, every data PDU heard from the completing fragment on is delivered in the order heard, behind up to 80 heard before it; all under the session's key, each opening to what the application gave |
| `DeliveryTheorems.SessionDelivered` | components/ble_broadcast_security_processing_engine/src/sec_pdu_processing.c:142-322 | The same for any stream of one session's frames, fragments that do not verify included, from any record without that key and with its PDUs waiting: what is delivered is exactly the first 80 PDUs up to the fragment that completes the key and all later ones |
| `DeliveryTheorems.NothingWithoutKey` | components/ble_broadcast_security_processing_engine/src/sec_pdu_processing.c:181-218 | While the verified fragments heard do not cover the key, nothing is delivered and the queue holds the first 80 |
| `DeliveryTheorems.NothingLostIff` | components/ble_broadcast_security_processing_engine/src/ble_consumer/ble_consumer.c:137-150 | Nothing is lost if and only if at most 80 wait before the key |
| `AuthorizeTheorems.BatchInvariance` | components/ble_broadcast_security_processing_engine/src/adv_time_authorize/adv_time_authorize.c:196-262 | However a stream with non-zero timestamps is cut into batches, empty ones included, what is forwarded is what one pass over the whole stream keeps |
| `AuthorizeTheorems.KeptIsExactly` | components/ble_broadcast_security_processing_engine/src/adv_time_authorize/adv_time_authorize.c:218-258 | What is kept is exactly the PDUs whose successor has the same session and fits the interval, each once and in order |
| `AuthorizeTheorems.BatchesAgreeIff` | components/ble_broadcast_security_processing_engine/src/adv_time_authorize/adv_time_authorize.c:196-262 | For any stream and any list of batches, what is forwarded is what one pass over the whole stream keeps if and only if every cut is harmless: an empty side, a non-zero timestamp before it, or a pair that would not have been kept anyway |
| `AuthorizeRuns.ForwardsKeptIff` | components/ble_broadcast_security_processing_engine/src/adv_time_authorize/adv_time_authorize.c:196-262 | Over every run of scans and authorisation events by any senders: what a sender's slot forwards, call after call, is what one pass over all that was taken out of its queue keeps, if and only if every cut between batches is harmless; always without zero timestamps |
| `AuthorizeRuns.CallsChain` | components/ble_broadcast_security_processing_engine/src/adv_time_authorize/adv_time_authorize.c:205-261 | Each call goes on from where the sender's last one stopped, whatever happens in between |
| `AuthorizeTheorems.OneGapAccepted` | components/ble_broadcast_security_processing_engine/src/adv_time_authorize/adv_time_authorize.c:264-286 | For any interval and elapsed time at most one packet-number gap is accepted |
| `AuthorizeTheorems.ToleranceBelowHalf` | components/ble_broadcast_security_processing_engine/src/adv_time_authorize/adv_time_authorize.c:264-286 | Twice the tolerance is below the interval in every branch |
| `AuthorizeTheorems.TolerancePercent` | components/ble_broadcast_security_processing_engine/src/adv_time_authorize/adv_time_authorize.c:264-286 | The tolerance is the whole milliseconds in 5, 10, 15, 20 or 30 percent of the interval, from 3000, 1000, above 500, above 200 and below |
| `AuthorizeTheorems.ProductIsExact` | components/ble_broadcast_security_processing_engine/src/adv_time_authorize/adv_time_authorize.c:236 | With growing numbers the 32-bit product of gap and interval never wraps, and is positive |
| `AuthorizeTheorems.VouchesIffJitter` | components/ble_broadcast_security_processing_engine/src/adv_time_authorize/adv_time_authorize.c:224-257 | For any two packets of one session, whatever their numbers and the time between them: accepted if and only if the jitter, up to some number of wraps of the 32-bit clock, lies from minus the tolerance, inclusive, to one millisecond past it, exclusive |
| `AuthorizeTheorems.VerdictIsRealIff` | components/ble_broadcast_security_processing_engine/src/adv_time_authorize/adv_time_authorize.c:224-257 | The verdict is the one true time would give if and only if the jitter fits no window a non-zero number of wraps away |
| `AuthorizeTheorems.NearIsReal` | components/ble_broadcast_security_processing_engine/src/adv_time_authorize/adv_time_authorize.c:224-257 | Growing numbers less than 24 days apart meet that condition |
| `AuthorizeTheorems.ChainDrift` | components/ble_broadcast_security_processing_engine/src/adv_time_authorize/adv_time_authorize.c:224-257 | Over k consecutive accepted steps of one session the real elapsed time differs from the expected sum, up to whole wraps, by less than k*(tolerance+1) ms; without wraps if the steps are near |
| `AuthorizeTheorems.PunctualUnderLoss` | components/ble_broadcast_security_processing_engine/src/adv_time_authorize/adv_time_authorize.c:196-262 | If a session's packets keep their rhythm, every loss pattern and every batching lets all received packets through but the last of each session |
| `AuthorizeRuns.QueuesAccount` | components/ble_broadcast_security_processing_engine/src/adv_time_authorize/adv_time_authorize.c:293-349 | Over every run of scans by any senders and authorisations in between: slot 0 holds the filter's record over everything seen, and what was in a sender's queue or entered it since has been taken out in order or is still there; a sender has no queue before its first frame |
| `AuthorizeRuns.ScanRaisesIff` | components/ble_broadcast_security_processing_engine/src/adv_time_authorize/adv_time_authorize.c:317-343 | A scan raises the authorisation event if and only if its frame passes the filter and six or more of its sender's PDUs wait afterwards |
| `AuthorizeRuns.SlotIffEarned` | components/ble_broadcast_security_processing_engine/src/adv_time_authorize/adv_time_authorize.c:293-349 | Over every run exactly the senders of a beacon frame that found a slot have one; nothing else takes or ends it |
| `AuthorizeRuns.EventServesAll` | components/ble_broadcast_security_processing_engine/src/adv_time_authorize/adv_time_authorize.c:170-194 | The event serves every sender once: the slots are those of one authorisation after another, and each sender is granted what its own slot forwards |
| `AuthorizeRuns.RunKeepsOk` | components/ble_broadcast_security_processing_engine/src/adv_time_authorize/adv_time_authorize.c:137-162 | Over every run no sender has two slots, the slots in use are the active ones, and free ones are as good as new |
| `FilterTheorems.LetsIff` | components/ble_broadcast_security_processing_engine/src/adv_time_authorize/adv_time_authorize.c:311-344 | Exactly which PDU of a session passes the filter, given everything seen since one of that session passed |
| `FilterTheorems.RepeatPassesIff` | components/ble_broadcast_security_processing_engine/src/adv_time_authorize/adv_time_authorize.c:311-344 | A repeat passes again if and only if another session was seen with only lower numbers of its own after it |
| `FilterTheorems.RepeatQueuedIff` | components/ble_broadcast_security_processing_engine/src/adv_time_authorize/adv_time_authorize.c:293-349 | The same over runs of the callback, from any slots in which the sender has or gets one: a frame scanned again is queued again if and only if there is room and that has happened meanwhile |
| `FilterTheorems.NumbersIncreaseUnlessSwitched` | components/ble_broadcast_security_processing_engine/src/adv_time_authorize/adv_time_authorize.c:311-344 | Of two PDUs of one session that enter a queue the later has the larger number, unless another session was seen in between; so always with one sender whose ids never return |
| `FilterTheorems.NeighboursIncreaseUnlessLost` | components/ble_broadcast_security_processing_engine/src/adv_time_authorize/adv_time_authorize.c:311-344 | Neighbours of one session in a queue have increasing numbers unless in between a PDU of another session passed and did not enter, being another sender's or finding no room |
| `FilterTheorems.SecondSenderDefeatsFilter` | components/ble_broadcast_security_processing_engine/src/adv_time_authorize/adv_time_authorize.c:311-337 | Why one sender: with a frame of another sender in between, a repeated frame is queued next to its original |
| `AdvTimeAuthorize.Authorizer.GetConsumerIndexForAddr` | components/ble_broadcast_security_processing_engine/src/adv_time_authorize/adv_time_authorize.c:137-162 | Finds a sender's slot or takes the last free one |
| `AdvTimeAuthorize.Authorizer.ScanCompleteCallback` | components/ble_broadcast_security_processing_engine/src/adv_time_authorize/adv_time_authorize.c:293-349 | Queues a beacon frame unless the record in slot 0 calls it a repeat; raises the event from six queued PDUs on |
| `AdvTimeAuthorize.Authorizer.ProcessAuthorizationForConsumer` | components/ble_broadcast_security_processing_engine/src/adv_time_authorize/adv_time_authorize.c:196-262 | The batching loop with its moving predecessor forwards what the specification says and leaves the right predecessor for the next batch |
| `AdvTimeAuthorize.Authorizer.HandleEventAuthorizePackets` | components/ble_broadcast_security_processing_engine/src/adv_time_authorize/adv_time_authorize.c:170-194 | One batch for every active sender in slot order; the event is not raised again for what a batch leaves behind |
| `AdvTimeAuthorize.AuthoriseFrom` | components/ble_broadcast_security_processing_engine/src/adv_time_authorize/adv_time_authorize.c:221-258 | The loop over a batch, from either starting point, is the specification's walk |
| `AdvTimeAuthorize.IsIntervalGood` | components/ble_broadcast_security_processing_engine/src/adv_time_authorize/adv_time_authorize.c:224-247 | The step-by-step C arithmetic accepts exactly the pairs that vouch |
| `ReconstructorTheorems.StreamRefinesMap` | components/ble_broadcast_security_processing_engine/src/key_reconstruction/key_reconstructor.c:77-125 | Over every stream with non-zero ids the array with counters and flags behaves as a bounded map from (sender, id) to gathered fragments; the key goes out exactly with the fourth distinct index |
| `ReconstructorSpec.ConsumeRefinesMap` | components/ble_broadcast_security_processing_engine/src/key_reconstruction/key_reconstructor.c:89-123 | The same for one fragment, keeping count = number of set flags < 4 and one entry per pair |
| `ReconstructorTheorems.SessionsDoNotMix` | components/ble_broadcast_security_processing_engine/src/key_reconstruction/key_reconstructor.c:77-125 | While the sessions in play fit, each session's outputs are those it would have alone |
| `ReconstructorTheorems.OnlyTheKeyComesOut` | components/ble_broadcast_security_processing_engine/src/key_reconstruction/key_reconstructor.c:261-281 | Every key handed out for a session is that session's key |
| `ReconstructorTheorems.KeyComesOutIff` | components/ble_broadcast_security_processing_engine/src/key_reconstruction/key_reconstructor.c:77-125 | A key comes out if and only if what was held and the verified indices of the stream cover all four, whatever the order and repetition |
| `ReconstructorTheorems.StepKeepsInvIff` | components/ble_broadcast_security_processing_engine/src/key_reconstruction/key_management.c:99-128 | A step keeps the invariant if and only if the id's low byte is non-zero or no slot is free |
| `ReconstructorTheorems.StepLeavesStrayIff` | components/ble_broadcast_security_processing_engine/src/key_reconstruction/key_management.c:99-147 | A step leaves a fragment behind in an entry that counts as free if and only if the id's low byte is zero, the fragment verifies and an entry is free |
| `ReconstructorTheorems.FourIntoBlank` | components/ble_broadcast_security_processing_engine/src/key_reconstruction/key_management.c:99-147 | Four fragments, one per index, into a collection of any size with nothing in it complete a key of exactly these, although the first may be a stray of another sender's session with low byte zero |
| `Reconstructor.KeyCollection.GetKeyIndex` | components/ble_broadcast_security_processing_engine/src/key_reconstruction/key_management.c:169-187 | The first entry for a sender and id, or -1 |
| `Reconstructor.KeyCollection.AddNewKeyToCollection` | components/ble_broadcast_security_processing_engine/src/key_reconstruction/key_management.c:99-128 | Claims the first free entry, if any, writing its id and address only |
| `Reconstructor.KeyCollection.AddFragmentToKeyManagement` | components/ble_broadcast_security_processing_engine/src/key_reconstruction/key_management.c:130-147 | Stores fragment and flag and counts it |
| `Reconstructor.KeyCollection.IsFragmentAlreadyDecrypted` | components/ble_broadcast_security_processing_engine/src/key_reconstruction/key_management.c:189-207 | Answers from the flag of that index |
| `Reconstructor.KeyCollection.IsKeyComplete` | components/ble_broadcast_security_processing_engine/src/key_reconstruction/key_management.c:149-167 | Answers whether the count is four |
| `Reconstructor.KeyCollection.ReconstructKeyFromFragments` | components/ble_broadcast_security_processing_engine/src/key_reconstruction/key_management.c:56-82 | Hands out the joined fragments if and only if the entry is complete |
| `Reconstructor.KeyCollection.RemoveKeyFromCollection` | components/ble_broadcast_security_processing_engine/src/key_reconstruction/key_management.c:39-54 | Blanks the entry |
| `Reconstructor.KeyReconstructor.QueueKeyForReconstruction` | components/ble_broadcast_security_processing_engine/src/key_reconstruction/key_reconstructor.c:200-259 | Queues a fragment unless its key is complete, its index is in, or 15 are waiting; the status says which |
| `Reconstructor.KeyReconstructor.ProcessAndStoreKeyFragment` | components/ble_broadcast_security_processing_engine/src/key_reconstruction/key_reconstructor.c:261-281 | Stores the unmasked fragment if and only if its tag checks |
| `Reconstructor.KeyReconstructor.HandleEventNewKeyFragmentInQueue` | components/ble_broadcast_security_processing_engine/src/key_reconstruction/key_reconstructor.c:77-125 | A batch is consumed in order, takes all that waits, and the callback calls are those of the specification; fragments never wait without the event |
| `KeyCacheSpec.CacheRunRefinesMap` | components/ble_broadcast_security_processing_engine/src/key_cache/key_cache.c:101-376 | Every sequence of add, get, remove, evict and clear with non-zero ids, stamped in time, is a run of a bounded map with true last-use times |
| `KeyCacheSpec.CacheRefinesMap` | components/ble_broadcast_security_processing_engine/src/key_cache/key_cache.c:101-376 | Every single operation keeps ids unique and the hint right, and is a step of the bounded map |
| `KeyCacheSpec.LookupIsMapLookup` | components/ble_broadcast_security_processing_engine/src/key_cache/key_cache.c:204-251 | The hinted lookup answers what the map holds if and only if the id is non-zero, or no slot is free and the hint is not on 0; in every cache the operations can produce. Asking for an id and looking it up find alike |
| `KeyCacheSpec.OpKeepsOk` | components/ble_broadcast_security_processing_engine/src/key_cache/key_cache.c:101-376 | Every operation keeps the cache's invariant, for id 0 too |
| `KeyCacheSpec.ZeroLookup` | components/ble_broadcast_security_processing_engine/src/key_cache/key_cache.c:204-251 | Where a lookup of id 0 ends: at the hinted slot, whatever it holds by now, if the last hit was for id 0; else at a free, blank slot; else nowhere |
| `KeyCacheSpec.FreeSlotsStayBlank` | components/ble_broadcast_security_processing_engine/src/key_cache/key_cache.c:101-376 | Free slots hold the blank key as long as no key is stored under id 0 |
| `KeyCacheSpec.LookupsInARow` | components/ble_broadcast_security_processing_engine/src/key_cache/key_cache.c:204-251 | What a lookup answers after any sequence of lookups: as before, except that id 0 loses the hint, and is scanned for, once another id has been found |
| `KeyCacheSpec.EvictsOldest` | components/ble_broadcast_security_processing_engine/src/key_cache/key_cache.c:331-362 | The victim's combined stamp is no larger than any live entry's; in true time `CacheRunRefinesMap` says so for runs stamped in time |
| `KeyCacheSpec.EvictsNewestAfterWrap` | components/ble_broadcast_security_processing_engine/src/key_cache/key_cache.c:331-362 | Not so otherwise: from power-up, a key stored after a wrap in a slot not used before is evicted ahead of one used earlier |
| `KeyCacheSpec.StampsSurvive` | components/ble_broadcast_security_processing_engine/src/key_cache/key_cache.c:292-329 | Whatever an operation does, the slot it uses gets the time and every other one keeps its stamp, freed or not |
| `TickStamp.SaveTracksTrueTime` | components/utils/src/tick_count_timestamp.c:5-25 | A stamp that told the true time still does after a save if and only if less than one wrap lies between the saves and fewer than 256 wraps have occurred |
| `KeyCaches.KeyCache.AddKeyToCache` | components/ble_broadcast_security_processing_engine/src/key_cache/key_cache.c:101-157 | Adds to the first free slot unless the id is met elsewhere; -1 when full |
| `KeyCaches.KeyCache.GetKeyFromCache` | components/ble_broadcast_security_processing_engine/src/key_cache/key_cache.c:204-251 | Looks up through the hint or by scanning, stamps the slot and moves the hint |
| `KeyCaches.KeyCache.IsKeyInCache` | components/ble_broadcast_security_processing_engine/src/key_cache/key_cache.c:253-290 | Answers without touching anything |
| `KeyCaches.KeyCache.RemoveKeyFromCacheAtIndex` | components/ble_broadcast_security_processing_engine/src/key_cache/key_cache.c:292-329 | Frees a slot and the hint if it named its id; -1 past the end |
| `KeyCaches.KeyCache.RemoveKeyFromCache` | components/ble_broadcast_security_processing_engine/src/key_cache/key_cache.c:159-202 | Frees the slot of an id, and the hint if it named it |
| `KeyCaches.KeyCache.RemoveLruKeyFromCache` | components/ble_broadcast_security_processing_engine/src/key_cache/key_cache.c:331-362 | Frees the live slot with the smallest combined stamp and returns its index, or -1 |
| `KeyCaches.KeyCache.ClearCache` | components/ble_broadcast_security_processing_engine/src/key_cache/key_cache.c:364-376 | Frees every slot; stamps survive |
| `BroadcasterTheorems.SessionMachine` | components/ble_security_payload_encryption/src/ble_security_payload_encryption.c:89-159 | Counter, session and fragment index after any sequence of calls, in closed form, from any starting state, as long as no refused call falls on a multiple |
| `BroadcasterTheorems.OutputClosedForm` | components/ble_security_payload_encryption/src/ble_security_payload_encryption.c:89-159 | What call k returns, from the calls alone: numbers run 1..N-1 in the first session and 0..N-1 in later ones, id and key change only together and only on a multiple of N |
| `BroadcasterTheorems.RotatesOnTimeIff` | components/ble_security_payload_encryption/src/ble_security_payload_encryption.c:91-97 | The counter follows the number of calls modulo N if and only if no oversized call falls on a multiple of N |
| `BroadcasterTheorems.OverrunPostpones` | components/ble_security_payload_encryption/src/ble_security_payload_encryption.c:91-97 | An oversized call on a multiple puts the next session off by exactly N calls |
| `BroadcasterTheorems.FragmentsJoinToKey` | components/ble_security_payload_encryption/src/ble_security_payload_encryption.c:42-49 | The stored fragments join to the key in use after every sequence of calls, refused ones included |
| `BroadcasterTheorems.NumbersIncreaseWithinSession` | components/ble_security_payload_encryption/src/ble_security_payload_encryption.c:99-159 | Of two PDUs returned in one session, data or fragment, the later carries the larger number, up to N = 65536 |
| `ScheduleTheorems.ScheduleClosedForm` | projects/sender_app_2nd/sender_main.c:69-132 | Callback k sends a fragment if and only if k is a multiple of ratio+1, and returns what the encryptor returns for that sequence of calls |
| `ScheduleTheorems.WindowExactlyOnce` | projects/sender_app_2nd/sender_main.c:69-132 | Every window of 4*(ratio+1) callbacks sends each fragment index exactly once, wherever it starts |
| `ScheduleTheorems.FragmentOutput` | components/ble_security_payload_encryption/src/ble_security_payload_encryption.c:55-67 | A fragment turn sends the open session's own fragment, of index (number of the round) modulo 4 |
| `ScheduleTheorems.WindowRevealsKey` | components/ble_security_payload_encryption/src/ble_security_payload_encryption.c:55-67 | Hearing the fragments of one window, in any order, repeated, among others of the session, yields the session's key and no other |
| `ScheduleTheorems.WindowGetsThrough` | components/ble_broadcast_security_processing_engine/src/key_reconstruction/key_reconstructor.c:77-125 | The same through a collection shared with other senders and sessions: over any interleaving it has room for, hearing one window makes it hand out the session's key, and no other for that session |
| `Broadcaster.PayloadEncryptor.constructor` | components/ble_security_payload_encryption/src/ble_security_payload_encryption.c:69-81 | A first session with its fragments, counter zero |
| `Broadcaster.PayloadEncryptor.KeyReplacement` | components/ble_security_payload_encryption/src/ble_security_payload_encryption.c:42-49 | Key and fragments are replaced together |
| `Broadcaster.PayloadEncryptor.GetNextKeyFragment` | components/ble_security_payload_encryption/src/ble_security_payload_encryption.c:55-67 | Indices cycle 0, 1, 2, 3 |
| `Broadcaster.PayloadEncryptor.EncryptPayload` | components/ble_security_payload_encryption/src/ble_security_payload_encryption.c:89-128 | State and PDU are those of the specification; an oversized payload is refused after counting |
| `Broadcaster.PayloadEncryptor.GetKeyFragmentPdu` | components/ble_security_payload_encryption/src/ble_security_payload_encryption.c:130-159 | State and key PDU are those of the specification |
| `Broadcaster.SenderApp.GetAndIncrementPduSendCounter` | projects/sender_app_2nd/sender_main.c:69-81 | Returns the counter and moves it on cyclically |
| `Broadcaster.SenderApp.SetBroadcastingPayload` | projects/sender_app_2nd/sender_main.c:360-379 | A frame goes on the air if it fits 31 bytes and the session id has not changed; on a change the broadcast is stopped, and takes none |
| `Broadcaster.SenderApp.PacketSendTimeoutTimer` | projects/sender_app_2nd/sender_main.c:108-132 | Silent after 2000 packets; else one call by the schedule, on the air unless it is the first of a session id, next delay from the session in use |
| `Wire.SealedPayloadRoundTrip` | components/core/src/beacon_pdu/beacon_pdu_data.c:39-47 | For payloads of up to 22 bytes, parsing the emitted frame recovers all fields and the length, both ends build one nonce, and decryption returns the plaintext |
| `Wire.SealedFragmentRoundTrip` | components/core/src/beacon_pdu/beacon_pdu_data.c:140-149 | An emitted fragment comes back with its id and index, and its tag checks |
| `Wire.OpensIff` | components/ble_broadcast_security_processing_engine/src/key_reconstruction/key_reconstructor.c:261-281 | A fragment opens to a clear one if and only if it is that one masked and the tag is the tag of both; so a fragment whose tag does not check is refused |
| `Wire.DataFrameRoundTrip` | components/core/src/beacon_pdu/beacon_pdu_data.c:39-47 | Every data PDU survives its frame; it fits an advertisement if and only if the payload is at most 22 bytes |
| `Wire.DataFrameComplete` | components/core/src/beacon_pdu/beacon_pdu_data.c:39-47 | A data frame is determined by what parsing reads from it |
| `Wire.DataFrameLayout` | components/core/include/beacon_pdu/beacon_pdu_data.h:28-36 | Every field of a data frame at its offset, 16-bit words low byte first |
| `Wire.KeyFrameRoundTrip` | components/core/src/beacon_pdu/beacon_pdu_data.c:171-174 | Every key PDU survives its 17-byte frame |
| `Wire.KeyFrameComplete` | components/core/src/beacon_pdu/beacon_pdu_data.c:171-174 | A key frame is determined by what parsing reads from it |
| `Wire.KeyFrameLayout` | components/core/include/beacon_pdu/beacon_pdu_data.h:39-44 | Every field of a key frame at its offset |
| `Wire.ReadKinds` | components/core/src/beacon_pdu/beacon_pdu_data.c:49-85 | What a frame is read as goes by its fourth byte alone; one without it is nothing |
| `Wire.ShortKeyFrame` | components/ble_broadcast_security_processing_engine/src/sec_pdu_processing.c:505-526 | A key frame that is too short reads as if zeros followed it |
| `Wire.SessionDataRoundTrip` | components/core/src/beacon_pdu/beacon_pdu_data.c:176-192 | Packing and unpacking id and fragment index |
| `Wire.SessionDataLayout` | components/core/src/beacon_pdu/beacon_pdu_data.c:176-192 | Fragment index in the top two bits, the id's fourteen below, zero for an index that does not fit |
| `Wire.LowSameIff` | components/ble_broadcast_security_processing_engine/internal/key_cache/key_cache.h:12-31 | Two ids share cache slot and collection entry if and only if they agree in their low eight bits |
| `Wire.BuildNonce` | components/core/src/beacon_pdu/beacon_pdu_data.c:123-138 | The buffer holds the nonce of marker, session data and seed, zeros behind |
| `Wire.NonceInjective` | components/core/src/beacon_pdu/beacon_pdu_data.c:123-138 | Different session data or seeds never share a nonce |
| `Wire.NonceLayout` | components/core/src/beacon_pdu/beacon_pdu_data.c:123-138 | Every field of the nonce at its offset, zeros behind |
| `Wire.AdvIntervalBounds` | components/core/src/beacon_pdu/beacon_pdu_data.c:204-220 | Intervals lie in 3000..5000 ms, within half a step of the linear image of the id, and grow with the id |
| `Wire.AdvIntervalIsNearest` | components/core/src/beacon_pdu/beacon_pdu_data.c:204-220 | The interval is the multiple of 80 ms nearest to the id's linear image, halves up, kept within the limits |
| `Crypto.UnmaskMask` | components/core/src/crypto/crypto.c:76-88 | Unmasking undoes masking, for any length and seed |
| `Crypto.MaskUnmask` | components/core/src/crypto/crypto.c:76-88 | Masking undoes unmasking, for any length and seed |
| `Crypto.MaskAt` | components/core/src/crypto/crypto.c:76-81 | Each masked byte is the clear byte XOR the masked byte before it, the first one the seed |
| `Bytes.XorOrDigits` | components/core/src/crypto/crypto.c:76-88 | The byte operators work digit by digit |
| `Crypto.XorEncryptKeyFragment` | components/core/src/crypto/crypto.c:76-81 | The loop computes the chained mask |
| `Crypto.XorDecryptKeyFragment` | components/core/src/crypto/crypto.c:83-88 | The loop computes the chained unmask into a buffer of its own; in place it masks once more |
| `Crypto.JoinSplit` | components/core/src/crypto/crypto.c:22-44 | Joining the fragments of a key gives the key |
| `Crypto.SplitJoin` | components/core/src/crypto/crypto.c:22-44 | Splitting a joined key gives the fragments |
| `Crypto.FragmentBytes` | components/core/src/crypto/crypto.c:22-44 | Byte j of fragment i is byte 4i+j of the key, split or joined |
| `Crypto.SplitKeyToFragments` | components/core/src/crypto/crypto.c:22-32 | The loop computes the fragments |
| `Crypto.KeyFromFragments` | components/core/src/crypto/crypto.c:34-44 | The loop computes the joined key |
| `Crypto.CtrInverts` | components/core/src/crypto/crypto.c:51-74 | Counter mode applied twice is the identity |
| `Crypto.CtrStreams` | components/core/src/crypto/crypto.c:51-74 | A longer text begins with the encryption of its beginning, and zeros encrypt to the keystream byte for byte |
| `Crypto.SecureCompare` | components/core/src/crypto/crypto.c:154-165 | Returns 0 if and only if the two prefixes are equal, 1 otherwise |

## Left out

- Races between tasks: each step (one scan, one authorisation batch, one PDU, one fragment with its
  callback, one drain event) is atomic. In particular a key pointer handed out by the cache cannot be
  overwritten by an eviction on another task before it is used.
- Every step reads the tick counter once; the firmware reads it again at each stamp within a step.
- Processor.PduProcessor.ProcessFrame: excludes data frames shorter than their header, and frames longer
  than 31 bytes (`Wire.WellSized`). The payload length of a short data frame wraps around in `size_t`,
  and the copy that follows would leave every buffer.
- Processor.PduProcessor.HandleEventNewPdu: the same, for the frames waiting.
- KeyCaches.KeyCache.RemoveKeyFromCacheAtIndex: excludes the index equal to the cache size, which
  passes the code's bound check and leaves the array.
- EndToEndDelivery.DeliveredFromPowerUp: one sender, and the phases one after the other (sending, hearing,
  authorising, then each frame with its consequences). Other senders do not matter to its record by
  `ProcessorSpec.SenderIsolation`, nor to its key by `ReconstructorTheorems.SessionsDoNotMix` while their
  sessions fit the collection; other interleavings have the safety of `EndToEnd` only.
- ConsumerTheorems.CompleteKeyEffect: for non-zero ids; what the callback does with id 0 is in
  `Genuine.CompleteKeyOk` and `ConsumerTheorems.AdvanceKeepsOk`.
- BroadcasterTheorems.NumbersIncreaseWithinSession: for calls of which none that falls on a multiple of the
  replacement count is refused.
- EndToEnd.EndToEndSafety: the air carries only frames that senders put on it; forged frames are not
  modelled. It also carries the first frame of each session id, which the sender application suppresses.
- AuthorizeTheorems.VouchesIffJitter: for arrival times that do not run backwards.
- Floating point: intervals and tolerances are exact rationals, truncated or rounded as the code does.
- Widths that cannot matter: the 64-bit packet counter and microsecond clock are unbounded.
- Radio, advertising start and stop, GAP callbacks, serial port, logging, measurements.
- FreeRTOS timing: priorities, delays, time-outs and retries beyond "a full queue loses the element".
- Event bits appear in the classes; in the system state machine a task may run at any time.
- Several registered observers are one log of notifications; the registered callback of the
  reconstructor is a log of completions, and its effect is `KeyReconstructionComplete`.
- AES, SHA-256 and HMAC internals, and the strength of four-byte tags.
- Allocation, creation failures, destroy functions, task creation, null-pointer checks.
- The first sender application, whose schedule is the same but which sets its payload only on a key
  change.
- `update_key_in_cache`, `remove_consumer_from_collection`, `clear_ble_consumer_from_collection` and
  `produce_key_exchange_data` with its getters, which nothing outside their files calls, and
  `remove_lru_consumer_from_collection`, which is a stub.
- The beacon test frames that start and stop a measurement.
