# A verified model of the zero-copy receive pipeline

A publisher stamps, checksums and offers messages. A subscriber thread takes a buffer from a fixed pool,
copies each fragment into it, checks for gaps and duplicates, and hands the pointer through a lock-free
ring to a worker thread, which filters duplicates again, processes the message and returns the buffer. A
checkpoint records how far the subscriber got, so that a restart can replay from there. Settings come from
an INI file. This project models that system in Dafny and proves what it keeps, for every input, every
interleaving and every crash.

| File | Subject |
|---|---|
| Bytes, Wrappers | little-endian words, two's complement, masks as modulo, ring indices |
| Crc32, CheckValues | the table-driven CRC-32 and what errors it detects; its check value and residue |
| MessageFrame | the header layout, validation, the buffer |
| SpscRing, MessageQueues, SPSCQueues | the ring as two threads' atomic steps; the two queue classes |
| BufferPools | the free stack, the pool class, and the pool with exchange and slot access apart |
| Tracking, SeenFilter | gap counters, duplicate window, clearing set, and the two filters composed |
| Pipeline | both threads over pool, ring and buffers, one access to shared memory per step |
| Ownership, Delivery, Counters | what every step of the pipeline keeps |
| Guarantees, Duplicates, QueueBound | what follows for whole runs |
| Progress | what each thread gets done when left alone, from every reachable state |
| Subscribers, Workers, Publishers | the source's objects, with their loops, against the specifications above |
| Checkpoints, Recovery | the record, the manager, and flushing, crashing and restarting as steps |
| CrashLoss | the pipeline fed by a replay, life after life: what crashes lose |
| Text, ConfigFiles | trimming, lines, numbers; the INI reader and the settings printer |

Code that changes state in place is a class or a loop proved against a function; the two-thread behaviour
is a step machine. In Pipeline and SpscRing a run is a schedule, any sequence of thread turns; the turns
interleave sequentially consistently, one atomic load or store each, except that a pool compare-exchange
and the slot access after it are one step. The queue's release and acquire pairs justify the interleaving
there; for the relaxed atomics of the checkpoint it is an assumption. Clock readings, the archive's answer
to a recording lookup, the transport's answer to an offer, file system failures, spurious failures of the
weak exchange, and the value of an uninitialised variable are parameters of the steps. Pool size, ring
size, window and seen-set limit are parameters too. Where a theorem asks for fewer buffers than ring slots
it says so; the source's 1024 and 4096 are such sizes.

## Where the code falls short of its comments

Each of these is proved, with the exact condition or a concrete run.

- The pool calls itself thread-safe for several producers and consumers, but between the exchange and the
  slot access another call can be handed the buffer being returned (`SplitPoolSharesBuffer`,
  `SplitPoolExact`).
- Message number -1 is rejected as a duplicate until the window has filled, because the ring is padded with
  -1 (`RejectedIff`); a frame numbered 2^64 - 1 is such a message (`LargestNumberRejected`).
- The recovered-gap counter balances exactly when every number is above all before it or repeats one of the
  last running maxima; after a step back the same numbers are counted again (`GapAccounting`,
  `DisorderedStream`).
- The worker's comment speaks of clearing the oldest half of the seen set; the code clears all of it, so
  one number more than the limit is enough to let a repeat through (`RepeatAfterClear`), and a repeat is let
  through exactly when that many came in between (`FreshIff`, and `ProcessedIff` for whole runs).
- The receive stamp is written into bytes the checksum covers. A message that was valid is valid afterwards
  for one high half of the stamp in 2^32 (`StampedValidIff`); no frame is with a given clock reading of July
  2022 (`StampSpoilsFrame`).
- A burst that clears the checksum flag itself goes unnoticed (`BurstRejected`), in every frame
  (`FlagBitUnnoticed`).
- The comment on the flusher's four loads speaks of a consistent snapshot. A snapshot read while an update is
  half stored mixes two (`TornSnapshot` is a run), an undisturbed one exactly then (`WholeSnapshotIff`), and
  never by more than one update in one direction (`SnapshotSkew`).
- The checkpoint is updated at hand-off, not after processing, so messages it covers may never have been
  processed when a crash comes, up to the smaller of pool and ring size (`CheckpointRunsAhead`,
  `ReportedAheadBound`, `LossReached`). `NeverProcessedIff` says which messages no process ever processes.
- A sequence number is used up even when the offer fails (`PublishNext`, `RefusedOffersAreGaps`).
- The constant and comment for the magic give its bytes in other orders; the code writes and compares the
  bytes S, E, K, R, and so does the model.

## Model

| member | source | states |
|---|---|---|
| Guarantees.PipelineRefinement | subscriber/src/AeronSubscriber.cpp:375-441 | Every interleaving, pool and ring size: the messages given to processMessage, with the one in hand, are the seen-set filter of what the queue took of the window filter of the fragments that got a buffer, in order and byte for byte |
| Guarantees.RefinementWithRoom | subscriber/src/AeronSubscriber.cpp:375-441 | With a pool smaller than the ring the queue takes everything, and two sequential filters remain |
| Progress.WorkerProgress | subscriber/src/MessageWorker.cpp:91-149 | From every reachable state with the worker between messages and something queued, 12 turns of it alone, or 13 when the message is new, handle exactly the oldest one: popped, filtered, processed if its number is not in the filter, its buffer back on the stack, every counter settled, nothing of the subscriber's touched |
| Progress.PollsEmpty | subscriber/src/MessageWorker.cpp:91-111 | With nothing queued four turns count one empty poll and one sample of depth zero and change nothing else |
| Progress.SubscriberProgress | subscriber/src/AeronSubscriber.cpp:375-441 | From every reachable state with the subscriber between fragments, 2, 6, 8 or 11 turns of it alone have the effect of one call of the fast path: dropped for want of a buffer, as a repeat or for want of room, or published with its bytes and told to the checkpoint |
| Progress.NeverStuck | subscriber/src/AeronSubscriber.cpp:375-441 | Neither thread waits for the other: from every reachable state at most 12 turns of the worker alone bring it between messages, at most 11 of the subscriber alone bring it between fragments |
| Progress.FailedExchangeReloads | subscriber/include/BufferPool.h:96-117 | A compare-exchange that fails, spuriously or because the other thread came first, reloads the count and changes nothing else, in all three loops |
| Progress.WorkerDrains | subscriber/src/MessageWorker.cpp:91-149 | From every reachable state some number of turns of the worker alone empties the queue: everything published is filtered, and every buffer the subscriber does not hold is free |
| Progress.ServesEverything | subscriber/src/AeronSubscriber.cpp:375-441 | For every list of fragments, one buffer and two slots sufficing, a schedule is built that refuses nothing and processes exactly what the two filters let through |
| Guarantees.ProcessedIsFilterOfSent | subscriber/src/MessageWorker.cpp:91-149 | For every pool and ring size what has been processed is the seen-set filter of the published messages the worker is done with; each published message is its fragment as received |
| Guarantees.SentIsSelection | subscriber/src/AeronSubscriber.cpp:396-425 | For every pool and ring size, published is exactly what passes the window and is not refused; only the last to pass can still be on its way |
| Guarantees.SentIsFilterOfReceived | subscriber/src/AeronSubscriber.cpp:396-425 | With a pool smaller than the ring, published plus in flight is exactly what passes the duplicate window |
| Guarantees.ReadAfterHandOff | subscriber/src/AeronSubscriber.cpp:420-436 | A buffer read after it was enqueued still holds the message that was sent in it, whatever the worker has done with it since |
| Guarantees.SentCarries | subscriber/src/AeronSubscriber.cpp:393-397 | Published message i is the i-th published fragment byte for byte but for the receive stamp; the worker's filter goes by bytes 8 to 15, the window and the checkpoint by the same bytes as an int64 |
| Guarantees.CheckpointTold | subscriber/src/AeronSubscriber.cpp:427-437 | The i-th checkpoint update carries the number and position of the i-th published message and the count i + 1; none is missing between messages |
| Guarantees.EveryBufferInOnePlace | subscriber/include/BufferPool.h:91-168 | Every buffer is in exactly one of free stack, queue, subscriber's hand and worker's hand; a full pool never gets a buffer back |
| Guarantees.QueueNeverFull | subscriber/src/AeronSubscriber.cpp:420-425 | With fewer buffers than ring slots no enqueue ever fails |
| QueueBound.NeverFullIff | subscriber/include/MessageQueue.h:107-131 | And only then: the queue can never refuse exactly when the pool is smaller than the ring; otherwise a schedule that makes it refuse is built |
| QueueBound.ReportedAheadBound | subscriber/src/AeronSubscriber.cpp:427-437 | The checkpoint is never further ahead of the worker than the smaller of pool and ring size |
| QueueBound.CheckpointRunsAhead | subscriber/src/AeronSubscriber.cpp:427-437 | And any number up to that can be in the checkpoint with none processed: a schedule is built |
| Duplicates.ProcessedIff | subscriber/src/MessageWorker.cpp:197-218 | In every reachable state: a published message has been processed exactly when the worker is done with it and between every earlier copy and itself the published numbers outgrew the limit |
| Duplicates.RepeatedNeedsClear | subscriber/src/MessageWorker.cpp:197-218 | The places of two processed messages with one number have such an outgrowing between them |
| Duplicates.ProcessedTwice | subscriber/src/MessageWorker.cpp:197-218 | For every pool and ring size, their fragments also stand more than a window apart among those that passed the subscriber's check |
| Duplicates.ProcessedOnce | subscriber/src/MessageWorker.cpp:197-218 | A run that publishes no more distinct numbers than the limit processes each at most once |
| Duplicates.PublishedWhere | subscriber/src/AeronSubscriber.cpp:413-425 | Where each published message stands among the fragments that passed the window |
| Guarantees.SampledDepthExact | subscriber/src/MessageWorker.cpp:92-95 | The depth added to the total is the number of queued messages at the tail load |
| Guarantees.EmptyPollOnlyAfterDrain | subscriber/include/MessageQueue.h:141-162 | The worker finds the queue empty only after taking as many messages as were queued at any earlier moment |
| Counters.CounterConservation | subscriber/src/AeronSubscriber.cpp:384-428 | Both threads between messages: fragments = allocation failures + duplicates + refusals + received; received = dequeued + queued; dequeued = processed + invalid + worker duplicates; allocations - deallocations = PoolSize - available = queued |
| Counters.CountersLagByOne | subscriber/src/MessageWorker.cpp:116-148 | In every state each ledger, the queue's and the pool's included, is out by at most the message each thread has in hand |
| Counters.NothingInvalid | subscriber/src/MessageWorker.cpp:156-195 | validateMessage accepts every message: none is ever counted invalid, all taken are processed, repeats or in hand |
| Ownership.RunOwned | subscriber/include/BufferPool.h:91-168 | The partition of the buffers, with what the threads' positions imply, is kept by every step of every schedule |
| Ownership.ProducerEffect | subscriber/include/MessageQueue.h:107-131 | An enqueue step appends the offered buffer, or refuses at capacity, or changes nothing visible |
| Ownership.ConsumerEffect | subscriber/include/MessageQueue.h:141-162 | A dequeue step removes the oldest buffer, or reports empty when it is, or changes nothing visible |
| Delivery.RunInvariant | subscriber/src/MessageWorker.cpp:91-149 | What buffers, history and counters say about each other, kept by every step of every schedule |
| Delivery.HandIsExclusive | subscriber/include/BufferPool.h:91-121 | A buffer in the subscriber's hand is neither queued nor with the worker |
| SpscRing.RunRefines | subscriber/include/MessageQueue.h:107-162 | One atomic access per step, any interleaving: the pushes, pops and refusals of a run are those of a bounded FIFO of capacity Size - 1; no null is ever handed out |
| SpscRing.QueueRefinesFifo | subscriber/include/MessageQueue.h:68-162 | In particular every run from an empty queue |
| SpscRing.StepRefines | subscriber/include/MessageQueue.h:107-162 | Each single step keeps the ring's invariant and is a move of that FIFO |
| SpscRing.NullSparesLive | subscriber/include/MessageQueue.h:152-156 | Nulling the vacated slot before publishing head touches no entry still to be delivered, nor the slot being filled |
| SpscRing.StoreSparesLive | subscriber/include/MessageQueue.h:121-125 | Storing at a cached tail overwrites no live entry, however stale the head that was read |
| SpscRing.EmptyOnlyAfterPops | subscriber/include/MessageQueue.h:171-175 | A queue of n items cannot answer empty before n dequeues |
| SpscRing.DepthIsExact | subscriber/include/MessageQueue.h:171-175 | The masked index difference is the number of queued items when both indices are read together |
| MessageQueues.MessageQueue.constructor | subscriber/include/MessageQueue.h:68-81 | An empty ring |
| MessageQueues.MessageQueue.Enqueue | subscriber/include/MessageQueue.h:107-131 | Appends exactly when not null and not full; run alone it is the ring's own steps in order |
| MessageQueues.MessageQueue.Dequeue | subscriber/include/MessageQueue.h:141-162 | Removes and returns the oldest entry exactly when there is one; run alone it is the ring's own steps in order |
| MessageQueues.MessageQueue.Size | subscriber/include/MessageQueue.h:171-175 | The number of queued entries, through a 64-bit wrap and a mask |
| MessageQueues.MessageQueue.IsEmpty | subscriber/include/MessageQueue.h:182-185 | True exactly when nothing is queued |
| MessageQueues.MessageQueue.IsFull | subscriber/include/MessageQueue.h:192-196 | True exactly at capacity |
| MessageQueues.MessageQueue.Clear | subscriber/include/MessageQueue.h:270-273 | Forgets the queued pointers and leaves the slots and the statistics as they are |
| MessageQueues.EnqueueRun | subscriber/include/MessageQueue.h:107-131 | The method's effect is that of two or five producer steps of the ring |
| MessageQueues.DequeueRun | subscriber/include/MessageQueue.h:141-162 | The method's effect is that of two or six consumer steps of the ring |
| Bytes.MaskIsModulo | subscriber/include/MessageQueue.h:113 | For a size with Size & (Size - 1) == 0 the mask is the modulo |
| Bytes.AcceptsPowers | subscriber/include/MessageQueue.h:61 | Every power of two passes the queues' size check |
| Bytes.WrapThenMask | subscriber/include/MessageQueue.h:171-175 | The unsigned wrap of t - h is harmless under the mask |
| SPSCQueues.SPSCQueue.Enqueue | subscriber/include/SPSCQueue.h:33-48 | Appends exactly when not full; four producer steps of the value ring |
| SPSCQueues.SPSCQueue.Dequeue | subscriber/include/SPSCQueue.h:52-66 | Removes and returns the oldest item exactly when there is one |
| SPSCQueues.SPSCQueue.Size | subscriber/include/SPSCQueue.h:69-78 | The branching difference is the number of queued items |
| SPSCQueues.SPSCQueue.IsEmpty | subscriber/include/SPSCQueue.h:81-84 | True exactly when nothing is queued |
| BufferPools.BufferPool.constructor | subscriber/include/BufferPool.h:53-68 | All buffers, each once, on the free list |
| BufferPools.BufferPool.Allocate | subscriber/include/BufferPool.h:91-121 | Null exactly when nothing is free; otherwise the top of the stack, reset; no other buffer changes |
| BufferPools.BufferPool.Deallocate | subscriber/include/BufferPool.h:130-168 | Pushes a buffer of this pool, refuses null and foreign ones, leaves the message in it alone |
| BufferPools.BufferPool.Available | subscriber/include/BufferPool.h:175-177 | The number of free buffers |
| BufferPools.SplitPoolExact | subscriber/include/BufferPool.h:96-102 | Exchange and slot access as separate steps, for any count: one allocate against one deallocate behaves as if indivisible exactly when the slots are accessed in the order of the exchanges, or the slot read early happens to hold the buffer returned |
| BufferPools.SplitPoolSharesBuffer | subscriber/include/BufferPool.h:150-156 | A run in which the buffer being returned is both handed out and listed as free |
| Tracking.RejectedIff | subscriber/src/AeronSubscriber.cpp:588-611 | A number is rejected exactly when it is among the last W accepted, or is -1 while the ring still has padding |
| Tracking.WindowAfter | subscriber/src/AeronSubscriber.cpp:603-611 | The ring holds exactly the last W accepted numbers, padded with -1 |
| Tracking.AcceptedSpaced | subscriber/src/AeronSubscriber.cpp:405-417 | Two acceptances of one number are more than W apart |
| Tracking.GapAccounting | subscriber/src/AeronSubscriber.cpp:396-417 | gaps_recovered_ is the span less the accepted and the skipped, plus the stream's disorder; the plain ledger holds exactly when every number is above all before it or repeats one of the last W running maxima; expected_sequence_ is the last accepted number plus 1 |
| Tracking.OrderlyIffAscends | subscriber/src/AeronSubscriber.cpp:558-586 | Those streams are exactly the ones the tracker sees in order, and on them it accepts the running maxima |
| Tracking.Ledger | subscriber/src/AeronSubscriber.cpp:613-646 | Over any stretch of arrivals the expectation's advance and the disorder make up what is accepted, counted as recovered and skipped |
| Tracking.GapsOffStream | subscriber/src/AeronSubscriber.cpp:396-403 | The gap counters read off the stream: an arrival counts as a gap exactly when it jumps past the successor of the last accepted number by at most the tolerance, and a found one adds the numbers in between |
| Tracking.ArrivalCounts | subscriber/src/AeronSubscriber.cpp:396-417 | One arrival's effect on the expected number and the three counters, for any tracker |
| Tracking.DuplicatesCounted | subscriber/src/AeronSubscriber.cpp:405-411 | Over any stretch every arrival is accepted or counted as a duplicate |
| Tracking.DisorderedStream | subscriber/src/AeronSubscriber.cpp:396-414 | 10, 5, 10 counts four recovered messages that no gap contained |
| Subscribers.AeronSubscriber.constructor | subscriber/src/AeronSubscriber.cpp:36-57 | The starting tracker |
| Subscribers.AeronSubscriber.CheckForGaps | subscriber/src/AeronSubscriber.cpp:558-586 | The tracker's gap check |
| Subscribers.AeronSubscriber.IsDuplicate | subscriber/src/AeronSubscriber.cpp:588-601 | The linear search finds a number exactly when the ring holds it and the check is on |
| Subscribers.AeronSubscriber.AddToDuplicationBuffer | subscriber/src/AeronSubscriber.cpp:603-611 | Overwrites the oldest entry and moves on |
| Subscribers.AeronSubscriber.Track | subscriber/src/AeronSubscriber.cpp:396-417 | Steps 4 to 6 of the fast path are one step of the tracker |
| Subscribers.AeronSubscriber.HandleMessageFastPath | subscriber/src/AeronSubscriber.cpp:375-441 | The whole effect of one fragment on tracker, counters, pool, queue and checkpoint, for each of its four outcomes; the buffer queued carries the fragment's bytes and the clock reading |
| SeenFilter.ComposedGuarantee | subscriber/src/MessageWorker.cpp:197-218 | Behind the window: both more than W apart and a clearing in between |
| SeenFilter.FewNumbersPassOnce | subscriber/src/MessageWorker.cpp:200-206 | Up to the limit of distinct numbers, each passes once |
| SeenFilter.RepeatAfterClear | subscriber/src/MessageWorker.cpp:210-215 | One more than the limit, and the first number passes again: the set is cleared whole |
| SeenFilter.RepeatPassesWindow | subscriber/src/AeronSubscriber.cpp:588-601 | A window no larger than the limit does not stop that stream |
| Workers.MessageWorker.CheckDuplicate | subscriber/src/MessageWorker.cpp:197-218 | One step of the seen-set filter on bytes 8 to 15 of the header; a new number on top of a million clears the set |
| Workers.MessageWorker.SendToMonitoring | subscriber/src/MessageWorker.cpp:258-271 | The statistics entry is queued when there is room and dropped otherwise |
| Workers.MessageWorker.Filter | subscriber/src/MessageWorker.cpp:125-134 | What has been processed stays the filter of what has been taken |
| Workers.MessageWorker.Handle | subscriber/src/MessageWorker.cpp:115-148 | One message taken and its buffer given back; processed, counted and reported to the monitor, with its number and its publish and receive times, exactly when its number is new and the monitor's queue has room |
| Workers.MessageWorker.TakeTurn | subscriber/src/MessageWorker.cpp:91-149 | One turn of the loop, empty queue included |
| Workers.MessageWorker.WorkerThreadMain | subscriber/src/MessageWorker.cpp:85-154 | The loop empties the queue from the front, message for message, and gives every buffer back |
| SeenFilter.SetIsEpoch | subscriber/src/MessageWorker.cpp:205-215 | The seen set is the numbers since the limit's last next distinct one, read off the stream |
| SeenFilter.FreshIff | subscriber/src/MessageWorker.cpp:197-218 | A number is let through exactly when between every earlier copy and itself more than the limit of distinct numbers came since the set's last clearing |
| Crc32.TableStepIsBitRun | subscriber/include/MessageBuffer.h:86-89 | One table step is eight steps of the bit-at-a-time division by 0xEDB88320 |
| Crc32.GenerateEntry | subscriber/include/MessageBuffer.h:60-66 | The entry loop computes eight bit steps of its index |
| Crc32.MakeTable | subscriber/include/MessageBuffer.h:68-74 | 256 such entries |
| Crc32.Update | subscriber/include/MessageBuffer.h:86-89 | The table-driven loop is the bit-at-a-time division of all its bits, from any register |
| Crc32.Calculate | subscriber/include/MessageBuffer.h:83-92 | The CRC-32 of IEEE 802.3 of the bytes |
| CheckValues.CheckValue | subscriber/include/MessageBuffer.h:58-92 | The checksum of the digits 1 to 9 is 0xCBF43926: polynomial, initial value, bit order and complement are those of CRC-32 |
| CheckValues.Residue | subscriber/include/MessageBuffer.h:83-92 | Any data followed by the four bytes of its own checksum leaves 0xDEBB20E3 in the register |
| Crc32.BitRunInjective | subscriber/include/MessageBuffer.h:86-89 | Different registers stay different through the same bits |
| Crc32.WindowDetected | subscriber/include/MessageBuffer.h:83-92 | Two bit strings that differ only within 32 consecutive bits leave different registers |
| Crc32.BurstDetected | subscriber/include/MessageBuffer.h:83-92 | So they have different checksums, at any bit offset |
| Crc32.MissedIffPatternDivisible | subscriber/include/MessageBuffer.h:83-92 | Two equally long messages share a checksum exactly when the error pattern alone runs to zero |
| Crc32.PatternDifference | subscriber/include/MessageBuffer.h:83-92 | Two checksums of one length differ by what the error pattern alone runs to |
| Crc32.PairDivisibleIff | subscriber/include/MessageBuffer.h:83-92 | Of 64 error bits the first half determines the only second half that goes unnoticed |
| MessageFrame.ParseLayout | subscriber/include/MessageBuffer.h:107-132 | Writing the packed struct and reading it back loses nothing |
| MessageFrame.LayoutParse | subscriber/include/MessageBuffer.h:107-132 | No byte of the header escapes the fields |
| MessageFrame.HeaderOffsets | subscriber/include/MessageBuffer.h:107-132 | Where every field of the packed struct lies, byte by byte |
| MessageFrame.ValidIff | subscriber/include/MessageBuffer.h:238-267 | Which messages validate() accepts, in bytes: S, E, K, R, a version from 1 to 100, a length of at most 4160 and, with the lowest flag set, the checksum of everything else |
| MessageFrame.CalculateMessageCrc32 | subscriber/include/MessageBuffer.h:289-311 | The CRC-32 of the header with a zeroed checksum followed by the payload |
| MessageFrame.BurstRejected | subscriber/include/MessageBuffer.h:238-267 | After a change of at most 32 consecutive covered bits a valid checksummed message validates exactly when the change clears the checksum flag and leaves the header plausible |
| MessageFrame.AlteredChecksumRejected | subscriber/include/MessageBuffer.h:255-264 | A changed checksum field is always noticed while the flag is set |
| MessageFrame.ErrorPassesIff | subscriber/include/MessageBuffer.h:238-267 | Any error that keeps the length, in the checksum field too: it passes exactly when the header stays plausible and, with the flag set, the covered bits' error runs to the field's |
| MessageFrame.FlagBitUnnoticed | subscriber/include/MessageBuffer.h:254-264 | Every frame still validates with the checksum flag's bit cleared |
| MessageFrame.StampedValidIff | subscriber/src/AeronSubscriber.cpp:394 | A valid checksummed message is still valid with another receive stamp exactly when the high half of the stamps' difference is the remainder of the low half |
| MessageFrame.StampSpoilsFrame | subscriber/src/AeronSubscriber.cpp:394 | No publisher frame validates with the stamp 0x1700000000000000, a clock reading of July 2022 |
| MessageFrame.ByteWindow | subscriber/include/MessageBuffer.h:289-311 | Four consecutive bytes are such a window |
| MessageFrame.StampsCannotBothValidate | subscriber/src/AeronSubscriber.cpp:393-394 | The receive stamp is covered: of all stamps sharing their high half at most one leaves a checksummed message valid |
| MessageFrame.StampKeepsRest | subscriber/src/AeronSubscriber.cpp:394 | The stamp changes the receive time and no other field |
| MessageFrame.CarriesIff | subscriber/src/AeronSubscriber.cpp:393-394 | What the fast path leaves in a buffer, in bytes: the input from byte 64 on, cut at 4096; the first 64 with zeros where there are fewer; and the clock reading in bytes 32 to 39 |
| MessageFrame.FrameRoundTrip | publisher/src/AeronPublisher.cpp:179-213 | A frame stamped in the publisher's order arrives byte for byte with its wire size, every field readable, and validates before the receive stamp |
| MessageFrame.FrameFields | publisher/src/AeronPublisher.cpp:179-213 | Each field of a frame in its own bytes: number, event time and publish time where they belong, the fixed values, the length and the checksum |
| MessageFrame.MessageBuffer.Reset | subscriber/include/MessageBuffer.h:197-202 | A zero header and no payload; in_use is left to the pool |
| MessageFrame.MessageBuffer.CopyFromAeron | subscriber/include/MessageBuffer.h:219-235 | For any length the header is the input's front over what was there, the payload what follows, cut at 4096; after a reset a function of the input alone |
| MessageFrame.MessageBuffer.WireSize | subscriber/include/MessageBuffer.h:205-207 | Header size plus payload in use |
| MessageFrame.MessageBuffer.Validate | subscriber/include/MessageBuffer.h:238-267 | True exactly for valid contents |
| Publishers.AeronPublisher.PublishNext | publisher/src/AeronPublisher.cpp:170-218 | Stamping field by field and filling in the checksum gives the frame of the current number; the number is used up whether or not the offer succeeds |
| Publishers.AeronPublisher.Run | publisher/src/AeronPublisher.cpp:166-222 | Consecutive numbers, one frame each, and a count of those taken |
| Publishers.PayloadFits | publisher/src/AeronPublisher.cpp:195-199 | The text never fills the 256 bytes set aside for it |
| Publishers.PayloadBytes | publisher/src/AeronPublisher.cpp:196-199 | The payload is the text with the number in decimal, in ASCII |
| Publishers.FramesArrive | publisher/src/AeronPublisher.cpp:179-213 | Frame i of the loop is received byte for byte, validates, and is numbered i |
| Publishers.RefusedOffersAreGaps | publisher/src/AeronPublisher.cpp:184 | For a subscriber that gets every taken frame, the numbers counted as recovered and those in skipped gaps are together exactly the offers refused between its first frame and its last |
| Publishers.LargestNumberRejected | subscriber/src/AeronSubscriber.cpp:397-411 | A frame numbered 2^64 - 1 reads as -1 and is rejected by a fresh window |
| Checkpoints.DecodeEncodeRecord | subscriber/src/CheckpointManager.cpp:130-146 | load recovers the written values, whatever follows the record in the file |
| Checkpoints.EncodeDecodeRecord | subscriber/src/CheckpointManager.cpp:185-233 | What load accepts is a record in every byte but the padding |
| Checkpoints.RecordBytes | subscriber/src/CheckpointManager.cpp:130-146 | The file's bytes: P, K, H, C, version 1, two zeros, then number, position, count and time as 64-bit two's complement, lowest byte first |
| Checkpoints.AcceptedIff | subscriber/src/CheckpointManager.cpp:185-233 | A file is accepted exactly when it has at least 40 bytes and opens with that magic and version |
| Checkpoints.CheckpointManager.constructor | subscriber/src/CheckpointManager.cpp:10-28 | Memory holds the file's record, or zeros |
| Checkpoints.CheckpointManager.Load | subscriber/src/CheckpointManager.cpp:185-233 | All four fields are replaced by a readable record, none by anything shorter than 40 bytes or with the wrong magic or version |
| Checkpoints.CheckpointManager.Flush | subscriber/src/CheckpointManager.cpp:105-183 | The file becomes the complete record exactly when there is data and every file operation succeeds, and is as before otherwise; what is left in the temporary file in each case |
| Recovery.CrashSafe | subscriber/src/CheckpointManager.cpp:119-172 | A crash between any two steps, whatever the stream: the file is what it was before the first flush, or one complete record, which load recovers |
| Recovery.SnapshotSkew | subscriber/src/CheckpointManager.cpp:107-112 | Each field of a record comes from the loaded record or an update, a later-read field from one at most one update older than an earlier-read field |
| Recovery.WholeSnapshotIff | subscriber/src/CheckpointManager.cpp:107-112 | In every reachable state an undisturbed read takes all four fields from one update exactly when none is half stored |
| Recovery.TornSnapshot | subscriber/src/CheckpointManager.cpp:53-56 | A run whose snapshot pairs the first message's number with no position and no count |
| Recovery.RunPositionLogged | subscriber/src/CheckpointManager.cpp:143-162 | The file's position is that of the record loaded or of an update made since |
| Recovery.FlushesWholeRecord | subscriber/src/CheckpointManager.cpp:105-172 | Eight undisturbed flusher steps that succeed are one flush: the file becomes the record in memory |
| Recovery.IdleFlush | subscriber/src/CheckpointManager.cpp:114-117 | With nothing stored yet the flusher reads and goes back to sleep, and the state is as it was |
| Recovery.FailedFlush | subscriber/src/CheckpointManager.cpp:122-172 | A file operation that fails ends the flush and leaves the file as it was |
| Recovery.UpdatesWholeRecord | subscriber/src/CheckpointManager.cpp:49-59 | A message presented and four undisturbed stores are one update: the memory becomes its record |
| Recovery.RunLogged | subscriber/src/AeronSubscriber.cpp:427-437 | The updates are the accepted messages of this process, in stream order, with running counts |
| Recovery.DroppedLeaveNoTrace | subscriber/src/AeronSubscriber.cpp:405-411 | Messages the fast path drops move the reading position and nothing else |
| Recovery.PersistedPositionsRise | subscriber/src/CheckpointManager.cpp:49-59 | The position a restart would find never decreases, across any crashes |
| Recovery.RestartCoverage | subscriber/src/main.cpp:360-372 | After any crashes and restarts the messages presented are exactly those from the first start to the furthest point reached |
| Recovery.RestartStarts | subscriber/src/main.cpp:363-372 | The first process, and one that follows a crash anywhere in a run, presents exactly the messages past the stored position when that is positive, and otherwise those past the command line's |
| Recovery.FurthestIsMax | subscriber/src/main.cpp:363-372 | The furthest point in that statement is the largest any process reached |
| Recovery.RestartOverlap | subscriber/src/main.cpp:367-372 | A restart begins no later than the crash point and presents again exactly the messages past the position it starts from |
| Recovery.StartIndexSplits | subscriber/src/main.cpp:367-372 | A replay from a position delivers exactly the messages with later positions |
| CrashLoss.FedInOrder | subscriber/src/AeronSubscriber.cpp:375-425 | A life fed by a replay publishes fragments of the stream in stream order, each once |
| CrashLoss.NextStart | subscriber/src/main.cpp:360-372 | The next life starts within what this one was given, past exactly the published messages the checkpoint had caught up with |
| CrashLoss.NeverProcessedIff | subscriber/src/main.cpp:360-372 | Over any crashes: a fragment no future life sees was processed by none exactly when no earlier life processed it and the one whose crash passed it dropped it, took it for a repeat, or crashed with it unhandled behind the checkpoint |
| CrashLoss.CrashLosesAtMost | subscriber/src/AeronSubscriber.cpp:427-437 | Of the last kind there are at each crash at most as many as the smaller of pool and ring size |
| CrashLoss.LossReached | subscriber/src/AeronSubscriber.cpp:427-437 | And that many are lost by some crash: for every number up to it, a life that publishes a stream of so many, all behind the checkpoint, none ever processed |
| CrashLoss.PassedByOneLife | subscriber/src/main.cpp:367-372 | Every fragment between the first start and the next one was passed by the crash of some life |
| CrashLoss.LifeServes | subscriber/src/AeronSubscriber.cpp:375-437 | And a life need lose nothing: from any start some turns take it through the rest of the stream with everything the two filters let through processed and told to the checkpoint |
| CrashLoss.RunIsFed | subscriber/src/main.cpp:367-372 | Every run of the pipeline is a life fed by a replay of the fragments it took |
| Text.TrimAway | common/src/ConfigLoader.cpp:284-291 | trim removes the blanks around a trimmed string and nothing else |
| Text.TrimSpec | common/src/ConfigLoader.cpp:284-291 | What is left is trimmed, and only blanks are gone |
| Text.LinesUnlines | common/src/ConfigLoader.cpp:246 | Written lines are read back by getline |
| Text.LastLine | common/src/ConfigLoader.cpp:246 | A last line without its newline counts |
| Text.ReadShown | common/src/ConfigLoader.cpp:293-307 | A printed number is read back |
| Text.ReadIntSpec | common/src/ConfigLoader.cpp:293-307 | What stoi and stoll make of a value: space, one sign, digits and then anything; without a digit there is no number |
| Text.ShownInDecimal | common/src/ConfigLoader.cpp:82-104 | Numbers are printed in decimal, the highest digit first |
| Text.ReadInDecimal | common/src/ConfigLoader.cpp:293-307 | And read so |
| ConfigFiles.ParseINI | common/src/ConfigLoader.cpp:234-282 | The loop computes what the lines mean, one after the other |
| ConfigFiles.OnPairLine | common/src/ConfigLoader.cpp:262-277 | A printed key line sets that key of the open section, values with '=' included |
| ConfigFiles.OnKeyLine | common/src/ConfigLoader.cpp:262-277 | Any line with '=' that is no comment and no heading sets a key of the open section, whatever blanks stand around key, sign and value; outside a section it means nothing |
| ConfigFiles.OnHeading | common/src/ConfigLoader.cpp:256-260 | A line in brackets opens the section of that name |
| ConfigFiles.OnOtherLine | common/src/ConfigLoader.cpp:246-266 | Comments and lines that are no heading and hold no '=' mean nothing |
| ConfigFiles.OnSectionLines | common/src/ConfigLoader.cpp:82-104 | Any printed sections parse back to their entries |
| ConfigFiles.PrintedEntries | common/src/ConfigLoader.cpp:82-104 | The closing banner adds only an empty key to the last section; the opening ones add nothing |
| ConfigFiles.NumberField | common/src/ConfigLoader.cpp:293-307 | A key present is parsed in its range, and its failure reported under its name |
| ConfigFiles.LoadFromFile | common/src/ConfigLoader.cpp:114-184 | Defaults, overridden key by key; the first bad number ends the load |
| ConfigFiles.KeysDecide | common/src/ConfigLoader.cpp:114-184 | Which key decides which field: a key the file lacks leaves the default, a key it has decides its own field alone, and loading fails exactly when one of the five numbers is bad |
| ConfigFiles.NumbersDecide | common/src/ConfigLoader.cpp:143-184 | The first bad number, in the order of the sections, is the one reported |
| ConfigFiles.SettingsRoundTrip | common/src/ConfigLoader.cpp:82-104 | Printing, parsing and applying gives back the same settings, whatever the defaults |
| ConfigFiles.RoundTripIff | common/src/ConfigLoader.cpp:114-184 | For all defaults exactly when every string is trimmed and of one line |

## Left out

- Aeron, the Archive client and ReplayMerge: a replay is taken to deliver the recorded stream contiguously
  and in order, with strictly increasing positive positions; the recording lookup is a parameter, and a
  missing archive is the case in which it finds nothing.
- Weak memory orders, cache lines, sleeps, yields, timing and floating-point latencies and utilisations.
- Integer overflow of 64-bit counters and of `message_number + 1`: they are unbounded here. Header fields,
  their int64 readings, the checkpoint's fields and the queue's index difference keep their width.
- Splitting the pool's two halves in the whole pipeline: the pipeline takes each pool call's exchange and
  slot access as one step; the split is studied for one allocate against one deallocate.
- Concurrency inside the classes: each method is proved for an undisturbed call, and the queue methods are
  shown to be the ring's steps in order; the interleavings are the step machines' subject.
- BufferPool.Deallocate: membership in the pool stands for the source's address-range comparison.
- MessageQueue.Size: the value a third thread may see between two loads is not modelled; the consumer's
  sample is, in SampledDepthExact and EmptyPollOnlyAfterDrain.
- Workers.MessageWorker.Handle: the branch that counts invalid messages cannot be taken, since every message
  is accepted, and is modelled only in the step machine (NothingInvalid).
- Workers.MessageWorker.WorkerThreadMain: runs for a given number of turns in place of the running flag;
  what is queued when the flag falls stays queued, as in the source.
- CrashLoss: a crash leaves the file with the position of any update of the life that crashed, or with the
  one it started from; which of them depends on the flusher, whose steps are in Recovery (RunPositionLogged).
- Message type handlers, which are empty, and the user's handler.
- The monitor thread's counter, minimum and maximum, which would only add easy members.
- A second flusher (`forceFlush` has no caller), the destructor's final flush as a separate step, and
  durability across an operating-system crash, for which the source does not sync.
- The fallback to live mode when a replay cannot start, and restarts in live mode.
- Environment overrides, settings validation and the generated templates; settings are loaded up to the
  overrides.
- Console output, option parsing, signals, the logger, recording control and the deprecated replay handler.
