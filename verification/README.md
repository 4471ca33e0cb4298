# TenzorBus: a verified model of the shared-memory ring

TenzorBus is a bounded ring of tensor slots in shared memory with one producer and many
consumers. A slot carries a state word, a sequence number, a header, a payload, and a mask
with one bit for every consumer that still has a claim on it. The producer reserves a slot
under a registry lock, fills it outside the lock, and commits it with one store. Consumers
find, validate, lease and release slots without any lock. Consumers join, leave and die while
this goes on, and a producer may abort or die between reserving and committing.

The project proves the ring's ordering argument, and what is built on it, for all
interleavings, all slot counts and all tensors. `dafny verify dfyconfig.toml` checks it.

## The models and how they connect

**The step model** (`StepRing`) takes every shared load and store as one step. One producer
and up to 64 consumers have program counters, and a run is any interleaving. The producer's
steps follow `reserve_header`, the payload copy, `commit`, `release_slot` and `signal`; a
consumer's follow `next_raw`, `scan_oldest`, `try_take`, `read_validated` and `release`.
Regions under the registry lock exclude each other and never exclude a scan. `StepInvariant` states
what holds in every reachable state; `StepProducer` and `StepConsumer` prove it step by step
as rely and guarantee; `StepTheorems`, `StepCounting` and `StepDelivery` draw the results about
runs. `StepDirect` follows a payload written in place from its reservation to its commit;
`StepProgress` proves that a consumer's own steps always lead to a lease when something is
pending; `StepWitness` and `StepBugs` construct runs that exist. The marks `f`, `f0`, `log`, `unsig`, `late`,
`sent`, `base` and `got` in the step model are ghosts: no step tests them.

**Who a publication is for.** It is for those whose registration its reservation found
(`Recipients`), and the ghost `sent[c]` lists what was so sent to the consumer at entry c,
in the order of the commits. The code knows only masks and marks. `StepDelivery` proves that
the mask always names exactly the recipients among the living; that marks agree with it in
every run without an unsafe abort (below); and that what a consumer leases is then a prefix of
what was sent to it. In a run with an unsafe abort the consumer's own mark can be published to
it, and delivery skips exactly that one.

**The queue** (`BroadcastQueue`) is what the ring is for, without slots: one FIFO and one set
of leases per registered consumer. Every single load or store of the step model is one queue
operation or none. In runs without an unsafe abort a commit appends to the FIFOs of exactly its
recipients (`RingIsABroadcastQueue`); in all runs it appends to those whose mark is below it
(`RingFollowsItsMarks`); `CommitRefinesExactlyWhen` says when the two agree.

**The atomic model** (`RingSpec`) takes each public operation as one transition on a value.
`ProductionRing` performs these transitions in place, with the source's loops over
arrays and with 64-bit wrapping sequence words, and is proved equal to them. `RingResults` has
recovery, refusal and abort; `AtomicQueue` proves that the atomic model refines the *same*
broadcast queue as the step model, in histories of any number of processes; `TwoWriters` shows
what a second open reservation breaks; `Lockstep` proves the atomic model equivalent to the
Python reference ring (`ReferenceSpec`, `ReferenceRing`) on the histories both support.

**Around the ring**: `TenzorCore` (sequence comparison across the wrap), `RegistryMutex` (the
three-state futex mutex), `Strides` and `Layout` (row-major strides, the byte image and its
little-endian header), `PyOwnership` (the Python handles that count exported buffers), `PyRuns`
(these handles in any interleaving with everything else done to the ring) and `Bridge` (the
media engine's sink).

## Hypotheses

The code relies on these. Each is stated where it is used.

* **One writer.** One producer with at most one open reservation. `reserve` takes `&self`, so
  nothing enforces it. The step model has one producer program counter. Without it:
  `TwoWritersLoseAPublication` (the older publication can be taken exactly by a reader that has
  not yet taken the newer) and `TwoWritersLeaveAHole` (a sequence number that is never handed
  out again). The bridge meets it (`Bridge.Decode`).
* **No registration inside an aborted reservation.** A consumer that registers between a
  reserve and its abort takes as its mark the sequence that the abort hands back for reuse. Call
  such an abort unsafe. `AbortIsSafeExactlyWhen`: after an abort a claim can get stuck, with no
  further unsafe abort, if and only if a live consumer's mark is not below the sequence handed
  back, which is to say it was not registered when that was reserved (`MarksNameTheLate`).
  `StuckIsReachable` gives the run, from every fresh ring: the consumer is sent a
  publication it can never take, and its slot stays pinned until it leaves (`StuckForever`). The
  results about recipients need this hypothesis: that everything sent is delivered
  (`EverythingSentIsDelivered`), that the queue's appends go to the recipients
  (`RingIsABroadcastQueue`), that every claim can still be taken (`EveryClaimIsLeasedOrPending`),
  and the atomic model's abort. Complete snapshots, frozen leases, releases that never fail, and
  order and wake-ups for the sequences above a consumer's mark hold in every run.
* **No close under a lease.** A consumer is not closed while it holds a lease, is not used
  after closing, and releases each lease once. `ClosingDropsLeases` shows what follows otherwise
  and when the slot may then be overwritten;
  `ReleaseAgreesExactlyWhen` shows when releasing twice is noticed by both rings.
* **Sequences within 2^63.** Live sequences lie within 2^63 of each other (`Near`, `InReach` in
  `ProductionRing`). `SeqNewerIsOrderExactlyWhen` is the exact range of the comparison: the
  first counter at most 2^63 behind the second and less than 2^63 ahead. The step and atomic
  models use the unbounded counters; `SeqNewerIsOrder`, `WordSucc` and `WordPred` carry every
  comparison and update over to the 64-bit words.
* **Sequentially consistent memory.** Under it the second validation pass of `read_validated`
  refuses nothing that the first accepted (`SecondPassIsImplied`); that pass exists for weaker
  memory. Delivery then rests on the state word, loaded again by the check, and on the rescan;
  `CandidateMayBeUnfinished` and `SinglePassIsNotEnough` are runs in which it would go wrong
  without the one or the other. The order of the stores, mask after sequence and header, gives
  the mask its meaning: a bit stands for one publication whose sequence and header are in place
  (`BitNamesOnePublication`), until its consumer clears it or the producer takes the
  reservation back while WRITING (`BitPinsTheSlot`). The results on delivery do not need that
  order under sequential consistency.

## Choices made in the model

* The mask is the set of its bit positions and `readers` in the atomic model is its number of
  bits. The step model has no `readers` word: there the mask `fetch_and` and the `readers` store
  are separate, so two releases can leave it stale.
* Where an order does not matter the step model allows every order: header words are stored
  and loaded in any order, and the producer may choose any free or unclaimed slot it has seen.
  It may also give up at any time. Results for all runs cover the source's order.
* The publish word is an unbounded counter in the step model.
* An in-place reservation starts with the bytes its slot already holds, as in a release build.
* `docs/PROTOCOL.md:87` says the readers are those registered at commit time. The code captures
  the mask at reservation (`rust/tenzorbus/src/ring.rs:785-815`); the model follows the code.
* The comment at `rust/tenzorbus/src/ring.rs:1377-1378`, that no publication can have happened
  since the reservation, is the one-writer hypothesis.
* The comment at `rust/tenzorbus/src/futex.rs:70-71` promises that a holder killed inside its
  critical section cannot wedge the ring. `RecoversExactlyWhen` proves it while the owner word
  names the holder; a holder killed between winning the word and storing its pid, or between
  clearing its pid and the swap, wedges the lock for good.

## Model

| member | source | states |
|---|---|---|
| StepTheorems.InitialInv | rust/tenzorbus/src/ring.rs:428-461 | a freshly formatted ring satisfies the invariant |
| StepTheorems.StepKeepsInv | rust/tenzorbus/src/ring.rs:749-1199 | every single load or store of the producer, of any consumer, of registration, leaving, reaping and recovery keeps the invariant |
| StepTheorems.RunKeepsInv | rust/tenzorbus/src/ring.rs:749-1199 | so does every interleaving of any length, and the number of slots stays what it was |
| StepTheorems.LeaseIsOnePublication | rust/tenzorbus/src/ring.rs:1075-1128 | in every reachable state a lease is exactly one committed publication: the words read are its header, and the slot is committed, still claimed, and holds that sequence, header and payload |
| StepTheorems.CopyIsVerbatim | rust/tenzorbus/src/ring.rs:944-952 | what publish commits is the tensor it was given, under the sequence it loaded, and that is what the slot holds at commit |
| StepDirect.FillWritesTheByte | rust/tenzorbus/src/ring.rs:1303-1305 | a write of v to byte k of the writer's payload puts v there and changes no other byte, slot or word |
| StepDirect.StampWritesTheTime | rust/tenzorbus/src/ring.rs:1337-1342 | stamping a time sets the timestamp word of the reserved slot and changes nothing else |
| StepDirect.DirectIsWhatWasWritten | rust/tenzorbus/src/ring.rs:1298-1360 | whatever others do between reserve and commit, what is committed has in each byte the last value the caller wrote there or what the slot held, and the header asked for with the last time stamped; the slot then holds exactly that |
| StepDirect.WrittenIsTheLast | rust/tenzorbus/src/ring.rs:1303-1305 | the value meant there is that of the last write to the byte, or the initial one if there was none |
| StepTheorems.LogOnlyGrows | rust/tenzorbus/src/ring.rs:789-814 | over any run the committed publications only grow in number: none is ever changed or lost |
| StepTheorems.LeasedSlotIsFrozen | rust/tenzorbus/src/ring.rs:521-590 | while a lease is out no step of anyone changes its slot's state, sequence, header or payload |
| StepTheorems.ReleaseNeverFails | rust/tenzorbus/src/ring.rs:1175-1199 | in every reachable state a release of a held lease passes both checks, so it never reports a lease violation |
| StepTheorems.ReserveAvoidsClaims | rust/tenzorbus/src/ring.rs:762-790 | when the producer starts rewriting a slot, no live consumer claims it, leases from it or still has to take what is in it |
| StepDelivery.MaskNamesTheRegistered | rust/tenzorbus/src/ring.rs:785-810 | in every run, at a commit the mask names a live consumer if and only if it had registered when the reservation was made; whoever's mark is below the sequence is among them |
| StepDelivery.MarksNameTheRegistered | rust/tenzorbus/src/ring.rs:1033-1039 | without an unsafe abort, a live consumer is in the mask at the commit if and only if its mark is below the sequence, if and only if it had registered at the reservation |
| StepDelivery.MarksNameTheLate | rust/tenzorbus/src/ring.rs:629-632 | without an unsafe abort so far, a live consumer's mark is at or above the open reservation's sequence if and only if it was not registered when that was made |
| StepDelivery.EverythingSentIsDelivered | rust/tenzorbus/src/ring.rs:1147-1160 | without an unsafe abort, what a consumer has leased is, in order, a prefix of the committed publications reserved while it was registered: no gap, repeat or reorder, and every other one still waits in its slot, claimed |
| StepDelivery.DeliveredInOrder | rust/tenzorbus/src/ring.rs:1147-1160 | in every run at all, it is a prefix of those above the consumer's mark |
| StepDelivery.SkipsExactlyWhen | rust/tenzorbus/src/ring.rs:629-632 | once something is leased, delivery has skipped something sent if and only if the consumer's own mark was published to it |
| StepDelivery.StepKeepsRecords | rust/tenzorbus/src/ring.rs:749-1199 | every load or store keeps mask and recipients equal and the record of each live consumer complete above its mark |
| StepTheorems.TakesTheOldest | rust/tenzorbus/src/ring.rs:1048-1064 | the last check of read_validated always succeeds, and what it takes is the oldest publication still pending, even when commits land during the scan |
| StepTheorems.NoLostWake | rust/tenzorbus/src/ring.rs:1150-1166 | a consumer at its futex wait with the publish word unchanged since before its scan has missed no publication above its mark whose signal was completed |
| StepDelivery.NothingSentIsSleptThrough | rust/tenzorbus/src/ring.rs:1150-1166 | without an unsafe abort the same holds of everything sent to it |
| StepTheorems.ClaimsAreActive | rust/tenzorbus/src/ring.rs:505-536 | every mask bit belongs to an active registry entry |
| StepTheorems.NewEntryHasNoClaims | rust/tenzorbus/src/ring.rs:612-663 | a registry entry handed out again inherits no claim |
| StepTheorems.BitNamesOnePublication | rust/tenzorbus/src/ring.rs:789-810 | in every reachable state a slot with a mask bit set is committed and holds its publication whole, or is WRITING for the one reservation with its sequence and header in place |
| StepTheorems.BitPinsTheSlot | rust/tenzorbus/src/ring.rs:789-810 | any step leaves a live consumer's bit with the slot's sequence, except its own release of a committed slot, and an abort or recovery of a WRITING one |
| StepTheorems.SecondPassIsImplied | rust/tenzorbus/src/ring.rs:1099-1113 | once state and sequence have matched, every later check of read_validated succeeds |
| StepProducer.ProducerKeepsRing | rust/tenzorbus/src/ring.rs:789-815 | each producer store keeps the shared-state invariant, among it that a committed slot holds its logged publication and that only the writer's slot is in state WRITING |
| StepProducer.ProducerGuarantee | rust/tenzorbus/src/ring.rs:789-815 | each producer store leaves every live consumer's claimed slots as they are and makes new publications visible to it as claims |
| StepConsumer.EndPassKeeps | rust/tenzorbus/src/ring.rs:1056-1062 | the rescan argument: what survives a second pass over the slots is no newer than anything pending |
| StepConsumer.ScanSeqCandidate | rust/tenzorbus/src/ring.rs:1025-1044 | a sequence read after state and mask is a reserved one, newer than the last taken, and committed unless it was reserved after the pass began |
| StepConsumer.MatchedIsCommitted | rust/tenzorbus/src/ring.rs:1080-1105 | a slot that passed the checks holds, complete, the committed publication of the expected sequence |
| StepInvariant.Stable | rust/tenzorbus/src/ring.rs:1066-1128 | whatever the others do between two loads, everything a consumer has established at its program counter still holds |
| StepCounting.SequencesAreConserved | rust/tenzorbus/src/ring.rs:785-815 | after every crash-free run next_sequence = 1 + publications + open reservation, and the committed sequences are exactly 1..published |
| StepCounting.RunConserves | rust/tenzorbus/src/ring.rs:1346-1395 | commits, aborts, drops and refusals keep that conservation over any crash-free run |
| StepCounting.EveryClaimIsLeasedOrPending | rust/tenzorbus/src/ring.rs:1206-1211 | if no abort hands back a sequence a live consumer registered against, every claim is a lease or still to be taken, so no slot is pinned for ever |
| StepWitness.AbortIsSafeExactlyWhen | rust/tenzorbus/src/ring.rs:1370-1387 | after an abort a stuck claim can be reached, with no further unsafe abort, if and only if some live consumer's mark is at or above the sequence handed back |
| StepWitness.UnsafeAbortSticks | rust/tenzorbus/src/ring.rs:1370-1387 | from any state of the invariant, an abort below or at a live consumer's mark can be continued to a stuck claim |
| StepCounting.ReusedSequenceGetsStuck | rust/tenzorbus/src/ring.rs:629-632 | otherwise the next reservation counts as a reader a consumer whose mark is already that sequence |
| StepCounting.CommitMakesStuck | rust/tenzorbus/src/ring.rs:1037-1039 | and its commit leaves a claim that is neither leased nor takable |
| StepCounting.StuckForever | rust/tenzorbus/src/ring.rs:1037-1039 | which no step but that consumer's leaving removes |
| StepWitness.ReservationCompletes | rust/tenzorbus/src/ring.rs:749-816 | from any reachable idle state with a free or unclaimed slot the stores can be carried through to an open reservation of it with the next sequence, addressed to everyone registered, with every other slot as it was |
| StepWitness.AbortDoes | rust/tenzorbus/src/ring.rs:1370-1387 | the stores of an abort can always be carried through; they free the slot and clear its mask, hand back the sequence, and change nothing else, no other slot |
| StepWitness.StuckIsReachable | rust/tenzorbus/src/ring.rs:629-632 | from every fresh ring, in every slot and for every consumer: reserve, register, abort, reserve, commit ends with the consumer sent exactly one publication that it can never take |
| StepProgress.NextSucceeds | rust/tenzorbus/src/ring.rs:1147-1168 | from every reachable state with something pending for a consumer, wherever it stands, asleep, in a scan or a release, a run of its own steps alone ends in a lease on the oldest |
| StepProgress.OwnStep | rust/tenzorbus/src/ring.rs:1020-1128 | within an attempt a next load of the consumer is always possible and brings the attempt nearer to its end |
| StepBugs.SinglePassIsNotEnough | rust/tenzorbus/src/ring.rs:1050-1062 | on every fresh ring of two slots there is a run in which the best of one pass is committed and claimed, yet not the oldest pending |
| StepBugs.CandidateMayBeUnfinished | rust/tenzorbus/src/ring.rs:1066-1085 | there is one in which the scan's candidate is the slot of an open reservation, its payload not yet written |
| BroadcastQueue.StepRefinesQueue | rust/tenzorbus/src/ring.rs:749-1199 | each load or store of the ring is allowed on the FIFOs as one operation or none and leads to the FIFOs of the new state: with the true recipients if no abort was unsafe, by mark always |
| BroadcastQueue.RunRefinesQueue | rust/tenzorbus/src/ring.rs:749-1199 | hence each run without an unsafe abort is a run of the broadcast queue |
| BroadcastQueue.RingIsABroadcastQueue | docs/PROTOCOL.md:83-93 | every run from a fresh ring without an unsafe abort is a broadcast queue history: commit appends for exactly those registered when it was reserved, next pops, release discards |
| BroadcastQueue.RingFollowsItsMarks | rust/tenzorbus/src/ring.rs:1033-1039 | every run at all is such a history with commit appending for exactly those whose mark is below it |
| BroadcastQueue.CommitRefinesExactlyWhen | rust/tenzorbus/src/ring.rs:629-632 | a commit is the broadcast to its recipients if and only if none of those alive has its mark at the publication |
| BroadcastQueue.CommitPublishes | rust/tenzorbus/src/ring.rs:949-955 | for any set that holds, of the living, exactly those with marks below it, the commit store appends to exactly their FIFOs, after everything queued or leased |
| BroadcastQueue.TakePops | rust/tenzorbus/src/ring.rs:1105-1113 | the final check of read_validated is a pop of the FIFO's head |
| BroadcastQueue.ReleaseDiscards | rust/tenzorbus/src/ring.rs:1183-1190 | the fetch_and of a release discards exactly that lease |
| RingResults.SweepRemovesExactlyTheDead | rust/tenzorbus/src/ring.rs:540-590 | reap_dead frees exactly the entries of the dead, takes exactly their bits off every slot, frees exactly the slots of dead writers, and touches no live claim, sequence or payload |
| RingResults.SweepGoesByPids | rust/tenzorbus/src/ring.rs:540-590 | by process ids alone: an entry stays active if and only if its process is the sweeper or alive, a WRITING slot is freed if and only if its producer is neither and otherwise keeps state, sequence, tensor and the bits of the living, and every other slot keeps its state |
| RingResults.ReservationFallsWithItsMaker | rust/tenzorbus/src/ring.rs:574-586 | a sweep frees a reservation if and only if the process that made it is neither the sweeper nor alive |
| RingResults.SweepLeavesNothingDead | rust/tenzorbus/src/ring.rs:540-590 | after the sweep every active entry, every claim and every WRITING slot is the sweeper's or a live process's |
| RingResults.SweepOnlyFrees | rust/tenzorbus/src/ring.rs:540-590 | reclaimable slots stay so; a slot pinned only by the dead becomes reclaimable, and then a reservation is not refused |
| RingResults.SweepEntries | rust/tenzorbus/src/ring.rs:543-573 | the loop over entries has, after k entries, swept exactly the dead among them, with counters to match |
| RingResults.SweepKeepsSound | rust/tenzorbus/src/ring.rs:540-590 | the sweep keeps masks within the registry, reader counts equal to bit counts and sequences distinct |
| RingResults.RefusedExactlyWhenAllHeld | rust/tenzorbus/src/ring.rs:762-783 | after its sweep a reservation is refused if and only if every slot is being written or claimed by a registered consumer |
| RingResults.SelectionIsUnique | rust/tenzorbus/src/ring.rs:762-783 | the selection rule names at most one slot |
| RingResults.ReserveKeepsSound | rust/tenzorbus/src/ring.rs:785-815 | reserving keeps the atomic invariant |
| RingResults.CommitKeepsSound | rust/tenzorbus/src/ring.rs:949-952 | committing keeps it |
| RingResults.AbortKeepsSound | rust/tenzorbus/src/ring.rs:1370-1387 | aborting, with the sequence handed back, keeps sequences distinct and below the counter |
| RingResults.RegisterKeepsSound | rust/tenzorbus/src/ring.rs:612-663 | registering keeps it, and the entry taken is in no mask |
| RingResults.CloseKeepsSound | rust/tenzorbus/src/ring.rs:1201-1218 | closing keeps it |
| RingResults.ReleaseKeepsSound | rust/tenzorbus/src/ring.rs:1175-1199 | releasing keeps it |
| RingResults.AbortUndoesReserve | rust/tenzorbus/src/ring.rs:1362-1387 | an abort undoes its reservation: same counter, registry and totals, every other slot untouched, and the slot reclaimable again |
| TwoWriters.TwoWritersLoseAPublication | rust/tenzorbus/src/ring.rs:837-843 | with two open reservations and the newer committed first, a reader of both can take the older if and only if it has not yet taken the newer |
| TwoWriters.TwoWritersLeaveAHole | rust/tenzorbus/src/ring.rs:1379-1384 | aborting the older of two while the newer is open or committed leaves a number that no continuation reserves or publishes; aborting newest first returns both |
| TwoWriters.SkippedForever | rust/tenzorbus/src/ring.rs:785-815 | a number the counter has passed and nothing open can hand back is never reserved or published again, whatever is called |
| RingResults.ClosingDropsLeases | rust/tenzorbus/src/ring.rs:1201-1218 | closing under a claim always makes its release a violation, and makes the slot reclaimable if and only if nobody else claims it |
| AtomicQueue.AtomicRingIsABroadcastQueue | docs/PROTOCOL.md:83-93 | every history of reserve, fill, commit, abort, refusal, take, release, subscribe, close and sweep on a fresh ring, by any processes, is a history of the broadcast queue |
| AtomicQueue.RunRefinesQueue | rust/tenzorbus/src/ring.rs:521-1218 | the same from any state that corresponds to some queues |
| AtomicQueue.CallRefinesQueue | rust/tenzorbus/src/ring.rs:521-1218 | each call is its queue operation or none |
| AtomicQueue.CommitPublishes | rust/tenzorbus/src/ring.rs:944-962 | a commit appends its sequence to exactly the boxes its mask names |
| AtomicQueue.TakePops | rust/tenzorbus/src/ring.rs:1147-1160 | one next takes the head of the consumer's FIFO |
| AtomicQueue.NothingMeansEmpty | rust/tenzorbus/src/ring.rs:1154-1161 | finding no candidate means that the consumer's FIFO is empty |
| AtomicQueue.ReleaseDiscards | rust/tenzorbus/src/ring.rs:1175-1199 | a held lease can be released, which gives up that lease and leaves every other box alone |
| AtomicQueue.AbortIsSilent | rust/tenzorbus/src/ring.rs:1362-1387 | an abort with nobody registered since its reservation changes no box |
| AtomicQueue.SweepParts | rust/tenzorbus/src/ring.rs:540-590 | a sweep removes exactly the boxes of the dead |
| AtomicQueue.SweepKeepsTheLiving | rust/tenzorbus/src/ring.rs:543-573 | a box stays if and only if its consumer's process is the sweeper or alive |
| AtomicQueue.GenerationsGrow | rust/tenzorbus/src/ring.rs:633-636 | an entry's generation never goes back and grows whenever it is handed out |
| ProductionRing.Ring.constructor | rust/tenzorbus/src/ring.rs:428-461 | a fresh ring: all slots free, no consumer, next sequence 1 |
| ProductionRing.Ring.ActiveMask | rust/tenzorbus/src/ring.rs:505-517 | the mask read off the registry is the set of active entries |
| ProductionRing.Ring.DropSlotBit | rust/tenzorbus/src/ring.rs:525-533 | one slot loses the bit, its reader count follows, and it tells whether that left it without readers |
| ProductionRing.Ring.DropConsumerBit | rust/tenzorbus/src/ring.rs:521-536 | the loop drops the bit from every slot and reports exactly whether some slot lost its last reader |
| ProductionRing.Ring.ReapConsumers | rust/tenzorbus/src/ring.rs:543-573 | the in-place loop over entries performs the sweep of entries |
| ProductionRing.Ring.ReapWriters | rust/tenzorbus/src/ring.rs:574-586 | the in-place loop over slots frees the slots of dead writers and no other |
| ProductionRing.Ring.ReapDead | rust/tenzorbus/src/ring.rs:540-590 | both together perform the specified sweep on the words in memory |
| ProductionRing.Ring.SelectSlot | rust/tenzorbus/src/ring.rs:762-783 | comparing wrapped 64-bit words, the loop selects the first free slot, else the truly oldest unclaimed one, else none |
| ProductionRing.Ring.ReserveHeader | rust/tenzorbus/src/ring.rs:749-816 | after its sweep it refuses or reserves the selected slot with the next sequence and the mask of active consumers |
| ProductionRing.Ring.WriteHeader | rust/tenzorbus/src/ring.rs:785-815 | the header stores, ending with the counter's wrapping increment, perform the reservation |
| ProductionRing.Ring.CommitSlot | rust/tenzorbus/src/ring.rs:1346-1352 | the commit store and the publication count |
| ProductionRing.Ring.ReleaseSlot | rust/tenzorbus/src/ring.rs:1370-1387 | freeing the slot hands the sequence back exactly when the wrapped comparison means it was the newest |
| ProductionRing.Ring.Reserve | rust/tenzorbus/src/ring.rs:837-909 | one attempt: Invalid exactly for too many dimensions or too many bytes, else a selected slot reserved, else a counted drop or RingFull |
| ProductionRing.Ring.Publish | rust/tenzorbus/src/ring.rs:924-973 | one attempt: Invalid exactly for too many bytes with nothing changed, else the selected slot holds the committed tensor, else a counted drop or RingFull |
| ProductionRing.Ring.Subscribe | rust/tenzorbus/src/ring.rs:612-663 | the first free entry, with a mark one below the next sequence, or refusal exactly when none is free |
| ProductionRing.Consumer.ScanOldest | rust/tenzorbus/src/ring.rs:1020-1046 | one pass returns the truly oldest candidate across the wrap, or none when there is none |
| ProductionRing.Consumer.TryTake | rust/tenzorbus/src/ring.rs:1048-1064 | rescanning then validating still yields that candidate with its tensor |
| ProductionRing.Consumer.ReadValidated | rust/tenzorbus/src/ring.rs:1075-1128 | it accepts exactly a committed slot of the expected sequence addressed to this consumer |
| ProductionRing.Consumer.Next | rust/tenzorbus/src/ring.rs:1147-1168 | one attempt takes the oldest candidate and moves the mark to it, or finds there is none |
| ProductionRing.Consumer.Release | rust/tenzorbus/src/ring.rs:1175-1199 | both error cases in the source's order, else this claim and only this one is given up |
| ProductionRing.Consumer.Close | rust/tenzorbus/src/ring.rs:1201-1218 | the first close drops every claim and the entry; a second does nothing |
| ReferenceSpec.PublishAccounts | src/tenzorbus/ring.py:266-294 | publishing keeps each reader count equal to the number of consumers registered at publish that have not released |
| ReferenceSpec.PublishSparesLeases | src/tenzorbus/ring.py:239-254 | no publication touches a slot that somebody leases, so the lease stands |
| ReferenceSpec.CandidateCountsMe | src/tenzorbus/ring.py:356-359 | every candidate of a consumer still counts it, so the branch that skips a slot without readers is unreachable |
| ReferenceSpec.TakeAccounts | src/tenzorbus/ring.py:337-376 | taking keeps the accounts and makes a lease |
| ReferenceSpec.ReleaseAccounts | src/tenzorbus/ring.py:378-386 | the first release of a lease raises neither error, keeps the accounts and leaves every other lease standing |
| ReferenceSpec.SubscribeAccounts | src/tenzorbus/ring.py:324-335 | registering keeps the accounts |
| ReferenceSpec.CloseAccounts | src/tenzorbus/ring.py:388-394 | closing keeps them, and the consumer count was positive |
| ReferenceRing.LeastPair | src/tenzorbus/ring.py:251-253 | what sorting (sequence, slot) pairs puts first |
| ReferenceRing.SharedTensorRing.constructor | src/tenzorbus/ring.py:196-212 | a fresh reference ring and an empty ledger |
| ReferenceRing.SharedTensorRing.SelectSlot | src/tenzorbus/ring.py:239-254 | the first free slot, else the oldest slot without readers, else none |
| ReferenceRing.SharedTensorRing.Publish | src/tenzorbus/ring.py:256-302 | one attempt: the argument errors exactly, else the selected slot published with the consumer count as readers, else a counted drop or RingFull |
| ReferenceRing.SharedTensorRing.Subscribe | src/tenzorbus/ring.py:324-335 | refused exactly at the maximum, else a consumer of future publications only |
| ReferenceRing.TensorConsumer.Next | src/tenzorbus/ring.py:337-376 | takes the oldest publication newer than its mark, as a lease, and never meets one without readers |
| ReferenceRing.TensorConsumer.Release | src/tenzorbus/ring.py:378-386 | the first release always succeeds and takes one reader off |
| ReferenceRing.TensorConsumer.Close | src/tenzorbus/ring.py:388-394 | the first close lowers the count by one; a second does nothing |
| Lockstep.HistoriesRunInLockstep | src/tenzorbus/ring.py:239-386 | on every close-free, crash-free, abort-free history, each operation by a process of its own, both rings give the same slots, sequences, reader counts, drops, leases and refusals, with readers equal to the mask's bit count after every operation |
| Lockstep.ReferenceFollows | src/tenzorbus/ring.py:239-386 | whatever the mask ring answers and does, the count ring in step with it can do with the same answer |
| Lockstep.ProductionFollows | rust/tenzorbus/src/ring.rs:610-1199 | and the other way round |
| Lockstep.HistoryHasATwin | src/tenzorbus/ring.py:239-386 | for a whole history of the mask ring alone there is one of the count ring with the same answers, in step throughout |
| Lockstep.StepInStep | rust/tenzorbus/src/ring.rs:610-1199 | both rings performing one operation from states in step give the same answer and end in step |
| Lockstep.FreshRingsAreInStep | src/tenzorbus/ring.py:196-212 | two fresh rings are in step |
| Lockstep.ReleaseInStep | src/tenzorbus/ring.py:378-386 | the first release of a lease succeeds on both |
| Lockstep.ReleaseAgreesExactlyWhen | src/tenzorbus/ring.py:378-386 | any release, even a repeated one, succeeds or fails alike if and only if the sequence is stale, the bit is set, or no reader is left |
| RegistryMutex.StepKeepsInv | rust/tenzorbus/src/futex.rs:72-109 | every atomic step of lock and unlock, and a death anywhere, keeps the mutex invariant |
| RegistryMutex.MutexIsSafe | rust/tenzorbus/src/futex.rs:72-109 | in every run, wherever processes die, at most one live process is inside and the word is UNLOCKED exactly when nobody holds the lock |
| RegistryMutex.FreeLockIsTaken | rust/tenzorbus/src/futex.rs:72-88 | with the word UNLOCKED, whoever wants the lock, wherever it stands in the loop and even asleep, gets it by at most four steps of its own, none of them a death or a steal |
| RegistryMutex.UnlockCompletes | rust/tenzorbus/src/futex.rs:103-109 | the holder's own steps lead to UNLOCKED with the owner cleared, and wake exactly one sleeper if the word was CONTENDED and there is one |
| RegistryMutex.SleepersAreNoticed | rust/tenzorbus/src/futex.rs:81-109 | unless somebody dies with a wake-up in hand, a sleeper implies CONTENDED, an awake waiter, or an owed wake |
| RegistryMutex.DeathIsNoticedExactlyWhen | rust/tenzorbus/src/futex.rs:81-109 | any one death keeps that if and only if nobody sleeps, the word is CONTENDED, or another process has the wake-up in hand |
| RegistryMutex.RecoversExactlyWhen | rust/tenzorbus/src/futex.rs:70-101 | after a holder's death another live process can enter again if and only if the owner word names the dead one |
| RegistryMutex.WedgedForever | rust/tenzorbus/src/futex.rs:73-80 | with a dead holder that the owner word does not name nothing ever changes that |
| RegistryMutex.NamelessDeathWedges | rust/tenzorbus/src/futex.rs:76-78 | a holder that dies before naming itself or after clearing its name leaves the lock so |
| RegistryMutex.StealIsFromTheHolder | rust/tenzorbus/src/futex.rs:89-99 | the owner word names the holder or nobody, so a steal takes the lock from the dead holder only |
| RegistryMutex.DyingWaiterForgetsASleeper | rust/tenzorbus/src/futex.rs:81-99 | with four processes there is a run in which the woken waiter dies and another sleeps on behind a word that wakes nobody |
| TenzorCore.SeqNewerIsOrder | rust/tenzor-core/src/lib.rs:313-317 | on counters less than 2^63 apart seq_newer on their 64-bit words is the true order, and equal words mean equal counters |
| TenzorCore.SeqNewerIsOrderExactlyWhen | rust/tenzor-core/src/lib.rs:313-317 | on counters less than 2^64 apart seq_newer on their words is the true order if and only if the first is at most 2^63 behind and less than 2^63 ahead |
| TenzorCore.TooFarApart | rust/tenzor-core/src/lib.rs:313-317 | so 2^63 ahead it is not |
| TenzorCore.WordSucc | rust/tenzorbus/src/ring.rs:813-814 | the wrapping increment is the word of the next counter |
| TenzorCore.WordPred | rust/tenzorbus/src/ring.rs:629-632 | the wrapping decrement is the word of the previous one |
| Strides.Contiguous | rust/tenzorbus/src/ring.rs:195-203 | the loop returns the row-major strides if and only if those fit in 32 bits, whatever the 64-bit product does |
| Strides.ReserveStrides | rust/tenzorbus/src/ring.rs:860-867 | the same loop in reserve, with zeros behind the rank; it stores what the other stores whether the strides fit or not |
| Strides.EveryOffsetIsReached | rust/tenzorbus/src/ring.rs:195-203 | every item-aligned offset inside the tensor is the offset of an index in bounds |
| Strides.OffsetsAreDistinct | rust/tenzorbus/src/ring.rs:195-203 | an index in bounds is recovered from its offset |
| Strides.StridesAreABijection | rust/tenzorbus/src/ring.rs:195-203 | offsets are aligned, below the byte size, and equal only for equal indices |
| Layout.AlignUpIsLeast | rust/tenzor-core/src/lib.rs:289-291 | align_up is the least multiple not below the value |
| Layout.SlotsTileTheMapping | rust/tenzor-core/src/lib.rs:293-311 | slots follow one another without overlap, aligned to 64 bytes, behind the registry and inside total_bytes |
| Layout.SlotsAreDisjoint | src/tenzorbus/protocol.py:61-74 | a byte lies in at most one slot, and never in the global header |
| Layout.DecodeEncode | src/tenzorbus/protocol.py:77-98 | reading a little-endian field gives back what was written |
| Layout.LowBytesFirst | src/tenzorbus/protocol.py:77-98 | byte k of a little-endian field is value / 256^k mod 256 |
| Layout.RustOrderIsDisjoint | rust/tenzorbus/src/ring.rs:789-812 | the fields the Rust producer stores do not overlap and lie in the header |
| Layout.PythonOrderIsDisjoint | src/tenzorbus/ring.py:270-291 | nor do those the Python producer stores |
| Layout.WriteField | src/tenzorbus/protocol.py:81-98 | one field write reads back, its byte k is the k-th base-256 digit of the value, lowest first, and no other byte changes |
| Layout.WriteHeader | src/tenzorbus/ring.py:270-291 | a header written field by field reads back in every field and changes no byte outside the header |
| Layout.WriteSlot | rust/tenzorbus/src/ring.rs:789-948 | header and payload read back and no byte of another slot, of the registry or of the global header changes |
| Layout.WriteTensor | rust/tenzorbus/src/ring.rs:789-948 | from either language's writer each part of the header is in its own field, unused shape and stride words are zero, a consumer decodes exactly the header written, and exactly the payload |
| Layout.DecodesWhatIsThere | src/tenzorbus/ring.py:352-370 | the header decoder recovers the whole header from its fields |
| Layout.CodesRoundTrip | rust/tenzor-core/src/lib.rs:119-151 | dtype codes round-trip and 1..9 are the only codes |
| PyOwnership.ViewsKeepTheHandleOpen | rust/tenzorbus-py/src/lib.rs:614-627 | over every sequence of calls the export counter is the number of views alive; a live view keeps its handle open and finishing refused; without one finishing is granted; a finished handle has no view |
| PyOwnership.FinishesExactlyWhen | rust/tenzorbus-py/src/lib.rs:365-396 | release, commit or abort is granted if and only if no view is alive |
| PyOwnership.PyLease.constructor | rust/tenzorbus-py/src/lib.rs:471-494 | a fresh lease is held and has no view |
| PyRuns.ViewsAreBacked | rust/tenzorbus-py/src/lib.rs:614-691 | over every interleaving of handle calls with everybody's calls on the ring, with the live views as a set of their own: every counter is their number; while a view of a lease is alive its claim is set and its slot is committed with the leased sequence and tensor; while a writable view is alive its slot is in state WRITING |
| PyRuns.EventKeepsInv | rust/tenzorbus-py/src/lib.rs:365-442 | every such call keeps every open handle backed by its claim or reservation, and no two by the same |
| PyRuns.LeaseSurvives | rust/tenzorbus/src/ring.rs:521-590 | any call but the holder's own release or close, or a sweep that finds its process neither itself nor alive, keeps a lease with its sequence, claim and tensor |
| PyRuns.WriterSurvives | rust/tenzorbus/src/ring.rs:574-586 | any call but its own commit or abort, or a sweep that finds its process neither itself nor alive, keeps a reservation |
| PyRuns.CanGiveUp | rust/tenzorbus-py/src/lib.rs:614-627 | an open handle can always release, commit or abort what it stands for |
| PyRuns.FinishTakesEffect | rust/tenzorbus-py/src/lib.rs:365-396 | with a view alive finishing changes nothing; with none a lease clears its own bit, a commit makes its slot COMMITTED, an abort frees it, and no other slot changes |
| PyRuns.ReserveAvoidsViews | rust/tenzorbus/src/ring.rs:762-783 | no slot with a live view can be selected by the producer |
| PyRuns.PublishKeepsClaim | rust/tenzorbus/src/ring.rs:924-973 | a whole publication, with its sweep, leaves every claim of the living and its tensor as they were |
| PyOwnership.PyLease.GetBuffer | rust/tenzorbus-py/src/lib.rs:656-675 | a view is given exactly while the lease is held, for a slot whose claim is set |
| PyOwnership.PyLease.Release | rust/tenzorbus-py/src/lib.rs:614-627 | refused exactly while a view is alive; otherwise spends the handle and gives up exactly this claim, or passes on the ring's error if a close took the claim before |
| PyOwnership.PySlotWriter.constructor | rust/tenzorbus-py/src/lib.rs:237-281 | a fresh writer owns its WRITING slot and has no view |
| PyOwnership.PySlotWriter.GetBuffer | rust/tenzorbus-py/src/lib.rs:417-437 | a writable view is given exactly before the writer is finished, and then its slot is WRITING |
| PyOwnership.PySlotWriter.Commit | rust/tenzorbus-py/src/lib.rs:365-383 | succeeds exactly with no view alive and the writer unfinished, and then the slot is committed |
| PyOwnership.PySlotWriter.Abort | rust/tenzorbus-py/src/lib.rs:386-396 | refused exactly while a view is alive; otherwise gives the reservation back, once |
| Bridge.Producer.Reserve | rust/tenzorbus/src/ring.rs:837-909 | the producer role as the sink sees it: the next sequence, or refusal |
| Bridge.Producer.Abort | rust/tenzorbus/src/ring.rs:1379-1384 | the sequence goes back only if it is the newest |
| Bridge.BusSink.constructor | integration/bridge/src/main.rs:58-75 | a new sink has nothing pending and an empty trace |
| Bridge.BusSink.VideoDestination | integration/bridge/src/main.rs:91-120 | its three answers; a destination given leaves exactly one reservation open and is counted; and the numbering stays consecutive if and only if none was pending before |
| Bridge.BusSink.Record | integration/bridge/src/main.rs:77-87 | a publication is traced once, and first, last and published follow |
| Bridge.BusSink.EpochReady | integration/bridge/src/main.rs:122-168 | which of its four answers comes out; the two legal cases publish exactly the pending slot or a copy in the ring's slot under the next sequence, the others nothing; no reservation is left open |
| Bridge.BusSink.AbortEpoch | integration/bridge/src/main.rs:170-174 | gives a pending reservation back and changes no trace |
| Bridge.Decode | patches/tenzorpipe-v0.3.2-direct-write.patch:598-644 | over every engine run: it succeeds if and only if every picture is fine (no epoch fails to be emitted, none decoded in place is broken, every reservation finds room); success or not, it has published exactly the expected epochs, in order, with consecutive sequences, in the expected slots, copied or in place, and at most one reservation is open |
| Bridge.DecodePicture | patches/tenzorpipe-v0.3.2-direct-write.patch:598-644 | one picture: all of its epochs if it is fine, else those before what goes wrong |
| Bridge.HandOver | patches/tenzorpipe-v0.3.2-direct-write.patch:626-643 | the epochs of a picture handed over as tensors, up to the first without room |
| Bridge.FineRun | patches/tenzorpipe-v0.3.2-direct-write.patch:598-644 | a run of fine pictures is expected to publish all of their epochs |

## Left out

- Memory orderings weaker than sequential consistency, and the `tsan-positive-control` feature: the model has one order of loads and stores.
- The non-atomic dead-owner recovery in `lock`: it reads owner and token and stores owner in separate steps, so load-level mutual exclusion is not kept there. `RegistryMutex` takes it as one guarded step.
- The owner's start token in `RegistryMutex`: processes are unique, so the pid word alone names the owner, and a death between the owner store and the token store counts as named.
- Process liveness and reused pids: "alive" is a set of process ids given to the sweep. Consumer reaping checks the pid alone, so detection of a reused consumer pid is not claimed.
- Deaths inside a region under the registry lock: such regions are all or nothing, and in the step model only a producer outside the lock dies.
- The producer role word and its hand-over between processes (`producer`, `Producer::drop`): the step model has one producer that may die and be recovered from.
- The producer's wait for a reclaimed slot: its futex word is loaded after the failed attempt, so only the time-out bounds a missed wake. One attempt of `publish` and `reserve` is modelled; the loop around it only repeats it.
- The `readers` word in the step model: it can be stale between two concurrent releases, so no equality with the mask is claimed there. It holds in the atomic model.
- The registry's `R_LAST_SEQUENCE`, flags, heartbeats and the registry epoch, which no decision of the modelled code reads.
- Mapping and unlinking of shared memory, ring names, attach-time validation, clocks, timeouts as real time, and the `set_next_sequence`, `snapshot`, `stats` and `reserve_without_commit` hooks.
- The argument checks of `TensorView::new` and the overflow of the element product in `reserve`: a tensor whose size agrees with its header is what `Publish` and `Reserve` start from.
- The debug build's poisoning of a reserved payload.
- NumPy, PyTorch and PyO3 beyond the export counters. CPython's rule that an exported buffer keeps its exporter alive is taken as given; a handle is dropped only without exports.
- Bridge.Producer.Reserve: the ring behind the bridge is reduced to the producer role, which numbers reservations; the slot it picks, or a refusal, is a parameter, and sizes and policies are those of `ProductionRing.Ring.Reserve`.
- The bridge's `corrupt_epoch` and media timestamps.
- Bridge.Decode: it models the loop over decoded pictures, not the decoder, the resizer, or the emitting of `.tenzor` files beyond whether they fail.
- ProductionRing.Consumer.TryTake: in the class nobody else moves during the two passes, so this member shows only the sequential result; the concurrent argument is `StepTheorems.TakesTheOldest`.
- ProductionRing.Ring.ReleaseSlot: it needs the reservation's sequence within 2^63 of the counter, as every comparison of words does.
- `tenzorbus-lab`, the demos, benchmarks, release scripts and the Live Lab.
