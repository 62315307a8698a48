# Ground and satellite data system: a Dafny model

The system connects a ground data station and a satellite through a simulated link. Both ends are
durable state machines that must agree although frames are lost, repeated, reordered and corrupted,
and although processes restart and links are replaced. This project models those machines and proves
what they guarantee.

How the model is built:

- A database transaction is one step; a transaction that raises rolls back and changes nothing.
  Tables are maps, and a refusal is an `Err` value with the kind of error.
- Time is an input of each step, in the unit the program uses. No clock, file, socket or thread is
  modelled; concurrent parts are interleavings of steps.
- SHA-256, CRC-32, the pseudo-random function, JSON parsing and bundle inspection are parameters.
  A theorem that needs one of them to be injective says so.
- Where the program updates objects in place there is a class with the same fields. Its methods are
  proved to do exactly what a function on values does, and the theorems about whole runs are proved
  for that function. Values named `history`, `acted`, `issued`, `delivered`, `sent` or `place` record
  what has happened so that a statement about a run can be made; the program does not have them.

The modules, by area:

| area | modules |
|---|---|
| File transfer | `CfdpChecksum`, `FilePackets`, `IntervalIndex`, `Reassembly`, `ArrivalOrder`, `FileReassembler`, `SendPlan`, `Coordinator`, `FileDownlink`, `Transfer` |
| Command delivery | `OutboxModel`, `OutboxInvariant`, `OutboxSafety`, `OutboxOutcomes`, `OutboxService`, `ProductAdmission`, `BindingFence`, `Journal`, `Satellite`, `Delivery`, `Identities` |
| Counters | `TmAllocator`, `TmCounters` |
| Link and scheduling | `FaultTiming`, `LinkEpochs`, `ComScheduler`, `UdpAdapter` |
| Station services | `Realtime`, `DownlinkLedger`, `RawSegments`, `WorkerClient` |

The main results:

- **File transfer** (`Transfer.EndToEnd`): take any run of the sender that ends in SEND_COMPLETED, deliver its
  START, any of its DATA packets in any order and any number of times, then its END. The receiver ends
  VERIFIED exactly when every chunk arrived and the bundle passes inspection, and then holds the sender's
  file byte for byte. `Transfer.NothingElseVerifies` covers packets from anywhere. `Coordinator.WholeFileIsSent` and
  `Coordinator.CancelEndsCanceled` are the runs that bring the sender to its ends.
- **Command delivery** (`OutboxSafety.EveryRunIsSafe`, `Delivery.DeliveryIsSafe`): the table invariants hold in
  every run; a command is acknowledged only if its satellite has recorded or retired the key; no satellite
  acts twice on a key, but for the crash case below. `OutboxOutcomes` says of each transaction exactly when it takes
  effect and what it leaves, and `Delivery.CommandGetsThrough` that a command which is not lost gets through.
- **Rebinding** (`OutboxSafety`, `BindingFence`): a receipt that names an older link changes nothing, a retired
  spacecraft never has live work again, and a sender's link cannot change while it holds the read fence.
- **Counters** (`TmCounters.LossIsCountedExactly`): inside the half-modulus window acceptance means a larger true
  count, and the reported gaps add up to exactly the frames lost.
- **Link** (`LinkEpochs.DrainFenceHolds`, `FaultTiming.AnyStretchIsBounded`): no DATA of a file attempt is delivered
  after its END or CANCEL, air times are disjoint, and no stretch carries more bits than the bitrate allows.

Where the code does something other than its name or documentation suggests, the code is modelled as it is
and the difference is a lemma:

- FILE traffic can starve, although `docs/gds_satellite_ccsds_simulation_plan.md:426` says that it does not
  (`ComScheduler.FileStarvesUnderIntermittentAcks`). A waiting FILE frame is never picked exactly when every stretch with
  ACK waiting is over before FILE relief and every stretch without ACK has CONTROL waiting and ends within its burst
  (`ComScheduler.FileNeverPickedIff`).
- The tracked master epoch misses the wrap exactly when a gap skips over it (`TmCounters.EpochFollowsUnlessGapWraps`).
- An abort during the cooldown turns a completed send into a failed one; SEND_COMPLETED is reported exactly when
  no abort comes in time (`Coordinator.CompletedIffNotAborted`). A CANCEL frame that the queue refuses is
  dropped, DATA goes on and the attempt never ends SEND_CANCELED (`Coordinator.RefusedCancelResumesData`); it does
  exactly when its CANCEL is accepted in time (`Coordinator.CanceledIffAccepted`).
- A cancel command acts before it is recorded; a further copy acts again exactly when the handler died in between
  (`Satellite.CopyActsAgainIffCrashed`).
- A command that reaches the wrong satellite is recorded there before any lookup, a retired key included: it changes what
  the key answers exactly when no record is there (`Satellite.MisdirectedChangesLookupIff`). The digest leaves the target out, so
  the same command for that satellite would then count as a duplicate (`Satellite.MisdirectedCopyBlocksTheKey`). As request
  keys are issued once, the station never sends it one (`Delivery.MisdirectedBlocksNothing`).
- Rolling back a send attempt drops the receipt of another one exactly when another one is still armed
  (`OutboxSafety.RollbackDropsAckIff`), which a late acknowledgement brings about (`OutboxSafety.TwoAttemptsGetArmed`).
- A pruned product downlink gives its ordinal back. The next request takes a pruned Idempotency-Key exactly when its
  ordinal, or a higher one, has been used before (`ProductAdmission.NextNameMarkedIff`); that happens whenever the latest request
  is pruned, and may happen with a later request still there (`ProductAdmission.NextAfterPruning`,
  `ProductAdmission.EarlierPrunedNameReturns`). Such a request can never be pruned; every other one can once it is finished
  (`ProductAdmission.PrunableIffNameWasNew`).
- An END lost on the link leaves the file attempt draining (`LinkEpochs.LostEndLeavesDraining`). It stays open exactly until an
  END or CANCEL copy of it is delivered or its boot changes (`LinkEpochs.StaysOpenIff`); until then no START gets in, so a
  sender that does not cancel is shut out (`LinkEpochs.LostEndBlocksStart`).
- A result callback that raises is called a second time, with a failure, unless it already had one
  (`WorkerClient.CallbackAtMostTwice`).
- A receipt without a transfer id for a downlink that has none fails on converting a missing value
  (`gds/ledger.py:695-699`); the model has it as an error, which occurs in no other case (`DownlinkLedger.NoTransferYetIff`).

## Model

| member | source | states |
|---|---|---|
| CfdpChecksum.ChecksumAdditive | protocol/file_packet.py:80-96 | the checksum of a file is the sum modulo 2^32 of the checksums of the ranges of any partition, each at its own offset, aligned or not (section 4.2 of CCSDS 727.0-B-5) |
| CfdpChecksum.ComputeChecksum | protocol/file_packet.py:72-96 | the word-by-word loop returns the weighted byte sum of the range, or the error for an offset or size that does not fit |
| CfdpChecksum.BuildWord | protocol/file_packet.py:84-93 | a word buffer holds the bytes of the range at their absolute positions and zeros elsewhere |
| CfdpChecksum.StreamIntegrity | gds/product_store.py:189-219 | one streaming pass over reads of any sizes gives the size, digest and the same checksum as the whole file, or refuses a file over the limit |
| CfdpChecksum.AbsorbChunk | flight/file_downlink.py:68-76 | bytes carried over between chunks never split a word: the checksum so far is that of the largest whole number of words |
| CfdpChecksum.AbsorbTail | flight/file_downlink.py:77-79 | the last partial word counts as if padded with zeros on the right |
| FilePackets.FramingIsBijective | protocol/file_packet.py:56-69 | a byte string decodes to a packet if and only if it is the framing of that valid packet |
| FilePackets.DecodeEncode | protocol/file_packet.py:38-53 | what was encoded decodes to the same packet |
| FilePackets.EncodeDecode | protocol/file_packet.py:41-53 | whatever decodes is the encoding of a valid packet, with no byte left over |
| IntervalIndex.SizeIsCardinality | gds/file_reassembly.py:571-586 | the row lengths add up to the number of covered positions |
| IntervalIndex.CanonicalForm | gds/file_reassembly.py:571-586 | two coalesced tables that cover the same positions have the same rows |
| IntervalIndex.CompleteIffSingleRow | gds/file_reassembly.py:334-345 | the byte count equals the file size if and only if the only row is [0, size) |
| IntervalIndex.TouchingIsBounded | gds/file_reassembly.py:311-322 | an interval of length n touches at most n / 2 + 2 coalesced rows |
| IntervalIndex.FindTouching | gds/file_reassembly.py:311-322 | the overlap query returns exactly the rows that overlap or touch the interval |
| IntervalIndex.HullOfRows | gds/file_reassembly.py:571-573 | the running minimum, maximum and length sum over the touched rows |
| IntervalIndex.Absorb | gds/file_reassembly.py:571-586 | replacing the touched rows by their hull keeps rows disjoint and not adjacent, covers exactly the union, and reports the newly covered count |
| Reassembly.AcceptKeepsInv | gds/file_reassembly.py:407-440 | every accepted packet keeps: covered positions are exactly those of the recorded packets and lie in the file, the counter is their number, terminal epochs hold no metadata, a VERIFIED file has the announced size, checksum, hash and passes inspection |
| Reassembly.CoveredBytesNeverChange | gds/file_reassembly.py:540-589 | a byte once accepted never changes while the epoch is receiving |
| Reassembly.TerminalIsAbsorbing | gds/file_reassembly.py:420-432 | a terminal epoch answers a repeated terminal packet and refuses all others, and never changes |
| Reassembly.VerifiedMeansAnnounced | gds/file_reassembly.py:591-645 | after any packets in any order a VERIFIED epoch handed over a file of exactly the announced size, checksum and hash |
| Reassembly.ReceiveKeepsInv | gds/file_reassembly.py:407-440 | a packet for any epoch keeps every epoch consistent and at most one receiving epoch per spacecraft |
| Reassembly.StationStepKeepsInv | gds/file_reassembly.py:442-466 | packets and inactivity timeouts keep the station invariant and leave terminal epochs as they are |
| Reassembly.StationIsSafe | gds/file_reassembly.py:407-466 | the same over every run of packets and timeouts |
| Reassembly.TimesOutIff | gds/file_reassembly.py:442-466 | over any run in which a receiving epoch gets no packet it is unchanged if and only if every expiry came before its last stamp plus the timeout; otherwise it ends CANCELED for inactivity |
| Reassembly.ChangeIsStamped | gds/file_reassembly.py:407-440 | a packet that changes anything changes its own epoch only and stamps it with its time |
| Reassembly.UnstampedNeverTimesOut | gds/file_reassembly.py:452-457 | an epoch stamped zero never times out unless the station has a clock of its own |
| Reassembly.QuietClosed | gds/file_reassembly.py:442-466 | no expiry touches a closed epoch |
| Reassembly.StartReadIff | gds/file_reassembly.py:101-133 | a START payload is read if and only if it parses, its numbers are in range and both paths are those made from its product, transfer and hash; it is read as announced |
| Reassembly.StartOutcome | gds/file_reassembly.py:468-538 | START opens an epoch if and only if it stands at zero, is readable, names its own spacecraft, has a new key, finds none of that spacecraft receiving, and fits the limit; each refusal and the repeated START are told apart |
| Reassembly.DataAcceptedIff | gds/file_reassembly.py:540-566 | DATA is accepted if and only if its index is from one on, it lies in the file, and it contradicts neither the packet of that index nor a byte there |
| Reassembly.SegmentIs | gds/file_reassembly.py:567-589 | the bytes a packet brings lie where its offset says |
| Reassembly.AcceptedDataAdds | gds/file_reassembly.py:547-589 | a repeated packet changes nothing; a new one adds exactly its bytes and its place |
| Reassembly.EndOutcome | gds/file_reassembly.py:591-645 | END is taken if and only if it comes next, names the end of the file and carries four bytes; the verdict is told from the bytes held: INCOMPLETE with a gap, a checksum or hash or content failure, or VERIFIED |
| Reassembly.CancelOutcome | gds/file_reassembly.py:647-660 | CANCEL is taken if and only if it comes next, and closes the epoch as CANCELED |
| Reassembly.ClosingPacketIsAnswered | gds/file_reassembly.py:420-432 | the packet that closed an epoch is answered again without a change, and any of another kind or index is a conflict |
| Reassembly.UnopenedIsIgnored | gds/file_reassembly.py:413-419 | a packet other than START for an unknown epoch changes nothing |
| Reassembly.StationRunsEpoch | gds/file_reassembly.py:407-440 | in the station an epoch takes its packets exactly as it would alone, and no other epoch is touched |
| FileReassembler.OverlapRanges | gds/file_reassembly.py:311-322 | for DATA of at most 990 bytes the limit of 992 rows is never reached |
| FileReassembler.CompareRow | gds/file_reassembly.py:558-566 | a payload agrees with a row exactly when no staging byte they share differs |
| FileReassembler.OverlapsAgree | gds/file_reassembly.py:556-566 | the comparison over all touched rows succeeds exactly when no overlapped byte differs |
| FileReassembler.CheckOverlap | gds/file_reassembly.py:556-566 | a payload conflicts exactly when it contradicts a byte accepted earlier |
| FileReassembler.PlanStore | gds/file_reassembly.py:567-588 | writing the payload, merging the rows and recording the packet add exactly the payload to the covered bytes |
| FileReassembler.EpochState.DuplicateMatches | gds/file_reassembly.py:547-555 | a repeated sequence index is a duplicate exactly when place, digest and bytes agree |
| FileReassembler.EpochState.Data | gds/file_reassembly.py:540-589 | the in-place DATA handler acts on the epoch exactly as the reference does, errors included |
| FileReassembler.EpochState.NewData | gds/file_reassembly.py:556-589 | a DATA packet with a new index is stored exactly when it agrees with the bytes there |
| FileReassembler.EpochState.NextSequenceIndex | gds/file_reassembly.py:324-332 | the next terminal index is the highest stored index plus one |
| FileReassembler.EpochState.CoverageComplete | gds/file_reassembly.py:334-345 | coverage is complete exactly when every byte has been accepted, and then the staging file is the whole content |
| FileReassembler.EpochState.Close | gds/file_reassembly.py:682-700 | a closed epoch keeps its outcome and drops staging bytes, ranges and packet rows |
| FileReassembler.EpochState.End | gds/file_reassembly.py:591-645 | END in place: refused, INCOMPLETE, CHECKSUM_FAILED with its reason, or VERIFIED, exactly as the reference decides |
| FileReassembler.EpochState.Cancel | gds/file_reassembly.py:647-660 | CANCEL in place closes the epoch exactly when its index is the next one |
| FileReassembler.FilePacketReassembler.Receive | gds/file_reassembly.py:407-440 | a packet changes the station exactly as the reference step does |
| FileReassembler.FilePacketReassembler.Start | gds/file_reassembly.py:468-538 | START opens an epoch, repeats one, or is refused, in the order of the checks |
| FileReassembler.FilePacketReassembler.OtherIsReceiving | gds/file_reassembly.py:479-481 | the busy search finds another receiving epoch of the spacecraft exactly when there is one |
| FileReassembler.FilePacketReassembler.Reconcile | gds/file_reassembly.py:442-466 | the timeout loop closes exactly the stale receiving epochs and reports them |
| SendPlan.PrefixCarries | flight/file_downlink.py:223-254 | the DATA of a plan prefix is that prefix of the bundle |
| SendPlan.WholePlanCarriesBundle | flight/file_downlink.py:223-254 | START, all chunks and END carry the whole bundle |
| SendPlan.PlannedIsValid | protocol/file_packet.py:28-36 | every planned packet passes the packet constructor |
| Coordinator.NextPacketFollowsPlan | flight/file_downlink.py:223-254 | whatever packet is offered is the next one of the plan, or the CANCEL that ends it |
| Coordinator.StableFileOffersPlanned | flight/file_downlink.py:211-254 | with an unchanged file and no cancel request the next packet of the plan is offered |
| Coordinator.CompletionKeepsState | flight/file_downlink.py:295-331 | a completion extends the sent prefix by the leased packet or fails the attempt, and the state says which |
| Coordinator.CompleteKeepsInv | flight/file_downlink.py:295-331 | a completion keeps the run invariant and takes no lease a second time |
| Coordinator.StepKeepsInv | flight/file_downlink.py:156-412 | every call keeps the run invariant |
| Coordinator.RunIsSafe | flight/file_downlink.py:156-424 | in every run the completed packets are a prefix of START, the contiguous chunks and END, or such a prefix ended by CANCEL; SEND_COMPLETED means they carry the bundle; no lease is outstanding in COOLDOWN or afterwards |
| Coordinator.LeaseCompletesOnce | flight/file_downlink.py:295-331 | a lease completes at most once whatever happens in between |
| Coordinator.NoIdStartsTwice | flight/file_downlink.py:156-184 | no transfer id is started twice in a run |
| Coordinator.FinishedStaysFinished | flight/file_downlink.py:333-372 | a finished attempt keeps its outcome until the next start |
| Coordinator.CompletedIffNotAborted | flight/file_downlink.py:333-362 | once END is accepted, an attempt that is over reports SEND_COMPLETED if and only if no abort came before the cooldown ran out |
| Coordinator.AbortDuringCooldownFails | flight/file_downlink.py:333-362 | the failing case: END accepted, then an abort, ends SEND_FAILED with the same packets sent |
| Coordinator.ConcludedIffNotAborted | flight/file_downlink.py:333-362 | once END or CANCEL is accepted, an attempt that is over reports the decided outcome, or SEND_FAILED exactly if an abort came in time |
| Coordinator.CanceledIffAccepted | flight/file_downlink.py:223-372 | an open attempt that is over at the end of a run reports SEND_CANCELED if and only if its CANCEL packet was accepted before any abort, with none before the cooldown was over |
| Coordinator.LostCancelNeverCancels | flight/file_downlink.py:374-412 | with no CANCEL outstanding and none to come an attempt ends only SEND_COMPLETED or SEND_FAILED, whatever follows |
| Coordinator.RefusedCancelResumesData | flight/file_downlink.py:374-412 | a refused CANCEL frame is not offered again: the next frame is DATA, and no run from there ends SEND_CANCELED |
| Coordinator.CancelIsOfferedNext | flight/file_downlink.py:223-254 | in the middle of a transfer a cancel of its id makes the next packet offered the CANCEL behind all packets sent |
| Coordinator.CancelEndsCanceled | flight/file_downlink.py:364-412 | then cancel, reserve, accepted completion and the cooldown end SEND_CANCELED, with the packets sent before it and one CANCEL |
| Coordinator.WholeFileIsSent | flight/file_downlink.py:156-424 | a run: a transfer of an unchanged file whose packets are all taken and accepted ends SEND_COMPLETED, with START, every chunk and END sent |
| Coordinator.NextIsSent | flight/file_downlink.py:223-331 | queued and accepted, the next packet of the plan counts, and the last one starts the cooldown of a completed transfer |
| Coordinator.StartsIff | flight/file_downlink.py:156-184 | a transfer starts if and only if its id is valid and new, none is under way, and the bundle can be read unchanged; it starts with the next attempt number and nothing sent |
| Coordinator.StartRefusals | flight/file_downlink.py:156-184 | which refusal a start gets, told from the id, the state and the bundle |
| Coordinator.OffersIff | flight/file_downlink.py:211-254 | a packet is offered if and only if the gate is open and no look at the file shows another stamp |
| Coordinator.ReservesIff | flight/file_downlink.py:256-293 | a frame is reserved only for the active id with none in flight, under a lease never issued before |
| Coordinator.CountedCompletion | flight/file_downlink.py:295-331 | an accepted packet is counted and the attempt moves to the next one, or to the cooldown its last packet decides |
| Coordinator.UncountedCompletion | flight/file_downlink.py:295-331 | a refused packet, or any while aborting, is not counted; the refusal fails the attempt for that reason |
| Coordinator.AbortEndsFailed | flight/file_downlink.py:333-362 | an aborting attempt with nothing in flight ends SEND_FAILED once the fence is closed and the cooldown over |
| Coordinator.AbortOutcome | flight/file_downlink.py:333-339 | an abort is refused for another id, ignored by a finished attempt, and otherwise shuts the gate for its reason |
| Coordinator.FenceClosesIff | flight/file_downlink.py:341-349 | the abort fence closes if and only if the attempt is aborting and its last buffer is back |
| Coordinator.TicksConclude | flight/file_downlink.py:351-362 | enough ticks end the cooldown in the decided outcome and retire the id |
| Coordinator.TooFewTicks | flight/file_downlink.py:351-362 | with fewer the attempt is not over and only its tick count has moved |
| FileDownlink.FileDownlinkCoordinator.StartTransfer | flight/file_downlink.py:156-184 | the in-place start equals the reference, checks in order, with size, digest and checksum from one streaming pass |
| FileDownlink.FileDownlinkCoordinator.ReserveFrame | flight/file_downlink.py:223-293 | reserves exactly the reference packet under a fresh lease, or nothing |
| FileDownlink.FileDownlinkCoordinator.CompleteFrame | flight/file_downlink.py:295-331 | the callback equals the reference and consumes a lease only once |
| FileDownlink.FileDownlinkCoordinator.AbortTransfer | flight/file_downlink.py:333-339 | abort in place equals the reference |
| FileDownlink.FileDownlinkCoordinator.CloseAbortFence | flight/file_downlink.py:341-349 | the abort fence closes only in ABORTING with no lease outstanding |
| FileDownlink.FileDownlinkCoordinator.TickCooldown | flight/file_downlink.py:351-362 | a tick counts, and at the required number the decided outcome is taken and the id retired |
| FileDownlink.FileDownlinkCoordinator.CancelTransfer | flight/file_downlink.py:364-372 | cancel is requested exactly when the attempt is not over |
| FileDownlink.FileDownlinkCoordinator.FinishCooldown | flight/file_downlink.py:394-396 | the tick loop ends and leaves the decided outcome |
| FileDownlink.FileDownlinkCoordinator.EnqueueNext | flight/file_downlink.py:374-412 | a frame the queue refuses gives its lease back and changes nothing else |
| FileDownlink.FileDownlinkCoordinator.SendAll | flight/file_downlink.py:414-424 | with every packet accepted the attempt sends exactly the plan and completes |
| ArrivalOrder.PacketJoins | gds/file_reassembly.py:540-589 | a DATA packet that contradicts none of those before is accepted, and the epoch then holds exactly what all of them bring |
| ArrivalOrder.HarmoniousArrive | gds/file_reassembly.py:540-589 | after packets that do not contradict each other, of any cut and in any order, bytes, packet table and count are exactly theirs |
| ArrivalOrder.AnyOrderIsTheSame | gds/file_reassembly.py:540-589 | two arrival orders of the same packets, repeated at will, leave the same epoch but for its time stamp |
| Transfer.ChunkArrives | gds/file_reassembly.py:540-589 | a chunk of the plan, new or repeated, is accepted and leaves what receiving the larger set of chunks leaves |
| Transfer.ArrivalsReceive | gds/file_reassembly.py:540-589 | after any arrivals the epoch depends only on the set of chunks that arrived |
| Transfer.FullIffComplete | gds/file_reassembly.py:334-345 | every byte is there if and only if every chunk is, and then the staging file is the bundle |
| Transfer.EndDecides | gds/file_reassembly.py:591-645 | the verdict at END for every set of chunks received |
| Transfer.StartIsUnderstood | flight/file_downlink.py:192-209 | the receiver reads from START exactly what the sender announced |
| Transfer.EndToEnd | gds/file_reassembly.py:407-645 | sender run to receiver verdict: VERIFIED if and only if every chunk arrived and the bundle passes inspection, then with the same bytes; INCOMPLETE and still receiving are decided likewise |
| Transfer.NothingElseVerifies | gds/file_reassembly.py:591-645 | with a hash that separates the files no packets at all can make the epoch verify as another file |
| OutboxInvariant.AdmitKeepsInv | gds/ledger.py:247-429 | admission keeps the table invariant, capacity and one command per Idempotency-Key included |
| OutboxInvariant.PruneKeepsInv | gds/ledger.py:1043-1100 | pruning a finished command keeps the table invariant |
| OutboxInvariant.ClaimKeepsInv | gds/outbox.py:655-768 | a claim keeps the invariant; the claimed row targets the bound spacecraft |
| OutboxInvariant.PrepareKeepsInv | gds/outbox.py:877-1014 | a persisted attempt continues the numbering within the limit and carries the bound link |
| OutboxInvariant.MarkSentKeepsInv | gds/outbox.py:1016-1058 | arming an attempt keeps the invariant |
| OutboxInvariant.MarkNotSentKeepsInv | gds/outbox.py:1060-1127 | giving an unsent attempt back keeps the invariant |
| OutboxInvariant.AttemptNotSentKeepsInv | gds/outbox.py:1247-1268 | marking a stray attempt keeps the invariant |
| OutboxInvariant.RollbackKeepsInv | gds/outbox.py:1129-1245 | rolling back an armed attempt keeps the invariant |
| OutboxInvariant.AckKeepsInv | gds/outbox.py:1382-1490 | ingesting a receipt keeps the invariant |
| OutboxInvariant.ContactKeepsInv | gds/outbox.py:383-497 | a contact change keeps the invariant |
| OutboxInvariant.ReconcileKeepsInv | gds/outbox.py:499-596 | a reconcile keeps the invariant |
| OutboxInvariant.BindKeepsInv | gds/binding.py:195-368 | binding a new session or another spacecraft keeps the invariant, armed attempts on the bound link included |
| OutboxInvariant.StepKeepsInv | gds/outbox.py:383-1490 | every transaction keeps the table invariant |
| OutboxSafety.EveryRunIsSafe | gds/outbox.py:383-1490 | after any transactions: leases exactly in DISPATCHING, deadlines only in SENT, commands and rows finish together, attempts numbered without gaps within the limit, capacity respected, armed attempts of the active spacecraft on the bound link |
| OutboxSafety.FinishedIsAbsorbing | gds/outbox.py:598-622 | no transaction but pruning touches a finished row or its command |
| OutboxSafety.FinishedForGood | gds/outbox.py:598-622 | the same over every run |
| OutboxSafety.OldLinkAckChangesNothing | gds/outbox.py:1425-1462 | a receipt that names any link but the bound one changes nothing |
| OutboxSafety.AckIffSentOnThatLink | gds/outbox.py:1425-1490 | a correlated success receipt acknowledges if and only if the row is SENT and a sent attempt carries exactly its link; otherwise nothing changes |
| OutboxSafety.RollbackDropsAckIff | gds/outbox.py:1129-1245 | a rollback that takes effect drops a receipt that would have acknowledged another attempt if and only if another attempt of the request is armed |
| OutboxSafety.TwoAttemptsGetArmed | gds/outbox.py:553-589 | a run from the empty tables (send, no answer in time, reconcile, send again) that leaves two armed attempts |
| OutboxSafety.RollbackOfOldAttemptDropsAck | gds/outbox.py:1129-1245 | after that run, rolling back the first attempt drops the receipt of the second |
| OutboxSafety.RebindReplaysLiveWork | gds/binding.py:254-278 | a new session leaves each live command pending under its own key with no armed attempt, and nothing else changed |
| OutboxSafety.RetiredStaysQuiet | gds/binding.py:279-338 | a retired spacecraft stays retired and has no live work after any transaction |
| OutboxSafety.RetiredForGood | gds/binding.py:279-338 | the same over every run |
| OutboxSafety.ReconcileClearsOverdue | gds/outbox.py:499-596 | a reconcile leaves nothing overdue and touches only what was |
| OutboxSafety.ReconcileIsIdempotent | gds/outbox.py:499-596 | a second reconcile at the same time changes nothing |
| OutboxSafety.BackoffDoubles | gds/outbox.py:212-219 | the retry delay doubles from attempt to attempt and stops at the cap |
| OutboxSafety.RetryWaits | gds/outbox.py:553-589 | a timed-out command with attempts left stays unfinished and nobody can claim it before its delay is over |
| OutboxSafety.ContactSettlesWork | gds/outbox.py:383-497 | when contact is lost immediate work fails and the rest is held or sent without a deadline; when it opens nothing is held and sent work has a deadline; other spacecraft are not touched |
| OutboxSafety.SameOwnerSameCommand | gds/ledger.py:258-278 | the same principal and Idempotency-Key get the same command back, or a conflict for another body |
| OutboxSafety.ReconcileOutcome | gds/outbox.py:499-596 | what a reconcile leaves of every row, told from the row, its command and the contact: expired ends; a lost lease or missed deadline with attempts left is HELD_NO_CONTACT if and only if it waits for the next contact and there is none, otherwise OUTBOX_PENDING; without attempts left it fails |
| OutboxSafety.LateRowIsClaimedAgain | gds/outbox.py:532-589 | in contact, a row with a lost lease or missed deadline can be claimed by anyone from its due time on after one reconcile |
| OutboxSafety.ForsakenRowIsTakenOver | gds/outbox.py:532-545 | a run from the empty tables: the lease of a silent dispatcher runs out, a reconcile and a claim give the row to another |
| OutboxSafety.ContactIsStored | gds/outbox.py:404-409 | a contact report is stored for its spacecraft and changes no other, nor any link or attempt |
| OutboxSafety.PrunedKeyIsRefused | gds/ledger.py:280-308 | after pruning the retained marker refuses the key until its time is over |
| OutboxOutcomes.ClaimSucceedsIff | gds/outbox.py:655-768 | a claim succeeds if and only if the row is pending, due and unexpired, its spacecraft is the bound one in contact, and the link asked for is the bound one; the row is then leased to the owner and nothing else changes |
| OutboxOutcomes.AttemptPersistsIff | gds/outbox.py:877-1014 | an attempt is persisted if and only if the owner holds a running lease, attempts are left, and the spacecraft is still bound, in contact, on the link of the claim; the limit is reported exactly when none is left |
| OutboxOutcomes.PersistedAttempt | gds/outbox.py:877-1014 | it is the next attempt of its row, on the bound link, and nothing else changes |
| OutboxOutcomes.ArmsIff | gds/outbox.py:1016-1058 | an attempt is armed if and only if the owner holds a running lease and the attempt was persisted; the row then waits until its deadline |
| OutboxOutcomes.GivenBackIff | gds/outbox.py:1060-1127 | the same for giving it back: the row ends if expired and is due at once if not |
| OutboxOutcomes.StrayIsMarkedIff | gds/outbox.py:1247-1268 | a stray attempt is marked if and only if it was persisted and not sent |
| OutboxOutcomes.RollbackTakesEffectIff | gds/outbox.py:1129-1245 | a rollback takes effect if and only if the row is SENT and the attempt armed |
| OutboxOutcomes.RollbackOutcome | gds/outbox.py:1129-1245 | the row is then expired, failed without contact, held, or requeued after its delay, told from row, mode and contact; the attempt counts as not sent |
| OutboxOutcomes.ReceiptIgnored | gds/outbox.py:1382-1462 | a receipt for an unknown request is refused; one for a finished row or another link changes nothing |
| OutboxOutcomes.SuccessAcknowledges | gds/outbox.py:1463-1490 | a success that counts acknowledges row, command and armed attempts, and nothing else |
| OutboxOutcomes.FailureEnds | gds/outbox.py:1463-1490 | any other receipt that counts ends row and command with its code |
| OutboxOutcomes.AnswerDecides | gds/outbox.py:383-1490 | a run from the empty tables: a command sent and answered on its link ends as the answer says |
| OutboxOutcomes.HeldWorkIsClaimed | gds/outbox.py:383-497 | a run: work held for the next contact can be claimed from the moment it opens |
| OutboxOutcomes.GivenBackIsClaimed | gds/outbox.py:1060-1127 | a run: an attempt given back in contact lets anyone claim its row at once |
| OutboxOutcomes.RolledBackIsClaimed | gds/outbox.py:1129-1245 | a run: a send that failed in contact can be claimed again after its delay |
| OutboxOutcomes.StrayIsNotArmed | gds/outbox.py:1247-1268 | an attempt marked as not sent is never armed |
| OutboxOutcomes.AdmittedIff | gds/ledger.py:247-429 | a new command is admitted if and only if its name is free and unmarked, its target not retired, contact as its mode demands, capacity left and its key new; its row starts pending or held |
| OutboxOutcomes.PrunedIff | gds/ledger.py:1043-1100 | a command is pruned if and only if it is finished and its name carries no marker; its row and attempts go, the marker stays for the retention |
| OutboxOutcomes.PrunedNameIsFreeIff | gds/ledger.py:280-308 | a run: after its command is pruned a name can be used for a new one if and only if the retention is over |
| OutboxOutcomes.CapacityHolds | gds/ledger.py:326-337 | in every run no set of unfinished commands is larger than the capacity |
| OutboxOutcomes.ContactLeaves | gds/outbox.py:383-497 | a report of the same contact, and any report for finished or expired rows, leaves them as they are |
| OutboxOutcomes.ContactTimes | gds/outbox.py:383-497 | when contact opens held work is due at once, sent work without a deadline gets one, and the rest keeps its times |
| OutboxOutcomes.ContactTakenIff | gds/outbox.py:383-409 | a contact report is taken if and only if it is about the bound spacecraft |
| OutboxOutcomes.BoundIff | gds/binding.py:195-368 | a binding is taken if and only if its spacecraft is not retired, its link does not go back and the contact of the bound link stays; it is then the bound link |
| OutboxOutcomes.TakeOverOutcome | gds/binding.py:279-338 | when another spacecraft takes over the old one is retired, its live work fails, its persisted attempts are withdrawn, and no other row changes |
| OutboxOutcomes.NewLinkWithdraws | gds/binding.py:254-278 | a new link of the same spacecraft withdraws its persisted and armed attempts and makes its live work due |
| OutboxOutcomes.PlainBindTouchesNothing | gds/binding.py:250-254 | the first binding and a repeated one touch no work |
| OutboxService.Tables.EndRow | gds/outbox.py:598-622 | ends a live row and its unfinished command, and only those |
| OutboxService.Tables.ReconcileRow | gds/outbox.py:515-589 | one row is recovered, retried, expired or given up exactly as it is overdue |
| OutboxService.Tables.JudgeAll | gds/outbox.py:500-596 | the loop judges every live row once and its four counters are the numbers of rows judged each way |
| OutboxService.Tables.ReconcileAll | gds/outbox.py:499-596 | the loop over rows equals the reference reconcile on the whole table |
| OutboxService.Tables.FindSent | gds/outbox.py:1429-1441 | finds a sent attempt on exactly this link when there is one |
| OutboxService.Tables.Acknowledge | gds/outbox.py:1382-1490 | receipt handling in place equals the reference |
| OutboxService.Tables.OldestDue | gds/outbox.py:668-718 | picks a due row, of the asked-for key if one is named, that no other such row precedes, or reports that there is none |
| OutboxService.Tables.ClaimNext | gds/outbox.py:655-768 | reconciles, then leases the first due row on an open link to the owner |
| OutboxService.Tables.Prepare | gds/outbox.py:877-1014 | persists the next numbered attempt or reports which check failed |
| OutboxService.Tables.Arm | gds/outbox.py:1016-1058 | arming in place equals the reference |
| OutboxService.Tables.NotSent | gds/outbox.py:1060-1127 | giving an attempt back in place equals the reference |
| OutboxService.Tables.Rollback | gds/outbox.py:1129-1245 | rollback in place equals the reference |
| OutboxService.Tables.ChangeContact | gds/outbox.py:383-497 | contact change in place equals the reference over all rows |
| OutboxService.Tables.Migrate | gds/binding.py:195-368 | link migration in place equals the reference and names the retired spacecraft |
| OutboxService.Tables.AdmitCommand | gds/ledger.py:247-429 | admission in place: replay, conflict, retained marker, refusals and insert, in the order of the checks |
| OutboxService.Tables.FindOwned | gds/ledger.py:258-266 | the lookup finds the command of a principal and key |
| OutboxService.Tables.Retire | gds/ledger.py:1043-1100 | pruning in place equals the reference and reports how long the name is kept |
| ProductAdmission.DeskStepKeepsInv | gds/ledger.py:437-656 | every transaction, downlink requests and pruning with its cascade included, keeps the tables consistent and all but the latest request of a product finished |
| ProductAdmission.OneLiveRequestPerProduct | gds/ledger.py:494-511 | in every run a product has at most one unfinished downlink request, the one with the highest ordinal |
| ProductAdmission.FreshIffAllFinished | gds/ledger.py:484-621 | a wish makes a new request if and only if the product has none, or a retry is wished and all are finished; otherwise the latest is named and nothing changes |
| ProductAdmission.RefusedIff | gds/ledger.py:484-560 | which refusal a wish gets, told from the requests of the product, its spacecraft, contact, capacity, key and name, in that order |
| ProductAdmission.FreshDownlinkIs | gds/ledger.py:484-640 | a new request is the next ordinal of its product, under the name of that ordinal, and its row starts as mode and contact say |
| ProductAdmission.EmptyDesk | gds/ledger.py:494-511 | the start of every run satisfies the invariants of requests and names |
| ProductAdmission.DeskRunKeepsNames | gds/ledger.py:494-511 | in every run below an ordinal used for a product all are used: still there or pruned |
| ProductAdmission.NextNameMarkedIff | gds/ledger.py:494-511 | a new request takes the name of a pruned one if and only if a name of the product with its ordinal or a higher one has been used before |
| ProductAdmission.NextAfterPruning | gds/ledger.py:494-511 | after a request is pruned the next one takes a pruned name whenever no higher ordinal remains, and exactly then if no name above the latest request had been used |
| ProductAdmission.EarlierPrunedNameReturns | gds/ledger.py:494-511 | without that condition not: with the latest of three pruned first, its name comes back although the second remains |
| ProductAdmission.PrunableIffNameWasNew | gds/ledger.py:1043-1100 | over every run a finished request can be pruned if and only if its name was not that of a pruned one when it was made |
| ProductAdmission.ReadmittedCannotBePruned | gds/ledger.py:1075-1089 | the failing input: after the first and only request has been pruned the next one carries the same name, and pruning it fails for good |
| ProductAdmission.BlockedForGood | gds/ledger.py:1075-1089 | a pruned name stays marked, and its new command stays, through every run without an admission under that name |
| ProductAdmission.DownlinkDesk.FindLatest | gds/ledger.py:494-504 | the lookup finds the existing request with the highest ordinal |
| ProductAdmission.DownlinkDesk.AdmitProductDownlink | gds/ledger.py:437-656 | admission in place equals the reference, checks in order |
| BindingFence.FenceStepKeepsInv | gds/binding.py:69-111 | readers are counted, a writer changes tables only with no reader left, and the published binding is the recorded one outside a migration |
| BindingFence.ClosedStation | gds/binding.py:42-46 | empty tables with nothing published and nobody inside satisfy the invariant |
| BindingFence.ReadersSeeTheBoundLink | gds/binding.py:69-101 | at every moment of every run every held read is of the published and recorded link |
| BindingFence.HeldLinkIsStable | gds/binding.py:69-101 | while a read is held neither the published nor the recorded link changes |
| BindingFence.WaitingWriterAdmitsNoReader | gds/binding.py:73-101 | once a writer waits no read begins |
| BindingFence.SendArmsBoundLink | gds/outbox.py:1270-1300 | a send inside the fence arms an attempt on exactly the link of the held read |
| BindingFence.ReadBeginsIff | gds/binding.py:69-84 | a read begins if and only if no migration waits or runs and the published binding is the one asked for |
| BindingFence.SendArmsIff | gds/outbox.py:1270-1300 | a send reaches the tables if and only if its read holds the row's spacecraft, the lease is running and the attempt was persisted |
| BindingFence.ReadsDrain | gds/binding.py:85-101 | behind a waiting writer the running reads leave in whatever order, and none is left |
| BindingFence.MigrationCompletes | gds/binding.py:182-193 | a run: once the running reads leave, the new binding is recorded and published, the replaced spacecraft is published no more, all others stay, and a read of the new binding begins |
| BindingFence.RefusedMigrationChangesNothing | gds/binding.py:90-101 | a migration the tables refuse opens the fence and leaves all as it was |
| Journal.RowsAreDetermined | flight/journal.py:263-283 | tables with the same meaning have the same rows: the order of compaction leaves no trace |
| Journal.SatelliteJournal.LookupRequest | flight/journal.py:201-217 | answers NEW, DUPLICATE, CONFLICT or RETIRED exactly as a map of records and a set of retired keys would |
| Journal.SatelliteJournal.RecordCommand | flight/journal.py:285-299 | inserts a new record, or fails and changes nothing |
| Journal.SatelliteJournal.CompactRequest | flight/journal.py:219-283 | a terminal record becomes one retired id: the ranges stay disjoint and maximal and cover exactly that id more |
| Journal.InSomeRow | flight/journal.py:209-216 | the range query succeeds exactly when some row contains the id |
| Satellite.HandleRemembers | flight/cloud_payload.py:234-282 | handling a command forgets no key |
| Satellite.ResponseMeansSeen | flight/cloud_payload.py:244-282 | whoever is answered can rely on the key being recorded or retired |
| Satellite.HandleKeepsOnce | flight/cloud_payload.py:234-282 | handling keeps: a key is acted on twice only if its first execution was a cancel command |
| Satellite.HandleKeepsConfig | flight/journal.py:325-357 | configuration identities advance by exactly one per commit |
| Satellite.IndexAdvancesByOne | flight/journal.py:341-346 | the successor identity is the next one, across the revision wrap |
| Satellite.ActsAtMostOnce | flight/cloud_payload.py:234-282 | over any deliveries and compactions at most one execution per key, cancel commands apart, and at most one commit per configuration identity |
| Satellite.ConfigChangesIff | flight/journal.py:325-357 | the configuration changes if and only if a configuration command for this satellite under a new key fits the specification and names the current identity, which has a successor; it is then that successor with the thresholds of the command |
| Satellite.OneCommitPerIdentity | flight/journal.py:325-357 | over any deliveries and compactions, of the acted commands that name one configuration identity at most one commits |
| Satellite.NewCommandOutcome | flight/cloud_payload.py:244-311 | a command under a new key is executed, recorded and accepted if and only if the conditions of its opcode hold, otherwise recorded as rejected and refused |
| Satellite.CodesAreDistinct | protocol/schemas.py:33-42 | each assigned opcode is recorded under a code of its own |
| Satellite.SeenCommandOutcome | flight/cloud_payload.py:252-282 | under a seen key nothing changes: a copy gets the recorded result, another command CONFLICT, a retired key RETIRED |
| Satellite.MisdirectedOutcome | flight/cloud_payload.py:242-250 | a command for another satellite is recorded as rejected, or dropped when its key has a record |
| Satellite.CopyGetsTheSameResult | flight/cloud_payload.py:252-282 | whatever is handled in between, a copy sent before its key is compacted gets the result of the first answer, and nothing is done |
| Satellite.RecordStays | flight/journal.py:219-243 | a record stays as it is until its key is compacted |
| Satellite.CompactableIff | flight/journal.py:219-243 | a record is compacted if and only if it is final, and a dispatched one only with its related work over; its key stays seen |
| Satellite.WithoutCrashesStrictlyOnce | flight/cloud_payload.py:427-460 | if no cancel handler dies between acting and recording, no key is acted on twice |
| Satellite.CopyActsAgainIffCrashed | flight/cloud_payload.py:427-460 | a further copy acts again if and only if the first was a new cancel command whose handler acted and died before recording |
| Satellite.CrashedCancelActsTwice | flight/cloud_payload.py:427-460 | the failing case: the cancel is executed twice |
| Satellite.MisdirectedChangesLookupIff | flight/cloud_payload.py:242-250 | a command with another target changes the answer to a later lookup of its key if and only if no full record of it is there; the answer is then DUPLICATE or CONFLICT as the digests agree or not |
| Satellite.MisdirectedCopyBlocksTheKey | protocol/schemas.py:432-441 | the same command under another target has the same digest: the right copy is then answered as a duplicate with the refusal, and not executed |
| Satellite.CloudPayload.RecordOutcome | flight/cloud_payload.py:222-232 | records the outcome or reports that the key was there |
| Satellite.CloudPayload.ApplyConfig | flight/journal.py:325-357 | compares and swaps the configuration together with its record, or records the rejection |
| Satellite.CloudPayload.HandleCommand | flight/cloud_payload.py:234-311 | target check, lookup and execution in place equal the reference |
| Delivery.OnlyReceiptsAcknowledge | gds/outbox.py:383-1300 | no other transaction makes a row acknowledged |
| Delivery.ReceiptAcknowledgesItsKey | gds/outbox.py:1382-1490 | a receipt can acknowledge only its own key at its own source |
| Delivery.FreshWorld | flight/cloud_payload.py:43-119 | empty tables and satellites that have done nothing satisfy the invariant of the whole system |
| Delivery.WorldStepKeepsInv | flight/cloud_payload.py:244-282 | every step of station, link and satellites keeps receipts and acknowledgements honest |
| Delivery.DeliveryIsSafe | flight/cloud_payload.py:244-282 | under any interleaving a command is acknowledged only if its satellite recorded or retired the key, and acted on at most once, cancel commands apart |
| Delivery.CommandGetsThrough | flight/cloud_payload.py:234-311 | a run from a fresh world: a command that is admitted, sent, delivered and answered is executed once if and only if its conditions hold at its satellite, and is then acknowledged on the ground; otherwise it fails with the code of the answer |
| Delivery.CompactedCopyIsRefused | flight/cloud_payload.py:252-282 | a run: once a final record is compacted a further copy is refused and nothing is done |
| Delivery.RunKeepsOneTarget | gds/ledger.py:337-345 | while keys are issued once, all commands on the air under one key name one target, in every run |
| Delivery.MisdirectedBlocksNothing | flight/cloud_payload.py:242-250 | so a misdirected copy blocks no command: none for that satellite under its key is ever on the air |
| Delivery.FreshWorldHasOneTarget | gds/ledger.py:337-345 | the start of every run satisfies the condition on targets |
| Identities.FreshIsFree | gds/request_keys.py:55-76 | a drawn value is unused, and failure means that all draws were used |
| Identities.IdStepKeepsInv | gds/request_keys.py:78-260 | initialization, allocation and rotation keep ids within their namespace and one namespace active |
| Identities.KeysNeverRepeat | gds/request_keys.py:175-260 | no request key is issued twice across exhaustion, rotation and retirement, and unfinished commands share the active namespace |
| Identities.SetUpPassesIff | gds/request_keys.py:122-146 | an allocator that was set up passes unchanged if and only if its namespace is on record under its epoch, draining exactly when used up; anything else is corrupt |
| Identities.FirstUse | gds/request_keys.py:86-121 | the first use takes the first epoch drawn and a namespace other than it, with all ids left, and fails exactly when every draw was that epoch or namespaces are left over |
| Identities.RotatesIff | gds/request_keys.py:208-260 | the namespace is replaced if and only if it is used up, none of its commands is unfinished and a draw is unused; it alone is retired |
| Identities.NextIdIsTaken | gds/request_keys.py:175-197 | keys of a namespace come in the order of their ids, and the last one leaves it draining |
| Identities.FirstKeyIsIssued | gds/request_keys.py:86-197 | the first key of all is id 1 of the namespace set up for it |
| Identities.LastOneOutOpensTheNext | gds/request_keys.py:175-260 | a run: a used-up namespace issues nothing while one of its commands is unfinished, and then the next key is id 1 of a new namespace |
| Identities.RequestKeyAllocator.NewUnique | gds/request_keys.py:55-76 | the draw loop returns the first unused of at most 128 draws |
| Identities.RequestKeyAllocator.InitializeIfNeeded | gds/request_keys.py:78-146 | sets up the first namespace, accepts a sound state, or reports corruption |
| Identities.RequestKeyAllocator.RotateIfDrained | gds/request_keys.py:208-260 | an exhausted namespace is replaced only when none of its commands is unfinished |
| Identities.RequestKeyAllocator.AllocateKey | gds/request_keys.py:175-197 | one allocation in place equals the reference and rolls back on refusal |
| Identities.CountsNeverRepeat | gds/sequence.py:78-169 | across rollover and reset the (epoch, sequence) pairs of one APID only go up |
| Identities.ResetStartsOver | gds/sequence.py:130-169 | after a reset the counts start at zero in the next epoch; in the last epoch it is refused and changes no count |
| Identities.TcSequenceRow.AllocateSequence | gds/sequence.py:78-128 | the row gives out the next pair in the unending count, or refuses at the last epoch |
| Identities.TcSequenceRow.ResetSequence | gds/sequence.py:130-169 | a reset starts a new epoch at zero, or refuses at the last epoch |
| TmAllocator.DrawCounts | flight/journal.py:394-424 | the n-th value drawn stands for n - 1: epoch times modulus plus value |
| TmAllocator.DrawnInSequence | flight/journal.py:394-424 | values drawn in a row skip and repeat nothing |
| TmAllocator.Consume | flight/journal.py:394-424 | taking a value of one counter advances that counter by one and no other |
| TmAllocator.TmCounterTables.AllocateFrame | flight/journal.py:457-521 | packet, master and virtual counts advance together by one, or nothing changes |
| TmCounters.AdvanceIsTrue | gds/tm.py:206-217 | within half a modulus the wrapped comparison is right: ahead exactly when the true count is larger, and the gap is the number of missing counts (sections 4.1.2.5 and 4.1.2.6 of CCSDS 132.0-B-2) |
| TmCounters.NoCopyAcceptedTwice | gds/tm.py:278-292 | no copy of a frame is accepted twice, whatever arrives in between |
| TmCounters.OldLinksAreRefused | gds/tm.py:294-342 | after a frame of one link no frame of an older link of that source is accepted |
| TmCounters.ObserveIsTrue | gds/tm.py:344-413 | a frame in the window is accepted if and only if it was drawn after the last accepted one of its channel, and its three gaps are exact |
| TmCounters.ObserveKeepsTruth | gds/tm.py:415-560 | the tables keep holding the counts of the last accepted frames |
| TmCounters.LossIsCountedExactly | gds/tm.py:235-560 | over any run in the window one plus the gap, summed over the accepted frames of a channel, is the distance of the true counts |
| TmCounters.RunKeepsTruth | gds/tm.py:235-560 | the tables keep holding the counts of the last accepted frames over every run |
| TmCounters.LossFromTheStart | gds/tm.py:235-560 | the same from the empty ledger on: the sum is the true distance of the last accepted frame from the first |
| TmCounters.FileGapsAddUp | gds/tm.py:489-554 | over any run the highest file sequence index moves by exactly one per frame that moved it plus the reported file gaps, and never goes back |
| TmCounters.EpochFollowsUnlessGapWraps | gds/tm.py:415-420 | the tracked master epoch follows the true one on an accepted frame if and only if the frame is not a gap that skips over the wrap |
| TmCounters.VirtualEpochFollows | gds/tm.py:415-420 | the same of the virtual channel epoch |
| TmCounters.PacketEpochFollows | gds/tm.py:415-420 | the same of the packet epoch of each stream |
| TmCounters.StatusIsTrue | gds/tm.py:344-413 | inside the window the reported status is the true one: duplicate, stale, gap, rollover or in order as the true counts say, baseline for a first frame |
| TmCounters.NotedCopyOutcome | gds/tm.py:278-292 | a copy noted before changes nothing and is a duplicate, or a conflict if its bytes differ |
| TmCounters.LinkRefusedIff | gds/tm.py:294-342 | a new frame is refused for its link if and only if its generation is older, or its session another one of the same generation |
| TmCounters.FramesAreNoted | gds/tm.py:294-560 | every frame with an outcome is noted with it, refused ones included |
| TmCounters.RefusedAltogetherIff | gds/tm.py:415-420 | the whole transaction is refused if and only if an otherwise accepted frame rolls over a count that is in its last epoch |
| TmCounters.TmCounterLedger.ObserveFrame | gds/tm.py:235-560 | one observation in place equals the reference; an exhausted epoch rolls back |
| FaultTiming.DrawIsInRange | link_sim/fault_model.py:168-189 | a bounded draw lies below its bound |
| FaultTiming.DrawBoolIsMonotone | link_sim/fault_model.py:138-166 | rate zero never happens, the full rate always, and a higher rate never happens less |
| FaultTiming.DrawBoolIsExact | link_sim/fault_model.py:138-166 | of the 2^64 draws as many count as the rate says, rounded down |
| FaultTiming.DrawBoundedIsExact | link_sim/fault_model.py:168-189 | a bounded draw splits the 2^64 values evenly |
| FaultTiming.RoundedUp | link_sim/fault_model.py:302-304 | air time is the bits divided by the bitrate, rounded up to the next nanosecond and no further |
| FaultTiming.TimingIsSound | link_sim/fault_model.py:272-310 | a frame leaves no earlier than it came in, no earlier than the link is free, at the later of due time and free time, for its air time |
| FaultTiming.TimingIsExact | link_sim/fault_model.py:272-310 | a frame is due after latency, jitter and reorder delay and leaves when the link is free; times that do not fit 64 bits are refused and no others |
| FaultTiming.SendKeepsSerialized | link_sim/link_simulator.py:356-416 | sending from the free moment of the link keeps transmissions one after the other |
| FaultTiming.AirTimesAreDisjoint | link_sim/link_simulator.py:356-416 | no two transmissions of a direction overlap |
| FaultTiming.ThroughputIsBounded | link_sim/fault_model.py:299-306 | a serialized run carries at most bitrate times duration bits |
| FaultTiming.AnyStretchIsBounded | link_sim/fault_model.py:299-306 | the same for every stretch of a run |
| FaultTiming.FlipChangesOneBit | link_sim/fault_model.py:326-344 | a flip changes the named bit, counted from the most significant one, and no other |
| FaultTiming.CorruptFrame | link_sim/fault_model.py:326-344 | exactly the bits named an odd number of times are flipped; an offset beyond the frame is refused |
| FaultTiming.OddOfDistinct | link_sim/fault_model.py:262-270 | with distinct offsets exactly the named bits are flipped |
| LinkEpochs.EarliestIsOldest | link_sim/virtual_clock.py:125-162 | the event due first is the copy admitted first |
| LinkEpochs.SendKeepsOrder | link_sim/link_simulator.py:452-542 | a serialized copy is released after all copies before it, so queue order is admission order |
| LinkEpochs.LinkStepKeepsInv | link_sim/link_simulator.py:227-542 | every step keeps release order, the fence and the serializer |
| LinkEpochs.DrainFenceHolds | link_sim/file_epoch.py:156-326 | in every run no DATA of an attempt is delivered after its END or CANCEL, nor still waiting once the attempt is closed, and air times are serialized |
| LinkEpochs.StartAdmittedIff | link_sim/file_epoch.py:156-199 | START is admitted if and only if the boot is the open one and no attempt is open |
| LinkEpochs.DataAdmittedIff | link_sim/file_epoch.py:223-268 | DATA is admitted, under the open attempt's id, if and only if its boot is the open one, its session the attempt's, and the attempt is STARTED; it changes nothing |
| LinkEpochs.EndAdmittedIff | link_sim/file_epoch.py:270-303 | END is admitted under the same condition and leaves the attempt draining |
| LinkEpochs.CancelAdmittedIff | link_sim/file_epoch.py:328-352 | CANCEL is admitted for the session's attempt in any state, and leaves it aborting |
| LinkEpochs.OthersAdmitted | link_sim/link_simulator.py:227-269 | a START that passes opens the next attempt; frames without a file packet always pass, file packets without a session never |
| LinkEpochs.WholeFileArrives | link_sim/link_simulator.py:227-542 | a run from the idle link without loss: START, DATA of any sizes and END are all delivered in order under one attempt, which is then closed |
| LinkEpochs.CopyOutcome | link_sim/link_simulator.py:356-399 | a copy takes its air time and joins the queue at its release unless it is lost |
| LinkEpochs.FrameOutcome | link_sim/link_simulator.py:401-445 | a second copy follows under the same id if and only if the original is not lost and a duplicate is drawn |
| LinkEpochs.RefusedFrameOutcome | link_sim/link_simulator.py:300-355 | a refused frame takes an id and nothing else |
| LinkEpochs.DeliveryOutcome | link_sim/link_simulator.py:490-542 | a delivery takes the first copy waiting and the clock to its release |
| LinkEpochs.TimePassesIff | link_sim/virtual_clock.py:164-179 | time passes exactly up to the release of the first copy waiting |
| LinkEpochs.SessionOutcome | link_sim/file_epoch.py:82-121 | another boot closes what was open and takes over; closing the open boot leaves none |
| LinkEpochs.AbortedAttemptTakesNothing | link_sim/file_epoch.py:328-352 | an aborted attempt stays open and takes no more of its packets |
| LinkEpochs.StaysOpenIff | link_sim/link_simulator.py:490-518 | over every run an open attempt stays open if and only if no END or CANCEL copy of it is delivered without transport failure and its boot is neither replaced nor closed |
| LinkEpochs.DrainingBlocks | link_sim/link_simulator.py:227-269 | once END was admitted and no closing copy waits, START, DATA and END are refused for as long as the boot stays and no CANCEL is sent |
| LinkEpochs.LostEndLeavesDraining | link_sim/link_simulator.py:372-385 | a run from the idle link in which END is admitted and lost, and the attempt is left draining |
| LinkEpochs.LostEndBlocksStart | link_sim/link_simulator.py:372-385 | after that run START is refused in every continuation without CANCEL and without a new boot, and admitted again after one delivered CANCEL |
| LinkEpochs.FileEpochManager.StartAttempt | link_sim/file_epoch.py:156-221 | START opens an attempt exactly when the boot matches and none is open |
| LinkEpochs.FileEpochManager.DataOf | link_sim/file_epoch.py:223-268 | DATA is admitted exactly for a started attempt of the open boot |
| LinkEpochs.FileEpochManager.EndOf | link_sim/file_epoch.py:270-303 | END is admitted exactly for a started attempt and stops it |
| LinkEpochs.FileEpochManager.AbortAttempt | link_sim/file_epoch.py:328-352 | aborting changes the named attempt only |
| LinkEpochs.FileEpochManager.CompleteAttempt | link_sim/file_epoch.py:305-326 | completing closes the named attempt only |
| LinkEpochs.FileEpochManager.OpenBootSession | link_sim/file_epoch.py:82-110 | another boot closes the open attempt; the same one changes nothing |
| LinkEpochs.FileEpochManager.CloseBootSession | link_sim/file_epoch.py:112-121 | closing the open boot closes its attempt |
| LinkEpochs.LinkSimulator.Transmit | link_sim/link_simulator.py:356-399 | one copy in place equals the reference, time overflow and too many corrupt bits included |
| LinkEpochs.LinkSimulator.AdmitFileEpoch | link_sim/link_simulator.py:227-269 | packet kinds are routed to the epoch manager exactly as the reference fence decides |
| LinkEpochs.LinkSimulator.AdmitOne | link_sim/link_simulator.py:300-445 | frame admission with loss and duplicate equals the reference |
| LinkEpochs.LinkSimulator.RunNext | link_sim/link_simulator.py:490-542 | the next event is delivered, and END or CANCEL closes its attempt unless the transport failed |
| LinkEpochs.Earliest | link_sim/virtual_clock.py:150-162 | the event chosen is one that no other precedes |
| ComScheduler.SelectKeepsInv | flight/mission_com_scheduler.py:134-167 | a selection takes from a queue that holds something and keeps the turn counters consistent |
| ComScheduler.ControlWaitsAtMost | flight/mission_com_scheduler.py:134-167 | a waiting CONTROL frame sees at most ack burst plus one other picks |
| ComScheduler.AckWaitsAtMost | flight/mission_com_scheduler.py:134-167 | a waiting ACK sees at most two other picks |
| ComScheduler.FileWaitsWhileAcksFlow | flight/mission_com_scheduler.py:134-167 | a waiting FILE frame sees at most ack burst plus one other picks while ACKs keep coming |
| ComScheduler.FileWaitsWithoutAcks | flight/mission_com_scheduler.py:134-167 | a waiting FILE frame sees at most control burst other picks while there are no ACKs |
| ComScheduler.FileNeverPickedIff | flight/mission_com_scheduler.py:134-167 | a FILE frame that waits throughout is never picked if and only if every ACK stretch is over before FILE relief and every stretch without ACK has CONTROL waiting and ends within its burst, the first one counting from the starting counters |
| ComScheduler.FileStarvesUnderIntermittentAcks | flight/mission_com_scheduler.py:155-167 | with ACKs at every other pick a waiting FILE frame is never picked, in runs of any length |
| ComScheduler.OrderedPickIsFirst | flight/mission_com_scheduler.py:120-132 | with keyed queues in order the pick precedes every waiting frame |
| ComScheduler.DrainIsAscendingMerge | flight/mission_com_scheduler.py:120-132 | polling keyed queues gives every frame once, in wire order |
| ComScheduler.MissionComScheduler.Enqueue | flight/mission_com_scheduler.py:80-109 | a frame is appended under a new id, or refused because its queue is full |
| ComScheduler.MissionComScheduler.Poll | flight/mission_com_scheduler.py:169-199 | one frame leaves its queue into flight, exactly when ready and something waits |
| ComScheduler.MissionComScheduler.Launch | flight/mission_com_scheduler.py:180-199 | the head of the chosen queue becomes the frame in flight |
| ComScheduler.MissionComScheduler.MarkStatus | flight/mission_com_scheduler.py:201-209 | the first status of the frame in flight counts, others are ignored |
| ComScheduler.MissionComScheduler.MarkUpstreamReturn | flight/mission_com_scheduler.py:211-219 | the returned buffer counts once |
| ComScheduler.MissionComScheduler.TryComplete | flight/mission_com_scheduler.py:221-232 | the frame completes, once, when both have come |
| UdpAdapter.MissionUdpAdapter.SendNext | flight/mission_udp_adapter.py:38-45 | takes a frame only when none is held |
| UdpAdapter.MissionUdpAdapter.ReceiveStatus | flight/mission_udp_adapter.py:47-51 | the first status of the held frame counts; the frame is reported exactly when its buffer is back too |
| UdpAdapter.MissionUdpAdapter.ReceiveReturn | flight/mission_udp_adapter.py:53-57 | the returned buffer counts; the frame is reported exactly when its status is there too |
| UdpAdapter.MissionUdpAdapter.FlushGate | flight/mission_udp_adapter.py:59-70 | a frame that is over is reported once and completes in the scheduler: reports are exactly the completed frames |
| UdpAdapter.MissionUdpAdapter.Reset | flight/mission_udp_adapter.py:72-77 | the held frame ends with SESSION_RESET unless its status came first, and the scheduler is not ready |
| UdpAdapter.OverIffBothCame | flight/mission_udp_adapter.py:47-70 | however the callbacks come, and however often, a frame is over if and only if both have come, with the first status of all |
| Realtime.ConnectReplaysAll | gds/realtime.py:181-216 | an accepted connection replays exactly the retained ids after the cursor up to the snapshot id |
| Realtime.OfferKeepsClient | gds/realtime.py:107-120 | a published event keeps what a client holds gap-free and within its bounds |
| Realtime.DrainKeepsClient | gds/realtime.py:122-130 | draining moves events without losing or repeating any |
| Realtime.HubStepKeepsInv | gds/realtime.py:181-240 | every step keeps the promise to every client |
| Realtime.HandOverIsExactlyOnce | gds/realtime.py:107-230 | in every run replay, drained and queued events of an open client are exactly the ids it is owed, each once, and the byte counter is the size of its queue |
| Realtime.ClientGetsWhatItAskedFor | gds/realtime.py:181-230 | a client that joined with a cursor and is still connected has been given, or still holds, exactly the retained ids after its cursor up to the later of snapshot and last published event |
| Realtime.ConnectAcceptedIff | gds/realtime.py:181-216 | a connection is accepted if and only if its cursor is within retention and not ahead, and the ids it asks for fit both limits of a client; its replay is those ids |
| Realtime.OfferEndsIff | gds/realtime.py:107-120 | a live event ends a client if and only if it does not fit its queue in number or bytes |
| Realtime.OldEventsAreSkipped | gds/realtime.py:107-120 | events of the snapshot are not queued again |
| Realtime.TakeOutcome | gds/realtime.py:122-130 | a take hands out as many of the first events as there are, up to the limit |
| Realtime.HubOutcome | gds/realtime.py:181-240 | publishing drops exactly the clients that cannot take the event; a join and a leave concern their client only |
| Realtime.RealtimeClient.Enqueue | gds/realtime.py:107-120 | queues, skips or ends the client exactly as the reference |
| Realtime.RealtimeClient.TakeUpTo | gds/realtime.py:122-130 | the loop hands out the first events of the queue and corrects the byte counter |
| Realtime.RealtimeHub.OfferTo | gds/realtime.py:223-230 | one client is offered the event and dropped when it is too slow |
| Realtime.RealtimeHub.OfferToAll | gds/realtime.py:223-230 | the loop offers the event to every client and drops exactly the slow ones |
| Realtime.RealtimeHub.PublishEvent | gds/realtime.py:218-230 | publishing the next event equals the reference step of the whole hub |
| Realtime.RealtimeHub.PrepareReplay | gds/realtime.py:188-202 | the replay, or the need to start over, exactly as the reference |
| Realtime.RealtimeHub.ConnectClient | gds/realtime.py:181-216 | a connection registers a client with its replay and snapshot id, or changes no client |
| Realtime.RealtimeHub.Disconnect | gds/realtime.py:232-237 | the client leaves the hub, closed and with an empty queue |
| DownlinkLedger.MergeIsFirstHighest | gds/ledger.py:796-804 | the state merge keeps the first of the highest rank: associative, idempotent, never lower, final states final |
| DownlinkLedger.FoldThroughMerge | gds/ledger.py:719-738 | reports folded on their own and merged later count as if they had come one by one |
| DownlinkLedger.LedgerStepKeepsInv | gds/ledger.py:658-995 | a transfer id belongs to one request of a spacecraft and a matched report is not kept aside |
| DownlinkLedger.DeferralIsInvisible | gds/ledger.py:658-934 | however many file reports precede the receipt and whatever follows, the final state folds the receipt, the earlier reports, then later reports and further receipts in order, if none runs out of time; contradicting receipts count for nothing |
| DownlinkLedger.OwnedEvents | gds/ledger.py:658-934 | once the transfer id is assigned, any events change the state only by what they tell about it, in order |
| DownlinkLedger.NoTransferYetIff | gds/ledger.py:695-699 | a receipt fails for want of a transfer id if and only if the request is known, has none and the receipt brings none |
| DownlinkLedger.ReceiptRefusedIff | gds/ledger.py:658-718 | a receipt is refused for its transfer id if and only if its request has another one, or another request of the spacecraft has it |
| DownlinkLedger.DeferredStaysUnlessMatched | gds/ledger.py:719-934 | a deferred report with time left stays until a receipt ties it to its request; further reports merge into it |
| DownlinkLedger.OverdueIsDropped | gds/ledger.py:951-995 | one out of time is gone after any event that is not refused, a receipt for an unknown request included |
| DownlinkLedger.DeferredForItsTime | gds/ledger.py:900-995 | a report nobody owns is kept for exactly its time to live |
| DownlinkLedger.ProductDownlinks.FindOwner | gds/ledger.py:834-845 | finds the request that owns a file report, when there is one |
| DownlinkLedger.ProductDownlinks.DropExpired | gds/ledger.py:951-995 | drops exactly the reports whose time is over and counts them |
| DownlinkLedger.ProductDownlinks.UpdateTransfer | gds/ledger.py:658-794 | a receipt in place equals the reference, refusals included |
| DownlinkLedger.ProductDownlinks.UpdateFileState | gds/ledger.py:806-934 | a file report in place equals the reference |
| RawSegments.WrittenParses | gds/raw_segments.py:47-71 | a written record parses back wherever it stands |
| RawSegments.ParsedIff | gds/raw_segments.py:83-130 | bytes parse to a payload if and only if the payload may be written and they are its encoding but for the three padding bytes |
| RawSegments.TornDoesNotParse | gds/raw_segments.py:83-155 | no proper prefix of a record parses |
| RawSegments.ScanFindsComplete | gds/raw_segments.py:83-155 | scanning any records followed by a torn one finds exactly the complete records and their boundary |
| RawSegments.RecordLeadsToPayload | gds/raw_segments.py:157-173 | each reference found leads back to the payload it was made from |
| RawSegments.AppendAfterCrash | gds/raw_segments.py:47-71 | after a crash in any append the next append leaves the file as if the torn record had never begun |
| RawSegments.RawSegmentStore.ScanAll | gds/raw_segments.py:83-155 | the scan loop returns the reference scan |
| RawSegments.RawSegmentStore.Repair | gds/raw_segments.py:131-153 | repair truncates at the last complete record |
| RawSegments.RawSegmentStore.Append | gds/raw_segments.py:47-71 | an append repairs, writes one record and returns its reference, or refuses the payload |
| RawSegments.RawSegmentStore.Read | gds/raw_segments.py:157-173 | hands out the bytes at the reference if and only if header, length, CRC and hash are right, and does so for every complete record |
| WorkerClient.StepKeepsOwnership | flight/worker_client.py:163-297 | every accepted request is in exactly one place after every step |
| WorkerClient.DeliveredAtMostOnce | flight/worker_client.py:163-438 | in every run an accepted request is pending, active, being handed over or delivered, and its result is delivered at most once |
| WorkerClient.CallbackAtMostTwice | flight/worker_client.py:299-323 | in every run the callback is called for a request at most twice, and twice if and only if the first call raised on a result that was not a failure; the second carries a failure |
| WorkerClient.LoseKeepsBudget | flight/worker_client.py:381-404 | a loss keeps the remembered restarts to those in the window |
| WorkerClient.RestartsAreBounded | flight/worker_client.py:381-404 | in every run any max_restarts + 1 restarts in a row span at least the window |
| WorkerClient.SubmittedIff | flight/worker_client.py:163-179 | a submission is accepted if and only if the client runs and has room, one more place while the worker is ready and idle |
| WorkerClient.DispatchedIff | flight/worker_client.py:251-267 | a request is dispatched if and only if the worker is ready and idle and one waits; it is the one waiting longest |
| WorkerClient.ResultCountsIff | flight/worker_client.py:285-297 | a result counts if and only if it is for the active request |
| WorkerClient.RequestIsServed | flight/worker_client.py:163-297 | a run: submission, heartbeat, dispatch and result deliver exactly that result |
| WorkerClient.CanceledIsDelivered | flight/worker_client.py:181-211 | a run: the first waiting request under a canceled key is taken out and delivered as canceled |
| WorkerClient.LossOutcome | flight/worker_client.py:360-438 | what a loss leaves: the active request gets it as its result; with budget the queue waits for the next worker, without every request in it fails and the service is at fault |
| WorkerClient.RestartsIffBudgetLeft | flight/worker_client.py:381-404 | in every run a loss restarts the worker if and only if fewer than max_restarts of all restarts so far lie inside the window |
| WorkerClient.HandedOutIsDelivered | flight/worker_client.py:426-427 | results handed out reach the callback in order |
| WorkerClient.WorkerProcessClient.SubmitRequest | flight/worker_client.py:163-179 | accepts within the limit, one more while idle and ready, and refuses otherwise |
| WorkerClient.WorkerProcessClient.CancelPending | flight/worker_client.py:181-211 | takes out the first pending request under the key, when there is one |
| WorkerClient.WorkerProcessClient.DispatchNext | flight/worker_client.py:251-267 | gives the oldest pending request to an idle, ready worker |
| WorkerClient.WorkerProcessClient.HandleResult | flight/worker_client.py:285-297 | the result of the active request ends its ownership once delivered; another result is refused |
| WorkerClient.WorkerProcessClient.DeliverResult | flight/worker_client.py:299-323 | calls the callback, and once more with a failure record exactly when it raised on another result |
| WorkerClient.WorkerProcessClient.HandNext | flight/worker_client.py:426-427 | the next result taken out of the queue reaches the callback |
| WorkerClient.WorkerProcessClient.ForgetOld | flight/worker_client.py:383-384 | the loop drops exactly the restarts that left the window |
| WorkerClient.WorkerProcessClient.HandleLoss | flight/worker_client.py:360-405 | a loss restarts within the budget, or hands out everything pending as failed |
| WorkerClient.WorkerProcessClient.EndLoss | flight/worker_client.py:420-431 | the active request fails and the service starts over or is at fault |

## Left out

- Transfer.EndToEnd: assumes that both ends agree on the canonical JSON of START and on the hash, that the
  station is free for the spacecraft and that the bundle is within its size limit; bundle inspection is a parameter.
- TmCounters.LossIsCountedExactly: holds for frames within half a modulus of the last accepted one, on the newest
  link and with epochs left, which is what the half-window comparison can decide.
- OutboxSafety.BackoffDoubles: delays are exact numbers; the program computes them in floating point, which rounds below a
  microsecond and overflows beyond attempt 1024.
- ProductAdmission.PrunableIffNameWasNew: assumes that no client signs on under the station's own principal, whose names
  it could otherwise clear.
- Delivery.MisdirectedBlocksNothing: assumes that a key that is admitted has never been on the air, which
  `Identities.KeysNeverRepeat` shows of the allocator.
- LinkEpochs.LostEndBlocksStart: the first half is about senders that send no CANCEL; the second shows that one CANCEL is enough.
- DownlinkLedger.DeferralIsInvisible: holds while no deferred report runs out of time, as the TTL is meant to drop it.
- WorkerClient.RestartsAreBounded: assumes that the monotonic clock does not run backwards; the restart backoff is
  not modelled.
- JSON, SHA-256, CRC-32, the pseudo-random function, TM and TC frame encoding, tar extraction and bundle inspection: parameters,
  or not part of this model.
- Storage reservation, fsync and rename, audit rows, metrics, logging and event bodies; `updated_at` and
  `terminal_at` columns. (The second is computed as MAX of NULL and stays NULL, which no modelled branch reads.)
- Reloading reassembly states after a restart (`_load_durable_states`), the orphan sweeps and the journal's restart reconciliation.
- `register_instance` and `refresh` outside the fence: the model binds and publishes only through a fenced migration,
  because the first changes a generation without touching attempts.
- `persist_attempt`, the older two-step form of `prepare_attempt`.
- Blocking in `BindingFence`: waiting is a step that changes nothing until its guard holds, so the fence is a state
  machine on values. A migration comes to its end when the running reads leave; that they do is not claimed.
- Uncorrelated receipts in `Delivery`: the tables accept them, and what they do is covered by the invariants, but the
  claim about satellites is for receipts that come from telemetry.
- Claim owner names: a lease is checked by its owner's name, so two claims under one name are not told apart, as in the program.
- Freshness of request keys in the tables: a used key is refused there; that the allocator never offers one is `Identities.KeysNeverRepeat`.
- Aliasing of the `ActiveTransfer` record that `start` returns: the coordinator keeps it as a value; equal file stamps
  are taken to mean equal bytes, and the completion status is reduced to accepted or refused with a code.
- The journal's frame counters inside the downlink coordinator: covered on their own by `TmAllocator`.
- The uplink direction of the link, contact blackouts, the session manager, restart checkpoints and the loop that draws distinct
  corrupt bits: the downlink is modelled because the file fence exists only there.
- The link's reorder buffer and attempt history, which no decision reads.
- Completion callbacks, ordering of metrics and depth counters in the scheduler; a callback that arrives late from an earlier
  frame counts for the frame held at that time, as in the program.
- The WebSocket layer: terminal envelopes, snapshots of state and close codes of realtime clients.
- The transfer row inserted with a product downlink request: `ProductAdmission` keeps requests and ordinals,
  `DownlinkLedger` their transfer states.
- `committed_offset`, pruning and the orphan sweep of raw segments; a segment's rotation to another file.
- Worker deadlines, the cancel watchdog, an error in the start callback, process start and close: the first three end in the loss
  path that is modelled.
- Products, previews, AI worker, regions of interest, telemetry rollups, retention, rate limits, topology, web and command line:
  checklist code without a hard property.
