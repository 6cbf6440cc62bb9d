# mxdriver, modelled in Dafny

mxdriver is a Linux driver for a memory device that moves data by DMA. This project models the parts
of it where a mistake would be hardest to see, and proves what they are for:

* **Descriptor lists** (`Arithmetic`, `ScatterLists`, `PrpLists`, `PrpCount`, `PrpPages`, `PrpEmit`, `Commands`,
  `ZeroAddresses`, `Splitting`, `ParallelTransfers`). A slice of a mapped scatter list is compiled to bare addresses, in chained pages, for a device that
  knows only "up to the next boundary, then whole chunks". The device is modelled as a decoder, and compiling is
  proved to be its inverse, for both hardware revisions and for every way of splitting a buffer; a parallel transfer
  is followed from its settings to what the device does with all its commands.
* **The lease protocol** (`LeaseMachine`, `LeaseCode`, `LeaseSections`, `LeaseMethods`, `LeaseWorld`,
  `LeaseReferences`, `LeaseTable`, `LeaseAnchor`, `LeaseActivity`, `LeaseFaults`, `LeaseGuarantees`,
  `LeaseCounterexamples`). Any number of open files, their direct calls, transfers, mappings and proofs, and calls that
  have left the lock but not yet delivered their reply. Every lock section is one step; theorems are about every run,
  and where a reply that cannot be delivered breaks one, about exactly which runs.
* **The life of transfers** (`TransferIds`, `TransferSteps`, `TransferSafety`, `TransferGuarantees`, `ZombieCleaner`).
  Submitters, the submit and complete threads, waiters that give up, the zombie cleaner, teardown, and a device that
  answers each command once, whenever it likes. A step is one atomic operation or one locked update, so the counters may
  be read between any two of them.
* **The admin queue and teardown** (`AdminQueue`, `DeviceTeardown`). Commands that are answered late or never, and what
  must be true before memory is freed; teardown runs against the admin queue and the transfers' state machine at once.
* **Rings** (`Mailbox`, `MailboxRing`, `QueuePair`). Wrapped indices with phase bits and out-of-date views of the other
  side stand for counters that never wrap.
* **Register mappings** (`BarMaps`). Accounting across mmap, fork, split and close, and the exclusion of mailboxes.

`Counting` (how many entries of a map satisfy a predicate) and `Options` are shared. Code that updates records,
arrays and lists in place is modelled by classes and loops, each proved against a function or an abstract state;
code that several threads interleave is modelled as steps of a state machine. `dafny verify dfyconfig.toml` checks
everything.

## Where the code and its promises differ

* The comment in `core_common.c:80-81` says a list is expressible *exactly when* every entry but the last ends, and
  every entry but the first starts, on a chunk boundary. Entries that abut on the bus off a boundary are a counterexample:
  `PrpCount.AbuttingSliceRejected`. `PrpCount.AcceptedIffExpressible` is the exact relation. Nothing inexpressible
  is ever accepted.
* A bus address of zero is refused by both command builders, so a split can fail whose whole would not
  (`ZeroAddresses.SplitRefusedV1`, `ZeroAddresses.SplitRefusedV2`). `ZeroAddresses.PartPossibleV1` and
  `ZeroAddresses.PartPossibleV2` say exactly which parts of a whole that can be built are refused.
* The exclusion of activity by a quiescent device fails in some runs where a reply cannot be copied out
  (`LeaseCounterexamples.FaultBreaksExclusivity`): the undo compares lease words but not activity. Activity stays with
  files that may have it exactly until a fault takes an unchanged lease from a file active since
  (`LeaseFaults.ActivityAllowedIffNoneStrands`), and a quiescent publisher is alone exactly while it does
  (`LeaseGuarantees.AloneIffAllowed`). Counter agreement and the exclusions among leases hold in all runs.
* The other guards fall to faults too: a bind taken back under a direct call leaves the call without its proof
  (`LeaseCounterexamples.FaultUncoversCall`). `LeaseFaults.FaultBreaksIff` names, guard by guard, exactly the faults that
  break it, and `LeaseFaults.GuardedIffNoneBreaks` carries that over whole runs.
* A delivered acquire does not by itself make the anchor permanent: while the acquire that set the anchor is unanswered,
  another file can join, be told so and leave, and the anchor can still be taken back
  (`LeaseCounterexamples.DeliveredGuestDoesNotPin`). It is permanent once the acquire that set it is answered
  (`LeaseAnchor.AnchorIsPermanent`), and `LeaseAnchor.AnchorLostIff` says exactly which step loses it.
* `ioctl_recv_cmds` advances and publishes the head whether or not the words could be copied, so a failed copy loses
  its batch; `MailboxRing.Ring.ReceiveCommands` says so.

## Model

| member | source | states |
|---|---|---|
| `ScatterLists.Locate` | core_common.c:32-53 | finds an entry exactly when the offset is inside the mapping, and the cursor it returns stands for the list with that many bytes dropped |
| `PrpLists.ExpressibleIffSmooth` | core_common.c:78-83 | the byte sequences some descriptor list decodes to are exactly those whose every jump is from boundary to boundary |
| `PrpLists.DecodeChunkStarts` | core_common.c:78-83 | compiling to chunk starts and decoding by the device's rules gives the bytes back |
| `PrpCount.PrpChunkLenAt` | core_common.c:57-62 | the mask computes the distance to the next chunk boundary |
| `PrpCount.PrpFirstChunkLen` | core_common.c:67-72 | the first chunk ends at the boundary or with the entry, whichever is nearer |
| `PrpCount.EntryDescCount` | core_common.c:96-103 | one turn of the walk counts the chunks of the run it consumes |
| `PrpCount.AcceptedIffExpressible` | core_common.c:78-83 | a slice is accepted exactly when some descriptor list expresses it and no two of its entries abut off a boundary |
| `PrpCount.AbuttingSliceRejected` | core_common.c:80-81 | two abutting half chunks are expressible and turned away |
| `PrpCount.AcceptedSlice` | core_common.c:84-135 | acceptance passes to every non-empty slice of an accepted slice |
| `PrpCount.WalkKeepsPromise` | core_common.c:84-135 | the entry-by-entry walk equals the junction-wise definition of acceptance with the number of chunk starts as its count |
| `PrpCount.TotalDescCount` | core_common.c:84-135 | succeeds exactly on accepted slices, with the number of chunks the device will read |
| `PrpPages.ListCount` | core_common.c:17-27 | the page count is max(1, ceil((m - 1) / (per - 1))) for m descriptors in pages of per slots |
| `PrpPages.ListMeansBytes` | core_common.c:207-250 | the device, following chain pointers through pages laid out for a smooth sequence, reads exactly that sequence |
| `PrpEmit.DescWriter.constructor` | transfer.c:252-288 | the allocated pages have room for the promised count exactly when their number is the page count of it |
| `PrpEmit.DescWriter.Put` | core_common.c:207-227 | with pages for the promised count no store is refused, none falls outside a page, and what was emitted grows by the address |
| `PrpEmit.DescWriter.Finished` | core_common.c:207-250 | when all is emitted the pages show the chained layout of it, and their number is the page count |
| `PrpEmit.NextChunk` | core_common.c:240-247 | past each chunk of an accepted slice the walk stands on a boundary, with the rest accepted and its chunks still due |
| `PrpEmit.DescListInit` | core_common.c:140-263 | given the count of the counting walk (less the inline first), the emit walk takes none of its overrun, misaligned or missing-entry exits: it fails only for lack of pages, and otherwise the pages hold the chunks of the slice |
| `Commands.CreateSgV1` | core_v1.c:214-263 | builds a command exactly when possible, and in every memory that shows its pages the device decodes it to the bus address of each byte of the slice, in order |
| `Commands.CreateSgV2` | core_v2.c:261-328 | the same for one entry, two entries, or an entry and a chained list |
| `Commands.SecondEntry` | core_v2.c:298-312 | the inline second descriptor is the second chunk of the slice, in the same entry or at the start of the next |
| `ZeroAddresses.PartPossibleV1` | core_v1.c:223-245 | given that the whole can be built, a part can be exactly unless it fits its first chunk and starts at bus address zero |
| `ZeroAddresses.PartPossibleV2` | core_v2.c:279-312 | given that the whole can be built, a part can be exactly when the descriptors that would stand inline are not zero |
| `ZeroAddresses.SplitRefusedV1` | core_v1.c:223-245 | every chunk followed by up to a chunk at address zero is built whole and refused in its second part |
| `ZeroAddresses.SplitRefusedV2` | core_v2.c:279-312 | three chunks with the middle one at address zero are built whole, and the middle one alone is refused |
| `ZeroAddresses.PartHasFewerChunks` | core_common.c:84-135 | a part of an expressible sequence never has more chunks than the whole, so it needs no more pages |
| `Splitting.ParallelCountFor` | transfer.c:842-878 | for every setting of the tunables at least one split, at most one a page, and at most the cap, through all 32- and 64-bit conversions |
| `Splitting.PinnedPages` | transfer.c:133-156 | refuses exactly the sizes of zero and those whose page array would be too large, and counts the pages the buffer touches |
| `Splitting.AllocTransfers` | transfer.c:367-412 | with memory for all of them the splits are non-empty, back to back from the start, sum to the buffer, carry matching device addresses and cut only at page boundaries; short of memory every split made is released |
| `Splitting.SplittingPreservesMeaning` | transfer.c:367-403 | every split of an accepted mapping is accepted, and the (device address, bus address) pairs of all splits are those of the whole |
| `ParallelTransfers.PlanSplits` | transfer.c:898-915 | for every setting the splits tile the buffer; with memory none but a refused size goes without |
| `ParallelTransfers.CreateCommands` | transfer.c:663-692 | a command for every split, each decoding to its split, exactly when each is possible with the pages free at its turn; otherwise none |
| `ParallelTransfers.CommandsMoveTheWhole` | transfer.c:663-692 | the device, given all commands of splits that tile a buffer, moves the (device address, bus address) pairs of the unsplit transfer |
| `ParallelTransfers.TransferInParallel` | transfer.c:724-758 | from any setting to the commands: what the device does with all of them is the unsplit transfer, and once split it fails only for a split no command is possible for |
| `LeaseCode.StateRecord.AcquireLease` | lease_sm.h:107-174 | the in-place update is the acquire of the state machine: same refusals, same new words |
| `LeaseCode.StateRecord.TransitionLease` | lease_sm.h:178-250 | the in-place update is the transition of the state machine |
| `LeaseCode.StateRecord.ReleaseLease` | lease_sm.h:252-275 | the in-place update is the release of the state machine |
| `LeaseCode.StateRecord.Authorize` | lease_sm.h:277-304 | the in-place update is the direct authorization of the state machine |
| `LeaseCode.StateRecord.AdmitDirect` | lease_sm.h:306-319 | a call is charged exactly when it is authorized, and the charge never wraps |
| `LeaseMachine.AcquireKeeps` | lease_sm.h:107-174 | for any holders: every counter stays the count of its holders, one family, at most one publisher, no workload beside quiescence, no legacy beside a lease; a refusal changes nothing |
| `LeaseMachine.TransitionKeeps` | lease_sm.h:178-250 | the same, the two "needs cleaning" refusals never happen, and putting the old words back would be consistent |
| `LeaseMachine.ReleaseKeeps` | lease_sm.h:252-275 | the same; no counter is ever found at zero, and the holder ends fresh |
| `LeaseMachine.AuthorizeKeeps` | lease_sm.h:277-304 | the same for direct admission |
| `LeaseMachine.IdleIffNoLease` | lease_sm.h:71-75 | the four-way idle test is the absence of leases |
| `LeaseMethods.DeviceLease.NextNumber` | lease.c:276-282 | generations are 64 bits wide, follow one another and are never zero |
| `LeaseMethods.DeviceLease.AcquireLocked` | lease.c:401-462 | the section in place is the section of the protocol: checks in order, anchor, generation and pending call |
| `LeaseMethods.DeviceLease.TakeBackAcquire` | lease.c:472-489 | the undo in place is the undo of the protocol |
| `LeaseMethods.DeviceLease.TransitionLocked` | lease.c:519-551 | the section in place is the section of the protocol, remembering the words before and after |
| `LeaseMethods.DeviceLease.TakeBackTransition` | lease.c:559-565 | restores both words exactly when both are as the call left them |
| `LeaseMethods.DeviceLease.AnchorLocked` | lease.c:725-777 | the section in place is the section of the protocol |
| `LeaseMethods.DeviceLease.TakeBackAnchor` | lease.c:783-791 | the undo in place is the undo of the protocol: only a slot domain this call set, and that is still there, goes |
| `LeaseMethods.DeviceLease.BindLocked` | lease.c:860-982 | the section in place is the section of the protocol, for the profile read before the lock: a new binding pins every lock or changes nothing |
| `LeaseMethods.DeviceLease.UnbindLocked` | lease.c:1047-1105 | the section in place is the section of the protocol: refused while a call or mapping is alive |
| `LeaseMethods.DeviceLease.TakeBackProofs` | lease.c:996-1127 | a bind or unbind whose reply faulted is undone only where its own files, or none, are found |
| `LeaseMethods.DeviceLease.BeginDirect` | lease.c:1243-1265 | admission and proof check together; a call refused for its proofs leaves no charge |
| `LeaseMethods.DeviceLease.GetTransfer` | lease.c:173-219 | a transfer gets a reference and pins exactly what its file has bound at that moment |
| `LeaseSections.FailureChangesNothing` | lease.c:401-1265 | every section that returns an error leaves device and file as they were and nothing to take back |
| `LeaseWorld.ServeReplaces` | lease.c:401-1265 | every section changes the machine's words and one holder's together, by that holder's own contribution to each counter, or changes neither |
| `LeaseReferences.StepKeepsSound` | lease.c:118-247 | every step, faulted replies included, keeps counters, exclusions, reference counts and the soundness of pending undos |
| `LeaseReferences.RunsAreSound` | lease_sm.h:107-295 | after any run of any number of files all of that holds |
| `LeaseTable.Table.Perform` | lease.c:118-247 | any step taken on the records in place is that step of the protocol, leaves each file its own records, and keeps counters, exclusions and references in agreement |
| `LeaseReferences.FreeFindsNoActivity` | lease.c:118-171 | in every run, when the last reference goes the file has no call, transfer or mapping, so the warning there cannot fire |
| `LeaseAnchor.RunsKeepAnchors` | lease.c:401-489 | after any run leases imply an anchor of their family, an anchor excludes legacy use, and at most one anchoring call is unanswered |
| `LeaseAnchor.AnchorLostIff` | lease.c:472-488 | the one step that loses an anchor: the fault of the call that set it, when no lease but the one it gave is held |
| `LeaseAnchor.DeliveryMakesPermanent` | lease.c:467-471 | delivering the anchoring call's reply makes the anchor permanent |
| `LeaseAnchor.AnchorIsPermanent` | lease.c:401-488 | from then on inode, identity, family and generation never change, in any continuation |
| `LeaseAnchor.OnlyTheFamilyIsAdmitted` | lease.c:411-442 | an anchored device admits only its family, inode, identity and generation, and an idle one only its publisher unless a coordinated device is ready |
| `LeaseAnchor.NoLegacyOnceAnchored` | lease_sm.h:297-304 | on an anchored device no file is legacy and direct calls are admitted only for leases of the anchor's family |
| `LeaseActivity.StepKeepsAllowed` | lease.c:1243-1281 | every step but a fault keeps activity with files that may have it |
| `LeaseActivity.StepKeepsGuarded` | lease.c:118-247 | every step but a fault keeps all guards: activity allowed, roles grounded in a slot domain, proofs pinned on the right byte of the right inode and covering all activity, proof calls that know their profile, slot domain and state file apart |
| `LeaseFaults.TransitionUndoIsSafe` | lease.c:531-566 | whatever others did meanwhile, back to the same words included, a faulted transition stays or is put back word for word, touches no other file, and keeps every invariant |
| `LeaseFaults.FaultStrandsActivityIff` | lease.c:472-474 | a fault leaves activity without permission exactly when it takes an unchanged acquire, or an unchanged promotion from candidate, from a file active since |
| `LeaseFaults.ActivityAllowedIffNoneStrands` | lease.c:401-566 | in every run, faults included: activity is with files that may have it in all worlds up to any point exactly if no fault before it was such a one |
| `LeaseFaults.FaultBreaksIff` | lease.c:472-1127 | for each guard the exact faults that break it: a lease in use, a slot domain in use, an anchor under a pin, a proof under activity, a profile under a proof call, a state anchor beside a slot domain |
| `LeaseFaults.GuardedIffNoneBreaks` | lease.c:401-1127 | in every run all guards hold up to any point exactly if no fault before it was one of those |
| `LeaseGuarantees.AloneIffAllowed` | lease_sm.h:107-295 | on a quiescent device the quiescent publisher is the only file with any direct call, mapping or transfer exactly if all activity is with files that may have it |
| `LeaseGuarantees.QuiescentIsAlone` | lease_sm.h:107-295 | in every run without such a fault, whenever the device is quiescent there is one quiescent publisher, and every direct call, mapping and transfer, zombies included, is its own |
| `LeaseGuarantees.BystandersAreInactive` | lease_sm.h:277-304 | in the same runs candidates, prepared initializers and unleased non-legacy files have no activity and own no transfer |
| `LeaseGuarantees.DeliveredRunsAreGuarded` | lease.c:118-247 | in every run whose replies are delivered all guards hold |
| `LeaseGuarantees.RolesAreGrounded` | lease_sm.h:186-213 | hub workloads, candidates and active publishers, and readiness itself, imply an anchored slot domain; coordinated roles imply readiness |
| `LeaseGuarantees.BindIsNeverUnclean` | lease.c:923-932 | binding never meets an unanchored slot domain |
| `LeaseGuarantees.FencedSlotIsQuiet` | lease.c:686-695 | a slot whose liveness byte nobody holds has no call, mapping or transfer of a file that needs that proof, even after unbinding |
| `LeaseGuarantees.FencedWorkloadIsQuiet` | lease.c:944-960 | the same for the liveness byte of a coordinated workload, in the state file |
| `LeaseCounterexamples.FaultBreaksExclusivity` | lease.c:472-489 | a run in which a fault puts two files on a quiescent device |
| `LeaseCounterexamples.FaultUncoversCall` | lease.c:996-1019 | a run in which a fault takes the proof from under a direct call |
| `LeaseCounterexamples.DeliveredGuestDoesNotPin` | lease.c:464-488 | a run in which an acquire is delivered and the anchor is lost afterwards |
| `TransferIds.IdTable.Alloc` | helper.c:8-20 | the first free id from the cursor on, then from zero; refused only when every id is taken |
| `TransferIds.IdTable.Free` | helper.c:22-30 | removes the entry that leads to this transfer and no other |
| `TransferIds.IdTable.Claim` | helper.c:32-45 | a completion gets the transfer exactly when it is known and unclaimed, once, and its id is free again |
| `TransferSafety.StepKeepsCounts` | core_common.c:468-506 | after every atomic operation the wait count is the number of pushed, unclaimed transfers and of those a thread is between counting and pushing or claiming and uncounting; the zombie count that of the parked, undrained ones |
| `TransferSafety.StepKeepsDevice` | core_common.c:544-588 | commands at the device and completions not yet taken stay, one for one, the transfers owed a completion |
| `TransferSafety.StepKeepsMappings` | transfer.c:71-83 | a mapping's references stay its creator's and one for each split that has not put it |
| `TransferSafety.RunsAreSafe` | transfer.c:480-585 | all of this after any interleaving of any number of transfers, with arbitrary timeouts and teardown |
| `TransferSafety.NoWaitsOwesNothing` | init.c:608-621 | a wait count of zero proves that the device owes no completion |
| `TransferGuarantees.CompletionClaimsIssuer` | core_common.c:544-588 | every completion taken claims the transfer that issued the command and no other; none is ever for an unknown or claimed one |
| `TransferGuarantees.WaitCountShowsCompletions` | core_v2.c:94-109 | a completion waiting to be taken always shows in the wait count, so the poll that looks at the count first misses none |
| `TransferGuarantees.WaitCountIsOwed` | core_common.c:468-506 | with no thread between two atomics the wait count is exactly the number of pushed, unclaimed transfers |
| `TransferGuarantees.DeviceMemoryIsKept` | transfer.c:546-580 | in every reachable state what a device that is not gone may still touch is there: transfer, descriptor lists and shared mapping |
| `TransferGuarantees.ReleaseHasAReason` | transfer.c:1074-1138 | a release begins only for a transfer never pushed, claimed by the complete thread, or declared safe by teardown |
| `TransferGuarantees.ReleasesHappenOnce` | transfer.c:304-311 | in any run, between two releases of a transfer's descriptor lists, mapping reference or id its record was freed: at most once in a life |
| `TransferGuarantees.FreedHasReleased` | transfer.c:304-311 | in any run, a record that is freed has had its descriptor lists, mapping reference and id each released in that life: at least once |
| `TransferGuarantees.LateFreeSparesOthers` | helper.c:22-30 | giving an id back never takes it from the transfer that has it now |
| `TransferGuarantees.MappingOutlivesSplits` | transfer.c:71-83 | a mapping is there if a split has not put it, and only if one has not or its creator holds it still |
| `TransferSafety.StepKeepsTeardown` | init.c:800-810 | reclaim is declared safe only with submitters and threads gone and the device gone or owing nothing |
| `ZombieCleaner.Cleaner.Collect` | transfer.c:1111-1121 | one pass takes exactly the claimed zombies, in order, and leaves the others, in order |
| `ZombieCleaner.Cleaner.Drain` | transfer.c:1074-1096 | every zombie of the list is claimed and emptied, and counts, page pool, mapping references and ids become what draining them one after another makes of them |
| `ZombieCleaner.DrainCounts` | transfer.c:1078-1086 | draining a list takes its unclaimed zombies off the wait count and all of them off the zombie count, and gives back all their pages, in order |
| `ZombieCleaner.DrainPutsMappings` | transfer.c:71-77 | a mapping loses one reference for each split on the list, and is undone exactly when these were its last |
| `ZombieCleaner.DrainFreesIds` | helper.c:22-30 | an id stays, and leads where it led, exactly unless it led to a zombie of the list |
| `ZombieCleaner.Cleaner.Finish` | transfer.c:1126-1135 | the final drain touches nothing unless reclaim was declared safe, and then drains all |
| `AdminQueue.SqNeverWithoutCq` | core_v2.c:624-637 | no operation the driver sends leaves a submission queue without its completion queue |
| `AdminQueue.Driver.Record` | core_v2.c:450-476 | recording an answer turns the recorded queues into what the device did |
| `AdminQueue.Driver.TakeAnswer` | core_v2.c:532-538 | the only answer that can be on the ring is the pending command's; taking it makes the record equal the device |
| `AdminQueue.Driver.Submit` | core_v2.c:478-541 | at most one command is ever outstanding and it is legal; success means done and recorded, failure means never sent or pending and out of step |
| `AdminQueue.Driver.DrainPending` | core_v2.c:561-593 | however late the answer, the queue is in step again, or the device is gone; its "needs cleaning" exit is never taken |
| `AdminQueue.Driver.Disable` | core_v2.c:595-604 | called only with nothing pending and no queue left |
| `AdminQueue.Driver.Recover` | core_v2.c:606-639 | success means the device knows no queue and no admin ring; otherwise the protocol stays poisoned |
| `AdminQueue.Driver.ConfigureIo` | core_v2.c:641-741 | success means both queues exist under one id with a doorbell inside the window; failure without poison means no queue exists |
| `AdminQueue.Driver.Attach` | core_v2.c:771-791 | with whatever outcome, teardown finds a state it can handle |
| `AdminQueue.Driver.ReleaseIo` | core_v2.c:743-769 | success means the device knows no queue and no admin ring |
| `DeviceTeardown.Device.IoQueueIdle` | init.c:608-621 | whatever happens between its three reads, an idle queue means that none of the transfers is owed a completion |
| `DeviceTeardown.Device.StopThreads` | core_common.c:351-372 | the complete thread finishes the claim it has in hand, then none runs |
| `DeviceTeardown.Device.DrainIo` | init.c:634-647 | ends with the queue seen idle or the device gone |
| `DeviceTeardown.Device.StopProtocol` | init.c:649-741 | success means the device is gone, or owes no completion and knows no host memory, through late creates, push timeouts and repeated recovery; failure leaves the protocol poisoned, and on the real unbind there is none while an admin queue exists |
| `DeviceTeardown.Device.Destroy` | init.c:764-836 | reclaim is declared safe exactly by a successful stop, so rings, pages and lists are freed only when the device is gone or owes nothing and knows no host memory; failure leaves the protocol poisoned and nothing declared |
| `Mailbox.SpacesAreExact` | mbox.c:20-38 | free space and pending count are those of the unbounded counters, without 32-bit wrap |
| `Mailbox.EmptyAndFullAreExact` | mbox.c:5-18 | the empty and full tests hold exactly for no and for depth words waiting |
| `Mailbox.NextIsAdvance` | mbox.c:40-52 | moving a position by up to a lap is moving its counter, phase bit included |
| `Mailbox.BatchesAreContiguous` | ioctl.c:164-188 | the batch counts are the room and the backlog, cut at the end of the ring |
| `Mailbox.StaleHeadIsCautious` | ioctl.c:441-460 | an out-of-date head only under-reports the room |
| `MailboxRing.Ring.SendCommands` | ioctl.c:436-479 | what is sent is a prefix of the request, goes behind all that waits, and overwrites none of it, though the write may fail midway and the publication be lost; a short batch is all that fits; an empty write is refused |
| `MailboxRing.Ring.ReceiveCommands` | ioctl.c:508-533 | the words are the oldest ones, in order, as many as wanted or contiguous; as long as every copy succeeds, all that was ever received is a prefix of all that was ever sent |
| `MailboxRing.Ring.IsPushable` | core_v1.c:53-72 | says yes only if a command fits, and no only if none does by the device's real progress |
| `MailboxRing.Ring.PushCommand` | core_v1.c:92-106 | the four words go behind all that waits and never straddle the end of the ring |
| `MailboxRing.Ring.IsPopable` | core_v1.c:74-90 | with something outstanding or a probe under way, holds exactly when a whole command waits; otherwise not |
| `MailboxRing.Ring.PopCommand` | core_v1.c:108-130 | returns header and result of the oldest command, next in the sequence of all commands ever pushed |
| `QueuePair.PhaseTells` | core_v2.c:94-109 | the slot at the head shows the expected phase exactly when its answer has been posted |
| `QueuePair.Pair.IsPushable` | core_v2.c:89-92 | the modulo test holds exactly when one more command leaves the ring short of full |
| `QueuePair.Pair.Push` | core_v2.c:133-139 | no command the device has yet to fetch is overwritten, however old the known head |
| `QueuePair.Pair.RingSubmission` | core_v2.c:150-157 | after it, skipped or not, the device has been told of every command |
| `QueuePair.Pair.IsPopable` | core_v2.c:94-109 | with something outstanding or a probe under way, holds exactly when an answer is unread; otherwise not |
| `QueuePair.Pair.Pop` | core_v2.c:141-148 | answers are popped once each and in order: all ever popped are a prefix of all ever posted; the known head moves to what the answer tells |
| `QueuePair.Pair.RingCompletion` | core_v2.c:159-166 | after it, skipped or not, every popped answer is acknowledged |
| `BarMaps.StepKeepsCount` | core_common.c:686-786 | the count stays the number of live areas, and no area ever lives beside a registered mailbox |
| `BarMaps.StepKeepsAreas` | core_common.c:634-678 | every area, forked or split, stays with its mapping, which counts its areas |
| `BarMaps.StepKeepsCharges` | core_common.c:662-674 | each file stays charged for exactly its mappings not yet uncharged |
| `BarMaps.RunsAreAccounted` | ioctl.c:255-320 | all three after every interleaving of mmap, fork, split, close and two-step registration |
| `BarMaps.UnchargedHasNoArea` | core_common.c:662-674 | a mapping is uncharged only when none of its areas is left in any process |
| `BarMaps.LiveAreaIsCharged` | core_common.c:756-779 | a live area, in whatever process, is charged to the file that mapped it, and no mailbox is registered |

## Left out

- The liveness watchdog, poll back-off, wait queues and jiffies: timeouts are nondeterministic choices.
- Commands without completion: the ioctl path refuses them.
- Page pinning, `dma_map_sg`, the IOMMU, MMIO ordering and the file-lock layer: a mapping is a list of non-empty entries, a lock request succeeds or fails as it likes, and a register write takes effect at once.
- PCI and CXL attachment, character devices, sysfs, tracing, capability words and the bit fields of commands: setup and encoding without a state machine behind them.
- Query and capability ioctls, `mx_lease_sm_authorize_memory_cmd`, mailbox reset and `ioctl_send_cmd_with_data`: they read or fill single words and touch none of the state modelled here.
- Control and passthrough transfers have no mapping in `TransferSteps`; their result copy is not modelled.
- The order of the submit list: the submit thread of `TransferSteps` may push any listed transfer, not only the first.
- First-generation teardown has no admin queue; `DeviceTeardown` follows the second generation.
- LeaseMethods.DeviceLease.BindLocked: the driver reads the profile more than once on its way to the lock; the model reads it once, before the lock.
- LeaseGuarantees.DeliveredRunsAreGuarded: speaks of runs whose replies are delivered; which faults break which guard is `LeaseFaults.FaultBreaksIff`.
- AdminQueue.Driver.DrainPending: the driver polls without limit; the model watches a given number of polls and reports `Waiting` if the answer has not come, which promises nothing. The same holds of `DeviceTeardown.Device.DrainIo`, `StopProtocol` and `Destroy`.
- QueuePair.Pair.Post: assumes a device that honours the completion head doorbell and leaves one slot free.
