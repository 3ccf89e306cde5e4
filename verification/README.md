# Proofs about Cloud Hypervisor's block mirror, SMMUv3, direct I/O, SMBIOS and pvmemcontrol

Models of five parts of Cloud Hypervisor, with proofs of what they promise on every
input, every run or every reachable state. `dafny verify dfyconfig.toml` checks all of it.

**Block mirror** (`Mirror*.dfy`, `RangeLocks.dfy`). A state machine of any number of
virtqueues, one background copier and the device manager over two disks. A step is one
atomic action of one party; requests in flight reach a disk byte by byte in any order.
Three invariants (locks, control, data) carry the theorems; `MirrorProgress` shows that
whoever holds a range can let go of it, and `MirrorFlush` adds write-back caches and what
flushes promise about a crash. `MirrorQueueIo` and `MirrorCopyWorker` are the
threads as code: each of their actions is a protocol step, between two of them every
other party may act, and a thread that sleeps in the range lock goes on from there.
`MirrorRuntime` has the lock and the shared state as objects and shows that the protocol
changes held ranges and phase only as they do.

**SMMUv3** (`Smmu*.dfy`, `Bits.dfy`). The register file, stream table walk, command queue
and event queue as a function of registers, guest memory and the answers of the physical
IOMMU, with bit operations defined bit by bit. Theorems range over all runs of a guest
that fills ring slots before announcing them and may rewrite any command until it is
executed, and the class `Smmuv3` computes the same function with the loops of the device.

**Direct I/O** (`Aligned*.dfy`). Bounced reads and writes through an aligned window over a
file whose calls may be short, interrupted or fail.

**SMBIOS** (`Smbios*.dfy`). The table writer, the string-set reader and a walker over
structures, with their round trip.

**pvmemcontrol** (`Pvmemcontrol.dfy`). The transport state machine and its cyclic
identifier allocator.

## Findings

- A Ready mirror is in sync exactly in the surroundings named by `Sound`
  (`MirrorLimits.ReadyIsInSyncExactly`). It is not when a wait on the source errors: the
  request returns early, its guard is dropped and the phase stays Ready
  (block/src/mirror.rs:374-378). Nor when a hole reads as zero on one disk only, or when
  the copier punches a hole into a block device whose discard is reported as success
  without zeroing (block/src/sparse.rs:72-77).
- A rejected phase transition, which panics, is reachable in exactly two ways
  (`MirrorLimits.PanicsExactly`, `NeverPanicsExactly`). A worker fails to replace its
  backend: it then takes requests again on the mirror, in Cancelling or Completing, and
  a destination failure cannot be recorded any more
  (virtio-devices/src/block.rs:624-651, 692-714). Or the drain of a retried cancellation
  fails and resumes the queues although the phase is already Cancelling
  (virtio-devices/src/block.rs:1767-1799).
- A worker that fails to switch to the destination serves the source while another queue
  may have written to the destination alone (`MirrorLimits.QueuesAgreeExactly`); only such
  bytes and bytes in flight can be stale (`MirrorTheorems.StaleOnlyWhereSwitched`).
- A write to CR0 that turns on the command queue and changes SMMUEN at once skips the
  reconfiguration of all streams when a pending command fails, and neither the repair of
  the command nor its acknowledgement makes up for it
  (`SmmuLimits.SkippedReconfigurationPersists`, a run from reset).
  `SmmuLimits.SafeExactly` names the writes to CR0 that are safe in every state since
  reset.
- A bounced write extends a short file to the end of its window with zeros
  (`AlignedSpec.PlainExactly` says exactly when it does not). A zero-length vectored write
  at an unaligned offset does so too.
- SMBIOS strings that are empty or contain a NUL change what a reader sees
  (`Smbios.TableRoundTripExactly`), and the OEM string count is taken modulo 256
  (`Smbios.OemCountExactly`).

## Assumptions

- Guest memory is a map of aligned 64-bit words for the SMMU, bytes elsewhere; concurrent
  changes are separate steps.
- The physical IOMMU, the kernel's answers to reads and writes, allocation, and the
  completions of block backends are arbitrary inputs.
- The device manager sends `ResumeQueue` only as `resume_queues` does: before a transition
  to Completing, or in a retried cancellation.
- A backend that reports a flush as done has made everything durable that reached it
  before the flush was submitted; caches write back whatever and whenever they like.
- `usize` is 64 bits wide.

## Model

| member | source | states |
|---|---|---|
| `RangeLocks.OverlapsAnyExact` | block/src/mirror.rs:61-66 | on every map of disjoint ranges the single lookup at the greatest start below the end answers exactly whether any held range shares a byte |
| `RangeLocks.OverlapsAnyNeedsDisjointness` | block/src/mirror.rs:61-66 | with nested ranges the lookup misses overlaps: the exactness rests on the disjointness the lock keeps |
| `RangeLocks.InsertKeeps` | block/src/mirror.rs:71-96 | a range that passed the test overwrites no entry and leaves the map disjoint |
| `RangeLocks.RemoveUndoesInsert` | block/src/mirror.rs:99-118 | releasing by start offset removes exactly the range that the acquisition added |
| `MirrorRuntime.RangeLockManager.constructor` | block/src/mirror.rs:53-58 | no range is held at first |
| `MirrorRuntime.RangeLockManager.LockRange` | block/src/mirror.rs:71-96 | invalid input exactly for empty or overflowing ranges, waiting exactly on an overlap, else the range is added |
| `MirrorRuntime.RangeLockManager.Release` | block/src/mirror.rs:99-103 | removes the range that starts at the offset and nothing else |
| `MirrorRuntime.MirrorState.constructor` | block/src/mirror.rs:185-194 | a new mirror is Running with nothing copied |
| `MirrorRuntime.MirrorState.TryTransition` | block/src/mirror.rs:202-238 | accepts exactly the transition table and self-transitions, keeps the recorded reason, never leaves Failed or Cancelling for a live phase, never re-enters Running |
| `MirrorRuntime.MirrorState.FinishCopy` | block/src/mirror.rs:270-277 | a successful copy counts only while the mirror is still Running, so a concurrent failure is never overwritten by Ready; a failed copy fails a Running or Ready mirror |
| `MirrorRuntime.GrantedExactly` | block/src/mirror.rs:61-96 | in every reachable state a waiting request or block is granted its range exactly when no held range shares a byte with it, and sleeps exactly otherwise |
| `MirrorRuntime.HeldOnlyByTheLock` | block/src/mirror.rs:71-118 | every step of every party changes the held ranges only by an acquisition that the lock grants or by the release of a held range |
| `MirrorRuntime.PhaseOnlyByTransition` | block/src/mirror.rs:202-238 | every step of every party leaves the phase alone or makes a transition of the table |
| `MirrorLocks.HeldWellFormed` | block/src/mirror.rs:47-118 | when held ranges and guards correspond, the held ranges are non-empty and pairwise disjoint, as the overlap test needs |
| `MirrorLocks.LocksKept` | block/src/mirror.rs:71-118 | every step of every party keeps the correspondence between guards and held ranges |
| `MirrorControl.FailAccepted` | block/src/mirror.rs:346-351 | a queue that can fail the mirror does so in a phase that accepts the failure, unless a swap failed in Completing, or a swap or retried drain in Cancelling |
| `MirrorControl.ControlKept` | virtio-devices/src/block.rs:658-712 | every step keeps the agreement of phase, copier and queues, failed swaps included |
| `MirrorSync.GuardedByOne` | block/src/mirror.rs:358-367 | a byte under the guard of one queue is under no other guard, nor in the block of the copier |
| `MirrorSync.BlockFinished` | block/src/mirror.rs:680-723 | when a block is finished both disks agree on it, so the frontier may pass it |
| `MirrorSync.DataKept` | block/src/mirror.rs:358-478 | every step keeps the relation between the disks: equal below the frontier except where a holder is at work |
| `MirrorTheorems.ReachableInv` | block/src/mirror.rs:120-170 | the three invariants hold in every state reachable by any interleaving of queues, copier and device manager |
| `MirrorTheorems.LockTestExact` | block/src/mirror.rs:61-66 | in every reachable state the single lookup is an exact overlap test |
| `MirrorTheorems.BelowFrontierInSync` | block/src/mirror.rs:358-478 | in every phase but Failed and Cancelling, every byte below the copy frontier and outside all held ranges is equal on both disks, or was written by the guest to the destination alone, which only happens once the switch-over has begun |
| `MirrorTheorems.ReadyInSync` | block/src/mirror.rs:157-170 | a Ready mirror is in sync outside held ranges, and its disks are equal when nothing is held |
| `MirrorTheorems.ReadyMeansFullCopy` | block/src/mirror.rs:656-674 | Ready and all that follows it only after the whole disk was copied and flushed |
| `MirrorTheorems.CopiedWithinTotal` | block/src/mirror.rs:656-674 | the progress counter equals the copy frontier and never exceeds the disk |
| `MirrorTheorems.BypassOnlyWhenFallen` | block/src/mirror.rs:346-351 | a queue bypasses the destination only once the mirror has failed or is being cancelled |
| `MirrorTheorems.FallenForever` | block/src/mirror.rs:202-238 | over every run Running is never re-entered and a failed or cancelled mirror never becomes Ready |
| `MirrorTheorems.SwitchOverLosesNothing` | virtio-devices/src/block.rs:1597-1610 | when completion commits, nothing is in flight and the disks are equal, so the guest sees the same bytes before and after |
| `MirrorTheorems.OnlyTheGuestChangesItsDisk` | virtio-devices/src/block.rs:1533-1630 | no copy, failure, switch-over, failed swap or cancellation step changes the disk the guest is served from; only bytes of guest writes do |
| `MirrorTheorems.QueuesServeTheView` | virtio-devices/src/block.rs:658-712 | every queue that accepts requests serves them from the disk the guest currently sees, provided that swaps do not fail or the mirror is not Completing |
| `MirrorTheorems.StaleOnlyWhereSwitched` | virtio-devices/src/block.rs:692-714 | even a queue whose swap failed differs from the disk of the guest only in bytes that another queue has written to the destination alone or that are being written |
| `MirrorProgress.NoDeadlock` | block/src/mirror.rs:71-118 | from every reachable state that has not panicked, in all surroundings, the current holders alone can submit, land, acknowledge and release until no range is held, or report a failure that the phase rejects; if none had failed they release everything and the phase stays |
| `MirrorProgress.ReleasableExactly` | block/src/mirror.rs:71-118 | the holders can release every range if and only if no request has failed without the mirror knowing, or the phase is one that records failures |
| `MirrorProgress.ReliableIsCalm` | block/src/mirror.rs:71-118 | so they always can where neither swaps nor retried drains fail |
| `MirrorLimits.ReadyIsInSyncExactly` | block/src/mirror.rs:374-418 | the central promise holds if and only if source waits do not error, both disks treat holes alike, and the copier punches no hole the destination does not zero |
| `MirrorLimits.SourceWaitErrorBreaksSync` | block/src/mirror.rs:374-378 | a run in which both disks have been given a request, the wait for the source errors, and the Ready mirror is out of sync |
| `MirrorLimits.OneSidedHoleBreaksSync` | block/src/sparse.rs:66-87 | a run in which a hole zeroes one disk only |
| `MirrorLimits.StaleHoleBreaksSync` | block/src/mirror.rs:680-723 | a run in which the copier punches a hole into a destination that keeps its old bytes |
| `MirrorLimits.NeverPanicsExactly` | block/src/mirror.rs:259-266 | rejected phase transitions are unreachable if and only if no retried cancellation fails to drain and no worker fails to replace its backend |
| `MirrorLimits.ResumeWhileCancellingPanics` | virtio-devices/src/block.rs:1767-1799 | a run that panics in Cancelling: with the copier at work, the failed drain of a retried cancellation resumes the queues |
| `MirrorLimits.FailedRevertPanics` | virtio-devices/src/block.rs:624-714 | a run that panics in Cancelling without any retry: the swap to the source fails and the queue goes on with the mirror |
| `MirrorLimits.FailedSwitchPanics` | virtio-devices/src/block.rs:624-714 | a run that panics in Completing: the swap to the destination fails and the queue goes on with the mirror |
| `MirrorLimits.PanicsExactly` | block/src/mirror.rs:202-266 | phase by phase: a transition can panic out of Completing if and only if swaps can fail, out of Cancelling if and only if swaps or retried drains can fail, and out of no other phase |
| `MirrorLimits.FailedSwitchServesOldData` | virtio-devices/src/block.rs:692-714 | a run in which one queue writes to the destination while another, whose swap failed, still serves the old byte |
| `MirrorLimits.QueuesAgreeExactly` | virtio-devices/src/block.rs:658-712 | in every reachable state all queues that accept requests serve the disk of the guest, if and only if swaps cannot fail |
| `MirrorWorld.OthersKeepQueue` | block/src/mirror.rs:374-418 | every run of the other parties leaves the private state of a queue alone |
| `MirrorWorld.OthersKeepCopier` | block/src/mirror.rs:656-674 | every run of the other parties leaves the private state of the copier alone |
| `MirrorWorld.ReachableRun` | block/src/mirror.rs:374-418 | runs of the other parties stay within the reachable states |
| `MirrorWorld.World.Take` | block/src/mirror.rs:346-478 | each action of the code below is a step of the protocol and stays within the reachable states, in all surroundings; only the report of a failure can panic, and only where a swap or a retried drain can fail |
| `MirrorQueueIo.CompletionIo.NextCompletion` | block/src/mirror.rs:774-784 | hands out the completions of a backend in order, failing only when there is none |
| `MirrorQueueIo.MirroringAsyncIo.constructor` | block/src/mirror.rs:325-343 | a new mirroring backend uses both disks and has nothing stashed |
| `MirrorQueueIo.MirroringAsyncIo.Fail` | block/src/mirror.rs:346-351 | a failure is recorded for everybody and the queue bypasses the destination, or the phase rejects it and the thread panics |
| `MirrorQueueIo.MirroringAsyncIo.PopOwn` | block/src/mirror.rs:374-381 | finds the completion of the request, stashing the others in order; fails only where waits may error |
| `MirrorQueueIo.MirroringAsyncIo.AwaitSource` | block/src/mirror.rs:374-381 | the completion of the source is found and compared with the expected result; other completions stay in order |
| `MirrorQueueIo.MirroringAsyncIo.AwaitDestination` | block/src/mirror.rs:383-406 | anything but the expected completion of the destination fails the mirror |
| `MirrorQueueIo.MirroringAsyncIo.WaitForCompletions` | block/src/mirror.rs:374-418 | on return both disks took the request or the mirror has failed; completions are neither lost nor reordered |
| `MirrorQueueIo.MirroringAsyncIo.Mirrored` | block/src/mirror.rs:358-367 | one mirrored request: same operation to both disks under the range lock, or asleep because a held range overlaps; a source refusal never reaches the destination; a panic only where swaps or retried drains can fail |
| `MirrorQueueIo.MirroringAsyncIo.LockAndSubmit` | block/src/mirror.rs:430-478 | on arrival and at every wake-up: sleeps on exactly while some held range overlaps, else takes the range, reads guest memory under it and runs the request to its end |
| `MirrorQueueIo.MirroringAsyncIo.ReadUnderLock` | block/src/mirror.rs:445-465 | guest memory is read once, with the range held, and that byte string is the operation for both disks |
| `MirrorQueueIo.MirroringAsyncIo.SubmitDataOperation` | block/src/mirror.rs:430-478 | reads and bypassed writes go to the source alone; a mirrored write puts one byte string on both disks even if guest memory changes; malformed writes reach no disk |
| `MirrorQueueIo.MirroringAsyncIo.Discard` | block/src/mirror.rs:495-523 | holes and zeroes reach both disks under one range lock, or neither |
| `MirrorQueueIo.MirroringAsyncIo.Fsync` | block/src/mirror.rs:480-493 | a flush reaches both disks, with others acting between its steps; done with the mirror alive means that both disks reported success; a destination failure fails the mirror, not the flush |
| `MirrorQueueIo.MirroringAsyncIo.AwaitFlush` | block/src/mirror.rs:374-418 | waits for both completions of a tracked flush; unless the mirror fails, both are successes; fails only where source waits may error, and keeps all completions in order |
| `MirrorFlush.FlushIsDurable` | block/src/mirror.rs:480-493 | on disks with write-back caches, over every run: once a flush is done, every byte of the source not written since it was submitted survives a crash; with the mirror alive so does the same byte of the destination, with the same value, below the frontier and outside requests in progress |
| `MirrorFlush.AcknowledgedHasArrived` | block/src/mirror.rs:374-418 | over every run, for every byte of the disk: a mirrored write that is about to be acknowledged is on both disks, so it is what a later flush preserves; except bytes last written by a queue not mirroring yet, by a queue already switched over, or by a failed copier |
| `MirrorFlush.OnlySrcShrinksFromStart` | virtio-devices/src/block.rs:1672-1718 | once the copier has started, no write of a live mirror reaches the source alone |
| `MirrorFlush.ReadyIsDurable` | block/src/mirror.rs:656-674 | over every run from Ready on, every byte of the destination not written since the final flush of the copier survives a crash |
| `MirrorQueueIo.MirroringAsyncIo.NextCompletedRequest` | block/src/mirror.rs:525-530 | stashed completions first, then those of the source: the stream is conserved |
| `MirrorQueueIo.MirroringAsyncIo.SubmitBatchRequests` | block/src/mirror.rs:532-549 | batches reach the source only, and only while bypassing |
| `MirrorCopyWorker.TileCovers` | block/src/mirror.rs:656-674 | the copied blocks cover every byte of the disk exactly once |
| `MirrorCopyWorker.NextBlockOk` | block/src/mirror.rs:606-674 | the checks before the start make every later block aligned and representable |
| `MirrorCopyWorker.CopyWorker.constructor` | block/src/mirror.rs:606-630 | a worker whose geometry passed the checks starts with nothing copied |
| `MirrorCopyWorker.CopyWorker.CopyBlock` | block/src/mirror.rs:680-723 | copies one block under the range lock, or sleeps because a held range overlaps it; afterwards the frontier has moved by it, or an error at any byte is recorded |
| `MirrorCopyWorker.CopyWorker.CopyWanted` | block/src/mirror.rs:656-674 | at the block and at every wake-up: sleeps on while a held range overlaps, else the block is copied and extends the tiling, or fails |
| `MirrorCopyWorker.CopyWorker.Run` | block/src/mirror.rs:656-674 | from its start or from any wake-up, under any interleaving, the blocks tile the disk; a full return means all of it, an early one that Running was left |
| `MirrorCopyWorker.CopyWorker.FinishCopy` | block/src/mirror.rs:270-277 | Ready is entered only from Running after a full copy |
| `SmmuQueue.NextPointerIs` | devices/src/smmuv3.rs:330-341 | for every queue size and 32-bit pointer: one step modulo twice the size, all status bits kept |
| `SmmuQueue.IsEmptyIff` | devices/src/smmuv3.rs:343-345 | empty if and only if producer and consumer are at distance zero modulo twice the size |
| `SmmuQueue.IsFullIff` | devices/src/smmuv3.rs:347-352 | full if and only if they are one queue size apart |
| `SmmuRing.DistinctEntries` | devices/src/smmuv3.rs:321-324 | entries of counts less than one queue size apart do not overlap |
| `SmmuStreamTable.AlignDownIs` | devices/src/smmuv3.rs:226-231 | rounds down to a multiple, also where the shift exceeds the word |
| `SmmuStreamTable.L1InTable` | devices/src/smmuv3.rs:768-777 | every level-1 access stays inside the aligned level-1 table |
| `SmmuStreamTable.L2InTable` | devices/src/smmuv3.rs:779-791 | a level-2 entry lies inside the aligned table its descriptor names |
| `SmmuStreamTable.L2Disjoint` | devices/src/smmuv3.rs:784-791 | different indices give disjoint 64-byte entries |
| `SmmuStreamTable.TwoLevelRefinesLinear` | devices/src/smmuv3.rs:745-792 | when level-1 descriptors tile one aligned table at full span, both formats find the same entry for every stream |
| `SmmuDecoding.DecodeExactly` | devices/src/smmuv3.rs:833-882 | each kind of command exactly by opcode and fields: CFGI_STE alone configures, namely the stream in the upper half of its first word; only invalidations are forwarded (ATC_INV only with ATS and SMMUEN); secure, reserved and unknown ones are illegal |
| `SmmuDecoding.EntryExactly` | devices/src/smmuv3.rs:722-743 | an entry is used exactly when found, readable and valid, with its configuration from bits 1 to 3; a fault exactly when unreadable |
| `SmmuDecoding.ModeExactly` | devices/src/smmuv3.rs:799-823 | the mode a stream gets while translation is enabled, from the low four bits of its entry in guest memory: 9 passes through, 11, 13 and 15 install the entry, all else and a missing entry block; an unreadable table changes nothing |
| `SmmuDecoding.BypassModeExactly` | devices/src/smmuv3.rs:799-806 | with translation off bit 20 of GBPA decides between blocking and pass-through |
| `SmmuDecoding.HalvesAreWhole` | devices/src/smmuv3.rs:578-590 | two 32-bit writes to the halves of a register, in either order, are one 64-bit write |
| `SmmuRegisters.SetCmdqErrorIs` | devices/src/smmuv3.rs:884-901 | a command error records its code, becomes active and does not move the consumer index |
| `SmmuRegisters.ErrorCleared` | devices/src/smmuv3.rs:627-635 | acknowledging clears the code and does not move the consumer index |
| `SmmuRegisters.RaiseGerrorIs` | devices/src/smmuv3.rs:889-901 | raising an error makes it active exactly once and touches no other error |
| `SmmuRegisters.SetEventOverflowIs` | devices/src/smmuv3.rs:904-913 | an overflow becomes visible once and does not move the producer index |
| `SmmuCommands.FetchIsHead` | devices/src/smmuv3.rs:679-707 | the slot at the consumer index holds the first submitted command not executed, as last rewritten |
| `SmmuCommands.ConsumeKeeps` | devices/src/smmuv3.rs:668-720 | one pass over at most a queue of entries ends with nothing pending or with an active error |
| `SmmuCommands.HaltedUntilAcknowledged` | devices/src/smmuv3.rs:627-675 | over every run without an acknowledgement, rewritten slots included, a command error stays and nothing is attempted |
| `SmmuCommands.ResumesAtTheHaltedSlot` | devices/src/smmuv3.rs:627-720 | over every run from an idle ring to an error, through any repair, to the acknowledgement: the first attempt afterwards is at the slot that was first when the queue halted, with what the guest has put there since; illegal or unreadable fails again, a command that asks for nothing succeeds |
| `SmmuCommands.ErrorCodeExactly` | devices/src/smmuv3.rs:695-710 | a batch that stops at a failure leaves CERROR_ABT for a command that could not be fetched and CERROR_ILL for any other |
| `SmmuCommands.CommandsInOrder` | devices/src/smmuv3.rs:577-720 | over every run of the guest protocol, with commands rewritten until they are executed: each is executed once and in order, all announced ones while the queue runs, the consumer names the first one not executed, every attempt fetched what that slot held at the time, and none follows a failure without an acknowledgement |
| `SmmuForwarding.ForwardedInOrder` | devices/src/smmuv3.rs:833-868 | a batch hands the physical IOMMU exactly the invalidations it executed, in order |
| `SmmuForwarding.IssuedInOrder` | devices/src/smmuv3.rs:577-868 | over every run, errors, repairs and reconfigurations included, the physical IOMMU receives exactly the invalidations among the executed commands, each once and in order |
| `SmmuEvents.StoreWordsIs` | devices/src/smmuv3.rs:935-940 | a record store succeeds exactly when all its words are backed and touches nothing else |
| `SmmuEvents.FullMeansNoRoom` | devices/src/smmuv3.rs:925-930 | the queue is full exactly when one queue of records is unread |
| `SmmuEvents.PushExactly` | devices/src/smmuv3.rs:916-952 | disabled, abort pending, full, queued and faulted exactly under their conditions; a fault is raised and leaves the producer alone |
| `SmmuEvents.EventsInOrder` | devices/src/smmuv3.rs:904-952 | over every run the guest reads the records as queued, none is overwritten unread, and the overflow flags differ exactly when a record was lost since the last acknowledgement |
| `SmmuStreams.ConfigureStreamIs` | devices/src/smmuv3.rs:799-823 | a successful configuration sets that stream right and leaves the others alone |
| `SmmuStreams.ConfigureAll` | devices/src/smmuv3.rs:825-831 | a reconfiguration that succeeds sets every known stream right |
| `SmmuStreams.WriteConfigures` | devices/src/smmuv3.rs:577-666 | one write keeps every stream right if it succeeds, or fails on a reliable platform other than by skipping the reconfiguration |
| `SmmuStreams.StreamsStayConfigured` | devices/src/smmuv3.rs:577-666 | over every such run each known stream is in the GBPA mode or in the mode of its entry fetched last |
| `SmmuLimits.SkippedReconfigurationPersists` | devices/src/smmuv3.rs:597-609 | a run from reset on a reliable platform after which everything reports success and a stream is still passed through although its entry asks for an abort |
| `SmmuLimits.VictimFromReset` | devices/src/smmuv3.rs:577-666 | every such starting state, with a configured stream and an illegal command pending, is reached by register writes from reset |
| `SmmuLimits.SafeExactly` | devices/src/smmuv3.rs:597-609 | for every value CR0 can hold, a write to CR0 keeps streams right in every state since reset on a reliable platform if and only if it does not turn on the command queue and change SMMUEN at once |
| `SmmuRuntime.Smmuv3.constructor` | devices/src/smmuv3.rs:421-465 | after reset every register reads zero and no stream is known |
| `SmmuRuntime.Smmuv3.ReadEntry` | devices/src/smmuv3.rs:730-735 | the words of an entry, exactly if all are readable |
| `SmmuRuntime.Smmuv3.ConfigureOne` | devices/src/smmuv3.rs:799-823 | configures one stream as specified |
| `SmmuRuntime.Smmuv3.Raise` | devices/src/smmuv3.rs:889-901 | raises an error as specified |
| `SmmuRuntime.Smmuv3.RecordCmdqError` | devices/src/smmuv3.rs:884-887 | records a command error as specified |
| `SmmuRuntime.Smmuv3.OverflowEvents` | devices/src/smmuv3.rs:904-913 | toggles the overflow flag as specified |
| `SmmuRuntime.Smmuv3.ReadCommand` | devices/src/smmuv3.rs:681-694 | fetches the command at the consumer index, exactly if both words are readable |
| `SmmuRuntime.Smmuv3.ConsumeCommands` | devices/src/smmuv3.rs:668-720 | the loop over the ring computes the specified batch |
| `SmmuRuntime.Smmuv3.ConfigureAllStreams` | devices/src/smmuv3.rs:825-831 | the loop over the known streams computes the specified reconfiguration, stopping at the first failure |
| `SmmuRuntime.Smmuv3.DispatchCommand` | devices/src/smmuv3.rs:833-882 | each opcode has the specified effect |
| `SmmuRuntime.Smmuv3.Fetch` | devices/src/smmuv3.rs:722-743 | reads the entry of a stream, or reports why not |
| `SmmuRuntime.Smmuv3.Push` | devices/src/smmuv3.rs:916-952 | the event push computes the specified state and outcome, including a partial store |
| `SmmuRuntime.Smmuv3.WriteControl` | devices/src/smmuv3.rs:597-609 | a CR0 write consumes commands and reconfigures streams as specified |
| `SmmuRuntime.Smmuv3.WriteBypass` | devices/src/smmuv3.rs:616-622 | a GBPA write reconfigures streams while translation is off |
| `SmmuRuntime.Smmuv3.WriteErrorAck` | devices/src/smmuv3.rs:627-635 | an acknowledgement clears the code and resumes consumption |
| `SmmuRuntime.Smmuv3.WriteStored` | devices/src/smmuv3.rs:637-662 | the other registers hold what is written through their masks |
| `SmmuRuntime.Smmuv3.Write` | devices/src/smmuv3.rs:577-666 | a register write computes the specified state, result and command log |
| `AlignedSpec.MaskFindsWindow` | block/src/aligned_buffer.rs:39-57 | masking and rounding yield the window around the request |
| `AlignedSpec.WindowUnique` | block/src/aligned_buffer.rs:39-57 | a request has exactly one smallest aligned window |
| `AlignedSpec.BouncedRefinesPlain` | block/src/aligned_file.rs:135-149 | for every file, offset, length and alignment the bounced write is the plain write followed by zeros up to the end of the window |
| `AlignedSpec.PlainExactly` | block/src/aligned_file.rs:135-149 | the file is exactly as after a plain write if and only if that file reaches the end of the window |
| `AlignedSpec.BouncedElsewhere` | block/src/aligned_file.rs:135-149 | no byte outside the request changes |
| `AlignedSpec.ReadBack` | block/src/aligned_file.rs:135-149 | a read of the same range returns what was written |
| `AlignedSpec.TornWrite` | block/src/aligned_buffer.rs:126-128 | if only a prefix of the window is written every byte is the old or the new one |
| `AlignedSpec.ReadRefinesPlain` | block/src/aligned_buffer.rs:108-123 | the clipped window holds exactly the clipped request |
| `AlignedSpec.ScatterThenConcat` | block/src/aligned_file.rs:178-191 | scattering into disjoint pieces and concatenating them gives the data back, followed by what was there |
| `AlignedIo.NewBuffer` | block/src/aligned_buffer.rs:31-80 | each error exactly under its condition, else a zeroed buffer of the right shape |
| `AlignedIo.AlignedBuffer.constructor` | block/src/aligned_buffer.rs:62-79 | a zeroed buffer of the requested shape |
| `AlignedIo.AlignedBuffer.ReadFrom` | block/src/aligned_buffer.rs:108-123 | for any pattern of short reads and interruptions the buffer is the window and the count is what of the request lies before end of file |
| `AlignedIo.AlignedBuffer.WriteTo` | block/src/aligned_buffer.rs:126-128 | writes a prefix of the window, all of it on success |
| `AlignedIo.AlignedBuffer.Gather` | block/src/aligned_file.rs:220-233 | copies the pieces one after the other over the request part |
| `AlignedIo.Scatter` | block/src/aligned_file.rs:178-191 | fills the pieces in order until the data runs out |
| `AlignedIo.AlignedFile.ReadUnaligned` | block/src/aligned_file.rs:119-132 | a bounced read is a plain read; on error memory is unchanged |
| `AlignedIo.AlignedFile.WriteUnaligned` | block/src/aligned_file.rs:135-149 | a bounced write is a plain write plus zeros up to the end of the window; on error old and new bytes only |
| `AlignedIo.AlignedFile.ReadVectoredAt` | block/src/aligned_file.rs:155-192 | aligned requests may be short, others are complete; both read the concatenation |
| `AlignedIo.AlignedFile.WriteVectoredAt` | block/src/aligned_file.rs:198-235 | aligned requests may be short, others are complete; both write the concatenation |
| `AlignedIo.AlignedFile.ReadAt` | block/src/aligned_file.rs:239-250 | a prefix of the plain read, empty only at end of file |
| `AlignedIo.AlignedFile.WriteAt` | block/src/aligned_file.rs:252-263 | an empty write does nothing; aligned and bounced writes as above |
| `Smbios.StringSetRecoveredExactly` | arch/src/smbios.rs:469-502 | a printed string set is read back, with what follows untouched, if and only if no string is empty or holds a NUL |
| `Smbios.ReadPrintedStructure` | arch/src/smbios.rs:202-251 | the same for a structure, found by the length in its header |
| `Smbios.TableFramed` | arch/src/smbios.rs:369-432 | types come in the order 0, 1, optional 3, optional 11, 127, each with its right length |
| `Smbios.TableRoundTripExactly` | arch/src/smbios.rs:369-432 | walking the printed table yields exactly its structures and ends where the writer stopped, if and only if every configured string is printable |
| `Smbios.SystemIndicesName` | arch/src/smbios.rs:300-320 | each index of the system structure names its own string, 0 exactly for an absent one |
| `Smbios.ChassisIndexNames` | arch/src/smbios.rs:333-367 | the same for the asset tag |
| `Smbios.HandlesConsecutive` | arch/src/smbios.rs:369-432 | handles are unique: the position of the structure, from 1 |
| `Smbios.SystemCarriesUuid` | arch/src/smbios.rs:294-320 | the UUID bytes sit in the system structure, zeros without one |
| `Smbios.OemCountExactly` | arch/src/smbios.rs:403-411 | the OEM count is the number of strings if and only if there are at most 255 |
| `SmbiosWriter.ComputeChecksum` | arch/src/smbios.rs:90-96 | the returned byte makes the bytes add up to zero modulo 256 |
| `SmbiosWriter.EntryPointFields` | arch/src/smbios.rs:434-450 | size and pointer in the entry point read back as the values written |
| `SmbiosWriter.AllocIndex` | arch/src/smbios.rs:260-272 | hands out 1 to 255 in turn and fails exactly when the counter has wrapped |
| `SmbiosWriter.Writer.Emit` | arch/src/smbios.rs:202-212 | appends bytes at the pointer and advances it, or there is not enough memory for them |
| `SmbiosWriter.Writer.WriteString` | arch/src/smbios.rs:214-224 | appends the string and its terminator, or there is not enough memory for them |
| `SmbiosWriter.Writer.WriteOptString` | arch/src/smbios.rs:226-236 | appends the string if there is one |
| `SmbiosWriter.Writer.WriteStringTerminator` | arch/src/smbios.rs:238-251 | appends one terminator after strings and two without |
| `SmbiosWriter.Writer.WriteType0Bios` | arch/src/smbios.rs:380-395 | appends the printed BIOS structure |
| `SmbiosWriter.Writer.WriteType1System` | arch/src/smbios.rs:274-331 | appends the printed system structure, or reports the malformed UUID before writing |
| `SmbiosWriter.Writer.WriteType3Chassis` | arch/src/smbios.rs:333-367 | appends the printed chassis structure |
| `SmbiosWriter.Writer.WriteOemStrings` | arch/src/smbios.rs:403-420 | appends the printed OEM strings structure |
| `SmbiosWriter.Writer.WriteEnd` | arch/src/smbios.rs:422-432 | appends the printed end-of-table structure |
| `SmbiosWriter.WriteEntryPoint` | arch/src/smbios.rs:434-450 | writes an entry point that adds up to zero and leaves the table alone |
| `SmbiosWriter.SetupSmbios` | arch/src/smbios.rs:369-462 | succeeds exactly when the UUID parses and everything fits memory and the limit; memory then holds an entry point that sums to zero and the printed table |
| `SmbiosWriter.PublishedReadsBack` | arch/src/smbios.rs:369-462 | walking published memory from behind the entry point yields exactly the structures of the configuration and the rest of memory, if and only if every configured string is printable |
| `SmbiosReader.ReadStringSetAt` | arch/src/smbios.rs:469-502 | the nested reading loops compute the specified parse |
| `Pvmemcontrol.CommandsAreNotConnections` | devices/src/pvmemcontrol.rs:67-77 | no command value has the top bit that marks a connection |
| `Pvmemcontrol.FindFree` | devices/src/pvmemcontrol.rs:300-315 | the cyclic search ends within one round, with the first free identifier or, exactly if all 2^31 are taken, none |
| `Pvmemcontrol.PvmemcontrolDevice.constructor` | devices/src/pvmemcontrol.rs:660-666 | the device starts broken |
| `Pvmemcontrol.PvmemcontrolDevice.RegisterPercpuBuf` | devices/src/pvmemcontrol.rs:282-322 | registers a range-checked buffer under the first free identifier and leaves it in the payload, else breaks the device |
| `Pvmemcontrol.PvmemcontrolDevice.RunCommand` | devices/src/pvmemcontrol.rs:342-381 | each command replaces state and reply as specified; after a registration the payload reads the identifier |
| `Pvmemcontrol.PvmemcontrolDevice.HandleCommandWrite` | devices/src/pvmemcontrol.rs:610-650 | a command is run, any other value changes nothing and is looked up only if it names a connection |
| `Pvmemcontrol.RegisterExactly` | devices/src/pvmemcontrol.rs:282-322 | after every run registration succeeds if and only if the device is initialising, the buffer is in guest memory and an identifier is left, and yields the next one in line |
| `Pvmemcontrol.LookupExactly` | devices/src/pvmemcontrol.rs:405-410 | after every run a lookup succeeds exactly when ready and for identifiers handed out since the reset, and returns the range-checked address registered under it |

## Left out

- Thread creation, eventfds, the notification of the condition variable and fairness: a sleeping thread may try again at any time, and `NoDeadlock` says the holders can always finish, not that the scheduler lets them.
- Reattaching a reset device to an active mirror, pausing, locks on image files, and the read-only destination swap (virtio-devices/src/block.rs:1533-1590, 1648-1675).
- Allocation failures of copy buffers, and the contents of disk formats such as qcow2.
- MirrorWorld.World.OthersThanQueue: the body does nothing and callers rely on the contract alone; OthersKeepQueue and ReachableRun show that every run of the others meets it that does not panic; what a thread does after another one has panicked is not modelled.
- MirrorWorld.World.OthersThanCopier: the same for the copier, by OthersKeepCopier and ReachableRun.
- MirrorQueueIo.MirroringAsyncIo.Fsync: the answers of the disks; what an answer means for caches is in MirrorFlush, whose flush steps the method does not take itself.
- SmmuCommands.CommandsInOrder: the guest does not rewrite CMDQ_BASE or CMDQ_CONS during a run, and changes a slot that is not executed yet only by storing a whole command.
- SmmuEvents.EventsInOrder: the guest acknowledges either the overflow it read from EVENTQ_PROD or leaves the flag as it was.
- SMMU registers that only store a value (CR1, CR2, IRQ_CTRL, the interrupt configuration), register reads, interrupts, identification registers, snapshots and restore.
- AlignedFile aligned path: one system call, whose short transfers the caller must handle.
- AlignedIo.AlignedBuffer.Gather: reads guest memory as a value, so changes during the copy are not modelled.
- Pointers wrapping the 64-bit address space in the SMBIOS writer; the area is an array from SMBIOS_START.
- SmbiosWriter.Writer.Emit: a write that does not fit leaves memory unchanged, where the original may write part of it.
- UUID parsing, and the kernel operations that pvmemcontrol requests trigger.
- Partial writes to the pvmemcontrol payload; any payload may precede a command, and an acknowledgement or error without an identifier leaves any payload.
