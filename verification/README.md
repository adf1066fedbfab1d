# Verification of WinSpd

WinSpd presents user-mode programs as SCSI disks. Its kernel driver queues the SCSI requests
(SRBs) that StorPort posts, hands them to the threads of a user-mode device one chunk at a time,
and completes them; a pipe transport carries the same requests between processes; a launcher
starts and stops the devices; two tools read SCSI data and write partition tables. This project
models the parts of that code whose correctness is not plain from one function, and proves what
they promise.

One module models one component:

- `Ioq`, over `HashIndex`: the driver's queue of SRBs as a class, each method one spinlock section,
  proved to compute the functions of `IoqSpec`; `UnitTable`, over `UnitSlots`: the table of storage
  units and its two bitmap scans.
- `Driver`, `DriverRuns`, `DriverHistory`: all interleavings of provision, unprovision, reference, dereference, post,
  cancel, reset, stop, wait and completion, by any number of threads. One action is one spinlock
  section; the wait for the event token is an action of its own outside the lock. The queue
  operations in it are those of `IoqSpec`. The invariant ties table, reference counts, queues and
  tokens together; `DriverRuns` draws the safety and wakeup theorems from it,
  `DriverHistory` and `QueueHistory` say which earlier steps a state goes back to, `QueueOrder` and
  `DriverOrder` in which order a unit serves its SRBs.
- `Cdb`, `Scsi`, `UnmapList`, `Transfer`, `TransferRuns`, `DeviceRuns`: what is accepted from StorPort, how one SRB
  becomes chunks, and that the chunks have the effect of a single transfer on an array of blocks.
- `SystemSteps`, `SystemRuns`, `LateAnswers`: any number of SRBs and device threads at once, with
  addresses that are used again; when a success is the transfer's own, and when it is not.
- `Hints`, `PipeTransport`, `PipeEpoch`, `Dispatcher`, `DispatcherThreads`, `FillPattern`: the
  user-mode transport, its dispatcher threads and the tester's data pattern.
- `Launcher`, `Lists`, `InstanceList`, `Names`, `LauncherWire`, `Parts`, `Persistent`: instance
  lifetime, the pipe commands and the persistent instances of the launcher.
- `BitFields`, `ScsiText`, `ScsiTextRuns`, `ScsiTextHalts`, `Mbr`: the bit-field reader and the master boot record.

Code that changes state is modelled by classes and methods with loops, proved against functions;
protocols between threads are state machines over those functions, and their theorems quantify
over every run. Fixed-width arithmetic is written out where it can wrap.

Where the code does not do what it is for, the model follows the code and the exact condition is
proved:

- `BlockCount * BlockLength` is a 32-bit product: chunks partition the range, and a pipe READ
  carries all its bytes, if and only if it does not wrap (`TransferRuns.ChunksPartitionExactly`,
  `PipeTransport.ReadLengthExact`, `WriteRoundTrip`; `TransferRuns.WrappedTransferMovesNothing` is a concrete case).
- The driver knows the answer to a request only by the address of the SRB's extension, which StorPort
  may use again once the SRB was cancelled or reset. A transfer posted at an address with which the
  device still holds a request can succeed by that request's answer: a READ with another's data, a
  WRITE without having been written (`LateAnswers.ReadOfAnothersBlock`). It takes none but its own
  answers if and only if no such request is held (`LateAnswers.OwnAnswersExactlyWhenNoneHeld`).
- The hint table is not cleared on disconnect: a READ is refused while an earlier one with its hint is
  unanswered, whoever sent it (`PipeTransport.StaleHintDropsReads`, `RefusedAfterReconnect`).
- A persistent instance without arguments is not restarted, and one with ten or more, which the
  pipe's limit of nine keeps out, would be misread (`Persistent.ValueRoundTrip`); a value or name that does not fit hides every later one
  of its key (`Persistent.RestartRoundTrip`).
- A launcher error of 2^31 or more is printed with a sign and read back as a broken pipe
  (`LauncherWire.ReplyRoundTrip`).
- The text tool loops for ever exactly when a round through the last starred group changes nothing
  (`ScsiTextHalts.HangsExactlyOnAStillRound`).
- `LastCHS` is computed from the first block after the partition, where the MBR layout has the last
  block of it; the two agree exactly beyond the range of the three bytes (`Mbr.LastChsExact`).
- A debug assertion expects `HashNext` to be zero when processing starts (src/sys/ioq.c:222), but a
  reposted SRB keeps its old value (src/sys/ioq.c:266-282): it holds exactly for those that ended
  their bucket (`Ioq.RepostAndRestart`, `Ioq.DebugAssertionFails`). Nothing else depends on it; the
  queue is modelled as the release build has it.

`dafny verify dfyconfig.toml` checks the project.

## Model

| member | source | states |
|---|---|---|
| HashMix.UnmixMix | src/sys/driver.h:159-167 | the 64-bit mix has an inverse: unmixing gives the key back, for every key |
| HashMix.Injective | src/stgtest/stgtest.c:424-432 | two keys with the same mix are the same key |
| HashMix.OnlyZeroToZero | src/stgtest/stgtest.c:424-432 | only zero mixes to zero |
| HashIndex.HashedInsert | src/sys/ioq.c:217-225 | entering a new SRB in front of its bucket keeps every member once, in the bucket of its address, and no other SRB in any bucket |
| HashIndex.HashedRemove | src/sys/ioq.c:262-266 | unlinking one chain position keeps the same for the remaining members |
| HashIndex.ChainsDisjoint | src/sys/ioq.c:262-266 | no SRB is at two positions of the chains, so changing one link disturbs one bucket |
| HashIndex.Index.Find | src/sys/ioq.c:132-134 | the chain walk finds the member with the key together with its predecessor, or there is none in the whole index |
| HashIndex.Index.LastHasNoNext | src/sys/ioq.c:224-225 | a member's HashNext is zero exactly when it ends its bucket's chain |
| HashIndex.Index.Insert | src/sys/ioq.c:217-225 | exactly the new entry joins the index |
| HashIndex.Index.Remove | src/sys/ioq.c:132-143 | exactly the entry with the key leaves the index, keeping its HashNext; without one nothing changes |
| HashIndex.Index.Clear | src/sys/ioq.c:68-71 | the index is empty afterwards |
| IoqSpec.PostKeeps | src/sys/ioq.c:157-183 | posting accepts one SRB more exactly on a running queue; posted = pending + processing + completed, no SRB queued twice, and a stopped queue empty all stay true |
| IoqSpec.CancelKeeps | src/sys/ioq.c:118-155 | after a cancel the SRB is on neither list, the account stays exact and nothing new is queued |
| IoqSpec.CancelMembers | src/sys/ioq.c:142 | a cancel removes exactly one queued SRB, from either list |
| IoqSpec.ResetKeeps | src/sys/ioq.c:55-102 | a reset, stopping or not, keeps the account exact and queues nothing; a stopped queue is left empty |
| IoqSpec.StartKeeps | src/sys/ioq.c:201-242 | starting an SRB loses, doubles and invents none: the account stays exact and no SRB is queued that was not |
| IoqSpec.EndKeeps | src/sys/ioq.c:257-291 | ending keeps the account exact whether the SRB is completed or reposted, and queues nothing new |
| Ioq.SpdIoq.PostSrb | src/sys/ioq.c:157-183 | the queue with its hash index follows the abstract Post; accepted exactly when not stopped |
| Ioq.SpdIoq.CancelSrb | src/sys/ioq.c:118-155 | follows the abstract Cancel; the SRB leaves the index and its list together |
| Ioq.SpdIoq.Reset | src/sys/ioq.c:55-102 | follows the abstract Reset: pending then processing SRBs are notified in order, lists and buckets are empty |
| Ioq.SpdIoq.SetEvent | src/sys/driver.h:265-270 | the event is set afterwards, holding one token |
| Ioq.SpdIoq.TakeToken | src/sys/driver.h:280-288 | a wait consumes the token and changes nothing else |
| Ioq.SpdIoq.StartProcessingSrb | src/sys/ioq.c:199-246 | follows the abstract Start: the delivered SRB, the prepared request, the index and the passed-on wakeup; the debug assertion on HashNext holds exactly if no repost left it dangling |
| Ioq.SpdIoq.EndProcessingSrb | src/sys/ioq.c:249-295 | acts exactly when the hint is the address of an SRB that is processing, then follows the abstract End; a repost leaves HashNext dangling exactly if the SRB did not end its bucket |
| Ioq.RepostAndRestart | src/sys/ioq.c:219-286 | the debug assertion at the start of a further chunk holds if and only if the SRB was the last of its bucket when the response came in |
| Ioq.DebugAssertionFails | src/sys/ioq.c:219-225 | a concrete case: two SRBs in one bucket, the later one reposted |
| UnitSlots.CountUpdate | src/sys/stgunit.c:220-224 | filling or clearing a slot changes the number of occupied slots by one |
| UnitSlots.PublishUnique | src/sys/stgunit.c:203-224 | publishing a unit keeps the GUIDs unique exactly when no slot holds its GUID |
| UnitTable.UnitTable.Provision | src/sys/stgunit.c:200-236 | a name collision exactly when the GUID is in the table, cannot-make exactly when it is full, else the unit goes to the lowest free slot and the count grows by one |
| UnitTable.UnitTable.Find | src/sys/stgunit.c:269-291 | finds the occupied slot that the GUID or index names, or there is none |
| UnitTable.UnitTable.Unprovision | src/sys/stgunit.c:256-320 | only the owner removes a unit; its slot is emptied, its queue stopped, one reference dropped, every other unit untouched |
| UnitTable.UnitTable.ReferenceByBtl | src/sys/stgunit.c:322-344 | the unit at the target number of a BTL with zero bus and LUN, with one reference more; no other unit is touched |
| UnitTable.UnitTable.GetUseBitmap | src/sys/stgunit.c:393-418 | the scan that stops after StorageUnitCount finds computes the same bitmap and count as a scan of the whole table |
| UnitTable.UnitTable.GetList | src/sys/ioctl.c:107-123 | lists the BTLs of exactly the occupied slots, or fails exactly when the buffer is smaller than their number |
| UnitTable.ListBitmap | src/sys/ioctl.c:109-120 | from the bitmap alone the loop lists exactly the flagged indices, or fails exactly when they do not fit |
| UnitTable.WantedIndicesExact | src/sys/ioctl.c:109-120 | the listed indices are exactly the occupied slots |
| UnitTable.WantedIndicesAscend | src/sys/ioctl.c:109-120 | they are listed once each and in ascending order |
| UnitTable.BtlRoundTrip | inc/winspd/ioctl.h:33-36 | bus, target and LUN come back from a BTL, and the one of an index is that target with bus and LUN zero |
| UnitTable.NamesOne | src/sys/stgunit.c:269-291 | a GUID or an index names its own unit and no other |
| UnitTable.SetBit | src/sys/stgunit.c:411 | setting one bit of a bitmap byte changes that bit only |
| UnitTable.UnitTable.NotifyRoutine | src/sys/stgunit.c:83-110 | when a process ends, each unit it owned is removed, stopped and dereferenced once, and all others are untouched |
| Driver.StopRemovedKeeps | src/sys/stgunit.c:310-312 | stopping the queue of a removed unit before its reference is dropped keeps the invariant of all interleavings |
| Driver.PostSrbKeeps | src/sys/scsi.c:663-679 | posting through a referenced unit keeps it |
| Driver.LockKeeps | src/sys/ioq.c:199-246 | the locked section of a waiter that took the token keeps it, the token included |
| Driver.ConsumeKeeps | src/sys/driver.h:280-288 | taking the token outside the lock keeps it |
| Driver.EndSrbKeeps | src/sys/ioctl.c:201-203 | a response keeps it, known hint or not |
| Driver.ProvisionKeeps | src/sys/stgunit.c:200-225 | publishing a new unit keeps it |
| Driver.RemoveSlotKeeps | src/sys/stgunit.c:292-297 | clearing a slot hands the table's reference to the unprovisioning thread and keeps it |
| Driver.ReferenceKeeps | src/sys/stgunit.c:337-341 | taking a reference keeps it |
| Driver.DropKeeps | src/sys/stgunit.c:381-384 | dropping a reference keeps it |
| Driver.DeletingIsLast | src/sys/stgunit.c:386-390 | the thread that brings the count to zero is alone with the unit: no other thread, no table slot, a stopped queue |
| Driver.DeleteKeeps | src/sys/stgunit.c:386-390 | freeing keeps it |
| Driver.StepKeepsInv | src/sys/stgunit.c:256-391 | every atomic step of the kernel path keeps the whole invariant |
| DriverRuns.ReachableInv | src/sys/ioq.c:55-295 | the invariant holds in every state of every run of any number of threads, units and SRBs |
| DriverRuns.QueuedSrbIsSafe | src/sys/scsi.c:663-678 | an SRB in a queue points to that queue's unit, which is not freed and is still referenced; no other queue holds it |
| DriverRuns.AcceptedSrbsAreAccounted | src/sys/ioq.c:55-295 | each accepted SRB is pending, processing or completed, as often as it was accepted and queued at most once |
| DriverRuns.StoppedForever | src/sys/ioq.c:61-99 | once stopped, both lists stay empty, nothing more is accepted and nothing completed again |
| DriverRuns.FreedOnceAndLast | src/sys/stgunit.c:374-391 | a unit is freed at most once, after its queue stopped and every reference went, and nothing refers to it afterwards |
| DriverRuns.NoLostWakeup | src/sys/ioq.c:192-244 | a queue that is stopped or has pending SRBs has its token set or a thread that took it and has not entered the lock yet |
| DriverRuns.SomeWaiterCanMove | src/sys/ioctl.c:212-221 | while a stopped unit has a waiter, some waiter can take its next step |
| DriverRuns.WaitStepDescends | src/sys/ioctl.c:212-221 | each such step brings a waiter nearer to leaving |
| DriverRuns.BeginAdds | src/sys/ioctl.c:211-214 | a thread that begins to wait adds the steps of one wait |
| DriverRuns.OthersDoNotWait | src/sys/ioctl.c:211-221 | no other step of any thread changes who waits on the unit |
| DriverRuns.WaitStepsBounded | src/sys/ioctl.c:212-221 | in any run after a stop, whatever other threads and units do in between, the unit's wait steps are bounded by the waiters at the stop and those that begin to wait later |
| DriverRuns.StopReleasesEveryWaiter | src/sys/ioq.c:92-98 | a stop's single token reaches every waiter, one after another: in any run after it, once no waiter of the unit can go on by itself, none is left |
| DriverRuns.PendingReachesAWaiter | src/sys/ioq.c:227-229 | a pending SRB with a sleeping waiter is at most two steps from being processed |
| DriverHistory.StoppedExactlyByAStop | src/sys/ioq.c:92-99 | in every run of the driver a unit's queue is stopped if and only if its unprovisioning or a stopping reset came before; a device or bus reset stops nothing |
| DriverHistory.PostWaits | src/sys/ioq.c:164-178 | so after any number of other resets a posted SRB is accepted and waits behind the others; after a stop nothing changes |
| DriverHistory.WaiterLeaves | src/sys/ioctl.c:212-221 | a waiter leaves its wait exactly with the head of the queue or after a stop, unless it is aborted; else it waits on |
| DriverHistory.SlotHolds | src/sys/stgunit.c:200-225 | in every run a slot holds a GUID, owner and unit if and only if they were provisioned there and the slot was not cleared since |
| DriverHistory.ReferencesProvisioned | src/sys/stgunit.c:337-341 | a reference is to the unit that was last provisioned at the target |
| DriverHistory.OnlyOwnerRemoves | src/sys/stgunit.c:285-297 | a unit is removed only for the process that provisioned it |
| QueueOrder.AlwaysOrdered | src/sys/ioq.c:55-295 | in every run of one queue, the pending list is the SRBs with a further chunk, then the others in the order of their posts |
| QueueOrder.FirstComeFirstServed | src/sys/ioq.c:172-208 | an SRB is started for the first time only when no reposted one waits, and before everything posted after it |
| QueueOrder.RepostedIsNext | src/sys/ioq.c:271-286 | an SRB with a further chunk is the next one to be started, whatever waits, posts, final ends and cancels of others come in between |
| QueueOrder.PostedBefore | src/sys/ioq.c:172-208 | the last post of an SRB started for the first time came before the last posts of all others that wait |
| QueueHistory.StoppedExactlyByAStop | src/sys/ioq.c:92-99 | a queue is stopped if and only if a stopping reset is among its operations |
| QueueHistory.PostWaits | src/sys/ioq.c:164-178 | a post puts the SRB at the end and wakes a waiter, unless there was such a reset; then the queue stays empty |
| QueueHistory.StartReturns | src/sys/ioq.c:192-244 | a start is cancelled exactly after a stop, unsuccessful exactly when a running queue has nothing pending, and else hands out the head |
| QueueHistory.WhyCompleted | src/sys/ioq.c:73-90 | every completion in the log goes back to one operation: the device's final answer with its status, or a cancel or reset of the queued SRB with ABORTED |
| QueueHistory.CompletedAtOnce | src/sys/ioq.c:55-295 | conversely each of these is notified in the same step, a reset's SRBs in the order of the two lists, and no SRB leaves the queue otherwise |
| DriverOrder.Projects | src/sys/ioq.c:55-295 | what any interleaving of the driver does to a unit's queue is such a run of one queue |
| DriverOrder.DriverServesInOrder | src/sys/ioq.c:172-208 | so in every run of the driver a unit's SRBs are first started in the order of their posts, behind none but reposted ones |
| DriverOrder.DriverRepostedIsNext | src/sys/ioq.c:273-286 | and an SRB with a further chunk goes to the next waiter, whatever threads do in between short of a start, reset, its cancel or another repost |
| Cdb.Decode6 | src/sys/scsi.c:900-913 | READ(6) and WRITE(6) of SBC-2 decode to the range they encode, zero blocks standing for 256 |
| Cdb.Decode10 | src/sys/scsi.c:915-930 | the ten-byte commands decode to the range they encode |
| Cdb.Decode12 | src/sys/scsi.c:954-970 | the twelve-byte commands likewise |
| Cdb.Decode16 | src/sys/scsi.c:932-952 | the sixteen-byte commands likewise |
| Cdb.DecodeEncode | src/sys/scsi.c:883-972 | for every supported command, decoding undoes encoding, whatever the bits outside the fields are |
| Cdb.DecodedIsExpressible | src/sys/scsi.c:883-972 | every command block decodes to a range its format can say |
| Scsi.OutOfRangeExact | src/sys/scsi.c:594-596 | the wrap-then-compare check accepts exactly address + count <= BlockCount in unbounded arithmetic |
| Scsi.PostRangeExact | src/sys/scsi.c:545-600 | each verdict, the errors and the success without transfer included, is given if and only if it is due for the decoded range in unbounded arithmetic; queued exactly when allowed, the buffer suffices and the non-empty range lies on the disk |
| Scsi.EncodedRangeExact | src/sys/scsi.c:545-600 | the same for the command block of any range in any of the formats |
| Scsi.ReadDescriptor | src/sys/scsi.c:631-645 | the bytewise reading of an unmap descriptor is its big-endian address and count |
| Scsi.PostUnmap | src/sys/scsi.c:602-654 | an unmap is queued exactly when it is allowed, well formed and every descriptor lies on the disk; otherwise the first failing check gives the error |
| Scsi.PrepareUnmap | src/sys/scsi.c:751-775 | the user buffer holds the list's descriptors in order, within MaxTransferLength |
| Scsi.DeliveredUnmapOnDisk | src/sys/scsi.c:751-775 | an unmap that the posting accepted can be prepared, fits MaxTransferLength, and every descriptor delivered lies on the disk |
| Scsi.PostAndPrepareUnmap | src/sys/scsi.c:602-775 | posted and then prepared from the unchanged list, the list's descriptors reach the user buffer, all of them on the disk, and nothing if the posting refuses |
| UnmapList.DecodeEncode | src/sys/scsi.c:631-645 | reading a parameter list of SBC-3 gives back the extents it was made from, whatever its reserved bytes, an incomplete last descriptor and the bytes behind it hold |
| UnmapList.EncodedUnmapExact | src/sys/scsi.c:602-654 | for every such list each verdict is given if and only if it is due in unbounded arithmetic, and what is delivered are its extents |
| UnmapList.TruncatedUnmap | src/sys/scsi.c:613-617 | a list cut short anywhere is an internal error, once the unit takes the command at all |
| Transfer.SrbTransfer.Prepare | src/sys/scsi.c:697-749 | the request of the current chunk; a WRITE's bytes of that chunk are in the user buffer |
| Transfer.SrbTransfer.Complete | src/sys/scsi.c:783-843 | a READ's chunk lands at its offset and nowhere else, the offset advances, and PENDING says that a chunk is left |
| Transfer.SrbTransfer.Copy | src/sys/scsi.c:811-813 | copies the bytes and leaves the rest of the destination alone |
| TransferRuns.CompletedFollowsChunks | src/sys/scsi.c:817-820 | PENDING exactly when a further chunk exists; the offset strictly grows; the last round ends at SystemDataLength |
| TransferRuns.AnsweredStatus | src/sys/scsi.c:780-832 | the status of an answered SRB: an error exactly for a failure, which changes nothing; success for a flush or the last chunk; PENDING exactly when bytes are left |
| TransferRuns.AnsweredBuffer | src/sys/scsi.c:802-815 | a READ's chunk is in its place, zeros without a user buffer; every other byte of the SRB's buffer is untouched |
| TransferRuns.RoundCount | src/sys/scsi.c:709-715 | an SRB takes ceil(length / MaxTransferLength) rounds, an empty one a single round |
| TransferRuns.AlignedChunksCover | src/sys/scsi.c:709-715 | the chunks are consecutive, non-empty and together exactly the remaining blocks |
| TransferRuns.CoveredFits | src/sys/scsi.c:714-715 | chunks that cover a range carry no more blocks than the SRB has bytes for |
| TransferRuns.ChunksPartitionExactly | src/sys/scsi.c:559-571 | the chunks partition the requested range if and only if BlockCount * BlockLength fits in 32 bits |
| TransferRuns.WrappedTransferMovesNothing | src/sys/scsi.c:559-560 | a READ(16) of 2^32 bytes is accepted, moves nothing and succeeds after one round |
| TransferRuns.PreparedOnDisk | src/sys/scsi.c:712-715 | every request delivered, at any offset and wrapped or not, lies on the disk and fits the user buffer |
| TransferRuns.PreparedAsEncoded | src/sys/scsi.c:694-749 | a request says what the command encoded in any format: the operation, the chunk's address, a flush's whole range, and forced unit access whenever there is no cache |
| DeviceRuns.IssuedCanExecute | src/sys/scsi.c:682-781 | the device can always carry out the request of a chunk |
| DeviceRuns.ReadInvariant | src/sys/scsi.c:802-820 | in every run, what was read so far is what the disk held in the range |
| DeviceRuns.ChunkedReadIsOneRead | src/sys/scsi.c:802-820 | with no other request writing in the range, a chunked READ leaves in the buffer what one read would have, and nothing else |
| DeviceRuns.WriteInvariant | src/sys/scsi.c:718-739 | in every run, the disk is what the other requests alone would have left, with the chunks written so far on top |
| DeviceRuns.ChunkedWriteIsOneWrite | src/sys/scsi.c:718-739 | likewise a chunked WRITE leaves the disk as one write of the whole buffer would |
| DeviceRuns.TransferCanFinish | src/sys/scsi.c:802-832 | every accepted READ or WRITE whose product does not wrap can finish, in ceil(length / MaxTransferLength) undisturbed rounds |
| DeviceRuns.SomeTransferIsFresh | src/sys/scsi.c:545-600 | there are such transfers: a READ(10) of three blocks in two chunks |
| SystemSteps.StepKeepsInv | src/sys/ioq.c:157-295 | with many SRBs and reused addresses, every request the device holds was prepared from an accepted transfer and lies on the disk, through every step |
| SystemSteps.CanStart | src/sys/scsi.c:682-739 | what is pending can always be prepared for a waiting thread |
| SystemSteps.CanExecuteAndRespond | src/sys/scsi.c:783-843 | what the device holds can always be executed and then answered |
| SystemRuns.OwnRun | src/sys/ioq.c:157-295 | what a transfer sees of a run of the whole unit, cancels, resets and reused addresses included, is a run of its own with the others' writes as outside writes, if it was alone with its address when posted |
| SystemRuns.WriteAmongMany | src/sys/scsi.c:718-832 | among any number of interleaved transfers, a WRITE posted while the device held no request with its address, that succeeds undisturbed, has put its buffer on the disk |
| SystemRuns.ReadAmongMany | src/sys/scsi.c:697-820 | and such a READ has in its buffer what the disk held in its range when it was posted |
| LateAnswers.OwnAnswersExactlyWhenNoneHeld | src/sys/ioq.c:259-264 | whenever it succeeds a pending transfer took none but the answers to its own requests, if and only if the device held no request with its address; otherwise some continuation succeeds by such a late answer |
| LateAnswers.FinishByLateAnswer | src/sys/ioq.c:259-288 | that continuation, from any place in the queue and for any request held |
| LateAnswers.ReadTakesAnyAnswer | src/sys/scsi.c:802-820 | a READ of one chunk then succeeds with whatever data the late answer brings |
| LateAnswers.WriteTakesAnyAnswer | src/sys/scsi.c:822-832 | a WRITE of one chunk then succeeds with the disk as it was |
| LateAnswers.ReadOfAnothersBlock | src/sys/ioq.c:259-264 | a concrete run: a READ is cancelled while the device is at it, the address is used again, and the new READ succeeds with the cancelled one's block |
| Hints.HintTable.Take | src/shared/stghandle.c:66-87 | removes and returns the value recorded for a hint, zero if there is none; every other hint keeps its value |
| Hints.HintTable.Put | src/shared/stghandle.c:89-114 | adds an absent hint and refuses a present one, leaving the map unchanged |
| PipeTransport.CopyIn | src/shared/stghandle.c:393-397 | a shorter message is padded with zeros, a longer one cut, the rest of the buffer untouched |
| PipeTransport.Fetch | src/shared/stghandle.c:363-414 | a request is dropped exactly when it is short, too long, or a READ whose hint is in use; a READ's length is recorded, and no recorded length exceeds the buffers |
| PipeTransport.Respond | src/shared/stghandle.c:348-361 | a READ's response carries the bytes recorded for its hint, which is then free again |
| PipeTransport.RecordedLengthStays | src/shared/stghandle.c:89-114 | until its answer, a hint keeps its length through any traffic, even requests that reuse it |
| PipeTransport.ReadRoundTrip | src/stgtest/stgtest.c:143-190 | a READ is accepted exactly when its 32-bit length fits and its hint is free, and brings the client that many first bytes of the device's buffer and nothing else |
| PipeTransport.ReadLengthExact | src/shared/stghandle.c:378-381 | the client has BlockCount * BlockLength bytes of the device's if and only if the product fits in 32 bits |
| PipeTransport.WriteRoundTrip | src/shared/stghandle.c:386-398 | a WRITE is accepted exactly when its 32-bit length fits; all its BlockCount * BlockLength bytes reach the device as the client had them if and only if the product fits in 32 bits, else the first few |
| PipeTransport.UnmapRoundTrip | src/shared/stghandle.c:399-411 | the same for the 16 bytes of each descriptor of an UNMAP |
| PipeTransport.OthersCarryNothing | src/shared/stghandle.c:374-414 | every other request is accepted and changes neither buffer nor table |
| PipeTransport.WhatArrives | src/shared/stghandle.c:386-411 | however many bytes a message brings, each byte of the user buffer: the message's, zero where there are fewer, untouched behind |
| PipeTransport.UnderstoodExactly | src/stgtest/stgtest.c:171-190 | the client takes an answer exactly when it has its hint and a good READ's length fits; only a good READ changes its buffer |
| PipeTransport.HintsAreOutstandingReads | src/shared/stghandle.c:66-114 | over all messages, responses and disconnects, a hint is in the table exactly while a READ with it is unanswered |
| PipeTransport.StaleHintDropsReads | src/shared/stghandle.c:376-384 | a READ is dropped exactly when it is too long or an earlier READ with its hint was never answered, be it another client's on an earlier connection |
| PipeTransport.RefusedAfterReconnect | src/shared/stghandle.c:425-432 | a concrete case: a client asks and goes away, the next client's READ with the same hint is dropped |
| PipeEpoch.EpochInvariant | src/shared/stghandle.c:313-342 | in every run Connected is positive exactly while a client is attached, its absolute value counts the connections, and each past epoch was torn down once |
| PipeEpoch.EpochGrowsPerConnection | src/shared/stghandle.c:331-332 | the absolute value grows by one with each connection and never shrinks |
| PipeEpoch.KeepsItsConnection | src/shared/stghandle.c:341-360 | until it disconnects, a thread's epoch is the connection that was open when it entered, however many come and go |
| PipeEpoch.OnlyTheObservedEpochIsClosed | src/shared/stghandle.c:313-432 | from its entry to its disconnect, whatever other threads do in between: a failing thread disconnects the very client it was talking to, or, if that one is gone or a newer one has connected, leaves connection, epoch count and every other thread alone |
| PipeEpoch.TornDownOnce | src/shared/stghandle.c:425-432 | no epoch is torn down twice |
| PipeEpoch.EnterExactly | src/shared/stghandle.c:312-346 | a thread enters with the client that is there or the one it connects; otherwise nothing changes |
| PipeEpoch.ConnectionsAreCounted | src/shared/stghandle.c:330-333 | the absolute value of Connected is the number of clients that were connected |
| PipeEpoch.FinishKeepsClients | src/shared/stghandle.c:417-424 | a transaction that succeeds leaves every client connected and every other thread as it was |
| PipeEpoch.DisconnectedOnlyByAFailure | src/shared/stghandle.c:425-432 | a client loses its connection only to a thread whose own transaction with it failed |
| Dispatcher.Dispatch | src/shared/stgunit.c:165-250 | the response of each transact call is the answer to the request the previous call fetched |
| Dispatcher.AnsweredOnceInTheNextCall | src/shared/stgunit.c:165-250 | each time a hint is fetched, however often, it is answered in exactly one call, the next one, with its kind, if it was completed or has no handler, else in none |
| Dispatcher.EveryAnswerWasAsked | src/shared/stgunit.c:187-190 | no response goes out that no request asked for |
| Dispatcher.AnsweredWithItsStatus | src/shared/stgunit.c:188-240 | each answer has the status that the handler gave, which completed; or illegal request / illegal command exactly if there is none for the kind |
| Dispatcher.UnansweredWhileKept | src/shared/stgunit.c:247-248 | a fetched request is left out of the next call if and only if its handler did not complete it |
| DispatcherThreads.ChainInvariant | src/shared/stgunit.c:131-163 | with any thread count and any failures the threads form a chain that finishes from its end |
| DispatcherThreads.FirstFinishesLast | src/shared/stgunit.c:257-261 | the first thread finishes only when all others have, and nothing happens after it |
| DispatcherThreads.FlushOnceAndLast | src/shared/stgunit.c:263-276 | the final flush happens at most once, exactly when the first thread ends a unit with a cache, as the last step of all |
| DispatcherThreads.ThreadCountBound | src/shared/stgunit.c:154-163 | no more threads than asked for |
| DispatcherThreads.AllThreadsStart | src/shared/stgunit.c:154-163 | if no allocation and no creation fails the chain grows to exactly the number asked for, at least one |
| DispatcherThreads.RunsOnlyWhenStarted | src/shared/stgunit.c:140-163 | a thread serves requests only with a buffer and with the thread it had to start |
| DispatcherThreads.SomeThreadMoves | src/shared/stgunit.c:257-261 | until the first thread has ended, some thread can take a step that brings the end nearer: the waits never block each other |
| FillPattern.FillOrTest | src/stgtest/stgtest.c:434-459 | fills every word, or decides whether every word is the pattern or zero |
| FillPattern.AcceptedOnlyAtItsAddress | src/stgtest/stgtest.c:445-450 | a filled buffer passes the test of an address if and only if it is its own |
| FillPattern.UnmappedOnlyAtTheWrap | src/stgtest/stgtest.c:451-456 | it passes for unmapped only as a single block whose address plus one wraps to zero |
| FillPattern.PatternIsTheBlocks | src/stgtest/stgtest.c:440 | two blocks, in whatever buffers, have the same pattern if and only if they are the same block of the disk |
| Lists.InsertTailList | src/shared/minimal.h:157-166 | the ring gets the entry at its end, with all links right |
| Lists.RemoveEntryList | src/shared/minimal.h:168-178 | the ring loses just that entry, and the result says whether the list is now empty |
| InstanceList.InstanceList.Publish | src/launcher/launcher.c:864-865 | the instance joins the list at its end and the event is reset |
| InstanceList.InstanceList.Unlink | src/launcher/launcher.c:911-914 | the instance leaves the list and the event is signalled exactly if the list is then empty |
| Names.Compare | src/shared/minimal.h:105-113 | zero exactly when the strings are equal up to ASCII case |
| Names.FoldIsCase | src/shared/minimal.h:122-131 | strings fold to the same if and only if they differ in nothing but the case of ASCII letters |
| Launcher.LookupByName | src/launcher/launcher.c:354-367 | the first listed instance with these names up to case, or there is none |
| Launcher.PublishKeeps | src/launcher/launcher.c:864-865 | listing the new instance keeps the invariant, names included |
| Launcher.UnlinkKeeps | src/launcher/launcher.c:911-914 | unlisting a released instance keeps the invariant, event included |
| Launcher.LauncherInvariant | src/launcher/launcher.c:694-941 | in every order of creations, releases, callbacks and lookups, counts, list, event and names agree |
| Launcher.EventMirrorsEmptiness | src/launcher/launcher.c:864-865 | the event is signalled exactly when the list is empty |
| Launcher.ListedNamesUnique | src/launcher/launcher.c:726-736 | no two listed instances have the same names up to case |
| Launcher.ListedInOrder | src/launcher/launcher.c:864-865 | the list is in the order of creation, whatever was taken off since |
| Launcher.LookupIsNeverFreed | src/launcher/launcher.c:1005-1024 | what a lookup returned stays listed while its user holds the lock |
| Launcher.FreedOnceAfterListed | src/launcher/launcher.c:906-931 | an instance is freed at most once, after both owners let go, and only after it was listed |
| Launcher.ReleasedCanBeFreed | src/launcher/launcher.c:906-931 | from any reachable state, an instance both owners released is freed by at most three steps, whoever holds the lock |
| Parts.TakeFlat | src/launcher/launcher.c:1208-1225 | taking NUL-terminated parts undoes laying them out, up to the number of parts asked for |
| Parts.TakeUnterminated | src/launcher/launcher.c:1208-1225 | what no NUL ends is not a part |
| LauncherWire.Serialize | src/shared/launch.c:42-54 | the message of a command, arguments being measured or of given length and null ones skipped, or failure exactly when it does not fit the pipe buffer |
| LauncherWire.Measure | src/shared/launch.c:47 | the length a caller gives, or up to the NUL |
| LauncherWire.TerminatedPieces | src/shared/launch.c:44-54 | NUL-terminated arguments are sent as they are |
| LauncherWire.PieceOfText | src/shared/launch.c:44-54 | an argument is the string of the given length, or the one before the first NUL; a null pointer is none |
| LauncherWire.GetPart | src/launcher/launcher.c:1208-1225 | the string at the position if a NUL ends it within the message, and what follows it |
| LauncherWire.ParseArgs | src/launcher/launcher.c:1257-1259 | the next strings of the message, at most nine |
| LauncherWire.Parse | src/launcher/launcher.c:1238-1312 | the command a message means, invalid when a name is missing or the character unknown |
| LauncherWire.StartRoundTrip | src/launcher/launcher.c:1254-1266 | the server reads a start command as the client gave it, in whichever way, for up to nine arguments, and the first nine of more |
| LauncherWire.NamesRoundTrip | src/launcher/launcher.c:1268-1297 | stop, forced stop and get-info commands arrive as written |
| LauncherWire.OthersRoundTrip | src/launcher/launcher.c:1238-1312 | a name-list command arrives as such; a command is invalid if and only if its character is unknown or it needs names and lacks them |
| LauncherWire.ReadDigits | src/shared/launch.c:81-86 | the leading digits of the reply in 32-bit arithmetic |
| LauncherWire.DigitsOfDecimal | src/shared/launch.c:81-86 | reading the digits undoes printing a number below 2^32 |
| LauncherWire.ReplyRoundTrip | src/launcher/launcher.c:1227-1236 | the client gets a success's payload, and an error's number if and only if it is below 2^31 |
| LauncherWire.SuccessOnlyIfSaid | src/shared/launch.c:61-91 | success and a payload are reported exactly for a reply that says so; an unintelligible one is a broken pipe |
| Persistent.Save | src/launcher/launcher.c:404-427 | the value is the arguments, the security descriptor and an empty string, filling the buffer exactly |
| Persistent.ScanForNul | src/launcher/launcher.c:1148 | the scan ends at the first NUL, inside the value or not |
| Persistent.StringsFlat | src/launcher/launcher.c:1144-1149 | splitting a value undoes laying it out, whatever lies behind it |
| Persistent.Read | src/launcher/launcher.c:1144-1157 | the strings that start within the value, each up to its NUL, even where that lies in what the buffer held before or behind it; the last but one is the security descriptor |
| Persistent.StartAll | src/launcher/launcher.c:1135-1167 | the instances of the readable values up to the first unreadable one |
| Persistent.ValueRoundTrip | src/launcher/launcher.c:1145-1157 | one to nine arguments come back as saved; none are forgotten with their instance; of ten or more the tenth is taken for the security descriptor |
| Persistent.RestartRoundTrip | src/launcher/launcher.c:1135-1167 | every saved instance starts again as it was if and only if each has one to nine arguments, a name of less than 264 and strings of at most 1536 characters in all, whatever the buffer held before |
| Persistent.StartedUpTo | src/launcher/launcher.c:1137-1142 | a value of another type or too long for the buffers ends the enumeration: what comes before it is started and nothing else |
| BitFields.BitsSplit | src/scsitool/scsitext.c:112-125 | a field is its first bits shifted left plus the rest |
| BitFields.ChunkIsBits | src/scsitool/scsitext.c:120-122 | the shifted and masked byte is the bits from the position |
| BitFields.ShiftInKeepsLow | src/scsitool/scsitext.c:121-122 | shifting a chunk in keeps the low 64 bits of the number |
| BitFields.ReadBits | src/scsitool/scsitext.c:109-125 | the loop reads the big-endian bits from its position, modulo 2^64 |
| BitFields.NarrowFieldIsExact | src/scsitool/scsitext.c:109-125 | up to 64 bits nothing is lost |
| BitFields.BitsOfBytes | src/scsitool/scsitext.c:109-125 | a field on byte boundaries is the big-endian number of its bytes |
| ScsiText.StepDescends | src/scsitool/scsitext.c:42-147 | in a productive format each iteration consumes data or comes nearer to the field that does |
| ScsiText.ProductiveHalts | src/scsitool/scsitext.c:42-147 | a format without stars, or with a letter field of fixed positive width after its last star, comes to an end on every buffer |
| ScsiText.BytesField | src/scsitool/scsitext.c:95-106 | an uppercase field takes its bytes from the next byte boundary, cut at the length |
| ScsiText.BitsField | src/scsitool/scsitext.c:107-143 | a lowercase field's value, the length and multiple it sets, and its warning |
| ScsiText.Text | src/scsitool/scsitext.c:24-148 | wherever the code returns at all, it makes the calls of the abstract run up to its end |
| ScsiText.CallsOfOne | src/scsitool/scsitext.c:104-142 | a field makes one call of the callback, an uppercase one of no bytes none |
| ScsiText.CallsOfBoth | src/scsitool/scsitext.c:104-142 | the calls are those of the fields, one after another |
| ScsiTextRuns.RunConsistent | src/scsitool/scsitext.c:42-147 | what each field takes follows from the fields before it alone |
| ScsiTextRuns.NumbersAreTheirBits | src/scsitool/scsitext.c:107-143 | in every run of every format, a number of up to 64 bits is exactly the bits it lies on, all of its width unless the data ends |
| ScsiTextRuns.FieldsAsDeclared | src/scsitool/scsitext.c:64-140 | each field's width is the format's, m being the last value that set it; the reserved and length warnings are given exactly when due |
| ScsiTextRuns.LengthInForce | src/scsitool/scsitext.c:127-134 | the length in force is the buffer's or one that a field declared, and the least of them |
| ScsiTextRuns.MultipleInForce | src/scsitool/scsitext.c:135-137 | m is the low 32 bits of the last field that set it, one before any did |
| ScsiTextRuns.FieldsTile | src/scsitool/scsitext.c:95-125 | fields neither skip nor overlap bits, except that uppercase ones start on a byte |
| ScsiTextRuns.NothingPastDeclaredLength | src/scsitool/scsitext.c:127-134 | after a field declared the length no field takes anything beyond it, nor beyond the buffer |
| ScsiTextRuns.FieldsInOrder | src/scsitool/scsitext.c:47-63 | the fields read are those of the format in order, then those from the last star on, round after round |
| ScsiTextRuns.ProductiveFormatsEnd | src/scsitool/scsitext.c:48-62 | every productive format ends on every buffer; one of fixed widths without length fields only then, else it hangs on every buffer of a certain length |
| ScsiTextHalts.HangsExactlyOnAStillRound | src/scsitool/scsitext.c:42-147 | any format, with lengths and multiples too, on any buffer: the loop goes on for ever if and only if some round from the last star to the end changes neither position, length nor m |
| ScsiTextHalts.HaltsWithinBound | src/scsitool/scsitext.c:42-147 | whether it ends is decided after a number of iterations given by the sizes of format and buffer |
| Mbr.PackRoundTrip | src/shared/mbr.c:32-35 | unpacking the three bytes gives cylinder, head and sector back |
| Mbr.ToChsBlock | src/shared/mbr.c:28-31 | cylinder, head and sector are in range and name the block, saturated at the last one |
| Mbr.PackedBlock | src/shared/mbr.c:118-126 | the packed triple names min(lba, 1024 * 255 * 63 - 1) |
| Mbr.ChsMonotone | src/shared/mbr.c:118-126 | and is monotone in the block address |
| Mbr.EntryChs | src/shared/mbr.c:118-126 | FirstCHS names the first block, LastCHS the first block after the partition, and the first never lies behind the last |
| Mbr.LastChsExact | src/shared/mbr.c:123-126 | LastCHS is that of the partition's last block if and only if the partition reaches beyond the last block the three bytes can name |
| Mbr.LastChsOfOneBlock | src/shared/mbr.c:123-126 | a concrete case: a one-block partition at block 0 gets block 1 as its last |
| Mbr.EntryRoundTrip | src/shared/mbr.c:103-116 | decoding an entry gives the partition back |
| Mbr.DefinePartitionTable | src/shared/mbr.c:82-130 | succeeds exactly when at most four partitions are given, each non-empty and ending at a 32-bit address; on error the buffer is unchanged |
| Mbr.WriteEntry | src/shared/mbr.c:103-126 | writes the entry's sixteen bytes and no other |
| Mbr.TableRoundTrip | src/shared/mbr.c:100-127 | reading the record gives back all partitions, in order, and no other |

## Left out

- INQUIRY, MODE SENSE, READ CAPACITY and REPORT LUNS (src/sys/scsi.c:128-543): constant page filling.
- Windows and StorPort calls (MDLs, IRPs, registry, security, pipes, processes) are steps of the environment that may succeed or fail; allocation is taken to succeed, except where a failing allocation is an outcome of the model (dispatcher buffers and threads).
- Provisioning that runs out of memory reads through a null pointer on its way out (src/sys/stgunit.c:246); not modelled.
- Timeouts of the cancellable wait (src/sys/driver.h:295-311): the driver passes none.
- The pending and process lists of the queue and the launcher's list in its state machine are sequences; that ring lists behave so is proved in `Lists` and `InstanceList`. Removing from a sequence in `Ioq` models `RemoveEntryList` on an entry known to be queued.
- The SRB's back pointer and its extension are one object in `Ioq`, identified by the extension's address; the low bits of a 32-bit pointer's hash are not modelled (src/sys/driver.h:149-157, 173-175).
- In `Driver` the reset that deletes a unit's queue and the freeing of its memory are one step, taken when the queue is already empty.
- `SpdStorageUnitReferenceByDevice` and the global device functions (src/sys/stgunit.c:346-372, 420-475): the same reference under another key.
- IoctlTransact's checks of its parameters and of the process id (src/sys/ioctl.c:136-162).
- UnitTable.UnitTable.NotifyRoutine: one sequential call; that another thread may provision or unprovision between its snapshot of the bitmap and its single removals, which check the owner again, is not modelled here. The removals themselves are interleaved in `Driver`.
- UnitTable.UnitTable.Provision: one locked section; building the unit before it is not modelled.
- UnitTable.UnitTable.Unprovision: removal, stop and dereference are one call here; their interleavings with other threads are in `Driver`.
- TransferRuns.AlignedChunksCover: needs block-aligned lengths, which the driver's 32-bit product gives only without wrap; `ChunksPartitionExactly` is the exact statement.
- DeviceRuns.ChunkedReadIsOneRead: needs the product not to wrap, and a user buffer to be present (a response without one zeroes the chunk, see `Transfer.SrbTransfer.Complete`).
- DeviceRuns.ChunkedWriteIsOneWrite: says nothing of the disk after a failed chunk.
- SystemRuns.WriteAmongMany: READ and WRITE SRBs; flushes do not touch the disk's contents, and an unmap is a write from elsewhere. A device thread answers only requests it fetched, each at most once; one that dies never answers.
- LateAnswers.ReadTakesAnyAnswer: transfers of one chunk; a longer one gets the late data in place of one chunk.
- PipeEpoch.EpochInvariant: `Connected` is unbounded; the overflow of a LONG after 2^31 connections is not modelled, nor are connection attempts that end as aborted.
- PipeTransport.Fetch: the client always has a buffer; requests without one send no data.
- PipeTransport.ReadRoundTrip: messages arrive whole or not at all, and concerns one hint; the order of answers to different hints is up to the device.
- The open and shutdown functions of the pipe transport's unit table (src/shared/stghandle.c:132-246, 442-490): the table of src/sys/stgunit.c again.
- The random request generator of the tester (src/stgtest/stgtest.c:506-686) and its raw-device transport.
- FillPattern.FillOrTest: buffers are arrays of 64-bit words; the bytes of a block after its last whole word are not looked at by the code either.
- Launcher.LauncherInvariant: process creation, access checks and handles are environment; a creation that fails before the instance is listed is not a step; `wcstoint` lookups by process id are lookups of a listed instance.
- Launcher.FreedOnceAfterListed: `at most once`; that freeing stays within reach is `ReleasedCanBeFreed`, and that the scheduler gets there is not modelled.
- LauncherWire.Serialize: strings within 2048 characters of 2^32, whose length and position together overflow a ULONG, are left out.
- LauncherWire.Parse: the quit command of debug builds is left out.
- Persistent.Read: values are whole characters; one of an odd number of bytes is left out.
- ScsiText.Text: where the code never returns there is nothing to state; `ScsiText.Run` has every iteration of it. The cutting of the format text into fields is left out, and buffers are assumed short enough that a bit position fits a size_t.
- ScsiTextRuns.ProductiveFormatsEnd: with a multiple or a declared length it depends on the data whether an unproductive format ends; that is `ScsiTextHalts.HangsExactlyOnAStillRound`.
- Line and table rendering (src/scsitool/scsitext.c:150-400), device setup, shell extension, COM and .NET interop, logging and registry helpers.
