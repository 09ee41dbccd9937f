# tt-wind: a verified model of the driver's hard core

tt-wind is a Windows driver for a PCIe accelerator. This project models three
parts of it and proves what they promise:

* **the firmware mailbox** (`driver/arc.c`): a pair of rings in the chip's CSM
  SRAM, read and written word by word by the driver while the firmware does the
  same, and the synchronous exchange on top of it;
* **the arm/recover reset protocol** and everything that has to agree with it
  (`driver/reset.c`, `queue.c`, `mapping.c`, `tlb.c`, `sysmem.c`, `device.c`):
  one transition system over the ioctl queue, the power callbacks, handle opens
  and cleanups, the two locks and the chip, at single-access granularity;
* **the bit-level address path** (`driver/tlb.c`, `driver/sysmem.c`): the 96-bit
  window register, the outbound iATU and the path from a NOC address to a byte
  of host memory.

## Layout

| file | what it holds |
|---|---|
| `Prelude`, `Bits` | fixed-width integers, status codes; powers of two, OR, C shifts |
| `RingMath`, `Rings` | ring pointer arithmetic in 32 bits; one ring as a message sequence |
| `MailboxMemory`, `FirmwareModel`, `Mailbox` | the CSM words against the traffic they stand for; what the firmware does to it; push and pop over an array |
| `LocateQueue`, `ExchangeSpec`, `ArcExchange` | queue discovery; what an exchange comes to, on the traffic; the synchronous exchange itself |
| `MailboxWitnesses` | courses in which an exchange returns another's reply; a run with an overwritten request |
| `ConfigSpace`, `WindowPool`, `MappingList` | config image and marker; window allocator; the linked list of mappings |
| `Machine`, `Invariant`, `Preservation` | the transition system, its invariant, one lemma per thread and conjunct |
| `ResetTheorems`, `ResetWitnesses` | what holds of every run; concrete runs behind the exact conditions |
| `DispatchTheorems` | which request does what: every effect has its request, every request its effect |
| `HandlerRuns`, `ResetHandlers`, `PollClient` | what a reset handler comes to; RESET_DEVICE, POST_RESET and dispatch as the driver runs them; the polling client |
| `TlbImage`, `TlbRegisters`, `Iatu`, `SysmemPath` | register packing, register blocks, translation, loopback, user views |

## What the model assumes of its environment

* Only an armed timer takes the chip off the bus, and it comes back with its
  reset marker clear and its vendor id unchanged. The vendor id is not 0xFFFF;
  COMMAND can be written by software, the dword of the vendor id cannot.
* A config read of a device off the bus returns all-1s (section 6.1 of the PCI
  Local Bus Specification 3.0). The marker is the parity bit of COMMAND (section
  6.2.2 there).
* A chip that drops while RESET_DEVICE stands between its vendor probe and its
  last timer write does not come back before that write.
  `EarlyReturnBreaksMarkerTest` is the run that shows why this is needed.
* Firmware takes requests in order, answers each once and in order, never posts
  more than the ring holds, and touches only its own two pointers and the
  response slots. It may act any number of times before any driver access; what
  its actions amount to is `FirmwareModel.Run`, and `ServiceAnswers` says that
  taking one request up and answering it is a series of them. The path to the
  CSM may hang for good at any point: reads give all-1s, writes are lost.
* The firmware's control block, if it lies in the CSM at all, lies apart from the
  two rings, describes the queue, and is not rewritten. All routes lead to it, or
  give all-1s for its address.
* The framework runs one power callback at a time and purges the queue before
  ReleaseHardware. Its calls, and those to the memory manager, succeed or fail
  as an oracle says.
* A 200 us stall lasts at least that long. The 64-bit interrupt-time clock does
  not wrap.

## Where the code and its documentation disagree

The model follows the code.

* `driver/arc.c:626-628` says that a timeout leaves nothing in flight that a
  later call cannot drain. A request the firmware has not yet answered is in
  flight and cannot be drained: `LateReply` is a run in which an exchange times
  out and the next one takes the reply to it for its own, and `AnotherReply` shows
  such a course from every mailbox with an unanswered request. Begun with every
  request answered, an exchange returns its own reply, for every entry count,
  unless the response ring comes to look empty while responses wait (`OwnReply`,
  `SendSync`).
* POST_RESET is documented as retryable after each of its failures
  (`driver/reset.c:56`, `driver/ttwind_ioctl.h:480-483`), BUSY for good meaning
  that the chip ignored the trigger. `SticksIff` says exactly when a device gets
  stuck - restricted, up, no timer armed, marker set, so that no POST_RESET gets
  past its marker test until a re-arm: by a failed MMIO gate, or a failed restore
  whose last write landed, if parity was set before the first arm; and at the end
  of a RESET_DEVICE, with the device restricted by then, which
  `ArmLeavesUnheardIff` traces to the access that decides it. Apart from a lost
  trigger and a device stuck before, that is a re-arm refused by a short marker
  write that lands, and it needs neither parity set before nor any POST_RESET.
  `StuckUntilRearmed` says that it lasts; `StuckByRestore`,
  `StuckByGate` and `StuckByRearm` are the runs.
* A RESET_DEVICE answered DATA_ERROR can leave the marker set in a device that is
  not restricted: exactly if its marker write lands short
  (`OnlyTheMarkerChangesConfig`, `ResetDevice`). The next arm then saves the marker
  as the original (`MarkerSavedAsOriginal`), where a failed gate sticks.
* RESET_DEVICE is documented to run with no user mapping left, and ReleaseHardware
  to free the sysmem buffer with none left. Cleanup takes a record off the list
  under the lock and unmaps its view after releasing it, so a view can outlive
  both tests. `LeftoverViews` gives the exact condition, `ViewSurvivesArm` and
  `ViewSurvivesFree` the runs.
* No mapping is documented to survive its handle (`driver/mapping.c:55`), and
  cleanup to release its windows (`driver/tlb.c:32-33`). An ioctl of the handle in
  progress at its cleanup can still list a mapping of a BAR or of the buffer, or
  take a window: `ClosedHandleHolds` bounds what is left, `MappingOutlivesHandle`
  and `WindowOutlivesHandle` are the runs.
* The occupancy formula of the rings is right for every pointer pair only if twice
  the number of entries divides 2^32, while discovery accepts any number from 1 to
  255 (`DecisionsRightIff`). Where 2^32 leaves a remainder of n or more, a push
  overwrites a request not yet taken (`OverwritesIff`; the run is `Overrun`).
* `driver/ttwind.h:205-210` says that the two locks never nest. RESET_DEVICE takes
  StateLock inside ArcLock (`driver/reset.c:278`, `driver/reset.c:338`); the model
  does the same.

## Model

In the rows on the mailbox n is the number of entries of each ring. The gap is 2n
less the remainder of 2^32 by 2n; it is wider than n iff that remainder is less
than n. A ring stalls if at least as many responses as the gap wait and the
writer, past a wrap, stands below the gap. A mailbox is roomy if no request waits
to be taken and, with one more pushed, fewer are outstanding than the gap, or if
none waits and the gap is wider than n.

| member | source | states |
|---|---|---|
| RingMath.OccupancyExactIff | driver/arc.c:534-534 | on any two ring pointers the u32 occupancy formula is exact iff the writer has not wrapped past the reader or 2n divides 2^32 |
| RingMath.DecisionsRightIff | driver/arc.c:591-591 | both decisions, ring full and nothing to pop, are right in every state of an n-entry ring iff 2n divides 2^32 |
| RingMath.OverwritesIff | driver/arc.c:534-536 | some full ring is pushed into iff 2^32 mod 2n is at least n |
| RingMath.PushDecision | driver/arc.c:534-536 | for any pointers of a ring holding at most n: a push decides wrongly iff the writer has wrapped past the reader and, on a full ring, the remainder of 2^32 by 2n is at least n, on another, it lifts the count to n or more |
| RingMath.PopDecision | driver/arc.c:591-593 | a pop takes the ring for empty iff it is, or it holds exactly 2n less that remainder and the writer has wrapped past the reader |
| MailboxWitnesses.Overrun | driver/arc.c:506-552 | a run of pushes and takes on a three-entry queue in which a push succeeds on the full ring and overwrites a request not yet taken |
| RingMath.ThreeEntryRing | driver/arc.c:473-473 | a three-entry ring for which the formula says empty with two entries held, and one with three |
| Rings.FreeSlotIsFree | driver/arc.c:538-548 | whatever goes into the slot at the writer's pointer of a ring that is not full, no queued message changes |
| Rings.TakeFirst | driver/arc.c:595-612 | the slot at the reader's pointer is the oldest message, and advancing the pointer takes it and only it |
| MailboxMemory.Counts | driver/arc.c:473-473 | on consistent memory the pointers, modulo 2n, count the untaken requests and the unpopped responses |
| MailboxMemory.PushRequestWord | driver/arc.c:540-548 | on a ring that is not full, a word of a half-written request changes no message in either ring |
| MailboxMemory.PushPointer | driver/arc.c:550-551 | only the pointer, written last, makes the assembled request visible, whole |
| MailboxMemory.OldestResponse | driver/arc.c:595-608 | each word read for a pop is that word of the oldest unpopped response |
| Mailbox.Queue.Conservation | driver/arc.c:678-714 | requests pushed less responses popped are those queued, inside the firmware, or answered and waiting; the ring pointers count them; the firmware has received exactly a prefix of the requests |
| Mailbox.Queue.CsmRead32 | driver/arc.c:325-340 | refused exactly for addresses outside the SRAM or not word-aligned |
| Mailbox.Queue.CsmWrite32 | driver/arc.c:343-357 | changes one word, and only if the address is accepted |
| Mailbox.Queue.TryPush | driver/arc.c:506-552 | for every entry count, with the firmware acting before every access: appends the request whole or nothing; busy means full on arrival and still full, if the ring check was right, and it is right if 2n divides 2^32 or the writer is not past a wrap; only a wrong check on a ring whose remainder is at least n costs the queue its messages; one slot and one pointer written; a misaligned queue is refused with nothing changed |
| Mailbox.Queue.TryPop | driver/arc.c:560-613 | for every entry count: takes exactly the oldest response, whole - over a path that hangs meanwhile its first words and all-1s - or reports none; the report comes only from a ring that looks empty, with every request answered exactly from such a ring, and is true if 2n divides 2^32 or fewer requests are outstanding than the gap; the queue keeps its messages in any case |
| LocateQueue.Probe | driver/arc.c:417-440 | one probe round finds the first route in probe order that is live and ready, or tells whether all are dead |
| LocateQueue.ReadControlBlock | driver/arc.c:465-497 | succeeds exactly for a control block in range whose queue has 1..255 entries and fits the SRAM; which error otherwise |
| LocateQueue.Locate | driver/arc.c:379-498 | every earlier round was undecided, the last one decides; the route cached is the first that answered there, the NOC's lower address before its upper one before the aperture; not ready only after 500 ms; at most 2502 rounds |
| LocateQueue.AcceptsExactly | driver/arc.c:487-495 | the range checks accept an address iff it is word-aligned with all four bytes in the SRAM, and a queue iff it has 1 to 255 entries with its header and both rings there |
| LocateQueue.LocatedRingInRange | driver/arc.c:487-495 | after the range check every pointer and slot address is accepted, without wrap and all distinct, iff the base is word-aligned |
| ArcExchange.SeenDescription | driver/arc.c:465-485 | a path that hangs while the control block is read can only falsify the entry count |
| ArcExchange.Arc.LocateMailbox | driver/arc.c:668-671 | what discovery hands on is the firmware's queue, with its own entry count unless the path has hung; with a route answering before anything else is decided and no hang it succeeds |
| ArcExchange.Arc.Drain | driver/arc.c:678-683 | at most one pop per entry; every response that waited at the start is gone afterwards if the ring checks were right; with every request answered at the start that is so iff the ring does not stall, and one that stalls keeps as many as the gap |
| ArcExchange.Arc.Await | driver/arc.c:701-714 | at most 5002 pops; success is the oldest response; a timeout comes after 1000 ms and no earlier, pops nothing and means that no response is there, if the ring checks were right, as they are if 2n divides 2^32 or fewer requests are outstanding than the gap |
| ArcExchange.Arc.RingDoorbell | driver/arc.c:694-699 | one more write to the APB block over the cached route, which starts the firmware's queue processor: zero at the absolute NOC address of its message FIFO, or bit 16 alone at aperture offset 0x30100 |
| ArcExchange.Arc.SendSync | driver/arc.c:631-719 | guards before any access; at most one push and one reply; exactly one doorbell for a push, one that starts the queue processor, over a route that answered first in the probe round that decided; begun with every request answered, for every entry count, success returns the caller's own reply iff the ring does not stall, so always with no response waiting; otherwise, if 2n divides 2^32 or the mailbox is roomy at the start, the reply to the oldest request unanswered after the drain; a path that hangs while the reply is read can only replace its last words by all-1s |
| ExchangeSpec.OwnReply | driver/arc.c:678-714 | from what an exchange comes to: begun with every request answered and fewer responses waiting than the gap, success is the response to the request it pushed |
| MailboxWitnesses.AnotherReply | driver/arc.c:626-628 | from every mailbox at work with an unanswered request, whose ring checks are sure to be right, a course in which an exchange succeeds with the response to that request, given with the whole traffic it leaves |
| MailboxWitnesses.LateReply | driver/arc.c:631-719 | two calls of SendSync on a fresh mailbox: the first times out, the second succeeds with the reply to the first, its own request still queued |
| WindowPool.AllocationFailsIffAllOwned | driver/tlb.c:254-264 | allocation fails iff all 201 user windows are owned |
| WindowPool.AllocationTakesAFreeWindow | driver/tlb.c:254-259 | an allocation takes the lowest free user window, never the kernel's, disturbs no other, and freeing undoes it |
| WindowPool.ReleaseGivesBackExactly | driver/mapping.c:519-524 | cleanup gives back all windows of the handle and no other |
| WindowPool.Allocator.constructor | driver/mapping.c:79-90 | the allocator starts with only the kernel window taken |
| WindowPool.Allocator.Allocate | driver/tlb.c:253-264 | the scan takes the window the specification chooses |
| WindowPool.Allocator.CheckOwner | driver/tlb.c:276-290 | accepts exactly the owner of a valid window, with the two distinct errors |
| WindowPool.Allocator.Free | driver/tlb.c:317-330 | frees exactly an owned window that is not mapped, and nothing otherwise, with the three distinct errors |
| WindowPool.Allocator.ReleaseAll | driver/mapping.c:519-524 | the loop releases exactly what the specification says |
| WindowPool.Allocator.Reclaim | driver/reset.c:341-345 | afterwards no window is owned and only the kernel's bit is set |
| MappingList.InsertTail | driver/mapping.c:341-341 | appends to a well-formed circular list |
| MappingList.RemoveEntry | driver/mapping.c:473-473 | takes one entry out of a well-formed circular list, whichever neighbours it has |
| MappingList.PartitionIsComplete | driver/mapping.c:510-517 | the two halves cleanup makes hold every record exactly once |
| MappingList.PartitionIsStable | driver/mapping.c:510-517 | the records of the handle keep their order, and so do the others |
| MappingList.MoveOwned | driver/mapping.c:508-517 | the loop leaves two well-formed lists: the handle's records, and the others, each in order |
| MappingList.MoveAll | driver/mapping.c:555-561 | the splice moves the whole list to the new head and leaves an empty well-formed one |
| MappingList.MappingTable.HasMappings | driver/mapping.c:353-369 | true iff a listed record is of that window |
| MappingList.MappingTable.Create | driver/mapping.c:299-345 | lists a new record unless the view could not be mapped, or the owner table no longer gives the window to the handle, in which case the record is destroyed; either way its reference is dropped |
| MappingList.MappingTable.Unlink | driver/mapping.c:508-517 | the phase under the lock: exactly the handle's records leave the list, in order, and are not yet destroyed; their references stay |
| MappingList.MappingTable.Cleanup | driver/mapping.c:495-535 | both phases: destroys exactly the handle's records, once each and in order; one process reference stays per record that still has its view |
| MappingList.MappingTable.CleanupBeside | driver/mapping.c:526-534 | with another cleanup or a revocation running whole between the two phases: each destroys exactly its own records, and the revocation ends with the references of the unlinked ones still held |
| MappingList.MappingTable.RevokeAll | driver/mapping.c:544-577 | destroys every listed record once, in order; the references then held are those of records a cleanup has unlinked and not yet destroyed |
| MappingList.MappingTable.Unmap | driver/mapping.c:444-486 | destroys the first record of that handle at that address and nothing else; NotFound iff there is none |
| ResetTheorems.RunKeepsInv | driver/reset.c:229-580 | the protocol's invariant holds in every state of every run |
| ResetTheorems.NoMmioWhileResetOutstanding | driver/reset.c:353-377 | every register access of the driver, in every interleaving, finds the chip on the bus with no timer armed and the register block it goes to mapped - window registers, kernel window, iATU, NOC_ID page or ARC aperture; CONFIGURE_TLB programs only a window its caller owns |
| ResetTheorems.OneThreadUnderArcLock | driver/arc.c:648-671 | of the ioctl and the power thread at most one stands inside an exchange, a sysmem arm, a reset or a recovery |
| ResetTheorems.OnlyRecoveryUnrestricts | driver/reset.c:464-529 | the restriction is lifted by POST_RESET only, with no timer pending and the link up, whatever the chip did between its two config reads |
| ResetTheorems.ArmedOnlyWhileRestricted | driver/reset.c:362-377 | the timer is armed only when already restricted, under ArcLock, with the marker set |
| ResetTheorems.RestrictedMeansIdle | driver/reset.c:301-363 | while restricted nothing is mapped or owned, the bitmap is exactly the kernel's bit, the config save is valid and sysmem is dark |
| ResetTheorems.WindowsBelongToTheirUsers | driver/mapping.c:327-342 | bit set iff owned or the kernel's; a mapped window is owned by the handle that mapped it, even with cleanup between check and insert |
| ResetTheorems.OwnersAreCurrent | driver/queue.c:130-136 | generations never run ahead of the device's; owners and listed mappings are of the current one |
| ResetTheorems.StaleForever | driver/queue.c:130-136 | a stale handle stays stale on every run and none of its ioctls does anything |
| ResetTheorems.OnlyTheArmingHandleIsCarried | driver/reset.c:338-351 | the generation bump makes every handle stale but the arming one, which is current again after the fence |
| ResetTheorems.ClosedHandleHolds | driver/mapping.c:495-535 | on every run, a closed handle of which no further ioctl begins holds nothing, or, once its ioctl in progress at the cleanup is over, at most one window or one mapping of no window |
| ResetTheorems.ConfigRoundTrip | driver/reset.c:301-309 | through any number of re-arms, fires, returns and failed recoveries, a successful POST_RESET leaves every writable dword as just before the first arm |
| ResetTheorems.RetryAfterFailedGate | driver/reset.c:521-527 | after a failed gate the marker test passes iff parity was clear before the first arm |
| ResetTheorems.OnlyTheMarkerChangesConfig | driver/reset.c:318-328 | while not restricted, config changes exactly by a marker write that lands on a COMMAND with parity clear, and by that bit alone |
| ResetTheorems.SticksIff | driver/reset.c:497-527 | a step of any thread leaves the device stuck iff it is a failed gate or a failed restore whose COMMAND write landed, with parity set before the first arm, or the end of a RESET_DEVICE, restricted by then, that leaves its chip up, marked and with no timer armed |
| ResetTheorems.RecoverySticksIff | driver/reset.c:497-527 | of that, the steps of POST_RESET |
| ResetTheorems.ArmLeavesUnheardIff | driver/reset.c:318-377 | the step that ends RESET_DEVICE leaves the chip up, marked and with no timer armed iff it was up with none armed and: a timer write was lost, the marker was set already, or a short marker write landed |
| ResetTheorems.StuckUntilRearmed | driver/reset.c:485-494 | a stuck device stays so on every run without another RESET_DEVICE; no POST_RESET gets past its marker test |
| ResetTheorems.VerifiedMeansUsable | driver/sysmem.c:384-427 | sysmem is advertised only with a live buffer mapped whole by region 0, a valid tile, and no reset outstanding |
| ResetTheorems.ReferencesMatchRecords | driver/mapping.c:255-318 | on every run the references held per process equal its records listed or in flight, and none is destroyed twice |
| ResetTheorems.LeftoverViews | driver/mapping.c:526-534 | while restricted, or when the buffer is freed, the views left are exactly those a cleanup has unlinked and not yet unmapped |
| ResetTheorems.ReleasedMeansGone | driver/device.c:351-410 | between a release and the next preparation no register block is mapped, no buffer is there, nothing is listed and no window owned |
| ResetTheorems.PowerCallbacksWork | driver/arc.c:826-876 | suspension darkens sysmem under the lock and comes to the power-down; resumption comes to the power-up and, when that is over, to an arm of sysmem |
| ResetTheorems.BusyNeverReturns | driver/reset.c:485-494 | after one arm, with full reads and parity clear before it, POST_RESET never answers BUSY after any other answer |
| ResetWitnesses.ViewSurvivesArm | driver/mapping.c:526-534 | a run in which a user view of BAR space exists with the reset timer pending |
| ResetWitnesses.ViewSurvivesFree | driver/device.c:361-393 | a run in which a user view of the sysmem buffer exists as the buffer is freed |
| ResetWitnesses.EarlyReturnBreaksMarkerTest | driver/reset.c:322-377 | a chip that came back inside a re-arm would let POST_RESET pass its marker test with a timer pending |
| ResetWitnesses.StuckByRestore | driver/reset.c:497-502 | a run from the start in which POST_RESET answers DATA_ERROR once and the device is stuck, with no gate tried |
| ResetWitnesses.StuckByGate | driver/reset.c:521-527 | a run from the start in which POST_RESET answers IO_DEVICE_ERROR once and the device is stuck |
| ResetWitnesses.StuckByRearm | driver/reset.c:318-328 | a run from the start, parity clear and no POST_RESET issued, in which a refused re-arm leaves the device stuck |
| ResetWitnesses.MarkerSavedAsOriginal | driver/reset.c:301-328 | a run in which a refused arm leaves the marker set in an unrestricted device and the next arm saves it as the original |
| ResetWitnesses.MappingOutlivesHandle | driver/mapping.c:335-342 | a run in which MAP_BAR lists a mapping after the cleanup of its handle |
| ResetWitnesses.WindowOutlivesHandle | driver/tlb.c:253-264 | a run in which ALLOCATE_TLB gives a window to a handle already closed |
| DispatchTheorems.EffectsAreTheRequests | driver/queue.c:156-216 | on every run, with anything beside it: an effect of the ioctl thread on timer, config, restriction, generation, windows, mappings, answers or registers comes from the one request that may have it, with that request's window, handle and process |
| DispatchTheorems.AllocateWorks | driver/queue.c:169-171 | ALLOCATE_TLB gives its handle the window the allocator chooses, if there is one, and changes nothing else |
| DispatchTheorems.FreeWorks | driver/queue.c:173-175 | FREE_TLB frees that window iff it is its handle's and not mapped |
| DispatchTheorems.ConfigureWorks | driver/queue.c:177-179 | CONFIGURE_TLB comes to programming that window iff it is its handle's and the registers are mapped |
| DispatchTheorems.MapBarWorks | driver/queue.c:161-163 | MAP_BAR lists one record of its handle and process, with its reference |
| DispatchTheorems.MapTlbWorks | driver/queue.c:181-183 | MAP_TLB does so for a window its handle owns, and nothing otherwise |
| DispatchTheorems.MapSysmemWorks | driver/queue.c:199-201 | MAP_SYSMEM does so, as a section, while sysmem is advertised, and nothing otherwise |
| DispatchTheorems.UnmapWorks | driver/queue.c:165-167 | UNMAP_BAR unlists and destroys the record, and drops its reference |
| DispatchTheorems.SectionWorks | driver/queue.c:185-212 | SMC_MSG, ARC_STATUS and SYSMEM_STATUS come, under ArcLock, each to its own register accesses iff its register blocks are mapped |
| DispatchTheorems.ResetRequestsStart | driver/queue.c:189-197 | RESET_DEVICE and POST_RESET come to their own handlers, restricted or not; the two informational requests do nothing to the device |
| ResetHandlers.Device.Admit | driver/queue.c:130-216 | refuses exactly the stale handles first, then, while restricted, exactly what is off the allow-list, changing nothing; what it admits changes nothing but where the ioctl thread stands: at the beginning of that request's own work; a step of the transition system |
| HandlerRuns.StepIsRun | driver/reset.c:229-540 | an access of a handler, with anything running before it, is part of a run, and leaves what the handler comes to as it was |
| HandlerRuns.AloneArms | driver/reset.c:229-386 | with nobody else acting and the triage passed, a RESET_DEVICE leaves exactly: timer armed iff its last write lands, marker set, restricted and dark, first config saved, windows taken back, every handle but the arming one stale, lock free |
| ResetHandlers.Device.ResetDevice | driver/reset.c:229-386 | statement by statement, with anything running before each access, exactly what the transition system comes to with the same outcomes of the same accesses; BUSY iff a mapping is listed at the check; with the chip up at the start or nobody else acting, DOES_NOT_EXIST iff the device does not answer and Success iff it does and every access of triage and marker is full, DATA_ERROR otherwise; a refusal leaves restriction and generations alone and marks config iff the marker write lands; Success leaves the device restricted, dark and idle, with the timer armed iff its last write lands |
| ResetHandlers.Device.RestoreConfig | driver/reset.c:174-203 | all 63 other dwords in order, then COMMAND, whatever fails; recovery goes on iff every write was full; afterwards each writable dword whose write landed holds its saved value and every other is as it was |
| ResetHandlers.Device.PostReset | driver/reset.c:424-540 | likewise exact; Success at once iff not restricted; otherwise, with the chip up or nobody else acting, DOES_NOT_EXIST iff it does not answer or a read is short, BUSY iff its marker is set, DATA_ERROR iff a config write is short, IO_DEVICE_ERROR iff a sanity read differs, Success iff none of these, and NOT_READY never; each leaves the config its landed writes make; on Success chip up, no timer, config as before the first arm, restriction lifted |
| PollClient.CmdReset | tools/ttwind-info/ttwind-info.c:654-719 | at most 151 polls; exit 0 iff one succeeds; exit 1 iff, on the driver's answers, every poll was BUSY |
| PollClient.LastAnswerTellsAll | tools/ttwind-info/ttwind-info.c:697-711 | in every reachable state after one arm, a last answer BUSY means every answer was |
| Bits.AndMask | driver/tlb.c:63-63 | masking with 2^k - 1 keeps the low k bits |
| Bits.OrSplit | driver/tlb.c:67-73 | OR of a split number is the OR of its halves |
| TlbImage.PutField | driver/tlb.c:55-75 | below, across and above bit 64: the old 96-bit image OR the value cut to its width at its position, with every shift amount below 64 |
| TlbImage.Pack | driver/tlb.c:82-105 | the ten insertions place every field, cut to its width, at its own bits |
| TlbImage.FieldRecovered | driver/tlb.c:12-24 | each field of a packed image reads back as its value, cut to its width |
| TlbImage.PackRoundTripIff | driver/tlb.c:91-104 | a config comes back from its image iff its address is aligned and every field fits; nothing is set above the last field |
| TlbRegisters.FootprintsApart | driver/tlb.c:107-117 | two windows share a register iff they are the same window; all are inside the block |
| TlbRegisters.RegisterBlock.Program | driver/tlb.c:119-149 | the device then decodes the config, the strided register is clear, and no other register changed |
| TlbRegisters.RegisterBlock.Configure | driver/tlb.c:340-396 | succeeds exactly for an owned window with registers mapped and a config the register can hold exactly, for NOC 0 or 1, with reserved fields zero, and then aims that window exactly and no other |
| TlbRegisters.RegisterBlock.SanityCheck | driver/tlb.c:177-213 | passes iff the link echoes the three dwords written; touches the kernel window's registers only |
| Iatu.OutboundIatu.Program | driver/sysmem.c:176-222 | refused exactly for size (with its 64-bit wrap) or region number; otherwise the device translates as recorded and no other region changed |
| SysmemPath.SysmemContext.SeesTheBuffer | driver/sysmem.c:411-415 | with region 0 armed the device sees every byte of the buffer at 2^60, and nothing of it elsewhere |
| SysmemPath.SysmemContext.NocRead32 | driver/sysmem.c:270-288 | window split, packed register and decode compose to the NOC address asked for |
| SysmemPath.SysmemContext.LoopbackVerify | driver/sysmem.c:299-365 | changes only its six dwords, to zero; succeeds iff every read echoed; on sound reads and no accidental tag iff each dword is reached at its own place |
| SysmemPath.SysmemContext.DetectTile | driver/sysmem.c:231-258 | accepts exactly tiles 2 and 11 of a live register |
| SysmemPath.SysmemContext.Arm | driver/sysmem.c:375-441 | verified exactly on success, then region 0 translates the whole buffer; a missing buffer, missing registers and a tile that cannot be one each have their own stage and status, as iffs; nothing but the flag changes while restricted; succeeds when nothing is in the way |
| SysmemPath.WholeBuffer | driver/sysmem.c:71-77 | the buffer of each of the three tiers can be mapped whole and to its last page, and no page past it |
| SysmemPath.MapSysmem | driver/sysmem.c:692-714 | with sysmem available, accepted iff the range is page-aligned, not empty and every byte of it is in the buffer; byte k of the view is physical byte SysmemPhys+Offset+k |
| SysmemPath.ViewAndDeviceAgree | driver/sysmem.c:616-733 | byte k of an accepted view is buffer byte Offset+k, which the device reaches at 2^60+Offset+k and nowhere else |

## Left out

- SendSync: with 2n not dividing 2^32, a request unanswered at the start and the mailbox not roomy then, a ring check may be wrong; the reply is then told only by the ghost result `right`. ArcLock is in `Machine`, not here.
- AnotherReply: likewise only where the ring checks are sure to be right.
- Locate: the copies of raw observations into the ARC_STATUS report.
- SanityCheck: the link's answers are a function of register and stored value; timing is not modelled.
- PostReset: ends with the lock released; the firmware power-up and the sysmem arm that follow are critical sections of `Machine`, without their retry delays.
- ResetDevice: input validation; a wait for ArcLock that does not end is the answer None.
- CleanupBeside: the interleaving of the two phases with single list operations of several threads is in `Machine`, where the list is a set of records.
- MapSysmem: where in the caller's address space the view lands.
- Message contents, power flags and the retries of the power-up; debug output; status reports.
- Framework and memory-manager calls, buffer retrieval, driver entry; reading the PCI identity at PrepareHardware.
- The choice of allocation tier and NUMA node, cache attributes, write combining.
- Exclusivity of BAR bytes between handles: MAP_BAR may cover any range of BAR0.
- MAP_BAR's own bounds check, which is the same comparison as MAP_SYSMEM's.
- The other subcommands of ttwind-info, and documented features that are not implemented.
