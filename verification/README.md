# Wall controller firmware: a verified model

A Dafny model of the storage and communication cores of a wall-controller firmware and of the PC tools that talk to it,
with proofs over all inputs, all runs and all interleavings. Each core has a value-level description of what one step
does, lemmas about runs of such steps and, where the firmware updates state in place, a class whose methods are proved
to do exactly that step.

| Core | Files |
|---|---|
| CRC-16 and byte fields | `Bytes.dfy`, `Register16.dfy`, `Crc16.dfy`, `CrcRemainder.dfy` (what the checksum is) |
| Firmware reassembly with lost-packet recovery, target side | `FirmwareSession.dfy` (one event, as a value), `FirmwareTarget.dfy` (in place), `FirmwareInvariant.dfy`, `FirmwareSafety.dfy`, `FirmwareIntegrity.dfy`, `FirmwareRestart.dfy` (how sessions end and begin), `FirmwareAnswers.dfy` (what a message is answered) |
| The same, host side | `FirmwareImage.dfy`, `FirmwareRecovery.dfy`, `FirmwarePages.dfy` (lost-packet pages on the way), `FirmwareHost.dfy` |
| Bulk file transfer | `BulkTransfer.dfy` (interleaved steps, as values), `BulkVerdict.dfy` (what is left on the target), `BulkFailure.dfy` (failing paths), `BulkProgress.dfy` (completeness), `BulkService.dfy` (the service above it), `BulkController.dfy` (worker loop and ending call as sequential code over a ring queue), `BulkHost.dfy` |
| Audio-source configuration store | `AudioRecord.dfy` (codec), `AudioStore.dfy` (one operation, as a value), `AudioSettings.dfy` (what it sets), `AudioSources.dfy` (in place) |
| Catalog build and recursive delete | `FileTree.dfy`, `FileCatalog.dfy`, `FileRemoval.dfy`, `FileController.dfy` |
| UART framing | `UartFraming.dfy` |
| Transaction slot pool | `SlotPool.dfy` (one call, as a value), `SlotOutcomes.dfy` (what becomes of a message), `TransactionManager.dfy` (in place) |
| ADC stream decoder | `AdcDecoder.dfy`, `AdcStream.dfy` (what the board sends) |
| NOR flash driver | `FlashDriver.dfy` |

`dafny verify dfyconfig.toml` checks the whole project.

## Conventions

- Drivers, the file system, locks and the network are parameters: an `Io` record or a function says which call fails and
  what a failed one leaves behind, and the theorems hold for all of them unless they say otherwise. A timeout is an event
  that may come at any time.
- Bytes are `bv8`, the CRC-16 state is `bv16`. Counters are unbounded integers; where the source wraps (packet ids,
  sequence numbers, retry counters, generations) the model wraps explicitly.
- History variables (`accepted`, `programmed`, `frames`, `writes`, `handed`, `claims`) record what the source does not
  keep, for the statements only; no operation depends on them.
- Results that are conditions, not absolutes, each with its if-and-only-if: a packet that meets a closed flash handle
  (`FirmwareSafety.RunCrashesIff`), packet id 0xFFFF on a slot larger than the device's (`FirmwareSafety.StepKeepsInv`),
  a selected record written next to another (`AudioStore.StepKeepsOneIff`), a file that differs from memory
  (`AudioSettings.StepKeepsMirrorIff`), a retry count that wraps
  (`SlotPool.AttemptsBoundedIff`), a submission failure reported for a slot no longer in use (`SlotPool.StepKeepsInv`),
  and the feed that ends the ADC start-up (`AdcDecoder.FlushIdleIff`). A retry limit of 255 is no limit
  (`SlotPool.AttemptsUnbounded`).
- Threads are interleaved at their locked sections and at single writes to shared fields; code that runs between two such
  points is one step.
- A comment in `AudioSrcConfiguration.c` (lines 338-339) says that a power cut between the two writes of a selection
  leaves zero selected sources, never two. That is proved while files follow memory (`AudioStore.PowerCutIsSafe`), and
  the exact condition is `AudioStore.PowerCutIff`; a write error reported late can lead to two (`AudioStore.TwoSelected`).

## Model

| member | source | states |
|---|---|---|
| FirmwareIntegrity.ImageArrivesIntact | hello_world/src/Bootloader_Controller/Bootloader_Ctrl.c:581-850 | over every run in which the packets of one image are lost, repeated or reordered in any way and all other events and driver failures are free, a target that reaches Reboot holds exactly that image, the short padded last packet included; so does one that completes the image and fails only to request the upgrade |
| FirmwareIntegrity.StepFaithful | hello_world/src/Bootloader_Controller/Bootloader_Ctrl.c:263-299 | every event keeps: bytes of accepted packets are in their place in flash, and a Reboot state, or a completed image whose upgrade request failed, has the whole image in flash |
| FirmwareIntegrity.OversizedNeverCompletes | hello_world/src/Bootloader_Controller/Bootloader_Ctrl.c:969-1001 | an image of more than 65535 packets never reaches Reboot, in any run |
| FirmwareSafety.RunKeepsInv | hello_world/src/Bootloader_Controller/Bootloader_Ctrl.c:757-1001 | for any events with any bytes, on a slot of any size: the ids below the next one split into accepted and pending lost ones, the lost table is strictly increasing and at most 100 long, the counters agree with it, no flash block is programmed twice or outside the slot between erases, and reaching Reboot means that the CRC of the image region is the one requested; this holds all along a run if and only if no packet with id 0xFFFF is stored in it, which is written out as the guard of that branch |
| FirmwareSafety.StepKeepsInv | hello_world/src/Bootloader_Controller/Bootloader_Ctrl.c:99-140 | the same if-and-only-if for one event of any kind in any state: message, acknowledgement, state or transmit timeout |
| FirmwareSafety.SmallSlotKeepsInv | hello_world/src/Bootloader_Controller/Bootloader_Ctrl.c:788-795 | on a slot without room for packet 0xFFFF the invariant holds in every run, without any condition on the events |
| FirmwareSafety.DeviceKeepsInv | hello_world/src/CustomOverlay/ExtFlash_Ctrl.overlay:19-25 | the slot of the device is such a slot |
| FirmwareRecovery.WrapIsReached | hello_world/src/Bootloader_Controller/Bootloader_Ctrl.c:757-775 | on a slot that has the room, 65535 packets in order and one with id 0xFFFF do break it: the condition is not vacuous |
| FirmwareSafety.Splice | hello_world/src/Bootloader_Controller/Bootloader_Ctrl.c:878-934 | the CRC frozen at the first gap, continued over the tail read back from flash, is the CRC of the whole image region |
| FirmwareSafety.FinalizeKeeps | hello_world/src/Bootloader_Controller/Bootloader_Ctrl.c:581-695 | FWUpEnd keeps the invariant, and never takes the "recovered is fewer than lost" error path |
| FirmwareSafety.NothingMissing | hello_world/src/Bootloader_Controller/Bootloader_Ctrl.c:601-640 | when nothing is pending at the end, every id that carries data was accepted and every byte was counted |
| FirmwareSafety.HandleStaysReady | hello_world/src/Bootloader_Controller/Bootloader_Ctrl.c:739-755 | the flash handle stays open exactly when an id other than the first is expected, and no closed handle is used, if and only if the event is not an FWUpEnd before the first data packet of an image of at most 100 packets, nor a packet that wraps the id |
| FirmwareSafety.RunStaysReady | hello_world/src/Bootloader_Controller/Bootloader_Ctrl.c:581-850 | over whole runs: the handle stays ready and the invariant holds at every point of the run if and only if no event of the run is one of those two |
| FirmwareSafety.RunCrashesIff | hello_world/src/Bootloader_Controller/Bootloader_Ctrl.c:739-850 | over every run, whatever came before, early ends and wrapped ids included: a closed flash handle is used if and only if some event is a data packet other than the first that is taken, has a block inside the image and the slot, and meets a closed handle |
| FirmwareSafety.StepCrashesIff | hello_world/src/Bootloader_Controller/Bootloader_Ctrl.c:777-850 | the same for one event; FWUpEnd never comes to a closed handle, because nothing was received through it |
| FirmwareSafety.SoundIsUnfed | hello_world/src/Bootloader_Controller/Bootloader_Ctrl.c:739-755 | a ready session meets no such packet, so an FWUpEnd before the first packet is needed to get there |
| FirmwareSafety.EarlyEndCrashes | hello_world/src/Bootloader_Controller/Bootloader_Ctrl.c:612-619 | what that early FWUpEnd leads to: the missing packets are asked for, and the first one sent is written through a closed handle |
| FirmwareAnswers.EndAnswer | hello_world/src/Bootloader_Controller/Bootloader_Ctrl.c:581-695 | FWUpEnd in any session with a packet received: refused for good if there are too many packets or too many missing; refused for now, asking for the missing ones, if any is missing; otherwise it restarts into the image if and only if flash can be read and has the checksum requested and the upgrade can be requested, with the first reason that fails |
| FirmwareAnswers.PacketAnswer | hello_world/src/Bootloader_Controller/Bootloader_Ctrl.c:701-850 | a data packet in any session: refused for its length or its id, ended by a skip that does not fit, by a driver that fails or by a block out of the slot, each with its error; otherwise stored |
| FirmwareAnswers.RequestAnswer | hello_world/src/Bootloader_Controller/Bootloader_Ctrl.c:1223-1355 | an update request: accepted if and only if the image fits and the drivers do their part, with a blank record and an erased slot; refused with the first reason there is, and only a failed erase touches the flash |
| FirmwareAnswers.OtherAnswer | hello_world/src/Bootloader_Controller/Bootloader_Ctrl.c:99-168 | every other message is refused without effect |
| FirmwareRestart.AnyRunRestarts | hello_world/src/Bootloader_Controller/Bootloader_Ctrl.c:1050-1127 | however a run went: after a deadline, a recovery and a request the target serves any image that fits, from its first packet on and with nothing left over, if and only if the run did not complete an image or use a closed handle |
| FirmwareRestart.RunKeepsOrder | hello_world/src/Bootloader_Controller/Bootloader_Ctrl.c:1357-1461 | in every run, however the drivers fail: a session in progress always has a deadline that can end it, a page that is out is remembered and was retried three times at most, and an idle or failed target has no deadline, no open handle and nothing on the way to the host |
| FirmwareRestart.EndedStays | hello_world/src/Bootloader_Controller/Bootloader_Ctrl.c:142-168 | a session that has ended stays as it is, its flash included, through any run without a recovery, and every message in the run is refused |
| FirmwareRestart.DeadlineEnds | hello_world/src/Bootloader_Controller/Bootloader_Ctrl.c:1415-1461 | a deadline that passes ends whatever session is in progress and leaves flash alone; it changes no other session |
| FirmwareRestart.StopEnds | hello_world/src/Bootloader_Controller/Bootloader_Ctrl.c:556-565 | so does a stop |
| FirmwareInvariant.WriteBlocksEffect | hello_world/src/Bootloader_Controller/Bootloader_Ctrl.c:757-836 | the block loop of a stored packet: exactly the bytes of that packet change in flash, count and CRC advance by them, and each block programmed is one that was blank |
| FirmwareInvariant.StoredKeepsLive | hello_world/src/Bootloader_Controller/Bootloader_Ctrl.c:818-850 | a stored packet, expected or lost before, keeps bookkeeping, checksum, blankness outside accepted packets and the program log |
| FirmwareInvariant.GapKeepsPartition | hello_world/src/Bootloader_Controller/Bootloader_Ctrl.c:969-1001 | recording a gap adds exactly the ids that became missing, all unhandled |
| FirmwareInvariant.CoveredBound | hello_world/src/Bootloader_Controller/Bootloader_Ctrl.c:601-619 | the received bytes are the whole image below 48n exactly when no packet carrying data below n is missing |
| FirmwareInvariant.HandledAndPending | hello_world/src/Bootloader_Controller/Bootloader_Ctrl.c:543-554 | every table entry is either recovered or counted as pending |
| FirmwareTarget.Target.Handle | hello_world/src/Bootloader_Controller/Bootloader_Ctrl.c:99-140 | the management record, lost table and flash updated in place do exactly what the session function says for any event, results and sent pages included |
| FirmwareTarget.Target.UpdateBootloader | hello_world/src/Bootloader_Controller/Bootloader_Ctrl.c:99-140 | message dispatch over the states, in place, equals the session function |
| FirmwareTarget.Target.UpdateFwImage | hello_world/src/Bootloader_Controller/Bootloader_Ctrl.c:701-850 | a data packet, in place, equals the session function: same checks, same errors, same flash |
| FirmwareTarget.Target.StoreBlocks | hello_world/src/Bootloader_Controller/Bootloader_Ctrl.c:757-850 | the packet that was begun is stored, aborted or faulted exactly as specified |
| FirmwareTarget.Target.WritePacketBlocks | hello_world/src/Bootloader_Controller/Bootloader_Ctrl.c:757-836 | the loop over the three blocks of a packet equals the recursive block function on flash, log, count and CRC |
| FirmwareTarget.Target.HandlePacketIdMismatch | hello_world/src/Bootloader_Controller/Bootloader_Ctrl.c:936-967 | an unexpected id is a gap to record, a lost packet, or a refusal |
| FirmwareTarget.Target.CanHandleMissingPackets | hello_world/src/Bootloader_Controller/Bootloader_Ctrl.c:970-1001 | the table takes the skipped ids in order, or none of them when they do not fit |
| FirmwareTarget.Target.HandleLostPacketRecovery | hello_world/src/Bootloader_Controller/Bootloader_Ctrl.c:852-876 | the entry of a recovered id, and no other, is marked, once |
| FirmwareTarget.Target.GetPendingLostPacketCount | hello_world/src/Bootloader_Controller/Bootloader_Ctrl.c:543-554 | counts the unhandled entries |
| FirmwareTarget.Target.FinishChecksum | hello_world/src/Bootloader_Controller/Bootloader_Ctrl.c:878-934 | the re-read loop with its retries folds exactly the tail of the image into the CRC |
| FirmwareTarget.Target.ValidateCrcFromFlash | hello_world/src/Bootloader_Controller/Bootloader_Ctrl.c:878-934 | the decision after a recovered transfer, in place |
| FirmwareTarget.Target.FinalizeFwImageWrite | hello_world/src/Bootloader_Controller/Bootloader_Ctrl.c:581-695 | FWUpEnd in place equals the session function |
| FirmwareTarget.Target.CollectPage | hello_world/src/Bootloader_Controller/Bootloader_Ctrl.c:371-451 | a page holds the first at most 30 unhandled ids in table order |
| FirmwareTarget.Target.GetLostPacketInfo | hello_world/src/Bootloader_Controller/Bootloader_Ctrl.c:371-451 | sending a lost-packet page, in place |
| FirmwareTarget.Target.HandleLostPacketInfoTxResponse | hello_world/src/Bootloader_Controller/Bootloader_Ctrl.c:320-369 | acknowledgement of a page, in place |
| FirmwareTarget.Target.TxTimeOutHandler | hello_world/src/Bootloader_Controller/Bootloader_Ctrl.c:453-526 | timeout and retry of a page, in place |
| FirmwareTarget.Target.StateTimeOutHandler | hello_world/src/Bootloader_Controller/Bootloader_Ctrl.c:1415-1461 | the state timeout, in place |
| FirmwareTarget.Target.InitForNewImage | hello_world/src/Bootloader_Controller/Bootloader_Ctrl.c:1277-1330 | a new update request: size checks, reset, erase |
| FirmwareTarget.Target.EraseFlashArea | hello_world/src/Bootloader_Controller/Bootloader_Ctrl.c:1332-1355 | the slot is erased, or left in any condition when the driver fails |
| FirmwareTarget.Target.AbortSession | hello_world/src/Bootloader_Controller/Bootloader_Ctrl.c:1050-1085 | an abort clears everything but flash |
| FirmwareTarget.Target.ReinitStateMachine | hello_world/src/Bootloader_Controller/Bootloader_Ctrl.c:1087-1127 | re-initialisation back to Idle |
| FirmwareImage.BuildPackets | hello_world/tools/fw_update_uart_gui.py:541-557 | the packet list: packet i carries id i and image bytes 48i to 48i+47, the last padded with 0xFF; refused exactly above 65536 packets |
| FirmwareImage.PayloadReadsBack | hello_world/tools/fw_update_uart_gui.py:541-557 | the target reads back id and data of every packet |
| FirmwareImage.RequestReadsBack | hello_world/tools/fw_update_uart_gui.py:516-538 | the target reads back size, revisions and CRC of every update request |
| FirmwareHost.SendUpdate | hello_world/tools/fw_update_uart_gui.py:2119-2144 | whole update after a first pass in which packets were left out, lost, repeated or reordered in any way, as long as one arrived, and over a link that loses pages of missing ids: accepted if and only if all but at most 100 packets arrived ahead of every larger one and no page is lost so often that the target gives up, in exactly ceil(n/30) rounds, at most 4, for the n packets that never arrived, and then the slot holds the image |
| FirmwareHost.InOrderAllLead | hello_world/tools/fw_update_uart_gui.py:2126-2131 | in the host's own order that condition is that at most 100 packets were left out |
| FirmwareHost.CompleteUpdateWithRecovery | hello_world/tools/fw_update_uart_gui.py:2167-2205 | the recovery loop from any serving session: accepted if and only if the unsent tail fits in the lost table and in every round the missing ids reach the host before the target gives up, after ceil(missing/30) rounds, below the limit of 5 |
| FirmwareHost.RecoverOnce | hello_world/tools/fw_update_uart_gui.py:2167-2205 | one round recovers exactly the first min(30, pending) ids, or ends with the session when a page is lost for good |
| FirmwareHost.RequestMissingIds | hello_world/tools/fw_update_uart_gui.py:2242-2276 | however many pages are requested, and however many of them and of their acknowledgements are lost, the ids are those of the first page if and only if no page is lost so often that the target gives up |
| FirmwareHost.SendPackets | hello_world/tools/fw_update_uart_gui.py:2298-2308 | resending a prefix of the pending ids recovers exactly that prefix |
| FirmwareHost.ParseLostPacketInfo | hello_world/tools/fw_update_uart_gui.py:2278-2296 | the page parser reads back every page the target can send; a payload shorter than its header is an empty last page |
| FirmwareHost.AskPage | hello_world/tools/fw_update_uart_gui.py:2256-2270 | one page asked for over a link that loses pages and acknowledgements: it arrives with the ids of the first request, or the target has given up, told by the number of transmissions that were lost |
| FirmwareHost.AwaitPage | hello_world/tools/fw_update_uart_gui.py:730-763 | the wait for a page that does not arrive at once: the target sends the same one again at every timeout, three times at most |
| FirmwarePages.PageKeepsComing | hello_world/src/Bootloader_Controller/Bootloader_Ctrl.c:453-526 | over a run of timeouts and refusals within the retry limit: the bus gets the same page once for every time it can take it, and the session stays as it is |
| FirmwarePages.PageGivesUp | hello_world/src/Bootloader_Controller/Bootloader_Ctrl.c:453-526 | past the limit the session has ended, and the page was sent only before that |
| FirmwarePages.PageSentAgain | hello_world/src/Bootloader_Controller/Bootloader_Ctrl.c:494-526 | a timeout or a refusal sends the stored page again while fewer than three retries were made, and otherwise ends the session |
| FirmwarePages.RequestSends | hello_world/src/Bootloader_Controller/Bootloader_Ctrl.c:371-451 | a request sends the first thirty missing ids, or counts a failed submission as the first retry |
| FirmwarePages.RequestRefused | hello_world/src/Bootloader_Controller/Bootloader_Ctrl.c:386-393 | a request while a page is out is refused and changes nothing |
| FirmwarePages.PageAcknowledged | hello_world/src/Bootloader_Controller/Bootloader_Ctrl.c:353-361 | the acknowledgement of the page ends the exchange and leaves the record alone |
| FirmwarePages.StrayAnswer | hello_world/src/Bootloader_Controller/Bootloader_Ctrl.c:320-351 | an answer to another page, or of another kind, changes nothing |
| FirmwarePages.PageAndAck | hello_world/src/Bootloader_Controller/Bootloader_Ctrl.c:320-451 | a page that arrives and is acknowledged changes nothing but the frame counter, so the next one has the same ids |
| FirmwareRecovery.ResendFirst | hello_world/src/Bootloader_Controller/Bootloader_Ctrl.c:852-876 | the first pending packet resent is recovered, and it alone |
| FirmwareRecovery.Deliver | hello_world/src/Bootloader_Controller/Bootloader_Ctrl.c:757-1001 | any packet of the image, new, late or sent again: the session goes on with exactly that id added to the accepted ones, the skipped ids noted as lost and a duplicate refused, unless it skips more ids than the table has room for, which ends the session |
| FirmwareRecovery.MissingIsUnaccepted | hello_world/src/Bootloader_Controller/Bootloader_Ctrl.c:601-640 | what FWUpEnd finds missing is exactly the packets that were not accepted, in ascending order |
| FirmwareRecovery.EndAccepts | hello_world/src/Bootloader_Controller/Bootloader_Ctrl.c:581-695 | FWUpEnd with nothing missing succeeds with the image in flash |
| FirmwareRecovery.EndAsks | hello_world/src/Bootloader_Controller/Bootloader_Ctrl.c:612-640 | FWUpEnd with something missing refuses and notes the tail as lost |
| BulkTransfer.RunKeepsInv | hello_world/src/ExtFlash_Controller/LittleFsController/LittleFs_Controller.c:109-503 | over every interleaving of senders, worker, end, timeouts and cleanup: while no error is set, file, frame in the worker's hand and queue together are the accepted frames in order; received + in hand + queued = accepted, at most the declared size; the running CRC is that of the file part already summed |
| BulkTransfer.StepKeepsInv | hello_world/src/ExtFlash_Controller/LittleFsController/LittleFs_Controller.c:109-503 | the same for one atomic step of any of the threads |
| BulkTransfer.SuccessMeansFile | hello_world/src/ExtFlash_Controller/LittleFsController/LittleFs_Controller.c:217-341 | a Success result without error comes only from the final judgement and means a closed file of exactly the declared length and CRC, made of the accepted frames in order |
| BulkVerdict.VerdictMeans | hello_world/src/ExtFlash_Controller/LittleFsController/LittleFs_Controller.c:217-341 | in every interleaving, when the ending call returns its verdict: the result tells what became of the file. Success, or a failure to close it or to refresh the catalog, leaves the whole file that was declared; a failure to delete is reported as such; after any other failure the file is gone |
| BulkVerdict.IdleHoldsWholeFiles | hello_world/src/ExtFlash_Controller/LittleFsController/LittleFs_Controller.c:109-503 | over every interleaving in which deletions succeed: a file that an idle target holds was judged to be the frames accepted for it, of the size and checksum declared |
| BulkVerdict.VerdictReason | hello_world/src/ExtFlash_Controller/LittleFsController/LittleFs_Controller.c:263-325 | the reason given for a file with which nothing else went wrong, told from the accepted frames: size, then checksum, then sync, close and catalog |
| BulkVerdict.CleanupMeans | hello_world/src/ExtFlash_Controller/LittleFsController/LittleFs_Controller.c:399-430 | the cleanup ends a transfer that has an error and deletes its file, and does nothing to any other |
| BulkFailure.StarvedIsDropped | hello_world/src/ExtFlash_Controller/LittleFsController/LittleFs_Controller.c:432-452 | a sender that stops: when the worker's time is up with nothing queued, the transfer fails with a timeout and the cleanup drops it, file and all |
| BulkFailure.FailedWriteIsDropped | hello_world/src/ExtFlash_Controller/LittleFsController/LittleFs_Controller.c:455-496 | a write that fails at any byte: the same, and nothing of it is left |
| BulkFailure.LateFrameIsDropped | hello_world/src/ExtFlash_Controller/LittleFsController/LittleFs_Controller.c:455-470 | a frame taken after the transfer has failed is not written |
| BulkFailure.GivenUpIsDropped | hello_world/src/ExtFlash_Controller/LittleFsController/LittleFs_Controller.c:399-496 | a worker that gives up, from its error to the end of the cleanup: the target is at rest with no file |
| BulkFailure.DroppedStarts | hello_world/src/ExtFlash_Controller/LittleFsController/LittleFs_Controller.c:109-215 | and the next transfer can start |
| BulkFailure.FullQueueFails | hello_world/src/ExtFlash_Controller/LittleFsController/LittleFs_Controller.c:241-252 | an ending call that cannot queue its marker returns that failure and drops the transfer |
| BulkFailure.SilentWorkerFails | hello_world/src/ExtFlash_Controller/LittleFsController/LittleFs_Controller.c:254-262 | so does one that waits in vain for the worker |
| BulkTransfer.JudgeIsAlone | hello_world/src/ExtFlash_Controller/LittleFsController/LittleFs_Controller.c:217-341 | when the ending call judges, the worker is gone; when the transfer is idle nothing is running |
| BulkTransfer.EndKeeps | hello_world/src/ExtFlash_Controller/LittleFsController/LittleFs_Controller.c:217-341 | every step of the ending call, its timeouts and aborts included, keeps the invariant |
| BulkTransfer.WorkerKeeps | hello_world/src/ExtFlash_Controller/LittleFsController/LittleFs_Controller.c:432-496 | every step of the worker keeps it, partial writes and late state changes included |
| BulkTransfer.CleanupKeeps | hello_world/src/ExtFlash_Controller/LittleFsController/LittleFs_Controller.c:399-430 | the cleanup work item keeps it |
| BulkTransfer.SendKeeps | hello_world/src/ExtFlash_Controller/LittleFsController/LittleFs_Controller.c:343-397 | an accepted frame goes to the end of the queue, at most ten deep |
| BulkController.Controller.WorkerLoop | hello_world/src/ExtFlash_Controller/LittleFsController/LittleFs_Controller.c:432-496 | the worker's loop as sequential code over control block, ring and flags, with any steps of the other threads wherever it waits or holds no lock: what it does is a run of the interleaving model; left at the end marker with no error set, the file is the accepted frames in order, counted and summed; giving up leaves an error, the semaphore given and the cleanup submitted; stopped otherwise only by another thread |
| BulkController.LoopIsWork | hello_world/src/ExtFlash_Controller/LittleFsController/LittleFs_Controller.c:455-496 | a loop that goes on has, in every turn and in this order, fetched one frame, checked the state, written the frame, checksummed it and counted it, whatever the other threads did in between |
| BulkController.DepartureMeans | hello_world/src/ExtFlash_Controller/LittleFsController/LittleFs_Controller.c:432-496 | how a worker that leaves has left the transfer, in any interleaving: at the marker without error everything accepted is in the file, after giving up an error is set |
| BulkController.Controller.EndTransfer | hello_world/src/ExtFlash_Controller/LittleFsController/LittleFs_Controller.c:217-341 | the ending call as sequential code, queue wait, semaphore wait, judgement and both exits, with any steps of the other threads in between: a run of the interleaving model with the result it returns; Success without error means a closed file of the declared length and CRC made of the accepted frames, and after any other result the file is gone, unless it is whole or could not be deleted; refused without effect when nothing is being received |
| BulkController.Controller.CleanUp | hello_world/src/ExtFlash_Controller/LittleFsController/LittleFs_Controller.c:399-430 | the cleanup in place: the file of a failed transfer is deleted |
| BulkController.Controller.StartTransfer | hello_world/src/ExtFlash_Controller/LittleFsController/LittleFs_Controller.c:109-215 | the control block at the start of a transfer, in place: started exactly when idle, unlocked and of positive size |
| BulkController.Controller.SendData | hello_world/src/ExtFlash_Controller/LittleFsController/LittleFs_Controller.c:343-397 | a frame is queued in place exactly when it is the next one, sound, within the declared size, and the ring has room |
| BulkController.MsgQueue.Put | hello_world/src/ExtFlash_Controller/LittleFsController/LittleFs_Controller.c:200-203 | the ring of ten slots takes a message at its end, or refuses it exactly when full |
| BulkController.MsgQueue.Get | hello_world/src/ExtFlash_Controller/LittleFsController/LittleFs_Controller.c:436-439 | and gives the oldest, if there is one |
| BulkHost.SendTransferFile | hello_world/tools/fw_update_uart_gui.py:1980-2042 | the host's transfer loop against any background activity of the target: if it reports completion, the target's file is the host's bytes, for every non-empty file |
| BulkProgress.SmoothTransferSucceeds | hello_world/tools/fw_update_uart_gui.py:2006-2025 | completeness: a non-empty file sent in full while nothing fails, in whatever order sender, worker and ending call take their steps, is judged Success with the file on the target |
| BulkProgress.JudgedClean | hello_world/src/ExtFlash_Controller/LittleFsController/LittleFs_Controller.c:217-341 | a transfer in which nothing failed is judged Success if and only if what was accepted has the declared size and CRC |
| BulkProgress.StepStaysClean | hello_world/src/ExtFlash_Controller/LittleFsController/LittleFs_Controller.c:109-503 | a step that does not fail leaves no error behind, in any interleaving |
| BulkProgress.NeverStuck | hello_world/src/ExtFlash_Controller/LittleFsController/LittleFs_Controller.c:217-496 | until the ending call judges, a transfer in which nothing failed always has a next step, and it leaves less to do |
| BulkProgress.StepsFall | hello_world/src/ExtFlash_Controller/LittleFsController/LittleFs_Controller.c:217-496 | any step but a send that does not fail leaves less to do, or changes nothing but the request for a cleanup |
| BulkProgress.AnyFileGetsThrough | hello_world/tools/fw_update_uart_gui.py:2006-2025 | so for every non-empty file there is an interleaving that ends in Success |
| BulkHost.BackgroundKeeps | hello_world/src/ExtFlash_Controller/LittleFsController/LittleFs_Controller.c:399-503 | worker, end and cleanup steps leave the accepted frames and, unless the transfer is over, its declaration alone |
| BulkHost.StartReadsBack | hello_world/src/PC_UART_API/PC_UART_BulkFileService.c:80-120 | the target reads back every START the host sends |
| BulkHost.DataReadsBack | hello_world/src/PC_UART_API/PC_UART_BulkFileService.c:122-159 | the target reads back every DATA frame the host sends |
| BulkService.StartReadIff | hello_world/src/PC_UART_API/PC_UART_BulkFileService.c:80-113 | a START payload is read if and only if it is the encoding of a legal request; otherwise the answer tells a wrong length from a wrong type or size |
| BulkService.StartService | hello_world/src/PC_UART_API/PC_UART_BulkFileService.c:80-120 | the service starts a transfer if and only if the START is legal and the target at rest; any other answer changes nothing |
| BulkService.FrameReadIff | hello_world/src/PC_UART_API/PC_UART_BulkFileService.c:122-149 | a DATA payload is read if and only if it is the encoding of a frame of 1 to 256 bytes |
| BulkService.DataService | hello_world/src/PC_UART_API/PC_UART_BulkFileService.c:122-159 | the service takes a frame if and only if a session is active and the transfer takes it; a full queue, and only that, is answered as such |
| BulkHost.ChunksConcat | hello_world/tools/fw_update_uart_gui.py:2006-2025 | the chunks of 256 bytes put together are the file |
| AudioStore.StepKeepsInvIff | hello_world/src/ExtFlash_Controller/AudioSrcConfiguration/AudioSrcConfiguration.c:262-377 | memory has at most one selected source, it is active, and a file says selected only if memory does; an operation, however its locks and writes fail, keeps this if and only if it is not a write that turns a source on, takes effect and is still reported failed |
| AudioStore.RunKeepsInv | hello_world/src/ExtFlash_Controller/AudioSrcConfiguration/AudioSrcConfiguration.c:262-754 | a file says selected only if memory does, all along a run, if and only if no write in it that turns a source on takes effect and is still reported failed |
| AudioStore.RunKeepsMemory | hello_world/src/ExtFlash_Controller/AudioSrcConfiguration/AudioSrcConfiguration.c:262-754 | in every run, however its locks and writes fail: memory is well formed, at most one source is selected, and that one is active |
| AudioStore.StepKeepsOneIff | hello_world/src/ExtFlash_Controller/AudioSrcConfiguration/AudioSrcConfiguration.c:262-754 | an operation leaves two files that say selected if and only if it writes a selected record, that write takes effect, and another file says selected at that moment; written out for each of the four operations |
| AudioStore.RunKeepsOneIff | hello_world/src/ExtFlash_Controller/AudioSrcConfiguration/AudioSrcConfiguration.c:262-754 | at most one file says selected all along a run if and only if no operation of it does that |
| AudioStore.PowerCutIff | hello_world/src/ExtFlash_Controller/AudioSrcConfiguration/AudioSrcConfiguration.c:335-376 | some cut during the writes of an operation leaves two files that say selected if and only if the operation writes a selected record while another file says selected |
| AudioStore.PowerCutIsSafe | hello_world/src/ExtFlash_Controller/AudioSrcConfiguration/AudioSrcConfiguration.c:335-376 | while files follow memory no operation does: wherever power goes, at most one record decodes as selected |
| AudioStore.RestartFindsAtMostOne | hello_world/src/ExtFlash_Controller/AudioSrcConfiguration/AudioSrcConfiguration.c:756-851 | from a successful load, over every run and a power cut in the middle of the operation behind it: at most one selected record all along if and only if no operation of the run wrote a second one, and then at every cut if and only if the last operation does not write one |
| AudioStore.TwoSelected | hello_world/src/ExtFlash_Controller/AudioSrcConfiguration/AudioSrcConfiguration.c:357-376 | the counterexample family: after a late failure of a select, the next select leaves two selected records, and the next load refuses |
| AudioStore.LoadEstablishes | hello_world/src/ExtFlash_Controller/AudioSrcConfiguration/AudioSrcConfiguration.c:756-851 | a successful load establishes the invariant |
| AudioStore.ChangeKeeps | hello_world/src/ExtFlash_Controller/AudioSrcConfiguration/AudioSrcConfiguration.c:543-571 | rewriting one source: memory follows the write, is rolled back if it fails, and encoding never fails |
| AudioStore.SelectKeeps | hello_world/src/ExtFlash_Controller/AudioSrcConfiguration/AudioSrcConfiguration.c:262-377 | the two-file selection keeps the invariant exactly when it does not fail late |
| AudioStore.UpdateRecordKeeps | hello_world/src/ExtFlash_Controller/AudioSrcConfiguration/AudioSrcConfiguration.c:631-711 | the record update keeps it exactly when it does not fail late |
| AudioSettings.VolumeIsSet | hello_world/src/ExtFlash_Controller/AudioSrcConfiguration/AudioSrcConfiguration.c:713-754 | a volume change succeeds exactly under the stated conditions; then that source has the volume asked for, in memory and in its file, and every other field and source is unchanged; otherwise memory is |
| AudioSettings.MuteIsSet | hello_world/src/ExtFlash_Controller/AudioSrcConfiguration/AudioSrcConfiguration.c:154-196 | the same for the mute state |
| AudioSettings.SelectedIsOn | hello_world/src/ExtFlash_Controller/AudioSrcConfiguration/AudioSrcConfiguration.c:262-377 | after a successful selection that source and no other is selected, and nothing else about any source has changed |
| AudioSettings.SelectDoes | hello_world/src/ExtFlash_Controller/AudioSrcConfiguration/AudioSrcConfiguration.c:305-377 | when a selection succeeds, which files it rewrites to what, and what a failed one leaves in memory: at worst the source selected before is off |
| AudioSettings.DeselectedIsOff | hello_world/src/ExtFlash_Controller/AudioSrcConfiguration/AudioSrcConfiguration.c:285-313 | after a successful deselection memory does not say selected, and neither does the file if files followed memory before |
| AudioSettings.RecordIsSet | hello_world/src/ExtFlash_Controller/AudioSrcConfiguration/AudioSrcConfiguration.c:631-711 | a record update succeeds exactly under the stated conditions; then the file is that record and memory what it decodes to |
| AudioSettings.LoadReads | hello_world/src/ExtFlash_Controller/AudioSrcConfiguration/AudioSrcConfiguration.c:756-851 | a load puts into memory what the files say, exactly if all decode and one at most is selected, and otherwise leaves memory alone |
| AudioSettings.StepKeepsMirrorIff | hello_world/src/ExtFlash_Controller/AudioSrcConfiguration/AudioSrcConfiguration.c:262-754 | an operation keeps every file equal to memory if and only if no write of it is reported failed although it took effect, or destroys the file |
| AudioSettings.RunKeepsMirror | hello_world/src/ExtFlash_Controller/AudioSrcConfiguration/AudioSrcConfiguration.c:262-754 | files equal memory all along a run if and only if no operation of it does that |
| AudioSettings.RestartFindsSettings | hello_world/src/ExtFlash_Controller/AudioSrcConfiguration/AudioSrcConfiguration.c:756-851 | from a successful load, over every such run: a restart finds every setting as it was |
| AudioSources.Sources.SelectSource | hello_world/src/ExtFlash_Controller/AudioSrcConfiguration/AudioSrcConfiguration.c:262-377 | selection in place, under locks: same new state and result as the store function, and no lock left held on any path |
| AudioSources.Sources.UpdateVolume | hello_world/src/ExtFlash_Controller/AudioSrcConfiguration/AudioSrcConfiguration.c:713-754 | volume change in place: on success the source has the volume asked for, on failure memory is unchanged |
| AudioSources.Sources.UpdateMute | hello_world/src/ExtFlash_Controller/AudioSrcConfiguration/AudioSrcConfiguration.c:154-196 | mute change in place, in the same terms |
| AudioSources.Sources.UpdateConfiguration | hello_world/src/ExtFlash_Controller/AudioSrcConfiguration/AudioSrcConfiguration.c:631-711 | record update in place: on success the file is the record and memory what it decodes to |
| AudioSources.Sources.Load | hello_world/src/ExtFlash_Controller/AudioSrcConfiguration/AudioSrcConfiguration.c:756-851 | the load loop: memory is replaced only if all records decode and at most one is selected |
| AudioSources.Sources.LockSources | hello_world/src/ExtFlash_Controller/AudioSrcConfiguration/AudioSrcConfiguration.c:460-497 | both source locks in ascending order, or none if one cannot be had |
| AudioSources.Sources.UnlockSources | hello_world/src/ExtFlash_Controller/AudioSrcConfiguration/AudioSrcConfiguration.c:499-513 | releases exactly the two locks |
| AudioSources.Sources.CountSelected | hello_world/src/ExtFlash_Controller/AudioSrcConfiguration/AudioSrcConfiguration.c:990-1022 | the selection check counts at most one exactly when no two sources are selected |
| AudioSources.Sources.ChangeSource | hello_world/src/ExtFlash_Controller/AudioSrcConfiguration/AudioSrcConfiguration.c:300-309 | store, write, roll back |
| AudioRecord.EncodeThenDecode | hello_world/src/ExtFlash_Controller/AudioSrcConfiguration/AudioSrcConfiguration.c:573-629 | any source the firmware can hold goes to its record and back if and only if it is well formed |
| AudioRecord.DecodeThenEncode | hello_world/src/ExtFlash_Controller/AudioSrcConfiguration/AudioSrcConfiguration.c:853-956 | every accepted record is the one the firmware would write for what it read |
| AudioRecord.ToolToFirmware | hello_world/tools/fw_update_uart_gui.py:321-357 | what the PC tool writes the firmware reads with the same fields, except that it refuses source type None |
| AudioRecord.ReadersAgree | hello_world/tools/fw_update_uart_gui.py:360-421 | both readers accept the same records with the same fields, up to the tool's text test and its inactive sources of type None |
| AudioRecord.ToolRoundTrip | hello_world/tools/fw_update_uart_gui.py:321-421 | the tool reads back what it wrote |
| AudioRecord.EncodeRecord | hello_world/src/ExtFlash_Controller/AudioSrcConfiguration/AudioSrcConfiguration.c:573-629 | the record buffer filled in place is the encoded record |
| AudioRecord.ValidateName | hello_world/src/ExtFlash_Controller/AudioSrcConfiguration/AudioSrcConfiguration.c:958-988 | the name loops accept exactly names of 1 to 23 bytes without NUL, zero padded |
| AudioRecord.DecodeRecord | hello_world/src/ExtFlash_Controller/AudioSrcConfiguration/AudioSrcConfiguration.c:853-956 | decoding from a buffer, check by check |
| FileController.Controller.BuildCatalog | hello_world/src/ExtFlash_Controller/LittleFsController/LittleFs_Controller.c:677-832 | the walk with reused work-list slots: on success the catalog has every file below the mount point exactly once, on any error it is what it was; without driver faults it succeeds if and only if the tree fits (10 directories, 32 files, name and path lengths) |
| FileController.Controller.CatalogDirectory | hello_world/src/ExtFlash_Controller/LittleFsController/LittleFs_Controller.c:700-822 | one directory of that walk: everything in it is listed, or the tree does not fit or a driver call failed |
| FileController.Controller.PushDirectory | hello_world/src/ExtFlash_Controller/LittleFsController/LittleFs_Controller.c:771-784 | a subdirectory goes into the first free work-list slot, and is new |
| FileController.Controller.StageFile | hello_world/src/ExtFlash_Controller/LittleFsController/LittleFs_Controller.c:790-812 | a file goes on the staging list once |
| FileController.Controller.DeleteDirectory | hello_world/src/ExtFlash_Controller/LittleFsController/LittleFs_Controller.c:1058-1141 | true only if the directory and all below it, and nothing else, are gone and the catalog is rebuilt; without faults exactly when the request is one a caller can check to be removable |
| FileController.Controller.DeleteInside | hello_world/src/ExtFlash_Controller/LittleFsController/LittleFs_Controller.c:1143-1348 | the two passes: nothing outside is touched, "not empty" never arises, a tree of more than ten directories (or with a directory path too long) is refused with nothing deleted, and without faults it succeeds if and only if all paths fit |
| FileController.Controller.RemoveListed | hello_world/src/ExtFlash_Controller/LittleFsController/LittleFs_Controller.c:1251-1347 | the reverse pass removes exactly what is strictly below the root |
| FileController.Controller.EmptyDirectory | hello_world/src/ExtFlash_Controller/LittleFsController/LittleFs_Controller.c:1258-1334 | a directory without subdirectories is emptied file by file; the loop ends because each turn removes one |
| FileController.Controller.ScanDirectory | hello_world/src/ExtFlash_Controller/LittleFsController/LittleFs_Controller.c:1171-1244 | the first pass lists each subdirectory once, behind its parent |
| FileController.Controller.FirstEntry | hello_world/src/ExtFlash_Controller/LittleFsController/LittleFs_Controller.c:1258-1322 | the first real entry of a directory read anew |
| FileTree.WalkComplete | hello_world/src/ExtFlash_Controller/LittleFsController/LittleFs_Controller.c:677-832 | a walk whose found directories are all scanned has found every directory of the tree |
| FileTree.AddDirectory | hello_world/src/ExtFlash_Controller/LittleFsController/LittleFs_Controller.c:771-784 | a subdirectory read for the first time has not been found before |
| FileCatalog.WalkEnds | hello_world/src/ExtFlash_Controller/LittleFsController/LittleFs_Controller.c:826-831 | with the work list empty, the staging list is the complete catalog and the tree fits |
| FileRemoval.OnlyFilesLeft | hello_world/src/ExtFlash_Controller/LittleFsController/LittleFs_Controller.c:1320-1327 | when a directory's turn comes in the reverse pass, only files are left in it |
| FileRemoval.ScanEnds | hello_world/src/ExtFlash_Controller/LittleFsController/LittleFs_Controller.c:1165-1244 | the finished list has every directory below the root exactly once |
| FileRemoval.AllGone | hello_world/src/ExtFlash_Controller/LittleFsController/LittleFs_Controller.c:1251-1347 | the whole reverse pass removes exactly the strict descendants |
| UartFraming.HuntStart | hello_world/src/PC_UART_API/PC_UART_API.c:324-355 | the hunter stops exactly at the first frame start of the stream without its one-letter requests, and answers each request before it |
| UartFraming.ProgressSnoc | hello_world/src/PC_UART_API/PC_UART_API.c:347-354 | one mismatching byte restarts the hunt where it must: no start is missed |
| UartFraming.ReadFrame | hello_world/src/PC_UART_API/PC_UART_API.c:308-412 | the reading of any stream: hunting, a frame, or a refusal with the error of length, version or checksum, from its first start on |
| UartFraming.FrameAfterNoise | hello_world/tools/fw_update_uart_gui.py:510-513 | after any noise that contains no start, and whatever follows, the reading of a built frame of at most 264 bytes is that command, sequence and payload, and nothing else |
| UartFraming.BodyReadsBack | hello_world/src/PC_UART_API/PC_UART_API.c:357-408 | a frame body reads back whole; a longer payload is refused |
| UartFraming.FrameIsBuilt | hello_world/src/PC_UART_API/PC_UART_API.c:357-408 | and nothing else is read: a frame is read from a stream if and only if the stream goes on with the bytes a sender builds for just that command, number and payload |
| UartFraming.ReadAll | hello_world/src/PC_UART_API/PC_UART_API.c:213-238 | the receive loop on a stream of frames with noise between them receives exactly those, in order |
| UartFraming.OneByteErrorRefused | hello_world/src/PC_UART_API/PC_UART_API.c:399-408 | any one byte of version, command, sequence, payload or checksum changed makes the frame refused, with the right error; the length bytes are the only ones not covered |
| UartFraming.TwoByteErrorRefused | hello_world/src/PC_UART_API/PC_UART_API.c:399-408 | any change of two adjacent payload bytes is noticed |
| UartFraming.FirstStartUnique | hello_world/src/PC_UART_API/PC_UART_API.c:324-355 | a stream has one first start |
| UartFraming.Sender.SendFrame | hello_world/src/PC_UART_API/PC_UART_API.c:149-194 | the bridge's sender puts out the frame the PC tool would build, with a running 16-bit number |
| Crc16.UpdateConcat | hello_world/src/Bootloader_Controller/Bootloader_Ctrl.c:1003-1023 | updates compose over concatenation |
| Crc16.StepsInjective | hello_world/src/PC_UART_API/PC_UART_API.c:570-586 | bit steps are injective on 16-bit states, so a bijection |
| Crc16.DifferencePersists | hello_world/src/PC_UART_API/PC_UART_API.c:570-586 | two different states stay different over any data |
| Crc16.ByteErrorDetected | hello_world/tools/fw_update_uart_gui.py:498-507 | a changed byte changes the CRC, in data of any length |
| Crc16.PairErrorDetected | hello_world/tools/fw_update_uart_gui.py:498-507 | so do two adjacent changed bytes |
| Crc16.UpdateLoop | hello_world/src/PC_UART_API/PC_UART_API.c:570-586 | the nested loops compute the recursive CRC |
| CrcRemainder.ChecksumIsRemainder | hello_world/src/PC_UART_API/PC_UART_API.c:570-586 | the checksum of a message is the remainder, over the two-element field, of the message times x^16, its first 16 bits inverted, by x^16 + x^12 + x^5 + 1: it differs from that by a multiple of the generator, has degree below 16, and nothing else does both |
| CrcRemainder.UpdateDivides | hello_world/src/PC_UART_API/PC_UART_API.c:570-586 | the same for an update from any register, with its quotient |
| CrcRemainder.TurnDivides | hello_world/src/PC_UART_API/PC_UART_API.c:577-583 | one turn of the inner loop multiplies by x and takes the generator away when the product has degree 16 |
| SlotPool.StepKeepsInv | hello_world/src/WallController/WallController_Comm_Manager/WallController_Comm_Manager.c:177-818 | in addition a live slot has a legal command, and its attempts match the retry count: a call keeps this if and only if it is not a failed submission reported for a slot that is not in use or out of attempts |
| SlotPool.RunKeepsInv | hello_world/src/WallController/WallController_Comm_Manager/WallController_Comm_Manager.c:177-818 | the same holds all along a run if and only if no such report is in it |
| SlotPool.RunKeepsOrder | hello_world/src/WallController/WallController_Comm_Manager/WallController_Comm_Manager.c:177-818 | in every run, such reports included: a command has at most one live slot, a slot that names a command was claimed for it, and generations count the claims |
| SlotPool.ClaimNeverFails | hello_world/src/WallController/WallController_Comm_Manager/WallController_Comm_Manager.c:703-716 | five commands cannot fill twenty slots: claiming a free one never fails |
| SlotPool.AttemptsBoundedIff | hello_world/src/WallController/WallController_Comm_Manager/WallController_Comm_Manager.c:745-770 | a message is handed out at most 1 + maxRetry times, for maxRetry below 255, all along a run if and only if no retry in it wraps the byte that counts them |
| SlotPool.AttemptsBounded | hello_world/src/WallController/WallController_Comm_Manager/WallController_Comm_Manager.c:745-770 | in a run without late reports of failed submissions that never happens |
| SlotPool.LateReportsWrapCount | hello_world/src/WallController/WallController_Comm_Manager/WallController_Comm_Manager.c:757-765 | with such reports it can: 256 of them, and a message with no retries is handed out twice |
| SlotPool.AttemptsUnbounded | hello_world/src/WallController/WallController_Comm_Manager/WallController_Comm_Manager.c:757-765 | with maxRetry 255 the byte counter never exceeds the limit: for every n a run hands the message out n + 1 times |
| SlotPool.StaleCompletionIsInert | hello_world/src/WallController/WallController_Comm_Manager/WallController_Comm_Manager.c:177-205 | in every run a completion of an earlier use of a slot changes nothing, whatever happened in between, for fewer than 2^32 - 1 claims since |
| SlotPool.GenerationComesBack | hello_world/src/WallController/WallController_Comm_Manager/WallController_Comm_Manager.c:720-726 | the bound is exact: a run of 2^32 - 1 further claims after which the completion of the first use ends the last one |
| SlotPool.SendFailedKeepsIff | hello_world/src/WallController/WallController_Comm_Manager/WallController_Comm_Manager.c:787-818 | a submission refused by a full queue or an unavailable bus keeps the invariant if and only if the slot is live and has attempts left; the other outcomes always keep it |
| SlotOutcomes.AcknowledgedOnce | hello_world/src/WallController/WallController_Comm_Manager/WallController_Comm_Manager.c:465-564 | a message that was acknowledged is not handed to transmission again, in any run in which no failed submission is reported for its slot |
| SlotOutcomes.NeverSentAgain | hello_world/src/WallController/WallController_Comm_Manager/WallController_Comm_Manager.c:671-818 | the same for every use of a slot that is over, however it ended |
| SlotOutcomes.LateReportSendsAgain | hello_world/src/WallController/WallController_Comm_Manager/WallController_Comm_Manager.c:787-808 | why those reports are left out: one of them, for a message that was acknowledged, and it is sent again |
| SlotOutcomes.ResultStays | hello_world/src/WallController/WallController_Comm_Manager/WallController_Comm_Manager.c:624-639 | a result stays as it is, in every run, until the application takes it |
| SlotOutcomes.AcknowledgementEnds | hello_world/src/WallController/WallController_Comm_Manager/WallController_Comm_Manager.c:554-559 | an acknowledgement ends the use: the result waits for the application, or the slot is blank again at once |
| SlotOutcomes.RefusalEnds | hello_world/src/WallController/WallController_Comm_Manager/WallController_Comm_Manager.c:560-669 | a refusal ends it with its code, unless it is worth another attempt; then the slot goes on waiting |
| SlotOutcomes.StateErrorsAreRetried | hello_world/src/WallController/WallController_Comm_Manager/WallController_Comm_Manager.c:566-663 | which refusals are worth another attempt: those about the state of the other side, not those about the message |
| SlotOutcomes.ComplaintEnds | hello_world/src/WallController/WallController_Comm_Manager/WallController_Comm_Manager.c:411-463 | a complaint about the format always ends the use |
| SlotOutcomes.StrayAnswer | hello_world/src/WallController/WallController_Comm_Manager/WallController_Comm_Manager.c:465-542 | an answer changes nothing unless it makes sense and a slot awaits it, with its command and revision |
| SlotOutcomes.UnansweredIsSentAgain | hello_world/src/WallController/WallController_Comm_Manager/WallController_Comm_Manager.c:671-785 | when time is up for a message, the application gets the same slot again for the present revision while attempts are left, and after the last one the use has failed |
| SlotOutcomes.RefusedAttemptEnds | hello_world/src/WallController/WallController_Comm_Manager/WallController_Comm_Manager.c:310-337 | an application that will not send again ends the use |
| SlotOutcomes.CompletionMeans | hello_world/src/WallController/WallController_Comm_Manager/WallController_Comm_Manager.c:177-274 | what each report of the driver makes of the message it is for |
| SlotOutcomes.MessageDelivered | hello_world/src/WallController/WallController_Comm_Manager/WallController_Comm_Manager.c:671-785 | a message from its claim to its acknowledgement: handed out once, answered, and its slot blank again |
| SlotOutcomes.SubmissionMeans | hello_world/src/WallController/WallController_Comm_Manager/WallController_Comm_Manager.c:787-818 | a submission reported handled leaves the message with the driver or waiting; any other leaves nothing of it |
| SlotOutcomes.ReleaseFrees | hello_world/src/WallController/WallController_Comm_Manager/WallController_Comm_Manager.c:844-904 | the application frees a slot, and no other |
| SlotOutcomes.RevisionIsSet | hello_world/src/WallController/WallController_Comm_Manager/WallController_Comm_Manager.c:820-830 | a revision is a byte other than 0, set for legal commands only |
| TransactionManager.Manager.SubscribeCommand | hello_world/src/WallController/WallController_Comm_Manager/WallController_Comm_Manager.c:671-785 | claim or retry, in place |
| TransactionManager.Manager.NotifyTxComplete | hello_world/src/WallController/WallController_Comm_Manager/WallController_Comm_Manager.c:177-274 | transmit completion, in place |
| TransactionManager.Manager.HandleAck | hello_world/src/WallController/WallController_Comm_Manager/WallController_Comm_Manager.c:465-564 | acknowledgement, in place |
| TransactionManager.Manager.HandleInvalidFormat | hello_world/src/WallController/WallController_Comm_Manager/WallController_Comm_Manager.c:411-463 | format complaint, in place |
| TransactionManager.Manager.TrackSlot | hello_world/src/WallController/WallController_Comm_Manager/WallController_Comm_Manager.c:286-340 | one slot whose time has run out: marked under its lock, then any calls by the application without it, then failed under the lock if still marked |
| TransactionManager.Manager.TrackMessages | hello_world/src/WallController/WallController_Comm_Manager/WallController_Comm_Manager.c:286-340 | the pass over all twenty slots is a run of such steps |
| TransactionManager.Manager.UpdateRevision | hello_world/src/WallController/WallController_Comm_Manager/WallController_Comm_Manager.c:820-830 | a legal command gets the revision as a byte, 1 instead of 0 |
| TransactionManager.Manager.ManageTransmissionError | hello_world/src/WallController/WallController_Comm_Manager/WallController_Comm_Manager.c:787-818 | failed submission, in place |
| TransactionManager.Manager.ResetTransaction | hello_world/src/WallController/WallController_Comm_Manager/WallController_Comm_Manager.c:874-904 | a slot is freed; its generation stays |
| TransactionManager.Manager.FindByCommand | hello_world/src/WallController/WallController_Comm_Manager/WallController_Comm_Manager.c:956-1001 | finds the first live slot of a command |
| TransactionManager.Manager.ClaimFree | hello_world/src/WallController/WallController_Comm_Manager/WallController_Comm_Manager.c:932-954 | finds the first free slot |
| AdcDecoder.ChunkInvariance | hello_world/tools/adc_uart_visualizer.py:106-176 | however a stream is cut into pieces, feeding them and then nothing gives the same descriptors, samples, buffer and discard count as feeding it whole and then nothing |
| AdcDecoder.FlushIdleIff | hello_world/tools/adc_uart_visualizer.py:106-176 | without the empty feed the pieces agree with the whole exactly when the start-up is not over or fewer than six bytes are left in the buffer |
| AdcDecoder.FlushIdleBefore | hello_world/tools/adc_uart_visualizer.py:106-176 | the same told before the last piece is fed: exactly when the start-up was over before it, does not end in it, or ends with fewer than six bytes behind |
| AdcDecoder.FlushIsNeeded | hello_world/tools/adc_uart_visualizer.py:148-157 | the witness that it can fail: a sample that comes with the start-up header is seen one feed later |
| AdcDecoder.StartedCuts | hello_world/tools/adc_uart_visualizer.py:159-176 | once the start-up is over, pieces agree with the whole without any empty feed |
| AdcDecoder.PacketDecoder.FinishStartup | hello_world/tools/adc_uart_visualizer.py:102-104 | ending the start-up by hand drops what waited, and from then on cuts do not matter |
| AdcDecoder.SettleInTwo | hello_world/tools/adc_uart_visualizer.py:106-176 | decisions do not depend on bytes that come later |
| AdcStream.SessionReads | hello_world/tools/adc_uart_visualizer.py:106-176 | round trip: for every session the board can send, with noise, damaged headers and junk in front, cut into pieces in any way, the decoder reads exactly the descriptors and samples sent, in order, and discards exactly what was damaged or noise |
| AdcStream.StartupReads | hello_world/tools/adc_uart_visualizer.py:106-157 | the start-up alone: noise and damaged headers are skipped, and the first sound header gives exactly its descriptors |
| AdcStream.SamplesArrive | hello_world/tools/adc_uart_visualizer.py:159-176 | after the start-up: exactly the samples sent, however their bytes are cut |
| AdcStream.OnlyLegalRead | hello_world/tools/adc_uart_visualizer.py:106-176 | whatever bytes a decoder is fed: all it ever reads are legal descriptors and samples |
| AdcStream.SampleIsLegal | hello_world/tools/adc_uart_visualizer.py:159-176 | six bytes read as a sample are exactly how that sample is sent |
| AdcDecoder.PacketDecoder.Feed | hello_world/tools/adc_uart_visualizer.py:106-176 | the decoder's loops, the jump to the magic included, decide byte for byte what the decision function says |
| AdcDecoder.PacketDecoder.SeekHeader | hello_world/tools/adc_uart_visualizer.py:113-136 | looking for the header: discards exactly what precedes it |
| AdcDecoder.PacketDecoder.TakeSamples | hello_world/tools/adc_uart_visualizer.py:159-176 | the sample loop |
| FlashDriver.Driver.WriteData | hello_world/src/ExtFlash_Controller/ExtFlashReadWrite/ExtFlash_ReadWriteControl.c:21-110 | the page-split write: however it ends, the chip holds the data ANDed in up to some length, all of it on success; it never wraps inside a page |
| FlashDriver.PageFits | hello_world/src/ExtFlash_Controller/ExtFlashReadWrite/ExtFlash_ReadWriteControl.c:72-87 | a piece that ends inside its page is programmed where it belongs |
| FlashDriver.PageWraps | hello_world/src/ExtFlash_Controller/ExtFlashReadWrite/ExtFlash_ReadWriteControl.c:72-87 | a piece that does not, damages the start of the page: why the split is needed |
| FlashDriver.Driver.Rewrite | hello_world/src/ExtFlash_Controller/ExtFlashReadWrite/ExtFlash_ReadWriteControl.c:21-332 | erase, write and read back through the driver, on one line or on four: on success the buffer holds the data, the rest of the erased range is 0xFF and nothing outside it has changed; without faults it succeeds |
| FlashDriver.WritesIndependent | hello_world/src/ExtFlash_Controller/ExtFlashReadWrite/ExtFlash_ReadWriteControl.c:21-110 | writes to separate places do not disturb each other, and the same write again changes nothing |
| FlashDriver.ReadBackIff | hello_world/src/ExtFlash_Controller/ExtFlashReadWrite/ExtFlash_ReadWriteControl.c:21-110 | written data is read back exactly where the cells had all its bits |
| FlashDriver.Driver.ReadNormal | hello_world/src/ExtFlash_Controller/ExtFlashReadWrite/ExtFlash_ReadWriteControl.c:198-262 | reading in pieces of 256 returns the range |
| FlashDriver.Driver.ReadQuad | hello_world/src/ExtFlash_Controller/ExtFlashReadWrite/ExtFlash_ReadWriteControl.c:264-332 | so does reading in pieces of 4096 |
| FlashDriver.Driver.EraseSector | hello_world/src/ExtFlash_Controller/ExtFlashReadWrite/ExtFlash_ReadWriteControl.c:112-163 | an aligned sector is erased; an unaligned address is refused |
| FlashDriver.Driver.Read | hello_world/src/ExtFlash_Controller/ZephyrFlashMiddleWare/ZephyrFlashMiddleWare.c:120-157 | refused exactly when the range leaves the device, otherwise the range |
| FlashDriver.Driver.Write | hello_world/src/ExtFlash_Controller/ZephyrFlashMiddleWare/ZephyrFlashMiddleWare.c:159-197 | refused exactly when the range leaves the device; what a failure leaves is a written prefix |
| FlashDriver.Driver.Erase | hello_world/src/ExtFlash_Controller/ZephyrFlashMiddleWare/ZephyrFlashMiddleWare.c:199-255 | refused exactly when out of range or unaligned; what a failure leaves is erased whole sectors |

## Left out

- Firmware update, authentication stubs, MCUboot internals, reboot and the CAN bridge: foreign or trivial; an upgrade
  request succeeds or fails by parameter.
- Firmware update, deferred work: the model has one step per message, acknowledgement or timeout; a timeout that was
  armed, cancelled and still fires is an ordinary timeout event.
- FirmwareHost.SendUpdate: packets sent again and the answers to FWUpEnd arrive, and so does the last acknowledgement of
  each round; without it the target would go on sending a page nobody waits for, and the host could take it for the answer
  of the next round. Loss, repetition and reordering throughout are covered by the safety result
  `FirmwareIntegrity.ImageArrivesIntact`.
- FirmwareHost.AwaitPage: the host waits as long as the target retries, as it does with the constants of the source (3
  seconds against three retries of half a second).
- Host pacing, acknowledgement timeouts, retries of single frames and the user interface of the PC tools.
- Bulk transfer, start: failures to build the path or to delete, create or open the file are not modelled; they leave the
  transfer idle.
- BulkController.Controller.WorkerLoop: the other threads' steps, the cleanup work item included, are those of the
  interleaving model; between two of the loop's own sections they come in any order and number. A loop runs for as many
  turns as the environment is described for.
- BulkHost.SendTransferFile: what the target does between two host frames is any sequence of background steps; a second
  host is not modelled.
- Bulk transfer, configuration files written through it behind the audio store's back.
- Audio store, Bluetooth state and the snapshot getters: no persistence involved.
- Audio store, concurrency: an operation that gets its locks is one step; operations on different sources under their own
  locks are not interleaved inside each other.
- CRC-32: any function of the bytes it covers. UTF-8 and white-space tests of the PC tool: any predicate on bytes.
- File paths are lists of names; the text form counts only through its length. Splitting a path at slashes, and doubled
  slashes inside one, are not modelled.
- File creation, plain file reads and writes, and the availability checks of the file controller.
- FileController.Controller.DeleteInside: a file path that is too long is noticed only in the second pass, after other
  files were deleted, as in the source; the result is then an error and only entries below the root are gone.
- UART debug letters sent while a frame is read, the receive ring buffer and the PC tool's own reader.
- UartFraming.OneByteErrorRefused: says nothing about the two length bytes, because a changed length moves the checksum.
- Slot pool, times and back-off: a timeout may come whenever a slot waits. Lock timeouts and the non-atomic find-then-claim
  are not modelled: a call is one step, except for the tracking pass. A slot freed right after its lock was released is
  freed in the same step.
- Slot pool, `eSet_TransactionState_Extern`: an application may put any slot in any state with it; nothing calls it here.
- SlotPool.StaleCompletionIsInert: does not cover a completion of an earlier attempt within the same claim, which only
  the revision tells apart.
- ADC viewer: timestamps, plotting and serial port handling.
- Flash driver: setup, status polling times and the SPI transfer structures; the low-level accesses expect ranges inside
  the device, as their comments say, and the device layer checks them.
- Screens, wall-controller state machine, encoders and validation-test files.
