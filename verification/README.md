# vnvme verification model

A Dafny model of vnvme, a software NVMe controller split between a Windows kernel driver (`vnvme/`) and a
user-mode server (`vnvme-server/`) that share one block of memory holding queues and a notification ring.
The model covers the shared-memory protocol from the host's submission to its completion, crash recovery,
the kernel's and the server's block commands down to the bytes they move, and the tables and control
arithmetic around them. Laws are stated for all inputs, all runs and all interleavings; a few results about
the map and the constants as built are named so.

Verify with `dafny verify dfyconfig.toml`.

## Structure

- `RingArith`, `NvmeTypes`, `Bytes`: wrapped indices against unbounded counts (no division in ring
  proofs), queue entries and status words, byte buffers and histories of writes.
- `NotifyRing`, `CompletionRing`, `Queues`, `UserForward`, `Engine`: the shared-memory structures. Each is
  a class with the source's loops and in-place updates, proved against a specification function, and laws
  about that function.
- `CompletionStores`: the post of a completion split into its single stores, interleaved with a host that
  polls the phase tag and loads the fields.
- `AdminProtocol`, `AdminProgress`, `EngineProgress`: the admin queue as one state machine of host, driver,
  notification ring, engine and crash. The ring is split into single memory accesses; the host's
  submission, the driver's forward and the engine's service of one command are one step each. Safety over
  every run; the engine's progress from every state; existence of the good runs and of the bad crashes.
- `Prp`, `Transfer`, `StorageMedia`, `BlockCommands`, `BlockLaws`, `IoPath`: page lists, gather and
  scatter, the storage back-ends and the kernel's I/O commands. `BlockCommands` says what a command means
  on values, `IoPath` proves the handlers against it, `BlockLaws` proves that any history through any page
  lists refines one flat byte array.
- `BlockMeaning`, `ServerMeaning`, `PageMeaning`: the same commands in the host's own words. Raw command
  words, encoded range lists and encoded page lists in, numbered blocks and bytes out, so that no reading of
  a field is taken from the functions the handlers are proved against.
- `ServerBlock`: the server's range check, block commands and memory back-end.
- `ShmLayout`, `Lifecycle`, `AsyncEvents`, `Namespaces`, `Controllers`, `Polling`, `History`: slab placement, queue
  create and delete, the async event store, the namespace table, the controller count across its lock
  gap, and the polling interval.

## Where the code falls short

Each of these is proved with its exact condition; the model keeps the code's behaviour.

- The engine never writes `AdminCQ.Phase`, which the crash abort reads. With commands pending the host
  sees the abort's completions if and only if the completion queue had wrapped an even number of times
  (`CrashVisibility`, `HostSurvivesCrash`; a reachable failing run: `CrashCanHideACompletion`).
- The engine publishes its head only after a whole drain. Every command has exactly one completion after
  a crash if and only if the head had been published since the last completion, that is, `AdminSQ.Head`
  equals `AdminCQ.Tail` (`CrashCompletesEachOnce`; a reachable failing run: `CrashCanCompleteTwice`).
- A full ring drops a notification. Its commands wait for the next one accepted, and are stranded exactly
  if there is none (`StrandedExactly`). A doorbell polled while the server is not ready waits for the
  next doorbell (`ForgottenUntilNextDoorbell`).
- Posting never checks for a full queue. The host sees its own next entry if and only if its lag is at
  most the capacity; further behind it skips unnoticed to a later entry after an even number of laps, and
  sees nothing after an odd number (`LagLimit`, `LateHostFinds`).
- The abort does not check for room either. Every pending command keeps its completion if and only if the
  backlog is at most the capacity of the completion queue (`AbortKeepsAllExactly`).
- Doorbell values are not compared with the capacity. The drain and the abort step round the ring until
  they meet the tail, which ends if and only if it is below the capacity (`LoopEndsExactly`).
- `vnvme/queue.c` counts created queues where the abort and completion loops treat the count as the
  highest id: they reach every queue if and only if the ids have no gap (`CountReachesAll`,
  `CountMissesAQueue`). Its create and delete functions are not called anywhere in the repository.
  `vnvme/admin_cmd.c`, which the driver runs, keeps a maximum instead, and there no queue is missed
  (`PollReachesEveryQueue`).
- `vnvme/queue.c` does not compare a queue's size with the slab depth (`ClearingExact`, `LastSlabExact`).
- Its slabs follow the descriptor array directly, while the header's macros round to a page. The server
  takes its queue bases from the header's macros, the driver's descriptors carry the unrounded offsets.
  The two sides mean the same bytes if and only if all sizes are whole pages (`SidesAgreeExactly`); as
  built they are 3 KB apart (`SidesShifted`).
- The page-list parser maps one page of the list and reads on beyond it. What it reads is determined
  exactly when at most 512 pages follow the first (`OnePageListExact`), which all transfers up to 2 MB
  satisfy (`BufferedIsDetermined`). Beyond that the model lets the entries be anything: every result
  about page lists, up to `ReadAfterWrite` and `ReadSeesLatest`, holds whatever they are.
- Page-list entries that point inside a page deliver fewer bytes than the command asks for
  (`ParseDelivers`, `UnalignedListFallsShort`); PRP2 as a data page has its offset masked off.
- The block count is kept in 16 bits: 0xFFFF moves nothing and still succeeds (`LargestCountMovesNothing`);
  the largest queue size is refused as too small (`LargestSizeRefused`).
- The kernel's range checks add in 64 bits. They are right exactly when the sum does not wrap, or wraps to
  something still too large (`RangeMacroExact`). On memory storage, where the storage's own check wraps as
  well, every other command is let through and leaves the buffer (`CommandStraysExactly`).
- The same holds for deallocated ranges, whose counts have 32 bits: a range whose sum wraps into bounds is
  let through exactly when its bytes reach into the buffer (`BothChecksExact`), and then zeroes memory
  before the buffer and the start of the namespace (`StrayReaches`; at an input:
  `WrappedRangeZeroesTheStart`). The laws about histories leave such ranges out.
- A namespace created read-only is written like any other: its flag is stored and listed, no command asks
  for it, and nothing sets the storage's own (`ReadOnlyNamespaceIsWritable`).
- The abort posts to the completion queue with the submission queue's id, whatever queue it is bound to
  (`AbortReachesBoundQueue`); `vnvme/queue.c` checks the binding at creation and does not keep it.
- A deallocated range's byte length is cut to 32 bits: it is zeroed whole exactly when it is under 4 GB
  (`RangeZeroedWholeExactly`); at 4 GB nothing is zeroed, and the command succeeds (`FourGigabytesStay`).
  Memory storage is too small for that to matter (`TrimZeroesTheUnion`).
- An event whose post fails loses its request (`RunIsFifo`). A polling interval below 4 us never grows
  (`IdleReachesMaximum`).
- The duplicate check of a controller create does not see creates in flight. Ids stay single if and only
  if no reservation names the id of one (`CheckSufficesExactly`); ids from the counter satisfy that until it
  wraps (`NoDuplicateIds`), and not always afterwards (`WrappedCounterListsTwice`).
- An SQ creation that names a missing completion queue answers with code 0x18; section 5.4 of
  NVM Express 1.4 has 0x00 for Completion Queue Invalid. The model keeps 0x18.

## Model

| member | source | states |
|---|---|---|
| `RingArith.NextIsMod` | vnvme/user_forward.c:43 | the compiled step `(i + 1) % c` is the successor all ring proofs use |
| `RingArith.SlotIsMod` | vnvme/queue.c:513-518 | an unbounded count sits at slot n mod c after n div c wraps |
| `RingArith.DistReaches` | vnvme/user_forward.c:233-241 | the wrapped difference of tail and head is the number of steps from one to the other, and one step shortens it by one |
| `RingArith.LoopEndsExactly` | vnvme-server/command_engine.c:426-433 | a loop that steps round a ring until it meets an index, like the drain and the abort, ends if and only if the index is below the capacity |
| `NvmeTypes.StatusRoundTrip` | vnvme/vnvme_utils.h:29-32 | the host reads back status code type, code and phase from the packed status word |
| `NotifyRing.Ring.constructor` | vnvme/shm.c:102-110 | a new ring is empty and zeroed |
| `NotifyRing.Ring.Push` | vnvme/user_forward.c:28-65 | pushes the entry and advances the tail by one slot exactly when the ring is not full; otherwise changes nothing |
| `NotifyRing.DropExactlyWhenFull` | vnvme/user_forward.c:41-49 | in every interleaving the full test drops a notification if and only if Size - 1 are outstanding |
| `NotifyRing.StepKeepsInv` | vnvme-server/command_engine.c:411-468 | every single memory access of producer or consumer keeps the ring's invariant |
| `NotifyRing.RingSafety` | vnvme/user_forward.c:27-65 | in every interleaving the consumer reads exactly the accepted notifications, whole, in order, once each; none is overwritten before its release |
| `NotifyRing.UninterruptedPush` | vnvme/user_forward.c:41-64 | run without interruption, the producer's single steps are the push method |
| `CompletionRing.PutAllConcat` | vnvme/queue.c:648-730 | posting a batch in two parts is posting it at once, across any wraps |
| `CompletionRing.PutAllTail` | vnvme/queue.c:513-526 | tail and phase after any number of posts are determined by the count |
| `CompletionRing.PutAllStored` | vnvme/queue.c:498-518 | the last lap of posted entries stands in its slots, each with the phase of its lap |
| `CompletionRing.PutAllUntouched` | vnvme/queue.c:498-513 | slots the posts have not reached keep their entries |
| `CompletionRing.PhaseScan` | vnvme/queue.c:214-233 | after n posts to a new queue of capacity C the tail is n mod C and the phase is 1 exactly when n div C is even; a host lagging at most C sees an entry exactly when one is waiting, and it is the next one posted |
| `CompletionRing.LateHostFinds` | vnvme/queue.c:493-526 | m laps behind, the host's slot holds the entry m laps newer, and the host takes it for its next one exactly when m is even |
| `CompletionRing.LagLimit` | vnvme/queue.c:493-526 | the exact limit of a queue nobody checks for full, for every lag: the host sees its own next entry if and only if its lag is at most the capacity |
| `CompletionRing.HostRecovers` | vnvme/queue.c:448-542 | over any paced run the host takes the posted sequence in order and never a stale entry |
| `CompletionRing.HostTakesAll` | vnvme/queue.c:448-542 | a host in step, left alone, takes everything posted |
| `CompletionStores.StepKeepsInv` | vnvme/queue.c:498-526 | every single store of a post and every look and load of the host keeps the ring's invariant |
| `CompletionStores.TagTellsExactly` | vnvme-server/command_engine.c:262-268 | even in the middle of a post the phase tag tells exactly whether a whole entry is waiting |
| `CompletionStores.NeverTorn` | vnvme/queue.c:501-510 | in every interleaving of the stores, status word last, with a polling host that is not lapped, the host takes exactly the posted entries, in order and never a mixture of two |
| `CompletionStores.UninterruptedPost` | vnvme/queue.c:498-526 | run without interruption, the single stores are the post |
| `Queues.FetchEachReturns` | vnvme/queue.c:365-440 | n single fetches return the first n pending commands in order |
| `Queues.NotYetAll` | vnvme/queue.c:602-620 | the head meets the tail exactly when every pending command has been fetched |
| `Queues.Controller.constructor` | vnvme/shm.c:73-97 | admin queues empty, zeroed, not yet valid; no I/O queue created; all counters zero |
| `Queues.Controller.Store` | vnvme/queue.c:498-518 | one entry stored with the given phase; next tail and phase are those of one more post |
| `Queues.Controller.PostCompletion` | vnvme/queue.c:448-542 | the guards in order; an accepted post is one entry with the driver's phase, both tails, the phase tag, the descriptor's phase on a wrap only, and the counter; a refused one changes nothing |
| `Queues.Controller.PostCompletionBatch` | vnvme/queue.c:648-730 | accepted, it equals posting the entries one after the other, across any wraps |
| `Queues.Controller.FetchCommand` | vnvme/queue.c:365-440 | the guards in order; returns the command at the head and advances descriptor and driver head |
| `Queues.Controller.FetchCommandBatch` | vnvme/queue.c:561-634 | accepted, it equals min(Max, pending) single fetches on results and descriptor head; the driver's head stays |
| `Queues.Controller.TakePending` | vnvme/queue.c:602-620 | its loop returns min(Max, pending) commands as single fetches would, and the head after them |
| `Queues.Controller.CreateIoSubmissionQueue` | vnvme/queue.c:70-157 | the refusals in order; the new queue's whole state; the others unchanged; IoQueueCount stays the number of created queues. Size 0 is accepted and leaves a queue that cannot be used |
| `Queues.Controller.DeleteIoSubmissionQueue` | vnvme/queue.c:245-290 | the refusals in order; only the named queue is cleared, and the count follows |
| `Queues.Controller.CreateIoCompletionQueue` | vnvme/queue.c:163-239 | the refusals in order; the new queue's whole state, zeroed at slot 0 with phase 1 on both sides. Size 0 is accepted here too |
| `Queues.Controller.DeleteIoCompletionQueue` | vnvme/queue.c:296-352 | refused as busy exactly when the submission queue with the same id exists |
| `Queues.CountReachesAll` | vnvme/user_forward.c:397-406 | the loops up to IoQueueCount reach every created queue if and only if the created ids have no gap |
| `Queues.CountMissesAQueue` | vnvme/queue.c:70-290 | create 1, create 2, delete 1 by these functions: queue 2 is left and lies beyond the count |
| `UserForward.Driver.ForwardAdminCommands` | vnvme/user_forward.c:109-140 | a ready server gets the new tail and a notification; a full ring loses the notification, never the tail; the queue stays usable exactly if the tail is below the capacity |
| `UserForward.Driver.ForwardIoCommands` | vnvme/user_forward.c:152-201 | the same for an I/O queue with a legal id |
| `UserForward.Driver.ProcessUserCompletions` | vnvme/user_forward.c:214-296 | one call of that accounting: both counters grow by the wrapped differences, and the driver's tails catch up |
| `UserForward.DeltaIsRemainder` | vnvme/user_forward.c:229-241 | one call counts the completions that arrived in a queue modulo its capacity |
| `UserForward.CountingTelescopes` | vnvme/user_forward.c:214-296 | over any number of calls the admin counter, and the I/O counter, has grown by the completions that arrived in its queues if and only if fewer than the capacity arrived in each before each call; otherwise it falls short |
| `UserForward.Driver.AbortQueue` | vnvme/user_forward.c:345-389 | the loop posts one synthesised completion per pending command, in order, empties the queue and touches no other |
| `UserForward.Driver.AbortAdminQueue` | vnvme/user_forward.c:336-390 | the same for the admin queue; driver tail and admin phase follow, the phase tag does not |
| `UserForward.Driver.AbortIoQueue` | vnvme/user_forward.c:406-452 | guards, entries and driver copy for one I/O queue; a created, valid queue keeps its tail and entries and has its head at that tail |
| `UserForward.Driver.AbortIoQueues` | vnvme/user_forward.c:392-453 | every queue up to IoQueueCount is aborted, the rest untouched, the total returned |
| `UserForward.Driver.AbortPendingUserCommands` | vnvme/user_forward.c:322-463 | all queues aborted: each created, valid I/O queue up to IoQueueCount keeps tail and entries and has its head at that tail, all others are as they were; the admin tail and phase follow if anything was pending there; returns and counts the total |
| `UserForward.AbortStatus` | vnvme/user_forward.c:306-310 | the synthesised status reads as generic Internal Error with the given phase |
| `UserForward.AbortPostsEach` | vnvme/user_forward.c:420-446 | the k-th pending command has one completion in the k-th slot from the old tail, with its CID, slot, SQID, status and the phase due there, if at most a lap is posted from it on |
| `UserForward.AbortOverwrites` | vnvme/user_forward.c:420-446 | otherwise the slot holds the completion m laps later, with the phase of that lap |
| `UserForward.AbortKeepsExactly` | vnvme/user_forward.c:420-446 | the k-th pending command keeps its completion if and only if at most a lap of completions is posted from it on |
| `UserForward.AbortKeepsAllExactly` | vnvme/user_forward.c:420-446 | every pending command keeps its completion if and only if the backlog is at most the capacity of the completion queue |
| `UserForward.AbortSparesTheRest` | vnvme/user_forward.c:352-375 | slots beyond them are untouched |
| `UserForward.AbortSettles` | vnvme/user_forward.c:440-452 | afterwards nothing is pending, and descriptor and driver agree on tail and phase |
| `UserForward.AbortedSqIs` | vnvme/user_forward.c:403-413 | the abort visits exactly the created, valid queues whose head and tail differ, and leaves head at tail |
| `UserForward.AbortedStaysDone` | vnvme/user_forward.c:447 | a command the abort completed is never pending again: after any later forward below the capacity exactly the commands behind the old tail are pending, in order |
| `UserForward.AllPosted` | vnvme/user_forward.c:440-463 | what the abort reports for the I/O queues is the number of completions it posts |
| `UserForward.AbortReachesHost` | vnvme/user_forward.c:406-452 | a host in step with the queue and with room stays in step across the abort |
| `UserForward.AbortReachesBoundQueue` | vnvme/user_forward.c:397-430 | the completions of a submission queue reach the completion queue it was bound to if and only if the two ids are equal: the abort does not ask for the binding |
| `AdminProtocol.StepKeepsInv` | vnvme-server/command_engine.c:393-487 | every step of host, driver, ring, engine keeps the protocol's invariant |
| `AdminProtocol.CompletionsInOrder` | vnvme-server/command_engine.c:411-443 | in every run, with any drops and interleavings, the posted completions are those of the first forwarded commands, one each, in order, and the host takes exactly these by phase |
| `AdminProtocol.OutcomesInOrder` | vnvme-server/command_engine.c:245-278 | in every run the host's k-th completion carries the CID of the k-th command submitted and the DW0, type and code of the k-th outcome the handlers returned, with zero second word and queue id and the phase expected there |
| `AdminProtocol.ReadNotificationsAreServed` | vnvme-server/command_engine.c:415-443 | once a notification is read, all commands forwarded before it have completed: a dropped notification only delays |
| `AdminProtocol.StrandedExactly` | vnvme/user_forward.c:125-139 | with the ring read empty and no drain under way, all forwarded commands have completed if and only if a notification was accepted since the last forward |
| `AdminProtocol.ForgottenUntilNextDoorbell` | vnvme/doorbell.c:320-336 | a doorbell polled while the server is not ready is not forwarded, whatever follows, until the host rings again |
| `AdminProtocol.AbandonedCommands` | vnvme/user_forward.c:345-389 | the abort finds every forwarded command not released, in order |
| `AdminProtocol.CrashCompletesEachOnce` | vnvme/user_forward.c:345-389 | after a crash each forwarded command has exactly one completion, in order, if and only if AdminSQ.Head equals AdminCQ.Tail |
| `AdminProtocol.CrashVisibility` | vnvme-server/command_engine.c:271-275 | wherever the engine crashed, with commands pending, the host sees the abort's first completion if and only if the engine had wrapped an even number of times, since it never writes AdminCQ.Phase; it stays in step if, besides, all fit |
| `AdminProtocol.HostSurvivesCrash` | vnvme/user_forward.c:322-463 | crashing between drains, the host takes one completion per forwarded command, in submission order, if and only if the laps are even or nothing is pending |
| `AdminProgress.ServesNext` | vnvme-server/command_engine.c:393-487 | from any quiet state there is a run that carries the next command to its completion and to the host |
| `AdminProgress.ServesAll` | vnvme-server/command_engine.c:393-487 | any sequence of commands can be carried through from the initial state |
| `AdminProgress.CrashCanHideACompletion` | vnvme/user_forward.c:352-389 | for every queue size a reachable crash after one lap leaves a completion the host does not see |
| `AdminProgress.CrashCanCompleteTwice` | vnvme-server/command_engine.c:428-443 | a reachable crash inside a drain makes the abort complete the same command again |
| `EngineProgress.EngineNeverStuck` | vnvme-server/command_engine.c:411-468 | in every reachable state the engine has a step to take |
| `EngineProgress.EngineRunsAreBounded` | vnvme-server/command_engine.c:411-468 | as long as an accepted notification is unread, a run of engine steps alone is no longer than a bound fixed by the state |
| `EngineProgress.EngineServes` | vnvme-server/command_engine.c:411-468 | from every reachable state and for every accepted notification, engine steps alone lead to a state where it is read and all commands forwarded before it have completed |
| `EngineProgress.PollIsRun` | vnvme-server/command_engine.c:393-487 | the poll method as a whole is a run of the protocol's single engine steps with the result its contract says |
| `EngineProgress.OutstandingAreUnread` | vnvme-server/command_engine.c:411-418 | the ring entries the method serves are exactly the accepted notifications not yet read |
| `Engine.CommandEngine.PostAdminCompletion` | vnvme-server/command_engine.c:245-278 | the entry in the old tail's slot holds the CID, DW0, type and code given, the published head as SQHD, zeros elsewhere and the engine's phase; tail and phase step on; AdminCQ.Phase is not written |
| `Engine.CommandEngine.Dispatch` | vnvme-server/command_engine.c:287-363 | an unknown opcode answers Invalid Opcode and counts an error; a known one its handler's result and status, taken apart |
| `Engine.InvalidOpcodeStatus` | vnvme-server/command_engine.c:350-356 | that status reads as generic code 1 with either phase |
| `Engine.CommandEngine.ProcessAdminCommand` | vnvme-server/command_engine.c:287-367 | exactly one completion, and it answers the command: its CID, with the handler's DW0, type and code, or Invalid Opcode for an opcode outside the ten |
| `Engine.CommandEngine.DrainAdmin` | vnvme-server/command_engine.c:422-443 | completes every command from the published head to the index, in order, each in its slot with its own answer, then publishes the head |
| `Engine.CommandEngine.Consume` | vnvme-server/command_engine.c:415-460 | only admin submission notifications lead to work |
| `Engine.CommandEngine.Poll` | vnvme-server/command_engine.c:393-487 | serves the notifications outstanding at the snapshot, in order, publishes the ring's head, and leaves in the k-th slot from the old tail the answer to the k-th command from the old head, if no more than a lap follows |
| `Engine.DrainAnswers` | vnvme-server/command_engine.c:422-443 | after a drain the k-th command's completion stands in the k-th slot from the old tail with the CID, DW0, type and code of its own answer, the head published before the drain, and the phase due there |
| `Engine.PollAnswers` | vnvme-server/command_engine.c:393-487 | the same for a whole poll, across the drains of all its notifications |
| `Engine.DrainIsRun` | vnvme-server/command_engine.c:422-443 | the drain method is a run of the protocol's single steps with the same result |
| `Lifecycle.RunKeepsSound` | vnvme/admin_cmd.c:320-491 | over any run of the four commands and polls each created SQ names a created CQ and lies within IoQueueCount, and sizes are 2 to 65535 |
| `Lifecycle.DeleteUndoesCreate` | vnvme/admin_cmd.c:427-491 | deleting what a creation made restores the table, but for the count and a stale consumer index |
| `Lifecycle.TableIsHistory` | vnvme/admin_cmd.c:320-491 | after any run the tables hold exactly the queues the commands created and have not deleted, each with the base and the size it was created with and each SQ bound to its CQ |
| `Lifecycle.DeletableByHistory` | vnvme/admin_cmd.c:427-462 | after any run a CQ can be deleted exactly when the run created it, has not deleted it, and has deleted every SQ created with it; otherwise code 0x01 or 0x0C |
| `Lifecycle.CreatableByHistory` | vnvme/admin_cmd.c:369-421 | after any run what an SQ creation answers is decided by the command's raw words and the history alone: id, size field, CQ created and not deleted, SQ not yet created |
| `Lifecycle.CreatedEmpty` | vnvme/admin_cmd.c:320-421 | a queue just created is empty at slot 0, a CQ has phase 1, and the count covers an SQ's id |
| `Lifecycle.LargestSizeRefused` | vnvme/admin_cmd.c:326-343 | the size check refuses exactly the fields 0 and 0xFFFF, the latter by 16-bit wrap |
| `Lifecycle.MovedUpTo` | vnvme/doorbell.c:349-375 | the loop forwards exactly the created queues up to the bound whose doorbell moved, once each, by id |
| `Lifecycle.PollReachesEveryQueue` | vnvme/doorbell.c:349-356 | in every reachable table no live queue lies beyond the loop |
| `Lifecycle.PollFollowsDoorbells` | vnvme/doorbell.c:349-380 | after a poll of any reachable table the tail and head of queue i are the low words of doorbells 2i and 2i + 1, and nothing else has changed |
| `Lifecycle.AdminQueues.HandleCreateIoCq` | vnvme/admin_cmd.c:320-363 | new table and status are those of the command's specification |
| `Lifecycle.AdminQueues.HandleCreateIoSq` | vnvme/admin_cmd.c:369-421 | the same, with the CQ check and the count raised to the id |
| `Lifecycle.AdminQueues.HandleDeleteIoCq` | vnvme/admin_cmd.c:427-462 | the same, refused while in use |
| `Lifecycle.AdminQueues.HandleDeleteIoSq` | vnvme/admin_cmd.c:468-491 | the same; the count is not lowered |
| `Lifecycle.AdminQueues.PollQueue` | vnvme/doorbell.c:352-380 | one created queue follows its two doorbells; tells whether its tail moved |
| `Lifecycle.AdminQueues.PollIoDoorbells` | vnvme/doorbell.c:345-386 | one doorbell event of those runs: all queues up to the count follow their doorbells, those beyond stay, and the moved ones are forwarded |
| `AsyncEvents.EventWordReads` | vnvme/admin_cmd.c:971-974 | the host reads type, info and log page back from the event word |
| `AsyncEvents.RunIsFifo` | vnvme/admin_cmd.c:635-660 | at most four pending, the most recent in order; accepted = completed + pending as sequences if and only if no post was refused |
| `AsyncEvents.NothingLostWhenReady` | vnvme/admin_cmd.c:946-980 | nothing is lost when every post succeeds |
| `AsyncEvents.AerStore.HandleAsyncEventRequest` | vnvme/admin_cmd.c:635-660 | parks the CID at the end, or refuses exactly when four are pending |
| `AsyncEvents.AerStore.CompleteAer` | vnvme/admin_cmd.c:946-980 | takes the oldest CID off, shifts the others, and reports the event under it |
| `Polling.AlwaysWithin` | vnvme/doorbell.c:124-157 | under any load the interval stays between its minimum and maximum |
| `Polling.BusyHalves` | vnvme/doorbell.c:142-147 | n busy polls halve it n times, down to the minimum |
| `Polling.BusyReachesMinimum` | vnvme/doorbell.c:142-147 | an unbroken busy run is at the minimum after 14 polls |
| `Polling.IdleReachesMaximum` | vnvme/doorbell.c:148-154 | an idle run of 45 polls ends at the maximum if and only if it began at 4 microseconds or more |
| `Polling.IdleAlwaysReaches` | vnvme/doorbell.c:128-154 | configured at 40 or more every idle run of 45 polls reaches the maximum after any load; configured below 40 some run does not |
| `Polling.Poller.AdjustPollingInterval` | vnvme/doorbell.c:124-157 | one adjustment, within the bounds |
| `Controllers.CountIsExact` | vnvme/bus.c:251-300 | in every interleaving ChildDeviceCount is listed plus in-flight controllers, at most MaxControllers |
| `Controllers.NoDuplicateIds` | vnvme/ctrl_dev.c:780 | with ids from the counter, before it wraps, the list has no duplicates |
| `Controllers.ReserveKeepsExactly` | vnvme/bus.c:254-281 | an accepted reservation keeps ids single if and only if no create in flight holds the id |
| `Controllers.CheckSufficesExactly` | vnvme/bus.c:236-356 | over any run with ids from anywhere, no id is ever held twice if and only if no accepted reservation names the id of a create in flight |
| `Controllers.WrappedCounterListsTwice` | vnvme/ctrl_dev.c:780 | a create in flight while the 32-bit counter goes round once has its id reserved again, and both are listed |
| `Controllers.Bus.ReserveController` | vnvme/bus.c:251-280 | collision, quota, or a reserved place |
| `Controllers.Bus.InsertController` | vnvme/bus.c:297-300 | the built controller is appended |
| `Controllers.Bus.RollBackController` | vnvme/bus.c:284-288 | a failed build gives its place back |
| `Controllers.Bus.DeleteController` | vnvme/bus.c:317-356 | the first controller with the id is removed, or Not Found |
| `Namespaces.CapacityCheckExact` | vnvme/ctrl_dev.c:1422-1437 | wrapped product, divide-back test and cap accept exactly the true products up to 16 TB, and report overflow exactly beyond 64 bits |
| `Namespaces.RunKeepsSound` | vnvme/ctrl_dev.c:1358-1584 | over any run NamespaceCount is the number of active slots, and active slot i holds NSID i + 1 with exact TotalBytes |
| `Namespaces.TableIsHistory` | vnvme/ctrl_dev.c:1358-1584 | after any run a namespace is active with these sizes and flags if and only if the run created it with them and has not deleted it since |
| `Namespaces.CreateAnswers` | vnvme/ctrl_dev.c:1405-1451 | what a create answers in a sound table, by the true product of blocks and block size: 0, 512 or 4096, overflow beyond 64 bits, the 16 TB cap, room, storage |
| `Namespaces.CreateRefusedExactlyWhenFull` | vnvme/ctrl_dev.c:1439-1456 | a legal create is refused exactly when all sixteen are active |
| `Namespaces.ListingSorted` | vnvme/ctrl_dev.c:1590-1666 | a listing has one entry per active namespace, by ascending NSID |
| `Namespaces.ListingComplete` | vnvme/ctrl_dev.c:1590-1666 | every active namespace is listed |
| `Namespaces.NamespaceTable.CreateNamespace` | vnvme/ctrl_dev.c:1358-1521 | the status in raw terms; success takes the lowest free NSID, whose slot alone changes, with the size asked for, and raises the count |
| `Namespaces.NamespaceTable.DeleteNamespace` | vnvme/ctrl_dev.c:1527-1584 | after success slot NSID - 1 is inactive, all others are as before and the count is one less; a refusal, for a bad or an inactive NSID, changes nothing |
| `Namespaces.NamespaceTable.ListNamespaces` | vnvme/ctrl_dev.c:1590-1666 | returns NamespaceCount entries, each with an active slot's NSID, flags and sizes, in order |
| `ShmLayout.SlabsApart` | vnvme/queue.c:124-130 | for any counts and depths, queues within the depth lie in slabs that do not overlap |
| `ShmLayout.SlabsInside` | vnvme/queue.c:206-212 | they lie behind the descriptor array and before the end of the last pair |
| `ShmLayout.ClearingExact` | vnvme/queue.c:137-149 | creation does not compare size and depth: clearing a new queue leaves all others alone exactly when its size is at most the depth or no slab lies behind it |
| `ShmLayout.ClearSlab` | vnvme/queue.c:149 | clears exactly the new queue's bytes |
| `ShmLayout.CreationSparesOthers` | vnvme/queue.c:233 | within the depth every byte of every other queue survives |
| `ShmLayout.HeaderMapApart` | include/vnvme_common.h:393-426 | in the header's map queues of full depth stay clear of the descriptors, of each other and of the data buffer |
| `ShmLayout.SlabsBelowData` | include/vnvme_common.h:426 | the driver's slabs stay below the header's data buffer |
| `ShmLayout.OffsetsAgreeExactly` | include/vnvme_common.h:417-423 | the driver's offsets are the header's exactly when the sizes are already whole pages |
| `ShmLayout.SidesAgreeExactly` | vnvme-server/admin_commands.c:415-476 | the driver's slabs and the bases the server takes from the header are the same bytes for every queue pair if and only if all sizes are whole pages |
| `ShmLayout.SidesShifted` | vnvme-server/admin_commands.c:415-476 | as built they are not: the server's entry k is 48 submission or 192 completion entries behind the driver's, and the driver's SQ slab i begins inside the header's CQ slab i - 1 |
| `ShmLayout.ActualMap` | include/vnvme_common.h:364-426 | with the built-in sizes the regions begin where the header's drawing says and end within 64 MB; the driver's slabs start 3 KB before the header's |
| `ShmLayout.LastSlabExact` | vnvme/queue.c:206-233 | for any map the last completion queue stays below the data buffer exactly as long as its excess over the depth fits in what rounding to pages left over |
| `ShmLayout.LastSlabAsBuilt` | vnvme/queue.c:206-233 | as built, exactly up to 448 entries |
| `Prp.ValidExactly` | vnvme/prp.c:31-64 | the address check accepts exactly 1 MB to 16 TB; its overflow test never decides |
| `Prp.ListedPagesExact` | vnvme/prp.c:103-113 | the 32-bit page count rounds up exactly, or wraps to a single page |
| `Prp.ParseSucceedsExactly` | vnvme/prp.c:74-236 | whatever follows the mapped page, a transfer is accepted exactly when every address it uses is valid, list entries included |
| `Prp.ParseDelivers` | vnvme/prp.c:193-225 | the lengths add up to DataLength if and only if the list entries' own offsets fit in the slack of the last page |
| `Prp.UnalignedListFallsShort` | vnvme/prp.c:208-219 | one list entry pointing inside its page costs a transfer of three whole pages its last byte |
| `Prp.ParseShape` | vnvme/prp.c:103-233 | ceil((offset + DataLength) / 4096) segments, each within its page, only the last may end early; PRP2 is a data page for two pages and the list otherwise |
| `Prp.AlignedListServesAll` | vnvme/prp.c:193-225 | with page-aligned entries the whole length is served and only the first segment has an offset |
| `Prp.ParseInHost` | vnvme/prp.c:200-216 | every byte of an accepted transfer lies in host memory |
| `Prp.OnePageIsEnough` | vnvme/prp.c:176-193 | a list of at most one page is read from its mapping alone |
| `Prp.OnePageListExact` | vnvme/prp.c:176-225 | all entries read lie in the mapped page, and the outcome is determined, exactly when at most 512 pages follow the first |
| `Prp.ParsePrpList` | vnvme/prp.c:74-236 | the entry array and count are the specified segment list, or failure |
| `Prp.ReadList` | vnvme/prp.c:173-225 | the loop over the list at PRP2 |
| `PageMeaning.PagesAccepted` | vnvme/prp.c:74-236 | addresses between 1 MB and 16 TB that the host put into PRP1, PRP2 and a list of up to 512 little-endian entries are accepted, one segment each, for the whole length |
| `PageMeaning.TransferMeans` | vnvme/prp.c:160-225 | byte r of the k-th page of the transfer is the byte of host memory at the k-th address the host gave, plus r |
| `PageMeaning.GatherAt` | vnvme/io_cmd.c:330-345 | byte o of segment i is gathered behind the bytes of the segments before it |
| `Transfer.ScatterSparesTheRest` | vnvme/io_cmd.c:182-197 | bytes of host memory outside the page list do not change |
| `Transfer.GatherScatter` | vnvme/io_cmd.c:182-197 | what was scattered over pages that do not overlap is gathered again |
| `Transfer.GatherInto` | vnvme/io_cmd.c:330-345 | the copy loop appends the segments' bytes in order |
| `Transfer.ScatterFrom` | vnvme/io_cmd.c:182-197 | the copy loop fills the segments in order |
| `StorageMedia.ChunksCoverExactly` | vnvme/storage.c:215-221 | zeroing in 64 KB chunks does the whole stretch exactly when it fits, else stops less than a chunk before the end |
| `StorageMedia.Storage.Create` | vnvme/storage_memory.c:19-51 | memory storage is refused exactly above 256 MB; a new store is zeros |
| `StorageMedia.Storage.Read` | vnvme/storage_memory.c:72-95 | copies the bytes in range, or refuses and copies nothing |
| `StorageMedia.Storage.Write` | vnvme/storage_memory.c:101-126 | writes the bytes, or refuses read-only or out of range and writes nothing |
| `StorageMedia.Storage.MemoryWriteZeroes` | vnvme/storage_memory.c:132-156 | zeroes exactly the range, or nothing |
| `StorageMedia.Storage.FileWriteZeroes` | vnvme/storage.c:189-225 | terminates; zeroes the chunks before the first that does not fit |
| `StorageMedia.Storage.WriteZeroes` | vnvme/storage.c:181-234 | one exact zeroing of a range in bounds on either back-end |
| `StorageMedia.Storage.GetDirect` | vnvme/storage_memory.c:165-183 | granted for memory ranges in bounds, whether or not the store is read-only |
| `BlockCommands.InRangeFits` | vnvme/io_cmd.c:113-123 | a command that passes the range check addresses bytes the storage has |
| `BlockCommands.TrimBounds` | vnvme/io_cmd.c:588-604 | what is zeroed of an in-bounds range lies in the namespace |
| `BlockCommands.TrimStep` | vnvme/io_cmd.c:582-613 | the zeroings of a list are those of its first range, then of the rest |
| `BlockLaws.RangeMacroExact` | vnvme/vnvme_utils.h:119-120 | the 64-bit range check, with a 16-bit or a 32-bit count, is right exactly when the sum does not wrap, or wraps to something still too large |
| `BlockLaws.BothChecksExact` | vnvme/storage_memory.c:132-156 | with the storage's own check behind it, memory storage lets a stretch through exactly when its range is in bounds, or when its sum wraps into bounds and its bytes reach from before the buffer into it |
| `BlockLaws.CommandStraysExactly` | vnvme/io_cmd.c:113-131 | a command on which the range check does not hold is always let through and strays |
| `BlockLaws.StrayReaches` | vnvme/storage_memory.c:150 | exactly which bytes before and inside the buffer a stray stretch reaches |
| `BlockLaws.WrappedRangeZeroesTheStart` | vnvme/io_cmd.c:594-604 | one range of 9 blocks of 512 bytes at block 2^64 - 1 is let through and reaches exactly 512 bytes before the buffer and the first 4096 of the namespace |
| `BlockLaws.DeliversExactly` | vnvme/prp.c:103-225 | for block sizes 512 and 4096 only the list entries' offsets decide whether a transfer is served whole |
| `BlockLaws.BufferedIsDetermined` | vnvme/io_cmd.c:133-137 | transfers up to 2 MB, so all buffered ones and all compares, never depend on what follows the mapped page |
| `BlockLaws.ReadDelivers` | vnvme/io_cmd.c:72-217 | a successful read leaves the stored bytes in its pages and changes no other byte of host memory |
| `BlockLaws.ReadAfterWrite` | vnvme/io_cmd.c:232-376 | blocks written through one page list are read back through any other, whatever host memory holds by then |
| `BlockLaws.WriteSparesOtherBlocks` | vnvme/io_cmd.c:314-358 | a write changes no byte outside its blocks, a failed one none at all |
| `BlockLaws.ShortWrite` | vnvme/io_cmd.c:330-358 | blocks a short page list does not serve keep their bytes on memory storage and are zeroed on a file |
| `BlockLaws.FailedCommandsVanish` | vnvme/io_cmd.c:314-328 | a command that fails, for a refused page list or any other reason, can be left out of a run without changing the final storage |
| `BlockLaws.ReadOnlyNamespaceIsWritable` | vnvme/ctrl_dev.c:1466 | the namespace's read-only flag changes neither status nor effect of any command |
| `BlockLaws.CompareExact` | vnvme/io_cmd.c:721-777 | Compare succeeds exactly when the host's bytes are the stored ones |
| `BlockLaws.CompareAfterWrite` | vnvme/io_cmd.c:721-777 | after a write it succeeds exactly for the bytes written |
| `BlockLaws.LargestCountMovesNothing` | vnvme/io_cmd.c:95 | the count 0xFFFF wraps to no blocks at all, and the command still succeeds; every other count moves count + 1 blocks |
| `BlockLaws.TrimZeroesTheUnion` | vnvme/io_cmd.c:582-613 | where the range check holds, on memory storage that is the union of the blocks listed, since no range there reaches 4 GB |
| `BlockLaws.TrimZeroesExactly` | vnvme/io_cmd.c:582-613 | where the range check holds, a deallocation on any writable storage zeroes exactly the stretches its in-bounds ranges are cut to in 32 bits, whatever their order and overlap |
| `BlockLaws.RangeZeroedWholeExactly` | vnvme/io_cmd.c:599-604 | an in-bounds range is zeroed whole, for all stored contents, exactly when it is shorter than 4 GB |
| `BlockLaws.FourGigabytesStay` | vnvme/io_cmd.c:599-604 | 8388608 blocks of 512 bytes deallocated in one range keep every byte |
| `BlockLaws.ExecuteIsEffects` | vnvme/io_cmd.c:792-836 | where the range checks hold, what one command does to the storage is a list of writes to a flat byte array |
| `BlockLaws.EffectsIgnoreBytes` | vnvme/io_cmd.c:792-836 | what commands do never depends on the bytes stored before |
| `BlockLaws.RunIsReplay` | vnvme/io_cmd.c:792-836 | a run of such commands is the replay of its writes |
| `BlockLaws.ReadSeesLatest` | vnvme/io_cmd.c:72-217 | after any run of such commands a read through any page list returns, byte for byte, what was put there last |
| `BlockMeaning.ReadAnswers` | vnvme/io_cmd.c:113-175 | what Read answers for a command whose words name blocks b to b + n - 1, in order of precedence |
| `BlockMeaning.WriteAnswers` | vnvme/io_cmd.c:270-360 | likewise Write; a media error comes from a read-only file only |
| `BlockMeaning.ZeroesAnswers` | vnvme/io_cmd.c:453-509 | likewise Write Zeroes |
| `BlockMeaning.CompareAnswers` | vnvme/io_cmd.c:673-777 | what Compare answers: it gets as far as comparing exactly when the blocks are in range, at most 2 MB, and the page list is accepted |
| `BlockMeaning.OpcodesMean` | vnvme/io_cmd.c:792-836 | which opcode is which command |
| `BlockMeaning.WriteMeans` | vnvme/io_cmd.c:252-358 | a successful write whose CDW11:CDW10 names b puts its i-th block of payload into block b + i and leaves every other block alone |
| `BlockMeaning.ReadMeans` | vnvme/io_cmd.c:94-197 | a successful read naming b leaves block b + i as the i-th block of its pages |
| `BlockMeaning.CompareMeans` | vnvme/io_cmd.c:661-777 | a compare naming b succeeds if and only if every i-th block of its pages is block b + i |
| `BlockMeaning.ZeroesMean` | vnvme/io_cmd.c:453-502 | a successful zeroing naming b clears blocks b to b + n - 1 and leaves every other block alone |
| `BlockMeaning.DecodesList` | include/nvme_spec.h:586-590 | a list of (attributes, count, start) laid out at PRP1 is read back range by range, whatever the attributes; its length and the deallocate bit are read from CDW10 and CDW11 |
| `BlockMeaning.TrimMeans` | vnvme/io_cmd.c:537-613 | on memory storage deallocating a list so laid out clears exactly the blocks of its in-bounds ranges and leaves every other block alone |
| `BlockMeaning.TrimMeansNothing` | vnvme/io_cmd.c:537-559 | with bit 2 of CDW11 clear nothing is deallocated |
| `Bytes.ReplayIsLatest` | vnvme/storage_memory.c:101-126 | after any history of writes every byte is the one written last |
| `IoPath.Device.ReadBlocks` | vnvme/io_cmd.c:72-217 | status, host memory and counters of Read, direct or buffered |
| `IoPath.Device.WriteBlocks` | vnvme/io_cmd.c:232-376 | status, storage and counters of Write, direct or buffered |
| `IoPath.Device.CompareBlocks` | vnvme/io_cmd.c:639-777 | status of Compare; storage and host memory unchanged |
| `IoPath.Device.ZeroBlocks` | vnvme/io_cmd.c:439-509 | status and storage of Write Zeroes |
| `IoPath.Device.ZeroInChunks` | vnvme/io_cmd.c:482-502 | the 1 MB chunks terminate and make one exact zeroing |
| `IoPath.Device.TrimBlocks` | vnvme/io_cmd.c:521-621 | storage after Dataset Management; the status is always success |
| `IoPath.Device.TrimOne` | vnvme/io_cmd.c:583-613 | one range: skipped when empty or out of bounds, zeroed otherwise |
| `IoPath.Device.Process` | vnvme/io_cmd.c:792-836 | one command by opcode and namespace: status, storage and host memory are those of its specification, invalid ones change nothing |
| `IoPath.Device.PostIoCompletion` | vnvme/io_cmd.c:25-55 | posts exactly the completion with the command's CID, the queue's id and SQ head, the handler's status and the queue's phase |
| `ServerBlock.RangeCheckExact` | vnvme-server/io_commands.c:238-264 | the check accepts exactly the ranges in the namespace, for all operands: its guard makes the 64-bit sum safe |
| `ServerBlock.AcceptedFits` | vnvme-server/command_engine.c:207-219 | an accepted range of the namespace sized from the back-end lies inside the back-end |
| `ServerBlock.RunIsReplay` | vnvme-server/io_commands.c:341-525 | a run of commands is the replay of its writes on a zeroed store |
| `ServerBlock.ReadSeesLatest` | vnvme-server/io_commands.c:273-332 | a read after any history returns for each byte the last one written, else zero |
| `ServerMeaning.AcceptedExactly` | vnvme-server/io_commands.c:238-315 | a command is let through exactly when it is for NSID 1 and its blocks lie in the back-end |
| `ServerMeaning.CommandMeans` | vnvme-server/io_commands.c:362-515 | one command on any store, block by block: a write's blocks, a zeroing's zeros, every other block as it was |
| `ServerMeaning.BlockIsLatest` | vnvme-server/io_commands.c:341-525 | after any run each 512-byte block holds the payload of the last write that reached it, or zeros |
| `ServerMeaning.ServerReadMeans` | vnvme-server/io_commands.c:296-325 | a read leaves block b + i as the i-th block of the data buffer and changes nothing behind them |
| `ServerBlock.MemoryBackend.Create` | vnvme-server/backend_memory.c:135-186 | size 0 is refused, above 4 GB cut; the store is zeros |
| `ServerBlock.MemoryBackend.Read` | vnvme-server/backend_memory.c:30-50 | copies in range, or fails and copies nothing |
| `ServerBlock.MemoryBackend.Write` | vnvme-server/backend_memory.c:52-77 | writes in range on a writable store, or fails and writes nothing |
| `ServerBlock.MemoryBackend.WriteZeroes` | vnvme-server/backend_memory.c:86-111 | the same for zeros |
| `ServerBlock.BlockServer.constructor` | vnvme-server/command_engine.c:189-225 | one writable namespace of as many whole 512-byte blocks as the back-end has |
| `ServerBlock.BlockServer.Read` | vnvme-server/io_commands.c:273-332 | the exact status, which is never a media error; the data buffer receives the stored bytes if they fit it |
| `ServerBlock.BlockServer.Write` | vnvme-server/io_commands.c:341-409 | the exact status; the store receives the data buffer's bytes if they fit it; a media error only from a read-only back-end |
| `ServerBlock.BlockServer.WriteZeroes` | vnvme-server/io_commands.c:457-525 | the exact status; zeroes exactly the range |

## Left out

- Device framework, power, IOCTL buffers, memory-descriptor lists, registry, events and threads: foreign
  calls. Physical memory maps successfully wherever it exists; the one map whose failure has a branch of
  its own, Dataset Management's, fails exactly outside host memory. Pool allocations succeed, also of zero
  bytes.
- Weak memory: the model is sequentially consistent, with the barriers where the code has them.
- Host memory is one array from 0 to a page past 16 TB. Page lists are not chained, as in the code. Reading
  past the mapped page of a list yields arbitrary entries here; on a real machine it may also fault.
- The file back-end's single reads and writes are byte-array operations; the sparse back-end, flushing,
  and the counters ReadCount and WriteCount are not modelled.
- Server I/O queues: their completion path has no descriptor and a fixed tail. The server model is its
  admin ring and its block commands, whose phase bit and debug output are left out.
- Kernel-mode processing loops (`VnvmeProcessIoCommands`, `VnvmeProcessAdminCommands`): fetch, handler and
  post are modelled, the loop around them is not; in kernel mode nothing advances the descriptor tail
  that the fetch compares with. Resumption in kernel mode after a crash is not modelled either: the
  protocol's runs end at the mode switch.
- Controller configuration and status (CC, CSTS), the heartbeat's timing, and the admin doorbell pair in
  the poll: the protocol's doorbell step covers the admin tail; a crash may come at any point outside the
  timer callback.
- Identify, features, log pages and abort answers: field-by-field copies, an arbitrary handler function in
  `Engine`.
- SQHD is carried but no flow control is derived from it: the host keeps fewer than Capacity commands
  submitted and unreleased, and fewer than Capacity submitted and untaken.
- `AdminSQ.Valid` and `AdminCQ.Valid` are never set by the code; the guards that read them are modelled
  and their acceptance is a precondition where needed. Admin SQ and CQ have the same capacity.
- AdminProtocol.CrashCompletesEachOnce: the crash comes while the timer callback is at rest, as the abort runs in that callback.
- Lifecycle.DeleteUndoesCreate: the count never shrinks, and a stale consumer index may differ.
- Queues.Controller.PostCompletionBatch: the batch guards test neither Created nor Valid, so the caller must name a queue that has entries.
- Queues.Controller.FetchCommandBatch: likewise, unless head and tail are equal.
- BlockMeaning.WriteMeans: the largest count is LargestCountMovesNothing's and a page list that falls short ShortWrite's; the same for ReadMeans and CompareMeans.
- Engine.CommandEngine.DrainAdmin: the index is below the capacity, where LoopEndsExactly says the loop ends; the same for Consume, Poll and UserForward.Driver.AbortQueue.
- IoPath.Device.Process: the range checks, also those of deallocated ranges, meet only operands on which they tell the truth (RangeMacroExact); elsewhere the code reads or writes outside its buffers. Per-namespace statistics are left out.
- StorageMedia.Storage.Read: the same for the storage's own bounds check, here and in Write, MemoryWriteZeroes, FileWriteZeroes, WriteZeroes and GetDirect; ServerBlock.MemoryBackend likewise.
- Fetch and post on a queue created with size 0 divide by zero in the code; the model has no step for them.
- UserForward.Driver.AbortIoQueue: a live submission queue with pending commands has a completion queue of the same id with entries; otherwise the code divides by zero. The same for AbortIoQueues and AbortPendingUserCommands.
- One controller only: several would share one descriptor array and one ring.
- Namespaces: the storage a create asks for either succeeds or fails; its kind is not chosen here.
