# A verified model of imaged

imaged is a network imaging system: a server keeps hosts, images and tasks, an agent on each host
captures and restores partitions, and a proxy and an archive format carry data between them. This
project models its protocols, its state and its formats in Dafny and proves what they promise.

Verify it with `dafny verify dfyconfig.toml`.

## The parts

- `HostQueue`, `TaskProtocol`, `HostStream`: how a host's agent is kept at work. Request handlers write
  rows and wake the host's stream, the stream names the current task over a socket, and the agent
  starts, keeps or cancels it and asks again. `TaskProtocol` is the transition system of rows, stream,
  both links and agent; `HostStream` holds the loops and the agent's state themselves.
- `RegistryModel`, `HostRegistry`: the registry of connections with its stamps, one-slot wake-up
  channels and the 32-slot broadcast that observers follow; the first as a value with its runs, the
  second as the mutable registry with a real ring.
- `TaskStore`, `HandlerLaws`, `ImageLifecycle`, `TaskServer`: tasks and images under all handlers,
  imports and restarts, each handler one step; what each accepts and changes, said of the rows and images;
  what holds over all runs; and the handlers as sequences of repository calls.
- `MulticastWorker`: claiming, sending and settling with repository calls that fail and are retried,
  while other handlers act between any two calls.
- `ChunkedRelay`, `RequestHead`: the proxy's chunked-body relay and its rewriting of request heads.
- `OutputBounder`, `SparseExtract`: the bounded upload of script output, and the sparse copy out of a
  disk image.
- `Gpt`: the backup of a partition table, its partitions, and the check before it is restored.
- `Archive`, `ArchiveTransfer`: the archive's manifest, receiving, unpacking and writing.
- `Inputs`, `Targets`: script inputs, and the partitions a deployment replaces.
- `PostInstall`, `Fstab`: grouping and running post-install scripts in mounted systems, planning the
  mounts from fstab, and finding them in mountinfo.
- `Options`, `Text`, `Bytes`, `Paths`: what the others share.

## Where a promise does not hold

Five properties that the design suggests are false of the code. Each has a lemma with an input or a run
that shows it and, beside it, the exact condition under which the code does keep it.

- A host can be left idle with work to do. Six kinds of writes wake nobody, and each is made some time
  after the check it rests on: failing a host as busy (`LateClaimLeavesHostIdle`), settling a row by a
  report (`EarlyReportLeavesHostIdle`, and `QuickReportLeavesHostIdle` for a row whose session has not
  looked whom to wake), failing a host as gone, cancelling a row that was not active or failing one by
  the look of a stream lost meanwhile (all three in `LateWriteLeavesHostIdle`), and starting a row
  (`LateStartLeavesHostIdle`). And a handler may fail after its write and before its wake-up, as the
  creation of a task does when it cannot read the task back (`FailedCreationLeavesHostIdle`); a capture's
  cancel that fails in between is harmless, by the guard on `CancelUnseen`.
  `StepKeepsInv` says that no other step of the model can do this and exactly when these do.
  `CarefulNeverOrphans` gives guards; the one on reports is not what the code checks, since it only
  checks that the settled row is the host's next one, and accepts one that waits for its session.
- A ready image can be faulted by a cancel that read the task before its capture finished
  (`LateCancelFaultsAReadyImage`, `LateCancelKeepsReadyImages`).
- A ready image can gain a partition from an upload that was under way when its capture was reported
  finished (`LateUploadChangesAReadyImage`, `LateUploadKeepsReadyImages`).
- Stored inputs need not fit the script they were resolved for, because the last declaration's default
  is stored (`LastDefaultWins`, `StoredInputsKeepFitting`).
- An archive can be written that cannot be read: nothing limits the manifest's, the table's or a
  script's size on writing (`WrittenIsReceived`).

The comments of the task repository's trait speak of marking one host's row as running, done or failed;
the statements behind it act only on rows that are pending or running, and the model follows them.
The saturating size check before a restore is exact for every size a disk can report, since a seek ends
at 2^63 - 1; `SizeCheckMeans` states it for all 64-bit sizes, and only 2^64 - 1 is an exception.
Extracting an empty partition succeeds even where its offset lies behind the end of the disk;
`CopySparse` says so.

## Model

| member | source | states |
|---|---|---|
| `TaskProtocol.StepKeepsInv` | crates/api/agent/src/event.rs:58-148 | of all steps of handlers, stream, links and agent, with every write made at any time, a step breaks the invariant if and only if it is one of the six writes that wake nobody and it takes away the row, or claim, an unserved host waits behind while there is a task behind it, or starts a row of such a host; or it is the loss of the last wake-up owed to such a host that has a task to be handed |
| `TaskProtocol.CarefulNeverOrphans` | crates/core/src/multicast.rs:122-148 | guards at the time of the write that make these steps harmless: for claims, settling and starts what the code checked before still stands, a cancel that wakes nobody settles no multicast, a handler reaches its wake-up; for reports more than the code checks, which accepts a report on a multicast row that waits for its session or is claimed by one |
| `TaskProtocol.OnlyStopsStop` | crates/agent/src/task.rs:24-37 | the running task is told to stop by a step if and only if its user cancels it or the agent reads a message that does not name it; it leaves the slot only when its body ends or the agent restarts |
| `TaskProtocol.OnlyMessagesStart` | crates/agent/src/task.rs:24-44 | a task starts if and only if an idle agent reads a message that names it, and nothing revives one that was told to stop |
| `TaskProtocol.CancelledWasToldToStop` | crates/agent/src/task.rs:24-37 | over every run a task is cancelled in the end only if it was at the start or was told to stop on the way |
| `TaskProtocol.NoLostWakeUp` | crates/agent/src/task.rs:24-51 | over every such run an agent has at most one task running, a connected host with nothing outstanding and a current task has an agent at work, and what the agent works on is the last task the stream found, or one that was told to stop in the run: by its user, or by a message that did not name it |
| `TaskProtocol.InternalStepsShrink` | crates/agent/src/server.rs:352-390 | each step that carries out what is outstanding lowers a measure and keeps the connection and the invariant |
| `TaskProtocol.InternalRunsEnd` | crates/api/agent/src/event.rs:95-148 | carrying out what is outstanding ends after a bounded number of steps, however they interleave |
| `TaskProtocol.StuckIsQuiet` | crates/api/agent/src/event.rs:95-148 | a connected host is quiet if and only if no outstanding step is enabled |
| `TaskProtocol.WorkIsDelivered` | crates/api/agent/src/event.rs:137-147 | left alone, a connected host with a current task ends up with its agent working, in bounded time and whatever the interleaving; on the current task if the stream had still to look or was up to date, or on one that was told to stop before or by a message that did not name it |
| `TaskProtocol.OrphansAreLeftIdle` | crates/api/agent/src/event.rs:95-148 | after each write that breaks the invariant while the agent is idle, every way of carrying out what is outstanding leaves the host idle, if it has a task |
| `TaskProtocol.LateClaimLeavesHostIdle` | crates/core/src/multicast.rs:123-128 | a run in which a claim whose check was right fails a host as busy after the other task has ended, and the host is left idle with work to do |
| `TaskProtocol.EarlyReportLeavesHostIdle` | crates/api/agent/src/task.rs:136-146 | a run in which a report settles a multicast row that waits again, between the stream’s look and the agent’s connection, and the host is left idle |
| `TaskProtocol.QuickReportLeavesHostIdle` | crates/core/src/multicast/session.rs:49-52 | a run in which a report settles a claimed row before the session reads whom to wake, so that nobody is woken, and the host is left idle |
| `TaskProtocol.LateWriteLeavesHostIdle` | crates/api/ui/src/tasks.rs:73-92 | a run in which a cancel, or the settling of a session, or the look of a lost stream, that saw the row failed, its host absent, or the row as it ran, settles the row after it was requeued, and the host is left idle |
| `TaskProtocol.LateStartLeavesHostIdle` | crates/api/agent/src/task.rs:25-70 | a run in which a start is written after an older multicast was requeued ahead of the task and the agent has reconnected, and the host is left idle |
| `TaskProtocol.FailedCreationLeavesHostIdle` | crates/core/src/repository/task.rs:115-117 | a run in which a task is created and its handler fails on reading the task back, before it wakes the host, and the host is left idle |
| `HostQueue.LookupIsStable` | crates/api/agent/src/event.rs:58-73 | looking up the current task again finds the same task and fails nothing more |
| `HostQueue.CurrentIsActive` | crates/api/agent/src/event.rs:59-66 | the current task is an active, dispatchable row of the host that it can run |
| `HostQueue.MarkFailedRemoves` | crates/core/src/repository/task.rs:201-220 | failing an active row leaves strictly fewer active rows, so the lookup ends |
| `HostQueue.AppendingMulticastKeepsBlocked` | crates/core/src/domain/task.rs:175-177 | a new multicast that waits for its session unblocks nobody, so it needs no wake-up |
| `HostQueue.ReopeningMulticastKeepsBlocked` | crates/api/ui/src/tasks.rs:136-139 | reopening multicast rows unblocks nobody, so the retry of one needs no wake-up |
| `HostQueue.SettlingShowsWhatIsBehind` | crates/core/src/repository/task.rs:201-220 | settling a task leaves the host blocked if and only if no task waits behind it |
| `HostQueue.OnlyTheNextHides` | crates/core/src/multicast.rs:124-128 | on a blocked host nothing waits behind a row other than the next one |
| `HostStream.TaskTable.CurrentTask` | crates/api/agent/src/event.rs:58-73 | the loop returns the looked-up task and fails exactly the rows ahead of it that the host cannot run |
| `HostStream.Serve` | crates/api/agent/src/event.rs:85-149 | what the serving loop sends for every sequence of frames, wake-ups and pings up to the one that ends it |
| `HostStream.ServedMeans` | crates/api/agent/src/event.rs:95-135 | the loop gets exactly to the first input after which it does not go on: a closed or silent socket, a displaced connection, or a look that failed |
| `HostStream.SentMeans` | crates/api/agent/src/event.rs:137-147 | the messages after the first are, in order and each once, the answers to all questions and to exactly the wake-ups that found another task than the last look |
| `HostStream.WireEndsWithLastFound` | crates/api/agent/src/event.rs:144-147 | the last message on the wire always names the last task found |
| `HostStream.RepeatsAnswerQuestions` | crates/api/agent/src/event.rs:144-146 | the same task is named twice in a row at most as often as the agent asks, and every question is answered |
| `HostStream.AnswerIsServing` | crates/api/agent/src/event.rs:137-147 | the protocol’s stream answers a wake-up or a question as the serving loop does |
| `HostStream.ClientState.Handle` | crates/agent/src/task.rs:24-37 | a message that names the running task changes nothing, any other one only cancels it; an idle agent stays as it is without a task and starts the one named; this is the protocol’s receive step, whatever the rest of the state |
| `HostStream.ClientState.StartTask` | crates/agent/src/task.rs:40-58 | an idle agent that starts a task takes the protocol’s receive step for a message naming it; slot and bodies stay in step if and only if no body was running |
| `HostStream.ClientState.ClearSlot` | crates/agent/src/task.rs:46-51 | the end of the only body is the protocol’s step of an ending task, and leaves slot and bodies empty |
| `HostStream.ClientState.BecameIdle` | crates/agent/src/task/types.rs:24-26 | is the protocol’s signal step for every state of the rest, and leaves slot and bodies as much in step as they were |
| `HostStream.ClientState.MarkUnchanged` | crates/agent/src/server.rs:339-341 | is what the protocol’s attach step does to the agent, for every state of the rest |
| `HostStream.ClientState.Cancel` | crates/agent/src/task/types.rs:11-18 | is the protocol’s step of a local cancel, and leaves slot and bodies as much in step as they were |
| `RegistryModel.StepKeepsInv` | crates/core/src/registry.rs:78-140 | every operation keeps the stamps unique, the open channels those of the listed hosts, and the event log replaying to the listed set |
| `RegistryModel.OneOpenChannelPerHost` | crates/core/src/registry.rs:83-90 | two open wake-up channels of one host are the same channel |
| `RegistryModel.DispatchesCoalesce` | crates/core/src/registry.rs:135-140 | any number of dispatches since the last receive makes exactly one wake-up, for that host alone |
| `RegistryModel.DisplacedConnectionEnds` | crates/core/src/registry.rs:83-90 | a displaced connection gets the wake-up it was owed, then learns it is gone, and no later dispatch reaches it |
| `RegistryModel.ListedIffLatestStands` | crates/core/src/registry.rs:94-133 | over every sequence of operations a host is listed under a stamp if and only if its latest registration has that stamp and has been neither dropped nor removed |
| `RegistryModel.FeedsConverge` | crates/core/src/registry.rs:31-45 | for every interleaving, and however far a feed falls behind, a consumer whose feed is drained holds exactly the listed hosts |
| `RegistryModel.FeedsCatchUp` | crates/core/src/registry.rs:36-42 | any feed is drained, with the right set, after at most 34 polls of an unchanged registry |
| `RegistryModel.StepMeans` | crates/core/src/registry.rs:31-45 | what each step of a system with observers does: an operation changes the registry alone; a poll hands out the snapshot, the next event, or after more than 32 events the hosts listed now |
| `HostRegistry.Broadcast.Send` | crates/core/src/registry.rs:67-74 | overwrites the oldest slot of the ring and keeps the last 32 events readable |
| `HostRegistry.Broadcast.Receive` | crates/core/src/registry.rs:36-42 | yields the next event, or tells that more than 32 have passed |
| `HostRegistry.HostRegistry.RegisterHost` | crates/core/src/registry.rs:78-92 | stamps the connection, displaces an older one, announces it, and returns the stamp |
| `HostRegistry.HostRegistry.CleanUp` | crates/core/src/registry.rs:95-109 | removes the host only if this registration is still the listed one |
| `HostRegistry.HostRegistry.DeregisterHost` | crates/core/src/registry.rs:119-125 | removes and announces a listed host, and does nothing for others |
| `HostRegistry.HostRegistry.DisconnectEveryHost` | crates/core/src/registry.rs:127-133 | removes every host, each announced once, in some order |
| `HostRegistry.HostRegistry.DispatchTo` | crates/core/src/registry.rs:135-140 | fills the one slot of the host’s channel |
| `HostRegistry.HostRegistry.ReceiveWake` | crates/api/agent/src/event.rs:122-125 | what a connection finds in its channel: a wake-up, nothing yet, or its end |
| `HostRegistry.HostRegistry.ConnectedHosts` | crates/core/src/registry.rs:142-144 | the listed hosts are what replaying all announcements gives |
| `HostRegistry.ConnectionFeed.Next` | crates/core/src/registry.rs:31-45 | hands out the snapshot, a change, or a fresh snapshot after falling behind; when it would have to wait its consumer holds the listed hosts |
| `TaskStore.SingleHostAggregate` | crates/core/src/domain/task.rs:135-166 | the aggregate of a task of one host is that host’s state |
| `TaskStore.ActiveAggregate` | crates/core/src/domain/task.rs:135-166 | a task is pending or running if and only if one of its rows is |
| `TaskStore.AggregateMeans` | crates/core/src/domain/task.rs:135-166 | which rows each aggregate state tells of |
| `TaskStore.GetNext` | crates/core/src/repository/task.rs:120-157 | comes before every other active row of the host, a running one before a pending one and an older one before a newer one like it; none only when no row of the host is active |
| `HandlerLaws.StartAccepts` | crates/api/agent/src/task.rs:19-71 | a start is accepted if and only if the task is the host’s next one, no reboot, with a ready image or, for a capture, a sound sector size, and a multicast runs already; a refusal changes nothing |
| `HandlerLaws.StartChanges` | crates/api/agent/src/task.rs:19-71 | it makes that row run and the image of a capture start anew, and changes nothing else |
| `HandlerLaws.SectorSizesAre` | crates/api/agent/src/task.rs:44-52 | a sector size is sound if and only if it is a power of two from 512 to 2^31 |
| `HandlerLaws.FinishingAnother` | crates/api/agent/src/task.rs:136-158 | only the next task is finished; of others one that is done is accepted again, without a change |
| `HandlerLaws.FinishingPlain` | crates/api/agent/src/task.rs:74-108 | a task that captures nothing is done, and nothing else changes |
| `HandlerLaws.FinishingCapture` | crates/api/agent/src/task.rs:74-108 | a whole capture is done and its image ready; any other fails, faults its image and is refused |
| `HandlerLaws.FailureMeans` | crates/api/agent/src/task.rs:111-133 | a failure fails the next task’s row and faults the image of a capture, and changes nothing else |
| `HandlerLaws.UploadMeans` | crates/api/agent/src/capture.rs:21-66 | a partition is stored if and only if the capture runs and is next, does not have it, and a single partition has number 1 and a filesystem |
| `HandlerLaws.UploadTableMeans` | crates/api/agent/src/capture.rs:70-74 | a table is stored if and only if the capture of a whole disk runs and is next |
| `HandlerLaws.RootMeans` | crates/core/src/repository/image.rs:121-141 | a root is set if and only if the image is not deleted and has that partition |
| `HandlerLaws.ReportRootMeans` | crates/api/agent/src/capture.rs:76-86 | an agent sets the root only of the image its running capture works on |
| `HandlerLaws.CreateImageMeans` | crates/api/ui/src/images.rs:30-84 | a new image comes with one waiting capture of its kind |
| `HandlerLaws.CreateTaskMeans` | crates/api/ui/src/hosts.rs:67-95 | a restore is created only for a ready image that is not deleted, with every host waiting |
| `HandlerLaws.CancelledMeans` | crates/api/ui/src/tasks.rs:73-94 | a cancellation cancels exactly the active rows of the task and faults the image of a capture |
| `HandlerLaws.CancelMeans` | crates/api/ui/src/tasks.rs:60-69 | a task is cancelled if and only if it has an active row |
| `HandlerLaws.KickMeans` | crates/api/ui/src/tasks.rs:96-113 | a host is kicked if and only if it runs that multicast, and only that row changes |
| `HandlerLaws.RetryMeans` | crates/api/ui/src/tasks.rs:115-144 | a task is retried if and only if no row is active, one failed or was cancelled and its image is not deleted; exactly these rows wait again |
| `HandlerLaws.DeleteHostMeans` | crates/api/ui/src/hosts.rs:52-65 | a host is deleted, with all its rows, if and only if none of them is active |
| `HandlerLaws.DeleteImageMeans` | crates/api/ui/src/images.rs:90-111 | an image is deleted unless a restore of it is not settled; its captures are cancelled row by row, and no other task or image changes |
| `HandlerLaws.StartImportMeans` | crates/core/src/service/archive.rs:114-126 | an import starts with an image it has yet to fill |
| `HandlerLaws.EndImportMeans` | crates/core/src/repository/image.rs:335-381 | what arrived intact makes the image ready unless it was deleted or has such partitions already; anything else faults it |
| `HandlerLaws.WorkerMeans` | crates/core/src/repository/task.rs:159-220 | the worker moves one active row of a multicast and nothing else |
| `HandlerLaws.RestartMeans` | crates/core/src/multicast.rs:92-99 | a restart fails the running rows of multicasts and the images being imported, and nothing else |
| `ImageLifecycle.StepKeepsInv` | crates/api/agent/src/task.rs:19-133 | every handler, import, worker and restart step keeps the invariant of tasks and images |
| `ImageLifecycle.ReadyImageStays` | crates/api/agent/src/capture.rs:88-110 | no single step changes the partitions, table or readiness of a live ready image, other than deleting it |
| `ImageLifecycle.ReadyImagesAreStable` | crates/core/src/repository/image.rs:279-330 | over whole runs a live ready image is complete, has no active capture, has its root among its partitions, and keeps its partitions and table until it is deleted |
| `ImageLifecycle.DeletedStaysDeleted` | crates/core/src/repository/image.rs:262-277 | over whole runs a deleted image stays deleted |
| `ImageLifecycle.LateCancelKeepsReadyImages` | crates/api/ui/src/tasks.rs:73-81 | the cancel’s writes, made later than its check, leave every ready image alone if and only if the task is not by then the finished capture of one |
| `ImageLifecycle.LateCancelFaultsAReadyImage` | crates/api/ui/src/tasks.rs:60-81 | a run in which the capture finishes between the cancel’s check and its writes, and the ready image is faulted |
| `ImageLifecycle.LateUploadKeepsReadyImages` | crates/api/agent/src/capture.rs:33-65 | an upload recorded later than its check keeps the invariant, and leaves every ready image alone if and only if the image is not ready by then or has that partition; so it does while the capture is active and for single partitions |
| `ImageLifecycle.LateUploadChangesAReadyImage` | crates/api/agent/src/capture.rs:33-65 | a run in which a capture is reported finished while an upload is under way, and the upload then adds a partition to the ready image |
| `ImageLifecycle.OutcomeStays` | crates/api/agent/src/task.rs:136-158 | no step but a retry of its task or the deletion of its host touches a recorded outcome |
| `ImageLifecycle.OutcomesAreStable` | crates/api/agent/src/task.rs:136-158 | the same over whole runs |
| `ImageLifecycle.RepeatedReports` | crates/api/agent/src/task.rs:147-157 | repeating the recorded report succeeds without a write, and every other report is refused without one |
| `ImageLifecycle.RetryReopens` | crates/core/src/repository/task.rs:241-270 | a retry reopens a row exactly when it failed or was cancelled |
| `TaskServer.Server.Start` | crates/api/agent/src/task.rs:19-71 | the handler’s calls make the store’s step and keep its invariant |
| `TaskServer.Server.Finish` | crates/api/agent/src/task.rs:74-108 | the same, with the completeness check that faults an incomplete capture |
| `TaskServer.Server.ReportFailure` | crates/api/agent/src/task.rs:111-133 | the same for a failure |
| `TaskServer.Server.CancelRows` | crates/api/ui/src/tasks.rs:73-94 | cancels the active rows, faults the image of a capture, and wakes exactly the hosts that were active |
| `TaskServer.Server.Cancel` | crates/api/ui/src/tasks.rs:60-69 | refused unless a row is active; accepted exactly when some host is woken |
| `TaskServer.Server.Delete` | crates/api/ui/src/images.rs:90-111 | refused while a restore uses the image; otherwise the loop cancels every capture of it and deletes it |
| `MulticastWorker.WaitingShrinks` | crates/core/src/multicast.rs:122-133 | one claimed host takes at least one row out of those that wait for a session, whatever happens besides |
| `MulticastWorker.NextMulticast` | crates/core/src/repository/task.rs:394-423 | the oldest multicast with a waiting row; none only when no row of any multicast waits |
| `MulticastWorker.EveryWriteIsMade` | crates/core/src/multicast.rs:122-148 | every write that is accounted for was made: at a recorded moment the one active row it names became running or failed, and nothing else changed |
| `MulticastWorker.AheadMeans` | crates/core/src/repository/task.rs:120-157 | another task is ahead of a multicast on a host if and only if it has an active row there that comes before the multicast’s, or that has none |
| `MulticastWorker.Worker.WriteClaim` | crates/core/src/multicast.rs:124-129 | the row becomes running, or failed if the host is busy, provided it is active; every other row stays, and the write is recorded |
| `MulticastWorker.Worker.ClaimHost` | crates/core/src/multicast.rs:123-131 | a host that waits at its write runs afterwards, or has failed if and only if another task was ahead of it at a recorded moment since the call; a claim that failed wrote nothing and used up a fault |
| `MulticastWorker.Worker.Claim` | crates/core/src/multicast.rs:122-133 | the same for all hosts, in order: each write was made on the rows as recorded and for what was read before it; after a claim that did not fail there is one for each host and none waits |
| `MulticastWorker.Worker.ClaimRetrying` | crates/core/src/multicast.rs:169-182 | for any finite number of failing calls the claim ends; the same holds of all writes of all attempts, the last ones are one for each host, and none waits |
| `MulticastWorker.Worker.SettleHost` | crates/core/src/multicast.rs:138-145 | a host is failed exactly when the session failed or it was not connected, and that is the only change made; one still running took part in a session that went well |
| `MulticastWorker.Worker.Settle` | crates/core/src/multicast.rs:135-148 | fails only hosts of the task, and in a session that went well only those not in the set connected at first; what still runs then was in it; after a failed session every host running at a recorded moment before its first write is woken, and every host it failed, otherwise nobody |
| `MulticastWorker.Worker.SettleRetrying` | crates/core/src/multicast.rs:169-182 | for any finite number of failing calls settling ends; the rest still running were in the connected set recorded when the last attempt began, all hosts running when that attempt read the rows are woken after a failed session, and every host failed in any attempt was gone at some moment, or the session failed and it is woken |
| `MulticastWorker.Worker.Session` | crates/core/src/multicast/session.rs:45-95 | wakes exactly the hosts running at the recorded moment at which it reads them, which others may have changed since the claim, so every host still running at its end has been woken; a session that does not fail has read them, and one that fails before wakes nobody |
| `MulticastWorker.Worker.RunSession` | crates/core/src/multicast.rs:109-120 | the writes are first justified claims, the last ones one for each host, then failures of hosts that were gone or of a failed session; between them exactly the hosts running at a recorded moment are woken, and after a failed session also all that are failed or found running; whatever runs in the end has been woken and was connected when the last settling attempt began; no claimed host waits, and fewer rows do |
| `MulticastWorker.Worker.RunQueue` | crates/core/src/multicast.rs:101-107 | the queue loop ends when nobody adds multicasts, whatever else others do between its calls, with no row of any multicast waiting when it last looked |
| `ChunkedRelay.BodyThere` | crates/proxy/src/relay.rs:194-215 | every correctly encoded chunked body within the line limit is recognised, up to its last byte and no further |
| `ChunkedRelay.BodyOf` | crates/proxy/src/relay.rs:194-215 | whatever is recognised is one complete chunked body |
| `ChunkedRelay.BodiesAreUnambiguous` | crates/proxy/src/relay.rs:194-215 | a stream starts with at most one chunked body |
| `ChunkedRelay.Relay.CopyLine` | crates/proxy/src/relay.rs:217-232 | reads and sends one line, unless it does not end within 4096 bytes or upstream fails |
| `ChunkedRelay.Relay.CopyExact` | crates/proxy/src/relay.rs:181-192 | copies exactly that many bytes in pieces of any size, or fails because the stream ends or upstream does |
| `ChunkedRelay.Relay.CopyPiece` | crates/proxy/src/relay.rs:200-212 | copies one chunk with its line break, or the line that ends the chunks |
| `ChunkedRelay.Relay.CopyTrailers` | crates/proxy/src/relay.rs:213-213 | copies the trailers up to the empty line |
| `ChunkedRelay.Relay.CopyChunked` | crates/proxy/src/relay.rs:194-215 | succeeds if and only if a whole body is there and upstream takes it, with nothing read behind it; in every case what was sent starts the stream |
| `RequestHead.FramingMeans` | crates/proxy/src/request.rs:183-202 | for any headers: chunked if and only if all Transfer-Encoding values decode, the last piece of the last one is chunked between spaces, and no Content-Length is there; a length if and only if no Transfer-Encoding is there and every Content-Length says it in digits and within 64 bits, zero without any |
| `RequestHead.ConnectionListedMeans` | crates/proxy/src/request.rs:204-219 | refused if and only if a Connection or Proxy-Connection value does not decode or a piece of one is, between spaces, the name of a framing field; otherwise exactly the names that, between spaces, make up the comma-separated pieces of all of them |
| `RequestHead.AppendKept` | crates/proxy/src/request.rs:231-242 | the loop appends the lines of exactly the kept headers |
| `RequestHead.RewriteHead` | crates/proxy/src/request.rs:221-245 | the head is the rendering of the generated Host, the kept headers and the generated Connection |
| `RequestHead.KeptInOrder` | crates/proxy/src/request.rs:231-242 | the kept headers are exactly those not dropped, in their order |
| `RequestHead.FramingIsPreserved` | crates/proxy/src/request.rs:204-245 | whenever the connection’s list is accepted, the rewritten headers frame the body as the original ones |
| `RequestHead.HopFieldsAreReplaced` | crates/proxy/src/request.rs:204-245 | exactly one Host and one Connection, both generated, and between them, in order, exactly the headers that no such field lists, ignoring case, and that are not always dropped |
| `RequestHead.RewrittenHeadReadsBack` | crates/proxy/src/request.rs:229-244 | a reader of header lines finds exactly the rewritten headers, then the body |
| `OutputBounder.CutIsLongest` | crates/agent/src/task/post_install.rs:274-287 | the live part is the longest one within 1 MiB, the tail the longest run of the remaining chunks within 256 KiB that ends the output |
| `OutputBounder.BoundedOutput.PopFront` | crates/agent/src/task/post_install.rs:282-286 | while too much is held there is a chunk to let go of |
| `OutputBounder.BoundedOutput.Keep` | crates/agent/src/task/post_install.rs:280-286 | after every chunk the tail is the longest one that fits what was read so far |
| `OutputBounder.BoundedOutput.Take` | crates/agent/src/task/post_install.rs:274-287 | a chunk is sent live while all so far fit, and never again after one that did not |
| `OutputBounder.BoundedOutput.Next` | crates/agent/src/task/post_install.rs:272-303 | each item is the next live chunk, or once at the end the marker and the tail |
| `OutputBounder.RestMeans` | crates/agent/src/task/post_install.rs:288-302 | the closing item is the marker with the number of bytes left out, if there are any, and then the bytes of the tail |
| `OutputBounder.Bounded` | crates/agent/src/task/post_install.rs:261-304 | for every chunk sequence: the live chunks one by one, then at most one item; together the live bytes, the marker if anything is left out, and the tail’s bytes; the whole output if nothing is |
| `OutputBounder.NothingGoesUncounted` | crates/agent/src/task/post_install.rs:288-302 | live part, omitted part and tail are the whole output in order; what is sent are the live bytes, a marker with the number of omitted bytes if there are any, and the tail’s bytes |
| `OutputBounder.ShortOutputPassesUnchanged` | crates/agent/src/task/post_install.rs:275-279 | output within the live limit passes chunk by chunk; longer output gets exactly one more item |
| `OutputBounder.MarkerTellsTheCount` | crates/agent/src/task/post_install.rs:292-297 | markers are equal only for equal counts |
| `SparseExtract.CopyChunk` | crates/pack/src/extract.rs:24-41 | one chunk is skipped when it is all zeros and written otherwise; either way the file stands for the bytes so far |
| `SparseExtract.CopySparse` | crates/pack/src/extract.rs:16-45 | succeeds if and only if the range exists, or is empty, and no file operation fails; then the file equals the range and only chunks with data were written |
| `Gpt.LeRoundTrips` | crates/disk/src/gpt.rs:212-222 | a little-endian number reads back |
| `Gpt.LeIsUnique` | crates/disk/src/gpt.rs:212-222 | and different bytes are different numbers |
| `Gpt.ParseInvertsEncode` | crates/disk/src/gpt.rs:137-173 | parsing what was laid out (UEFI Specification 2.10, 5.3.2 and 5.3.3) succeeds if and only if no used slot ends before it starts; it then holds exactly each used slot with its number and sectors, in slot order, and otherwise names the first bad slot |
| `Gpt.ReadableIsLaidOut` | crates/disk/src/gpt.rs:137-173 | a backup is readable if and only if it is laid out that way and no partition in it ends before it starts |
| `Gpt.ParsedIsOrdered` | crates/disk/src/gpt.rs:156-168 | no parsed partition ends before it starts |
| `Gpt.PartitionOf` | crates/disk/src/gpt.rs:193-206 | no step overflows; offset and size are those of first to last sector, or the partition ends beyond 2^64 bytes |
| `Gpt.PartitionsMean` | crates/disk/src/gpt.rs:189-209 | all partitions are given, or none when one ends beyond 2^64 bytes |
| `Gpt.SectorsHold` | crates/disk/src/gpt.rs:175-177 | the number of sectors of the entry array is the least that holds its bytes |
| `Gpt.SizeCheckMeans` | crates/disk/src/partition_table.rs:60-69 | for every 64-bit size, also those no disk has: the check passes if and only if some whole number of sectors holds the entry array and every partition, these sectors and the one of the header fit on the disk, or the size is 2^64 - 1 |
| `Gpt.FullWidthDiskPassesUnchecked` | crates/disk/src/partition_table.rs:60-69 | the exception is one of the arithmetic: at the size 2^64 - 1, which no seek returns, the saturated sum lets a table through that does not fit |
| `Gpt.RestoredPartitionsLieOnTheDisk` | crates/disk/src/partition_table.rs:54-69 | after the check every partition can be computed and lies on the disk |
| `Gpt.TargetDisk.Restore` | crates/disk/src/partition_table.rs:43-83 | every outcome is exact: which error, when nothing touches the disk, when it is left zapped, and when the table is loaded; it starts only if everything fits in the sense of the size check |
| `Archive.PartitionFilesDiffer` | crates/archive/src/manifest.rs:217-219 | different partition numbers have different file names |
| `Archive.ScriptFilesDiffer` | crates/archive/src/manifest.rs:221-223 | different script names have different file names |
| `Archive.KindsOfFilesDiffer` | crates/archive/src/manifest.rs:217-228 | a table, a partition and a script never share a file name |
| `Archive.PartitionTaken` | crates/archive/src/manifest.rs:168-176 | a partition’s file name is taken if and only if its number is |
| `Archive.ScriptTaken` | crates/archive/src/manifest.rs:206-211 | a script’s file name is taken if and only if its name is |
| `Archive.Checksums` | crates/archive/src/manifest.rs:95-214 | succeeds for exactly the acceptable manifests, with the checksums of all files under pairwise different names |
| `Archive.OneKeyEach` | crates/archive/src/manifest.rs:110-212 | such a map has one key for each archived file, with its checksum |
| `ArchiveTransfer.ReceiveOne` | crates/archive/src/read.rs:154-181 | one entry is taken if and only if it is expected, within its limit, text where it must be, and has the expected hash |
| `ArchiveTransfer.Receive` | crates/archive/src/read.rs:131-189 | accepts if and only if the entries are the expected files, each once, in any order and unchanged; gives every body under its name |
| `ArchiveTransfer.FittingItemsAreUnchanged` | crates/archive/src/read.rs:131-181 | items are accepted only under expected and pairwise different names, with the expected hash each, and within the sizes |
| `ArchiveTransfer.ParseManifestMeans` | crates/archive/src/read.rs:78-129 | a manifest is read if and only if it is at most 1 MiB large, has format 2 or 3 and decodes |
| `ArchiveTransfer.Unpack` | crates/archive/src/read.rs:51-76 | succeeds if and only if the archive opens and its entries are accepted; no script lacks a body, and the scripts come in the manifest’s order |
| `ArchiveTransfer.WriteArchive` | crates/archive/src/write.rs:67-143 | writes the manifest and every file in its order, if and only if the manifest is acceptable |
| `ArchiveTransfer.DescribedIsAcceptable` | crates/archive/src/manifest.rs:95-214 | which contents can be archived, said of them: a sector size that is a power of two from 512 to 65536, a table or the one partition, distinct sound partitions and scripts, and roots that are archived; the manifest has the oldest format that holds them |
| `ArchiveTransfer.NormalizedStaysAcceptable` | crates/model/src/script.rs:190-208 | trimming descriptions changes neither the files nor the acceptance |
| `ArchiveTransfer.WrittenIsReceived` | crates/archive/src/write.rs:117-143 | everything written is accepted if and only if manifest, table and scripts are within 1 MiB, and reads back as the same files and bodies; the writer does not check those sizes |
| `ArchiveTransfer.SameContentsComeBack` | crates/archive/src/read.rs:61-75 | the table, every partition’s data and all scripts come back, in order, descriptions trimmed |
| `ArchiveTransfer.ContentsRoundTrip` | crates/archive/src/read.rs:51-76 | what the writer makes of acceptable contents within the limits is accepted, and whatever unpacking it gives has the same manifest with descriptions trimmed, the same table, partition data and scripts, in order |
| `Paths.OneName` | crates/archive/src/read.rs:195-206 | a plain name is read as one component |
| `Paths.TwoNames` | crates/archive/src/read.rs:200-204 | a directory and a name are read as two |
| `Paths.ComponentsMean` | crates/archive/src/read.rs:195-206 | a path begins with the root or the current directory exactly when it is spelled so; names and steps up follow |
| `Text.DecimalRoundTrips` | crates/archive/src/manifest.rs:217-219 | a written number reads back |
| `Text.SplitIsExact` | crates/proxy/src/request.rs:184-186 | splitting loses nothing and no part holds the separator |
| `Text.SplitGivesPieces` | crates/proxy/src/request.rs:184-186 | a part is one of the pieces of some way to cut the text at separators, and every such piece is a part |
| `Text.TrimIs` | crates/proxy/src/request.rs:184-186 | trimming gives the one text without a space at either end that, between runs of spaces, makes up the whole |
| `Text.ParseDecimalMeans` | crates/proxy/src/request.rs:168-171 | digits are read as the number they say, zeros in front or not, and nothing else is |
| `Inputs.Collect` | crates/core/src/domain/script.rs:108-133 | one machine’s values: given only if every input has a value that passes its check or needs none, later declarations replacing earlier ones |
| `Inputs.ValidateMeans` | crates/model/src/script.rs:130-188 | a declaration is sound if and only if its name, choices, description and default are: small letters, digits and underscores, distinct choices exactly for a choice, no default for a secret, and a default that could be given |
| `Inputs.CheckMeans` | crates/model/src/script.rs:103-120 | a value can be given if and only if it has no null character, is a finite number between spaces where one is asked for, and one of the choices where it is chosen |
| `Inputs.ChosenMeans` | crates/core/src/domain/script.rs:108-133 | an input’s value on a machine is the one given, the machine’s own or the shared one as it declares, or its default when none or an empty one is given |
| `Inputs.AllowedMeans` | crates/core/src/domain/script.rs:60-105 | values may be given, shared or for one machine, exactly under names whose first declaration says so |
| `Inputs.ResolveInputs` | crates/core/src/domain/script.rs:60-135 | succeeds if and only if every value given is declared where it is given, names have one scope, and every host’s values fit; a host’s values depend on the shared and its own alone |
| `Inputs.ScriptInputs` | crates/api/agent/src/scripts.rs:64-85 | what a script reads from the stored values, if they fit |
| `Inputs.ReadsBackWhenAgreed` | crates/model/src/script.rs:122-128 | an input is read back as it was chosen if and only if a value was given, nothing is stored, or the stored default is its own |
| `Inputs.StoredInputsKeepFitting` | crates/core/src/domain/script.rs:106-134 | every script reads back exactly what was resolved for it if and only if all declarations agree in that sense |
| `Inputs.EqualDefaultsAgree` | crates/core/src/domain/script.rs:106-134 | equal defaults for equal names are enough |
| `Inputs.LastDefaultWins` | crates/core/src/domain/script.rs:116-122 | two scripts with different defaults for one name: the first later reads the second’s, which its own choices refuse |
| `Targets.ImagingTargets` | crates/api/ui/src/hosts.rs:129-148 | the hosts asked for, in order, if and only if all exist, none is asked for twice and every disk is usable |
| `Targets.CanReplaceMeans` | crates/api/ui/src/hosts.rs:224-256 | a partition can be replaced if and only if it is large enough and none with another number has the image’s UUID, ignoring case, or its label |
| `Targets.TargetOf` | crates/api/ui/src/hosts.rs:224-256 | a target if and only if the host has that partition, it is large enough, and no other one holds the image’s UUID or label |
| `Targets.TargetPartitions` | crates/api/ui/src/hosts.rs:188-260 | succeeds for exactly the plannable requests, with each host’s own spelling of its PARTUUID |
| `Targets.TargetsAreTheHosts` | crates/api/ui/src/hosts.rs:216-259 | the targets are for exactly the requested hosts, and each is large enough |
| `Targets.WrittenMeans` | crates/api/ui/src/hosts.rs:224-256 | afterwards the partition asked for has the image’s UUID and label, and nothing else has changed |
| `Targets.FilesystemStaysUnique` | crates/api/ui/src/hosts.rs:231-256 | after writing, at most one partition number of a host holds the image’s UUID, ignoring case, and at most one its label |
| `Targets.RepeatingIsHarmless` | crates/api/ui/src/hosts.rs:188-260 | repeating the request on the written hosts succeeds with the same targets |
| `PostInstall.Stretch` | crates/agent/src/task/post_install.rs:70-71 | a run is the longest stretch with one root |
| `PostInstall.Runs` | crates/agent/src/task/post_install.rs:65-87 | the runs concatenate to the scripts with the right offsets, each with one restored root and neighbours with two; it fails if and only if a root was not restored |
| `PostInstall.OneSystemAtATime` | crates/agent/src/sys/mount.rs:23-67 | in every trace with a phase a root is mounted only while no system is, and scripts run only in a mounted one |
| `PostInstall.MountsAreUndone` | crates/agent/src/sys/mount.rs:92-127 | in every trace that ends with no system mounted, each mount is followed by a look at the mount table and at once by one unmount of everything found there, or of the tracked mounts, newest first, after which none is mounted |
| `PostInstall.MountedSystem.Attach` | crates/agent/src/sys/mount.rs:73-86 | a mount that works is tracked and continues the open system, one that fails changes nothing |
| `PostInstall.MountedSystem.AttachAll` | crates/agent/src/sys/mount.rs:28-65 | the root, the planned mounts on other partitions, then the kernel’s filesystems, in that order |
| `PostInstall.MountedSystem.ExpectedMeans` | crates/agent/src/sys/mount.rs:28-65 | a system’s mounts are its root, the planned mounts on other partitions each once and in order, and proc, sys and dev |
| `PostInstall.MountedSystem.Mount` | crates/agent/src/sys/mount.rs:23-67 | starts where no system is mounted; what fails is undone, so that the trace ends with none mounted again |
| `PostInstall.MountedSystem.Release` | crates/agent/src/sys/mount.rs:92-127 | unmounts once and newest first all that is found below the root, or the tracked mounts; a second release does nothing; success leaves nothing mounted |
| `PostInstall.RunScripts` | crates/agent/src/task/post_install.rs:89-112 | the scripts run in order until one fails, all while their root is mounted |
| `PostInstall.RunOne` | crates/agent/src/task/post_install.rs:55-61 | whatever fails, the trace goes from no mounted system to no mounted system, so everything mounted is undone |
| `PostInstall.RunAll` | crates/agent/src/task/post_install.rs:36-63 | the scripts that ran are the first ones in order, each while its own root partition was mounted at the root, and only the last may have failed; a missing root stops everything before it starts; on every way out the trace ends with no system mounted, so each system was undone, newest mount first, before the next one |
| `Fstab.Unescape` | crates/agent/src/sys/fstab.rs:126-148 | the decoding loop |
| `Fstab.UnescapeInvertsEscape` | crates/agent/src/sys/fstab.rs:126-148 | decoding undoes every octal escaping that escapes at least the backslash |
| `Fstab.RelativeTarget` | crates/agent/src/sys/fstab.rs:68-81 | the mount point below the root, when it is absolute and never steps up |
| `Fstab.TargetsStayInside` | crates/agent/src/sys/fstab.rs:68-81 | a target is a non-empty list of plain names |
| `Fstab.TargetIsRead` | crates/agent/src/sys/fstab.rs:68-81 | the mount point spelled with plain names is the target with these names |
| `Fstab.SpellingsAgree` | crates/agent/src/sys/fstab.rs:83-93 | naming a device with an equals sign in any case, with quotes, or by its link finds the same partitions |
| `Fstab.MatchesMeans` | crates/agent/src/sys/fstab.rs:95-124 | what each kind of identifier matches: UUIDs in any case, labels and names exactly |
| `Fstab.DeviceNames` | crates/agent/src/sys/fstab.rs:83-109 | a plain device path names exactly the partition of that name |
| `Fstab.FieldsMean` | crates/agent/src/sys/fstab.rs:33-45 | a line’s fields are the first three of at least three words, separated by spaces, before its comment, unescaped; with fewer it has none |
| `Fstab.LineHasWords` | crates/agent/src/sys/fstab.rs:33-38 | every line has such words |
| `Fstab.LinesAreRead` | crates/agent/src/sys/fstab.rs:20-27 | the lines of a text are those it was put together from, with or without carriage returns, the last one with or without a line break |
| `Fstab.PlannedIsNamed` | crates/agent/src/sys/fstab.rs:33-66 | a mount is planned for a line if and only if the line is not for swapping, has a mount point below the root and names that partition first; with its detected type, or the line’s own unless that is auto |
| `Fstab.PlanIsComplete` | crates/agent/src/sys/fstab.rs:20-31 | a plan has the mounts of exactly the lines that ask for one, each once, at every depth in the file’s order |
| `Fstab.PlanMounts` | crates/agent/src/sys/fstab.rs:20-31 | the planning loop and the stable sort |
| `Fstab.UniqueOnlyRefuses` | crates/agent/src/sys/fstab.rs:95-119 | taking the first match never fails; wanting a unique one fails if and only if a line is ambiguous, and otherwise gives the same plan |
| `Fstab.SortIsStable` | crates/agent/src/sys/fstab.rs:29-29 | sorting orders by depth and keeps the order at every depth |
| `Fstab.PlanIsOrdered` | crates/agent/src/sys/fstab.rs:20-31 | an ancestor comes before its descendants, equal depths keep the file’s order, every target stays inside the root |
| `Fstab.LiesBelow` | crates/agent/src/sys/mount.rs:145-153 | a path lies at or below a directory if and only if the directory’s names start its own |
| `Fstab.MountsAreFound` | crates/agent/src/sys/mount.rs:145-153 | whatever the kernel escapes, the mounts found are those at and below the directory, newest first |

## Left out

- Atomicity: in `TaskStore` a handler's reads and writes are one step; the writes of a cancel and of an
  upload are also taken apart. In `TaskProtocol` every write of a handler is a step that may come at any
  time. The look of a connected stream at the rows, with the failing of rows it cannot run, is one step; the
  run in which the stream is lost while it looks, the multicast row it is about to fail is settled and
  requeued, the host reconnects, and the old look then fails that row, is the step `LookFails`. In
  `MulticastWorker` others act between any two calls.
- ImageLifecycle.LateUploadKeepsReadyImages: speaks of the recorded partitions; the data file is written
  before the record is, also when the record is then refused, and file contents are not modelled.
- TaskProtocol.NoLostWakeUp: assumes the guards of `Careful` at the time of each write. The code checks
  those on claims, settling and starts earlier, the one on reports only in part, and cannot promise that
  a handler reaches its wake-up. A host has one registered stream (a displaced one has only lost its
  registration), and a failing or silent socket is a lost stream.
- TaskProtocol.StepKeepsInv: the registration stamp's wrap-around at 2^64 and the deletion of a host's
  rows are not modelled.
- MulticastWorker.Worker.Session: the transfer itself, its progress and who joins are one step that ends
  well or not; `Interfere` stands for everything other handlers may do, and its contract, not its body,
  is what the proofs use.
- MulticastWorker.Worker.RunQueue: nobody adds multicasts or reopens rows meanwhile, and waiting for the
  next wake-up of the worker is left out.
- TaskStore.GetNext: the creation time is the task's position, so equal times do not occur.
- ChunkedRelay.Relay.CopyChunked: a read error counts as the end of the stream; the chunk-size grammar
  is a parameter.
- RequestHead.RewriteHead: the request line, the target's parsing and the connection tunnel are not
  modelled; which header values are UTF-8 is a parameter, and a character stands for a byte.
- SparseExtract.CopySparse: what a failed write leaves in the file, and opening the two files.
- Gpt.TargetDisk.Restore: the commands are steps that work or fail; a sector size of zero, which no
  disk reports, is excluded. Detecting a disk's label is left out.
- Archive.Checksums: every refusal is the same one, whatever its message.
- ArchiveTransfer.Receive: a tar is a sequence of entries; an entry name that is not UTF-8 is refused
  in any case, since no expected name is; files of a refused archive are not modelled.
- ArchiveTransfer.WrittenIsReceived: JSON is a codec that reads back what it wrote with descriptions
  trimmed, the hash is a function; failing reads and writes are left out.
- Inputs.ResolveInputs: which texts are finite numbers is a parameter, and refusals have no message.
- PostInstall.MountedSystem.Release: a detached mount disappears alone, and stopping the processes
  inside the system is left out.
- PostInstall.RunAll: planned mounts are taken to lie below the root, as `Fstab.PlanIsOrdered` shows;
  what a script does to the mounts below the root is arbitrary; its environment, its output's upload and
  its status display are left out.
- Fstab.PlanMounts: the library's stable sort is an insertion sort; decoding invalid UTF-8 is a parameter.
- Targets.TargetPartitions: the plan around it (readiness of the image, script roots) is left out.
- SQL, HTTP routing, JSON, tar and tokio internals, external commands, logging, the dashboard and the
  text interface.
- Timing: ping liveness, backoff, idle timeouts and rates are steps that may happen at any time.
- Multicast progress, addresses and ports, PXE and TFTP serving, configuration.
