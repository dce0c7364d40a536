# Verified models of the music library's background machinery

This project models, in Dafny, the parts of the application that keep state
across threads, crashes and power loss, and proves what they promise.

- **Duplicate consolidation** (`Text`, `Paths`, `Journal`, `Machine`, `Recovery`,
  `Reachability`, `Consolidation`): a crash-recoverable merge of duplicate tracks over
  hard links and a library store. The filesystem maps names to inodes and inodes to
  contents; a removal renames a file aside before it unlinks it, and a tag write
  replaces a file by an edited copy made beside it; the store has durable rows and
  commits that a power loss may drop from the end; a crash or an I/O error may strike
  at every step. The recovery methods are specified for whatever they find, the
  protocol for every state a run, its crashes and its recoveries can reach.
- **Analysis supervisor** (`ExplicitWork`, `SupervisorLog`, `SupervisorBuffer`,
  `SupervisorTurn`, `SupervisorSoundness`, `SupervisorPromises`, `SupervisorFailures`,
  `AnalysisSupervisor`): a streaming dispatcher over an explicit queue and a background
  sweep. A turn of its loop is a function of the queue, the buffer, a log of all that was
  done, and an input that says what commands, store answers, channel states and outcomes it
  meets; the laws of the log and the promises are proved for every input, and the loop's
  methods, one a section, compute that function.
- **Device plan and device sync** (`DevicePlan`, `DeviceSync`): two small concurrent
  protocols, every access to shared state a step, under every interleaving.
- **Device selection and dates** (`Selection`, `CivilDate`).
- **Desktop trash** (`Trash`): publication while others use the same directories.
- **Analysis windows and waveforms** (`Decode`, `AnalysisWindows`, `Waveform`), over
  exact integers and reals.

`Wrappers` and `Numbers` hold what these share.

## Assumptions

- File operations and the store do what their names say: a hard link or an exclusive
  creation never replaces a name, an exchange swaps two names at once, a commit is
  atomic and a failed one changes nothing. The tag writer keeps the sound of the file it
  copies.
- No outside party interferes with a consolidation while it runs; what an earlier
  interference left behind may be anything, and the recovery methods are specified
  for it. Others do interfere with a trash publication: they take free names and
  replace what the source name holds, but do not link the trashed inode anew.
- A consolidation starts with a row and a file for every selected track. Nothing is
  assumed of what is durable by then.
- A store lists each needy track once, and answers a query with the first of them, as many
  as its limit allows. Only an outcome that some worker still owes can be reported.
- Files and the library do not change while one device request is built.

## Where the code does not keep a promise

Each of these is modelled as the code has it, with a member that exhibits it and the
exact condition under which the promise is kept.

- A crash inside one of the three tag writes leaves a temporary name in the recovery
  directory, which no later rollback can remove, so the journal stays for good
  (`Consolidation.InterruptedTagWriteBlocksRollback`). Up to the flush, a crash leaves a
  state that recovery can end exactly when it does not fall there, and in either case
  every original is put back (`Consolidation.Consolidate`, `Consolidation.CutShortIff`,
  `Consolidation.RestartThenRecover`).
- A crash between the rename and the unlink of one recovery file does so too
  (`Consolidation.InterruptedRemovalBlocksRollback`). Before the commit and with
  all rows there, recovery can end exactly when nothing lies aside in the recovery
  directory (`Reachability.RollbackReadyIff`).
- Recovery reads the commit off the rows. A power loss that takes the store back to a
  state without the duplicates' rows makes it unlink the duplicates' files although
  nothing was committed; one that drops some of the rows leaves it stuck
  (`Consolidation.PowerLossAfterBackups`, for every state the store can fall back to).
  No life comes to either where no such state lacks a row (`Consolidation.AnyLife`).
- A committed cleanup insists on every duplicate's backup, which it removes before the
  journal: interrupted in between it can never finish
  (`Consolidation.InterruptedCleanupCannotResume`, exact in `Reachability.CommittedReadyIff`).
- Promotion between reading the front of the buffer and popping it can drop an explicit
  item unsent and give a track to two workers (`SupervisorBuffer.RaceLosesAndDoubles`,
  exact on the state before the promotion in `SupervisorFailures.LosesRequestIff` and
  `SupervisorFailures.AttemptDoublesIff`).
- An outcome that is still unread when a teardown clears the in-flight set later untracks
  its track exactly when that is out again (`SupervisorBuffer.StragglerUntracksIff`,
  `SupervisorFailures.StragglerDoublesTrack`). Over any run, a track goes to a second worker
  only after one of these two causes, met since the in-flight set was last cleared
  (`SupervisorLog.SecondWorkerHasCause`), and never without a request for it or a change of
  settings or resource usage (`SupervisorLog.UndisturbedTrackHasOneWorker`).
- A comment promises that a rejected write keeps the pool from looking quiet until it is
  reported (crates/app_runtime/src/analysis_scheduler.rs:959-963). Once one is read
  the pool looks quiet exactly when nothing was in flight before
  (`AnalysisSupervisor.Supervisor.ApplyOutcome`): one of an earlier pool can find it so
  (`SupervisorFailures.StragglerHidesRejection`), one of the current pool only if its
  track was spoiled (`SupervisorPromises.RestingIdlesIff`).
- A buffered explicit request is dropped exactly when there is no library path and nothing
  is in flight once the outcomes are read (`SupervisorPromises.RestingIdlesIff`,
  `SupervisorFailures.PathlessIdleDropsRequest`).
- The size of a run is meant to keep the progress notification's denominator from sliding
  (crates/app_runtime/src/analysis_scheduler.rs:140-145), but it leaves out the explicit
  tracks that the promotion just before it moved into the buffer, unless they are queued
  once more or found in need (`SupervisorPromises.SizeCountsAllIff`): with every capability
  off, a requested track makes a run of size zero (`SupervisorPromises.RequestIsUncounted`),
  and every tick then tells what is done as the total (`SupervisorLog.ReportsTellTheRun`).
- A request for explicit analysis is compared only with the ids queued when it arrives, not
  with buffered ones nor with repeats inside itself, although a comment promises more
  (crates/app_runtime/src/analysis_scheduler.rs:1129-1149, `SupervisorBuffer.RequestRepeats`,
  exact in `SupervisorBuffer.QueueStaysDistinctIff`); the promotion drops such repeats
  later (`ExplicitWork.DrainAppends`).
- A sync task that panics ends its thread without a completion, so its run is never
  released and no sync starts until a shutdown (`DeviceSync.PanicBlocksStarts`); without a
  panic every active run's end is coming (`DeviceSync.SyncRuntime.Run`). A device-plan task
  that panics ends the one worker, and no job runs again (`DevicePlan.PlanRuntime.Run`).
- BPM and key listen to different samples depending on what was decoded before. After the
  waveform they hear the same exactly when the window decoded alone starts where the whole
  track is cut (`AnalysisWindows.FullGivesWindowIff`, in terms of the hint in
  `AnalysisWindows.HintAgreesIff` and `AnalysisWindows.NoHintAgreesIff`); after acoustics
  on a long track, exactly when the acoustics window was decoded whole
  (`AnalysisWindows.AcousticsGivesWindowIff`). Either can fail
  (`AnalysisWindows.OrderMattersWithoutHint`, `AnalysisWindows.OrderMattersPastTheEnd`);
  the analyzer's documentation says the order only costs efficiency
  (crates/analysis/src/lib.rs:402-407).
- What cannot be opened once it was renamed into the trash stays there without its info
  file (`Trash.IrregularEntryIsOrphaned`); with no I/O error and no interference, exactly
  when the source name held no regular file (`Trash.Directories.TrashRegularFile`). It is
  still reachable.

## Model

| member | source | states |
|---|---|---|
| Text.HexRoundTrip | crates/app_runtime/src/duplicate_consolidation.rs:1009-1040 | hex path decoding inverts encoding for every byte string, and the encoding holds no tab or line break |
| Text.ParseDec | crates/app_runtime/src/duplicate_consolidation.rs:996-1007 | a written number parses back to itself within its limit, and to nothing above it |
| Paths.NormalizeRoundTrip | crates/domain/src/track.rs:162-181 | a relative path made of normal components is recovered from its bytes |
| Paths.NormalizeSound | crates/domain/src/track.rs:162-181 | whatever relative path is accepted has only normal components |
| Journal.ValidateJournal | crates/app_runtime/src/duplicate_consolidation.rs:943-980 | accepts a journal exactly when its stage lies in a recovery directory, each backup has its indexed name there, no source does, ids and sources are distinct, and the survivor is listed |
| Journal.ValidJournalIff | crates/app_runtime/src/duplicate_consolidation.rs:943-980 | the same name by name, with the prefixes as the files carry them |
| Journal.ValidUtf8Iff | crates/app_runtime/src/duplicate_consolidation.rs:948-963 | a name counts as text exactly when it is the UTF-8 form (section 3 of RFC 3629) of Unicode scalar values |
| Journal.ValidJournalPathsDistinct | crates/app_runtime/src/duplicate_consolidation.rs:943-980 | in a valid journal the stage, all backups and all sources are pairwise distinct paths, and the backups are the stage's siblings |
| Journal.WriteJournal | crates/app_runtime/src/duplicate_consolidation.rs:812-870 | writes text exactly for valid journals, one specified line after the other |
| Journal.JournalLinesAre | crates/app_runtime/src/duplicate_consolidation.rs:812-857 | heading, survivor line and entry lines word by word |
| Journal.TrackIdsAre | crates/app_runtime/src/duplicate_consolidation.rs:996-1001 | a track id reads back exactly from one to the greatest signed 64-bit number |
| Journal.ReadJournal | crates/app_runtime/src/duplicate_consolidation.rs:878-941 | returns what the text parses to, if it parses and validates, and nothing otherwise |
| Journal.EntryLineRoundTrip | crates/app_runtime/src/duplicate_consolidation.rs:846-857 | one entry's line gives back its id, paths and inode |
| Journal.SurvivorLineRoundTrip | crates/app_runtime/src/duplicate_consolidation.rs:839-845 | the survivor line gives back the survivor and the stage |
| Journal.JournalRoundTrip | crates/app_runtime/src/duplicate_consolidation.rs:812-941 | the text written for any well-typed journal parses back to exactly that journal |
| Journal.PublishThenRead | crates/app_runtime/src/duplicate_consolidation.rs:812-980 | through both methods: what was published is what recovery reads, and an invalid journal is never published |
| Machine.Machine.Remove | crates/app_runtime/src/managed_library/file_ops.rs:852-878 | compare-and-remove: a name goes only while it holds the expected file; cut short, the file is at the name or aside in the same directory |
| Machine.Machine.CompareAndRemove | crates/app_runtime/src/managed_library/file_ops.rs:852-904 | the same with its rename, comparison, rollback and unlink as separate steps |
| Machine.Machine.Publish | crates/app_runtime/src/managed_library/file_ops.rs:737-758 | a hard link under a free name in a directory made on demand, taken back if it cannot be made durable |
| Machine.Machine.Link | crates/app_runtime/src/managed_library/file_ops.rs:234-244 | a hard link never replaces a name |
| Machine.Machine.CreateFile | crates/app_runtime/src/managed_library/file_ops.rs:197-206 | creation fails on an existing name |
| Machine.Machine.RemoveDirectory | crates/app_runtime/src/managed_library/file_ops.rs:266-270 | only an empty directory goes |
| Machine.Machine.PublishJournal | crates/app_runtime/src/duplicate_consolidation.rs:814-870 | the journal appears under its one name all at once, never over another |
| Machine.Machine.RemoveJournal | crates/app_runtime/src/duplicate_consolidation.rs:804-810 | only the journal goes |
| Machine.Machine.Commit | crates/library_store/src/lib.rs:329 | one transaction shows all of its rows or none |
| Machine.Machine.FlushDurable | crates/library_store/src/lib.rs:333-336 | makes the visible rows durable, or changes nothing |
| Machine.Machine.Replace | crates/metadata/src/atomic_file.rs:67-146 | a tag write: an edited copy under a temporary name beside the file, exchanged with it, the old file unlinked; the file is never written in place, and only a crash while the temporary name is in use leaves that name |
| Machine.Machine.Reboot | crates/library_store/src/sqlite.rs:200-211 | a restart keeps any number of the unflushed commits, in order, with any number of these durable, and touches no file |
| Machine.CutOfCommitted | crates/library_store/src/sqlite.rs:200-211 | what a power loss leaves of one more commit is that commit or a state from before it |
| Recovery.CleanupRecoveryFiles | crates/app_runtime/src/duplicate_consolidation.rs:730-781 | removes exactly the stage, the backups that are the recorded inodes, and the empty directory; succeeds exactly when nothing else is there; interrupted, only the stage and recorded backups are gone |
| Recovery.RestoreSource | crates/app_runtime/src/duplicate_consolidation.rs:671-703 | binds one source to its backup again, or fails on an occupant it does not know, touching no other name |
| Recovery.RestoreSources | crates/app_runtime/src/duplicate_consolidation.rs:669-703 | settles every source, or stops with all names bound as before or to their backups |
| Recovery.Rollback | crates/app_runtime/src/duplicate_consolidation.rs:669-706 | succeeds exactly when every source is restorable and the recovery directory can be cleared; whatever interrupts it, no recovery name or journal goes before every source is settled; otherwise the journal stays |
| Recovery.FindSurvivor | crates/app_runtime/src/duplicate_consolidation.rs:524-530 | finds the one entry of the survivor |
| Recovery.DropDuplicate | crates/app_runtime/src/duplicate_consolidation.rs:713-726 | unlinks a duplicate only where it still is its backup |
| Recovery.CleanupCommitted | crates/app_runtime/src/duplicate_consolidation.rs:708-728 | never touches the survivor path; succeeds exactly when the survivor and all duplicates' backups are present, each such source missing or equal to its backup, and the directory can be cleared; otherwise the journal stays |
| Recovery.RollbackSparesForeignFile | crates/app_runtime/src/duplicate_consolidation.rs:676-703 | however a rollback ends, a source name that holds neither nothing nor the stage is as it was |
| Recovery.CleanupSparesForeignFile | crates/app_runtime/src/duplicate_consolidation.rs:713-726 | however a committed cleanup ends, the survivor name and any name that is not its own backup are as they were |
| Recovery.ForeignOccupantStopsRollback | crates/app_runtime/src/duplicate_consolidation.rs:684-703 | an occupant that is neither backup nor stage makes the rollback fail with journal, stage and backups untouched |
| Recovery.RecoverySparesForeignBackup | crates/app_runtime/src/duplicate_consolidation.rs:730-781 | however a rollback or a committed cleanup ends, a backup name keeps a file that is not the recorded one |
| Consolidation.BackUpSource | crates/app_runtime/src/duplicate_consolidation.rs:313-323 | links a source to its backup after checking it is the recorded file; nothing else changes |
| Consolidation.CopyToStage | crates/app_runtime/src/duplicate_consolidation.rs:538-606 | the stage is a new inode holding the survivor's sound; no earlier file is written |
| Consolidation.StageSurvivor | crates/app_runtime/src/duplicate_consolidation.rs:324-359 | the stage ends with the survivor's sound and the verified tags, all backups present; without I/O errors only a crash inside a tag write leaves anything aside, and that is one |
| Consolidation.WriteTags | crates/metadata/src/atomic_file.rs:67-146 | one part of the tags: the stage becomes another new file with these tags and the same sound, and whatever interrupts it every source and backup is in place |
| Consolidation.SwapSurvivor | crates/app_runtime/src/duplicate_consolidation.rs:360-367 | the survivor name moves from its inode to the stage, every original still at source or backup |
| Consolidation.UnlinkDuplicates | crates/app_runtime/src/duplicate_consolidation.rs:368-380 | the duplicates' names go, their originals stay at their backups |
| Consolidation.RunPreCommit | crates/app_runtime/src/duplicate_consolidation.rs:303-394 | done: committed with everything a rollback needs; otherwise not committed and every original safe, or committed with everything; without I/O errors something lies aside only where a crash cut a tag write short |
| Consolidation.CommitIsPostCommit | crates/app_runtime/src/duplicate_consolidation.rs:390-392 | the one commit is the step from the uncommitted to the committed phase |
| Reachability.MergedRowsAre | crates/library_store/src/sqlite/duplicate_consolidation.rs:13-27 | the commit gives the survivor its planned row, takes the row of every duplicate, and leaves every track that was not selected with the row it had, or none |
| Reachability.ClassifyRows | crates/app_runtime/src/duplicate_consolidation.rs:403-428 | survivor present, duplicates all gone, duplicates all there |
| Reachability.RowsTellThePhase | crates/app_runtime/src/duplicate_consolidation.rs:403-428 | a commit always shows as one, and whenever all the rows are there nothing was committed |
| Reachability.Recover | crates/app_runtime/src/duplicate_consolidation.rs:396-429 | keeps every reachable state reachable; an undisturbed run ends it exactly in the recoverable states; a state that cannot end never becomes one that can; all rows: rolled back, a commit: cleared up, some rows: untouched; even a stuck rollback has put every original back |
| Reachability.RollbackPreserves | crates/app_runtime/src/duplicate_consolidation.rs:669-706 | a rollback, wherever it stops, leaves a state from which it can be run again, or the original world |
| Reachability.RollbackReadyIff | crates/app_runtime/src/duplicate_consolidation.rs:669-706 | before the commit a rollback can finish exactly when nothing lies aside in the recovery directory |
| Reachability.CleanupPreserves | crates/app_runtime/src/duplicate_consolidation.rs:708-728 | a committed cleanup, wherever it stops, keeps the merge |
| Reachability.MisreadingPreserves | crates/app_runtime/src/duplicate_consolidation.rs:708-728 | one that was never meant, because the duplicates' rows were lost, keeps the survivor wherever it stops, adds nothing, and ends with the duplicates gone |
| Reachability.CommittedReadyIff | crates/app_runtime/src/duplicate_consolidation.rs:708-728 | the committed cleanup can finish exactly when the survivor and every duplicate's backup are there and nothing lies aside |
| Reachability.DurableRowKeepsItsFile | crates/app_runtime/src/duplicate_consolidation.rs:288-291 | in every reachable state a duplicate that has its row in any state a power loss could leave has its original inode, unwritten, at its source or backup |
| Reachability.LostCommitIsRecoverable | crates/app_runtime/src/duplicate_consolidation.rs:288-291 | losing an unflushed commit leaves everything its rollback needs |
| Reachability.RebootStaysReachable | crates/app_runtime/src/duplicate_consolidation.rs:288-291 | power loss and restart lead only to reachable states, a lost commit to an uncommitted one, and change nothing once all is flushed |
| Reachability.NothingIsForgotten | crates/app_runtime/src/duplicate_consolidation.rs:396-429 | if every state the store can fall back to has all the rows, no reachable state is misread or lost |
| Reachability.RecoverableByPhase | crates/app_runtime/src/duplicate_consolidation.rs:396-429 | which files and rows a recovery needs to end, before the commit, after it, and with rows lost |
| Consolidation.RecoverUndisturbed | crates/app_runtime/src/duplicate_consolidation.rs:396-429 | what one undisturbed recovery makes of every reachable state: the original world, the merge, the loss of the duplicates, or the same stuck state, by rows and files; merged, the durable rows are the merge, rolled back, a state the store had before |
| Consolidation.Consolidate | crates/app_runtime/src/duplicate_consolidation.rs:233-301 | the whole operation: undisturbed it merges; a crash up to and including the flush leaves a recoverable state exactly when the world it leaves is not that of a tag write cut short, and every original in place if it is; once flushed the durable rows are the merge, and no row but those of the selected tracks changed |
| Consolidation.CutShortIff | crates/app_runtime/src/duplicate_consolidation.rs:233-301 | of the worlds such a crash leaves, those of a tag write cut short are exactly the ones recovery cannot end |
| Consolidation.RestartThenRecover | crates/app_runtime/src/duplicate_consolidation.rs:396-429 | from any such world, whatever commits the restart keeps: with the commit, the merge; with all rows there, the original world exactly unless a tag write was cut short, and then every original in place; nothing else if no state the store can fall back to lacks a row |
| Consolidation.CrashThenRecover | crates/app_runtime/src/duplicate_consolidation.rs:269-429 | so for a crash between any two steps up to the flush, a restart and one recovery; after the flush, and whenever it ends merged, the durable rows are the merge with every other track's row as it was |
| Consolidation.PowerLossAfterBackups | crates/app_runtime/src/duplicate_consolidation.rs:313-429 | for each state the store can fall back to once the backups are made: all rows, rolled back; only the survivor's, exactly the duplicates' names are gone; some, stuck with every source in place |
| Consolidation.LostNames | crates/app_runtime/src/duplicate_consolidation.rs:708-728 | such a loss takes exactly the duplicates' names |
| Consolidation.WrittenLife | crates/app_runtime/src/duplicate_consolidation.rs:269-429 | the same from the journal as written: an invalid one stops the operation untouched, a valid one is read back as it was and the crash result holds for it, the durable rows included |
| Consolidation.AnyLife | crates/app_runtime/src/duplicate_consolidation.rs:233-429 | any mishaps, any number of restarts and disturbed recoveries: one more undisturbed recovery succeeds exactly in the recoverable states, else the journal stays; no loss where every state the store can fall back to has all rows; without mishaps the merge, for good |
| Consolidation.InterruptedRemovalBlocksRollback | crates/app_runtime/src/managed_library/file_ops.rs:852-878 | a crash between rename and unlink inside the recovery directory blocks every later rollback, although every source is in place |
| Consolidation.InterruptedTagWriteBlocksRollback | crates/metadata/src/atomic_file.rs:67-146 | so does a crash inside a tag write, before the exchange or after it |
| Consolidation.InterruptedCleanupCannotResume | crates/app_runtime/src/duplicate_consolidation.rs:718 | once one duplicate's backup is removed, an interrupted committed cleanup can never finish |
| ExplicitWork.DrainConservesIds | crates/app_runtime/src/analysis_scheduler.rs:882-908 | promotion neither loses nor invents an explicit id |
| ExplicitWork.DrainAppends | crates/app_runtime/src/analysis_scheduler.rs:882-908 | the buffer only grows at its end, by tracks not in flight, to at most the batch size, and stays free of repeats |
| ExplicitWork.DrainKeepsOrder | crates/app_runtime/src/analysis_scheduler.rs:882-908 | what is appended is in queue order |
| ExplicitWork.DrainLeavesInFlight | crates/app_runtime/src/analysis_scheduler.rs:882-908 | unless the batch is full, all that stays queued is in flight |
| ExplicitWork.DrainedAreReady | crates/app_runtime/src/analysis_scheduler.rs:882-908 | the buffer gains exactly the first queued tracks that are neither in flight nor buffered, each once, as many as fit |
| ExplicitWork.ReadyIdsAre | crates/app_runtime/src/analysis_scheduler.rs:882-908 | these are all the ready tracks, no track twice |
| ExplicitWork.PromotionConserves | crates/app_runtime/src/analysis_scheduler.rs:865-880 | background items give way exactly when explicit work is queued, and no explicit id is lost between queue and buffer |
| ExplicitWork.ExplicitOnlyIds | crates/app_runtime/src/analysis_scheduler.rs:874-878 | keeping explicit items keeps exactly the explicit ids |
| AnalysisSupervisor.Supervisor.DrainReadyExplicitWork | crates/app_runtime/src/analysis_scheduler.rs:882-908 | the loop over the deque computes the specified promotion |
| AnalysisSupervisor.Supervisor.PrioritizeExplicitWork | crates/app_runtime/src/analysis_scheduler.rs:865-880 | the same with background items dropped first; no track that is in flight enters the buffer |
| SupervisorBuffer.PrioritizedWellFormed | crates/app_runtime/src/analysis_scheduler.rs:865-908 | promotion keeps the buffer all-explicit or all-background, its ids distinct, every mask nonempty, and adds no track that is in flight |
| AnalysisSupervisor.Supervisor.DiscardPool | crates/app_runtime/src/analysis_scheduler.rs:580-604 | a teardown clears the in-flight set and puts buffered explicit items in front of the queue; old outcomes may still be unread |
| SupervisorPromises.TeardownKeepsOrder | crates/app_runtime/src/analysis_scheduler.rs:580-606 | after a teardown and the promotion, the buffer holds the first sixteen ready tracks of what was buffered and then queued, in that order |
| AnalysisSupervisor.Supervisor.ApplyCommand | crates/app_runtime/src/analysis_scheduler.rs:1088-1156 | each command changes just its part; only a changed BPM range or resource usage tears the pool down |
| AnalysisSupervisor.Supervisor.QueueRequests | crates/app_runtime/src/analysis_scheduler.rs:1122-1150 | appends the requested tracks that were not queued when the request came, in its order |
| SupervisorBuffer.NewRequestsIds | crates/app_runtime/src/analysis_scheduler.rs:1135-1149 | every requested track is queued afterwards, none that already was is added |
| SupervisorBuffer.QueueStaysDistinctIff | crates/app_runtime/src/analysis_scheduler.rs:1129-1149 | the queue stays free of repeats exactly when the request repeats no track it adds, and apart from the buffer exactly when it adds no buffered track |
| SupervisorBuffer.RequestRepeats | crates/app_runtime/src/analysis_scheduler.rs:1129-1149 | one request queues a track twice, and one that is buffered already |
| AnalysisSupervisor.Supervisor.ApplyOutcome | crates/app_runtime/src/analysis_scheduler.rs:950-987 | a rejected write stays in flight, is not counted, and the first one is remembered; any other outcome is counted once; a track loses its tracking exactly when a counted outcome of an earlier pool finds it out again |
| SupervisorPromises.OutcomeIsRead | crates/app_runtime/src/analysis_scheduler.rs:915-932 | an outcome that comes in is logged and told at once and frees its track, a rejected write is only logged |
| SupervisorPromises.ReadingAllFrees | crates/app_runtime/src/analysis_scheduler.rs:989-1001 | all outcomes that are in are read: with no old outcome and no rejected write about, the tracks still in flight are those without one |
| SupervisorBuffer.TrackedMeans | crates/app_runtime/src/analysis_scheduler.rs:547-561 | the tracking, with no track set aside: buffer and in-flight set are disjoint and every track with an unread outcome was handed over once and is in flight |
| SupervisorBuffer.FoldingKeepsTracking | crates/app_runtime/src/analysis_scheduler.rs:950-987 | folding an outcome of the current pool keeps every track with at most one worker, and a rejected one keeps the pool from looking quiet |
| SupervisorBuffer.StragglerUntracksIff | crates/app_runtime/src/analysis_scheduler.rs:975-982 | an outcome of an earlier pool untracks its track exactly when that is out again, and no other |
| SupervisorBuffer.FrontChangesIff | crates/app_runtime/src/analysis_scheduler.rs:780-797 | promotion puts another item in front of the one just read exactly when that one is background and some queued track is not in flight |
| SupervisorBuffer.BufferedAgainIff | crates/app_runtime/src/analysis_scheduler.rs:780-797 | the track just read is buffered again behind the front exactly when it is background and is among the first ready tracks of the queue that fit, but not the very first |
| SupervisorBuffer.SendKeepsDispatchIff | crates/app_runtime/src/analysis_scheduler.rs:780-847 | sending the item read before promotion keeps each track with one worker exactly when its track was not requested behind another ready one |
| SupervisorBuffer.SendTracks | crates/app_runtime/src/analysis_scheduler.rs:829-836 | a send leaves every other track tracked, and its own unless it is buffered once more |
| SupervisorBuffer.RaceLosesAndDoubles | crates/app_runtime/src/analysis_scheduler.rs:780-847 | a state where the race drops an explicit item unsent and buffers a track that a worker has |
| AnalysisSupervisor.Supervisor.HandOver | crates/app_runtime/src/analysis_scheduler.rs:799-847 | drops the front, or hands the item over that was read, or leaves all as it was |
| AnalysisSupervisor.Supervisor.DispatchOne | crates/app_runtime/src/analysis_scheduler.rs:780-847 | one attempt as specified: the front is read, a command let in, the queue promoted, and the item that was read handed over |
| SupervisorFailures.AttemptSends | crates/app_runtime/src/analysis_scheduler.rs:780-847 | an attempt sends exactly the item it read, exactly if that is to be analyzed at all, is still in the store and the channel has room |
| SupervisorFailures.AttemptDoublesIff | crates/app_runtime/src/analysis_scheduler.rs:780-847 | what it sends is buffered again exactly when its track was also requested behind another ready one |
| SupervisorFailures.LosesRequestIff | crates/app_runtime/src/analysis_scheduler.rs:780-847 | it throws a requested track away unsent exactly when the item read was requested and is gone from the store, or was background work while a queued track was ready, unless the channel is full |
| SupervisorPromises.DispatchTakesCommand | crates/app_runtime/src/analysis_scheduler.rs:780-792 | a command that waits is taken before anything is sent, and a shutdown ends the dispatch |
| SupervisorPromises.FullChannelEndsDispatch | crates/app_runtime/src/analysis_scheduler.rs:838-846 | a full channel ends the dispatch with nothing more sent and nothing requested lost |
| AnalysisSupervisor.Supervisor.DispatchPending | crates/app_runtime/src/analysis_scheduler.rs:780-847 | the loop goes on until the buffer is empty, the channel is full, the pool is gone or a shutdown comes |
| SupervisorBuffer.RefillKeepsEnough | crates/app_runtime/src/analysis_scheduler.rs:726-745 | asking for room plus the in-flight count keeps at least the room, or every needy track not in flight |
| SupervisorSoundness.SweptIsSound | crates/app_runtime/src/analysis_scheduler.rs:726-745 | the sweep buffers distinct needy tracks that are not in flight: a batch of them, or all |
| AnalysisSupervisor.Supervisor.Refill | crates/app_runtime/src/analysis_scheduler.rs:716-758 | explicit work first; the sweep runs whenever no explicit work is queued and a capability is on |
| SupervisorPromises.IdlesWhenDone | crates/app_runtime/src/analysis_scheduler.rs:716-770 | with an empty buffer a turn idles exactly when nothing is queued or in flight and no capability is on or the store finds no track in need |
| SupervisorPromises.BlocksWithNothingLeft | crates/app_runtime/src/analysis_scheduler.rs:760-862 | with a path and a store that answers, it blocks for a command only once nothing is queued, buffered or in flight |
| SupervisorPromises.StoreFailureEndsTurn | crates/app_runtime/src/analysis_scheduler.rs:673-681 | a store that cannot tell the size stops the turn: the pool goes and nothing is tried before a command |
| SupervisorPromises.SweepFailureEndsTurn | crates/app_runtime/src/analysis_scheduler.rs:746-757 | so does a sweep that fails |
| AnalysisSupervisor.Supervisor.NothingToDispatch | crates/app_runtime/src/analysis_scheduler.rs:640-667 | reads what has come in, then idles or waits, as specified |
| SupervisorPromises.RestingIdlesIff | crates/app_runtime/src/analysis_scheduler.rs:640-667 | it idles exactly when nothing is in flight once the outcomes are read; only that drops a buffered request, exactly then and without a path; with no straggler about it never hides a rejected write |
| SupervisorFailures.PathlessIdleDropsRequest | crates/app_runtime/src/analysis_scheduler.rs:640-667 | a run in which a buffered request is gone from buffer and queue, never sent, once the path goes away |
| SupervisorFailures.StragglerDoublesTrack | crates/app_runtime/src/analysis_scheduler.rs:580-604 | a run with a changed resource usage in which a straggler untracks a track and a third request gives it to a second worker |
| SupervisorFailures.StragglerHidesRejection | crates/app_runtime/src/analysis_scheduler.rs:957-968 | a run in which a straggler's rejected write is remembered with nothing in flight, so that idling comes before its report |
| AnalysisSupervisor.Supervisor.StopOnRejectedWrite | crates/app_runtime/src/analysis_scheduler.rs:617-630 | forgets all outcomes and in-flight tracks, reports, and takes only a command |
| SupervisorPromises.RejectionEndsTurn | crates/app_runtime/src/analysis_scheduler.rs:617-630 | a rejected write that is remembered is told right after the commands, then one more command ends the turn; buffer and queue stay |
| AnalysisSupervisor.Supervisor.SnapshotRunTotal | crates/app_runtime/src/analysis_scheduler.rs:1013-1032 | the size is taken of what is queued and, with a capability on, what the store finds; only a failing store gives none |
| SupervisorPromises.TurnTellsSize | crates/app_runtime/src/analysis_scheduler.rs:670-681 | every size told is the number of distinct tracks queued at that moment or needy, the needy ones only while a capability is on, capped at 32 bits; and no track is sent in a run before one was told |
| SupervisorPromises.TurnTakesSize | crates/app_runtime/src/analysis_scheduler.rs:670-681 | one is told exactly when there is work, no size yet and the store answers, at once after the top of the loop |
| SupervisorPromises.SizeCountsAllIff | crates/app_runtime/src/analysis_scheduler.rs:606-681 | it counts all the work at hand exactly when each buffered explicit track is queued once more or needy |
| SupervisorPromises.RequestIsUncounted | crates/app_runtime/src/analysis_scheduler.rs:606-681 | a turn in which a request makes a run of size zero |
| AnalysisSupervisor.Supervisor.EmitIdle | crates/app_runtime/src/analysis_scheduler.rs:1003-1011 | tells the counts and starts new ones |
| AnalysisSupervisor.Supervisor.TopOfRound | crates/app_runtime/src/analysis_scheduler.rs:562-606 | commands up to a shutdown, then the teardown and the promotion |
| SupervisorPromises.TurnTakesCommands | crates/app_runtime/src/analysis_scheduler.rs:562-574 | a turn first takes the waiting commands in order, and at a shutdown stops there |
| SupervisorPromises.QuietTurnSendsRequests | crates/app_runtime/src/analysis_scheduler.rs:562-862 | when nothing gets in the way, every requested track that is queued, buffered or requested by the turn's own commands goes out in that turn, unless it is in flight |
| SupervisorPromises.QuietTurnSweeps | crates/app_runtime/src/analysis_scheduler.rs:670-847 | with nothing requested, such a turn sends sixteen needy tracks not in flight, or all there are |
| SupervisorPromises.PathlessTurnSendsNothing | crates/app_runtime/src/analysis_scheduler.rs:631-640 | without a library path nothing is sent |
| SupervisorPromises.RequestIsNotLost | crates/app_runtime/src/analysis_scheduler.rs:520-862 | from when it was taken until the log tells that it was sent as asked or dropped, a requested track is queued or buffered |
| SupervisorSoundness.TurnEndsWell | crates/app_runtime/src/analysis_scheduler.rs:562-862 | whatever a turn meets, the log goes on and stays lawful, and queue, buffer and tracking stay sound |
| AnalysisSupervisor.Supervisor.Round | crates/app_runtime/src/analysis_scheduler.rs:562-862 | the loop body does what the turn is specified to do; by the log, a remembered rejected write is told, and the run's size is that of the tracks queued once the commands are taken, or needy, with nothing ever sent in a run without one |
| AnalysisSupervisor.Supervisor.Run | crates/app_runtime/src/analysis_scheduler.rs:520-862 | so do any number of turns, and the log they leave is lawful: what is sent goes to no track in flight but one buffered again as it was sent; the set is cleared only for a teardown or a rejected write; idling is told only with nothing in flight; every counted outcome is told at once with the run's counts |
| SupervisorLog.LogTracks | crates/app_runtime/src/analysis_scheduler.rs:547-561 | in such a log every track with an unread outcome is out once and in flight, but for those spoiled since the in-flight set was last cleared |
| SupervisorLog.SecondWorkerHasCause | crates/app_runtime/src/analysis_scheduler.rs:780-847 | a track is sent while an earlier hand-over of it is unread only if, since the last clearing, it was buffered again as it was sent or a straggler's outcome was counted for it while it was out |
| SupervisorLog.UndisturbedTrackHasOneWorker | crates/app_runtime/src/analysis_scheduler.rs:547-561 | a track nobody requests never has two workers while nobody changes settings or resource usage |
| SupervisorLog.IdleFindsNobodyWorking | crates/app_runtime/src/analysis_scheduler.rs:646-655 | whenever idling is told no worker has a track, but for those spoiled |
| SupervisorLog.RejectedWriteStopsDispatch | crates/app_runtime/src/analysis_scheduler.rs:617-630 | in such a log, between a rejected write and the next dispatch the error was reported and then a command was taken |
| SupervisorLog.SentAsRequested | crates/app_runtime/src/analysis_scheduler.rs:799-812 | a track goes out as asked only with capabilities it was requested with before, and otherwise with the live ones, never with none |
| SupervisorLog.WorkersAreCurrent | crates/app_runtime/src/analysis_scheduler.rs:684-704 | whoever gets a track was spawned for the resource usage and the BPM range in force |
| SupervisorLog.SentAfterSnapshot | crates/app_runtime/src/analysis_scheduler.rs:670-681 | nothing is sent in a run before its size was taken |
| SupervisorLog.SnapshotCounts | crates/app_runtime/src/analysis_scheduler.rs:1013-1032 | that size is the number of distinct tracks queued, each of them requested before, or needy while a capability is on, capped at 32 bits |
| SupervisorLog.OwedUntilAnswered | crates/app_runtime/src/analysis_scheduler.rs:520-862 | a request stays owed until its track is sent as asked, dropped as the item in front, or the buffer is emptied for want of a path |
| SupervisorLog.CountsOfRun | crates/app_runtime/src/analysis_scheduler.rs:950-1011 | the counts are the numbers of outcomes of each kind since the last idle report, capped at 32 bits |
| SupervisorLog.ReportsTellTheRun | crates/app_runtime/src/analysis_scheduler.rs:950-1011 | every tick and idle report tells exactly what finished in its run so far, rejected writes not counted, with the snapshot as total unless more was done |
| SupervisorLog.ReportsNeverFall | crates/app_runtime/src/analysis_scheduler.rs:950-1011 | during a run no number told ever falls, the total included |
| DevicePlan.PlanRuntime.BeginRequest | crates/app_runtime/src/device_sync.rs:479-490 | a new generation with a pending cache entry for this mount, or none left to give |
| DevicePlan.PlanRuntime.ContinueCall | crates/app_runtime/src/device_plan_scheduler.rs:116-159 | each access of a request or invalidation: refused, and shown as unavailable, exactly when no worker could be had or a shutdown came, checked before storing and again before queueing; otherwise its generation becomes the latest and its job replaces the waiting one; an invalidation leaves nothing waiting or shown |
| DevicePlan.PlanRuntime.DeliverResult | crates/app_runtime/src/device_sync.rs:527-539 | a result is applied exactly when generation and mount are those of the cache |
| DevicePlan.PlanRuntime.TakeJob | crates/app_runtime/src/device_plan_scheduler.rs:183-198 | the worker takes the one waiting job, or ends on shutdown |
| DevicePlan.PlanRuntime.CheckBeforePublishing | crates/app_runtime/src/device_plan_scheduler.rs:200-212 | publishes only what was not cancelled at the last check |
| DevicePlan.PlanRuntime.ContinueShutdown | crates/app_runtime/src/device_plan_scheduler.rs:161-178 | shut down, the worker is gone and no result is left |
| DevicePlan.PlanRuntime.Step | crates/app_runtime/src/device_plan_scheduler.rs:116-214 | every step of every thread does what it is specified to do, and one that is not due nothing |
| DevicePlan.RequestIsServed | crates/app_runtime/src/device_plan_scheduler.rs:116-214 | a request that nothing comes between, with a live worker at rest and no shutdown, ends with its plan ready for its generation and mount |
| DevicePlan.PlanRuntime.Run | crates/app_runtime/src/device_plan_scheduler.rs:116-214 | under every interleaving a ready plan was computed by the job of the cache's generation and mount, jobs ran in strictly increasing generations, and no plan shown as pending is lost unless a task panicked, after which no job runs; the state is that of the schedule's steps one after the other |
| DeviceSync.SyncRuntime.AcceptRun | crates/app_runtime/src/device_sync_scheduler.rs:139-156 | a run starts exactly when none is active, under the next id |
| DeviceSync.SyncRuntime.ResetFlag | crates/app_runtime/src/device_sync_scheduler.rs:157 | cancellation asked for earlier is forgotten |
| DeviceSync.SyncRuntime.SpawnThread | crates/app_runtime/src/device_sync_scheduler.rs:159-190 | the thread is the run's, or the run is given up and released |
| DeviceSync.SyncRuntime.ReceiveEvent | crates/app_runtime/src/device_sync.rs:645-664 | a finished run goes on to be applied exactly when it is the active one |
| DeviceSync.SyncRuntime.ApplyCompletion | crates/app_runtime/src/device_sync.rs:668-702 | the manifest is saved for an authoritative outcome the store takes |
| DeviceSync.SyncRuntime.Acknowledge | crates/app_runtime/src/device_sync_scheduler.rs:195-212 | the run is released once its thread has ended |
| DeviceSync.SyncRuntime.FinishShutdown | crates/app_runtime/src/device_sync_scheduler.rs:216-231 | no run, thread or event is left |
| DeviceSync.SyncRuntime.Step | crates/app_runtime/src/device_sync_scheduler.rs:118-231 | every step of every thread does what it is specified to do, and one that is not due nothing |
| DeviceSync.SyncIsServed | crates/app_runtime/src/device_sync_scheduler.rs:118-231 | a sync that nothing comes between runs, is applied once with its manifest saved if authoritative and taken, and is released |
| DeviceSync.BlockedStays | crates/app_runtime/src/device_sync_scheduler.rs:164-178 | while a panicked run is active no schedule without a shutdown starts another |
| DeviceSync.SyncRuntime.Run | crates/app_runtime/src/device_sync_scheduler.rs:118-231 | every interleaving extends the log lawfully; an active run is still working, its completion is waiting, or its task panicked, and then it stays active and no run starts until a shutdown |
| DeviceSync.PanicBlocksStarts | crates/app_runtime/src/device_sync_scheduler.rs:164-178 | one panicking task blocks every later start, whatever else happens before a shutdown |
| DeviceSync.CancellationIsMeant | crates/app_runtime/src/device_sync_scheduler.rs:119-191 | a run sees a cancellation only if it was asked for after that run's own start reset the flag |
| DeviceSync.RunIdsIncrease | crates/app_runtime/src/device_sync_scheduler.rs:139-212 | run ids strictly increase, and each run is released before the next one starts |
| DeviceSync.AppliedAtMostOnce | crates/app_runtime/src/device_sync.rs:656-704 | each run's completion is applied at most once, never after a later run started and never after its own release |
| Selection.Resolver.ResolveOne | crates/app_runtime/src/device_sync.rs:998-1022 | a track already listed, newly listed, skipped, or a store failure |
| Selection.Resolver.ResolveIndices | crates/app_runtime/src/device_sync.rs:985-1028 | a list's positions name its resolvable ids in order, repeats kept; it is cancelled exactly when the answer to one of its questions is yes, and fails otherwise exactly when the store fails for one of its ids |
| Selection.Resolver.ResolveNext | crates/app_runtime/src/device_sync.rs:994-1026 | one more id of a list keeps positions, tracks and map in step |
| Selection.BuildNext | crates/app_runtime/src/device_sync.rs:922-974 | a known playlist or an artist with tracks is resolved, others are skipped; cancelled and failing as its list is |
| Selection.BuildRequest | crates/app_runtime/src/device_sync.rs:913-983 | every list that is known gets its name and positions, over one track list in first-seen order; it asks whether it is cancelled at the start, before each item and before each track, and is cancelled exactly when one answer is yes, up to the first failure; else it fails exactly when the store fails for a listed track |
| Selection.RequestIsMinimal | crates/app_runtime/src/device_sync.rs:913-983 | ids are pairwise distinct, in first-seen order, and every track is used by some playlist |
| Selection.FirstSeenOrder | crates/app_runtime/src/device_sync.rs:998-1022 | first-seen order, read independently |
| CivilDate.EraIsFloor | crates/app_runtime/src/device_sync.rs:1210 | the truncating era division equals floor division |
| CivilDate.YearOfEra | crates/app_runtime/src/device_sync.rs:1212 | the year-of-era formula, from century, cycle, year and day |
| CivilDate.FormulaFindsMarchYear | crates/app_runtime/src/device_sync.rs:1208-1214 | the formula finds the March-based year and the day in it |
| CivilDate.ResultIsValid | crates/app_runtime/src/device_sync.rs:1207-1220 | month and day are valid for the year |
| CivilDate.ConsecutiveDays | crates/app_runtime/src/device_sync.rs:1207-1220 | consecutive days give consecutive dates |
| CivilDate.FormulaIsCalendar | crates/app_runtime/src/device_sync.rs:1207-1220 | for every second count, the proleptic Gregorian date that many whole days from 1970-01-01 |
| CivilDate.NothingOverflows | crates/app_runtime/src/device_sync.rs:1207-1220 | no intermediate value leaves 64 bits for any 64-bit second count |
| Trash.EncodeUriPath | crates/app_runtime/src/freedesktop_trash.rs:261-271 | the encoder's output decodes to the original bytes and stays on one line |
| Trash.EncodingRoundTrip | crates/app_runtime/src/freedesktop_trash.rs:261-271 | percent decoding (section 2.1 of RFC 3986) inverts the encoding for every byte string |
| Trash.InfoReadsBack | crates/app_runtime/src/freedesktop_trash.rs:216-223 | who reads the info file line by line finds its heading, the original path and the date of deletion, and nothing else |
| Trash.AttemptNames | crates/app_runtime/src/freedesktop_trash.rs:240-246 | the first attempt uses the original name, the following ones the same with .2, .3 and so on behind it |
| Trash.AttemptsDiffer | crates/app_runtime/src/freedesktop_trash.rs:240-246 | no two attempts use the same name |
| Trash.Directories.CreateInfo | crates/app_runtime/src/freedesktop_trash.rs:205-233 | an info file is created only under a free name |
| Trash.Directories.RenameToData | crates/app_runtime/src/freedesktop_trash.rs:64-74 | the rename takes a free data name, never a taken one |
| Trash.Directories.RollBack | crates/app_runtime/src/freedesktop_trash.rs:101-114 | the wrong file goes back if its name is free, and stays where it is otherwise |
| Trash.Directories.Verify | crates/app_runtime/src/freedesktop_trash.rs:75-93 | an entry is kept only if it is the retained inode; what cannot be opened stays without its info file, a wrong file goes back exactly when its name is free and loses its info file, and a failed last step leaves both |
| Trash.Directories.Attempt | crates/app_runtime/src/freedesktop_trash.rs:53-93 | a quiet attempt collides exactly under a taken name, and otherwise ends by what the source name holds |
| Trash.Directories.TrashRegularFile | crates/app_runtime/src/freedesktop_trash.rs:41-114 | no entry of others is ever changed or removed and any watched file stays reachable; success puts the retained inode under exactly one new name, with an info file that reads back to the path and the date; names run out only when all are taken; undisturbed, the first free name is taken, and an entry without info file is left exactly when the source name holds no regular file |
| Trash.IrregularEntryIsOrphaned | crates/app_runtime/src/freedesktop_trash.rs:75-82 | a state in which an entry ends in the trash without an info file |
| Decode.PushFrames | crates/analysis/src/decode.rs:286-301 | multi-channel packets: whole frames are averaged, skipped or kept until the cap |
| Decode.PushSamples | crates/analysis/src/decode.rs:275-285 | single-channel packets likewise |
| Decode.Average | crates/analysis/src/decode.rs:290-296 | the samples of a frame, added up and divided by their number |
| Decode.StereoIsAveraged | crates/analysis/src/decode.rs:286-301 | of two channels, the half of their sum |
| Decode.OthersDoNotCount | crates/analysis/src/decode.rs:246-258 | packets of other tracks and corrupt ones do not change what is heard |
| Decode.SoundIsJoined | crates/analysis/src/decode.rs:268-301 | packets of the track are heard one after the other |
| Decode.ErrorsEnd | crates/analysis/src/decode.rs:231-265 | an error that cannot be passed over ends the stream there |
| Decode.CollectSamples | crates/analysis/src/decode.rs:218-305 | the decode loop keeps exactly the window of the mono stream; an error counts only if the cap was not reached first |
| AnalysisWindows.WindowsNest | crates/analysis/src/lib.rs:709-714 | on a long track the BPM window starts 180 seconds into the acoustics window |
| AnalysisWindows.AcousticsGivesWindow | crates/analysis/src/lib.rs:647-662 | cut from a whole acoustics window, the BPM window is the one decoded alone |
| AnalysisWindows.AcousticsGivesWindowIff | crates/analysis/src/lib.rs:647-662 | and, unless samples repeat, only a whole one gives it |
| AnalysisWindows.FullGivesWindow | crates/analysis/src/lib.rs:647-662 | so it is when cut from the whole track where the hint places it in the middle |
| AnalysisWindows.FullAgreesIff | crates/analysis/src/lib.rs:722-734 | and, unless samples repeat, only then |
| AnalysisWindows.FullGivesWindowIff | crates/analysis/src/lib.rs:647-662 | as what is heard: only then, or when the track is too short to be analyzed at all |
| AnalysisWindows.NoHintAgreesIff | crates/analysis/src/lib.rs:709-714 | without a hint they agree exactly up to one sample more than the window |
| AnalysisWindows.HintAgreesIff | crates/analysis/src/lib.rs:709-714 | with a hint and a track longer than the window, exactly when the hint measures the track to within two samples |
| AnalysisWindows.ExactHintAgrees | crates/analysis/src/lib.rs:709-714 | an exact hint makes both regions agree |
| AnalysisWindows.Analyzer.BpmKeyAudio | crates/analysis/src/lib.rs:647-662 | the two minutes in the middle of the track by the hint, or of the region that is already decoded, if they are enough; the caches never change what is heard where the regions agree, and larger decodes are never started for it |
| AnalysisWindows.Analyzer.Full | crates/analysis/src/lib.rs:617-624 | all samples of the track, or nothing if decoding broke off |
| AnalysisWindows.Analyzer.AcousticsAudio | crates/analysis/src/lib.rs:626-641 | all of the track, or of a long one the middle eight minutes by the hint; a long track is never decoded whole for it |
| AnalysisWindows.WindowIsHeard | crates/analysis/src/lib.rs:626-662 | a window decoded alone holds the samples of its seconds, or nothing if decoding broke off before its end or they are too few |
| AnalysisWindows.SliceIsMiddle | crates/analysis/src/lib.rs:722-734 | a slice has as many samples of the region before it as behind it, or one more behind |
| AnalysisWindows.Analyzer.Use | crates/analysis/src/lib.rs:617-662 | what each of any calls in any order gives, in terms of the file and the hint |
| AnalysisWindows.SameWhateverTheOrder | crates/analysis/src/lib.rs:617-662 | with an exact hint no history of calls changes what BPM and key hear |
| AnalysisWindows.OrderMattersWithoutHint | crates/analysis/src/lib.rs:647-662 | without a hint, decoding the whole track first changes it |
| AnalysisWindows.OrderMattersPastTheEnd | crates/analysis/src/lib.rs:647-662 | with a hint whose acoustics window reaches past the end of the track, acoustics first changes it |
| Waveform.DetailPartitions | crates/analysis/src/waveform.rs:64-88 | detail segments partition the samples exactly, in order and in bounds |
| Waveform.DetailPeaks | crates/analysis/src/waveform.rs:85-115 | each segment's level is the peak of its share |
| Waveform.LoudestIsKept | crates/analysis/src/waveform.rs:85-121 | the loudest segment is as loud as the loudest sample |
| Waveform.Amplitudes | crates/analysis/src/waveform.rs:117-146 | levels are scaled by the track peak |
| Waveform.AmplitudesScale | crates/analysis/src/waveform.rs:138-146 | amplitudes fit a byte, keep order, put silence at zero and the loudest at the top |
| Waveform.DetailAmplitudes | crates/analysis/src/waveform.rs:39-152 | empty input gives no segments; otherwise each segment shows the loudest sample of its 150th of a second, relative to the loudest of the track, to the nearest 255th, and the loudest sample puts some segment at the top |
| Waveform.QuantizeIsNearest | crates/analysis/src/waveform.rs:138-146 | no other whole number of 255ths is nearer, and of two as near the upper one is taken |
| Waveform.SegmentShows | crates/analysis/src/waveform.rs:85-146 | so for every segment in terms of the samples alone |
| Waveform.BucketsPartition | crates/analysis/src/waveform.rs:172-185 | preview buckets are four hundredths of the detail tier: they partition its segments, sizes differing by at most one |
| Waveform.BucketSegments | crates/analysis/src/waveform.rs:198-221 | the loudest amplitude and the band means of a bucket, rounded down |
| Waveform.BuildPreview | crates/analysis/src/waveform.rs:154-191 | short tracks are copied, longer ones bucketed |
| Waveform.PreviewKeepsLoudest | crates/analysis/src/waveform.rs:154-221 | the preview is exactly as loud as the detail |
| Waveform.PreviewBandsAreMeans | crates/analysis/src/waveform.rs:198-221 | each band lies between the least and the greatest of its bucket |

## Left out

- AnalysisSupervisor.Supervisor.Run: a finite number of turns, and in each turn a finite number of disturbed dispatch attempts, waiting commands and outcomes; every such run is covered.
- AnalysisSupervisor.Supervisor.DispatchOne: the work item's path, clock and duration are not modelled.
- AnalysisSupervisor.Supervisor.WaitForOutcome: outcomes are read in any order, where the channel gives those of an earlier pool first; one that no worker owes is passed over.
- DeviceSync.SyncRuntime.ReceiveEvent: notifications are reduced to whether an event was shown.
- Selection.BuildRequest: which entries a playlist, a smart playlist or an artist has is given, and so are the device, its manifest and the request's other fields; a failed store query before the lists are resolved is not modelled.
- Trash.Directories.RemoveInfo: others do not replace this publication's info file, so the comparison before the unlink always succeeds.
- Decode.CollectSamples: samples are exact reals, so an average is the exact quotient.
- Waveform.DetailAmplitudes: the three band levels of the detail tier are not modelled, because they come from a filter library whose source is not part of this model; nor is the overflow check on the sample count.
- AnalysisWindows.Analyzer.BpmKeyAudio: a reader that can seek lands wherever its container says, and is not modelled; the spectrograms and every estimate made from a window are not modelled.
- CivilDate.FormulaIsCalendar: the formatting of the date as text.
- Machine.Machine.Remove: an inode number is not reused while a journal names it, and directory synchronisation takes effect at once.
- Machine.Machine.Publish: only the immediate parent directory is created on demand.
- Machine.Machine.PublishJournal: the temporary name the journal is written under before it is published, and subdirectories inside the recovery directory.
- Machine.Machine.RemoveJournal: the journal's own rename aside before its unlink is one step with it.
- Machine.Machine.Replace: permissions, times and extended attributes of the replaced file, and outside changes to it while its copy is edited.
- Journal.WriteJournal: its text only; the file it becomes is that of Machine.Machine.PublishJournal.
- Consolidation.CrashThenRecover: the original world again means its names, directories and contents; a file that a crash caught renamed aside next to a source name may still lie there.
- Consolidation.Consolidate: choosing and checking the selected tracks, planning the survivor's metadata and playlists, and reading artwork; the plan is given.
- Consolidation.StageSurvivor: each of the three parts of the tags is one value.
- Outcomes drained while shutting the supervisor down, thread priorities, sleeps and time-outs.
- Permissions of the trash directories and the search for the trash of a mounted volume.
- The graphical interface, notifications, localized text, command routing, and the tools around the application.
