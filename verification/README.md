# trsync: a verified model

trsync keeps a local folder, a Tracim server and a local database in agreement. This
project models the parts of it whose correctness is least obvious and proves what they
keep, step by step and over whole runs. `dafny verify dfyconfig.toml` checks everything.

| files | what they model |
|---|---|
| `Forest.dfy`, `Contents.dfy`, `Disk.dfy` | the content forest read through its parent links, contents as the server describes them, the synchronized folder as a map from relative paths to entries |
| `MemoryState.dfy`, `DiskState.dfy`, `DiskIndex.dfy` | the in-memory state and the database, whose stored paths are an index over the forest; what keeps that index right and what makes it stale |
| `Reducer.dfy`, `ReducerQueue.dfy`, `ReducerMeaning.dfy`, `ReducerUploads.dfy`, `ReducerPlaces.dfy`, `ReducerCancel.dfy`, `ReducerMarks.dfy`, `ReducerDrain.dfy`, `LocalReceiver.dfy` | the disk-event reducer and its receiver, the fate of every raw event, and the meaning of the queue before and after reduction, with its uploads and its cancelled files |
| `Executors.dfy`, `DiskAttempts.dfy`, `Operator.dfy`, `OperatorRuns.dfy`, `OperatorCalls.dfy`, `RemoteEvents.dfy` | one event handled by the operator: executors acting on the disk, bounded retry, deferred state changes, planned ignores; the database invariant over runs, what each remote event does to rows and disk, and which of the watcher's events are skipped afterwards |
| `OperateChanges.dfy`, `Creation.dfy`, `CreationRuns.dfy` | the rounds that apply startup changes again until no progress is made |
| `RemoteSync.dfy`, `Startup.dfy`, `DiskMoves.dfy`, `StartupAnchors.dfy`, `StartupFolders.dfy`, `StartupStale.dfy`, `StartupWitness.dfy`, `StartupOrder.dfy`, `Disappearances.dfy` | the filtering of the server's listing, the comparison with the database, when the startup synchronization converges and when it does not, and which orders of changes can succeed |
| `Daemon.dfy` | the manager's reconciliation of runners with its configuration |
| `Text.dfy`, `Ignore.dfy`, `SpaceRun.dfy` | the ignore file: rendering, parsing, writing without truncation, and the loop that feeds it |

How the outside world is modelled. An `Oracle` gives, for each interaction in turn, what
the server and the disk answer: every theorem holds for every oracle unless it names a
condition on it. The disk is a map from paths to directories and plain files; a rename
refuses a target below its source. The database is a map from ids to rows whose statements
fail as a whole when an id or a path would be repeated. Classes (`MemoryState`,
`DiskState`, `LocalReceiverReducer`, `Operator`, `OperateChanges`, `Daemon`, `Ignore`) hold
the state that the program updates in place, and each of their methods is proved against a
function of the old state; the lemmas are about those functions.

Where the code and its comments or the expected behaviour disagree, the model follows the code:

* A modification absorbed by a rename is never uploaded (`ReducerMeaning.UploadLost`), the
  event after a cancelled creation overtakes the skipped ones
  (`ReducerMeaning.CancellationOvertakes`), so that an upload can go to another file
  (`ReducerMarks.UploadGoesElsewhere`), and an event can stay parked in the queue when
  nothing is handed out (`ReducerQueue.ParkedEventExists`).
* A timeout of the server loses its kind on its way through an executor that acts on the
  disk, so such an executor is attempted once.
* After an update that moves a content and downloads it, the modification is planned at the
  old path, so that the one the watcher reports at the new path is handled as if the user
  had made it (`RemoteEvents.OwnDownloadIsNotSkipped`).
* While a folder is created, its ancestors are looked up relative to the directory of the
  process, and the empty path is planned as created every time.
* A content whose stored parent is not a folder on disk at its stored path is taken for an
  attachment and silently passed over. After a folder has moved, that is the case below all
  its stored subfolders (`Startup.MovedFolderHidesSubfolders`), so that startup can succeed
  without converging (`StartupWitness.SucceedsWithoutConverging`);
  `StartupFolders.TidyStartupConverges` gives a condition under which it does converge, and
  `StartupStale.MovedFolderPreventsConvergence` one under which it does not.
* An update into a folder that is new later in the list aborts the startup, while a new
  content in the same place is tried again (`StartupOrder.UpdatesFollowParents`).
* Writing the ignore file over a longer hand-written one can lose the pushed id and add a
  false one (`Ignore.LongerFileLosesId`); `Ignore.WriteReadsBack` says exactly when.
* A workspace configured twice is started twice, and the first runner can no longer be
  stopped (`Daemon.DuplicateLosesRunner`, `Daemon.EnsureTracks`).

## Model

| member | source | states |
|---|---|---|
| LocalReceiver.LocalReceiverReducer.TryRemove | trsync/src/util.rs:22-30 | takes the first event, or nothing from an empty queue |
| LocalReceiver.LocalReceiverReducer.NextEvent | trsync/src/local/reducer.rs:43-177 | the nested loops over the queue compute exactly the scan that the lemmas of ReducerQueue and ReducerMeaning are about; what is handed out is the last event taken as head as it has become, and what is left are the skipped events in order |
| LocalReceiver.LocalReceiverReducer.Recv | trsync/src/local/reducer.rs:23-37 | reduces what is queued and waiting, then, as long as nothing can be handed out, the events skipped together with the next delivery; it ends with the event of the first queue that makes one, or when the channel is closed, and keeps the events skipped and the later deliveries |
| ReducerQueue.EveryCallShortens | trsync/src/local/reducer.rs:44-62 | every call on a non-empty queue strictly shortens it, also when it hands out nothing |
| ReducerQueue.Drain | trsync/src/local/reducer.rs:43-177 | repeated calls empty the queue and hand out at most one event for each raw one |
| ReducerQueue.EveryEventAccountedFor | trsync/src/local/reducer.rs:50-176 | the queue left is the selection, in order, of the events that neither became head nor touched the file followed when they were read; the stored path is the source of the last event taken as head; the handed-out event carries that event's file followed through every rename; nothing is handed out exactly when the last event cancels a created head |
| ReducerQueue.ParkedEventExists | trsync/src/local/reducer.rs:175-176 | nothing can be handed out although skipped events remain |
| ReducerMeaning.ReducingKeepsMeaning | trsync/src/local/reducer.rs:43-177 | on every queue that fits the mirror, whose head is not cancelled and where no event skipped before the last absorbed one interferes with the head's file, the calls made for the handed-out event fit the mirror, and followed by the rest they give the same files as the raw queue; uploads agree too, except one absorbed by a rename of a head that began as a rename; ReducerCancel.CancellingKeepsMeaning is the result with cancelled heads |
| ReducerMeaning.UndisturbedIsExact | trsync/src/local/reducer.rs:43-177 | on queues that do not mix a folder with its inside, that condition is exact: the reduced events fit the mirror if and only if it holds |
| ReducerCancel.ReduceAny | trsync/src/local/reducer.rs:56-62 | what any queue is reduced to, cancelled heads included: the event that the last head becomes, and the events skipped before it followed by those it leaves |
| ReducerCancel.CancelledLeaveNoTrace | trsync/src/local/reducer.rs:56-62 | a created file that is deleted again leaves no trace: the raw queue does what the events skipped meanwhile followed by the last run do |
| ReducerCancel.CancellingKeepsMeaning | trsync/src/local/reducer.rs:43-177 | with cancelled heads, when the events overtaken are away from the last head's file, the calls fit, the same paths hold files, and the same uploads are pending unless the last head loses one |
| ReducerCancel.ReducibleIsExact | trsync/src/local/reducer.rs:43-177 | on all queues that do not mix a folder with its inside, the reduced events fit the mirror if and only if the last run is undisturbed and its calls may overtake the events skipped before it, and then the same paths hold files |
| ReducerCancel.TouchOvertakesTouch | trsync/src/local/reducer.rs:56-62 | the condition is not simply that the overtaken events concern other files: a modification may overtake another one of the same file |
| ReducerPlaces.RunShown | trsync/src/operation/operator.rs:165-187 | what fits a mirror and what a run makes of it depend only on which paths hold files and on their pending uploads |
| ReducerMeaning.DrainingKeepsMeaning | trsync/src/local/reducer.rs:43-177 | handing out everything brings the mirror exactly where the raw queue brings it, when every queue the reducer leaves is undisturbed |
| OperatorCalls.ExecutorsMakeTheCalls | trsync/src/operation/operator.rs:165-187 | for every event handed out, the executors chosen make exactly the calls on the server that these results are about, in that order, up to naming a file as it is named already |
| OperatorCalls.DrainedCalls | trsync/src/operation/operator.rs:165-187 | so the calls for everything handed out bring the files of the server where the raw events bring them |
| ReducerDrain.DrainingRawQueue | trsync/src/local/reducer.rs:43-177 | the same from a condition on the raw queue alone: each event, taken as head of those that follow it, is neither cancelled nor disturbed and loses no upload |
| ReducerUploads.UploadIsExact | trsync/src/local/reducer.rs:150-153 | on undisturbed queues that do not mix a folder with its inside, the reduced events give the same mirror as the raw ones if and only if no rename absorbed a modification of a file that had no upload pending before |
| ReducerMarks.MarksAreExact | trsync/src/local/reducer.rs:56-62 | with cancelled heads too, when the reduced events fit: the same uploads are pending on the same paths if and only if no rename forgot one in the last run, or, for a last head that only modifies its file, the file it marks before the overtaken events is the one it should mark, or both files are marked anyway |
| ReducerMarks.UploadGoesElsewhere | trsync/src/local/reducer.rs:56-62 | a queue that fits when reduced, but whose modification marks the file that has been renamed away instead of the one that came in its place |
| ReducerMeaning.UploadLost | trsync/src/local/reducer.rs:150-153 | a rename followed by a modification: the files agree, the upload is missing |
| ReducerMeaning.CancellationOvertakes | trsync/src/local/reducer.rs:56-62 | after a cancellation the next head overtakes the creation of its own file, so its call cannot succeed |
| Forest.PathStep | trsync/src/state/memory.rs:67-85 | the path of a content is its parent's path with its name added, and there is none for an absent content |
| Forest.PathDefined | trsync/src/state/memory.rs:67-85 | in an acyclic parent-closed state the walk ends with a path one longer than the number of ancestors, ending with the content's name |
| Forest.PathsDistinct | trsync/src/state/memory.rs:52-64 | with unique sibling names, contents with the same path are the same content |
| Forest.PathUnder | trsync/src/state/mod.rs:86-99 | the path of a strict descendant properly extends the path of the folder |
| Forest.RemoveSubtree | trsync/src/state/mod.rs:86-99 | removing a content with all its descendants leaves a forest, every remaining path and every remaining ancestor relation unchanged |
| Forest.AddLeaf | trsync/src/state/memory.rs:117-127 | adding a fresh content below a present parent leaves a forest and no earlier path changes |
| Forest.Reparent | trsync/src/state/memory.rs:129-148 | moving a content outside its own subtree leaves a forest; exactly the paths inside the subtree change, in their leading part only |
| Forest.AcyclicMeansNoLoop | trsync/src/state/memory.rs:74-82 | all walks through the parents end if and only if no content is its own ancestor |
| MemoryState.MemoryState.New | trsync/src/state/memory.rs:20-40 | refused if and only if a content names an absent parent, and the error names such a parent |
| MemoryState.MemoryState.Path | trsync/src/state/memory.rs:67-85 | the loop over the parents ends with the recursive path, or with an unexpected error exactly when the content or an ancestor is absent |
| MemoryState.MemoryState.ContentIdForPath | trsync/src/state/memory.rs:52-64 | whatever the order of the map, the content with that path is found when siblings have distinct names, and nothing is found only when no content has that path |
| MemoryState.MemoryState.DirectChildrenIds | trsync/src/state/memory.rs:101-108 | exactly the ids of the children, each once |
| MemoryState.MemoryState.Forgot | trsync/src/state/memory.rs:110-115 | removes one content; an error exactly when it was absent |
| MemoryState.MemoryState.ForgotWithChildren | trsync/src/state/mod.rs:86-99 | on every acyclic parent-closed state the recursion terminates and removes exactly the content and all its descendants; it fails exactly for an absent content |
| MemoryState.MemoryState.Add | trsync/src/state/memory.rs:117-127 | stores the content and its timestamp, replacing an earlier one |
| MemoryState.MemoryState.Update | trsync/src/state/memory.rs:129-148 | rewrites name, revision, parent and timestamp of a known content; an error on an unknown one changes nothing |
| MemoryState.MemoryState.Change | trsync/src/state/mod.rs:58-84 | one change does to the contents what DiskIndex.RunRefines is about, and fails exactly when it names an absent content |
| DiskState.DiskState.Get | trsync/src/state/disk.rs:56-122 | the content named by the last component of the stored path, with the type found on disk at that path; an error exactly for a row that names itself as its parent |
| Disk.TypesByName | core/src/types.rs:54-66 | a folder exactly where a directory is; of the rest, exactly what is named with the ending of html documents is one |
| DiskState.DiskState.ContentIdForPath | trsync/src/state/disk.rs:124-134 | the one content stored under that path |
| DiskState.DiskState.Path | trsync/src/state/disk.rs:136-154 | the loop over the parents ends with the path rebuilt through them, not the stored one; the unknown-content error is for the content itself only |
| DiskState.DiskState.DirectChildrenIds | trsync/src/state/disk.rs:199-212 | exactly the ids of the rows with that parent |
| DiskState.DiskState.Forgot | trsync/src/state/disk.rs:214-219 | removes one row, without an error when there is none |
| DiskState.DiskState.ForgotWithChildren | trsync/src/state/mod.rs:86-99 | on every acyclic parent-closed state the recursion terminates and removes exactly the content and all its descendants, leaving the other rows as they are |
| DiskState.DiskState.Add | trsync/src/state/disk.rs:221-244 | inserts the row, or changes nothing: an error that names the path when it is taken, and an unexpected one when only the id is |
| DiskState.DiskState.Update | trsync/src/state/disk.rs:246-279 | rewrites one row with the path through the new parent, or changes nothing when another content has that path |
| DiskState.DiskState.Change | trsync/src/state/mod.rs:58-84 | applies one modification, or changes nothing and says why |
| DiskState.AddStores | trsync/src/state/disk.rs:221-244 | fails exactly when the path or the id is taken; otherwise the new row holds the path, revision, parent and timestamp asked for and the others stay |
| DiskState.UpdateStores | trsync/src/state/disk.rs:246-279 | fails exactly when another content has the path through the new parent, which is the bare name when that parent has no path; otherwise the row holds that path and the revision, parent and timestamp asked for and the others stay; an unknown id changes nothing |
| DiskState.AddKeepsSound | trsync/src/state/disk.rs:221-244 | a successful insertion below a stored parent keeps paths unique, parents present and the forest acyclic |
| DiskState.UpdateKeepsSound | trsync/src/state/disk.rs:246-279 | so does a successful update whose parent is outside the content's subtree |
| DiskState.ForgetKeepsSound | trsync/src/state/mod.rs:86-99 | so does forgetting a content with its descendants |
| DiskIndex.ExactStaleness | trsync/src/state/disk.rs:246-279 | after an acyclic update from an agreeing state, the walk gives every content its right path while the rows that disagree are exactly the strict descendants of a content whose path changed |
| DiskIndex.UpdateKeepsIndexExactly | trsync/src/state/disk.rs:246-279 | such an update keeps the index if and only if the path is unchanged or the content has no child |
| DiskIndex.AddKeepsIndex | trsync/src/state/disk.rs:221-244 | an insertion with the parent's path plus the name keeps every stored path equal to the rebuilt one |
| DiskIndex.ForgetKeepsIndex | trsync/src/state/mod.rs:86-99 | forgetting a subtree keeps every stored path equal to the rebuilt one |
| DiskIndex.RunRefines | trsync/src/state/disk.rs:214-279 | over every sequence of such changes the database stays sound and agreeing, and holds the contents that the in-memory state holds |
| DiskIndex.LookupsAgree | trsync/src/state/disk.rs:124-134 | on such states the indexed lookup answers like the search through the rebuilt paths |
| Executors.PresentAttempt | trsync/src/operation/executor/disk/present.rs:39-129 | success asks for exactly one insertion, of the content the server described, at its parent's path plus its name, with the parent stored |
| Executors.UpdatedAttempt | trsync/src/operation/executor/disk/updated.rs:36-110 | success asks for exactly one row update, with the name, revision and parent the server described; every failure is an unexpected error, never a missing parent |
| DiskAttempts.AbsentIsExact | trsync/src/operation/executor/disk/absent.rs:30-61 | on every disk that is a tree: the outcome, the disk left, which loses the place of the content exactly when what is there has the type found at the stored path, and the events planned: the deletion of the path, exactly when something is there |
| DiskAttempts.PresentIsExact | trsync/src/operation/executor/disk/present.rs:39-129 | the outcome in every case, the disk left entry by entry, and the events planned: the creation exactly when nothing is at the path, the modification exactly when the file is created and filled, and for a folder every ancestor not found from the directory of the process |
| DiskAttempts.UpdatedIsExact | trsync/src/operation/executor/disk/updated.rs:36-110 | the outcome in every case, the disk left entry by entry, also when the update fails after the move, and the events planned: the renaming exactly when the content is moved, the modification of the old path exactly when a download succeeds |
| DiskAttempts.RenamedIffMoved | trsync/src/operation/executor/disk/updated.rs:63-73 | the renaming from old to new path is planned if and only if the old path was on disk before and is not afterwards |
| Operator.Operator.AbsentFromDisk | trsync/src/operation/executor/disk/absent.rs:30-61 | the effects on disk and on the planned ignores, in the order of the code |
| Operator.Operator.PresentOnDisk | trsync/src/operation/executor/disk/present.rs:39-129 | likewise, with the missing-parent error exactly when the server names a parent that is not stored |
| Operator.Operator.PresentFolder | trsync/src/operation/executor/disk/present.rs:74-100 | the loop over the ancestors plans each one that does not exist relative to the process, then the folders are created |
| Operator.Operator.PresentFile | trsync/src/operation/executor/disk/present.rs:101-119 | creates and fills the file, planning a creation a second time and a modification |
| Operator.Operator.UpdatedOnDisk | trsync/src/operation/executor/disk/updated.rs:36-110 | moves the content when its path changed, downloads it when asked, and plans both events |
| Operator.Operator.Execute | trsync/src/operation/operator.rs:116-130 | one attempt of any executor |
| Operator.Operator.RunExecutors | trsync/src/operation/operator.rs:104-132 | the loops over executors and retries compute the recursive drive that the lemmas of OperatorRuns are about |
| Operator.Operator.ApplyChanges | trsync/src/operation/operator.rs:134-136 | applies the changes one after the other, up to the first that fails |
| Operator.Operator.Operate | trsync/src/operation/operator.rs:89-139 | one event from skip to state changes, as the function that the run lemmas are about |
| Operator.Operator.OperateRemote | trsync/src/operation/operator.rs:89-139 | a remote event needs nothing but a sound database, and leaves one |
| Operator.TargetOutside | trsync/src/operation/executor/disk/updated.rs:51-73 | a new path that is not below the old one means a parent outside the content's own subtree |
| Operator.UpdateIsSound | trsync/src/operation/executor/disk/updated.rs:51-73 | whenever the move on disk succeeds, the row update it asks for keeps the database acyclic and sound |
| Operator.RemoteStepIsOperate | trsync/src/operation/operator.rs:89-139 | a remote event amounts to one attempt of one executor followed by its one change |
| Operator.RemoteEventKeepsSound | trsync/src/operation/operator.rs:89-139 | whatever server and disk answer, a remote event keeps ids and paths unique, parents present and the forest acyclic, and an error leaves the rows as they were |
| Operator.RunKeepsSound | trsync/src/operation/operator.rs:89-139 | so does every sequence of remote events, failing steps included |
| OperatorRuns.RetriesAreBounded | trsync/src/operation/operator.rs:104-132 | success means at most four timeouts over all executors and every change they asked for in order; the maximum is reported after exactly five timeouts; any other error is the last answer |
| OperatorRuns.EffectsAreDeferred | trsync/src/operation/operator.rs:104-138 | a disk event changes nothing on disk by itself; an executor error, which is the last answer or the maximum after five timeouts, leaves the database unchanged; otherwise every executor has succeeded once, and success means that all changes asked for were applied in executor order; a change that fails leaves what the changes before it made |
| OperatorRuns.AppliedUpTo | trsync/src/operation/operator.rs:134-136 | when a change fails, exactly the changes before it stay applied |
| OperatorRuns.PlansAreASet | trsync/src/operation/operator.rs:90-94 | over every run the list holds exactly the events of a ledger kept from the outside: it gains what the executors report and loses what is skipped |
| OperatorRuns.SkippedIffOwed | trsync/src/operation/executor/remote/named.rs:164-188 | after every run an event is skipped, asking nobody and changing neither rows nor disk, if and only if it is in the ledger; one skip settles it however often it was reported |
| RemoteEvents.RemoteEventIsExact | trsync/src/operation/operator.rs:59-139 | a remote event that is not owed a skip fails alone when the server does not know a content said to be created; changes nothing and succeeds when the parent is stored and no folder is on disk at its stored path; and is one attempt and its one change otherwise, an update of an unknown content being its creation |
| RemoteEvents.SuccessFollowsServer | trsync/src/operation/operator.rs:59-139 | when an event other than a disappearance succeeds, either nothing has changed, or the one row has the revision and parent the server lists, the path through that parent and the time read on disk, and no other row has changed |
| RemoteEvents.OwnMoveIsSkipped | trsync/src/operation/executor/disk/updated.rs:63-73 | after an update that moved a content on disk, the event by which the watcher reports the move is skipped, whatever other events come before it |
| RemoteEvents.OwnDownloadIsNotSkipped | trsync/src/operation/executor/disk/updated.rs:75-92 | but the modification of the new path, by which it reports the download, is skipped only if it was owed a skip before |
| RemoteEvents.OwnRemovalIsSkipped | trsync/src/operation/executor/disk/absent.rs:46-51 | the deletion of a content that was on disk and has been forgotten is skipped, whatever comes before it |
| RemoteEvents.OwnCreationIsSkipped | trsync/src/operation/executor/disk/present.rs:66-71 | so is the creation of a content that has become stored where nothing was on disk |
| OperatorRuns.RemotePlansLocal | trsync/src/operation/operator.rs:116-120 | a remote event plans only events of the local disk |
| OperateChanges.OperateChanges.TryOne | trsync/src/run2.rs:408-414 | a change is done, put aside because its parent is missing, or aborts everything |
| OperateChanges.OperateChanges.OneRound | trsync/src/run2.rs:405-416 | the loop over the list computes the round that the lemmas of CreationRuns and Startup are about |
| OperateChanges.OperateChanges.Operate | trsync/src/run2.rs:403-436 | the outer loop terminates with the result and the world of the recursive rounds |
| OperateChanges.RetriesShorten | trsync/src/run2.rs:418-432 | for every list and every behaviour of the world, each retry works on a strictly shorter list |
| Creation.TargetIsForest | trsync/src/operation/executor/disk/present.rs:51-63 | the stored contents together with the grounded ones of the list form a forest in which the stored paths are unchanged |
| Creation.CreateReady | trsync/src/operation/executor/disk/present.rs:39-129 | a content whose parent is stored is created at its place in the target, and nothing else changes |
| Creation.CreateMissing | trsync/src/operation/executor/disk/present.rs:51-58 | a content whose parent is not stored gives the missing-parent error and changes nothing |
| CreationRuns.RoundCreates | trsync/src/run2.rs:405-416 | a round stores at least every content whose parent was stored when it began, and keeps the others in their order |
| CreationRuns.RetryIsExact | trsync/src/run2.rs:403-436 | creating a list of new contents ends with exactly the grounded ones stored, each at its place in the target and beside everything that was there; it succeeds if and only if all are grounded, and otherwise returns exactly the others in their original order; the number of rounds is bounded by the longest chain of listed parents |
| CreationRuns.AcyclicIsGrounded | trsync/src/run2.rs:418-432 | with every parent stored or listed and no cycle among the listed contents, all are grounded |
| CreationRuns.AnyOrder | trsync/src/run2.rs:405-416 | what is required of the list does not depend on its order |
| CreationRuns.OrderDoesNotMatter | trsync/src/run2.rs:403-436 | two orders of the same list give the same outcome, the same rows up to timestamps and the same disk |
| RemoteSync.IsDeleted | trsync/src/sync/remote.rs:113-139 | wherever the walk through the parents ends, it answers no if and only if the content and its whole chain of ancestors are present, undeleted and unarchived |
| RemoteSync.AcyclicEnds | trsync/src/sync/remote.rs:122-136 | on an acyclic listing the walk always ends |
| RemoteSync.IsAttachment | trsync/src/sync/remote.rs:141-159 | yes if and only if the content is a file whose listed parent is not a folder |
| RemoteSync.State | trsync/src/sync/remote.rs:32-53 | fails exactly on a client error, on a kept content that cannot be converted, or when the gathered contents are not closed under parents, and the error names such a content or such a parent |
| RemoteSync.GatheredIsKept | trsync/src/sync/remote.rs:36-49 | on every listing the gathered contents are exactly the kept ones, each converted, the last one of an id counting; it fails exactly at the first kept content that cannot be converted |
| RemoteSync.RemoteStateIsExact | trsync/src/sync/remote.rs:32-53 | the remote state is exactly the contents with a whole living chain of ancestors that are not files below a non-folder; it is acyclic, and the check on parents passes if and only if no kept content lies below such a file |
| RemoteSync.FolderParentsSuffice | trsync/src/state/memory.rs:24-34 | when folders and html documents have only folder parents, the remote state is never refused and is a forest |
| RemoteSync.RemoteDifferences | trsync/src/sync/remote.rs:59-86 | in any order of the remote contents, exactly the unknown ones and those with another revision, ignored ones aside, each once with its path |
| RemoteSync.Compared | trsync/src/sync/remote.rs:59-102 | then exactly the known contents that the server no longer has, with their stored paths |
| RemoteSync.Changes | trsync/src/sync/remote.rs:55-105 | the computed list is the complete difference between rows and remote state, with disappearances last; it fails exactly when the remote state does, with the same error |
| RemoteSync.DistinctIdsSuffice | trsync/src/sync/remote.rs:64-70 | with distinct ids, once the walks of the filters end, those that build the paths do |
| Startup.OneChange | trsync/src/run2.rs:408-414 | a change that does not abort is passed over, put aside, or makes the one row follow the server, or forgets the content with its descendants |
| Startup.RemoteSurvives | trsync/src/state/mod.rs:86-99 | once the stored parents agree with the server, forgetting a vanished folder takes none of the server's contents |
| Startup.AccountedRounds | trsync/src/run2.rs:403-436 | during all rounds every difference between rows and server is still to do, or was passed over |
| Startup.UnsettledRounds | trsync/src/operation/operator.rs:96-99 | a content passed over stays different until the end |
| Startup.ConvergenceIsExact | trsync/src/run2.rs:403-436 | when applying every computed change succeeds, comparing again finds nothing if and only if no change passed over concerns a remote content or one still stored |
| Startup.StartupConverges | trsync/src/sync/remote.rs:55-105 | the same from an unchanging listing on: filter, compare, apply, compare again |
| StartupFolders.TidyStartupConverges | trsync/src/operation/operator.rs:59-87 | from a starting state where parents are folders on disk and no file that is not stored has the name of a server's folder, with a list that looks up no folder strictly below one that moves with contents below it, no change is passed over, and startup converges whenever it succeeds |
| StartupFolders.ApartLookupsSuffice | trsync/src/operation/operator.rs:59-87 | it is enough that no folder looked up is strictly below a moved content, in the database or on the server |
| StartupFolders.BareMovesSuffice | trsync/src/operation/operator.rs:59-87 | it is enough that the list moves only contents with nothing below them yet |
| StartupFolders.OneChangeSuffices | trsync/src/operation/operator.rs:59-87 | a list of one change never looks up anything below what it moves, so a renamed folder with stored contents converges |
| StartupFolders.SteadyStep | trsync/src/run2.rs:408-414 | whatever a change does, the rows below unmoved folders keep their right paths, the folders still to be looked up stay folders on disk, and the change is not passed over |
| StartupAnchors.UpdateKeepsOrder | trsync/src/operation/executor/disk/updated.rs:42-109 | so it is with an update that moves a folder and everything below it, stale rows included |
| StartupAnchors.ForgetKeepsOrder | trsync/src/operation/executor/disk/absent.rs:30-61 | so it is with a removal, even one whose stored path is stale |
| StartupAnchors.AnchoredIsSteady | trsync/src/state/disk.rs:246-279 | no row below an anchor has a path below a content that is none, so that what happens there does not reach it |
| StartupStale.MovedFolderPreventsConvergence | trsync/src/operation/operator.rs:59-87 | the other way round: at any position of a list that moved only bare contents so far, moving a folder with stored contents below it, and then, after any number of new files and updates in place, something new below one of them: startup does not converge even when it succeeds |
| StartupWitness.TidyStart | trsync/src/database.rs:263-265 | a starting state with the database file itself in the synchronized folder meets the condition on the starting state |
| StartupWitness.SucceedsWithoutConverging | trsync/src/operation/operator.rs:59-87 | a folder renamed on the server and a file added to its stored subfolder: everything succeeds, and the file is missing |
| Disappearances.DisappearancesInOrder | trsync/src/operation/executor/disk/absent.rs:36-39 | from a state where stored parents are folders on disk, whatever other files are there, a list of disappearances is applied without an error if and only if every content is stored and none comes after a folder that it is below |
| StartupOrder.UpdatesFollowParents | trsync/src/operation/executor/disk/updated.rs:51-62 | when a list is applied with success, every folder that an update moves a content into was stored or comes before it as new, unless the update was passed over |
| Startup.ForgettingForgets | trsync/src/operation/executor/disk/absent.rs:30-61 | forgetting succeeds only for a stored content, and removes its row and those of all its descendants |
| Startup.MovedFolderHidesSubfolders | trsync/src/operation/operator.rs:59-87 | after a successful move every stored strict descendant makes whatever is added below it look like an attachment |
| Startup.UpdateMoves | trsync/src/operation/executor/disk/updated.rs:63-73 | an update that changes the path has moved the content on disk |
| DiskMoves.NothingLeftBelow | trsync/src/operation/executor/disk/updated.rs:63-73 | after the move nothing is left at or below the old path |
| DiskMoves.Moved | trsync/src/operation/executor/disk/updated.rs:63-68 | a move keeps every directory that is neither moved nor replaced, carries plain files along, and leaves every entry inside a directory |
| DiskMoves.Removed | trsync/src/operation/executor/disk/absent.rs:53-58 | a removal that succeeds takes the content's whole place on disk and nothing else |
| Daemon.Daemon.GetProcessesToStart | manager/src/daemon.rs:107-132 | the nested loops over instances and workspaces compute the function that Daemon.ToStartFound is about |
| Daemon.Daemon.GetProcessesToStop | manager/src/daemon.rs:134-152 | exactly the running pairs that are not configured, each once |
| Daemon.Daemon.StartProcess | manager/src/daemon.rs:154-258 | stores a fresh signal under the pair exactly when client, workspace and folder are available, and nothing otherwise; the lookup by address cannot fail for a configured address |
| Daemon.Daemon.StopProcess | manager/src/daemon.rs:260-271 | raises the stored signal of a pair that is there and forgets the pair |
| Daemon.Daemon.EnsureProcesses | manager/src/daemon.rs:87-105 | the reconciliation as a relation between old and new runners; both lookups that could panic are proved to succeed |
| Daemon.ToStartAddresses | manager/src/daemon.rs:156-161 | every pair to start has an address of the configuration, whatever the server returns |
| Daemon.ToStartAnswered | manager/src/daemon.rs:107-132 | whatever the server returns, what is to start are the pairs of the ids returned for the configured workspaces, asked one after the other, that are not running, in their order |
| Daemon.ToStartFails | manager/src/daemon.rs:107-132 | on success every question was asked once; an error is that of the last question, which could not be answered |
| Daemon.ToStartFound | manager/src/daemon.rs:107-132 | with a server that echoes workspace ids, what is to start is the configured pairs that are not running, in order |
| Daemon.EnsureReconciles | manager/src/daemon.rs:87-105 | an error changes nothing; otherwise the runners are exactly the configured ones that were there already, which keep their signals, and those with a start that succeeded |
| Daemon.AllStartedReconciles | manager/src/daemon.rs:87-105 | when all starts succeed the runners are exactly the configured ones |
| Daemon.EnsureTracks | manager/src/daemon.rs:255-256 | a reconciliation loses a signal if and only if one pair is started twice with success |
| Daemon.DuplicateLosesRunner | manager/src/daemon.rs:110-121 | one workspace listed twice: two runners, the first of which can never be told to stop |
| Daemon.RunTracks | manager/src/daemon.rs:48-76 | over every run of configurations without repeated pairs, the signal of every runner ever started is stored under one pair or was raised |
| Text.ParseFormatted | trsync/src/ignore.rs:40-42 | parsing a formatted 32-bit id gives that id |
| Text.ParseIsExact | trsync/src/ignore.rs:40-42 | a text is read as a number exactly when it is an optional sign and digits whose value fits 32 bits, and then as that value |
| Text.LinesOfJoin | trsync/src/ignore.rs:38-62 | splitting joined lines gives the lines back |
| Text.LinesAreExact | trsync/src/ignore.rs:38-44 | a line ends with a line feed, or a carriage return and a line feed; the last one may go without, and no empty line follows a final line feed |
| Text.JoinExtends | trsync/src/ignore.rs:62-62 | joining more lines extends the text |
| Text.LinesProlonged | trsync/src/ignore.rs:38-62 | text put after joined lines is glued to the last one |
| Text.ParseProlonged | trsync/src/ignore.rs:40-42 | characters put after a formatted id leave it as it is read only when there are none, or zeros after a zero |
| Ignore.Ignore.From | trsync/src/ignore.rs:27-47 | an absent file is an empty list, a readable one its parsed ids, another failure an error |
| Ignore.ParseIsExact | trsync/src/ignore.rs:38-44 | the ids read are those of the lines that are a hash sign and a 32-bit number, in order, one for each such line; every other line is left aside |
| Ignore.Ignore.Push | trsync/src/ignore.rs:67-69 | appends the id |
| Ignore.Ignore.ToText | trsync/src/ignore.rs:50-58 | the loop builds the rendering of the list |
| Ignore.Ignore.Write | trsync/src/ignore.rs:79-87 | the text replaces the start of the file and leaves what was beyond it |
| Ignore.ParseRender | trsync/src/ignore.rs:27-58 | parsing a rendered list returns it unchanged |
| Ignore.RenderExtends | trsync/src/ignore.rs:50-58 | the rendering of a list is a prefix of the rendering of any longer list that starts with it |
| Ignore.FileFollowsList | trsync/src/ignore.rs:27-87 | over any sequence of readings, pushes and writings the file is the exact rendering of the list last saved, which extends everything saved before |
| Ignore.NoPushIsLost | trsync/src/ignore.rs:67-87 | when the list is written before it is read again, the file ends with every pushed id in order |
| Ignore.WriteReadsBack | trsync/src/ignore.rs:79-87 | over any file, the ids read back are those written if and only if what the file holds beyond the text leaves the last id alone and adds none, or spoils it and brings it back |
| Ignore.CommentsAreSafe | trsync/src/ignore.rs:79-87 | they are when the text ends at the end of a line of the file and only comments follow |
| Ignore.LongerFileLosesId | trsync/src/ignore.rs:79-87 | over a longer hand-written file a pushed id is lost and a false one appears |
| SpaceRun.Run | trsync/src/run2.rs:461-511 | whatever the turns of the loop bring, the ignore file ends with what it held followed by the ids chosen to be ignored at exactly those turns that the loop comes to and where the file can be written, in order; a connection error always lets the next turn come; the loop fails only on an unreadable file or on a failure with nobody to ask |

## Left out

- HTTP, JSON, authentication and live messages: the server is an oracle that answers by content id.
- SQLite itself: a table is a map from ids to rows, and a statement fails as a whole.
- File bytes, checksums, temporary files and the choice of timestamps: the disk knows presence and kind, the mirror of the reducer knows whether an upload is pending.
- Partial failures of creating or removing whole directories: each such call succeeds or changes nothing.
- Unusual file names: names are single path components and paths are compared component by component; the textual form of paths in the database is not modelled.
- The executors that act on the server for local events: their outcome and the events they plan are left to the oracle, because their errors lose their kind on the way and one of them reads the old path after a rename.
- Operator.Operator.Operate: for a local event it requires that the changes asked for by those executors find an acyclic parent-closed database when they are applied, since what they ask for is open.
- ReducerMeaning.UndisturbedIsExact: exact only on queues whose paths are pairwise equal or unrelated; with a folder and its inside in one queue the condition is sufficient but not always necessary, and the same holds of ReducerCancel.ReducibleIsExact, ReducerUploads.UploadIsExact and ReducerMarks.MarksAreExact.
- ReducerMeaning.DrainingKeepsMeaning: asks its condition of every queue the reducer leaves; ReducerDrain.DrainingRawQueue asks it of the raw queue, on queues that do not mix a folder with its inside.
- DiskState.DiskState.Add: when both the path and the id are taken, the error names the path, since the order in which the database checks its constraints is not known.
- StartupFolders.TidyStartupConverges: asks that disk calls succeed, and that a plain file that is not stored, like the database itself, has no name of a folder of the server, because a new folder that lands on such a file is recorded without becoming a folder; its condition on the list is sufficient, and Startup.StartupConverges is the exact statement, over the run.
- StartupStale.MovedFolderPreventsConvergence: between the move and the new content it allows new files and updates in place only, since other changes may put the hidden folder right again.
- StartupOrder.UpdatesFollowParents: is a necessary condition on the order of a mixed list; the disk calls and the unique paths decide the rest.
- OperatorRuns.RetriesAreBounded: is about local events, whose executors can time out; an executor for a remote event is attempted once.
- CreationRuns.RetryIsExact: parents are folders on disk, and what is already on disk at a place has the kind to be created there; a place with the wrong kind makes a disk call fail.
- Startup.StartupConverges: a stored content whose parent differs from the server's is required to have a new revision and not to be ignored, since the comparison looks at revisions only and skips ignored contents.
- The order of `contents()`: its comparator is not a consistent order for two contents that are not folders, so remote contents are compared in any order.
- Walks without an end: the filters require that the walk through the parents ends for every listed content, since on a cycle of living contents the program would not come back.
- The local half of the startup synchronization and the resolution of conflicts between local and remote changes: flat lists and filters.
- Activity reports, logging, sleeping between retries, threads and channels: events arrive as a sequence, and a run of the daemon is a sequence of reconciliations.
- The runner that lowers its stop signal again when it ends: a signal of the daemon's model, once raised, stays raised.
- Bytes of a hand-written ignore file beyond the written text that are not whole characters: the file is a sequence of characters.
- The configuration, monitoring and tray programs, keyring access, and the modules that are entirely commented out.
