# A Dafny model of the SaveAny-Bot core

SaveAny-Bot receives media on Telegram and stores it elsewhere. This project
models the parts of it that carry protocols and algorithms and proves what they
promise. Networks, disks, clocks, databases and the outcome of every transfer
are parameters ("oracles"): a function of a tick counter, or a value, over which
the statements are universally quantified. `dafny verify dfyconfig.toml` checks
the whole project.

| File | What it models |
|---|---|
| `BulkDownload.dfy`, `BulkRuns.dfy` | the resumable bulk download of a chat: checkpoint, retry, paging, replay and cap in one run, and any number of runs with crashes |
| `Checkpoints.dfy` | the states such a download leaves in the world, and its checkpoint row |
| `BulkBlocks.dfy`, `BulkPaging.dfy` | one block through the engine, and the pages of a chat, in values |
| `History.dfy` | a chat, the pages a newest-first fetch returns, and the order they are replayed in |
| `ServiceNotices.dfy` | when paging misses messages because notices were dropped from a page |
| `FailedIds.dfy`, `Decimal.dfy` | the stored text of the failed-ID list and the 500-entry cap |
| `TaskQueue.dfy`, `WorkerPool.dfy` | the task queue and the workers that drain it |
| `BatchExecution.dfy`, `ItemPhases.dfy` | the batch engine: grouping, joining, the life of one item, and a whole task |
| `EngineOutcomes.dfy` | what the bulk download reads from the items of a finished batch task |
| `AlbumPlan.dfy` | media albums and the volumes of a split archive |
| `SpeedMeter.dfy`, `UploadProgress.dfy`, `Totals.dfy` | the speed window and the progress counters |
| `SplitWriter.dfy` | cutting a byte stream into volumes |
| `WatchUploader.dfy` | the in-flight and dirty-bit protocol of the folder watcher |
| `Debounce.dfy` | media-group debouncing with timers, flat and nested |
| `QuotedArgs.dfy` | the command-line quoting parser |
| `Lists.dfy` | sequence vocabulary |

## How the bulk download is stated

Every effect of a run on the world (a message arriving, a file stored, a
checkpoint row written) appends a snapshot to a history whose type demands that
every snapshot be good and every step be one of two kinds: the world grows, or a
checkpoint is saved. So a statement about all snapshots also covers a run that is
cut off at any point, and a crash is modelled by cutting the history back to any
snapshot of the run.

The world also keeps account of what can get lost, in three sets and a number:

- `cutOff`: failed IDs a checkpoint left out because only 500 are persisted.
  `mostFailed` is the size of the largest failed set a checkpoint was saved from,
  and nothing is cut off while it is at most 500.
- `stranded`: IDs the engine left neither completed nor failed, and without a
  file, although the run's context was live.
- `hidden`: wanted messages that paging passed over. Each lies below a service
  notice.

`BulkRuns.ManyRuns` is the main theorem: for every chat and every list of runs,
each with its own failures, cancellation, settings and crash point, in every state
ever reached a wanted message with an ID up to the persisted cursor is stored, in
the persisted failed list, or in one of the three sets; every stored file and every
stranded ID is the doing of one of the runs; each run does its part, which is to
catch up with the chat if nothing goes wrong and nothing cuts it short; and the
persisted cursor never decreases while checkpoints can be loaded. It follows that
nothing is lost in any state in which at most 500 IDs had failed at once, the chat
has no service notice and no run's engine left an element midway, and
`BulkRuns.EverythingStored` says that after any such runs one undisturbed run leaves
every wanted message stored.

The hypotheses, which are preconditions here, are these:

- Messages arrive only with IDs above those already in the chat, and whether a
  message is wanted does not change between runs.
- A cancelled task context stays cancelled, and a save under it fails.

Each way to lose a message is real, and has its exact condition:

- Stranded. The comments on `runBlock` (core/tasks/bulkdl/execute.go:227-231 and
  306-308) say that an element stopped midway is covered by the failed list on a
  later run. It is not: the code adds nothing for it and moves the cursor past it.
  `BulkBlocks.EngineSettles` says exactly when a block loses nothing, and
  `BulkRuns.StrandingRun` is a run over one message that ends with the cursor past
  it and the message neither stored nor listed. Two things bring such an element
  about. A transport error may wrap a cancellation while the task's own context is
  live (core/tasks/bulkdl/execute.go:67-71). And the bulk download runs the engine
  with errors ignored (core/tasks/bulkdl/execute.go:287): when a Telegram target
  saves an album as one batch (core/tasks/batchtfile/task.go:105-116), one cache
  file that cannot be read back leaves the other downloaded items of the album in
  the downloaded phase. `ItemPhases.ItemTable.RunTask` says for every task which
  items are midway when it ends: those whose group stopped at the cache file of
  another one, in a task that ended without an error. `ItemPhases.LeftBehindIff` is
  the condition for one group, and `EngineOutcomes.LostCacheIsMidway` the link to
  the bulk download.
- Hidden. A page with a service notice counts as short and ends the paging.
  `ServiceNotices.CollectsAllIff` says for every chat when this loses nothing, and
  `ServiceNotices.ServiceNoticeHidesOlder` is a chat of 101 messages where it loses
  one.
- Cut off. The failed list is cut at 500: `FailedIds.PersistsAllIffWithinCap`.

Loading a checkpoint may fail: the run then starts from zero with an empty failed
list. Nothing is lost, but a checkpoint saved before the replay has come past the
old cursor sends it back, down to zero if the chat cannot be resolved either
(`BulkRuns.CursorGoesBack`).

The queue's agreement of list and maps has an exact condition as well:
`TaskQueue.FinishKeepsIffNotQueued`. `WorkerPool` shows that the workers meet it.

## Other conditions

- A path being uploaded may be dirty although it has not changed since the upload
  began: it was submitted a second time before a worker took the first job
  (`WatchUploader.DirtyWithoutChange`). It is then uploaded once more than needed, but
  never more often than it was submitted. `WatchUploader.DirtyExactly` says when a
  path being uploaded is dirty.
- Two timers of one media group can be armed at once. A fired timer waits for the
  lock, a new file arms another, and the callback forgets that one without stopping
  it, so that the next file finds no timer to stop (`Debounce.TwoTimersArmed`). No
  file is lost by it, but one may be handed on before its own timer has fired.
  `Debounce.SecondTimerIff` says which step brings it about.
- A run with a cap may save more files than the cap: the retries are not capped, and
  the first page after them gets an element whatever they have saved.
  `BulkDownload.Task.Execute` has the bound.

## Model

| member | source | states |
|---|---|---|
| BulkRuns.ManyRuns | core/tasks/bulkdl/execute.go:50-80 | over any number of runs with failures, cancellations, dead links, elements left midway and crashes: in every state reached each wanted message up to the persisted cursor is stored, persisted as failed, or given up for a reason (more than 500 failed at once, left midway by some run, below a service notice); without such reasons nothing is lost; every stored file is some run's doing; each run makes its progress; and the cursor never decreases while loads succeed |
| BulkRuns.EverythingStored | core/tasks/bulkdl/execute.go:50-80 | after any runs, one undisturbed run without cap or crash, with fewer than 100000 messages waiting and no notice in the chat, leaves every wanted message of the chat stored, provided at most 500 failed at once and no engine left an element midway |
| BulkRuns.StrandingRun | core/tasks/bulkdl/execute.go:305-309 | a run over one message in which nothing fails but the engine leaves the element midway: the cursor ends past the message, which is neither stored nor listed |
| BulkRuns.CursorGoesBack | core/tasks/bulkdl/execute.go:82-87 | a run that can neither load its checkpoint nor resolve the chat, but can save, lowers a positive persisted cursor |
| BulkRuns.RunOnce | core/tasks/bulkdl/execute.go:50-80 | one run, possibly dying after any of its snapshots, takes nothing out of the world and adds only what it may; smooth and uncut, it ends with the cursor past the chat; undisturbed and uncut, with every wanted message stored or given up earlier; with a cap M it adds at most max(M, R + 1) files to the world, R being the messages listed as failed, unless the engine stores files without completing their elements; the cursor rises if the load succeeded |
| BulkDownload.Task.Execute | core/tasks/bulkdl/execute.go:50-80 | one run keeps safety at every snapshot; with a cap M the files new in the world are at most max(M, R + 1), R being the retried messages, unless the engine stores files without completing their elements; its last save, if it succeeds, persists a cursor that is below the old one only if the load failed; in a chat of plain messages with fewer than 100000 waiting a smooth run without a cap moves the cursor past the chat, and an undisturbed one has every wanted message stored or given up earlier, without a cap or with one that is not reached |
| BulkDownload.Task.Resume | core/tasks/bulkdl/execute.go:60-65 | the same for the run after its checkpoint was loaded |
| BulkDownload.Task.LoadCheckpoint | core/tasks/bulkdl/execute.go:82-99 | gives the persisted cursor and failed set, or zero and none when loading fails or there is no row; either way everything up to the cursor is accounted for |
| BulkDownload.Task.SaveCheckpoint | core/tasks/bulkdl/execute.go:101-117 | changes nothing on failure; otherwise the row holds the given cursor and the largest failed IDs, all of them or 500, exactly the others join those cut off, and nothing else changes |
| Checkpoints.Site.WriteRow | database/bulkdl.go:26-40 | the row becomes the cursor and the text of the largest failed IDs, all of them or 500; exactly the others are cut off; the state stays good |
| Checkpoints.Site.ReadRow | core/tasks/bulkdl/execute.go:91-98 | reading the row gives a cursor and a failed set that account for every wanted message up to the cursor |
| BulkDownload.Task.RetryFailed | core/tasks/bulkdl/execute.go:119-149 | retrying adds nothing to the failed set and drops only what was stored, stores nothing else, strands nothing, and saves at most one file a message; undisturbed, no wanted message stays failed |
| BulkDownload.Task.RetryOne | core/tasks/bulkdl/execute.go:133-146 | the same for one message, which leaves the set only once it is stored |
| BulkDownload.Task.BuildElements | core/tasks/bulkdl/execute.go:236-280 | exactly the wanted messages of the scanned part get an element or join the failed set; the cap ends the scan at the element that fills it |
| BulkDownload.Task.RunEngine | core/tasks/bulkdl/execute.go:282-287 | stored are exactly the elements whose outcome stores them, and stranded, under a live context, exactly those left midway without a file and not listed as failed |
| BulkDownload.Task.Tally | core/tasks/bulkdl/execute.go:289-311 | completed elements leave the failed set, failed ones join it, others change nothing, and the two counts are the numbers of distinct elements that completed and that failed |
| BulkDownload.Task.RunElements | core/tasks/bulkdl/execute.go:282-325 | the saved counter grows by the number of elements that completed; the link is declared dead exactly when at least five elements failed, none completed and the context is live |
| BulkDownload.Task.RunBlock | core/tasks/bulkdl/execute.go:222-325 | unless cancelled every wanted message up to the returned ID is stored, failed or stranded, and what is stored and stranded is exactly told; a failed ID is dropped only for a stored file; the saved counter grows by the number of elements that completed, within the cap or by one; a page that is cut in an undisturbed run reaches the cap |
| BulkDownload.Task.FetchBlock | core/tasks/bulkdl/execute.go:344-373 | an answer is the server's newest page below the offset without its notices, whatever attempts failed before; an error under a live context means that as many attempts failed as are configured, or one |
| BulkDownload.Task.CollectPages | core/tasks/bulkdl/execute.go:165-189 | the pages are what the loop collects from the chat at the first fetch, whatever arrives meanwhile: messages above the checkpoint, ascending, at most 1000 pages, and any plain message that is missing lies below a notice; when no call fails it gives up only with at least 100000 messages waiting |
| BulkDownload.Task.CollectHistory | core/tasks/bulkdl/execute.go:165-189 | the same, with the wanted messages passed over, and only those, put down as hidden |
| BulkPaging.AnswerArrives | core/tasks/bulkdl/execute.go:170-188 | an empty or short answer ends the loop with all pages there are, a full one leaves it with one page more and the same messages to account for |
| BulkPaging.NothingHidden | core/tasks/bulkdl/execute.go:165-189 | when the first page with a notice has only notices behind it, no wanted message is passed over |
| BulkPaging.PlainIsAllSeen | core/tasks/bulkdl/execute.go:165-189 | without notices the pages replayed are exactly the messages above the checkpoint |
| BulkDownload.Task.ReplayBlock | core/tasks/bulkdl/execute.go:191-213 | one page and its checkpoint: everything up to the new cursor is accounted for, and what lies above it is the rest of the replay after what was done, the whole page or the part up to the cap; a dead link leaves the cursor; the checkpoint holds the new cursor if the save succeeds |
| BulkDownload.Task.ReplayBlocks | core/tasks/bulkdl/execute.go:191-220 | wherever the replay stops, everything up to the cursor is accounted for; a capped run saves at most the cap, or one more than before; without an error nothing seen lies above the cursor if there is no cap, or if the run is undisturbed and the cap not reached |
| BulkDownload.Task.IterateHistory | core/tasks/bulkdl/execute.go:151-220 | the same with paging and its errors, after which the cursor is unchanged |
| BulkPaging.CursorAdvances | core/tasks/bulkdl/execute.go:204-207 | a settled page accounts for every wanted message up to its last ID |
| BulkPaging.CursorFits | core/tasks/bulkdl/execute.go:196-218 | the messages above the new cursor are exactly the unprocessed rest |
| BulkPaging.PagingStep | core/tasks/bulkdl/execute.go:170-188 | an empty or short answer completes the collection, a full one leaves one page more and the same messages to account for |
| BulkBlocks.EngineSettles | core/tasks/bulkdl/execute.go:289-311 | every wanted message of the block is accounted for if and only if every element left midway is stored anyway, was in the failed set or is stranded |
| BulkBlocks.MidwayIsLost | core/tasks/bulkdl/execute.go:305-309 | a block of one wanted message whose element is left midway without a file accounts for nothing |
| BulkBlocks.SingleBlock | core/tasks/bulkdl/execute.go:142-144 | a retried block changes the failed set at most at its own message |
| Checkpoints.SaveStep | core/tasks/bulkdl/execute.go:101-117 | saving a cursor up to which everything is accounted for adds a good state to the history |
| Checkpoints.NothingShrinks | core/tasks/bulkdl/execute.go:50-80 | over a history no message, file or account of a loss disappears |
| Checkpoints.RecordedIsPersisted | database/bulkdl.go:26-74 | a saved row is read back as the persisted failed IDs |
| Checkpoints.NothingGivenUp | core/tasks/bulkdl/execute.go:101-117 | in a good state with at most 500 failed at once, nothing stranded and no notice, every wanted message up to the cursor is stored or in the persisted list |
| History.BetweenIgnoresNewer | core/tasks/bulkdl/execute.go:354-359 | messages that arrive later do not change a window below the offset |
| History.BetweenPrefix | core/tasks/bulkdl/execute.go:184 | lowering the offset to a message of the window keeps exactly the messages before it |
| History.BetweenSuffix | core/tasks/bulkdl/execute.go:204-206 | raising the cursor to a message of the window keeps exactly the messages after it |
| ServiceNotices.CollectsAllIff | core/tasks/bulkdl/execute.go:165-189 | for every chat, paging collects all plain messages above the checkpoint if and only if the first page with a notice has no plain message behind it |
| ServiceNotices.ServiceNoticeHidesOlder | core/tasks/bulkdl/execute.go:375-392 | a chat of 101 messages whose newest is a notice: the oldest is never seen although the cursor will pass it |
| FailedIds.ParseFailedIDs | database/bulkdl.go:46-63 | the readable parts of the trimmed text, in order; unreadable ones are skipped |
| FailedIds.JoinIntIDs | database/bulkdl.go:65-74 | the decimal forms joined by commas |
| FailedIds.ParseOfJoin | database/bulkdl.go:46-74 | parsing what was joined gives back every list of 64-bit integers, signs included |
| FailedIds.ParsedParts | database/bulkdl.go:48-63 | on every list of parts between commas, parsing gives the numbers among them, spaces around them cut off, in order |
| FailedIds.JoinedGrows | database/bulkdl.go:65-74 | commas stand between the printed IDs and nowhere else |
| FailedIds.TrimSpaceExactly | database/bulkdl.go:49-56 | a text between spaces, without spaces at its own ends, is what is left when they are cut off |
| FailedIds.PersistedAreTheLargest | core/tasks/bulkdl/execute.go:110-113 | the stored list is ascending, holds min(500, n) failed IDs, and every one left out is smaller than every one kept |
| FailedIds.PersistsAllIffWithinCap | core/tasks/bulkdl/execute.go:110-113 | no failed ID is left out if and only if at most 500 failed |
| FailedIds.SplitOfJoin | database/bulkdl.go:53-73 | splitting a join of parts without the separator gives the parts back |
| Decimal.AtoiOfItoa | database/bulkdl.go:54-71 | reading a printed 64-bit integer gives it back |
| Decimal.AtoiAccepts | database/bulkdl.go:56-59 | reading accepts exactly the strings of digits, signed or not, leading zeros included, whose value fits in 64 bits |
| Decimal.CanonicalIsUnique | database/bulkdl.go:70-72 | what is printed is the only string of digits without leading zeros that has the value |
| TaskQueue.TaskQueue.Add | pkg/queue/queue.go:29-51 | a task is added exactly when the queue is open, no live task has its ID and its own context is live; each other answer has its own condition, in the order of the checks; an added task is the last of the list and in the map, and any other answer changes nothing |
| TaskQueue.TaskQueue.Get | pkg/queue/queue.go:58-88 | drops cancelled tasks from the front, delivers the first live one, reports a closed queue only when the list is empty, and waits otherwise |
| TaskQueue.TaskQueue.Done | pkg/queue/queue.go:91-96 | releases any ID from both maps; list and maps stay in agreement if and only if it is not that of a listed task |
| TaskQueue.TaskQueue.CancelTask | pkg/queue/queue.go:164-178 | finds exactly the listed and running tasks, and marks that task only |
| TaskQueue.TaskQueue.Close | pkg/queue/queue.go:180-186 | closes the queue and leaves the listed tasks |
| TaskQueue.TaskQueue.ActiveLength | pkg/queue/queue.go:105-117 | counts the listed tasks that are not cancelled |
| TaskQueue.TaskQueue.QueuedTasks | pkg/queue/queue.go:141-158 | lists them in the order of addition |
| TaskQueue.ActiveInOrder | pkg/queue/queue.go:105-158 | the tasks counted and listed stand in ascending order at exactly the positions that hold a task which is not cancelled |
| TaskQueue.GetKeeps | pkg/queue/queue.go:58-88 | Get delivers the first uncancelled task in the order of addition, drops only cancelled ones, and keeps list and maps in agreement |
| TaskQueue.DrainFindsFirst | pkg/queue/queue.go:67-81 | Get passes over cancelled tasks only, and stops at the first one that is not, or at the end of the list |
| TaskQueue.AppendKeeps | pkg/queue/queue.go:29-51 | adding a task with a free ID keeps the invariant |
| TaskQueue.FinishKeepsIffNotQueued | pkg/queue/queue.go:91-96 | releasing an ID keeps list and maps in agreement if and only if it is not that of a listed task |
| TaskQueue.QueueInvariant | pkg/queue/queue.go:11-96 | after every sequence of operations that releases only delivered IDs: the map is the disjoint union of listed and running tasks, live IDs are distinct, and the accepted tasks are delivered, dropped or listed in the order of addition |
| TaskQueue.Conservation | pkg/queue/queue.go:29-96 | accepted tasks are counted exactly once as delivered, dropped or listed, the list is the tail of the arrivals, and a dropped task was found cancelled by some Get |
| TaskQueue.AcceptedAreAdmitted | pkg/queue/queue.go:29-51 | over any operations, the accepted tasks are those offered before the first Close, with a live context and an ID that no live task had, in the order they were offered |
| WorkerPool.StepKeeps | core/core.go:35-75 | every step of the pool keeps the queue invariant, the match of running tasks and workers, the event story of each task and the slot count |
| WorkerPool.SlotIsFree | core/core.go:38-39 | a worker about to acquire the semaphore never has to wait |
| WorkerPool.AtMostNRun | core/core.go:77-86 | with n workers at most n tasks run at once, in every interleaving |
| WorkerPool.EventsInPairs | core/core.go:48-72 | a delivered task is announced by one worker as started, then as done, and as nothing else; a released one as both |
| WorkerPool.ReleasedAfterDone | core/core.go:71-72 | an ID is released only after both events, by the worker that ran the task |
| WorkerPool.StopsAfterDrain | core/core.go:40-44 | a worker stops only once the queue is closed and every accepted task was delivered or dropped |
| WorkerPool.AskingEnds | core/core.go:40-44 | a worker that asks gets the first listed task that is not cancelled; if there is none, it stops exactly when the queue is closed |
| BatchExecution.GroupsIsGrouping | core/tasks/batchtfile/execute.go:86-113 | the groups partition the elements in order; a batch group shares storage and key and stops only where the album does; any other group is a single element |
| BatchExecution.GroupingIsUnique | core/tasks/batchtfile/execute.go:86-113 | there is no other such grouping |
| BatchExecution.ExecutionGroups | core/tasks/batchtfile/execute.go:86-113 | the loops compute that grouping |
| BatchExecution.Execute | core/tasks/batchtfile/execute.go:42-66 | processors are called in order up to the first outcome that stops the run; with errors ignored only a cancellation stops it; a run to the end hands every album of a batch-saving storage, whole, to a batch call of its own, and every stretch of other elements, whole, to a call for single elements, each element once and in order |
| BatchExecution.CallsHandEverything | core/tasks/batchtfile/execute.go:44-58 | the calls together hold every element once, in order |
| BatchExecution.CallsAreDispatch | core/tasks/batchtfile/execute.go:44-58 | batch calls hold whole albums of one batch-saving storage, the other calls whole stretches of elements without one, and together they hold every element in order |
| BatchExecution.DispatchIsUnique | core/tasks/batchtfile/execute.go:44-58 | there is no other such division into calls |
| BatchExecution.ProcessBatch | core/tasks/batchtfile/execute.go:136-222 | for every finishing order of the downloads the uploaded items are the downloaded elements in source order, each with its own cache size; it aborts exactly when a failure counts, nothing was downloaded or a cache file is lost |
| BatchExecution.DownloadedInOrder | core/tasks/batchtfile/execute.go:177-183 | the downloaded elements stand in ascending order at exactly the positions whose download succeeded |
| ItemPhases.ItemTable.Report | core/tasks/batchtfile/item_progress.go:153-277 | each report changes its own item as the transition says and no other; unknown items are ignored |
| ItemPhases.ItemTable.Finish | core/tasks/batchtfile/item_progress.go:279-292 | after an error whatever is neither completed nor failed is stopped; without one nothing changes |
| ItemPhases.ItemTable.ProcessGroup | core/tasks/batchtfile/execute.go:136-268 | the phase every element of a batch group is left in, and the error of the group, for all outcomes of downloads, cache files and the save, in whatever order they end |
| ItemPhases.ItemTable.RunTask | core/tasks/batchtfile/execute.go:35-77 | the first call with an error that counts gives the result; at the end an item is midway if and only if the task ended without an error and the item's batch group stopped at the cache file of another one; without an error every other item is completed or failed |
| ItemPhases.FailuresInAnyOrder | core/tasks/batchtfile/item_progress.go:251-264 | in whatever order several goroutines report, an item has failed exactly when one error was more than a cancellation, and a completed item is not touched |
| ItemPhases.UploadedRises | core/tasks/batchtfile/item_progress.go:215-239 | without a retry the uploaded bytes shown never fall |
| ItemPhases.DownloadedIsReceived | core/tasks/batchtfile/item_progress.go:180-192 | whatever else is reported, the bytes shown as downloaded are the sum of the chunks received |
| ItemPhases.StreamedIsUploaded | core/tasks/batchtfile/item_progress.go:164-192 | an item activated to be streamed counts every chunk received as uploaded too, one activated to be downloaded counts none |
| ItemPhases.UploadShown | core/tasks/batchtfile/item_progress.go:215-239 | after any reports, an upload report that falls behind without a retry is dropped; any other is shown, and the item is being confirmed exactly when it reaches a known total |
| ItemPhases.LatestRetry | core/tasks/batchtfile/item_progress.go:241-249 | the attempt and limit shown are those of the latest retry until the item completes |
| ItemPhases.ElementEndsInPhase | core/tasks/batchtfile/execute.go:332-468 | for every way the processing of one element can go, streamed or through a cache file with failed attempts, its reports leave the item completed, failed or stopped as it ended; of several errors one that is more than a cancellation decides |
| ItemPhases.LeftBehindIff | core/tasks/batchtfile/execute.go:55-66 | the task goes on over a group with some item left behind if and only if errors are ignored, the downloads were survived and of several downloaded files one could not be read back |
| ItemPhases.LostCacheStrandsItem | core/tasks/batchtfile/execute.go:195-200 | two downloaded elements of a group, the first one's cache file lost, errors ignored: the second stays in the downloaded phase and the task goes on |
| EngineOutcomes.RunPage | core/tasks/bulkdl/execute.go:287-310 | for a page, with errors ignored: the batch task ends well or cancelled, and if well the items read as neither saved nor failed are exactly those beside a lost cache file |
| EngineOutcomes.LostCacheIsMidway | core/tasks/bulkdl/execute.go:289-310 | such an item, under a live context, is one the bulk download leaves midway |
| AlbumPlan.PlanIsLegal | storage/telegram/telegram.go:443-464 | the plan flattens back to its input in order, and every group of several has at most ten eligible items of one chat and one non-empty key |
| AlbumPlan.PlanIsOptimal | storage/telegram/telegram.go:443-464 | no order-preserving split into legal groups uses fewer groups |
| AlbumPlan.GroupIsLongest | storage/telegram/telegram.go:446-460 | no legal group starting there is longer |
| AlbumPlan.PlanMediaGroups | storage/telegram/telegram.go:443-464 | the index loop computes the plan |
| AlbumPlan.SaveBatch | storage/telegram/telegram.go:390-415 | what was sent is a prefix of the batch, every item under its own position, and everything exactly when no inspection and no group fails |
| AlbumPlan.SendVolumes | storage/telegram/telegram.go:604-647 | the volumes go out in order in albums of ten, up to the first that fails; if none was found the first one is taken all the same and the program panics |
| AlbumPlan.SplitSize | storage/telegram/telegram.go:215-228 | the volume size is positive and at most the limit of the account; a positive configured size that fits is used as it is, any other that 64 bits can hold gives the limit, and after an overflow the size is the wrapped one or the limit |
| SpeedMeter.TransferMeter.RecordTransfer | core/tasks/batchtfile/item_progress.go:72-93 | an observation moves the meter as `Record` says: a falling counter restarts it, an earlier clock is held, samples are spaced and old ones trimmed; `ObserveIsFaithful` says what this amounts to |
| SpeedMeter.TransferMeter.Speed | core/tasks/batchtfile/item_progress.go:95-106 | the speed shown is the average of the state, never negative; `SpeedIsAverage` says between which observations and `ProgressShows` when it is not zero |
| SpeedMeter.ObserveIsFaithful | core/tasks/batchtfile/item_progress.go:72-93 | for every sequence of observations, clocks stepping back and counters restarting, the samples are genuine, spaced, within the window and cover it |
| SpeedMeter.WindowBounds | core/tasks/batchtfile/item_progress.go:11-14 | samples at least 250 ms apart, none older than 5 s, bytes never falling, at most 21, reaching back 4.75 s |
| SpeedMeter.SpeedIsAverage | core/tasks/batchtfile/item_progress.go:95-106 | the speed is the true average up to the latest observation from one at most 5 s older, since the last restart, which no observation of the last 4.75 s precedes or undercuts; it is zero only if no time passed or no bytes came between the two |
| SpeedMeter.ProgressShows | core/tasks/batchtfile/item_progress.go:95-106 | bytes that rose since any earlier observation of the last 4.75 s show as a positive speed |
| SpeedMeter.LatestIsEffective | core/tasks/batchtfile/item_progress.go:72-80 | each observation counts with its bytes, at its own time or that of the one before, whichever is later; one with fewer bytes is the only one left |
| UploadProgress.FileProgress.Chunk | storage/telegram/progress.go:28-52 | a report that is news strictly raises the sum that is told; any other changes and tells nothing |
| UploadProgress.CounterIsSumOfMaxima | storage/telegram/progress.go:28-60 | after every sequence of reports and resets the counter is the sum of the highest value of each upload since the last reset |
| UploadProgress.BatchProgress.UploadCallback | core/tasks/batchtfile/upload_progress.go:27-61 | the aggregate told is the sum over the items' highest values, at most the known total |
| UploadProgress.BatchProgress.RecordDownloadComplete | core/tasks/batchtfile/upload_progress.go:63-70 | a positive size joins the known total |
| UploadProgress.AggregateNeverFalls | core/tasks/batchtfile/upload_progress.go:15-70 | in every interleaving the aggregate told never decreases, retries from zero included, never exceeds the total known then, and the start is told once before it |
| UploadProgress.ContributionsAreMaxima | core/tasks/batchtfile/upload_progress.go:40-49 | what an item contributes is the highest value it reported, each cut at its own total |
| UploadProgress.AggregateIsTold | core/tasks/batchtfile/upload_progress.go:15-61 | after any events, every report of at least zero is followed by one notice: what all items contribute, up to the sum of the sizes downloaded so far, and that sum; the start comes before the first one, and nothing else is told |
| Totals.TotalUpdate | storage/telegram/progress.go:38-45 | changing one entry changes the sum of a map by the difference |
| SplitWriter.SplitWriter.Write | storage/telegram/split.go:30-55 | the count returned is the number of bytes that reached the volumes, error or not; without an error the volumes are everything received cut into pieces |
| SplitWriter.SplitWriter.CopyAll | storage/telegram/split.go:101-130 | however the stream is divided into calls, the volumes are the pieces of the whole byte string; after a failure they hold a prefix |
| SplitWriter.SplitWriter.NextPart | storage/telegram/split.go:64-81 | closes the full volume and opens the next, empty, under the next name, or changes no volume |
| SplitWriter.SplitWriter.Finalize | storage/telegram/split.go:88-99 | a single volume, holding everything, is renamed to the plain archive name; several keep theirs |
| SplitWriter.CutIsChunks | storage/telegram/split.go:31-55 | volumes that are full but for the last are the one and only cut, but for an empty last volume just opened |
| SplitWriter.PartNamesDistinct | storage/telegram/split.go:83-96 | no two volumes share a name, and none has the plain archive name, whatever their number |
| SplitWriter.PartNameShape | storage/telegram/split.go:83-86 | volumes are numbered from one with leading zeros up to three digits, so that the first ends in `.zip.001` |
| Lists.ChunksWellCut | storage/telegram/split.go:31-55 | cutting loses and reorders nothing, fills every piece but the last and leaves none empty |
| Lists.ChunksUnique | storage/telegram/split.go:31-55 | there is only one such cut |
| WatchUploader.Uploader.MarkSubmitted | cmd/watch/uploader.go:91-101 | a path in flight becomes dirty; any other joins clean and is to be sent |
| WatchUploader.Uploader.Settle | cmd/watch/uploader.go:137-146 | a dirty path stays in flight, clean, to be sent again; any other leaves; no other path is touched |
| WatchUploader.OneTokenPerPath | cmd/watch/uploader.go:91-155 | in every interleaving a path in flight has exactly one job among sending, queued, processing and re-queueing, and any other path none |
| WatchUploader.NeverUploadedTwiceAtOnce | cmd/watch/uploader.go:113-155 | no two workers upload one path at the same time |
| WatchUploader.NoLostChange | cmd/watch/uploader.go:91-155 | a change submitted after the last upload of its path began waits for a worker, or that upload runs with the dirty bit set |
| WatchUploader.RestIsComplete | cmd/watch/uploader.go:91-155 | at rest nothing is in flight and every submitted path was uploaded after its last submission |
| WatchUploader.NoIdleUpload | cmd/watch/uploader.go:91-155 | in every interleaving a path has never been uploaded more often than it was submitted |
| WatchUploader.DirtyExactly | cmd/watch/uploader.go:91-155 | a path being uploaded is dirty exactly when it was submitted after the upload began, or the upload found it dirty when it began |
| WatchUploader.DirtyWithoutChange | cmd/watch/uploader.go:91-126 | a run in which a path being uploaded is dirty although nothing was submitted since: the second submission came before a worker took the first job |
| Debounce.MediaGroupHandler.AddFile | client/bot/handlers/media_group.go:75-93 | the file joins its group under a new timer, and the old one is the one to stop |
| Debounce.MediaGroupHandler.ProcessMediaGroup | client/bot/handlers/media_group.go:96-106 | takes everything pending under the key and forgets its timer |
| Debounce.NoFileLost | client/bot/handlers/media_group.go:75-106 | in every interleaving, timers that fire just before they are stopped included, the files received are those handed on, in order, then those pending; while any are pending a timer is armed or fired to take them |
| Debounce.QuietMeansAllHandedOn | client/bot/handlers/media_group.go:75-106 | with no timer armed or fired every file was handed on |
| Debounce.CurrentIsLatest | client/bot/handlers/media_group.go:85-92 | every file has a timer of its own, and the current timer of a key is that of its latest file |
| Debounce.SecondTimerIff | client/bot/handlers/media_group.go:87-106 | a step leaves a second timer armed for a key if and only if it is the callback of a fired timer that a newer, armed one has overtaken |
| Debounce.AtMostOneArmed | client/bot/handlers/media_group.go:87-106 | in every run without such a callback at most one timer of a key is armed |
| Debounce.TwoTimersArmed | client/bot/handlers/media_group.go:87-106 | a run of five steps after which two timers of one key are armed |
| Debounce.NoFileLostNested | client/bot/handlers/watch.go:180-213 | the same, in every interleaving, for the machine over nested maps, which never keeps an empty inner map |
| Debounce.WatchMediaGroups.AddFile | client/bot/handlers/watch.go:180-198 | the nested maps do what the flat ones do |
| Debounce.WatchMediaGroups.Callback | client/bot/handlers/watch.go:198-213 | the same for the callback, which leaves no empty inner map |
| Debounce.DeleteIsTidy | client/bot/handlers/watch.go:201-207 | whatever the maps hold, a deletion leaves no empty map for its chat |
| Debounce.DeleteIsFlat | client/bot/handlers/watch.go:201-207 | a nested deletion is a flat one |
| Debounce.PutIsFlat | client/bot/handlers/watch.go:184-196 | a nested insertion is a flat one |
| QuotedArgs.ParseArgsRespectQuotes | common/utils/strutil/string.go:52-93 | the loop computes the grammar on every line, with unterminated quotes and trailing backslashes |
| QuotedArgs.ParseOfCommandLine | common/utils/strutil/string.go:52-93 | quoting, joining with spaces and parsing gives back every list of non-empty strings |
| QuotedArgs.RoundTripIffNonEmpty | common/utils/strutil/string.go:52-93 | the round trip holds for exactly the lists without an empty string |
| QuotedArgs.ParseOfTypedLine | common/utils/strutil/string.go:52-93 | whatever mixture of bare, escaped and quoted characters the words are typed in, whatever spaces and tabs stand between them, and with an unclosed quote or a dangling backslash at the end: the arguments are the words that hold a character, in order |

## Left out

- The statistics of a bulk download other than the saved counter: engine failures are counted twice and retried messages are scanned twice, so no balance law holds.
- Editing and deleting messages, or resetting a chat's progress, while a bulk download is in use; a message keeps its ID, its kind and whether it is wanted.
- Messages arriving between two stores of one engine run: they arrive at ticks, of which an engine run is one.
- The order in which the engine stores the elements of a page, and its retries: only the outcome of each element and whether its file was stored.
- A message refetched for a retry is the one in the chat, or the refetch fails; the three peer forms that are tried are not modelled.
- When a wanted message below a notice is hidden is told exactly for a fixed chat (`ServiceNotices.CollectsAllIff`); over runs only that a hidden one has a notice above it.
- How the engine's own outcome of an element comes about is a parameter of a bulk download run; `EngineOutcomes` ties it to the batch task for one page.
- Dead-connection detection uses the outcome of one page; the wording of errors and the progress messages are not modelled.
- TaskQueue.TaskQueue.Get: does not model the wait on the condition variable, because a pass under the lock either ends or reports that it would wait, and the pool repeats it.
- The hooks a worker runs around a task, and what a task itself does.
- The uploader after a cancellation or a Close, and the fairness of a full channel.
- Retries inside an album upload, captions, MIME detection and photo limits.
- The zip format: the archive is an arbitrary byte string handed to the writer in arbitrary calls; the pattern match that finds the volumes again is not modelled, so neither is its order beyond 999 volumes.
- SpeedMeter.TransferMeter.Speed: does not model floating-point rounding, because the speed is a real number here.
- The counters are unbounded integers; only `splitSize` can overflow from a configured value, and there the 64-bit wrap-around is modelled.
- ItemPhases: error texts, failure stages and the meters of an item; the progress reports of a batch save, which change no item's final phase.
- ItemPhases.ElementEndsInPhase: the reports of an element are listed as its processing makes them, for each way it can go; the transfer and the retry loop themselves are not run.
- UploadProgress.BatchProgress.UploadCallback: does not update the item table or notify of an item that starts confirming, because the item table is a model of its own in `ItemPhases`.
- A second element with the same ID in one batch: IDs are generated and distinct here.
- FailedIds.ParseFailedIDs: works on characters rather than bytes, because the stored text is written by the program itself in ASCII.
- The clients for Telegram, HTTP, S3, WebDAV, Alist, rclone, aria2, yt-dlp and ffmpeg, the bot handlers, the web API, configuration, databases and texts.
