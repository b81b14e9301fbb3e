# CastKeeper: a verified model of the background pipeline

CastKeeper polls podcast feeds, downloads their episodes and serves them again as feeds. What it does
in the background is a small protocol over one SQLite store: a leased retry queue, workers that pop
tasks from it, a scheduler that pushes tasks, and web requests that push tasks as well. This project
models that protocol, the components around it, and what they promise:

| file | what it models |
|---|---|
| `Queue.dfy`, `QueueWorker.dfy` | the `queue_tasks` table with its four statements, and the worker loop, as classes |
| `QueueRuns.dfy` | every run of the queue: any number of workers, any interleaving, failed write-backs |
| `Paths.dfy`, `Podcasts.dfy` | object names and MIME tables; episode and podcast rows and the local object store |
| `Pipeline.dfy`, `StoredDownloads.dfy`, `FailedDownloads.dfy` | the episode download protocol over queue, episode table and object store; when success means stored, and what a failing download shows |
| `DownloadWorker.dfy`, `FeedWorker.dfy` | the handlers, each proved to take exactly the steps of the protocol |
| `Scheduler.dfy` | the interval scheduler over restarts |
| `Sessions.dfy`, `Users.dfy` | the session store with its housekeeping; users, levels and the admin requests |
| `Feed.dfy` | feed ingest, feed generation and their round trip |
| `Migrations.dfy` | ordered, crash-resumable migrations |

## How to read the model

- **Two layers.** What the program changes in place is a class with methods, and each method's
  contract gives its whole new state. Runs are sequences of events over values: `Enabled` says when a
  step can be taken, `Apply` what it does, and the theorems are about every sequence that `CanRun`
  admits. The methods are tied to the steps: `QueueWorker.Start`, `HandleDownload`,
  `RequeueDownload`, `ProcessTask` and the poll (`CreateNew`, `PollKeepsOutbox`) are proved to do
  what steps of the runs do.
- **Time** is an integer number of nanoseconds that never goes back. Each `time.Now()` is a parameter
  of its own, so two readings may differ.
- **Transactions and statements** are atomic: they commit wholly, or fail without effect when their
  `commits` parameter says so. Which happens is not constrained, and a crash may come between any two.
- **Rows.** A task's primary key is its position, as rows are only soft deleted. Saving a copy of a
  task writes every column, `deleted_at` included. Episodes, podcasts, sessions and users are maps from
  their primary keys. Session keys are fresh.
- **Strings** are the bytes of Go strings, one character for each byte.
- **Inductions** are written out: automatic induction is switched off wherever Dafny would try it.
- **Foreign functions** (version 5 UUIDs as in section 5.5 of RFC 9562, dates, durations) are
  parameters, assumed to be no more than a lemma's `requires` says.
- A float that is out of range converts to the smallest `int64`, as on amd64. The receive cap keeps
  the program far from it (`BackoffExactUpTo29`).

## What is proved, and where the program falls short of its promises

The main theorems are `Pipeline.Outbox`, `QueueRuns.LeaseSafety`, `QueueRuns.BoundedBypass`,
`QueueRuns.ReceiveAccounting`, `QueueRuns.BackoffSpacing`, `QueueWorkers.SucceededIsOver`,
`StoredDownloads.SuccessMeansStored`, `FailedDownloads.ShowsLastWrite`, `FeedWorker.SyncConserves`,
`FeedWorker.PollsConverge`, `Scheduler.SchedulerSpacing`, `Scheduler.SchedulerIsPrompt`,
`Sessions.HousekeepingInvisible`, `Sessions.SessionChain`, `Users.NoLockout`,
`Migrations.CrashResumable` and `Feed.ReingestGenerated`. Where a promise fails, the project says when:

- `docs/docs/usage/managing-podcasts.md:29-32` says that a download which keeps failing shows as
  `failed`. Until it is requeued, an episode shows what the last status write of a receive of its only
  task wrote, and `pending` exactly when none has written one (`ShowsLastWrite`). A receive that ends
  before the download writes none (`ErrorShowsExactly`), so six of them use up the task and leave the
  episode `pending` for good (`ExhaustedIsReached`), with one worker and without a crash or a failed
  write.
- With several workers, a hold that outlasts its lease puts a task in two hands, and the late
  whole-row save then loses a receive (`LateReturnLosesAReceive`); a pop does so exactly when the task
  it picks is held (`DoubleHoldExactly`).
- A requeue of a pending episode leaves two tasks. If the first goes well and the process stops while
  the second has the file open, the episode is a `success` with an incomplete file
  (`RequeueGivesNextIsDone`, `CrashUnstores`).
- Polls of a feed come to rest if and only if none of its GUIDs is stored under another podcast, and
  the first item of each missing GUID passes validation and carries the key of the podcast that is
  polled (`PollsConverge`). The last condition fails when a feed's own key changes, which nothing
  prevents: the first new item is then stored under the new key, no later poll finds it, and every
  later poll aborts on it (`SettlesByKeys`, `MovedFeedAborts`, `MovedFeedExample`, `FeedKeys`).
- Housekeeping is invisible if and only if an accepted request is touched within an hour
  (`HousekeepingInvisible`).
- A generated feed is ingested without a rejection if and only if every success episode has a supported
  MIME type, and unchanged if and only if texts are also within the truncation bounds
  (`ReingestGenerated`); categories survive if and only if they are flat (`CategoriesRoundTrip`).
- The columns of the second migration can be missing after a run that succeeds: if the first of them
  was there already, the others are not added (`ColumnsAreThere`).

## Model

| member | source | states |
|---|---|---|
| Clock.Since | pkg/framework/scheduler.go:110 | an age is the difference of the instants, saturated at the ends of the 64-bit range |
| Queue.FirstEligible | pkg/framework/queue.go:55-66 | the answered task is visible, under the cap, of the queue, not deleted, and before every other such task by creation time and then id; there is no answer only if there is no such task |
| Queue.QueueTable.constructor | pkg/framework/queue.go:23-29 | an empty table |
| Queue.QueueTable.PushQueueTask | pkg/framework/queue.go:31-50 | appends one visible task with no receives, and fails without effect when the write is refused or the queue has no name |
| Queue.QueueTable.PopQueueTask | pkg/framework/queue.go:52-83 | answers a task exactly when one is eligible and the transaction commits; the task is the first of them, and its row is leased for the visibility timeout and counted; nothing else changes |
| Queue.QueueTable.CompleteQueueTask | pkg/framework/queue.go:85-90 | soft deletes the task's row and nothing else, or has no effect |
| Queue.QueueTable.ReturnQueueTask | pkg/framework/queue.go:92-100 | writes the worker's whole copy back with its backoff, or has no effect |
| QueueRuns.BackoffBound | pkg/framework/queue.go:15-18 | for every count the cap allows, the backoff is 10 seconds times the power of two, at most 640 seconds, and under the lease |
| QueueRuns.BackoffExactUpTo29 | pkg/framework/queue.go:92-95 | the backoff is the intended product if and only if there were at most 29 receives; beyond, it overflows |
| QueueRuns.StepKeepsNumbered | pkg/framework/queue.go:39-50 | ids are positions, and creation times grow with them and never lie in the future |
| QueueRuns.StepKeepsHolds | pkg/framework/queue.go:52-100 | if the popped task is unheld, a step keeps lease safety: no task in two hands, every copy equal to its row |
| QueueRuns.StepKeepsTotal | pkg/framework/queue.go:68-71 | the sum of stored receive counts stays the number of deliveries |
| QueueRuns.StepKeepsAccounts | pkg/framework/queue.go:57-69 | each stored receive count stays the number of that task's deliveries, at most six |
| QueueRuns.StepKeepsSpacing | pkg/framework/queue.go:55-98 | deliveries of a task stay apart by its backoff, whether it was returned or abandoned |
| QueueRuns.StepKeepsInv | pkg/framework/queue.go:39-100 | one step keeps order, lease safety, accounting and spacing together |
| QueueRuns.OneWorkerPopsUnheld | cmd/serve/serve.go:85-110 | with one sequential worker per queue a popped task is in nobody's hands |
| QueueRuns.LeaseKeepingPopsUnheld | pkg/framework/queue.go:15-71 | so it is for any number of workers when no hold outlasts its lease |
| QueueRuns.InTimeKeepsLeases | pkg/framework/queue.go:15-68 | a step that comes within half an hour of the pop of every task held keeps the leases |
| QueueRuns.OrderlyStep | cmd/serve/serve.go:85-110 | in both regimes the first step of a run keeps the invariant |
| QueueRuns.RunKeepsInv | pkg/framework/queue.go:39-143 | every run with one worker per queue, or with any number of workers that keep their leases, keeps the queue's invariant |
| QueueRuns.LeaseSafety | pkg/framework/queue.go:52-100 | any number of workers: while no hold outlasts its lease, no task is ever in two hands and every copy agrees with its row |
| QueueRuns.ReturnLosesNothing | pkg/framework/queue.go:92-100 | then the whole-row save of a return changes `visible_after` alone: no count is lost, nothing is undeleted |
| QueueRuns.DoubleHoldExactly | pkg/framework/queue.go:52-83 | a pop breaks lease safety if and only if it picks a held task, which only a lease that has run out allows |
| QueueRuns.LateReturnLosesAReceive | pkg/framework/queue.go:92-100 | a run of two workers in which a late return writes an older receive count over a newer one |
| QueueRuns.StepCounts | pkg/framework/queue.go:39-90 | pushes add rows, pops add deliveries, completions add completed rows, and no other step adds any |
| QueueRuns.RunCounts | pkg/framework/queue.go:39-90 | over a run of either kind, rows, deliveries and completed rows grow by the number of pushes, pops and completions |
| QueueRuns.DispositionsPartition | pkg/framework/queue.go:57-69 | every row is live, exhausted or completed, and only one of them |
| QueueRuns.ReceiveAccounting | docs/docs/usage/managing-podcasts.md:29-30 | with one worker per queue, or any number that keep their leases, a task's stored count is the number of its pops, one try and five retries at most; every push is live, exhausted or completed; all pops together are at most six times the pushes |
| QueueRuns.PushedIsEligible | pkg/framework/queue.go:39-50 | a pushed task can be popped from the moment after its push |
| QueueRuns.PoppedIsHidden | pkg/framework/queue.go:68-71 | a popped task is hidden for exactly thirty minutes, for good at its sixth receive, and the worker's copy is the row |
| QueueRuns.RedeliveredExactly | pkg/framework/queue.go:85-100 | a task given up is delivered again exactly when it has receives left and its backoff, or after abandonment its lease, is over; a completed one never |
| QueueRuns.DeletedStays | pkg/framework/queue.go:85-90 | a completed task stays completed and is delivered no more, in every run of either regime |
| QueueRuns.SpacingAdds | pkg/framework/queue.go:92-98 | spaced deliveries add up: the n-th comes more than 10 * (2^n - 2) seconds after the first |
| QueueRuns.BackoffSpacing | pkg/framework/queue.go:92-99 | in every run, receives k and k + 1 of a task are more than 10 * 2^k seconds apart, and there are at most six |
| QueueRuns.StepOvertake | pkg/framework/queue.go:55-69 | a step never lets an older task overtake a waiting one more often than before, and a pop of it uses up one time |
| QueueRuns.StepKeepsWaiting | pkg/framework/queue.go:55-69 | a task that waits eligible goes on waiting until it is popped |
| QueueRuns.StepBypass | pkg/framework/queue.go:55-69 | each pop of the queue that passes a waiting task by takes one from the budget of the older tasks; no push adds to it |
| QueueRuns.BypassBudget | pkg/framework/queue.go:55-69 | a run that does not pop a waiting task pops its queue no more often than that budget |
| QueueRuns.BoundedBypass | pkg/framework/queue.go:55-69 | with one worker per queue, a waiting task is popped before its queue has been popped more often than the sum of (6 - receive count) over the older live tasks of the queue, whatever is pushed and however handlers end |
| QueueWorkers.LoopKeepsInv | pkg/framework/queue.go:108-143 | the states the loop goes through all meet the queue's invariant |
| QueueWorkers.TurnDecides | pkg/framework/queue.go:126-139 | a popped task whose handler succeeded and whose write committed is never eligible again; one whose handler failed is so exactly once ten seconds times two to the number of receives have passed, and one whose write was refused once the half hour of its lease has passed, as long as there were fewer than six receives |
| QueueWorkers.SucceededIsOver | pkg/framework/queue.go:136 | in the states the loop goes through, no later turn delivers a task whose handler succeeded and whose write committed |
| QueueWorkers.LoopKeepsDeleted | pkg/framework/queue.go:108-143 | no turn of the loop brings a deleted task back |
| QueueWorkers.QueueWorker.constructor | pkg/framework/queue.go:102-106 | a worker of this table and queue |
| QueueWorkers.PopIsFirst | pkg/framework/queue.go:55-71 | the row that the pop answers is the one that the pop event of the runs takes |
| QueueWorkers.QueueWorker.Poll | pkg/framework/queue.go:117-124 | nothing changes when nothing is answered; otherwise the worker holds the leased row, by one pop event |
| QueueWorkers.QueueWorker.Handle | pkg/framework/queue.go:126-139 | whatever is pushed meanwhile, the task's row is deleted if its handler succeeded, hidden for its backoff if it failed, and as it was if the write was refused; the worker holds nothing |
| QueueWorkers.QueueWorker.Work | pkg/framework/queue.go:117-142 | from the pop on, a turn is a run of its events that leaves the popped task as its handler and its write-back ended |
| QueueWorkers.QueueWorker.Iterate | pkg/framework/queue.go:109-142 | one turn of the loop is a run of queue steps, under the one-worker rule, that leaves the worker idle and the popped task as its handler and its write-back ended |
| QueueWorkers.QueueWorker.Start | pkg/framework/queue.go:108-143 | the loop takes the table through a one-worker run, with tasks pushed between and during its turns; after each turn the worker is idle, and the task it popped is deleted if its handler succeeded, hidden for its backoff if it failed, still leased if that write was refused |
| Paths.SanitiseIdentity | pkg/util/url.go:35-38 | a string is left as it is if and only if its bytes are in [a-zA-Z0-9=_-], given by code points, and only such bytes come out |
| Paths.UuidIsKept | pkg/podcasts/feed.go:152-184 | texts of hexadecimal digits and dashes, as UUIDs are, are left as they are |
| Paths.SanitiseRuns | pkg/util/url.go:35-38 | a maximal run of other characters becomes one `-`, and what is before and after it is sanitised alone; only characters of the alphabet come out |
| Paths.SanitiseIdempotent | pkg/util/url.go:35-38 | sanitising twice is sanitising once |
| Paths.SanitiseNonEmpty | pkg/util/url.go:35-38 | only the empty string is sanitised to nothing |
| Paths.DetectMIMEType | pkg/podcasts/mime.go:24-42 | a supported declared type wins; otherwise the type is the one that the URL's extension belongs to, and there is none only if neither is supported |
| Paths.TablesAreInverse | pkg/podcasts/mime.go:10-22 | the two tables are inverse to each other |
| Paths.SupportedTypes | pkg/podcasts/mime.go:10-15 | the four supported types and their extensions, and no others |
| Paths.LastPart | pkg/podcasts/mime.go:31-32 | the suffix after the last dot, or all of it when there is none |
| Paths.PathParts | pkg/objectstorage/local.go:34 | a path determines its directory, its name and its extension |
| Paths.PathsAre | pkg/downloadworker/downloadworker.go:47-48 | a parser-made episode is stored as its key with its extension in the directory of its podcast's key, and the podcast's image as a jpg there |
| Paths.EpisodePathsDistinct | pkg/downloadworker/downloadworker.go:42-48 | episodes with keys over the alphabet share an object path if and only if they are the same episode with the same extension |
| Paths.ParsedPathsDistinct | pkg/downloadworker/downloadworker.go:42-48 | so do parser-made episodes, whose keys are UUIDs |
| Paths.ImagePathsApart | pkg/webserver/handlers.go:117-119 | no episode of a supported type is stored where a podcast image is |
| Podcasts.Store.constructor | pkg/podcasts/podcast.go:22-66 | an empty store on a queue |
| Podcasts.Store.UpdateEpisodeStatus | pkg/podcasts/podcast.go:207-223 | changes the status, and the byte count when one is given, of that episode and of nothing else |
| Podcasts.Store.ListEpisodes | pkg/podcasts/podcast.go:167-176 | exactly the rows of the podcast, each once, newest first |
| Podcasts.ListingInserts | pkg/podcasts/podcast.go:167-176 | a listing stays one, of the table with one more row, wherever that row is put in |
| Podcasts.Store.ListPodcasts | pkg/podcasts/podcast.go:158-165 | exactly the rows of the podcast table, each once |
| Podcasts.Store.UpdatePodcastTimes | pkg/podcasts/podcast.go:178-187 | changes the two times of that podcast and of nothing else |
| Podcasts.Store.SaveRemoteFile | pkg/objectstorage/local.go:23-67 | the number of bytes exactly when the copy came to its end; a file that was created holds what has arrived, complete or not |
| Pipeline.StepKeepsShape | pkg/framework/queue.go:52-100 | a copy in a worker's hands, however late, has its row's key, queue and data, and no row is lost |
| Pipeline.StepKeepsPhase | pkg/downloadworker/downloadworker.go:23-62 | a handler works on the episode that its task names, and ends well only after a status write |
| Pipeline.OnlyCompletionDeletes | pkg/framework/queue.go:85-90 | a task's row becomes deleted only when that task is completed |
| Pipeline.StepKeepsWrite | pkg/framework/queue.go:126-139 | a deleted download task has had its status written |
| Pipeline.StepKeepsPending | pkg/webserver/handlers.go:202-212 | each step keeps every pending episode's undeleted task that has written nothing |
| Pipeline.StepKeepsOutbox | pkg/feedworker/feedworker.go:88-102 | one step of any part of the program keeps the outbox invariant |
| Pipeline.RunKeepsOutbox | pkg/feedworker/feedworker.go:88-102 | every run keeps it |
| Pipeline.HistoryIsRight | pkg/downloadworker/downloadworker.go:48-60 | the recorded history is that of the run: which push set an episode pending last, and which tasks have written a status |
| Pipeline.Outbox | pkg/feedworker/feedworker.go:88-102 | transactional outbox: after any polls, downloads by any number of workers, requeues, failures and crashes, a pending episode has the undeleted download task with its GUID that was pushed when pending was last set, and no receive of that task has written a status |
| StoredDownloads.WriteElsewhere | pkg/downloadworker/downloadworker.go:47-48 | writing one episode's object leaves every other episode's object alone |
| StoredDownloads.StepKeepsCopy | pkg/objectstorage/local.go:34-66 | a copy that ended is in the store, complete and with that length, until the status is written |
| StoredDownloads.StepKeepsSuccess | pkg/downloadworker/downloadworker.go:47-60 | a step keeps each settled success episode stored |
| StoredDownloads.StepKeepsStored | pkg/downloadworker/downloadworker.go:47-60 | a step keeps the whole store invariant for one download worker |
| StoredDownloads.StepKeepsTouched | pkg/downloadworker/downloadworker.go:47-60 | while writes commit and no handler crashes, an unsettled object is in the hands of the handler at work |
| StoredDownloads.RunKeepsStored | pkg/downloadworker/downloadworker.go:47-60 | every one-worker run keeps the store invariant |
| StoredDownloads.RunKeepsTouched | pkg/downloadworker/downloadworker.go:47-60 | every calm one-worker run leaves no object unsettled behind |
| StoredDownloads.SuccessOrUnsettled | pkg/downloadworker/downloadworker.go:47-60 | whatever fails or crashes, a success episode that is not stored was truncated by a receive that has written no status since |
| StoredDownloads.SuccessMeansStored | pkg/downloadworker/downloadworker.go:47-60 | without crashes in a handler and failed status writes, between tasks every success episode has a complete object of exactly `Bytes` bytes, also after requeues during a download |
| StoredDownloads.CrashUnstores | pkg/objectstorage/local.go:34-38 | a crash after the truncation leaves a success episode with an incomplete object and nobody at work on it |
| StoredDownloads.SaveGoesWell | pkg/downloadworker/downloadworker.go:47-60 | from a read episode, saving and writing success is a calm run that stores the object |
| StoredDownloads.ReceiveAndLoad | pkg/downloadworker/downloadworker.go:22-31 | a free worker's receive and read is a calm run to the episode of the first eligible task |
| StoredDownloads.DownloadGoesWell | pkg/downloadworker/downloadworker.go:22-62 | a download that goes well stores its episode, completes its task and touches nothing else |
| StoredDownloads.RequeueGivesNextIsDone | pkg/webserver/handlers.go:202-212 | a requeue of a pending episode leads, by a run without failures, to a next task for an episode that is already a success |
| DownloadWorker.StatusWriteRuns | pkg/downloadworker/downloadworker.go:50-60 | the status write is a step: success with the byte count after a save, failed after a failure, nothing when refused |
| DownloadWorker.OpenFailsRuns | pkg/downloadworker/downloadworker.go:48-55 | a file that cannot be created leaves the objects alone and the episode failed |
| DownloadWorker.CopyRuns | pkg/downloadworker/downloadworker.go:48-60 | a created file holds what has arrived, and the status fits |
| DownloadWorker.HandlerRuns | pkg/downloadworker/downloadworker.go:22-63 | from any received task the handler's branches are runs of the protocol with these effects |
| DownloadWorker.HandleDownload | pkg/downloadworker/downloadworker.go:17-64 | does what that run does; an unreadable episode, podcast or credentials, or an unsupported type, is an error that leaves rows and objects alone; otherwise nil exactly when the file was saved and success written, with the episode then stored, and failed exactly when the download failed and the write commits |
| DownloadWorker.EndingIsTheLoops | pkg/framework/queue.go:126-139 | the write-back of the protocol's runs is the one of the worker loop |
| DownloadWorker.ErrorShowsExactly | pkg/downloadworker/downloadworker.go:22-60 | one handler call that ends in an error on a pending episode shows it as failed exactly when it reached the download and its write committed; otherwise the episode stays pending |
| DownloadWorker.ExhaustedCanStayPending | pkg/downloadworker/downloadworker.go:22-45 | from any state the outbox allows, a sixth receive that ends before the download leaves a pending episode pending, with a task that is never delivered again |
| DownloadWorker.RequeueDownload | pkg/webserver/handlers.go:192-220 | the status and the fresh task together, as the protocol's requeue, or neither; 404 exactly for an unknown episode |
| FailedDownloads.StepKeepsOnlyTask | pkg/feedworker/feedworker.go:88-102 | until it is requeued, an episode has exactly the task it was created with |
| FailedDownloads.StepShows | pkg/downloadworker/downloadworker.go:48-60 | only receives of that task change the status, to what they write |
| FailedDownloads.RunShows | pkg/downloadworker/downloadworker.go:48-60 | so over a run the status is the last one written by a receive of that task |
| FailedDownloads.RunShowsCreated | pkg/downloadworker/downloadworker.go:48-60 | from before the episode's creation, too: no earlier write counts |
| FailedDownloads.PendingExactly | pkg/downloadworker/downloadworker.go:48-60 | the last written status is still pending exactly when nothing was written |
| FailedDownloads.ShowsLastWrite | docs/docs/usage/managing-podcasts.md:29-32 | in every run, an episode that nobody has requeued has one task and shows what the last status write of a receive of it wrote; it is pending exactly when none of its receives has written a status, however many there were |
| FailedDownloads.TryOnce | pkg/downloadworker/downloadworker.go:22-45 | a receive whose handler ends before the download can follow whenever receives are left, and counts as one |
| FailedDownloads.TryToTheEnd | pkg/framework/queue.go:92-100 | so a task's receives can all be used up that way, with one worker and no other failure |
| FailedDownloads.ExhaustedIsReached | docs/docs/usage/managing-podcasts.md:29-32 | a run from the empty store, with one worker, no crash and no failed write, that ends with a task received six times, nothing to deliver, and the episode pending |
| FeedWorker.PlanIsFresh | pkg/feedworker/feedworker.go:75-103 | what a poll creates is parsed, new to the store and without repetition |
| FeedWorker.PlanTakesFirst | pkg/feedworker/feedworker.go:75-103 | each creation is made with the first item of its GUID, and validly |
| FeedWorker.WithCreatedIs | pkg/feedworker/feedworker.go:88-93 | creations add exactly their rows, pending, and change no other |
| FeedWorker.WithTasksIs | pkg/feedworker/feedworker.go:94 | pushes append exactly one task for each, in order |
| FeedWorker.SyncConserves | pkg/feedworker/feedworker.go:75-103 | in every prefix of a poll, rows created equal tasks pushed, each new row is pending with exactly one new task, and no existing row changes |
| FeedWorker.TaskForCreated | pkg/feedworker/feedworker.go:91-97 | the new tasks carry exactly the created GUIDs |
| FeedWorker.SyncCovers | pkg/feedworker/feedworker.go:75-115 | after a loop without error every parsed GUID is stored |
| FeedWorker.PollAdds | pkg/feedworker/feedworker.go:75-103 | a poll adds parsed episodes that were missing and changes nothing else |
| FeedWorker.CreatedFromCandidate | pkg/feedworker/feedworker.go:88-103 | a GUID that a poll has stored has the row of its first item in the feed |
| FeedWorker.RestsExactly | pkg/feedworker/feedworker.go:75-103 | a poll succeeds and adds nothing exactly when it finds every item in the listing |
| FeedWorker.PlanProgress | pkg/feedworker/feedworker.go:75-103 | a poll creates the first item that is missing, if it is valid and everything before it is listed, even if it then aborts |
| FeedWorker.ForeignAborts | pkg/podcasts/podcast.go:52 | a GUID stored under another podcast makes the poll fail |
| FeedWorker.PollKeepsSettling | pkg/feedworker/feedworker.go:70-103 | if every missing item can be created under the polled key and none is foreign, a poll leaves it so |
| FeedWorker.PollShrinks | pkg/feedworker/feedworker.go:70-103 | in that case each poll strictly shrinks the set of missing GUIDs until it is empty, and then changes nothing and succeeds |
| FeedWorker.PollsShrink | pkg/feedworker/feedworker.go:70-103 | and n polls take at least n GUIDs off, or all |
| FeedWorker.ForeignStays | pkg/feedworker/feedworker.go:70-103 | no poll takes a GUID away from another podcast |
| FeedWorker.PollsKeepUnsettled | pkg/feedworker/feedworker.go:70-103 | in the other case no number of polls helps: an item that cannot be created stays missing, and one created under another key stays foreign |
| FeedWorker.RestIsSettled | pkg/feedworker/feedworker.go:70-103 | a poll that succeeds and adds nothing has nothing left that is foreign or cannot be created |
| FeedWorker.PollsConverge | pkg/feedworker/feedworker.go:55-103 | for every store, polled key, feed and validation: repeated polls reach one that succeeds and adds nothing, after at most as many polls as GUIDs are missing, if and only if no item is stored under another podcast and the first item of each missing GUID is valid and carries the polled key |
| FeedWorker.SettlesByKeys | pkg/podcasts/feed.go:97-137 | for a parsed feed of valid episodes that means: nothing foreign, and the feed's own key is the polled one or nothing is missing |
| FeedWorker.MovedFeedAborts | pkg/feedworker/feedworker.go:61-102 | a feed whose own key has changed aborts in every poll after the one that meets its first missing item |
| FeedWorker.AfterPollsShift | pkg/feedworker/feedworker.go:55-118 | polls after a first poll are polls from what it left |
| FeedWorker.MovedFeedExample | pkg/feedworker/feedworker.go:61-102 | such a feed, of one item whose GUID is stored nowhere |
| FeedWorker.CreateStep | pkg/feedworker/feedworker.go:88-99 | creating an episode is the protocol's create step |
| FeedWorker.CreationIsAStep | pkg/feedworker/feedworker.go:88-102 | so is the next creation after any prefix of a poll's |
| FeedWorker.PollKeepsOutbox | pkg/feedworker/feedworker.go:75-103 | every prefix of a poll keeps the outbox |
| FeedWorker.CreateWithTask | pkg/feedworker/feedworker.go:90-102 | the row and its task together, or neither; never over an existing key |
| FeedWorker.PlanStep | pkg/feedworker/feedworker.go:75-103 | one round of the loop is one step of the plan |
| FeedWorker.ListingHas | pkg/feedworker/feedworker.go:76-86 | searching the listing decides whether the podcast has the GUID |
| FeedWorker.CreateNew | pkg/feedworker/feedworker.go:75-103 | the nested loops carry out the plan on rows and tasks |
| FeedWorker.ProcessPodcast | pkg/feedworker/feedworker.go:55-118 | nothing without credentials, feed or listing; otherwise the plan, and after a plan without error the times: checked now, and of a sorted feed the latest publish time, or none |
| FeedWorker.HandleFeedTask | pkg/feedworker/feedworker.go:21-53 | a listed podcast that was checked less than 600 seconds before is left alone, every other one is processed, whatever became of those before it, and the task succeeds exactly when the listing was made and none failed |
| Scheduler.TaskScheduler.constructor | pkg/framework/scheduler.go:39-48 | a scheduler over rows that outlive it |
| Scheduler.TaskScheduler.SetupState | pkg/framework/scheduler.go:72-100 | adds rows for its tasks only, as never run, and resets none; success means all are there, failure that for the first task that is not there a lookup failed or the row could not be added |
| Scheduler.TaskScheduler.ProcessTask | pkg/framework/scheduler.go:102-129 | a known task is pushed and its last run updated, in one, exactly when at least its interval has passed since its last run and the transaction commits; otherwise nothing changes |
| Scheduler.StepSpacing | pkg/framework/scheduler.go:110-123 | a step keeps pushes an interval apart and the row remembering the last |
| Scheduler.RunSpacing | pkg/framework/scheduler.go:102-129 | every run does |
| Scheduler.WindowBound | pkg/framework/scheduler.go:110-121 | spaced pushes fill a window no more than its width allows |
| Scheduler.SchedulerSpacing | pkg/framework/scheduler.go:72-129 | over whole runs and restarts, pushes of a task are at least its interval apart, and a window of length W has at most W / interval + 1 of them |
| Scheduler.NeverRunIsDue | pkg/framework/scheduler.go:86-113 | a task that has never run is due: its age saturates, where a wrapped one need not be |
| Scheduler.DueExactly | pkg/framework/scheduler.go:110 | a task is due exactly when its interval has passed, and saturation makes no difference but for the smallest interval there is |
| Scheduler.OverdueIsPushed | pkg/framework/scheduler.go:110-123 | a tick that commits when the interval has passed since the last run pushes, in every state |
| Scheduler.StepIsPrompt | pkg/framework/scheduler.go:102-129 | a step leaves pushes prompt, and the last test of the age before the interval is over |
| Scheduler.RunIsPrompt | pkg/framework/scheduler.go:102-129 | so does every run of regular ticks |
| Scheduler.SchedulerIsPrompt | pkg/framework/scheduler.go:50-129 | over whole runs and restarts, while ticks come at least every T and commit, each push is tested for less than its interval and T after the push before, and the last tick of any run came less than an interval after the last push |
| Scheduler.RowsStay | pkg/framework/scheduler.go:72-129 | a row is never removed or reset; only a push changes it |
| Sessions.SessionStore.constructor | pkg/auth/sessions/session.go:28-35 | no sessions |
| Sessions.SessionStore.GetSessionByID | pkg/auth/sessions/session.go:54-66 | the session exactly when it started at most 24 hours ago and was seen at most an hour ago |
| Sessions.SessionStore.CreateSession | pkg/auth/sessions/session.go:68-91 | a session that starts and was seen now, or no effect |
| Sessions.SessionStore.UpdateSessionLastSeen | pkg/auth/sessions/session.go:93-103 | moves one session's last-seen time; a missing session is no error |
| Sessions.SessionStore.DeleteSession | pkg/auth/sessions/session.go:105-127 | removes that session and no other |
| Sessions.SessionStore.DeleteExpiredSessions | pkg/auth/sessions/session.go:131-144 | keeps exactly the sessions that started at most 25 hours and were seen at most two hours before, unchanged, and counts the others |
| Sessions.SessionStore.Authenticate | pkg/auth/auth.go:37-45 | accepts exactly what the lookup accepts and then touches it; a failed touch does not reject |
| Sessions.StepKeepsInv | pkg/auth/sessions/session.go:54-127 | times stay in order, start times do not change, every accepted access was in time |
| Sessions.CleanIsThorough | pkg/auth/sessions/session.go:131-144 | in every run, right after a clean the sessions are exactly those that were within both limits and the buffer |
| Sessions.GoneIsGone | pkg/auth/sessions/session.go:54-66 | a session that is gone is accepted by no access of any run from then on |
| Sessions.LogoutEnds | pkg/auth/sessions/session.go:105-127 | so no access of a session is accepted after its logout |
| Sessions.CleanedIsDead | pkg/auth/sessions/session.go:131-144 | what a clean deletes can neither be accepted nor be revived by a touch within the buffer |
| Sessions.SameAnswer | pkg/auth/sessions/session.go:54-66 | states that differ in dead sessions only answer alike |
| Sessions.StepMatches | pkg/auth/sessions/session.go:54-127 | every step but a clean keeps the cleaned and the uncleaned state matching |
| Sessions.CleanMatches | pkg/auth/sessions/session.go:131-144 | a clean keeps them matching |
| Sessions.RunsMatch | pkg/auth/sessions/session.go:131-144 | so whole runs can be taken without their cleans and answer alike |
| Sessions.HousekeepingInvisible | pkg/auth/sessions/session.go:129-144 | in every run of creations, accesses, logouts and cleans each access is answered as without the cleans, if and only if touches come within the hour of the buffer |
| Sessions.LateTouchShows | pkg/auth/sessions/session.go:93-103 | a run with a touch just over an hour late that is answered differently without its clean |
| Sessions.LookupExtends | pkg/auth/sessions/session.go:62-64 | an accepted access is within an hour of the start, or of the last touch of a chain |
| Sessions.StepKeepsChain | pkg/auth/sessions/session.go:54-103 | one step keeps a chain for every accepted access |
| Sessions.RunKeepsChain | pkg/auth/sessions/session.go:54-127 | every run does, and start times never change |
| Sessions.SessionChain | pkg/auth/sessions/session.go:20-103 | in every run, an accepted session was started at most 24 hours before, its start unchanged, and from the start to the access there is a chain of accepted accesses, each within an hour of the touch before it, the first of the start |
| Sessions.TouchesArePrompt | pkg/auth/auth.go:37-45 | the recorded touches are as late as those of the run |
| Sessions.PromptChain | pkg/auth/sessions/session.go:93-103 | so accesses of the chain are apart by an hour and the lateness of touches at most |
| Users.Allows | pkg/auth/access_control.go:18-60 | a route without a level admits nobody, one that asks for none admits everybody, and any other exactly the users of at least that level |
| Users.LevelRoutes | pkg/auth/access_control.go:29-50 | a route that needs a level admits exactly the sessions of live users of that level, and no deleted user's |
| Users.LevelsAreNested | pkg/auth/users/user.go:43-54 | a higher level passes wherever a lower one does |
| Users.UserStore.constructor | pkg/auth/users/user.go:24-29 | no users |
| Users.UserStore.CreateUser | pkg/auth/users/user.go:108-134 | a new row exactly when password, name and level are valid and no row, deleted ones included, has the name |
| Users.UserStore.UpdateUser | pkg/auth/users/user.go:136-155 | renames and re-levels a live user, keeping names unique and levels between 1 and 3 |
| Users.UserStore.DeleteUser | pkg/auth/users/user.go:180-191 | soft deletes a live user, and nothing else |
| Users.UserStore.HandleDelete | pkg/webserver/handlers.go:334-367 | refuses exactly bad ids and the current user; 404 for users that are not there |
| Users.UserStore.HandleUpdate | pkg/webserver/handlers.go:456-511 | refuses exactly bad requests and the current user's own demotion; otherwise the given name and level, or no effect |
| Users.UserStore.HandleCreate | pkg/webserver/handlers.go:375-427 | done exactly when there is a new user; refused exactly when the form is invalid |
| Users.VisitKeepsActor | pkg/webserver/handlers.go:347-491 | whoever passes as an admin is still one after the own request; others change nothing |
| Users.NoLockout | pkg/webserver/handlers.go:347-491 | from a state with an admin, every run of user management requests leaves one |
| Users.LevelChangeGoesThrough | pkg/auth/users/user.go:148-150 | an update that keeps the user's own name and changes only the level goes through, but for the current user's own demotion |
| Users.LosesAdminExactly | pkg/webserver/handlers.go:347-491 | a request ends somebody's admin level exactly when an admin deletes or demotes another one |
| Feed.Truncate | pkg/podcasts/feed.go:186-191 | a prefix within the limit, and all of it if and only if it fits |
| Feed.EpisodeKeys | pkg/podcasts/feed.go:169-184 | up to UUID collisions, items have the same key exactly when their GUIDs are the same; without GUIDs, items of the same title and date have it whatever their URLs, and without dates exactly when the URLs are the same |
| Feed.FeedKeys | pkg/podcasts/feed.go:152-167 | up to UUID collisions, feeds have the same key exactly when the first of podcast GUID, self link, link and title that each of them has is the same |
| Feed.ItemsPartition | pkg/podcasts/feed.go:100-138 | accepted episodes and errors are together as many as the items |
| Feed.ParsedExactly | pkg/podcasts/feed.go:100-137 | an item is accepted if and only if it has a URL and its declared type or the URL's extension is supported; the episode has the declared type if supported and otherwise the extension's, the first 500 and 10000 bytes of title and description, the empty description when there is none, and the item's URL, date and duration |
| Feed.ItemHasResult | pkg/podcasts/feed.go:100-138 | every storable item has its episode, every other its error |
| Feed.ItemsHaveResults | pkg/podcasts/feed.go:100-142 | so it is after sorting |
| Feed.AcceptedFrom | pkg/podcasts/feed.go:111-137 | every accepted episode comes from a storable item |
| Feed.EpisodeIsStorable | pkg/podcasts/feed.go:126-137 | the episode of a storable item has an object path and a UUID for a key |
| Feed.ParseItems | pkg/podcasts/feed.go:98-138 | the loop answers the accepted episodes and the errors, each in feed order |
| Feed.AcceptedIsStorable | pkg/podcasts/feed.go:111-137 | an accepted episode is that of a storable item, has a supported type, texts within bounds, a URL and a UUID |
| Feed.SortFunc | pkg/podcasts/feed.go:140-142 | sorted by publish time, and a permutation |
| Feed.EpisodesFromFeed | pkg/podcasts/feed.go:97-150 | sorted, an episode of its type for every item with a URL and a supported type, an error for every other item, and nothing else |
| Feed.LastIsLatest | pkg/podcasts/feed.go:69-72 | the last of the sorted episodes has the latest publish time; without episodes there is none |
| Feed.PodcastFromFeed | pkg/podcasts/feed.go:64-95 | the last-episode time is the latest publish time of what was accepted, or nil; the podcast's fields are the feed's |
| Feed.FeedCategories | pkg/podcasts/feed.go:225-241 | the named categories in order, each with its named sub-category |
| Feed.NamedAreKept | pkg/podcasts/feed.go:227-238 | every named category is kept in its place, with its sub-category if that is named |
| Feed.UnnamedAreSkipped | pkg/podcasts/feed.go:228 | an unnamed one is as if it were not there |
| Feed.ParsedCategoriesAreFlat | pkg/podcasts/feed.go:225-241 | parsed categories are named, with at most one named level below |
| Feed.FlatCategoriesSurvive | pkg/podcasts/feed.go:257-272 | flat categories come back from a generated feed |
| Feed.CategoriesRoundTrip | pkg/podcasts/feed.go:225-272 | categories come back if and only if they are flat |
| Feed.ParsedCategoriesSurvive | pkg/podcasts/feed.go:225-272 | categories that were parsed come back unchanged |
| Feed.FeedFromPodcast | pkg/podcasts/feed.go:257-309 | the items are those of the success episodes, in order, each with the episode's texts, date, GUID, type, length and link; the other fields are the podcast's |
| Feed.SuccessesAre | pkg/podcasts/feed.go:288-291 | exactly the success episodes are used, each as often as it is there |
| Feed.SuccessesInOrder | pkg/podcasts/feed.go:288-291 | in their order |
| Feed.ItemsAre | pkg/podcasts/feed.go:293-305 | the k-th item is that of the k-th success episode, field by field |
| Feed.LinksDiffer | pkg/podcasts/feed.go:301 | links of distinct episodes differ |
| Feed.LinkHasNoType | pkg/podcasts/feed.go:301 | a download link never has a supported extension, so the declared type decides |
| Feed.ItemComesBack | pkg/podcasts/feed.go:294-305 | a generated item is accepted if and only if its type is supported, and shows the same if and only if its texts fit |
| Feed.NoneRejectedExactly | pkg/podcasts/feed.go:97-149 | generated items are all accepted if and only if all types are supported |
| Feed.ShownComesBack | pkg/podcasts/feed.go:97-149 | episodes that fit come back in order with what a listener sees of them |
| Feed.ShownIsPermuted | pkg/podcasts/feed.go:140-142 | sorting permutes what a listener sees, too |
| Feed.ShownNeedsBounds | pkg/podcasts/feed.go:126-137 | only episodes that fit come back unchanged |
| Feed.ReingestGenerated | pkg/podcasts/feed.go:97-309 | a generated feed is ingested without errors if and only if all types are supported, and gives, sorted, exactly the success episodes with title, description, type and publish time if and only if texts also fit; categories come back if and only if flat |
| Migrations.Database.constructor | pkg/database/migrations.go:24-27 | a database with these migrations applied |
| Migrations.Database.Migrate | pkg/database/migrations.go:29-76 | the loop over a listing made at its start does what looking at the recorded names each time would |
| Migrations.UpgradeExtends | pkg/database/migrations.go:35-75 | from an applied prefix a run, wherever it ends, reaches a longer one with the state of its migrations applied once in order, the full one exactly when it succeeds |
| Migrations.UpgradesExtend | pkg/database/migrations.go:35-75 | so do any number of runs |
| Migrations.CrashResumable | pkg/database/migrations.go:35-75 | after any failing or interrupted runs, a run that succeeds gives the state of applying every migration once in order, and further runs change nothing |
| Migrations.CommitsReachEnd | pkg/database/migrations.go:40-75 | a run whose transactions all commit succeeds |
| Migrations.NextName | pkg/database/migrations.go:19-22 | with distinct names, the next migration is not among the applied ones |
| Migrations.SecondKeepsLevels | pkg/database/migrations/002_add_encrypted_values.go:14-28 | the second migration touches no user |
| Migrations.PromotionHappensOnce | pkg/database/migrations/001_init.go:38-56 | users that are not deleted are made admins by the run that applies the first migration and by no other; no run changes anything else of a user |
| Migrations.ColumnsAreThere | pkg/database/migrations/002_add_encrypted_values.go:14-28 | after a run that succeeds the credential columns are there, except in exactly the case where some are missing and neither migration adds them |

## Left out

- HTTP, XML reading and printing, the S3 driver, the iTunes client, cryptography, templates, the command line, configuration and logging: foreign code or plumbing. A feed is a record, a download an outcome that may be any.
- The S3 driver's byte count, which may be -1 and is not the object's length: the results on stored objects are for the local driver.
- The scheduler's ticker loop: `SetupState` and `ProcessTask` are modelled, and its runs allow them in any order and at any times.
- QueueWorkers.QueueWorker.Start: the workers of other queues are not at work inside its loop; the runs of `QueueRuns` allow them. Sleeping between polls is not modelled, and cancellation is the end of the turns.
- DownloadWorker.HandleDownload: nothing else happens between its reads and its writes; the runs of `Pipeline`, and so `Outbox` and `SuccessMeansStored`, allow requeues and every other step there.
- FeedWorker.HandleFeedTask: other workers' steps do not fall into a poll; the runs of `Pipeline` have each creation as a step of its own between any others. The order in which podcasts are listed is left open.
- FeedWorker.ProcessPodcast: that a feed cannot be fetched or parsed, and validation and commit of each creation, are parameters. An item whose negative duration fails validation is a creation that is refused.
- Feed.SortFunc: which order the library's sort gives to episodes of the same time; no more than sortedness and permutation is used.
- Feed.PodcastFromFeed: the parsing of durations is a parameter, and URL validation belongs to the fetching.
- Users.NoLockout: requests at the same time and the command line's edits; each request reads the acting user when it starts.
- Users.UserStore.CreateUser: the password rules are a parameter, and changes of passwords are not modelled.
- Migrations.Database.Migrate: a migration that fails by itself is one whose transaction does not commit.
- AddPodcast and the database part of feed generation: single reads and a single write.
- HTTP basic authentication, login redirects and URL validation: single decisions without state.
- Podcast, episode and session columns that nothing here decides on: credentials, creation and update times.
