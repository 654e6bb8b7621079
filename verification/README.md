# Mirror Mirage: a verified model

Mirror Mirage watches directories with inotify, maps changed files to CDN URLs, collects the URLs per CDN
in debounced batches, stores the batches as jobs in a durable queue, and lets one worker per CDN hand
them to the provider. This project models each stage as the code has it and proves what the stages
promise, alone and together.

| files | subject |
|---|---|
| `Globs`, `Strings` | the glob matcher `_gm` against a declarative meaning of patterns |
| `Ownership` | owning watch (filter), fan-out and URLs (mapper) |
| `Watcher`, `WatcherStartup` | recursive watching, the preflight count, one round of the event loop |
| `WatcherRace`, `WatcherCatchUp`, `WatcherRescan` | the watcher while directories appear and files are written |
| `Batcher`, `BatcherRuns`, `BatcherTiming`, `BatcherPatience`, `BatcherIsolation`, `BatcherShutdown` | the debounce protocol |
| `JobQueue`, `Workers`, `WorkerRuns`, `WorkerProgress` | the job table and the workers, with crashes |
| `Limiter` | the sliding-window limiter of the Google provider |
| `Daemon`, `DaemonProgress` | pipeline, batcher, queue and workers in one state |
| `EndToEnd`, `EndToEndProgress` | and with file system and watcher: from the write to the provider |

**Form.** What the code changes in place is a class (`InotifyWatcher`, `Debouncer`, `PersistentQueue`,
`SlidingWindowLimiter`, `EventFilter`) or a method with its loop, and every method is proved against a
function on values. Concurrency is a transition system over the same functions: `Enabled` says when a step
can happen, `Next` what it does, `IsRun` and `After` are about whole runs, and a step is what a task does
between two awaits. Time is a real number that does not run backwards. `fnmatchcase` is a parameter, any
predicate on a component and a pattern component.

**Main results.** A file is written below a watched root, even into a directory the watcher has not met yet.
By the time the watcher is idle the pipeline has taken a report of it in a step after the write, and owes its
purge to every binding of the watch for that event, unless the file was removed or the daemon crashed before;
from then on the purge has a place, or a later step is named that destroyed it. If nothing fails every
binding gets a job newer than the write that carries the file's URL. Such a run, to the provider's ok, exists
from every state of a running daemon without dead tasks; all this in one state of file system, watcher and
daemon (`EndToEnd.WrittenFileIsOwedToEveryBinding`, `EndToEnd.WrittenFileGetsItsJobs`,
`EndToEndProgress.WrittenFileCanBePurged`). Over every run of the daemon, whatever fails, what is owed for an
event is with the pipeline, in the buffer, in an enqueue, or in a job newer than the event, or it was until a
later crash, shutdown or failing enqueue destroyed the only place it had; a job is done only after the
provider said ok on exactly its URLs, after the event (`Daemon.NoPurgeIsLost`). A CDN that is not kept
waiting when it has something to do meets both deadlines, whatever others hold the lock for and whatever fails
for them, and its batches do not leave before them without a reason (`BatcherTiming.OwnDeadlinesAreMet`, `BatcherPatience.EveryFlushHasItsReason`), CDNs do not influence each
other's contents (`BatcherIsolation.FloodsDoNotSpill`), jobs are claimed by one worker at a time and cost a bounded
number of provider calls (`Workers.ClaimsAreExclusive`, `WorkerRuns.ProviderCallBound`), and the limiter's
schedule is safe, kept, and the earliest possible (`Limiter.LimiterIsSafe`,
`Limiter.EverybodyIsAdmittedOnSchedule`, `Limiter.LimiterIsOptimal`).

**Where the code does less than its documentation says.** The model follows the code, and the limits are
theorems:

- `Batcher.run` says that no work is lost on graceful shutdown. The buffer is cleared before `enqueue` is
  awaited, so that a batch whose enqueue fails or is cancelled is gone. Shutdown is lossless if and only if
  no enqueue failed, before it or in its own `flush_all` (`ShutdownIsLosslessUnlessAnEnqueueFailed`,
  `CancelledEnqueueLosesBatch`).
- The architecture notes promise that a restart loses no pending purges. It loses no job (`CrashKeepsJobs`), but
  everything that is not a job yet: what pipeline, buffers and an enqueue under way hold (`Destroys`), and a file
  that was written and not yet reported, for the watcher starts anew without it (`CrashForgetsUnreportedFile`).
- An enqueue that fails while `submit` waits for it raises out of the pipeline and ends the daemon; the rest of
  the event is never submitted, for whatever CDN (`FailingSubmitEndsTheDaemon`).
- A failing enqueue in a debounce task ends the task for good; later submissions of that CDN collect in its
  buffer past any deadline until the size limit or a `flush_all` (`DeadTaskStrandsItsBuffer`,
  `FailureMakesLaterSubmissionsOverdue`).
- "A flood on one CDN never delays flushes for another" is true of what is in buffers and batches. It is not
  true of time: the lock is shared, and an enqueue that takes its time keeps every other CDN waiting
  (`SlowEnqueueDelaysOthers`). A CDN keeps its deadlines if time does not pass while its own task has something
  to do or its own batch is in `enqueue` (`OwnDeadlinesAreMet`).
- One CDN's failing enqueue cuts `flush_all` short for those behind it (`FailureAbortsFlushAll`). A CDN's own
  steps are a run by themselves that leads to the same state of that CDN if and only if this does not happen
  (`RunProjects`).
- A flush by timer can be early: a URL submitted in the moment the wait for an older one times out leaves
  with it, its own quiet window just begun (`TieFlushesEarly`).
- The limiter works for capacities from one only; below, the first caller reads an empty deque
  (`WorksExactlyFromCapacityOne`).
- On a root that is configured twice the filter uses the first watch and the mapper the last
  (`RepeatedRootSplitsTheWatch`).
- A watch whose root an earlier watch covers adds no directory, not even those only the earlier one ignores
  (`NestedWatchAddsNothing`).
- Pruning a directory and ignoring its files come to the same for patterns whose last `**` is followed only by
  components that accept every name a directory entry can have, and for no other single pattern that matches
  any path there can be (`ClosedExactlyForSubtreePatterns`, `PruningIsFilteringExactly`).
- A worker can work on a stale copy of the row exactly if two workers serve one CDN and a job is tried more than
  once (`StaleExactlyWithTwoWorkers`); the daemon starts one worker per CDN.
- A ready job can be overtaken once more than the older jobs have attempts left, by a job that was read
  before it became ready (`LateUpdateBypasses`).

## Model

| member | source | states |
|---|---|---|
| Globs.Gm | src/mirror_mirage/filter.py:29-45 | the matcher, with its index loop, its collapsing of `**` and its search over suffixes, terminates and says yes exactly if the pattern can be laid over the path: `**` on any run of components, any other component on one that matches it |
| Globs.MatchesAnyGlob | src/mirror_mirage/filter.py:48-55 | an ignore list matches exactly if one of its patterns, split at "/", does |
| Globs.MatchIffMatches | src/mirror_mirage/filter.py:29-45 | the recursive matcher and the existence of a tiling of the path are the same |
| Globs.StarSearchesSuffixes | src/mirror_mirage/filter.py:32-38 | `**` and a rest match exactly if the rest matches some suffix of the path, the empty one included |
| Globs.ConsecutiveStarsCollapse | src/mirror_mirage/filter.py:33-35 | a second `**` next to the first changes nothing |
| Globs.LoneStarMatchesAll | src/mirror_mirage/filter.py:36-37 | a final `**` accepts every rest, also none |
| Globs.StagingPatternMeaning | src/mirror_mirage/filter.py:48-55 | `**/x/**` matches exactly the paths with some component that matches x |
| Globs.TrailingStarsCoverSubtree | src/mirror_mirage/filter.py:29-55 | a pattern ending in `**` that matches a directory matches every path below it |
| Globs.SubtreePatternCoversSubtree | src/mirror_mirage/filter.py:29-55 | so does, on paths there can be, every pattern whose last `**` is followed only by components that accept every name of a directory entry |
| Globs.ClosedExactlyForSubtreePatterns | src/mirror_mirage/filter.py:29-55 | and no other pattern: given a path there can be and a pattern that matches it, the pattern matches every extension there can be if and only if it is of that kind |
| Ownership.EventFilter.constructor | src/mirror_mirage/filter.py:81-84 | the filter keeps the same watches, by decreasing depth, those of equal depth in the order of the configuration |
| Ownership.EventFilter.Normalize | src/mirror_mirage/filter.py:86-122 | the loop over the watches gives the verdict: none without an owner, for an ignored path, and for a mask that is neither a change nor, where the owner has `flush_on_delete`, a deletion; else the kind, the path and the root of the owner, which is found by first match |
| Ownership.ScanFindsDeepestOwner | src/mirror_mirage/filter.py:81-108 | for any list of watches the scan returns the deepest root on the path, among equal roots the first configured |
| Ownership.NoOwnerNoRoot | src/mirror_mirage/filter.py:100-108 | the scan finds none exactly if no root is on the path |
| Ownership.DictionaryKeepsLast | src/mirror_mirage/mapper.py:33-34 | the mapper's dictionary holds the bindings of the last watch on a root |
| Ownership.PassedEventIsMapped | src/mirror_mirage/mapper.py:36-53 | an event that passes purges one URL per binding of the last watch on the deepest root of its path, in order |
| Ownership.FilterAndMapperAgree | src/mirror_mirage/filter.py:86-122 | with distinct roots the watch whose patterns and options decide is the one whose bindings are purged; the event passes exactly if its path is not ignored and its mask is IN_MOVED_TO or IN_CLOSE_WRITE, or IN_DELETE or IN_MOVED_FROM and the watch wants those, and as an invalidation exactly in the first case |
| Ownership.RepeatedRootSplitsTheWatch | src/mirror_mirage/mapper.py:33-34 | with a root configured twice the first watch lets the event of a file below it through and the second watch's bindings are purged |
| Ownership.UrlRoundTrip | src/mirror_mirage/mapper.py:46-52 | removing the prefix from a URL and splitting at "/" gives back the components below the root |
| Ownership.DistinctFilesDistinctUrls | src/mirror_mirage/mapper.py:46-52 | under one binding different files have different URLs |
| Limiter.SlidingWindowLimiter.TryAcquire | src/mirror_mirage/providers/gcp.py:46-55 | the locked section: exactly the leading calls that have aged out are dropped; with room among the rest the caller is admitted now, else it is told to sleep until the oldest of them ages out; an empty deque without room is the error |
| Limiter.SlidingWindowLimiter.Acquire | src/mirror_mirage/providers/gcp.py:44-56 | a lone caller is admitted at the first moment with fewer than `capacity` calls in the window, and the deque is what is left plus that moment |
| Limiter.WaitIsExact | src/mirror_mirage/providers/gcp.py:54-56 | the sleep ends at the first moment with room, not sooner and not later |
| Limiter.LimiterIsSafe | src/mirror_mirage/providers/gcp.py:38-56 | over every run of any number of callers: the deque is a suffix of the history within capacity, admission happens exactly if the whole history has room, no half-open window anywhere holds more than `capacity` |
| Limiter.QuotaIffSpaced | src/mirror_mirage/providers/gcp.py:30-36 | no window is overfull exactly if the k-th admission is a window later than the (k - capacity)-th |
| Limiter.WorksExactlyFromCapacityOne | src/mirror_mirage/providers/gcp.py:51-54 | no run reads the oldest call of an empty deque if and only if the capacity is at least one |
| Limiter.AdmissionsFollowSchedule | src/mirror_mirage/providers/gcp.py:44-56 | the k-th admission is the later of its arrival and a window after the (k - capacity)-th |
| Limiter.EverybodyIsAdmittedOnSchedule | src/mirror_mirage/providers/gcp.py:44-56 | in a punctual run every caller is admitted at exactly the scheduled moment: by any later time it has been |
| Limiter.LimiterIsOptimal | src/mirror_mirage/providers/gcp.py:44-56 | whatever schedule respects arrivals and quota: when it has made its k-th admission the limiter has made its own, no later |
| Limiter.BurstTakesWholeWindows | src/mirror_mirage/providers/gcp.py:44-56 | of requests at one moment the k-th is admitted after k / capacity windows |
| JobQueue.PersistentQueue.Enqueue | src/mirror_mirage/queue.py:93-104 | one new pending row under a new largest id, without attempts, due from the time of the call and ready then; every other row as it was |
| JobQueue.PersistentQueue.SelectReady | src/mirror_mirage/queue.py:121-136 | the row read, field by field, is the one with the least id among the pending ones of the CDN that are due, none exactly if there is none |
| JobQueue.PersistentQueue.ClaimSelected | src/mirror_mirage/queue.py:137-144 | the conditional update counts one row exactly if the job is still pending, and then its status is in flight and nothing else has changed |
| JobQueue.PersistentQueue.ClaimReady | src/mirror_mirage/queue.py:106-153 | undisturbed, a claim changes the status of the least ready job to in flight, and nothing else, and returns the row as read |
| JobQueue.PersistentQueue.SetDone | src/mirror_mirage/queue.py:155-158 | the row's status becomes done, whatever it was, and nothing else changes |
| JobQueue.PersistentQueue.SetRescheduled | src/mirror_mirage/queue.py:160-174 | the row becomes pending with the given attempts and time, whatever its status was, and nothing else changes |
| JobQueue.PersistentQueue.SetFailed | src/mirror_mirage/queue.py:176-182 | the row becomes failed with the message, whatever its status was, and nothing else changes |
| JobQueue.PersistentQueue.ResetAll | src/mirror_mirage/queue.py:184-190 | exactly the rows in flight become pending, no row changes in any other field, and their number is returned |
| JobQueue.DelaysGrow | src/mirror_mirage/queue.py:199-209 | the first delay is the initial one, each next twice the one before, as long as that is below the ceiling, and else the ceiling |
| JobQueue.TotalDelayBound | src/mirror_mirage/queue.py:199-209 | all delays of a job of n attempts add up to at most initial * (2^(n-1) - 1) and (n-1) * ceiling |
| Workers.WorkerRound | src/mirror_mirage/daemon.py:51-112 | one round of a worker: the least ready job is claimed, the provider called on its URLs, and the row is then done; or pending with one attempt more, due initial * 2^(attempts before), at most the ceiling, after the outcome was recorded; or failed with the reason; an exception counts as retryable; no other row changes |
| Workers.StepKeepsInv | src/mirror_mirage/daemon.py:51-112 | with any number of workers each step keeps: one holder for each row in flight, none for others, finished rows backed by provider calls; rows keep CDN and URLs |
| Workers.ClaimsAreExclusive | src/mirror_mirage/queue.py:106-153 | in every interleaving of SELECTs and UPDATEs a job has at most one holder, and one exactly while in flight |
| Workers.DoneMeansPurged | src/mirror_mirage/daemon.py:72-82 | a row is done only if a provider call on exactly its URLs returned ok |
| Workers.FinishedRowsStay | src/mirror_mirage/queue.py:155-190 | though no statement checks the status, done and failed rows never change again under the protocol |
| WorkerRuns.OneInFlightPerCdn | src/mirror_mirage/daemon.py:137-160 | with one worker per CDN and the reset at startup at most one row per CDN is in flight |
| WorkerRuns.ClaimIsFreshAndLeast | src/mirror_mirage/queue.py:106-153 | then the copy a worker holds equals the row apart from its status, and the choice is the least ready id |
| WorkerRuns.StaleWithTwoWorkers | src/mirror_mirage/queue.py:137-153 | for any two workers on one CDN and any retry limit above one a run in which one of them calls the provider with an outdated attempt count |
| WorkerRuns.StaleExactlyWithTwoWorkers | src/mirror_mirage/queue.py:120-153 | for every configuration: in every run everybody who works on a job has a copy equal to the row, if and only if no two workers serve one CDN or jobs are tried only once |
| WorkerRuns.ProviderCallBound | src/mirror_mirage/daemon.py:51-112 | the provider is called for a job at most max(1, max_attempts) times plus once per crash that found it in flight, the call under way included; claims obey the same bound, exactly for finished jobs; failed jobs were refused for good or had all attempts |
| WorkerRuns.ClaimsAreSpaced | src/mirror_mirage/daemon.py:83-102 | consecutive claims of a job are apart by the backoff of the failure between them; after a crash a claim may repeat the attempt |
| WorkerRuns.BackoffIsExact | src/mirror_mirage/daemon.py:83-102 | over every run a job was put off as often as it has attempts, the k-th time for exactly the k-th delay from the moment the failure was recorded; it is due when the last of these ends, or since it was enqueued; all of them together stay within both bounds of the total delay |
| WorkerRuns.NewJobIsReadAtOnce | src/mirror_mirage/queue.py:93-136 | a job enqueued while none of its CDN is ready is what a worker of the CDN reads at that very time |
| WorkerRuns.RecoveryIsImmediateExactly | src/mirror_mirage/queue.py:184-190 | for every configuration: in every run each row a crash finds in flight is ready for its CDN at that very time, if and only if no two workers serve one CDN or nothing is ever put off |
| WorkerProgress.ProductiveStepLowers | src/mirror_mirage/daemon.py:51-112 | every claim and every recorded outcome lowers the work left, summed over all rows |
| WorkerProgress.WorkIsBounded | src/mirror_mirage/daemon.py:51-112 | without enqueues and crashes a run has at most so many claims and outcomes as the measure says |
| WorkerProgress.CanProgress | src/mirror_mirage/daemon.py:51-112 | no unfinished job of a served CDN is ever stuck |
| WorkerProgress.CanDrain | src/mirror_mirage/daemon.py:44-112 | from every reachable state some run without new jobs, crashes and refusals finishes all jobs of served CDNs, and those that were pending are done |
| WorkerProgress.BypassIsBounded | src/mirror_mirage/queue.py:121-133 | while a ready job waits its worker claims no more often than the older jobs have attempts left, plus one for a job read before, however many newer jobs arrive |
| WorkerProgress.LateUpdateBypasses | src/mirror_mirage/queue.py:120-153 | that one more does happen |
| Batcher.Debouncer.SubmitTarget | src/mirror_mirage/batcher.py:51-70 | after a submit the URL is in the buffer with what was there, dated now, the first of them as before or now, and the task awake; or, at the size limit, all of it is in an enqueue and buffer and timestamps are cleared |
| Batcher.Debouncer.FlushBuffer | src/mirror_mirage/batcher.py:97-106 | an empty buffer is left alone; another is cleared with its timestamps, and exactly its contents are in the enqueue that is awaited; tasks and events stay |
| Batcher.Debouncer.Awake | src/mirror_mirage/batcher.py:111-112 | the task takes its event and clears it |
| Batcher.Debouncer.AssessBuffer | src/mirror_mirage/batcher.py:114-123 | on an empty buffer the inner loop ends; else it is time to flush exactly if the quiet window after the last submission is over or the first has reached the maximal age, and otherwise the task sleeps until exactly the earlier of these two moments; buffers and timestamps stay |
| Batcher.Debouncer.TimeOut | src/mirror_mirage/batcher.py:128-133 | the wait gives up at its deadline |
| Batcher.Debouncer.FlushByTask | src/mirror_mirage/batcher.py:123-135 | the task flushes what is in the buffer when it gets the lock |
| Batcher.Debouncer.Enqueued | src/mirror_mirage/batcher.py:106 | the batch is a job and the one who waited goes on |
| Batcher.Debouncer.EnqueueRaised | src/mirror_mirage/batcher.py:97-106 | the batch is gone, the lock is free, and a debounce task that waited is dead |
| Batcher.Debouncer.BeginFlushAll | src/mirror_mirage/batcher.py:91-95 | `flush_all` takes the lock and goes over the buffers there are |
| Batcher.Debouncer.FlushNext | src/mirror_mirage/batcher.py:94-95 | one buffer of `flush_all` |
| BatcherRuns.BatchesAreExact | src/mirror_mirage/batcher.py:62-106 | over every interleaving the submissions to a CDN are, in order and once each, those of its batches, of the enqueue under way and of the buffer; every job lists exactly the URLs of its part, without repetition, between one and max(1, batch_max_size) |
| BatcherRuns.NoBufferIsStranded | src/mirror_mirage/batcher.py:97-135 | a buffer with something in it has a task past the outer wait or a set wake event, or a dead task, and that only after a failed enqueue or a cancellation; the timestamps exist exactly then, first before last before now |
| BatcherTiming.OwnDeadlinesAreMet | src/mirror_mirage/batcher.py:108-135 | a CDN whose task has nothing to do while time passes, and whose own enqueues take no time and do not fail, gets every submission enqueued within the maximal age and its batch within the quiet window of its last, though timers may be stale, and others hold the lock and fail meanwhile |
| BatcherTiming.DeadlinesAreMet | src/mirror_mirage/batcher.py:108-135 | when all tasks run before time passes, this is so for all CDNs at once |
| BatcherPatience.EveryFlushHasItsReason | src/mirror_mirage/batcher.py:3-11 | in a run in time for the CDN, whatever the others do, a batch is taken out only by the submission that filled it, by `flush_all`, or by its task at the moment its last submission is a quiet window old, its first is of the maximal age, or its last is being made |
| BatcherPatience.TieFlushesEarly | src/mirror_mirage/batcher.py:128-135 | that last case happens: a run in which a batch leaves before either of the two |
| BatcherTiming.InternalStepsRunOut | src/mirror_mirage/batcher.py:108-135 | the batcher's own steps cannot hold up time for ever |
| BatcherTiming.TimeCanPass | src/mirror_mirage/batcher.py:108-135 | when none of them is left, time can go on |
| BatcherIsolation.RunProjects | src/mirror_mirage/batcher.py:41-106 | the steps of one CDN, with `flush_all` and time, are by themselves a run and lead to the same state of that CDN, if and only if no other CDN's failing enqueue cuts a `flush_all` short |
| BatcherIsolation.FailureAbortsFlushAll | src/mirror_mirage/batcher.py:91-106 | a run in which that happens, and the buffer behind it stays full |
| BatcherIsolation.TimedRunProjects | src/mirror_mirage/batcher.py:41-135 | the same with time |
| BatcherIsolation.FloodsDoNotSpill | src/mirror_mirage/batcher.py:13-14 | runs that agree on one CDN's steps agree on its buffer, timestamps and task, on the URLs and submissions of its enqueue under way, on its submissions and its flushes, whatever is submitted to others and whatever fails there |
| BatcherIsolation.SlowEnqueueDelaysOthers | src/mirror_mirage/batcher.py:49-70 | a run in which another CDN's enqueue takes any length of time and this CDN's task cannot flush meanwhile |
| BatcherShutdown.FlushAllEmptiesBuffers | src/mirror_mirage/batcher.py:91-95 | a `flush_all` that runs to its end leaves all buffers empty, whatever the tasks do meanwhile |
| BatcherShutdown.CancelEndsTheTasks | src/mirror_mirage/batcher.py:81-86 | once the tasks are cancelled none of them makes a step any more |
| BatcherShutdown.ShutdownIsLosslessUnlessAnEnqueueFailed | src/mirror_mirage/batcher.py:72-95 | after the shutdown, its `flush_all` completed or cut short, everything ever submitted is in a job if and only if no enqueue failed or was cancelled, before or during it |
| BatcherShutdown.CancelledEnqueueLosesBatch | src/mirror_mirage/batcher.py:81-106 | a run in which a batch is lost that way and `flush_all` finds nothing to save |
| BatcherShutdown.DeadTaskStrandsItsBuffer | src/mirror_mirage/batcher.py:108-135 | whatever is submitted to a CDN whose task has died is in its buffer, and the task stays dead, as long as the size limit is not reached and `flush_all` does not come by |
| BatcherShutdown.FailureMakesLaterSubmissionsOverdue | src/mirror_mirage/batcher.py:108-135 | one failing enqueue leads there: a run in which the next URL is in the buffer at any time later |
| Watcher.IsIgnored | src/mirror_mirage/watcher.py:178-183 | a path is ignored exactly if it is not outside the root and one of the patterns, split at "/", matches what is below the root |
| Watcher.CountWatchableDirs | src/mirror_mirage/watcher.py:78-99 | the pruning walk counts exactly the directories that lead to the root through unignored ones, the root itself exempt |
| Watcher.MaskName | src/mirror_mirage/watcher.py:102-115 | none exactly if none of the four bits is set, and else the first of IN_MOVED_TO, IN_CLOSE_WRITE, IN_DELETE and IN_MOVED_FROM that is |
| Watcher.InotifyWatcher.StartWatching | src/mirror_mirage/watcher.py:206-207 | both dictionaries get the directory |
| Watcher.InotifyWatcher.AddRecursive | src/mirror_mirage/watcher.py:185-217 | the new watches are exactly the existing directories reached through new, unignored ones; or the kernel has no room for all of them, and the error comes when as many are watched as there is room for |
| Watcher.InotifyWatcher.AddDirAndScan | src/mirror_mirage/watcher.py:219-262 | on a file system at rest: the same watches, and one announcement for each of the unignored files in them and for nothing else; a path that has become a file by then is watched itself |
| Watcher.InotifyWatcher.NextItem | src/mirror_mirage/watcher.py:268-321 | announcements first; an item comes of an event exactly if it is no overflow, no vanished watch and not about a directory, has one of the four bits and a path, and its directory is watched, and it is that path under its name and the root of the directory; a directory created in a watched one is rescanned; a vanished watch is forgotten; anything else changes nothing |
| WatcherStartup.Enter | src/mirror_mirage/watcher.py:131-162 | the preflight error exactly if the sum of the counts exceeds what is available, and before anything is watched; else the backstop's error exactly if the watches exceed the kernel's room; else all watches in order |
| WatcherStartup.PreflightSuffices | src/mirror_mirage/watcher.py:142-156 | startup adds no more watches than counted |
| WatcherStartup.PreflightIsExact | src/mirror_mirage/watcher.py:142-156 | and as many, if no root lies in another |
| WatcherStartup.WatchedFrom | src/mirror_mirage/watcher.py:155-156 | then a directory is watched exactly if it is in the reach of some root, for a watch above it |
| WatcherStartup.NestedWatchAddsNothing | src/mirror_mirage/watcher.py:191-192 | a root already watched for an earlier watch adds nothing |
| WatcherStartup.PruningIsFiltering | src/mirror_mirage/watcher.py:185-217 | with patterns of that kind, on a tree of directory entries, the reach of a watch is its root and all directories below that are not ignored |
| WatcherStartup.PruningIsFilteringExactly | src/mirror_mirage/watcher.py:185-217 | for a single pattern this holds on every tree of directory entries if and only if it is of that kind or matches no path there can be |
| WatcherStartup.PassedPathsAreWatched | src/mirror_mirage/watcher.py:185-217 | then whatever the filter would let through lies in a watched directory |
| WatcherRace.StepKeepsInv | src/mirror_mirage/watcher.py:219-321 | each step of the file system and of the watcher keeps: an unwatched directory in a watched one is on its way, a written file in a watched directory is on its way |
| WatcherRace.NoFileIsMissed | src/mirror_mirage/watcher.py:219-321 | with steps of the file system anywhere, also between watching and scanning one directory, every written file not ignored is reported since, or announced, or its event queued, or it lies in or below a directory whose creation is queued or whose scan is under way |
| WatcherRace.WrittenFileIsReported | src/mirror_mirage/watcher.py:219-321 | a file written and not removed is reported after it was written, for its watch, by the time the watcher is idle |
| WatcherRace.ReportPassesFilter | src/mirror_mirage/daemon.py:121-125 | the filter passes such a report, and finds the root the watcher named |
| WatcherCatchUp.WatcherStepLowers | src/mirror_mirage/watcher.py:219-321 | every step of the watcher leaves it less to do |
| WatcherCatchUp.WatcherCatchesUp | src/mirror_mirage/watcher.py:219-321 | while the file system rests the watcher makes no more steps than its backlog |
| WatcherCatchUp.WatcherNeverStuck | src/mirror_mirage/watcher.py:268-321 | and stops only with nothing queued, announced or in hand |
| WatcherRescan.UndisturbedRescan | src/mirror_mirage/watcher.py:219-262 | worked off without interruption the agenda does what `AddDirAndScan` is specified to do, each announcement once, in whatever order directories are listed |
| WatcherRescan.ReceiveIsNextItem | src/mirror_mirage/watcher.py:268-321 | taking an event yields and rescans as `NextItem` does |
| Daemon.StepKeepsInv | src/mirror_mirage/daemon.py:115-165 | each step of pipeline, batcher, queue and workers keeps the invariants of batcher and workers together, and every finished call is about a job there is |
| Daemon.DatedStays | src/mirror_mirage/daemon.py:115-165 | and keeps every purge owed dated: calls and jobs after its event can be told from those before |
| Daemon.NoPurgeIsLost | src/mirror_mirage/daemon.py:44-165 | from an event on, over every run, each purge it makes owed is in the end with the pipeline, in its buffer, in an enqueue, or in a job newer than the event, or it was so until a step after the event, a crash, a shutdown or a failing enqueue, that destroyed the only place it had; a job that carries it is done only after an ok, and failed only after a refusal, that came after the event for exactly its URLs |
| Daemon.WhatIsWrittenOff | src/mirror_mirage/daemon.py:115-165 | a purge owed loses its place in a step exactly if that is a crash and it has no job; a shutdown and only the pipeline has it; a failing enqueue and only its batch has it, or the pipeline, if that waits for this enqueue and ends with it |
| Daemon.FailingSubmitEndsTheDaemon | src/mirror_mirage/daemon.py:121-127 | from the start, with batches of one: an event is taken and its first enqueue raises; the daemon has stopped and of the purges the event made owed, to any binding, none has a place |
| Daemon.StopEndsEverything | src/mirror_mirage/batcher.py:79-89 | after a stop, or an enqueue that raises out of the pipeline, nothing happens until the next start but the end of an enqueue under way, `flush_all`, and time |
| Daemon.CrashKeepsJobs | src/mirror_mirage/daemon.py:137-140 | no job is lost in a crash |
| Daemon.EventOwesEveryBinding | src/mirror_mirage/daemon.py:121-127 | an event that passes makes a purge owed to every binding of the watch that owns its path, and puts it next to be submitted |
| Daemon.OnlyPassingEventsOwe | src/mirror_mirage/daemon.py:121-127 | and nothing is owed for any other event, or to anybody else |
| Daemon.EveryBindingGetsItsJob | src/mirror_mirage/daemon.py:115-127 | if nothing fails meanwhile, then once pipeline and batcher are empty every binding has a job newer than the event with its URL, and its outcome came after the event |
| Daemon.SubmitToEnd | src/mirror_mirage/batcher.py:51-106 | a submit with its enqueue, should the buffer be full: the batch is a job, or the enqueue raises and the batch is gone |
| Daemon.PipelineTurn | src/mirror_mirage/daemon.py:121-127 | one turn of the loop submits the targets of the event in order and nothing else, and leaves each in its buffer or in a job of this turn; the first enqueue that raises ends it there |
| EndToEnd.ReportPasses | src/mirror_mirage/daemon.py:121-125 | a report of a written file is an event its watch lets through |
| EndToEnd.DaemonRuns | src/mirror_mirage/daemon.py:115-127 | with file system, watcher and daemon in one state, the pipeline pulling, the daemon's part of a run is a run of the daemon |
| EndToEnd.DaemonPartIsOfTheRun | src/mirror_mirage/daemon.py:115-127 | and apart from the events it takes from the watcher its steps are exactly the daemon's steps of the run |
| EndToEnd.EventsAreTheItems | src/mirror_mirage/daemon.py:121-127 | and these events are the items the watcher yields in the run, all of them and in order |
| EndToEnd.WrittenFileIsOwedToEveryBinding | src/mirror_mirage/watcher.py:219-321 | a file written in any reachable state: once the watcher is idle there is a step since the write, with the file still due, in which the pipeline took a report of it and so came to owe its purge to every binding of the watch, and each of these has a place in the end or lost it in a later step; or in which the file was removed or the daemon crashed |
| EndToEnd.CrashForgetsUnreportedFile | docs/architecture.md:11-12 | that last case happens: after a write, a crash and a restart everything is idle and no binding's purge has a place |
| EndToEnd.WrittenFileGetsItsJobs | src/mirror_mirage/daemon.py:44-127 | if nothing fails, then once watcher, pipeline and batcher are idle every binding has a job newer than the write with the file's URL, and when finished it was decided by a provider call after the write |
| EndToEndProgress.EverythingCanBeFinished | src/mirror_mirage/daemon.py:44-165 | from every reachable state in which the daemon runs and no debounce task is dead some run, with no failure, no refusal and the file system at rest, empties watcher, pipeline and batcher and finishes all jobs; those that were pending or come of it are done |
| EndToEndProgress.WrittenFileCanBePurged | src/mirror_mirage/daemon.py:44-165 | a file written in such a state: some run leads to where every binding of its watch has a job newer than the write with its URL, and each such job is done by an ok after the write |

## Left out

- The providers' HTTP, AWS and Google calls, tokens and status codes, Fastly's domain discovery and CloudFront's path conversion: a provider is any outcome, a result or an exception.
- Configuration files, secrets, the command line, signals, logging and `stats`: configuration values are parameters; that every CDN of a binding is defined and has its worker is a hypothesis of the progress theorems.
- SQLite itself: each statement with its commit is one atomic update of a map from ids to rows.
- inotify's queue overflow, OS errors other than a full watch table at startup, and symbolic links; an overflow is only logged, and events lost in it are lost.
- Renamed, removed and recreated directories in the moving model: the watcher does not act on a directory moved into the tree, so there is no coverage to prove.
- Nested roots in the moving model: a nested root that is already watched gets no watches of its own.
- Coalescing of identical kernel events, and entries that appear while `scandir` reads: a listing is taken at one moment.
- `fnmatchcase`: any predicate.
- Rounding and overflow of floating-point times, and jumps of the wall clock.
- The time a CDN's own enqueue takes and the latency of the event loop: both are zero in `BatcherTiming`; `wait_for` may time out in the moment its event is set.
- Endless loops: a worker, the pipeline and the watcher are modelled by one round of their loop, and by runs of any length.
- The order in which sets and directories are listed: any order.
- The semaphore after the limiter: the limiter bounds admissions, not the moments of the requests.
- Limiter.SlidingWindowLimiter.Acquire: a lone caller; callers that compete between sleep and retry are modelled by `Limiter.IsRun`, not by this method.
- Watcher.InotifyWatcher.AddRecursive: an `add_watch` that fails for another reason than a full watch table, and a directory that cannot be listed, are not modelled.
- WatcherStartup.Enter: the same errors.
- Watcher.InotifyWatcher.AddDirAndScan: on a file system at rest, without OS errors; the interleaved case is `WatcherRace`, where the recursion is an agenda of tasks.
- Daemon.SubmitToEnd: starts with a free lock and runs without steps of other tasks in between; the interleaved case is `Daemon.NoPurgeIsLost`.
- Daemon.PipelineTurn: the same.
