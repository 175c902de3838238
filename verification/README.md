# dvstrip, modelled and proved in Dafny

dvstrip turns Dolby Vision files into plain HDR10. Around the foreign tools that do the codec work it is
a small concurrent pipeline: file events go to a debouncing scheduler, then to a worker pool that works on
each path at most once at a time, then through a disk-space reservation, then through a
write-tmp, verify, rename publish. This project models that pipeline's state, interleavings and accounting
and proves what its documentation promises of them, or exactly when the promise holds.

`dafny verify dfyconfig.toml` checks everything.

## How it is laid out

| file | what it holds |
|---|---|
| `SpaceLedger.dfy`, `SpaceGuard.dfy` | the disk-space ledger as a value with its laws, and `SpaceGuard` as a class whose methods are its critical sections |
| `Progress.dfy` | ffmpeg's progress stream, from one line to what the whole stream does to the ledger |
| `Disk.dfy`, `DiskSafety.dfy`, `DiskLimits.dfy` | any number of jobs against one disk as a step system; when a write can meet a full disk, exactly; two complete runs in which one does |
| `SchedulerModel.dfy`, `FileScheduler.dfy`, `SchedulerRuns.dfy` | the debouncing scheduler as functions, as classes that act exactly as those functions, and over whole runs |
| `QueueModel.dfy`, `WorkerPool.dfy` | the worker pool as a step system with every non-atomic point its own stage, and as a class |
| `Shutdown.dfy`, `ShutdownLimits.dfy` | scheduler and queue together, from `Close` to the return of `Wait`; a complete run that loses a file |
| `Rescan.dfy` | change detection and whole runs of rescan passes |
| `Paths.dfy`, `Text.dfy` | file naming and eligibility, on strings |
| `Probe.dfy`, `Outcomes.dfy` | reading a probe's report, classification, verification of a result, what becomes of each file, counters |
| `Publish.dfy`, `Handling.dfy`, `Convert.dfy` | the publish protocol with many workers, users and crashes; pool and protocol together; the two conversions as methods on a file tree and a space guard |
| `Sums.dfy`, `Options.dfy` | sums over maps, optional values |

Where the program changes state step by step the model does too: `SpaceGuard`, `FileScheduler`,
`PendingFile`, `Pool`, `Stats`, `RescanLoop` and `FileTree` are classes, and their methods are proved equal to
functions on values. The laws are proved about those functions. What may interleave (lock acquisitions, timer
callbacks that have fired and cannot be stopped, the steps between `LoadOrStore`, `Add` and the channel send, or
between the handler's return, `Delete` and `Done`) is a separate step of a step system, and the theorems there
are about every run.

## What does not hold as documented

* **"N workers can never collectively exceed the free space"** (internal/convert/space.go:30-32, 84-88 and
  docs/how-it-works.md:143). `reserve` reads the free bytes before it takes the lock, and `shrinkDir` charges a
  report to any job that writes into the same directory. `Disk.NoOverrun` proves the promise with a term for the
  bytes that land between a sample and its lock, and `DiskSafety.NeverFills` proves that no write meets a full
  disk in any run that keeps to two bounds. Both are exact. `DiskSafety.StaleSampleExact`: a sample may exceed the
  bytes free at the lock by what the ledger holds back for bytes that no job will write any more, and by no more.
  `DiskSafety.SharedDirectoryExact`: a report leaves every future safe if and only if nobody else in the
  reporter's directory has bytes left to write; otherwise some order of the map and some continuation with fresh
  samples fill the disk. `DiskLimits.StaleSampleOverruns` and `DiskLimits.SharedDirectoryOverruns` are complete
  runs from the start. The documentation calls the ledger per-directory; the code keys it by filesystem and uses
  the directory only to attribute reports, and the model follows the code.
* **"Nothing scheduled is lost on shutdown"** (cmd/watch_scheduler.go:129-130). A timer callback that has removed
  its path and given up the lock is known neither to `Close` nor to `Wait` until its submit call has counted the
  job. `Shutdown.ShutdownCompleteIff` proves that every shutdown leaves everything done if and only if no callback
  is in that window when `Close` is called. The window includes the inside of `Submit`, between storing the path in
  the dedup set and counting it: `ShutdownLimits.DedupedIntoUncounted` is a complete run in which a path that is
  pending at `Close` is deduplicated into such a job, and `Wait` returns with no handler ever run.
* **Output names.** With some suffixes (for example `.dvstrip.x`, `Paths.CollidingSuffixExample`) a side-by-side
  output carries the name of a temporary file, which sweeps delete. `Paths.FinalsNeverTempIff` gives the exact condition on the suffix; the
  default `.hdr10` is safe.
* **Sweeping walks.** That they must not run while a conversion is in flight (cmd/common.go:93-96) concerns that
  conversion's success only: `Publish.EveryFileIntact` holds with sweeps at any time, and
  `Publish.OnlySweepsTakeTmps` says that nothing else can make a verified tmp vanish before its rename.

## Model

| member | source | states |
|---|---|---|
| `SpaceLedger.AddKeepsValid` | internal/convert/space.go:102-111 | an admission keeps every total equal to the sum of the remainders below it and touches no other filesystem |
| `SpaceLedger.ReleaseKeepsValid` | internal/convert/space.go:114-134 | release removes its own remainder, from the total and from the job map, and nobody else's |
| `SpaceLedger.ReleaseTwice` | internal/convert/space.go:122-125 | release is idempotent |
| `SpaceLedger.LastReleaseForgetsKey` | internal/convert/space.go:126-133 | the last release of a filesystem deletes its key from both maps |
| `SpaceLedger.ShrinkConserves` | internal/convert/space.go:226-238 | for every map iteration order a report of n bytes takes exactly the smaller of n and the directory's remainders, from the directory and from the total, and no remainder grows, goes negative or changes elsewhere |
| `SpaceLedger.ShrinkEffect` | internal/convert/space.go:217-242 | the filesystem total falls by exactly what the remainders lost and the clamp to zero never fires |
| `SpaceLedger.ShrinkKeepsValid` | internal/convert/space.go:217-242 | a report keeps the ledger consistent and leaves other filesystems alone |
| `SpaceLedger.SliceAfterShrink` | internal/convert/space.go:217-242 | what a report can do to one filesystem's share of the ledger; this is the step the disk model uses |
| `SpaceLedger.ReportChargesReporterIff` | internal/convert/space.go:226-238 | a report is certain to charge the reporting job alone if and only if no other reservation of the same directory has bytes left |
| `SpaceLedger.LedgerAlwaysConsistent` | internal/convert/space.go:36-43 | after any history of admissions, refusals, reports and releases totals are sums, remainders are non-negative and no inner map is empty or left behind |
| `SpaceLedger.ReleaseAllForgetsKey` | internal/convert/space.go:116-134 | releasing all jobs of a filesystem, in any order and however often, erases it from both maps |
| `SpaceGuards.ShrinkLoop` | internal/convert/space.go:226-238 | the range loop over the map, with its early exit, computes the greedy function for the order in which it visited the reservations, completed by the ones it did not reach |
| `SpaceGuards.SpaceGuard.Reserve` | internal/convert/space.go:82-112 | an attempt is refused exactly when free bytes and key are readable and the need exceeds free minus reserved; it adds exactly one new reservation, none on an unreadable mount, and a refusal changes nothing |
| `SpaceGuards.SpaceGuard.ReleaseReservation` | internal/convert/space.go:116-134 | the new ledger is the old one without this reservation; nil, keyless and already released ones change nothing |
| `SpaceGuards.SpaceGuard.ShrinkDir` | internal/convert/space.go:220-242 | for some order the map may yield, the new ledger is the shrunk one; nothing changes if the filesystem is unknown |
| `SpaceGuards.SpaceGuard.Acquire` | internal/convert/space.go:136-159 | one attempt without waiting; with waiting the first poll that fits or is cancelled decides, a waiter never fails for lack of space, and until admitted it leaves the ledger exactly as the others made it |
| `SpaceGuards.SpaceGuard.AwaitRoom` | internal/convert/space.go:146-158 | the polling loop with other workers' critical sections before each poll: every poll but the last found no room, and the last ended as reported |
| `SpaceGuards.IdleFilesystemAdmits` | internal/convert/space.go:102-104 | once all jobs of a filesystem have released, a waiter is admitted at its next poll if and only if its need fits the free bytes |
| `Progress.ProgressRoundTrip` | internal/convert/convert.go:106-115 | a byte count printed as total_size, whatever blanks surround it, is read back if it is below two to the 63rd and ignored otherwise |
| `Progress.ParseIntSigned` | internal/convert/convert.go:113 | the same for signed numbers within 64 bits |
| `Progress.PrintedSize` | internal/convert/convert.go:168-176 | a printed byte count adds itself to what the stream carries |
| `Progress.OtherLine` | internal/convert/convert.go:110-112 | a line of any other key adds nothing |
| `Progress.OnlyTotalSizeParses` | internal/convert/convert.go:108-115 | only total_size lines with a number of 64 bits are taken for byte counts |
| `Progress.ReportsTelescope` | internal/convert/convert.go:166-178 | the positive increments sum to at least the last size, and to exactly it if and only if the sizes never decrease |
| `Progress.ShrinksToCompose` | internal/convert/space.go:220-242 | two reports take together what one report of their sum would |
| `Progress.ElsewhereUntouched` | internal/convert/convert.go:132-135 | bytes written into a directory where no job has anything reserved change no reservation |
| `Progress.AccountWritten` | internal/convert/space.go:204-215 | only growth is reported, and only when a guard is configured |
| `Progress.ReadProgress` | internal/convert/convert.go:166-178 | over the whole stream the ledger loses the sum of the positive increments, as far as the directory has that much reserved, and nothing anywhere else |
| `Progress.SoleJobEnds` | internal/convert/convert.go:166-178 | after a stream of sizes that never decrease, a job alone in its directory has left what its need exceeds the last size by |
| `SpaceLedger.ShrinkSole` | internal/convert/space.go:204-242 | a job alone in its directory ends with its need minus what was reported, and never below zero |
| `Disk.StepKeepsInv` | internal/convert/space.go:82-134 | every step of every job, reports charged to their own job, keeps ledger, jobs and disk in balance |
| `Disk.AdmissionIsReserve` | internal/convert/space.go:102-111 | admission and refusal in the disk model are what the ledger's reserve does with the sampled free bytes |
| `Disk.ReportIsShrink` | internal/convert/space.go:226-238 | whatever the map's order, a report's outcome on the ledger is one the disk model allows |
| `Disk.DropIsRelease` | internal/convert/space.go:122-133 | a job's end in the disk model is the ledger's release |
| `Disk.NoOverrun` | internal/convert/space.go:30-32 | in every run whose reports each find no other bytes reserved in their directory: free bytes, plus bytes written and not yet reported, plus the largest landing window, cover what is reserved; each remainder is that job's need minus its own reports; up to the window the free bytes cover all that is still to be written |
| `Disk.ExclusiveDirsOwnCharges` | internal/convert/space.go:226-238 | jobs in different directories are such a run |
| `DiskSafety.RoomyIff` | internal/convert/space.go:30-32 | whatever the admitted jobs write, in whatever order, the disk does not fill up if and only if the free bytes cover all they will write |
| `DiskSafety.StaleSampleExact` | internal/convert/space.go:83-104 | with a sample, every job the check lets in finds room for all it will write if and only if the sample exceeds the bytes free at the lock by no more than what the ledger holds back for bytes nobody will write |
| `DiskSafety.SoundSampleExact` | internal/convert/space.go:83-104 | likewise admission keeps all reserved and unwritten bytes covered if and only if the sample exceeds the free bytes by no more than the bytes written and not yet reported |
| `DiskSafety.LagCoversSamples` | internal/convert/space.go:82-134 | in every run within that bound, with every report charged to its own job, the reserved total is what the jobs owe and the free bytes cover all that is reserved and not written |
| `DiskSafety.NeverFills` | internal/convert/space.go:30-32 | in every run whose samples keep the first bound and whose reporters share their directory with nobody who has bytes left to write, no write meets a full disk |
| `DiskSafety.FreshSamplesNeverFill` | internal/convert/space.go:82-112 | so with sample and admission in one piece no write of an admitted job ever meets a full disk |
| `DiskSafety.SharedDirectoryExact` | internal/convert/space.go:226-238 | a report, whomever the map's order charges, leaves every continuation with fresh samples and harmless reports safe if and only if nobody else in the reporter's directory has bytes left to write |
| `DiskSafety.OthersLeave` | internal/convert/space.go:116-134 | once a running job with bytes to write is one reserved byte short, the others' releases and a newcomer's fresh sample lead to an overrun |
| `Disk.WaitersHoldNothing` | internal/convert/space.go:136-159 | whatever the directories, jobs that wait, sample or were refused have no part in the ledger, so with no job running the check admits exactly the needs that fit |
| `DiskLimits.StaleSampleOverruns` | internal/convert/space.go:83-104 | a run with different directories and a stale sample after which the admitted jobs have more to write than the disk has free |
| `DiskLimits.SharedDirectoryOverruns` | internal/convert/space.go:226-238 | the same in a run with fresh samples and two jobs in one directory: one job's bytes shrink the other's reservation, and after its release a third is admitted |
| `SchedulerModel.ScheduleKeepsInv` | cmd/watch_scheduler.go:47-78 | schedule keeps every pending entry awaited by its latest timer, also when the old timer had fired already |
| `SchedulerModel.CheckKeepsInv` | cmd/watch_scheduler.go:86-127 | so does every outcome of checkAndSubmit |
| `SchedulerModel.CloseKeepsInv` | cmd/watch_scheduler.go:131-138 | and the locked part of Close |
| `SchedulerModel.OthersDoNothing` | cmd/watch_scheduler.go:86-101 | every outstanding callback other than a pending entry's latest timer disappears without effect |
| `SchedulerModel.RecreatedEntrySafe` | cmd/watch_scheduler.go:60-64 | no callback left over from a deleted entry can act on a new entry of the same path |
| `SchedulerModel.GenerationsCanCoincide` | cmd/watch_scheduler.go:90 | the generation numbers of an old callback and a new entry can be equal: the comparison of entries is needed |
| `FileSchedulers.FileScheduler.Arm` | cmd/watch_scheduler.go:72-78 | a new generation of the entry with a timer of its own |
| `FileSchedulers.FileScheduler.Schedule` | cmd/watch_scheduler.go:47-68 | the class acts as the function whose laws are proved, for new and for pending paths, with -1 for an unreadable size |
| `FileSchedulers.FileScheduler.CheckAndSubmit` | cmd/watch_scheduler.go:86-127 | acts as the function of the model, and hands a path to submit exactly when its entry, generation and size are the recorded ones |
| `FileSchedulers.FileScheduler.StopAll` | cmd/watch_scheduler.go:135-137 | whatever the map order, exactly the unfired timers of the old map are withdrawn |
| `FileSchedulers.FileScheduler.Close` | cmd/watch_scheduler.go:131-144 | the pending map is emptied and exactly its paths are flushed |
| `SchedulerRuns.PendingAlwaysAwaited` | cmd/watch_scheduler.go:47-101 | in every reachable state each pending path has exactly one callback that can act, and every other callback does nothing at all |
| `SchedulerRuns.EveryEpisodeAccounted` | cmd/watch_scheduler.go:86-144 | every scheduling episode is pending, between removal and submission, submitted exactly once, or dropped |
| `SchedulerRuns.FateMoves` | cmd/watch_scheduler.go:103-127 | an episode is dropped only if its file does not exist, leaves for submission only settled or at Close, and never reopens |
| `SchedulerRuns.DueVerdict` | cmd/watch_scheduler.go:103-127 | in every reachable state, the callback a pending entry waits for drops it if and only if the file is gone, sends it to submission if and only if the size is the recorded one, and otherwise re-arms it: with the old size after a failed stat, with the new one after a change |
| `SchedulerRuns.EventOutcome` | cmd/watch_scheduler.go:47-78 | field by field what a schedule call does: same entry or a new one, next generation, new timer, size or -1 recorded, the unfired old timer withdrawn |
| `SchedulerRuns.CloseOutcome` | cmd/watch_scheduler.go:131-138 | Close empties the pending map, hands every pending episode to the flush and withdraws exactly the unfired timers of pending entries |
| `SchedulerRuns.SettledAfterResize` | cmd/watch_scheduler.go:116-126 | a size found changed and then, with no schedule call or Close in between, unchanged at the new timer's check, is submitted |
| `SchedulerRuns.CloseSilencesOldCallbacks` | cmd/watch_scheduler.go:131-138 | no callback from before Close ever acts again, whatever is scheduled later |
| `SchedulerRuns.OnlySettledFilesSubmitted` | cmd/watch_scheduler.go:45-127 | a timer submits only at least the delay after the arming, with no later schedule call for the path, and with the size found equal to the size recorded; a failed stat never counts as stable |
| `QueueModel.StepKeepsInv` | internal/queue/queue.go:48-69 | every step of submitters and workers keeps the dedup set, the buffer, the workers and the counter in agreement |
| `QueueModel.OneWorkerPerPath` | internal/queue/queue.go:22-28 | a path is in the dedup set exactly while one job has it stored, counted, buffered, running or just handled, never two; the buffer holds at most eight jobs per worker; the counter is the number of jobs counted and not done |
| `QueueModel.SendBlockedIff` | internal/queue/queue.go:62-69 | a counted job is held up exactly while the channel holds eight jobs per worker |
| `QueueModel.HandledExactlyOnce` | internal/queue/queue.go:52-68 | each accepted submission is handled once, and nothing else is |
| `QueueModel.NeverStuck` | internal/queue/queue.go:32-38 | while a job is unfinished somebody can move, also with a full buffer and blocked submitters |
| `QueueModel.NeverStuckWithout` | internal/queue/queue.go:62-69 | even if the submitters of some jobs never get from storing to counting them, while any other job is unfinished |
| `QueueModel.DrainBound` | internal/queue/queue.go:48-69 | with submissions stopped each step lowers a measure by one, so every run drains within that many steps |
| `QueueModel.DrainedMeansDone` | internal/queue/queue.go:71-72 | then the counter is zero, nothing is in flight and each job was handled once |
| `QueueModel.WaitMeansHandled` | internal/queue/queue.go:71-72 | when Wait may return, every job that had been counted is finished and handled once |
| `WorkerPool.Pool.constructor` | internal/queue/queue.go:30-40 | the pool has as many workers as asked for, at least one, and starts empty |
| `WorkerPool.Pool.Submit` | internal/queue/queue.go:60-69 | a path is refused exactly when in flight; otherwise it is counted and buffered, or blocks on a full buffer |
| `WorkerPool.Pool.WorkOne` | internal/queue/queue.go:48-58 | a worker's round takes the oldest path, and afterwards it is out of the dedup set and counted done |
| `Shutdown.ShutdownLosesNothing` | cmd/watch.go:101-108 | if no callback is in its window at Close, then when Wait returns each pending path has a completed handler run, by its own job or the one it was deduplicated into |
| `Shutdown.ShutdownCompleteIff` | cmd/watch_scheduler.go:129-144 | every shutdown ends with every scheduled path dropped as gone or handled once by a finished job, and every submitted job finished, if and only if at Close no callback is between giving up the lock and counting its job |
| `Shutdown.EndWithout` | cmd/watch_scheduler.go:124-126 | from every state after Close there is a run in which Wait returns and no callback in its window gets any further |
| `ShutdownLimits.DedupedIntoUncounted` | internal/queue/queue.go:62-69 | a run in which no callback is before its submit call, yet a path pending at Close is deduplicated into an uncounted job and never handled |
| `Rescan.RescanDecide` | cmd/watch_rescan.go:37-47 | in whatever map order, exactly the paths that are new or differ in size or time are scheduled, each once, and the next cache is the snapshot |
| `Rescan.LivePathsScheduledCurrent` | cmd/watch.go:109-136 | after any run ending in a successful pass every live path was last scheduled in its current state and the cache holds exactly the live paths; failed walks change nothing |
| `Rescan.CacheIsPrevious` | cmd/watch.go:125-131 | the cache a pass compares with is the last successful walk before it |
| `Rescan.StableFileScheduledOnce` | cmd/watch_rescan.go:7-11 | a file that looks the same in every successful walk is scheduled once in the whole run, and never if the full scan had seen it |
| `Rescan.SnapshotHoldsLast` | cmd/watch.go:116-124 | a snapshot holds the result of the last successful stat of each path and no path whose stat failed |
| `Rescan.RescanLoop.FullScan` | cmd/watch.go:67-81 | one walk submits every visited path, in order, and seeds the cache; nothing is cached without being submitted |
| `Rescan.RescanLoop.OnTick` | cmd/watch.go:109-136 | a tick performs one pass on the walk's snapshot, or nothing if the walk failed |
| `Paths.TmpBeside` | internal/convert/convert.go:76-88 | the tmp lies in its source's directory under the marked name and is recognised as temporary |
| `Paths.TmpInjective` | internal/convert/convert.go:81-83 | a tmp path determines its source |
| `Paths.FinalInjective` | internal/convert/convert.go:68-74 | a final path determines its source |
| `Paths.FinalMeaning` | internal/convert/convert.go:68-74 | the final path is the source itself in replace mode, and otherwise stem, suffix and extension in the source's directory |
| `Paths.EligibleIff` | cmd/common.go:49-72 | a file is taken up if and only if its extension is configured in some letter case, it bears neither temporary scheme and its stem does not contain the suffix |
| `Paths.ExtensionCase` | cmd/common.go:49-57 | the letter case of the extension decides nothing, the retired temporary scheme apart |
| `Paths.FinalNeverEligible` | cmd/common.go:59-72 | a side-by-side output is a video that is always recognised as the program's own |
| `Paths.FinalsNeverTempIff` | internal/convert/convert.go:68-88 | side-by-side outputs never bear a temporary's name if and only if the suffix collides with neither temporary scheme |
| `Paths.CollidingSuffixExample` | internal/convert/convert.go:68-88 | with the suffix .dvstrip.x an accepted file is published under a temporary's name |
| `Paths.DefaultSuffixSafe` | cmd/root.go:76 | the default suffix does not collide |
| `Paths.DefaultsApply` | cmd/root.go:72-76 | the default configuration, in either mode, meets the conditions of the naming theorems, and takes up every plainly named file with one of its extensions |
| `Paths.NonInterference` | internal/convert/convert.go:68-88 | for different eligible files, what one worker writes, renames or removes is none of the other's source, tmp or output |
| `Probe.Parse` | internal/probe/probe.go:144-182 | errors for undecodable reports and missing streams; otherwise the fields say what the report says |
| `Probe.ReadSideData` | internal/probe/probe.go:163-173 | Dolby Vision if and only if some entry's type is "dovi configuration record" in some letter case, with the last one's profile and compatibility; HDR10+ if and only if some type mentions "hdr10+" in some letter case |
| `Probe.ReadTags` | internal/probe/probe.go:174-180 | processed if and only if some tag is "dvstrip", or a "comment" that mentions it, in some letter case and any map order; the note is a marking tag's value |
| `Text.LowerIff` | internal/probe/probe.go:164-176 | lower-casing equates exactly the texts that are equal letter by letter up to ASCII case |
| `Text.LowerContains` | internal/probe/probe.go:170-176 | a lower-cased text contains a lower-case one exactly when it mentions it in some case |
| `Probe.PrintedDoviRecognised` | internal/probe/probe.go:166-169 | the name ffprobe prints, "DOVI configuration record", is recognised |
| `Probe.PrintedPlusRecognised` | internal/probe/probe.go:170-172 | so is "HDR10+ Metadata" |
| `Probe.PrintedTagsRecognised` | internal/probe/probe.go:15-18 | so is the marker tag in lower or upper case, and no title or unrelated comment is |
| `Probe.DoviIsNotPlus` | internal/probe/probe.go:165-172 | the two cases of the switch exclude each other, so their order does not matter |
| `Probe.CaseDoesNotMatter` | internal/probe/probe.go:15-18 | recognition survives any change of case of tag keys and values |
| `Probe.ReadingIsDetermined` | internal/probe/probe.go:163-180 | two readings of one report differ at most in which marking tag is quoted |
| `Probe.VerifyIff` | internal/convert/convert.go:202-220 | verification passes exactly results of the source's width, without Dolby Vision, with the marker, and with HDR10+ if the source had it; each error names the first of these that is wrong |
| `Outcomes.ConversionAgreesWithAction` | internal/probe/probe.go:91-116 | a conversion of either kind is started if and only if the advertised action is that kind (marker aside when forced), it is no dry run, and codec and profile-5 mode allow it |
| `Outcomes.ConversionStartsIff` | cmd/common.go:178-241 | from the probed fields alone, exactly when each of the two conversions is started |
| `Outcomes.ActionMeaning` | internal/probe/probe.go:91-110 | from the probed fields alone, exactly when each of the seven actions is advertised |
| `Outcomes.PublishedNeverConverted` | internal/convert/convert.go:202-220 | a result that passed verification is never converted again under any settings; unforced it counts as marked |
| `Outcomes.BucketMeaning` | cmd/common.go:171-266 | from the probed fields alone, exactly which files end in each of the six buckets |
| `Outcomes.Stats.Handle` | cmd/common.go:165-202 | each file is scanned, raises exactly the counter of its bucket by one and no other, and is listed as a failure exactly when that bucket is the failed one |
| `Outcomes.Stats.Strip` | cmd/common.go:204-266 | the same for the part behind the classification, with the kind of conversion started |
| `Outcomes.RunAccounts` | cmd/common.go:26-37 | under every interleaving scanned is the sum of all buckets, dry runs and handlers in progress |
| `Outcomes.SummaryAddsUp` | cmd/common.go:268-290 | once drained the summary adds up, and failed files are listed exactly when some are counted |
| `Outcomes.HandleIsTheseSteps` | cmd/common.go:34-37 | one handler alone goes through the interleaved steps to the state the sequential method ends in |
| `Publish.EveryFileIntact` | internal/convert/convert.go:222-240 | for every interleaving of workers, users, sweeps and crashes each path that is no temporary holds what its user left there or verified bytes published there; in replace mode those come from that very file, in side-by-side mode no eligible file is ever touched |
| `Publish.PublishedBytesFaithful` | internal/convert/convert.go:202-240 | in every reachable state the bytes at a published path have the source's width, no Dolby Vision, the marker, and HDR10+ if the source had it |
| `Handling.ConversionIsFree` | internal/queue/queue.go:48-69 | because of the pool's dedup, whenever a handler begins a conversion nobody is at work on its path |
| `Handling.HandledFilesKept` | internal/queue/queue.go:48-69 | the same for pool, handlers, users, sweeps, crashes and restarts as one system, with no assumption about who works on which path |
| `Publish.RenamePublishesVerified` | internal/convert/convert.go:228-239 | the bytes a rename puts in place are exactly the bytes its worker verified |
| `Publish.OnlySweepsTakeTmps` | cmd/common.go:93-105 | a verified tmp stays until its rename unless that very file is swept |
| `Publish.QuietTreeHasNoTemps` | internal/convert/convert.go:263-266 | without a crash no temporary remains once no conversion runs |
| `Publish.NoFeedback` | cmd/common.go:178-183 | in replace mode a file is converted at most as often as Dolby Vision content arrived at its path, under any settings |
| `Publish.OutputsNeverTakenUp` | cmd/common.go:59-72 | in side-by-side mode no conversion starts on an output |
| `Convert.ReserveOutput` | internal/convert/space.go:177-202 | nothing to check without a guard; no source is an error at once; with room it admits at once; without room side-by-side mode fails at once and changes nothing; replace mode ends with the first poll that finds room or the context cancelled |
| `Convert.ConversionGivesBack` | internal/convert/space.go:114-134 | admission, any reports, release: the filesystem's job set is as before, and with no other job's bytes reserved in the directory so is its whole share of the ledger |
| `Convert.ScratchUnaccounted` | internal/convert/convert.go:132-135 | reports for a scratch directory leave every share of the ledger as it was |
| `Convert.FileTree.Publish` | internal/convert/convert.go:222-240 | succeeds exactly when the tmp exists, its probe shows the four properties and the rename works; then the final name holds its bytes and the tmp is gone, otherwise nothing changed and the error tells which failed |
| `Convert.FileTree.Remux` | internal/convert/convert.go:276-280 | run the tool into the tmp under progress, publish, and remove the tmp on every way out |
| `Convert.FileTree.StripDV` | internal/convert/convert.go:258-281 | refused exactly as the space check says, for lack of room exactly in side-by-side mode, with no file changed; or failed with only the tmp gone; or published; each of its file changes is a step of the publish protocol, and the space it reserved is given back |
| `Convert.TreeIntact` | internal/convert/convert.go:222-240 | after any sequence of conversions on a tree every path that is no temporary holds its user's bytes or verified ones |
| `Convert.FileTree.Prepare` | internal/convert/convert.go:312-345 | the stages of P5 before the remux, with the retry of the timing recovery; their bytes are accounted to the scratch directory only |
| `Convert.FileTree.P5` | internal/convert/convert.go:292-357 | as StripDV once its tools are found, which comes before the space check; missing tools and failed preparations leave every file as it was |

## Assumptions

* Paths are clean file paths with `/` as separator, and no two of them name one file. The configured extensions
  are not empty strings and the suffix contains no `/`.
* `Publish` runs at most one worker per source path; `Handling` proves that the pool sees to it.
* A probe is a function of a file's content, and nobody but the program writes files with a temporary's name.
* Needs are arbitrary non-negative integers, and in `Disk` a job writes at most its need.
* Two probes of one directory that name its filesystem name the same one.

## Left out

- ffmpeg, ffprobe, dovi_tool and mkvmerge with their argument lists: a conversion is arbitrary writes to its output followed by success or failure.
- JSON decoding, configuration, logging and signals: the decoded report and the settings are inputs.
- The terminal display, label shortening, byte formatting and the automatic worker count.
- System calls: free bytes, filesystem keys, sizes and modification times are inputs, and each may be unreadable.
- The floating-point product behind the need of a reservation (internal/convert/space.go:196): any need is allowed.
- Event delivery, recursive watching and the event filter: events are an arbitrary sequence of schedule calls.
- Symbolic and hard links, and the overflow of 64-bit counters and of the generation number.
- Lower-casing outside ASCII.
- The wording of failure reasons (cmd/common.go:172, 226, 250): the failure list is compared by path.
- The action strings of `Info.Action`: an enumeration stands for them.
- SpaceGuards.SpaceGuard.ShrinkDir: the loop works on a local copy of the inner map, written back under the same lock; nobody can tell the difference.
- Disk.NoOverrun: the step system holds one filesystem's share of the ledger; the `SpaceLedger.SliceAfter...` lemmas say that every ledger operation acts on its own filesystem's share only.
- WorkerPool.Pool.Submit: runs its operations without interruption, and reports a full buffer instead of blocking; `QueueModel` has the interleavings.
- Convert.FileTree.StripDV: runs one conversion without interruption after its admission; `Publish` and `Disk` have the interleavings.
- Convert.FileTree.P5: likewise.
- Publish.EveryFileIntact: removal failures are not modelled, and the scratch directory of P5 lies outside the tree.
- Outcomes.Stats.Handle: one handler without interruption; the interleavings are in `Outcomes.RunAccounts`.
