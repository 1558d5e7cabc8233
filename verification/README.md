# Models of the edge node agents

Dafny models of the stateful cores of the edge node agents, with the properties those cores are
there for proved over all inputs, all runs or all interleavings. Each module mirrors one component
of the repository; code that changes state step by step is a class whose methods are proved
against a specification function, and the properties are lemmas about that function.

| module | component |
|---|---|
| `AmtProtocol`, `AmtClient` | AMT activation: the periodic caller and the background deactivation workers, as a system of atomic steps and as the client's methods, every execution of which is shown to be a run of that system |
| `PuaDownloader`, `PuaInterleaving` | when the platform update agent downloads an image, and the exclusion of downloads and updates over one lock, with restarts |
| `PuaWindow` | maintenance windows: the persisted start time and duration, and the check before every subsystem updater |
| `PuaScheduler` | maintenance schedules as tagged jobs |
| `PuaKernelParams` | the kernel parameter file of Edge Microvisor Toolkit nodes |
| `TelemetryChanges`, `TelemetryRender` | change detection, and rendering only what changed |
| `Json`, `JsonPaths`, `ConfigCommands` | the in-band manageability configuration: dotted paths and the load, get, set, append and remove commands |
| `JsonComplexity` | the depth and property limits of the firmware updater |
| `ClusterAgent` | the six-state registration machine |
| `DeviceConfig` | the device discovery KEY=VALUE file |
| `Kubeconfig` | kubeconfig notifications without repetition |
| `CpuTopology` | performance and efficiency cores per socket |
| `Wrappers`, `Clock`, `Text`, `Decimal` | Option and Result; the unit of time; the parts of Go's strings and strconv packages the agents use, with their laws |

Clocks, random numbers, command outcomes, the network and the file system are parameters: every
contract holds for all of their answers. Time is an integer number of nanoseconds. `dafny verify
dfyconfig.toml` checks the whole project.

## How to read the models

- Interleavings. `AmtProtocol.Next` has one step per locked section, clock reading and AMT reading;
  `PuaInterleaving.Next` one per lock operation, metadata read and external command. A run is any
  sequence of enabled steps. In `AmtClient` the methods run against an arbitrary schedule of the
  other threads between any two sections.
- Specification functions. `PuaDownloader.AfterCall`, `PuaScheduler.AfterCall`,
  `PuaKernelParams.AfterUpdate`, `TelemetryChanges.IsDirty`, `TelemetryRender.UpdateCfg`,
  `JsonPaths.Get` and `Set`, `ConfigCommands.Edit`, `ClusterAgent.Handle`, `DeviceConfig.Load` and
  `Written`, `Kubeconfig.AfterCall` and `CpuTopology.Grouped` say what one call does; the methods
  are equated with them and the lemmas reason about sequences of calls.

## What the proofs found

- Start time and duration of an update are written one after the other. A crash between the two
  writes leaves a start time beside an older duration, and if an earlier self-update is still on
  record the update continued after the restart then overruns its window. The first attempt never
  does, nor does an Edge Microvisor node; the exact condition is on the recorded fields
  (`PuaWindow`).
- A rounded duration of 0 disables the timeout, a negative one starts nothing, and a single schedule
  without an end gets an empty window, so its job never updates when it runs on time (`PuaWindow`).
- A repeated-schedule request with duplicates can keep the wrong jobs. So can, in the main loop, a
  request for the schedules on record at startup, as the loop hands every request a copy of the
  metadata it read then: it is lost exactly when the last different request had valid schedules,
  other than those of the record (`PuaScheduler`).
- A repeated identical notification never re-arms a download that was cancelled (`PuaDownloader`).
- An empty original command line is read back as `#`, so the second kernel update corrupts the
  options line (`PuaKernelParams`).
- An Input that moves to another group can go unnoticed; the module says exactly when
  (`TelemetryChanges`).
- A set command fails exactly when a key is blank, runs through something that is not an object, or
  runs through an earlier key of the same command (`ConfigCommands`).
- An unreadable release file strands the cluster agent in UNINSTALL_IN_PROGRESS, where registrations
  are rejected; a successful uninstallation keeps its command for the next one (`ClusterAgent`).
- Reading a quoted value back and writing it again can change it a second time (`DeviceConfig`).
- A comment in `cpu.go` says that without a maximum frequency all cores count as performance cores.
  In the code a core that reports frequency 0 still counts as an efficiency core, and a maximum
  whose triple overflows misplaces cores (`CpuTopology`).

## Model

| member | source | states |
|---|---|---|
| AmtProtocol.EveryRunIsSafe | platform-manageability-agent/internal/comms/comms.go:354-485 | in every interleaving the missing start time is never dereferenced, the flag is set exactly while one worker is pending or alive, two workers never coexist, and no worker polls more than seven times |
| AmtProtocol.WorkersAreBounded | platform-manageability-agent/internal/comms/comms.go:425-485 | whatever the other threads do, a launched worker takes at most 18 steps in any stretch of any run |
| AmtProtocol.WorkersProgress | platform-manageability-agent/internal/comms/comms.go:425-485 | once its sleep is over a live worker always has a step of its own to take, so with the bound it ends |
| AmtProtocol.WorkerEndsWithFlagCleared | platform-manageability-agent/internal/comms/comms.go:428-433 | after the step that ends a worker the flag is clear and no worker is left |
| AmtProtocol.NewWorkersTookNoStep | platform-manageability-agent/internal/comms/comms.go:403-421 | a worker that has not run its command yet took no step before, in any run |
| AmtProtocol.WorkersFollowTheirRoutine | platform-manageability-agent/internal/comms/comms.go:425-485 | in every run, a worker whose command succeeded reads the AMT status, ten seconds apart at least, until a minute has passed or it reads "not connected", which it then records; a worker whose command failed ends at once |
| AmtProtocol.CommandComesFirst | platform-manageability-agent/internal/comms/comms.go:425-445 | the first step of every worker runs its command |
| AmtProtocol.StuckPollsAreActedOn | platform-manageability-agent/internal/comms/comms.go:354-421 | over any stretch of "connecting" polls begun at t0, a poll later than t0 + 3 min that has returned found a live worker when it tried to trigger, or a worker was launched in the stretch by then |
| AmtProtocol.TriggersAreDue | platform-manageability-agent/internal/comms/comms.go:354-421 | in every run, a caller comes to trigger a deactivation only after an activation that failed to authenticate, on a first "connecting" whose last recorded status is not "not connected", or when its reading is more than 3 min later than an earlier "connecting" reading since which nothing cleared the timer |
| AmtProtocol.PreviousStateIsLastRecorded | platform-manageability-agent/internal/comms/comms.go:262-485 | in every run the previous state is the status recorded last, by a poll or by a worker |
| AmtProtocol.FailedExactlyWhenLaunched | platform-manageability-agent/internal/comms/comms.go:354-421 | a connecting poll returns ACTIVATION_FAILED if and only if it launched a worker itself |
| AmtClient.Client.TriggerDeactivationAsync | platform-manageability-agent/internal/comms/comms.go:403-421 | one worker more and ACTIVATION_FAILED if no deactivation was in progress, else no worker and ACTIVATING; the execution is a run of the protocol |
| AmtClient.Client.HandleConnectingState | platform-manageability-agent/internal/comms/comms.go:354-400 | against any schedule of the workers the call is a run of the protocol and fails exactly when it started one worker; it never does on a first "connecting" after "not connected" nor within 3 min of the stored time, keeping or storing that time, and with no deactivation under way it always does otherwise |
| AmtClient.Client.RetrieveActivationDetails | platform-manageability-agent/internal/comms/comms.go:262-346 | the status reported for every RAS reading, for a connecting device ACTIVATION_FAILED if a worker was started and ACTIVATING otherwise; a worker is started only for a connecting device or one whose activation failed to authenticate, in the second case always unless a deactivation is under way, and never more than one |
| AmtClient.Client.PerformDeactivationAsync | platform-manageability-agent/internal/comms/comms.go:425-485 | against any schedule of the other threads it ends with the flag cleared after at most seven polls, and records "not connected" exactly when the command succeeded and a poll read that |
| PuaDownloader.DownloadStartIsClamped | platform-update-agent/internal/downloader/downloader.go:98-111 | the range is (max(now, download window start), max(now, immediate window start)), for non-negative windows always and in general exactly unless now lies between the swapped ends |
| PuaDownloader.GetRandomTimeInRange | platform-update-agent/internal/downloader/downloader.go:71-89 | the time lies in the half-open range between the two ends, in either order, and is the end itself when they coincide |
| PuaDownloader.EveryTimeIsDrawn | platform-update-agent/internal/downloader/downloader.go:71-89 | every time of the range is drawn for some random number, in either order of the ends |
| PuaDownloader.CallsKeepConsistent | platform-update-agent/internal/downloader/downloader.go:144-186 | after any notifications and firings at most one timer is armed; it carries the remembered source, which by RemembersLastHeard is the notified one, and its target lies in what remained of the download window when it was armed |
| PuaDownloader.RemembersLastHeard | platform-update-agent/internal/downloader/downloader.go:144-186 | after any calls the remembered time and, up to its SHA, the remembered image are those of the last notification that was not for the booted image |
| PuaDownloader.NotifyArms | platform-update-agent/internal/downloader/downloader.go:144-186 | after any history, a notification for the booted image or without a time leaves no timer armed, any other leaves one exactly if one was armed before or time or image differ from those last heard, and one that repeats both changes nothing at all |
| PuaDownloader.ArmedTimersServeTheNotification | platform-update-agent/internal/downloader/downloader.go:144-186 | after any calls and a notification, a timer that is armed carries the notified image and its target lies in the download range of the notified time; if time or image were news it was armed by this notification |
| PuaDownloader.FiredTimersAreGone | platform-update-agent/internal/downloader/downloader.go:172-179 | a timer that fired is armed no more, all others stay, and what was heard last does not change |
| PuaDownloader.ImagesAreTheirShas | platform-update-agent/internal/downloader/downloader.go:188-196 | two images are the same exactly when their SHAs are, whatever else differs; a missing one only equals a missing one |
| PuaDownloader.Downloader.Notify | platform-update-agent/internal/downloader/downloader.go:144-186 | the timers and remembered values become what the specification says, whose armed timers ArmedTimersServeTheNotification ties to the notification; the invariant about the one timer is kept, and neither the lock nor the last download changes |
| PuaDownloader.Downloader.StartDownload | platform-update-agent/internal/downloader/downloader.go:201-235 | it succeeds exactly when the lock was free and download and both status writes succeed, and leaves the lock as it found it |
| PuaDownloader.Downloader.TimerFires | platform-update-agent/internal/downloader/downloader.go:172-179 | the firing timer is the last notified source's, and that source is published as downloaded exactly on success |
| PuaInterleaving.EveryRunKeepsInv | platform-update-agent/internal/scheduler/scheduler.go:102-118 | in every interleaving and after every restart the operation lock is held by exactly the thread inside a locked section, and every image a thread vouches for was downloaded in this process |
| PuaInterleaving.UpdatesStartExactlyInTheirWindow | platform-update-agent/internal/scheduler/scheduler.go:102-118 | in every run, a scheduled update that has got the operation lock starts if and only if the clock is before the end given by the job that triggered it in this process, and gives up otherwise; the mutex of StartUpdate is never in its way |
| PuaInterleaving.ScheduledUpdatesBeginSo | platform-update-agent/internal/scheduler/scheduler.go:102-118 | no scheduled update begins in any other way |
| PuaInterleaving.MutexStaysInLock | platform-update-agent/internal/updater/updater.go:207-214 | in every run the mutex of StartUpdate is only held by the update that holds the operation lock |
| PuaInterleaving.DownloadsAndUpdatesExclude | platform-update-agent/internal/downloader/downloader.go:116-133 | a download never overlaps an update or another download |
| PuaInterleaving.CompletedWereDownloaded | platform-update-agent/internal/downloader/downloader.go:201-242 | an image is known as complete only if a download of its SHA returned without error earlier in the same process |
| PuaInterleaving.ApprovedWereDesired | platform-update-agent/cmd/platform-update-agent/platform_update_agent.go:119-132 | an update approved by the download check is for the image the metadata desired at that check |
| PuaInterleaving.ApprovedExactlyWhenDownloaded | platform-update-agent/cmd/platform-update-agent/platform_update_agent.go:119-132 | in every run the check approves an update if and only if the desired image can be read and equals the image downloaded last at the time the update looked; otherwise the update ends |
| PuaInterleaving.LastDownloadedWasPublishedLast | platform-update-agent/internal/downloader/downloader.go:172-179 | in every run the image downloaded last is that of the last publication in this process |
| PuaInterleaving.NothingDownloadedNothingPublished | platform-update-agent/internal/downloader/downloader.go:172-179 | and without one nothing was published in this process |
| PuaInterleaving.UpdatesOnlyDownloadedImages | platform-update-agent/internal/updater/updater.go:423-448 | whenever the image update command runs for a non-nil image, the image was desired at the check and a complete download of its SHA preceded the command in the same process |
| PuaInterleaving.NoImageBesideKernelCommand | platform-update-agent/internal/updater/updater.go:423-432 | in every run an update that gets to the image saw no kernel command before, in the same process |
| PuaInterleaving.KernelCommandSkipsImage | platform-update-agent/internal/updater/updater.go:423-432 | an update goes on to the image exactly when the record cannot be read or holds no kernel command |
| PuaInterleaving.RunsRecordWhatTheyReceive | platform-update-agent/internal/metadata/metadata.go:217-409 | in every run desired image and kernel command on record are the last received ones, restarts included |
| PuaInterleaving.RestartKeepsTheRecord | platform-update-agent/cmd/platform-update-agent/platform_update_agent.go:119-156 | a restart loses threads, locks, timers and the last download, and keeps the record |
| PuaInterleaving.TimersFollowCalls | platform-update-agent/internal/downloader/downloader.go:144-186 | in every interleaving the timers are those the downloader has after its notifications and firings in this process, so its laws hold here |
| PuaInterleaving.DownloadsGetThrough | platform-update-agent/internal/downloader/downloader.go:201-242 | from any state a due timer that finds the lock free can get its image downloaded and published, with the lock free again and nothing else changed |
| PuaInterleaving.FailedDownloadsChangeNothing | platform-update-agent/internal/downloader/downloader.go:201-235 | a download that finds the lock taken ends and leaves it alone, one that fails at any step gives it back, and neither publishes anything |
| PuaInterleaving.UpdatesGetThrough | platform-update-agent/internal/scheduler/scheduler.go:102-118 | from any state of the main loop, a job in its window that finds the lock free can run the image command for the desired image, if that was downloaded last and no kernel command is set, and returns both locks |
| PuaInterleaving.FailedUpdatesChangeNothing | platform-update-agent/internal/updater/updater.go:207-248 | a scheduled update that fails at any point returns both locks and changes nothing else |
| PuaWindow.RoundSeconds | platform-update-agent/internal/scheduler/scheduler.go:114 | rounding a duration to seconds moves it by half a second at most, and halves away from zero, which determines the result |
| PuaWindow.TruncateSeconds | platform-update-agent/internal/scheduler/scheduler.go:138 | the whole seconds of a duration, towards zero |
| PuaWindow.SingleRunEndsInTime | platform-update-agent/internal/scheduler/scheduler.go:120-155 | the window of a bounded single schedule never exceeds its end, is less than a second short of it, and starts no earlier than now |
| PuaWindow.SingleRunStartsOnTime | platform-update-agent/internal/scheduler/scheduler.go:120-155 | a single schedule never starts before its start; it starts exactly then if that has not passed, a second from now if it has and the end is more than ten minutes ahead, and is skipped exactly otherwise |
| PuaWindow.OpenEndedSingleRunNeverUpdates | platform-update-agent/internal/scheduler/scheduler.go:112-155 | without an end the window is empty, so a job that is not early finds it expired |
| PuaWindow.UpdatersStartInTime | platform-update-agent/internal/updater/updater.go:747-777 | in every run, restarts included, a subsystem updater starts before the recorded start plus the recorded window's length, give or take half a second |
| PuaWindow.UpdatesFindTheirWindowOpen | platform-update-agent/internal/scheduler/scheduler.go:112-114 | in every run, an update gets under way only in a window whose end was still ahead when its job looked, with no other job looking in between |
| PuaWindow.OpenWindowsAreUsed | platform-update-agent/internal/scheduler/scheduler.go:112-117 | a job that finds its window open goes on to start the update, any other leaves the agent idle |
| PuaWindow.UpdatersRunInOrder | platform-update-agent/internal/updater/updater.go:747-760 | in every run the next updater is the one after those that returned successfully since the update was started or continued |
| PuaWindow.UpdatersAllGetTheirTurn | platform-update-agent/internal/updater/updater.go:747-760 | in every run, between two updaters the next one may check its time exactly as long as one is left, and the update is done exactly when all have returned |
| PuaWindow.EndedUpdatesStayEnded | platform-update-agent/internal/updater/updater.go:207-282 | in every run, after a failed write, a failed updater, a timeout or the last updater the agent stays idle until another job looks at its window or the agent dies |
| PuaWindow.RecordIsLastWritten | platform-update-agent/internal/updater/updater.go:222-282 | in every run status and progress on record are the ones written last |
| PuaWindow.UpdatersRespectTheirWindow | platform-update-agent/internal/updater/updater.go:207-282 | in every run, restarts included, an updater starts before window end + 0.5 s + the lag between the two clock readings of the StartUpdate that wrote the start time, provided the record has a duration and expires by then; it does whenever both fields come from one StartUpdate and the rounded duration is positive, and a negative one starts nothing |
| PuaWindow.LimitIsKeptExactlyWhen | platform-update-agent/internal/updater/updater.go:747-777 | the exact condition: from any point of any run at which an update is about to check its time, the next updater starts before a given limit, however long it waits, if and only if the recorded duration is not 0 and the recorded start plus duration is at most the limit or already past |
| PuaWindow.RecordKeepsLimitExactlyWhen | platform-update-agent/internal/updater/updater.go:762-777 | a record lets updaters start only before a limit if and only if its duration is not 0 and its start plus duration is at most the limit |
| PuaWindow.EdgeMicrovisorRespectsItsWindow | platform-update-agent/internal/updater/updater.go:160-178 | a node without an updater for the agent itself, and without one on record at first, never continues an update, so it respects every window with a positive rounded duration |
| PuaWindow.OnlySelfUpdatesContinue | platform-update-agent/cmd/platform-update-agent/platform_update_agent.go:142-156 | without an updater for the agent itself, and without one on record at first, no update is ever continued at boot |
| PuaWindow.OnlyZeroDurationIsUnbounded | platform-update-agent/internal/updater/updater.go:762-777 | an updater may start at any time if and only if the recorded duration is 0 |
| PuaWindow.OnlyContinuationsSeeTornMetadata | platform-update-agent/internal/updater/updater.go:222-282 | an update that was started rather than continued at boot never runs an updater on a start time and a duration from different windows |
| PuaWindow.TornMetadataOverrunsTheWindow | platform-update-agent/internal/metadata/metadata.go:320-354 | a run from a new node, continued at boot on status STARTED and progress SELF as the code demands, in which a failed self-update followed by a crash between the two metadata writes lets an updater start half an hour after the window has ended |
| PuaWindow.EdgeNodeUpdater.CheckTimeout | platform-update-agent/internal/updater/updater.go:762-777 | with a duration other than 0, expiry begins exactly at the nanosecond of the recorded second plus the duration in seconds, and lasts |
| PuaWindow.EdgeNodeUpdater.Update | platform-update-agent/internal/updater/updater.go:747-760 | every updater that began did so in time, in order, and success means that all of them began and succeeded |
| PuaScheduler.RequestsAreInstalled | platform-update-agent/internal/scheduler/scheduler.go:165-201 | after any calls on one Meta, a request without duplicates leaves exactly its schedules with valid cron text installed, as a multiset; a permuted repetition changes nothing, except that with no valid schedule it replaces the record |
| PuaScheduler.WrongExactlyWhenKept | platform-update-agent/internal/scheduler/scheduler.go:165-201 | for any request, the installed jobs differ from the valid requested ones if and only if the request was taken for the recorded one although the valid schedules differ |
| PuaScheduler.DuplicatesKeepTheWrongJobs | platform-update-agent/internal/scheduler/scheduler.go:175-189 | a concrete pair of requests with duplicates after which the wrong jobs are installed |
| PuaScheduler.InstalledWasRequested | platform-update-agent/cmd/platform-update-agent/platform_update_agent.go:184-410 | with the metadata passed by value, what is installed is still always the valid part of some request, or nothing |
| PuaScheduler.StartupRecordKeepsTheWrongJobs | platform-update-agent/cmd/platform-update-agent/platform_update_agent.go:397-410 | a concrete series in which a request for the schedules on record at startup leaves other schedules installed |
| PuaScheduler.OtherRequestsAreInstalled | platform-update-agent/cmd/platform-update-agent/platform_update_agent.go:397-410 | in the main loop a request without duplicates that is no permutation of the startup record is installed completely |
| PuaScheduler.RequestIsLostExactlyWhen | platform-update-agent/cmd/platform-update-agent/platform_update_agent.go:397-410 | in the main loop a request without duplicates leaves the wrong jobs if and only if it is a non-empty permutation of the startup record and what is installed is neither nothing nor the valid part of that record |
| PuaScheduler.MainLoopLosesRequestsExactlyWhen | platform-update-agent/cmd/platform-update-agent/platform_update_agent.go:397-419 | the same over the requests alone: the last one is lost if and only if it repeats the startup record and the last request before it that did not had valid schedules other than the valid ones of the record |
| PuaScheduler.CleanupIsAnEmptyRequest | platform-update-agent/cmd/platform-update-agent/platform_update_agent.go:416-419 | a response without schedules leaves installed what a request for none would, so the condition covers it |
| PuaScheduler.CronTextHasItsFields | platform-update-agent/internal/scheduler/scheduler.go:261-264 | splitting the cron text gives minutes, hours, day of month, month and day of week, in this order |
| PuaScheduler.PuaScheduler.ScheduleRepeatedSchedule | platform-update-agent/internal/scheduler/scheduler.go:81-96 | one more repeated job if and only if the cron text is valid; the single jobs stay |
| PuaScheduler.PuaScheduler.AllRecorded | platform-update-agent/internal/scheduler/scheduler.go:174-189 | the flag after the nested loops is set exactly when the request is not empty and all of it is on record |
| PuaScheduler.PuaScheduler.Install | platform-update-agent/internal/scheduler/scheduler.go:195-199 | one job per valid schedule in order, and every schedule recorded |
| PuaScheduler.PuaScheduler.HandleRepeatedSchedule | platform-update-agent/internal/scheduler/scheduler.go:165-201 | the repeated jobs and the record become what the specification says, a kept request changes no job at all, and the single jobs stay |
| PuaScheduler.PuaScheduler.ScheduleSingleRun | platform-update-agent/internal/scheduler/scheduler.go:120-163 | any single job is replaced by one with the window of PuaWindow.SingleRun, whose start SingleRunStartsOnTime and whose end SingleRunEndsInTime determine, or removed when there is none |
| PuaScheduler.PuaScheduler.HandleSingleSchedule | platform-update-agent/internal/scheduler/scheduler.go:203-229 | a new schedule becomes the one single job, with the computed window, only when there was none; a finished schedule requested again changes nothing; there is never more than one single job and the repeated jobs stay |
| PuaScheduler.PuaScheduler.CleanupSchedule | platform-update-agent/internal/scheduler/scheduler.go:231-240 | no tagged job is left, the record stays |
| PuaKernelParams.OptionsNeverAccumulate | platform-update-agent/internal/updater/updater.go:501-560 | after any kernel updates the options line is the original command line plus only the last command, the fourth line still records the original, and the first two name the title and the kernel image the first update found, for a non-empty one-line original and commands that quoting leaves unchanged |
| PuaKernelParams.OriginalIsRecovered | platform-update-agent/internal/updater/updater.go:540-541 | reading the comment line back yields the original if and only if that is not empty |
| PuaKernelParams.RewriteShows | platform-update-agent/internal/updater/updater.go:526-560 | a rewrite depends on the fourth line only, whatever options were there before, and keeps every line but the options |
| PuaKernelParams.EmptyOriginalIsLost | platform-update-agent/internal/updater/updater.go:535-547 | with an empty original the second update puts a `#` into the options |
| PuaKernelParams.EfiFileIsListed | platform-update-agent/internal/updater/updater.go:488-497 | a kernel image is found exactly when one is listed, and then it is the first listed one |
| PuaKernelParams.EfiFilesAreNamed | platform-update-agent/internal/updater/updater.go:488-494 | kernel images are exactly the names between linux- and .efi |
| PuaKernelParams.KernelUpdater.FindEfiFile | platform-update-agent/internal/updater/updater.go:488-494 | the first listed kernel image, none when there is none |
| PuaKernelParams.KernelUpdater.Update | platform-update-agent/internal/updater/updater.go:464-560 | the parameter file becomes what the specification says and stays untouched on every failure |
| TelemetryChanges.MasksAreExact | platform-telemetry-agent/internal/clientapi/clientapi.go:135-210 | with the four proper pairs, unique Inputs before and none moving into or out of a group, the group is dirty exactly when its set of settings changed and marked initial exactly when it had entries and now has none |
| TelemetryChanges.ChangeGoesUnnoticedExactlyWhen | platform-telemetry-agent/internal/clientapi/clientapi.go:153-205 | a change of a group's settings is missed if and only if an Input moved into or out of the group, every present entry of the group has an earlier one with its setting somewhere, every earlier entry's Input is still there somewhere, and the group did not become empty |
| TelemetryChanges.RepeatIsClean | platform-telemetry-agent/internal/clientapi/clientapi.go:135-210 | repeating any configuration marks nothing |
| TelemetryChanges.MovedInputGoesUnnoticed | platform-telemetry-agent/internal/clientapi/clientapi.go:153-205 | concrete configurations in which an Input changes its group and no group is marked |
| TelemetryChanges.DistinctIsASet | platform-telemetry-agent/internal/clientapi/clientapi.go:219-234 | removing duplicates keeps exactly the elements, each once |
| TelemetryChanges.DistinctKeepsOrder | platform-telemetry-agent/internal/clientapi/clientapi.go:219-234 | what is left comes in the order of first occurrence |
| TelemetryChanges.MaskIdx | platform-telemetry-agent/internal/clientapi/clientapi.go:242-254 | every pair of kind and type has one of the four indices |
| TelemetryChanges.MaskIdxNumbersTheGroups | platform-telemetry-agent/internal/clientapi/clientapi.go:242-254 | metrics come before logs and host before cluster; pairs with an unspecified part count as cluster logs |
| TelemetryChanges.ChangeDetector.MarkAltered | platform-telemetry-agent/internal/clientapi/clientapi.go:153-167 | marks exactly the groups of entries without an equal setting before |
| TelemetryChanges.ChangeDetector.MarkDropped | platform-telemetry-agent/internal/clientapi/clientapi.go:169-181 | marks exactly the groups of earlier entries whose Input is gone |
| TelemetryChanges.ChangeDetector.MarkEmptied | platform-telemetry-agent/internal/clientapi/clientapi.go:188-205 | marks as initial exactly the groups of profiles no longer present, and those as dirty |
| TelemetryChanges.ChangeDetector.RemoveDuplicates | platform-telemetry-agent/internal/clientapi/clientapi.go:219-234 | the first occurrences in order |
| TelemetryChanges.ChangeDetector.CheckIfChanged | platform-telemetry-agent/internal/clientapi/clientapi.go:135-210 | both masks as specified, the profile stays the duplicate-free group list of the last response, and a nil response changes nothing |
| TelemetryRender.DirtyRenderingAgrees | platform-telemetry-agent/cmd/telemetryagent/main.go:126-191 | after any cycles, once the host metric group has been non-empty, the deployed file is a full rendering of a permutation of the present entries, with the initial template exactly when the group is now empty; before that nothing is deployed |
| TelemetryRender.CycleRenders | platform-telemetry-agent/cmd/telemetryagent/main.go:134-156 | one cycle turns a file that renders the previous configuration into one that renders the present, whether or not it is rendered again |
| TelemetryRender.RenderOnlyTheGroup | platform-telemetry-agent/internal/metriccfg/metriccfg.go:284-296 | the rendered inputs depend on the entries of the host metric group only |
| TelemetryRender.RenderingHasItsParts | platform-telemetry-agent/internal/metriccfg/metriccfg.go:221-331 | a rendering is the global section, for every metrics entry of the kind that has a template, in order, the trimmed template data and a line whose number reads as the (64-bit) interval, then the default or the initial templates and the output section; it fails exactly without a global template |
| TelemetryRender.DeployedIsTheRendering | platform-telemetry-agent/internal/metriccfg/metriccfg.go:253-271 | the deployed file is the rendering without the white space at its ends |
| TelemetryRender.MetricAgent.GetTemplate | platform-telemetry-agent/internal/metriccfg/metriccfg.go:221-251 | the data of all applying templates in order, an error when there is none |
| TelemetryRender.MetricAgent.GetInputs | platform-telemetry-agent/internal/metriccfg/metriccfg.go:284-296 | one block per matching entry that has a template, in order; RenderingHasItsParts says what a block contains |
| TelemetryRender.MetricAgent.UpdateConfig | platform-telemetry-agent/internal/metriccfg/metriccfg.go:273-322 | the rendering whose parts RenderingHasItsParts determines, an error exactly without a global section |
| TelemetryRender.MetricAgent.Cycle | platform-telemetry-agent/cmd/telemetryagent/main.go:134-156 | the deployed file changes as the specification of one cycle says |
| JsonPaths.SetThenGet | in-band-manageability/internal/inbd/utils/config_command.go:367-404 | get after a successful set returns the value |
| JsonPaths.SetKeepsUnrelated | in-band-manageability/internal/inbd/utils/config_command.go:367-404 | at any path that is no prefix or extension, value and error are unchanged by a set |
| JsonPaths.FailedSetChangesNothing | in-band-manageability/internal/inbd/utils/config_command.go:383-404 | a failing set leaves the whole document as it was, although it may create objects on the way |
| JsonPaths.SetSucceedsExactlyWhen | in-band-manageability/internal/inbd/utils/config_command.go:383-404 | a set succeeds if and only if no proper prefix of the path holds something other than an object |
| JsonPaths.LaterSetWins | in-band-manageability/internal/inbd/utils/config_command.go:383-404 | a later set at the same path gives the same document as that set alone |
| JsonPaths.SetWhatIsThere | in-band-manageability/internal/inbd/utils/config_command.go:367-404 | writing back what a get returned changes nothing |
| JsonPaths.SetsCommute | in-band-manageability/internal/inbd/utils/config_command.go:383-404 | successful sets at unrelated paths commute and do not make each other fail |
| JsonPaths.SetAfterSet | in-band-manageability/internal/inbd/utils/config_command.go:383-404 | after a successful set of something other than an object, a set at any path succeeds exactly when it did before and the first path does not lead to it |
| JsonPaths.DottedPathLaws | in-band-manageability/internal/inbd/utils/config_command.go:367-404 | the laws for the dotted texts of the commands, blank ones included, on every document |
| JsonPaths.DottedTextsAreTheirParts | in-band-manageability/internal/inbd/utils/config_command.go:367-389 | parts without dots, joined by dots, are the path the text names |
| JsonPaths.Document.GetJSONPath | in-band-manageability/internal/inbd/utils/config_command.go:367-381 | the loop with its cursor computes the recursive get, with the same error |
| JsonPaths.Document.SetJSONPath | in-band-manageability/internal/inbd/utils/config_command.go:383-404 | the in-place loop with its cursor computes the recursive set, on success and on failure |
| ConfigCommands.StoredConfigStaysValid | in-band-manageability/internal/inbd/utils/config_command.go:120-352 | after any sequence of commands the stored document is the initial one or satisfies the schema |
| ConfigCommands.AllOrNothing | in-band-manageability/internal/inbd/utils/config_command.go:185-352 | a command with several pairs leaves the file alone or writes all of its effects, spelt out as what is read at every path unrelated to, at or below a key, and as the whole contents of every list; it succeeds exactly when the stored document admits all pairs, the outcome is valid and the write works |
| ConfigCommands.AppliesExactlyWhen | in-band-manageability/internal/inbd/utils/config_command.go:199-339 | for every kind of command, whether all pairs apply can be told from the original document and the pairs, and the document after them has all of their effects |
| ConfigCommands.SetsApplyExactlyWhen | in-band-manageability/internal/inbd/utils/config_command.go:199-222 | a set command applies if and only if every pair has a non-blank key, no proper prefix of a key holds something other than an object in the original document, and no key leads to a later one |
| ConfigCommands.SetsHaveEffects | in-band-manageability/internal/inbd/utils/config_command.go:199-222 | after a set command the last key at or above a path decides: at the key its value is read, below it nothing is, and paths unrelated to all keys are unchanged |
| ConfigCommands.ParsedValues | in-band-manageability/internal/inbd/utils/config_command.go:211-217 | printed integers and booleans are stored as such, "1" as a number and "t" as a boolean, and exactly what parses as neither is stored as text |
| ConfigCommands.PairsAreTheTexts | in-band-manageability/internal/inbd/utils/config_command.go:199-204 | texts joined by semicolons are what a command looks at, in order, and those that are neither blank nor padded are its pairs as they are |
| ConfigCommands.BlankTextsAreSkipped | in-band-manageability/internal/inbd/utils/config_command.go:201-204 | a text of white space adds no pair |
| ConfigCommands.AllowedByLastPart | in-band-manageability/internal/inbd/utils/config_command.go:356-365 | lists are edited exactly under keys whose last part, trimmed, is sotaSW or trustedRepositories |
| ConfigCommands.PairErrors | in-band-manageability/internal/inbd/utils/config_command.go:204-340 | for every kind of command, which error a pair meets and exactly when |
| ConfigCommands.FirstErrorIsReported | in-band-manageability/internal/inbd/utils/config_command.go:200-222 | a command reports the error of the first pair that fails |
| ConfigCommands.LateErrors | in-band-manageability/internal/inbd/utils/config_command.go:190-235 | when all pairs apply, a result that violates the schema and a write that fails are reported as such, the first before the second, and nothing otherwise |
| ConfigCommands.NilMapActsEmpty | in-band-manageability/internal/inbd/utils/config_command.go:194-222 | on the document null a pair meets the error it meets in an empty document, and panics exactly where that would be set |
| ConfigCommands.NullErrors | in-band-manageability/internal/inbd/utils/config_command.go:185-235 | the document null stays null, and a command succeeds on it exactly if it has no pairs and null is valid and written |
| ConfigCommands.ListIsEdited | in-band-manageability/internal/inbd/utils/config_command.go:252-339 | after an append or remove command every list is the original with the values of all pairs for it appended in order, or filtered out |
| ConfigCommands.ListEdit | in-band-manageability/internal/inbd/utils/config_command.go:262-339 | an append or remove applies exactly when there is a list at an allowed key, and replaces just that list |
| ConfigCommands.RemoveCommutesWithAppend | in-band-manageability/internal/inbd/utils/config_command.go:238-352 | removing one pair and appending a different one commute |
| ConfigCommands.RemoveAbsorbsAppend | in-band-manageability/internal/inbd/utils/config_command.go:238-352 | however many pairs there are, removing them after appending them, or some first of them, gives what removing from the original gives |
| ConfigCommands.AppendThenRemove | in-band-manageability/internal/inbd/utils/config_command.go:238-352 | Append and then Remove with the same pairs, both successful, store what Remove alone would have stored, and the original document when no value was present |
| ConfigCommands.SingleAppendThenRemove | in-band-manageability/internal/inbd/utils/config_command.go:238-352 | with one pair that is the original document with the value filtered from its list |
| ConfigCommands.RemovingAbsentChangesNothing | in-band-manageability/internal/inbd/utils/config_command.go:330-338 | removing values that are not in their lists is the identity |
| ConfigCommands.ConfigOperation.Filter | in-band-manageability/internal/inbd/utils/config_command.go:330-335 | everything but the value, in order |
| ConfigCommands.ConfigOperation.ApplyPair | in-band-manageability/internal/inbd/utils/config_command.go:205-221 | one pair edits the document as specified or fails with the specified error |
| ConfigCommands.ConfigOperation.ApplyTexts | in-band-manageability/internal/inbd/utils/config_command.go:199-222 | the loop over the pairs skips blanks and stops at the first error |
| ConfigCommands.ConfigOperation.EditNilMap | in-band-manageability/internal/inbd/utils/config_command.go:194-235 | on the document null the first pair fails, a set of a key by a panic, and only a command without pairs writes the document back |
| ConfigCommands.ConfigOperation.EditConfigCommand | in-band-manageability/internal/inbd/utils/config_command.go:185-352 | the stored document and the error of a set, append or remove command, the document null and its nil map included |
| ConfigCommands.ConfigOperation.LoadConfigCommand | in-band-manageability/internal/inbd/utils/config_command.go:101-133 | the input replaces the file exactly when it is verified, readable, valid and written |
| ConfigCommands.ConfigOperation.GetConfigCommand | in-band-manageability/internal/inbd/utils/config_command.go:136-182 | one answer per key in order; the command fails exactly when every key failed, or there is nothing to ask |
| ConfigCommands.GetAnswersWhatSetStored | in-band-manageability/internal/inbd/utils/config_command.go:136-182 | what a set stored under a key is what a get of that key answers, and at unrelated keys it answers as before |
| JsonComplexity.MeasuresAreUnique | in-band-manageability/internal/fw_updater/config_finder.go:165-196 | longest chain and number of properties are determined by the document alone, so no visiting order can change them |
| JsonComplexity.GetJSONComplexity | in-band-manageability/internal/fw_updater/config_finder.go:165-196 | depth is currentDepth plus the longest nesting chain, objects and non-empty arrays counting one each; the count is that of all object members anywhere, for every visiting order |
| JsonComplexity.VisitMembers | in-band-manageability/internal/fw_updater/config_finder.go:169-184 | the same for an object whose members come in arbitrary order |
| JsonComplexity.VisitItems | in-band-manageability/internal/fw_updater/config_finder.go:185-193 | the same for an array |
| JsonComplexity.ValidateJSONStructure | in-band-manageability/internal/fw_updater/config_finder.go:139-162 | a non-empty text is accepted exactly when it decodes, every chain of its document meets the depth limit and its properties theirs |
| ClusterAgent.RestingStates | cluster-agent/internal/state/state.go:62-83 | between requests the machine is INACTIVE, ACTIVE or UNINSTALL_IN_PROGRESS |
| ClusterAgent.ActiveExactlyAfterInstall | cluster-agent/internal/state/installInProgress.go:13-26 | it is ACTIVE if and only if the last accepted request was a registration whose install command succeeded |
| ClusterAgent.EveryCommandIsJustified | cluster-agent/internal/state/deregistering.go:19-26 | in every run each install command is the one fetched just before, and each uninstall command is the latest registration's with no failed uninstall since |
| ClusterAgent.FailedUninstallNeedsRegistration | cluster-agent/internal/state/uninstallInProgress.go:38-44 | between a failed uninstall command and the next one executed there is always a registration |
| ClusterAgent.DeregisteringAgainReusesTheCommand | cluster-agent/internal/state/deregistering.go:19-26 | after a successful uninstallation the next deregistration runs the same command without asking the orchestrator, after a failed one it asks |
| ClusterAgent.UnreadableReleaseStrands | cluster-agent/internal/state/uninstallInProgress.go:24-28 | with the release file unreadable the machine stays in UNINSTALL_IN_PROGRESS, rejects registrations, and leaves only through a deregistration that can read it |
| ClusterAgent.RejectsExactly | cluster-agent/internal/state/state.go:70-83 | between requests exactly the registrations of a machine that is not INACTIVE are rejected, with its state named and nothing changed |
| ClusterAgent.ReportsExactly | cluster-agent/internal/state/uninstallInProgress.go:21-56 | every failed command is reported as itself, and success exactly if nothing failed |
| ClusterAgent.RegistrationTrace | cluster-agent/internal/state/registering.go:15-20 | a registration from INACTIVE passes REGISTERING, fetches, passes INSTALL_IN_PROGRESS and runs the fetched command, in this order, ending as that command says |
| ClusterAgent.DeregistrationTrace | cluster-agent/internal/state/uninstallInProgress.go:21-56 | a deregistration, whatever fails: which states it passes, whether it fetches, what it runs in which order, where it ends and which command it keeps |
| ClusterAgent.StateMachine.constructor | cluster-agent/internal/state/state.go:48-60 | a new machine is inactive and holds no commands |
| ClusterAgent.StateMachine.Register | cluster-agent/internal/state/state.go:62-64 | the dispatch over the states ends and does exactly the specified steps, in the specified order |
| ClusterAgent.StateMachine.Deregister | cluster-agent/internal/state/state.go:66-68 | likewise for deregistration |
| ClusterAgent.StateMachine.InactiveRegister | cluster-agent/internal/state/inactive.go:10-13 | registration from INACTIVE completes as specified |
| ClusterAgent.StateMachine.RegisteringRegister | cluster-agent/internal/state/registering.go:15-20 | fetches both commands, then installs the fetched one |
| ClusterAgent.StateMachine.InstallInProgressRegister | cluster-agent/internal/state/installInProgress.go:13-26 | ACTIVE on success, INACTIVE with the error otherwise |
| ClusterAgent.StateMachine.RestingDeregister | cluster-agent/internal/state/active.go:14-17 | deregistration from ACTIVE or INACTIVE completes as specified |
| ClusterAgent.StateMachine.DeregisteringDeregister | cluster-agent/internal/state/deregistering.go:19-26 | fetches commands only if none is held, then uninstalls |
| ClusterAgent.StateMachine.UninstallInProgressDeregister | cluster-agent/internal/state/uninstallInProgress.go:21-56 | each failure exit with its state, its error and what becomes of the command |
| DeviceConfig.RoundTrip | device-discovery-agent/internal/config/config.go:153-195 | loading a written file restores every written field in its normal form, whatever else its value contains, and leaves the others; if a line exceeds the scanner's limit that is reported |
| DeviceConfig.RestoresExactlyPlain | device-discovery-agent/internal/config/config.go:353-394 | a fresh reader gets back exactly the written fields if and only if no text value has white space or quotes at its ends |
| DeviceConfig.NormalKeepsExactlyPlain | device-discovery-agent/internal/config/config.go:174-181 | the reader returns a value unchanged exactly when its ends are plain |
| DeviceConfig.NormalIsStableExactly | device-discovery-agent/internal/config/config.go:174-181 | a value read back survives another round exactly when stripping its quotes exposed no white space |
| DeviceConfig.QuotesAreRemoved | device-discovery-agent/internal/config/config.go:174-181 | quotes of either kind around a value are removed, and white space inside them stays |
| DeviceConfig.LoadOfWritten | device-discovery-agent/internal/config/config.go:370-391 | the lines written load to their normal forms without an error |
| DeviceConfig.ScanOfUnlines | device-discovery-agent/internal/config/config.go:161-164 | the scanner finds exactly the lines that were written |
| DeviceConfig.LineErrors | device-discovery-agent/internal/config/config.go:165-187 | a line lacks its equals sign exactly if it has none and is neither blank nor a comment; blank lines and comments do nothing, and a line in error changes nothing |
| DeviceConfig.FailsExactly | device-discovery-agent/internal/config/config.go:239-303 | of all keys exactly the flags, the port and the timeout can fail, exactly when their value does not parse |
| DeviceConfig.UnknownKeysAreIgnored | device-discovery-agent/internal/config/config.go:298-301 | a key other than the fifteen changes nothing |
| DeviceConfig.UnwrittenKeys | device-discovery-agent/internal/config/config.go:278-297 | the two flags that are read and never written set their own fields |
| DeviceConfig.FirstErrorIsNumbered | device-discovery-agent/internal/config/config.go:161-188 | the first line in error is reported by its number, and what was read before it stays |
| DeviceConfig.Config.ApplyValue | device-discovery-agent/internal/config/config.go:239-303 | one key sets its field and no other; a value that does not parse is an error and changes nothing; unknown keys change nothing |
| DeviceConfig.Config.LoadFromFile | device-discovery-agent/internal/config/config.go:153-195 | lines are applied in order up to the first error, whose number is reported, or to the first line the scanner cannot hold |
| DeviceConfig.Config.WriteToFile | device-discovery-agent/internal/config/config.go:353-394 | the file consists of the specified lines, the optional ones only when due |
| Kubeconfig.ManagerTracksHost | node-agent/internal/cluster/kubeconfig_manager.go:43-111 | after any calls the host holds the base64 of the remembered kubeconfig, or nothing when none is remembered |
| Kubeconfig.SkippingIsInvisible | node-agent/internal/cluster/kubeconfig_manager.go:43-111 | with a collision-free hash the host holds what it would hold had every notification been sent, whichever requests fail |
| Kubeconfig.InvisibleExactlyWithoutCollisions | node-agent/internal/cluster/kubeconfig_manager.go:51-59 | skipping is invisible over all call sequences if and only if no two contents share a hash |
| Kubeconfig.HostFollowsFindings | node-agent/cmd/node-agent/node-agent.go:403-443 | over any detection cycles the host follows the findings as if each had been reported, failed requests aside |
| Kubeconfig.CyclesTrackHost | node-agent/cmd/node-agent/node-agent.go:403-443 | after any cycles the host holds the base64 of the remembered kubeconfig, which is never empty, or nothing when none is remembered, so a cycle that finds nothing to clear leaves nothing stale behind |
| Kubeconfig.ReportsExactly | node-agent/internal/cluster/kubeconfig_manager.go:43-111 | with a collision-free hash, errors are exactly those of a missing cluster and of a needed request that was not applied, and then nothing changes |
| Kubeconfig.KubeconfigManager.NotifyKubeconfig | node-agent/internal/cluster/kubeconfig_manager.go:43-86 | skips, sends or fails as specified; a failure changes nothing |
| Kubeconfig.KubeconfigManager.ClearKubeconfig | node-agent/internal/cluster/kubeconfig_manager.go:90-111 | an applied clear resets manager and host, a failed one nothing |
| Kubeconfig.KubeconfigManager.HasKubeconfig | node-agent/internal/cluster/kubeconfig_manager.go:128-133 | as base64 of nothing else is empty, the answer is whether the host manager holds a kubeconfig, so a cycle without a cluster clears exactly what is there |
| Kubeconfig.KubeconfigManager.DetectAndManageCluster | node-agent/cmd/node-agent/node-agent.go:403-443 | each finding leads to the specified call, or to none |
| CpuTopology.GroupsKeepOrder | hardware-discovery-agent/internal/cpu/cpu.go:157-201 | a group takes exactly the rows that belong to it, each once and in the order of the rows |
| CpuTopology.RowsLandOnce | hardware-discovery-agent/internal/cpu/cpu.go:141-201 | over sockets 0 to n-1 a row that counts and whose socket is below n lands in exactly one group, every other row in none |
| CpuTopology.NothingIsLost | hardware-discovery-agent/internal/cpu/cpu.go:141-201 | all groups together list as many CPUs as there are rows that count |
| CpuTopology.EfficiencyIsThreeQuarters | hardware-discovery-agent/internal/cpu/cpu.go:141-184 | barring overflow a row is an efficiency core if and only if it has a frequency of at most three quarters of the maximum |
| CpuTopology.TargetIsThreeQuarters | hardware-discovery-agent/internal/cpu/cpu.go:150 | comparing with the integer target is comparing 4·frequency with 3·maximum |
| CpuTopology.RightExactlyWithoutOverflow | hardware-discovery-agent/internal/cpu/cpu.go:150 | the target is right for all frequencies if and only if three times the maximum does not overflow |
| CpuTopology.NoMaximumMeansPerformance | hardware-discovery-agent/internal/cpu/cpu.go:145-149 | without a usable maximum the efficiency cores are exactly those reporting frequency 0 |
| CpuTopology.GetCoreGroupsPerSocket | hardware-discovery-agent/internal/cpu/cpu.go:157-201 | the loop builds the two groups of a socket, the second only when it is not empty |
| CpuTopology.InferEPCores | hardware-discovery-agent/internal/cpu/cpu.go:141-155 | one socket entry per socket number in order, each with its groups |
| CpuTopology.GroupsAreNamed | hardware-discovery-agent/internal/cpu/cpu.go:188-201 | the first group is named P-Core and lists the performance CPUs of the socket, the second E-Core and lists the efficiency CPUs, and is there exactly if there are any |
| CpuTopology.NumbersRead | hardware-discovery-agent/internal/cpu/cpu.go:145-181 | a printed number reads as itself within its width, with or without the zeros lscpu adds, and other text is no number |
| CpuTopology.RowsRead | hardware-discovery-agent/internal/cpu/cpu.go:161-181 | a row with a printed 32-bit CPU number counts, under that number, exactly if its frequency is a dash or a number, and a row whose CPU is no number never does |
| CpuTopology.SocketsRead | hardware-discovery-agent/internal/cpu/cpu.go:161-166 | a printed 32-bit socket number is the socket; other numbers and texts are taken for the first one |

## Left out

- PuaScheduler.RequestsAreInstalled: is about calls that thread one Meta; the main loop passes the metadata by value (platform-update-agent/cmd/platform-update-agent/platform_update_agent.go:184, 397), for which PuaScheduler.MainLoopLosesRequestsExactlyWhen says what holds.
- PuaKernelParams.OptionsNeverAccumulate: the shell is a parameter that echoes text without quotes and backslashes faithfully; what it does to other text is not modelled.
- PuaKernelParams.KernelUpdater.Update: ends with the copied parameter file; permissions, the default boot entry and the reboot that follow are not modelled.
- PuaWindow.RoundSeconds: rounds the exact duration; the rounding of float64 seconds before that is not modelled.
- PuaWindow.UpdatersRespectTheirWindow: a run starts on a record whose start time lies in the past; metadata that cannot be read ends an update and is not modelled.
- PuaScheduler.PuaScheduler.HandleSingleSchedule: the library's run counter is a parameter.
- PuaDownloader.Downloader.TimerFires: a timer fires at or after its target; how late is up to the runtime.
- TelemetryRender.DirtyRenderingAgrees: covers the host metric group with fixed templates and deployments that succeed; the cluster metric group additionally merges the deployed config map, and the log groups render by their own templates.
- JsonPaths.Document.SetJSONPath: nested maps are values under one root, and an assignment through the cursor is written back along the cursor's path; one map shared by two keys, which decoding never produces, is not modelled.
- ConfigCommands.ConfigOperation.LoadConfigCommand: signature, hash algorithm, archive and temporary file handling are the parameters `verified` and `input`.
- ConfigCommands.ConfigOperation.GetConfigCommand: answers are values; their text formatting and the error texts are not modelled.
- ConfigCommands.AllOrNothing: a failing file write is taken to leave the file as it was.
- DeviceConfig.RoundTrip: one character is one byte for the scanner's limit; durations are printed and parsed by parameters that are inverse to each other; values with line breaks are excluded, as each of their lines would be read as a line of its own.
- Kubeconfig.SkippingIsInvisible: the manager without a host manager client is not modelled, and the host is taken to start empty.
- CpuTopology.InferEPCores: splitting the output of lscpu into rows is not modelled.
- JSON numbers are integers; float64 precision and the decoder, which is a parameter, are not modelled.
- 64-bit overflow of nanosecond instants and durations, and the unsigned conversion of schedule seconds.
- Concurrency over configuration commands: every request has a ConfigOperation, and so a mutex, of its own.
- The UPDATED to UP_TO_DATE status write outside the update lock.
- Setters of the AMT client that exist for its tests.
- gRPC, TLS, backoff, Cobra, metrics, health status, command execution and the text scrapers of the other agents.
- File path, size, symlink and content checks of the firmware updater.
