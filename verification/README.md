# NmapUI verification model

NmapUI is a local network-scan service: it plans and runs nmap scans, pauses and cancels them, schedules
recurring scans, keeps reports and their differences, and uploads them. This project models the parts of
it that keep state over many steps or do real arithmetic, and proves what they promise.

Code that changes state step by step (the registry, the upload loop, the broadcaster, the stores, the key
file) is modelled as classes and methods that do the same updates. Each is proved to compute a function,
and the theorems are about that function: over every run, every interleaving, every answer of the server.
What a single step does is stated in the caller's terms too, apart from the function that computes it
(members named `...Means`, `...Iff`, `...Reported`).
Network, clock, operating system and storage are inputs that may answer anything, under the assumptions
each theorem states.

| file | what it models |
|---|---|
| `upload.dfy`, `upload_safety.dfy`, `upload_answers.dfy` | the resumable upload, what it promises, and what each answer does to it |
| `processes.dfy`, `registry.dfy`, `registry_calls.dfy`, `registry_safety.dfy` | signals, the job registry, what each call does, and every interleaving of them |
| `command_run.dfy` | running one command: timeout, pauses, clean-up |
| `retention.dfy`, `broadcaster.dfy`, `event_store.dfy`, `broadcast_emit.dfy` | one replay retention, two implementations, and the path from one to the other |
| `receipts.dfy` | durable command receipts |
| `rate_limiter.dfy` | the scan rate limit |
| `calendar.dfy`, `schedule.dfy`, `aware.dfy`, `catch_up.dfy`, `due_slots.dfy` | recurrences on naive and zoned clocks, the catch-up rule, and the rule over both searches |
| `recovery.dfy` | paging through the jobs an unclean shutdown left |
| `networks.dfy`, `fallback.dfy`, `report_plan.dfy`, `address_budget.dfy`, `target_syntax.dfy` | networks, splitting on timeout, report plans, the address budget, the texts of a request |
| `dns_names.dfy` | the DNS name decoder |
| `key_file.dfy` | publishing a key file once |
| `asset_diff.dfy`, `diff_refresh.dfy` | scan differences and their refresh |
| `wrappers.dfy`, `decimals.dfy`, `sets.dfy` | shared helpers |

Run `dafny verify dfyconfig.toml` (Dafny 4.11).

## Findings

Places where the code does less than its comments or callers may expect; the members named are in the table below.

- The check `sent_through < size` does not ensure that every byte was sent: the answer to a status query
  is bounded by the size of the file, not by what was sent. A server that confirms more than it got is
  believed, and an upload returns with a byte unsent (`UploadSafety.ReturnedWithByteUnsent`); every
  returned upload without such an answer sent all (`UploadSafety.ReturnedMeansAllSent`).
- A two-weekly rule in a time zone whose first day is more than 21 days ahead shows no next run, although
  it has one (`Aware.FarAnchorHasNoNext`); the naive search finds it.
- The naive search drops two-weekly occurrences before the anchor, the zoned one drops those before the
  anchor's week (`Schedule.PreviousWeekly`, `Aware.WallSlots`).
- An hour that includes both its ends can hold more scans than the limit exactly when the limit times the
  cooldown is at most an hour (`RateLimiting.ClosedHoursHoldIff`), as with the defaults
  (`RateLimiting.DefaultsAllowEleven`).
- A requested chunking of a network shorter than /18 leaves out all but its first 2048 chunks (`ReportPlan.PlanCoversAllIff`).
- Refreshing only the newest scan misses one that was saved behind it. Two scans of a target that finish
  together, or a local clock that is set back, save in that order (`DiffRefresh.OlderSaveIsMissed`,
  `DiffRefresh.OlderSaveAgreesIff`).

Three limits that hold of a function alone; nothing in the repository hands it the input in question.

- The command namespace is checked when a result is recorded, not when a command begins, so with an
  invalid one the same command would be admitted again (`Receipts.AgainRefusedIff`). All three callers
  read the identifiers first, which refuses it.
- An event's source survives storage only for scans and reports (`EventStore.EnvelopeRoundTrip`). Only
  those get one, so what the program emits is read back (`BroadcastEmit.Emitter.Emit`).
- A stale job with an empty time stamp, if its page ends in it, ends the walk there, and that page and all
  after it are left unrecovered (`Recovery.AttemptedByPages`, `Recovery.EmptyStampLosesAll`). No writer
  stores an empty key.

## Model

| member | source | states |
|---|---|---|
| Upload.RoundDescends | nmapui/google_drive_upload.py:107-160 | whatever the server and the file do, a turn that does not end the upload raises `offset`, or keeps it and raises `failures`, so the loop ends |
| Upload.Drive.SendRequest | nmapui/google_drive_upload.py:56-66 | one request is at most two attempts, the second only after a 401 and under a refreshed token; both may reach the server |
| Upload.PutChunk | nmapui/google_drive_upload.py:108-126 | the first half of a turn, in the loop's own variables: the two source checks, what is read and sent, how far `sent_through` moves |
| Upload.TakeAnswer | nmapui/google_drive_upload.py:122-160 | the second half of a turn: completion, a confirmed range, a retryable answer, no answer, or a final error |
| Upload.Finish | nmapui/google_drive_upload.py:127-136 | a 200 or 201 is accepted only for an unchanged file, everything sent, a non-empty id and a matching size |
| Upload.TransferLoop | nmapui/google_drive_upload.py:106-160 | the imperative loop computes exactly the run the theorems are about, and leaves the same bytes at the server |
| Upload.UploadFile | nmapui/google_drive_upload.py:47-160 | session start and transfer together compute that run, from the first request to the outcome; the `UploadAnswers` rows say what it does on each answer |
| UploadSafety.RoundSafe | nmapui/google_drive_upload.py:107-157 | against a server that confirms only what it has, one turn keeps: the server holds a prefix of the file, between `offset` and `sent_through`, and neither ever moves back |
| UploadSafety.UploadedMeansStored | nmapui/google_drive_upload.py:47-160 | for every such server, with replies lost, chunks kept in part and the file replaced halfway: a returned upload means the server holds exactly the bytes of the file |
| UploadSafety.ReturnedMeansAllSent | nmapui/google_drive_upload.py:111-136 | for any server at all: a returned upload has sent every byte if and only if no confirmation beyond the bytes sent was believed; the check of `sent_through` alone does not ensure it |
| UploadSafety.TransferBounded | nmapui/google_drive_upload.py:68-160 | for any server: at most four times (size + 1) requests, every data range inside the file, all but the last a multiple of 256 KiB |
| UploadSafety.ReturnedWithByteUnsent | nmapui/google_drive_upload.py:127-152 | and where one was: an upload of three requests that returns although a byte of the file was in none of them |
| UploadSafety.GivesUpAfterFour | nmapui/google_drive_upload.py:68-160 | over a whole run, for any server: when the upload gives up, exactly four requests were made since a confirmation last got further, and it stands where that one put it |
| UploadSafety.FailuresAreCounted | nmapui/google_drive_upload.py:68-71 | one turn: a failure is counted exactly when nothing was confirmed; any confirmed byte resets the count |
| UploadAnswers.WhyItEnded | nmapui/google_drive_upload.py:68-160 | for any server and file, a transfer ends as its last look at the file and its last answer say: an HTTP error only on an answer that is neither 429 nor 5xx nor a throttled 403, nor a first 401; giving up only without a usable answer or a confirmed byte; a return only on a 200 or 201 with an id and no other size, for an unchanged file that was sent to its end; and so on for each way to fail |
| UploadAnswers.WhyItOpened | nmapui/google_drive_upload.py:85-105 | the same for the opening request, which gives up only after four tries |
| UploadAnswers.WireInSequence | nmapui/google_drive_upload.py:106-157 | a chunk starts where the last confirmation ended, and none is repeated before the server was asked; confirmations never go back, stay below the size, and one that answers a chunk stays within it |
| UploadAnswers.TroubleIsSurvived | nmapui/google_drive_upload.py:23-160 | a session opened within four tries, and lost answers, 429, 5xx or throttled 403 in at most two tries in a row with two good ones after them, or three in a row when the server kept a byte of the first: the upload is returned and the file stored |
| UploadAnswers.NoHopeGivesUp | nmapui/google_drive_upload.py:106-157 | the condition is exact, state by state: when progress does not come before the fourth failure, the upload of a file that is not empty gives up |
| UploadAnswers.ThreeLostGiveUp | nmapui/google_drive_upload.py:106-157 | so three lost tries in a row of which the server kept nothing are one too many, since the status query after them is the fourth failure |
| UploadSafety.CooperativeRunUploads | nmapui/google_drive_upload.py:106-160 | against a server that answers and keeps what it gets, the upload completes with one request for each chunk |
| Registry.OperatingSystem.SendSignal | nmapui/jobs.py:38-53 | one signal to one process group: delivered, refused, or too late |
| Registry.OperatingSystem.SignalScanProcess | nmapui/jobs.py:16-35 | SIGTERM and SIGKILL wake a suspended group first |
| Registry.ClientJobRegistry.TryMaintenance | nmapui/jobs.py:349-366 | the fence is taken only when no job is active and it is free, or its own token asks again |
| Registry.ClientJobRegistry.EndMaintenance | nmapui/jobs.py:368-376 | only the matching token lifts the fence |
| Registry.ClientJobRegistry.StartJob | nmapui/jobs.py:378-417 | a start is refused for shutdown, maintenance, an active job of the key or a full registry, in that order, and the reason is kept; otherwise the job is new and unpaused |
| Registry.ClientJobRegistry.CompleteJob | nmapui/jobs.py:427-445 | completing leaves the pause, and wakes the process only if this registry stopped it |
| Registry.ClientJobRegistry.CancelJob | nmapui/jobs.py:461-485 | a cancel for another run of the job, or an ended one, changes nothing; otherwise the process is woken before it is signalled |
| Registry.ClientJobRegistry.PauseJob | nmapui/jobs.py:521-551 | which of the two pause modes is entered, and every refusal, also on platforms that cannot suspend |
| Registry.ClientJobRegistry.ResumeJob | nmapui/jobs.py:504-569 | resuming undoes either mode, and refuses what is not paused |
| Registry.ClientJobRegistry.EnterCheckpoint | nmapui/jobs.py:581-600 | the first locked block: a workflow at a checkpoint turns a pending pause into a pause at the checkpoint, and is told whether to announce it and to wait |
| Registry.ClientJobRegistry.AttachProcess | nmapui/jobs.py:615-631 | a process that arrives during a pause is stopped if it can be, and one that arrives during shutdown is refused |
| Registry.ClientJobRegistry.ForgetProcess | nmapui/jobs.py:633-636 | forgetting drops both the process and the mark that it was stopped |
| Registry.ClientJobRegistry.ShutDown | nmapui/jobs.py:638-659 | shutdown takes all processes from the registry and refuses all later ones |
| Registry.ClientJobRegistry.Disconnect | nmapui/jobs.py:708-721 | active jobs of a browser that left are marked, the others forgotten |
| Registry.ClientJobRegistry.ForgetDisconnected | nmapui/jobs.py:723-730 | only a disconnected job is forgotten |
| RegistrySafety.RunKeepsInv | nmapui/jobs.py:294-730 | over every interleaving of registry steps, worker signals and process exits, with scans that exit before they are registered and scans no signal reaches: stopped keys are tracked and paused by process, live suspended processes belong to stopped keys, pause fields cohere, capacity and fence hold |
| RegistrySafety.SuspendedIsPaused | nmapui/jobs.py:504-671 | in every reachable state a live suspended process belongs to a stopped key whose job is running, paused by process and not cancel-requested |
| RegistrySafety.EndingWakes | nmapui/jobs.py:427-569 | an accepted cancel, complete or resume leaves the job's workflow not held, tracked process or not, and no live process of its key suspended |
| RegistrySafety.HeldUntilLetGo | nmapui/jobs.py:427-730 | a held workflow is let go exactly by an accepted resume or cancel of its job, its completion, a shutdown, or forgetting the job of a browser that left |
| RegistrySafety.WaitIfPaused | nmapui/jobs.py:581-613 | the waiting loop, with anything going on between its looks: it announces once, waits at every look that finds the job held, and returns at the first that does not |
| RegistrySafety.ShutdownWakesAll | nmapui/jobs.py:638-671 | once a shutdown has signalled the processes it took, no live process is suspended and no workflow is held |
| RegistrySafety.ResumeUndoesPause | nmapui/jobs.py:524-569 | from every reachable state, a resume right after an accepted pause restores the state, the process included |
| RegistrySafety.LateProcessIsStopped | nmapui/jobs.py:615-631 | a pause that arrives before its process is registered still suspends it, if it can be suspended |
| RegistrySafety.CapacityHolds | nmapui/jobs.py:349-417 | in every reachable state the active jobs number at most the limit, and none is active while maintenance is held |
| RegistrySafety.OnlyTokenLiftsFence | nmapui/jobs.py:349-376 | the only step that changes a held fence is the release with its own token |
| RegistrySafety.CompletingIsAdmittedIff | nmapui/jobs.py:427-445 | completing keeps capacity and fence exactly when the status is final, the job was active already, or there is room and no fence |
| RegistrySafety.AttachingIsSafeIff | nmapui/jobs.py:615-631 | attaching keeps suspended processes accounted for exactly when it does not replace a suspended one |
| RegistrySafety.ForgettingIsSafeIff | nmapui/jobs.py:633-636 | forgetting a process keeps them accounted for exactly when it forgets no suspended one |
| RegistryCalls.PauseMeans | nmapui/jobs.py:521-551 | whoever calls, with or without the run's id: an accepted pause suspends the tracked process if this user can suspend it, and otherwise leaves all processes alone and waits for the checkpoint; accepted exactly for a running, uncancelled job in no pause, where the system can suspend |
| RegistryCalls.PauseRefusals | nmapui/jobs.py:521-538 | the condition of each refusal |
| RegistryCalls.SuspendedUntilWoken | nmapui/jobs.py:427-820 | a suspended scan is woken or ended exactly by an accepted resume or cancel of its job, by its completion, by a signal of a shutdown or its worker, or from outside; by no other step, whoever takes it |
| RegistryCalls.PausedUntilWoken | nmapui/jobs.py:521-551 | so from every reachable state a pause of a live scan within reach suspends it, and it stays suspended until then |
| RegistryCalls.PausedIsHeld | nmapui/jobs.py:521-600 | a paused workflow is held at its next checkpoint, which announces a pause that takes effect there |
| RegistryCalls.HeldIff | nmapui/jobs.py:581-600 | who is held, and what a checkpoint announces |
| RegistryCalls.ResumeMeans | nmapui/jobs.py:553-569 | accepted exactly for a job in a pause; takes it out of it, and wakes what this registry stopped |
| RegistryCalls.CancelMeans | nmapui/jobs.py:461-485 | accepted exactly for a running job of the run meant; it then counts as cancelling, is in no pause, and its process is awake and was told to end |
| RegistryCalls.CompleteMeans | nmapui/jobs.py:427-445 | the status is set, the pause left, what was stopped is woken, source and cancellation kept |
| RegistryCalls.CallsAreConfined | nmapui/jobs.py:427-600 | none of these calls changes another job, tracks another process, or signals any but the job's own |
| RegistryCalls.CancelledIsTold | nmapui/jobs.py:461-485 | whatever follows an accepted cancel, its scan is dead, out of reach, or told to end while awake |
| RegistryCalls.ShutdownTellsAll | nmapui/jobs.py:638-659 | once a shutdown has signalled all it took, so is every scan it found |
| RegistryCalls.StartMeans | nmapui/jobs.py:378-417 | admitted exactly without shutdown, maintenance or an active job of the key, and with room for one more; what the new job is, and the reason of a refusal |
| RegistryCalls.MaintenanceMeans | nmapui/jobs.py:349-376 | granted exactly when no job or process is there and the fence is free, or its own token asks; lifted exactly by its token |
| RegistryCalls.AttachMeans | nmapui/jobs.py:615-631 | refused exactly by a shutdown; suspended exactly when a pause is pending and it can be |
| RegistryCalls.ForgettingMeans | nmapui/jobs.py:633-730 | forgetting a process, a disconnected job, or all at shutdown: what goes, and that nothing else does |
| RegistryCalls.DisconnectMeans | nmapui/jobs.py:708-721 | jobs and rejections of one browser, and of no other |
| CommandRun.RunCommand | nmapui/jobs.py:756-808 | the polling loop ends at the first poll with an exit, a cancellation, or more running time than the timeout, and says which: finished only without cancellation, timed out only without an exit |
| CommandRun.PausedTimeIsFree | nmapui/jobs.py:757-784 | however long the pauses last, a command ends at the same poll and in the same way |
| CommandRun.CleanUp | nmapui/jobs.py:810-820 | SIGTERM, a wait, and SIGKILL if the group has not gone |
| CommandRun.CleanUpEndsGroup | nmapui/jobs.py:810-820 | what is alive of the group after the clean-up is what it may not signal; a group it may signal is dead, and was told to end before it was killed; no other process is touched |
| CommandRun.CleanUpSettles | nmapui/jobs.py:810-820 | the clean-up is steps of the world of all interleavings, and leaves the process dead, or out of reach of signals |
| CommandRun.ForgettingAfterCleanUpIsProper | nmapui/jobs.py:810-822 | whatever the others do between the clean-up and the moment the worker forgets its process, forgetting is safe, for groups that may not be signalled too |
| RateLimiting.RateLimiter.CanScan | nmapui/jobs.py:93-115 | the answer from the pruned list is the answer from the whole history |
| RateLimiting.RateLimiter.RecordScan | nmapui/jobs.py:117-125 | the pruned list keeps standing for the whole history, and a disciplined caller stays disciplined |
| RateLimiting.AfterMeans | nmapui/jobs.py:109-125 | pruning keeps exactly the scans after the given instant |
| RateLimiting.AtMostLimitPerHour | nmapui/jobs.py:93-125 | any hour, open at its start, holds at most `max_scans_per_hour` scans |
| RateLimiting.ClosedHoursHoldIff | nmapui/jobs.py:93-125 | an hour with both its ends keeps to a positive limit, over every disciplined history, if and only if the limit times the cooldown is more than an hour |
| RateLimiting.DefaultsAllowEleven | nmapui/jobs.py:86-125 | so with the default of ten scans an hour and 300 seconds apart it does not |
| RateLimiting.CooldownApart | nmapui/jobs.py:97-107 | consecutive scans are at least the cooldown apart |
| Broadcaster.AppendTrimmed | nmapui/jobs.py:211-222 | appending to the three parallel lists and trimming them keeps them aligned, and equal to what is retained of the whole run |
| Broadcaster.Trim | nmapui/jobs.py:219-222 | the trimming loop keeps the longest suffix within both limits |
| Broadcaster.ScanBroadcaster.StartJob | nmapui/jobs.py:175-185 | a start opens an empty run, under the given source or a new one |
| Broadcaster.ScanBroadcaster.EndJob | nmapui/jobs.py:187-194 | an end closes the run and forgets its source |
| Broadcaster.ScanBroadcaster.Record | nmapui/jobs.py:200-223 | an event is retained exactly when it belongs to the active run of an open slot; the envelope carries the source of the event |
| Broadcaster.ScanBroadcaster.ReplayBuffer | nmapui/jobs.py:233-235 | a late tab gets exactly the longest suffix of the run's events within 500 events and 8 MiB |
| Broadcaster.ScanBroadcaster.BridgeReplayBuffer | nmapui/jobs.py:225-227 | the bridge gets the envelopes of exactly those events |
| Retention.RetainedAreLatest | nmapui/jobs.py:216-222 | what is retained are the latest events, within both limits, and with one more they are not |
| Retention.KeptIsLongest | nmapui/jobs.py:219-222 | what is retained fits both limits, and no longer suffix does |
| Retention.KeptIsUnique | nmapui/jobs.py:219-222 | it is the only such suffix |
| Retention.RetainIncrementally | nmapui/jobs.py:216-222 | trimming after every event retains what trimming the whole history once would |
| EventStore.RuntimeEventTable.AppendJobEvent | nmapui/runtime_db.py:532-588 | insert, cut by count and cut by bytes leave the job with exactly what the same retention gives, and every other job's rows unchanged |
| EventStore.JobRowsAre | nmapui/runtime_db.py:532-588 | the rows of a job and the others: which they are, each in the order of their ids |
| EventStore.RuntimeEventTable.CutBytes | nmapui/runtime_db.py:581-586 | the backward scan with its running total keeps the longest suffix within the byte limit |
| EventStore.AppendedIsRetained | nmapui/runtime_db.py:532-588 | over appends to any jobs in any order, the table holds of each job what retaining that job's whole history once would keep |
| EventStore.RuntimeEventTable.ListJobEvents | nmapui/runtime_db.py:590-626 | the latest rows, oldest first, each with its envelope if it was stored as one |
| EventStore.EnvelopeRoundTrip | nmapui/runtime_db.py:545-625 | an envelope is read back exactly if and only if its source, when it has one, is a scan or a report |
| Receipts.CommandLedger.RecordReceipt | nmapui/runtime_db.py:313-330 | state and replay envelope of a command change together |
| Recovery.RuntimeStateStore.ListJobs | nmapui/runtime_db.py:354-394 | a page is the first rows below the cursor in the order of the query: latest first, ties by id |
| Recovery.PageMeans | nmapui/runtime_db.py:354-394 | a page holds running and cancelling jobs below the cursor as they stand, latest first, as many as the limit allows, and all it leaves out comes after it |
| Recovery.DescendingIsOrdered | nmapui/runtime_db.py:366-379 | that order is strict and lists selected rows only, as they stand in the table |
| Recovery.DescendingListsAll | nmapui/runtime_db.py:366-379 | it lists every selected row |
| Recovery.RuntimeStateStore.MarkInterrupted | nmapui/runtime_db.py:287-311 | one row rewritten, or nothing written; a lost status event counts as a failure |
| Receipts.CommandLedger.EmitCommandResult | nmapui/daedalus_commands.py:35-53 | a result is recorded and sent once; after a terminal one nothing happens |
| Receipts.CommandLedger.BeginCommand | nmapui/daedalus_commands.py:56-69 | a known command is refused and its envelopes replayed; a new one is admitted and acknowledged |
| Receipts.ResultMeans | nmapui/daedalus_commands.py:35-53 | recorded and sent exactly while none is final: the row says running, completed or failed as the result does, the text is cut at 1000 characters, the action kept, no other command touched |
| Receipts.BeginMeans | nmapui/daedalus_commands.py:56-69 | refused exactly when there is a row for the command, and then nothing changes; a new one is recorded as running and acknowledged |
| Receipts.RowTellsResult | nmapui/daedalus_commands.py:35-69 | after any calls, the row of a command says what the last of its stored results says |
| Receipts.JobIdInjective | nmapui/daedalus_commands.py:31-32 | different commands never share a receipt, whatever their namespaces |
| Receipts.RunForward | nmapui/daedalus_commands.py:35-69 | over any run the status of a command only moves forward, none, running, one terminal value, and stored envelopes are never dropped |
| Receipts.OneTerminalResult | nmapui/daedalus_commands.py:41-50 | at most two envelopes are stored, only the last terminal, and a terminal status never changes again |
| Receipts.AdmittedAtMostOnce | nmapui/daedalus_commands.py:56-69 | over any run, a namespace and id that was admitted once is never admitted again |
| Receipts.AgainRefusedIff | nmapui/daedalus_commands.py:38-69 | however the ledger was reached and whatever follows an admitted begin, the same command is refused from then on if and only if its namespace is valid |
| Receipts.ReplayIsExact | nmapui/daedalus_commands.py:56-69 | replay sends exactly the envelopes the command's results were sent as, in order |
| Calendar.ShiftedMonth | nmapui/auto_monitor.py:253-257 | shifting by months lands in that month, on the anchor's day or the month's last |
| Calendar.ShiftsApart | nmapui/auto_monitor.py:253-257 | different shifts of one anchor are at least 28 days apart, in order |
| Calendar.YearStart | nmapui/auto_monitor.py:253-257 | the month lengths used give Gregorian years: the day number of a new year in closed form, leap years included |
| Calendar.MonthLengthAt | nmapui/auto_monitor.py:253-257 | the length of each month, February by the leap rule |
| Calendar.WeekdaysRunOn | nmapui/auto_monitor.py:233-236 | weekdays run on without a break, and 1 January 2024 is a Monday |
| Schedule.SlotMeans | nmapui/auto_monitor.py:227-337 | what an occurrence is, in calendar terms: the rule's time, on any day, on its weekday, on that of every second week from the anchor's on, or on the anchor's day, clamped, of every month from the anchor's on, or of every third |
| Schedule.NextRun | nmapui/auto_monitor.py:340-359 | each recurrence is searched for with its own interval, and the first occurrence after now found |
| Schedule.PreviousRun | nmapui/auto_monitor.py:427-452 | likewise for the last one up to now |
| Schedule.NextDaily | nmapui/auto_monitor.py:227-230 | the next daily run is the first occurrence after now |
| Schedule.PreviousDaily | nmapui/auto_monitor.py:372-377 | the previous daily run is the last occurrence up to now |
| Schedule.NextWeekly | nmapui/auto_monitor.py:233-250 | the next weekly or two-weekly run is the first occurrence after now, however far the anchor |
| Schedule.NextInCycle | nmapui/auto_monitor.py:233-250 | the two-weekly loop ends, and on the first occurrence of the cycle at or after the first matching weekday |
| Schedule.PreviousWeekly | nmapui/auto_monitor.py:380-402 | the previous one is the last occurrence up to now; two-weekly occurrences before the anchor do not count |
| Schedule.NextMonthly | nmapui/auto_monitor.py:327-337 | the next monthly or quarterly run is the first occurrence after now |
| Schedule.PreviousMonthly | nmapui/auto_monitor.py:405-424 | the previous one is the last occurrence up to now, or none before the anchor's |
| Schedule.OccurrenceInOrder | nmapui/auto_monitor.py:327-337 | monthly and quarterly occurrences, days clamped, strictly increase |
| Schedule.PreviousAndNextAreAdjacent | nmapui/auto_monitor.py:227-424 | nothing lies between previous and next: they are one, seven or fourteen days apart, or in months one or three apart |
| Schedule.PreviousMovesForward | nmapui/auto_monitor.py:372-424 | a later search never finds an earlier occurrence |
| Aware.WallSlots | nmapui/auto_monitor.py:260-314 | the candidate list holds exactly the occurrences in its window around the local date |
| Aware.NearestAwareRun | nmapui/auto_monitor.py:317-324 | the run chosen is the first, or last, instant among the candidates, the occurrences of `Schedule.SlotMeans` near now |
| Aware.RunsSplitNow | nmapui/auto_monitor.py:317-324 | the previous run is not after now, the next one is, and no other occurrence lies between |
| Aware.PreviousRunIsComplete | nmapui/auto_monitor.py:260-324 | for every zone with offsets within 24 hours of each other and every recurrence, the previous run of the list is the last over all occurrences |
| Aware.NextRunIsCompleteIff | nmapui/auto_monitor.py:260-324 | the next run of the list is the first over all occurrences if and only if the recurrence is not two-weekly or its first day is at most 21 days ahead |
| Aware.FarAnchorHasNoNext | nmapui/auto_monitor.py:280-324 | a two-weekly rule whose first day is further ahead gets no next run, although it has one |
| Aware.PreviousRunMovesForward | nmapui/auto_monitor.py:317-324 | a later search never finds an earlier run, across offset changes too |
| CatchUp.DueRules | nmapui/auto_monitor.py:493-526 | nothing is due within the startup grace; after it, exactly the enabled rules whose last occurrence is not before their creation and not yet run, in order |
| CatchUp.DueMeans | nmapui/auto_monitor.py:493-526 | a rule is due exactly if it is enabled, its last occurrence is not before it began, and it has never run or not since; each as often as it is there |
| CatchUp.DueInOrder | nmapui/auto_monitor.py:493-526 | in the order of the rules |
| DueSlots.ZonedSearchIsFaithful | nmapui/auto_monitor.py:317-324 | the zoned previous search is one the catch-up theorems may be instantiated with: never later than now, and never going back |
| DueSlots.NaiveSearchIsFaithful | nmapui/auto_monitor.py:372-424 | so is the naive one, its wall times read as instants |
| DueSlots.ZonedSlotsRunOnce | nmapui/auto_monitor.py:317-526 | with the zoned search in place, the slots of a rule that succeed only move forward |
| CatchUp.PreserveProgress | nmapui/settings.py:64-91 | each rule of an incoming document gets the server's own markers, or starts anew |
| CatchUp.SaveKeepsRules | nmapui/settings.py:64-91 | which rules are there after a save, the first of each id that names a customer, with switch and schedule as the document has them |
| CatchUp.SaveKeepsMarkers | nmapui/settings.py:64-91 | however stale the document, after save and normalisation a known rule has its markers and a new one starts now |
| BroadcastEmit.Emitter.Emit | nmapui/scan_runtime.py:11-35 | every event emitted by this path is recorded, stored under its job's key, and read back from its row as exactly the envelope it was |
| CatchUp.MarkRun | nmapui/auto_scan_runtime.py:209-219 | the first rule with the id gets the time of completion, and no other rule changes |
| CatchUp.MarkedMeans | nmapui/auto_scan_runtime.py:209-219 | exactly the first rule with the id is stamped |
| CatchUp.MissedSlotsStart | nmapui/auto_scan_runtime.py:124-189 | in an idle scheduler every attempt of a rule that missed its last occurrence starts a run for exactly that one, and no other attempt starts any |
| CatchUp.EachSlotRunsOnce | nmapui/auto_scan_runtime.py:173-229 | over any ticks, successes, failures, restarts and stale saves, with markers that may fail to be saved: of two successes of a rule the later has the later slot, unless the marker of the first was not saved and the program restarted in between |
| CatchUp.OnlyDueSlotsStart | nmapui/auto_scan_runtime.py:124-189 | whatever starts, starts for the last occurrence, not before the rule's creation and not yet run |
| CatchUp.FailedRunStaysDue | nmapui/auto_scan_runtime.py:202-207 | after a failed run that slot, or a later one, is still due |
| CatchUp.SucceededRunIsNotDue | nmapui/auto_scan_runtime.py:209-229 | after a successful run, what is due came after its completion |
| Recovery.ReconcileInterruptedJobs | nmapui/recovery.py:32-129 | the loop ends on every table and for every pattern of failures, leaves the table the theorems speak of, and reports what failed |
| Recovery.ReconcilePage | nmapui/recovery.py:66-112 | one page: each job with an id attempted in turn, failures counted, successes listed |
| Recovery.EachAttemptedAtMostOnce | nmapui/recovery.py:42-113 | whatever fails, for any table and page size: each stale job is attempted at most once, in the order the table had at the start, although rows are rewritten mid-walk; only attempted rows change; successes and failures add up |
| Recovery.AttemptMeans | nmapui/recovery.py:66-112 | each attempt, whatever fails: what its row is afterwards, and whether it is reported |
| Recovery.AllAttemptedIff | nmapui/recovery.py:55-68 | when listings succeed, every stale job is attempted if and only if none has an empty id or time stamp |
| Recovery.AttemptedByPages | nmapui/recovery.py:55-113 | then which are attempted, for any table: those with an id for which every page up to their own, in the order at the start, ends in a row with an id and a time stamp |
| Recovery.EmptyStampLosesAll | nmapui/recovery.py:55-68 | so if all stale jobs fit a page, an empty time stamp in one keeps every other from being attempted |
| Recovery.PageSizeDoesNotMatter | nmapui/recovery.py:45-113 | then the whole result, writes and reports included, is the same for every page size |
| Recovery.NoneLeftRunning | nmapui/recovery.py:32-113 | with no failure and no empty key, every job that was running or cancelling is interrupted and no longer paused, no other is touched, and exactly those are reported |
| Recovery.PageIsDone | nmapui/recovery.py:55-113 | the cursor strictly advances: the branch for a repeated cursor is never taken, and what lies below it is as it was |
| ReportPlan.PlanTiles | nmapui/workflows.py:110-134 | a plan covers its network from the first address on, each address once |
| ReportPlan.PlanCoversAllIff | nmapui/workflows.py:110-134 | it covers the whole network if and only if chunks were not requested or the prefix is 18 or longer |
| ReportPlan.PlanMeans | nmapui/workflows.py:110-134 | which targets a plan has: all /24 networks of a shorter IPv4 network, up to 2048 /29 chunks when asked for, or the target itself |
| Fallback.SplitMeans | nmapui/workflows.py:745-753 | networks are split down to /30 and /126, into halves of one size |
| Fallback.HalvesAreNamed | nmapui/workflows.py:764-781 | the files of the halves are named after the parent's, the depth, and first or second |
| Fallback.HalvesTile | nmapui/workflows.py:745-753 | the two halves of a network are adjacent and make up exactly it |
| Fallback.ScanSubnetsWithFallback | nmapui/workflows.py:755-793 | the recursive loop returns the scans of both halves in order, or nothing |
| Fallback.FallbackCompletes | nmapui/workflows.py:755-793 | when it returns a list: the scans partition exactly the parent network, there are at most 16 from depth 1 to 4, each succeeded, and no two share an output name |
| Fallback.FallbackFailsIff | nmapui/workflows.py:755-793 | it gives up if and only if the network has no halves, or some subnet it reaches was cancelled, failed, or timed out with no further split |
| ReportPlan.ScanTarget | nmapui/workflows.py:838-893 | one planned target: its own scan, or the fallback's scans when it timed out |
| ReportPlan.ScanTargets | nmapui/workflows.py:809-893 | the loop collects the scans of all targets in order, or fails |
| ReportPlan.TargetMeans | nmapui/workflows.py:838-893 | a target gives up exactly when its scan fails, or times out and the fallback from depth 1 to 4 gives up; a success is its own scan alone |
| ReportPlan.ReportFailsIff | nmapui/workflows.py:809-893 | a report fails exactly if one of its targets gives up, under the file names it uses |
| ReportPlan.ReportCovers | nmapui/workflows.py:701-893 | a report whose scans complete has scanned each address of its plan exactly once, whatever was split on the way, under file names of which no two are equal |
| ReportPlan.SplitSubnetIntoChunks | nmapui/scanning.py:147-162 | the loop yields the first 2048 /29 networks in order; a target that is no network, small or without longer prefix stays whole |
| ReportPlan.ChunksHoldFirstAddresses | nmapui/scanning.py:147-162 | on IPv4 the chunks hold exactly the first min(size, 16384) addresses |
| ReportPlan.ChunksTile | nmapui/scanning.py:147-162 | without gap or overlap, in order |
| AddressBudget.SpansCountAddresses | nmapui/validation.py:25-29 | the product of the spans of an octet range is the number of distinct addresses in it |
| AddressBudget.CountTargetAddresses | nmapui/validation.py:17-30 | the count of an item is the size of the set of addresses it stands for |
| TargetSyntax.SplitJoins | nmapui/validation.py:95-96 | splitting loses nothing and leaves no separator in a part |
| TargetSyntax.SplitIsUnique | nmapui/validation.py:95-96 | it is the only such list of parts |
| TargetSyntax.StripMeans | nmapui/validation.py:95-96 | stripping takes all white space from both ends, and nothing else |
| TargetSyntax.ItemsMean | nmapui/validation.py:95-96 | the items are what stands between the commas, without the white space around it |
| TargetSyntax.OctetMeans | nmapui/validation.py:39-48 | an octet is a number up to 255, or two, not falling, with a hyphen between; its span and values |
| TargetSyntax.RangeMeans | nmapui/validation.py:33-50 | a range is four octets with dots between, one of them with a hyphen |
| TargetSyntax.HostnameIff | nmapui/validation.py:4-9 | a host name is labels of 1 to 63 letters, digits and hyphens, none at an end, with dots between |
| TargetSyntax.ItemMeans | nmapui/validation.py:52-82 | valid is exactly an address, a network other than 0.0.0.0/0, a range, or a host name that does not look like an address |
| AddressBudget.ValidateTarget | nmapui/validation.py:85-113 | accepted if and only if not blank, every item valid and the count within the limit; the first bad item, or the exceeded count, is reported |
| AddressBudget.AcceptedFitsBudget | nmapui/validation.py:52-113 | an accepted list stands for at most `max_targets` distinct targets |
| AddressBudget.AcceptedIsNotInternet | nmapui/validation.py:75-113 | no item of it stands for all of IPv4 in any notation, while the limit is below 2^32; the network 0.0.0.0/0 is refused under any limit |
| DnsNames.BitTests | nmapui/host_identity.py:16-23 | the bit operations on the length bytes are the comparisons of the grammar |
| DnsNames.NodeMeans | nmapui/host_identity.py:13-27 | pointer, label, end or nothing valid, by the top two bits and the other six; where each leads |
| DnsNames.DecodesCompressed | nmapui/host_identity.py:7-28 | labels followed by a pointer decode to those labels and the name pointed to, and end after the pointer (section 4.1.4 of RFC 1035) |
| DnsNames.JoinIsInjective | nmapui/host_identity.py:25-26 | names whose labels have no dots are the same text only if they have the same labels |
| DnsNames.DecodeName | nmapui/host_identity.py:7-28 | the loop, although it refuses to revisit an offset, accepts exactly the names the grammar of section 4.1.4 of RFC 1035 gives within 128 nodes, with the same labels and end, and never reads outside the message |
| DnsNames.RevisitHasNoName | nmapui/host_identity.py:10-13 | an offset reached again from itself has no name in any number of nodes |
| DnsNames.LimitIsForLongMessages | nmapui/host_identity.py:10-28 | no name has more nodes than its message has bytes: in messages of up to 128 bytes the limit rejects nothing |
| DnsNames.DecodeInvertsEncodeIff | nmapui/host_identity.py:7-42 | anywhere in any message, decoding inverts the question encoder if and only if every label has 1 to 63 bytes and there are at most 127 |
| KeyFile.Directory.WritePrivateTemp | nmapui/private_storage.py:11-33 | a whole, synced temporary file, or none left behind, wherever it fails |
| KeyFile.Directory.Publish | nmapui/private_storage.py:60-67 | an existing file is never replaced, and the temporary name always goes |
| KeyFile.Directory.LoadPrivateBytes | nmapui/private_storage.py:71-91 | the key returned is made of the file at the path, which is there |
| KeyFile.Directory.LoadOrCreatePrivateBytes | nmapui/private_storage.py:47-68 | with other creators acting between its operations: ends, leaves no temporary file, and without failures returns the key of the published file |
| KeyFile.CreatorsAgree | nmapui/private_storage.py:47-91 | at any moment of any interleaving of any number of creators, some of which fail or die: the path is absent or holds one creator's whole proposal (or the file of before), and all that returned returned its key |
| KeyFile.KeyIsFinal | nmapui/private_storage.py:47-68 | once published, the content of the path never changes |
| KeyFile.NoTempLeft | nmapui/private_storage.py:11-68 | a creator that returned or raised has left no temporary file |
| KeyFile.LoadFindsKey | nmapui/private_storage.py:68-91 | a creator that gets to loading finds a file, and fails only on a read error or an unacceptable key |
| KeyFile.CreatorsFinish | nmapui/private_storage.py:47-91 | whatever the others do, a creator takes at most seven steps more than its proposal has bytes |
| AssetDiff.SummarizeAssetDifferences | nmapui/reporting.py:218-287 | the two loops compute one difference of the two lists; the next rows say what it reports |
| AssetDiff.SameHostIff | nmapui/reporting.py:207-215 | which records are of the same host |
| AssetDiff.HostsReported | nmapui/reporting.py:218-287 | in terms of the two lists: added are the labels of current hosts the previous scan has not, removed the reverse |
| AssetDiff.TraitsReported | nmapui/reporting.py:218-287 | a port or vulnerability is new exactly if a current host has it and had not, removed if one had it and has not |
| AssetDiff.ChangesReported | nmapui/reporting.py:218-287 | changed are the hosts of both scans whose ports or vulnerabilities differ, each with its four lists |
| AssetDiff.HasChangesIff | nmapui/reporting.py:218-287 | there are changes exactly if a host came, went or changed |
| AssetDiff.HostsCountOnce | nmapui/reporting.py:218-287 | each host counts once, under its label or in the list of changes |
| AssetDiff.SwapSwaps | nmapui/reporting.py:218-287 | swapping the scans swaps added with removed and new with removed throughout, and turns each changed host round when shared hosts carry the same label |
| AssetDiff.AddressesAreLabels | nmapui/reporting.py:207-215 | which they do when every asset is labelled by its address |
| DiffRefresh.ScanIndex.RefreshPersistedDiffSummaries | nmapui/reporting.py:347-443 | the loop that carries the previous entry assesses exactly the chosen entries of the group, each against its predecessor, and merges them by path |
| DiffRefresh.ScanIndex.SaveScan | nmapui/reporting.py:866-879 | saving a scan is its upsert and an incremental refresh of its group |
| DiffRefresh.Assessed | nmapui/reporting.py:385-419 | a summary is there only for a computed comparison and names the previous scan; a comparison is left uncomputed only when a file is missing or unreadable; nothing else of an entry changes |
| DiffRefresh.AssessedMeans | nmapui/reporting.py:385-419 | computed exactly for a first scan, or when both files are there and readable; a summary exactly when they differ, with the differences, path and time of the scan before |
| DiffRefresh.RefreshMeans | nmapui/reporting.py:347-443 | a full refresh assesses every scan of the customer and target, an incremental one only the newest, each against the latest before it; every other entry stays |
| DiffRefresh.IncrementalIsFull | nmapui/reporting.py:347-443 | saving the newest scan of an up-to-date group: incremental and full refresh give the same index, and only that scan is assessed |
| DiffRefresh.IncrementalEqualsRebuild | nmapui/reporting.py:347-443 | scans saved in increasing time stamps with fixed XML files: refreshing only the newest each time gives the index of full rebuilds, and a final rebuild changes nothing |
| DiffRefresh.RefreshesAgreeIff | nmapui/reporting.py:347-443 | on any chronological index the two refreshes agree if and only if every scan of the group but the newest already carries its comparison |
| DiffRefresh.OlderSaveAgreesIff | nmapui/reporting.py:347-443 | a scan saved behind newer ones of an up-to-date group: incremental and full refresh agree if and only if it already carries its comparison and its successor, unless that is the newest, keeps its own |
| DiffRefresh.OlderSaveIsMissed | nmapui/reporting.py:347-443 | as it is first saved, with nothing compared, such a scan is left without its comparison whenever one could be made |
| DiffRefresh.RefreshIsLocal | nmapui/reporting.py:433-443 | entries of other customers and targets are untouched, and of the others only the comparison changes |
| DiffRefresh.UpsertMeans | persistence.py:247-271 | the entry is the only one of its path, all others are as they were, and the index stays latest first |
| DiffRefresh.ScanIndex.Upsert | persistence.py:247-271 | the entry replaces any of its path and takes its place in the index, latest first |

## Left out

- `UploadSafety.UploadedMeansStored` assumes a server that confirms only bytes it has and a file whose size and time stamp tell its content apart; content that changes under the same size and time is not noticed by the code either.
- `UploadAnswers.TroubleIsSurvived` has no expired token on the way: a first 401 makes two attempts of a request (`Upload.Drive.SendRequest`, `UploadAnswers.WhyItEnded`).
- Upload: MIME types, HTTP details, the check of the session address, waiting between retries, the initial token and redirects.
- Registry: job rows in the runtime store, completion listeners, `update`, paused seconds, the length of a checkpoint's waits, the order in which a shutdown polls processes, signals on platforms without process groups (there pauses are refused), details of a job other than its pause and cancel fields.
- `RegistrySafety.RunKeepsInv` assumes of the callers: final statuses for `complete`; a process that is attached is tracked by no other key, not suspended, and does not replace a suspended one; none is forgotten while suspended. `CommandRun.ForgettingAfterCleanUpIsProper` proves the last of the one that runs commands; `RegistrySafety.CompletingIsAdmittedIff`, `RegistrySafety.AttachingIsSafeIff` and `RegistrySafety.ForgettingIsSafeIff` say when each is needed.
- Process numbers: the system does not give a number to a new process while the registry or a shutdown still tracks the old one.
- `CommandRun.RunCommand` takes the polls as they come; it does not model the output of the command or the short waits after a signal.
- Broadcaster: subscriptions and tabs; the three dictionaries that always share their keys are one map of three lists.
- Events: JSON bytes (an envelope has any size), the snapshot of the latest hosts, plain payloads shaped like a stored envelope.
- Receipts: pruning of finished jobs, which can delete old receipts; reading identifiers from a payload; completion reports of scans.
- `PerClientRateLimiter`, a map of rate limiters, would add only easy members.
- Schedules: normalising settings, parsing dates and times, years past 9999, anchors with a zone on rules without one. The two sides of a daylight-saving gap are covered by offsets that may be anything within 24 hours.
- Catch-up: time is one timeline that does not go back; rules in documents carry ids; the zone of a rule does not change during a run.
- Recovery: a job type that is empty, the texts in a payload, ids of status events; the handlers for signals at exit.
- Planning: parsing and printing of addresses (an input); addresses excluded from a scan; that the final `scan.xml` of a single-target plan holds the fallback's results, which it does not, since the merge runs for several targets only; a target that is a name or a list is scanned as it is.
- Address budget: digits and white space beyond ASCII and Latin-1; `isdigit` accepts some characters `int` refuses.
- DNS: the record loop of `query_mdns_hostname` and its checks of the answering host.
- Key file: symbolic links, permissions, an unlink that fails, `atomic_replace_private_bytes`; who died may leave a temporary file.
- `AssetDiff.SummarizeAssetDifferences` takes names, ports and vulnerabilities already split, stripped and lowered; sorted lists are multisets and sets.
- Diff refresh: the copies in `metadata.json`, scans of equal time stamps, reading and writing the index, removal of entries.
- Flask, Socket.IO, HTML, PDF, XML and nmap output, encryption, customer fingerprints, vendor lookup, idle state, and the Node server.
