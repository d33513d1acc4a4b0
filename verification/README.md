# Verified models of dash

A Dafny model of the parts of dash whose correctness rests on protocols, invariants or matching
pairs of functions, with proofs about every input and every run. `dafny verify dfyconfig.toml`
verifies all of it.

## What is modelled

**Self-update** (`SelfUpdate.dfy`, `Host.dfy`, `Installer.dfy`). The durable state of an update is the
transaction file and the block file, the systemd guard, the entry point, the schema and the release
directories. `Host` has one method for each effect; every effect may be refused, may happen and
still report failure, or may be the last thing its process does, and a power loss takes back any
unsynced writes. Between two effects systemd may start whatever the entry names unless guard and
block refuse it. `Installer` holds the procedures over that machine; its contracts say that each of
them, wherever it stops, leaves a state of the crash invariant `Inv`, and where it ends when nothing
fails. Renames within one directory reach the disk in order, so one sync covers the transaction and
the block file; a committed schema change is durable.

One promise is false of a legacy install (a tree from before release directories): when the guard or
the block could not be made durable, the rollback copies the old tree back while a power loss may find
the block missing, and then systemd may start a half copied tree. `RestoreTearsExactly` gives the exact
condition, the install is legacy and the block is not durable, over everything a restore may do;
`Host.Restore` marks a history as exposed under that condition and no other, and
`LegacyInstallCanBeTorn` is an instance.

**Transaction file** (`TransactionFile.dfy`). Writer and reader of the key-value file, with line
splitting, flattening of values, trimming, duplicate keys and the 65535-byte line limit. Path cleaning
and time parsing are parameters.

**Theme CSS** (`CssScan.dfy`, `CssValue.dfy`, `ThemeCss.dfy`, `ThemeRoundTrip.dfy`, `Text.dfy`). The
hand-written scanners as loops, proved against recursive definitions over one quote and escape
machine; the printer; and the round trip. A string is a sequence of Unicode scalar values, sizes are
counted in UTF-8 bytes. The round trip fails when a file writes a slash and a star on either side
of a comment; the condition in `RoundTrip` and `PrintedFormIsFixed` is exact.

**Dirty queue** (`DirtyQueue.dfy`). Every critical section and worker step is a method; the ghost view
records which worker holds what, which marks nobody has seen and the newest snapshot of each id.

**Notification outbox** (`Outbox.dfy`, `OutboxSafety.dfy`, `OutboxBackoff.dfy`, `OutboxStore.dfy`). Each
store transaction is one function on the tables, None when it is rolled back; `OutboxStore` performs
the statements one after the other, and each method says which rows change to what, that all others
stay, and that the safety properties survive. A transaction that combines several of these, as the sender's
batches do, is a sequence of them or nothing, so what holds in all sequences holds of it.

**Rule generations and control tasks** (`RuleGenerations.dfy`, `ControlLoop.dfy`). Rules, events and tasks
with the loop that works the tasks off; `Store.Others` commits any transactions of other writers
between two steps of the loop, and the loop may stop at every step. A patch within 1e-9 of the old
threshold keeps the generation, so several of them can drift it; `DriftIsBounded` and `DriftAddsUp` say
how far.

**Alert runtime** (`AlertRuntime.dfy`, `AlertProperties.dfy`, `AlertService.dfy`). One evaluation against a
specification key by key, and a worker's turn with the store's outcomes and the control loop's edits
interleaved. Times are whole seconds, values are reals, metric extraction and effective thresholds
are parameters.

**Projection gate** (`ProjectionGate.dfy`). The counters under the mutex, with any steps of other threads
in between; a wait on the condition variable is a step that needs the condition.

**Session hub** (`SessionHub.dfy`). Sessions and result channels as tables that stand for the heap, one
query with any steps of other goroutines in between.

**Front cache** (`FrontView.dfy`, `FrontCache.dfy`). The view, its four payloads and their recombination;
the memory backend with the history of all operations on it, each with the samples and metadata it brought.

`Wrappers.dfy` holds what the modules share.

## Model

| member | source | states |
|---|---|---|
| SelfUpdate.PointOfNoReturn | internal/dashupdate/install_linux.go:322-365 | In every run, once the migration mark is durable and until the job's completion can be on disk: no power loss takes the mark back, the persisted phase never decreases, the entry stays with the candidate, and both releases (or the legacy backup) still exist |
| SelfUpdate.SchemaMovesOnlyPastTheMark | internal/dashupdate/install_linux.go:388-423 | If the schema differs between two moments of a run, some step between them migrated, with the mark durable, the block durable, the guard installed and the service stopped |
| HostSteps.Host.MissingBlockMeansSettled | internal/dashupdate/install_linux.go:434-485 | In every state of every history that is not exposed, whatever a power loss leaves: where the block is missing, the entry is one release, the schema is that release's, it is the candidate exactly if the job's mark is there, and nothing runs on another schema |
| SelfUpdate.RestoreTearsExactly | internal/dashupdate/install_linux.go:1163-1193 | The exception, exactly: among everything a restore may do to the disk there is a torn tree that may be found without a block if and only if the install is legacy and a power loss may find the block missing |
| SelfUpdate.RestoreKeeps | internal/dashupdate/install_linux.go:1163-1193 | Whatever a restore does, recovery can go on from there, and a restore that succeeds leaves the previous release settled |
| SelfUpdate.TornTreeIsReachable | internal/dashupdate/install_linux.go:1088-1143 | Whenever that condition holds, a run reaches the torn tree, and a power loss there can leave it without the block |
| SelfUpdate.LegacyInstallCanBeTorn | internal/dashupdate/install_linux.go:1088-1143 | A concrete legacy install, its block written but not synced, whose restore tears it |
| HostSteps.Host.Record | internal/dashupdate/install_linux.go:322-365 | Every effect appended to the history is a state of the crash invariant and a permitted successor of the last |
| HostSteps.Host.Environment | internal/dashupdate/install_linux.go:1341-1367 | Between effects systemd starts only what the entry names, and only if guard and block do not both refuse it |
| HostSteps.Host.PowerLoss | internal/dashupdate/job.go:315-345 | Each file keeps one of the contents it had since its last sync; the history stays a run |
| HostSteps.Host.EnsureGuard | internal/dashupdate/install_linux.go:1341-1367 | Success makes the drop-in durable; failure leaves it or writes it unsynced; nothing else changes |
| HostSteps.Host.WriteBlock | internal/dashupdate/install_linux.go:851-868 | Success makes the block durable together with the transaction file beside it; failure may or may not have written it |
| HostSteps.Host.RemoveBlock | internal/dashupdate/install_linux.go:1376-1382 | The block goes only from a settled machine; failure may or may not have removed it |
| HostSteps.Host.Stop | internal/dashupdate/install_linux.go:714-722 | Success leaves no running service; failure may have stopped it |
| HostSteps.Host.Start | internal/dashupdate/install_linux.go:724-736 | A start runs the entry's release, on its own schema |
| HostSteps.Host.WriteTransaction | internal/dashupdate/job.go:198-204 | Success makes the transaction durable; an error reports whether it was committed, and either way the crash invariant holds |
| HostSteps.Host.RemoveTransaction | internal/dashupdate/job.go:347-356 | Only a completed transaction is removed, and the block is never left behind |
| HostSteps.Host.Activate | internal/dashupdate/install_linux.go:974-991 | Only while barred: success makes the candidate the durable entry; a failure may leave the old entry, the candidate or, for a legacy tree, a torn one |
| HostSteps.Host.Restore | internal/dashupdate/install_linux.go:1163-1193 | What it does to the disk is one of the effects a restore may have; success leaves the previous release as the durable entry; the history is exposed from then on exactly if one of those effects is a torn tree that may be found without a block |
| HostSteps.Host.Migrate | internal/dashupdate/install_linux.go:1068-1086 | The schema moves to the candidate's, or part of the way if it fails, only barred and past the durable mark |
| HostSteps.Host.AddFiles | internal/dashupdate/install_linux.go:209-315 | The candidate's directory and the backup appear without touching anything an unfinished job relies on |
| HostSteps.Host.RemoveFiles | internal/dashupdate/install_linux.go:1285-1318 | No file is removed that an unfinished transaction on disk needs |
| Installer.ReachPhase | internal/dashupdate/install_linux.go:367-386 | The phase on disk moves on and never back; nothing but the transaction changes |
| Installer.HoldForRecovery | internal/dashupdate/install_linux.go:851-868 | After a failed start the block and the stop are attempted, and the crash invariant holds whatever fails |
| Installer.Unbar | internal/dashupdate/install_linux.go:388-423 | On success the block is gone and the service may run; requires a settled machine |
| Installer.RollbackBeforeMigration | internal/dashupdate/install_linux.go:1088-1143 | On success the previous release, its schema and a completed transaction are durable; exposed exactly if the restore it starts with could tear the tree |
| Installer.BarService | internal/dashupdate/install_linux.go:322-365 | On success the switching phase is durable and the service is barred; on any failure the job can still be undone |
| Installer.StopForSwitch | internal/dashupdate/install_linux.go:341-346 | On success the stopped, refused service and the switching phase are durable |
| Installer.SwitchRelease | internal/dashupdate/install_linux.go:322-365 | On success the candidate is the entry, the mark is durable and the machine is barred |
| Installer.FinishForward | internal/dashupdate/install_linux.go:388-423 | On success the candidate's schema is complete, the candidate is the durable entry, and the job is recorded as done without a block |
| Installer.StartCandidate | internal/dashupdate/install_linux.go:396-423 | With the schema complete, success leaves the job durably recorded as done without a block |
| Installer.RemoveDoneTransaction | internal/dashupdate/job.go:214-232 | Removes exactly a completed transaction of the job, leaves every other |
| Installer.FinalizeRecovery | internal/dashupdate/install_linux.go:487-503 | Ends without transaction and block, entry and schema unchanged |
| Installer.PruneReleases | internal/dashupdate/install_linux.go:1285-1318 | Only release directories and backups go, and only when no job can be open |
| Installer.BarForRecovery | internal/dashupdate/install_linux.go:434-485 | On success the transaction that was read is durable and the service barred |
| Installer.Recover | internal/dashupdate/install_linux.go:434-485 | Callable in every reachable state; without failures it ends with no transaction and no block at the previous release or at the candidate, as the mark on disk says |
| Installer.StageUpdate | internal/dashupdate/install_linux.go:209-315 | On success the candidate's files and the prepared transaction are durable; files survive a failed write only if the transaction did reach the disk |
| Installer.ApplyUpdate | internal/dashupdate/install_linux.go:116-171 | Refused without effect while a transaction or a block exists; without failures it ends at the candidate |
| Installer.RunUpdate | internal/dashupdate/install_linux.go:101-110 | Without failures it ends at the candidate with its schema, without transaction and without block |
| Installer.Live | internal/dashupdate/install_linux.go:434-485 | Updates, recoveries, process deaths, power losses and service starts in any order form a run that keeps the crash invariant; an install that never had a legacy tree is never exposed |
| TransactionFile.ReadStatusFields | internal/dashupdate/runner.go:1135-1168 | The line loop computes the same fields, or the same error, as reading line by line: duplicate keys, missing separators and over-long lines are errors |
| TransactionFile.ReadLinesBack | internal/dashupdate/runner.go:1221-1227 | Lines written for distinct plain keys read back as exactly those keys with their flattened values, if and only if every line fits |
| TransactionFile.ReadAfterWrite | internal/dashupdate/job.go:234-292 | For every transaction that is written at all: what reading the file gives, or that it is an error |
| TransactionFile.CleanPathFixed | internal/dashupdate/job.go:294-300 | A path reads back unchanged exactly when it is empty or trimmed, on one line and clean |
| TransactionFile.RoundTrip | internal/dashupdate/job.go:169-191 | Reading what was written returns the same transaction if and only if it is canonical: trimmed one-line fields, clean paths, valid, and lines that fit |
| CssScan.StripCSSComments | internal/theme/css.go:123-164 | The comment loop equals one left-to-right pass of the shared quote and escape machine |
| CssScan.FindBlockEnd | internal/theme/css.go:166-211 | The block loop finds the first brace outside strings, escapes and parentheses |
| CssScan.FindValueEnd | internal/theme/css.go:265-350 | The value loop stops at the first semicolon outside strings, escapes and brackets, and rejects unbalanced ones |
| CssScan.WholeValuePassed | internal/theme/css.go:166-211 | A value the value scanner takes whole is passed by the block scanner at the depth it came in with |
| CssScan.WholeValueStops | internal/theme/css.go:265-350 | A value that is taken whole is still taken whole before a semicolon |
| CssScan.StripCopies | internal/theme/css.go:123-164 | Text that opens no comment outside strings is copied unchanged |
| CssValue.ValidateThemeValue | internal/theme/css.go:356-422 | The validation loops accept exactly the values of the recursive definition: no stray control characters, no forbidden function, no priority, closed strings |
| CssValue.CheckEndsIdle | internal/theme/css.go:356-422 | An accepted value, read over whole escapes and identifiers, leaves the character-by-character scanners outside strings and escapes |
| ThemeCss.ParseDeclarations | internal/theme/css.go:265-350 | The declaration loop equals the recursive reading of a body, with its errors |
| ThemeCss.ClassifySelectorList | internal/theme/css.go:213-254 | The selector list has the one mode all its parts have, or is an error |
| ThemeCss.ParseThemeCSS | internal/theme/css.go:61-121 | The file loop equals the recursive reading of a theme, limits and errors included |
| ThemeCss.RenderThemeCSS | internal/theme/css.go:550-575 | The buffer holds the header and the light and dark blocks in order |
| ThemeRoundTrip.ParsedIsGood | internal/theme/css.go:61-121 | Whatever the parser accepts is in the form the round trip is stated for, within the count limit |
| ThemeRoundTrip.RoundTrip | internal/theme/css.go:550-575 | Printing and parsing give the theme back, in order, if and only if it fits the size and count limits and no value opens a comment outside strings |
| ThemeRoundTrip.PrintedFormIsFixed | internal/theme/css.go:40-59 | For every accepted file: its printed form parses to the same theme, if and only if it fits and opens no comment |
| ThemeRoundTrip.CommentMarkAcrossComment | internal/theme/css.go:123-164 | A concrete accepted file whose printed form is not read back: a comment cut out between a slash and a star |
| ThemeRoundTrip.StripDropsStars | internal/theme/css.go:123-164 | Removing comments never adds stars, which is how a lost comment shows |
| DirtyQueue.MarkKeeps | internal/store/alert/dirty_queue.go:32-56 | Marking keeps the invariant: pending lists the queued ids once each, running ids have one holder, unseen marks stay queued or dirty again, snapshots are the newest |
| DirtyQueue.TakeKeeps | internal/store/alert/dirty_queue.go:58-91 | Handing the first id to a worker keeps the invariant |
| DirtyQueue.ReleaseKeeps | internal/store/alert/dirty_queue.go:93-115 | Finishing keeps the invariant, and an id leaves the queue only when no mark is unseen |
| DirtyQueue.Queue.Mark | internal/store/alert/dirty_queue.go:32-56 | The mutated queue is the one the specification gives; work is never pending without a token or a scanning worker |
| DirtyQueue.Queue.Scan | internal/store/alert/dirty_queue.go:58-91 | Returns the first pending id with its newest snapshot, or sleeps only when nothing is pending; passes the token on if work remains |
| DirtyQueue.Queue.Finish | internal/store/alert/dirty_queue.go:93-115 | Requeues at the end if retried or marked meanwhile, else forgets the id; an id that nobody runs is left alone |
| DirtyQueue.Queue.Wake | internal/store/alert/dirty_queue.go:85-90 | Receiving the token makes the worker scan, so no wakeup is lost |
| DirtyQueue.Queue.Compact | internal/store/alert/dirty_queue.go:124-130 | Compaction keeps the pending sequence and bounds the consumed prefix |
| OutboxSafety.RunsAreSafe | internal/store/alert/alert_notifications.go:189-301 | In every run of all transactions: one row per key, the probe mark only in flight, a closing notice in flight or sent only once its opening one is settled; and settled rows never change again |
| OutboxSafety.StepKeepsGood | internal/store/alert/alert_notifications.go:303-482 | Each transaction alone keeps those properties, committed or rolled back |
| OutboxSafety.BatchIsClaimable | internal/store/alert/alert_notifications.go:244-301 | A claim takes only ready, unsettled rows of one channel and transition; a probe is claimed alone |
| OutboxSafety.ClaimKeepsGood | internal/store/alert/alert_notifications.go:189-256 | A claim puts a closing notice in flight only after its opening notice is settled |
| OutboxSafety.MergeKeepsGood | internal/store/alert/alert_notifications.go:58-98 | Inserting with conflicts ignored never duplicates a key nor loses a row |
| OutboxSafety.DeliveriesSettle | internal/store/alert/alert_notifications.go:303-403 | Settling a delivery puts nothing in flight, and changes no settled row |
| OutboxSafety.AdministrationSettles | internal/store/alert/notify_channels.go:138-387 | Channel administration puts nothing in flight, and changes no settled row |
| OutboxBackoff.BlockQuiets | internal/store/alert/alert_notifications.go:405-482 | A block at the current revision of a usable channel with no other row in flight leaves the whole channel waiting for the one probe time |
| OutboxBackoff.FirstClaimIsTheProbe | internal/store/alert/alert_notifications.go:197-256 | In every run of enqueues, claims and other channels' work, the channel stays quiet until its first claim, which is one probe at or after the probe time |
| OutboxBackoff.InsertStaysQuiet | internal/store/alert/alert_notifications.go:100-143 | Notices enqueued for a quiet channel join the wait for the same probe |
| OutboxBackoff.FailedProbeBacksOff | internal/alert/service_notify.go:168-213 | A probe that fails blocks its channel again for at least five minutes and at least the delay that was asked for |
| OutboxBackoff.BatchBlockQuiets | internal/alert/service_notify.go:153-164 | When every row of a batch is blocked in turn, the channel ends up waiting for the last of their probe times |
| OutboxBackoff.BlockedDelay | internal/alert/service.go:89-100 | The probe delay is between five minutes and an hour |
| OutboxBackoff.RetryDelay | internal/alert/service.go:84-87 | The retry delay is between 5 and 320 seconds |
| Outbox.NextProbe | internal/store/alert/alert_notifications.go:124-143 | The earliest due time of the channel's blocked rows, if there is one |
| Outbox.First | internal/store/alert/alert_notifications.go:197-213 | The claimable row that precedes every other: in flight first, then longest due, then oldest |
| Outbox.CandidatesAreFirst | internal/store/alert/alert_notifications.go:262-275 | A row that may travel with the claimed one is left out only if 99 older ones travel already |
| OutboxStore.BatchInTwo | internal/store/alert/alert_notifications.go:244-301 | Claiming the first row and then looking its companions up is claiming the batch at once |
| OutboxStore.Store.InsertNotifications | internal/store/alert/alert_notifications.go:58-98 | All notices are enqueued as specified, or none |
| OutboxStore.Store.InsertAlertNotifications | internal/store/alert/alert_notifications.go:21-47 | One notice for each target under the event's key |
| OutboxStore.Store.WriteOpenTransition | internal/store/alert/alert_events.go:269-303 | The opening notices of a new event are committed with it |
| OutboxStore.Store.WriteCloseTransition | internal/store/alert/alert_events.go:413-453 | Only an event that is still open is closed, and its closing notices are committed with it; otherwise nothing changes |
| OutboxStore.Store.EnqueueNotifications | internal/store/alert/alert_notifications.go:148-179 | Commits the notices, or nothing if key or event is blank or a key is too long |
| OutboxStore.Store.TakeNextNotification | internal/store/alert/alert_notifications.go:197-240 | Puts the first claimable row in flight, as a probe if it was blocked |
| OutboxStore.Store.TakeNotificationBatch | internal/store/alert/alert_notifications.go:244-301 | Claims the row and the companions whose messages still fit, and returns exactly those |
| OutboxStore.Store.FitCandidates | internal/store/alert/alert_notifications.go:276-294 | The loop keeps the longest prefix that decodes and fits |
| OutboxStore.Store.CompleteNotification | internal/store/alert/alert_notifications.go:303-337 | A row in flight is sent; at the current revision of a live channel every blocked row of it is due at once with a new budget, otherwise no other row changes; a second completion changes nothing |
| OutboxStore.Store.RecordNotificationFailure | internal/store/alert/alert_notifications.go:405-482 | What becomes of the row, and of the rows that wait with it, in each of deleted, disabled, edited and live channel; a conflict changes nothing |
| OutboxStore.Store.RequeueNotification | internal/store/alert/alert_notifications.go:350-358 | Only a row in flight changes, at the given time and without using its budget: a probe is blocked again with the failure it carried, any other row is retried with a clean slate |
| OutboxStore.Store.PauseNotification | internal/store/alert/alert_notifications.go:360-385 | Only a row in flight changes, and its attempts do not: given up if the channel is deleted by now, due for a retry if it is enabled again, else paused |
| OutboxStore.Store.DiscardNotification | internal/store/alert/alert_notifications.go:387-403 | Only a row in flight changes, and its attempts do not: due for a retry if the channel was edited meanwhile, else given up with the failure's code |
| OutboxStore.Store.SweepChannel | internal/store/alert/alert_notifications.go:450-469 | The loop over the rows changes exactly those of the channel in the given states |
| OutboxStore.Store.ReplaceChannel | internal/store/alert/notify_channels.go:171-221 | Succeeds exactly at the current revision and then moves it on; a new type gives every waiting row up, a disabled channel pauses the queued ones, otherwise what waited is due at once; rows in flight, settled or of other channels stay |
| OutboxStore.Store.UpdateChannelConfig | internal/store/alert/notify_channels.go:223-265 | Succeeds exactly at the current revision and then moves it on; queued rows pause if the channel is disabled, else what waited is due at once; every other row stays |
| OutboxStore.Store.SetChannelEnabled | internal/store/alert/notify_channels.go:267-302 | Switching off pauses exactly the queued rows, switching on makes exactly the waiting and paused ones due with a new budget, each under a new revision; asking for the state it is in changes nothing |
| OutboxStore.Store.DeleteChannel | internal/store/alert/notify_channels.go:304-359 | The channel is unusable afterwards and exactly its waiting and paused rows are given up |
| OutboxStore.Store.RecoverChannelNotifications | internal/store/alert/notify_channels.go:361-387 | Exactly the blocked rows are due at once with a new budget, and only at the observed revision of an enabled channel; otherwise nothing changes |
| RuleGenerations.GenerationFollowsMeaning | internal/store/alert/alert_rules.go:204-233 | A patch starts a new generation exactly when the rule it leaves evaluates differently from the one it found, thresholds and offsets compared up to the code's 1e-9 |
| RuleGenerations.DriftIsBounded | internal/store/alert/alert_rules.go:245-247 | Patches that keep the generation, however many, move threshold and offset by at most 1e-9 each and nothing else that is evaluated |
| RuleGenerations.DriftAddsUp | internal/store/alert/alert_rules.go:245-247 | And they can: repeated patches of half that size move the threshold any distance within one generation, to a rule that would have been a new generation in one patch |
| RuleGenerations.AdvanceKeeps | internal/store/alert/alert_rules.go:136-150 | A new generation strands the open events of the old one, and the task enqueued with it covers them |
| RuleGenerations.PatchKeeps | internal/store/alert/alert_rules.go:101-150 | Patching keeps the invariant: unique open events, valid tasks, every stale open event covered by a pending task |
| RuleGenerations.CreateKeeps | internal/store/alert/alert_rules.go:77-92 | Creating keeps the invariant |
| RuleGenerations.OpenKeeps | internal/store/alert/alert_events.go:269-411 | Opening keeps the invariant: only the live generation opens, at most one open event for a rule generation and object |
| RuleGenerations.CloseKeeps | internal/store/alert/alert_events.go:413-453 | Closing keeps the invariant |
| RuleGenerations.FindOpen | internal/store/alert/alert_events.go:315-345 | Finds an open event of the rule generation and object, or there is none |
| RuleGenerations.CompleteKeeps | internal/store/alert/alert_tasks.go:53-55 | A task may be deleted once nothing of its old generation is open |
| RuleGenerations.NeverReopened | internal/store/alert/alert_events.go:348-411 | Once nothing of a past generation is open, nothing of it is ever open again |
| RuleGenerations.StepKeeps | internal/store/alert/alert_rules.go:101-186 | Every transaction of the API, the evaluators and the tickers keeps the invariant and only moves generations forward |
| ControlLoop.Store.EnqueueControlTask | internal/store/alert/alert_tasks.go:78-96 | Afterwards some task has the key: the one that had it, and nothing changed, or a new one beside all the others |
| ControlLoop.Store.CreateRule | internal/store/alert/alert_rules.go:77-92 | A new id gets a live generation above zero and a task named for it, committed together; a taken or invalid id changes nothing; the invariant stays and nothing closed reopens |
| ControlLoop.Store.AdvanceRule | internal/store/alert/alert_rules.go:136-150 | The generation left behind is covered by a pending change that will close what it opened |
| ControlLoop.Store.PatchRule | internal/store/alert/alert_rules.go:101-150 | A patch that changes the meaning moves to the next generation with the old one covered by a pending change; any other keeps generation and tasks; the invariant stays and nothing closed reopens |
| ControlLoop.Store.DeleteRule | internal/store/alert/alert_rules.go:152-186 | A deleted rule may open nothing in any generation, and what its last one has open is covered by a pending change |
| ControlLoop.Store.WriteOpenTransition | internal/store/alert/alert_events.go:269-303 | Stale exactly if the generation may not open; otherwise the answer is the open event of that generation and object, created exactly if there was none; the invariant stays and nothing closed reopens |
| ControlLoop.Store.WriteCloseTransition | internal/store/alert/alert_events.go:413-453 | Finds an event exactly if one that is meant is open, closes only that one, and with the uniqueness of open events none that is meant is left open |
| ControlLoop.Store.CloseGeneration | internal/alert/service_control.go:138-158 | With every other writer interleaved: when it succeeds for a past generation, nothing of it is open |
| ControlLoop.Store.CloseInvalid | internal/alert/service_control.go:160-170 | Keeps the invariant whatever the list and the interleaving |
| ControlLoop.Store.CloseDeletedServers | internal/alert/service_control.go:172-213 | Keeps the invariant whatever the list and the interleaving |
| ControlLoop.Store.ControlTask | internal/alert/service_control.go:72-121 | A valid change is never rejected; when it succeeds its old generation is past and closed |
| ControlLoop.Store.ProcessControlTask | internal/alert/service_control.go:37-70 | A completed change is gone from the table and nothing of its old generation is open; the invariant holds wherever the loop stops |
| AlertRuntime.EvaluateServer | internal/alert/runtime.go:60-190 | The result is the specified one key by key, whatever order the maps are walked in |
| AlertRuntime.EvaluateRule | internal/alert/runtime.go:104-166 | One rule's branches give the specified next state, open and close |
| AlertRuntime.CloseUnmounted | internal/alert/runtime.go:77-96 | Firing states of unmounted rules are carried over and closed once each, in any order |
| AlertProperties.FiringIsKept | internal/alert/runtime.go:60-190 | Every firing state survives an evaluation with its event and start |
| AlertProperties.ClosesAreFiring | internal/alert/runtime.go:60-190 | Closes are distinct keys that were firing, with their own event |
| AlertProperties.OpensAreFresh | internal/alert/runtime.go:60-190 | Opens are distinct keys neither firing nor cooling down, raised for long enough, and left pending |
| AlertProperties.NeverBoth | internal/alert/runtime.go:60-190 | No key both opens and closes |
| AlertProperties.OrderDoesNotMatter | internal/alert/runtime.go:168-187 | Two evaluations of the same input agree on states, opens and the set of closes |
| AlertService.PendingIsBacked | internal/alert/runtime.go:149-152 | What an evaluation leaves pending is backed by an unbroken streak that began no later than it says |
| AlertService.OpenIsJustified | internal/alert/runtime.go:153-165 | An alert opens only after its condition was true in a streak of evaluations spanning the rule's duration |
| AlertService.SwapStaysHonest | internal/alert/state.go:14-42 | Saving after control-loop edits leaves no pending state without its streak |
| AlertService.Service.SaveRuntimeState | internal/alert/state.go:14-42 | The two loops are a compare-and-swap per key: replaced if still as loaded, else left as edited; other servers are untouched |
| AlertService.DropEnded | internal/alert/state.go:22-26 | First loop: ended states that were not edited go |
| AlertService.StoreChanged | internal/alert/state.go:27-36 | Second loop: completes the compare-and-swap |
| AlertService.RuntimeStatesFromOpenEvents | internal/alert/service_bootstrap.go:51-81 | Each server's key holds the firing state of its last listed event |
| AlertService.Service.RestoreOpenRuntime | internal/alert/service_bootstrap.go:26-49 | A state already firing for the event is kept, every other restored key is overwritten, and nothing becomes pending |
| AlertService.Service.DropClosed | internal/alert/service_control.go:201-211 | Exactly the dropped keys are forgotten |
| AlertService.FlushHeartbeats | internal/alert/service_eval.go:165-184 | Only firing states whose heartbeat is due change: renewed, or dropped if their event is gone |
| AlertService.Service.WriteCloses | internal/alert/service_eval.go:77-112 | Each closing key becomes what its own outcome says: kept, dropped, or a cooldown after a cleared condition; other keys are untouched |
| AlertService.Service.WriteOpens | internal/alert/service_eval.go:113-150 | Exactly the opens the store gave an event fire, with that event; the others stay as evaluated |
| AlertService.Service.WriteTransitions | internal/alert/service_eval.go:75-152 | Whatever the store answers, nothing becomes pending, and what opened still fires after the heartbeats |
| AlertService.Service.ProcessServer | internal/alert/service_eval.go:50-155 | One turn with edits interleaved keeps every pending state backed, and every alert it opened is justified by the history |
| ProjectionGate.Gate.MutateEnter | internal/store/frontprojection/gate.go:24-30 | A mutation enters only when nothing is being published |
| ProjectionGate.Gate.MutateExit | internal/store/frontprojection/gate.go:32-40 | The version counts the mutations that ended |
| ProjectionGate.Gate.Version | internal/store/frontprojection/gate.go:46-53 | The version returned is the number of mutations ever begun, none of them running |
| ProjectionGate.Gate.PublishEnter | internal/store/frontprojection/gate.go:57-65 | Admitted exactly if no mutation is active and the version is current; then none began since it was read |
| ProjectionGate.Gate.Others | internal/store/frontprojection/gate.go:24-78 | Any steps of other threads keep mutations and publications apart, and let none in while I publish |
| ProjectionGate.Gate.Publish | internal/store/frontprojection/gate.go:57-78 | If it runs, no mutation began, ran or ended since the version was read, and the snapshot is the database throughout |
| ProjectionGate.Gate.RebuildSnapshot | internal/store/frontcache/front_cache.go:43-77 | If it reports a publication, there was a moment in the call when no mutation ran and the published projection was the database; what it returns is that projection or what the cache holds at the end, after any interleaving and number of attempts |
| SessionHub.Hub.OneLiveSession | internal/nodesession/hub.go:62-77 | Two live sessions of one node are the same session, and a closed hub has none |
| SessionHub.Hub.Open | internal/nodesession/hub.go:62-77 | The new session replaces and cancels every other of its node; a closed hub cancels it at once |
| SessionHub.Hub.Remove | internal/nodesession/hub.go:78-85 | The session ends, and its entry goes only if it is still its own |
| SessionHub.Hub.Close | internal/nodesession/hub.go:86-94 | Every session is cancelled and no entry remains |
| SessionHub.Hub.Current | internal/nodesession/hub.go:95-108 | Returns only the session that was the node's live one at the lookup; other goroutines run while it authenticates, and one that does not is removed |
| SessionHub.Hub.Complete | internal/nodesession/hub.go:118-128 | A reply reaches the channel of its own pending request only, and is dropped if one is there |
| SessionHub.Hub.Send | internal/nodesession/hub.go:122-127 | A reply to a full or abandoned channel is lost without blocking |
| SessionHub.Hub.Begin | internal/nodesession/hub.go:141-150 | A request gets a fresh number, or is refused when 32 wait |
| SessionHub.Hub.Others | internal/nodesession/hub.go:62-175 | Any steps of other goroutines keep the invariant and leave my request and its replies alone |
| SessionHub.Hub.Await | internal/nodesession/hub.go:150-175 | An answer is the first reply completed for the request; offline only if the session has ended, busy only if its queue is full; any ready case may win |
| SessionHub.Hub.History | internal/nodesession/hub.go:129-175 | An answer is the first reply completed for a number handed out by this query, which no session waits for any more |
| FrontView.SplitIsLossless | internal/store/frontcache/front_projection.go:65-91 | For any server with an id and report with a receive time, the four payloads recombine to the view with blank root file-system types filled in, and to the view itself exactly if no mount has one to fill |
| FrontView.TemperatureDevicesOfNormal | internal/metrics/normalize.go:3-24 | The disks with a temperature are the same before and after normalisation |
| FrontView.NamesAreEligible | internal/metrics/smart_device.go:13-34 | The listed names are distinct and are exactly those of physical disks with a valid temperature |
| FrontView.SmartTemperatureDeviceNames | internal/metrics/smart_device.go:13-34 | The loop with its seen set lists each eligible name once, in order of first appearance |
| FrontView.NormalizeDiskSmart | internal/metrics/normalize.go:3-24 | Impossible temperatures are dropped, every disk is kept |
| FrontView.ComposeFrontNode | internal/store/frontcache/front_projection.go:132-157 | The field by field composition and its mount loop give the specified view |
| FrontView.SmartReturns | internal/store/frontcache/front_runtime.go:86-95 | SMART data and its temperature devices come back from their payload |
| FrontCache.SampleComesFrom | internal/store/frontcache/front_snapshot_backend.go:435-471 | An id has a sample, with its SMART and thermal data, exactly if some put, or a rebuild that found none, gave it one that nothing superseded, and it is that one |
| FrontCache.FrontSnapshotPayloads | internal/store/frontcache/front_snapshot_backend.go:533-565 | Succeeds exactly for valid, distinct ids with their own metadata, and then holds each node's payloads |
| FrontCache.RebuildReflects | internal/store/frontcache/front_snapshot_backend.go:435-471 | After a rebuild the maps still hold what the history says: samples that were there, fallbacks for the rest, exactly its ids and their metadata |
| FrontCache.PutReflects | internal/store/frontcache/front_snapshot_backend.go:315-345 | After a put the maps still hold what the history says: one sample with its SMART and thermal data changed, no membership |
| FrontCache.MemCache.FetchSnapshotCache | internal/store/frontcache/front_snapshot_backend.go:168-205 | Misses exactly without a valid catalog, is corrupt exactly if a published id lost its metadata, else returns one view for each published id from its latest sample and metadata |
| FrontCache.MemCache.LoadSnapshot | internal/store/frontcache/front_snapshot_backend.go:37-46 | Returns views exactly if the catalog is valid and whole, and clears a corrupt one |
| FrontCache.MemCache.PutSample | internal/store/frontcache/front_snapshot_backend.go:315-345 | Stores the sample with its SMART and thermal data or removes theirs, and nothing else; a sample that cannot be encoded changes nothing |
| FrontCache.MemCache.PutNodeRuntime | internal/store/frontcache/front_snapshot_backend.go:61-87 | With other users in between: the catalog is invalidated only for an id that was no member when looked up and that this put was first to note, and a put that fails forgets the note |
| FrontCache.MemCache.RemoveNodeMetadata | internal/store/frontcache/front_snapshot_backend.go:380-388 | Recorded as the one way to lose metadata of a published id |
| FrontCache.MemCache.RemoveNodeSnapshot | internal/store/frontcache/front_snapshot_backend.go:397-413 | The id has no sample and no membership any more, and the catalog is invalid |
| FrontCache.MemCache.ClearFrontMeta | internal/store/frontcache/front_snapshot_backend.go:579-584 | The catalog is invalid until the next rebuild |
| FrontCache.MemCache.ReplaceSnapshot | internal/store/frontcache/front_snapshot_backend.go:435-471 | Publishes exactly the given ids with their metadata; samples, SMART and thermal data that were there stay; an invalid list changes nothing |
| FrontCache.MemCache.FetchedViewIsWhole | internal/store/frontcache/front_runtime.go:127-139 | Over every history of the cache: if the last sample of an id was put from a report of its server, and its metadata is that server's, a fetch returns the view built from that report, up to a blank root file-system type |

## Left out

- The manual service manager: the start guard exists only for systemd, so service properties are stated for systemd.
- Download, archives, hashing, `/proc` and systemctl output: stops, starts and migrations are effects with three outcomes.
- Path validation of transactions, job status files and progress reports: a report is a step that may fail and changes nothing.
- Encryption and decryption of channel configuration, SMTP, Telegram, webhook and gRPC calls.
- Columns that nothing above decides on: channel health, event values and timestamps, task attempts and their order of execution; any pending task may be picked.
- Foreign keys of the outbox: rows of unknown channels are allowed, too.
- 32-bit and 64-bit overflow of attempt counters, generations, gate versions and request numbers.
- Sub-second times and NaN in the alert runtime; a rule always has the compiled snapshot that opening an event needs.
- Marking servers dirty and enqueueing targets after a control task.
- The Redis backend, guest visibility, and the database projection's queries.
- JSON encoding: payloads are stored as values, so a stored payload is never undecodable.
- FrontView: mounts, disk and network traffic, RAID, pressure, tags, search text and sensor normalisation enter the view through parameters, because splitting is lossless whatever they are.
- ThemeCss: lower case and case folding follow Unicode only as far as an ASCII name can tell.
- ProjectionGate.Gate.RebuildSnapshot: reads the database in one step, because a read spread over several is only published if no mutation ran meanwhile.
