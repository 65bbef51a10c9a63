# A Dafny model of the automation's protocols and transformations

The repository keeps a small fleet of accounts running: it updates releases, moves scheduled jobs
between two schedulers, files documents in Drive, copies configuration, and tells the owner when
something is wrong. This project models the parts of it that must hold over unbounded runs, and proves
what they are for. External commands are demonic: unless a contract says otherwise, a command may fail,
may take effect and still report a failure, and may answer anything. Files, pointers and account states
are fields of classes; where a claim is about every intermediate state, a ghost trace or log records
every one of them, and a crash is an early return.

`dafny verify dfyconfig.toml` checks everything.

| modules | component |
|---|---|
| `SystemdCalendar`, `CronReference`, `CronSchedule`, `CronAcceptance`, `CronMeaning`, `CronTheorems`, `CronInterval` | the cron to `OnCalendar=` compiler, string to string, against the crontab page of POSIX.1-2017 and the CALENDAR EVENTS section of systemd.time(7) |
| `MigrationModel`, `MigrationNames`, `MigrationSteps`, `MigrationSafety`, `MigrationPlan`, `MigrationTheorems`, `MigrationFixpoint`, `MigrationPlanner`, `MigrationBuild`, `MigrationApply`, `MigrationRetries`, `MigrationStopped` | the Drive migration: the planner's loops against a declarative plan, the executor's requests, conservation, fixpoint, retries |
| `ReleaseUpdate`, `Reconcile` | the release transaction and the reconciler's notices |
| `TimerHandover`, `AlertMachine` | the hand-over between Hermes cron and systemd, and the runner's alerts |
| `Lines`, `ModelSync`, `ModelSyncLaws`, `ModelSyncTheorems`, `ModelSyncOutside` | the configuration block editor, as a lens |
| `FolderStore`, `FolderCache` | the folder-id cache against the walk without one |
| `ReferenceWalk`, `ReferenceReach` | the bounded tree walk against a recursive unfolding and against reachability |
| `Timestamp`, `Attestation` | the signed attestation, printed and parsed |
| `Removal`, `RemovalRuns` | backup before delete, across crashes and retries |
| `SummaryLedger` | the exactly-once daily summary |
| `Text`, `Calendar`, `Sorting`, `DriveNames` | Python's string, date and sorting primitives with their laws; Drive ids |

## What turned out not to hold, and when exactly it does

- A weekday range that starts at 0 is accepted and emitted as `Sun..X`, which systemd refuses (`0-1` to `0-6`)
  or takes for Sunday alone (`0-7`). `MeaningPreserved` proves that the emitted expression means what the
  schedule means, over all moments that the calendar has, if and only if the weekday field has no such range, or
  only a `0-7` beside tokens that name Monday to Saturday anyway; `SundayRangeIsLost` and `WholeWeekIsLost`
  are schedules that lose a start on a day of 2026.
- `revert` undoes `converge` if and only if the job was absent, active, or paused with a marker that does not
  name it (`RevertUndoes`): a marker left from an earlier hand-over makes `revert` resume a job that the owner
  had paused (`StaleMarkerResumes`), and a job in any other state comes back as active (`CompletedResumes`).
- Exit code 4 of `converge` says that nothing changed. That holds if and only if the first listing was
  unreadable or the pause did not take (`PauseHermes`, `Converge`); in `PausedBehindTheMessage` an active job ends up
  paused behind that message.
- After a copy the two configurations are in sync if and only if the target had no copied key that the source
  lacks (`ApplySyncs`): such a block is never removed, so the target stays out of sync for ever (`NeverInSync`).
- A printed attestation is read back if and only if its payload is canonical, which includes a year of four
  digits (`RoundTrip`, `ParsedIsPrinted`; `EarlyYearIsLost` is the year 999). The model prints `%Y` as CPython does where
  it hands the format to the GNU C library, without padding; where `%Y` is padded, every year of the range is read back.
- A removal that crashes in the middle of a directory is not completed by retrying. With working commands a call
  completes if and only if, on a new head, the jobs are those expected, and on a head with an export, no unknown job
  is there and, once its backup is saved, every selected path is whole or gone (`FirstPass`, `Retry`). After the
  crash the jobs are gone and the path is torn, so no calls under any heads retire the account, as long as every
  exported head has a backup of the whole path (`StuckUnderAnyHead`, `CrashThenRetry`; `StuckForever` at one home). Nothing is
  lost: every deleted entry is in the archive.
- A job removed after retirement is on record if and only if another head's late folder lists it or it is listed
  again: a pass writes over the listing of its own head (`OnRecordExactly`, `RecordIsLost`). With a new head for every pass
  all of them stay on record (`ServeLate`).
- The owner hears of a failed release once, plus once for each crash that falls between a delivered notice and the
  saving of that fact (`ServeSuppressed`; `ToldTwice` is a run with two deliveries).
- A migration that is stopped and run again files every dated winner, but the new name is missing for exactly the
  files that were moved and not renamed when it stopped: the second plan no longer sees them (`SecondRun`;
  `NameIsLost` is an account, a stopping point and a complete second run).
- A ledger row with U+0085, U+2028 or U+2029 in a value stops the ledger for good: `json.dumps` writes these
  characters as they are and `str.splitlines` cuts at them (`CutStopsAll`, `OneCutRow`).
- A recovery notice that the sender does not take is sent once more by the next tick; if production is still caught
  up then, the machine is clean whatever the answer, and the notice is gone (`RecoveryAgain`). A rolled-back release is told as
  recovered even before its own notice was due (`RecoversFromRollback`).
- A summary goes out only if every pending `written_at` parses and all of them have a zone or none has
  (`Summarize`); pending rows that fail this stop every later summary (`UndatedStopsSummaries`, `OneUndatedRow`).

## Model

| member | source | states |
|---|---|---|
| `CronSchedule.Field` | automation/cron_schedule.py:39-59 | the token loop converts every token or refuses the field |
| `CronSchedule.Weekdays` | automation/cron_schedule.py:62-78 | the weekday loop converts every token or refuses the field |
| `CronSchedule.OnCalendar` | automation/cron_schedule.py:81-106 | the whole compiler computes `CalendarText`, about which the theorems below speak; what it accepts is `Accepted` |
| `CronAcceptance.TokenAccepted` | automation/cron_schedule.py:39-59 | a token is accepted if and only if it is a numeral in bounds, `a-b` with a <= b in bounds, or `*/n` or `a/n` with a plain numeral in bounds and 1 <= n <= high + 1, said by decomposing its text |
| `CronAcceptance.WeekdayAccepted` | automation/cron_schedule.py:62-78 | the same for weekdays: a numeral from 0 to 7 or a range of them |
| `CronAcceptance.FieldsAccepted` | automation/cron_schedule.py:97-106 | five fields are accepted if and only if each has its form and not both day fields are set |
| `CronAcceptance.Accepted` | automation/cron_schedule.py:81-106 | for every schedule and zone: accepted if and only if the zone is none or well formed and the words are five fields in form or an interval that divides evenly |
| `CronAcceptance.EveryFive` | automation/cron_schedule.py:39-59 | what `*/5 * * * *` becomes |
| `CronMeaning.TokenMeaning` | automation/cron_schedule.py:44-58 | an accepted token's output, parsed as systemd does, matches exactly the values that the cron token names: value, range, step |
| `CronMeaning.FieldMeaning` | automation/cron_schedule.py:39-59 | the same for a whole list of tokens and `*` |
| `CronMeaning.FieldReadBack` | automation/cron_schedule.py:39-59 | an emitted list splits back into exactly the converted tokens |
| `CronMeaning.WeekdayFieldMeaning` | automation/cron_schedule.py:62-78 | when the emitted weekday list is valid, and which days it then names, set against cron's days with 0 and 7 both Sunday |
| `CronTheorems.FiveFieldMeaning` | automation/cron_schedule.py:97-106 | the emitted text, cut and parsed as systemd does, elapses exactly at second 0 of the moments that match all fields |
| `CronTheorems.MeaningPreserved` | automation/cron_schedule.py:81-106 | for every accepted five-field schedule and zone: over all moments that the calendar has, the emitted expression elapses exactly when cron starts, with cron's day OR rule, if and only if the weekday field is faithful |
| `CronTheorems.Mismatch` | automation/cron_schedule.py:62-78 | every unfaithful weekday field loses a start on a real day of 2026 |
| `CronTheorems.SundayRangeIsLost` | automation/cron_schedule.py:70-77 | a concrete accepted schedule with `0-5` that loses a start on a real day |
| `CronTheorems.WholeWeekIsLost` | automation/cron_schedule.py:70-77 | a concrete accepted schedule with `0-7` that loses a start on a real day |
| `CronInterval.EveryRefusal` | automation/cron_schedule.py:87-91 | an interval is refused if and only if it does not divide 60, or 24 for hours |
| `CronInterval.EveryMeaning` | automation/cron_schedule.py:92-96 | an `every N` expression elapses at exactly the multiples of N units on an unbounded timeline of seconds |
| `CronInterval.EverySpacing` | automation/cron_schedule.py:86-96 | after an elapse the next one is exactly N units later, across minute, hour and day boundaries |
| `MigrationPlanner.Children` | automation/drive_migrate_outputs.py:133-139 | exactly the untrashed, named rows of a folder, in dictionary order of name and then id |
| `MigrationPlanner.ScanMonth` | automation/drive_migrate_outputs.py:211-221 | exactly the files of a month folder with their path, and a skip for each folder in it; blocked if and only if it holds a folder |
| `MigrationPlanner.ScanLegacy` | automation/drive_migrate_outputs.py:199-227 | exactly the files under one legacy folder, the folders of it that are not blocked, and the skips for what blocks |
| `MigrationPlanner.LegacyEntries` | automation/drive_migrate_outputs.py:191-233 | exactly the legacy files, the removable folders and the skips of the whole listing |
| `MigrationPlanner.ListingByIndex` | automation/drive_migrate_outputs.py:191-233 | what the loops listed is what the account declaratively holds, item by item, with its source path |
| `MigrationPlanner.SkipsByIndex` | automation/drive_migrate_outputs.py:206-218 | the skips are exactly those of unknown and of too deep folders |
| `MigrationPlanner.GroupByName` | automation/drive_migrate_outputs.py:244-246 | the groups partition the files by normalized name |
| `MigrationPlanner.Newest` | automation/drive_migrate_outputs.py:248-248 | an entry such that none was modified after it, nor at the same time with a greater id, in dictionary order |
| `MigrationModel.LeIs` | automation/drive_migrate_outputs.py:248-248 | the recursive comparison of texts is equality or the dictionary order: a proper prefix, or the smaller character at the first difference |
| `MigrationTheorems.WinnerIsNewest` | automation/drive_migrate_outputs.py:242-252 | a legacy file wins if and only if no other of its name was modified after it, or at the same time with a greater id |
| `MigrationTheorems.NewestStays` | automation/drive_migrate_outputs.py:242-252 | three concrete files of one name: every plan trashes the two that are older by time or by id, and not the third |
| `MigrationNames.DateFromName` | automation/drive_migrate_outputs.py:142-160 | the leftmost date-like run of the name decides, whether it is a date of the calendar or not |
| `MigrationNames.DateFromCreation` | automation/drive_migrate_outputs.py:142-160 | without such a run the day of creation counts |
| `MigrationNames.NamedOnce` | automation/drive_migrate_outputs.py:163-166 | a new name starts with the date, ends as the old one, and is not dated again |
| `MigrationNames.ReportOfJanuary` | automation/drive_migrate_outputs.py:262-264 | folder and name of one weekly report |
| `MigrationPlanner.PickWinners` | automation/drive_migrate_outputs.py:242-252 | the winners are exactly the newest file of each name, the duplicates exactly all others |
| `MigrationBuild.DateWinners` | automation/drive_migrate_outputs.py:254-271 | a move for exactly the dated winners, a skip and an invalid parent for exactly the undated ones |
| `MigrationBuild.KeepEmptied` | automation/drive_migrate_outputs.py:273-291 | exactly the candidate folders without an undated file below them |
| `MigrationBuild.TaintedIs` | automation/drive_migrate_outputs.py:273-291 | the filter by path text finds exactly the folders that hold an undated winner |
| `MigrationBuild.FilesInOrder` | automation/drive_migrate_outputs.py:330-333 | on a plan in order, the executor's sort of the files changes nothing |
| `MigrationBuild.FoldersInOrder` | automation/drive_migrate_outputs.py:359-362 | on a plan in order, the executor's sort of the folders puts the months before the roots, each as they stand |
| `MigrationBuild.BuildPlan` | automation/drive_migrate_outputs.py:236-326 | the loops produce the plan that the account calls for: exactly the dated winners move, exactly the older copies and the emptied folders are trashed, exactly the undated winners and the folders in the way are reported; all three lists are sorted |
| `MigrationBuild.PlanRises` | automation/drive_migrate_outputs.py:317-326 | in a sorted plan no move or trash comes before one with a smaller id, and no skip before one with a smaller target, in dictionary order |
| `MigrationApply.Account.TrashAll` | automation/drive_migrate_outputs.py:330-337 | wherever it stops, a prefix of the requests took effect |
| `MigrationApply.Account.MoveOne` | automation/drive_migrate_outputs.py:339-346 | folders, then the move, then the rename, stopping at the first failure |
| `MigrationApply.Account.MoveAll` | automation/drive_migrate_outputs.py:339-357 | the same for all moves in order |
| `MigrationApply.Account.ApplyPlan` | automation/drive_migrate_outputs.py:329-366 | duplicates, moves, month folders, legacy roots: a prefix of these requests took effect, all of them on success |
| `MigrationApply.Migrate` | automation/drive_migrate_outputs.py:236-366 | plan and apply with requests that may fail anywhere: conservation always, the finished account and an empty second plan on success |
| `MigrationSteps.TrashLeaf` | automation/drive_migrate_outputs.py:359-366 | trashing takes the whole subtree; it takes one item only when all that the item holds is in the trash already |
| `MigrationSafety.DiscardFolder` | automation/drive_migrate_outputs.py:359-366 | when a folder is trashed, everything that was in it has been moved or trashed |
| `MigrationTheorems.OneFate` | automation/drive_migrate_outputs.py:236-326 | every legacy file has exactly one fate in the plan: moved, trashed as an older copy, or left and reported |
| `MigrationTheorems.AtEveryMoment` | automation/drive_migrate_outputs.py:329-366 | the migration invariant holds after every prefix of the requests |
| `MigrationTheorems.Conservation` | automation/drive_migrate_outputs.py:329-366 | after every prefix no winner is in the trash, only older copies and emptied folders went, and every other item is exactly as it was |
| `MigrationFixpoint.CompleteRun` | automation/drive_migrate_outputs.py:329-366 | a complete run files and renames every dated winner and trashes every duplicate and every emptied folder |
| `MigrationFixpoint.OneCopy` | automation/drive_migrate_outputs.py:242-252 | after a complete run exactly one file of each name is out of the trash, filed under kind and year, or untouched if undated |
| `MigrationFixpoint.Fixpoint` | automation/drive_migrate_outputs.py:236-366 | planning on the account that a complete run left finds nothing to move and nothing to trash |
| `MigrationRetries.NoWinnerIsEverTrashed` | automation/drive_migrate_outputs.py:236-366 | over any number of attempts, each planning anew and each stopped anywhere, no winner of the original account is trashed |
| `MigrationRetries.SecondRun` | automation/drive_migrate_outputs.py:339-346 | after a stopped run and a complete one every dated winner is in the outputs tree, and renamed if and only if it was renamed or still unmoved in between |
| `MigrationStopped.NameIsLost` | automation/drive_migrate_outputs.py:339-346 | a concrete account, a run stopped after the move, a complete second run, and the file under its old name |
| `ReleaseUpdate.Updater.DeliverOnce` | automation/release_rollback.py:188-191 | a notice that was sent is never sent again; an unsent one is tried once |
| `ReleaseUpdate.Updater.RestorePointer` | automation/release_rollback.py:196-201 | the rollback helper runs only on the failed release; a pointer elsewhere is left alone |
| `ReleaseUpdate.Updater.RecoverGateways` | automation/release_rollback.py:202-209 | recovered if and only if restarted and then healthy, or if the gateways are to stay stopped, which then sees no command |
| `ReleaseUpdate.Updater.TellAndSave` | automation/release_rollback.py:215-217 | the notice is delivered at most once for each record of it, but for a crash between the two |
| `ReleaseUpdate.Updater.Rollback` | automation/release_rollback.py:194-217 | whatever crash comes, the fingerprint stays on disk; it settles only from a pointer it knows and with the gateways back; with working helpers the prior release is back; without a crash the notice flag is the old one or the answer to the notice |
| `ReleaseUpdate.Updater.ResumeOrBlock` | automation/release_rollback.py:220-226 | a known-bad release is blocked without touching the pointer |
| `ReleaseUpdate.Updater.Settle` | automation/release_rollback.py:229-253 | afterwards no rollback is due that cannot be made, a stranded fingerprint never blocks another target, and the named target is suppressed exactly as before |
| `ReleaseUpdate.Updater.Probe` | automation/release_rollback.py:276-289 | passes if and only if the gateways were restarted, unless stopped, and the smoke test then succeeded; the reason names what failed |
| `ReleaseUpdate.Updater.Validate` | automation/release_rollback.py:276-297 | success leaves no fingerprint and the pointer on the target; failure leaves a fingerprint of target, prior and the step that failed, and the notices since are told from its flag, which is the answer to the one notice unless the process died |
| `ReleaseUpdate.Updater.ApplyReleaseUpdate` | automation/release_rollback.py:256-297 | converges if and only if the release is not known to be bad, no rollback is due and the pointer is where the caller saw it; a refusal of the converger is passed on, a pointer elsewhere answers 1 or, before converging, lock contention; 0 if and only if validation passed, then with the pointer on the target, the smoke test run right after converging and no fingerprint; a failed validation is marked and told as in `Validate`; a corrupt fingerprint stops everything |
| `ReleaseUpdate.Serve` | automation/release_rollback.py:194-297 | over every run with any answers, crashes after the fingerprint write and any outside moves: no converging for the stored failed release, no rolling back of another one, no notice for a record that says sent |
| `ReleaseUpdate.ServeSuppressed` | automation/release_rollback.py:241-268 | while every call names the failed release none converges, across crashes; the record stays; the deliveries are exactly the change of its notice flag plus the crashes that lost a record |
| `ReleaseUpdate.ToldTwice` | automation/release_rollback.py:220-226 | a concrete run in which one failed release is told twice |
| `ReleaseUpdate.FailThenServe` | automation/release_rollback.py:276-297 | counted from the call whose validation failed, over any later calls that name the release: no converging, and deliveries are the saved notice flag plus the crashes that lost a record; exactly one when no process dies and the first notice goes out |
| `ReleaseUpdate.AtMostTwoCalls` | automation/release_rollback.py:194-297 | with working helpers, from any readable fingerprint, phase and pointer, another release is converged by the second call |
| `Reconcile.QuietRun` | automation/deploy_reconcile.py:234-288 | before anything is due the machine only counts hard failures and keeps the start of the drift |
| `Reconcile.ToldRun` | automation/deploy_reconcile.py:205-301 | after the first due tick the state is the told one, with the notice queued until delivered |
| `Reconcile.OneNotice` | automation/deploy_reconcile.py:199-301 | what every tick sends: nothing before 3 hard failures or 600 seconds, the notice composed at the first due tick, that same notice until one sending succeeds, nothing after |
| `Reconcile.NoNotice` | automation/deploy_reconcile.py:281-288 | a run in which nothing is due sends nothing |
| `Reconcile.DeliveredOnce` | automation/deploy_reconcile.py:205-301 | the deliveries of any prefix of the run are one from the first success on and none before |
| `Reconcile.OnlyDrift` | automation/deploy_reconcile.py:276-284 | with only codes 0 and 5, a tick is due exactly by ten minutes of drift |
| `Reconcile.Recovers` | automation/deploy_reconcile.py:210-232 | catching up after a due incident tries its open notice once more and sends the recovery; the state is clean when the sender takes it, else the recovery is queued in place of the notice |
| `Reconcile.RecoveryAgain` | automation/deploy_reconcile.py:205-232 | a recovery that was not taken is the first thing that the next tick sends; if that tick finds production caught up, the state is clean whatever the answer |
| `Reconcile.RecoversInSilence` | automation/deploy_reconcile.py:210-232 | catching up before anything was due is silent and clean |
| `Reconcile.RollbackRun` | automation/deploy_reconcile.py:237-265 | the state after any number of ticks that find the release rolled back |
| `Reconcile.OneRollbackNotice` | automation/deploy_reconcile.py:237-265 | what each such tick sends: nothing before the third, which composes one notice under a key of its own, and that same notice until it is taken |
| `Reconcile.CountsAnew` | automation/deploy_reconcile.py:267-284 | after a rollback, other failures are counted and timed from then on |
| `Reconcile.RecoversFromRollback` | automation/deploy_reconcile.py:210-215 | catching up with a rolled-back release is always told |
| `TimerHandover.Node.PauseHermes` | automation/cron_timer.py:186-198 | succeeds if and only if the first listing is readable, the name is not doubled, and a job that is not paused is paused and read back; the marker names a job that was not paused before; when code 4 is answered, and that a failure changed nothing if and only if the first listing failed, the name is doubled or the pause did not take |
| `TimerHandover.Node.Start` | automation/cron_timer.py:223-229 | both unit files are written and read by systemd; success if and only if reloading and enabling answer 0 and the timer is then seen enabled and active, else code 5 |
| `TimerHandover.Node.Converge` | automation/cron_timer.py:201-232 | exclusion at every step; success if and only if the job is well formed and deployed or released-off, the lock is free, the job is paused and the timer is switched; the whole state after success, released-off or not; what counts as changed; a repeat writes nothing; when 2 and 6 are answered; refusals 2, 6 and 7 change nothing, and 4 exactly when the pause did not take |
| `TimerHandover.Node.Revert` | automation/cron_timer.py:235-257 | exclusion at every step; success if and only if the lock is free, the timer is seen not active, the listing is readable with one job at most, and a job that the marker names comes back; the whole state and the answer after success; resumes exactly the job that the marker names |
| `TimerHandover.Node.Check` | automation/cron_timer.py:260-288 | the verdict as a function of the state and of whether the listing is readable |
| `TimerHandover.Serve` | automation/cron_timer.py:150-257 | in no state between any two commands of any sequence of calls is the job live in both schedulers |
| `TimerHandover.ConvergedIsFine` | automation/cron_timer.py:260-288 | a successful `converge`, from any state, is fine by `check` and exclusive |
| `TimerHandover.FineIsFixed` | automation/cron_timer.py:201-288 | `check` says ok before a successful `converge` if and only if that changes nothing |
| `TimerHandover.RevertUndoes` | automation/cron_timer.py:186-257 | after any positive number of `converge` calls, `revert` restores the job if and only if its state was restorable; the timer is inactive in any case |
| `TimerHandover.ThereAndBack` | automation/cron_timer.py:186-257 | the same for the methods themselves; with working commands every call succeeds if and only if the name is not doubled |
| `TimerHandover.StaleMarkerResumes` | automation/cron_timer.py:244-250 | a concrete job that the owner had paused and `revert` resumes |
| `TimerHandover.CompletedResumes` | automation/cron_timer.py:190-197 | a concrete job that had completed and comes back as active |
| `TimerHandover.PausedBehindTheMessage` | automation/cron_timer.py:190-192 | a concrete job that was active and is paused while code 4 says that nothing changed |
| `AlertMachine.AlertFile.Deliver` | automation/cron_timer_run.py:237-277 | the saved state is that of the episode, so it always has a send time; what is posted, and when, told from the episode alone; the first run and a change of kind alert at once; a clean run after trouble reports the recorded runs; a failed sending leaves the file alone |
| `AlertMachine.AlertTextIs` | automation/cron_timer_run.py:202-222 | the text depends on the saved state exactly as the episode prescribes, to the whole second |
| `AlertMachine.NextStateIs` | automation/cron_timer_run.py:225-234 | the next saved state is that of the longer episode |
| `AlertMachine.SixHoursApart` | automation/cron_timer_run.py:213-219 | consecutive alerts of one kind in an episode are at least 21600 whole seconds apart |
| `AlertMachine.NeverSilentForLong` | automation/cron_timer_run.py:218-222 | trouble that goes on is alerted again within the interval |
| `AlertMachine.Serve` | automation/cron_timer_run.py:237-280 | over every run of deliveries, whichever fail, the lines that went out: lines on one kind of trouble that follow each other are six hours apart, a recovery line follows a line on trouble, and the last line is the one that the episode remembers |
| `ModelSync.Spans` | automation/model_sync.py:68-81 | the loop finds for every key the span of its last opening line, trimmed of loose lines |
| `ModelSync.ReadBlocks` | automation/model_sync.py:84-90 | the copied keys that are present, with the text of their blocks |
| `ModelSync.ReplaceBlocks` | automation/model_sync.py:93-104 | the loop computes `Replaced`, about which the laws below speak |
| `ModelSyncLaws.PutGet` | automation/model_sync.py:93-104 | a block that was put is read back |
| `ModelSyncLaws.GetPut` | automation/model_sync.py:93-104 | putting back what was read changes nothing |
| `ModelSyncLaws.PutOther` | automation/model_sync.py:93-104 | a put leaves every other key's block as it was |
| `ModelSyncOutside.OutsidePut` | automation/model_sync.py:98-103 | a put leaves all lines outside both copied blocks as they were, plus one blank line when it appends |
| `ModelSyncOutside.OutsideUnchanged` | automation/model_sync.py:84-104 | for all source and target texts, the written text has outside both copied blocks exactly the target's lines in order, plus one blank line for each appended block |
| `ModelSyncTheorems.ReplacedBlock` | automation/model_sync.py:84-104 | what every top-level key of the written text holds, for all source and target texts |
| `ModelSyncTheorems.CopyDelivers` | automation/model_sync.py:84-104 | the wanted blocks arrive and the others stay |
| `ModelSyncTheorems.CopyIdempotent` | automation/model_sync.py:93-104 | applying twice equals applying once |
| `ModelSyncTheorems.ApplySyncs` | automation/model_sync.py:51-66 | in sync after an apply if and only if the target had no copied key that the source lacks |
| `ModelSyncTheorems.InSyncIs` | automation/model_sync.py:51-66 | two configurations are in sync if and only if for each copied key the lines that are not blank are the same in order, but for trailing blanks |
| `ModelSyncTheorems.SampleBlocks` | automation/model_sync.py:68-81 | the blocks of a small file with comments, blanks, list items and indented lines |
| `ModelSyncTheorems.NeverInSync` | automation/model_sync.py:51-66 | a concrete source and target that no apply gets in sync |
| `FolderCache.DropCachedPath` | automation/drive_client_cache.py:44-48 | exactly the key and its extensions go |
| `FolderCache.DropKeepsCache` | automation/drive_client_cache.py:44-48 | the cache stays prefix-closed, each entry's parent being its prefix's entry |
| `FolderCache.CachedIsFound` | automation/drive_client_cache.py:66-69 | a live cached entry is what a search in its parent would find |
| `FolderCache.TrashingKeepsCache` | automation/drive_client_cache.py:51-79 | others trashing subtrees never invalidate the cache |
| `FolderCache.Client.TrashOutside` | automation/drive_client_cache.py:51-79 | the same for the client between two calls |
| `FolderCache.Client.EnterFolder` | automation/drive_client_cache.py:63-76 | one segment is a step of the walk without a cache, whatever the cache held; no request exactly when the folder is cached and alive |
| `FolderCache.Client.EnsureFolderPath` | automation/drive_client_cache.py:51-79 | the cached walk is a find-or-create walk without a cache, on the same tree with the same result; it succeeds when requests do not fail, and asks for nothing if and only if every folder of the path is cached and alive; the tree keeps one live folder per name and parent; the saved cache then names the folder; a failure saves nothing |
| `FolderStore.WalkFinds` | automation/drive_client_cache.py:63-76 | a walk along folders that exist creates nothing and ends at them |
| `FolderStore.WalkOutcome` | automation/drive_client_cache.py:63-76 | a walk keeps the tree valid and ends at a live folder that the path resolves to |
| `ReferenceWalk.ListFolder` | automation/drive_reference.py:164-187 | one folder's rows go to the files found or to the queue, nothing lost, or listing stopped at the first file beyond the limit |
| `ReferenceWalk.Walk` | automation/drive_reference.py:145-188 | terminates on any graph; returns exactly the first files, up to the limit, of the first folders, up to the limit, in breadth-first order; the file limit is noted if and only if there are more files, the folder limit if and only if there are not and there are more folders, the depth limit if and only if a folder too deep comes before the end |
| `ReferenceWalk.ReportedWhole` | automation/drive_reference.py:145-188 | what is returned is no more than the recursive unfolding of the name-ordered graph; silent if and only if the graph is within all three limits, and then complete |
| `ReferenceWalk.InOrderRises` | automation/drive_reference.py:164-164 | no row's stored name comes before that of an earlier row |
| `ReferenceReach.WalkReaches` | automation/drive_reference.py:145-188 | on the account's own listing: every returned file is reachable through named folders within the depth; a silent walk returns exactly the files reachable at any depth; on a tree no id is returned twice |
| `ReferenceReach.LeadsInOrder` | automation/drive_reference.py:164-164 | sorting the listings changes nothing about what is reachable |
| `ReferenceReach.SilentWalkIsComplete` | automation/drive_reference.py:158-188 | the unfolding of a shallow graph holds exactly the files that chains of named folders lead to |
| `ReferenceReach.TreeDistinct` | automation/drive_reference.py:158-188 | the unfolding of a tree holds every file id once |
| `Timestamp.StampReads` | automation/peer_signed_attestation.py:79-82 | a printed moment is read back if and only if its year has four digits |
| `Timestamp.ReadStamps` | automation/peer_signed_attestation.py:152-158 | a moment that was read prints as it was if and only if its year has four digits |
| `Attestation.PrintedIsParsed` | automation/peer_signed_attestation.py:85-96 | a printed canonical record parses into the same payload, preimage and signature |
| `Attestation.ParsedParts` | automation/peer_signed_attestation.py:148-175 | a parsed record is its preimage followed by its signature block, with a payload that is canonical from the year 1000 on |
| `Attestation.ParsedIsPrinted` | automation/peer_signed_attestation.py:148-175 | the parsed payload prints the preimage it came from if and only if its year has four digits |
| `Attestation.RoundTrip` | automation/peer_signed_attestation.py:140-175 | formatting then parsing is the identity if and only if the payload is canonical and the signature well formed |
| `Attestation.EarlyYearIsLost` | automation/peer_signed_attestation.py:79-82 | a concrete payload of the year 999, canonical in all else, that is not read back |
| `Attestation.PreimageInjective` | automation/peer_signed_attestation.py:85-96 | distinct canonical payloads have distinct preimages |
| `Attestation.AcceptedWasSigned` | automation/peer_signed_attestation.py:178-199 | an accepted record carries a signed payload with the expected nonce, skill, digest, verdict, channel, message and time |
| `Attestation.AcceptedForOne` | automation/peer_signed_attestation.py:178-199 | one signed payload is accepted for one nonce, skill, digest, channel and message only |
| `Attestation.PrintedIsAccepted` | automation/peer_signed_attestation.py:140-199 | the printed record of a canonical payload with a well-formed signature is accepted if and only if the payload passes and says what is expected, its time is within the request, now and the lifetime, and the signature verifies over its preimage |
| `Attestation.SampleLines` | automation/peer_signed_attestation.py:85-96 | the lines of one record |
| `Calendar.NextDay` | automation/peer_signed_attestation.py:178-199 | the days that times are compared by are numbered one by one |
| `Removal.Account.Export` | automation/p5_remove.py:99-129 | the export is saved once, is the current jobs when it is new, and covers them ever after; with working commands a new head is refused if and only if the jobs are not those expected |
| `Removal.Account.Backup` | automation/p5_backup.py:60-91 | the index is saved once, after an archive that reads back equal, and never again; with working commands it is always saved |
| `Removal.Account.StopUnits` | automation/p5_remove.py:138-153 | units are stopped only while the selected files are as backed up; success leaves every unit down, each seen so after the first was stopped; a working stop removes at most backed-up links |
| `Removal.Account.RemoveJobs` | automation/p5_remove.py:154-161 | every removed job is in the saved export, with the remaining files still as backed up; success leaves none |
| `Removal.Account.DeletePath` | automation/p5_remove.py:162-178 | leaf by leaf, each entry with its fingerprint in the verified archive; success leaves nothing below the path and all else alone; refused if and only if the path is there and is not what was backed up; a crash leaves it gone or torn |
| `Removal.Account.DeletePaths` | automation/p5_remove.py:162-178 | with working commands, success if and only if every selected path that is there is whole; a torn path is left as it is |
| `Removal.Account.FirstPass` | automation/p5_remove.py:99-186 | whatever stops it, all that went is covered and went only after every unit of the account was stopped and seen down in this pass, no saved backup changed, and the account retires only with no unit running, no entry below a selected path and no job left; with working commands it completes if and only if the jobs are those expected on a new head, or none is unknown and every selected path is whole or gone on a head with a backup; otherwise a torn path stays and no export is added |
| `Removal.Account.LatePass` | automation/p5_remove.py:75-98 | the jobs registered after retirement are listed in the head's late folder, over what it held, and only listed ones are removed |
| `RemovalRuns.Serve` | automation/p5_remove.py:72-186 | deletion safety over every sequence of calls with crashes, retries, new heads and outside changes; in every call, jobs and files go and the account retires only after its units were seen down in that call |
| `RemovalRuns.Retry` | automation/p5_remove.py:99-186 | with working commands and a home that nobody else touches, repeating a call retires the account if and only if the first call completes |
| `RemovalRuns.StuckUnderAnyHead` | automation/p5_remove.py:99-186 | with no job left and a path that no exported head's backup has as it is, no calls under any heads retire the account |
| `RemovalRuns.CrashThenRetry` | automation/p5_remove.py:162-178 | when a deletion crashes, what it leaves, and that after a crash inside a directory no calls under any heads retire the account |
| `RemovalRuns.StuckForever` | automation/p5_remove.py:165-169 | one concrete home: the file of a directory is deleted, the crash leaves the directory, and no calls retire the account |
| `RemovalRuns.OnRecordExactly` | automation/p5_remove.py:84-94 | after a late pass every late-removed job is on record if and only if each earlier one is listed under another head or listed again |
| `RemovalRuns.ServeLate` | automation/p5_remove.py:84-94 | with a new head for every pass all late-removed jobs stay on record, wherever passes stop |
| `RemovalRuns.RecordIsLost` | automation/p5_remove.py:84-94 | a concrete run of two passes under one head after which a removed job is on no record |
| `SummaryLedger.Ledger.Record` | automation/auto_write.py:90-107 | one row for each kind, source and revision; a known key or an unreadable ledger changes nothing |
| `SummaryLedger.Ledger.Summarize` | automation/auto_write_summary.py:15-44 | exactly when a summary goes out, including that its times parse and compare, that it takes all that is pending, and that otherwise nothing changes |
| `SummaryLedger.Serve` | automation/auto_write_summary.py:15-44 | over every interleaving: distinct keys, batches that concatenate to the ledger up to the watermark, one batch a day, none before 21:30, no recorded key lost |
| `SummaryLedger.SummarizedOnce` | automation/auto_write_summary.py:32-43 | no key is summarized twice |
| `SummaryLedger.InOneBatch` | automation/auto_write_summary.py:32-43 | every row below the watermark is in a batch, at its place |
| `SummaryLedger.CutStopsAll` | automation/auto_write.py:74-107 | after a row with a line-cutting character no call changes ledger, watermark, days or batches any more |
| `SummaryLedger.OneCutRow` | automation/auto_write.py:74-107 | the same for a new ledger and one concrete row |
| `SummaryLedger.NeverRenders` | automation/auto_write.py:114-114 | rows whose times do not parse or do not compare do not render with more rows either |
| `SummaryLedger.UndatedStopsSummaries` | automation/auto_write.py:110-114 | pending rows that cannot be rendered stop every later summary |
| `SummaryLedger.OneUndatedRow` | automation/auto_write.py:110-114 | the same for a new ledger and one concrete row |

## Left out

- MigrationBuild.BuildPlan: the patent folder is taken as not configured; names and ids that are empty are not in the account, and ISO week dates and non-ASCII digits in names are not read as dates.
- MigrationApply.Migrate: assumes unique ids, an outputs root that is no legacy name, the layout with a single outputs root, and no one else changing the account meanwhile; `verify_owner_only` only fails or not; the executor's folder lookups go without the cache.
- MigrationApply.Account.ApplyPlan: takes the trash orders as the plan has them; that the executor's own sorting gives the same order is `FilesInOrder` and `FoldersInOrder`.
- CronTheorems.MeaningPreserved: daylight-saving changes are not modelled; a zone is a suffix.
- CronMeaning.FieldMeaning: follows the text of systemd.time(7), which sets no bound on a repetition; systemd's parser also refuses a step that leaves the component's range from its first value (`*/60` minutes, `20/4` hours), and such accepted schedules are not told apart here.
- TimerHandover.Serve: `is-active` and the job listing are truthful when they answer; an `is-active` that prints nothing would be taken by `revert` for an inactive timer.
- TimerHandover.Node.Start: the text of the units is a parameter; `render` and the drift hash are formatting.
- ReleaseUpdate.Updater.ApplyReleaseUpdate: a fingerprint write that raises, and a crash between activation and the fingerprint write, are not modelled; restarting, health and smoke commands do not move the pointer.
- Reconcile.OneNotice: the release backlog and skip notices, and mixing rollback codes or changing targets while a notice is queued, are outside the claim; time is in whole seconds.
- FolderCache.Client.EnsureFolderPath: names contain no slash, and a liveness question is answered truthfully.
- ReferenceWalk.Walk: sizes, types and modification times of files are not carried along.
- Attestation.RoundTrip: moments are already in UTC; signing and verifying are a parameter.
- RemovalRuns.Serve: each saved file is written in one step, and no one else touches the backup folder; file modes, symlink ancestors and unit names only make a call refuse.
- AlertMachine.AlertFile.Deliver: how a run's output becomes a kind of trouble, and all wording, are not modelled.
- SummaryLedger.Serve: a crash between sending and saving, which would repeat a summary, is excluded; the text of the summary is not modelled, and which texts `datetime.fromisoformat` reads is a parameter.
- Release switches, deployment observers and plan renderers: each reads one flag or maps one row to one line, and no state outlives a call; approval and trust lifecycles are separate components with stores of their own.
- Discord, Drive, SSH, sudo, systemd and git themselves: only their answers are modelled.
