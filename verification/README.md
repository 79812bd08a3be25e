# Verified model of the dashboard's stateful core

This Dafny project models five parts of the homelab dashboard and proves what they are relied on for.
`dafny verify dfyconfig.toml` checks all of it.

* **Automation engine** (`packages/automations`, `packages/db/src/automation-runtime.ts`). Workers claim
  leases on rules, insert runs under a unique key, send an action and finish the run. `DispatchProtocol`
  is a state machine over the single statements of any number of workers, with crashes, expired leases,
  stale due lists and rules that are edited, disabled or deleted meanwhile; it proves that an occurrence
  is acted on at most once and is suppressed only by itself. `Debounce` proves what a pending status
  transition that fires must have behind it. `Triggers`, `Cron`, `Conditions`, `Evaluate` and `RunKeys`
  cover the languages the engine reads and the keys it writes; `RunLimited` is its pool of handlers.
  `AutomationStore` and `Scheduler` are the store and one worker as objects; `SchedulerMeaning` says what the
  handlers achieve, `DebouncedCalls` that their calls are runs of `Debounce`, and `DispatchRefinement` that they
  are executions of `DispatchProtocol`. `Weekdays` and `CrontabRule` compare the cron language with what it
  is meant to be.
* **Board layout** (`packages/boards`, `packages/db/src/board-runtime.ts`). `BoardLayout` has the geometry,
  `BoardStore` the transactions, `BoardProtocol` any number of editors whose snapshots may be torn
  between revisions.
* **Refresh fence, cache and coalescer** (`packages/custom-api`). `Refresh.dfy` has the two objects,
  `RefreshProtocol` the interleavings of reads, refreshes, fetches and cache losses, and `RefreshCapacity` how
  many integrations they can serve.
* **Backup** (`packages/backup`, `packages/db/src/backup-runtime.ts`). `CanonicalJson` is the normal form
  behind the digest, `BackupArchive` the archive format with its upgrades, `BackupRows` and `BackupStore`
  the way of rows into the database and back, and the restore. `Calendar` and `IsoDates` supply dates.
* **Smaller algorithms**: `JsonPath`, the sliding windows in `RateLimiter.dfy` and `LimiterCapacity`,
  `ReplacementGraph` with the order of the library.

Operations that the program carries out step by step are methods with loops, or methods of classes, proved
against functions; the lemmas then speak about the functions. Statements of a store are atomic steps.

## What a proof turned up

* A cron day-of-week field has every `7` replaced by `0` in its text before it is parsed. A lone `7` so
  means Sunday, but `0-7` means Sunday alone, `7/2` also Tuesday, Thursday and Saturday, `1-7` and `*/7` are refused
  and `7-3` is accepted (`Weekdays`, which decides it for every text).
* The day rule is not that of POSIX.1-2017: `0 0 1-31 * 1` runs on Mondays only and `0 0 * 1 1` on the
  Mondays of January only (`CrontabRule`, with the exact condition).
* An event run key leaves out the status: two status events of one integration in one millisecond share a
  key and only the first can run (`RunKeys.StatusIsNotInTheKey`).
* `eq` and `neq` are opposites only because accepted conditions mention fields the event carries
  (`Conditions.EqNeqOppositeExactly`).
* A pool loses a worker with every handler that throws; when the last is lost the rest of the list is never
  begun (`RunLimited.SettledExactly`).
* First fit can fail on a valid layout (`BoardLayout.FullLayoutHasNoRoom`), and a client that sends a
  revision the board has not reached can stack one item on another (`BoardProtocol.GuessedRevisionBreaksTheLayout`).
* A fence or a limiter serves exactly as many integrations or keys as it has room for: with one more an
  answer can be stale (`RefreshCapacity.OneTooManyIsStale`) or the limit exceeded (`LimiterCapacity.OneKeyTooMany`).
* An archive may hold dates that no calendar has, such as 31 February, and identifiers with upper-case digits.
  Exactly the rows with such a date do not survive a restore, and in PostgreSQL those with such an identifier in
  a uuid column as well (`BackupRows.RowRoundTrip`); a second restore changes nothing more
  (`BackupRows.ColumnExportLasts`).
* PostgreSQL finds a UUID in any spelling, the program compares texts. A layout batch in upper case therefore
  escapes the size limits, though nothing else (`BoardProtocol.LimitsKeptExactly`), and a value asked for in upper
  case can be cached under a generation that a refresh has replaced, though no answer is stale for it
  (`RefreshProtocol.OldIsCachedExactly`).
* One boolean column, `notifyOnRecovery`, is missing from the list the backup code goes by; it survives
  because the column mode converts it (`BackupRows.ColumnRoundTrip`).

## Assumptions

* The archive schema of every table but the server settings names the table's columns with types of their
  kinds (`BackupStore.SchemasAgree`); for the settings this is proved.
* Nothing else writes between the export and the replacement inside a restore.
* Each SQL statement or transaction is atomic, and the unique index on run keys holds. A board transaction
  is one step because its first statement locks the board row until it commits.
* `updateRuntime` reads a row and writes it back; the two are one step. In `Debounce` the sections of one
  rule, which the lease guards, do not overlap and the rule's configuration is fixed.
* Run rows are not removed while the at-most-once result is used.
* Identifiers of rules, and those in requests and in uuid columns, are UUIDs in the form of RFC 9562.
* Database drivers return the instants and texts they were given; in PostgreSQL that takes years from 100 to 9999
  and texts without NUL.
* Clocks of one limiter do not run backwards, and strings hold no lone surrogates.
* Widget sizes have minima of at least 1, a minimum height no larger than the maximum height, and a
  maximum height of at most 1000.

## Model

| member | source | states |
|---|---|---|
| `DispatchProtocol.AtMostOnce` | packages/automations/src/scheduler.ts:583-721 | in every execution of any number of workers, no two sent actions carry the same run key |
| `DispatchProtocol.AtMostOncePerOccurrence` | packages/automations/src/scheduler.ts:583-721 | a slot, arming or event of a rule is acted on at most once |
| `DispatchProtocol.OnlyTheSameOccurrenceConflicts` | packages/automations/src/scheduler.ts:609-641 | an insert is refused only when the same occurrence of the same rule already has a run |
| `DispatchProtocol.LeaseIsReentrant` | packages/db/src/automation-runtime.ts:579-603 | a worker's own lease never keeps it out, so the lease cannot be what prevents a second dispatch |
| `DispatchProtocol.LeaseIsRespected` | packages/db/src/automation-runtime.ts:579-612 | a standing lease ends only by its owner, by a claim past its end, or by enabling, disabling or deleting the rule |
| `DispatchProtocol.FinalStatusStays` | packages/db/src/automation-runtime.ts:641-668 | a run that has reached a final status keeps status and finish time for ever |
| `DispatchProtocol.KeysAreRemembered` | packages/db/src/automation-runtime.ts:482-492 | no step of the scheduler forgets a run or changes its key |
| `AutomationStore.LeaseExcludes` | packages/db/src/automation-runtime.ts:579-603 | while a lease stands no other worker's claim at or before its end succeeds or changes anything |
| `AutomationStore.SweepLeavesNoneStale` | packages/db/src/automation-runtime.ts:658-668 | after a sweep no unfinished run is as old as the bound, only unfinished old runs changed, and keys stay unique |
| `AutomationStore.DueRulesAreClaimable` | packages/db/src/automation-runtime.ts:519-603 | any worker can claim a rule that a due list names, while nothing else changes |
| `AutomationStore.Store.ListDue` | packages/db/src/automation-runtime.ts:519-552 | distinct due rules, earliest first; one is left out only when the list is full of rules not due later |
| `AutomationStore.Store.ClaimLease` | packages/db/src/automation-runtime.ts:579-603 | succeeds exactly when the rule is enabled and its lease is absent, over or the worker's own, and then stores the new lease |
| `AutomationStore.Store.ReleaseLease` | packages/db/src/automation-runtime.ts:604-612 | clears the lease when the worker owns it and changes nothing otherwise |
| `AutomationStore.Store.GetRunByKey` | packages/db/src/automation-runtime.ts:493-499 | finds a run with the key if and only if there is one |
| `AutomationStore.Store.TryInsertRun` | packages/db/src/automation-runtime.ts:482-492 | inserts exactly when no run has the key; otherwise returns the run that has it and changes nothing |
| `AutomationStore.Store.FinishRun` | packages/db/src/automation-runtime.ts:641-657 | only a run that is still scheduled or running takes the new status |
| `AutomationStore.Store.MarkStaleRunsUnknown` | packages/db/src/automation-runtime.ts:658-668 | closes exactly the unfinished runs at least as old as the bound and counts them |
| `AutomationStore.Store.UpdateRuntime` | packages/db/src/automation-runtime.ts:613-640 | writes the given columns and keeps every other, the lease included |
| `AutomationStore.Store.SetEnabled` | packages/db/src/automation-runtime.ts:360-400 | revision check, flag, schedule reset and lease removal, or no change with the right error |
| `RunLimited.WithinLimit` | packages/automations/src/scheduler.ts:227-244 | in every interleaving no more handlers run than the limit allows, each on an item of its own |
| `RunLimited.SettledExactly` | packages/automations/src/scheduler.ts:227-244 | for every list, limit, set of throwing handlers and interleaving: a settled run began exactly the items up to the thrower that stopped the last worker, all of them when there are fewer throwers than workers; of these the throwing ones are lost and the others handled |
| `RunLimited.ExecutionsEnd` | packages/automations/src/scheduler.ts:227-244 | an execution has at most two steps an item and one a worker |
| `RunLimited.AllBegunExactly` | packages/automations/src/scheduler.ts:227-244 | all items are begun if and only if fewer of those before the last one throw than there are workers |
| `RunLimited.UnsettledGoesOn` | packages/automations/src/scheduler.ts:227-244 | until every worker has stopped some worker can take its next step |
| `Scheduler.DispatchGuarantees` | packages/automations/src/scheduler.ts:583-721 | an action is sent only for a key no run had, which a run has afterwards; other rules and other runs are untouched; the lease is given back |
| `Scheduler.SecondDispatchSendsNothing` | packages/automations/src/scheduler.ts:583-721 | running the same job again, by any worker and with any outside answers, sends nothing once it was sent |
| `Scheduler.AutomationScheduler.ClaimAndDispatch` | packages/automations/src/scheduler.ts:583-721 | the new database and the log of sent actions, for every outcome of claim, key, owner check, minute window, shutdown and dispatch |
| `Scheduler.AutomationScheduler.Complete` | packages/automations/src/scheduler.ts:748-785 | finishes the run, records the times, counts or resets failures, releases the lease |
| `Scheduler.AutomationScheduler.AdvanceSchedule` | packages/automations/src/scheduler.ts:723-733 | the next run becomes the next slot, or one minute later when the trigger does not parse |
| `Scheduler.AutomationScheduler.SeedUnscheduled` | packages/automations/src/scheduler.ts:331-346 | the loop has the effect that `SchedulerMeaning.SeededExactly` describes row by row |
| `Scheduler.AutomationScheduler.ProcessSchedule` | packages/automations/src/scheduler.ts:348-373 | the object has the effect that the three `SchedulerMeaning.Schedule...` lemmas describe |
| `Scheduler.AutomationScheduler.ProcessStatusDebounce` | packages/automations/src/scheduler.ts:375-454 | the object has the effect of a `Timer` call, which `DebouncedCalls` turns into steps of the debounce machine |
| `Scheduler.AutomationScheduler.ProcessEvent` | packages/automations/src/scheduler.ts:456-581 | the object has the effect of a `Status` call of `DebouncedCalls`, or of the event step that `SchedulerMeaning.EventStepMeaning` describes |
| `SchedulerMeaning.SeededExactly` | packages/automations/src/scheduler.ts:331-346 | exactly the listed enabled working schedules whose search finds a slot get it; no other row, column or table changes |
| `SchedulerMeaning.NoSlotLostBySeeding` | packages/automations/src/scheduler.ts:331-346 | when ticks at most eight days apart seed a row whose next run is null, the first slot written is the least match after the first of these ticks |
| `SchedulerMeaning.NoSlotLostAfterAdvance` | packages/automations/src/scheduler.ts:723-733 | a schedule that moves on and finds no slot within the horizon gets, by the ticks that seed its row again at most eight days apart, the least match after the time it moved on from |
| `SchedulerMeaning.ScheduleStepMeaning` | packages/automations/src/scheduler.ts:348-373 | a schedule that is acted on was due and past its cooldown, its slot's key was free and is taken now, and its row holds the next slot, strictly later for every stored trigger, or none |
| `SchedulerMeaning.ScheduleSendsExactly` | packages/automations/src/scheduler.ts:348-373 | a schedule is acted on if and only if it is due, accepted, past its cooldown, claimable, new, authorized and within the minute window, and nobody is stopping |
| `SchedulerMeaning.ScheduleActsOncePerSlot` | packages/automations/src/scheduler.ts:348-373 | before the next slot no worker acts on the schedule again or changes anything |
| `SchedulerMeaning.DispatchSendsExactly` | packages/automations/src/scheduler.ts:583-721 | a dispatch sends the action if and only if nothing stands against it |
| `SchedulerMeaning.EventStepMeaning` | packages/automations/src/scheduler.ts:556-581 | an event rule acts on a valid event of its type past the cooldown, and once for each occurrence, whichever workers see it |
| `DebouncedCalls.CallsAreARun` | packages/automations/src/scheduler.ts:375-581 | any sequence of handler calls on a status rule, other work in between, is a run of the debounce machine through the rows of the database |
| `DebouncedCalls.TimerSendIsJustified` | packages/automations/src/scheduler.ts:375-581 | when a timer call sends, an event at least `forDurationSeconds` earlier made the configured transition from the observed status, passed filters, condition and cooldown and wrote the pending record; every event noted since has the same status, nothing was sent since, and the cooldown was over |
| `DebouncedCalls.OneSendPerArming` | packages/automations/src/scheduler.ts:375-581 | between two calls of the timer that send lies an event that made the transition anew and wrote the pending record the second is for |
| `DispatchRefinement.CallIsItsSteps` | packages/automations/src/scheduler.ts:583-721 | a call taken alone through the single steps of the protocol has exactly the effect of the object's method, database and log |
| `DispatchRefinement.RunsToItsEnd` | packages/automations/src/scheduler.ts:583-721 | every call can be taken to its end by its own steps |
| `DispatchRefinement.ObjectsFollowTheProtocol` | packages/automations/src/scheduler.ts:583-721 | every run of any number of scheduler objects on one database is an execution of the protocol with the same actions sent |
| `DispatchRefinement.ObjectsSendAtMostOnce` | packages/automations/src/scheduler.ts:583-721 | no two calls of any scheduler objects send an action for one run key |
| `Debounce.FiringIsJustified` | packages/automations/src/scheduler.ts:375-454 | a timer that fires consumes an arming at least `forDurationSeconds` old, undisturbed since by any status event with another status |
| `Debounce.OneFiringPerArming` | packages/automations/src/scheduler.ts:462-555 | between two firings lies a new arming, undisturbed until the second firing, which consumes it |
| `Debounce.TimerFiresExactly` | packages/automations/src/scheduler.ts:375-454 | a timer section fires if and only if it looked due, a transition is pending, the trigger parses, the time is over and so is the cooldown |
| `Debounce.ReplayDiffersByCooldownOnly` | packages/automations/src/scheduler.ts:419-438 | evaluating an armed transition again can only be refused by the cooldown |
| `Debounce.PendingWasArmed` | packages/automations/src/scheduler.ts:483-555 | every pending record goes back to a status event that armed it, and the observed status is its target |
| `Debounce.PendingReplays` | packages/automations/src/scheduler.ts:148-196 | every pending record is read back as written and its replay is refused only by the cooldown |
| `Debounce.StaleReadHarmless` | packages/automations/src/scheduler.ts:389-391 | falling back on a row read before the lease never changes what a section sees |
| `Cron.ParseList` | packages/automations/src/cron.ts:15-53 | the loop over list parts computes the set the grammar gives, or refuses |
| `Cron.ParseFields` | packages/automations/src/cron.ts:55-70 | five fields become five legal, non-empty sets, with sevens of the last one read as zero |
| `Cron.ParseFiveFieldCron` | packages/automations/src/cron.ts:55-70 | trimming, limits, splitting at white space and the five fields, as one function of the text |
| `Cron.SplitWords` | packages/automations/src/cron.ts:61 | the loop over characters yields the maximal runs without white space |
| `Cron.SpacingIsIrrelevant` | packages/automations/src/cron.ts:55-70 | an admissible text means its fields, however much white space of whatever kind stands before, between and after them |
| `Cron.TrimIsFinal` | packages/automations/src/cron.ts:56 | trimming twice is trimming once, so a trimmed expression reads as the original did |
| `Cron.FieldSetLegal` | packages/automations/src/cron.ts:15-53 | an accepted field denotes a non-empty set within its range |
| `Weekdays.SevenMeansSundayExactly` | packages/automations/src/cron.ts:68 | for every text of the weekday field: it is read as with 7 for Sunday if and only if both readings refuse it, or neither does and every weekday that a part loses or gains is named by another part |
| `Weekdays.OnePartExactly` | packages/automations/src/cron.ts:68 | for a field without a comma: if and only if both refuse, or neither does and no weekday is lost or gained, as read off its numbers |
| `Weekdays.WholeWeekBecomesSunday` | packages/automations/src/cron.ts:68 | 0-7 is taken for Sunday alone |
| `Weekdays.SundayBecomesEvenDays` | packages/automations/src/cron.ts:68 | 7/2 also runs on the other even days |
| `Weekdays.RefusalsChange` | packages/automations/src/cron.ts:68 | 1-7 and */7 are refused, 7-3 is accepted |
| `Cron.MatchIsBySets` | packages/automations/src/cron.ts:72-86 | the size tests tell exactly which day fields leave some day out; of these one has to name the day |
| `CrontabRule.PosixExactly` | packages/automations/src/cron.ts:72-86 | the code runs an entry at the instants POSIX.1-2017 does if and only if its weekday is an asterisk, or its month and date are, or its months are all and its dates are all exactly when its weekdays are |
| `CrontabRule.WrittenOutDatesDiffer` | packages/automations/src/cron.ts:72-86 | for the fields 0 0 1-31 * 1 the two differ on a Thursday |
| `CrontabRule.MonthWithWeekdayDiffers` | packages/automations/src/cron.ts:72-86 | for the fields 0 0 * 1 1 the two differ on a Thursday in January |
| `Cron.NextCronOccurrenceUtc` | packages/automations/src/cron.ts:88-95 | the least whole minute after the start that matches, and null exactly when the next 11520 minutes hold none |
| `Cron.SearchIsDeterministic` | packages/automations/src/cron.ts:88-95 | at most one result satisfies the search's specification |
| `Cron.NextOccurrenceIsTheResult` | packages/automations/src/cron.ts:88-95 | the search as a function meets the same specification, so both agree |
| `Cron.WeekIsCovered` | packages/automations/src/cron.ts:88-95 | with no month excluded and no date-only restriction the search never fails |
| `Cron.NeverNullExactly` | packages/automations/src/cron.ts:88-95 | under a field that some day of every week passes, the search never fails if and only if no month is excluded |
| `Cron.NoSlotLost` | packages/automations/src/cron.ts:88-95 | when failed searches are repeated at most eight days apart, the first that finds a slot finds the least after the first of them |
| `Triggers.RenderedConfigParses` | packages/automations/src/triggers.ts:106-157 | every valid configuration, written out in full, is read back as it was |
| `Triggers.ParsedConfigIsValid` | packages/automations/src/triggers.ts:106-157 | what is accepted is a valid configuration of the declared type, and its trimmed cron text means what the given one did |
| `Triggers.ParseIgnoresKeyOrder` | packages/automations/src/triggers.ts:106-157 | objects that differ in the order of keys only are read alike, as a JSON column of PostgreSQL requires |
| `Triggers.RefusedExactlyWhenNothingMatches` | packages/automations/src/triggers.ts:134-152 | a well-formed status trigger is refused if and only if no event after any previous status could match it |
| `Triggers.ScheduleMovesForward` | packages/automations/src/triggers.ts:159-163 | the next run of an accepted schedule is strictly later, and for an interval exists within a day |
| `Calendar.NextMinute` | packages/automations/src/cron.ts:91-94 | moving the minute with `setUTCMinutes` is adding a minute, across hours and days |
| `Calendar.CivilDateRoundTrip` | packages/automations/src/cron.ts:72-79 | day numbers and civil dates determine each other |
| `Calendar.IsoStringInjective` | packages/automations/src/run-key.ts:19-27 | different instants with four-digit years have different ISO text |
| `Conditions.AcceptedExactly` | packages/automations/src/conditions.ts:104-166 | the accepted inputs are exactly the written forms of legal trees of depth at most 4 with at most 16 nodes |
| `Conditions.EvaluateIsClassical` | packages/automations/src/conditions.ts:168-209 | on an event that carries every allowed field, evaluation is two-valued logic over the facts of the event |
| `Conditions.DualNegates` | packages/automations/src/conditions.ts:196-209 | swapping every operator for its opposite, and `and` for `or`, negates a condition without `contains` |
| `Conditions.EqNeqOppositeExactly` | packages/automations/src/conditions.ts:168-190 | `eq` and `neq` are opposites if and only if the field is present with the literal's type |
| `Conditions.IncludesIsInfix` | packages/automations/src/conditions.ts:168-190 | `contains` on strings is occurrence as a substring |
| `Evaluate.EventsProvideTheirFields` | packages/automations/src/conditions.ts:74-102 | every field an accepted condition may mention is on every event that reaches it |
| `Evaluate.ConditionIsClassical` | packages/automations/src/evaluate.ts:147-178 | the evaluator's condition test is the classical meaning of the accepted condition |
| `Evaluate.TransitionMatchesExactly` | packages/automations/src/evaluate.ts:99-184 | a status rule matches if and only if the stated transition happened, filters pass, the condition holds and no cooldown runs |
| `Evaluate.EventMatchesExactly` | packages/automations/src/evaluate.ts:125-184 | an event rule matches if and only if an event of its type passes filters and condition and no cooldown runs |
| `Evaluate.FilterOnForeignFieldNeverMatches` | packages/automations/src/evaluate.ts:88-97 | an integration filter on an event type that carries no integration never matches |
| `RunKeys.RunKeyIdentifiesOccurrence` | packages/automations/src/run-key.ts:15-62 | two keys agree if and only if rule and occurrence do |
| `RunKeys.KeySpacesDisjoint` | packages/automations/src/run-key.ts:15-62 | schedule, debounce and event keys never meet, nor do keys of different rules |
| `RunKeys.ScheduleKeyIdentifiesSlot` | packages/automations/src/run-key.ts:15-17 | the length limit never merges two slots |
| `RunKeys.DebounceKeyIdentifiesArming` | packages/automations/src/run-key.ts:19-27 | one key for each rule, arming time and status |
| `RunKeys.EventKeyIdentifiesSubject` | packages/automations/src/run-key.ts:29-62 | event keys agree if and only if rule, type, time and subject do |
| `RunKeys.StatusIsNotInTheKey` | packages/automations/src/run-key.ts:29-62 | simultaneous status events of one integration share a key whatever the status |
| `RunKeys.KeysAreValid` | packages/automations/src/schemas.ts:66-70 | every key built satisfies the run schema's alphabet and length |
| `BoardLayout.OverlapIsSharedCell` | packages/boards/src/layout.ts:10-12 | the four inequalities hold if and only if two proper boxes share a grid cell |
| `BoardLayout.ClampFits` | packages/boards/src/layout.ts:14-23 | a clamped widget is as near to its default size as its limits and the columns allow |
| `BoardLayout.FindFirstFitPlacement` | packages/boards/src/layout.ts:25-41 | the row-major least free position, or failure exactly when none is free |
| `BoardLayout.FirstFitIsUnique` | packages/boards/src/layout.ts:25-41 | only one box can be the first fit |
| `BoardLayout.RoomAtTheBottom` | packages/boards/src/layout.ts:25-41 | the search succeeds while every box ends at or above row 10000 |
| `BoardLayout.FullLayoutHasNoRoom` | packages/boards/src/layout.ts:25-41 | some valid layout has no room for any widget |
| `BoardLayout.ValidateLayoutPlacements` | packages/boards/src/layout.ts:43-76 | accepts exactly the layouts with distinct ids, boxes within bounds and limits, and no two overlapping |
| `BoardLayout.ValidatorIsExact` | packages/boards/src/layout.ts:43-76 | the accepted layouts, stated as no grid cell covered twice |
| `BoardLayout.FirstFitKeepsLayoutValid` | packages/boards/src/layout.ts:14-76 | a clamped widget put at its first fit leaves a valid layout valid |
| `BoardStore.BatchKeepsGridOk` | packages/db/src/board-runtime.ts:524-588 | a committed batch, its identifiers spelled in any way and whatever limits it was checked against, leaves every layout on the grid and disjoint |
| `BoardStore.BatchKeepsLimitsExactly` | packages/boards/src/service.ts:281-301 | a committed batch checked against the current limits keeps all of them if and only if each of its boxes meets the limits of its slot or goes by identifiers spelled as stored |
| `BoardStore.CreateKeepsLayoutOk` | packages/db/src/board-runtime.ts:316-367 | a created item whose boxes are first fits on the current rows keeps grid, disjointness and limits |
| `BoardStore.OthersKeepLayoutOk` | packages/db/src/board-runtime.ts:234-423 | so do editing and deleting items and renaming the board |
| `BoardStore.UpsertMatchesMerge` | packages/db/src/board-runtime.ts:575-579 | the upserts lay the boxes over the stored ones, item by stored item |
| `BoardStore.StoredBoxWasMerged` | packages/db/src/board-runtime.ts:557-574 | every box stored after a batch is among the merged and validated ones, under the spelling its item was submitted in |
| `BoardStore.MergedIsStoredExactly` | packages/db/src/board-runtime.ts:557-579 | the merged boxes are the stored ones if and only if every item was submitted in its stored spelling |
| `BoardStore.WrittenRow` | packages/db/src/board-runtime.ts:575-579 | after a batch every submitted item, under its stored identifier, has the box submitted for it and its old limits, or none |
| `BoardStore.UpsertFrame` | packages/db/src/board-runtime.ts:304-308 | a batch touches no other layout, no other item and no stored size limit |
| `BoardStore.InsertRowsFrame` | packages/db/src/board-runtime.ts:340-360 | inserting a new item's placements changes no stored row and adds only those asked for |
| `BoardStore.EveryRowIsInserted` | packages/db/src/board-runtime.ts:340-360 | a created item stands on every layout it was placed on, exactly as placed |
| `BoardStore.PlaceOnLayouts` | packages/boards/src/service.ts:321-346 | one placement a layout, each the first fit among the snapshot's rows; failure names a full layout |
| `BoardStore.Store.UpdateLayoutBatch` | packages/db/src/board-runtime.ts:524-588 | the new board with its next revision, or the right refusal and the board as it was, in either database and for any spelling |
| `BoardStore.Store.CreateItem` | packages/db/src/board-runtime.ts:316-367 | the item and all its placements with the next revision, or the board as it was |
| `BoardStore.Store.UpdateItem` | packages/db/src/board-runtime.ts:368-402 | the item with the next revision, or the board as it was |
| `BoardStore.Store.DeleteItem` | packages/db/src/board-runtime.ts:403-420 | the board without the item and its placements, or as it was |
| `BoardStore.Store.UpdateBoard` | packages/db/src/board-runtime.ts:234-263 | the new name with the next revision, or the board as it was |
| `BoardProtocol.LayoutsAlwaysOk` | packages/boards/src/service.ts:268-367 | in every execution with torn reads, identifiers in any spelling and clients that send revisions they have read, every layout is on the grid and disjoint in every state |
| `BoardProtocol.LimitsKeptExactly` | packages/boards/src/service.ts:268-301 | up to any state of such an execution all boxes kept their size limits if and only if every batch committed so far met them or was spelled as stored |
| `BoardProtocol.LimitsAlwaysKept` | packages/boards/src/service.ts:268-301 | they do in every execution on SQLite, and in every one whose batches are spelled as stored |
| `BoardProtocol.RespelledLayoutEscapesItsLimits` | packages/boards/src/service.ts:281-301 | a concrete execution of an honest client that spells the layout in upper case stores a box past its limit |
| `BoardProtocol.NoLostUpdate` | packages/db/src/board-runtime.ts:524-559 | of all requests that expect one revision at most one ever commits |
| `BoardProtocol.NeverReborn` | packages/db/src/board-runtime.ts:421-423 | revisions never decrease and a deleted board stays deleted |
| `BoardProtocol.CommitTakesTheNextRevision` | packages/db/src/board-runtime.ts:536-541 | a request commits only at exactly the revision it expects and produces the next |
| `BoardProtocol.RefusalChangesNothing` | packages/db/src/board-runtime.ts:309-314 | a refused mutation leaves the board exactly as it was |
| `BoardProtocol.GuessedRevisionBreaksTheLayout` | packages/boards/src/service.ts:303-367 | without that proviso, a concrete execution puts one item on another |
| `RefreshFence.AdvanceMeaning` | packages/custom-api/src/refresh-fence.ts:20-35 | advancing moves one counter; every other stays, or is forgotten when evicted |
| `RefreshFence.KeepsTheMostRecent` | packages/custom-api/src/refresh-fence.ts:20-35 | after any history the fence holds exactly the most recently refreshed integrations, in that order |
| `RefreshFence.MemoryRefreshFence.CurrentGeneration` | packages/custom-api/src/refresh-fence.ts:16-18 | the stored generation, or zero |
| `RefreshFence.MemoryRefreshFence.Advance` | packages/custom-api/src/refresh-fence.ts:20-27 | the next generation, moved to the back, with the capacity kept |
| `RefreshFence.MemoryRefreshFence.EvictOldestWhileFull` | packages/custom-api/src/refresh-fence.ts:29-35 | drops just as many of the oldest entries as make room for one |
| `OverviewCoalescer.StaysBounded` | packages/custom-api/src/overview-coalescer.ts:15-25 | the flight table never exceeds its bound |
| `OverviewCoalescer.MemoryOverviewCoalescer.Run` | packages/custom-api/src/overview-coalescer.ts:15-25 | joins the running flight of the key, else starts one, tracked only while there is room |
| `OverviewCoalescer.MemoryOverviewCoalescer.Finally` | packages/custom-api/src/overview-coalescer.ts:20-22 | a settled flight removes its own entry and nobody else's |
| `RefreshProtocol.AnswersAreFresh` | packages/custom-api/src/service.ts:237-337 | every answer comes from a fetch for the very key asked for, begun after the request's generation was issued, while the fence has not forgotten the integration |
| `RefreshProtocol.ReadsSeeEarlierRefreshes` | packages/custom-api/src/service.ts:369-402 | a read that starts after a refresh is answered by a fetch begun after that refresh |
| `RefreshProtocol.CacheIsCurrent` | packages/custom-api/src/service.ts:242-337 | every cached entry holds what a finished fetch of its key returned and, while the fence has not forgotten the integration, belongs to the current generation or else to generation 0 and a fetch asked for in another spelling |
| `RefreshProtocol.OldIsCachedExactly` | packages/custom-api/src/service.ts:285-337 | a fetch that settles is cached under an old generation if and only if it was asked for in another spelling than the stored one, its generation is 0, the current one is not, and its error, if any, is a known one |
| `RefreshProtocol.OtherSpellingCachesOld` | packages/custom-api/src/service.ts:369-402 | a concrete run in which that happens while nothing is forgotten |
| `RefreshProtocol.SingleFlight` | packages/custom-api/src/overview-coalescer.ts:15-25 | while the table never filled up, two fetches never run for one key |
| `RefreshCapacity.FreshWithRoom` | packages/custom-api/src/refresh-fence.ts:16-27 | while no more integrations are refreshed than the fence holds, whatever that number, and no counter can reach 2^53, every answer comes from a fetch begun no earlier than the last refresh before its request |
| `RefreshCapacity.OneTooManyIsStale` | packages/custom-api/src/refresh-fence.ts:16-27 | for every capacity there is a run with one integration more in which a refresh is answered by a fetch older than itself |
| `CanonicalJson.CanonicalIsExact` | packages/backup/src/json.ts:27-42 | two values have one canonical text if and only if they are equal up to key order at every depth |
| `CanonicalJson.SortingIsIdempotent` | packages/backup/src/json.ts:31-42 | sorting twice is sorting once |
| `CanonicalJson.SortingIsSame` | packages/backup/src/json.ts:31-42 | sorting changes nothing but the order of keys |
| `CanonicalJson.PrintInjective` | packages/backup/src/json.ts:27-29 | different values have different JSON text |
| `CanonicalJson.ParseInvertsPrint` | packages/backup/src/rows.ts:41-58 | a JSON text can be read back to the value it was printed from and no other |
| `BackupArchive.BuildThenParse` | packages/backup/src/archive.ts:167-323 | every archive that is built is accepted and gives back its manifest and tables |
| `BackupArchive.UpgradeEndsCurrent` | packages/backup/src/archive.ts:94-152 | the upgraded tables of any version satisfy the current schema; old tables are kept, new ones empty |
| `BackupArchive.SettingsUpgrade` | packages/backup/src/archive.ts:94-114 | a version 5 settings row with the defaults added is a legal current row |
| `BackupArchive.SettingsUpgradeKeeps` | packages/backup/src/archive.ts:94-114 | no setting of a version 5 row is replaced by a default, and every default is there |
| `BackupArchive.TamperEvident` | packages/backup/src/archive.ts:192-204 | an accepted archive with the digest of given tables holds those tables up to key order, or exhibits a SHA-256 collision |
| `BackupArchive.HashIgnoresKeyOrder` | packages/backup/src/archive.ts:154-161 | the digest does not depend on the order of keys |
| `BackupArchive.HashIsOfTheInput` | packages/backup/src/archive.ts:154-204 | the digest checked after parsing is that of the tables as submitted |
| `BackupArchive.TablesRoundTrip` | packages/backup/src/archive.ts:86-92 | tables written as JSON parse back to themselves |
| `BackupArchive.ParsedIsSame` | packages/backup/src/archive.ts:86-92 | parsing keeps all of the submitted tables |
| `BackupArchive.DocumentClean` | packages/backup/src/json.ts:56-76 | no manifest field is forbidden, so an archive is as free of plaintext secrets as its tables |
| `BackupArchive.WalkFindsEveryKey` | packages/backup/src/json.ts:60-76 | the walk refuses exactly the values that hold a forbidden key at some depth |
| `BackupArchive.SpellingHidesNothing` | packages/backup/src/json.ts:56-58 | neither separators nor letter case hide a forbidden key |
| `BackupRows.ColumnRoundTrip` | packages/backup/src/rows.ts:60-109 | a schema-valid column value comes back from a restore if and only if it is not an unreal date and, in a uuid column of PostgreSQL, not an identifier with upper-case digits |
| `BackupRows.UpperCaseIdentifierChanges` | packages/db/src/schema/postgresql.ts:20-40 | a concrete identifier that the archive schema accepts and a restore into PostgreSQL returns in lower case |
| `BackupRows.ColumnExportLasts` | packages/backup/src/rows.ts:60-109 | what is exported after a restore has real dates and stored spellings only, so it comes back from the next one |
| `BackupRows.RowRoundTrip` | packages/backup/src/rows.ts:60-109 | a restored row, its keys in any order, is exported as it was up to key order if and only if all its dates name real days and times and, in PostgreSQL, all its identifiers are in lower case; in SQLite with its keys in column order |
| `BackupRows.SerializeBackupRow` | packages/backup/src/rows.ts:60-84 | the loop over columns yields every column's export value in order, or the first column's error |
| `BackupRows.DeserializeBackupRow` | packages/backup/src/rows.ts:86-109 | the loop over columns yields every column's database value |
| `IsoDates.RealDatesSurvive` | packages/backup/src/rows.ts:18-32 | a date text survives parsing and printing if and only if it names a real day and a time before 24:00 |
| `IsoDates.FebruaryRollsOver` | packages/backup/src/rows.ts:94-97 | a concrete date that the archive schema accepts and a restore changes |
| `IsoDates.ParsePrinted` | packages/backup/src/rows.ts:18-32 | parsing printed text gives the instant back |
| `BackupStore.RestoreThenExport` | packages/db/src/backup-runtime.ts:164-214 | after a restore every table exports, whatever order the database returns rows in, and yields the same rows up to key order if and only if each of them comes back |
| `BackupStore.ExportAfterRestore` | packages/db/src/backup-runtime.ts:116-154 | the same for one table and any selection of its stored rows |
| `BackupStore.InsertOrderIsComplete` | packages/backup/src/columns.ts:37-69 | the insert order names every table of the archive exactly once |
| `BackupStore.StoredInParts` | packages/db/src/backup-runtime.ts:205-211 | storing a table in parts stores what storing it at once does, failures included |
| `BackupStore.SnapshotStore.InsertInBatches` | packages/db/src/backup-runtime.ts:205-211 | batches of 200 lose and duplicate nothing |
| `BackupStore.SnapshotStore.InsertRowByRow` | packages/db/src/backup-runtime.ts:169-180 | one statement a row, with the same result |
| `BackupStore.SnapshotStore.ReplaceSnapshot` | packages/db/src/backup-runtime.ts:164-214 | the whole new content with nothing ephemeral left, or the old content and ephemeral rows untouched |
| `BackupStore.SnapshotStore.ExportSnapshot` | packages/db/src/backup-runtime.ts:116-154 | every table serialised, or failure because some row of some table does not serialise |
| `BackupStore.BackupService.Restore` | packages/backup/src/service.ts:46-71 | every failure leaves the store as it was; success stores the archive's tables, empties the ephemeral ones, and has persisted an archive of the old content before |
| `BackupStore.ParsedHasAllTables` | packages/backup/src/archive.ts:206-323 | an accepted archive of any version brings every table that a restore inserts |
| `BackupStore.AcceptedRowsHaveShape` | packages/backup/src/archive.ts:94-152 | every row of an accepted archive of any version, upgraded settings included, has the shape of its table |
| `BackupStore.AcceptedArchiveSurvives` | packages/backup/src/service.ts:46-71 | an accepted archive of any version, once restored, is exported without failure, and with the same rows in every table if and only if all its dates are real and, in PostgreSQL, all its identifiers in lower case |
| `JsonPath.ParseIsExact` | packages/custom-api/src/json-path.ts:22-77 | the parser accepts a text with given segments if and only if the segments are legal and render to it |
| `JsonPath.ParseJsonPath` | packages/custom-api/src/json-path.ts:22-77 | the cursor loops terminate and compute the parser function |
| `JsonPath.RenderedPassesFirstChecks` | packages/custom-api/src/json-path.ts:23-28 | the checks before parsing reject nothing the parser would accept |
| `JsonPath.ExtractJsonPath` | packages/custom-api/src/json-path.ts:79-109 | the loop returns the recursive lookup along the parsed path, and undefined for a bad path |
| `JsonPath.LookupComposes` | packages/custom-api/src/json-path.ts:87-107 | looking up along two paths in turn is looking up along both |
| `SlidingWindow.AcceptedStaysBounded` | packages/auth/src/action-limiter.ts:4-13 | with an ordered clock no half-open window holds more than the limit of accepted calls |
| `SlidingWindow.MinuteWindow.TryConsume` | packages/automations/src/scheduler.ts:215-225 | answers by the sliding-window rule over its whole history |
| `ActionLimiter.ActionRateLimiter.TryConsume` | packages/auth/src/action-limiter.ts:4-13 | has the effect and answer of the limiter function |
| `ActionLimiter.AnswersByTheRule` | packages/auth/src/action-limiter.ts:4-13 | over any run of calls, each answer is the sliding-window rule on the full history of its key, so every window stays bounded |
| `RefreshLimiter.CustomApiRateLimiter.TryConsume` | packages/custom-api/src/rate-limiter.ts:20-34 | pruning, eviction and the window decision, as the limiter function has them |
| `RefreshLimiter.ConsumeKeepsCapacity` | packages/custom-api/src/rate-limiter.ts:20-47 | never more than `maxTrackedKeys` keys are tracked |
| `RefreshLimiter.AgreesWithPlain` | packages/custom-api/src/rate-limiter.ts:20-47 | on a key never evicted it answers as the plain limiter does, at every call |
| `LimiterCapacity.AgreesWithRoom` | packages/custom-api/src/rate-limiter.ts:20-47 | while no more keys are used than the capacity, whatever it is, the limiter answers every call as the plain one does |
| `LimiterCapacity.OneKeyTooMany` | packages/custom-api/src/rate-limiter.ts:20-47 | for every capacity there are calls with one key more that exceed the limit in a single instant, which the plain limiter refuses |
| `ReplacementGraph.CheckStart` | packages/app-library/src/lifecycle.ts:31-50 | the walk terminates and accepts a start if and only if its chain reaches no missing id and no cycle and its target is active |
| `ReplacementGraph.ValidateReplacementGraph` | packages/app-library/src/lifecycle.ts:30-51 | accepts exactly the graphs all of whose starts are acceptable; a fault names a start that is not |
| `ReplacementGraph.AcceptedExactly` | packages/app-library/src/schema.ts:127-141 | among schema-valid definitions, acceptance means every replacement is another, existing, active definition |
| `ReplacementGraph.ComparatorOrders` | packages/app-library/src/lifecycle.ts:19-28 | for any collation that orders texts, the comparator orders definitions, active ones first, with ties only between equal identifiers |

## Left out

- HTTP, WebSocket, SSE, Redis, tRPC, the service worker and process shutdown: plumbing around the modelled core.
- Permission checks, error texts, DTO mapping, catalogue data, OIDC and Docker negotiation: shallow.
- `tick`: its parts are modelled one by one, their sequence is not; every order of them is an execution of `DispatchProtocol`.
- `purgeHistory` and the removal of runs by a restore: they forget run keys by design.
- `AutomationStore.update` and its races with the scheduler: only `setEnabled` and deletion are modelled.
- The range of JavaScript dates, beyond which a Date is invalid.
- JSON numbers other than by their printed text, `-0` printed as `0` included; lone surrogates in strings.
- zod's parsing of rows other than the server settings, taken as a predicate; unknown keys in a manifest; reordering of keys by zod, which no digest sees.
- PostgreSQL's refusal of NUL characters and other constraint failures: one predicate decides which rows a table admits.
- Constraints between rows and between tables, such as unique and foreign keys: a restore they refuse fails like any other, and the insert order is proved complete, not sufficient for all of them.
- BackupRows.SerializeBackupRow: date columns that arrive as numbers or as text in another form than ISO are refused, because no driver column delivers them.
- BoardStore.Store.UpdateLayoutBatch: coordinates are integers; the validator's refusal of fractions is not modelled.
- JsonPath.ParseJsonPath: all refusals carry one error, because they share one code in the program.
- Debounce.FiringIsJustified: the rule's configuration is fixed over the run.
- Scheduler.AutomationScheduler.ClaimAndDispatch: store calls do not fail, so the paths that catch their exceptions are absent.
- Scheduler.AutomationScheduler.ProcessEvent: event types that `handleEvent` drops before it are not filtered again.
- RefreshProtocol.AnswersAreFresh: a request that fails before it reaches the cache simply gives up; rate limiting comes before the steps modelled.
- Error messages of trigger parsing, and the size and key checks of `assertSafeAutomationJson` before it.
- ReplacementGraph.ComparatorOrders: the collation of the locale is a parameter, taken to order texts.
