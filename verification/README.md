# Verification of the server's protocols and arithmetic

This project models the parts of the server in which a mistake would be quiet and expensive, and proves what they
promise. `dafny verify dfyconfig.toml` checks all of it.

The server drives Steam accounts: it keeps them logged in, lets schedules decide when they boost games, farms trading
cards, counts and caps playtime, and sells duplicate inventory items. It can also be restored offline from a backup.
Ten subjects are modelled:

- **Offline restore** (`RestoreProtocol`, `RestoreTool`). Three directories, a guard row with a durable fence, an
  exclusive lock and any number of processes that may die at every step. The protocol is a state machine; the tool is a
  set of classes whose traces are shown to be runs of it.
- **Market prices** (`Money`, `PriceRules`). Exact unit conversion, the rounded fee, the binary search under a buyer
  cap, the seller's own limits, and the totals of sale rows.
- **Schedules** (`ScheduleWindows`, `SchedulePreview`, `ZoneConversion`). One function evaluates wall-clock minutes,
  another enumerates dated windows; they agree. The preview's winner flag is compared with the coordinator's choice.
- **Schedule coordinator** (`ScheduleCoordinator`, `TickLoop`). Persisted start and stop markers, the map in memory,
  refused commits, retries, restarts, and the folding of tick requests.
- **Card farming** (`FarmingProtocol`, `FarmingController`, `FarmingSelection`). Generations against overtaken
  continuations at every await, and the choice of the games that run.
- **Playtime** (`BoostSessions`). Sessions that rotate without the caps noticing.
- **Selling** (`SaleLedger`, `SaleProtocol`, `Selling`). Reservations, the inventory with copies that may still leave,
  and the planning of batches.
- **Batch queue** (`BatchQueue`). Jobs in order, at most once, one at a time per account.
- **Price limiter** (`PriceLimiter`). Two slots, a line of forty, a cooldown.
- **Retries of a worker** (`RetryTimers`, `SteamWorker`). Timers, queued operations and the intent generation.

Where the source works step by step on objects, the model is a class or a method with the same branches, and its
contract ties the new state to a function of the old one; theorems about whole runs are lemmas about that function.
Awaits are the boundaries of atomic steps. `Results`, `Numbers` and `Sorting` are shared helpers.

Where the environment may fail, ghost counters keep track of its faults, so that contracts can say what happens without
any: a valid backup is installed, a schedule's transition is done, a favourable answer brings farming on. Laws about
what a result means are stated apart from the functions that compute it.

Environment that appears as input: the clock, time-zone offsets, file-system failures, database refusals, Steam's
answers and events and the order in which they arrive, whether a token exists, random identifiers (a counter stands for
them) and whether a guard of a caller still holds.

## Findings

The proofs also show where the code does not do quite what one would expect. The code is modelled as it is; each
statement below is a lemma, and where something can go wrong the exact condition is one too.

- The rest of a farming start after its advance is not guarded by the generation and can mark a later session as
  resumed (`FarmingProtocol.OvertakenStartMarksLaterSession`). `TailSparesLaterSession` and `OvertakenStartMarks` say
  exactly when; it can write nothing else.
- The preview can flag a window that lost, when the window that won has ended already
  (`SchedulePreview.FlagCanNameTheLoser`). `FlagOfStartedWindow` says exactly when.
- A tick request that arrives after the loop has returned but before its clean-up has run, or that was folded into a
  failing tick, is dropped. `TickLoop.RequestServedIff` says exactly which requests a loop serves; the next interval
  makes up for the others.
- An inventory reading that began before an asset arrived can release the reservation of that asset too early, because
  readings for display are not serialized with sales (`SaleProtocol.StaleReadingReleasesTooEarly`).
  `LateReadingSparesIff` says exactly when; `LateReadingIsHarmless`, `ReadingSinceCheckIsHarmless` and
  `ReadingSinceSubmissionIsHarmless` that it takes an arrival between the reading and a later check. The other safety theorems of selling take a reading and its evaluation as one step.
- An operation suspended at an await when a shutdown begins can still arm its timer afterwards
  (`RetryTimers.ShutdownMayLeaveTimer`). `ArmsAfterShutdownIff` and `ShutdownLeavesTimerIff` say exactly which
  operations do; the timer does nothing when it fires.
- The quarter-hour cap on reconnect delays is never reached; the backoff ends at 640 seconds
  (`RetryTimers.ReconnectDelayGrows`).

## Model

| member | source | states |
|---|---|---|
| `RestoreProtocol.StepKeepsInv` | apps/server/src/instance-lease.ts:63-195 | Any one step keeps the invariant: a process starting, taking the guard, being refused, reading, restoring, clearing the fence, releasing or dying; a rename, a removal or a staged write; and each of these failing without effect. |
| `RestoreProtocol.RunKeepsInv` | apps/server/src/restore.ts:82-234 | The invariant holds after every run of such steps by any number of processes. |
| `RestoreProtocol.EveryRunIsSafe` | apps/server/src/restore.ts:82-154 | In every run from an intact instance: a runtime holds the guard only over a directory that is whole and of one origin, a mixed directory always carries the fence, no two leases exist at once, and the holder of a lease owns the lock. |
| `RestoreProtocol.LineageIsOriginalOrBackup` | apps/server/src/restore.ts:165-234 | What the directory holds at the end of a run is the instance it began with or one backup that a restore of that run verified; nothing is ever mixed or invented. |
| `RestoreProtocol.FenceSurvivesCrash` | apps/server/src/instance-lease.ts:114-118 | Once the restoring process has died with the fence set, no later process takes the guard and no file changes any more. |
| `RestoreProtocol.DuplicateOpenWouldLoseLock` | apps/server/src/instance-lease.ts:69-74 | Why one process may open the guard file once only: were the holder of any lease to open and close it again, the lock would be gone, and any other process could take a second lease exactly when the fence is down. |
| `RestoreProtocol.DoKeepsFence` | apps/server/src/restore.ts:165-234 | No file operation of the tool touches the fence. |
| `RestoreTool.DataDirectory.Perform` | apps/server/src/restore.ts:189-199 | A rename or removal happens as the protocol describes it or fails without effect, and leaves a trace entry. |
| `RestoreTool.DataDirectory.StageFile` | apps/server/src/restore.ts:122-128 | A decrypted entry lands in the staging directory or nothing changes. |
| `RestoreTool.DataDirectory.RemoveTree` | apps/server/src/restore.ts:205-223 | A recursive removal may stop anywhere: what is left is a part of what was there, the directory itself goes last, and nothing is left when it succeeds. |
| `RestoreTool.InstanceLease.Acquire` | apps/server/src/instance-lease.ts:63-162 | Taking the guard succeeds for an unregistered process, a free lock and an unfenced directory unless a fault occurs, and for no other, and then sets lock, owner and, for a restore, the fence; every failure leaves all three as they were. |
| `RestoreTool.InstanceLease.CompleteRestore` | apps/server/src/instance-lease.ts:166-184 | The fence is cleared by its own owner, unless a fault occurs, or not at all. |
| `RestoreTool.InstanceLease.Release` | apps/server/src/instance-lease.ts:186-195 | Releasing drops registration and lock and never touches the fence. |
| `RestoreTool.Installer.Identity` | apps/server/src/restore.ts:299-305 | An identity that is read is the identity of the plain file at that path. |
| `RestoreTool.Installer.MoveCurrentFiles` | apps/server/src/restore.ts:189-195 | Only a fault stops the moving; when it succeeds every original file is in the rollback directory and the backup is fully staged; after a fault the midway invariant ties data, staging and rollback to the list of moved files. |
| `RestoreTool.Installer.MoveFile` | apps/server/src/restore.ts:189-195 | One current file, if it is there, is moved after its identity was noted; a failure of either leaves the midway invariant. |
| `RestoreTool.Installer.InstallReplacements` | apps/server/src/restore.ts:196-199 | Only a fault stops the installing; when it succeeds the data directory equals the backup; after a fault the midway invariant still accounts for every file. |
| `RestoreTool.Installer.VerifyInstall` | apps/server/src/restore.ts:200-205 | Both installed files are read again on the disk from which the staging directory is then dropped; the data directory is not touched, and only a fault makes it fail. |
| `RestoreTool.Installer.Uninstall` | apps/server/src/restore.ts:207-211 | Undoing the installed files, newest first, keeps the midway invariant, and on success none is left installed. |
| `RestoreTool.Installer.MoveBack` | apps/server/src/restore.ts:212-215 | Moving the originals back, newest first, keeps the midway invariant, and on success the data directory equals the original. |
| `RestoreTool.Installer.RollBack` | apps/server/src/restore.ts:206-233 | Only a fault stops a rollback: one that reports success has restored exactly the original directory, read every original file again and then removed the rollback directory; wherever it gets stuck, every original file is still in the data or the rollback directory. |
| `RestoreTool.MoveKeepsMidway` | apps/server/src/restore.ts:189-195 | Moving one current file out keeps every file of the original and of the backup accounted for in exactly the directory the lists say. |
| `RestoreTool.InstallKeepsMidway` | apps/server/src/restore.ts:196-199 | Installing one staged file keeps every file of the original and of the backup accounted for in exactly the directory the lists say. |
| `RestoreTool.UninstallKeepsMidway` | apps/server/src/restore.ts:208-211 | Taking back the newest installed file keeps every file of the original and of the backup accounted for in exactly the directory the lists say. |
| `RestoreTool.UnmoveKeepsMidway` | apps/server/src/restore.ts:212-215 | Moving the newest moved file back keeps every file of the original and of the backup accounted for in exactly the directory the lists say. |
| `RestoreTool.InstallRestore` | apps/server/src/restore.ts:165-234 | No fault means done: the directory is the backup and the rollback directory holds the original. One fault means undone: the directory is the original. A failed rollback takes a second fault. In every outcome every original file is retained, and every file state on the way is a step of the protocol. |
| `RestoreTool.StagedIdentities` | apps/server/src/restore.ts:182-187 | The identities read from staging before anything moves are those of the backup. |
| `RestoreTool.InstallOrRollBack` | apps/server/src/restore.ts:188-233 | Moving, installing and verifying succeed unless a fault occurs; one fault is rolled back, and it takes a second one to keep the original from being back. Nothing is dropped before the files in the data directory were read again. |
| `RestoreTool.StageBackup` | apps/server/src/restore.ts:120-133 | Staging that succeeds holds exactly the backup; it fails only for a fault or for a backup that does not pass validation. |
| `RestoreTool.AttemptRestore` | apps/server/src/restore.ts:112-149 | A valid backup is installed exactly when no fault occurs and nothing was left over by an earlier restore; leftovers are refused untouched; after one fault the fence may come down over the original and staging is gone; never after an incomplete rollback; no original file is lost. |
| `RestoreTool.RestoreBackup` | apps/server/src/restore.ts:82-154 | Where no fault occurs the outcome follows from the directory and the backup alone: not acquired when registered, locked or fenced, refused when unreadable, invalid or with leftovers, and otherwise installed. An incomplete restore takes two faults. The fence comes down only over a whole directory; every outcome retains every original file; and the disk states it went through are the trace of a protocol run. |
| `RestoreTool.FileStepsKeepFence` | apps/server/src/restore.ts:165-234 | Along any trace of file operations the fence stays as it was. |
| `RestoreTool.TraceIsRun` | apps/server/src/restore.ts:165-234 | Every trace of file operations the tool leaves is a run of the protocol within its lease. |
| `RestoreTool.ToolIsRun` | apps/server/src/restore.ts:82-154 | The whole command is a run of the protocol: taking the lease, the file operations, clearing the fence if the contract of the command lets it, and releasing. What the protocol demands before the fence may fall is what the command delivers, so the safety theorems hold of it. |
| `RestoreTool.ToolDeathSealsDirectory` | apps/server/src/restore.ts:82-154 | Let the tool die after any of its operations: whatever processes try afterwards, nobody gets a lease and the directory stays as it was left. |
| `RestoreTool.Installer.MoveAway` | apps/server/src/restore.ts:193-195 | A file whose identity was noted is renamed into the rollback directory and listed as moved, or a fault leaves everything as it was. |
| `RestoreTool.Installer.InstallFile` | apps/server/src/restore.ts:196-199 | A staged file is renamed into the data directory and listed as installed, or a fault leaves everything as it was. |
| `RestoreTool.Installer.ConfirmReplacements` | apps/server/src/restore.ts:200-204 | Every replacement is read again in the data directory; only a fault makes this fail. |
| `RestoreTool.Installer.ConfirmOriginals` | apps/server/src/restore.ts:216-222 | Every original whose identity was noted is read again in the data directory; only a fault makes this fail. |
| `RestoreTool.Installer.DropRollback` | apps/server/src/restore.ts:216-223 | The rollback directory is removed only after every original was read again. |
| `Money.TrailingZeroScalesRate` | apps/server/src/inventory/money.ts:58-68 | A percentage written with one more zero gives the same fraction, numerator and denominator ten times as large. |
| `Money.ParsedWalletIsValid` | apps/server/src/inventory/money.ts:77-124 | A wallet is accepted exactly when it can be used at all, and then every amount is the one its own field carries: a market minimum takes the place of the older minimum and the base fee, a disabled fee is a rate of zero, and the rates are the decimals of their texts. |
| `Money.ParseRateIsDecimal` | apps/server/src/inventory/money.ts:58-68 | A rate is accepted exactly when its text is a decimal of at most eight places and at most one, and the fraction is the value of that decimal, place by place. |
| `Money.ToMinorUnitsIsProportional` | apps/server/src/inventory/money.ts:126-142 | The conversion to minor units answers exactly when both amounts are safe integers in exact proportion, and with that amount; negative amounts included. |
| `Money.FromMinorUnitsIsProportional` | apps/server/src/inventory/money.ts:144-160 | The conversion back answers under exactly the same relation. |
| `Money.ConversionsInvert` | apps/server/src/inventory/money.ts:126-160 | One conversion maps a to b if and only if the other maps b to a. |
| `Money.ConversionIsAdditive` | apps/server/src/inventory/money.ts:126-142 | Converting a sum gives the sum of the conversions. |
| `Money.ConversionScales` | apps/server/src/inventory/money.ts:126-142 | Converting a multiple gives the multiple of the conversion. |
| `Money.ConversionIsMonotone` | apps/server/src/inventory/money.ts:126-142 | A larger amount never converts to a smaller one. |
| `Money.RoundIsNearest` | apps/server/src/inventory/money.ts:292-303 | Rounding lands on the multiple of the increment nearest to the amount, halves going up. |
| `Money.FeeMonotone` | apps/server/src/inventory/money.ts:292-303 | The floored, minimum-clamped, half-up-rounded fee never falls when the base rises. |
| `Money.FeeStep` | apps/server/src/inventory/money.ts:292-303 | One grid step raises a fee by at most one increment. |
| `Money.FeeOnGrid` | apps/server/src/inventory/money.ts:292-303 | Every fee lies on the price grid. |
| `Money.FeeIgnoresTrailingZero` | apps/server/src/inventory/money.ts:58-68 | The way a percentage is written does not change what it costs. |
| `Money.BuyerPaysStrictlyMonotone` | apps/server/src/inventory/money.ts:304-343 | The buyer total grows at least as fast as the base. |
| `Money.FitsDownward` | apps/server/src/inventory/money.ts:304-343 | If a base fits the cap so does every smaller one: the order the binary search relies on. |
| `Money.NothingFitsAboveCap` | apps/server/src/inventory/money.ts:304-343 | No base above the initial upper bound of the search fits. |
| `Money.LargestFittingUnitIsBest` | apps/server/src/inventory/money.ts:304-343 | A unit that fits while the next one does not is the best base. |
| `Money.QuoteFromBuyerCap` | apps/server/src/inventory/money.ts:304-343 | The binary search returns the largest base that is on the grid, at least the minimum, and fits the cap with both fees; it fails exactly when even the minimum does not fit, or when the publisher fee cannot be parsed. |
| `Money.QuoteGapBelowThreeIncrements` | apps/server/src/inventory/money.ts:292-343 | A quote misses the cap by less than three increments. |
| `Money.QuoteGapIsTight` | apps/server/src/inventory/money.ts:292-343 | A wallet and a cap for which the gap is three increments less one. |
| `Money.HigherCapNeverPaysLess` | apps/server/src/inventory/money.ts:304-343 | Raising the cap never lowers what the seller receives. |
| `Money.ParseRateIsRateOf` | apps/server/src/inventory/money.ts:58-68 | A text is read as a rate exactly when the rate is its decimal, in as many parts as it has places. |
| `Money.FeeIsCharged` | apps/server/src/inventory/money.ts:292-303 | What a fee is, apart from how it is computed: nothing at a rate of zero, the minimum while the whole units of the share are no more than it, and from there the multiple of the increment nearest to them, halves up; no other amount is the fee. |
| `Money.FeeAtLeastMinimum` | apps/server/src/inventory/money.ts:293-295 | At a positive rate no fee is below the minimum, and it is the minimum while the exact share is below the next unit. |
| `Money.CalculateIsQuote` | apps/server/src/inventory/money.ts:313-322 | A quote is computed exactly when its total is the base and both fees, each charged on the base, with the base fee of the wallet in the Steam fee. |
| `Money.BestQuoteFits` | apps/server/src/inventory/money.ts:304-343 | The same over all quotes there are: the answer fits the cap and none that fits has a larger base; the refusal means that none fits. |
| `Money.PublisherRateInForce` | apps/server/src/inventory/money.ts:309-312 | The publisher rate in force is the listing's own text where it has one, or else the wallet's default. |
| `PriceRules.CheckBoundsIsInsideLimits` | apps/server/src/inventory/money.ts:271-284 | The check passes exactly for a price that converts and lies inside the limits as the user wrote them, and otherwise names the price as outside or as not convertible. |
| `PriceRules.QuoteWithRules` | apps/server/src/inventory/money.ts:243-291 | A price comes out exactly when settings, reference, cap, fee and limits allow one, and then it is the promised one: best under the cap, within the limits, less than three increments below the cap. A refusal names the first reason in the order they are looked for. |
| `PriceRules.BestBaseIsUnique` | apps/server/src/inventory/money.ts:304-343 | There is at most one best base. |
| `PriceRules.NoBestBaseBelowMinimum` | apps/server/src/inventory/money.ts:304-343 | Below the price of the minimum base there is none. |
| `PriceRules.QuoteNeverBreaksUpperLimit` | apps/server/src/inventory/money.ts:285-289 | The second limit check can fail on the lower limit only. |
| `PriceRules.SaleRowBalances` | apps/server/src/inventory/service.ts:1146-1183 | Every ready sale row satisfies buyer total = seller total + Steam fee + publisher fee, although totals are converted once and fees per item. |
| `PriceRules.BatchTotalsBalance` | apps/server/src/inventory/batch.ts:124-139 | The batch totals are the sums of the rows and balance as well. |
| `PriceRules.SettingsAcceptedIff` | apps/server/src/inventory/money.ts:176-240 | Settings are accepted exactly when they are well formed, own amounts name the wallet's currency, the limits leave room and every amount is exact and on the price grid. |
| `PriceRules.MismatchIsNamed` | apps/server/src/inventory/money.ts:208-219 | Prices saved for another currency are named as such whatever else is off with them. |
| `PriceRules.CapIsAdjustedReference` | apps/server/src/inventory/money.ts:254-270 | There is a cap exactly for acceptable settings, a reference on the grid and a sum in range, and it is the reference plus the adjustment in Steam's units. |
| `PriceRules.SaleRowIsExact` | apps/server/src/inventory/service.ts:1146-1183 | A row is ready exactly when its prices convert, one by one and together, and shows these amounts: the totals converted, the fees converted per item and multiplied. |
| `PriceRules.QuotedRowIsReady` | apps/server/src/inventory/service.ts:1146-1183 | Any quote under a cap gives a ready row for any quantity that can be sold at once, where the base fee of the wallet converts. |
| `PriceRules.TotalsAddUp` | apps/server/src/inventory/batch.ts:129-136 | The total of two batches is the sum of their totals, and a single row counts with its amount. |
| `ScheduleWindows.BeforeIffLocalMinute` | apps/server/src/steam/scheduler.ts:136-156 | Comparing instants of whole-minute zones is comparing local minutes. |
| `ScheduleWindows.TextOrderIsMinuteOrder` | apps/server/src/steam/schedule-preview.ts:73 | The text order of HH:mm is the order of minutes. |
| `ScheduleWindows.EvaluateAgreesWithWindows` | apps/server/src/steam/scheduler.ts:47-108 | The evaluator is active at an instant exactly when one dated window contains it, with the same id and start, overnight windows included. |
| `ScheduleWindows.OneWindowPerInstant` | apps/server/src/steam/scheduler.ts:47-108 | Windows of one schedule never overlap. |
| `ScheduleWindows.BestIsMaximal` | apps/server/src/steam/scheduler.ts:15-35 | The winner is a contender, none started later, among those that started together none was edited later, among those edited together none has a larger id; there is none exactly when nobody competes. |
| `ScheduleWindows.BestIgnoresOrder` | apps/server/src/steam/scheduler.ts:15-35 | The choice does not depend on the order in which the schedules are listed. |
| `ScheduleWindows.CompetesIffActive` | apps/server/src/steam/schedule-coordinator.ts:226-259 | A schedule competes exactly when it is enabled, active and not skipped. |
| `ScheduleWindows.ContendersAreWindows` | apps/server/src/steam/scheduler.ts:15-35 | Who competes are exactly the unskipped dated windows of enabled schedules that contain the instant. |
| `ScheduleWindows.WinnerIsForemost` | apps/server/src/steam/scheduler.ts:15-36 | Over schedules and their dated windows: the winner is an unskipped window of an enabled schedule that is running, no such window started later, ties go by edit and id, and there is none only when no such window is running. |
| `ScheduleWindows.ClockOfZones` | apps/server/src/steam/scheduler.ts:136-160 | Midnight at the start of the epoch was a Thursday, a day later shows the next date and weekday, and a zone further east shows what Greenwich shows that much later. |
| `SchedulePreview.LocalDateKeys` | apps/server/src/steam/schedule-preview.ts:140-146 | Sampling every twelve hours yields consecutive local dates from the first one on and misses at most the last. |
| `SchedulePreview.MeetingWindowIsSampled` | apps/server/src/steam/schedule-preview.ts:48-80 | Every window that meets the range falls on a sampled date: the day of margin on both sides is enough. |
| `SchedulePreview.ScheduleItems` | apps/server/src/steam/schedule-preview.ts:48-96 | The windows of one schedule, date by date: all that meet the range, each once, and nothing else. |
| `SchedulePreview.Enumerate` | apps/server/src/steam/schedule-preview.ts:46-97 | The list holds every meeting window of every enabled schedule once, and nothing else. |
| `SchedulePreview.MarkItems` | apps/server/src/steam/schedule-preview.ts:99-125 | Marking in place sets, on each item, the conflicts and the winner flag that the unmarked list determines. |
| `SchedulePreview.ConflictsAreMutual` | apps/server/src/steam/schedule-preview.ts:100-108 | Of two overlapping windows each names the schedule of the other. |
| `SchedulePreview.BuildPreview` | apps/server/src/steam/schedule-preview.ts:17-138 | The preview is complete and marked, and sorted by start; windows that start together stay in the order they were found. |
| `SchedulePreview.SameContenders` | apps/server/src/steam/schedule-preview.ts:109-123 | From now on, the listed windows and the evaluated schedules name the same contenders at every instant of the range. |
| `SchedulePreview.WinnerFlagIsCoordinatorChoice` | apps/server/src/steam/schedule-preview.ts:109-124 | For a window starting from now on, the winner flag is the choice of the coordinator at that start. |
| `SchedulePreview.FlagOfStartedWindow` | apps/server/src/steam/schedule-preview.ts:80-124 | For any listed window: the coordinator chose it at its start if and only if the flag is set and no window that was running then, and is over by now, beats it. |
| `SchedulePreview.ContendersUnlessOver` | apps/server/src/steam/schedule-preview.ts:80-115 | At any instant before the end of the range the list names exactly the windows that were running then and are not over by now. |
| `SchedulePreview.FlagCanNameTheLoser` | apps/server/src/steam/schedule-preview.ts:80-124 | Two schedules and a moment for which the preview flags a window that the coordinator did not start. |
| `SchedulePreview.MeetsIffContains` | apps/server/src/steam/schedule-preview.ts:80 | A window is within the range exactly when it contains an instant of it. |
| `SchedulePreview.ConflictsTellOverlaps` | apps/server/src/steam/schedule-preview.ts:98-108 | An item names a schedule as a conflict exactly when another listed window of that schedule has an instant in common with it. |
| `ZoneConversion.LocalTimeToEpoch` | apps/server/src/steam/scheduler.ts:174-203 | The loop returns the third correction; in any zone it shows the wanted local time exactly when the last two candidates are under the same offset; and around a single change of offset exactly when such an instant exists. |
| `ZoneConversion.ReachedIff` | apps/server/src/steam/scheduler.ts:182-203 | The exact condition for any zone: the last two candidates are under the same offset. |
| `ZoneConversion.TwoCorrectionsReachTarget` | apps/server/src/steam/scheduler.ts:182-200 | Where only two offsets are in force within the largest offset of the wanted time, two corrections are enough and the third keeps the result. |
| `ZoneConversion.SkippedTimeFallsBack` | apps/server/src/steam/scheduler.ts:182-203 | A local time skipped by such a change is read with the offset in force just at the target. |
| `ZoneConversion.ThreeOffsetsCanMiss` | apps/server/src/steam/scheduler.ts:182-203 | Two offsets are the limit of the method: a made-up zone with three of them nearby, in which an existing local time is missed. |
| `ZoneConversion.ConstantZoneIsToEpoch` | apps/server/src/steam/scheduler.ts:174-203 | In a zone with one offset the loop computes the very instant that the evaluation and the enumeration of windows use, and it shows the wanted time. |
| `ScheduleCoordinator.ScheduleRepository.StopRow` | apps/server/src/steam/schedule-repository.ts:47-70 | The conditional update changes the one matching row or none. |
| `ScheduleCoordinator.ScheduleRepository.MarkWindowsStopped` | apps/server/src/steam/schedule-repository.ts:47-70 | All rows are stopped or none changes; only a row that does not match or a failing transaction refuses it. |
| `ScheduleCoordinator.ScheduleRepository.CommitStartedWindow` | apps/server/src/steam/schedule-repository.ts:71-126 | Starting one window and stopping the others is one update: all of it, or nothing when a row has changed or the transaction fails, and never nothing otherwise. |
| `ScheduleCoordinator.OpenWindowsAreOpenSet` | apps/server/src/steam/schedule-coordinator.ts:405-417 | The open windows computed from the entries are exactly the started and not stopped markers of the account. |
| `ScheduleCoordinator.CommitLeavesOnlyWinner` | apps/server/src/steam/schedule-repository.ts:71-126 | After a commit exactly the window of the winner is open, whatever was open before. |
| `ScheduleCoordinator.StopLeavesNothingOpen` | apps/server/src/steam/schedule-repository.ts:47-70 | After stopping, no window of the account is open. |
| `ScheduleCoordinator.RetryDelayGrows` | apps/server/src/steam/schedule-coordinator.ts:123-136 | Retry delays never shrink, and stand at sixty minutes from the seventh failure on. |
| `ScheduleCoordinator.Coordinator.RecordTransitionFailure` | apps/server/src/steam/schedule-coordinator.ts:123-136 | The same failing transition counts up, another one starts over, and other accounts are not touched. |
| `ScheduleCoordinator.Coordinator.ClearAccount` | apps/server/src/steam/schedule-coordinator.ts:108-111 | Clearing forgets one account and no other. |
| `ScheduleCoordinator.Coordinator.TransitionAccount` | apps/server/src/steam/schedule-coordinator.ts:261-354 | After a transition that is done, markers and memory leave exactly the winner's window open, and Steam was asked for just what that took: preset and start, a pause, or nothing. A hold is respected, a recent failure of the same transition waited out, and nothing but a fault keeps any other transition from being done; one that is not done changes neither markers nor memory; other accounts and schedules are untouched. |
| `ScheduleCoordinator.Coordinator.StartAccountWindow` | apps/server/src/steam/schedule-coordinator.ts:276-354 | The same for the branch with a winner. |
| `ScheduleCoordinator.Coordinator.AdoptWindow` | apps/server/src/steam/schedule-coordinator.ts:286-311 | A window that is open already is taken over: everything else is stopped, or nothing changes. |
| `ScheduleCoordinator.Coordinator.ApplyWindow` | apps/server/src/steam/schedule-coordinator.ts:313-354 | A window that is not open is started in Steam, in the markers and in memory, or markers and memory stay and the failure is noted for a later retry. |
| `ScheduleCoordinator.Coordinator.StopAccountWindow` | apps/server/src/steam/schedule-coordinator.ts:356-394 | The same for the branch without one. |
| `ScheduleCoordinator.StartedNeedsNoStart` | apps/server/src/steam/schedule-coordinator.ts:276-300 | Once the markers say the window has started, no further start is needed. |
| `ScheduleCoordinator.WindowStartsOnce` | apps/server/src/steam/schedule-coordinator.ts:276-354 | However successful ticks, fruitless ticks and restarts alternate, the account is started at most once for one winning window. |
| `ScheduleCoordinator.Coordinator.StartInSteam` | apps/server/src/steam/schedule-coordinator.ts:322-330 | The preset is applied, the hold looked at again, and the account started, in this order; only a fault or a hold stops it. |
| `ScheduleCoordinator.Coordinator.CommitStart` | apps/server/src/steam/schedule-coordinator.ts:331-339 | The markers, then the memory, leave exactly the winner's window open; only a failing transaction keeps both as they were. |
| `ScheduleCoordinator.Coordinator.MarkStopped` | apps/server/src/steam/schedule-coordinator.ts:376-378 | The markers, then the memory, leave nothing open; only a failing transaction keeps both as they were. |
| `ScheduleCoordinator.ScheduleRepository.StopOthers` | apps/server/src/steam/schedule-repository.ts:72-97 | The rows of all other windows are stopped exactly when every one of them matches. |
| `ScheduleCoordinator.CommitIsAllowed` | apps/server/src/steam/schedule-coordinator.ts:280-284 | What a transition asks of the markers it has just read is never refused for what they say. |
| `ScheduleCoordinator.CommitKeepsOthers` | apps/server/src/steam/schedule-repository.ts:71-126 | A commit changes markers of its own account only, and no schedule. |
| `ScheduleCoordinator.StopKeepsOthers` | apps/server/src/steam/schedule-repository.ts:47-70 | So does a stop. |
| `TickLoop.RequestsAreServed` | apps/server/src/steam/schedule-coordinator.ts:84-106 | In every run a loop that returns well has ticked at or after every instant requested while it ticked, at ascending instants. |
| `TickLoop.RequestServedIff` | apps/server/src/steam/schedule-coordinator.ts:84-106 | Exactly which requests made during a loop it serves, over every run of further requests and ticks: those a tick had served before; those for the instant of the tick in flight or an earlier one, if that tick ends well; later ones, if that tick and the next one end well. |
| `TickLoop.ReturningWellServes` | apps/server/src/steam/schedule-coordinator.ts:193-202 | A loop that was still ticking at the request and returns well has served it. |
| `TickLoop.RequestBeforeCleanUp` | apps/server/src/steam/schedule-coordinator.ts:97-103 | A request between the return of a loop and its clean-up is thrown away, whatever else is requested; it is served if and only if the last good tick was late enough already. |
| `TickLoop.FailureDropsRequest` | apps/server/src/steam/schedule-coordinator.ts:97-103 | A request folded into the tick in flight, or into the one after it, is thrown away when that tick fails. |
| `TickLoop.TickGate.Tick` | apps/server/src/steam/schedule-coordinator.ts:84-106 | A request starts a loop or is noted as the trailing one when it is the latest. |
| `TickLoop.TickGate.GoRound` | apps/server/src/steam/schedule-coordinator.ts:193-202 | The loop goes on with the trailing instant, if there is one, and returns otherwise. |
| `TickLoop.TickGate.RunCleanUp` | apps/server/src/steam/schedule-coordinator.ts:97-103 | The clean-up forgets the loop and whatever was noted since. |
| `TickLoop.BurstCostsOneTick` | apps/server/src/steam/schedule-coordinator.ts:84-107 | An idle coordinator ticks at once; any burst of requests meanwhile costs one tick more, for the latest of them, and none when no request is later than the tick under way; then the loop returns. |
| `FarmingProtocol.StepKeepsInv` | apps/server/src/farming/controller.ts:117-243 | Every call, timer and answer at an await keeps the invariant on session, timers and suspended tasks. |
| `FarmingProtocol.RunKeepsInv` | apps/server/src/farming/controller.ts:117-243 | So does every interleaving. |
| `FarmingProtocol.OneDriverInEveryRun` | apps/server/src/farming/controller.ts:400-505 | In every interleaving an active session has exactly one driver, an idle one none; there is never a second live task or timer, an advance waiting for the end of its run included; and games are reported exactly while warming or farming. |
| `FarmingProtocol.OnlyLiveTask` | apps/server/src/farming/controller.ts:400-505 | While a live task is suspended no timer is set, no other task is live, and the session is active exactly if the task drives it. |
| `FarmingProtocol.ResumeAdvanceKeepsInv` | apps/server/src/farming/controller.ts:400-505 | Each stretch of advance between two awaits keeps the invariant. |
| `FarmingProtocol.OvertakenTaskChangesNothing` | apps/server/src/farming/controller.ts:400-505 | An advance or scan that has been overtaken once changes no session any more, however much later its await ends and whatever happens meanwhile. |
| `FarmingProtocol.GenerationOnlyGrows` | apps/server/src/farming/controller.ts:199-239 | The generation of a session never falls. |
| `FarmingProtocol.GenerationTellsOvertaken` | apps/server/src/farming/controller.ts:199-239 | Over a run the generation differs exactly when a halt, stop or shutdown, a start or scan that was let in, or a failure or refusal of the current advance came in between. |
| `FarmingProtocol.HaltedGuardStaysFalse` | apps/server/src/farming/controller.ts:199-239 | The guard handed out before a halt, stop or shutdown is false ever after, re-initialisation included. |
| `FarmingProtocol.TailSparesLaterSession` | apps/server/src/farming/controller.ts:173-177 | The rest of start, resumed over a session of another generation, leaves it alone exactly when the start was no resumption, nothing is active, or the session is marked already. |
| `FarmingProtocol.TailWritesOnlyReason` | apps/server/src/farming/controller.ts:173-177 | What the rest of start writes, if anything, is the mark "resumed" and nothing else. |
| `FarmingProtocol.OvertakenStartMarks` | apps/server/src/farming/controller.ts:151-179 | Over whole runs: the rest of a start finds another generation exactly when something has overtaken it, and then it marks a foreign session exactly when the start was a resumption and an unmarked session is active, which takes another start or scan in between. |
| `FarmingProtocol.ActiveSinceLetIn` | apps/server/src/farming/controller.ts:117-179 | Without another start or scan no other session becomes active. |
| `FarmingProtocol.OvertakenStartMarksLaterSession` | apps/server/src/farming/controller.ts:151-179 | A run in which it happens. |
| `FarmingProtocol.StepTakesBack` | apps/server/src/farming/controller.ts:400-505 | In one step: an end is begun exactly by a stop, and by a current advance that leaves the session idle after Steam was told of games. |
| `FarmingProtocol.EveryRunTakesBack` | apps/server/src/farming/controller.ts:400-505 | After every run: Steam was handed a list exactly when the session counts as applied, the games reported are the list it was handed last unless an apply is in flight, and no run is given up behind Steam's back: completion, refusal and failure of a told run begin an end at that very step, and nothing but a stop begins one otherwise. |
| `FarmingProtocol.GivenUpFor` | apps/server/src/farming/controller.ts:407-421 | How a run ends tells why: an error is a failure, a refusal blocks the session for the reason given, and only an empty choice completes it. |
| `FarmingProtocol.FavourableAnswer` | apps/server/src/farming/controller.ts:422-496 | A favourable answer settles the run or brings its advance one await nearer: begin before discover, a scan when one is due; the list chosen is applied and the list applied is farmed. |
| `FarmingProtocol.UndisturbedAdvanceSettles` | apps/server/src/farming/controller.ts:400-496 | An advance that nothing overtakes and nothing fails has completed its run or is farming with a timer set after at most four answers. |
| `FarmingProtocol.HaltSilences` | apps/server/src/farming/controller.ts:199-231 | After a halt, stop or shutdown nothing is live any more; what was active is stopped or blocked for the reason given, what was idle keeps its phase unless the user stops it. |
| `FarmingProtocol.TimerGivesWay` | apps/server/src/farming/controller.ts:182-196 | A farming session looks at its games again when its timer fires, and at once when the settings change. |
| `FarmingProtocol.ScanAndStartEnd` | apps/server/src/farming/controller.ts:131-178 | A scan leaves the session stopped or failed, and the rest of a start marks its own session if that was to resume. |
| `FarmingController.Controller.Halt` | apps/server/src/farming/controller.ts:199-213 | Halting raises the generation and clears timer and games in place: exactly the step of the protocol, and the invariant is kept. |
| `FarmingController.Controller.Start` | apps/server/src/farming/controller.ts:151-179 | A start is refused, superseded, or opens a session and suspends its advance: exactly the step of the protocol, and the invariant is kept. |
| `FarmingController.Controller.ScanBadges` | apps/server/src/farming/controller.ts:117-149 | A scan is refused, superseded, or opens a generation of its own: exactly the step of the protocol, and the invariant is kept. |
| `FarmingController.Controller.Reconfigure` | apps/server/src/farming/controller.ts:182-196 | Reconfiguring selects again at once between ticks and leaves an advance in flight alone: exactly the step of the protocol, and the invariant is kept. |
| `FarmingController.Controller.Stop` | apps/server/src/farming/controller.ts:215-224 | A stop halts and leaves only the end of the run in flight: exactly the step of the protocol, and the invariant is kept. |
| `FarmingController.Controller.BeginShutdown` | apps/server/src/farming/controller.ts:226-230 | A shutdown halts and keeps every guard false: exactly the step of the protocol, and the invariant is kept. |
| `FarmingController.Controller.Initialize` | apps/server/src/farming/controller.ts:233-235 | Initialising again revives no guard: exactly the step of the protocol, and the invariant is kept. |
| `FarmingController.Controller.TimerExpires` | apps/server/src/farming/controller.ts:489-492 | A timer that fires resumes only its own generation: exactly the step of the protocol, and the invariant is kept. |
| `FarmingController.Controller.Continue` | apps/server/src/farming/controller.ts:400-505 | Any suspended call goes on from its await: exactly the step of the protocol, and the invariant is kept. |
| `FarmingController.Controller.ContinueAdvance` | apps/server/src/farming/controller.ts:400-505 | An advance goes on from each of its awaits, fails or is refused: exactly the step of the protocol, and the invariant is kept. |
| `FarmingController.Controller.UseChoice` | apps/server/src/farming/controller.ts:464-484 | A selection completes the run, keeps it or applies new games: exactly the step of the protocol, and the invariant is kept. |
| `FarmingController.Controller.KeepRunning` | apps/server/src/farming/controller.ts:485-493 | The running games are noted and the timer is set: exactly the step of the protocol, and the invariant is kept. |
| `FarmingSelection.FilterGames` | apps/server/src/farming/controller.ts:278-298 | Each game gets the skip reason of the first guard it fails. |
| `FarmingSelection.SkippedIffGuardFails` | apps/server/src/farming/controller.ts:278-298 | No reason is set exactly when blacklist, whitelist and refund guard all let the game pass. |
| `FarmingSelection.OrderGamesOrders` | apps/server/src/farming/controller.ts:304-341 | Ordering permutes the games and leaves no game in front of one that should come first; games equal in every respect keep the order they had. |
| `FarmingSelection.EligibleIffFarmable` | apps/server/src/farming/controller.ts:440-442 | Eligible are exactly the games with drops left that pass all guards. |
| `FarmingSelection.SelectionIsFarmable` | apps/server/src/farming/controller.ts:446-463 | The list handed to apply fits the limits, holds only farmable games and is empty only when nothing may run. |
| `FarmingSelection.SelectionObeysPinsAndWarmUp` | apps/server/src/farming/controller.ts:454-463 | If an eligible game is pinned the first by priority runs alone; otherwise the list is a batch all under 120 minutes, or a single game past it. |
| `FarmingSelection.ChooseGames` | apps/server/src/farming/controller.ts:439-463 | Filtering, ordering and selecting in one go: from any list of games, the chosen ones obey the limits, the guards, the pins and the warm-up rule at once. |
| `FarmingSelection.PinnedFirst` | apps/server/src/farming/controller.ts:304-341 | In an ordered list the head carries the smallest pin. |
| `FarmingSelection.ChosenStandFirst` | apps/server/src/farming/controller.ts:454-463 | No eligible game is passed over for one behind it, and a game is left out of a warm-up batch only when the batch is full. |
| `FarmingSelection.CreditPlaytime` | apps/server/src/farming/controller.ts:387-398 | The time since the last credit goes to the first entry of every running app, once for each time the app is listed, and to no other entry. |
| `FarmingSelection.DistinctAppsCreditedOnce` | apps/server/src/farming/controller.ts:387-398 | Where no app is listed twice every running game is credited just once. |
| `FarmingSelection.CreditsAddUp` | apps/server/src/farming/controller.ts:387-398 | Crediting at an intermediate moment changes nothing: two credits are one over the whole time, for every game. |
| `FarmingSelection.WarmUpIsNotRepeated` | apps/server/src/farming/controller.ts:245-277 | A game past the warm-up never falls back into it, whatever a later scan reports. |
| `FarmingSelection.ListedInOrder` | apps/server/src/farming/controller.ts:304-341 | Of two listed games: a pinned one is ahead of an unpinned one and pins keep their order; two unpinned ones are in the order chosen, dearest cards, most or fewest drops, most hours, oldest purchase or name first, unknown values last; level ones are in the order of the badge pages. |
| `FarmingSelection.ReasonNamesGuard` | apps/server/src/farming/controller.ts:278-301 | The reason shown is the first guard the game fails. |
| `FarmingSelection.LimitIsSmallest` | apps/server/src/farming/controller.ts:447-454 | The limit is the smallest of 32, the setting and what the session allows, and never below zero. |
| `FarmingSelection.ObservedIsLonger` | apps/server/src/farming/controller.ts:250-276 | After a scan the playtime is the longer of what the page shows and what was known; all else is as the page shows it. |
| `FarmingSelection.ElapsedIsMinutes` | apps/server/src/farming/controller.ts:387-398 | What is credited is the time since the last credit, in minutes, and never negative. |
| `BoostSessions.StepKeepsChronological` | apps/server/src/steam/boost-session-tracker.ts:19-201 | Every status change, heartbeat and recovery keeps the sessions of an account pairwise disjoint with at most one open, the last. |
| `BoostSessions.RunKeepsChronological` | apps/server/src/steam/boost-session-tracker.ts:19-201 | So does every run with a clock that does not go back, crashes and restarts included. |
| `BoostSessions.SessionTable.EndBoostSession` | apps/server/src/steam/boost-session-tracker.ts:173-201 | Ending closes exactly the open rows. |
| `BoostSessions.SessionTable.StartBoostSession` | apps/server/src/steam/boost-session-tracker.ts:36-130 | Starting opens, keeps or rotates the session as the selection demands. |
| `BoostSessions.SessionTable.TrackBoostSession` | apps/server/src/steam/boost-session-tracker.ts:19-34 | Boosting with something to attribute starts or rotates, anything else ends. |
| `BoostSessions.SessionTable.MarkOpenBoostSessionsSeen` | apps/server/src/steam/boost-session-tracker.ts:131-137 | A heartbeat stamps exactly the open rows. |
| `BoostSessions.SessionTable.CloseInterruptedBoostSessions` | apps/server/src/steam/boost-session-tracker.ts:138-172 | After a restart no row is open and the count is the number of rows that were. |
| `BoostSessions.SumWithinRange` | apps/server/src/steam/safety-coordinator.ts:215-225 | Disjoint sessions never count more than the elapsed part of the range. |
| `BoostSessions.SumGrowsWithRange` | apps/server/src/steam/safety-coordinator.ts:215-225 | A range that starts earlier never counts less. |
| `BoostSessions.DailyWithinWeekly` | apps/server/src/steam/safety-coordinator.ts:151-168 | Daily time is at most weekly time, and each is at most what has elapsed of its range. |
| `BoostSessions.ContinuousSessionMs` | apps/server/src/steam/safety-coordinator.ts:177-204 | The single pass over the closed sessions finds an unbroken chain that no session could extend. |
| `BoostSessions.MaximalChainIsUnique` | apps/server/src/steam/safety-coordinator.ts:177-204 | In rows that follow one another there is one such chain only. |
| `BoostSessions.RotationKeepsContinuousTime` | apps/server/src/steam/boost-session-tracker.ts:96-117 | Splitting the open session at any instant by a selection change leaves the continuous time as it was. |
| `BoostSessions.RotationKeepsSums` | apps/server/src/steam/boost-session-tracker.ts:96-117 | It leaves every daily and weekly sum as it was. |
| `BoostSessions.ExceededCap` | apps/server/src/steam/safety-coordinator.ts:134-175 | The reported cap is the first of session, daily and weekly limit that is reached, and none when none is. |
| `BoostSessions.StepRecords` | apps/server/src/steam/boost-session-tracker.ts:19-201 | What an event writes: sessions that are over stay as they are; an open one ends at the event with its reason, or, after a crash, when it was last seen alive; the target that is open already goes on; boosting adds the one row that is open then. |
| `BoostSessions.OpenWhileBoosting` | apps/server/src/steam/boost-session-tracker.ts:19-129 | An account has an open session, of what it boosts, exactly while it boosts. |
| `BoostSessions.SumIsRunningTime` | apps/server/src/steam/safety-coordinator.ts:215-225 | What is counted is exactly the number of milliseconds of the range in which a session was running. |
| `BoostSessions.StopBreaksContinuity` | apps/server/src/steam/safety-coordinator.ts:177-204 | After a real stop the continuous time begins with the next session, however soon that is. |
| `BoostSessions.ReachedInMinutes` | apps/server/src/steam/safety-coordinator.ts:206-213 | A limit is reached as soon as so many whole minutes have been consumed. |
| `PriceLimiter.Limiter.Schedule` | apps/server/src/inventory/price-reader.ts:152-194 | A call is refused exactly by a cooldown in force or a full line; otherwise it runs at once at a free slot or waits at the end of the line. Other calls keep settlements, slots and places. |
| `PriceLimiter.Limiter.Place` | apps/server/src/inventory/price-reader.ts:173 | A call that finds a slot free runs, unless a cooldown began meanwhile. |
| `PriceLimiter.Limiter.Queue` | apps/server/src/inventory/price-reader.ts:174-192 | A call that finds none waits at the end of the line, and nothing else changes. |
| `PriceLimiter.Limiter.Refuse` | apps/server/src/inventory/price-reader.ts:153-156 | A refusal settles the call and changes nothing else. |
| `PriceLimiter.Limiter.Start` | apps/server/src/inventory/price-reader.ts:158-172 | A call with a slot in reach starts, or is refused by a cooldown in force, in which case the next in line gets its turn; the recursion ends because the line gets shorter. |
| `PriceLimiter.Limiter.Pump` | apps/server/src/inventory/price-reader.ts:196-198 | Free slots go to the head of the line until none is free or nobody waits; each call leaves the line once, started or refused. |
| `PriceLimiter.Limiter.Finish` | apps/server/src/inventory/price-reader.ts:166-171 | A finished call is settled once and its slot goes to the line; outside a cooldown whoever leaves the line runs. |
| `PriceLimiter.Limiter.TimeOut` | apps/server/src/inventory/price-reader.ts:183-190 | A call that waited too long leaves the line and is settled, and the rest of the line keeps its order; one that has left already is not touched. |
| `PriceLimiter.Limiter.Withdraw` | apps/server/src/inventory/price-reader.ts:183-190 | The call leaves its place, the calls before and behind it keep their order. |
| `PriceLimiter.Limiter.RateLimited` | apps/server/src/inventory/price-reader.ts:143-150 | The cooldown never shrinks and never reaches more than five minutes ahead. |
| `PriceLimiter.Limiter.Recovered` | apps/server/src/inventory/price-reader.ts:399-402 | A successful read resets the steps only after the cooldown. |
| `PriceLimiter.CooldownSteps` | apps/server/src/inventory/price-reader.ts:143-150 | The steps are one, two and four minutes, then five. |
| `PriceLimiter.HeadStarts` | apps/server/src/inventory/price-reader.ts:158-172 | Starting the head of the line keeps every call accounted for once and the cooldown respected. |
| `PriceLimiter.HeadRefused` | apps/server/src/inventory/price-reader.ts:158-164 | Refusing the head of the line during a cooldown keeps every call in exactly one place. |
| `PriceLimiter.FreedRuns` | apps/server/src/inventory/price-reader.ts:165-172 | Outside a cooldown whoever a freed slot is handed to runs and nobody is refused. |
| `BatchQueue.EventKeepsInv` | apps/server/src/inventory/batch.ts:197-289 | Every reply, end of a pause and stop keeps the invariant of a job: its phase determines which items are settled, running and queued, which commands have begun, and the counter. |
| `BatchQueue.RunsInOrder` | apps/server/src/inventory/batch.ts:197-289 | Whatever the results, errors and stops: commands begin in order, at most once, none left out below the last; the counter equals the settled items; an ended job has every item settled and, unless stopped, every command begun. |
| `BatchQueue.NothingBeginsTooLate` | apps/server/src/inventory/batch.ts:200-231 | After a stop, or from the deadline on, no command begins, whatever still comes back. |
| `BatchQueue.AwaitsRunOut` | apps/server/src/inventory/batch.ts:206-268 | Every await that ends brings the end nearer: a batch of n commands is over after at most 2n awaits. |
| `BatchQueue.SubmissionsArePaced` | apps/server/src/inventory/batch.ts:214-232 | After a command that reached Steam the next begins only when a full pause is over. |
| `BatchQueue.AfterReplyKeepsInv` | apps/server/src/inventory/batch.ts:237-268 | Settling the running item, in every outcome, keeps the invariant. |
| `BatchQueue.AfterWaitKeepsInv` | apps/server/src/inventory/batch.ts:219-236 | The end of a pause, or its abortion, keeps it. |
| `BatchQueue.ChosenKeepsInv` | apps/server/src/inventory/batch.ts:206-236 | Going on to the next executable command keeps it. |
| `BatchQueue.OneUnfinishedJobEach` | apps/server/src/inventory/batch.ts:188-189 | Each account has at most one unfinished job. |
| `BatchQueue.JobStepKeepsConsistent` | apps/server/src/inventory/batch.ts:287-288 | A step of a job, its end included, keeps the active map naming exactly the unfinished jobs. |
| `BatchQueue.NewJobKeepsConsistent` | apps/server/src/inventory/batch.ts:181-189 | So does a new job under an idle account. |
| `BatchQueue.RetainedKeepsConsistent` | apps/server/src/inventory/batch.ts:85-90 | Pruning removes no job that still runs. |
| `BatchQueue.FirstCommandBegins` | apps/server/src/inventory/batch.ts:158-195 | A confirmed batch begins its first eligible command in the call that confirms it. |
| `BatchQueue.MarketBatchQueue.Prune` | apps/server/src/inventory/batch.ts:81-97 | Pruning drops exactly expired previews and jobs finished an hour ago, and refuses when 200 of either are left. |
| `BatchQueue.MarketBatchQueue.Create` | apps/server/src/inventory/batch.ts:105-142 | A preview is made exactly when the account is idle, there is room and 1 to 50 commands are given; it replaces the previews of the same owner for that account. |
| `BatchQueue.MarketBatchQueue.Confirm` | apps/server/src/inventory/batch.ts:143-196 | A job starts exactly when owner, time, eligibility, idleness and room allow; the owner uses up the token at the first try whatever becomes of it, and nobody else can. |
| `BatchQueue.MarketBatchQueue.StartConfirmed` | apps/server/src/inventory/batch.ts:148-195 | Expiry, eligibility, idleness and room decide in this order and each names its error; only then a job is entered. |
| `BatchQueue.MarketBatchQueue.Launch` | apps/server/src/inventory/batch.ts:160-190 | The new job is entered as the active one of its account. |
| `BatchQueue.MarketBatchQueue.BeginJob` | apps/server/src/inventory/batch.ts:158-195 | The new job is at its first await and unfinished. |
| `BatchQueue.MarketBatchQueue.Enter` | apps/server/src/inventory/batch.ts:188-189 | A job is entered under a new id as the active one of its idle account. |
| `BatchQueue.MarketBatchQueue.Run` | apps/server/src/inventory/batch.ts:206-236 | The loop over the commands goes on to the next await or the end. |
| `BatchQueue.MarketBatchQueue.Finish` | apps/server/src/inventory/batch.ts:273-289 | Finishing skips what is not settled, counts, and marks the job stopped or completed. |
| `BatchQueue.MarketBatchQueue.Handle` | apps/server/src/inventory/batch.ts:197-272 | Each await of a run, and a stop, does exactly the step of the job and clears the account when it has ended. |
| `BatchQueue.MarketBatchQueue.Settle` | apps/server/src/inventory/batch.ts:237-268 | The reply of a command settles its item and the run goes on. |
| `BatchQueue.MarketBatchQueue.Resume` | apps/server/src/inventory/batch.ts:219-236 | The end of a pause begins the command or stops the job. |
| `BatchQueue.MarketBatchQueue.Stop` | apps/server/src/inventory/batch.ts:307-316 | The owner stops an unfinished job; strangers, unknown and expired ids are not found. |
| `BatchQueue.MarketBatchQueue.StopAccount` | apps/server/src/inventory/batch.ts:317-328 | Stopping an account stops its unfinished job and drops its previews. |
| `BatchQueue.MarketBatchQueue.Shutdown` | apps/server/src/inventory/batch.ts:329-332 | After a shutdown every unfinished job is stopped and no preview is left. |
| `BatchQueue.StatusTells` | apps/server/src/inventory/batch.ts:236-256 | What an item says about its command: listed, waiting for confirmation or cancelled only after Steam said so, skipped exactly when nothing was submitted, failed in every other case. |
| `BatchQueue.ItemsTellReplies` | apps/server/src/inventory/batch.ts:206-270 | Over every run each item shows what its own command came back with, and no item shows an outcome that never came. |
| `BatchQueue.EndingReplyStops` | apps/server/src/inventory/batch.ts:262-270 | An error that ends the batch, or a rate limit, is the last thing a batch does. |
| `BatchQueue.UndisturbedCompletes` | apps/server/src/inventory/batch.ts:206-275 | A job stops early for no other reason: without a stop, a broken wait, an ending error or the end of its hour it is never stopped, and when it is over every eligible command has been begun. |
| `BatchQueue.StopIsFinal` | apps/server/src/inventory/batch.ts:307-316 | After a stop nothing more is begun, whatever comes back, and the job ends as stopped. |
| `BatchQueue.UnsubmittedCostsNoPause` | apps/server/src/inventory/batch.ts:217-261 | After a command that submitted nothing the next one begins at once. |
| `SaleProtocol.StepKeepsInv` | apps/server/src/inventory/service.ts:808-851 | Every step of the service and of Steam keeps the invariant: copies leave only under a reservation, and each owned group has a copy out of reach of every submission. |
| `SaleProtocol.RunKeepsInv` | apps/server/src/inventory/service.ts:759-867 | So does every run. |
| `SaleProtocol.OwnedGroupsStay` | apps/server/src/inventory/service.ts:634-650 | Over any run of submissions, refusals, uncertain results, departures, lapses and arrivals, a group that is owned stays owned. |
| `SaleProtocol.SubmissionLeavesOne` | apps/server/src/inventory/service.ts:634-650 | Right after any submission of any run at least one copy of its group is held by no submission. |
| `SaleProtocol.NoBlindRepeat` | apps/server/src/inventory/service.ts:808-851 | Between two submissions of the same asset lies a definite refusal of the first or a reading that shows its copies gone. |
| `SaleProtocol.HeldUntilCleared` | apps/server/src/inventory/service.ts:629-633 | Until then the reservation stays. |
| `SaleProtocol.ReleaseSparesOutstanding` | apps/server/src/inventory/service.ts:344-352 | A current reading never releases an asset whose copies may still leave. |
| `SaleProtocol.CheckUndercounts` | apps/server/src/inventory/service.ts:634-645 | What the check counts as free is at most what really is. |
| `SaleProtocol.CheckedIsSafe` | apps/server/src/inventory/service.ts:611-652 | A sale that passes the check leaves one copy free beside the ones it takes. |
| `SaleProtocol.LeaveKeepsFree` | apps/server/src/inventory/service.ts:344-352 | Copies that leave were counted as held: what is free stays, in every group. |
| `SaleProtocol.LateReadingSparesIff` | apps/server/src/inventory/service.ts:344-358 | A reading that is evaluated late spares an asset whose copies may still leave if and only if the stack it shows is larger than the stack of the check without the sold copies. |
| `SaleProtocol.LateReadingIsHarmless` | apps/server/src/inventory/service.ts:344-358 | It is harmless whenever no copy of the asset came in between the reading and the check of its sale. |
| `SaleProtocol.ReadingSinceSubmissionIsHarmless` | apps/server/src/inventory/service.ts:344-358 | A reading begun while copies of a submission may still leave never releases its reservation, however late it is evaluated, over every run in which nothing else clears it. |
| `SaleProtocol.ReadingSinceCheckIsHarmless` | apps/server/src/inventory/service.ts:344-358 | Nor does one begun between the check and the submission. |
| `SaleProtocol.RunShrinks` | apps/server/src/inventory/service.ts:344-352 | Without arrivals the stack of an asset never grows. |
| `SaleProtocol.StaleReadingReleasesTooEarly` | apps/server/src/inventory/service.ts:344-358 | A run in which a copy does come in and the reservation is released too early. |
| `SaleProtocol.SellableIff` | apps/server/src/inventory/service.ts:611-652 | The check refuses no sale without need: it passes exactly when the stack is there with so many copies, the asset is not reserved, and one copy of the group would still be free with this sale reserved as well. |
| `SaleProtocol.ReleasedExactly` | apps/server/src/inventory/service.ts:344-352 | A reading keeps a reservation exactly while the stack holds more copies than the sale would leave, so the asset can be sold again as soon as the sold copies are gone. |
| `SaleProtocol.RefusalRestores` | apps/server/src/inventory/service.ts:826-851 | A refusal takes the submission back without a trace. |
| `SaleLedger.FreeIgnoresOrder` | apps/server/src/inventory/service.ts:634-645 | The count of free copies does not depend on the order in which Steam lists the items. |
| `SaleLedger.FreeOrHeld` | apps/server/src/inventory/service.ts:634-645 | Every copy of a group is either free or held, and of a stack no more is held than it has. |
| `Selling.ListItems` | apps/server/src/inventory/service.ts:304-340 | Listing fails exactly on an unreadable asset; otherwise in every group all copies but one are duplicates. |
| `Selling.InventoryMarketService.ReleaseSettledSubmissions` | apps/server/src/inventory/service.ts:344-352 | Released are exactly the reservations whose copies are shown gone. |
| `Selling.InventoryMarketService.AssertSellable` | apps/server/src/inventory/service.ts:611-652 | The check passes exactly when the asset is there in that quantity, not submitted, and one free copy remains; the three errors are told apart. |
| `Selling.InventoryMarketService.AvailableOf` | apps/server/src/inventory/service.ts:634-645 | The sum in the check is the count of free copies. |
| `Selling.InventoryMarketService.Inventory` | apps/server/src/inventory/service.ts:236-343 | A reading does the step of the machine. |
| `Selling.InventoryMarketService.CheckSale` | apps/server/src/inventory/service.ts:764-771 | Reading and checking do the step of the machine, and pass exactly when it does. |
| `Selling.InventoryMarketService.Reserve` | apps/server/src/inventory/service.ts:818-823 | The reservation is written before the call leaves. |
| `Selling.InventoryMarketService.Settle` | apps/server/src/inventory/service.ts:824-866 | Only a definite refusal gives the asset back; a broken call is uncertain and keeps it. |
| `Selling.InventoryMarketService.GiveUp` | apps/server/src/inventory/service.ts:772-817 | A guard that fails between check and call leaves no trace. |
| `Selling.InventoryMarketService.PlanBatch` | apps/server/src/inventory/service.ts:1061-1145 | A row is ready exactly when it is sellable, not listed, quoted and leaves a copy beside the rows planned before it; the selection must be 1 to 50 distinct assets. |
| `Selling.InventoryMarketService.JudgeRow` | apps/server/src/inventory/service.ts:1100-1145 | The verdict on one row. |
| `Selling.PlanLeavesOne` | apps/server/src/inventory/service.ts:1112-1145 | The ready rows together leave at least one copy of each group they touch. |
| `Selling.PlanPassesItsChecks` | apps/server/src/inventory/service.ts:1100-1188 | While the inventory does not change, every ready row still passes its own check after the earlier rows were submitted and accepted. |
| `Selling.PlanKeepsReservations` | apps/server/src/inventory/service.ts:344-352 | The readings in between release none of those reservations. |
| `Selling.ReservedFree` | apps/server/src/inventory/service.ts:634-645 | Each submitted row takes exactly its copies off the count. |
| `Selling.PlanIsExact` | apps/server/src/inventory/service.ts:1100-1145 | A row is ready exactly when it is not listed, has a price and passes its check after the earlier ready rows. |
| `RetryTimers.StepIsSound` | apps/server/src/steam/worker.ts:861-1042 | Any step leaves the desired state alone or raises the generation, schedules under the generation it ends with, never arms a second timer, and after the beginning of a shutdown reaches Steam no more and queues nothing. |
| `RetryTimers.SameGenerationSameIntent` | apps/server/src/steam/worker.ts:1163-1172 | An unchanged generation means the desired state never left Running in between. |
| `RetryTimers.RetryNeedsItsIntent` | apps/server/src/steam/worker.ts:885-917 | A retry that reaches Steam was wanted in every state since it was scheduled: once the desired state has left Running it is dead, whether its timer was about to be armed, was armed or had fired, or its operation was queued or at an await. |
| `RetryTimers.RunStaysSound` | apps/server/src/steam/worker.ts:367-377 | In every run, shutdowns in the middle of an operation included, at most one timer is armed, and from the beginning of a shutdown on nothing reaches Steam and no timer queues anything. |
| `RetryTimers.ContinuedIsSound` | apps/server/src/steam/worker.ts:861-1030 | What an operation does after its await is sound, a shutdown having begun meanwhile or not. |
| `RetryTimers.ShutdownMayLeaveTimer` | apps/server/src/steam/worker.ts:861-924 | A run in which a timer is armed after a shutdown has begun; it queues nothing when it fires. |
| `RetryTimers.ArmsAfterShutdownIff` | apps/server/src/steam/worker.ts:861-1042 | The exact condition, for every worker on its way out: some run arms a timer if and only if the suspended operation is on its way to one, as its kind, the intent and what it has to note or settle say. |
| `RetryTimers.ShutdownLeavesTimerIff` | apps/server/src/steam/worker.ts:367-377 | The same seen from the moment the shutdown begins: the operation it interrupts decides. |
| `RetryTimers.RetriedIsSound` | apps/server/src/steam/worker.ts:991-1030 | The operation of a retry is such a step in all its branches. |
| `RetryTimers.ConflictDelaysCycle` | apps/server/src/steam/worker.ts:962-1030 | While every retry meets one more conflict the waits are 5, 5 and 60 minutes over and over. |
| `RetryTimers.RoundGoesOn` | apps/server/src/steam/worker.ts:953-1017 | One more round leads from each wait of the cycle to the next, for live and login conflicts. |
| `RetryTimers.LoginRestartsCycle` | apps/server/src/steam/worker.ts:598-605 | A login between two conflicts starts the cycle anew. |
| `RetryTimers.ReconnectDelayGrows` | apps/server/src/steam/worker.ts:865-871 | The backoff grows up to 640 seconds, so the cap of a quarter hour is never reached; with the random part a later delay is never shorter by 2.5 seconds or more. |
| `RetryTimers.BackoffDoubles` | apps/server/src/steam/worker.ts:865-868 | The backoff doubles from twenty seconds on until the sixth attempt. |
| `RetryTimers.EndOfIntentClears` | apps/server/src/steam/worker.ts:339-461 | Whatever ends the wish to run, a stop, a pause whose guard holds, a safety disconnect or an account update, clears timers and conflict and raises the generation. |
| `RetryTimers.StartLogsOn` | apps/server/src/steam/worker.ts:292-333 | A start logs on, unless a login or session is there already or no token is. |
| `RetryTimers.ResumeRuns` | apps/server/src/steam/worker.ts:487-497 | A resumption logs on, or plays at once where the connection stands. |
| `RetryTimers.LoginPlays` | apps/server/src/steam/worker.ts:598-612 | A login that is still wanted connects the account, forgets retries and conflict and plays unless it is paused; any other is ignored. |
| `RetryTimers.FreedPlaysAgain` | apps/server/src/steam/worker.ts:657-668 | When the other session ends the games are reported again and the conflict is over. |
| `RetryTimers.UsedElsewhereWaits` | apps/server/src/steam/worker.ts:632-652 | A farm that meets another session is paused; manual boosting registers a conflict. |
| `RetryTimers.TerminalEnds` | apps/server/src/steam/worker.ts:931-951 | A terminal failure pauses the account and leaves nothing to fire. |
| `RetryTimers.LossIsRetried` | apps/server/src/steam/worker.ts:861-924 | A passing loss arms a reconnect after the delay its attempt calls for. |
| `RetryTimers.FailedStartIsRescheduled` | apps/server/src/steam/worker.ts:899-917 | A start that fails is tried again, with no login sent. |
| `RetryTimers.ReconnectsGoOn` | apps/server/src/steam/worker.ts:861-924 | While every login is lost again, one login goes out after each wait, and the waits are those of attempts in a row. |
| `SteamWorker.SteamAccountWorker.StartCommand` | apps/server/src/steam/worker.ts:288-333 | A start is redundant, lacks its token, or wants running and suspends before the login: exactly the step of the machine, and a sound one. |
| `SteamWorker.SteamAccountWorker.StopNow` | apps/server/src/steam/worker.ts:339-352 | A stop ends every retry and the connection: exactly the step of the machine, and a sound one. |
| `SteamWorker.SteamAccountWorker.PauseNow` | apps/server/src/steam/worker.ts:404-417 | A pause ends every retry as far as the guard of its caller lets it: exactly the step of the machine, and a sound one. |
| `SteamWorker.SteamAccountWorker.ForceDisconnectForSafety` | apps/server/src/steam/worker.ts:419-463 | A safety disconnect ends every retry and, if still wanted, the connection: exactly the step of the machine, and a sound one. |
| `SteamWorker.SteamAccountWorker.ResumeNow` | apps/server/src/steam/worker.ts:487-497 | Resuming wants running and starts or applies the games: exactly the step of the machine, and a sound one. |
| `SteamWorker.SteamAccountWorker.UpdateAccountNow` | apps/server/src/steam/worker.ts:525-545 | A new account row raises the generation when its desired state differs, and ends the retries when it leaves running: exactly the step of the machine, and a sound one. |
| `SteamWorker.SteamAccountWorker.BeginShutdownNow` | apps/server/src/steam/worker.ts:367-377 | A shutdown clears the timers at once, in the middle of whatever is suspended: exactly the step of the machine, and a sound one. |
| `SteamWorker.SteamAccountWorker.TimerFires` | apps/server/src/steam/worker.ts:885-889 | A timer that fires queues its operation unless a shutdown has begun: exactly the step of the machine, and a sound one. |
| `SteamWorker.SteamAccountWorker.RunRetry` | apps/server/src/steam/worker.ts:889-1017 | A queued retry whose intent has changed does nothing; any other starts, probes or gives up: exactly the step of the machine, and a sound one. |
| `SteamWorker.SteamAccountWorker.Continue` | apps/server/src/steam/worker.ts:861-1030 | The suspended operation goes on: login, start or rescheduling, probe, registration, arming, noting a playing state, settling a loss: exactly the step of the machine, and a sound one. |
| `SteamWorker.SteamAccountWorker.OnLoggedOn` | apps/server/src/steam/worker.ts:598-612 | A login resets every retry if it is still wanted: exactly the step of the machine, and a sound one. |
| `SteamWorker.SteamAccountWorker.OnPlayingState` | apps/server/src/steam/worker.ts:632-668 | A playing state of a superseded intent is ignored, any other is noted after an await: exactly the step of the machine, and a sound one. |
| `SteamWorker.SteamAccountWorker.OnLost` | apps/server/src/steam/worker.ts:670-741 | A loss under a superseded intent is ignored, any other pauses a farm that does not resume and is settled after an await: exactly the step of the machine, and a sound one. |
| `SteamWorker.SteamAccountWorker.NotePlaying` | apps/server/src/steam/worker.ts:632-668 | An account in use elsewhere pauses a farm or registers a conflict; one that is free again resumes and ends its conflict. |
| `SteamWorker.SteamAccountWorker.SettleLoss` | apps/server/src/steam/worker.ts:686-740 | A conflict already handled is left alone, another is registered once per login; a terminal failure pauses the account; any other reconnects while running is wanted. |
| `Sorting.SortIsStable` | apps/server/src/steam/schedule-preview.ts:109-132 | What a comparator holds for equal keeps the order it had. |

## Left out

- Web client, presenters, routes, locale files, logging, event recording and notifications: user interface and plumbing.
- Scraping of Steam's pages, JSON decoding, cryptography and backup encryption: that a backup decrypts and verifies is an input.
- SQLite, the file system and time-zone data themselves: a transaction is one atomic step that may be refused, a rename is atomic, a lock falls when its process dies, a zone is an offset function.
- RestoreTool.InstanceLease.Acquire: the checks of schema, sidecar files and inode of the guard file are one outcome "refused"; the heartbeat and its fail-stop are not modelled, because they only end a process, which the protocol allows at any step.
- RestoreTool.DataDirectory.RemoveTree: a removal that fails is taken to leave the directory itself, which goes last.
- ScheduleWindows.EvaluateAgreesWithWindows: is stated for a zone with a constant whole-minute offset; changing offsets are treated in ZoneConversion only, because at a change the two computations differ by design.
- ScheduleWindows.BestIsMaximal: schedule ids are numbers in the order in which the locale compares them.
- ScheduleCoordinator.Coordinator.TransitionAccount: an invalid time zone, which makes a schedule inactive and is logged, is not modelled; the owner of a safety hold is not computed, holds are an input; a first read of the hold that fails, which only rejects the tick, is left out.
- TickLoop.TickGate.GoRound: what one tick does per account is `TransitionAccount`; that all accounts of a tick run side by side is not modelled.
- FarmingController.Controller.Continue: one account at a time, because sessions of different accounts share only the shutdown flag; the background price lookup may reorder games between steps and is part of the answers; the persisted resume flag is left out.
- FarmingSelection.OrderGamesOrders: names are ranks in the order of the locale, hours and prices are real numbers.
- BoostSessions.ExceededCap: the safety tick around it, which places a hold and pauses the account, is left out, because it only acts on this verdict, after computing it a second time.
- PriceLimiter.Limiter.Schedule: the caches of observations and item ids are left out, because they do not touch the limiter; so is the time after which a refused caller is told to come back.
- SaleProtocol.NoBlindRepeat: holds within one process, because reservations are kept in memory; that the marketplace lists an asset already is an input of the check and not used in the proof.
- SaleProtocol.OwnedGroupsStay: holds within one process as well, since the free copies are counted with those reservations.
- SaleProtocol.StepKeepsInv: takes the reading of the inventory and its evaluation as one step; copies leave only through sales of this service; prices, wallets and settings between check and call are one guard that may fail.
- Selling.ListItems: paging of the inventory is left out, the complete list of assets is its input.
- Selling.PlanIsExact: a row with a price counts as ready; one whose amounts do not convert counts its copies as planned all the same in the source, which takes a wallet with a base fee the currency cannot express (`PriceRules.QuotedRowIsReady`).
- BatchQueue.MarketBatchQueue.Handle: jobs are values in the map of the queue, so that two variables share one job object is not expressed; messages, names and the time of the last update are left out.
- SteamWorker.SteamAccountWorker.Continue: the awaits at which a shutdown can overtake an operation are those before a login, a start, a probe, a registration, the arming of a timer, noting a playing state and settling a loss; at any other await it only leaves out a status or a login it would forbid anyway. A failing database write inside an operation, which alone could leave the flag of a start in flight set, is not modelled.
- SteamWorker.SteamAccountWorker.OnLost: disconnect and error events take the same steps here, because they differ in texts and in the status written only.
- The per-account promise queue is taken as given: one operation per account at a time.
- Community sessions, library import, personas and credential renewal of the worker: they do not touch the retries.
