# Study timer tracker: session core in Dafny

This project models the core of the study-timer-tracker Android app.

- **The session state machine of `TimerViewModel`.** A session is started with a work activity and a rest activity. It can be switched between working and resting, paused and resumed, and ended. `endSession` is private, and its only caller is the day-start check. The model runs a single day-start check loop. That loop ends the session at most once per calendar date, and only once the time of day is past the configured day start.
- **The two timers.** While working, a work tick adds one second to the work total. A rest tick earns rest while working and spends rest while resting.
- **The session journal.** It records which activity, or the pause, owned each span of time. At the end of a session it is archived into a `History` record.
- **The `TimerRepository` rest ledger.** This is a singleton row holding the remaining rest, the work total and the date of the last reset. The daily reset carries a percentage of the remaining rest into the new day.
- **`DateTimeUtils.formatTime`.** It shows a signed millisecond count as `HH:MM:SS`.

## Modules

- `Entities`: the records (`Activity`, `SessionActivity`, `History`, `RestStore`, `UserPreferences`), the pause sentinel id and the default rows.
- `KotlinArith`: Kotlin's `Long` division, which truncates toward zero, and the magnitude of a value.
- `DurationFormat`: `FormatTime` with Kotlin's truncating division. Its partner is `ParseClock`, which reads the string back. The round trip recovers the whole seconds, sign included.
- `Repository`: the ledger updates as pure functions on a `RestStore` row, and the store as a value (`Tables`). The `TimerRepository` class holds the store in fields; each of its methods is proved to leave exactly the store its function describes.
- `Journal`: when a list of journal entries covers an interval end to end, and what follows from that: duration, order and no overlap.
- `SessionSpec`: each command and each timer tick as a function from `World` (view-model state plus store) to `World`.
- `SessionProperties`: what those transitions guarantee. This covers idempotence, tick gating, the end-of-session state and archive, once-per-date rollover, the ledger invariant and the gap-free journal.
- `ViewModel`: the `TimerViewModel` class. Its fields are the view model's fields, and it updates them in the order the source does. Every method is proved to produce the world the matching `SessionSpec` function describes.

## Where the code differs from the intended behaviour

The model follows the code in each case:
- Intended: a session starts only from idle, with an empty journal. The code's `startSession` does not check for a running session and does not clear the journal (`StartSessionEffect`).
- Intended: the day rolls over at the configured day start. The code's test is strict, so the time of day must be after the day start, not equal to it (`NoRolloverBeforeDayStart`).
- Intended: only a running session can be paused. The code's `pauseTimer` checks only the pause flag (line 257), so an idle session can be paused and a pause segment opens (`PauseWhileIdle`).
- Intended: the mode does not toggle while paused. The code's `switchMode` flips the mode whatever the pause flag (lines 175-177) (`SwitchModeBehaviour`).
- Intended: a journal entry never ends before it starts. Nothing clamps a segment when the wall clock goes back, so closing it then journals a negative span (`ClockBackJournalsNegativeSpan`).
- Intended: the journal covers the whole session without gaps, pauses included. Switching mode while paused restarts the segment without journaling the pause so far (`SwitchWhilePausedLeavesGap`).
- Intended: the live rest counter mirrors the stored remaining rest, which is never negative. The counter is not reset when a session ends, and it goes below zero where the ledger is clamped at zero (`RestMirrorDiverges`).
- Intended: the ledger row carries the day's work total. `model/RestStore.kt` declares no such field, but `TimerRepository.kt` reads and writes it, and the model follows the repository.

## Model

All source paths are below `app/src/main/java/com/example/studytimertracker/`, written in full.

| member | source | states |
|---|---|---|
| KotlinArith.TruncDiv | app/src/main/java/com/example/studytimertracker/utils/DateTimeUtils.kt:27 | Kotlin `/` on Long: the magnitude of the quotient is the magnitude of the dividend divided down, and the quotient's sign never opposes the dividend's |
| DurationFormat.Pad2 | app/src/main/java/com/example/studytimertracker/utils/DateTimeUtils.kt:32 | `%02d`: a digit string whose value is `n`, at least two characters, exactly two iff `n < 100` (never cut), with a leading zero exactly when `n < 10` |
| DurationFormat.DecimalRoundTrip | app/src/main/java/com/example/studytimertracker/utils/DateTimeUtils.kt:32 | the decimal digits of `n` read back give `n` |
| DurationFormat.Decimal | app/src/main/java/com/example/studytimertracker/utils/DateTimeUtils.kt:32 | `%d`: a non-empty digit string, one digit iff `n < 10`, with a leading zero only for 0 |
| DurationFormat.TotalSeconds | app/src/main/java/com/example/studytimertracker/utils/DateTimeUtils.kt:27 | the whole seconds in the magnitude of `ms`: `1000 * r <= abs(ms) < 1000 * r + 1000` |
| DurationFormat.ParseClock | app/src/main/java/com/example/studytimertracker/utils/DateTimeUtils.kt:32-35 | the reader of `HH:MM:SS` strings; a reading is negative exactly when the string starts with "-" |
| DurationFormat.FormatTime | app/src/main/java/com/example/studytimertracker/utils/DateTimeUtils.kt:26-36 | the result is non-empty and starts with "-" exactly when the input is negative |
| DurationFormat.ParseAssembled | app/src/main/java/com/example/studytimertracker/utils/DateTimeUtils.kt:32-35 | the reader inverts the assembly of sign, hours, minutes and seconds fields |
| DurationFormat.FormatTimeParses | app/src/main/java/com/example/studytimertracker/utils/DateTimeUtils.kt:26-36 | the output always parses; the sign matches the input; minutes and seconds are below 60; the fields add up to the whole seconds of the input |
| DurationFormat.FormatTimeRecoversSeconds | app/src/main/java/com/example/studytimertracker/utils/DateTimeUtils.kt:27-35 | format then parse recovers `ms / 1000` truncated toward zero, sign included |
| DurationFormat.FormatTimeNegated | app/src/main/java/com/example/studytimertracker/utils/DateTimeUtils.kt:35 | a negative input formats as "-" followed by the format of its magnitude |
| DurationFormat.FormatTimeSubSecond | app/src/main/java/com/example/studytimertracker/utils/DateTimeUtils.kt:27-35 | inputs within one second of zero show "00:00:00", or "-00:00:00" when negative |
| DurationFormat.FormatTimeWidth | app/src/main/java/com/example/studytimertracker/utils/DateTimeUtils.kt:28-32 | eight characters plus the sign below 100 hours; from 100 hours on, six plus the sign plus the plain decimal width of the hours |
| Repository.AddWorkTime | app/src/main/java/com/example/studytimertracker/data/TimerRepository.kt:46-50 | the work total grows by exactly `amount`; no other field changes |
| Repository.AccumulateRest | app/src/main/java/com/example/studytimertracker/data/TimerRepository.kt:52-56 | the remaining rest grows by exactly `amount`; the accumulated counter and every other field stay |
| Repository.ConsumeRest | app/src/main/java/com/example/studytimertracker/data/TimerRepository.kt:59-64 | the remaining rest is `max(0, left - amount)`: never negative, either 0 or the exact difference; nothing else changes |
| Repository.ResetRest | app/src/main/java/com/example/studytimertracker/data/TimerRepository.kt:67-83 | the remaining rest becomes the carry-over; accumulated, used and work totals become 0; the reset date becomes today |
| Repository.CarryOver | app/src/main/java/com/example/studytimertracker/data/TimerRepository.kt:72 | `left * pct / 100` in Kotlin's truncating division: magnitude floored, sign kept |
| Repository.LastResetDate | app/src/main/java/com/example/studytimertracker/data/TimerRepository.kt:85-88 | the stored row's reset date, or today when no row is stored |
| Repository.WithRestStore | app/src/main/java/com/example/studytimertracker/data/TimerRepository.kt:41-43 | the write stores exactly the given row, inserting or replacing it, and leaves the other tables as they were |
| Repository.RolloverDue | app/src/main/java/com/example/studytimertracker/viewmodel/TimerViewModel.kt:135 | never due on a date the ledger was already reset, never due at or before the day start; otherwise due |
| Repository.AfterUpdateWorkTime | app/src/main/java/com/example/studytimertracker/data/TimerRepository.kt:46-50 | the stored work total grows by `amount`, the remaining rest stays, and only the ledger row changes |
| Repository.AfterAccumulateRestTime | app/src/main/java/com/example/studytimertracker/data/TimerRepository.kt:52-56 | the stored remaining rest grows by `amount`, the work total stays, and only the ledger row changes |
| Repository.AfterConsumeRestTime | app/src/main/java/com/example/studytimertracker/data/TimerRepository.kt:59-64 | the stored remaining rest drops by `amount` clamped at zero, and only the ledger row changes |
| Repository.AfterResetRestStore | app/src/main/java/com/example/studytimertracker/data/TimerRepository.kt:67-83 | the stored row is dated today and holds the carry-over, and only the ledger row changes |
| Repository.UserPreferencesOnce | app/src/main/java/com/example/studytimertracker/data/TimerRepository.kt:103-115 | returns the stored preferences, or the default (50 %), and afterwards exactly that row is stored |
| Repository.AfterUpdateUserPreferences | app/src/main/java/com/example/studytimertracker/data/TimerRepository.kt:117-119 | the next read returns `p` without writing; nothing else changes |
| Repository.AfterInsertHistory | app/src/main/java/com/example/studytimertracker/data/TimerRepository.kt:91-93 | the archive keeps its records and gains `h` at its end; nothing else changes |
| Repository.AfterInsertSessionActivity | app/src/main/java/com/example/studytimertracker/data/TimerRepository.kt:121-123 | the journal table keeps its entries and gains the entry at its end; nothing else changes |
| Repository.CarryOverExact | app/src/main/java/com/example/studytimertracker/data/TimerRepository.kt:72 | for a non-negative balance and percentage, the carry-over is `left * pct / 100` truncated: 100 × it is the largest multiple of 100 not above `left * pct` |
| Repository.CarryOverBounded | app/src/main/java/com/example/studytimertracker/data/TimerRepository.kt:72 | with a percentage in [0, 100], the carried rest lies between 0 and the balance |
| Repository.CarryOverExtremes | app/src/main/java/com/example/studytimertracker/data/TimerRepository.kt:72 | 100 % carries the whole balance and 0 % carries nothing, for any balance |
| Repository.UpdatesKeepRestNonNegative | app/src/main/java/com/example/studytimertracker/data/TimerRepository.kt:46-83 | each ledger update keeps the remaining rest non-negative (accruals non-negative, percentage in [0, 100]) |
| Repository.ConsumeTwice | app/src/main/java/com/example/studytimertracker/data/TimerRepository.kt:59-64 | two clamped consumptions equal one of the sum |
| Repository.TicksCommute | app/src/main/java/com/example/studytimertracker/data/TimerRepository.kt:46-64 | the work update and a rest update touch disjoint fields, so run one after the other they commute |
| Repository.RestStoreOnce | app/src/main/java/com/example/studytimertracker/data/TimerRepository.kt:36-39 | the stored row when there is one; otherwise a row with zero balances dated today |
| Repository.UserPreferencesOnceStable | app/src/main/java/com/example/studytimertracker/data/TimerRepository.kt:103-115 | the first read creates and stores the default (50 %); the stored row is returned unchanged; a second read writes nothing |
| Repository.LedgerWritesTouchOnlyTheRow | app/src/main/java/com/example/studytimertracker/data/TimerRepository.kt:41-83 | each of the four ledger writes (work, accrue, consume, reset) stores a row and leaves preferences, journal table and archive unchanged |
| Repository.ResetSilencesRollover | app/src/main/java/com/example/studytimertracker/data/TimerRepository.kt:67-88 | after a reset the last reset date is today, so the rollover trigger is off for the rest of the date, also after the work write that follows |
| Repository.NoRolloverWithoutRow | app/src/main/java/com/example/studytimertracker/data/TimerRepository.kt:85-88 | with no stored row the default row is dated today, so the trigger cannot fire |
| Repository.TimerRepository.GetRestStoreOnce | app/src/main/java/com/example/studytimertracker/data/TimerRepository.kt:36-39 | returns the stored row or the default dated today |
| Repository.TimerRepository.UpdateWorkTime | app/src/main/java/com/example/studytimertracker/data/TimerRepository.kt:46-50 | the store afterwards is the store before with the work total raised |
| Repository.TimerRepository.AccumulateRestTime | app/src/main/java/com/example/studytimertracker/data/TimerRepository.kt:52-56 | the store afterwards has the remaining rest raised |
| Repository.TimerRepository.ConsumeRestTime | app/src/main/java/com/example/studytimertracker/data/TimerRepository.kt:59-64 | the store afterwards has the remaining rest lowered and clamped; a row exists with non-negative rest |
| Repository.TimerRepository.ResetRestStore | app/src/main/java/com/example/studytimertracker/data/TimerRepository.kt:67-83 | the store afterwards holds the reset row |
| Repository.TimerRepository.GetLastResetDate | app/src/main/java/com/example/studytimertracker/data/TimerRepository.kt:85-88 | returns the reset date of the row read (or of the default row) |
| Repository.TimerRepository.GetUserPreferencesOnce | app/src/main/java/com/example/studytimertracker/data/TimerRepository.kt:103-106 | returns the stored preferences, or stores and returns the default |
| Repository.TimerRepository.CreateDefaultUserPreferences | app/src/main/java/com/example/studytimertracker/data/TimerRepository.kt:108-115 | stores and returns id 0 with a 50 % carry-over; nothing else changes |
| Repository.TimerRepository.UpdateUserPreferences | app/src/main/java/com/example/studytimertracker/data/TimerRepository.kt:117-119 | the preferences row is replaced; nothing else changes |
| Repository.TimerRepository.InsertHistory | app/src/main/java/com/example/studytimertracker/data/TimerRepository.kt:91-93 | the archive gains the record at its end; nothing else changes |
| Repository.TimerRepository.InsertSessionActivity | app/src/main/java/com/example/studytimertracker/data/TimerRepository.kt:121-123 | the journal table gains the entry at its end; nothing else changes |
| SessionSpec.CurrentActivity | app/src/main/java/com/example/studytimertracker/viewmodel/TimerViewModel.kt:332-336 | no activity owns the segment while paused; otherwise the selected work activity when working, the selected rest activity when resting |
| SessionSpec.AddSessionActivity | app/src/main/java/com/example/studytimertracker/viewmodel/TimerViewModel.kt:347-366 | the journal keeps its entries and grows by one exactly when a start time is given; only the journal and the journal table change |
| SessionSpec.RecordAndAddActivity | app/src/main/java/com/example/studytimertracker/viewmodel/TimerViewModel.kt:327-345 | with an open segment the next segment starts at `now`; without one nothing changes; while paused nothing is journaled; only the segment start, journal and journal table change |
| SessionSpec.StartWorkTimer | app/src/main/java/com/example/studytimertracker/viewmodel/TimerViewModel.kt:195-206 | the work timer runs afterwards; nothing else changes |
| SessionSpec.StartRestTimer | app/src/main/java/com/example/studytimertracker/viewmodel/TimerViewModel.kt:208-229 | the rest timer runs afterwards; nothing else changes |
| SessionSpec.StopTimers | app/src/main/java/com/example/studytimertracker/viewmodel/TimerViewModel.kt:188-193 | neither timer runs afterwards; nothing else changes |
| SessionSpec.UpdateWorkTime | app/src/main/java/com/example/studytimertracker/viewmodel/TimerViewModel.kt:233-238 | the live work counter and the ledger's work total both grow by the increment |
| SessionSpec.AccumulateRestTime | app/src/main/java/com/example/studytimertracker/viewmodel/TimerViewModel.kt:240-246 | the live rest counter and the ledger's remaining rest both grow by the amount earned |
| SessionSpec.ConsumeRestTime | app/src/main/java/com/example/studytimertracker/viewmodel/TimerViewModel.kt:248-254 | the live rest counter drops by the amount spent; the ledger's remaining rest stays non-negative |
| SessionSpec.SaveSessionData | app/src/main/java/com/example/studytimertracker/viewmodel/TimerViewModel.kt:310-325 | the view model is untouched; one record is archived exactly when a session had started; only the archive changes |
| SessionSpec.ResetSessionState | app/src/main/java/com/example/studytimertracker/viewmodel/TimerViewModel.kt:368-382 | flags, session start, segment, work counter and journal are cleared; the rest counter and the selections stay |
| SessionSpec.StartSession | app/src/main/java/com/example/studytimertracker/viewmodel/TimerViewModel.kt:152-168 | active, working, unpaused, both timers running; journal and store unchanged |
| SessionSpec.SwitchMode | app/src/main/java/com/example/studytimertracker/viewmodel/TimerViewModel.kt:170-186 | the mode flips exactly when `switch` is set; the pause flag and the ledger row stay |
| SessionSpec.WorkTick | app/src/main/java/com/example/studytimertracker/viewmodel/TimerViewModel.kt:199-202 | the work counter grows by one tick or not at all; the journal stays |
| SessionSpec.RestTick | app/src/main/java/com/example/studytimertracker/viewmodel/TimerViewModel.kt:212-225 | the work counter, the journal and the ledger's work total stay |
| SessionSpec.PauseTimer | app/src/main/java/com/example/studytimertracker/viewmodel/TimerViewModel.kt:256-269 | paused afterwards; a no-op when already paused; otherwise the pause segment starts at `now` |
| SessionSpec.ResumeTimer | app/src/main/java/com/example/studytimertracker/viewmodel/TimerViewModel.kt:271-285 | unpaused afterwards; a no-op when not paused; otherwise the next segment starts at `now` |
| SessionSpec.EndSession | app/src/main/java/com/example/studytimertracker/viewmodel/TimerViewModel.kt:287-306 | inactive, both timers stopped, journal empty, work counter 0, ledger dated today |
| SessionSpec.DayStartCheck | app/src/main/java/com/example/studytimertracker/viewmodel/TimerViewModel.kt:124-140 | either nothing happens or the session is ended; nothing happens at or before the day start or once the ledger is dated today |
| SessionProperties.StartSessionEffect | app/src/main/java/com/example/studytimertracker/viewmodel/TimerViewModel.kt:152-168 | the full effect: both selections, both start times at `now`, working, unpaused, both timers running, no check of an active session, journal, counters and store unchanged |
| SessionProperties.StartSessionIdempotent | app/src/main/java/com/example/studytimertracker/viewmodel/TimerViewModel.kt:152-168 | a second start at the same instant with the same activities changes nothing |
| SessionProperties.AddSessionActivityAppends | app/src/main/java/com/example/studytimertracker/viewmodel/TimerViewModel.kt:347-366 | with a start time, exactly one entry is appended to the journal and to its table, keeping earlier entries; without one, nothing changes |
| SessionProperties.RecordOutcomes | app/src/main/java/com/example/studytimertracker/viewmodel/TimerViewModel.kt:327-345 | no open segment: no change; otherwise [start, now] is journaled under the work activity, the rest activity, or nothing (paused, or no selection for the mode), and the next segment starts at now |
| SessionProperties.PauseIdempotent | app/src/main/java/com/example/studytimertracker/viewmodel/TimerViewModel.kt:256-257 | pausing while paused changes nothing; pausing twice is pausing once |
| SessionProperties.PauseFromRunning | app/src/main/java/com/example/studytimertracker/viewmodel/TimerViewModel.kt:256-269 | from running: the running segment is journaled under the current activity, the session is paused, and the pause segment starts at now |
| SessionProperties.PauseWhileIdle | app/src/main/java/com/example/studytimertracker/viewmodel/TimerViewModel.kt:256-269 | pausing an idle session is accepted: it stays inactive, becomes paused, and a pause segment opens at now |
| SessionProperties.ResumeBehaviour | app/src/main/java/com/example/studytimertracker/viewmodel/TimerViewModel.kt:271-285 | not paused: no change; paused: one pause entry [segment start, now] is journaled, the session unpauses and the next segment starts at now |
| SessionProperties.SwitchModeBehaviour | app/src/main/java/com/example/studytimertracker/viewmodel/TimerViewModel.kt:170-186 | selections are replaced only by non-null arguments; the mode flips iff `switch`; the new mode's timer runs; no timer stops; pause flag and ledger stay |
| SessionProperties.SwitchTagsClosedSegmentWithNewSelection | app/src/main/java/com/example/studytimertracker/viewmodel/TimerViewModel.kt:170-174 | for any selections and either value of `switch`, the segment closed by a switch is journaled under the selection of the mode it ran in after the new selections apply; with no selection for that mode nothing is journaled |
| SessionProperties.TimerStartStopIdempotent | app/src/main/java/com/example/studytimertracker/viewmodel/TimerViewModel.kt:188-209 | starting a running timer changes nothing; stopping stops both and is idempotent |
| SessionProperties.WorkTickGating | app/src/main/java/com/example/studytimertracker/viewmodel/TimerViewModel.kt:195-206 | a work tick adds 1000 ms to the live counter and the ledger's work total iff the timer runs, the session is unpaused and working; otherwise it does nothing |
| SessionProperties.RestTickGating | app/src/main/java/com/example/studytimertracker/viewmodel/TimerViewModel.kt:208-254 | paused or stopped: no change; working with a work activity: rest earned on ledger and mirror; resting with a rest activity: rest spent, clamped in the ledger only |
| SessionProperties.TicksCommuteInWorld | app/src/main/java/com/example/studytimertracker/viewmodel/TimerViewModel.kt:195-229 | a work tick and a rest tick in the same second, run one after the other, give the same world in either order |
| SessionProperties.RestMirrorDiverges | app/src/main/java/com/example/studytimertracker/viewmodel/TimerViewModel.kt:248-254 | spending more than is left drives the live rest counter below zero while the ledger stops at zero |
| SessionProperties.EndSessionEndState | app/src/main/java/com/example/studytimertracker/viewmodel/TimerViewModel.kt:287-306 | after ending: timers stopped, flags cleared, journal empty, no segment, work counter 0, rest counter kept, ledger reset with the preferences' carry-over, one history iff a session had started |
| SessionProperties.EndSessionArchive | app/src/main/java/com/example/studytimertracker/viewmodel/TimerViewModel.kt:287-325 | the archived record holds today, the session start, the live work counter, the ledger counters before the reset, and the journal plus the final pause or segment entry |
| SessionProperties.NoRolloverBeforeDayStart | app/src/main/java/com/example/studytimertracker/viewmodel/TimerViewModel.kt:130-137 | the day-start check does nothing at or before the configured day start |
| SessionProperties.RolloverFiresOncePerDate | app/src/main/java/com/example/studytimertracker/viewmodel/TimerViewModel.kt:124-140 | when due, the check ends the session and dates the ledger today; any later check that date does nothing |
| SessionProperties.CommandsKeepResetDate | app/src/main/java/com/example/studytimertracker/viewmodel/TimerViewModel.kt:152-285 | no command or tick other than ending the session moves the ledger's reset date |
| SessionProperties.CommandsKeepLedgerSound | app/src/main/java/com/example/studytimertracker/viewmodel/TimerViewModel.kt:152-306 | every command, tick and day-start check keeps the stored remaining rest non-negative and the carry-over percentage in [0, 100] |
| SessionProperties.StartSessionTiles | app/src/main/java/com/example/studytimertracker/viewmodel/TimerViewModel.kt:152-168 | starting from an empty journal, the journal covers [session start, segment start] |
| SessionProperties.PauseKeepsTiling | app/src/main/java/com/example/studytimertracker/viewmodel/TimerViewModel.kt:256-269 | pausing keeps the journal a gap-free cover up to the open segment |
| SessionProperties.ResumeKeepsTiling | app/src/main/java/com/example/studytimertracker/viewmodel/TimerViewModel.kt:271-285 | resuming keeps the journal a gap-free cover up to the open segment |
| SessionProperties.SwitchKeepsTiling | app/src/main/java/com/example/studytimertracker/viewmodel/TimerViewModel.kt:170-186 | switching while running keeps the journal a gap-free cover |
| SessionProperties.TicksKeepTiling | app/src/main/java/com/example/studytimertracker/viewmodel/TimerViewModel.kt:195-229 | ticks do not touch the journal's cover |
| SessionProperties.SwitchWhilePausedLeavesGap | app/src/main/java/com/example/studytimertracker/viewmodel/TimerViewModel.kt:170-186 | switching while paused journals nothing, restarts the segment at now, and so breaks the cover once time has passed |
| SessionProperties.ClockBackJournalsNegativeSpan | app/src/main/java/com/example/studytimertracker/viewmodel/TimerViewModel.kt:327-345 | when the clock has gone back, closing a running segment journals one entry whose end is before its start |
| SessionProperties.EndSessionArchivesFullCover | app/src/main/java/com/example/studytimertracker/viewmodel/TimerViewModel.kt:287-345 | for a gap-free trace, the archived journal covers [session start, now] in time order without overlap and sums to `now - start` |
| ViewModel.TimerViewModel.constructor | app/src/main/java/com/example/studytimertracker/viewmodel/TimerViewModel.kt:46-72 | the fresh view model is idle with no timers, no segment and an empty journal |
| ViewModel.TimerViewModel.StartSession | app/src/main/java/com/example/studytimertracker/viewmodel/TimerViewModel.kt:152-168 | the new state is `SessionSpec.StartSession` of the old |
| ViewModel.TimerViewModel.SwitchMode | app/src/main/java/com/example/studytimertracker/viewmodel/TimerViewModel.kt:170-186 | the new state is `SessionSpec.SwitchMode` of the old |
| ViewModel.TimerViewModel.StopTimers | app/src/main/java/com/example/studytimertracker/viewmodel/TimerViewModel.kt:188-193 | both timer jobs are cleared; nothing else changes |
| ViewModel.TimerViewModel.StartWorkTimer | app/src/main/java/com/example/studytimertracker/viewmodel/TimerViewModel.kt:195-197 | the work timer runs afterwards; a running one is not replaced |
| ViewModel.TimerViewModel.StartRestTimer | app/src/main/java/com/example/studytimertracker/viewmodel/TimerViewModel.kt:208-210 | the rest timer runs afterwards; a running one is not replaced |
| ViewModel.TimerViewModel.WorkTick | app/src/main/java/com/example/studytimertracker/viewmodel/TimerViewModel.kt:199-202 | the new state is `SessionSpec.WorkTick` of the old |
| ViewModel.TimerViewModel.RestTick | app/src/main/java/com/example/studytimertracker/viewmodel/TimerViewModel.kt:212-225 | the new state is `SessionSpec.RestTick` of the old |
| ViewModel.TimerViewModel.UpdateWorkTime | app/src/main/java/com/example/studytimertracker/viewmodel/TimerViewModel.kt:233-238 | the ledger's work total and the live counter both grow by the increment |
| ViewModel.TimerViewModel.AccumulateRestTime | app/src/main/java/com/example/studytimertracker/viewmodel/TimerViewModel.kt:240-246 | the ledger's remaining rest and the live mirror both grow by the amount earned |
| ViewModel.TimerViewModel.ConsumeRestTime | app/src/main/java/com/example/studytimertracker/viewmodel/TimerViewModel.kt:248-254 | the ledger is lowered with the clamp and the live mirror without it |
| ViewModel.TimerViewModel.PauseTimer | app/src/main/java/com/example/studytimertracker/viewmodel/TimerViewModel.kt:256-269 | the new state is `SessionSpec.PauseTimer` of the old |
| ViewModel.TimerViewModel.ResumeTimer | app/src/main/java/com/example/studytimertracker/viewmodel/TimerViewModel.kt:271-285 | the new state is `SessionSpec.ResumeTimer` of the old |
| ViewModel.TimerViewModel.EndSession | app/src/main/java/com/example/studytimertracker/viewmodel/TimerViewModel.kt:287-306 | the new state is `SessionSpec.EndSession` of the old |
| ViewModel.TimerViewModel.SaveSessionData | app/src/main/java/com/example/studytimertracker/viewmodel/TimerViewModel.kt:310-325 | the new state is `SessionSpec.SaveSessionData` of the old |
| ViewModel.TimerViewModel.RecordAndAddActivity | app/src/main/java/com/example/studytimertracker/viewmodel/TimerViewModel.kt:327-345 | the new state is `SessionSpec.RecordAndAddActivity` of the old |
| ViewModel.TimerViewModel.AddSessionActivity | app/src/main/java/com/example/studytimertracker/viewmodel/TimerViewModel.kt:347-366 | the new state is `SessionSpec.AddSessionActivity` of the old |
| ViewModel.TimerViewModel.ResetSessionState | app/src/main/java/com/example/studytimertracker/viewmodel/TimerViewModel.kt:368-382 | flags, session start, segment, work counter and journal are cleared; the rest mirror and the selections stay |
| ViewModel.TimerViewModel.DayStartCheck | app/src/main/java/com/example/studytimertracker/viewmodel/TimerViewModel.kt:127-137 | the new state is `SessionSpec.DayStartCheck` of the old |

The lemmas in `SessionProperties` state what the `SessionSpec` functions mean. The `ViewModel` methods connect the object to those functions, so every lemma holds of the object too.

## Left out

- Time and dates are parameters. Each command reads the wall clock once (`now`), and `today` and the time of day are inputs too. The source reads the clock several times within one command, and the model treats all of those readings as one instant:
  - `startSession` reads it at lines 153 and 164;
  - `recordAndAddActivity` at 329 (end of the closed entry) and 344 (start of the next segment);
  - `pauseTimer` at 329 and 344 and again at 268;
  - `resumeTimer` at 275 (end of the pause entry) and 284 (start of the next segment);
  - `endSession` at 293 (end of the pause entry) and again at 329 and 344.
  In the app, a journal entry's end and the next segment's start can therefore differ by the time between two readings. `PauseKeepsTiling`, `ResumeKeepsTiling`, `SwitchKeepsTiling` and `EndSessionArchivesFullCover` rely on them being equal, so the gap-free journal is proved only for that single-instant reading. They also require `ClockForward`: the clock has not gone back since the open segment started. The app does not clamp a segment when it has, and `ClockBackJournalsNegativeSpan` shows the entry that results.
- Parsing of the "HH:mm" day-start string is not modelled: the day-start check takes the parsed time as a number.
- Coroutines are not modelled. Each `viewModelScope.launch` runs to completion in program order, and each timer loop pass is one call to `WorkTick`, `RestTick` or `DayStartCheck`. So the model does not cover races between launched writes. There are three:
  - Lost tick updates. `startSession` starts both timer loops together (lines 166-167), and each waits one second per pass (lines 199 and 212), so while working both ticks fire in the same second. Each tick launches its own write (lines 234, 241 and 249). That write reads the singleton ledger row with a suspending query and writes the whole row back (`TimerRepository.kt` lines 47-49, 53-55 and 60-63). If the second read runs before the first write lands, the later write replaces the row and drops the other tick's work-total or rest update.
  - Late tick writes. `stopTimers` (lines 188-193) cancels the loops but not the writes they launched. A tick write still in flight when the reset (lines 300-303) lands writes back the pre-reset row plus its increment, with the old reset date. Its `postValue` (line 236) likewise undoes the counter reset.
  - The archive race in `endSession`: the launched block in `saveSessionData` suspends at `getRestStoreOnce` (line 314) before it reads `workTime` and `_sessionActivities` (lines 318 and 321), while `resetSessionState` clears both right after it is launched (lines 372 and 374). So in the app the archived journal is likely empty and the archived work total likely 0.
- TicksCommute / TicksCommuteInWorld hold only for ticks that run one after the other, as the model runs them. They do not describe the lost-update and late-write races above.
- EndSessionArchive and EndSessionArchivesFullCover hold only when the launched writes run in program order, as the model runs them; they do not describe the archive race above.
- RolloverFiresOncePerDate describes a single day-start check loop. The app launches a new `scheduleDayStartCheck` loop for every emission of the preferences flow (`TimerViewModel.kt` lines 93-95 and 124-127) and never cancels the old ones. Two loops can both read the old reset date before the launched reset (lines 300-303) lands, so in the app the session can end twice that day and the carry-over can be applied twice. The model does not capture this.
- RestTick: the amount per tick, `(1000 * multiplier).toLong()`, is a non-negative integer input. Float multiplication is not modelled; multipliers are positive, because the activity dialogs reject others.
- Long arithmetic is unbounded: 64-bit overflow is not modelled.
- FormatTime / Pad2: ASCII digits are assumed. `String.format` with `Locale.getDefault()` can write the locale's own digits, and those are not modelled; `ParseClock` reads only '0' to '9'.
- Persisting the three session flags to DataStore is left out. So are restoring them, and restoring the counters and the day's journal, when the view model is created (the `init` block and `loadSessionActivities`). These are I/O at start-up; the model starts from the constructor's idle state.
- The write-only `currentActivity` field is left out: nothing reads it.
- The activity catalogue operations (`getAllActivities`, `getActivityById`, `insertOrUpdateActivity`, `deleteActivity`) are pass-throughs to the activity DAO and are not modelled. The same holds for the read-only queries `getRestStore`, `getUserPreferences`, `getAllHistories`, `getHistoryByDate`, `getAllSessionActivities` and `getSessionActivitiesForDay`.
- The Room DAOs, the database schema, the UI screens and the other view models are not part of this model.
- `formatTimestamp` and `getCurrentTime` in `DateTimeUtils.kt` format clock readings and are not part of this model.
