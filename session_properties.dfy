/**
 * What the session transitions guarantee, and what they do not: journaling,
 * idempotence, tick gating, the end-of-session state, the once-per-date
 * rollover, and the gap-free journal for traces that do not switch mode
 * while paused.
 */
module SessionProperties {
  import opened Wrappers
  import opened Entities
  import opened Repository
  import opened Journal
  import opened SessionSpec

  // ---------------------------------------------------------------------------
  // Journaling

  /**
   * The journal is append-only: `addSessionActivity` keeps every earlier
   * entry in place and adds one entry at the end (the same one goes to the
   * journal table), and only when it has a start time.
   */
  lemma AddSessionActivityAppends(w: World, activityId: int, startTime: Option<int>, endTime: int, today: Date)
    ensures var w1 := AddSessionActivity(w, activityId, startTime, endTime, today);
      && (startTime.None? ==> w1 == w)
      && (startTime.Some? ==>
        var e := SessionActivity(activityId, startTime.value, endTime, today);
        && |w1.vm.sessionActivities| == |w.vm.sessionActivities| + 1
        && w1.vm.sessionActivities[..|w.vm.sessionActivities|] == w.vm.sessionActivities
        && w1.vm.sessionActivities[|w.vm.sessionActivities|] == e
        && w1.db.sessionActivities == w.db.sessionActivities + [e]
        && w1.vm.(sessionActivities := w.vm.sessionActivities) == w.vm
        && w1.db.(sessionActivities := w.db.sessionActivities) == w.db)
  {
  }

  /**
   * `recordAndAddActivity` has three outcomes: without a segment start it
   * changes nothing; otherwise it journals [start, now] under the work
   * activity when working, under the rest activity when resting, nothing
   * when paused or when the mode has no selection; and in both of those cases the next segment starts at `now`.
   */
  lemma RecordOutcomes(w: World, now: int, today: Date)
    ensures var w1 := RecordAndAddActivity(w, now, today);
      && (w.vm.activityStartTime.None? ==> w1 == w)
      && (w.vm.activityStartTime.Some? ==>
        var start := w.vm.activityStartTime.value;
        var log := w.vm.sessionActivities;
        && w1.vm.activityStartTime == Some(now)
        && (w.vm.isPaused ==> w1.vm.sessionActivities == log && w1.db == w.db)
        && (!w.vm.isPaused && CurrentActivity(w.vm).None? ==> w1.vm.sessionActivities == log && w1.db == w.db)
        && (!w.vm.isPaused && w.vm.isWorking && w.vm.currentWorkActivity.Some? ==>
              w1.vm.sessionActivities == log + [SessionActivity(w.vm.currentWorkActivity.value.id, start, now, today)])
        && (!w.vm.isPaused && !w.vm.isWorking && w.vm.currentRestActivity.Some? ==>
              w1.vm.sessionActivities == log + [SessionActivity(w.vm.currentRestActivity.value.id, start, now, today)])
        && w1.vm.(activityStartTime := w.vm.activityStartTime, sessionActivities := log) == w.vm
        && w1.db.restStore == w.db.restStore && w1.db.histories == w.db.histories)
  {
  }

  // ---------------------------------------------------------------------------
  // Starting a session

  /**
   * `startSession` selects both activities, starts the session and the open
   * segment at `now` in working mode, unpaused, with both timers running. It
   * does not look at whether a session is already active, and the journal,
   * the live counters and the store are left as they were.
   */
  lemma StartSessionEffect(w: World, workActivity: Activity, restActivity: Activity, now: int)
    ensures var w1 := StartSession(w, workActivity, restActivity, now);
      && w1.vm.isSessionActive && w1.vm.isWorking && !w1.vm.isPaused
      && w1.vm.workTimerRunning && w1.vm.restTimerRunning
      && w1.vm.currentWorkActivity == Some(workActivity) && w1.vm.currentRestActivity == Some(restActivity)
      && w1.vm.currentSessionStartTime == Some(now) && w1.vm.activityStartTime == Some(now)
      && w1.vm.sessionActivities == w.vm.sessionActivities
      && w1.vm.workTime == w.vm.workTime && w1.vm.restTime == w.vm.restTime
      && w1.db == w.db
  {
  }

  /** Starting twice in a row at the same instant is starting once: a second start changes nothing. */
  lemma StartSessionIdempotent(w: World, workActivity: Activity, restActivity: Activity, now: int)
    ensures var w1 := StartSession(w, workActivity, restActivity, now);
      StartSession(w1, workActivity, restActivity, now) == w1
  {
  }

  // ---------------------------------------------------------------------------
  // Pause and resume

  /** `pauseTimer` while paused changes nothing, so pausing twice is pausing once. */
  lemma PauseIdempotent(w: World, now1: int, now2: int, today1: Date, today2: Date)
    ensures w.vm.isPaused ==> PauseTimer(w, now1, today1) == w
    ensures PauseTimer(PauseTimer(w, now1, today1), now2, today2) == PauseTimer(w, now1, today1)
  {
  }

  /**
   * `pauseTimer` from a running segment journals exactly one entry under the
   * activity that was running, then pauses, then starts the pause segment
   * at `now`; nothing else in the view model changes.
   */
  lemma PauseFromRunning(w: World, now: int, today: Date)
    requires !w.vm.isPaused
    ensures var w1 := PauseTimer(w, now, today);
      && w1.vm.isPaused
      && w1.vm.activityStartTime == Some(now)
      && (w.vm.activityStartTime.Some? && CurrentActivity(w.vm).Some? ==>
            w1.vm.sessionActivities == w.vm.sessionActivities +
              [SessionActivity(CurrentActivity(w.vm).value.id, w.vm.activityStartTime.value, now, today)])
      && (w.vm.activityStartTime.None? || CurrentActivity(w.vm).None? ==>
            w1.vm.sessionActivities == w.vm.sessionActivities)
      && w1.vm.(isPaused := false, activityStartTime := w.vm.activityStartTime,
                sessionActivities := w.vm.sessionActivities) == w.vm
      && w1.db.restStore == w.db.restStore
  {
  }

  /**
   * `pauseTimer` checks only the pause flag, so an idle session can be paused:
   * it stays inactive, becomes paused, and a pause segment opens at `now`.
   */
  lemma PauseWhileIdle(w: World, now: int, today: Date)
    requires !w.vm.isSessionActive && !w.vm.isPaused
    ensures var w1 := PauseTimer(w, now, today);
      && !w1.vm.isSessionActive
      && w1.vm.isPaused
      && w1.vm.activityStartTime == Some(now)
  {
    PauseFromRunning(w, now, today);
  }

  /**
   * `resumeTimer` when not paused changes nothing; when paused it journals
   * exactly one entry with the pause id spanning [segment start, now],
   * unpauses, and starts the next segment at `now`.
   */
  lemma ResumeBehaviour(w: World, now: int, today: Date)
    ensures !w.vm.isPaused ==> ResumeTimer(w, now, today) == w
    ensures w.vm.isPaused ==>
      var w1 := ResumeTimer(w, now, today);
      && !w1.vm.isPaused
      && w1.vm.activityStartTime == Some(now)
      && (w.vm.activityStartTime.Some? ==>
            w1.vm.sessionActivities == w.vm.sessionActivities +
              [SessionActivity(PauseId, w.vm.activityStartTime.value, now, today)])
      && (w.vm.activityStartTime.None? ==> w1.vm.sessionActivities == w.vm.sessionActivities)
      && w1.vm.(isPaused := true, activityStartTime := w.vm.activityStartTime,
                sessionActivities := w.vm.sessionActivities) == w.vm
      && w1.db.restStore == w.db.restStore
  {
  }

  // ---------------------------------------------------------------------------
  // Switching mode

  /**
   * `switchMode`: a non-null argument replaces the selection and a null one
   * keeps it; `isWorking` flips exactly when `switch` is set; the timer of
   * the resulting mode is running afterwards; the pause flag and the ledger
   * are untouched.
   */
  lemma SwitchModeBehaviour(w: World, workActivity: Option<Activity>, restActivity: Option<Activity>,
                            switch: bool, now: int, today: Date)
    ensures var w1 := SwitchMode(w, workActivity, restActivity, switch, now, today);
      && w1.vm.currentWorkActivity == (if workActivity.Some? then workActivity else w.vm.currentWorkActivity)
      && w1.vm.currentRestActivity == (if restActivity.Some? then restActivity else w.vm.currentRestActivity)
      && w1.vm.isWorking == (w.vm.isWorking != switch)
      && (w1.vm.isWorking ==> w1.vm.workTimerRunning)
      && (!w1.vm.isWorking ==> w1.vm.restTimerRunning)
      && (w.vm.workTimerRunning ==> w1.vm.workTimerRunning)
      && (w.vm.restTimerRunning ==> w1.vm.restTimerRunning)
      && w1.vm.isPaused == w.vm.isPaused
      && w1.vm.isSessionActive == w.vm.isSessionActive
      && w1.db.restStore == w.db.restStore
  {
    var s1 := w.vm.(currentWorkActivity := if workActivity.Some? then workActivity else w.vm.currentWorkActivity,
                    currentRestActivity := if restActivity.Some? then restActivity else w.vm.currentRestActivity);
    var w2 := RecordAndAddActivity(World(s1, w.db), now, today);
    RecordOutcomes(World(s1, w.db), now, today);
    assert w2.vm.isWorking == s1.isWorking && w2.vm.isPaused == s1.isPaused;
    assert w2.vm.workTimerRunning == s1.workTimerRunning && w2.vm.restTimerRunning == s1.restTimerRunning;
    assert w2.vm.currentWorkActivity == s1.currentWorkActivity && w2.vm.currentRestActivity == s1.currentRestActivity;
  }

  /**
   * The selections are replaced before the running segment is closed, and the
   * mode flips only after it, so the segment that was running under the old
   * selection is journaled under the new selection of the mode it ran in,
   * whatever `switch` says; with no selection for that mode, nothing is
   * journaled.
   */
  lemma SwitchTagsClosedSegmentWithNewSelection(w: World, workActivity: Option<Activity>,
                                                restActivity: Option<Activity>, switch: bool, now: int, today: Date)
    requires !w.vm.isPaused && w.vm.activityStartTime.Some?
    ensures var log := SwitchMode(w, workActivity, restActivity, switch, now, today).vm.sessionActivities;
      var start := w.vm.activityStartTime.value;
      var selected := if w.vm.isWorking then (if workActivity.Some? then workActivity else w.vm.currentWorkActivity)
                      else (if restActivity.Some? then restActivity else w.vm.currentRestActivity);
      && (selected.Some? ==> log == w.vm.sessionActivities + [SessionActivity(selected.value.id, start, now, today)])
      && (selected.None? ==> log == w.vm.sessionActivities)
  {
  }

  // ---------------------------------------------------------------------------
  // Timers and ticks

  /** Starting a running timer does not start a second one; stopping is idempotent. */
  lemma TimerStartStopIdempotent(s: Session)
    ensures StartWorkTimer(StartWorkTimer(s)) == StartWorkTimer(s)
    ensures StartRestTimer(StartRestTimer(s)) == StartRestTimer(s)
    ensures s.workTimerRunning ==> StartWorkTimer(s) == s
    ensures s.restTimerRunning ==> StartRestTimer(s) == s
    ensures StopTimers(StopTimers(s)) == StopTimers(s)
    ensures !StopTimers(s).workTimerRunning && !StopTimers(s).restTimerRunning
  {
  }

  /**
   * The work tick adds one tick (1000 ms) to the live counter and to the
   * ledger's work total exactly when its timer runs, the session is not
   * paused and it is in working mode; otherwise it does nothing.
   */
  lemma WorkTickGating(w: World, today: Date)
    ensures var w1 := WorkTick(w, today);
      if w.vm.workTimerRunning && !w.vm.isPaused && w.vm.isWorking then
        && w1.vm == w.vm.(workTime := w.vm.workTime + 1000)
        && RestStoreOnce(w1.db, today) == AddWorkTime(RestStoreOnce(w.db, today), 1000)
      else
        w1 == w
  {
  }

  /**
   * The rest tick does nothing when its timer is stopped or the session is
   * paused; in working mode it accrues `delta` (ledger and mirror); in rest
   * mode it consumes `delta`, clamped at zero in the ledger only.
   */
  lemma RestTickGating(w: World, delta: nat, today: Date)
    ensures var w1 := RestTick(w, delta, today);
      var before := RestStoreOnce(w.db, today);
      && (!w.vm.restTimerRunning || w.vm.isPaused ==> w1 == w)
      && (w.vm.restTimerRunning && !w.vm.isPaused && w.vm.isWorking && w.vm.currentWorkActivity.Some? ==>
            && w1.vm == w.vm.(restTime := w.vm.restTime + delta)
            && RestStoreOnce(w1.db, today) == AccumulateRest(before, delta)
            && RestStoreOnce(w1.db, today).restStoreAccumulated == before.restStoreAccumulated)
      && (w.vm.restTimerRunning && !w.vm.isPaused && !w.vm.isWorking && w.vm.currentRestActivity.Some? ==>
            && w1.vm == w.vm.(restTime := w.vm.restTime - delta)
            && RestStoreOnce(w1.db, today) == ConsumeRest(before, delta))
  {
  }

  /**
   * When the two timers fire in the same second and their ticks run one after
   * the other, the order does not matter: both orders give the same world.
   */
  lemma TicksCommuteInWorld(w: World, delta: nat, today: Date)
    ensures WorkTick(RestTick(w, delta, today), today) == RestTick(WorkTick(w, today), delta, today)
  {
    var s := RestStoreOnce(w.db, today);
    TicksCommute(s, TickMillis, delta);
  }

  /**
   * The stored ledger never shows negative rest, while the live mirror
   * subtracts without a clamp: starting from agreement, one rest tick that
   * spends more than is left drives the mirror below zero while the ledger
   * stops at zero.
   */
  lemma RestMirrorDiverges(w: World, delta: nat, today: Date)
    requires w.vm.restTimerRunning && !w.vm.isPaused && !w.vm.isWorking && w.vm.currentRestActivity.Some?
    requires w.vm.restTime == RestStoreOnce(w.db, today).restTimeLeft
    requires 0 <= RestStoreOnce(w.db, today).restTimeLeft < delta
    ensures var w1 := RestTick(w, delta, today);
      && w1.vm.restTime < 0
      && RestStoreOnce(w1.db, today).restTimeLeft == 0
      && w1.vm.restTime != RestStoreOnce(w1.db, today).restTimeLeft
  {
  }

  // ---------------------------------------------------------------------------
  // Ending the session

  /** What `endSession` journals last: the pending pause, or else the running segment. */
  function FinalEntries(s: Session, now: int, today: Date): seq<SessionActivity>
  {
    match s.activityStartTime
    case None => []
    case Some(start) =>
      if s.isPaused then [SessionActivity(PauseId, start, now, today)]
      else match CurrentActivity(s)
        case Some(a) => [SessionActivity(a.id, start, now, today)]
        case None => []
  }

  /**
   * After `endSession` both timers are stopped, the flags are cleared, the
   * journal is empty, no segment is open and the work counter is zero; the
   * live rest mirror is left as it was. The ledger is reset with the
   * preferences' carry-over and dated `today`, the preferences row exists,
   * and one history record is appended exactly when a session had started.
   */
  lemma EndSessionEndState(w: World, now: int, today: Date)
    ensures var w1 := EndSession(w, now, today);
      var prefs := UserPreferencesOnce(w.db).1;
      && !w1.vm.isSessionActive && !w1.vm.isWorking && !w1.vm.isPaused
      && !w1.vm.workTimerRunning && !w1.vm.restTimerRunning
      && w1.vm.sessionActivities == [] && w1.vm.activityStartTime.None?
      && w1.vm.currentSessionStartTime.None? && w1.vm.workTime == 0
      && w1.vm.restTime == w.vm.restTime
      && RestStoreOnce(w1.db, today) == ResetRest(RestStoreOnce(w.db, today), prefs.carryOverPercentage, today)
      && w1.db.userPreferences == Some(prefs)
      && |w1.db.histories| == |w.db.histories| + (if w.vm.currentSessionStartTime.Some? then 1 else 0)
      && w1.db.histories[..|w.db.histories|] == w.db.histories
  {
  }

  /**
   * The archived record: dated `today`, stamped with the session start, the
   * live work counter and the ledger's counters read before the reset, and
   * the journal followed by the final entry (the pending pause when paused,
   * journaled before the last segment is closed).
   */
  lemma EndSessionArchive(w: World, now: int, today: Date)
    requires w.vm.currentSessionStartTime.Some?
    ensures var w1 := EndSession(w, now, today);
      var row := RestStoreOnce(w.db, today);
      && |w1.db.histories| == |w.db.histories| + 1
      && w1.db.histories[|w.db.histories|] ==
           History(today, w.vm.currentSessionStartTime.value, w.vm.workTime,
                   row.restStoreAccumulated, row.restStoreUsed,
                   w.vm.sessionActivities + FinalEntries(w.vm, now, today))
  {
    var (db1, prefs) := UserPreferencesOnce(w.db);
    assert RestStoreOnce(db1, today) == RestStoreOnce(w.db, today);
  }

  // ---------------------------------------------------------------------------
  // Day rollover

  /** The check never fires at or before the configured day start. */
  lemma NoRolloverBeforeDayStart(w: World, timeOfDay: int, dayStart: int, now: int, today: Date)
    requires timeOfDay <= dayStart
    ensures DayStartCheck(w, timeOfDay, dayStart, now, today) == w
  {
  }

  /**
   * Once the check has fired on a date, the ledger is dated that day and
   * any later check on the same date does nothing.
   */
  lemma RolloverFiresOncePerDate(w: World, time1: int, time2: int, dayStart1: int, dayStart2: int,
                                 now1: int, now2: int, today: Date)
    requires RolloverDue(time1, dayStart1, LastResetDate(w.db, today), today)
    ensures var w1 := DayStartCheck(w, time1, dayStart1, now1, today);
      && w1 == EndSession(w, now1, today)
      && LastResetDate(w1.db, today) == today
      && DayStartCheck(w1, time2, dayStart2, now2, today) == w1
  {
  }

  /**
   * No command other than ending the session moves the ledger's reset date,
   * so between two checks on one date the trigger stays off once it is off
   * for the date.
   */
  lemma CommandsKeepResetDate(w: World, a: Activity, b: Activity, wa: Option<Activity>, ra: Option<Activity>,
                              switch: bool, delta: nat, now: int, today: Date)
    ensures LastResetDate(StartSession(w, a, b, now).db, today) == LastResetDate(w.db, today)
    ensures LastResetDate(SwitchMode(w, wa, ra, switch, now, today).db, today) == LastResetDate(w.db, today)
    ensures LastResetDate(PauseTimer(w, now, today).db, today) == LastResetDate(w.db, today)
    ensures LastResetDate(ResumeTimer(w, now, today).db, today) == LastResetDate(w.db, today)
    ensures LastResetDate(WorkTick(w, today).db, today) == LastResetDate(w.db, today)
    ensures LastResetDate(RestTick(w, delta, today).db, today) == LastResetDate(w.db, today)
  {
  }

  // ---------------------------------------------------------------------------
  // The ledger invariant across commands

  /**
   * The stored ledger shows no negative rest, and a stored carry-over
   * percentage lies in [0, 100] (the settings screen coerces it there).
   */
  predicate LedgerSound(db: Tables, today: Date)
  {
    && RestNonNegative(RestStoreOnce(db, today))
    && (db.userPreferences.Some? ==> 0 <= db.userPreferences.value.carryOverPercentage <= 100)
  }

  /** Every command, tick and day-start check keeps the ledger sound. */
  lemma CommandsKeepLedgerSound(w: World, a: Activity, b: Activity, wa: Option<Activity>, ra: Option<Activity>,
                                switch: bool, delta: nat, now: int, timeOfDay: int, dayStart: int, today: Date)
    requires LedgerSound(w.db, today)
    ensures LedgerSound(StartSession(w, a, b, now).db, today)
    ensures LedgerSound(SwitchMode(w, wa, ra, switch, now, today).db, today)
    ensures LedgerSound(PauseTimer(w, now, today).db, today)
    ensures LedgerSound(ResumeTimer(w, now, today).db, today)
    ensures LedgerSound(WorkTick(w, today).db, today)
    ensures LedgerSound(RestTick(w, delta, today).db, today)
    ensures LedgerSound(EndSession(w, now, today).db, today)
    ensures LedgerSound(DayStartCheck(w, timeOfDay, dayStart, now, today).db, today)
  {
    var row := RestStoreOnce(w.db, today);
    UpdatesKeepRestNonNegative(row, delta, 0, today);
    UpdatesKeepRestNonNegative(row, TickMillis, 0, today);
    EndSessionEndState(w, now, today);
    var prefs := UserPreferencesOnce(w.db).1;
    CarryOverBounded(row.restTimeLeft, prefs.carryOverPercentage);
  }

  // ---------------------------------------------------------------------------
  // Gap-free journal

  /**
   * The session's journal covers [session start, segment start] without gap
   * or overlap, with both activities selected.
   */
  predicate SegmentsTile(s: Session)
  {
    && s.currentSessionStartTime.Some? && s.activityStartTime.Some?
    && s.currentWorkActivity.Some? && s.currentRestActivity.Some?
    && Tiles(s.sessionActivities, s.currentSessionStartTime.value, s.activityStartTime.value)
  }

  /** The clock has not gone back since the open segment started. */
  predicate ClockForward(s: Session, now: int)
  {
    s.activityStartTime.Some? ==> s.activityStartTime.value <= now
  }

  /**
   * Nothing clamps a segment when the clock has gone back: closing a running
   * segment then journals an entry that ends before it starts.
   */
  lemma ClockBackJournalsNegativeSpan(w: World, now: int, today: Date)
    requires !w.vm.isPaused && w.vm.activityStartTime.Some? && CurrentActivity(w.vm).Some?
    requires now < w.vm.activityStartTime.value
    ensures var log := RecordAndAddActivity(w, now, today).vm.sessionActivities;
      && |log| == |w.vm.sessionActivities| + 1
      && log[|log| - 1].endTime < log[|log| - 1].startTime
  {
    RecordOutcomes(w, now, today);
  }

  /** Starting with an empty journal gives an empty cover of [now, now]. */
  lemma StartSessionTiles(w: World, workActivity: Activity, restActivity: Activity, now: int)
    requires w.vm.sessionActivities == []
    ensures SegmentsTile(StartSession(w, workActivity, restActivity, now).vm)
  {
  }

  lemma PauseKeepsTiling(w: World, now: int, today: Date)
    requires SegmentsTile(w.vm) && ClockForward(w.vm, now)
    ensures SegmentsTile(PauseTimer(w, now, today).vm)
  {
    if !w.vm.isPaused {
      var a := CurrentActivity(w.vm).value;
      TilesExtend(w.vm.sessionActivities, w.vm.currentSessionStartTime.value, w.vm.activityStartTime.value,
                  SessionActivity(a.id, w.vm.activityStartTime.value, now, today));
    }
  }

  lemma ResumeKeepsTiling(w: World, now: int, today: Date)
    requires SegmentsTile(w.vm) && ClockForward(w.vm, now)
    ensures SegmentsTile(ResumeTimer(w, now, today).vm)
  {
    if w.vm.isPaused {
      TilesExtend(w.vm.sessionActivities, w.vm.currentSessionStartTime.value, w.vm.activityStartTime.value,
                  SessionActivity(PauseId, w.vm.activityStartTime.value, now, today));
    }
  }

  /** A switch while running closes the segment under the (new) selection and keeps the cover. */
  lemma SwitchKeepsTiling(w: World, wa: Option<Activity>, ra: Option<Activity>, switch: bool, now: int, today: Date)
    requires SegmentsTile(w.vm) && ClockForward(w.vm, now) && !w.vm.isPaused
    ensures SegmentsTile(SwitchMode(w, wa, ra, switch, now, today).vm)
  {
    var s1 := w.vm.(currentWorkActivity := if wa.Some? then wa else w.vm.currentWorkActivity,
                    currentRestActivity := if ra.Some? then ra else w.vm.currentRestActivity);
    var a := CurrentActivity(s1).value;
    TilesExtend(w.vm.sessionActivities, w.vm.currentSessionStartTime.value, w.vm.activityStartTime.value,
                SessionActivity(a.id, w.vm.activityStartTime.value, now, today));
  }

  lemma TicksKeepTiling(w: World, delta: nat, today: Date)
    requires SegmentsTile(w.vm)
    ensures SegmentsTile(WorkTick(w, today).vm)
    ensures SegmentsTile(RestTick(w, delta, today).vm)
  {
  }

  /**
   * A switch while paused restarts the segment without journaling the pause
   * so far: once any time has passed, the journal no longer reaches the new
   * segment start.
   */
  lemma SwitchWhilePausedLeavesGap(w: World, wa: Option<Activity>, ra: Option<Activity>, switch: bool,
                                   now: int, today: Date)
    requires SegmentsTile(w.vm) && w.vm.isPaused && w.vm.activityStartTime.value < now
    ensures var s := SwitchMode(w, wa, ra, switch, now, today).vm;
      && s.sessionActivities == w.vm.sessionActivities
      && s.activityStartTime == Some(now)
      && !SegmentsTile(s)
  {
    var s := SwitchMode(w, wa, ra, switch, now, today).vm;
    if SegmentsTile(s) {
      TilesEndUnique(w.vm.sessionActivities, w.vm.currentSessionStartTime.value, w.vm.activityStartTime.value, now);
      assert false;
    }
  }

  /**
   * For a trace that keeps the journal tiled, the record archived by
   * `endSession` covers [session start, now] exactly: its entries are in
   * time order, do not overlap, and add up to `now - sessionStart`.
   */
  lemma EndSessionArchivesFullCover(w: World, now: int, today: Date)
    requires SegmentsTile(w.vm) && ClockForward(w.vm, now)
    ensures var h := EndSession(w, now, today).db.histories[|w.db.histories|];
      var start := w.vm.currentSessionStartTime.value;
      && Tiles(h.sessionActivities, start, now)
      && TotalDuration(h.sessionActivities) == now - start
      && (forall i, j :: 0 <= i < j < |h.sessionActivities| ==>
            h.sessionActivities[i].endTime <= h.sessionActivities[j].startTime)
  {
    EndSessionArchive(w, now, today);
    var h := EndSession(w, now, today).db.histories[|w.db.histories|];
    var start := w.vm.currentSessionStartTime.value;
    var seg := w.vm.activityStartTime.value;
    var last := FinalEntries(w.vm, now, today);
    assert |last| == 1 && last[0].startTime == seg && last[0].endTime == now;
    TilesExtend(w.vm.sessionActivities, start, seg, last[0]);
    TilesDuration(h.sessionActivities, start, now);
    TilesOrdered(h.sessionActivities, start, now);
  }
}
