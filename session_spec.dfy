/**
 * The session state machine of `TimerViewModel` as pure transitions.
 *
 * A `World` is the view model's own state together with the repository's
 * tables. Every command and every timer tick is a function from the world
 * before to the world after; `now` (the wall clock in ms), `today` (the
 * current date) and the time of day are parameters, read once per command.
 * Each coroutine tick is one call of `WorkTick` or `RestTick`; a running
 * timer job is a boolean.
 */
module SessionSpec {
  import opened Wrappers
  import opened Entities
  import opened Repository
  import opened Journal

  /** The view model's fields. */
  datatype Session = Session(
    isSessionActive: bool,
    isWorking: bool,
    isPaused: bool,
    workTimerRunning: bool,
    restTimerRunning: bool,
    currentSessionStartTime: Option<int>,
    activityStartTime: Option<int>,
    currentWorkActivity: Option<Activity>,
    currentRestActivity: Option<Activity>,
    workTime: int,
    restTime: int,
    sessionActivities: seq<SessionActivity>)

  datatype World = World(vm: Session, db: Tables)

  /** A freshly constructed view model: idle, no timers, empty journal. */
  const InitialSession: Session :=
    Session(false, false, false, false, false, None, None, None, None, 0, 0, [])

  /** Milliseconds between two ticks; the work tick adds exactly this much. */
  const TickMillis: int := 1000

  // ---------------------------------------------------------------------------
  // Helpers

  /** The activity owning the running segment: none while paused. */
  function CurrentActivity(s: Session): (a: Option<Activity>)
    ensures s.isPaused ==> a.None?
    ensures !s.isPaused && s.isWorking ==> a == s.currentWorkActivity
    ensures !s.isPaused && !s.isWorking ==> a == s.currentRestActivity
  {
    if !s.isPaused then (if s.isWorking then s.currentWorkActivity else s.currentRestActivity)
    else None
  }

  /** `addSessionActivity`: with a start time, one entry is journaled and written to the table. */
  function AddSessionActivity(w: World, activityId: int, startTime: Option<int>, endTime: int, today: Date): (r: World)
    ensures |r.vm.sessionActivities| == |w.vm.sessionActivities| + (if startTime.Some? then 1 else 0)
    ensures r.vm.sessionActivities[..|w.vm.sessionActivities|] == w.vm.sessionActivities
    ensures r.vm == w.vm.(sessionActivities := r.vm.sessionActivities)
    ensures r.db == w.db.(sessionActivities := r.db.sessionActivities)
  {
    match startTime
    case None => w
    case Some(start) =>
      var entry := SessionActivity(activityId, start, endTime, today);
      World(w.vm.(sessionActivities := w.vm.sessionActivities + [entry]), AfterInsertSessionActivity(w.db, entry))
  }

  /**
   * `recordAndAddActivity`: closes the running segment [activityStartTime, now]
   * under the current activity (nothing while paused) and starts the next
   * segment at `now`; without a segment start it does nothing.
   */
  function RecordAndAddActivity(w: World, now: int, today: Date): (r: World)
    ensures w.vm.activityStartTime.Some? ==> r.vm.activityStartTime == Some(now)
    ensures w.vm.activityStartTime.None? ==> r == w
    ensures w.vm.isPaused ==> r.vm.sessionActivities == w.vm.sessionActivities
    ensures r.vm == w.vm.(activityStartTime := r.vm.activityStartTime, sessionActivities := r.vm.sessionActivities)
    ensures r.db == w.db.(sessionActivities := r.db.sessionActivities)
  {
    match w.vm.activityStartTime
    case None => w
    case Some(start) =>
      var logged := match CurrentActivity(w.vm)
        case Some(a) => AddSessionActivity(w, a.id, Some(start), now, today)
        case None => w;
      logged.(vm := logged.vm.(activityStartTime := Some(now)))
  }

  function StartWorkTimer(s: Session): (r: Session)
    ensures r.workTimerRunning && r.(workTimerRunning := s.workTimerRunning) == s
  {
    if s.workTimerRunning then s else s.(workTimerRunning := true)
  }

  function StartRestTimer(s: Session): (r: Session)
    ensures r.restTimerRunning && r.(restTimerRunning := s.restTimerRunning) == s
  {
    if s.restTimerRunning then s else s.(restTimerRunning := true)
  }

  function StopTimers(s: Session): (r: Session)
    ensures !r.workTimerRunning && !r.restTimerRunning
    ensures r.(workTimerRunning := s.workTimerRunning, restTimerRunning := s.restTimerRunning) == s
  {
    s.(workTimerRunning := false, restTimerRunning := false)
  }

  /** The view model's `updateWorkTime`: ledger and live counter both grow by `increment`. */
  function UpdateWorkTime(w: World, increment: int, today: Date): (r: World)
    ensures r.vm.workTime - w.vm.workTime == increment
    ensures RestStoreOnce(r.db, today).totalTimeWorked - RestStoreOnce(w.db, today).totalTimeWorked == increment
  {
    World(w.vm.(workTime := w.vm.workTime + increment), AfterUpdateWorkTime(w.db, increment, today))
  }

  /** The view model's `accumulateRestTime`: ledger and live mirror both grow by `earned`. */
  function AccumulateRestTime(w: World, earned: int, today: Date): (r: World)
    ensures r.vm.restTime - w.vm.restTime == earned
    ensures RestStoreOnce(r.db, today).restTimeLeft - RestStoreOnce(w.db, today).restTimeLeft == earned
  {
    World(w.vm.(restTime := w.vm.restTime + earned), AfterAccumulateRestTime(w.db, earned, today))
  }

  /** The view model's `consumeRestTime`: the ledger clamps at zero, the live mirror does not. */
  function ConsumeRestTime(w: World, consumed: int, today: Date): (r: World)
    ensures w.vm.restTime - r.vm.restTime == consumed
    ensures RestStoreOnce(r.db, today).restTimeLeft >= 0
  {
    World(w.vm.(restTime := w.vm.restTime - consumed), AfterConsumeRestTime(w.db, consumed, today))
  }

  /** `saveSessionData`: archives the session, unless it never started. */
  function SaveSessionData(w: World, today: Date): (r: World)
    ensures r.vm == w.vm
    ensures |r.db.histories| == |w.db.histories| + (if w.vm.currentSessionStartTime.Some? then 1 else 0)
    ensures r.db == w.db.(histories := r.db.histories)
  {
    match w.vm.currentSessionStartTime
    case None => w
    case Some(start) =>
      var row := RestStoreOnce(w.db, today);
      var history := History(today, start, w.vm.workTime, row.restStoreAccumulated, row.restStoreUsed,
                             w.vm.sessionActivities);
      w.(db := AfterInsertHistory(w.db, history))
  }

  /** `resetSessionState`: back to idle; the live rest mirror and the selections are kept. */
  function ResetSessionState(s: Session): (r: Session)
    ensures !r.isSessionActive && !r.isWorking && !r.isPaused
    ensures r.currentSessionStartTime.None? && r.activityStartTime.None?
    ensures r.workTime == 0 && r.sessionActivities == []
    ensures r.restTime == s.restTime
    ensures r.currentWorkActivity == s.currentWorkActivity && r.currentRestActivity == s.currentRestActivity
  {
    s.(currentSessionStartTime := None, activityStartTime := None, workTime := 0, sessionActivities := [],
       isSessionActive := false, isWorking := false, isPaused := false)
  }

  // ---------------------------------------------------------------------------
  // Commands and ticks

  /**
   * `startSession`: selects both activities, enters working mode and starts
   * both timers. It neither checks for a running session nor clears the
   * journal.
   */
  function StartSession(w: World, workActivity: Activity, restActivity: Activity, now: int): (r: World)
    ensures r.vm.isSessionActive && r.vm.isWorking && !r.vm.isPaused
    ensures r.vm.workTimerRunning && r.vm.restTimerRunning
    ensures r.vm.sessionActivities == w.vm.sessionActivities
    ensures r.db == w.db
  {
    var s := w.vm.(currentSessionStartTime := Some(now), currentWorkActivity := Some(workActivity),
                   currentRestActivity := Some(restActivity), isWorking := true, isSessionActive := true,
                   isPaused := false, activityStartTime := Some(now));
    w.(vm := StartRestTimer(StartWorkTimer(s)))
  }

  /** The selections after `switchMode`: a non-null argument replaces the current one. */
  function SelectActivities(s: Session, workActivity: Option<Activity>, restActivity: Option<Activity>): Session
  {
    s.(currentWorkActivity := if workActivity.Some? then workActivity else s.currentWorkActivity,
       currentRestActivity := if restActivity.Some? then restActivity else s.currentRestActivity)
  }

  /** The timer of the current mode is started. */
  function StartModeTimer(s: Session): Session
  {
    if s.isWorking then StartWorkTimer(s) else StartRestTimer(s)
  }

  /**
   * `switchMode`: non-null arguments replace the selections, the running
   * segment is closed, the mode flips when `switch` is set, and the timer of
   * the resulting mode is started.
   */
  function SwitchMode(w: World, workActivity: Option<Activity>, restActivity: Option<Activity>,
                      switch: bool, now: int, today: Date): (r: World)
    ensures r.vm.isWorking == (w.vm.isWorking != switch)
    ensures r.vm.isPaused == w.vm.isPaused
    ensures r.db.restStore == w.db.restStore
  {
    var w2 := RecordAndAddActivity(World(SelectActivities(w.vm, workActivity, restActivity), w.db), now, today);
    World(StartModeTimer(if switch then w2.vm.(isWorking := !w2.vm.isWorking) else w2.vm), w2.db)
  }

  /** One firing of the work timer's loop body. */
  function WorkTick(w: World, today: Date): (r: World)
    ensures r.vm.workTime == w.vm.workTime || r.vm.workTime == w.vm.workTime + TickMillis
    ensures r.vm.sessionActivities == w.vm.sessionActivities
  {
    if w.vm.workTimerRunning && !w.vm.isPaused && w.vm.isWorking then UpdateWorkTime(w, TickMillis, today)
    else w
  }

  /**
   * One firing of the rest timer's loop body; `delta` is the truncated
   * `1000 * multiplier` of the activity that applies.
   */
  function RestTick(w: World, delta: nat, today: Date): (r: World)
    ensures r.vm.workTime == w.vm.workTime && r.vm.sessionActivities == w.vm.sessionActivities
    ensures RestStoreOnce(r.db, today).totalTimeWorked == RestStoreOnce(w.db, today).totalTimeWorked
  {
    if !w.vm.restTimerRunning || w.vm.isPaused then w
    else if w.vm.isWorking then
      (if w.vm.currentWorkActivity.Some? then AccumulateRestTime(w, delta, today) else w)
    else
      (if w.vm.currentRestActivity.Some? then ConsumeRestTime(w, delta, today) else w)
  }

  /** `pauseTimer`: closes the running segment, pauses, and starts the pause segment at `now`. */
  function PauseTimer(w: World, now: int, today: Date): (r: World)
    ensures r.vm.isPaused
    ensures w.vm.isPaused ==> r == w
    ensures !w.vm.isPaused ==> r.vm.activityStartTime == Some(now)
  {
    if w.vm.isPaused then w
    else
      var w1 := RecordAndAddActivity(w, now, today);
      w1.(vm := w1.vm.(isPaused := true, activityStartTime := Some(now)))
  }

  /** `resumeTimer`: journals the pause segment under `PauseId`, unpauses and restarts the segment at `now`. */
  function ResumeTimer(w: World, now: int, today: Date): (r: World)
    ensures !r.vm.isPaused
    ensures !w.vm.isPaused ==> r == w
    ensures w.vm.isPaused ==> r.vm.activityStartTime == Some(now)
  {
    if !w.vm.isPaused then w
    else
      var w1 := AddSessionActivity(w, PauseId, w.vm.activityStartTime, now, today);
      w1.(vm := w1.vm.(isPaused := false, activityStartTime := Some(now)))
  }

  /**
   * `endSession`, with the launched repository writes run in program order:
   * read (or create) the preferences, stop both timers, journal a pending
   * pause, close the last segment, archive the session, reset the ledger
   * with carry-over, add zero work time, and go idle.
   */
  function EndSession(w: World, now: int, today: Date): (r: World)
    ensures !r.vm.isSessionActive && !r.vm.workTimerRunning && !r.vm.restTimerRunning
    ensures r.vm.sessionActivities == [] && r.vm.workTime == 0
    ensures LastResetDate(r.db, today) == today
  {
    var (db1, prefs) := UserPreferencesOnce(w.db);
    var s1 := StopTimers(w.vm);
    var w2 := if s1.isPaused then AddSessionActivity(World(s1, db1), PauseId, s1.activityStartTime, now, today)
              else World(s1, db1);
    var w3 := RecordAndAddActivity(w2, now, today);
    var w4 := SaveSessionData(w3, today);
    var db5 := AfterUpdateWorkTime(AfterResetRestStore(w4.db, prefs.carryOverPercentage, today), 0, today);
    World(ResetSessionState(w4.vm), db5)
  }

  /** One iteration of the day-start check loop; `dayStart` is the configured day start, parsed. */
  function DayStartCheck(w: World, timeOfDay: int, dayStart: int, now: int, today: Date): (r: World)
    ensures r == w || r == EndSession(w, now, today)
    ensures timeOfDay <= dayStart || LastResetDate(w.db, today) == today ==> r == w
  {
    if RolloverDue(timeOfDay, dayStart, LastResetDate(w.db, today), today) then EndSession(w, now, today)
    else w
  }
}
