/**
 * `TimerViewModel` as an object: its fields are the view model's mutable
 * fields and live-data values, it holds the repository, and each command or
 * timer tick is a method that updates the fields in the order the source
 * does. Every method is proved to produce exactly the world that the
 * corresponding function of `SessionSpec` describes, so the properties
 * proved there hold of the object.
 */
module ViewModel {
  import opened Wrappers
  import opened Entities
  import opened Repository
  import SessionSpec

  class TimerViewModel {
    const repository: TimerRepository

    var isSessionActive: bool
    var isWorking: bool
    var isPaused: bool
    /** Whether `workTimerJob` / `restTimerJob` is set. */
    var workTimerRunning: bool
    var restTimerRunning: bool
    var currentSessionStartTime: Option<int>
    var activityStartTime: Option<int>
    var currentWorkActivity: Option<Activity>
    var currentRestActivity: Option<Activity>
    /** The live counters shown by the timer screen. */
    var workTime: int
    var restTime: int
    /** The in-memory journal `_sessionActivities`. */
    var sessionActivities: seq<SessionActivity>

    /** The view model's own fields as a value. */
    function Snapshot(): SessionSpec.Session
      reads this
    {
      SessionSpec.Session(isSessionActive, isWorking, isPaused, workTimerRunning, restTimerRunning,
                          currentSessionStartTime, activityStartTime, currentWorkActivity, currentRestActivity,
                          workTime, restTime, sessionActivities)
    }

    /** The view model together with the store it writes. */
    function State(): SessionSpec.World
      reads this, repository
    {
      SessionSpec.World(Snapshot(), repository.Contents())
    }

    constructor (repository: TimerRepository)
      ensures this.repository == repository
      ensures Snapshot() == SessionSpec.InitialSession
    {
      this.repository := repository;
      isSessionActive, isWorking, isPaused := false, false, false;
      workTimerRunning, restTimerRunning := false, false;
      currentSessionStartTime, activityStartTime := None, None;
      currentWorkActivity, currentRestActivity := None, None;
      workTime, restTime := 0, 0;
      sessionActivities := [];
    }

    method StartSession(workActivity: Activity, restActivity: Activity, now: int)
      modifies this
      ensures State() == SessionSpec.StartSession(old(State()), workActivity, restActivity, now)
    {
      currentSessionStartTime := Some(now);
      currentWorkActivity := Some(workActivity);
      currentRestActivity := Some(restActivity);
      isWorking := true;
      isSessionActive := true;
      isPaused := false;
      activityStartTime := Some(now);
      StartWorkTimer();
      StartRestTimer();
    }

    method SwitchMode(workActivity: Option<Activity>, restActivity: Option<Activity>, switch: bool,
                      now: int, today: Date)
      modifies this, repository
      ensures State() == SessionSpec.SwitchMode(old(State()), workActivity, restActivity, switch, now, today)
    {
      currentWorkActivity := if workActivity.Some? then workActivity else currentWorkActivity;
      currentRestActivity := if restActivity.Some? then restActivity else currentRestActivity;
      assert Snapshot() == SessionSpec.SelectActivities(old(Snapshot()), workActivity, restActivity);
      RecordAndAddActivity(now, today);
      ghost var w2 := State();
      if switch {
        isWorking := !isWorking;
      }
      ghost var s3 := Snapshot();
      assert s3 == if switch then w2.vm.(isWorking := !w2.vm.isWorking) else w2.vm;
      if isWorking {
        StartWorkTimer();
      } else {
        StartRestTimer();
      }
      assert Snapshot() == SessionSpec.StartModeTimer(s3);
    }

    method StopTimers()
      modifies this
      ensures Snapshot() == SessionSpec.StopTimers(old(Snapshot()))
    {
      workTimerRunning := false;
      restTimerRunning := false;
    }

    method StartWorkTimer()
      modifies this
      ensures Snapshot() == SessionSpec.StartWorkTimer(old(Snapshot()))
    {
      if !workTimerRunning {
        workTimerRunning := true;
      }
    }

    method StartRestTimer()
      modifies this
      ensures Snapshot() == SessionSpec.StartRestTimer(old(Snapshot()))
    {
      if !restTimerRunning {
        restTimerRunning := true;
      }
    }

    /** One pass of the work timer's loop body. */
    method WorkTick(today: Date)
      modifies this, repository
      ensures State() == SessionSpec.WorkTick(old(State()), today)
    {
      if !isPaused && isWorking && workTimerRunning {
        UpdateWorkTime(SessionSpec.TickMillis, today);
      }
    }

    /** One pass of the rest timer's loop body, `delta` being the truncated 1000 × multiplier. */
    method RestTick(delta: nat, today: Date)
      modifies this, repository
      ensures State() == SessionSpec.RestTick(old(State()), delta, today)
    {
      if restTimerRunning && !isPaused {
        if isWorking {
          if currentWorkActivity.Some? {
            AccumulateRestTime(delta, today);
          }
        } else {
          if currentRestActivity.Some? {
            ConsumeRestTime(delta, today);
          }
        }
      }
    }

    method UpdateWorkTime(timeIncrement: int, today: Date)
      modifies this, repository
      ensures State() == SessionSpec.UpdateWorkTime(old(State()), timeIncrement, today)
    {
      repository.UpdateWorkTime(timeIncrement, today);
      workTime := workTime + timeIncrement;
    }

    method AccumulateRestTime(restEarned: int, today: Date)
      modifies this, repository
      ensures State() == SessionSpec.AccumulateRestTime(old(State()), restEarned, today)
    {
      repository.AccumulateRestTime(restEarned, today);
      restTime := restTime + restEarned;
    }

    method ConsumeRestTime(restConsumed: int, today: Date)
      modifies this, repository
      ensures State() == SessionSpec.ConsumeRestTime(old(State()), restConsumed, today)
    {
      repository.ConsumeRestTime(restConsumed, today);
      restTime := restTime - restConsumed;
    }

    method PauseTimer(now: int, today: Date)
      modifies this, repository
      ensures State() == SessionSpec.PauseTimer(old(State()), now, today)
    {
      if isPaused {
        return;
      }
      RecordAndAddActivity(now, today);
      isPaused := true;
      activityStartTime := Some(now);
    }

    method ResumeTimer(now: int, today: Date)
      modifies this, repository
      ensures State() == SessionSpec.ResumeTimer(old(State()), now, today)
    {
      if !isPaused {
        return;
      }
      AddSessionActivity(PauseId, activityStartTime, now, today);
      isPaused := false;
      activityStartTime := Some(now);
    }

    method EndSession(now: int, today: Date)
      modifies this, repository
      ensures State() == SessionSpec.EndSession(old(State()), now, today)
    {
      var userPrefs := repository.GetUserPreferencesOnce();
      StopTimers();
      if isPaused {
        AddSessionActivity(PauseId, activityStartTime, now, today);
      }
      RecordAndAddActivity(now, today);
      SaveSessionData(today);
      repository.ResetRestStore(userPrefs.carryOverPercentage, today);
      repository.UpdateWorkTime(0, today);
      ResetSessionState();
    }

    method SaveSessionData(today: Date)
      modifies repository
      ensures State() == SessionSpec.SaveSessionData(old(State()), today)
    {
      match currentSessionStartTime {
        case None =>
        case Some(startTime) =>
          var restStore := repository.GetRestStoreOnce(today);
          var history := History(today, startTime, workTime, restStore.restStoreAccumulated,
                                 restStore.restStoreUsed, sessionActivities);
          repository.InsertHistory(history);
      }
    }

    method RecordAndAddActivity(now: int, today: Date)
      modifies this, repository
      ensures State() == SessionSpec.RecordAndAddActivity(old(State()), now, today)
    {
      match activityStartTime {
        case None =>
        case Some(startTime) =>
          var currentActivity :=
            if !isPaused then (if isWorking then currentWorkActivity else currentRestActivity) else None;
          if currentActivity.Some? {
            AddSessionActivity(currentActivity.value.id, Some(startTime), now, today);
          }
          activityStartTime := Some(now);
      }
    }

    method AddSessionActivity(activityId: int, startTime: Option<int>, endTime: int, today: Date)
      modifies this, repository
      ensures State() == SessionSpec.AddSessionActivity(old(State()), activityId, startTime, endTime, today)
    {
      if startTime.Some? {
        var newActivity := SessionActivity(activityId, startTime.value, endTime, today);
        repository.InsertSessionActivity(newActivity);
        sessionActivities := sessionActivities + [newActivity];
      }
    }

    method ResetSessionState()
      modifies this
      ensures Snapshot() == SessionSpec.ResetSessionState(old(Snapshot()))
    {
      currentSessionStartTime := None;
      activityStartTime := None;
      workTime := 0;
      sessionActivities := [];
      isSessionActive := false;
      isWorking := false;
      isPaused := false;
    }

    /** One pass of the day-start check loop. */
    method DayStartCheck(timeOfDay: int, dayStart: int, now: int, today: Date)
      modifies this, repository
      ensures State() == SessionSpec.DayStartCheck(old(State()), timeOfDay, dayStart, now, today)
    {
      var lastResetDate := repository.GetLastResetDate(today);
      if timeOfDay > dayStart && lastResetDate != today {
        EndSession(now, today);
      }
    }
  }
}
