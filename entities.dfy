/**
 * The records the timer core reads and writes: catalogue activities, journal
 * entries, archived sessions, the singleton rest-ledger row and the singleton
 * user-preferences row.
 */
module Entities {

  /** A calendar date as the app formats it ("yyyy-MM-dd"). */
  type Date = string

  datatype ActivityType = Work | Rest

  /**
   * A catalogue activity. Its Float multiplier is not part of this model: the
   * rest it earns or spends per tick is passed to the tick as an integer.
   */
  datatype Activity = Activity(id: int, name: string, activityType: ActivityType, totalTimeSpent: int)

  /** One journal entry: the activity (or the pause sentinel) owning [startTime, endTime]. */
  datatype SessionActivity = SessionActivity(activityId: int, startTime: int, endTime: int, date: Date)

  /** Activity id under which pause intervals are journaled. */
  const PauseId: int := -1

  /** One archived session. */
  datatype History = History(
    date: Date,
    dayStartTime: int,
    totalTimeWorked: int,
    restStoreAccumulated: int,
    restStoreUsed: int,
    sessionActivities: seq<SessionActivity>)

  /** The singleton rest-ledger row, with the five fields the repository uses. */
  datatype RestStore = RestStore(
    restStoreAccumulated: int,
    restStoreUsed: int,
    restTimeLeft: int,
    totalTimeWorked: int,
    lastResetDate: Date)

  /** The row the repository falls back on when none is stored; `today` is the current date. */
  function DefaultRestStore(today: Date): RestStore
  {
    var accumulated, used := 0, 0;
    RestStore(accumulated, used, accumulated - used, 0, today)
  }

  /** The singleton user-preferences row. */
  datatype UserPreferences = UserPreferences(
    id: int,
    carryOverPercentage: int,
    dayStartTime: string,
    dayEndTime: string)

  /** The row the repository writes the first time preferences are read and none exist. */
  const DefaultUserPreferences: UserPreferences := UserPreferences(0, 50, "00:00", "23:59")
}
