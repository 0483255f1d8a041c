/**
 * `TimerRepository`: read-modify-write operations on the singleton rest-ledger
 * row and the singleton preferences row, plus the two append-only tables the
 * session writes (journal entries and archived sessions).
 *
 * Each ledger update is a pure function on a `RestStore` row; `Tables` is the
 * whole store as a value, and the functions `After...` give the store after
 * each repository call. The class `TimerRepository` holds the store in fields
 * and its methods are proved against those functions.
 */
module Repository {
  import opened Wrappers
  import opened Entities
  import KotlinArith

  // ---------------------------------------------------------------------------
  // Row updates

  /** `updateWorkTime`: adds `amount` to the work total and touches nothing else. */
  function AddWorkTime(s: RestStore, amount: int): (r: RestStore)
    ensures r.totalTimeWorked - s.totalTimeWorked == amount
    ensures r == s.(totalTimeWorked := r.totalTimeWorked)
  {
    s.(totalTimeWorked := s.totalTimeWorked + amount)
  }

  /**
   * `accumulateRestTime`: adds `amount` to the remaining rest only; the
   * accumulated-rest counter is not touched.
   */
  function AccumulateRest(s: RestStore, amount: int): (r: RestStore)
    ensures r.restTimeLeft - s.restTimeLeft == amount
    ensures r == s.(restTimeLeft := r.restTimeLeft)
  {
    s.(restTimeLeft := s.restTimeLeft + amount)
  }

  /**
   * `consumeRestTime`: the remaining rest drops by `amount` but is clamped at
   * zero; r.restTimeLeft is the least non-negative value that is at least
   * the unclamped difference, and it is either 0 or that difference.
   */
  function ConsumeRest(s: RestStore, amount: int): (r: RestStore)
    ensures r.restTimeLeft >= 0
    ensures r.restTimeLeft >= s.restTimeLeft - amount
    ensures r.restTimeLeft == 0 || r.restTimeLeft == s.restTimeLeft - amount
    ensures r == s.(restTimeLeft := r.restTimeLeft)
  {
    s.(restTimeLeft := if 0 >= s.restTimeLeft - amount then 0 else s.restTimeLeft - amount)
  }

  /** The rest carried into a new day: `left * percentage / 100` in Kotlin's truncating division. */
  function CarryOver(left: int, percentage: int): (c: int)
    ensures KotlinArith.Abs(c) == KotlinArith.Abs(left * percentage) / 100
    ensures c > 0 ==> left * percentage > 0
    ensures c < 0 ==> left * percentage < 0
  {
    KotlinArith.TruncDiv(left * percentage, 100)
  }

  /**
   * `resetRestStore`: the carried rest replaces the remaining rest, the
   * session counters and the work total go to zero and the reset date
   * becomes `today`.
   */
  function ResetRest(s: RestStore, percentage: int, today: Date): (r: RestStore)
    ensures r.restTimeLeft == CarryOver(s.restTimeLeft, percentage)
    ensures r.restStoreAccumulated == 0 && r.restStoreUsed == 0 && r.totalTimeWorked == 0
    ensures r.lastResetDate == today
  {
    s.(restTimeLeft := CarryOver(s.restTimeLeft, percentage),
       lastResetDate := today,
       restStoreAccumulated := 0,
       restStoreUsed := 0,
       totalTimeWorked := 0)
  }

  // ---------------------------------------------------------------------------
  // Properties of the row updates

  /**
   * Carry-over is exact truncation: for a non-negative balance and a
   * non-negative percentage, 100 times the carried rest is the largest
   * multiple of 100 not above `left * percentage`.
   */
  lemma CarryOverExact(left: int, percentage: int)
    requires left >= 0 && percentage >= 0
    ensures var c := CarryOver(left, percentage);
      c * 100 <= left * percentage < c * 100 + 100
  {
    var p := left * percentage;
    assert p >= 0 by {
      MulNonNegative(left, percentage);
    }
    assert CarryOver(left, percentage) == p / 100;
  }

  lemma MulNonNegative(a: int, b: int)
    requires a >= 0 && b >= 0
    ensures a * b >= 0
  {
  }

  lemma MulMonotone(a: int, b: int, c: int)
    requires a >= 0 && b <= c
    ensures a * b <= a * c
  {
  }

  /**
   * With the percentage in [0, 100] (the settings screen coerces it there)
   * and a non-negative balance, the carried rest lies in [0, left].
   */
  lemma CarryOverBounded(left: int, percentage: int)
    requires left >= 0 && 0 <= percentage <= 100
    ensures 0 <= CarryOver(left, percentage) <= left
  {
    CarryOverExact(left, percentage);
    MulMonotone(left, percentage, 100);
  }

  /** At 100 % the whole balance is carried; at 0 % nothing is. */
  lemma CarryOverExtremes(left: int)
    ensures CarryOver(left, 100) == left
    ensures CarryOver(left, 0) == 0
  {
    if left < 0 {
      assert (-(left * 100)) / 100 == -left;
    }
  }

  /** Remaining rest is never negative in the stored row. */
  predicate RestNonNegative(s: RestStore) {
    s.restTimeLeft >= 0
  }

  /**
   * The stored row's invariant: every update keeps the remaining rest
   * non-negative, given non-negative accruals (multipliers are positive)
   * and a percentage in [0, 100].
   */
  lemma UpdatesKeepRestNonNegative(s: RestStore, amount: int, percentage: int, today: Date)
    requires RestNonNegative(s)
    ensures RestNonNegative(AddWorkTime(s, amount))
    ensures amount >= 0 ==> RestNonNegative(AccumulateRest(s, amount))
    ensures RestNonNegative(ConsumeRest(s, amount))
    ensures 0 <= percentage <= 100 ==> RestNonNegative(ResetRest(s, percentage, today))
  {
    if 0 <= percentage <= 100 {
      CarryOverBounded(s.restTimeLeft, percentage);
    }
  }

  /**
   * Consuming in two ticks is consuming once the sum: the clamp does not
   * lose or invent rest across ticks.
   */
  lemma ConsumeTwice(s: RestStore, a: int, b: int)
    requires a >= 0 && b >= 0
    ensures ConsumeRest(ConsumeRest(s, a), b) == ConsumeRest(s, a + b)
  {
  }

  /**
   * The work tick and the rest tick write disjoint fields, so when one row
   * update runs after the other the order does not matter.
   */
  lemma TicksCommute(s: RestStore, work: int, rest: int)
    ensures AddWorkTime(AccumulateRest(s, rest), work) == AccumulateRest(AddWorkTime(s, work), rest)
    ensures AddWorkTime(ConsumeRest(s, rest), work) == ConsumeRest(AddWorkTime(s, work), rest)
  {
  }

  // ---------------------------------------------------------------------------
  // The store as a value

  /** What the repository's tables hold: at most one ledger row and one preferences row. */
  datatype Tables = Tables(
    restStore: Option<RestStore>,
    userPreferences: Option<UserPreferences>,
    sessionActivities: seq<SessionActivity>,
    histories: seq<History>)

  /** `getRestStoreOnce`: the stored row, or the default row dated `today` when none is stored. */
  function RestStoreOnce(t: Tables, today: Date): (r: RestStore)
    ensures t.restStore.Some? ==> r == t.restStore.value
    ensures t.restStore.None? ==>
      r.restTimeLeft == r.restStoreAccumulated - r.restStoreUsed == 0 &&
      r.totalTimeWorked == 0 && r.lastResetDate == today
  {
    match t.restStore
    case Some(s) => s
    case None => DefaultRestStore(today)
  }

  /** `getLastResetDate`. */
  function LastResetDate(t: Tables, today: Date): (d: Date)
    ensures t.restStore.Some? ==> d == t.restStore.value.lastResetDate
    ensures t.restStore.None? ==> d == today
  {
    RestStoreOnce(t, today).lastResetDate
  }

  /** `updateRestStore`: the singleton ledger row is replaced (insert or update). */
  function WithRestStore(t: Tables, s: RestStore): (r: Tables)
    ensures r.restStore == Some(s)
    ensures r == t.(restStore := r.restStore)
  {
    t.(restStore := Some(s))
  }

  /** `updateWorkTime` on the store: the row's work total grows by `amount`; only the row changes. */
  function AfterUpdateWorkTime(t: Tables, amount: int, today: Date): (r: Tables)
    ensures RestStoreOnce(r, today).totalTimeWorked == RestStoreOnce(t, today).totalTimeWorked + amount
    ensures RestStoreOnce(r, today).restTimeLeft == RestStoreOnce(t, today).restTimeLeft
    ensures r == t.(restStore := r.restStore)
  {
    WithRestStore(t, AddWorkTime(RestStoreOnce(t, today), amount))
  }

  /** `accumulateRestTime` on the store: the row's remaining rest grows by `amount`; only the row changes. */
  function AfterAccumulateRestTime(t: Tables, amount: int, today: Date): (r: Tables)
    ensures RestStoreOnce(r, today).restTimeLeft == RestStoreOnce(t, today).restTimeLeft + amount
    ensures RestStoreOnce(r, today).totalTimeWorked == RestStoreOnce(t, today).totalTimeWorked
    ensures r == t.(restStore := r.restStore)
  {
    WithRestStore(t, AccumulateRest(RestStoreOnce(t, today), amount))
  }

  /** `consumeRestTime` on the store: the row's remaining rest drops, clamped at zero; only the row changes. */
  function AfterConsumeRestTime(t: Tables, amount: int, today: Date): (r: Tables)
    ensures RestStoreOnce(r, today).restTimeLeft >= 0
    ensures RestStoreOnce(r, today).restTimeLeft >= RestStoreOnce(t, today).restTimeLeft - amount
    ensures RestStoreOnce(r, today).restTimeLeft == 0 ||
            RestStoreOnce(r, today).restTimeLeft == RestStoreOnce(t, today).restTimeLeft - amount
    ensures r == t.(restStore := r.restStore)
  {
    WithRestStore(t, ConsumeRest(RestStoreOnce(t, today), amount))
  }

  /** `resetRestStore` on the store: the row is reset and dated `today`; only the row changes. */
  function AfterResetRestStore(t: Tables, carryOverPercentage: int, today: Date): (r: Tables)
    ensures LastResetDate(r, today) == today
    ensures RestStoreOnce(r, today).restTimeLeft == CarryOver(RestStoreOnce(t, today).restTimeLeft, carryOverPercentage)
    ensures r == t.(restStore := r.restStore)
  {
    WithRestStore(t, ResetRest(RestStoreOnce(t, today), carryOverPercentage, today))
  }

  /**
   * `getUserPreferencesOnce`: the stored row, or (when none exists) the
   * default row, which is written before it is returned.
   */
  function UserPreferencesOnce(t: Tables): (r: (Tables, UserPreferences))
    ensures r.0 == t.(userPreferences := Some(r.1))
    ensures t.userPreferences.Some? ==> r.1 == t.userPreferences.value
    ensures t.userPreferences.None? ==> r.1 == DefaultUserPreferences
  {
    match t.userPreferences
    case Some(p) => (t, p)
    case None => (t.(userPreferences := Some(DefaultUserPreferences)), DefaultUserPreferences)
  }

  /** `updateUserPreferences`: the preferences row becomes `p`; nothing else changes. */
  function AfterUpdateUserPreferences(t: Tables, p: UserPreferences): (r: Tables)
    ensures UserPreferencesOnce(r) == (r, p)
    ensures r == t.(userPreferences := r.userPreferences)
  {
    t.(userPreferences := Some(p))
  }

  /** `insertHistory`: the archive keeps its records and gains `h` at its end; nothing else changes. */
  function AfterInsertHistory(t: Tables, h: History): (r: Tables)
    ensures |r.histories| == |t.histories| + 1
    ensures r.histories[..|t.histories|] == t.histories && r.histories[|t.histories|] == h
    ensures r == t.(histories := r.histories)
  {
    t.(histories := t.histories + [h])
  }

  /** `insertSessionActivity`: the journal table keeps its entries and gains `e` at its end; nothing else changes. */
  function AfterInsertSessionActivity(t: Tables, e: SessionActivity): (r: Tables)
    ensures |r.sessionActivities| == |t.sessionActivities| + 1
    ensures r.sessionActivities[..|t.sessionActivities|] == t.sessionActivities
    ensures r.sessionActivities[|t.sessionActivities|] == e
    ensures r == t.(sessionActivities := r.sessionActivities)
  {
    t.(sessionActivities := t.sessionActivities + [e])
  }

  // ---------------------------------------------------------------------------
  // Properties of the store

  /**
   * The first read of the preferences creates the default row (50 % carry
   * over) and returns it; a second read returns that same row and writes
   * nothing.
   */
  lemma UserPreferencesOnceStable(t: Tables)
    ensures var (t1, p1) := UserPreferencesOnce(t);
      && (t.userPreferences.None? ==> p1 == DefaultUserPreferences && p1.carryOverPercentage == 50)
      && (t.userPreferences.Some? ==> t1 == t && p1 == t.userPreferences.value)
      && t1 == t.(userPreferences := Some(p1))
      && UserPreferencesOnce(t1) == (t1, p1)
  {
  }

  /**
   * Each of the four ledger writes changes the ledger row only: preferences,
   * journal table and archive are left alone, and afterwards a row is stored.
   */
  lemma LedgerWritesTouchOnlyTheRow(t: Tables, amount: int, percentage: int, today: Date)
    ensures var t1 := AfterUpdateWorkTime(t, amount, today);
      t1 == t.(restStore := t1.restStore) && t1.restStore.Some?
    ensures var t1 := AfterAccumulateRestTime(t, amount, today);
      t1 == t.(restStore := t1.restStore) && t1.restStore.Some?
    ensures var t1 := AfterConsumeRestTime(t, amount, today);
      t1 == t.(restStore := t1.restStore) && t1.restStore.Some?
    ensures var t1 := AfterResetRestStore(t, percentage, today);
      t1 == t.(restStore := t1.restStore) && t1.restStore.Some?
  {
  }

  /**
   * Rollover trigger of the day-start check: strictly after the configured
   * day start (`LocalTime.isAfter`) and the ledger not yet reset today.
   */
  function RolloverDue(timeOfDay: int, dayStart: int, lastResetDate: Date, today: Date): (due: bool)
    ensures lastResetDate == today ==> !due
    ensures timeOfDay <= dayStart ==> !due
    ensures !due ==> timeOfDay <= dayStart || lastResetDate == today
  {
    timeOfDay > dayStart && lastResetDate != today
  }

  /**
   * After a reset the stored reset date is `today`, so the trigger is off
   * for the rest of that date whatever the time of day; the tick writes that
   * follow keep it off.
   */
  lemma ResetSilencesRollover(t: Tables, percentage: int, today: Date, amount: int, timeOfDay: int, dayStart: int)
    ensures var t1 := AfterResetRestStore(t, percentage, today);
      && LastResetDate(t1, today) == today
      && !RolloverDue(timeOfDay, dayStart, LastResetDate(t1, today), today)
      && LastResetDate(AfterUpdateWorkTime(t1, amount, today), today) == today
  {
  }

  /**
   * Ledger reads never fire the trigger before the first row is written: the
   * default row is dated `today`.
   */
  lemma NoRolloverWithoutRow(t: Tables, today: Date, timeOfDay: int, dayStart: int)
    requires t.restStore.None?
    ensures !RolloverDue(timeOfDay, dayStart, LastResetDate(t, today), today)
  {
  }

  // ---------------------------------------------------------------------------
  // The repository object

  class TimerRepository {
    var restStore: Option<RestStore>
    var userPreferences: Option<UserPreferences>
    var sessionActivities: seq<SessionActivity>
    var histories: seq<History>

    /** The store as a value. */
    function Contents(): Tables
      reads this
    {
      Tables(restStore, userPreferences, sessionActivities, histories)
    }

    /** A fresh database: no rows at all. */
    constructor ()
      ensures Contents() == Tables(None, None, [], [])
    {
      restStore := None;
      userPreferences := None;
      sessionActivities := [];
      histories := [];
    }

    method GetRestStoreOnce(today: Date) returns (s: RestStore)
      ensures s == RestStoreOnce(Contents(), today)
      ensures restStore.None? ==> s.restTimeLeft == 0 && s.lastResetDate == today
    {
      match restStore
      case Some(row) => s := row;
      case None => s := DefaultRestStore(today);
    }

    method UpdateWorkTime(amount: int, today: Date)
      modifies this
      ensures Contents() == AfterUpdateWorkTime(old(Contents()), amount, today)
    {
      var s := GetRestStoreOnce(today);
      restStore := Some(s.(totalTimeWorked := s.totalTimeWorked + amount));
    }

    method AccumulateRestTime(amount: int, today: Date)
      modifies this
      ensures Contents() == AfterAccumulateRestTime(old(Contents()), amount, today)
    {
      var s := GetRestStoreOnce(today);
      restStore := Some(s.(restTimeLeft := s.restTimeLeft + amount));
    }

    method ConsumeRestTime(amount: int, today: Date)
      modifies this
      ensures Contents() == AfterConsumeRestTime(old(Contents()), amount, today)
      ensures restStore.Some? && restStore.value.restTimeLeft >= 0
    {
      var s := GetRestStoreOnce(today);
      var left := s.restTimeLeft - amount;
      restStore := Some(s.(restTimeLeft := if 0 >= left then 0 else left));
    }

    method ResetRestStore(carryOverPercentage: int, today: Date)
      modifies this
      ensures Contents() == AfterResetRestStore(old(Contents()), carryOverPercentage, today)
    {
      var s := GetRestStoreOnce(today);
      var carryOverRest := KotlinArith.TruncDiv(s.restTimeLeft * carryOverPercentage, 100);
      restStore := Some(s.(restTimeLeft := carryOverRest, lastResetDate := today,
                           restStoreAccumulated := 0, restStoreUsed := 0, totalTimeWorked := 0));
    }

    method GetLastResetDate(today: Date) returns (d: Date)
      ensures d == LastResetDate(Contents(), today)
    {
      var s := GetRestStoreOnce(today);
      d := s.lastResetDate;
    }

    method GetUserPreferencesOnce() returns (p: UserPreferences)
      modifies this
      ensures (Contents(), p) == UserPreferencesOnce(old(Contents()))
    {
      match userPreferences
      case Some(stored) => p := stored;
      case None => p := CreateDefaultUserPreferences();
    }

    method CreateDefaultUserPreferences() returns (p: UserPreferences)
      modifies this
      ensures p == DefaultUserPreferences
      ensures Contents() == old(Contents()).(userPreferences := Some(p))
    {
      p := UserPreferences(0, 50, "00:00", "23:59");
      userPreferences := Some(p);
    }

    method UpdateUserPreferences(p: UserPreferences)
      modifies this
      ensures Contents() == AfterUpdateUserPreferences(old(Contents()), p)
    {
      userPreferences := Some(p);
    }

    method InsertHistory(h: History)
      modifies this
      ensures Contents() == AfterInsertHistory(old(Contents()), h)
    {
      histories := histories + [h];
    }

    method InsertSessionActivity(e: SessionActivity)
      modifies this
      ensures Contents() == AfterInsertSessionActivity(old(Contents()), e)
    {
      sessionActivities := sessionActivities + [e];
    }
  }
}
