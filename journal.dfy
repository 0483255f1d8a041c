/**
 * The session journal as a timeline: when is a list of journal entries a
 * gap-free, non-overlapping cover of an interval, and what follows from it.
 */
module Journal {
  import opened Entities

  /**
   * `log` covers [from, to] end to end: the first entry starts at `from`,
   * each later entry starts where the one before it ended, the last ends at
   * `to`, and no entry runs backwards.
   */
  predicate Tiles(log: seq<SessionActivity>, from: int, to: int)
    decreases |log|
  {
    if log == [] then from == to
    else
      var last := log[|log| - 1];
      && last.startTime <= last.endTime
      && last.endTime == to
      && Tiles(log[..|log| - 1], from, last.startTime)
  }

  /** The summed length of the entries. */
  function TotalDuration(log: seq<SessionActivity>): int
    decreases |log|
  {
    if log == [] then 0
    else TotalDuration(log[..|log| - 1]) + (log[|log| - 1].endTime - log[|log| - 1].startTime)
  }

  /** A cover of [from, to] extended by an entry [to, end] covers [from, end]. */
  lemma TilesExtend(log: seq<SessionActivity>, from: int, to: int, e: SessionActivity)
    requires Tiles(log, from, to)
    requires e.startTime == to <= e.endTime
    ensures Tiles(log + [e], from, e.endTime)
  {
    assert (log + [e])[..|log|] == log;
  }

  /** A log covers at most one interval from a given start. */
  lemma TilesEndUnique(log: seq<SessionActivity>, from: int, to1: int, to2: int)
    requires Tiles(log, from, to1) && Tiles(log, from, to2)
    ensures to1 == to2
  {
  }

  /** The entries of a cover of [from, to] add up to exactly `to - from`. */
  lemma {:induction false} TilesDuration(log: seq<SessionActivity>, from: int, to: int)
    requires Tiles(log, from, to)
    ensures from <= to
    ensures TotalDuration(log) == to - from
    decreases |log|
  {
    if log != [] {
      TilesDuration(log[..|log| - 1], from, log[|log| - 1].startTime);
    }
  }

  /**
   * The entries of a cover lie inside [from, to] and are in time order
   * without overlap: every entry ends before any later entry starts.
   */
  lemma {:induction false} TilesOrdered(log: seq<SessionActivity>, from: int, to: int)
    requires Tiles(log, from, to)
    ensures forall i :: 0 <= i < |log| ==> from <= log[i].startTime <= log[i].endTime <= to
    ensures forall i, j :: 0 <= i < j < |log| ==> log[i].endTime <= log[j].startTime
    decreases |log|
  {
    if log != [] {
      var n := |log| - 1;
      var prefix := log[..n];
      TilesOrdered(prefix, from, log[n].startTime);
      TilesDuration(prefix, from, log[n].startTime);
      assert forall i :: 0 <= i < n ==> log[i] == prefix[i];
    }
  }
}
