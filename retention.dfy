/**
 * The bookkeeping both loggers share (RPCExp/TagLogger/TagLogService.cs and
 * RPCExp/AlarmLogger/AlarmService.cs): the table size limit and its purge, the
 * maintenance deadline, the rule that flushes the in-memory cache, and the sleep
 * between two checks. Times are ticks.
 */
module Retention {
  import opened Numeric

  const BaseCapacity: int := 32
  const MinWaitMs: int := 50
  /** The cache is flushed early once it is 80% full. */
  const FlushThreshold: int := BaseCapacity * 4 / 5

  const DefaultStoreItemsCount: int := 10_000_000
  const DefaultMinMaintainPeriod: int := 10 * TicksPerSecond
  const DefaultCheckPeriod: int := 500 * TicksPerMillisecond
  const DefaultSavePeriod: int := 10 * TicksPerSecond

  /** `DeltaRecordsCount`: the slack a purge removes beyond the limit, 5% of it rounded toward zero, plus one. */
  function DeltaRecordsCount(store: int): int
  {
    1 + TruncDiv(store * 5, 100)
  }

  /** For a non-negative limit the slack is one more than a twentieth of it, rounded down. */
  lemma DeltaIsOneTwentieth(store: int)
    requires store >= 0
    ensures 20 * (DeltaRecordsCount(store) - 1) <= store < 20 * DeltaRecordsCount(store)
    ensures 1 <= DeltaRecordsCount(store) <= store + 1
  {
    assert TruncDiv(store * 5, 100) == (store * 5) / 100;
  }

  /** The number of rows a purge of a `count`-row table removes, clamped to an `int`. */
  function RemoveCount(count: int, store: int): (ctr: int)
    ensures 0 <= ctr <= Int32Max
  {
    var toRemove := count - store + DeltaRecordsCount(store);
    if toRemove < 0 then 0 else if toRemove > Int32Max then Int32Max else toRemove
  }

  /** `Take(ctr)` then `RemoveRange`: the first `ctr` rows in store order go. */
  function Purged<T>(rows: seq<T>, ctr: int): (r: seq<T>)
    requires ctr >= 0
    ensures |r| == if ctr >= |rows| then 0 else |rows| - ctr
    ensures rows == rows[..|rows| - |r|] + r
  {
    if ctr >= |rows| then [] else rows[ctr..]
  }

  /**
   * A purge of an over-full table leaves it strictly below a positive limit:
   * `Delta` rows below it unless the table was emptied, and it removes at least one row.
   */
  lemma PurgeBelowLimit<T>(rows: seq<T>, store: int)
    requires 0 <= store < |rows|
    requires |rows| - store + DeltaRecordsCount(store) <= Int32Max
    ensures var r := Purged(rows, RemoveCount(|rows|, store));
      |r| < |rows| && |r| <= store && (store > 0 ==> |r| < store) &&
      (|r| == 0 || |r| == store - DeltaRecordsCount(store))
  {
    DeltaIsOneTwentieth(store);
  }

  /**
   * The maintenance after a save, with the table already holding the new rows:
   * nothing happens before the deadline; past it the deadline moves one period on,
   * or four after a purge, and a purge happens only when the table is over the limit.
   */
  function Maintain<T>(rows: seq<T>, nextMaintain: int, now: int, period: int, store: int): (seq<T>, int)
  {
    if !(nextMaintain < now) then (rows, nextMaintain)
    else if |rows| > store then (Purged(rows, RemoveCount(|rows|, store)), now + 4 * period)
    else (rows, now + period)
  }

  /** What maintenance keeps: a suffix of the table, all of it unless the deadline has passed and the table is over the limit. */
  lemma MaintainKeepsNewest<T>(rows: seq<T>, nextMaintain: int, now: int, period: int, store: int)
    ensures var (r, next) := Maintain(rows, nextMaintain, now, period, store);
      rows == rows[..|rows| - |r|] + r &&
      (r != rows ==> nextMaintain < now && |rows| > store && next == now + 4 * period) &&
      (nextMaintain >= now ==> next == nextMaintain) &&
      (nextMaintain < now && |rows| <= store ==> r == rows && next == now + period)
  {
  }

  /** `ShouldFlush`: a non-empty cache is flushed at its deadline or once it is 80% full. */
  predicate ShouldFlush(count: int, tNextSave: int, now: int)
  {
    count > 0 && (tNextSave <= now || count >= FlushThreshold)
  }

  /** A cache that is not flushed holds fewer than `FlushThreshold` items, and an empty one is never flushed. */
  lemma KeptCacheIsSmall(count: int, tNextSave: int, now: int)
    requires count >= 0
    ensures !ShouldFlush(count, tNextSave, now) ==> count < FlushThreshold
    ensures count == 0 ==> !ShouldFlush(count, tNextSave, now)
    ensures count >= 25 ==> ShouldFlush(count, tNextSave, now)
  {
  }

  /** `(int)(tNextCheck - now).TotalMilliseconds` if the next check is ahead, else `minWaitTimeMs`. */
  function SleepMs(tNextCheck: int, now: int): (ms: int)
    ensures ms >= 0
    ensures tNextCheck > now ==> ms * TicksPerMillisecond <= tNextCheck - now < (ms + 1) * TicksPerMillisecond
    ensures tNextCheck <= now ==> ms == MinWaitMs
  {
    if tNextCheck > now then (tNextCheck - now) / TicksPerMillisecond else MinWaitMs
  }

  /** With the default check period a check never sleeps longer than half a second. */
  lemma SleepWithinCheckPeriod(start: int, now: int)
    requires now >= start
    ensures SleepMs(start + DefaultCheckPeriod, now) <= 500
  {
  }
}
