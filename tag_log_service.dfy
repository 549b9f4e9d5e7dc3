/**
 * The tag archive of RPCExp/TagLogger/TagLogService.cs: each check asks every
 * configured tag whether it must be archived and caches the records; the cache is
 * flushed to the `TagLogData` table in insert batches of at most 128 rows, after
 * which the table is kept under its size limit; `GetData` reads the table back
 * through a filter and a page.
 */
module TagLogger {
  import opened Wrappers
  import opened Numeric
  import opened Sequences
  import opened Tags
  import opened TagLog
  import opened Retention

  const MaxItemsInInsert: int := 128
  const DefaultPageCount: int := 200

  /** A row of the `TagLogInfo` table: which tag of which device of which facility. */
  datatype TagLogInfo = TagLogInfo(id: int, facility: string, device: string, tagName: string)

  /** The insert batches `SaveAsync` sends for a queue: `min(128, remaining)` rows at a time, front first. */
  function Batches(q: seq<LogRecord>): seq<seq<LogRecord>>
    decreases |q|
  {
    if q == [] then []
    else
      var len := if |q| > MaxItemsInInsert then MaxItemsInInsert else |q|;
      [q[..len]] + Batches(q[len..])
  }

  function Flatten(bs: seq<seq<LogRecord>>): seq<LogRecord>
  {
    if bs == [] then [] else bs[0] + Flatten(bs[1..])
  }

  /** The batches hold the whole queue in order, every batch has 1 to 128 rows, and only the last may be short. */
  lemma {:induction false} BatchesDrainInOrder(q: seq<LogRecord>)
    ensures Flatten(Batches(q)) == q
    ensures forall b :: b in Batches(q) ==> 1 <= |b| <= MaxItemsInInsert
    ensures forall i :: 0 <= i < |Batches(q)| - 1 ==> |Batches(q)[i]| == MaxItemsInInsert
    ensures |Batches(q)| == (|q| + MaxItemsInInsert - 1) / MaxItemsInInsert
    decreases |q|
  {
    if q != [] {
      var len := if |q| > MaxItemsInInsert then MaxItemsInInsert else |q|;
      BatchesDrainInOrder(q[len..]);
      var bs := Batches(q);
      assert bs == [q[..len]] + Batches(q[len..]);
      assert bs[1..] == Batches(q[len..]);
      assert q == q[..len] + q[len..];
      forall i | 0 <= i < |bs| - 1
        ensures |bs[i]| == MaxItemsInInsert
      {
        if i > 0 {
          assert bs[i] == Batches(q[len..])[i - 1];
        } else {
          assert |q[len..]| > 0;
        }
      }
    }
  }

  /** The cache entry for one config's outcome: the record, if there is one; an exception is caught and logged. */
  function RecordOf(out: Outcome): seq<LogRecord>
  {
    if out.Record? then [out.data] else []
  }

  /** The records one check collects from the configs' outcomes, in config order. */
  function Archived(outs: seq<Outcome>): (r: seq<LogRecord>)
    ensures |r| <= |outs|
  {
    if outs == [] then [] else Archived(outs[..|outs| - 1]) + RecordOf(outs[|outs| - 1])
  }

  /** Every collected record is the record of one of the outcomes. */
  lemma {:induction false} ArchivedFromOutcomes(outs: seq<Outcome>)
    ensures forall x :: x in Archived(outs) ==> Record(x) in outs
  {
    if outs != [] {
      var init := outs[..|outs| - 1];
      ArchivedFromOutcomes(init);
      assert forall o :: o in init ==> o in outs;
    }
  }

  /** What each config decides in one check, in config order. */
  function Decisions(ss: seq<Deadband>, ms: seq<Memory>, ids: seq<int>, states: seq<TagState>, now: int): (outs: seq<(Memory, Outcome)>)
    requires |ss| == |ms| == |ids| == |states|
    ensures |outs| == |states|
    ensures forall k :: 0 <= k < |states| ==> outs[k] == Step(ss[k], ms[k], states[k].quality, states[k].value, ids[k], now)
  {
    seq(|states|, k requires 0 <= k < |states| => Step(ss[k], ms[k], states[k].quality, states[k].value, ids[k], now))
  }

  function Returned(outs: seq<(Memory, Outcome)>): (r: seq<Outcome>)
    ensures |r| == |outs| && forall k :: 0 <= k < |outs| ==> r[k] == outs[k].1
  {
    seq(|outs|, k requires 0 <= k < |outs| => outs[k].1)
  }

  lemma ArchivedSnoc(outs: seq<Outcome>, i: nat)
    requires i < |outs|
    ensures Archived(outs[..i + 1]) == Archived(outs[..i]) + RecordOf(outs[i])
  {
    assert outs[..i + 1][..i] == outs[..i];
  }

  /** Every record one check collects is stamped with the check's instant and carries its tag's archive id. */
  lemma ArchivedStamped(ss: seq<Deadband>, ms: seq<Memory>, ids: seq<int>, states: seq<TagState>, now: int)
    requires |ss| == |ms| == |ids| == |states|
    ensures forall x :: x in Archived(Returned(Decisions(ss, ms, ids, states, now))) ==> x.timeStamp == now && x.infoId in ids
  {
    var outs := Returned(Decisions(ss, ms, ids, states, now));
    ArchivedFromOutcomes(outs);
    forall x | x in Archived(outs)
      ensures x.timeStamp == now && x.infoId in ids
    {
      var k :| 0 <= k < |outs| && outs[k] == Record(x);
      assert ids[k] in ids;
    }
  }

  /** The query filter: every member is optional; the time bounds default to the `long` extremes, which disable them. */
  datatype TagLogFilter = TagLogFilter(
    tBegin: int, tEnd: int,
    infoIds: Option<seq<int>>, facility: Option<string>, device: Option<string>, tagNames: Option<seq<string>>,
    offset: Int32, count: Int32)

  const DefaultFilter: TagLogFilter := TagLogFilter(Int64Min, Int64Max, None, None, None, None, 0, 0)

  /** The `TagLogInfo` a row refers to. */
  function InfoOf(infos: seq<TagLogInfo>, id: int): (r: Option<TagLogInfo>)
    ensures r.Some? ==> r.value in infos && r.value.id == id
    ensures r.None? ==> forall i :: i in infos ==> i.id != id
  {
    match FindFirst(infos, (i: TagLogInfo) => i.id == id)
    case None => None
    case Some(k) => Some(infos[k])
  }

  /** A navigation condition on the row's `TagLogInfo`; a row without one does not join. */
  predicate InfoHas(infos: seq<TagLogInfo>, r: LogRecord, p: TagLogInfo -> bool)
  {
    var i := InfoOf(infos, r.infoId);
    i.Some? && p(i.value)
  }

  /** Whether the `j`-th `Where` clause (1 to 6, in the order the C# code adds them) is added to the query. */
  predicate On(f: TagLogFilter, j: nat)
  {
    if j == 1 then f.tBegin != Int64Min
    else if j == 2 then f.tEnd != Int64Max
    else if j == 3 then f.infoIds.Some?
    else if j == 4 then f.facility.Some?
    else if j == 5 then f.device.Some?
    else f.tagNames.Some?
  }

  /** The condition of the `j`-th `Where` clause. */
  predicate Clause(infos: seq<TagLogInfo>, f: TagLogFilter, j: nat, r: LogRecord)
  {
    if j == 1 then r.timeStamp >= f.tBegin
    else if j == 2 then r.timeStamp <= f.tEnd
    else if j == 3 then f.infoIds.Some? && r.infoId in f.infoIds.value
    else if j == 4 then f.facility.Some? && InfoHas(infos, r, (i: TagLogInfo) => i.facility == f.facility.value)
    else if j == 5 then f.device.Some? && InfoHas(infos, r, (i: TagLogInfo) => i.device == f.device.value)
    else f.tagNames.Some? && InfoHas(infos, r, (i: TagLogInfo) => i.tagName in f.tagNames.value)
  }

  /** The query after its first `n` optional `Where` clauses, each added only when it is on. */
  function Staged(rows: seq<LogRecord>, infos: seq<TagLogInfo>, f: TagLogFilter, n: nat): seq<LogRecord>
  {
    if n == 0 then rows
    else
      var q := Staged(rows, infos, f, n - 1);
      if On(f, n) then Filter(q, (r: LogRecord) => Clause(infos, f, n, r)) else q
  }

  function PageOffset(filter: Option<TagLogFilter>): int
  {
    if filter.Some? && filter.value.count != 0 then filter.value.offset else 0
  }

  function PageCount(filter: Option<TagLogFilter>): int
  {
    if filter.Some? && filter.value.count != 0 then filter.value.count else DefaultPageCount
  }

  /** `GetData` as written: the active `Where` clauses one after another, then `Skip(offset).Take(count)`. */
  function GetData(rows: seq<LogRecord>, infos: seq<TagLogInfo>, filter: Option<TagLogFilter>): seq<LogRecord>
  {
    var q := if filter.None? then rows else Staged(rows, infos, filter.value, 6);
    Take(Skip(q, PageOffset(filter)), PageCount(filter))
  }

  /** The selection condition written at once: each filter member that is set constrains the row. */
  predicate Matches(infos: seq<TagLogInfo>, f: TagLogFilter, r: LogRecord)
  {
    (f.tBegin != Int64Min ==> r.timeStamp >= f.tBegin) &&
    (f.tEnd != Int64Max ==> r.timeStamp <= f.tEnd) &&
    (f.infoIds.Some? ==> r.infoId in f.infoIds.value) &&
    (f.facility.Some? ==> InfoHas(infos, r, (i: TagLogInfo) => i.facility == f.facility.value)) &&
    (f.device.Some? ==> InfoHas(infos, r, (i: TagLogInfo) => i.device == f.device.value)) &&
    (f.tagNames.Some? ==> InfoHas(infos, r, (i: TagLogInfo) => i.tagName in f.tagNames.value))
  }

  /** The first `n` clauses together: each one that is on holds. */
  predicate MatchesUpTo(infos: seq<TagLogInfo>, f: TagLogFilter, n: nat, r: LogRecord)
  {
    n == 0 || (MatchesUpTo(infos, f, n - 1, r) && (On(f, n) ==> Clause(infos, f, n, r)))
  }

  /** The staged query selects exactly the rows that meet its clauses, in store order. */
  lemma {:induction false} StagedIsFilter(rows: seq<LogRecord>, infos: seq<TagLogInfo>, f: TagLogFilter, n: nat)
    ensures Staged(rows, infos, f, n) == Filter(rows, (r: LogRecord) => MatchesUpTo(infos, f, n, r))
  {
    if n == 0 {
      FilterAll(rows, (r: LogRecord) => MatchesUpTo(infos, f, 0, r));
    } else {
      StagedIsFilter(rows, infos, f, n - 1);
      var acc := (r: LogRecord) => MatchesUpTo(infos, f, n - 1, r);
      var next := (r: LogRecord) => MatchesUpTo(infos, f, n, r);
      if On(f, n) {
        FilterFuse(rows, acc, (r: LogRecord) => Clause(infos, f, n, r), next);
      } else {
        FilterCongruent(rows, acc, next);
      }
    }
  }

  /** The six clauses of the query together are the filter's `Matches`. */
  lemma AllClauses(infos: seq<TagLogInfo>, f: TagLogFilter, x: LogRecord)
    ensures MatchesUpTo(infos, f, 6, x) == Matches(infos, f, x)
  {
    assert MatchesUpTo(infos, f, 1, x) == (On(f, 1) ==> Clause(infos, f, 1, x));
    assert MatchesUpTo(infos, f, 2, x) == (MatchesUpTo(infos, f, 1, x) && (On(f, 2) ==> Clause(infos, f, 2, x)));
    assert MatchesUpTo(infos, f, 3, x) == (MatchesUpTo(infos, f, 2, x) && (On(f, 3) ==> Clause(infos, f, 3, x)));
    assert MatchesUpTo(infos, f, 4, x) == (MatchesUpTo(infos, f, 3, x) && (On(f, 4) ==> Clause(infos, f, 4, x)));
    assert MatchesUpTo(infos, f, 5, x) == (MatchesUpTo(infos, f, 4, x) && (On(f, 5) ==> Clause(infos, f, 5, x)));
  }

  /** `GetData` returns the page of the rows that match the filter, in store order; with no filter, the first 200 rows. */
  lemma GetDataIsPageOfMatches(rows: seq<LogRecord>, infos: seq<TagLogInfo>, filter: Option<TagLogFilter>)
    ensures filter.None? ==> GetData(rows, infos, filter) == Take(rows, DefaultPageCount)
    ensures filter.Some? ==>
      GetData(rows, infos, filter) ==
      Take(Skip(Filter(rows, (r: LogRecord) => Matches(infos, filter.value, r)), PageOffset(filter)), PageCount(filter))
  {
    if filter.Some? {
      var f := filter.value;
      StagedIsFilter(rows, infos, f, 6);
      forall x | x in rows
        ensures MatchesUpTo(infos, f, 6, x) == Matches(infos, f, x)
      {
        AllClauses(infos, f, x);
      }
      FilterCongruent(rows, (r: LogRecord) => MatchesUpTo(infos, f, 6, r), (r: LogRecord) => Matches(infos, f, r));
    }
  }

  /** Every row `GetData` returns is stored and matches the filter, and there are at most `count` of them (200 by default). */
  lemma GetDataSound(rows: seq<LogRecord>, infos: seq<TagLogInfo>, filter: Option<TagLogFilter>)
    ensures forall r :: r in GetData(rows, infos, filter) ==> r in rows
    ensures filter.Some? ==> forall r :: r in GetData(rows, infos, filter) ==> Matches(infos, filter.value, r)
    ensures |GetData(rows, infos, filter)| <= if PageCount(filter) <= 0 then 0 else PageCount(filter)
    ensures filter.Some? && filter.value.count == 0 ==> |GetData(rows, infos, filter)| <= DefaultPageCount
  {
    GetDataIsPageOfMatches(rows, infos, filter);
    if filter.Some? {
      var m := Filter(rows, (r: LogRecord) => Matches(infos, filter.value, r));
      PageSlice(m, PageOffset(filter), PageCount(filter));
    } else {
      PageSlice(rows, 0, DefaultPageCount);
    }
  }

  /** The archive service: the archived tags, the record cache, the table and its maintenance deadline. */
  class TagLogService {
    var configs: seq<TagLogConfig>
    var cache: seq<LogRecord>
    var tNextSave: int
    var nextMaintain: int
    /** The `TagLogData` table in store order. */
    var rows: seq<LogRecord>
    var minMaintainPeriod: int
    var checkPeriod: int
    var savePeriod: int
    var storeItemsCount: int

    /** A service over `cfgs` started at `now`, with an existing table and the default periods and limit. */
    constructor (cfgs: seq<TagLogConfig>, stored: seq<LogRecord>, now: int)
      ensures configs == cfgs && rows == stored && cache == []
      ensures nextMaintain == now && tNextSave == now + DefaultSavePeriod
      ensures minMaintainPeriod == DefaultMinMaintainPeriod && checkPeriod == DefaultCheckPeriod
      ensures savePeriod == DefaultSavePeriod && storeItemsCount == DefaultStoreItemsCount
    {
      configs, rows, cache := cfgs, stored, [];
      nextMaintain, tNextSave := now, now + DefaultSavePeriod;
      minMaintainPeriod, checkPeriod := DefaultMinMaintainPeriod, DefaultCheckPeriod;
      savePeriod, storeItemsCount := DefaultSavePeriod, DefaultStoreItemsCount;
    }

    /**
     * One pass over the configs at `now`, given the state of each config's tag:
     * each config decides as `Step` does, and the records it returns are cached in config order.
     * `ss`, `ms` and `ids` name the configs' settings, memories and archive ids on entry.
     */
    method Check(states: seq<TagState>, now: int, ghost ss: seq<Deadband>, ghost ms: seq<Memory>, ghost ids: seq<int>)
      requires |states| == |configs| == |ss| == |ms| == |ids|
      requires forall k :: 0 <= k < |configs| ==> configs[k] !in configs[..k]
      requires forall k :: 0 <= k < |configs| ==>
        ss[k] == configs[k].Settings() && ms[k] == Memory(configs[k].lastVal, configs[k].lastTime) && ids[k] == configs[k].infoId
      modifies this`cache, (set c | c in configs)`lastVal, (set c | c in configs)`lastTime
      ensures forall k :: 0 <= k < |configs| ==>
        Memory(configs[k].lastVal, configs[k].lastTime) == Decisions(ss, ms, ids, states, now)[k].0
      ensures cache == old(cache) + Archived(Returned(Decisions(ss, ms, ids, states, now)))
    {
      ghost var outs := Decisions(ss, ms, ids, states, now);
      ghost var decided := Returned(outs);
      for i := 0 to |configs|
        invariant forall k :: 0 <= k < |configs| ==> Memory(configs[k].lastVal, configs[k].lastTime) == if k < i then outs[k].0 else ms[k]
        invariant cache == old(cache) + Archived(decided[..i])
      {
        CheckOne(i, states, now, ss, ms, ids, outs);
        ArchivedSnoc(decided, i);
      }
      assert decided[..|configs|] == decided;
    }

    /** The loop body of `Check` for the `i`th config: it makes its decision, appends its record to the cache, and no other config changes. */
    method CheckOne(i: nat, states: seq<TagState>, now: int, ghost ss: seq<Deadband>, ghost ms: seq<Memory>, ghost ids: seq<int>, ghost outs: seq<(Memory, Outcome)>)
      requires i < |configs| == |states| == |ss| == |ms| == |ids| == |outs|
      requires forall k :: 0 <= k < |configs| ==> configs[k] !in configs[..k]
      requires ss[i] == configs[i].Settings() && ids[i] == configs[i].infoId
      requires outs[i] == Step(ss[i], ms[i], states[i].quality, states[i].value, ids[i], now)
      requires forall k :: 0 <= k < |configs| ==> Memory(configs[k].lastVal, configs[k].lastTime) == if k < i then outs[k].0 else ms[k]
      modifies this`cache, {configs[i]}`lastVal, {configs[i]}`lastTime
      ensures forall k :: 0 <= k < |configs| ==> Memory(configs[k].lastVal, configs[k].lastTime) == if k <= i then outs[k].0 else ms[k]
      ensures cache == old(cache) + RecordOf(outs[i].1)
    {
      var c := configs[i];
      var out := c.NeedToArchive(states[i], now);
      cache := cache + RecordOf(out);
      forall k | 0 <= k < |configs| && k != i
        ensures configs[k] != c
      {
        if k < i {
          assert configs[k] in configs[..i];
        } else {
          assert c in configs[..k];
        }
      }
    }

    /**
     * The flush at the end of a check: when `ShouldFlush` holds, the cache is handed
     * over for saving in order, emptied, and the save deadline reset; afterwards the
     * cache always holds fewer than `FlushThreshold` records.
     */
    method Flush(now: int) returns (saved: seq<LogRecord>)
      modifies this`cache, this`tNextSave
      ensures ShouldFlush(|old(cache)|, old(tNextSave), now) ==>
        saved == old(cache) && cache == [] && tNextSave == now + savePeriod
      ensures !ShouldFlush(|old(cache)|, old(tNextSave), now) ==>
        saved == [] && cache == old(cache) && tNextSave == old(tNextSave)
      ensures |cache| < FlushThreshold
    {
      saved := [];
      if |cache| > 0 {
        if tNextSave <= now || |cache| >= BaseCapacity * 4 / 5 {
          tNextSave := now + savePeriod;
          saved := cache;
          cache := [];
        }
      }
    }

    /**
     * One round of the service loop: the check at `start`, the flush and the sleep
     * computed at `end`. Every record of the round is either handed over for saving,
     * in order after what was cached before, or still cached.
     */
    method Round(states: seq<TagState>, start: int, end: int, ghost ss: seq<Deadband>, ghost ms: seq<Memory>, ghost ids: seq<int>)
      returns (saved: seq<LogRecord>, sleepMs: int)
      requires |states| == |configs| == |ss| == |ms| == |ids|
      requires forall k :: 0 <= k < |configs| ==> configs[k] !in configs[..k]
      requires forall k :: 0 <= k < |configs| ==>
        ss[k] == configs[k].Settings() && ms[k] == Memory(configs[k].lastVal, configs[k].lastTime) && ids[k] == configs[k].infoId
      modifies this`cache, this`tNextSave, (set c | c in configs)`lastVal, (set c | c in configs)`lastTime
      ensures forall k :: 0 <= k < |configs| ==>
        Memory(configs[k].lastVal, configs[k].lastTime) == Decisions(ss, ms, ids, states, start)[k].0
      ensures var c := old(cache) + Archived(Returned(Decisions(ss, ms, ids, states, start)));
        if ShouldFlush(|c|, old(tNextSave), end) then saved == c && cache == [] && tNextSave == end + savePeriod
        else saved == [] && cache == c && tNextSave == old(tNextSave)
      ensures saved + cache == old(cache) + Archived(Returned(Decisions(ss, ms, ids, states, start)))
      ensures |cache| < FlushThreshold
      ensures sleepMs == SleepMs(start + checkPeriod, end)
    {
      var tNextCheck := start + checkPeriod;
      Check(states, start, ss, ms, ids);
      saved := Flush(end);
      sleepMs := if tNextCheck > end then (tNextCheck - end) / TicksPerMillisecond else MinWaitMs;
    }

    /**
     * `SaveAsync`: a missing or empty queue changes nothing; otherwise the queue is
     * inserted in `Batches` order, so the table gains it at its end, and then `Maintain` runs.
     */
    method SaveAsync(queue: Option<seq<LogRecord>>, now: int) returns (batches: seq<seq<LogRecord>>)
      modifies this`rows, this`nextMaintain
      ensures queue.None? || queue.value == [] ==>
        batches == [] && rows == old(rows) && nextMaintain == old(nextMaintain)
      ensures queue.Some? && queue.value != [] ==>
        batches == Batches(queue.value) &&
        (rows, nextMaintain) == Maintain(old(rows) + queue.value, old(nextMaintain), now, minMaintainPeriod, storeItemsCount)
    {
      batches := [];
      if queue.None? || |queue.value| == 0 {
        return;
      }
      var q := queue.value;
      while |q| > 0
        invariant rows + q == old(rows) + queue.value && nextMaintain == old(nextMaintain)
        invariant batches + Batches(q) == Batches(queue.value)
        decreases |q|
      {
        var len := if |q| > MaxItemsInInsert then MaxItemsInInsert else |q|;
        ghost var q0 := q;
        var batch := [];
        for i := 0 to len
          invariant batch == q0[..i] && q == q0[i..]
        {
          batch := batch + [q[0]];
          q := q[1..];
        }
        assert Batches(q0) == [batch] + Batches(q);
        rows := rows + batch;
        batches := batches + [batch];
      }
      assert rows == old(rows) + queue.value;
      assert batches == Batches(queue.value);
      if nextMaintain < now {
        nextMaintain := now + minMaintainPeriod;
        var count := |rows|;
        if count > storeItemsCount {
          var ctr := RemoveCount(count, storeItemsCount);
          rows := Purged(rows, ctr);
          nextMaintain := now + 4 * minMaintainPeriod;
        }
      }
    }
  }
}
