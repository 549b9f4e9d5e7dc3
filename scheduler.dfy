/**
 * The polling scheduler of `DeviceAbstract` (RPCExp/Common/DeviceAbstract.cs):
 * which tags are due in this pass, the earliest next deadline, and the clamp
 * applied to the wait before the next cycle.
 */
module Scheduler {
  import opened Wrappers
  import opened Numeric
  import opened Tags

  /** Device-level polling policy (all periods in ticks). */
  datatype Policy = Policy(badCommWaitPeriod: int, updateInActiveTags: bool, updateInActiveTagsPeriod: int)

  /** Defaults of `DeviceAbstract`: 10 s after a failure, inactive tags refreshed every 20 s. */
  const DefaultPolicy: Policy := Policy(10 * TicksPerSecond, true, 20 * TicksPerSecond)

  /** Everything due within this horizon is batched into the current pass. */
  const Horizon: int := TicksPerSecond

  /** Every tag has a (possibly empty) group dictionary, so `IsActive` does not throw. */
  predicate Configured(tags: seq<Tag>)
  {
    forall i :: 0 <= i < |tags| ==> tags[i].groups.Some?
  }

  /** The first `n` tags have a group dictionary: a scan has got past them without throwing. */
  predicate ConfiguredBefore(tags: seq<Tag>, n: nat)
  {
    n <= |tags| && forall i :: 0 <= i < n ==> tags[i].groups.Some?
  }

  predicate Active(t: Tag)
    requires t.groups.Some?
  {
    AnyActive(t.groups.value)
  }

  /** A tag is looked at unless it is inactive, inactive tags are not refreshed, and the pass is not forced. */
  predicate Considered(t: Tag, p: Policy, force: bool)
    requires t.groups.Some?
  {
    !(!Active(t) && !p.updateInActiveTags && !force)
  }

  /** The period used for a tag in this pass. */
  function EffectivePeriod(t: Tag, p: Policy): (period: int)
    requires t.groups.Some?
    ensures !Active(t) && p.updateInActiveTags ==> period == p.updateInActiveTagsPeriod
    ensures (Active(t) || !p.updateInActiveTags) && t.state.quality == Good ==> period == Period(t.groups)
    ensures (Active(t) || !p.updateInActiveTags) && t.state.quality != Good ==> period == p.badCommWaitPeriod
  {
    if !Active(t) && p.updateInActiveTags then p.updateInActiveTagsPeriod
    else if t.state.quality == Good then Period(t.groups)
    else p.badCommWaitPeriod
  }

  function TagNextTick(t: Tag, p: Policy): int
    requires t.groups.Some?
  {
    t.state.last + EffectivePeriod(t, p)
  }

  /** Whether the tag is returned: a forced pass returns every tag, otherwise a considered tag due within the horizon. */
  predicate Returned(t: Tag, p: Policy, now: int, force: bool)
    requires t.groups.Some?
  {
    Considered(t, p, force) && (force || TagNextTick(t, p) <= now + Horizon)
  }

  /** The deadline a considered tag proposes: its next tick if it is not yet due, else one period from now. */
  function Candidate(t: Tag, p: Policy, now: int): int
    requires t.groups.Some?
  {
    if TagNextTick(t, p) > now + Horizon then TagNextTick(t, p) else now + EffectivePeriod(t, p)
  }

  /** The next deadline computed over `tags`, starting from `now + BadCommWaitPeriod`. */
  function NextTime(tags: seq<Tag>, p: Policy, now: int, force: bool): int
    requires Configured(tags)
    decreases |tags|
  {
    if tags == [] then now + p.badCommWaitPeriod
    else
      var prev := NextTime(tags[..|tags| - 1], p, now, force);
      var t := tags[|tags| - 1];
      if Considered(t, p, force) && Candidate(t, p, now) < prev then Candidate(t, p, now) else prev
  }

  /** Indices, in order, of the returned tags among the first `n`. */
  function DuePrefix(tags: seq<Tag>, p: Policy, now: int, force: bool, n: nat): seq<nat>
    requires ConfiguredBefore(tags, n)
  {
    if n == 0 then []
    else DuePrefix(tags, p, now, force, n - 1) + (if Returned(tags[n - 1], p, now, force) then [n - 1] else [])
  }

  predicate StrictlyIncreasing(s: seq<nat>)
  {
    forall i, j :: 0 <= i < j < |s| ==> s[i] < s[j]
  }

  lemma {:induction false} DuePrefixMembers(tags: seq<Tag>, p: Policy, now: int, force: bool, n: nat)
    requires Configured(tags) && n <= |tags|
    ensures StrictlyIncreasing(DuePrefix(tags, p, now, force, n))
    ensures forall k: nat :: k in DuePrefix(tags, p, now, force, n) <==> k < n && Returned(tags[k], p, now, force)
  {
    if n > 0 {
      DuePrefixMembers(tags, p, now, force, n - 1);
      var prev := DuePrefix(tags, p, now, force, n - 1);
      assert forall i :: 0 <= i < |prev| ==> prev[i] < n - 1 by {
        forall i | 0 <= i < |prev| ensures prev[i] < n - 1 {
          assert prev[i] in prev;
        }
      }
    }
  }

  /** The deadline never exceeds `now + BadCommWaitPeriod` nor any considered tag's candidate. */
  lemma {:induction false} NextTimeBounds(tags: seq<Tag>, p: Policy, now: int, force: bool)
    requires Configured(tags)
    ensures NextTime(tags, p, now, force) <= now + p.badCommWaitPeriod
    ensures forall k :: 0 <= k < |tags| && Considered(tags[k], p, force) ==>
      NextTime(tags, p, now, force) <= Candidate(tags[k], p, now)
  {
    if tags != [] {
      var init := tags[..|tags| - 1];
      NextTimeBounds(init, p, now, force);
      forall k | 0 <= k < |tags| - 1
        ensures tags[k] == init[k]
      {
      }
    }
  }

  /** The deadline is `now + BadCommWaitPeriod` or the candidate of some considered tag. */
  lemma {:induction false} NextTimeAttained(tags: seq<Tag>, p: Policy, now: int, force: bool)
    requires Configured(tags)
    ensures NextTime(tags, p, now, force) == now + p.badCommWaitPeriod ||
      exists k :: 0 <= k < |tags| && Considered(tags[k], p, force) &&
        NextTime(tags, p, now, force) == Candidate(tags[k], p, now)
  {
    if tags != [] {
      var init := tags[..|tags| - 1];
      NextTimeAttained(init, p, now, force);
      if NextTime(tags, p, now, force) != now + p.badCommWaitPeriod &&
         NextTime(tags, p, now, force) == NextTime(init, p, now, force) {
        var k :| 0 <= k < |init| && Considered(init[k], p, force) &&
          NextTime(init, p, now, force) == Candidate(init[k], p, now);
        assert tags[k] == init[k];
      }
    }
  }

  /** Two tag lists that differ only in tags neither pass considers. */
  predicate SameConsidered(tags: seq<Tag>, others: seq<Tag>, p: Policy, force: bool)
    requires Configured(tags) && Configured(others)
  {
    |tags| == |others| &&
    forall k :: 0 <= k < |tags| ==>
      Considered(tags[k], p, force) == Considered(others[k], p, force) &&
      (Considered(tags[k], p, force) ==> tags[k] == others[k])
  }

  /** Skipped tags (inactive, with inactive refresh off, in a non-forced pass) affect neither result. */
  lemma {:induction false} SkippedTagsIrrelevant(tags: seq<Tag>, others: seq<Tag>, p: Policy, now: int, force: bool, n: nat)
    requires Configured(tags) && Configured(others) && SameConsidered(tags, others, p, force)
    requires n <= |tags|
    ensures NextTime(tags[..n], p, now, force) == NextTime(others[..n], p, now, force)
    ensures DuePrefix(tags, p, now, force, n) == DuePrefix(others, p, now, force, n)
  {
    if n > 0 {
      SkippedTagsIrrelevant(tags, others, p, now, force, n - 1);
      assert tags[..n][..n - 1] == tags[..n - 1];
      assert others[..n][..n - 1] == others[..n - 1];
    }
  }

  /** A tag that is inactive while inactive refresh is off is never returned by a non-forced pass. */
  lemma InactiveNeverReturned(t: Tag, p: Policy, now: int)
    requires t.groups.Some? && !Active(t) && !p.updateInActiveTags
    ensures !Returned(t, p, now, false) && !Considered(t, p, false)
  {
  }

  /** The properties of a pass, gathered for the method's postcondition. */
  lemma PassFacts(tags: seq<Tag>, p: Policy, now: int, force: bool)
    requires Configured(tags)
    ensures StrictlyIncreasing(DuePrefix(tags, p, now, force, |tags|))
    ensures forall k: nat :: k in DuePrefix(tags, p, now, force, |tags|) <==> k < |tags| && Returned(tags[k], p, now, force)
    ensures NextTime(tags, p, now, force) <= now + p.badCommWaitPeriod
    ensures forall k :: 0 <= k < |tags| && Considered(tags[k], p, force) && k !in DuePrefix(tags, p, now, force, |tags|) ==>
      NextTime(tags, p, now, force) <= TagNextTick(tags[k], p)
    ensures forall k :: k in DuePrefix(tags, p, now, force, |tags|) && TagNextTick(tags[k], p) <= now + Horizon ==>
      NextTime(tags, p, now, force) <= now + EffectivePeriod(tags[k], p)
  {
    var due := DuePrefix(tags, p, now, force, |tags|);
    var next := NextTime(tags, p, now, force);
    DuePrefixMembers(tags, p, now, force, |tags|);
    NextTimeBounds(tags, p, now, force);
    forall k | 0 <= k < |tags| && Considered(tags[k], p, force) && k !in due
      ensures next <= TagNextTick(tags[k], p)
    {
      assert !Returned(tags[k], p, now, force);
      assert next <= Candidate(tags[k], p, now);
    }
    forall k | k in due && TagNextTick(tags[k], p) <= now + Horizon
      ensures next <= now + EffectivePeriod(tags[k], p)
    {
      assert Returned(tags[k], p, now, force);
      assert next <= Candidate(tags[k], p, now);
    }
  }

  /** One more tag scanned: how the due list and the deadline of the prefix grow. */
  lemma ScanStep(tags: seq<Tag>, p: Policy, now: int, force: bool, i: nat)
    requires ConfiguredBefore(tags, i + 1)
    ensures DuePrefix(tags, p, now, force, i + 1) ==
      DuePrefix(tags, p, now, force, i) + (if Returned(tags[i], p, now, force) then [i] else [])
    ensures NextTime(tags[..i + 1], p, now, force) ==
      if Considered(tags[i], p, force) && Candidate(tags[i], p, now) < NextTime(tags[..i], p, now, force)
      then Candidate(tags[i], p, now) else NextTime(tags[..i], p, now, force)
  {
    assert tags[..i + 1][..i] == tags[..i];
  }

  /**
   * The loop body of `NeedToUpdate` for one tag.  `IsActive` is evaluated first and
   * throws (`ok` false) when the tag has no group dictionary; otherwise: whether the tag
   * is returned, and the deadline, lowered to the tag's candidate when the tag is considered.
   */
  method ScanTag(t: Tag, p: Policy, now: int, force: bool, nextTime: int) returns (ok: bool, returned: bool, nextTime': int)
    ensures ok <==> t.groups.Some?
    ensures ok ==> returned == Returned(t, p, now, force)
    ensures ok ==> nextTime' == if Considered(t, p, force) && Candidate(t, p, now) < nextTime then Candidate(t, p, now) else nextTime
  {
    var afterTick := now + Horizon;
    nextTime' := nextTime;
    var isActive := IsActive(t.groups);
    if isActive.None? {
      return false, false, nextTime';
    }
    ok := true;
    var active := isActive.value;
    if !active && !p.updateInActiveTags && !force {
      return true, false, nextTime';
    }
    var period := if t.state.quality == Good then Period(t.groups) else p.badCommWaitPeriod;
    if !active && p.updateInActiveTags {
      period := p.updateInActiveTagsPeriod;
    }
    assert active == Active(t) && period == EffectivePeriod(t, p);
    var tagNextTick := t.state.last + period;
    if tagNextTick > afterTick {
      if nextTime' > tagNextTick {
        nextTime' := tagNextTick;
      }
      if !force {
        return true, false, nextTime';
      }
    } else {
      tagNextTick := now + period;
      if nextTime' > tagNextTick {
        nextTime' := tagNextTick;
      }
    }
    returned := true;
  }

  /**
   * `DeviceAbstract.NeedToUpdate`: the indices of the tags to poll in this pass and the
   * earliest deadline; `ok` is false when the scan throws on a tag without a group
   * dictionary.  Nothing is modified.
   */
  method NeedToUpdate(tags: seq<Tag>, p: Policy, now: int, force: bool) returns (ok: bool, due: seq<nat>, nextTime: int)
    ensures ok <==> Configured(tags)
    ensures ok ==> due == DuePrefix(tags, p, now, force, |tags|)
    ensures ok ==> nextTime == NextTime(tags, p, now, force)
    ensures ok ==> StrictlyIncreasing(due)
    ensures ok ==> forall k: nat :: k in due <==> k < |tags| && Returned(tags[k], p, now, force)
    ensures ok && force ==> forall k: nat :: k < |tags| ==> k in due
    ensures ok ==> nextTime <= now + p.badCommWaitPeriod
    ensures ok ==> forall k :: 0 <= k < |tags| && Considered(tags[k], p, force) && k !in due ==>
      nextTime <= TagNextTick(tags[k], p)
    ensures ok ==> forall k :: k in due && TagNextTick(tags[k], p) <= now + Horizon ==>
      nextTime <= now + EffectivePeriod(tags[k], p)
  {
    nextTime := now + p.badCommWaitPeriod;
    due := [];
    var i := 0;
    while i < |tags|
      invariant 0 <= i <= |tags|
      invariant ConfiguredBefore(tags, i)
      invariant due == DuePrefix(tags, p, now, force, i)
      invariant nextTime == NextTime(tags[..i], p, now, force)
    {
      var scanned, returned;
      scanned, returned, nextTime := ScanTag(tags[i], p, now, force, nextTime);
      if !scanned {
        return false, due, nextTime;
      }
      ScanStep(tags, p, now, force, i);
      if returned {
        due := due + [i];
      }
      i := i + 1;
    }
    assert tags[..|tags|] == tags;
    PassFacts(tags, p, now, force);
    ok := true;
  }

  /**
   * The wait clamp of the device loop (`ServiceTaskAsync`): a negative wait becomes 0,
   * then at least 1 ms, a wait above 5 s is halved, and the result is capped at 5 s.
   */
  function ClampWait(raw: int): (w: int)
    ensures 10_000 <= w <= 50_000_000
    ensures raw <= 10_000 ==> w == 10_000
    ensures 10_000 <= raw <= 50_000_000 ==> w == raw
    ensures 50_000_000 < raw <= 100_000_000 ==> w == raw / 2
    ensures raw > 100_000_000 ==> w == 50_000_000
  {
    var w0 := if raw < 0 then 0 else raw;
    var w1 := if w0 > 10_000 then w0 else 10_000;
    var w2 := if w1 > 50_000_000 then w1 / 2 else w1;
    if w2 < 50_000_000 then w2 else 50_000_000
  }

  /** The delay handed to `Task.Delay`, in milliseconds: between 1 ms and 5 s. */
  function DelayMs(nextTime: int, now: int): (ms: int)
    ensures 1 <= ms <= 5_000
    ensures ms == ClampWait(nextTime - now) / TicksPerMillisecond
  {
    ClampWait(nextTime - now) / TicksPerMillisecond
  }
}
