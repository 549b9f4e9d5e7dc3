/**
 * The older Modbus/TCP device of RPCExp/Common/Device.cs. It has its own due-tag
 * selection (`Update`, with `groupNextUpdate` and `count`), its own service loop
 * (first pass forced, wait clamp, comm-failure path) and its own window readers,
 * in which a failed window only downgrades the quality of its tags and a bit is
 * handed to its tag as the single byte 0xff or 0x00.
 */
module Legacy {
  import opened Numeric
  import opened Tags
  import opened Sequences
  import opened Windows
  import Scheduler
  import ModbusPolling

  /** `Device.BadCommWaitPeriod` default: 10 s. */
  const DefaultBadCommWaitPeriod: int := 10 * TicksPerSecond

  /** What a read leaves in a tag: quality, time of the last value, and the raw bytes it was handed. */
  datatype MState = MState(quality: Quality, timestampLast: int, raw: seq<Byte>)

  /** A tag of the older device: address, activity, its own update period, and its state. */
  datatype MTag = MTag(addr: Address, active: bool, updatePeriod: int, state: MState)

  /** `SetValue(bytes)`: the tag takes the bytes, becomes GOOD and is stamped with the time of the read. */
  function Delivered(t: MTag, bytes: seq<Byte>, now: int): MTag
  {
    t.(state := MState(Good, now, bytes))
  }

  /** `SetQty(q)`: only the quality changes. */
  function WithQuality(t: MTag, q: Quality): MTag
  {
    t.(state := t.state.(quality := q))
  }

  /** When a tag is next due: its own period after a GOOD read, the device's back-off otherwise. */
  function NextTick(t: MTag, badWait: int): int
  {
    if t.state.quality == Good then t.state.timestampLast + t.updatePeriod else t.state.timestampLast + badWait
  }

  /** Inactive tags are skipped unless the pass is forced. */
  predicate Considered(t: MTag, force: bool)
  {
    t.active || force
  }

  /** The tag is read in this pass: considered, and due within the horizon `after` or forced. */
  predicate Serviced(t: MTag, force: bool, badWait: int, after: int)
  {
    Considered(t, force) && (NextTick(t, badWait) <= after || force)
  }

  /** A considered tag that is not due within the horizon: it bounds the next deadline. */
  predicate Pending(t: MTag, force: bool, badWait: int, after: int)
  {
    Considered(t, force) && NextTick(t, badWait) > after
  }

  function ServicedAt(tags: seq<MTag>, force: bool, badWait: int, after: int): nat -> bool
  {
    (i: nat) => i < |tags| && Serviced(tags[i], force, badWait, after)
  }

  /** The positions of the tags read in this pass, in order. */
  function ServicedIndices(tags: seq<MTag>, force: bool, badWait: int, after: int): seq<nat>
  {
    Where(|tags|, ServicedAt(tags, force, badWait, after))
  }

  /** The tags read are exactly the forced ones or the active ones due within the horizon, each once, in order. */
  lemma ServicedExactly(tags: seq<MTag>, force: bool, badWait: int, after: int)
    ensures StrictlyIncreasing(ServicedIndices(tags, force, badWait, after))
    ensures forall k: nat :: k in ServicedIndices(tags, force, badWait, after) <==>
      k < |tags| && (force || (tags[k].active && NextTick(tags[k], badWait) <= after))
    ensures forall j :: 0 <= j < |ServicedIndices(tags, force, badWait, after)| ==>
      ServicedIndices(tags, force, badWait, after)[j] < |tags|
    ensures force ==> |ServicedIndices(tags, force, badWait, after)| == |tags|
  {
    var keep := ServicedAt(tags, force, badWait, after);
    WhereMembers(|tags|, keep);
    if force {
      AllKept(|tags|, keep);
    }
  }

  /** A predicate that holds below `n` keeps all `n` positions. */
  lemma {:induction false} AllKept(n: nat, keep: nat -> bool)
    requires forall k: nat :: k < n ==> keep(k)
    ensures |Where(n, keep)| == n
  {
    if n > 0 {
      AllKept(n - 1, keep);
    }
  }

  /** `groupNextUpdate`: the earliest next tick of a pending tag, `long.MaxValue` if there is none. */
  function GroupNext(tags: seq<MTag>, force: bool, badWait: int, after: int): int
    decreases |tags|
  {
    if tags == [] then Int64Max
    else
      var g := GroupNext(tags[..|tags| - 1], force, badWait, after);
      var t := tags[|tags| - 1];
      if Pending(t, force, badWait, after) && g > NextTick(t, badWait) then NextTick(t, badWait) else g
  }

  /** The next deadline is a lower bound of the pending tags' next ticks and is attained by one of them, or is `long.MaxValue`. */
  lemma {:induction false} GroupNextSpec(tags: seq<MTag>, force: bool, badWait: int, after: int)
    ensures GroupNext(tags, force, badWait, after) <= Int64Max
    ensures forall i :: 0 <= i < |tags| && Pending(tags[i], force, badWait, after) ==>
      GroupNext(tags, force, badWait, after) <= NextTick(tags[i], badWait)
    ensures GroupNext(tags, force, badWait, after) == Int64Max ||
      exists i :: 0 <= i < |tags| && Pending(tags[i], force, badWait, after) &&
        GroupNext(tags, force, badWait, after) == NextTick(tags[i], badWait)
    decreases |tags|
  {
    if tags != [] {
      var init := tags[..|tags| - 1];
      GroupNextSpec(init, force, badWait, after);
      var g := GroupNext(init, force, badWait, after);
      forall i | 0 <= i < |tags| - 1 && Pending(tags[i], force, badWait, after)
        ensures GroupNext(tags, force, badWait, after) <= NextTick(tags[i], badWait)
      {
        assert init[i] == tags[i];
      }
      if GroupNext(tags, force, badWait, after) == g && g != Int64Max {
        var i :| 0 <= i < |init| && Pending(init[i], force, badWait, after) && g == NextTick(init[i], badWait);
        assert tags[i] == init[i];
      }
    }
  }

  /** Tags read in this pass never lower the deadline: it lies beyond the horizon. */
  lemma GroupNextBeyondHorizon(tags: seq<MTag>, force: bool, badWait: int, after: int)
    ensures GroupNext(tags, force, badWait, after) == Int64Max || GroupNext(tags, force, badWait, after) > after
  {
    GroupNextSpec(tags, force, badWait, after);
  }

  function MemberAt(tags: seq<MTag>, i: nat): Member
    requires i < |tags|
  {
    Member(i, tags[i].addr.begin, tags[i].addr.length)
  }

  /** The members a region's group receives from the tags read, in order. */
  function RegionGroup(tags: seq<MTag>, due: seq<nat>, r: Region): seq<Member>
    decreases |due|
  {
    if due == [] then []
    else
      var i := due[|due| - 1];
      RegionGroup(tags, due[..|due| - 1], r) + (if i < |tags| && tags[i].addr.region == r then [MemberAt(tags, i)] else [])
  }

  /** A region's group holds exactly the tags read of that region. */
  lemma {:induction false} RegionGroupSpec(tags: seq<MTag>, due: seq<nat>, r: Region)
    ensures forall m :: m in RegionGroup(tags, due, r) <==>
      m.index in due && m.index < |tags| && m == MemberAt(tags, m.index) && tags[m.index].addr.region == r
    decreases |due|
  {
    if due != [] {
      var init := due[..|due| - 1];
      RegionGroupSpec(tags, init, r);
      forall m ensures m in RegionGroup(tags, due, r) <==>
        m.index in due && m.index < |tags| && m == MemberAt(tags, m.index) && tags[m.index].addr.region == r
      {
        if m.index in due && m.index < |tags| && m == MemberAt(tags, m.index) && tags[m.index].addr.region == r {
          var k :| 0 <= k < |due| && due[k] == m.index;
          if k < |due| - 1 {
            assert init[k] == m.index;
          }
        }
        if m in RegionGroup(tags, init, r) {
          assert m.index in init;
        }
      }
    }
  }

  /** One more tag looked at by the selection loop. */
  lemma SelectStep(tags: seq<MTag>, force: bool, badWait: int, after: int, i: nat)
    requires i < |tags|
    ensures var keep := ServicedAt(tags, force, badWait, after);
      Where(i + 1, keep) == Where(i, keep) + (if Serviced(tags[i], force, badWait, after) then [i] else [])
    ensures var g := GroupNext(tags[..i], force, badWait, after);
      GroupNext(tags[..i + 1], force, badWait, after) ==
        if Pending(tags[i], force, badWait, after) && g > NextTick(tags[i], badWait) then NextTick(tags[i], badWait) else g
    ensures var keep := ServicedAt(tags, force, badWait, after);
      forall r :: RegionGroup(tags, Where(i + 1, keep), r) == RegionGroup(tags, Where(i, keep), r) +
        (if Serviced(tags[i], force, badWait, after) && tags[i].addr.region == r then [MemberAt(tags, i)] else [])
  {
    var keep := ServicedAt(tags, force, badWait, after);
    assert tags[..i + 1][..i] == tags[..i];
    var d := Where(i, keep);
    forall r ensures RegionGroup(tags, Where(i + 1, keep), r) == RegionGroup(tags, d, r) +
      (if Serviced(tags[i], force, badWait, after) && tags[i].addr.region == r then [MemberAt(tags, i)] else [])
    {
      assert keep(i) == Serviced(tags[i], force, badWait, after);
      if Serviced(tags[i], force, badWait, after) {
        assert Where(i + 1, keep) == d + [i];
        assert (d + [i])[..|d + [i]| - 1] == d;
      } else {
        assert Where(i + 1, keep) == d;
      }
    }
  }

  /** Two tag lists that differ at most in the tags' state. */
  predicate SameConfig(a: seq<MTag>, b: seq<MTag>)
  {
    |a| == |b| &&
    forall i :: 0 <= i < |a| ==> a[i].addr == b[i].addr && a[i].active == b[i].active && a[i].updatePeriod == b[i].updatePeriod
  }

  /** The window holds tags of region `r` at their own address, inside the window. */
  predicate Fits(tags: seq<MTag>, w: Window, r: Region)
  {
    forall m :: m in w.members ==>
      m.index < |tags| && m == MemberAt(tags, m.index) && tags[m.index].addr.region == r && Covers(w, m)
  }

  /** What one pass is run with: the slave address, the transport and the clock. */
  datatype Pass = Pass(slave: Byte, bus: Bus, now: int)

  function WindowRequest(w: Window, r: Region, env: Pass): Request
  {
    Request(env.slave, ModbusPolling.ReadFunction(r), w.begin, w.length)
  }

  /** A coil or discrete input is handed to its tag as one byte: 0xff when set, 0x00 when clear. */
  function BitBytes(b: bool): (bs: seq<Byte>)
    ensures |bs| == 1 && (bs[0] == 0xff <==> b) && (bs[0] == 0x00 <==> !b)
  {
    if b then [0xff] else [0x00]
  }

  /** A register tag takes the buffer from byte `2·(t.Begin − g.Begin)` on. */
  function RegisterTag(t: MTag, w: Window, buff: seq<Byte>, now: int): MTag
  {
    var off := 2 * (t.addr.begin - w.begin);
    if 0 <= off <= |buff| then Delivered(t, buff[off..], now) else t
  }

  /** A bit tag takes the bit at `t.Begin − g.Begin`. */
  function BitTag(t: MTag, w: Window, bits: seq<bool>, now: int): MTag
  {
    var off := t.addr.begin - w.begin;
    if 0 <= off < |bits| then Delivered(t, BitBytes(bits[off]), now) else t
  }

  /** The tags after reading window `w` of region `r`: only the window's members change. */
  function ReadWindow(tags: seq<MTag>, w: Window, r: Region, env: Pass): (res: seq<MTag>)
    ensures SameConfig(res, tags)
    ensures forall i :: 0 <= i < |tags| && i !in Indices(w.members) ==> res[i] == tags[i]
    ensures env.bus(WindowRequest(w, r, env)).Failed? ==>
      forall i :: 0 <= i < |tags| && i in Indices(w.members) ==>
        res[i].state == tags[i].state.(quality := Bad)
    ensures ModbusPolling.IsRegisterRegion(r) && env.bus(WindowRequest(w, r, env)).Registers? ==>
      forall i :: 0 <= i < |tags| && i in Indices(w.members) ==>
        res[i] == RegisterTag(tags[i], w, WordBytes(env.bus(WindowRequest(w, r, env)).words), env.now)
    ensures !ModbusPolling.IsRegisterRegion(r) && env.bus(WindowRequest(w, r, env)).Bits? ==>
      forall i :: 0 <= i < |tags| && i in Indices(w.members) ==>
        res[i] == BitTag(tags[i], w, env.bus(WindowRequest(w, r, env)).bits, env.now)
  {
    var idx := Indices(w.members);
    match env.bus(WindowRequest(w, r, env))
    case Registers(words) =>
      if ModbusPolling.IsRegisterRegion(r) then Overwrite(tags, idx, t => RegisterTag(t, w, WordBytes(words), env.now))
      else Overwrite(tags, idx, t => WithQuality(t, Bad))
    case Bits(bits) =>
      if !ModbusPolling.IsRegisterRegion(r) then Overwrite(tags, idx, t => BitTag(t, w, bits, env.now))
      else Overwrite(tags, idx, t => WithQuality(t, Bad))
    case Failed => Overwrite(tags, idx, t => WithQuality(t, Bad))
  }

  /** The tags after reading the windows of one region in order. */
  function ReadAll(tags: seq<MTag>, ws: seq<Window>, r: Region, env: Pass): seq<MTag>
    decreases |ws|
  {
    if ws == [] then tags
    else ReadWindow(ReadAll(tags, ws[..|ws| - 1], r, env), ws[|ws| - 1], r, env)
  }

  /** One more window read; the counterpart of `ModbusPolling.ReadAllSnoc` for this device's tags. */
  lemma ReadAllSnoc(tags: seq<MTag>, ws: seq<Window>, r: Region, env: Pass, k: nat)
    requires k < |ws|
    ensures ReadAll(tags, ws[..k + 1], r, env) == ReadWindow(ReadAll(tags, ws[..k], r, env), ws[k], r, env)
  {
    assert ws[..k + 1][..k] == ws[..k];
  }

  /** Reading windows changes only state, and only of tags that are members of some window. */
  lemma {:induction false} ReadAllFrame(tags: seq<MTag>, ws: seq<Window>, r: Region, env: Pass)
    ensures SameConfig(ReadAll(tags, ws, r, env), tags)
    ensures forall i :: 0 <= i < |tags| && (forall w :: w in ws ==> i !in Indices(w.members)) ==>
      ReadAll(tags, ws, r, env)[i] == tags[i]
    decreases |ws|
  {
    if ws != [] {
      var init := ws[..|ws| - 1];
      ReadAllFrame(tags, init, r, env);
      forall i | 0 <= i < |tags| && (forall w :: w in ws ==> i !in Indices(w.members))
        ensures ReadAll(tags, ws, r, env)[i] == tags[i]
      {
        assert ws[|ws| - 1] in ws;
        forall w | w in init ensures i !in Indices(w.members) {
          assert w in ws;
        }
      }
    }
  }

  function RegionWindows(tags: seq<MTag>, due: seq<nat>, slice: Slicer, r: Region): seq<Window>
  {
    slice(RegionGroup(tags, due, r))
  }

  /** The windows of a region hold only tags read in this pass, of that region, and cover them. */
  lemma RegionWindowsFit(tags: seq<MTag>, due: seq<nat>, slice: Slicer, r: Region)
    requires SliceSound(slice)
    ensures forall w :: w in RegionWindows(tags, due, slice, r) ==> Fits(tags, w, r)
    ensures forall w, i :: w in RegionWindows(tags, due, slice, r) && i in Indices(w.members) ==> i in due
  {
    RegionGroupSpec(tags, due, r);
    forall w, i | w in RegionWindows(tags, due, slice, r) && i in Indices(w.members) ensures i in due {
      var m :| m in w.members && m.index == i;
    }
  }

  /** The requests of a pass: coil windows, then discrete inputs (with the coil function), input and holding registers. */
  function PlannedRequests(tags: seq<MTag>, due: seq<nat>, slice: Slicer, slave: Byte): seq<Request>
  {
    if due == [] then []
    else
      ReadRequests(RegionWindows(tags, due, slice, Coils), slave, ReadCoils) +
      ReadRequests(RegionWindows(tags, due, slice, DiscreteInputs), slave, ReadCoils) +
      ReadRequests(RegionWindows(tags, due, slice, InputRegisters), slave, ReadInputRegisters) +
      ReadRequests(RegionWindows(tags, due, slice, HoldingRegisters), slave, ReadHoldingRegisters)
  }

  /** The tags after a pass over the tags `due`; with nothing counted there is no I/O. */
  function Polled(tags: seq<MTag>, due: seq<nat>, slice: Slicer, env: Pass): seq<MTag>
  {
    if due == [] then tags
    else
      var t1 := ReadAll(tags, RegionWindows(tags, due, slice, Coils), Coils, env);
      var t2 := ReadAll(t1, RegionWindows(tags, due, slice, DiscreteInputs), DiscreteInputs, env);
      var t3 := ReadAll(t2, RegionWindows(tags, due, slice, InputRegisters), InputRegisters, env);
      ReadAll(t3, RegionWindows(tags, due, slice, HoldingRegisters), HoldingRegisters, env)
  }

  /** A pass changes only the state of the tags it counted. */
  lemma PolledOnlyServiced(tags: seq<MTag>, due: seq<nat>, slice: Slicer, env: Pass)
    requires SliceSound(slice)
    ensures SameConfig(Polled(tags, due, slice, env), tags)
    ensures forall i :: 0 <= i < |tags| && i !in due ==> Polled(tags, due, slice, env)[i] == tags[i]
  {
    if due != [] {
      var t1 := ReadAll(tags, RegionWindows(tags, due, slice, Coils), Coils, env);
      var t2 := ReadAll(t1, RegionWindows(tags, due, slice, DiscreteInputs), DiscreteInputs, env);
      var t3 := ReadAll(t2, RegionWindows(tags, due, slice, InputRegisters), InputRegisters, env);
      ReadAllFrame(tags, RegionWindows(tags, due, slice, Coils), Coils, env);
      ReadAllFrame(t1, RegionWindows(tags, due, slice, DiscreteInputs), DiscreteInputs, env);
      ReadAllFrame(t2, RegionWindows(tags, due, slice, InputRegisters), InputRegisters, env);
      ReadAllFrame(t3, RegionWindows(tags, due, slice, HoldingRegisters), HoldingRegisters, env);
      RegionWindowsFit(tags, due, slice, Coils);
      RegionWindowsFit(tags, due, slice, DiscreteInputs);
      RegionWindowsFit(tags, due, slice, InputRegisters);
      RegionWindowsFit(tags, due, slice, HoldingRegisters);
    }
  }

  /** Every tag after a failed connect: quality BAD_COMM_FAILURE, nothing else changed. */
  function AllWithQuality(tags: seq<MTag>, q: Quality): (res: seq<MTag>)
    ensures SameConfig(res, tags)
    ensures forall i :: 0 <= i < |tags| ==> res[i].state == tags[i].state.(quality := q)
  {
    seq(|tags|, i requires 0 <= i < |tags| => WithQuality(tags[i], q))
  }

  /** The wait clamp as `Device.ServiceTaskAsync` writes it, without the separate step for negative waits. */
  function LegacyClamp(raw: int): (w: int)
    ensures w == Scheduler.ClampWait(raw)
    ensures 10_000 <= w <= 50_000_000
  {
    var w1 := if raw > 10_000 then raw else 10_000;
    var w2 := if w1 > 50_000_000 then w1 / 2 else w1;
    if w2 < 50_000_000 then w2 else 50_000_000
  }

  class Device {
    var tags: seq<MTag>
    var slaveId: Byte
    var badCommWaitPeriod: int

    constructor (tags0: seq<MTag>, slave: Byte)
      ensures tags == tags0 && slaveId == slave && badCommWaitPeriod == DefaultBadCommWaitPeriod
    {
      tags := tags0;
      slaveId := slave;
      badCommWaitPeriod := DefaultBadCommWaitPeriod;
    }

    /** The selection loop of `Update`: the count of tags read, the next deadline and the four region groups. */
    method Select(force: bool, after: int)
      returns (count: nat, groupNextUpdate: int, coils: seq<Member>, discreteInputs: seq<Member>,
               inputRegisters: seq<Member>, holdingRegisters: seq<Member>)
      ensures var due := ServicedIndices(tags, force, badCommWaitPeriod, after);
        count == |due| && groupNextUpdate == GroupNext(tags, force, badCommWaitPeriod, after) &&
        coils == RegionGroup(tags, due, Coils) && discreteInputs == RegionGroup(tags, due, DiscreteInputs) &&
        inputRegisters == RegionGroup(tags, due, InputRegisters) && holdingRegisters == RegionGroup(tags, due, HoldingRegisters)
    {
      ghost var keep := ServicedAt(tags, force, badCommWaitPeriod, after);
      count, groupNextUpdate := 0, Int64Max;
      coils, discreteInputs, inputRegisters, holdingRegisters := [], [], [], [];
      for i := 0 to |tags|
        invariant count == |Where(i, keep)|
        invariant groupNextUpdate == GroupNext(tags[..i], force, badCommWaitPeriod, after)
        invariant coils == RegionGroup(tags, Where(i, keep), Coils)
        invariant discreteInputs == RegionGroup(tags, Where(i, keep), DiscreteInputs)
        invariant inputRegisters == RegionGroup(tags, Where(i, keep), InputRegisters)
        invariant holdingRegisters == RegionGroup(tags, Where(i, keep), HoldingRegisters)
      {
        SelectStep(tags, force, badCommWaitPeriod, after, i);
        var t := tags[i];
        if !t.active && !force {
          continue;
        }
        var tagNextTick := if t.state.quality == Good then t.state.timestampLast + t.updatePeriod
          else t.state.timestampLast + badCommWaitPeriod;
        if tagNextTick > after {
          if groupNextUpdate > tagNextTick {
            groupNextUpdate := tagNextTick;
          }
          if !force {
            continue;
          }
        }
        count := count + 1;
        var m := Member(i, t.addr.begin, t.addr.length);
        match t.addr.region {
          case Coils => coils := coils + [m];
          case DiscreteInputs => discreteInputs := discreteInputs + [m];
          case InputRegisters => inputRegisters := inputRegisters + [m];
          case HoldingRegisters => holdingRegisters := holdingRegisters + [m];
        }
      }
      assert tags[..|tags|] == tags;
    }

    /** The catch branch of every window reader: `SetQty(BAD)` on the window's tags. */
    method MarkWindowBad(w: Window)
      requires forall m :: m in w.members ==> m.index < |tags|
      modifies this`tags
      ensures tags == Overwrite(old(tags), Indices(w.members), t => WithQuality(t, Bad))
    {
      ghost var g := t => WithQuality(t, Bad);
      var k := 0;
      while k < |w.members|
        invariant 0 <= k <= |w.members|
        invariant tags == Overwrite(old(tags), Indices(w.members[..k]), g)
      {
        var i := w.members[k].index;
        assert w.members[k] in w.members;
        tags := tags[i := WithQuality(tags[i], Bad)];
        IndicesSnoc(w.members, k);
        OverwriteStep(old(tags), Indices(w.members[..k]), i, g);
        k := k + 1;
      }
      assert w.members[..k] == w.members;
    }

    /** The success branch of the register readers: each tag takes the buffer from its own offset on. */
    method DeliverRegisters(w: Window, buff: seq<Byte>, now: int, ghost r: Region, ghost shape: seq<MTag>)
      requires SameConfig(tags, shape) && Fits(shape, w, r) && |buff| == 2 * w.length
      modifies this`tags
      ensures tags == Overwrite(old(tags), Indices(w.members), t => RegisterTag(t, w, buff, now))
    {
      ghost var g := t => RegisterTag(t, w, buff, now);
      var k := 0;
      while k < |w.members|
        invariant 0 <= k <= |w.members|
        invariant tags == Overwrite(old(tags), Indices(w.members[..k]), g)
        invariant SameConfig(tags, shape)
      {
        var m := w.members[k];
        assert m in w.members;
        var t := tags[m.index];
        tags := tags[m.index := Delivered(t, buff[2 * (t.addr.begin - w.begin)..], now)];
        IndicesSnoc(w.members, k);
        OverwriteStep(old(tags), Indices(w.members[..k]), m.index, g);
        k := k + 1;
      }
      assert w.members[..k] == w.members;
    }

    /** The success branch of the bit readers: each tag takes 0xff or 0x00 for the bit at its offset. */
    method DeliverBits(w: Window, bits: seq<bool>, now: int, ghost r: Region, ghost shape: seq<MTag>)
      requires SameConfig(tags, shape) && Fits(shape, w, r) && |bits| == w.length
      modifies this`tags
      ensures tags == Overwrite(old(tags), Indices(w.members), t => BitTag(t, w, bits, now))
    {
      ghost var g := t => BitTag(t, w, bits, now);
      var k := 0;
      while k < |w.members|
        invariant 0 <= k <= |w.members|
        invariant tags == Overwrite(old(tags), Indices(w.members[..k]), g)
        invariant SameConfig(tags, shape)
      {
        var m := w.members[k];
        assert m in w.members;
        var t := tags[m.index];
        assert g(t) == Delivered(t, BitBytes(bits[t.addr.begin - w.begin]), now);
        tags := tags[m.index := Delivered(t, BitBytes(bits[t.addr.begin - w.begin]), now)];
        IndicesSnoc(w.members, k);
        OverwriteStep(old(tags), Indices(w.members[..k]), m.index, g);
        k := k + 1;
      }
      assert w.members[..k] == w.members;
    }

    /** `UpdateHoldingRegisters` / `UpdateInputRegisters` / `UpdateCoils` / `UpdateDiscreteInputs` for one window. */
    method ReadOneWindow(r: Region, w: Window, env: Pass, ghost shape: seq<MTag>) returns (sent: Request)
      requires BusSound(env.bus) && env.slave == slaveId
      requires SameConfig(tags, shape) && Fits(shape, w, r)
      modifies this`tags
      ensures sent == WindowRequest(w, r, env)
      ensures tags == ReadWindow(old(tags), w, r, env)
    {
      sent := Request(slaveId, ModbusPolling.ReadFunction(r), w.begin, w.length);
      var reply := env.bus(sent);
      if reply.Registers? && ModbusPolling.IsRegisterRegion(r) {
        var buff := UnpackWords(reply.words);
        DeliverRegisters(w, buff, env.now, r, shape);
      } else if reply.Bits? && !ModbusPolling.IsRegisterRegion(r) {
        DeliverBits(w, reply.bits, env.now, r, shape);
      } else {
        MarkWindowBad(w);
      }
    }

    /** The windows of one region, read in order. */
    method ReadWindows(r: Region, ws: seq<Window>, env: Pass, ghost shape: seq<MTag>) returns (sent: seq<Request>)
      requires BusSound(env.bus) && env.slave == slaveId
      requires SameConfig(tags, shape)
      requires forall w :: w in ws ==> Fits(shape, w, r)
      modifies this`tags
      ensures SameConfig(tags, shape)
      ensures sent == ReadRequests(ws, slaveId, ModbusPolling.ReadFunction(r))
      ensures tags == ReadAll(old(tags), ws, r, env)
    {
      sent := [];
      for j := 0 to |ws|
        invariant SameConfig(tags, shape)
        invariant sent == ReadRequests(ws[..j], slaveId, ModbusPolling.ReadFunction(r))
        invariant tags == ReadAll(old(tags), ws[..j], r, env)
      {
        assert ws[j] in ws;
        var q := ReadOneWindow(r, ws[j], env, shape);
        ReadRequestsSnoc(ws, slaveId, ModbusPolling.ReadFunction(r), j);
        ReadAllSnoc(old(tags), ws, r, env, j);
        sent := sent + [q];
      }
      assert ws[..|ws|] == ws;
    }

    /** `Update(tags, force)`: select, then (when anything was counted) read coils, discrete inputs, input and holding registers. */
    method Update(force: bool, now: int, bus: Bus, slice: Slicer) returns (groupNextUpdate: int, requests: seq<Request>)
      requires BusSound(bus) && SliceSound(slice)
      modifies this`tags
      ensures var after := now + Scheduler.Horizon;
        var due := ServicedIndices(old(tags), force, badCommWaitPeriod, after);
        groupNextUpdate == GroupNext(old(tags), force, badCommWaitPeriod, after) &&
        requests == PlannedRequests(old(tags), due, slice, slaveId) &&
        tags == Polled(old(tags), due, slice, Pass(slaveId, bus, now))
    {
      ghost var tags0 := tags;
      var after := now + TicksPerSecond;
      var count, coils, discreteInputs, inputRegisters, holdingRegisters;
      count, groupNextUpdate, coils, discreteInputs, inputRegisters, holdingRegisters := Select(force, after);
      ghost var due := ServicedIndices(tags0, force, badCommWaitPeriod, after);
      requests := [];
      if count > 0 {
        var env := Pass(slaveId, bus, now);
        RegionWindowsFit(tags0, due, slice, Coils);
        RegionWindowsFit(tags0, due, slice, DiscreteInputs);
        RegionWindowsFit(tags0, due, slice, InputRegisters);
        RegionWindowsFit(tags0, due, slice, HoldingRegisters);
        requests := ReadWindows(Coils, slice(coils), env, tags0);
        var sent := ReadWindows(DiscreteInputs, slice(discreteInputs), env, tags0);
        requests := requests + sent;
        sent := ReadWindows(InputRegisters, slice(inputRegisters), env, tags0);
        requests := requests + sent;
        sent := ReadWindows(HoldingRegisters, slice(holdingRegisters), env, tags0);
        requests := requests + sent;
      }
    }

    /** The comm-failure branch of the service loop: `SetQty(BAD_COMM_FAILURE)` on every tag. */
    method MarkCommFailure()
      modifies this`tags
      ensures tags == AllWithQuality(old(tags), BadCommFailure)
    {
      var k := 0;
      while k < |tags|
        invariant 0 <= k <= |tags| && |tags| == |old(tags)|
        invariant forall i :: 0 <= i < k ==> tags[i] == WithQuality(old(tags)[i], BadCommFailure)
        invariant forall i :: k <= i < |tags| ==> tags[i] == old(tags)[i]
      {
        tags := tags[k := WithQuality(tags[k], BadCommFailure)];
        k := k + 1;
      }
    }

    /**
     * One turn of `ServiceTaskAsync`. `connected` is what `ConnectedOrConnect` reports, `now` the clock
     * when the pass starts and `later` the clock when the wait is computed; the wait is in ticks.
     */
    method ServicePass(nextTime: int, connected: bool, now: int, later: int, bus: Bus, slice: Slicer)
      returns (next: int, wait: int, requests: seq<Request>)
      requires BusSound(bus) && SliceSound(slice)
      modifies this`tags
      ensures connected ==>
        var force := nextTime == 0;
        var after := now + Scheduler.Horizon;
        var due := ServicedIndices(old(tags), force, badCommWaitPeriod, after);
        next == GroupNext(old(tags), force, badCommWaitPeriod, after) &&
        wait == LegacyClamp(next - later) &&
        requests == PlannedRequests(old(tags), due, slice, slaveId) &&
        tags == Polled(old(tags), due, slice, Pass(slaveId, bus, now))
      ensures connected && now >= 0 ==> next > 0
      ensures !connected ==>
        next == nextTime && wait == badCommWaitPeriod && requests == [] && tags == AllWithQuality(old(tags), BadCommFailure)
    {
      if connected {
        next, requests := Update(nextTime == 0, now, bus, slice);
        GroupNextBeyondHorizon(old(tags), nextTime == 0, badCommWaitPeriod, now + Scheduler.Horizon);
        wait := LegacyClamp(next - later);
      } else {
        MarkCommFailure();
        next, wait, requests := nextTime, badCommWaitPeriod, [];
      }
    }
  }
}
