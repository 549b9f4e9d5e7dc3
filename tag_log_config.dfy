/**
 * The archive deadband of RPCExp/TagLogger/TagLogConfig.cs: a tag is archived when
 * it is GOOD, at least the minimum period has passed since the last record, and
 * either the maximum period has passed or the value moved by at least `Hyst`.
 */
module TagLog {
  import opened Wrappers
  import opened Numeric
  import opened Tags

  const DefaultHyst: real := 0.10
  const DefaultPeriodMaxSec: Int32 := 600
  const DefaultPeriodMinSec: Int32 := 1

  const LogGroupName: string := "TagsLogTagGroup"

  /**
   * The shared group the constructor registers (`Min` is 20 s). Its period source is
   * not part of this model: the period is taken to be `Min` and the group inactive.
   */
  const LogGroup: TagsGroup :=
    TagsGroup(LogGroupName, 20 * TicksPerSecond, false, 20 * TicksPerSecond, "Tags group to periodicly check alarms")

  /** `Groups.AddByName(g)`: `g` replaces the group of the same name, or is appended. */
  function AddByName(gs: seq<TagsGroup>, g: TagsGroup): (r: seq<TagsGroup>)
    ensures HasGroup(r, g.name)
    ensures forall h :: h in gs && h.name != g.name ==> h in r
    ensures forall h :: h in r ==> h == g || h in gs
  {
    if gs == [] then
      assert [g][0] == g;
      [g]
    else if gs[0].name == g.name then
      assert ([g] + gs[1..])[0] == g;
      assert forall h :: h in gs && h.name != g.name ==> h in gs[1..];
      [g] + gs[1..]
    else
      var rest := AddByName(gs[1..], g);
      assert forall h :: h in gs[1..] ==> h in gs;
      var k :| 0 <= k < |rest| && rest[k].name == g.name;
      assert ([gs[0]] + rest)[k + 1] == rest[k];
      [gs[0]] + rest
  }

  /**
   * The constructor's registration as written: `AddByName` runs only when the tag
   * already has a group of that name. `None` where it throws: a null tag, or a null
   * group dictionary.
   */
  function AttachAsWritten(tag: Option<Tag>): (r: Option<Tag>)
  {
    match tag
    case None => None
    case Some(t) =>
      if t.groups.None? then None
      else if HasGroup(t.groups.value, LogGroupName) then Some(t.(groups := Some(AddByName(t.groups.value, LogGroup))))
      else Some(t)
  }

  /** As written, a tag outside the log group stays outside it, where the intended registration adds it. */
  lemma AttachAsWrittenMissesGroup(t: Tag)
    requires t.groups.Some? && !HasGroup(t.groups.value, LogGroupName)
    ensures AttachAsWritten(Some(t)) == Some(t)
    ensures !HasGroup(AttachAsWritten(Some(t)).value.groups.value, LogGroupName)
    ensures AttachAsWritten(Some(t)) != Attach(Some(t))
  {
  }

  /** The registration as intended: the log group is added when the tag does not have it yet. */
  function Attach(tag: Option<Tag>): (r: Option<Tag>)
    ensures r.None? <==> tag.None? || tag.value.groups.None?
    ensures r.Some? ==> r.value.cfg == tag.value.cfg && r.value.addr == tag.value.addr && r.value.state == tag.value.state
    ensures r.Some? ==> r.value.groups.Some? && HasGroup(r.value.groups.value, LogGroupName)
    ensures r.Some? ==> forall h :: h in tag.value.groups.value ==> h in r.value.groups.value
  {
    match tag
    case None => None
    case Some(t) =>
      if t.groups.None? then None
      else if !HasGroup(t.groups.value, LogGroupName) then Some(t.(groups := Some(AddByName(t.groups.value, LogGroup))))
      else Some(t)
  }

  /** `(decimal)Convert.ChangeType(Tag?.Value ?? 0, typeof(decimal))`; `None` where the conversion throws. */
  function AsDecimal(v: Option<Value>): (d: Option<real>)
    ensures v.None? ==> d == Some(0.0)
    ensures d.None? <==> v.Some? && v.value.Text?
  {
    match v
    case None => Some(0.0)
    case Some(Number(x)) => Some(x)
    case Some(Bit(b)) => Some(if b then 1.0 else 0.0)
    case Some(Text(_)) => None
  }

  function Abs(x: real): real
  {
    if x < 0.0 then -x else x
  }

  /** What is written to the archive. */
  datatype LogRecord = LogRecord(infoId: int, timeStamp: int, value: real)

  /** The deadband settings. */
  datatype Deadband = Deadband(hyst: real, periodMaxSec: Int32, periodMinSec: Int32)

  /** The last archived value and the tick it was archived at. */
  datatype Memory = Memory(lastVal: real, lastTime: int)

  /** The getter's result: `null`, a record, or an exception from the value conversion. */
  datatype Outcome = NoRecord | Record(data: LogRecord) | Throws

  /** `PeriodSec * 10_000_000` as written: 32-bit `int` arithmetic, which wraps. */
  function ScaledAsWritten(sec: Int32): Int32
  {
    Wrap32(sec * 10_000_000)
  }

  /** A period in seconds as ticks. */
  function Scaled(sec: Int32): int
  {
    sec * TicksPerSecond
  }

  /** The getter's decision with the two periods already in ticks. */
  function Decide(s: Deadband, m: Memory, q: Quality, v: Option<Value>, infoId: int, now: int, minTicks: int, maxTicks: int): (Memory, Outcome)
  {
    if q != Good then (m, NoRecord)
    else if m.lastTime + minTicks >= now then (m, NoRecord)
    else
      match AsDecimal(v)
      case None => (m, Throws)
      case Some(val) =>
        if m.lastTime + maxTicks <= now || Abs(m.lastVal - val) >= s.hyst then
          (Memory(val, now), Record(LogRecord(infoId, now, val)))
        else (m, NoRecord)
  }

  /** `NeedToArcive` with the periods converted as the C# code writes them. */
  function StepAsWritten(s: Deadband, m: Memory, q: Quality, v: Option<Value>, infoId: int, now: int): (Memory, Outcome)
  {
    Decide(s, m, q, v, infoId, now, ScaledAsWritten(s.periodMinSec), ScaledAsWritten(s.periodMaxSec))
  }

  /** `NeedToArcive` with the periods converted exactly. */
  function Step(s: Deadband, m: Memory, q: Quality, v: Option<Value>, infoId: int, now: int): (Memory, Outcome)
  {
    Decide(s, m, q, v, infoId, now, Scaled(s.periodMinSec), Scaled(s.periodMaxSec))
  }

  /** The default 600 s maximum period wraps to about 170.5 s, and an unchanged value is archived that early. */
  lemma MaxPeriodWraps()
    ensures ScaledAsWritten(DefaultPeriodMaxSec) == 1_705_032_704
    ensures var s := Deadband(DefaultHyst, DefaultPeriodMaxSec, DefaultPeriodMinSec);
      var m := Memory(0.0, 0);
      StepAsWritten(s, m, Good, Some(Number(0.0)), 7, 1_705_032_704).1.Record? &&
      Step(s, m, Good, Some(Number(0.0)), 7, 1_705_032_704).1 == NoRecord
  {
    assert 600 * 10_000_000 == 6_000_000_000;
    assert 6_000_000_000 % 0x1_0000_0000 == 1_705_032_704;
  }

  /** Nothing is archived, and nothing remembered, unless the tag is GOOD and the minimum period has passed. */
  lemma StepGuards(s: Deadband, m: Memory, q: Quality, v: Option<Value>, infoId: int, now: int)
    ensures var (m', out) := Step(s, m, q, v, infoId, now);
      (q != Good || now <= m.lastTime + Scaled(s.periodMinSec)) ==> m' == m && out == NoRecord
    ensures var (m', out) := Step(s, m, q, v, infoId, now);
      !out.Record? ==> m' == m
  {
  }

  /** Past the minimum period, a GOOD numeric value is archived exactly when the maximum period has passed or it moved by `Hyst`. */
  lemma StepArchivesOnChangeOrAge(s: Deadband, m: Memory, x: real, infoId: int, now: int)
    requires now > m.lastTime + Scaled(s.periodMinSec)
    ensures var (m', out) := Step(s, m, Good, Some(Number(x)), infoId, now);
      out.Record? <==> now >= m.lastTime + Scaled(s.periodMaxSec) || Abs(m.lastVal - x) >= s.hyst
    ensures var (m', out) := Step(s, m, Good, Some(Number(x)), infoId, now);
      out.Record? ==> out.data == LogRecord(infoId, now, x) && m' == Memory(x, now)
  {
  }

  /** Two successive records are more than the minimum period apart, so a second call at the same instant records nothing. */
  lemma RecordsSpaced(s: Deadband, m: Memory, q1: Quality, v1: Option<Value>, q2: Quality, v2: Option<Value>, infoId: int, t1: int, t2: int)
    requires Step(s, m, q1, v1, infoId, t1).1.Record?
    requires Step(s, Step(s, m, q1, v1, infoId, t1).0, q2, v2, infoId, t2).1.Record?
    ensures t2 > t1 + Scaled(s.periodMinSec)
  {
  }

  lemma SameInstantSilent(s: Deadband, m: Memory, q1: Quality, v1: Option<Value>, q2: Quality, v2: Option<Value>, infoId: int, t: int)
    requires s.periodMinSec >= 0
    requires Step(s, m, q1, v1, infoId, t).1.Record?
    ensures Step(s, Step(s, m, q1, v1, infoId, t).0, q2, v2, infoId, t).1 == NoRecord
  {
  }

  /** One archived tag: its deadband settings and what it last archived. */
  class TagLogConfig {
    var lastVal: real
    var lastTime: int
    var hyst: real
    var periodMaxSec: Int32
    var periodMinSec: Int32
    var tag: Tag
    var infoId: int

    /** A config for a tag that exists and has a group dictionary; the throwing paths are those of `Attach`. */
    constructor (t: Tag, info: int)
      requires t.groups.Some?
      ensures Some(tag) == Attach(Some(t)) && infoId == info
      ensures lastVal == 0.0 && lastTime == 0
      ensures hyst == DefaultHyst && periodMaxSec == DefaultPeriodMaxSec && periodMinSec == DefaultPeriodMinSec
    {
      lastVal, lastTime := 0.0, 0;
      hyst, periodMaxSec, periodMinSec := DefaultHyst, DefaultPeriodMaxSec, DefaultPeriodMinSec;
      infoId := info;
      if !HasGroup(t.groups.value, LogGroupName) {
        tag := t.(groups := Some(AddByName(t.groups.value, LogGroup)));
      } else {
        tag := t;
      }
    }

    function Settings(): Deadband
      reads this`hyst, this`periodMaxSec, this`periodMinSec
    {
      Deadband(hyst, periodMaxSec, periodMinSec)
    }

    /** The `NeedToArcive` getter, given the tag's state when it runs and the clock. */
    method NeedToArchive(state: TagState, now: int) returns (out: Outcome)
      modifies this`lastVal, this`lastTime
      ensures (Memory(lastVal, lastTime), out) ==
        Step(Settings(), Memory(old(lastVal), old(lastTime)), state.quality, state.value, infoId, now)
    {
      if state.quality != Good {
        return NoRecord;
      }
      if lastTime + periodMinSec * TicksPerSecond >= now {
        return NoRecord;
      }
      var val := AsDecimal(state.value);
      if val.None? {
        return Throws;
      }
      if lastTime + periodMaxSec * TicksPerSecond <= now || Abs(lastVal - val.value) >= hyst {
        lastVal := val.value;
        lastTime := now;
        return Record(LogRecord(infoId, lastTime, val.value));
      }
      out := NoRecord;
    }
  }
}
