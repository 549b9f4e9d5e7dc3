/**
 * Tag, polling group and tag state (RPCExp/Common/TagAbstract.cs).
 * A tag's effective poll period is the smallest period of the groups it
 * belongs to, and it is active when at least one of those groups is active.
 */
module Tags {
  import opened Wrappers
  import opened Numeric

  /** Period used for a tag that belongs to no group: one second. */
  const DefaultPeriod: int := TicksPerSecond

  datatype Quality = Good | Bad | BadCommFailure

  datatype Access = ReadOnly | ReadWrite | WriteOnly

  /** Value types; `Other` stands for every member of the enumeration that has no register converter. */
  datatype ValueType = Float | Int16 | Int32 | Other(code: int)

  /** The four Modbus address spaces. */
  datatype Region = Coils | DiscreteInputs | InputRegisters | HoldingRegisters

  /** A polling group: its period (in ticks), whether it is active, and its stored configuration. */
  datatype TagsGroup = TagsGroup(name: string, period: int, active: bool, min: int, description: string)

  /** A tag value as the converters and the RPC layer see it. */
  datatype Value = Bit(on: bool) | Number(x: real) | Text(s: string)

  /** Runtime state of a tag: value (`None` is `null`), quality and the tick of the last update. */
  datatype TagState = TagState(value: Option<Value>, quality: Quality, last: int)

  /** Descriptive configuration of a tag. */
  datatype TagConfig = TagConfig(
    name: string, displayName: string, description: string, format: string,
    access: Access, valueType: ValueType, templateId: int)

  /** Modbus address of a tag: region, first register or bit, number of registers. */
  datatype Address = Address(region: Region, begin: int, length: nat)

  /** A Modbus tag; `groups` is `None` when the `Groups` dictionary is `null`. */
  datatype Tag = Tag(cfg: TagConfig, addr: Address, groups: Option<seq<TagsGroup>>, state: TagState)

  /** Smallest period of a non-empty sequence of groups. */
  function MinPeriod(gs: seq<TagsGroup>): (p: int)
    requires gs != []
    ensures forall i :: 0 <= i < |gs| ==> p <= gs[i].period
    ensures exists i :: 0 <= i < |gs| && p == gs[i].period
  {
    if |gs| == 1 then gs[0].period
    else
      var rest := MinPeriod(gs[1..]);
      if gs[0].period <= rest then gs[0].period else rest
  }

  /** `TagAbstract.Period`: the default when there are no groups, otherwise the smallest group period. */
  function Period(groups: Option<seq<TagsGroup>>): (p: int)
    ensures groups == None || groups == Some([]) ==> p == DefaultPeriod
    ensures groups.Some? && groups.value != [] ==>
      (forall i :: 0 <= i < |groups.value| ==> p <= groups.value[i].period) &&
      (exists i :: 0 <= i < |groups.value| && p == groups.value[i].period)
  {
    if groups.None? || groups.value == [] then DefaultPeriod else MinPeriod(groups.value)
  }

  /** Early-return search for an active group. */
  function AnyActive(gs: seq<TagsGroup>): (r: bool)
    ensures r <==> exists i :: 0 <= i < |gs| && gs[i].active
  {
    if gs == [] then false
    else if gs[0].active then true
    else AnyActive(gs[1..])
  }

  /** `TagAbstract.IsActive`; `None` when `Groups` is `null`, where the getter throws. */
  function IsActive(groups: Option<seq<TagsGroup>>): (r: Option<bool>)
    ensures r.None? <==> groups.None?
    ensures groups == Some([]) ==> r == Some(false)
    ensures groups.Some? ==> r == Some(exists i :: 0 <= i < |groups.value| && groups.value[i].active)
  {
    match groups
    case None => None
    case Some(gs) => Some(AnyActive(gs))
  }

  /** True when the group set of a tag contains a group of that name (`Groups.ContainsKey`). */
  predicate HasGroup(gs: seq<TagsGroup>, name: string)
  {
    exists i :: 0 <= i < |gs| && gs[i].name == name
  }

  /** Two group sequences that differ at most in their active flags. */
  predicate SamePeriods(gs: seq<TagsGroup>, hs: seq<TagsGroup>)
  {
    |gs| == |hs| && forall i :: 0 <= i < |gs| ==> gs[i].period == hs[i].period
  }

  /** The period does not depend on whether the groups are active. */
  lemma {:induction false} MinPeriodIgnoresActivity(gs: seq<TagsGroup>, hs: seq<TagsGroup>)
    requires gs != [] && SamePeriods(gs, hs)
    ensures MinPeriod(gs) == MinPeriod(hs)
  {
    if |gs| > 1 {
      MinPeriodIgnoresActivity(gs[1..], hs[1..]);
    }
  }

  lemma PeriodIgnoresActivity(gs: seq<TagsGroup>, hs: seq<TagsGroup>)
    requires SamePeriods(gs, hs)
    ensures Period(Some(gs)) == Period(Some(hs))
  {
    if gs != [] {
      MinPeriodIgnoresActivity(gs, hs);
    }
  }

  /** `Period` tolerates a `null` group dictionary while `IsActive` does not. */
  lemma NullGroupsPeriodButNoActivity()
    ensures Period(None) == DefaultPeriod && IsActive(None).None?
  {
  }

  /** The tag's state after `SetValue(value, quality)` at tick `now`. */
  function SetValue(t: Tag, value: Option<Value>, quality: Quality, now: int): (r: Tag)
    ensures r.cfg == t.cfg && r.addr == t.addr && r.groups == t.groups
    ensures r.state == TagState(value, quality, now)
  {
    t.(state := TagState(value, quality, now))
  }
}
