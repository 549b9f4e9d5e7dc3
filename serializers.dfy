/**
 * The configuration serialisers.  `ProtocolSerializerAbstract`
 * (RPCExp/DbStore/Serializers/ProtocolSerializerAbstract.cs) copies the device
 * header and the tag fields between the program's objects and the stored
 * entities and creates the link entities; `ProtocolSerializerModbus`
 * (RPCExp/Store/Serializers/ProtocolSerializerModbus.cs) writes and reads the
 * Modbus part of each as a JSON object.
 */
module Serializers {
  import opened Wrappers
  import opened Numeric
  import opened Sequences
  import opened Tags
  import opened Scheduler
  import opened ModbusPolling
  import opened Modbus
  import opened Store

  /** `ClassName` of the Modbus serialiser. */
  const ClassName: string := "Modbus"

  // ---------------------------------------------------------------------------
  // The Modbus JSON: `ToObject` conversions

  /** `ToObject(typeof(byte))`: an integer in range; `None` where it throws. */
  function AsByte(j: Json): (r: Option<Byte>)
    ensures r.Some? <==> j.JInt? && 0 <= j.n < 0x100
    ensures r.Some? ==> j == JInt(r.value)
  {
    if j.JInt? && 0 <= j.n < 0x100 then Some(j.n) else None
  }

  /** `ToObject(typeof(int))`: an integer that fits 32 bits. */
  function AsInt32(j: Json): (r: Option<int>)
    ensures r.Some? <==> j.JInt? && Int32Min <= j.n <= Int32Max
    ensures r.Some? ==> j == JInt(r.value)
  {
    if j.JInt? && Int32Min <= j.n <= Int32Max then Some(j.n) else None
  }

  /** `ToObject(typeof(byte[]))`: the bytes of a base64 text. */
  function AsBytes(j: Json): (r: Option<seq<Byte>>)
    ensures r.Some? <==> j.JBytes?
    ensures r.Some? ==> j == JBytes(r.value)
  {
    if j.JBytes? then Some(j.bytes) else None
  }

  /** `FrameType.ToString()`. */
  function FrameTypeName(ft: FrameType): string
  {
    match ft
    case Ip => "Ip"
    case Rtu => "Rtu"
    case Ascii => "Ascii"
  }

  /** `ToObject(typeof(FrameType))`: an enum name or the number of a declared member. */
  function AsFrameType(j: Json): (r: Option<FrameType>)
    ensures r.Some? ==> j == JStr(FrameTypeName(r.value)) || j == JInt(FrameTypeCode(r.value))
  {
    match j
    case JStr(s) =>
      if s == "Ip" then Some(Ip) else if s == "Rtu" then Some(Rtu) else if s == "Ascii" then Some(Ascii) else None
    case JInt(n) =>
      if n == 0 then Some(Ip) else if n == 1 then Some(Rtu) else if n == 2 then Some(Ascii) else None
    case JBytes(_) => None
  }

  function FrameTypeCode(ft: FrameType): int
  {
    match ft
    case Ip => 0
    case Rtu => 1
    case Ascii => 2
  }

  /** A `ModbusRegion` as the serialiser writes it: its number, in declaration order. */
  function RegionCode(r: Region): int
  {
    match r
    case Coils => 0
    case DiscreteInputs => 1
    case InputRegisters => 2
    case HoldingRegisters => 3
  }

  function RegionName(r: Region): string
  {
    match r
    case Coils => "Coils"
    case DiscreteInputs => "DiscreteInputs"
    case InputRegisters => "InputRegisters"
    case HoldingRegisters => "HoldingRegisters"
  }

  /** `ToObject(typeof(ModbusRegion))`: the number or the name of a region. */
  function AsRegion(j: Json): (r: Option<Region>)
    ensures r.Some? ==> j == JInt(RegionCode(r.value)) || j == JStr(RegionName(r.value))
  {
    match j
    case JInt(n) =>
      if n == 0 then Some(Coils) else if n == 1 then Some(DiscreteInputs)
      else if n == 2 then Some(InputRegisters) else if n == 3 then Some(HoldingRegisters) else None
    case JStr(s) =>
      if s == "Coils" then Some(Coils) else if s == "DiscreteInputs" then Some(DiscreteInputs)
      else if s == "InputRegisters" then Some(InputRegisters) else if s == "HoldingRegisters" then Some(HoldingRegisters) else None
    case JBytes(_) => None
  }

  // ---------------------------------------------------------------------------
  // The Modbus part of a device

  /** What `PackDeviceSpecific` keeps of a Modbus device. */
  datatype DeviceCustom = DeviceCustom(slaveId: Byte, byteOrder: seq<Byte>, frameType: FrameType)

  /** The three properties of a new `ModbusDevice`. */
  const DefaultDeviceCustom: DeviceCustom := DeviceCustom(0, DefaultByteOrder, Ip)

  /** `PackDeviceSpecific`: the anonymous object `{ SlaveId, ByteOrder, FrameType = name }`. */
  function PackDeviceCustom(c: DeviceCustom): (jo: JObject)
    ensures jo.Keys == {"SlaveId", "ByteOrder", "FrameType"}
  {
    map["SlaveId" := JInt(c.slaveId), "ByteOrder" := JBytes(c.byteOrder), "FrameType" := JStr(FrameTypeName(c.frameType))]
  }

  /**
   * `UnpackDeviceSpecific` on values: a new device's properties, each overridden by
   * its key when the key is present; `None` where a present value does not convert.
   */
  function UnpackDeviceCustom(jo: JObject): (r: Option<DeviceCustom>)
    ensures r.None? <==>
      ("SlaveId" in jo && AsByte(jo["SlaveId"]).None?) ||
      ("ByteOrder" in jo && AsBytes(jo["ByteOrder"]).None?) ||
      ("FrameType" in jo && AsFrameType(jo["FrameType"]).None?)
    ensures r.Some? ==> (if "SlaveId" in jo then jo["SlaveId"] == JInt(r.value.slaveId) else r.value.slaveId == 0)
    ensures r.Some? ==> (if "ByteOrder" in jo then jo["ByteOrder"] == JBytes(r.value.byteOrder) else r.value.byteOrder == DefaultByteOrder)
    ensures r.Some? ==> (if "FrameType" in jo then AsFrameType(jo["FrameType"]) == Some(r.value.frameType) else r.value.frameType == Ip)
  {
    var slave := if "SlaveId" in jo then AsByte(jo["SlaveId"]) else Some(DefaultDeviceCustom.slaveId);
    var order := if "ByteOrder" in jo then AsBytes(jo["ByteOrder"]) else Some(DefaultDeviceCustom.byteOrder);
    var frame := if "FrameType" in jo then AsFrameType(jo["FrameType"]) else Some(DefaultDeviceCustom.frameType);
    if slave.None? || order.None? || frame.None? then None
    else Some(DeviceCustom(slave.value, order.value, frame.value))
  }

  /** Unpacking what was packed restores the slave id, the byte order and the frame type. */
  lemma DeviceCustomRoundTrip(c: DeviceCustom)
    ensures UnpackDeviceCustom(PackDeviceCustom(c)) == Some(c)
  {
    var jo := PackDeviceCustom(c);
    assert AsFrameType(jo["FrameType"]) == Some(c.frameType) by {
      match c.frameType
      case Ip =>
      case Rtu =>
      case Ascii =>
    }
  }

  /** Only the three keys matter: an empty object gives a new device's properties, and other keys are ignored. */
  lemma UnpackDeviceReadsOnlyItsKeys(jo: JObject, other: string, v: Json)
    requires other !in {"SlaveId", "ByteOrder", "FrameType"}
    ensures UnpackDeviceCustom(map[]) == Some(DefaultDeviceCustom)
    ensures UnpackDeviceCustom(jo[other := v]) == UnpackDeviceCustom(jo)
  {
    var jo' := jo[other := v];
    assert forall k :: k in {"SlaveId", "ByteOrder", "FrameType"} ==> (k in jo' <==> k in jo) && (k in jo ==> jo'[k] == jo[k]);
  }

  /** The table is rebuilt when the byte order is set, which happens when the slave id converted and the byte order is present and converts. */
  predicate SetsByteOrder(jo: JObject)
  {
    ("SlaveId" !in jo || AsByte(jo["SlaveId"]).Some?) && "ByteOrder" in jo && AsBytes(jo["ByteOrder"]).Some?
  }

  function CustomOf(d: ModbusDevice): DeviceCustom
    reads d`slaveId, d`byteOrder, d`frameType
  {
    DeviceCustom(d.slaveId, d.byteOrder, d.frameType)
  }

  /** `PackDeviceSpecific` on a Modbus device. */
  function PackDeviceSpecific(d: ModbusDevice): (jo: JObject)
    reads d`slaveId, d`byteOrder, d`frameType
    ensures UnpackDeviceCustom(jo) == Some(CustomOf(d))
  {
    DeviceCustomRoundTrip(CustomOf(d));
    PackDeviceCustom(CustomOf(d))
  }

  /**
   * `UnpackDeviceSpecific`: a new device whose present keys are set in order, the
   * byte order through its setter; `None` where a conversion throws.
   */
  method UnpackDeviceSpecific(jo: JObject, converters: ConverterTable) returns (r: Option<ModbusDevice>)
    requires TableValid(converters.table)
    modifies converters
    ensures r.None? <==> UnpackDeviceCustom(jo).None?
    ensures r.Some? ==> fresh(r.value) && r.value.converters == converters && CustomOf(r.value) == UnpackDeviceCustom(jo).value
    ensures r.Some? ==> r.value.tags == [] && r.value.policy == DefaultPolicy && r.value.forceRead
    ensures r.Some? ==> r.value.name == "" && r.value.description == "" && r.value.connection == None
    ensures SetsByteOrder(jo) ==> converters.table == FullTable(jo["ByteOrder"].bytes)
    ensures !SetsByteOrder(jo) ==> converters.table == old(converters.table)
  {
    var d := new ModbusDevice(converters, [], DefaultPolicy, 0);
    if "SlaveId" in jo {
      var s := AsByte(jo["SlaveId"]);
      if s.None? {
        return None;
      }
      d.slaveId := s.value;
    }
    if "ByteOrder" in jo {
      var b := AsBytes(jo["ByteOrder"]);
      if b.None? {
        return None;
      }
      d.SetByteOrder(b.value);
    }
    if "FrameType" in jo {
      var f := AsFrameType(jo["FrameType"]);
      if f.None? {
        return None;
      }
      d.frameType := f.value;
    }
    r := Some(d);
  }

  // ---------------------------------------------------------------------------
  // The Modbus part of a tag

  /** `PackTagSpecific`: the anonymous object `{ Region, Begin }`. */
  function PackTagCustom(a: Address): (jo: JObject)
    ensures jo.Keys == {"Region", "Begin"}
  {
    map["Region" := JInt(RegionCode(a.region)), "Begin" := JInt(a.begin)]
  }

  /** `UnpackTagSpecific` on the address of the new tag `blank`: each present key overrides. */
  function UnpackTagCustom(jo: JObject, blank: Address): (r: Option<Address>)
    ensures r.None? <==> ("Region" in jo && AsRegion(jo["Region"]).None?) || ("Begin" in jo && AsInt32(jo["Begin"]).None?)
    ensures r.Some? ==> r.value.length == blank.length
    ensures r.Some? ==> (if "Region" in jo then AsRegion(jo["Region"]) == Some(r.value.region) else r.value.region == blank.region)
    ensures r.Some? ==> (if "Begin" in jo then jo["Begin"] == JInt(r.value.begin) else r.value.begin == blank.begin)
  {
    var region := if "Region" in jo then AsRegion(jo["Region"]) else Some(blank.region);
    var begin := if "Begin" in jo then AsInt32(jo["Begin"]) else Some(blank.begin);
    if region.None? || begin.None? then None
    else Some(blank.(region := region.value, begin := begin.value))
  }

  /** Region and start address round-trip; the register count is not in the JSON and comes from the new tag. */
  lemma TagCustomRoundTrip(a: Address, blank: Address)
    requires Int32Min <= a.begin <= Int32Max
    ensures UnpackTagCustom(PackTagCustom(a), blank) == Some(a.(length := blank.length))
  {
    var jo := PackTagCustom(a);
    assert AsRegion(jo["Region"]) == Some(a.region) by {
      match a.region
      case Coils =>
      case DiscreteInputs =>
      case InputRegisters =>
      case HoldingRegisters =>
    }
  }

  // ---------------------------------------------------------------------------
  // Tags

  /** The six fields `UnpackTag` and `PackTag` copy agree. */
  predicate SameFields(t: Tag, c: TagCfg)
  {
    t.cfg.name == c.name && t.cfg.displayName == c.displayName && t.cfg.description == c.description &&
    t.cfg.format == c.format && t.cfg.access == c.access && t.cfg.valueType == c.valueType
  }

  /**
   * `UnpackTag`: the tag `UnpackTagSpecific` makes from `blank` (the new `MTag`), with
   * the six fields of the config; everything else is the new tag's.
   */
  function UnpackTag(config: TagCfg, blank: Tag): (r: Option<Tag>)
    ensures r.None? <==> UnpackTagCustom(config.custom, blank.addr).None?
    ensures r.Some? ==> SameFields(r.value, config) && r.value.addr == UnpackTagCustom(config.custom, blank.addr).value
    ensures r.Some? ==> r.value.cfg.templateId == blank.cfg.templateId && r.value.groups == blank.groups && r.value.state == blank.state
  {
    match UnpackTagCustom(config.custom, blank.addr)
    case None => None
    case Some(a) =>
      var t := blank.(addr := a);
      Some(t.(cfg := t.cfg.(
        name := config.name, displayName := config.displayName, description := config.description,
        format := config.format, access := config.access, valueType := config.valueType)))
  }

  /** One link per group, in the groups' order, for the new config (whose id is 0). */
  function GroupLinks(gs: seq<TagsGroup>): (ls: seq<TagsToTagsGroups>)
    ensures |ls| == |gs| && forall k :: 0 <= k < |gs| ==> ls[k] == TagsToTagsGroups(0, gs[k].name)
  {
    seq(|gs|, k requires 0 <= k < |gs| => TagsToTagsGroups(0, gs[k].name))
  }

  /** The config `PackTag` returns for a tag with a group dictionary. */
  function PackedTag(tag: Tag): (c: TagCfg)
    requires tag.groups.Some?
    ensures SameFields(tag, c) && c.className == ClassName && c.id == 0
    ensures c.custom == PackTagCustom(tag.addr)
    ensures |c.tagsToTagsGroups| == |tag.groups.value|
    ensures forall k :: 0 <= k < |tag.groups.value| ==> c.tagsToTagsGroups[k].groupName == tag.groups.value[k].name
  {
    TagCfg(0, ClassName, tag.cfg.name, tag.cfg.displayName, tag.cfg.description, tag.cfg.format,
      tag.cfg.access, tag.cfg.valueType, PackTagCustom(tag.addr), GroupLinks(tag.groups.value))
  }

  /** `UnpackTag(PackTag(t))` agrees with `t` on the six fields, the region and the start address. */
  lemma TagRoundTrip(t: Tag, blank: Tag)
    requires t.groups.Some? && Int32Min <= t.addr.begin <= Int32Max
    ensures var r := UnpackTag(PackedTag(t), blank);
      r.Some? && r.value.cfg == t.cfg.(templateId := blank.cfg.templateId) &&
      r.value.addr == t.addr.(length := blank.addr.length)
  {
    TagCustomRoundTrip(t.addr, blank.addr);
  }

  /** Group names of a tag are distinct (they are the keys of its group dictionary). */
  ghost predicate UniqueGroupNames(gs: seq<TagsGroup>)
  {
    forall i, j :: 0 <= i < j < |gs| ==> gs[i].name != gs[j].name
  }

  /** A stored group carries the name, `Min` and description of `g`. */
  ghost predicate GroupStored(local: seq<TagsGroupCfg>, g: TagsGroup)
  {
    exists i :: 0 <= i < |local| && local[i].name == g.name && local[i].min == g.min && local[i].description == g.description
  }

  /** Some stored group has the name `n`. */
  ghost predicate GroupNamed(local: seq<TagsGroupCfg>, n: string)
  {
    exists i :: 0 <= i < |local| && local[i].name == n
  }

  /** Some group of `gs` has the name `n`. */
  ghost predicate NamedIn(gs: seq<TagsGroup>, n: string)
  {
    exists i :: 0 <= i < |gs| && gs[i].name == n
  }

  /** Some group of the tag's dictionary has the name `n`. */
  ghost predicate HasGroup(tag: Tag, n: string)
  {
    tag.groups.Some? && NamedIn(tag.groups.value, n)
  }

  /** The stored group of `g`'s name, found or created, gets `g`'s name, `Min` and description. */
  method StoreGroup(groups: EntitySet<TagsGroupCfg>, g: TagsGroup)
    modifies groups`local
    ensures GroupStored(groups.local, g)
    ensures forall h: TagsGroup :: h.name != g.name && GroupStored(old(groups.local), h) ==> GroupStored(groups.local, h)
    ensures forall n :: GroupNamed(old(groups.local), n) ==> GroupNamed(groups.local, n)
    ensures |old(groups.local)| <= |groups.local| <= |old(groups.local)| + 1
  {
    ghost var before := groups.local;
    var i := groups.GetOrCreate((tg: TagsGroupCfg) => tg.name == g.name, BlankGroup);
    groups.Update(i, groups.local[i].(name := g.name, min := g.min, description := g.description));
    assert groups.local[i].name == g.name && groups.local[i].min == g.min && groups.local[i].description == g.description;
    forall h: TagsGroup | h.name != g.name && GroupStored(before, h)
      ensures GroupStored(groups.local, h)
    {
      var w :| 0 <= w < |before| && before[w].name == h.name && before[w].min == h.min && before[w].description == h.description;
      assert groups.local[w] == before[w];
    }
    forall n | GroupNamed(before, n)
      ensures GroupNamed(groups.local, n)
    {
      var w :| 0 <= w < |before| && before[w].name == n;
      if w != i {
        assert groups.local[w] == before[w];
      }
    }
  }

  /** The link of tag config `tagId` to the group named `name`, found or created, now has that key. */
  method StoreLink(links: EntitySet<TagsToTagsGroups>, tagId: int, name: string)
    modifies links`local
    ensures TagsToTagsGroups(tagId, name) in links.local
    ensures forall l :: l in old(links.local) ==> l in links.local
    ensures UniqueBy(old(links.local), TagLinkKey) ==> UniqueBy(links.local, TagLinkKey)
  {
    ghost var before := links.local;
    var p := (o: TagsToTagsGroups) => o.groupName == name && o.tagId == tagId;
    var i := links.GetOrCreate(p, BlankLink);
    links.Update(i, TagsToTagsGroups(tagId, name));
    assert links.local[i] == TagsToTagsGroups(tagId, name);
    forall l | l in before
      ensures l in links.local
    {
      var w :| 0 <= w < |before| && before[w] == l;
      if w == i {
        assert p(before[w]);
      } else {
        assert links.local[w] == l;
      }
    }
    if UniqueBy(before, TagLinkKey) {
      LookupKeepsKeysUnique(before, links.rows, TagLinkKey, (tagId, name), p, BlankLink, TagsToTagsGroups(tagId, name));
    }
  }

  /**
   * One pass of `PackTag`'s loop, for group `k`: the group is stored, and the link
   * already in the new config is reused, else the link is found or created.
   */
  method PackGroup(ctx: StoreContext, gs: seq<TagsGroup>, k: nat, links: seq<TagsToTagsGroups>) returns (links': seq<TagsToTagsGroups>)
    requires k < |gs| && |links| == k
    requires forall j :: 0 <= j < k ==> links[j] == TagsToTagsGroups(0, gs[j].name)
    requires forall j :: 0 <= j < k ==> TagsToTagsGroups(0, gs[j].name) in ctx.tagsToTagsGroups.local
    modifies ctx.tagsGroups`local, ctx.tagsToTagsGroups`local
    ensures links' == links + [TagsToTagsGroups(0, gs[k].name)]
    ensures TagsToTagsGroups(0, gs[k].name) in ctx.tagsToTagsGroups.local
    ensures forall l :: l in old(ctx.tagsToTagsGroups.local) ==> l in ctx.tagsToTagsGroups.local
    ensures UniqueBy(old(ctx.tagsToTagsGroups.local), TagLinkKey) ==> UniqueBy(ctx.tagsToTagsGroups.local, TagLinkKey)
    ensures GroupStored(ctx.tagsGroups.local, gs[k])
    ensures forall h: TagsGroup :: h.name != gs[k].name && GroupStored(old(ctx.tagsGroups.local), h) ==> GroupStored(ctx.tagsGroups.local, h)
    ensures forall n :: GroupNamed(old(ctx.tagsGroups.local), n) ==> GroupNamed(ctx.tagsGroups.local, n)
  {
    var g := gs[k];
    StoreGroup(ctx.tagsGroups, g);
    var found := FindFirst(links, (o: TagsToTagsGroups) => o.groupName == g.name);
    var ttg;
    if found.None? {
      StoreLink(ctx.tagsToTagsGroups, 0, g.name);
      ttg := TagsToTagsGroups(0, g.name);
    } else {
      ttg := links[found.value];
    }
    links' := links + [ttg];
  }

  /**
   * `PackTag`'s loop over the group dictionary: every group stored and its link
   * tracked; the groups of other names keep what they had.
   */
  method PackGroups(ctx: StoreContext, gs: seq<TagsGroup>) returns (links: seq<TagsToTagsGroups>)
    modifies ctx.tagsGroups`local, ctx.tagsToTagsGroups`local
    ensures links == GroupLinks(gs)
    ensures forall k :: 0 <= k < |gs| ==> TagsToTagsGroups(0, gs[k].name) in ctx.tagsToTagsGroups.local
    ensures forall k :: 0 <= k < |gs| ==> GroupNamed(ctx.tagsGroups.local, gs[k].name)
    ensures UniqueGroupNames(gs) ==> forall k :: 0 <= k < |gs| ==> GroupStored(ctx.tagsGroups.local, gs[k])
    ensures forall l :: l in old(ctx.tagsToTagsGroups.local) ==> l in ctx.tagsToTagsGroups.local
    ensures UniqueBy(old(ctx.tagsToTagsGroups.local), TagLinkKey) ==> UniqueBy(ctx.tagsToTagsGroups.local, TagLinkKey)
    ensures forall n :: GroupNamed(old(ctx.tagsGroups.local), n) ==> GroupNamed(ctx.tagsGroups.local, n)
    ensures forall h: TagsGroup :: !NamedIn(gs, h.name) && GroupStored(old(ctx.tagsGroups.local), h) ==> GroupStored(ctx.tagsGroups.local, h)
  {
    ghost var linksBefore := ctx.tagsToTagsGroups.local;
    ghost var groupsBefore := ctx.tagsGroups.local;
    links := [];
    var k := 0;
    while k < |gs|
      invariant 0 <= k <= |gs| && |links| == k
      invariant forall j :: 0 <= j < k ==> links[j] == TagsToTagsGroups(0, gs[j].name)
      invariant forall j :: 0 <= j < k ==> TagsToTagsGroups(0, gs[j].name) in ctx.tagsToTagsGroups.local
      invariant UniqueGroupNames(gs) ==> forall j :: 0 <= j < k ==> GroupStored(ctx.tagsGroups.local, gs[j])
      invariant forall l :: l in linksBefore ==> l in ctx.tagsToTagsGroups.local
      invariant UniqueBy(linksBefore, TagLinkKey) ==> UniqueBy(ctx.tagsToTagsGroups.local, TagLinkKey)
      invariant forall j :: 0 <= j < k ==> GroupNamed(ctx.tagsGroups.local, gs[j].name)
      invariant forall n :: GroupNamed(groupsBefore, n) ==> GroupNamed(ctx.tagsGroups.local, n)
      invariant forall h: TagsGroup :: (forall j :: 0 <= j < k ==> gs[j].name != h.name) && GroupStored(groupsBefore, h) ==>
        GroupStored(ctx.tagsGroups.local, h)
    {
      links := PackGroup(ctx, gs, k, links);
      k := k + 1;
    }
  }

  /**
   * `PackTag`: a new config with the six fields, the class name and the Modbus JSON,
   * and one link per group; each group is stored with the tag's name, `Min` and
   * description. `None` where the tag's group dictionary is `null`.
   */
  method PackTag(tag: Tag, ctx: StoreContext) returns (config: Option<TagCfg>)
    modifies ctx.tagsGroups`local, ctx.tagsToTagsGroups`local
    ensures config.None? <==> tag.groups.None?
    ensures config.Some? ==> config.value == PackedTag(tag)
    ensures tag.groups.Some? ==> forall k :: 0 <= k < |tag.groups.value| ==>
      TagsToTagsGroups(0, tag.groups.value[k].name) in ctx.tagsToTagsGroups.local
    ensures tag.groups.Some? && UniqueGroupNames(tag.groups.value) ==> forall k :: 0 <= k < |tag.groups.value| ==>
      GroupStored(ctx.tagsGroups.local, tag.groups.value[k])
    ensures tag.groups.Some? ==> forall k :: 0 <= k < |tag.groups.value| ==> GroupNamed(ctx.tagsGroups.local, tag.groups.value[k].name)
    ensures forall l :: l in old(ctx.tagsToTagsGroups.local) ==> l in ctx.tagsToTagsGroups.local
    ensures UniqueBy(old(ctx.tagsToTagsGroups.local), TagLinkKey) ==> UniqueBy(ctx.tagsToTagsGroups.local, TagLinkKey)
    ensures forall n :: GroupNamed(old(ctx.tagsGroups.local), n) ==> GroupNamed(ctx.tagsGroups.local, n)
    ensures forall h: TagsGroup :: !HasGroup(tag, h.name) && GroupStored(old(ctx.tagsGroups.local), h) ==> GroupStored(ctx.tagsGroups.local, h)
  {
    if tag.groups.None? {
      return None;
    }
    var links := PackGroups(ctx, tag.groups.value);
    config := Some(TagCfg(0, ClassName, tag.cfg.name, tag.cfg.displayName, tag.cfg.description, tag.cfg.format,
      tag.cfg.access, tag.cfg.valueType, PackTagCustom(tag.addr), links));
  }

  // ---------------------------------------------------------------------------
  // Devices

  /** The five header fields `UnpackDevice` and `PackDevice` copy. */
  datatype DeviceHeader = DeviceHeader(name: string, description: string, policy: Policy)

  function HeaderOf(d: ModbusDevice): DeviceHeader
    reads d`name, d`description, d`policy
  {
    DeviceHeader(d.name, d.description, d.policy)
  }

  function CfgHeader(c: DeviceCfg): DeviceHeader
  {
    DeviceHeader(c.name, c.description, Policy(c.badCommWaitPeriod, c.inActiveUpdate, c.inActiveUpdatePeriod))
  }

  /** `FirstOrDefault` over the store's connection sources by the configured name. */
  function SourceOf(sources: seq<ConnectionSource>, cfg: ConnectionSourceCfg): (r: Option<ConnectionSource>)
    ensures r.Some? ==> r.value in sources && r.value.name == cfg.name
    ensures r.None? ==> forall c :: c in sources ==> c.name != cfg.name
  {
    match FindFirst(sources, (c: ConnectionSource) => c.name == cfg.name)
    case None => None
    case Some(i) => Some(sources[i])
  }

  /**
   * `UnpackDevice`: the device `UnpackDeviceSpecific` makes, with the five header
   * fields of the config and the connection source of the configured name.  `None`
   * where the JSON does not convert, or where there are sources to search and the
   * config has no connection (the search dereferences it).
   */
  method UnpackDevice(config: DeviceCfg, sources: seq<ConnectionSource>, converters: ConverterTable) returns (device: Option<ModbusDevice>)
    requires TableValid(converters.table)
    modifies converters
    ensures device.Some? <==> UnpackDeviceCustom(config.custom).Some? && (sources == [] || config.connection.Some?)
    ensures device.Some? ==> fresh(device.value) && device.value.converters == converters && device.value.tags == []
    ensures device.Some? ==> HeaderOf(device.value) == CfgHeader(config)
    ensures device.Some? ==> CustomOf(device.value) == UnpackDeviceCustom(config.custom).value
    ensures device.Some? ==> device.value.connection == if sources == [] then None else SourceOf(sources, config.connection.value)
    ensures SetsByteOrder(config.custom) ==> converters.table == FullTable(config.custom["ByteOrder"].bytes)
    ensures !SetsByteOrder(config.custom) ==> converters.table == old(converters.table)
  {
    var d := UnpackDeviceSpecific(config.custom, converters);
    if d.None? {
      return None;
    }
    var dev := d.value;
    dev.name := config.name;
    dev.description := config.description;
    dev.policy := dev.policy.(badCommWaitPeriod := config.badCommWaitPeriod);
    dev.policy := dev.policy.(updateInActiveTags := config.inActiveUpdate);
    dev.policy := dev.policy.(updateInActiveTagsPeriod := config.inActiveUpdatePeriod);
    if sources == [] {
      dev.connection := None;
    } else {
      if config.connection.None? {
        return None;
      }
      dev.connection := SourceOf(sources, config.connection.value);
    }
    device := Some(dev);
  }

  /** The links of one device config name each template at most once. */
  ghost predicate UniqueTemplateLinks(ls: seq<DeviceToTemplate>)
  {
    forall i, j :: 0 <= i < j < |ls| ==> ls[i].templateId != ls[j].templateId
  }

  ghost predicate LinksTemplate(ls: seq<DeviceToTemplate>, tid: int)
  {
    exists j :: 0 <= j < |ls| && ls[j].templateId == tid
  }

  /** Some template with id `tid` lists the tag config `tc`. */
  ghost predicate TemplateHolds(templates: seq<Template>, tid: int, tc: TagCfg)
  {
    exists j :: 0 <= j < |templates| && templates[j].id == tid && tc in templates[j].tags
  }

  /**
   * The device's link to template `tid`: the one already in its list, else the
   * stored link found or created with the device's id and `tid`, added to the list.
   */
  method LinkTemplate(d2t: EntitySet<DeviceToTemplate>, links: seq<DeviceToTemplate>, deviceId: int, tid: int)
    returns (links': seq<DeviceToTemplate>)
    modifies d2t`local
    ensures LinksTemplate(links', tid)
    ensures forall t :: LinksTemplate(links, t) ==> LinksTemplate(links', t)
    ensures UniqueTemplateLinks(links) ==> UniqueTemplateLinks(links')
    ensures LinksTemplate(links, tid) ==> links' == links && d2t.local == old(d2t.local)
    ensures UniqueBy(old(d2t.local), DeviceLinkKey) ==> UniqueBy(d2t.local, DeviceLinkKey)
  {
    var found := FindFirst(links, (l: DeviceToTemplate) => l.templateId == tid);
    if found.Some? {
      return links;
    }
    ghost var before := d2t.local;
    var p := (l: DeviceToTemplate) => l.templateId == tid && l.deviceId == deviceId;
    var i := d2t.GetOrCreate(p, BlankDeviceLink);
    d2t.Update(i, DeviceToTemplate(deviceId, tid));
    if UniqueBy(before, DeviceLinkKey) {
      LookupKeepsKeysUnique(before, d2t.rows, DeviceLinkKey, (deviceId, tid), p, BlankDeviceLink, DeviceToTemplate(deviceId, tid));
    }
    links' := links + [DeviceToTemplate(deviceId, tid)];
    assert links'[|links|].templateId == tid;
    forall t | LinksTemplate(links, t)
      ensures LinksTemplate(links', t)
    {
      var w :| 0 <= w < |links| && links[w].templateId == t;
      assert links'[w] == links[w];
    }
  }

  /**
   * The template of id `tid`, found or created, gets that id and lists the tag's
   * config; the templates already holding a config keep it.
   */
  method FileTag(templates: EntitySet<Template>, tid: int, tc: TagCfg)
    modifies templates`local
    ensures TemplateHolds(templates.local, tid, tc)
    ensures forall t, c :: TemplateHolds(old(templates.local), t, c) ==> TemplateHolds(templates.local, t, c)
  {
    ghost var before := templates.local;
    var i := templates.GetOrCreate((t: Template) => t.id == tid, BlankTemplate);
    templates.Update(i, templates.local[i].(id := tid));
    ghost var tags := templates.local[i].tags;
    templates.Update(i, templates.local[i].(tags := templates.local[i].tags + [tc]));
    assert templates.local[i].tags[|tags|] == tc;
    forall t, c | TemplateHolds(before, t, c)
      ensures TemplateHolds(templates.local, t, c)
    {
      var w :| 0 <= w < |before| && before[w].id == t && c in before[w].tags;
      if w == i {
        assert c in templates.local[w].tags;
      } else {
        assert templates.local[w] == before[w];
      }
    }
  }

  /**
   * One pass of `PackDevice`'s loop: the tag's config, the device's link to the
   * tag's template, and the template listing the config.
   */
  method PackDeviceTag(ctx: StoreContext, tag: Tag, links: seq<DeviceToTemplate>, deviceId: int)
    returns (links': seq<DeviceToTemplate>, tc: Option<TagCfg>)
    modifies ctx.templates`local, ctx.tagsGroups`local, ctx.deviceToTemplates`local, ctx.tagsToTagsGroups`local
    ensures tc.None? <==> tag.groups.None?
    ensures tc.Some? ==> tc.value == PackedTag(tag) && LinksTemplate(links', tag.cfg.templateId)
    ensures tc.Some? ==> TemplateHolds(ctx.templates.local, tag.cfg.templateId, tc.value)
    ensures forall t :: LinksTemplate(links, t) ==> LinksTemplate(links', t)
    ensures forall t, c :: TemplateHolds(old(ctx.templates.local), t, c) ==> TemplateHolds(ctx.templates.local, t, c)
    ensures UniqueTemplateLinks(links) ==> UniqueTemplateLinks(links')
    ensures UniqueBy(old(ctx.deviceToTemplates.local), DeviceLinkKey) ==> UniqueBy(ctx.deviceToTemplates.local, DeviceLinkKey)
    ensures tc.Some? ==> forall i :: 0 <= i < |tag.groups.value| ==>
      GroupNamed(ctx.tagsGroups.local, tag.groups.value[i].name) &&
      TagsToTagsGroups(0, tag.groups.value[i].name) in ctx.tagsToTagsGroups.local
    ensures tc.Some? && UniqueGroupNames(tag.groups.value) ==> forall i :: 0 <= i < |tag.groups.value| ==>
      GroupStored(ctx.tagsGroups.local, tag.groups.value[i])
    ensures forall n :: GroupNamed(old(ctx.tagsGroups.local), n) ==> GroupNamed(ctx.tagsGroups.local, n)
    ensures forall h: TagsGroup :: !HasGroup(tag, h.name) && GroupStored(old(ctx.tagsGroups.local), h) ==> GroupStored(ctx.tagsGroups.local, h)
    ensures forall l :: l in old(ctx.tagsToTagsGroups.local) ==> l in ctx.tagsToTagsGroups.local
    ensures UniqueBy(old(ctx.tagsToTagsGroups.local), TagLinkKey) ==> UniqueBy(ctx.tagsToTagsGroups.local, TagLinkKey)
  {
    tc := PackTag(tag, ctx);
    if tc.None? {
      return links, None;
    }
    links' := LinkTemplate(ctx.deviceToTemplates, links, deviceId, tag.cfg.templateId);
    FileTag(ctx.templates, tag.cfg.templateId, tc.value);
  }

  /** `GetOrCreate`'s predicate for the device config of a name. */
  function DeviceNamed(name: string): DeviceCfg -> bool
  {
    (d: DeviceCfg) => d.name == name
  }

  /** Device configs are keyed by name. */
  function DeviceCfgName(d: DeviceCfg): string
  {
    d.name
  }

  /**
   * The connection of `PackDevice`, found or created by the connection source's name.
   * The name predicate reads `device.ConnectionSource.Name`, so a device without a
   * connection source throws (`None`) as soon as the predicate meets a tracked or
   * stored connection; with no connection anywhere it is never evaluated and a blank
   * connection is created.
   */
  method PackConnection(device: ModbusDevice, ctx: StoreContext) returns (conn: Option<ConnectionSourceCfg>)
    modifies ctx.connections`local
    ensures conn.None? <==> device.connection.None? && (old(ctx.connections.local) != [] || ctx.connections.rows != [])
    ensures conn.None? ==> ctx.connections.local == old(ctx.connections.local)
    ensures conn.Some? ==> conn.value in ctx.connections.local
    ensures conn.Some? && device.connection.Some? ==>
      conn.value.name == device.connection.value.name || conn.value == BlankConnection
    ensures conn.Some? && device.connection.None? ==> conn.value == BlankConnection && ctx.connections.local == [BlankConnection]
  {
    var ch;
    if device.connection.None? {
      if ctx.connections.local != [] || ctx.connections.rows != [] {
        return None;
      }
      // Both lists are empty, so the predicate is never applied.
      ch := ctx.connections.GetOrCreate((c: ConnectionSourceCfg) => false, BlankConnection);
    } else {
      var source := device.connection.value;
      ch := ctx.connections.GetOrCreate((c: ConnectionSourceCfg) => c.name == source.name, BlankConnection);
    }
    conn := Some(ctx.connections.local[ch]);
  }

  /**
   * Config `c` carries the device's class name, five header fields and Modbus JSON,
   * and a tracked connection: the one of the device's connection source name, or a
   * blank one.
   */
  ghost predicate HeaderPacked(device: ModbusDevice, c: DeviceCfg, connections: seq<ConnectionSourceCfg>)
    reads device
  {
    CfgHeader(c) == HeaderOf(device) && c.className == ClassName && c.custom == PackDeviceSpecific(device) &&
    c.connection.Some? && c.connection.value in connections &&
    (device.connection.Some? ==> c.connection.value.name == device.connection.value.name || c.connection.value == BlankConnection) &&
    (device.connection.None? ==> c.connection == Some(BlankConnection))
  }

  /**
   * The first half of `PackDevice`: the stored config of the device's name, found or
   * created, with the class name, the five header fields, the connection of
   * `PackConnection` and the Modbus JSON; the config keeps the id and template links
   * it was found with.
   */
  method PackDeviceHeader(device: ModbusDevice, ctx: StoreContext) returns (h: nat, config: Option<DeviceCfg>)
    modifies ctx.devices`local, ctx.connections`local
    ensures (ctx.devices.local, h) == Lookup(old(ctx.devices.local), ctx.devices.rows, DeviceNamed(device.name), BlankDevice)
    ensures config.Some? ==>
      (config.value.id == ctx.devices.local[h].id && config.value.deviceToTemplates == ctx.devices.local[h].deviceToTemplates)
    ensures config.None? <==> device.connection.None? && (old(ctx.connections.local) != [] || ctx.connections.rows != [])
    ensures config.Some? ==> HeaderPacked(device, config.value, ctx.connections.local)
    ensures config.Some? && device.connection.None? ==> ctx.connections.local == [BlankConnection]
    ensures config.Some? && (forall d :: d in old(ctx.devices.local) || d in ctx.devices.rows ==> UniqueTemplateLinks(d.deviceToTemplates)) ==>
      UniqueTemplateLinks(config.value.deviceToTemplates)
  {
    h := ctx.devices.GetOrCreate(DeviceNamed(device.name), BlankDevice);
    var cfg := ctx.devices.local[h];
    cfg := cfg.(className := ClassName, name := device.name, description := device.description,
      badCommWaitPeriod := device.policy.badCommWaitPeriod, inActiveUpdate := device.policy.updateInActiveTags,
      inActiveUpdatePeriod := device.policy.updateInActiveTagsPeriod);
    var conn := PackConnection(device, ctx);
    if conn.None? {
      return h, None;
    }
    config := Some(cfg.(connection := conn, custom := PackDeviceSpecific(device)));
  }

  /** The first `n` tags have each group's name stored and each group's link tracked. */
  ghost predicate GroupsFiled(tags: seq<Tag>, n: int, groups: seq<TagsGroupCfg>, links: seq<TagsToTagsGroups>)
  {
    forall k, i :: 0 <= k < n && k < |tags| && tags[k].groups.Some? && 0 <= i < |tags[k].groups.value| ==>
      GroupNamed(groups, tags[k].groups.value[i].name) && TagsToTagsGroups(0, tags[k].groups.value[i].name) in links
  }

  /**
   * Of the first `n` tags, each group keeps the `Min` and description of the last
   * tag that names it (for tags whose dictionary names each group once).
   */
  ghost predicate LastGroupsStored(tags: seq<Tag>, n: int, groups: seq<TagsGroupCfg>)
  {
    forall k, i :: (0 <= k < n && k < |tags| && tags[k].groups.Some? && UniqueGroupNames(tags[k].groups.value) &&
      0 <= i < |tags[k].groups.value| && LastNaming(tags, k, n, tags[k].groups.value[i].name)) ==>
      GroupStored(groups, tags[k].groups.value[i])
  }

  /** No tag after the `k`th and before the `n`th names the group `name`. */
  ghost predicate LastNaming(tags: seq<Tag>, k: int, n: int, name: string)
  {
    forall j :: 0 <= j && k < j < n && j < |tags| ==> !HasGroup(tags[j], name)
  }

  lemma GroupsFiledStep(tags: seq<Tag>, n: nat, g0: seq<TagsGroupCfg>, l0: seq<TagsToTagsGroups>,
                        g1: seq<TagsGroupCfg>, l1: seq<TagsToTagsGroups>)
    requires n < |tags| && tags[n].groups.Some? && GroupsFiled(tags, n, g0, l0)
    requires forall m :: GroupNamed(g0, m) ==> GroupNamed(g1, m)
    requires forall l :: l in l0 ==> l in l1
    requires forall i :: 0 <= i < |tags[n].groups.value| ==>
      GroupNamed(g1, tags[n].groups.value[i].name) && TagsToTagsGroups(0, tags[n].groups.value[i].name) in l1
    ensures GroupsFiled(tags, n + 1, g1, l1)
  {
  }

  lemma {:induction false} LastGroupsStoredStep(tags: seq<Tag>, n: nat, g0: seq<TagsGroupCfg>, g1: seq<TagsGroupCfg>)
    requires n < |tags| && tags[n].groups.Some? && LastGroupsStored(tags, n, g0)
    requires UniqueGroupNames(tags[n].groups.value) ==> forall i :: 0 <= i < |tags[n].groups.value| ==>
      GroupStored(g1, tags[n].groups.value[i])
    requires forall h: TagsGroup :: !HasGroup(tags[n], h.name) && GroupStored(g0, h) ==> GroupStored(g1, h)
    ensures LastGroupsStored(tags, n + 1, g1)
  {
    forall k, i | 0 <= k < n + 1 && k < |tags| && tags[k].groups.Some? && UniqueGroupNames(tags[k].groups.value) &&
      0 <= i < |tags[k].groups.value| && LastNaming(tags, k, n + 1, tags[k].groups.value[i].name)
      ensures GroupStored(g1, tags[k].groups.value[i])
    {
      if k < n {
        assert !HasGroup(tags[n], tags[k].groups.value[i].name);
        assert GroupStored(g0, tags[k].groups.value[i]);
      }
    }
  }

  /**
   * The first `n` tags are packed: each has a group dictionary, `links` names its
   * template, which lists its config, and its groups are filed.
   */
  ghost predicate TagsPacked(tags: seq<Tag>, n: int, links: seq<DeviceToTemplate>, templates: seq<Template>,
                             groups: seq<TagsGroupCfg>, tagLinks: seq<TagsToTagsGroups>)
  {
    0 <= n <= |tags| &&
    (forall j :: 0 <= j < n ==>
      (tags[j].groups.Some? && LinksTemplate(links, tags[j].cfg.templateId) &&
       TemplateHolds(templates, tags[j].cfg.templateId, PackedTag(tags[j])))) &&
    GroupsFiled(tags, n, groups, tagLinks) && LastGroupsStored(tags, n, groups)
  }

  lemma TagsPackedStep(tags: seq<Tag>, n: nat, links0: seq<DeviceToTemplate>, t0: seq<Template>, g0: seq<TagsGroupCfg>,
                       l0: seq<TagsToTagsGroups>, links1: seq<DeviceToTemplate>, t1: seq<Template>, g1: seq<TagsGroupCfg>,
                       l1: seq<TagsToTagsGroups>)
    requires TagsPacked(tags, n, links0, t0, g0, l0) && n < |tags| && tags[n].groups.Some?
    requires forall t :: LinksTemplate(links0, t) ==> LinksTemplate(links1, t)
    requires forall t, c :: TemplateHolds(t0, t, c) ==> TemplateHolds(t1, t, c)
    requires LinksTemplate(links1, tags[n].cfg.templateId) && TemplateHolds(t1, tags[n].cfg.templateId, PackedTag(tags[n]))
    requires forall m :: GroupNamed(g0, m) ==> GroupNamed(g1, m)
    requires forall l :: l in l0 ==> l in l1
    requires forall i :: 0 <= i < |tags[n].groups.value| ==>
      GroupNamed(g1, tags[n].groups.value[i].name) && TagsToTagsGroups(0, tags[n].groups.value[i].name) in l1
    requires UniqueGroupNames(tags[n].groups.value) ==> forall i :: 0 <= i < |tags[n].groups.value| ==>
      GroupStored(g1, tags[n].groups.value[i])
    requires forall h: TagsGroup :: !HasGroup(tags[n], h.name) && GroupStored(g0, h) ==> GroupStored(g1, h)
    ensures TagsPacked(tags, n + 1, links1, t1, g1, l1)
  {
    GroupsFiledStep(tags, n, g0, l0, g1, l1);
    LastGroupsStoredStep(tags, n, g0, g1);
  }

  /** `PackDeviceTag` on the `k`th tag, which extends the packed prefix by one. */
  method PackNextTag(tags: seq<Tag>, k: nat, ctx: StoreContext, links: seq<DeviceToTemplate>, deviceId: int)
    returns (links': seq<DeviceToTemplate>, packed: bool)
    requires k < |tags| && TagsPacked(tags, k, links, ctx.templates.local, ctx.tagsGroups.local, ctx.tagsToTagsGroups.local)
    modifies ctx.templates`local, ctx.tagsGroups`local, ctx.deviceToTemplates`local, ctx.tagsToTagsGroups`local
    ensures packed <==> tags[k].groups.Some?
    ensures packed ==> TagsPacked(tags, k + 1, links', ctx.templates.local, ctx.tagsGroups.local, ctx.tagsToTagsGroups.local)
    ensures UniqueTemplateLinks(links) ==> UniqueTemplateLinks(links')
    ensures UniqueBy(old(ctx.deviceToTemplates.local), DeviceLinkKey) ==> UniqueBy(ctx.deviceToTemplates.local, DeviceLinkKey)
    ensures forall t, c :: TemplateHolds(old(ctx.templates.local), t, c) ==> TemplateHolds(ctx.templates.local, t, c)
    ensures forall l :: l in old(ctx.tagsToTagsGroups.local) ==> l in ctx.tagsToTagsGroups.local
    ensures UniqueBy(old(ctx.tagsToTagsGroups.local), TagLinkKey) ==> UniqueBy(ctx.tagsToTagsGroups.local, TagLinkKey)
  {
    ghost var t0, g0, l0 := ctx.templates.local, ctx.tagsGroups.local, ctx.tagsToTagsGroups.local;
    var tc;
    links', tc := PackDeviceTag(ctx, tags[k], links, deviceId);
    packed := tc.Some?;
    if packed {
      TagsPackedStep(tags, k, links, t0, g0, l0, links', ctx.templates.local, ctx.tagsGroups.local, ctx.tagsToTagsGroups.local);
    }
  }

  /**
   * `PackDevice`'s loop over the tags: each tag's config is listed by its template,
   * which `links` names once.  `false` where a tag has no group dictionary.
   */
  method PackDeviceTags(tags: seq<Tag>, ctx: StoreContext, links: seq<DeviceToTemplate>, deviceId: int)
    returns (links': seq<DeviceToTemplate>, ok: bool)
    modifies ctx.templates`local, ctx.tagsGroups`local, ctx.deviceToTemplates`local, ctx.tagsToTagsGroups`local
    ensures ok <==> Configured(tags)
    ensures ok ==> TagsPacked(tags, |tags|, links', ctx.templates.local, ctx.tagsGroups.local, ctx.tagsToTagsGroups.local)
    ensures UniqueTemplateLinks(links) ==> UniqueTemplateLinks(links')
    ensures UniqueBy(old(ctx.deviceToTemplates.local), DeviceLinkKey) ==> UniqueBy(ctx.deviceToTemplates.local, DeviceLinkKey)
    ensures forall t, c :: TemplateHolds(old(ctx.templates.local), t, c) ==> TemplateHolds(ctx.templates.local, t, c)
    ensures forall l :: l in old(ctx.tagsToTagsGroups.local) ==> l in ctx.tagsToTagsGroups.local
    ensures UniqueBy(old(ctx.tagsToTagsGroups.local), TagLinkKey) ==> UniqueBy(ctx.tagsToTagsGroups.local, TagLinkKey)
  {
    links' := links;
    var k := 0;
    while k < |tags|
      invariant TagsPacked(tags, k, links', ctx.templates.local, ctx.tagsGroups.local, ctx.tagsToTagsGroups.local)
      invariant UniqueTemplateLinks(links) ==> UniqueTemplateLinks(links')
      invariant UniqueBy(old(ctx.deviceToTemplates.local), DeviceLinkKey) ==> UniqueBy(ctx.deviceToTemplates.local, DeviceLinkKey)
      invariant forall t, c :: TemplateHolds(old(ctx.templates.local), t, c) ==> TemplateHolds(ctx.templates.local, t, c)
      invariant forall l :: l in old(ctx.tagsToTagsGroups.local) ==> l in ctx.tagsToTagsGroups.local
      invariant UniqueBy(old(ctx.tagsToTagsGroups.local), TagLinkKey) ==> UniqueBy(ctx.tagsToTagsGroups.local, TagLinkKey)
    {
      var packed;
      links', packed := PackNextTag(tags, k, ctx, links', deviceId);
      if !packed {
        return links', false;
      }
      k := k + 1;
    }
    ok := true;
  }

  /**
   * The second half of `PackDevice`: the tags packed into the header's config, which
   * is then stored at position `h`.  `None` where a tag has no group dictionary.
   */
  method PackDeviceTail(tags: seq<Tag>, ctx: StoreContext, h: nat, header: DeviceCfg) returns (config: Option<DeviceCfg>)
    requires h < |ctx.devices.local|
    modifies ctx.devices`local, ctx.templates`local, ctx.tagsGroups`local, ctx.deviceToTemplates`local, ctx.tagsToTagsGroups`local
    ensures config.Some? <==> Configured(tags)
    ensures config.Some? ==> config.value == header.(deviceToTemplates := config.value.deviceToTemplates)
    ensures config.Some? ==> ctx.devices.local == old(ctx.devices.local)[h := config.value]
    ensures config.None? ==> ctx.devices.local == old(ctx.devices.local)
    ensures config.Some? && UniqueTemplateLinks(header.deviceToTemplates) ==> UniqueTemplateLinks(config.value.deviceToTemplates)
    ensures config.Some? ==> TagsPacked(tags, |tags|, config.value.deviceToTemplates, ctx.templates.local,
      ctx.tagsGroups.local, ctx.tagsToTagsGroups.local)
    ensures UniqueBy(old(ctx.deviceToTemplates.local), DeviceLinkKey) ==> UniqueBy(ctx.deviceToTemplates.local, DeviceLinkKey)
    ensures forall t, c :: TemplateHolds(old(ctx.templates.local), t, c) ==> TemplateHolds(ctx.templates.local, t, c)
    ensures forall l :: l in old(ctx.tagsToTagsGroups.local) ==> l in ctx.tagsToTagsGroups.local
    ensures UniqueBy(old(ctx.tagsToTagsGroups.local), TagLinkKey) ==> UniqueBy(ctx.tagsToTagsGroups.local, TagLinkKey)
  {
    var links, ok := PackDeviceTags(tags, ctx, header.deviceToTemplates, header.id);
    if !ok {
      return None;
    }
    var cfg := header.(deviceToTemplates := links);
    ctx.devices.Update(h, cfg);
    config := Some(cfg);
  }

  /**
   * `PackDevice`: the header half, then the tags; the config is stored at the
   * position its lookup returned.  `None` where the header throws (a device without
   * a connection source while some connection is tracked or stored) or a tag has no
   * group dictionary.
   */
  method PackDevice(device: ModbusDevice, ctx: StoreContext) returns (config: Option<DeviceCfg>)
    modifies ctx.devices`local, ctx.connections`local, ctx.templates`local
    modifies ctx.tagsGroups`local, ctx.deviceToTemplates`local, ctx.tagsToTagsGroups`local
    ensures config.Some? <==>
      (device.connection.Some? || (old(ctx.connections.local) == [] && ctx.connections.rows == [])) && Configured(device.tags)
    ensures config.Some? ==> HeaderPacked(device, config.value, ctx.connections.local) && config.value in ctx.devices.local
    ensures config.Some? && (forall d :: d in old(ctx.devices.local) || d in ctx.devices.rows ==> UniqueTemplateLinks(d.deviceToTemplates)) ==>
      UniqueTemplateLinks(config.value.deviceToTemplates)
    ensures UniqueBy(old(ctx.deviceToTemplates.local), DeviceLinkKey) ==> UniqueBy(ctx.deviceToTemplates.local, DeviceLinkKey)
    ensures var r := Lookup(old(ctx.devices.local), ctx.devices.rows, DeviceNamed(device.name), BlankDevice);
      if config.Some? then ctx.devices.local == r.0[r.1 := config.value] && config.value.id == r.0[r.1].id
      else ctx.devices.local == r.0
    ensures config.Some? && UniqueBy(old(ctx.devices.local), DeviceCfgName) ==> UniqueBy(ctx.devices.local, DeviceCfgName)
    ensures config.Some? ==> TagsPacked(device.tags, |device.tags|, config.value.deviceToTemplates, ctx.templates.local,
      ctx.tagsGroups.local, ctx.tagsToTagsGroups.local)
    ensures forall t, c :: TemplateHolds(old(ctx.templates.local), t, c) ==> TemplateHolds(ctx.templates.local, t, c)
    ensures forall l :: l in old(ctx.tagsToTagsGroups.local) ==> l in ctx.tagsToTagsGroups.local
    ensures UniqueBy(old(ctx.tagsToTagsGroups.local), TagLinkKey) ==> UniqueBy(ctx.tagsToTagsGroups.local, TagLinkKey)
  {
    ghost var before := ctx.devices.local;
    var h, header := PackDeviceHeader(device, ctx);
    if header.None? {
      return None;
    }
    config := PackDeviceTail(device.tags, ctx, h, header.value);
    assert config.Some? ==> ctx.devices.local[h] == config.value;
    if config.Some? && UniqueBy(before, DeviceCfgName) {
      LookupKeepsKeysUnique(before, ctx.devices.rows, DeviceCfgName, device.name, DeviceNamed(device.name), BlankDevice, config.value);
    }
  }

}
