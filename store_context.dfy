/**
 * The configuration store's entity sets (RPCExp/DbStore/Entities/StoreContext.cs).
 * A set holds the rows already in the database and the entities the context
 * tracks (`Local`); `GetOrCreate` is its find-or-create helper.  Entities are
 * values: a tracked entity is known by its position in `local`, and changing it
 * means replacing it there.
 */
module Store {
  import opened Wrappers
  import opened Numeric
  import opened Sequences
  import opened Tags

  /** The link tables' composite keys: no two entities of `s` share a key. */
  ghost predicate UniqueBy<T, K>(s: seq<T>, key: T -> K)
  {
    forall i, j :: 0 <= i < j < |s| ==> key(s[i]) != key(s[j])
  }

  /**
   * `GetOrCreate` on a set with tracked entities `local` and rows `rows`: the new
   * tracked list and the position of the entity returned.
   */
  function Lookup<T>(local: seq<T>, rows: seq<T>, p: T -> bool, blank: T): (r: (seq<T>, nat))
    ensures r.1 < |r.0| && |local| <= |r.0| <= |local| + 1 && r.0[..|local|] == local
    ensures forall j :: 0 <= j < r.1 && j < |local| ==> !p(local[j])
    ensures (exists j :: 0 <= j < |local| && p(local[j])) ==> r.0 == local && p(local[r.1])
    ensures (forall j :: 0 <= j < |local| ==> !p(local[j])) ==>
      r.1 == |local| &&
      (if exists j :: 0 <= j < |rows| && p(rows[j]) then p(r.0[r.1]) && r.0[r.1] in rows else r.0[r.1] == blank)
  {
    match FindFirst(local, p)
    case Some(i) => (local, i)
    case None =>
      match FindFirst(rows, p)
      case Some(j) => (local + [rows[j]], |local|)
      case None => (local + [blank], |local|)
  }

  /** Once the entity found or created satisfies `p`, a second call finds that same entity and adds nothing. */
  lemma LookupIdempotent<T>(local: seq<T>, rows: seq<T>, p: T -> bool, blank: T, x: T)
    requires p(x)
    ensures var r := Lookup(local, rows, p, blank);
      Lookup(r.0[r.1 := x], rows, p, blank) == (r.0[r.1 := x], r.1)
  {
    var r := Lookup(local, rows, p, blank);
    var s := r.0[r.1 := x];
    forall j | 0 <= j < r.1
      ensures !p(s[j])
    {
      assert s[j] == local[j];
    }
    assert p(s[r.1]);
  }

  /**
   * A lookup by key followed by writing an entity with that key keeps the keys
   * unique, which is what the composite keys of the link tables demand.
   */
  lemma LookupKeepsKeysUnique<T, K>(local: seq<T>, rows: seq<T>, key: T -> K, k: K, p: T -> bool, blank: T, x: T)
    requires UniqueBy(local, key) && key(x) == k
    requires forall e :: p(e) == (key(e) == k)
    ensures var r := Lookup(local, rows, p, blank);
      UniqueBy(r.0[r.1 := x], key)
  {
    var r := Lookup(local, rows, p, blank);
    var s := r.0[r.1 := x];
    forall i, j | 0 <= i < j < |s|
      ensures key(s[i]) != key(s[j])
    {
      if FindFirst(local, p).Some? {
        assert r.0 == local;
        if i == r.1 || j == r.1 {
          var o := if i == r.1 then j else i;
          assert s[o] == local[o];
          assert key(local[o]) != key(local[r.1]);
        }
      } else {
        assert r.1 == |local|;
        if j == r.1 {
          assert s[i] == local[i] && !p(local[i]);
        }
      }
    }
  }

  /** One table of the context: the rows in the database and the entities it tracks. */
  class EntitySet<T> {
    var local: seq<T>
    const rows: seq<T>

    constructor(rows: seq<T>)
      ensures local == [] && this.rows == rows
    {
      local := [];
      this.rows := rows;
    }

    /**
     * `DbSetExtentions.GetOrCreate`: the first tracked entity satisfying `p`, else the
     * first stored one, which the query starts tracking, else `blank` (the new `T()`)
     * added to the set.
     */
    method GetOrCreate(p: T -> bool, blank: T) returns (i: nat)
      modifies this`local
      ensures (local, i) == Lookup(old(local), rows, p, blank)
    {
      var found := FindFirst(local, p);
      if found.Some? {
        return found.value;
      }
      var stored := FindFirst(rows, p);
      if stored.Some? {
        local := local + [rows[stored.value]];
      } else {
        local := local + [blank];
      }
      i := |local| - 1;
    }

    /** Property writes on a tracked entity: the entity at `i` becomes `x`. */
    method Update(i: nat, x: T)
      requires i < |local|
      modifies this`local
      ensures local == old(local)[i := x]
    {
      local := local[i := x];
    }
  }

  /** A JSON value as the serialisers write them; a byte array stands for its base64 text. */
  datatype Json = JInt(n: int) | JStr(s: string) | JBytes(bytes: seq<Byte>)

  /** A `Custom` column: the JSON object its text encodes, from key to value. */
  type JObject = map<string, Json>

  datatype ConnectionSourceCfg = ConnectionSourceCfg(id: int, name: string)

  /** A tag-to-group link, known by its tag config's id and its group's name. */
  datatype TagsToTagsGroups = TagsToTagsGroups(tagId: int, groupName: string)

  datatype TagsGroupCfg = TagsGroupCfg(id: int, name: string, min: int, description: string)

  datatype TagCfg = TagCfg(
    id: int, className: string, name: string, displayName: string, description: string,
    format: string, access: Access, valueType: ValueType, custom: JObject, tagsToTagsGroups: seq<TagsToTagsGroups>)

  datatype Template = Template(id: int, tags: seq<TagCfg>)

  datatype DeviceToTemplate = DeviceToTemplate(deviceId: int, templateId: int)

  datatype DeviceCfg = DeviceCfg(
    id: int, className: string, name: string, description: string,
    badCommWaitPeriod: int, inActiveUpdate: bool, inActiveUpdatePeriod: int,
    connection: Option<ConnectionSourceCfg>, custom: JObject, deviceToTemplates: seq<DeviceToTemplate>)

  /** The entities `new T()` creates: ids 0, strings and collections empty. */
  const BlankConnection: ConnectionSourceCfg := ConnectionSourceCfg(0, "")
  const BlankGroup: TagsGroupCfg := TagsGroupCfg(0, "", 0, "")
  const BlankTemplate: Template := Template(0, [])
  const BlankLink: TagsToTagsGroups := TagsToTagsGroups(0, "")
  const BlankDeviceLink: DeviceToTemplate := DeviceToTemplate(0, 0)
  const BlankDevice: DeviceCfg := DeviceCfg(0, "", "", "", 0, false, 0, None, map[], [])

  /** The composite keys of the two link tables. */
  function TagLinkKey(l: TagsToTagsGroups): (int, string)
  {
    (l.tagId, l.groupName)
  }

  function DeviceLinkKey(l: DeviceToTemplate): (int, int)
  {
    (l.deviceId, l.templateId)
  }

  /** The tables of the configuration database the serialisers use. */
  class StoreContext {
    const connections: EntitySet<ConnectionSourceCfg>
    const devices: EntitySet<DeviceCfg>
    const templates: EntitySet<Template>
    const tagsGroups: EntitySet<TagsGroupCfg>
    const deviceToTemplates: EntitySet<DeviceToTemplate>
    const tagsToTagsGroups: EntitySet<TagsToTagsGroups>

    /** A fresh context over the stored rows: nothing is tracked yet. */
    constructor(
      connections: seq<ConnectionSourceCfg>, devices: seq<DeviceCfg>, templates: seq<Template>,
      tagsGroups: seq<TagsGroupCfg>, deviceToTemplates: seq<DeviceToTemplate>, tagsToTagsGroups: seq<TagsToTagsGroups>)
      ensures this.connections.rows == connections && this.connections.local == []
      ensures this.devices.rows == devices && this.devices.local == []
      ensures this.templates.rows == templates && this.templates.local == []
      ensures this.tagsGroups.rows == tagsGroups && this.tagsGroups.local == []
      ensures this.deviceToTemplates.rows == deviceToTemplates && this.deviceToTemplates.local == []
      ensures this.tagsToTagsGroups.rows == tagsToTagsGroups && this.tagsToTagsGroups.local == []
    {
      this.connections := new EntitySet(connections);
      this.devices := new EntitySet(devices);
      this.templates := new EntitySet(templates);
      this.tagsGroups := new EntitySet(tagsGroups);
      this.deviceToTemplates := new EntitySet(deviceToTemplates);
      this.tagsToTagsGroups := new EntitySet(tagsToTagsGroups);
    }
  }
}
