/**
 * Read-side queries of `DeviceAbstract` (RPCExp/Common/DeviceAbstract.cs):
 * values of named tags, values and descriptions of a group's tags, and the
 * group names of every tag.  None of them changes a tag.
 */
module DeviceQueries {
  import opened Wrappers
  import opened Tags
  import opened Sequences
  import Scheduler

  /** Tags are keyed by name in the device's dictionary, so names are unique. */
  predicate UniqueNames(tags: seq<Tag>)
  {
    forall i, j :: 0 <= i < j < |tags| ==> tags[i].cfg.name != tags[j].cfg.name
  }

  /** Position of the tag with this name (`Tags.ContainsKey` / `Tags[name]`). */
  function Find(tags: seq<Tag>, name: string): (r: Option<nat>)
    ensures r.Some? ==> r.value < |tags| && tags[r.value].cfg.name == name
    ensures r.None? <==> forall k :: 0 <= k < |tags| ==> tags[k].cfg.name != name
  {
    if tags == [] then None
    else if tags[0].cfg.name == name then Some(0)
    else match Find(tags[1..], name)
      case None => None
      case Some(k) => Some(k + 1)
  }

  /** With unique names, the found tag is the only one with that name. */
  lemma FindUnique(tags: seq<Tag>, name: string, k: nat)
    requires UniqueNames(tags) && k < |tags| && tags[k].cfg.name == name
    ensures Find(tags, name) == Some(k)
  {
  }

  /**
   * `GetTagsValues`: one entry per requested name, in request order, holding the
   * tag's state or `None` (`null`) for an unknown name; a `null` request gives an empty list.
   */
  method GetTagsValues(tags: seq<Tag>, tagNames: Option<seq<string>>) returns (datas: seq<Option<TagState>>)
    requires UniqueNames(tags)
    ensures tagNames.None? ==> datas == []
    ensures tagNames.Some? ==> |datas| == |tagNames.value|
    ensures tagNames.Some? ==> forall i :: 0 <= i < |datas| ==>
      (datas[i].None? <==> forall k :: 0 <= k < |tags| ==> tags[k].cfg.name != tagNames.value[i])
    ensures tagNames.Some? ==> forall i, k :: 0 <= i < |datas| && 0 <= k < |tags| && tags[k].cfg.name == tagNames.value[i] ==>
      datas[i] == Some(tags[k].state)
  {
    datas := [];
    if tagNames.None? {
      return;
    }
    var names := tagNames.value;
    var i := 0;
    while i < |names|
      invariant 0 <= i <= |names|
      invariant |datas| == i
      invariant forall j :: 0 <= j < i ==> datas[j] == match Find(tags, names[j])
        case None => None
        case Some(k) => Some(tags[k].state)
    {
      var td: Option<TagState> := None;
      var found := Find(tags, names[i]);
      if found.Some? {
        td := Some(tags[found.value].state);
      }
      datas := datas + [td];
      i := i + 1;
    }
    forall j, k | 0 <= j < |datas| && 0 <= k < |tags| && tags[k].cfg.name == names[j]
      ensures datas[j] == Some(tags[k].state)
    {
      FindUnique(tags, names[j], k);
    }
  }

  /**
   * The tag lists this group name among its groups (`t.Groups.ContainsKey(groupName)`);
   * false for a tag without a group dictionary, where the C# query throws instead.
   */
  predicate InGroup(t: Tag, groupName: string)
  {
    t.groups.Some? && HasGroup(t.groups.value, groupName)
  }

  /** Positions of the tags of a group, in dictionary order. */
  function GroupMembers(tags: seq<Tag>, groupName: string): (idx: seq<nat>)
    ensures StrictlyIncreasing(idx)
    ensures forall k: nat :: k in idx <==> k < |tags| && InGroup(tags[k], groupName)
    ensures forall j :: 0 <= j < |idx| ==> idx[j] < |tags|
  {
    var keep := (k: nat) => k < |tags| && InGroup(tags[k], groupName);
    WhereMembers(|tags|, keep);
    Where(|tags|, keep)
  }

  /**
   * The three outcomes of `GetGroupValues`: `null` for an unknown group, an exception
   * when the query meets a tag without a group dictionary, or the rows.
   */
  datatype GroupQuery<T> = NoGroup | Throws | Rows(rows: seq<T>)

  /**
   * `GetGroupValues`: `NoGroup` (`null`) when the device has no group of that name, checked
   * before any tag is touched; an exception when some tag has no group dictionary (the
   * `where` clause calls `ContainsKey` on every tag); otherwise the state of exactly the
   * tags that belong to the group, in order.
   */
  function GetGroupValues(tags: seq<Tag>, groups: map<string, TagsGroup>, groupName: string): (r: GroupQuery<TagState>)
    ensures r.NoGroup? <==> groupName !in groups
    ensures r.Throws? <==> groupName in groups && !Scheduler.Configured(tags)
    ensures r.Rows? ==> |r.rows| == |GroupMembers(tags, groupName)|
    ensures r.Rows? ==> forall j :: 0 <= j < |r.rows| ==> r.rows[j] == tags[GroupMembers(tags, groupName)[j]].state
  {
    if groupName !in groups then NoGroup
    else if !Scheduler.Configured(tags) then Throws
    else
      var idx := GroupMembers(tags, groupName);
      Rows(seq(|idx|, j requires 0 <= j < |idx| => tags[idx[j]].state))
  }

  /** Names of a tag's groups (`t.Groups.Values.Select(s => s.Name)`). */
  function GroupNames(gs: seq<TagsGroup>): (names: seq<string>)
    ensures |names| == |gs| && forall i :: 0 <= i < |gs| ==> names[i] == gs[i].name
  {
    seq(|gs|, i requires 0 <= i < |gs| => gs[i].name)
  }

  /** What `TagAbstract.GetInfo` exposes of a tag. */
  datatype TagInfo = TagInfo(cfg: TagConfig, groupNames: seq<string>, state: TagState)

  function Info(t: Tag): TagInfo
    requires t.groups.Some?
  {
    TagInfo(t.cfg, GroupNames(t.groups.value), t.state)
  }

  /**
   * `GetGroupInfos`: `None` when the query throws on a tag without a group dictionary;
   * otherwise descriptions of exactly the tags that belong to the group, in order (no
   * check that the group exists).
   */
  function GetGroupInfos(tags: seq<Tag>, groupName: string): (r: Option<seq<TagInfo>>)
    ensures r.None? <==> !Scheduler.Configured(tags)
    ensures r.Some? ==> |r.value| == |GroupMembers(tags, groupName)|
    ensures r.Some? ==> forall j :: 0 <= j < |r.value| ==>
      (r.value[j].cfg == tags[GroupMembers(tags, groupName)[j]].cfg && r.value[j].state == tags[GroupMembers(tags, groupName)[j]].state)
  {
    if !Scheduler.Configured(tags) then None
    else
      var idx := GroupMembers(tags, groupName);
      Some(seq(|idx|, j requires 0 <= j < |idx| => Info(tags[idx[j]])))
  }

  /**
   * `GetTagsGroups`: for every tag, the names of its groups, keyed by tag name; `None`
   * when some tag has no group dictionary (`t.Groups.Values` throws).
   */
  method GetTagsGroups(tags: seq<Tag>) returns (r: Option<map<string, seq<string>>>)
    requires UniqueNames(tags)
    ensures r.None? <==> !Scheduler.Configured(tags)
    ensures r.Some? ==> r.value.Keys == set k | 0 <= k < |tags| :: tags[k].cfg.name
    ensures r.Some? ==> forall k :: 0 <= k < |tags| ==> tags[k].groups.Some? && r.value[tags[k].cfg.name] == GroupNames(tags[k].groups.value)
  {
    var acc: map<string, seq<string>> := map[];
    var i := 0;
    while i < |tags|
      invariant 0 <= i <= |tags|
      invariant forall k :: 0 <= k < i ==> tags[k].groups.Some?
      invariant acc.Keys == set k | 0 <= k < i :: tags[k].cfg.name
      invariant forall k :: 0 <= k < i ==> tags[k].cfg.name in acc && acc[tags[k].cfg.name] == GroupNames(tags[k].groups.value)
    {
      var t := tags[i];
      if t.groups.None? {
        return None;
      }
      acc := acc[t.cfg.name := GroupNames(t.groups.value)];
      i := i + 1;
    }
    r := Some(acc);
  }
}
