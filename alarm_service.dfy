/**
 * The alarm log of RPCExp/AlarmLogger/AlarmService.cs: at start every configured
 * alarm is bound to a stored category and a stored `AlarmInfo`, creating the ones
 * that are missing; each check appends an `Alarm` for every raised config; the
 * cache is flushed like the tag archive's; `GetAlarms` reads the log back through a filter.
 *
 * Entities are values; the stored ones carry distinct database ids, and a created
 * one carries id 0 until it is saved.
 */
module AlarmLogger {
  import opened Wrappers
  import opened Numeric
  import opened Sequences
  import opened Retention

  datatype AlarmCategory = AlarmCategory(id: int, name: string, style: string)

  datatype AlarmInfo = AlarmInfo(
    id: int, category: AlarmCategory,
    facility: string, device: string, name: string, description: string, condition: string, templateTxt: string)

  /** A configured alarm: whether it is usable and the message it raises. */
  datatype AlarmConfig = AlarmConfig(isOk: bool, info: AlarmInfo)

  /** A row of the `Alarms` table. */
  datatype Alarm = Alarm(timeStamp: int, alarmInfoId: int, custom1: Option<string>, custom2: Option<string>, custom3: Option<string>, custom4: Option<string>)

  /** The two lists `InnitDB` keeps in step with the database, and the categories in use. */
  datatype Catalog = Catalog(categories: seq<AlarmCategory>, infos: seq<AlarmInfo>, local: seq<AlarmCategory>)

  predicate SameCategoryKey(a: AlarmCategory, b: AlarmCategory)
  {
    a.name == b.name && a.style == b.style
  }

  /** The six descriptive fields an `AlarmInfo` is matched on besides its category. */
  predicate SameText(a: AlarmInfo, b: AlarmInfo)
  {
    a.facility == b.facility && a.device == b.device && a.name == b.name &&
    a.description == b.description && a.condition == b.condition && a.templateTxt == b.templateTxt
  }

  /** No two categories share a (name, style) key. */
  predicate UniqueCategories(cs: seq<AlarmCategory>)
  {
    forall i, j :: 0 <= i < j < |cs| ==> !SameCategoryKey(cs[i], cs[j])
  }

  /** No two infos share a category and all six fields. */
  predicate UniqueInfos(infos: seq<AlarmInfo>)
  {
    forall i, j :: 0 <= i < j < |infos| ==> !(infos[i].category == infos[j].category && SameText(infos[i], infos[j]))
  }

  predicate NoDuplicates<T(==)>(s: seq<T>)
  {
    forall i, j :: 0 <= i < j < |s| ==> s[i] != s[j]
  }

  /** `FirstOrDefault` over the stored categories by (name, style). */
  function FindCategory(cats: seq<AlarmCategory>, key: AlarmCategory): (r: Option<AlarmCategory>)
    ensures r.Some? ==> r.value in cats && SameCategoryKey(r.value, key)
    ensures r.None? ==> forall e :: e in cats ==> !SameCategoryKey(e, key)
  {
    match FindFirst(cats, (e: AlarmCategory) => SameCategoryKey(e, key))
    case None => None
    case Some(k) => Some(cats[k])
  }

  /** `FirstOrDefault` over the stored infos by category and the six fields. */
  function FindInfo(infos: seq<AlarmInfo>, cat: AlarmCategory, info: AlarmInfo): (r: Option<AlarmInfo>)
    ensures r.Some? ==> r.value in infos && r.value.category == cat && SameText(r.value, info)
    ensures r.None? ==> forall e :: e in infos ==> !(e.category == cat && SameText(e, info))
  {
    match FindFirst(infos, (e: AlarmInfo) => e.category == cat && SameText(e, info))
    case None => None
    case Some(k) => Some(infos[k])
  }

  /** The category a config resolves to: the stored one, or a new one with its (name, style). */
  function ResolvedCategory(cats: seq<AlarmCategory>, key: AlarmCategory): AlarmCategory
  {
    var found := FindCategory(cats, key);
    if found.Some? then found.value else AlarmCategory(0, key.name, key.style)
  }

  /** The info a config resolves to under `cat`: the stored one, or a new one with its six fields. */
  function ResolvedInfo(infos: seq<AlarmInfo>, cat: AlarmCategory, info: AlarmInfo): AlarmInfo
  {
    var found := FindInfo(infos, cat, info);
    if found.Some? then found.value else info.(id := 0, category := cat)
  }

  /** `Add` when missing from the list it was searched in. */
  function AddIfMissing<T(==)>(s: seq<T>, x: T): (r: seq<T>)
    ensures x in r
    ensures r == if x in s then s else s + [x]
  {
    if x in s then s else s + [x]
  }

  /**
   * One config's synchronisation: the stored category with the config's (name,
   * style), created if missing; that category in `local` once; the stored info with
   * that category and the config's six fields, created if missing. Returns the
   * catalog and the stored info the config is rebound to.
   */
  function Sync(c: Catalog, info: AlarmInfo): (Catalog, AlarmInfo)
  {
    var cat := ResolvedCategory(c.categories, info.category);
    var stored := ResolvedInfo(c.infos, cat, info);
    (Catalog(AddIfMissing(c.categories, cat), AddIfMissing(c.infos, stored), AddIfMissing(c.local, cat)), stored)
  }

  /** The catalog invariant: keys unique, `local` drawn from the stored categories without repeats. */
  predicate Consistent(c: Catalog)
  {
    UniqueCategories(c.categories) && UniqueInfos(c.infos) && NoDuplicates(c.local) &&
    (forall i :: 0 <= i < |c.local| ==> c.local[i] in c.categories)
  }

  /**
   * One synchronisation only appends to the catalog, at most one category and one
   * info; the config is rebound to a stored info with its six fields whose category
   * is stored, in use, and has the config category's (name, style).
   */
  lemma SyncGrows(c: Catalog, info: AlarmInfo)
    ensures c.categories <= Sync(c, info).0.categories && |Sync(c, info).0.categories| <= |c.categories| + 1
    ensures c.infos <= Sync(c, info).0.infos && |Sync(c, info).0.infos| <= |c.infos| + 1
    ensures c.local <= Sync(c, info).0.local
    ensures Sync(c, info).1 in Sync(c, info).0.infos
    ensures Sync(c, info).1.category in Sync(c, info).0.categories && Sync(c, info).1.category in Sync(c, info).0.local
    ensures SameText(Sync(c, info).1, info) && SameCategoryKey(Sync(c, info).1.category, info.category)
  {
  }

  /** One synchronisation keeps the catalog consistent: no key is ever stored twice. */
  lemma SyncKeepsConsistent(c: Catalog, info: AlarmInfo)
    requires Consistent(c)
    ensures Consistent(Sync(c, info).0)
  {
    var c' := Sync(c, info).0;
    var cat := ResolvedCategory(c.categories, info.category);
    var stored := ResolvedInfo(c.infos, cat, info);
    assert Sync(c, info).1 == stored;
    if cat !in c.categories {
      assert FindCategory(c.categories, info.category).None?;
      forall i, j | 0 <= i < j < |c'.categories|
        ensures !SameCategoryKey(c'.categories[i], c'.categories[j])
      {
        if j == |c.categories| {
          assert c'.categories[i] in c.categories;
        }
      }
    }
    if stored !in c.infos {
      assert FindInfo(c.infos, cat, info).None?;
      forall i, j | 0 <= i < j < |c'.infos|
        ensures !(c'.infos[i].category == c'.infos[j].category && SameText(c'.infos[i], c'.infos[j]))
      {
        if j == |c.infos| {
          assert c'.infos[i] in c.infos;
        }
      }
    }
    if cat !in c.local {
      forall i, j | 0 <= i < j < |c'.local|
        ensures c'.local[i] != c'.local[j]
      {
        if j == |c.local| {
          assert c'.local[i] in c.local;
        }
      }
    }
    forall i | 0 <= i < |c'.local|
      ensures c'.local[i] in c'.categories
    {
      if i < |c.local| {
        assert c'.local[i] == c.local[i];
        PrefixMember(c.categories, c'.categories, c'.local[i]);
      }
    }
  }

  lemma PrefixMember<T>(a: seq<T>, b: seq<T>, x: T)
    requires a <= b && x in a
    ensures x in b
  {
    var i :| 0 <= i < |a| && a[i] == x;
    assert b[i] == x;
  }

  /** The texts of a config's `Custom1` .. `Custom4` values at the check; `None` where the config has none. */
  datatype Customs = Customs(custom1: Option<string>, custom2: Option<string>, custom3: Option<string>, custom4: Option<string>)

  /** The check's alarm for a raised config: stamped now, pointing at the config's stored info. */
  function Raised(cfg: AlarmConfig, now: int, customs: Customs): Alarm
  {
    Alarm(now, cfg.info.id, customs.custom1, customs.custom2, customs.custom3, customs.custom4)
  }

  /**
   * Config `k` adds an alarm: it `IsOk`, `IsRized` returned true and the four custom
   * texts were read (`customs[k]` is `None` where a custom tag's `GetValue()` was
   * `null`, so that `ToString()` threw).
   */
  predicate Raises(cfgs: seq<AlarmConfig>, rized: seq<Option<bool>>, customs: seq<Option<Customs>>, k: nat)
    requires k < |cfgs| == |rized| == |customs|
  {
    cfgs[k].isOk && rized[k] == Some(true) && customs[k].Some?
  }

  /**
   * The alarms one check appends, in config order: configs not `IsOk` are skipped, and
   * `IsRized` or a custom text may throw (`None`), which is caught.
   */
  function NewAlarms(cfgs: seq<AlarmConfig>, rized: seq<Option<bool>>, customs: seq<Option<Customs>>, now: int): (r: seq<Alarm>)
    requires |rized| == |customs| == |cfgs|
    ensures |r| <= |cfgs|
    ensures forall a :: a in r ==> a.timeStamp == now
    ensures forall a :: a in r ==> exists k :: 0 <= k < |cfgs| && Raises(cfgs, rized, customs, k) && a.alarmInfoId == cfgs[k].info.id
  {
    if cfgs == [] then []
    else
      var n := |cfgs| - 1;
      var rest := NewAlarms(cfgs[..n], rized[..n], customs[..n], now);
      var last := if Raises(cfgs, rized, customs, n) then [Raised(cfgs[n], now, customs[n].value)] else [];
      assert forall a :: a in rest ==> exists k :: 0 <= k < n && Raises(cfgs, rized, customs, k) && a.alarmInfoId == cfgs[k].info.id;
      rest + last
  }

  /** Extending the configs by one adds that config's alarm, if it raised one. */
  lemma NewAlarmsSnoc(cfgs: seq<AlarmConfig>, rized: seq<Option<bool>>, customs: seq<Option<Customs>>, now: int, i: nat)
    requires |rized| == |customs| == |cfgs| && i < |cfgs|
    ensures NewAlarms(cfgs[..i + 1], rized[..i + 1], customs[..i + 1], now) ==
      NewAlarms(cfgs[..i], rized[..i], customs[..i], now) +
      (if Raises(cfgs, rized, customs, i) then [Raised(cfgs[i], now, customs[i].value)] else [])
  {
    assert cfgs[..i + 1][..i] == cfgs[..i];
    assert rized[..i + 1][..i] == rized[..i];
    assert customs[..i + 1][..i] == customs[..i];
  }

  /** The positions of the raising configs, in increasing order. */
  function RaisingPositions(cfgs: seq<AlarmConfig>, rized: seq<Option<bool>>, customs: seq<Option<Customs>>): (ps: seq<nat>)
    requires |rized| == |customs| == |cfgs|
    ensures forall j :: 0 <= j < |ps| ==> ps[j] < |cfgs| && Raises(cfgs, rized, customs, ps[j])
    ensures forall k :: 0 <= k < |cfgs| && Raises(cfgs, rized, customs, k) ==> k in ps
    ensures forall i, j :: 0 <= i < j < |ps| ==> ps[i] < ps[j]
  {
    if cfgs == [] then []
    else
      var n := |cfgs| - 1;
      var rest := RaisingPositions(cfgs[..n], rized[..n], customs[..n]);
      rest + if Raises(cfgs, rized, customs, n) then [n] else []
  }

  /**
   * A check appends exactly one alarm per raising config, in config order: the `j`-th
   * new alarm is the `Raised` alarm of the `j`-th raising config.
   */
  lemma {:induction false} NewAlarmsInOrder(cfgs: seq<AlarmConfig>, rized: seq<Option<bool>>, customs: seq<Option<Customs>>, now: int)
    requires |rized| == |customs| == |cfgs|
    ensures var ps := RaisingPositions(cfgs, rized, customs);
      var r := NewAlarms(cfgs, rized, customs, now);
      |r| == |ps| && forall j :: 0 <= j < |ps| ==> r[j] == Raised(cfgs[ps[j]], now, customs[ps[j]].value)
  {
    if cfgs != [] {
      var n := |cfgs| - 1;
      NewAlarmsInOrder(cfgs[..n], rized[..n], customs[..n], now);
    }
  }

  /** The alarm filter; every member is optional and the time bounds default to the `long` extremes. */
  datatype AlarmFilter = AlarmFilter(
    tBegin: int, tEnd: int,
    categoriesIds: Option<seq<int>>, facility: Option<string>, device: Option<string>,
    alarmInfoId: Int32, offset: Int32, count: Int32)

  const DefaultAlarmFilter: AlarmFilter := AlarmFilter(Int64Min, Int64Max, None, None, None, 0, 0, 0)

  /** ASCII letters folded to lower case; other characters are left alone. */
  function Fold(s: string): (r: string)
    ensures |r| == |s|
  {
    seq(|s|, i requires 0 <= i < |s| => if 'A' <= s[i] <= 'Z' then (s[i] - 'A' + 'a') as char else s[i])
  }

  /** `hay.Contains(needle, StringComparison.OrdinalIgnoreCase)`. */
  predicate ContainsIgnoreCase(hay: string, needle: string)
  {
    exists i :: 0 <= i <= |hay| - |needle| && MatchAt(hay, needle, i)
  }

  /** `needle` occurs in `hay` at `i`, ignoring the case of ASCII letters. */
  predicate MatchAt(hay: string, needle: string, i: int)
    requires 0 <= i <= |hay| - |needle|
  {
    Fold(hay[i..i + |needle|]) == Fold(needle)
  }

  /** Folding twice folds once: a folded letter is lower case. */
  lemma FoldIdempotent(s: string)
    ensures Fold(Fold(s)) == Fold(s)
  {
  }

  /** Folding commutes with slicing. */
  lemma FoldSlice(s: string, i: nat, j: nat)
    requires i <= j <= |s|
    ensures Fold(s)[i..j] == Fold(s[i..j])
  {
  }

  /**
   * The comparison ignores case on both sides: folding the haystack or the needle
   * first changes nothing.
   */
  lemma ContainsIgnoreCaseFolded(hay: string, needle: string)
    ensures ContainsIgnoreCase(Fold(hay), needle) == ContainsIgnoreCase(hay, needle)
    ensures ContainsIgnoreCase(hay, Fold(needle)) == ContainsIgnoreCase(hay, needle)
  {
    forall i | 0 <= i <= |hay| - |needle|
      ensures MatchAt(Fold(hay), needle, i) == MatchAt(hay, needle, i)
      ensures MatchAt(hay, Fold(needle), i) == MatchAt(hay, needle, i)
    {
      FoldSlice(hay, i, i + |needle|);
      FoldIdempotent(hay[i..i + |needle|]);
      FoldIdempotent(needle);
    }
  }

  /** The `AlarmInfo` an alarm refers to. */
  function InfoOf(infos: seq<AlarmInfo>, id: int): (r: Option<AlarmInfo>)
    ensures r.Some? ==> r.value in infos && r.value.id == id
    ensures r.None? ==> forall i :: i in infos ==> i.id != id
  {
    match FindFirst(infos, (i: AlarmInfo) => i.id == id)
    case None => None
    case Some(k) => Some(infos[k])
  }

  predicate InfoHas(infos: seq<AlarmInfo>, a: Alarm, p: AlarmInfo -> bool)
  {
    var i := InfoOf(infos, a.alarmInfoId);
    i.Some? && p(i.value)
  }

  /** Whether the `j`-th `Where` clause (1 to 6, in the order the C# code adds them) is added. */
  predicate On(f: AlarmFilter, j: nat)
  {
    if j == 1 then f.tBegin != Int64Min
    else if j == 2 then f.tEnd != Int64Max
    else if j == 3 then f.device.Some?
    else if j == 4 then f.alarmInfoId != 0
    else if j == 5 then f.categoriesIds.Some? && |f.categoriesIds.value| > 0
    else f.facility.Some?
  }

  /** The condition of the `j`-th `Where` clause. */
  predicate Clause(infos: seq<AlarmInfo>, f: AlarmFilter, j: nat, a: Alarm)
  {
    if j == 1 then a.timeStamp >= f.tBegin
    else if j == 2 then a.timeStamp <= f.tEnd
    else if j == 3 then f.device.Some? && InfoHas(infos, a, (i: AlarmInfo) => i.device == f.device.value)
    else if j == 4 then InfoHas(infos, a, (i: AlarmInfo) => i.id == f.alarmInfoId)
    else if j == 5 then f.categoriesIds.Some? && InfoHas(infos, a, (i: AlarmInfo) => i.category.id in f.categoriesIds.value)
    else f.facility.Some? && InfoHas(infos, a, (i: AlarmInfo) => ContainsIgnoreCase(i.facility, f.facility.value))
  }

  function Staged(rows: seq<Alarm>, infos: seq<AlarmInfo>, f: AlarmFilter, n: nat): seq<Alarm>
  {
    if n == 0 then rows
    else
      var q := Staged(rows, infos, f, n - 1);
      if On(f, n) then Filter(q, (a: Alarm) => Clause(infos, f, n, a)) else q
  }

  /** `GetAlarms`: no filter returns the whole log; a filter applies its clauses, and pages only when its `Count` is set. */
  function GetAlarms(rows: seq<Alarm>, infos: seq<AlarmInfo>, filter: Option<AlarmFilter>): seq<Alarm>
  {
    match filter
    case None => rows
    case Some(f) =>
      var q := Staged(rows, infos, f, 6);
      if f.count != 0 then Take(Skip(q, f.offset), f.count) else q
  }

  /** The selection condition written at once. */
  predicate Matches(infos: seq<AlarmInfo>, f: AlarmFilter, a: Alarm)
  {
    (f.tBegin != Int64Min ==> a.timeStamp >= f.tBegin) &&
    (f.tEnd != Int64Max ==> a.timeStamp <= f.tEnd) &&
    (f.device.Some? ==> InfoHas(infos, a, (i: AlarmInfo) => i.device == f.device.value)) &&
    (f.alarmInfoId != 0 ==> InfoHas(infos, a, (i: AlarmInfo) => i.id == f.alarmInfoId)) &&
    (f.categoriesIds.Some? && |f.categoriesIds.value| > 0 ==>
      InfoHas(infos, a, (i: AlarmInfo) => i.category.id in f.categoriesIds.value)) &&
    (f.facility.Some? ==> InfoHas(infos, a, (i: AlarmInfo) => ContainsIgnoreCase(i.facility, f.facility.value)))
  }

  predicate MatchesUpTo(infos: seq<AlarmInfo>, f: AlarmFilter, n: nat, a: Alarm)
  {
    n == 0 || (MatchesUpTo(infos, f, n - 1, a) && (On(f, n) ==> Clause(infos, f, n, a)))
  }

  lemma {:induction false} StagedIsFilter(rows: seq<Alarm>, infos: seq<AlarmInfo>, f: AlarmFilter, n: nat)
    ensures Staged(rows, infos, f, n) == Filter(rows, (a: Alarm) => MatchesUpTo(infos, f, n, a))
  {
    if n == 0 {
      FilterAll(rows, (a: Alarm) => MatchesUpTo(infos, f, 0, a));
    } else {
      StagedIsFilter(rows, infos, f, n - 1);
      var acc := (a: Alarm) => MatchesUpTo(infos, f, n - 1, a);
      var next := (a: Alarm) => MatchesUpTo(infos, f, n, a);
      if On(f, n) {
        FilterFuse(rows, acc, (a: Alarm) => Clause(infos, f, n, a), next);
      } else {
        FilterCongruent(rows, acc, next);
      }
    }
  }

  /** `GetAlarms` with a filter returns the matching alarms in store order, paged only when `Count` is set. */
  lemma GetAlarmsIsMatches(rows: seq<Alarm>, infos: seq<AlarmInfo>, f: AlarmFilter)
    ensures var m := Filter(rows, (a: Alarm) => Matches(infos, f, a));
      GetAlarms(rows, infos, Some(f)) == if f.count != 0 then Take(Skip(m, f.offset), f.count) else m
  {
    StagedIsFilter(rows, infos, f, 6);
    forall x | x in rows
      ensures MatchesUpTo(infos, f, 6, x) == Matches(infos, f, x)
    {
      assert MatchesUpTo(infos, f, 1, x) == (On(f, 1) ==> Clause(infos, f, 1, x));
      assert MatchesUpTo(infos, f, 2, x) == (MatchesUpTo(infos, f, 1, x) && (On(f, 2) ==> Clause(infos, f, 2, x)));
      assert MatchesUpTo(infos, f, 3, x) == (MatchesUpTo(infos, f, 2, x) && (On(f, 3) ==> Clause(infos, f, 3, x)));
      assert MatchesUpTo(infos, f, 4, x) == (MatchesUpTo(infos, f, 3, x) && (On(f, 4) ==> Clause(infos, f, 4, x)));
      assert MatchesUpTo(infos, f, 5, x) == (MatchesUpTo(infos, f, 4, x) && (On(f, 5) ==> Clause(infos, f, 5, x)));
    }
    FilterCongruent(rows, (a: Alarm) => MatchesUpTo(infos, f, 6, a), (a: Alarm) => Matches(infos, f, a));
  }

  /** The default filter selects everything, unpaged: the same as no filter. */
  lemma DefaultAlarmFilterSelectsAll(rows: seq<Alarm>, infos: seq<AlarmInfo>)
    ensures GetAlarms(rows, infos, Some(DefaultAlarmFilter)) == GetAlarms(rows, infos, None) == rows
  {
    GetAlarmsIsMatches(rows, infos, DefaultAlarmFilter);
    FilterAll(rows, (a: Alarm) => Matches(infos, DefaultAlarmFilter, a));
  }

  /** The alarm service: its configs, the categories in use, the pending alarms and the table. */
  class AlarmService {
    var configs: seq<AlarmConfig>
    var localCategories: seq<AlarmCategory>
    var newAlarms: seq<Alarm>
    var tNextSave: int
    var nextMaintain: int
    /** The `Alarms` table in store order. */
    var rows: seq<Alarm>
    var minMaintainPeriod: int
    var checkPeriod: int
    var savePeriod: int
    var storeItemsCount: int

    constructor (cfgs: seq<AlarmConfig>, stored: seq<Alarm>, now: int)
      ensures configs == cfgs && rows == stored && localCategories == [] && newAlarms == []
      ensures nextMaintain == now && tNextSave == now + DefaultSavePeriod
      ensures minMaintainPeriod == DefaultMinMaintainPeriod && checkPeriod == DefaultCheckPeriod
      ensures savePeriod == DefaultSavePeriod && storeItemsCount == DefaultStoreItemsCount
    {
      configs, rows, localCategories, newAlarms := cfgs, stored, [], [];
      nextMaintain, tNextSave := now, now + DefaultSavePeriod;
      minMaintainPeriod, checkPeriod := DefaultMinMaintainPeriod, DefaultCheckPeriod;
      savePeriod, storeItemsCount := DefaultSavePeriod, DefaultStoreItemsCount;
    }

    /** One config's synchronisation against the stored lists, adding to the categories in use. */
    method SyncOne(cats: seq<AlarmCategory>, infos: seq<AlarmInfo>, info: AlarmInfo)
      returns (cats': seq<AlarmCategory>, infos': seq<AlarmInfo>, stored: AlarmInfo)
      modifies this`localCategories
      ensures (Catalog(cats', infos', localCategories), stored) == Sync(Catalog(cats, infos, old(localCategories)), info)
    {
      cats', infos' := cats, infos;
      var foundCategory := FindCategory(cats, info.category);
      var cat;
      if foundCategory.Some? {
        cat := foundCategory.value;
      } else {
        cat := AlarmCategory(0, info.category.name, info.category.style);
        cats' := cats + [cat];
      }
      if cat !in localCategories {
        localCategories := localCategories + [cat];
      }
      var foundInfo := FindInfo(infos, cat, info);
      if foundInfo.Some? {
        stored := foundInfo.value;
      } else {
        stored := info.(id := 0, category := cat);
        infos' := infos + [stored];
      }
    }

    /**
     * The body of `InnitDB`'s loop for config `i`: it is rebound as `SyncOne` does,
     * keeping its flag, its six fields and its category's key, to a stored info whose
     * category is stored and in use; the lists only grow and stay consistent.
     */
    method Bind(i: nat, cats: seq<AlarmCategory>, infos: seq<AlarmInfo>) returns (cats': seq<AlarmCategory>, infos': seq<AlarmInfo>)
      requires i < |configs|
      modifies this`configs, this`localCategories
      ensures |configs| == |old(configs)| && forall k :: 0 <= k < |configs| && k != i ==> configs[k] == old(configs[k])
      ensures configs[i].isOk == old(configs[i].isOk) && SameText(configs[i].info, old(configs[i].info)) &&
        SameCategoryKey(configs[i].info.category, old(configs[i].info.category))
      ensures configs[i].info in infos' && configs[i].info.category in cats' && configs[i].info.category in localCategories
      ensures cats <= cats' && infos <= infos' && old(localCategories) <= localCategories
      ensures Consistent(Catalog(cats, infos, old(localCategories))) ==> Consistent(Catalog(cats', infos', localCategories))
    {
      ghost var before := Catalog(cats, infos, localCategories);
      var info := configs[i].info;
      var stored;
      cats', infos', stored := SyncOne(cats, infos, info);
      SyncGrows(before, info);
      if Consistent(before) {
        SyncKeepsConsistent(before, info);
      }
      configs := configs[i := configs[i].(info := stored)];
    }

    /**
     * `InnitDB` over the stored categories and infos, with cancellation seen before
     * config number `cancelAt`: the configs before that point are rebound, in order,
     * as `Sync` does, and the rest are untouched. The stored lists and the categories
     * in use only grow, and stay consistent if they were.
     */
    method InnitDB(storedCategories0: seq<AlarmCategory>, storedInfos0: seq<AlarmInfo>, cancelAt: nat)
      returns (storedCategories: seq<AlarmCategory>, storedInfos: seq<AlarmInfo>)
      modifies this`configs, this`localCategories
      ensures |configs| == |old(configs)|
      ensures var n := if cancelAt < |configs| then cancelAt else |configs|;
        (forall k :: n <= k < |configs| ==> configs[k] == old(configs[k])) &&
        (forall k :: 0 <= k < n ==>
          configs[k].isOk == old(configs[k].isOk) && SameText(configs[k].info, old(configs[k].info)) &&
          SameCategoryKey(configs[k].info.category, old(configs[k].info.category))) &&
        (forall k :: 0 <= k < n ==>
          configs[k].info in storedInfos && configs[k].info.category in storedCategories &&
          configs[k].info.category in localCategories)
      ensures storedCategories0 <= storedCategories && storedInfos0 <= storedInfos && old(localCategories) <= localCategories
      ensures Consistent(Catalog(storedCategories0, storedInfos0, old(localCategories))) ==>
        Consistent(Catalog(storedCategories, storedInfos, localCategories))
    {
      storedCategories, storedInfos := storedCategories0, storedInfos0;
      ghost var start := Catalog(storedCategories0, storedInfos0, localCategories);
      ghost var cfgs0 := configs;
      var i := 0;
      while i < |configs|
        invariant i <= |configs| == |cfgs0| && i <= cancelAt
        invariant start.categories <= storedCategories && start.infos <= storedInfos && start.local <= localCategories
        invariant Consistent(start) ==> Consistent(Catalog(storedCategories, storedInfos, localCategories))
        invariant forall k :: i <= k < |configs| ==> configs[k] == cfgs0[k]
        invariant forall k :: 0 <= k < i ==>
          configs[k].isOk == cfgs0[k].isOk && SameText(configs[k].info, cfgs0[k].info) &&
          SameCategoryKey(configs[k].info.category, cfgs0[k].info.category)
        invariant forall k :: 0 <= k < i ==>
          configs[k].info in storedInfos && configs[k].info.category in storedCategories &&
          configs[k].info.category in localCategories
        decreases |configs| - i
      {
        if i == cancelAt {
          break;
        }
        ghost var before := Catalog(storedCategories, storedInfos, localCategories);
        ghost var prev := configs;
        storedCategories, storedInfos := Bind(i, storedCategories, storedInfos);
        forall k | 0 <= k < i
          ensures configs[k].info in storedInfos && configs[k].info.category in storedCategories &&
            configs[k].info.category in localCategories
        {
          assert configs[k] == prev[k];
          PrefixMember(before.infos, storedInfos, configs[k].info);
          PrefixMember(before.categories, storedCategories, configs[k].info.category);
          PrefixMember(before.local, localCategories, configs[k].info.category);
        }
        i := i + 1;
      }
    }

    /** One check at `now`: an alarm for each usable config that is raised, appended in config order. */
    method Check(rized: seq<Option<bool>>, customs: seq<Option<Customs>>, now: int)
      requires |rized| == |customs| == |configs|
      modifies this`newAlarms
      ensures newAlarms == old(newAlarms) + NewAlarms(configs, rized, customs, now)
    {
      for i := 0 to |configs|
        invariant newAlarms == old(newAlarms) + NewAlarms(configs[..i], rized[..i], customs[..i], now)
      {
        NewAlarmsSnoc(configs, rized, customs, now, i);
        if configs[i].isOk && rized[i] == Some(true) && customs[i].Some? {
          newAlarms := newAlarms + [Raised(configs[i], now, customs[i].value)];
        }
      }
      assert configs[..|configs|] == configs;
      assert rized[..|configs|] == rized;
      assert customs[..|configs|] == customs;
    }

    /** The flush: when `ShouldFlush` holds the pending alarms are handed over in order and cleared. */
    method Flush(now: int) returns (saved: seq<Alarm>)
      modifies this`newAlarms, this`tNextSave
      ensures ShouldFlush(|old(newAlarms)|, old(tNextSave), now) ==>
        saved == old(newAlarms) && newAlarms == [] && tNextSave == now + savePeriod
      ensures !ShouldFlush(|old(newAlarms)|, old(tNextSave), now) ==>
        saved == [] && newAlarms == old(newAlarms) && tNextSave == old(tNextSave)
      ensures |newAlarms| < FlushThreshold
    {
      saved := [];
      if |newAlarms| > 0 {
        if tNextSave <= now || |newAlarms| >= BaseCapacity * 4 / 5 {
          tNextSave := now + savePeriod;
          saved := newAlarms;
          newAlarms := [];
        }
      }
    }

    /** `SaveAsync`: a missing or empty list changes nothing; otherwise `AddRange` then `Maintain`. */
    method SaveAsync(alarms: Option<seq<Alarm>>, now: int)
      modifies this`rows, this`nextMaintain
      ensures alarms.None? || alarms.value == [] ==> rows == old(rows) && nextMaintain == old(nextMaintain)
      ensures alarms.Some? && alarms.value != [] ==>
        (rows, nextMaintain) == Maintain(old(rows) + alarms.value, old(nextMaintain), now, minMaintainPeriod, storeItemsCount)
    {
      if alarms.None? || |alarms.value| == 0 {
        return;
      }
      rows := rows + alarms.value;
      if nextMaintain < now {
        nextMaintain := now + minMaintainPeriod;
        var count := |rows|;
        if count > storeItemsCount {
          var ctr := RemoveCount(count, storeItemsCount);
          rows := Purged(rows, ctr);
          nextMaintain := now + 4 * minMaintainPeriod;
        }
      }
    }
  }
}
