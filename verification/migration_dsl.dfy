/** `MigrationDslInternal` and its builders: the versioned entity classes,
    the rename history per field and the milestones a `defineMigrations`
    block declares. A Kotlin builder block is modelled by the builder it
    leaves behind. */
module MigrationDsl {
  import opened Wrappers
  import opened Entities
  import opened TransformCol

  /** `RenameRecord(version, from, to)`: at `version` the field called
      `from` became `to`. */
  datatype RenameRecord = RenameRecord(version: int, from: string, to: string)

  /** One entry of a `LinkedHashMap<String, List<RenameRecord>>`; the map is
      its entries in insertion order. */
  datatype HistoryEntry = HistoryEntry(key: string, records: seq<RenameRecord>)

  /** Where `key` sits in the map, if anywhere. */
  function IndexOf(m: seq<HistoryEntry>, key: string): (r: Option<nat>)
    ensures r.Some? ==> r.value < |m| && m[r.value].key == key
    ensures r.Some? ==> forall k :: 0 <= k < r.value ==> m[k].key != key
    ensures r.None? ==> forall k :: 0 <= k < |m| ==> m[k].key != key
  {
    if m == [] then None
    else if m[0].key == key then Some(0)
    else match IndexOf(m[1..], key)
      case Some(i) => Some(i + 1)
      case None => None
  }

  /** `m[key].orEmpty()`. */
  function Lookup(m: seq<HistoryEntry>, key: string): seq<RenameRecord>
  {
    match IndexOf(m, key)
    case Some(i) => m[i].records
    case None => []
  }

  /** A map has each key once. */
  predicate DistinctKeys(m: seq<HistoryEntry>)
  {
    forall i, j :: 0 <= i < j < |m| ==> m[i].key != m[j].key
  }

  /** `m[key] = value` on a `LinkedHashMap`: replaced where it stands, or
      added at the end. */
  function Put(m: seq<HistoryEntry>, key: string, value: seq<RenameRecord>): seq<HistoryEntry>
  {
    match IndexOf(m, key)
    case Some(i) => m[i := HistoryEntry(key, value)]
    case None => m + [HistoryEntry(key, value)]
  }

  /** What merging `recs` under `key` amounts to: they follow the records
      already held under the key, or start a new entry at the end. */
  function MergeInto(m: seq<HistoryEntry>, key: string, recs: seq<RenameRecord>): seq<HistoryEntry>
  {
    Put(m, key, Lookup(m, key) + recs)
  }

  /** Merging several entries one after the other, as the loops do. */
  function MergeAll(m: seq<HistoryEntry>, es: seq<HistoryEntry>): seq<HistoryEntry>
    decreases |es|
  {
    if es == [] then m
    else
      var last := es[|es| - 1];
      MergeInto(MergeAll(m, es[..|es| - 1]), last.key, last.records)
  }

  /** The records `es` holds under `key`, in order. */
  function Gathered(es: seq<HistoryEntry>, key: string): seq<RenameRecord>
    decreases |es|
  {
    if es == [] then []
    else
      var last := es[|es| - 1];
      Gathered(es[..|es| - 1], key) + (if last.key == key then last.records else [])
  }

  /** Merging adds `recs` behind what `key` held, leaves every other key
      alone, keeps the existing entries in place and the keys distinct. */
  lemma MergeLookup(m: seq<HistoryEntry>, key: string, recs: seq<RenameRecord>, other: string)
    ensures Lookup(MergeInto(m, key, recs), other) == Lookup(m, other) + (if other == key then recs else [])
    ensures |m| <= |MergeInto(m, key, recs)|
    ensures forall k :: 0 <= k < |m| ==> MergeInto(m, key, recs)[k].key == m[k].key
    ensures DistinctKeys(m) ==> DistinctKeys(MergeInto(m, key, recs))
  {
    var r := MergeInto(m, key, recs);
    match IndexOf(m, key)
    case Some(i) =>
      assert r == m[i := HistoryEntry(key, m[i].records + recs)];
      assert IndexOf(r, other) == IndexOf(m, other) by {
        IndexSameKeys(m, r, other);
      }
    case None =>
      assert Lookup(m, key) + recs == recs;
      assert r == m + [HistoryEntry(key, recs)];
      if other == key {
        assert IndexOf(r, other) == Some(|m|) by { IndexAppended(m, HistoryEntry(key, recs)); }
      } else {
        assert IndexOf(r, other) == IndexOf(m, other) by { IndexAppended(m, HistoryEntry(key, recs)); }
      }
  }

  lemma {:induction false} IndexSameKeys(a: seq<HistoryEntry>, b: seq<HistoryEntry>, key: string)
    requires |a| == |b| && forall k :: 0 <= k < |a| ==> a[k].key == b[k].key
    ensures IndexOf(a, key) == IndexOf(b, key)
    decreases |a|
  {
    if a != [] && a[0].key != key {
      IndexSameKeys(a[1..], b[1..], key);
    }
  }

  lemma {:induction false} IndexAppended(a: seq<HistoryEntry>, e: HistoryEntry)
    ensures IndexOf(a + [e], e.key) == (if IndexOf(a, e.key).Some? then IndexOf(a, e.key) else Some(|a|))
    ensures forall key :: key != e.key ==> IndexOf(a + [e], key) == IndexOf(a, key)
    decreases |a|
  {
    if a != [] {
      assert (a + [e])[1..] == a[1..] + [e];
      IndexAppended(a[1..], e);
    }
  }

  /** After merging several entries, each key holds what it held before
      followed by every record `es` brought for it, in order; the keys
      stay distinct. */
  lemma {:induction false} MergeAllLookup(m: seq<HistoryEntry>, es: seq<HistoryEntry>, key: string)
    ensures Lookup(MergeAll(m, es), key) == Lookup(m, key) + Gathered(es, key)
    ensures DistinctKeys(m) ==> DistinctKeys(MergeAll(m, es))
    decreases |es|
  {
    if es != [] {
      var last := es[|es| - 1];
      var init := es[..|es| - 1];
      MergeAllLookup(m, init, key);
      MergeLookup(MergeAll(m, init), last.key, last.records, key);
    }
  }

  /** The `if (containsKey && !isNullOrEmpty) add each else put` step both
      `rename` and `version` run per entry: it merges the records under
      the key. */
  method MergeEntry(m: seq<HistoryEntry>, key: string, recs: seq<RenameRecord>) returns (r: seq<HistoryEntry>)
    ensures r == MergeInto(m, key, recs)
  {
    var i := IndexOf(m, key);
    if i.Some? && m[i.value].records != [] {
      var list := m[i.value].records;
      for k := 0 to |recs|
        invariant list == m[i.value].records + recs[..k]
      {
        list := list + [recs[k]];
      }
      assert recs[..|recs|] == recs;
      r := m[i.value := HistoryEntry(key, list)];
    } else {
      assert Lookup(m, key) + recs == recs;
      r := Put(m, key, recs);
    }
  }

  /** One `String.modify { … }` row: the field and the override its block
      configures. */
  datatype ModifyRow = ModifyRow(fieldName: string, fieldOverride: FieldOverride)

  /** `MilestoneLambdas(transformColVal, processFinalObj)`: the override
      block is the list of rows it runs. `MilestoneLambdas()` has none. */
  datatype MilestoneLambdas = MilestoneLambdas(
    modifications: seq<ModifyRow>,
    processFinalObj: Option<(Entity, Entity) -> Entity>)

  const NoLambdas := MilestoneLambdas([], None)

  /** The overrides the block leaves after running `modify` per row,
      starting from `start`. */
  function OverridesOnto(start: map<string, FieldOverride>, mods: seq<ModifyRow>): map<string, FieldOverride>
    decreases |mods|
  {
    if mods == [] then start
    else
      var last := mods[|mods| - 1];
      OverridesOnto(start, mods[..|mods| - 1])[last.fieldName := last.fieldOverride]
  }

  /** A field gets an override exactly when some row names it, and the
      last such row's override is the one kept. */
  lemma {:induction false} OverridesLastWins(mods: seq<ModifyRow>, n: string)
    ensures n in OverridesOnto(map[], mods) <==> exists k :: 0 <= k < |mods| && mods[k].fieldName == n
    ensures forall k :: (0 <= k < |mods| && mods[k].fieldName == n && (forall j :: k < j < |mods| ==> mods[j].fieldName != n))
                     ==> OverridesOnto(map[], mods)[n] == mods[k].fieldOverride
    decreases |mods|
  {
    if mods != [] {
      var init := mods[..|mods| - 1];
      OverridesLastWins(init, n);
      assert forall k :: 0 <= k < |init| ==> init[k] == mods[k];
    }
  }

  /** The milestone's override block run on a `TransformColDsl`:
      `modifications.forEach { modify(it.fieldName, it.block) }`. */
  method RunOverrides(dsl: TransformColDsl, mods: seq<ModifyRow>)
    modifies dsl
    ensures dsl.overrides == OverridesOnto(old(dsl.overrides), mods)
  {
    for k := 0 to |mods|
      invariant dsl.overrides == OverridesOnto(old(dsl.overrides), mods[..k])
    {
      assert mods[..k + 1][..k] == mods[..k];
      dsl.Modify(mods[k].fieldName, mods[k].fieldOverride);
    }
    assert mods[..|mods|] == mods;
  }

  /** `key from renameFrom`, waiting for its `to`. */
  datatype PartialRename = PartialRename(keyName: string, renameFrom: string)

  /** `RenameBuilder`: the renames one `rename { … }` block declares. */
  class RenameBuilder {
    const version: int
    var records: seq<HistoryEntry>

    constructor(version: int)
      ensures this.version == version && records == []
    {
      this.version := version;
      records := [];
    }

    /** `PartialRename.to(renameTo)`: records the rename at this builder's
        version under the key. */
    method To(p: PartialRename, renameTo: string)
      modifies this
      ensures records == MergeInto(old(records), p.keyName, [RenameRecord(version, p.renameFrom, renameTo)])
    {
      var record := RenameRecord(version, p.renameFrom, renameTo);
      var i := IndexOf(records, p.keyName);
      if i.Some? && records[i.value].records != [] {
        records := records[i.value := HistoryEntry(p.keyName, records[i.value].records + [record])];
      } else {
        assert Lookup(records, p.keyName) + [record] == [record];
        records := Put(records, p.keyName, [record]);
      }
    }
  }

  /** `VersionBuilder`: what one `version(…) { … }` block declares. */
  class VersionBuilder {
    const version: int
    var milestone: Option<MilestoneLambdas>
    var pendingRenames: seq<HistoryEntry>

    constructor(version: int)
      ensures this.version == version && milestone == None && pendingRenames == []
    {
      this.version := version;
      milestone := None;
      pendingRenames := [];
    }

    /** `rename { … }`: the block's records are merged key by key. */
    method Rename(rb: RenameBuilder)
      requires rb.version == version
      modifies this
      ensures pendingRenames == MergeAll(old(pendingRenames), rb.records)
      ensures milestone == old(milestone)
    {
      var es := rb.records;
      for k := 0 to |es|
        invariant pendingRenames == MergeAll(old(pendingRenames), es[..k])
        invariant milestone == old(milestone)
      {
        assert es[..k + 1][..k] == es[..k];
        pendingRenames := MergeEntry(pendingRenames, es[k].key, es[k].records);
      }
      assert es[..|es|] == es;
    }

    /** `milestone(modifications, processFinalObj)`: a later call in the
        same version replaces the earlier one. */
    method Milestone(modifications: seq<ModifyRow>, processFinalObj: Option<(Entity, Entity) -> Entity>)
      modifies this
      ensures milestone == Some(MilestoneLambdas(modifications, processFinalObj))
      ensures pendingRenames == old(pendingRenames)
    {
      milestone := Some(MilestoneLambdas(modifications, processFinalObj));
    }
  }

  /** `MigrationBundle`: what `defineMigrations` hands back. */
  datatype MigrationBundle = MigrationBundle(
    versionedSpecs: map<int, EntityClass>,
    renameHistory: seq<HistoryEntry>,
    milestones: seq<(int, MilestoneLambdas)>)

  /** `MigrationDslInternal`. */
  class MigrationDef {
    var versionedSpecs: map<int, EntityClass>
    var renameHistory: seq<HistoryEntry>
    var milestones: seq<(int, MilestoneLambdas)>

    constructor()
      ensures versionedSpecs == map[] && renameHistory == [] && milestones == []
    {
      versionedSpecs := map[];
      renameHistory := [];
      milestones := [];
    }

    /** `version(version, schemaBundle) { … }`: the class is stored at the
        version, replacing any earlier one; the block's renames are merged
        into the history; its milestone, if it declared one, is appended. */
    method Version(version: int, schema: EntityClass, vb: VersionBuilder)
      requires vb.version == version
      modifies this
      ensures versionedSpecs == old(versionedSpecs)[version := schema]
      ensures renameHistory == MergeAll(old(renameHistory), vb.pendingRenames)
      ensures milestones == old(milestones) + (if vb.milestone.Some? then [(version, vb.milestone.value)] else [])
    {
      versionedSpecs := versionedSpecs[version := schema];
      var es := vb.pendingRenames;
      for k := 0 to |es|
        invariant renameHistory == MergeAll(old(renameHistory), es[..k])
        invariant versionedSpecs == old(versionedSpecs)[version := schema]
        invariant milestones == old(milestones)
      {
        assert es[..k + 1][..k] == es[..k];
        renameHistory := MergeEntry(renameHistory, es[k].key, es[k].records);
      }
      assert es[..|es|] == es;
      if vb.milestone.Some? {
        milestones := milestones + [(version, vb.milestone.value)];
      }
    }
  }

  /** `defineMigrationsInternal`: after the block has run on `d`, the
      latest class is filed under the latest version unless the block
      already filed one there. */
  method DefineMigrations(latestVersion: int, latestSchema: EntityClass, d: MigrationDef) returns (bundle: MigrationBundle)
    modifies d
    ensures latestVersion in old(d.versionedSpecs) ==> bundle.versionedSpecs == old(d.versionedSpecs)
    ensures latestVersion !in old(d.versionedSpecs) ==> bundle.versionedSpecs == old(d.versionedSpecs)[latestVersion := latestSchema]
    ensures bundle.renameHistory == old(d.renameHistory) && bundle.milestones == old(d.milestones)
  {
    if latestVersion !in d.versionedSpecs {
      d.versionedSpecs := d.versionedSpecs[latestVersion := latestSchema];
    }
    bundle := MigrationBundle(d.versionedSpecs, d.renameHistory, d.milestones);
  }

  /** Whatever the block filed, the bundle has a class for the latest
      version, and one the block filed there is kept. */
  lemma LatestAlwaysFiled(specs: map<int, EntityClass>, latestVersion: int, latestSchema: EntityClass)
    ensures var r := if latestVersion in specs then specs else specs[latestVersion := latestSchema];
      latestVersion in r && (latestVersion in specs ==> r[latestVersion] == specs[latestVersion])
      && forall v :: v != latestVersion ==> (v in r <==> v in specs)
  {
  }
}
