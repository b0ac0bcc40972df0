/** `DbManager.kt`: the open database handle and the entity-version table
    kept in step with the entity metadata when the manager starts. The
    SQLite handle is an opaque number; the version table is its rows in
    table order. */
module Manager {
  import opened Wrappers

  /** A row of the entity-version table. */
  datatype VersionRow = VersionRow(name: string, version: int)

  /** `BaseEntityMeta`: the row name an entity is tracked under and its
      current schema version. */
  datatype EntityMeta = EntityMeta(dbRowName: string, currVersion: int)

  /** The names the table holds. */
  function Names(rows: seq<VersionRow>): set<string>
  {
    set k | 0 <= k < |rows| :: rows[k].name
  }

  /** The names the metadata tracks. */
  function MetaNames(metas: seq<EntityMeta>): set<string>
  {
    set k | 0 <= k < |metas| :: metas[k].dbRowName
  }

  /** One row per entity, at its current version, in metadata order. */
  function AllRows(metas: seq<EntityMeta>): (r: seq<VersionRow>)
    ensures |r| == |metas|
    ensures forall k :: 0 <= k < |metas| ==> r[k] == VersionRow(metas[k].dbRowName, metas[k].currVersion)
  {
    seq(|metas|, k requires 0 <= k < |metas| => VersionRow(metas[k].dbRowName, metas[k].currVersion))
  }

  /** The rows left after deleting every row whose name is in `gone`. */
  function Drop(rows: seq<VersionRow>, gone: set<string>): seq<VersionRow>
    decreases |rows|
  {
    if rows == [] then []
    else
      var init := Drop(rows[..|rows| - 1], gone);
      if rows[|rows| - 1].name in gone then init else init + [rows[|rows| - 1]]
  }

  /** `namesToDelete`: the table's names no entity is tracked under, in
      table order. */
  function Unknown(rows: seq<VersionRow>, metas: seq<EntityMeta>): (r: seq<string>)
    ensures forall n :: n in r <==> n in Names(rows) && n !in MetaNames(metas)
    decreases |rows|
  {
    if rows == [] then []
    else
      var init := rows[..|rows| - 1];
      var last := rows[|rows| - 1].name;
      assert Names(rows) == Names(init) + {last} by {
        assert forall k :: 0 <= k < |init| ==> init[k] == rows[k];
      }
      Unknown(init, metas) + (if last in MetaNames(metas) then [] else [last])
  }

  /** The names in a list. */
  function ToSet(names: seq<string>): set<string>
  {
    set n | n in names
  }

  lemma ToSetSnoc(names: seq<string>, x: string)
    ensures ToSet(names + [x]) == ToSet(names) + {x}
    ensures ToSet([]) == {}
  {
  }

  /** Before the first deletion nothing is dropped. */
  lemma DropNone(rows: seq<VersionRow>, names: seq<string>)
    ensures Drop(rows, ToSet(names[..0])) == rows
  {
    assert names[..0] == [];
    ToSetSnoc([], "");
    DropNothing(rows, {});
  }

  /** Deleting the next name drops it on top of the names already deleted. */
  lemma DropNext(rows: seq<VersionRow>, names: seq<string>, k: nat)
    requires k < |names|
    ensures Drop(Drop(rows, ToSet(names[..k])), {names[k]}) == Drop(rows, ToSet(names[..k + 1]))
  {
    assert names[..k + 1] == names[..k] + [names[k]];
    ToSetSnoc(names[..k], names[k]);
    DropTwice(rows, ToSet(names[..k]), names[k]);
  }

  lemma ToSetUnknown(rows: seq<VersionRow>, metas: seq<EntityMeta>)
    ensures ToSet(Unknown(rows, metas)) == Names(rows) - MetaNames(metas)
  {
  }

  /** True when some row has the name: `hasRows { cName equal name }`. */
  predicate HasName(rows: seq<VersionRow>, name: string)
  {
    exists k :: 0 <= k < |rows| && rows[k].name == name
  }

  /** The table after `addMissingEntityMeta` over `metas`: each entity in
      turn gets a row at its current version unless a row with its name is
      already there. */
  function AddMissing(rows: seq<VersionRow>, metas: seq<EntityMeta>): seq<VersionRow>
    decreases |metas|
  {
    if metas == [] then rows
    else
      var before := AddMissing(rows, metas[..|metas| - 1]);
      var m := metas[|metas| - 1];
      if HasName(before, m.dbRowName) then before else before + [VersionRow(m.dbRowName, m.currVersion)]
  }

  /** The table after `handleVersionTable`: a missing or empty table gets
      every entity; otherwise unknown names are deleted and missing ones
      added. */
  function Synced(stored: Option<seq<VersionRow>>, metas: seq<EntityMeta>): seq<VersionRow>
  {
    var rows := stored.GetOr([]);
    if rows == [] then AllRows(metas)
    else AddMissing(Drop(rows, Names(rows) - MetaNames(metas)), metas)
  }

  class DbManager {
    const entityMeta: seq<EntityMeta>
    /** `db`: the open handle, `None` once closed. */
    var db: Option<nat>
    /** Whether the entity-version table exists. */
    var hasVersionTable: bool
    /** The entity-version table's rows. */
    var versionRows: seq<VersionRow>
    /** The stored versions `runOnUpgrade` has been called with. */
    var upgrades: seq<int>

    /** `init`: open the database and bring the version table in step with
        the metadata. The handle and what the file already holds (no table,
        or its rows) are given. */
    constructor(entityMeta: seq<EntityMeta>, handle: nat, stored: Option<seq<VersionRow>>)
      ensures this.entityMeta == entityMeta
      ensures db == Some(handle) && hasVersionTable
      ensures versionRows == Synced(stored, entityMeta)
      ensures upgrades == []
    {
      this.entityMeta := entityMeta;
      db := Some(handle);
      hasVersionTable := stored.Some?;
      versionRows := stored.GetOr([]);
      upgrades := [];
      new;
      HandleVersionTable();
    }

    /** `currDb`: the handle, or the error an access after `closeDb` raises. */
    function CurrDb(): (r: Result<nat>)
      reads this
      ensures r.Success? <==> db.Some?
      ensures r.Success? ==> r.value == db.value
      ensures r.Failure? ==> r.error == "Database not initialized"
    {
      if db.Some? then Success(db.value) else Failure("Database not initialized")
    }

    /** `closeDb`: afterwards every access through `currDb` fails. */
    method CloseDb()
      modifies this
      ensures db == None && CurrDb().Failure?
      ensures hasVersionTable == old(hasVersionTable) && versionRows == old(versionRows) && upgrades == old(upgrades)
    {
      db := None;
    }

    /** `onUpgrade`: nothing happens unless the version grows; otherwise
        `runOnUpgrade` runs with the stored version. */
    method OnUpgrade(oldVersion: int, newVersion: int)
      modifies this
      ensures oldVersion >= newVersion ==> upgrades == old(upgrades)
      ensures oldVersion < newVersion ==> upgrades == old(upgrades) + [oldVersion]
      ensures db == old(db) && hasVersionTable == old(hasVersionTable) && versionRows == old(versionRows)
    {
      if oldVersion >= newVersion {
        return;
      }
      upgrades := upgrades + [oldVersion];
    }

    /** `handleVersionTable`. */
    method HandleVersionTable()
      modifies this
      ensures hasVersionTable
      ensures versionRows == Synced(if old(hasVersionTable) then Some(old(versionRows)) else None, entityMeta)
      ensures db == old(db) && upgrades == old(upgrades)
    {
      EnsureVersionTableExists();
      if versionRows == [] {
        AddAllEntityMeta();
        return;
      }
      CleanupVersionTable();
      AddMissingEntityMeta();
    }

    /** `ensureEnttVerTableExists`: create the table, empty, when missing. */
    method EnsureVersionTableExists()
      modifies this
      ensures hasVersionTable
      ensures versionRows == (if old(hasVersionTable) then old(versionRows) else [])
      ensures db == old(db) && upgrades == old(upgrades)
    {
      if !hasVersionTable {
        hasVersionTable := true;
        versionRows := [];
      }
    }

    /** `addAllEntityMeta`. */
    method AddAllEntityMeta()
      modifies this
      ensures versionRows == old(versionRows) + AllRows(entityMeta)
      ensures db == old(db) && hasVersionTable == old(hasVersionTable) && upgrades == old(upgrades)
    {
      for k := 0 to |entityMeta|
        invariant versionRows == old(versionRows) + AllRows(entityMeta[..k])
        invariant db == old(db) && hasVersionTable == old(hasVersionTable) && upgrades == old(upgrades)
      {
        var meta := entityMeta[k];
        assert AllRows(entityMeta[..k + 1]) == AllRows(entityMeta[..k]) + [VersionRow(meta.dbRowName, meta.currVersion)];
        versionRows := versionRows + [VersionRow(meta.dbRowName, meta.currVersion)];
      }
      assert entityMeta[..|entityMeta|] == entityMeta;
    }

    /** `cleanupVersionTable`: delete, name by name, every row no entity
        is tracked under. */
    method CleanupVersionTable()
      modifies this
      ensures versionRows == Drop(old(versionRows), Names(old(versionRows)) - MetaNames(entityMeta))
      ensures db == old(db) && hasVersionTable == old(hasVersionTable) && upgrades == old(upgrades)
    {
      if versionRows == [] {
        return;
      }
      var namesToDelete := Unknown(versionRows, entityMeta);
      ToSetUnknown(versionRows, entityMeta);
      DeleteRows(namesToDelete);
    }

    /** The deletion loop of `cleanupVersionTable`: one `DELETE` per name. */
    method DeleteRows(names: seq<string>)
      modifies this
      ensures versionRows == Drop(old(versionRows), ToSet(names))
      ensures db == old(db) && hasVersionTable == old(hasVersionTable) && upgrades == old(upgrades)
    {
      ghost var start := versionRows;
      DropNone(start, names);
      for k := 0 to |names|
        invariant versionRows == Drop(start, ToSet(names[..k]))
        invariant db == old(db) && hasVersionTable == old(hasVersionTable) && upgrades == old(upgrades)
      {
        DropNext(start, names, k);
        versionRows := Drop(versionRows, {names[k]});
      }
      assert names[..|names|] == names;
    }

    /** `addMissingEntityMeta`. */
    method AddMissingEntityMeta()
      modifies this
      ensures versionRows == AddMissing(old(versionRows), entityMeta)
      ensures db == old(db) && hasVersionTable == old(hasVersionTable) && upgrades == old(upgrades)
    {
      for k := 0 to |entityMeta|
        invariant versionRows == AddMissing(old(versionRows), entityMeta[..k])
        invariant db == old(db) && hasVersionTable == old(hasVersionTable) && upgrades == old(upgrades)
      {
        var meta := entityMeta[k];
        assert entityMeta[..k + 1][..k] == entityMeta[..k];
        var rowExists := HasName(versionRows, meta.dbRowName);
        if rowExists {
          continue;
        }
        versionRows := versionRows + [VersionRow(meta.dbRowName, meta.currVersion)];
      }
      assert entityMeta[..|entityMeta|] == entityMeta;
    }
  }

  /** Deleting one more name is deleting the larger set. */
  lemma {:induction false} DropTwice(rows: seq<VersionRow>, gone: set<string>, name: string)
    ensures Drop(Drop(rows, gone), {name}) == Drop(rows, gone + {name})
    decreases |rows|
  {
    if rows != [] {
      DropTwice(rows[..|rows| - 1], gone, name);
      var init := Drop(rows[..|rows| - 1], gone);
      var last := rows[|rows| - 1];
      if last.name !in gone {
        DropSnoc(init, last, {name});
      }
    }
  }

  lemma DropSnoc(rows: seq<VersionRow>, x: VersionRow, gone: set<string>)
    ensures Drop(rows + [x], gone) == if x.name in gone then Drop(rows, gone) else Drop(rows, gone) + [x]
  {
    assert (rows + [x])[..|rows|] == rows;
  }

  lemma NamesSnoc(rows: seq<VersionRow>, x: VersionRow)
    ensures Names(rows + [x]) == Names(rows) + {x.name}
  {
    var r := rows + [x];
    assert forall k :: 0 <= k < |rows| ==> r[k] == rows[k];
    assert r[|rows|] == x;
  }

  lemma MetaNamesSnoc(metas: seq<EntityMeta>)
    requires metas != []
    ensures MetaNames(metas) == MetaNames(metas[..|metas| - 1]) + {metas[|metas| - 1].dbRowName}
  {
    var init := metas[..|metas| - 1];
    assert forall k :: 0 <= k < |init| ==> init[k] == metas[k];
  }

  lemma HasNameNames(rows: seq<VersionRow>, name: string)
    ensures HasName(rows, name) <==> name in Names(rows)
  {
    if name in Names(rows) {
      var k :| 0 <= k < |rows| && rows[k].name == name;
    }
  }

  /** Deleting keeps the order and exactly the rows whose name is not in
      `gone`. */
  lemma {:induction false} DropRows(rows: seq<VersionRow>, gone: set<string>)
    ensures Names(Drop(rows, gone)) == Names(rows) - gone
    ensures forall x :: x in Drop(rows, gone) <==> x in rows && x.name !in gone
    decreases |rows|
  {
    if rows != [] {
      var init := rows[..|rows| - 1];
      var last := rows[|rows| - 1];
      DropRows(init, gone);
      NamesSnoc(init, last);
      assert rows == init + [last];
      if last.name !in gone {
        NamesSnoc(Drop(init, gone), last);
      }
    }
  }

  lemma {:induction false} DropNothing(rows: seq<VersionRow>, gone: set<string>)
    requires Names(rows) !! gone
    ensures Drop(rows, gone) == rows
    decreases |rows|
  {
    if rows != [] {
      var init := rows[..|rows| - 1];
      NamesSnoc(init, rows[|rows| - 1]);
      assert rows == init + [rows[|rows| - 1]];
      DropNothing(init, gone);
    }
  }

  /** Adding the missing entities keeps the table as a prefix, adds each
      missing name once, at its entity's current version. */
  lemma {:induction false} AddMissingRows(rows: seq<VersionRow>, metas: seq<EntityMeta>)
    ensures Names(AddMissing(rows, metas)) == Names(rows) + MetaNames(metas)
    ensures |AddMissing(rows, metas)| >= |rows| && AddMissing(rows, metas)[..|rows|] == rows
    ensures forall k :: |rows| <= k < |AddMissing(rows, metas)| ==>
      exists j :: 0 <= j < |metas| && AddMissing(rows, metas)[k] == VersionRow(metas[j].dbRowName, metas[j].currVersion)
    decreases |metas|
  {
    if metas != [] {
      var init := metas[..|metas| - 1];
      var m := metas[|metas| - 1];
      var before := AddMissing(rows, init);
      AddMissingRows(rows, init);
      MetaNamesSnoc(metas);
      HasNameNames(before, m.dbRowName);
      assert forall j :: 0 <= j < |init| ==> init[j] == metas[j];
      if !HasName(before, m.dbRowName) {
        NamesSnoc(before, VersionRow(m.dbRowName, m.currVersion));
        var after := before + [VersionRow(m.dbRowName, m.currVersion)];
        assert after[..|rows|] == before[..|rows|];
        assert after[|before|] == VersionRow(metas[|metas| - 1].dbRowName, metas[|metas| - 1].currVersion);
      }
    }
  }

  lemma {:induction false} AddMissingNothing(rows: seq<VersionRow>, metas: seq<EntityMeta>)
    requires MetaNames(metas) <= Names(rows)
    ensures AddMissing(rows, metas) == rows
    decreases |metas|
  {
    if metas != [] {
      MetaNamesSnoc(metas);
      AddMissingNothing(rows, metas[..|metas| - 1]);
      HasNameNames(rows, metas[|metas| - 1].dbRowName);
    }
  }

  lemma AllRowsNames(metas: seq<EntityMeta>)
    ensures Names(AllRows(metas)) == MetaNames(metas)
  {
    var r := AllRows(metas);
    forall n | n in MetaNames(metas) ensures n in Names(r) {
      var k :| 0 <= k < |metas| && metas[k].dbRowName == n;
      assert r[k].name == n;
    }
  }

  /** After the manager starts, the version table holds exactly the names
      the metadata tracks. */
  lemma SyncedNames(stored: Option<seq<VersionRow>>, metas: seq<EntityMeta>)
    ensures Names(Synced(stored, metas)) == MetaNames(metas)
  {
    var rows := stored.GetOr([]);
    if rows == [] {
      AllRowsNames(metas);
    } else {
      var kept := Drop(rows, Names(rows) - MetaNames(metas));
      DropRows(rows, Names(rows) - MetaNames(metas));
      AddMissingRows(kept, metas);
    }
  }

  /** A stored row whose name is tracked keeps its version; every other
      row of the result is a tracked entity at its current version. */
  lemma SyncedKeepsVersions(stored: seq<VersionRow>, metas: seq<EntityMeta>)
    ensures forall x :: x in stored && x.name in MetaNames(metas) ==> x in Synced(Some(stored), metas)
    ensures forall x :: x in Synced(Some(stored), metas) && x !in stored ==>
      exists j :: 0 <= j < |metas| && x == VersionRow(metas[j].dbRowName, metas[j].currVersion)
  {
    if stored == [] {
    } else {
      var gone := Names(stored) - MetaNames(metas);
      var kept := Drop(stored, gone);
      DropRows(stored, gone);
      AddMissingRows(kept, metas);
      var after := AddMissing(kept, metas);
      forall x | x in stored && x.name in MetaNames(metas) ensures x in after {
        var i :| 0 <= i < |kept| && kept[i] == x;
        assert after[..|kept|][i] == x;
      }
      forall x | x in after && x !in stored
        ensures exists j :: 0 <= j < |metas| && x == VersionRow(metas[j].dbRowName, metas[j].currVersion)
      {
        var i :| 0 <= i < |after| && after[i] == x;
        if i < |kept| {
          assert false;
        }
      }
    }
  }

  /** Starting the manager again on the table it left changes nothing. */
  lemma SyncIdempotent(stored: Option<seq<VersionRow>>, metas: seq<EntityMeta>)
    ensures Synced(Some(Synced(stored, metas)), metas) == Synced(stored, metas)
  {
    var s := Synced(stored, metas);
    SyncedNames(stored, metas);
    if s != [] {
      DropNothing(s, Names(s) - MetaNames(metas));
      AddMissingNothing(s, metas);
    }
  }
}
