/** `DbMigration.kt`: the single-step ("lite") migration of whole tables
    from one entity class to another, the rename lookup it uses, the
    defaults it falls back to, and `mapIdenticals`. */
module DbMigration {
  import opened Wrappers
  import opened Values
  import opened Entities

  lemma MaxExists(s: set<int>)
    requires s != {}
    ensures exists m :: m in s && forall x :: x in s ==> x <= m
    decreases s
  {
    var x := Pick(s);
    if s != {x} {
      var rest := s - {x};
      MaxExists(rest);
      var m :| m in rest && forall y :: y in rest ==> y <= m;
      var top := if x > m then x else m;
      forall y | y in s ensures y <= top {
        if y != x {
          assert y in rest;
        }
      }
    }
  }

  /** Some element of a non-empty set. */
  lemma Pick(s: set<int>) returns (x: int)
    requires s != {}
    ensures x in s
  {
    if forall y :: y !in s {
      assert false;
    }
    x :| x in s;
  }

  /** The greatest element of a non-empty finite set of versions. */
  function MaxOf(s: set<int>): (m: int)
    requires s != {}
    ensures m in s && forall x :: x in s ==> x <= m
  {
    MaxExists(s);
    var m :| m in s && forall x :: x in s ==> x <= m;
    m
  }

  /** `findOldName(newName, version, renameMap)`: the name recorded at the
      greatest version not above `version`; `null` when the field has no
      entry or every entry is later. */
  function FindOldName(newName: string, version: int, renameMap: map<string, map<int, string>>): (r: Option<string>)
    ensures newName !in renameMap ==> r.None?
    ensures newName in renameMap ==>
      (r.Some? <==> exists v :: v in renameMap[newName] && v <= version)
    ensures r.Some? ==> exists v :: v in renameMap[newName] && v <= version && renameMap[newName][v] == r.value &&
                          forall w :: w in renameMap[newName] && w <= version ==> w <= v
  {
    if newName !in renameMap then None
    else
      var versions := renameMap[newName];
      var candidates := set v | v in versions && v <= version;
      if candidates == {} then
        assert forall v :: v in versions && v <= version ==> v in candidates;
        None
      else
        var m := MaxOf(candidates);
        assert forall w :: w in versions && w <= version ==> w in candidates;
        Some(versions[m])
  }

  /** `defaultValueForParam(param)`: the zero of each primitive type,
      `null` for any other type. */
  function DefaultValueForParam(k: Kind): (r: Option<Value>)
    ensures r.Some? <==> IsDbPrimitive(k)
    ensures r.Some? ==> HasKind(r.value, k)
  {
    match k
    case IntK => Some(IntV(0))
    case LongK => Some(LongV(0))
    case BoolK => Some(BoolV(false))
    case StringK => Some(StrV(""))
    case DoubleK => Some(DoubleV("0.0"))
    case FloatK => Some(FloatV("0.0"))
    case _ => None
  }

  /** The argument `convertEntity` gives one parameter: the source field,
      looked up under its old name when one is recorded, if its declared
      type is the parameter's; the parameter type's default otherwise. */
  function LiteArg(prev: Entity, p: Param, oldVersion: int, renameMap: map<string, map<int, string>>): Option<Value>
  {
    var fromName := FindOldName(p.name, oldVersion, renameMap).GetOr(p.name);
    if fromName in prev && prev[fromName].kind == p.kind then prev[fromName].value
    else DefaultValueForParam(p.kind)
  }

  /** `constructor.parameters.associateWith { … }`: every parameter gets an
      argument, `null` included. */
  function LiteArgs(prev: Entity, params: seq<Param>, oldVersion: int, renameMap: map<string, map<int, string>>): (r: map<string, Option<Value>>)
    ensures forall k :: 0 <= k < |params| ==> params[k].name in r
    decreases |params|
  {
    if params == [] then map[]
    else
      var p := params[|params| - 1];
      LiteArgs(prev, params[..|params| - 1], oldVersion, renameMap)[p.name := LiteArg(prev, p, oldVersion, renameMap)]
  }

  /** `convertEntity(oldObject, newClass, oldVersion, renameMap)`. */
  function ConvertEntityLite(prev: Entity, cls: EntityClass, oldVersion: int, renameMap: map<string, map<int, string>>): Entity
  {
    Construct(cls.params, LiteArgs(prev, cls.params, oldVersion, renameMap))
  }

  lemma {:induction false} LiteArgsAt(prev: Entity, params: seq<Param>, oldVersion: int, renameMap: map<string, map<int, string>>, k: nat)
    requires DistinctNames(params) && k < |params|
    ensures LiteArgs(prev, params, oldVersion, renameMap)[params[k].name] == LiteArg(prev, params[k], oldVersion, renameMap)
    decreases |params|
  {
    var init := params[..|params| - 1];
    if k < |params| - 1 {
      LiteArgsAt(prev, init, oldVersion, renameMap, k);
      assert init[k] == params[k];
    }
  }

  /** Every field of the converted entity is the same-typed source field,
      read under its recorded old name or else its own name, or else the
      type's default; the parameter's own default is never used. */
  lemma ConvertLiteField(prev: Entity, cls: EntityClass, oldVersion: int, renameMap: map<string, map<int, string>>, k: nat)
    requires DistinctNames(cls.params) && k < |cls.params|
    ensures var p := cls.params[k];
      var fromName := if FindOldName(p.name, oldVersion, renameMap).Some? then FindOldName(p.name, oldVersion, renameMap).value else p.name;
      ConvertEntityLite(prev, cls, oldVersion, renameMap)[p.name] ==
        Prop(p.kind, if fromName in prev && prev[fromName].kind == p.kind then prev[fromName].value else DefaultValueForParam(p.kind))
  {
    ConstructAt(cls.params, LiteArgs(prev, cls.params, oldVersion, renameMap), k);
    LiteArgsAt(prev, cls.params, oldVersion, renameMap, k);
  }

  /** A field the old entity cannot supply (no field of the parameter's
      type under the looked-up name) is never left to the parameter's own
      default: a primitive parameter gets a non-null value of its type, any
      other parameter an explicit `null`. */
  lemma LiteFillsMissingField(prev: Entity, cls: EntityClass, oldVersion: int, renameMap: map<string, map<int, string>>, k: nat)
    requires DistinctNames(cls.params) && k < |cls.params|
    ensures var p := cls.params[k];
      var fromName := FindOldName(p.name, oldVersion, renameMap).GetOr(p.name);
      var field := ConvertEntityLite(prev, cls, oldVersion, renameMap)[p.name];
      !(fromName in prev && prev[fromName].kind == p.kind) ==>
        field.kind == p.kind
        && (field.value.Some? <==> IsDbPrimitive(p.kind))
        && (field.value.Some? ==> HasKind(field.value.value, p.kind))
  {
    ConvertLiteField(prev, cls, oldVersion, renameMap, k);
  }

  /** Converting an entity to its own class with no renames changes
      nothing. */
  lemma ConvertLiteSameClass(cls: EntityClass, vals: map<string, Option<Value>>, oldVersion: int)
    requires DistinctNames(cls.params)
    ensures ConvertEntityLite(Construct(cls.params, vals), cls, oldVersion, map[]) == Construct(cls.params, vals)
  {
    var e := Construct(cls.params, vals);
    var r := ConvertEntityLite(e, cls, oldVersion, map[]);
    forall n | n in e ensures n in r && r[n] == e[n] {
      var k :| 0 <= k < |cls.params| && cls.params[k].name == n;
      ConvertLiteField(e, cls, oldVersion, map[], k);
      ConstructAt(cls.params, vals, k);
    }
  }

  /** `readAsMigrated`: every row read, converted, in cursor order. */
  function ReadAsMigrated(rows: seq<Entity>, cls: EntityClass, oldVersion: int, renameMap: map<string, map<int, string>>): (r: seq<Entity>)
    ensures |r| == |rows|
    ensures forall k :: 0 <= k < |rows| ==> r[k] == ConvertEntityLite(rows[k], cls, oldVersion, renameMap)
  {
    seq(|rows|, k requires 0 <= k < |rows| => ConvertEntityLite(rows[k], cls, oldVersion, renameMap))
  }

  /** The tables of a database, each holding its rows as entities. Reading
      a table that does not exist fails. */
  class TableStore {
    var tables: map<string, seq<Entity>>

    constructor(tables: map<string, seq<Entity>>)
      ensures this.tables == tables
    {
      this.tables := tables;
    }
  }

  /** The state `migrateLite` leaves, and whether it got through every
      table: each table in turn is read and converted, dropped, created
      again and refilled; a missing table stops it. */
  function LiteRun(tables: map<string, seq<Entity>>, names: seq<string>, cls: EntityClass, oldVersion: int,
                   renameMap: map<string, map<int, string>>): (map<string, seq<Entity>>, bool)
    decreases |names|
  {
    if names == [] then (tables, true)
    else if names[0] !in tables then (tables, false)
    else LiteRun(tables[names[0] := ReadAsMigrated(tables[names[0]], cls, oldVersion, renameMap)], names[1..], cls, oldVersion, renameMap)
  }

  /** The table is dropped, created empty and refilled with `rows`, one
      insert at a time. */
  method RecreateTable(store: TableStore, tableName: string, rows: seq<Entity>)
    modifies store
    ensures store.tables == old(store.tables)[tableName := rows]
  {
    store.tables := store.tables - {tableName};
    store.tables := store.tables[tableName := []];
    assert store.tables == old(store.tables)[tableName := rows[..0]];
    for k := 0 to |rows|
      invariant store.tables == old(store.tables)[tableName := rows[..k]]
    {
      assert rows[..k + 1] == rows[..k] + [rows[k]];
      store.tables := store.tables[tableName := store.tables[tableName] + [rows[k]]];
    }
    assert rows[..|rows|] == rows;
  }

  /** `migrateLite(oldClass, newClass, oldVersion, renameMap, tableNames)`. */
  method MigrateLite(store: TableStore, cls: EntityClass, oldVersion: int, renameMap: map<string, map<int, string>>, tableNames: seq<string>)
    returns (completed: bool)
    modifies store
    ensures (store.tables, completed) == LiteRun(old(store.tables), tableNames, cls, oldVersion, renameMap)
  {
    for i := 0 to |tableNames|
      invariant LiteRun(store.tables, tableNames[i..], cls, oldVersion, renameMap)
             == LiteRun(old(store.tables), tableNames, cls, oldVersion, renameMap)
    {
      var tableName := tableNames[i];
      assert tableNames[i..][1..] == tableNames[i + 1..];
      if tableName !in store.tables {
        return false;
      }
      var newList := ReadAsMigrated(store.tables[tableName], cls, oldVersion, renameMap);
      RecreateTable(store, tableName, newList);
    }
    assert tableNames[|tableNames|..] == [];
    completed := true;
  }

  /** With distinct table names that all exist, `migrateLite` completes,
      converts every row of each named table in place of the old ones and
      leaves every other table as it was. */
  lemma {:induction false} LiteRunTables(tables: map<string, seq<Entity>>, names: seq<string>, cls: EntityClass, oldVersion: int,
                                         renameMap: map<string, map<int, string>>)
    requires forall i, j :: 0 <= i < j < |names| ==> names[i] != names[j]
    requires forall i :: 0 <= i < |names| ==> names[i] in tables
    ensures var (after, completed) := LiteRun(tables, names, cls, oldVersion, renameMap);
      && completed
      && after.Keys == tables.Keys
      && (forall t :: t in tables && t !in names ==> after[t] == tables[t])
      && (forall t :: t in names ==> after[t] == ReadAsMigrated(tables[t], cls, oldVersion, renameMap))
    decreases |names|
  {
    if names != [] {
      var t0 := names[0];
      var next := tables[t0 := ReadAsMigrated(tables[t0], cls, oldVersion, renameMap)];
      assert forall i :: 0 <= i < |names| - 1 ==> names[1..][i] == names[i + 1];
      LiteRunTables(next, names[1..], cls, oldVersion, renameMap);
      assert t0 !in names[1..];
      forall t | t in names ensures t == t0 || t in names[1..] {
        var i :| 0 <= i < |names| && names[i] == t;
        if i > 0 { assert names[1..][i - 1] == t; }
      }
    }
  }

  /** A table missing from the database stops the migration, after the
      tables named before it. */
  lemma LiteRunMissing(tables: map<string, seq<Entity>>, names: seq<string>, cls: EntityClass, oldVersion: int,
                       renameMap: map<string, map<int, string>>)
    requires exists i :: 0 <= i < |names| && names[i] !in tables && forall j :: 0 <= j < i ==> names[j] in tables
    ensures !LiteRun(tables, names, cls, oldVersion, renameMap).1
    decreases |names|
  {
    var i :| 0 <= i < |names| && names[i] !in tables && forall j :: 0 <= j < i ==> names[j] in tables;
    if i > 0 {
      var next := tables[names[0] := ReadAsMigrated(tables[names[0]], cls, oldVersion, renameMap)];
      assert names[1..][i - 1] == names[i];
      assert forall j :: 0 <= j < i - 1 ==> names[1..][j] == names[j + 1] && names[j + 1] in next;
      LiteRunMissing(next, names[1..], cls, oldVersion, renameMap);
    }
  }

  /** The argument `mapIdenticals` gives one parameter: the field of the
      same name when its class (type arguments ignored) matches and its
      value is not `null`; none otherwise. */
  function IdenticalArg(from: Entity, p: Param): Option<Value>
  {
    if p.name in from && Classifier(p.kind) == Classifier(from[p.name].kind) then from[p.name].value else None
  }

  /** `associateWith { … }.filterValues { it != null }`. */
  function IdenticalArgs(from: Entity, params: seq<Param>): (r: map<string, Option<Value>>)
    ensures forall n :: n in r ==> r[n].Some?
    decreases |params|
  {
    if params == [] then map[]
    else
      var p := params[|params| - 1];
      var init := IdenticalArgs(from, params[..|params| - 1]);
      if IdenticalArg(from, p).Some? then init[p.name := IdenticalArg(from, p)] else init
  }

  lemma {:induction false} IdenticalArgsAt(from: Entity, params: seq<Param>, k: nat)
    requires DistinctNames(params) && k < |params|
    ensures var r := IdenticalArgs(from, params);
      (params[k].name in r <==> IdenticalArg(from, params[k]).Some?)
      && (params[k].name in r ==> r[params[k].name] == IdenticalArg(from, params[k]))
    decreases |params|
  {
    var init := params[..|params| - 1];
    if k < |params| - 1 {
      IdenticalArgsAt(from, init, k);
      assert init[k] == params[k];
    } else {
      IdenticalArgsNames(from, init);
      assert forall j :: 0 <= j < |init| ==> init[j].name != params[k].name;
    }
  }

  lemma {:induction false} IdenticalArgsNames(from: Entity, params: seq<Param>)
    ensures forall n :: n in IdenticalArgs(from, params) ==> exists k :: 0 <= k < |params| && params[k].name == n
    decreases |params|
  {
    if params != [] {
      var init := params[..|params| - 1];
      IdenticalArgsNames(from, init);
      assert forall k :: 0 <= k < |init| ==> init[k] == params[k];
    }
  }

  /** `mapIdenticals(overrides)`: build the target from the identical
      fields, then hand the instance and the source to `overrides`. */
  function MapIdenticals(from: Entity, cls: EntityClass, overrides: (Entity, Entity) -> Entity): Entity
  {
    overrides(Construct(cls.params, IdenticalArgs(from, cls.params)), from)
  }

  /** A field is copied exactly when the source has a non-null field of
      the same name and class; every other field takes its parameter's
      default. */
  lemma MapIdenticalsField(from: Entity, cls: EntityClass, k: nat)
    requires DistinctNames(cls.params) && k < |cls.params|
    ensures var p := cls.params[k];
      var copied := p.name in from && Classifier(p.kind) == Classifier(from[p.name].kind) && from[p.name].value.Some?;
      MapIdenticals(from, cls, (instance, _) => instance)[p.name] ==
        Prop(p.kind, if copied then from[p.name].value else p.default)
  {
    ConstructAt(cls.params, IdenticalArgs(from, cls.params), k);
    IdenticalArgsAt(from, cls.params, k);
  }

  /** With the default `overrides`, mapping an entity built from non-null
      arguments onto its own class gives it back. */
  lemma MapIdenticalsSameClass(cls: EntityClass, vals: map<string, Option<Value>>)
    requires DistinctNames(cls.params)
    requires forall n :: n in vals ==> vals[n].Some?
    ensures MapIdenticals(Construct(cls.params, vals), cls, (instance, _) => instance) == Construct(cls.params, vals)
  {
    var e := Construct(cls.params, vals);
    var r := MapIdenticals(e, cls, (instance, _) => instance);
    forall n | n in e ensures n in r && r[n] == e[n] {
      var k :| 0 <= k < |cls.params| && cls.params[k].name == n;
      MapIdenticalsField(e, cls, k);
      ConstructAt(cls.params, vals, k);
    }
  }
}
