/** `Migration.kt`: which versions a multi-step migration passes through,
    which name a field had at a version, the rename snapshot between two
    versions, primitive value conversion and the conversion of one entity
    through every step. Reading and writing the table is not modelled:
    the rows read are a parameter and the migrated rows the result. */
module Migration {
  import opened Wrappers
  import opened Text
  import opened Values
  import opened Entities
  import opened TransformCol
  import opened MigrationDsl

  // ---------------------------------------------------------------------
  // Choosing the steps

  /** `milestones.filter { (v, _) -> v > oldVersion && v <= newVersion }`. */
  function Relevant(milestones: seq<(int, MilestoneLambdas)>, oldVersion: int, newVersion: int): (r: seq<(int, MilestoneLambdas)>)
    ensures |r| <= |milestones|
    ensures forall k :: 0 <= k < |r| ==> oldVersion < r[k].0 <= newVersion
    ensures forall k :: 0 <= k < |milestones| && oldVersion < milestones[k].0 <= newVersion ==> milestones[k] in r
    decreases |milestones|
  {
    if milestones == [] then []
    else
      var init := Relevant(milestones[..|milestones| - 1], oldVersion, newVersion);
      var last := milestones[|milestones| - 1];
      assert forall k :: 0 <= k < |milestones| - 1 ==> milestones[..|milestones| - 1][k] == milestones[k];
      if oldVersion < last.0 <= newVersion then init + [last] else init
  }

  predicate HasStep(plan: seq<(int, MilestoneLambdas)>, v: int)
  {
    exists k :: 0 <= k < |plan| && plan[k].0 == v
  }

  /** `relevantMilestones`: `None` when there is nothing to migrate
      (`newVersion <= oldVersion`); otherwise the relevant milestones in
      declaration order, with `newVersion` and no lambdas appended when no
      milestone is declared there. */
  function MigrationPlan(milestones: seq<(int, MilestoneLambdas)>, oldVersion: int, newVersion: int): Option<seq<(int, MilestoneLambdas)>>
  {
    if newVersion <= oldVersion then None
    else
      var rel := Relevant(milestones, oldVersion, newVersion);
      Some(if HasStep(rel, newVersion) then rel else rel + [(newVersion, NoLambdas)])
  }

  /** `steps = relevantMilestones.map { it.first }`. */
  function Steps(plan: seq<(int, MilestoneLambdas)>): (r: seq<int>)
    ensures |r| == |plan| && forall k :: 0 <= k < |plan| ==> r[k] == plan[k].0
  {
    seq(|plan|, k requires 0 <= k < |plan| => plan[k].0)
  }

  /** `relevantMilestones.toMap()`: a later pair for the same version wins. */
  function LambdasOf(plan: seq<(int, MilestoneLambdas)>): map<int, MilestoneLambdas>
    decreases |plan|
  {
    if plan == [] then map[]
    else
      var last := plan[|plan| - 1];
      LambdasOf(plan[..|plan| - 1])[last.0 := last.1]
  }

  /** No migration when the version does not grow; otherwise every step
      lies above the stored version and at most at the new one, the new
      version is always a step, and it is the last step unless a milestone
      is declared for it; every declared milestone in range is a step. */
  lemma PlanSteps(milestones: seq<(int, MilestoneLambdas)>, oldVersion: int, newVersion: int)
    ensures MigrationPlan(milestones, oldVersion, newVersion).None? <==> newVersion <= oldVersion
    ensures MigrationPlan(milestones, oldVersion, newVersion).Some? ==>
      var steps := Steps(MigrationPlan(milestones, oldVersion, newVersion).value);
      && (forall k :: 0 <= k < |steps| ==> oldVersion < steps[k] <= newVersion)
      && newVersion in steps
      && (!(exists k :: 0 <= k < |milestones| && milestones[k].0 == newVersion) ==> steps[|steps| - 1] == newVersion)
      && (forall k :: 0 <= k < |milestones| && oldVersion < milestones[k].0 <= newVersion ==> milestones[k].0 in steps)
  {
    if newVersion > oldVersion {
      var rel := Relevant(milestones, oldVersion, newVersion);
      var plan := MigrationPlan(milestones, oldVersion, newVersion).value;
      var steps := Steps(plan);
      if HasStep(rel, newVersion) {
        var j :| 0 <= j < |rel| && rel[j].0 == newVersion;
        assert steps[j] == newVersion;
        if !(exists k :: 0 <= k < |milestones| && milestones[k].0 == newVersion) {
          assert rel[j] in milestones by {
            RelevantFrom(milestones, oldVersion, newVersion, j);
          }
        }
      } else {
        assert steps[|steps| - 1] == newVersion;
      }
      forall k | 0 <= k < |milestones| && oldVersion < milestones[k].0 <= newVersion
        ensures milestones[k].0 in steps
      {
        var i :| 0 <= i < |rel| && rel[i] == milestones[k];
        assert steps[i] == milestones[k].0;
      }
    }
  }

  lemma {:induction false} RelevantFrom(milestones: seq<(int, MilestoneLambdas)>, oldVersion: int, newVersion: int, j: nat)
    requires j < |Relevant(milestones, oldVersion, newVersion)|
    ensures Relevant(milestones, oldVersion, newVersion)[j] in milestones
    decreases |milestones|
  {
    var init := milestones[..|milestones| - 1];
    var rel := Relevant(init, oldVersion, newVersion);
    if j < |rel| {
      RelevantFrom(init, oldVersion, newVersion, j);
      assert rel[j] in init;
    }
  }

  // ---------------------------------------------------------------------
  // The name of a field at a version

  /** Stable `sortedByDescending { it.version }`, by insertion. */
  function SortDesc(s: seq<RenameRecord>): (r: seq<RenameRecord>)
    ensures |r| == |s|
    decreases |s|
  {
    if s == [] then [] else InsertDesc(s[0], SortDesc(s[1..]))
  }

  /** `x` goes before the first record whose version is not above its own,
      so equal versions keep their order. */
  function InsertDesc(x: RenameRecord, t: seq<RenameRecord>): (r: seq<RenameRecord>)
    ensures |r| == |t| + 1
    decreases |t|
  {
    if t == [] || t[0].version <= x.version then [x] + t else [t[0]] + InsertDesc(x, t[1..])
  }

  /** Each record's version is at least the next one's. */
  predicate Descending(s: seq<RenameRecord>)
  {
    forall k :: 0 <= k < |s| - 1 ==> s[k].version >= s[k + 1].version
  }

  lemma {:induction false} InsertDescMultiset(x: RenameRecord, t: seq<RenameRecord>)
    ensures multiset(InsertDesc(x, t)) == multiset(t) + multiset{x}
    decreases |t|
  {
    if t != [] && t[0].version > x.version {
      InsertDescMultiset(x, t[1..]);
      assert t == [t[0]] + t[1..];
    }
  }

  lemma {:induction false} InsertDescSorted(x: RenameRecord, t: seq<RenameRecord>)
    requires Descending(t)
    ensures Descending(InsertDesc(x, t))
    ensures InsertDesc(x, t)[0] == x || InsertDesc(x, t)[0] == t[0]
    decreases |t|
  {
    if t != [] && t[0].version > x.version {
      var tail := t[1..];
      InsertDescSorted(x, tail);
      var rest := InsertDesc(x, tail);
      assert t[0].version >= rest[0].version;
      var r := [t[0]] + rest;
      assert forall k :: 1 <= k < |r| ==> r[k] == rest[k - 1];
    } else if t != [] {
      var r := [x] + t;
      assert forall k :: 1 <= k < |r| ==> r[k] == t[k - 1];
    }
  }

  /** Sorting gives a descending permutation of the records. */
  lemma {:induction false} SortDescOk(s: seq<RenameRecord>)
    ensures Descending(SortDesc(s))
    ensures multiset(SortDesc(s)) == multiset(s)
    decreases |s|
  {
    if s != [] {
      SortDescOk(s[1..]);
      InsertDescSorted(s[0], SortDesc(s[1..]));
      InsertDescMultiset(s[0], SortDesc(s[1..]));
      assert s == [s[0]] + s[1..];
    }
  }

  /** The loop: walk down the sorted records until one is at or below
      `version`, turning the current name back each time a record renamed
      to it. */
  function Walk(sorted: seq<RenameRecord>, version: int, current: string): string
    decreases |sorted|
  {
    if sorted == [] || sorted[0].version <= version then current
    else Walk(sorted[1..], version, if sorted[0].to == current then sorted[0].from else current)
  }

  /** `getNameAtVersion(colHistory, version)`: `null` for an empty history,
      otherwise the latest record's `to` walked back. */
  function NameAt(history: seq<RenameRecord>, version: int): (r: Option<string>)
    ensures r.None? <==> history == []
  {
    if history == [] then None
    else Some(Walk(SortDesc(history), version, history[|history| - 1].to))
  }

  method GetNameAtVersion(history: seq<RenameRecord>, version: int) returns (r: Option<string>)
    ensures r == NameAt(history, version)
  {
    if history == [] {
      return None;
    }
    var current := history[|history| - 1].to;
    var sorted := SortDesc(history);
    var i := 0;
    while i < |sorted|
      invariant 0 <= i <= |sorted|
      invariant Walk(sorted[i..], version, current) == Walk(sorted, version, history[|history| - 1].to)
    {
      assert sorted[i..][1..] == sorted[i + 1..];
      if sorted[i].version <= version {
        break;
      }
      if sorted[i].to == current {
        current := sorted[i].from;
      }
      i := i + 1;
    }
    r := Some(current);
  }

  /** At or after every recorded version a field has its latest name. */
  lemma NameAtLatest(history: seq<RenameRecord>, version: int)
    requires history != []
    requires forall k :: 0 <= k < |history| ==> history[k].version <= version
    ensures NameAt(history, version) == Some(history[|history| - 1].to)
  {
    var sorted := SortDesc(history);
    SortDescOk(history);
    if sorted != [] {
      assert sorted[0] in multiset(history);
    }
  }

  /** A history as renames happen: versions strictly increase and each
      rename starts from the name the previous one gave. */
  predicate Chain(history: seq<RenameRecord>)
  {
    forall k :: 0 <= k < |history| - 1 ==>
      history[k].version < history[k + 1].version && history[k + 1].from == history[k].to
  }

  /** The first record above `version`, if any. */
  function FirstAbove(history: seq<RenameRecord>, version: int): (r: Option<nat>)
    ensures r.Some? ==> r.value < |history| && history[r.value].version > version
    ensures r.Some? ==> forall k :: 0 <= k < r.value ==> history[k].version <= version
    ensures r.None? ==> forall k :: 0 <= k < |history| ==> history[k].version <= version
    decreases |history|
  {
    if history == [] then None
    else
      var n := |history|;
      match FirstAbove(history[..n - 1], version)
      case Some(j) => Some(j)
      case None => if history[n - 1].version > version then Some(n - 1) else None
  }

  /** The name a field had at `version`, read straight off a chain: the
      `from` of the first rename after `version`, or the latest name when
      none came after. */
  function ChainName(history: seq<RenameRecord>, version: int): string
    requires history != []
  {
    match FirstAbove(history, version)
    case Some(j) => history[j].from
    case None => history[|history| - 1].to
  }

  function Reverse(s: seq<RenameRecord>): (r: seq<RenameRecord>)
    ensures |r| == |s|
    decreases |s|
  {
    if s == [] then [] else [s[|s| - 1]] + Reverse(s[..|s| - 1])
  }

  lemma {:induction false} SortIncreasing(s: seq<RenameRecord>)
    requires forall k :: 0 <= k < |s| - 1 ==> s[k].version < s[k + 1].version
    ensures SortDesc(s) == Reverse(s)
    decreases |s|
  {
    if s != [] {
      var t := s[1..];
      SortIncreasing(t);
      assert forall k :: 0 <= k < |t| ==> t[k].version > s[0].version by {
        forall k | 0 <= k < |t| ensures t[k].version > s[0].version {
          AboveFirst(s, k + 1);
        }
      }
      ReverseElems(t);
      InsertLast(s[0], Reverse(t));
      ReverseCons(s);
    }
  }

  lemma {:induction false} AboveFirst(s: seq<RenameRecord>, k: nat)
    requires forall i :: 0 <= i < |s| - 1 ==> s[i].version < s[i + 1].version
    requires 0 < k < |s|
    ensures s[k].version > s[0].version
    decreases k
  {
    if k > 1 {
      AboveFirst(s, k - 1);
    }
  }

  lemma {:induction false} InsertLast(x: RenameRecord, t: seq<RenameRecord>)
    requires forall k :: 0 <= k < |t| ==> t[k].version > x.version
    ensures InsertDesc(x, t) == t + [x]
    decreases |t|
  {
    if t != [] {
      InsertLast(x, t[1..]);
      assert t == [t[0]] + t[1..];
    }
  }

  lemma {:induction false} ReverseElems(s: seq<RenameRecord>)
    ensures forall k :: 0 <= k < |s| ==> Reverse(s)[k] == s[|s| - 1 - k]
    decreases |s|
  {
    if s != [] {
      ReverseElems(s[..|s| - 1]);
    }
  }

  lemma ReverseCons(s: seq<RenameRecord>)
    requires s != []
    ensures Reverse(s[1..]) + [s[0]] == Reverse(s)
  {
    ReverseElems(s);
    ReverseElems(s[1..]);
  }

  /** On a chain, walking back the sorted history lands on the name read
      straight off the chain. */
  lemma NameAtChain(history: seq<RenameRecord>, version: int)
    requires history != [] && Chain(history)
    ensures NameAt(history, version) == Some(ChainName(history, version))
  {
    SortIncreasing(history);
    WalkChain(history, version);
  }

  lemma {:induction false} WalkChain(h: seq<RenameRecord>, version: int)
    requires h != [] && Chain(h)
    ensures Walk(Reverse(h), version, h[|h| - 1].to) == ChainName(h, version)
    decreases |h|, 1
  {
    var n := |h|;
    var init := h[..n - 1];
    assert Reverse(h)[0] == h[n - 1] && Reverse(h)[1..] == Reverse(init);
    if h[n - 1].version > version {
      assert Walk(Reverse(h), version, h[n - 1].to) == Walk(Reverse(init), version, h[n - 1].from);
      if n > 1 {
        WalkChainAbove(h, version);
      }
    } else {
      forall k | 0 <= k < n ensures h[k].version <= version {
        if k < n - 1 { ChainBelow(h, k); }
      }
    }
  }

  /** The last record lies above `version`: the walk steps to its `from`,
      which is the `to` of the record before it. */
  lemma {:induction false} WalkChainAbove(h: seq<RenameRecord>, version: int)
    requires |h| > 1 && Chain(h) && h[|h| - 1].version > version
    ensures Walk(Reverse(h[..|h| - 1]), version, h[|h| - 1].from) == ChainName(h, version)
    decreases |h|, 0
  {
    var n := |h|;
    var init := h[..n - 1];
    assert Chain(init);
    assert init[|init| - 1] == h[n - 2] && h[n - 1].from == h[n - 2].to;
    WalkChain(init, version);
    assert FirstAbove(h, version) == (match FirstAbove(init, version) case Some(j) => Some(j) case None => Some(n - 1));
  }

  lemma {:induction false} ChainBelow(h: seq<RenameRecord>, k: nat)
    requires Chain(h) && k < |h| - 1
    ensures h[k].version < h[|h| - 1].version
    decreases |h| - k
  {
    if k < |h| - 2 {
      ChainBelow(h, k + 1);
    }
  }

  // ---------------------------------------------------------------------
  // The rename snapshot between two versions

  /** `getRenameSnapshot(fromVer, toVer, renameHistory)`: for each history,
      in map order, its name at `toVer` maps to its name at `fromVer` when
      both exist and differ; a later history overwrites an earlier one. */
  function Snapshot(fromVer: int, toVer: int, history: seq<HistoryEntry>): map<string, string>
    decreases |history|
  {
    if history == [] then map[]
    else
      var s := Snapshot(fromVer, toVer, history[..|history| - 1]);
      var recs := history[|history| - 1].records;
      var oldName := NameAt(recs, fromVer);
      var targetName := NameAt(recs, toVer);
      if oldName.Some? && targetName.Some? && oldName.value != targetName.value
      then s[targetName.value := oldName.value]
      else s
  }

  method GetRenameSnapshot(fromVer: int, toVer: int, history: seq<HistoryEntry>) returns (snapshot: map<string, string>)
    ensures snapshot == Snapshot(fromVer, toVer, history)
  {
    snapshot := map[];
    for k := 0 to |history|
      invariant snapshot == Snapshot(fromVer, toVer, history[..k])
    {
      assert history[..k + 1][..k] == history[..k];
      var oldName := GetNameAtVersion(history[k].records, fromVer);
      var targetName := GetNameAtVersion(history[k].records, toVer);
      if oldName.Some? && targetName.Some? && oldName.value != targetName.value {
        snapshot := snapshot[targetName.value := oldName.value];
      }
    }
    assert history[..|history|] == history;
  }

  /** Every pair in the snapshot comes from one history whose name at
      `toVer` is the key and whose name at `fromVer` is the value, and the
      two differ; every history with two differing names has its target
      name in the snapshot. */
  lemma {:induction false} SnapshotPairs(fromVer: int, toVer: int, history: seq<HistoryEntry>)
    ensures forall t :: t in Snapshot(fromVer, toVer, history) ==>
      t != Snapshot(fromVer, toVer, history)[t] &&
      exists k :: 0 <= k < |history| && NameAt(history[k].records, toVer) == Some(t)
        && NameAt(history[k].records, fromVer) == Some(Snapshot(fromVer, toVer, history)[t])
    ensures forall k :: 0 <= k < |history| ==>
      var o := NameAt(history[k].records, fromVer);
      var t := NameAt(history[k].records, toVer);
      o.Some? && t.Some? && o.value != t.value ==> t.value in Snapshot(fromVer, toVer, history)
    decreases |history|
  {
    if history != [] {
      var init := history[..|history| - 1];
      SnapshotPairs(fromVer, toVer, init);
      assert forall k :: 0 <= k < |init| ==> init[k] == history[k];
    }
  }

  /** A history whose names at the two versions both exist and differ. */
  predicate Differs(e: HistoryEntry, fromVer: int, toVer: int)
  {
    var o := NameAt(e.records, fromVer);
    var t := NameAt(e.records, toVer);
    o.Some? && t.Some? && o.value != t.value
  }

  /** When several histories share a target name, the last of them in map
      order supplies the old name: the earlier pairs are overwritten. */
  lemma {:induction false} SnapshotLastWins(fromVer: int, toVer: int, history: seq<HistoryEntry>, k: nat)
    requires k < |history| && Differs(history[k], fromVer, toVer)
    requires forall j :: k < j < |history| && Differs(history[j], fromVer, toVer) ==>
      NameAt(history[j].records, toVer) != NameAt(history[k].records, toVer)
    ensures var t := NameAt(history[k].records, toVer).value;
      t in Snapshot(fromVer, toVer, history)
      && Snapshot(fromVer, toVer, history)[t] == NameAt(history[k].records, fromVer).value
    decreases |history|
  {
    var init := history[..|history| - 1];
    if k < |history| - 1 {
      assert forall j :: 0 <= j < |init| ==> init[j] == history[j];
      SnapshotLastWins(fromVer, toVer, init, k);
    }
  }

  /** Between a version and itself nothing is renamed. */
  lemma {:induction false} SnapshotSameVersion(v: int, history: seq<HistoryEntry>)
    ensures Snapshot(v, v, history) == map[]
    decreases |history|
  {
    if history != [] {
      SnapshotSameVersion(v, history[..|history| - 1]);
    }
  }

  // ---------------------------------------------------------------------
  // Primitive value conversion

  /** The floating-point conversions (`toInt()`, `toFloat()`, …) are not
      modelled; they are given as this parameter. */
  type FloatCast = (Value, Kind) -> Value

  /** Kotlin prints zero as `0.0` or `-0.0`; both compare equal to zero. */
  predicate IsZeroText(f: FloatText)
  {
    f == "0.0" || f == "-0.0"
  }

  /** `tryAutoConvertValue(value, targetType)`. */
  function TryAutoConvertValue(value: Option<Value>, target: Kind, cast: FloatCast): Option<Value>
  {
    match value
    case None => None
    case Some(v) =>
      match target
      case IntK =>
        (match v
         case IntV(_) => Some(v)
         case LongV(l) => Some(IntV(WrapInt32(l)))
         case FloatV(_) => Some(cast(v, IntK))
         case DoubleV(_) => Some(cast(v, IntK))
         case BoolV(b) => Some(IntV(if b then 1 else 0))
         case _ => None)
      case LongK =>
        (match v
         case IntV(i) => Some(LongV(i))
         case LongV(_) => Some(v)
         case FloatV(_) => Some(cast(v, LongK))
         case DoubleV(_) => Some(cast(v, LongK))
         case BoolV(b) => Some(LongV(if b then 1 else 0))
         case _ => None)
      case FloatK =>
        (match v
         case IntV(_) => Some(cast(v, FloatK))
         case LongV(_) => Some(cast(v, FloatK))
         case FloatV(_) => Some(v)
         case DoubleV(_) => Some(cast(v, FloatK))
         case BoolV(b) => Some(FloatV(if b then "1.0" else "0.0"))
         case _ => None)
      case DoubleK =>
        (match v
         case IntV(_) => Some(cast(v, DoubleK))
         case LongV(_) => Some(cast(v, DoubleK))
         case FloatV(_) => Some(cast(v, DoubleK))
         case DoubleV(_) => Some(v)
         case BoolV(b) => Some(DoubleV(if b then "1.0" else "0.0"))
         case _ => None)
      case BoolK =>
        (match v
         case BoolV(_) => Some(v)
         case IntV(i) => Some(BoolV(i != 0))
         case LongV(l) => Some(BoolV(l != 0))
         case FloatV(f) => Some(BoolV(!IsZeroText(f)))
         case DoubleV(d) => Some(BoolV(!IsZeroText(d)))
         case _ => None)
      case StringK =>
        (match v
         case StrV(_) => Some(v)
         case _ => None)
      case _ => None
  }

  /** `null` stays `null`; a Boolean becomes 1 or 0 as a number; a number
      becomes `true` exactly when it is non-zero; only a String converts to
      String; a list or other class is never a conversion target. */
  lemma ConvertRules(v: Value, cast: FloatCast)
    ensures TryAutoConvertValue(None, IntK, cast) == None
    ensures v.BoolV? ==> TryAutoConvertValue(Some(v), IntK, cast) == Some(IntV(if v.b then 1 else 0))
    ensures v.BoolV? ==> TryAutoConvertValue(Some(v), LongK, cast) == Some(LongV(if v.b then 1 else 0))
    ensures v.IntV? ==> TryAutoConvertValue(Some(v), BoolK, cast) == Some(BoolV(v.i != 0))
    ensures v.LongV? ==> TryAutoConvertValue(Some(v), BoolK, cast) == Some(BoolV(v.l != 0))
    ensures TryAutoConvertValue(Some(v), StringK, cast).Some? <==> v.StrV?
    ensures forall e :: TryAutoConvertValue(Some(v), ListK(e), cast) == None
    ensures forall n :: TryAutoConvertValue(Some(v), OtherK(n), cast) == None
  {
  }

  /** A conversion yields a value of the target type (given float casts
      that do), and never for a non-scalar value. */
  lemma ConvertedHasKind(value: Option<Value>, target: Kind, cast: FloatCast)
    requires forall v, k :: HasKind(cast(v, k), k)
    ensures TryAutoConvertValue(value, target, cast).Some? ==> HasKind(TryAutoConvertValue(value, target, cast).value, target)
    ensures value.Some? && !IsScalar(value.value) ==> TryAutoConvertValue(value, target, cast).None?
  {
  }

  /** Int to Long and back, and Boolean to Int and back, lose nothing;
      Long to Int and back keeps exactly the values in the Int range. */
  lemma ConvertRoundTrips(v: Value, cast: FloatCast)
    ensures v.IntV? ==> TryAutoConvertValue(TryAutoConvertValue(Some(v), LongK, cast), IntK, cast) == Some(v)
    ensures v.BoolV? ==> TryAutoConvertValue(TryAutoConvertValue(Some(v), IntK, cast), BoolK, cast) == Some(v)
    ensures v.LongV? ==> (TryAutoConvertValue(TryAutoConvertValue(Some(v), IntK, cast), LongK, cast) == Some(v)
                          <==> -0x8000_0000 <= v.l < 0x8000_0000)
  {
    if v.LongV? && !(-0x8000_0000 <= v.l < 0x8000_0000) {
      assert WrapInt32(v.l) != v.l;
    }
  }

  // ---------------------------------------------------------------------
  // Converting one entity

  /** `renameSnapshot[toName] ?: toName`. */
  function SourceName(toName: string, snapshot: map<string, string>): string
  {
    if toName in snapshot then snapshot[toName] else toName
  }

  /** The argument `convertEntity` passes for one constructor parameter,
      `None` when it leaves the parameter to its default. */
  function ArgFor(prev: Entity, p: Param, snapshot: map<string, string>, overrides: map<string, FieldOverride>, cast: FloatCast): Option<Value>
  {
    var fromName := SourceName(p.name, snapshot);
    var fromProp := if fromName in prev then Some(prev[fromName]) else None;
    var rawValue := if fromProp.Some? then fromProp.value.value else None;
    var overridden := if p.name in overrides then overrides[p.name].Apply(rawValue) else None;
    if overridden.Some? then overridden
    else if fromProp.None? then None
    else if SameListType(fromProp.value.kind, p.kind) then rawValue
    else if IsDbPrimitive(fromProp.value.kind) && IsDbPrimitive(p.kind) then
      (if fromProp.value.kind == p.kind then rawValue else TryAutoConvertValue(rawValue, p.kind, cast))
    else None
  }

  /** `constructor.parameters.associateWith { … }.filterValues { it != null }`. */
  function Args(prev: Entity, params: seq<Param>, snapshot: map<string, string>, overrides: map<string, FieldOverride>, cast: FloatCast): (r: map<string, Option<Value>>)
    ensures forall n :: n in r ==> exists k :: 0 <= k < |params| && params[k].name == n
    ensures forall n :: n in r ==> r[n].Some?
    decreases |params|
  {
    if params == [] then map[]
    else
      var p := params[|params| - 1];
      var init := Args(prev, params[..|params| - 1], snapshot, overrides, cast);
      assert forall k :: 0 <= k < |params| - 1 ==> params[..|params| - 1][k] == params[k];
      match ArgFor(prev, p, snapshot, overrides, cast)
      case Some(v) => init[p.name := Some(v)]
      case None => init
  }

  /** `convertEntity(oldObject, newClass, renameSnapshot, overrideColVal)`. */
  function ConvertEntity(prev: Entity, cls: EntityClass, snapshot: map<string, string>, mods: seq<ModifyRow>, cast: FloatCast): Entity
  {
    Construct(cls.params, Args(prev, cls.params, snapshot, OverridesOnto(map[], mods), cast))
  }

  /** An override that yields a value decides the argument, whatever the
      source field holds. */
  lemma OverrideWins(prev: Entity, p: Param, snapshot: map<string, string>, overrides: map<string, FieldOverride>, cast: FloatCast)
    requires p.name in overrides
    requires SourceName(p.name, snapshot) in prev
    requires prev[SourceName(p.name, snapshot)].value.Some?
    ensures ArgFor(prev, p, snapshot, overrides, cast) == overrides[p.name].Apply(prev[SourceName(p.name, snapshot)].value)
  {
  }

  /** Without an override, a source field of the same primitive or list
      type is copied as it is, read under its old name when renamed. */
  lemma SameTypeCopied(prev: Entity, p: Param, snapshot: map<string, string>, overrides: map<string, FieldOverride>, cast: FloatCast)
    requires p.name !in overrides
    requires SourceName(p.name, snapshot) in prev
    requires prev[SourceName(p.name, snapshot)].kind == p.kind
    requires IsDbPrimitive(p.kind) || p.kind.ListK?
    ensures ArgFor(prev, p, snapshot, overrides, cast) == prev[SourceName(p.name, snapshot)].value
  {
  }

  /** A field of any other type, or a missing one, is left to the
      parameter's default unless an override gives a value. */
  lemma OtherTypesDefault(prev: Entity, p: Param, snapshot: map<string, string>, overrides: map<string, FieldOverride>, cast: FloatCast)
    requires p.name !in overrides
    requires SourceName(p.name, snapshot) in prev ==>
      var k := prev[SourceName(p.name, snapshot)].kind;
      !SameListType(k, p.kind) && !(IsDbPrimitive(k) && IsDbPrimitive(p.kind))
    ensures ArgFor(prev, p, snapshot, overrides, cast) == None
  {
  }

  lemma {:induction false} ArgsAt(prev: Entity, params: seq<Param>, snapshot: map<string, string>, overrides: map<string, FieldOverride>, cast: FloatCast, k: nat)
    requires DistinctNames(params) && k < |params|
    ensures var a := ArgFor(prev, params[k], snapshot, overrides, cast);
      var r := Args(prev, params, snapshot, overrides, cast);
      (params[k].name in r <==> a.Some?) && (a.Some? ==> r[params[k].name] == a)
    decreases |params|
  {
    var init := params[..|params| - 1];
    var last := params[|params| - 1];
    var before := Args(prev, init, snapshot, overrides, cast);
    var a := ArgFor(prev, last, snapshot, overrides, cast);
    assert Args(prev, params, snapshot, overrides, cast) == if a.Some? then before[last.name := a] else before;
    assert last.name !in before by {
      assert forall j :: 0 <= j < |init| ==> init[j].name != last.name;
    }
    if k < |params| - 1 {
      assert init[k] == params[k] && params[k].name != last.name;
      ArgsAt(prev, init, snapshot, overrides, cast, k);
    }
  }

  /** A `null` source value is dropped from the arguments, so the
      parameter takes its default, not `null`, unless an override gives a
      value. */
  lemma NullTakesDefault(prev: Entity, p: Param, snapshot: map<string, string>, overrides: map<string, FieldOverride>, cast: FloatCast)
    requires SourceName(p.name, snapshot) in prev
    requires prev[SourceName(p.name, snapshot)].value.None?
    requires p.name in overrides ==> overrides[p.name].fallback.None?
    ensures ArgFor(prev, p, snapshot, overrides, cast) == None
  {
  }

  /** An entity of a class whose fields are all primitives or lists, built
      with non-null arguments, converted to that same class with no rename
      and no override, comes out unchanged. */
  lemma ConvertSameClass(cls: EntityClass, vals: map<string, Option<Value>>, cast: FloatCast)
    requires forall n :: n in vals ==> vals[n].Some?
    requires DistinctNames(cls.params)
    requires forall k :: 0 <= k < |cls.params| ==> IsDbPrimitive(cls.params[k].kind) || cls.params[k].kind.ListK?
    ensures ConvertEntity(Construct(cls.params, vals), cls, map[], [], cast) == Construct(cls.params, vals)
  {
    assert OverridesOnto(map[], []) == map[];
    SameClassArgs(cls.params, vals, cast);
  }

  lemma SameClassArgs(params: seq<Param>, vals: map<string, Option<Value>>, cast: FloatCast)
    requires forall n :: n in vals ==> vals[n].Some?
    requires DistinctNames(params)
    requires forall k :: 0 <= k < |params| ==> IsDbPrimitive(params[k].kind) || params[k].kind.ListK?
    ensures var e := Construct(params, vals);
      Construct(params, Args(e, params, map[], map[], cast)) == e
  {
    var e := Construct(params, vals);
    var r := Construct(params, Args(e, params, map[], map[], cast));
    forall n | n in e ensures n in r && r[n] == e[n] {
      var k :| 0 <= k < |params| && params[k].name == n;
      SameClassAt(params, vals, cast, k);
    }
  }

  lemma SameClassAt(params: seq<Param>, vals: map<string, Option<Value>>, cast: FloatCast, k: nat)
    requires forall n :: n in vals ==> vals[n].Some?
    requires DistinctNames(params) && k < |params|
    requires IsDbPrimitive(params[k].kind) || params[k].kind.ListK?
    ensures var e := Construct(params, vals);
      Construct(params, Args(e, params, map[], map[], cast))[params[k].name] == e[params[k].name]
  {
    var e := Construct(params, vals);
    var args := Args(e, params, map[], map[], cast);
    ConstructAt(params, vals, k);
    ConstructAt(params, args, k);
    ArgsAt(e, params, map[], map[], cast, k);
    SameTypeCopied(e, params[k], map[], map[], cast);
  }

  // ---------------------------------------------------------------------
  // Converting through every step

  /** The lambdas of a step; `MilestoneLambdas()` when none. */
  function LambdasAt(lambdas: map<int, MilestoneLambdas>, v: int): MilestoneLambdas
  {
    if v in lambdas then lambdas[v] else NoLambdas
  }

  /** One step: convert with the step's renames and overrides, then let
      `processFinalObj`, when set, see the previous and the new object. */
  function StepTo(obj: Entity, currentVer: int, nextVer: int, cls: EntityClass, history: seq<HistoryEntry>,
                  lambdas: map<int, MilestoneLambdas>, cast: FloatCast): Entity
  {
    var l := LambdasAt(lambdas, nextVer);
    var converted := ConvertEntity(obj, cls, Snapshot(currentVer, nextVer, history), l.modifications, cast);
    if l.processFinalObj.Some? then l.processFinalObj.value(obj, converted) else converted
  }

  function MissingClass(v: int): string
  {
    "Missing entity class for version " + IntToString(v)
  }

  /** `convertThroughSteps`: the steps in order; a step without a class is
      an error. */
  function Through(obj: Entity, currentVer: int, steps: seq<int>, history: seq<HistoryEntry>,
                   classes: map<int, EntityClass>, lambdas: map<int, MilestoneLambdas>, cast: FloatCast): Result<Entity>
    decreases |steps|
  {
    if steps == [] then Success(obj)
    else if steps[0] !in classes then Failure(MissingClass(steps[0]))
    else
      Through(StepTo(obj, currentVer, steps[0], classes[steps[0]], history, lambdas, cast),
              steps[0], steps[1..], history, classes, lambdas, cast)
  }

  method ConvertThroughSteps(original: Entity, oldVersion: int, steps: seq<int>, history: seq<HistoryEntry>,
                             classes: map<int, EntityClass>, lambdas: map<int, MilestoneLambdas>, cast: FloatCast)
    returns (r: Result<Entity>)
    ensures r == Through(original, oldVersion, steps, history, classes, lambdas, cast)
  {
    var currentObj := original;
    var currentVer := oldVersion;
    for i := 0 to |steps|
      invariant Through(currentObj, currentVer, steps[i..], history, classes, lambdas, cast)
             == Through(original, oldVersion, steps, history, classes, lambdas, cast)
    {
      var nextVer := steps[i];
      assert steps[i..][1..] == steps[i + 1..];
      var renameSnapshot := GetRenameSnapshot(currentVer, nextVer, history);
      if nextVer !in classes {
        return Failure(MissingClass(nextVer));
      }
      var l := LambdasAt(lambdas, nextVer);
      var previousObj := currentObj;
      currentObj := ConvertEntity(currentObj, classes[nextVer], renameSnapshot, l.modifications, cast);
      if l.processFinalObj.Some? {
        currentObj := l.processFinalObj.value(previousObj, currentObj);
      }
      currentVer := nextVer;
    }
    assert steps[|steps|..] == [];
    r := Success(currentObj);
  }

  /** The conversion fails exactly when some step has no class, and then
      it names the first such step. */
  lemma {:induction false} ThroughFails(obj: Entity, currentVer: int, steps: seq<int>, history: seq<HistoryEntry>,
                                        classes: map<int, EntityClass>, lambdas: map<int, MilestoneLambdas>, cast: FloatCast)
    ensures Through(obj, currentVer, steps, history, classes, lambdas, cast).Failure? <==>
      exists k :: 0 <= k < |steps| && steps[k] !in classes
    ensures Through(obj, currentVer, steps, history, classes, lambdas, cast).Failure? ==>
      exists k :: 0 <= k < |steps| && steps[k] !in classes
        && (forall j :: 0 <= j < k ==> steps[j] in classes)
        && Through(obj, currentVer, steps, history, classes, lambdas, cast).error == MissingClass(steps[k])
    decreases |steps|
  {
    if steps != [] && steps[0] in classes {
      var next := StepTo(obj, currentVer, steps[0], classes[steps[0]], history, lambdas, cast);
      ThroughFails(next, steps[0], steps[1..], history, classes, lambdas, cast);
      assert forall k :: 0 <= k < |steps| - 1 ==> steps[1..][k] == steps[k + 1];
      if Through(obj, currentVer, steps, history, classes, lambdas, cast).Failure? {
        var k :| 0 <= k < |steps[1..]| && steps[1..][k] !in classes
          && (forall j :: 0 <= j < k ==> steps[1..][j] in classes)
          && Through(next, steps[0], steps[1..], history, classes, lambdas, cast).error == MissingClass(steps[1..][k]);
        assert steps[k + 1] !in classes;
      }
    }
  }

  // ---------------------------------------------------------------------
  // The whole multi-step migration of one table's rows

  function MissingBundle(v: int): string
  {
    "Missing schemaBundle for version " + IntToString(v)
  }

  /** Every row through the steps; the first failure stops it. */
  function ThroughAll(rows: seq<Entity>, oldVersion: int, steps: seq<int>, history: seq<HistoryEntry>,
                      classes: map<int, EntityClass>, lambdas: map<int, MilestoneLambdas>, cast: FloatCast): (r: Result<seq<Entity>>)
    ensures r.Success? ==> |r.value| == |rows|
    decreases |rows|
  {
    if rows == [] then Success([])
    else
      match Through(rows[0], oldVersion, steps, history, classes, lambdas, cast)
      case Failure(e) => Failure(e)
      case Success(x) =>
        match ThroughAll(rows[1..], oldVersion, steps, history, classes, lambdas, cast)
        case Failure(e) => Failure(e)
        case Success(xs) => Success([x] + xs)
  }

  /** Each migrated row is its own row taken through the steps, in row
      order. */
  lemma {:induction false} ThroughAllRows(rows: seq<Entity>, oldVersion: int, steps: seq<int>, history: seq<HistoryEntry>,
                                          classes: map<int, EntityClass>, lambdas: map<int, MilestoneLambdas>, cast: FloatCast)
    requires ThroughAll(rows, oldVersion, steps, history, classes, lambdas, cast).Success?
    ensures forall k :: 0 <= k < |rows| ==>
      Through(rows[k], oldVersion, steps, history, classes, lambdas, cast).Success?
      && ThroughAll(rows, oldVersion, steps, history, classes, lambdas, cast).value[k]
         == Through(rows[k], oldVersion, steps, history, classes, lambdas, cast).value
    decreases |rows|
  {
    if rows != [] {
      ThroughAllRows(rows[1..], oldVersion, steps, history, classes, lambdas, cast);
      forall k | 1 <= k < |rows|
        ensures rows[1..][k - 1] == rows[k]
      {
      }
    }
  }

  /** `migrateMultiStepInternal` on the rows read from the table:
      `Success(None)` when nothing is migrated, the migrated rows
      otherwise, one per row read. */
  function MigrateMultiStep(rows: seq<Entity>, oldVersion: int, newVersion: int, bundle: MigrationBundle, cast: FloatCast)
    : (r: Result<Option<seq<Entity>>>)
    ensures newVersion <= oldVersion ==> r == Success(None)
    ensures r.Success? && r.value.Some? ==> |r.value.value| == |rows|
  {
    match MigrationPlan(bundle.milestones, oldVersion, newVersion)
    case None => Success(None)
    case Some(plan) =>
      if oldVersion !in bundle.versionedSpecs then Failure(MissingBundle(oldVersion))
      else
        match ThroughAll(rows, oldVersion, Steps(plan), bundle.renameHistory, bundle.versionedSpecs, LambdasOf(plan), cast)
        case Failure(e) => Failure(e)
        case Success(out) => Success(Some(out))
  }

  /** A successful migration gives, for each row read, that row taken
      through the plan's steps with the plan's milestone lambdas. */
  lemma MigratedRows(rows: seq<Entity>, oldVersion: int, newVersion: int, bundle: MigrationBundle, cast: FloatCast)
    requires MigrateMultiStep(rows, oldVersion, newVersion, bundle, cast).Success?
    requires oldVersion < newVersion
    ensures var plan := MigrationPlan(bundle.milestones, oldVersion, newVersion).value;
      var out := MigrateMultiStep(rows, oldVersion, newVersion, bundle, cast).value;
      out.Some? && forall k :: 0 <= k < |rows| ==>
        Through(rows[k], oldVersion, Steps(plan), bundle.renameHistory, bundle.versionedSpecs, LambdasOf(plan), cast).Success?
        && out.value[k] == Through(rows[k], oldVersion, Steps(plan), bundle.renameHistory, bundle.versionedSpecs, LambdasOf(plan), cast).value
  {
    var plan := MigrationPlan(bundle.milestones, oldVersion, newVersion).value;
    var all := ThroughAll(rows, oldVersion, Steps(plan), bundle.renameHistory, bundle.versionedSpecs, LambdasOf(plan), cast);
    assert oldVersion in bundle.versionedSpecs && all.Success?;
    assert MigrateMultiStep(rows, oldVersion, newVersion, bundle, cast) == Success(Some(all.value));
    ThroughAllRows(rows, oldVersion, Steps(plan), bundle.renameHistory, bundle.versionedSpecs, LambdasOf(plan), cast);
  }

  /** With rows to migrate, the migration fails exactly when the stored
      version or some step has no class. */
  lemma MigrateFails(rows: seq<Entity>, oldVersion: int, newVersion: int, bundle: MigrationBundle, cast: FloatCast)
    requires rows != [] && oldVersion < newVersion
    ensures var steps := Steps(MigrationPlan(bundle.milestones, oldVersion, newVersion).value);
      MigrateMultiStep(rows, oldVersion, newVersion, bundle, cast).Failure? <==>
        oldVersion !in bundle.versionedSpecs || exists k :: 0 <= k < |steps| && steps[k] !in bundle.versionedSpecs
  {
    var plan := MigrationPlan(bundle.milestones, oldVersion, newVersion).value;
    ThroughAllFails(rows, oldVersion, Steps(plan), bundle.renameHistory, bundle.versionedSpecs, LambdasOf(plan), cast);
  }

  /** The rows fail together: all of them exactly when some step has no
      class, since that does not depend on the row. */
  lemma {:induction false} ThroughAllFails(rows: seq<Entity>, oldVersion: int, steps: seq<int>, history: seq<HistoryEntry>,
                                           classes: map<int, EntityClass>, lambdas: map<int, MilestoneLambdas>, cast: FloatCast)
    requires rows != []
    ensures ThroughAll(rows, oldVersion, steps, history, classes, lambdas, cast).Failure? <==>
      exists k :: 0 <= k < |steps| && steps[k] !in classes
    decreases |rows|
  {
    ThroughFails(rows[0], oldVersion, steps, history, classes, lambdas, cast);
    if |rows| > 1 {
      ThroughAllFails(rows[1..], oldVersion, steps, history, classes, lambdas, cast);
    }
  }
}
