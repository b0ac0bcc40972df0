/** Typed column descriptors (`TypedColumn` and its subclasses) and their
    factory functions, including the list factories that expand one logical
    field into numbered columns. */
module TypedColumn {
  import opened Wrappers
  import opened Text
  import opened Values

  datatype Column =
    | IntCol(name: string, intDefault: Int32)
    | StrCol(name: string, strDefault: string)
    | BoolCol(name: string, boolDefault: bool)
    | LongCol(name: string, longDefault: Int64)
    | FloatCol(name: string, floatDefault: FloatText)
    | BlobCol(name: string, blobDefault: seq<bv8>)
  {
    /** Columns that accept the arithmetic of `NumberColumn`. */
    predicate IsNumber() { IntCol? || LongCol? || FloatCol? }

    /** The column's default as a value. */
    function DefaultValue(): Value
    {
      match this
      case IntCol(_, d) => IntV(d)
      case StrCol(_, d) => StrV(d)
      case BoolCol(_, d) => BoolV(d)
      case LongCol(_, d) => LongV(d)
      case FloatCol(_, d) => FloatV(d)
      case BlobCol(_, d) => BlobV(d)
    }

    /** Whether `v` has the Kotlin type `T` of this `TypedColumn<T>`. */
    predicate Holds(v: Value)
    {
      match this
      case IntCol(_, _) => v.IntV?
      case StrCol(_, _) => v.StrV?
      case BoolCol(_, _) => v.BoolV?
      case LongCol(_, _) => v.LongV?
      case FloatCol(_, _) => v.FloatV?
      case BlobCol(_, _) => v.BlobV?
    }

    /** Whether `other` is a column of the same Kotlin class. */
    predicate SameKind(other: Column)
    {
      (IntCol? && other.IntCol?) || (StrCol? && other.StrCol?) || (BoolCol? && other.BoolCol?)
      || (LongCol? && other.LongCol?) || (FloatCol? && other.FloatCol?) || (BlobCol? && other.BlobCol?)
    }
  }

  // Factories with the constructors' default values.

  function ICol(name: string, defaultVal: Int32 := 0): (c: Column)
    ensures c.IntCol? && c.name == name && c.DefaultValue() == IntV(defaultVal)
  {
    IntCol(name, defaultVal)
  }

  function SCol(name: string, defaultVal: string := ""): (c: Column)
    ensures c.StrCol? && c.name == name && c.DefaultValue() == StrV(defaultVal)
  {
    StrCol(name, defaultVal)
  }

  function BCol(name: string, defaultVal: bool := false): (c: Column)
    ensures c.BoolCol? && c.name == name && c.DefaultValue() == BoolV(defaultVal)
  {
    BoolCol(name, defaultVal)
  }

  function LCol(name: string, defaultVal: Int64 := 0): (c: Column)
    ensures c.LongCol? && c.name == name && c.DefaultValue() == LongV(defaultVal)
  {
    LongCol(name, defaultVal)
  }

  function FCol(name: string, defaultVal: FloatText := "0.0"): (c: Column)
    ensures c.FloatCol? && c.name == name && c.DefaultValue() == FloatV(defaultVal)
  {
    FloatCol(name, defaultVal)
  }

  function PCol(name: string, defaultVal: seq<bv8> := []): (c: Column)
    ensures c.BlobCol? && c.name == name && c.DefaultValue() == BlobV(defaultVal)
  {
    BlobCol(name, defaultVal)
  }

  /** Name of the `k`-th (0-based) column of an expanded list field: `name + (k + 1)`. */
  function Numbered(name: string, k: nat): string
  {
    name + IntToString(k + 1)
  }

  /** `cols` is the expansion of field `name`: columns `name1`, `name2`, ... in order. */
  ghost predicate Expanded(cols: seq<Column>, name: string)
  {
    forall k :: 0 <= k < |cols| ==> cols[k].name == Numbered(name, k)
  }

  /** Every column of `cols` has the default value `d`. */
  ghost predicate AllDefault(cols: seq<Column>, d: Value)
  {
    forall k :: 0 <= k < |cols| ==> cols[k].DefaultValue() == d
  }

  /** `List(size) { ... }`: a negative size is an IllegalArgumentException. */
  function Expand(name: string, size: Int32, make: (string) -> Column): (r: Result<seq<Column>>)
    requires forall n :: make(n).name == n
    ensures r.Success? <==> size >= 0
    ensures r.Success? ==> |r.value| == size && Expanded(r.value, name)
    ensures r.Success? ==> forall k :: 0 <= k < size ==> r.value[k] == make(Numbered(name, k))
  {
    if size < 0 then Failure("Illegal Capacity: " + IntToString(size))
    else Success(seq(size, k requires 0 <= k < size => make(Numbered(name, k))))
  }

  function IListCol(name: string, size: Int32, defaultVal: Int32 := 0): (r: Result<seq<Column>>)
    ensures r.Success? <==> size >= 0
    ensures r.Success? ==> |r.value| == size && Expanded(r.value, name) && AllDefault(r.value, IntV(defaultVal))
    ensures r.Success? ==> forall k :: 0 <= k < size ==> r.value[k].IntCol?
  {
    Expand(name, size, n => ICol(n, defaultVal))
  }

  function SListCol(name: string, size: Int32, defaultVal: string := ""): (r: Result<seq<Column>>)
    ensures r.Success? <==> size >= 0
    ensures r.Success? ==> |r.value| == size && Expanded(r.value, name) && AllDefault(r.value, StrV(defaultVal))
    ensures r.Success? ==> forall k :: 0 <= k < size ==> r.value[k].StrCol?
  {
    Expand(name, size, n => SCol(n, defaultVal))
  }

  function BListCol(name: string, size: Int32, defaultVal: bool := false): (r: Result<seq<Column>>)
    ensures r.Success? <==> size >= 0
    ensures r.Success? ==> |r.value| == size && Expanded(r.value, name) && AllDefault(r.value, BoolV(defaultVal))
    ensures r.Success? ==> forall k :: 0 <= k < size ==> r.value[k].BoolCol?
  {
    Expand(name, size, n => BCol(n, defaultVal))
  }

  function LListCol(name: string, size: Int32, defaultVal: Int64 := 0): (r: Result<seq<Column>>)
    ensures r.Success? <==> size >= 0
    ensures r.Success? ==> |r.value| == size && Expanded(r.value, name) && AllDefault(r.value, LongV(defaultVal))
    ensures r.Success? ==> forall k :: 0 <= k < size ==> r.value[k].LongCol?
  {
    Expand(name, size, n => LCol(n, defaultVal))
  }

  function FListCol(name: string, size: Int32, defaultVal: FloatText := "0.0"): (r: Result<seq<Column>>)
    ensures r.Success? <==> size >= 0
    ensures r.Success? ==> |r.value| == size && Expanded(r.value, name) && AllDefault(r.value, FloatV(defaultVal))
    ensures r.Success? ==> forall k :: 0 <= k < size ==> r.value[k].FloatCol?
  {
    Expand(name, size, n => FCol(n, defaultVal))
  }

  /** Blob list columns take no default argument: each has the empty array. */
  function PListCol(name: string, size: Int32): (r: Result<seq<Column>>)
    ensures r.Success? <==> size >= 0
    ensures r.Success? ==> |r.value| == size && Expanded(r.value, name) && AllDefault(r.value, BlobV([]))
    ensures r.Success? ==> forall k :: 0 <= k < size ==> r.value[k].BlobCol?
  {
    Expand(name, size, n => PCol(n))
  }

  /** The columns of an expanded list field have pairwise distinct names. */
  lemma ExpandedNamesDistinct(cols: seq<Column>, name: string, i: nat, j: nat)
    requires Expanded(cols, name)
    requires i < j < |cols|
    ensures cols[i].name != cols[j].name
  {
    if cols[i].name == cols[j].name {
      var a, b := IntToString(i + 1), IntToString(j + 1);
      assert name + a == name + b;
      assert a == (name + a)[|name|..];
      assert b == (name + b)[|name|..];
      NatToStringInjective(i + 1, j + 1);
    }
  }
}
