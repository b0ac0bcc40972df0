/** The recording vocabulary of the SET DSL (`SetDslInternal`): each call
    appends its `SetOp` to the builder's list; `mult` and `div` may append
    nothing. */
module SetDsl {
  import opened Wrappers
  import opened Values
  import opened TypedColumn
  import opened SetOps

  method SetCV(b: SetBuilder, cv: ContentValues)
    modifies b
    ensures b.ops == old(b.ops) + [SetOp.SetCV(cv)]
  {
    b.ops := b.ops + [SetOp.SetCV(cv)];
  }

  /** `col setTo value` on a typed column. */
  method SetTo(b: SetBuilder, col: Column, value: Value)
    requires col.Holds(value)
    modifies b
    ensures b.ops == old(b.ops) + [Set(col, value)]
  {
    b.ops := b.ops + [Set(col, value)];
  }

  /** `"col" setTo value` on a plain column name. */
  method SetToNamed(b: SetBuilder, colName: string, value: Value)
    modifies b
    ensures b.ops == old(b.ops) + [SetNoty(colName, value)]
  {
    b.ops := b.ops + [SetNoty(colName, value)];
  }

  method Flip(b: SetBuilder, col: Column)
    requires col.BoolCol?
    modifies b
    ensures b.ops == old(b.ops) + [SetOp.Flip(col)]
  {
    b.ops := b.ops + [SetOp.Flip(col)];
  }

  /** `OFF(col)` sets false, `ON(col)` sets true. */
  method Off(b: SetBuilder, col: Column)
    requires col.BoolCol?
    modifies b
    ensures b.ops == old(b.ops) + [Set(col, BoolV(false))]
  {
    b.ops := b.ops + [Set(col, BoolV(false))];
  }

  method On(b: SetBuilder, col: Column)
    requires col.BoolCol?
    modifies b
    ensures b.ops == old(b.ops) + [Set(col, BoolV(true))]
  {
    b.ops := b.ops + [Set(col, BoolV(true))];
  }

  /** `col add value`: `col = col + ?`. */
  method Add(b: SetBuilder, col: Column, value: Value)
    requires col.IsNumber() && IsNumeric(value)
    modifies b
    ensures b.ops == old(b.ops) + [NumOp(col.name, value, "+")]
  {
    b.ops := b.ops + [NumOp(col.name, value, "+")];
  }

  /** The additions `addToEach` records, one per column in order. */
  function AddAll(cols: seq<Column>, value: Value): (r: seq<SetOp>)
    ensures |r| == |cols| && forall k :: 0 <= k < |cols| ==> r[k] == NumOp(cols[k].name, value, "+")
  {
    seq(|cols|, k requires 0 <= k < |cols| => NumOp(cols[k].name, value, "+"))
  }

  /** `cols.addToEach(value)`: `add` on every column, in order. */
  method AddToEach(b: SetBuilder, cols: seq<Column>, value: Value)
    requires forall k :: 0 <= k < |cols| ==> cols[k].IsNumber()
    requires IsNumeric(value)
    modifies b
    ensures b.ops == old(b.ops) + AddAll(cols, value)
  {
    for i := 0 to |cols|
      invariant b.ops == old(b.ops) + AddAll(cols[..i], value)
    {
      assert AddAll(cols[..i + 1], value) == AddAll(cols[..i], value) + [NumOp(cols[i].name, value, "+")];
      Add(b, cols[i], value);
    }
    assert cols[..|cols|] == cols;
  }

  /** The operand `sub` passes to `add`: the negated value after `toInt()` /
      `toLong()`, negation wrapping around as on the JVM. */
  function Negated(col: Column, value: Value, trunc: Truncation): (r: Value)
    requires (col.IntCol? || col.LongCol?) && IsNumeric(value)
    ensures col.IntCol? ==> r.IntV? && (ToInt(value, trunc) != -0x8000_0000 ==> r.i == -ToInt(value, trunc))
    ensures col.LongCol? ==> r.LongV? && (ToLong(value, trunc) != -0x8000_0000_0000_0000 ==> r.l == -ToLong(value, trunc))
  {
    if col.IntCol? then IntV(WrapInt32(-(ToInt(value, trunc) as int))) else LongV(WrapInt64(-(ToLong(value, trunc) as int)))
  }

  /** `col sub value`: recorded as `add` of the negated value. */
  method Sub(b: SetBuilder, col: Column, value: Value, trunc: Truncation)
    requires (col.IntCol? || col.LongCol?) && IsNumeric(value)
    modifies b
    ensures b.ops == old(b.ops) + [NumOp(col.name, Negated(col, value, trunc), "+")]
  {
    Add(b, col, Negated(col, value, trunc));
  }

  /** Subtracting the smallest Int adds it instead: the recorded operation
      takes `x` to `x - 2^31` where `x + 2^31` was asked for. Any operand
      that `toInt()` turns into the smallest Int does the same, a Float or
      Double below the Int range included. */
  lemma SubMinValueAdds(x: int, col: Column, value: Value, trunc: Truncation)
    requires col.IntCol? && IsNumeric(value) && ToInt(value, trunc) == -0x8000_0000
    ensures IntEffect(x, col.name, NumOp(col.name, Negated(col, value, trunc), "+"))
            == Some(x - 0x8000_0000)
    ensures x - 0x8000_0000 != x - ToInt(value, trunc)
  {
    assert WrapInt32(0x8000_0000) == -0x8000_0000;
  }

  /** The operand after `toInt()` on an Int column, `toLong()` on a Long column. */
  function Operand(col: Column, value: Value, trunc: Truncation): (r: Value)
    requires (col.IntCol? || col.LongCol?) && IsNumeric(value)
    ensures col.IntCol? ==> r == IntV(ToInt(value, trunc))
    ensures col.LongCol? ==> r == LongV(ToLong(value, trunc))
  {
    if col.IntCol? then IntV(ToInt(value, trunc)) else LongV(ToLong(value, trunc))
  }

  /** `sub` recorded as its own operation, `col = col - ?`, bound to the
      operand itself, so no negation can wrap. */
  method SubExact(b: SetBuilder, col: Column, value: Value, trunc: Truncation)
    requires (col.IntCol? || col.LongCol?) && IsNumeric(value)
    modifies b
    ensures b.ops == old(b.ops) + [NumOp(col.name, Operand(col, value, trunc), "-")]
  {
    b.ops := b.ops + [NumOp(col.name, Operand(col, value, trunc), "-")];
  }

  /** The exact subtraction takes every value `x` to `x - v`, the smallest
      Int included. */
  lemma SubExactSubtracts(x: int, col: Column, value: Value, trunc: Truncation)
    requires (col.IntCol? || col.LongCol?) && IsNumeric(value)
    ensures IntEffect(x, col.name, NumOp(col.name, Operand(col, value, trunc), "-"))
            == Some(x - IntOf(Operand(col, value, trunc)))
  {
  }

  /** Where the negation does not wrap, the recorded `add` agrees with the
      exact subtraction. */
  lemma SubAgreesAwayFromMin(x: int, col: Column, value: Value, trunc: Truncation)
    requires (col.IntCol? || col.LongCol?) && IsNumeric(value)
    requires col.IntCol? ==> ToInt(value, trunc) != -0x8000_0000
    requires col.LongCol? ==> ToLong(value, trunc) != -0x8000_0000_0000_0000
    ensures IntEffect(x, col.name, NumOp(col.name, Negated(col, value, trunc), "+"))
            == IntEffect(x, col.name, NumOp(col.name, Operand(col, value, trunc), "-"))
  {
  }

  /** `col mult v` / `col div v` on Int and Long columns. */
  method MultDiv(b: SetBuilder, col: Column, value: Value, divide: bool, trunc: Truncation)
    requires (col.IntCol? || col.LongCol?) && IsNumeric(value)
    modifies b
    ensures col.IntCol? ==> b.ops == old(b.ops) + MultDivOps(col, IntV(ToInt(value, trunc)), IntV(0), if divide then "/" else "*")
    ensures col.LongCol? ==> b.ops == old(b.ops) + MultDivOps(col, LongV(ToLong(value, trunc)), LongV(0), if divide then "/" else "*")
  {
    if col.IntCol? {
      b.IMultDiv(col, value, if divide then "/" else "*", trunc);
    } else {
      b.LMultDiv(col, value, if divide then "/" else "*", trunc);
    }
  }

  /** A fractional factor on an Int column is truncated before the
      shortcuts apply: a factor whose integer part is 0 (`mult 0.5`) assigns
      0, one whose integer part is 1 (`mult 1.5`) records nothing, and any
      other records the truncated factor. */
  lemma FractionalFactorTruncated(x: int, col: Column, value: Value, trunc: Truncation, divide: bool)
    requires col.IntCol? && (value.FloatV? || value.DoubleV?)
    ensures var t := trunc(if value.FloatV? then value.f else value.d);
      var ops := MultDivOps(col, IntV(ToInt(value, trunc)), IntV(0), if divide then "/" else "*");
      && (t == 0 ==> ops == [Set(col, IntV(0))])
      && (t == 1 ==> ops == [])
      && (!divide ==> IntEffects(x, col.name, ops) == Some(x * Saturate(t, -0x8000_0000, 0x7FFF_FFFF)))
  {
    MultShortcutsExact(x, col, IntV(ToInt(value, trunc)), IntV(0));
  }

  method Abs(b: SetBuilder, col: Column)
    requires col.IntCol?
    modifies b
    ensures b.ops == old(b.ops) + [SetOp.Abs(col.name)]
  {
    b.ops := b.ops + [SetOp.Abs(col.name)];
  }

  /** `capAt` records a MIN (not a floor), `floorAt` a MAX (a floor). */
  method CapAt(b: SetBuilder, col: Column, value: Value)
    requires col.IsNumber() && IsNumeric(value)
    modifies b
    ensures b.ops == old(b.ops) + [MinMax(col.name, value, false)]
  {
    b.ops := b.ops + [MinMax(col.name, value, false)];
  }

  method FloorAt(b: SetBuilder, col: Column, value: Value)
    requires col.IsNumber() && IsNumeric(value)
    modifies b
    ensures b.ops == old(b.ops) + [MinMax(col.name, value, true)]
  {
    b.ops := b.ops + [MinMax(col.name, value, true)];
  }

  /** `col coerceIn first..last`. */
  method CoerceIn(b: SetBuilder, col: Column, first: Value, last: Value)
    requires col.IsNumber() && col.Holds(first) && col.Holds(last)
    modifies b
    ensures b.ops == old(b.ops) + [SetOp.CoerceIn(col.name, first, last)]
  {
    b.ops := b.ops + [SetOp.CoerceIn(col.name, first, last)];
  }

  /** `col setAs other`: copies another column of the same class. */
  method SetAs(b: SetBuilder, col: Column, other: Column)
    requires (col.IsNumber() || col.BoolCol?) && col.SameKind(other)
    modifies b
    ensures b.ops == old(b.ops) + [SetOp.SetAs(col.name, other.name)]
  {
    b.ops := b.ops + [SetOp.SetAs(col.name, other.name)];
  }

  /** `col setAs (other andAdd v)` and the like. */
  method SetAsModified(b: SetBuilder, col: Column, colWithOp: ColOp)
    requires col.IsNumber()
    modifies b
    ensures b.ops == old(b.ops) + [SetOp.SetAsModified(col.name, colWithOp)]
  {
    b.ops := b.ops + [SetOp.SetAsModified(col.name, colWithOp)];
  }
}
