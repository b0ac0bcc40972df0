/** The recorded SET operations (`SetOp`, `MathOp`, the column-with-operation
    values) and the builder base that collects them (`BaseSetBuilder`):
    multiplication and division with their shortcuts for 1 and 0, and the
    `and*` constructors of column-with-operation values. */
module SetOps {
  import opened Wrappers
  import opened Values
  import opened TypedColumn

  /** `MathOp`: the arithmetic of a column-with-operation value. */
  datatype MathOp =
    | Add | Sub | Mult | Div
    | CapAt(cap: Value)
    | FloorAt(floor: Value)
    | CoerceIn(min: Value, max: Value)

  /** `IntColOp` / `LongColOp` / `FloatColOp`: a source column, an operand and an operation. */
  datatype ColOp = ColOp(col: string, value: Value, op: MathOp)

  /** Android `ContentValues`, handed through unchanged. */
  type ContentValues = seq<(string, Value)>

  /** `SetOp`: one recorded assignment. */
  datatype SetOp =
    | Set(col: Column, value: Value)
    | SetNoty(colName: string, value: Value)
    | SetCV(cv: ContentValues)
    | Flip(col: Column)
    | NumOp(colName: string, value: Value, sqlOp: string)
    | Abs(colName: string)
    | MinMax(colName: string, value: Value, isFloorOp: bool)
    | CoerceIn(colName: string, min: Value, max: Value)
    | SetAs(setCol: string, getCol: string)
    | SetAsModified(setCol: string, colWithModif: ColOp)

  /** The `and*` helpers: a column, the operand and the operation. */
  function AndAdd(col: Column, value: Value): (r: ColOp)
    requires col.IntCol? || col.LongCol?
    ensures r.col == col.name && r.value == value && r.op.Add?
  {
    ColOp(col.name, value, Add)
  }

  function AndSub(col: Column, value: Value): (r: ColOp)
    requires col.IntCol? || col.LongCol?
    ensures r.col == col.name && r.value == value && r.op.Sub?
  {
    ColOp(col.name, value, Sub)
  }

  function AndMult(col: Column, value: Value): (r: ColOp)
    requires col.IntCol? || col.LongCol?
    ensures r.col == col.name && r.value == value && r.op.Mult?
  {
    ColOp(col.name, value, Mult)
  }

  function AndDiv(col: Column, value: Value): (r: ColOp)
    requires col.IntCol? || col.LongCol?
    ensures r.col == col.name && r.value == value && r.op.Div?
  {
    ColOp(col.name, value, Div)
  }

  /** The cap is both the operand and the operation's bound. */
  function AndCapAt(col: Column, value: Value): (r: ColOp)
    requires col.IntCol? || col.LongCol?
    ensures r.col == col.name && r.op.CapAt? && r.op.cap == r.value == value
  {
    ColOp(col.name, value, CapAt(value))
  }

  function AndFloorAt(col: Column, value: Value): (r: ColOp)
    requires col.IntCol? || col.LongCol?
    ensures r.col == col.name && r.op.FloorAt? && r.op.floor == r.value == value
  {
    ColOp(col.name, value, FloorAt(value))
  }

  /** `andCoerceIn(first..last)`: the operand is the range's first value. */
  function AndCoerceIn(col: Column, first: Value, last: Value): (r: ColOp)
    requires (col.IntCol? && first.IntV? && last.IntV?) || (col.LongCol? && first.LongV? && last.LongV?)
    ensures r.col == col.name && r.value == first && r.op == MathOp.CoerceIn(first, last)
  {
    ColOp(col.name, first, MathOp.CoerceIn(first, last))
  }

  /** What `mult` / `div` by an integer factor `v` records: nothing for 1,
      an assignment of `zero` for 0, otherwise the arithmetic operation. */
  function MultDivOps(col: Column, v: Value, zero: Value, oper: string): seq<SetOp>
    requires v.IntV? || v.LongV?
  {
    var n := if v.IntV? then v.i else v.l;
    if n == 1 then [] else if n == 0 then [Set(col, zero)] else [NumOp(col.name, v, oper)]
  }

  // A small meaning of the recorded operations on one integer column, used
  // to state what the shortcuts preserve. Integer arithmetic is unbounded
  // here and division truncates toward zero, as SQLite's does.

  function TruncDiv(a: int, b: int): int
    requires b != 0
  {
    var q := (if a < 0 then -a else a) / (if b < 0 then -b else b);
    if (a < 0) == (b < 0) then q else -q
  }

  function IntOf(v: Value): int
    requires v.IntV? || v.LongV?
  {
    if v.IntV? then v.i else v.l
  }

  /** The value of an integer column after one recorded operation on it;
      `None` when the operation is not integer arithmetic on that column or
      would divide by zero (SQLite yields NULL there). */
  function IntEffect(x: int, name: string, op: SetOp): Option<int>
  {
    match op
    case Set(c, v) => if c.name == name && (v.IntV? || v.LongV?) then Some(IntOf(v)) else None
    case NumOp(c, v, sqlOp) =>
      if c != name || !(v.IntV? || v.LongV?) then None
      else if sqlOp == "+" then Some(x + IntOf(v))
      else if sqlOp == "-" then Some(x - IntOf(v))
      else if sqlOp == "*" then Some(x * IntOf(v))
      else if sqlOp == "/" && IntOf(v) != 0 then Some(TruncDiv(x, IntOf(v)))
      else None
    case _ => None
  }

  /** The value after a sequence of recorded operations on one column. */
  function IntEffects(x: int, name: string, ops: seq<SetOp>): Option<int>
    decreases |ops|
  {
    if ops == [] then Some(x)
    else match IntEffect(x, name, ops[0])
      case None => None
      case Some(y) => IntEffects(y, name, ops[1..])
  }

  /** The 1 and 0 shortcuts of `mult` keep its meaning: the column ends up
      multiplied by the factor. */
  lemma MultShortcutsExact(x: int, col: Column, v: Value, zero: Value)
    requires v.IntV? || v.LongV?
    requires zero == IntV(0) || zero == LongV(0)
    ensures IntEffects(x, col.name, MultDivOps(col, v, zero, "*")) == Some(x * IntOf(v))
  {
  }

  /** The shortcuts of `div` keep its meaning for every non-zero divisor;
      dividing by zero assigns 0 instead of SQLite's NULL. */
  lemma DivShortcutsExact(x: int, col: Column, v: Value, zero: Value)
    requires v.IntV? || v.LongV?
    requires zero == IntV(0) || zero == LongV(0)
    ensures IntOf(v) != 0 ==> IntEffects(x, col.name, MultDivOps(col, v, zero, "/")) == Some(TruncDiv(x, IntOf(v)))
    ensures IntOf(v) == 0 ==> IntEffects(x, col.name, MultDivOps(col, v, zero, "/")) == Some(0)
  {
  }

  class SetBuilder {
    var ops: seq<SetOp>

    constructor ()
      ensures ops == []
    {
      ops := [];
    }

    /** `iMultDiv`: the factor is converted with `toInt()`, so a fractional
        factor is truncated first. */
    method IMultDiv(col: Column, value: Value, oper: string, trunc: Truncation)
      requires col.IntCol? && IsNumeric(value)
      modifies this
      ensures ops == old(ops) + MultDivOps(col, IntV(ToInt(value, trunc)), IntV(0), oper)
    {
      var v := ToInt(value, trunc);
      if v == 1 {
        return;
      }
      ops := ops + [if v == 0 then Set(col, IntV(0)) else NumOp(col.name, IntV(v), oper)];
    }

    /** `lMultDiv`: the factor is converted with `toLong()`. */
    method LMultDiv(col: Column, value: Value, oper: string, trunc: Truncation)
      requires col.LongCol? && IsNumeric(value)
      modifies this
      ensures ops == old(ops) + MultDivOps(col, LongV(ToLong(value, trunc)), LongV(0), oper)
    {
      var v := ToLong(value, trunc);
      if v == 1 {
        return;
      }
      ops := ops + [if v == 0 then Set(col, LongV(0)) else NumOp(col.name, LongV(v), oper)];
    }
  }
}
