/** The comparison vocabulary of the WHERE DSL (`WhereDslInternal`): typed
    comparisons on column descriptors, their untyped counterparts on plain
    column names, LIKE / IN variants and the `ID` / `Name` shortcuts. Every
    operation appends one clause to the builder it runs in. */
module WhereDsl {
  import opened Wrappers
  import opened Text
  import opened Values
  import opened TypedColumn
  import opened WhereBase

  /** The six comparison operators. */
  datatype CmpOp = Eq | Ne | Gt | Ge | Lt | Le
  {
    function Text(): (r: string)
      ensures Marks(r) == 0 && |r| > 0
    {
      match this
      case Eq => "="
      case Ne => "!="
      case Gt => ">"
      case Ge => ">="
      case Lt => "<"
      case Le => "<="
    }

    predicate IsOrdering() { !(Eq? || Ne?) }
  }

  /** The SQL keyword of LIKE and its negation. */
  function LikeText(negated: bool): (r: string)
    ensures Marks(r) == 0
  {
    if negated then " NOT LIKE " else " LIKE "
  }

  /** The SQL keyword of IN and its negation. */
  function InText(negated: bool): (r: string)
    ensures Marks(r) == 0
  {
    if negated then " NOT IN " else " IN "
  }

  /** Typed overloads exist for every column class but blobs; ordering
      comparisons only for the numeric ones. */
  predicate HasCompare(col: Column, op: CmpOp)
  {
    !col.BlobCol? && (op.IsOrdering() ==> col.IsNumber())
  }

  /** The argument a typed comparison binds: Booleans as 1/0, everything else as `toString()`. */
  function TypedArg(v: Value): (r: string)
    requires IsScalar(v)
    ensures v.BoolV? ==> r == BoolDigit(v.b)
    ensures v.StrV? ==> r == v.s
    ensures v.IntV? ==> r == IntToString(v.i)
  {
    BoolSafeText(v)
  }

  /** The argument an untyped comparison on a plain column name binds: only
      `equal` and `notEqual` turn Booleans into 1/0; the others bind `toString()`. */
  function UntypedArg(op: CmpOp, v: Value): (r: string)
    requires IsScalar(v)
    ensures op.IsOrdering() && v.BoolV? ==> r == (if v.b then "true" else "false")
    ensures !op.IsOrdering() && v.BoolV? ==> r == BoolDigit(v.b)
    ensures !v.BoolV? ==> r == TypedArg(v)
  {
    if op.IsOrdering() then ToText(v) else BoolSafeText(v)
  }

  /** `rawClause(str)`: the text becomes a clause as is. */
  method RawClause(b: WhereBuilderBase, str: string)
    modifies b
    ensures b.clauses == old(b.clauses) + [str] && b.args == old(b.args)
  {
    b.clauses := b.clauses + [str];
  }

  /** `a dot b`: a qualified column name. */
  function Dot(a: string, b: string := ""): (r: string)
    ensures |r| == |a| + 1 + |b|
    ensures r[..|a|] == a && r[|a|] == '.' && r[|a| + 1..] == b
  {
    a + "." + b
  }

  /** `col equal v`, `col notEqual v`, `col greater v`, ...: one clause, one argument. */
  method Compare(b: WhereBuilderBase, col: Column, op: CmpOp, value: Value)
    requires HasCompare(col, op) && col.Holds(value)
    modifies b
    ensures b.clauses == old(b.clauses) + [col.name + op.Text() + "?"]
    ensures b.args == old(b.args) + [TypedArg(value)]
    ensures old(b.Aligned()) && Marks(col.name) == 0 ==> b.Aligned()
  {
    CountConcat('?', col.name, op.Text());
    b.Condition(col.name, op.Text(), TypedArg(value));
  }

  /** `col equalCol other`, ...: compares two columns of the same class; no argument. */
  method CompareCol(b: WhereBuilderBase, col: Column, op: CmpOp, other: Column)
    requires HasCompare(col, op) && col.SameKind(other)
    modifies b
    ensures b.clauses == old(b.clauses) + [col.name + op.Text() + other.name]
    ensures b.args == old(b.args)
    ensures old(b.Aligned()) && Marks(col.name) == 0 && Marks(other.name) == 0 ==> b.Aligned()
  {
    MarksConcat3(col.name, op.Text(), other.name);
    b.ConditionRaw(col.name, op.Text(), other.name);
  }

  /** `col like v` / `col notLike v` on a text column. */
  method Like(b: WhereBuilderBase, col: Column, value: string, negated: bool)
    requires col.StrCol?
    modifies b
    ensures b.clauses == old(b.clauses) + [col.name + LikeText(negated) + "?"]
    ensures b.args == old(b.args) + [value]
    ensures old(b.Aligned()) && Marks(col.name) == 0 ==> b.Aligned()
  {
    CountConcat('?', col.name, LikeText(negated));
    b.Condition(col.name, LikeText(negated), value);
  }

  /** `col likeCol other` / `col notLikeCol other`. */
  method LikeCol(b: WhereBuilderBase, col: Column, other: Column, negated: bool)
    requires col.StrCol? && other.StrCol?
    modifies b
    ensures b.clauses == old(b.clauses) + [col.name + LikeText(negated) + other.name]
    ensures b.args == old(b.args)
  {
    b.ConditionRaw(col.name, LikeText(negated), other.name);
  }

  /** `col.likeAny(v1, ...)` / `col.notLikeAny(...)`: one placeholder per pattern. */
  method LikeAny(b: WhereBuilderBase, col: Column, values: seq<string>, negated: bool)
    requires col.StrCol?
    modifies b
    ensures b.clauses == old(b.clauses) + [MultCompareClause(col.name, LikeText(negated), |values|)]
    ensures b.args == old(b.args) + values
    ensures old(b.Aligned()) && Marks(col.name) == 0 ==> b.Aligned()
  {
    CountConcat('?', col.name, LikeText(negated));
    var vs := seq(|values|, k requires 0 <= k < |values| => StrV(values[k]));
    assert forall k :: 0 <= k < |values| ==> ToText(vs[k]) == values[k];
    ghost var before := b.args;
    b.MultCompare(col.name, LikeText(negated), vs);
    ArgsAppended(before, b.args, values);
  }

  /** A sequence that keeps `before` and then has `added` element by element is `before + added`. */
  lemma ArgsAppended(before: seq<string>, after: seq<string>, added: seq<string>)
    requires |after| == |before| + |added| && after[..|before|] == before
    requires forall k :: 0 <= k < |added| ==> after[|before| + k] == added[k]
    ensures after == before + added
  {
    forall k | 0 <= k < |after|
      ensures after[k] == (before + added)[k]
    {
      if k < |before| {
        assert after[..|before|][k] == after[k];
      } else {
        assert after[|before| + (k - |before|)] == added[k - |before|];
      }
    }
  }

  /** The names of the given columns, in order. */
  function Names(cols: seq<Column>): (r: seq<string>)
    ensures |r| == |cols| && forall k :: 0 <= k < |cols| ==> r[k] == cols[k].name
  {
    seq(|cols|, k requires 0 <= k < |cols| => cols[k].name)
  }

  /** `col.likeAnyCol(c1, ...)`: matches any of the columns (OR); the negated
      form must match none (AND). */
  method LikeAnyCol(b: WhereBuilderBase, col: Column, others: seq<Column>, negated: bool)
    requires col.StrCol? && forall k :: 0 <= k < |others| ==> others[k].StrCol?
    modifies b
    ensures b.clauses == old(b.clauses) + [MultCompareRawClause(col.name, LikeText(negated), Names(others), !negated)]
    ensures b.args == old(b.args)
  {
    b.MultCompareRaw(col.name, LikeText(negated), Names(others), !negated);
  }

  /** The arguments bound by a typed `equalAny` / `notEqualAny`. */
  function TypedArgs(values: seq<Value>): (r: seq<string>)
    requires forall k :: 0 <= k < |values| ==> IsScalar(values[k])
    ensures |r| == |values| && forall k :: 0 <= k < |values| ==> r[k] == TypedArg(values[k])
  {
    seq(|values|, k requires 0 <= k < |values| => TypedArg(values[k]))
  }

  /** `col.equalAny(v1, ...)` uses IN, `col.notEqualAny(...)` NOT IN; one
      argument per value in order, Booleans as 1/0. */
  method EqualAny(b: WhereBuilderBase, col: Column, values: seq<Value>, negated: bool)
    requires !col.BlobCol? && forall k :: 0 <= k < |values| ==> col.Holds(values[k]) && IsScalar(values[k])
    modifies b
    ensures b.clauses == old(b.clauses) + [MultCompareClause(col.name, InText(negated), |values|)]
    ensures b.args == old(b.args) + TypedArgs(values)
    ensures old(b.Aligned()) && Marks(col.name) == 0 ==> b.Aligned()
  {
    CountConcat('?', col.name, InText(negated));
    // Boolean columns render their values to "1"/"0" before the call.
    var vs := if col.BoolCol? then seq(|values|, k requires 0 <= k < |values| => StrV(TypedArg(values[k])))
              else values;
    assert forall k :: 0 <= k < |values| ==> ToText(vs[k]) == TypedArg(values[k]);
    ghost var before := b.args;
    b.MultCompare(col.name, InText(negated), vs);
    ArgsAppended(before, b.args, TypedArgs(values));
  }

  // Untyped comparisons on plain column names.

  /** `"col" equal v`, `"col" greater v`, ... */
  method CompareNamed(b: WhereBuilderBase, column: string, op: CmpOp, value: Value)
    requires IsScalar(value)
    modifies b
    ensures b.clauses == old(b.clauses) + [column + op.Text() + "?"]
    ensures b.args == old(b.args) + [UntypedArg(op, value)]
    ensures old(b.Aligned()) && Marks(column) == 0 ==> b.Aligned()
  {
    CountConcat('?', column, op.Text());
    b.Condition(column, op.Text(), UntypedArg(op, value));
  }

  /** `"col" equalCol "other"`, ... */
  method CompareNamedCol(b: WhereBuilderBase, column: string, op: CmpOp, otherCol: string)
    modifies b
    ensures b.clauses == old(b.clauses) + [column + op.Text() + otherCol]
    ensures b.args == old(b.args)
  {
    b.ConditionRaw(column, op.Text(), otherCol);
  }

  /** `"col" like v` / `notLike v`: binds `toString()` of any value. */
  method LikeNamed(b: WhereBuilderBase, column: string, value: Value, negated: bool)
    requires IsScalar(value)
    modifies b
    ensures b.clauses == old(b.clauses) + [column + LikeText(negated) + "?"]
    ensures b.args == old(b.args) + [ToText(value)]
  {
    b.Condition(column, LikeText(negated), ToText(value));
  }

  /** `"col" likeCol "other"` / `notLikeCol`. */
  method LikeNamedCol(b: WhereBuilderBase, column: string, otherCol: string, negated: bool)
    modifies b
    ensures b.clauses == old(b.clauses) + [column + LikeText(negated) + otherCol]
    ensures b.args == old(b.args)
  {
    b.ConditionRaw(column, LikeText(negated), otherCol);
  }

  /** `"col".likeAny(...)` / `notLikeAny(...)`: binds `toString()` of each value. */
  method LikeAnyNamed(b: WhereBuilderBase, column: string, values: seq<Value>, negated: bool)
    requires forall k :: 0 <= k < |values| ==> IsScalar(values[k])
    modifies b
    ensures b.clauses == old(b.clauses) + [MultCompareClause(column, LikeText(negated), |values|)]
    ensures |b.args| == |old(b.args)| + |values| && b.args[..|old(b.args)|] == old(b.args)
    ensures forall k :: 0 <= k < |values| ==> b.args[|old(b.args)| + k] == ToText(values[k])
  {
    b.MultCompare(column, LikeText(negated), values);
  }

  /** `"col".likeAnyCol(...)` / `notLikeAnyCol(...)`. */
  method LikeAnyNamedCol(b: WhereBuilderBase, column: string, otherCols: seq<string>, negated: bool)
    modifies b
    ensures b.clauses == old(b.clauses) + [MultCompareRawClause(column, LikeText(negated), otherCols, !negated)]
    ensures b.args == old(b.args)
  {
    b.MultCompareRaw(column, LikeText(negated), otherCols, !negated);
  }

  /** `"col".equalAny(...)` / `notEqualAny(...)`: binds `toString()` of each
      value, so a Boolean binds "true" or "false" here. */
  method EqualAnyNamed(b: WhereBuilderBase, column: string, values: seq<Value>, negated: bool)
    requires forall k :: 0 <= k < |values| ==> IsScalar(values[k])
    modifies b
    ensures b.clauses == old(b.clauses) + [MultCompareClause(column, InText(negated), |values|)]
    ensures |b.args| == |old(b.args)| + |values| && b.args[..|old(b.args)|] == old(b.args)
    ensures forall k :: 0 <= k < |values| ==> b.args[|old(b.args)| + k] == ToText(values[k])
  {
    b.MultCompare(column, InText(negated), values);
  }

  /** Setting `ID = v` adds the condition `id=?` bound to `v`. */
  method SetID(b: WhereBuilderBase, value: Int32)
    modifies b
    ensures b.clauses == old(b.clauses) + ["id=?"]
    ensures b.args == old(b.args) + [IntToString(value)]
    ensures old(b.Aligned()) ==> b.Aligned()
  {
    assert "id" + "=" + "?" == "id=?";
    b.Condition("id", "=", IntToString(value));
  }

  /** Setting `Name = v` adds the condition `name=?` bound to `v`. */
  method SetName(b: WhereBuilderBase, value: string)
    modifies b
    ensures b.clauses == old(b.clauses) + ["name=?"]
    ensures b.args == old(b.args) + [value]
    ensures old(b.Aligned()) ==> b.Aligned()
  {
    assert "name" + "=" + "?" == "name=?";
    b.Condition("name", "=", value);
  }

  /** `ID` and `Name` are write-only: reading either is an error. */
  function ReadID(): (r: Result<Int32>)
    ensures r.Failure?
  {
    Failure("id is write-only")
  }

  function ReadName(): (r: Result<string>)
    ensures r.Failure?
  {
    Failure("Name is write-only")
  }
}
