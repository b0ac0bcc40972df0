/** `TransformColDslInternal`: per-field value overrides used while an
    entity is converted to the next version. The handlers the user writes
    are opaque Kotlin lambdas and become function values here. */
module TransformCol {
  import opened Wrappers
  import opened Values

  /** `FieldOverride`: the handlers a `modify` block sets; `None` is an
      unset handler. Each handler returns a non-null value; the fallback
      may return `null`. */
  datatype FieldOverride = FieldOverride(
    fallback: Option<() -> Option<Value>>,
    fromInt: Option<Int32 -> Value>,
    fromLong: Option<Int64 -> Value>,
    fromFloat: Option<FloatText -> Value>,
    fromDouble: Option<FloatText -> Value>,
    fromBoolean: Option<bool -> Value>,
    fromString: Option<string -> Value>,
    fromOther: Option<Value -> Value>,
    finalTransform: Option<Value -> Value>)
  {
    /** The type-specific handler's result for `v`, when that handler is set. */
    function Typed(v: Value): (r: Option<Value>)
      ensures v.IntV? ==> (r.Some? <==> fromInt.Some?)
      ensures v.LongV? ==> (r.Some? <==> fromLong.Some?)
      ensures v.FloatV? ==> (r.Some? <==> fromFloat.Some?)
      ensures v.DoubleV? ==> (r.Some? <==> fromDouble.Some?)
      ensures v.BoolV? ==> (r.Some? <==> fromBoolean.Some?)
      ensures v.StrV? ==> (r.Some? <==> fromString.Some?)
      ensures !IsScalar(v) ==> r.None?
    {
      match v
      case IntV(i) => if fromInt.Some? then Some(fromInt.value(i)) else None
      case LongV(l) => if fromLong.Some? then Some(fromLong.value(l)) else None
      case FloatV(f) => if fromFloat.Some? then Some(fromFloat.value(f)) else None
      case DoubleV(d) => if fromDouble.Some? then Some(fromDouble.value(d)) else None
      case BoolV(b) => if fromBoolean.Some? then Some(fromBoolean.value(b)) else None
      case StrV(s) => if fromString.Some? then Some(fromString.value(s)) else None
      case _ => None
    }

    /** The value before `finalTransform`: the typed handler, else
        `fromOther`, else the value itself. */
    function Converted(v: Value): Value
    {
      match Typed(v)
      case Some(x) => x
      case None => if fromOther.Some? then fromOther.value(v) else v
    }

    /** `apply(value)`. */
    function Apply(value: Option<Value>): (r: Option<Value>)
      ensures value.None? && fallback.None? ==> r.None?
      ensures value.Some? ==> r.Some?
    {
      match value
      case None => if fallback.Some? then fallback.value() else None
      case Some(v) =>
        var x := Converted(v);
        Some(if finalTransform.Some? then finalTransform.value(x) else x)
    }

    /** The same override without its `finalTransform`. */
    function WithoutFinal(): FieldOverride
    {
      this.(finalTransform := None)
    }
  }

  /** An override with no handler set. */
  const Blank := FieldOverride(None, None, None, None, None, None, None, None, None)

  /** An override with nothing set hands back `null` for `null` and every
      other value unchanged. */
  lemma BlankIsIdentity(value: Option<Value>)
    ensures Blank.Apply(value) == value
  {
    if value.Some? {
      assert Blank.Typed(value.value).None?;
    }
  }

  /** A set type-specific handler decides the value before `fromOther`. */
  lemma TypedHandlerWins(o: FieldOverride, v: Value)
    requires o.Typed(v).Some? && o.finalTransform.None?
    ensures o.Apply(Some(v)) == o.Typed(v)
  {
  }

  /** Without a typed handler, `fromOther` decides; without either, the
      value passes through. */
  lemma OtherThenUnchanged(o: FieldOverride, v: Value)
    requires o.Typed(v).None? && o.finalTransform.None?
    ensures o.fromOther.Some? ==> o.Apply(Some(v)) == Some(o.fromOther.value(v))
    ensures o.fromOther.None? ==> o.Apply(Some(v)) == Some(v)
  {
  }

  /** `finalTransform` runs last, on what the rest of the override gives,
      and only for a non-null value. */
  lemma FinalRunsLast(o: FieldOverride, value: Option<Value>)
    requires o.finalTransform.Some?
    ensures value.Some? ==> o.Apply(value) == Some(o.finalTransform.value(o.WithoutFinal().Apply(value).value))
    ensures value.None? ==> o.Apply(value) == o.WithoutFinal().Apply(value)
  {
    if value.Some? {
      assert o.WithoutFinal().Converted(value.value) == o.Converted(value.value);
    }
  }

  /** The overrides registered by `modify`, by field name. */
  class TransformColDsl {
    var overrides: map<string, FieldOverride>

    constructor()
      ensures overrides == map[]
    {
      overrides := map[];
    }

    /** `modify(fieldName) { … }`: the override the block configures
        replaces any earlier one for that field. */
    method Modify(fieldName: string, o: FieldOverride)
      modifies this
      ensures overrides == old(overrides)[fieldName := o]
      ensures GetOverride(fieldName) == Some(o)
      ensures forall n :: n != fieldName ==> GetOverride(n) == old(GetOverride(n))
    {
      overrides := overrides[fieldName := o];
    }

    /** `getOverride(fieldName)`: `null` for a field never registered. */
    function GetOverride(fieldName: string): (r: Option<FieldOverride>)
      reads this
      ensures r.None? <==> fieldName !in overrides
      ensures r.Some? ==> r.value == overrides[fieldName]
    {
      if fieldName in overrides then Some(overrides[fieldName]) else None
    }
  }
}
