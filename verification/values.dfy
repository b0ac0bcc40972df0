/** The Kotlin values that flow through the library: column defaults,
    comparison operands, SET operands and entity field values. */
module Values {
  import opened Text

  /** Kotlin `Int` and `Long` ranges. */
  type Int32 = x: int | -0x8000_0000 <= x < 0x8000_0000
  type Int64 = x: int | -0x8000_0000_0000_0000 <= x < 0x8000_0000_0000_0000

  /** The text `Float.toString()` / `Double.toString()` produces: digits,
      sign, point, exponent, `NaN` and `Infinity`. Floating-point values are
      kept as this text; no float arithmetic is modelled. */
  type FloatText = s: string | forall k :: 0 <= k < |s| ==> s[k] in "0123456789-.EINafinty"
    witness "0.0"

  /** Two's-complement truncation to 32 bits (`Long.toInt()`, `-Int.MIN_VALUE`). */
  function WrapInt32(x: int): (r: Int32)
    ensures -0x8000_0000 <= x < 0x8000_0000 ==> r == x
    ensures (r - x) % 0x1_0000_0000 == 0
  {
    var m := x % 0x1_0000_0000;
    if m >= 0x8000_0000 then m - 0x1_0000_0000 else m
  }

  /** Two's-complement truncation to 64 bits (`-Long.MIN_VALUE`). */
  function WrapInt64(x: int): (r: Int64)
    ensures -0x8000_0000_0000_0000 <= x < 0x8000_0000_0000_0000 ==> r == x
    ensures (r - x) % 0x1_0000_0000_0000_0000 == 0
  {
    var m := x % 0x1_0000_0000_0000_0000;
    if m >= 0x8000_0000_0000_0000 then m - 0x1_0000_0000_0000_0000 else m
  }

  datatype Value =
    | IntV(i: Int32)
    | LongV(l: Int64)
    | FloatV(f: FloatText)
    | DoubleV(d: FloatText)
    | BoolV(b: bool)
    | StrV(s: string)
    | BlobV(bytes: seq<bv8>)
    | ListV(items: seq<Value>)
    | OtherV(tag: string)

  /** Values whose `toString()` is fixed text (arrays, lists and other objects
      print a JVM identity or are not rendered by the library). */
  predicate IsScalar(v: Value)
  {
    v.IntV? || v.LongV? || v.FloatV? || v.DoubleV? || v.BoolV? || v.StrV?
  }

  /** Kotlin `Number` values. */
  predicate IsNumeric(v: Value)
  {
    v.IntV? || v.LongV? || v.FloatV? || v.DoubleV?
  }

  /** The integer part of a Float or Double, rounded toward zero (0 for
      `NaN`, a value beyond every bound for an infinity). No float
      arithmetic is modelled, so callers pass this in. */
  type Truncation = FloatText -> int

  /** The JVM's float-to-integer conversion: the truncated value, clamped
      to the target range. */
  function Saturate(x: int, lo: int, hi: int): (r: int)
    requires lo <= hi
    ensures lo <= r <= hi
    ensures lo <= x <= hi ==> r == x
  {
    if x < lo then lo else if x > hi then hi else x
  }

  /** `Number.toInt()`: an Int unchanged, a Long wrapped to 32 bits, a
      Float or Double truncated toward zero and clamped. */
  function ToInt(v: Value, trunc: Truncation): (r: Int32)
    requires IsNumeric(v)
    ensures v.IntV? ==> r == v.i
    ensures v.FloatV? ==> r == Saturate(trunc(v.f), -0x8000_0000, 0x7FFF_FFFF)
    ensures v.DoubleV? ==> r == Saturate(trunc(v.d), -0x8000_0000, 0x7FFF_FFFF)
  {
    match v
    case IntV(i) => i
    case LongV(l) => WrapInt32(l)
    case FloatV(f) => Saturate(trunc(f), -0x8000_0000, 0x7FFF_FFFF)
    case DoubleV(d) => Saturate(trunc(d), -0x8000_0000, 0x7FFF_FFFF)
  }

  /** `Number.toLong()`: an Int or Long unchanged, a Float or Double
      truncated toward zero and clamped. */
  function ToLong(v: Value, trunc: Truncation): (r: Int64)
    requires IsNumeric(v)
    ensures v.IntV? ==> r == v.i
    ensures v.LongV? ==> r == v.l
    ensures v.FloatV? ==> r == Saturate(trunc(v.f), -0x8000_0000_0000_0000, 0x7FFF_FFFF_FFFF_FFFF)
    ensures v.DoubleV? ==> r == Saturate(trunc(v.d), -0x8000_0000_0000_0000, 0x7FFF_FFFF_FFFF_FFFF)
  {
    match v
    case IntV(i) => i
    case LongV(l) => l
    case FloatV(f) => Saturate(trunc(f), -0x8000_0000_0000_0000, 0x7FFF_FFFF_FFFF_FFFF)
    case DoubleV(d) => Saturate(trunc(d), -0x8000_0000_0000_0000, 0x7FFF_FFFF_FFFF_FFFF)
  }

  function BoolDigit(b: bool): string
  {
    if b then "1" else "0"
  }

  /** `value.toString()`. */
  function ToText(v: Value): string
    requires IsScalar(v)
  {
    match v
    case IntV(i) => IntToString(i)
    case LongV(l) => IntToString(l)
    case FloatV(f) => f
    case DoubleV(d) => d
    case BoolV(b) => if b then "true" else "false"
    case StrV(s) => s
  }

  /** `if (value is Boolean) (if (value) "1" else "0") else value.toString()`. */
  function BoolSafeText(v: Value): string
    requires IsScalar(v)
  {
    if v.BoolV? then BoolDigit(v.b) else ToText(v)
  }

  /** `getBoolSafeVal`: a Boolean bound as the integer 1 or 0, anything else as is. */
  function BoolSafe(v: Value): (r: Value)
    ensures !r.BoolV?
    ensures v.BoolV? ==> r == IntV(if v.b then 1 else 0)
    ensures !v.BoolV? ==> r == v
  {
    if v.BoolV? then IntV(if v.b then 1 else 0) else v
  }
}
