/** What the migration code sees of an entity through reflection: its
    member properties by name, each with a declared type and a value, and
    the primary constructor of an entity class, one parameter per field. */
module Entities {
  import opened Wrappers
  import opened Values

  /** A declared Kotlin type. Lists carry their element type; any other
      class is known only by name. */
  datatype Kind =
    | IntK | LongK | FloatK | DoubleK | BoolK | StringK
    | ListK(elem: Kind)
    | OtherK(name: string)

  /** `isDbPrimitive`: Int, Long, Float, Double, Boolean or String. */
  predicate IsDbPrimitive(k: Kind)
  {
    !k.ListK? && !k.OtherK?
  }

  /** `type.classifier`: the class without its type arguments. */
  function Classifier(k: Kind): Kind
  {
    if k.ListK? then ListK(OtherK("")) else k
  }

  /** `isSameListType`: both are lists with the same element type. */
  predicate SameListType(a: Kind, b: Kind)
  {
    a.ListK? && b.ListK? && a.elem == b.elem
  }

  /** One member property: declared type and current value (`None` is `null`). */
  datatype Prop = Prop(kind: Kind, value: Option<Value>)

  /** An entity instance: `memberProperties.associateBy { it.name }`. */
  type Entity = map<string, Prop>

  /** A primary-constructor parameter with the value it defaults to when
      `callBy` leaves it out. */
  datatype Param = Param(name: string, kind: Kind, default: Option<Value>)

  /** An entity class, known by its primary constructor. */
  datatype EntityClass = EntityClass(name: string, params: seq<Param>)

  /** `constructor.callBy(args)`: each parameter takes its argument when
      one is given (`None` is an explicit `null`), its default otherwise. */
  function Construct(params: seq<Param>, args: map<string, Option<Value>>): (e: Entity)
    ensures forall n :: n in e <==> exists k :: 0 <= k < |params| && params[k].name == n
    decreases |params|
  {
    if params == [] then map[]
    else
      var p := params[|params| - 1];
      var init := Construct(params[..|params| - 1], args);
      assert forall k :: 0 <= k < |params| - 1 ==> params[..|params| - 1][k] == params[k];
      init[p.name := Prop(p.kind, if p.name in args then args[p.name] else p.default)]
  }

  /** No two constructor parameters share a name. */
  predicate DistinctNames(params: seq<Param>)
  {
    forall i, j :: 0 <= i < j < |params| ==> params[i].name != params[j].name
  }

  /** With distinct parameter names, each field of the constructed entity
      is its parameter's argument or default. */
  lemma {:induction false} ConstructAt(params: seq<Param>, args: map<string, Option<Value>>, k: nat)
    requires DistinctNames(params) && k < |params|
    ensures var p := params[k];
      Construct(params, args)[p.name] == Prop(p.kind, if p.name in args then args[p.name] else p.default)
    decreases |params|
  {
    if k < |params| - 1 {
      ConstructAt(params[..|params| - 1], args, k);
    }
  }

  /** A value of the declared type. */
  predicate HasKind(v: Value, k: Kind)
  {
    match k
    case IntK => v.IntV?
    case LongK => v.LongV?
    case FloatK => v.FloatV?
    case DoubleK => v.DoubleV?
    case BoolK => v.BoolV?
    case StringK => v.StrV?
    case _ => false
  }
}
