/** The ORDER BY builder base (`OrderByBuilderInternal`, the base of
    `OrderDsl`): a list of ordering terms and the arguments bound by the `?`
    placeholders inside them. */
module OrderBase {
  import opened Text
  import opened TypedColumn

  /** What an ORDER BY block leaves in a fresh builder. */
  datatype OrderPart = OrderPart(orderoids: seq<string>, args: seq<string>)
  {
    /** `buildStr()`: the terms separated by `", "`. */
    function BuildStr(): string { Join(orderoids, ", ") }

    predicate Aligned() { MarksAll(orderoids) == |args| }
  }

  const EmptyOrder := OrderPart([], [])

  /** The ascending term of a column (its name) or the descending one (`name DESC`). */
  function Term(col: Column, descending: bool): string
  {
    if descending then col.name + " DESC" else col.name
  }

  /** The terms `asc(...)` / `desc(...)` add, one per column in order. */
  function Terms(cols: seq<Column>, descending: bool): (r: seq<string>)
    ensures |r| == |cols|
    ensures forall k :: 0 <= k < |cols| ==> r[k] == Term(cols[k], descending)
  {
    seq(|cols|, k requires 0 <= k < |cols| => Term(cols[k], descending))
  }

  class OrderBuilder {
    var orderoids: seq<string>
    var args: seq<string>

    constructor ()
      ensures orderoids == [] && args == []
    {
      orderoids := [];
      args := [];
    }

    function Part(): OrderPart
      reads this
    {
      OrderPart(orderoids, args)
    }

    function BuildStr(): (r: string)
      reads this
      ensures r == Part().BuildStr()
    {
      Join(orderoids, ", ")
    }

    /** `asc(c1, ...)` (and `c()` for one column): each name, in order. */
    method Asc(cols: seq<Column>)
      modifies this
      ensures orderoids == old(orderoids) + Terms(cols, false)
      ensures args == old(args)
    {
      for i := 0 to |cols|
        invariant orderoids == old(orderoids) + Terms(cols[..i], false)
        invariant args == old(args)
      {
        assert Terms(cols[..i + 1], false) == Terms(cols[..i], false) + [cols[i].name];
        orderoids := orderoids + [cols[i].name];
      }
      assert cols[..|cols|] == cols;
    }

    /** `desc(c1, ...)` (and `c.desc()`): each `name DESC`, in order. */
    method Desc(cols: seq<Column>)
      modifies this
      ensures orderoids == old(orderoids) + Terms(cols, true)
      ensures args == old(args)
    {
      for i := 0 to |cols|
        invariant orderoids == old(orderoids) + Terms(cols[..i], true)
        invariant args == old(args)
      {
        assert Terms(cols[..i + 1], true) == Terms(cols[..i], true) + [cols[i].name + " DESC"];
        orderoids := orderoids + [cols[i].name + " DESC"];
      }
      assert cols[..|cols|] == cols;
    }

    /** `raw(s1, ...)`: each text as a term, in order. */
    method Raw(strings: seq<string>)
      modifies this
      ensures orderoids == old(orderoids) + strings
      ensures args == old(args)
    {
      for i := 0 to |strings|
        invariant orderoids == old(orderoids) + strings[..i]
        invariant args == old(args)
      {
        assert strings[..i + 1] == strings[..i] + [strings[i]];
        orderoids := orderoids + [strings[i]];
      }
      assert strings[..|strings|] == strings;
    }
  }
}
