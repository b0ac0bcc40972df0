/** The combinators of the public WHERE and ORDER BY DSLs: nested blocks
    spliced in with AND / OR, parenthesised groups, subqueries, and the
    conditional ORDER BY term `CASE WHEN ... THEN ... ELSE ... END`. A nested
    block is represented by what it leaves in a fresh builder. */
module QueryDsls {
  import opened Text
  import opened WhereBase
  import opened OrderBase
  import opened DslQuery

  /** `"(" + inner + ")"` has the inner placeholders and no others. */
  lemma GroupMarks(inner: seq<string>, sep: string)
    requires '?' !in sep
    ensures Marks("(" + Join(inner, sep) + ")") == MarksAll(inner)
  {
    JoinMarks(inner, sep);
    ParenMarks(Join(inner, sep));
  }

  /** `group { ... }`: a non-empty block becomes one parenthesised clause; an empty one changes nothing. */
  method Group(b: WhereBuilderBase, inner: WherePart)
    modifies b
    ensures inner.clauses == [] ==> b.clauses == old(b.clauses) && b.args == old(b.args)
    ensures inner.clauses != [] ==> b.clauses == old(b.clauses) + ["(" + inner.BuildStr() + ")"]
    ensures inner.clauses != [] ==> b.args == old(b.args) + inner.args
    ensures old(b.Aligned()) && inner.Aligned() ==> b.Aligned()
  {
    if inner.clauses == [] {
      return;
    }
    GroupMarks(inner.clauses, " ");
    MarksAllSnoc(b.clauses, "(" + inner.BuildStr() + ")");
    b.clauses := b.clauses + ["(" + inner.BuildStr() + ")"];
    b.args := b.args + inner.args;
  }

  /** `and { ... }`: a non-empty block adds `AND` and then its clauses, flattened; an empty one changes nothing. */
  method And(b: WhereBuilderBase, inner: WherePart)
    modifies b
    ensures inner.clauses == [] ==> b.clauses == old(b.clauses) && b.args == old(b.args)
    ensures inner.clauses != [] ==> b.clauses == old(b.clauses) + ["AND"] + inner.clauses
    ensures inner.clauses != [] ==> b.args == old(b.args) + inner.args
    ensures old(b.Aligned()) && inner.Aligned() ==> b.Aligned()
  {
    if inner.clauses == [] {
      return;
    }
    MarksAllConcat(b.clauses, ["AND"]);
    MarksAllConcat(b.clauses + ["AND"], inner.clauses);
    b.clauses := b.clauses + ["AND"];
    b.clauses := b.clauses + inner.clauses;
    b.args := b.args + inner.args;
  }

  /** `or { ... }`: as `and`, with `OR`. */
  method Or(b: WhereBuilderBase, inner: WherePart)
    modifies b
    ensures inner.clauses == [] ==> b.clauses == old(b.clauses) && b.args == old(b.args)
    ensures inner.clauses != [] ==> b.clauses == old(b.clauses) + ["OR"] + inner.clauses
    ensures inner.clauses != [] ==> b.args == old(b.args) + inner.args
    ensures old(b.Aligned()) && inner.Aligned() ==> b.Aligned()
  {
    if inner.clauses == [] {
      return;
    }
    MarksAllConcat(b.clauses, ["OR"]);
    MarksAllConcat(b.clauses + ["OR"], inner.clauses);
    b.clauses := b.clauses + ["OR"];
    b.clauses := b.clauses + inner.clauses;
    b.args := b.args + inner.args;
  }

  /** `andGroup { ... }`: `AND` and then the block as one parenthesised clause. */
  method AndGroup(b: WhereBuilderBase, inner: WherePart)
    modifies b
    ensures inner.clauses == [] ==> b.clauses == old(b.clauses) && b.args == old(b.args)
    ensures inner.clauses != [] ==> b.clauses == old(b.clauses) + ["AND", "(" + inner.BuildStr() + ")"]
    ensures inner.clauses != [] ==> b.args == old(b.args) + inner.args
    ensures old(b.Aligned()) && inner.Aligned() ==> b.Aligned()
  {
    if inner.clauses == [] {
      return;
    }
    MarksAllSnoc(b.clauses, "AND");
    b.clauses := b.clauses + ["AND"];
    Group(b, inner);
  }

  /** `orGroup { ... }`: `OR` and then the block as one parenthesised clause. */
  method OrGroup(b: WhereBuilderBase, inner: WherePart)
    modifies b
    ensures inner.clauses == [] ==> b.clauses == old(b.clauses) && b.args == old(b.args)
    ensures inner.clauses != [] ==> b.clauses == old(b.clauses) + ["OR", "(" + inner.BuildStr() + ")"]
    ensures inner.clauses != [] ==> b.args == old(b.args) + inner.args
    ensures old(b.Aligned()) && inner.Aligned() ==> b.Aligned()
  {
    if inner.clauses == [] {
      return;
    }
    MarksAllSnoc(b.clauses, "OR");
    b.clauses := b.clauses + ["OR"];
    Group(b, inner);
  }

  lemma SubqueryMarks(table: string, columns: seq<string>, h: DslHolder)
    ensures var q := GetQuery(table, columns, h);
      h.Aligned() && Marks(table) == 0 && MarksAll(columns) == 0 ==> Marks("(" + q.query + ")") == |q.args|
  {
    var q := GetQuery(table, columns, h);
    if h.Aligned() && Marks(table) == 0 && MarksAll(columns) == 0 {
      GetQueryBindsAllArgs(table, columns, h);
    }
    ParenMarks(q.query);
  }

  /** `subquery(table, columns) { ... }`: the inner SELECT in parentheses, for
      use inside a clause; its arguments are appended now, the clause list is untouched. */
  method Subquery(b: WhereBuilderBase, table: string, columns: seq<string>, h: DslHolder) returns (clause: string)
    modifies b
    ensures clause == "(" + GetQuery(table, columns, h).query + ")"
    ensures b.clauses == old(b.clauses)
    ensures b.args == old(b.args) + GetQuery(table, columns, h).args
    ensures h.Aligned() && Marks(table) == 0 && MarksAll(columns) == 0 ==> Marks(clause) == |GetQuery(table, columns, h).args|
  {
    var inner := GetQuery(table, columns, h);
    clause := "(" + inner.query + ")";
    SubqueryMarks(table, columns, h);
    b.args := b.args + inner.args;
  }

  // ORDER BY combinators.

  /** `and { ... }` in ORDER BY: the block's terms and arguments are appended. */
  method OrderAnd(b: OrderBuilder, inner: OrderPart)
    modifies b
    ensures b.orderoids == old(b.orderoids) + inner.orderoids
    ensures b.args == old(b.args) + inner.args
    ensures old(b.Part().Aligned()) && inner.Aligned() ==> b.Part().Aligned()
  {
    MarksAllConcat(b.orderoids, inner.orderoids);
    b.orderoids := b.orderoids + inner.orderoids;
    b.args := b.args + inner.args;
  }

  /** `group { ... }` in ORDER BY: a non-empty block becomes one parenthesised term. */
  method OrderGroup(b: OrderBuilder, inner: OrderPart)
    modifies b
    ensures inner.orderoids == [] ==> b.orderoids == old(b.orderoids) && b.args == old(b.args)
    ensures inner.orderoids != [] ==> b.orderoids == old(b.orderoids) + ["(" + inner.BuildStr() + ")"]
    ensures inner.orderoids != [] ==> b.args == old(b.args) + inner.args
    ensures old(b.Part().Aligned()) && inner.Aligned() ==> b.Part().Aligned()
  {
    if inner.orderoids != [] {
      GroupMarks(inner.orderoids, ", ");
      MarksAllSnoc(b.orderoids, "(" + inner.BuildStr() + ")");
      b.orderoids := b.orderoids + ["(" + inner.BuildStr() + ")"];
      b.args := b.args + inner.args;
    }
  }

  /** `orderWhen(orders, whens)`: one branch of a conditional ordering. */
  datatype OrderWhen = OrderWhen(whens: WherePart, orders: OrderPart)
  {
    predicate Aligned() { whens.Aligned() && orders.Aligned() }
  }

  /** The text of one branch: ` WHEN <condition> THEN <terms>`. */
  function Branch(e: OrderWhen): (r: string)
    ensures e.Aligned() ==> Marks(r) == |e.whens.args| + |e.orders.args|
  {
    JoinMarks(e.whens.clauses, " ");
    JoinMarks(e.orders.orderoids, ", ");
    MarksConcat3(" WHEN ", e.whens.BuildStr(), " THEN ");
    CountConcat('?', " WHEN " + e.whens.BuildStr() + " THEN ", e.orders.BuildStr());
    " WHEN " + e.whens.BuildStr() + " THEN " + e.orders.BuildStr()
  }

  /** The branches' texts in order. */
  function Branches(es: seq<OrderWhen>): string
  {
    if es == [] then "" else Branches(es[..|es| - 1]) + Branch(es[|es| - 1])
  }

  /** The arguments of the branches in order: per branch, the condition's and then the terms'. */
  function BranchArgs(es: seq<OrderWhen>): seq<string>
  {
    if es == [] then [] else BranchArgs(es[..|es| - 1]) + es[|es| - 1].whens.args + es[|es| - 1].orders.args
  }

  ghost predicate AllAligned(es: seq<OrderWhen>)
  {
    forall k :: 0 <= k < |es| ==> es[k].Aligned()
  }

  /** Aligned branches bind exactly their arguments. */
  lemma {:induction false} BranchesMarks(es: seq<OrderWhen>)
    requires AllAligned(es)
    ensures Marks(Branches(es)) == |BranchArgs(es)|
  {
    if es != [] {
      var init := es[..|es| - 1];
      assert AllAligned(init) by {
        forall k | 0 <= k < |init| ensures init[k].Aligned() { assert init[k] == es[k]; }
      }
      BranchesMarks(init);
      CountConcat('?', Branches(init), Branch(es[|es| - 1]));
    }
  }

  /** `case(x)`: the CASE expression around the assembled branches. */
  function Case(assembled: string): (r: string)
    ensures Marks(r) == Marks(assembled)
  {
    MarksConcat3("CASE", assembled, " END");
    "CASE" + assembled + " END"
  }

  /** The ELSE part: present only when the else block produced text. */
  function ElsePart(elseStr: string): (r: string)
    ensures elseStr == "" <==> r == ""
    ensures Marks(r) == Marks(elseStr)
  {
    if elseStr == "" then ""
    else
      CountConcat('?', " ELSE ", elseStr);
      " ELSE " + elseStr
  }

  /** The loop of `When` over its branches: the WHEN ... THEN text of each,
      while each branch's arguments are appended to the builder. */
  method AppendBranches(b: OrderBuilder, es: seq<OrderWhen>) returns (assembled: string)
    modifies b
    ensures assembled == Branches(es)
    ensures b.args == old(b.args) + BranchArgs(es)
    ensures b.orderoids == old(b.orderoids)
  {
    assembled := "";
    for i := 0 to |es|
      invariant assembled == Branches(es[..i])
      invariant b.args == old(b.args) + BranchArgs(es[..i])
      invariant b.orderoids == old(b.orderoids)
    {
      assert es[..i + 1][..i] == es[..i];
      var e := es[i];
      assert Branches(es[..i + 1]) == Branches(es[..i]) + Branch(e);
      assert BranchArgs(es[..i + 1]) == BranchArgs(es[..i]) + e.whens.args + e.orders.args;
      assembled := assembled + (" WHEN " + e.whens.BuildStr() + " THEN " + e.orders.BuildStr());
      b.args := b.args + e.whens.args + e.orders.args;
    }
    assert es[..|es|] == es;
  }

  /** `When(branches..., Else = { ... })`: appends one CASE term. The
      branches' arguments are appended in order; the else block's arguments
      are not. */
  method When(b: OrderBuilder, es: seq<OrderWhen>, elseBlock: OrderPart)
    modifies b
    ensures b.orderoids == old(b.orderoids) + [Case(Branches(es) + ElsePart(elseBlock.BuildStr()))]
    ensures b.args == old(b.args) + BranchArgs(es)
    ensures old(b.Part().Aligned()) && AllAligned(es) && elseBlock.args == [] && elseBlock.Aligned()
            ==> b.Part().Aligned()
  {
    var assembled := AppendBranches(b, es);
    var elseStr := elseBlock.BuildStr();
    if elseStr != "" {
      assembled := assembled + (" ELSE " + elseStr);
    }
    assert assembled == Branches(es) + ElsePart(elseStr);
    if old(b.Part().Aligned()) && AllAligned(es) && elseBlock.args == [] && elseBlock.Aligned() {
      CaseAligned(b.orderoids, old(b.args), es, elseBlock);
    }
    b.orderoids := b.orderoids + [Case(assembled)];
  }

  /** A CASE term over aligned branches and an else block without
      arguments keeps an aligned ordering aligned. */
  lemma CaseAligned(orderoids: seq<string>, args: seq<string>, es: seq<OrderWhen>, elseBlock: OrderPart)
    requires OrderPart(orderoids, args).Aligned() && AllAligned(es) && elseBlock.args == [] && elseBlock.Aligned()
    ensures OrderPart(orderoids + [Case(Branches(es) + ElsePart(elseBlock.BuildStr()))], args + BranchArgs(es)).Aligned()
  {
    BranchesMarks(es);
    JoinMarks(elseBlock.orderoids, ", ");
    CountConcat('?', Branches(es), ElsePart(elseBlock.BuildStr()));
    MarksAllSnoc(orderoids, Case(Branches(es) + ElsePart(elseBlock.BuildStr())));
  }

  /** The conditional ordering with the else block's arguments bound after
      the branches', so that every placeholder keeps its argument. */
  method WhenBindingElse(b: OrderBuilder, es: seq<OrderWhen>, elseBlock: OrderPart)
    modifies b
    ensures b.orderoids == old(b.orderoids) + [Case(Branches(es) + ElsePart(elseBlock.BuildStr()))]
    ensures b.args == old(b.args) + BranchArgs(es) + elseBlock.args
    ensures old(b.Part().Aligned()) && AllAligned(es) && elseBlock.Aligned() ==> b.Part().Aligned()
  {
    When(b, es, elseBlock);
    if AllAligned(es) && elseBlock.Aligned() {
      BranchesMarks(es);
      JoinMarks(elseBlock.orderoids, ", ");
      CountConcat('?', Branches(es), ElsePart(elseBlock.BuildStr()));
      MarksAllSnoc(old(b.orderoids), Case(Branches(es) + ElsePart(elseBlock.BuildStr())));
    }
    b.args := b.args + elseBlock.args;
  }

  /** As written, an else block that binds an argument leaves a `?` with
      nothing bound to it. The input is
      `When(orderWhen("name") { ID = 1 }, Else = { When(orderWhen("id") { Name = "x" }) })`:
      the else block is the CASE term the inner `When` builds, bound to
      "x", and the outer term carries two `?` while only "1" is appended. */
  lemma WhenDropsElseArgs()
    ensures var inner := OrderWhen(WherePart(["name=?"], ["x"]), OrderPart(["id"], []));
      var elseBlock := OrderPart([Case(Branches([inner]) + ElsePart(""))], BranchArgs([inner]));
      var branch := OrderWhen(WherePart(["id=?"], ["1"]), OrderPart(["name"], []));
      var term := Case(Branches([branch]) + ElsePart(elseBlock.BuildStr()));
      && inner.Aligned() && branch.Aligned() && elseBlock.Aligned()
      && Marks(term) == 2 && BranchArgs([branch]) == ["1"]
  {
    var inner := OrderWhen(WherePart(["name=?"], ["x"]), OrderPart(["id"], []));
    var branch := OrderWhen(WherePart(["id=?"], ["1"]), OrderPart(["name"], []));
    OneBranchMarks(inner);
    OneBranchMarks(branch);
    var innerTerm := Case(Branches([inner]) + ElsePart(""));
    assert Branches([inner]) + ElsePart("") == Branches([inner]);
    assert Marks(innerTerm) == 1;
    assert OrderPart([innerTerm], BranchArgs([inner])).BuildStr() == innerTerm;
    assert MarksAll([innerTerm]) == Marks(innerTerm) by { MarksAllSnoc([], innerTerm); }
    CountConcat('?', Branches([branch]), ElsePart(innerTerm));
  }

  /** One aligned branch with one condition and one placeholder-free term. */
  lemma OneBranchMarks(e: OrderWhen)
    requires |e.whens.clauses| == 1 && |e.orders.orderoids| == 1 && e.orders.args == []
    requires Marks(e.whens.clauses[0]) == |e.whens.args| && Marks(e.orders.orderoids[0]) == 0
    ensures e.Aligned()
    ensures Branches([e]) == Branch(e) && Marks(Branches([e])) == |e.whens.args|
    ensures BranchArgs([e]) == e.whens.args
  {
    MarksAllSnoc([], e.whens.clauses[0]);
    MarksAllSnoc([], e.orders.orderoids[0]);
    assert e.whens.clauses == [] + [e.whens.clauses[0]];
    assert e.orders.orderoids == [] + [e.orders.orderoids[0]];
    assert [e][..0] == [];
  }
}
