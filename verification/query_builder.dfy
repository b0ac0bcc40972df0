/** The first-generation query builder (`core/QueryBuilder.kt`): a SELECT
    assembled from a JOIN builder, a WHERE builder and plain strings, a WHERE
    builder over plain column names, and a JOIN builder. Unlike the DSL
    combinators, its `group`, `and` and `or` do not skip empty blocks. */
module LegacyQuery {
  import opened Wrappers
  import opened Text
  import opened Values
  import opened WhereBase
  import opened WhereDsl
  import DslQuery

  /** A parenthesized group of aligned clauses keeps aligned clauses
      aligned. */
  lemma GroupAligned(clauses: seq<string>, args: seq<string>, inner: WherePart)
    requires WherePart(clauses, args).Aligned() && inner.Aligned()
    ensures WherePart(clauses + ["(" + inner.BuildStr() + ")"], args + inner.args).Aligned()
  {
    JoinMarks(inner.clauses, " ");
    ParenMarks(inner.BuildStr());
    MarksAllSnoc(clauses, "(" + inner.BuildStr() + ")");
  }

  /** GROUP BY, HAVING and ORDER BY, each shown only for non-blank text. */
  function Grouping(groupBy: string, having: string, orderBy: string): (r: string)
    ensures Marks(r) == Marks(groupBy) + Marks(having) + Marks(orderBy)
  {
    DslQuery.KeywordsPlain();
    MarksConcat3(DslQuery.TextSection(" GROUP BY ", groupBy), DslQuery.TextSection(" HAVING ", having),
                 DslQuery.TextSection(" ORDER BY ", orderBy));
    DslQuery.TextSection(" GROUP BY ", groupBy) + DslQuery.TextSection(" HAVING ", having)
    + DslQuery.TextSection(" ORDER BY ", orderBy)
  }

  /** LIMIT, OFFSET and the custom end. */
  function Ending(limit: Option<Int32>, offset: Option<Int32>, customEnd: string): (r: string)
    ensures Marks(customEnd) == 0 ==> Marks(r) == 0
  {
    var l, f, e := DslQuery.NumberSection(" LIMIT ", limit), DslQuery.NumberSection(" OFFSET ", offset),
                   DslQuery.EndSection(customEnd);
    DslQuery.NumbersPlain();
    MarksConcat3(l, f, e);
    l + f + e
  }

  /** Everything after the SELECT head, in the fixed section order. */
  function Sections(joins: seq<string>, where: WherePart, groupBy: string, having: string, orderBy: string,
                    limit: Option<Int32>, offset: Option<Int32>, customEnd: string): (r: string)
    ensures Marks(customEnd) == 0 ==>
      Marks(r) == MarksAll(joins) + MarksAll(where.clauses) + Marks(groupBy) + Marks(having) + Marks(orderBy)
  {
    var j, w := DslQuery.JoinSection(DslQuery.JoinPart(joins, [])), DslQuery.WhereSection(where);
    var g, e := Grouping(groupBy, having, orderBy), Ending(limit, offset, customEnd);
    MarksConcat3(j, w, g);
    CountConcat('?', j + w + g, e);
    j + w + g + e
  }

  /** `getQuery(table, columns, joins, where, groupBy, having, orderBy, limit, offset, customEnd)`. */
  function GetQuery(table: string, columns: seq<string>, joins: seq<string>, where: WherePart,
                    groupBy: string, having: string, orderBy: string,
                    limit: Option<Int32>, offset: Option<Int32>, customEnd: string): (r: DslQuery.QueryWithArgs)
    ensures |DslQuery.Select(table, columns)| <= |r.query|
    ensures r.query[..|DslQuery.Select(table, columns)|] == DslQuery.Select(table, columns)
    ensures r.args == where.args
  {
    DslQuery.QueryWithArgs(
      DslQuery.Select(table, columns) + Sections(joins, where, groupBy, having, orderBy, limit, offset, customEnd),
      where.args)
  }

  /** The legacy query binds exactly the WHERE arguments when the WHERE clauses
      are aligned and no other text holds a `?`. */
  lemma GetQueryBindsAllArgs(table: string, columns: seq<string>, joins: seq<string>, where: WherePart,
                             groupBy: string, having: string, orderBy: string,
                             limit: Option<Int32>, offset: Option<Int32>, customEnd: string)
    requires where.Aligned() && Marks(table) == 0 && MarksAll(columns) == 0 && MarksAll(joins) == 0
    requires Marks(groupBy) == 0 && Marks(having) == 0 && Marks(orderBy) == 0 && Marks(customEnd) == 0
    ensures var r := GetQuery(table, columns, joins, where, groupBy, having, orderBy, limit, offset, customEnd);
      Marks(r.query) == |r.args|
  {
    CountConcat('?', DslQuery.Select(table, columns),
                Sections(joins, where, groupBy, having, orderBy, limit, offset, customEnd));
  }

  /** The legacy `WhereBuilder`. */
  class WhereBuilder {
    var clauses: seq<string>
    var args: seq<string>

    constructor ()
      ensures clauses == [] && args == []
    {
      clauses := [];
      args := [];
    }

    function Part(): WherePart
      reads this
    {
      WherePart(clauses, args)
    }

    method Condition(column: string, operator: string, value: string)
      modifies this
      ensures clauses == old(clauses) + [column + operator + "?"]
      ensures args == old(args) + [value]
    {
      clauses := clauses + [column + operator + "?"];
      args := args + [value];
    }

    method ConditionRaw(column: string, operator: string, otherColumn: string)
      modifies this
      ensures clauses == old(clauses) + [column + operator + otherColumn]
      ensures args == old(args)
    {
      clauses := clauses + [column + operator + otherColumn];
    }

    /** `"col" equal v`, `notEqual`, `greater`, ...: equality binds Booleans as
        1/0, the ordering comparisons bind `toString()`. */
    method Compare(column: string, op: CmpOp, value: Value)
      requires IsScalar(value)
      modifies this
      ensures clauses == old(clauses) + [column + op.Text() + "?"]
      ensures args == old(args) + [UntypedArg(op, value)]
      ensures old(Part().Aligned()) && Marks(column) == 0 ==> Part().Aligned()
    {
      MarksAllSnoc(clauses, column + op.Text() + "?");
      MarksConcat3(column, op.Text(), "?");
      Condition(column, op.Text(), UntypedArg(op, value));
    }

    /** `"col" equalCol "other"`, ... */
    method CompareCol(column: string, op: CmpOp, other: string)
      modifies this
      ensures clauses == old(clauses) + [column + op.Text() + other]
      ensures args == old(args)
    {
      ConditionRaw(column, op.Text(), other);
    }

    /** `group { ... }`: the block's clauses in parentheses, even when there are none. */
    method Group(inner: WherePart)
      modifies this
      ensures clauses == old(clauses) + ["(" + inner.BuildStr() + ")"]
      ensures args == old(args) + inner.args
      ensures old(Part().Aligned()) && inner.Aligned() ==> Part().Aligned()
    {
      if Part().Aligned() && inner.Aligned() {
        GroupAligned(clauses, args, inner);
      }
      clauses := clauses + ["(" + inner.BuildStr() + ")"];
      args := args + inner.args;
    }

    /** `and { ... }`: `AND` and then the block's clauses, even when there are none. */
    method And(inner: WherePart)
      modifies this
      ensures clauses == old(clauses) + ["AND"] + inner.clauses
      ensures args == old(args) + inner.args
      ensures old(Part().Aligned()) && inner.Aligned() ==> Part().Aligned()
      ensures inner.clauses == [] ==>
        DslQuery.WhereSection(Part())
        == (if old(clauses) == [] then " WHERE " else DslQuery.WhereSection(old(Part())) + " ") + "AND"
    {
      var before := Part();
      MarksAllConcat(clauses, ["AND"]);
      MarksAllConcat(clauses + ["AND"], inner.clauses);
      clauses := clauses + ["AND"];
      clauses := clauses + inner.clauses;
      args := args + inner.args;
      if inner.clauses == [] {
        EmptyAndLeavesKeyword(before);
        assert Part() == WherePart(before.clauses + ["AND"], before.args + inner.args);
      }
    }

    method AndGroup(inner: WherePart)
      modifies this
      ensures clauses == old(clauses) + ["AND", "(" + inner.BuildStr() + ")"]
      ensures args == old(args) + inner.args
    {
      clauses := clauses + ["AND"];
      Group(inner);
    }

    /** `or { ... }`: `OR` and then the block's clauses, even when there are none. */
    method Or(inner: WherePart)
      modifies this
      ensures clauses == old(clauses) + ["OR"] + inner.clauses
      ensures args == old(args) + inner.args
      ensures old(Part().Aligned()) && inner.Aligned() ==> Part().Aligned()
    {
      MarksAllConcat(clauses, ["OR"]);
      MarksAllConcat(clauses + ["OR"], inner.clauses);
      clauses := clauses + ["OR"];
      clauses := clauses + inner.clauses;
      args := args + inner.args;
    }

    method OrGroup(inner: WherePart)
      modifies this
      ensures clauses == old(clauses) + ["OR", "(" + inner.BuildStr() + ")"]
      ensures args == old(args) + inner.args
    {
      clauses := clauses + ["OR"];
      Group(inner);
    }

    /** `subquery(...)`: the inner legacy query in parentheses; its arguments are appended. */
    method Subquery(table: string, columns: seq<string>, joins: seq<string>, where: WherePart,
                    groupBy: string, having: string, orderBy: string,
                    limit: Option<Int32>, offset: Option<Int32>, customEnd: string) returns (clause: string)
      modifies this
      ensures clause == "(" + GetQuery(table, columns, joins, where, groupBy, having, orderBy, limit, offset, customEnd).query + ")"
      ensures clauses == old(clauses)
      ensures args == old(args) + where.args
    {
      var inner := GetQuery(table, columns, joins, where, groupBy, having, orderBy, limit, offset, customEnd);
      clause := "(" + inner.query + ")";
      args := args + inner.args;
    }

    method RawClause(str: string)
      modifies this
      ensures clauses == old(clauses) + [str] && args == old(args)
    {
      clauses := clauses + [str];
    }
  }

  /** Unlike the DSL's `and`, which skips an empty block, an empty `and {}`
      here still adds its keyword: from any clauses, the WHERE section then
      ends in a lone `AND` with nothing after it. */
  lemma EmptyAndLeavesKeyword(before: WherePart)
    ensures DslQuery.WhereSection(WherePart(before.clauses + ["AND"], before.args))
            == (if before.clauses == [] then " WHERE " else DslQuery.WhereSection(before) + " ") + "AND"
  {
    var c := before.clauses + ["AND"];
    assert c[..|c| - 1] == before.clauses;
  }

  /** The legacy `JoinBuilder`. */
  class JoinBuilder {
    var joins: seq<string>

    constructor ()
      ensures joins == []
    {
      joins := [];
    }

    method Inner(table: string, on: string)
      modifies this
      ensures joins == old(joins) + ["INNER JOIN " + table + " ON " + on]
    {
      joins := joins + ["INNER JOIN " + table + " ON " + on];
    }

    method Left(table: string, on: string)
      modifies this
      ensures joins == old(joins) + ["LEFT JOIN " + table + " ON " + on]
    {
      joins := joins + ["LEFT JOIN " + table + " ON " + on];
    }

    method Cross(table: string)
      modifies this
      ensures joins == old(joins) + ["CROSS JOIN " + table]
    {
      joins := joins + ["CROSS JOIN " + table];
    }
  }
}
