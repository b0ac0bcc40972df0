/** SELECT assembly from the three DSL blocks (`getQuery(table, columns,
    dslHolder)`): a fixed section order, sections present only when their
    block produced something, and the arguments of the JOIN, WHERE and
    ORDER BY blocks concatenated in that order. */
module DslQuery {
  import opened Wrappers
  import opened Text
  import opened Values
  import opened WhereBase
  import opened OrderBase

  /** What a JOIN block leaves in a fresh builder; its terms are separated by a space. */
  datatype JoinPart = JoinPart(joins: seq<string>, args: seq<string>)
  {
    function BuildStr(): string { Join(joins, " ") }

    predicate Aligned() { MarksAll(joins) == |args| }
  }

  const EmptyJoin := JoinPart([], [])

  /** `FullDslHolder`: the outcome of the JOIN, WHERE and ORDER BY blocks plus the plain sections. */
  datatype DslHolder = DslHolder(
    joins: JoinPart,
    where: WherePart,
    orderBy: OrderPart,
    groupBy: string,
    having: string,
    limit: Option<Int32>,
    offset: Option<Int32>,
    customEnd: string)
  {
    /** Every block binds exactly its placeholders, and the plain sections hold none. */
    predicate Aligned()
    {
      joins.Aligned() && where.Aligned() && orderBy.Aligned()
      && Marks(groupBy) == 0 && Marks(having) == 0 && Marks(customEnd) == 0
    }
  }

  const DefaultHolder := DslHolder(EmptyJoin, EmptyWhere, EmptyOrder, "", "", None, None, "")

  datatype QueryWithArgs = QueryWithArgs(query: string, args: seq<string>)

  /** `"SELECT " + columns + " FROM " + table`. */
  function Select(table: string, columns: seq<string>): (r: string)
    ensures Marks(r) == MarksAll(columns) + Marks(table)
  {
    JoinMarks(columns, ", ");
    MarksConcat3("SELECT ", Join(columns, ", "), " FROM ");
    CountConcat('?', "SELECT " + Join(columns, ", ") + " FROM ", table);
    "SELECT " + Join(columns, ", ") + " FROM " + table
  }

  /** A section shown only when its block produced terms. */
  function JoinSection(j: JoinPart): (r: string)
    ensures r == "" <==> j.joins == []
    ensures Marks(r) == MarksAll(j.joins)
  {
    if j.joins == [] then ""
    else
      JoinMarks(j.joins, " ");
      CountConcat('?', " ", j.BuildStr());
      " " + j.BuildStr()
  }

  function WhereSection(w: WherePart): (r: string)
    ensures r == "" <==> w.clauses == []
    ensures Marks(r) == MarksAll(w.clauses)
  {
    if w.clauses == [] then ""
    else
      JoinMarks(w.clauses, " ");
      CountConcat('?', " WHERE ", w.BuildStr());
      " WHERE " + w.BuildStr()
  }

  function OrderSection(o: OrderPart): (r: string)
    ensures r == "" <==> o.orderoids == []
    ensures Marks(r) == MarksAll(o.orderoids)
  {
    if o.orderoids == [] then ""
    else
      JoinMarks(o.orderoids, ", ");
      CountConcat('?', " ORDER BY ", o.BuildStr());
      " ORDER BY " + o.BuildStr()
  }

  /** A keyword section (GROUP BY, HAVING) shown only for non-blank text. */
  function TextSection(keyword: string, text: string): (r: string)
    ensures IsBlank(text) <==> r == ""
    ensures Marks(keyword) == 0 ==> Marks(r) == Marks(text)
  {
    if IsBlank(text) then
      BlankNoMarks(text);
      ""
    else
      CountConcat('?', keyword, text);
      keyword + text
  }

  /** A numeric section (LIMIT, OFFSET) shown only when the number is given. */
  function NumberSection(keyword: string, n: Option<Int32>): (r: string)
    ensures n.None? <==> r == ""
    ensures Marks(keyword) == 0 ==> Marks(r) == 0
  {
    match n
    case None => ""
    case Some(v) =>
      IntToStringNoMark(v);
      CountConcat('?', keyword, IntToString(v));
      keyword + IntToString(v)
  }

  /** The custom end is appended as is, with no separator, when not blank. */
  function EndSection(customEnd: string): (r: string)
    ensures IsBlank(customEnd) ==> r == ""
    ensures !IsBlank(customEnd) ==> r == customEnd
  {
    if IsBlank(customEnd) then "" else customEnd
  }

  /** The section keywords hold no `?`. */
  lemma KeywordsPlain()
    ensures Marks(" GROUP BY ") == 0 && Marks(" HAVING ") == 0 && Marks(" ORDER BY ") == 0
  {
    GroupByPlain();
    HavingPlain();
    OrderByPlain();
  }

  lemma GroupByPlain()
    ensures Marks(" GROUP BY ") == 0
  {
    CountAbsent('?', " GROUP BY ");
  }

  lemma HavingPlain()
    ensures Marks(" HAVING ") == 0
  {
    CountAbsent('?', " HAVING ");
  }

  lemma OrderByPlain()
    ensures Marks(" ORDER BY ") == 0
  {
    CountAbsent('?', " ORDER BY ");
  }

  lemma NumbersPlain()
    ensures Marks(" LIMIT ") == 0 && Marks(" OFFSET ") == 0
  {
    CountAbsent('?', " LIMIT ");
    CountAbsent('?', " OFFSET ");
  }

  /** GROUP BY and HAVING. */
  function Grouping(h: DslHolder): (r: string)
    ensures h.Aligned() ==> Marks(r) == 0
  {
    GroupByPlain();
    HavingPlain();
    CountConcat('?', TextSection(" GROUP BY ", h.groupBy), TextSection(" HAVING ", h.having));
    TextSection(" GROUP BY ", h.groupBy) + TextSection(" HAVING ", h.having)
  }

  /** LIMIT, OFFSET and the custom end. */
  function Ending(h: DslHolder): (r: string)
    ensures h.Aligned() ==> Marks(r) == 0
  {
    NumbersPlain();
    CountConcat('?', NumberSection(" LIMIT ", h.limit), NumberSection(" OFFSET ", h.offset));
    CountConcat('?', NumberSection(" LIMIT ", h.limit) + NumberSection(" OFFSET ", h.offset), EndSection(h.customEnd));
    NumberSection(" LIMIT ", h.limit) + NumberSection(" OFFSET ", h.offset) + EndSection(h.customEnd)
  }

  /** Everything after the SELECT head, in the fixed section order. */
  function Sections(h: DslHolder): (r: string)
    ensures h.Aligned() ==> Marks(r) == |h.joins.args| + |h.where.args| + |h.orderBy.args|
  {
    var j, w, g, o, e := JoinSection(h.joins), WhereSection(h.where), Grouping(h), OrderSection(h.orderBy), Ending(h);
    CountConcat('?', j, w);
    CountConcat('?', j + w, g);
    CountConcat('?', j + w + g, o);
    CountConcat('?', j + w + g + o, e);
    j + w + g + o + e
  }

  function GetQuery(table: string, columns: seq<string>, h: DslHolder): (r: QueryWithArgs)
    ensures |Select(table, columns)| <= |r.query| && r.query[..|Select(table, columns)|] == Select(table, columns)
    ensures r.args == h.joins.args + h.where.args + h.orderBy.args
  {
    QueryWithArgs(Select(table, columns) + Sections(h), h.joins.args + h.where.args + h.orderBy.args)
  }

  /** The query binds exactly its arguments: as many `?` as arguments, when
      the blocks are aligned and the table, columns and plain sections hold no `?`. */
  lemma GetQueryBindsAllArgs(table: string, columns: seq<string>, h: DslHolder)
    requires h.Aligned() && Marks(table) == 0 && MarksAll(columns) == 0
    ensures Marks(GetQuery(table, columns, h).query) == |GetQuery(table, columns, h).args|
  {
    CountConcat('?', Select(table, columns), Sections(h));
  }

  /** Without any block or section the query is just the SELECT head, with no arguments. */
  lemma DefaultHolderIsHead(table: string, columns: seq<string>)
    ensures GetQuery(table, columns, DefaultHolder) == QueryWithArgs(Select(table, columns), [])
  {
    assert IsBlank("");
  }

  /** With only a WHERE block, the query is the head followed by ` WHERE ` and
      the clauses, exactly when there are clauses. */
  lemma WhereOnlyQuery(table: string, columns: seq<string>, w: WherePart)
    ensures var r := GetQuery(table, columns, DefaultHolder.(where := w));
      (w.clauses != [] ==> r.query == Select(table, columns) + " WHERE " + w.BuildStr())
      && (w.clauses == [] ==> r.query == Select(table, columns))
      && r.args == w.args
  {
    var h := DefaultHolder.(where := w);
    assert IsBlank("");
    assert Grouping(h) == "" && Ending(h) == "";
    assert Sections(h) == WhereSection(w);
  }
}
