/** `getTableTypesFromInitQuery`: the column types read back from the
    `CREATE TABLE` text SQLite stores in `sqlite_master`. The stored text is
    a parameter here; reading it from the catalogue is not modelled. */
module TableTypes {
  import opened Wrappers
  import opened Text
  import opened Values
  import opened TypedColumn
  import opened NewTable

  // ---------------------------------------------------------------------
  // The regular expression `\((.*)\)`, first match, group 1.

  /** Where the line starting at `j` ends: the first line terminator at or
      after `j`, or the end of the text (`.` matches anything else). */
  function LineEnd(s: string, j: nat): (e: nat)
    requires j <= |s|
    ensures j <= e <= |s|
    ensures forall k :: j <= k < e ==> !IsLineTerminator(s[k])
    ensures e < |s| ==> IsLineTerminator(s[e])
    decreases |s| - j
  {
    if j == |s| || IsLineTerminator(s[j]) then j else LineEnd(s, j + 1)
  }

  /** The last `)` in `s[lo..hi]`, which greedy `.*` backtracks to. */
  function LastClose(s: string, lo: nat, hi: nat): (r: Option<nat>)
    requires lo <= hi <= |s|
    ensures r.Some? ==> lo <= r.value < hi && s[r.value] == ')'
    ensures r.Some? ==> forall k :: r.value < k < hi ==> s[k] != ')'
    ensures r.None? ==> forall k :: lo <= k < hi ==> s[k] != ')'
    decreases hi - lo
  {
    if hi == lo then None
    else if s[hi - 1] == ')' then Some(hi - 1)
    else LastClose(s, lo, hi - 1)
  }

  /** The leftmost match starting at or after `i`, as its group 1. */
  function MatchFrom(s: string, i: nat): Option<string>
    requires i <= |s|
    decreases |s| - i
  {
    if i == |s| then None
    else if s[i] == '(' then
      match LastClose(s, i + 1, LineEnd(s, i + 1))
      case Some(k) => Some(s[i + 1..k])
      case None => MatchFrom(s, i + 1)
    else MatchFrom(s, i + 1)
  }

  /** `find(queryStr)?.groups?.get(1)?.value ?: ""`. */
  function ColumnsText(s: string): string
  {
    MatchFrom(s, 0).GetOr("")
  }

  lemma {:induction false} MatchSkips(s: string, a: nat, b: nat)
    requires a <= b <= |s|
    requires forall k :: a <= k < b ==> s[k] != '('
    ensures MatchFrom(s, a) == MatchFrom(s, b)
    decreases b - a
  {
    if a < b {
      MatchSkips(s, a + 1, b);
    }
  }

  /** The group runs from the first `(` to the last `)` when no line break
      lies between them. */
  lemma ColumnsTextSpan(s: string, i: nat, j: nat)
    requires i < j < |s| && s[i] == '(' && s[j] == ')'
    requires forall k :: 0 <= k < i ==> s[k] != '('
    requires forall k :: j < k < |s| ==> s[k] != ')'
    requires forall k :: i < k < j ==> !IsLineTerminator(s[k])
    ensures ColumnsText(s) == s[i + 1..j]
  {
    MatchSkips(s, 0, i);
  }

  // ---------------------------------------------------------------------
  // One column definition.

  /** How a token changes the parenthesis balance:
      `token.count { it == '(' } - token.count { it == ')' }`. */
  function Delta(token: string): int
  {
    Count('(', token) - Count(')', token)
  }

  function Balance(tokens: seq<string>): int
  {
    if tokens == [] then 0 else Delta(tokens[0]) + Balance(tokens[1..])
  }

  /** The type tokens after the name, as the loop collects them. */
  function TypeWords(tokens: seq<string>, balance: int): seq<string>
    decreases |tokens|
  {
    if tokens == [] then []
    else
      var b := balance + Delta(tokens[0]);
      [tokens[0]] + (if b <= 0 then [] else TypeWords(tokens[1..], b))
  }

  /** One step of `TypeWords`: the token at `i` is taken, and taking goes
      on after it only while the balance stays positive. */
  lemma TypeWordsStep(tokens: seq<string>, i: nat, balance: int)
    requires i < |tokens|
    ensures var b := balance + Delta(tokens[i]);
      TypeWords(tokens[i..], balance) == [tokens[i]] + (if b <= 0 then [] else TypeWords(tokens[i + 1..], b))
  {
    assert tokens[i..][0] == tokens[i];
    assert tokens[i..][1..] == tokens[i + 1..];
  }

  /** The balance of a non-empty list: its first token, then the rest. */
  lemma BalanceCons(x: seq<string>)
    requires x != []
    ensures Balance(x) == Delta(x[0]) + Balance(x[1..])
  {
  }

  /** The type tokens are a non-empty prefix of non-empty tokens. */
  lemma {:induction false} TypeWordsPrefix(tokens: seq<string>, balance: int)
    ensures var r := TypeWords(tokens, balance);
      |r| <= |tokens| && r == tokens[..|r|] && (tokens != [] ==> r != [])
    decreases |tokens|
  {
    if tokens != [] {
      var b := balance + Delta(tokens[0]);
      var rest := if b <= 0 then [] else TypeWords(tokens[1..], b);
      TypeWordsPrefix(tokens[1..], b);
      var r := [tokens[0]] + rest;
      assert r == TypeWords(tokens, balance);
      forall k | 0 <= k < |r|
        ensures r[k] == tokens[k]
      {
        if k > 0 {
          assert r[k] == rest[k - 1] == tokens[1..][k - 1];
        }
      }
      assert r == tokens[..|r|];
    }
  }

  /** Taking stops right after the first token that brings the balance to
      zero or below, and only then. */
  lemma {:induction false} TypeWordsBalance(tokens: seq<string>, balance: int)
    ensures var r := TypeWords(tokens, balance);
      && (forall m :: 0 < m < |r| ==> balance + Balance(r[..m]) > 0)
      && (|r| < |tokens| ==> balance + Balance(r) <= 0)
    decreases |tokens|
  {
    if tokens != [] {
      var b := balance + Delta(tokens[0]);
      var rest := if b <= 0 then [] else TypeWords(tokens[1..], b);
      TypeWordsBalance(tokens[1..], b);
      TypeWordsPrefix(tokens[1..], b);
      TypeWordsStep(tokens, 0, balance);
      assert tokens[0..] == tokens;
      var r := [tokens[0]] + rest;
      forall m | 0 < m < |r|
        ensures balance + Balance(r[..m]) > 0
      {
        BalanceCons(r[..m]);
        assert r[..m][1..] == rest[..m - 1];
        if m == 1 {
          assert Balance(rest[..0]) == 0;
        }
      }
      BalanceCons(r);
      assert r[1..] == rest;
    }
  }

  /** The type tokens are a prefix of the tokens, taken in order; taking
      stops right after the first one that brings the balance to zero or
      below, and only then. */
  lemma TypeWordsStop(tokens: seq<string>, balance: int)
    ensures var r := TypeWords(tokens, balance);
      && |r| <= |tokens| && r == tokens[..|r|]
      && (tokens != [] ==> r != [])
      && (forall m :: 0 < m < |r| ==> balance + Balance(r[..m]) > 0)
      && (|r| < |tokens| ==> balance + Balance(r) <= 0)
  {
    TypeWordsPrefix(tokens, balance);
    TypeWordsBalance(tokens, balance);
  }

  /** The type of one comma-separated piece: `"TEXT"` when it has fewer
      than two tokens, otherwise the type tokens after the name, joined by
      single spaces. */
  function ColumnType(colDef: string): (r: string)
  {
    var tokens := SplitSpaces(Trim(colDef));
    if |tokens| < 2 then "TEXT" else Join(TypeWords(tokens[1..], 0), " ")
  }

  /** One type per comma-separated piece of the column text; none at all
      for a blank statement. */
  function TableTypes(sql: string): (r: seq<string>)
    ensures IsBlank(sql) ==> r == []
    ensures !IsBlank(sql) ==> |r| == Count(',', ColumnsText(sql)) + 1
    ensures !IsBlank(sql) ==> forall k :: 0 <= k < |r| ==> r[k] == ColumnType(SplitOn(ColumnsText(sql), ',')[k])
  {
    if IsBlank(sql) then []
    else
      var pieces := SplitOn(ColumnsText(sql), ',');
      seq(|pieces|, k requires 0 <= k < |pieces| => ColumnType(pieces[k]))
  }

  /** The inner loop over the tokens after the name. */
  method CollectTypeTokens(tokens: seq<string>) returns (typeTokens: seq<string>)
    ensures typeTokens == TypeWords(tokens, 0)
  {
    typeTokens := [];
    var parenCount := 0;
    var i := 0;
    assert tokens[0..] == tokens;
    while i < |tokens|
      invariant 0 <= i <= |tokens|
      invariant typeTokens + TypeWords(tokens[i..], parenCount) == TypeWords(tokens, 0)
    {
      CollectStep(tokens, i, parenCount, typeTokens);
      typeTokens := typeTokens + [tokens[i]];
      parenCount := parenCount + Delta(tokens[i]);
      if parenCount <= 0 {
        break;
      }
      i := i + 1;
    }
  }

  /** One pass of the loop: the token is taken, and the loop either stops
      with everything taken or goes on with the rest. */
  lemma CollectStep(tokens: seq<string>, i: nat, balance: int, taken: seq<string>)
    requires i < |tokens|
    requires taken + TypeWords(tokens[i..], balance) == TypeWords(tokens, 0)
    ensures var b := balance + Delta(tokens[i]);
      && (b <= 0 ==> taken + [tokens[i]] == TypeWords(tokens, 0))
      && (b > 0 ==> (taken + [tokens[i]]) + TypeWords(tokens[i + 1..], b) == TypeWords(tokens, 0))
  {
    TypeWordsStep(tokens, i, balance);
    TakeOne(taken, tokens[i], balance + Delta(tokens[i]), TypeWords(tokens[i + 1..], balance + Delta(tokens[i])),
            TypeWords(tokens[i..], balance), TypeWords(tokens, 0));
  }

  lemma TakeOne(taken: seq<string>, t: string, b: int, rest: seq<string>, here: seq<string>, goal: seq<string>)
    requires here == [t] + (if b <= 0 then [] else rest)
    requires taken + here == goal
    ensures b <= 0 ==> taken + [t] == goal
    ensures b > 0 ==> (taken + [t]) + rest == goal
  {
    if b > 0 {
      assert taken + ([t] + rest) == (taken + [t]) + rest;
    } else {
      assert [t] + [] == [t];
    }
  }

  method ColumnTypeOf(colDef: string) returns (t: string)
    ensures t == ColumnType(colDef)
  {
    var tokens := SplitSpaces(Trim(colDef));
    if |tokens| < 2 {
      return "TEXT";
    }
    var typeTokens := CollectTypeTokens(tokens[1..]);
    t := Join(typeTokens, " ");
  }

  /** `getTableTypesFromInitQuery` on the stored statement `sql`. */
  method GetTableTypes(sql: string) returns (types: seq<string>)
    ensures types == TableTypes(sql)
  {
    if IsBlank(sql) {
      return [];
    }
    var pieces := SplitOn(ColumnsText(sql), ',');
    types := ColumnTypesOf(pieces);
    TableTypesEach(sql, types);
  }

  /** The loop over the comma-separated pieces: one type per piece, in order. */
  method ColumnTypesOf(pieces: seq<string>) returns (types: seq<string>)
    ensures |types| == |pieces|
    ensures forall m :: 0 <= m < |types| ==> types[m] == ColumnType(pieces[m])
  {
    types := [];
    for k := 0 to |pieces|
      invariant |types| == k
      invariant forall m :: 0 <= m < k ==> types[m] == ColumnType(pieces[m])
    {
      var t := ColumnTypeOf(pieces[k]);
      types := types + [t];
    }
  }

  lemma TableTypesEach(sql: string, types: seq<string>)
    requires !IsBlank(sql)
    requires var pieces := SplitOn(ColumnsText(sql), ',');
      |types| == |pieces| && forall m :: 0 <= m < |types| ==> types[m] == ColumnType(pieces[m])
    ensures types == TableTypes(sql)
  {
  }

  // ---------------------------------------------------------------------
  // Reading back what `newTableQuery` wrote.

  /** Text without commas or line breaks. */
  predicate Clean(s: string)
  {
    forall k :: 0 <= k < |s| ==> s[k] != ',' && !IsLineTerminator(s[k])
  }

  /** A column name that is one token: non-empty, no whitespace, no comma. */
  predicate PlainName(s: string)
  {
    s != [] && Clean(s) && forall k :: 0 <= k < |s| ==> !IsWhitespace(s[k])
  }

  predicate PlainColumn(col: Column)
  {
    PlainName(col.name) && (col.StrCol? ==> Clean(col.strDefault))
  }

  /** The SQLite type names of the columns, in order. */
  function TypeNames(columns: seq<Column>): (r: seq<string>)
    ensures |r| == |columns|
    ensures forall k :: 0 <= k < |columns| ==> r[k] == TypeOf(columns[k]).TypeName()
  {
    seq(|columns|, k requires 0 <= k < |columns| => TypeOf(columns[k]).TypeName())
  }

  lemma CleanConcat(a: string, b: string)
    requires Clean(a) && Clean(b)
    ensures Clean(a + b)
  {
    forall k | 0 <= k < |a + b| ensures (a + b)[k] != ',' && !IsLineTerminator((a + b)[k]) {
      if k < |a| { assert (a + b)[k] == a[k]; } else { assert (a + b)[k] == b[k - |a|]; }
    }
  }

  lemma UpperWordClean(w: string)
    requires IsUpperWord(w)
    ensures Clean(w)
    ensures forall k :: 0 <= k < |w| ==> !IsRegexSpace(w[k])
    ensures '(' !in w && ')' !in w
  {
  }

  lemma NumberClean(i: int)
    ensures Clean(IntToString(i))
  {
    IntToStringPlain(i);
  }

  lemma FloatClean(f: FloatText)
    ensures Clean(f)
  {
    forall k | 0 <= k < |f| ensures f[k] != ',' && !IsLineTerminator(f[k]) {
      assert f[k] in "0123456789-.EINafinty";
    }
  }

  lemma QuotedClean(v: string)
    requires Clean(v)
    ensures Clean("'" + v + "'")
  {
    assert Clean("'");
    CleanConcat("'", v);
    CleanConcat("'" + v, "'");
  }

  lemma DefaultSqlClean(col: Column)
    requires PlainColumn(col)
    ensures DefaultSql(col).Some? ==> Clean(DefaultSql(col).value)
  {
    match col
    case IntCol(_, v) => NumberClean(v);
    case LongCol(_, v) => NumberClean(v);
    case StrCol(_, v) => QuotedClean(v);
    case BoolCol(_, b) => assert Clean("1") && Clean("0");
    case FloatCol(_, f) => FloatClean(f);
    case BlobCol(_, _) =>
  }

  lemma ColumnDefClean(col: Column)
    requires PlainColumn(col)
    ensures Clean(ColumnDef(col))
  {
    var t := TypeOf(col);
    TypeNameIsWord(t);
    UpperWordClean(t.TypeName());
    assert Clean(" ") && Clean(t.Constraints());
    CleanConcat(" ", t.TypeName());
    CleanConcat(" " + t.TypeName(), t.Constraints());
    CleanConcat(col.name, t.Sql());
    DefaultSqlClean(col);
    if DefaultSql(col).Some? {
      assert Clean(DefaultKeyword);
      CleanConcat(DefaultKeyword, DefaultSql(col).value);
    }
    CleanConcat(col.name + t.Sql(), DefaultClause(col));
  }

  predicate NoBreaks(s: string)
  {
    forall k :: 0 <= k < |s| ==> !IsLineTerminator(s[k])
  }

  lemma NoBreaksConcat(a: string, b: string)
    requires NoBreaks(a) && NoBreaks(b)
    ensures NoBreaks(a + b)
  {
    forall k | 0 <= k < |a + b| ensures !IsLineTerminator((a + b)[k]) {
      if k < |a| { assert (a + b)[k] == a[k]; } else { assert (a + b)[k] == b[k - |a|]; }
    }
  }

  /** The joined definitions hold no line break. */
  lemma {:induction false} JoinNoBreaks(ds: seq<string>)
    requires forall k :: 0 <= k < |ds| ==> Clean(ds[k])
    ensures NoBreaks(Join(ds, ", "))
    decreases |ds|
  {
    if |ds| > 1 {
      JoinNoBreaks(ds[..|ds| - 1]);
      assert NoBreaks(", ");
      NoBreaksConcat(Join(ds[..|ds| - 1], ", "), ", ");
      NoBreaksConcat(Join(ds[..|ds| - 1], ", ") + ", ", ds[|ds| - 1]);
    }
  }

  /** Splitting the joined definitions at commas gives them back, each but
      the first behind the space of the separator. */
  lemma {:induction false} SplitJoined(ds: seq<string>)
    requires ds != [] && forall k :: 0 <= k < |ds| ==> Clean(ds[k])
    ensures var r := SplitOn(Join(ds, ", "), ',');
      |r| == |ds| && r[0] == ds[0] && forall k :: 1 <= k < |ds| ==> r[k] == " " + ds[k]
    decreases |ds|
  {
    var n := |ds|;
    var last := ds[n - 1];
    assert ',' !in last;
    if n == 1 {
      SplitOnNone(ds[0], ',');
    } else {
      var init := ds[..n - 1];
      SplitJoined(init);
      assert Join(ds, ", ") == Join(init, ", ") + [','] + (" " + last);
      SplitOnConcat(Join(init, ", "), " " + last, ',');
      assert ',' !in " " + last;
      SplitOnNone(" " + last, ',');
    }
  }

  /** A leading separator space is trimmed away. */
  lemma ColumnTypeSpaced(d: string)
    ensures ColumnType(" " + d) == ColumnType(d)
  {
    assert (" " + d)[1..] == d;
    assert TrimStart(" " + d) == TrimStart(d);
  }

  lemma Regroup(n: string, w: string, c: string, d: string)
    ensures n + (" " + w + c) + d == n + " " + w + (c + d)
  {
  }

  lemma SqlParts(t: ColumnTypeSql, n: string, d: string)
    ensures n + t.Sql() + d == n + " " + t.TypeName() + (t.Constraints() + d)
  {
    Regroup(n, t.TypeName(), t.Constraints(), d);
  }

  lemma ConstraintsStart(t: ColumnTypeSql)
    ensures |t.Constraints()| > 1 && t.Constraints()[0] == ' ' && t.Constraints()[1] == 'N'
  {
  }

  /** What follows the type name in a definition: the constraints, then
      the default clause. */
  function AfterType(col: Column): (r: string)
    ensures |r| > 1 && r[0] == ' ' && r[1] == 'N'
    ensures ColumnDef(col) == col.name + " " + TypeOf(col).TypeName() + r
  {
    var t := TypeOf(col);
    ConstraintsStart(t);
    SqlParts(t, col.name, DefaultClause(col));
    t.Constraints() + DefaultClause(col)
  }

  /** The tokens of `name w rest`: the name, the word, then the rest. */
  lemma TokensOf(name: string, w: string, rest: string)
    requires PlainName(name) && IsUpperWord(w)
    requires rest != [] && rest[0] == ' '
    ensures SplitSpaces(name + (" " + w + rest)) == [name] + ([w] + SplitSpaces(rest[SpaceRun(rest)..]))
  {
    UpperWordClean(w);
    assert forall k :: 0 <= k < |name| ==> !IsRegexSpace(name[k]);
    var r1 := " " + w + rest;
    assert r1[1..] == w + rest && !IsRegexSpace(r1[1..][0]);
    assert SpaceRun(r1) == 1;
    WordFirst(name, r1);
    WordFirst(w, rest);
  }

  /** A piece `name w tail`, with `tail` starting with a space and then a
      non-blank character, is typed `w`. */
  lemma ShapeType(name: string, w: string, tail: string)
    requires PlainName(name) && IsUpperWord(w)
    requires |tail| > 1 && tail[0] == ' ' && !IsWhitespace(tail[1])
    ensures ColumnType(name + " " + w + tail) == w
  {
    UpperWordClean(w);
    var front := name + " " + w;
    assert front[0] == name[0];
    var rest := TrimAround(front, tail);
    assert front + rest == name + (" " + w + rest);
    TokensOf(name, w, rest);
    var tokens := SplitSpaces(Trim(front + tail));
    assert tokens[1..] == [w] + SplitSpaces(rest[SpaceRun(rest)..]);
    CountAbsent('(', w);
    CountAbsent(')', w);
    assert TypeWords(tokens[1..], 0) == [w];
  }

  /** A definition `newTableQuery` writes reads back as its type name. */
  lemma ColumnTypeOfDef(col: Column)
    requires PlainColumn(col)
    ensures ColumnType(ColumnDef(col)) == TypeOf(col).TypeName()
  {
    var w := TypeOf(col).TypeName();
    TypeNameIsWord(TypeOf(col));
    ShapeType(col.name, w, AfterType(col));
  }

  /** The column text of `pre(joined)` is `joined`, when `pre` starts
      with a non-blank character and holds no `(`, and `joined` holds no
      line break. */
  lemma ColumnsTextOf(pre: string, joined: string)
    requires pre != [] && !IsWhitespace(pre[0]) && '(' !in pre
    requires NoBreaks(joined)
    ensures ColumnsText(pre + "(" + joined + ")") == joined
    ensures !IsBlank(pre + "(" + joined + ")")
  {
    var q := pre + "(" + joined + ")";
    assert q[0] == pre[0];
    ColumnsTextSpan(q, |pre|, |q| - 1);
    assert q[|pre| + 1..|q| - 1] == joined;
  }

  /** The comma-separated pieces of the joined definitions are typed as
      the columns are. */
  lemma PiecesTyped(columns: seq<Column>)
    requires columns != []
    requires forall k :: 0 <= k < |columns| ==> PlainColumn(columns[k])
    ensures var pieces := SplitOn(Join(Defs(columns), ", "), ',');
      |pieces| == |columns| &&
      forall k :: 0 <= k < |columns| ==> ColumnType(pieces[k]) == TypeOf(columns[k]).TypeName()
  {
    var ds := Defs(columns);
    forall k | 0 <= k < |ds| ensures Clean(ds[k]) {
      ColumnDefClean(columns[k]);
    }
    SplitJoined(ds);
    forall k | 0 <= k < |columns|
      ensures ColumnType(SplitOn(Join(ds, ", "), ',')[k]) == TypeOf(columns[k]).TypeName()
    {
      if k > 0 { ColumnTypeSpaced(ds[k]); }
      ColumnTypeOfDef(columns[k]);
    }
  }

  /** `getTableTypesFromInitQuery` on the statement `newTableQuery` wrote
      gives back each column's SQLite type name, in column order, provided
      the table name has no `(` and every column name is one token and no
      string default holds a comma or a line break. */
  lemma TableTypesRoundTrip(table: string, columns: seq<Column>)
    requires '(' !in table
    requires columns != []
    requires forall k :: 0 <= k < |columns| ==> PlainColumn(columns[k])
    ensures TableTypes(NewTableQuery(table, columns)) == TypeNames(columns)
  {
    var joined := Join(Defs(columns), ", ");
    DefsNoBreaks(columns);
    var pre := QueryHead(table, columns);
    ColumnsTextOf(pre, joined);
    PiecesTyped(columns);
  }

  /** The joined definitions hold no line break. */
  lemma DefsNoBreaks(columns: seq<Column>)
    requires forall k :: 0 <= k < |columns| ==> PlainColumn(columns[k])
    ensures NoBreaks(Join(Defs(columns), ", "))
  {
    var ds := Defs(columns);
    forall k | 0 <= k < |ds| ensures Clean(ds[k]) {
      ColumnDefClean(columns[k]);
    }
    JoinNoBreaks(ds);
  }

  lemma HeadSplit(a: string, t: string, j: string)
    ensures a + t + " (" + j + ")" == (a + t + " ") + "(" + j + ")"
  {
  }

  lemma NoOpenIn(a: string, t: string)
    requires '(' !in a && '(' !in t
    ensures '(' !in a + t + " "
  {
  }

  /** The statement is a head without `(`, then the parenthesised
      definitions. */
  lemma QueryHead(table: string, columns: seq<Column>) returns (pre: string)
    requires '(' !in table
    ensures pre != [] && pre[0] == 'C' && '(' !in pre
    ensures NewTableQuery(table, columns) == pre + "(" + Join(Defs(columns), ", ") + ")"
  {
    pre := CreateTable + table + " ";
    assert CreateTable[0] == 'C' && '(' !in CreateTable;
    NoOpenIn(CreateTable, table);
    HeadSplit(CreateTable, table, Join(Defs(columns), ", "));
  }

  /** With no columns at all, the empty parentheses still read as one
      piece, typed `TEXT`. */
  lemma NoColumnsReadAsText(table: string)
    requires '(' !in table
    ensures TableTypes(NewTableQuery(table, [])) == ["TEXT"]
  {
    var pre := QueryHead(table, []);
    assert Join(Defs([]), ", ") == "";
    ColumnsTextOf(pre, "");
  }

}
