/** The shared state of every WHERE builder: the clause list and the ordered
    argument list bound to the `?` placeholders in those clauses. */
module WhereBase {
  import opened Text
  import opened Values

  /** What a WHERE block leaves in a fresh builder: its clauses and its args. */
  datatype WherePart = WherePart(clauses: seq<string>, args: seq<string>)
  {
    /** `buildStr()`: the clauses separated by single spaces. */
    function BuildStr(): string { Join(clauses, " ") }

    /** Every `?` of the clauses has exactly one argument. */
    predicate Aligned() { MarksAll(clauses) == |args| }
  }

  const EmptyWhere := WherePart([], [])

  /** `n` question marks separated by `", "`. */
  function Placeholders(n: nat): (r: string)
    ensures Marks(r) == n
    ensures n == 0 <==> r == ""
  {
    if n == 0 then "" else if n == 1 then "?"
    else
      CountConcat('?', Placeholders(n - 1), ", ?");
      Placeholders(n - 1) + ", ?"
  }

  /** The clause `multCompare` adds: `column operator (?, ?, ...)`. */
  function MultCompareClause(column: string, operator: string, n: nat): (r: string)
    ensures Marks(r) == Marks(column) + Marks(operator) + n
    ensures |r| > 0 && r[|r| - 1] == ')'
  {
    MarksConcat3(column, operator, "(");
    MarksConcat3(column + operator + "(", Placeholders(n), ")");
    column + operator + "(" + Placeholders(n) + ")"
  }

  /** The comparisons `column operator other` for each of `otherCols`, in order. */
  function RawComparisons(column: string, operator: string, otherCols: seq<string>): (r: seq<string>)
    ensures |r| == |otherCols|
    ensures forall k :: 0 <= k < |r| ==> r[k] == column + operator + otherCols[k]
  {
    seq(|otherCols|, k requires 0 <= k < |otherCols| => column + operator + otherCols[k])
  }

  /** The connective of `multCompareRaw`: any match for a positive test, all for a negative one. */
  function Connective(positive: bool): string
  {
    if positive then " OR " else " AND "
  }

  /** The clause `multCompareRaw` adds: the comparisons joined by the connective, in parentheses. */
  function MultCompareRawClause(column: string, operator: string, otherCols: seq<string>, positive: bool): (r: string)
    ensures Marks(r) == MarksAll(RawComparisons(column, operator, otherCols))
  {
    JoinMarks(RawComparisons(column, operator, otherCols), Connective(positive));
    MarksConcat3("(", Join(RawComparisons(column, operator, otherCols), Connective(positive)), ")");
    "(" + Join(RawComparisons(column, operator, otherCols), Connective(positive)) + ")"
  }

  /** The text loop of `multCompare`: a placeholder per value, commas between them. */
  method BuildMultCompareClause(column: string, operator: string, n: nat) returns (text: string)
    ensures text == MultCompareClause(column, operator, n)
  {
    var marks := "";
    var idx := 0;
    while idx < n
      invariant 0 <= idx <= n
      invariant marks == Placeholders(idx) + (if 0 < idx < n then ", " else "")
    {
      if idx > 0 {
        assert marks + "?" == Placeholders(idx) + ", ?";
      }
      marks := marks + "?";
      if idx != n - 1 {
        marks := marks + ", ";
      }
      idx := idx + 1;
    }
    text := column + operator + "(" + marks + ")";
  }

  /** The text loop of `multCompareRaw`: each comparison, the connective between them. */
  method BuildMultCompareRawClause(column: string, operator: string, otherCols: seq<string>, positive: bool)
    returns (text: string)
    ensures text == MultCompareRawClause(column, operator, otherCols, positive)
  {
    ghost var parts := RawComparisons(column, operator, otherCols);
    var body := "";
    var idx := 0;
    while idx < |otherCols|
      invariant 0 <= idx <= |otherCols|
      invariant body == Join(parts[..idx], Connective(positive))
                        + (if 0 < idx < |otherCols| then Connective(positive) else "")
    {
      assert parts[..idx + 1][..idx] == parts[..idx];
      body := body + (column + operator + otherCols[idx]);
      if idx != |otherCols| - 1 {
        body := body + (if positive then " OR " else " AND ");
      }
      idx := idx + 1;
    }
    assert parts[..idx] == parts;
    text := "(" + body + ")";
  }

  /** A `multCompare` clause over `n` values adds `n` placeholders. */
  lemma MultCompareKeepsAligned(clauses: seq<string>, column: string, operator: string, n: nat)
    requires Marks(column + operator) == 0
    ensures MarksAll(clauses + [MultCompareClause(column, operator, n)]) == MarksAll(clauses) + n
  {
    MarksAllSnoc(clauses, MultCompareClause(column, operator, n));
    CountConcat('?', column, operator);
  }

  /** The argument loop of `multCompare`: each value's text, in order. */
  method BindTexts(values: seq<Value>) returns (added: seq<string>)
    requires forall k :: 0 <= k < |values| ==> IsScalar(values[k])
    ensures |added| == |values|
    ensures forall k :: 0 <= k < |values| ==> added[k] == ToText(values[k])
  {
    added := [];
    for i := 0 to |values|
      invariant |added| == i
      invariant forall k :: 0 <= k < i ==> added[k] == ToText(values[k])
    {
      added := added + [ToText(values[i])];
    }
  }

  /** `WhereBuilderBase`: an appendable clause list with its argument list. */
  class WhereBuilderBase {
    var clauses: seq<string>
    var args: seq<string>

    constructor ()
      ensures clauses == [] && args == []
    {
      clauses := [];
      args := [];
    }

    function Part(): WherePart
      reads this
    {
      WherePart(clauses, args)
    }

    function BuildStr(): (r: string)
      reads this
      ensures r == Part().BuildStr()
    {
      Join(clauses, " ")
    }

    ghost predicate Aligned()
      reads this
    {
      Part().Aligned()
    }

    /** `column operator ?` bound to `value`. */
    method Condition(column: string, operator: string, value: string)
      modifies this
      ensures clauses == old(clauses) + [column + operator + "?"]
      ensures args == old(args) + [value]
      ensures old(Aligned()) && Marks(column + operator) == 0 ==> Aligned()
    {
      MarksAllSnoc(clauses, column + operator + "?");
      CountConcat('?', column + operator, "?");
      clauses := clauses + [column + operator + "?"];
      args := args + [value];
    }

    /** `column operator otherColumn`, with no argument. */
    method ConditionRaw(column: string, operator: string, otherColumn: string)
      modifies this
      ensures clauses == old(clauses) + [column + operator + otherColumn]
      ensures args == old(args)
      ensures old(Aligned()) && Marks(column + operator + otherColumn) == 0 ==> Aligned()
    {
      MarksAllSnoc(clauses, column + operator + otherColumn);
      clauses := clauses + [column + operator + otherColumn];
    }

    /** `column operator (?, ..., ?)` with one placeholder and one argument per value, in order. */
    method MultCompare(column: string, operator: string, values: seq<Value>)
      requires forall k :: 0 <= k < |values| ==> IsScalar(values[k])
      modifies this
      ensures clauses == old(clauses) + [MultCompareClause(column, operator, |values|)]
      ensures |args| == |old(args)| + |values| && args[..|old(args)|] == old(args)
      ensures forall k :: 0 <= k < |values| ==> args[|old(args)| + k] == ToText(values[k])
      ensures old(Aligned()) && Marks(column + operator) == 0 ==> Aligned()
    {
      var text := BuildMultCompareClause(column, operator, |values|);
      var added := BindTexts(values);
      if Marks(column + operator) == 0 && MarksAll(clauses) == |args| {
        MultCompareKeepsAligned(clauses, column, operator, |values|);
      }
      args := args + added;
      clauses := clauses + [text];
    }

    /** `(column operator c1 OR ... OR column operator cn)`, or joined by AND
        when not `positive`; no arguments. */
    method MultCompareRaw(column: string, operator: string, otherCols: seq<string>, positive: bool)
      modifies this
      ensures clauses == old(clauses) + [MultCompareRawClause(column, operator, otherCols, positive)]
      ensures args == old(args)
      ensures old(Aligned()) && MarksAll(RawComparisons(column, operator, otherCols)) == 0 ==> Aligned()
    {
      var text := BuildMultCompareRawClause(column, operator, otherCols, positive);
      MarksAllSnoc(clauses, text);
      clauses := clauses + [text];
    }
  }
}
