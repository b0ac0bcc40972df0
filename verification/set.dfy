/** Running the recorded SET operations (`set/Set.kt`): consecutive
    assignments share one `UPDATE … SET a, b, … WHERE …` statement until an
    assignment touches a column the current statement already assigns (or
    reads one it assigns), and a bulk `ContentValues` update always stands
    alone. */
module SetExec {
  import opened Wrappers
  import opened Text
  import opened Values
  import opened WhereBase
  import opened SetOps
  import DslQuery

  /** A piece of SQL text and the arguments its placeholders take, in order. */
  datatype Fragment = Fragment(text: string, args: seq<Value>)

  /** `col op ?`, the arithmetic right-hand sides. */
  function Applied(col: string, sign: string): (r: string)
    ensures Marks(r) == Marks(col) + Marks(sign) + 1
  {
    MarksConcat3(col, " ", sign);
    CountConcat('?', col + " " + sign, " ?");
    col + " " + sign + " ?"
  }

  /** A column wrapped in SQL text, as in `MIN(col, ?)`. */
  function Around(pre: string, col: string, post: string): (r: string)
    ensures Marks(r) == Marks(pre) + Marks(col) + Marks(post)
  {
    MarksConcat3(pre, col, post);
    pre + col + post
  }

  /** `buildMathPart`: the right-hand side of `setAs(col andX v)`. */
  function BuildMathPart(col: string, mathOp: MathOp, value: Value): (r: Fragment)
    ensures Marks(r.text) == Marks(col) + |r.args|
    ensures mathOp.CapAt? ==> r.args == [mathOp.cap]
    ensures mathOp.FloorAt? ==> r.args == [mathOp.floor]
    ensures mathOp.CoerceIn? ==> r.args == [mathOp.min, mathOp.max]
    ensures !(mathOp.CapAt? || mathOp.FloorAt? || mathOp.CoerceIn?) ==> r.args == [value]
  {
    Fragment(MathText(col, mathOp), MathArgs(mathOp, value))
  }

  /** The arguments `buildMathPart` binds. */
  function MathArgs(mathOp: MathOp, value: Value): seq<Value>
  {
    match mathOp
    case CapAt(cap) => [cap]
    case FloorAt(floor) => [floor]
    case CoerceIn(lo, hi) => [lo, hi]
    case _ => [value]
  }

  /** The text `buildMathPart` builds. */
  function MathText(col: string, mathOp: MathOp): (r: string)
    ensures Marks(r) == Marks(col) + (if mathOp.CoerceIn? then 2 else 1)
  {
    MinMaxLiterals();
    CoerceLiterals();
    match mathOp
    case Add => Applied(col, "+")
    case Sub => Applied(col, "-")
    case Mult => Applied(col, "*")
    case Div => Applied(col, "/")
    case CapAt(_) => Around("MIN(", col, ", ?)")
    case FloorAt(_) => Around("MAX(", col, ", ?)")
    case CoerceIn(_, _) => Around("MIN(MAX(", col, ", ?), ?)")
  }

  /** One `col = …` item of a SET list: the column it assigns, the column it
      reads besides (for `setAs`), its text and its arguments. */
  datatype Part = Part(target: string, source: Option<string>, text: string, args: seq<Value>)

  /** The column an operation assigns (`setCol`). */
  function Target(op: SetOp): string
    requires !op.SetCV?
  {
    match op
    case Set(col, _) => col.name
    case SetNoty(c, _) => c
    case Flip(col) => col.name
    case NumOp(c, _, _) => c
    case Abs(c) => c
    case MinMax(c, _, _) => c
    case CoerceIn(c, _, _) => c
    case SetAs(s, _) => s
    case SetAsModified(s, _) => s
  }

  /** The other column an operation reads (`getCol`), if any. */
  function Source(op: SetOp): Option<string>
  {
    match op
    case SetAs(_, g) => Some(g)
    case SetAsModified(_, colOp) => Some(colOp.col)
    case _ => None
  }

  /** The names and operators an operation splices into SQL carry no `?`. */
  predicate Plain(op: SetOp)
    requires !op.SetCV?
  {
    Marks(Target(op)) == 0
    && (Source(op).Some? ==> Marks(Source(op).value) == 0)
    && (op.NumOp? ==> Marks(op.sqlOp) == 0)
  }

  /** `col = rhs`, the shape of every SET item. */
  function Assign(col: string, rhs: string): (r: string)
    ensures Marks(r) == Marks(col) + Marks(rhs)
  {
    MarksConcat3(col, " = ", rhs);
    col + " = " + rhs
  }

  /** The right-hand side of the SET item an operation contributes and the
      arguments it binds, as the `run` closure of each branch of `set`
      builds them; the `Set` values pass through `getBoolSafeVal`. */
  function Rhs(op: SetOp): Fragment
    requires !op.SetCV?
  {
    match op
    case Set(_, v) => Fragment("?", [BoolSafe(v)])
    case SetNoty(_, v) => Fragment("?", [BoolSafe(v)])
    case Flip(col) => Fragment("NOT " + col.name, [])
    case NumOp(c, v, sqlOp) => Fragment(Applied(c, sqlOp), [v])
    case Abs(c) => Fragment(Around("ABS(", c, ")"), [])
    case MinMax(c, v, isFloorOp) => Fragment(Around(if isFloorOp then "MAX(" else "MIN(", c, ", ?)"), [v])
    case CoerceIn(c, lo, hi) => Fragment(Around("MIN(MAX(", c, ", ?), ?)"), [lo, hi])
    case SetAs(_, g) => Fragment(g, [])
    case SetAsModified(_, colOp) => BuildMathPart(colOp.col, colOp.op, colOp.value)
  }

  /** The SET item an operation contributes: `setCol = rhs`. */
  function PartOf(op: SetOp): (r: Part)
    requires !op.SetCV?
    ensures r.target == Target(op) && r.source == Source(op)
    ensures Marks(r.text) == Marks(Target(op)) + Marks(Rhs(op).text)
  {
    Part(Target(op), Source(op), Assign(Target(op), Rhs(op).text), Rhs(op).args)
  }

  /** Every right-hand side binds exactly as many arguments as it has `?`. */
  lemma RhsAligned(op: SetOp)
    requires !op.SetCV? && Plain(op)
    ensures Marks(Rhs(op).text) == |Rhs(op).args|
  {
    if op.Abs? || op.MinMax? || op.CoerceIn? {
      WrappedRhsAligned(op);
    } else {
      SimpleRhsAligned(op);
    }
  }

  /** The right-hand sides that wrap the column in an SQL function. */
  lemma WrappedRhsAligned(op: SetOp)
    requires (op.Abs? || op.MinMax? || op.CoerceIn?) && Plain(op)
    ensures Marks(Rhs(op).text) == |Rhs(op).args|
  {
    WrapMarks(op.colName);
  }

  /** The other right-hand sides: a single `?`, a negation, an arithmetic
      step, another column or a modified column. */
  lemma SimpleRhsAligned(op: SetOp)
    requires !op.SetCV? && !(op.Abs? || op.MinMax? || op.CoerceIn?) && Plain(op)
    ensures Marks(Rhs(op).text) == |Rhs(op).args|
  {
    match op
    case Set(_, _) =>
    case SetNoty(_, _) =>
    case Flip(col) =>
      FlipMarks(col.name);
    case NumOp(c, _, _) =>
      assert Marks(c) == 0;
    case SetAs(_, g) =>
      assert Marks(g) == 0;
    case SetAsModified(_, colOp) =>
      assert Marks(colOp.col) == 0;
  }

  lemma FlipMarks(col: string)
    requires Marks(col) == 0
    ensures Marks("NOT " + col) == 0
  {
    CountConcat('?', "NOT ", col);
  }

  lemma WrapMarks(c: string)
    requires Marks(c) == 0
    ensures Marks(Around("ABS(", c, ")")) == 0
    ensures Marks(Around("MAX(", c, ", ?)")) == 1 && Marks(Around("MIN(", c, ", ?)")) == 1
    ensures Marks(Around("MIN(MAX(", c, ", ?), ?)")) == 2
  {
    assert Marks("ABS(") == 0 && Marks(")") == 0;
    MinMaxLiterals();
    CoerceLiterals();
  }

  lemma MinMaxLiterals()
    ensures Marks("MAX(") == 0 && Marks("MIN(") == 0 && Marks(", ?)") == 1
  {
    assert Marks("MAX(") == 0;
    assert Marks("MIN(") == 0;
    assert Marks(", ?)") == 1;
  }

  lemma CoerceLiterals()
    ensures Marks("MIN(MAX(") == 0 && Marks(", ?), ?)") == 2
  {
    assert Marks("MIN(MAX(") == 0;
    assert Marks(", ?), ?)") == 2;
  }

  /** Every item binds exactly as many arguments as its text has `?`. */
  lemma PartOfAligned(op: SetOp)
    requires !op.SetCV? && Plain(op)
    ensures Marks(PartOf(op).text) == |PartOf(op).args|
  {
    RhsAligned(op);
  }

  // ---------------------------------------------------------------------
  // The batching, as a specification over the recorded operations.

  /** What `set` hands to the database: one `UPDATE` statement, or one
      `setRowValsNoty` bulk update. */
  datatype Statement =
    | ExecSql(sql: string, args: seq<Value>)
    | UpdateRowVals(table: string, cv: ContentValues, where: WherePart)

  /** A group of items sent as one statement, or a bulk update. */
  datatype Action = Batch(parts: seq<Part>) | Bulk(cv: ContentValues)

  /** The actions decided so far and the items waiting in the current statement. */
  datatype Plan = Plan(done: seq<Action>, pending: seq<Part>)

  function Targets(parts: seq<Part>): set<string>
  {
    set k | 0 <= k < |parts| :: parts[k].target
  }

  function Texts(parts: seq<Part>): (r: seq<string>)
    ensures |r| == |parts|
    ensures forall k :: 0 <= k < |parts| ==> r[k] == parts[k].text
  {
    if parts == [] then [] else Texts(parts[..|parts| - 1]) + [parts[|parts| - 1].text]
  }

  function AllArgs(parts: seq<Part>): seq<Value>
  {
    if parts == [] then [] else AllArgs(parts[..|parts| - 1]) + parts[|parts| - 1].args
  }

  /** Whether an item must start a new statement after `parts`: it assigns or
      reads a column `parts` already assigns. */
  predicate Clashes(part: Part, parts: seq<Part>)
  {
    part.target in Targets(parts) || (part.source.Some? && part.source.value in Targets(parts))
  }

  /** `flush()`: the waiting items become one statement, if there are any. */
  function Flushed(p: Plan): Plan
  {
    if p.pending == [] then p else Plan(p.done + [Batch(p.pending)], [])
  }

  /** `playTogether` on an item. */
  function Together(p: Plan, part: Part): Plan
  {
    var q := if Clashes(part, p.pending) then Flushed(p) else p;
    Plan(q.done, q.pending + [part])
  }

  /** One recorded operation, as the `forEach` over the operations handles it. */
  function Step(p: Plan, op: SetOp): Plan
  {
    if op.SetCV? then Plan(Flushed(p).done + [Bulk(op.cv)], []) else Together(p, PartOf(op))
  }

  function Play(ops: seq<SetOp>): Plan
  {
    if ops == [] then Plan([], []) else Step(Play(ops[..|ops| - 1]), ops[|ops| - 1])
  }

  /** The actions `set` performs for `ops`, the final `flush()` included. */
  function Batches(ops: seq<SetOp>): seq<Action>
  {
    Flushed(Play(ops)).done
  }

  /** The statement text of one batch. */
  function UpdateSql(table: string, texts: seq<string>, where: WherePart): string
  {
    "UPDATE " + table + " SET " + Join(texts, ", ") + DslQuery.WhereSection(where)
  }

  function WhereArgs(where: WherePart): (r: seq<Value>)
    ensures |r| == |where.args| && forall k :: 0 <= k < |r| ==> r[k] == StrV(where.args[k])
  {
    seq(|where.args|, k requires 0 <= k < |where.args| => StrV(where.args[k]))
  }

  function Render(table: string, where: WherePart, a: Action): Statement
  {
    match a
    case Batch(parts) => ExecSql(UpdateSql(table, Texts(parts), where), AllArgs(parts) + WhereArgs(where))
    case Bulk(cv) => UpdateRowVals(table, cv, where)
  }

  function RenderAll(table: string, where: WherePart, actions: seq<Action>): (r: seq<Statement>)
    ensures |r| == |actions|
    ensures forall k :: 0 <= k < |actions| ==> r[k] == Render(table, where, actions[k])
  {
    if actions == [] then []
    else RenderAll(table, where, actions[..|actions| - 1]) + [Render(table, where, actions[|actions| - 1])]
  }

  lemma RenderSnoc(table: string, where: WherePart, actions: seq<Action>, a: Action)
    ensures RenderAll(table, where, actions + [a]) == RenderAll(table, where, actions) + [Render(table, where, a)]
  {
    assert (actions + [a])[..|actions|] == actions;
  }

  /** Flushing with nothing under way emits nothing; flushing a statement
      under way renders it after the earlier ones and leaves nothing
      pending. */
  lemma FlushedRendered(table: string, where: WherePart, p: Plan)
    ensures p.pending == [] ==> Flushed(p) == p
    ensures p.pending != [] ==>
      RenderAll(table, where, Flushed(p).done)
      == RenderAll(table, where, p.done) + [ExecSql(UpdateSql(table, Texts(p.pending), where), AllArgs(p.pending) + WhereArgs(where))]
    ensures p.pending != [] ==>
      Texts(Flushed(p).pending) == [] && AllArgs(Flushed(p).pending) == [] && Targets(Flushed(p).pending) == {}
  {
    if p.pending != [] {
      RenderSnoc(table, where, p.done, Batch(p.pending));
    }
  }

  // ---------------------------------------------------------------------
  // The imperative run.

  /** The local state of one `set` call: the SET items and arguments of the
      statement being assembled, the columns it assigns, and the statements
      handed to the database so far. */
  class SetRun {
    const table: string
    const where: WherePart
    var setParts: seq<string>
    var args: seq<Value>
    var usedCols: set<string>
    var executed: seq<Statement>

    constructor (table: string, where: WherePart)
      ensures this.table == table && this.where == where
      ensures setParts == [] && args == [] && usedCols == {} && executed == []
    {
      this.table := table;
      this.where := where;
      setParts := [];
      args := [];
      usedCols := {};
      executed := [];
    }

    /** The run's state is the plan `p`, rendered. */
    ghost predicate Represents(p: Plan)
      reads this
    {
      executed == RenderAll(table, where, p.done)
      && setParts == Texts(p.pending)
      && args == AllArgs(p.pending)
      && usedCols == Targets(p.pending)
    }

    method Flush(ghost p: Plan)
      requires Represents(p)
      modifies this
      ensures Represents(Flushed(p))
    {
      if setParts == [] {
        return;
      }
      var sql := UpdateSql(table, setParts, where);
      FlushedRendered(table, where, p);
      executed := executed + [ExecSql(sql, args + WhereArgs(where))];
      setParts := [];
      args := [];
      usedCols := {};
    }

    /** `playTogether`: flush first when the item clashes with the
        statement being assembled, then add it. */
    method PlayTogether(ghost p: Plan, part: Part)
      requires Represents(p)
      modifies this
      ensures Represents(Together(p, part))
    {
      ghost var q := p;
      if part.target in usedCols || (part.source.Some? && part.source.value in usedCols) {
        Flush(p);
        q := Flushed(p);
      }
      assert Together(p, part) == Plan(q.done, q.pending + [part]);
      PendingSnoc(q.pending, part);
      setParts := setParts + [part.text];
      args := args + part.args;
      usedCols := usedCols + {part.target};
    }

    method Apply(ghost p: Plan, op: SetOp)
      requires Represents(p)
      modifies this
      ensures Represents(Step(p, op))
    {
      if op.SetCV? {
        Flush(p);
        executed := executed + [UpdateRowVals(table, op.cv, where)];
      } else {
        PlayTogether(p, PartOf(op));
      }
    }
  }

  /** One more waiting item extends the texts, the arguments and the
      assigned columns by its own. */
  lemma PendingSnoc(parts: seq<Part>, part: Part)
    ensures Texts(parts + [part]) == Texts(parts) + [part.text]
    ensures AllArgs(parts + [part]) == AllArgs(parts) + part.args
    ensures Targets(parts + [part]) == Targets(parts) + {part.target}
  {
    TargetsSnoc(parts, part);
    assert (parts + [part])[..|parts|] == parts;
  }

  lemma TargetsSnoc(parts: seq<Part>, part: Part)
    ensures Targets(parts + [part]) == Targets(parts) + {part.target}
  {
    var all := parts + [part];
    forall x | x in Targets(all) ensures x in Targets(parts) + {part.target} {
      var k :| 0 <= k < |all| && all[k].target == x;
      if k < |parts| { assert parts[k] == all[k]; }
    }
    forall x | x in Targets(parts) ensures x in Targets(all) {
      var k :| 0 <= k < |parts| && parts[k].target == x;
      assert all[k] == parts[k];
    }
    assert all[|parts|] == part;
  }

  /** `set(table, where, actions)`: the statements it issues are those of
      the batching specification, in order. */
  method SetRows(table: string, where: WherePart, ops: seq<SetOp>) returns (stmts: seq<Statement>)
    ensures stmts == RenderAll(table, where, Batches(ops))
  {
    var run := new SetRun(table, where);
    for i := 0 to |ops|
      invariant run.table == table && run.where == where
      invariant run.Represents(Play(ops[..i]))
    {
      assert ops[..i + 1][..i] == ops[..i];
      run.Apply(Play(ops[..i]), ops[i]);
    }
    assert ops[..|ops|] == ops;
    run.Flush(Play(ops));
    stmts := run.executed;
  }

  // ---------------------------------------------------------------------
  // What the batching guarantees.

  /** No column is assigned twice in one statement, and no item reads a
      column an earlier item of the same statement assigned. */
  predicate BatchOk(parts: seq<Part>)
  {
    (forall i, j :: 0 <= i < j < |parts| ==> parts[i].target != parts[j].target)
    && (forall i, j :: 0 <= i < j < |parts| ==> parts[j].source != Some(parts[i].target))
  }

  predicate ActionOk(a: Action)
  {
    a.Batch? ==> a.parts != [] && BatchOk(a.parts)
  }

  predicate PlanOk(p: Plan)
  {
    (forall k :: 0 <= k < |p.done| ==> ActionOk(p.done[k])) && BatchOk(p.pending)
  }

  lemma InTargets(parts: seq<Part>, i: int)
    requires 0 <= i < |parts|
    ensures parts[i].target in Targets(parts)
  {
  }

  lemma FlushedOk(p: Plan)
    requires PlanOk(p)
    ensures PlanOk(Flushed(p))
  {
    if p.pending != [] {
      var d := p.done + [Batch(p.pending)];
      assert forall k :: 0 <= k < |d| ==> ActionOk(d[k]) by {
        forall k | 0 <= k < |d| ensures ActionOk(d[k]) {
          if k < |p.done| { assert d[k] == p.done[k]; }
        }
      }
    }
  }

  lemma TogetherOk(p: Plan, part: Part)
    requires PlanOk(p)
    ensures PlanOk(Together(p, part))
  {
    var q := if Clashes(part, p.pending) then Flushed(p) else p;
    FlushedOk(p);
    assert PlanOk(q);
    assert !Clashes(part, q.pending) by {
      if Clashes(part, p.pending) { assert q.pending == []; }
    }
    var np := q.pending + [part];
    forall i, j | 0 <= i < j < |np|
      ensures np[i].target != np[j].target && np[j].source != Some(np[i].target)
    {
      if j == |q.pending| {
        InTargets(q.pending, i);
      } else {
        assert np[i] == q.pending[i] && np[j] == q.pending[j];
      }
    }
  }

  lemma StepOk(p: Plan, op: SetOp)
    requires PlanOk(p)
    ensures PlanOk(Step(p, op))
  {
    if op.SetCV? {
      FlushedOk(p);
      var d := Flushed(p).done + [Bulk(op.cv)];
      forall k | 0 <= k < |d| ensures ActionOk(d[k]) {
        if k < |Flushed(p).done| { assert d[k] == Flushed(p).done[k]; }
      }
    } else {
      TogetherOk(p, PartOf(op));
    }
  }

  lemma {:induction false} PlayOk(ops: seq<SetOp>)
    ensures PlanOk(Play(ops))
    decreases |ops|
  {
    if ops != [] {
      PlayOk(ops[..|ops| - 1]);
      StepOk(Play(ops[..|ops| - 1]), ops[|ops| - 1]);
    }
  }

  /** Every statement `set` issues has at least one item, assigns each
      column at most once, and never reads a column it has already assigned. */
  lemma BatchesWellFormed(ops: seq<SetOp>)
    ensures forall k :: 0 <= k < |Batches(ops)| && Batches(ops)[k].Batch? ==>
      Batches(ops)[k].parts != [] && BatchOk(Batches(ops)[k].parts)
  {
    PlayOk(ops);
    FlushedOk(Play(ops));
  }

  /** What each recorded operation contributes, in recording order. */
  datatype Item = Assigned(part: Part) | BulkItem(cv: ContentValues)

  function ItemOf(op: SetOp): Item
  {
    if op.SetCV? then BulkItem(op.cv) else Assigned(PartOf(op))
  }

  function Items(ops: seq<SetOp>): seq<Item>
  {
    if ops == [] then [] else Items(ops[..|ops| - 1]) + [ItemOf(ops[|ops| - 1])]
  }

  function AssignedAll(parts: seq<Part>): seq<Item>
  {
    if parts == [] then [] else AssignedAll(parts[..|parts| - 1]) + [Assigned(parts[|parts| - 1])]
  }

  function ActionItems(a: Action): seq<Item>
  {
    match a
    case Batch(parts) => AssignedAll(parts)
    case Bulk(cv) => [BulkItem(cv)]
  }

  /** The items of a list of actions, action after action. */
  function Flatten(actions: seq<Action>): seq<Item>
  {
    if actions == [] then [] else Flatten(actions[..|actions| - 1]) + ActionItems(actions[|actions| - 1])
  }

  lemma FlattenSnoc(actions: seq<Action>, a: Action)
    ensures Flatten(actions + [a]) == Flatten(actions) + ActionItems(a)
  {
    assert (actions + [a])[..|actions|] == actions;
  }

  lemma AssignedSnoc(parts: seq<Part>, part: Part)
    ensures AssignedAll(parts + [part]) == AssignedAll(parts) + [Assigned(part)]
  {
    assert (parts + [part])[..|parts|] == parts;
  }

  lemma FlushedKeepsItems(p: Plan)
    ensures Flatten(Flushed(p).done) + AssignedAll(Flushed(p).pending)
         == Flatten(p.done) + AssignedAll(p.pending)
  {
    if p.pending != [] {
      FlattenSnoc(p.done, Batch(p.pending));
    }
  }

  lemma {:induction false} PlayKeepsItems(ops: seq<SetOp>)
    ensures Flatten(Play(ops).done) + AssignedAll(Play(ops).pending) == Items(ops)
    decreases |ops|
  {
    if ops != [] {
      var init, op := ops[..|ops| - 1], ops[|ops| - 1];
      var p := Play(init);
      PlayKeepsItems(init);
      StepKeepsItems(p, op);
      assert Play(ops) == Step(p, op);
      assert Items(ops) == Items(init) + [ItemOf(op)];
    }
  }

  /** One step appends the operation's item to what the plan carries. */
  lemma StepKeepsItems(p: Plan, op: SetOp)
    ensures Flatten(Step(p, op).done) + AssignedAll(Step(p, op).pending)
         == Flatten(p.done) + AssignedAll(p.pending) + [ItemOf(op)]
  {
    if op.SetCV? {
      BulkKeepsItems(p, op.cv);
    } else {
      TogetherKeepsItems(p, PartOf(op));
    }
  }

  lemma BulkKeepsItems(p: Plan, cv: ContentValues)
    ensures var r := Plan(Flushed(p).done + [Bulk(cv)], []);
      Flatten(r.done) + AssignedAll(r.pending) == Flatten(p.done) + AssignedAll(p.pending) + [BulkItem(cv)]
  {
    var f := Flushed(p);
    FlushedKeepsItems(p);
    FlattenSnoc(f.done, Bulk(cv));
    SnocAfter(Flatten(f.done), AssignedAll(f.pending), Flatten(p.done) + AssignedAll(p.pending), [BulkItem(cv)]);
  }

  lemma TogetherKeepsItems(p: Plan, part: Part)
    ensures var r := Together(p, part);
      Flatten(r.done) + AssignedAll(r.pending) == Flatten(p.done) + AssignedAll(p.pending) + [Assigned(part)]
  {
    var q := if Clashes(part, p.pending) then Flushed(p) else p;
    FlushedKeepsItems(p);
    assert Flatten(q.done) + AssignedAll(q.pending) == Flatten(p.done) + AssignedAll(p.pending);
    AssignedSnoc(q.pending, part);
    SnocAfter(Flatten(q.done), AssignedAll(q.pending), Flatten(p.done) + AssignedAll(p.pending), [Assigned(part)]);
  }

  /** Appending after two pieces that make up `whole`. */
  lemma SnocAfter(a: seq<Item>, b: seq<Item>, whole: seq<Item>, x: seq<Item>)
    requires a + b == whole
    ensures a + (b + x) == whole + x
    ensures b == [] ==> a + x + [] == whole + x
  {
  }

  /** Nothing is lost, duplicated or reordered: the statements carry every
      recorded item once, in recording order, and a bulk update sits exactly
      where it was recorded. */
  lemma BatchesKeepOrder(ops: seq<SetOp>)
    ensures Flatten(Batches(ops)) == Items(ops)
  {
    PlayKeepsItems(ops);
    FlushedKeepsItems(Play(ops));
  }

  /** Two statements in a row are split only because the first item of the
      second clashes with the first. */
  predicate Justified(done: seq<Action>)
  {
    forall k :: 0 <= k < |done| - 1 && done[k].Batch? && done[k + 1].Batch? ==>
      done[k + 1].parts != [] && Clashes(done[k + 1].parts[0], done[k].parts)
  }

  /** While a statement is assembled after another, it began with a clash. */
  predicate SplitsJustified(p: Plan)
  {
    Justified(p.done)
    && (|p.done| > 0 && p.done[|p.done| - 1].Batch? ==>
       p.pending != [] && Clashes(p.pending[0], p.done[|p.done| - 1].parts))
  }

  lemma FlushedJustified(p: Plan)
    requires SplitsJustified(p)
    ensures Justified(Flushed(p).done)
    ensures p.pending != [] ==> Flushed(p).done == p.done + [Batch(p.pending)]
  {
    if p.pending != [] {
      var d := p.done + [Batch(p.pending)];
      forall k | 0 <= k < |d| - 1 && d[k].Batch? && d[k + 1].Batch?
        ensures d[k + 1].parts != [] && Clashes(d[k + 1].parts[0], d[k].parts)
      {
        assert d[k] == p.done[k];
        if k + 1 < |p.done| { assert d[k + 1] == p.done[k + 1]; }
      }
    }
  }

  lemma StepJustified(p: Plan, op: SetOp)
    requires SplitsJustified(p)
    ensures SplitsJustified(Step(p, op))
  {
    if op.SetCV? {
      BulkJustified(p, op.cv);
    } else {
      TogetherJustified(p, PartOf(op));
    }
  }

  lemma BulkJustified(p: Plan, cv: ContentValues)
    requires SplitsJustified(p)
    ensures SplitsJustified(Plan(Flushed(p).done + [Bulk(cv)], []))
  {
    FlushedJustified(p);
    var f := Flushed(p);
    var d := f.done + [Bulk(cv)];
    forall k | 0 <= k < |d| - 1 && d[k].Batch? && d[k + 1].Batch?
      ensures d[k + 1].parts != [] && Clashes(d[k + 1].parts[0], d[k].parts)
    {
      assert d[k] == f.done[k] && d[k + 1] == f.done[k + 1];
    }
  }

  lemma TogetherJustified(p: Plan, part: Part)
    requires SplitsJustified(p)
    ensures SplitsJustified(Together(p, part))
  {
    FlushedJustified(p);
    if !Clashes(part, p.pending) && p.pending != [] {
      assert (p.pending + [part])[0] == p.pending[0];
    }
  }

  lemma {:induction false} PlayJustified(ops: seq<SetOp>)
    ensures SplitsJustified(Play(ops))
    decreases |ops|
  {
    if ops != [] {
      PlayJustified(ops[..|ops| - 1]);
      StepJustified(Play(ops[..|ops| - 1]), ops[|ops| - 1]);
    }
  }

  /** `set` opens a new statement only when it must: whenever two `UPDATE`
      statements follow each other, the first item of the second assigns or
      reads a column the first one assigns. */
  lemma BatchesSplitOnlyOnClash(ops: seq<SetOp>)
    ensures var b := Batches(ops);
      forall k :: 0 <= k < |b| - 1 && b[k].Batch? && b[k + 1].Batch? ==>
        b[k + 1].parts != [] && Clashes(b[k + 1].parts[0], b[k].parts)
  {
    PlayJustified(ops);
    FlushedJustified(Play(ops));
    assert Justified(Batches(ops));
  }

  predicate PartsAligned(parts: seq<Part>)
  {
    forall k :: 0 <= k < |parts| ==> Marks(parts[k].text) == |parts[k].args|
  }

  predicate PlanAligned(p: Plan)
  {
    (forall k :: 0 <= k < |p.done| && p.done[k].Batch? ==> PartsAligned(p.done[k].parts))
    && PartsAligned(p.pending)
  }

  /** Every operation names columns (and, for arithmetic, an operator)
      without `?`. */
  predicate AllPlain(ops: seq<SetOp>)
  {
    forall k :: 0 <= k < |ops| && !ops[k].SetCV? ==> Plain(ops[k])
  }

  lemma FlushedAligned(p: Plan)
    requires PlanAligned(p)
    ensures PlanAligned(Flushed(p))
  {
    if p.pending != [] {
      var d := p.done + [Batch(p.pending)];
      forall k | 0 <= k < |d| && d[k].Batch? ensures PartsAligned(d[k].parts) {
        if k < |p.done| { assert d[k] == p.done[k]; }
      }
    }
  }

  lemma {:induction false} PlayAligned(ops: seq<SetOp>)
    requires AllPlain(ops)
    ensures PlanAligned(Play(ops))
    decreases |ops|
  {
    if ops != [] {
      var init, op := ops[..|ops| - 1], ops[|ops| - 1];
      assert AllPlain(init) by {
        forall k | 0 <= k < |init| && !init[k].SetCV? ensures Plain(init[k]) {
          assert init[k] == ops[k];
        }
      }
      PlayAligned(init);
      var p := Play(init);
      FlushedAligned(p);
      var f := Flushed(p);
      if op.SetCV? {
        var d := f.done + [Bulk(op.cv)];
        forall k | 0 <= k < |d| && d[k].Batch? ensures PartsAligned(d[k].parts) {
          assert d[k] == f.done[k];
        }
      } else {
        PartOfAligned(op);
      }
    }
  }

  lemma {:induction false} TextsMarks(parts: seq<Part>)
    requires PartsAligned(parts)
    ensures MarksAll(Texts(parts)) == |AllArgs(parts)|
    decreases |parts|
  {
    if parts != [] {
      var init := parts[..|parts| - 1];
      TextsMarks(init);
      MarksAllSnoc(Texts(init), parts[|parts| - 1].text);
    }
  }

  lemma UpdateLiterals()
    ensures Marks("UPDATE ") == 0 && Marks(" SET ") == 0
  {
    CountAbsent('?', "UPDATE ");
    CountAbsent('?', " SET ");
  }

  lemma UpdateSqlMarks(table: string, parts: seq<Part>, where: WherePart)
    requires Marks(table) == 0 && PartsAligned(parts) && where.Aligned()
    ensures Marks(UpdateSql(table, Texts(parts), where)) == |AllArgs(parts) + WhereArgs(where)|
  {
    var list := Join(Texts(parts), ", ");
    JoinMarks(Texts(parts), ", ");
    TextsMarks(parts);
    UpdateLiterals();
    MarksConcat3("UPDATE ", table, " SET ");
    MarksConcat3("UPDATE " + table + " SET ", list, DslQuery.WhereSection(where));
  }

  /** Every `UPDATE` that `set` issues binds exactly one argument per `?`:
      the item arguments in item order, then the WHERE arguments. */
  lemma SetRowsBindsAllArgs(table: string, where: WherePart, ops: seq<SetOp>)
    requires Marks(table) == 0 && where.Aligned() && AllPlain(ops)
    ensures var stmts := RenderAll(table, where, Batches(ops));
      forall k :: 0 <= k < |stmts| && stmts[k].ExecSql? ==> Marks(stmts[k].sql) == |stmts[k].args|
  {
    PlayAligned(ops);
    FlushedAligned(Play(ops));
    var b := Batches(ops);
    forall k | 0 <= k < |b| && b[k].Batch?
      ensures Marks(Render(table, where, b[k]).sql) == |Render(table, where, b[k]).args|
    {
      UpdateSqlMarks(table, b[k].parts, where);
    }
  }
}
