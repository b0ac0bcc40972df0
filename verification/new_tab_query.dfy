/** `newTableQuery`: the `CREATE TABLE` statement for a list of typed
    columns (list fields already expanded into numbered columns). */
module NewTable {
  import opened Wrappers
  import opened Text
  import opened Values
  import opened TypedColumn

  const CreateTable := "CREATE TABLE IF NOT EXISTS "
  const DefaultKeyword := " DEFAULT "

  /** The reserved name of integer primary keys (`_ID`). */
  const IdName := "id"

  /** The non-nullable entries of `ColumnTypeSql`. */
  datatype ColumnTypeSql = Id | IntType | StrType | BoolType | LongType | FloatType | BlobType
  {
    /** The enum's text: ` INTEGER NOT NULL PRIMARY KEY`, ` INT NOT NULL`,
        ` TEXT NOT NULL`, ` BOOL NOT NULL`, ` BIGINT NOT NULL`,
        ` REAL NOT NULL`, ` BLOB NOT NULL`. */
    function Sql(): string
    {
      " " + TypeName() + Constraints()
    }

    function Constraints(): string
    {
      if this == Id then " NOT NULL PRIMARY KEY" else " NOT NULL"
    }

    /** The SQLite type name, the first word of `Sql()`. */
    function TypeName(): string
    {
      match this
      case Id => "INTEGER"
      case IntType => "INT"
      case StrType => "TEXT"
      case BoolType => "BOOL"
      case LongType => "BIGINT"
      case FloatType => "REAL"
      case BlobType => "BLOB"
    }
  }

  /** A non-empty run of capital letters. */
  predicate IsUpperWord(s: string)
  {
    s != [] && forall k :: 0 <= k < |s| ==> 'A' <= s[k] <= 'Z'
  }

  lemma TypeNameIsWord(t: ColumnTypeSql)
    ensures IsUpperWord(t.TypeName())
  {
    match t
    case Id => assert IsUpperWord("INTEGER");
    case IntType => assert IsUpperWord("INT");
    case StrType => assert IsUpperWord("TEXT");
    case BoolType => assert IsUpperWord("BOOL");
    case LongType => assert IsUpperWord("BIGINT");
    case FloatType => assert IsUpperWord("REAL");
    case BlobType => assert IsUpperWord("BLOB");
  }

  function TypeOf(col: Column): (r: ColumnTypeSql)
    ensures r == Id <==> col.IntCol? && col.name == IdName
    ensures r == BlobType <==> col.BlobCol?
  {
    match col
    case IntCol(name, _) => if name == IdName then Id else IntType
    case StrCol(_, _) => StrType
    case BoolCol(_, _) => BoolType
    case LongCol(_, _) => LongType
    case FloatCol(_, _) => FloatType
    case BlobCol(_, _) => BlobType
  }

  /** The default's SQL text: absent for the `id` column and for blobs,
      quoted for strings, `1`/`0` for booleans, decimal for numbers. */
  function DefaultSql(col: Column): (r: Option<string>)
    ensures r.None? <==> col.BlobCol? || (col.IntCol? && col.name == IdName)
    ensures col.StrCol? ==> r == Some("'" + col.strDefault + "'")
    ensures col.BoolCol? ==> r == Some(if col.boolDefault then "1" else "0")
  {
    match col
    case IntCol(name, d) => if name == IdName then None else Some(IntToString(d))
    case StrCol(_, d) => Some("'" + d + "'")
    case BoolCol(_, d) => Some(if d then "1" else "0")
    case LongCol(_, d) => Some(IntToString(d))
    case FloatCol(_, d) => Some(d)
    case BlobCol(_, _) => None
  }

  function DefaultClause(col: Column): string
  {
    match DefaultSql(col)
    case Some(d) => DefaultKeyword + d
    case None => ""
  }

  /** One column definition: name, type clause, then the default clause. */
  function ColumnDef(col: Column): string
  {
    col.name + TypeOf(col).Sql() + DefaultClause(col)
  }

  /** One definition per column, in column order. */
  function Defs(columns: seq<Column>): (r: seq<string>)
    ensures |r| == |columns|
    ensures forall k :: 0 <= k < |columns| ==> r[k] == ColumnDef(columns[k])
  {
    seq(|columns|, k requires 0 <= k < |columns| => ColumnDef(columns[k]))
  }

  function NewTableQuery(table: string, columns: seq<Column>): string
  {
    CreateTable + table + " (" + Join(Defs(columns), ", ") + ")"
  }
}
