# VanKornoDB core, modelled in Dafny

VanKornoDB is a Kotlin ORM layer over Android's SQLite. This project models
its deterministic core, the parts that decide which SQL text is sent and
with which arguments:

- **SQL text builders.** These cover the WHERE builder base
  (`condition`, `conditionRaw`, `multCompare`, `multCompareRaw`,
  `buildStr`), the typed comparison DSL (`WhereDsl`), and the
  group/and/or/subquery and ORDER BY `and`/`group`/`When` extensions. They
  also cover the older `getQuery` with its `WhereBuilder` and `JoinBuilder`,
  and the DSL `getQuery` that assembles a SELECT with its ordered argument
  list. Each builder is a class whose `clauses`/`args` (or `orderoids`)
  sequences the methods extend. The invariant they keep is that the number
  of `?` placeholders in the text equals the number of arguments bound.
- **Typed columns and `CREATE TABLE`.** These cover the column classes,
  their factories, and the `*ListCol` expansions. `newTableQuery` turns
  columns into a CREATE statement, and `getTableTypesFromInitQuery` reads
  the column types back from the stored CREATE statement. The two are
  proved to round-trip.
- **The SET DSL and UPDATE batching.** `SetBuilder` records `SetOp`s.
  `set` groups them into UPDATE statements and flushes a batch whenever an
  op's target or source column is already used in it. The method is proved
  equal to a functional plan (`Batches`), and the plan is proved to keep
  every op in order, to flush only on a clash, and to bind one argument per
  `?`.
- **Migration bookkeeping.** This covers the migration DSL (`version`,
  `rename`, `milestone`, `from … to …`) and the step selection of
  `migrateMultiStepInternal`. It also covers `convertThroughSteps`,
  `convertEntity`, the rename history (`getNameAtVersion`,
  `getRenameSnapshot`), the per-field overrides (`TransformColDsl`,
  `FieldOverride.apply`) and the primitive conversion
  `tryAutoConvertValue`. The lighter `migrateLite` path is included too:
  `findOldName`, `defaultValueForParam`, `convertEntity`, `readAsMigrated`
  and `mapIdenticals`.
- **Entity-version table sync.** `DbManager` reconciles the version table
  with the declared entity metadata on start-up. The model proves that
  afterwards the table's names are exactly the declared names, and that
  rows already stored keep their version.

The model's shared conventions are these:
- `Option` stands for a nullable value.
- `Result` stands for a thrown `error(…)`.
- A Kotlin DSL block (`WhereDsl.()->Unit`, …) is modelled by what it leaves
  in a fresh builder: a `WherePart`, `OrderPart` or `JoinPart`.
- An Android call is modelled by its effect on modelled state. Examples are
  `execSQL` appending to `executed`, and a version-table row being added or
  deleted.

## Model

All source paths below are under `VanKornoDB/src/main/java/com/vankorno/vankornodb/`, written out in full.

| member | source | states |
|---|---|---|
| WhereBase.Placeholders | VanKornoDB/src/main/java/com/vankorno/vankornodb/core/queryBuilder/WhereBuilderBase.kt:37-41 | the placeholder list has exactly n `?`, and is empty iff n = 0 |
| WhereBase.MultCompareClause | VanKornoDB/src/main/java/com/vankorno/vankornodb/core/queryBuilder/WhereBuilderBase.kt:32-44 | `col op (?, …)` carries n placeholders beyond those in column and operator, and ends with `)` |
| WhereBase.RawComparisons | VanKornoDB/src/main/java/com/vankorno/vankornodb/core/queryBuilder/WhereBuilderBase.kt:59-62 | one `column+operator+other` per other column, in input order |
| WhereBase.MultCompareRawClause | VanKornoDB/src/main/java/com/vankorno/vankornodb/core/queryBuilder/WhereBuilderBase.kt:56-68 | the parenthesised OR/AND list holds no placeholder beyond those of its comparisons |
| WhereBase.BuildMultCompareClause | VanKornoDB/src/main/java/com/vankorno/vankornodb/core/queryBuilder/WhereBuilderBase.kt:32-44 | the index loop with its `lastIndex` comma test builds exactly `MultCompareClause` |
| WhereBase.BuildMultCompareRawClause | VanKornoDB/src/main/java/com/vankorno/vankornodb/core/queryBuilder/WhereBuilderBase.kt:56-68 | the index loop builds exactly `MultCompareRawClause` (" OR " when positive, else " AND ") |
| WhereBase.MultCompareKeepsAligned | VanKornoDB/src/main/java/com/vankorno/vankornodb/core/queryBuilder/WhereBuilderBase.kt:32-47 | appending the IN/LIKE clause adds exactly n placeholders to the clause list |
| WhereBase.BindTexts | VanKornoDB/src/main/java/com/vankorno/vankornodb/core/queryBuilder/WhereBuilderBase.kt:45-47 | one `toString()` text per value, in input order |
| WhereBase.WhereBuilderBase.constructor | VanKornoDB/src/main/java/com/vankorno/vankornodb/core/queryBuilder/WhereBuilderBase.kt:5-7 | a new builder has no clauses and no args |
| WhereBase.WhereBuilderBase.BuildStr | VanKornoDB/src/main/java/com/vankorno/vankornodb/core/queryBuilder/WhereBuilderBase.kt:9 | the clauses joined by a single space |
| WhereBase.WhereBuilderBase.Condition | VanKornoDB/src/main/java/com/vankorno/vankornodb/core/queryBuilder/WhereBuilderBase.kt:11-17 | appends `column+op+"?"` and `value`; keeps placeholders aligned with args |
| WhereBase.WhereBuilderBase.ConditionRaw | VanKornoDB/src/main/java/com/vankorno/vankornodb/core/queryBuilder/WhereBuilderBase.kt:20-25 | appends `column+op+other`, args unchanged; alignment kept when the text has no `?` |
| WhereBase.WhereBuilderBase.MultCompare | VanKornoDB/src/main/java/com/vankorno/vankornodb/core/queryBuilder/WhereBuilderBase.kt:28-48 | one clause with n placeholders; n args appended after the old ones, in order; alignment kept |
| WhereBase.WhereBuilderBase.MultCompareRaw | VanKornoDB/src/main/java/com/vankorno/vankornodb/core/queryBuilder/WhereBuilderBase.kt:51-69 | one raw clause appended, no args added; alignment kept when the column texts have no `?` |
| WhereDsl.CmpOp.Text | VanKornoDB/src/main/java/com/vankorno/vankornodb/core/dsl/WhereDsl.kt:31-57 | each comparison operator is a non-empty text without placeholders |
| WhereDsl.LikeText | VanKornoDB/src/main/java/com/vankorno/vankornodb/core/dsl/WhereDsl.kt:90-91 | " LIKE "/" NOT LIKE " carry no placeholder |
| WhereDsl.InText | VanKornoDB/src/main/java/com/vankorno/vankornodb/core/dsl/WhereDsl.kt:104-114 | IN/NOT IN carry no placeholder |
| WhereDsl.TypedArg | VanKornoDB/src/main/java/com/vankorno/vankornodb/core/dsl/WhereDsl.kt:31-34 | a BoolCol value binds "1"/"0", a string binds itself, an Int its decimal text |
| WhereDsl.UntypedArg | VanKornoDB/src/main/java/com/vankorno/vankornodb/core/dsl/WhereDsl.kt:124-129 | a Boolean binds "1"/"0" for `equal`/`notEqual` only; ordering operators bind "true"/"false" |
| WhereDsl.RawClause | VanKornoDB/src/main/java/com/vankorno/vankornodb/core/dsl/WhereDsl.kt:22 | appends the text verbatim, args unchanged |
| WhereDsl.Dot | VanKornoDB/src/main/java/com/vankorno/vankornodb/core/dsl/WhereDsl.kt:25 | `a + "." + b`, character by character |
| WhereDsl.Compare | VanKornoDB/src/main/java/com/vankorno/vankornodb/core/dsl/WhereDsl.kt:31-57 | appends `name op ?` and the typed arg (Bool as "1"/"0"); alignment kept |
| WhereDsl.CompareCol | VanKornoDB/src/main/java/com/vankorno/vankornodb/core/dsl/WhereDsl.kt:61-87 | column-to-column comparison adds no arg |
| WhereDsl.Like | VanKornoDB/src/main/java/com/vankorno/vankornodb/core/dsl/WhereDsl.kt:90-91 | appends `name LIKE ?` (or NOT LIKE) and the value |
| WhereDsl.LikeCol | VanKornoDB/src/main/java/com/vankorno/vankornodb/core/dsl/WhereDsl.kt:93-94 | appends `name LIKE other`, no arg |
| WhereDsl.LikeAny | VanKornoDB/src/main/java/com/vankorno/vankornodb/core/dsl/WhereDsl.kt:97-98 | one LIKE clause with a placeholder per value; the values appended in order |
| WhereDsl.ArgsAppended | VanKornoDB/src/main/java/com/vankorno/vankornodb/core/queryBuilder/WhereBuilderBase.kt:45-47 | per-index appends amount to sequence concatenation |
| WhereDsl.Names | VanKornoDB/src/main/java/com/vankorno/vankornodb/core/dsl/WhereDsl.kt:100-101 | the names of the other columns, in order |
| WhereDsl.LikeAnyCol | VanKornoDB/src/main/java/com/vankorno/vankornodb/core/dsl/WhereDsl.kt:100-101 | LIKE joins with OR, NOT LIKE with AND; no args |
| WhereDsl.TypedArgs | VanKornoDB/src/main/java/com/vankorno/vankornodb/core/dsl/WhereDsl.kt:104-108 | one typed text per value, Booleans as "1"/"0" |
| WhereDsl.EqualAny | VanKornoDB/src/main/java/com/vankorno/vankornodb/core/dsl/WhereDsl.kt:104-114 | IN / NOT IN with one placeholder and one arg per value; alignment kept |
| WhereDsl.CompareNamed | VanKornoDB/src/main/java/com/vankorno/vankornodb/core/dsl/WhereDsl.kt:124-129 | untyped comparison: clause `column op ?` and the untyped arg |
| WhereDsl.CompareNamedCol | VanKornoDB/src/main/java/com/vankorno/vankornodb/core/dsl/WhereDsl.kt:135-140 | untyped column-to-column comparison adds no arg |
| WhereDsl.LikeNamed | VanKornoDB/src/main/java/com/vankorno/vankornodb/core/dsl/WhereDsl.kt:148-149 | untyped LIKE binds `value.toString()` |
| WhereDsl.LikeNamedCol | VanKornoDB/src/main/java/com/vankorno/vankornodb/core/dsl/WhereDsl.kt:151-152 | untyped LIKE against a column adds no arg |
| WhereDsl.LikeAnyNamed | VanKornoDB/src/main/java/com/vankorno/vankornodb/core/dsl/WhereDsl.kt:155-156 | one placeholder per value; the values' texts appended in order |
| WhereDsl.LikeAnyNamedCol | VanKornoDB/src/main/java/com/vankorno/vankornodb/core/dsl/WhereDsl.kt:158-159 | OR-joined LIKE / AND-joined NOT LIKE over columns, no args |
| WhereDsl.EqualAnyNamed | VanKornoDB/src/main/java/com/vankorno/vankornodb/core/dsl/WhereDsl.kt:161-162 | untyped IN / NOT IN, values' texts appended in order |
| WhereDsl.SetID | VanKornoDB/src/main/java/com/vankorno/vankornodb/core/dsl/WhereDsl.kt:172-174 | setting `ID` appends `id=?` and the id's decimal text |
| WhereDsl.SetName | VanKornoDB/src/main/java/com/vankorno/vankornodb/core/dsl/WhereDsl.kt:178-180 | setting `Name` appends `name=?` and the name |
| WhereDsl.ReadID | VanKornoDB/src/main/java/com/vankorno/vankornodb/core/dsl/WhereDsl.kt:171 | reading `ID` is always an error |
| WhereDsl.ReadName | VanKornoDB/src/main/java/com/vankorno/vankornodb/core/dsl/WhereDsl.kt:177 | reading `Name` is always an error |
| QueryDsls.GroupMarks | VanKornoDB/src/main/java/com/vankorno/vankornodb/api/QueryDSLs.kt:84 | wrapping the joined inner clauses in parentheses keeps their placeholder count |
| QueryDsls.Group | VanKornoDB/src/main/java/com/vankorno/vankornodb/api/QueryDSLs.kt:78-86 | empty inner block: nothing changes; else one `(inner)` clause and the inner args after the old ones; alignment kept |
| QueryDsls.And | VanKornoDB/src/main/java/com/vankorno/vankornodb/api/QueryDSLs.kt:88-97 | empty inner block: no-op; else "AND" then the inner clauses flattened, inner args appended |
| QueryDsls.AndGroup | VanKornoDB/src/main/java/com/vankorno/vankornodb/api/QueryDSLs.kt:98-106 | empty inner block: no-op; else "AND" then one parenthesised clause, inner args appended |
| QueryDsls.Or | VanKornoDB/src/main/java/com/vankorno/vankornodb/api/QueryDSLs.kt:108-117 | as `And` with "OR" |
| QueryDsls.OrGroup | VanKornoDB/src/main/java/com/vankorno/vankornodb/api/QueryDSLs.kt:119-127 | as `AndGroup` with "OR" |
| QueryDsls.SubqueryMarks | VanKornoDB/src/main/java/com/vankorno/vankornodb/api/QueryDSLs.kt:133-135 | the parenthesised inner query has as many `?` as the inner args |
| QueryDsls.Subquery | VanKornoDB/src/main/java/com/vankorno/vankornodb/api/QueryDSLs.kt:129-139 | returns `"(" + inner query + ")"`, appends the inner args, adds no clause |
| QueryDsls.OrderAnd | VanKornoDB/src/main/java/com/vankorno/vankornodb/api/QueryDSLs.kt:29-34 | inner terms and args appended in order; alignment kept |
| QueryDsls.OrderGroup | VanKornoDB/src/main/java/com/vankorno/vankornodb/api/QueryDSLs.kt:36-43 | `(inner)` added only for a non-empty inner block, with its args |
| QueryDsls.Branch | VanKornoDB/src/main/java/com/vankorno/vankornodb/api/QueryDSLs.kt:59-64 | ` WHEN w THEN o` carries the where args' then the order args' placeholders |
| QueryDsls.BranchesMarks | VanKornoDB/src/main/java/com/vankorno/vankornodb/api/QueryDSLs.kt:58-65 | all branches together carry exactly as many `?` as the args the loop appends |
| QueryDsls.Case | VanKornoDB/src/main/java/com/vankorno/vankornodb/api/QueryDSLs.kt:70 | the CASE … END wrapper adds no placeholder |
| QueryDsls.ElsePart | VanKornoDB/src/main/java/com/vankorno/vankornodb/api/QueryDSLs.kt:66-68 | ` ELSE e` appears iff the else text is non-empty |
| QueryDsls.AppendBranches | VanKornoDB/src/main/java/com/vankorno/vankornodb/api/QueryDSLs.kt:58-65 | the loop builds the branches in order and appends each entry's where args then order args |
| QueryDsls.When | VanKornoDB/src/main/java/com/vankorno/vankornodb/api/QueryDSLs.kt:54-71 | one CASE term appended; args are the branch args only; aligned when the else block binds nothing |
| QueryDsls.CaseAligned | VanKornoDB/src/main/java/com/vankorno/vankornodb/api/QueryDSLs.kt:54-71 | with an arg-free else block, the CASE term keeps placeholders aligned with args |
| QueryDsls.WhenDropsElseArgs | VanKornoDB/src/main/java/com/vankorno/vankornodb/api/QueryDSLs.kt:54-71 | for `When(orderWhen("name") { ID = 1 }, Else = { When(orderWhen("id") { Name = "x" }) })`, whose parts are all aligned, the CASE term carries two `?` while only "1" is appended |
| QueryDsls.WhenBindingElse | VanKornoDB/src/main/java/com/vankorno/vankornodb/api/QueryDSLs.kt:54-71 | corrected `When`: the else args follow the branch args, and alignment holds for every aligned else block |
| DslQuery.Select | VanKornoDB/src/main/java/com/vankorno/vankornodb/core/dsl/GetQuery.kt:32-35 | `SELECT cols FROM table` carries only the placeholders of its parts |
| DslQuery.JoinSection | VanKornoDB/src/main/java/com/vankorno/vankornodb/core/dsl/GetQuery.kt:36-39 | empty iff there are no joins; carries the joins' placeholders |
| DslQuery.WhereSection | VanKornoDB/src/main/java/com/vankorno/vankornodb/core/dsl/GetQuery.kt:40-43 | ` WHERE …` appears iff there are where clauses |
| DslQuery.OrderSection | VanKornoDB/src/main/java/com/vankorno/vankornodb/core/dsl/GetQuery.kt:52-55 | ` ORDER BY …` appears iff there are order terms |
| DslQuery.TextSection | VanKornoDB/src/main/java/com/vankorno/vankornodb/core/dsl/GetQuery.kt:44-51 | GROUP BY / HAVING appear iff their text is not blank |
| DslQuery.NumberSection | VanKornoDB/src/main/java/com/vankorno/vankornodb/core/dsl/GetQuery.kt:56-63 | LIMIT / OFFSET appear iff the value is non-null, with no placeholder |
| DslQuery.EndSection | VanKornoDB/src/main/java/com/vankorno/vankornodb/core/dsl/GetQuery.kt:64-66 | customEnd is appended verbatim when not blank, else nothing |
| DslQuery.Grouping | VanKornoDB/src/main/java/com/vankorno/vankornodb/core/dsl/GetQuery.kt:44-51 | the GROUP BY / HAVING part carries no placeholder for a well-formed holder |
| DslQuery.Ending | VanKornoDB/src/main/java/com/vankorno/vankornodb/core/dsl/GetQuery.kt:56-66 | the LIMIT / OFFSET / customEnd part carries no placeholder for a well-formed holder |
| DslQuery.Sections | VanKornoDB/src/main/java/com/vankorno/vankornodb/core/dsl/GetQuery.kt:36-66 | for an aligned holder, the sections after FROM carry as many `?` as the join, where and order args together |
| DslQuery.GetQuery | VanKornoDB/src/main/java/com/vankorno/vankornodb/core/dsl/GetQuery.kt:23-75 | the query starts with `SELECT cols FROM table`; args are join args ++ where args ++ order args |
| DslQuery.GetQueryBindsAllArgs | VanKornoDB/src/main/java/com/vankorno/vankornodb/core/dsl/GetQuery.kt:31-74 | the query has exactly as many `?` as args |
| DslQuery.DefaultHolderIsHead | VanKornoDB/src/main/java/com/vankorno/vankornodb/core/dsl/GetQuery.kt:23-75 | with an empty DSL the query is just `SELECT cols FROM table` and binds nothing |
| DslQuery.WhereOnlyQuery | VanKornoDB/src/main/java/com/vankorno/vankornodb/core/dsl/GetQuery.kt:40-43 | with only a where block, ` WHERE ` + buildStr follows the head iff clauses exist; args are the where args |
| LegacyQuery.GroupAligned | VanKornoDB/src/main/java/com/vankorno/vankornodb/core/QueryBuilder.kt:106-111 | adding `(inner)` with the inner args keeps placeholders aligned |
| LegacyQuery.Grouping | VanKornoDB/src/main/java/com/vankorno/vankornodb/core/QueryBuilder.kt:36-47 | GROUP BY / HAVING / ORDER BY texts contribute exactly their own placeholders |
| LegacyQuery.Ending | VanKornoDB/src/main/java/com/vankorno/vankornodb/core/QueryBuilder.kt:48-58 | with a placeholder-free customEnd, the LIMIT / OFFSET / customEnd tail adds no placeholder |
| LegacyQuery.Sections | VanKornoDB/src/main/java/com/vankorno/vankornodb/core/QueryBuilder.kt:28-58 | the sections after FROM carry exactly the placeholders of the joins, the where clauses and the GROUP BY / HAVING / ORDER BY texts |
| LegacyQuery.GetQuery | VanKornoDB/src/main/java/com/vankorno/vankornodb/core/QueryBuilder.kt:9-61 | the query starts with `SELECT cols FROM table`; the returned args are the where-builder args |
| LegacyQuery.GetQueryBindsAllArgs | VanKornoDB/src/main/java/com/vankorno/vankornodb/core/QueryBuilder.kt:23-60 | with placeholder-free texts, `?` count equals args |
| LegacyQuery.EmptyAndLeavesKeyword | VanKornoDB/src/main/java/com/vankorno/vankornodb/core/QueryBuilder.kt:114-120 | unlike the DSL, an empty `and {}` keeps its "AND": for any clauses before it, the WHERE section is that section (or " WHERE ") followed by a lone "AND" |
| LegacyQuery.WhereBuilder.constructor | VanKornoDB/src/main/java/com/vankorno/vankornodb/core/QueryBuilder.kt:64-66 | starts with no clauses and no args |
| LegacyQuery.WhereBuilder.Condition | VanKornoDB/src/main/java/com/vankorno/vankornodb/core/QueryBuilder.kt:68-74 | appends `column+op+"?"` and the value |
| LegacyQuery.WhereBuilder.ConditionRaw | VanKornoDB/src/main/java/com/vankorno/vankornodb/core/QueryBuilder.kt:75-78 | appends `column+op+other`, no arg |
| LegacyQuery.WhereBuilder.Compare | VanKornoDB/src/main/java/com/vankorno/vankornodb/core/QueryBuilder.kt:83-88 | Booleans bind "1"/"0" for equal/notEqual; alignment kept |
| LegacyQuery.WhereBuilder.CompareCol | VanKornoDB/src/main/java/com/vankorno/vankornodb/core/QueryBuilder.kt:94-99 | column-to-column comparison, no arg |
| LegacyQuery.WhereBuilder.Group | VanKornoDB/src/main/java/com/vankorno/vankornodb/core/QueryBuilder.kt:106-111 | always adds `(inner joined by space)` and the inner args, even when empty |
| LegacyQuery.WhereBuilder.And | VanKornoDB/src/main/java/com/vankorno/vankornodb/core/QueryBuilder.kt:114-120 | "AND" then the inner clauses, inner args appended; alignment kept; with an empty block the WHERE section ends in a lone "AND" |
| LegacyQuery.WhereBuilder.AndGroup | VanKornoDB/src/main/java/com/vankorno/vankornodb/core/QueryBuilder.kt:121-125 | "AND" then one parenthesised clause |
| LegacyQuery.WhereBuilder.Or | VanKornoDB/src/main/java/com/vankorno/vankornodb/core/QueryBuilder.kt:127-133 | "OR" then the inner clauses, inner args appended |
| LegacyQuery.WhereBuilder.OrGroup | VanKornoDB/src/main/java/com/vankorno/vankornodb/core/QueryBuilder.kt:134-138 | "OR" then one parenthesised clause |
| LegacyQuery.WhereBuilder.Subquery | VanKornoDB/src/main/java/com/vankorno/vankornodb/core/QueryBuilder.kt:140-157 | returns `(inner query)` and appends the inner where args |
| LegacyQuery.WhereBuilder.RawClause | VanKornoDB/src/main/java/com/vankorno/vankornodb/core/QueryBuilder.kt:160 | appends the text verbatim |
| LegacyQuery.JoinBuilder.constructor | VanKornoDB/src/main/java/com/vankorno/vankornodb/core/QueryBuilder.kt:164-165 | starts with no joins |
| LegacyQuery.JoinBuilder.Inner | VanKornoDB/src/main/java/com/vankorno/vankornodb/core/QueryBuilder.kt:167-169 | appends `INNER JOIN t ON c` |
| LegacyQuery.JoinBuilder.Left | VanKornoDB/src/main/java/com/vankorno/vankornodb/core/QueryBuilder.kt:171-173 | appends `LEFT JOIN t ON c` |
| LegacyQuery.JoinBuilder.Cross | VanKornoDB/src/main/java/com/vankorno/vankornodb/core/QueryBuilder.kt:175-177 | appends `CROSS JOIN t` |
| OrderBase.Terms | VanKornoDB/src/main/java/com/vankorno/vankornodb/core/queryBuilder/OrderByBuilder.kt:22-24 | one term per column, in order: the name for `asc`, `name DESC` for `desc` |
| OrderBase.OrderBuilder.constructor | VanKornoDB/src/main/java/com/vankorno/vankornodb/core/queryBuilder/OrderByBuilder.kt:8-10 | a new ORDER BY builder has no terms and no args |
| OrderBase.OrderBuilder.BuildStr | VanKornoDB/src/main/java/com/vankorno/vankornodb/core/queryBuilder/OrderByBuilder.kt:12 | the terms joined by ", " |
| OrderBase.OrderBuilder.Asc | VanKornoDB/src/main/java/com/vankorno/vankornodb/core/queryBuilder/OrderByBuilder.kt:22 | appends each column's name, in order; args unchanged |
| OrderBase.OrderBuilder.Desc | VanKornoDB/src/main/java/com/vankorno/vankornodb/core/queryBuilder/OrderByBuilder.kt:24 | appends `name DESC` per column, in order; args unchanged |
| OrderBase.OrderBuilder.Raw | VanKornoDB/src/main/java/com/vankorno/vankornodb/core/queryBuilder/OrderByBuilder.kt:26 | appends the raw strings verbatim, in order; args unchanged |
| Values.WrapInt32 | VanKornoDB/src/main/java/com/vankorno/vankornodb/dbManagement/migration/Migration.kt:286 | `toInt()` keeps a value that fits in 32 bits and otherwise agrees with it modulo 2^32 |
| Values.WrapInt64 | VanKornoDB/src/main/java/com/vankorno/vankornodb/set/dsl/SetBuilder.kt:41 | 64-bit arithmetic keeps a value that fits and otherwise agrees with it modulo 2^64 |
| Values.BoolSafe | VanKornoDB/src/main/java/com/vankorno/vankornodb/set/noty/SetNoty.kt:49-52 | a Boolean binds as the Int 1 or 0; every other value binds unchanged |
| TypedColumn.ICol | VanKornoDB/src/main/java/com/vankorno/vankornodb/dbManagement/data/TypedColumn.kt:19 | an IntCol of that name and default (0 when omitted) |
| TypedColumn.SCol | VanKornoDB/src/main/java/com/vankorno/vankornodb/dbManagement/data/TypedColumn.kt:20 | a StrCol, default "" |
| TypedColumn.BCol | VanKornoDB/src/main/java/com/vankorno/vankornodb/dbManagement/data/TypedColumn.kt:21 | a BoolCol, default false |
| TypedColumn.LCol | VanKornoDB/src/main/java/com/vankorno/vankornodb/dbManagement/data/TypedColumn.kt:22 | a LongCol, default 0 |
| TypedColumn.FCol | VanKornoDB/src/main/java/com/vankorno/vankornodb/dbManagement/data/TypedColumn.kt:23 | a FloatCol, default 0.0 |
| TypedColumn.PCol | VanKornoDB/src/main/java/com/vankorno/vankornodb/dbManagement/data/TypedColumn.kt:24 | a BlobCol, default the empty byte array |
| TypedColumn.Expand | VanKornoDB/src/main/java/com/vankorno/vankornodb/dbManagement/data/TypedColumn.kt:27-32 | `List(size)`: fails iff size < 0; else column k is made with name n+(k+1) |
| TypedColumn.IListCol | VanKornoDB/src/main/java/com/vankorno/vankornodb/dbManagement/data/TypedColumn.kt:27 | k IntCols named n1…nk, each with default d; size 0 gives the empty list |
| TypedColumn.SListCol | VanKornoDB/src/main/java/com/vankorno/vankornodb/dbManagement/data/TypedColumn.kt:28 | as IListCol for StrCol |
| TypedColumn.BListCol | VanKornoDB/src/main/java/com/vankorno/vankornodb/dbManagement/data/TypedColumn.kt:29 | as IListCol for BoolCol |
| TypedColumn.LListCol | VanKornoDB/src/main/java/com/vankorno/vankornodb/dbManagement/data/TypedColumn.kt:30 | as IListCol for LongCol |
| TypedColumn.FListCol | VanKornoDB/src/main/java/com/vankorno/vankornodb/dbManagement/data/TypedColumn.kt:31 | as IListCol for FloatCol |
| TypedColumn.PListCol | VanKornoDB/src/main/java/com/vankorno/vankornodb/dbManagement/data/TypedColumn.kt:32 | BlobCols, each with the empty default |
| TypedColumn.ExpandedNamesDistinct | VanKornoDB/src/main/java/com/vankorno/vankornodb/dbManagement/data/TypedColumn.kt:27-32 | the expanded columns have pairwise distinct names |
| NewTable.TypeOf | VanKornoDB/src/main/java/com/vankorno/vankornodb/newTable/NewTabQuery.kt:37-53 | an IntCol named "id" (and only it) gets the ID type; only a BlobCol gets the BLOB type |
| NewTable.DefaultSql | VanKornoDB/src/main/java/com/vankorno/vankornodb/newTable/NewTabQuery.kt:37-53 | no DEFAULT exactly for BlobCol and the id column; strings single-quoted; Booleans "1"/"0" |
| NewTable.DefaultClause | VanKornoDB/src/main/java/com/vankorno/vankornodb/newTable/NewTabQuery.kt:55-58 | the definition: " DEFAULT " and the default text when there is one, else nothing |
| NewTable.ColumnDef | VanKornoDB/src/main/java/com/vankorno/vankornodb/newTable/NewTabQuery.kt:60 | the definition: name, type clause, default clause (read back by `TableTypes.ColumnTypeOfDef`) |
| NewTable.Defs | VanKornoDB/src/main/java/com/vankorno/vankornodb/newTable/NewTabQuery.kt:34-61 | one definition per column, in input order |
| NewTable.NewTableQuery | VanKornoDB/src/main/java/com/vankorno/vankornodb/newTable/NewTabQuery.kt:31-64 | the definition: "CREATE TABLE IF NOT EXISTS " + table + " (" + the definitions joined by ", " + ")" (its round trip: `TableTypes.TableTypesRoundTrip`) |
| TableTypes.QueryHead | VanKornoDB/src/main/java/com/vankorno/vankornodb/newTable/NewTabQuery.kt:63 | the query is a `(`-free head, then `(`, the definitions joined by ", ", then `)` |
| TableTypes.LineEnd | VanKornoDB/src/main/java/com/vankorno/vankornodb/get/raw/GetTableTypes.kt:24 | the regex's `.` stops at the first line terminator |
| TableTypes.LastClose | VanKornoDB/src/main/java/com/vankorno/vankornodb/get/raw/GetTableTypes.kt:24 | the greedy `.*` backs off to the last `)` in range |
| TableTypes.ColumnsTextSpan | VanKornoDB/src/main/java/com/vankorno/vankornodb/get/raw/GetTableTypes.kt:24 | the captured text runs from just after the first `(` to the last `)` on its line |
| TableTypes.ColumnsText | VanKornoDB/src/main/java/com/vankorno/vankornodb/get/raw/GetTableTypes.kt:24 | the definition: the regex group 1, or "" when there is no match (its span: `ColumnsTextSpan`, `ColumnsTextOf`) |
| TableTypes.TypeWordsStop | VanKornoDB/src/main/java/com/vankorno/vankornodb/get/raw/GetTableTypes.kt:31-38 | the type tokens are a prefix of the tokens, non-empty when the tokens are; the parenthesis balance stays > 0 before the last one taken, and is <= 0 where the loop stops early |
| TableTypes.ColumnType | VanKornoDB/src/main/java/com/vankorno/vankornodb/get/raw/GetTableTypes.kt:27-39 | the definition: "TEXT" below two tokens, else the balance-bounded type tokens joined by spaces (computed by `ColumnTypeOf`, read back by `ColumnTypeOfDef`) |
| TableTypes.TableTypes | VanKornoDB/src/main/java/com/vankorno/vankornodb/get/raw/GetTableTypes.kt:20-40 | blank SQL gives []; else one type per comma-separated piece of the captured text |
| TableTypes.CollectTypeTokens | VanKornoDB/src/main/java/com/vankorno/vankornodb/get/raw/GetTableTypes.kt:31-38 | the `typeTokens`/`parenCount` loop computes exactly the balance-bounded prefix |
| TableTypes.ColumnTypeOf | VanKornoDB/src/main/java/com/vankorno/vankornodb/get/raw/GetTableTypes.kt:27-39 | the token loop computes `ColumnType`: "TEXT" for fewer than two tokens, else the balance-bounded type tokens after the name, joined by " " |
| TableTypes.GetTableTypes | VanKornoDB/src/main/java/com/vankorno/vankornodb/get/raw/GetTableTypes.kt:12-41 | the imperative reading equals `TableTypes` |
| TableTypes.ColumnTypesOf | VanKornoDB/src/main/java/com/vankorno/vankornodb/get/raw/GetTableTypes.kt:26-40 | the `map` over pieces: one type per piece, in order |
| TableTypes.TableTypesEach | VanKornoDB/src/main/java/com/vankorno/vankornodb/get/raw/GetTableTypes.kt:26-40 | per-piece types make up `TableTypes` |
| TableTypes.TypeNames | VanKornoDB/src/main/java/com/vankorno/vankornodb/newTable/NewTabQuery.kt:37-53 | the SQL type word of each column, in order |
| TableTypes.ColumnDefClean | VanKornoDB/src/main/java/com/vankorno/vankornodb/newTable/NewTabQuery.kt:34-60 | a definition of a plain column holds no comma, parenthesis or line break |
| TableTypes.SplitJoined | VanKornoDB/src/main/java/com/vankorno/vankornodb/get/raw/GetTableTypes.kt:26 | splitting the ", "-joined definitions at "," gives back each definition (with one leading space) |
| TableTypes.ColumnsTextOf | VanKornoDB/src/main/java/com/vankorno/vankornodb/get/raw/GetTableTypes.kt:20-24 | on a generated query the regex captures exactly the joined definitions, and the query is not blank |
| TableTypes.ColumnTypeOfDef | VanKornoDB/src/main/java/com/vankorno/vankornodb/get/raw/GetTableTypes.kt:27-39 | reading a generated definition gives back its type word |
| TableTypes.PiecesTyped | VanKornoDB/src/main/java/com/vankorno/vankornodb/get/raw/GetTableTypes.kt:26-40 | each comma piece of the joined definitions reads back as its column's type word |
| TableTypes.TableTypesRoundTrip | VanKornoDB/src/main/java/com/vankorno/vankornodb/get/raw/GetTableTypes.kt:20-40 | reading the types of `newTableQuery(table, cols)` gives each column's type word, in order |
| TableTypes.NoColumnsReadAsText | VanKornoDB/src/main/java/com/vankorno/vankornodb/get/raw/GetTableTypes.kt:26-28 | a table with no columns reads back as one "TEXT" |
| SetOps.AndAdd | VanKornoDB/src/main/java/com/vankorno/vankornodb/set/dsl/BaseSetBuilder.kt:69 | ColOp(name, value, Add) |
| SetOps.AndSub | VanKornoDB/src/main/java/com/vankorno/vankornodb/set/dsl/BaseSetBuilder.kt:70 | ColOp(name, value, Sub) |
| SetOps.AndMult | VanKornoDB/src/main/java/com/vankorno/vankornodb/set/dsl/BaseSetBuilder.kt:71 | ColOp(name, value, Mult) |
| SetOps.AndDiv | VanKornoDB/src/main/java/com/vankorno/vankornodb/set/dsl/BaseSetBuilder.kt:72 | ColOp(name, value, Div) |
| SetOps.AndCapAt | VanKornoDB/src/main/java/com/vankorno/vankornodb/set/dsl/BaseSetBuilder.kt:73 | ColOp with CapAt(value) carrying the same value |
| SetOps.AndFloorAt | VanKornoDB/src/main/java/com/vankorno/vankornodb/set/dsl/BaseSetBuilder.kt:74 | ColOp with FloorAt(value) carrying the same value |
| SetOps.AndCoerceIn | VanKornoDB/src/main/java/com/vankorno/vankornodb/set/dsl/BaseSetBuilder.kt:75-76 | ColOp with value = first and CoerceIn(first, last) |
| SetOps.MultShortcutsExact | VanKornoDB/src/main/java/com/vankorno/vankornodb/set/dsl/BaseSetBuilder.kt:28-51 | the ops recorded for `mult v` (none for 1, Set 0 for 0) turn x into x·v |
| SetOps.DivShortcutsExact | VanKornoDB/src/main/java/com/vankorno/vankornodb/set/dsl/BaseSetBuilder.kt:28-51 | the ops recorded for `div v` turn x into x/v truncated (v ≠ 0), and into 0 for v = 0 |
| SetOps.SetBuilder.constructor | VanKornoDB/src/main/java/com/vankorno/vankornodb/set/dsl/BaseSetBuilder.kt:20-24 | starts with no ops |
| SetOps.SetBuilder.IMultDiv | VanKornoDB/src/main/java/com/vankorno/vankornodb/set/dsl/BaseSetBuilder.kt:28-39 | appends the shortcut ops for the factor after `toInt()` (a Long wrapped, a Float or Double truncated toward zero and clamped): none for 1, a Set to 0 for 0, else one NumOp; their effect is proved by `MultShortcutsExact` / `DivShortcutsExact` |
| SetOps.SetBuilder.LMultDiv | VanKornoDB/src/main/java/com/vankorno/vankornodb/set/dsl/BaseSetBuilder.kt:40-51 | the same shortcut ops for the factor after `toLong()` (a Float or Double truncated and clamped) |
| SetDsl.SetCV | VanKornoDB/src/main/java/com/vankorno/vankornodb/set/dsl/SetBuilder.kt:24 | appends SetCV(cv) |
| SetDsl.SetTo | VanKornoDB/src/main/java/com/vankorno/vankornodb/set/dsl/SetBuilder.kt:27 | appends Set(col, value) |
| SetDsl.SetToNamed | VanKornoDB/src/main/java/com/vankorno/vankornodb/set/dsl/SetBuilder.kt:29 | appends SetNoty(name, value) |
| SetDsl.Flip | VanKornoDB/src/main/java/com/vankorno/vankornodb/set/dsl/SetBuilder.kt:31 | appends Flip(col) |
| SetDsl.Off | VanKornoDB/src/main/java/com/vankorno/vankornodb/set/dsl/SetBuilder.kt:32 | appends Set(col, false) |
| SetDsl.On | VanKornoDB/src/main/java/com/vankorno/vankornodb/set/dsl/SetBuilder.kt:33 | appends Set(col, true) |
| SetDsl.Add | VanKornoDB/src/main/java/com/vankorno/vankornodb/set/dsl/SetBuilder.kt:36 | appends NumOp(name, v, "+") |
| SetDsl.AddAll | VanKornoDB/src/main/java/com/vankorno/vankornodb/set/dsl/SetBuilder.kt:38 | one "+" NumOp per column, in list order |
| SetDsl.AddToEach | VanKornoDB/src/main/java/com/vankorno/vankornodb/set/dsl/SetBuilder.kt:38 | appends exactly `AddAll(cols, v)` |
| SetDsl.Negated | VanKornoDB/src/main/java/com/vankorno/vankornodb/set/dsl/SetBuilder.kt:40-41 | `-v.toInt()` / `-v.toLong()`, equal to the true negation except at MIN_VALUE |
| SetDsl.Sub | VanKornoDB/src/main/java/com/vankorno/vankornodb/set/dsl/SetBuilder.kt:40-41 | appends NumOp(name, -v, "+"), v being the operand after `toInt()`/`toLong()` (fractions truncated) and the negation wrapped |
| SetDsl.SubMinValueAdds | VanKornoDB/src/main/java/com/vankorno/vankornodb/set/dsl/SetBuilder.kt:40 | the recorded `sub` of any operand that `toInt()` makes Int.MIN_VALUE turns x into x − 2^31, while subtracting −2^31 gives x + 2^31 |
| SetDsl.Operand | VanKornoDB/src/main/java/com/vankorno/vankornodb/set/dsl/SetBuilder.kt:40-41 | the factor as Int / Long, without negation |
| SetDsl.SubExact | VanKornoDB/src/main/java/com/vankorno/vankornodb/set/dsl/SetBuilder.kt:40-41 | corrected `sub`: appends NumOp(name, v, "-") |
| SetDsl.SubExactSubtracts | VanKornoDB/src/main/java/com/vankorno/vankornodb/set/dsl/SetBuilder.kt:40-41 | corrected `sub` turns x into x − v for every v |
| SetDsl.SubAgreesAwayFromMin | VanKornoDB/src/main/java/com/vankorno/vankornodb/set/dsl/SetBuilder.kt:40-41 | away from MIN_VALUE the recorded and corrected `sub` have the same effect |
| SetDsl.MultDiv | VanKornoDB/src/main/java/com/vankorno/vankornodb/set/dsl/SetBuilder.kt:45-49 | `mult`/`div` on Int and Long columns take any Number and delegate to the Int / Long multiply-divide rule |
| SetDsl.FractionalFactorTruncated | VanKornoDB/src/main/java/com/vankorno/vankornodb/set/dsl/BaseSetBuilder.kt:28-39 | a fractional factor on an Int column is truncated first: integer part 0 (`mult 0.5`) assigns 0, integer part 1 (`mult 1.5`) records nothing, and `mult` multiplies by the clamped integer part |
| SetDsl.Abs | VanKornoDB/src/main/java/com/vankorno/vankornodb/set/dsl/SetBuilder.kt:55 | appends Abs(name) |
| SetDsl.CapAt | VanKornoDB/src/main/java/com/vankorno/vankornodb/set/dsl/SetBuilder.kt:58 | appends MinMax(name, v, false) |
| SetDsl.FloorAt | VanKornoDB/src/main/java/com/vankorno/vankornodb/set/dsl/SetBuilder.kt:59 | appends MinMax(name, v, true) |
| SetDsl.CoerceIn | VanKornoDB/src/main/java/com/vankorno/vankornodb/set/dsl/SetBuilder.kt:62-69 | appends CoerceIn(name, first, last) |
| SetDsl.SetAs | VanKornoDB/src/main/java/com/vankorno/vankornodb/set/dsl/SetBuilder.kt:78-82 | appends SetAs(target, source) names |
| SetDsl.SetAsModified | VanKornoDB/src/main/java/com/vankorno/vankornodb/set/dsl/SetBuilder.kt:85-90 | appends SetAsModified(target, colWithOp) |
| SetExec.Applied | VanKornoDB/src/main/java/com/vankorno/vankornodb/set/Set.kt:129-132 | `col op ?` has one placeholder more than its parts |
| SetExec.Around | VanKornoDB/src/main/java/com/vankorno/vankornodb/set/Set.kt:133-135 | wrapping a column keeps the placeholders of the pieces |
| SetExec.BuildMathPart | VanKornoDB/src/main/java/com/vankorno/vankornodb/set/Set.kt:123-136 | one arg per `?`: cap / floor for CapAt / FloorAt, min then max for CoerceIn, else the value |
| SetExec.MathText | VanKornoDB/src/main/java/com/vankorno/vankornodb/set/Set.kt:128-136 | CoerceIn text has two placeholders, every other one |
| SetExec.Assign | VanKornoDB/src/main/java/com/vankorno/vankornodb/set/Set.kt:67 | `col = rhs` adds no placeholder |
| SetExec.Rhs | VanKornoDB/src/main/java/com/vankorno/vankornodb/set/Set.kt:66-106 | the definition: each op's right-hand side and args (`?` with the Boolean-safe value, `NOT col`, `col op ?`, `ABS(col)`, `MIN`/`MAX(col, ?)`, `MIN(MAX(col, ?), ?)`) (properties: `RhsAligned`) |
| SetExec.PartOf | VanKornoDB/src/main/java/com/vankorno/vankornodb/set/Set.kt:64-106 | each op's SET item names its target and source column |
| SetExec.RhsAligned | VanKornoDB/src/main/java/com/vankorno/vankornodb/set/Set.kt:66-106 | every op's right-hand side has as many `?` as the args it appends |
| SetExec.PartOfAligned | VanKornoDB/src/main/java/com/vankorno/vankornodb/set/Set.kt:64-106 | each SET item carries as many `?` as args |
| SetExec.Texts | VanKornoDB/src/main/java/com/vankorno/vankornodb/set/Set.kt:39 | the `setParts` texts, in order |
| SetExec.WhereArgs | VanKornoDB/src/main/java/com/vankorno/vankornodb/set/Set.kt:45 | the where-builder args, in order |
| SetExec.RenderAll | VanKornoDB/src/main/java/com/vankorno/vankornodb/set/Set.kt:32-50 | one statement per planned action, in order |
| SetExec.UpdateSql | VanKornoDB/src/main/java/com/vankorno/vankornodb/set/Set.kt:35-44 | the definition: "UPDATE " + table + " SET " + the items joined by ", " + the WHERE section (property: `UpdateSqlMarks`) |
| SetExec.Flushed | VanKornoDB/src/main/java/com/vankorno/vankornodb/set/Set.kt:32-50 | the definition: pending items become one batch when there are any (properties: `FlushedRendered`, `FlushedOk`, `FlushedKeepsItems`) |
| SetExec.Together | VanKornoDB/src/main/java/com/vankorno/vankornodb/set/Set.kt:53-61 | the definition: flush first when the item clashes with the pending ones, then append it (properties: `TogetherOk`, `TogetherJustified`) |
| SetExec.Play | VanKornoDB/src/main/java/com/vankorno/vankornodb/set/Set.kt:64-108 | the definition: the plan after every op in order (properties: `PlayOk`, `PlayKeepsItems`, `PlayJustified`, `PlayAligned`) |
| SetExec.Batches | VanKornoDB/src/main/java/com/vankorno/vankornodb/set/Set.kt:21-110 | the definition: the plan's actions after the final flush (properties: `BatchesWellFormed`, `BatchesKeepOrder`, `BatchesSplitOnlyOnClash`; computed by `SetRows`) |
| SetExec.FlushedRendered | VanKornoDB/src/main/java/com/vankorno/vankornodb/set/Set.kt:32-50 | a flush with nothing pending emits nothing; otherwise it emits the UPDATE of the pending parts with batch args ++ where args, and clears parts, args and used columns |
| SetExec.SetRun.constructor | VanKornoDB/src/main/java/com/vankorno/vankornodb/set/Set.kt:28-30 | empty setParts, args and usedCols; no statement emitted yet |
| SetExec.SetRun.Flush | VanKornoDB/src/main/java/com/vankorno/vankornodb/set/Set.kt:32-50 | the run's state moves as `Flushed` moves the plan |
| SetExec.SetRun.PlayTogether | VanKornoDB/src/main/java/com/vankorno/vankornodb/set/Set.kt:53-61 | flush first when the target or source is already used, then add the item |
| SetExec.SetRun.Apply | VanKornoDB/src/main/java/com/vankorno/vankornodb/set/Set.kt:65-107 | one op's effect equals one plan step (SetCV flushes, then emits the bulk update) |
| SetExec.SetRows | VanKornoDB/src/main/java/com/vankorno/vankornodb/set/Set.kt:21-110 | the statements emitted are exactly those of the functional plan `Batches`, in order |
| SetExec.FlushedOk | VanKornoDB/src/main/java/com/vankorno/vankornodb/set/Set.kt:32-50 | flushing keeps every emitted batch well formed |
| SetExec.TogetherOk | VanKornoDB/src/main/java/com/vankorno/vankornodb/set/Set.kt:53-61 | adding an item keeps the pending batch free of repeated targets and backward sources |
| SetExec.StepOk | VanKornoDB/src/main/java/com/vankorno/vankornodb/set/Set.kt:64-107 | each op preserves well-formedness |
| SetExec.PlayOk | VanKornoDB/src/main/java/com/vankorno/vankornodb/set/Set.kt:64-109 | playing all ops keeps the plan well formed |
| SetExec.BatchesWellFormed | VanKornoDB/src/main/java/com/vankorno/vankornodb/set/Set.kt:53-61 | every emitted batch is non-empty, no target repeats in it, and no source reads an earlier target of it |
| SetExec.FlushedKeepsItems | VanKornoDB/src/main/java/com/vankorno/vankornodb/set/Set.kt:32-50 | flushing neither loses nor reorders items |
| SetExec.StepKeepsItems | VanKornoDB/src/main/java/com/vankorno/vankornodb/set/Set.kt:64-107 | one op appends exactly its own item |
| SetExec.BulkKeepsItems | VanKornoDB/src/main/java/com/vankorno/vankornodb/set/Set.kt:74-77 | SetCV appends its bulk update after the flushed batch |
| SetExec.TogetherKeepsItems | VanKornoDB/src/main/java/com/vankorno/vankornodb/set/Set.kt:53-61 | an item is appended after everything already planned |
| SetExec.PlayKeepsItems | VanKornoDB/src/main/java/com/vankorno/vankornodb/set/Set.kt:64-108 | done ++ pending is the ops' items, in op order |
| SetExec.BatchesKeepOrder | VanKornoDB/src/main/java/com/vankorno/vankornodb/set/Set.kt:64-109 | the emitted statements, flattened, are the ops in order (the final flush loses nothing) |
| SetExec.FlushedJustified | VanKornoDB/src/main/java/com/vankorno/vankornodb/set/Set.kt:32-50 | a flush closes the pending items as one batch |
| SetExec.StepJustified | VanKornoDB/src/main/java/com/vankorno/vankornodb/set/Set.kt:64-107 | each op keeps "a batch is split only on a clash" |
| SetExec.BulkJustified | VanKornoDB/src/main/java/com/vankorno/vankornodb/set/Set.kt:74-77 | the SetCV flush keeps the split rule |
| SetExec.TogetherJustified | VanKornoDB/src/main/java/com/vankorno/vankornodb/set/Set.kt:57-58 | `playTogether` flushes only when its target or source was used |
| SetExec.PlayJustified | VanKornoDB/src/main/java/com/vankorno/vankornodb/set/Set.kt:64-108 | the split rule holds after all ops |
| SetExec.BatchesSplitOnlyOnClash | VanKornoDB/src/main/java/com/vankorno/vankornodb/set/Set.kt:53-61 | two adjacent batches are split only because the later one's first item clashes with the earlier batch |
| SetExec.FlushedAligned | VanKornoDB/src/main/java/com/vankorno/vankornodb/set/Set.kt:32-50 | flushing keeps placeholders aligned |
| SetExec.PlayAligned | VanKornoDB/src/main/java/com/vankorno/vankornodb/set/Set.kt:64-108 | with placeholder-free names, every batch has as many `?` as args |
| SetExec.TextsMarks | VanKornoDB/src/main/java/com/vankorno/vankornodb/set/Set.kt:39 | the joined SET items carry as many `?` as the batch args |
| SetExec.UpdateSqlMarks | VanKornoDB/src/main/java/com/vankorno/vankornodb/set/Set.kt:35-45 | the UPDATE text has as many `?` as batch args ++ where args |
| SetExec.SetRowsBindsAllArgs | VanKornoDB/src/main/java/com/vankorno/vankornodb/set/Set.kt:21-110 | every emitted UPDATE binds exactly one arg per `?` |
| TransformCol.FieldOverride.Typed | VanKornoDB/src/main/java/com/vankorno/vankornodb/dbManagement/migration/dsl/TransformCol.kt:39-52 | the type-specific handler answers iff it is set; non-scalars have none |
| TransformCol.FieldOverride.Apply | VanKornoDB/src/main/java/com/vankorno/vankornodb/dbManagement/migration/dsl/TransformCol.kt:36-55 | null without a fallback stays null; a non-null value always yields a value |
| TransformCol.BlankIsIdentity | VanKornoDB/src/main/java/com/vankorno/vankornodb/dbManagement/migration/dsl/TransformCol.kt:36-54 | an override with nothing set returns its input |
| TransformCol.TypedHandlerWins | VanKornoDB/src/main/java/com/vankorno/vankornodb/dbManagement/migration/dsl/TransformCol.kt:39-50 | a set type-specific handler decides the result |
| TransformCol.OtherThenUnchanged | VanKornoDB/src/main/java/com/vankorno/vankornodb/dbManagement/migration/dsl/TransformCol.kt:39-52 | otherwise `fromOther` decides, else the value passes through unchanged |
| TransformCol.FinalRunsLast | VanKornoDB/src/main/java/com/vankorno/vankornodb/dbManagement/migration/dsl/TransformCol.kt:54 | `finalTransform` is applied last, to the rest's result, and only for non-null values |
| TransformCol.TransformColDsl.constructor | VanKornoDB/src/main/java/com/vankorno/vankornodb/dbManagement/migration/dsl/TransformCol.kt:9 | starts with no overrides |
| TransformCol.TransformColDsl.Modify | VanKornoDB/src/main/java/com/vankorno/vankornodb/dbManagement/migration/dsl/TransformCol.kt:11-17 | replaces any earlier override for the field; other fields unchanged |
| TransformCol.TransformColDsl.GetOverride | VanKornoDB/src/main/java/com/vankorno/vankornodb/dbManagement/migration/dsl/TransformCol.kt:19 | null exactly for a field never registered |
| MigrationDsl.IndexOf | VanKornoDB/src/main/java/com/vankorno/vankornodb/dbManagement/migration/dsl/MigrationDsl.kt:44 | the position of a key in the insertion-ordered rename history |
| MigrationDsl.MergeLookup | VanKornoDB/src/main/java/com/vankorno/vankornodb/dbManagement/migration/dsl/MigrationDsl.kt:58-69 | merging records under a key appends them to that key's list only; insertion order and key uniqueness kept |
| MigrationDsl.MergeAllLookup | VanKornoDB/src/main/java/com/vankorno/vankornodb/dbManagement/migration/dsl/MigrationDsl.kt:58-69 | after merging all entries, each key's history is its old records then the new ones, in order |
| MigrationDsl.MergeEntry | VanKornoDB/src/main/java/com/vankorno/vankornodb/dbManagement/migration/dsl/MigrationDsl.kt:62-68 | the append-or-set loop computes the merged history |
| MigrationDsl.OverridesLastWins | VanKornoDB/src/main/java/com/vankorno/vankornodb/dbManagement/migration/dsl/MigrationDsl.kt:112-114 | a field has an override iff some `modify` names it, and the last one wins |
| MigrationDsl.RunOverrides | VanKornoDB/src/main/java/com/vankorno/vankornodb/dbManagement/migration/dsl/MigrationDsl.kt:112-114 | running a milestone's modifications registers them in call order |
| MigrationDsl.RenameBuilder.constructor | VanKornoDB/src/main/java/com/vankorno/vankornodb/dbManagement/migration/dsl/MigrationDsl.kt:123-125 | a rename block starts with no records |
| MigrationDsl.RenameBuilder.To | VanKornoDB/src/main/java/com/vankorno/vankornodb/dbManagement/migration/dsl/MigrationDsl.kt:136-144 | `key from a to b` records RenameRecord(version, a, b) under key |
| MigrationDsl.VersionBuilder.constructor | VanKornoDB/src/main/java/com/vankorno/vankornodb/dbManagement/migration/dsl/MigrationDsl.kt:79-82 | no milestone, no pending renames |
| MigrationDsl.VersionBuilder.Rename | VanKornoDB/src/main/java/com/vankorno/vankornodb/dbManagement/migration/dsl/MigrationDsl.kt:84-100 | the block's records are merged into the pending renames |
| MigrationDsl.VersionBuilder.Milestone | VanKornoDB/src/main/java/com/vankorno/vankornodb/dbManagement/migration/dsl/MigrationDsl.kt:108-119 | a later milestone() replaces the earlier one |
| MigrationDsl.MigrationDef.constructor | VanKornoDB/src/main/java/com/vankorno/vankornodb/dbManagement/migration/dsl/MigrationDsl.kt:42-45 | empty specs, history and milestones |
| MigrationDsl.MigrationDef.Version | VanKornoDB/src/main/java/com/vankorno/vankornodb/dbManagement/migration/dsl/MigrationDsl.kt:47-75 | stores the schema at that version (overwriting), merges renames, appends (version, milestone) only when defined |
| MigrationDsl.DefineMigrations | VanKornoDB/src/main/java/com/vankorno/vankornodb/dbManagement/migration/dsl/MigrationDsl.kt:23-39 | the latest schema is filed only if that version is absent |
| MigrationDsl.LatestAlwaysFiled | VanKornoDB/src/main/java/com/vankorno/vankornodb/dbManagement/migration/dsl/MigrationDsl.kt:30-32 | afterwards the latest version is present, an existing entry is kept, and no other version changes |
| Entities.Construct | VanKornoDB/src/main/java/com/vankorno/vankornodb/dbManagement/migration/Migration.kt:162 | `callBy` builds an object with exactly the constructor's parameters |
| Entities.ConstructAt | VanKornoDB/src/main/java/com/vankorno/vankornodb/dbManagement/migration/Migration.kt:160-162 | a parameter takes the passed value if its key is present, else its default |
| Migration.Relevant | VanKornoDB/src/main/java/com/vankorno/vankornodb/dbManagement/migration/Migration.kt:66-68 | keeps exactly the milestones with oldVersion < v <= newVersion |
| Migration.MigrationPlan | VanKornoDB/src/main/java/com/vankorno/vankornodb/dbManagement/migration/Migration.kt:55-72 | the definition: none when newVersion <= oldVersion, else the relevant milestones with newVersion appended when no milestone is declared there (its properties: `PlanSteps`) |
| Migration.Steps | VanKornoDB/src/main/java/com/vankorno/vankornodb/dbManagement/migration/Migration.kt:74 | the plan's versions, in order |
| Migration.PlanSteps | VanKornoDB/src/main/java/com/vankorno/vankornodb/dbManagement/migration/Migration.kt:55-74 | no plan iff newVersion <= oldVersion; steps lie in (old, new], include new, end with new when it is no milestone, and cover every relevant milestone |
| Migration.SortDescOk | VanKornoDB/src/main/java/com/vankorno/vankornodb/dbManagement/migration/Migration.kt:255 | `sortedByDescending` yields a descending permutation |
| Migration.SortDesc | VanKornoDB/src/main/java/com/vankorno/vankornodb/dbManagement/migration/Migration.kt:255 | the definition: a stable descending sort by version, by insertion; keeps the length (order and permutation: `SortDescOk`) |
| Migration.Walk | VanKornoDB/src/main/java/com/vankorno/vankornodb/dbManagement/migration/Migration.kt:255-258 | the definition: walks the sorted records down to the first at or below the version, taking a record's `from` whenever its `to` is the current name (closed forms: `NameAtLatest`, `NameAtChain`) |
| Migration.NameAt | VanKornoDB/src/main/java/com/vankorno/vankornodb/dbManagement/migration/Migration.kt:253 | null exactly for an empty history |
| Migration.GetNameAtVersion | VanKornoDB/src/main/java/com/vankorno/vankornodb/dbManagement/migration/Migration.kt:250-260 | the loop with `break` computes `NameAt` |
| Migration.NameAtLatest | VanKornoDB/src/main/java/com/vankorno/vankornodb/dbManagement/migration/Migration.kt:253-258 | at or after every record's version, the name is the latest `to` |
| Migration.NameAtChain | VanKornoDB/src/main/java/com/vankorno/vankornodb/dbManagement/migration/Migration.kt:250-260 | for a rename chain, the name at v is the `from` of the first rename after v, else the last `to` |
| Migration.GetRenameSnapshot | VanKornoDB/src/main/java/com/vankorno/vankornodb/dbManagement/migration/Migration.kt:226-241 | the loop over the history computes `Snapshot` |
| Migration.Snapshot | VanKornoDB/src/main/java/com/vankorno/vankornodb/dbManagement/migration/Migration.kt:226-241 | the definition: over the histories in map order, target name ↦ old name when both exist and differ, later histories overwriting (properties: `SnapshotPairs`, `SnapshotLastWins`, `SnapshotSameVersion`) |
| Migration.SnapshotPairs | VanKornoDB/src/main/java/com/vankorno/vankornodb/dbManagement/migration/Migration.kt:232-238 | every entry maps a target name to a different old name of one history; every history whose two names differ has its target name as a key |
| Migration.SnapshotLastWins | VanKornoDB/src/main/java/com/vankorno/vankornodb/dbManagement/migration/Migration.kt:232-238 | when histories share a target name, the last one in map order supplies the old name; earlier pairs are overwritten |
| Migration.SnapshotSameVersion | VanKornoDB/src/main/java/com/vankorno/vankornodb/dbManagement/migration/Migration.kt:232-238 | between a version and itself nothing is renamed |
| Migration.TryAutoConvertValue | VanKornoDB/src/main/java/com/vankorno/vankornodb/dbManagement/migration/Migration.kt:277-330 | the definition: the conversion table between Int, Long, Float, Double, Boolean and String, float casts given as a parameter (properties: `ConvertRules`, `ConvertedHasKind`, `ConvertRoundTrips`) |
| Migration.ConvertRules | VanKornoDB/src/main/java/com/vankorno/vankornodb/dbManagement/migration/Migration.kt:280-328 | null stays null; Boolean→Int/Long gives 1/0; Int/Long→Boolean is "non-zero"; only a String converts to String; list and class targets give null |
| Migration.ConvertedHasKind | VanKornoDB/src/main/java/com/vankorno/vankornodb/dbManagement/migration/Migration.kt:277-330 | a converted value always has the target type; non-scalars never convert |
| Migration.ConvertRoundTrips | VanKornoDB/src/main/java/com/vankorno/vankornodb/dbManagement/migration/Migration.kt:284-299 | Int→Long→Int and Boolean→Int→Boolean are identities; Long→Int→Long is one iff the Long fits in 32 bits |
| Migration.ArgFor | VanKornoDB/src/main/java/com/vankorno/vankornodb/dbManagement/migration/Migration.kt:131-158 | the definition of one parameter's argument: an override's non-null result, else the renamed source field copied when the list type or primitive type matches, converted between primitives, else none (properties: `OverrideWins`, `SameTypeCopied`, `OtherTypesDefault`) |
| Migration.Args | VanKornoDB/src/main/java/com/vankorno/vankornodb/dbManagement/migration/Migration.kt:131-160 | the arguments are keyed by parameter names, and nulls are filtered out |
| Migration.OverrideWins | VanKornoDB/src/main/java/com/vankorno/vankornodb/dbManagement/migration/Migration.kt:140-141 | a registered override's result is the argument |
| Migration.SameTypeCopied | VanKornoDB/src/main/java/com/vankorno/vankornodb/dbManagement/migration/Migration.kt:143-154 | a same-typed primitive or list is copied from the (renamed) source field |
| Migration.OtherTypesDefault | VanKornoDB/src/main/java/com/vankorno/vankornodb/dbManagement/migration/Migration.kt:150-157 | a missing or incompatible source gives no argument, so the default applies |
| Migration.ArgsAt | VanKornoDB/src/main/java/com/vankorno/vankornodb/dbManagement/migration/Migration.kt:131-160 | a parameter is passed iff its value is non-null, and then with that value |
| Migration.NullTakesDefault | VanKornoDB/src/main/java/com/vankorno/vankornodb/dbManagement/migration/Migration.kt:136-160 | a null source value without a fallback leaves the parameter to its default |
| Migration.ConvertEntity | VanKornoDB/src/main/java/com/vankorno/vankornodb/dbManagement/migration/Migration.kt:119-163 | the definition: the new class's constructor called with the non-null arguments and the milestone's overrides (properties: `ConvertSameClass`, `SameClassArgs`) |
| Migration.ConvertSameClass | VanKornoDB/src/main/java/com/vankorno/vankornodb/dbManagement/migration/Migration.kt:119-163 | converting to the same class with no renames or overrides changes nothing |
| Migration.SameClassArgs | VanKornoDB/src/main/java/com/vankorno/vankornodb/dbManagement/migration/Migration.kt:131-162 | the arguments rebuilt from an object reconstruct it |
| Migration.StepTo | VanKornoDB/src/main/java/com/vankorno/vankornodb/dbManagement/migration/Migration.kt:204-211 | the definition of one step: convert with the step's snapshot and overrides, then apply `processFinalObj` to the previous and the new object when set |
| Migration.Through | VanKornoDB/src/main/java/com/vankorno/vankornodb/dbManagement/migration/Migration.kt:193-215 | the definition: the steps in order, failing at the first step without a class (properties: `ThroughFails`, `ThroughAll`) |
| Migration.ConvertThroughSteps | VanKornoDB/src/main/java/com/vankorno/vankornodb/dbManagement/migration/Migration.kt:193-215 | the loop over steps computes `Through` |
| Migration.ThroughFails | VanKornoDB/src/main/java/com/vankorno/vankornodb/dbManagement/migration/Migration.kt:203-213 | fails iff some step's class is missing, with the first such step's error |
| Migration.ThroughAll | VanKornoDB/src/main/java/com/vankorno/vankornodb/dbManagement/migration/Migration.kt:84-86 | one migrated object per row |
| Migration.ThroughAllRows | VanKornoDB/src/main/java/com/vankorno/vankornodb/dbManagement/migration/Migration.kt:84-86 | on success, the k-th migrated object is the k-th row taken through the steps |
| Migration.ThroughAllFails | VanKornoDB/src/main/java/com/vankorno/vankornodb/dbManagement/migration/Migration.kt:84-86 | with rows present, migration fails iff a step's class is missing |
| Migration.MigrateMultiStep | VanKornoDB/src/main/java/com/vankorno/vankornodb/dbManagement/migration/Migration.kt:48-86 | no-op when newVersion <= oldVersion; else one object per row |
| Migration.MigratedRows | VanKornoDB/src/main/java/com/vankorno/vankornodb/dbManagement/migration/Migration.kt:55-86 | a successful migration gives, for each row read, that row taken through the plan's steps with its milestone lambdas, in row order |
| Migration.MigrateFails | VanKornoDB/src/main/java/com/vankorno/vankornodb/dbManagement/migration/Migration.kt:55-86 | with rows, fails iff the old version's bundle or a step's class is missing |
| DbMigration.MaxOf | VanKornoDB/src/main/java/com/vankorno/vankornodb/dbManagement/migration/DbMigration.kt:183 | `maxOrNull` of a non-empty set is its greatest element |
| DbMigration.FindOldName | VanKornoDB/src/main/java/com/vankorno/vankornodb/dbManagement/migration/DbMigration.kt:177-185 | null for an unknown name; otherwise the entry at the greatest version <= the given one, null if none |
| DbMigration.DefaultValueForParam | VanKornoDB/src/main/java/com/vankorno/vankornodb/dbManagement/migration/DbMigration.kt:194-203 | a default exists exactly for the six primitives, and has the parameter's type |
| DbMigration.LiteFillsMissingField | VanKornoDB/src/main/java/com/vankorno/vankornodb/dbManagement/migration/DbMigration.kt:147-160 | a field with no same-typed source is never left to the parameter's own default: a primitive gets a non-null value of its type, any other type an explicit null |
| DbMigration.LiteArgs | VanKornoDB/src/main/java/com/vankorno/vankornodb/dbManagement/migration/DbMigration.kt:147-159 | every parameter is passed (no null filtering) |
| DbMigration.LiteArgsAt | VanKornoDB/src/main/java/com/vankorno/vankornodb/dbManagement/migration/DbMigration.kt:147-159 | each parameter's argument is its own per-field rule |
| DbMigration.ConvertLiteField | VanKornoDB/src/main/java/com/vankorno/vankornodb/dbManagement/migration/DbMigration.kt:147-160 | a field takes the renamed (or same-named) source value when the types match, else the type default |
| DbMigration.ConvertLiteSameClass | VanKornoDB/src/main/java/com/vankorno/vankornodb/dbManagement/migration/DbMigration.kt:138-161 | converting to the same class without renames changes nothing |
| DbMigration.ConvertEntityLite | VanKornoDB/src/main/java/com/vankorno/vankornodb/dbManagement/migration/DbMigration.kt:138-161 | the definition: the new class's constructor with every parameter passed its per-field value (properties: `ConvertLiteField`, `LiteFillsMissingField`, `ConvertLiteSameClass`) |
| DbMigration.ReadAsMigrated | VanKornoDB/src/main/java/com/vankorno/vankornodb/dbManagement/migration/DbMigration.kt:96-119 | one converted object per row, in cursor order |
| DbMigration.TableStore.constructor | VanKornoDB/src/main/java/com/vankorno/vankornodb/dbManagement/migration/DbMigration.kt:41 | the database's tables as given |
| DbMigration.RecreateTable | VanKornoDB/src/main/java/com/vankorno/vankornodb/dbManagement/migration/DbMigration.kt:55-63 | drop, create and reinsert replace one table's rows |
| DbMigration.MigrateLite | VanKornoDB/src/main/java/com/vankorno/vankornodb/dbManagement/migration/DbMigration.kt:41-68 | the per-table loop leaves the store as `LiteRun` describes |
| DbMigration.LiteRun | VanKornoDB/src/main/java/com/vankorno/vankornodb/dbManagement/migration/DbMigration.kt:47-67 | the definition: the tables in order, each replaced by its migrated rows, stopping at a missing table (properties: `LiteRunTables`, `LiteRunMissing`) |
| DbMigration.LiteRunTables | VanKornoDB/src/main/java/com/vankorno/vankornodb/dbManagement/migration/DbMigration.kt:47-67 | with distinct existing names, each named table holds its migrated rows and no other table changes |
| DbMigration.LiteRunMissing | VanKornoDB/src/main/java/com/vankorno/vankornodb/dbManagement/migration/DbMigration.kt:47-67 | a missing table stops the run |
| DbMigration.IdenticalArgs | VanKornoDB/src/main/java/com/vankorno/vankornodb/dbManagement/migration/DbMigration.kt:224-229 | only non-null values are passed |
| DbMigration.IdenticalArgsAt | VanKornoDB/src/main/java/com/vankorno/vankornodb/dbManagement/migration/DbMigration.kt:224-229 | a parameter is passed iff its per-field rule gives a value |
| DbMigration.IdenticalArgsNames | VanKornoDB/src/main/java/com/vankorno/vankornodb/dbManagement/migration/DbMigration.kt:224-229 | only parameter names are passed |
| DbMigration.MapIdenticalsField | VanKornoDB/src/main/java/com/vankorno/vankornodb/dbManagement/migration/DbMigration.kt:218-232 | a field is copied only when the name and type classifier match and the value is non-null, else it takes the default |
| DbMigration.MapIdenticalsSameClass | VanKornoDB/src/main/java/com/vankorno/vankornodb/dbManagement/migration/DbMigration.kt:218-233 | mapping an object to its own class reproduces it |
| DbMigration.MapIdenticals | VanKornoDB/src/main/java/com/vankorno/vankornodb/dbManagement/migration/DbMigration.kt:218-233 | the definition: the target built from the identical fields, then handed with the source to `overrides` (properties: `MapIdenticalsField`, `MapIdenticalsSameClass`) |
| Manager.AllRows | VanKornoDB/src/main/java/com/vankorno/vankornodb/dbManagement/DbManager.kt:173-181 | one row (dbRowName, currVersion) per entity meta, in order |
| Manager.Unknown | VanKornoDB/src/main/java/com/vankorno/vankornodb/dbManagement/DbManager.kt:188-190 | exactly the stored names that no entity meta declares |
| Manager.ToSetUnknown | VanKornoDB/src/main/java/com/vankorno/vankornodb/dbManagement/DbManager.kt:188-190 | the names to delete are the stored names minus the declared ones |
| Manager.Drop | VanKornoDB/src/main/java/com/vankorno/vankornodb/dbManagement/DbManager.kt:191-193 | the definition: the rows whose name is not listed, in order (properties: `DropRows`, `DropNothing`) |
| Manager.AddMissing | VanKornoDB/src/main/java/com/vankorno/vankornodb/dbManagement/DbManager.kt:196-209 | the definition: each meta in turn appended at its current version unless its name is present (properties: `AddMissingRows`, `AddMissingNothing`) |
| Manager.Synced | VanKornoDB/src/main/java/com/vankorno/vankornodb/dbManagement/DbManager.kt:142-163 | the definition: all metas for a missing or empty table, else drop the undeclared names and add the missing ones (properties: `SyncedNames`, `SyncedKeepsVersions`, `SyncIdempotent`) |
| Manager.DbManager.constructor | VanKornoDB/src/main/java/com/vankorno/vankornodb/dbManagement/DbManager.kt:81-86 | opening the manager syncs the version table |
| Manager.DbManager.CurrDb | VanKornoDB/src/main/java/com/vankorno/vankornodb/dbManagement/DbManager.kt:77-78 | the handle, or the "Database not initialized" error once closed |
| Manager.DbManager.CloseDb | VanKornoDB/src/main/java/com/vankorno/vankornodb/dbManagement/DbManager.kt:131-139 | afterwards `currDb` is an error; nothing else changes |
| Manager.DbManager.OnUpgrade | VanKornoDB/src/main/java/com/vankorno/vankornodb/dbManagement/DbManager.kt:106-128 | does nothing when oldVersion >= newVersion, else runs the upgrade callback once |
| Manager.DbManager.HandleVersionTable | VanKornoDB/src/main/java/com/vankorno/vankornodb/dbManagement/DbManager.kt:142-163 | the table exists afterwards and holds `Synced` of what it held |
| Manager.DbManager.EnsureVersionTableExists | VanKornoDB/src/main/java/com/vankorno/vankornodb/dbManagement/DbManager.kt:166-171 | creates an empty table only when absent |
| Manager.DbManager.AddAllEntityMeta | VanKornoDB/src/main/java/com/vankorno/vankornodb/dbManagement/DbManager.kt:173-181 | appends one row per entity meta |
| Manager.DbManager.CleanupVersionTable | VanKornoDB/src/main/java/com/vankorno/vankornodb/dbManagement/DbManager.kt:183-194 | deletes exactly the rows with undeclared names |
| Manager.DbManager.DeleteRows | VanKornoDB/src/main/java/com/vankorno/vankornodb/dbManagement/DbManager.kt:191-193 | the delete loop removes every row whose name is listed |
| Manager.DbManager.AddMissingEntityMeta | VanKornoDB/src/main/java/com/vankorno/vankornodb/dbManagement/DbManager.kt:196-209 | adds a row only for a name not yet present |
| Manager.DropRows | VanKornoDB/src/main/java/com/vankorno/vankornodb/dbManagement/DbManager.kt:191-193 | deleting removes exactly the rows with the listed names |
| Manager.DropNothing | VanKornoDB/src/main/java/com/vankorno/vankornodb/dbManagement/DbManager.kt:186 | deleting no stored name leaves the rows unchanged |
| Manager.AddMissingRows | VanKornoDB/src/main/java/com/vankorno/vankornodb/dbManagement/DbManager.kt:196-209 | existing rows stay first and unchanged; the added rows are declared metas; the names become old ∪ declared |
| Manager.AddMissingNothing | VanKornoDB/src/main/java/com/vankorno/vankornodb/dbManagement/DbManager.kt:200-202 | nothing is added when every name is present |
| Manager.AllRowsNames | VanKornoDB/src/main/java/com/vankorno/vankornodb/dbManagement/DbManager.kt:173-181 | an empty table gets exactly the declared names |
| Manager.SyncedNames | VanKornoDB/src/main/java/com/vankorno/vankornodb/dbManagement/DbManager.kt:142-163 | after sync, the table's names equal the declared dbRowNames |
| Manager.SyncedKeepsVersions | VanKornoDB/src/main/java/com/vankorno/vankornodb/dbManagement/DbManager.kt:183-209 | declared rows keep their stored version; every new row is a declared meta at its current version |
| Manager.SyncIdempotent | VanKornoDB/src/main/java/com/vankorno/vankornodb/dbManagement/DbManager.kt:142-163 | syncing twice is the same as syncing once |

## Left out

- Android and SQLite I/O:
  - `execSQL`, cursors, `getObjects`, `addObjects`, `createTable` and `deleteTable` are modelled only as their effect on modelled state (emitted statements, table rows) or as parameters (rows read).
  - `migrateMultiStepInternal`'s drop/create/insert and its `onNewDbFilled` callback are not modelled; the model covers the conversion that feeds them.
- `onCreate` (table creation, `createExclusiveTables`, `runOnCreate`) is not modelled. `onUpgrade`'s callback is recorded only as the stored version it is called with, and its transaction is not modelled.
- Locking (`DbLock`), transactions and coroutines are not modelled: the model is single-threaded.
- Float and Double values are opaque decimal text:
  - `fMultDiv`, `FloatColOp` and float arithmetic are not modelled;
  - `toInt()` / `toLong()` of a Float or Double operand (`mult`, `div`, `sub` on Int and Long columns) is modelled as a given truncation toward zero (`Truncation`), clamped to the target range;
  - the float branches of `tryAutoConvertValue` are delegated to a `cast` parameter;
  - Float and Double defaults are the text "0.0".
- Kotlin reflection is reduced to names and kinds (`Kind`):
  - `isSubtypeOf` is kind equality;
  - nullability is not modelled;
  - a constructor without a default for an omitted parameter (a `callBy` failure) is not modelled;
  - a class without a primary constructor is not modelled.
- `WhereDslBase`, `OrderDslInternal` and `JoinDslInternal` (the DSL base classes) are not part of this model, and neither is `case(…)`. The model assumes:
  - `WhereDslBase` is taken to hold `clauses`/`args` as `WhereBuilderBase` does;
  - `OrderDslInternal` is taken to hold `orderoids`/`args` and a ", " `buildStr` as `OrderByBuilderInternal` does, which `OrderBase.OrderBuilder` models;
  - `JoinDslInternal` is taken to join with " ", as `JoinBuilder` does;
  - `case(…)` gives "CASE" + text + " END", as the library's tests show.
- `getTableTypesFromInitQuery` fetches the stored SQL (`getStrNoty` on `sqlite_master`); that fetch is a parameter. The regex `\((.*)\)` is modelled on its own, not as a general regex engine.
- `setRowValsNoty` (the SetCV bulk update) is recorded as a statement, not executed. `getBoolSafeVal` is modelled as mapping a Boolean to 1/0.
- `getObjectsByVersion`'s read is a parameter (the rows). Its error for a missing bundle is modelled.
- The `MutableList` aliasing in the rename DSL is not modelled. `renameHistory[key] = colRenames` shares the builder's list, which is never touched again afterwards.
- Milestone override blocks are modelled by the `modify` rows they run, not as Kotlin lambdas over a `TransformColDsl`.
- Migration.NameAt: its own contract states only that the result is null exactly for an empty history. The name it gives is stated by `NameAtLatest` and, for histories that form a rename chain, by `NameAtChain`; arbitrary unordered histories get no closed form.
- LegacyQuery.GetQueryBindsAllArgs, DslQuery.GetQueryBindsAllArgs and SetExec.SetRowsBindsAllArgs: these assume that table and column names hold no `?`, which the source does not check.
- The `Descending*` column classes (`DescendingIntCol`, …) and the `orderWhen(AscendingColumn/DescendingColumn, …)` overloads are not modelled; the ORDER BY builders are modelled on column names.
- The `nullable` field of `TypedColumn` is unused by the library and is not modelled.
- The `println` and `Log.d` logging in `migrateLite`, `DbManager` and `migrateMultiStepInternal` is not modelled.
- Values.ToText: the WHERE operations that bind `value.toString()` (`WhereDsl.TypedArg`, `WhereDsl.UntypedArg`, `multCompare` and the `*Any` helpers) require a scalar operand; a list, blob or other object, whose text is a JVM identity, is not modelled.
- `migrateWithoutChangeInternal` and `dropAndCreateEmptyTablesInternal` only drop, create and reinsert tables and are not modelled.

## Findings

| source | as written | input that shows it | evidently intended | confidence | as-written member | corrected member |
|---|---|---|---|---|---|---|
| VanKornoDB/src/main/java/com/vankorno/vankornodb/set/dsl/SetBuilder.kt:40-41 | `sub(v)` records `add(-v.toInt())`; negating Int.MIN_VALUE wraps to itself | `col sub Int.MIN_VALUE` turns x into x − 2^31 instead of x + 2^31 | record a subtraction of v (`col = col - ?`) | not executed | SetDsl.SubMinValueAdds | SetDsl.SubExactSubtracts |
| VanKornoDB/src/main/java/com/vankorno/vankornodb/api/QueryDSLs.kt:54-71 | `When` puts the ELSE block's text into the CASE term but never appends that block's args | `When(orderWhen("name") { ID = 1 }, Else = { When(orderWhen("id") { Name = "x" }) })` gives `CASE WHEN id=? THEN name ELSE CASE WHEN name=? THEN id END END` with two `?` but binds only "1" | append the else block's args after the branch args | not executed | QueryDsls.WhenDropsElseArgs | QueryDsls.WhenBindingElse |
