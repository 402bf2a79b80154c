# qb's SQL compiler, modelled in Dafny

This project models the core of qb, a Go SQL query builder. It covers the parts that turn a tree of clauses into SQL text and a list of bind values:

- **The visitor and its state.** `SQLCompiler` walks a tree of `Clause` nodes. It threads a `CompilerContext` through the walk, holding the binds, the sub-query flag and the default table name (compiler.go).
- **The SELECT builder.** `Select`, the `SelectStmt` builder methods and `Build` (select.go).
- **The WHERE builder.** `Where` and its `And`/`Or` combinators (where.go).

The model has two layers:

- **Rendering** (`render.dfy`) is a specification. It has one pure function per visitor over an explicit state `Ctx(binds, inSubQuery, defaultTableName, issued)`. Here `issued` is the dialect's placeholder counter. A dialect's `Escape` and `Placeholder` are the parameters `Rules(escape, mark)`: `Placeholder()` counts one more and yields `mark(count)`.
- **Compiler** (`compiler.dfy`) is the imperative visitor.
  - `Dialect` is a class holding the counter. `CompilerContext` is a class whose fields the methods update in place.
  - Each `Visit*` method builds its result with the same loops as the Go code. Each is proved to return what the Rendering function returns and to leave the state it computes.
  - The VisitUpsert panic becomes `Failure(UpsertUnsupported)`, and failures propagate up.

The properties the code promises are proved as lemmas about the Rendering functions. These cover:

- binds grow only by appending, in lockstep with placeholders;
- compilation fails exactly on an upsert;
- when columns are table-qualified;
- how EXISTS scopes its select;
- the SELECT line layout;
- what the builders do to the compiled text;
- the expectations of where_test.go.

Modules:

- `Wrappers`: `Option` and `Result`.
- `Ast`: clause datatypes, and the `SelectStmt` and `WhereClause` builder methods.
- `Strings`: `Join` and integer formatting.
- `Rendering`: the specification functions.
- `Compiler`: the classes and visitor methods.
- `Bindings`: which values a clause binds, and the lockstep lemmas.
- `Scoping`: column qualification and EXISTS.
- `SelectBuilder`: `Select`, `Build`, and the SELECT layout.
- `Statements`: INSERT and UPDATE pairing.
- `WhereBuilder`: `Where`, `And` and `Or`, and the test expectations.

The code differs from a stack discipline in three places, and the model follows the code:

- VisitExists sets `InSubQuery` back to `false`, not to its prior value (compiler.go:144).
- VisitInsert sets `DefaultTableName` back to `""` (compiler.go:162-163).
- VisitSelect sets `DefaultTableName` and never restores it (compiler.go:237-239).

## Model

| member | source | states |
|---|---|---|
| Compiler.CompilerContext.constructor | compiler.go:12-19 | A new context has no binds, an empty Vars map, the sub-query flag off and no default table, over the given dialect. |
| Compiler.Dialect.Placeholder | compiler.go:89-92 | Each placeholder is the next one of the dialect's count: the counter goes up by exactly one and the text is the mark of the new count. |
| Compiler.Dialect.Reset | select.go:116 | Reset brings the dialect's placeholder count back to zero. |
| Rendering.RenderText | compiler.go:291-293 | A literal fragment is written exactly as given. |
| Rendering.RenderLabel | compiler.go:208-210 | A label is the dialect's escape of its name. |
| Rendering.RenderTable | compiler.go:286-288 | A table is written as the dialect's escape of its name. |
| Rendering.RenderColumn | compiler.go:96-103 | Inside a sub-query or for a table other than the default one, a column is the escaped table, a dot and the escaped name; otherwise the escaped name alone. |
| Compiler.Accept | compiler.go:36-57 | Dispatching on the node kind gives the text and state of that kind's visitor. Text, Table and Column only read the state; labels are written only from tables, INSERT and UPDATE (VisitLabel is not a node kind of its own here). |
| Compiler.AcceptAll | compiler.go:106-114 | Compiling children left to right threads the state through them in order and collects their texts in order. The first failure stops the walk. |
| Compiler.VisitBind | compiler.go:89-92 | Appends exactly the bound value at the end of Binds, keeps every earlier bind, and returns the one placeholder it issues. |
| Compiler.VisitBinary | compiler.go:79-86 | `left op right`, with the left operand compiled before the right. |
| Compiler.VisitCombiner | compiler.go:106-114 | The children compiled in order, joined by the operator, in one pair of parentheses. |
| Compiler.VisitList | compiler.go:213-219 | The children compiled in order and joined by ", ". |
| Compiler.VisitAlias | compiler.go:70-76 | The selectable compiled, then AS and the escaped alias name. |
| Compiler.VisitExists | compiler.go:137-146 | The select is compiled as a sub-query. The flag is off afterwards whatever it was before. |
| Compiler.VisitAggregate | compiler.go:65-67 | The function name applied to the compiled clause in parentheses. |
| Compiler.VisitJoin | compiler.go:193-205 | The left table, the join type and the right table, with ON and the compiled condition only when there is one. |
| Compiler.VisitOrderBy | compiler.go:222-229 | ORDER BY, the columns as VisitColumn writes them, and the direction. The state is not touched. |
| Compiler.VisitHaving | compiler.go:149-153 | HAVING, the compiled aggregate, the operator and one placeholder. The value is bound after the aggregate's own binds. |
| Compiler.AcceptHavings | compiler.go:266-270 | One HAVING line per condition, in order, threading the state. |
| Compiler.VisitWhere | compiler.go:336-338 | WHERE followed by the compiled condition. |
| Compiler.EscapedNames | compiler.go:258-264 | The escaped column names, in order, as the GROUP BY loop and the RETURNING loops of UPDATE and DELETE build them (INSERT's RETURNING goes through VisitColumn). |
| Compiler.VisitSelect | compiler.go:232-283 | The lines SELECT, FROM, WHERE, GROUP BY, HAVING, ORDER BY and LIMIT, joined by new lines. Outside a sub-query the FROM table is made the default table first, and it is left set. |
| Compiler.VisitInsert | compiler.go:156-190 | The target is the default table while its values are compiled, and no table is the default afterwards. |
| Compiler.VisitUpdate | compiler.go:296-327 | UPDATE, the SET line of `name = placeholder` pairs, then the WHERE line and the RETURNING line when there are any. |
| Compiler.VisitDelete | compiler.go:117-134 | DELETE FROM, then the WHERE line and the RETURNING line when there are any. |
| Compiler.VisitUpsert | compiler.go:331-333 | Always fails, with the panic's message. |
| Compiler.Compile | testutils_test.go:16-20 | A clause compiled on a fresh context gives its text and exactly the context's binds. It succeeds exactly when the tree holds no upsert. Its binds are the tree's bind values left to right. The dialect is reset afterwards. |
| Bindings.RenderBinds | compiler.go:89-92 | Compiling any clause fails exactly when it reaches an upsert. Otherwise it keeps the earlier binds, appends exactly the clause's bind values in evaluation order, and issues exactly one placeholder per bind. |
| Bindings.RenderAllBinds | compiler.go:106-114 | The same for a list of children compiled in order: their binds are concatenated in order. |
| Bindings.RenderHavingBinds | compiler.go:149-153 | A HAVING binds the aggregate's values and then its own value, with one placeholder each. |
| Bindings.RenderHavingsBinds | compiler.go:266-270 | HAVING conditions bind in the order they were added. |
| Bindings.WhereLinesBinds | compiler.go:252-255 | An optional WHERE binds its condition's values, or nothing. |
| Bindings.RenderSelectBinds | compiler.go:232-283 | A SELECT binds its columns' values, then WHERE's, then HAVING's. It fails exactly when one of them holds an upsert. |
| Bindings.InsertValuesBinds | compiler.go:165-169 | The INSERT loop yields one name and one placeholder per entry, and binds the entries' values in order. The UPDATE loop leaves the same state and yields one assignment per entry. |
| Bindings.Lockstep | compiler.go:150-152 | If binds and issued placeholders are in step before a clause is compiled, they are in step after it. |
| Statements.InsertPairing | compiler.go:165-169 | The i-th INSERT entry gets its escaped name and the i-th placeholder issued from there on. The sub-query flag and the default table are untouched by the loop. |
| Statements.UpdatePairing | compiler.go:300-307 | The i-th SET assignment is the i-th entry's escaped name `= ` the i-th placeholder issued from there on. |
| Statements.BindsInOrder | compiler.go:165-169 | After the INSERT or UPDATE loop, the earlier binds are kept, and the i-th value is the i-th new bind, the one that goes with the i-th placeholder. |
| Statements.InsertState | compiler.go:156-190 | An INSERT binds each value once, issues one placeholder each, keeps the sub-query flag and leaves no default table. |
| Statements.UpdateSetLine | compiler.go:296-327 | A compiled UPDATE starts with its UPDATE line, followed by the SET line exactly when there are values. With no values it is exactly the UPDATE line, the WHERE line if any and the RETURNING line if any. |
| Statements.BareUpdate | compiler.go:296-327 | With no values, no condition and no RETURNING columns, an UPDATE is its first line alone and binds nothing. |
| Scoping.TopLevelColumn | compiler.go:96-103 | In a one-column select outside a sub-query, the column carries its table prefix exactly when it is not a column of the FROM table, and the FROM table is the default table afterwards. |
| Scoping.ScalarSelectMovesDefault | compiler.go:237-239 | A SELECT used as a column outside EXISTS makes its own FROM table the default: in `SELECT (SELECT x FROM u), t.b FROM t` the later column of `t` is written with its table, and `u` is the default table afterwards. |
| Scoping.ExistsColumn | compiler.go:137-146 | In a one-column select inside EXISTS the column carries its table prefix, even one of the FROM table. NOT comes first exactly when negated. The flag is off afterwards. |
| Scoping.ColumnQualification | compiler.go:96-103 | When escaping never yields a dot, a column's text holds a dot exactly when it is inside a sub-query or not of the default table. |
| Scoping.NestedExistsClearsScope | compiler.go:144 | Because a nested EXISTS clears the flag rather than restoring it, in `EXISTS(SELECT EXISTS(SUB), t.b FROM t)` over default table `t` the column after the nested EXISTS is written without its table. |
| Scoping.ColumnBeforeNestedExists | compiler.go:96-103 | The same column listed before the nested EXISTS keeps its table prefix. |
| Scoping.ExistsShape | compiler.go:137-146 | EXISTS compiles exactly when its select does, starts with NOT exactly when negated, and leaves the flag off. |
| SelectBuilder.Select | select.go:4-11 | A new statement selects exactly the given clauses. It has no FROM table, joins, grouping, HAVING, WHERE, order or limit. |
| SelectBuilder.Build | select.go:115-124 | The text VisitSelect gives on a fresh context, with exactly that context's binds, namely the statement's bind values in order. It fails exactly on an upsert. The dialect is reset afterwards. |
| SelectBuilder.HavingLinesPrefixed | compiler.go:266-270 | Every HAVING condition gives exactly one line, and each line starts with HAVING. |
| SelectBuilder.SelectLayout | compiler.go:232-283 | A compiled SELECT has exactly one line per keyword of its layout, in the fixed order SELECT, FROM, WHERE, GROUP BY, HAVING per condition, ORDER BY, LIMIT. WHERE, GROUP BY, ORDER BY and HAVING are there only when set or non-empty. LIMIT is there only when both the offset and the count are set. |
| SelectBuilder.FreshSelectLayout | select.go:4-11 | A statement just built by Select and From compiles to the SELECT and FROM lines only. |
| SelectBuilder.LimitRendersLimitLine | select.go:108-112 | After Limit, the last line of the compiled SELECT is `LIMIT count OFFSET offset`. |
| SelectBuilder.JoinsNotRendered | compiler.go:232-283 | The joins of a statement change neither its text nor its binds nor the state. |
| SelectBuilder.InnerJoinNotRendered | select.go:46-50 | A join added by the builder leaves the compiled SELECT unchanged. |
| SelectBuilder.HavingsBindsAppend | select.go:102-105 | A HAVING condition appended last binds its values after all earlier conditions'. |
| SelectBuilder.HavingAddsBind | select.go:102-105 | Having adds, after all earlier binds, the aggregate's values and then the compared value. |
| SelectBuilder.DescRendering | select.go:76-93 | After OrderBy then Desc, the ORDER BY line ends in DESC. After OrderBy alone, it ends in ASC. |
| Ast.WhereClause.And | where.go:19-23 | An AND group of 1 + n children, with the old condition first and the new ones after it in order. |
| Ast.WhereClause.Or | where.go:26-30 | An OR group of 1 + n children, with the old condition first and the new ones after it in order. |
| Ast.SelectStmt.Select | select.go:27-30 | Replaces the selected clauses and nothing else. |
| Ast.SelectStmt.From | select.go:33-36 | Replaces the FROM table and nothing else. |
| Ast.SelectStmt.Where | select.go:39-43 | Sets a WHERE wrapping exactly the given clause and nothing else. |
| Ast.SelectStmt.AddJoin | select.go:126-134 | Appends exactly one join from the current FROM table, keeps the earlier joins and changes nothing else. |
| Ast.SelectStmt.InnerJoin | select.go:46-50 | Appends one INNER JOIN from the current FROM table and changes nothing else. |
| Ast.SelectStmt.CrossJoin | select.go:53-57 | Appends one CROSS JOIN with zero-valued join columns and changes nothing else. |
| Ast.SelectStmt.LeftJoin | select.go:60-64 | Appends one LEFT OUTER JOIN and changes nothing else. |
| Ast.SelectStmt.RightJoin | select.go:67-71 | Appends one RIGHT OUTER JOIN and changes nothing else. |
| Ast.SelectStmt.OrderBy | select.go:76-79 | Orders by the given columns, ascending, and changes nothing else. |
| Ast.SelectStmt.Asc | select.go:83-86 | Requires an existing order. Keeps its columns, makes it ascending and changes nothing else. |
| Ast.SelectStmt.Desc | select.go:90-93 | Requires an existing order. Keeps its columns, makes it descending and changes nothing else. |
| Ast.SelectStmt.GroupBy | select.go:96-99 | The old grouping columns followed by the new ones; nothing else changes. |
| Ast.SelectStmt.Having | select.go:102-105 | Appends exactly one HAVING condition at the end and changes nothing else. |
| Ast.SelectStmt.Limit | select.go:108-112 | Sets both the offset and the count and changes nothing else. |
| WhereBuilder.Where | where.go:4-6 | A WHERE clause wrapping exactly the given condition. |
| WhereBuilder.WhereAccept | where.go:14-16 | Accepting a WHERE succeeds exactly when its condition compiles, and gives WHERE followed by the condition, in the state the condition leaves. |
| WhereBuilder.TextsRender | compiler.go:291-293 | Literal SQL fragments compile to themselves, in order, and leave the state alone. |
| WhereBuilder.CombinerOfTexts | compiler.go:106-114 | An AND or OR group of fragments is one pair of parentheses around them, joined by the operator. No fragments give `()`. |
| WhereBuilder.WhereGroup | where.go:19-30 | A WHERE over a group of a first fragment and more compiles to WHERE and the parenthesised group. |
| WhereBuilder.WhereGroupLaw | compiler.go:106-114 | A WHERE over an AND or OR group compiles exactly when its children do, and gives WHERE and the children joined by the operator in parentheses, in the state the last child leaves. |
| WhereBuilder.AndRenders | where.go:19-23 | `w.And(cs...)` compiles exactly when w's condition followed by cs does, to `WHERE (c0 AND c1 AND ...)` of their texts, in the state they leave. |
| WhereBuilder.OrRenders | where.go:26-30 | `w.Or(cs...)` compiles exactly when w's condition followed by cs does, to `WHERE (c0 OR c1 OR ...)` of their texts, in the state they leave. |
| WhereBuilder.AndOfTexts | where.go:19-23 | `Where(x).And(ys...)` compiles to `WHERE (x AND y1 AND ...)`. |
| WhereBuilder.OrOfTexts | where.go:26-30 | `Where(x).Or(ys...)` compiles to `WHERE (x OR y1 OR ...)`. |
| WhereBuilder.WhereAndExamples | where_test.go:9-17 | `Where(X).And(Y)` gives `WHERE (X AND Y)` and `Where(X).And(Y, Z)` gives `WHERE (X AND Y AND Z)`, for every dialect. |
| WhereBuilder.WhereOrExamples | where_test.go:19-27 | `Where(X).Or(Y)` gives `WHERE (X OR Y)` and `Where(X).Or(Y, Z)` gives `WHERE (X OR Y OR Z)`, for every dialect. |
| WhereBuilder.ChainShape | where.go:19-30 | `Where(x).And(a).Or(b)` is an OR group whose first child is the AND group of x and a. |
| WhereBuilder.ChainNests | where.go:19-30 | Chaining nests rather than flattens: `Where(x).And(a).Or(b)` compiles to `WHERE ((x AND a) OR b)`. |

## Left out

- Concrete dialects, `GetCompiler` and the dialect's own `Escape` and `Placeholder` are not part of this model. They are the parameters `escape` and `mark`. `mark` receives the dialect's count after it has gone up by one.
- VisitColumn reads the escape rule through `c.Dialect`. The model uses the context's dialect, the only one a context is built with.
- Go map iteration order in VisitInsert and VisitUpdate: the values are a sequence of (name, value) pairs. The sequence stands for whichever order the map is walked in, and no order is claimed.
- A panic is a `Failure` result. Of the state a panicking compilation leaves behind, only the two deferred effects are modelled: the dialect is reset, and an EXISTS being compiled clears the sub-query flag. Nothing else is promised about the state after a failure.
- `Vars` is created by the constructor and never read by this compiler, so no visitor touches it.
- select.go's `JoinClause` has the fields of a join built by the builder, while compiler.go's VisitJoin reads `Left`, `JoinType`, `Right` and `OnClause`. The builder's join is `SelectJoin`, and the rendered join is `JoinClause` with compiler.go's fields. VisitSelect never renders the joins, so `JoinClause.Accept` on a builder join has no counterpart.
- Asc and Desc write through the shared `*OrderByClause` pointer in Go, so a copy of the statement taken earlier sees the change. The model has value semantics only.
- Only the `TableElem` and `UpsertStmt` fields that the compiler reads are modelled: a table's name, which is also its default name, and no upsert field.
- The textual position of each placeholder inside the compiled SQL is not tracked. The pairing lemmas state the order of placeholders and binds.
- The `Stmt` type, with `Statement`, `AddSQLClause` and `AddBinding`, is not part of this model. Build returns the text and the binds as a pair.
- query_test.go exercises an API of another package and is not part of this model.
- `fmt`'s `%d` is `Strings.IntToString`: decimal digits with a leading minus for negative numbers.
- SelectBuilder.HavingAddsBind: states the binds Having adds, not where its HAVING line lands. The line layout is covered by SelectLayout.
- WhereBuilder.AndOfTexts: stated for literal fragments only, as in the tests. WhereBuilder.AndRenders states the same for any children.
- WhereBuilder.OrOfTexts: stated for literal fragments only, as in the tests. WhereBuilder.OrRenders states the same for any children.
- Ast.SelectStmt.GroupBy: Go's `append` (select.go:97) may write into the backing array the receiver shares with earlier copies of the statement, so a later append on one copy can overwrite a grouping column of another. The model has value semantics and does not capture this aliasing.
- Ast.SelectStmt.Having: the same `append` aliasing of the HAVING slice (select.go:103) is not captured.
- Ast.SelectStmt.InnerJoin: the same `append` aliasing of the joins slice (select.go:48) is not captured.
- Ast.SelectStmt.CrossJoin: the same `append` aliasing of the joins slice (select.go:55) is not captured.
- Ast.SelectStmt.LeftJoin: the same `append` aliasing of the joins slice (select.go:62) is not captured.
- Ast.SelectStmt.RightJoin: the same `append` aliasing of the joins slice (select.go:69) is not captured.
