/**
 * What SQLCompiler (compiler.go) computes, as functions that thread the compilation state.
 *
 * `Ctx` is what a visitor may read and write: the context's bind list, its sub-query flag and
 * default table name, and the dialect's placeholder counter `issued`. `Rules` is the dialect's pure
 * part: identifier escaping and the text of the n-th placeholder (n counted from 1), so both `?`
 * and `$n` dialects are instances. A visitor that can reach an Upsert returns a `Result`; Failure is
 * the panic that aborts the whole compilation.
 */
module Rendering {
  import opened Wrappers
  import opened Ast
  import Strings

  datatype Rules = Rules(escape: string -> string, mark: nat -> string)

  datatype Ctx<V> = Ctx(binds: seq<V>, inSubQuery: bool, defaultTableName: string, issued: nat)

  /** One rendered fragment and the state after it. */
  datatype Out<V> = Out(sql: string, ctx: Ctx<V>)

  /** Fragments rendered in order and the state after the last. */
  datatype Outs<V> = Outs(sqls: seq<string>, ctx: Ctx<V>)

  /** The panic message of VisitUpsert. */
  const UpsertUnsupported := "Upsert is not Implemented in this compiler"

  /** The state of a new context over a dialect whose counter stands at `issued`. */
  function Initial<V>(issued: nat): (r: Ctx<V>) {
    Ctx([], false, "", issued)
  }

  /** Dialect.Placeholder: the next placeholder, counting it. */
  function Placeholder<V>(rl: Rules, ctx: Ctx<V>): (r: Out<V>) {
    Out(rl.mark(ctx.issued + 1), ctx.(issued := ctx.issued + 1))
  }

  /** `sqls` rendered before the outcome `r` of the fragments that follow them. */
  function Prepend<V>(sqls: seq<string>, r: Result<Outs<V>>): (p: Result<Outs<V>>) {
    if r.Ok? then Ok(Outs(sqls + r.value.sqls, r.value.ctx)) else r
  }

  /** Nothing rendered before leaves an outcome as it is. */
  lemma PrependNothing<V>(r: Result<Outs<V>>)
    ensures Prepend([], r) == r
  {
    if r.Ok? {
      assert [] + r.value.sqls == r.value.sqls;
    }
  }

  /** Fragments rendered in two stretches before an outcome are those of the two stretches in order. */
  lemma PrependTwice<V>(first: seq<string>, second: seq<string>, r: Result<Outs<V>>)
    ensures Prepend(first, Prepend(second, r)) == Prepend(first + second, r)
  {
    if r.Ok? {
      assert first + (second + r.value.sqls) == (first + second) + r.value.sqls;
    }
  }

  // ---- leaf visitors: they read the state and never change it ----

  /** VisitText: a literal fragment is written as given. */
  function RenderText(text: string): (r: string)
    ensures r == text
  {
    text
  }

  /** VisitLabel: a name is written escaped by the dialect (reached from VisitTable, VisitInsert and VisitUpdate). */
  function RenderLabel(rl: Rules, name: string): (r: string)
    ensures r == rl.escape(name)
  {
    rl.escape(name)
  }

  /** VisitTable: a table is written as its escaped name. */
  function RenderTable(rl: Rules, table: TableElem): (r: string)
    ensures r == rl.escape(table.name)
  {
    RenderLabel(rl, table.name)
  }

  /** Whether VisitColumn writes the `table.` prefix. */
  predicate Qualifies<V>(col: ColumnElem, ctx: Ctx<V>) {
    ctx.inSubQuery || ctx.defaultTableName != col.table
  }

  /**
   * VisitColumn: the escaped column name, prefixed by the escaped table and a dot inside a subquery or
   * when the table is not the statement's default table.
   */
  function RenderColumn<V>(rl: Rules, col: ColumnElem, ctx: Ctx<V>): (r: string)
    ensures ctx.inSubQuery || ctx.defaultTableName != col.table ==> r == rl.escape(col.table) + "." + rl.escape(col.name)
    ensures !ctx.inSubQuery && ctx.defaultTableName == col.table ==> r == rl.escape(col.name)
  {
    (if Qualifies(col, ctx) then rl.escape(col.table) + "." else "") + rl.escape(col.name)
  }

  /** Each column rendered by VisitColumn, in order. */
  function RenderColumns<V>(rl: Rules, cols: seq<ColumnElem>, ctx: Ctx<V>): (r: seq<string>)
    ensures |r| == |cols|
  {
    if cols == [] then [] else RenderColumns(rl, cols[..|cols| - 1], ctx) + [RenderColumn(rl, cols[|cols| - 1], ctx)]
  }

  /** The escaped names of `cols`, in order (GROUP BY and RETURNING of UPDATE and DELETE). */
  function EscapeNames(rl: Rules, cols: seq<ColumnElem>): (r: seq<string>)
    ensures |r| == |cols|
  {
    if cols == [] then [] else EscapeNames(rl, cols[..|cols| - 1]) + [rl.escape(cols[|cols| - 1].name)]
  }

  /** VisitOrderBy. */
  function RenderOrderBy<V>(rl: Rules, orderBy: OrderByClause, ctx: Ctx<V>): (r: string) {
    "ORDER BY " + Strings.Join(RenderColumns(rl, orderBy.columns, ctx), ", ") + " " + orderBy.t
  }

  /** VisitBind: `value` is appended to the binds and one placeholder is issued. */
  function RenderBind<V>(rl: Rules, value: V, ctx: Ctx<V>): (r: Out<V>) {
    Placeholder(rl, ctx.(binds := ctx.binds + [value]))
  }

  // ---- visitors that recurse into children ----

  /** Clause.Accept: dispatch on the node kind. */
  function Render<V>(rl: Rules, c: Clause<V>, ctx: Ctx<V>): (r: Result<Out<V>>)
    decreases c
  {
    match c
    case Text(text) => Ok(Out(RenderText(text), ctx))
    case Bind(value) => Ok(RenderBind(rl, value, ctx))
    case Column(col) => Ok(Out(RenderColumn(rl, col, ctx), ctx))
    case Table(table) => Ok(Out(RenderTable(rl, table), ctx))
    case Binary(b) => RenderBinary(rl, b, ctx)
    case Combiner(cb) => RenderCombiner(rl, cb, ctx)
    case List(l) => RenderList(rl, l, ctx)
    case Alias(a) => RenderAlias(rl, a, ctx)
    case Exists(e) => RenderExists(rl, e, ctx)
    case Aggregate(a) => RenderAggregate(rl, a, ctx)
    case Join(j) => RenderJoin(rl, j, ctx)
    case OrderBy(o) => Ok(Out(RenderOrderBy(rl, o, ctx), ctx))
    case Having(h) => RenderHaving(rl, h, ctx)
    case Where(w) => RenderWhere(rl, w, ctx)
    case Select(s) => RenderSelect(rl, s, ctx)
    case Insert(i) => Ok(RenderInsert(rl, i, ctx))
    case Update(u) => RenderUpdate(rl, u, ctx)
    case Delete(d) => RenderDelete(rl, d, ctx)
    case Upsert(u) => RenderUpsert(rl, u, ctx)
  }

  /** The children rendered left to right, each in the state the previous one left. */
  function RenderAll<V>(rl: Rules, cs: seq<Clause<V>>, ctx: Ctx<V>): (r: Result<Outs<V>>)
    decreases cs
  {
    if cs == [] then Ok(Outs([], ctx))
    else
      var first :- Render(rl, cs[0], ctx);
      Prepend([first.sql], RenderAll(rl, cs[1..], first.ctx))
  }

  /** VisitBinary. */
  function RenderBinary<V>(rl: Rules, b: BinaryExpressionClause<V>, ctx: Ctx<V>): (r: Result<Out<V>>)
    decreases b
  {
    var left :- Render(rl, b.left, ctx);
    var right :- Render(rl, b.right, left.ctx);
    Ok(Out(left.sql + " " + b.op + " " + right.sql, right.ctx))
  }

  /** VisitCombiner. */
  function RenderCombiner<V>(rl: Rules, cb: CombinerClause<V>, ctx: Ctx<V>): (r: Result<Out<V>>)
    decreases cb
  {
    var parts :- RenderAll(rl, cb.clauses, ctx);
    Ok(Out("(" + Strings.Join(parts.sqls, " " + cb.operator + " ") + ")", parts.ctx))
  }

  /** VisitList. */
  function RenderList<V>(rl: Rules, l: ListClause<V>, ctx: Ctx<V>): (r: Result<Out<V>>)
    decreases l
  {
    var parts :- RenderAll(rl, l.clauses, ctx);
    Ok(Out("(" + Strings.Join(parts.sqls, ", ") + ")", parts.ctx))
  }

  /** VisitAlias. */
  function RenderAlias<V>(rl: Rules, a: AliasClause<V>, ctx: Ctx<V>): (r: Result<Out<V>>)
    decreases a
  {
    var sel :- Render(rl, a.selectable, ctx);
    Ok(Out(sel.sql + " AS " + rl.escape(a.name), sel.ctx))
  }

  /** VisitExists: the flag is set for the inner select and cleared (not restored) afterwards. */
  function RenderExists<V>(rl: Rules, e: ExistsClause<V>, ctx: Ctx<V>): (r: Result<Out<V>>)
    decreases e
  {
    var inner :- Render(rl, e.select, ctx.(inSubQuery := true));
    Ok(Out((if e.not then "NOT " else "") + "EXISTS(" + inner.sql + ")", inner.ctx.(inSubQuery := false)))
  }

  /** VisitAggregate. */
  function RenderAggregate<V>(rl: Rules, a: AggregateClause<V>, ctx: Ctx<V>): (r: Result<Out<V>>)
    decreases a
  {
    var arg :- Render(rl, a.clause, ctx);
    Ok(Out(a.fn + "(" + arg.sql + ")", arg.ctx))
  }

  /** VisitJoin. */
  function RenderJoin<V>(rl: Rules, j: JoinClause<V>, ctx: Ctx<V>): (r: Result<Out<V>>)
    decreases j
  {
    var sql := RenderTable(rl, j.left) + "\n" + j.joinType + " " + RenderTable(rl, j.right);
    if j.onClause.None? then Ok(Out(sql, ctx))
    else
      var on :- Render(rl, j.onClause.value, ctx);
      Ok(Out(sql + " ON " + on.sql, on.ctx))
  }

  /** VisitHaving: the aggregate first, then the value is bound to one placeholder. */
  function RenderHaving<V>(rl: Rules, h: HavingClause<V>, ctx: Ctx<V>): (r: Result<Out<V>>)
    decreases h
  {
    var agg :- RenderAggregate(rl, h.aggregate, ctx);
    var p := RenderBind(rl, h.value, agg.ctx);
    Ok(Out("HAVING " + agg.sql + " " + h.op + " " + p.sql, p.ctx))
  }

  /** The HAVING lines of a select, in order. */
  function RenderHavings<V>(rl: Rules, hs: seq<HavingClause<V>>, ctx: Ctx<V>): (r: Result<Outs<V>>)
    decreases hs
  {
    if hs == [] then Ok(Outs([], ctx))
    else
      var first :- RenderHaving(rl, hs[0], ctx);
      Prepend([first.sql], RenderHavings(rl, hs[1..], first.ctx))
  }

  /** VisitWhere. */
  function RenderWhere<V>(rl: Rules, w: WhereClause<V>, ctx: Ctx<V>): (r: Result<Out<V>>)
    decreases w
  {
    var cond :- Render(rl, w.clause, ctx);
    Ok(Out("WHERE " + cond.sql, cond.ctx))
  }

  /** The WHERE line of a statement, if it has a WHERE clause. */
  function WhereLines<V>(rl: Rules, w: Option<WhereClause<V>>, ctx: Ctx<V>): (r: Result<Outs<V>>)
    decreases w
  {
    if w.None? then Ok(Outs([], ctx))
    else
      var line :- RenderWhere(rl, w.value, ctx);
      Ok(Outs([line.sql], line.ctx))
  }

  /** The GROUP BY line, if there are grouping columns. */
  function GroupByLines(rl: Rules, cols: seq<ColumnElem>): (r: seq<string>) {
    if |EscapeNames(rl, cols)| > 0 then ["GROUP BY " + Strings.Join(EscapeNames(rl, cols), ", ")] else []
  }

  /** The LIMIT line, present only when both the offset and the count are set. */
  function LimitLines(offset: Option<int>, count: Option<int>): (r: seq<string>) {
    if offset.Some? && count.Some? then ["LIMIT " + Strings.IntToString(count.value) + " OFFSET " + Strings.IntToString(offset.value)] else []
  }

  /** The state a select's columns are rendered in: outside a sub-query its FROM table becomes the default. */
  function SelectScope<V>(s: SelectStmt<V>, ctx: Ctx<V>): (r: Ctx<V>) {
    if !ctx.inSubQuery then ctx.(defaultTableName := s.from.DefaultName()) else ctx
  }

  /** The SELECT and FROM lines. */
  function SelectHead<V>(rl: Rules, s: SelectStmt<V>, columns: seq<string>): (r: seq<string>) {
    ["SELECT " + Strings.Join(columns, ", "), "FROM " + RenderTable(rl, s.from)]
  }

  /** The ORDER BY line, present only when the select is ordered. */
  function OrderByLines<V>(rl: Rules, o: Option<OrderByClause>, ctx: Ctx<V>): (r: seq<string>) {
    if o.Some? then [RenderOrderBy(rl, o.value, ctx)] else []
  }

  /** The lines of VisitSelect, in the order they are added. */
  function SelectLines<V>(rl: Rules, s: SelectStmt<V>, ctx: Ctx<V>): (r: Result<Outs<V>>)
    decreases s, 0
  {
    var columns :- RenderAll(rl, s.sel, SelectScope(s, ctx));
    var where :- WhereLines(rl, s.where, columns.ctx);
    var having :- RenderHavings(rl, s.having, where.ctx);
    Ok(Outs(SelectHead(rl, s, columns.sqls) + where.sqls + GroupByLines(rl, s.groupBy) + having.sqls
            + OrderByLines(rl, s.orderBy, having.ctx) + LimitLines(s.offset, s.count), having.ctx))
  }

  /** VisitSelect: its lines joined by new lines. */
  function RenderSelect<V>(rl: Rules, s: SelectStmt<V>, ctx: Ctx<V>): (r: Result<Out<V>>)
    decreases s, 1
  {
    var lines :- SelectLines(rl, s, ctx);
    Ok(Out(Strings.Join(lines.sqls, "\n"), lines.ctx))
  }

  /** A select whose columns render but whose WHERE fails, fails. */
  lemma SelectWhereFails<V>(rl: Rules, s: SelectStmt<V>, ctx: Ctx<V>, columns: Outs<V>)
    requires RenderAll(rl, s.sel, SelectScope(s, ctx)) == Ok(columns)
    requires WhereLines(rl, s.where, columns.ctx).Failure?
    ensures RenderSelect(rl, s, ctx).Failure?
  {
  }

  /** A select whose columns and WHERE render but whose HAVING fails, fails. */
  lemma SelectHavingFails<V>(rl: Rules, s: SelectStmt<V>, ctx: Ctx<V>, columns: Outs<V>, where: Outs<V>)
    requires RenderAll(rl, s.sel, SelectScope(s, ctx)) == Ok(columns)
    requires WhereLines(rl, s.where, columns.ctx) == Ok(where)
    requires RenderHavings(rl, s.having, where.ctx).Failure?
    ensures RenderSelect(rl, s, ctx).Failure?
  {
  }

  /** A select whose parts all render is their lines, joined by new lines. */
  lemma SelectRenders<V>(rl: Rules, s: SelectStmt<V>, ctx: Ctx<V>, columns: Outs<V>, where: Outs<V>, having: Outs<V>)
    requires RenderAll(rl, s.sel, SelectScope(s, ctx)) == Ok(columns)
    requires WhereLines(rl, s.where, columns.ctx) == Ok(where)
    requires RenderHavings(rl, s.having, where.ctx) == Ok(having)
    ensures RenderSelect(rl, s, ctx)
         == Ok(Out(Strings.Join(SelectHead(rl, s, columns.sqls) + where.sqls + GroupByLines(rl, s.groupBy) + having.sqls
                                + OrderByLines(rl, s.orderBy, having.ctx) + LimitLines(s.offset, s.count), "\n"),
                   having.ctx))
  {
  }

  /** Column names and placeholders of INSERT, and the state after them. */
  datatype Assignments<V> = Assignments(names: seq<string>, marks: seq<string>, ctx: Ctx<V>)

  /** The INSERT loop: per entry its escaped name, one placeholder, and its value bound. */
  function InsertValues<V>(rl: Rules, values: seq<(string, V)>, ctx: Ctx<V>): (r: Assignments<V>) {
    if values == [] then Assignments([], [], ctx)
    else
      var before := InsertValues(rl, values[..|values| - 1], ctx);
      var p := Placeholder(rl, before.ctx);
      Assignments(before.names + [RenderLabel(rl, values[|values| - 1].0)], before.marks + [p.sql],
                  p.ctx.(binds := p.ctx.binds + [values[|values| - 1].1]))
  }

  /** One more entry of the INSERT loop. */
  lemma InsertValuesStep<V>(rl: Rules, values: seq<(string, V)>, i: nat, ctx: Ctx<V>)
    requires i < |values|
    ensures var before := InsertValues(rl, values[..i], ctx);
            var p := Placeholder(rl, before.ctx);
            InsertValues(rl, values[..i + 1], ctx)
            == Assignments(before.names + [RenderLabel(rl, values[i].0)], before.marks + [p.sql],
                           p.ctx.(binds := p.ctx.binds + [values[i].1]))
  {
    assert values[..i + 1][..i] == values[..i];
  }

  /** VisitInsert: the default table is the target while rendering, and "" afterwards. */
  function RenderInsert<V>(rl: Rules, ins: InsertStmt<V>, ctx: Ctx<V>): (r: Out<V>) {
    var ctx1 := ctx.(defaultTableName := ins.table.name);
    var vals := InsertValues(rl, ins.values, ctx1);
    var sql := "INSERT INTO " + RenderTable(rl, ins.table) + "(" + Strings.Join(vals.names, ", ") + ")\nVALUES(" + Strings.Join(vals.marks, ", ") + ")";
    var returning := RenderColumns(rl, ins.returning, vals.ctx);
    Out(if |ins.returning| > 0 then sql + "\nRETURNING " + Strings.Join(returning, ", ") else sql,
        vals.ctx.(defaultTableName := ""))
  }

  /** The UPDATE loop: per entry `name = <placeholder>`, and its value bound. */
  function UpdateSets<V>(rl: Rules, values: seq<(string, V)>, ctx: Ctx<V>): (r: Outs<V>) {
    if values == [] then Outs([], ctx)
    else
      var before := UpdateSets(rl, values[..|values| - 1], ctx);
      var p := Placeholder(rl, before.ctx);
      Outs(before.sqls + [RenderLabel(rl, values[|values| - 1].0) + " = " + p.sql],
           p.ctx.(binds := p.ctx.binds + [values[|values| - 1].1]))
  }

  /** One more entry of the UPDATE loop. */
  lemma UpdateSetsStep<V>(rl: Rules, values: seq<(string, V)>, i: nat, ctx: Ctx<V>)
    requires i < |values|
    ensures var before := UpdateSets(rl, values[..i], ctx);
            var p := Placeholder(rl, before.ctx);
            UpdateSets(rl, values[..i + 1], ctx)
            == Outs(before.sqls + [RenderLabel(rl, values[i].0) + " = " + p.sql], p.ctx.(binds := p.ctx.binds + [values[i].1]))
  {
    assert values[..i + 1][..i] == values[..i];
  }

  /** `sql` followed by the RETURNING line of the escaped names, if there are any. */
  function WithReturning(rl: Rules, sql: string, cols: seq<ColumnElem>): (r: string) {
    if |EscapeNames(rl, cols)| > 0 then sql + "\nRETURNING " + Strings.Join(EscapeNames(rl, cols), ", ") else sql
  }

  /** The UPDATE line, and the SET line when there is something to set. */
  function UpdateHead(rl: Rules, table: TableElem, sets: seq<string>): (r: string) {
    "UPDATE " + RenderTable(rl, table) + (if |sets| > 0 then "\nSET " + Strings.Join(sets, ", ") else "")
  }

  /** The WHERE line of an UPDATE or DELETE on a line of its own, if there is one. */
  function WhereSuffix(whereLines: seq<string>): (r: string) {
    if whereLines == [] then "" else "\n" + whereLines[0]
  }

  /** VisitUpdate. */
  function RenderUpdate<V>(rl: Rules, u: UpdateStmt<V>, ctx: Ctx<V>): (r: Result<Out<V>>)
    decreases u
  {
    var sets := UpdateSets(rl, u.values, ctx);
    var where :- WhereLines(rl, u.where, sets.ctx);
    Ok(Out(WithReturning(rl, UpdateHead(rl, u.table, sets.sqls) + WhereSuffix(where.sqls), u.returning), where.ctx))
  }

  /** An UPDATE whose WHERE renders: its text and final state. */
  lemma UpdateRenders<V>(rl: Rules, u: UpdateStmt<V>, ctx: Ctx<V>, where: Outs<V>)
    requires WhereLines(rl, u.where, UpdateSets(rl, u.values, ctx).ctx) == Ok(where)
    ensures RenderUpdate(rl, u, ctx)
         == Ok(Out(WithReturning(rl, UpdateHead(rl, u.table, UpdateSets(rl, u.values, ctx).sqls) + WhereSuffix(where.sqls), u.returning),
                   where.ctx))
  {
  }

  /** VisitDelete. */
  function RenderDelete<V>(rl: Rules, d: DeleteStmt<V>, ctx: Ctx<V>): (r: Result<Out<V>>)
    decreases d
  {
    var where :- WhereLines(rl, d.where, ctx);
    Ok(Out(WithReturning(rl, "DELETE FROM " + RenderTable(rl, d.table) + WhereSuffix(where.sqls), d.returning), where.ctx))
  }

  /** VisitUpsert: unsupported by the reference compiler. */
  function RenderUpsert<V>(rl: Rules, u: UpsertStmt, ctx: Ctx<V>): (r: Result<Out<V>>)
    ensures r == Failure(UpsertUnsupported)
  {
    Failure(UpsertUnsupported)
  }
}
