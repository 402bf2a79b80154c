/**
 * SQLCompiler (compiler.go) as it runs: a mutable CompilerContext threaded through recursive visitor
 * methods that append to its bind list and overwrite its flag and default table name. Every visitor
 * is proved to compute exactly what the corresponding Rendering function specifies; the leaf
 * clauses (Text, Table, Column) only read the state and are those functions themselves, and labels
 * (VisitLabel) are only written from tables, INSERT and UPDATE.
 *
 * A method's `Failure` result is the panic of VisitUpsert propagating: callers return it at once.
 */
module Compiler {
  import opened Wrappers
  import opened Ast
  import opened Rendering
  import opened Bindings
  import Strings

  /** A dialect: its escaping and placeholder rules, and the counter its placeholders advance. */
  class Dialect {
    const rules: Rules
    var issued: nat

    constructor (rules: Rules)
      ensures this.rules == rules && issued == 0
    {
      this.rules := rules;
      issued := 0;
    }

    /** The next placeholder; the n-th since the last Reset is `rules.mark(n)`. */
    method Placeholder() returns (p: string)
      modifies this`issued
      ensures issued == old(issued) + 1 && p == rules.mark(issued)
    {
      issued := issued + 1;
      p := rules.mark(issued);
    }

    /** Clears the placeholder counter. */
    method Reset()
      modifies this`issued
      ensures issued == 0
    {
      issued := 0;
    }
  }

  /** The state of one compilation. */
  class CompilerContext<V> {
    var binds: seq<V>
    var defaultTableName: string
    var inSubQuery: bool
    var vars: map<string, V>
    const dialect: Dialect

    /** NewCompilerContext. */
    constructor (dialect: Dialect)
      ensures this.dialect == dialect
      ensures binds == [] && vars == map[] && !inSubQuery && defaultTableName == ""
    {
      this.dialect := dialect;
      binds := [];
      defaultTableName := "";
      inSubQuery := false;
      vars := map[];
    }

    /** What the visitors read and write, with the dialect's counter. */
    function State(): Ctx<V>
      reads this, dialect
    {
      Ctx(binds, inSubQuery, defaultTableName, dialect.issued)
    }
  }

  /** A visitor's outcome `r` and the state `now` it left are those the specification `spec` gives. */
  ghost predicate Agrees<V>(r: Result<string>, spec: Result<Out<V>>, now: Ctx<V>) {
    r.Ok? == spec.Ok? && (r.Ok? ==> r.value == spec.value.sql && now == spec.value.ctx)
  }

  /** As Agrees, for fragments rendered in sequence. */
  ghost predicate AgreesAll<V>(r: Result<seq<string>>, spec: Result<Outs<V>>, now: Ctx<V>) {
    r.Ok? == spec.Ok? && (r.Ok? ==> r.value == spec.value.sqls && now == spec.value.ctx)
  }

  /** Clause.Accept: one visitor per node kind. */
  method Accept<V>(ctx: CompilerContext<V>, c: Clause<V>) returns (r: Result<string>)
    modifies ctx`binds, ctx`inSubQuery, ctx`defaultTableName, ctx.dialect`issued
    decreases c
    ensures Agrees(r, Render(ctx.dialect.rules, c, old(ctx.State())), ctx.State())
  {
    match c
    case Text(text) =>
      r := Ok(RenderText(text));
    case Bind(value) =>
      var sql := VisitBind(ctx, value);
      r := Ok(sql);
    case Column(col) =>
      r := Ok(RenderColumn(ctx.dialect.rules, col, ctx.State()));
    case Table(table) =>
      r := Ok(RenderTable(ctx.dialect.rules, table));
    case Binary(b) =>
      r := VisitBinary(ctx, b);
    case Combiner(cb) =>
      r := VisitCombiner(ctx, cb);
    case List(l) =>
      r := VisitList(ctx, l);
    case Alias(a) =>
      r := VisitAlias(ctx, a);
    case Exists(e) =>
      r := VisitExists(ctx, e);
    case Aggregate(a) =>
      r := VisitAggregate(ctx, a);
    case Join(j) =>
      r := VisitJoin(ctx, j);
    case OrderBy(o) =>
      var sql := VisitOrderBy(ctx, o);
      r := Ok(sql);
    case Having(h) =>
      r := VisitHaving(ctx, h);
    case Where(w) =>
      r := VisitWhere(ctx, w);
    case Select(s) =>
      r := VisitSelect(ctx, s);
    case Insert(i) =>
      var sql := VisitInsert(ctx, i);
      r := Ok(sql);
    case Update(u) =>
      r := VisitUpdate(ctx, u);
    case Delete(d) =>
      r := VisitDelete(ctx, d);
    case Upsert(u) =>
      r := VisitUpsert(ctx, u);
  }

  /** Accept on each of `cs`, left to right, collecting the fragments. */
  method AcceptAll<V>(ctx: CompilerContext<V>, cs: seq<Clause<V>>) returns (r: Result<seq<string>>)
    modifies ctx`binds, ctx`inSubQuery, ctx`defaultTableName, ctx.dialect`issued
    decreases cs
    ensures AgreesAll(r, RenderAll(ctx.dialect.rules, cs, old(ctx.State())), ctx.State())
  {
    ghost var start := ctx.State();
    var sqls: seq<string> := [];
    var i := 0;
    assert cs[i..] == cs;
    PrependNothing(RenderAll(ctx.dialect.rules, cs, start));
    while i < |cs|
      invariant 0 <= i <= |cs|
      invariant RenderAll(ctx.dialect.rules, cs, start) == Prepend(sqls, RenderAll(ctx.dialect.rules, cs[i..], ctx.State()))
    {
      assert cs[i..][1..] == cs[i + 1..];
      var sql := Accept(ctx, cs[i]);
      if sql.Failure? {
        return Failure(sql.message);
      }
      PrependTwice(sqls, [sql.value], RenderAll(ctx.dialect.rules, cs[i + 1..], ctx.State()));
      sqls := sqls + [sql.value];
      i := i + 1;
    }
    assert sqls + [] == sqls;
    r := Ok(sqls);
  }

  /** VisitBind: the value goes to the end of the binds, paired with exactly one new placeholder. */
  method VisitBind<V>(ctx: CompilerContext<V>, value: V) returns (sql: string)
    modifies ctx`binds, ctx.dialect`issued
    ensures ctx.binds == old(ctx.binds) + [value]
    ensures ctx.dialect.issued == old(ctx.dialect.issued) + 1
    ensures sql == ctx.dialect.rules.mark(ctx.dialect.issued)
    ensures Out(sql, ctx.State()) == RenderBind(ctx.dialect.rules, value, old(ctx.State()))
  {
    ctx.binds := ctx.binds + [value];
    sql := ctx.dialect.Placeholder();
  }

  /** VisitBinary. */
  method VisitBinary<V>(ctx: CompilerContext<V>, b: BinaryExpressionClause<V>) returns (r: Result<string>)
    modifies ctx`binds, ctx`inSubQuery, ctx`defaultTableName, ctx.dialect`issued
    decreases b
    ensures Agrees(r, RenderBinary(ctx.dialect.rules, b, old(ctx.State())), ctx.State())
  {
    var left := Accept(ctx, b.left);
    if left.Failure? {
      return Failure(left.message);
    }
    var right := Accept(ctx, b.right);
    if right.Failure? {
      return Failure(right.message);
    }
    r := Ok(left.value + " " + b.op + " " + right.value);
  }

  /** VisitCombiner. */
  method VisitCombiner<V>(ctx: CompilerContext<V>, cb: CombinerClause<V>) returns (r: Result<string>)
    modifies ctx`binds, ctx`inSubQuery, ctx`defaultTableName, ctx.dialect`issued
    decreases cb
    ensures Agrees(r, RenderCombiner(ctx.dialect.rules, cb, old(ctx.State())), ctx.State())
  {
    var sqls := AcceptAll(ctx, cb.clauses);
    if sqls.Failure? {
      return Failure(sqls.message);
    }
    r := Ok("(" + Strings.Join(sqls.value, " " + cb.operator + " ") + ")");
  }

  /** VisitList. */
  method VisitList<V>(ctx: CompilerContext<V>, l: ListClause<V>) returns (r: Result<string>)
    modifies ctx`binds, ctx`inSubQuery, ctx`defaultTableName, ctx.dialect`issued
    decreases l
    ensures Agrees(r, RenderList(ctx.dialect.rules, l, old(ctx.State())), ctx.State())
  {
    var clauses := AcceptAll(ctx, l.clauses);
    if clauses.Failure? {
      return Failure(clauses.message);
    }
    r := Ok("(" + Strings.Join(clauses.value, ", ") + ")");
  }

  /** VisitAlias. */
  method VisitAlias<V>(ctx: CompilerContext<V>, a: AliasClause<V>) returns (r: Result<string>)
    modifies ctx`binds, ctx`inSubQuery, ctx`defaultTableName, ctx.dialect`issued
    decreases a
    ensures Agrees(r, RenderAlias(ctx.dialect.rules, a, old(ctx.State())), ctx.State())
  {
    var sel := Accept(ctx, a.selectable);
    if sel.Failure? {
      return Failure(sel.message);
    }
    r := Ok(sel.value + " AS " + ctx.dialect.rules.escape(a.name));
  }

  /** VisitExists: the inner select is compiled with the flag set; the flag is false afterwards. */
  method VisitExists<V>(ctx: CompilerContext<V>, e: ExistsClause<V>) returns (r: Result<string>)
    modifies ctx`binds, ctx`inSubQuery, ctx`defaultTableName, ctx.dialect`issued
    decreases e
    ensures !ctx.inSubQuery
    ensures Agrees(r, RenderExists(ctx.dialect.rules, e, old(ctx.State())), ctx.State())
  {
    var prefix := if e.not then "NOT " else "";
    ctx.inSubQuery := true;
    var inner := Accept(ctx, e.select);
    ctx.inSubQuery := false;
    if inner.Failure? {
      return Failure(inner.message);
    }
    r := Ok(prefix + "EXISTS(" + inner.value + ")");
  }

  /** VisitAggregate. */
  method VisitAggregate<V>(ctx: CompilerContext<V>, a: AggregateClause<V>) returns (r: Result<string>)
    modifies ctx`binds, ctx`inSubQuery, ctx`defaultTableName, ctx.dialect`issued
    decreases a
    ensures Agrees(r, RenderAggregate(ctx.dialect.rules, a, old(ctx.State())), ctx.State())
  {
    var arg := Accept(ctx, a.clause);
    if arg.Failure? {
      return Failure(arg.message);
    }
    r := Ok(a.fn + "(" + arg.value + ")");
  }

  /** VisitJoin. */
  method VisitJoin<V>(ctx: CompilerContext<V>, j: JoinClause<V>) returns (r: Result<string>)
    modifies ctx`binds, ctx`inSubQuery, ctx`defaultTableName, ctx.dialect`issued
    decreases j
    ensures Agrees(r, RenderJoin(ctx.dialect.rules, j, old(ctx.State())), ctx.State())
  {
    var sql := RenderTable(ctx.dialect.rules, j.left) + "\n" + j.joinType + " " + RenderTable(ctx.dialect.rules, j.right);
    if j.onClause.Some? {
      var on := Accept(ctx, j.onClause.value);
      if on.Failure? {
        return Failure(on.message);
      }
      sql := sql + " ON " + on.value;
    }
    r := Ok(sql);
  }

  /** VisitOrderBy: it only reads the state. */
  method VisitOrderBy<V>(ctx: CompilerContext<V>, o: OrderByClause) returns (sql: string)
    ensures sql == RenderOrderBy(ctx.dialect.rules, o, ctx.State())
  {
    var cols: seq<string> := [];
    var i := 0;
    while i < |o.columns|
      invariant 0 <= i <= |o.columns|
      invariant cols == RenderColumns(ctx.dialect.rules, o.columns[..i], ctx.State())
    {
      assert o.columns[..i + 1][..i] == o.columns[..i];
      cols := cols + [RenderColumn(ctx.dialect.rules, o.columns[i], ctx.State())];
      i := i + 1;
    }
    assert o.columns[..i] == o.columns;
    sql := "ORDER BY " + Strings.Join(cols, ", ") + " " + o.t;
  }

  /** VisitHaving: the aggregate, then its value bound to one placeholder. */
  method VisitHaving<V>(ctx: CompilerContext<V>, h: HavingClause<V>) returns (r: Result<string>)
    modifies ctx`binds, ctx`inSubQuery, ctx`defaultTableName, ctx.dialect`issued
    decreases h
    ensures Agrees(r, RenderHaving(ctx.dialect.rules, h, old(ctx.State())), ctx.State())
  {
    var agg := VisitAggregate(ctx, h.aggregate);
    if agg.Failure? {
      return Failure(agg.message);
    }
    ctx.binds := ctx.binds + [h.value];
    var p := ctx.dialect.Placeholder();
    r := Ok("HAVING " + agg.value + " " + h.op + " " + p);
  }

  /** VisitWhere. */
  method VisitWhere<V>(ctx: CompilerContext<V>, w: WhereClause<V>) returns (r: Result<string>)
    modifies ctx`binds, ctx`inSubQuery, ctx`defaultTableName, ctx.dialect`issued
    decreases w
    ensures Agrees(r, RenderWhere(ctx.dialect.rules, w, old(ctx.State())), ctx.State())
  {
    var cond := Accept(ctx, w.clause);
    if cond.Failure? {
      return Failure(cond.message);
    }
    r := Ok("WHERE " + cond.value);
  }

  /** The escaped names of `cols`, as the GROUP BY and RETURNING loops build them. */
  method EscapedNames(d: Dialect, cols: seq<ColumnElem>) returns (names: seq<string>)
    ensures names == EscapeNames(d.rules, cols)
  {
    names := [];
    var i := 0;
    while i < |cols|
      invariant 0 <= i <= |cols|
      invariant names == EscapeNames(d.rules, cols[..i])
    {
      assert cols[..i + 1][..i] == cols[..i];
      names := names + [d.rules.escape(cols[i].name)];
      i := i + 1;
    }
    assert cols[..i] == cols;
  }

  /** The HAVING lines of a select, one per condition, in order. */
  method AcceptHavings<V>(ctx: CompilerContext<V>, hs: seq<HavingClause<V>>) returns (r: Result<seq<string>>)
    modifies ctx`binds, ctx`inSubQuery, ctx`defaultTableName, ctx.dialect`issued
    decreases hs
    ensures AgreesAll(r, RenderHavings(ctx.dialect.rules, hs, old(ctx.State())), ctx.State())
  {
    ghost var start := ctx.State();
    var sqls: seq<string> := [];
    var i := 0;
    assert hs[i..] == hs;
    PrependNothing(RenderHavings(ctx.dialect.rules, hs, start));
    while i < |hs|
      invariant 0 <= i <= |hs|
      invariant RenderHavings(ctx.dialect.rules, hs, start) == Prepend(sqls, RenderHavings(ctx.dialect.rules, hs[i..], ctx.State()))
    {
      assert hs[i..][1..] == hs[i + 1..];
      var sql := VisitHaving(ctx, hs[i]);
      if sql.Failure? {
        return Failure(sql.message);
      }
      PrependTwice(sqls, [sql.value], RenderHavings(ctx.dialect.rules, hs[i + 1..], ctx.State()));
      sqls := sqls + [sql.value];
      i := i + 1;
    }
    assert sqls + [] == sqls;
    r := Ok(sqls);
  }

  /** VisitSelect: SELECT, FROM, WHERE, GROUP BY, HAVING..., ORDER BY, LIMIT lines, in this order. */
  method VisitSelect<V>(ctx: CompilerContext<V>, s: SelectStmt<V>) returns (r: Result<string>)
    modifies ctx`binds, ctx`inSubQuery, ctx`defaultTableName, ctx.dialect`issued
    decreases s
    ensures Agrees(r, RenderSelect(ctx.dialect.rules, s, old(ctx.State())), ctx.State())
  {
    ghost var rl := ctx.dialect.rules;
    ghost var ctx0 := ctx.State();
    var lines: seq<string> := [];
    if !ctx.inSubQuery {
      ctx.defaultTableName := s.from.DefaultName();
    }
    assert ctx.State() == SelectScope(s, ctx0);

    // select
    var columns := AcceptAll(ctx, s.sel);
    if columns.Failure? {
      return Failure(columns.message);
    }
    lines := lines + ["SELECT " + Strings.Join(columns.value, ", ")];

    // from
    lines := lines + ["FROM " + RenderTable(ctx.dialect.rules, s.from)];
    assert lines == SelectHead(rl, s, columns.value);

    // where
    ghost var ctx2 := ctx.State();
    ghost var whereLines: seq<string> := [];
    if s.where.Some? {
      var where := VisitWhere(ctx, s.where.value);
      if where.Failure? {
        SelectWhereFails(rl, s, ctx0, Outs(columns.value, ctx2));
        return Failure(where.message);
      }
      lines := lines + [where.value];
      whereLines := [where.value];
    }
    ghost var ctx3 := ctx.State();
    assert WhereLines(rl, s.where, ctx2) == Ok(Outs(whereLines, ctx3));

    // group by
    ghost var upToWhere := lines;
    assert upToWhere == SelectHead(rl, s, columns.value) + whereLines;
    var groupByCols := EscapedNames(ctx.dialect, s.groupBy);
    if |groupByCols| > 0 {
      lines := lines + ["GROUP BY " + Strings.Join(groupByCols, ", ")];
    }
    ghost var upToGroupBy := lines;
    assert upToGroupBy == upToWhere + GroupByLines(rl, s.groupBy);

    // having
    var having := AcceptHavings(ctx, s.having);
    if having.Failure? {
      SelectHavingFails(rl, s, ctx0, Outs(columns.value, ctx2), Outs(whereLines, ctx3));
      return Failure(having.message);
    }
    lines := lines + having.value;
    ghost var upToHaving := lines;

    // order by
    if s.orderBy.Some? {
      var sql := VisitOrderBy(ctx, s.orderBy.value);
      lines := lines + [sql];
    }
    ghost var upToOrderBy := lines;
    assert upToOrderBy == upToHaving + OrderByLines(rl, s.orderBy, ctx.State());

    if s.offset.Some? && s.count.Some? {
      lines := lines + ["LIMIT " + Strings.IntToString(s.count.value) + " OFFSET " + Strings.IntToString(s.offset.value)];
    }
    assert lines == upToOrderBy + LimitLines(s.offset, s.count);
    SelectRenders(rl, s, ctx0, Outs(columns.value, ctx2), Outs(whereLines, ctx3), Outs(having.value, ctx.State()));
    r := Ok(Strings.Join(lines, "\n"));
  }

  /** VisitInsert: the target is the default table while compiling, and "" afterwards. */
  method VisitInsert<V>(ctx: CompilerContext<V>, ins: InsertStmt<V>) returns (sql: string)
    modifies ctx`binds, ctx`defaultTableName, ctx.dialect`issued
    ensures ctx.defaultTableName == ""
    ensures Out(sql, ctx.State()) == RenderInsert(ctx.dialect.rules, ins, old(ctx.State()))
  {
    var colNames: seq<string> := [];
    var placeholders: seq<string> := [];

    ctx.defaultTableName := ins.table.name;

    ghost var start := ctx.State();
    var i := 0;
    while i < |ins.values|
      invariant 0 <= i <= |ins.values|
      invariant InsertValues(ctx.dialect.rules, ins.values[..i], start) == Assignments(colNames, placeholders, ctx.State())
    {
      InsertValuesStep(ctx.dialect.rules, ins.values, i, start);
      colNames := colNames + [RenderLabel(ctx.dialect.rules, ins.values[i].0)];
      var p := ctx.dialect.Placeholder();
      placeholders := placeholders + [p];
      ctx.binds := ctx.binds + [ins.values[i].1];
      i := i + 1;
    }
    assert ins.values[..i] == ins.values;
    ghost var ctx1 := ctx.State();
    assert InsertValues(ctx.dialect.rules, ins.values, start) == Assignments(colNames, placeholders, ctx1);

    sql := "INSERT INTO " + RenderTable(ctx.dialect.rules, ins.table) + "(" + Strings.Join(colNames, ", ") + ")\nVALUES(" + Strings.Join(placeholders, ", ") + ")";

    var returning: seq<string> := [];
    var j := 0;
    while j < |ins.returning|
      invariant 0 <= j <= |ins.returning|
      invariant returning == RenderColumns(ctx.dialect.rules, ins.returning[..j], ctx.State())
    {
      assert ins.returning[..j + 1][..j] == ins.returning[..j];
      returning := returning + [RenderColumn(ctx.dialect.rules, ins.returning[j], ctx.State())];
      j := j + 1;
    }
    assert ins.returning[..j] == ins.returning;
    if |ins.returning| > 0 {
      sql := sql + "\nRETURNING " + Strings.Join(returning, ", ");
    }

    ctx.defaultTableName := "";
    assert ctx.State() == ctx1.(defaultTableName := "");
  }

  /** VisitUpdate: SET only when there are values, then WHERE and RETURNING when present. */
  method VisitUpdate<V>(ctx: CompilerContext<V>, u: UpdateStmt<V>) returns (r: Result<string>)
    modifies ctx`binds, ctx`inSubQuery, ctx`defaultTableName, ctx.dialect`issued
    decreases u
    ensures Agrees(r, RenderUpdate(ctx.dialect.rules, u, old(ctx.State())), ctx.State())
  {
    var sql := "UPDATE " + RenderTable(ctx.dialect.rules, u.table);

    ghost var start := ctx.State();
    var sets: seq<string> := [];
    var i := 0;
    while i < |u.values|
      invariant 0 <= i <= |u.values|
      invariant UpdateSets(ctx.dialect.rules, u.values[..i], start) == Outs(sets, ctx.State())
    {
      UpdateSetsStep(ctx.dialect.rules, u.values, i, start);
      var p := ctx.dialect.Placeholder();
      sets := sets + [RenderLabel(ctx.dialect.rules, u.values[i].0) + " = " + p];
      ctx.binds := ctx.binds + [u.values[i].1];
      i := i + 1;
    }
    assert u.values[..i] == u.values;
    ghost var ctx1 := ctx.State();
    assert UpdateSets(ctx.dialect.rules, u.values, start) == Outs(sets, ctx1);

    if |sets| > 0 {
      sql := sql + "\nSET " + Strings.Join(sets, ", ");
    }
    assert sql == UpdateHead(ctx.dialect.rules, u.table, sets);

    ghost var whereLines: seq<string> := [];
    if u.where.Some? {
      var where := VisitWhere(ctx, u.where.value);
      if where.Failure? {
        assert WhereLines(ctx.dialect.rules, u.where, ctx1).Failure?;
        assert RenderUpdate(ctx.dialect.rules, u, start).Failure?;
        return Failure(where.message);
      }
      sql := sql + "\n" + where.value;
      whereLines := [where.value];
    }
    assert WhereLines(ctx.dialect.rules, u.where, ctx1) == Ok(Outs(whereLines, ctx.State()));

    ghost var beforeReturning := sql;
    assert beforeReturning == UpdateHead(ctx.dialect.rules, u.table, sets) + WhereSuffix(whereLines);

    var returning := EscapedNames(ctx.dialect, u.returning);
    if |returning| > 0 {
      sql := sql + "\nRETURNING " + Strings.Join(returning, ", ");
    }
    assert sql == WithReturning(ctx.dialect.rules, beforeReturning, u.returning);
    UpdateRenders(ctx.dialect.rules, u, start, Outs(whereLines, ctx.State()));
    r := Ok(sql);
  }

  /** VisitDelete. */
  method VisitDelete<V>(ctx: CompilerContext<V>, d: DeleteStmt<V>) returns (r: Result<string>)
    modifies ctx`binds, ctx`inSubQuery, ctx`defaultTableName, ctx.dialect`issued
    decreases d
    ensures Agrees(r, RenderDelete(ctx.dialect.rules, d, old(ctx.State())), ctx.State())
  {
    var sql := "DELETE FROM " + RenderTable(ctx.dialect.rules, d.table);

    if d.where.Some? {
      var where := VisitWhere(ctx, d.where.value);
      if where.Failure? {
        return Failure(where.message);
      }
      sql := sql + "\n" + where.value;
    }

    var returning := EscapedNames(ctx.dialect, d.returning);
    if |returning| > 0 {
      sql := sql + "\nRETURNING " + Strings.Join(returning, ", ");
    }
    r := Ok(sql);
  }

  /** VisitUpsert: the reference compiler refuses every upsert. */
  method VisitUpsert<V>(ctx: CompilerContext<V>, u: UpsertStmt) returns (r: Result<string>)
    ensures r == Failure(UpsertUnsupported)
  {
    r := Failure(UpsertUnsupported);
  }

  /** Compiles `c` with a new context over `dialect`, then resets the dialect whatever the outcome. */
  method Compile<V>(c: Clause<V>, dialect: Dialect) returns (r: Result<(string, seq<V>)>)
    modifies dialect
    ensures dialect.issued == 0
    ensures var spec := Render(dialect.rules, c, Initial(old(dialect.issued)));
            r.Ok? == spec.Ok? && (r.Ok? ==> r.value == (spec.value.sql, spec.value.ctx.binds))
    ensures r.Ok? <==> !HasUpsert(c)
    ensures r.Ok? ==> r.value.1 == BindValues(c)
  {
    var ctx := new CompilerContext<V>(dialect);
    ghost var start := ctx.State();
    var sql := Accept(ctx, c);
    RenderBinds(dialect.rules, c, start);
    dialect.Reset();
    if sql.Failure? {
      return Failure(sql.message);
    }
    r := Ok((sql.value, ctx.binds));
  }
}
