/**
 * When a column is written with its table: VisitColumn qualifies a column unless it belongs to the
 * current default table outside any sub-query. A SELECT outside a sub-query makes its FROM table the
 * default, and keeps it so afterwards, even when it is itself a column of another select;
 * EXISTS compiles its select as a sub-query, so a one-column select there has its column qualified.
 * EXISTS clears the flag afterwards whatever it was before, so a column listed after a nested EXISTS
 * inside an EXISTS is compared with the default table again.
 */
module Scoping {
  import opened Wrappers
  import opened Ast
  import opened Rendering
  import SelectBuilder
  import Strings

  /** A statement selecting one column from `table`. */
  function OneColumn<V>(col: ColumnElem, table: TableElem): (s: SelectStmt<V>) {
    SelectBuilder.Select([Column(col)]).From(table)
  }

  /** Rendering a one-column select in a given state. */
  lemma OneColumnLines<V>(rl: Rules, col: ColumnElem, table: TableElem, ctx: Ctx<V>)
    ensures var s := OneColumn<V>(col, table);
            var ctx1 := SelectScope(s, ctx);
            RenderSelect(rl, s, ctx)
            == Ok(Out("SELECT " + RenderColumn(rl, col, ctx1) + "\nFROM " + rl.escape(table.name), ctx1))
  {
    var s := OneColumn<V>(col, table);
    var ctx1 := SelectScope(s, ctx);
    var sql := RenderColumn(rl, col, ctx1);
    assert s.sel == [Column(col)] && s.sel[1..] == [];
    assert Render(rl, s.sel[0], ctx1) == Ok(Out(sql, ctx1));
    assert [sql] + [] == [sql];
    assert RenderAll(rl, s.sel, ctx1) == Ok(Outs([sql], ctx1));
    assert WhereLines(rl, s.where, ctx1) == Ok(Outs([], ctx1));
    assert RenderHavings(rl, s.having, ctx1) == Ok(Outs([], ctx1));
    var lines := ["SELECT " + sql, "FROM " + rl.escape(table.name)];
    assert SelectHead(rl, s, [sql]) == lines;
    assert GroupByLines(rl, s.groupBy) == [] && OrderByLines(rl, s.orderBy, ctx1) == [] && LimitLines(s.offset, s.count) == [];
    assert lines + [] + [] + [] + [] + [] == lines;
    assert SelectLines(rl, s, ctx) == Ok(Outs(lines, ctx1));
    assert lines[1..] == ["FROM " + rl.escape(table.name)];
    assert "SELECT " + RenderColumn(rl, col, ctx1) + "\n" + ("FROM " + rl.escape(table.name))
        == "SELECT " + RenderColumn(rl, col, ctx1) + "\nFROM " + rl.escape(table.name);
  }

  /**
   * In a one-column select outside a sub-query, the column is written with its table exactly when it
   * is not a column of the FROM table, and the FROM table is the default table afterwards.
   */
  lemma TopLevelColumn<V>(rl: Rules, col: ColumnElem, table: TableElem, ctx: Ctx<V>)
    requires !ctx.inSubQuery
    ensures col.table != table.name ==>
              RenderSelect(rl, OneColumn<V>(col, table), ctx)
              == Ok(Out("SELECT " + (rl.escape(col.table) + "." + rl.escape(col.name)) + "\nFROM " + rl.escape(table.name),
                        ctx.(defaultTableName := table.name)))
    ensures col.table == table.name ==>
              RenderSelect(rl, OneColumn<V>(col, table), ctx)
              == Ok(Out("SELECT " + rl.escape(col.name) + "\nFROM " + rl.escape(table.name), ctx.(defaultTableName := table.name)))
  {
    OneColumnLines(rl, col, table, ctx);
  }

  /**
   * In a one-column select inside EXISTS the column is written with its table, even one of the FROM
   * table; the default table is left as it was; the flag is cleared afterwards whatever it was
   * before; NOT comes first exactly for a negated EXISTS.
   */
  lemma ExistsColumn<V>(rl: Rules, col: ColumnElem, table: TableElem, not: bool, ctx: Ctx<V>)
    ensures RenderExists(rl, ExistsClause(Clause.Select(OneColumn<V>(col, table)), not), ctx)
         == Ok(Out((if not then "NOT " else "") + "EXISTS(" + ("SELECT " + (rl.escape(col.table) + "." + rl.escape(col.name)) + "\nFROM " + rl.escape(table.name)) + ")",
                   ctx.(inSubQuery := false)))
  {
    var inner := ctx.(inSubQuery := true);
    OneColumnLines(rl, col, table, inner);
    assert SelectScope(OneColumn<V>(col, table), inner) == inner;
    var selectSql := "SELECT " + (rl.escape(col.table) + "." + rl.escape(col.name)) + "\nFROM " + rl.escape(table.name);
    ExistsOf(rl, Clause.Select(OneColumn<V>(col, table)), not, ctx, selectSql, inner);
  }

  /** EXISTS over a select that compiles to `sql` and leaves the state `after`. */
  lemma ExistsOf<V>(rl: Rules, select: Clause<V>, not: bool, ctx: Ctx<V>, sql: string, after: Ctx<V>)
    requires Render(rl, select, ctx.(inSubQuery := true)) == Ok(Out(sql, after))
    ensures RenderExists(rl, ExistsClause(select, not), ctx)
         == Ok(Out((if not then "NOT " else "") + "EXISTS(" + sql + ")", after.(inSubQuery := false)))
  {
  }

  /** EXISTS compiles exactly when its select does; NOT comes first exactly when negated; the flag ends cleared. */
  lemma ExistsShape<V>(rl: Rules, e: ExistsClause<V>, ctx: Ctx<V>)
    ensures RenderExists(rl, e, ctx).Ok? <==> Render(rl, e.select, ctx.(inSubQuery := true)).Ok?
    ensures RenderExists(rl, e, ctx).Ok? ==>
              (e.not <==> Strings.StartsWith(RenderExists(rl, e, ctx).value.sql, "NOT "))
              && !RenderExists(rl, e, ctx).value.ctx.inSubQuery
  {
    var r := RenderExists(rl, e, ctx);
    if r.Ok? {
      var inner := Render(rl, e.select, ctx.(inSubQuery := true)).value.sql;
      var body := "EXISTS(" + inner + ")";
      if e.not {
        assert r.value.sql == "NOT " + body;
        assert r.value.sql[..4] == "NOT ";
      } else {
        assert r.value.sql == body;
        assert r.value.sql[0] == 'E';
      }
    }
  }

  /**
   * With escaped names that never contain a dot, a compiled column contains a dot exactly when it is
   * in a sub-query or its table is not the default table.
   */
  lemma ColumnQualification<V>(rl: Rules, col: ColumnElem, ctx: Ctx<V>)
    requires forall name :: '.' !in rl.escape(name)
    ensures '.' in RenderColumn(rl, col, ctx) <==> (ctx.inSubQuery || ctx.defaultTableName != col.table)
  {
    var r := RenderColumn(rl, col, ctx);
    if ctx.inSubQuery || ctx.defaultTableName != col.table {
      assert r[|rl.escape(col.table)|] == '.';
    } else {
      assert '.' !in rl.escape(col.name);
    }
  }

  /** The two columns of a two-column select, compiled one after the other. */
  lemma TwoColumns<V>(rl: Rules, first: Clause<V>, second: Clause<V>, ctx: Ctx<V>,
                      sql1: string, ctx1: Ctx<V>, sql2: string, ctx2: Ctx<V>)
    requires Render(rl, first, ctx) == Ok(Out(sql1, ctx1)) && Render(rl, second, ctx1) == Ok(Out(sql2, ctx2))
    ensures RenderAll(rl, [first, second], ctx) == Ok(Outs([sql1, sql2], ctx2))
  {
    assert [first, second][1..] == [second] && [second][1..] == [];
    assert RenderAll(rl, [second], ctx1) == Ok(Outs([sql2] + [], ctx2));
    assert [sql1] + ([sql2] + []) == [sql1, sql2];
  }

  /** The lines of a two-column select over one table: the SELECT line and the FROM line. */
  lemma TwoColumnSelectLines<V>(rl: Rules, first: Clause<V>, second: Clause<V>, table: TableElem, ctx: Ctx<V>,
                                sql1: string, ctx1: Ctx<V>, sql2: string, ctx2: Ctx<V>)
    requires var s := SelectBuilder.Select<V>([first, second]).From(table);
             Render(rl, first, SelectScope(s, ctx)) == Ok(Out(sql1, ctx1)) && Render(rl, second, ctx1) == Ok(Out(sql2, ctx2))
    ensures SelectLines(rl, SelectBuilder.Select<V>([first, second]).From(table), ctx)
         == Ok(Outs(["SELECT " + (sql1 + ", " + sql2), "FROM " + rl.escape(table.name)], ctx2))
  {
    var s := SelectBuilder.Select<V>([first, second]).From(table);
    assert s.sel == [first, second];
    TwoColumns(rl, first, second, SelectScope(s, ctx), sql1, ctx1, sql2, ctx2);
    assert Strings.Join([sql1, sql2], ", ") == sql1 + ", " + sql2;
    var lines := ["SELECT " + (sql1 + ", " + sql2), "FROM " + rl.escape(table.name)];
    assert SelectHead(rl, s, [sql1, sql2]) == lines;
    assert WhereLines(rl, s.where, ctx2) == Ok(Outs([], ctx2));
    assert RenderHavings(rl, s.having, ctx2) == Ok(Outs([], ctx2));
    assert GroupByLines(rl, s.groupBy) == [] && OrderByLines(rl, s.orderBy, ctx2) == [] && LimitLines(s.offset, s.count) == [];
    assert lines + [] + [] + [] + [] + [] == lines;
  }

  /** A two-column select: the columns compiled one after the other, on the SELECT line. */
  lemma TwoColumnLines<V>(rl: Rules, first: Clause<V>, second: Clause<V>, table: TableElem, ctx: Ctx<V>,
                          sql1: string, ctx1: Ctx<V>, sql2: string, ctx2: Ctx<V>)
    requires var s := SelectBuilder.Select<V>([first, second]).From(table);
             Render(rl, first, SelectScope(s, ctx)) == Ok(Out(sql1, ctx1)) && Render(rl, second, ctx1) == Ok(Out(sql2, ctx2))
    ensures RenderSelect(rl, SelectBuilder.Select<V>([first, second]).From(table), ctx)
         == Ok(Out("SELECT " + (sql1 + ", " + sql2) + "\nFROM " + rl.escape(table.name), ctx2))
  {
    TwoColumnSelectLines(rl, first, second, table, ctx, sql1, ctx1, sql2, ctx2);
    var lines := ["SELECT " + (sql1 + ", " + sql2), "FROM " + rl.escape(table.name)];
    assert lines[1..] == ["FROM " + rl.escape(table.name)];
    assert Strings.Join(lines, "\n") == lines[0] + "\n" + lines[1];
    assert "SELECT " + (sql1 + ", " + sql2) + "\n" + ("FROM " + rl.escape(table.name))
        == "SELECT " + (sql1 + ", " + sql2) + "\nFROM " + rl.escape(table.name);
  }

  /** The nested `EXISTS(SUB)`: its text, and the flag cleared. */
  lemma PlainExists<V>(rl: Rules, ctx: Ctx<V>)
    ensures Render(rl, Exists(ExistsClause(Text("SUB"), false)), ctx) == Ok(Out("EXISTS(SUB)", ctx.(inSubQuery := false)))
  {
    assert "" + "EXISTS(" + "SUB" + ")" == "EXISTS(SUB)";
  }

  /** The outer, non-negated EXISTS around a select that compiles to `sql` and clears the flag. */
  lemma OuterExists<V>(rl: Rules, select: Clause<V>, ctx: Ctx<V>, sql: string)
    requires Render(rl, select, ctx.(inSubQuery := true)) == Ok(Out(sql, ctx.(inSubQuery := false)))
    ensures RenderExists(rl, ExistsClause(select, false), ctx) == Ok(Out("EXISTS(" + sql + ")", ctx.(inSubQuery := false)))
  {
    ExistsOf(rl, select, false, ctx, sql, ctx.(inSubQuery := false));
    assert "" + "EXISTS(" + sql + ")" == "EXISTS(" + sql + ")";
  }

  /**
   * Because EXISTS clears the flag rather than restoring it, inside `EXISTS(SELECT EXISTS(SUB), t.b
   * FROM t)` over the default table `t` the column after the nested EXISTS is written without its table.
   */
  lemma NestedExistsClearsScope<V>(rl: Rules, ctx: Ctx<V>)
    requires ctx.defaultTableName == "t"
    ensures var sub: Clause<V> := Exists(ExistsClause(Text("SUB"), false));
            var col: Clause<V> := Column(ColumnElem("t", "b"));
            RenderExists(rl, ExistsClause(Clause.Select(SelectBuilder.Select([sub, col]).From(TableElem("t"))), false), ctx)
            == Ok(Out("EXISTS(" + ("SELECT " + ("EXISTS(SUB)" + ", " + rl.escape("b")) + "\nFROM " + rl.escape("t")) + ")",
                      ctx.(inSubQuery := false)))
  {
    var sub: Clause<V> := Exists(ExistsClause(Text("SUB"), false));
    var col: Clause<V> := Column(ColumnElem("t", "b"));
    var inner := ctx.(inSubQuery := true);
    var cleared := ctx.(inSubQuery := false);
    PlainExists<V>(rl, inner);
    assert inner.(inSubQuery := false) == cleared;
    assert Render(rl, col, cleared) == Ok(Out(rl.escape("b"), cleared));
    assert SelectScope(SelectBuilder.Select<V>([sub, col]).From(TableElem("t")), inner) == inner;
    TwoColumnLines(rl, sub, col, TableElem("t"), inner, "EXISTS(SUB)", cleared, rl.escape("b"), cleared);
    OuterExists(rl, Clause.Select(SelectBuilder.Select<V>([sub, col]).From(TableElem("t"))), ctx,
                "SELECT " + ("EXISTS(SUB)" + ", " + rl.escape("b")) + "\nFROM " + rl.escape("t"));
  }

  /** Listed before the nested EXISTS, the same column keeps its table. */
  lemma ColumnBeforeNestedExists<V>(rl: Rules, ctx: Ctx<V>)
    requires ctx.defaultTableName == "t"
    ensures var sub: Clause<V> := Exists(ExistsClause(Text("SUB"), false));
            var col: Clause<V> := Column(ColumnElem("t", "b"));
            RenderExists(rl, ExistsClause(Clause.Select(SelectBuilder.Select([col, sub]).From(TableElem("t"))), false), ctx)
            == Ok(Out("EXISTS(" + ("SELECT " + (rl.escape("t") + "." + rl.escape("b") + ", " + "EXISTS(SUB)") + "\nFROM " + rl.escape("t")) + ")",
                      ctx.(inSubQuery := false)))
  {
    var sub: Clause<V> := Exists(ExistsClause(Text("SUB"), false));
    var col: Clause<V> := Column(ColumnElem("t", "b"));
    var inner := ctx.(inSubQuery := true);
    var cleared := ctx.(inSubQuery := false);
    PlainExists<V>(rl, inner);
    assert inner.(inSubQuery := false) == cleared;
    assert Render(rl, col, inner) == Ok(Out(rl.escape("t") + "." + rl.escape("b"), inner));
    assert SelectScope(SelectBuilder.Select<V>([col, sub]).From(TableElem("t")), inner) == inner;
    TwoColumnLines(rl, col, sub, TableElem("t"), inner, rl.escape("t") + "." + rl.escape("b"), inner, "EXISTS(SUB)", cleared);
    OuterExists(rl, Clause.Select(SelectBuilder.Select<V>([col, sub]).From(TableElem("t"))), ctx,
                "SELECT " + (rl.escape("t") + "." + rl.escape("b") + ", " + "EXISTS(SUB)") + "\nFROM " + rl.escape("t"));
  }

  /**
   * A SELECT used as a column outside EXISTS is not a sub-query: it makes its own FROM table the
   * default, so in `SELECT (SELECT x FROM u), t.b FROM t` the column of the outer FROM table after it
   * is written with its table, and `u` is the default table afterwards.
   */
  lemma ScalarSelectMovesDefault<V>(rl: Rules, ctx: Ctx<V>)
    requires !ctx.inSubQuery
    ensures var sub: Clause<V> := Clause.Select(OneColumn<V>(ColumnElem("u", "x"), TableElem("u")));
            var col: Clause<V> := Column(ColumnElem("t", "b"));
            RenderSelect(rl, SelectBuilder.Select([sub, col]).From(TableElem("t")), ctx)
            == Ok(Out("SELECT " + (("SELECT " + rl.escape("x") + "\nFROM " + rl.escape("u")) + ", " + (rl.escape("t") + "." + rl.escape("b")))
                      + "\nFROM " + rl.escape("t"),
                      ctx.(defaultTableName := "u")))
  {
    var sub: Clause<V> := Clause.Select(OneColumn<V>(ColumnElem("u", "x"), TableElem("u")));
    var col: Clause<V> := Column(ColumnElem("t", "b"));
    var outer := ctx.(defaultTableName := "t");
    var moved := ctx.(defaultTableName := "u");
    assert SelectScope(SelectBuilder.Select<V>([sub, col]).From(TableElem("t")), ctx) == outer;
    TopLevelColumn<V>(rl, ColumnElem("u", "x"), TableElem("u"), outer);
    assert outer.(defaultTableName := "u") == moved;
    assert Render(rl, sub, outer) == Ok(Out("SELECT " + rl.escape("x") + "\nFROM " + rl.escape("u"), moved));
    assert Render(rl, col, moved) == Ok(Out(rl.escape("t") + "." + rl.escape("b"), moved));
    TwoColumnLines(rl, sub, col, TableElem("t"), ctx, "SELECT " + rl.escape("x") + "\nFROM " + rl.escape("u"), moved,
                   rl.escape("t") + "." + rl.escape("b"), moved);
  }
}
