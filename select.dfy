/**
 * The select builder of select.go: a new statement, the compiled SELECT with its binds (`Build`),
 * and what the builder methods of `Ast.SelectStmt` do to the compiled text.
 *
 * The layout of a compiled SELECT is stated line by line: line i starts with the i-th keyword of
 * `Layout(s)`, which lists SELECT, FROM, then WHERE, GROUP BY, one HAVING per condition, ORDER BY
 * and LIMIT, each only when the statement has it.
 */
module SelectBuilder {
  import opened Wrappers
  import opened Ast
  import opened Rendering
  import opened Bindings
  import opened Compiler
  import Strings

  /** A statement selecting `clauses`, with no FROM table, joins, grouping, conditions, order or limit. */
  function Select<V>(clauses: seq<Clause<V>>): (s: SelectStmt<V>)
    ensures s.sel == clauses && s.from == TableElem("")
    ensures s.joins == [] && s.groupBy == [] && s.having == []
    ensures s.where.None? && s.orderBy.None? && s.offset.None? && s.count.None?
  {
    SelectStmt(clauses, TableElem(""), [], [], None, [], None, None, None)
  }

  /** Compiles `s` with a new context over `dialect` and returns its text and binds; the dialect is reset. */
  method Build<V>(s: SelectStmt<V>, dialect: Dialect) returns (r: Result<(string, seq<V>)>)
    modifies dialect
    ensures dialect.issued == 0
    ensures var spec := RenderSelect(dialect.rules, s, Initial(old(dialect.issued)));
            r.Ok? == spec.Ok? && (r.Ok? ==> r.value == (spec.value.sql, spec.value.ctx.binds))
    ensures r.Ok? <==> !SelectHasUpsert(s)
    ensures r.Ok? ==> r.value.1 == SelectBinds(s)
  {
    var ctx := new CompilerContext<V>(dialect);
    ghost var start := ctx.State();
    var sql := VisitSelect(ctx, s);
    RenderSelectBinds(dialect.rules, s, start);
    dialect.Reset();
    if sql.Failure? {
      return Failure(sql.message);
    }
    r := Ok((sql.value, ctx.binds));
  }

  // ---- the layout of a compiled SELECT ----

  /** Line i of `lines` starts with `keywords[i]`, and there are as many lines as keywords. */
  predicate Prefixed(lines: seq<string>, keywords: seq<string>) {
    |lines| == |keywords| && forall i :: 0 <= i < |lines| ==> Strings.StartsWith(lines[i], keywords[i])
  }

  function Repeat(keyword: string, n: nat): (r: seq<string>)
    ensures |r| == n && forall i :: 0 <= i < n ==> r[i] == keyword
  {
    if n == 0 then [] else [keyword] + Repeat(keyword, n - 1)
  }

  /** The keywords that start the lines of `s` compiled, in order. */
  function Layout<V>(s: SelectStmt<V>): (keywords: seq<string>) {
    ["SELECT ", "FROM "]
    + (if s.where.Some? then ["WHERE "] else [])
    + (if |s.groupBy| > 0 then ["GROUP BY "] else [])
    + Repeat("HAVING ", |s.having|)
    + (if s.orderBy.Some? then ["ORDER BY "] else [])
    + (if s.offset.Some? && s.count.Some? then ["LIMIT "] else [])
  }

  lemma PrefixedConcat(a: seq<string>, ka: seq<string>, b: seq<string>, kb: seq<string>)
    requires Prefixed(a, ka) && Prefixed(b, kb)
    ensures Prefixed(a + b, ka + kb)
  {
    forall i | 0 <= i < |a + b|
      ensures Strings.StartsWith((a + b)[i], (ka + kb)[i])
    {
      if i < |a| {
        assert (a + b)[i] == a[i] && (ka + kb)[i] == ka[i];
      } else {
        assert (a + b)[i] == b[i - |a|] && (ka + kb)[i] == kb[i - |a|];
      }
    }
  }

  /** Every HAVING line starts with HAVING. */
  lemma {:induction false} HavingLinesPrefixed<V>(rl: Rules, hs: seq<HavingClause<V>>, ctx: Ctx<V>)
    decreases hs
    ensures RenderHavings(rl, hs, ctx).Ok? ==> Prefixed(RenderHavings(rl, hs, ctx).value.sqls, Repeat("HAVING ", |hs|))
  {
    if hs != [] {
      var first := RenderHaving(rl, hs[0], ctx);
      if first.Ok? {
        var agg := RenderAggregate(rl, hs[0].aggregate, ctx).value;
        Strings.StartsWithConcat("HAVING ", agg.sql + " " + hs[0].op + " " + RenderBind(rl, hs[0].value, agg.ctx).sql);
        assert first.value.sql == "HAVING " + (agg.sql + " " + hs[0].op + " " + RenderBind(rl, hs[0].value, agg.ctx).sql);
        HavingLinesPrefixed(rl, hs[1..], first.value.ctx);
        var rest := RenderHavings(rl, hs[1..], first.value.ctx);
        if rest.Ok? {
          PrefixedConcat([first.value.sql], ["HAVING "], rest.value.sqls, Repeat("HAVING ", |hs| - 1));
        }
      }
    }
  }

  /**
   * A compiled SELECT has the lines SELECT, FROM, WHERE, GROUP BY, HAVING..., ORDER BY, LIMIT in this
   * order, each optional one present exactly when the statement has that part, and LIMIT only when
   * both the offset and the count are set.
   */
  lemma SelectLayout<V>(rl: Rules, s: SelectStmt<V>, ctx: Ctx<V>)
    ensures SelectLines(rl, s, ctx).Ok? ==> Prefixed(SelectLines(rl, s, ctx).value.sqls, Layout(s))
  {
    var columns := RenderAll(rl, s.sel, SelectScope(s, ctx));
    if columns.Ok? {
      var where := WhereLines(rl, s.where, columns.value.ctx);
      if where.Ok? {
        var having := RenderHavings(rl, s.having, where.value.ctx);
        if having.Ok? {
          var head := SelectHead(rl, s, columns.value.sqls);
          Strings.StartsWithConcat("SELECT ", Strings.Join(columns.value.sqls, ", "));
          Strings.StartsWithConcat("FROM ", RenderTable(rl, s.from));
          assert Prefixed(head, ["SELECT ", "FROM "]);

          var kw := if s.where.Some? then ["WHERE "] else [];
          if s.where.Some? {
            var w := RenderWhere(rl, s.where.value, columns.value.ctx);
            var cond := Render(rl, s.where.value.clause, columns.value.ctx);
            assert w.Ok? && cond.Ok?;
            Strings.StartsWithConcat("WHERE ", cond.value.sql);
            assert where.value.sqls == [w.value.sql];
          }
          assert Prefixed(where.value.sqls, kw);
          PrefixedConcat(head, ["SELECT ", "FROM "], where.value.sqls, kw);

          var kg := if |s.groupBy| > 0 then ["GROUP BY "] else [];
          if |s.groupBy| > 0 {
            Strings.StartsWithConcat("GROUP BY ", Strings.Join(EscapeNames(rl, s.groupBy), ", "));
          }
          assert Prefixed(GroupByLines(rl, s.groupBy), kg);
          PrefixedConcat(head + where.value.sqls, ["SELECT ", "FROM "] + kw, GroupByLines(rl, s.groupBy), kg);

          HavingLinesPrefixed(rl, s.having, where.value.ctx);
          PrefixedConcat(head + where.value.sqls + GroupByLines(rl, s.groupBy), ["SELECT ", "FROM "] + kw + kg,
                         having.value.sqls, Repeat("HAVING ", |s.having|));

          var ko := if s.orderBy.Some? then ["ORDER BY "] else [];
          var orderBy := OrderByLines(rl, s.orderBy, having.value.ctx);
          if s.orderBy.Some? {
            Strings.StartsWithConcat("ORDER BY ", Strings.Join(RenderColumns(rl, s.orderBy.value.columns, having.value.ctx), ", ")
                                          + " " + s.orderBy.value.t);
          }
          assert Prefixed(orderBy, ko);
          PrefixedConcat(head + where.value.sqls + GroupByLines(rl, s.groupBy) + having.value.sqls,
                         ["SELECT ", "FROM "] + kw + kg + Repeat("HAVING ", |s.having|), orderBy, ko);

          var kl := if s.offset.Some? && s.count.Some? then ["LIMIT "] else [];
          if s.offset.Some? && s.count.Some? {
            Strings.StartsWithConcat("LIMIT ", Strings.IntToString(s.count.value) + " OFFSET " + Strings.IntToString(s.offset.value));
          }
          assert Prefixed(LimitLines(s.offset, s.count), kl);
          PrefixedConcat(head + where.value.sqls + GroupByLines(rl, s.groupBy) + having.value.sqls + orderBy,
                         ["SELECT ", "FROM "] + kw + kg + Repeat("HAVING ", |s.having|) + ko,
                         LimitLines(s.offset, s.count), kl);
        }
      }
    }
  }

  // ---- the builder methods, compiled ----

  /** A new statement compiles to its SELECT and FROM lines and nothing else. */
  lemma FreshSelectLayout<V>(clauses: seq<Clause<V>>, table: TableElem)
    ensures Layout(Select(clauses).From(table)) == ["SELECT ", "FROM "]
  {
  }

  /** After Limit, the last line of the compiled statement is the LIMIT line, count before offset. */
  lemma LimitRendersLimitLine<V>(rl: Rules, s: SelectStmt<V>, offset: int, count: int, ctx: Ctx<V>)
    ensures var lines := SelectLines(rl, s.Limit(offset, count), ctx);
            lines.Ok? ==> |lines.value.sqls| > 2
                          && lines.value.sqls[|lines.value.sqls| - 1]
                             == "LIMIT " + Strings.IntToString(count) + " OFFSET " + Strings.IntToString(offset)
  {
    var t := s.Limit(offset, count);
    SelectLayout(rl, t, ctx);
  }

  /** Joins never reach the compiled text, the binds or the state: the compiler ignores them. */
  lemma JoinsNotRendered<V>(rl: Rules, s: SelectStmt<V>, joins: seq<SelectJoin>, ctx: Ctx<V>)
    ensures RenderSelect(rl, s.(joins := joins), ctx) == RenderSelect(rl, s, ctx)
  {
    assert SelectLines(rl, s.(joins := joins), ctx) == SelectLines(rl, s, ctx);
  }

  /** An inner join added by the builder leaves the compiled statement as it was. */
  lemma InnerJoinNotRendered<V>(rl: Rules, s: SelectStmt<V>, table: TableElem, fromCol: ColumnElem, col: ColumnElem, ctx: Ctx<V>)
    ensures RenderSelect(rl, s.InnerJoin(table, fromCol, col), ctx) == RenderSelect(rl, s, ctx)
  {
    JoinsNotRendered(rl, s, s.InnerJoin(table, fromCol, col).joins, ctx);
  }

  lemma {:induction false} HavingsBindsAppend<V>(hs: seq<HavingClause<V>>, h: HavingClause<V>)
    ensures HavingsBinds(hs + [h]) == HavingsBinds(hs) + HavingBinds(h)
  {
    if hs == [] {
      assert [h][1..] == [];
    } else {
      assert (hs + [h])[1..] == hs[1..] + [h];
      HavingsBindsAppend(hs[1..], h);
    }
  }

  /** Having binds, after every earlier bind, the aggregate's values and then `value`. */
  lemma HavingAddsBind<V>(s: SelectStmt<V>, aggregate: AggregateClause<V>, op: string, value: V)
    ensures SelectBinds(s.Having(aggregate, op, value)) == SelectBinds(s) + BindValues(aggregate.clause) + [value]
  {
    HavingsBindsAppend(s.having, HavingClause(aggregate, op, value));
  }

  /** Desc after OrderBy compiles to an ORDER BY line over the columns, ending in DESC. */
  lemma DescRendering<V>(rl: Rules, s: SelectStmt<V>, columns: seq<ColumnElem>, ctx: Ctx<V>)
    ensures OrderByLines(rl, s.OrderBy(columns).Desc().orderBy, ctx)
         == ["ORDER BY " + Strings.Join(RenderColumns(rl, columns, ctx), ", ") + " DESC"]
    ensures OrderByLines(rl, s.OrderBy(columns).orderBy, ctx)
         == ["ORDER BY " + Strings.Join(RenderColumns(rl, columns, ctx), ", ") + " ASC"]
  {
    var cols := Strings.Join(RenderColumns(rl, columns, ctx), ", ");
    assert "ORDER BY " + cols + " " + "DESC" == "ORDER BY " + cols + " DESC";
    assert "ORDER BY " + cols + " " + "ASC" == "ORDER BY " + cols + " ASC";
  }
}
