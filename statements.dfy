/**
 * INSERT and UPDATE: how each entry of the values is paired with its placeholder and its bind, and
 * what the UPDATE text looks like when there is nothing to set.
 */
module Statements {
  import opened Wrappers
  import opened Ast
  import opened Rendering
  import opened Bindings
  import Strings

  /**
   * The i-th entry of an INSERT gets its escaped name and the i-th placeholder issued from here on;
   * the flag and the default table are left alone.
   */
  lemma {:induction false} InsertPairing<V>(rl: Rules, values: seq<(string, V)>, ctx: Ctx<V>)
    ensures var a := InsertValues(rl, values, ctx);
            |a.names| == |a.marks| == |values|
            && (forall i :: 0 <= i < |values| ==> a.names[i] == RenderLabel(rl, values[i].0))
            && (forall i :: 0 <= i < |values| ==> a.marks[i] == rl.mark(ctx.issued + i + 1))
            && a.ctx.inSubQuery == ctx.inSubQuery && a.ctx.defaultTableName == ctx.defaultTableName
  {
    InsertValuesBinds(rl, values, ctx);
    if values != [] {
      var n := |values| - 1;
      var prefix := values[..n];
      InsertPairing(rl, prefix, ctx);
      InsertValuesBinds(rl, prefix, ctx);
      var before := InsertValues(rl, prefix, ctx);
      var a := InsertValues(rl, values, ctx);
      assert before.ctx.issued == ctx.issued + n;
      assert a.names == before.names + [RenderLabel(rl, values[n].0)];
      assert a.marks == before.marks + [rl.mark(ctx.issued + n + 1)];
      forall i | 0 <= i < n
        ensures a.names[i] == RenderLabel(rl, values[i].0) && a.marks[i] == rl.mark(ctx.issued + i + 1)
      {
        assert prefix[i] == values[i];
      }
    }
  }

  /** The i-th SET assignment of an UPDATE is `name = <i-th placeholder issued from here on>`. */
  lemma {:induction false} UpdatePairing<V>(rl: Rules, values: seq<(string, V)>, ctx: Ctx<V>)
    ensures var o := UpdateSets(rl, values, ctx);
            |o.sqls| == |values|
            && forall i :: 0 <= i < |values| ==> o.sqls[i] == RenderLabel(rl, values[i].0) + " = " + rl.mark(ctx.issued + i + 1)
  {
    InsertValuesBinds(rl, values, ctx);
    if values != [] {
      var n := |values| - 1;
      var prefix := values[..n];
      UpdatePairing(rl, prefix, ctx);
      InsertValuesBinds(rl, prefix, ctx);
      var before := UpdateSets(rl, prefix, ctx);
      var o := UpdateSets(rl, values, ctx);
      assert before.ctx.issued == ctx.issued + n;
      assert o.sqls == before.sqls + [RenderLabel(rl, values[n].0) + " = " + rl.mark(ctx.issued + n + 1)];
      forall i | 0 <= i < n
        ensures o.sqls[i] == RenderLabel(rl, values[i].0) + " = " + rl.mark(ctx.issued + i + 1)
      {
        assert prefix[i] == values[i];
      }
    }
  }

  /**
   * The INSERT and UPDATE loops keep the earlier binds and add the i-th value as the i-th new bind,
   * the one that goes with the i-th placeholder.
   */
  lemma BindsInOrder<V>(rl: Rules, values: seq<(string, V)>, ctx: Ctx<V>)
    ensures var after := InsertValues(rl, values, ctx).ctx;
            after == UpdateSets(rl, values, ctx).ctx
            && |after.binds| == |ctx.binds| + |values| && after.issued == ctx.issued + |values|
            && after.binds[..|ctx.binds|] == ctx.binds
            && forall i :: 0 <= i < |values| ==> after.binds[|ctx.binds| + i] == values[i].1
  {
    InsertValuesBinds(rl, values, ctx);
    var after := InsertValues(rl, values, ctx).ctx;
    forall i | 0 <= i < |values|
      ensures after.binds[|ctx.binds| + i] == values[i].1
    {
      assert after.binds[|ctx.binds| + i] == ValuesOf(values)[i];
    }
  }

  /** INSERT binds each value once, issues one placeholder each, keeps the flag and leaves no default table. */
  lemma InsertState<V>(rl: Rules, ins: InsertStmt<V>, ctx: Ctx<V>)
    ensures var after := RenderInsert(rl, ins, ctx).ctx;
            Extends(ctx, after, ValuesOf(ins.values))
            && after.defaultTableName == "" && after.inSubQuery == ctx.inSubQuery
  {
    InsertValuesBinds(rl, ins.values, ctx.(defaultTableName := ins.table.name));
    InsertPairing(rl, ins.values, ctx.(defaultTableName := ins.table.name));
  }

  /**
   * A compiled UPDATE starts with the UPDATE line, followed by a SET line exactly when there are values;
   * with no values the UPDATE line runs straight into the condition and the RETURNING line.
   */
  lemma UpdateSetLine<V>(rl: Rules, u: UpdateStmt<V>, ctx: Ctx<V>)
    ensures var r := RenderUpdate(rl, u, ctx);
            r.Ok? ==> Strings.StartsWith(r.value.sql, "UPDATE " + RenderTable(rl, u.table) + (if |u.values| > 0 then "\nSET " else ""))
    ensures var r := RenderUpdate(rl, u, ctx);
            u.values == [] && r.Ok? ==>
              r.value.sql == WithReturning(rl, "UPDATE " + RenderTable(rl, u.table) + WhereSuffix(WhereLines(rl, u.where, ctx).value.sqls), u.returning)
  {
    var sets := UpdateSets(rl, u.values, ctx);
    InsertValuesBinds(rl, u.values, ctx);
    var w := WhereLines(rl, u.where, sets.ctx);
    if w.Ok? {
      UpdateRenders(rl, u, ctx, w.value);
      UpdateText(rl, u.table, sets.sqls, WhereSuffix(w.value.sqls), u.returning);
      if u.values == [] {
        NoValuesHead(rl, u.table, sets.sqls);
      }
    }
  }

  /** With nothing to set, the head of an UPDATE is its first line alone. */
  lemma NoValuesHead(rl: Rules, table: TableElem, sets: seq<string>)
    requires sets == []
    ensures UpdateHead(rl, table, sets) == "UPDATE " + RenderTable(rl, table)
  {
    assert "UPDATE " + RenderTable(rl, table) + "" == "UPDATE " + RenderTable(rl, table);
  }

  /** The text of an UPDATE starts with its first line and, when there are assignments, "SET". */
  lemma UpdateText(rl: Rules, table: TableElem, sets: seq<string>, suffix: string, cols: seq<ColumnElem>)
    ensures Strings.StartsWith(WithReturning(rl, UpdateHead(rl, table, sets) + suffix, cols),
                       "UPDATE " + RenderTable(rl, table) + (if |sets| > 0 then "\nSET " else ""))
  {
    var head := "UPDATE " + RenderTable(rl, table) + (if |sets| > 0 then "\nSET " else "");
    var rest := if |sets| > 0 then Strings.Join(sets, ", ") else "";
    assert UpdateHead(rl, table, sets) == head + rest;
    assert head + rest + suffix == head + (rest + suffix);
    PrefixOfReturning(rl, head, rest + suffix, cols);
  }

  /** With no values, no condition and no RETURNING columns, an UPDATE is its first line alone and binds nothing. */
  lemma BareUpdate<V>(rl: Rules, u: UpdateStmt<V>, ctx: Ctx<V>)
    requires u.values == [] && u.where.None? && u.returning == []
    ensures RenderUpdate(rl, u, ctx) == Ok(Out("UPDATE " + RenderTable(rl, u.table), ctx))
  {
    assert "UPDATE " + RenderTable(rl, u.table) + "" + "" == "UPDATE " + RenderTable(rl, u.table);
  }

  /** Whatever follows, the RETURNING line included, `head` stays a prefix. */
  lemma PrefixOfReturning(rl: Rules, head: string, rest: string, cols: seq<ColumnElem>)
    ensures Strings.StartsWith(WithReturning(rl, head + rest, cols), head)
  {
    assert (head + rest)[..|head|] == head;
    assert WithReturning(rl, head + rest, cols)[..|head + rest|] == head + rest;
  }
}
