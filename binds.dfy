/**
 * The bind list and the placeholder counter move in lockstep: compiling any clause appends exactly
 * its bind values, in evaluation order, and issues exactly one placeholder per value appended. A
 * compilation fails exactly when it reaches an upsert.
 *
 * `BindValues` and `HasUpsert` are reference definitions read off the tree alone, without threading
 * any state; the lemmas connect them to the Rendering functions.
 */
module Bindings {
  import opened Wrappers
  import opened Ast
  import opened Rendering

  /** The values of an INSERT or UPDATE in the order they are bound. */
  function ValuesOf<V>(values: seq<(string, V)>): (r: seq<V>)
    ensures |r| == |values|
  {
    seq(|values|, i requires 0 <= i < |values| => values[i].1)
  }

  /** The values `c` binds, left to right. */
  function BindValues<V>(c: Clause<V>): (vs: seq<V>)
    decreases c
  {
    match c
    case Text(_) => []
    case Bind(value) => [value]
    case Column(_) => []
    case Table(_) => []
    case Binary(b) => BindValues(b.left) + BindValues(b.right)
    case Combiner(cb) => BindValuesAll(cb.clauses)
    case List(l) => BindValuesAll(l.clauses)
    case Alias(a) => BindValues(a.selectable)
    case Exists(e) => BindValues(e.select)
    case Aggregate(a) => BindValues(a.clause)
    case Join(j) => if j.onClause.Some? then BindValues(j.onClause.value) else []
    case OrderBy(_) => []
    case Having(h) => HavingBinds(h)
    case Where(w) => BindValues(w.clause)
    case Select(s) => SelectBinds(s)
    case Insert(i) => ValuesOf(i.values)
    case Update(u) => ValuesOf(u.values) + WhereBinds(u.where)
    case Delete(d) => WhereBinds(d.where)
    case Upsert(_) => []
  }

  function BindValuesAll<V>(cs: seq<Clause<V>>): (vs: seq<V>)
    decreases cs
  {
    if cs == [] then [] else BindValues(cs[0]) + BindValuesAll(cs[1..])
  }

  /** The aggregate's values, then the compared value. */
  function HavingBinds<V>(h: HavingClause<V>): (vs: seq<V>)
    decreases h
  {
    BindValues(h.aggregate.clause) + [h.value]
  }

  function HavingsBinds<V>(hs: seq<HavingClause<V>>): (vs: seq<V>)
    decreases hs
  {
    if hs == [] then [] else HavingBinds(hs[0]) + HavingsBinds(hs[1..])
  }

  function WhereBinds<V>(w: Option<WhereClause<V>>): (vs: seq<V>)
    decreases w
  {
    if w.Some? then BindValues(w.value.clause) else []
  }

  /** Columns, then WHERE, then the HAVING conditions; joins and ORDER BY bind nothing. */
  function SelectBinds<V>(s: SelectStmt<V>): (vs: seq<V>)
    decreases s
  {
    BindValuesAll(s.sel) + WhereBinds(s.where) + HavingsBinds(s.having)
  }

  /** Whether compiling `c` reaches an upsert. */
  predicate HasUpsert<V>(c: Clause<V>)
    decreases c
  {
    match c
    case Binary(b) => HasUpsert(b.left) || HasUpsert(b.right)
    case Combiner(cb) => AnyUpsert(cb.clauses)
    case List(l) => AnyUpsert(l.clauses)
    case Alias(a) => HasUpsert(a.selectable)
    case Exists(e) => HasUpsert(e.select)
    case Aggregate(a) => HasUpsert(a.clause)
    case Join(j) => j.onClause.Some? && HasUpsert(j.onClause.value)
    case Having(h) => HasUpsert(h.aggregate.clause)
    case Where(w) => HasUpsert(w.clause)
    case Select(s) => SelectHasUpsert(s)
    case Update(u) => WhereHasUpsert(u.where)
    case Delete(d) => WhereHasUpsert(d.where)
    case Upsert(_) => true
    case _ => false
  }

  predicate AnyUpsert<V>(cs: seq<Clause<V>>)
    decreases cs
  {
    cs != [] && (HasUpsert(cs[0]) || AnyUpsert(cs[1..]))
  }

  predicate HavingsHaveUpsert<V>(hs: seq<HavingClause<V>>)
    decreases hs
  {
    hs != [] && (HasUpsert(hs[0].aggregate.clause) || HavingsHaveUpsert(hs[1..]))
  }

  predicate WhereHasUpsert<V>(w: Option<WhereClause<V>>)
    decreases w
  {
    w.Some? && HasUpsert(w.value.clause)
  }

  predicate SelectHasUpsert<V>(s: SelectStmt<V>)
    decreases s
  {
    AnyUpsert(s.sel) || WhereHasUpsert(s.where) || HavingsHaveUpsert(s.having)
  }

  /** `after` holds the binds of `before` followed by `vs`, and one more placeholder per value. */
  ghost predicate Extends<V>(before: Ctx<V>, after: Ctx<V>, vs: seq<V>) {
    after.binds == before.binds + vs && after.issued == before.issued + |vs|
  }

  lemma ExtendsTrans<V>(a: Ctx<V>, b: Ctx<V>, c: Ctx<V>, u: seq<V>, v: seq<V>)
    requires Extends(a, b, u) && Extends(b, c, v)
    ensures Extends(a, c, u + v)
  {
    assert a.binds + u + v == a.binds + (u + v);
  }

  /** The INSERT and UPDATE loops bind each value once, in order, with one placeholder each. */
  lemma {:induction false} InsertValuesBinds<V>(rl: Rules, values: seq<(string, V)>, ctx: Ctx<V>)
    ensures var a := InsertValues(rl, values, ctx);
            |a.names| == |a.marks| == |values| && Extends(ctx, a.ctx, ValuesOf(values))
    ensures UpdateSets(rl, values, ctx).ctx == InsertValues(rl, values, ctx).ctx
    ensures |UpdateSets(rl, values, ctx).sqls| == |values|
  {
    if values != [] {
      var n := |values| - 1;
      InsertValuesBinds(rl, values[..n], ctx);
      assert ValuesOf(values) == ValuesOf(values[..n]) + [values[n].1];
    }
  }

  /** Compiling `c` fails exactly when it reaches an upsert, and otherwise binds exactly `BindValues(c)`. */
  lemma {:induction false} RenderBinds<V>(rl: Rules, c: Clause<V>, ctx: Ctx<V>)
    decreases c
    ensures Render(rl, c, ctx).Ok? <==> !HasUpsert(c)
    ensures Render(rl, c, ctx).Ok? ==> Extends(ctx, Render(rl, c, ctx).value.ctx, BindValues(c))
  {
    match c
    case Text(_) =>
    case Bind(value) =>
    case Column(_) =>
    case Table(_) =>
    case Binary(b) =>
      RenderBinds(rl, b.left, ctx);
      var left := Render(rl, b.left, ctx);
      if left.Ok? {
        RenderBinds(rl, b.right, left.value.ctx);
        var right := Render(rl, b.right, left.value.ctx);
        if right.Ok? {
          ExtendsTrans(ctx, left.value.ctx, right.value.ctx, BindValues(b.left), BindValues(b.right));
        }
      }
    case Combiner(cb) =>
      RenderAllBinds(rl, cb.clauses, ctx);
    case List(l) =>
      RenderAllBinds(rl, l.clauses, ctx);
    case Alias(a) =>
      RenderBinds(rl, a.selectable, ctx);
    case Exists(e) =>
      RenderBinds(rl, e.select, ctx.(inSubQuery := true));
    case Aggregate(a) =>
      RenderBinds(rl, a.clause, ctx);
    case Join(j) =>
      if j.onClause.Some? {
        RenderBinds(rl, j.onClause.value, ctx);
      }
    case OrderBy(_) =>
    case Having(h) =>
      RenderHavingBinds(rl, h, ctx);
    case Where(w) =>
      RenderBinds(rl, w.clause, ctx);
    case Select(s) =>
      RenderSelectBinds(rl, s, ctx);
    case Insert(i) =>
      InsertValuesBinds(rl, i.values, ctx.(defaultTableName := i.table.name));
    case Update(u) =>
      InsertValuesBinds(rl, u.values, ctx);
      var sets := UpdateSets(rl, u.values, ctx);
      WhereLinesBinds(rl, u.where, sets.ctx);
      var where := WhereLines(rl, u.where, sets.ctx);
      if where.Ok? {
        ExtendsTrans(ctx, sets.ctx, where.value.ctx, ValuesOf(u.values), WhereBinds(u.where));
      }
    case Delete(d) =>
      WhereLinesBinds(rl, d.where, ctx);
    case Upsert(_) =>
  }

  lemma {:induction false} RenderAllBinds<V>(rl: Rules, cs: seq<Clause<V>>, ctx: Ctx<V>)
    decreases cs
    ensures RenderAll(rl, cs, ctx).Ok? <==> !AnyUpsert(cs)
    ensures RenderAll(rl, cs, ctx).Ok? ==> Extends(ctx, RenderAll(rl, cs, ctx).value.ctx, BindValuesAll(cs))
  {
    if cs != [] {
      RenderBinds(rl, cs[0], ctx);
      var first := Render(rl, cs[0], ctx);
      if first.Ok? {
        RenderAllBinds(rl, cs[1..], first.value.ctx);
        var rest := RenderAll(rl, cs[1..], first.value.ctx);
        if rest.Ok? {
          ExtendsTrans(ctx, first.value.ctx, rest.value.ctx, BindValues(cs[0]), BindValuesAll(cs[1..]));
        }
      }
    }
  }

  lemma {:induction false} RenderHavingBinds<V>(rl: Rules, h: HavingClause<V>, ctx: Ctx<V>)
    decreases h
    ensures RenderHaving(rl, h, ctx).Ok? <==> !HasUpsert(h.aggregate.clause)
    ensures RenderHaving(rl, h, ctx).Ok? ==> Extends(ctx, RenderHaving(rl, h, ctx).value.ctx, HavingBinds(h))
  {
    RenderBinds(rl, h.aggregate.clause, ctx);
    var agg := Render(rl, h.aggregate.clause, ctx);
    if agg.Ok? {
      ExtendsTrans(ctx, agg.value.ctx, RenderBind(rl, h.value, agg.value.ctx).ctx, BindValues(h.aggregate.clause), [h.value]);
    }
  }

  lemma {:induction false} RenderHavingsBinds<V>(rl: Rules, hs: seq<HavingClause<V>>, ctx: Ctx<V>)
    decreases hs
    ensures RenderHavings(rl, hs, ctx).Ok? <==> !HavingsHaveUpsert(hs)
    ensures RenderHavings(rl, hs, ctx).Ok? ==> Extends(ctx, RenderHavings(rl, hs, ctx).value.ctx, HavingsBinds(hs))
  {
    if hs != [] {
      RenderHavingBinds(rl, hs[0], ctx);
      var first := RenderHaving(rl, hs[0], ctx);
      if first.Ok? {
        RenderHavingsBinds(rl, hs[1..], first.value.ctx);
        var rest := RenderHavings(rl, hs[1..], first.value.ctx);
        if rest.Ok? {
          ExtendsTrans(ctx, first.value.ctx, rest.value.ctx, HavingBinds(hs[0]), HavingsBinds(hs[1..]));
        }
      }
    }
  }

  lemma {:induction false} WhereLinesBinds<V>(rl: Rules, w: Option<WhereClause<V>>, ctx: Ctx<V>)
    decreases w
    ensures WhereLines(rl, w, ctx).Ok? <==> !WhereHasUpsert(w)
    ensures WhereLines(rl, w, ctx).Ok? ==> Extends(ctx, WhereLines(rl, w, ctx).value.ctx, WhereBinds(w))
  {
    if w.Some? {
      RenderBinds(rl, w.value.clause, ctx);
    }
  }

  lemma {:induction false} RenderSelectBinds<V>(rl: Rules, s: SelectStmt<V>, ctx: Ctx<V>)
    decreases s
    ensures RenderSelect(rl, s, ctx).Ok? <==> !SelectHasUpsert(s)
    ensures RenderSelect(rl, s, ctx).Ok? ==> Extends(ctx, RenderSelect(rl, s, ctx).value.ctx, SelectBinds(s))
  {
    var ctx1 := SelectScope(s, ctx);
    RenderAllBinds(rl, s.sel, ctx1);
    var columns := RenderAll(rl, s.sel, ctx1);
    if columns.Ok? {
      WhereLinesBinds(rl, s.where, columns.value.ctx);
      var where := WhereLines(rl, s.where, columns.value.ctx);
      if where.Ok? {
        RenderHavingsBinds(rl, s.having, where.value.ctx);
        var having := RenderHavings(rl, s.having, where.value.ctx);
        if having.Ok? {
          ExtendsTrans(ctx1, columns.value.ctx, where.value.ctx, BindValuesAll(s.sel), WhereBinds(s.where));
          ExtendsTrans(ctx1, where.value.ctx, having.value.ctx, BindValuesAll(s.sel) + WhereBinds(s.where), HavingsBinds(s.having));
          SelectRenders(rl, s, ctx, columns.value, where.value, having.value);
        } else {
          SelectHavingFails(rl, s, ctx, columns.value, where.value);
        }
      } else {
        SelectWhereFails(rl, s, ctx, columns.value);
      }
    }
  }

  /** Binds and placeholders that start in step stay in step: bind i goes with the i-th placeholder issued. */
  lemma Lockstep<V>(rl: Rules, c: Clause<V>, ctx: Ctx<V>)
    requires |ctx.binds| == ctx.issued
    ensures Render(rl, c, ctx).Ok? ==> |Render(rl, c, ctx).value.ctx.binds| == Render(rl, c, ctx).value.ctx.issued
  {
    RenderBinds(rl, c, ctx);
  }
}
