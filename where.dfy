/**
 * The WHERE builder of where.go and how its combinators compile: `And` and `Or` wrap the current
 * condition and the new ones in one parenthesised group, and chaining them nests groups rather than
 * flattening them.
 */
module WhereBuilder {
  import opened Wrappers
  import opened Ast
  import opened Rendering
  import Strings

  /** A WHERE clause over exactly `clause`. */
  function Where<V>(clause: Clause<V>): (w: WhereClause<V>)
    ensures w.clause == clause
  {
    WhereClause(clause)
  }

  /** Accept: the condition compiled, after the WHERE keyword, in the state the condition leaves. */
  lemma WhereAccept<V>(rl: Rules, clause: Clause<V>, ctx: Ctx<V>)
    ensures RenderWhere(rl, Where(clause), ctx).Ok? <==> Render(rl, clause, ctx).Ok?
    ensures Render(rl, clause, ctx).Ok? ==>
              RenderWhere(rl, Where(clause), ctx).value
              == Out("WHERE " + Render(rl, clause, ctx).value.sql, Render(rl, clause, ctx).value.ctx)
  {
  }

  /** Literal SQL fragments as clauses. */
  function Texts<V>(texts: seq<string>): (cs: seq<Clause<V>>)
    ensures |cs| == |texts|
  {
    if texts == [] then [] else [Text(texts[0])] + Texts(texts[1..])
  }

  /** Literal fragments compile to themselves, in order, and leave the state alone. */
  lemma {:induction false} TextsRender<V>(rl: Rules, texts: seq<string>, ctx: Ctx<V>)
    ensures RenderAll(rl, Texts<V>(texts), ctx) == Ok(Outs(texts, ctx))
  {
    if texts != [] {
      assert Texts<V>(texts)[1..] == Texts<V>(texts[1..]);
      TextsRender(rl, texts[1..], ctx);
      assert [texts[0]] + texts[1..] == texts;
    }
  }

  /** An AND or OR group is one pair of parentheses around its parts joined by the operator; no parts give "()". */
  lemma CombinerOfTexts<V>(rl: Rules, operator: string, texts: seq<string>, ctx: Ctx<V>)
    ensures RenderCombiner(rl, CombinerClause(operator, Texts<V>(texts)), ctx)
         == Ok(Out("(" + Strings.Join(texts, " " + operator + " ") + ")", ctx))
    ensures texts == [] ==> RenderCombiner(rl, CombinerClause(operator, Texts<V>(texts)), ctx) == Ok(Out("()", ctx))
  {
    TextsRender(rl, texts, ctx);
    assert "(" + "" + ")" == "()";
  }

  /** A WHERE over a group of x and ys. */
  lemma WhereGroup<V>(rl: Rules, operator: string, x: string, ys: seq<string>, ctx: Ctx<V>)
    ensures RenderWhere(rl, WhereClause(Combiner(CombinerClause(operator, [Text(x)] + Texts<V>(ys)))), ctx)
         == Ok(Out("WHERE " + ("(" + Strings.Join([x] + ys, " " + operator + " ") + ")"), ctx))
  {
    assert ([x] + ys)[1..] == ys;
    assert [Text(x)] + Texts<V>(ys) == Texts<V>([x] + ys);
    CombinerOfTexts(rl, operator, [x] + ys, ctx);
  }

  lemma WhereParens(parts: string)
    ensures "WHERE " + ("(" + parts + ")") == "WHERE (" + parts + ")"
  {
  }

  lemma Separators()
    ensures " " + "AND" + " " == " AND " && " " + "OR" + " " == " OR "
  {
  }

  /**
   * A WHERE over a group compiles exactly when all its parts do, one after the other; it is then the
   * parts joined by the operator inside one pair of parentheses, in the state the last part leaves.
   */
  lemma WhereGroupLaw<V>(rl: Rules, operator: string, clauses: seq<Clause<V>>, ctx: Ctx<V>)
    ensures RenderWhere(rl, WhereClause(Combiner(CombinerClause(operator, clauses))), ctx).Ok? <==> RenderAll(rl, clauses, ctx).Ok?
    ensures var parts := RenderAll(rl, clauses, ctx);
            parts.Ok? ==>
              RenderWhere(rl, WhereClause(Combiner(CombinerClause(operator, clauses))), ctx).value
              == Out("WHERE (" + Strings.Join(parts.value.sqls, " " + operator + " ") + ")", parts.value.ctx)
  {
    var cb := CombinerClause(operator, clauses);
    var c: Clause<V> := Combiner(cb);
    assert Render(rl, c, ctx) == RenderCombiner(rl, cb, ctx);
    var parts := RenderAll(rl, clauses, ctx);
    if parts.Ok? {
      assert RenderCombiner(rl, cb, ctx) == Ok(Out("(" + Strings.Join(parts.value.sqls, " " + operator + " ") + ")", parts.value.ctx));
      WhereParens(Strings.Join(parts.value.sqls, " " + operator + " "));
    }
  }

  /** w.And(cs...) compiles exactly when w's condition and then cs do, to one AND group of them all. */
  lemma AndRenders<V>(rl: Rules, w: WhereClause<V>, cs: seq<Clause<V>>, ctx: Ctx<V>)
    ensures RenderWhere(rl, w.And(cs), ctx).Ok? <==> RenderAll(rl, [w.clause] + cs, ctx).Ok?
    ensures var parts := RenderAll(rl, [w.clause] + cs, ctx);
            parts.Ok? ==> RenderWhere(rl, w.And(cs), ctx).value == Out("WHERE (" + Strings.Join(parts.value.sqls, " AND ") + ")", parts.value.ctx)
  {
    WhereGroupLaw(rl, "AND", [w.clause] + cs, ctx);
    Separators();
  }

  /** w.Or(cs...) compiles exactly when w's condition and then cs do, to one OR group of them all. */
  lemma OrRenders<V>(rl: Rules, w: WhereClause<V>, cs: seq<Clause<V>>, ctx: Ctx<V>)
    ensures RenderWhere(rl, w.Or(cs), ctx).Ok? <==> RenderAll(rl, [w.clause] + cs, ctx).Ok?
    ensures var parts := RenderAll(rl, [w.clause] + cs, ctx);
            parts.Ok? ==> RenderWhere(rl, w.Or(cs), ctx).value == Out("WHERE (" + Strings.Join(parts.value.sqls, " OR ") + ")", parts.value.ctx)
  {
    WhereGroupLaw(rl, "OR", [w.clause] + cs, ctx);
    Separators();
  }

  /** Where(x).And(ys...) compiles to one AND group of x followed by ys. */
  lemma AndOfTexts<V>(rl: Rules, x: string, ys: seq<string>, ctx: Ctx<V>)
    ensures RenderWhere(rl, Where<V>(Text(x)).And(Texts(ys)), ctx)
         == Ok(Out("WHERE (" + Strings.Join([x] + ys, " AND ") + ")", ctx))
  {
    WhereGroup(rl, "AND", x, ys, ctx);
    Separators();
    WhereParens(Strings.Join([x] + ys, " AND "));
  }

  /** Where(x).Or(ys...) compiles to one OR group of x followed by ys. */
  lemma OrOfTexts<V>(rl: Rules, x: string, ys: seq<string>, ctx: Ctx<V>)
    ensures RenderWhere(rl, Where<V>(Text(x)).Or(Texts(ys)), ctx)
         == Ok(Out("WHERE (" + Strings.Join([x] + ys, " OR ") + ")", ctx))
  {
    WhereGroup(rl, "OR", x, ys, ctx);
    Separators();
    WhereParens(Strings.Join([x] + ys, " OR "));
  }

  /** The expectations of TestWhereAnd, for any dialect. */
  lemma WhereAndExamples<V>(rl: Rules, ctx: Ctx<V>)
    ensures RenderWhere(rl, Where<V>(Text("X")).And([Text("Y")]), ctx) == Ok(Out("WHERE (X AND Y)", ctx))
    ensures RenderWhere(rl, Where<V>(Text("X")).And([Text("Y"), Text("Z")]), ctx) == Ok(Out("WHERE (X AND Y AND Z)", ctx))
  {
    TextsYZ<V>();
    AndOfTexts<V>(rl, "X", ["Y"], ctx);
    AndOfTexts<V>(rl, "X", ["Y", "Z"], ctx);
    JoinedXYZ(" AND ");
    assert "WHERE (" + ("X" + " AND " + "Y") + ")" == "WHERE (X AND Y)";
    assert "WHERE (" + ("X" + " AND " + ("Y" + " AND " + "Z")) + ")" == "WHERE (X AND Y AND Z)";
  }

  /** The expectations of TestWhereOr, for any dialect. */
  lemma WhereOrExamples<V>(rl: Rules, ctx: Ctx<V>)
    ensures RenderWhere(rl, Where<V>(Text("X")).Or([Text("Y")]), ctx) == Ok(Out("WHERE (X OR Y)", ctx))
    ensures RenderWhere(rl, Where<V>(Text("X")).Or([Text("Y"), Text("Z")]), ctx) == Ok(Out("WHERE (X OR Y OR Z)", ctx))
  {
    TextsYZ<V>();
    OrOfTexts<V>(rl, "X", ["Y"], ctx);
    OrOfTexts<V>(rl, "X", ["Y", "Z"], ctx);
    JoinedXYZ(" OR ");
    assert "WHERE (" + ("X" + " OR " + "Y") + ")" == "WHERE (X OR Y)";
    assert "WHERE (" + ("X" + " OR " + ("Y" + " OR " + "Z")) + ")" == "WHERE (X OR Y OR Z)";
  }

  lemma TextsYZ<V>()
    ensures Texts<V>(["Y"]) == [Text("Y")] && Texts<V>(["Y", "Z"]) == [Text("Y"), Text("Z")]
  {
    assert ["Y", "Z"][1..] == ["Z"];
  }

  lemma JoinedXYZ(sep: string)
    ensures Strings.Join(["X"] + ["Y"], sep) == "X" + sep + "Y"
    ensures Strings.Join(["X"] + ["Y", "Z"], sep) == "X" + sep + ("Y" + sep + "Z")
  {
    assert ["X"] + ["Y"] == ["X", "Y"] && ["X", "Y"][1..] == ["Y"];
    assert ["X"] + ["Y", "Z"] == ["X", "Y", "Z"] && ["X", "Y", "Z"][1..] == ["Y", "Z"] && ["Y", "Z"][1..] == ["Z"];
  }

  /** The builder shape of Where(x).And(a).Or(b): an OR group whose first part is the AND group. */
  lemma ChainShape<V>(x: string, a: string, b: string)
    ensures Where<V>(Text(x)).And([Text(a)]).Or([Text(b)])
         == WhereClause(Combiner(CombinerClause("OR", [Combiner(CombinerClause("AND", [Text(x), Text(a)])), Text(b)])))
  {
    var tx: Clause<V> := Text(x);
    var and: Clause<V> := Combiner(CombinerClause("AND", [tx, Text(a)]));
    assert [tx] + [Text(a)] == [tx, Text(a)];
    assert [and] + [Text(b)] == [and, Text(b)];
  }

  /** A group of a compiled part followed by a literal: the part and the literal, joined by the operator, in parentheses. */
  lemma GroupThenText<V>(rl: Rules, operator: string, first: Clause<V>, sql: string, b: string, ctx: Ctx<V>)
    requires Render(rl, first, ctx) == Ok(Out(sql, ctx))
    ensures RenderCombiner(rl, CombinerClause(operator, [first, Text(b)]), ctx)
         == Ok(Out("(" + (sql + (" " + operator + " ") + b) + ")", ctx))
  {
    var cs := [first, Text(b)];
    assert cs[1..] == Texts<V>([b]);
    TextsRender(rl, [b], ctx);
    assert RenderAll(rl, cs, ctx) == Ok(Outs([sql] + [b], ctx));
    assert [sql] + [b] == [sql, b] && [sql, b][1..] == [b];
  }

  /** Chaining nests rather than flattens: Where(x).And(a).Or(b) compiles to "WHERE ((x AND a) OR b)". */
  lemma ChainNests<V>(rl: Rules, x: string, a: string, b: string, ctx: Ctx<V>)
    ensures RenderWhere(rl, Where<V>(Text(x)).And([Text(a)]).Or([Text(b)]), ctx)
         == Ok(Out("WHERE ((" + x + " AND " + a + ") OR " + b + ")", ctx))
  {
    ChainShape<V>(x, a, b);
    var tx: Clause<V> := Text(x);
    var inner: Clause<V> := Combiner(CombinerClause("AND", [tx, Text(a)]));
    assert [x, a][1..] == [a];
    assert Texts<V>([x, a]) == [tx, Text(a)];
    CombinerOfTexts(rl, "AND", [x, a], ctx);
    assert [x] + [a] == [x, a];
    JoinTwo(x, a, " " + "AND" + " ");
    Separators();
    var andSql := "(" + (x + " AND " + a) + ")";
    assert Render(rl, inner, ctx) == Ok(Out(andSql, ctx));
    GroupThenText(rl, "OR", inner, andSql, b, ctx);
    ChainText(x, a, b);
  }

  lemma JoinTwo(x: string, a: string, sep: string)
    ensures Strings.Join([x] + [a], sep) == x + sep + a
  {
    assert [x] + [a] == [x, a] && [x, a][1..] == [a];
  }

  lemma ChainText(x: string, a: string, b: string)
    ensures "WHERE " + ("(" + ("(" + (x + " AND " + a) + ")" + (" " + "OR" + " ") + b) + ")")
         == "WHERE ((" + x + " AND " + a + ") OR " + b + ")"
  {
    Separators();
  }
}
