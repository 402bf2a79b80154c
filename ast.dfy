/**
 * The SQL syntax tree: one datatype per node struct of package qb, and `Clause`, the closed sum of
 * every node kind that can be compiled (one variant per `Accept` implementation). Bind values are
 * Go's `interface{}`; they are never inspected, so they are the type parameter `V`.
 *
 * The builder methods of `SelectStmt` (select.go) and `WhereClause` (where.go) take value receivers
 * and return a modified copy, so they are member functions here.
 */
module Ast {
  import opened Wrappers

  /** A column reference `table.name`. */
  datatype ColumnElem = ColumnElem(table: string, name: string)

  /** A table reference. */
  datatype TableElem = TableElem(name: string) {
    /** The name a statement's columns are compared with to decide on qualification. */
    function DefaultName(): string {
      name
    }
  }

  /** `left op right`. */
  datatype BinaryExpressionClause<V> = BinaryExpressionClause(left: Clause<V>, op: string, right: Clause<V>)

  /** An AND or OR group: `operator` is "AND" or "OR". */
  datatype CombinerClause<V> = CombinerClause(operator: string, clauses: seq<Clause<V>>)

  /** A parenthesised, comma-separated list. */
  datatype ListClause<V> = ListClause(clauses: seq<Clause<V>>)

  /** `selectable AS name`. */
  datatype AliasClause<V> = AliasClause(selectable: Clause<V>, name: string)

  /** `[NOT ]EXISTS(select)`. */
  datatype ExistsClause<V> = ExistsClause(select: Clause<V>, not: bool)

  /** `fn(clause)`, as COUNT(...) or SUM(...). */
  datatype AggregateClause<V> = AggregateClause(fn: string, clause: Clause<V>)

  /** A join as the compiler renders it: `left`, then a new line with `joinType right [ON onClause]`. */
  datatype JoinClause<V> = JoinClause(left: TableElem, joinType: string, right: TableElem, onClause: Option<Clause<V>>)

  /** ORDER BY over `columns` in direction `t` ("ASC" or "DESC"). */
  datatype OrderByClause = OrderByClause(columns: seq<ColumnElem>, t: string)

  /** `HAVING aggregate op <placeholder>`, with `value` bound to the placeholder. */
  datatype HavingClause<V> = HavingClause(aggregate: AggregateClause<V>, op: string, value: V)

  /** A join as the select builder records it; the compiler never renders these. */
  datatype SelectJoin = SelectJoin(joinType: string, fromTable: TableElem, table: TableElem, fromCol: ColumnElem, col: ColumnElem)

  /** The zero value of a Go `ColumnElem`, used for the columns of a cross join. */
  const NoColumn := ColumnElem("", "")

  /** `WHERE clause`; further conditions are folded in by And and Or. */
  datatype WhereClause<V> = WhereClause(clause: Clause<V>) {

    /** The wrapped clause becomes an AND group of the old clause followed by `clauses`. */
    function And(clauses: seq<Clause<V>>): (w: WhereClause<V>)
      ensures w.clause.Combiner? && w.clause.combiner.operator == "AND"
      ensures |w.clause.combiner.clauses| == 1 + |clauses|
      ensures w.clause.combiner.clauses[0] == clause && w.clause.combiner.clauses[1..] == clauses
    {
      WhereClause(Combiner(CombinerClause("AND", [clause] + clauses)))
    }

    /** The wrapped clause becomes an OR group of the old clause followed by `clauses`. */
    function Or(clauses: seq<Clause<V>>): (w: WhereClause<V>)
      ensures w.clause.Combiner? && w.clause.combiner.operator == "OR"
      ensures |w.clause.combiner.clauses| == 1 + |clauses|
      ensures w.clause.combiner.clauses[0] == clause && w.clause.combiner.clauses[1..] == clauses
    {
      WhereClause(Combiner(CombinerClause("OR", [clause] + clauses)))
    }
  }

  /** A SELECT statement; a nil pointer field of the Go struct is `None`. */
  datatype SelectStmt<V> = SelectStmt(
    sel: seq<Clause<V>>,
    from: TableElem,
    joins: seq<SelectJoin>,
    groupBy: seq<ColumnElem>,
    orderBy: Option<OrderByClause>,
    having: seq<HavingClause<V>>,
    where: Option<WhereClause<V>>,
    offset: Option<int>,
    count: Option<int>)
  {
    /** Replaces the selected columns. */
    function Select(clauses: seq<Clause<V>>): (s: SelectStmt<V>)
      ensures s.sel == clauses && s.(sel := sel) == this
    {
      this.(sel := clauses)
    }

    /** Replaces the FROM table. */
    function From(table: TableElem): (s: SelectStmt<V>)
      ensures s.from == table && s.(from := from) == this
    {
      this.(from := table)
    }

    /** Replaces the WHERE clause by one wrapping exactly `clause`. */
    function Where(clause: Clause<V>): (s: SelectStmt<V>)
      ensures s.where == Some(WhereClause(clause)) && s.(where := where) == this
    {
      this.(where := Some(WhereClause(clause)))
    }

    /** Appends one join of type `joinType` from the current FROM table to `table`. */
    function AddJoin(joinType: string, table: TableElem, fromCol: ColumnElem, col: ColumnElem): (s: SelectStmt<V>)
      ensures |s.joins| == |joins| + 1 && s.joins[..|joins|] == joins
      ensures s.joins[|joins|] == SelectJoin(joinType, from, table, fromCol, col)
      ensures s.(joins := joins) == this
    {
      this.(joins := joins + [SelectJoin(joinType, from, table, fromCol, col)])
    }

    /** Appends an INNER JOIN on `fromCol` and `col`. */
    function InnerJoin(table: TableElem, fromCol: ColumnElem, col: ColumnElem): (s: SelectStmt<V>)
      ensures s.joins == joins + [SelectJoin("INNER JOIN", from, table, fromCol, col)]
      ensures s.(joins := joins) == this
    {
      AddJoin("INNER JOIN", table, fromCol, col)
    }

    /** Appends a CROSS JOIN, whose join columns are zero values. */
    function CrossJoin(table: TableElem): (s: SelectStmt<V>)
      ensures s.joins == joins + [SelectJoin("CROSS JOIN", from, table, NoColumn, NoColumn)]
      ensures s.(joins := joins) == this
    {
      AddJoin("CROSS JOIN", table, NoColumn, NoColumn)
    }

    /** Appends a LEFT OUTER JOIN on `fromCol` and `col`. */
    function LeftJoin(table: TableElem, fromCol: ColumnElem, col: ColumnElem): (s: SelectStmt<V>)
      ensures s.joins == joins + [SelectJoin("LEFT OUTER JOIN", from, table, fromCol, col)]
      ensures s.(joins := joins) == this
    {
      AddJoin("LEFT OUTER JOIN", table, fromCol, col)
    }

    /** Appends a RIGHT OUTER JOIN on `fromCol` and `col`. */
    function RightJoin(table: TableElem, fromCol: ColumnElem, col: ColumnElem): (s: SelectStmt<V>)
      ensures s.joins == joins + [SelectJoin("RIGHT OUTER JOIN", from, table, fromCol, col)]
      ensures s.(joins := joins) == this
    {
      AddJoin("RIGHT OUTER JOIN", table, fromCol, col)
    }

    /** Orders by `columns`, ascending. */
    function OrderBy(columns: seq<ColumnElem>): (s: SelectStmt<V>)
      ensures s.orderBy == Some(OrderByClause(columns, "ASC")) && s.(orderBy := orderBy) == this
    {
      this.(orderBy := Some(OrderByClause(columns, "ASC")))
    }

    /** Makes the existing ORDER BY ascending; Go dereferences the pointer, so OrderBy must come first. */
    function Asc(): (s: SelectStmt<V>)
      requires orderBy.Some?
      ensures s.orderBy == Some(OrderByClause(orderBy.value.columns, "ASC")) && s.(orderBy := orderBy) == this
    {
      this.(orderBy := Some(orderBy.value.(t := "ASC")))
    }

    /** Makes the existing ORDER BY descending; Go dereferences the pointer, so OrderBy must come first. */
    function Desc(): (s: SelectStmt<V>)
      requires orderBy.Some?
      ensures s.orderBy == Some(OrderByClause(orderBy.value.columns, "DESC")) && s.(orderBy := orderBy) == this
    {
      this.(orderBy := Some(orderBy.value.(t := "DESC")))
    }

    /** Appends `cols` to the GROUP BY columns. */
    function GroupBy(cols: seq<ColumnElem>): (s: SelectStmt<V>)
      ensures |s.groupBy| == |groupBy| + |cols|
      ensures s.groupBy[..|groupBy|] == groupBy && s.groupBy[|groupBy|..] == cols
      ensures s.(groupBy := groupBy) == this
    {
      this.(groupBy := groupBy + cols)
    }

    /** Appends one HAVING condition. */
    function Having(aggregate: AggregateClause<V>, op: string, value: V): (s: SelectStmt<V>)
      ensures |s.having| == |having| + 1 && s.having[..|having|] == having
      ensures s.having[|having|] == HavingClause(aggregate, op, value)
      ensures s.(having := having) == this
    {
      this.(having := having + [HavingClause(aggregate, op, value)])
    }

    /** Sets both the offset and the row count. */
    function Limit(offset: int, count: int): (s: SelectStmt<V>)
      ensures s.offset == Some(offset) && s.count == Some(count)
      ensures s.(offset := this.offset, count := this.count) == this
    {
      this.(offset := Some(offset), count := Some(count))
    }
  }

  /** INSERT INTO table; `values` lists the Go map's entries in one iteration order. */
  datatype InsertStmt<V> = InsertStmt(table: TableElem, values: seq<(string, V)>, returning: seq<ColumnElem>)

  /** UPDATE table; `values` lists the Go map's entries in one iteration order. */
  datatype UpdateStmt<V> = UpdateStmt(table: TableElem, values: seq<(string, V)>, where: Option<WhereClause<V>>, returning: seq<ColumnElem>)

  /** DELETE FROM table. */
  datatype DeleteStmt<V> = DeleteStmt(table: TableElem, where: Option<WhereClause<V>>, returning: seq<ColumnElem>)

  /** An upsert statement; the reference compiler reads none of its fields. */
  datatype UpsertStmt = UpsertStmt

  /** Every node kind the compiler visits. */
  datatype Clause<V> =
    | Text(text: string)
    | Bind(value: V)
    | Column(column: ColumnElem)
    | Table(table: TableElem)
    | Binary(binary: BinaryExpressionClause<V>)
    | Combiner(combiner: CombinerClause<V>)
    | List(list: ListClause<V>)
    | Alias(alias: AliasClause<V>)
    | Exists(existsClause: ExistsClause<V>)
    | Aggregate(aggregate: AggregateClause<V>)
    | Join(join: JoinClause<V>)
    | OrderBy(orderBy: OrderByClause)
    | Having(having: HavingClause<V>)
    | Where(where: WhereClause<V>)
    | Select(stmt: SelectStmt<V>)
    | Insert(insert: InsertStmt<V>)
    | Update(update: UpdateStmt<V>)
    | Delete(delete: DeleteStmt<V>)
    | Upsert(upsert: UpsertStmt)
}
