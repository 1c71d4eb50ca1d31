/**
 * The SQL clause values and their text form. Each clause wraps an ordered
 * list of items, or a single expression or table reference; its text is a
 * fixed keyword, one space, and the items joined with `", "`. The text of the
 * items themselves is opaque and comes in as a parameter.
 */
module Clause {
  import opened Items
  import Text

  /** `WITH [RECURSIVE]` and its common table expressions; one flag for the whole list. */
  datatype With = With(recursive: bool, ctes: seq<Cte>)
  datatype Select = Select(fields: seq<Field>)
  datatype From = From(tables: seq<Table>)
  datatype Where = Where(cond: Expr)
  datatype GroupBy = GroupBy(exprs: seq<Expr>)
  datatype Having = Having(cond: Expr)
  datatype OrderBy = OrderBy(orders: seq<Order>)
  /** The target of `INSERT INTO` and its (possibly empty) column list. */
  datatype Insert = Insert(table: TableRef, columns: seq<Ident>)
  datatype Values = Values(rows: seq<Row>)
  datatype Returning = Returning(fields: seq<Field>)
  datatype Delete = Delete(table: TableRef)
  datatype Update = Update(table: TableRef)
  /** The assignments of an `UPDATE`: column, then new value. */
  datatype Set = Set(pairs: seq<(Ident, Expr)>)
  datatype Limit = Limit(count: Expr)
  datatype Offset = Offset(count: Expr)

  // Conversions into clauses. The library accepts vectors, arrays and single
  // items of anything convertible into the item type; here the items come
  // already converted, so a vector and an array convert alike.

  /** A `WITH` built from a list of CTEs is never recursive and keeps them all, in order. */
  function WithCtes(ctes: seq<Cte>): (c: With)
    ensures !c.recursive
    ensures |c.ctes| == |ctes| && forall i :: 0 <= i < |ctes| ==> c.ctes[i] == ctes[i]
  {
    With(false, ctes)
  }

  /** A single table converts into a `FROM` list of exactly that table. */
  function FromTable(t: Table): (c: From)
    ensures |c.tables| == 1 && c.tables[0] == t
  {
    From([t])
  }

  /** A single expression converts into a `GROUP BY` list of exactly that expression. */
  function GroupByExpr(e: Expr): (c: GroupBy)
    ensures |c.exprs| == 1 && c.exprs[0] == e
  {
    GroupBy([e])
  }

  /** A single sort entry converts into an `ORDER BY` list of exactly that entry. */
  function OrderByOrder(o: Order): (c: OrderBy)
    ensures |c.orders| == 1 && c.orders[0] == o
  {
    OrderBy([o])
  }

  /** A list of column/value pairs converts into a `SET` clause with the same pairs in the same order. */
  function SetPairs(pairs: seq<(Ident, Expr)>): (c: Set)
    ensures |c.pairs| == |pairs| && forall i :: 0 <= i < |pairs| ==> c.pairs[i] == pairs[i]
  {
    Set(pairs)
  }

  // Text forms.

  function RenderWith(c: With, cte: Cte -> string): (r: string)
    ensures c.recursive ==> Text.Listed(r, "WITH RECURSIVE ", Text.Texts(c.ctes, cte))
    ensures !c.recursive ==> Text.Listed(r, "WITH ", Text.Texts(c.ctes, cte))
  {
    var head := if c.recursive then "WITH RECURSIVE " else "WITH ";
    Text.ListTextListed(head, Text.Texts(c.ctes, cte));
    Text.ListText(head, Text.Texts(c.ctes, cte))
  }

  function RenderSelect(c: Select, field: Field -> string): (r: string)
    ensures Text.Listed(r, "SELECT ", Text.Texts(c.fields, field))
  {
    Text.ListTextListed("SELECT ", Text.Texts(c.fields, field));
    Text.ListText("SELECT ", Text.Texts(c.fields, field))
  }

  function RenderFrom(c: From, table: Table -> string): (r: string)
    ensures Text.Listed(r, "FROM ", Text.Texts(c.tables, table))
  {
    Text.ListTextListed("FROM ", Text.Texts(c.tables, table));
    Text.ListText("FROM ", Text.Texts(c.tables, table))
  }

  function RenderWhere(c: Where, expr: Expr -> string): (r: string)
    ensures |r| == 6 + |expr(c.cond)| && r[..6] == "WHERE " && r[6..] == expr(c.cond)
  {
    "WHERE " + expr(c.cond)
  }

  function RenderGroupBy(c: GroupBy, expr: Expr -> string): (r: string)
    ensures Text.Listed(r, "GROUP BY ", Text.Texts(c.exprs, expr))
  {
    Text.ListTextListed("GROUP BY ", Text.Texts(c.exprs, expr));
    Text.ListText("GROUP BY ", Text.Texts(c.exprs, expr))
  }

  function RenderHaving(c: Having, expr: Expr -> string): (r: string)
    ensures |r| == 7 + |expr(c.cond)| && r[..7] == "HAVING " && r[7..] == expr(c.cond)
  {
    "HAVING " + expr(c.cond)
  }

  function RenderOrderBy(c: OrderBy, order: Order -> string): (r: string)
    ensures Text.Listed(r, "ORDER BY ", Text.Texts(c.orders, order))
  {
    Text.ListTextListed("ORDER BY ", Text.Texts(c.orders, order));
    Text.ListText("ORDER BY ", Text.Texts(c.orders, order))
  }

  /**
   * `INSERT INTO` and the target, directly followed by the parenthesised
   * column list if and only if there are columns.
   */
  function RenderInsert(c: Insert, tableRef: TableRef -> string, ident: Ident -> string): (r: string)
    ensures var head := "INSERT INTO " + tableRef(c.table);
      && |head| <= |r| && r[..|head|] == head
      && (|c.columns| == 0 <==> |r| == |head|)
      && (|c.columns| > 0 ==>
            && r[|r| - 1] == ')'
            && Text.Listed(r[..|r| - 1], head + "(", Text.Texts(c.columns, ident)))
  {
    var head := "INSERT INTO " + tableRef(c.table);
    if |c.columns| == 0 then head
    else
      var body := Text.ListText(head + "(", Text.Texts(c.columns, ident));
      Text.ListTextListed(head + "(", Text.Texts(c.columns, ident));
      var r := body + ")";
      assert r[..|r| - 1] == body && r[..|head|] == body[..|head|];
      r
  }

  function RenderValues(c: Values, row: Row -> string): (r: string)
    ensures Text.Listed(r, "VALUES ", Text.Texts(c.rows, row))
  {
    Text.ListTextListed("VALUES ", Text.Texts(c.rows, row));
    Text.ListText("VALUES ", Text.Texts(c.rows, row))
  }

  function RenderReturning(c: Returning, field: Field -> string): (r: string)
    ensures Text.Listed(r, "RETURNING ", Text.Texts(c.fields, field))
  {
    Text.ListTextListed("RETURNING ", Text.Texts(c.fields, field));
    Text.ListText("RETURNING ", Text.Texts(c.fields, field))
  }

  function RenderDelete(c: Delete, tableRef: TableRef -> string): (r: string)
    ensures |r| == 12 + |tableRef(c.table)| && r[..12] == "DELETE FROM " && r[12..] == tableRef(c.table)
  {
    "DELETE FROM " + tableRef(c.table)
  }

  function RenderUpdate(c: Update, tableRef: TableRef -> string): (r: string)
    ensures |r| == 7 + |tableRef(c.table)| && r[..7] == "UPDATE " && r[7..] == tableRef(c.table)
  {
    "UPDATE " + tableRef(c.table)
  }

  /** The text of each assignment, `col = val`, in list order. */
  function Assignments(pairs: seq<(Ident, Expr)>, ident: Ident -> string, expr: Expr -> string): seq<string>
  {
    seq(|pairs|, i requires 0 <= i < |pairs| => ident(pairs[i].0) + " = " + expr(pairs[i].1))
  }

  function RenderSet(c: Set, ident: Ident -> string, expr: Expr -> string): (r: string)
    ensures Text.Listed(r, "SET ", Assignments(c.pairs, ident, expr))
  {
    Text.ListTextListed("SET ", Assignments(c.pairs, ident, expr));
    Text.ListText("SET ", Assignments(c.pairs, ident, expr))
  }

  function RenderLimit(c: Limit, expr: Expr -> string): (r: string)
    ensures |r| == 6 + |expr(c.count)| && r[..6] == "LIMIT " && r[6..] == expr(c.count)
  {
    "LIMIT " + expr(c.count)
  }

  function RenderOffset(c: Offset, expr: Expr -> string): (r: string)
    ensures |r| == 7 + |expr(c.count)| && r[..7] == "OFFSET " && r[7..] == expr(c.count)
  {
    "OFFSET " + expr(c.count)
  }

  // Properties across clauses.

  /** `WITH RECURSIVE` differs from the plain form only by the inserted keyword. */
  lemma RecursiveInsertsKeyword(ctes: seq<Cte>, cte: Cte -> string)
    ensures var plain := RenderWith(With(false, ctes), cte);
      && |plain| >= 5
      && RenderWith(With(true, ctes), cte) == "WITH RECURSIVE " + plain[5..]
  {
    var parts := Text.Texts(ctes, cte);
    var plain := RenderWith(With(false, ctes), cte);
    var rec := RenderWith(With(true, ctes), cte);
    Text.ListedIsListText(plain, "WITH ", parts);
    Text.ListedIsListText(rec, "WITH RECURSIVE ", parts);
    assert plain[5..] == Text.Join(parts, Text.Comma);
  }

  /** A list clause over no items is its keyword and a space alone. */
  lemma EmptyListClauses(field: Field -> string, table: Table -> string, expr: Expr -> string,
                         order: Order -> string, row: Row -> string, cte: Cte -> string,
                         ident: Ident -> string)
    ensures RenderSelect(Select([]), field) == "SELECT "
    ensures RenderFrom(From([]), table) == "FROM "
    ensures RenderGroupBy(GroupBy([]), expr) == "GROUP BY "
    ensures RenderOrderBy(OrderBy([]), order) == "ORDER BY "
    ensures RenderValues(Values([]), row) == "VALUES "
    ensures RenderReturning(Returning([]), field) == "RETURNING "
    ensures RenderWith(With(false, []), cte) == "WITH "
    ensures RenderWith(With(true, []), cte) == "WITH RECURSIVE "
    ensures RenderSet(Set([]), ident, expr) == "SET "
  {
    Text.ListedEmpty(RenderSelect(Select([]), field), "SELECT ");
    Text.ListedEmpty(RenderFrom(From([]), table), "FROM ");
    Text.ListedEmpty(RenderGroupBy(GroupBy([]), expr), "GROUP BY ");
    Text.ListedEmpty(RenderOrderBy(OrderBy([]), order), "ORDER BY ");
    Text.ListedEmpty(RenderValues(Values([]), row), "VALUES ");
    Text.ListedEmpty(RenderReturning(Returning([]), field), "RETURNING ");
    Text.ListedEmpty(RenderWith(With(false, []), cte), "WITH ");
    Text.ListedEmpty(RenderWith(With(true, []), cte), "WITH RECURSIVE ");
    Text.ListedEmpty(RenderSet(Set([]), ident, expr), "SET ");
  }

  // Extending a list clause extends its text: the new items follow the old
  // ones after one separator, as the tests' `clause.0.extend(...)` shows.

  lemma ExtendedSelectText(a: seq<Field>, b: seq<Field>, field: Field -> string)
    requires |a| > 0 && |b| > 0
    ensures RenderSelect(Select(a + b), field)
         == RenderSelect(Select(a), field) + Text.Comma + Text.Join(Text.Texts(b, field), Text.Comma)
  {
    var pa := Text.Texts(a, field);
    var pb := Text.Texts(b, field);
    assert Text.Texts(a + b, field) == pa + pb;
    Text.ListTextAppend("SELECT ", pa, pb);
  }

  lemma ExtendedFromText(a: seq<Table>, b: seq<Table>, table: Table -> string)
    requires |a| > 0 && |b| > 0
    ensures RenderFrom(From(a + b), table)
         == RenderFrom(From(a), table) + Text.Comma + Text.Join(Text.Texts(b, table), Text.Comma)
  {
    var pa := Text.Texts(a, table);
    var pb := Text.Texts(b, table);
    assert Text.Texts(a + b, table) == pa + pb;
    Text.ListTextAppend("FROM ", pa, pb);
  }

  lemma ExtendedGroupByText(a: seq<Expr>, b: seq<Expr>, expr: Expr -> string)
    requires |a| > 0 && |b| > 0
    ensures RenderGroupBy(GroupBy(a + b), expr)
         == RenderGroupBy(GroupBy(a), expr) + Text.Comma + Text.Join(Text.Texts(b, expr), Text.Comma)
  {
    var pa := Text.Texts(a, expr);
    var pb := Text.Texts(b, expr);
    assert Text.Texts(a + b, expr) == pa + pb;
    Text.ListTextAppend("GROUP BY ", pa, pb);
  }

  lemma ExtendedOrderByText(a: seq<Order>, b: seq<Order>, order: Order -> string)
    requires |a| > 0 && |b| > 0
    ensures RenderOrderBy(OrderBy(a + b), order)
         == RenderOrderBy(OrderBy(a), order) + Text.Comma + Text.Join(Text.Texts(b, order), Text.Comma)
  {
    var pa := Text.Texts(a, order);
    var pb := Text.Texts(b, order);
    assert Text.Texts(a + b, order) == pa + pb;
    Text.ListTextAppend("ORDER BY ", pa, pb);
  }

  // The tests of `clause.rs`, with the items' texts as the tests print them.

  /** A select list of `id`, then extended by `user.name`. */
  lemma SelectTwoFields(id: Field, name: Field, field: Field -> string)
    requires field(id) == "id" && field(name) == "user.name"
    ensures RenderSelect(Select([id]), field) == "SELECT id"
    ensures RenderSelect(Select([id, name]), field) == "SELECT id, user.name"
  {
    assert Text.Texts([id], field) == ["id"];
    assert Text.Texts([id, name], field) == ["id", "user.name"];
    assert Text.Join(["id", "user.name"], Text.Comma) == "id" + ", " + "user.name";
  }

  /** A from list of `user`, then extended by `public.contact`. */
  lemma FromTwoTables(user: Table, contact: Table, table: Table -> string)
    requires table(user) == "user" && table(contact) == "public.contact"
    ensures RenderFrom(From([user]), table) == "FROM user"
    ensures RenderFrom(From([user, contact]), table) == "FROM user, public.contact"
  {
    assert Text.Texts([user], table) == ["user"];
    assert Text.Texts([user, contact], table) == ["user", "public.contact"];
    assert Text.Join(["user", "public.contact"], Text.Comma) == "user" + ", " + "public.contact";
  }

  /** The `WHERE` and `HAVING` tests: a condition whose text is `true`. */
  lemma ConditionTrue(cond: Expr, expr: Expr -> string)
    requires expr(cond) == "true"
    ensures RenderWhere(Where(cond), expr) == "WHERE true"
    ensures RenderHaving(Having(cond), expr) == "HAVING true"
  {
  }

  /** A group list of `id`, then extended by `user.name`. */
  lemma GroupByTwoExprs(id: Expr, name: Expr, expr: Expr -> string)
    requires expr(id) == "id" && expr(name) == "user.name"
    ensures RenderGroupBy(GroupBy([id]), expr) == "GROUP BY id"
    ensures RenderGroupBy(GroupBy([id, name]), expr) == "GROUP BY id, user.name"
  {
    assert Text.Texts([id], expr) == ["id"];
    assert Text.Texts([id, name], expr) == ["id", "user.name"];
    assert Text.Join(["id", "user.name"], Text.Comma) == "id" + ", " + "user.name";
  }

  /** An order list of `id`, then extended by `user.name DESC`. */
  lemma OrderByTwoEntries(id: Order, name: Order, order: Order -> string)
    requires order(id) == "id" && order(name) == "user.name DESC"
    ensures RenderOrderBy(OrderBy([id]), order) == "ORDER BY id"
    ensures RenderOrderBy(OrderBy([id, name]), order) == "ORDER BY id, user.name DESC"
  {
    assert Text.Texts([id], order) == ["id"];
    assert Text.Texts([id, name], order) == ["id", "user.name DESC"];
    assert Text.Join(["id", "user.name DESC"], Text.Comma) == "id" + ", " + "user.name DESC";
  }
}
