/**
 * The `SELECT` statement builder. Each builder call changes one field of the
 * statement in place, by the composition policy of the clause it targets,
 * and leaves every other field as it was. `limit`, `offset` and `pagination`
 * wrap the finished statement into a result value.
 */
module SelectStmt {
  import opened Wrappers
  import opened Items
  import Clause
  import Compose

  /** The fields of a `SELECT` statement, as one value. */
  datatype SelectData = SelectData(
    with: Option<Clause.With>,
    fields: Clause.Select,
    tables: Option<Clause.From>,
    filter: Option<Clause.Where>,
    groups: Option<Clause.GroupBy>,
    having: Option<Clause.Having>,
    orders: Option<Clause.OrderBy>)

  /** A finished statement with its optional `LIMIT` and `OFFSET`. */
  datatype Result = Result(data: SelectData, limit: Option<Clause.Limit>, offset: Option<Clause.Offset>)

  class Select {
    var with: Option<Clause.With>
    var fields: Clause.Select
    var tables: Option<Clause.From>
    var filter: Option<Clause.Where>
    var groups: Option<Clause.GroupBy>
    var having: Option<Clause.Having>
    var orders: Option<Clause.OrderBy>

    /** The statement's current value. */
    function Data(): SelectData
      reads this
    {
      SelectData(with, fields, tables, filter, groups, having, orders)
    }

    /** The default statement: no fields and no optional clause. */
    constructor ()
      ensures Data() == SelectData(None, Clause.Select([]), None, None, None, None, None)
    {
      with := None;
      fields := Clause.Select([]);
      tables := None;
      filter := None;
      groups := None;
      having := None;
      orders := None;
    }

    /** `select`: appends the fields after the existing ones. */
    method Select(more: Clause.Select)
      modifies this
      ensures Data() == old(Data()).(fields := Compose.ExtendFields(old(fields), more))
    {
      fields := Clause.Select(fields.fields + more.fields);
    }

    /** `from`: creates the `FROM` list, or appends to it. */
    method From(more: Clause.From)
      modifies this
      ensures Data() == old(Data()).(tables := Some(Compose.ExtendFrom(old(tables), more)))
    {
      match tables {
        case Some(inner) =>
          tables := Some(Clause.From(inner.tables + more.tables));
        case None =>
          tables := Some(more);
      }
    }

    /** `filter`: sets the `WHERE` predicate, or conjoins the new one to the right of it. */
    method Filter(e: Expr)
      modifies this
      ensures Data() == old(Data()).(filter := Some(Compose.AndWhere(old(filter), e)))
    {
      match filter {
        case Some(inner) =>
          filter := Some(Clause.Where(And(inner.cond, e)));
        case None =>
          filter := Some(Clause.Where(e));
      }
    }

    /** `group_by`: creates the `GROUP BY` list, or appends to it. */
    method GroupBy(more: Clause.GroupBy)
      modifies this
      ensures Data() == old(Data()).(groups := Some(Compose.ExtendGroupBy(old(groups), more)))
    {
      match groups {
        case Some(inner) =>
          groups := Some(Clause.GroupBy(inner.exprs + more.exprs));
        case None =>
          groups := Some(more);
      }
    }

    /** `having`: sets the `HAVING` predicate, or conjoins the new one to the right of it. */
    method Having(e: Expr)
      modifies this
      ensures Data() == old(Data()).(having := Some(Compose.AndHaving(old(having), e)))
    {
      match having {
        case Some(inner) =>
          having := Some(Clause.Having(And(inner.cond, e)));
        case None =>
          having := Some(Clause.Having(e));
      }
    }

    /** `order_by`: creates the `ORDER BY` list, or appends to it. */
    method OrderBy(more: Clause.OrderBy)
      modifies this
      ensures Data() == old(Data()).(orders := Some(Compose.ExtendOrderBy(old(orders), more)))
    {
      match orders {
        case Some(inner) =>
          orders := Some(Clause.OrderBy(inner.orders + more.orders));
        case None =>
          orders := Some(more);
      }
    }

    /** `pagination`: the statement as it is, with both `LIMIT` and `OFFSET` set. */
    method Pagination(limit: U32, offset: U32) returns (r: Result)
      ensures r.data == Data()
      ensures r.limit == Some(Clause.Limit(Num(limit)))
      ensures r.offset == Some(Clause.Offset(Num(offset)))
    {
      r := Result(Data(), Some(Clause.Limit(Num(limit))), Some(Clause.Offset(Num(offset))));
    }

    /** `limit`: the statement as it is, with `LIMIT` set and no `OFFSET`. */
    method Limit(limit: U32) returns (r: Result)
      ensures r.data == Data()
      ensures r.limit == Some(Clause.Limit(Num(limit)))
      ensures r.offset == None
    {
      r := Result(Data(), Some(Clause.Limit(Num(limit))), None);
    }

    /** `offset`: the statement as it is, with `OFFSET` set and no `LIMIT`. */
    method Offset(offset: U32) returns (r: Result)
      ensures r.data == Data()
      ensures r.limit == None
      ensures r.offset == Some(Clause.Offset(Num(offset)))
    {
      r := Result(Data(), None, Some(Clause.Offset(Num(offset))));
    }
  }

  // The equations of the builder's documentation, as clients of the methods.

  /** `select([a, b, c])` equals `select([a]).select([b]).select([c])`. */
  method SelectOneByOne(a: Field, b: Field, c: Field) returns (q1: SelectData, q2: SelectData)
    ensures q1 == q2
    ensures q1.fields == Clause.Select([a, b, c])
  {
    var s1 := new Select();
    s1.Select(Clause.Select([a, b, c]));
    q1 := s1.Data();
    var s2 := new Select();
    s2.Select(Clause.Select([a]));
    s2.Select(Clause.Select([b]));
    s2.Select(Clause.Select([c]));
    q2 := s2.Data();
    assert (([] + [a]) + [b]) + [c] == [a, b, c];
  }

  /** `from(["book", "author"])` equals `from("book").from("author")`, with the same fields and filter around them. */
  method FromListOrOneByOne(fields: Clause.Select, book: Table, author: Table, cond: Expr)
    returns (q1: SelectData, q2: SelectData)
    ensures q1 == q2
    ensures q1.tables == Some(Clause.From([book, author]))
  {
    var s1 := new Select();
    s1.Select(fields);
    s1.From(Clause.From([book, author]));
    s1.Filter(cond);
    q1 := s1.Data();
    var s2 := new Select();
    s2.Select(fields);
    s2.From(Clause.FromTable(book));
    s2.From(Clause.FromTable(author));
    s2.Filter(cond);
    q2 := s2.Data();
    Compose.FromTwice(None, book, author);
  }

  /** `filter(and(a, b))` equals `filter(a).filter(b)`; likewise for `having`. */
  method ConditionsConjoined(fields: Clause.Select, book: Table, a: Expr, b: Expr)
    returns (q1: SelectData, q2: SelectData)
    ensures q1 == q2
    ensures q1.filter == Some(Clause.Where(And(a, b))) && q1.having == Some(Clause.Having(And(a, b)))
  {
    var s1 := new Select();
    s1.Select(fields);
    s1.From(Clause.FromTable(book));
    s1.Filter(And(a, b));
    s1.Having(And(a, b));
    q1 := s1.Data();
    var s2 := new Select();
    s2.Select(fields);
    s2.From(Clause.FromTable(book));
    s2.Filter(a);
    s2.Filter(b);
    s2.Having(a);
    s2.Having(b);
    q2 := s2.Data();
  }

  /** `group_by("id").group_by("title")` equals `group_by(["id", "title"])`. */
  method GroupsOneByOne(fields: Clause.Select, book: Table, id: Expr, title: Expr)
    returns (q1: SelectData, q2: SelectData)
    ensures q1 == q2
    ensures q1.groups == Some(Clause.GroupBy([id, title]))
  {
    var s1 := new Select();
    s1.Select(fields);
    s1.From(Clause.FromTable(book));
    s1.GroupBy(Clause.GroupByExpr(id));
    s1.GroupBy(Clause.GroupByExpr(title));
    q1 := s1.Data();
    var s2 := new Select();
    s2.Select(fields);
    s2.From(Clause.FromTable(book));
    s2.GroupBy(Clause.GroupBy([id, title]));
    q2 := s2.Data();
    Compose.GroupByTwice(None, id, title);
  }

  /**
   * The test of the select builder, at the level of the statement's fields:
   * two `select` calls, two `from` calls, one `filter`, `group_by`, `having`
   * and `order_by` each.
   */
  method BuilderTest(first: seq<Field>, second: seq<Field>, data: Table, unnest: Table,
                     cond: Expr, group: Expr, cond2: Expr, order: Order)
    returns (d: SelectData)
    ensures d == SelectData(None, Clause.Select(first + second), Some(Clause.From([data, unnest])),
                            Some(Clause.Where(cond)), Some(Clause.GroupBy([group])),
                            Some(Clause.Having(cond2)), Some(Clause.OrderBy([order])))
  {
    var query := new Select();
    query.Select(Clause.Select(first));
    query.Select(Clause.Select(second));
    query.From(Clause.FromTable(data));
    query.From(Clause.FromTable(unnest));
    query.Filter(cond);
    query.GroupBy(Clause.GroupBy([group]));
    query.Having(cond2);
    query.OrderBy(Clause.OrderBy([order]));
    d := query.Data();
    Compose.FromTwice(None, data, unnest);
    assert [] + first == first;
  }
}
