/**
 * The `UPDATE` statement builder. `set` and `set_values` extend the `SET`
 * list; `from` and `returning` follow the append policy, `filter` the
 * AND-merge policy. No builder call touches the target table or the `WITH`
 * clause.
 */
module UpdateStmt {
  import opened Wrappers
  import opened Items
  import Clause
  import Compose

  /** The fields of an `UPDATE` statement, as one value. */
  datatype UpdateData = UpdateData(
    with: Option<Clause.With>,
    table: Clause.Update,
    assignments: Clause.Set,
    from: Option<Clause.From>,
    filter: Option<Clause.Where>,
    returning: Option<Clause.Returning>)

  class Update {
    var with: Option<Clause.With>
    var table: Clause.Update
    /** The `SET` clause (the library's field `set`, a Dafny keyword). */
    var assignments: Clause.Set
    var from: Option<Clause.From>
    var filter: Option<Clause.Where>
    /** The `RETURNING` clause (the library's field `returns`, a Dafny keyword). */
    var returning: Option<Clause.Returning>

    /** The statement's current value. */
    function Data(): UpdateData
      reads this
    {
      UpdateData(with, table, assignments, from, filter, returning)
    }

    /** A statement on `table` with no assignment and no optional clause. */
    constructor (table: Clause.Update)
      ensures Data() == UpdateData(None, table, Clause.Set([]), None, None, None)
    {
      with := None;
      this.table := table;
      assignments := Clause.Set([]);
      from := None;
      filter := None;
      returning := None;
    }

    /** `set`: one more assignment, at the end of the `SET` list. */
    method Set(column: Ident, value: Expr)
      modifies this
      ensures Data() == old(Data()).(assignments := Compose.PushSet(old(assignments), column, value))
    {
      assignments := Clause.Set(assignments.pairs + [(column, value)]);
    }

    /** `set_values`: the new assignments, in order, at the end of the `SET` list. */
    method SetValues(values: Clause.Set)
      modifies this
      ensures Data() == old(Data()).(assignments := Compose.ExtendSet(old(assignments), values))
    {
      assignments := Clause.Set(assignments.pairs + values.pairs);
    }

    /** `from`: creates the `FROM` list, or appends to it. */
    method From(more: Clause.From)
      modifies this
      ensures Data() == old(Data()).(from := Some(Compose.ExtendFrom(old(from), more)))
    {
      match from {
        case Some(inner) =>
          from := Some(Clause.From(inner.tables + more.tables));
        case None =>
          from := Some(more);
      }
    }

    /** `filter`: sets the `WHERE` predicate, or conjoins the new one to the right of it. */
    method Filter(e: Expr)
      modifies this
      ensures Data() == old(Data()).(filter := Some(Compose.AndWhere(old(filter), e)))
    {
      match filter {
        case Some(inner) =>
          filter := Some(Clause.Where(And(inner.cond, e)));
        case None =>
          filter := Some(Clause.Where(e));
      }
    }

    /** `returning`: creates the `RETURNING` list, or appends to it. */
    method Returning(more: Clause.Returning)
      modifies this
      ensures Data() == old(Data()).(returning := Some(Compose.ExtendReturning(old(returning), more)))
    {
      match returning {
        case Some(inner) =>
          returning := Some(Clause.Returning(inner.fields + more.fields));
        case None =>
          returning := Some(more);
      }
    }
  }

  // The builder's documentation and test, as clients of the methods.

  /** `filter(and(a, b))` equals `filter(a).filter(b)` after the same assignment. */
  method ConditionsConjoined(book: Clause.Update, id: Ident, one: Expr, a: Expr, b: Expr)
    returns (q1: UpdateData, q2: UpdateData)
    ensures q1 == q2
    ensures q1.filter == Some(Clause.Where(And(a, b)))
  {
    var u1 := new Update(book);
    u1.Set(id, one);
    u1.Filter(And(a, b));
    q1 := u1.Data();
    var u2 := new Update(book);
    u2.Set(id, one);
    u2.Filter(a);
    u2.Filter(b);
    q2 := u2.Data();
  }

  /** `returning(["id", "name"])` equals `returning(["id"]).returning(["name"])`. */
  method ReturningOneByOne(book: Clause.Update, id: Ident, one: Expr, idField: Field, nameField: Field)
    returns (q1: UpdateData, q2: UpdateData)
    ensures q1 == q2
    ensures q1.returning == Some(Clause.Returning([idField, nameField]))
  {
    var u1 := new Update(book);
    u1.Set(id, one);
    u1.Returning(Clause.Returning([idField, nameField]));
    q1 := u1.Data();
    var u2 := new Update(book);
    u2.Set(id, one);
    u2.Returning(Clause.Returning([idField]));
    u2.Returning(Clause.Returning([nameField]));
    q2 := u2.Data();
    assert [idField] + [nameField] == [idField, nameField];
  }

  /**
   * The test of the update builder: `set_values([p, q])`, `set(c, v)`,
   * `from(["data"])`, `filter(cond)` and `returning(fields)` on `update(t)`.
   */
  method BuilderTest(t: Clause.Update, p: (Ident, Expr), q: (Ident, Expr), c: Ident, v: Expr,
                     data: Table, cond: Expr, fields: seq<Field>)
    returns (d: UpdateData)
    ensures d == UpdateData(None, t, Clause.Set([p, q, (c, v)]), Some(Clause.From([data])),
                            Some(Clause.Where(cond)), Some(Clause.Returning(fields)))
  {
    var u := new Update(t);
    u.SetValues(Clause.SetPairs([p, q]));
    u.Set(c, v);
    u.From(Clause.From([data]));
    u.Filter(cond);
    u.Returning(Clause.Returning(fields));
    d := u.Data();
    Compose.SetValuesThenSet(Clause.Set([]), p, q, (c, v));
  }
}
