/**
 * The items that clauses are made of. Their definitions live in the library's
 * `item`, `expr`, `table_expr`, `value` and `ops` modules, which are not part
 * of this model: the items are opaque here, and so is their text, which every
 * rendering function below receives as a parameter.
 */
module Items {
  /** An entry of a `SELECT` or `RETURNING` list: an expression with an optional alias. */
  type Field
  /** An entry of a `FROM` list: a table expression with an optional alias. */
  type Table
  /** An entry of an `ORDER BY` list: an expression with an optional sort direction. */
  type Order
  /** One tuple of a `VALUES` clause. */
  type Row
  /** A common table expression of a `WITH` clause. */
  type Cte
  /** A bare name, written verbatim. */
  type Ident
  /** A table or schema-qualified table name. */
  type TableRef

  /** Rust's `u32`. */
  type U32 = n: int | 0 <= n < 0x1_0000_0000

  /**
   * A SQL expression. Only the conjunction built by `ops::and` matters to the
   * clause algebra, and all that is known of it is that it is a constructor:
   * distinct from every other expression and injective in its operands.
   * `Num` is the expression an integer converts into (used for `LIMIT` and
   * `OFFSET`); every other expression is an `Atom` told apart by its tag.
   */
  datatype Expr =
    | Atom(tag: nat)
    | Num(value: int)
    | And(left: Expr, right: Expr)
}
