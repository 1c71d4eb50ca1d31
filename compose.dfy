/**
 * How repeated builder calls on the same clause combine. List clauses
 * follow the append policy: an absent clause is created, a present one is
 * extended, and the items keep call order. Predicate clauses follow the
 * AND-merge policy: the first call sets the predicate, and each later call
 * replaces it with `and(previous, new)`, previous on the left. The
 * statement builders' methods are specified by these functions.
 */
module Compose {
  import opened Wrappers
  import opened Items
  import Clause

  // The append policy.

  /** `select`: the new fields follow the existing ones. */
  function ExtendFields(prev: Clause.Select, next: Clause.Select): (r: Clause.Select)
    ensures |r.fields| == |prev.fields| + |next.fields|
    ensures r.fields[..|prev.fields|] == prev.fields && r.fields[|prev.fields|..] == next.fields
  {
    Clause.Select(prev.fields + next.fields)
  }

  /** `from`: an absent list becomes the new one; a present one gets the new tables after its own. */
  function ExtendFrom(prev: Option<Clause.From>, next: Clause.From): (r: Clause.From)
    ensures prev.None? ==> r == next
    ensures prev.Some? ==>
      && |r.tables| == |prev.value.tables| + |next.tables|
      && r.tables[..|prev.value.tables|] == prev.value.tables
      && r.tables[|prev.value.tables|..] == next.tables
  {
    match prev
    case None => next
    case Some(c) => Clause.From(c.tables + next.tables)
  }

  /** `group_by`: as `from`, on the grouping expressions. */
  function ExtendGroupBy(prev: Option<Clause.GroupBy>, next: Clause.GroupBy): (r: Clause.GroupBy)
    ensures prev.None? ==> r == next
    ensures prev.Some? ==>
      && |r.exprs| == |prev.value.exprs| + |next.exprs|
      && r.exprs[..|prev.value.exprs|] == prev.value.exprs
      && r.exprs[|prev.value.exprs|..] == next.exprs
  {
    match prev
    case None => next
    case Some(c) => Clause.GroupBy(c.exprs + next.exprs)
  }

  /** `order_by`: as `from`, on the sort entries. */
  function ExtendOrderBy(prev: Option<Clause.OrderBy>, next: Clause.OrderBy): (r: Clause.OrderBy)
    ensures prev.None? ==> r == next
    ensures prev.Some? ==>
      && |r.orders| == |prev.value.orders| + |next.orders|
      && r.orders[..|prev.value.orders|] == prev.value.orders
      && r.orders[|prev.value.orders|..] == next.orders
  {
    match prev
    case None => next
    case Some(c) => Clause.OrderBy(c.orders + next.orders)
  }

  /** `returning`: as `from`, on the returned fields. */
  function ExtendReturning(prev: Option<Clause.Returning>, next: Clause.Returning): (r: Clause.Returning)
    ensures prev.None? ==> r == next
    ensures prev.Some? ==>
      && |r.fields| == |prev.value.fields| + |next.fields|
      && r.fields[..|prev.value.fields|] == prev.value.fields
      && r.fields[|prev.value.fields|..] == next.fields
  {
    match prev
    case None => next
    case Some(c) => Clause.Returning(c.fields + next.fields)
  }

  /** `set`: exactly one assignment more, at the end; the earlier ones untouched. */
  function PushSet(prev: Clause.Set, column: Ident, value: Expr): (r: Clause.Set)
    ensures |r.pairs| == |prev.pairs| + 1
    ensures r.pairs[..|prev.pairs|] == prev.pairs
    ensures r.pairs[|prev.pairs|] == (column, value)
  {
    Clause.Set(prev.pairs + [(column, value)])
  }

  /** `set_values`: all the new assignments, in order, after the existing ones. */
  function ExtendSet(prev: Clause.Set, next: Clause.Set): (r: Clause.Set)
    ensures |r.pairs| == |prev.pairs| + |next.pairs|
    ensures r.pairs[..|prev.pairs|] == prev.pairs && r.pairs[|prev.pairs|..] == next.pairs
  {
    Clause.Set(prev.pairs + next.pairs)
  }

  // The AND-merge policy.

  /** `filter`: the first condition is taken as it is; a later one is conjoined to the right of the previous. */
  function AndWhere(prev: Option<Clause.Where>, e: Expr): (r: Clause.Where)
    ensures prev.None? ==> r.cond == e
    ensures prev.Some? ==> r.cond.And? && r.cond.left == prev.value.cond && r.cond.right == e
  {
    match prev
    case None => Clause.Where(e)
    case Some(w) => Clause.Where(And(w.cond, e))
  }

  /** `having`: the same rule as `filter`, on the `HAVING` predicate. */
  function AndHaving(prev: Option<Clause.Having>, e: Expr): (r: Clause.Having)
    ensures prev.None? ==> r.cond == e
    ensures prev.Some? ==> r.cond.And? && r.cond.left == prev.value.cond && r.cond.right == e
  {
    match prev
    case None => Clause.Having(e)
    case Some(h) => Clause.Having(And(h.cond, e))
  }

  // The equations of the builders' documentation.

  /** `select(x).select(y)` is a single `select` of the concatenation. */
  lemma SelectTwice(prev: Clause.Select, x: Clause.Select, y: Clause.Select)
    ensures ExtendFields(ExtendFields(prev, x), y) == ExtendFields(prev, Clause.Select(x.fields + y.fields))
  {
    assert (prev.fields + x.fields) + y.fields == prev.fields + (x.fields + y.fields);
  }

  /** `from(b).from(a)` is `from([b, a])`, whether or not tables were there before. */
  lemma FromTwice(prev: Option<Clause.From>, b: Table, a: Table)
    ensures ExtendFrom(Some(ExtendFrom(prev, Clause.FromTable(b))), Clause.FromTable(a))
         == ExtendFrom(prev, Clause.From([b, a]))
  {
    if prev.Some? {
      assert (prev.value.tables + [b]) + [a] == prev.value.tables + [b, a];
    }
  }

  /** `group_by(x).group_by(y)` is `group_by([x, y])`. */
  lemma GroupByTwice(prev: Option<Clause.GroupBy>, x: Expr, y: Expr)
    ensures ExtendGroupBy(Some(ExtendGroupBy(prev, Clause.GroupByExpr(x))), Clause.GroupByExpr(y))
         == ExtendGroupBy(prev, Clause.GroupBy([x, y]))
  {
    if prev.Some? {
      assert (prev.value.exprs + [x]) + [y] == prev.value.exprs + [x, y];
    }
  }

  /** `order_by(x).order_by(y)` is `order_by([x, y])`. */
  lemma OrderByTwice(prev: Option<Clause.OrderBy>, x: Order, y: Order)
    ensures ExtendOrderBy(Some(ExtendOrderBy(prev, Clause.OrderByOrder(x))), Clause.OrderByOrder(y))
         == ExtendOrderBy(prev, Clause.OrderBy([x, y]))
  {
    if prev.Some? {
      assert (prev.value.orders + [x]) + [y] == prev.value.orders + [x, y];
    }
  }

  /** `from(x).from(y)` is a single `from` of the concatenation. */
  lemma FromListsTwice(prev: Option<Clause.From>, x: Clause.From, y: Clause.From)
    ensures ExtendFrom(Some(ExtendFrom(prev, x)), y) == ExtendFrom(prev, Clause.From(x.tables + y.tables))
  {
    if prev.Some? {
      assert (prev.value.tables + x.tables) + y.tables == prev.value.tables + (x.tables + y.tables);
    }
  }

  /** `group_by(x).group_by(y)` is a single `group_by` of the concatenation. */
  lemma GroupByListsTwice(prev: Option<Clause.GroupBy>, x: Clause.GroupBy, y: Clause.GroupBy)
    ensures ExtendGroupBy(Some(ExtendGroupBy(prev, x)), y) == ExtendGroupBy(prev, Clause.GroupBy(x.exprs + y.exprs))
  {
    if prev.Some? {
      assert (prev.value.exprs + x.exprs) + y.exprs == prev.value.exprs + (x.exprs + y.exprs);
    }
  }

  /** `order_by(x).order_by(y)` is a single `order_by` of the concatenation. */
  lemma OrderByListsTwice(prev: Option<Clause.OrderBy>, x: Clause.OrderBy, y: Clause.OrderBy)
    ensures ExtendOrderBy(Some(ExtendOrderBy(prev, x)), y) == ExtendOrderBy(prev, Clause.OrderBy(x.orders + y.orders))
  {
    if prev.Some? {
      assert (prev.value.orders + x.orders) + y.orders == prev.value.orders + (x.orders + y.orders);
    }
  }

  /** `returning(x).returning(y)` is a single `returning` of the concatenation. */
  lemma ReturningTwice(prev: Option<Clause.Returning>, x: Clause.Returning, y: Clause.Returning)
    ensures ExtendReturning(Some(ExtendReturning(prev, x)), y)
         == ExtendReturning(prev, Clause.Returning(x.fields + y.fields))
  {
    if prev.Some? {
      assert (prev.value.fields + x.fields) + y.fields == prev.value.fields + (x.fields + y.fields);
    }
  }

  /** `set_values([p, q]).set(r)` gives the assignments `p, q, r`, after any earlier ones. */
  lemma SetValuesThenSet(prev: Clause.Set, p: (Ident, Expr), q: (Ident, Expr), r: (Ident, Expr))
    ensures PushSet(ExtendSet(prev, Clause.SetPairs([p, q])), r.0, r.1).pairs == prev.pairs + [p, q, r]
  {
    assert (prev.pairs + [p, q]) + [(r.0, r.1)] == prev.pairs + [p, q, r];
  }

  /** `filter(a).filter(b)` on a statement without a filter is `filter(and(a, b))`. */
  lemma FilterTwice(a: Expr, b: Expr)
    ensures AndWhere(Some(AndWhere(None, a)), b) == AndWhere(None, And(a, b))
  {
  }

  /**
   * The equation above needs the statement to start without a filter: on a
   * present predicate `p`, two calls give `and(and(p, a), b)`, never
   * `and(p, and(a, b))`.
   */
  lemma FilterTwiceOnPresent(p: Expr, a: Expr, b: Expr)
    ensures AndWhere(Some(AndWhere(Some(Clause.Where(p)), a)), b) != AndWhere(Some(Clause.Where(p)), And(a, b))
  {
    assert b < And(a, b);
  }

  /** Two filters in a different order give a different predicate: `p2 AND p1` never stands for `p1 AND p2`. */
  lemma FilterKeepsCallOrder(a: Expr, b: Expr)
    requires a != b
    ensures AndWhere(Some(AndWhere(None, a)), b) != AndWhere(Some(AndWhere(None, b)), a)
  {
  }

  /** `having(a).having(b)` on a statement without a `HAVING` predicate is `having(and(a, b))`. */
  lemma HavingTwice(a: Expr, b: Expr)
    ensures AndHaving(Some(AndHaving(None, a)), b) == AndHaving(None, And(a, b))
  {
  }

  // Chains of calls.

  /** The fields after a chain of `select` calls, applied left to right. */
  function SelectChain(prev: Clause.Select, calls: seq<Clause.Select>): Clause.Select
    decreases |calls|
  {
    if calls == [] then prev else SelectChain(ExtendFields(prev, calls[0]), calls[1..])
  }

  /** The fields of every call, in call order. */
  function AllFields(calls: seq<Clause.Select>): seq<Field>
  {
    if calls == [] then [] else calls[0].fields + AllFields(calls[1..])
  }

  /** Any chain of `select` calls equals one call with all their fields concatenated in call order. */
  lemma {:induction false} SelectChainConcatenates(prev: Clause.Select, calls: seq<Clause.Select>)
    ensures SelectChain(prev, calls) == Clause.Select(prev.fields + AllFields(calls))
    decreases |calls|
  {
    if calls != [] {
      SelectChainConcatenates(ExtendFields(prev, calls[0]), calls[1..]);
      assert (prev.fields + calls[0].fields) + AllFields(calls[1..])
          == prev.fields + (calls[0].fields + AllFields(calls[1..]));
    }
  }

  /** The predicate after a chain of `filter` calls, applied left to right. */
  function FilterChain(prev: Option<Clause.Where>, conds: seq<Expr>): Option<Clause.Where>
    decreases |conds|
  {
    if conds == [] then prev else FilterChain(Some(AndWhere(prev, conds[0])), conds[1..])
  }

  /**
   * The left-nested conjunction `and(...and(and(first, c1), c2)..., cn)`:
   * the last condition is the outermost right operand.
   */
  function Conjunction(first: Expr, rest: seq<Expr>): Expr
  {
    if rest == [] then first else And(Conjunction(first, rest[..|rest| - 1]), rest[|rest| - 1])
  }

  lemma {:induction false} ConjunctionShift(first: Expr, c: Expr, rest: seq<Expr>)
    ensures Conjunction(And(first, c), rest) == Conjunction(first, [c] + rest)
  {
    if rest != [] {
      var all := [c] + rest;
      assert all[..|all| - 1] == [c] + rest[..|rest| - 1];
      ConjunctionShift(first, c, rest[..|rest| - 1]);
    }
  }

  /** A chain of `filter` calls on a present predicate `p` conjoins the conditions onto `p`, in call order. */
  lemma {:induction false} FilterChainOnPresent(p: Expr, conds: seq<Expr>)
    ensures FilterChain(Some(Clause.Where(p)), conds) == Some(Clause.Where(Conjunction(p, conds)))
    decreases |conds|
  {
    if conds != [] {
      FilterChainOnPresent(And(p, conds[0]), conds[1..]);
      ConjunctionShift(p, conds[0], conds[1..]);
      assert [conds[0]] + conds[1..] == conds;
    }
  }

  /** A chain of `filter` calls on a statement without a filter: the first condition, then the rest conjoined in call order. */
  lemma FilterChainFresh(conds: seq<Expr>)
    requires conds != []
    ensures FilterChain(None, conds) == Some(Clause.Where(Conjunction(conds[0], conds[1..])))
  {
    FilterChainOnPresent(conds[0], conds[1..]);
  }

  /** The conjunction determines its conditions and their order: no two different chains of the same length merge alike. */
  lemma {:induction false} ConjunctionInjective(f: Expr, rest: seq<Expr>, g: Expr, rest': seq<Expr>)
    requires |rest| == |rest'|
    requires Conjunction(f, rest) == Conjunction(g, rest')
    ensures f == g && rest == rest'
  {
    if rest != [] {
      ConjunctionInjective(f, rest[..|rest| - 1], g, rest'[..|rest'| - 1]);
      assert rest == rest[..|rest| - 1] + [rest[|rest| - 1]];
      assert rest' == rest'[..|rest'| - 1] + [rest'[|rest'| - 1]];
    }
  }
}
