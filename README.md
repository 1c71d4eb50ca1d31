# xql clause model

A Dafny model of two cooperating pieces of the `xql` SQL-building library:

- **The clause values and their text form** (`src/clause.rs`). Each SQL clause (`WITH`, `SELECT`, `FROM`, `WHERE`, `GROUP BY`, `HAVING`, `ORDER BY`, `INSERT INTO`, `VALUES`, `RETURNING`, `DELETE FROM`, `UPDATE`, `SET`, `LIMIT`, `OFFSET`) is a datatype wrapping an ordered list or a single item. Its text is a fixed keyword, one space, and the items joined with `", "`. There are two conditional cases: `WITH RECURSIVE` and the optional `INSERT` column list. The conversions into `WITH`, `FROM`, `GROUP BY`, `ORDER BY` and `SET` are modelled as well.
- **The clause-composition algebra of the statement builders** (`src/stmt/select.rs`, `src/stmt/update.rs`). List clauses follow the append policy: an absent clause is created and a present one is extended in call order. `WHERE` and `HAVING` follow the AND-merge policy: the first call sets the predicate, and each later call replaces it with `and(previous, new)`, previous on the left. The builders are classes whose methods change one field in place. `limit`, `offset` and `pagination` wrap the statement into a result value.

The files:

- `wrappers.dfy` holds `Option`.
- `items.dfy` holds the opaque item types, `U32`, and `Expr`, in which `And` is a distinct, injective constructor.
- `text.dfy` holds the separator join. Its recursive definition is proved equal, in both directions, to a positional one (`Laid`) that says where each item and each separator sits.
- `clause.dfy` holds the clause datatypes, their conversions and their text forms.
- `compose.dfy` holds the append and AND-merge policies and the equations from the builders' documentation.
- `select.dfy` and `update.dfy` hold the builder classes and clients that replay the documentation examples and tests.

The text of expressions and items is not modelled. Every rendering function takes it as a parameter (`expr: Expr -> string`, `field: Field -> string`, ...), so each property holds whatever those texts are.

## Model

| member | source | states |
|---|---|---|
| Text.JoinLaid | src/clause.rs:49-54 | The joined text is exactly as wide as the items plus one `", "` between each pair of neighbours. Item `i` sits at its offset, and a separator follows every item but the last. |
| Text.LaidIsJoin | src/clause.rs:49-54 | Conversely, any text laid out this way is the join, so the positional description fixes the text completely. |
| Text.LaidIffJoin | src/clause.rs:49-54 | A text is laid out as the items if and only if it is their join. |
| Text.JoinAppend | src/clause.rs:380-394 | Joining two non-empty lists gives the first join, one separator, then the second join. |
| Text.ListTextAppend | src/clause.rs:380-394 | Extending a non-empty list clause extends its text by `", "` and the new items' join. |
| Text.ListedIsListText | src/clause.rs:49-54 | Any text laid out as a list clause (keyword, space, items) is that keyword followed by the join. |
| Clause.WithCtes | src/clause.rs:24-42 | A `WITH` built from a vector or an array is never recursive and keeps every CTE in its original order. |
| Clause.FromTable | src/clause.rs:72-80 | A single table converts into a `FROM` list holding exactly that table. |
| Clause.GroupByExpr | src/clause.rs:117-125 | A single expression converts into a `GROUP BY` list holding exactly that expression. |
| Clause.OrderByOrder | src/clause.rs:162-170 | A single sort entry converts into an `ORDER BY` list holding exactly that entry. |
| Clause.SetPairs | src/clause.rs:279-305 | Converting a vector or array of pairs into `SET` keeps their number and order. |
| Clause.RenderWith | src/clause.rs:14-22 | The text is `WITH RECURSIVE ` when the flag is set and `WITH ` otherwise, followed by the CTEs laid out in order with `", "` between them. |
| Clause.RenderSelect | src/clause.rs:49-54 | The text is `SELECT ` followed by the fields laid out in list order with `", "` between them. |
| Clause.RenderFrom | src/clause.rs:65-70 | The text is `FROM ` followed by the tables laid out in list order. |
| Clause.RenderWhere | src/clause.rs:90-94 | The text is `WHERE `, and the rest of it is exactly the condition's text. |
| Clause.RenderGroupBy | src/clause.rs:111-115 | The text is `GROUP BY ` followed by the expressions laid out in list order. |
| Clause.RenderHaving | src/clause.rs:135-139 | The text is `HAVING `, and the rest of it is exactly the condition's text. |
| Clause.RenderOrderBy | src/clause.rs:156-160 | The text is `ORDER BY ` followed by the sort entries laid out in list order. |
| Clause.RenderInsert | src/clause.rs:179-187 | The text starts with `INSERT INTO ` and the target. It is longer than that if and only if there are columns. When there are, `(`, the columns laid out in order, and `)` follow with no space. |
| Clause.RenderValues | src/clause.rs:194-198 | The text is `VALUES ` followed by the rows laid out in list order. |
| Clause.RenderReturning | src/clause.rs:209-213 | The text is `RETURNING ` followed by the fields laid out in list order. |
| Clause.RenderDelete | src/clause.rs:224-228 | The text is `DELETE FROM `, and the rest of it is exactly the target's text. |
| Clause.RenderUpdate | src/clause.rs:245-249 | The text is `UPDATE `, and the rest of it is exactly the target's text. |
| Clause.RenderSet | src/clause.rs:266-277 | The text is `SET ` followed by one `col = val` per pair, laid out in list order with `", "` between them. |
| Clause.RenderLimit | src/clause.rs:312-316 | The text is `LIMIT `, and the rest of it is exactly the expression's text. |
| Clause.RenderOffset | src/clause.rs:333-337 | The text is `OFFSET `, and the rest of it is exactly the expression's text. |
| Clause.RecursiveInsertsKeyword | src/clause.rs:14-22 | The recursive form is the plain form with `RECURSIVE ` inserted after `WITH `, and nothing else changed. |
| Clause.EmptyListClauses | src/clause.rs:14-277 | Every list clause over no items renders as its keyword and one trailing space. This covers `SELECT`, `FROM`, `GROUP BY`, `ORDER BY`, `VALUES`, `RETURNING`, both `WITH` forms, and `SET`. An empty `SET` is reachable: an `UPDATE` with no `set` call renders `SET ` alone. |
| Clause.ExtendedSelectText | src/clause.rs:369-395 | Extending a non-empty select list with more fields appends `", "` and the new fields' text to the old text. |
| Clause.ExtendedFromText | src/clause.rs:397-427 | Extending a non-empty table list appends `", "` and the new tables' text to the old text. |
| Clause.ExtendedGroupByText | src/clause.rs:436-454 | Extending a non-empty group list appends `", "` and the new expressions' text to the old text. |
| Clause.ExtendedOrderByText | src/clause.rs:463-490 | Extending a non-empty order list appends `", "` and the new entries' text to the old text. |
| Clause.SelectTwoFields | src/clause.rs:369-395 | With field texts `id` and `user.name`, the one-field list renders as `SELECT id` and the two-field list as `SELECT id, user.name`. |
| Clause.FromTwoTables | src/clause.rs:397-427 | With table texts `user` and `public.contact`, the lists render as `FROM user` and `FROM user, public.contact`. |
| Clause.ConditionTrue | src/clause.rs:429-461 | A condition whose text is `true` renders as `WHERE true` and as `HAVING true`. |
| Clause.GroupByTwoExprs | src/clause.rs:436-454 | With expression texts `id` and `user.name`, the lists render as `GROUP BY id` and `GROUP BY id, user.name`. |
| Clause.OrderByTwoEntries | src/clause.rs:463-490 | With entry texts `id` and `user.name DESC`, the lists render as `ORDER BY id` and `ORDER BY id, user.name DESC`. |
| Compose.ExtendFields | src/stmt/select.rs:37-43 | `select` keeps the existing fields as a prefix and puts the new fields after them. |
| Compose.ExtendFrom | src/stmt/select.rs:64-76 | `from` turns an absent list into the new list. Otherwise the old tables stay as a prefix, followed by the new ones. |
| Compose.ExtendGroupBy | src/stmt/select.rs:130-142 | `group_by` creates the list when absent and otherwise appends after the old expressions. |
| Compose.ExtendOrderBy | src/stmt/select.rs:178-190 | `order_by` creates the list when absent and otherwise appends after the old entries. |
| Compose.ExtendReturning | src/stmt/update.rs:107-119 | `returning` creates the list when absent and otherwise appends after the old fields. |
| Compose.PushSet | src/stmt/update.rs:22-29 | `set` adds exactly one pair, `(column, value)`, at the end and leaves the earlier pairs untouched. |
| Compose.ExtendSet | src/stmt/update.rs:31-37 | `set_values` keeps the old pairs as a prefix and puts all new pairs after them, in order. |
| Compose.AndWhere | src/stmt/select.rs:101-110 | `filter` sets the predicate when none exists. Otherwise the new predicate is `and(previous, new)`, previous on the left. |
| Compose.AndHaving | src/stmt/select.rs:167-176 | `having` follows the same AND-merge rule on the `HAVING` predicate. |
| Compose.SelectTwice | src/stmt/select.rs:26-43 | `select(x).select(y)` equals a single `select` of the concatenation. |
| Compose.FromTwice | src/stmt/select.rs:45-76 | `from(b).from(a)` equals `from([b, a])`, whether or not tables were already present. |
| Compose.GroupByTwice | src/stmt/select.rs:112-142 | `group_by(x).group_by(y)` equals `group_by([x, y])`. |
| Compose.OrderByTwice | src/stmt/select.rs:178-190 | `order_by(x).order_by(y)` equals `order_by([x, y])`. |
| Compose.FromListsTwice | src/stmt/select.rs:64-76 | `from(x).from(y)` equals a single `from` of the concatenation of the two lists, whether or not tables were already present. |
| Compose.GroupByListsTwice | src/stmt/select.rs:130-142 | `group_by(x).group_by(y)` equals a single `group_by` of the concatenation of the two lists. |
| Compose.OrderByListsTwice | src/stmt/select.rs:178-190 | `order_by(x).order_by(y)` equals a single `order_by` of the concatenation of the two lists. |
| Compose.ReturningTwice | src/stmt/update.rs:87-119 | `returning(x).returning(y)` equals a single `returning` of the concatenation. |
| Compose.SetValuesThenSet | src/stmt/update.rs:31-37 | `set_values([p, q]).set(r)` extends the SET list by exactly `p, q, r`. |
| Compose.FilterTwice | src/stmt/select.rs:78-110 | On a statement without a filter, `filter(a).filter(b)` equals `filter(and(a, b))`. |
| Compose.FilterTwiceOnPresent | src/stmt/select.rs:101-110 | On a statement whose filter is already `p`, two calls give `and(and(p, a), b)`, which is never `and(p, and(a, b))`. The documented equation depends on starting without a filter. |
| Compose.FilterKeepsCallOrder | src/stmt/select.rs:101-110 | Filtering by `a` then `b` differs from `b` then `a` whenever `a` and `b` differ. |
| Compose.HavingTwice | src/stmt/select.rs:144-176 | On a statement without a `HAVING` predicate, `having(a).having(b)` equals `having(and(a, b))`. |
| Compose.SelectChainConcatenates | src/stmt/select.rs:37-43 | Any chain of `select` calls equals one call with all their fields concatenated in call order. |
| Compose.FilterChainOnPresent | src/stmt/select.rs:101-110 | A chain of `filter` calls on predicate `p` gives the left-nested conjunction of `p` and the conditions, in call order. |
| Compose.FilterChainFresh | src/stmt/select.rs:101-110 | A chain of `filter` calls on a statement without a filter gives the left-nested conjunction of the conditions, in call order. |
| Compose.ConjunctionInjective | src/stmt/select.rs:101-110 | The merged predicate determines the conditions and their order: two chains of the same length that merge alike are equal. |
| SelectStmt.Select.constructor | src/stmt/select.rs:6-16 | The default statement has no fields and no optional clause. |
| SelectStmt.Select.Select | src/stmt/select.rs:37-43 | After `select`, the fields are extended by the append policy, and every other field is unchanged. |
| SelectStmt.Select.From | src/stmt/select.rs:64-76 | After `from`, the FROM list is created or extended, and every other field is unchanged. |
| SelectStmt.Select.Filter | src/stmt/select.rs:101-110 | After `filter`, the WHERE predicate is AND-merged, and every other field is unchanged. |
| SelectStmt.Select.GroupBy | src/stmt/select.rs:130-142 | After `group_by`, the GROUP BY list is created or extended, and every other field is unchanged. |
| SelectStmt.Select.Having | src/stmt/select.rs:167-176 | After `having`, the HAVING predicate is AND-merged, and every other field is unchanged. |
| SelectStmt.Select.OrderBy | src/stmt/select.rs:178-190 | After `order_by`, the ORDER BY list is created or extended, and every other field is unchanged. |
| SelectStmt.Select.Pagination | src/stmt/select.rs:192-199 | The result wraps the unchanged statement, with both `LIMIT` and `OFFSET` set to the given numbers. |
| SelectStmt.Select.Limit | src/stmt/select.rs:201-207 | The result wraps the unchanged statement, with `LIMIT` set and `OFFSET` unset. |
| SelectStmt.Select.Offset | src/stmt/select.rs:209-215 | The result wraps the unchanged statement, with `OFFSET` set and `LIMIT` unset. |
| SelectStmt.SelectOneByOne | src/stmt/select.rs:26-36 | Selecting three fields at once equals selecting them one call at a time. |
| SelectStmt.FromListOrOneByOne | src/stmt/select.rs:45-63 | `from(["book", "author"])` and `from("book").from("author")` build equal statements. |
| SelectStmt.ConditionsConjoined | src/stmt/select.rs:78-100 | `filter(and(a, b))` and `filter(a).filter(b)` build equal statements, and so do the two `having` forms. |
| SelectStmt.GroupsOneByOne | src/stmt/select.rs:112-129 | `group_by("id").group_by("title")` and `group_by(["id", "title"])` build equal statements. |
| SelectStmt.BuilderTest | src/stmt/select.rs:218-243 | The builder test's chain of calls produces exactly the expected fields, tables, predicate, grouping, `HAVING` and ordering. |
| UpdateStmt.Update.constructor | src/stmt/update.rs:6-15 | A new statement has the given target, an empty SET list and no optional clause. |
| UpdateStmt.Update.Set | src/stmt/update.rs:22-29 | After `set`, exactly one pair is appended, and the target, `WITH` and every other field are unchanged. |
| UpdateStmt.Update.SetValues | src/stmt/update.rs:31-37 | After `set_values`, all pairs are appended in order, and every other field is unchanged. |
| UpdateStmt.Update.From | src/stmt/update.rs:39-51 | After `from`, the FROM list is created or extended, and every other field is unchanged. |
| UpdateStmt.Update.Filter | src/stmt/update.rs:76-85 | After `filter`, the WHERE predicate is AND-merged with the previous one on the left, and every other field is unchanged. |
| UpdateStmt.Update.Returning | src/stmt/update.rs:107-119 | After `returning`, the RETURNING list is created or extended, and every other field is unchanged. |
| UpdateStmt.ConditionsConjoined | src/stmt/update.rs:53-85 | `filter(and(a, b))` and `filter(a).filter(b)` after the same `set` build equal statements. |
| UpdateStmt.ReturningOneByOne | src/stmt/update.rs:87-119 | `returning(["id", "name"])` and `returning(["id"]).returning(["name"])` build equal statements. |
| UpdateStmt.BuilderTest | src/stmt/update.rs:122-133 | The update test's chain of calls produces the SET list `[p, q, (c, v)]`, the FROM list, the predicate and the RETURNING list, with target and `WITH` untouched. |

## Left out

- Expression rendering, operator precedence, parenthesisation and literal quoting live in the `expr`, `value` and `ops` modules, which are not part of this model. An expression's text is a parameter, and no parenthesisation is asserted.
- The text of `Field`, `Table`, `Order`, `Row`, `Cte`, `Ident` and `TableRef` comes from the `item` and `table_expr` modules, which are not part of this model. These types are opaque, and their text is a parameter.
- The source of `utils::join` is unavailable. `Text.Join` stands in for it as the conventional separator join, which agrees with every expected string in the tests.
- The `gen_impl_from_arr!`, `gen_impl_from_vec!` and `gen_impl_from_tup!` macros and the `Into` coercions are type-directed sugar. Builder arguments are modelled as already-converted items, so the vector and array conversions of a clause are one function. The single-item conversions into `WHERE`, `HAVING`, `DELETE`, `UPDATE`, `LIMIT` and `OFFSET` are the datatype constructors themselves.
- `stmt_common!`, `gen_display!` and the `Result` decorator (`stmt/result.rs`) are not part of this model. Their bodies are not available. So this model has no whole-statement rendering, no `with` builder method, and no `LIMIT`/`OFFSET` setters on the result. The builder tests are replayed at the level of the statement's fields; their expected text is not replayed.
- The `select(...)` and `update(...)` entry functions of `stmt/mod.rs` are not part of this model. The `Select` constructor stands for the derived `Default`; the `Update` constructor sets the target and leaves the rest at its default.
- `Select.Limit`, `Select.Offset` and `Select.Pagination` take a `u32` while `Limit` and `Offset` wrap an expression. The number is modelled as the expression `Num(n)`, and nothing is said about its text.
- Rust passes builders by value (`mut self` in, `Self` out). The model updates one object in place, which is equivalent because the library never shares a builder.
- Lifetimes, borrowing and the tests' direct mutation `clause.0.extend(...)` have no behavioural content here. That mutation is covered by the append lemmas on clause text.
- Formatter errors are not modelled. A `Display` impl passes on a failure of the underlying writer, as in `write!(...)?` in `Insert`'s impl. Every render function here is total and returns the text alone.
