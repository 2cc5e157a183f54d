/**
 * The query the `GET /api/foods` handler sends: an optional text filter `q` matched with
 * LIKE against name and description, an optional `type` filter, ordered by name and capped
 * at 200 rows.
 */
module FoodListQuery {
  import opened Wrappers
  import opened JsStrings
  import opened FoodTypes

  /** The columns every food query selects. */
  const FoodColumns: string := "id, name, description, calories, type"
  const SelectFoods: string := "SELECT " + FoodColumns + " FROM foods"
  const Placeholder: string := "?"
  /** `(name LIKE ? OR description LIKE ?)`. */
  const TextCondition: string := "(name LIKE " + Placeholder + " OR description LIKE " + Placeholder + ")"
  /** `type = ?`. */
  const TypeCondition: string := "type = " + Placeholder
  const OrderAndLimit: string := " ORDER BY name LIMIT 200"

  /** `(req.query.x || "").toString().trim()`. */
  function QueryText(raw: Option<string>): string {
    Trim(raw.GetOr(""))
  }

  /** `%${q}%`: the LIKE pattern for a substring match. */
  function LikePattern(q: string): string {
    "%" + q + "%"
  }

  /** The conditions the list query filters on, in the order the handler adds them. */
  function ListConditions(q: string, t: string): seq<string> {
    (if q != "" then [TextCondition] else []) + (if t in AllowedTypes then [TypeCondition] else [])
  }

  /** The values bound to the query's placeholders, in the order they appear. */
  function ListParams(q: string, t: string): seq<string> {
    (if q != "" then [LikePattern(q), LikePattern(q)] else []) + (if t in AllowedTypes then [t] else [])
  }

  /** The list query: the select, a `WHERE` clause joining the conditions with `AND` if there are any, the order and the cap. */
  function ListSql(q: string, t: string): string {
    var conditions := ListConditions(q, t);
    if conditions == [] then SelectFoods + OrderAndLimit
    else SelectFoods + " WHERE " + Join(conditions, " AND ") + OrderAndLimit
  }

  /** The list handler: trim the two query parameters, then build the query from them. */
  method ListFoodsQuery(rawQ: Option<string>, rawType: Option<string>) returns (sql: string, params: seq<string>)
    ensures sql == ListSql(QueryText(rawQ), QueryText(rawType))
    ensures params == ListParams(QueryText(rawQ), QueryText(rawType))
  {
    var q := QueryText(rawQ);
    var t := QueryText(rawType);
    sql, params := BuildListQuery(q, t);
  }

  /** The query construction, pushing onto `where` and `params` and appending to `sql`. */
  method BuildListQuery(q: string, t: string) returns (sql: string, params: seq<string>)
    ensures sql == ListSql(q, t)
    ensures params == ListParams(q, t)
  {
    sql := SelectFoods;
    var where: seq<string> := [];
    params := [];
    if q != "" {
      where := where + [TextCondition];
      params := params + [LikePattern(q), LikePattern(q)];
    }
    if t != "" && t in AllowedTypes {
      where := where + [TypeCondition];
      params := params + [t];
    }
    assert where == ListConditions(q, t);
    assert params == ListParams(q, t);
    if |where| > 0 {
      sql := sql + " WHERE " + Join(where, " AND ");
    }
    sql := sql + OrderAndLimit;
  }

  /**
   * The four queries the handler can send: a `WHERE` clause exactly when the text is
   * non-empty or the type is allowed, the two conditions joined with `AND`, the text's
   * two patterns bound before the type.
   */
  lemma ListQueryShapes(q: string, t: string)
    ensures q == "" && t !in AllowedTypes ==>
      ListSql(q, t) == SelectFoods + OrderAndLimit && ListParams(q, t) == []
    ensures q != "" && t !in AllowedTypes ==>
      ListSql(q, t) == SelectFoods + " WHERE " + TextCondition + OrderAndLimit
      && ListParams(q, t) == [LikePattern(q), LikePattern(q)]
    ensures q == "" && t in AllowedTypes ==>
      ListSql(q, t) == SelectFoods + " WHERE " + TypeCondition + OrderAndLimit
      && ListParams(q, t) == [t]
    ensures q != "" && t in AllowedTypes ==>
      ListSql(q, t) == SelectFoods + " WHERE " + TextCondition + " AND " + TypeCondition + OrderAndLimit
      && ListParams(q, t) == [LikePattern(q), LikePattern(q), t]
  {
    if q != "" && t in AllowedTypes {
      assert ListConditions(q, t) == [TextCondition, TypeCondition];
      assert Join([TextCondition, TypeCondition], " AND ") == TextCondition + " AND " + TypeCondition;
    }
  }

  /** A type outside the enumeration is ignored: the query is the one with no type at all. */
  lemma UnknownTypeIgnored(q: string, t: string)
    requires t !in AllowedTypes
    ensures ListSql(q, t) == ListSql(q, "") && ListParams(q, t) == ListParams(q, "")
  {
  }

  /** The query starts with the select and always ends with the order and the 200-row cap. */
  lemma ListQueryFrame(q: string, t: string)
    ensures StartsWith(ListSql(q, t), SelectFoods)
    ensures var sql := ListSql(q, t);
      |sql| >= |OrderAndLimit| && sql[|sql| - |OrderAndLimit|..] == OrderAndLimit
  {
    var conditions := ListConditions(q, t);
    var middle := if conditions == [] then "" else " WHERE " + Join(conditions, " AND ");
    assert ListSql(q, t) == SelectFoods + (middle + OrderAndLimit);
    assert ListSql(q, t) == (SelectFoods + middle) + OrderAndLimit;
  }

  // The placeholder count. The counting is done once over arbitrary pieces, so that no
  // proof unfolds the count over the literals of the query.

  /** No fixed word of the query holds a `?`; the placeholder is exactly one. */
  lemma SqlWordsWithoutMark()
    ensures '?' !in "SELECT " && '?' !in FoodColumns && '?' !in " FROM foods"
    ensures '?' !in " WHERE " && '?' !in " AND " && '?' !in OrderAndLimit
    ensures '?' !in "(name LIKE " && '?' !in " OR description LIKE " && '?' !in ")"
    ensures '?' !in "type = " && Placeholder == ['?']
  {
  }

  lemma CountOneMark(a: string, mark: char)
    requires mark !in a
    ensures CountChar(a + [mark], mark) == 1
  {
    CountCharAppend(a, [mark], mark);
    CountCharAbsent(a, mark);
  }

  lemma CountTwoMarks(a: string, b: string, c: string, mark: char)
    requires mark !in a && mark !in b && mark !in c
    ensures CountChar(a + [mark] + b + [mark] + c, mark) == 2
  {
    CountCharAppend3(a + [mark] + b, [mark], c, mark);
    CountCharAppend3(a, [mark], b, mark);
    CountCharAbsent(a, mark);
    CountCharAbsent(b, mark);
    CountCharAbsent(c, mark);
  }

  /** The four query shapes over arbitrary fixed texts: the marks come from the conditions only. */
  lemma ShapeCounts(select: string, where_: string, and_: string, order: string, text: string, ty: string, mark: char)
    requires mark !in select && mark !in where_ && mark !in and_ && mark !in order
    requires CountChar(text, mark) == 2 && CountChar(ty, mark) == 1
    ensures CountChar(select + order, mark) == 0
    ensures CountChar(select + where_ + text + order, mark) == 2
    ensures CountChar(select + where_ + ty + order, mark) == 1
    ensures CountChar(select + where_ + text + and_ + ty + order, mark) == 3
  {
    CountCharAbsent(select, mark);
    CountCharAbsent(where_, mark);
    CountCharAbsent(and_, mark);
    CountCharAbsent(order, mark);
    CountCharAppend(select, order, mark);
    CountCharAppend(select, where_, mark);
    CountCharAppend3(select + where_, text, order, mark);
    CountCharAppend3(select + where_, ty, order, mark);
    CountCharAppend3(select + where_ + text + and_, ty, order, mark);
    CountCharAppend3(select + where_, text, and_, mark);
  }

  /** The query has as many `?` placeholders as there are parameters: two for the text, one for the type. */
  lemma PlaceholdersMatchParams(q: string, t: string)
    ensures CountChar(ListSql(q, t), '?') == |ListParams(q, t)|
    ensures |ListParams(q, t)| == (if q != "" then 2 else 0) + (if t in AllowedTypes then 1 else 0)
  {
    SqlWordsWithoutMark();
    assert '?' !in SelectFoods;
    CountTwoMarks("(name LIKE ", " OR description LIKE ", ")", '?');
    CountOneMark("type = ", '?');
    ShapeCounts(SelectFoods, " WHERE ", " AND ", OrderAndLimit, TextCondition, TypeCondition, '?');
    ListQueryShapes(q, t);
  }
}
