/**
  The older, SELECT-only MySQL builder (AbstractQuery.MySql/SqlQueryBuilder.cs).
  Its SELECT, FROM, INNER JOIN, ORDER BY and LIMIT rendering and its `QuoteFieldName`
  are the same as the shared compiler's and are reused from there; its WHERE rendering
  differs: a shorter operator switch with `=` as fallback, and its own inline formatting.
 */
module MySqlBuilder {
  import opened Results
  import opened Values
  import opened QueryModel
  import opened Parameters
  import Strings
  import SqlBuilder

  /** The operator switch: eight cases, and `=` for a comparison it does not list. */
  function OperatorToken(c: Comparison): (op: string)
    ensures c != Is && c != IsNot ==> op == SqlBuilder.OperatorToken(c)
    ensures c == Is || c == IsNot ==> op == "="
  {
    match c
    case LowerThen => "<"
    case LowerEqualThen => "<="
    case GreaterThen => ">"
    case GreaterEqualThen => ">="
    case Equal => "="
    case NotEqual => "!="
    case Like => "LIKE"
    case NotLike => "NOT LIKE"
    case _ => "="
  }

  /** Inline formatting: numbers bare; anything else, null and bool included, formatted
      with `String.Format` inside double quotes. */
  function InlineLiteral(v: Value): (r: string)
    ensures IsNumeric(v) ==> r == Text(v)
    ensures !IsNumeric(v) ==> r == "\"" + Text(v) + "\""
  {
    if v.Str? || !IsNumeric(v) then "\"" + Text(v) + "\"" else Text(v)
  }

  /** The text the WHERE value numbered `k` renders as. */
  function ValueToken(v: Value, parameterize: bool, k: nat): string
  {
    if parameterize then ParameterName(k) else InlineLiteral(v)
  }

  function WhereItem(w: WhereElement, token: string): string
  {
    SqlBuilder.QuoteFieldName(w.fieldName) + " " + OperatorToken(w.comparison) + " " + token + " "
  }

  /** Tokens for `values[0]`, `values[1]`, ... numbered from `from`. */
  function ValueTokens(values: seq<Value>, parameterize: bool, from: nat): (tokens: seq<string>)
    ensures |tokens| == |values|
  {
    seq(|values|, k requires 0 <= k < |values| => ValueToken(values[k], parameterize, from + k))
  }

  /** The first token is numbered `from`; the rest continue from the next counter. */
  lemma ValueTokensCons(values: seq<Value>, parameterize: bool, from: nat, next: nat)
    requires |values| > 0
    requires parameterize ==> next == from + 1
    ensures ValueTokens(values, parameterize, from)
            == [ValueToken(values[0], parameterize, from)] + ValueTokens(values[1..], parameterize, next)
  {
    var a := ValueTokens(values, parameterize, from);
    var tail := ValueTokens(values[1..], parameterize, next);
    forall k | 0 < k < |a| ensures a[k] == tail[k - 1] {
      assert values[1..][k - 1] == values[k];
    }
    assert a == [a[0]] + tail;
  }

  /** The comparisons rendered with the given value tokens. */
  function WhereItems(wheres: seq<WhereElement>, tokens: seq<string>): (items: seq<string>)
    requires |tokens| == |wheres|
    ensures |items| == |wheres|
  {
    seq(|wheres|, k requires 0 <= k < |wheres| => WhereItem(wheres[k], tokens[k]))
  }

  /** The WHERE clause, values numbered from `from`. */
  function WhereText(wheres: seq<WhereElement>, parameterize: bool, from: nat): string
  {
    if |wheres| == 0 then ""
    else "WHERE " + Strings.Join("AND ", WhereItems(wheres, ValueTokens(SqlBuilder.WhereValues(wheres), parameterize, from)))
  }

  /** The value step of the `AppendWheres` loop: register the value under the next
      placeholder when parameterizing, else format it inline and leave the table alone. */
  function PrepareValue(v: Value, parameterize: bool, t: ParameterTable): (r: (string, ParameterTable))
    ensures r.0 == ValueToken(v, parameterize, t.count)
    ensures r.1.count == t.count + (if parameterize then 1 else 0)
    ensures !parameterize ==> r.1 == t
    ensures parameterize && Numbered(t) ==> r.1.entries == t.entries + [Parameter(r.0, v)] && Numbered(r.1)
  {
    if parameterize then Register(t, v) else (InlineLiteral(v), t)
  }

  /** The value steps of the `AppendWheres` loop, in order. The k-th token is the k-th
      value's token numbered from the counter; in parameterize mode the values are added
      to the table in the same order, otherwise the table is unchanged. */
  function PrepareValues(values: seq<Value>, parameterize: bool, t: ParameterTable): (r: (seq<string>, ParameterTable))
    ensures r.0 == ValueTokens(values, parameterize, t.count)
    ensures r.1.count == t.count + (if parameterize then |values| else 0)
    ensures !parameterize ==> r.1 == t
    ensures Numbered(t) ==> Numbered(r.1)
    ensures Numbered(t) ==> r.1.entries == t.entries + (if parameterize then NumberedFrom(t.count, values) else [])
    decreases |values|
  {
    if |values| == 0 then ([], t)
    else
      var first := PrepareValue(values[0], parameterize, t);
      var rest := PrepareValues(values[1..], parameterize, first.1);
      ValueTokensCons(values, parameterize, t.count, first.1.count);
      NumberedFromCons(t.count, values);
      ([first.0] + rest.0, rest.1)
  }

  /** `AppendWheres`: nothing without comparisons, else `WHERE ` and the comparisons, each
      with its value's token, joined by `AND `. */
  function AppendWheres(wheres: seq<WhereElement>, parameterize: bool, t: ParameterTable): (r: (string, ParameterTable))
    ensures r.0 == WhereText(wheres, parameterize, t.count)
    ensures !parameterize ==> r.1 == t
    ensures Numbered(t) ==> r.1.entries == t.entries + (if parameterize then NumberedFrom(t.count, SqlBuilder.WhereValues(wheres)) else [])
  {
    if |wheres| == 0 then ("", t)
    else
      var (tokens, t1) := PrepareValues(SqlBuilder.WhereValues(wheres), parameterize, t);
      ("WHERE " + Strings.Join("AND ", WhereItems(wheres, tokens)), t1)
  }

  /** `GetSelectQueryString`: needs a FROM element; clauses in the order SELECT, FROM,
      INNER JOIN*, WHERE, ORDER BY, LIMIT, then `;`. */
  function SelectQuery(q: Query, select: SelectElement, parameterize: bool): (r: Result<SqlBuilder.Compiled>)
    ensures r.Err? <==> |Elements(q.froms)| == 0
    ensures r.Err? ==> r.error == InvalidOperation("Expected 'From' element in query.")
    ensures r.Ok? ==> (r.value.text ==
      "SELECT " + SqlBuilder.SelectList(select.fieldNames) + SqlBuilder.AppendFroms(Elements(q.froms))
      + SqlBuilder.InnerJoins(Elements(q.innerJoins)) + WhereText(Elements(q.wheres), parameterize, 0)
      + SqlBuilder.OrderByClause(Elements(q.orderBys)) + SqlBuilder.LimitClause(q.limit) + ";")
    ensures r.Ok? ==> r.value.parameters == (if parameterize then NumberedFrom(0, SqlBuilder.WhereValues(Elements(q.wheres))) else [])
  {
    var froms := Elements(q.froms);
    if |froms| == 0 then Err(InvalidOperation("Expected 'From' element in query."))
    else
      var (wheres, t) := AppendWheres(Elements(q.wheres), parameterize, Cleared);
      var text := "SELECT " + SqlBuilder.SelectList(select.fieldNames) + SqlBuilder.AppendFroms(froms)
                  + SqlBuilder.InnerJoins(Elements(q.innerJoins)) + wheres
                  + SqlBuilder.OrderByClause(Elements(q.orderBys)) + SqlBuilder.LimitClause(q.limit) + ";";
      Ok(SqlBuilder.Compiled(text, t.entries))
  }

  /** `GetQueryString(query, parameterize)`: only SELECT is known; parameters start
      afresh at `@p0` on every call and follow the WHERE order. */
  function GetQueryString(q: Query, parameterize: bool): (r: Result<SqlBuilder.Compiled>)
    ensures q.select.None? ==> r == Err(InvalidOperation("Unknown query type."))
    ensures q.select.Some? ==> (r.Err? <==> |Elements(q.froms)| == 0)
    ensures r.Ok? && !parameterize ==> r.value.parameters == []
    ensures r.Ok? && parameterize ==> r.value.parameters == NumberedFrom(0, SqlBuilder.WhereValues(Elements(q.wheres)))
  {
    if q.select.Some? then SelectQuery(q, q.select.value, parameterize)
    else Err(InvalidOperation("Unknown query type."))
  }
}
