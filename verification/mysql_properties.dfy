/**
  How the older MySQL SELECT builder relates to the shared compiler: they agree on
  every SELECT that avoids `IS`/`IS NOT` and, inline, avoids null and boolean values;
  outside that they differ, and the difference is exhibited.
 */
module MySqlProperties {
  import opened Results
  import opened Values
  import opened QueryModel
  import opened Parameters
  import Strings
  import SqlBuilder
  import MySqlBuilder

  /** The comparisons both operator switches render alike. */
  predicate SharedComparison(c: Comparison)
  {
    c != Is && c != IsNot
  }

  /** The values both inline formatters render alike. */
  predicate SharedInlineValue(v: Value)
  {
    !v.Null? && !v.Bool?
  }

  /** One value token is the same in both builders, given the conditions above. */
  lemma ValueTokenAgrees(v: Value, parameterize: bool, k: nat)
    requires !parameterize ==> SharedInlineValue(v)
    ensures MySqlBuilder.ValueToken(v, parameterize, k) == SqlBuilder.ValueToken(v, parameterize, k)
  {
  }

  /** The WHERE clauses agree when every comparison is shared and, inline, every value. */
  lemma WhereTextAgrees(wheres: seq<WhereElement>, parameterize: bool, from: nat)
    requires forall k :: 0 <= k < |wheres| ==> SharedComparison(wheres[k].comparison)
    requires !parameterize ==> forall k :: 0 <= k < |wheres| ==> SharedInlineValue(wheres[k].value)
    ensures MySqlBuilder.WhereText(wheres, parameterize, from) == SqlBuilder.WhereText(wheres, parameterize, from)
  {
    if |wheres| > 0 {
      var values := SqlBuilder.WhereValues(wheres);
      var myTokens := MySqlBuilder.ValueTokens(values, parameterize, from);
      var tokens := SqlBuilder.ValueTokens(values, parameterize, from);
      forall k | 0 <= k < |wheres| ensures myTokens[k] == tokens[k] {
        ValueTokenAgrees(values[k], parameterize, from + k);
      }
      assert myTokens == tokens;
      var mine := MySqlBuilder.WhereItems(wheres, tokens);
      var shared := SqlBuilder.WhereItems(wheres, tokens);
      forall k | 0 <= k < |wheres| ensures mine[k] == shared[k] {
        assert mine[k] == MySqlBuilder.WhereItem(wheres[k], tokens[k]);
        assert shared[k] == SqlBuilder.WhereItem(wheres[k], tokens[k]);
      }
      assert mine == shared;
    }
  }

  /** On a SELECT whose comparisons avoid `IS`/`IS NOT` and whose inline values avoid null
      and booleans, the MySQL builder and the shared compiler (of any dialect) both fail
      or give the same text and parameters. */
  lemma SelectAgreesWithShared(q: Query, d: SqlBuilder.Dialect, parameterize: bool)
    requires q.select.Some?
    requires forall k :: 0 <= k < |Elements(q.wheres)| ==> SharedComparison(Elements(q.wheres)[k].comparison)
    requires !parameterize ==> forall k :: 0 <= k < |Elements(q.wheres)| ==> SharedInlineValue(Elements(q.wheres)[k].value)
    ensures MySqlBuilder.GetQueryString(q, parameterize).Ok? <==> SqlBuilder.GetQueryString(q, d, parameterize).Ok?
    ensures MySqlBuilder.GetQueryString(q, parameterize).Ok? ==>
              MySqlBuilder.GetQueryString(q, parameterize) == SqlBuilder.GetQueryString(q, d, parameterize)
  {
    WhereTextAgrees(Elements(q.wheres), parameterize, 0);
  }

  /** Where they part: inline, a comparison `IS NULL` (the shared compiler's rendering)
      becomes `= ""` in the MySQL builder. */
  lemma IsNullDiverges(fieldName: string)
    ensures var w := WhereElement(fieldName, Is, Null);
            && SqlBuilder.WhereText([w], false, 0) == "WHERE " + SqlBuilder.QuoteFieldName(fieldName) + " IS NULL "
            && MySqlBuilder.WhereText([w], false, 0) == "WHERE " + SqlBuilder.QuoteFieldName(fieldName) + " = \"\" "
  {
    var w := WhereElement(fieldName, Is, Null);
    var name := SqlBuilder.QuoteFieldName(fieldName);
    assert SqlBuilder.ValueTokens(SqlBuilder.WhereValues([w]), false, 0) == ["NULL"];
    assert SqlBuilder.WhereItem(w, "NULL") == name + " IS NULL " by {
      assert name + " " + "IS" + " " + "NULL" + " " == name + (" " + "IS" + " " + "NULL" + " ");
      assert " " + "IS" + " " + "NULL" + " " == " IS NULL ";
    }
    assert SqlBuilder.WhereItems([w], ["NULL"]) == [name + " IS NULL "];
    assert MySqlBuilder.ValueToken(Null, false, 0) == "\"\"";
    assert MySqlBuilder.WhereItem(w, "\"\"") == name + " = \"\" " by {
      assert name + " " + "=" + " " + "\"\"" + " " == name + (" " + "=" + " " + "\"\"" + " ");
      assert " " + "=" + " " + "\"\"" + " " == " = \"\" ";
    }
    assert MySqlBuilder.ValueTokens([Null], false, 0) == ["\"\""];
    assert MySqlBuilder.WhereItems([w], ["\"\""]) == [name + " = \"\" "];
  }
}
