/**
  Properties of the shared statement compiler that relate several of its parts or
  several calls: quoting only adds backticks, inline integers read back, placeholders
  never depend on the values they stand for, dispatch takes the first statement
  element, and the primary-key layout of CREATE TABLE.
 */
module CompilerProperties {
  import opened Results
  import opened Values
  import opened QueryModel
  import opened Parameters
  import opened SqlBuilder
  import Strings

  // ---------------------------------------------------------------------------
  // Identifiers and literals

  /** Removing the backticks from a backticked name without one gives the name back. */
  lemma UnquoteBacktick(name: string)
    requires '`' !in name
    ensures Strings.Remove(Backtick(name), '`') == name
  {
    Strings.RemoveConcat("`", name, '`');
    Strings.RemoveConcat("`" + name, "`", '`');
    Strings.RemoveAbsent(name, '`');
    assert Strings.Remove("`", '`') == "";
  }

  /** The two backticked halves of a name split at a dot lose their backticks again. */
  lemma UnquoteSplit(a: string, b: string)
    requires '`' !in a && '`' !in b
    ensures Strings.Remove(Backtick(a) + "." + Backtick(b), '`') == a + "." + b
  {
    Strings.RemoveConcat(Backtick(a) + ".", Backtick(b), '`');
    Strings.RemoveConcat(Backtick(a), ".", '`');
    UnquoteBacktick(a);
    UnquoteBacktick(b);
    Strings.RemoveAbsent(".", '`');
  }

  /** Quoting a field name that holds no backtick only adds backticks: removing them
      again gives back the name, dot included. */
  lemma QuoteFieldNameRoundTrip(fieldName: string)
    requires '`' !in fieldName
    ensures Strings.Remove(QuoteFieldName(fieldName), '`') == fieldName
  {
    if fieldName == "*" {
      Strings.RemoveAbsent(fieldName, '`');
    } else if '.' !in fieldName {
      UnquoteBacktick(fieldName);
    } else {
      var i := Strings.IndexOf(fieldName, '.');
      var a, b := fieldName[..i], fieldName[i + 1..];
      assert fieldName == a + "." + b;
      assert '`' !in a && '`' !in b;
      assert QuoteFieldName(fieldName) == Backtick(a) + "." + Backtick(b);
      UnquoteSplit(a, b);
    }
  }

  /** An integer written inline is its decimal text and reads back as the same number. */
  lemma InlineIntegerRoundTrip(i: int)
    ensures Strings.IsIntegerText(InlineLiteral(Int(i)))
    ensures Strings.ParseInt(InlineLiteral(Int(i))) == i
  {
    Strings.IntToStringRoundTrip(i);
  }

  /** Inline, exactly the strings and the other non-numeric objects open with a double
      quote (given that a fractional number's text does not). */
  lemma InlineQuotedExactlyNonNumeric(v: Value)
    requires v.Fractional? ==> |v.text| == 0 || v.text[0] != '"'
    ensures var r := InlineLiteral(v); (|r| > 0 && r[0] == '"') <==> (v.Str? || v.Other?)
  {
    if v.Int? {
      var digits := Strings.NatToString(if v.i < 0 then -v.i else v.i);
      assert Strings.IsDigit(digits[0]);
      if v.i >= 0 {
        assert InlineLiteral(v)[0] == digits[0];
      } else {
        assert InlineLiteral(v)[0] == '-';
      }
    }
  }

  /** The shared operator switch maps the ten comparisons to ten different tokens. */
  lemma OperatorTokenInjective(a: Comparison, b: Comparison)
    requires a != b
    ensures OperatorToken(a) != OperatorToken(b)
  {
  }

  /** A FROM item only adds backticks around the table and its alias: removing them
      gives `table` or `table AS alias`. */
  lemma FromItemRoundTrip(f: FromElement)
    requires '`' !in f.tableName
    requires f.shortName.Some? ==> '`' !in f.shortName.value
    ensures f.shortName.None? ==> Strings.Remove(FromItem(f), '`') == f.tableName
    ensures f.shortName.Some? ==> Strings.Remove(FromItem(f), '`') == f.tableName + " AS " + f.shortName.value
  {
    UnquoteBacktick(f.tableName);
    if f.shortName.Some? {
      var alias := f.shortName.value;
      Strings.RemoveConcat(Backtick(f.tableName) + " AS ", Backtick(alias), '`');
      Strings.RemoveConcat(Backtick(f.tableName), " AS ", '`');
      Strings.RemoveAbsent(" AS ", '`');
      UnquoteBacktick(alias);
    }
  }

  /** An ORDER BY item is the quoted field and its direction: removing the backticks gives
      the field name and ` ASC` or ` DESC` back, and the item ends in ` ASC` exactly when
      the order is ascending. */
  lemma OrderByItemReadsBack(o: OrderByElement)
    requires '`' !in o.fieldName
    ensures Strings.Remove(OrderByItem(o), '`') == o.fieldName + (if o.direction == Ascending then " ASC" else " DESC")
    ensures var item := OrderByItem(o); |item| >= 4 && (o.direction == Ascending <==> item[|item| - 4..] == " ASC")
  {
    OrderByItemUnquotes(o);
    OrderByItemDirection(o);
  }

  lemma OrderByItemUnquotes(o: OrderByElement)
    requires '`' !in o.fieldName
    ensures Strings.Remove(OrderByItem(o), '`') == o.fieldName + (if o.direction == Ascending then " ASC" else " DESC")
  {
    if o.direction == Ascending {
      assert '`' !in " ASC";
      UnquoteWithSuffix(o.fieldName, " ASC");
    } else {
      assert '`' !in " DESC";
      UnquoteWithSuffix(o.fieldName, " DESC");
    }
  }

  /** A quoted field name followed by a text without backticks reads back the same way. */
  lemma UnquoteWithSuffix(fieldName: string, suffix: string)
    requires '`' !in fieldName && '`' !in suffix
    ensures Strings.Remove(QuoteFieldName(fieldName) + suffix, '`') == fieldName + suffix
  {
    QuoteFieldNameRoundTrip(fieldName);
    Strings.RemoveConcat(QuoteFieldName(fieldName), suffix, '`');
    Strings.RemoveAbsent(suffix, '`');
  }

  lemma OrderByItemDirection(o: OrderByElement)
    ensures var item := OrderByItem(o); |item| >= 4 && (o.direction == Ascending <==> item[|item| - 4..] == " ASC")
  {
    var suffix := if o.direction == Ascending then " ASC" else " DESC";
    LastFour(QuoteFieldName(o.fieldName), suffix);
    DirectionSuffixes();
  }

  /** The last four characters of a text ending in a suffix of at least four. */
  lemma LastFour(a: string, b: string)
    requires |b| >= 4
    ensures |a + b| >= 4 && (a + b)[|a + b| - 4..] == b[|b| - 4..]
  {
  }

  lemma DirectionSuffixes()
    ensures " ASC"[|" ASC"| - 4..] == " ASC"
    ensures " DESC"[|" DESC"| - 4..] != " ASC"
  {
    assert " DESC"[|" DESC"| - 4..][0] == 'D';
  }

  /** An INNER JOIN item only adds backticks around the table and the two fields:
      removing them gives `INNER JOIN table ON field1 = field2 `. */
  lemma InnerJoinItemReadsBack(j: InnerJoinElement)
    requires '`' !in j.tableName && '`' !in j.fieldName1 && '`' !in j.fieldName2
    ensures Strings.Remove(InnerJoinItem(j), '`')
            == "INNER JOIN " + j.tableName + " ON " + j.fieldName1 + " = " + j.fieldName2 + " "
  {
    var t, a, b := Backtick(j.tableName), QuoteFieldName(j.fieldName1), QuoteFieldName(j.fieldName2);
    UnquoteBacktick(j.tableName);
    QuoteFieldNameRoundTrip(j.fieldName1);
    QuoteFieldNameRoundTrip(j.fieldName2);
    Strings.RemoveConcat("INNER JOIN " + t + " ON " + a + " = " + b, " ", '`');
    Strings.RemoveConcat("INNER JOIN " + t + " ON " + a + " = ", b, '`');
    Strings.RemoveConcat("INNER JOIN " + t + " ON " + a, " = ", '`');
    Strings.RemoveConcat("INNER JOIN " + t + " ON ", a, '`');
    Strings.RemoveConcat("INNER JOIN " + t, " ON ", '`');
    Strings.RemoveConcat("INNER JOIN ", t, '`');
    Strings.RemoveAbsent("INNER JOIN ", '`');
    Strings.RemoveAbsent(" ON ", '`');
    Strings.RemoveAbsent(" = ", '`');
    Strings.RemoveAbsent(" ", '`');
  }

  /** Each `InnerJoin` call adds its item at the end of the rendered joins, so the joins
      are written in call order. */
  lemma InnerJoinAppendsItem(q: Query, tableName: string, fieldName1: string, fieldName2: string)
    ensures InnerJoins(Elements(InnerJoin(q, tableName, fieldName1, fieldName2).innerJoins))
            == InnerJoins(Elements(q.innerJoins)) + InnerJoinItem(InnerJoinElement(tableName, fieldName1, fieldName2))
  {
    var js := Elements(q.innerJoins);
    var j := InnerJoinElement(tableName, fieldName1, fieldName2);
    var all := Elements(InnerJoin(q, tableName, fieldName1, fieldName2).innerJoins);
    assert all == js + [j];
    var items := seq(|js|, k requires 0 <= k < |js| => InnerJoinItem(js[k]));
    var allItems := seq(|all|, k requires 0 <= k < |all| => InnerJoinItem(all[k]));
    assert allItems == items + [InnerJoinItem(j)];
    Strings.ConcatSnoc(items, InnerJoinItem(j));
  }

  /** Each `OrderBy` call extends the ORDER BY clause: the first one opens it, a later one
      adds `, ` and its item before the closing space. */
  lemma OrderByAppendsItem(q: Query, fieldName: string, direction: OrderDirection)
    ensures var before := OrderByClause(Elements(q.orderBys));
            var after := OrderByClause(Elements(OrderBy(q, fieldName, direction).orderBys));
            var item := OrderByItem(OrderByElement(fieldName, direction));
            && (before == "" ==> after == "ORDER BY " + item + " ")
            && (before != "" ==> |before| > 0 && after == before[..|before| - 1] + ", " + item + " ")
  {
    var os := Elements(q.orderBys);
    assert Elements(OrderBy(q, fieldName, direction).orderBys) == os + [OrderByElement(fieldName, direction)];
    OrderByClauseSnoc(os, OrderByElement(fieldName, direction));
  }

  /** The ORDER BY clause of one more element. */
  lemma OrderByClauseSnoc(os: seq<OrderByElement>, o: OrderByElement)
    ensures var before := OrderByClause(os);
            var after := OrderByClause(os + [o]);
            && (before == "" ==> after == "ORDER BY " + OrderByItem(o) + " ")
            && (before != "" ==> |before| > 0 && after == before[..|before| - 1] + ", " + OrderByItem(o) + " ")
  {
    if |os| == 0 {
      OrderByClauseFirst(os, o);
    } else {
      OrderByClauseLater(os, o);
    }
  }

  lemma OrderByClauseFirst(os: seq<OrderByElement>, o: OrderByElement)
    requires |os| == 0
    ensures OrderByClause(os) == "" && OrderByClause(os + [o]) == "ORDER BY " + OrderByItem(o) + " "
  {
    OrderByItemsSnoc(os, o);
    assert OrderByItems(os) + [OrderByItem(o)] == [OrderByItem(o)];
  }

  lemma OrderByClauseLater(os: seq<OrderByElement>, o: OrderByElement)
    requires |os| > 0
    ensures var before := OrderByClause(os);
            && before != "" && |before| > 0
            && OrderByClause(os + [o]) == before[..|before| - 1] + ", " + OrderByItem(o) + " "
  {
    var items, item := OrderByItems(os), OrderByItem(o);
    var joined := Strings.Join(", ", items);
    OrderByItemsSnoc(os, o);
    Strings.JoinSnoc(", ", items, item);
    var before := OrderByClause(os);
    assert before == "ORDER BY " + joined + " ";
    assert OrderByClause(os + [o]) == "ORDER BY " + (joined + ", " + item) + " ";
    DropClosingSpace("ORDER BY " + joined);
    assert before[..|before| - 1] == "ORDER BY " + joined;
    ExtendList("ORDER BY ", joined, item);
  }

  /** Adding `, item` inside a list between an opening text and a closing space. */
  lemma ExtendList(open: string, list: string, item: string)
    ensures open + (list + ", " + item) + " " == (open + list) + ", " + item + " "
  {
  }

  lemma OrderByItemsSnoc(os: seq<OrderByElement>, o: OrderByElement)
    ensures OrderByItems(os + [o]) == OrderByItems(os) + [OrderByItem(o)]
  {
  }

  /** The rendered ORDER BY items, in order. */
  function OrderByItems(os: seq<OrderByElement>): (items: seq<string>)
    ensures |items| == |os|
    ensures forall k :: 0 <= k < |os| ==> items[k] == OrderByItem(os[k])
    ensures |os| > 0 ==> OrderByClause(os) == "ORDER BY " + Strings.Join(", ", items) + " "
  {
    seq(|os|, k requires 0 <= k < |os| => OrderByItem(os[k]))
  }

  lemma DropClosingSpace(text: string)
    ensures var closed := text + " "; |closed| > 0 && closed[..|closed| - 1] == text
  {
  }

  /** DROP TABLE is `DROP TABLE `, the backticked table and ` ;`; the table name reads
      back from between them. */
  lemma DropTableReadsBack(drop: DropTableElement)
    requires '`' !in drop.tableName
    ensures var r := DropTableQuery(drop);
            && |r| >= 13 && r[..11] == "DROP TABLE " && r[|r| - 2..] == " ;"
            && Strings.Remove(r[11..|r| - 2], '`') == drop.tableName
  {
    var b := Backtick(drop.tableName);
    var r := DropTableQuery(drop);
    assert r == "DROP TABLE " + b + " ;";
    assert r[11..|r| - 2] == b;
    UnquoteBacktick(drop.tableName);
  }

  /** `LIMIT start, count ` carries both numbers verbatim, negative ones included: each
      reads back as the number it was given. */
  lemma LimitClauseReadsBack(l: LimitElement)
    ensures exists a, b ::
              && LimitClause(Some(l)) == "LIMIT " + a + ", " + b + " "
              && Strings.IsIntegerText(a) && Strings.ParseInt(a) == l.start as int
              && Strings.IsIntegerText(b) && Strings.ParseInt(b) == l.count as int
  {
    Strings.IntToStringRoundTrip(l.start as int);
    Strings.IntToStringRoundTrip(l.count as int);
    var a, b := Strings.IntToString(l.start as int), Strings.IntToString(l.count as int);
    assert LimitClause(Some(l)) == "LIMIT " + a + ", " + b + " ";
  }

  /** The WHERE clause is absent exactly when there are no comparisons; otherwise it
      opens with `WHERE `. */
  lemma WhereOmittedExactlyWhenEmpty(wheres: seq<WhereElement>, parameterize: bool, from: nat)
    ensures WhereText(wheres, parameterize, from) == "" <==> |wheres| == 0
    ensures |wheres| > 0 ==> "WHERE " <= WhereText(wheres, parameterize, from)
  {
    if |wheres| > 0 {
      var rest := Strings.Join("AND ", WhereItems(wheres, ValueTokens(WhereValues(wheres), parameterize, from)));
      assert ("WHERE " + rest)[..6] == "WHERE ";
    }
  }

  /** A compiled INSERT lists one column and one value token per element, in the same
      order: the k-th column is the k-th element's quoted name, the k-th token is its
      value's token numbered k, and when parameterizing the k-th parameter binds that
      token to that value. */
  lemma InsertColumnsMatchValues(q: Query, i: InsertIntoElement, parameterize: bool)
    ensures var r := InsertQuery(q, i, parameterize);
            var values := Elements(q.fieldValues);
            var cols := seq(|values|, k requires 0 <= k < |values| => QuoteFieldName(values[k].fieldName));
            var tokens := seq(|values|, k requires 0 <= k < |values| => ValueToken(values[k].value, parameterize, k));
            r.Ok? ==>
              && r.value.text == "INSERT INTO " + Backtick(i.tableName) + " (" + Strings.Join(", ", cols)
                                 + ") VALUES (" + Strings.Join(", ", tokens) + ") ;"
              && (parameterize ==>
                    r.value.parameters == seq(|values|, k requires 0 <= k < |values| => Parameter(tokens[k], values[k].value)))
              && (!parameterize ==> r.value.parameters == [])
  {
    var r := InsertQuery(q, i, parameterize);
    if r.Ok? {
      var values := Elements(q.fieldValues);
      var tokens := seq(|values|, k requires 0 <= k < |values| => ValueToken(values[k].value, parameterize, k));
      assert ColumnNames(values) == seq(|values|, k requires 0 <= k < |values| => QuoteFieldName(values[k].fieldName));
      FieldTokensNumbered(values, parameterize);
      if parameterize {
        FieldParametersNumbered(values);
      }
    }
  }

  /** The tokens of the field values, numbered from zero, element by element. */
  lemma FieldTokensNumbered(values: seq<FieldValueElement>, parameterize: bool)
    ensures ValueTokens(FieldValues(values), parameterize, 0)
            == seq(|values|, k requires 0 <= k < |values| => ValueToken(values[k].value, parameterize, k))
  {
  }

  /** The parameters of the field values, numbered from zero, element by element. */
  lemma FieldParametersNumbered(values: seq<FieldValueElement>)
    ensures var tokens := seq(|values|, k requires 0 <= k < |values| => ValueToken(values[k].value, true, k));
            NumberedFrom(0, FieldValues(values))
            == seq(|values|, k requires 0 <= k < |values| => Parameter(tokens[k], values[k].value))
  {
    var tokens := seq(|values|, k requires 0 <= k < |values| => ValueToken(values[k].value, true, k));
    var numbered := NumberedFrom(0, FieldValues(values));
    forall k | 0 <= k < |values| ensures numbered[k] == Parameter(tokens[k], values[k].value) {
      assert tokens[k] == ParameterName(k);
    }
  }

  // ---------------------------------------------------------------------------
  // Parameters

  /** Two WHERE lists that differ at most in their values. */
  predicate SameWhereShape(a: seq<WhereElement>, b: seq<WhereElement>)
  {
    && |a| == |b|
    && forall k :: 0 <= k < |a| ==> a[k].fieldName == b[k].fieldName && a[k].comparison == b[k].comparison
  }

  /** Two SET/INSERT lists that differ at most in their values. */
  predicate SameFieldShape(a: seq<FieldValueElement>, b: seq<FieldValueElement>)
  {
    && |a| == |b|
    && forall k :: 0 <= k < |a| ==> a[k].fieldName == b[k].fieldName
  }

  function EraseWheres(ws: seq<WhereElement>): (r: seq<WhereElement>)
    ensures SameWhereShape(ws, r)
    ensures forall k :: 0 <= k < |r| ==> r[k].value == Null
  {
    seq(|ws|, k requires 0 <= k < |ws| => ws[k].(value := Null))
  }

  function EraseFieldValues(vs: seq<FieldValueElement>): (r: seq<FieldValueElement>)
    ensures SameFieldShape(vs, r)
    ensures forall k :: 0 <= k < |r| ==> r[k].value == Null
  {
    seq(|vs|, k requires 0 <= k < |vs| => vs[k].(value := Null))
  }

  /** The query with every WHERE and SET/INSERT value replaced by null. */
  function EraseValues(q: Query): (e: Query)
    ensures SameWhereShape(Elements(q.wheres), Elements(e.wheres))
    ensures SameFieldShape(Elements(q.fieldValues), Elements(e.fieldValues))
  {
    q.(wheres := match q.wheres
                 case None => None
                 case Some(ws) => Some(EraseWheres(ws)),
       fieldValues := match q.fieldValues
                      case None => None
                      case Some(vs) => Some(EraseFieldValues(vs)))
  }

  /** In parameterize mode a WHERE clause does not depend on the compared values. */
  lemma ParameterizedWhereIgnoresValues(a: seq<WhereElement>, b: seq<WhereElement>, from: nat)
    requires SameWhereShape(a, b)
    ensures WhereText(a, true, from) == WhereText(b, true, from)
  {
    if |a| > 0 {
      var ta := ValueTokens(WhereValues(a), true, from);
      var tb := ValueTokens(WhereValues(b), true, from);
      PlaceholdersIgnoreValues(WhereValues(a), WhereValues(b), from);
      var ia, ib := WhereItems(a, ta), WhereItems(b, tb);
      forall k | 0 <= k < |a| ensures ia[k] == ib[k] {
        assert ia[k] == WhereItem(a[k], ta[k]);
        assert ib[k] == WhereItem(b[k], tb[k]);
      }
      assert ia == ib;
    }
  }

  /** Placeholders depend only on how many values there are. */
  lemma PlaceholdersIgnoreValues(a: seq<Value>, b: seq<Value>, from: nat)
    requires |a| == |b|
    ensures ValueTokens(a, true, from) == ValueTokens(b, true, from)
  {
    var ta, tb := ValueTokens(a, true, from), ValueTokens(b, true, from);
    forall k | 0 <= k < |a| ensures ta[k] == tb[k] {
      assert ta[k] == ParameterName(from + k) == tb[k];
    }
  }

  /** In parameterize mode the column and value lists of INSERT and the SET list of
      UPDATE do not depend on the values. */
  lemma ParameterizedFieldsIgnoreValues(a: seq<FieldValueElement>, b: seq<FieldValueElement>)
    requires SameFieldShape(a, b)
    ensures Assignments(a, true) == Assignments(b, true)
    ensures ColumnNames(a) == ColumnNames(b)
    ensures ValueTokens(FieldValues(a), true, 0) == ValueTokens(FieldValues(b), true, 0)
  {
    var ta := ValueTokens(FieldValues(a), true, 0);
    var tb := ValueTokens(FieldValues(b), true, 0);
    PlaceholdersIgnoreValues(FieldValues(a), FieldValues(b), 0);
    assert SetItems(a, ta) == SetItems(b, tb);
    assert ColumnNames(a) == ColumnNames(b);
  }

  /** The four statements with values, compiled in parameterize mode from two queries
      that differ only in their values, succeed together and give the same text. */
  lemma SelectIgnoresValues(q: Query, e: Query, s: SelectElement)
    requires e == q.(wheres := e.wheres) && SameWhereShape(Elements(q.wheres), Elements(e.wheres))
    ensures SelectQuery(q, s, true).Ok? == SelectQuery(e, s, true).Ok?
    ensures SelectQuery(q, s, true).Ok? ==> SelectQuery(q, s, true).value.text == SelectQuery(e, s, true).value.text
  {
    ParameterizedWhereIgnoresValues(Elements(q.wheres), Elements(e.wheres), 0);
  }

  lemma InsertIgnoresValues(q: Query, e: Query, i: InsertIntoElement)
    requires e == q.(fieldValues := e.fieldValues) && SameFieldShape(Elements(q.fieldValues), Elements(e.fieldValues))
    ensures InsertQuery(q, i, true).Ok? == InsertQuery(e, i, true).Ok?
    ensures InsertQuery(q, i, true).Ok? ==> InsertQuery(q, i, true).value.text == InsertQuery(e, i, true).value.text
  {
    ParameterizedFieldsIgnoreValues(Elements(q.fieldValues), Elements(e.fieldValues));
  }

  lemma DeleteIgnoresValues(q: Query, e: Query)
    requires e == q.(wheres := e.wheres) && SameWhereShape(Elements(q.wheres), Elements(e.wheres))
    ensures DeleteQuery(q, true).Ok? == DeleteQuery(e, true).Ok?
    ensures DeleteQuery(q, true).Ok? ==> DeleteQuery(q, true).value.text == DeleteQuery(e, true).value.text
  {
    ParameterizedWhereIgnoresValues(Elements(q.wheres), Elements(e.wheres), 0);
  }

  lemma UpdateIgnoresValues(q: Query, e: Query, u: UpdateElement)
    requires e == q.(wheres := e.wheres, fieldValues := e.fieldValues)
    requires SameWhereShape(Elements(q.wheres), Elements(e.wheres))
    requires SameFieldShape(Elements(q.fieldValues), Elements(e.fieldValues))
    ensures UpdateQuery(q, u, true).Ok? == UpdateQuery(e, u, true).Ok?
    ensures UpdateQuery(q, u, true).Ok? ==> UpdateQuery(q, u, true).value.text == UpdateQuery(e, u, true).value.text
  {
    ParameterizedWhereIgnoresValues(Elements(q.wheres), Elements(e.wheres), |Elements(q.fieldValues)|);
    ParameterizedFieldsIgnoreValues(Elements(q.fieldValues), Elements(e.fieldValues));
  }

  /** In parameterize mode the statement text never contains a value: a query and the
      same query with every value nulled compile to the same text (or both fail). */
  lemma ParameterizedTextIgnoresValues(q: Query, d: Dialect)
    ensures GetQueryString(q, d, true).Ok? <==> GetQueryString(EraseValues(q), d, true).Ok?
    ensures GetQueryString(q, d, true).Ok? ==>
              GetQueryString(q, d, true).value.text == GetQueryString(EraseValues(q), d, true).value.text
  {
    var e := EraseValues(q);
    if q.select.Some? {
      SelectIgnoresValues(q.(fieldValues := e.fieldValues), e, q.select.value);
      assert SelectQuery(q, q.select.value, true) == SelectQuery(q.(fieldValues := e.fieldValues), q.select.value, true);
    } else if q.insertInto.Some? {
      InsertIgnoresValues(q.(wheres := e.wheres), e, q.insertInto.value);
      assert InsertQuery(q, q.insertInto.value, true) == InsertQuery(q.(wheres := e.wheres), q.insertInto.value, true);
    } else if q.delete.Some? {
      DeleteIgnoresValues(q.(fieldValues := e.fieldValues), e);
      assert DeleteQuery(q, true) == DeleteQuery(q.(fieldValues := e.fieldValues), true);
    } else if q.update.Some? {
      UpdateIgnoresValues(q, e, q.update.value);
    }
  }

  /** The query with every statement element after the first one set cleared. */
  function FirstStatementOnly(q: Query): Query
  {
    if q.select.Some? then q.(insertInto := None, delete := None, update := None, dropTable := None, createTable := None)
    else if q.insertInto.Some? then q.(delete := None, update := None, dropTable := None, createTable := None)
    else if q.delete.Some? then q.(update := None, dropTable := None, createTable := None)
    else if q.update.Some? then q.(dropTable := None, createTable := None)
    else if q.dropTable.Some? then q.(createTable := None)
    else q
  }

  /** Only the first statement element set (SELECT, INSERT, DELETE, UPDATE, DROP TABLE,
      CREATE TABLE, in that order) matters; any later one is ignored. */
  lemma FirstStatementWins(q: Query, d: Dialect, parameterize: bool)
    ensures GetQueryString(q, d, parameterize) == GetQueryString(FirstStatementOnly(q), d, parameterize)
  {
    var f := FirstStatementOnly(q);
    if q.select.Some? {
      assert SelectQuery(q, q.select.value, parameterize) == SelectQuery(f, q.select.value, parameterize);
    } else if q.insertInto.Some? {
      assert InsertQuery(q, q.insertInto.value, parameterize) == InsertQuery(f, q.insertInto.value, parameterize);
    } else if q.delete.Some? {
      assert DeleteQuery(q, parameterize) == DeleteQuery(f, parameterize);
    } else if q.update.Some? {
      assert UpdateQuery(q, q.update.value, parameterize) == UpdateQuery(f, q.update.value, parameterize);
    }
  }

  /** The keyword the first statement element set makes the text start with. */
  function LeadingKeyword(q: Query): string
  {
    if q.select.Some? then "SELECT "
    else if q.insertInto.Some? then "INSERT INTO "
    else if q.delete.Some? then "DELETE FROM "
    else if q.update.Some? then "UPDATE "
    else if q.dropTable.Some? then "DROP TABLE "
    else "CREATE TABLE "
  }

  /** `text` opens with `keyword` and closes with `;`. */
  predicate Framed(text: string, keyword: string)
  {
    keyword <= text && |text| > 0 && text[|text| - 1] == ';'
  }

  /** A keyword, anything, and a closing `;` make a framed statement. */
  lemma FramedConcat(keyword: string, middle: string)
    ensures Framed(keyword + middle + ";", keyword)
  {
    assert (keyword + middle + ";")[..|keyword|] == keyword;
  }

  /** A prefix of a text stays a prefix when the text grows. */
  lemma PrefixGrows(prefix: string, text: string, more: string)
    requires prefix <= text
    ensures prefix <= text + more
  {
    assert (text + more)[..|prefix|] == text[..|prefix|];
  }

  lemma SelectFramed(q: Query, s: SelectElement, parameterize: bool)
    ensures SelectQuery(q, s, parameterize).Ok? ==> Framed(SelectQuery(q, s, parameterize).value.text, "SELECT ")
  {
    var r := SelectQuery(q, s, parameterize);
    if r.Ok? {
      var kw := "SELECT ";
      var t1 := kw + SelectList(s.fieldNames);
      var t2 := t1 + AppendFroms(Elements(q.froms));
      var t3 := t2 + InnerJoins(Elements(q.innerJoins));
      var t4 := t3 + WhereText(Elements(q.wheres), parameterize, 0);
      var t5 := t4 + OrderByClause(Elements(q.orderBys));
      var t6 := t5 + LimitClause(q.limit);
      assert r.value.text == t6 + ";";
      PrefixGrows(kw, kw, SelectList(s.fieldNames));
      PrefixGrows(kw, t1, AppendFroms(Elements(q.froms)));
      PrefixGrows(kw, t2, InnerJoins(Elements(q.innerJoins)));
      PrefixGrows(kw, t3, WhereText(Elements(q.wheres), parameterize, 0));
      PrefixGrows(kw, t4, OrderByClause(Elements(q.orderBys)));
      PrefixGrows(kw, t5, LimitClause(q.limit));
      PrefixGrows(kw, t6, ";");
    }
  }

  lemma InsertFramed(q: Query, i: InsertIntoElement, parameterize: bool)
    ensures InsertQuery(q, i, parameterize).Ok? ==> Framed(InsertQuery(q, i, parameterize).value.text, "INSERT INTO ")
  {
    var r := InsertQuery(q, i, parameterize);
    if r.Ok? {
      var kw := "INSERT INTO ";
      var values := Elements(q.fieldValues);
      var cols := Strings.Join(", ", ColumnNames(values));
      var tokens := Strings.Join(", ", ValueTokens(FieldValues(values), parameterize, 0));
      var t1 := kw + Backtick(i.tableName);
      var t2 := t1 + " (";
      var t3 := t2 + cols;
      var t4 := t3 + ") VALUES (";
      var t5 := t4 + tokens;
      var t6 := t5 + ") ";
      assert r.value.text == t6 + ";";
      PrefixGrows(kw, kw, Backtick(i.tableName));
      PrefixGrows(kw, t1, " (");
      PrefixGrows(kw, t2, cols);
      PrefixGrows(kw, t3, ") VALUES (");
      PrefixGrows(kw, t4, tokens);
      PrefixGrows(kw, t5, ") ");
      PrefixGrows(kw, t6, ";");
    }
  }

  lemma DeleteFramed(q: Query, parameterize: bool)
    ensures DeleteQuery(q, parameterize).Ok? ==> Framed(DeleteQuery(q, parameterize).value.text, "DELETE FROM ")
  {
    var r := DeleteQuery(q, parameterize);
    if r.Ok? {
      var froms := Elements(q.froms);
      var kw := "DELETE FROM ";
      var tables := if |froms| == 0 then "" else Strings.Join(", ", seq(|froms|, k requires 0 <= k < |froms| => FromItem(froms[k]))) + " ";
      var t1 := "DELETE " + AppendFroms(froms);
      assert t1 == ("DELETE " + "FROM ") + tables;
      DeleteKeyword();
      PrefixGrows(kw, kw, tables);
      var t2 := t1 + WhereText(Elements(q.wheres), parameterize, 0);
      PrefixGrows(kw, t1, WhereText(Elements(q.wheres), parameterize, 0));
      assert r.value.text == t2 + ";";
      PrefixGrows(kw, t2, ";");
    }
  }

  lemma DeleteKeyword()
    ensures "DELETE " + "FROM " == "DELETE FROM "
  {
  }

  lemma UpdateFramed(q: Query, u: UpdateElement, parameterize: bool)
    ensures UpdateQuery(q, u, parameterize).Ok? ==> Framed(UpdateQuery(q, u, parameterize).value.text, "UPDATE ")
  {
    var r := UpdateQuery(q, u, parameterize);
    if r.Ok? {
      var kw := "UPDATE ";
      var assignments := Assignments(Elements(q.fieldValues), parameterize);
      var wheres := WhereText(Elements(q.wheres), parameterize, |Elements(q.fieldValues)|);
      var t1 := kw + Backtick(u.tableName);
      var t2 := t1 + " SET ";
      var t3 := t2 + assignments;
      var t4 := t3 + " ";
      var t5 := t4 + wheres;
      assert r.value.text == t5 + ";";
      PrefixGrows(kw, kw, Backtick(u.tableName));
      PrefixGrows(kw, t1, " SET ");
      PrefixGrows(kw, t2, assignments);
      PrefixGrows(kw, t3, " ");
      PrefixGrows(kw, t4, wheres);
      PrefixGrows(kw, t5, ";");
    }
  }

  lemma CreateTableHeadKeyword(create: CreateTableElement)
    ensures "CREATE TABLE " <= CreateTableHead(create)
  {
    var b := Backtick(create.tableName) + " ";
    if create.checkExistence {
      assert CreateTableHead(create) == "CREATE TABLE IF NOT EXISTS " + b;
      assert "CREATE TABLE IF NOT EXISTS " == "CREATE TABLE " + "IF NOT EXISTS ";
      PrefixGrows("CREATE TABLE ", "CREATE TABLE " + "IF NOT EXISTS ", b);
    } else {
      PrefixGrows("CREATE TABLE ", "CREATE TABLE ", b);
    }
  }

  lemma CreateTableFramed(create: CreateTableElement, fieldDefinitions: Option<seq<FieldDefinitionElement>>, d: Dialect)
    ensures CreateTableQuery(create, fieldDefinitions, d).Ok? ==> Framed(CreateTableQuery(create, fieldDefinitions, d).value, "CREATE TABLE ")
  {
    var r := CreateTableQuery(create, fieldDefinitions, d);
    if r.Ok? {
      var fields := Elements(fieldDefinitions);
      var types := ResolveTypes(fields, d.typeString).value;
      var kw := "CREATE TABLE ";
      var t1 := CreateTableHead(create) + "(";
      var t2 := t1 + ColumnsText(BaseColumns(fields, types), d.autoIncrementKeyword);
      var t3 := t2 + PrimaryKeyTrailer(fields);
      assert r.value == t3 + ") ;";
      CreateTableHeadKeyword(create);
      PrefixGrows(kw, CreateTableHead(create), "(");
      PrefixGrows(kw, t1, ColumnsText(BaseColumns(fields, types), d.autoIncrementKeyword));
      PrefixGrows(kw, t2, PrimaryKeyTrailer(fields));
      PrefixGrows(kw, t3, ") ;");
    }
  }

  /** A compiled statement starts with the keyword of its kind and ends with `;` (the
      shared CREATE TABLE rendering included; a dialect's own one is not covered). */
  lemma CompiledStatementShape(q: Query, d: Dialect, parameterize: bool)
    requires (q.createTable.Some? && NoStatement(q.(createTable := None))) ==> d.createTableOverride.None?
    ensures GetQueryString(q, d, parameterize).Ok? ==> Framed(GetQueryString(q, d, parameterize).value.text, LeadingKeyword(q))
  {
    if q.select.Some? {
      SelectFramed(q, q.select.value, parameterize);
    } else if q.insertInto.Some? {
      InsertFramed(q, q.insertInto.value, parameterize);
    } else if q.delete.Some? {
      DeleteFramed(q, parameterize);
    } else if q.update.Some? {
      UpdateFramed(q, q.update.value, parameterize);
    } else if q.dropTable.Some? {
      FramedConcat("DROP TABLE ", Backtick(q.dropTable.value.tableName) + " ");
    } else if q.createTable.Some? {
      CreateTableFramed(q.createTable.value, q.fieldDefinitions, d);
    }
  }

  // ---------------------------------------------------------------------------
  // CREATE TABLE

  /** `IF NOT EXISTS` follows `CREATE TABLE` exactly when the existence check is on. */
  lemma IfNotExistsExactlyWhenChecked(create: CreateTableElement)
    ensures "CREATE TABLE IF NOT EXISTS " <= CreateTableHead(create) <==> create.checkExistence
  {
    if !create.checkExistence {
      assert CreateTableHead(create)[13] == '`';
      assert "CREATE TABLE IF NOT EXISTS "[13] == 'I';
    }
  }

  /** The positions of the primary-key fields, in declaration order, counting the first
      field as position `start`. */
  function PrimaryIndices(fields: seq<FieldDefinitionElement>, start: nat): seq<nat>
    decreases |fields|
  {
    if |fields| == 0 then []
    else (if fields[0].options.primaryKey then [start] else []) + PrimaryIndices(fields[1..], start + 1)
  }

  /** The positions lie within the fields and pick out the key list. */
  predicate PicksKeyList(fields: seq<FieldDefinitionElement>, start: nat)
  {
    && |PrimaryFields(fields)| == |PrimaryIndices(fields, start)|
    && forall m :: 0 <= m < |PrimaryIndices(fields, start)| ==>
         start <= PrimaryIndices(fields, start)[m] < start + |fields|
         && PrimaryFields(fields)[m] == fields[PrimaryIndices(fields, start)[m] - start]
  }

  /** The step of `PrimaryIndicesPickKeyList` for a leading key field. */
  lemma PicksKeyListWithKey(fields: seq<FieldDefinitionElement>, start: nat)
    requires |fields| > 0 && fields[0].options.primaryKey
    requires PicksKeyList(fields[1..], start + 1)
    ensures PicksKeyList(fields, start)
  {
    var tail := fields[1..];
    var ti := PrimaryIndices(tail, start + 1);
    var pt := PrimaryFields(tail);
    var idx := PrimaryIndices(fields, start);
    var pf := PrimaryFields(fields);
    assert idx == [start] + ti;
    assert pf == [fields[0]] + pt;
    forall m | 1 <= m < |idx|
      ensures start <= idx[m] < start + |fields| && pf[m] == fields[idx[m] - start]
    {
      assert idx[m] == ti[m - 1];
      assert pf[m] == pt[m - 1];
      assert tail[ti[m - 1] - (start + 1)] == fields[ti[m - 1] - start];
    }
  }

  /** The step of `PrimaryIndicesPickKeyList` for a leading field that is not a key. */
  lemma PicksKeyListWithoutKey(fields: seq<FieldDefinitionElement>, start: nat)
    requires |fields| > 0 && !fields[0].options.primaryKey
    requires PicksKeyList(fields[1..], start + 1)
    ensures PicksKeyList(fields, start)
  {
    var tail := fields[1..];
    var ti := PrimaryIndices(tail, start + 1);
    var pt := PrimaryFields(tail);
    var idx := PrimaryIndices(fields, start);
    var pf := PrimaryFields(fields);
    assert idx == [] + ti;
    assert pf == [] + pt;
    forall m | 0 <= m < |idx|
      ensures start <= idx[m] < start + |fields| && pf[m] == fields[idx[m] - start]
    {
      var j := ti[m] - (start + 1);
      assert 0 <= j < |tail| && pt[m] == tail[j];
      assert tail[j] == fields[j + 1];
    }
  }

  lemma {:induction false} PrimaryIndicesPickKeyList(fields: seq<FieldDefinitionElement>, start: nat)
    ensures |PrimaryFields(fields)| == |PrimaryIndices(fields, start)|
    ensures forall m :: 0 <= m < |PrimaryIndices(fields, start)| ==>
              start <= PrimaryIndices(fields, start)[m] < start + |fields|
              && PrimaryFields(fields)[m] == fields[PrimaryIndices(fields, start)[m] - start]
    decreases |fields|
  {
    if |fields| > 0 {
      PrimaryIndicesPickKeyList(fields[1..], start + 1);
      if fields[0].options.primaryKey {
        PicksKeyListWithKey(fields, start);
      } else {
        PicksKeyListWithoutKey(fields, start);
      }
    }
  }

  /** The positions increase strictly. */
  lemma {:induction false} PrimaryIndicesIncrease(fields: seq<FieldDefinitionElement>, start: nat)
    ensures forall m :: 0 <= m < |PrimaryIndices(fields, start)| ==> start <= PrimaryIndices(fields, start)[m]
    ensures forall m, n :: 0 <= m < n < |PrimaryIndices(fields, start)| ==>
              PrimaryIndices(fields, start)[m] < PrimaryIndices(fields, start)[n]
    decreases |fields|
  {
    if |fields| > 0 {
      PrimaryIndicesIncrease(fields[1..], start + 1);
      var ti := PrimaryIndices(fields[1..], start + 1);
      if fields[0].options.primaryKey {
        assert PrimaryIndices(fields, start) == [start] + ti;
      } else {
        assert PrimaryIndices(fields, start) == ti;
      }
    }
  }

  /** A position is listed exactly when the field there is flagged `PrimaryKey`. */
  lemma {:induction false} PrimaryIndicesExactlyKeys(fields: seq<FieldDefinitionElement>, start: nat)
    ensures forall i :: start <= i < start + |fields| ==>
              (fields[i - start].options.primaryKey <==> i in PrimaryIndices(fields, start))
    ensures forall i :: i in PrimaryIndices(fields, start) ==> start <= i < start + |fields|
    decreases |fields|
  {
    if |fields| > 0 {
      var tail := fields[1..];
      PrimaryIndicesExactlyKeys(tail, start + 1);
      var headIdx: seq<nat> := if fields[0].options.primaryKey then [start] else [];
      assert PrimaryIndices(fields, start) == headIdx + PrimaryIndices(tail, start + 1);
      forall i | start < i < start + |fields|
        ensures fields[i - start].options.primaryKey <==> i in PrimaryIndices(fields, start)
      {
        assert fields[i - start] == tail[i - (start + 1)];
      }
    }
  }

  /** The trailing key list names the primary-key fields in declaration order: it picks
      the fields at strictly increasing positions, exactly those flagged `PrimaryKey`. */
  lemma PrimaryFieldsInDeclarationOrder(fields: seq<FieldDefinitionElement>)
    ensures var idx := PrimaryIndices(fields, 0);
      && |PrimaryFields(fields)| == |idx|
      && (forall m :: 0 <= m < |idx| ==> idx[m] < |fields| && PrimaryFields(fields)[m] == fields[idx[m]])
      && (forall m, n :: 0 <= m < n < |idx| ==> idx[m] < idx[n])
      && (forall i :: 0 <= i < |fields| ==> (fields[i].options.primaryKey <==> i in idx))
  {
    PrimaryIndicesPickKeyList(fields, 0);
    PrimaryIndicesIncrease(fields, 0);
    PrimaryIndicesExactlyKeys(fields, 0);
  }
  /** The quoted names of the fields at the given positions, in that order. */
  function QuotedNamesAt(fields: seq<FieldDefinitionElement>, idx: seq<nat>): seq<string>
    requires forall m :: 0 <= m < |idx| ==> idx[m] < |fields|
  {
    seq(|idx|, m requires 0 <= m < |idx| => QuoteFieldName(fields[idx[m]].name))
  }

  /** With several keys, the trailer lists the quoted names of the fields at the key
      positions, in declaration order, between `, PRIMARY KEY (` and `)`. */
  lemma PrimaryKeyTrailerListsKeys(fields: seq<FieldDefinitionElement>)
    ensures var idx := PrimaryIndices(fields, 0);
      && (forall m :: 0 <= m < |idx| ==> idx[m] < |fields|)
      && (|idx| > 1 ==> PrimaryKeyTrailer(fields) == ", PRIMARY KEY (" + Strings.Join(", ", QuotedNamesAt(fields, idx)) + ")")
      && (|idx| <= 1 ==> PrimaryKeyTrailer(fields) == "")
  {
    PrimaryIndicesPickKeyList(fields, 0);
    var idx := PrimaryIndices(fields, 0);
    var primary := PrimaryFields(fields);
    var listed := seq(|primary|, k requires 0 <= k < |primary| => QuoteFieldName(primary[k].name));
    assert listed == QuotedNamesAt(fields, idx);
  }


  /** Every primary-key field is declared primary exactly once: inline while it is the
      only one, in the trailing key list once there are several. Other fields get
      neither. */
  lemma PrimaryKeyDeclaredOnce(fields: seq<FieldDefinitionElement>, types: seq<string>, k: nat)
    requires |types| == |fields| && k < |fields|
    ensures fields[k].options.primaryKey ==>
              (BaseColumns(fields, types)[k].primaryKey <==> PrimaryKeyTrailer(fields) == "")
              && k in PrimaryIndices(fields, 0)
    ensures !fields[k].options.primaryKey ==>
              !BaseColumns(fields, types)[k].primaryKey && k !in PrimaryIndices(fields, 0)
  {
    PrimaryIndicesExactlyKeys(fields, 0);
  }

  /** On a column that is both a key and auto-incremented the keyword comes right after
      ` PRIMARY KEY`, at the very end of the definition. */
  lemma AutoIncrementFollowsPrimaryKey(c: ColumnDefinition, keyword: string)
    requires c.primaryKey && c.autoIncrement
    ensures var text := ColumnText(c, keyword);
            |text| >= 13 + |keyword| && text[|text| - 13 - |keyword|..] == " PRIMARY KEY " + keyword
  {
    var text := ColumnText(c, keyword);
    var prefix := QuoteFieldName(c.name) + " " + c.typeName + (if c.notNull then " NOT NULL" else "");
    assert text == prefix + (" PRIMARY KEY " + keyword);
  }
}
