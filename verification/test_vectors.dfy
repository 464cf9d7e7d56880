/**
  Clauses and parameters the repository's own test suites expect, derived from the model.
 */
module TestVectors {
  import opened Results
  import opened Values
  import opened QueryModel
  import opened Parameters
  import Strings
  import SqlBuilder
  import MySqlBuilder
  import SqliteBuilder

  lemma QuoteTestId()
    ensures SqlBuilder.QuoteFieldName("testId") == "`testId`"
  {
    assert '.' !in "testId";
  }

  lemma FirstParameterNames()
    ensures ParameterName(0) == "@p0" && ParameterName(1) == "@p1"
  {
    assert Strings.NatToString(0) == "0";
    assert Strings.NatToString(1) == "1";
  }

  lemma FirstComparisonText()
    ensures "`testId`" + " " + ">=" + " " + "@p0" + " " == "`testId` >= @p0 "
  {
  }

  lemma SecondComparisonText()
    ensures "`testId`" + " " + "<=" + " " + "@p1" + " " == "`testId` <= @p1 "
  {
  }

  lemma ClauseText()
    ensures "WHERE " + ("`testId` >= @p0 " + "AND " + "`testId` <= @p1 ") == "WHERE `testId` >= @p0 AND `testId` <= @p1 "
  {
  }

  /** The test `SelectWhereParameters` (MySQL), text: the WHERE clause of the two
      comparisons compiled with parameters. */
  lemma TwoParameterWhere(w1: WhereElement, w2: WhereElement)
    requires w1 == WhereElement("testId", GreaterEqualThen, Int(10))
    requires w2 == WhereElement("testId", LowerEqualThen, Int(20))
    ensures MySqlBuilder.WhereText([w1, w2], true, 0) == "WHERE `testId` >= @p0 AND `testId` <= @p1 "
  {
    QuoteTestId();
    FirstParameterNames();
    var a, b := "`testId` >= @p0 ", "`testId` <= @p1 ";
    assert MySqlBuilder.WhereItem(w1, ParameterName(0)) == a by { FirstComparisonText(); }
    assert MySqlBuilder.WhereItem(w2, ParameterName(1)) == b by { SecondComparisonText(); }
    var values := SqlBuilder.WhereValues([w1, w2]);
    assert values == [w1.value, w2.value];
    var tokens := MySqlBuilder.ValueTokens(values, true, 0);
    assert tokens == [ParameterName(0), ParameterName(1)];
    var items := MySqlBuilder.WhereItems([w1, w2], tokens);
    assert items == [a, b];
    assert Strings.Join("AND ", items) == a + "AND " + b by {
      assert items[1..] == [b];
    }
    ClauseText();
  }

  lemma FirstAliasedItem()
    ensures SqlBuilder.FromItem(FromElement("test1", Some("t1"))) == "`test1` AS `t1`"
  {
  }

  lemma SecondAliasedItem()
    ensures SqlBuilder.FromItem(FromElement("test2", Some("t2"))) == "`test2` AS `t2`"
  {
  }

  /** Two FROM items are joined by `, ` between `FROM ` and a space. */
  lemma TwoFromItems(f1: FromElement, f2: FromElement)
    ensures SqlBuilder.AppendFroms([f1, f2]) == "FROM " + (SqlBuilder.FromItem(f1) + ", " + SqlBuilder.FromItem(f2)) + " "
  {
    var froms := [f1, f2];
    var items := seq(|froms|, k requires 0 <= k < |froms| => SqlBuilder.FromItem(froms[k]));
    assert items[0] == SqlBuilder.FromItem(f1);
    assert items[1..] == [SqlBuilder.FromItem(f2)];
    assert Strings.Join(", ", items) == SqlBuilder.FromItem(f1) + ", " + SqlBuilder.FromItem(f2);
  }

  lemma AliasedClauseText()
    ensures "FROM " + ("`test1` AS `t1`" + ", " + "`test2` AS `t2`") + " " == "FROM `test1` AS `t1`, `test2` AS `t2` "
  {
  }

  /** The test `SelectFrom` (MySQL), last query: two aliased tables give
      `FROM `test1` AS `t1`, `test2` AS `t2` `. */
  lemma TwoAliasedTables(f1: FromElement, f2: FromElement)
    requires f1 == FromElement("test1", Some("t1"))
    requires f2 == FromElement("test2", Some("t2"))
    ensures SqlBuilder.AppendFroms([f1, f2]) == "FROM `test1` AS `t1`, `test2` AS `t2` "
  {
    var a, b := SqlBuilder.FromItem(f1), SqlBuilder.FromItem(f2);
    TwoFromItems(f1, f2);
    assert a == "`test1` AS `t1`" by { FirstAliasedItem(); }
    assert b == "`test2` AS `t2`" by { SecondAliasedItem(); }
    AliasedClauseText();
  }

  /** The test `SelectFrom` (MySQL), first query: one table without alias gives
      `FROM `test` `. */
  lemma OneTable(f: FromElement)
    requires f == FromElement("test", None)
    ensures SqlBuilder.AppendFroms([f]) == "FROM `test` "
  {
  }

  /** The test `SelectLimit` (MySQL): `Limit(10)` renders as `LIMIT 0, 10 `. */
  lemma LimitTen(q: Query)
    ensures SqlBuilder.LimitClause(Limit(q, 10).limit) == "LIMIT 0, 10 "
  {
  }

  // ---------------------------------------------------------------------------
  // Whole statements of the MySQL tests

  lemma TrimStar()
    ensures Strings.Trim("*") == "*"
  {
    assert !Strings.IsWhiteSpace('*');
    assert Strings.LeadingWhiteSpace("*") == 0;
    assert Strings.TrailingWhiteSpace("*") == 0;
  }

  /** `Query.Select("*").From("test")`: SELECT `*`, one FROM element, nothing else. */
  lemma StarFromTestParts(q: Query)
    requires q == From(Select(["*"]), "test")
    ensures q.select == Some(SelectElement(["*"]))
    ensures Elements(q.froms) == [FromElement("test", None)]
    ensures q.wheres.None? && q.innerJoins.None? && q.orderBys.None? && q.limit.None?
  {
    TrimStar();
    assert Select(["*"]).select.value.fieldNames == ["*"];
  }

  lemma StarList()
    ensures SqlBuilder.SelectList(["*"]) == "* "
  {
    assert SqlBuilder.QuoteFieldName("*") == "*";
    var items := seq(1, k requires 0 <= k < 1 => SqlBuilder.QuoteFieldName(["*"][k]));
    assert items == ["*"];
  }

  /** A SELECT of `*` from `test` with nothing but the given tail between FROM and `;`. */
  lemma StarFromTestText(q: Query, whereText: string, limitText: string)
    requires q.select == Some(SelectElement(["*"]))
    requires Elements(q.froms) == [FromElement("test", None)]
    requires q.innerJoins.None? && q.orderBys.None?
    requires MySqlBuilder.WhereText(Elements(q.wheres), false, 0) == whereText
    requires SqlBuilder.LimitClause(q.limit) == limitText
    ensures MySqlBuilder.GetQueryString(q, false)
            == Ok(SqlBuilder.Compiled("SELECT " + "* " + "FROM `test` " + (whereText + limitText) + ";", []))
  {
    var r := MySqlBuilder.SelectQuery(q, q.select.value, false);
    assert MySqlBuilder.GetQueryString(q, false) == r;
    var list, froms := SqlBuilder.SelectList(["*"]), SqlBuilder.AppendFroms([FromElement("test", None)]);
    var joins, orders := SqlBuilder.InnerJoins([]), SqlBuilder.OrderByClause([]);
    var wheres, limit := MySqlBuilder.WhereText(Elements(q.wheres), false, 0), SqlBuilder.LimitClause(q.limit);
    assert list == "* " by { StarList(); }
    assert froms == "FROM `test` " by { OneTable(FromElement("test", None)); }
    assert joins == "" && orders == "";
    assert r.Ok? && r.value.parameters == [];
    assert r.value.text == "SELECT " + list + froms + joins + wheres + orders + limit + ";";
    StarTextShape(list, froms, joins, wheres, orders, limit);
  }

  /** Empty join and ORDER BY texts drop out of the concatenation. */
  lemma StarTextShape(list: string, froms: string, joins: string, wheres: string, orders: string, limit: string)
    requires joins == "" && orders == ""
    ensures "SELECT " + list + froms + joins + wheres + orders + limit + ";" == "SELECT " + list + froms + (wheres + limit) + ";"
  {
    assert "SELECT " + list + froms + joins + wheres + orders + limit == "SELECT " + list + froms + wheres + limit;
  }

  lemma NoWheres(q: Query)
    requires q.wheres.None?
    ensures MySqlBuilder.WhereText(Elements(q.wheres), false, 0) == ""
  {
  }

  lemma NoLimit(q: Query)
    requires q.limit.None?
    ensures SqlBuilder.LimitClause(q.limit) == ""
  {
  }

  lemma SelectStarText()
    ensures "SELECT " + "* " + "FROM `test` " + ("" + "") + ";" == "SELECT * FROM `test` ;"
  {
  }

  /** The test `SelectFrom` (MySQL), first query: `Query.Select("*").From("test")`
      compiles to `SELECT * FROM `test` ;` with no parameters. */
  lemma SelectStarFromTest(q: Query)
    requires q == From(Select(["*"]), "test")
    ensures MySqlBuilder.GetQueryString(q, false) == Ok(SqlBuilder.Compiled("SELECT * FROM `test` ;", []))
  {
    StarFromTestParts(q);
    NoWheres(q);
    NoLimit(q);
    StarFromTestText(q, "", "");
    SelectStarText();
  }

  lemma LimitStatementText()
    ensures "SELECT " + "* " + "FROM `test` " + ("" + "LIMIT 0, 10 ") + ";" == "SELECT * FROM `test` LIMIT 0, 10 ;"
  {
  }

  /** `Query.Select("*").From("test").Limit(10)`: the SELECT of `*` from `test` with a LIMIT. */
  lemma StarLimitParts(q: Query)
    requires q == Limit(From(Select(["*"]), "test"), 10)
    ensures q.select == Some(SelectElement(["*"]))
    ensures Elements(q.froms) == [FromElement("test", None)]
    ensures q.wheres.None? && q.innerJoins.None? && q.orderBys.None?
    ensures SqlBuilder.LimitClause(q.limit) == "LIMIT 0, 10 "
  {
    var q1 := From(Select(["*"]), "test");
    StarFromTestParts(q1);
    LimitTen(q1);
  }

  /** The test `SelectLimit` (MySQL), first query: `.Limit(10)` compiles to
      `SELECT * FROM `test` LIMIT 0, 10 ;`. */
  lemma SelectStarLimitTen(q: Query)
    requires q == Limit(From(Select(["*"]), "test"), 10)
    ensures MySqlBuilder.GetQueryString(q, false) == Ok(SqlBuilder.Compiled("SELECT * FROM `test` LIMIT 0, 10 ;", []))
  {
    StarLimitParts(q);
    NoWheres(q);
    StarFromTestText(q, "", "LIMIT 0, 10 ");
    LimitStatementText();
  }

  lemma FortyTwo()
    ensures MySqlBuilder.InlineLiteral(Int(42)) == "42"
  {
    assert Strings.NatToString(4) == "4";
    assert Strings.NatToString(42) == Strings.NatToString(4) + [Strings.DigitChar(2)];
  }

  lemma NotEqualItemText()
    ensures "`answer`" + " " + "!=" + " " + "42" + " " == "`answer` != 42 "
  {
  }

  /** The WHERE clause of `.Where("answer", Is.NotEqual, 42)`, inline. */
  lemma NotEqualWhere(w: WhereElement)
    requires w == WhereElement("answer", NotEqual, Int(42))
    ensures MySqlBuilder.WhereText([w], false, 0) == "WHERE " + "`answer` != 42 "
  {
    assert '.' !in "answer";
    assert SqlBuilder.QuoteFieldName("answer") == "`answer`";
    FortyTwo();
    var values := SqlBuilder.WhereValues([w]);
    assert values == [Int(42)];
    var tokens := MySqlBuilder.ValueTokens(values, false, 0);
    assert tokens == ["42"];
    var items := MySqlBuilder.WhereItems([w], tokens);
    assert items[0] == "`answer` != 42 " by { NotEqualItemText(); }
    assert items == ["`answer` != 42 "];
  }

  lemma NotEqualStatementText(whereText: string)
    requires whereText == "WHERE " + "`answer` != 42 "
    ensures "SELECT " + "* " + "FROM `test` " + (whereText + "") + ";"
            == "SELECT * FROM `test` WHERE `answer` != 42 ;"
  {
  }

  /** `Query.Select("*").From("test").Where("answer", Is.NotEqual, 42)`. */
  lemma StarNotEqualParts(q: Query)
    requires q == Where(From(Select(["*"]), "test"), "answer", NotEqual, Int(42))
    ensures q.select == Some(SelectElement(["*"]))
    ensures Elements(q.froms) == [FromElement("test", None)]
    ensures q.innerJoins.None? && q.orderBys.None? && q.limit.None?
    ensures Elements(q.wheres) == [WhereElement("answer", NotEqual, Int(42))]
  {
    StarFromTestParts(From(Select(["*"]), "test"));
  }

  /** The test `SelectFromWhere` (MySQL), `Is.NotEqual`: the MySQL switch's `NotEqual`
      case gives `SELECT * FROM `test` WHERE `answer` != 42 ;`. */
  lemma SelectWhereNotEqual(q: Query)
    requires q == Where(From(Select(["*"]), "test"), "answer", NotEqual, Int(42))
    ensures MySqlBuilder.GetQueryString(q, false) == Ok(SqlBuilder.Compiled("SELECT * FROM `test` WHERE `answer` != 42 ;", []))
  {
    StarNotEqualParts(q);
    var w := WhereElement("answer", NotEqual, Int(42));
    var whereText := MySqlBuilder.WhereText([w], false, 0);
    NotEqualWhere(w);
    NoLimit(q);
    StarFromTestText(q, whereText, "");
    NotEqualStatementText(whereText);
  }

  /** The test `SelectWhereParameters` (MySQL), parameters: whatever else the SELECT
      holds, its two comparisons bind `@p0` to 10 and `@p1` to 20, in that order. */
  lemma TwoParametersBound(q: Query)
    requires q.select.Some? && |Elements(q.froms)| > 0
    requires Elements(q.wheres) == [WhereElement("testId", GreaterEqualThen, Int(10)), WhereElement("testId", LowerEqualThen, Int(20))]
    ensures MySqlBuilder.GetQueryString(q, true).Ok?
    ensures MySqlBuilder.GetQueryString(q, true).value.parameters == [Parameter("@p0", Int(10)), Parameter("@p1", Int(20))]
  {
    FirstParameterNames();
    assert SqlBuilder.WhereValues(Elements(q.wheres)) == [Int(10), Int(20)];
  }

  // ---------------------------------------------------------------------------
  // The shared CREATE TABLE rendering of the SQLite test with two primary keys

  /** The SQLite column types with the shared layout, without the SQLite override. */
  const SharedSqlite: SqlBuilder.Dialect := SqlBuilder.Dialect(SqliteBuilder.TypeString, SqliteBuilder.AutoIncrementKeyword, None)

  /** `.Field<int>(name, FieldOptions.PrimaryKey)`. */
  function IntKey(name: string): FieldDefinitionElement
  {
    FieldDefinitionElement(name, Int32Type, 0, FieldOptions(false, false, true))
  }

  lemma Int32IsInteger(length: int32)
    ensures SqliteBuilder.TypeString(Int32Type, length) == Ok("integer")
  {
  }

  /** One more resolved field in front of resolved ones. */
  lemma ResolveCons(fields: seq<FieldDefinitionElement>, typeString: (ClrType, int32) -> Result<string>, head: string, tail: seq<string>)
    requires |fields| > 0 && typeString(fields[0].fieldType, fields[0].length) == Ok(head)
    requires SqlBuilder.ResolveTypes(fields[1..], typeString) == Ok(tail)
    ensures SqlBuilder.ResolveTypes(fields, typeString) == Ok([head] + tail)
  {
  }

  /** Two `int` fields resolve to two SQLite `integer` columns. */
  lemma BothIntegers(f1: FieldDefinitionElement, f2: FieldDefinitionElement)
    requires f1.fieldType == Int32Type && f2.fieldType == Int32Type
    ensures SqlBuilder.ResolveTypes([f1, f2], SqliteBuilder.TypeString) == Ok(["integer", "integer"])
  {
    Int32IsInteger(f1.length);
    Int32IsInteger(f2.length);
    var fields := [f1, f2];
    assert fields[1..] == [f2];
    assert [f2][1..] == [];
    ResolveCons([f2], SqliteBuilder.TypeString, "integer", []);
    assert ["integer"] + [] == ["integer"];
    ResolveCons(fields, SqliteBuilder.TypeString, "integer", ["integer"]);
    assert ["integer"] + ["integer"] == ["integer", "integer"];
  }

  lemma BothPrimary(f1: FieldDefinitionElement, f2: FieldDefinitionElement)
    requires f1.options.primaryKey && f2.options.primaryKey
    ensures SqlBuilder.PrimaryFields([f1, f2]) == [f1, f2]
  {
    var fields := [f1, f2];
    assert fields[1..] == [f2];
    assert fields[1..][1..] == [];
  }

  /** A name without a dot is quoted whole. */
  lemma QuotePlain(name: string)
    requires name != "*" && forall k :: 0 <= k < |name| ==> name[k] != '.'
    ensures SqlBuilder.QuoteFieldName(name) == SqlBuilder.Backtick(name)
  {
  }

  /** Two texts joined by `, `. */
  lemma JoinTwo(a: string, b: string)
    ensures Strings.Join(", ", [a, b]) == a + ", " + b
  {
    assert [a, b][1..] == [b];
  }

  /** A plain `int` primary key, one of several: `name integer`, nothing inline. */
  predicate PlainIntKey(f: FieldDefinitionElement)
  {
    && f.fieldType == Int32Type && f.options == FieldOptions(false, false, true)
    && f.name != "*" && forall k :: 0 <= k < |f.name| ==> f.name[k] != '.'
  }

  /** Two column texts joined by `, `. */
  lemma TwoColumnsText(c1: SqlBuilder.ColumnDefinition, c2: SqlBuilder.ColumnDefinition, kw: string)
    ensures SqlBuilder.ColumnsText([c1, c2], kw) == SqlBuilder.ColumnText(c1, kw) + ", " + SqlBuilder.ColumnText(c2, kw)
  {
    var cols := [c1, c2];
    var texts := seq(|cols|, k requires 0 <= k < |cols| => SqlBuilder.ColumnText(cols[k], kw));
    assert texts == [SqlBuilder.ColumnText(c1, kw), SqlBuilder.ColumnText(c2, kw)];
    JoinTwo(SqlBuilder.ColumnText(c1, kw), SqlBuilder.ColumnText(c2, kw));
  }

  /** An `integer` column with no flags is its quoted name and its type. */
  lemma PlainIntegerColumn(c: SqlBuilder.ColumnDefinition, kw: string)
    requires c.typeName == "integer" && !c.notNull && !c.primaryKey && !c.autoIncrement
    requires c.name != "*" && forall k :: 0 <= k < |c.name| ==> c.name[k] != '.'
    ensures SqlBuilder.ColumnText(c, kw) == SqlBuilder.Backtick(c.name) + " integer"
  {
    QuotePlain(c.name);
  }

  /** With two primary keys neither column carries an inline PRIMARY KEY. */
  lemma KeyColumns(f1: FieldDefinitionElement, f2: FieldDefinitionElement)
    requires PlainIntKey(f1) && PlainIntKey(f2)
    ensures SqlBuilder.BaseColumns([f1, f2], ["integer", "integer"])
            == [SqlBuilder.ColumnDefinition(f1.name, "integer", false, false, false),
                SqlBuilder.ColumnDefinition(f2.name, "integer", false, false, false)]
  {
    BothPrimary(f1, f2);
  }

  lemma KeyColumnsText(f1: FieldDefinitionElement, f2: FieldDefinitionElement)
    requires PlainIntKey(f1) && PlainIntKey(f2)
    ensures SqlBuilder.ColumnsText(SqlBuilder.BaseColumns([f1, f2], ["integer", "integer"]), SqliteBuilder.AutoIncrementKeyword)
            == SqlBuilder.Backtick(f1.name) + " integer" + ", " + (SqlBuilder.Backtick(f2.name) + " integer")
  {
    var c1 := SqlBuilder.ColumnDefinition(f1.name, "integer", false, false, false);
    var c2 := SqlBuilder.ColumnDefinition(f2.name, "integer", false, false, false);
    var kw := SqliteBuilder.AutoIncrementKeyword;
    KeyColumns(f1, f2);
    TwoColumnsText(c1, c2, kw);
    PlainIntegerColumn(c1, kw);
    PlainIntegerColumn(c2, kw);
  }

  /** Both primary keys are listed in the trailer. */
  lemma KeyTrailer(f1: FieldDefinitionElement, f2: FieldDefinitionElement)
    requires PlainIntKey(f1) && PlainIntKey(f2)
    ensures SqlBuilder.PrimaryKeyTrailer([f1, f2])
            == ", PRIMARY KEY (" + (SqlBuilder.Backtick(f1.name) + ", " + SqlBuilder.Backtick(f2.name)) + ")"
  {
    BothPrimary(f1, f2);
    QuotePlain(f1.name);
    QuotePlain(f2.name);
    var primary := [f1, f2];
    var a, b := SqlBuilder.Backtick(f1.name), SqlBuilder.Backtick(f2.name);
    var names := seq(|primary|, k requires 0 <= k < |primary| => SqlBuilder.QuoteFieldName(primary[k].name));
    assert names == [a, b];
    JoinTwo(a, b);
  }

  lemma FoobarKeyNames(f1: FieldDefinitionElement, f2: FieldDefinitionElement)
    requires f1 == IntKey("foobarId1") && f2 == IntKey("foobarId2")
    ensures PlainIntKey(f1) && PlainIntKey(f2)
  {
  }

  lemma FoobarColumnText(n: string, quoted: string)
    requires (n == "foobarId1" && quoted == "`foobarId1` integer") || (n == "foobarId2" && quoted == "`foobarId2` integer")
    ensures SqlBuilder.Backtick(n) + " integer" == quoted
  {
  }

  lemma FoobarColumnsText(n1: string, n2: string)
    requires n1 == "foobarId1" && n2 == "foobarId2"
    ensures SqlBuilder.Backtick(n1) + " integer" + ", " + (SqlBuilder.Backtick(n2) + " integer")
            == "`foobarId1` integer, `foobarId2` integer"
  {
    var a, b := "`foobarId1` integer", "`foobarId2` integer";
    FoobarColumnText(n1, a);
    FoobarColumnText(n2, b);
    assert a + ", " + b == "`foobarId1` integer, `foobarId2` integer";
  }

  lemma FoobarTrailerText(n1: string, n2: string)
    requires n1 == "foobarId1" && n2 == "foobarId2"
    ensures ", PRIMARY KEY (" + (SqlBuilder.Backtick(n1) + ", " + SqlBuilder.Backtick(n2)) + ")"
            == ", PRIMARY KEY (`foobarId1`, `foobarId2`)"
  {
    assert SqlBuilder.Backtick(n1) + ", " + SqlBuilder.Backtick(n2) == "`foobarId1`, `foobarId2`";
  }

  lemma FoobarHead(create: CreateTableElement)
    requires create == CreateTableElement("foobar", false)
    ensures SqlBuilder.CreateTableHead(create) == "CREATE TABLE `foobar` "
  {
  }

  /** The test `CreateTablePrimaryKey` (SQLite), second query, through the shared
      rendering: two integer primary keys give no inline PRIMARY KEY and a composite-key
      trailer, `CREATE TABLE `foobar` (`foobarId1` integer, `foobarId2` integer,
      PRIMARY KEY (`foobarId1`, `foobarId2`)) ;`, written below in the pieces it is made of. */
  lemma SharedTwoPrimaryKeys(create: CreateTableElement, f1: FieldDefinitionElement, f2: FieldDefinitionElement)
    requires create == CreateTableElement("foobar", false)
    requires f1 == IntKey("foobarId1") && f2 == IntKey("foobarId2")
    ensures SqlBuilder.CreateTableQuery(create, Some([f1, f2]), SharedSqlite)
            == Ok("CREATE TABLE `foobar` " + "(" + "`foobarId1` integer, `foobarId2` integer"
                  + ", PRIMARY KEY (`foobarId1`, `foobarId2`)" + ") ;")
  {
    BothIntegers(f1, f2);
    var head := SqlBuilder.CreateTableHead(create);
    var columns := SqlBuilder.ColumnsText(SqlBuilder.BaseColumns([f1, f2], ["integer", "integer"]), SqliteBuilder.AutoIncrementKeyword);
    var trailer := SqlBuilder.PrimaryKeyTrailer([f1, f2]);
    assert SqlBuilder.CreateTableQuery(create, Some([f1, f2]), SharedSqlite) == Ok(head + "(" + columns + trailer + ") ;");
    FoobarKeyNames(f1, f2);
    FoobarHead(create);
    KeyColumnsText(f1, f2);
    FoobarColumnsText(f1.name, f2.name);
    KeyTrailer(f1, f2);
    FoobarTrailerText(f1.name, f2.name);
  }

  /** The override without key definitions: no column carries PRIMARY KEY. */
  lemma OverrideColumns(f1: FieldDefinitionElement, f2: FieldDefinitionElement)
    requires PlainIntKey(f1) && PlainIntKey(f2)
    ensures SqliteBuilder.Columns([f1, f2], ["integer", "integer"], None)
            == [SqlBuilder.ColumnDefinition(f1.name, "integer", false, false, false),
                SqlBuilder.ColumnDefinition(f2.name, "integer", false, false, false)]
  {
  }

  lemma OverrideColumnsText(f1: FieldDefinitionElement, f2: FieldDefinitionElement)
    requires PlainIntKey(f1) && PlainIntKey(f2)
    ensures SqlBuilder.ColumnsText(SqliteBuilder.Columns([f1, f2], ["integer", "integer"], None), SqliteBuilder.AutoIncrementKeyword)
            == SqlBuilder.Backtick(f1.name) + " integer" + ", " + (SqlBuilder.Backtick(f2.name) + " integer")
  {
    var c1 := SqlBuilder.ColumnDefinition(f1.name, "integer", false, false, false);
    var c2 := SqlBuilder.ColumnDefinition(f2.name, "integer", false, false, false);
    var kw := SqliteBuilder.AutoIncrementKeyword;
    OverrideColumns(f1, f2);
    TwoColumnsText(c1, c2, kw);
    PlainIntegerColumn(c1, kw);
    PlainIntegerColumn(c2, kw);
  }

  /** The same query through the SQLite override, which is what `SQLiteQueryBuilder`
      runs: the `PrimaryKey` flags are ignored and no key clause is written, so the
      text is `CREATE TABLE `foobar` (`foobarId1` integer, `foobarId2` integer) ;`,
      not the composite-key text the SQLite test expects. */
  lemma OverrideTwoPrimaryKeys(create: CreateTableElement, f1: FieldDefinitionElement, f2: FieldDefinitionElement)
    requires create == CreateTableElement("foobar", false)
    requires f1 == IntKey("foobarId1") && f2 == IntKey("foobarId2")
    ensures SqliteBuilder.CreateTableQuery(create, Some([f1, f2]), None)
            == Ok("CREATE TABLE `foobar` " + "(" + "`foobarId1` integer, `foobarId2` integer" + ") ;")
  {
    BothIntegers(f1, f2);
    var head := SqlBuilder.CreateTableHead(create);
    var columns := SqlBuilder.ColumnsText(SqliteBuilder.Columns([f1, f2], ["integer", "integer"], None), SqliteBuilder.AutoIncrementKeyword);
    assert SqliteBuilder.CreateTableQuery(create, Some([f1, f2]), None) == Ok(head + "(" + columns + ") ;");
    FoobarKeyNames(f1, f2);
    FoobarHead(create);
    OverrideColumnsText(f1, f2);
    FoobarColumnsText(f1.name, f2.name);
  }
}
