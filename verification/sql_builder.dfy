/**
  The dialect-agnostic statement compiler (AbstractQuery/SqlQueryBuilder.cs).

  `GetQueryString` clears the parameter table, dispatches on the statement kind and
  renders the statement. The abstract members a dialect implements (`GetTypeString`,
  `GetAutoIncrementString`) and the overridable CREATE TABLE rendering are passed in
  as a `Dialect` record; the parameter table is threaded through the call and returned
  with the text.
 */
module SqlBuilder {
  import opened Results
  import opened Values
  import opened QueryModel
  import opened Parameters
  import Strings

  /** A CREATE TABLE rendering that replaces the shared one. It sees the element and the
      field and key lists, which is all such an override reads. */
  type CreateTableOverride =
    (CreateTableElement, Option<seq<FieldDefinitionElement>>, Option<seq<KeyDefinitionElement>>) -> Result<string>

  /** What a concrete builder contributes: the column type names, the auto-increment
      keyword, and possibly its own CREATE TABLE rendering. */
  datatype Dialect = Dialect(
    typeString: (ClrType, int32) -> Result<string>,
    autoIncrementKeyword: string,
    createTableOverride: Option<CreateTableOverride>)

  /** The query text, and the parameters `GetParameters()` returns afterwards, in order. */
  datatype Compiled = Compiled(text: string, parameters: seq<Parameter>)

  // ---------------------------------------------------------------------------
  // Identifiers and values

  /** A table name wrapped in backticks, verbatim. */
  function Backtick(name: string): string
  {
    "`" + name + "`"
  }

  /** `QuoteFieldName`: `*` stays as it is; a name without a dot is wrapped in backticks;
      otherwise the name is split at its first dot and each side is wrapped. */
  function QuoteFieldName(fieldName: string): (r: string)
    ensures fieldName == "*" ==> r == "*"
    ensures fieldName != "*" && '.' !in fieldName ==> r == Backtick(fieldName)
    ensures fieldName != "*" && '.' in fieldName ==>
      exists i :: 0 <= i < |fieldName| && fieldName[i] == '.' && '.' !in fieldName[..i]
                  && r == Backtick(fieldName[..i]) + "." + Backtick(fieldName[i + 1..])
  {
    if fieldName == "*" then fieldName
    else
      var index := Strings.IndexOf(fieldName, '.');
      if index == -1 then Backtick(fieldName)
      else
        var r := Backtick(fieldName[..index]) + "." + Backtick(fieldName[index + 1..]);
        assert fieldName[index] == '.' && '.' !in fieldName[..index]
               && r == Backtick(fieldName[..index]) + "." + Backtick(fieldName[index + 1..]);
        r
  }

  /** `PrepareValue`'s inline branch: NULL, TRUE/FALSE, bare numbers, and everything else
      in double quotes with nothing inside escaped. */
  function InlineLiteral(v: Value): (r: string)
    ensures v.Null? ==> r == "NULL"
    ensures v.Bool? ==> r == (if v.b then "TRUE" else "FALSE")
    ensures IsNumeric(v) ==> r == Text(v)
    ensures v.Str? || v.Other? ==> r == "\"" + Text(v) + "\""
  {
    if v.Null? then "NULL"
    else if v.Bool? then
      var r := Strings.ToUpper(Text(v));
      assert r == (if v.b then "TRUE" else "FALSE");
      r
    else if v.Str? || !IsNumeric(v) then "\"" + Text(v) + "\""
    else Text(v)
  }

  /** `PrepareValue`: in parameterize mode the value is registered under the next
      placeholder, which is returned; otherwise it is rendered inline and the table
      is left alone. */
  function PrepareValue(v: Value, parameterize: bool, t: ParameterTable): (r: (string, ParameterTable))
    ensures parameterize ==> r.0 == ParameterName(t.count) && r.1.count == t.count + 1
    ensures parameterize && Numbered(t) ==> r.1.entries == t.entries + [Parameter(ParameterName(t.count), v)] && Numbered(r.1)
    ensures !parameterize ==> r == (InlineLiteral(v), t)
  {
    if parameterize then Register(t, v) else (InlineLiteral(v), t)
  }

  /** The text the value numbered `k` renders as. */
  function ValueToken(v: Value, parameterize: bool, k: nat): string
  {
    if parameterize then ParameterName(k) else InlineLiteral(v)
  }

  /** Tokens for `values[0]`, `values[1]`, ... numbered from `from`. */
  function ValueTokens(values: seq<Value>, parameterize: bool, from: nat): seq<string>
  {
    seq(|values|, k requires 0 <= k < |values| => ValueToken(values[k], parameterize, from + k))
  }

  /** `PrepareValue` applied to each value in turn. The k-th token is the k-th value's
      token numbered from the counter; in parameterize mode the values are added to the
      table in the same order, otherwise the table is unchanged. */
  function PrepareValues(values: seq<Value>, parameterize: bool, t: ParameterTable): (r: (seq<string>, ParameterTable))
    ensures r.0 == ValueTokens(values, parameterize, t.count)
    ensures r.1.count == t.count + (if parameterize then |values| else 0)
    ensures !parameterize ==> r.1 == t
    ensures Numbered(t) ==> Numbered(r.1)
    ensures Numbered(t) ==> r.1.entries == t.entries + (if parameterize then NumberedFrom(t.count, values) else [])
    decreases |values|
  {
    if |values| == 0 then ([], t)
    else
      var first := PrepareValue(values[0], parameterize, t);
      var rest := PrepareValues(values[1..], parameterize, first.1);
      ValueTokensCons(values, parameterize, t.count, first.1.count);
      NumberedFromCons(t.count, values);
      ([first.0] + rest.0, rest.1)
  }

  /** The first token is numbered `from`; the rest continue from the next counter. */
  lemma ValueTokensCons(values: seq<Value>, parameterize: bool, from: nat, next: nat)
    requires |values| > 0
    requires parameterize ==> next == from + 1
    ensures ValueTokens(values, parameterize, from)
            == [ValueToken(values[0], parameterize, from)] + ValueTokens(values[1..], parameterize, next)
  {
    var a := ValueTokens(values, parameterize, from);
    var tail := ValueTokens(values[1..], parameterize, next);
    var b := [ValueToken(values[0], parameterize, from)] + tail;
    forall k | 0 <= k < |a| ensures a[k] == b[k] {
      if k > 0 {
        assert values[1..][k - 1] == values[k];
        assert b[k] == tail[k - 1];
      }
    }
    assert a == b;
  }

  // ---------------------------------------------------------------------------
  // Clauses

  /** The SELECT field list: quoted names joined by `, `, then a space. */
  function SelectList(fieldNames: seq<string>): string
  {
    if |fieldNames| == 0 then ""
    else Strings.Join(", ", seq(|fieldNames|, k requires 0 <= k < |fieldNames| => QuoteFieldName(fieldNames[k]))) + " "
  }

  function FromItem(f: FromElement): string
  {
    match f.shortName
    case None => Backtick(f.tableName)
    case Some(alias) => Backtick(f.tableName) + " AS " + Backtick(alias)
  }

  /** `AppendFroms`: `FROM `, the tables joined by `, `, then a space. */
  function AppendFroms(froms: seq<FromElement>): string
  {
    "FROM " + (if |froms| == 0 then "" else Strings.Join(", ", seq(|froms|, k requires 0 <= k < |froms| => FromItem(froms[k]))) + " ")
  }

  function InnerJoinItem(j: InnerJoinElement): string
  {
    "INNER JOIN " + Backtick(j.tableName) + " ON " + QuoteFieldName(j.fieldName1) + " = " + QuoteFieldName(j.fieldName2) + " "
  }

  function InnerJoins(joins: seq<InnerJoinElement>): string
  {
    Strings.Concat(seq(|joins|, k requires 0 <= k < |joins| => InnerJoinItem(joins[k])))
  }

  /** The comparison operator tokens of the WHERE switch. */
  function OperatorToken(c: Comparison): string
  {
    match c
    case LowerThen => "<"
    case LowerEqualThen => "<="
    case GreaterThen => ">"
    case GreaterEqualThen => ">="
    case Equal => "="
    case NotEqual => "!="
    case Like => "LIKE"
    case NotLike => "NOT LIKE"
    case Is => "IS"
    case IsNot => "IS NOT"
  }

  /** One WHERE comparison: `field op value `. */
  function WhereItem(w: WhereElement, token: string): string
  {
    QuoteFieldName(w.fieldName) + " " + OperatorToken(w.comparison) + " " + token + " "
  }

  function WhereValues(wheres: seq<WhereElement>): (vs: seq<Value>)
    ensures |vs| == |wheres|
    ensures forall k :: 0 <= k < |wheres| ==> vs[k] == wheres[k].value
  {
    seq(|wheres|, k requires 0 <= k < |wheres| => wheres[k].value)
  }

  /** The comparisons rendered with the given value tokens. */
  function WhereItems(wheres: seq<WhereElement>, tokens: seq<string>): (items: seq<string>)
    requires |tokens| == |wheres|
    ensures |items| == |wheres|
  {
    seq(|wheres|, k requires 0 <= k < |wheres| => WhereItem(wheres[k], tokens[k]))
  }

  /** The WHERE clause whose values are numbered from `from`: nothing when there are no
      comparisons, else `WHERE ` and the comparisons joined by `AND `. */
  function WhereText(wheres: seq<WhereElement>, parameterize: bool, from: nat): string
  {
    if |wheres| == 0 then ""
    else "WHERE " + Strings.Join("AND ", WhereItems(wheres, ValueTokens(WhereValues(wheres), parameterize, from)))
  }

  /** Inline WHERE text does not depend on where the numbering starts. */
  lemma InlineWhereTextUnnumbered(wheres: seq<WhereElement>, a: nat, b: nat)
    ensures WhereText(wheres, false, a) == WhereText(wheres, false, b)
  {
    var values := WhereValues(wheres);
    var ta, tb := ValueTokens(values, false, a), ValueTokens(values, false, b);
    forall k | 0 <= k < |values| ensures ta[k] == tb[k] {
      assert ta[k] == ValueToken(values[k], false, a + k);
      assert tb[k] == ValueToken(values[k], false, b + k);
    }
    assert ta == tb;
  }

  /** `AppendWheres`: renders the comparisons in order, preparing each value as it goes. */
  function AppendWheres(wheres: seq<WhereElement>, parameterize: bool, t: ParameterTable): (r: (string, ParameterTable))
    ensures r.0 == WhereText(wheres, parameterize, t.count)
    ensures r.1.count == t.count + (if parameterize then |wheres| else 0)
    ensures !parameterize ==> r.1 == t
    ensures Numbered(t) ==> Numbered(r.1)
    ensures Numbered(t) ==> r.1.entries == t.entries + (if parameterize then NumberedFrom(t.count, WhereValues(wheres)) else [])
  {
    if |wheres| == 0 then ("", t)
    else
      var (tokens, t1) := PrepareValues(WhereValues(wheres), parameterize, t);
      ("WHERE " + Strings.Join("AND ", WhereItems(wheres, tokens)), t1)
  }

  function OrderByItem(o: OrderByElement): string
  {
    QuoteFieldName(o.fieldName) + (if o.direction == Ascending then " ASC" else " DESC")
  }

  function OrderByClause(orderBys: seq<OrderByElement>): string
  {
    if |orderBys| == 0 then ""
    else "ORDER BY " + Strings.Join(", ", seq(|orderBys|, k requires 0 <= k < |orderBys| => OrderByItem(orderBys[k]))) + " "
  }

  /** `LIMIT start, count `, the numbers verbatim. */
  function LimitClause(limit: Option<LimitElement>): string
  {
    match limit
    case None => ""
    case Some(l) => "LIMIT " + Strings.IntToString(l.start as int) + ", " + Strings.IntToString(l.count as int) + " "
  }

  // ---------------------------------------------------------------------------
  // Statements

  /** `GetSelectQueryString`: needs a FROM element; then SELECT, FROM, INNER JOIN*,
      WHERE, ORDER BY, LIMIT and `;` in that order. Only WHERE values are numbered. */
  function SelectQuery(q: Query, select: SelectElement, parameterize: bool): (r: Result<Compiled>)
    ensures r.Err? <==> |Elements(q.froms)| == 0
    ensures r.Err? ==> r.error == InvalidOperation("Expected 'From' elements in query.")
    ensures r.Ok? ==> (r.value.text ==
      "SELECT " + SelectList(select.fieldNames) + AppendFroms(Elements(q.froms)) + InnerJoins(Elements(q.innerJoins))
      + WhereText(Elements(q.wheres), parameterize, 0) + OrderByClause(Elements(q.orderBys)) + LimitClause(q.limit) + ";")
    ensures r.Ok? ==> r.value.parameters == (if parameterize then NumberedFrom(0, WhereValues(Elements(q.wheres))) else [])
  {
    var froms := Elements(q.froms);
    if |froms| == 0 then Err(InvalidOperation("Expected 'From' elements in query."))
    else
      var (wheres, t) := AppendWheres(Elements(q.wheres), parameterize, Cleared);
      var text := "SELECT " + SelectList(select.fieldNames) + AppendFroms(froms) + InnerJoins(Elements(q.innerJoins))
                  + wheres + OrderByClause(Elements(q.orderBys)) + LimitClause(q.limit) + ";";
      Ok(Compiled(text, t.entries))
  }

  function FieldValues(values: seq<FieldValueElement>): (vs: seq<Value>)
    ensures |vs| == |values|
    ensures forall k :: 0 <= k < |values| ==> vs[k] == values[k].value
  {
    seq(|values|, k requires 0 <= k < |values| => values[k].value)
  }

  function ColumnNames(values: seq<FieldValueElement>): (cols: seq<string>)
    ensures |cols| == |values|
    ensures forall k :: 0 <= k < |values| ==> cols[k] == QuoteFieldName(values[k].fieldName)
  {
    seq(|values|, k requires 0 <= k < |values| => QuoteFieldName(values[k].fieldName))
  }

  /** `GetInsertIntoQueryString`: needs a value; the column list and the value list are
      built from the same elements, so they have the same length and the k-th value
      belongs to the k-th column. Values are numbered in list order. */
  function InsertQuery(q: Query, insert: InsertIntoElement, parameterize: bool): (r: Result<Compiled>)
    ensures r.Err? <==> |Elements(q.fieldValues)| == 0
    ensures r.Err? ==> r.error == InvalidOperation("Expected values for insert.")
    ensures r.Ok? ==> (r.value.text ==
      "INSERT INTO " + Backtick(insert.tableName) + " (" + Strings.Join(", ", ColumnNames(Elements(q.fieldValues)))
      + ") VALUES (" + Strings.Join(", ", ValueTokens(FieldValues(Elements(q.fieldValues)), parameterize, 0)) + ") ;")
    ensures r.Ok? ==> r.value.parameters == (if parameterize then NumberedFrom(0, FieldValues(Elements(q.fieldValues))) else [])
  {
    var values := Elements(q.fieldValues);
    if |values| == 0 then Err(InvalidOperation("Expected values for insert."))
    else
      var (tokens, t) := PrepareValues(FieldValues(values), parameterize, Cleared);
      var text := "INSERT INTO " + Backtick(insert.tableName) + " (" + Strings.Join(", ", ColumnNames(values))
                  + ") VALUES (" + Strings.Join(", ", tokens) + ") ;";
      Ok(Compiled(text, t.entries))
  }

  /** `GetDeleteQueryString`: needs a FROM element; `DELETE FROM ...`, then WHERE. */
  function DeleteQuery(q: Query, parameterize: bool): (r: Result<Compiled>)
    ensures r.Err? <==> |Elements(q.froms)| == 0
    ensures r.Err? ==> r.error == InvalidOperation("Expected 'From' elements in query.")
    ensures r.Ok? ==> r.value.text == "DELETE " + AppendFroms(Elements(q.froms)) + WhereText(Elements(q.wheres), parameterize, 0) + ";"
    ensures r.Ok? ==> r.value.parameters == (if parameterize then NumberedFrom(0, WhereValues(Elements(q.wheres))) else [])
  {
    var froms := Elements(q.froms);
    if |froms| == 0 then Err(InvalidOperation("Expected 'From' elements in query."))
    else
      var (wheres, t) := AppendWheres(Elements(q.wheres), parameterize, Cleared);
      Ok(Compiled("DELETE " + AppendFroms(froms) + wheres + ";", t.entries))
  }

  /** The SET assignments `col = value` rendered with the given value tokens. */
  function SetItems(values: seq<FieldValueElement>, tokens: seq<string>): (items: seq<string>)
    requires |tokens| == |values|
    ensures |items| == |values|
  {
    seq(|values|, k requires 0 <= k < |values| => QuoteFieldName(values[k].fieldName) + " = " + tokens[k])
  }

  /** The SET list whose values are numbered from 0, joined by `, `. */
  function Assignments(values: seq<FieldValueElement>, parameterize: bool): string
  {
    Strings.Join(", ", SetItems(values, ValueTokens(FieldValues(values), parameterize, 0)))
  }

  /** After the SET values are prepared from a cleared table, the WHERE values are
      numbered from where the SET values stopped. */
  lemma WhereTextAfterSet(wheres: seq<WhereElement>, setValues: seq<Value>, parameterize: bool)
    ensures AppendWheres(wheres, parameterize, PrepareValues(setValues, parameterize, Cleared).1).0
            == WhereText(wheres, parameterize, |setValues|)
  {
    var t1 := PrepareValues(setValues, parameterize, Cleared).1;
    if parameterize {
      assert t1.count == |setValues|;
    } else {
      assert t1.count == 0;
      InlineWhereTextUnnumbered(wheres, 0, |setValues|);
    }
  }

  /** ... and the table then holds the SET values followed by the WHERE values. */
  lemma ParametersAfterSet(wheres: seq<WhereElement>, setValues: seq<Value>, parameterize: bool)
    ensures AppendWheres(wheres, parameterize, PrepareValues(setValues, parameterize, Cleared).1).1.entries
            == (if parameterize then NumberedFrom(0, setValues + WhereValues(wheres)) else [])
  {
    assert Numbered(Cleared);
    var t1 := PrepareValues(setValues, parameterize, Cleared).1;
    if parameterize {
      assert t1.entries == NumberedFrom(0, setValues) && t1.count == |setValues|;
      NumberedFromAppend(0, setValues, WhereValues(wheres));
    }
  }

  /** `GetUpdateQueryString`: needs a SET value; the SET values are numbered first and the
      WHERE values continue the numbering. */
  function UpdateQuery(q: Query, update: UpdateElement, parameterize: bool): (r: Result<Compiled>)
    ensures r.Err? <==> |Elements(q.fieldValues)| == 0
    ensures r.Err? ==> r.error == InvalidOperation("Expected 'Set' elements in query.")
    ensures r.Ok? ==> (r.value.text ==
      "UPDATE " + Backtick(update.tableName) + " SET " + Assignments(Elements(q.fieldValues), parameterize) + " "
      + WhereText(Elements(q.wheres), parameterize, |Elements(q.fieldValues)|) + ";")
    ensures r.Ok? ==> (r.value.parameters ==
      (if parameterize then NumberedFrom(0, FieldValues(Elements(q.fieldValues)) + WhereValues(Elements(q.wheres))) else []))
  {
    var values := Elements(q.fieldValues);
    if |values| == 0 then Err(InvalidOperation("Expected 'Set' elements in query."))
    else
      var (tokens, t1) := PrepareValues(FieldValues(values), parameterize, Cleared);
      var (wheres, t2) := AppendWheres(Elements(q.wheres), parameterize, t1);
      WhereTextAfterSet(Elements(q.wheres), FieldValues(values), parameterize);
      ParametersAfterSet(Elements(q.wheres), FieldValues(values), parameterize);
      Ok(Compiled("UPDATE " + Backtick(update.tableName) + " SET " + Strings.Join(", ", SetItems(values, tokens)) + " "
                  + wheres + ";", t2.entries))
  }

  /** `GetDropTableQueryString`: needs nothing but the table. */
  function DropTableQuery(drop: DropTableElement): string
  {
    "DROP TABLE " + Backtick(drop.tableName) + " ;"
  }

  // ---------------------------------------------------------------------------
  // CREATE TABLE

  /** One rendered column definition, before it is turned into text. */
  datatype ColumnDefinition =
    ColumnDefinition(name: string, typeName: string, notNull: bool, primaryKey: bool, autoIncrement: bool)

  /** `name type[ NOT NULL][ PRIMARY KEY][ <auto-increment keyword>]`. */
  function ColumnText(c: ColumnDefinition, autoIncrementKeyword: string): string
  {
    QuoteFieldName(c.name) + " " + c.typeName
    + (if c.notNull then " NOT NULL" else "")
    + (if c.primaryKey then " PRIMARY KEY" else "")
    + (if c.autoIncrement then " " + autoIncrementKeyword else "")
  }

  function ColumnsText(columns: seq<ColumnDefinition>, autoIncrementKeyword: string): string
  {
    Strings.Join(", ", seq(|columns|, k requires 0 <= k < |columns| => ColumnText(columns[k], autoIncrementKeyword)))
  }

  /** `CREATE TABLE [IF NOT EXISTS] `table` `. */
  function CreateTableHead(create: CreateTableElement): string
  {
    if !create.checkExistence then "CREATE TABLE " + Backtick(create.tableName) + " "
    else "CREATE TABLE IF NOT EXISTS " + Backtick(create.tableName) + " "
  }

  /** The type name of every field, in order, or the error of the first field whose
      type the dialect rejects. */
  function ResolveTypes(fields: seq<FieldDefinitionElement>, typeString: (ClrType, int32) -> Result<string>): (r: Result<seq<string>>)
    ensures r.Ok? ==> |r.value| == |fields|
    ensures r.Ok? ==> forall k :: 0 <= k < |fields| ==> typeString(fields[k].fieldType, fields[k].length) == Ok(r.value[k])
    ensures r.Err? ==> exists k :: 0 <= k < |fields| && typeString(fields[k].fieldType, fields[k].length) == Err(r.error)
                                   && forall j :: 0 <= j < k ==> typeString(fields[j].fieldType, fields[j].length).Ok?
  {
    if |fields| == 0 then Ok([])
    else
      var head :- typeString(fields[0].fieldType, fields[0].length);
      var tail := ResolveTypes(fields[1..], typeString);
      if tail.Err? then
        var k :| 0 <= k < |fields[1..]| && typeString(fields[1..][k].fieldType, fields[1..][k].length) == Err(tail.error)
                 && forall j :: 0 <= j < k ==> typeString(fields[1..][j].fieldType, fields[1..][j].length).Ok?;
        assert typeString(fields[k + 1].fieldType, fields[k + 1].length) == Err(tail.error);
        Err(tail.error)
      else Ok([head] + tail.value)
  }

  /** The fields flagged `PrimaryKey`, in declaration order. */
  function PrimaryFields(fields: seq<FieldDefinitionElement>): (r: seq<FieldDefinitionElement>)
    ensures |r| <= |fields|
    ensures forall k :: 0 <= k < |r| ==> r[k].options.primaryKey
  {
    if |fields| == 0 then []
    else (if fields[0].options.primaryKey then [fields[0]] else []) + PrimaryFields(fields[1..])
  }

  /** The shared layout of the columns: the inline PRIMARY KEY only while at most one
      field is a primary key; NOT NULL and the auto-increment keyword as flagged. */
  function BaseColumns(fields: seq<FieldDefinitionElement>, types: seq<string>): (cols: seq<ColumnDefinition>)
    requires |types| == |fields|
    ensures |cols| == |fields|
    ensures forall k :: 0 <= k < |fields| ==>
      && cols[k].name == fields[k].name && cols[k].typeName == types[k]
      && cols[k].notNull == fields[k].options.notNull
      && (cols[k].primaryKey <==> |PrimaryFields(fields)| <= 1 && fields[k].options.primaryKey)
      && cols[k].autoIncrement == fields[k].options.autoIncrement
  {
    var primaryCount := |PrimaryFields(fields)|;
    seq(|fields|, k requires 0 <= k < |fields| =>
      ColumnDefinition(fields[k].name, types[k], fields[k].options.notNull,
                       primaryCount <= 1 && fields[k].options.primaryKey, fields[k].options.autoIncrement))
  }

  /** `, PRIMARY KEY (...)` listing the primary-key fields when there are several of them. */
  function PrimaryKeyTrailer(fields: seq<FieldDefinitionElement>): (r: string)
    ensures r == "" <==> |PrimaryFields(fields)| <= 1
  {
    var primary := PrimaryFields(fields);
    if |primary| <= 1 then ""
    else ", PRIMARY KEY (" + Strings.Join(", ", seq(|primary|, k requires 0 <= k < |primary| => QuoteFieldName(primary[k].name))) + ")"
  }

  /** The shared `GetCreateTableQueryString`: needs a field; fails with the dialect's error
      for the first unsupported column type. */
  function CreateTableQuery(create: CreateTableElement, fieldDefinitions: Option<seq<FieldDefinitionElement>>, d: Dialect): (r: Result<string>)
    ensures |Elements(fieldDefinitions)| == 0 ==> r == Err(InvalidOperation("Expected 'Field' elements in query."))
    ensures |Elements(fieldDefinitions)| > 0 ==> (r.Err? <==> ResolveTypes(Elements(fieldDefinitions), d.typeString).Err?)
    ensures |Elements(fieldDefinitions)| > 0 && ResolveTypes(Elements(fieldDefinitions), d.typeString).Err? ==>
      r == Err(ResolveTypes(Elements(fieldDefinitions), d.typeString).error)
    ensures r.Ok? ==>
      var fields := Elements(fieldDefinitions);
      var types := ResolveTypes(fields, d.typeString).value;
      r.value == CreateTableHead(create) + "(" + ColumnsText(BaseColumns(fields, types), d.autoIncrementKeyword)
                 + PrimaryKeyTrailer(fields) + ") ;"
  {
    var fields := Elements(fieldDefinitions);
    if |fields| == 0 then Err(InvalidOperation("Expected 'Field' elements in query."))
    else
      var types :- ResolveTypes(fields, d.typeString);
      Ok(CreateTableHead(create) + "(" + ColumnsText(BaseColumns(fields, types), d.autoIncrementKeyword)
         + PrimaryKeyTrailer(fields) + ") ;")
  }

  // ---------------------------------------------------------------------------
  // Dispatch

  /** No statement element is set. */
  predicate NoStatement(q: Query)
  {
    q.select.None? && q.insertInto.None? && q.delete.None? && q.update.None?
    && q.dropTable.None? && q.createTable.None?
  }

  /** The values a compile call numbers, in the order it renders them. */
  function RenderedValues(q: Query): seq<Value>
  {
    if q.select.Some? then WhereValues(Elements(q.wheres))
    else if q.insertInto.Some? then FieldValues(Elements(q.fieldValues))
    else if q.delete.Some? then WhereValues(Elements(q.wheres))
    else if q.update.Some? then FieldValues(Elements(q.fieldValues)) + WhereValues(Elements(q.wheres))
    else []
  }

  /** `GetQueryString(query, parameterize)`: starts from a cleared parameter table and
      renders the first statement element set, in the order SELECT, INSERT, DELETE,
      UPDATE, DROP TABLE, CREATE TABLE. Inline mode yields no parameters; parameterize
      mode binds `@p0`, `@p1`, ... to the values in render order. */
  function GetQueryString(q: Query, d: Dialect, parameterize: bool): (r: Result<Compiled>)
    ensures NoStatement(q) ==> r == Err(InvalidOperation("Unknown query type."))
    ensures r.Ok? && !parameterize ==> r.value.parameters == []
    ensures r.Ok? && parameterize ==> r.value.parameters == NumberedFrom(0, RenderedValues(q))
  {
    if q.select.Some? then SelectQuery(q, q.select.value, parameterize)
    else if q.insertInto.Some? then InsertQuery(q, q.insertInto.value, parameterize)
    else if q.delete.Some? then DeleteQuery(q, parameterize)
    else if q.update.Some? then UpdateQuery(q, q.update.value, parameterize)
    else if q.dropTable.Some? then Ok(Compiled(DropTableQuery(q.dropTable.value), []))
    else if q.createTable.Some? then
      var text :- match d.createTableOverride
                  case None => CreateTableQuery(q.createTable.value, q.fieldDefinitions, d)
                  case Some(f) => f(q.createTable.value, q.fieldDefinitions, q.keyDefinitions);
      Ok(Compiled(text, []))
    else Err(InvalidOperation("Unknown query type."))
  }
}
