/**
  The SQLite dialect (AbstractQuery.SQLite/SqlQueryBuilder.cs): its column type names,
  its auto-increment keyword, and its own CREATE TABLE rendering, which takes primary
  keys from the query's key definitions instead of the fields' `PrimaryKey` flag.
 */
module SqliteBuilder {
  import opened Results
  import opened QueryModel
  import Strings
  import SqlBuilder

  /** `GetTypeString`: every integer width and bool are `integer`, float and double are
      `real`, string and DateTime are `text`; the length never matters; any other type
      is rejected with an ArgumentException naming it. */
  function TypeString(t: ClrType, length: int32): (r: Result<string>)
    ensures r == Ok("integer") <==>
      t in {BooleanType, SByteType, ByteType, Int16Type, UInt16Type, Int32Type, UInt32Type, Int64Type, UInt64Type}
    ensures r == Ok("real") <==> t == SingleType || t == DoubleType
    ensures r == Ok("text") <==> t == StringType || t == DateTimeType
    ensures r.Err? <==> t == DecimalType || t.OtherType?
    ensures r.Err? ==> r.error == UnsupportedArgument("Unsupported type '" + TypeFullName(t) + "'.")
  {
    if t == BooleanType
       || t == SByteType || t == ByteType || t == Int16Type || t == UInt16Type
       || t == Int32Type || t == UInt32Type || t == Int64Type || t == UInt64Type
    then Ok("integer")
    else if t == SingleType || t == DoubleType then Ok("real")
    else if t == StringType || t == DateTimeType then Ok("text")
    else Err(UnsupportedArgument("Unsupported type '" + TypeFullName(t) + "'."))
  }

  /** `GetAutoIncrementString`. */
  const AutoIncrementKeyword: string := "AUTOINCREMENT"

  /** `keyDefinitions.FirstOrDefault(a => a.FieldName == name && a.Primary == true)`:
      the first primary key definition naming the field, if any. */
  function FirstPrimaryKey(keys: seq<KeyDefinitionElement>, name: string): (r: Option<KeyDefinitionElement>)
    ensures r.Some? <==> exists k :: 0 <= k < |keys| && keys[k].fieldName == name && keys[k].primary
    ensures r.Some? ==> r.value in keys && r.value.fieldName == name && r.value.primary
  {
    if |keys| == 0 then None
    else if keys[0].fieldName == name && keys[0].primary then Some(keys[0])
    else
      var r := FirstPrimaryKey(keys[1..], name);
      assert (exists k :: 0 <= k < |keys| && keys[k].fieldName == name && keys[k].primary)
             ==> exists k :: 0 <= k < |keys[1..]| && keys[1..][k].fieldName == name && keys[1..][k].primary by {
        if exists k :: 0 <= k < |keys| && keys[k].fieldName == name && keys[k].primary {
          var k :| 0 <= k < |keys| && keys[k].fieldName == name && keys[k].primary;
          assert keys[1..][k - 1] == keys[k];
        }
      }
      r
  }

  /** A primary key definition names the field. */
  predicate DeclaredPrimary(keyDefinitions: Option<seq<KeyDefinitionElement>>, name: string)
  {
    exists k :: 0 <= k < |Elements(keyDefinitions)|
                && Elements(keyDefinitions)[k].fieldName == name && Elements(keyDefinitions)[k].primary
  }

  /** The override's test `keyDefinitions != null && FirstOrDefault(...) != null`. */
  function HasPrimaryKey(keyDefinitions: Option<seq<KeyDefinitionElement>>, name: string): (b: bool)
    ensures b <==> DeclaredPrimary(keyDefinitions, name)
  {
    match keyDefinitions
    case None => false
    case Some(keys) =>
      assert Elements(keyDefinitions) == keys;
      FirstPrimaryKey(keys, name).Some?
  }

  /** The override's column layout: ` PRIMARY KEY` exactly on the fields a primary key
      definition names, and the auto-increment keyword only on such a field. */
  function Columns(fields: seq<FieldDefinitionElement>, types: seq<string>, keyDefinitions: Option<seq<KeyDefinitionElement>>)
    : (cols: seq<SqlBuilder.ColumnDefinition>)
    requires |types| == |fields|
    ensures |cols| == |fields|
    ensures forall k :: 0 <= k < |fields| ==>
      && cols[k].name == fields[k].name && cols[k].typeName == types[k]
      && cols[k].notNull == fields[k].options.notNull
      && (cols[k].primaryKey <==> DeclaredPrimary(keyDefinitions, fields[k].name))
      && (cols[k].autoIncrement <==> cols[k].primaryKey && fields[k].options.autoIncrement)
  {
    seq(|fields|, k requires 0 <= k < |fields| =>
      var isKey := HasPrimaryKey(keyDefinitions, fields[k].name);
      SqlBuilder.ColumnDefinition(fields[k].name, types[k], fields[k].options.notNull,
                                  isKey, isKey && fields[k].options.autoIncrement))
  }

  /** The overridden `GetCreateTableQueryString`: needs a field; fails on the first
      unsupported column type; the column list is closed right after the last column,
      with no trailing key clause. */
  function CreateTableQuery(create: CreateTableElement, fieldDefinitions: Option<seq<FieldDefinitionElement>>,
                            keyDefinitions: Option<seq<KeyDefinitionElement>>): (r: Result<string>)
    ensures |Elements(fieldDefinitions)| == 0 ==> r == Err(InvalidOperation("Expected 'Field' elements in query."))
    ensures |Elements(fieldDefinitions)| > 0 ==> (r.Err? <==> SqlBuilder.ResolveTypes(Elements(fieldDefinitions), TypeString).Err?)
    ensures |Elements(fieldDefinitions)| > 0 && SqlBuilder.ResolveTypes(Elements(fieldDefinitions), TypeString).Err? ==>
      r == Err(SqlBuilder.ResolveTypes(Elements(fieldDefinitions), TypeString).error)
    ensures r.Ok? ==> (
      var fields := Elements(fieldDefinitions);
      var types := SqlBuilder.ResolveTypes(fields, TypeString).value;
      r.value == SqlBuilder.CreateTableHead(create) + "("
                 + SqlBuilder.ColumnsText(Columns(fields, types, keyDefinitions), AutoIncrementKeyword) + ") ;")
  {
    var fields := Elements(fieldDefinitions);
    if |fields| == 0 then Err(InvalidOperation("Expected 'Field' elements in query."))
    else
      var types :- SqlBuilder.ResolveTypes(fields, TypeString);
      Ok(SqlBuilder.CreateTableHead(create) + "("
         + SqlBuilder.ColumnsText(Columns(fields, types, keyDefinitions), AutoIncrementKeyword) + ") ;")
  }

  /** `SQLiteQueryBuilder` as a dialect of the shared compiler. */
  const Dialect: SqlBuilder.Dialect := SqlBuilder.Dialect(TypeString, AutoIncrementKeyword, Some(CreateTableQuery))

  /** `new SQLiteQueryBuilder().GetQueryString(query, parameterize)`: the shared compiler,
      except that CREATE TABLE goes through the override. */
  function GetQueryString(q: Query, parameterize: bool): (r: Result<SqlBuilder.Compiled>)
    ensures q.createTable.Some? && SqlBuilder.NoStatement(q.(createTable := None)) ==>
      r == (var text :- CreateTableQuery(q.createTable.value, q.fieldDefinitions, q.keyDefinitions);
            Ok(SqlBuilder.Compiled(text, [])))
    ensures !(q.createTable.Some? && SqlBuilder.NoStatement(q.(createTable := None))) ==>
      r == SqlBuilder.GetQueryString(q, SqlBuilder.Dialect(TypeString, AutoIncrementKeyword, None), parameterize)
  {
    SqlBuilder.GetQueryString(q, Dialect, parameterize)
  }
}
