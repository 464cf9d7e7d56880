/**
  Properties of the SQLite dialect: which field facts its CREATE TABLE rendering reads,
  where its `AUTOINCREMENT` can appear, and how it relates to the shared rendering.
 */
module SqliteProperties {
  import opened Results
  import opened QueryModel
  import opened SqlBuilder
  import SqliteBuilder
  import CompilerProperties

  /** Two field lists that agree on everything but the `PrimaryKey` flag. */
  predicate SameButKeyFlag(a: seq<FieldDefinitionElement>, b: seq<FieldDefinitionElement>)
  {
    && |a| == |b|
    && forall k :: 0 <= k < |a| ==>
         && a[k].name == b[k].name && a[k].fieldType == b[k].fieldType && a[k].length == b[k].length
         && a[k].options.notNull == b[k].options.notNull && a[k].options.autoIncrement == b[k].options.autoIncrement
  }

  /** Two field lists with the same types and lengths, position by position. */
  predicate SameTypes(a: seq<FieldDefinitionElement>, b: seq<FieldDefinitionElement>)
  {
    && |a| == |b|
    && forall k :: 0 <= k < |a| ==> a[k].fieldType == b[k].fieldType && a[k].length == b[k].length
  }

  /** Resolving the column types reads only each field's type and length. */
  lemma {:induction false} ResolveTypesIgnoresOptions(a: seq<FieldDefinitionElement>, b: seq<FieldDefinitionElement>,
                                                      typeString: (ClrType, int32) -> Result<string>)
    requires SameTypes(a, b)
    ensures ResolveTypes(a, typeString) == ResolveTypes(b, typeString)
    decreases |a|
  {
    if |a| > 0 {
      assert SameTypes(a[1..], b[1..]) by {
        forall k | 0 <= k < |a| - 1 ensures a[1..][k] == a[k + 1] && b[1..][k] == b[k + 1] { }
      }
      ResolveTypesIgnoresOptions(a[1..], b[1..], typeString);
    }
  }

  /** The SQLite CREATE TABLE never reads the fields' `PrimaryKey` flag: which columns are
      keys comes from the key definitions alone. */
  lemma KeyFlagIgnored(create: CreateTableElement, a: seq<FieldDefinitionElement>, b: seq<FieldDefinitionElement>,
                       keyDefinitions: Option<seq<KeyDefinitionElement>>)
    requires SameButKeyFlag(a, b)
    ensures SqliteBuilder.CreateTableQuery(create, Some(a), keyDefinitions)
            == SqliteBuilder.CreateTableQuery(create, Some(b), keyDefinitions)
  {
    assert Elements(Some(a)) == a && Elements(Some(b)) == b;
    ResolveTypesIgnoresOptions(a, b, SqliteBuilder.TypeString);
    var types := ResolveTypes(a, SqliteBuilder.TypeString);
    if types.Ok? && |a| > 0 {
      assert SqliteBuilder.Columns(a, types.value, keyDefinitions) == SqliteBuilder.Columns(b, types.value, keyDefinitions);
    }
  }

  /** A field a primary key definition names and that asks for auto-increment ends with
      ` PRIMARY KEY AUTOINCREMENT`; any other field's definition stops after its type and
      optional ` NOT NULL`, so an auto-increment request on a non-key field is dropped. */
  lemma AutoIncrementOnlyOnDeclaredKeys(fields: seq<FieldDefinitionElement>, types: seq<string>,
                                        keyDefinitions: Option<seq<KeyDefinitionElement>>, k: nat)
    requires |types| == |fields| && k < |fields|
    ensures var c := SqliteBuilder.Columns(fields, types, keyDefinitions)[k];
            var text := ColumnText(c, SqliteBuilder.AutoIncrementKeyword);
            && (SqliteBuilder.DeclaredPrimary(keyDefinitions, fields[k].name) && fields[k].options.autoIncrement ==>
                  |text| >= 26 && text[|text| - 26..] == " PRIMARY KEY AUTOINCREMENT")
            && (!SqliteBuilder.DeclaredPrimary(keyDefinitions, fields[k].name) ==>
                  text == QuoteFieldName(fields[k].name) + " " + types[k] + (if fields[k].options.notNull then " NOT NULL" else ""))
  {
    var c := SqliteBuilder.Columns(fields, types, keyDefinitions)[k];
    assert c.name == fields[k].name && c.typeName == types[k] && c.notNull == fields[k].options.notNull;
    if SqliteBuilder.DeclaredPrimary(keyDefinitions, fields[k].name) {
      if fields[k].options.autoIncrement {
        CompilerProperties.AutoIncrementFollowsPrimaryKey(c, SqliteBuilder.AutoIncrementKeyword);
        KeyAutoIncrementText();
      }
    } else {
      assert !c.primaryKey && !c.autoIncrement;
      var head := QuoteFieldName(c.name) + " " + c.typeName + (if c.notNull then " NOT NULL" else "");
      assert ColumnText(c, SqliteBuilder.AutoIncrementKeyword) == head + "" + "";
    }
  }

  lemma KeyAutoIncrementText()
    ensures " PRIMARY KEY " + SqliteBuilder.AutoIncrementKeyword == " PRIMARY KEY AUTOINCREMENT"
  {
  }

  /** The fields with every `PrimaryKey` and `AutoIncrement` flag cleared. */
  function ClearKeyFlags(fields: seq<FieldDefinitionElement>): (r: seq<FieldDefinitionElement>)
    ensures SameTypes(fields, r)
    ensures forall k :: 0 <= k < |r| ==>
              r[k].name == fields[k].name && r[k].options.notNull == fields[k].options.notNull
              && !r[k].options.primaryKey && !r[k].options.autoIncrement
  {
    seq(|fields|, k requires 0 <= k < |fields| =>
      fields[k].(options := fields[k].options.(primaryKey := false, autoIncrement := false)))
  }

  /** Without a flagged field there is no primary-key field. */
  lemma {:induction false} NoFlagNoPrimaryFields(fields: seq<FieldDefinitionElement>)
    requires forall k :: 0 <= k < |fields| ==> !fields[k].options.primaryKey
    ensures PrimaryFields(fields) == []
    decreases |fields|
  {
    if |fields| > 0 {
      assert forall k :: 0 <= k < |fields| - 1 ==> fields[1..][k] == fields[k + 1];
      NoFlagNoPrimaryFields(fields[1..]);
    }
  }

  /** The column layouts agree: the SQLite one without key definitions and the shared one
      without flagged fields. */
  lemma ColumnsWithoutKeys(fields: seq<FieldDefinitionElement>, types: seq<string>)
    requires |types| == |fields|
    ensures SqliteBuilder.Columns(fields, types, None) == BaseColumns(ClearKeyFlags(fields), types)
    ensures PrimaryKeyTrailer(ClearKeyFlags(fields)) == ""
  {
    var cleared := ClearKeyFlags(fields);
    NoFlagNoPrimaryFields(cleared);
    var a := SqliteBuilder.Columns(fields, types, None);
    var b := BaseColumns(cleared, types);
    assert Elements<KeyDefinitionElement>(None) == [];
    forall k | 0 <= k < |fields| ensures a[k] == b[k] {
      assert !SqliteBuilder.DeclaredPrimary(None, fields[k].name);
    }
  }

  /** Where the shared rendering and the SQLite one meet: with no key definitions the
      SQLite rendering is the shared one applied to the same fields with every
      `PrimaryKey` and `AutoIncrement` flag cleared: no column is a key and none is
      auto-incremented. */
  lemma NoKeyDefinitionsIsSharedWithoutKeys(create: CreateTableElement, fields: seq<FieldDefinitionElement>)
    ensures SqliteBuilder.CreateTableQuery(create, Some(fields), None)
            == SqlBuilder.CreateTableQuery(create, Some(ClearKeyFlags(fields)), SqliteBuilder.Dialect)
  {
    var cleared := ClearKeyFlags(fields);
    var d := SqliteBuilder.Dialect;
    assert d.typeString == SqliteBuilder.TypeString && d.autoIncrementKeyword == SqliteBuilder.AutoIncrementKeyword;
    assert Elements(Some(fields)) == fields && Elements(Some(cleared)) == cleared;
    ResolveTypesIgnoresOptions(fields, cleared, SqliteBuilder.TypeString);
    var types := ResolveTypes(fields, SqliteBuilder.TypeString);
    var ours := SqliteBuilder.CreateTableQuery(create, Some(fields), None);
    var shared := SqlBuilder.CreateTableQuery(create, Some(cleared), d);
    if |fields| > 0 && types.Ok? {
      ColumnsWithoutKeys(fields, types.value);
      assert ours.Ok? && shared.Ok?;
      assert ours.value == shared.value;
    }
  }
}
