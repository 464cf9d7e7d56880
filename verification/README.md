# AbstractQuery statement compiler in Dafny

AbstractQuery describes a SQL statement as an in-memory `Query` object, built through a
fluent API (`Query.Select(...).From(...).Where(...)`). A query builder compiles the
description to SQL text. It renders values either inline, as literals, or as positional
parameters `@p0`, `@p1`, ... collected in a dictionary for the caller's command object.

This project models that compiler as pure functions and proves what it promises:

- `QueryModel` (`query.dfy`) is the query record and its fluent builder calls. Each
  clause list is an `Option<seq<...>>`, where `None` stands for a list the C# code never
  created (a null).
- `Parameters` (`parameters.dfy`) is the builder's parameter dictionary and counter. They
  are reset at every compile call, so the model threads them through the call as a
  `ParameterTable` and returns them with the text.
- `SqlBuilder` (`sql_builder.dfy`) is the dialect-agnostic compiler: statement dispatch,
  SELECT, INSERT, DELETE, UPDATE, DROP TABLE and CREATE TABLE, identifier quoting and
  value formatting. Its two abstract members and its overridable CREATE TABLE are a
  `Dialect` record.
- `SqliteBuilder` (`sqlite_builder.dfy`) is the SQLite dialect: its type names, its
  `AUTOINCREMENT` keyword, and its own CREATE TABLE, which takes primary keys from the
  key definitions.
- `MySqlBuilder` (`mysql_builder.dfy`) is the older SELECT-only MySQL builder. It has its
  own WHERE rendering: a shorter operator switch and different inline formatting.
- `CompilerProperties`, `SqliteProperties`, `MySqlProperties` and `TestVectors` state
  the properties that relate several parts or several calls.
- `Strings`, `Values` and `Results` are the pieces of .NET the compiler leans on:
  `String.Join`, `IndexOf`, `Trim`, integer text, the boxed value, and exceptions as
  `Result` errors.

A C# exception is an `Err` carrying the exception kind and its message. An
`InvalidOperationException` is `InvalidOperation`; an `ArgumentException` is
`UnsupportedArgument`.

The files come from different revisions of the repository. `AbstractQuery/Query.cs`
offers only `Select`, and its `Is` enum has seven members. The compilers also read the
INSERT, DELETE, UPDATE, DROP TABLE and CREATE TABLE elements and the value, field and
key lists, and they switch on `NotEqual`, `Is` and `IsNot`. The model's `Query` and
`Comparison` hold that union.

Two facts about the code that its tests pin down:

- The MySQL builder's operator switch has eight cases, so `NotEqual` gives `!=`, as the
  MySQL test at `AbstractQuery.Tests/MySql/SqlQueryBuilder.cs:75` expects
  (`TestVectors.SelectWhereNotEqual`). Only `Is` and `IsNot` fall back to `=`.
- The SQLite override of CREATE TABLE marks a column `PRIMARY KEY` only when a key
  definition names it, and it never writes a trailing composite key. The text the SQLite
  test at `AbstractQuery.Tests/SQLite/SqlQueryBuilder.cs:43` expects is what the shared
  rendering writes (`TestVectors.SharedTwoPrimaryKeys`). For the same two flagged fields
  and no key definitions, the override writes
  `` CREATE TABLE `foobar` (`foobarId1` integer, `foobarId2` integer) ; ``
  (`TestVectors.OverrideTwoPrimaryKeys`). `SqliteProperties.KeyFlagIgnored` and
  `SqliteProperties.NoKeyDefinitionsIsSharedWithoutKeys` state in general how the two
  renderings relate.

## Model

| member | source | states |
|---|---|---|
| QueryModel.Select | AbstractQuery/Query.cs:19-26 | A new query has only its SELECT element set, every list absent; the field names are kept in argument order, each trimmed of surrounding white space. |
| QueryModel.TrimAll | AbstractQuery/Query.cs:121-129 | The `SelectElement` constructor keeps one name per argument, in order, each the trim of its argument. |
| QueryModel.From | AbstractQuery/Query.cs:56-66 | Appends exactly one FROM element at the end of the list (creating it when absent); every other part of the query is unchanged. |
| QueryModel.Where | AbstractQuery/Query.cs:68-78 | Appends exactly one WHERE element at the end of the list; every other part of the query is unchanged. |
| QueryModel.OrderBy | AbstractQuery/Query.cs:80-90 | Appends exactly one ORDER BY element, ascending by default; every other part of the query is unchanged. |
| QueryModel.InnerJoin | AbstractQuery/Query.cs:92-102 | Appends exactly one INNER JOIN element; every other part of the query is unchanged. |
| QueryModel.LimitRange | AbstractQuery/Query.cs:109-114 | Sets the limit to the given start and count, replacing any earlier one; nothing else changes. |
| QueryModel.Limit | AbstractQuery/Query.cs:104-107 | `Limit(count)` sets the limit to start 0 and the given count, as `Limit(0, count)` does. |
| QueryModel.ChainAppendsInCallOrder | AbstractQuery/Query.cs:56-114 | After any chain of fluent calls, each clause list holds its earlier elements followed by exactly its own calls' elements in call order; the SELECT element is untouched; the last `Limit` call wins. |
| Parameters.ParameterNameInjective | AbstractQuery/SqlQueryBuilder.cs:322 | Different counter values give different placeholder names, so a numbered dictionary never overwrites an entry. |
| Parameters.NameIndex | AbstractQuery/SqlQueryBuilder.cs:323 | The dictionary's lookup of a key: -1 exactly when the name is absent, otherwise the first entry under that name. |
| Parameters.Assign | AbstractQuery/SqlQueryBuilder.cs:323 | The dictionary indexer appends a new key at the end; for an existing key it replaces the value of the entry under that name, in place, and changes nothing else. |
| Parameters.Register | AbstractQuery/SqlQueryBuilder.cs:320-327 | The placeholder is `@p` plus the counter and the counter grows by one; on a numbered table the value is added at the end under that name and the table stays numbered. |
| SqlBuilder.QuoteFieldName | AbstractQuery/SqlQueryBuilder.cs:294-307 | `*` is unchanged; a name without a dot is backticked whole; otherwise it is split at its first dot and each side is backticked. |
| CompilerProperties.QuoteFieldNameRoundTrip | AbstractQuery/SqlQueryBuilder.cs:294-307 | Quoting a name without backticks only adds backticks: removing them gives back the original name, dot included. |
| SqlBuilder.InlineLiteral | AbstractQuery/SqlQueryBuilder.cs:328-343 | Inline, null is `NULL`, a boolean is `TRUE`/`FALSE`, a number is its text unquoted, and anything else is its text between double quotes with nothing escaped. |
| CompilerProperties.FromItemRoundTrip | AbstractQuery/SqlQueryBuilder.cs:172-178 | A FROM item only adds backticks: removing them gives the table, or the table, ` AS ` and the alias. |
| CompilerProperties.InnerJoinItemReadsBack | AbstractQuery/SqlQueryBuilder.cs:107-115 | An INNER JOIN item only adds backticks: removing them gives `INNER JOIN`, the table, `ON`, the first field, `=`, the second field, each followed by a space. |
| CompilerProperties.InnerJoinAppendsItem | AbstractQuery/SqlQueryBuilder.cs:104-116 | Each `InnerJoin` call puts its item after the joins already rendered, so joins are written in call order. |
| CompilerProperties.OrderByItemReadsBack | AbstractQuery/SqlQueryBuilder.cs:130-138 | An ORDER BY item reads back as the field name and ` ASC` or ` DESC`, and it ends in ` ASC` exactly when the order is ascending. |
| CompilerProperties.OrderByAppendsItem | AbstractQuery/SqlQueryBuilder.cs:122-145 | The first `OrderBy` call opens `ORDER BY ` with its item and a space; a later call adds `, ` and its item before that closing space. |
| CompilerProperties.DropTableReadsBack | AbstractQuery/SqlQueryBuilder.cs:430-441 | DROP TABLE is `DROP TABLE `, the backticked table and ` ;`, and the table name reads back from between them. |
| CompilerProperties.InlineIntegerRoundTrip | AbstractQuery/SqlQueryBuilder.cs:340-343 | An inline integer is decimal text that reads back as the same integer. |
| CompilerProperties.InlineQuotedExactlyNonNumeric | AbstractQuery/SqlQueryBuilder.cs:336-343 | An inline value opens with a double quote exactly when it is a string or another non-numeric object. |
| SqlBuilder.PrepareValue | AbstractQuery/SqlQueryBuilder.cs:316-346 | When parameterizing, the value is registered under `@p<counter>`, that name is returned, and the table gains the value at the end; inline, the literal is returned and the table is untouched. |
| SqlBuilder.PrepareValues | AbstractQuery/SqlQueryBuilder.cs:229-236 | Preparing a list yields the k-th value's token numbered from the counter, and adds the values in list order, or nothing inline. |
| SqlBuilder.AppendWheres | AbstractQuery/SqlQueryBuilder.cs:249-287 | The WHERE text numbers its values from the current counter, and the table gains exactly the WHERE values in order (nothing inline). |
| CompilerProperties.WhereOmittedExactlyWhenEmpty | AbstractQuery/SqlQueryBuilder.cs:251-257 | The WHERE clause is empty exactly when there are no comparisons, and otherwise begins with `WHERE `. |
| CompilerProperties.OperatorTokenInjective | AbstractQuery/SqlQueryBuilder.cs:264-277 | The ten comparisons map to ten different operator tokens. |
| SqlBuilder.SelectQuery | AbstractQuery/SqlQueryBuilder.cs:72-157 | SELECT fails exactly when there is no FROM element; otherwise the clauses come in the order SELECT, FROM, INNER JOIN, WHERE, ORDER BY, LIMIT, `;`, and the parameters are the WHERE values numbered from `@p0`. |
| SqlBuilder.InsertQuery | AbstractQuery/SqlQueryBuilder.cs:192-241 | INSERT fails exactly when there is no value; otherwise it lists the columns and the value tokens from the same elements, and the parameters are the values numbered from `@p0`. |
| CompilerProperties.InsertColumnsMatchValues | AbstractQuery/SqlQueryBuilder.cs:202-237 | A compiled INSERT lists, for the k-th field value, the quoted k-th field name as the k-th column and its token as the k-th value, both joined by `, `; with parameters, the k-th parameter binds the k-th token to the k-th value, and without them there are none. |
| SqlBuilder.DeleteQuery | AbstractQuery/SqlQueryBuilder.cs:354-375 | DELETE fails exactly when there is no FROM element; otherwise it is `DELETE FROM ...` then WHERE, and the parameters are the WHERE values from `@p0`. |
| SqlBuilder.UpdateQuery | AbstractQuery/SqlQueryBuilder.cs:383-422 | UPDATE fails exactly when there is no SET value; the SET values are numbered first and the WHERE values continue from there. |
| SqlBuilder.ResolveTypes | AbstractQuery/SqlQueryBuilder.cs:474-477 | Every field gets the dialect's type name for its type and length; when one is rejected, the error is that of the first rejected field. |
| SqlBuilder.BaseColumns | AbstractQuery/SqlQueryBuilder.cs:466-493 | A column carries ` PRIMARY KEY` exactly when it is flagged primary and at most one field is; NOT NULL and auto-increment follow the field's flags. |
| SqlBuilder.PrimaryKeyTrailer | AbstractQuery/SqlQueryBuilder.cs:495-499 | The trailing `, PRIMARY KEY (...)` is present exactly when more than one field is a primary key. |
| CompilerProperties.PrimaryKeyTrailerListsKeys | AbstractQuery/SqlQueryBuilder.cs:466-499 | With more than one flagged field the trailer is `, PRIMARY KEY (` followed by the quoted names of the flagged fields, at their declaration positions, joined by `, `, and `)`; otherwise it is empty. |
| CompilerProperties.PrimaryFieldsInDeclarationOrder | AbstractQuery/SqlQueryBuilder.cs:466-498 | The trailing key list names the flagged fields at strictly increasing positions, exactly the fields flagged `PrimaryKey`, in declaration order. |
| CompilerProperties.PrimaryKeyDeclaredOnce | AbstractQuery/SqlQueryBuilder.cs:484-499 | A flagged field is declared primary exactly once, either inline or in the trailing list; an unflagged field is declared neither way. |
| CompilerProperties.AutoIncrementFollowsPrimaryKey | AbstractQuery/SqlQueryBuilder.cs:479-488 | On a column that is a key and auto-incremented, the keyword comes directly after ` PRIMARY KEY`, at the end of the definition. |
| CompilerProperties.IfNotExistsExactlyWhenChecked | AbstractQuery/SqlQueryBuilder.cs:459-462 | `IF NOT EXISTS` follows `CREATE TABLE` exactly when the existence check is on. |
| SqlBuilder.CreateTableQuery | AbstractQuery/SqlQueryBuilder.cs:449-504 | CREATE TABLE fails without fields and fails exactly when the dialect rejects a column type, with the dialect's error unchanged; otherwise the columns are listed in order between `(` and `) ;`, followed by the key trailer. |
| SqlBuilder.GetQueryString | AbstractQuery/SqlQueryBuilder.cs:45-64 | Without a statement element it fails with "Unknown query type."; inline it yields no parameters; parameterized, the parameters are `@p0`, `@p1`, ... bound to the values in render order. |
| CompilerProperties.FirstStatementWins | AbstractQuery/SqlQueryBuilder.cs:50-61 | Only the first statement element set, in the order SELECT, INSERT, DELETE, UPDATE, DROP TABLE, CREATE TABLE, affects the result. |
| CompilerProperties.CompiledStatementShape | AbstractQuery/SqlQueryBuilder.cs:50-63 | A compiled statement starts with the keyword of its kind and ends with `;`. |
| CompilerProperties.ParameterizedTextIgnoresValues | AbstractQuery/SqlQueryBuilder.cs:316-327 | When parameterizing, the text never depends on the values: nulling every value leaves the outcome and the text unchanged. |
| CompilerProperties.LimitClauseReadsBack | AbstractQuery/SqlQueryBuilder.cs:148-151 | `LIMIT start, count ` carries both numbers verbatim, and each reads back as the number given. |
| SqliteBuilder.TypeString | AbstractQuery.SQLite/SqlQueryBuilder.cs:66-86 | bool and the eight integer widths are `integer`, float and double `real`, string and DateTime `text`, whatever the length; any other type fails with "Unsupported type '<name>'.". |
| SqliteBuilder.FirstPrimaryKey | AbstractQuery.SQLite/SqlQueryBuilder.cs:46 | A primary key definition naming the field is found exactly when one exists, and it is such a definition. |
| SqliteBuilder.HasPrimaryKey | AbstractQuery.SQLite/SqlQueryBuilder.cs:44-47 | A field is a key exactly when the key definitions exist and one of them is primary and names it. |
| SqliteBuilder.Columns | AbstractQuery.SQLite/SqlQueryBuilder.cs:34-54 | A column carries ` PRIMARY KEY` exactly when a key definition names it, and `AUTOINCREMENT` exactly when it is such a key and flagged auto-increment. |
| SqliteBuilder.CreateTableQuery | AbstractQuery.SQLite/SqlQueryBuilder.cs:11-64 | The SQLite CREATE TABLE fails without fields, or on an unsupported type with the type's error unchanged; otherwise it lists the columns in declaration order between `(` and `) ;`, with no trailing key clause. |
| SqliteBuilder.GetQueryString | AbstractQuery.SQLite/SqlQueryBuilder.cs:9-11 | The SQLite builder is the shared compiler, except that a CREATE TABLE goes through the override. |
| SqliteProperties.ResolveTypesIgnoresOptions | AbstractQuery.SQLite/SqlQueryBuilder.cs:37 | Column types depend only on each field's type and length. |
| SqliteProperties.KeyFlagIgnored | AbstractQuery.SQLite/SqlQueryBuilder.cs:44-54 | The SQLite CREATE TABLE never reads the `PrimaryKey` flag: fields differing only in that flag give the same result. |
| SqliteProperties.AutoIncrementOnlyOnDeclaredKeys | AbstractQuery.SQLite/SqlQueryBuilder.cs:44-54 | A declared key flagged auto-increment ends with ` PRIMARY KEY AUTOINCREMENT`; a field no key definition names ends after its type and optional NOT NULL. |
| SqliteProperties.NoKeyDefinitionsIsSharedWithoutKeys | AbstractQuery.SQLite/SqlQueryBuilder.cs:11-64 | Without key definitions, the SQLite CREATE TABLE equals the shared one applied to the fields with their key and auto-increment flags cleared. |
| MySqlBuilder.OperatorToken | AbstractQuery.MySql/SqlQueryBuilder.cs:158-169 | The MySQL switch agrees with the shared one on eight comparisons and gives `=` for `Is` and `IsNot`. |
| MySqlBuilder.InlineLiteral | AbstractQuery.MySql/SqlQueryBuilder.cs:183-190 | Inline, numbers are bare and everything else is quoted, null and booleans included. |
| MySqlBuilder.PrepareValues | AbstractQuery.MySql/SqlQueryBuilder.cs:173-190 | The value steps of the WHERE loop give the k-th value the token numbered from the counter plus k; parameterized, the table gains the values in order; inline, it is unchanged. |
| MySqlBuilder.AppendWheres | AbstractQuery.MySql/SqlQueryBuilder.cs:143-195 | The WHERE text numbers its values from the current counter; parameterized, the table gains exactly the WHERE values in order; inline, it is unchanged. |
| MySqlBuilder.SelectQuery | AbstractQuery.MySql/SqlQueryBuilder.cs:38-141 | It fails exactly when there is no FROM element, with the singular message; otherwise the clause order is that of the shared SELECT, and the WHERE values are numbered from `@p0`. |
| MySqlBuilder.GetQueryString | AbstractQuery.MySql/SqlQueryBuilder.cs:27-36 | Only SELECT is known; anything else fails with "Unknown query type."; the parameters restart at `@p0` on every call. |
| MySqlProperties.WhereTextAgrees | AbstractQuery.MySql/SqlQueryBuilder.cs:143-195 | The MySQL WHERE clause equals the shared one when no comparison is `IS`/`IS NOT` and, inline, no value is null or boolean. |
| MySqlProperties.SelectAgreesWithShared | AbstractQuery.MySql/SqlQueryBuilder.cs:38-141 | Under the same conditions, the MySQL SELECT and the shared SELECT (of any dialect) fail together or give the same text and parameters. |
| MySqlProperties.IsNullDiverges | AbstractQuery.MySql/SqlQueryBuilder.cs:158-190 | Inline, the shared compiler writes `IS NULL` where the MySQL builder writes `= ""`. |
| TestVectors.OneTable | AbstractQuery.Tests/MySql/SqlQueryBuilder.cs:12-14 | One table without alias renders as ``FROM `test` ``. |
| TestVectors.TwoAliasedTables | AbstractQuery.Tests/MySql/SqlQueryBuilder.cs:36-38 | Two aliased tables render as ``FROM `test1` AS `t1`, `test2` AS `t2` ``, in call order. |
| TestVectors.LimitTen | AbstractQuery.Tests/MySql/SqlQueryBuilder.cs:121-123 | `Limit(10)` renders as `LIMIT 0, 10 `. |
| TestVectors.TwoParameterWhere | AbstractQuery.Tests/MySql/SqlQueryBuilder.cs:147-152 | The MySQL test's two comparisons, parameterized, give `` WHERE `testId` >= @p0 AND `testId` <= @p1 `` and a space. |
| TestVectors.SelectStarFromTest | AbstractQuery.Tests/MySql/SqlQueryBuilder.cs:12-14 | The query `Query.Select("*").From("test")` compiles to `` SELECT * FROM `test` ; `` with no parameters. |
| TestVectors.SelectStarLimitTen | AbstractQuery.Tests/MySql/SqlQueryBuilder.cs:121-123 | Adding `.Limit(10)` gives `` SELECT * FROM `test` LIMIT 0, 10 ; ``. |
| TestVectors.SelectWhereNotEqual | AbstractQuery.Tests/MySql/SqlQueryBuilder.cs:73-75 | `.Where("answer", Is.NotEqual, 42)` gives `` SELECT * FROM `test` WHERE `answer` != 42 ; ``. |
| TestVectors.SharedTwoPrimaryKeys | AbstractQuery.Tests/SQLite/SqlQueryBuilder.cs:36-43 | Two `int` fields flagged `PrimaryKey`, with SQLite types and the shared layout, give `` CREATE TABLE `foobar` (`foobarId1` integer, `foobarId2` integer, PRIMARY KEY (`foobarId1`, `foobarId2`)) ; ``. |
| TestVectors.OverrideTwoPrimaryKeys | AbstractQuery.SQLite/SqlQueryBuilder.cs:11-64 | The same two fields with no key definitions, through the SQLite override, give `` CREATE TABLE `foobar` (`foobarId1` integer, `foobarId2` integer) ; ``. |
| TestVectors.TwoParametersBound | AbstractQuery.Tests/MySql/SqlQueryBuilder.cs:147-157 | The same comparisons bind `@p0` to 10 and `@p1` to 20, in that order. |

## Left out

- Database access is left out: `Database.cs`, `QueryResult.cs` and `QueryDataReader.cs` in every project, that is, connections, command execution and row readers. All of it is I/O through native drivers.
- `ConsoleTest/Program.cs` is left out. It is an interactive demo.
- Culture-dependent text of fractional numbers, decimals, dates and other objects is left out. `Value` carries that text instead of computing it from `ToString()`.
- Integer width is not modelled. All eight .NET integer types are one unbounded `Int`; their text and their numeric treatment do not depend on the width.
- The fluent `InsertInto`, `Update`, `Delete`, `DropTable`, `CreateTable`, `Field` and `Key` calls are left out. The revision of `AbstractQuery/Query.cs` in this model does not define them, so queries holding those elements are plain `Query` values. So is any flag-to-key bookkeeping such a `Field` call might do.
- `GetParameters()` keeping its dictionary between calls is not modelled. The table is returned with each result, so two calls on the same query give the same text and parameters by construction.
- Null strings are not modelled: every name is a `string`, never null. In the code a null
  field name throws a `NullReferenceException` in `QuoteFieldName`
  (`AbstractQuery/SqlQueryBuilder.cs:299`, `fieldName.IndexOf`). A null argument to
  `Select` throws in `Trim` (`AbstractQuery/Query.cs:126`). A null table name is written as
  an empty name between backticks by `AppendFormat`. None of these paths is modelled.
- Aliasing of the fluent builder is not modelled. `From`, `Where`, `OrderBy`, `InnerJoin`
  and `Limit` change the query they are called on and return that same object
  (`AbstractQuery/Query.cs:63-65`, `75-77`, `87-89`, `99-101`, `111-113`). So an earlier
  reference sees later calls, and two chains started from one query share its lists. The
  model's builders return a new `Query` value instead. A single chain compiles the same
  either way.
- `Strings.ToUpper` is only the ASCII mapping. The compiler upper-cases nothing but the boolean names `True`/`False`.
- CompilerProperties.CompiledStatementShape: requires the shared CREATE TABLE rendering when CREATE TABLE is the statement compiled, so it says nothing about a dialect override. The SQLite override's text is described by `SqliteBuilder.CreateTableQuery` instead.
