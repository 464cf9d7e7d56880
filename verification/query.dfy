/**
  The in-memory description of one SQL statement (AbstractQuery/Query.cs) and its
  fluent builder. A C# `Query` is mutated in place and returned for chaining; here
  each builder call returns the updated record.

  The revision of Query.cs this follows only offers `Select`; the compiler also reads
  the INSERT, DELETE, UPDATE, DROP TABLE and CREATE TABLE elements and the value,
  field and key lists, so the record carries those too.
 */
module QueryModel {
  import opened Results
  import opened Values
  import Strings

  /** 32-bit signed integers, the type of `LimitElement.Start` and `Count`. */
  newtype int32 = x: int | -0x8000_0000 <= x < 0x8000_0000

  /** The comparison operators of a WHERE element (enum `Is`). Query.cs lists seven of
      them; the compilers also handle `NotEqual`, `Is` and `IsNot`. */
  datatype Comparison =
    | LowerThen | LowerEqualThen | GreaterThen | GreaterEqualThen
    | Equal | NotEqual | Like | NotLike | Is | IsNot

  datatype OrderDirection = Ascending | Descending

  datatype SelectElement = SelectElement(fieldNames: seq<string>)
  datatype FromElement = FromElement(tableName: string, shortName: Option<string>)
  datatype WhereElement = WhereElement(fieldName: string, comparison: Comparison, value: Value)
  datatype OrderByElement = OrderByElement(fieldName: string, direction: OrderDirection)
  datatype InnerJoinElement = InnerJoinElement(tableName: string, fieldName1: string, fieldName2: string)
  datatype LimitElement = LimitElement(start: int32, count: int32)

  datatype InsertIntoElement = InsertIntoElement(tableName: string)
  datatype DeleteElement = DeleteElement
  datatype UpdateElement = UpdateElement(tableName: string)
  datatype DropTableElement = DropTableElement(tableName: string)
  datatype CreateTableElement = CreateTableElement(tableName: string, checkExistence: bool)

  /** A column/value pair: an INSERT column or an UPDATE assignment. */
  datatype FieldValueElement = FieldValueElement(fieldName: string, value: Value)

  /** The runtime `System.Type` of a CREATE TABLE column. */
  datatype ClrType =
    | BooleanType | SByteType | ByteType | Int16Type | UInt16Type
    | Int32Type | UInt32Type | Int64Type | UInt64Type
    | SingleType | DoubleType | DecimalType | StringType | DateTimeType
    | OtherType(fullName: string)

  /** `Type.ToString()`: the full name of the type. */
  function TypeFullName(t: ClrType): string
  {
    match t
    case BooleanType => "System.Boolean"
    case SByteType => "System.SByte"
    case ByteType => "System.Byte"
    case Int16Type => "System.Int16"
    case UInt16Type => "System.UInt16"
    case Int32Type => "System.Int32"
    case UInt32Type => "System.UInt32"
    case Int64Type => "System.Int64"
    case UInt64Type => "System.UInt64"
    case SingleType => "System.Single"
    case DoubleType => "System.Double"
    case DecimalType => "System.Decimal"
    case StringType => "System.String"
    case DateTimeType => "System.DateTime"
    case OtherType(n) => n
  }

  /** The flags enum `FieldOptions`, one boolean per flag. */
  datatype FieldOptions = FieldOptions(notNull: bool, autoIncrement: bool, primaryKey: bool)

  datatype FieldDefinitionElement =
    FieldDefinitionElement(name: string, fieldType: ClrType, length: int32, options: FieldOptions)

  datatype KeyDefinitionElement = KeyDefinitionElement(fieldName: string, primary: bool)

  /** One statement. A `None` list is a list the builder never created (a C# null). */
  datatype Query = Query(
    select: Option<SelectElement>,
    insertInto: Option<InsertIntoElement>,
    delete: Option<DeleteElement>,
    update: Option<UpdateElement>,
    dropTable: Option<DropTableElement>,
    createTable: Option<CreateTableElement>,
    limit: Option<LimitElement>,
    froms: Option<seq<FromElement>>,
    wheres: Option<seq<WhereElement>>,
    orderBys: Option<seq<OrderByElement>>,
    innerJoins: Option<seq<InnerJoinElement>>,
    fieldValues: Option<seq<FieldValueElement>>,
    fieldDefinitions: Option<seq<FieldDefinitionElement>>,
    keyDefinitions: Option<seq<KeyDefinitionElement>>)

  /** The elements of a possibly absent list; absent and empty read alike. */
  function Elements<T>(list: Option<seq<T>>): seq<T>
  {
    list.GetOr([])
  }

  /** `list.Add(e)` after creating the list if it was null. */
  function Append<T>(list: Option<seq<T>>, e: T): Option<seq<T>>
  {
    Some(Elements(list) + [e])
  }

  /** A query as the protected constructor leaves it: every element and list null. */
  const NewQuery: Query :=
    Query(None, None, None, None, None, None, None, None, None, None, None, None, None, None)

  /** The body of the `SelectElement` constructor: every name trimmed, in argument order. */
  function TrimAll(fieldNames: seq<string>): (names: seq<string>)
    ensures |names| == |fieldNames|
    ensures forall k :: 0 <= k < |fieldNames| ==> names[k] == Strings.Trim(fieldNames[k])
  {
    if |fieldNames| == 0 then [] else [Strings.Trim(fieldNames[0])] + TrimAll(fieldNames[1..])
  }

  /** `Query.Select(fieldNames)`: a new query whose only non-null part is its
      SELECT element, holding the trimmed names in argument order. */
  function Select(fieldNames: seq<string>): (q: Query)
    ensures q.select.Some?
    ensures |q.select.value.fieldNames| == |fieldNames|
    ensures forall k :: 0 <= k < |fieldNames| ==> q.select.value.fieldNames[k] == Strings.Trim(fieldNames[k])
    ensures q.(select := None) == NewQuery
  {
    NewQuery.(select := Some(SelectElement(TrimAll(fieldNames))))
  }

  /** `query.From(tableName, shortName)`: appends one FROM element, nothing else changes. */
  function From(q: Query, tableName: string, shortName: Option<string> := None): (r: Query)
    ensures r.froms.Some?
    ensures Elements(r.froms) == Elements(q.froms) + [FromElement(tableName, shortName)]
    ensures r.(froms := q.froms) == q
  {
    q.(froms := Append(q.froms, FromElement(tableName, shortName)))
  }

  /** `query.Where(fieldName, comparison, value)`: appends one WHERE element, nothing else changes. */
  function Where(q: Query, fieldName: string, comparison: Comparison, value: Value): (r: Query)
    ensures r.wheres.Some?
    ensures Elements(r.wheres) == Elements(q.wheres) + [WhereElement(fieldName, comparison, value)]
    ensures r.(wheres := q.wheres) == q
  {
    q.(wheres := Append(q.wheres, WhereElement(fieldName, comparison, value)))
  }

  /** `query.OrderBy(fieldName, direction)`, ascending unless told otherwise: appends one
      ORDER BY element, nothing else changes. */
  function OrderBy(q: Query, fieldName: string, direction: OrderDirection := Ascending): (r: Query)
    ensures r.orderBys.Some?
    ensures Elements(r.orderBys) == Elements(q.orderBys) + [OrderByElement(fieldName, direction)]
    ensures r.(orderBys := q.orderBys) == q
  {
    q.(orderBys := Append(q.orderBys, OrderByElement(fieldName, direction)))
  }

  /** `query.InnerJoin(tableName, fieldName1, fieldName2)`: appends one INNER JOIN element,
      nothing else changes. */
  function InnerJoin(q: Query, tableName: string, fieldName1: string, fieldName2: string): (r: Query)
    ensures r.innerJoins.Some?
    ensures Elements(r.innerJoins) == Elements(q.innerJoins) + [InnerJoinElement(tableName, fieldName1, fieldName2)]
    ensures r.(innerJoins := q.innerJoins) == q
  {
    q.(innerJoins := Append(q.innerJoins, InnerJoinElement(tableName, fieldName1, fieldName2)))
  }

  /** `query.Limit(start, count)`: sets the limit, replacing any earlier one. */
  function LimitRange(q: Query, start: int32, count: int32): (r: Query)
    ensures r.limit == Some(LimitElement(start, count))
    ensures r.(limit := q.limit) == q
  {
    q.(limit := Some(LimitElement(start, count)))
  }

  /** `query.Limit(count)`: the first `count` rows, i.e. `Limit(0, count)`. */
  function Limit(q: Query, count: int32): (r: Query)
    ensures r.limit == Some(LimitElement(0, count))
    ensures r.(limit := q.limit) == q
  {
    LimitRange(q, 0, count)
  }

  /** One call of the fluent API on an existing query. */
  datatype BuilderCall =
    | FromCall(tableName: string, shortName: Option<string>)
    | WhereCall(fieldName: string, comparison: Comparison, value: Value)
    | OrderByCall(fieldName: string, direction: OrderDirection)
    | InnerJoinCall(tableName: string, fieldName1: string, fieldName2: string)
    | LimitCall(start: int32, count: int32)

  function Call(q: Query, c: BuilderCall): Query
  {
    match c
    case FromCall(t, s) => From(q, t, s)
    case WhereCall(f, op, v) => Where(q, f, op, v)
    case OrderByCall(f, d) => OrderBy(q, f, d)
    case InnerJoinCall(t, f1, f2) => InnerJoin(q, t, f1, f2)
    case LimitCall(s, n) => LimitRange(q, s, n)
  }

  /** A chain of fluent calls, applied left to right. */
  function Chain(q: Query, calls: seq<BuilderCall>): Query
    decreases |calls|
  {
    if |calls| == 0 then q else Call(Chain(q, calls[..|calls| - 1]), calls[|calls| - 1])
  }

  function FromsOf(calls: seq<BuilderCall>): seq<FromElement>
  {
    if |calls| == 0 then []
    else (if calls[0].FromCall? then [FromElement(calls[0].tableName, calls[0].shortName)] else [])
         + FromsOf(calls[1..])
  }

  function WheresOf(calls: seq<BuilderCall>): seq<WhereElement>
  {
    if |calls| == 0 then []
    else (if calls[0].WhereCall? then [WhereElement(calls[0].fieldName, calls[0].comparison, calls[0].value)] else [])
         + WheresOf(calls[1..])
  }

  function OrderBysOf(calls: seq<BuilderCall>): seq<OrderByElement>
  {
    if |calls| == 0 then []
    else (if calls[0].OrderByCall? then [OrderByElement(calls[0].fieldName, calls[0].direction)] else [])
         + OrderBysOf(calls[1..])
  }

  function InnerJoinsOf(calls: seq<BuilderCall>): seq<InnerJoinElement>
  {
    if |calls| == 0 then []
    else (if calls[0].InnerJoinCall? then [InnerJoinElement(calls[0].tableName, calls[0].fieldName1, calls[0].fieldName2)] else [])
         + InnerJoinsOf(calls[1..])
  }

  /** The limit the last `Limit` call of the chain sets, if any. */
  function LastLimit(calls: seq<BuilderCall>, prior: Option<LimitElement>): Option<LimitElement>
    decreases |calls|
  {
    if |calls| == 0 then prior
    else if calls[|calls| - 1].LimitCall? then Some(LimitElement(calls[|calls| - 1].start, calls[|calls| - 1].count))
    else LastLimit(calls[..|calls| - 1], prior)
  }

  /** Each `*Of` projection distributes over appending one more call. */
  lemma {:induction false} FromsOfSnoc(calls: seq<BuilderCall>, c: BuilderCall)
    ensures FromsOf(calls + [c]) == FromsOf(calls) + FromsOf([c])
    decreases |calls|
  {
    if |calls| > 0 {
      assert (calls + [c])[1..] == calls[1..] + [c];
      FromsOfSnoc(calls[1..], c);
    }
  }

  lemma {:induction false} WheresOfSnoc(calls: seq<BuilderCall>, c: BuilderCall)
    ensures WheresOf(calls + [c]) == WheresOf(calls) + WheresOf([c])
    decreases |calls|
  {
    if |calls| > 0 {
      assert (calls + [c])[1..] == calls[1..] + [c];
      WheresOfSnoc(calls[1..], c);
    }
  }

  lemma {:induction false} OrderBysOfSnoc(calls: seq<BuilderCall>, c: BuilderCall)
    ensures OrderBysOf(calls + [c]) == OrderBysOf(calls) + OrderBysOf([c])
    decreases |calls|
  {
    if |calls| > 0 {
      assert (calls + [c])[1..] == calls[1..] + [c];
      OrderBysOfSnoc(calls[1..], c);
    }
  }

  lemma {:induction false} InnerJoinsOfSnoc(calls: seq<BuilderCall>, c: BuilderCall)
    ensures InnerJoinsOf(calls + [c]) == InnerJoinsOf(calls) + InnerJoinsOf([c])
    decreases |calls|
  {
    if |calls| > 0 {
      assert (calls + [c])[1..] == calls[1..] + [c];
      InnerJoinsOfSnoc(calls[1..], c);
    }
  }

  /** Each clause list of a chain: its earlier elements, then its own calls' elements. */
  lemma {:induction false} ChainFroms(q: Query, calls: seq<BuilderCall>)
    ensures Elements(Chain(q, calls).froms) == Elements(q.froms) + FromsOf(calls)
    decreases |calls|
  {
    if |calls| > 0 {
      var init, c := calls[..|calls| - 1], calls[|calls| - 1];
      assert calls == init + [c];
      ChainFroms(q, init);
      FromsOfSnoc(init, c);
    }
  }

  lemma {:induction false} ChainWheres(q: Query, calls: seq<BuilderCall>)
    ensures Elements(Chain(q, calls).wheres) == Elements(q.wheres) + WheresOf(calls)
    decreases |calls|
  {
    if |calls| > 0 {
      var init, c := calls[..|calls| - 1], calls[|calls| - 1];
      assert calls == init + [c];
      ChainWheres(q, init);
      WheresOfSnoc(init, c);
    }
  }

  lemma {:induction false} ChainOrderBys(q: Query, calls: seq<BuilderCall>)
    ensures Elements(Chain(q, calls).orderBys) == Elements(q.orderBys) + OrderBysOf(calls)
    decreases |calls|
  {
    if |calls| > 0 {
      var init, c := calls[..|calls| - 1], calls[|calls| - 1];
      assert calls == init + [c];
      ChainOrderBys(q, init);
      OrderBysOfSnoc(init, c);
    }
  }

  lemma {:induction false} ChainInnerJoins(q: Query, calls: seq<BuilderCall>)
    ensures Elements(Chain(q, calls).innerJoins) == Elements(q.innerJoins) + InnerJoinsOf(calls)
    decreases |calls|
  {
    if |calls| > 0 {
      var init, c := calls[..|calls| - 1], calls[|calls| - 1];
      assert calls == init + [c];
      ChainInnerJoins(q, init);
      InnerJoinsOfSnoc(init, c);
    }
  }

  /** The limit of a chain is the last one set, and its statement element is untouched. */
  lemma {:induction false} ChainLimitAndSelect(q: Query, calls: seq<BuilderCall>)
    ensures Chain(q, calls).limit == LastLimit(calls, q.limit)
    ensures Chain(q, calls).select == q.select
    decreases |calls|
  {
    if |calls| > 0 {
      ChainLimitAndSelect(q, calls[..|calls| - 1]);
    }
  }

  /** Whatever order the fluent calls come in, each clause list ends up holding exactly
      the elements of its own calls, in call order, after the elements it already had;
      the statement element never changes; and the last `Limit` call wins. */
  lemma ChainAppendsInCallOrder(q: Query, calls: seq<BuilderCall>)
    ensures Elements(Chain(q, calls).froms) == Elements(q.froms) + FromsOf(calls)
    ensures Elements(Chain(q, calls).wheres) == Elements(q.wheres) + WheresOf(calls)
    ensures Elements(Chain(q, calls).orderBys) == Elements(q.orderBys) + OrderBysOf(calls)
    ensures Elements(Chain(q, calls).innerJoins) == Elements(q.innerJoins) + InnerJoinsOf(calls)
    ensures Chain(q, calls).limit == LastLimit(calls, q.limit)
    ensures Chain(q, calls).select == q.select
  {
    ChainFroms(q, calls);
    ChainWheres(q, calls);
    ChainOrderBys(q, calls);
    ChainInnerJoins(q, calls);
    ChainLimitAndSelect(q, calls);
  }
}
