/**
  The parameter table a compiler fills in parameterize mode: the C# fields
  `Dictionary<string, object> _parameters` and `int _parameterCount`, threaded
  through one compile call instead of living on the builder instance.
 */
module Parameters {
  import opened Values
  import Strings

  datatype Parameter = Parameter(name: string, value: Value)

  /** The dictionary's entries in enumeration order, and the counter. */
  datatype ParameterTable = ParameterTable(entries: seq<Parameter>, count: nat)

  /** The state after `_parameters.Clear(); _parameterCount = 0;`. */
  const Cleared: ParameterTable := ParameterTable([], 0)

  /** The placeholder for the value numbered `k`: `"@p" + k`. */
  function ParameterName(k: nat): string
  {
    "@p" + Strings.NatToString(k)
  }

  /** Different numbers give different placeholders. */
  lemma ParameterNameInjective(a: nat, b: nat)
    requires a != b
    ensures ParameterName(a) != ParameterName(b)
  {
    Strings.NatToStringInjective(a, b);
    assert ParameterName(a)[2..] == Strings.NatToString(a);
    assert ParameterName(b)[2..] == Strings.NatToString(b);
  }

  function Names(entries: seq<Parameter>): set<string>
  {
    set k | 0 <= k < |entries| :: entries[k].name
  }

  /** The position of the first entry named `name`, or -1 when there is none. */
  function NameIndex(entries: seq<Parameter>, name: string): (i: int)
    ensures -1 <= i < |entries|
    ensures i == -1 <==> name !in Names(entries)
    ensures i >= 0 ==> entries[i].name == name && forall j :: 0 <= j < i ==> entries[j].name != name
  {
    if |entries| == 0 then -1
    else if entries[0].name == name then 0
    else
      var k := NameIndex(entries[1..], name);
      assert Names(entries) == {entries[0].name} + Names(entries[1..]) by {
        forall x | x in Names(entries) ensures x in {entries[0].name} + Names(entries[1..]) {
          var j :| 0 <= j < |entries| && entries[j].name == x;
          if j > 0 { assert entries[1..][j - 1].name == x; }
        }
      }
      if k == -1 then -1 else k + 1
  }

  /** The dictionary indexer `_parameters[name] = value`: an existing key keeps its
      position and takes the new value, every other entry unchanged; a new key is added
      at the end. */
  function Assign(entries: seq<Parameter>, name: string, value: Value): (r: seq<Parameter>)
    ensures name !in Names(entries) ==> r == entries + [Parameter(name, value)]
    ensures name in Names(entries) ==> r == entries[NameIndex(entries, name) := Parameter(name, value)]
  {
    if |entries| == 0 then [Parameter(name, value)]
    else if entries[0].name == name then [Parameter(name, value)] + entries[1..]
    else
      var rest := Assign(entries[1..], name, value);
      assert name in Names(entries) ==> name in Names(entries[1..]) by {
        if name in Names(entries) {
          var j :| 0 <= j < |entries| && entries[j].name == name;
          assert j > 0 && entries[1..][j - 1].name == name;
        }
      }
      assert name !in Names(entries) ==> name !in Names(entries[1..]) by {
        if name !in Names(entries) {
          forall j | 0 <= j < |entries[1..]| ensures entries[1..][j].name != name {
            assert entries[1..][j] == entries[j + 1];
          }
        }
      }
      [entries[0]] + rest
  }

  /** The table is the dictionary the counter describes: entry `k` is named `@pk`. */
  predicate Numbered(t: ParameterTable)
  {
    && t.count == |t.entries|
    && forall k :: 0 <= k < |t.entries| ==> t.entries[k].name == ParameterName(k)
  }

  /** The parameters `@p<from>`, `@p<from+1>`, ... bound to `values` in order. */
  function NumberedFrom(from: nat, values: seq<Value>): (r: seq<Parameter>)
  {
    seq(|values|, k requires 0 <= k < |values| => Parameter(ParameterName(from + k), values[k]))
  }

  /** The first value is numbered `from`, the rest continue from `from + 1`. */
  lemma NumberedFromCons(from: nat, values: seq<Value>)
    requires |values| > 0
    ensures NumberedFrom(from, values) == [Parameter(ParameterName(from), values[0])] + NumberedFrom(from + 1, values[1..])
  {
  }

  /** Numbering two lists in a row is numbering their concatenation. */
  lemma NumberedFromAppend(from: nat, a: seq<Value>, b: seq<Value>)
    ensures NumberedFrom(from, a + b) == NumberedFrom(from, a) + NumberedFrom(from + |a|, b)
  {
  }

  /** The body of `PrepareValue`'s parameterize branch: name the value after the counter,
      store it under that name, and bump the counter. On a numbered table the name is
      fresh, so the value is added at the end and the table stays numbered. */
  function Register(t: ParameterTable, v: Value): (r: (string, ParameterTable))
    ensures r.0 == ParameterName(t.count)
    ensures r.1.count == t.count + 1
    ensures Numbered(t) ==> r.1.entries == t.entries + [Parameter(r.0, v)] && Numbered(r.1)
  {
    var name := ParameterName(t.count);
    if Numbered(t) then
      assert name !in Names(t.entries) by {
        forall k | 0 <= k < |t.entries| ensures t.entries[k].name != name {
          ParameterNameInjective(k, t.count);
        }
      }
      (name, ParameterTable(Assign(t.entries, name, v), t.count + 1))
    else
      (name, ParameterTable(Assign(t.entries, name, v), t.count + 1))
  }
}
