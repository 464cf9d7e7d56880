/**
  The scalar payload of WHERE comparisons and inserted or assigned values.
  The source stores these as `object`; here they are a closed sum.
 */
module Values {
  import Strings

  datatype Value =
    | Null                  // a null reference
    | Bool(b: bool)         // System.Boolean
    | Int(i: int)           // any of sbyte, byte, short, ushort, int, uint, long, ulong
    | Fractional(text: string) // float, double or decimal, carried with its ToString() text
    | Str(s: string)        // System.String
    | Other(text: string)   // any other object (DateTime, char, ...), carried with its ToString() text

  /** The numeric runtime types the builders leave unquoted. */
  predicate IsNumeric(v: Value)
  {
    v.Int? || v.Fractional?
  }

  /** The text `String.Format("{0}", v)` produces: `ToString()`, and the empty text for null. */
  function Text(v: Value): string
  {
    match v
    case Null => ""
    case Bool(b) => if b then "True" else "False"
    case Int(i) => Strings.IntToString(i)
    case Fractional(t) => t
    case Str(s) => s
    case Other(t) => t
  }
}
