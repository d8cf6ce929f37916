/** The dynamically typed values that flow through the pipeline: the cells
    of a parsed spreadsheet, the bind parameters and column values of both
    stores, and JavaScript's conversions between them. */
module Values {
  import opened Wrappers
  import opened Text

  /** `SysDate` is the value Oracle's `SYSDATE` (and MariaDB's `NOW()`)
      stores; the model does not look inside it. */
  datatype Value = Null | Undefined | Bool(b: bool) | Num(n: int) | Str(s: string) | SysDate

  /** JavaScript truthiness (`if (x)`, `x || y`, `!x`). */
  predicate Truthy(v: Value) {
    match v
    case Null => false
    case Undefined => false
    case Bool(b) => b
    case Num(n) => n != 0
    case Str(s) => s != ""
    case SysDate => true
  }

  /** A JavaScript `null` or `undefined` bound as a SQL parameter is NULL. */
  predicate IsSqlNull(v: Value) {
    v == Null || v == Undefined
  }

  /** SQL `a = b`: never true when either side is NULL. */
  predicate SqlEq(a: Value, b: Value) {
    !IsSqlNull(a) && !IsSqlNull(b) && a == b
  }

  /** `Number(s)` for a string: surrounding white space is ignored, the empty
      string is 0, otherwise an optionally signed run of decimal digits.
      `None` is a non-finite result (`NaN`). */
  function ParseNumber(s: string): Option<int> {
    var t := Trim(s);
    if t == "" then Some(0)
    else if (t[0] == '-' || t[0] == '+') && |t| > 1 && AllDigits(t[1..]) then
      var magnitude: int := ParseDigits(t[1..]);
      Some(if t[0] == '-' then -magnitude else magnitude)
    else if AllDigits(t) then Some(ParseDigits(t))
    else None
  }

  /** `Number(v)`, `None` when the result is not finite. */
  function JsNumber(v: Value): Option<int> {
    match v
    case Null => Some(0)
    case Undefined => None
    case Bool(b) => Some(if b then 1 else 0)
    case Num(n) => Some(n)
    case Str(s) => ParseNumber(s)
    case SysDate => None  // an Oracle date; never converted by the pipeline
  }

  /** How `${v}` renders a value inside a template string. */
  function ValueToString(v: Value): string {
    match v
    case Null => "null"
    case Undefined => "undefined"
    case Bool(b) => if b then "true" else "false"
    case Num(n) => IntToString(n)
    case Str(s) => s
    case SysDate => "SYSDATE"
  }

  /** Rendering an integer and reading it back with `Number` is the identity. */
  lemma NumberOfRenderedInt(n: int)
    ensures ParseNumber(IntToString(n)) == Some(n)
  {
    var s := IntToString(n);
    var digits := NatToString(if n < 0 then -n else n);
    assert !IsSpace(s[0]) && !IsSpace(s[|s| - 1]);
    assert TrimStart(s) == s;
    assert TrimEnd(s) == s;
    ParseNatToString(if n < 0 then -n else n);
    if n < 0 {
      assert s[1..] == digits;
    }
  }
}
