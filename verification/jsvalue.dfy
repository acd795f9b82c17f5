/** JavaScript values as they arrive in JSON request bodies and are stored in rows, with the
    coercions the handlers rely on: truthiness (`||`, `!x`), `String(x)`, `Number(x)` and
    optional member access. */
module JsValue {
  import opened Wrappers
  import opened Text

  datatype Value =
    | Undefined
    | Null
    | Bool(b: bool)
    | Number(n: real)
    | Str(s: string)
    | Obj(fields: map<string, Value>)

  /** The values JavaScript treats as true in `if`, `!` and `||`. */
  predicate Truthy(v: Value) {
    match v
    case Undefined => false
    case Null => false
    case Bool(b) => b
    case Number(n) => n != 0.0
    case Str(s) => s != ""
    case Obj(_) => true
  }

  /** `a || b`. */
  function Or(a: Value, b: Value): Value {
    if Truthy(a) then a else b
  }

  /** `v?.key`: the member of an object; `undefined` for every other value. */
  function Member(v: Value, key: string): Value {
    match v
    case Obj(m) => if key in m then m[key] else Undefined
    case _ => Undefined
  }

  /** A parsed JSON request body (`req.body`). */
  type Body = map<string, Value>

  /** `req.body[key]`; a key that is absent reads as `undefined`. */
  function Field(body: Body, key: string): Value {
    if key in body then body[key] else Undefined
  }

  /** Up to `fuel` decimal digits of a fraction in [0, 1), stopping when nothing is left. */
  function FractionDigits(f: real, fuel: nat): string
    requires 0.0 <= f < 1.0
    decreases fuel
  {
    if f == 0.0 || fuel == 0 then ""
    else
      var d := (f * 10.0).Floor;
      assert 0 <= d < 10;
      [DigitChar(d)] + FractionDigits(f * 10.0 - d as real, fuel - 1)
  }

  /** `String(n)` for a number given as an exact decimal: integers without a point, other
      numbers with the digits of their fraction (at most twenty). */
  function NumberToString(n: real): string {
    if n == n.Floor as real then IntToDecimal(n.Floor)
    else if n < 0.0 then "-" + NatToDecimal((-n).Floor) + "." + FractionDigits(-n - (-n).Floor as real, 20)
    else NatToDecimal(n.Floor) + "." + FractionDigits(n - n.Floor as real, 20)
  }

  /** `String(v)`: what a template literal writes for `v`. */
  function ToStr(v: Value): string {
    match v
    case Undefined => "undefined"
    case Null => "null"
    case Bool(b) => if b then "true" else "false"
    case Number(n) => NumberToString(n)
    case Str(s) => s
    case Obj(_) => "[object Object]"
  }

  /** `Number(v)` as the `*` operator applies it; `None` stands for NaN. A blank string
      converts to 0 and a run of decimal digits, white space around it, to its value; other
      strings (signs, fractions, exponents, hexadecimal, "Infinity") are treated as not
      numeric. */
  function ToNumber(v: Value): Option<real> {
    match v
    case Undefined => None
    case Null => Some(0.0)
    case Bool(b) => Some(if b then 1.0 else 0.0)
    case Number(n) => Some(n)
    case Str(s) =>
      if IsBlank(s) then Some(0.0)
      else if IsDigits(Trim(s)) then Some(DecimalValue(Trim(s)) as real)
      else None
    case Obj(_) => None
  }

  /** `Number(String(n))` is `n`. */
  lemma NumeralToNumber(n: nat)
    ensures ToNumber(Str(NatToDecimal(n))) == Some(n as real)
  {
    var s := NatToDecimal(n);
    DecimalRoundTrip(n);
    DigitNotSpace(s[0]);
    DigitNotSpace(s[|s| - 1]);
    TrimKeeps(s);
    assert !IsBlank(s);
  }

  /** `a * b`; `None` stands for NaN. */
  function Times(a: Value, b: Value): Option<real> {
    if ToNumber(a).Some? && ToNumber(b).Some? then Some(ToNumber(a).value * ToNumber(b).value) else None
  }

  /** A datastore's equality filter, `.eq(column, v)`: the column's text equals the text of
      `v`; a null column matches nothing. */
  predicate Matches(column: Value, v: Value) {
    !column.Null? && !column.Undefined? && ToStr(column) == ToStr(v)
  }
}
