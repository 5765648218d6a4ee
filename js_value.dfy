/** The JavaScript values the adapter passes around: binding values, result
    rows as plain objects, truthiness, `.length`, and `Number()` on the
    values whose conversion needs no floating point. */
module JsValue {
  import opened JsText

  /** A JavaScript value as it reaches the adapter. Numbers are integers; a
      Buffer is its bytes, one char per byte. */
  datatype Value = Str(s: string) | Num(n: int) | Bool(b: bool) | Bytes(octets: seq<char>) | Null | Undefined

  predicate Truthy(v: Value)
  {
    match v
    case Str(s) => s != ""
    case Num(n) => n != 0
    case Bool(b) => b
    case Bytes(_) => true
    case Null => false
    case Undefined => false
  }

  /** A property holding a string, read for truthiness: set and not empty. */
  predicate TruthyText(x: Option<string>)
  {
    x.Some? && x.value != ""
  }

  /** `value.length`: defined for strings and Buffers only; elsewhere it is
      `undefined`, and `undefined > n` is false. */
  function LengthOf(v: Value): Option<nat>
  {
    match v
    case Str(s) => Some(|s|)
    case Bytes(o) => Some(|o|)
    case _ => None
  }

  /** `values[i]`, which is `undefined` past the end. */
  function ValueAt(values: seq<Value>, i: nat): Value
  {
    if i < |values| then values[i] else Undefined
  }

  /** A plain object such as a result row: its own keys in insertion order. */
  type Row = seq<(string, Value)>

  /** `row[key]`: the value under the first entry with that key, or `undefined`. */
  function Property(row: Row, key: string): (v: Value)
    ensures (forall k :: 0 <= k < |row| ==> row[k].0 != key) ==> v == Undefined
    ensures |row| > 0 && row[0].0 == key ==> v == row[0].1
  {
    if row == [] then Undefined
    else if row[0].0 == key then row[0].1
    else Property(row[1..], key)
  }

  /** The result of `Number(v)` or unary `+v`. `NaN` is kept apart; a string
      that is not a plain run of decimal digits is left `Unparsed`, since
      its value depends on the full numeric-literal grammar. */
  datatype JsNumber = Exact(n: int) | NaN | Unparsed(text: seq<char>)

  predicate AllDigits(s: string)
  {
    forall k :: 0 <= k < |s| ==> IsDigit(s[k])
  }

  function ToNumber(v: Value): (r: JsNumber)
    ensures v.Num? ==> r == Exact(v.n)
    ensures v.Str? && v.s != "" && AllDigits(v.s) ==> r == Exact(DigitsValue(v.s))
    ensures v == Undefined ==> r == NaN
  {
    match v
    case Num(n) => Exact(n)
    case Bool(b) => Exact(if b then 1 else 0)
    case Null => Exact(0)
    case Undefined => NaN
    case Str(s) =>
      if s == "" then Exact(0)
      else if AllDigits(s) then Exact(DigitsValue(s))
      else Unparsed(s)
    case Bytes(o) => Unparsed(o)
  }

  /** Rendering an index and converting it back with `Number()` gives the
      index again. */
  lemma ToNumberOfRendered(n: nat)
    ensures ToNumber(Str(NatToString(n))) == Exact(n)
  {
    NatToStringRoundTrip(n);
  }
}
