/**
 * The decoded radio record: what `json.loads` gives the hub for a payload, seen as a map from
 * keys to values, and Python's `float()` and `int()` applied to such values.
 */
module Json {
  import opened Wrappers
  import Text

  /** A decoded JSON value; nested arrays and objects are not looked into (JOther). */
  datatype Value = JNull | JBool(b: bool) | JInt(i: int) | JReal(r: real) | JStr(s: string) | JOther

  /** A decoded JSON object. */
  type Record = map<string, Value>

  /** `d.get(key, default)`. */
  function Get(d: Record, key: string, default: Value): Value
  {
    if key in d then d[key] else default
  }

  /** `int(r)` for a float: truncation toward zero. */
  function TruncateToInt(r: real): (t: int)
    ensures r >= 0.0 ==> 0 <= t && t as real <= r < t as real + 1.0
    ensures r < 0.0 ==> t <= 0 && t as real - 1.0 < r <= t as real
  {
    if r >= 0.0 then r.Floor else -((-r).Floor)
  }

  /**
   * A value as a number it can be compared as: numbers and booleans; `None`, text, lists and
   * objects are the TypeError case of `<` and `>` against a float threshold (None here).
   * `FloatOf` is `float()` itself, which also reads decimal text.
   */
  function ToFloat(v: Value): Option<real>
  {
    match v
    case JInt(i) => Some(i as real)
    case JReal(r) => Some(r)
    case JBool(b) => Some(if b then 1.0 else 0.0)
    case _ => None
  }

  /**
   * `float(v)` as a constructor argument: what `ToFloat` converts, and decimal text as well
   * (`float("38.5")`); other text is the ValueError case (None).
   */
  function FloatOf(v: Value): (r: Option<real>)
    ensures ToFloat(v).Some? ==> r == ToFloat(v)
    ensures v.JStr? ==> r == Text.ParseFloat(v.s)
    ensures !v.JStr? && ToFloat(v).None? ==> r.None?
  {
    match v
    case JStr(s) => Text.ParseFloat(s)
    case _ => ToFloat(v)
  }

  /**
   * What `float(v)` makes of each kind of value: numbers and booleans their value, text the
   * signed decimal numeral left after `strip()`, and None, lists and objects the TypeError case.
   */
  lemma FloatOfReads(v: Value)
    ensures v.JInt? ==> FloatOf(v) == Some(v.i as real)
    ensures v.JReal? ==> FloatOf(v) == Some(v.r)
    ensures v.JBool? ==> FloatOf(v) == Some(if v.b then 1.0 else 0.0)
    ensures v.JNull? || v.JOther? ==> FloatOf(v).None?
    ensures v.JStr? ==> FloatOf(v) == Text.SignedDecimal(Text.Strip(v.s))
  {
    if v.JStr? {
      Text.ParseFloatStrips(v.s);
    }
  }

  /** `float(v)` accepts every value `int(v)` accepts, and gives the same number. */
  lemma FloatOfExtendsToInt(v: Value)
    requires ToInt(v).Some? && !v.JReal?
    ensures FloatOf(v) == Some(ToInt(v).value as real)
  {
    if v.JStr? {
      Text.ParseFloatExtendsParseInt(v.s);
    }
  }

  /** `int(v)`: integers as they are, floats truncated, booleans as 1 and 0, decimal strings parsed. */
  function ToInt(v: Value): Option<int>
  {
    match v
    case JInt(i) => Some(i)
    case JReal(r) => Some(TruncateToInt(r))
    case JBool(b) => Some(if b then 1 else 0)
    case JStr(s) => Text.ParseInt(s)
    case _ => None
  }
}
