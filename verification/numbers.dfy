/** Python's `int(...)` and `float(...)` on text tokens.

    Which strings Python accepts as numbers, and what IEEE double a decimal
    string rounds to, are not modelled: a `Conversions` value carries the two
    conversions as partial functions from a token to a number, and every
    parser takes it as a parameter. Python's `int()` and `float()` ignore
    surrounding whitespace, so the conversions are applied to the stripped
    token. Floats are modelled as `real`.
 */
module Numbers {

  import opened Results
  import opened PyStr

  datatype Conversions = Conversions(intOf: string -> Option<int>, floatOf: string -> Option<real>)

  /** A header variable value: an int when `int()` accepts the token, else a float. */
  datatype Number = IntValue(i: int) | FloatValue(x: real)

  /** Python's `int(s)`: a ValueError when the token is not an integer literal. */
  function ToInt(num: Conversions, s: string): (r: Result<int>)
    ensures r.Ok? <==> num.intOf(Strip(s)).Some?
    ensures r.Ok? ==> r.value == num.intOf(Strip(s)).value
    ensures r.Err? ==> r.error == ValueError
  {
    match num.intOf(Strip(s))
    case Some(n) => Ok(n)
    case None => Err(ValueError)
  }

  /** Python's `float(s)`: a ValueError when the token is not a float literal. */
  function ToFloat(num: Conversions, s: string): (r: Result<real>)
    ensures r.Ok? <==> num.floatOf(Strip(s)).Some?
    ensures r.Ok? ==> r.value == num.floatOf(Strip(s)).value
    ensures r.Err? ==> r.error == ValueError
  {
    match num.floatOf(Strip(s))
    case Some(x) => Ok(x)
    case None => Err(ValueError)
  }

  /** Python's `int(x)` on a float: truncation toward zero. */
  function Trunc(x: real): (n: int)
    ensures 0.0 <= x ==> n as real <= x < n as real + 1.0
    ensures x < 0.0 ==> n as real - 1.0 < x <= n as real
  {
    if x >= 0.0 then x.Floor else -((-x).Floor)
  }

  /** `try: int(s) except ValueError: float(s)`. */
  function IntElseFloat(num: Conversions, s: string): (r: Result<Number>)
    ensures ToInt(num, s).Ok? ==> r == Ok(IntValue(ToInt(num, s).value))
    ensures ToInt(num, s).Err? && ToFloat(num, s).Ok? ==> r == Ok(FloatValue(ToFloat(num, s).value))
    ensures r.Err? <==> ToInt(num, s).Err? && ToFloat(num, s).Err?
  {
    match ToInt(num, s)
    case Ok(n) => Ok(IntValue(n))
    case Err(_) =>
      var x :- ToFloat(num, s);
      Ok(FloatValue(x))
  }
}
