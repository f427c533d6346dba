/** Small shared definitions: an optional value and integer helpers. */
module Common {

  datatype Option<T> = None | Some(value: T)

  /** Absolute value, as PHP's DateInterval::$days reports a distance. */
  function Abs(x: int): (r: nat)
    ensures r == x || r == -x
  {
    if x < 0 then -x else x
  }

  /** PHP's max() on two integers. */
  function Max(a: int, b: int): (r: int)
    ensures r >= a && r >= b
    ensures r == a || r == b
  {
    if a >= b then a else b
  }
}
