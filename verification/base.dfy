/** Shared result types: an optional value, and a value-or-exception result
    standing for the Python exceptions the evaluator raises or catches;
    Python's `int()` on a float; and the bound of a share. */
module Base {

  datatype Option<+T> = None | Some(value: T) {
    function GetOr(default: T): T {
      match this
      case Some(v) => v
      case None => default
    }
  }

  /** The Python exceptions that the modelled code raises on its error paths. */
  datatype Exc =
    | ZeroDivisionError
    | KeyError(key: string)
    | ValueError(message: string)
    /** What the scorers raise when handed no answer (`None`) instead of a string. */
    | MissingAnswer

  datatype Result<+T> = Ok(value: T) | Err(error: Exc)

  /** Python's `int(x)` on a float: truncation toward zero. */
  function Trunc(x: real): (n: int)
    ensures 0.0 <= x ==> n as real <= x < n as real + 1.0
    ensures x < 0.0 ==> n as real - 1.0 < x <= n as real
  {
    if x >= 0.0 then x.Floor else -((-x).Floor)
  }

  /** A part of a positive whole, as a real share, lies in [0, 1]. */
  lemma ShareInUnit(part: nat, whole: nat)
    requires part <= whole && whole > 0
    ensures 0.0 <= (part as real) / (whole as real) <= 1.0
  {
    var p := part as real;
    var w := whole as real;
    assert p / w <= w / w;
  }
}
