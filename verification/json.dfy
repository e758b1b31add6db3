/**
 * Decoded JSON values, as Python's `json` module hands them to the handlers.
 * An integer literal decodes to a Python `int` (`Int`); any other number decodes
 * to a `float` (`Num`). Python's decoder accepts the tokens `NaN`, `Infinity`
 * and `-Infinity`, so a float may be non-finite; finite ones are exact reals.
 */
module Json {

  /** An IEEE double as seen by comparisons only: a finite value or one of the three specials. */
  datatype Float = Finite(value: real) | NaN | PosInf | NegInf

  datatype Json =
    | Null
    | Bool(flag: bool)
    | Int(integer: int)
    | Num(number: Float)
    | Str(text: string)
    | Arr(items: seq<Json>)
    | Obj(fields: map<string, Json>)

  /** A finite JSON float. */
  function Real(x: real): Json {
    Num(Finite(x))
  }
}
