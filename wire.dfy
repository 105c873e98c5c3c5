/**
 * The prediction objects as the browser client receives them in the `/predict`
 * response, and JavaScript's `Number(...)` conversion of their numeric fields.
 */
module Wire {
  import opened Common

  /**
   * A JSON field the client converts with `Number(...)`:
   * absent (`undefined`), `null`, a number, or any other value whose
   * conversion is NaN (a non-numeric string, an object).
   */
  datatype Field = Undefined | Null | Num(v: real) | Other

  /** A JavaScript number that is either NaN or finite. */
  datatype Number = NaN | Finite(v: real)

  /** `Number(f)`: `null` converts to 0, `undefined` and non-numeric values to NaN. */
  function ToNumber(f: Field): Number {
    match f
    case Undefined => NaN
    case Null => Finite(0.0)
    case Num(v) => Finite(v)
    case Other => NaN
  }

  /** Box corners in the image's natural pixel space. */
  datatype Box = Box(x1: real, y1: real, x2: real, y2: real)

  /** One element of `predictions`: `class_id`, `label` (here `name`), `confidence`, `box`, `is_disease`, `advice`. */
  datatype Pred = Pred(
    classId: Field,
    name: string,
    confidence: Field,
    box: Box,
    isDisease: bool,
    advice: Option<Advice>)

  /** The parsed JSON body of a successful `/predict` reply; `predictions` may be missing. */
  datatype Body = Body(predictions: Option<seq<Pred>>)
}
