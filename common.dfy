/** Small shared vocabulary: optional values, results, advisory records, prefixes. */
module Common {

  datatype Option<+T> = None | Some(value: T) {
    function GetOr(default: T): T {
      match this
      case Some(v) => v
      case None => default
    }
  }

  datatype Result<+T, +E> = Ok(value: T) | Err(error: E)

  /** The advisory object attached to a disease label: `thai_name`, `treatment`, `control`. */
  datatype Advice = Advice(thaiName: string, treatment: seq<string>, control: seq<string>)

  /** `s.startsWith(prefix)` in JavaScript, `s.startswith(prefix)` in Python. */
  predicate StartsWith(s: string, prefix: string) {
    |prefix| <= |s| && s[..|prefix|] == prefix
  }

  function Max(a: real, b: real): real {
    if a < b then b else a
  }
}
