/** Small shared datatypes used by every module of the model. */
module Common {

  /** A value that may be absent (a missing request field, a `null`, an `undefined`). */
  datatype Option<+T> = None | Some(value: T)

  /** The outcome of an operation that may be refused with an error. */
  datatype Result<+T, +E> = Ok(value: T) | Err(error: E)

  /** A JSON-like scalar field value; Undefined is a key present with value `undefined`. */
  datatype Value = Null | Undefined | Int(i: int) | Text(s: string) | Bool(b: bool)

  /** The values both JavaScript and Python treat as false in a condition. */
  predicate Falsy(v: Value)
  {
    v == Null || v == Undefined || v == Int(0) || v == Text("") || v == Bool(false)
  }

  function Min(a: int, b: int): int { if a <= b then a else b }

  function Max(a: int, b: int): int { if a >= b then a else b }

  function Abs(x: int): nat { if x < 0 then -x else x }
}
