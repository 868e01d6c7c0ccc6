/** Value types shared by every module of the model. */
module Base {

  /** A value that may be absent (`undefined` in the source, or a missing lookup). */
  datatype Option<+T> = None | Some(value: T)

  /** The outcome of an operation that either produces a value or fails with an error. */
  datatype Result<+T, +E> = Ok(value: T) | Err(error: E)

  /** A JavaScript field that can be left out (`undefined`), set to `null`, or hold a value. */
  datatype Nullable<+T> = Missing | Null | Present(value: T)

  /** The outcome of a call into the database or another collaborator: it returns a value or throws. */
  datatype Call<+T> = Returns(value: T) | Throws

  /** Instants are integer milliseconds since the Unix epoch, as `Date.now()` gives them. */
  type Millis = int

  /** The value, or the default when it is absent: a schema default or a `$set` that leaves a path out. */
  function GetOr<T>(o: Option<T>, default: T): T {
    if o.Some? then o.value else default
  }

  /** A boolean sort key: `true` sorts above `false` in a descending sort. */
  function Flag(b: bool): int {
    if b then 1 else 0
  }

  type byte = x: int | 0 <= x < 256

  function Min(a: int, b: int): int { if a <= b then a else b }
}
