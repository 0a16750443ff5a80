/** Option and Result, as the repository's Rust code uses them, and a set of one or none. */
module Prelude {

  datatype Option<+T> = None | Some(value: T)

  datatype Result<+T, +E> = Ok(value: T) | Err(error: E)

  /** `e`, when it is the case. */
  function When<T>(holds: bool, e: T): (s: set<T>)
    ensures s <= {e} && (e in s <==> holds)
  {
    if holds then {e} else {}
  }
}
