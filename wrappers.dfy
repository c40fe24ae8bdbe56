/** Option and Result, as the Rust code uses them (`Option<T>`, `Result<T, E>`),
    usable with Dafny's `:-` operator so that `?` propagation reads the same,
    and the value-and-position pair that the parsers' steps return. */
module Wrappers {

  datatype Option<+T> = None | Some(value: T) {
    predicate IsFailure() {
      None?
    }

    function PropagateFailure<U>(): Option<U>
      requires None?
    {
      None
    }

    function Extract(): T
      requires Some?
    {
      value
    }
  }

  datatype Result<+T, +E> = Ok(value: T) | Err(error: E) {
    predicate IsFailure() {
      Err?
    }

    function PropagateFailure<U>(): Result<U, E>
      requires Err?
    {
      Err(error)
    }

    function Extract(): T
      requires Ok?
    {
      value
    }
  }

  /** What a parsing step produced and the position it left the cursor at. */
  datatype Parsed<+T> = Parsed(value: T, pos: nat)
}
