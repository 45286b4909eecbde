/**
 * The crate's error type and the outcome of a fallible operation.
 *
 * A Rust panic (a `Buf` read past the end, `unwrap` of an `Err`,
 * `unimplemented!`, `unreachable!`, a capacity overflow) is not a value in
 * Rust, but the model needs to tell it apart from an `Err`: the lenient
 * compound reader stops quietly on an `Err` of a child, while a panic
 * unwinds through everything. `Result` therefore has a third case, `Panic`,
 * which every `:-` propagates just as `?` in Rust propagates an `Err` and
 * unwinding propagates a panic.
 */
module Errors {

  datatype Option<T> = None | Some(value: T)

  /**
   * The variants of the crate's `Error` enum, less the `Io` variant that
   * wraps an operating-system error.
   */
  datatype Error =
    | NoRootCompound(id: int)
    | InvalidJavaString
    | UnknownTagId(id: int)
    | SerdeError(message: string)
    | UnsupportedType(kind: string)
    | NotEnoughBytes(requested: nat, available: nat)
    | InvalidSkip(amount: nat, available: nat)

  datatype Result<T> = Ok(value: T) | Err(error: Error) | Panic
  {
    predicate IsFailure() {
      !Ok?
    }

    function PropagateFailure<U>(): Result<U>
      requires !Ok?
    {
      if Err? then Err(error) else Panic
    }

    function Extract(): T
      requires Ok?
    {
      value
    }
  }
}
