/**
 * Go's `error` values as the rest of the model sees them.
 *
 * A Go function that returns `error` returns `Option<Error>` here: `None` is `nil`.
 * The sentinel errors the core compares against are constructors of their own;
 * every other failure of a driver, broker or decoder is an `Opaque` value that
 * the model only passes along. `fmt.Errorf("...: %w", err)` is `Wrapped`, and
 * `errors.Is` walks the chain of wrapped causes.
 */
module Errors {

  datatype Option<+T> = None | Some(value: T)

  datatype Result<+T, +E> = Ok(value: T) | Err(error: E)

  datatype Error =
    | Opaque(code: nat)                    // a failure the model cannot see into
    | ErrNoRows                            // database/sql: sql.ErrNoRows
    | ErrTxDone                            // database/sql: sql.ErrTxDone
    | ErrOrderNotFound                     // entities.ErrOrderNotFound
    | EOF                                  // io.EOF
    | Canceled                             // context.Canceled
    | Wrapped(context: string, cause: Error)  // fmt.Errorf("<context>: %w", cause)

  /** `errors.Is(err, target)`: `err` is `target` or wraps it, however deeply. */
  predicate Is(err: Error, target: Error)
  {
    err == target || (err.Wrapped? && Is(err.cause, target))
  }

  /** `fmt.Errorf(context + ": %w", err)`. */
  function Wrap(context: string, err: Error): (r: Error)
    ensures forall target :: Is(err, target) ==> Is(r, target)
    ensures r != err
  {
    Wrapped(context, err)
  }
}
