/** Error values of the interpreter.

    Every fallible operation of the interpreter returns either a value or a
    `LispError`, which in the original carries nothing but a message.  Two
    further kinds stand for behaviour that is not a `LispError` there:
    `Panic` is an arithmetic overflow, which aborts the Rust program (the
    message is the one a debug build prints), and `OutOfFuel` is the bound
    this model puts on evaluation and macro re-expansion, standing for a
    computation that does not terminate or exhausts the native stack. */
module Errors {

  datatype Option<+T> = None | Some(value: T)

  datatype LispError =
    | Message(text: string)
    | Panic(text: string)
    | OutOfFuel

  datatype Result<+T> = Ok(value: T) | Err(error: LispError) {
    predicate IsFailure() { Err? }

    function PropagateFailure<U>(): Result<U>
      requires Err?
    {
      Err(error)
    }

    function Extract(): T
      requires Ok?
    {
      value
    }
  }

  /** The usual way the original builds an error: `LispError::new(message)`. */
  function Fail<T>(message: string): Result<T> {
    Err(Message(message))
  }
}
