/** The exceptions the interpreter raises, and the failure-compatible wrappers that carry them. */
module Errors {

  /** An exception of the interpreter.
      IllegalArgument, InvalidState and BusinessLogic are the three exception classes the program declares;
      Fault stands for every other Error object (a plain `Error`, a `TypeError`, a `ReferenceError`, a driver
      error), identified by its constructor name and message. */
  datatype Error =
    | IllegalArgument(message: string)
    | InvalidState(message: string)
    | BusinessLogic(status: int, message: string)
    | Fault(name: string, message: string)

  /** The constructor name `e.toString()` starts with: the three declared classes keep "Error". */
  function ErrorName(e: Error): string {
    if e.Fault? then e.name else "Error"
  }

  /** The text `e.toString()` produces: the name alone for an empty message, and otherwise the name,
      ": " and the message. */
  function ErrorText(e: Error): (t: string)
    ensures |ErrorName(e)| <= |t| && t[..|ErrorName(e)|] == ErrorName(e)
    ensures t == ErrorName(e) <==> e.message == ""
    ensures e.message != "" ==> t[|ErrorName(e)|..] == ": " + e.message
  {
    var name := ErrorName(e);
    if e.message == "" then name else name + ": " + e.message
  }

  /** The TypeError raised when `.name` is read from an absent resultset column descriptor. */
  const MissingColumn: Error := Fault("TypeError", "Cannot read properties of undefined (reading 'name')")

  datatype Option<+T> = None | Some(value: T)

  /** Either the value a call returns or the exception it throws. */
  datatype Result<+T> = Ok(value: T) | Err(error: Error) {
    predicate IsFailure() { Err? }

    function PropagateFailure<U>(): Result<U>
      requires Err?
    {
      Err(error)
    }

    function Extract(): T
      requires Ok?
    {
      value
    }
  }

  /** The outcome of a call that returns nothing. */
  type Outcome = Result<()>

  const Done: Outcome := Ok(())
}
