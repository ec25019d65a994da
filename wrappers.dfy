/** Option and Result, plus the .NET exception kinds that the modelled calls can raise. */
module Wrappers {

  datatype Option<+T> = None | Some(value: T)

  /** A value, or the exception that the modelled C# code would throw instead. */
  datatype Result<+T, +E> = Ok(value: T) | Err(error: E) {

    predicate IsFailure() {
      Err?
    }

    function PropagateFailure<U>(): Result<U, E>
      requires Err?
    {
      Err(error)
    }

    function Extract(): T
      requires Ok?
    {
      value
    }
  }

  /**
   * The exception kinds the modelled code distinguishes, by what a
   * `catch (InvalidOperationException)` clause does with them.
   */
  datatype Exception =
    | ArgumentOutOfRange       // System.ArgumentOutOfRangeException (String.Remove, String.Insert)
    | NullReference            // System.NullReferenceException (a member read on null)
    | InvalidOperation         // System.InvalidOperationException or any type derived from it
                               // (ObjectDisposedException, ...): caught by that clause
    | Other(name: string)      // any exception type not derived from InvalidOperationException,
                               // by name: not caught by that clause
}
