/** What both pipeline scripts share: optional values, the outcome of a step,
    and the `log` helper whose ERROR level ends the process. */
module Etl {

  datatype Option<+T> = None | Some(value: T)

  /** The outcome of one pipeline step: the table it hands on, or the message
      of the ERROR-level `log` call that ended the process (exit status 1). */
  datatype Result<+T> = Ok(value: T) | Exit(message: string) {
    predicate IsFailure() { Exit? }

    function PropagateFailure<U>(): Result<U>
      requires Exit?
    {
      Exit(message)
    }

    function Extract(): T
      requires Ok?
    {
      value
    }
  }

  /** The level at which `log` terminates the process. */
  const ErrorLevel: string := "ERROR"

  /** The message every step logs when an exception escapes it. */
  const AnErrorOccurred: string := "An error occurred"

  /** `log(message, level)` followed by the rest of the step, which carries on
      with `next`. The printed line is not modelled; at level ERROR the call
      never returns. */
  function Log<T>(message: string, level: string, next: T): (r: Result<T>)
    ensures r.Exit? <==> level == ErrorLevel
    ensures r.Exit? ==> r.message == message
    ensures r.Ok? ==> r.value == next
  {
    if level == ErrorLevel then Exit(message) else Ok(next)
  }
}
