/** Outcomes shared by futures, tasks and scopes.
    A `Result` is terminal: it is what a future settles with, at most once. */
module Results {

  datatype Option<+T> = None | Some(value: T)

  /** A host exception; the model keeps only its message. */
  datatype Exception = Exception(message: string)

  /** The distinguished error that stands for a halt wherever the halt
      has to travel as an exception (into a generator, to a promise). */
  const HaltError: Exception := Exception("halt")

  /** `{type: "value", value}`, `{type: "error", error}` or `{type: "halt"}`. */
  datatype Result<+T> = Value(value: T) | Error(error: Exception) | Halt

  /** The `Result<void>` that `destroy` and halt acknowledgments carry. */
  type Unit = ()
}
