/** Small failure-carrying datatypes shared by every module of the model. */
module Wrappers {

  datatype Option<+T> = None | Some(value: T)

  datatype Result<+T, +E> = Success(value: T) | Failure(error: E)

  /** The outcome of a command that yields no value: it either passes or raises. */
  datatype Outcome<+E> = Pass | Fail(error: E)
}

/**
 * The exceptions the punch tool raises (its own exception classes) and the
 * Python built-in exceptions its code lets escape.
 */
module Errors {

  datatype PunchError =
    | PunchCommandError        // an invalid command or argument list
    | ToDoConfigNotFoundError  // todo.cfg could not be opened
    | ToDoFileNotFoundError    // todo.txt could not be opened
    | TaskFileNotFoundError    // the user-named task file could not be opened
    | TaskNotFoundError        // the task number is beyond the end of the task file
    | NoOpenTaskError          // 'out' while the last record is already complete
    | IndexError               // an uncaught list index out of range
    | ValueError               // an uncaught timestamp that does not parse
    | KeyError                 // an uncaught lookup of a missing configuration name
    | IOError                  // an uncaught failure to open punch.dat for reading
}
