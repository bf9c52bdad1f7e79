/** Classified, positioned errors raised by the DDL executor, and the result
    type that replaces Python's `raise` in this model. */
module Errors {

  /** The error classes of `parse.errors.ErrorType`. */
  datatype ErrorType = Syntax | Semantic | Runtime

  /** An error carries a position (line, column), a class and a message. */
  datatype Error = Error(line: int, column: int, kind: ErrorType, message: string)

  /** What a statement either answers with or fails with. */
  datatype Result<+T> = Ok(value: T) | Err(error: Error)

  const SystemError: string := "5800: system_error"
  const DuplicateDatabase: string := "42P04: duplicate_database"
  const DatabaseDoesNotExist: string := "42P04: database_does_not_exists"
  const DuplicateTable: string := "42P07: duplicate_table"

  /** Every storage failure is reported as a RUNTIME error at position (0, 0),
      since it is detected after parsing and tied to no token. */
  function RuntimeError(message: string): Error {
    Error(0, 0, Runtime, message)
  }
}
