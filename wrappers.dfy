/** Option and Result values, and the failures the repository's code raises. */
module Wrappers {

  datatype Option<+T> = None | Some(value: T) {
    function GetOr(default: T): T {
      match this
      case Some(v) => v
      case None => default
    }
  }

  /** The exceptions of the Python code, by kind. */
  datatype Error =
    | NotFound(what: string)              // `ValueError("Company not found")`
    | ForeignKeyViolation(table: string)  // sqlite3.IntegrityError on a dangling reference
    | MissingKey(key: string)             // KeyError on a dict lookup
    | SqlSyntax                           // sqlite3.OperationalError on a malformed statement

  datatype Result<+T> = Ok(value: T) | Err(error: Error)
}
