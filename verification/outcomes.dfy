/** HTTP-level outcomes of the vault's handlers.

    Every handler of the service either succeeds with a value or raises an
    HTTPException carrying one of three status codes. Unhandled Python
    exceptions (FileExistsError from makedirs, IsADirectoryError from open, a
    UnicodeDecodeError while reading) surface as 500 as well.
 */
module Outcomes {

  /** The three error classes the handlers produce. */
  datatype Failure =
    | BadRequest   // 400: bad path shape, wrong extension, traversal, invalid JSON
    | NotFound     // 404: missing file or directory
    | ServerError  // 500: any other I/O failure

  /** The HTTP status code that a failure is reported with. */
  function StatusCode(f: Failure): (code: int)
    ensures 400 <= code < 600
    ensures f == BadRequest <==> code == 400
    ensures f == NotFound <==> code == 404
    ensures f == ServerError <==> code == 500
  {
    match f
    case BadRequest => 400
    case NotFound => 404
    case ServerError => 500
  }

  /** An optional value. */
  datatype Option<+T> = None | Some(value: T)

  /** Either a successful value or the failure the handler raised. */
  datatype Result<+T> = Ok(value: T) | Err(failure: Failure)
}
