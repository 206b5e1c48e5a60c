/**
 * The outcome of one request to the remote REST API, as the front end sees it.
 * Every axios call of the application is replaced by a value of `Reply`, so
 * each handler becomes a total function of its inputs and that outcome.
 */
module Http {
  import opened Wrappers

  /** Why a request, or the code awaiting it, threw. */
  datatype Fault =
      /** An axios error carrying a response: its status, the `message`
          field of its JSON body (if any) and the error's own message. */
    | HttpError(status: int, serverMessage: Option<string>, message: string)
      /** An axios error without a response (network failure, timeout). */
    | NetworkError(message: string)
      /** Any other `Error` instance (a TypeError, an explicit `throw new Error`). */
    | PlainError(message: string)
      /** A thrown value that is not an `Error`. */
    | Thrown

  /** A request either resolves with a body or rejects with a fault. */
  datatype Reply<+T> = Ok(body: T) | Fail(fault: Fault)

  /** `axios.isAxiosError(err)` */
  predicate IsAxiosError(f: Fault) {
    f.HttpError? || f.NetworkError?
  }

  /** `err instanceof Error`: axios errors are Error instances too. */
  predicate IsError(f: Fault) {
    !f.Thrown?
  }

  /** `err.response?.data?.message` of an axios error. */
  function ResponseMessage(f: Fault): Option<string> {
    if f.HttpError? then f.serverMessage else None
  }

  /** `err.response?.status` of an axios error. */
  function ResponseStatus(f: Fault): Option<int> {
    if f.HttpError? then Some(f.status) else None
  }

  /** `err.message` of an Error instance. */
  function ErrorMessage(f: Fault): string
    requires IsError(f)
  {
    match f
    case HttpError(_, _, m) => m
    case NetworkError(m) => m
    case PlainError(m) => m
  }
}
