// api_error.go: the translation of gRPC errors into the public error contract.
module ApiErrors {

  // The status codes of gRPC.
  datatype Code =
    | OK | Cancelled | Unknown | InvalidArgument | DeadlineExceeded | NotFound | AlreadyExists
    | PermissionDenied | ResourceExhausted | FailedPrecondition | Aborted | OutOfRange
    | Unimplemented | Internal | Unavailable | DataLoss | Unauthenticated

  // An error value of Go: one that carries a gRPC status, or any other.
  datatype Error = Status(code: Code, message: string) | Plain(message: string)

  // The name that grpc-go prints for a code.
  function CodeName(code: Code): string {
    match code
    case OK => "OK"
    case Cancelled => "Canceled"
    case Unknown => "Unknown"
    case InvalidArgument => "InvalidArgument"
    case DeadlineExceeded => "DeadlineExceeded"
    case NotFound => "NotFound"
    case AlreadyExists => "AlreadyExists"
    case PermissionDenied => "PermissionDenied"
    case ResourceExhausted => "ResourceExhausted"
    case FailedPrecondition => "FailedPrecondition"
    case Aborted => "Aborted"
    case OutOfRange => "OutOfRange"
    case Unimplemented => "Unimplemented"
    case Internal => "Internal"
    case Unavailable => "Unavailable"
    case DataLoss => "DataLoss"
    case Unauthenticated => "Unauthenticated"
  }

  // err.Error(): unlike the JSON answers, a STREAM_ERROR event carries the code in its text.
  function ErrorString(err: Error): string {
    match err
    case Plain(message) => message
    case Status(code, message) => "rpc error: code = " + CodeName(code) + " desc = " + message
  }

  const MODEL_TIMEOUT := "MODEL_TIMEOUT"
  const BACKEND_UNAVAILABLE := "BACKEND_UNAVAILABLE"
  const INVALID_ARGUMENT := "INVALID_ARGUMENT"
  const INTERNAL_ERROR := "INTERNAL_ERROR"
  const STREAM_ERROR := "STREAM_ERROR"

  // The JSON error body; the request identifier is not part of this model.
  datatype ApiError = ApiError(code: string, message: string)

  function ApiErrorFromGrpc(err: Error): (ApiError, int) {
    match err
    case Plain(message) => (ApiError(INTERNAL_ERROR, message), 500)
    case Status(code, message) =>
      match code
      case DeadlineExceeded => (ApiError(MODEL_TIMEOUT, message), 504)
      case Unavailable => (ApiError(BACKEND_UNAVAILABLE, message), 503)
      case InvalidArgument => (ApiError(INVALID_ARGUMENT, message), 400)
      case _ => (ApiError(INTERNAL_ERROR, message), 500)
  }

  // The mapping is an allow-list: three codes have their own answer, everything else is a
  // 500; the machine-readable code and the HTTP status determine each other, and the
  // message always passes through.
  lemma ApiErrorAllowList(err: Error, other: Error)
    ensures var (api, http) := ApiErrorFromGrpc(err);
            && (http == 504 <==> err.Status? && err.code == DeadlineExceeded)
            && (http == 503 <==> err.Status? && err.code == Unavailable)
            && (http == 400 <==> err.Status? && err.code == InvalidArgument)
            && (http == 500 <==> err.Plain? || err.code !in {DeadlineExceeded, Unavailable, InvalidArgument})
            && api.message == err.message
            && (http == 504 <==> api.code == "MODEL_TIMEOUT") && (http == 503 <==> api.code == "BACKEND_UNAVAILABLE")
            && (http == 400 <==> api.code == "INVALID_ARGUMENT") && (http == 500 <==> api.code == "INTERNAL_ERROR")
    ensures var (a, s) := ApiErrorFromGrpc(err);
            var (b, t) := ApiErrorFromGrpc(other);
            a.code == b.code <==> s == t
  {
    assert INVALID_ARGUMENT[2] == 'V' && INTERNAL_ERROR[2] == 'T';
    assert MODEL_TIMEOUT[0] == 'M' && BACKEND_UNAVAILABLE[0] == 'B';
    assert INVALID_ARGUMENT[0] == INTERNAL_ERROR[0] == 'I';
  }

  // How grpc-go prints an error with this code.
  ghost predicate PrintsAs(code: Code, name: string) {
    forall message :: ErrorString(Status(code, message)) == "rpc error: code = " + name + " desc = " + message
  }

  // The texts of the errors that the backend, an expired or a cancelled context cause.
  lemma ErrorStrings(message: string)
    ensures ErrorString(Plain(message)) == message
    ensures PrintsAs(InvalidArgument, "InvalidArgument") && PrintsAs(DeadlineExceeded, "DeadlineExceeded")
    ensures PrintsAs(Unavailable, "Unavailable") && PrintsAs(Internal, "Internal") && PrintsAs(Unknown, "Unknown")
    ensures PrintsAs(ResourceExhausted, "ResourceExhausted") && PrintsAs(Cancelled, "Canceled")
  {
  }
}
