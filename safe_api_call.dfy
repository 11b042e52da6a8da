/** utils/network/SafeApiCall.kt: runs one API call and turns whatever it throws into a
    categorised `MovieError`, so that no failure escapes as an exception. The call itself and
    Gson's parsing of an error body are inputs: the first as the outcome of the call, the
    second as a function from the body text to what Gson would make of it. */
module SafeApi {
  import opened Wrappers
  import opened MovieErrors
  import Text

  /** What the suspended API call did: returned a value, or threw. */
  datatype CallOutcome<+T> = Returned(value: T) | Threw(throwable: Throwable)

  /** Gson's `fromJson(body, ApiErrorResponseBody)`: the parsed `status_message` (absent when
      the field or the whole object is null), or a parse exception. */
  datatype BodyParse = Parsed(statusMessage: Option<string>) | ParseFailed

  /** The `apiMessage` computed from an HTTP error body: nothing for an absent or blank body,
      nothing when parsing throws (the exception is only logged), else the parsed field. */
  function ApiMessage(errorBody: Option<string>, parse: string -> BodyParse): (m: Option<string>)
    ensures errorBody.None? || Text.IsBlank(errorBody.value) ==> m.None?
    ensures errorBody.Some? && !Text.IsBlank(errorBody.value) ==>
      (parse(errorBody.value).ParseFailed? ==> m.None?)
      && (parse(errorBody.value).Parsed? ==> m == parse(errorBody.value).statusMessage)
  {
    if errorBody.None? || Text.IsBlank(errorBody.value) then None
    else match parse(errorBody.value)
      case Parsed(statusMessage) => statusMessage
      case ParseFailed => None
  }

  /** `safeApiCall(dispatcher) { apiCall() }`. */
  function SafeApiCall<T>(outcome: CallOutcome<T>, parse: string -> BodyParse): (r: Result<T>)
    ensures r.Success? <==> outcome.Returned?
    ensures r.Success? ==> r.data == outcome.value
    ensures r.Error? ==> r.exception.Raised? && r.exception.error.Cause() == Some(outcome.throwable)
  {
    match outcome
    case Returned(v) => Success(v)
    case Threw(t) => Error(Raised(Classify(t, parse)))
  }

  /** The `when (throwable)` of the catch block. */
  function Classify(t: Throwable, parse: string -> BodyParse): (e: MovieError)
    ensures e.Cause() == Some(t)
    ensures e.NetworkConnectionProblem? <==> t.IOException?
    ensures e.HttpError? <==> t.HttpException?
    ensures e.UnexpectedDataSourceError? <==> !t.IOException? && !t.HttpException?
    ensures !e.ApiValidationProblem?
    ensures e.HttpError? ==>
      e.code == t.code && e.errorBody == t.errorBody && e.apiMessage == ApiMessage(t.errorBody, parse)
  {
    match t
    case IOException(_) => NetworkConnectionProblem(Some(t))
    case HttpException(code, errorBody, _) => HttpError(code, errorBody, ApiMessage(errorBody, parse), Some(t))
    case _ => UnexpectedDataSourceError(Some(t))
  }

  /** An HTTP failure always yields an `HttpError` with the response's code and body, whatever
      the parser does; only `apiMessage` depends on the parser. */
  lemma HttpFailureKeepsCode<T>(code: int, body: Option<string>, msg: Option<string>,
                                parse1: string -> BodyParse, parse2: string -> BodyParse)
    ensures var r1 := SafeApiCall<T>(Threw(HttpException(code, body, msg)), parse1);
            var r2 := SafeApiCall<T>(Threw(HttpException(code, body, msg)), parse2);
      && r1.Error? && r1.exception.error.HttpError?
      && r1.exception.error.code == code && r1.exception.error.errorBody == body
      && (body.None? || Text.IsBlank(body.value) ==> r1 == r2)
  {
  }
}
