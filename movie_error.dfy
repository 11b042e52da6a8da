/** The data layer's result container and its closed error taxonomy
    (utils/data/MovieError.kt; the `Result` type of utils/data is used there with the two
    variants `Success(data)` and `Error(exception)`). */
module MovieErrors {
  import opened Wrappers
  import Text

  /** A thrown value, as far as this core tells thrown values apart: an I/O failure,
      Retrofit's `HttpException` (status code and the raw error body of its response), any
      other throwable, or one of the app's own `MovieError`s. */
  datatype Throwable =
    | IOException(localizedMessage: Option<string>)
    | HttpException(code: int, errorBody: Option<string>, localizedMessage: Option<string>)
    | OtherThrowable(localizedMessage: Option<string>)
    | Raised(error: MovieError)

  /** The four categorised data-layer errors. Every variant carries an optional specific cause. */
  datatype MovieError =
    | HttpError(code: int, errorBody: Option<string>, apiMessage: Option<string>, specificCause: Option<Throwable>)
    | NetworkConnectionProblem(specificCause: Option<Throwable>)
    | ApiValidationProblem(details: string, specificCause: Option<Throwable>)
    | UnexpectedDataSourceError(specificCause: Option<Throwable>)
  {
    /** The `message` each variant passes to `Exception`. */
    function Message(): string {
      match this
      case HttpError(code, _, apiMessage, _) => apiMessage.GetOr(HTTP_ERROR_PREFIX + Text.IntToString(code))
      case NetworkConnectionProblem(_) => NETWORK_CONNECTION_MESSAGE
      case ApiValidationProblem(details, _) => API_VALIDATION_PREFIX + details
      case UnexpectedDataSourceError(_) => UNEXPECTED_DATA_SOURCE_MESSAGE
    }

    /** The `cause` each variant passes to `Exception`. */
    function Cause(): Option<Throwable> {
      specificCause
    }
  }

  const HTTP_ERROR_PREFIX := "HTTP error "
  const NETWORK_CONNECTION_MESSAGE := "Network connection problem"
  const API_VALIDATION_PREFIX := "API validation problem: "
  const UNEXPECTED_DATA_SOURCE_MESSAGE := "An unexpected data source error occurred"

  /** `ApiValidationProblem(details)` with its default `specificCause = null`. */
  function ValidationProblem(details: string): (e: MovieError)
    ensures e.ApiValidationProblem? && e.details == details && e.Cause() == None
  {
    ApiValidationProblem(details, None)
  }

  /** A throwable's `localizedMessage`; for a `MovieError` it is the variant's message. */
  function LocalizedMessage(t: Throwable): Option<string> {
    match t
    case Raised(e) => Some(e.Message())
    case IOException(m) => m
    case HttpException(_, _, m) => m
    case OtherThrowable(m) => m
  }

  /** Kotlin's `Result<T>`: a value or the throwable that stands for the failure. */
  datatype Result<+T> = Success(data: T) | Error(exception: Throwable)

  /** The message of an `HttpError`: the parsed API message when there is one, otherwise
      "HTTP error " followed by the status code in decimal, from which the code can be read back. */
  lemma HttpErrorMessage(code: int, errorBody: Option<string>, apiMessage: Option<string>, cause: Option<Throwable>)
    ensures var m := HttpError(code, errorBody, apiMessage, cause).Message();
      && (apiMessage.Some? ==> m == apiMessage.value)
      && (apiMessage.None? ==>
            && HTTP_ERROR_PREFIX <= m
            && var digits := m[|HTTP_ERROR_PREFIX|..];
               digits == Text.IntToString(code) && Text.ParseInt(digits) == code)
  {
    Text.IntToStringRoundTrip(code);
    var m := HttpError(code, errorBody, apiMessage, cause).Message();
    if apiMessage.None? {
      assert m == HTTP_ERROR_PREFIX + Text.IntToString(code);
      assert m[|HTTP_ERROR_PREFIX|..] == Text.IntToString(code);
    }
  }

  /** The fixed messages of the other three variants, and `cause == specificCause` in all four. */
  lemma MessagesAndCauses(e: MovieError)
    ensures e.NetworkConnectionProblem? ==> e.Message() == "Network connection problem"
    ensures e.UnexpectedDataSourceError? ==> e.Message() == "An unexpected data source error occurred"
    ensures e.ApiValidationProblem? ==>
      e.Message() == "API validation problem: " + e.details
      && e.Message()[|API_VALIDATION_PREFIX|..] == e.details
    ensures e.Cause() == e.specificCause
  {
  }
}
