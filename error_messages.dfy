/** ui/common/utils/ErrorMessageUtils.kt: `Throwable.toUserFriendlyMessage`. */
module ErrorMessages {
  import opened Wrappers
  import opened MovieErrors
  import opened StringResources
  import SafeApi

  /** The message for a categorised `HttpError`: each resource stands for exactly one band of
      status codes, the two named codes taking precedence over the 4xx band. */
  function HttpErrorMessageRes(code: int): (id: StringRes)
    ensures id == ErrorAccessDenied <==> code == 401 || code == 403
    ensures id == ErrorNotFound <==> code == 404
    ensures id == ErrorBadRequest <==> 400 <= code <= 499 && code != 401 && code != 403 && code != 404
    ensures id == ErrorServerUnavailable <==> 500 <= code <= 599
    ensures id == ErrorServiceUnexpected <==> code < 400 || code > 599
  {
    if code == 401 || code == 403 then ErrorAccessDenied
    else if code == 404 then ErrorNotFound
    else if 400 <= code <= 499 then ErrorBadRequest
    else if 500 <= code <= 599 then ErrorServerUnavailable
    else ErrorServiceUnexpected
  }

  /** The fallback message for a bare Retrofit `HttpException`: there is no 4xx band here, so
      every code other than 401, 403, 404 and 5xx gets the generic service-code message. */
  function HttpExceptionMessageRes(code: int): (id: StringRes)
    ensures id == ErrorAccessDeniedService <==> code == 401 || code == 403
    ensures id == ErrorNotFoundService <==> code == 404
    ensures id == ErrorServiceUnavailableFallback <==> 500 <= code <= 599
    ensures id == ErrorNetworkServiceCode <==>
      code != 401 && code != 403 && code != 404 && !(500 <= code <= 599)
  {
    if code == 401 || code == 403 then ErrorAccessDeniedService
    else if code == 404 then ErrorNotFoundService
    else if 500 <= code <= 599 then ErrorServiceUnavailableFallback
    else ErrorNetworkServiceCode
  }

  function MovieErrorMessageRes(e: MovieError): StringRes {
    match e
    case HttpError(code, _, _, _) => HttpErrorMessageRes(code)
    case NetworkConnectionProblem(_) => ErrorNoConnection
    case ApiValidationProblem(_, _) => ErrorApiValidation
    case UnexpectedDataSourceError(_) => ErrorUnexpectedData
  }

  function ToUserFriendlyMessage(t: Throwable): (m: UserMessage)
    ensures t.Raised? ==> m == Resource(MovieErrorMessageRes(t.error))
    ensures t.HttpException? ==> m == Resource(HttpExceptionMessageRes(t.code))
    ensures t.IOException? ==> m == Resource(ErrorNetworkConnectionFallback)
    ensures m.Raw? <==> t.OtherThrowable? && t.localizedMessage.Some?
    ensures m.Raw? ==> m.text == t.localizedMessage.value
  {
    match t
    case Raised(e) => Resource(MovieErrorMessageRes(e))
    case HttpException(code, _, _) => Resource(HttpExceptionMessageRes(code))
    case IOException(_) => Resource(ErrorNetworkConnectionFallback)
    case OtherThrowable(localizedMessage) =>
      if localizedMessage.Some? then Raw(localizedMessage.value) else Resource(ErrorUnknown)
  }

  /** No categorised error reaches the user as raw text, and none of them is shown with a
      fallback message: only the first eight resources are used for them. */
  lemma MovieErrorsUseCategoryMessages(e: MovieError)
    ensures var m := ToUserFriendlyMessage(Raised(e));
      m.Resource? && m.id in {ErrorAccessDenied, ErrorNotFound, ErrorBadRequest, ErrorServerUnavailable,
                              ErrorServiceUnexpected, ErrorNoConnection, ErrorApiValidation, ErrorUnexpectedData}
    ensures e.ApiValidationProblem? ==> ToUserFriendlyMessage(Raised(e)) == Resource(ErrorApiValidation)
  {
  }

  /** Every failure that comes out of the safe-call wrapper is shown with a category message:
      a network failure as "no connection", an HTTP failure by its status band, anything else
      as "unexpected data"; its message and the error body play no part. */
  lemma SafeCallFailuresMessage<T>(outcome: SafeApi.CallOutcome<T>, parse: string -> SafeApi.BodyParse)
    requires outcome.Threw?
    ensures var r := SafeApi.SafeApiCall(outcome, parse);
      && r.Error?
      && var m := ToUserFriendlyMessage(r.exception);
      && (outcome.throwable.IOException? ==> m == Resource(ErrorNoConnection))
      && (outcome.throwable.HttpException? ==> m == Resource(HttpErrorMessageRes(outcome.throwable.code)))
      && (!outcome.throwable.IOException? && !outcome.throwable.HttpException? ==>
            m == Resource(ErrorUnexpectedData))
  {
  }
}
