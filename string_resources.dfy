/** The Android string resources the core refers to (`R.string.*`), and the text shown to the
    user: either a resource (resolved by the platform's string resource provider) or a raw
    string taken from a throwable. */
module StringResources {

  datatype StringRes =
    | ErrorAccessDenied | ErrorNotFound | ErrorBadRequest | ErrorServerUnavailable
    | ErrorServiceUnexpected | ErrorNoConnection | ErrorApiValidation | ErrorUnexpectedData
    | ErrorAccessDeniedService | ErrorNotFoundService | ErrorServiceUnavailableFallback
    | ErrorNetworkServiceCode | ErrorNetworkConnectionFallback | ErrorUnknown
    | SearchQueryTooShort | PopularMoviesEmpty | SearchNoResults | UnknownYear

  datatype UserMessage = Resource(id: StringRes) | Raw(text: string)
}
