/** data/remote/datasource: the remote data source in front of the TMDB API. Each operation
    either rejects its arguments before any request is made, or issues exactly one request,
    whose outcome goes through the safe-call wrapper. The HTTP transport is a function from
    the request to its outcome, one per response type, and Gson's error-body parser is a
    parameter (see SafeApi). */
module RemoteDataSource {
  import opened Wrappers
  import opened MovieErrors
  import opened Dtos
  import opened SafeApi
  import Text

  /** A request to the TMDB API with every query parameter written out, the defaults of
      data/remote/api/MovieApiService.kt filled in. */
  datatype ApiRequest =
    | PopularMoviesRequest(language: string, page: int)
    | SearchMoviesRequest(query: string, language: string, page: int, includeAdult: bool)
    | MovieDetailsRequest(movieId: int, language: string)
    | SimilarMoviesRequest(movieId: int, language: string, page: int)
    | MovieCreditsRequest(movieId: int, language: string)

  const DEFAULT_LANGUAGE := "en-US"
  const DEFAULT_PAGE := 1

  /** What an operation does before contacting the network. */
  datatype Call = Rejected(error: MovieError) | Issued(request: ApiRequest)

  const BLANK_QUERY_DETAILS := "Query cannot be blank"
  const INVALID_MOVIE_ID_DETAILS := "Invalid movieId"

  /** The popular list: always the first page, whatever page was asked for. */
  function PopularMoviesCall(page: int): (c: Call)
    ensures c == Issued(PopularMoviesRequest(DEFAULT_LANGUAGE, DEFAULT_PAGE))
  {
    Issued(PopularMoviesRequest(DEFAULT_LANGUAGE, DEFAULT_PAGE))
  }

  /** Search: a blank query is rejected with a validation error; otherwise the trimmed query
      is sent, for the first page, without adult titles. */
  function SearchMoviesCall(query: string, page: int): (c: Call)
    ensures c.Rejected? <==> Text.IsBlank(query)
    ensures c.Rejected? ==> c.error == ValidationProblem(BLANK_QUERY_DETAILS)
    ensures c.Issued? ==>
      && c.request.SearchMoviesRequest? && c.request.query == Text.Trim(query) && c.request.query != []
      && c.request == SearchMoviesRequest(c.request.query, DEFAULT_LANGUAGE, DEFAULT_PAGE, false)
  {
    Text.BlankIffTrimEmpty(query);
    if Text.IsBlank(query) then Rejected(ValidationProblem(BLANK_QUERY_DETAILS))
    else Issued(SearchMoviesRequest(Text.Trim(query), DEFAULT_LANGUAGE, DEFAULT_PAGE, false))
  }

  /** The three per-movie calls reject an id that is not positive. */
  function MovieDetailsCall(movieId: int): (c: Call)
    ensures c.Rejected? <==> movieId <= 0
    ensures c.Rejected? ==> c.error == ValidationProblem(INVALID_MOVIE_ID_DETAILS)
    ensures c.Issued? ==> c.request == MovieDetailsRequest(movieId, DEFAULT_LANGUAGE)
  {
    if movieId <= 0 then Rejected(ValidationProblem(INVALID_MOVIE_ID_DETAILS))
    else Issued(MovieDetailsRequest(movieId, DEFAULT_LANGUAGE))
  }

  function SimilarMoviesCall(movieId: int, page: int): (c: Call)
    ensures c.Rejected? <==> movieId <= 0
    ensures c.Rejected? ==> c.error == ValidationProblem(INVALID_MOVIE_ID_DETAILS)
    ensures c.Issued? ==> c.request == SimilarMoviesRequest(movieId, DEFAULT_LANGUAGE, DEFAULT_PAGE)
  {
    if movieId <= 0 then Rejected(ValidationProblem(INVALID_MOVIE_ID_DETAILS))
    else Issued(SimilarMoviesRequest(movieId, DEFAULT_LANGUAGE, DEFAULT_PAGE))
  }

  function MovieCreditsCall(movieId: int): (c: Call)
    ensures c.Rejected? <==> movieId <= 0
    ensures c.Rejected? ==> c.error == ValidationProblem(INVALID_MOVIE_ID_DETAILS)
    ensures c.Issued? ==> c.request == MovieCreditsRequest(movieId, DEFAULT_LANGUAGE)
  {
    if movieId <= 0 then Rejected(ValidationProblem(INVALID_MOVIE_ID_DETAILS))
    else Issued(MovieCreditsRequest(movieId, DEFAULT_LANGUAGE))
  }

  /** Carries out a call: a rejection is the result without any request; an issued request
      is sent through `api` inside the safe-call wrapper. */
  function Perform<T>(c: Call, api: ApiRequest -> CallOutcome<T>, parse: string -> BodyParse): (r: Result<T>)
    ensures c.Rejected? ==> r == Error(Raised(c.error))
    ensures c.Issued? ==> r == SafeApiCall(api(c.request), parse)
  {
    match c
    case Rejected(e) => Error(Raised(e))
    case Issued(request) => SafeApiCall(api(request), parse)
  }

  /** The interface data/remote/datasource/MovieRemoteDataSource.kt, as a record of its five
      operations. */
  datatype MovieRemoteDataSource = MovieRemoteDataSource(
    getPopularMovies: int -> Result<MoviesListResponse>,
    searchMovies: (string, int) -> Result<MoviesListResponse>,
    getMovieDetails: int -> Result<MovieDetailDto>,
    getSimilarMovies: (int, int) -> Result<MoviesListResponse>,
    getMovieCredits: int -> Result<MovieCreditsDto>)

  /** The HTTP transport, one function per response type. */
  datatype MovieApiService = MovieApiService(
    lists: ApiRequest -> CallOutcome<MoviesListResponse>,
    details: ApiRequest -> CallOutcome<MovieDetailDto>,
    credits: ApiRequest -> CallOutcome<MovieCreditsDto>)

  /** `MovieRemoteDataSourceImpl(apiService, ioDispatcher)`. */
  function MovieRemoteDataSourceImpl(api: MovieApiService, parse: string -> BodyParse): (ds: MovieRemoteDataSource)
    ensures forall page :: ds.getPopularMovies(page) == Perform(PopularMoviesCall(page), api.lists, parse)
    ensures forall query, page :: ds.searchMovies(query, page) == Perform(SearchMoviesCall(query, page), api.lists, parse)
    ensures forall id :: ds.getMovieDetails(id) == Perform(MovieDetailsCall(id), api.details, parse)
    ensures forall id, page :: ds.getSimilarMovies(id, page) == Perform(SimilarMoviesCall(id, page), api.lists, parse)
    ensures forall id :: ds.getMovieCredits(id) == Perform(MovieCreditsCall(id), api.credits, parse)
  {
    MovieRemoteDataSource(
      page => Perform(PopularMoviesCall(page), api.lists, parse),
      (query, page) => Perform(SearchMoviesCall(query, page), api.lists, parse),
      id => Perform(MovieDetailsCall(id), api.details, parse),
      (id, page) => Perform(SimilarMoviesCall(id, page), api.lists, parse),
      id => Perform(MovieCreditsCall(id), api.credits, parse))
  }

  /** A blank search query never reaches the network: the result is the same validation
      error whatever the transport would have answered. */
  lemma BlankQueryIssuesNoRequest(query: string, page: int, api1: MovieApiService, api2: MovieApiService,
                                  parse: string -> BodyParse)
    requires Text.IsBlank(query)
    ensures var r := MovieRemoteDataSourceImpl(api1, parse).searchMovies(query, page);
      r == MovieRemoteDataSourceImpl(api2, parse).searchMovies(query, page)
      && r == Error(Raised(ApiValidationProblem("Query cannot be blank", None)))
  {
  }

  /** A positive id is required by every per-movie operation: otherwise each answers with the
      invalid-id validation error and no transport is consulted. */
  lemma InvalidIdIssuesNoRequest(movieId: int, page: int, api1: MovieApiService, api2: MovieApiService,
                                 parse: string -> BodyParse)
    requires movieId <= 0
    ensures var ds1 := MovieRemoteDataSourceImpl(api1, parse);
            var ds2 := MovieRemoteDataSourceImpl(api2, parse);
            var e := Raised(ApiValidationProblem("Invalid movieId", None));
      && ds1.getMovieDetails(movieId) == ds2.getMovieDetails(movieId) == Error(e)
      && ds1.getSimilarMovies(movieId, page) == ds2.getSimilarMovies(movieId, page) == Error(e)
      && ds1.getMovieCredits(movieId) == ds2.getMovieCredits(movieId) == Error(e)
  {
  }

  /** The page argument of the list operations is not forwarded: every page asked for gives
      the answer to the first page. */
  lemma PageIsNotForwarded(api: MovieApiService, parse: string -> BodyParse, query: string, movieId: int, p1: int, p2: int)
    ensures var ds := MovieRemoteDataSourceImpl(api, parse);
      && ds.getPopularMovies(p1) == ds.getPopularMovies(p2)
      && ds.searchMovies(query, p1) == ds.searchMovies(query, p2)
      && ds.getSimilarMovies(movieId, p1) == ds.getSimilarMovies(movieId, p2)
  {
  }

  /** Search sends the trimmed query: queries that differ only in surrounding whitespace get
      the same answer. */
  lemma SearchSendsTrimmedQuery(api: MovieApiService, parse: string -> BodyParse, q1: string, q2: string, page: int)
    requires Text.Trim(q1) == Text.Trim(q2)
    ensures var ds := MovieRemoteDataSourceImpl(api, parse);
      ds.searchMovies(q1, page) == ds.searchMovies(q2, page)
  {
    Text.BlankIffTrimEmpty(q1);
    Text.BlankIffTrimEmpty(q2);
  }

  /** A valid request whose call returns yields exactly the returned body. */
  lemma ValidCallPassesBodyThrough(api: MovieApiService, parse: string -> BodyParse, movieId: int)
    requires movieId > 0
    requires api.details(MovieDetailsRequest(movieId, DEFAULT_LANGUAGE)).Returned?
    ensures MovieRemoteDataSourceImpl(api, parse).getMovieDetails(movieId)
         == Success(api.details(MovieDetailsRequest(movieId, "en-US")).value)
  {
  }
}
