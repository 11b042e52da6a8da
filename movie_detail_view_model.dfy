/** ui/details/MovieDetailViewModel.kt: the three sections of the detail screen (the movie,
    its similar movies, and their credits), each with its own loading and error state. A
    `launch` block is one transition here: the awaited use cases' answers are given to it as a
    `Fetched` value, and it returns the ids it asked the credits for, if it did. */
module MovieDetails {
  import MovieErrors
  import opened Domain
  import opened StringResources
  import opened UiStates
  import opened Wrappers
  import ErrorMessages
  import RemoteDataSource
  import Repository
  import Sorting
  import UseCases

  datatype MovieDetailScreenState = MovieDetailScreenState(
    movieDetail: UiState<MovieDetail>,
    similarMovies: UiState<seq<Movie>>,
    similarMovieCredits: UiState<GroupedMovieContributors>,
    isOverallLoading: bool)

  /** `MovieDetailScreenState()` with every default: every section loading. */
  const INITIAL_STATE := MovieDetailScreenState(Loading, Loading, Loading, true)

  datatype DetailScreenSection = DETAILS | SIMILAR_MOVIES_AND_CREDITS

  /** What the use cases answer while one `launch` block awaits them: the movie's details, its
      similar movies, and the credits use case as a function of the ids it is asked for. */
  datatype Fetched = Fetched(
    detail: MovieErrors.Result<MovieDetail>,
    similar: MovieErrors.Result<seq<Movie>>,
    credits: seq<int> -> MovieErrors.Result<GroupedMovieContributors>)

  /** The state after a transition and the ids the credits were asked for, if they were. */
  datatype Step = Step(state: MovieDetailScreenState, creditsRequest: Option<seq<int>>)

  /** The credits section when there are no similar movies. */
  const NO_CREDITS := GroupedMovieContributors([], [])

  /** A use case's answer shown in a section: the data, or the user-facing message of the
      failure. A section shown this way is never loading. */
  function Shown<T>(r: MovieErrors.Result<T>): (u: UiState<T>)
    ensures !u.Loading?
    ensures u.Success? <==> r.Success?
    ensures r.Success? ==> u.data == r.data
    ensures r.Error? ==> u.message == ErrorMessages.ToUserFriendlyMessage(r.exception)
  {
    match r
    case Success(data) => Success(data)
    case Error(e) => Error(ErrorMessages.ToUserFriendlyMessage(e))
  }

  /** The ids of the movies, in list order (the `map` to ids). */
  function MovieIds(ms: seq<Movie>): (ids: seq<int>)
    ensures |ids| == |ms|
    ensures forall i :: 0 <= i < |ms| ==> ids[i] == ms[i].id
  {
    seq(|ms|, i requires 0 <= i < |ms| => ms[i].id)
  }

  /** The similar-movies half of `fetchAllMovieInfo` and of the second retry: the credits are
      asked for, with the similar movies' ids in order, only when there are similar movies;
      with none the credits are an empty success, and a failure fills both sections with the
      same message. The movie's section and the overall flag are left alone. */
  function SimilarAndCredits(s: MovieDetailScreenState, similar: MovieErrors.Result<seq<Movie>>,
                             credits: seq<int> -> MovieErrors.Result<GroupedMovieContributors>): (r: Step)
    ensures r.state.movieDetail == s.movieDetail && r.state.isOverallLoading == s.isOverallLoading
    ensures r.creditsRequest.Some? <==> similar.Success? && similar.data != []
    ensures similar.Success? ==> r.state.similarMovies == Success(similar.data)
    ensures similar.Success? && similar.data == [] ==> r.state.similarMovieCredits == Success(NO_CREDITS)
    ensures similar.Success? && similar.data != [] ==>
      && r.creditsRequest == Some(MovieIds(similar.data))
      && r.state.similarMovieCredits == Shown(credits(MovieIds(similar.data)))
    ensures similar.Error? ==>
      var message := ErrorMessages.ToUserFriendlyMessage(similar.exception);
      r.state.similarMovies == Error(message) && r.state.similarMovieCredits == Error(message)
  {
    match similar
    case Success(movies) =>
      if movies != [] then
        var ids := MovieIds(movies);
        Step(s.(similarMovies := Success(movies), similarMovieCredits := Shown(credits(ids))), Some(ids))
      else
        Step(s.(similarMovies := Success(movies), similarMovieCredits := Success(NO_CREDITS)), None)
    case Error(e) =>
      var message := ErrorMessages.ToUserFriendlyMessage(e);
      Step(s.(similarMovies := Error(message), similarMovieCredits := Error(message)), None)
  }

  /** `fetchAllMovieInfo`: every section is reloaded from scratch, so the outcome depends on
      the answers alone, and the overall loading is over at the end. */
  function FetchAll(fetched: Fetched): (r: Step)
    ensures !r.state.isOverallLoading
    ensures r.state.movieDetail == Shown(fetched.detail)
    ensures var a := SimilarAndCredits(INITIAL_STATE.(movieDetail := Shown(fetched.detail)), fetched.similar, fetched.credits);
      r == a.(state := a.state.(isOverallLoading := false))
  {
    var afterSimilar := SimilarAndCredits(INITIAL_STATE.(movieDetail := Shown(fetched.detail)), fetched.similar, fetched.credits);
    afterSimilar.(state := afterSimilar.state.(isOverallLoading := false))
  }

  /** `retrySection(section)`: reloads one section (the similar movies and their credits
      count as one) and touches nothing else, the overall flag included. */
  function Retry(s: MovieDetailScreenState, section: DetailScreenSection, fetched: Fetched): (r: Step)
    ensures r.state.isOverallLoading == s.isOverallLoading
    ensures section == DETAILS ==>
      && r.state == s.(movieDetail := Shown(fetched.detail))
      && r.creditsRequest == None
    ensures section == SIMILAR_MOVIES_AND_CREDITS ==>
      && r.state.movieDetail == s.movieDetail
      && r == SimilarAndCredits(s, fetched.similar, fetched.credits)
  {
    match section
    case DETAILS => Step(s.(movieDetail := Shown(fetched.detail)), None)
    case SIMILAR_MOVIES_AND_CREDITS => SimilarAndCredits(s, fetched.similar, fetched.credits)
  }

  /** `toggleWatchlistStatus` once the use case answered `newStatus`: only a movie on screen
      is toggled, and only its watchlist flag changes; otherwise nothing happens. */
  function DetailToggled(s: MovieDetailScreenState, newStatus: bool): (r: MovieDetailScreenState)
    ensures !s.movieDetail.Success? ==> r == s
    ensures s.movieDetail.Success? ==>
      && r.movieDetail.Success?
      && r.movieDetail.data.isInWatchlist == newStatus
      && r.movieDetail.data.(isInWatchlist := s.movieDetail.data.isInWatchlist) == s.movieDetail.data
    ensures r.similarMovies == s.similarMovies && r.similarMovieCredits == s.similarMovieCredits
    ensures r.isOverallLoading == s.isOverallLoading
  {
    if s.movieDetail.Success? then
      s.(movieDetail := Success(s.movieDetail.data.(isInWatchlist := newStatus)))
    else s
  }

  /** How the sections fit together whatever the transitions so far: the credits wait for the
      similar movies, share their failure and are empty when there are none; and once the
      overall loading is over no section is loading. */
  ghost predicate Consistent(s: MovieDetailScreenState) {
    && (s.similarMovies.Loading? <==> s.similarMovieCredits.Loading?)
    && (s.similarMovies.Error? ==> s.similarMovieCredits == Error(s.similarMovies.message))
    && (s.similarMovies == Success([]) ==> s.similarMovieCredits == Success(NO_CREDITS))
    && (!s.isOverallLoading ==> !s.movieDetail.Loading? && !s.similarMovies.Loading?)
  }

  /** The transitions keep the sections consistent; fetching everything makes any state
      consistent, and a section retried or a movie toggled keeps it so. */
  lemma TransitionsKeepConsistent(s: MovieDetailScreenState, section: DetailScreenSection, fetched: Fetched)
    ensures Consistent(INITIAL_STATE)
    ensures Consistent(FetchAll(fetched).state)
    ensures Consistent(s) ==> Consistent(Retry(s, section, fetched).state)
  {
  }

  lemma ToggleKeepsConsistent(s: MovieDetailScreenState, newStatus: bool)
    ensures Consistent(s) ==> Consistent(DetailToggled(s, newStatus))
  {
  }

  /** Toggling twice with the answers the use case gives restores the screen. */
  lemma ToggleTwiceRestores(s: MovieDetailScreenState)
    ensures s.movieDetail.Success? ==>
      DetailToggled(DetailToggled(s, !s.movieDetail.data.isInWatchlist), s.movieDetail.data.isInWatchlist) == s
  {
  }

  /** A retry of the details after a fetch of everything is the fetch with the new details. */
  lemma RetryDetailsAfterFetchAll(first: Fetched, second: Fetched)
    ensures Retry(FetchAll(first).state, DETAILS, second).state
         == FetchAll(first.(detail := second.detail)).state
  {
  }

  /** Retrying the similar movies after a fetch of everything gives the sections the fetch
      would have given with the new answers, and asks for the same credits. */
  lemma RetrySimilarAfterFetchAll(first: Fetched, second: Fetched)
    ensures Retry(FetchAll(first).state, SIMILAR_MOVIES_AND_CREDITS, second)
         == FetchAll(first.(similar := second.similar, credits := second.credits))
  {
  }

  /** The answers of the real use cases for movie `movieId`, over the repository's remote data
      source and watchlist. */
  function RepositoryFetched(remote: RemoteDataSource.MovieRemoteDataSource, watchlist: set<int>, movieId: int)
    : (f: Fetched)
    ensures f.detail == Repository.DetailsResult(remote, watchlist, movieId)
    ensures f.similar == Repository.SimilarResult(remote, watchlist, movieId)
    ensures forall ids :: f.credits(ids) == UseCases.GetCreditsForSimilarMovies(ids, ids' => Repository.CreditsForMovies(remote, ids'))
  {
    Fetched(Repository.DetailsResult(remote, watchlist, movieId), Repository.SimilarResult(remote, watchlist, movieId),
            ids => UseCases.GetCreditsForSimilarMovies(ids, ids' => Repository.CreditsForMovies(remote, ids')))
  }

  /** What the screen shows over the real use cases: at most five similar movies; at most five
      actors and five directors, each of that role and most popular first; and the movie's
      watchlist flag as the watchlist has it. */
  lemma FetchAllFromRepository(remote: RemoteDataSource.MovieRemoteDataSource, watchlist: set<int>, movieId: int)
    ensures var r := FetchAll(RepositoryFetched(remote, watchlist, movieId)).state;
      && (r.movieDetail.Success? ==> (r.movieDetail.data.isInWatchlist <==> r.movieDetail.data.id in watchlist))
      && (r.similarMovies.Success? ==> |r.similarMovies.data| <= Repository.SIMILAR_MOVIES_LIMIT)
      && (r.similarMovieCredits.Success? ==>
            var c := r.similarMovieCredits.data;
            && |c.actors| <= UseCases.TOP_CONTRIBUTORS && |c.directors| <= UseCases.TOP_CONTRIBUTORS
            && (forall x :: x in c.actors ==> x.role == ACTOR)
            && (forall x :: x in c.directors ==> x.role == DIRECTOR)
            && Sorting.SortedDesc(c.actors, UseCases.PopularityLe)
            && Sorting.SortedDesc(c.directors, UseCases.PopularityLe))
  {
    var f := RepositoryFetched(remote, watchlist, movieId);
    if f.similar.Success? && f.similar.data != [] {
      UseCases.GetCreditsForSimilarMoviesSpec(MovieIds(f.similar.data), ids' => Repository.CreditsForMovies(remote, ids'));
    }
  }

  class MovieDetailViewModel {
    /** The movie the screen was opened for (`savedStateHandle["movieId"]`). */
    const movieId: int
    const repository: Repository.MovieRepositoryImpl
    var state: MovieDetailScreenState

    ghost predicate Valid()
      reads this
    {
      Consistent(state)
    }

    /** `init`: the default state, which is also the first update of the `fetchAllMovieInfo`
        it launches; the rest of that block is `FetchAllMovieInfo`. */
    constructor(movieId: int, repository: Repository.MovieRepositoryImpl)
      ensures Valid()
      ensures this.movieId == movieId && this.repository == repository
      ensures state == INITIAL_STATE
    {
      this.movieId := movieId;
      this.repository := repository;
      state := INITIAL_STATE;
    }

    /** The `similarMoviesDataResult` branch shared by `fetchAllMovieInfo` and the second
        retry. */
    method ShowSimilarAndCredits(similar: MovieErrors.Result<seq<Movie>>, credits: seq<int> -> MovieErrors.Result<GroupedMovieContributors>)
      returns (creditsRequest: Option<seq<int>>)
      modifies this
      ensures Step(state, creditsRequest) == SimilarAndCredits(old(state), similar, credits)
    {
      creditsRequest := None;
      match similar {
        case Success(movies) =>
          state := state.(similarMovies := Success(movies));
          if |movies| != 0 {
            state := state.(similarMovieCredits := Loading);
            var ids := MovieIds(movies);
            match credits(ids) {
              case Success(data) =>
                state := state.(similarMovieCredits := Success(data));
              case Error(e) =>
                state := state.(similarMovieCredits := Error(ErrorMessages.ToUserFriendlyMessage(e)));
            }
            creditsRequest := Some(ids);
          } else {
            state := state.(similarMovieCredits := Success(GroupedMovieContributors([], [])));
          }
        case Error(e) =>
          state := state.(similarMovies := Error(ErrorMessages.ToUserFriendlyMessage(e)));
          state := state.(similarMovieCredits := Error(ErrorMessages.ToUserFriendlyMessage(e)));
      }
    }

    /** `fetchAllMovieInfo`, with the use cases' answers for this movie. */
    method FetchAllMovieInfo(fetched: Fetched) returns (creditsRequest: Option<seq<int>>)
      modifies this
      ensures Valid()
      ensures Step(state, creditsRequest) == FetchAll(fetched)
    {
      state := MovieDetailScreenState(Loading, Loading, Loading, true);
      match fetched.detail {
        case Success(data) =>
          state := state.(movieDetail := Success(data));
        case Error(e) =>
          state := state.(movieDetail := Error(ErrorMessages.ToUserFriendlyMessage(e)));
      }
      creditsRequest := ShowSimilarAndCredits(fetched.similar, fetched.credits);
      state := state.(isOverallLoading := false);
      TransitionsKeepConsistent(state, DETAILS, fetched);
    }

    /** `retrySection(section)`, with the use cases' answers for this movie. */
    method RetrySection(section: DetailScreenSection, fetched: Fetched) returns (creditsRequest: Option<seq<int>>)
      requires Valid()
      modifies this
      ensures Valid()
      ensures Step(state, creditsRequest) == Retry(old(state), section, fetched)
    {
      TransitionsKeepConsistent(state, section, fetched);
      match section {
        case DETAILS =>
          state := state.(movieDetail := Loading);
          match fetched.detail {
            case Success(data) =>
              state := state.(movieDetail := Success(data));
            case Error(e) =>
              state := state.(movieDetail := Error(ErrorMessages.ToUserFriendlyMessage(e)));
          }
          creditsRequest := None;
        case SIMILAR_MOVIES_AND_CREDITS =>
          state := state.(similarMovies := Loading, similarMovieCredits := Loading);
          creditsRequest := ShowSimilarAndCredits(fetched.similar, fetched.credits);
      }
    }

    /** `toggleWatchlistStatus`: flips the movie on screen on the watchlist and shows its new
        flag; with no movie on screen neither the watchlist nor the screen changes. */
    method ToggleWatchlistStatus()
      requires Valid() && repository.Valid()
      modifies this, repository.localDataSource.dao
      ensures Valid() && repository.Valid()
      ensures old(state.movieDetail).Success? ==>
        && repository.Watchlisted() == UseCases.Toggled(old(repository.Watchlisted()), old(state.movieDetail).data.id)
        && state == DetailToggled(old(state), old(state.movieDetail).data.id in repository.Watchlisted())
      ensures !old(state.movieDetail).Success? ==>
        && repository.Watchlisted() == old(repository.Watchlisted())
        && state == old(state)
    {
      var currentMovieDetailState := state.movieDetail;
      if currentMovieDetailState.Success? {
        var currentMovieDetail := currentMovieDetailState.data;
        var newWatchlistStatus := UseCases.ToggleWatchlist(repository, currentMovieDetail.id);
        ToggleKeepsConsistent(state, newWatchlistStatus);
        state := state.(movieDetail := Success(currentMovieDetail.(isInWatchlist := newWatchlistStatus)));
      }
    }
  }
}
