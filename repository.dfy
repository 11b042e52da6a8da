/** data/repository/impl/MovieRepositoryImpl.kt: maps the remote data source's DTOs to the
    domain model, adding the watchlist flag from the local store, and aggregates the credits
    of several movies. */
module Repository {
  import opened Wrappers
  import opened MovieErrors
  import opened Dtos
  import opened Domain
  import opened Mappers
  import opened RemoteDataSource
  import opened Watchlist
  import Sorting

  /** The list operations: a failure is passed through unchanged, a success becomes the
      mapped movies in response order. */
  function MapMoviesResult(response: Result<MoviesListResponse>, watchlist: set<int>): (r: Result<seq<Movie>>)
    ensures response.Error? ==> r == Error(response.exception)
    ensures response.Success? ==> r == Success(MoviesToDomain(response.data.results, watchlist))
  {
    match response
    case Success(data) => Success(MoviesToDomain(data.results, watchlist))
    case Error(e) => Error(e)
  }

  function PopularResult(remote: MovieRemoteDataSource, watchlist: set<int>, page: int): (r: Result<seq<Movie>>)
    ensures remote.getPopularMovies(page).Error? ==> r == Error(remote.getPopularMovies(page).exception)
    ensures remote.getPopularMovies(page).Success? ==>
      && r.Success? && |r.data| == |remote.getPopularMovies(page).data.results|
      && forall i :: 0 <= i < |r.data| ==> r.data[i] == MovieToDomain(remote.getPopularMovies(page).data.results[i], watchlist)
  {
    MapMoviesResult(remote.getPopularMovies(page), watchlist)
  }

  function SearchResult(remote: MovieRemoteDataSource, watchlist: set<int>, query: string, page: int): (r: Result<seq<Movie>>)
    ensures remote.searchMovies(query, page).Error? ==> r == Error(remote.searchMovies(query, page).exception)
    ensures remote.searchMovies(query, page).Success? ==>
      && r.Success? && |r.data| == |remote.searchMovies(query, page).data.results|
      && forall i :: 0 <= i < |r.data| ==> r.data[i] == MovieToDomain(remote.searchMovies(query, page).data.results[i], watchlist)
  {
    MapMoviesResult(remote.searchMovies(query, page), watchlist)
  }

  function DetailsResult(remote: MovieRemoteDataSource, watchlist: set<int>, movieId: int): (r: Result<MovieDetail>)
    ensures remote.getMovieDetails(movieId).Error? ==> r == Error(remote.getMovieDetails(movieId).exception)
    ensures remote.getMovieDetails(movieId).Success? ==>
      r == Success(MovieDetailToDomain(remote.getMovieDetails(movieId).data, watchlist))
  {
    match remote.getMovieDetails(movieId)
    case Success(dto) => Success(MovieDetailToDomain(dto, watchlist))
    case Error(e) => Error(e)
  }

  const SIMILAR_MOVIES_LIMIT := 5

  /** Similar movies: the first page only, and at most the first five of its results. */
  function SimilarResult(remote: MovieRemoteDataSource, watchlist: set<int>, movieId: int): (r: Result<seq<Movie>>)
    ensures var response := remote.getSimilarMovies(movieId, 1);
      && (response.Error? ==> r == Error(response.exception))
      && (response.Success? ==>
            && r.Success? && |r.data| <= SIMILAR_MOVIES_LIMIT
            && |r.data| == (if |response.data.results| < 5 then |response.data.results| else 5)
            && forall i :: 0 <= i < |r.data| ==> r.data[i] == MovieToDomain(response.data.results[i], watchlist))
  {
    match remote.getSimilarMovies(movieId, 1)
    case Success(data) => Success(MoviesToDomain(Sorting.Take(data.results, SIMILAR_MOVIES_LIMIT), watchlist))
    case Error(e) => Error(e)
  }

  // ---- Credits aggregation -------------------------------------------------------------

  /** `none { c -> c.id == id && c.role == role }` fails: some contributor has this id and role. */
  predicate HasContributor(acc: seq<MovieContributor>, id: int, role: Role) {
    exists i :: 0 <= i < |acc| && acc[i].id == id && acc[i].role == role
  }

  /** The crew filter of the aggregation: the job is exactly "Director" (case-sensitive). */
  predicate NamedDirector(c: CrewMemberDto) {
    c.job == Some("Director")
  }

  /** The cast loop: each cast member is added as an actor unless an actor with its id is
      already there. */
  function AddCast(acc: seq<MovieContributor>, cast: seq<CastMemberDto>): seq<MovieContributor>
    decreases |cast|
  {
    if cast == [] then acc
    else
      var prev := AddCast(acc, cast[..|cast| - 1]);
      var c := cast[|cast| - 1];
      if HasContributor(prev, c.id, ACTOR) then prev else prev + [CastToContributor(c)]
  }

  /** The crew loop: a crew member whose job is "Director" is added unless a director with
      its id is already there. It is added as whatever the crew mapper makes of it, which is
      `OTHER` when its department is not "Directing". */
  function AddDirectors(acc: seq<MovieContributor>, crew: seq<CrewMemberDto>): seq<MovieContributor>
    decreases |crew|
  {
    if crew == [] then acc
    else
      var prev := AddDirectors(acc, crew[..|crew| - 1]);
      var c := crew[|crew| - 1];
      if NamedDirector(c) && !HasContributor(prev, c.id, DIRECTOR) then prev + [CrewToContributor(c)] else prev
  }

  /** One awaited response added to the contributors so far. */
  function AddResponse(acc: seq<MovieContributor>, response: Result<MovieCreditsDto>): seq<MovieContributor> {
    if response.Success? then AddDirectors(AddCast(acc, response.data.cast), response.data.crew) else acc
  }

  /** The contributors gathered from the responses, in the order they are awaited. */
  function Gathered(responses: seq<Result<MovieCreditsDto>>): seq<MovieContributor> {
    if responses == [] then []
    else AddResponse(Gathered(responses[..|responses| - 1]), responses[|responses| - 1])
  }

  function SuccessCount(responses: seq<Result<MovieCreditsDto>>): nat {
    if responses == [] then 0
    else SuccessCount(responses[..|responses| - 1]) + (if responses[|responses| - 1].Success? then 1 else 0)
  }

  function FirstError(responses: seq<Result<MovieCreditsDto>>): Option<Throwable> {
    if responses == [] then None
    else
      var earlier := FirstError(responses[..|responses| - 1]);
      if earlier.Some? then earlier
      else if responses[|responses| - 1].Error? then Some(responses[|responses| - 1].exception)
      else None
  }

  /** Keeps the first contributor of each (id, role), in list order (`distinctBy` on the pair). */
  function DistinctByKey(s: seq<MovieContributor>): seq<MovieContributor> {
    if s == [] then []
    else
      var prev := DistinctByKey(s[..|s| - 1]);
      var c := s[|s| - 1];
      if HasContributor(prev, c.id, c.role) then prev else prev + [c]
  }

  /** The outcome of `getCreditsForMovies` given the awaited responses, in submission order. */
  function CombineCredits(responses: seq<Result<MovieCreditsDto>>): Result<seq<MovieContributor>> {
    if responses == [] then Success([])
    else if FirstError(responses).Some? && SuccessCount(responses) == 0 then Error(FirstError(responses).value)
    else Success(DistinctByKey(Gathered(responses)))
  }

  /** One credits request per movie id, all issued before any is awaited. */
  function CreditResponses(remote: MovieRemoteDataSource, movieIds: seq<int>): (rs: seq<Result<MovieCreditsDto>>)
    ensures |rs| == |movieIds|
    ensures forall i :: 0 <= i < |movieIds| ==> rs[i] == remote.getMovieCredits(movieIds[i])
  {
    seq(|movieIds|, i requires 0 <= i < |movieIds| => remote.getMovieCredits(movieIds[i]))
  }

  function CreditsForMovies(remote: MovieRemoteDataSource, movieIds: seq<int>): Result<seq<MovieContributor>> {
    CombineCredits(CreditResponses(remote, movieIds))
  }

  /** The cast loop of the aggregation, over one movie's cast. */
  method AddCastOf(acc: seq<MovieContributor>, cast: seq<CastMemberDto>) returns (r: seq<MovieContributor>)
    ensures r == AddCast(acc, cast)
  {
    r := acc;
    for i := 0 to |cast|
      invariant r == AddCast(acc, cast[..i])
    {
      assert cast[..i + 1][..i] == cast[..i];
      var member := cast[i];
      if !HasContributor(r, member.id, ACTOR) {
        r := r + [CastToContributor(member)];
      }
    }
    assert cast[..|cast|] == cast;
  }

  /** The crew loop of the aggregation, over one movie's crew. */
  method AddDirectorsOf(acc: seq<MovieContributor>, crew: seq<CrewMemberDto>) returns (r: seq<MovieContributor>)
    ensures r == AddDirectors(acc, crew)
  {
    r := acc;
    for i := 0 to |crew|
      invariant r == AddDirectors(acc, crew[..i])
    {
      assert crew[..i + 1][..i] == crew[..i];
      var member := crew[i];
      if member.job == Some("Director") && !HasContributor(r, member.id, DIRECTOR) {
        r := r + [CrewToContributor(member)];
      }
    }
    assert crew[..|crew|] == crew;
  }

  class MovieRepositoryImpl {
    const remoteDataSource: MovieRemoteDataSource
    const localDataSource: MovieLocalDataSourceImpl

    ghost predicate Valid()
      reads this, localDataSource, localDataSource.dao
    {
      localDataSource.Valid()
    }

    constructor(remoteDataSource: MovieRemoteDataSource, localDataSource: MovieLocalDataSourceImpl)
      ensures this.remoteDataSource == remoteDataSource && this.localDataSource == localDataSource
    {
      this.remoteDataSource := remoteDataSource;
      this.localDataSource := localDataSource;
    }

    /** The ids on the watchlist, which the mappers consult through the local data source. */
    function Watchlisted(): set<int>
      reads this, localDataSource, localDataSource.dao
    {
      localDataSource.dao.Ids()
    }

    method GetPopularMovies(page: int) returns (r: Result<seq<Movie>>)
      ensures r == PopularResult(remoteDataSource, Watchlisted(), page)
    {
      r := PopularResult(remoteDataSource, Watchlisted(), page);
    }

    method SearchMovies(query: string, page: int) returns (r: Result<seq<Movie>>)
      ensures r == SearchResult(remoteDataSource, Watchlisted(), query, page)
    {
      r := SearchResult(remoteDataSource, Watchlisted(), query, page);
    }

    method GetMovieDetails(movieId: int) returns (r: Result<MovieDetail>)
      ensures r == DetailsResult(remoteDataSource, Watchlisted(), movieId)
    {
      r := DetailsResult(remoteDataSource, Watchlisted(), movieId);
    }

    method GetSimilarMovies(movieId: int) returns (r: Result<seq<Movie>>)
      ensures r == SimilarResult(remoteDataSource, Watchlisted(), movieId)
    {
      r := SimilarResult(remoteDataSource, Watchlisted(), movieId);
    }

    /** `getCreditsForMovies`: awaits the credits of every movie in order, gathering actors
        and directors and remembering the first failure; fails only when every request
        failed. */
    method GetCreditsForMovies(movieIds: seq<int>) returns (r: Result<seq<MovieContributor>>)
      ensures r == CreditsForMovies(remoteDataSource, movieIds)
    {
      if |movieIds| == 0 {
        return Success([]);
      }
      var allContributors: seq<MovieContributor> := [];
      var deferredCredits := CreditResponses(remoteDataSource, movieIds);
      var firstError: Option<Throwable> := None;
      var successfulFetches := 0;
      for k := 0 to |deferredCredits|
        invariant allContributors == Gathered(deferredCredits[..k])
        invariant firstError == FirstError(deferredCredits[..k])
        invariant successfulFetches == SuccessCount(deferredCredits[..k])
      {
        assert deferredCredits[..k + 1][..k] == deferredCredits[..k];
        match deferredCredits[k]
        case Success(credits) =>
          successfulFetches := successfulFetches + 1;
          allContributors := AddCastOf(allContributors, credits.cast);
          allContributors := AddDirectorsOf(allContributors, credits.crew);
        case Error(e) =>
          if firstError.None? {
            firstError := Some(e);
          }
      }
      assert deferredCredits[..|deferredCredits|] == deferredCredits;
      if firstError.Some? && successfulFetches == 0 {
        return Error(firstError.value);
      }
      return Success(DistinctByKey(allContributors));
    }

    method IsOnWatchlist(movieId: int) returns (on: bool)
      ensures on <==> movieId in Watchlisted()
    {
      on := localDataSource.IsOnWatchlist(movieId);
    }

    method AddToWatchlist(movieId: int)
      requires Valid()
      modifies localDataSource.dao
      ensures Valid()
      ensures Watchlisted() == old(Watchlisted()) + {movieId}
    {
      localDataSource.AddToWatchlist(movieId);
    }

    method RemoveFromWatchlist(movieId: int)
      requires Valid()
      modifies localDataSource.dao
      ensures Valid()
      ensures Watchlisted() == old(Watchlisted()) - {movieId}
    {
      localDataSource.RemoveFromWatchlist(movieId);
    }
  }
}
