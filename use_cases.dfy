/** The domain use cases (domain/usecase). The popular-movies, movie-detail and similar-movies
    use cases only forward to the repository and are not repeated here. */
module UseCases {
  import opened Wrappers
  import opened MovieErrors
  import opened Domain
  import opened Sorting
  import opened Repository
  import Text
  import RemoteDataSource
  import SafeApi

  // ---- GetCreditsForSimilarMoviesUseCase ------------------------------------------------

  const TOP_CONTRIBUTORS := 5

  /** The popularity order `sortedByDescending { it.popularity }` sorts by. */
  function PopularityLe(a: MovieContributor, b: MovieContributor): bool {
    a.popularity <= b.popularity
  }

  lemma PopularityLeIsTotalPreorder()
    ensures TotalPreorder(PopularityLe)
  {
  }

  /** The contributors in the given role, in list order (the `filter` on the role). */
  function WithRole(s: seq<MovieContributor>, role: Role): (r: seq<MovieContributor>)
    ensures forall x :: x in r <==> x in s && x.role == role
    ensures |r| <= |s|
  {
    if s == [] then []
    else
      assert forall x :: x in s <==> x == s[0] || x in s[1..];
      (if s[0].role == role then [s[0]] else []) + WithRole(s[1..], role)
  }

  /** Filtering keeps the order of the list: filtering a concatenation concatenates the
      filtered parts. */
  lemma {:induction false} WithRoleConcat(a: seq<MovieContributor>, b: seq<MovieContributor>, role: Role)
    ensures WithRole(a + b, role) == WithRole(a, role) + WithRole(b, role)
  {
    if a == [] {
      assert a + b == b;
    } else {
      assert (a + b)[0] == a[0];
      assert (a + b)[1..] == a[1..] + b;
      WithRoleConcat(a[1..], b, role);
    }
  }

  /** The five most popular contributors in a role, most popular first. */
  function TopByPopularity(s: seq<MovieContributor>, role: Role): seq<MovieContributor> {
    Take(SortDesc(WithRole(s, role), PopularityLe), TOP_CONTRIBUTORS)
  }

  /** `invoke(movieIds)`, with the repository's aggregation as a parameter. */
  function GetCreditsForSimilarMovies(movieIds: seq<int>, getCreditsForMovies: seq<int> -> Result<seq<MovieContributor>>)
    : (r: Result<GroupedMovieContributors>)
  {
    if movieIds == [] then Success(GroupedMovieContributors([], []))
    else match getCreditsForMovies(movieIds)
      case Success(all) => Success(GroupedMovieContributors(TopByPopularity(all, ACTOR), TopByPopularity(all, DIRECTOR)))
      case Error(e) => Error(e)
  }

  /** The selection of one role: at most five contributors of that role, each taken from the
      input, in non-increasing popularity, forming a prefix of the stable popularity sort of
      that role; and whoever of that role is left out is no more popular than everyone
      selected, with five selected. */
  lemma {:induction false} TopByPopularitySpec(s: seq<MovieContributor>, role: Role)
    ensures var top := TopByPopularity(s, role);
            var sorted := SortDesc(WithRole(s, role), PopularityLe);
      && |top| <= 5
      && (forall x :: x in top ==> x in s && x.role == role)
      && SortedDesc(top, PopularityLe)
      && top == sorted[..|top|]
      && (forall x :: Ties(sorted, PopularityLe, x) == Ties(WithRole(s, role), PopularityLe, x))
      && (forall x :: x in multiset(WithRole(s, role)) - multiset(top) ==>
            |top| == 5 && forall y :: y in top ==> x.popularity <= y.popularity)
  {
    var w := WithRole(s, role);
    var sorted := SortDesc(w, PopularityLe);
    PopularityLeIsTotalPreorder();
    SortDescSorted(w, PopularityLe);
    forall x ensures Ties(sorted, PopularityLe, x) == Ties(w, PopularityLe, x) {
      SortDescStable(w, PopularityLe, x);
    }
    TakeOfSorted(sorted, TOP_CONTRIBUTORS, PopularityLe);
    var top := Take(sorted, TOP_CONTRIBUTORS);
    forall x | x in top ensures x in s && x.role == role {
      assert x in multiset(sorted);
      assert x in w;
    }
  }

  /** The use case's contract: no ids gives empty groups without consulting the repository;
      a repository failure is passed through; otherwise the actors and directors are the top
      five of each role, and nobody of another role (`OTHER` in particular) is in either. */
  lemma GetCreditsForSimilarMoviesSpec(movieIds: seq<int>, getCreditsForMovies: seq<int> -> Result<seq<MovieContributor>>)
    ensures var r := GetCreditsForSimilarMovies(movieIds, getCreditsForMovies);
      && (movieIds == [] ==> r == Success(GroupedMovieContributors([], [])))
      && (movieIds != [] && getCreditsForMovies(movieIds).Error? ==> r == Error(getCreditsForMovies(movieIds).exception))
      && (movieIds != [] && getCreditsForMovies(movieIds).Success? ==>
            var all := getCreditsForMovies(movieIds).data;
            && r.Success? && |r.data.actors| <= 5 && |r.data.directors| <= 5
            && (forall x :: x in r.data.actors ==> x in all && x.role == ACTOR)
            && (forall x :: x in r.data.directors ==> x in all && x.role == DIRECTOR)
            && SortedDesc(r.data.actors, PopularityLe) && SortedDesc(r.data.directors, PopularityLe)
            && r.data.actors == TopByPopularity(all, ACTOR) && r.data.directors == TopByPopularity(all, DIRECTOR))
  {
    if movieIds != [] && getCreditsForMovies(movieIds).Success? {
      TopByPopularitySpec(getCreditsForMovies(movieIds).data, ACTOR);
      TopByPopularitySpec(getCreditsForMovies(movieIds).data, DIRECTOR);
    }
  }

  /** With no ids the repository is not consulted: any two repositories give the same result. */
  lemma NoIdsNoCredits(f: seq<int> -> Result<seq<MovieContributor>>, g: seq<int> -> Result<seq<MovieContributor>>)
    ensures GetCreditsForSimilarMovies([], f) == GetCreditsForSimilarMovies([], g)
  {
  }

  // ---- SearchMoviesUseCase --------------------------------------------------------------

  /** `invoke(query, page)`: a blank query is an empty success; anything else is the
      repository's answer. */
  function SearchMovies(query: string, page: int, searchMovies: (string, int) -> Result<seq<Movie>>)
    : (r: Result<seq<Movie>>)
    ensures Text.IsBlank(query) ==> r == Success([])
    ensures !Text.IsBlank(query) ==> r == searchMovies(query, page)
  {
    if Text.IsBlank(query) then Success([]) else searchMovies(query, page)
  }

  /** Through the use case, the data source's blank-query validation error is never seen: a
      failure of a search always comes from the network or the payload. */
  lemma SearchNeverReportsBlankQuery(query: string, page: int, api: RemoteDataSource.MovieApiService,
                                     parse: string -> SafeApi.BodyParse, watchlist: set<int>)
    ensures var remote := RemoteDataSource.MovieRemoteDataSourceImpl(api, parse);
            var r := SearchMovies(query, page, (q, p) => SearchResult(remote, watchlist, q, p));
      r.Error? ==> r.exception.Raised? && !r.exception.error.ApiValidationProblem?
  {
    Text.BlankIffTrimEmpty(query);
  }

  // ---- ToggleWatchlistUseCase -----------------------------------------------------------

  /** The watchlist after a toggle of `movieId`. */
  function Toggled(ids: set<int>, movieId: int): (r: set<int>)
    ensures movieId in r <==> movieId !in ids
    ensures forall x :: x != movieId ==> (x in r <==> x in ids)
  {
    if movieId in ids then ids - {movieId} else ids + {movieId}
  }

  /** Toggling twice restores the watchlist. */
  lemma ToggleTwice(ids: set<int>, movieId: int)
    ensures Toggled(Toggled(ids, movieId), movieId) == ids
  {
  }

  /** `invoke(movieId)`: removes a listed movie and adds an unlisted one, returning whether it
      is listed afterwards. */
  method ToggleWatchlist(repository: MovieRepositoryImpl, movieId: int) returns (newStatus: bool)
    requires repository.Valid()
    modifies repository.localDataSource.dao
    ensures repository.Valid()
    ensures repository.Watchlisted() == Toggled(old(repository.Watchlisted()), movieId)
    ensures newStatus <==> movieId !in old(repository.Watchlisted())
    ensures newStatus <==> movieId in repository.Watchlisted()
  {
    var isOnWatchlist := repository.IsOnWatchlist(movieId);
    if isOnWatchlist {
      repository.RemoveFromWatchlist(movieId);
      newStatus := false;
    } else {
      repository.AddToWatchlist(movieId);
      newStatus := true;
    }
  }
}
