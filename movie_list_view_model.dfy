/** ui/movielist/MovieListViewModel.kt: the state machine behind the movie list and search
    screen. Each `launch` block is split where it suspends: the method that starts it makes
    the first state update and returns the page it asks for, and `OnMoviesLoaded` applies the
    fetched `Result` when it arrives. */
module MovieList {
  import opened Wrappers
  import opened MovieErrors
  import opened Domain
  import opened StringResources
  import opened YearGrouping
  import opened Sorting
  import Text
  import ErrorMessages
  import Repository
  import UseCases

  const MIN_QUERY_LENGTH := 3

  datatype MovieListScreenState = MovieListScreenState(
    isLoading: bool,
    isLoadingNextPage: bool,
    moviesByYear: seq<MoviesByYear>,
    errorMessage: Option<UserMessage>,
    currentQuery: string,
    isSearchActive: bool,
    currentPage: int,
    canLoadMore: bool,
    infoMessageResId: Option<StringRes>,
    infoMessageArg: Option<string>)

  /** `MovieListScreenState()` with every default. */
  const INITIAL_STATE := MovieListScreenState(false, false, [], None, "", false, 1, true, None, None)

  /** A page the view model asks for: of popular movies (`loadPopularMovies`), or of a
      search (`fetchMoviesForSearch`). */
  datatype MoviesRequest = PopularMoviesPage(page: int, reset: bool) | SearchMoviesPage(query: string, page: int)

  /** The state after a transition and the page it asked for, if any. */
  datatype Step = Step(state: MovieListScreenState, request: Option<MoviesRequest>)

  function ClearInfo(s: MovieListScreenState): MovieListScreenState {
    s.(infoMessageResId := None, infoMessageArg := None)
  }

  /** `updateStateForShortQuery`: no results, no paging, and the too-short message. */
  function ShortQueryState(s: MovieListScreenState, query: string): (r: MovieListScreenState)
    ensures r.moviesByYear == [] && !r.canLoadMore && r.currentPage == 1 && r.isSearchActive
    ensures r.currentQuery == query && r.infoMessageResId == Some(SearchQueryTooShort) && r.infoMessageArg == None
    ensures !r.isLoading && r.errorMessage == None && r.isLoadingNextPage == s.isLoadingNextPage
  {
    s.(moviesByYear := [], isLoading := false, errorMessage := None, canLoadMore := false,
       isSearchActive := true, currentQuery := query, currentPage := 1,
       infoMessageResId := Some(SearchQueryTooShort), infoMessageArg := None)
  }

  /** The first update of `loadPopularMovies`: a reset starts over in popular mode; a later
      page only raises the next-page flag. */
  function PopularStart(s: MovieListScreenState, pageToLoad: int, reset: bool): (r: Step)
    ensures r.request == Some(PopularMoviesPage(pageToLoad, reset))
    ensures r.state.errorMessage == None && r.state.infoMessageResId == None && r.state.infoMessageArg == None
    ensures reset ==> && r.state.isLoading && r.state.moviesByYear == [] && r.state.currentPage == 1
                      && !r.state.isSearchActive && r.state.currentQuery == "" && r.state.canLoadMore
                      && r.state.isLoadingNextPage == s.isLoadingNextPage
    ensures !reset ==> r.state == ClearInfo(s).(isLoadingNextPage := true, errorMessage := None)
  {
    var state :=
      if reset then
        s.(isLoading := true, moviesByYear := [], currentPage := 1, isSearchActive := false,
           currentQuery := "", errorMessage := None, canLoadMore := true,
           infoMessageResId := None, infoMessageArg := None)
      else s.(isLoadingNextPage := true, errorMessage := None, infoMessageResId := None, infoMessageArg := None);
    Step(state, Some(PopularMoviesPage(pageToLoad, reset)))
  }

  /** The first update of `fetchMoviesForSearch`: the full-screen spinner only for a first
      page with nothing shown, the next-page spinner for later pages. */
  function SearchStart(s: MovieListScreenState, query: string, pageToLoad: int): (r: Step)
    ensures r.request == Some(SearchMoviesPage(query, pageToLoad))
    ensures r.state.isLoading <==> pageToLoad == 1 && s.moviesByYear == []
    ensures r.state.isLoadingNextPage <==> pageToLoad > 1
    ensures r.state.moviesByYear == s.moviesByYear && r.state.currentPage == s.currentPage
    ensures r.state.isSearchActive == s.isSearchActive && r.state.currentQuery == s.currentQuery
    ensures r.state.canLoadMore == s.canLoadMore
    ensures r.state.errorMessage == None && r.state.infoMessageResId == None && r.state.infoMessageArg == None
  {
    Step(s.(isLoading := pageToLoad == 1 && s.moviesByYear == [], isLoadingNextPage := pageToLoad > 1,
            errorMessage := None, infoMessageResId := None, infoMessageArg := None),
         Some(SearchMoviesPage(query, pageToLoad)))
  }

  /** `performSearch`: a fresh search for `query` from its first page. */
  function NewSearch(s: MovieListScreenState, query: string): (r: Step)
    ensures r.request == Some(SearchMoviesPage(query, 1))
    ensures r.state.isLoading && r.state.moviesByYear == [] && r.state.currentPage == 1
    ensures r.state.isSearchActive && r.state.currentQuery == query && r.state.canLoadMore
    ensures !r.state.isLoadingNextPage && r.state.errorMessage == None
    ensures r.state.infoMessageResId == None && r.state.infoMessageArg == None
  {
    SearchStart(s.(isLoading := true, moviesByYear := [], currentPage := 1, isSearchActive := true,
                   currentQuery := query, errorMessage := None, canLoadMore := true,
                   infoMessageResId := None, infoMessageArg := None), query, 1)
  }

  /** `handleDebouncedQuery`: a blank query goes back to popular movies only when a search
      was active, a query of at least three characters starts a search, and a shorter one
      shows the too-short message without asking for anything. */
  function DebouncedQuery(s: MovieListScreenState, query: string): (r: Step)
    ensures Text.IsBlank(query) && s.isSearchActive ==> r == PopularStart(ClearInfo(s), 1, true)
    ensures Text.IsBlank(query) && !s.isSearchActive ==> r == Step(ClearInfo(s), None)
    ensures !Text.IsBlank(query) && |query| >= MIN_QUERY_LENGTH ==> r == NewSearch(ClearInfo(s), query)
    ensures !Text.IsBlank(query) && |query| < MIN_QUERY_LENGTH ==> r == Step(ShortQueryState(s, query), None)
    ensures r.request.Some? <==> (Text.IsBlank(query) && s.isSearchActive) || (!Text.IsBlank(query) && |query| >= MIN_QUERY_LENGTH)
  {
    var cleared := ClearInfo(s);
    if Text.IsBlank(query) then
      if cleared.isSearchActive then PopularStart(cleared, 1, true) else Step(cleared, None)
    else if |query| >= MIN_QUERY_LENGTH then NewSearch(cleared, query)
    else Step(ShortQueryState(cleared, query), None)
  }

  /** The state update of `onSearchQueryChanged`. The query is always recorded; while a
      search is active, a blank or a too-short query empties the list. */
  function QueryChanged(s: MovieListScreenState, newQuery: string): (r: MovieListScreenState)
    ensures r.currentQuery == newQuery
    ensures r.moviesByYear == (if s.isSearchActive && (Text.IsBlank(newQuery) || |newQuery| < MIN_QUERY_LENGTH) then [] else s.moviesByYear)
    ensures s.isSearchActive && !Text.IsBlank(newQuery) && |newQuery| < MIN_QUERY_LENGTH ==>
      r.infoMessageResId == Some(SearchQueryTooShort)
    ensures !s.isSearchActive ==> r.isSearchActive == !Text.IsBlank(newQuery) && r.moviesByYear == s.moviesByYear
    ensures r.isLoading == s.isLoading && r.isLoadingNextPage == s.isLoadingNextPage
    ensures r.currentPage == s.currentPage && r.canLoadMore == s.canLoadMore && r.errorMessage == s.errorMessage
  {
    if Text.IsBlank(newQuery) && s.isSearchActive then
      s.(currentQuery := newQuery, moviesByYear := [], infoMessageResId := None, infoMessageArg := None)
    else if |newQuery| > 0 && |newQuery| < MIN_QUERY_LENGTH && s.isSearchActive then
      s.(currentQuery := newQuery, moviesByYear := [], infoMessageResId := Some(SearchQueryTooShort), infoMessageArg := None)
    else
      s.(currentQuery := newQuery, isSearchActive := !Text.IsBlank(newQuery))
  }

  /** The immediate part of `onSearchSubmitted` for the trimmed query: a short one shows the
      too-short message at once, a blank one during a search reloads popular movies, and
      anything else is left to the debounced handler. */
  function Submitted(s: MovieListScreenState, query: string): (r: Step)
    ensures 0 < |query| < MIN_QUERY_LENGTH && !Text.IsBlank(query) ==> r == Step(ShortQueryState(s, query), None)
    ensures Text.IsBlank(query) && s.isSearchActive ==> r == PopularStart(s, 1, true)
    ensures Text.IsBlank(query) && !s.isSearchActive ==> r == Step(s, None)
    ensures !Text.IsBlank(query) && |query| >= MIN_QUERY_LENGTH ==> r == Step(s, None)
  {
    if !Text.IsBlank(query) && |query| < MIN_QUERY_LENGTH then Step(ShortQueryState(s, query), None)
    else if Text.IsBlank(query) && s.isSearchActive then PopularStart(s, 1, true)
    else Step(s, None)
  }

  /** The guard of `loadNextPage`: nothing is loading and more pages may exist. */
  predicate MayLoadNextPage(s: MovieListScreenState) {
    !s.isLoading && !s.isLoadingNextPage && s.canLoadMore
  }

  /** `loadNextPage`: while loading or at the end nothing happens; otherwise the page after
      the current one is asked for, in the mode the screen is in, keeping what is shown. */
  function NextPage(s: MovieListScreenState): (r: Step)
    ensures !MayLoadNextPage(s) ==> r == Step(s, None)
    ensures MayLoadNextPage(s) ==>
      && r.request == Some(if s.isSearchActive then SearchMoviesPage(s.currentQuery, s.currentPage + 1)
                           else PopularMoviesPage(s.currentPage + 1, false))
      && r.state.moviesByYear == s.moviesByYear && r.state.currentPage == s.currentPage
      && r.state.isSearchActive == s.isSearchActive && r.state.currentQuery == s.currentQuery
      && r.state.infoMessageResId == None && r.state.errorMessage == None
  {
    if !MayLoadNextPage(s) then Step(s, None)
    else
      var cleared := ClearInfo(s);
      var nextPage := cleared.currentPage + 1;
      if cleared.isSearchActive then SearchStart(cleared, cleared.currentQuery, nextPage)
      else PopularStart(cleared, nextPage, false)
  }

  /** Grouping yields no groups exactly when there are no movies. */
  lemma GroupingEmptyIff(movies: seq<Movie>, labeler: YearLabeler)
    ensures GroupMoviesByYear(movies, labeler) == [] <==> movies == []
  {
    var g := GroupMoviesByYear(movies, labeler);
    GroupedMovies(movies, labeler);
    GroupingDisplayable(movies, labeler);
    if g != [] {
      assert g[0].movies != [];
      assert Flatten(g) == g[0].movies + Flatten(g[1..]);
      assert Flatten(g)[0].id in IdsOf(Flatten(g));
    }
  }

  /** The movies a loaded page is grouped with: none for a first page, else those shown. */
  function Accumulated(s: MovieListScreenState, replace: bool, newMovies: seq<Movie>): seq<Movie> {
    (if replace then [] else Flatten(s.moviesByYear)) + newMovies
  }

  /** The completion of `loadPopularMovies`. */
  function PopularLoaded(s: MovieListScreenState, pageToLoad: int, reset: bool, result: Result<seq<Movie>>, labeler: YearLabeler)
    : (r: MovieListScreenState)
    ensures !r.isLoading && !r.isLoadingNextPage && r.infoMessageArg == None
    ensures r.currentQuery == s.currentQuery
    ensures result.Success? ==>
      && r.moviesByYear == GroupMoviesByYear(Accumulated(s, reset, result.data), labeler)
      && r.currentPage == pageToLoad
      && (r.canLoadMore <==> result.data != [])
      && r.isSearchActive == (!reset && s.isSearchActive)
      && r.errorMessage == None
      && (r.infoMessageResId == Some(PopularMoviesEmpty) <==>
            Accumulated(s, reset, result.data) == [] && !s.isSearchActive && pageToLoad == 1)
      && (r.infoMessageResId.Some? ==> r.infoMessageResId == Some(PopularMoviesEmpty))
    ensures result.Error? ==>
      && r.moviesByYear == s.moviesByYear && r.currentPage == s.currentPage && !r.canLoadMore
      && r.isSearchActive == s.isSearchActive
      && r.errorMessage == Some(ErrorMessages.ToUserFriendlyMessage(result.exception))
      && (r.infoMessageResId == Some(PopularMoviesEmpty) <==> s.moviesByYear == [] && !s.isSearchActive)
      && (r.infoMessageResId.Some? ==> r.infoMessageResId == Some(PopularMoviesEmpty))
  {
    match result
    case Success(newMovies) =>
      var updatedMovies := Accumulated(s, reset, newMovies);
      GroupingEmptyIff(updatedMovies, labeler);
      var groupedMovies := GroupMoviesByYear(updatedMovies, labeler);
      var info := if groupedMovies == [] && !s.isSearchActive && pageToLoad == 1 then Some(PopularMoviesEmpty) else None;
      s.(isLoading := false, isLoadingNextPage := false, moviesByYear := groupedMovies, currentPage := pageToLoad,
         canLoadMore := newMovies != [], isSearchActive := if reset then false else s.isSearchActive,
         errorMessage := None, infoMessageResId := info, infoMessageArg := None)
    case Error(e) =>
      s.(isLoading := false, isLoadingNextPage := false,
         errorMessage := Some(ErrorMessages.ToUserFriendlyMessage(e)), canLoadMore := false,
         infoMessageResId := if s.moviesByYear == [] && !s.isSearchActive then Some(PopularMoviesEmpty) else None,
         infoMessageArg := None)
  }

  /** The completion of `fetchMoviesForSearch`. */
  function SearchLoaded(s: MovieListScreenState, query: string, pageToLoad: int, result: Result<seq<Movie>>, labeler: YearLabeler)
    : (r: MovieListScreenState)
    ensures !r.isLoading && !r.isLoadingNextPage
    ensures r.currentQuery == s.currentQuery && r.isSearchActive == s.isSearchActive
    ensures r.infoMessageResId.Some? ==> r.infoMessageResId == Some(SearchNoResults) && r.infoMessageArg == Some(query)
    ensures r.infoMessageResId.None? ==> r.infoMessageArg.None?
    ensures result.Success? ==>
      && r.moviesByYear == GroupMoviesByYear(Accumulated(s, pageToLoad == 1, result.data), labeler)
      && r.currentPage == pageToLoad
      && (r.canLoadMore <==> result.data != [])
      && r.errorMessage == None
      && (r.infoMessageResId.Some? <==> result.data == [] && pageToLoad == 1)
    ensures result.Error? ==>
      && r.moviesByYear == s.moviesByYear && r.currentPage == s.currentPage && !r.canLoadMore
      && r.errorMessage == Some(ErrorMessages.ToUserFriendlyMessage(result.exception))
      && (r.infoMessageResId.Some? <==> s.moviesByYear == [] && pageToLoad == 1)
  {
    match result
    case Success(newMovies) =>
      var updatedMovies := Accumulated(s, pageToLoad == 1, newMovies);
      GroupingEmptyIff(updatedMovies, labeler);
      var groupedMovies := GroupMoviesByYear(updatedMovies, labeler);
      var info := if groupedMovies == [] && pageToLoad == 1 then Some(SearchNoResults) else None;
      s.(isLoading := false, isLoadingNextPage := false, moviesByYear := groupedMovies, currentPage := pageToLoad,
         canLoadMore := newMovies != [], errorMessage := None, infoMessageResId := info,
         infoMessageArg := if info.Some? then Some(query) else None)
    case Error(e) =>
      var noResults := s.moviesByYear == [] && pageToLoad == 1;
      s.(isLoading := false, isLoadingNextPage := false,
         errorMessage := Some(ErrorMessages.ToUserFriendlyMessage(e)), canLoadMore := false,
         infoMessageResId := if noResults then Some(SearchNoResults) else None,
         infoMessageArg := if noResults then Some(query) else None)
  }

  function Loaded(s: MovieListScreenState, request: MoviesRequest, result: Result<seq<Movie>>, labeler: YearLabeler)
    : MovieListScreenState
  {
    match request
    case PopularMoviesPage(page, reset) => PopularLoaded(s, page, reset, result, labeler)
    case SearchMoviesPage(query, page) => SearchLoaded(s, query, page, result, labeler)
  }

  /** Whether a completed request replaces the list rather than extending it. */
  predicate Replaces(request: MoviesRequest) {
    if request.PopularMoviesPage? then request.reset else request.page == 1
  }

  lemma IdsOfConcat(a: seq<Movie>, b: seq<Movie>)
    ensures IdsOf(a + b) == IdsOf(a) + IdsOf(b)
  {
    assert forall x :: x in a + b <==> x in a || x in b;
  }

  /** What a loaded page does to the list: a first page (or a reset) shows exactly the ids of
      the page; a later page keeps every movie already shown, unchanged, and adds the ids of
      the page; nothing else appears; and the list stays displayable. */
  lemma LoadedPageMovies(s: MovieListScreenState, request: MoviesRequest, newMovies: seq<Movie>, labeler: YearLabeler)
    requires Displayable(s.moviesByYear, labeler)
    ensures var shown := Flatten(Loaded(s, request, Success(newMovies), labeler).moviesByYear);
            var before := Flatten(s.moviesByYear);
      && Displayable(Loaded(s, request, Success(newMovies), labeler).moviesByYear, labeler)
      && (forall x :: x in shown ==> x in newMovies || (!Replaces(request) && x in before))
      && (Replaces(request) ==> IdsOf(shown) == IdsOf(newMovies))
      && (!Replaces(request) ==> IdsOf(shown) == IdsOf(before) + IdsOf(newMovies))
      && (!Replaces(request) ==> forall x :: x in before ==> x in shown)
  {
    var before := Flatten(s.moviesByYear);
    var all := Accumulated(s, Replaces(request), newMovies);
    assert Loaded(s, request, Success(newMovies), labeler).moviesByYear == GroupMoviesByYear(all, labeler);
    var shown := Flatten(GroupMoviesByYear(all, labeler));
    GroupingDisplayable(all, labeler);
    GroupedMovies(all, labeler);
    if Replaces(request) {
      assert all == newMovies;
    } else {
      assert all == before + newMovies;
      IdsOfConcat(before, newMovies);
      forall x | x in shown ensures x in newMovies || x in before {
        assert x in all;
      }
      forall x | x in before ensures x in shown {
        var i :| 0 <= i < |before| && before[i] == x;
        assert all[i] == x;
        forall j | 0 <= j < i ensures all[j].id != all[i].id {
          assert all[j] == before[j];
          assert MovieId(before[j]) != MovieId(before[i]);
        }
      }
    }
  }

  // ---- toggleWatchlistStatus -----------------------------------------------------------

  /** The movies with `movieId` carry the new flag; every other movie is left alone. */
  function PatchMovies(ms: seq<Movie>, movieId: int, status: bool): (r: seq<Movie>)
    ensures |r| == |ms|
    ensures forall j :: 0 <= j < |ms| ==> r[j] == if ms[j].id == movieId then ms[j].(isInWatchlist := status) else ms[j]
  {
    if ms == [] then []
    else [if ms[0].id == movieId then ms[0].(isInWatchlist := status) else ms[0]] + PatchMovies(ms[1..], movieId, status)
  }

  /** The list after the toggle: every group keeps its label and its movies in order. */
  function PatchWatchlist(gs: seq<MoviesByYear>, movieId: int, status: bool): (r: seq<MoviesByYear>)
    ensures |r| == |gs|
    ensures forall i :: 0 <= i < |gs| ==> r[i] == MoviesByYear(gs[i].year, PatchMovies(gs[i].movies, movieId, status))
  {
    if gs == [] then []
    else [MoviesByYear(gs[0].year, PatchMovies(gs[0].movies, movieId, status))] + PatchWatchlist(gs[1..], movieId, status)
  }

  lemma {:induction false} PatchMoviesConcat(a: seq<Movie>, b: seq<Movie>, movieId: int, status: bool)
    ensures PatchMovies(a + b, movieId, status) == PatchMovies(a, movieId, status) + PatchMovies(b, movieId, status)
  {
    var l := PatchMovies(a + b, movieId, status);
    var r := PatchMovies(a, movieId, status) + PatchMovies(b, movieId, status);
    forall j | 0 <= j < |l| ensures l[j] == r[j] {
      if j < |a| {
        assert (a + b)[j] == a[j];
      } else {
        assert (a + b)[j] == b[j - |a|];
      }
    }
  }

  lemma {:induction false} FlattenPatch(gs: seq<MoviesByYear>, movieId: int, status: bool)
    ensures Flatten(PatchWatchlist(gs, movieId, status)) == PatchMovies(Flatten(gs), movieId, status)
  {
    if gs != [] {
      FlattenPatch(gs[1..], movieId, status);
      PatchMoviesConcat(gs[0].movies, Flatten(gs[1..]), movieId, status);
      assert PatchWatchlist(gs, movieId, status)[1..] == PatchWatchlist(gs[1..], movieId, status);
    }
  }

  lemma PatchGroupGood(g: MoviesByYear, movieId: int, status: bool, labeler: YearLabeler)
    requires GoodGroup(g, LabelOf(labeler))
    requires SortedDesc(g.movies, ReleaseDateLe)
    ensures GoodGroup(MoviesByYear(g.year, PatchMovies(g.movies, movieId, status)), LabelOf(labeler))
    ensures SortedDesc(PatchMovies(g.movies, movieId, status), ReleaseDateLe)
  {
    var p := PatchMovies(g.movies, movieId, status);
    forall m | m in p ensures LabelOf(labeler)(m) == g.year {
      var j :| 0 <= j < |p| && p[j] == m;
      assert g.movies[j] in g.movies;
      assert m.releaseDate == g.movies[j].releaseDate;
    }
    forall i, j | 0 <= i < j < |p| ensures ReleaseDateLe(p[j], p[i]) {
      assert ReleaseDateLe(g.movies[j], g.movies[i]);
    }
  }

  lemma PatchKeepsIds(gs: seq<MoviesByYear>, movieId: int, status: bool)
    requires KeysDistinct(Flatten(gs), MovieId)
    ensures KeysDistinct(Flatten(PatchWatchlist(gs, movieId, status)), MovieId)
  {
    var before := Flatten(gs);
    var after := Flatten(PatchWatchlist(gs, movieId, status));
    FlattenPatch(gs, movieId, status);
    forall i, j | 0 <= i < j < |after| ensures MovieId(after[i]) != MovieId(after[j]) {
      assert MovieId(before[i]) != MovieId(before[j]);
    }
  }

  lemma PatchKeepsGroups(gs: seq<MoviesByYear>, movieId: int, status: bool, labeler: YearLabeler)
    requires forall i :: 0 <= i < |gs| ==> GoodGroup(gs[i], LabelOf(labeler)) && SortedDesc(gs[i].movies, ReleaseDateLe)
    ensures var p := PatchWatchlist(gs, movieId, status);
      forall i :: 0 <= i < |p| ==> GoodGroup(p[i], LabelOf(labeler)) && SortedDesc(p[i].movies, ReleaseDateLe)
  {
    var p := PatchWatchlist(gs, movieId, status);
    forall i | 0 <= i < |p| ensures GoodGroup(p[i], LabelOf(labeler)) && SortedDesc(p[i].movies, ReleaseDateLe) {
      PatchGroupGood(gs[i], movieId, status, labeler);
    }
  }

  lemma PatchKeepsYears(gs: seq<MoviesByYear>, movieId: int, status: bool)
    requires KeysDistinct(gs, YearOf) && SortedDesc(gs, YearLe)
    ensures KeysDistinct(PatchWatchlist(gs, movieId, status), YearOf)
    ensures SortedDesc(PatchWatchlist(gs, movieId, status), YearLe)
  {
    var p := PatchWatchlist(gs, movieId, status);
    forall i, j | 0 <= i < j < |p| ensures YearOf(p[i]) != YearOf(p[j]) && YearLe(p[j], p[i]) {
      assert YearOf(gs[i]) != YearOf(gs[j]) && YearLe(gs[j], gs[i]);
    }
  }

  lemma PatchDisplayable(gs: seq<MoviesByYear>, movieId: int, status: bool, labeler: YearLabeler)
    requires Displayable(gs, labeler)
    ensures Displayable(PatchWatchlist(gs, movieId, status), labeler)
  {
    PatchKeepsIds(gs, movieId, status);
    PatchKeepsGroups(gs, movieId, status, labeler);
    PatchKeepsYears(gs, movieId, status);
  }

  /** Patching a list of movies keeps its ids, sets the flag of the toggled movie and leaves
      every other movie as it was. */
  lemma PatchMoviesFacts(ms: seq<Movie>, movieId: int, status: bool)
    ensures var r := PatchMovies(ms, movieId, status);
      && IdsOf(r) == IdsOf(ms)
      && (forall m :: m in r && m.id == movieId ==> m.isInWatchlist == status)
      && (forall m :: m in r && m.id != movieId ==> m in ms)
  {
    var r := PatchMovies(ms, movieId, status);
    forall m | m in r ensures m.id in IdsOf(ms) && (m.id == movieId ==> m.isInWatchlist == status)
                              && (m.id != movieId ==> m in ms) {
      var j :| 0 <= j < |r| && r[j] == m;
      assert ms[j] in ms;
    }
    forall m | m in ms ensures m.id in IdsOf(r) {
      var j :| 0 <= j < |ms| && ms[j] == m;
      assert r[j] in r;
    }
  }

  lemma PatchedMovies(gs: seq<MoviesByYear>, movieId: int, status: bool)
    ensures var after := Flatten(PatchWatchlist(gs, movieId, status));
            var before := Flatten(gs);
      && IdsOf(after) == IdsOf(before)
      && (forall m :: m in after && m.id == movieId ==> m.isInWatchlist == status)
      && (forall m :: m in after && m.id != movieId ==> m in before)
  {
    FlattenPatch(gs, movieId, status);
    PatchMoviesFacts(Flatten(gs), movieId, status);
  }

  lemma PatchMoviesTwice(ms: seq<Movie>, movieId: int, first: bool, second: bool)
    ensures PatchMovies(PatchMovies(ms, movieId, first), movieId, second) == PatchMovies(ms, movieId, second)
  {
    var once := PatchMovies(ms, movieId, first);
    var l := PatchMovies(once, movieId, second);
    var r := PatchMovies(ms, movieId, second);
    forall j | 0 <= j < |ms| ensures l[j] == r[j] {
      assert once[j].id == ms[j].id;
    }
  }

  lemma PatchTwice(gs: seq<MoviesByYear>, movieId: int, first: bool, second: bool)
    ensures PatchWatchlist(PatchWatchlist(gs, movieId, first), movieId, second) == PatchWatchlist(gs, movieId, second)
  {
    var p := PatchWatchlist(gs, movieId, first);
    var l := PatchWatchlist(p, movieId, second);
    var r := PatchWatchlist(gs, movieId, second);
    forall i | 0 <= i < |gs| ensures l[i] == r[i] {
      PatchMoviesTwice(gs[i].movies, movieId, first, second);
    }
  }

  /** The toggle patch keeps the list displayable, keeps every id, and shows the new flag on
      every movie with that id, leaving every other movie as it was; a second patch of the
      same id overrides the first. */
  lemma PatchWatchlistSpec(gs: seq<MoviesByYear>, movieId: int, status: bool, labeler: YearLabeler)
    requires Displayable(gs, labeler)
    ensures var p := PatchWatchlist(gs, movieId, status);
      && Displayable(p, labeler)
      && |p| == |gs| && (forall i :: 0 <= i < |p| ==> p[i].year == gs[i].year && |p[i].movies| == |gs[i].movies|)
      && IdsOf(Flatten(p)) == IdsOf(Flatten(gs))
      && (forall m :: m in Flatten(p) && m.id == movieId ==> m.isInWatchlist == status)
      && (forall m :: m in Flatten(p) && m.id != movieId ==> m in Flatten(gs))
      && (forall s: bool :: PatchWatchlist(p, movieId, s) == PatchWatchlist(gs, movieId, s))
  {
    PatchDisplayable(gs, movieId, status, labeler);
    PatchedMovies(gs, movieId, status);
    forall s: bool ensures PatchWatchlist(PatchWatchlist(gs, movieId, status), movieId, s) == PatchWatchlist(gs, movieId, s) {
      PatchTwice(gs, movieId, status, s);
    }
  }

  /** The completion of `toggleWatchlistStatus`. */
  function WatchlistToggled(s: MovieListScreenState, movieId: int, newWatchlistStatus: bool): MovieListScreenState {
    s.(moviesByYear := PatchWatchlist(s.moviesByYear, movieId, newWatchlistStatus),
       infoMessageResId := None, infoMessageArg := None)
  }

  // ---- the view model --------------------------------------------------------------------

  class MovieListViewModel {
    /** Date parsing and the `unknown_year` text, as `groupMoviesByYear` uses them. */
    const labeler: YearLabeler
    const repository: Repository.MovieRepositoryImpl
    var state: MovieListScreenState
    /** The value of `searchQueryFlow`. */
    var searchQuery: string
    /** The last query the debounced flow let through (`distinctUntilChanged`). */
    var lastDebounced: Option<string>

    /** The list on screen is always a grouping of its own movies. */
    ghost predicate Valid()
      reads this
    {
      Displayable(state.moviesByYear, labeler)
    }

    /** `init`: starts with the default state and loads popular movies from scratch. */
    constructor(labeler: YearLabeler, repository: Repository.MovieRepositoryImpl)
      ensures Valid()
      ensures this.labeler == labeler && this.repository == repository
      ensures state == PopularStart(INITIAL_STATE, 1, true).state
      ensures searchQuery == "" && lastDebounced == None
    {
      this.labeler := labeler;
      this.repository := repository;
      state := INITIAL_STATE;
      searchQuery := "";
      lastDebounced := None;
      new;
      var request := LoadPopularMovies(1, true);
    }

    /** `loadPopularMovies(pageToLoad, reset)` up to its request. */
    method LoadPopularMovies(pageToLoad: int, reset: bool) returns (request: MoviesRequest)
      requires Valid()
      modifies this
      ensures Valid()
      ensures Step(state, Some(request)) == PopularStart(old(state), pageToLoad, reset)
      ensures searchQuery == old(searchQuery) && lastDebounced == old(lastDebounced)
    {
      if reset {
        state := state.(isLoading := true, moviesByYear := [], currentPage := 1, isSearchActive := false,
                        currentQuery := "", errorMessage := None, canLoadMore := true,
                        infoMessageResId := None, infoMessageArg := None);
      } else {
        state := state.(isLoadingNextPage := true, errorMessage := None, infoMessageResId := None, infoMessageArg := None);
      }
      request := PopularMoviesPage(pageToLoad, reset);
    }

    /** `fetchMoviesForSearch(query, pageToLoad)` up to its request. */
    method FetchMoviesForSearch(query: string, pageToLoad: int) returns (request: MoviesRequest)
      requires Valid()
      modifies this
      ensures Valid()
      ensures Step(state, Some(request)) == SearchStart(old(state), query, pageToLoad)
      ensures searchQuery == old(searchQuery) && lastDebounced == old(lastDebounced)
    {
      state := state.(isLoading := pageToLoad == 1 && state.moviesByYear == [], isLoadingNextPage := pageToLoad > 1,
                      errorMessage := None, infoMessageResId := None, infoMessageArg := None);
      request := SearchMoviesPage(query, pageToLoad);
    }

    method PerformSearch(query: string) returns (request: MoviesRequest)
      requires Valid()
      modifies this
      ensures Valid()
      ensures Step(state, Some(request)) == NewSearch(old(state), query)
      ensures searchQuery == old(searchQuery) && lastDebounced == old(lastDebounced)
    {
      state := state.(isLoading := true, moviesByYear := [], currentPage := 1, isSearchActive := true,
                      currentQuery := query, errorMessage := None, canLoadMore := true,
                      infoMessageResId := None, infoMessageArg := None);
      request := FetchMoviesForSearch(query, 1);
    }

    method UpdateStateForShortQuery(query: string)
      requires Valid()
      modifies this
      ensures Valid()
      ensures state == ShortQueryState(old(state), query)
      ensures searchQuery == old(searchQuery) && lastDebounced == old(lastDebounced)
    {
      state := ShortQueryState(state, query);
    }

    method HandleDebouncedQuery(query: string) returns (request: Option<MoviesRequest>)
      requires Valid()
      modifies this
      ensures Valid()
      ensures Step(state, request) == DebouncedQuery(old(state), query)
      ensures searchQuery == old(searchQuery) && lastDebounced == old(lastDebounced)
    {
      state := ClearInfo(state);
      if Text.IsBlank(query) {
        if state.isSearchActive {
          var r := LoadPopularMovies(1, true);
          request := Some(r);
        } else {
          request := None;
        }
      } else if |query| >= MIN_QUERY_LENGTH {
        var r := PerformSearch(query);
        request := Some(r);
      } else {
        UpdateStateForShortQuery(query);
        request := None;
      }
    }

    /** The debounced flow emits: a value equal to the last one let through is dropped. */
    method OnDebounceElapsed() returns (request: Option<MoviesRequest>)
      requires Valid()
      modifies this
      ensures Valid()
      ensures searchQuery == old(searchQuery) && lastDebounced == Some(searchQuery)
      ensures old(lastDebounced) == Some(searchQuery) ==> state == old(state) && request == None
      ensures old(lastDebounced) != Some(searchQuery) ==> Step(state, request) == DebouncedQuery(old(state), searchQuery)
    {
      if lastDebounced == Some(searchQuery) {
        return None;
      }
      lastDebounced := Some(searchQuery);
      request := HandleDebouncedQuery(searchQuery);
    }

    method OnSearchQueryChanged(newQuery: string)
      requires Valid()
      modifies this
      ensures Valid()
      ensures searchQuery == newQuery && lastDebounced == old(lastDebounced)
      ensures state == QueryChanged(old(state), newQuery)
    {
      searchQuery := newQuery;
      if Text.IsBlank(newQuery) && state.isSearchActive {
        state := state.(currentQuery := newQuery, moviesByYear := [], infoMessageResId := None, infoMessageArg := None);
      } else if |newQuery| > 0 && |newQuery| < MIN_QUERY_LENGTH && state.isSearchActive {
        state := state.(currentQuery := newQuery, moviesByYear := [],
                        infoMessageResId := Some(SearchQueryTooShort), infoMessageArg := None);
      } else {
        state := state.(currentQuery := newQuery, isSearchActive := !Text.IsBlank(newQuery));
      }
    }

    method OnSearchSubmitted(submittedQuery: string) returns (request: Option<MoviesRequest>)
      requires Valid()
      modifies this
      ensures Valid()
      ensures searchQuery == Text.Trim(submittedQuery) && lastDebounced == old(lastDebounced)
      ensures Step(state, request) == Submitted(old(state), Text.Trim(submittedQuery))
    {
      var query := Text.Trim(submittedQuery);
      searchQuery := query;
      request := None;
      if !Text.IsBlank(query) && |query| < MIN_QUERY_LENGTH {
        UpdateStateForShortQuery(query);
      } else if Text.IsBlank(query) && state.isSearchActive {
        var r := LoadPopularMovies(1, true);
        request := Some(r);
      }
    }

    method LoadNextPage() returns (request: Option<MoviesRequest>)
      requires Valid()
      modifies this
      ensures Valid()
      ensures Step(state, request) == NextPage(old(state))
      ensures searchQuery == old(searchQuery) && lastDebounced == old(lastDebounced)
    {
      if state.isLoading || state.isLoadingNextPage || !state.canLoadMore {
        return None;
      }
      state := ClearInfo(state);
      var nextPage := state.currentPage + 1;
      if state.isSearchActive {
        var r := FetchMoviesForSearch(state.currentQuery, nextPage);
        request := Some(r);
      } else {
        var r := LoadPopularMovies(nextPage, false);
        request := Some(r);
      }
    }

    /** The rest of the `launch` block that asked for `request`, once its result is in. */
    method OnMoviesLoaded(request: MoviesRequest, result: Result<seq<Movie>>)
      requires Valid()
      modifies this
      ensures Valid()
      ensures state == Loaded(old(state), request, result, labeler)
      ensures searchQuery == old(searchQuery) && lastDebounced == old(lastDebounced)
    {
      if result.Success? {
        LoadedPageMovies(state, request, result.data, labeler);
      }
      state := Loaded(state, request, result, labeler);
    }

    /** `toggleWatchlistStatus(movieToToggle)`: flips the movie on the watchlist and shows the
        new flag on every listed movie with its id. */
    method ToggleWatchlistStatus(movieToToggle: Movie) returns (newWatchlistStatus: bool)
      requires Valid() && repository.Valid()
      modifies this, repository.localDataSource.dao
      ensures Valid() && repository.Valid()
      ensures repository.Watchlisted() == UseCases.Toggled(old(repository.Watchlisted()), movieToToggle.id)
      ensures newWatchlistStatus <==> movieToToggle.id in repository.Watchlisted()
      ensures state == WatchlistToggled(old(state), movieToToggle.id, newWatchlistStatus)
      ensures searchQuery == old(searchQuery) && lastDebounced == old(lastDebounced)
    {
      newWatchlistStatus := UseCases.ToggleWatchlist(repository, movieToToggle.id);
      PatchWatchlistSpec(state.moviesByYear, movieToToggle.id, newWatchlistStatus, labeler);
      state := WatchlistToggled(state, movieToToggle.id, newWatchlistStatus);
    }
  }
}
