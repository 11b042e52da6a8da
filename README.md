# MovieApp-compose: a verified model of the data and presentation logic

MovieApp-compose is an Android client for The Movie Database (TMDB). It lists popular movies grouped by release year, searches with a debounced query, pages through results, shows a movie's details with similar movies and their top cast and directors, and keeps a local watchlist. This project models the app's orchestration logic in Dafny and proves what that logic promises.

The model is layered like the app:

- **`SafeApi`, `RemoteDataSource`.** The remote data source checks its arguments before any request. It sends each request through the safe-call wrapper, which sorts every thrown value into one of the four `MovieError` categories (`MovieErrors`).
- **`Mappers`.** DTO-to-domain mappers (`Dtos`, `Domain`) fill in defaults and look up the watchlist flag.
- **`Repository`.** The repository maps pages and aggregates the credits of several movies. It does this with the same loops as the source, over the awaited responses in submission order. `CreditsProperties` proves the aggregation's contract.
- **`Watchlist`.** The watchlist store is a Room table with a primary key, modelled as its rows. The local data source sits over it.
- **`UseCases`.** The credits use case (role filter, stable popularity sort, top five), the search use case, and the watchlist toggle.
- **`MovieList`, `YearGrouping`.** The list screen's view model: a class whose state record is updated by each public operation. It holds the `groupMoviesByYear` pipeline, whose class invariant is that the list on screen is always a grouping of its own movies.
- **`MovieDetails`, `UiStates`.** The detail screen's view model, with three independently loading sections.
- **`ErrorMessages`, `StringResources`.** The user-facing error message of each failure, as a string-resource id.
- **`ImageUrls`.** The TMDB image URL builder.
- **`Text`, `Sorting`.** The Kotlin library behaviour the app relies on: `isBlank`, `trim`, `equals(ignoreCase)`, decimal `toString`, string comparison, stable `sortedByDescending`.

Collaborators the code only calls are passed in as values:

- **Network, JSON and dates.** The HTTP transport, Gson's parse of an error body, and the date parser used for year labels are functions given to the operations that use them.
- **View-model `launch` blocks.** The list view model splits each block at its suspension point. The start method makes the first state update and returns the page it asks for, and `OnMoviesLoaded` applies the fetched `Result`. A detail-screen block is one transition that is given what its use cases answer. It returns the movie ids it asked the credits for, so "no credits request" can be stated.

The source is inconsistent with itself in two places, and the model follows what the code does:

- `MovieError.ValidationError` does not exist. Validation failures are `ApiValidationProblem(details)` with no cause.
- Two safe-call wrappers exist. The remote data source imports the bare try/catch in `utils/data/safeApiCall.kt`, but the model uses the classifying wrapper of `utils/network/SafeApiCall.kt`. That is the behaviour the data source's own unit test expects (`MovieRemoteDataSourceImplTest.kt`, line 56).

## Model

| member | source | states |
|---|---|---|
| MovieErrors.ValidationProblem | app/src/main/java/com/shenawynkov/movieapp/utils/data/MovieError.kt:39-42 | a validation error carries its details and no cause |
| MovieErrors.HttpErrorMessage | app/src/main/java/com/shenawynkov/movieapp/utils/data/MovieError.kt:18-23 | an HTTP error's message is the API message when present, else "HTTP error " and the code in decimal, from which the code reads back |
| MovieErrors.MessagesAndCauses | app/src/main/java/com/shenawynkov/movieapp/utils/data/MovieError.kt:29-51 | the fixed messages of the other three variants, the validation message ends in the details, and cause is the specific cause in every variant |
| SafeApi.ApiMessage | app/src/main/java/com/shenawynkov/movieapp/utils/network/SafeApiCall.kt:36-46 | no API message for an absent or blank body or a failed parse; otherwise the parsed status_message |
| SafeApi.SafeApiCall | app/src/main/java/com/shenawynkov/movieapp/utils/network/SafeApiCall.kt:24-54 | success exactly when the call returned, with its value; every failure is a categorised error whose cause is the thrown value |
| SafeApi.Classify | app/src/main/java/com/shenawynkov/movieapp/utils/network/SafeApiCall.kt:32-51 | I/O failures become network problems, HTTP exceptions become HTTP errors with the response's code and body, anything else an unexpected data-source error; never a validation problem |
| SafeApi.HttpFailureKeepsCode | app/src/main/java/com/shenawynkov/movieapp/utils/network/SafeApiCall.kt:34-47 | an HTTP failure keeps its code and body whatever the parser does, and with no body the parser plays no part |
| RemoteDataSource.PopularMoviesCall | app/src/main/java/com/shenawynkov/movieapp/data/remote/datasource/MovieRemoteDataSourceImpl.kt:22-25 | the popular list always asks for the first page in en-US |
| RemoteDataSource.SearchMoviesCall | app/src/main/java/com/shenawynkov/movieapp/data/remote/datasource/MovieRemoteDataSourceImpl.kt:27-37 | a blank query is rejected with the blank-query validation error; otherwise the non-empty trimmed query is sent for page 1 without adult titles |
| RemoteDataSource.MovieDetailsCall | app/src/main/java/com/shenawynkov/movieapp/data/remote/datasource/MovieRemoteDataSourceImpl.kt:39-46 | rejected exactly when the id is not positive, otherwise the details request for that id |
| RemoteDataSource.SimilarMoviesCall | app/src/main/java/com/shenawynkov/movieapp/data/remote/datasource/MovieRemoteDataSourceImpl.kt:48-58 | rejected exactly when the id is not positive, otherwise page 1 of the similar movies |
| RemoteDataSource.MovieCreditsCall | app/src/main/java/com/shenawynkov/movieapp/data/remote/datasource/MovieRemoteDataSourceImpl.kt:60-67 | rejected exactly when the id is not positive, otherwise the credits request for that id |
| RemoteDataSource.Perform | app/src/main/java/com/shenawynkov/movieapp/data/remote/datasource/MovieRemoteDataSourceImpl.kt:22-67 | a rejection is the result with no request; an issued request goes through the safe-call wrapper |
| RemoteDataSource.MovieRemoteDataSourceImpl | app/src/main/java/com/shenawynkov/movieapp/data/remote/datasource/MovieRemoteDataSourceImpl.kt:16-68 | each of the five operations is its guard followed by at most one call |
| RemoteDataSource.BlankQueryIssuesNoRequest | app/src/main/java/com/shenawynkov/movieapp/data/remote/datasource/MovieRemoteDataSourceImpl.kt:31-32 | a blank query gives the validation error whatever the transport would answer |
| RemoteDataSource.InvalidIdIssuesNoRequest | app/src/main/java/com/shenawynkov/movieapp/data/remote/datasource/MovieRemoteDataSourceImpl.kt:39-67 | a non-positive id gives the invalid-id error for details, similar and credits, with no transport consulted |
| RemoteDataSource.PageIsNotForwarded | app/src/main/java/com/shenawynkov/movieapp/data/remote/datasource/MovieRemoteDataSourceImpl.kt:22-58 | popular, search and similar give the same answer for every page asked for |
| RemoteDataSource.SearchSendsTrimmedQuery | app/src/main/java/com/shenawynkov/movieapp/data/remote/datasource/MovieRemoteDataSourceImpl.kt:31-36 | queries equal after trimming get the same answer |
| RemoteDataSource.ValidCallPassesBodyThrough | app/src/main/java/com/shenawynkov/movieapp/data/remote/datasource/MovieRemoteDataSourceImpl.kt:39-46 | for a valid id a returned body comes back unchanged as the success value |
| Mappers.MovieToDomain | app/src/main/java/com/shenawynkov/movieapp/data/mappers/toDomain.kt:13-22 | fields copied, a missing vote average is 0, and the watchlist flag is the id's membership |
| Mappers.MoviesToDomain | app/src/main/java/com/shenawynkov/movieapp/data/repository/impl/MovieRepositoryImpl.kt:25-36 | one movie per DTO, in order |
| Mappers.GenreNames | app/src/main/java/com/shenawynkov/movieapp/data/mappers/toDomain.kt:36 | exactly the present genre names, no more of them than genres |
| Mappers.GenreNamesConcat | app/src/main/java/com/shenawynkov/movieapp/data/mappers/toDomain.kt:36 | the names of a concatenation are the concatenated names, so their order follows the genres |
| Mappers.MovieDetailToDomain | app/src/main/java/com/shenawynkov/movieapp/data/mappers/toDomain.kt:24-39 | fields copied, absent revenue and vote count are 0, absent genres are empty, present genres become their names in order with nameless ones dropped, and the watchlist flag is the id's membership |
| Mappers.ContributorImageUrl | app/src/main/java/com/shenawynkov/movieapp/data/mappers/toDomain.kt:46 | a URL exactly when there is a profile path |
| Mappers.ContributorImageUrlIsW500 | app/src/main/java/com/shenawynkov/movieapp/data/mappers/toDomain.kt:46 | the hand-written contributor URL equals the image builder's URL at size w500 |
| Mappers.CastToContributor | app/src/main/java/com/shenawynkov/movieapp/data/mappers/toDomain.kt:41-50 | a cast member is always an actor, with id, name and popularity copied |
| Mappers.CrewToContributor | app/src/main/java/com/shenawynkov/movieapp/data/mappers/toDomain.kt:52-69 | a crew member is a director exactly for department "Directing" and job "Director" up to case, otherwise OTHER; never an actor |
| Mappers.DirectorClassificationExamples | app/src/main/java/com/shenawynkov/movieapp/data/mappers/toDomain.kt:53-61 | the job comparison ignores case and the department comparison does not |
| Repository.MapMoviesResult | app/src/main/java/com/shenawynkov/movieapp/data/repository/impl/MovieRepositoryImpl.kt:25-52 | a failure passes through unchanged, a success becomes the mapped movies |
| Repository.PopularResult | app/src/main/java/com/shenawynkov/movieapp/data/repository/impl/MovieRepositoryImpl.kt:25-37 | the popular-movies response for the page: a failure is passed through, a success is each result movie mapped with its watchlist flag, in order |
| Repository.SearchResult | app/src/main/java/com/shenawynkov/movieapp/data/repository/impl/MovieRepositoryImpl.kt:38-52 | the search response for the query and page: a failure is passed through, a success is each result movie mapped with its watchlist flag, in order |
| Repository.DetailsResult | app/src/main/java/com/shenawynkov/movieapp/data/repository/impl/MovieRepositoryImpl.kt:54-61 | a failure passes through, a success is the mapped detail with the watchlist flag |
| Repository.SimilarResult | app/src/main/java/com/shenawynkov/movieapp/data/repository/impl/MovieRepositoryImpl.kt:63-77 | page 1 is asked for and at most the first five results are mapped, in order; a failure passes through |
| Repository.CreditResponses | app/src/main/java/com/shenawynkov/movieapp/data/repository/impl/MovieRepositoryImpl.kt:85-88 | one credits request per id, in order |
| Repository.MovieRepositoryImpl.GetPopularMovies | app/src/main/java/com/shenawynkov/movieapp/data/repository/impl/MovieRepositoryImpl.kt:25-36 | the mapped popular page over the current watchlist |
| Repository.MovieRepositoryImpl.SearchMovies | app/src/main/java/com/shenawynkov/movieapp/data/repository/impl/MovieRepositoryImpl.kt:38-52 | the mapped search page over the current watchlist |
| Repository.MovieRepositoryImpl.GetMovieDetails | app/src/main/java/com/shenawynkov/movieapp/data/repository/impl/MovieRepositoryImpl.kt:54-61 | the mapped details over the current watchlist |
| Repository.MovieRepositoryImpl.GetSimilarMovies | app/src/main/java/com/shenawynkov/movieapp/data/repository/impl/MovieRepositoryImpl.kt:63-77 | the first five mapped similar movies over the current watchlist |
| Repository.AddCastOf | app/src/main/java/com/shenawynkov/movieapp/data/repository/impl/MovieRepositoryImpl.kt:97-101 | the cast loop adds each cast member as an actor unless an actor with that id is already gathered |
| Repository.AddDirectorsOf | app/src/main/java/com/shenawynkov/movieapp/data/repository/impl/MovieRepositoryImpl.kt:102-106 | the crew loop adds each crew member whose job is exactly "Director" unless a director with that id is already gathered |
| Repository.MovieRepositoryImpl.GetCreditsForMovies | app/src/main/java/com/shenawynkov/movieapp/data/repository/impl/MovieRepositoryImpl.kt:79-121 | the source's loops compute the aggregation of the responses in submission order (contract in CreditsProperties) |
| Repository.MovieRepositoryImpl.IsOnWatchlist | app/src/main/java/com/shenawynkov/movieapp/data/repository/impl/MovieRepositoryImpl.kt:123 | true exactly when the id is on the watchlist |
| Repository.MovieRepositoryImpl.AddToWatchlist | app/src/main/java/com/shenawynkov/movieapp/data/repository/impl/MovieRepositoryImpl.kt:125-127 | the watchlist gains the id and nothing else changes |
| Repository.MovieRepositoryImpl.RemoveFromWatchlist | app/src/main/java/com/shenawynkov/movieapp/data/repository/impl/MovieRepositoryImpl.kt:129-131 | the watchlist loses the id and nothing else changes |
| CreditsProperties.AddCastFacts | app/src/main/java/com/shenawynkov/movieapp/data/repository/impl/MovieRepositoryImpl.kt:97-101 | the cast loop only appends, every cast member ends up present as an actor, and each addition is a mapped cast member |
| CreditsProperties.AddDirectorsFacts | app/src/main/java/com/shenawynkov/movieapp/data/repository/impl/MovieRepositoryImpl.kt:102-106 | the crew loop only appends, considers only crew whose job is exactly "Director", and each addition is such a mapped crew member |
| CreditsProperties.AddCastInOrder | app/src/main/java/com/shenawynkov/movieapp/data/repository/impl/MovieRepositoryImpl.kt:97-101 | the cast loop handles the cast in list order: what a prefix of the cast adds comes before what the rest adds |
| CreditsProperties.AddDirectorsInOrder | app/src/main/java/com/shenawynkov/movieapp/data/repository/impl/MovieRepositoryImpl.kt:102-106 | the crew loop handles the crew in list order |
| CreditsProperties.GatheredPrefix | app/src/main/java/com/shenawynkov/movieapp/data/repository/impl/MovieRepositoryImpl.kt:93-115 | the responses are handled in submission order: what the first k responses gather is a prefix of what all of them gather |
| CreditsProperties.GatheredStepOrder | app/src/main/java/com/shenawynkov/movieapp/data/repository/impl/MovieRepositoryImpl.kt:95-107 | a successful response's cast is added, in list order, after everything earlier responses gathered, and its crew, in list order, after its cast |
| CreditsProperties.DistinctByKeyFacts | app/src/main/java/com/shenawynkov/movieapp/data/repository/impl/MovieRepositoryImpl.kt:120 | the de-duplication keeps one entry per (id, role), invents none and loses no (id, role) |
| CreditsProperties.AbsentStaysAbsent | app/src/main/java/com/shenawynkov/movieapp/data/repository/impl/MovieRepositoryImpl.kt:120 | de-duplication introduces no (id, role) that the input lacks |
| CreditsProperties.KeptIfFirst | app/src/main/java/com/shenawynkov/movieapp/data/repository/impl/MovieRepositoryImpl.kt:120 | the first contributor of its (id, role) is kept |
| CreditsProperties.DistinctByKeyKeepsFirst | app/src/main/java/com/shenawynkov/movieapp/data/repository/impl/MovieRepositoryImpl.kt:120 | the first contributor of every (id, role) is kept |
| CreditsProperties.AbsentFromDistinct | app/src/main/java/com/shenawynkov/movieapp/data/repository/impl/MovieRepositoryImpl.kt:120 | an (id, role) missing after de-duplication was missing before it |
| CreditsProperties.FirstOfKeyExtends | app/src/main/java/com/shenawynkov/movieapp/data/repository/impl/MovieRepositoryImpl.kt:120 | a first occurrence of an (id, role) stays first when the list is extended |
| CreditsProperties.LastIsFirst | app/src/main/java/com/shenawynkov/movieapp/data/repository/impl/MovieRepositoryImpl.kt:120 | the last contributor is the first of its (id, role) when no earlier contributor shares it |
| CreditsProperties.KeptIsFirst | app/src/main/java/com/shenawynkov/movieapp/data/repository/impl/MovieRepositoryImpl.kt:120 | a kept contributor is the first of its (id, role) |
| CreditsProperties.DistinctByKeyOnlyFirst | app/src/main/java/com/shenawynkov/movieapp/data/repository/impl/MovieRepositoryImpl.kt:120 | everything kept is the first contributor of its (id, role) |
| CreditsProperties.DistinctByKeyPrefix | app/src/main/java/com/shenawynkov/movieapp/data/repository/impl/MovieRepositoryImpl.kt:120 | the de-duplication of a prefix is a prefix of the de-duplication, so the kept entries stay in input order |
| CreditsProperties.DistinctByKeyEarliest | app/src/main/java/com/shenawynkov/movieapp/data/repository/impl/MovieRepositoryImpl.kt:120 | an entry that is kept, and whose (id, role) already occurs in a prefix, lies in that prefix |
| CreditsProperties.DistinctByKeySpec | app/src/main/java/com/shenawynkov/movieapp/data/repository/impl/MovieRepositoryImpl.kt:120 | distinctBy on (id, role) keeps exactly the first contributor of each (id, role), with unique keys, in input order |
| CreditsProperties.AllFailed | app/src/main/java/com/shenawynkov/movieapp/data/repository/impl/MovieRepositoryImpl.kt:109-118 | when every response failed the remembered error is the first one and no success was counted |
| CreditsProperties.NoSuccessMeansAllFailed | app/src/main/java/com/shenawynkov/movieapp/data/repository/impl/MovieRepositoryImpl.kt:93-119 | a success count of zero means every response failed |
| CreditsProperties.CombineCreditsSpec | app/src/main/java/com/shenawynkov/movieapp/data/repository/impl/MovieRepositoryImpl.kt:79-121 | no ids gives an empty success; failure exactly when every fetch failed, with the first id's error; otherwise unique (id, role) entries, each from a successful response, with every cast member and every named director present |
| CreditsProperties.CombineCreditsOrder | app/src/main/java/com/shenawynkov/movieapp/data/repository/impl/MovieRepositoryImpl.kt:93-120 | the combined credits of a prefix of the responses are a prefix of the combined credits: earlier movies contribute first |
| CreditsProperties.EarlierCreditWins | app/src/main/java/com/shenawynkov/movieapp/data/repository/impl/MovieRepositoryImpl.kt:97-120 | when several responses credit one person as actor, or as director, the entry kept comes from the earliest of them |
| CreditsProperties.RolesComeFromMatchingCredits | app/src/main/java/com/shenawynkov/movieapp/data/repository/impl/MovieRepositoryImpl.kt:96-106 | every director comes from a crew credit with job exactly "Director" and department "Directing"; every actor from a cast member |
| CreditsProperties.CreditsForMoviesSpec | app/src/main/java/com/shenawynkov/movieapp/data/repository/impl/MovieRepositoryImpl.kt:79-121 | over the movie ids: no ids gives an empty success; failure exactly when every id's fetch failed, with the first id's error; otherwise unique (id, role) entries, each taken from the credits of one of the ids, with every cast member and every named director of every successful id present |
| CreditsProperties.CreditsForMoviesOrder | app/src/main/java/com/shenawynkov/movieapp/data/repository/impl/MovieRepositoryImpl.kt:85-120 | the credits of a prefix of the ids are a prefix of the credits of all the ids |
| CreditsProperties.EarlierMovieWins | app/src/main/java/com/shenawynkov/movieapp/data/repository/impl/MovieRepositoryImpl.kt:93-120 | a person credited in the same role (actor or director) by several of the movies keeps the entry of the earliest of those movies |
| Watchlist.Without | app/src/main/java/com/shenawynkov/movieapp/data/local/db/doa/WatchlistDao.kt:14-15 | exactly the rows other than the id; keys stay unique; an absent id leaves the table unchanged |
| Watchlist.WatchlistDao.Insert | app/src/main/java/com/shenawynkov/movieapp/data/local/db/doa/WatchlistDao.kt:11-12 | a replacing insert: the old row with the key goes and the new one is appended, so the ids gain exactly this one |
| Watchlist.WatchlistDao.Delete | app/src/main/java/com/shenawynkov/movieapp/data/local/db/doa/WatchlistDao.kt:14-15 | removes exactly the row with this id |
| Watchlist.WatchlistDao.Exists | app/src/main/java/com/shenawynkov/movieapp/data/local/db/doa/WatchlistDao.kt:17-18 | true exactly when the id is present, changing nothing |
| Watchlist.MovieLocalDataSourceImpl.AddToWatchlist | app/src/main/java/com/shenawynkov/movieapp/data/local/datasource/MovieLocalDataSourceImpl.kt:12-14 | the ids gain exactly this one |
| Watchlist.MovieLocalDataSourceImpl.RemoveFromWatchlist | app/src/main/java/com/shenawynkov/movieapp/data/local/datasource/MovieLocalDataSourceImpl.kt:16-18 | the ids lose exactly this one |
| Watchlist.MovieLocalDataSourceImpl.IsOnWatchlist | app/src/main/java/com/shenawynkov/movieapp/data/local/datasource/MovieLocalDataSourceImpl.kt:20 | true exactly when the id is on the watchlist |
| Watchlist.ReplaceKeepsOneRow | app/src/main/java/com/shenawynkov/movieapp/data/local/db/doa/WatchlistDao.kt:11-12 | an insert keeps keys unique, adds exactly the id, and a repeated insert leaves the rows as the first left them |
| UseCases.WithRole | app/src/main/java/com/shenawynkov/movieapp/domain/usecase/GetCreditsForSimilarMoviesUseCase.kt:25 | exactly the contributors of the role |
| UseCases.WithRoleConcat | app/src/main/java/com/shenawynkov/movieapp/domain/usecase/GetCreditsForSimilarMoviesUseCase.kt:25 | the role filter keeps list order: filtering a concatenation concatenates the filtered parts |
| UseCases.TopByPopularitySpec | app/src/main/java/com/shenawynkov/movieapp/domain/usecase/GetCreditsForSimilarMoviesUseCase.kt:23-33 | at most five of the role, from the input, most popular first, a prefix of the stable sort (equal popularity keeps input order), and anyone left out is no more popular than all five chosen |
| UseCases.GetCreditsForSimilarMoviesSpec | app/src/main/java/com/shenawynkov/movieapp/domain/usecase/GetCreditsForSimilarMoviesUseCase.kt:14-41 | no ids gives empty groups; a repository error is passed on; otherwise the actors and the directors are each the top five of their role by popularity (the TopByPopularitySpec selection: at most five, from the repository's list, most popular first, a stable prefix), so OTHER never appears |
| UseCases.NoIdsNoCredits | app/src/main/java/com/shenawynkov/movieapp/domain/usecase/GetCreditsForSimilarMoviesUseCase.kt:15-17 | with no ids the repository is not consulted |
| UseCases.SearchMovies | app/src/main/java/com/shenawynkov/movieapp/domain/usecase/SearchMoviesUseCase.kt:12-17 | a blank query is an empty success, anything else the repository's answer for the same query and page |
| UseCases.SearchNeverReportsBlankQuery | app/src/main/java/com/shenawynkov/movieapp/domain/usecase/SearchMoviesUseCase.kt:13-16 | through the use case a search failure never is the data source's validation error |
| UseCases.Toggled | app/src/main/java/com/shenawynkov/movieapp/domain/usecase/ToggleWatchlistUseCase.kt:14-23 | the id's membership flips and every other id's stays |
| UseCases.ToggleTwice | app/src/main/java/com/shenawynkov/movieapp/domain/usecase/ToggleWatchlistUseCase.kt:14-23 | toggling twice restores the watchlist |
| UseCases.ToggleWatchlist | app/src/main/java/com/shenawynkov/movieapp/domain/usecase/ToggleWatchlistUseCase.kt:14-23 | a listed id is removed and false returned, an unlisted one added and true returned; the result is the new membership |
| ErrorMessages.HttpErrorMessageRes | app/src/main/java/com/shenawynkov/movieapp/ui/common/utils/ErrorMessageUtils.kt:12-20 | 401/403 access denied, 404 not found, the rest of 4xx bad request, 5xx server unavailable, anything else unexpected, each exactly for its band |
| ErrorMessages.HttpExceptionMessageRes | app/src/main/java/com/shenawynkov/movieapp/ui/common/utils/ErrorMessageUtils.kt:27-34 | the fallback bands for a bare HTTP exception, with no 4xx band |
| ErrorMessages.ToUserFriendlyMessage | app/src/main/java/com/shenawynkov/movieapp/ui/common/utils/ErrorMessageUtils.kt:10-39 | categorised errors by category, bare HTTP and I/O exceptions by fallback, anything else its localized message or "unknown"; raw text exactly in that last case |
| ErrorMessages.MovieErrorsUseCategoryMessages | app/src/main/java/com/shenawynkov/movieapp/ui/common/utils/ErrorMessageUtils.kt:11-24 | a categorised error is always shown with one of the eight category messages |
| ErrorMessages.SafeCallFailuresMessage | app/src/main/java/com/shenawynkov/movieapp/ui/common/utils/ErrorMessageUtils.kt:11-24 | every safe-call failure is shown as no connection, by its HTTP band, or as unexpected data |
| ImageUrls.BuildUrl | app/src/main/java/com/shenawynkov/movieapp/ui/common/utils/ImageUrlBuilder.kt:11-19 | a URL exactly when there is a path, and it is the base URL, the size and then the path |
| ImageUrls.BuildPosterUrl | app/src/main/java/com/shenawynkov/movieapp/ui/common/utils/ImageUrlBuilder.kt:11-14 | the base URL, the size and the path when there is a path, no URL otherwise; w342 by default |
| ImageUrls.BuildProfileUrl | app/src/main/java/com/shenawynkov/movieapp/ui/common/utils/ImageUrlBuilder.kt:16-19 | the base URL, the size and the path when there is a path, no URL otherwise; w185 by default |
| ImageUrls.BuildUrlInjective | app/src/main/java/com/shenawynkov/movieapp/ui/common/utils/ImageUrlBuilder.kt:11-19 | at one size, different paths never give the same URL |
| ImageUrls.DefaultSizes | app/src/main/java/com/shenawynkov/movieapp/ui/common/utils/ImageUrlBuilder.kt:4-19 | posters default to w342 and profiles to w185 |
| Text.BlankIffTrimEmpty | app/src/main/java/com/shenawynkov/movieapp/data/remote/datasource/MovieRemoteDataSourceImpl.kt:31-35 | a query is blank exactly when trimming leaves nothing, so a non-blank query is sent non-empty |
| Text.IntToStringRoundTrip | app/src/main/java/com/shenawynkov/movieapp/utils/data/MovieError.kt:23 | the decimal text of an integer is an optional minus and digits, and parses back to it |
| Sorting.SortDescSorted | app/src/main/java/com/shenawynkov/movieapp/domain/usecase/GetCreditsForSimilarMoviesUseCase.kt:26 | sortedByDescending yields a non-increasing permutation of its input |
| Sorting.SortDescStable | app/src/main/java/com/shenawynkov/movieapp/domain/usecase/GetCreditsForSimilarMoviesUseCase.kt:26 | sortedByDescending is stable: elements with equal keys keep their relative order |
| Sorting.TakeOfSorted | app/src/main/java/com/shenawynkov/movieapp/domain/usecase/GetCreditsForSimilarMoviesUseCase.kt:26-27 | the first n of a sorted list stay sorted and whatever is dropped ranks no higher than what is kept |
| YearGrouping.YearLabelSpec | app/src/main/java/com/shenawynkov/movieapp/ui/movielist/MovieListViewModel.kt:329-346 | a null or blank date, or one the parser rejects, gets the unknown-year label; otherwise the label is the year in decimal and reads back as that year |
| YearGrouping.ReleaseDateLeIsTotalPreorder | app/src/main/java/com/shenawynkov/movieapp/ui/movielist/MovieListViewModel.kt:350 | the release-date order is total and transitive, and a missing date ranks lowest, so it comes last in the newest-first sort |
| YearGrouping.YearLeIsTotalPreorder | app/src/main/java/com/shenawynkov/movieapp/ui/movielist/MovieListViewModel.kt:351 | the label order is total and transitive |
| YearGrouping.DistinctByIdSpec | app/src/main/java/com/shenawynkov/movieapp/ui/movielist/MovieListViewModel.kt:348 | distinctBy id keeps each id once, as its first occurrence, and loses no id |
| YearGrouping.DistinctByIdOfDistinct | app/src/main/java/com/shenawynkov/movieapp/ui/movielist/MovieListViewModel.kt:348 | a list without repeated ids is unchanged |
| YearGrouping.GroupIndex | app/src/main/java/com/shenawynkov/movieapp/ui/movielist/MovieListViewModel.kt:349 | the position of the first group with the label, or none |
| YearGrouping.GroupByOfWellGrouped | app/src/main/java/com/shenawynkov/movieapp/ui/movielist/MovieListViewModel.kt:349 | grouping the concatenation of well-formed groups gives those groups back |
| YearGrouping.SortGroups | app/src/main/java/com/shenawynkov/movieapp/ui/movielist/MovieListViewModel.kt:350 | each group keeps its label and has its movies sorted newest first |
| YearGrouping.GroupedMovies | app/src/main/java/com/shenawynkov/movieapp/ui/movielist/MovieListViewModel.kt:347-351 | the grouped list holds each id once, as the input's first movie with it, and every id of the input |
| YearGrouping.GroupingDisplayable | app/src/main/java/com/shenawynkov/movieapp/ui/movielist/MovieListViewModel.kt:347-351 | the grouping's result is displayable: good groups, distinct labels in descending order, each newest first, no id twice |
| YearGrouping.DisplayableIsFixpoint | app/src/main/java/com/shenawynkov/movieapp/ui/movielist/MovieListViewModel.kt:347-351 | a displayable list is what grouping its own movies gives |
| YearGrouping.GroupingIdempotent | app/src/main/java/com/shenawynkov/movieapp/ui/movielist/MovieListViewModel.kt:347-351 | grouping the flattened result again gives the same groups in the same order |
| YearGrouping.GroupMoviesByYearSpec | app/src/main/java/com/shenawynkov/movieapp/ui/movielist/MovieListViewModel.kt:328-352 | the whole contract of groupMoviesByYear: ids once and first, none lost, groups non-empty holding exactly their label's movies, labels distinct and descending, each group newest first, idempotent |
| MovieList.ShortQueryState | app/src/main/java/com/shenawynkov/movieapp/ui/movielist/MovieListViewModel.kt:107-121 | no results, no more pages, page 1, search mode, the query recorded and the too-short message |
| MovieList.PopularStart | app/src/main/java/com/shenawynkov/movieapp/ui/movielist/MovieListViewModel.kt:186-203 | a reset starts over in popular mode with loading shown; a later page only raises the next-page flag; the request is the page asked for |
| MovieList.SearchStart | app/src/main/java/com/shenawynkov/movieapp/ui/movielist/MovieListViewModel.kt:260-269 | the full spinner only for a first page with nothing shown, the next-page spinner for later pages, the list untouched |
| MovieList.NewSearch | app/src/main/java/com/shenawynkov/movieapp/ui/movielist/MovieListViewModel.kt:150-167 | a fresh search: empty list, page 1, search mode with the query, asking for its first page |
| MovieList.DebouncedQuery | app/src/main/java/com/shenawynkov/movieapp/ui/movielist/MovieListViewModel.kt:87-102 | blank reloads popular movies only while searching, three or more characters search, shorter shows the too-short state; a request exactly in the first two cases |
| MovieList.QueryChanged | app/src/main/java/com/shenawynkov/movieapp/ui/movielist/MovieListViewModel.kt:123-148 | the query is recorded; during a search a blank or too-short query empties the list; outside a search the mode follows blankness |
| MovieList.Submitted | app/src/main/java/com/shenawynkov/movieapp/ui/movielist/MovieListViewModel.kt:169-180 | a short trimmed query shows the too-short state at once, a blank one during a search reloads popular movies, the rest is left to the debounced handler |
| MovieList.NextPage | app/src/main/java/com/shenawynkov/movieapp/ui/movielist/MovieListViewModel.kt:315-326 | while loading or at the end nothing happens; otherwise the next page is asked for in the current mode and the list is kept |
| MovieList.GroupingEmptyIff | app/src/main/java/com/shenawynkov/movieapp/ui/movielist/MovieListViewModel.kt:214 | the grouping is empty exactly when there are no movies, so the empty message depends only on the page |
| MovieList.PopularLoaded | app/src/main/java/com/shenawynkov/movieapp/ui/movielist/MovieListViewModel.kt:205-251 | a success shows the regrouped movies at the requested page, can load more exactly when the page was non-empty (empty message exactly on an empty first page outside a search); an error keeps the list, stops paging and shows its message |
| MovieList.SearchLoaded | app/src/main/java/com/shenawynkov/movieapp/ui/movielist/MovieListViewModel.kt:271-310 | the same for a search page, the no-results message carrying the query |
| MovieList.LoadedPageMovies | app/src/main/java/com/shenawynkov/movieapp/ui/movielist/MovieListViewModel.kt:207-211 | a first page or reset shows exactly the page's ids; a later page keeps every movie shown and adds the page's ids; the list stays displayable |
| MovieList.PatchMovies | app/src/main/java/com/shenawynkov/movieapp/ui/movielist/MovieListViewModel.kt:366-372 | the movies with the id carry the new flag, all others unchanged, same length |
| MovieList.PatchWatchlist | app/src/main/java/com/shenawynkov/movieapp/ui/movielist/MovieListViewModel.kt:363-374 | the same patch in every group, labels kept |
| MovieList.PatchTwice | app/src/main/java/com/shenawynkov/movieapp/ui/movielist/MovieListViewModel.kt:363-374 | a second patch of the same id overrides the first |
| MovieList.PatchWatchlistSpec | app/src/main/java/com/shenawynkov/movieapp/ui/movielist/MovieListViewModel.kt:354-375 | the toggle keeps the list displayable with the same labels and sizes and ids, sets the flag on exactly the movies with the id, leaves the rest as they were |
| MovieList.MovieListViewModel.constructor | app/src/main/java/com/shenawynkov/movieapp/ui/movielist/MovieListViewModel.kt:67-70 | starts in the default state and begins loading popular movies from page 1 |
| MovieList.MovieListViewModel.LoadPopularMovies | app/src/main/java/com/shenawynkov/movieapp/ui/movielist/MovieListViewModel.kt:182-203 | the start of loadPopularMovies, as PopularStart |
| MovieList.MovieListViewModel.FetchMoviesForSearch | app/src/main/java/com/shenawynkov/movieapp/ui/movielist/MovieListViewModel.kt:256-269 | the start of fetchMoviesForSearch, as SearchStart |
| MovieList.MovieListViewModel.PerformSearch | app/src/main/java/com/shenawynkov/movieapp/ui/movielist/MovieListViewModel.kt:150-167 | performSearch, as NewSearch |
| MovieList.MovieListViewModel.UpdateStateForShortQuery | app/src/main/java/com/shenawynkov/movieapp/ui/movielist/MovieListViewModel.kt:107-121 | updateStateForShortQuery, as ShortQueryState |
| MovieList.MovieListViewModel.HandleDebouncedQuery | app/src/main/java/com/shenawynkov/movieapp/ui/movielist/MovieListViewModel.kt:87-102 | handleDebouncedQuery, as DebouncedQuery |
| MovieList.MovieListViewModel.OnDebounceElapsed | app/src/main/java/com/shenawynkov/movieapp/ui/movielist/MovieListViewModel.kt:76-82 | the debounced flow: a value equal to the last one let through is dropped, any other is handled |
| MovieList.MovieListViewModel.OnSearchQueryChanged | app/src/main/java/com/shenawynkov/movieapp/ui/movielist/MovieListViewModel.kt:123-148 | onSearchQueryChanged, as QueryChanged, and the query flow takes the new value |
| MovieList.MovieListViewModel.OnSearchSubmitted | app/src/main/java/com/shenawynkov/movieapp/ui/movielist/MovieListViewModel.kt:169-180 | onSearchSubmitted on the trimmed query, as Submitted |
| MovieList.MovieListViewModel.LoadNextPage | app/src/main/java/com/shenawynkov/movieapp/ui/movielist/MovieListViewModel.kt:315-326 | loadNextPage, as NextPage |
| MovieList.MovieListViewModel.OnMoviesLoaded | app/src/main/java/com/shenawynkov/movieapp/ui/movielist/MovieListViewModel.kt:205-311 | the completion of a load, keeping the list displayable |
| MovieList.MovieListViewModel.ToggleWatchlistStatus | app/src/main/java/com/shenawynkov/movieapp/ui/movielist/MovieListViewModel.kt:354-375 | the watchlist is toggled and the new flag shown on every listed movie with the id, the list staying displayable |
| MovieDetails.Shown | app/src/main/java/com/shenawynkov/movieapp/ui/details/MovieDetailViewModel.kt:74-85 | a section shows the data of a success or the user-facing message of a failure, never loading |
| MovieDetails.MovieIds | app/src/main/java/com/shenawynkov/movieapp/ui/details/MovieDetailViewModel.kt:98 | the ids of the similar movies in order |
| MovieDetails.SimilarAndCredits | app/src/main/java/com/shenawynkov/movieapp/ui/details/MovieDetailViewModel.kt:87-142 | credits asked for, with the similar movies' ids in order, exactly when similar movies are a non-empty success; none gives empty credits; a failure puts the same message in both sections; the movie section is left alone |
| MovieDetails.FetchAll | app/src/main/java/com/shenawynkov/movieapp/ui/details/MovieDetailViewModel.kt:59-146 | everything reloads from scratch: the detail section shows the detail result, the similar-movies and credits sections are exactly what SimilarAndCredits gives from the initial state (credits shown for a non-empty list, empty credits for none, one shared message on failure), and overall loading is over at the end |
| MovieDetails.Retry | app/src/main/java/com/shenawynkov/movieapp/ui/details/MovieDetailViewModel.kt:148-224 | retrying the details changes only the detail section; retrying similar movies never touches the details; neither touches overall loading |
| MovieDetails.DetailToggled | app/src/main/java/com/shenawynkov/movieapp/ui/details/MovieDetailViewModel.kt:226-238 | nothing happens unless the details are shown; then only their watchlist flag changes, to the new status |
| MovieDetails.TransitionsKeepConsistent | app/src/main/java/com/shenawynkov/movieapp/ui/details/MovieDetailViewModel.kt:59-224 | credits are loading exactly with similar movies, share their failure and are empty without them, and after overall loading no section loads; fetching establishes this and retrying keeps it |
| MovieDetails.ToggleKeepsConsistent | app/src/main/java/com/shenawynkov/movieapp/ui/details/MovieDetailViewModel.kt:226-238 | a toggle keeps the sections consistent |
| MovieDetails.ToggleTwiceRestores | app/src/main/java/com/shenawynkov/movieapp/ui/details/MovieDetailViewModel.kt:226-238 | toggling on and back restores the screen |
| MovieDetails.RetryDetailsAfterFetchAll | app/src/main/java/com/shenawynkov/movieapp/ui/details/MovieDetailViewModel.kt:151-162 | retrying the details after a fetch equals fetching with the new details |
| MovieDetails.RetrySimilarAfterFetchAll | app/src/main/java/com/shenawynkov/movieapp/ui/details/MovieDetailViewModel.kt:163-221 | retrying the similar movies after a fetch equals fetching with the new similar movies and credits, the same credits request included |
| MovieDetails.RepositoryFetched | app/src/main/java/com/shenawynkov/movieapp/domain/usecase/GetCreditsForSimilarMoviesUseCase.kt:14-41 | the real use cases' answers for a movie over one remote data source and watchlist |
| MovieDetails.FetchAllFromRepository | app/src/main/java/com/shenawynkov/movieapp/ui/details/MovieDetailViewModel.kt:70-114 | over the real use cases the screen shows at most five similar movies, at most five actors and five directors of their role, most popular first, and the movie's watchlist flag as stored |
| MovieDetails.MovieDetailViewModel.constructor | app/src/main/java/com/shenawynkov/movieapp/ui/details/MovieDetailViewModel.kt:55-68 | starts with every section loading, the first step of the fetch it launches |
| MovieDetails.MovieDetailViewModel.ShowSimilarAndCredits | app/src/main/java/com/shenawynkov/movieapp/ui/details/MovieDetailViewModel.kt:87-142 | the cell-by-cell updates of the similar-movies branch, as SimilarAndCredits |
| MovieDetails.MovieDetailViewModel.FetchAllMovieInfo | app/src/main/java/com/shenawynkov/movieapp/ui/details/MovieDetailViewModel.kt:59-146 | the cell-by-cell updates of fetchAllMovieInfo, as FetchAll, leaving the sections consistent |
| MovieDetails.MovieDetailViewModel.RetrySection | app/src/main/java/com/shenawynkov/movieapp/ui/details/MovieDetailViewModel.kt:148-224 | retrySection, as Retry, keeping the sections consistent |
| MovieDetails.MovieDetailViewModel.ToggleWatchlistStatus | app/src/main/java/com/shenawynkov/movieapp/ui/details/MovieDetailViewModel.kt:226-238 | with the details shown the watchlist is toggled and the new flag shown as DetailToggled; otherwise neither the watchlist nor the screen changes |

## Left out

- The Compose screens, navigation, theming and dependency injection are rendering and wiring. The load-more trigger of the list screen is one of these.
- The profile URL the detail screen builds by prefixing the already complete `profileImageUrl` a second time is a defect of the UI layer. It is not modelled.
- Room, Retrofit, OkHttp and Gson are not modelled. The transport is a function from a request to what the call returns or throws. The database is its rows. Gson's error-body parse is a function from the body to its status message or a parse failure.
- `Log.w` and the 350 ms debounce delay are timing and logging. Only the `distinctUntilChanged` part of the debounced flow is modelled, in `OnDebounceElapsed`.
- Coroutine interleavings are left out. The list view model's split into start and completion lets completions arrive in any order, but the async fan-out of the credits aggregation is handled sequentially in submission order. A detail-screen `launch` block is one atomic transition, so its intermediate Loading states between awaits are not observable.
- `SimpleDateFormat` year extraction is the `yearOf` parameter of `YearLabeler`. The `unknown_year` text is a parameter as well.
- String resources are ids, not their texts. A user message is a resource id or a raw localized message, never looked-up text.
- Kotlin's Unicode `isBlank`, `trim` and `equals(ignoreCase)` are approximated with ASCII whitespace and ASCII case folding. String length is the number of characters, not UTF-16 units.
- `Double` vote averages and popularities are `real`s, used only as copied values and sort keys. Kotlin `Int` is unbounded here. The page increment of `loadNextPage` and the success count of the credits aggregation are the only arithmetic, and the model differs from Kotlin's wrap-around only past `Int.MAX_VALUE` pages or responses.
- The missing-`movieId` exception thrown from `savedStateHandle` is left out. The detail view model is constructed with its id.
- GetPopularMoviesUseCase.kt, GetMovieDetailUseCase.kt and GetSimilarMoviesUseCase.kt only forward to the repository, so the repository's operations stand in for them.
- Several files are superseded or inconsistent, and are not part of this model:
  - utils/network/NetworkUtils.kt uses error variants that do not exist.
  - MovieRepository.kt is a stale interface. It has no page parameters and no credits aggregation.
  - LocalDataSourceImpl.kt and LocalDataSource.kt duplicate the store and call a DAO query that does not exist.
  - utils/data/safeApiCall.kt is superseded by the classifying wrapper.
- MovieList.MovieListViewModel.ToggleWatchlistStatus and MovieDetails.MovieDetailViewModel.ToggleWatchlistStatus do not model the suspension between the toggle and the state update. In the model the update applies to the state at the time of the toggle.
