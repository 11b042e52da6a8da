/** The domain model (domain/model). `Movie` and `MovieDetail` carry the fields the mappers
    in data/mappers/toDomain.kt fill in. */
module Domain {
  import opened Wrappers

  datatype Movie = Movie(
    id: int,
    title: string,
    overview: Option<string>,
    posterPath: Option<string>,
    releaseDate: Option<string>,
    voteAverage: real,
    isInWatchlist: bool)

  datatype MovieDetail = MovieDetail(
    id: int,
    title: string,
    overview: Option<string>,
    posterPath: Option<string>,
    tagline: Option<string>,
    revenue: int,
    releaseDate: Option<string>,
    status: Option<string>,
    voteAverage: real,
    voteCount: int,
    genres: seq<string>,
    runtimeMinutes: Option<int>,
    isInWatchlist: bool)

  datatype Role = ACTOR | DIRECTOR | OTHER

  datatype MovieContributor = MovieContributor(
    id: int,
    name: string,
    profileImageUrl: Option<string>,
    popularity: real,
    role: Role)

  datatype GroupedMovieContributors = GroupedMovieContributors(
    actors: seq<MovieContributor>,
    directors: seq<MovieContributor>)

  datatype MoviesByYear = MoviesByYear(year: string, movies: seq<Movie>)

  /** `flatMap { it.movies }`: the movies of all groups, group by group. */
  function Flatten(groups: seq<MoviesByYear>): (ms: seq<Movie>)
    ensures |groups| == 0 ==> ms == []
  {
    if groups == [] then [] else groups[0].movies + Flatten(groups[1..])
  }
}
