/** The TMDB response bodies as Gson fills them (data/remote/dto). Nullable JSON fields are
    `Option`s; `Double` fields are reals. */
module Dtos {
  import opened Wrappers

  datatype MovieDto = MovieDto(
    id: int,
    title: string,
    overview: Option<string>,
    posterPath: Option<string>,
    releaseDate: Option<string>,
    voteAverage: Option<real>,
    genreIds: Option<seq<int>>,
    popularity: Option<real>)

  datatype MoviesListResponse = MoviesListResponse(page: int, results: seq<MovieDto>)

  datatype GenreDto = GenreDto(id: Option<int>, name: Option<string>)

  datatype MovieDetailDto = MovieDetailDto(
    id: int,
    title: string,
    overview: Option<string>,
    posterPath: Option<string>,
    tagline: Option<string>,
    revenue: Option<int>,
    releaseDate: Option<string>,
    status: Option<string>,
    voteAverage: Option<real>,
    voteCount: Option<int>,
    genres: Option<seq<GenreDto>>,
    runtime: Option<int>)

  datatype CastMemberDto = CastMemberDto(
    id: int,
    name: string,
    profilePath: Option<string>,
    popularity: real,
    knownForDepartment: Option<string>)

  datatype CrewMemberDto = CrewMemberDto(
    id: int,
    name: string,
    job: Option<string>,
    department: Option<string>,
    profilePath: Option<string>,
    popularity: real)

  datatype MovieCreditsDto = MovieCreditsDto(cast: seq<CastMemberDto>, crew: seq<CrewMemberDto>)
}
