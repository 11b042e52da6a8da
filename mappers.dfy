/** data/mappers/toDomain.kt: DTO to domain mapping. The watchlist lookup the movie mappers
    make through the local data source is given as the set of movie ids on the watchlist. */
module Mappers {
  import opened Wrappers
  import opened Dtos
  import opened Domain
  import Text
  import ImageUrls

  /** `MovieDto.toDomain`: a missing vote average reads as 0, and the watchlist flag is
      whether the movie's id is on the watchlist. */
  function MovieToDomain(dto: MovieDto, watchlist: set<int>): (m: Movie)
    ensures m.id == dto.id && m.title == dto.title && m.overview == dto.overview
    ensures m.posterPath == dto.posterPath && m.releaseDate == dto.releaseDate
    ensures dto.voteAverage.Some? ==> m.voteAverage == dto.voteAverage.value
    ensures dto.voteAverage.None? ==> m.voteAverage == 0.0
    ensures m.isInWatchlist <==> dto.id in watchlist
  {
    Movie(dto.id, dto.title, dto.overview, dto.posterPath, dto.releaseDate,
          dto.voteAverage.GetOr(0.0), dto.id in watchlist)
  }

  /** `map { it.toDomain(localDataSource) }` over a page of results. */
  function MoviesToDomain(dtos: seq<MovieDto>, watchlist: set<int>): (ms: seq<Movie>)
    ensures |ms| == |dtos|
    ensures forall i :: 0 <= i < |dtos| ==> ms[i] == MovieToDomain(dtos[i], watchlist)
  {
    seq(|dtos|, i requires 0 <= i < |dtos| => MovieToDomain(dtos[i], watchlist))
  }

  /** `genres?.mapNotNull { it.name }`: the genre names that are present, in order. */
  function GenreNames(genres: seq<GenreDto>): (names: seq<string>)
    ensures |names| <= |genres|
    ensures forall n :: n in names <==> exists g :: g in genres && g.name == Some(n)
  {
    if genres == [] then []
    else
      var rest := GenreNames(genres[1..]);
      assert forall g :: g in genres[1..] ==> g in genres;
      assert forall g :: g in genres ==> g == genres[0] || g in genres[1..];
      if genres[0].name.Some? then [genres[0].name.value] + rest else rest
  }

  lemma {:induction false} GenreNamesConcat(a: seq<GenreDto>, b: seq<GenreDto>)
    ensures GenreNames(a + b) == GenreNames(a) + GenreNames(b)
  {
    if a == [] {
      assert a + b == b;
    } else {
      assert (a + b)[0] == a[0];
      assert (a + b)[1..] == a[1..] + b;
      GenreNamesConcat(a[1..], b);
    }
  }

  /** `MovieDetailDto.toDomain`: absent revenue and vote count read as 0, absent genres as
      the empty list, and the watchlist flag is the id's membership. */
  function MovieDetailToDomain(dto: MovieDetailDto, watchlist: set<int>): (d: MovieDetail)
    ensures d.id == dto.id && d.title == dto.title && d.overview == dto.overview
    ensures d.posterPath == dto.posterPath && d.tagline == dto.tagline
    ensures d.releaseDate == dto.releaseDate && d.status == dto.status && d.runtimeMinutes == dto.runtime
    ensures d.revenue == (if dto.revenue.Some? then dto.revenue.value else 0)
    ensures d.voteAverage == (if dto.voteAverage.Some? then dto.voteAverage.value else 0.0)
    ensures d.voteCount == (if dto.voteCount.Some? then dto.voteCount.value else 0)
    ensures dto.genres.None? ==> d.genres == []
    ensures dto.genres.Some? ==> forall n :: n in d.genres <==> exists g :: g in dto.genres.value && g.name == Some(n)
    ensures dto.genres.Some? ==> d.genres == GenreNames(dto.genres.value)
    ensures d.isInWatchlist <==> dto.id in watchlist
  {
    MovieDetail(dto.id, dto.title, dto.overview, dto.posterPath, dto.tagline, dto.revenue.GetOr(0),
                dto.releaseDate, dto.status, dto.voteAverage.GetOr(0.0), dto.voteCount.GetOr(0),
                if dto.genres.Some? then GenreNames(dto.genres.value) else [],
                dto.runtime, dto.id in watchlist)
  }

  const PROFILE_URL_PREFIX := "https://image.tmdb.org/t/p/w500"

  /** The contributor image URL both contributor mappers write out by hand. */
  function ContributorImageUrl(profilePath: Option<string>): (url: Option<string>)
    ensures url.Some? <==> profilePath.Some?
  {
    if profilePath.Some? then Some(PROFILE_URL_PREFIX + profilePath.value) else None
  }

  /** The hand-written contributor URL is exactly the poster URL at size w500. */
  lemma ContributorImageUrlIsW500(profilePath: Option<string>)
    ensures ContributorImageUrl(profilePath) == ImageUrls.BuildPosterUrl(profilePath, ImageUrls.POSTER_W500)
  {
    if profilePath.Some? {
      assert ImageUrls.BASE_IMAGE_URL + ImageUrls.POSTER_W500 + profilePath.value
          == PROFILE_URL_PREFIX + profilePath.value;
    }
  }

  /** `CastMemberDto.toMovieContributor`: every cast member is an actor. */
  function CastToContributor(c: CastMemberDto): (m: MovieContributor)
    ensures m.role == ACTOR
    ensures m.id == c.id && m.name == c.name && m.popularity == c.popularity
    ensures m.profileImageUrl == ImageUrls.BuildPosterUrl(c.profilePath, ImageUrls.POSTER_W500)
  {
    ContributorImageUrlIsW500(c.profilePath);
    MovieContributor(c.id, c.name, ContributorImageUrl(c.profilePath), c.popularity, ACTOR)
  }

  /** A directing credit: department exactly "Directing" and job "Director" up to case. */
  predicate IsDirectingCredit(c: CrewMemberDto) {
    c.department == Some("Directing") && c.job.Some? && Text.EqualsIgnoreCase(c.job.value, "Director")
  }

  /** `CrewMemberDto.toMovieContributor`: a director exactly for a directing credit, otherwise
      `OTHER`; a crew member never becomes an actor. */
  function CrewToContributor(c: CrewMemberDto): (m: MovieContributor)
    ensures m.role == DIRECTOR <==> IsDirectingCredit(c)
    ensures m.role == OTHER <==> !IsDirectingCredit(c)
    ensures m.id == c.id && m.name == c.name && m.popularity == c.popularity
    ensures m.profileImageUrl == ImageUrls.BuildPosterUrl(c.profilePath, ImageUrls.POSTER_W500)
  {
    ContributorImageUrlIsW500(c.profilePath);
    MovieContributor(c.id, c.name, ContributorImageUrl(c.profilePath), c.popularity,
                     if IsDirectingCredit(c) then DIRECTOR else OTHER)
  }

  /** The job comparison ignores case but the department comparison does not. */
  lemma DirectorClassificationExamples(id: int, name: string, path: Option<string>, pop: real)
    ensures CrewToContributor(CrewMemberDto(id, name, Some("director"), Some("Directing"), path, pop)).role == DIRECTOR
    ensures CrewToContributor(CrewMemberDto(id, name, Some("DIRECTOR"), Some("Directing"), path, pop)).role == DIRECTOR
    ensures CrewToContributor(CrewMemberDto(id, name, Some("Director"), Some("directing"), path, pop)).role == OTHER
    ensures CrewToContributor(CrewMemberDto(id, name, Some("Producer"), Some("Directing"), path, pop)).role == OTHER
    ensures CrewToContributor(CrewMemberDto(id, name, None, Some("Directing"), path, pop)).role == OTHER
  {
    assert Text.EqualsIgnoreCase("director", "Director");
    assert Text.EqualsIgnoreCase("DIRECTOR", "Director");
    assert "Producer"[0] != "Director"[0];
    assert !Text.EqualsIgnoreCase("Producer", "Director") by {
      assert Text.ToLower("Producer"[0]) != Text.ToLower("Director"[0]);
    }
    assert "directing" != "Directing" by { assert "directing"[0] != "Directing"[0]; }
  }
}
