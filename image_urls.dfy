/** ui/common/utils/ImageUrlBuilder.kt: TMDB image URLs are the base URL, a size segment and
    the image path, and no path means no URL. */
module ImageUrls {
  import opened Wrappers

  const BASE_IMAGE_URL := "https://image.tmdb.org/t/p/"
  const POSTER_W342 := "w342"
  const POSTER_W500 := "w500"
  const PROFILE_W185 := "w185"

  function BuildUrl(path: Option<string>, size: string): (url: Option<string>)
    ensures url.Some? <==> path.Some?
    ensures url.Some? ==>
      && BASE_IMAGE_URL + size <= url.value
      && url.value[|BASE_IMAGE_URL + size|..] == path.value
  {
    match path
    case None => None
    case Some(p) =>
      var u := BASE_IMAGE_URL + size + p;
      assert u[|BASE_IMAGE_URL + size|..] == p;
      Some(u)
  }

  /** `buildPosterUrl`: the poster URL at `size` (w342 when not given). */
  function BuildPosterUrl(path: Option<string>, size: string := POSTER_W342): (url: Option<string>)
    ensures url == if path.Some? then Some(BASE_IMAGE_URL + size + path.value) else None
  {
    BuildUrl(path, size)
  }

  /** `buildProfileUrl`: the profile URL at `size` (w185 when not given). */
  function BuildProfileUrl(path: Option<string>, size: string := PROFILE_W185): (url: Option<string>)
    ensures url == if path.Some? then Some(BASE_IMAGE_URL + size + path.value) else None
  {
    BuildUrl(path, size)
  }

  /** At a given size, the URL determines the path: two different paths never share a URL. */
  lemma {:induction false} BuildUrlInjective(p1: Option<string>, p2: Option<string>, size: string)
    requires BuildUrl(p1, size) == BuildUrl(p2, size)
    ensures p1 == p2
  {
    if p1.Some? {
      assert p2.Some?;
      assert p1.value == BuildUrl(p1, size).value[|BASE_IMAGE_URL + size|..];
    }
  }

  /** Without a size argument, posters use w342 and profiles w185. */
  lemma DefaultSizes(path: Option<string>)
    requires path.Some?
    ensures BuildPosterUrl(path) == Some("https://image.tmdb.org/t/p/w342" + path.value)
    ensures BuildProfileUrl(path) == Some("https://image.tmdb.org/t/p/w185" + path.value)
  {
    assert BASE_IMAGE_URL + POSTER_W342 + path.value == "https://image.tmdb.org/t/p/w342" + path.value;
    assert BASE_IMAGE_URL + PROFILE_W185 + path.value == "https://image.tmdb.org/t/p/w185" + path.value;
  }
}
