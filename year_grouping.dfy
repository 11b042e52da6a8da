/** `groupMoviesByYear` of ui/movielist/MovieListViewModel.kt: the movie list shown by year of
    release. Movies are de-duplicated by id (first occurrence kept), grouped by year label in
    the order labels first occur, each group sorted by release date, newest first, and the
    groups sorted by label, greatest first. */
module YearGrouping {
  import opened Wrappers
  import opened Domain
  import opened Sorting
  import Text

  /** How a release date becomes a year label: `yearOf` stands for parsing `yyyy-MM-dd` with
      a `SimpleDateFormat` and reading the calendar year (nothing when parsing fails), and
      `unknownYear` is the text of the `unknown_year` string resource. */
  datatype YearLabeler = YearLabeler(unknownYear: string, yearOf: string -> Option<int>)

  /** The year label of a release date: its year, or the unknown-year text when the date is
      missing, blank or unparsable (`getYearFromDate` with its fallback). */
  function YearLabel(releaseDate: Option<string>, labeler: YearLabeler): string {
    if releaseDate.None? || Text.IsBlank(releaseDate.value) then labeler.unknownYear
    else match labeler.yearOf(releaseDate.value)
      case Some(year) => Text.IntToString(year)
      case None => labeler.unknownYear
  }

  /** A label is the unknown-year text, or the decimal year of a non-blank release date, and
      then the year can be read back from it. */
  lemma YearLabelSpec(releaseDate: Option<string>, labeler: YearLabeler)
    ensures var yearLabel := YearLabel(releaseDate, labeler);
      || (yearLabel == labeler.unknownYear
          && (releaseDate.None? || Text.IsBlank(releaseDate.value) || labeler.yearOf(releaseDate.value).None?))
      || (&& releaseDate.Some? && !Text.IsBlank(releaseDate.value)
          && labeler.yearOf(releaseDate.value).Some?
          && yearLabel == Text.IntToString(labeler.yearOf(releaseDate.value).value)
          && Text.ParseInt(yearLabel) == labeler.yearOf(releaseDate.value).value)
  {
    if releaseDate.Some? && !Text.IsBlank(releaseDate.value) && labeler.yearOf(releaseDate.value).Some? {
      Text.IntToStringRoundTrip(labeler.yearOf(releaseDate.value).value);
    }
  }

  function Label(labeler: YearLabeler, m: Movie): string {
    YearLabel(m.releaseDate, labeler)
  }

  function MovieId(m: Movie): int {
    m.id
  }

  function YearOf(g: MoviesByYear): string {
    g.year
  }

  /** The order of `sortedByDescending { movie -> movie.releaseDate }`; a missing date is the least. */
  function ReleaseDateLe(a: Movie, b: Movie): bool {
    Text.OptStrLe(a.releaseDate, b.releaseDate)
  }

  /** The order of `sortedByDescending { it.year }`. */
  function YearLe(a: MoviesByYear, b: MoviesByYear): bool {
    Text.StrLe(a.year, b.year)
  }

  /** Kotlin's `compareTo` on nullable strings orders null below every string, so a movie
      without a release date ranks lowest and comes last in a newest-first sort. */
  lemma ReleaseDateLeIsTotalPreorder()
    ensures TotalPreorder(ReleaseDateLe)
    ensures forall a: Movie, b: Movie :: a.releaseDate.None? ==> ReleaseDateLe(a, b)
    ensures forall a: Movie, b: Movie :: a.releaseDate.Some? && b.releaseDate.None? ==> !ReleaseDateLe(a, b)
  {
    forall a: Movie, b: Movie ensures ReleaseDateLe(a, b) || ReleaseDateLe(b, a) {
      if a.releaseDate.Some? && b.releaseDate.Some? {
        Text.StrLeTotal(a.releaseDate.value, b.releaseDate.value);
      }
    }
    forall a: Movie, b: Movie, c: Movie | ReleaseDateLe(a, b) && ReleaseDateLe(b, c) ensures ReleaseDateLe(a, c) {
      if a.releaseDate.Some? {
        Text.StrLeTransitive(a.releaseDate.value, b.releaseDate.value, c.releaseDate.value);
      }
    }
  }

  lemma YearLeIsTotalPreorder()
    ensures TotalPreorder(YearLe)
  {
    forall a: MoviesByYear, b: MoviesByYear ensures YearLe(a, b) || YearLe(b, a) {
      Text.StrLeTotal(a.year, b.year);
    }
    forall a: MoviesByYear, b: MoviesByYear, c: MoviesByYear | YearLe(a, b) && YearLe(b, c) ensures YearLe(a, c) {
      Text.StrLeTransitive(a.year, b.year, c.year);
    }
  }

  // ---- distinctBy { it.id } --------------------------------------------------------------

  function IdsOf(ms: seq<Movie>): set<int> {
    set m | m in ms :: m.id
  }

  function DistinctById(ms: seq<Movie>): seq<Movie> {
    if ms == [] then []
    else
      var prev := DistinctById(ms[..|ms| - 1]);
      var m := ms[|ms| - 1];
      if m.id in IdsOf(prev) then prev else prev + [m]
  }

  lemma IdsOfAppend(p: seq<Movie>, m: Movie)
    ensures IdsOf(p + [m]) == IdsOf(p) + {m.id}
  {
    assert forall x :: x in p + [m] <==> x in p || x == m;
  }

  lemma {:induction false} DistinctByIdFrom(ms: seq<Movie>)
    ensures forall x :: x in DistinctById(ms) ==> x in ms
  {
    if ms != [] {
      DistinctByIdFrom(ms[..|ms| - 1]);
      assert ms == ms[..|ms| - 1] + [ms[|ms| - 1]];
    }
  }

  lemma {:induction false} DistinctByIdIds(ms: seq<Movie>)
    ensures IdsOf(DistinctById(ms)) == IdsOf(ms)
  {
    if ms != [] {
      var p := ms[..|ms| - 1];
      var m := ms[|ms| - 1];
      DistinctByIdIds(p);
      assert ms == p + [m];
      IdsOfAppend(p, m);
      IdsOfAppend(DistinctById(p), m);
    }
  }

  lemma {:induction false} DistinctByIdKeys(ms: seq<Movie>)
    ensures KeysDistinct(DistinctById(ms), MovieId)
  {
    if ms != [] {
      var p := ms[..|ms| - 1];
      var m := ms[|ms| - 1];
      var prev := DistinctById(p);
      var d := DistinctById(ms);
      DistinctByIdKeys(p);
      if m.id !in IdsOf(prev) {
        forall i, j | 0 <= i < j < |d| ensures d[i].id != d[j].id {
          if j == |prev| {
            assert d[i] == prev[i];
            assert prev[i] in prev;
          } else {
            assert d[i] == prev[i] && d[j] == prev[j];
          }
        }
      }
    }
  }

  /** A movie none of whose predecessors has its id is kept. */
  lemma {:induction false} DistinctByIdFirst(ms: seq<Movie>)
    ensures forall i :: 0 <= i < |ms| && (forall j :: 0 <= j < i ==> ms[j].id != ms[i].id) ==>
      ms[i] in DistinctById(ms)
  {
    if ms != [] {
      var p := ms[..|ms| - 1];
      var m := ms[|ms| - 1];
      var d := DistinctById(ms);
      DistinctByIdFirst(p);
      forall i | 0 <= i < |ms| && (forall j :: 0 <= j < i ==> ms[j].id != ms[i].id) ensures ms[i] in d {
        if i < |ms| - 1 {
          assert p[i] == ms[i];
          assert forall j :: 0 <= j < i ==> p[j].id != p[i].id;
          assert ms[i] in DistinctById(p);
        } else {
          DistinctByIdIds(p);
          assert m.id !in IdsOf(p) by {
            forall x | x in p ensures x.id != m.id {
              var j :| 0 <= j < |p| && p[j] == x;
              assert ms[j] == x;
            }
          }
        }
      }
    }
  }

  /** `distinctBy { it.id }` keeps, of each id, exactly the first movie with that id. */
  lemma DistinctByIdSpec(ms: seq<Movie>)
    ensures var d := DistinctById(ms);
      && KeysDistinct(d, MovieId)
      && (forall x :: x in d ==> x in ms)
      && IdsOf(d) == IdsOf(ms)
      && (forall i :: 0 <= i < |ms| && (forall j :: 0 <= j < i ==> ms[j].id != ms[i].id) ==> ms[i] in d)
  {
    DistinctByIdKeys(ms);
    DistinctByIdFrom(ms);
    DistinctByIdIds(ms);
    DistinctByIdFirst(ms);
  }

  /** A list without repeated ids is left as it is. */
  lemma {:induction false} DistinctByIdOfDistinct(ms: seq<Movie>)
    requires KeysDistinct(ms, MovieId)
    ensures DistinctById(ms) == ms
  {
    if ms != [] {
      var p := ms[..|ms| - 1];
      var m := ms[|ms| - 1];
      assert KeysDistinct(p, MovieId);
      DistinctByIdOfDistinct(p);
      assert m.id !in IdsOf(p) by {
        forall x | x in p ensures x.id != m.id {
          var j :| 0 <= j < |p| && p[j] == x;
          assert ms[j] == x;
        }
      }
      assert ms == p + [m];
    }
  }

  // ---- groupBy { label } ------------------------------------------------------------------

  /** The position of the group with this label, as the insertion-ordered map finds it; -1 if none. */
  function GroupIndex(gs: seq<MoviesByYear>, key: string): (i: int)
    ensures -1 <= i < |gs|
    ensures i >= 0 ==> gs[i].year == key && forall j :: 0 <= j < i ==> gs[j].year != key
    ensures i < 0 ==> forall j :: 0 <= j < |gs| ==> gs[j].year != key
  {
    if gs == [] then -1
    else if gs[0].year == key then 0
    else
      var r := GroupIndex(gs[1..], key);
      if r < 0 then -1 else r + 1
  }

  /** `getOrPut(key) { ArrayList() }.add(m)`. */
  function AddToGroups(gs: seq<MoviesByYear>, m: Movie, key: string): seq<MoviesByYear> {
    var i := GroupIndex(gs, key);
    if i < 0 then gs + [MoviesByYear(key, [m])]
    else gs[i := MoviesByYear(key, gs[i].movies + [m])]
  }

  /** The groups after adding the movies of `ms` in order to `acc`. */
  function GroupInto(acc: seq<MoviesByYear>, ms: seq<Movie>, labelOf: Movie -> string): seq<MoviesByYear> {
    if ms == [] then acc
    else
      var m := ms[|ms| - 1];
      AddToGroups(GroupInto(acc, ms[..|ms| - 1], labelOf), m, labelOf(m))
  }

  function GroupBy(ms: seq<Movie>, labelOf: Movie -> string): seq<MoviesByYear> {
    GroupInto([], ms, labelOf)
  }

  /** The year label of a movie, as a function value. */
  function LabelOf(labeler: YearLabeler): Movie -> string {
    m => Label(labeler, m)
  }

  /** A group that is not empty and holds only movies of its own label. */
  ghost predicate GoodGroup(g: MoviesByYear, labelOf: Movie -> string) {
    && g.movies != []
    && forall m :: m in g.movies ==> labelOf(m) == g.year
  }

  /** Every group is good and no label occurs twice. */
  ghost predicate WellGrouped(gs: seq<MoviesByYear>, labelOf: Movie -> string) {
    && (forall i :: 0 <= i < |gs| ==> GoodGroup(gs[i], labelOf))
    && KeysDistinct(gs, YearOf)
  }

  lemma {:induction false} FlattenConcat(a: seq<MoviesByYear>, b: seq<MoviesByYear>)
    ensures Flatten(a + b) == Flatten(a) + Flatten(b)
  {
    if a == [] {
      assert a + b == b;
    } else {
      assert (a + b)[1..] == a[1..] + b;
      FlattenConcat(a[1..], b);
    }
  }

  /** Appending a movie to one group adds exactly that movie to the concatenation. */
  lemma FlattenAppendToGroup(gs: seq<MoviesByYear>, i: nat, m: Movie)
    requires i < |gs|
    ensures multiset(Flatten(gs[i := MoviesByYear(gs[i].year, gs[i].movies + [m])])) == multiset(Flatten(gs)) + multiset{m}
  {
    var g := MoviesByYear(gs[i].year, gs[i].movies + [m]);
    var pre := gs[..i];
    var post := gs[i + 1..];
    assert gs == pre + ([gs[i]] + post);
    assert gs[i := g] == pre + ([g] + post);
    FlattenConcat(pre, [gs[i]] + post);
    FlattenConcat(pre, [g] + post);
    FlattenConcat([gs[i]], post);
    FlattenConcat([g], post);
    assert Flatten([g]) == g.movies;
    assert Flatten([gs[i]]) == gs[i].movies;
  }

  lemma AddToGroupsFlatten(gs: seq<MoviesByYear>, m: Movie, key: string)
    ensures multiset(Flatten(AddToGroups(gs, m, key))) == multiset(Flatten(gs)) + multiset{m}
  {
    var i := GroupIndex(gs, key);
    if i < 0 {
      FlattenConcat(gs, [MoviesByYear(key, [m])]);
      assert Flatten([MoviesByYear(key, [m])]) == [m];
    } else {
      FlattenAppendToGroup(gs, i, m);
    }
  }

  lemma AddToGroupsWellGrouped(gs: seq<MoviesByYear>, m: Movie, labelOf: Movie -> string)
    requires WellGrouped(gs, labelOf)
    ensures WellGrouped(AddToGroups(gs, m, labelOf(m)), labelOf)
  {
    var key := labelOf(m);
    var i := GroupIndex(gs, key);
    var r := AddToGroups(gs, m, key);
    if i < 0 {
      forall j | 0 <= j < |r| ensures GoodGroup(r[j], labelOf) {
        if j < |gs| {
          assert r[j] == gs[j];
        }
      }
      forall j, k | 0 <= j < k < |r| ensures YearOf(r[j]) != YearOf(r[k]) {
        if k < |gs| {
          assert r[j] == gs[j] && r[k] == gs[k];
        }
      }
    } else {
      var g := MoviesByYear(key, gs[i].movies + [m]);
      assert GoodGroup(g, labelOf) by {
        assert GoodGroup(gs[i], labelOf);
        assert forall x :: x in g.movies ==> x in gs[i].movies || x == m;
      }
      forall j, k | 0 <= j < k < |r| ensures YearOf(r[j]) != YearOf(r[k]) {
        assert YearOf(r[j]) == YearOf(gs[j]) && YearOf(r[k]) == YearOf(gs[k]);
      }
    }
  }

  lemma {:induction false} GroupIntoWellGrouped(acc: seq<MoviesByYear>, ms: seq<Movie>, labelOf: Movie -> string)
    requires WellGrouped(acc, labelOf)
    ensures WellGrouped(GroupInto(acc, ms, labelOf), labelOf)
  {
    if ms != [] {
      var p := ms[..|ms| - 1];
      var m := ms[|ms| - 1];
      var prev := GroupInto(acc, p, labelOf);
      GroupIntoWellGrouped(acc, p, labelOf);
      assert GroupInto(acc, ms, labelOf) == AddToGroups(prev, m, labelOf(m));
      AddToGroupsWellGrouped(prev, m, labelOf);
    }
  }

  /** One more movie added to the groups adds it to their contents. */
  lemma GroupStepFlatten(prev: seq<MoviesByYear>, next: seq<MoviesByYear>, m: Movie, key: string,
                         base: multiset<Movie>, p: seq<Movie>)
    requires next == AddToGroups(prev, m, key)
    requires multiset(Flatten(prev)) == base + multiset(p)
    ensures multiset(Flatten(next)) == base + multiset(p + [m])
  {
    AddToGroupsFlatten(prev, m, key);
    assert multiset(p + [m]) == multiset(p) + multiset{m};
  }

  lemma {:induction false} GroupIntoFlatten(acc: seq<MoviesByYear>, ms: seq<Movie>, labelOf: Movie -> string)
    ensures multiset(Flatten(GroupInto(acc, ms, labelOf))) == multiset(Flatten(acc)) + multiset(ms)
  {
    if ms != [] {
      var p := ms[..|ms| - 1];
      var m := ms[|ms| - 1];
      GroupIntoFlatten(acc, p, labelOf);
      GroupStepFlatten(GroupInto(acc, p, labelOf), GroupInto(acc, ms, labelOf), m, labelOf(m), multiset(Flatten(acc)), p);
      assert ms == p + [m];
    }
  }

  lemma {:induction false} GroupIntoConcat(acc: seq<MoviesByYear>, a: seq<Movie>, b: seq<Movie>, labelOf: Movie -> string)
    ensures GroupInto(acc, a + b, labelOf) == GroupInto(GroupInto(acc, a, labelOf), b, labelOf)
  {
    if b == [] {
      assert a + b == a;
    } else {
      var b' := b[..|b| - 1];
      assert (a + b)[..|a + b| - 1] == a + b';
      assert (a + b)[|a + b| - 1] == b[|b| - 1];
      GroupIntoConcat(acc, a, b', labelOf);
    }
  }

  lemma GroupIndexOfLast(acc: seq<MoviesByYear>, g: MoviesByYear)
    requires forall j :: 0 <= j < |acc| ==> acc[j].year != g.year
    ensures GroupIndex(acc + [g], g.year) == |acc|
  {
    var gs := acc + [g];
    assert gs[|acc|].year == g.year;
  }

  /** Movies of one new label, added in order, form one new group at the end. */
  lemma {:induction false} GroupIntoOneLabel(acc: seq<MoviesByYear>, b: seq<Movie>, key: string, labelOf: Movie -> string)
    requires b != []
    requires forall m :: m in b ==> labelOf(m) == key
    requires forall j :: 0 <= j < |acc| ==> acc[j].year != key
    ensures GroupInto(acc, b, labelOf) == acc + [MoviesByYear(key, b)]
  {
    var b' := b[..|b| - 1];
    var m := b[|b| - 1];
    assert m in b;
    if b' == [] {
      assert b == [m];
      assert GroupInto(acc, b', labelOf) == acc;
      assert GroupIndex(acc, key) < 0;
    } else {
      assert forall x :: x in b' ==> x in b;
      GroupIntoOneLabel(acc, b', key, labelOf);
      GroupIndexOfLast(acc, MoviesByYear(key, b'));
      assert (acc + [MoviesByYear(key, b')])[|acc| := MoviesByYear(key, b' + [m])] == acc + [MoviesByYear(key, b' + [m])];
      assert b' + [m] == b;
    }
  }

  /** Grouping the concatenation of well-formed groups gives those groups back. */
  lemma {:induction false} GroupByOfWellGrouped(gs: seq<MoviesByYear>, labelOf: Movie -> string)
    requires WellGrouped(gs, labelOf)
    ensures GroupBy(Flatten(gs), labelOf) == gs
  {
    if gs != [] {
      var n := |gs|;
      var front := gs[..n - 1];
      var last := gs[n - 1];
      assert gs == front + [last];
      assert WellGrouped(front, labelOf) by {
        forall j | 0 <= j < |front| ensures GoodGroup(front[j], labelOf) {
          assert front[j] == gs[j];
        }
      }
      GroupByOfWellGrouped(front, labelOf);
      FlattenConcat(front, [last]);
      assert Flatten([last]) == last.movies;
      GroupIntoConcat([], Flatten(front), last.movies, labelOf);
      assert forall j :: 0 <= j < |front| ==> front[j].year != last.year by {
        forall j | 0 <= j < |front| ensures front[j].year != last.year {
          assert YearOf(gs[j]) != YearOf(gs[n - 1]);
        }
      }
      assert GoodGroup(last, labelOf);
      GroupIntoOneLabel(front, last.movies, last.year, labelOf);
    }
  }

  // ---- per-group sort, then sort of the groups -------------------------------------------

  function SortGroup(g: MoviesByYear): MoviesByYear {
    MoviesByYear(g.year, SortDesc(g.movies, ReleaseDateLe))
  }

  /** Each group keeps its label and has its movies sorted newest release date first (the
      `map` over the year groups). */
  function SortGroups(gs: seq<MoviesByYear>): (r: seq<MoviesByYear>)
    ensures |r| == |gs|
    ensures forall i :: 0 <= i < |gs| ==> r[i] == SortGroup(gs[i])
  {
    if gs == [] then [] else [SortGroup(gs[0])] + SortGroups(gs[1..])
  }

  /** Sorting a group keeps its label and its movies, and the result is newest first. */
  lemma SortGroupFacts(g: MoviesByYear, labelOf: Movie -> string)
    requires GoodGroup(g, labelOf)
    ensures GoodGroup(SortGroup(g), labelOf)
    ensures SortedDesc(SortGroup(g).movies, ReleaseDateLe)
    ensures multiset(SortGroup(g).movies) == multiset(g.movies)
  {
    ReleaseDateLeIsTotalPreorder();
    SortDescSorted(g.movies, ReleaseDateLe);
    var s := SortGroup(g).movies;
    assert |s| == |g.movies|;
    forall m | m in s ensures labelOf(m) == g.year {
      assert m in multiset(s);
    }
  }

  lemma {:induction false} SortGroupsFlatten(gs: seq<MoviesByYear>)
    ensures multiset(Flatten(SortGroups(gs))) == multiset(Flatten(gs))
  {
    if gs != [] {
      ReleaseDateLeIsTotalPreorder();
      SortDescSorted(gs[0].movies, ReleaseDateLe);
      SortGroupsFlatten(gs[1..]);
      assert SortGroups(gs)[1..] == SortGroups(gs[1..]);
    }
  }

  lemma SortGroupsGood(gs: seq<MoviesByYear>, labelOf: Movie -> string)
    requires forall i :: 0 <= i < |gs| ==> GoodGroup(gs[i], labelOf)
    ensures forall i :: 0 <= i < |gs| ==> GoodGroup(SortGroups(gs)[i], labelOf)
    ensures forall i :: 0 <= i < |gs| ==> SortedDesc(SortGroups(gs)[i].movies, ReleaseDateLe)
  {
    forall i | 0 <= i < |gs| ensures GoodGroup(SortGroups(gs)[i], labelOf) && SortedDesc(SortGroups(gs)[i].movies, ReleaseDateLe) {
      SortGroupFacts(gs[i], labelOf);
    }
  }

  lemma SortGroupsKeys(gs: seq<MoviesByYear>)
    requires KeysDistinct(gs, YearOf)
    ensures KeysDistinct(SortGroups(gs), YearOf)
  {
    var r := SortGroups(gs);
    forall i, j | 0 <= i < j < |r| ensures YearOf(r[i]) != YearOf(r[j]) {
      assert YearOf(r[i]) == YearOf(gs[i]) && YearOf(r[j]) == YearOf(gs[j]);
    }
  }

  /** Every group is sorted newest first. */
  ghost predicate NewestFirst(gs: seq<MoviesByYear>) {
    forall i :: 0 <= i < |gs| ==> SortedDesc(gs[i].movies, ReleaseDateLe)
  }

  lemma SortGroupsFacts(gs: seq<MoviesByYear>, labelOf: Movie -> string)
    requires WellGrouped(gs, labelOf)
    ensures WellGrouped(SortGroups(gs), labelOf)
    ensures multiset(Flatten(SortGroups(gs))) == multiset(Flatten(gs))
    ensures NewestFirst(SortGroups(gs))
  {
    SortGroupsGood(gs, labelOf);
    SortGroupsKeys(gs);
    SortGroupsFlatten(gs);
  }

  lemma {:induction false} FlattenInsert(x: MoviesByYear, t: seq<MoviesByYear>)
    ensures multiset(Flatten(Insert(x, t, YearLe))) == multiset(x.movies) + multiset(Flatten(t))
  {
    if t != [] && !YearLe(t[0], x) {
      FlattenInsert(x, t[1..]);
    }
  }

  lemma {:induction false} FlattenSortDesc(gs: seq<MoviesByYear>)
    ensures multiset(Flatten(SortDesc(gs, YearLe))) == multiset(Flatten(gs))
  {
    if gs != [] {
      FlattenSortDesc(gs[1..]);
      FlattenInsert(gs[0], SortDesc(gs[1..], YearLe));
    }
  }

  /** Sorting the groups keeps every group as it is, so the grouping stays well formed. */
  lemma SortedGroupsFacts(gs: seq<MoviesByYear>, labelOf: Movie -> string)
    requires WellGrouped(gs, labelOf)
    ensures var r := SortDesc(gs, YearLe);
      && WellGrouped(r, labelOf)
      && SortedDesc(r, YearLe)
      && multiset(Flatten(r)) == multiset(Flatten(gs))
      && (forall i :: 0 <= i < |r| ==> r[i] in gs)
      && (NewestFirst(gs) ==> NewestFirst(r))
  {
    var r := SortDesc(gs, YearLe);
    YearLeIsTotalPreorder();
    SortDescSorted(gs, YearLe);
    FlattenSortDesc(gs);
    PermutationKeysDistinct(gs, r, YearOf);
    forall i | 0 <= i < |r| ensures r[i] in gs && GoodGroup(r[i], labelOf)
      && (NewestFirst(gs) ==> SortedDesc(r[i].movies, ReleaseDateLe))
    {
      assert r[i] in multiset(gs);
      var k :| 0 <= k < |gs| && gs[k] == r[i];
    }
  }

  // ---- the whole pipeline ----------------------------------------------------------------

  function GroupMoviesByYear(movies: seq<Movie>, labeler: YearLabeler): seq<MoviesByYear> {
    SortDesc(SortGroups(GroupBy(DistinctById(movies), LabelOf(labeler))), YearLe)
  }

  lemma IdsOfPermutation(a: seq<Movie>, b: seq<Movie>)
    requires multiset(a) == multiset(b)
    ensures IdsOf(a) == IdsOf(b)
    ensures forall x :: x in a <==> x in b
  {
    assert forall x :: x in a <==> x in multiset(a);
    assert forall x :: x in b <==> x in multiset(b);
  }

  /** Grouping and sorting each group: well formed, the same movies, each group newest first. */
  lemma SortedGroupingFacts(d: seq<Movie>, labelOf: Movie -> string)
    ensures var sorted := SortGroups(GroupBy(d, labelOf));
      && WellGrouped(sorted, labelOf)
      && multiset(Flatten(sorted)) == multiset(d)
      && NewestFirst(sorted)
  {
    var grouped := GroupBy(d, labelOf);
    GroupIntoWellGrouped([], d, labelOf);
    GroupIntoFlatten([], d, labelOf);
    assert Flatten([]) == [];
    SortGroupsFacts(grouped, labelOf);
  }

  lemma PipelineFacts(movies: seq<Movie>, labeler: YearLabeler)
    ensures var g := GroupMoviesByYear(movies, labeler);
      && WellGrouped(g, LabelOf(labeler))
      && SortedDesc(g, YearLe)
      && multiset(Flatten(g)) == multiset(DistinctById(movies))
      && NewestFirst(g)
  {
    var d := DistinctById(movies);
    var sorted := SortGroups(GroupBy(d, LabelOf(labeler)));
    var g := SortDesc(sorted, YearLe);
    SortedGroupingFacts(d, LabelOf(labeler));
    SortedGroupsFacts(sorted, LabelOf(labeler));
  }

  /** What the displayed list holds: each id once, as the first movie of the input with that
      id, and every id of the input. */
  lemma GroupedMovies(movies: seq<Movie>, labeler: YearLabeler)
    ensures var shown := Flatten(GroupMoviesByYear(movies, labeler));
      && KeysDistinct(shown, MovieId)
      && IdsOf(shown) == IdsOf(movies)
      && (forall x :: x in shown ==> x in movies)
      && (forall i :: 0 <= i < |movies| && (forall j :: 0 <= j < i ==> movies[j].id != movies[i].id) ==>
            movies[i] in shown)
  {
    var d := DistinctById(movies);
    var shown := Flatten(GroupMoviesByYear(movies, labeler));
    DistinctByIdSpec(movies);
    PipelineFacts(movies, labeler);
    IdsOfPermutation(d, shown);
    PermutationKeysDistinct(d, shown, MovieId);
  }

  /** What the screen shows: well-formed groups in label order, each newest first, and no
      movie id twice across the whole list. */
  ghost predicate Displayable(gs: seq<MoviesByYear>, labeler: YearLabeler) {
    && WellGrouped(gs, LabelOf(labeler))
    && KeysDistinct(Flatten(gs), MovieId)
    && SortedDesc(gs, YearLe)
    && NewestFirst(gs)
  }

  lemma GroupingDisplayable(movies: seq<Movie>, labeler: YearLabeler)
    ensures Displayable(GroupMoviesByYear(movies, labeler), labeler)
  {
    GroupedMovies(movies, labeler);
    PipelineFacts(movies, labeler);
  }

  /** A displayable list is exactly what grouping its own movies gives. */
  lemma DisplayableIsFixpoint(gs: seq<MoviesByYear>, labeler: YearLabeler)
    requires Displayable(gs, labeler)
    ensures GroupMoviesByYear(Flatten(gs), labeler) == gs
  {
    DistinctByIdOfDistinct(Flatten(gs));
    GroupByOfWellGrouped(gs, LabelOf(labeler));
    forall i | 0 <= i < |gs| ensures SortGroup(gs[i]) == gs[i] {
      SortDescOfSorted(gs[i].movies, ReleaseDateLe);
    }
    assert SortGroups(gs) == gs;
    SortDescOfSorted(gs, YearLe);
  }

  /** Grouping the displayed list again changes nothing. */
  lemma GroupingIdempotent(movies: seq<Movie>, labeler: YearLabeler)
    ensures var g := GroupMoviesByYear(movies, labeler);
      GroupMoviesByYear(Flatten(g), labeler) == g
  {
    GroupingDisplayable(movies, labeler);
    DisplayableIsFixpoint(GroupMoviesByYear(movies, labeler), labeler);
  }

  /** The grouping's contract: every movie of the input appears, each id once and as the
      first movie with that id; the groups are non-empty, hold exactly the movies of their
      label, have distinct labels and come in non-increasing label order, each sorted newest
      first; and grouping the displayed list again changes nothing. */
  lemma GroupMoviesByYearSpec(movies: seq<Movie>, labeler: YearLabeler)
    ensures var g := GroupMoviesByYear(movies, labeler);
      && KeysDistinct(Flatten(g), MovieId)
      && IdsOf(Flatten(g)) == IdsOf(movies)
      && (forall x :: x in Flatten(g) ==> x in movies)
      && (forall i :: 0 <= i < |movies| && (forall j :: 0 <= j < i ==> movies[j].id != movies[i].id) ==>
            movies[i] in Flatten(g))
      && (forall i :: 0 <= i < |g| ==> g[i].movies != [])
      && (forall i, m :: 0 <= i < |g| && m in g[i].movies ==> Label(labeler, m) == g[i].year)
      && KeysDistinct(g, YearOf)
      && SortedDesc(g, YearLe)
      && (forall i :: 0 <= i < |g| ==> SortedDesc(g[i].movies, ReleaseDateLe))
      && GroupMoviesByYear(Flatten(g), labeler) == g
  {
    GroupedMovies(movies, labeler);
    PipelineFacts(movies, labeler);
    GroupingIdempotent(movies, labeler);
  }
}
