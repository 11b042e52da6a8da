/** What `getCreditsForMovies` promises about its result (MovieRepositoryImpl.kt): one entry per
    (id, role), every entry taken from a successful response, every actor and every named
    director of a successful response present, and a failure only when every request failed. */
module CreditsProperties {
  import opened Wrappers
  import opened MovieErrors
  import opened Dtos
  import opened Domain
  import opened Mappers
  import opened RemoteDataSource
  import opened Repository

  /** No two contributors share both id and role. */
  ghost predicate UniqueKeys(s: seq<MovieContributor>) {
    forall i, j :: 0 <= i < j < |s| ==> !(s[i].id == s[j].id && s[i].role == s[j].role)
  }

  /** `x` is what the aggregation makes of some member of `credits`. */
  ghost predicate FromCredits(x: MovieContributor, credits: MovieCreditsDto) {
    || (exists c :: c in credits.cast && x == CastToContributor(c))
    || (exists c :: c in credits.crew && NamedDirector(c) && x == CrewToContributor(c))
  }

  lemma HasPrefix(a: seq<MovieContributor>, b: seq<MovieContributor>, id: int, role: Role)
    requires a <= b && HasContributor(a, id, role)
    ensures HasContributor(b, id, role)
  {
    var i :| 0 <= i < |a| && a[i].id == id && a[i].role == role;
    assert b[i] == a[i];
  }

  lemma {:induction false} AddCastFacts(acc: seq<MovieContributor>, cast: seq<CastMemberDto>)
    ensures acc <= AddCast(acc, cast)
    ensures forall c :: c in cast ==> HasContributor(AddCast(acc, cast), c.id, ACTOR)
    ensures forall x :: x in AddCast(acc, cast) ==> x in acc || exists c :: c in cast && x == CastToContributor(c)
    decreases |cast|
  {
    if cast != [] {
      var p := cast[..|cast| - 1];
      var c := cast[|cast| - 1];
      var prev := AddCast(acc, p);
      var r := AddCast(acc, cast);
      AddCastFacts(acc, p);
      assert prev <= r;
      assert cast == p + [c];
      forall d | d in cast ensures HasContributor(r, d.id, ACTOR) {
        if d in p {
          HasPrefix(prev, r, d.id, ACTOR);
        } else if !HasContributor(prev, c.id, ACTOR) {
          assert r[|prev|] == CastToContributor(c);
        }
      }
    }
  }

  lemma {:induction false} AddDirectorsFacts(acc: seq<MovieContributor>, crew: seq<CrewMemberDto>)
    ensures acc <= AddDirectors(acc, crew)
    ensures forall c :: c in crew && NamedDirector(c) ==>
      HasContributor(AddDirectors(acc, crew), c.id, DIRECTOR)
      || HasContributor(AddDirectors(acc, crew), c.id, CrewToContributor(c).role)
    ensures forall x :: x in AddDirectors(acc, crew) ==>
      x in acc || exists c :: c in crew && NamedDirector(c) && x == CrewToContributor(c)
    decreases |crew|
  {
    if crew != [] {
      var p := crew[..|crew| - 1];
      var c := crew[|crew| - 1];
      var prev := AddDirectors(acc, p);
      var r := AddDirectors(acc, crew);
      AddDirectorsFacts(acc, p);
      assert prev <= r;
      assert crew == p + [c];
      forall d | d in crew && NamedDirector(d)
        ensures HasContributor(r, d.id, DIRECTOR) || HasContributor(r, d.id, CrewToContributor(d).role)
      {
        if d in p {
          if HasContributor(prev, d.id, DIRECTOR) {
            HasPrefix(prev, r, d.id, DIRECTOR);
          } else {
            HasPrefix(prev, r, d.id, CrewToContributor(d).role);
          }
        } else if HasContributor(prev, c.id, DIRECTOR) {
          HasPrefix(prev, r, c.id, DIRECTOR);
        } else {
          assert r[|prev|] == CrewToContributor(c);
        }
      }
    }
  }

  /** The cast loop handles the cast in list order: the entries made from a prefix of the
      cast come first. */
  lemma {:induction false} AddCastInOrder(acc: seq<MovieContributor>, cast: seq<CastMemberDto>, i: nat)
    requires i <= |cast|
    ensures AddCast(acc, cast[..i]) <= AddCast(acc, cast)
    decreases |cast|
  {
    if i < |cast| {
      var p := cast[..|cast| - 1];
      assert p[..i] == cast[..i];
      AddCastInOrder(acc, p, i);
      assert AddCast(acc, p) <= AddCast(acc, cast);
    } else {
      assert cast[..i] == cast;
    }
  }

  /** The crew loop handles the crew in list order. */
  lemma {:induction false} AddDirectorsInOrder(acc: seq<MovieContributor>, crew: seq<CrewMemberDto>, i: nat)
    requires i <= |crew|
    ensures AddDirectors(acc, crew[..i]) <= AddDirectors(acc, crew)
    decreases |crew|
  {
    if i < |crew| {
      var p := crew[..|crew| - 1];
      assert p[..i] == crew[..i];
      AddDirectorsInOrder(acc, p, i);
      assert AddDirectors(acc, p) <= AddDirectors(acc, crew);
    } else {
      assert crew[..i] == crew;
    }
  }

  /** The responses are handled in submission order: what the first `k` responses contribute
      comes before what later responses contribute. */
  lemma {:induction false} GatheredPrefix(responses: seq<Result<MovieCreditsDto>>, k: nat)
    requires k <= |responses|
    ensures Gathered(responses[..k]) <= Gathered(responses)
    decreases |responses|
  {
    if k < |responses| {
      var n := |responses|;
      var rs := responses[..n - 1];
      assert rs[..k] == responses[..k];
      GatheredPrefix(rs, k);
      var prev := Gathered(rs);
      if responses[n - 1].Success? {
        AddCastFacts(prev, responses[n - 1].data.cast);
        AddDirectorsFacts(AddCast(prev, responses[n - 1].data.cast), responses[n - 1].data.crew);
      }
      assert prev <= Gathered(responses);
    } else {
      assert responses[..k] == responses;
    }
  }

  /** Within the successful response `k`, its cast is added in list order after everything the
      earlier responses contributed, and its crew in list order after its cast. */
  lemma GatheredStepOrder(responses: seq<Result<MovieCreditsDto>>, k: nat)
    requires k < |responses| && responses[k].Success?
    ensures var before := Gathered(responses[..k]);
      var credits := responses[k].data;
      && (forall i :: 0 <= i <= |credits.cast| ==>
            before <= AddCast(before, credits.cast[..i]) <= AddCast(before, credits.cast))
      && (forall i :: 0 <= i <= |credits.crew| ==>
            AddCast(before, credits.cast) <= AddDirectors(AddCast(before, credits.cast), credits.crew[..i])
              <= Gathered(responses[..k + 1]))
  {
    var before := Gathered(responses[..k]);
    var credits := responses[k].data;
    var cast := AddCast(before, credits.cast);
    assert responses[..k + 1][..k] == responses[..k];
    assert Gathered(responses[..k + 1]) == AddDirectors(cast, credits.crew);
    forall i | 0 <= i <= |credits.cast|
      ensures before <= AddCast(before, credits.cast[..i]) <= cast
    {
      AddCastFacts(before, credits.cast[..i]);
      AddCastInOrder(before, credits.cast, i);
    }
    forall i | 0 <= i <= |credits.crew|
      ensures cast <= AddDirectors(cast, credits.crew[..i]) <= AddDirectors(cast, credits.crew)
    {
      AddDirectorsFacts(cast, credits.crew[..i]);
      AddDirectorsInOrder(cast, credits.crew, i);
    }
  }

  lemma {:induction false} GatheredFacts(responses: seq<Result<MovieCreditsDto>>)
    ensures var g := Gathered(responses);
      && (forall k, c :: 0 <= k < |responses| && responses[k].Success? && c in responses[k].data.cast ==>
            HasContributor(g, c.id, ACTOR))
      && (forall k, c :: 0 <= k < |responses| && responses[k].Success? && c in responses[k].data.crew && NamedDirector(c) ==>
            HasContributor(g, c.id, DIRECTOR) || HasContributor(g, c.id, CrewToContributor(c).role))
      && (forall x :: x in g ==>
            exists k :: 0 <= k < |responses| && responses[k].Success? && FromCredits(x, responses[k].data))
  {
    if responses != [] {
      var n := |responses|;
      var rs := responses[..n - 1];
      var last := responses[n - 1];
      var prev := Gathered(rs);
      var g := Gathered(responses);
      GatheredFacts(rs);
      if last.Success? {
        var a := AddCast(prev, last.data.cast);
        AddCastFacts(prev, last.data.cast);
        AddDirectorsFacts(a, last.data.crew);
        assert g == AddDirectors(a, last.data.crew);
        forall k, c | 0 <= k < n && responses[k].Success? && c in responses[k].data.cast
          ensures HasContributor(g, c.id, ACTOR)
        {
          if k < n - 1 {
            assert rs[k] == responses[k];
            HasPrefix(prev, a, c.id, ACTOR);
          }
          HasPrefix(a, g, c.id, ACTOR);
        }
        forall k, c | 0 <= k < n && responses[k].Success? && c in responses[k].data.crew && NamedDirector(c)
          ensures HasContributor(g, c.id, DIRECTOR) || HasContributor(g, c.id, CrewToContributor(c).role)
        {
          if k < n - 1 {
            assert rs[k] == responses[k];
            if HasContributor(prev, c.id, DIRECTOR) {
              HasPrefix(prev, a, c.id, DIRECTOR);
              HasPrefix(a, g, c.id, DIRECTOR);
            } else {
              HasPrefix(prev, a, c.id, CrewToContributor(c).role);
              HasPrefix(a, g, c.id, CrewToContributor(c).role);
            }
          }
        }
      } else {
        assert g == prev;
        forall k | 0 <= k < n - 1 ensures responses[k] == rs[k] { }
      }
    }
    GatheredFrom(responses);
  }

  /** Every gathered contributor was made from a member of some successful response. */
  lemma {:induction false} GatheredFrom(responses: seq<Result<MovieCreditsDto>>)
    ensures forall x :: x in Gathered(responses) ==>
      exists k :: 0 <= k < |responses| && responses[k].Success? && FromCredits(x, responses[k].data)
  {
    if responses != [] {
      var n := |responses|;
      var rs := responses[..n - 1];
      var last := responses[n - 1];
      var prev := Gathered(rs);
      GatheredFrom(rs);
      forall x | x in Gathered(responses)
        ensures exists k :: 0 <= k < n && responses[k].Success? && FromCredits(x, responses[k].data)
      {
        if x in prev {
          var k :| 0 <= k < n - 1 && rs[k].Success? && FromCredits(x, rs[k].data);
          assert responses[k] == rs[k];
        } else {
          assert last.Success?;
          var a := AddCast(prev, last.data.cast);
          AddCastFacts(prev, last.data.cast);
          AddDirectorsFacts(a, last.data.crew);
          assert FromCredits(x, responses[n - 1].data);
        }
      }
    }
  }

  lemma GatheredProvenance(responses: seq<Result<MovieCreditsDto>>, x: MovieContributor)
    requires x in Gathered(responses)
    ensures exists k :: 0 <= k < |responses| && responses[k].Success? && FromCredits(x, responses[k].data)
  {
    GatheredFacts(responses);
  }

  lemma {:induction false} DistinctByKeyFacts(s: seq<MovieContributor>)
    ensures UniqueKeys(DistinctByKey(s))
    ensures forall x :: x in DistinctByKey(s) ==> x in s
    ensures forall id, role :: HasContributor(s, id, role) ==> HasContributor(DistinctByKey(s), id, role)
  {
    if s != [] {
      var p := s[..|s| - 1];
      var c := s[|s| - 1];
      var prev := DistinctByKey(p);
      var d := DistinctByKey(s);
      DistinctByKeyFacts(p);
      assert prev <= d;
      forall id, role | HasContributor(s, id, role) ensures HasContributor(d, id, role) {
        var i :| 0 <= i < |s| && s[i].id == id && s[i].role == role;
        if i < |s| - 1 {
          assert p[i] == s[i];
          HasPrefix(prev, d, id, role);
        } else if HasContributor(prev, c.id, c.role) {
          HasPrefix(prev, d, id, role);
        } else {
          assert d[|prev|] == c;
        }
      }
    }
  }

  /** `s[i]` is the first contributor of `s` with its (id, role). */
  ghost predicate FirstOfKey(s: seq<MovieContributor>, i: int) {
    && 0 <= i < |s|
    && forall j :: 0 <= j < i ==> !(s[j].id == s[i].id && s[j].role == s[i].role)
  }

  /** De-duplication introduces no (id, role) the input lacks. */
  lemma AbsentStaysAbsent(p: seq<MovieContributor>, id: int, role: Role)
    requires !HasContributor(p, id, role)
    ensures !HasContributor(DistinctByKey(p), id, role)
  {
    DistinctByKeyFacts(p);
    var d := DistinctByKey(p);
    forall j | 0 <= j < |d| ensures !(d[j].id == id && d[j].role == role) {
      assert d[j] in p;
    }
  }

  /** The first contributor of its (id, role) is kept. */
  lemma {:induction false} KeptIfFirst(s: seq<MovieContributor>, i: int)
    requires FirstOfKey(s, i)
    ensures s[i] in DistinctByKey(s)
    decreases |s|
  {
    var n := |s|;
    var p := s[..n - 1];
    var c := s[n - 1];
    if i < n - 1 {
      assert FirstOfKey(p, i) by {
        forall j | 0 <= j < i ensures !(p[j].id == p[i].id && p[j].role == p[i].role) {
          assert p[j] == s[j] && p[i] == s[i];
        }
      }
      KeptIfFirst(p, i);
      assert DistinctByKey(p) <= DistinctByKey(s);
    } else {
      assert !HasContributor(p, c.id, c.role) by {
        forall j | 0 <= j < |p| ensures !(p[j].id == c.id && p[j].role == c.role) {
          assert p[j] == s[j];
        }
      }
      AbsentStaysAbsent(p, c.id, c.role);
      assert DistinctByKey(s) == DistinctByKey(p) + [c];
    }
  }

  /** The first contributor of each (id, role) is kept. */
  lemma DistinctByKeyKeepsFirst(s: seq<MovieContributor>)
    ensures forall i :: FirstOfKey(s, i) ==> s[i] in DistinctByKey(s)
  {
    forall i | FirstOfKey(s, i) ensures s[i] in DistinctByKey(s) {
      KeptIfFirst(s, i);
    }
  }

  /** De-duplication loses no (id, role) the input has. */
  lemma AbsentFromDistinct(p: seq<MovieContributor>, id: int, role: Role)
    requires !HasContributor(DistinctByKey(p), id, role)
    ensures !HasContributor(p, id, role)
  {
    DistinctByKeyFacts(p);
  }

  /** A first contributor of a list is still first once the list is extended. */
  lemma FirstOfKeyExtends(p: seq<MovieContributor>, s: seq<MovieContributor>, i: int)
    requires p <= s && FirstOfKey(p, i)
    ensures FirstOfKey(s, i) && s[i] == p[i]
  {
    forall j | 0 <= j < i ensures !(s[j].id == s[i].id && s[j].role == s[i].role) {
      assert s[j] == p[j] && s[i] == p[i];
    }
  }

  /** The last contributor is first of its (id, role) when no earlier one shares it. */
  lemma LastIsFirst(s: seq<MovieContributor>)
    requires s != [] && !HasContributor(s[..|s| - 1], s[|s| - 1].id, s[|s| - 1].role)
    ensures FirstOfKey(s, |s| - 1)
  {
    var p := s[..|s| - 1];
    forall j | 0 <= j < |s| - 1 ensures !(s[j].id == s[|s| - 1].id && s[j].role == s[|s| - 1].role) {
      assert p[j] == s[j];
    }
  }

  /** A kept contributor is the first of its (id, role). */
  lemma {:induction false} KeptIsFirst(s: seq<MovieContributor>, x: MovieContributor)
    requires x in DistinctByKey(s)
    ensures exists i :: FirstOfKey(s, i) && s[i] == x
    decreases |s|
  {
    var p := s[..|s| - 1];
    var c := s[|s| - 1];
    var prev := DistinctByKey(p);
    if x in prev {
      KeptIsFirst(p, x);
      var i :| FirstOfKey(p, i) && p[i] == x;
      FirstOfKeyExtends(p, s, i);
    } else {
      assert x == c && !HasContributor(prev, c.id, c.role);
      AbsentFromDistinct(p, c.id, c.role);
      LastIsFirst(s);
      assert s[|s| - 1] == x;
    }
  }

  /** Only first contributors of an (id, role) are kept. */
  lemma DistinctByKeyOnlyFirst(s: seq<MovieContributor>)
    ensures forall x :: x in DistinctByKey(s) ==> exists i :: FirstOfKey(s, i) && s[i] == x
  {
    forall x | x in DistinctByKey(s) ensures exists i :: FirstOfKey(s, i) && s[i] == x {
      KeptIsFirst(s, x);
    }
  }

  /** The de-duplication of a prefix is a prefix of the de-duplication: the kept contributors
      stay in the order of the input. */
  lemma {:induction false} DistinctByKeyPrefix(s: seq<MovieContributor>, m: nat)
    requires m <= |s|
    ensures DistinctByKey(s[..m]) <= DistinctByKey(s)
    decreases |s|
  {
    if m < |s| {
      var p := s[..|s| - 1];
      assert p[..m] == s[..m];
      DistinctByKeyPrefix(p, m);
      assert DistinctByKey(p) <= DistinctByKey(s);
    } else {
      assert s[..m] == s;
    }
  }

  /** An (id, role) that already occurs in a prefix keeps the entry it has there. */
  lemma DistinctByKeyEarliest(s: seq<MovieContributor>, m: nat, x: MovieContributor)
    requires m <= |s| && x in DistinctByKey(s) && HasContributor(s[..m], x.id, x.role)
    ensures x in s[..m]
  {
    DistinctByKeyOnlyFirst(s);
    var i :| FirstOfKey(s, i) && s[i] == x;
    var q :| 0 <= q < m && s[..m][q].id == x.id && s[..m][q].role == x.role;
    assert s[q] == s[..m][q];
    assert !(q < i);
    assert s[..m][i] == x;
  }

  /** `distinctBy { it.id to it.role }` keeps, of each (id, role), exactly its first
      contributor, in the order of the input. */
  lemma DistinctByKeySpec(s: seq<MovieContributor>)
    ensures var d := DistinctByKey(s);
      && UniqueKeys(d)
      && (forall x :: x in d ==> exists i :: FirstOfKey(s, i) && s[i] == x)
      && (forall i :: FirstOfKey(s, i) ==> s[i] in d)
      && (forall m :: 0 <= m <= |s| ==> DistinctByKey(s[..m]) <= d)
  {
    DistinctByKeyFacts(s);
    DistinctByKeyOnlyFirst(s);
    DistinctByKeyKeepsFirst(s);
    forall m | 0 <= m <= |s| ensures DistinctByKey(s[..m]) <= DistinctByKey(s) {
      DistinctByKeyPrefix(s, m);
    }
  }

  lemma {:induction false} AllFailed(responses: seq<Result<MovieCreditsDto>>)
    requires responses != []
    requires forall k :: 0 <= k < |responses| ==> responses[k].Error?
    ensures FirstError(responses) == Some(responses[0].exception)
    ensures SuccessCount(responses) == 0
  {
    var rs := responses[..|responses| - 1];
    if rs != [] {
      assert forall k :: 0 <= k < |rs| ==> rs[k] == responses[k];
      AllFailed(rs);
    }
  }

  lemma {:induction false} NoSuccessMeansAllFailed(responses: seq<Result<MovieCreditsDto>>)
    requires SuccessCount(responses) == 0
    ensures forall k :: 0 <= k < |responses| ==> responses[k].Error?
  {
    if responses != [] {
      var rs := responses[..|responses| - 1];
      NoSuccessMeansAllFailed(rs);
      assert forall k :: 0 <= k < |rs| ==> rs[k] == responses[k];
    }
  }

  /** The aggregation's contract over the awaited responses. The result is a failure exactly
      when there were responses and all of them failed, and then it is the first one's error.
      Otherwise it holds one entry per (id, role); each entry was made from a member of a
      successful response; every cast member of a successful response is there as an actor;
      and every crew member named "Director" is there as a director or, when the mapper does
      not rate the credit as directing, under the role the mapper gives it. */
  lemma CombineCreditsSpec(responses: seq<Result<MovieCreditsDto>>)
    ensures var r := CombineCredits(responses);
      && (responses == [] ==> r == Success([]))
      && (r.Error? <==> responses != [] && forall k :: 0 <= k < |responses| ==> responses[k].Error?)
      && (r.Error? ==> r.exception == responses[0].exception)
      && (r.Success? ==>
            && UniqueKeys(r.data)
            && (forall x :: x in r.data ==>
                  exists k :: 0 <= k < |responses| && responses[k].Success? && FromCredits(x, responses[k].data))
            && (forall k, c :: 0 <= k < |responses| && responses[k].Success? && c in responses[k].data.cast ==>
                  HasContributor(r.data, c.id, ACTOR))
            && (forall k, c :: 0 <= k < |responses| && responses[k].Success? && c in responses[k].data.crew && NamedDirector(c) ==>
                  HasContributor(r.data, c.id, DIRECTOR) || HasContributor(r.data, c.id, CrewToContributor(c).role)))
  {
    var r := CombineCredits(responses);
    if responses != [] && forall k :: 0 <= k < |responses| ==> responses[k].Error? {
      AllFailed(responses);
    } else if responses != [] {
      if SuccessCount(responses) == 0 {
        NoSuccessMeansAllFailed(responses);
      }
      GatheredFacts(responses);
      DistinctByKeyFacts(Gathered(responses));
      if r.Success? {
        forall x | x in r.data
          ensures exists k :: 0 <= k < |responses| && responses[k].Success? && FromCredits(x, responses[k].data)
        {
          GatheredProvenance(responses, x);
        }
      }
    }
  }

  /** A director in the result comes from a crew credit whose job is exactly "Director" and
      whose department is "Directing"; an actor comes from a cast member. */
  lemma RolesComeFromMatchingCredits(responses: seq<Result<MovieCreditsDto>>, x: MovieContributor)
    requires CombineCredits(responses).Success? && x in CombineCredits(responses).data
    ensures x.role == DIRECTOR ==>
      exists k, c :: 0 <= k < |responses| && responses[k].Success? && c in responses[k].data.crew
        && c.job == Some("Director") && c.department == Some("Directing") && x == CrewToContributor(c)
    ensures x.role == ACTOR ==>
      exists k, c :: 0 <= k < |responses| && responses[k].Success? && c in responses[k].data.cast
        && x == CastToContributor(c)
  {
    CombineCreditsSpec(responses);
  }

  /** The combined list of a prefix of the responses is a prefix of the combined list: the
      contributors of earlier movies come first. */
  lemma CombineCreditsOrder(responses: seq<Result<MovieCreditsDto>>, k: nat)
    requires k <= |responses|
    requires CombineCredits(responses).Success? && CombineCredits(responses[..k]).Success?
    ensures CombineCredits(responses[..k]).data <= CombineCredits(responses).data
  {
    if k > 0 {
      var g := Gathered(responses);
      var gk := Gathered(responses[..k]);
      GatheredPrefix(responses, k);
      assert g[..|gk|] == gk;
      DistinctByKeyPrefix(g, |gk|);
    }
  }

  /** When several movies credit the same person in the same role, the entry of the earliest
      such movie is the one kept. The role is the actor or director role, the two roles the
      aggregation adds for every source credit. */
  lemma EarlierCreditWins(responses: seq<Result<MovieCreditsDto>>, k: nat, y: MovieContributor, x: MovieContributor)
    requires CombineCredits(responses).Success? && x in CombineCredits(responses).data
    requires k < |responses| && responses[k].Success? && FromCredits(y, responses[k].data)
    requires y.role != OTHER && y.id == x.id && y.role == x.role
    ensures exists j :: 0 <= j <= k && responses[j].Success? && FromCredits(x, responses[j].data)
  {
    var pre := responses[..k + 1];
    var g := Gathered(responses);
    var gk := Gathered(pre);
    assert pre[k] == responses[k];
    GatheredFacts(pre);
    assert HasContributor(gk, x.id, x.role);
    GatheredPrefix(responses, k + 1);
    assert g[..|gk|] == gk;
    DistinctByKeyEarliest(g, |gk|, x);
    GatheredProvenance(pre, x);
    var j :| 0 <= j < |pre| && pre[j].Success? && FromCredits(x, pre[j].data);
    assert pre[j] == responses[j];
  }

  /** The repository's aggregation stated over movie ids: the k-th response is the credits
      of the k-th id. */
  lemma CreditsForMoviesSpec(remote: MovieRemoteDataSource, movieIds: seq<int>)
    ensures var r := CreditsForMovies(remote, movieIds);
      && (movieIds == [] ==> r == Success([]))
      && (r.Error? <==> movieIds != [] && forall k :: 0 <= k < |movieIds| ==> remote.getMovieCredits(movieIds[k]).Error?)
      && (r.Error? ==> r.exception == remote.getMovieCredits(movieIds[0]).exception)
      && (r.Success? ==>
            && UniqueKeys(r.data)
            && (forall x :: x in r.data ==> exists k ::
                  && 0 <= k < |movieIds|
                  && remote.getMovieCredits(movieIds[k]).Success?
                  && FromCredits(x, remote.getMovieCredits(movieIds[k]).data))
            && (forall k, c ::
                  (&& 0 <= k < |movieIds|
                   && remote.getMovieCredits(movieIds[k]).Success?
                   && c in remote.getMovieCredits(movieIds[k]).data.cast)
                  ==> HasContributor(r.data, c.id, ACTOR))
            && (forall k, c ::
                  (&& 0 <= k < |movieIds|
                   && remote.getMovieCredits(movieIds[k]).Success?
                   && c in remote.getMovieCredits(movieIds[k]).data.crew
                   && NamedDirector(c))
                  ==> HasContributor(r.data, c.id, DIRECTOR) || HasContributor(r.data, c.id, CrewToContributor(c).role)))
  {
    var rs := CreditResponses(remote, movieIds);
    CombineCreditsSpec(rs);
    var r := CreditsForMovies(remote, movieIds);
    if r.Success? {
      forall x | x in r.data
        ensures exists k ::
          && 0 <= k < |movieIds|
          && remote.getMovieCredits(movieIds[k]).Success?
          && FromCredits(x, remote.getMovieCredits(movieIds[k]).data)
      {
        var k :| 0 <= k < |rs| && rs[k].Success? && FromCredits(x, rs[k].data);
        assert rs[k] == remote.getMovieCredits(movieIds[k]);
      }
    }
  }

  /** The credits of a prefix of the ids form a prefix of the credits of all the ids. */
  lemma CreditsForMoviesOrder(remote: MovieRemoteDataSource, movieIds: seq<int>, k: nat)
    requires k <= |movieIds|
    requires CreditsForMovies(remote, movieIds).Success? && CreditsForMovies(remote, movieIds[..k]).Success?
    ensures CreditsForMovies(remote, movieIds[..k]).data <= CreditsForMovies(remote, movieIds).data
  {
    var rs := CreditResponses(remote, movieIds);
    assert CreditResponses(remote, movieIds[..k]) == rs[..k];
    CombineCreditsOrder(rs, k);
  }

  /** A person credited in the same role by several of the movies keeps the entry of the
      earliest of them. */
  lemma EarlierMovieWins(remote: MovieRemoteDataSource, movieIds: seq<int>, k: nat, y: MovieContributor, x: MovieContributor)
    requires CreditsForMovies(remote, movieIds).Success? && x in CreditsForMovies(remote, movieIds).data
    requires k < |movieIds| && remote.getMovieCredits(movieIds[k]).Success?
    requires FromCredits(y, remote.getMovieCredits(movieIds[k]).data)
    requires y.role != OTHER && y.id == x.id && y.role == x.role
    ensures exists j ::
      && 0 <= j <= k
      && remote.getMovieCredits(movieIds[j]).Success?
      && FromCredits(x, remote.getMovieCredits(movieIds[j]).data)
  {
    var rs := CreditResponses(remote, movieIds);
    EarlierCreditWins(rs, k, y, x);
    var j :| 0 <= j <= k && rs[j].Success? && FromCredits(x, rs[j].data);
    assert rs[j] == remote.getMovieCredits(movieIds[j]);
  }
}
