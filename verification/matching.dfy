/** The job-matching filter of the search-jobs endpoint
    (app/api/search-jobs/route.ts, `curatedJobs.filter(...)`): keep, in
    catalog order, the jobs whose country is on the profile's allow-list and
    not on its deny-list. */
module Matching {

  import opened Jobs

  /** The two profile fields the filter reads. They are JSON arrays tested
      with `includes`, so they are sequences: order and duplicates do not
      change membership. */
  datatype Profile = Profile(countries: seq<string>, excludeCountries: seq<string>)

  /** The filter's predicate: the country is included and not excluded. */
  predicate Keeps(p: Profile, j: Job) {
    j.country in p.countries && j.country !in p.excludeCountries
  }

  /** `catalog.filter(job => Keeps(p, job))`. */
  function Match(p: Profile, catalog: seq<Job>): (r: seq<Job>)
    ensures |r| <= |catalog|
    ensures forall j :: j in r ==> j in catalog && Keeps(p, j)
  {
    if catalog == [] then []
    else if Keeps(p, catalog[0]) then [catalog[0]] + Match(p, catalog[1..])
    else Match(p, catalog[1..])
  }

  /** `xs` is `ys` with some elements dropped, the rest in their original
      relative order. */
  ghost predicate IsSubsequence<T>(xs: seq<T>, ys: seq<T>)
    decreases |ys|
  {
    if xs == [] then true
    else if ys == [] then false
    else (xs[0] == ys[0] && IsSubsequence(xs[1..], ys[1..])) || IsSubsequence(xs, ys[1..])
  }

  /** The independent description of a filter result: each job occurs in
      `r` exactly as often as in the catalog when the profile keeps it, and
      not at all otherwise. */
  ghost predicate KeepsExactly(p: Profile, catalog: seq<Job>, r: seq<Job>) {
    forall j :: multiset(r)[j] == if Keeps(p, j) then multiset(catalog)[j] else 0
  }

  /** A subsequence is never longer than the sequence it is drawn from and
      never holds an element more often. */
  lemma {:induction false} SubsequenceBounds<T>(xs: seq<T>, ys: seq<T>)
    requires IsSubsequence(xs, ys)
    ensures |xs| <= |ys|
    ensures multiset(xs) <= multiset(ys)
    decreases |ys|
  {
    if xs == [] {
    } else if xs[0] == ys[0] && IsSubsequence(xs[1..], ys[1..]) {
      SubsequenceBounds(xs[1..], ys[1..]);
      assert xs == [xs[0]] + xs[1..];
      assert ys == [ys[0]] + ys[1..];
    } else {
      SubsequenceBounds(xs, ys[1..]);
      assert ys == [ys[0]] + ys[1..];
    }
  }

  /** Completeness: every catalog job the profile keeps is returned. */
  lemma {:induction false} MatchComplete(p: Profile, catalog: seq<Job>, j: Job)
    requires j in catalog
    requires j.country in p.countries && j.country !in p.excludeCountries
    ensures j in Match(p, catalog)
    decreases |catalog|
  {
    if catalog[0] != j {
      MatchComplete(p, catalog[1..], j);
    }
  }

  /** Order preservation: the result keeps the catalog's relative order. */
  lemma {:induction false} MatchIsSubsequence(p: Profile, catalog: seq<Job>)
    ensures IsSubsequence(Match(p, catalog), catalog)
    decreases |catalog|
  {
    if catalog != [] {
      MatchIsSubsequence(p, catalog[1..]);
      var rest := Match(p, catalog[1..]);
      if Keeps(p, catalog[0]) {
        var r := [catalog[0]] + rest;
        assert r[0] == catalog[0] && r[1..] == rest;
      } else if rest != [] {
        assert IsSubsequence(rest, catalog[1..]);
      }
    }
  }

  /** Multiplicities: the result holds each kept job as often as the catalog
      does and no other job. */
  lemma {:induction false} MatchKeepsExactly(p: Profile, catalog: seq<Job>)
    ensures KeepsExactly(p, catalog, Match(p, catalog))
    decreases |catalog|
  {
    if catalog != [] {
      MatchKeepsExactly(p, catalog[1..]);
      assert catalog == [catalog[0]] + catalog[1..];
    }
  }

  /** The filter result is the only subsequence of the catalog with those
      multiplicities, so `IsSubsequence` and `KeepsExactly` specify `Match`
      completely. */
  lemma {:induction false} MatchUnique(p: Profile, catalog: seq<Job>, r: seq<Job>)
    requires IsSubsequence(r, catalog)
    requires KeepsExactly(p, catalog, r)
    ensures r == Match(p, catalog)
    decreases |catalog|
  {
    if catalog == [] {
      SubsequenceBounds(r, catalog);
    } else {
      var x, tail := catalog[0], catalog[1..];
      assert catalog == [x] + tail;
      assert multiset(catalog)[x] == multiset(tail)[x] + 1;
      if Keeps(p, x) {
        assert multiset(r)[x] == multiset(tail)[x] + 1;
        assert r != [];
        if !(r[0] == x && IsSubsequence(r[1..], tail)) {
          SubsequenceBounds(r, tail);
          assert false;
        }
        assert r == [x] + r[1..];
        forall j ensures multiset(r[1..])[j] == if Keeps(p, j) then multiset(tail)[j] else 0 {
          assert multiset(r)[j] == multiset(r[1..])[j] + (if j == x then 1 else 0);
        }
        MatchUnique(p, tail, r[1..]);
      } else {
        assert multiset(r)[x] == 0;
        assert r != [] ==> r[0] != x by {
          if r != [] {
            assert r == [r[0]] + r[1..];
          }
        }
        assert IsSubsequence(r, tail);
        forall j ensures multiset(r)[j] == if Keeps(p, j) then multiset(tail)[j] else 0 {
          assert multiset(catalog)[j] == multiset(tail)[j] + (if j == x then 1 else 0);
        }
        MatchUnique(p, tail, r);
      }
    }
  }

  /** Exclusion wins: a country on both lists never appears in the result. */
  lemma {:induction false} ExclusionWins(p: Profile, catalog: seq<Job>, country: string)
    requires country in p.countries && country in p.excludeCountries
    ensures forall j :: j in Match(p, catalog) ==> j.country != country
  {
  }

  /** A profile whose every included country is also excluded matches
      nothing; in particular an empty allow-list matches nothing whatever the
      deny-list holds. */
  lemma {:induction false} AllIncludedExcludedMatchesNothing(p: Profile, catalog: seq<Job>)
    requires forall c :: c in p.countries ==> c in p.excludeCountries
    ensures Match(p, catalog) == []
    decreases |catalog|
  {
    if catalog != [] {
      AllIncludedExcludedMatchesNothing(p, catalog[1..]);
    }
  }

  /** The whole catalog comes back, unchanged, exactly when the profile keeps
      every job in it. */
  lemma {:induction false} MatchAllKept(p: Profile, catalog: seq<Job>)
    ensures Match(p, catalog) == catalog <==> forall j :: j in catalog ==> Keeps(p, j)
    decreases |catalog|
  {
    if catalog != [] {
      MatchAllKept(p, catalog[1..]);
      if !Keeps(p, catalog[0]) {
        assert |Match(p, catalog)| < |catalog|;
      }
    }
  }

  /** Filtering a filter result again changes nothing. */
  lemma {:induction false} MatchIdempotent(p: Profile, catalog: seq<Job>)
    ensures Match(p, Match(p, catalog)) == Match(p, catalog)
  {
    MatchAllKept(p, Match(p, catalog));
  }
}
