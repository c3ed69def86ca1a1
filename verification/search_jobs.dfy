/** The `POST` handler of the search-jobs endpoint
    (app/api/search-jobs/route.ts): read `profile` from the request body, run
    the country filter over the curated catalog, and answer either
    `{ jobs, count }` or the generic error with status 500.

    JavaScript evaluation is modelled where it decides the outcome: a profile
    field that is absent is `undefined`, and calling `includes` on it throws a
    TypeError, which the handler's `catch` turns into the error response. The
    filter's `&&` short-circuits, so `excludeCountries` is only read for jobs
    whose country is on the allow-list. */
module SearchJobs {

  import opened Wrappers
  import opened Jobs
  import opened Matching

  /** The profile as it arrives in JSON: either list may be missing. Other
      profile fields (name, skills, ...) are never read and are not kept. */
  datatype RawProfile = RawProfile(countries: Option<seq<string>>, excludeCountries: Option<seq<string>>)

  /** The request body after `request.json()`: a body that is not JSON (or is
      `null`, which cannot be destructured) is `Unparseable`; otherwise the
      `profile` field, which may be missing. */
  datatype Request = Unparseable | Body(profile: Option<RawProfile>)

  /** The handler's answer: `{ jobs, count }` with status 200, or
      `{ error }` with status 500. */
  datatype Response = Ok(jobs: seq<Job>, count: int) | Err(error: string) {
    function Status(): int {
      if Ok? then 200 else 500
    }
  }

  /** The only error text the handler ever sends. */
  const GenericError: string := "Failed to search for jobs"

  /** One call of the filter's lambda: `Some(keep)`, or `None` when it throws
      because the profile or one of the lists it reads is missing. */
  function TestJob(profile: Option<RawProfile>, j: Job): (r: Option<bool>)
    ensures profile.None? || profile.value.countries.None? ==> r.None?
    ensures profile.Some? && profile.value.countries.Some? && j.country !in profile.value.countries.value
            ==> r == Some(false)
    ensures (profile.Some? && profile.value.countries.Some? && j.country in profile.value.countries.value &&
             profile.value.excludeCountries.None?) ==> r.None?
    ensures profile.Some? && profile.value.countries.Some? && profile.value.excludeCountries.Some? ==>
            r == Some(Keeps(Profile(profile.value.countries.value, profile.value.excludeCountries.value), j))
  {
    match profile
    case None => None
    case Some(raw) =>
      match raw.countries
      case None => None
      case Some(cs) =>
        if j.country !in cs then Some(false)
        else
          match raw.excludeCountries
          case None => None
          case Some(xs) => Some(j.country !in xs)
  }

  /** `catalog.filter(...)` run to completion: `None` when some call of the
      lambda throws, otherwise the kept jobs in catalog order. */
  function FilterChecked(profile: Option<RawProfile>, catalog: seq<Job>): (r: Option<seq<Job>>)
    ensures r.Some? ==> |r.value| <= |catalog|
    ensures r.None? <==> exists j :: j in catalog && TestJob(profile, j).None?
  {
    if catalog == [] then Some([])
    else
      match TestJob(profile, catalog[0])
      case None => None
      case Some(keep) =>
        match FilterChecked(profile, catalog[1..])
        case None => None
        case Some(rest) => Some(if keep then [catalog[0]] + rest else rest)
  }

  /** The handler: parse, filter the curated catalog, package the result. */
  function Post(req: Request): (r: Response)
    ensures r.Ok? ==> r.count == |r.jobs| && |r.jobs| <= |CuratedJobs|
    ensures r.Err? ==> r.error == GenericError && r.Status() == 500
    ensures r.Ok? ==> r.Status() == 200
  {
    match req
    case Unparseable => Err(GenericError)
    case Body(profile) =>
      match FilterChecked(profile, CuratedJobs)
      case None => Err(GenericError)
      case Some(matching) => Ok(matching, |matching|)
  }

  /** With both lists present the lambda never throws, and the checked filter
      computes exactly `Match`. */
  lemma {:induction false} FilterCheckedWellFormed(cs: seq<string>, xs: seq<string>, catalog: seq<Job>)
    ensures FilterChecked(Some(RawProfile(Some(cs), Some(xs))), catalog) == Some(Match(Profile(cs, xs), catalog))
    decreases |catalog|
  {
    if catalog != [] {
      FilterCheckedWellFormed(cs, xs, catalog[1..]);
    }
  }

  /** Without `excludeCountries` the filter throws exactly when some catalog
      job's country is on the allow-list; otherwise it keeps nothing. */
  lemma {:induction false} FilterCheckedMissingExclusions(cs: seq<string>, catalog: seq<Job>)
    ensures var r := FilterChecked(Some(RawProfile(Some(cs), None)), catalog);
            (r.None? <==> exists j :: j in catalog && j.country in cs) &&
            (r.Some? ==> r.value == [])
    decreases |catalog|
  {
    if catalog != [] {
      FilterCheckedMissingExclusions(cs, catalog[1..]);
      assert catalog == [catalog[0]] + catalog[1..];
    }
  }

  /** A well-formed profile gets status 200 with exactly the matching
      catalog jobs and their number. */
  lemma PostWellFormed(cs: seq<string>, xs: seq<string>)
    ensures Post(Body(Some(RawProfile(Some(cs), Some(xs))))) ==
            Ok(Match(Profile(cs, xs), CuratedJobs), |Match(Profile(cs, xs), CuratedJobs)|)
  {
    FilterCheckedWellFormed(cs, xs, CuratedJobs);
  }

  /** A body that is not JSON, a missing profile or a missing allow-list gets
      the generic error and no job list. */
  lemma PostMalformed(req: Request)
    requires req.Unparseable? || req.profile.None? || req.profile.value.countries.None?
    ensures Post(req) == Err(GenericError)
  {
    if req.Body? {
      assert CuratedJobs[0] in CuratedJobs;
    }
  }

  /** A profile without `excludeCountries` fails exactly when its allow-list
      names a country of the catalog; otherwise it gets an empty list. */
  lemma PostMissingExclusions(cs: seq<string>)
    ensures Post(Body(Some(RawProfile(Some(cs), None)))) ==
            if exists c :: c in cs && c in CatalogCountries then Err(GenericError) else Ok([], 0)
  {
    FilterCheckedMissingExclusions(cs, CuratedJobs);
    CatalogCountriesExact();
  }

  /** The profile the page sends. */
  const PageProfile: RawProfile :=
    RawProfile(Some(["UK", "Netherlands", "Belgium", "Ireland", "Italy"]), Some(["USA", "Germany", "France"]))

  /** The page's profile keeps every job of the catalog. */
  lemma PageProfileKeepsCatalog()
    ensures Match(Profile(PageProfile.countries.value, PageProfile.excludeCountries.value), CuratedJobs) == CuratedJobs
  {
    var p := Profile(PageProfile.countries.value, PageProfile.excludeCountries.value);
    assert forall c :: c in CatalogCountries ==> c in p.countries && c !in p.excludeCountries;
    CatalogCountriesExact();
    assert forall j :: j in CuratedJobs ==> Keeps(p, j);
    MatchAllKept(p, CuratedJobs);
  }

  /** The page's profile gets all fifteen catalog jobs, in catalog order. */
  lemma PageProfileGetsWholeCatalog()
    ensures Post(Body(Some(PageProfile))) == Ok(CuratedJobs, 15)
  {
    PageProfileKeepsCatalog();
    PostWellFormed(PageProfile.countries.value, PageProfile.excludeCountries.value);
    assert |CuratedJobs| == 15;
  }

  /** Listing "UK" as both included and excluded leaves nothing. */
  lemma SameCountryIncludedAndExcluded()
    ensures Post(Body(Some(RawProfile(Some(["UK"]), Some(["UK"]))))) == Ok([], 0)
  {
    AllIncludedExcludedMatchesNothing(Profile(["UK"], ["UK"]), CuratedJobs);
    PostWellFormed(["UK"], ["UK"]);
  }
}
