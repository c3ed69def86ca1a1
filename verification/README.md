# Job search matcher — a Dafny model

The repository is a small Next.js job-search page. Its only logic is the
`POST` handler of the `/api/search-jobs` endpoint. The handler reads a
profile from the request body. It keeps the entries of a fixed, ordered
catalog of fifteen curated job postings whose `country` is in the profile's
`countries` list and not in its `excludeCountries` list. It answers
`{ jobs, count }`, or `{ error: 'Failed to search for jobs' }` with status
500 when anything throws.

The model has four modules:

- `Wrappers` (wrappers.dfy): the `Option` type.
- `Jobs` (jobs.dfy): the `Job` record, its closed `Visa` literal type, and
  the catalog `CuratedJobs`. The catalog is copied entry by entry, in order.
  `VisaWire` and `ParseVisa` only describe the closed literal type: the
  handler never reads a visa string back, and matching ignores the field.
- `Matching` (matching.dfy): the `Profile` lists, the keep predicate and the
  filter `Match`. The lemmas prove soundness, completeness and order
  preservation. `MatchUnique` proves that order preservation plus the
  per-job multiplicities determine the result completely. Further lemmas
  cover exclusion precedence, the empty allow-list and idempotence.
- `SearchJobs` (search_jobs.dfy): the handler as JavaScript evaluates it.
  A missing profile or list is `undefined`, and calling `includes` on it
  throws. The filter lambda's `&&` short-circuits, so `excludeCountries` is
  read only for jobs whose country is on the allow-list.

The profile lists are JSON arrays tested with `Array.prototype.includes`.
They are modelled as sequences with `in`, and duplicates or order in them
never matter. Following the code, a malformed profile is not always an
error:

- A profile without `countries` always fails, because the catalog is not
  empty.
- A profile without `excludeCountries` fails only when its allow-list names
  a country that occurs in the catalog. Otherwise it gets `{ jobs: [], count: 0 }`
  (`PostMissingExclusions`).

## Model

| member | source | states |
|---|---|---|
| `Jobs.VisaWire` | app/api/search-jobs/route.ts:7 | a visa value is written as one of the three literals `yes`, `no`, `unknown` |
| `Jobs.ParseVisa` | app/api/search-jobs/route.ts:7 | a string is a visa value exactly when it is one of the three literals |
| `Jobs.VisaWireRoundTrip` | app/api/search-jobs/route.ts:7 | reading back a written visa value gives the same value |
| `Jobs.ParseVisaRoundTrip` | app/api/search-jobs/route.ts:7 | writing back a read literal gives the same literal |
| `Jobs.CatalogCountriesAt` | app/api/search-jobs/route.ts:14-150 | every catalog entry's country is UK, Netherlands, Ireland, Belgium or Italy, and the first occurrence of each is at index 0, 1, 2, 4 and 9 |
| `Jobs.CatalogCountriesExact` | app/api/search-jobs/route.ts:14-150 | the catalog's countries are exactly those five |
| `Matching.Match` | app/api/search-jobs/route.ts:160-163 | soundness: every returned job is a catalog job whose country is included and not excluded; the result is no longer than the catalog |
| `Matching.SubsequenceBounds` | app/api/search-jobs/route.ts:160 | an order-preserving selection is no longer than its source and holds no element more often |
| `Matching.MatchComplete` | app/api/search-jobs/route.ts:160-163 | completeness: every catalog job whose country is included and not excluded is returned |
| `Matching.MatchIsSubsequence` | app/api/search-jobs/route.ts:160 | the result is a subsequence of the catalog, in catalog order |
| `Matching.MatchKeepsExactly` | app/api/search-jobs/route.ts:160-163 | each kept job occurs in the result as often as in the catalog, and no other job occurs |
| `Matching.MatchUnique` | app/api/search-jobs/route.ts:160-163 | any subsequence of the catalog with those multiplicities is the filter result, so the two properties specify the filter completely |
| `Matching.ExclusionWins` | app/api/search-jobs/route.ts:161-162 | a country on both lists never appears in the result |
| `Matching.AllIncludedExcludedMatchesNothing` | app/api/search-jobs/route.ts:161-162 | if every included country is also excluded, and in particular if the allow-list is empty, the result is empty |
| `Matching.MatchAllKept` | app/api/search-jobs/route.ts:160-163 | the filter returns the whole catalog unchanged exactly when every catalog job is kept |
| `Matching.MatchIdempotent` | app/api/search-jobs/route.ts:160-163 | filtering the result again with the same profile changes nothing |
| `SearchJobs.TestJob` | app/api/search-jobs/route.ts:160-163 | one call of the lambda throws when the profile or `countries` is missing, returns false for a country not on the allow-list, throws for an allow-listed country when `excludeCountries` is missing, and with both lists present returns exactly whether the profile keeps the job |
| `SearchJobs.FilterChecked` | app/api/search-jobs/route.ts:160-163 | the filter throws exactly when the lambda throws on some catalog job; otherwise it returns at most as many jobs as the catalog holds |
| `SearchJobs.Post` | app/api/search-jobs/route.ts:152-176 | a success carries `count` equal to the number of jobs and status 200; every failure is status 500 with the fixed generic message |
| `SearchJobs.FilterCheckedWellFormed` | app/api/search-jobs/route.ts:160-163 | with both lists present the filter never throws and returns exactly `Match` |
| `SearchJobs.FilterCheckedMissingExclusions` | app/api/search-jobs/route.ts:161-162 | without `excludeCountries` the filter throws exactly when a catalog job's country is on the allow-list, and otherwise keeps nothing |
| `SearchJobs.PostWellFormed` | app/api/search-jobs/route.ts:160-168 | a well-formed profile gets the matching catalog jobs and their number |
| `SearchJobs.PostMalformed` | app/api/search-jobs/route.ts:153-174 | an unparseable body, a missing profile or a missing `countries` gets the generic error and no job list |
| `SearchJobs.PostMissingExclusions` | app/api/search-jobs/route.ts:160-174 | a profile without `excludeCountries` gets the generic error exactly when its allow-list names a catalog country, and an empty list otherwise |
| `SearchJobs.PageProfileKeepsCatalog` | app/api/search-jobs/route.ts:14-163 | the page's profile (UK, Netherlands, Belgium, Ireland, Italy; excluding USA, Germany, France) keeps every catalog job |
| `SearchJobs.PageProfileGetsWholeCatalog` | app/api/search-jobs/route.ts:14-168 | the page's profile gets all fifteen catalog jobs in catalog order, with `count` 15 |
| `SearchJobs.SameCountryIncludedAndExcluded` | app/api/search-jobs/route.ts:160-168 | the profile that includes and excludes only UK gets no jobs and `count` 0 |

## Left out

- The 1.5-second `setTimeout` before filtering (route.ts:157): it only delays the answer.
- `NextResponse.json` serialisation and the `console.error` log line: the response is modelled as a datatype, and logging has no effect on it.
- JSON parsing is not modelled character by character. Its outcome is the `Request` datatype: unparseable (or `null`), or a body whose `profile` may be missing.
- JSON values of the wrong type are not modelled, for example a string where an array is expected. There `includes` would test for a substring.
- Profile fields the filter never reads (`name`, `experience`, `skills`, `jobTypes`) are not kept.
- The page component (app/page.tsx) is not part of this model. It holds React state, the `fetch` call and the rendering, including the visa labels. Its hard-coded profile appears only as the fixture `PageProfile`.
- app/layout.tsx is not part of this model: it is static metadata and markup.
- The catalog entries' text fields are not checked for being non-empty or for well-formed URLs. The code never checks them either.
