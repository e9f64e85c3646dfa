# Provider search API — a Dafny model

This project models the request logic of a healthcare-provider directory API
(NPI registry records with Medicare billing statistics), as implemented in its
provider controller:

- **Search** (`GET /api/providers/search`): optional query parameters become a
  `where` filter, built one parameter at a time. The filter holds a
  case-insensitive name/organisation clause, an exact state clause, a
  "has a primary taxonomy with this code" clause and one "has a Medicare service
  that meets every supplied bound" clause. Each is added only when its
  parameter is truthy in the JavaScript sense. The matches are ordered by
  `provider_name`, and one page of them is cut out with `skip = (page-1)*limit`
  and `take = limit`. The response also carries the count of all matches and
  echoes `page` and `limit`.
- **Filter values** (`GET /api/providers/filters`): the distinct non-NULL state
  codes and the distinct non-NULL primary taxonomy codes, each in ascending
  order.
- **Detail** (`GET /api/providers/{npi}`): a lookup by NPI. It yields 404 when
  nothing is found. Otherwise the record is reshaped into the public detail
  view, and a Medicare summary is folded over its service rows.

The database is a value: a sequence of provider records, each carrying its
taxonomy rows and Medicare service rows in stored order. The page query and the
count query read the same sequence. NULL columns are `Option` values. Money
amounts and counts are integers (money in whole cents).

Files, one module each: `wrappers.dfy` (Option), `records.dfy` (row and view
shapes), `text.dfy` (case-insensitive `contains`), `ordering.dfy` (text order,
distinct sorted lists), `search_filter.dfy` (the `where` value, its meaning,
and `BuildWhere`), `search.dfy` (ordering, paging, `SearchProviders`),
`filter_values.dfy`, `details.dfy`.

Facts about the code that the model keeps:

- `page` and `limit` default to 1 and 10 only when they are absent
  (src/controllers/providers.controller.ts:15-16, and the route schema's
  defaults at src/routes/providers.routes.ts:18-19). A `page=0` sent explicitly
  is kept, and its negative skip is refused by the storage client.
- The Medicare bounds are wrapped in `some: { AND: [...] }`
  (src/controllers/providers.controller.ts:45-58), so all of them must be met
  by one and the same service row.
- Search results are the stored records, passed on unchanged
  (src/controllers/providers.controller.ts:86-91). NULL columns stay NULL.
- The route schema declares a 408 timeout reply
  (src/routes/providers.routes.ts:65-72) that the controller never produces.
  The model has no timeout.
- Results are ordered by `provider_name` alone
  (src/controllers/providers.controller.ts:65), and each page is a query of
  its own. When two matches share a name, separate page queries may order them
  differently, so a match can be shown twice or not at all
  (`Search.TiedNamesLeaveOrderOpen`). With unique names the order is forced and
  paging is exact (`Search.NameOrderIsForced`, `Search.EveryMatchIsOnItsPage`).

## Model

| member | source | states |
|---|---|---|
| `SearchFilter.BuildWhere` | src/controllers/providers.controller.ts:25-58 | The `OR` clause is present iff `query` is truthy. `state` is set iff `state` is truthy. The taxonomy clause is (specialty, primary = true) iff `specialty` is truthy. The Medicare clause is present iff any of the six Medicare parameters is truthy, and then its AND list is non-empty with no `{}` entries. A provider satisfies the built filter (`SearchFilter.Eval`, the meaning of the `where` value) iff it satisfies the request (`Satisfies`) |
| `SearchFilter.NameClauseMeansNameMatches` | src/controllers/providers.controller.ts:26-31 | The two-entry `OR` clause holds iff `provider_name`, or a non-NULL `organization_name`, contains the query ignoring case |
| `SearchFilter.BoundListMeansWithinBounds` | src/controllers/providers.controller.ts:48-55 | A service row meets the filtered AND list iff it meets every supplied bound at once: count ≥ min and ≤ max, payment ≥ min and ≤ max, equal code, equal year. A falsy bound adds no conjunct |
| `SearchFilter.ServiceClauseMeansMedicareFilter` | src/controllers/providers.controller.ts:45-58 | The Medicare clause holds iff some single service row of the provider meets every supplied bound |
| `SearchFilter.BuiltFilterMeansRequest` | src/controllers/providers.controller.ts:25-58 | A filter holding exactly the clauses of the truthy parameters is satisfied iff the provider satisfies every supplied parameter |
| `SearchFilter.DropUnconstrainedKeepsMeaning` | src/controllers/providers.controller.ts:55 | Dropping the `{}` entries does not change which service rows meet the AND list |
| `SearchFilter.BoundListNonEmpty` | src/controllers/providers.controller.ts:45-55 | When the Medicare clause is added, at least one bound survives the filter |
| `SearchFilter.DropUnconstrained` | src/controllers/providers.controller.ts:55 | The `.filter` keeps exactly the non-empty conditions and never adds any |
| `SearchFilter.BoundsAreNotMetAcrossServices` | src/controllers/providers.controller.ts:46-57 | Two services that each meet one of two bounds do not make a match. The bounds are joint, not independent per service |
| `SearchFilter.UnreadParametersConstrainNothing` | src/controllers/providers.controller.ts:11-23 | `provider_type` and `has_medicare` are never read: the filter built for a request is also the one built with any other values for them, and it selects the providers that satisfy the request with any such values |
| `Search.Filter` | src/controllers/providers.controller.ts:61-62 | A record is kept iff it is stored and satisfies the filter. Nothing is added |
| `Search.Matches` | src/controllers/providers.controller.ts:61-62 | The request's matches: exactly the stored records that satisfy the request |
| `Search.QueriesAnswerRequest` | src/controllers/providers.controller.ts:60-84 | Given a filter that agrees with the request: the count is the number of matches. The page query fails iff skip or limit is negative. Otherwise it returns the window of the name-ordered matches, at most `limit` long, name-ordered, made of stored records that satisfy the request |
| `Search.SortKeepsMembers` | src/controllers/providers.controller.ts:65 | Ordering neither adds nor loses a record |
| `Search.FilterSelectsMatches` | src/controllers/providers.controller.ts:60-84 | A filter that agrees with the request on every record selects exactly the request's matches, in stored order |
| `Search.MatchesIgnorePaging` | src/controllers/providers.controller.ts:83 | The match set, and so the total, is the same whatever `page` and `limit` are |
| `Search.InsertByName` | src/controllers/providers.controller.ts:65 | Inserting into a name-ordered list keeps it ordered and adds exactly that record |
| `Search.SortByName` | src/controllers/providers.controller.ts:65 | The result is ordered by `provider_name` ascending and is a permutation of the input |
| `Search.Window` | src/controllers/providers.controller.ts:63-64 | The page holds at most `take` records: the slice starting at `skip`, or nothing when `skip` is past the end |
| `Search.SearchProviders` | src/controllers/providers.controller.ts:11-91 | Fails iff skip or limit is negative. Otherwise `page` and `limit` are echoed with defaults 1 and 10 when absent, and `total` is the number of all matches. The page is the window at `(page-1)*limit` of the name-ordered matches, holds at most `limit` records, and is name-ordered. Every record in it is stored and satisfies the request |
| `Search.EveryMatchIsOnItsPage` | src/controllers/providers.controller.ts:63-65 | When no two matches share a name and the limit is positive: whatever name-ordered arrangement of the matches the database uses for a page query, the `i`-th match in name order is entry `i % limit` of page `i / limit + 1` |
| `Search.NameOrderIsForced` | src/controllers/providers.controller.ts:65 | Two name-ordered arrangements of the same records with unique names are equal |
| `Search.TiedNamesLeaveOrderOpen` | src/controllers/providers.controller.ts:63-65 | Two records with the same name are name-ordered either way round, and the first page of one record differs between the two arrangements |
| `Search.FindMany` | src/controllers/providers.controller.ts:61-82 | Fails iff skip or take is negative. Otherwise at most `take` records, name-ordered, each stored and satisfying the filter |
| `Search.Count` | src/controllers/providers.controller.ts:83 | At most the number of stored records, and 0 iff no stored record satisfies the filter |
| `Ordering.DistinctSorted` | src/controllers/providers.controller.ts:99-111 | `SELECT DISTINCT … ORDER BY`: the result is strictly ascending and holds exactly the values of the input |
| `Ordering.Insert` | src/controllers/providers.controller.ts:99-111 | Adding a value to a strictly ascending list keeps it strictly ascending and adds exactly that value |
| `Ordering.StrictlySortedIsDistinct` | src/controllers/providers.controller.ts:100 | A strictly ascending list has no duplicates |
| `FilterValues.StateColumn` | src/controllers/providers.controller.ts:100-103 | Holds exactly the non-NULL states of stored providers |
| `FilterValues.PrimaryCodesOf` | src/controllers/providers.controller.ts:106-109 | Holds exactly the non-NULL codes of taxonomy rows marked primary |
| `FilterValues.PrimaryCodeColumn` | src/controllers/providers.controller.ts:106-109 | Holds exactly the primary codes of all stored providers |
| `FilterValues.GetProviderFilters` | src/controllers/providers.controller.ts:94-117 | Both lists are strictly ascending and duplicate-free. `states` holds exactly the non-NULL provider states. `specialties` holds exactly the non-NULL codes of primary taxonomies |
| `Details.FindUnique` | src/controllers/providers.controller.ts:126-127 | Returns nothing iff no stored record has the NPI. Otherwise it returns a stored record with that NPI |
| `Details.FindUniqueFindsTheRecord` | src/controllers/providers.controller.ts:126-127 | With unique NPIs the lookup returns the one record that has the NPI |
| `Details.ReduceAddsColumnSums` | src/controllers/providers.controller.ts:159-165 | The fold adds, to each running total, the sum of its column over the rows, NULL counted as 0 |
| `Details.SummaryTotalsAreColumnSums` | src/controllers/providers.controller.ts:159-171 | Each of the five totals of `Details.Summarize` is the sum of its column over all service rows, NULL counted as 0. No rows gives an all-zero summary |
| `Details.SummaryIsAdditive` | src/controllers/providers.controller.ts:159-171 | The summary of two runs of rows is the sum of their summaries |
| `Details.FormatTaxonomies` | src/controllers/providers.controller.ts:196-201 | Same length. Entry `i` is built from taxonomy row `i` |
| `Details.FormatServices` | src/controllers/providers.controller.ts:204-214 | Same length. Entry `i` is built from service row `i` |
| `Details.ListedSumIsColumnSum` | src/controllers/providers.controller.ts:204-214 | Summing a figure over the listed services equals summing its column over the rows |
| `Details.DetailIsFaithful` | src/controllers/providers.controller.ts:174-216 | In the view built by `Details.FormatProvider`, every field is copied under its public name with NULLs kept (`address_1` → `line1`, …). Taxonomies and services map one to one and in order. NULL counts and amounts are listed as 0. Each summary total equals both the column sum over the rows and the sum of the listed figures |
| `Details.GetProviderDetails` | src/controllers/providers.controller.ts:153-156 | Not found (status 404, body `{ error: 'Provider not found' }`) iff no stored record has the NPI. Otherwise the reply is the detail view of a stored record with that NPI |
| `Text.ExactOccurrenceMatches` | src/controllers/providers.controller.ts:28-29 | An exact occurrence also matches the case-insensitive `contains` |
| `Text.CaseIsIgnored` | src/controllers/providers.controller.ts:28-29 | Lower-casing the needle or the text does not change whether it matches |

## Left out

- The database engine and the raw SQL are modelled as pure functions over a
  sequence of records. Concurrency between the page and count queries
  (`Promise.all`) is not modelled: both read one snapshot.
- Case-insensitive matching folds ASCII letters only. The database's own
  Unicode and locale rules are not modelled.
- Text ordering (`ORDER BY`) is code-point lexicographic order. Database
  collations are not modelled. Records with equal names keep their stored
  order, a tie-break the database does not promise. The paging lemmas that hold
  for any order the database picks assume unique names.
- `Search.FindMany`, `Search.SearchProviders`, `Search.QueriesAnswerRequest`: a negative `skip` (an explicit `page` of 0 or less with a
  positive limit) is refused by the storage client. A negative `take` means
  reverse paging to that client; that is not modelled. Both yield the storage
  failure (`None`), which the caller reports as a server error.
- JavaScript numbers: amounts and counts are integers, so `Number(...)` on
  decimal money, floating-point rounding, NaN and fractional `page`/`limit`
  values are not modelled.
- Storage and network errors, logging and the 500 reply are outside the model.
  So are the route schemas, the server start-up, the health check and the
  diagnostic scripts.
- The documented "max 100" on `limit` is not enforced by the code and is not an
  invariant here.
