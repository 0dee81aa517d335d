# Simulation game release tracker — a Dafny model of its core

The tracker is a small browser page listing new releases of simulation
games. It asks a list of providers for their newest games, and the
aggregator (`services/aggregator.js`) then:

- normalises each raw record into a `Game` with defaults filled in;
- merges the records of one game, identified by lower-cased title and
  release date, combining their store listings and tags;
- asks an external text generator for summaries that are missing;
- sorts the result newest first.

The page (`main.js`) keeps the loaded games and the filter state. It offers
the stores found on load as filters, shows the games matching the search
text, the selected stores and the selected tags, and labels each store for
display. The only provider is a mock (`providers/mockProvider.js`) that
returns four fixed sample games, newest first, cut to a requested limit.

Modules:

- `Constants`, `Catalog`, `Text`: the store identifiers and default tags,
  the record shapes (JavaScript's missing fields are `Field.Undefined` or
  `Field.Null`), and the few string operations used (`toLowerCase`, `trim`,
  `slice`, `includes`).
- `Sequences`: "keep the first element of each key", the shape shared by
  `mergeSources`, `mergeTags` and the `Map` inside `dedupeGames`.
- `Dates`: ISO calendar dates, their day numbers, and a stable newest-first
  sort.
- `Normalizer`, `Deduplicator`, `Enricher`, `Aggregator`: the four stages
  of `fetchAllProviders`. Each `forEach` loop and the loop over providers
  is a method proved equal to a specification function; the `map` calls are
  functions. The properties are proved as lemmas
  about those functions.
- `MockProvider`: the sample games and `fetchNewReleases`.
- `View`: the filter predicate, the store labels, the card contents, and
  the page `state` as a class `App` whose methods are `loadGames` and the
  checkbox and search handlers.

Where the code and its documentation disagree, the model follows the code:

- A listing's store is kept whenever it is a non-empty string. Only a
  missing or empty store becomes `other`, so stores outside the six known
  ones pass through; `Normalizer.NormalizeSource` states this.
- A summary can stay empty after enrichment. This happens when the game
  has no summary and no description, and the generator fails or returns
  empty text. `Enricher.EnrichedSummaryEmpty` and
  `Enricher.EnrichCanLeaveEmpty` prove it.
- Listings are unique by store only inside games that were merged.
  `normalizeGame` keeps two listings of the same store from one record.

## Model

| member | source | states |
|---|---|---|
| Text.Lower | services/aggregator.js:102 | lower-casing keeps the length and folds each character on its own |
| Text.Prefix | services/aggregator.js:143 | `slice(0, n)` is a prefix of the text of length min(n, length) |
| Normalizer.DropRun | services/aggregator.js:83 | dropping a leading run of non-`[a-z0-9]` characters leaves a suffix that is empty or starts with a slug character |
| Normalizer.ReplaceRuns | services/aggregator.js:83 | after replacing each run of non-`[a-z0-9]` characters by one dash, only `a-z`, `0-9` and `-` remain, no two dashes are adjacent, the result is empty only for empty input, and it starts with a dash exactly when the input starts outside `[a-z0-9]` |
| Normalizer.ScanFromStart | services/aggregator.js:83 | the run replacement agrees with a left-to-right reading of the regular expression, character by character |
| Normalizer.ReplaceRunsKeepsSlugChars | services/aggregator.js:83 | replacing runs keeps every letter and digit, in order |
| Normalizer.ReplaceRunsLast | services/aggregator.js:83 | trailing runs are not trimmed: the slug ends in a dash exactly when the input ends outside `[a-z0-9]` |
| Normalizer.SlugFromTitle | services/aggregator.js:83 | a derived slug keeps the lower-cased letters and digits of the title in order, and starts or ends with a dash exactly when the lower-cased title starts or ends outside `[a-z0-9]` |
| Normalizer.NormalizeSource | services/aggregator.js:72-78 | a normalised listing always has a non-empty store and URL, keeps a truthy store unchanged, and keeps whether price and currency are present |
| Normalizer.NormalizeSources | services/aggregator.js:72-89 | a normalised game always has at least one listing |
| Normalizer.NormalizeGame | services/aggregator.js:71-92 | id, title and release date are copied, the provider name is recorded, there is at least one listing and every listing has a store and a URL, and a derived slug is slug text that is empty only for an empty title |
| Normalizer.NormalizedSources | services/aggregator.js:72-89 | a game without listings gets exactly one `other` listing with its own id and URL `#`; otherwise listing i keeps each truthy field of raw listing i, and a missing store, id or URL becomes `other`, the game id or `#`, and a missing price or currency becomes `null` |
| Normalizer.NormalizedDefaults | services/aggregator.js:83-88 | description and summary become "" when missing or empty, platforms become `["pc"]` only when missing, tags become `[]` when missing, a non-empty slug is kept, and otherwise the slug is derived from the title |
| Deduplicator.KeyIdentity | services/aggregator.js:102 | for dates of equal length, two games share a key exactly when their lower-cased titles and release dates are equal |
| Deduplicator.MergeSources | services/aggregator.js:116-122 | the merge keeps the first listing of each store from `a` then `b`, in first-seen order, so stores are unique and the stores are those of `a` and `b` together |
| Deduplicator.MergeTags | services/aggregator.js:124-134 | the merge keeps the first tag of each name from `a` then `b`, in first-seen order, so names are unique and the names are those of `a` and `b` together |
| Deduplicator.FindKey | services/aggregator.js:103 | a lookup finds a position holding the key, or reports that no position holds it |
| Deduplicator.AbsorbGame | services/aggregator.js:102-111 | one step of the `forEach`: a new key appends the game, a known key replaces the kept entry by the merge, and the key index stays exact |
| Deduplicator.DedupeGames | services/aggregator.js:99-114 | the loop computes the fold `Dedupe`; the result has one entry per key, and its keys are the keys of the input |
| Deduplicator.DedupeClosedForm | services/aggregator.js:99-114 | the fold equals its closed form: entry i is the first game of the i-th new key, with the listings and tags of its whole key group merged in input order |
| Deduplicator.DedupeKeys | services/aggregator.js:99-114 | the result is unique by key and covers exactly the input's keys |
| Deduplicator.DedupeFirstSeenWins | services/aggregator.js:103-111 | entry i is the first input game of its key, and differs from it only in listings and tags |
| Deduplicator.DedupeEntries | services/aggregator.js:103-111 | a key seen once yields its game unchanged; a key seen more than once yields an entry whose stores and tag names are unique |
| Deduplicator.DedupeOfUnique | services/aggregator.js:99-114 | input without duplicate keys comes back unchanged |
| Deduplicator.DedupeIdempotent | services/aggregator.js:99-114 | de-duplicating twice gives the same list as de-duplicating once |
| Deduplicator.DedupeCollision | services/aggregator.js:107-134 | two games with one key become one entry carrying the merged listings and tags; when the first game's stores (names) are unique, its listings (tags) come first, followed by the first of each new store (name) of the second |
| Deduplicator.DedupeKeepsListings | services/aggregator.js:107-111 | if every input game has a listing, every entry has one |
| Deduplicator.DedupeEntriesFromInput | services/aggregator.js:111 | every entry is an input game with only its listings and tags replaced |
| Sequences.FirstByFacts | services/aggregator.js:116-134 | keeping the first element of each key gives unique keys, the same key set, only input elements, and no more elements than the input |
| Sequences.FirstByFirstWins | services/aggregator.js:119 | every kept element is the first input element of its key |
| Sequences.FirstByOfUnique | services/aggregator.js:116-122 | input with unique keys is kept whole |
| Sequences.FirstByAbsorb | services/aggregator.js:109-111 | merging what was already merged with more input equals merging all of it at once |
| Sequences.FirstByAppend | services/aggregator.js:118-121 | merging `a + b` gives the merge of `a` followed by the merge of the part of `b` whose keys are new |
| Dates.InsertNewestFirst | services/aggregator.js:61 | one insertion step of the sort adds exactly the new element |
| Dates.InsertKeepsOrder | services/aggregator.js:61 | inserting into a newest-first list keeps it newest first |
| Dates.SortNewestFirst | services/aggregator.js:61 | the sort result is a permutation of its input, ordered newest first by calendar day |
| Dates.InsertReleasedOn | services/aggregator.js:61 | an insertion puts the new element before the other elements of its own day |
| Dates.SortIsStable | services/aggregator.js:61 | the sort is stable: the games released on any one day keep their input order |
| Enricher.Prompt | services/aggregator.js:141 | the prompt ends with the game's description |
| Enricher.Fallback | services/aggregator.js:143-146 | the fallback summary is the first 140 characters of the description, or all of a shorter one |
| Enricher.EnrichGame | services/aggregator.js:139-147 | only the summary changes; a summary with non-whitespace text is kept; otherwise non-empty generated text is used, and a failed call or empty text gives exactly the fallback, the first 140 characters of the description |
| Enricher.EnrichSummaries | services/aggregator.js:136-151 | one result per game, in order; result i is game i enriched with the generator's answer to its own prompt, so it differs only in the summary, and games with summary text are unchanged |
| Enricher.EnrichedSummaryEmpty | services/aggregator.js:139-146 | an enriched summary is empty exactly when the game had no summary text, its description is empty, and the generator failed or returned empty text |
| Enricher.EnrichCanLeaveEmpty | services/aggregator.js:143-146 | a game with empty summary and description keeps an empty summary whether the generator fails or returns empty text |
| Enricher.EnrichIdempotentOnText | services/aggregator.js:139 | a game whose enriched summary has text is left alone by a second enrichment, whatever the generator does |
| Enricher.EnrichKeepsIdentity | services/aggregator.js:136-151 | enrichment keeps the de-duplication keys and their uniqueness, and changes nothing but summaries |
| Aggregator.NormalizeAll | services/aggregator.js:50 | a provider's games are normalised one by one, in order, tagged with the provider's name |
| Aggregator.CallProviders | services/aggregator.js:45-59 | the loop over providers collects the normalised games of every provider that answers, in provider order, and one `"<name> unavailable"` message per provider that fails |
| Aggregator.CallStep | services/aggregator.js:47-55 | one provider call appends that provider's contribution to the games, and its message to the errors when it fails |
| Aggregator.ErrorsReportFailures | services/aggregator.js:51-54 | there is exactly one error per failing provider, each error names a failing provider, and there are no errors exactly when every provider answers |
| Aggregator.ContributionNormalized | services/aggregator.js:50 | every game a provider contributes is the normalised form of one of its games |
| Aggregator.ContributionIncludes | services/aggregator.js:50 | every game of an answering provider is contributed in normalised form |
| Aggregator.CollectedNormalized | services/aggregator.js:47-59 | every collected game is the normalised form of a game some answering provider returned |
| Aggregator.CollectedIncludes | services/aggregator.js:47-59 | every game an answering provider returned is collected in normalised form |
| Aggregator.CollectedExactly | services/aggregator.js:47-59 | a game is collected exactly when it is the normalised form of a game an answering provider returned |
| Aggregator.CollectedFacts | services/aggregator.js:47-50 | every collected game has a calendar release date, at least one listing, and the name of a provider that answered |
| Aggregator.DedupedFacts | services/aggregator.js:59 | every de-duplicated game still comes from an answering provider, with only listings and tags merged |
| Aggregator.EnrichedFacts | services/aggregator.js:59-60 | after enrichment the games all have calendar dates, come from answering providers, have unique keys, and cover exactly the keys collected |
| Aggregator.DatedFromProviders | services/aggregator.js:61 | games that come from well-formed providers all have calendar release dates |
| Aggregator.SortKeeps | services/aggregator.js:61 | sorting keeps each day's games in order, key uniqueness, the key set, and where each game comes from |
| Aggregator.PipelineFacts | services/aggregator.js:44-63 | the returned games are sorted newest first, are a permutation of the enriched games that keeps each day's order, have unique keys covering exactly the keys collected, and come from answering providers |
| Aggregator.FetchAllProviders | services/aggregator.js:44-63 | the method returns the pipeline's games and the error list, with every pipeline property above |
| MockProvider.SampleDates | providers/mockProvider.js:7-76 | the four samples carry the release dates 2024-06-12, 2024-05-28, 2024-06-05 and 2024-06-18, in that order |
| MockProvider.SampleTitles | providers/mockProvider.js:7-76 | the four samples carry their titles, in order |
| MockProvider.SamplesWellFormed | providers/mockProvider.js:7-76 | every sample has an ASCII title and a calendar release date |
| MockProvider.SortedCopy | providers/mockProvider.js:88 | the sorted copy is a permutation of the samples, newest first |
| MockProvider.SliceTo | providers/mockProvider.js:89 | `slice(0, end)` is a prefix of length min(end, length), and a negative end drops that many elements from the back |
| MockProvider.FetchFrom | providers/mockProvider.js:86-89 | the result is a prefix of the sorted copy and is newest first; a positive limit keeps min(limit, count) games, a negative limit drops that many, and no limit (absent or 0) returns the whole sorted copy |
| MockProvider.FetchFromIgnoresSince | providers/mockProvider.js:86 | options other than the limit have no effect |
| MockProvider.FetchNewReleases | providers/mockProvider.js:85-90 | the result is well formed, newest first, and a prefix of the sorted samples |
| MockProvider.FetchNewReleasesCount | providers/mockProvider.js:86-89 | a positive limit returns min(limit, 4) games, a negative limit returns max(4 + limit, 0), and no limit returns all four samples sorted |
| MockProvider.FetchIgnoresSince | providers/mockProvider.js:86 | two requests with the same limit get the same games |
| MockProvider.SortedSamples | providers/mockProvider.js:88 | the sorted samples are all four samples, newest first |
| View.Visible | main.js:158-169 | the visible games are a subsequence of the loaded games, and each game is shown as often as it is loaded if it matches the filters, and never otherwise |
| View.VisibleMembers | main.js:158-169 | a game is shown exactly when it is loaded and matches the filters |
| View.NoStoreShowsNothing | main.js:160 | with no store selected nothing is shown |
| View.MoreStoresShowMore | main.js:160 | selecting more stores never hides a game: the old view is a subsequence of the new one |
| View.AllStoresShowAll | main.js:159-167 | with no search text, no tag selected, and every store of every game selected, all games are shown in order |
| View.FreshSelectionShowsAll | main.js:42-44 | after the stores found on load are selected on a fresh page, every loaded game is shown |
| View.StoresOfListings | main.js:43 | the stores collected on load are exactly the stores of the loaded games' listings |
| View.FormatStore | main.js:181-196 | a store is labelled "Other" exactly when it is not one of the five named stores, and every label is one of the six |
| View.StoreLabels | main.js:183-192 | `steam`, `steamdb`, `itch`, `gog` and `epic` are labelled "Steam", "SteamDB", "itch.io", "GOG" and "Epic" |
| View.FormatStoreDistinguishes | main.js:181-196 | different named stores get different labels, and `other` is labelled "Other" |
| View.CardSummary | main.js:108 | a card shows the summary when there is one, otherwise the first 140 characters of the description |
| View.CardSummaryBlank | main.js:108 | a card summary is blank only for a game with neither summary nor description, and after enrichment it shows the enriched summary when that is non-empty |
| View.CardTags | main.js:111-123 | a card shows the names of the first four tags in order, or only the "No tags yet" placeholder when there are none |
| View.MockAnswers | main.js:15 | the mock provider answers the aggregator's request with well-formed games |
| View.ProviderListAdmissible | main.js:15 | the page's provider list meets the aggregator's requirements |
| View.ProviderListNoErrors | main.js:15 | loading with the page's provider list reports no error |
| View.Status | main.js:48 | with no error the status is "Showing latest mock releases.", and a single error is shown as it is |
| View.Join | main.js:48 | joining one part gives that part |
| View.App.constructor | main.js:5-13 | a fresh page has no games and empty filters |
| View.App.LoadGames | main.js:38-49 | the page shows the pipeline's games for its provider list; when no store was selected, every store of the loaded games becomes selected, otherwise the filters stay; on a fresh page all loaded games are visible; the status is the no-error message |
| View.App.Show | main.js:41-44 | storing the loaded games, and selecting their stores only when no store was selected |
| View.App.SelectAllStores | main.js:43 | the outer loop adds the stores of every loaded game to the selection |
| View.App.SelectStores | main.js:43 | the inner loop adds the store of every listing of one game to the selection |
| View.App.CheckSource | main.js:69-73 | checking a store adds it and unchecking removes it; checking never hides a visible game, and unchecking never shows a hidden one |
| View.App.CheckTag | main.js:85-89 | checking a tag adds it and unchecking removes it, and nothing else changes |
| View.App.SetSearch | main.js:25-28 | the search text becomes the lower-cased input, and nothing else changes |

## Left out

- Rendering: building the DOM for filters, cards and the detail panel is
  left out. The model keeps only what the page shows: the filter predicate,
  card summaries, tag chips and store labels. `renderDetail`,
  `selectedGameId` and `formatDate` (locale formatting) are not modelled.
- The text generator (`services/gemini.js`) is not part of this model. It
  is an oracle parameter `generate(i, prompt)` giving how the call for the
  i-th game settles. Its model name, request shape and the console warning
  are left out.
- Concurrency: `Promise.all` runs provider calls and generator calls
  concurrently. The model calls them in list order. Error messages are
  therefore listed in provider order, not in the order the failures
  settle.
- Providers are parameters: a provider is a name and a total function from
  options to games-or-failure. A failure is modelled as `Unavailable`,
  without the thrown value. The console logging of failures is left out.
- Dates: the sort compares calendar day numbers of ISO `YYYY-MM-DD` dates.
  Providers must return such dates and ASCII titles (`Aggregator.Admissible`).
  The model does not cover `NaN` comparisons from malformed dates, time
  zones, or the engine's choice of sort algorithm; stability, which the
  language guarantees, is proved for the model's own sort.
- `Text.Lower` folds only `A`-`Z`. It is exact for ASCII text, which is why
  titles are required to be ASCII. The search text is lower-cased the same
  way.
- String lengths count UTF-16 code units in JavaScript; the model counts
  characters. Titles are ASCII, so this matters only for descriptions:
  `Enricher.Fallback` and `View.CardSummary` keep the first 140 characters,
  whereas `slice(0, 140)` keeps 140 code units and can split a surrogate
  pair when a description holds characters outside the Basic Multilingual
  Plane.
- Exceptions inside normalisation are not modelled: a raw game always has a
  title and listings are never `null`. In the source, `normalizeGame`
  throws inside the provider's `try` when the title is missing and there is
  no slug, when a listing is `null`, or when the provider's result is not
  an array, and the whole provider is then reported as `"<name>
  unavailable"` with no games. A game with no title but a truthy slug
  passes normalisation and then makes `dedupeGames` throw outside the
  `try`, so `fetchAllProviders` itself rejects.
- `MockProvider.FetchNewReleases`: the limit is an integer; fractional
  limits, and a `since` value that should filter by recency, are not
  modelled (the mock ignores `since`).
- `MockProvider.SortedSamples`: the order of the four sorted samples is
  stated as a newest-first permutation, not as the literal list of games.
- The sample list is a constant. That the mock's sort copies the array
  before sorting, so the samples keep their order, holds by construction
  of values and is not stated separately.
- `View.Join`: its contract covers only the zero- and one-part cases the
  page can reach with a single provider; the separator placement for
  several parts is only the body.
- `View.App.LoadGames`: the "Loading providers..." status set before the
  fetch and the refresh button's disabled state are not modelled.
- Store identifiers are strings, not an enumeration, because the code keeps
  any non-empty store string.
