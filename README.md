# OpenAlex client for Laravel: the query builder and the `Work` record

This project models, in Dafny, the core of a Laravel client for the OpenAlex
scholarly-metadata API:

- **The fluent query builder** (`src/Builder.php`). It holds the following state:
  - the filter clauses;
  - an insertion-ordered sort map;
  - a search term;
  - a field selection;
  - a cache directive.

  The builder turns this state into a query payload and URLs. It sends
  requests through a retried HTTP client and reads `404` as "not found" and
  other failures as errors. It caches bodies under `openalex_` + SHA-1 of
  the URL, and pages through results with `paginate` and `cursor`.
- **The `Work` record** (`src/DTOs/Work.php`). It rebuilds an abstract from
  OpenAlex's inverted index and renders a BibTeX entry.

The project has five modules:

| module | file | what it holds |
|---|---|---|
| `JsonValues` | `json.dfy` | decoded JSON bodies and the `Option`/`Result` wrappers |
| `Text` | `text.dfy` | PHP's `implode`, `explode`, `str_replace` with an empty replacement, integer interpolation, and Laravel's `Str::snake` |
| `Services` | `services.dfy` | the HTTP client and the cache store |
| `QueryBuilder` | `builder.dfy` | the builder |
| `Works` | `work.dfy` | the `Work` record |

`Services` models the HTTP client as a class that serves a scripted sequence
of outcomes and logs every request sent, so "how many requests went out" can
be stated. It models the cache store as a class holding a map.

The `Builder` class keeps the PHP object's fields and updates them in place.
Each of its methods is proved against a specification function of the inputs
and the old state:
- `Payload` for the query payload;
- `Cached` and `Stored` for the cache;
- `Classify` and `Attempts` for a request;
- `Walk` for the cursor.

The properties are proved about those functions. `getAbstract` keeps the
source's form. It is a method with nested loops that fill a position table
and then sort its keys. It is proved equal to `AbstractOf`, a recursive
definition of the reconstruction. That definition is then shown to:
- invert an inverted index of distinct words;
- let the later posting win a shared position;
- emit exactly one token per position.

`toBibTeX` is pure. Its entry is proved to split back into exactly its seven
template lines.

Two behaviours of the code are worth noting:

- **Gaps in the abstract.** `getAbstract` does not fill gaps between
  positions with empty tokens. It joins the words of the positions present,
  in ascending order.
- **The null-safe journal lookup.** In `toBibTeX` (`Work.php:71`), the
  `?->` and `??` chain falls back to `Unknown Journal` both when the
  primary location is missing and when its source is missing.

## Model

| member | source | states |
|---|---|---|
| `Text.JoinAppend` | src/Builder.php:224-225 | implode of parts with one more part appended is the old implode plus separator plus that part, or the part alone when there were none |
| `Text.Split` | src/DTOs/Work.php:66 | `explode` on one character gives at least one piece and no piece holds the delimiter |
| `Text.JoinSplit` | src/DTOs/Work.php:66 | joining the pieces of an `explode` with the delimiter restores the string |
| `Text.SplitJoin` | src/DTOs/Work.php:75-83 | pieces free of the delimiter, joined with it and split again, come back unchanged |
| `Text.LastToken` | src/DTOs/Work.php:66-67 | `end(explode(' ', $name))` holds no space, is a suffix of the name, and is the whole name or follows a space |
| `Text.LastTokenWhole` | src/DTOs/Work.php:66-67 | a name without a space is its own last token |
| `Text.LastTokenAfterSpace` | src/DTOs/Work.php:66-67 | the last token of `a + " " + b`, where `b` has no space, is `b` |
| `Text.RemoveAll` | src/DTOs/Work.php:73 | `str_replace($pat, '', $s)` never makes the string longer |
| `Text.RemoveAfter` | src/DTOs/Work.php:73 | text that cannot start an occurrence is kept, the occurrence after it is removed, and removal goes on in the rest |
| `Text.RemoveAllJoin` | src/DTOs/Work.php:73 | pieces that cannot start an occurrence, joined by the pattern: removal takes out every joining occurrence and leaves the pieces, in order |
| `Text.RemoveAllAbsent` | src/DTOs/Work.php:73 | a string with no occurrence of the pattern is left as it is |
| `Text.RemoveLeading` | src/DTOs/Work.php:73 | a leading occurrence is removed, and an occurrence-free rest is kept whole |
| `Text.NatToString` | src/DTOs/Work.php:80 | the decimal rendering is non-empty, all digits, and has no leading zero |
| `Text.IntToString` | src/DTOs/Work.php:80 | `"{$int}"` is non-empty and starts with `-` exactly when the integer is negative. Without the sign it is the decimal rendering of the magnitude and reads back as that number |
| `Text.ParseNatToString` | src/DTOs/Work.php:80 | the decimal rendering reads back as the same number |
| `Text.LowerUcWordsDropBlanks` | src/Builder.php:214 | once blanks are removed, lower-casing undoes `ucwords`' upper-casing of word starts |
| `Text.DropBlanks` | src/Builder.php:214 | the `\s+` removal keeps exactly the non-blank characters and never lengthens the string |
| `Text.DropBlanksConcat` | src/Builder.php:214 | the removal works character by character: it distributes over concatenation and keeps a single character exactly when it is not blank |
| `Text.SnakeOnlySeparates` | src/Builder.php:214 | `Str::snake` only lower-cases, drops blanks and inserts `_`: with `_` removed it equals the lower-cased, blank-free input, and it holds no upper-case letter |
| `Text.LowerAllConcat` | src/Builder.php:214 | lower-casing distributes over concatenation |
| `Text.SnakePublicationYear` | src/Builder.php:213-215 | `Str::snake('PublicationYear')` is `publication_year` |
| `Services.Attempts` | src/Builder.php:279-281 | `retry(3, …)` makes one to three attempts. Every attempt before the last failed: a connection failure, or a status of 400 and above, which `throw()` raises. Fewer than three means the last one was final: a response below 400 |
| `Services.RetryThenSucceed` | src/Builder.php:279-281 | a failed attempt followed by a final one costs two requests and returns the final response |
| `Services.RetryGivesUp` | src/Builder.php:279-281 | three failed attempts exhaust the retrying, and the third one is what the call returns |
| `Services.FakeHttp.Get` | src/Builder.php:279-281 | one retried GET returns the outcome of its last attempt and logs the request once per attempt |
| `QueryBuilder.UpsertKeys` | src/Builder.php:54-59 | `$sortBy[$key] = $dir` keeps the key order when the key exists, otherwise appends the key |
| `QueryBuilder.UpsertDirections` | src/Builder.php:54-59 | after `sortBy` the key has the new direction and every other key keeps its own |
| `QueryBuilder.UpsertTwice` | src/Builder.php:54-59 | sorting by a key twice is the same as sorting by it once with the later direction |
| `QueryBuilder.UpsertDistinct` | src/Builder.php:54-59 | the sort map never holds a key twice |
| `QueryBuilder.LookupAppend` | src/Builder.php:221-247 | a name is looked up in the first part of a payload before the second |
| `QueryBuilder.PayloadParams` | src/Builder.php:221-247 | the payload holds only `filter`, `search`, `sort` and `select`, in that order. Each is present exactly when its source is non-empty (for `search`: set and PHP-truthy) and carries the comma-join of its source |
| `QueryBuilder.PayloadOrder` | src/Builder.php:221-247 | the payload's keys come in the fixed order and no other key occurs |
| `QueryBuilder.FilterAfterAppend` | src/Builder.php:224-226 | appending a clause extends the rendered `filter` by a comma and that clause |
| `QueryBuilder.ExamplePayload` | tests/BuilderTest.php:18-35 | the URL test's chain renders `filter`, `search`, `sort` and `select` exactly as the test expects |
| `QueryBuilder.FindByDoiUrl` | tests/BuilderTest.php:71-77 | `findByDoi('10.123/test')` requests `https://api.openalex.org/works/doi:10.123/test` |
| `QueryBuilder.Directive` | src/Builder.php:295-309 | no caching exactly when there is no TTL and no forever flag. The forever flag wins over any TTL. Otherwise the TTL is used |
| `QueryBuilder.Stored` | src/Builder.php:301-308 | only a miss with a non-null body adds an entry, under the key. Existing entries are never changed, and an uncached call leaves the store alone |
| `QueryBuilder.SecondCallHits` | tests/BuilderTest.php:121-141 | with caching on, a call that stored a body makes the next call with the same key a hit that returns the same result without any request |
| `QueryBuilder.ClassifyOutcomes` | src/Builder.php:277-292 | `makeRequest`'s result, case by case: null for 404 or an empty body; an API error with the reason and status for other statuses of 400 and above; a connection error propagated; otherwise the body, which must be an array |
| `QueryBuilder.ResultsOf` | src/Builder.php:97 | `$response['results'] ?? []` is the results list when the body has one, and empty for a null body or one without `results` |
| `QueryBuilder.ErrorsAfterAllTries` | src/Builder.php:279-291 | an API error or a connection error is only returned after all three attempts failed |
| `QueryBuilder.MapAllAppend` | src/Builder.php:202-204 | mapping distributes over the concatenation of pages |
| `QueryBuilder.CallPage` | src/Builder.php:199-200 | a cursor page takes the retried request's attempts; it fails exactly when the request fails, and then has no results |
| `QueryBuilder.WalkOnCases` | src/Builder.php:193-207 | after a page the cursor stops on an error or an empty page, and goes on with the next page otherwise |
| `QueryBuilder.OnTrackStep` | src/Builder.php:193-207 | one turn of the do-while keeps what was collected plus the rest of the walk equal to the whole walk |
| `QueryBuilder.CursorStopsAtFirstEmptyPage` | src/Builder.php:187-209 | served pages that are non-empty up to an empty one: the cursor yields the earlier pages' results in order, requests pages `1, 2, …` once each, and stops at the empty page |
| `QueryBuilder.ServedUntilEmptyIndexed` | src/Builder.php:193-207 | the served-pages condition in indexed form |
| `QueryBuilder.CursorThreePages` | tests/BuilderTest.php:104-119 | pages of two, two and no items give the four items in order through exactly three requests |
| `QueryBuilder.PageServed` | src/Builder.php:199-200 | a served 200 page is taken at the first attempt and yields its `results` |
| `QueryBuilder.WalkServedPage` | src/Builder.php:193-207 | a served empty page ends the walk; a served non-empty page is followed by the next page |
| `QueryBuilder.Dispatch` | src/Builder.php:212-219 | `__call` succeeds exactly for a `where…` name with a usable first argument, giving the clause keyed by the snake case of the rest of the name. Any other name is refused with `Method … does not exist.` |
| `QueryBuilder.DispatchWhere` | src/Builder.php:213-215 | `where` + suffix with a usable argument always gives that suffix's snake-cased clause |
| `QueryBuilder.DispatchPublicationYear` | tests/BuilderTest.php:38-44 | `wherePublicationYear(2022)` appends `publication_year:2022` |
| `QueryBuilder.Builder.constructor` | src/Builder.php:22-31 | a new builder has no filters, sorts, search, selection or cache directive |
| `QueryBuilder.Builder.Where` | src/Builder.php:33-38 | appends `key:value` to the filters |
| `QueryBuilder.Builder.WhereIn` | src/Builder.php:40-45 | appends `key:` and the values joined by `\|` |
| `QueryBuilder.Builder.WhereHas` | src/Builder.php:102-107 | appends `relation:value` |
| `QueryBuilder.Builder.Search` | src/Builder.php:47-52 | replaces the search term |
| `QueryBuilder.Builder.SortBy` | src/Builder.php:54-59 | upserts the key into the sort map, keeping its keys distinct |
| `QueryBuilder.Builder.SortByRelevance` | src/Builder.php:61-64 | upserts `relevance_score` with the default `desc` |
| `QueryBuilder.Builder.Select` | src/Builder.php:66-71 | replaces the selection with the given fields |
| `QueryBuilder.Builder.CacheFor` | src/Builder.php:141-146 | sets the TTL; seconds become an expiry instant from the clock reading. The forever flag, if set, still wins |
| `QueryBuilder.Builder.CacheForever` | src/Builder.php:148-153 | sets the forever flag, and caching is then forever |
| `QueryBuilder.Builder.DisableCache` | src/Builder.php:155-161 | clears both, so calls go straight to the network |
| `QueryBuilder.Builder.Call` | src/Builder.php:212-219 | a `where…` call appends its clause. Any other call reports the error and leaves the filters unchanged |
| `QueryBuilder.Builder.BuildQueryPayload` | src/Builder.php:221-247 | the loop-built payload equals `Payload` of the builder's state |
| `QueryBuilder.Builder.SortParams` | src/Builder.php:233-237 | the loop renders one `key:direction` per sort entry, in order |
| `QueryBuilder.Builder.ToUrl` | src/Builder.php:260-263 | the collection URL for the builder's payload |
| `QueryBuilder.Builder.MakeRequest` | src/Builder.php:277-292 | one retried GET, classified; the request is logged once per attempt |
| `QueryBuilder.Builder.ExecuteCacheable` | src/Builder.php:295-309 | returns `Cached` and leaves the store as `Stored`. A hit sends no request; otherwise one request is sent per attempt |
| `QueryBuilder.Builder.Find` | src/Builder.php:73-86 | fetches `{base}/{entity}/{id}` through the cache. Null stays null and a body becomes one record. The store becomes `Stored`; a hit sends nothing, a miss sends the request once per attempt |
| `QueryBuilder.Builder.FindBy` | src/Builder.php:110-126 | the same for `{base}/{entity}/{type}:{value}`, with the same store and request log |
| `QueryBuilder.Builder.FindByDoi` | src/Builder.php:129-132 | `findBy('doi', …)`: its result, store and request log |
| `QueryBuilder.Builder.FindByOrcid` | src/Builder.php:135-138 | `findBy('orcid', …)`: its result, store and request log |
| `QueryBuilder.Builder.Get` | src/Builder.php:91-99 | the mapped `results` of the collection request; errors propagate and a 404 gives no items. The store becomes `Stored`; a hit sends nothing, a miss sends the request once per attempt |
| `QueryBuilder.Builder.GetTwice` | tests/BuilderTest.php:121-141 | with caching on, a second identical `get()` after one that stored a body returns the same records, and the pair sends only the first call's requests |
| `QueryBuilder.Builder.Paginate` | src/Builder.php:164-184 | fetches with `per-page` and `page` appended, and returns the mapped items, `meta.count` (0 when absent), the page size and the page number. Store and request log as for `get()` |
| `QueryBuilder.Builder.FetchPage` | src/Builder.php:193-200 | one cursor page, outside the cache, equal to `CallPage` |
| `QueryBuilder.Builder.CursorPage` | src/Builder.php:193-207 | one turn of the do-while keeps the loop on track with `Walk` |
| `QueryBuilder.Builder.Cursor` | src/Builder.php:187-209 | the records yielded, how the run ended, and the requests sent are exactly those of `Walk` from page 1 |
| `Works.PlaceWord` | src/DTOs/Work.php:43-45 | writing a word at its positions: those positions map to the word, and every other entry is unchanged |
| `Works.InsertKey` | src/DTOs/Work.php:47 | inserting into ascending keys keeps them ascending and adds the key |
| `Works.SortKeys` | src/DTOs/Work.php:47 | `ksort`'s key order: ascending, each key once, the same keys |
| `Works.AllPositionsPlaced` | src/DTOs/Work.php:41-47 | the table's keys are exactly the positions listed in the index |
| `Works.SortedPlaced` | src/DTOs/Work.php:47-49 | every sorted position has a word in the table |
| `Works.GetAbstract` | src/DTOs/Work.php:35-50 | the nested loops, `ksort` and `implode` give exactly `AbstractOf`: null without an index, otherwise the reconstruction |
| `Works.KeySort` | src/DTOs/Work.php:47 | the sort loop's keys are ascending and are the same keys |
| `Works.AscendingUnique` | src/DTOs/Work.php:47 | two ascending key sequences with the same keys are equal, so `ksort`'s order is unique |
| `Works.PlacedIffClaimed` | src/DTOs/Work.php:41-46 | a position is in the table exactly when some posting lists it |
| `Works.PlacedFrom` | src/DTOs/Work.php:41-46 | each table entry holds the word of some posting |
| `Works.LaterWins` | src/DTOs/Work.php:42-45 | a position listed by a posting and by no later one holds that posting's word |
| `Works.OneTokenPerPosition` | src/DTOs/Work.php:47-49 | with space-free words and at least one position, the abstract has exactly one token per distinct position, in ascending position order |
| `Works.RoundTrip` | src/DTOs/Work.php:35-50 | the inverted index of distinct words reconstructs to those words joined by spaces |
| `Works.IndexPlaces` | src/DTOs/Work.php:41-46 | for an inverted index, the table holds exactly the word positions |
| `Works.IndexWords` | src/DTOs/Work.php:41-46 | for an inverted index, the table holds the word found at each position |
| `Works.TwoPostings` | src/DTOs/Work.php:41-49 | two one-position postings come out in position order with no filler for a gap, and the later one wins a shared position |
| `Works.Sequential` | src/DTOs/Work.php:35-50 | distinct words, each at its own position, read back as those words joined by spaces |
| `Works.FixtureAbstract` | tests/WorkDtoTest.php:6-25 | the fixture's abstract is `This is a test abstract.`, and a null index gives null |
| `Works.LastName` | src/DTOs/Work.php:64-68 | the key's name part holds no space |
| `Works.BibTeXLines` | src/DTOs/Work.php:75-83 | with newline-free values, the entry splits on newlines into exactly the seven template lines |
| `Works.BibLinesSingle` | src/DTOs/Work.php:75-83 | no template line holds a newline when no value does |
| `Works.NoNewlineInJoin` | src/DTOs/Work.php:60-62 | joining newline-free names with ` and ` gives no newline |
| `Works.DigitsOnly` | src/DTOs/Work.php:80 | the year as text holds no newline |
| `Works.AuthorListAdd` | src/DTOs/Work.php:60-62 | adding an author appends ` and ` and the name, or gives the name alone |
| `Works.KeyWithoutAuthors` | src/DTOs/Work.php:57-69 | no authors (absent or empty) give key `Unknown{year}` and an empty author field |
| `Works.KeyFromFirstAuthor` | src/DTOs/Work.php:64-69 | a first author named `first last`, or just `last`, gives key `last{year}` |
| `Works.JournalFallback` | src/DTOs/Work.php:71 | the journal is `Unknown Journal` exactly when the location or its source is missing, or the source has that name |
| `Works.DoiFieldCases` | src/DTOs/Work.php:73 | a `https://doi.org/` DOI keeps what follows the prefix; an unprefixed DOI is kept; no DOI gives an empty field |
| `Works.FixtureKey` | tests/WorkDtoTest.php:27-36 | the fixture's key is `Doe2023` |
| `Works.FixtureAuthors` | tests/WorkDtoTest.php:27-37 | the fixture's author field is `John Doe and Jane Smith` |
| `Works.FixtureFields` | tests/WorkDtoTest.php:27-41 | the fixture's journal is `Journal of Testing`, its year `2023` and its DOI `10.1234/j.test.2023` |
| `Works.FixtureWithoutAuthors` | tests/WorkDtoTest.php:44-56 | with authorships emptied, the key is `Unknown2023` and the author field is empty |

## Left out

- **HTTP transport.** There is no real HTTP transport, retry back-off delay or `User-Agent` mail header (`httpClient`). The client is a scripted stand-in, and the 100 ms delay does not change any result.
- **`http_build_query` and `sha1`.** Both are black-box functions passed in `Env` with the configured base URL. The URL encoding and the hash are not modelled, so cache keys for different URLs are not proved to differ.
- **Cache expiry.** TTL expiry and the clock are not modelled. `cacheFor` takes the clock reading as a parameter, and a stored entry never expires in the model. Laravel's `remember` reads a stored `null` as a miss, so the model stores nothing for a `null` result.
- **Record mapping.** Spatie's `Data::from` mapping and `Str::singular`/`Str::studly` inflection are left out. `MapToDto` tags an item with the record kind of the five known collections and keeps the raw item. It does not parse the fields.
- **Application wiring.** The service provider, facade, `OpenAlex` entry class and configuration file are not part of this model.
- **`QueryBuilder.ResultsOf`.** A `results` member that is not a list is read as no results. PHP's `collect` would wrap a scalar or take an object's values.
- **`QueryBuilder.Builder.Cursor`.** It does not model the laziness of `LazyCollection`. The consumer's pull is a bound, `maxPages`, on the pages taken. A run the bound cuts off ends as `Abandoned`.
- **`QueryBuilder.Builder.Cursor`.** It does not model the builder being changed while a cursor is being consumed. The payload is read afresh for each page, but the model has no interleaving.
- **`QueryBuilder.Dispatch`.** JSON numbers are integers only: float arguments to `where…` calls, which PHP would pass as their decimal text, and float members of bodies, such as `relevance_score`, are not modelled.
- **`QueryBuilder.Dispatch`.** It does not model the case-insensitivity of PHP method names. Only the lower-case `where` prefix is recognised, as `str_starts_with` does.
- **`Text.Snake`.** It covers ASCII only. Laravel's `Str::snake` also lower-cases non-ASCII letters and caches its results.
- **`QueryBuilder.Builder.Paginate`.** It does not model `LengthAwarePaginator`'s clamping of the page number or the derived last page. It returns the four values the paginator is built from.
- **`Services.Tries`.** The retry count is fixed at three, as the builder asks for. A connection failure on the last attempt becomes a `ConnectionError`.
- **Unused `Work` fields.** `topics` and the nested records' other fields are not modelled: neither behaviour reads them.
- **`Works.AuthorshipsOf`.** It reads an absent `authorships` field as no authors. `Work.php:57` tests `instanceof Optional` against a class name that is not imported in that namespace, so as written the test is never true. The model follows the evident intent.
- **`Text.RemoveAll`.** It follows `str_replace` in scanning once, left to right. Occurrences formed by a deletion are not removed again. That every occurrence goes is proved (`Text.RemoveAllJoin`) only where the text between occurrences cannot start one; overlapping occurrences are not characterised.
- **`Works.OneTokenPerPosition`.** An index with no positions is not covered: `implode` then gives the empty string, which splits into one empty token rather than none.
- **Abstract positions.** Positions are integers and keys compare as integers. A numeric-string word key, which PHP turns into an integer key, renders the same text.
