/** The fluent query builder of the OpenAlex client: one builder per entity
    collection ("works", "authors", ...) accumulates filter clauses, an
    insertion-ordered sort map, a search term, a field selection and a cache
    directive, and turns them into requests against `{base}/{entity}`. */
module QueryBuilder {
  import opened JsonValues
  import opened Services
  import Text

  /** What the builder takes from its surroundings: the configured base URL
      (`config('openalex.base_url')`) and two library functions used as black
      boxes, `http_build_query` and `sha1`. */
  datatype Env = Env(baseUrl: string, buildQuery: seq<Param> -> string, sha1: string -> string)

  // ---------------------------------------------------------------------
  // The sort map: keys in first-insertion order, each with its direction.

  datatype SortEntry = SortEntry(key: string, direction: string)

  function Keys(es: seq<SortEntry>): (ks: seq<string>)
    ensures |ks| == |es| && forall i :: 0 <= i < |es| ==> ks[i] == es[i].key
  {
    seq(|es|, i requires 0 <= i < |es| => es[i].key)
  }

  /** A PHP array cannot hold a key twice. */
  ghost predicate DistinctKeys(es: seq<SortEntry>)
  {
    forall i, j :: 0 <= i < j < |es| ==> es[i].key != es[j].key
  }

  /** `$sortBy[$key] ?? null`. */
  function DirectionOf(es: seq<SortEntry>, key: string): Option<string>
    decreases |es|
  {
    if es == [] then None
    else if es[0].key == key then Some(es[0].direction)
    else DirectionOf(es[1..], key)
  }

  /** `$sortBy[$key] = $direction`: a key already present keeps its place
      and takes the new direction; a new key goes at the end. No other key's
      direction changes. */
  function Upsert(es: seq<SortEntry>, key: string, direction: string): seq<SortEntry>
    decreases |es|
  {
    if es == [] then [SortEntry(key, direction)]
    else if es[0].key == key then [SortEntry(key, direction)] + es[1..]
    else [es[0]] + Upsert(es[1..], key, direction)
  }

  /** The keys after an upsert: unchanged when the key was present, else
      extended by it at the end. */
  lemma {:induction false} UpsertKeys(es: seq<SortEntry>, key: string, direction: string)
    ensures Keys(Upsert(es, key, direction)) == if key in Keys(es) then Keys(es) else Keys(es) + [key]
    decreases |es|
  {
    if es != [] {
      assert es == [es[0]] + es[1..];
      KeysCons(es[0], es[1..]);
      if es[0].key == key {
        KeysCons(SortEntry(key, direction), es[1..]);
      } else {
        UpsertKeys(es[1..], key, direction);
        KeysCons(es[0], Upsert(es[1..], key, direction));
      }
    }
  }

  lemma KeysCons(e: SortEntry, rest: seq<SortEntry>)
    ensures Keys([e] + rest) == [e.key] + Keys(rest)
  {
  }

  /** After an upsert the key has the new direction and every other key
      keeps its own. */
  lemma {:induction false} UpsertDirections(es: seq<SortEntry>, key: string, direction: string)
    ensures DirectionOf(Upsert(es, key, direction), key) == Some(direction)
    ensures forall other :: other != key ==> DirectionOf(Upsert(es, key, direction), other) == DirectionOf(es, other)
    decreases |es|
  {
    var r := Upsert(es, key, direction);
    if es != [] {
      assert r[1..] == if es[0].key == key then es[1..] else Upsert(es[1..], key, direction);
      if es[0].key != key {
        UpsertDirections(es[1..], key, direction);
      }
    }
  }

  /** Sorting by the same key twice leaves one entry, with the later direction. */
  lemma {:induction false} UpsertTwice(es: seq<SortEntry>, key: string, first: string, second: string)
    ensures Upsert(Upsert(es, key, first), key, second) == Upsert(es, key, second)
    decreases |es|
  {
    if es != [] && es[0].key != key {
      UpsertTwice(es[1..], key, first, second);
    }
  }

  /** Upserting keeps the keys distinct. */
  lemma UpsertDistinct(es: seq<SortEntry>, key: string, direction: string)
    requires DistinctKeys(es)
    ensures DistinctKeys(Upsert(es, key, direction))
  {
    var r := Upsert(es, key, direction);
    UpsertKeys(es, key, direction);
    assert forall i :: 0 <= i < |r| ==> r[i].key == Keys(r)[i];
    assert forall i :: 0 <= i < |es| ==> es[i].key == Keys(es)[i];
  }

  // ---------------------------------------------------------------------
  // Query payload.

  /** The query-shaping part of a builder's state. */
  datatype Query = Query(filters: seq<string>, sorts: seq<SortEntry>, search: Option<string>, select: seq<string>)

  /** `"{$key}:{$value}"`, the clause `where` and `whereHas` append. */
  function Clause(key: string, value: string): string
  {
    key + ":" + value
  }

  /** `"{$key}:" . implode('|', $values)`, the clause `whereIn` appends. */
  function InClause(key: string, values: seq<string>): string
  {
    key + ":" + Text.Join(values, "|")
  }

  /** `if ($this->searchQuery)`: PHP treats null, `""` and `"0"` as false. */
  predicate SearchSent(search: Option<string>)
  {
    search.Some? && search.value != "" && search.value != "0"
  }

  function SortPair(e: SortEntry): string
  {
    e.key + ":" + e.direction
  }

  function SortPairs(es: seq<SortEntry>): (pairs: seq<string>)
    ensures |pairs| == |es| && forall i :: 0 <= i < |es| ==> pairs[i] == SortPair(es[i])
  {
    seq(|es|, i requires 0 <= i < |es| => SortPair(es[i]))
  }

  /** The fixed order of the payload's keys. */
  function Rank(name: string): nat
  {
    if name == "filter" then 0
    else if name == "search" then 1
    else if name == "sort" then 2
    else if name == "select" then 3
    else 4
  }

  /** The value of the first parameter with this name. */
  function Lookup(p: seq<Param>, name: string): Option<string>
    decreases |p|
  {
    if p == [] then None
    else if p[0].name == name then Some(p[0].value)
    else Lookup(p[1..], name)
  }

  lemma {:induction false} LookupAppend(a: seq<Param>, b: seq<Param>, name: string)
    ensures Lookup(a + b, name) == if Lookup(a, name).Some? then Lookup(a, name) else Lookup(b, name)
    decreases |a|
  {
    if a != [] {
      assert (a + b)[0] == a[0];
      assert (a + b)[1..] == a[1..] + b;
      LookupAppend(a[1..], b, name);
    } else {
      assert a + b == b;
    }
  }

  function Optional(present: bool, name: string, value: string): seq<Param>
  {
    if present then [Param(name, value)] else []
  }

  lemma LookupOptional(present: bool, name: string, value: string, wanted: string)
    ensures Lookup(Optional(present, name, value), wanted) == if present && name == wanted then Some(value) else None
  {
    if present {
      assert Optional(present, name, value)[1..] == [];
    }
  }

  /** `buildQueryPayload()` as a value: filter, search, sort, select. */
  function Payload(q: Query): seq<Param>
  {
    Optional(q.filters != [], "filter", Text.Join(q.filters, ","))
    + Optional(SearchSent(q.search), "search", if q.search.Some? then q.search.value else "")
    + Optional(q.sorts != [], "sort", Text.Join(SortPairs(q.sorts), ","))
    + Optional(q.select != [], "select", Text.Join(q.select, ","))
  }

  /** The payload holds only the four keys, always in the order filter,
      search, sort, select; each is present exactly when its source is
      non-empty (for search: set and PHP-truthy), and carries the comma-join
      of its source in call order. */
  lemma PayloadParams(q: Query)
    ensures var p := Payload(q);
      && (forall i, j :: 0 <= i < j < |p| ==> Rank(p[i].name) < Rank(p[j].name))
      && (forall i :: 0 <= i < |p| ==> Rank(p[i].name) < 4)
      && Lookup(p, "filter") == (if q.filters == [] then None else Some(Text.Join(q.filters, ",")))
      && Lookup(p, "search") == (if SearchSent(q.search) then Some(q.search.value) else None)
      && Lookup(p, "sort") == (if q.sorts == [] then None else Some(Text.Join(SortPairs(q.sorts), ",")))
      && Lookup(p, "select") == (if q.select == [] then None else Some(Text.Join(q.select, ",")))
  {
    PayloadOrder(q);
    PiecesLookup(q.filters != [], SearchSent(q.search), q.sorts != [], q.select != [],
      Text.Join(q.filters, ","), if q.search.Some? then q.search.value else "",
      Text.Join(SortPairs(q.sorts), ","), Text.Join(q.select, ","));
  }

  lemma PiecesLookup(hasFilter: bool, hasSearch: bool, hasSort: bool, hasSelect: bool,
                     filter: string, search: string, sort: string, select: string)
    ensures var p := Optional(hasFilter, "filter", filter) + Optional(hasSearch, "search", search)
        + Optional(hasSort, "sort", sort) + Optional(hasSelect, "select", select);
      && Lookup(p, "filter") == (if hasFilter then Some(filter) else None)
      && Lookup(p, "search") == (if hasSearch then Some(search) else None)
      && Lookup(p, "sort") == (if hasSort then Some(sort) else None)
      && Lookup(p, "select") == (if hasSelect then Some(select) else None)
  {
    var f := Optional(hasFilter, "filter", filter);
    var s := Optional(hasSearch, "search", search);
    var o := Optional(hasSort, "sort", sort);
    var l := Optional(hasSelect, "select", select);
    assert f + s + o + l == f + (s + (o + l));
    PieceLookup(hasFilter, hasSearch, hasSort, hasSelect, filter, search, sort, select, "filter");
    PieceLookup(hasFilter, hasSearch, hasSort, hasSelect, filter, search, sort, select, "search");
    PieceLookup(hasFilter, hasSearch, hasSort, hasSelect, filter, search, sort, select, "sort");
    PieceLookup(hasFilter, hasSearch, hasSort, hasSelect, filter, search, sort, select, "select");
  }

  /** Looking one name up in the four pieces: the first piece that holds it. */
  lemma PieceLookup(hasFilter: bool, hasSearch: bool, hasSort: bool, hasSelect: bool,
                    filter: string, search: string, sort: string, select: string, wanted: string)
    ensures Lookup(Optional(hasFilter, "filter", filter) + (Optional(hasSearch, "search", search)
        + (Optional(hasSort, "sort", sort) + Optional(hasSelect, "select", select))), wanted)
      == if hasFilter && wanted == "filter" then Some(filter)
         else if hasSearch && wanted == "search" then Some(search)
         else if hasSort && wanted == "sort" then Some(sort)
         else if hasSelect && wanted == "select" then Some(select)
         else None
  {
    var f := Optional(hasFilter, "filter", filter);
    var s := Optional(hasSearch, "search", search);
    var o := Optional(hasSort, "sort", sort);
    var l := Optional(hasSelect, "select", select);
    LookupPieces(f, s, o, l, wanted);
    LookupOptional(hasFilter, "filter", filter, wanted);
    LookupOptional(hasSearch, "search", search, wanted);
    LookupOptional(hasSort, "sort", sort, wanted);
    LookupOptional(hasSelect, "select", select, wanted);
  }

  /** The payload's names come in rank order, and only the four known names occur. */
  lemma PayloadOrder(q: Query)
    ensures var p := Payload(q);
      && (forall i, j :: 0 <= i < j < |p| ==> Rank(p[i].name) < Rank(p[j].name))
      && (forall i :: 0 <= i < |p| ==> Rank(p[i].name) < 4)
  {
    PiecesOrder(q.filters != [], SearchSent(q.search), q.sorts != [], q.select != [],
      Text.Join(q.filters, ","), if q.search.Some? then q.search.value else "",
      Text.Join(SortPairs(q.sorts), ","), Text.Join(q.select, ","));
  }

  lemma PiecesOrder(hasFilter: bool, hasSearch: bool, hasSort: bool, hasSelect: bool,
                    filter: string, search: string, sort: string, select: string)
    ensures var p := Optional(hasFilter, "filter", filter) + Optional(hasSearch, "search", search)
        + Optional(hasSort, "sort", sort) + Optional(hasSelect, "select", select);
      && (forall i, j :: 0 <= i < j < |p| ==> Rank(p[i].name) < Rank(p[j].name))
      && (forall i :: 0 <= i < |p| ==> Rank(p[i].name) < 4)
  {
    assert Rank("filter") == 0 && Rank("search") == 1 && Rank("sort") == 2 && Rank("select") == 3;
    RankedOptional(hasFilter, "filter", filter);
    RankedOptional(hasSearch, "search", search);
    RankedOptional(hasSort, "sort", sort);
    RankedOptional(hasSelect, "select", select);
    var f := Optional(hasFilter, "filter", filter);
    var s := Optional(hasSearch, "search", search);
    var o := Optional(hasSort, "sort", sort);
    var l := Optional(hasSelect, "select", select);
    RankedConcat(f, s, 0, 1, 2);
    RankedConcat(f + s, o, 0, 2, 3);
    RankedConcat(f + s + o, l, 0, 3, 4);
  }

  lemma RankedOptional(present: bool, name: string, value: string)
    ensures Ranked(Optional(present, name, value), Rank(name), Rank(name) + 1)
  {
  }

  /** The names of `p` have increasing ranks, all in `[lo, hi)`. */
  ghost predicate Ranked(p: seq<Param>, lo: nat, hi: nat)
  {
    && (forall i, j :: 0 <= i < j < |p| ==> Rank(p[i].name) < Rank(p[j].name))
    && (forall i :: 0 <= i < |p| ==> lo <= Rank(p[i].name) < hi)
  }

  lemma RankedConcat(a: seq<Param>, b: seq<Param>, lo: nat, mid: nat, hi: nat)
    requires lo <= mid <= hi
    requires Ranked(a, lo, mid) && Ranked(b, mid, hi)
    ensures Ranked(a + b, lo, hi)
  {
    var p := a + b;
    forall i, j | 0 <= i < j < |p|
      ensures Rank(p[i].name) < Rank(p[j].name)
    {
      if j < |a| {
        assert p[i] == a[i] && p[j] == a[j];
      } else if i < |a| {
        assert p[i] == a[i] && p[j] == b[j - |a|];
      } else {
        assert p[i] == b[i - |a|] && p[j] == b[j - |a|];
      }
    }
    forall i | 0 <= i < |p|
      ensures lo <= Rank(p[i].name) < hi
    {
      if i < |a| {
        assert p[i] == a[i];
      } else {
        assert p[i] == b[i - |a|];
      }
    }
  }

  lemma LookupPieces(f: seq<Param>, s: seq<Param>, o: seq<Param>, l: seq<Param>, name: string)
    ensures Lookup(f + (s + (o + l)), name) ==
      if Lookup(f, name).Some? then Lookup(f, name)
      else if Lookup(s, name).Some? then Lookup(s, name)
      else if Lookup(o, name).Some? then Lookup(o, name)
      else Lookup(l, name)
  {
    LookupAppend(o, l, name);
    LookupAppend(s, o + l, name);
    LookupAppend(f, s + (o + l), name);
  }

  /** Appending one clause extends the rendered `filter` by a comma and that clause. */
  lemma FilterAfterAppend(q: Query, clause: string)
    ensures Lookup(Payload(q.(filters := q.filters + [clause])), "filter")
      == Some(if q.filters == [] then clause else Text.Join(q.filters, ",") + "," + clause)
  {
    PayloadParams(q.(filters := q.filters + [clause]));
    Text.JoinAppend(q.filters, ",", clause);
  }

  /** The query of the URL test: three clauses (one from `whereIn`), a search,
      one sort key and a two-field selection render as expected. */
  lemma ExamplePayload()
    ensures var q := Query(
        [Clause("type", "journal-article"), InClause("language", ["en", "de"]), Clause("concepts.id", "C123")],
        [SortEntry("publication_year", "asc")], Some("machine learning"), ["id", "display_name"]);
      Payload(q) == [
        Param("filter", "type:journal-article" + "," + "language:en|de" + "," + "concepts.id:C123"),
        Param("search", "machine learning"),
        Param("sort", "publication_year:asc"),
        Param("select", "id,display_name")]
  {
    ExampleFilter();
    ExampleSort();
    JoinTwo("id", "display_name", ",");
    assert "id" + "," + "display_name" == "id,display_name";
    assert SearchSent(Some("machine learning"));
  }

  lemma ExampleFilter()
    ensures Text.Join([Clause("type", "journal-article"), InClause("language", ["en", "de"]), Clause("concepts.id", "C123")], ",")
      == "type:journal-article" + "," + "language:en|de" + "," + "concepts.id:C123"
  {
    JoinTwo("en", "de", "|");
    assert "language" + ":" + ("en" + "|" + "de") == "language:en|de";
    assert "type" + ":" + "journal-article" == "type:journal-article";
    assert "concepts.id" + ":" + "C123" == "concepts.id:C123";
    JoinThree("type:journal-article", "language:en|de", "concepts.id:C123", ",");
  }

  lemma ExampleSort()
    ensures Text.Join(SortPairs([SortEntry("publication_year", "asc")]), ",") == "publication_year:asc"
  {
    var es := [SortEntry("publication_year", "asc")];
    assert "publication_year" + ":" + "asc" == "publication_year:asc";
    assert SortPair(es[0]) == "publication_year:asc";
    assert SortPairs(es) == ["publication_year:asc"];
  }

  lemma JoinTwo(a: string, b: string, sep: string)
    ensures Text.Join([a, b], sep) == a + sep + b
  {
    assert [a, b][1..] == [b];
  }

  lemma JoinThree(a: string, b: string, c: string, sep: string)
    ensures Text.Join([a, b, c], sep) == a + sep + b + sep + c
  {
    assert [a, b, c][1..] == [b, c];
    JoinTwo(b, c, sep);
  }

  /** `array_merge($payload, ['per-page' => $perPage, 'page' => $page])`;
      the payload never holds these two keys, so they are appended. */
  function PagePayload(base: seq<Param>, perPage: int, page: int): seq<Param>
  {
    base + [Param("per-page", Text.IntToString(perPage)), Param("page", Text.IntToString(page))]
  }

  // ---------------------------------------------------------------------
  // URLs and cache keys.

  function EntityUrl(env: Env, entity: string): string
  {
    env.baseUrl + "/" + entity
  }

  /** The collection URL with its encoded query string. */
  function Url(env: Env, entity: string, payload: seq<Param>): string
  {
    EntityUrl(env, entity) + "?" + env.buildQuery(payload)
  }

  /** `find`: `{base}/{entity}/{id}`. */
  function FindUrl(env: Env, entity: string, id: string): string
  {
    EntityUrl(env, entity) + "/" + id
  }

  /** `findBy`: `{base}/{entity}/{idType}:{idValue}`. */
  function FindByUrl(env: Env, entity: string, idType: string, idValue: string): string
  {
    EntityUrl(env, entity) + "/" + idType + ":" + idValue
  }

  /** `findByDoi` asks for the `doi:` path form; the test's URL is
      `https://api.openalex.org/works/doi:10.123/test`. */
  lemma FindByDoiUrl(env: Env)
    requires env.baseUrl == "https://api.openalex.org"
    ensures FindByUrl(env, "works", "doi", "10.123/test") == "https://api.openalex.org/works/doi:10.123/test"
  {
  }

  function CacheKey(env: Env, url: string): string
  {
    "openalex_" + env.sha1(url)
  }

  // ---------------------------------------------------------------------
  // The cache directive.

  datatype CacheMode = Direct | RememberForever | Remember(ttl: Ttl)

  /** `executeCacheable`'s three-way choice: call directly when neither a TTL
      nor the forever flag is set; otherwise the forever flag wins over any TTL. */
  function Directive(ttl: Option<Ttl>, forever: bool): (m: CacheMode)
    ensures m == Direct <==> ttl.None? && !forever
    ensures m == RememberForever <==> forever
    ensures m.Remember? ==> ttl == Some(m.ttl)
  {
    if ttl.None? && !forever then Direct
    else if forever then RememberForever
    else Remember(ttl.value)
  }

  function LifetimeOf(m: CacheMode): Lifetime
    requires m != Direct
  {
    if m.RememberForever? then Forever else Until(m.ttl)
  }

  /** A cache hit: caching is on and the store holds the key. */
  predicate Hit(m: CacheMode, key: string, entries: map<string, CacheEntry>)
  {
    m != Direct && key in entries
  }

  /** What a cacheable call returns: the stored body on a hit, otherwise the
      classified outcome of the request. */
  function Cached(m: CacheMode, key: string, entries: map<string, CacheEntry>, script: seq<Outcome>, fallback: Outcome, at: nat)
    : (r: Result<Option<Json>, Failure>)
    ensures Hit(m, key, entries) ==> r == Ok(Some(entries[key].value))
    ensures !Hit(m, key, entries) ==> r == Classify(FinalOutcome(script, fallback, at))
  {
    if Hit(m, key, entries) then Ok(Some(entries[key].value)) else Classify(FinalOutcome(script, fallback, at))
  }

  /** The store after a cacheable call: a miss that produced a body stores it
      under the key with the directive's lifetime; `null` results and errors
      store nothing, and uncached calls never touch the store. */
  function Stored(m: CacheMode, key: string, entries: map<string, CacheEntry>, r: Result<Option<Json>, Failure>)
    : (after: map<string, CacheEntry>)
    ensures m == Direct ==> after == entries
    ensures after.Keys == entries.Keys || (m != Direct && key !in entries && r.Ok? && r.value.Some? && after.Keys == entries.Keys + {key})
    ensures forall k :: k in entries ==> k in after && after[k] == entries[k]
  {
    if m != Direct && key !in entries && r.Ok? && r.value.Some? then
      entries[key := CacheEntry(r.value.value, LifetimeOf(m))]
    else entries
  }

  /** A second call for the same key is served from the store, never from
      the network, and returns what the first one stored. */
  lemma SecondCallHits(m: CacheMode, key: string, entries: map<string, CacheEntry>,
                       script: seq<Outcome>, fallback: Outcome, at: nat, later: nat)
    requires m != Direct
    ensures var first := Cached(m, key, entries, script, fallback, at);
      var after := Stored(m, key, entries, first);
      first.Ok? && first.value.Some? ==>
        (Hit(m, key, after) && Cached(m, key, after, script, fallback, later) == first)
  {
  }

  // ---------------------------------------------------------------------
  // Response handling.

  datatype Failure =
    | ApiError(reason: string, status: int)  // OpenAlexException(reason, status)
    | ConnectionError                        // the client's ConnectionException
    | NotAnArray                             // a JSON scalar where `?array` is declared

  /** `makeRequest` after the retries. */
  function Classify(o: Outcome): Result<Option<Json>, Failure>
  {
    match o
    case ConnectionFailed => Err(ConnectionError)
    case Responded(resp) =>
      if resp.status == 404 then Ok(None)
      else if resp.status >= 400 then Err(ApiError(resp.reason, resp.status))
      else if resp.body == JNull then Ok(None)
      else if resp.body.JList? || resp.body.JObject? then Ok(Some(resp.body))
      else Err(NotAnArray)
  }

  /** What `makeRequest` makes of the final attempt: 404 is "no such
      entity"; any other failed status (400 and above) raises with the
      reason and status; a connection failure propagates; otherwise the
      decoded body, which is `null` for an empty or undecodable body and
      must be an array. */
  lemma ClassifyOutcomes(o: Outcome)
    ensures var r := Classify(o);
      && (r == Ok(None) <==> o.Responded? && (o.response.status == 404 || (o.response.status < 400 && o.response.body == JNull)))
      && (r.Err? && r.error.ApiError? <==> o.Responded? && o.response.status >= 400 && o.response.status != 404)
      && (r.Err? && r.error.ApiError? ==> r.error == ApiError(o.response.reason, o.response.status))
      && (r == Err(ConnectionError) <==> o.ConnectionFailed?)
      && (r == Err(NotAnArray) <==> o.Responded? && o.response.status < 400 && o.response.status != 404
                                    && o.response.body != JNull && !o.response.body.JList? && !o.response.body.JObject?)
      && (r.Ok? && r.value.Some? ==> r.value.value == o.response.body && (r.value.value.JList? || r.value.value.JObject?))
  {
  }

  /** `$response['results'] ?? []`: the listed results, and none for a
      `null` body (a 404) or a body without a `results` list. */
  function ResultsOf(body: Option<Json>): (rs: seq<Json>)
    ensures body.Some? && Member(body.value, "results").Some? && Member(body.value, "results").value.JList?
      ==> rs == Member(body.value, "results").value.items
    ensures body.None? || Member(body.value, "results").None? ==> rs == []
  {
    if body.Some? && Member(body.value, "results").Some? && Member(body.value, "results").value.JList? then
      Member(body.value, "results").value.items
    else []
  }

  /** An API error or a connection failure is only returned once all three
      attempts have failed: a final response ends the retrying and is never
      classified as either. */
  lemma ErrorsAfterAllTries(script: seq<Outcome>, fallback: Outcome, at: nat)
    ensures var r := Classify(FinalOutcome(script, fallback, at));
      r.Err? && !r.error.NotAnArray? ==> Attempts(script, fallback, at, Tries) == Tries
  {
  }

  /** `$response['meta']['count'] ?? 0`. */
  function TotalOf(body: Option<Json>): Json
  {
    if body.Some? && Member(body.value, "meta").Some? && Member(Member(body.value, "meta").value, "count").Some? then
      Member(Member(body.value, "meta").value, "count").value
    else JInt(0)
  }

  // ---------------------------------------------------------------------
  // Mapping raw items to records.

  datatype Kind = WorkRecord | AuthorRecord | SourceRecord | InstitutionRecord | TopicRecord

  /** A typed record of the entity's class, or the raw item as a plain object
      when no record class matches the entity name. */
  datatype Dto = Typed(kind: Kind, fields: Json) | Untyped(fields: Json)

  /** The record class `Str::studly(Str::singular($entity))` names, for the
      five collections that have one. */
  function KindOf(entity: string): Option<Kind>
  {
    if entity == "works" then Some(WorkRecord)
    else if entity == "authors" then Some(AuthorRecord)
    else if entity == "sources" then Some(SourceRecord)
    else if entity == "institutions" then Some(InstitutionRecord)
    else if entity == "topics" then Some(TopicRecord)
    else None
  }

  function MapToDto(entity: string, item: Json): Dto
  {
    if KindOf(entity).Some? then Typed(KindOf(entity).value, item) else Untyped(item)
  }

  function MapAll(entity: string, items: seq<Json>): (dtos: seq<Dto>)
    ensures |dtos| == |items| && forall i :: 0 <= i < |items| ==> dtos[i] == MapToDto(entity, items[i])
  {
    seq(|items|, i requires 0 <= i < |items| => MapToDto(entity, items[i]))
  }

  lemma MapAllAppend(entity: string, a: seq<Json>, b: seq<Json>)
    ensures MapAll(entity, a + b) == MapAll(entity, a) + MapAll(entity, b)
  {
  }

  /** `find`/`findBy`: `null` stays `null`, a body becomes one record. */
  function MapFound(entity: string, r: Result<Option<Json>, Failure>): Result<Option<Dto>, Failure>
  {
    match r
    case Err(e) => Err(e)
    case Ok(None) => Ok(None)
    case Ok(Some(body)) => Ok(Some(MapToDto(entity, body)))
  }

  // ---------------------------------------------------------------------
  // The cursor's page walk.

  /** `$perPage = 200`, the cursor's fixed page size. */
  const CursorPageSize: int := 200

  /** How a cursor run ended: an empty page, the consumer stopping, or an error. */
  datatype Stop = Exhausted | Abandoned | Failed(error: Failure)

  /** The outcome of a walk: the raw results in order, the page number of
      every request sent (one per attempt), the position in the served
      outcomes after it, and how it ended. */
  datatype Walked = Walked(results: seq<Json>, pages: seq<int>, served: nat, stop: Stop)

  /** One page request as the cursor sees it: the attempts it took, the
      page's results (none after an error) and the error, if any. */
  datatype PageCall = PageCall(attempts: nat, results: seq<Json>, failure: Option<Failure>)

  /** The page request whose outcomes are served from position `at`:
      `$response['results'] ?? []` when it succeeds (a 404 gives no
      results), the failure that `makeRequest` throws otherwise. */
  function CallPage(script: seq<Outcome>, fallback: Outcome, at: nat): (c: PageCall)
    ensures c.attempts == Attempts(script, fallback, at, Tries)
    ensures c.failure.Some? <==> Classify(FinalOutcome(script, fallback, at)).Err?
    ensures c.failure.Some? ==> c.results == []
  {
    var n := Attempts(script, fallback, at, Tries);
    match Classify(FinalOutcome(script, fallback, at))
    case Err(e) => PageCall(n, [], Some(e))
    case Ok(body) => PageCall(n, ResultsOf(body), None)
  }

  /** The page walk from `page` on, over at most `pages` pages, with the
      outcomes served from position `at`: each page is one retried request,
      and the walk ends after the first empty page or error. */
  function Walk(script: seq<Outcome>, fallback: Outcome, at: nat, page: int, pages: nat): Walked
    decreases pages, 2
  {
    if pages == 0 then Walked([], [], at, Abandoned) else WalkPage(script, fallback, at, page, pages)
  }

  /** The first page of a walk with pages left: its results and one request
      per attempt, then what follows it. */
  function WalkPage(script: seq<Outcome>, fallback: Outcome, at: nat, page: int, pages: nat): Walked
    requires pages > 0
    decreases pages, 1
  {
    var c := CallPage(script, fallback, at);
    Prefixed(c.results, Repeat(page, c.attempts), WalkOn(script, fallback, at, page, pages))
  }

  /** What follows the first page of a walk: its end after an error or an
      empty page, the walk from the next page otherwise. */
  function WalkOn(script: seq<Outcome>, fallback: Outcome, at: nat, page: int, pages: nat): Walked
    requires pages > 0
    decreases pages, 0
  {
    var c := CallPage(script, fallback, at);
    var next := at + c.attempts;
    match c.failure
    case Some(e) => Walked([], [], next, Failed(e))
    case None =>
      if c.results == [] then Walked([], [], next, Exhausted)
      else Walk(script, fallback, next, page + 1, pages - 1)
  }

  /** A walk with pages left starts with its first page. */
  lemma WalkUnfold(script: seq<Outcome>, fallback: Outcome, at: nat, page: int, pages: nat)
    requires pages > 0
    ensures var c := CallPage(script, fallback, at);
      Walk(script, fallback, at, page, pages) == Prefixed(c.results, Repeat(page, c.attempts), WalkOn(script, fallback, at, page, pages))
  {
  }

  /** What follows a page, case by case. */
  lemma WalkOnCases(script: seq<Outcome>, fallback: Outcome, at: nat, page: int, pages: nat)
    requires pages > 0
    ensures var c := CallPage(script, fallback, at);
      var w := WalkOn(script, fallback, at, page, pages);
      && (c.failure.Some? ==> w == Walked([], [], at + c.attempts, Failed(c.failure.value)))
      && (c.failure.None? && c.results == [] ==> w == Walked([], [], at + c.attempts, Exhausted))
      && (c.failure.None? && c.results != [] ==> w == Walk(script, fallback, at + c.attempts, page + 1, pages - 1))
  {
  }

  /** How the cursor's loop state stands against the whole walk `total`:
      while running, what was collected followed by the walk from the
      current page is the whole walk; once stopped, it is the whole walk. */
  ghost predicate OnTrack(script: seq<Outcome>, fallback: Outcome, total: Walked, raw: seq<Json>, requested: seq<int>,
                          served: nat, page: int, left: nat, done: bool, stop: Stop)
  {
    && (!done ==> stop == Abandoned && total == Prefixed(raw, requested, Walk(script, fallback, served, page, left)))
    && (done ==> total == Walked(raw, requested, served, stop))
  }

  /** How the cursor's loop ends one page: an error or an empty page stops it. */
  function StopAfter(c: PageCall): Stop
  {
    if c.failure.Some? then Failed(c.failure.value) else if c.results == [] then Exhausted else Abandoned
  }

  /** One page of the cursor keeps its loop state on track. */
  lemma OnTrackStep(script: seq<Outcome>, fallback: Outcome, total: Walked, raw: seq<Json>, requested: seq<int>,
                    served: nat, page: int, left: nat)
    requires left > 0 && OnTrack(script, fallback, total, raw, requested, served, page, left, false, Abandoned)
    ensures var c := CallPage(script, fallback, served);
      OnTrack(script, fallback, total, raw + c.results, requested + Repeat(page, c.attempts), served + c.attempts,
              page + 1, left - 1, StopAfter(c) != Abandoned, StopAfter(c))
  {
    var c := CallPage(script, fallback, served);
    var next := WalkOn(script, fallback, served, page, left);
    WalkUnfold(script, fallback, served, page, left);
    WalkOnCases(script, fallback, served, page, left);
    PrefixedTwice(raw, requested, c.results, Repeat(page, c.attempts), next);
    if StopAfter(c) != Abandoned {
      assert c.results + [] == c.results && Repeat(page, c.attempts) + [] == Repeat(page, c.attempts);
    }
  }

  /** Before the first page nothing is collected and the whole walk lies ahead. */
  lemma OnTrackStart(script: seq<Outcome>, fallback: Outcome, served: nat, pages: nat)
    ensures OnTrack(script, fallback, Walk(script, fallback, served, 1, pages), [], [], served, 1, pages, false, Abandoned)
  {
    var w := Walk(script, fallback, served, 1, pages);
    assert [] + w.results == w.results && [] + w.pages == w.pages;
  }

  /** A loop that stops, or has no pages left, has collected the whole walk. */
  lemma OnTrackEnd(script: seq<Outcome>, fallback: Outcome, total: Walked, raw: seq<Json>, requested: seq<int>,
                   served: nat, page: int, left: nat, done: bool, stop: Stop)
    requires OnTrack(script, fallback, total, raw, requested, served, page, left, done, stop)
    requires done || left == 0
    ensures total == Walked(raw, requested, served, stop)
  {
    if !done {
      assert raw + [] == raw && requested + [] == requested;
    }
  }

  /** The cursor's request for each page number: the bare entity URL with
      the builder's payload, `per-page` 200 and the page. */
  function CursorRequests(url: string, base: seq<Param>, pages: seq<int>): (reqs: seq<Request>)
    ensures |reqs| == |pages|
    ensures forall i :: 0 <= i < |pages| ==> reqs[i] == Request(url, PagePayload(base, CursorPageSize, pages[i]))
  {
    seq(|pages|, i requires 0 <= i < |pages| => Request(url, PagePayload(base, CursorPageSize, pages[i])))
  }

  lemma CursorRequestsAppend(url: string, base: seq<Param>, a: seq<int>, b: seq<int>)
    ensures CursorRequests(url, base, a + b) == CursorRequests(url, base, a) + CursorRequests(url, base, b)
  {
  }

  lemma AppendAssociates<T>(a: seq<T>, b: seq<T>, c: seq<T>)
    ensures a + b + c == a + (b + c)
  {
  }

  /** Every attempt at one page sends the same request. */
  lemma CursorRequestsRepeat(url: string, base: seq<Param>, page: int, n: nat)
    ensures CursorRequests(url, base, Repeat(page, n)) == Repeat(Request(url, PagePayload(base, CursorPageSize, page)), n)
  {
  }

  /** A 200 response whose body lists `rs` as its results. */
  function PageResponse(rs: seq<Json>): Outcome
  {
    Responded(Response(200, "OK", JObject(map["results" := JList(rs)])))
  }

  function PageScript(pages: seq<seq<Json>>): (script: seq<Outcome>)
    ensures |script| == |pages| && forall i :: 0 <= i < |pages| ==> script[i] == PageResponse(pages[i])
  {
    seq(|pages|, i requires 0 <= i < |pages| => PageResponse(pages[i]))
  }

  function Flatten(pages: seq<seq<Json>>): seq<Json>
    decreases |pages|
  {
    if pages == [] then [] else pages[0] + Flatten(pages[1..])
  }

  /** The walk `w` preceded by results and page requests already collected. */
  function Prefixed(results: seq<Json>, pages: seq<int>, w: Walked): Walked
  {
    Walked(results + w.results, pages + w.pages, w.served, w.stop)
  }

  lemma PrefixedTwice(r1: seq<Json>, p1: seq<int>, r2: seq<Json>, p2: seq<int>, w: Walked)
    ensures Prefixed(r1, p1, Prefixed(r2, p2, w)) == Prefixed(r1 + r2, p1 + p2, w)
  {
    assert r1 + (r2 + w.results) == r1 + r2 + w.results;
    assert p1 + (p2 + w.pages) == p1 + p2 + w.pages;
  }

  /** A served page is taken at the first attempt and yields its results. */
  lemma PageServed(rs: seq<Json>, script: seq<Outcome>, fallback: Outcome, at: nat)
    requires at < |script| && script[at] == PageResponse(rs)
    ensures CallPage(script, fallback, at) == PageCall(1, rs, None)
  {
    assert Final(Nth(script, fallback, at));
    var body := JObject(map["results" := JList(rs)]);
    assert Member(body, "results") == Some(JList(rs));
  }

  /** The walk from a position that serves a page. */
  lemma WalkServedPage(rs: seq<Json>, script: seq<Outcome>, fallback: Outcome, at: nat, page: int, pages: nat)
    requires pages > 0 && at < |script| && script[at] == PageResponse(rs)
    ensures rs == [] ==> Walk(script, fallback, at, page, pages) == Walked([], [page], at + 1, Exhausted)
    ensures rs != [] ==>
      (Walk(script, fallback, at, page, pages) == Prefixed(rs, [page], Walk(script, fallback, at + 1, page + 1, pages - 1)))
  {
    PageServed(rs, script, fallback, at);
    assert Repeat(page, 1) == [page];
    assert Walk(script, fallback, at, page, pages) == WalkPage(script, fallback, at, page, pages);
  }

  /** The page numbers `first`, `first + 1`, ..., `count` of them. */
  function PageRun(first: int, count: nat): (run: seq<int>)
    ensures |run| == count && forall i :: 0 <= i < count ==> run[i] == first + i
  {
    seq(count, i => first + i)
  }

  /** Served pages that are non-empty up to a final empty one: the cursor
      yields the earlier pages' results in order, sends exactly one request
      per page (pages `page`, `page + 1`, ... with `per-page` 200 to the bare
      entity URL) and stops at the empty page, having used one served outcome
      per page. */
  lemma {:induction false} CursorStopsAtFirstEmptyPage(pages: seq<seq<Json>>, script: seq<Outcome>, fallback: Outcome,
                                                      at: nat, page: int, budget: nat)
    requires ServedUntilEmpty(script, at, pages)
    requires budget >= |pages|
    ensures Walk(script, fallback, at, page, budget) == Walked(Flatten(pages), PageRun(page, |pages|), at + |pages|, Exhausted)
    decreases |pages|
  {
    WalkServedPage(pages[0], script, fallback, at, page, budget);
    if |pages| > 1 {
      var rest := |pages| - 1;
      CursorStopsAtFirstEmptyPage(pages[1..], script, fallback, at + 1, page + 1, budget - 1);
      assert [page] + PageRun(page + 1, rest) == PageRun(page, |pages|);
    } else {
      assert PageRun(page, 1) == [page];
    }
  }

  /** From position `at`, the script serves `pages` one per request: every
      page but the last holds results, and the last one is empty. */
  ghost predicate ServedUntilEmpty(script: seq<Outcome>, at: nat, pages: seq<seq<Json>>)
    decreases |pages|
  {
    && |pages| >= 1 && at < |script|
    && script[at] == PageResponse(pages[0])
    && if |pages| == 1 then pages[0] == [] else pages[0] != [] && ServedUntilEmpty(script, at + 1, pages[1..])
  }

  /** The predicate in indexed form: the script holds the pages' responses in
      order from `at` on, all pages before the last are non-empty and the last is empty. */
  lemma {:induction false} ServedUntilEmptyIndexed(script: seq<Outcome>, at: nat, pages: seq<seq<Json>>)
    requires |pages| >= 1 && pages[|pages| - 1] == []
    requires forall i :: 0 <= i < |pages| - 1 ==> pages[i] != []
    requires at + |pages| <= |script| && forall i :: 0 <= i < |pages| ==> script[at + i] == PageResponse(pages[i])
    ensures ServedUntilEmpty(script, at, pages)
    decreases |pages|
  {
    assert script[at + 0] == PageResponse(pages[0]);
    if |pages| > 1 {
      var tail := pages[1..];
      forall i | 0 <= i < |tail|
        ensures script[at + 1 + i] == PageResponse(tail[i])
      {
        assert script[at + (i + 1)] == PageResponse(pages[i + 1]);
      }
      ServedUntilEmptyIndexed(script, at + 1, tail);
    }
  }

  lemma FlattenThree(x: seq<Json>, y: seq<Json>, z: seq<Json>)
    ensures Flatten([x, y, z]) == x + y + z
  {
    var pages := [x, y, z];
    var later: seq<seq<Json>> := [y, z];
    var last: seq<seq<Json>> := [z];
    assert pages[1..] == later && later[1..] == last && last[1..] == [];
    assert Flatten(last) == z + [];
    assert Flatten(later) == y + z;
  }

  /** The test script: two full pages and an empty one, one response each. */
  lemma ThreePagesServed(a: Json, b: Json, c: Json, d: Json)
    ensures ServedUntilEmpty(PageScript([[a, b], [c, d], []]), 0, [[a, b], [c, d], []])
  {
    var pages: seq<seq<Json>> := [[a, b], [c, d], []];
    var script := PageScript(pages);
    var later: seq<seq<Json>> := [[c, d], []];
    var last: seq<seq<Json>> := [[]];
    assert pages[1..] == later && later[1..] == last;
    assert script[2] == PageResponse([]);
    assert ServedUntilEmpty(script, 2, last);
    assert script[1] == PageResponse([c, d]);
    assert ServedUntilEmpty(script, 1, later);
    assert script[0] == PageResponse([a, b]);
  }

  /** The cursor test: pages of two, two and zero items give the four items
      through exactly three requests, for three consecutive pages (1, 2 and 3
      when the walk starts at page 1), whatever page budget is left. */
  lemma CursorThreePages(a: Json, b: Json, c: Json, d: Json, fallback: Outcome, first: int, budget: nat)
    requires budget >= 3
    ensures var w := Walk(PageScript([[a, b], [c, d], []]), fallback, 0, first, budget);
      w.results == [a, b, c, d] && w.pages == [first, first + 1, first + 2] && w.stop == Exhausted
  {
    var pages := [[a, b], [c, d], []];
    ThreePagesServed(a, b, c, d);
    CursorStopsAtFirstEmptyPage(pages, PageScript(pages), fallback, 0, first, budget);
    FlattenThree([a, b], [c, d], []);
    assert PageRun(first, 3) == [first, first + 1, first + 2];
  }

  // ---------------------------------------------------------------------
  // Dynamic `whereXxx` calls.

  datatype CallError =
    | BadMethodCall(message: string)  // BadMethodCallException
    | ArgumentError                   // the value cannot be passed as a `string`

  /** How PHP passes an argument to a `string` parameter outside strict
      mode: strings as they are, integers in decimal, booleans as "1" or "";
      anything else (a missing argument arrives as null) is a type error. */
  function ArgumentString(arg: Json): Option<string>
  {
    match arg
    case JStr(s) => Some(s)
    case JInt(i) => Some(Text.IntToString(i))
    case JBool(b) => Some(if b then "1" else "")
    case _ => None
  }

  predicate StartsWithWhere(name: string)
  {
    |name| >= 5 && name[..5] == "where"
  }

  /** `__call`: the filter clause a `whereXxx(value)` call appends, the
      `snake_case` of `Xxx` as key; any other name is refused with a message
      naming the method. */
  function Dispatch(name: string, args: seq<Json>): (r: Result<string, CallError>)
    ensures r.Ok? <==> StartsWithWhere(name) && |args| >= 1 && ArgumentString(args[0]).Some?
    ensures r.Ok? ==> r.value == Clause(Text.Snake(name[5..]), ArgumentString(args[0]).value)
    ensures !StartsWithWhere(name) ==> r == Err(BadMethodCall("Method " + name + " does not exist."))
  {
    if StartsWithWhere(name) then
      var value := if |args| >= 1 then ArgumentString(args[0]) else None;
      if value.Some? then Ok(Clause(Text.Snake(name[5..]), value.value)) else Err(ArgumentError)
    else Err(BadMethodCall("Method " + name + " does not exist."))
  }

  /** Any `where` + suffix call with a usable argument appends the clause
      keyed by the suffix's snake case. */
  lemma DispatchWhere(suffix: string, arg: Json)
    requires ArgumentString(arg).Some?
    ensures Dispatch("where" + suffix, [arg]) == Ok(Clause(Text.Snake(suffix), ArgumentString(arg).value))
  {
    var name := "where" + suffix;
    assert name[..5] == "where";
    assert name[5..] == suffix;
  }

  /** `wherePublicationYear(2022)` appends `publication_year:2022`. */
  lemma DispatchPublicationYear()
    ensures Dispatch("where" + "PublicationYear", [JInt(2022)]) == Ok("publication_year" + ":" + "2022")
  {
    Year2022();
    DispatchWhere("PublicationYear", JInt(2022));
    Text.SnakePublicationYear();
  }

  lemma Year2022()
    ensures Text.IntToString(2022) == "2022"
  {
    assert Text.NatToString(2) == "2";
    assert Text.NatToString(20) == "20";
    assert Text.NatToString(202) == "202";
    assert Text.NatToString(2022) == "2022";
  }

  // ---------------------------------------------------------------------
  // The builder.

  /** `select`'s argument: one array of names, or the first of several
      names passed one by one. */
  datatype FieldsArg = FieldList(fields: seq<string>) | FieldName(first: string)

  /** `is_array($fields) ? $fields : func_get_args()`. */
  function SelectedFields(arg: FieldsArg, more: seq<string>): (fields: seq<string>)
    ensures arg.FieldList? ==> fields == arg.fields
    ensures arg.FieldName? ==> fields == [arg.first] + more
  {
    match arg
    case FieldList(fs) => fs
    case FieldName(f) => [f] + more
  }

  /** `cacheFor`'s argument: a number of seconds or a `DateInterval`. */
  datatype TtlArg = Seconds(count: int) | Duration(length: int)

  class Builder {
    const entity: string
    var filters: seq<string>
    var sortBy: seq<SortEntry>
    var searchQuery: Option<string>
    var select: seq<string>
    var cacheTtl: Option<Ttl>
    var cacheForever: bool

    ghost predicate Valid()
      reads this
    {
      DistinctKeys(sortBy)
    }

    function State(): Query
      reads this
    {
      Query(filters, sortBy, searchQuery, select)
    }

    function Mode(): CacheMode
      reads this
    {
      Directive(cacheTtl, cacheForever)
    }

    constructor (entity: string)
      ensures Valid()
      ensures this.entity == entity
      ensures filters == [] && sortBy == [] && searchQuery == None && select == []
      ensures cacheTtl == None && !cacheForever && Mode() == Direct
    {
      this.entity := entity;
      filters := [];
      sortBy := [];
      searchQuery := None;
      select := [];
      cacheTtl := None;
      cacheForever := false;
    }

    method Where(key: string, value: string)
      modifies this`filters
      ensures filters == old(filters) + [Clause(key, value)]
    {
      filters := filters + [Clause(key, value)];
    }

    method WhereIn(key: string, values: seq<string>)
      modifies this`filters
      ensures filters == old(filters) + [InClause(key, values)]
    {
      filters := filters + [InClause(key, values)];
    }

    method WhereHas(relation: string, value: string)
      modifies this`filters
      ensures filters == old(filters) + [Clause(relation, value)]
    {
      filters := filters + [Clause(relation, value)];
    }

    method Search(query: string)
      modifies this`searchQuery
      ensures searchQuery == Some(query)
    {
      searchQuery := Some(query);
    }

    method SortBy(key: string, direction: string := "desc")
      requires Valid()
      modifies this`sortBy
      ensures Valid()
      ensures sortBy == Upsert(old(sortBy), key, direction)
    {
      UpsertDistinct(sortBy, key, direction);
      sortBy := Upsert(sortBy, key, direction);
    }

    method SortByRelevance()
      requires Valid()
      modifies this`sortBy
      ensures Valid()
      ensures sortBy == Upsert(old(sortBy), "relevance_score", "desc")
    {
      SortBy("relevance_score");
    }

    method Select(arg: FieldsArg, more: seq<string> := [])
      modifies this`select
      ensures select == SelectedFields(arg, more)
    {
      select := SelectedFields(arg, more);
    }

    /** A number of seconds is turned into an expiry instant against the
        clock reading `now`; the forever flag is left as it is. */
    method CacheFor(ttl: TtlArg, now: int)
      modifies this`cacheTtl
      ensures cacheTtl == Some(if ttl.Seconds? then ExpiresAt(now + ttl.count) else Interval(ttl.length))
      ensures cacheForever ==> Mode() == RememberForever
      ensures !cacheForever ==> Mode() == Remember(cacheTtl.value)
    {
      cacheTtl := Some(if ttl.Seconds? then ExpiresAt(now + ttl.count) else Interval(ttl.length));
    }

    /** Sets the forever flag; a TTL set before stays, but is ignored. */
    method CacheForever()
      modifies this`cacheForever
      ensures cacheForever && Mode() == RememberForever
    {
      cacheForever := true;
    }

    method DisableCache()
      modifies this`cacheTtl, this`cacheForever
      ensures cacheTtl == None && !cacheForever && Mode() == Direct
    {
      cacheTtl := None;
      cacheForever := false;
    }

    /** `__call`: a `whereXxx(value)` call appends its clause; anything
        else fails and leaves the filters as they were. */
    method Call(name: string, args: seq<Json>) returns (error: Option<CallError>)
      modifies this`filters
      ensures Dispatch(name, args).Ok? ==> error == None && filters == old(filters) + [Dispatch(name, args).value]
      ensures Dispatch(name, args).Err? ==> error == Some(Dispatch(name, args).error) && filters == old(filters)
    {
      match Dispatch(name, args)
      case Ok(clause) =>
        filters := filters + [clause];
        error := None;
      case Err(e) =>
        error := Some(e);
    }

    /** `buildQueryPayload()`, with the sort pairs rendered in a loop. */
    method BuildQueryPayload() returns (payload: seq<Param>)
      ensures payload == Payload(State())
    {
      ghost var q := State();
      payload := [];
      if filters != [] {
        payload := payload + [Param("filter", Text.Join(filters, ","))];
      }
      ghost var filtered := payload;
      assert filtered == Optional(q.filters != [], "filter", Text.Join(q.filters, ","));
      if SearchSent(searchQuery) {
        payload := payload + [Param("search", searchQuery.value)];
      }
      ghost var searched := payload;
      assert searched == filtered + Optional(SearchSent(q.search), "search", if q.search.Some? then q.search.value else "");
      if sortBy != [] {
        var sortParams := SortParams();
        payload := payload + [Param("sort", Text.Join(sortParams, ","))];
      }
      assert payload == searched + Optional(q.sorts != [], "sort", Text.Join(SortPairs(q.sorts), ","));
      ghost var sorted := payload;
      if select != [] {
        payload := payload + [Param("select", Text.Join(select, ","))];
      }
      assert payload == sorted + Optional(q.select != [], "select", Text.Join(q.select, ","));
    }

    /** The `foreach` over `$this->sortBy`: one `"{$key}:{$direction}"` per
        sort entry, in insertion order. */
    method SortParams() returns (sortParams: seq<string>)
      ensures sortParams == SortPairs(sortBy)
    {
      sortParams := [];
      var i := 0;
      while i < |sortBy|
        invariant 0 <= i <= |sortBy|
        invariant |sortParams| == i
        invariant forall k :: 0 <= k < i ==> sortParams[k] == SortPair(sortBy[k])
      {
        sortParams := sortParams + [sortBy[i].key + ":" + sortBy[i].direction];
        i := i + 1;
      }
    }

    /** `buildUrl($payload)`: an empty payload is replaced by the builder's own. */
    function BuildUrl(env: Env, payload: seq<Param>): (url: string)
      reads this
      ensures payload != [] ==> url == Url(env, entity, payload)
      ensures payload == [] ==> url == Url(env, entity, Payload(State()))
    {
      Url(env, entity, if payload == [] then Payload(State()) else payload)
    }

    /** `toUrl()`: the collection URL for the current state. */
    function ToUrl(env: Env): (url: string)
      reads this
      ensures url == Url(env, entity, Payload(State()))
    {
      BuildUrl(env, Payload(State()))
    }

    /** `makeRequest`: one retried GET, then the status classification. */
    method MakeRequest(http: FakeHttp, req: Request) returns (r: Result<Option<Json>, Failure>)
      modifies http
      ensures r == Classify(FinalOutcome(http.script, http.fallback, old(http.served)))
      ensures var n := Attempts(http.script, http.fallback, old(http.served), Tries);
        http.served == old(http.served) + n && http.sent == old(http.sent) + Repeat(req, n)
    {
      var o := http.Get(req);
      r := Classify(o);
    }

    /** `executeCacheable($url, $callback)`, with the callback being the
        request `req`. */
    method ExecuteCacheable(env: Env, url: string, req: Request, http: FakeHttp, cache: CacheStore)
      returns (r: Result<Option<Json>, Failure>)
      modifies http, cache
      ensures var key := CacheKey(env, url);
        && r == Cached(Mode(), key, old(cache.entries), http.script, http.fallback, old(http.served))
        && cache.entries == Stored(Mode(), key, old(cache.entries), r)
      ensures var key := CacheKey(env, url);
        var n := Attempts(http.script, http.fallback, old(http.served), Tries);
        if Hit(Mode(), key, old(cache.entries)) then
          http.served == old(http.served) && http.sent == old(http.sent)
        else
          http.served == old(http.served) + n && http.sent == old(http.sent) + Repeat(req, n)
    {
      if cacheTtl.None? && !cacheForever {
        r := MakeRequest(http, req);
        return;
      }
      var key := CacheKey(env, url);
      var lifetime := if cacheForever then Forever else Until(cacheTtl.value);
      if key in cache.entries {
        r := Ok(Some(cache.entries[key].value));
      } else {
        r := MakeRequest(http, req);
        if r.Ok? && r.value.Some? {
          cache.entries := cache.entries[key := CacheEntry(r.value.value, lifetime)];
        }
      }
    }

    method Find(env: Env, id: string, http: FakeHttp, cache: CacheStore) returns (r: Result<Option<Dto>, Failure>)
      modifies http, cache
      ensures var url := FindUrl(env, entity, id);
        var key := CacheKey(env, url);
        var raw := Cached(Mode(), key, old(cache.entries), http.script, http.fallback, old(http.served));
        var n := Attempts(http.script, http.fallback, old(http.served), Tries);
        && r == MapFound(entity, raw)
        && cache.entries == Stored(Mode(), key, old(cache.entries), raw)
        && (if Hit(Mode(), key, old(cache.entries)) then http.served == old(http.served) && http.sent == old(http.sent)
            else http.served == old(http.served) + n && http.sent == old(http.sent) + Repeat(Request(url, []), n))
    {
      var url := FindUrl(env, entity, id);
      var response := ExecuteCacheable(env, url, Request(url, []), http, cache);
      r := MapFound(entity, response);
    }

    method FindBy(env: Env, idType: string, idValue: string, http: FakeHttp, cache: CacheStore)
      returns (r: Result<Option<Dto>, Failure>)
      modifies http, cache
      ensures var url := FindByUrl(env, entity, idType, idValue);
        var key := CacheKey(env, url);
        var raw := Cached(Mode(), key, old(cache.entries), http.script, http.fallback, old(http.served));
        var n := Attempts(http.script, http.fallback, old(http.served), Tries);
        && r == MapFound(entity, raw)
        && cache.entries == Stored(Mode(), key, old(cache.entries), raw)
        && (if Hit(Mode(), key, old(cache.entries)) then http.served == old(http.served) && http.sent == old(http.sent)
            else http.served == old(http.served) + n && http.sent == old(http.sent) + Repeat(Request(url, []), n))
    {
      var url := FindByUrl(env, entity, idType, idValue);
      var response := ExecuteCacheable(env, url, Request(url, []), http, cache);
      r := MapFound(entity, response);
    }

    method FindByDoi(env: Env, doi: string, http: FakeHttp, cache: CacheStore) returns (r: Result<Option<Dto>, Failure>)
      modifies http, cache
      ensures var url := FindByUrl(env, entity, "doi", doi);
        var key := CacheKey(env, url);
        var raw := Cached(Mode(), key, old(cache.entries), http.script, http.fallback, old(http.served));
        var n := Attempts(http.script, http.fallback, old(http.served), Tries);
        && r == MapFound(entity, raw)
        && cache.entries == Stored(Mode(), key, old(cache.entries), raw)
        && (if Hit(Mode(), key, old(cache.entries)) then http.served == old(http.served) && http.sent == old(http.sent)
            else http.served == old(http.served) + n && http.sent == old(http.sent) + Repeat(Request(url, []), n))
    {
      r := FindBy(env, "doi", doi, http, cache);
    }

    method FindByOrcid(env: Env, orcid: string, http: FakeHttp, cache: CacheStore) returns (r: Result<Option<Dto>, Failure>)
      modifies http, cache
      ensures var url := FindByUrl(env, entity, "orcid", orcid);
        var key := CacheKey(env, url);
        var raw := Cached(Mode(), key, old(cache.entries), http.script, http.fallback, old(http.served));
        var n := Attempts(http.script, http.fallback, old(http.served), Tries);
        && r == MapFound(entity, raw)
        && cache.entries == Stored(Mode(), key, old(cache.entries), raw)
        && (if Hit(Mode(), key, old(cache.entries)) then http.served == old(http.served) && http.sent == old(http.sent)
            else http.served == old(http.served) + n && http.sent == old(http.sent) + Repeat(Request(url, []), n))
    {
      r := FindBy(env, "orcid", orcid, http, cache);
    }

    /** `get()`: the mapped `results` of the collection request; a 404 gives none. */
    method Get(env: Env, http: FakeHttp, cache: CacheStore) returns (r: Result<seq<Dto>, Failure>)
      modifies http, cache
      ensures var url := Url(env, entity, Payload(State()));
        var key := CacheKey(env, url);
        var raw := Cached(Mode(), key, old(cache.entries), http.script, http.fallback, old(http.served));
        var n := Attempts(http.script, http.fallback, old(http.served), Tries);
        && (raw.Err? ==> r == Err(raw.error))
        && (raw.Ok? ==> r == Ok(MapAll(entity, ResultsOf(raw.value))))
        && cache.entries == Stored(Mode(), key, old(cache.entries), raw)
        && (if Hit(Mode(), key, old(cache.entries)) then http.served == old(http.served) && http.sent == old(http.sent)
            else http.served == old(http.served) + n && http.sent == old(http.sent) + Repeat(Request(url, Payload(State())), n))
    {
      var url := BuildUrl(env, []);
      var payload := BuildQueryPayload();
      var response := ExecuteCacheable(env, url, Request(url, payload), http, cache);
      assert Payload(State()) == payload;
      match response
      case Err(e) => r := Err(e);
      case Ok(body) => r := Ok(MapAll(entity, ResultsOf(body)));
    }

    /** Two identical cached `get()` calls: when the first one stores a
        body, the second is answered from the store with the same records
        and sends nothing, so the pair sends only the first call's
        requests. */
    method GetTwice(env: Env, http: FakeHttp, cache: CacheStore) returns (first: Result<seq<Dto>, Failure>, second: Result<seq<Dto>, Failure>)
      requires Mode() != Direct
      modifies http, cache
      ensures var url := Url(env, entity, Payload(State()));
        var key := CacheKey(env, url);
        var raw := Cached(Mode(), key, old(cache.entries), http.script, http.fallback, old(http.served));
        var n := Attempts(http.script, http.fallback, old(http.served), Tries);
        raw.Ok? && raw.value.Some? ==>
          && second == first
          && (if Hit(Mode(), key, old(cache.entries)) then http.sent == old(http.sent)
              else http.sent == old(http.sent) + Repeat(Request(url, Payload(State())), n))
    {
      first := Get(env, http, cache);
      second := Get(env, http, cache);
    }

    /** `paginate($perPage, $page)`: the page's mapped items and `meta.count`
        (0 when absent), fetched with the two page parameters added. */
    method Paginate(env: Env, http: FakeHttp, cache: CacheStore, perPage: int := 25, page: int := 1)
      returns (r: Result<PageResult, Failure>)
      modifies http, cache
      ensures var payload := PagePayload(Payload(State()), perPage, page);
        var url := Url(env, entity, payload);
        var key := CacheKey(env, url);
        var raw := Cached(Mode(), key, old(cache.entries), http.script, http.fallback, old(http.served));
        var n := Attempts(http.script, http.fallback, old(http.served), Tries);
        && (raw.Err? ==> r == Err(raw.error))
        && (raw.Ok? ==> r == Ok(PageResult(MapAll(entity, ResultsOf(raw.value)), TotalOf(raw.value), perPage, page)))
        && cache.entries == Stored(Mode(), key, old(cache.entries), raw)
        && (if Hit(Mode(), key, old(cache.entries)) then http.served == old(http.served) && http.sent == old(http.sent)
            else http.served == old(http.served) + n && http.sent == old(http.sent) + Repeat(Request(url, payload), n))
    {
      var base := BuildQueryPayload();
      var payload := PagePayload(base, perPage, page);
      var url := BuildUrl(env, payload);
      assert url == Url(env, entity, payload);
      var response := ExecuteCacheable(env, url, Request(url, payload), http, cache);
      assert Payload(State()) == base;
      match response
      case Err(e) => r := Err(e);
      case Ok(body) => r := Ok(PageResult(MapAll(entity, ResultsOf(body)), TotalOf(body), perPage, page));
    }

    /** One cursor page: the builder's payload with `per-page` 200 and the
        page number, sent to the bare entity URL through `makeRequest`,
        bypassing the cache. */
    method FetchPage(http: FakeHttp, url: string, page: int) returns (results: seq<Json>, failure: Option<Failure>)
      modifies http
      ensures var c := CallPage(http.script, http.fallback, old(http.served));
        && results == c.results && failure == c.failure
        && http.served == old(http.served) + c.attempts
        && http.sent == old(http.sent) + CursorRequests(url, Payload(State()), Repeat(page, c.attempts))
    {
      var base := BuildQueryPayload();
      var payload := PagePayload(base, CursorPageSize, page);
      ghost var c := CallPage(http.script, http.fallback, http.served);
      var response := MakeRequest(http, Request(url, payload));
      assert Payload(State()) == base;
      CursorRequestsRepeat(url, base, page, c.attempts);
      match response {
        case Err(e) =>
          results, failure := [], Some(e);
        case Ok(body) =>
          results, failure := ResultsOf(body), None;
      }
    }

    /** `cursor()`, pulled by a consumer that takes at most `maxPages` pages:
        pages 1, 2, ... of 200 from the bare entity URL, never through the
        cache, until a page comes back empty or a request fails. */
    method Cursor(env: Env, http: FakeHttp, maxPages: nat) returns (items: seq<Dto>, stop: Stop)
      modifies http
      ensures var w := Walk(http.script, http.fallback, old(http.served), 1, maxPages);
        && items == MapAll(entity, w.results)
        && stop == w.stop
        && http.served == w.served
        && http.sent == old(http.sent) + CursorRequests(EntityUrl(env, entity), Payload(State()), w.pages)
    {
      var url := EntityUrl(env, entity);
      ghost var total := Walk(http.script, http.fallback, http.served, 1, maxPages);
      ghost var raw: seq<Json> := [];
      ghost var requested: seq<int> := [];
      OnTrackStart(http.script, http.fallback, http.served, maxPages);
      items := [];
      stop := Abandoned;
      var page := 1;
      var done := false;
      ghost var left := maxPages;
      while !done && page <= maxPages
        invariant 1 <= page <= maxPages + 1 && left == maxPages + 1 - page
        invariant items == MapAll(entity, raw)
        invariant http.sent == old(http.sent) + CursorRequests(url, Payload(State()), requested)
        invariant OnTrack(http.script, http.fallback, total, raw, requested, http.served, page, left, done, stop)
        decreases left
      {
        ghost var taken, fetched;
        items, stop, done, taken, fetched := CursorPage(http, url, page, left, total, items, raw, requested, old(http.sent));
        raw := raw + taken;
        requested := requested + fetched;
        page := page + 1;
        left := left - 1;
      }
      OnTrackEnd(http.script, http.fallback, total, raw, requested, http.served, page, left, done, stop);
    }

    /** One turn of the cursor's do-while: fetch the page, hand its records
        on, and stop after an error or an empty page. */
    method CursorPage(http: FakeHttp, url: string, page: int, ghost left: nat, ghost total: Walked,
                      items: seq<Dto>, ghost raw: seq<Json>, ghost requested: seq<int>, ghost sent: seq<Request>)
      returns (items': seq<Dto>, stop: Stop, done: bool, ghost taken: seq<Json>, ghost fetched: seq<int>)
      modifies http
      requires left > 0
      requires items == MapAll(entity, raw)
      requires OnTrack(http.script, http.fallback, total, raw, requested, http.served, page, left, false, Abandoned)
      requires http.sent == sent + CursorRequests(url, Payload(State()), requested)
      ensures items' == MapAll(entity, raw + taken)
      ensures http.sent == sent + CursorRequests(url, Payload(State()), requested + fetched)
      ensures OnTrack(http.script, http.fallback, total, raw + taken, requested + fetched, http.served, page + 1, left - 1, done, stop)
    {
      ghost var c := CallPage(http.script, http.fallback, http.served);
      OnTrackStep(http.script, http.fallback, total, raw, requested, http.served, page, left);
      var results, failure := FetchPage(http, url, page);
      MapAllAppend(entity, raw, results);
      items' := items + MapAll(entity, results);
      stop, done := Abandoned, false;
      if failure.Some? {
        stop, done := Failed(failure.value), true;
      } else if results == [] {
        stop, done := Exhausted, true;
      }
      assert results == c.results && stop == StopAfter(c) && done == (stop != Abandoned);
      taken, fetched := results, Repeat(page, c.attempts);
      CursorRequestsAppend(url, Payload(State()), requested, fetched);
      AppendAssociates(sent, CursorRequests(url, Payload(State()), requested), CursorRequests(url, Payload(State()), fetched));
    }
  }

  /** One page as `paginate` reports it. */
  datatype PageResult = PageResult(items: seq<Dto>, total: Json, perPage: int, currentPage: int)
}
