/** The two collaborators the builder talks to: the HTTP client, with the
    retry policy the builder asks it for, and the cache store. Both are stand-ins
    with observable state: the HTTP client serves a scripted sequence of
    outcomes (as a faked client does) and logs every request sent; the cache
    store is a map from key to stored raw body. */
module Services {
  import opened JsonValues

  /** One query-string parameter; the payload keeps them in insertion order. */
  datatype Param = Param(name: string, value: string)

  datatype Request = Request(url: string, query: seq<Param>)

  /** A received response: status code, reason phrase and the decoded body
      (`JNull` for a body that is empty or does not decode). */
  datatype Response = Response(status: int, reason: string, body: Json)

  /** One attempt either gets a response or fails to connect. */
  datatype Outcome = Responded(response: Response) | ConnectionFailed

  /** `retry(3, 100, throw: false)`: at most three attempts per call. */
  const Tries: nat := 3

  /** An attempt ends the retrying unless it failed: a connection failure
      or a response the client counts as failed (status 400 and above) is
      tried again, while any other response, a redirect included, is final. */
  predicate Final(o: Outcome)
  {
    o.Responded? && o.response.status < 400
  }

  /** The outcome served for the `i`-th request overall: the script in order,
      then the fallback once the script is used up. */
  function Nth(script: seq<Outcome>, fallback: Outcome, i: nat): Outcome
  {
    if i < |script| then script[i] else fallback
  }

  /** Number of attempts one call makes when the outcomes are served from
      position `at` on: it retries while attempts fail and some remain. Every
      attempt before the last one failed, and when fewer than `tries` were
      made the last one was final. */
  function Attempts(script: seq<Outcome>, fallback: Outcome, at: nat, tries: nat): (n: nat)
    requires tries >= 1
    ensures 1 <= n <= tries
    ensures forall i :: at <= i < at + n - 1 ==> !Final(Nth(script, fallback, i))
    ensures n < tries ==> Final(Nth(script, fallback, at + n - 1))
    decreases tries
  {
    if tries == 1 || Final(Nth(script, fallback, at)) then 1
    else 1 + Attempts(script, fallback, at + 1, tries - 1)
  }

  /** The outcome a call starting at position `at` hands back: that of its
      last attempt. */
  function FinalOutcome(script: seq<Outcome>, fallback: Outcome, at: nat): Outcome
  {
    Nth(script, fallback, at + Attempts(script, fallback, at, Tries) - 1)
  }

  /** `n` copies of `x`: a request logged once per attempt. */
  function Repeat<T>(x: T, n: nat): (r: seq<T>)
    ensures |r| == n && forall i :: 0 <= i < n ==> r[i] == x
  {
    seq(n, _ => x)
  }

  /** A failed attempt followed by a final one costs two requests and
      returns the final one. */
  lemma RetryThenSucceed(script: seq<Outcome>, fallback: Outcome, at: nat)
    requires at + 1 < |script|
    requires !Final(script[at]) && Final(script[at + 1])
    ensures Attempts(script, fallback, at, Tries) == 2
    ensures FinalOutcome(script, fallback, at) == script[at + 1]
  {
    assert Attempts(script, fallback, at + 1, Tries - 1) == 1;
  }

  /** Three failed attempts exhaust the retries; the third one is returned. */
  lemma RetryGivesUp(script: seq<Outcome>, fallback: Outcome, at: nat)
    requires at + 2 < |script|
    requires !Final(script[at]) && !Final(script[at + 1]) && !Final(script[at + 2])
    ensures Attempts(script, fallback, at, Tries) == 3
    ensures FinalOutcome(script, fallback, at) == script[at + 2]
  {
  }

  /** The HTTP client as the builder sees it: it serves the scripted outcomes
      in order (`served` of them so far) and logs every request it is sent. */
  class FakeHttp {
    const script: seq<Outcome>
    const fallback: Outcome
    var served: nat
    var sent: seq<Request>

    constructor (script: seq<Outcome>, fallback: Outcome)
      ensures this.script == script && this.fallback == fallback && served == 0 && sent == []
    {
      this.script := script;
      this.fallback := fallback;
      served := 0;
      sent := [];
    }

    /** A GET with the retry policy: serves one outcome per attempt and logs
        the request once per attempt. */
    method Get(req: Request) returns (o: Outcome)
      modifies this
      ensures var n := Attempts(script, fallback, old(served), Tries);
        && o == FinalOutcome(script, fallback, old(served))
        && served == old(served) + n
        && sent == old(sent) + Repeat(req, n)
    {
      var n := Attempts(script, fallback, served, Tries);
      o := Nth(script, fallback, served + n - 1);
      served := served + n;
      sent := sent + Repeat(req, n);
    }
  }

  /** A time-to-live as the builder stores it: an absolute expiry instant
      (`now()->addSeconds(n)`) or a `DateInterval`, kept opaque. */
  datatype Ttl = ExpiresAt(instant: int) | Interval(length: int)

  datatype Lifetime = Forever | Until(ttl: Ttl)

  datatype CacheEntry = CacheEntry(value: Json, lifetime: Lifetime)

  /** The cache store: key to stored raw body and the lifetime it was stored with. */
  class CacheStore {
    var entries: map<string, CacheEntry>

    constructor ()
      ensures entries == map[]
    {
      entries := map[];
    }
  }
}
