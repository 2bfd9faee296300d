/**
 * Sequences of requests handled one after another against one table: the
 * properties server.js keeps across requests (records are never removed or
 * rewritten, clicks count redirects, stats are stable between redirects, a
 * shortened URL is handed back unchanged to `res.redirect`).
 */
module Sessions {
  import opened Wrappers
  import opened ShortCode
  import opened Validation
  import opened UrlStore
  import opened Server

  datatype Request =
    | ShortenRequest(originalUrl: Option<string>, candidates: seq<Draws>, protocol: string, host: string)
    | RedirectRequest(code: string)
    | StatsRequest(shortCode: string)

  /** The table after one request. */
  function After(rows: Rows, request: Request): Rows {
    match request
    case ShortenRequest(url, candidates, protocol, host) => ShortenStep(rows, url, candidates, protocol, host).1
    case RedirectRequest(code) => RedirectStep(rows, code).1
    case StatsRequest(_) => rows
  }

  /** The table after the requests, handled in order. */
  function Run(rows: Rows, requests: seq<Request>): Rows
    decreases |requests|
  {
    if requests == [] then rows else Run(After(rows, requests[0]), requests[1..])
  }

  /** How many of the requests redirect through `code`. */
  function Visits(requests: seq<Request>, code: string): nat {
    if requests == [] then 0
    else (if requests[0] == RedirectRequest(code) then 1 else 0) + Visits(requests[1..], code)
  }

  /** Every stored code is a generated code and every stored URL passed the scheme check. */
  ghost predicate WellFormed(rows: Rows) {
    forall c :: c in rows ==> IsShortCode(c) && HasWebScheme(rows[c].originalUrl)
  }

  lemma AfterPreservesWellFormed(rows: Rows, request: Request)
    requires WellFormed(rows)
    ensures WellFormed(After(rows, request))
  {
    match request
    case ShortenRequest(url, candidates, protocol, host) =>
      var r := ShortenStep(rows, url, candidates, protocol, host);
      if r.0.Created? {
        assert HasWebScheme(r.1[r.0.shortCode].originalUrl);
      }
    case RedirectRequest(code) =>
    case StatsRequest(_) =>
  }

  lemma {:induction false} RunPreservesWellFormed(rows: Rows, requests: seq<Request>)
    requires WellFormed(rows)
    ensures WellFormed(Run(rows, requests))
    decreases |requests|
  {
    if requests != [] {
      AfterPreservesWellFormed(rows, requests[0]);
      RunPreservesWellFormed(After(rows, requests[0]), requests[1..]);
    }
  }

  /**
   * A record, once stored, stays: its URL never changes, and its clicks grow by
   * exactly the number of redirects through its code.
   */
  lemma {:induction false} RunKeepsRecords(rows: Rows, requests: seq<Request>, code: string)
    requires code in rows
    ensures code in Run(rows, requests)
    ensures Run(rows, requests)[code].originalUrl == rows[code].originalUrl
    ensures Run(rows, requests)[code].clicks == rows[code].clicks + Visits(requests, code)
    decreases |requests|
  {
    if requests != [] {
      var next := After(rows, requests[0]);
      assert code in next && next[code].originalUrl == rows[code].originalUrl;
      assert next[code].clicks == rows[code].clicks + (if requests[0] == RedirectRequest(code) then 1 else 0);
      RunKeepsRecords(next, requests[1..], code);
    }
  }

  /** The table only grows: no request removes a code. */
  lemma {:induction false} RunOnlyAddsCodes(rows: Rows, requests: seq<Request>)
    ensures rows.Keys <= Run(rows, requests).Keys
  {
    forall code | code in rows
      ensures code in Run(rows, requests)
    {
      RunKeepsRecords(rows, requests, code);
    }
  }

  /** With no redirect through `code` in between, stats on it answer the same. */
  lemma StatsStableWithoutVisits(rows: Rows, requests: seq<Request>, code: string)
    requires code in rows
    requires Visits(requests, code) == 0
    ensures StatsOf(Run(rows, requests), code) == StatsOf(rows, code)
  {
    RunKeepsRecords(rows, requests, code);
  }

  /**
   * Shorten, then redirect through the returned code, then ask for stats: the
   * redirect hands the byte-identical original URL to `res.redirect` and the count reads 1.
   */
  lemma ShortenRedirectStats(rows: Rows, originalUrl: string, candidates: seq<Draws>,
                             protocol: string, host: string)
    requires ShortenStep(rows, Some(originalUrl), candidates, protocol, host).0.Created?
    ensures var (created, afterShorten) := ShortenStep(rows, Some(originalUrl), candidates, protocol, host);
            var (redirected, afterRedirect) := RedirectStep(afterShorten, created.shortCode);
            && StatsOf(afterShorten, created.shortCode) == Row(created.shortCode, originalUrl, 0)
            && redirected == Found(originalUrl, 1)
            && StatsOf(afterRedirect, created.shortCode) == Row(created.shortCode, originalUrl, 1)
  {
  }
}
