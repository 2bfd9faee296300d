/**
 * The three request handlers of server.js over the `urls` table: shorten
 * (POST /api/shorten), redirect (GET /:code) and stats
 * (GET /api/stats/:shortCode). Each handler is a method on a `Table` and is
 * proved equal to a pure step function, about which the promised behaviour is
 * stated.
 */
module Server {
  import opened Wrappers
  import opened ShortCode
  import opened Validation
  import opened UrlStore

  const NotFoundMessage: string := "Short URL not found"

  /** Answers of POST /api/shorten. */
  datatype ShortenResponse =
    | Created(shortUrl: string, shortCode: string)
    | BadRequest(error: string)
      /** The supplied draws ran out while every candidate was taken: the loop has not answered yet. */
    | StillGenerating
  {
    /** The HTTP status of an answer the server actually sends. */
    function Status(): nat
      requires !StillGenerating?
    {
      if Created? then 201 else 400
    }
  }

  /**
   * Answers of GET /:code. `location` is the string handed to `res.redirect`;
   * `clicks` is the count the UPDATE returned before redirecting.
   */
  datatype RedirectResponse =
    | Found(location: string, clicks: nat)
    | RedirectNotFound(error: string)
  {
    function Status(): nat {
      match this
      case Found(_, _) => 302
      case RedirectNotFound(_) => 404
    }
  }

  /** Answers of GET /api/stats/:shortCode: the stored row, or 404. */
  datatype StatsResponse =
    | Row(shortCode: string, originalUrl: string, clicks: nat)
    | StatsNotFound(error: string)
  {
    function Status(): nat {
      match this
      case Row(_, _, _) => 200
      case StatsNotFound(_) => 404
    }
  }

  predicate EndsWith(s: string, suffix: string) {
    |suffix| <= |s| && s[|s| - |suffix|..] == suffix
  }

  /** The short URL: the request's protocol, `://`, its host, `/`, then the code. */
  function ShortUrl(protocol: string, host: string, shortCode: string): string {
    protocol + "://" + host + "/" + shortCode
  }

  lemma ShortUrlShape(protocol: string, host: string, shortCode: string)
    ensures StartsWith(ShortUrl(protocol, host, shortCode), protocol + "://" + host)
    ensures EndsWith(ShortUrl(protocol, host, shortCode), "/" + shortCode)
  {
    var prefix := protocol + "://" + host;
    assert ShortUrl(protocol, host, shortCode) == prefix + ("/" + shortCode);
  }

  /**
   * Where the uniqueness loop stops when it starts at candidate `from`: the
   * first candidate whose code is not a key of `rows`, or None when all are.
   */
  function FirstFreeFrom(rows: Rows, candidates: seq<Draws>, from: nat): (r: Option<nat>)
    requires from <= |candidates|
    decreases |candidates| - from
    ensures r.Some? ==> from <= r.value < |candidates| && Code(candidates[r.value]) !in rows
    ensures r.Some? ==> forall j :: from <= j < r.value ==> Code(candidates[j]) in rows
    ensures r.None? ==> forall j :: from <= j < |candidates| ==> Code(candidates[j]) in rows
  {
    if from == |candidates| then None
    else if Code(candidates[from]) !in rows then Some(from)
    else FirstFreeFrom(rows, candidates, from + 1)
  }

  /** The code the uniqueness loop settles on. */
  function UniqueCode(rows: Rows, candidates: seq<Draws>): (r: Option<string>)
    ensures r.Some? ==> r.value !in rows && IsShortCode(r.value)
    ensures r.None? <==> forall j :: 0 <= j < |candidates| ==> Code(candidates[j]) in rows
  {
    match FirstFreeFrom(rows, candidates, 0)
    case None => None
    case Some(i) => GeneratedIsShortCode(candidates[i]); Some(Code(candidates[i]))
  }

  /** The whole shorten request on a table `rows`: the answer and the table after it. */
  function ShortenStep(rows: Rows, originalUrl: Option<string>, candidates: seq<Draws>,
                       protocol: string, host: string): (r: (ShortenResponse, Rows))
    ensures r.0 == BadRequest("Original URL is required") <==> !IsTruthy(originalUrl)
    ensures r.0 == BadRequest("URL must start with http:// or https://") <==>
              IsTruthy(originalUrl) && !HasWebScheme(originalUrl.value)
    ensures r.0.Created? <==>
              originalUrl.Some? && HasWebScheme(originalUrl.value) && UniqueCode(rows, candidates).Some?
    ensures !r.0.Created? ==> r.1 == rows
    ensures r.0.Created? ==>
              && UniqueCode(rows, candidates) == Some(r.0.shortCode)
              && r.0.shortUrl == ShortUrl(protocol, host, r.0.shortCode)
              && r.0.shortCode !in rows
              && IsShortCode(r.0.shortCode)
              && EndsWith(r.0.shortUrl, "/" + r.0.shortCode)
              && r.1.Keys == rows.Keys + {r.0.shortCode}
              && |r.1| == |rows| + 1
              && originalUrl == Some(r.1[r.0.shortCode].originalUrl)
              && r.1[r.0.shortCode].clicks == DefaultClicks
              && forall c :: c in rows ==> r.1[c] == rows[c]
  {
    match ValidateOriginalUrl(originalUrl)
    case Failure(e) => (BadRequest(e.Message()), rows)
    case Success(url) =>
      match UniqueCode(rows, candidates)
      case None => (StillGenerating, rows)
      case Some(code) =>
        ShortUrlShape(protocol, host, code);
        (Created(ShortUrl(protocol, host, code), code), rows[code := UrlRecord(url, DefaultClicks)])
  }

  /** The whole redirect request on a table `rows`: the answer and the table after it. */
  function RedirectStep(rows: Rows, code: string): (r: (RedirectResponse, Rows))
    ensures code !in rows ==> r.0 == RedirectNotFound(NotFoundMessage) && r.1 == rows
    ensures code in rows ==>
              && r.0 == Found(rows[code].originalUrl, rows[code].clicks + 1)
              && r.1.Keys == rows.Keys
              && r.1[code].originalUrl == rows[code].originalUrl
              && r.1[code].clicks == rows[code].clicks + 1
              && forall c :: c in rows && c != code ==> r.1[c] == rows[c]
  {
    if code !in rows then (RedirectNotFound(NotFoundMessage), rows)
    else
      var record := rows[code];
      (Found(record.originalUrl, record.clicks + 1), rows[code := record.(clicks := record.clicks + 1)])
  }

  /** The answer of the stats request on a table `rows` (the table is not changed). */
  function StatsOf(rows: Rows, shortCode: string): (r: StatsResponse)
    ensures r.Row? <==> shortCode in rows
    ensures r.Row? ==> r.shortCode == shortCode && UrlRecord(r.originalUrl, r.clicks) == rows[shortCode]
    ensures r.StatsNotFound? ==> r.error == NotFoundMessage
  {
    if shortCode in rows then Row(shortCode, rows[shortCode].originalUrl, rows[shortCode].clicks)
    else StatsNotFound(NotFoundMessage)
  }

  /**
   * The uniqueness loop: draw a candidate, look it up, stop at the first one
   * the table does not hold. `candidates` bounds the otherwise unbounded loop.
   */
  method FindUniqueCode(table: Table, candidates: seq<Draws>) returns (shortCode: Option<string>)
    ensures shortCode == UniqueCode(table.rows, candidates)
    ensures shortCode.Some? ==> shortCode.value !in table.rows
  {
    var i := 0;
    var isUnique := false;
    var code := "";
    while !isUnique && i < |candidates|
      invariant 0 <= i <= |candidates|
      invariant !isUnique ==> FirstFreeFrom(table.rows, candidates, 0) == FirstFreeFrom(table.rows, candidates, i)
      invariant isUnique ==> 0 < i && FirstFreeFrom(table.rows, candidates, 0) == Some(i - 1)
                               && code == Code(candidates[i - 1])
      decreases |candidates| - i
    {
      code := GenerateShortCode(candidates[i]);
      var existing := table.SelectByCode(code);
      i := i + 1;
      if existing.None? {
        isUnique := true;
      }
    }
    shortCode := if isUnique then Some(code) else None;
  }

  /** POST /api/shorten. */
  method Shorten(table: Table, originalUrl: Option<string>, candidates: seq<Draws>,
                 protocol: string, host: string) returns (response: ShortenResponse)
    modifies table
    ensures (response, table.rows) == ShortenStep(old(table.rows), originalUrl, candidates, protocol, host)
  {
    match ValidateOriginalUrl(originalUrl)
    case Failure(e) =>
      response := BadRequest(e.Message());
    case Success(url) =>
      var shortCode := FindUniqueCode(table, candidates);
      match shortCode
      case None =>
        response := StillGenerating;
      case Some(code) =>
        var inserted := table.Insert(url, code);
        // the code was found absent just before, so the unique column accepts it
        assert inserted;
        response := Created(ShortUrl(protocol, host, code), code);
  }

  /** GET /:code: look the code up, count the click, then redirect. */
  method Redirect(table: Table, code: string) returns (response: RedirectResponse)
    modifies table
    ensures (response, table.rows) == RedirectStep(old(table.rows), code)
  {
    var result := table.SelectByCode(code);
    if result.None? {
      return RedirectNotFound(NotFoundMessage);
    }
    var updated := table.IncrementClicks(code);
    response := Found(result.value.originalUrl, updated.value);
  }

  /** GET /api/stats/:shortCode: a read-only lookup. */
  method Stats(table: Table, shortCode: string) returns (response: StatsResponse)
    ensures response == StatsOf(table.rows, shortCode)
    ensures response.Row? <==> shortCode in table.rows
  {
    var result := table.SelectByCode(shortCode);
    if result.None? {
      return StatsNotFound(NotFoundMessage);
    }
    response := Row(shortCode, result.value.originalUrl, result.value.clicks);
  }
}
