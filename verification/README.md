# URL shortener core, modelled in Dafny

This project models the request logic of a small URL-shortening service
(`server.js`). The service turns a long URL into a six-character code and
stores the pair in a `urls` table. It redirects a code back to its URL and
counts each click. It also reports a code's row on a stats request.

The model is sequential: each request runs to completion before the next one
starts. The modules are:

- `ShortCode` (`short_code.dfy`): the 62-symbol alphabet and `generateShortCode`.
  The for loop becomes `GenerateShortCode`, proved equal to the function `Code`.
  Each `Math.floor(Math.random() * 62)` becomes a supplied `Draw` in [0, 62).
  `Code` also models `charAt` for a position outside the alphabet, where it
  returns the empty string.
- `Validation` (`validation.dfy`): the two input checks of the shorten request,
  as pure functions. A missing or empty `originalUrl` is rejected first. A URL
  that starts with neither `http://` nor `https://` is rejected second.
- `UrlStore` (`url_store.dfy`): the `urls` table as a class holding a map from
  `short_code` to (`original_url`, `clicks`). It has one method per SQL statement
  the handlers issue: the SELECT by code, the INSERT and the
  `UPDATE ... clicks = clicks + 1 ... RETURNING clicks`.
- `Server` (`server.dfy`): the three handlers as methods on the table, with the
  uniqueness loop as `FindUniqueCode`. Each handler is proved equal to a pure
  step function (`ShortenStep`, `RedirectStep`, `StatsOf`). The promised
  behaviour is stated on those step functions.
- `Sessions` (`sessions.dfy`): sequences of requests. Records are never removed
  or rewritten. Clicks grow by exactly the number of redirects. Stats stay the
  same between redirects. Redirecting through a fresh code hands the
  original URL, unchanged, to `res.redirect`.

Assumptions taken from outside `server.js`:

- A new row starts with `clicks = 0` (`DefaultClicks`). The INSERT relies on the
  column default, and the schema file is not part of this model.
- `short_code` is a unique column, so `Table.Insert` refuses a duplicate key.
  In the sequential model the shorten handler never reaches that case: the
  loop has just checked that the code is absent.
- `res.redirect` answers 302, Express's default.

`server.js` does not retry the INSERT after a unique-key violation, and
neither does the model.

## Model

| member | source | states |
|---|---|---|
| `ShortCode.GenerateShortCode` | server.js:13-20 | the loop builds `Code(draws)`; the result is six characters of [a-zA-Z0-9], and character k is the alphabet symbol at draw k |
| `ShortCode.RunsAreConsecutive` | server.js:14 | the alphabet literal is the consecutive runs a-z, A-Z and 0-9, in that order |
| `ShortCode.CharactersAreAlphanumeric` | server.js:14 | the alphabet has 62 symbols and is exactly [a-zA-Z0-9]; each symbol appears once, and `IndexOf` gives its position |
| `ShortCode.CodeAt` | server.js:15-18 | when every draw is in [0, 62), the code has one character per draw, and that character is the alphabet symbol at the draw |
| `ShortCode.CodeLengthBound` | server.js:15-18 | appending `charAt` results never gives more characters than there are draws |
| `ShortCode.OutOfRangeDrawShortensCode` | server.js:17 | a draw outside [0, 62) makes `charAt` return "", so the code comes out shorter than six |
| `ShortCode.GeneratedIsShortCode` | server.js:13-20 | every generated code has length 6 and uses only [a-zA-Z0-9] |
| `ShortCode.EveryShortCodeIsGenerated` | server.js:14-18 | every six-character [a-zA-Z0-9] string is produced by some in-range draws |
| `ShortCode.CodeIsInjective` | server.js:14-18 | different draws always give different codes |
| `Validation.ValidateOriginalUrl` | server.js:29-40 | missing or empty gives "Original URL is required"; otherwise, without the `http://` or `https://` prefix, gives "URL must start with http:// or https://"; otherwise the URL is accepted unchanged |
| `Validation.HasWebSchemeIffSchemePrefixed` | server.js:38 | the scheme check holds exactly when the URL is `http://` or `https://` followed by some string |
| `UrlStore.Table.SelectByCode` | server.js:49-53 | the lookup returns the row exactly when the code is a key, and changes nothing |
| `UrlStore.Table.Insert` | server.js:58-61 | a fresh code gets a new row with the given URL and the default click count; a taken code is refused and the table stays as it was |
| `UrlStore.Table.IncrementClicks` | server.js:88-91 | a matching row has its clicks raised by one and the new count returned; nothing else changes; with no match nothing is returned or changed |
| `Server.ShortUrlShape` | server.js:64 | the short URL begins with `protocol://host` and ends with `/` followed by the code |
| `Server.FirstFreeFrom` | server.js:47-56 | the loop stops at the first candidate whose code is not a key; every earlier candidate's code is a key; if none is free, all are keys |
| `Server.UniqueCode` | server.js:43-56 | the code the loop returns is never an existing key and is a well-formed short code; there is none only when every candidate is taken |
| `Server.FindUniqueCode` | server.js:43-56 | the while loop, with its lookups, returns exactly `UniqueCode` of the table |
| `Server.ShortenStep` | server.js:26-72 | a rejection leaves the table unchanged and gives the matching 400 message, with the required check first. On success, exactly one entry is added: a fresh, well-formed code mapped to the identical URL with default clicks. Every other entry is kept, and the code is the loop's first free candidate (`UniqueCode`); `shortUrl` is `ShortUrl` of protocol, host and code, so it ends in `/` + code |
| `Server.Shorten` | server.js:26-72 | the handler's response and new table are those of `ShortenStep` |
| `Server.RedirectStep` | server.js:74-102 | an unknown code gives 404 "Short URL not found" and no change. A known code gets exactly +1 clicks and keeps its URL, other rows are untouched, and the redirect goes to the stored URL with the incremented count already observed |
| `Server.Redirect` | server.js:74-102 | the handler looks up, increments, then redirects; its response and new table are those of `RedirectStep` |
| `Server.StatsOf` | server.js:104-123 | a known code gives its stored row; an unknown code gives 404 "Short URL not found" |
| `Server.Stats` | server.js:104-123 | the handler modifies nothing and answers `StatsOf` of the table |
| `Sessions.AfterPreservesWellFormed` | server.js:58-61 | one request keeps every key a well-formed code and every stored URL web-schemed |
| `Sessions.RunPreservesWellFormed` | server.js:26-123 | any sequence of requests keeps that invariant |
| `Sessions.RunKeepsRecords` | server.js:88-91 | across any requests, a stored record stays, with its URL unchanged; its clicks rise by exactly the number of redirects through its code |
| `Sessions.RunOnlyAddsCodes` | server.js:58-61 | every code stored before a sequence of requests is still stored after it |
| `Sessions.StatsStableWithoutVisits` | server.js:108-117 | with no redirect through a code in between, stats on it give the same answer, including the same clicks |
| `Sessions.ShortenRedirectStats` | server.js:58-96 | after a successful shorten, stats show 0 clicks; redirecting through the returned code hands the identical URL to `res.redirect`, and stats then show 1 click |

## Left out

- Express setup, CORS, JSON body parsing, dotenv, `GET /` and `app.listen` (server.js:1-10, 22-24, 125-127): framework plumbing.
- The `pg` pool and SQL execution: the table is an in-memory map whose operations follow the SQL text. Store failures, and the 500 "Internal server error" answers of the `catch` blocks, are not modelled because the map cannot fail.
- Values the store would refuse: the model's `clicks` is unbounded, while the 32-bit `integer` column makes the `UPDATE` at server.js:88-91 fail at 2147483647, so the real handler answers 500 and keeps the row where the model answers `Found` with 2147483648; and an `originalUrl` containing a NUL character, which a `text` column refuses, makes the INSERT at server.js:58-61 fail with a 500 where the model answers `Created`.
- The Location header: `Found.location` is the string handed to `res.redirect` (server.js:96); Express's percent-encoding of that string when it writes the header (spaces, non-ASCII characters) is not modelled.
- `Math.random()` and the floating-point `Math.floor(... * 62)`: replaced by supplied integer draws in [0, 62).
- Termination of the retry loop: the loop consumes a finite sequence of candidate draws. When every candidate is taken, the model answers `StillGenerating` and leaves the table unchanged. The real server would still be looping at that point.
- Concurrency: the async suspension points and the check-then-insert race between simultaneous shorten requests. Each request is atomic here.
- `console.log` / `console.error`. The click count that server.js:93 logs is kept in `Found.clicks`, so the model still shows that the increment is observed before the redirect.
- Request bodies whose `originalUrl` is not a string (a number, a boolean, an object): `originalUrl` is either absent or a string. The JavaScript truthiness of other values, and `startsWith` throwing on them, are not modelled.
- The repeated `!originalUrl` check at server.js:33-35: unreachable, so it is not modelled separately.
- The `id` and creation-timestamp columns that `SELECT *` would also return: the schema is not part of this model, so a stats row carries only code, URL and clicks.
- `req.protocol` and `req.get('host')`: plain string parameters, joined as in the template literal.
