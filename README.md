# Realtor.ca listings scraper — a verified model

This project models the core of a small Node.js scraper for realtor.ca
listings. It has three scripts:

- `scraper_server.js` is an HTTP server. Its `/run-scrape` handler launches
  a headless browser and calls `runScraperWithRetry`. That loop makes up to
  `MAX_RETRY_ATTEMPTS + 1` attempts, one fresh page each, with a pause after
  every failed attempt but the last. Each attempt:
  - blocks unneeded requests (resource type, or a URL containing a blocked
    pattern);
  - waits for the listing API's POST response;
  - rejects a non-ok status (not 0 or 2xx) with an error carrying the status and at most
    200 characters of the body;
  - returns the parsed JSON.

  The handler answers with the payload, or with a 500 error. It closes the
  browser in `finally`.
- `scrape.js` is the stand-alone variant. It makes one attempt and no retry,
  saves a truthy payload, and closes the browser in `finally`.
- `process_listings.js` turns the saved payload into flat listing records
  (`extractListingInfo`).

The Dafny modules follow that structure:

| module | file | what it holds |
|---|---|---|
| `Wrappers` | wrappers.dfy | `Option`, `Result`, `Outcome` |
| `Text` | text.dfy | JavaScript's `includes`, `replace` with a string pattern, `substring(0, n)`, and decimal rendering of a status |
| `Listings` | listings.dfy | The payload and listing shapes; each field derivation of `extractListingInfo` as a function; its loop as a method |
| `NetworkFilter` | network_filter.dfy | The request interceptor and the response matcher, shared by both scraping scripts |
| `Attempt` | attempt.dfy | One attempt on one page, as a function of how the browser behaves (`AttemptEnv`) |
| `Browsers` | browser.dfy | The browser as a class: its pages, its `close()` count, and a ghost log of page openings, page closings and pauses |
| `Retry` | retry.dfy | `runScraperWithRetry`, specified in two parts. `RetryOutcome` is what the loop returns or throws. `Schedule` is the browser events of each attempt. The loop itself is proved against both. |
| `Server` | server.dfy | The `/run-scrape` handler and end-to-end properties |
| `Script` | script.dfy | `runScraper`, `saveData` and `main` of scrape.js |

Foreign calls are not executed by the model. Puppeteer, the browser, the
network, `JSON.parse`/`response.json()` and the file system all appear as
parameters that say how each call ends. `puppeteer.launch` is an
`Outcome<Error>`. One attempt's behaviour is an `AttemptEnv`: the outcomes of
`newPage`, the page set-up calls, `goto` and the scroll; the responses the
page receives before the timeout, in order; and the result of parsing the
matched body. The retry loop gets one `AttemptEnv` per possible attempt.

## Model

| member | source | states |
|---|---|---|
| Text.Contains | scraper_server.js:62 | `url.includes(pattern)` holds exactly when the pattern occurs at some index of the URL |
| Text.ReplaceFirstOnlyFirst | process_listings.js:42 | `replace` with the address separator (space, bar, space) rewrites only its first occurrence. The text before it and everything after it are kept verbatim, later separators included, and the length changes by the difference of the two strings |
| Text.ReplaceFirstEmpty | process_listings.js:42 | The replaced address text is empty exactly when the original is, so the `'N/A'` fallback applies only to empty text |
| Text.ReplaceFirst | process_listings.js:42 | Without an occurrence of the pattern the text is returned unchanged. With one, the length changes by the difference between the replacement and the pattern |
| Text.Take | scraper_server.js:95 | `substring(0, 200)` is a prefix of the body whose length is exactly the smaller of 200 and the body's length, so it is the whole body when that is no longer |
| Text.NatToStringRoundTrip | scraper_server.js:95 | The status written into the error message reads back as the same number |
| Listings.FlattenListing | process_listings.js:36-95 | Every text field of a record has a fallback, so none is ever empty. The raw price is `null` or non-empty |
| Listings.ExtractListingInfo | process_listings.js:28-96 | No records exactly when the payload is falsy or has no `Results` array. Otherwise one record per listing, in order, each the listing's flattening |
| Listings.FormatPhonesPointwise | process_listings.js:54-57 | The phone `map` gives one entry per phone, in order. Each entry keeps `PhoneType` and has number `AreaCode-PhoneNumber`; an absent part renders as "undefined" |
| Listings.PhoneNumberFormat | process_listings.js:56 | With both parts present, the number is the area code, one dash, then the local number |
| Listings.NoRealtorDefaults | process_listings.js:36-70 | With `Individual` missing or empty, or its first element `null`: the realtor name, brokerage name and brokerage address are `'N/A'`, and every phone, website and email list is empty |
| Listings.PrimaryRealtorIsFirst | process_listings.js:36-70 | Only `Individual[0]` matters: dropping the later elements changes no field of the record. The realtor name, phones and websites are that element's. The brokerage name, address, phones, websites and emails are its organization's |
| Listings.AddressFormatting | process_listings.js:42 | The address is `'N/A'` when the text is absent or empty. Otherwise it is the text with its first separator (space, bar, space) turned into a comma and a space |
| Listings.LinkFormatting | process_listings.js:43-44 | The link is `REALTOR_BASE_URL` followed by the relative URL when that is non-empty, and `'N/A'` otherwise |
| Listings.ScalarDefaults | process_listings.js:40-50 | Each scalar field is its value when that is a non-empty string, and `'N/A'` when it or its parent (`Property`, `Building`) is absent or the value is empty. `priceUnformatted` alone falls back to `null`: it is present exactly when `Property` and its value are, and then it is that value |
| NetworkFilter.AnyPatternIn | scraper_server.js:62 | `some(pattern => url.includes(pattern))` holds exactly when some blocked pattern occurs in the URL |
| NetworkFilter.Decide | scraper_server.js:57-68 | A request is aborted exactly when its type is blocked or its URL contains a blocked pattern, and continued otherwise |
| NetworkFilter.Intercept | scraper_server.js:57-68 | The handler gives one decision per request, in order, each the decision for that request's type and URL |
| NetworkFilter.InterceptDecidesEachRequest | scraper_server.js:57-68 | Every request gets exactly one decision, in order: aborted exactly when blocked, continued otherwise |
| NetworkFilter.RulesAreIndependent | scraper_server.js:60-63 | A blocked type is aborted whatever the URL. A blocked pattern is aborted whatever the type. Only a request matching neither rule continues |
| NetworkFilter.ImageAndStylesheetExample | scraper_server.js:60-67 | With type "image" and pattern ".css" blocked: an image is aborted, a script continues, and a script whose URL holds ".css" is aborted |
| NetworkFilter.MatcherIsExact | scraper_server.js:71 | The `waitForResponse` predicate `IsTarget`, shared with scrape.js:48: a response matches exactly when its URL equals the API URL and its method is "POST". The comparison is exact and case-sensitive, so lower-case "post" and longer URLs do not match |
| NetworkFilter.FirstMatch | scraper_server.js:70-73 | `waitForResponse` resolves with the first arriving response that matches, or with none when no response matches |
| Attempt.CheckResponse | scraper_server.js:93-100 | The checked response succeeds exactly when its status is ok and parsing succeeded. An ok status yields the parse result. Any other status yields an `Error` whose message starts "API HTTP Error " |
| Attempt.AttemptOnPage | scraper_server.js:41-100 | A failing set-up call or `goto` fails the attempt with that error. Data is returned only after set-up and navigation succeeded, from a matched response with an ok status, and it is the parsed body |
| Attempt.AttemptOutcome | scraper_server.js:36-101 | A failing `newPage` fails the attempt with its error. A success means that `newPage`, the set-up calls and `goto` all succeeded, and the payload is the parsed body |
| Attempt.HttpErrorCarriesStatusAndExcerpt | scraper_server.js:93-97 | A non-ok status fails with an `Error` whose message starts "API HTTP Error" plus the status digits and ends with a prefix of the body of length min(200, body length). An ok status yields the parse result |
| Attempt.SuccessComesFromFirstMatch | scraper_server.js:89-103 | Data is returned only when set-up, navigation and parsing succeeded, from the first matching response, whose status is ok |
| Attempt.NoMatchTimesOut | scraper_server.js:70-90 | When no response matches, the attempt fails with the wait's `TimeoutError` |
| Attempt.ScrollFailureIsSwallowed | scraper_server.js:82-87 | A failing scroll never changes the attempt's outcome |
| Browsers.Browser.constructor | scraper_server.js:149 | A launched browser has no pages and has not been closed |
| Browsers.Browser.NewPage | scraper_server.js:40 | `newPage` adds one open page and logs its opening |
| Browsers.Browser.ClosePage | scraper_server.js:38 | `page.close()` closes that page only and logs the closing |
| Browsers.Browser.CloseIfOpen | scraper_server.js:36-39 | The page is closed and the closing logged exactly when it exists and is still open. Otherwise nothing changes, and `close()` of the browser is never called |
| Browsers.Browser.Delay | scraper_server.js:117 | The pause between attempts is logged and changes no page |
| Browsers.Browser.Close | scraper_server.js:164 | `browser.close()` is counted once and leaves no page open |
| Retry.StartAttempt | scraper_server.js:36-101 | It closes the previous page if still open, then opens a new page when `newPage` succeeds, and gives the attempt's outcome. When `newPage` throws, `page` keeps the previous, now closed, page. Its events are the attempt's opening events. Of the pages the loop opened, at most the current one is open, and it is open exactly when `newPage` succeeded |
| Retry.AttemptKeepsOnePage | scraper_server.js:36-40 | After an attempt's start, at most that attempt's page is open among those the loop opened, and it is open exactly when `newPage` succeeded |
| Retry.RunScraperWithRetry | scraper_server.js:29-122 | The loop returns or throws exactly `RetryOutcome`. Its browser events are exactly `Schedule`. Pages open before the call are untouched, no page it opened is left open, and it never closes the browser. The fallback after the loop is unreachable |
| Retry.RetryOutcome | scraper_server.js:33-121 | What the loop returns is the payload of one of its attempts. What it throws is the last attempt's error |
| Retry.AttemptsFrom | scraper_server.js:33-111 | From any attempt on, at least that attempt and at most all remaining ones are made |
| Retry.Schedule | scraper_server.js:33-121 | The loop's browser events form one segment per attempt made: at least one and at most `MAX_RETRY_ATTEMPTS + 1` |
| Retry.RetryReturnsFirstSuccess | scraper_server.js:100-103 | If attempt k+1 is the first to succeed, its payload is returned and exactly k+1 attempts are made |
| Retry.RetryRethrowsLastError | scraper_server.js:105-114 | If every attempt fails, `MAX_RETRY_ATTEMPTS + 1` attempts are made and the last attempt's error is thrown |
| Retry.FirstSuccess | scraper_server.js:33-118 | A reference definition: the index of the first successful attempt, with all earlier ones failed, or none when all fail |
| Retry.RetryMatchesReference | scraper_server.js:33-121 | The loop's outcome is the first success's payload, else the last error, and it is a success exactly when some attempt succeeds. There is one segment of events per attempt made |
| Retry.ScheduleDelaysBetweenAttempts | scraper_server.js:111-117 | Exactly one pause follows each attempt but the last, none follows a success or the final failure, and each pause ends its attempt |
| Retry.ScheduleOpensOnePagePerAttempt | scraper_server.js:40 | Each attempt opens exactly one page when `newPage` succeeds and none when it throws |
| Retry.ScheduleCounts | scraper_server.js:33-117 | Over the run there is one pause fewer than attempts, and one page per attempt whose `newPage` succeeded |
| Retry.ScheduleClosesEveryPage | scraper_server.js:36-113 | Replayed from no open page, the events never open a page while one is open, never close one when none is, and end with none open |
| Retry.EveryAttemptFails | scraper_server.js:33-121 | When all attempts fail: `MAX_RETRY_ATTEMPTS + 1` attempts, `MAX_RETRY_ATTEMPTS` pauses, one page per attempt when `newPage` never fails, none left open, and the final error thrown |
| Retry.SuccessAtAttempt | scraper_server.js:33-103 | When attempt k+1 succeeds first: its payload, k+1 attempts, k pauses, and no page left open |
| Server.Respond | scraper_server.js:155-160 | The reply has status 200 with the payload exactly when scraping succeeded. Otherwise it is `{error: 'Failed to scrape data', details: message}` |
| Server.HandleRunScrape | scraper_server.js:125-168 | A failed launch replies 500 and closes nothing. After a launch the reply is the loop's outcome, the browser is closed exactly once, and no page is left open |
| Server.RunScrapeReplies | scraper_server.js:149-160 | The handler answers 200 exactly when one of the three attempts succeeds, with the first success's payload. Otherwise the details are the third attempt's error message |
| Server.TwoTimeoutsThenSuccess | scraper_server.js:29-122 | Two timeouts then a 200 with empty `Results` give that payload, after exactly two pauses, with no page left open |
| Server.AllUnavailable | scraper_server.js:93-114 | When every attempt gets a 503, the reply's details are the last attempt's HTTP error |
| Script.SameFilterAndMatcherAsServer | scrape.js:30-50 | The script's request filter and response matcher decide exactly as the server's |
| Script.RunScraper | scrape.js:22-75 | One page is opened (none when `newPage` throws) and never closed here. The result is a single attempt's outcome, with no retry and no pause |
| Script.SaveData | scrape.js:78-87 | A falsy payload is not written. Any other payload is written as is |
| Script.Written | scrape.js:103-108 | Something is written exactly when the launch and the attempt succeed with a truthy payload, and what is written is that payload |
| Script.RunScript | scrape.js:90-116 | `main` writes exactly `Written`. After a launch the browser is closed exactly once, whatever happened, and no page is left open |
| Script.NonOkResponseWritesNothing | scrape.js:66-74 | A non-ok response fails the run with the HTTP error message, and nothing is written |

## Left out

- Puppeteer and its stealth plugin are not modelled:
  - launch options, user agent, viewport, request interception switch;
  - `goto` with `networkidle`, `page.evaluate`.

  Each appears only as an outcome (`Pass`/`Fail`) that the caller supplies.
- Time is not modelled:
  - `ATTEMPT_TIMEOUT_MS` and `TIMEOUT_MS` become "the responses that arrive
    before the timeout" and the timeout error's message;
  - the 5-second `setTimeout` becomes one `Delayed` event.
- The race between registering `waitForResponse` and navigating is library
  concurrency. Responses arrive in a given order, and the first match wins.
- When `goto` throws, the attempt's `waitForResponse` promise
  (scraper_server.js:70-79) is never awaited. Its later rejection is
  unhandled and, under Node 15 or later, can end the process. The model has
  no such late event: the attempt simply fails with the navigation error.
- Express routing, `res.json`/`res.status`, `/health` and `app.listen` are
  HTTP plumbing. A reply is the `Reply` value the handler would send.
- File I/O and JSON handling are abstract:
  - `fs.readFile`/`fs.writeFile`, `JSON.parse` and `JSON.stringify` are not modelled;
  - `response.json()` is a given `Result`;
  - `saveData` returns what it would write.
- `Listings found: ...` in `saveData`, all `console` logging, the report
  loop of `process_listings.js` and the `pageerror`/`error` listeners are
  output only.
- `response.ok()` is modelled as a status of 0 or from 200 to 299, as
  Puppeteer defines it; the status is not otherwise constrained.
- `response.text()` is assumed to succeed. A failure there would replace the
  HTTP error with its own.
- `page.close()` and `browser.close()` are assumed not to throw.
- JSON values are typed in the model:
  - every listing field is an optional string, and `Results` elements are
    listing objects;
  - a `null` element of `Individual` is modelled (`None`): taken as
    `Individual[0]`, it gives the same defaults as a missing realtor;
  - a `null` element of `Results` throws at process_listings.js:36, and a
    `null` element of `Phones` throws at process_listings.js:55 (or :64).
    Neither is modelled: listings and phones are always objects;
  - JSON `null` and an absent field are both `None`. Where the source treats
    them differently they are conflated: a `null` `AreaCode` or
    `PhoneNumber` renders as "null", not "undefined", and a `null`
    `PhoneType` is kept as `type: null`, where the model records `None` as
    for an absent one;
  - an `Individual` array that is present is taken as an array.
- No lemma states that the API URL itself passes the server's filter.
  Deciding that on the literal 55-character URL against seven patterns is
  too costly for the verifier.
- scrape.js's attempt differs from the server's only in `networkidle0`
  versus `networkidle2`, the scroll offset and the timeout. All three belong
  to the environment, so both scripts share `Attempt.AttemptOutcome`. The
  script as a whole differs more: no retry, no page close, its own launch
  options and a file write (`Script.RunScript`).
- Strings are sequences of Unicode characters. JavaScript's `substring(0, 200)`
  (scraper_server.js:95, scrape.js:69) counts UTF-16 code units. On a body
  with characters outside the Basic Multilingual Plane the model's excerpt
  holds more characters than the source's, and the source's can end in half
  a surrogate pair.
