/** One scraping attempt on one page, as runScraperWithRetry's loop body and
    scrape.js's runScraper perform it. The browser calls are foreign code, so
    an attempt is driven by an `AttemptEnv`: what each of those calls does
    this time. */
module Attempt {
  import opened Wrappers
  import opened Text
  import opened NetworkFilter
  import Listings

  type Payload = Listings.Payload

  /** A thrown JavaScript `Error`: its `name` ("TimeoutError" for the library's
      timeouts, "Error" for the scripts' own) and its `message`. */
  datatype Error = Error(name: string, message: string)

  const BodyExcerptLength: nat := 200

  /** How the environment behaves during one attempt. */
  datatype AttemptEnv = AttemptEnv(
    newPage: Outcome<Error>,          // browser.newPage()
    setup: Outcome<Error>,            // setUserAgent, setViewport, setRequestInterception
    navigation: Outcome<Error>,       // page.goto(MAP_URL, ...)
    scroll: Outcome<Error>,           // page.evaluate(scrollBy)
    responses: seq<Response>,         // responses the page receives before the attempt timeout, in order
    waitTimeoutMessage: string,       // message of the TimeoutError waitForResponse throws when none matches
    parsed: Result<Payload, Error>)   // response.json() on the matched response's body

  /** `response.ok()`: a 2xx status, or status 0, which Puppeteer also
      reports as ok (a response with no HTTP status). */
  predicate IsOk(status: nat)
  {
    status == 0 || 200 <= status <= 299
  }

  /** The message thrown for a non-ok target response. */
  function HttpErrorMessage(status: nat, statusText: string, body: string): string
  {
    "API HTTP Error " + NatToString(status) + " " + statusText + ". Body: " + Take(body, BodyExcerptLength)
  }

  /** Validate the matched response: a non-ok status throws an HTTP error;
      otherwise the parsed body is the result (or the parse error). */
  function CheckResponse(response: Response, parsed: Result<Payload, Error>): (r: Result<Payload, Error>)
    ensures r.Success? <==> IsOk(response.status) && parsed.Success?
    ensures IsOk(response.status) ==> r == parsed
    ensures !IsOk(response.status) ==> r.error.name == "Error" && |r.error.message| >= 15 && r.error.message[..15] == "API HTTP Error "
  {
    if !IsOk(response.status)
    then Failure(Error("Error", HttpErrorMessage(response.status, response.statusText, response.body)))
    else parsed
  }

  /** Everything an attempt does once its page is open: set-up, navigation,
      the swallowed scroll, the wait for the first matching response, the
      status check and the parse. */
  function AttemptOnPage(cfg: Config, env: AttemptEnv): (r: Result<Payload, Error>)
    ensures env.setup.Fail? ==> r == Failure(env.setup.error)
    ensures env.setup.Pass? && env.navigation.Fail? ==> r == Failure(env.navigation.error)
    ensures r.Success? ==>
              && env.setup.Pass? && env.navigation.Pass? && r == env.parsed
              && FirstMatch(cfg, env.responses).Some?
              && IsOk(env.responses[FirstMatch(cfg, env.responses).value].status)
  {
    if env.setup.Fail? then Failure(env.setup.error)
    else if env.navigation.Fail? then Failure(env.navigation.error)
    else match FirstMatch(cfg, env.responses)
      case None => Failure(Error("TimeoutError", env.waitTimeoutMessage))
      case Some(k) => CheckResponse(env.responses[k], env.parsed)
  }

  /** The outcome of a whole attempt, `newPage` included. */
  function AttemptOutcome(cfg: Config, env: AttemptEnv): (r: Result<Payload, Error>)
    ensures env.newPage.Fail? ==> r == Failure(env.newPage.error)
    ensures r.Success? ==> env.newPage.Pass? && env.setup.Pass? && env.navigation.Pass? && r == env.parsed
  {
    if env.newPage.Fail? then Failure(env.newPage.error) else AttemptOnPage(cfg, env)
  }

  /** A non-ok response fails the attempt with a message that names the
      status and carries at most the first 200 characters of the body; an ok
      response yields exactly what parsing the body yields. */
  lemma HttpErrorCarriesStatusAndExcerpt(response: Response, parsed: Result<Payload, Error>)
    ensures !IsOk(response.status) ==>
              CheckResponse(response, parsed).Failure? &&
              CheckResponse(response, parsed).error.name == "Error"
    ensures !IsOk(response.status) ==>
              var msg := CheckResponse(response, parsed).error.message;
              var excerpt := msg[|msg| - |Take(response.body, BodyExcerptLength)|..];
              && msg[..15 + |NatToString(response.status)|] == "API HTTP Error " + NatToString(response.status)
              && DecimalValue(msg[15..15 + |NatToString(response.status)|]) == response.status
              && excerpt <= response.body
              && |excerpt| == if |response.body| <= 200 then |response.body| else 200
    ensures IsOk(response.status) ==> CheckResponse(response, parsed) == parsed
  {
    if !IsOk(response.status) {
      var digits := NatToString(response.status);
      var excerpt := Take(response.body, BodyExcerptLength);
      var msg := HttpErrorMessage(response.status, response.statusText, response.body);
      assert msg == "API HTTP Error " + digits + " " + response.statusText + ". Body: " + excerpt;
      assert msg[..15 + |digits|] == "API HTTP Error " + digits;
      assert msg[15..15 + |digits|] == digits;
      assert msg[|msg| - |excerpt|..] == excerpt;
      NatToStringRoundTrip(response.status);
    }
  }

  /** The attempt returns data only from a response that matched: the API URL
      requested with POST, with an ok status, and the first such to arrive. */
  lemma SuccessComesFromFirstMatch(cfg: Config, env: AttemptEnv)
    requires AttemptOnPage(cfg, env).Success?
    ensures env.setup.Pass? && env.navigation.Pass? && env.parsed.Success?
    ensures AttemptOnPage(cfg, env) == env.parsed
    ensures exists k :: 0 <= k < |env.responses| &&
              IsTarget(cfg, env.responses[k]) && IsOk(env.responses[k].status) &&
              forall j :: 0 <= j < k ==> !IsTarget(cfg, env.responses[j])
  {
    var k := FirstMatch(cfg, env.responses).value;
    assert IsOk(env.responses[k].status);
  }

  /** When no response matches, the attempt fails with the wait's TimeoutError. */
  lemma NoMatchTimesOut(cfg: Config, env: AttemptEnv)
    requires env.setup.Pass? && env.navigation.Pass?
    requires forall j :: 0 <= j < |env.responses| ==> !IsTarget(cfg, env.responses[j])
    ensures AttemptOnPage(cfg, env) == Failure(Error("TimeoutError", env.waitTimeoutMessage))
  {
  }

  /** A failing scroll is swallowed: it never changes the attempt's outcome. */
  lemma ScrollFailureIsSwallowed(cfg: Config, env: AttemptEnv, scroll: Outcome<Error>)
    ensures AttemptOnPage(cfg, env.(scroll := scroll)) == AttemptOnPage(cfg, env)
  {
  }
}
