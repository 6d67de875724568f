/** The `/run-scrape` handler of scraper_server.js: launch a browser, run the
    retry loop with the server's configuration, answer with the payload or
    with a 500 error, and close the browser in `finally` whenever it was
    launched. */
module Server {
  import opened Wrappers
  import opened NetworkFilter
  import opened Attempt
  import opened Browsers
  import opened Retry

  /** CONFIG.MAX_RETRY_ATTEMPTS: one initial attempt and two retries. */
  const MaxRetryAttempts: nat := 2

  const ApiUrl: string := "https://api2.realtor.ca/Listing.svc/PropertySearch_Post"

  /** The request filter and response matcher settings of the server's CONFIG. */
  const ServerConfig: Config := Config(
    ApiUrl,
    ["image", "media", "font", "stylesheet", "other"],
    [".css", "google-analytics", "googletagmanager", "doubleclick", "scorecardresearch", "youtube", "intergient"])

  const ScrapeFailed: string := "Failed to scrape data"

  /** What the handler sends: the scraped payload as JSON with status 200, or
      status 500 with `{ error, details }`. */
  datatype Reply = Ok(payload: Payload) | ServerError(error: string, details: string)
  {
    function Status(): nat
    {
      if Ok? then 200 else 500
    }
  }

  /** The reply for what the retry loop (or the launch) returned or threw. */
  function Respond(outcome: Result<Payload, Error>): (r: Reply)
    ensures r.Status() == 200 <==> outcome.Success?
    ensures outcome.Success? ==> r.payload == outcome.value
    ensures outcome.Failure? ==> r.error == ScrapeFailed && r.details == outcome.error.message
  {
    match outcome
    case Success(payload) => Ok(payload)
    case Failure(e) => ServerError(ScrapeFailed, e.message)
  }

  /** GET /run-scrape. `launch` is how `puppeteer.launch` ends; `world` how
      the environment behaves in each attempt. The returned `browser` is the
      handler's `browser` variable (null when the launch threw). */
  method HandleRunScrape(launch: Outcome<Error>, world: seq<AttemptEnv>) returns (reply: Reply, browser: Browser?)
    requires MaxRetryAttempts < |world|
    ensures launch.Fail? ==> browser == null && reply == Respond(Failure(launch.error))
    ensures launch.Pass? ==>
              && browser != null && fresh(browser)
              && reply == Respond(RetryOutcome(Trials(ServerConfig, world), MaxRetryAttempts))
              && browser.closeCalls == 1
              && browser.log == Flatten(Schedule(Trials(ServerConfig, world), MaxRetryAttempts))
              && forall p :: 0 <= p < |browser.pageOpen| ==> !browser.pageOpen[p]
  {
    browser := null;
    // try
    if launch.Fail? {
      // catch
      reply := Respond(Failure(launch.error));
    } else {
      browser := new Browser();
      var outcome := RunScraperWithRetry(browser, ServerConfig, MaxRetryAttempts, world);
      reply := Respond(outcome);
    }
    // finally
    if browser != null {
      browser.Close();
    }
  }

  /** The handler answers 200 exactly when one of the three attempts
      succeeds, and then with the first successful attempt's payload;
      otherwise its `details` are the third attempt's error message. */
  lemma RunScrapeReplies(world: seq<AttemptEnv>)
    requires MaxRetryAttempts < |world|
    ensures var reply := Respond(RetryOutcome(Trials(ServerConfig, world), MaxRetryAttempts));
      && (reply.Status() == 200 <==>
            exists k :: 0 <= k <= MaxRetryAttempts && AttemptOutcome(ServerConfig, world[k]).Success?)
      && (reply.Status() == 200 ==>
            exists k :: 0 <= k <= MaxRetryAttempts && AttemptOutcome(ServerConfig, world[k]) == Success(reply.payload)
                        && forall j :: 0 <= j < k ==> AttemptOutcome(ServerConfig, world[j]).Failure?)
      && (reply.Status() == 500 ==>
            reply.details == AttemptOutcome(ServerConfig, world[MaxRetryAttempts]).error.message)
  {
    var trials := Trials(ServerConfig, world);
    RetryMatchesReference(trials, MaxRetryAttempts);
    match FirstSuccess(trials, MaxRetryAttempts + 1)
    case Some(k) =>
      assert trials[k].outcome == AttemptOutcome(ServerConfig, world[k]);
      assert forall j :: 0 <= j < k ==> trials[j].outcome == AttemptOutcome(ServerConfig, world[j]);
    case None =>
      assert forall j :: 0 <= j <= MaxRetryAttempts ==> trials[j].outcome == AttemptOutcome(ServerConfig, world[j]);
  }

  /** An environment in which the attempt opens its page and navigates, and
      the page then receives `responses`. */
  predicate ReachesWait(env: AttemptEnv)
  {
    env.newPage.Pass? && env.setup.Pass? && env.navigation.Pass?
  }

  /** The first two attempts time out waiting for the API response; the third
      receives it with status 200 and an empty `Results` list: the handler
      answers with that payload after exactly two delays, and no page is left
      open. */
  lemma TwoTimeoutsThenSuccess(world: seq<AttemptEnv>, statusText: string, body: string)
    requires |world| == 3
    requires ReachesWait(world[0]) && world[0].responses == []
    requires ReachesWait(world[1]) && world[1].responses == []
    requires ReachesWait(world[2]) && world[2].responses == [Response(ApiUrl, PostMethod, 200, statusText, body)]
    requires world[2].parsed == Success(Listings.Value(Some([])))
    ensures Respond(RetryOutcome(Trials(ServerConfig, world), MaxRetryAttempts)) == Ok(Listings.Value(Some([])))
    ensures Count(Delayed, Flatten(Schedule(Trials(ServerConfig, world), MaxRetryAttempts))) == 2
    ensures PagesAfter(Flatten(Schedule(Trials(ServerConfig, world), MaxRetryAttempts)), false) == Some(false)
  {
    var trials := Trials(ServerConfig, world);
    assert trials[0].outcome == Failure(Error("TimeoutError", world[0].waitTimeoutMessage));
    assert trials[1].outcome == Failure(Error("TimeoutError", world[1].waitTimeoutMessage));
    assert FirstMatch(ServerConfig, world[2].responses) == Some(0);
    assert trials[2].outcome == Success(Listings.Value(Some([])));
    SuccessAtAttempt(trials, MaxRetryAttempts, 2);
  }

  /** Every attempt receives the API response with status 503: the handler
      answers 500, and its details are the HTTP error of the last attempt,
      not of an earlier one. */
  lemma AllUnavailable(world: seq<AttemptEnv>)
    requires |world| == 3
    requires forall k :: 0 <= k < 3 ==>
               ReachesWait(world[k]) && |world[k].responses| == 1 &&
               world[k].responses[0].url == ApiUrl && world[k].responses[0].requestMethod == PostMethod &&
               world[k].responses[0].status == 503
    ensures var r := world[2].responses[0];
      Respond(RetryOutcome(Trials(ServerConfig, world), MaxRetryAttempts))
        == ServerError(ScrapeFailed, HttpErrorMessage(503, r.statusText, r.body))
  {
    var trials := Trials(ServerConfig, world);
    forall k | 0 <= k < 3
      ensures trials[k].outcome == Failure(Error("Error", HttpErrorMessage(503, world[k].responses[0].statusText, world[k].responses[0].body)))
    {
      assert FirstMatch(ServerConfig, world[k].responses) == Some(0);
    }
    RetryRethrowsLastError(trials, MaxRetryAttempts);
  }
}
