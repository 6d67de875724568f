/** scrape.js: the stand-alone variant. `main` launches a browser, makes one
    attempt (`runScraper`, no retry, its page never closed before the
    browser is), hands the payload to `saveData`, swallows any error, and
    closes the browser in `finally` whenever it was launched. */
module Script {
  import opened Wrappers
  import opened NetworkFilter
  import opened Attempt
  import opened Browsers
  import Listings
  import Server

  /** The request filter and response matcher settings of the script's CONFIG:
      the same API URL, resource types and URL patterns as the server's. */
  const ScriptConfig: Config := Config(
    "https://api2.realtor.ca/Listing.svc/PropertySearch_Post",
    ["image", "media", "font", "stylesheet", "other"],
    [".css", "google-analytics", "googletagmanager", "doubleclick", "scorecardresearch", "youtube", "intergient"])

  /** The script's filter and matcher are the server's: every request gets
      the same decision and every response the same verdict. */
  lemma SameFilterAndMatcherAsServer(resourceType: string, url: string, response: Response)
    ensures Decide(ScriptConfig, resourceType, url) == Decide(Server.ServerConfig, resourceType, url)
    ensures IsTarget(ScriptConfig, response) == IsTarget(Server.ServerConfig, response)
  {
    assert ScriptConfig == Server.ServerConfig;
  }

  /** runScraper: open one page and make a single attempt on it. The page
      stays open; when `newPage` throws, nothing is opened. */
  method RunScraper(browser: Browser, env: AttemptEnv) returns (result: Result<Payload, Error>)
    modifies browser
    ensures result == AttemptOutcome(ScriptConfig, env)
    ensures browser.pageOpen == old(browser.pageOpen) + if env.newPage.Pass? then [true] else []
    ensures browser.log == old(browser.log) + if env.newPage.Pass? then [PageOpened] else []
    ensures browser.closeCalls == old(browser.closeCalls)
  {
    if env.newPage.Fail? {
      return Failure(env.newPage.error);
    }
    var page := browser.NewPage();
    result := AttemptOnPage(ScriptConfig, env);
  }

  /** saveData: what is written to the output file, if anything. A falsy
      payload is not written. */
  function SaveData(data: Payload): (written: Option<Payload>)
    ensures written.None? <==> data == Listings.FalsyValue
    ensures written.Some? ==> written.value == data
  {
    if data == Listings.FalsyValue then None else Some(data)
  }

  /** What a run of the script writes: only a payload a successful attempt
      returned, and only when it is not falsy. */
  function Written(launch: Outcome<Error>, env: AttemptEnv): (w: Option<Payload>)
    ensures w.Some? <==>
              launch.Pass? && AttemptOutcome(ScriptConfig, env).Success? &&
              AttemptOutcome(ScriptConfig, env).value != Listings.FalsyValue
    ensures w.Some? ==> w.value == AttemptOutcome(ScriptConfig, env).value
  {
    if launch.Fail? then None
    else match AttemptOutcome(ScriptConfig, env)
      case Success(data) => SaveData(data)
      case Failure(_) => None
  }

  /** main. `launch` is how `puppeteer.launch` ends and `env` how the
      environment behaves in the attempt. Returns what was written and the
      `browser` variable (null when the launch threw). */
  method RunScript(launch: Outcome<Error>, env: AttemptEnv) returns (written: Option<Payload>, browser: Browser?)
    ensures written == Written(launch, env)
    ensures launch.Fail? ==> browser == null
    ensures launch.Pass? ==>
              && browser != null && fresh(browser)
              && browser.closeCalls == 1
              && browser.log == (if env.newPage.Pass? then [PageOpened] else [])
              && forall p :: 0 <= p < |browser.pageOpen| ==> !browser.pageOpen[p]
  {
    browser := null;
    written := None;
    // try
    if launch.Pass? {
      browser := new Browser();
      var data := RunScraper(browser, env);
      if data.Success? {
        written := SaveData(data.value);
      }
      // catch: the error is only logged
    }
    // finally
    if browser != null {
      browser.Close();
    }
  }

  /** A non-ok API response fails the run: nothing is written, and the error
      names the status and carries at most the first 200 characters of the
      body. */
  lemma NonOkResponseWritesNothing(launch: Outcome<Error>, env: AttemptEnv, k: nat)
    requires env.newPage.Pass? && env.setup.Pass? && env.navigation.Pass?
    requires FirstMatch(ScriptConfig, env.responses) == Some(k)
    requires !IsOk(env.responses[k].status)
    ensures Written(launch, env) == None
    ensures AttemptOutcome(ScriptConfig, env)
              == Failure(Error("Error", HttpErrorMessage(env.responses[k].status, env.responses[k].statusText, env.responses[k].body)))
  {
    HttpErrorCarriesStatusAndExcerpt(env.responses[k], env.parsed);
  }
}
