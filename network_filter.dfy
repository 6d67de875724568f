/** The per-request interceptor and the target-response predicate that
    scraper_server.js and scrape.js register on every page. Both are pure
    decisions over strings, parameterised by the script's configuration. */
module NetworkFilter {
  import opened Wrappers
  import opened Text

  /** The part of a script's CONFIG these decisions read. */
  datatype Config = Config(
    apiUrl: string,
    blockedResourceTypes: seq<string>,
    blockedUrlPatterns: seq<string>)

  /** What the interceptor does with a request: `request.abort()` or `request.continue()`. */
  datatype Decision = Abort | Continue

  datatype Request = Request(resourceType: string, url: string)

  /** A response as the matcher and the status check see it; `requestMethod` is the
      method of the request that produced it. */
  datatype Response = Response(url: string, requestMethod: string, status: nat, statusText: string, body: string)

  const PostMethod: string := "POST"

  // ---------------------------------------------------------------------------
  // Request filter
  // ---------------------------------------------------------------------------

  /** `patterns.some(pattern => url.includes(pattern))`. */
  predicate AnyPatternIn(patterns: seq<string>, url: string)
    ensures AnyPatternIn(patterns, url) <==> exists i :: 0 <= i < |patterns| && Contains(url, patterns[i])
  {
    if patterns == [] then false
    else Contains(url, patterns[0]) || AnyPatternIn(patterns[1..], url)
  }

  /** The `page.on('request')` handler: abort when the resource type is
      blocked or the URL contains a blocked pattern, continue otherwise. */
  function Decide(cfg: Config, resourceType: string, url: string): (d: Decision)
    ensures d == Abort <==>
              resourceType in cfg.blockedResourceTypes ||
              exists i :: 0 <= i < |cfg.blockedUrlPatterns| && Contains(url, cfg.blockedUrlPatterns[i])
  {
    if resourceType in cfg.blockedResourceTypes || AnyPatternIn(cfg.blockedUrlPatterns, url)
    then Abort
    else Continue
  }

  /** The decisions the handler takes for the requests a page issues, one per request, in order. */
  function Intercept(cfg: Config, requests: seq<Request>): (r: seq<Decision>)
    ensures |r| == |requests|
    ensures forall i :: 0 <= i < |requests| ==> r[i] == Decide(cfg, requests[i].resourceType, requests[i].url)
  {
    if requests == [] then []
    else [Decide(cfg, requests[0].resourceType, requests[0].url)] + Intercept(cfg, requests[1..])
  }

  /** Every request is resolved exactly once: aborted precisely when blocked,
      and continued otherwise. */
  lemma InterceptDecidesEachRequest(cfg: Config, requests: seq<Request>)
    ensures |Intercept(cfg, requests)| == |requests|
    ensures forall i :: 0 <= i < |requests| ==>
              (Intercept(cfg, requests)[i] == Abort <==>
                 requests[i].resourceType in cfg.blockedResourceTypes ||
                 AnyPatternIn(cfg.blockedUrlPatterns, requests[i].url))
  {
  }

  /** The two rules are independent: a blocked type is aborted whatever the
      URL, and a URL holding a blocked pattern is aborted whatever the type. */
  lemma RulesAreIndependent(cfg: Config, resourceType: string, url: string, other: string)
    ensures resourceType in cfg.blockedResourceTypes ==> Decide(cfg, resourceType, other) == Abort
    ensures AnyPatternIn(cfg.blockedUrlPatterns, url) ==> Decide(cfg, other, url) == Abort
    ensures resourceType !in cfg.blockedResourceTypes && !AnyPatternIn(cfg.blockedUrlPatterns, url) ==>
              Decide(cfg, resourceType, url) == Continue
  {
  }

  /** The stylesheet URL of the example below holds ".css". */
  lemma CssUrlIsBlocked()
    ensures Decide(Config("", ["image"], [".css"]), "script", "https://x/a.css") == Abort
  {
    assert OccursAt("https://x/a.css", ".css", 11);
  }

  /** The script URL of the example below holds no ".css" (it has no 'c'). */
  lemma ScriptUrlIsAllowed(url: string)
    requires url == "https://x/a.js"
    ensures Decide(Config("", ["image"], [".css"]), "script", url) == Continue
  {
    assert forall i | 0 <= i < |url| :: url[i] != 'c';
    assert ".css"[1] == 'c';
    MissingCharRulesOut(url, ".css", 'c');
  }

  /** A filter that blocks type "image" and pattern ".css": an image is
      aborted, a script continues, and a script whose URL holds ".css" is
      aborted (the pattern rule applies although the type is allowed). */
  lemma ImageAndStylesheetExample()
    ensures Decide(Config("", ["image"], [".css"]), "image", "https://x/a.png") == Abort
    ensures Decide(Config("", ["image"], [".css"]), "script", "https://x/a.js") == Continue
    ensures Decide(Config("", ["image"], [".css"]), "script", "https://x/a.css") == Abort
  {
    ScriptUrlIsAllowed("https://x/a.js");
    CssUrlIsBlocked();
  }

  // ---------------------------------------------------------------------------
  // Response matcher
  // ---------------------------------------------------------------------------

  /** The `waitForResponse` predicate: the exact API URL, requested with POST. */
  predicate IsTarget(cfg: Config, response: Response)
  {
    response.url == cfg.apiUrl && response.requestMethod == PostMethod
  }

  /** Exact and case-sensitive: the API URL with any method other than "POST"
      (lower-case "post" included) does not match, nor does a URL that only
      extends the API URL. */
  lemma MatcherIsExact(cfg: Config, r: Response)
    ensures IsTarget(cfg, r) <==> r.url == cfg.apiUrl && r.requestMethod == "POST"
    ensures r.requestMethod == "post" ==> !IsTarget(cfg, r)
    ensures |r.url| > |cfg.apiUrl| ==> !IsTarget(cfg, r)
  {
  }

  /** The response `waitForResponse` resolves with: the first arrival that matches. */
  function FirstMatch(cfg: Config, responses: seq<Response>): (r: Option<nat>)
    ensures r.Some? ==> r.value < |responses| && IsTarget(cfg, responses[r.value])
    ensures r.Some? ==> forall j :: 0 <= j < r.value ==> !IsTarget(cfg, responses[j])
    ensures r.None? ==> forall j :: 0 <= j < |responses| ==> !IsTarget(cfg, responses[j])
  {
    if responses == [] then None
    else if IsTarget(cfg, responses[0]) then Some(0)
    else match FirstMatch(cfg, responses[1..])
      case None => None
      case Some(k) => Some(k + 1)
  }
}
