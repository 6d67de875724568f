/** runScraperWithRetry (scraper_server.js): up to `maxRetries + 1` attempts,
    each on a fresh page, a fixed delay after every failed attempt but the
    last, the first successful payload returned, the last error rethrown.

    `world[k]` says how the environment behaves during attempt `k + 1`; all
    the loop needs to know of that attempt is its `Trial`: whether `newPage`
    gave it a page, and what it returned or threw. The specification is
    given by two functions of the trials: `RetryOutcome`, the value returned
    or thrown, and `Schedule`, the browser events of each attempt made (one
    segment per attempt). The lemmas below state what they promise; the
    method `RunScraperWithRetry` is the source's loop, proved to produce
    exactly that outcome and those events. */
module Retry {
  import opened Wrappers
  import opened NetworkFilter
  import opened Attempt
  import opened Browsers

  // ---------------------------------------------------------------------------
  // Specification
  // ---------------------------------------------------------------------------

  /** What the loop sees of one attempt. */
  datatype Trial = Trial(opensPage: bool, outcome: Result<Payload, Error>)

  /** The trial of an attempt made in environment `env`. */
  function TrialOf(cfg: Config, env: AttemptEnv): Trial
  {
    Trial(env.newPage.Pass?, AttemptOutcome(cfg, env))
  }

  function Trials(cfg: Config, world: seq<AttemptEnv>): seq<Trial>
  {
    seq(|world|, k requires 0 <= k < |world| => TrialOf(cfg, world[k]))
  }

  /** Looking up attempt `k` among the trials of `world`. */
  lemma TrialAt(cfg: Config, world: seq<AttemptEnv>, k: nat)
    requires k < |world|
    ensures |Trials(cfg, world)| == |world|
    ensures Trials(cfg, world)[k] == TrialOf(cfg, world[k])
  {
  }

  /** Whether attempt `k + 1` is the last one made: it succeeds or no retry is left. */
  predicate IsLast(trials: seq<Trial>, maxRetries: nat, k: nat)
    requires k <= maxRetries < |trials|
  {
    k == maxRetries || trials[k].outcome.Success?
  }

  /** The result of the attempts from index `k` on. */
  function OutcomeFrom(trials: seq<Trial>, maxRetries: nat, k: nat): (r: Result<Payload, Error>)
    requires k <= maxRetries < |trials|
    decreases maxRetries - k
  {
    if IsLast(trials, maxRetries, k) then trials[k].outcome else OutcomeFrom(trials, maxRetries, k + 1)
  }

  /** What runScraperWithRetry returns (`Success`) or throws (`Failure`): a
      payload one of the attempts returned, or the last attempt's error. */
  function RetryOutcome(trials: seq<Trial>, maxRetries: nat): (r: Result<Payload, Error>)
    requires maxRetries < |trials|
    ensures r.Success? ==> exists j :: 0 <= j <= maxRetries && trials[j].outcome == r
    ensures r.Failure? ==> r == trials[maxRetries].outcome
  {
    OutcomeFromIsATrial(trials, maxRetries, 0);
    OutcomeFrom(trials, maxRetries, 0)
  }

  /** The result of the attempts from index `k` on is one of their outcomes,
      and a failure is the last attempt's. */
  lemma {:induction false} OutcomeFromIsATrial(trials: seq<Trial>, maxRetries: nat, k: nat)
    requires k <= maxRetries < |trials|
    ensures OutcomeFrom(trials, maxRetries, k).Success? ==>
              exists j :: k <= j <= maxRetries && trials[j].outcome == OutcomeFrom(trials, maxRetries, k)
    ensures OutcomeFrom(trials, maxRetries, k).Failure? ==> OutcomeFrom(trials, maxRetries, k) == trials[maxRetries].outcome
    decreases maxRetries - k
  {
    if !IsLast(trials, maxRetries, k) {
      OutcomeFromIsATrial(trials, maxRetries, k + 1);
    }
  }

  /** The events of one attempt: closing the previous attempt's page when it
      is still open, opening this attempt's page when `newPage` succeeds, and
      then either closing that page (the attempt returns or is the last) or
      the delay before the next attempt. */
  function Segment(leftover: bool, opensPage: bool, last: bool): seq<Event>
  {
    Opening(leftover, opensPage) + Ending(opensPage, last)
  }

  /** The events of an attempt up to and including opening its page. */
  function Opening(leftover: bool, opensPage: bool): seq<Event>
  {
    (if leftover then [PageClosed] else []) + (if opensPage then [PageOpened] else [])
  }

  /** The events of an attempt after its page is opened. */
  function Ending(opensPage: bool, last: bool): seq<Event>
  {
    if !last then [Delayed] else if opensPage then [PageClosed] else []
  }

  /** How many attempts are made from index `k` on: this one, and the later
      ones unless this one is the last. At least one, at most all that remain. */
  function AttemptsFrom(trials: seq<Trial>, maxRetries: nat, k: nat): (n: nat)
    requires k <= maxRetries < |trials|
    ensures 1 <= n <= maxRetries - k + 1
    decreases maxRetries - k
  {
    if IsLast(trials, maxRetries, k) then 1 else 1 + AttemptsFrom(trials, maxRetries, k + 1)
  }

  /** The browser events of the attempts from index `k` on, one segment per
      attempt; `leftover` says whether the previous attempt's page is still open. */
  function ScheduleFrom(trials: seq<Trial>, maxRetries: nat, k: nat, leftover: bool): (r: seq<seq<Event>>)
    requires k <= maxRetries < |trials|
    ensures |r| == AttemptsFrom(trials, maxRetries, k)
    decreases maxRetries - k
  {
    var opensPage := trials[k].opensPage;
    var last := IsLast(trials, maxRetries, k);
    [Segment(leftover, opensPage, last)] + if last then [] else ScheduleFrom(trials, maxRetries, k + 1, opensPage)
  }

  /** The browser events of each attempt runScraperWithRetry makes: at
      least one attempt and at most `maxRetries + 1`. */
  function Schedule(trials: seq<Trial>, maxRetries: nat): (r: seq<seq<Event>>)
    requires maxRetries < |trials|
    ensures 1 <= |r| <= maxRetries + 1
  {
    ScheduleFrom(trials, maxRetries, 0, false)
  }

  function Flatten(segments: seq<seq<Event>>): seq<Event>
  {
    if segments == [] then [] else segments[0] + Flatten(segments[1..])
  }

  function Count(e: Event, events: seq<Event>): nat
  {
    if events == [] then 0 else (if events[0] == e then 1 else 0) + Count(e, events[1..])
  }

  /** Whether a page is open after `events`, starting with one open iff
      `open`; `None` if a page is opened while another is open, or closed
      while none is. */
  function PagesAfter(events: seq<Event>, open: bool): Option<bool>
  {
    if events == [] then Some(open)
    else match events[0]
      case PageOpened => if open then None else PagesAfter(events[1..], true)
      case PageClosed => if open then PagesAfter(events[1..], false) else None
      case Delayed => PagesAfter(events[1..], open)
  }

  /** How many of the `n` attempts from index `k` open a page. */
  function PagesOpenedFrom(trials: seq<Trial>, k: nat, n: nat): nat
    requires k + n <= |trials|
    decreases n
  {
    if n == 0 then 0
    else (if trials[k].opensPage then 1 else 0) + PagesOpenedFrom(trials, k + 1, n - 1)
  }

  // ---------------------------------------------------------------------------
  // Helpers about events
  // ---------------------------------------------------------------------------

  lemma FlattenCons(segment: seq<Event>, rest: seq<seq<Event>>)
    ensures Flatten([segment] + rest) == segment + Flatten(rest)
  {
    assert ([segment] + rest)[1..] == rest;
  }

  lemma {:induction false} CountAppend(e: Event, a: seq<Event>, b: seq<Event>)
    ensures Count(e, a + b) == Count(e, a) + Count(e, b)
  {
    if a == [] {
      assert a + b == b;
    } else {
      assert (a + b)[1..] == a[1..] + b;
      CountAppend(e, a[1..], b);
    }
  }

  lemma {:induction false} PagesAfterAppend(a: seq<Event>, b: seq<Event>, open: bool)
    ensures PagesAfter(a + b, open) ==
              match PagesAfter(a, open)
              case None => None
              case Some(o) => PagesAfter(b, o)
  {
    if a == [] {
      assert a + b == b;
    } else {
      assert (a + b)[1..] == a[1..] + b;
      match a[0]
      case PageOpened => if !open { PagesAfterAppend(a[1..], b, true); }
      case PageClosed => if open { PagesAfterAppend(a[1..], b, false); }
      case Delayed => PagesAfterAppend(a[1..], b, open);
    }
  }

  lemma {:induction false} PagesOpenedAll(trials: seq<Trial>, k: nat, n: nat)
    requires k + n <= |trials|
    ensures (forall j :: k <= j < k + n ==> trials[j].opensPage) ==> PagesOpenedFrom(trials, k, n) == n
    decreases n
  {
    if n > 0 {
      PagesOpenedAll(trials, k + 1, n - 1);
    }
  }

  /** One attempt's segment followed by the events of the later attempts. */
  lemma ScheduleStep(trials: seq<Trial>, maxRetries: nat, k: nat, leftover: bool)
    requires k <= maxRetries < |trials|
    ensures var opensPage := trials[k].opensPage;
      var last := IsLast(trials, maxRetries, k);
      Flatten(ScheduleFrom(trials, maxRetries, k, leftover))
        == Segment(leftover, opensPage, last)
           + (if last then [] else Flatten(ScheduleFrom(trials, maxRetries, k + 1, opensPage)))
  {
    var opensPage := trials[k].opensPage;
    var last := IsLast(trials, maxRetries, k);
    var rest := if last then [] else ScheduleFrom(trials, maxRetries, k + 1, opensPage);
    FlattenCons(Segment(leftover, opensPage, last), rest);
  }

  // ---------------------------------------------------------------------------
  // What the specification promises
  // ---------------------------------------------------------------------------

  lemma {:induction false} FirstSuccessFrom(trials: seq<Trial>, maxRetries: nat, i: nat, k: nat)
    requires i <= k <= maxRetries < |trials|
    requires trials[k].outcome.Success?
    requires forall j :: i <= j < k ==> trials[j].outcome.Failure?
    ensures OutcomeFrom(trials, maxRetries, i) == trials[k].outcome
    decreases k - i
  {
    if i < k {
      assert !IsLast(trials, maxRetries, i);
      FirstSuccessFrom(trials, maxRetries, i + 1, k);
    }
  }

  lemma {:induction false} FirstSuccessLength(trials: seq<Trial>, maxRetries: nat, i: nat, k: nat)
    requires i <= k <= maxRetries < |trials|
    requires trials[k].outcome.Success?
    requires forall j :: i <= j < k ==> trials[j].outcome.Failure?
    ensures AttemptsFrom(trials, maxRetries, i) == k - i + 1
    decreases k - i
  {
    if i < k {
      assert !IsLast(trials, maxRetries, i);
      FirstSuccessLength(trials, maxRetries, i + 1, k);
    }
  }

  /** If attempt `k + 1` is the first to succeed, its payload is returned and
      exactly `k + 1` attempts are made: none after it. */
  lemma RetryReturnsFirstSuccess(trials: seq<Trial>, maxRetries: nat, k: nat)
    requires k <= maxRetries < |trials|
    requires trials[k].outcome.Success?
    requires forall j :: 0 <= j < k ==> trials[j].outcome.Failure?
    ensures RetryOutcome(trials, maxRetries) == trials[k].outcome
    ensures |Schedule(trials, maxRetries)| == k + 1
  {
    FirstSuccessFrom(trials, maxRetries, 0, k);
    FirstSuccessLength(trials, maxRetries, 0, k);
  }

  lemma {:induction false} ExhaustedFrom(trials: seq<Trial>, maxRetries: nat, i: nat)
    requires i <= maxRetries < |trials|
    requires forall j :: i <= j <= maxRetries ==> trials[j].outcome.Failure?
    ensures OutcomeFrom(trials, maxRetries, i) == trials[maxRetries].outcome
    decreases maxRetries - i
  {
    if i < maxRetries {
      assert !IsLast(trials, maxRetries, i);
      ExhaustedFrom(trials, maxRetries, i + 1);
    }
  }

  lemma {:induction false} ExhaustedLength(trials: seq<Trial>, maxRetries: nat, i: nat)
    requires i <= maxRetries < |trials|
    requires forall j :: i <= j <= maxRetries ==> trials[j].outcome.Failure?
    ensures AttemptsFrom(trials, maxRetries, i) == maxRetries - i + 1
    decreases maxRetries - i
  {
    if i < maxRetries {
      assert !IsLast(trials, maxRetries, i);
      ExhaustedLength(trials, maxRetries, i + 1);
    }
  }

  /** If every attempt fails, exactly `maxRetries + 1` attempts are made and
      the error thrown is the last attempt's: the earlier errors are dropped. */
  lemma RetryRethrowsLastError(trials: seq<Trial>, maxRetries: nat)
    requires maxRetries < |trials|
    requires forall j :: 0 <= j <= maxRetries ==> trials[j].outcome.Failure?
    ensures RetryOutcome(trials, maxRetries) == trials[maxRetries].outcome
    ensures |Schedule(trials, maxRetries)| == maxRetries + 1
  {
    ExhaustedFrom(trials, maxRetries, 0);
    ExhaustedLength(trials, maxRetries, 0);
  }

  /** The index of the first successful attempt among the first `n`, if any. */
  function FirstSuccess(trials: seq<Trial>, n: nat): (r: Option<nat>)
    requires n <= |trials|
    ensures r.Some? ==> r.value < n && trials[r.value].outcome.Success?
    ensures r.Some? ==> forall j :: 0 <= j < r.value ==> trials[j].outcome.Failure?
    ensures r.None? ==> forall j :: 0 <= j < n ==> trials[j].outcome.Failure?
  {
    if n == 0 then None
    else match FirstSuccess(trials, n - 1)
      case Some(k) => Some(k)
      case None => if trials[n - 1].outcome.Success? then Some(n - 1) else None
  }

  /** How many attempts are made: up to and including the first success,
      or all `maxRetries + 1` when none succeeds. */
  function AttemptsMade(trials: seq<Trial>, maxRetries: nat): nat
    requires maxRetries < |trials|
  {
    match FirstSuccess(trials, maxRetries + 1)
    case Some(k) => k + 1
    case None => maxRetries + 1
  }

  /** The loop's outcome agrees with the reference: the first success's
      payload if there is one within the bound, else the last attempt's error;
      and one schedule segment per attempt made. In particular the outcome is
      a success exactly when some attempt within the bound succeeds. */
  lemma RetryMatchesReference(trials: seq<Trial>, maxRetries: nat)
    requires maxRetries < |trials|
    ensures RetryOutcome(trials, maxRetries) ==
              match FirstSuccess(trials, maxRetries + 1)
              case Some(k) => trials[k].outcome
              case None => trials[maxRetries].outcome
    ensures |Schedule(trials, maxRetries)| == AttemptsMade(trials, maxRetries)
    ensures RetryOutcome(trials, maxRetries).Success? <==>
              exists k :: 0 <= k <= maxRetries && trials[k].outcome.Success?
  {
    match FirstSuccess(trials, maxRetries + 1)
    case Some(k) => RetryReturnsFirstSuccess(trials, maxRetries, k);
    case None => RetryRethrowsLastError(trials, maxRetries);
  }

  lemma SegmentFacts(leftover: bool, opensPage: bool, last: bool)
    ensures Count(Delayed, Segment(leftover, opensPage, last)) == if last then 0 else 1
    ensures Count(PageOpened, Segment(leftover, opensPage, last)) == if opensPage then 1 else 0
    ensures !last ==> Segment(leftover, opensPage, last)[|Segment(leftover, opensPage, last)| - 1] == Delayed
    ensures PagesAfter(Segment(leftover, opensPage, last), leftover) == Some(opensPage && !last)
  {
    var a: seq<Event> := if leftover then [PageClosed] else [];
    var b: seq<Event> := if opensPage then [PageOpened] else [];
    var c := Ending(opensPage, last);
    assert Segment(leftover, opensPage, last) == a + b + c;
    CountAppend(Delayed, a, b);
    CountAppend(Delayed, a + b, c);
    CountAppend(PageOpened, a, b);
    CountAppend(PageOpened, a + b, c);
    PagesAfterAppend(a, b, leftover);
    PagesAfterAppend(a + b, c, leftover);
  }

  /** Every segment but the last ends with a delay and holds exactly one;
      the last holds none. */
  predicate DelaysBetween(segments: seq<seq<Event>>)
  {
    forall n :: 0 <= n < |segments| ==>
      if n + 1 < |segments|
      then Count(Delayed, segments[n]) == 1 && |segments[n]| > 0 && segments[n][|segments[n]| - 1] == Delayed
      else Count(Delayed, segments[n]) == 0
  }

  lemma DelaysBetweenCons(segment: seq<Event>, rest: seq<seq<Event>>)
    requires rest != [] ==> Count(Delayed, segment) == 1 && |segment| > 0 && segment[|segment| - 1] == Delayed
    requires rest == [] ==> Count(Delayed, segment) == 0
    requires DelaysBetween(rest)
    ensures DelaysBetween([segment] + rest)
  {
    var s := [segment] + rest;
    forall n | 1 <= n < |s|
      ensures s[n] == rest[n - 1]
    {
    }
  }

  /** Attempt by attempt: every attempt but the last ends with exactly one
      delay and the last has none, so exactly one delay separates consecutive
      attempts and none follows a success or the final failure. */
  lemma {:induction false} ScheduleDelaysBetweenAttempts(trials: seq<Trial>, maxRetries: nat, i: nat, leftover: bool)
    requires i <= maxRetries < |trials|
    ensures 1 <= |ScheduleFrom(trials, maxRetries, i, leftover)|
    ensures DelaysBetween(ScheduleFrom(trials, maxRetries, i, leftover))
    decreases maxRetries - i
  {
    var opensPage := trials[i].opensPage;
    var last := IsLast(trials, maxRetries, i);
    var rest := if last then [] else ScheduleFrom(trials, maxRetries, i + 1, opensPage);
    SegmentFacts(leftover, opensPage, last);
    if !last {
      ScheduleDelaysBetweenAttempts(trials, maxRetries, i + 1, opensPage);
    }
    DelaysBetweenCons(Segment(leftover, opensPage, last), rest);
  }

  /** Segment `n` opens one page exactly when attempt `i + n + 1` opens one. */
  predicate OnePagePerOpeningAttempt(segments: seq<seq<Event>>, trials: seq<Trial>, i: nat)
  {
    && i + |segments| <= |trials|
    && forall n :: 0 <= n < |segments| ==>
         Count(PageOpened, segments[n]) == if trials[i + n].opensPage then 1 else 0
  }

  lemma OnePagePerOpeningAttemptCons(segment: seq<Event>, rest: seq<seq<Event>>, trials: seq<Trial>, i: nat)
    requires i < |trials|
    requires Count(PageOpened, segment) == if trials[i].opensPage then 1 else 0
    requires OnePagePerOpeningAttempt(rest, trials, i + 1)
    ensures OnePagePerOpeningAttempt([segment] + rest, trials, i)
  {
    var s := [segment] + rest;
    forall n | 1 <= n < |s|
      ensures s[n] == rest[n - 1] && i + n == (i + 1) + (n - 1)
    {
    }
  }

  /** Attempt by attempt: an attempt opens exactly one page when `newPage`
      succeeds and none when it throws. */
  lemma {:induction false} ScheduleOpensOnePagePerAttempt(trials: seq<Trial>, maxRetries: nat, i: nat, leftover: bool)
    requires i <= maxRetries < |trials|
    ensures i + |ScheduleFrom(trials, maxRetries, i, leftover)| <= maxRetries + 1
    ensures OnePagePerOpeningAttempt(ScheduleFrom(trials, maxRetries, i, leftover), trials, i)
    decreases maxRetries - i
  {
    var opensPage := trials[i].opensPage;
    var last := IsLast(trials, maxRetries, i);
    var rest := if last then [] else ScheduleFrom(trials, maxRetries, i + 1, opensPage);
    SegmentFacts(leftover, opensPage, last);
    if !last {
      ScheduleOpensOnePagePerAttempt(trials, maxRetries, i + 1, opensPage);
    }
    OnePagePerOpeningAttemptCons(Segment(leftover, opensPage, last), rest, trials, i);
  }

  /** Over the whole run: one delay fewer than there are attempts, and one
      page per attempt whose `newPage` succeeds. */
  lemma {:induction false} ScheduleCounts(trials: seq<Trial>, maxRetries: nat, i: nat, leftover: bool)
    requires i <= maxRetries < |trials|
    ensures var s := ScheduleFrom(trials, maxRetries, i, leftover);
      && 1 <= |s| && i + |s| <= maxRetries + 1
      && Count(Delayed, Flatten(s)) == |s| - 1
      && Count(PageOpened, Flatten(s)) == PagesOpenedFrom(trials, i, |s|)
    decreases maxRetries - i
  {
    var opensPage := trials[i].opensPage;
    var last := IsLast(trials, maxRetries, i);
    var seg := Segment(leftover, opensPage, last);
    SegmentFacts(leftover, opensPage, last);
    var rest := if last then [] else ScheduleFrom(trials, maxRetries, i + 1, opensPage);
    if !last {
      ScheduleCounts(trials, maxRetries, i + 1, opensPage);
    }
    FlattenCons(seg, rest);
    CountAppend(Delayed, seg, Flatten(rest));
    CountAppend(PageOpened, seg, Flatten(rest));
  }

  /** Page discipline: the previous attempt's page, when still open, is closed
      before a new one is opened, so at most one page is ever open, and no
      page the loop opened is left open when it returns or throws. */
  lemma {:induction false} ScheduleClosesEveryPage(trials: seq<Trial>, maxRetries: nat, i: nat, leftover: bool)
    requires i <= maxRetries < |trials|
    ensures PagesAfter(Flatten(ScheduleFrom(trials, maxRetries, i, leftover)), leftover) == Some(false)
    decreases maxRetries - i
  {
    var opensPage := trials[i].opensPage;
    var last := IsLast(trials, maxRetries, i);
    var seg := Segment(leftover, opensPage, last);
    SegmentFacts(leftover, opensPage, last);
    var rest := if last then [] else ScheduleFrom(trials, maxRetries, i + 1, opensPage);
    if !last {
      ScheduleClosesEveryPage(trials, maxRetries, i + 1, opensPage);
    }
    FlattenCons(seg, rest);
    PagesAfterAppend(seg, Flatten(rest), leftover);
  }

  /** The whole run when every attempt fails: `maxRetries + 1` attempts,
      `maxRetries` delays, one page per attempt (all of them when `newPage`
      never fails), none left open, and the final attempt's error thrown. */
  lemma EveryAttemptFails(trials: seq<Trial>, maxRetries: nat)
    requires maxRetries < |trials|
    requires forall j :: 0 <= j <= maxRetries ==> trials[j].outcome.Failure?
    ensures RetryOutcome(trials, maxRetries) == trials[maxRetries].outcome
    ensures |Schedule(trials, maxRetries)| == maxRetries + 1
    ensures Count(Delayed, Flatten(Schedule(trials, maxRetries))) == maxRetries
    ensures Count(PageOpened, Flatten(Schedule(trials, maxRetries))) == PagesOpenedFrom(trials, 0, maxRetries + 1)
    ensures (forall j :: 0 <= j <= maxRetries ==> trials[j].opensPage) ==>
              Count(PageOpened, Flatten(Schedule(trials, maxRetries))) == maxRetries + 1
    ensures PagesAfter(Flatten(Schedule(trials, maxRetries)), false) == Some(false)
  {
    RetryRethrowsLastError(trials, maxRetries);
    ScheduleCounts(trials, maxRetries, 0, false);
    ScheduleClosesEveryPage(trials, maxRetries, 0, false);
    PagesOpenedAll(trials, 0, maxRetries + 1);
  }

  /** The whole run when attempt `k + 1` is the first to succeed: its payload,
      `k + 1` attempts, `k` delays, and no page left open. */
  lemma SuccessAtAttempt(trials: seq<Trial>, maxRetries: nat, k: nat)
    requires k <= maxRetries < |trials|
    requires trials[k].outcome.Success?
    requires forall j :: 0 <= j < k ==> trials[j].outcome.Failure?
    ensures RetryOutcome(trials, maxRetries) == trials[k].outcome
    ensures |Schedule(trials, maxRetries)| == k + 1
    ensures Count(Delayed, Flatten(Schedule(trials, maxRetries))) == k
    ensures PagesAfter(Flatten(Schedule(trials, maxRetries)), false) == Some(false)
  {
    RetryReturnsFirstSuccess(trials, maxRetries, k);
    ScheduleCounts(trials, maxRetries, 0, false);
    ScheduleClosesEveryPage(trials, maxRetries, 0, false);
  }

  // ---------------------------------------------------------------------------
  // The loop
  // ---------------------------------------------------------------------------

  /** The pages of a browser whose page list was `before` and is now `now`:
      the earlier pages are as they were, and of the pages opened since, at
      most `page` is still open. */
  predicate PagesSince(before: seq<bool>, now: seq<bool>, page: Option<nat>)
  {
    && |before| <= |now| && now[..|before|] == before
    && (page.Some? ==> |before| <= page.value < |now|)
    && forall p :: |before| <= p < |now| && now[p] ==> page == Some(p)
  }

  /** The page list after `if (page && !page.isClosed()) await page.close()`. */
  function Reclaimed(now: seq<bool>, page: Option<nat>): (r: seq<bool>)
    ensures |r| == |now|
    ensures forall p :: 0 <= p < |now| ==> r[p] == (now[p] && page != Some(p))
  {
    if page.Some? && page.value < |now| && now[page.value] then now[page.value := false] else now
  }

  /** Closing `page` if it is open leaves every page opened since `before` closed. */
  lemma ClosingLeavesNoneOpen(before: seq<bool>, now: seq<bool>, page: Option<nat>)
    requires PagesSince(before, now, page)
    ensures PagesSince(before, Reclaimed(now, page), None)
  {
    assert Reclaimed(now, page)[..|before|] == now[..|before|];
  }

  /** One attempt closes the previous page if it is still open and, when
      `newPage` succeeds, opens a new one: afterwards at most the attempt's
      own page is open, and it is open exactly when it was opened. */
  lemma AttemptKeepsOnePage(before: seq<bool>, now: seq<bool>, page: Option<nat>, opensPage: bool)
    requires PagesSince(before, now, page)
    ensures var after := Reclaimed(now, page) + if opensPage then [true] else [];
      var current := if opensPage then Some(|now|) else page;
      && PagesSince(before, after, current)
      && (current.Some? && current.value < |after| && after[current.value]) == opensPage
  {
    var closed := Reclaimed(now, page);
    ClosingLeavesNoneOpen(before, now, page);
    if opensPage {
      assert (closed + [true])[..|before|] == closed[..|before|];
    }
  }

  /** `log` followed by the events of the attempts from index `k` on is `goal`. */
  predicate Completes(log: seq<Event>, trials: seq<Trial>, maxRetries: nat, k: nat, leftover: bool, goal: seq<Event>)
    requires k <= maxRetries < |trials|
  {
    log + Flatten(ScheduleFrom(trials, maxRetries, k, leftover)) == goal
  }

  /** The loop's step for attempt `k + 1`, given that `log` followed by the
      events of the attempts from `k` on is the goal. If the attempt is the
      last one made, its opening and the closing of its page (when it has
      one) end the events, and its outcome is the loop's. Otherwise its
      opening and the delay come next, the later attempts' events complete
      them, and the outcome is the later attempts'. */
  lemma LoopStep(trials: seq<Trial>, maxRetries: nat, k: nat, leftover: bool, log: seq<Event>, goal: seq<Event>)
    requires k <= maxRetries < |trials|
    requires Completes(log, trials, maxRetries, k, leftover, goal)
    ensures IsLast(trials, maxRetries, k) ==>
              && log + Opening(leftover, trials[k].opensPage) + (if trials[k].opensPage then [PageClosed] else []) == goal
              && OutcomeFrom(trials, maxRetries, k) == trials[k].outcome
    ensures !IsLast(trials, maxRetries, k) ==>
              && k < maxRetries
              && Completes(log + Opening(leftover, trials[k].opensPage) + [Delayed],
                           trials, maxRetries, k + 1, trials[k].opensPage, goal)
              && OutcomeFrom(trials, maxRetries, k) == OutcomeFrom(trials, maxRetries, k + 1)
  {
    if IsLast(trials, maxRetries, k) {
      FinalStep(trials, maxRetries, k, leftover, log, goal);
    } else {
      ContinueStep(trials, maxRetries, k, leftover, log, goal);
    }
  }

  lemma AppendAssoc(a: seq<Event>, b: seq<Event>, c: seq<Event>)
    ensures a + (b + c) == a + b + c
  {
  }

  lemma FinalStep(trials: seq<Trial>, maxRetries: nat, k: nat, leftover: bool, log: seq<Event>, goal: seq<Event>)
    requires k <= maxRetries < |trials|
    requires IsLast(trials, maxRetries, k)
    requires Completes(log, trials, maxRetries, k, leftover, goal)
    ensures log + Opening(leftover, trials[k].opensPage) + (if trials[k].opensPage then [PageClosed] else []) == goal
    ensures OutcomeFrom(trials, maxRetries, k) == trials[k].outcome
  {
    var opening := Opening(leftover, trials[k].opensPage);
    var closing: seq<Event> := if trials[k].opensPage then [PageClosed] else [];
    ScheduleStep(trials, maxRetries, k, leftover);
    assert Flatten(ScheduleFrom(trials, maxRetries, k, leftover)) == opening + closing;
    AppendAssoc(log, opening, closing);
  }

  lemma ContinueStep(trials: seq<Trial>, maxRetries: nat, k: nat, leftover: bool, log: seq<Event>, goal: seq<Event>)
    requires k <= maxRetries < |trials|
    requires !IsLast(trials, maxRetries, k)
    requires Completes(log, trials, maxRetries, k, leftover, goal)
    ensures k < maxRetries
    ensures Completes(log + Opening(leftover, trials[k].opensPage) + [Delayed],
                      trials, maxRetries, k + 1, trials[k].opensPage, goal)
    ensures OutcomeFrom(trials, maxRetries, k) == OutcomeFrom(trials, maxRetries, k + 1)
  {
    var opening := Opening(leftover, trials[k].opensPage);
    var rest := Flatten(ScheduleFrom(trials, maxRetries, k + 1, trials[k].opensPage));
    ScheduleStep(trials, maxRetries, k, leftover);
    assert Flatten(ScheduleFrom(trials, maxRetries, k, leftover)) == (opening + [Delayed]) + rest;
    AppendAssoc(log, opening + [Delayed], rest);
    AppendAssoc(log, opening, [Delayed]);
  }

  /** The `try` block of one attempt up to the parsed payload: the previous
      page closed if it is still open, a new page opened, the attempt run on
      it. When `newPage` throws, `page` keeps referring to the previous page.
      Of the pages opened since `before`, at most the attempt's own page is
      open afterwards, and it is open exactly when `newPage` succeeded. */
  method StartAttempt(browser: Browser, cfg: Config, env: AttemptEnv, page: Option<nat>,
                      ghost trial: Trial, ghost before: seq<bool>)
    returns (outcome: Result<Payload, Error>, current: Option<nat>)
    requires trial == TrialOf(cfg, env)
    requires PagesSince(before, browser.pageOpen, page)
    modifies browser
    ensures outcome == trial.outcome
    ensures current == if trial.opensPage then Some(|old(browser.pageOpen)|) else page
    ensures browser.pageOpen == Reclaimed(old(browser.pageOpen), page) + if trial.opensPage then [true] else []
    ensures PagesSince(before, browser.pageOpen, current)
    ensures OpenIn(browser.pageOpen, current) == trial.opensPage
    ensures browser.log == old(browser.log) + Opening(OpenIn(old(browser.pageOpen), page), trial.opensPage)
    ensures browser.closeCalls == old(browser.closeCalls)
  {
    AttemptKeepsOnePage(before, browser.pageOpen, page, trial.opensPage);
    browser.CloseIfOpen(page);
    current := page;
    if env.newPage.Fail? {
      outcome := Failure(env.newPage.error);
    } else {
      var p := browser.NewPage();
      current := Some(p);
      outcome := AttemptOnPage(cfg, env);
    }
  }

  /** runScraperWithRetry: attempts `1 .. maxRetries + 1`, each on a new page
      after closing the previous one if it is still open; on success the page
      is closed and the payload returned; on failure the error is kept, and
      either the loop pauses and tries again or, after the last attempt,
      closes the page and throws the error. */
  method RunScraperWithRetry(browser: Browser, cfg: Config, maxRetries: nat, world: seq<AttemptEnv>)
    returns (result: Result<Payload, Error>)
    requires maxRetries < |world|
    modifies browser
    ensures result == RetryOutcome(Trials(cfg, world), maxRetries)
    ensures browser.log == old(browser.log) + Flatten(Schedule(Trials(cfg, world), maxRetries))
    ensures PagesSince(old(browser.pageOpen), browser.pageOpen, None)
    ensures browser.closeCalls == old(browser.closeCalls)
  {
    ghost var trials := Trials(cfg, world);
    TrialAt(cfg, world, 0);
    ghost var before := browser.pageOpen;
    ghost var goal := old(browser.log) + Flatten(Schedule(trials, maxRetries));
    var page: Option<nat> := None;
    var lastError: Option<Error> := None;
    var attempt: nat := 1;
    while attempt <= maxRetries + 1
      invariant 1 <= attempt <= maxRetries + 1
      invariant PagesSince(before, browser.pageOpen, page)
      invariant browser.closeCalls == old(browser.closeCalls)
      invariant OutcomeFrom(trials, maxRetries, attempt - 1) == RetryOutcome(trials, maxRetries)
      invariant Completes(browser.log, trials, maxRetries, attempt - 1, OpenIn(browser.pageOpen, page), goal)
      decreases maxRetries + 1 - attempt
    {
      var env := world[attempt - 1];
      ghost var logBefore := browser.log;
      ghost var leftover := OpenIn(browser.pageOpen, page);
      ghost var trial := TrialOf(cfg, env);
      TrialAt(cfg, world, attempt - 1);
      LoopStep(trials, maxRetries, attempt - 1, leftover, logBefore, goal);
      // try
      var outcome;
      outcome, page := StartAttempt(browser, cfg, env, page, trial, before);
      if outcome.Success? {
        ClosingLeavesNoneOpen(before, browser.pageOpen, page);
        browser.CloseIfOpen(page);
        return outcome;
      }
      // catch
      lastError := Some(outcome.error);
      if attempt > maxRetries {
        ClosingLeavesNoneOpen(before, browser.pageOpen, page);
        browser.CloseIfOpen(page);
        return Failure(lastError.value);
      }
      browser.Delay();
      attempt := attempt + 1;
    }
    // Every path through the loop body returns or continues with a later
    // attempt, and the last attempt always returns: the fallback throw after
    // the loop cannot be reached.
    assert false;
  }
}
