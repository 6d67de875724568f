/** The headless browser as the retry loop and the entry points use it: it
    opens pages, closes them, reports whether a page is closed, and is closed
    itself. The loop's fixed pause between attempts is counted here too, so
    that one log records the order of everything the loop does. */
module Browsers {
  import opened Wrappers

  datatype Event = PageOpened | PageClosed | Delayed

  /** The page `page` refers to is one of `pageOpen` and has not been closed. */
  predicate OpenIn(pageOpen: seq<bool>, page: Option<nat>)
  {
    page.Some? && page.value < |pageOpen| && pageOpen[page.value]
  }

  class Browser {
    /** One entry per page `newPage` has returned, in opening order; false once closed. */
    var pageOpen: seq<bool>
    /** How many times `browser.close()` has been called. */
    var closeCalls: nat
    /** Every page opening, page closing and inter-attempt delay, in order. */
    ghost var log: seq<Event>

    /** A freshly launched browser: no pages yet, not closed. */
    constructor ()
      ensures pageOpen == [] && closeCalls == 0 && log == []
    {
      pageOpen := [];
      closeCalls := 0;
      log := [];
    }

    /** `page.isClosed()`. */
    predicate IsClosed(page: nat)
      reads this
      requires page < |pageOpen|
    {
      !pageOpen[page]
    }

    /** `browser.newPage()`: a new open page. */
    method NewPage() returns (page: nat)
      modifies this
      ensures page == |old(pageOpen)| && pageOpen == old(pageOpen) + [true]
      ensures log == old(log) + [PageOpened] && closeCalls == old(closeCalls)
    {
      page := |pageOpen|;
      pageOpen := pageOpen + [true];
      log := log + [PageOpened];
    }

    /** `page.close()` on an open page. */
    method ClosePage(page: nat)
      requires page < |pageOpen| && pageOpen[page]
      modifies this
      ensures pageOpen == old(pageOpen)[page := false]
      ensures log == old(log) + [PageClosed] && closeCalls == old(closeCalls)
    {
      pageOpen := pageOpen[page := false];
      log := log + [PageClosed];
    }

    /** `if (page && !page.isClosed()) await page.close()`. */
    method CloseIfOpen(page: Option<nat>)
      requires page.Some? ==> page.value < |pageOpen|
      modifies this
      ensures pageOpen == if OpenIn(old(pageOpen), page) then old(pageOpen)[page.value := false] else old(pageOpen)
      ensures log == old(log) + if OpenIn(old(pageOpen), page) then [PageClosed] else []
      ensures closeCalls == old(closeCalls)
    {
      if page.Some? && !IsClosed(page.value) {
        ClosePage(page.value);
      }
    }

    /** The fixed pause between a failed attempt and the next one. */
    method Delay()
      modifies this
      ensures pageOpen == old(pageOpen) && closeCalls == old(closeCalls)
      ensures log == old(log) + [Delayed]
    {
      log := log + [Delayed];
    }

    /** `browser.close()`: closes the browser and every page it still has open. */
    method Close()
      modifies this
      ensures closeCalls == old(closeCalls) + 1
      ensures |pageOpen| == |old(pageOpen)| && forall p :: 0 <= p < |pageOpen| ==> !pageOpen[p]
      ensures log == old(log)
    {
      closeCalls := closeCalls + 1;
      pageOpen := seq(|pageOpen|, _ => false);
    }
  }
}
