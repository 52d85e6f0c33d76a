/** The browser session as an object, refined to PagePoolSpec. */
module BrowserSession {
  import opened PagePoolSpec
  import opened PagePoolSafety
  import opened PagePoolSteps

  datatype SessionStats = SessionStats(totalPages: nat, busyPages: nat, freePages: nat, errorPages: nat,
                                       maxPages: nat, closed: bool)

  /** How many of `pages` are in state `st`. */
  function CountIn(pages: seq<Page>, state: map<Page, PageState>, st: PageState): nat {
    if pages == [] then 0
    else
      var last := pages[|pages| - 1];
      CountIn(pages[..|pages| - 1], state, st) + if last in state && state[last] == st then 1 else 0
  }

  ghost function InState(pages: seq<Page>, state: map<Page, PageState>, st: PageState): set<Page> {
    set page | page in pages && page in state && state[page] == st
  }

  lemma InStateAppend(init: seq<Page>, last: Page, state: map<Page, PageState>, st: PageState)
    requires last !in init
    ensures |InState(init + [last], state, st)| ==
            |InState(init, state, st)| + if last in state && state[last] == st then 1 else 0
  {
    var extra := if last in state && state[last] == st then {last} else {};
    assert InState(init + [last], state, st) == InState(init, state, st) + extra;
  }

  lemma {:induction false} CountIsCardinality(pages: seq<Page>, state: map<Page, PageState>, st: PageState)
    requires Distinct(pages)
    ensures CountIn(pages, state, st) == |InState(pages, state, st)|
  {
    if pages != [] {
      var init, last := pages[..|pages| - 1], pages[|pages| - 1];
      assert pages == init + [last] && Distinct(init);
      CountIsCardinality(init, state, st);
      InStateAppend(init, last, state, st);
    }
  }

  /** While the session is open, Stats counts as busy exactly the fetches that use the engine. */
  lemma BusyCountsFetches(maxPages: int, w: World)
    requires Reachable(maxPages, w) && !w.pool.closed
    ensures CountIn(w.pool.pages, w.pool.state, Busy) == |Fetching(w)|
  {
    ReachableInv(maxPages, w);
    CountIsCardinality(w.pool.pages, w.pool.state, Busy);
    var busy := InState(w.pool.pages, w.pool.state, Busy);
    FetchesUseBusyPages(w, busy);
    BusyPagesAreUsed(maxPages, w, busy);
  }

  lemma FetchesUseBusyPages(w: World, busy: set<Page>)
    requires Inv(w) && !w.pool.closed
    requires busy == InState(w.pool.pages, w.pool.state, Busy)
    ensures |Fetching(w)| <= |busy|
  {
    forall t | t in Fetching(w) ensures w.fetches[t].page in busy { HeldIsLive(w, t); }
    InjectionCount(Fetching(w), map t | t in Fetching(w) :: w.fetches[t].page, busy);
  }

  lemma BusyPagesAreUsed(maxPages: int, w: World, busy: set<Page>)
    requires Reachable(maxPages, w) && !w.pool.closed
    requires busy == InState(w.pool.pages, w.pool.state, Busy)
    ensures |busy| <= |Fetching(w)|
  {
    forall page | page in busy ensures exists t :: t in w.fetches && w.fetches[t] == Using(page) {
      ListedPagesArePlaced(maxPages, w, page);
    }
    var user := map page | page in busy :: var t :| t in w.fetches && w.fetches[t] == Using(page); t;
    InjectionCount(busy, user, Fetching(w));
  }

  class BrowserSession {
    const maxPages: nat
    var available: seq<Page>
    var pages: seq<Page>
    var state: map<Page, PageState>
    var closed: bool
    var made: nat

    ghost function View(): Pool
      reads this
    {
      Pool(maxPages, available, pages, state, closed, made)
    }

    constructor (maxPages: int)
      ensures View() == New(maxPages)
    {
      this.maxPages := if maxPages <= 0 then 1 else maxPages;
      available, pages, state, closed, made := [], [], map[], false, 0;
    }

    /** Filter the list of pages in place. */
    method CleanupErrorPages()
      modifies this`pages
      ensures pages == WithoutErrors(old(pages), state)
    {
      var kept: seq<Page> := [];
      for i := 0 to |pages|
        invariant kept == WithoutErrors(pages[..i], state)
      {
        assert pages[..i + 1][..i] == pages[..i];
        if !(pages[i] in state && state[pages[i]] == Error) { kept := kept + [pages[i]]; }
      }
      assert pages[..|pages|] == pages;
      pages := kept;
    }

    /** The locked section of acquirePage. */
    method AcquireLocked() returns (grant: Grant)
      modifies this
      ensures (View(), grant) == Acquire(old(View()))
    {
      if closed { return Closed; }
      CleanupErrorPages();
      if |pages| < maxPages {
        var page := made;
        made := made + 1;
        state := state[page := Busy];
        pages := pages + [page];
        return Granted(page);
      }
      return Full;
    }

    method MarkPageBusy(page: Page) returns (ok: bool)
      modifies this`state
      ensures (View(), ok) == MarkBusy(old(View()), page)
    {
      if closed { return false; }
      if page !in state || state[page] != Ready { return false; }
      state := state[page := Busy];
      return true;
    }

    /** The locked section of releasePage. */
    method ReleaseLocked(page: Page, ok: bool) returns (open: bool)
      modifies this`state
      ensures (View(), open) == SetReleased(old(View()), page, ok)
    {
      if closed { return false; }
      state := state[page := if ok then Ready else Error];
      return true;
    }

    method Close()
      modifies this
      ensures View() == PagePoolSpec.Close(old(View()))
    {
      if closed { return; }
      closed, pages := true, [];
    }

    method Stats() returns (stats: SessionStats)
      ensures stats.totalPages == |pages| && stats.maxPages == maxPages && stats.closed == closed
      ensures stats.busyPages == CountIn(pages, state, Busy) && stats.errorPages == CountIn(pages, state, Error)
      ensures stats.totalPages == stats.busyPages + stats.freePages + stats.errorPages
    {
      var busy, free, failed := 0, 0, 0;
      for i := 0 to |pages|
        invariant busy == CountIn(pages[..i], state, Busy) && failed == CountIn(pages[..i], state, Error)
        invariant busy + free + failed == i
      {
        assert pages[..i + 1][..i] == pages[..i];
        if pages[i] in state && state[pages[i]] == Busy {
          busy := busy + 1;
        } else if pages[i] in state && state[pages[i]] == Error {
          failed := failed + 1;
        } else {
          free := free + 1;
        }
      }
      assert pages[..|pages|] == pages;
      return SessionStats(|pages|, busy, free, failed, maxPages, closed);
    }
  }
}
