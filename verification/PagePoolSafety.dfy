/** The page pool is safe under every interleaving of fetches and Close. */
module PagePoolSafety {
  import opened PagePoolSpec
  import opened PagePoolSteps

  ghost predicate Reachable(maxPages: int, w: World) {
    exists steps :: Leads(World(New(maxPages), map[]), steps, w)
  }

  lemma ReachableInv(maxPages: int, w: World)
    requires Reachable(maxPages, w)
    ensures Inv(w)
  {
    var steps :| Leads(World(New(maxPages), map[]), steps, w);
    NewInv(maxPages);
    RunKeepsInv(World(New(maxPages), map[]), steps, w);
  }

  function Fetching(w: World): set<nat> {
    set t | t in w.fetches && w.fetches[t].Using?
  }

  lemma StepKeepsMax(w: World, t: nat, a: Action, w': World)
    requires Step(w, t, a, w')
    ensures w'.pool.maxPages == w.pool.maxPages
  {
  }

  lemma {:induction false} RunKeepsMax(w: World, steps: seq<(nat, Action)>, w': World)
    requires Leads(w, steps, w')
    ensures w'.pool.maxPages == w.pool.maxPages
    decreases steps
  {
    if steps != [] {
      hide Step;
      var mid :| Step(w, steps[0].0, steps[0].1, mid) && Leads(mid, steps[1..], w');
      StepKeepsMax(w, steps[0].0, steps[0].1, mid);
      RunKeepsMax(mid, steps[1..], w');
    }
  }

  /** At most maxPages fetches use the engine at once, each with a page of its own, before and after
      Close. */
  lemma BoundedFetches(maxPages: int, w: World)
    requires Reachable(maxPages, w)
    ensures |Fetching(w)| <= if maxPages <= 0 then 1 else maxPages
    ensures forall t, u :: t in Fetching(w) && u in Fetching(w) && t != u ==> w.fetches[t].page != w.fetches[u].page
  {
    ReachableInv(maxPages, w);
    var steps :| Leads(World(New(maxPages), map[]), steps, w);
    RunKeepsMax(World(New(maxPages), map[]), steps, w);
    var page := map t | t in Fetching(w) :: w.fetches[t].page;
    forall t | t in Fetching(w) ensures page[t] in Live(w) { assert w.fetches[t].page in HeldPages(w.fetches); }
    InjectionCount(Fetching(w), page, Live(w));
  }

  /** Pages in the channel and in transit are ready, no two of them are the same, and none of them is
      in use. */
  lemma PooledPagesAreReady(maxPages: int, w: World, t: nat)
    requires Reachable(maxPages, w) && t in w.fetches
    ensures Distinct(w.pool.available)
    ensures forall page :: page in w.pool.available ==> page in w.pool.state && w.pool.state[page] == Ready
    ensures PcFits(w.fetches[t], w.pool.state)
    ensures var pc := w.fetches[t];
            Holds(pc) ==> pc.page !in w.pool.available &&
                          forall u :: u in w.fetches && u != t && Holds(w.fetches[u]) ==> w.fetches[u].page != pc.page
  {
    ReachableInv(maxPages, w);
    forall page | page in w.pool.available ensures page in Queued(w.pool.available) {}
    if Holds(w.fetches[t]) { assert w.fetches[t].page in HeldPages(w.fetches); }
  }

  /** Returning a page to the channel never blocks. */
  lemma SendNeverBlocks(maxPages: int, w: World, t: nat)
    requires Reachable(maxPages, w) && t in w.fetches && w.fetches[t].Returning?
    ensures exists w' :: Step(w, t, Send, w')
  {
    ReachableInv(maxPages, w);
    var page := w.fetches[t].page;
    DistinctCount(w.pool.available);
    assert page in HeldPages(w.fetches);
    SubsetCount(ToSet(w.pool.available) + {page}, Live(w));
    var w' := World(w.pool.(available := w.pool.available + [page]), w.fetches[t := Gone]);
    assert Step(w, t, Send, w');
  }

  /** While the session is open a received page can always be marked busy: a fetch that got a page
      fails only because the session closed. */
  lemma MarkFailsOnlyWhenClosed(maxPages: int, w: World, t: nat)
    requires Reachable(maxPages, w) && t in w.fetches && w.fetches[t].Received?
    ensures MarkBusy(w.pool, w.fetches[t].page).1 <==> !w.pool.closed
  {
    ReachableInv(maxPages, w);
    assert PcFits(w.fetches[t], w.pool.state);
  }

  /** While the session is open every listed page is in exactly one place: free (in the channel or in
      transit), in use by a fetch, or failed. */
  lemma ListedPagesArePlaced(maxPages: int, w: World, page: Page)
    requires Reachable(maxPages, w) && !w.pool.closed && page in w.pool.pages
    ensures |w.pool.pages| <= w.pool.maxPages && page in w.pool.state
    ensures w.pool.state[page] == Busy <==> exists t :: t in w.fetches && w.fetches[t] == Using(page)
    ensures w.pool.state[page] == Ready <==>
            page in w.pool.available ||
            (exists t :: t in w.fetches && w.fetches[t] == Received(page)) ||
            (exists t :: t in w.fetches && w.fetches[t] == Returning(page))
  {
    ReachableInv(maxPages, w);
    assert page in Live(w) <==> w.pool.state[page] != Error;
    if page in HeldPages(w.fetches) {
      var t :| t in w.fetches && Holds(w.fetches[t]) && w.fetches[t].page == page;
      assert PcFits(w.fetches[t], w.pool.state);
    }
    forall t | t in w.fetches && Holds(w.fetches[t]) ensures PcFits(w.fetches[t], w.pool.state) {}
    assert page in Queued(w.pool.available) <==> page in w.pool.available;
  }

  /** An open session refuses a new page only when maxPages pages are live, so a fetch that has to
      wait waits for a page that some fetch holds or the channel has. */
  lemma FullMeansAllLive(maxPages: int, w: World)
    requires Reachable(maxPages, w) && Acquire(w.pool).1 == Full
    ensures |Live(w)| == w.pool.maxPages
  {
    ReachableInv(maxPages, w);
    CleanListIsLive(w);
  }
}
