/** What the page pool gives. */
module PagePoolService {
  import opened PagePoolSpec
  import opened PagePoolSteps
  import opened PagePoolSafety

  // ---------- which pages are live ----------

  /** The live pages after a step: a grant makes one; a failed fetch, and any step that finds the session closed,
      loses one; nothing else changes them. */
  ghost function LiveAfter(w: World, t: nat, a: Action): set<Page> {
    if t !in w.fetches then Live(w)
    else
      match a
      case Lock => if Acquire(w.pool).1.Granted? then Live(w) + {w.pool.made} else Live(w)
      case Finish(ok) => if ok && !w.pool.closed then Live(w) else Live(w) - PagesOf(w.fetches[t])
      case Mark => if w.pool.closed then Live(w) - PagesOf(w.fetches[t]) else Live(w)
      case GiveUp => Live(w) - PagesOf(w.fetches[t])
      case _ => Live(w)
  }

  /** A fetch goes from one place to another. */
  lemma LiveMoves(w: World, t: nat, pc: Pc, w': World)
    requires Inv(w) && t in w.fetches && w'.fetches == w.fetches[t := pc] && w'.pool.available == w.pool.available
    requires PagesOf(pc) <= PagesOf(w.fetches[t])
    ensures Live(w') == Live(w) - (PagesOf(w.fetches[t]) - PagesOf(pc))
  {
    if Holds(w.fetches[t]) { HeldIsLive(w, t); }
    MovesFit(w, t, pc);
    hide HeldPages, Queued, Exclusive, Distinct, StatesFit, Listed, PagesOf;
    Moves(w.fetches, t, pc);
    Exchange(HeldPages(w.fetches), Queued(w.pool.available), PagesOf(w.fetches[t]), PagesOf(pc));
  }

  lemma Exchange(held: set<Page>, queued: set<Page>, before: set<Page>, now: set<Page>)
    requires now <= before <= held && before !! queued
    ensures (held - before + now) + queued == held + queued - (before - now)
  {
  }

  lemma MovesFit(w: World, t: nat, pc: Pc)
    requires Inv(w) && t in w.fetches && PagesOf(pc) <= PagesOf(w.fetches[t])
    ensures PagesOf(pc) !! HeldPages(w.fetches) - PagesOf(w.fetches[t])
    ensures PagesOf(w.fetches[t]) <= HeldPages(w.fetches) && PagesOf(w.fetches[t]) !! Queued(w.pool.available)
  {
    if Holds(w.fetches[t]) { HeldIsLive(w, t); }
  }

  lemma ReceiveLive(w: World, t: nat, w': World)
    requires Inv(w) && Step(w, t, Receive, w')
    ensures Live(w') == Live(w)
  {
    hide HeldPages, Exclusive, StatesFit, Listed;
    Dequeued(w.pool.available);
    Moves(w.fetches, t, Received(w.pool.available[0]));
  }

  lemma SendLive(w: World, t: nat, w': World)
    requires Inv(w) && Step(w, t, Send, w')
    ensures Live(w') == Live(w)
  {
    var page, available := w.fetches[t].page, w.pool.available;
    HeldIsLive(w, t);
    SentPools(w, t, w');
    hide HeldPages, Exclusive, StatesFit, Listed, Queued, Distinct, Step;
    Moves(w.fetches, t, Gone);
    Appended(available, page);
    Passed(HeldPages(w.fetches), Queued(available), page);
  }

  lemma SentPools(w: World, t: nat, w': World)
    requires Step(w, t, Send, w')
    ensures w'.fetches == w.fetches[t := Gone] && w'.pool.available == w.pool.available + [w.fetches[t].page]
    ensures w.fetches[t].Returning?
  {
  }

  lemma Passed(held: set<Page>, queued: set<Page>, page: Page)
    requires page in held
    ensures (held - {page} + {}) + (queued + {page}) == held + queued
  {
  }

  lemma LockLive(w: World, t: nat, w': World)
    requires Inv(w) && Step(w, t, Lock, w')
    ensures Live(w') == LiveAfter(w, t, Lock)
  {
    if Acquire(w.pool).1.Granted? {
      CleanListIsLive(w);
      hide HeldPages, Queued, Exclusive, Distinct, StatesFit, WithoutErrors, Listed, ToSet;
      Moves(w.fetches, t, Using(w.pool.made));
    } else {
      LiveMoves(w, t, w'.fetches[t], w');
    }
  }

  lemma DefaultLive(w: World, t: nat, w': World)
    requires Inv(w) && Step(w, t, Default, w')
    ensures Live(w') == LiveAfter(w, t, Default)
  {
    hide Inv, Live;
    LiveMoves(w, t, Locking, w');
  }

  lemma MarkLive(w: World, t: nat, w': World)
    requires Inv(w) && Step(w, t, Mark, w')
    ensures Live(w') == LiveAfter(w, t, Mark)
  {
    HeldIsLive(w, t);
    hide Inv, Live;
    LiveMoves(w, t, w'.fetches[t], w');
  }

  lemma FinishLive(w: World, t: nat, ok: bool, w': World)
    requires Inv(w) && Step(w, t, Finish(ok), w')
    ensures Live(w') == LiveAfter(w, t, Finish(ok))
  {
    hide Inv, Live;
    LiveMoves(w, t, w'.fetches[t], w');
  }

  lemma GiveUpLive(w: World, t: nat, w': World)
    requires Inv(w) && Step(w, t, GiveUp, w')
    ensures Live(w') == LiveAfter(w, t, GiveUp)
  {
    hide Inv, Live;
    LiveMoves(w, t, Gone, w');
  }

  lemma BeginLive(w: World, t: nat, w': World)
    requires Inv(w) && Step(w, t, Begin, w')
    ensures Live(w') == LiveAfter(w, t, Begin)
  {
    hide HeldPages, Queued, Exclusive, Distinct, StatesFit, Listed;
    Moves(w.fetches, t, Trying);
  }

  lemma CloseLive(w: World, t: nat, w': World)
    requires Step(w, t, CloseSession, w')
    ensures Live(w') == LiveAfter(w, t, CloseSession)
  {
  }

  /** Every step changes the live pages as LiveAfter says, under every interleaving. */
  lemma LiveLedger(maxPages: int, w: World, t: nat, a: Action, w': World)
    requires Reachable(maxPages, w) && Step(w, t, a, w')
    ensures Live(w') == LiveAfter(w, t, a)
  {
    ReachableInv(maxPages, w);
    hide Inv, Live, StepOf, Reachable;
    match a
    case Begin => BeginLive(w, t, w');
    case CloseSession => CloseLive(w, t, w');
    case Receive => ReceiveLive(w, t, w');
    case Default => DefaultLive(w, t, w');
    case Lock => LockLive(w, t, w');
    case Mark => MarkLive(w, t, w');
    case Finish(ok) => FinishLive(w, t, ok, w');
    case Send => SendLive(w, t, w');
    case GiveUp => GiveUpLive(w, t, w');
  }

  // ---------- what a fetch gets ----------

  /** The locked part of acquirePage refuses only a closed session, makes a fetch wait exactly when maxPages pages
      are live, and otherwise grants a page that nobody has, marked busy and listed. */
  lemma LockDecides(maxPages: int, w: World)
    requires Reachable(maxPages, w)
    ensures var (p', grant) := Acquire(w.pool);
            && (grant == Closed <==> w.pool.closed)
            && (grant == Full <==> !w.pool.closed && |Live(w)| == w.pool.maxPages)
            && (grant.Granted? ==>
                  grant.page !in Live(w) && grant.page !in w.pool.state && grant.page in p'.pages &&
                  p'.state == w.pool.state[grant.page := Busy])
            && p'.available == w.pool.available && p'.closed == w.pool.closed
            && (!w.pool.closed ==> forall page :: page in Live(w) ==> page in p'.pages)
  {
    ReachableInv(maxPages, w);
    if !w.pool.closed {
      CleanListIsLive(w);
      var kept := WithoutErrors(w.pool.pages, w.pool.state);
      assert forall page :: page in kept <==> page in ToSet(kept);
    }
  }

  /** A fetch that ends well in an open session gives its page back: ready, on its way to the channel, still live. */
  lemma FinishedPageReturns(maxPages: int, w: World, t: nat)
    requires Reachable(maxPages, w) && t in w.fetches && w.fetches[t].Using? && !w.pool.closed
    ensures exists w' :: Step(w, t, Finish(true), w')
    ensures forall w' :: Step(w, t, Finish(true), w') ==>
              var page := w.fetches[t].page;
              && w'.fetches == w.fetches[t := Returning(page)] && !w'.pool.closed
              && w'.pool.state == w.pool.state[page := Ready] && w'.pool.pages == w.pool.pages && page in w'.pool.pages
              && w'.pool.available == w.pool.available && Live(w') == Live(w)
  {
    ReachableInv(maxPages, w);
    HeldIsLive(w, t);
    var (p', open) := SetReleased(w.pool, w.fetches[t].page, true);
    var w1 := World(p', w.fetches[t := Returning(w.fetches[t].page)]);
    assert Step(w, t, Finish(true), w1);
    LiveLedger(maxPages, w, t, Finish(true), w1);
  }

  /** The page of a fetch that failed is gone from the live ones, it alone, and the next grant may make another. */
  lemma FailedPageLeaves(maxPages: int, w: World, t: nat)
    requires Reachable(maxPages, w) && t in w.fetches && w.fetches[t].Using? && !w.pool.closed
    ensures exists w' :: Step(w, t, Finish(false), w')
    ensures forall w' :: Step(w, t, Finish(false), w') ==>
              var page := w.fetches[t].page;
              && w'.fetches == w.fetches[t := Gone] && w'.pool.state == w.pool.state[page := Error]
              && page in Live(w) && Live(w') == Live(w) - {page} && Acquire(w'.pool).1.Granted?
  {
    ReachableInv(maxPages, w);
    HeldIsLive(w, t);
    var page := w.fetches[t].page;
    var w1 := World(SetReleased(w.pool, page, false).0, w.fetches[t := Gone]);
    assert Step(w, t, Finish(false), w1);
    LiveLedger(maxPages, w, t, Finish(false), w1);
    ReachableStep(maxPages, w, t, Finish(false), w1);
    LockDecides(maxPages, w1);
    hide Reachable, Acquire;
    assert |Live(w1)| == |Live(w)| - 1;
  }

  /** One more step leads to a reachable world. */
  lemma ReachableStep(maxPages: int, w: World, t: nat, a: Action, w': World)
    requires Reachable(maxPages, w) && Step(w, t, a, w')
    ensures Reachable(maxPages, w')
  {
    var steps :| Leads(World(New(maxPages), map[]), steps, w);
    LeadsOn(World(New(maxPages), map[]), steps, w, t, a, w');
    assert Leads(World(New(maxPages), map[]), steps + [(t, a)], w');
  }

  lemma {:induction false} LeadsOn(s: World, steps: seq<(nat, Action)>, w: World, t: nat, a: Action, w': World)
    requires Leads(s, steps, w) && Step(w, t, a, w')
    ensures Leads(s, steps + [(t, a)], w')
    decreases steps
  {
    hide Step;
    var all := steps + [(t, a)];
    if steps == [] {
      assert all[1..] == [] && Leads(w', [], w');
    } else {
      var mid :| Step(s, steps[0].0, steps[0].1, mid) && Leads(mid, steps[1..], w);
      LeadsOn(mid, steps[1..], w, t, a, w');
      assert all[1..] == steps[1..] + [(t, a)] && all[0] == steps[0];
    }
  }

  /** The returned page is sent behind those in the channel. */
  lemma PageIsSent(maxPages: int, w: World, t: nat) returns (w1: World, w2: World)
    requires Reachable(maxPages, w) && !w.pool.closed && t in w.fetches && w.fetches[t].Using?
    ensures Step(w, t, Finish(true), w1) && Step(w1, t, Send, w2) && Reachable(maxPages, w2) && Live(w2) == Live(w)
    ensures w2.pool.available == w.pool.available + [w.fetches[t].page] && !w2.pool.closed
    ensures w2.fetches == w.fetches[t := Gone]
  {
    hide Live, Reachable;
    FinishedPageReturns(maxPages, w, t);
    w1 :| Step(w, t, Finish(true), w1);
    ReachableStep(maxPages, w, t, Finish(true), w1);
    SendNeverBlocks(maxPages, w1, t);
    w2 :| Step(w1, t, Send, w2);
    ReachableStep(maxPages, w1, t, Send, w2);
    LiveLedger(maxPages, w1, t, Send, w2);
  }

  /** The first page in the channel goes to a fetch that waits, which then uses it. */
  lemma PageIsTaken(maxPages: int, w: World, u: nat) returns (w1: World, w2: World)
    requires Reachable(maxPages, w) && !w.pool.closed && w.pool.available != []
    requires u in w.fetches && (w.fetches[u].Waiting? || w.fetches[u].Trying?)
    ensures Step(w, u, Receive, w1) && Step(w1, u, Mark, w2) && Live(w2) == Live(w)
    ensures w2.fetches == w.fetches[u := Using(w.pool.available[0])]
    ensures w2.pool.available == w.pool.available[1..]
  {
    hide Live, Reachable;
    var page := w.pool.available[0];
    w1 := World(w.pool.(available := w.pool.available[1..]), w.fetches[u := Received(page)]);
    assert Step(w, u, Receive, w1);
    ReachableStep(maxPages, w, u, Receive, w1);
    LiveLedger(maxPages, w, u, Receive, w1);
    MarkFailsOnlyWhenClosed(maxPages, w1, u);
    w2 := World(MarkBusy(w1.pool, page).0, w1.fetches[u := Using(page)]);
    assert Step(w1, u, Mark, w2);
    LiveLedger(maxPages, w1, u, Mark, w2);
    assert w.fetches[u := Received(page)][u := Using(page)] == w.fetches[u := Using(page)];
  }

  /** A fetch that waits is served by one that ends well: after the page has been sent, the first page in the channel
      goes to the waiting fetch, which then uses it. */
  lemma WaitingIsServed(maxPages: int, w: World, t: nat, u: nat) returns (w1: World, w2: World, w3: World, w4: World)
    requires Reachable(maxPages, w) && !w.pool.closed && t in w.fetches && w.fetches[t].Using?
    requires u in w.fetches && w.fetches[u].Waiting?
    ensures Step(w, t, Finish(true), w1) && Step(w1, t, Send, w2) && Step(w2, u, Receive, w3) && Step(w3, u, Mark, w4)
    ensures w2.pool.available == w.pool.available + [w.fetches[t].page] && Live(w4) == Live(w)
    ensures w4.fetches == w.fetches[t := Gone][u := Using(w2.pool.available[0])]
  {
    hide Live, Reachable, Step;
    w1, w2 := PageIsSent(maxPages, w, t);
    w3, w4 := PageIsTaken(maxPages, w2, u);
  }

  /** A closed session stays closed, and lists no page. */
  lemma {:induction false} ClosedStays(w: World, steps: seq<(nat, Action)>, w': World)
    requires Leads(w, steps, w') && (w.pool.closed ==> w.pool.pages == [])
    ensures w.pool.closed ==> w'.pool.closed
    ensures w'.pool.closed ==> w'.pool.pages == []
    decreases steps
  {
    if steps != [] {
      var mid :| Step(w, steps[0].0, steps[0].1, mid) && Leads(mid, steps[1..], w');
      ClosedStays(mid, steps[1..], w');
    }
  }

  /** Closing a session is seen by everybody: no page is listed, granted or marked any more, and every fetch that waits
      or returns a page can leave. */
  lemma ClosedSessionEnds(maxPages: int, w: World, t: nat, ok: bool)
    requires Reachable(maxPages, w) && t in w.fetches && w.pool.closed
    ensures w.pool.pages == []
    ensures Close(w.pool) == w.pool && Acquire(w.pool) == (w.pool, Closed)
    ensures w.fetches[t].Waiting? || w.fetches[t].Returning? ==> exists w' :: Step(w, t, GiveUp, w')
    ensures w.fetches[t].Received? ==> exists w' :: Step(w, t, Mark, w') && w'.fetches[t] == Gone
    ensures w.fetches[t].Using? ==>
              exists w' :: Step(w, t, Finish(ok), w') && w' == w.(fetches := w.fetches[t := Gone])
  {
    var gone := w.(fetches := w.fetches[t := Gone]);
    var steps :| Leads(World(New(maxPages), map[]), steps, w);
    ClosedStays(World(New(maxPages), map[]), steps, w);
    if w.fetches[t].Waiting? || w.fetches[t].Returning? { assert Step(w, t, GiveUp, gone); }
    if w.fetches[t].Received? { assert Step(w, t, Mark, gone); }
    if w.fetches[t].Using? { assert Step(w, t, Finish(ok), gone); }
  }
}
