/** Every atomic step of the page pool keeps the ownership invariant: pages held by fetches and pages in the
    channel are apart, and a page's state says where it is. */
module PagePoolSteps {
  import opened PagePoolSpec

  // ---------- counting ----------

  ghost function ToSet(q: seq<Page>): set<Page> {
    set page | page in q
  }

  lemma {:induction false} DistinctCount(q: seq<Page>)
    requires Distinct(q)
    ensures |ToSet(q)| == |q|
  {
    if q != [] {
      var init, last := q[..|q| - 1], q[|q| - 1];
      DistinctCount(init);
      assert ToSet(q) == ToSet(init) + {last};
    }
  }

  lemma SubsetCount(a: set<Page>, b: set<Page>)
    requires a <= b
    ensures |a| <= |b|
  {
    assert b == a + (b - a);
  }

  /** An injective assignment of pages to fetches: as many fetches as pages. */
  lemma {:induction false} InjectionCount(ts: set<nat>, page: map<nat, Page>, pages: set<Page>)
    requires forall t :: t in ts ==> t in page && page[t] in pages
    requires forall t, u :: t in ts && u in ts && t != u ==> page[t] != page[u]
    ensures |ts| <= |pages|
    decreases ts
  {
    if ts != {} {
      var t :| t in ts;
      InjectionCount(ts - {t}, page, pages - {page[t]});
    }
  }

  // ---------- WithoutErrors ----------

  lemma {:induction false} WithoutErrorsKeeps(pages: seq<Page>, state: map<Page, PageState>)
    requires Distinct(pages) && forall page :: page in pages ==> page in state
    ensures var kept := WithoutErrors(pages, state);
            Distinct(kept) && forall page :: page in kept <==> page in pages && state[page] != Error
  {
    if pages != [] {
      var init := pages[..|pages| - 1];
      WithoutErrorsKeeps(init, state);
      assert pages == init + [pages[|pages| - 1]];
    }
  }

  // ---------- each step keeps the invariant ----------

  /** Moving fetch `t` to `pc` exchanges its page for that of `pc`. */
  lemma Moves(fetches: map<nat, Pc>, t: nat, pc: Pc)
    requires Exclusive(fetches)
    requires t in fetches ==> PagesOf(pc) !! HeldPages(fetches) - PagesOf(fetches[t])
    requires t !in fetches ==> !Holds(pc)
    ensures var before := if t in fetches then PagesOf(fetches[t]) else {};
            HeldPages(fetches[t := pc]) == HeldPages(fetches) - before + PagesOf(pc)
    ensures Exclusive(fetches[t := pc])
  {
    var after := fetches[t := pc];
    if t !in fetches {
      assert forall u :: u in fetches ==> u != t;
    }
    var before := if t in fetches then PagesOf(fetches[t]) else {};
    forall page | page in HeldPages(fetches) - before ensures page in HeldPages(after) {
      var u :| u in fetches && Holds(fetches[u]) && fetches[u].page == page;
      assert u in after && after[u] == fetches[u];
    }
    forall u | u in fetches && u != t && Holds(fetches[u]) ensures fetches[u].page in HeldPages(fetches) - before {
      assert fetches[u].page in HeldPages(fetches);
    }
    if Holds(pc) { assert t in after && after[t].page in HeldPages(after); }
  }

  /** When the page of fetch `t` changes its state, the other pages keep theirs. */
  lemma StatesMove(w: World, t: nat, pc: Pc, available: seq<Page>, page: Page, st: PageState)
    requires Exclusive(w.fetches) && StatesFit(w.fetches, w.pool.available, w.pool.state)
    requires t in w.fetches && Holds(w.fetches[t]) && page == w.fetches[t].page && page !in Queued(w.pool.available)
    requires PcFits(pc, w.pool.state[page := st])
    requires forall q :: q in Queued(available) ==> (q == page && st == Ready) || q in Queued(w.pool.available)
    ensures StatesFit(w.fetches[t := pc], available, w.pool.state[page := st])
  {
    forall u | u in w.fetches && u != t ensures PcFits(w.fetches[u], w.pool.state[page := st]) {
      assert PcFits(w.fetches[u], w.pool.state);
    }
  }

  lemma StatesPc(fetches: map<nat, Pc>, t: nat, pc: Pc, available: seq<Page>, state: map<Page, PageState>)
    requires StatesFit(fetches, available, state) && PcFits(pc, state)
    ensures StatesFit(fetches[t := pc], available, state)
  {
  }

  lemma HeldIsLive(w: World, t: nat)
    requires Inv(w) && t in w.fetches && Holds(w.fetches[t])
    ensures w.fetches[t].page in HeldPages(w.fetches) && w.fetches[t].page !in Queued(w.pool.available)
    ensures PcFits(w.fetches[t], w.pool.state) && w.fetches[t].page in w.pool.state
    ensures !w.pool.closed ==> w.fetches[t].page in w.pool.pages
  {
    assert w.fetches[t].page in HeldPages(w.fetches);
    assert PcFits(w.fetches[t], w.pool.state);
    assert w.fetches[t].page in Live(w);
  }

  /** Changing the state of a live page keeps the list right if the page leaves `live` just when it
      fails. */
  lemma ListedMoves(p: Pool, live: set<Page>, page: Page, st: PageState, live': set<Page>)
    requires Listed(p, live) && page in live && page in p.state
    requires live' == if st == Error then live - {page} else live
    ensures Listed(p.(state := p.state[page := st]), live')
  {
  }

  lemma ListedWhenClosed(p: Pool, live: set<Page>, live': set<Page>)
    requires Listed(p, live) && p.closed
    ensures Listed(p, live')
  {
  }

  /** A step by which fetch `t` neither gains nor loses a page. */
  lemma SamePages(w: World, t: nat, pc: Pc)
    requires Inv(w) && !Holds(pc) && (t in w.fetches ==> !Holds(w.fetches[t]))
    ensures Inv(w.(fetches := w.fetches[t := pc]))
  {
    hide HeldPages, Queued, Exclusive, Distinct, StatesFit, Listed;
    Moves(w.fetches, t, pc);
    StatesPc(w.fetches, t, pc, w.pool.available, w.pool.state);
    var w' := w.(fetches := w.fetches[t := pc]);
    assert Live(w') == Live(w);
  }

  /** A step by which fetch `t` gives up its page for good. */
  lemma DropsPage(w: World, t: nat, st: PageState)
    requires Inv(w) && t in w.fetches && Holds(w.fetches[t])
    requires st == Error || (w.pool.closed && st == w.pool.state[w.fetches[t].page])
    ensures Inv(World(w.pool.(state := w.pool.state[w.fetches[t].page := st]), w.fetches[t := Gone]))
  {
    hide HeldPages, Queued, Exclusive, Distinct, StatesFit, Listed;
    var page := w.fetches[t].page;
    var w' := World(w.pool.(state := w.pool.state[page := st]), w.fetches[t := Gone]);
    HeldIsLive(w, t);
    Moves(w.fetches, t, Gone);
    StatesMove(w, t, Gone, w.pool.available, page, st);
    assert Live(w') == Live(w) - {page};
    SubsetCount(Live(w'), Live(w));
    if st == Error {
      ListedMoves(w.pool, Live(w), page, st, Live(w'));
    } else {
      assert w'.pool.state == w.pool.state;
      ListedWhenClosed(w.pool, Live(w), Live(w'));
    }
  }

  /** A fetch in state `pc` keeps its page and moves on. */
  lemma KeepsPage(w: World, t: nat, pc: Pc, st: PageState)
    requires Inv(w) && t in w.fetches && Holds(w.fetches[t]) && Holds(pc) && pc.page == w.fetches[t].page
    requires st == if pc.Using? then Busy else Ready
    ensures Inv(World(w.pool.(state := w.pool.state[pc.page := st]), w.fetches[t := pc]))
  {
    hide HeldPages, Queued, Exclusive, Distinct, StatesFit, Listed;
    var w' := World(w.pool.(state := w.pool.state[pc.page := st]), w.fetches[t := pc]);
    HeldIsLive(w, t);
    Moves(w.fetches, t, pc);
    StatesMove(w, t, pc, w.pool.available, pc.page, st);
    assert Live(w') == Live(w);
    ListedMoves(w.pool, Live(w), pc.page, st, Live(w'));
  }

  lemma Dequeued(available: seq<Page>)
    requires Distinct(available) && available != []
    ensures Distinct(available[1..]) && Queued(available[1..]) == Queued(available) - {available[0]}
    ensures available[0] in Queued(available)
  {
    assert available == [available[0]] + available[1..];
  }

  lemma Appended(available: seq<Page>, page: Page)
    requires Distinct(available) && page !in Queued(available)
    ensures Distinct(available + [page]) && Queued(available + [page]) == Queued(available) + {page}
  {
  }

  lemma ReadyInChannel(w: World, page: Page)
    requires Inv(w) && page in w.pool.available
    ensures page in w.pool.state && w.pool.state[page] == Ready
  {
    assert page in Queued(w.pool.available);
  }

  lemma StatesFewer(fetches: map<nat, Pc>, available: seq<Page>, available': seq<Page>, state: map<Page, PageState>)
    requires StatesFit(fetches, available, state) && Queued(available') <= Queued(available)
    ensures StatesFit(fetches, available', state)
  {
  }

  lemma SameList(p: Pool, p': Pool, live: set<Page>)
    requires Listed(p, live) && p' == p.(available := p'.available)
    ensures Listed(p', live)
  {
  }

  lemma ReceiveKeepsInv(w: World, t: nat, w': World)
    requires Inv(w) && Step(w, t, Receive, w')
    ensures Inv(w')
  {
    var page := w.pool.available[0];
    ReadyInChannel(w, page);
    hide HeldPages, Queued, Exclusive, Distinct, StatesFit, Listed;
    Dequeued(w.pool.available);
    Moves(w.fetches, t, Received(page));
    StatesPc(w.fetches, t, Received(page), w.pool.available, w.pool.state);
    StatesFewer(w'.fetches, w.pool.available, w'.pool.available, w.pool.state);
    assert Live(w') == Live(w);
    assert Listed(w'.pool, Live(w')) by { SameList(w.pool, w'.pool, Live(w)); }
  }

  lemma Sent(w: World, t: nat, w': World)
    requires Step(w, t, Send, w')
    ensures t in w.fetches && w.fetches[t].Returning?
    ensures w' == World(w.pool.(available := w.pool.available + [w.fetches[t].page]), w.fetches[t := Gone])
  {
  }

  lemma SendKeepsInv(w: World, t: nat, w': World)
    requires Inv(w) && Step(w, t, Send, w')
    ensures Inv(w')
  {
    hide Step, HeldPages, Queued, Exclusive, Distinct, StatesFit, Listed;
    Sent(w, t, w');
    var page := w.fetches[t].page;
    HeldIsLive(w, t);
    Appended(w.pool.available, page);
    Moves(w.fetches, t, Gone);
    StatesMove(w, t, Gone, w'.pool.available, page, Ready);
    assert w.pool.state[page := Ready] == w.pool.state;
    assert Live(w') == Live(w);
    SameList(w.pool, w'.pool, Live(w));
  }

  lemma LockKeepsInv(w: World, t: nat, w': World)
    requires Inv(w) && Step(w, t, Lock, w')
    ensures Inv(w')
  {
    hide Inv, WithoutErrors;
    var p := w.pool;
    if p.closed {
      SamePages(w, t, Gone);
    } else if |WithoutErrors(p.pages, p.state)| < p.maxPages {
      GrantKeepsInv(w, t, w');
    } else {
      CleanupKeepsInv(w);
      SamePages(w.(pool := p.(pages := WithoutErrors(p.pages, p.state))), t, Waiting);
    }
  }

  lemma CleanupKeepsInv(w: World)
    requires Inv(w)
    ensures Inv(w.(pool := w.pool.(pages := WithoutErrors(w.pool.pages, w.pool.state))))
  {
    hide HeldPages, Queued, Exclusive, Distinct, StatesFit, Listed;
    var w' := w.(pool := w.pool.(pages := WithoutErrors(w.pool.pages, w.pool.state)));
    CleanupList(w.pool, Live(w));
    assert Live(w') == Live(w);
  }

  lemma CleanupList(p: Pool, live: set<Page>)
    requires Listed(p, live)
    ensures Listed(p.(pages := WithoutErrors(p.pages, p.state)), live)
  {
    WithoutErrorsKeeps(p.pages, p.state);
  }

  /** After cleanup an open session lists exactly the live pages. */
  lemma CleanListIsLive(w: World)
    requires Inv(w) && !w.pool.closed
    ensures var kept := WithoutErrors(w.pool.pages, w.pool.state);
            Distinct(kept) && ToSet(kept) == Live(w) && |kept| == |Live(w)| && w.pool.made !in Live(w)
  {
    var kept := WithoutErrors(w.pool.pages, w.pool.state);
    WithoutErrorsKeeps(w.pool.pages, w.pool.state);
    hide HeldPages, Queued, Exclusive, StatesFit;
    DistinctCount(kept);
    assert ToSet(kept) == Live(w);
  }

  lemma GrantKeepsInv(w: World, t: nat, w': World)
    requires Inv(w) && Step(w, t, Lock, w')
    requires !w.pool.closed && |WithoutErrors(w.pool.pages, w.pool.state)| < w.pool.maxPages
    ensures Inv(w')
  {
    hide HeldPages, Queued, Exclusive, Distinct, StatesFit, WithoutErrors, Listed, ToSet;
    var p := w.pool;
    var kept := WithoutErrors(p.pages, p.state);
    CleanListIsLive(w);
    Moves(w.fetches, t, Using(p.made));
    assert Live(w') == Live(w) + {p.made};
    StatesGrow(w, t);
    GrantedList(p, kept, Live(w));
  }

  lemma GrantedList(p: Pool, kept: seq<Page>, live: set<Page>)
    requires Listed(p, live) && !p.closed && Distinct(kept) && ToSet(kept) == live && |kept| < p.maxPages
    requires p.made !in live
    ensures Listed(p.(pages := kept + [p.made], state := p.state[p.made := Busy], made := p.made + 1), live + {p.made})
  {
    var p' := p.(pages := kept + [p.made], state := p.state[p.made := Busy], made := p.made + 1);
    assert forall page :: page in kept <==> page in live;
    assert forall page :: page in p'.pages <==> page in live || page == p.made;
  }

  lemma StatesGrow(w: World, t: nat)
    requires StatesFit(w.fetches, w.pool.available, w.pool.state) && Listed(w.pool, Live(w))
    ensures StatesFit(w.fetches[t := Using(w.pool.made)], w.pool.available, w.pool.state[w.pool.made := Busy])
  {
    var state' := w.pool.state[w.pool.made := Busy];
    assert w.pool.made !in w.pool.state;
    assert PcFits(Using(w.pool.made), state');
    StatesStay(w.fetches, w.pool.available, w.pool.state, state');
    hide StatesFit, PcFits;
    StatesPc(w.fetches, t, Using(w.pool.made), w.pool.available, state');
  }

  lemma StatesStay(fetches: map<nat, Pc>, available: seq<Page>,
                   state: map<Page, PageState>, state': map<Page, PageState>)
    requires StatesFit(fetches, available, state)
    requires forall page :: page in state ==> page in state' && state'[page] == state[page]
    ensures StatesFit(fetches, available, state')
  {
    forall u | u in fetches ensures PcFits(fetches[u], state') {
      assert PcFits(fetches[u], state);
    }
  }

  lemma SameState(w: World, t: nat)
    requires Inv(w) && t in w.fetches && Holds(w.fetches[t])
    ensures var page := w.fetches[t].page;
            page in w.pool.state && w.pool.state[page := w.pool.state[page]] == w.pool.state
  {
    assert PcFits(w.fetches[t], w.pool.state);
  }

  lemma MarkKeepsInv(w: World, t: nat, w': World)
    requires Inv(w) && Step(w, t, Mark, w')
    ensures Inv(w')
  {
    var page := w.fetches[t].page;
    SameState(w, t);
    assert PcFits(w.fetches[t], w.pool.state);
    if w.pool.closed {
      DropsPage(w, t, w.pool.state[page]);
    } else {
      KeepsPage(w, t, Using(page), Busy);
    }
  }

  lemma FinishKeepsInv(w: World, t: nat, ok: bool, w': World)
    requires Inv(w) && Step(w, t, Finish(ok), w')
    ensures Inv(w')
  {
    var page := w.fetches[t].page;
    SameState(w, t);
    if w.pool.closed {
      DropsPage(w, t, w.pool.state[page]);
    } else if ok {
      KeepsPage(w, t, Returning(page), Ready);
    } else {
      DropsPage(w, t, Error);
    }
  }

  lemma GiveUpKeepsInv(w: World, t: nat, w': World)
    requires Inv(w) && Step(w, t, GiveUp, w')
    ensures Inv(w')
  {
    if w.fetches[t].Waiting? {
      SamePages(w, t, Gone);
    } else {
      SameState(w, t);
      DropsPage(w, t, w.pool.state[w.fetches[t].page]);
    }
  }

  lemma BeginKeepsInv(w: World, t: nat, w': World)
    requires Inv(w) && (Step(w, t, Begin, w') || Step(w, t, Default, w'))
    ensures Inv(w')
  {
    hide Inv;
    SamePages(w, t, if t in w.fetches then Locking else Trying);
  }

  lemma CloseKeepsInv(w: World)
    requires Inv(w)
    ensures Inv(w.(pool := Close(w.pool)))
  {
    hide HeldPages, Queued, Exclusive, StatesFit;
    assert Live(w.(pool := Close(w.pool))) == Live(w);
  }

  lemma StepKeepsInv(w: World, t: nat, a: Action, w': World)
    requires Inv(w) && Step(w, t, a, w')
    ensures Inv(w')
  {
    hide Inv, StepOf, Close;
    match a
    case Begin => BeginKeepsInv(w, t, w');
    case Receive => ReceiveKeepsInv(w, t, w');
    case Default => BeginKeepsInv(w, t, w');
    case Lock => LockKeepsInv(w, t, w');
    case Mark => MarkKeepsInv(w, t, w');
    case Finish(ok) => FinishKeepsInv(w, t, ok, w');
    case Send => SendKeepsInv(w, t, w');
    case GiveUp => GiveUpKeepsInv(w, t, w');
    case CloseSession => CloseKeepsInv(w);
  }

  lemma {:induction false} RunKeepsInv(w: World, steps: seq<(nat, Action)>, w': World)
    requires Inv(w) && Leads(w, steps, w')
    ensures Inv(w')
    decreases steps
  {
    if steps != [] {
      hide Inv, Step;
      var mid :| Step(w, steps[0].0, steps[0].1, mid) && Leads(mid, steps[1..], w');
      StepKeepsInv(w, steps[0].0, steps[0].1, mid);
      RunKeepsInv(mid, steps[1..], w');
    }
  }

  lemma NewInv(maxPages: int)
    ensures Inv(World(New(maxPages), map[]))
  {
  }
}
