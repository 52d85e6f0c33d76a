/** The browser page pool as interleaved atomic steps. */
module PagePoolSpec {

  // Every section under the session's mutex is one step; every send to or receive from the channel of
  // available pages is another.  Any number of fetches run at once, and Close may come at any time.

  type Page = nat

  datatype PageState = Ready | Busy | Error

  /** The session object.  `state` is the state field of every page ever made; pages are named in
      the order in which they were made, and `made` counts them. */
  datatype Pool = Pool(
    maxPages: nat,
    available: seq<Page>,
    pages: seq<Page>,
    state: map<Page, PageState>,
    closed: bool,
    made: nat)

  /** NewBrowserSession */
  function New(maxPages: int): (p: Pool)
    ensures p.maxPages > 0
    ensures maxPages > 0 ==> p.maxPages == maxPages
    ensures maxPages <= 0 ==> p.maxPages == 1
  {
    Pool(if maxPages <= 0 then 1 else maxPages, [], [], map[], false, 0)
  }

  // ---------- the critical sections ----------

  /** cleanupErrorPagesLocked */
  function WithoutErrors(pages: seq<Page>, state: map<Page, PageState>): (kept: seq<Page>)
    ensures |kept| <= |pages|
  {
    if pages == [] then []
    else
      var last := pages[|pages| - 1];
      WithoutErrors(pages[..|pages| - 1], state) + if last in state && state[last] == Error then [] else [last]
  }

  datatype Grant = Granted(page: Page) | Full | Closed

  /** The locked part of acquirePage: a closed session grants nothing; otherwise error pages are
      dropped, and a new busy page is made if there is room. */
  function Acquire(p: Pool): (Pool, Grant) {
    if p.closed then (p, Closed)
    else
      var kept := WithoutErrors(p.pages, p.state);
      if |kept| < p.maxPages then
        (p.(pages := kept + [p.made], state := p.state[p.made := Busy], made := p.made + 1), Granted(p.made))
      else (p.(pages := kept), Full)
  }

  /** markPageBusy */
  function MarkBusy(p: Pool, page: Page): (Pool, bool) {
    if p.closed || page !in p.state || p.state[page] != Ready then (p, false)
    else (p.(state := p.state[page := Busy]), true)
  }

  /** The locked part of releasePage: false when the session is closed. */
  function SetReleased(p: Pool, page: Page, ok: bool): (Pool, bool) {
    if p.closed then (p, false)
    else (p.(state := p.state[page := if ok then Ready else Error]), true)
  }

  function Close(p: Pool): Pool {
    if p.closed then p else p.(closed := true, pages := [])
  }

  // ---------- fetches ----------

  /** Where a fetch is.  Trying: before the first, non-blocking receive.  Locking: about to enter the
      locked part of acquirePage.  Waiting: at the blocking select.  Received: holds a page taken from
      the channel, about to mark it busy.  Using: the engine is fetching.  Returning: the page is
      marked ready, about to be sent to the channel.  */
  datatype Pc = Trying | Locking | Waiting | Received(page: Page) | Using(page: Page) | Returning(page: Page) | Gone

  datatype World = World(pool: Pool, fetches: map<nat, Pc>)

  datatype Action = Begin | Receive | Default | Lock | Mark | Finish(ok: bool) | Send | GiveUp | CloseSession

  /** `ev` by fetch `t` leads from `w` to `w'`. */
  ghost predicate Step(w: World, t: nat, a: Action, w': World) {
    match a
    case Begin => t !in w.fetches && w' == w.(fetches := w.fetches[t := Trying])
    case CloseSession => w' == w.(pool := Close(w.pool))
    case _ => t in w.fetches && StepOf(w, t, w.fetches[t], a, w')
  }

  ghost predicate StepOf(w: World, t: nat, pc: Pc, a: Action, w': World) {
    var p := w.pool;
    match a
    case Receive =>
      && (pc.Trying? || pc.Waiting?) && p.available != []
      && w' == World(p.(available := p.available[1..]), w.fetches[t := Received(p.available[0])])
    case Default => pc.Trying? && p.available == [] && w' == w.(fetches := w.fetches[t := Locking])
    case Lock =>
      && pc.Locking?
      && var (p', grant) := Acquire(p);
      && var pc := match grant case Granted(page) => Using(page) case Full => Waiting case Closed => Gone;
         w' == World(p', w.fetches[t := pc])
    case Mark =>
      && pc.Received?
      && var (p', ok) := MarkBusy(p, pc.page);
      && w' == World(p', w.fetches[t := if ok then Using(pc.page) else Gone])
    case Finish(ok) =>
      && pc.Using?
      && var (p', open) := SetReleased(p, pc.page, ok);
      && w' == World(p', w.fetches[t := if open && ok then Returning(pc.page) else Gone])
    case Send =>
      && pc.Returning? && |p.available| < p.maxPages
      && w' == World(p.(available := p.available + [pc.page]), w.fetches[t := Gone])
    case GiveUp =>
      // Waiting: the context is done or the session closed; Returning: the session closed.
      && (pc.Waiting? || (pc.Returning? && p.closed)) && w' == w.(fetches := w.fetches[t := Gone])
    case _ => false
  }

  ghost predicate Leads(w: World, steps: seq<(nat, Action)>, w': World)
    decreases steps
  {
    if steps == [] then w' == w
    else exists mid :: Step(w, steps[0].0, steps[0].1, mid) && Leads(mid, steps[1..], w')
  }

  // ---------- the invariant ----------

  predicate Holds(pc: Pc) {
    pc.Received? || pc.Using? || pc.Returning?
  }

  ghost predicate Distinct(q: seq<Page>) {
    forall i, j :: 0 <= i < j < |q| ==> q[i] != q[j]
  }

  function PagesOf(pc: Pc): set<Page> {
    if Holds(pc) then {pc.page} else {}
  }

  /** The pages held by fetches. */
  ghost function HeldPages(fetches: map<nat, Pc>): set<Page> {
    set t | t in fetches && Holds(fetches[t]) :: fetches[t].page
  }

  ghost function Queued(available: seq<Page>): set<Page> {
    set page | page in available
  }

  ghost function Live(w: World): set<Page> {
    HeldPages(w.fetches) + Queued(w.pool.available)
  }

  /** No two fetches hold the same page. */
  ghost predicate Exclusive(fetches: map<nat, Pc>) {
    forall t, u :: t in fetches && u in fetches && t != u && Holds(fetches[t]) && Holds(fetches[u])
      ==> fetches[t].page != fetches[u].page
  }

  ghost predicate Owned(fetches: map<nat, Pc>, available: seq<Page>) {
    Exclusive(fetches) && Distinct(available) && HeldPages(fetches) !! Queued(available)
  }

  /** A page's state says where it is. */
  ghost predicate PcFits(pc: Pc, state: map<Page, PageState>) {
    Holds(pc) ==> pc.page in state && state[pc.page] == if pc.Using? then Busy else Ready
  }

  ghost predicate StatesFit(fetches: map<nat, Pc>, available: seq<Page>, state: map<Page, PageState>) {
    && (forall t :: t in fetches ==> PcFits(fetches[t], state))
    && (forall page :: page in Queued(available) ==> page in state && state[page] == Ready)
  }

  /** While open, the session lists the live pages and some that failed. */
  ghost predicate Listed(p: Pool, live: set<Page>) {
    && (forall page :: page in p.state ==> page < p.made)
    && Distinct(p.pages) && |p.pages| <= p.maxPages
    && (forall page :: page in p.pages ==> page in p.state)
    && (!p.closed ==> forall page :: page in live <==> page in p.pages && p.state[page] != Error)
  }

  ghost predicate Inv(w: World) {
    && w.pool.maxPages > 0
    && Owned(w.fetches, w.pool.available)
    && StatesFit(w.fetches, w.pool.available, w.pool.state)
    && Listed(w.pool, Live(w))
    && |Live(w)| <= w.pool.maxPages
  }
}
