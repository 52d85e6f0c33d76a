/** One writer a slot, and Fetch returns. */
module ConcurrentFetchSafety {
  import opened Wrappers
  import opened ConcurrentFetch
  import opened ConcurrentFetchSteps

  ghost predicate Runs(requests: seq<Request>, configured: int, ctxDone: bool, steps: seq<Action>, w: World) {
    requests != [] && Leads(Start(requests, configured, ctxDone), steps, w)
  }

  /** What the caller gets: slot k carries request k and was written by exactly one party, a worker
      for the indices handed out and the dispatcher for the rest; a worker's slot holds what fetching
      request k returned, or the context error if it did not fetch, which happens only when the context is done;
      and every worker has exited. */
  lemma ReturnedResults(requests: seq<Request>, configured: int, ctxDone: bool, steps: seq<Action>, w: World, k: nat)
    requires Runs(requests, configured, ctxDone, steps, w) && w.dispatcher.Returned? && k < |requests|
    ensures |w.slots| == |requests| && w.slots[k].request == requests[k]
    ensures forall id :: 0 <= id < |w.workers| ==> w.workers[id].Exited?
    ensures var s := w.slots[k];
            && s.writers != []
            && (forall p :: p in s.writers ==> p == s.writers[0])
            && (s.writers[0] == Dispatcher <==> k >= w.dispatcher.i)
            && (k in w.replies ==> s.response == w.replies[k].response && s.err == w.replies[k].err)
            && (k !in w.replies ==> w.ctxDone && s.response.None? && s.err == Some(ContextError))
  {
    RunKeepsInv(Start(requests, configured, ctxDone), steps, w);
    assert SlotFits(w, k);
    forall id: nat | id < |w.workers| ensures !IsOn(w.workers[id], k) { assert w.workers[id].Exited?; }
  }

  /** At every moment a slot has been written by at most one party. */
  lemma OneWriter(requests: seq<Request>, configured: int, ctxDone: bool, steps: seq<Action>, w: World, k: nat,
                  p: Party, q: Party)
    requires Runs(requests, configured, ctxDone, steps, w) && k < |w.slots|
    requires p in w.slots[k].writers && q in w.slots[k].writers
    ensures p == q
  {
    RunKeepsInv(Start(requests, configured, ctxDone), steps, w);
    assert SlotFits(w, k);
  }

  /** The workers that are inside fetchOne. */
  function Fetching(w: World): set<nat> {
    set id: nat | id < |w.workers| && w.workers[id].Fetching?
  }

  lemma {:induction false} RunKeepsWorkers(w: World, steps: seq<Action>, w': World)
    requires Leads(w, steps, w')
    ensures |w'.workers| == |w.workers|
    decreases steps
  {
    if steps != [] { RunKeepsWorkers(Next(w, steps[0]), steps[1..], w'); }
  }

  lemma {:induction false} BelowCount(ids: set<nat>, n: nat)
    requires forall id :: id in ids ==> id < n
    ensures |ids| <= n
  {
    if n > 0 {
      BelowCount(ids - {n - 1}, n - 1);
    } else {
      assert ids == {};
    }
  }

  /** At most the configured number of fetches run at once, or one for each request when none is configured or it is
      more than there are requests; and never two for the same request. */
  lemma BoundedFetches(requests: seq<Request>, configured: int, ctxDone: bool, steps: seq<Action>, w: World)
    requires Runs(requests, configured, ctxDone, steps, w)
    ensures |w.workers| == if 0 < configured <= |requests| then configured else |requests|
    ensures |Fetching(w)| <= |w.workers|
    ensures forall a, b :: a in Fetching(w) && b in Fetching(w) && w.workers[a].k == w.workers[b].k ==> a == b
  {
    RunKeepsInv(Start(requests, configured, ctxDone), steps, w);
    RunKeepsWorkers(Start(requests, configured, ctxDone), steps, w);
    BelowCount(Fetching(w), |w.workers|);
    forall a, b | a in Fetching(w) && b in Fetching(w) && w.workers[a].k == w.workers[b].k ensures a == b {
      assert IsOn(w.workers[a], w.workers[a].k) && IsOn(w.workers[b], w.workers[a].k);
    }
  }

  /** The indices that are being fetched. */
  function InProgress(w: World): set<nat> {
    set id: nat | id < |w.workers| && w.workers[id].Fetching? :: w.workers[id].k
  }

  /** Once the context is done no fetch begins: what is replied to later was in progress then. */
  lemma {:induction false} DoneStopsFetches(w: World, steps: seq<Action>, w': World)
    requires Leads(w, steps, w') && w.ctxDone
    ensures w'.ctxDone && w'.replies.Keys <= w.replies.Keys + InProgress(w)
    ensures InProgress(w') <= InProgress(w)
    decreases steps
  {
    if steps != [] {
      DoneStep(w, steps[0]);
      DoneStopsFetches(Next(w, steps[0]), steps[1..], w');
    }
  }

  lemma DoneStep(w: World, a: Action)
    requires Enabled(w, a) && w.ctxDone
    ensures var w' := Next(w, a);
            w'.ctxDone && w'.replies.Keys <= w.replies.Keys + InProgress(w) && InProgress(w') <= InProgress(w)
  {
    var w' := Next(w, a);
    forall k | k in InProgress(w') ensures k in InProgress(w) {
      var id: nat :| id < |w'.workers| && w'.workers[id].Fetching? && w'.workers[id].k == k;
      assert w.workers[id] == w'.workers[id];
    }
  }

  /** Without a cancellation every request is fetched, and with one before the start none is. */
  lemma AllOrNone(requests: seq<Request>, configured: int, ctxDone: bool, steps: seq<Action>, w: World, k: nat)
    requires Runs(requests, configured, ctxDone, steps, w) && w.dispatcher.Returned? && k < |requests|
    ensures |w.slots| == |requests|
    ensures !w.ctxDone ==>
              k in w.replies && w.slots[k].response == w.replies[k].response && w.slots[k].err == w.replies[k].err
    ensures ctxDone ==> k !in w.replies && w.slots[k].response.None? && w.slots[k].err == Some(ContextError)
  {
    ReturnedResults(requests, configured, ctxDone, steps, w, k);
    var init := Start(requests, configured, ctxDone);
    if ctxDone {
      DoneStopsFetches(init, steps, w);
      assert InProgress(init) == {};
    }
  }

  /** Fetch always returns: a run has a bounded number of steps, and until it returns some step other
      than a cancellation can be taken (fetches themselves return). */
  lemma FetchReturns(requests: seq<Request>, configured: int, ctxDone: bool, steps: seq<Action>, w: World)
    requires Runs(requests, configured, ctxDone, steps, w)
    ensures |steps| <= 6 * |requests| + 3
    ensures !w.dispatcher.Returned? ==> exists a: Action :: !a.Cancel? && Enabled(w, a)
  {
    var init := Start(requests, configured, ctxDone);
    RunKeepsInv(init, steps, w);
    RunLowers(init, steps, w);
    IdleLeft(init.workers);
    if !w.dispatcher.Returned? { SomeStep(w); }
  }

  lemma {:induction false} IdleLeft(workers: seq<WorkerPc>)
    requires forall x :: 0 <= x < |workers| ==> workers[x].Idle?
    ensures WorkersLeft(workers) == |workers|
  {
    if workers != [] { IdleLeft(workers[1..]); }
  }

  lemma BusyStep(w: World, id: nat)
    requires Inv(w) && id < |w.workers| && !w.workers[id].Idle? && !w.workers[id].Exited?
    ensures exists a: Action :: !a.Cancel? && Enabled(w, a)
  {
    match w.workers[id]
    case Has(k) => OnHolds(w, id, k); assert Enabled(w, Check(id));
    case Fetching(k) => assert Enabled(w, Reply(id, Fetched(None, None)));
    case Got(k, r) => OnHolds(w, id, k); assert Enabled(w, StoreResponse(id));
    case Stored(k, r) => OnHolds(w, id, k); assert Enabled(w, StoreError(id));
  }

  lemma SomeStep(w: World)
    requires Inv(w) && !w.dispatcher.Returned? && |w.workers| > 0
    ensures exists a: Action :: !a.Cancel? && Enabled(w, a)
  {
    hide SlotFits;
    if id: nat :| id < |w.workers| && !w.workers[id].Idle? && !w.workers[id].Exited? {
      BusyStep(w, id);
    } else {
      match w.dispatcher
      case Dispatching(i) =>
        assert w.workers[0].Idle?;
        if i < |w.requests| { assert Enabled(w, Hand(0)); } else { assert Enabled(w, CloseJobs); }
      case Cancelling(i, j) =>
        if j < |w.requests| { assert Enabled(w, MarkCancelled); } else { assert Enabled(w, CloseJobs); }
      case Draining(i) =>
        if id: nat :| id < |w.workers| && w.workers[id].Idle? {
          assert Enabled(w, Exit(id));
        } else {
          assert Enabled(w, Return);
        }
      case Returned(i) =>
    }
  }
}
