/**
  ConcurrentFetcher.Fetch as interleaved steps: a dispatcher hands indices to workers over an
  unbuffered channel, and everybody writes into one shared slice of results.
 */
module ConcurrentFetch {
  import opened Wrappers

  /** Requests and responses matter only by identity. */
  type Request = nat
  type Response = nat

  datatype Party = Worker(w: nat) | Dispatcher

  /** One element of the results slice.  `writers` is history: who wrote a field of it, in order. */
  datatype Slot = Slot(request: Request, response: Option<Response>, err: Option<Error>, writers: seq<Party>)

  datatype Error = ContextError | FetchError(code: int)

  /** What fetchOne returns. */
  datatype Fetched = Fetched(response: Option<Response>, err: Option<Error>)

  /** Idle: at the receive.  Has: received an index, about to read the context.  Fetching: inside
      fetchOne.  Got: about to store the response.  Stored: about to store the error. */
  datatype WorkerPc =
    | Idle
    | Has(k: nat)
    | Fetching(k: nat)
    | Got(k: nat, result: Fetched)
    | Stored(k: nat, result: Fetched)
    | Exited

  /** Dispatching(i): at the select for index i, or at the end of the loop.  Cancelling(i, j): the
      context was done at index i; slots below j are marked.  Draining: jobs is closed, waiting for the
      workers. */
  datatype DispatcherPc = Dispatching(i: nat) | Cancelling(i: nat, j: nat) | Draining(i: nat) | Returned(i: nat)

  /** `replies` is history: what fetchOne returned for each index. */
  datatype World = World(
    requests: seq<Request>,
    ctxDone: bool,
    dispatcher: DispatcherPc,
    workers: seq<WorkerPc>,
    slots: seq<Slot>,
    replies: map<nat, Fetched>)

  function NormalizedConcurrency(configured: int, requestCount: nat): nat {
    if configured <= 0 || configured > requestCount then requestCount else configured
  }

  function Start(requests: seq<Request>, configured: int, ctxDone: bool): World {
    World(
      requests, ctxDone, Dispatching(0),
      seq(NormalizedConcurrency(configured, |requests|), _ => Idle),
      seq(|requests|, k requires 0 <= k < |requests| => Slot(requests[k], None, None, [])),
      map[])
  }

  datatype Action =
    | Cancel
    | Hand(w: nat)
    | NoticeDone
    | MarkCancelled
    | CloseJobs
    | Check(w: nat)
    | Reply(w: nat, result: Fetched)
    | StoreResponse(w: nat)
    | StoreError(w: nat)
    | Exit(w: nat)
    | Return

  function SetErr(w: World, k: nat, e: Option<Error>, party: Party): World
    requires k < |w.slots|
  {
    w.(slots := w.slots[k := w.slots[k].(err := e, writers := w.slots[k].writers + [party])])
  }

  function SetResponse(w: World, k: nat, r: Option<Response>, party: Party): World
    requires k < |w.slots|
  {
    w.(slots := w.slots[k := w.slots[k].(response := r, writers := w.slots[k].writers + [party])])
  }

  function SetWorker(w: World, id: nat, pc: WorkerPc): World
    requires id < |w.workers|
  {
    w.(workers := w.workers[id := pc])
  }

  /** The index a busy worker is on. */
  predicate IsOn(pc: WorkerPc, k: nat) {
    match pc
    case Has(k') => k == k'
    case Fetching(k') => k == k'
    case Got(k', _) => k == k'
    case Stored(k', _) => k == k'
    case _ => false
  }

  predicate Enabled(w: World, a: Action) {
    match a
    case Cancel => !w.ctxDone
    case Hand(id) => w.dispatcher.Dispatching? && w.dispatcher.i < |w.requests| && id < |w.workers| &&
      w.workers[id].Idle?
    case NoticeDone => w.dispatcher.Dispatching? && w.dispatcher.i < |w.requests| && w.ctxDone
    case MarkCancelled => w.dispatcher.Cancelling? && w.dispatcher.j < |w.slots|
    case CloseJobs =>
      || (w.dispatcher.Dispatching? && w.dispatcher.i == |w.requests|)
      || (w.dispatcher.Cancelling? && w.dispatcher.j == |w.slots|)
    case Check(id) => id < |w.workers| && w.workers[id].Has? && w.workers[id].k < |w.slots|
    case Reply(id, _) => id < |w.workers| && w.workers[id].Fetching?
    case StoreResponse(id) => id < |w.workers| && w.workers[id].Got? && w.workers[id].k < |w.slots|
    case StoreError(id) => id < |w.workers| && w.workers[id].Stored? && w.workers[id].k < |w.slots|
    case Exit(id) => id < |w.workers| && w.workers[id].Idle? && w.dispatcher.Draining?
    case Return => w.dispatcher.Draining? && forall id :: 0 <= id < |w.workers| ==> w.workers[id].Exited?
  }

  function Next(w: World, a: Action): World
    requires Enabled(w, a)
  {
    match a
    case Cancel => w.(ctxDone := true)
    case Hand(id) => SetWorker(w.(dispatcher := Dispatching(w.dispatcher.i + 1)), id, Has(w.dispatcher.i))
    case NoticeDone => w.(dispatcher := Cancelling(w.dispatcher.i, w.dispatcher.i))
    case MarkCancelled =>
      SetErr(w, w.dispatcher.j, Some(ContextError), Dispatcher)
      .(dispatcher := Cancelling(w.dispatcher.i, w.dispatcher.j + 1))
    case CloseJobs => w.(dispatcher := Draining(w.dispatcher.i))
    case Check(id) =>
      var k := w.workers[id].k;
      if w.ctxDone then SetWorker(SetErr(w, k, Some(ContextError), Worker(id)), id, Idle)
      else SetWorker(w, id, Fetching(k))
    case Reply(id, result) =>
      var k := w.workers[id].k;
      SetWorker(w.(replies := w.replies[k := result]), id, Got(k, result))
    case StoreResponse(id) =>
      var pc := w.workers[id];
      SetWorker(SetResponse(w, pc.k, pc.result.response, Worker(id)), id, Stored(pc.k, pc.result))
    case StoreError(id) =>
      var pc := w.workers[id];
      SetWorker(SetErr(w, pc.k, pc.result.err, Worker(id)), id, Idle)
    case Exit(id) => SetWorker(w, id, Exited)
    case Return => w.(dispatcher := Returned(w.dispatcher.i))
  }

  ghost predicate Leads(w: World, steps: seq<Action>, w': World)
    decreases steps
  {
    if steps == [] then w' == w else Enabled(w, steps[0]) && Leads(Next(w, steps[0]), steps[1..], w')
  }

  // ---------- the invariant ----------

  /** Indices below `Sent` were handed to workers; those from there to `Marked` the dispatcher marked. */
  function Sent(w: World): nat {
    w.dispatcher.i
  }

  function Marked(w: World): nat {
    match w.dispatcher
    case Dispatching(i) => i
    case Cancelling(_, j) => j
    case _ => |w.requests|
  }

  /** A slot nobody has written. */
  predicate Blank(s: Slot) {
    s.response.None? && s.err.None? && s.writers == []
  }

  /** What slot `k` holds while worker `id` is on it. */
  ghost predicate InHand(w: World, k: nat, id: nat)
    requires k < |w.slots| && id < |w.workers|
  {
    var s := w.slots[k];
    match w.workers[id]
    case Has(_) => Blank(s) && k !in w.replies
    case Fetching(_) => Blank(s) && k !in w.replies
    case Got(_, r) => Blank(s) && k in w.replies && w.replies[k] == r
    case Stored(_, r) =>
      s.response == r.response && s.err.None? && s.writers == [Worker(id)] && k in w.replies && w.replies[k] == r
    case _ => false
  }

  /** What slot `k` holds once a worker is done with it. */
  ghost predicate Settled(w: World, k: nat)
    requires k < |w.slots|
  {
    var s := w.slots[k];
    exists id: nat :: id < |w.workers| &&
      if k in w.replies then
        s.response == w.replies[k].response && s.err == w.replies[k].err && s.writers == [Worker(id), Worker(id)]
      else
        w.ctxDone && s.response.None? && s.err == Some(ContextError) && s.writers == [Worker(id)]
  }

  ghost predicate MarkedSlot(w: World, k: nat)
    requires k < |w.slots|
  {
    w.ctxDone && k !in w.replies && w.slots[k].response.None? && w.slots[k].err == Some(ContextError) &&
      w.slots[k].writers == [Dispatcher]
  }

  /** Slot `k` fits what has happened to index `k`. */
  ghost predicate SlotFits(w: World, k: nat)
    requires k < |w.slots|
  {
    if k < Sent(w) then
      || (exists id: nat :: id < |w.workers| && IsOn(w.workers[id], k) && InHand(w, k, id))
      || (Settled(w, k) && forall id: nat :: id < |w.workers| ==> !IsOn(w.workers[id], k))
    else if k < Marked(w) then MarkedSlot(w, k)
    else Blank(w.slots[k]) && k !in w.replies
  }

  ghost predicate Inv(w: World) {
    && |w.slots| == |w.requests|
    && Sent(w) <= Marked(w) <= |w.requests|
    && (forall k :: 0 <= k < |w.slots| ==> w.slots[k].request == w.requests[k])
    && (forall k :: 0 <= k < |w.slots| ==> SlotFits(w, k))
    && (forall id: nat, k: nat :: id < |w.workers| && IsOn(w.workers[id], k) ==> k < Sent(w))
    && (forall a: nat, b: nat, k: nat ::
       a < |w.workers| && b < |w.workers| && IsOn(w.workers[a], k) && IsOn(w.workers[b], k) ==> a == b)
    && (w.dispatcher.Cancelling? ==> w.ctxDone)
    && (w.dispatcher.Returned? ==> forall id :: 0 <= id < |w.workers| ==> w.workers[id].Exited?)
    && ((exists id :: 0 <= id < |w.workers| && w.workers[id].Exited?) ==>
       w.dispatcher.Draining? || w.dispatcher.Returned?)
  }
}
