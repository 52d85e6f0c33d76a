/**
  The crawl event loop as a transition system.  One step is one turn of the loop: start what can be
  started, then take one event.  Events are adversarial: any outstanding task may finish with any
  outcome that processing its request can produce, and the context may be cancelled at any time.
 */
module CrawlSpec {
  import opened Wrappers
  import opened SchedulerSpec

  // ---------- errors, tasks and outcomes ----------

  /** Canceled and DeadlineExceeded are the two errors a context can report. */
  datatype Error = Canceled | DeadlineExceeded | Failure(code: int) | Wrapped(code: int, cause: Error)

  predicate IsContextError(e: Error) {
    e == Canceled || e == DeadlineExceeded
  }

  /** errors.Is */
  predicate Is(e: Error, target: Error) {
    e == target || (e.Wrapped? && Is(e.cause, target))
  }

  predicate IsCurrent(e: Error, ctxErr: Option<Error>) {
    ctxErr.Some? && Is(e, ctxErr.value)
  }

  /** What becomes of a scraped item in the item hook. */
  datatype ItemFate = Kept | Dropped | HookFailed(error: Error)

  /** `onsite` is the answer of isDomainAllowed for the request's URL. */
  datatype Output = Output(item: Option<ItemFate>, request: Option<Request>, onsite: bool)

  datatype TaskResult = TaskResult(
    taskID: nat,
    request: Request,
    outputs: seq<Output>,
    blocked: bool,
    robotsDisallowed: bool,
    retry: Option<Request>,
    err: Option<Error>)

  /** Everything a task learns from outside: robots policy, limiter, sleep, fetch, block check,
      retry hook and callback, in the order in which processRequest asks. */
  datatype Answers = Answers(
    robots: Result<bool, Error>,
    acquire: Option<Error>,
    sleep: Option<Error>,
    fetch: Option<Error>,
    blocked: Result<bool, Error>,
    retryHook: Option<Result<Request, Error>>,
    callback: Option<Result<seq<Output>, Error>>)

  const DEFAULT_MAX_BLOCKED_RETRIES := 3

  function EffectiveMaxBlockedRetries(value: int): (limit: nat)
    ensures limit == 0 <==> value < 0
    ensures value > 0 ==> limit == value
    ensures value == 0 ==> limit == 3
  {
    if value < 0 then 0 else if value == 0 then DEFAULT_MAX_BLOCKED_RETRIES else value
  }

  const DEFAULT_CONCURRENT_REQUESTS := 4

  function EffectiveConcurrentRequests(value: int): (limit: nat)
    ensures limit > 0
    ensures value > 0 ==> limit == value
    ensures value <= 0 ==> limit == 4
  {
    if value <= 0 then DEFAULT_CONCURRENT_REQUESTS else value
  }

  /** blockedRetryRequest without its hook. */
  function BlockedRetry(r: Request): Request {
    r.(retryCount := r.retryCount + 1, priority := r.priority - 1, dontFilter := true)
  }

  /** processRequest */
  function ProcessRequest(id: nat, r: Request, maxBlockedRetries: int, a: Answers): TaskResult {
    var none := TaskResult(id, r, [], false, false, None, None);
    if a.robots.Err? then none.(err := Some(a.robots.error))
    else if !a.robots.value then none.(robotsDisallowed := true)
    else if a.acquire.Some? then none.(err := a.acquire)
    else if a.sleep.Some? then none.(err := a.sleep)
    else if a.fetch.Some? then none.(err := a.fetch)
    else if a.blocked.Err? then none.(err := Some(a.blocked.error))
    else if a.blocked.value then
      if r.retryCount < EffectiveMaxBlockedRetries(maxBlockedRetries) then
        match a.retryHook
        case None => none.(blocked := true, retry := Some(BlockedRetry(r)))
        case Some(Ok(retry)) => none.(blocked := true, retry := Some(retry))
        case Some(Err(e)) => none.(err := Some(e))
      else none.(blocked := true)
    else
      match a.callback
      case None => none
      case Some(Ok(outputs)) => none.(outputs := outputs)
      case Some(Err(e)) => none.(err := Some(e))
  }

  // ---------- state ----------

  datatype Stats = Stats(
    requests: nat,
    robotsDisallowed: nat,
    failed: nat,
    skipped: nat,
    blockedRequests: nat,
    blockedRetries: nat,
    offsite: nat,
    items: nat,
    itemsDropped: nat)

  const ZERO := Stats(0, 0, 0, 0, 0, 0, 0, 0, 0)

  /** `activeRequests`, `active`, `nextTaskID` and `stopErr` are the runtime's own fields.  `inFlight`
      holds the tasks whose result has not been received.  The rest is history.  `accepted`: what the
      scheduler took.  `finished`: what ended in a response, a robots refusal or a counted failure.
      `unfinished`: the tasks of this run that have not ended so.  `lost`: what an earlier run of the chain
      left unfinished and its pause did not save. */
  datatype State = State(
    sched: Sched,
    concurrentRequests: nat,
    active: int,
    activeRequests: map<nat, Request>,
    inFlight: map<nat, Request>,
    nextTaskID: nat,
    stopErr: Option<Error>,
    ctxErr: Option<Error>,
    stats: Stats,
    accepted: multiset<Request>,
    finished: multiset<Request>,
    unfinished: map<nat, Request>,
    lost: multiset<Request>)

  /** newCrawlRuntime: `configured` is the caller's concurrency, `ctx` the error of a context that is
      already done. */
  function Fresh(sched: Sched, configured: int, ctx: Option<Error>,
                 accepted: multiset<Request>, finished: multiset<Request>, lost: multiset<Request>): State {
    State(sched, EffectiveConcurrentRequests(configured), 0, map[], map[], 0, None, ctx, ZERO,
          accepted, finished, map[], lost)
  }

  /** The first cancellation of a context is the one it reports. */
  function CancelContext(s: State, e: Error): State {
    if s.ctxErr.None? then s.(ctxErr := Some(e)) else s
  }

  /** What a cancellation does, if there is one. */
  function Struck(s: State, e: Option<Error>): State {
    if e.Some? then CancelContext(s, e.value) else s
  }

  function Stop(s: State, e: Error): State {
    if s.stopErr.Some? then s else CancelContext(s.(stopErr := Some(e)), Canceled)
  }

  /** The error Request.Fingerprint reports for an unparsable URL. */
  const BAD_URL := Failure(0)

  /** Enqueue one request; `fresh` says which counter an accepted request raises. */
  function Offer(s: State, r: Request, isRetry: bool): State {
    var (sched', outcome) := Enqueue(s.sched, r);
    match outcome
    case BadFingerprint => Stop(s, BAD_URL)
    case Duplicate => s.(stats := s.stats.(skipped := s.stats.skipped + 1))
    case Queued =>
      var stats' := if isRetry then s.stats.(blockedRetries := s.stats.blockedRetries + 1) else s.stats;
      s.(sched := sched', stats := stats', accepted := s.accepted + multiset{r})
  }

  // ---------- the loop body ----------

  function StartTask(s: State): State
    requires s.sched.queue != []
  {
    var (sched', r) := Dequeue(s.sched);
    var id := s.nextTaskID + 1;
    s.(sched := sched', active := s.active + 1, nextTaskID := id,
       activeRequests := s.activeRequests[id := r.value], inFlight := s.inFlight[id := r.value],
       unfinished := s.unfinished[id := r.value])
  }

  function StartTasks(s: State): State
    decreases |s.sched.queue|
  {
    if s.stopErr.None? && s.active < s.concurrentRequests && s.sched.queue != [] then StartTasks(StartTask(s))
    else s
  }

  function StartReadyTasks(s: State): State {
    if s.ctxErr.Some? then Stop(s, s.ctxErr.value) else StartTasks(s)
  }

  predicate IsComplete(s: State) {
    s.active == 0 && (s.stopErr.Some? || s.sched.queue == [])
  }

  /** delete(activeRequests, id) */
  function Forget(s: State, id: nat): State {
    s.(activeRequests := s.activeRequests - {id})
  }

  function HandleOutput(s: State, o: Output): State {
    match o.item
    case Some(HookFailed(e)) => Stop(s, e)
    case Some(Dropped) => s.(stats := s.stats.(itemsDropped := s.stats.itemsDropped + 1))
    case Some(Kept) => HandleRequestOutput(s.(stats := s.stats.(items := s.stats.items + 1)), o)
    case None => HandleRequestOutput(s, o)
  }

  function HandleRequestOutput(s: State, o: Output): State {
    if o.request.None? then s
    else if !o.onsite then s.(stats := s.stats.(offsite := s.stats.offsite + 1))
    else Offer(s, o.request.value, false)
  }

  function HandleOutputs(s: State, outputs: seq<Output>): State {
    if outputs == [] then s else HandleOutput(HandleOutputs(s, outputs[..|outputs| - 1]), outputs[|outputs| - 1])
  }

  /** The task has ended in a response, a refusal or a counted failure. */
  function Finish(s: State, id: nat, r: Request): State {
    s.(unfinished := s.unfinished - {id}, finished := s.finished + multiset{r})
  }

  function HandleTaskError(s: State, id: nat, r: Request, e: Error): State {
    if IsCurrent(e, s.ctxErr) then Stop(s, s.ctxErr.value)
    else Finish(s.(stats := s.stats.(failed := s.stats.failed + 1)), id, r)
  }

  function Received(s: State, id: nat): State {
    s.(active := s.active - 1, inFlight := s.inFlight - {id})
  }

  /** A failed task.  `late` is a cancellation that arrives between the two places where the task's
      error is compared with the context's error. */
  function HandleFailure(s: State, id: nat, r: Request, e: Error, late: Option<Error>): State {
    HandleTaskError(Struck(if IsCurrent(e, s.ctxErr) then s else Forget(s, id), late), id, r, e)
  }

  /** A task that got as far as a response. */
  function HandleResponse(s: State, t: TaskResult): State {
    var s' := Responded(s);
    if t.blocked then
      var s'' := s'.(stats := s'.stats.(blockedRequests := s'.stats.blockedRequests + 1));
      if t.retry.Some? then Offer(s'', t.retry.value, true) else s''
    else HandleOutputs(s', t.outputs)
  }

  function Responded(s: State): State {
    s.(stats := s.stats.(requests := s.stats.requests + 1))
  }

  /** handleTaskResult */
  function HandleTaskResult(s: State, t: TaskResult, late: Option<Error>): State {
    if t.err.Some? then HandleFailure(Received(s, t.taskID), t.taskID, t.request, t.err.value, late)
    else
      var s' := Finish(Forget(Received(s, t.taskID), t.taskID), t.taskID, t.request);
      if t.robotsDisallowed then s'.(stats := s'.stats.(robotsDisallowed := s'.stats.robotsDisallowed + 1))
      else HandleResponse(s', t)
  }

  // ---------- pause and restore ----------

  /** The requests of a task table, in task order. */
  function InTaskOrder(tasks: map<nat, Request>, n: nat): seq<Request> {
    if n == 0 then []
    else InTaskOrder(tasks, n - 1) + if n in tasks then [tasks[n]] else []
  }

  ghost predicate IsPauseSnapshot(s: State, snapshot: Snapshot) {
    && snapshot.requests == InTaskOrder(s.activeRequests, s.nextTaskID) + s.sched.queue
    && Increasing(snapshot.seen) && ToSet(snapshot.seen) == s.sched.seen
  }

  /** The run ends by writing a checkpoint: it is over because its context was cancelled. */
  predicate Paused(s: State) {
    IsComplete(s) && s.stopErr.Some? && IsCurrent(s.stopErr.value, s.ctxErr)
  }

  /** The state in which the next run starts: the snapshot restored into the scheduler, a new
      runtime and a new context. */
  function Resume(s: State, snapshot: Snapshot, configured: int, ctx: Option<Error>): State {
    Fresh(Restore(snapshot), configured, ctx, s.accepted, s.finished,
      s.lost + multiset(InTaskOrder(Forgotten(s), s.nextTaskID)))
  }

  /** The tasks that ended with the context's error. */
  function Cancelled(s: State): map<nat, Request> {
    s.unfinished - s.inFlight.Keys
  }

  /** Unfinished tasks that are not in activeRequests any more. */
  function Forgotten(s: State): map<nat, Request> {
    s.unfinished - s.activeRequests.Keys
  }

  /** restoreOrEnqueueStartRequests without a checkpoint.  An unparsable start URL ends the run
      before it begins. */
  function EnqueueStart(s: State, start: seq<Request>): Option<State> {
    if start == [] then Some(s)
    else
      match EnqueueStart(s, start[..|start| - 1])
      case None => None
      case Some(s') =>
        if start[|start| - 1].key.None? then None else Some(Offer(s', start[|start| - 1], false))
  }

  // ---------- events ----------

  /** Cancel strikes before the loop head.  `waiting` is a cancellation that strikes later, up to the moment
      when the select has taken its arm; `late` one that strikes between the two comparisons of a failed
      result. */
  datatype Event =
    | Cancel(e: Error)
    | Receive(id: nat, answers: Answers, waiting: Option<Error>, late: Option<Error>)
    | ContextDone(waiting: Option<Error>)
    | Restart(snapshot: Snapshot, configured: int, ctx: Option<Error>)

  datatype Limits = Limits(maxBlockedRetries: int)

  predicate ContextErrors(e: Option<Error>) {
    e.Some? ==> IsContextError(e.value)
  }

  /** Where an event finds the loop: at its head, or at the select after ready tasks were started. */
  function Before(s: State, ev: Event): State {
    if ev.Cancel? then s else StartReadyTasks(s)
  }

  /** An event that can happen there. */
  ghost predicate Enabled(limits: Limits, s: State, ev: Event) {
    match ev
    case Cancel(e) => IsContextError(e)
    case Receive(id, answers, waiting, late) =>
      !IsComplete(s) && id in s.inFlight && ContextErrors(waiting) && ContextErrors(late)
    case ContextDone(waiting) =>
      !IsComplete(s) && s.stopErr.None? && ContextErrors(waiting) && Struck(s, waiting).ctxErr.Some?
    case Restart(snapshot, configured, ctx) => Paused(s) && IsPauseSnapshot(s, snapshot) && ContextErrors(ctx)
  }

  function Outcome(limits: Limits, s: State, ev: Event): TaskResult
    requires ev.Receive? && ev.id in s.inFlight
  {
    ProcessRequest(ev.id, s.inFlight[ev.id], limits.maxBlockedRetries, ev.answers)
  }

  /** The two reads of the context agree on this result: the task did not return the very error
      that the context takes on between them. */
  predicate AgreedRead(s: State, t: TaskResult, late: Option<Error>) {
    t.err.Some? && late.Some? && s.ctxErr.None? ==> !Is(t.err.value, late.value)
  }

  function After(limits: Limits, s: State, ev: Event): State
    requires ev.Receive? ==> ev.id in s.inFlight
    requires ev.ContextDone? ==> Struck(s, ev.waiting).ctxErr.Some?
  {
    match ev
    case Cancel(e) => CancelContext(s, e)
    case Receive(id, answers, waiting, late) => HandleTaskResult(Struck(s, waiting), Outcome(limits, s, ev), late)
    case ContextDone(waiting) => Stop(Struck(s, waiting), Struck(s, waiting).ctxErr.value)
    case Restart(snapshot, configured, ctx) => Resume(s, snapshot, configured, ctx)
  }

  /** `trace` leads from loop head `s` to loop head `s'`.  Restart may join any number of runs. */
  ghost predicate Leads(limits: Limits, s: State, trace: seq<Event>, s': State)
    decreases trace
  {
    if trace == [] then s' == s
    else
      var at := Before(s, trace[0]);
      Enabled(limits, at, trace[0]) && Leads(limits, After(limits, at, trace[0]), trace[1..], s')
  }

  /** How often on a trace the two reads disagree. */
  ghost function Disagreements(limits: Limits, s: State, trace: seq<Event>, s': State): nat
    requires Leads(limits, s, trace, s')
    decreases trace
  {
    if trace == [] then 0
    else
      var at, ev := Before(s, trace[0]), trace[0];
      (if Disagrees(limits, at, ev) then 1 else 0) + Disagreements(limits, After(limits, at, ev), trace[1..], s')
  }

  ghost predicate Disagrees(limits: Limits, s: State, ev: Event)
    requires Enabled(limits, s, ev)
  {
    ev.Receive? && !AgreedRead(Struck(s, ev.waiting), Outcome(limits, s, ev), ev.late)
  }

  /** The first run of a chain: an empty scheduler, and start requests whose URLs all parse. */
  ghost predicate IsInitial(s: State) {
    exists start: seq<Request>, configured: int, ctx: Option<Error> :: IsInitialWith(s, start, configured, ctx)
  }

  ghost predicate IsInitialWith(s: State, start: seq<Request>, configured: int, ctx: Option<Error>) {
    ContextErrors(ctx) && EnqueueStart(Blank(configured, ctx), start) == Some(s)
  }

  /** An empty scheduler and nothing accepted yet. */
  function Blank(configured: int, ctx: Option<Error>): State {
    Fresh(EMPTY, configured, ctx, multiset{}, multiset{}, multiset{})
  }
}
