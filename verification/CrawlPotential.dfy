/** A potential that no step raises and that bounds how many requests can ever be started.  It counts the
    starts so far, every queued request with its remaining retries, the remaining retries of the requests that
    are out, and M + 1 starts for every fingerprint not yet seen, where M is the effective retry limit.  Turns
    of the loop are counted against starts: each turn receives a started request, or notices once that the
    context is done. */
module CrawlPotential {
  import opened Wrappers
  import opened SchedulerSpec
  import opened CrawlSpec
  import opened CrawlInvariant

  function MaxRetries(limits: Limits): nat {
    EffectiveMaxBlockedRetries(limits.maxBlockedRetries)
  }

  /** How often a request may still be retried. */
  function Budget(m: nat, r: Request): nat {
    if r.retryCount < m then m - r.retryCount else 0
  }

  function QueueBudget(m: nat, q: seq<Request>): nat {
    if q == [] then 0 else 1 + Budget(m, q[0]) + QueueBudget(m, q[1..])
  }

  function TaskBudget(m: nat, tasks: map<nat, Request>, last: nat): nat {
    if last == 0 then 0 else TaskBudget(m, tasks, last - 1) + if last in tasks then Budget(m, tasks[last]) else 0
  }

  /** Tasks started so far plus every start still possible. */
  function Potential(m: nat, u: set<Key>, s: State): nat {
    s.nextTaskID + QueueBudget(m, s.sched.queue) + TaskBudget(m, s.inFlight, s.nextTaskID) +
      (m + 1) * |u - s.sched.seen|
  }

  /** A request that callbacks and starts may emit: filtered, with a fingerprint in `u`. */
  predicate Tame(u: set<Key>, r: Request) {
    !r.dontFilter && r.retryCount >= 0 && (r.key.Some? ==> r.key.value in u)
  }

  ghost predicate TameEvent(u: set<Key>, ev: Event) {
    match ev
    case Receive(_, answers, _, _) =>
      && answers.retryHook.None?
      && (answers.callback.Some? && answers.callback.value.Ok? ==> TameOutputs(u, answers.callback.value.value))
    case Restart(_, _, _) => false
    case _ => true
  }

  ghost predicate TameOutputs(u: set<Key>, outputs: seq<Output>) {
    forall i :: 0 <= i < |outputs| && outputs[i].request.Some? ==> Tame(u, outputs[i].request.value)
  }

  // ---------- sums ----------

  lemma {:induction false} InsertBudget(m: nat, q: seq<Request>, r: Request)
    ensures QueueBudget(m, Insert(q, r)) == QueueBudget(m, q) + 1 + Budget(m, r)
  {
    if q == [] || q[0].priority < r.priority {
      assert ([r] + q)[1..] == q;
    } else {
      InsertBudget(m, q[1..], r);
      assert Insert(q, r)[1..] == Insert(q[1..], r);
    }
  }

  lemma {:induction false} TaskBudgetSame(m: nat, a: map<nat, Request>, b: map<nat, Request>, last: nat)
    requires forall id :: id <= last ==> (id in a <==> id in b) && (id in a ==> a[id] == b[id])
    ensures TaskBudget(m, a, last) == TaskBudget(m, b, last)
  {
    if last > 0 { TaskBudgetSame(m, a, b, last - 1); }
  }

  lemma {:induction false} TaskBudgetRemove(m: nat, tasks: map<nat, Request>, id: nat, last: nat)
    requires id in tasks && 1 <= id <= last
    ensures TaskBudget(m, tasks, last) == TaskBudget(m, tasks - {id}, last) + Budget(m, tasks[id])
  {
    if id == last {
      TaskBudgetSame(m, tasks, tasks - {id}, last - 1);
    } else {
      TaskBudgetRemove(m, tasks, id, last - 1);
    }
  }

  lemma {:induction false} TaskBudgetEmpty(m: nat, last: nat)
    ensures TaskBudget(m, map[], last) == 0
  {
    if last > 0 { TaskBudgetEmpty(m, last - 1); }
  }

  /** Seeing one more fingerprint of `u` frees m + 1 units. */
  lemma SeenFrees(m: nat, u: set<Key>, seen: set<Key>, k: Key)
    requires k in u && k !in seen
    ensures (m + 1) * |u - seen| == (m + 1) * |u - (seen + {k})| + (m + 1)
  {
    assert u - seen == (u - (seen + {k})) + {k};
    assert |u - seen| == |u - (seen + {k})| + 1;
  }

  // ---------- no step raises the potential ----------

  lemma StopPotential(m: nat, u: set<Key>, s: State, e: Error)
    ensures Potential(m, u, Stop(s, e)) == Potential(m, u, s)
  {
  }

  lemma OfferTame(m: nat, u: set<Key>, s: State, r: Request)
    requires Tame(u, r)
    ensures Potential(m, u, Offer(s, r, false)) <= Potential(m, u, s)
  {
    if r.key.Some? && r.key.value !in s.sched.seen {
      InsertBudget(m, s.sched.queue, r);
      SeenFrees(m, u, s.sched.seen, r.key.value);
    }
  }

  lemma OfferRetry(m: nat, u: set<Key>, s: State, r: Request)
    requires r.retryCount < m
    ensures Potential(m, u, Offer(s, BlockedRetry(r), true)) <= Potential(m, u, s) + Budget(m, r)
  {
    InsertBudget(m, s.sched.queue, BlockedRetry(r));
  }

  lemma HandleOutputTame(m: nat, u: set<Key>, s: State, o: Output)
    requires o.request.Some? ==> Tame(u, o.request.value)
    ensures Potential(m, u, HandleOutput(s, o)) <= Potential(m, u, s)
  {
    hide Offer, Tame;
    var s1 := s.(stats := s.stats.(items := s.stats.items + 1));
    if o.request.Some? {
      OfferTame(m, u, s, o.request.value);
      OfferTame(m, u, s1, o.request.value);
    }
  }

  lemma {:induction false} HandleOutputsTame(m: nat, u: set<Key>, s: State, outputs: seq<Output>)
    requires TameOutputs(u, outputs)
    ensures Potential(m, u, HandleOutputs(s, outputs)) <= Potential(m, u, s)
  {
    if outputs != [] {
      var init := outputs[..|outputs| - 1];
      HandleOutputsTame(m, u, s, init);
      HandleOutputTame(m, u, HandleOutputs(s, init), outputs[|outputs| - 1]);
    }
  }

  lemma StartTaskPotential(m: nat, u: set<Key>, s: State)
    requires s.sched.queue != []
    ensures Potential(m, u, StartTask(s)) == Potential(m, u, s)
  {
    var id := s.nextTaskID + 1;
    TaskBudgetSame(m, s.inFlight, s.inFlight[id := s.sched.queue[0]], s.nextTaskID);
  }

  lemma {:induction false} StartTasksPotential(m: nat, u: set<Key>, s: State)
    ensures Potential(m, u, StartTasks(s)) == Potential(m, u, s)
    decreases |s.sched.queue|
  {
    hide Potential;
    if s.stopErr.None? && s.active < s.concurrentRequests && s.sched.queue != [] {
      StartTaskPotential(m, u, s);
      StartTasksPotential(m, u, StartTask(s));
    }
  }

  lemma StartReadyPotential(m: nat, u: set<Key>, s: State)
    ensures Potential(m, u, StartReadyTasks(s)) == Potential(m, u, s)
  {
    if s.ctxErr.Some? { StopPotential(m, u, s, s.ctxErr.value); } else { StartTasksPotential(m, u, s); }
  }

  lemma ForgetPotential(m: nat, u: set<Key>, s: State, id: nat)
    ensures Potential(m, u, Forget(s, id)) == Potential(m, u, s)
  {
  }

  /** A result that a task over the default retry rule and tame callbacks can produce. */
  ghost predicate TameResult(m: nat, u: set<Key>, t: TaskResult) {
    && (t.retry.Some? ==> t.request.retryCount < m && t.retry.value == BlockedRetry(t.request))
    && TameOutputs(u, t.outputs)
  }

  lemma ProcessIsTame(limits: Limits, u: set<Key>, s: State, ev: Event)
    requires ev.Receive? && ev.id in s.inFlight && TameEvent(u, ev)
    ensures TameResult(MaxRetries(limits), u, Outcome(limits, s, ev))
  {
  }

  lemma SettlePotential(m: nat, u: set<Key>, s: State, t: TaskResult)
    requires Inv(s) && t.taskID in s.inFlight && t.request == s.inFlight[t.taskID]
    ensures var s' := Finish(Forget(Received(s, t.taskID), t.taskID), t.taskID, t.request);
            Potential(m, u, s') + Budget(m, t.request) == Potential(m, u, s)
    ensures Potential(m, u, Received(s, t.taskID)) + Budget(m, t.request) == Potential(m, u, s)
  {
    hide Balanced;
    TaskBudgetRemove(m, s.inFlight, t.taskID, s.nextTaskID);
    ForgetPotential(m, u, Received(s, t.taskID), t.taskID);
  }

  lemma StatsPotential(m: nat, u: set<Key>, s: State, stats: Stats)
    ensures Potential(m, u, s.(stats := stats)) == Potential(m, u, s)
  {
  }

  lemma StruckPotential(m: nat, u: set<Key>, s: State, e: Option<Error>)
    ensures Potential(m, u, Struck(s, e)) == Potential(m, u, s)
  {
  }

  lemma HandleErrorPotential(m: nat, u: set<Key>, s: State, id: nat, r: Request, e: Error)
    ensures Potential(m, u, HandleTaskError(s, id, r, e)) == Potential(m, u, s)
  {
    if IsCurrent(e, s.ctxErr) { StopPotential(m, u, s, s.ctxErr.value); }
  }

  lemma HandleFailurePotential(m: nat, u: set<Key>, s: State, id: nat, r: Request, e: Error, late: Option<Error>)
    ensures Potential(m, u, HandleFailure(s, id, r, e, late)) == Potential(m, u, s)
  {
    ForgetPotential(m, u, s, id);
    hide Potential, Forget, Struck, HandleTaskError, IsCurrent;
    var s' := if IsCurrent(e, s.ctxErr) then s else Forget(s, id);
    StruckPotential(m, u, s', late);
    HandleErrorPotential(m, u, Struck(s', late), id, r, e);
  }

  lemma HandleResponsePotential(m: nat, u: set<Key>, s: State, t: TaskResult)
    requires TameResult(m, u, t)
    ensures Potential(m, u, HandleResponse(s, t)) <= Potential(m, u, s) + Budget(m, t.request)
  {
    hide Potential, Offer, TameOutputs, Budget;
    var s3 := Responded(s);
    var s4 := s3.(stats := s3.stats.(blockedRequests := s3.stats.blockedRequests + 1));
    StatsPotential(m, u, s, s3.stats);
    StatsPotential(m, u, s3, s4.stats);
    if t.retry.Some? { OfferRetry(m, u, s4, t.request); }
    HandleOutputsTame(m, u, s3, t.outputs);
  }

  /** Receiving a result gives back at least the task's remaining budget. */
  lemma HandlePotential(m: nat, u: set<Key>, s: State, t: TaskResult, late: Option<Error>)
    requires Inv(s) && t.taskID in s.inFlight && t.request == s.inFlight[t.taskID] && TameResult(m, u, t)
    ensures Potential(m, u, HandleTaskResult(s, t, late)) <= Potential(m, u, s)
  {
    hide Potential, Inv, Forget, Finish, Received, HandleFailure, HandleResponse, TameResult, Budget;
    SettlePotential(m, u, s, t);
    var s1 := Received(s, t.taskID);
    var s2 := Finish(Forget(s1, t.taskID), t.taskID, t.request);
    if t.err.Some? {
      HandleFailurePotential(m, u, s1, t.taskID, t.request, t.err.value, late);
    } else {
      StatsPotential(m, u, s2, s2.stats.(robotsDisallowed := s2.stats.robotsDisallowed + 1));
      HandleResponsePotential(m, u, s2, t);
    }
  }

  lemma StepPotential(limits: Limits, u: set<Key>, s: State, ev: Event)
    requires Inv(s) && Enabled(limits, s, ev) && TameEvent(u, ev)
    ensures Potential(MaxRetries(limits), u, After(limits, s, ev)) <= Potential(MaxRetries(limits), u, s)
  {
    hide Inv, Potential, HandleTaskResult, Extends;
    match ev
    case Cancel(e) => StruckPotential(MaxRetries(limits), u, s, Some(e));
    case Receive(_, _, waiting, late) =>
      ProcessIsTame(limits, u, s, ev);
      StruckPotential(MaxRetries(limits), u, s, waiting);
      StruckExtends(s, waiting);
      ExtendsKeepsInv(s, Struck(s, waiting));
      HandlePotential(MaxRetries(limits), u, Struck(s, waiting), Outcome(limits, s, ev), late);
    case ContextDone(waiting) =>
      StruckPotential(MaxRetries(limits), u, s, waiting);
      StopPotential(MaxRetries(limits), u, Struck(s, waiting), Struck(s, waiting).ctxErr.value);
    case Restart(_, _, _) =>
  }

  lemma {:induction false} TracePotential(limits: Limits, u: set<Key>, s: State, trace: seq<Event>, s': State)
    requires Inv(s) && Leads(limits, s, trace, s') && forall ev :: ev in trace ==> TameEvent(u, ev)
    ensures Potential(MaxRetries(limits), u, s') <= Potential(MaxRetries(limits), u, s)
    decreases trace
  {
    if trace != [] {
      hide Potential, Inv, Enabled;
      var at := Before(s, trace[0]);
      BeforeKeepsInv(s, trace[0]);
      StartReadyPotential(MaxRetries(limits), u, s);
      StepKeepsInv(limits, at, trace[0]);
      StepPotential(limits, u, at, trace[0]);
      TracePotential(limits, u, After(limits, at, trace[0]), trace[1..], s');
    }
  }

  lemma {:induction false} StartPotential(m: nat, u: set<Key>, s: State, start: seq<Request>)
    requires EnqueueStart(s, start).Some? && forall r :: r in start ==> Tame(u, r)
    ensures Potential(m, u, EnqueueStart(s, start).value) <= Potential(m, u, s)
  {
    if start != [] {
      StartPotential(m, u, s, start[..|start| - 1]);
      OfferTame(m, u, EnqueueStart(s, start[..|start| - 1]).value, start[|start| - 1]);
    }
  }

  // ---------- counting turns ----------

  /** Turns of the loop: cancelling a context is not one. */
  function Turns(trace: seq<Event>): nat {
    if trace == [] then 0 else (if trace[0].Cancel? then 0 else 1) + Turns(trace[1..])
  }

  /** The tasks started but not received, with one more turn to notice a done context. */
  function Pending(s: State): int {
    s.nextTaskID - |s.inFlight| + if s.stopErr.None? then 0 else 1
  }

  lemma StartTaskPending(s: State)
    requires Inv(s) && s.sched.queue != []
    ensures Pending(StartTask(s)) == Pending(s)
  {
    hide Balanced;
    Added(s.inFlight, s.nextTaskID + 1, s.sched.queue[0]);
  }

  lemma {:induction false} StartTasksPending(s: State)
    requires Inv(s)
    ensures Pending(StartTasks(s)) == Pending(s)
    decreases |s.sched.queue|
  {
    if s.stopErr.None? && s.active < s.concurrentRequests && s.sched.queue != [] {
      hide Inv, Pending, StartTask;
      StartTaskPending(s);
      StartTaskKeepsInv(s);
      StartTasksPending(StartTask(s));
    }
  }

  lemma ReceivedPending(s: State, id: nat, r: Request)
    requires id in s.inFlight
    ensures Pending(Received(s, id)) == Pending(s) + 1
    ensures Pending(Finish(Forget(Received(s, id), id), id, r)) == Pending(s) + 1
  {
    Removed(s.inFlight, id);
  }

  lemma HandleFailurePending(s: State, id: nat, r: Request, e: Error, late: Option<Error>)
    ensures Pending(HandleFailure(s, id, r, e, late)) >= Pending(s)
  {
    hide IsCurrent, Pending;
    ErrorPending(Forget(s, id), id, r, e, late);
    ErrorPending(s, id, r, e, late);
    assert Pending(Forget(s, id)) == Pending(s) by { ForgetPending(s, id); }
  }

  lemma ForgetPending(s: State, id: nat)
    ensures Pending(Forget(s, id)) == Pending(s)
  {
  }

  /** Neither a late cancellation nor the error itself takes a turn back. */
  lemma ErrorPending(s: State, id: nat, r: Request, e: Error, late: Option<Error>)
    ensures Pending(HandleTaskError(Struck(s, late), id, r, e)) >= Pending(s)
  {
    hide IsCurrent;
  }

  lemma HandlePending(s: State, t: TaskResult, late: Option<Error>)
    requires t.taskID in s.inFlight
    ensures Pending(HandleTaskResult(s, t, late)) >= Pending(s) + 1
  {
    hide Received, Forget, Finish, HandleFailure, HandleResponse, Extends;
    ReceivedPending(s, t.taskID, t.request);
    var s2 := Finish(Forget(Received(s, t.taskID), t.taskID), t.taskID, t.request);
    if t.err.Some? { HandleFailurePending(Received(s, t.taskID), t.taskID, t.request, t.err.value, late); }
    HandleResponseExtends(s2, t);
    ExtendsPending(Responded(s2), HandleResponse(s2, t));
  }

  lemma ExtendsPending(s: State, s': State)
    requires Extends(s, s')
    ensures Pending(s') >= Pending(s)
  {
    hide Balanced, Stopping;
  }

  /** Every turn settles a task or stops the run, and starting tasks undoes neither. */
  lemma {:induction false} TurnsArePending(limits: Limits, u: set<Key>, s: State, trace: seq<Event>, s': State)
    requires Inv(s) && Leads(limits, s, trace, s') && forall ev :: ev in trace ==> TameEvent(u, ev)
    ensures Inv(s') && Turns(trace) + Pending(s) <= Pending(s')
    decreases trace
  {
    if trace != [] {
      hide Inv, Pending;
      var at := Before(s, trace[0]);
      BeforeKeepsInv(s, trace[0]);
      StartReadyPending(s);
      StepKeepsInv(limits, at, trace[0]);
      StepPending(limits, u, at, trace[0]);
      TurnsArePending(limits, u, After(limits, at, trace[0]), trace[1..], s');
    }
  }

  lemma StartReadyPending(s: State)
    requires Inv(s)
    ensures Pending(StartReadyTasks(s)) >= Pending(s)
  {
    hide Inv;
    StartTasksPending(s);
  }

  lemma StepPending(limits: Limits, u: set<Key>, s: State, ev: Event)
    requires Inv(s) && Enabled(limits, s, ev) && TameEvent(u, ev)
    ensures Pending(After(limits, s, ev)) >= Pending(s) + if ev.Cancel? then 0 else 1
  {
    hide Inv, HandleTaskResult, Pending, TameOutputs, IsComplete, Stop, Struck;
    match ev
    case Cancel(e) => StruckPending(s, Some(e));
    case Receive(id, answers, waiting, late) =>
      StruckPending(s, waiting);
      HandlePending(Struck(s, waiting), Outcome(limits, s, ev), late);
    case ContextDone(waiting) =>
      StruckPending(s, waiting);
      StopPending(Struck(s, waiting), Struck(s, waiting).ctxErr.value);
    case Restart(_, _, _) =>
  }

  lemma StruckPending(s: State, e: Option<Error>)
    ensures Pending(Struck(s, e)) == Pending(s)
    ensures Struck(s, e).inFlight == s.inFlight && Struck(s, e).stopErr == s.stopErr
    ensures e.Some? ==> Struck(s, e) == CancelContext(s, e.value)
  {
  }

  lemma StopPending(s: State, e: Error)
    ensures s.stopErr.None? ==> Pending(Stop(s, e)) == Pending(s) + 1
  {
  }
}
