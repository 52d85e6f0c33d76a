/** The crawl runtime as an object, refined to CrawlSpec. */
module CrawlRuntime {
  import opened Wrappers
  import opened SchedulerSpec
  import opened CrawlSpec
  import C = CrawlSafety
  import I = CrawlInvariant
  import S = Scheduler

  /** How a run ends.  Waiting: the script of events is used up while tasks are outstanding. */
  datatype Verdict = Completed | StoppedBy(error: Error) | PausedAt(snapshot: Snapshot) | Waiting

  /** The loop of run, driven by a script of events. */
  ghost function Loop(limits: Limits, s: State, script: seq<Event>): State
    requires Playable(limits, s, script)
    decreases script
  {
    if script == [] then StartReadyTasks(s)
    else
      var at, ev := Before(s, script[0]), script[0];
      if Over(at, ev) then at else Loop(limits, After(limits, at, ev), script[1..])
  }

  /** The run ends at this loop head, before the event. */
  predicate Over(s: State, ev: Event) {
    !ev.Cancel? && IsComplete(s)
  }

  /** Each event can happen when the loop takes it; a run does not restart itself. */
  ghost predicate Playable(limits: Limits, s: State, script: seq<Event>)
    decreases script
  {
    script == [] ||
    var at, ev := Before(s, script[0]), script[0];
    Over(at, ev) || (!ev.Restart? && Enabled(limits, at, ev) && Playable(limits, After(limits, at, ev), script[1..]))
  }

  /** What the program loop does is a trace of the transition system, of one run. */
  lemma {:induction false} LoopIsTrace(limits: Limits, s: State, script: seq<Event>) returns (k: nat, s': State)
    requires Playable(limits, s, script)
    ensures k <= |script| && C.OneRun(script[..k]) && Leads(limits, s, script[..k], s')
    ensures StartReadyTasks(s') == Loop(limits, s, script)
    ensures IsComplete(Loop(limits, s, script)) || k == |script|
    decreases script
  {
    hide CrawlSpec.StartReadyTasks, CrawlSpec.HandleTaskResult, CrawlSpec.IsComplete;
    if script == [] || Over(Before(s, script[0]), script[0]) {
      k, s' := 0, s;
    } else {
      k, s' := LoopIsTrace(limits, After(limits, Before(s, script[0]), script[0]), script[1..]);
      k := k + 1;
      assert script[..k][1..] == script[1..][..k - 1];
      assert script[..k] == [script[0]] + script[1..][..k - 1];
    }
  }

  class CrawlRuntime {
    const scheduler: S.Scheduler
    const concurrentRequests: nat
    const limits: Limits
    const checkpoint: bool
    var active: int
    var activeRequests: map<nat, Request>
    var nextTaskID: nat
    var stopErr: Option<Error>
    var ctxErr: Option<Error>
    var stats: Stats
    /** The tasks that have been started and whose result has not been received. */
    var outstanding: map<nat, Request>
    ghost var accepted: multiset<Request>
    ghost var finished: multiset<Request>
    ghost var unfinished: map<nat, Request>
    ghost var lost: multiset<Request>

    ghost predicate Valid()
      reads this, scheduler
    {
      scheduler.Valid()
    }

    ghost function View(): State
      reads this, scheduler
    {
      State(scheduler.View(), concurrentRequests, active, activeRequests, outstanding, nextTaskID,
            stopErr, ctxErr, stats, accepted, finished, unfinished, lost)
    }

    constructor (scheduler: S.Scheduler, configured: int, limits: Limits, checkpoint: bool, ctxErr: Option<Error>,
                 ghost accepted: multiset<Request>, ghost finished: multiset<Request>,
                 ghost lost: multiset<Request>)
      requires scheduler.Valid()
      ensures Valid() && this.scheduler == scheduler && this.limits == limits && this.checkpoint == checkpoint
      ensures View() == Fresh(scheduler.View(), configured, ctxErr, accepted, finished, lost)
    {
      this.scheduler, this.limits, this.checkpoint := scheduler, limits, checkpoint;
      this.concurrentRequests := EffectiveConcurrentRequests(configured);
      active, activeRequests, outstanding, nextTaskID := 0, map[], map[], 0;
      stopErr, this.ctxErr, stats := None, ctxErr, ZERO;
      this.accepted, this.finished, this.unfinished, this.lost := accepted, finished, map[], lost;
    }

    method Cancel(e: Error)
      modifies this`ctxErr
      ensures View() == CancelContext(old(View()), e)
    {
      if ctxErr.None? { ctxErr := Some(e); }
    }

    /** The environment cancels the context, or does not. */
    method Strike(e: Option<Error>)
      modifies this`ctxErr
      ensures View() == Struck(old(View()), e)
    {
      if e.Some? { Cancel(e.value); }
    }

    method Stop(e: Error)
      modifies this`stopErr, this`ctxErr
      ensures View() == CrawlSpec.Stop(old(View()), e)
    {
      if stopErr.Some? { return; }
      stopErr := Some(e);
      Cancel(Canceled);
    }

    method Offer(r: Request, isRetry: bool)
      requires Valid()
      modifies this, scheduler
      ensures Valid() && View() == CrawlSpec.Offer(old(View()), r, isRetry)
    {
      hide Insert, CrawlSpec.Stop;
      var outcome := scheduler.Enqueue(r);
      match outcome
      case BadFingerprint => Stop(BAD_URL);
      case Duplicate => stats := stats.(skipped := stats.skipped + 1);
      case Queued =>
        if isRetry { stats := stats.(blockedRetries := stats.blockedRetries + 1); }
        accepted := accepted + multiset{r};
    }

    /** restoreOrEnqueueStartRequests: `saved` is what the checkpoint file holds, if any. */
    method RestoreOrEnqueue(start: seq<Request>, saved: Option<Snapshot>) returns (ok: bool, resuming: bool)
      requires Valid()
      modifies this, scheduler
      ensures Valid() && resuming == (checkpoint && saved.Some?)
      ensures resuming ==> ok && View() == old(View()).(sched := Restore(saved.value))
      ensures !resuming && ok ==> EnqueueStart(old(View()), start) == Some(View())
      ensures !resuming && !ok ==> EnqueueStart(old(View()), start) == None
    {
      if checkpoint && saved.Some? {
        scheduler.Restore(saved.value);
        return true, true;
      }
      for i := 0 to |start|
        invariant Valid() && EnqueueStart(old(View()), start[..i]) == Some(View())
      {
        assert start[..i + 1][..i] == start[..i];
        if start[i].key.None? {
          StartFails(old(View()), start, i + 1);
          return false, false;
        }
        Offer(start[i], false);
      }
      assert start[..|start|] == start;
      return true, false;
    }

    /** Dequeue one request and hand it to a new task. */
    method StartTask()
      requires Valid() && View().sched.queue != []
      modifies this, scheduler
      ensures Valid() && View() == CrawlSpec.StartTask(old(View()))
    {
      var request := scheduler.Dequeue();
      active := active + 1;
      nextTaskID := nextTaskID + 1;
      activeRequests := activeRequests[nextTaskID := request.value];
      outstanding := outstanding[nextTaskID := request.value];
      unfinished := unfinished[nextTaskID := request.value];
    }

    method StartReadyTasks()
      requires Valid()
      modifies this, scheduler
      ensures Valid() && View() == CrawlSpec.StartReadyTasks(old(View()))
    {
      hide CrawlSpec.StartTask, CrawlSpec.Stop;
      if ctxErr.Some? {
        Stop(ctxErr.value);
        return;
      }
      var len := scheduler.Len();
      while stopErr.None? && active < concurrentRequests && len > 0
        invariant Valid() && len == |scheduler.View().queue| == |View().sched.queue|
        invariant StartTasks(View()) == StartTasks(old(View()))
        decreases |View().sched.queue|
      {
        StartShrinks(View());
        StartTask();
        len := scheduler.Len();
      }
    }

    method IsComplete() returns (complete: bool)
      requires Valid()
      ensures complete == CrawlSpec.IsComplete(View())
    {
      if active != 0 { return false; }
      var len := scheduler.Len();
      return stopErr.Some? || len == 0;
    }

    method Received(id: nat)
      modifies this`active, this`outstanding
      ensures View() == CrawlSpec.Received(old(View()), id)
    {
      active := active - 1;
      outstanding := outstanding - {id};
    }

    method Forget(id: nat)
      modifies this`activeRequests
      ensures View() == CrawlSpec.Forget(old(View()), id)
    {
      activeRequests := activeRequests - {id};
    }

    ghost method Finish(id: nat, r: Request)
      modifies this`unfinished, this`finished
      ensures View() == CrawlSpec.Finish(old(View()), id, r)
    {
      unfinished, finished := unfinished - {id}, finished + multiset{r};
    }

    method HandleTaskError(id: nat, r: Request, e: Error)
      modifies this
      ensures View() == CrawlSpec.HandleTaskError(old(View()), id, r, e)
    {
      if ctxErr.Some? && Is(e, ctxErr.value) {
        Stop(ctxErr.value);
        return;
      }
      stats := stats.(failed := stats.failed + 1);
      Finish(id, r);
    }

    method HandleOutput(o: Output)
      requires Valid()
      modifies this, scheduler
      ensures Valid() && View() == CrawlSpec.HandleOutput(old(View()), o)
    {
      hide CrawlSpec.HandleRequestOutput;
      if o.item.Some? {
        match o.item.value
        case HookFailed(e) =>
          Stop(e);
          return;
        case Dropped =>
          stats := stats.(itemsDropped := stats.itemsDropped + 1);
          return;
        case Kept =>
          stats := stats.(items := stats.items + 1);
      }
      HandleRequestOutput(o);
    }

    method HandleRequestOutput(o: Output)
      requires Valid()
      modifies this, scheduler
      ensures Valid() && View() == CrawlSpec.HandleRequestOutput(old(View()), o)
    {
      hide CrawlSpec.Offer;
      if o.request.None? { return; }
      if !o.onsite {
        stats := stats.(offsite := stats.offsite + 1);
        return;
      }
      Offer(o.request.value, false);
    }

    method HandleResponse(t: TaskResult)
      requires Valid()
      modifies this, scheduler
      ensures Valid() && View() == CrawlSpec.HandleResponse(old(View()), t)
    {
      hide CrawlSpec.Offer, CrawlSpec.HandleOutput;
      stats := stats.(requests := stats.requests + 1);
      if t.blocked {
        stats := stats.(blockedRequests := stats.blockedRequests + 1);
        if t.retry.Some? { Offer(t.retry.value, true); }
        return;
      }
      ghost var s := View();
      for i := 0 to |t.outputs|
        invariant Valid() && View() == HandleOutputs(s, t.outputs[..i])
      {
        assert t.outputs[..i + 1][..i] == t.outputs[..i];
        HandleOutput(t.outputs[i]);
      }
      assert t.outputs[..|t.outputs|] == t.outputs;
    }

    /** `late` is a cancellation between the two reads of the context; see CrawlSpec. */
    method HandleTaskResult(t: TaskResult, late: Option<Error>)
      requires Valid()
      modifies this, scheduler
      ensures Valid() && View() == CrawlSpec.HandleTaskResult(old(View()), t, late)
    {
      hide CrawlSpec.HandleFailure, CrawlSpec.HandleResponse, CrawlSpec.Received, CrawlSpec.Forget, CrawlSpec.Finish;
      Received(t.taskID);
      if t.err.Some? {
        HandleFailure(t.taskID, t.request, t.err.value, late);
        return;
      }
      Forget(t.taskID);
      Finish(t.taskID, t.request);
      if t.robotsDisallowed {
        stats := stats.(robotsDisallowed := stats.robotsDisallowed + 1);
        return;
      }
      HandleResponse(t);
    }

    method HandleFailure(id: nat, r: Request, e: Error, late: Option<Error>)
      modifies this
      ensures View() == CrawlSpec.HandleFailure(old(View()), id, r, e, late)
    {
      hide CrawlSpec.HandleTaskError, CrawlSpec.Struck;
      if ctxErr.None? || !Is(e, ctxErr.value) { Forget(id); }
      Strike(late);
      HandleTaskError(id, r, e);
    }

    method PauseSnapshot() returns (snapshot: Snapshot)
      requires Valid()
      requires forall id :: id in activeRequests ==> 1 <= id <= nextTaskID
      ensures IsPauseSnapshot(View(), snapshot)
    {
      snapshot := scheduler.Snapshot();
      if |activeRequests| == 0 {
        NothingHeld(nextTaskID);
        return;
      }
      var held: seq<Request> := [];
      for taskID := 1 to nextTaskID + 1
        invariant held == InTaskOrder(activeRequests, taskID - 1)
      {
        if taskID in activeRequests { held := held + [activeRequests[taskID]]; }
      }
      snapshot := snapshot.(requests := held + snapshot.requests);
    }

    lemma {:induction false} NothingHeld(n: nat)
      requires |activeRequests| == 0
      ensures InTaskOrder(activeRequests, n) == []
    {
      if n > 0 { NothingHeld(n - 1); }
    }

    /** The event loop of run, from after the start requests were queued or restored. */
    method Run(script: seq<Event>) returns (verdict: Verdict)
      requires Valid() && Playable(limits, View(), script)
      requires I.Inv(View())
      modifies this, scheduler
      ensures Valid() && View() == Loop(limits, old(View()), script)
      ensures verdict == Waiting <==> !CrawlSpec.IsComplete(View())
      ensures verdict == Completed ==> View().stopErr == None && View().finished + View().lost == View().accepted
      ensures verdict.StoppedBy? ==> View().stopErr == Some(verdict.error) && !(checkpoint && Paused(View()))
      ensures verdict.PausedAt? ==> checkpoint && Paused(View()) && IsPauseSnapshot(View(), verdict.snapshot)
    {
      hide I.Inv, CrawlSpec.StartReadyTasks, After;
      var turn := 0;
      while true
        invariant 0 <= turn <= |script| && Valid() && I.Inv(View())
        invariant Playable(limits, View(), script[turn..])
        invariant Loop(limits, old(View()), script) == Loop(limits, View(), script[turn..])
        decreases |script| - turn
      {
        if turn < |script| && script[turn].Cancel? {
          I.StepKeepsInv(limits, View(), script[turn]);
          Take(script[turn]);
          turn := turn + 1;
          continue;
        }
        I.StartReadyKeepsInv(View());
        StartReadyTasks();
        var complete := IsComplete();
        if complete {
          if stopErr.Some? {
            if checkpoint && ctxErr.Some? && Is(stopErr.value, ctxErr.value) {
              C.HeldAreNumbered(View());
              var snapshot := PauseSnapshot();
              return PausedAt(snapshot);
            }
            return StoppedBy(stopErr.value);
          }
          C.CompleteFinishesAll(View());
          return Completed;
        }
        if turn == |script| { return Waiting; }
        I.StepKeepsInv(limits, View(), script[turn]);
        Take(script[turn]);
        turn := turn + 1;
      }
    }

    /** The environment cancels the context; or the select takes an arm, a task's result or a done context,
        perhaps after the context was cancelled while it waited. */
    method Take(ev: Event)
      requires Valid() && Enabled(limits, View(), ev) && !ev.Restart?
      modifies this, scheduler
      ensures Valid() && View() == After(limits, old(View()), ev)
    {
      hide CrawlSpec.HandleTaskResult, CrawlSpec.IsComplete;
      match ev
      case Cancel(e) => Cancel(e);
      case Receive(id, answers, waiting, late) =>
        var task := ProcessRequest(id, outstanding[id], limits.maxBlockedRetries, answers);
        Strike(waiting);
        HandleTaskResult(task, late);
      case ContextDone(waiting) =>
        Strike(waiting);
        Stop(ctxErr.value);
    }
  }

  lemma StartShrinks(s: State)
    requires s.sched.queue != []
    ensures |StartTask(s).sched.queue| == |s.sched.queue| - 1
  {
  }

  lemma {:induction false} StartFails(s: State, start: seq<Request>, n: nat)
    requires n <= |start| && EnqueueStart(s, start[..n]) == None
    ensures EnqueueStart(s, start) == None
    decreases |start| - n
  {
    if n < |start| {
      assert start[..n + 1][..n] == start[..n];
      StartFails(s, start, n + 1);
    } else {
      assert start[..n] == start;
    }
  }
}
