/** What every chain of runs keeps. */
module CrawlSafety {
  import opened Wrappers
  import opened SchedulerSpec
  import opened CrawlSpec
  import opened CrawlInvariant

  /** Over any chain of runs every accepted request is queued, outstanding, cancelled, finished, or was lost by
      an earlier pause, counted with multiplicity. */
  lemma NothingDuplicated(limits: Limits, s: State, trace: seq<Event>, s': State)
    requires IsInitial(s) && Leads(limits, s, trace, s')
    ensures s'.accepted ==
            multiset(s'.sched.queue) + multiset(InTaskOrder(s'.inFlight, s'.nextTaskID)) +
            multiset(InTaskOrder(Cancelled(s'), s'.nextTaskID)) + s'.finished + s'.lost
  {
    InitialInv(s);
    TraceKeepsInv(limits, s, trace, s');
    InTaskOrderParts(s'.inFlight, s'.unfinished, s'.nextTaskID);
  }

  /** No fingerprint finishes twice, over any chain of runs joined by pause and restore, although
      cancelled requests are run again. */
  lemma AtMostOnce(limits: Limits, s: State, trace: seq<Event>, s': State, r: Request, r': Request)
    requires IsInitial(s) && Leads(limits, s, trace, s')
    requires r in s'.finished && r' in s'.finished
    requires !r.dontFilter && !r'.dontFilter && r.key == r'.key
    ensures r == r' && s'.finished[r] == 1
  {
    InitialInv(s);
    TraceKeepsInv(limits, s, trace, s');
    assert s'.finished[r] <= s'.accepted[r];
    assert r in s'.accepted && r' in s'.accepted;
  }

  // ---------- the two reads of the context ----------

  /** How many unfinished requests are not in activeRequests, or were lost by an earlier pause. */
  function Drops(s: State): int {
    |s.unfinished| - |s.activeRequests| + |s.lost|
  }

  lemma SameDrops(s: State, s': State)
    requires Extends(s, s')
    ensures Drops(s') == Drops(s)
  {
    hide Balanced, Stopping, Counted;
  }

  lemma StartTaskDrops(s: State)
    requires Inv(s) && s.sched.queue != []
    ensures Drops(StartTask(s)) == Drops(s)
  {
    hide Balanced, Counted, Stopping;
    Added(s.unfinished, s.nextTaskID + 1, s.sched.queue[0]);
    Added(s.activeRequests, s.nextTaskID + 1, s.sched.queue[0]);
  }

  lemma {:induction false} StartTasksDrops(s: State)
    requires Inv(s)
    ensures Drops(StartTasks(s)) == Drops(s)
    decreases |s.sched.queue|
  {
    hide Inv, Drops;
    if s.stopErr.None? && s.active < s.concurrentRequests && s.sched.queue != [] {
      StartTaskKeepsInv(s);
      StartTaskDrops(s);
      StartTasksDrops(StartTask(s));
    }
  }

  lemma StartReadyDrops(s: State)
    requires Inv(s)
    ensures Drops(StartReadyTasks(s)) == Drops(s)
  {
    hide Inv, Drops, Extends;
    if s.ctxErr.Some? {
      StopExtends(s, s.ctxErr.value);
      SameDrops(s, Stop(s, s.ctxErr.value));
    } else {
      StartTasksDrops(s);
    }
  }

  lemma ForgetDrops(s: State, id: nat, r: Request)
    requires id in s.activeRequests && id in s.unfinished
    ensures Drops(Finish(Forget(s, id), id, r)) == Drops(s)
    ensures Drops(Forget(s, id)) == Drops(s) + 1
  {
    Removed(s.activeRequests, id);
    Removed(s.unfinished, id);
  }

  lemma FailureDrops(s: State, id: nat, r: Request, e: Error, late: Option<Error>)
    requires id in s.activeRequests && id in s.unfinished
    ensures Drops(HandleFailure(s, id, r, e, late)) ==
            Drops(s) + if late.Some? && s.ctxErr.None? && Is(e, late.value) then 1 else 0
  {
    hide Is;
    ForgetDrops(s, id, r);
  }

  /** A result costs the checkpoint a request exactly when the two reads disagree on it. */
  lemma ResultDrops(s: State, t: TaskResult, late: Option<Error>)
    requires Inv(s) && t.taskID in s.inFlight
    ensures Drops(HandleTaskResult(s, t, late)) == Drops(s) + if AgreedRead(s, t, late) then 0 else 1
  {
    hide Balanced, Counted, Stopping, Drops, HandleFailure, HandleResponse, Is;
    var s1 := Received(s, t.taskID);
    ReceivedDrops(s, t.taskID);
    if t.err.Some? {
      FailureDrops(s1, t.taskID, t.request, t.err.value, late);
    } else {
      ForgetDrops(s1, t.taskID, t.request);
      var s2 := Finish(Forget(s1, t.taskID), t.taskID, t.request);
      StatsDrops(s2, s2.stats.(robotsDisallowed := s2.stats.robotsDisallowed + 1));
      StatsDrops(s2, s2.stats.(requests := s2.stats.requests + 1));
      HandleResponseExtends(s2, t);
      SameDrops(Responded(s2), HandleResponse(s2, t));
    }
  }

  lemma ReceivedDrops(s: State, id: nat)
    ensures Drops(Received(s, id)) == Drops(s)
  {
  }

  lemma StatsDrops(s: State, stats: Stats)
    ensures Drops(s.(stats := stats)) == Drops(s)
  {
  }

  lemma ForgottenSize(s: State)
    requires Inv(s)
    ensures |multiset(InTaskOrder(Forgotten(s), s.nextTaskID)) + s.lost| == Drops(s)
  {
    WithinTables(s);
    assert forall id :: id in s.unfinished ==> 1 <= id <= s.nextTaskID;
    hide Inv, Within, InTaskOrder;
    InTaskOrderSize(Forgotten(s), s.nextTaskID);
    PartSizes(s.activeRequests, s.unfinished);
    SumSize(multiset(InTaskOrder(Forgotten(s), s.nextTaskID)), s.lost);
  }

  lemma SumSize(a: multiset<Request>, b: multiset<Request>)
    ensures |a + b| == |a| + |b| && a + b == b + a
  {
  }

  lemma ResumeDrops(s: State, snapshot: Snapshot, configured: int, ctx: Option<Error>)
    requires Inv(s)
    ensures Drops(Resume(s, snapshot, configured, ctx)) == Drops(s)
  {
    hide Inv, Restore, InTaskOrder, Forgotten;
    ForgottenSize(s);
    SumSize(multiset(InTaskOrder(Forgotten(s), s.nextTaskID)), s.lost);
  }

  lemma StepDrops(limits: Limits, s: State, ev: Event)
    requires Inv(s) && Enabled(limits, s, ev)
    ensures Drops(After(limits, s, ev)) == Drops(s) + if Disagrees(limits, s, ev) then 1 else 0
  {
    hide Inv, Drops, HandleTaskResult, Extends, AgreedRead, Resume, Stop, Paused, IsPauseSnapshot, IsComplete;
    match ev
    case Cancel(e) => StruckExtends(s, Some(e)); SameDrops(s, Struck(s, Some(e)));
    case Receive(id, answers, waiting, late) =>
      StruckExtends(s, waiting);
      SameDrops(s, Struck(s, waiting));
      ExtendsKeepsInv(s, Struck(s, waiting));
      ResultDrops(Struck(s, waiting), Outcome(limits, s, ev), late);
    case ContextDone(waiting) =>
      var s' := Struck(s, waiting);
      StruckExtends(s, waiting);
      SameDrops(s, s');
      StopExtends(s', s'.ctxErr.value);
      SameDrops(s', Stop(s', s'.ctxErr.value));
    case Restart(snapshot, configured, ctx) => ResumeDrops(s, snapshot, configured, ctx);
  }

  lemma {:induction false} TraceDrops(limits: Limits, s: State, trace: seq<Event>, s': State)
    requires Inv(s) && Leads(limits, s, trace, s')
    ensures Drops(s') == Drops(s) + Disagreements(limits, s, trace, s')
    decreases trace
  {
    if trace != [] {
      hide Inv, Drops, Disagrees;
      var at := Before(s, trace[0]);
      BeforeKeepsInv(s, trace[0]);
      StartReadyDrops(s);
      StepKeepsInv(limits, at, trace[0]);
      StepDrops(limits, at, trace[0]);
      TraceDrops(limits, After(limits, at, trace[0]), trace[1..], s');
    }
  }

  lemma InitialDrops(s: State)
    requires IsInitial(s)
    ensures Drops(s) == 0
  {
    var start, configured, ctx :| IsInitialWith(s, start, configured, ctx);
    hide EnqueueStart;
    StartDrops(Blank(configured, ctx), start);
  }

  lemma {:induction false} StartDrops(s: State, start: seq<Request>)
    requires EnqueueStart(s, start).Some?
    ensures Drops(EnqueueStart(s, start).value) == Drops(s)
  {
    if start != [] {
      hide Drops, Extends, Offer;
      StartDrops(s, start[..|start| - 1]);
      var s' := EnqueueStart(s, start[..|start| - 1]).value;
      OfferExtends(s', start[|start| - 1], false);
      SameDrops(s', Offer(s', start[|start| - 1], false));
    }
  }

  /** What activeRequests holds is unfinished; it is all that is unfinished, and nothing was lost, if and only
      if nothing was dropped. */
  lemma NoDrops(s: State)
    requires Inv(s)
    ensures Drops(s) == 0 <==> s.activeRequests == s.unfinished && s.lost == multiset{}
  {
    hide Balanced, Counted, Stopping, Within;
    WithinTables(s);
    WithinSize(s.activeRequests, s.unfinished);
  }

  lemma HeldBalance(s: State)
    requires Inv(s)
    ensures var held := multiset(InTaskOrder(s.activeRequests, s.nextTaskID));
            s.accepted == multiset(s.sched.queue) + held + s.finished <==> Drops(s) == 0
  {
    NoDrops(s);
    WithinTables(s);
    ForgottenSize(s);
    InTaskOrderParts(s.activeRequests, s.unfinished, s.nextTaskID);
    hide Books, Within, Unique, Good, InTaskOrder, Drops;
    var held := multiset(InTaskOrder(s.activeRequests, s.nextTaskID));
    var forgotten := multiset(InTaskOrder(Forgotten(s), s.nextTaskID));
    assert s.accepted == multiset(s.sched.queue) + held + s.finished + (forgotten + s.lost);
    SameSum(multiset(s.sched.queue) + held + s.finished, forgotten + s.lost);
  }

  lemma SameSum(a: multiset<Request>, b: multiset<Request>)
    ensures a == a + b <==> |b| == 0
  {
    assert |a + b| == |a| + |b|;
    if |b| == 0 { assert b == multiset{}; }
  }

  /** The code's own bookkeeping loses nothing, that is, every accepted request is queued, in activeRequests or
      finished, if and only if the two reads of the context agreed on every result of the chain. */
  lemma NothingLostIffReadsAgree(limits: Limits, s: State, trace: seq<Event>, s': State)
    requires IsInitial(s) && Leads(limits, s, trace, s')
    ensures var held := multiset(InTaskOrder(s'.activeRequests, s'.nextTaskID));
            s'.accepted == multiset(s'.sched.queue) + held + s'.finished <==> Disagreements(limits, s, trace, s') == 0
  {
    hide Inv, Drops;
    InitialInv(s);
    InitialDrops(s);
    TraceKeepsInv(limits, s, trace, s');
    TraceDrops(limits, s, trace, s');
    HeldBalance(s');
  }

  // ---------- the end of a run ----------

  /** The cancelled tasks are the unfinished ones when nothing is outstanding. */
  lemma AllCancelled(s: State)
    requires Inv(s) && IsComplete(s)
    ensures s.inFlight == map[] && Cancelled(s) == s.unfinished
  {
    assert s.inFlight.Keys == {};
  }

  /** A paused run's snapshot lists the cancelled tasks that are still in activeRequests, in task order, and
      then the queue.  Those are all the cancelled ones, and the snapshot with the finished requests is all
      that was accepted, if and only if the two reads agreed on every result of the chain. */
  lemma PauseSnapshotIsExact(limits: Limits, init: State, trace: seq<Event>, s: State, snapshot: Snapshot)
    requires IsInitial(init) && Leads(limits, init, trace, s)
    requires Paused(StartReadyTasks(s)) && IsPauseSnapshot(StartReadyTasks(s), snapshot)
    ensures var end := StartReadyTasks(s);
            && snapshot.requests == InTaskOrder(end.activeRequests, end.nextTaskID) + end.sched.queue
            && Within(end.activeRequests, Cancelled(end))
            && (multiset(snapshot.requests) + end.finished == end.accepted <==>
                Disagreements(limits, init, trace, s) == 0)
            && (end.activeRequests == Cancelled(end) && end.lost == multiset{} <==>
                Disagreements(limits, init, trace, s) == 0)
  {
    var end := StartReadyTasks(s);
    InitialInv(init);
    InitialDrops(init);
    TraceKeepsInv(limits, init, trace, s);
    TraceDrops(limits, init, trace, s);
    StartReadyKeepsInv(s);
    StartReadyDrops(s);
    AllCancelled(end);
    WithinTables(end);
    HeldBalance(end);
    NoDrops(end);
    hide Inv, Drops, Within, StartReadyTasks, InTaskOrder, Increasing, ToSet, Cancelled, IsComplete;
    assert multiset(snapshot.requests) ==
      multiset(end.sched.queue) + multiset(InTaskOrder(end.activeRequests, end.nextTaskID));
  }

  lemma HeldAreNumbered(s: State)
    requires Inv(s)
    ensures forall id :: id in s.activeRequests ==> 1 <= id <= s.nextTaskID
  {
  }

  lemma CompleteFinishesAll(s: State)
    requires Inv(s) && IsComplete(s) && s.stopErr.None?
    ensures s.finished + s.lost == s.accepted
  {
    assert s.inFlight.Keys == {};
    assert s.unfinished == map[];
    InTaskOrderEmpty(s.nextTaskID);
  }

  /** A run that ends without an error has finished everything it accepted; what a chain lost, it lost at a
      pause after the reads disagreed. */
  lemma CompleteRunFinishesAll(limits: Limits, s: State, trace: seq<Event>, s': State)
    requires IsInitial(s) && Leads(limits, s, trace, s')
    requires IsComplete(StartReadyTasks(s')) && StartReadyTasks(s').stopErr.None?
    ensures var end := StartReadyTasks(s'); end.finished == end.accepted <==> Disagreements(limits, s, trace, s') == 0
  {
    var end := StartReadyTasks(s');
    InitialInv(s);
    InitialDrops(s);
    TraceKeepsInv(limits, s, trace, s');
    TraceDrops(limits, s, trace, s');
    StartReadyKeepsInv(s');
    StartReadyDrops(s');
    CompleteFinishesAll(end);
    NoDrops(end);
    assert end.unfinished == end.activeRequests;
    SameSum(end.finished, end.lost);
  }

  // ---------- counters ----------

  /** The counters at every loop head: outstanding tasks are counted and bounded, every task started is
      accounted for, and a run that is not over is waiting for a task. */
  lemma ProgressAndBounds(limits: Limits, s: State, trace: seq<Event>, s': State)
    requires IsInitial(s) && Leads(limits, s, trace, s')
    ensures var ready := StartReadyTasks(s');
            && s'.active == |s'.inFlight| <= s'.concurrentRequests
            && ready.active == |ready.inFlight| <= ready.concurrentRequests
            && s'.nextTaskID == Counted(s'.stats) + |s'.inFlight| + |Cancelled(s')|
            && (!IsComplete(ready) ==> ready.active > 0)
            && (IsComplete(ready) ==> ready.inFlight == map[])
  {
    InitialInv(s);
    TraceKeepsInv(limits, s, trace, s');
    StartReadyKeepsInv(s');
    StartsUntilFull(s');
    InFlightWithin(s');
    PartSizes(s'.inFlight, s'.unfinished);
    hide Balanced, Counted;
    var ready := StartReadyTasks(s');
    if ready.active == 0 { assert ready.inFlight.Keys == {}; }
  }

  lemma InFlightWithin(s: State)
    requires Inv(s)
    ensures Within(s.inFlight, s.unfinished)
  {
    hide Balanced;
  }

  lemma {:induction false} StartsUntilFull(s: State)
    ensures var e := StartTasks(s); e.stopErr.Some? || e.active >= e.concurrentRequests || e.sched.queue == []
    decreases |s.sched.queue|
  {
    if s.stopErr.None? && s.active < s.concurrentRequests && s.sched.queue != [] { StartsUntilFull(StartTask(s)); }
  }

  ghost predicate OneRun(trace: seq<Event>) {
    forall ev :: ev in trace ==> !ev.Restart?
  }

  lemma {:induction false} OneRunLosesNothing(limits: Limits, s: State, trace: seq<Event>, s': State)
    requires Inv(s) && Leads(limits, s, trace, s') && OneRun(trace)
    ensures s'.lost == s.lost
    decreases trace
  {
    if trace != [] {
      hide Inv, After, Enabled, StartReadyTasks;
      var at := Before(s, trace[0]);
      BeforeKeepsInv(s, trace[0]);
      StepKeepsInv(limits, at, trace[0]);
      StartReadyLost(s);
      assert trace[0] in trace;
      StepLost(limits, at, trace[0]);
      OneRunLosesNothing(limits, After(limits, at, trace[0]), trace[1..], s');
    }
  }

  lemma StartReadyLost(s: State)
    ensures StartReadyTasks(s).lost == s.lost
  {
    StartTasksLost(s);
  }

  lemma {:induction false} StartTasksLost(s: State)
    ensures StartTasks(s).lost == s.lost
    decreases |s.sched.queue|
  {
    if s.stopErr.None? && s.active < s.concurrentRequests && s.sched.queue != [] { StartTasksLost(StartTask(s)); }
  }

  lemma ResultLost(s: State, t: TaskResult, late: Option<Error>)
    ensures HandleTaskResult(s, t, late).lost == s.lost
  {
    hide Is, HandleResponse, Extends;
    var s' := Finish(Forget(Received(s, t.taskID), t.taskID), t.taskID, t.request);
    HandleResponseExtends(s', t);
    ExtendsLost(Responded(s'), HandleResponse(s', t));
  }

  lemma ExtendsLost(s: State, s': State)
    requires Extends(s, s')
    ensures s'.lost == s.lost
  {
    hide Balanced, Stopping, Counted;
  }

  lemma StepLost(limits: Limits, s: State, ev: Event)
    requires Enabled(limits, s, ev) && !ev.Restart?
    ensures After(limits, s, ev).lost == s.lost
  {
    hide HandleTaskResult;
    if ev.Receive? { ResultLost(Struck(s, ev.waiting), Outcome(limits, s, ev), ev.late); }
  }

  /** In one run the counters and activeRequests account for every task started if and only if the two reads
      agreed on every result: a task that returns the very error the context takes on between them is counted
      nowhere. */
  lemma AccountedIffReadsAgree(limits: Limits, s: State, trace: seq<Event>, s': State)
    requires IsInitial(s) && Leads(limits, s, trace, s') && OneRun(trace)
    ensures s'.nextTaskID == Counted(s'.stats) + |s'.activeRequests| <==> Disagreements(limits, s, trace, s') == 0
  {
    InitialInv(s);
    InitialDrops(s);
    InitialLost(s);
    TraceKeepsInv(limits, s, trace, s');
    TraceDrops(limits, s, trace, s');
    OneRunLosesNothing(limits, s, trace, s');
    hide Balanced, Counted, OneRun, Leads, IsInitial;
  }

  lemma InitialLost(s: State)
    requires IsInitial(s)
    ensures s.lost == multiset{}
  {
    var start, configured, ctx :| IsInitialWith(s, start, configured, ctx);
    StartLost(Blank(configured, ctx), start);
  }

  lemma {:induction false} StartLost(s: State, start: seq<Request>)
    requires EnqueueStart(s, start).Some?
    ensures EnqueueStart(s, start).value.lost == s.lost
  {
    if start != [] { StartLost(s, start[..|start| - 1]); }
  }
}
