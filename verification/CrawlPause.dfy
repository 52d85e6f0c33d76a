/** Which error ends a run. */
module CrawlPause {
  import opened Wrappers
  import opened SchedulerSpec
  import opened CrawlSpec
  import opened CrawlSafety

  // ---------- what a result complains about ----------

  /** The error of an output: its item hook failed, or it is followed to a URL that does not parse. */
  function OutputComplaint(o: Output): Option<Error> {
    if o.item.Some? && o.item.value.HookFailed? then Some(o.item.value.error)
    else if o.item == Some(Dropped) then None
    else if o.request.Some? && o.onsite && o.request.value.key.None? then Some(BAD_URL)
    else None
  }

  function FirstComplaint(outputs: seq<Output>): Option<Error> {
    if outputs == [] then None
    else
      var earlier := FirstComplaint(outputs[..|outputs| - 1]);
      if earlier.Some? then earlier else OutputComplaint(outputs[|outputs| - 1])
  }

  /** The error that a result makes the runtime stop with, whatever the context. */
  function Complaint(t: TaskResult): Option<Error> {
    if t.err.Some? || t.robotsDisallowed then None
    else if !t.blocked then FirstComplaint(t.outputs)
    else if t.retry.Some? && t.retry.value.key.None? then Some(BAD_URL)
    else None
  }

  /** How a run stands: nothing has stopped it; its context's error was recorded; or another error was passed
      to stop first, and `ctx` is what its context then reports. */
  datatype Ending = Open | Recorded(e: Error) | Overtaken(e: Error, ctx: Error)

  /** Read off the events: the first of a context error seen at a loop head and a complaint. */
  ghost function EndingOf(limits: Limits, s: State, trace: seq<Event>, s': State): Ending
    requires Leads(limits, s, trace, s')
    decreases trace
  {
    if s.ctxErr.Some? then Recorded(s.ctxErr.value)
    else if trace == [] then Open
    else
      var at, ev := Before(s, trace[0]), trace[0];
      if ev.Receive? && Complaint(Outcome(limits, at, ev)).Some? then
        Overtaken(Complaint(Outcome(limits, at, ev)).value, if ev.waiting.Some? then ev.waiting.value else Canceled)
      else EndingOf(limits, After(limits, at, ev), trace[1..], s')
  }

  // ---------- stopErr and ctxErr through the handlers ----------

  /** Where `s'` stands after something passed `e` to stop in `s`, if it did. */
  ghost predicate StopsWith(s: State, e: Option<Error>, s': State) {
    if e.None? || s.stopErr.Some? then s'.stopErr == s.stopErr && s'.ctxErr == s.ctxErr
    else s'.stopErr == e && s'.ctxErr == Some(if s.ctxErr.Some? then s.ctxErr.value else Canceled)
  }

  lemma OfferStops(s: State, r: Request, isRetry: bool)
    ensures StopsWith(s, if r.key.None? then Some(BAD_URL) else None, Offer(s, r, isRetry))
  {
  }

  lemma RequestStops(s: State, o: Output)
    ensures StopsWith(s, if o.request.Some? && o.onsite && o.request.value.key.None? then Some(BAD_URL) else None,
                      HandleRequestOutput(s, o))
  {
    hide Offer, StopsWith;
    if o.request.Some? { OfferStops(s, o.request.value, false); }
    var offsite := s.stats.(offsite := s.stats.offsite + 1);
    StatsStop(s, offsite);
    StatsStop(s, s.stats);
    assert StopsWith(s, None, s.(stats := offsite)) && StopsWith(s, None, s);
  }

  lemma StatsStop(s: State, stats: Stats)
    ensures StopsWith(s, None, s.(stats := stats))
  {
  }

  lemma OutputStops(s: State, o: Output)
    ensures StopsWith(s, OutputComplaint(o), HandleOutput(s, o))
  {
    hide HandleRequestOutput;
    RequestStops(s, o);
    RequestStops(s.(stats := s.stats.(items := s.stats.items + 1)), o);
  }

  lemma {:induction false} OutputsStop(s: State, outputs: seq<Output>)
    ensures StopsWith(s, FirstComplaint(outputs), HandleOutputs(s, outputs))
  {
    if outputs != [] {
      hide HandleOutput, OutputComplaint;
      OutputsStop(s, outputs[..|outputs| - 1]);
      OutputStops(HandleOutputs(s, outputs[..|outputs| - 1]), outputs[|outputs| - 1]);
    }
  }

  lemma ResponseStops(s: State, t: TaskResult)
    requires t.err.None? && !t.robotsDisallowed
    ensures StopsWith(s, Complaint(t), HandleResponse(s, t))
  {
    hide Offer, HandleOutputs, FirstComplaint;
    var s' := Responded(s);
    if t.retry.Some? {
      OfferStops(s'.(stats := s'.stats.(blockedRequests := s'.stats.blockedRequests + 1)), t.retry.value, true);
    }
    OutputsStop(s', t.outputs);
  }

  /** A result that is no failure stops the run with its complaint. */
  lemma SuccessStops(s: State, t: TaskResult, late: Option<Error>)
    requires t.err.None?
    ensures StopsWith(s, Complaint(t), HandleTaskResult(s, t, late))
  {
    hide HandleResponse;
    var s' := Finish(Forget(Received(s, t.taskID), t.taskID), t.taskID, t.request);
    if !t.robotsDisallowed { ResponseStops(s', t); }
  }

  /** A failure stops the run with the context's error or not at all. */
  lemma FailureStops(s: State, t: TaskResult, late: Option<Error>)
    requires t.err.Some?
    ensures var s', struck := HandleTaskResult(s, t, late), Struck(s, late);
            s'.ctxErr == struck.ctxErr && (s'.stopErr == s.stopErr || (s.stopErr.None? && s'.stopErr == struck.ctxErr))
  {
    hide Is;
  }

  // ---------- runs ----------

  /** A stopped run stays stopped with the same error and the same context. */
  lemma {:induction false} StoppedStays(limits: Limits, s: State, trace: seq<Event>, s': State)
    requires Leads(limits, s, trace, s') && OneRun(trace) && s.stopErr.Some? && s.ctxErr.Some?
    ensures s'.stopErr == s.stopErr && s'.ctxErr == s.ctxErr
    decreases trace
  {
    if trace != [] {
      hide HandleTaskResult;
      var at, ev := Before(s, trace[0]), trace[0];
      assert ev in trace;
      if ev.Receive? { ResultStays(Struck(at, ev.waiting), Outcome(limits, at, ev), ev.late); }
      StoppedStays(limits, After(limits, at, ev), trace[1..], s');
    }
  }

  lemma ResultStays(s: State, t: TaskResult, late: Option<Error>)
    requires s.stopErr.Some? && s.ctxErr.Some?
    ensures var s' := HandleTaskResult(s, t, late); s'.stopErr == s.stopErr && s'.ctxErr == s.ctxErr
  {
    hide HandleTaskResult;
    if t.err.Some? { FailureStops(s, t, late); } else { SuccessStops(s, t, late); }
  }

  /** Once the context is done, the next loop head records its error. */
  lemma {:induction false} DoneIsRecorded(limits: Limits, s: State, trace: seq<Event>, s': State)
    requires Leads(limits, s, trace, s') && OneRun(trace) && s.ctxErr.Some?
    requires s.stopErr.None? || s.stopErr == s.ctxErr
    ensures StartReadyTasks(s').stopErr == s.ctxErr && StartReadyTasks(s').ctxErr == s.ctxErr
    decreases trace
  {
    if s.stopErr.Some? {
      StoppedStays(limits, s, trace, s');
    } else if trace != [] {
      hide HandleTaskResult;
      var at, ev := Before(s, trace[0]), trace[0];
      assert ev in trace;
      if ev.Receive? { ResultStays(Struck(at, ev.waiting), Outcome(limits, at, ev), ev.late); }
      DoneIsRecorded(limits, After(limits, at, ev), trace[1..], s');
    }
  }

  lemma {:induction false} StartTasksKeepErrors(s: State)
    ensures StartTasks(s).stopErr == s.stopErr && StartTasks(s).ctxErr == s.ctxErr
    decreases |s.sched.queue|
  {
    if s.stopErr.None? && s.active < s.concurrentRequests && s.sched.queue != [] { StartTasksKeepErrors(StartTask(s)); }
  }

  /** An event in an open run either leaves it open or with its context done, or it is a complaint. */
  lemma OpenStep(limits: Limits, s: State, ev: Event)
    requires Enabled(limits, s, ev) && !ev.Restart? && s.stopErr.None? && s.ctxErr.None?
    ensures var s' := After(limits, s, ev);
            if ev.Receive? && Complaint(Outcome(limits, s, ev)).Some? then
              && s'.stopErr == Complaint(Outcome(limits, s, ev))
              && s'.ctxErr == Some(if ev.waiting.Some? then ev.waiting.value else Canceled)
            else s'.stopErr.None? || s'.stopErr == s'.ctxErr
  {
    hide HandleTaskResult, Complaint, IsComplete;
    if ev.Receive? {
      var t := Outcome(limits, s, ev);
      if t.err.Some? {
        NoComplaint(t);
        FailureStops(Struck(s, ev.waiting), t, ev.late);
      } else {
        SuccessStops(Struck(s, ev.waiting), t, ev.late);
      }
    }
  }

  lemma NoComplaint(t: TaskResult)
    requires t.err.Some?
    ensures Complaint(t).None?
  {
  }

  /** The events decide the run's error and its context's error. */
  lemma {:induction false} EndingDecides(limits: Limits, s: State, trace: seq<Event>, s': State)
    requires Leads(limits, s, trace, s') && OneRun(trace) && (s.stopErr.None? || s.stopErr == s.ctxErr)
    ensures var end := StartReadyTasks(s');
            match EndingOf(limits, s, trace, s')
            case Open => end.stopErr.None? && end.ctxErr.None?
            case Recorded(e) => end.stopErr == Some(e) && end.ctxErr == Some(e)
            case Overtaken(e, ctx) => end.stopErr == Some(e) && end.ctxErr == Some(ctx)
    decreases trace
  {
    hide Complaint, After;
    if s.ctxErr.Some? {
      DoneIsRecorded(limits, s, trace, s');
    } else if trace == [] {
      StartTasksKeepErrors(s);
    } else {
      var at, ev := Before(s, trace[0]), trace[0];
      assert ev in trace;
      StartTasksKeepErrors(s);
      OpenStep(limits, at, ev);
      if ev.Receive? && Complaint(Outcome(limits, at, ev)).Some? {
        StoppedStays(limits, After(limits, at, ev), trace[1..], s');
      } else {
        EndingDecides(limits, After(limits, at, ev), trace[1..], s');
      }
    }
  }

  /** A run that is over is paused with a checkpoint if and only if its context's error was recorded before any
      complaint, or the complaint that came first wraps the context's error. */
  lemma PausedIffRecordedFirst(limits: Limits, s: State, trace: seq<Event>, s': State)
    requires s.stopErr.None? && Leads(limits, s, trace, s') && OneRun(trace) && IsComplete(StartReadyTasks(s'))
    ensures Paused(StartReadyTasks(s')) <==>
            match EndingOf(limits, s, trace, s')
            case Open => false
            case Recorded(_) => true
            case Overtaken(e, ctx) => Is(e, ctx)
  {
    EndingDecides(limits, s, trace, s');
    hide Leads, EndingOf, IsComplete, StartReadyTasks;
  }

  // ---------- two runs that lose requests ----------

  /** A request with fingerprint `k`. */
  function Plain(k: Key): Request {
    Request(Some(k), 0, false, 0, 0)
  }

  /** Two start requests, one task at a time: the first is out and the second waits. */
  const TWO_STARTED: State :=
    Blank(1, None).(
      sched := Sched([Plain(1)], {0, 1}), active := 1, nextTaskID := 1, accepted := multiset{Plain(0), Plain(1)},
      activeRequests := map[1 := Plain(0)], inFlight := map[1 := Plain(0)], unfinished := map[1 := Plain(0)])

  lemma TwoStart(s: State)
    requires EnqueueStart(Blank(1, None), [Plain(0), Plain(1)]) == Some(s)
    ensures StartReadyTasks(s) == TWO_STARTED
  {
    TwoQueued(s);
    hide EnqueueStart;
    assert StartTask(s).activeRequests == map[1 := Plain(0)];
    assert StartTask(s) == TWO_STARTED;
    assert StartTasks(TWO_STARTED) == TWO_STARTED;
  }

  lemma TwoQueued(s: State)
    requires EnqueueStart(Blank(1, None), [Plain(0), Plain(1)]) == Some(s)
    ensures s == Blank(1, None).(sched := Sched([Plain(0), Plain(1)], {0, 1}), accepted := multiset{Plain(0), Plain(1)})
  {
    var start := [Plain(0), Plain(1)];
    assert start[..1] == [Plain(0)] && start[..1][..0] == [];
    var one := Offer(Blank(1, None), Plain(0), false);
    assert EnqueueStart(Blank(1, None), start[..1]) == Some(one);
    assert s == Offer(one, Plain(1), false);
    hide EnqueueStart;
    assert one.sched == Sched([Plain(0)], {0});
    assert s.sched.queue == [Plain(0), Plain(1)] && s.sched.seen == {0, 1};
  }

  lemma TwoStartable()
    ensures EnqueueStart(Blank(1, None), [Plain(0), Plain(1)]).Some?
  {
    var start := [Plain(0), Plain(1)];
    assert start[..1] == [Plain(0)] && start[..1][..0] == [];
    assert EnqueueStart(Blank(1, None), start[..1]).Some?;
  }

  /** One event after these two start requests. */
  lemma OneEvent(limits: Limits, s: State, ev: Event)
    requires EnqueueStart(Blank(1, None), [Plain(0), Plain(1)]) == Some(s)
    requires ev.Receive? && Enabled(limits, TWO_STARTED, ev)
    ensures var s' := After(limits, TWO_STARTED, ev);
            IsInitial(s) && OneRun([ev]) && Leads(limits, s, [ev], s') &&
            Disagreements(limits, s, [ev], s') == if Disagrees(limits, TWO_STARTED, ev) then 1 else 0
  {
    assert IsInitialWith(s, [Plain(0), Plain(1)], 1, None);
    TwoStart(s);
    hide Enabled, After, Disagrees, StartReadyTasks;
    var s' := After(limits, TWO_STARTED, ev);
    assert [ev][1..] == [];
    assert Leads(limits, s', [], s') && Disagreements(limits, s', [], s') == 0;
  }

  /** The item hook of the first request fails. */
  const HOOK_FAILS: Event :=
    var failing := Output(Some(HookFailed(Failure(7))), None, true);
    Receive(1, Answers(Ok(true), None, None, None, Ok(false), None, Some(Ok([failing]))), Some(Canceled), None)

  lemma HookFailure(limits: Limits)
    ensures Enabled(limits, TWO_STARTED, HOOK_FAILS)
    ensures var end := After(limits, TWO_STARTED, HOOK_FAILS);
            && end.stopErr == Some(Failure(7)) && end.ctxErr == Some(Canceled)
            && end.active == 0 && end.sched == TWO_STARTED.sched
  {
    var t := Outcome(limits, TWO_STARTED, HOOK_FAILS);
    var mid := Responded(Finish(Forget(Received(Struck(TWO_STARTED, Some(Canceled)), 1), 1), 1, t.request));
    assert t.outputs[..0] == [];
    assert HandleOutputs(mid, t.outputs[..0]) == mid;
    assert HandleOutputs(mid, t.outputs) == Stop(mid, Failure(7));
  }

  lemma StoppedEnd(s: State)
    requires s.stopErr.Some? && s.ctxErr.Some?
    ensures StartReadyTasks(s) == s
  {
  }

  /** The context is cancelled while the loop waits, and the result it then receives fails in the item hook:
      the run ends with the hook's error and no checkpoint, although a request is still queued. */
  lemma CheckpointLost(limits: Limits)
    ensures exists s: State, trace: seq<Event>, s': State ::
              && IsInitial(s) && Leads(limits, s, trace, s') && OneRun(trace)
              && var end := StartReadyTasks(s');
                 IsComplete(end) && end.ctxErr == Some(Canceled) && end.stopErr == Some(Failure(7)) && !Paused(end) &&
                 end.sched.queue != []
  {
    TwoStartable();
    HookFailure(limits);
    hide EnqueueStart, After, Enabled, Leads, IsInitial, StartReadyTasks, OneRun;
    var s := EnqueueStart(Blank(1, None), [Plain(0), Plain(1)]).value;
    OneEvent(limits, s, HOOK_FAILS);
    StoppedEnd(After(limits, TWO_STARTED, HOOK_FAILS));
  }

  /** The first request fails with the error that its context takes on between the two reads. */
  const FAILS_LATE: Event :=
    Receive(1, Answers(Ok(true), None, None, Some(Canceled), Ok(false), None, None), None, Some(Canceled))

  lemma LateFailure(limits: Limits)
    ensures Enabled(limits, TWO_STARTED, FAILS_LATE) && Disagrees(limits, TWO_STARTED, FAILS_LATE)
    ensures var end := After(limits, TWO_STARTED, FAILS_LATE);
            && end.stopErr == Some(Canceled) && end.ctxErr == Some(Canceled) && end.active == 0
            && end.sched == TWO_STARTED.sched && end.activeRequests == map[]
            && end.accepted == TWO_STARTED.accepted && end.finished == multiset{}
  {
    assert Outcome(limits, TWO_STARTED, FAILS_LATE).err == Some(Canceled);
  }

  /** That run pauses, and its snapshot has lost the request. */
  lemma RequestLost(limits: Limits)
    ensures exists s: State, trace: seq<Event>, s': State ::
              && IsInitial(s) && Leads(limits, s, trace, s') && Disagreements(limits, s, trace, s') == 1
              && var end := StartReadyTasks(s');
                 Paused(end) && Plain(0) in end.accepted && Plain(0) !in end.finished &&
                 Plain(0) !in end.sched.queue && end.activeRequests == map[]
  {
    TwoStartable();
    LateFailure(limits);
    hide EnqueueStart, After, Enabled, Leads, IsInitial, StartReadyTasks, Disagrees, Disagreements;
    var s := EnqueueStart(Blank(1, None), [Plain(0), Plain(1)]).value;
    OneEvent(limits, s, FAILS_LATE);
    StoppedEnd(After(limits, TWO_STARTED, FAILS_LATE));
    assert Plain(0) !in TWO_STARTED.sched.queue;
  }
}
