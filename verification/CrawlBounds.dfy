/** A run over finitely many fingerprints ends. */
module CrawlBounds {
  import opened Wrappers
  import opened SchedulerSpec
  import opened CrawlSpec
  import opened CrawlInvariant
  import opened CrawlPotential

  ghost predicate TameRun(limits: Limits, u: set<Key>, start: seq<Request>, s: State, trace: seq<Event>, s': State) {
    && (exists configured, ctx :: IsInitialWith(s, start, configured, ctx))
    && (forall r :: r in start ==> Tame(u, r))
    && (forall ev :: ev in trace ==> TameEvent(u, ev))
    && Leads(limits, s, trace, s')
  }

  /** From any loop head on, as long as callbacks emit only filtered requests with fingerprints in `u` and there
      is no retry hook: the tasks ever started, hence the fetches, are at most the potential there. */
  lemma StartsAreBounded(limits: Limits, u: set<Key>, s: State, trace: seq<Event>, s': State)
    requires Inv(s) && Leads(limits, s, trace, s') && forall ev :: ev in trace ==> TameEvent(u, ev)
    ensures StartReadyTasks(s').nextTaskID <= Potential(MaxRetries(limits), u, s)
  {
    var m := MaxRetries(limits);
    hide Inv, Potential, Leads;
    TracePotential(limits, u, s, trace, s');
    StartReadyPotential(m, u, s');
    PotentialBoundsStarts(m, u, StartReadyTasks(s'));
  }

  /** And the turns are at most the starts still possible, the tasks that are out, and one more. */
  lemma TurnsAreBounded(limits: Limits, u: set<Key>, s: State, trace: seq<Event>, s': State)
    requires Inv(s) && Leads(limits, s, trace, s') && forall ev :: ev in trace ==> TameEvent(u, ev)
    ensures Turns(trace) <= Potential(MaxRetries(limits), u, s) - s.nextTaskID + |s.inFlight| + 1
  {
    hide Inv, Potential, Leads;
    StartsAreBounded(limits, u, s, trace, s');
    TurnsArePending(limits, u, s, trace, s');
    StartOnlyAdds(s');
  }

  /** The starts that a snapshot leaves possible. */
  function SnapshotBudget(m: nat, u: set<Key>, snapshot: Snapshot): nat {
    QueueBudget(m, snapshot.requests) + (m + 1) * |u - Restore(snapshot).seen|
  }

  /** A run resumed from a snapshot: every saved request and its remaining retries, and M + 1 starts for every
      fingerprint that the snapshot has not seen. */
  lemma ResumedRunIsBounded(limits: Limits, u: set<Key>, paused: State, snapshot: Snapshot, configured: int,
                            ctx: Option<Error>, trace: seq<Event>, s': State)
    requires Inv(paused) && Paused(paused) && IsPauseSnapshot(paused, snapshot) && ContextErrors(ctx)
    requires Leads(limits, Resume(paused, snapshot, configured, ctx), trace, s')
    requires forall ev :: ev in trace ==> TameEvent(u, ev)
    ensures StartReadyTasks(s').nextTaskID <= SnapshotBudget(MaxRetries(limits), u, snapshot)
    ensures Turns(trace) <= SnapshotBudget(MaxRetries(limits), u, snapshot) + 1
  {
    var s := Resume(paused, snapshot, configured, ctx);
    ResumeKeepsInv(paused, snapshot, configured, ctx);
    ResumedPotential(MaxRetries(limits), u, paused, snapshot, configured, ctx);
    hide Inv, Potential, Leads, Paused, IsPauseSnapshot, Restore, Resume, SnapshotBudget, MaxRetries, TameEvent,
      StartReadyTasks, Turns;
    StartsAreBounded(limits, u, s, trace, s');
    TurnsAreBounded(limits, u, s, trace, s');
  }

  lemma ResumedPotential(m: nat, u: set<Key>, paused: State, snapshot: Snapshot, configured: int, ctx: Option<Error>)
    ensures Potential(m, u, Resume(paused, snapshot, configured, ctx)) == SnapshotBudget(m, u, snapshot)
    ensures Resume(paused, snapshot, configured, ctx).nextTaskID == 0 &&
            Resume(paused, snapshot, configured, ctx).inFlight == map[]
  {
    SortBudget(m, snapshot.requests);
    TaskBudgetEmpty(m, 0);
  }

  lemma {:induction false} SortBudget(m: nat, q: seq<Request>)
    ensures QueueBudget(m, SortByPriority(q)) == QueueBudget(m, q)
  {
    if q != [] {
      var init, last := q[..|q| - 1], q[|q| - 1];
      SortBudget(m, init);
      InsertBudget(m, SortByPriority(init), last);
      SnocBudget(m, init, last);
      assert q == init + [last];
    }
  }

  lemma {:induction false} SnocBudget(m: nat, q: seq<Request>, r: Request)
    ensures QueueBudget(m, q + [r]) == QueueBudget(m, q) + 1 + Budget(m, r)
  {
    if q == [] {
      assert q + [r] == [r] && [r][1..] == [];
    } else {
      assert (q + [r])[1..] == q[1..] + [r];
      SnocBudget(m, q[1..], r);
    }
  }

  /** If callbacks and starts emit only filtered requests with fingerprints in `u`, and there is no
      retry hook, a first run starts at most (M + 1) * |u| tasks, hence makes at most that many fetches. */
  lemma FetchBound(limits: Limits, u: set<Key>, start: seq<Request>, s: State, trace: seq<Event>, s': State)
    requires TameRun(limits, u, start, s, trace, s')
    ensures StartReadyTasks(s').nextTaskID <= (MaxRetries(limits) + 1) * |u|
  {
    hide Inv, Potential;
    InitialPotential(MaxRetries(limits), u, start, s);
    InitialInv(s);
    StartsAreBounded(limits, u, s, trace, s');
  }

  lemma PotentialBoundsStarts(m: nat, u: set<Key>, s: State)
    ensures s.nextTaskID <= Potential(m, u, s)
  {
  }

  lemma InitialPotential(m: nat, u: set<Key>, start: seq<Request>, s: State)
    requires exists configured, ctx :: IsInitialWith(s, start, configured, ctx)
    requires forall r :: r in start ==> Tame(u, r)
    ensures Potential(m, u, s) <= (m + 1) * |u|
  {
    var configured, ctx :| IsInitialWith(s, start, configured, ctx);
    StartPotential(m, u, Blank(configured, ctx), start);
    TaskBudgetEmpty(m, 0);
    assert u - {} == u;
  }

  /** Such a first run takes at most (M + 1) * |u| + 1 turns of the loop, whatever the environment does. */
  lemma RunTerminates(limits: Limits, u: set<Key>, start: seq<Request>, s: State, trace: seq<Event>, s': State)
    requires TameRun(limits, u, start, s, trace, s')
    ensures Turns(trace) <= (MaxRetries(limits) + 1) * |u| + 1
  {
    hide Inv, Potential;
    InitialPotential(MaxRetries(limits), u, start, s);
    InitialInv(s);
    InitialPending(s);
    TurnsAreBounded(limits, u, s, trace, s');
  }

  lemma {:induction false} StartOnlyAdds(s: State)
    ensures s.nextTaskID <= StartReadyTasks(s).nextTaskID
  {
    StartTasksOnlyAdd(s);
  }

  lemma {:induction false} StartTasksOnlyAdd(s: State)
    ensures s.nextTaskID <= StartTasks(s).nextTaskID
    decreases |s.sched.queue|
  {
    if s.stopErr.None? && s.active < s.concurrentRequests && s.sched.queue != [] { StartTasksOnlyAdd(StartTask(s)); }
  }

  lemma InitialPending(s: State)
    requires IsInitial(s)
    ensures s.nextTaskID == 0 && s.inFlight == map[]
  {
    var start, configured, ctx :| IsInitialWith(s, start, configured, ctx);
    EnqueueStartIdle(Blank(configured, ctx), start);
  }

  lemma {:induction false} EnqueueStartIdle(s: State, start: seq<Request>)
    requires EnqueueStart(s, start).Some?
    ensures var s' := EnqueueStart(s, start).value; s'.nextTaskID == s.nextTaskID && s'.inFlight == s.inFlight
  {
    if start != [] { EnqueueStartIdle(s, start[..|start| - 1]); }
  }
}
