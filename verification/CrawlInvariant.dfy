/** The invariant of the crawl, and that every event keeps it: a ledger of accepted, queued, outstanding,
    cancelled and finished requests, and counters that agree with the tables. */
module CrawlInvariant {
  import opened Wrappers
  import opened SchedulerSpec
  import opened CrawlSpec

  /** Fingerprint filtering so far: accepted filtered requests are in `seen`, one per fingerprint. */
  ghost predicate Unique(accepted: multiset<Request>, seen: set<Key>) {
    && (forall r :: r in accepted && !r.dontFilter ==> r.key.Some? && r.key.value in seen && accepted[r] == 1)
    && (forall r, r' :: r in accepted && r' in accepted && !r.dontFilter && !r'.dontFilter && r.key == r'.key ==>
          r == r')
  }

  /** Every accepted request is queued, unfinished, finished or lost. */
  ghost predicate Ledger(sched: Sched, unfinished: seq<Request>, accepted: multiset<Request>, gone: multiset<Request>) {
    && accepted == multiset(sched.queue) + multiset(unfinished) + gone
    && Unique(accepted, sched.seen)
    && Good(sched)
  }

  ghost predicate Balanced(s: State) {
    Ledger(s.sched, InTaskOrder(s.unfinished, s.nextTaskID), s.accepted, s.finished + s.lost)
  }

  /** Every task of `a` is one of `b`. */
  ghost predicate Within(a: map<nat, Request>, b: map<nat, Request>) {
    forall id :: id in a ==> id in b && b[id] == a[id]
  }

  /** Outstanding tasks are held, held ones are unfinished, and numbers run from 1 to `last`. */
  ghost predicate Tables(unfinished: map<nat, Request>, held: map<nat, Request>, inFlight: map<nat, Request>,
                         last: nat) {
    Within(inFlight, held) && Within(held, unfinished) && forall id :: id in unfinished ==> 1 <= id <= last
  }

  function Counted(stats: Stats): nat {
    stats.requests + stats.robotsDisallowed + stats.failed
  }

  /** A stopped runtime has cancelled its context, and only a context can report cancellation. */
  ghost predicate Stopping(stopErr: Option<Error>, ctxErr: Option<Error>) {
    (stopErr.Some? ==> ctxErr.Some?) && ContextErrors(ctxErr)
  }

  /** The counters agree with the tables. */
  ghost predicate Books(s: State) {
    && s.concurrentRequests > 0
    && s.active == |s.inFlight| <= s.concurrentRequests
    && Tables(s.unfinished, s.activeRequests, s.inFlight, s.nextTaskID)
    && Stopping(s.stopErr, s.ctxErr)
    && s.nextTaskID == Counted(s.stats) + |s.unfinished|
    && (s.stopErr.None? ==> s.inFlight == s.activeRequests == s.unfinished)
  }

  ghost predicate Inv(s: State) {
    Balanced(s) && Books(s)
  }

  // ---------- the ledger ----------

  lemma EnqueueKeepsLedger(sched: Sched, unfinished: seq<Request>, accepted: multiset<Request>,
                           gone: multiset<Request>, r: Request)
    requires Ledger(sched, unfinished, accepted, gone) && Enqueue(sched, r).1 == Queued
    ensures Ledger(Enqueue(sched, r).0, unfinished, accepted + multiset{r}, gone)
  {
    InsertKeepsElements(sched.queue, r);
    hide Unique, Good;
    EnqueueKeepsUnique(accepted, sched, r);
    EnqueueKeepsGood(sched, r);
  }

  lemma EnqueueKeepsUnique(accepted: multiset<Request>, sched: Sched, r: Request)
    requires Unique(accepted, sched.seen) && Enqueue(sched, r).1 == Queued
    ensures Unique(accepted + multiset{r}, Enqueue(sched, r).0.seen)
  {
    assert !r.dontFilter ==> r !in accepted;
  }

  lemma DequeueKeepsLedger(sched: Sched, unfinished: seq<Request>, accepted: multiset<Request>, gone: multiset<Request>)
    requires Ledger(sched, unfinished, accepted, gone) && sched.queue != []
    ensures Ledger(Dequeue(sched).0, unfinished + [sched.queue[0]], accepted, gone)
  {
    hide Unique;
    assert sched.queue == [sched.queue[0]] + sched.queue[1..];
  }

  lemma FinishKeepsLedger(sched: Sched, unfinished: seq<Request>, unfinished': seq<Request>,
                          accepted: multiset<Request>, gone: multiset<Request>, r: Request)
    requires Ledger(sched, unfinished, accepted, gone) && multiset(unfinished) == multiset(unfinished') + multiset{r}
    ensures Ledger(sched, unfinished', accepted, gone + multiset{r})
  {
    hide Unique, Good;
  }

  lemma RestoreKeepsLedger(sched: Sched, unfinished: seq<Request>, accepted: multiset<Request>, gone: multiset<Request>,
                           snapshot: Snapshot, held: seq<Request>, dropped: multiset<Request>)
    requires Ledger(sched, unfinished, accepted, gone) && multiset(unfinished) == multiset(held) + dropped
    requires snapshot.requests == held + sched.queue && ToSet(snapshot.seen) == sched.seen
    ensures Ledger(Restore(snapshot), [], accepted, gone + dropped)
  {
    RestoreIsGood(snapshot);
    UniqueGrows(accepted, sched.seen, Restore(snapshot).seen);
    hide Unique, Good;
    SortIsStable(snapshot.requests, 0);
  }

  lemma UniqueGrows(accepted: multiset<Request>, seen: set<Key>, seen': set<Key>)
    requires Unique(accepted, seen) && seen <= seen'
    ensures Unique(accepted, seen')
  {
  }

  // ---------- task tables ----------

  lemma {:induction false} InTaskOrderSame(a: map<nat, Request>, b: map<nat, Request>, n: nat)
    requires forall id :: id <= n ==> (id in a <==> id in b) && (id in a ==> a[id] == b[id])
    ensures InTaskOrder(a, n) == InTaskOrder(b, n)
  {
    if n > 0 { InTaskOrderSame(a, b, n - 1); }
  }

  lemma {:induction false} InTaskOrderRemove(tasks: map<nat, Request>, id: nat, n: nat)
    requires id in tasks && 1 <= id <= n
    ensures multiset(InTaskOrder(tasks, n)) == multiset(InTaskOrder(tasks - {id}, n)) + multiset{tasks[id]}
  {
    var rest := tasks - {id};
    if n == id {
      InTaskOrderSame(tasks, rest, n - 1);
    } else {
      InTaskOrderRemove(tasks, id, n - 1);
      assert n in rest <==> n in tasks;
    }
  }

  lemma InTaskOrderAdd(tasks: map<nat, Request>, n: nat, r: Request)
    ensures InTaskOrder(tasks[n + 1 := r], n + 1) == InTaskOrder(tasks, n) + [r]
  {
    InTaskOrderSame(tasks, tasks[n + 1 := r], n);
  }

  lemma {:induction false} InTaskOrderEmpty(n: nat)
    ensures InTaskOrder(map[], n) == []
  {
    if n > 0 { InTaskOrderEmpty(n - 1); }
  }

  lemma {:induction false} InTaskOrderMembers(tasks: map<nat, Request>, n: nat, r: Request)
    ensures r in InTaskOrder(tasks, n) <==> exists id :: 1 <= id <= n && id in tasks && tasks[id] == r
  {
    if n > 0 { InTaskOrderMembers(tasks, n - 1, r); }
  }

  lemma Removed(tasks: map<nat, Request>, id: nat)
    requires id in tasks
    ensures |tasks - {id}| == |tasks| - 1
  {
    assert (tasks - {id}).Keys == tasks.Keys - {id};
    assert |(tasks - {id}).Keys| == |tasks.Keys| - 1;
  }

  lemma Added(tasks: map<nat, Request>, id: nat, r: Request)
    requires id !in tasks
    ensures |tasks[id := r]| == |tasks| + 1
  {
    assert tasks[id := r].Keys == tasks.Keys + {id};
    assert |tasks[id := r].Keys| == |tasks.Keys| + 1;
  }

  ghost function At(tasks: map<nat, Request>, id: nat): multiset<Request> {
    if id in tasks then multiset{tasks[id]} else multiset{}
  }

  lemma InTaskOrderLast(tasks: map<nat, Request>, n: nat)
    requires n > 0
    ensures multiset(InTaskOrder(tasks, n)) == multiset(InTaskOrder(tasks, n - 1)) + At(tasks, n)
  {
  }

  lemma AtPart(part: map<nat, Request>, all: map<nat, Request>, id: nat)
    requires Within(part, all)
    ensures At(all, id) == At(part, id) + At(all - part.Keys, id)
  {
    var rest := all - part.Keys;
    assert (id in rest <==> id in all && id !in part) && (id in rest ==> rest[id] == all[id]);
  }

  /** What a table lists is what a part of it lists and what the rest lists. */
  lemma {:induction false} InTaskOrderParts(part: map<nat, Request>, all: map<nat, Request>, n: nat)
    requires Within(part, all)
    ensures multiset(InTaskOrder(all, n)) == multiset(InTaskOrder(part, n)) + multiset(InTaskOrder(all - part.Keys, n))
  {
    if n > 0 {
      InTaskOrderParts(part, all, n - 1);
      AtPart(part, all, n);
      InTaskOrderLast(all, n);
      InTaskOrderLast(part, n);
      InTaskOrderLast(all - part.Keys, n);
      Regroup(multiset(InTaskOrder(part, n - 1)), At(part, n),
        multiset(InTaskOrder(all - part.Keys, n - 1)), At(all - part.Keys, n));
      hide *;
    }
  }

  lemma Regroup(a: multiset<Request>, x: multiset<Request>, b: multiset<Request>, y: multiset<Request>)
    ensures (a + b) + (x + y) == (a + x) + (b + y)
  {
  }

  lemma InTaskOrderLength(tasks: map<nat, Request>, n: nat)
    requires n > 0
    ensures |InTaskOrder(tasks, n)| == |InTaskOrder(tasks, n - 1)| + if n in tasks then 1 else 0
  {
  }

  lemma InTaskOrderBelow(tasks: map<nat, Request>, n: nat)
    requires n > 0 && forall id :: id in tasks ==> 1 <= id <= n
    ensures InTaskOrder(tasks - {n}, n - 1) == InTaskOrder(tasks, n - 1)
    ensures forall id :: id in tasks - {n} ==> 1 <= id <= n - 1
  {
    InTaskOrderSame(tasks, tasks - {n}, n - 1);
  }

  /** A table whose numbers run from 1 to `n` lists as many requests as it has. */
  lemma {:induction false} InTaskOrderSize(tasks: map<nat, Request>, n: nat)
    requires forall id :: id in tasks ==> 1 <= id <= n
    ensures |InTaskOrder(tasks, n)| == |tasks|
    decreases n
  {
    if n == 0 {
      assert tasks.Keys == {};
      InTaskOrderEmpty(0);
    } else {
      InTaskOrderLength(tasks, n);
      hide InTaskOrder;
      if n in tasks {
        InTaskOrderBelow(tasks, n);
        InTaskOrderSize(tasks - {n}, n - 1);
        Removed(tasks, n);
      } else {
        InTaskOrderSize(tasks, n - 1);
      }
    }
  }

  lemma PartSizes(part: map<nat, Request>, all: map<nat, Request>)
    requires Within(part, all)
    ensures |all| == |part| + |all - part.Keys|
  {
    assert all.Keys == part.Keys + (all - part.Keys).Keys;
    assert |all.Keys| == |part.Keys| + |(all - part.Keys).Keys|;
  }

  lemma WithinSize(a: map<nat, Request>, b: map<nat, Request>)
    requires Within(a, b)
    ensures |a| <= |b| && (|a| == |b| <==> a == b)
  {
    assert b.Keys == a.Keys + (b.Keys - a.Keys);
    assert |b.Keys| == |a.Keys| + |b.Keys - a.Keys|;
    if |a| == |b| { assert b.Keys - a.Keys == {}; }
  }

  // ---------- enqueuing ----------

  /** `s'` is `s` after some enqueues and perhaps a stop. */
  ghost predicate Extends(s: State, s': State) {
    && s'.concurrentRequests == s.concurrentRequests && s'.active == s.active
    && s'.activeRequests == s.activeRequests && s'.inFlight == s.inFlight && s'.nextTaskID == s.nextTaskID
    && s'.finished == s.finished && s'.unfinished == s.unfinished && s'.lost == s.lost
    && Counted(s'.stats) == Counted(s.stats)
    && (s'.stopErr.None? ==> s.stopErr.None?)
    && (Stopping(s.stopErr, s.ctxErr) ==> Stopping(s'.stopErr, s'.ctxErr))
    && (Balanced(s) ==> Balanced(s'))
  }

  lemma ExtendsKeepsInv(s: State, s': State)
    requires Inv(s) && Extends(s, s')
    ensures Inv(s')
  {
    hide Balanced, Tables, Stopping, Counted;
  }

  lemma StopExtends(s: State, e: Error)
    ensures Extends(s, Stop(s, e))
  {
    hide Ledger;
  }

  lemma StruckExtends(s: State, e: Option<Error>)
    requires ContextErrors(e)
    ensures Extends(s, Struck(s, e))
  {
    hide Ledger;
  }

  lemma OfferExtends(s: State, r: Request, isRetry: bool)
    ensures Extends(s, Offer(s, r, isRetry))
  {
    hide Ledger, Stopping;
    StopExtends(s, BAD_URL);
    if Balanced(s) && Enqueue(s.sched, r).1 == Queued {
      EnqueueKeepsLedger(s.sched, InTaskOrder(s.unfinished, s.nextTaskID), s.accepted, s.finished + s.lost, r);
    }
  }

  lemma ExtendsTransitive(a: State, b: State, c: State)
    requires Extends(a, b) && Extends(b, c)
    ensures Extends(a, c)
  {
    hide Balanced, Stopping;
  }

  lemma HandleRequestOutputExtends(s: State, o: Output)
    ensures Extends(s, HandleRequestOutput(s, o))
  {
    hide Ledger, Offer;
    if o.request.Some? { OfferExtends(s, o.request.value, false); }
  }

  lemma StatsExtends(s: State, stats: Stats)
    requires Counted(stats) == Counted(s.stats)
    ensures Extends(s, s.(stats := stats))
  {
    hide Ledger;
  }

  lemma HandleOutputExtends(s: State, o: Output)
    ensures Extends(s, HandleOutput(s, o))
  {
    hide Extends, HandleRequestOutput;
    var kept := s.stats.(items := s.stats.items + 1);
    StatsExtends(s, kept);
    StatsExtends(s, s.stats.(itemsDropped := s.stats.itemsDropped + 1));
    HandleRequestOutputExtends(s, o);
    HandleRequestOutputExtends(s.(stats := kept), o);
    ExtendsTransitive(s, s.(stats := kept), HandleRequestOutput(s.(stats := kept), o));
    if o.item.Some? && o.item.value.HookFailed? { StopExtends(s, o.item.value.error); }
  }

  lemma {:induction false} HandleOutputsExtends(s: State, outputs: seq<Output>)
    ensures Extends(s, HandleOutputs(s, outputs))
  {
    if outputs != [] {
      var init := outputs[..|outputs| - 1];
      HandleOutputsExtends(s, init);
      HandleOutputExtends(HandleOutputs(s, init), outputs[|outputs| - 1]);
      ExtendsTransitive(s, HandleOutputs(s, init), HandleOutputs(s, outputs));
    }
  }

  // ---------- every step keeps the invariant ----------

  lemma StartTaskKeepsInv(s: State)
    requires Inv(s) && s.sched.queue != [] && s.stopErr.None? && s.active < s.concurrentRequests
    ensures Inv(StartTask(s))
  {
    hide Ledger, Counted;
    var r := s.sched.queue[0];
    InTaskOrderAdd(s.unfinished, s.nextTaskID, r);
    DequeueKeepsLedger(s.sched, InTaskOrder(s.unfinished, s.nextTaskID), s.accepted, s.finished + s.lost);
    Added(s.unfinished, s.nextTaskID + 1, r);
    Added(s.inFlight, s.nextTaskID + 1, r);
  }

  lemma {:induction false} StartTasksKeepsInv(s: State)
    requires Inv(s)
    ensures Inv(StartTasks(s))
    decreases |s.sched.queue|
  {
    hide Inv;
    if s.stopErr.None? && s.active < s.concurrentRequests && s.sched.queue != [] {
      StartTaskKeepsInv(s);
      StartTasksKeepsInv(StartTask(s));
    }
  }

  lemma StartReadyKeepsInv(s: State)
    requires Inv(s)
    ensures Inv(StartReadyTasks(s))
  {
    hide Inv, Extends;
    if s.ctxErr.Some? {
      StopExtends(s, s.ctxErr.value);
      ExtendsKeepsInv(s, Stop(s, s.ctxErr.value));
    } else {
      StartTasksKeepsInv(s);
    }
  }

  /** What holds once the result of request `r` has been received and its task is not outstanding any more. */
  ghost predicate Settling(s: State, id: nat, r: Request) {
    && Balanced(s)
    && s.concurrentRequests > 0
    && s.active == |s.inFlight| < s.concurrentRequests
    && Tables(s.unfinished, s.activeRequests, s.inFlight, s.nextTaskID)
    && id in s.activeRequests && s.activeRequests[id] == r && id !in s.inFlight
    && Stopping(s.stopErr, s.ctxErr)
    && s.nextTaskID == Counted(s.stats) + |s.unfinished|
    && (s.stopErr.None? ==> s.inFlight == s.activeRequests - {id} && s.activeRequests == s.unfinished)
  }

  lemma ReceiveSettles(s: State, id: nat)
    requires Inv(s) && id in s.inFlight
    ensures Settling(Received(s, id), id, s.inFlight[id])
  {
    hide Ledger, Counted;
    Removed(s.inFlight, id);
  }

  lemma FinishBalanced(s: State, id: nat, r: Request, s': State)
    requires Balanced(s) && id in s.unfinished && s.unfinished[id] == r && 1 <= id <= s.nextTaskID
    requires s'.sched == s.sched && s'.accepted == s.accepted && s'.lost == s.lost && s'.nextTaskID == s.nextTaskID
    requires s'.unfinished == s.unfinished - {id} && s'.finished == s.finished + multiset{r}
    ensures Balanced(s')
  {
    hide Ledger;
    InTaskOrderRemove(s.unfinished, id, s.nextTaskID);
    FinishKeepsLedger(s.sched, InTaskOrder(s.unfinished, s.nextTaskID),
      InTaskOrder(s.unfinished - {id}, s.nextTaskID), s.accepted, s.finished + s.lost, r);
    assert s.finished + s.lost + multiset{r} == s'.finished + s'.lost;
  }

  lemma FinishTables(unfinished: map<nat, Request>, held: map<nat, Request>, inFlight: map<nat, Request>, last: nat,
                     id: nat)
    requires Tables(unfinished, held, inFlight, last) && id in held && id !in inFlight
    ensures Tables(unfinished - {id}, held - {id}, inFlight, last)
    ensures id in unfinished && unfinished[id] == held[id] && 1 <= id <= last
  {
  }

  /** Deleting a received task from activeRequests and counting its request as finished. */
  lemma FinishSettled(s: State, id: nat, r: Request, stats: Stats)
    requires Settling(s, id, r) && Counted(stats) == Counted(s.stats) + 1
    ensures Inv(Finish(Forget(s, id), id, r).(stats := stats))
  {
    hide Balanced, Counted, Tables;
    FinishTables(s.unfinished, s.activeRequests, s.inFlight, s.nextTaskID, id);
    Removed(s.unfinished, id);
    FinishBalanced(s, id, r, Finish(Forget(s, id), id, r).(stats := stats));
  }

  /** Leaving it unfinished, whether or not it was deleted, and stopping. */
  lemma CancelSettled(s: State, id: nat, r: Request, s': State)
    requires Settling(s, id, r) && s'.ctxErr.Some? && ContextErrors(s'.ctxErr)
    requires s' == s.(ctxErr := s'.ctxErr) || s' == Forget(s, id).(ctxErr := s'.ctxErr)
    ensures Inv(Stop(s', s'.ctxErr.value))
  {
    hide Balanced, Tables, Counted;
    SameBalanced(s, Stop(s', s'.ctxErr.value));
    CancelTables(s.unfinished, s.activeRequests, s.inFlight, s.nextTaskID, id);
  }

  lemma SameBalanced(s: State, s': State)
    requires Balanced(s) && s'.sched == s.sched && s'.accepted == s.accepted && s'.nextTaskID == s.nextTaskID
    requires s'.unfinished == s.unfinished && s'.finished == s.finished && s'.lost == s.lost
    ensures Balanced(s')
  {
    hide Ledger;
  }

  lemma CancelTables(unfinished: map<nat, Request>, held: map<nat, Request>, inFlight: map<nat, Request>, last: nat,
                     id: nat)
    requires Tables(unfinished, held, inFlight, last) && id !in inFlight
    ensures Tables(unfinished, held - {id}, inFlight, last)
  {
  }

  lemma HandleFailureKeepsInv(s: State, t: TaskResult, e: Error, late: Option<Error>)
    requires Settling(s, t.taskID, t.request) && ContextErrors(late)
    ensures Inv(HandleFailure(s, t.taskID, t.request, e, late))
  {
    hide Settling, Inv, Counted, Stop, IsCurrent;
    var read := if IsCurrent(e, s.ctxErr) then s else Forget(s, t.taskID);
    var s' := Struck(read, late);
    SettlingContext(s, t.taskID, t.request);
    if IsCurrent(e, s'.ctxErr) {
      CurrentIsSome(e, s'.ctxErr);
      CancelSettled(s, t.taskID, t.request, s');
    } else {
      CurrentStays(e, s, late);
      StillSettling(s, t.taskID, t.request, s'.ctxErr);
      FailedCounts(s.stats);
      var struck := s.(ctxErr := s'.ctxErr);
      FinishSettled(struck, t.taskID, t.request, s.stats.(failed := s.stats.failed + 1));
    }
  }

  lemma SettlingContext(s: State, id: nat, r: Request)
    requires Settling(s, id, r)
    ensures ContextErrors(s.ctxErr)
  {
    hide Balanced, Tables;
  }

  lemma CurrentIsSome(e: Error, ctxErr: Option<Error>)
    requires IsCurrent(e, ctxErr)
    ensures ctxErr.Some?
  {
  }

  /** What is the context's error at the first read is so at the second. */
  lemma CurrentStays(e: Error, s: State, late: Option<Error>)
    ensures IsCurrent(e, s.ctxErr) ==> IsCurrent(e, Struck(s, late).ctxErr)
  {
  }

  lemma StillSettling(s: State, id: nat, r: Request, ctxErr: Option<Error>)
    requires Settling(s, id, r) && ContextErrors(ctxErr) && (s.ctxErr.Some? ==> ctxErr.Some?)
    ensures Settling(s.(ctxErr := ctxErr), id, r)
  {
    hide Ledger, Tables, Counted;
  }

  lemma FailedCounts(stats: Stats)
    ensures Counted(stats.(failed := stats.failed + 1)) == Counted(stats) + 1
    ensures Counted(stats.(requests := stats.requests + 1)) == Counted(stats) + 1
    ensures Counted(stats.(robotsDisallowed := stats.robotsDisallowed + 1)) == Counted(stats) + 1
  {
  }

  lemma HandleTaskResultKeepsInv(s: State, t: TaskResult, late: Option<Error>)
    requires Inv(s) && t.taskID in s.inFlight && t.request == s.inFlight[t.taskID] && ContextErrors(late)
    ensures Inv(HandleTaskResult(s, t, late))
  {
    hide Inv, Settling, Extends, HandleResponse, HandleFailure, Counted;
    var s1 := Received(s, t.taskID);
    ReceiveSettles(s, t.taskID);
    FailedCounts(s1.stats);
    if t.err.Some? {
      HandleFailureKeepsInv(s1, t, t.err.value, late);
    } else if t.robotsDisallowed {
      FinishSettled(s1, t.taskID, t.request, s1.stats.(robotsDisallowed := s1.stats.robotsDisallowed + 1));
    } else {
      var s2 := Finish(Forget(s1, t.taskID), t.taskID, t.request);
      FinishSettled(s1, t.taskID, t.request, s1.stats.(requests := s1.stats.requests + 1));
      HandleResponseExtends(s2, t);
      ExtendsKeepsInv(Responded(s2), HandleResponse(s2, t));
    }
  }

  lemma HandleResponseExtends(s: State, t: TaskResult)
    ensures Extends(Responded(s), HandleResponse(s, t))
  {
    hide Extends, Offer;
    var s3 := Responded(s);
    var s4 := s3.(stats := s3.stats.(blockedRequests := s3.stats.blockedRequests + 1));
    if t.blocked {
      StatsExtends(s3, s4.stats);
      if t.retry.Some? {
        OfferExtends(s4, t.retry.value, true);
        ExtendsTransitive(s3, s4, HandleResponse(s, t));
      }
    } else {
      HandleOutputsExtends(s3, t.outputs);
    }
  }

  lemma ResumeBalanced(s: State, snapshot: Snapshot, configured: int, ctx: Option<Error>)
    requires Balanced(s) && Within(s.activeRequests, s.unfinished)
    requires snapshot.requests == InTaskOrder(s.activeRequests, s.nextTaskID) + s.sched.queue
    requires ToSet(snapshot.seen) == s.sched.seen
    ensures Balanced(Resume(s, snapshot, configured, ctx))
  {
    hide Ledger, Restore, ToSet, Within;
    var forgotten := multiset(InTaskOrder(Forgotten(s), s.nextTaskID));
    InTaskOrderParts(s.activeRequests, s.unfinished, s.nextTaskID);
    RestoreKeepsLedger(s.sched, InTaskOrder(s.unfinished, s.nextTaskID), s.accepted, s.finished + s.lost,
      snapshot, InTaskOrder(s.activeRequests, s.nextTaskID), forgotten);
    assert s.finished + s.lost + forgotten == s.finished + (s.lost + forgotten);
    InTaskOrderEmpty(0);
  }

  lemma WithinTables(s: State)
    requires Books(s)
    ensures Within(s.activeRequests, s.unfinished)
  {
    hide Within;
  }

  lemma ResumeBooks(s: State, snapshot: Snapshot, configured: int, ctx: Option<Error>)
    requires ContextErrors(ctx)
    ensures Books(Resume(s, snapshot, configured, ctx))
  {
    hide Restore, InTaskOrder, Forgotten, Books;
    FreshBooks(Restore(snapshot), configured, ctx, s.accepted, s.finished,
      s.lost + multiset(InTaskOrder(Forgotten(s), s.nextTaskID)));
  }

  lemma FreshBooks(sched: Sched, configured: int, ctx: Option<Error>,
                   accepted: multiset<Request>, finished: multiset<Request>, lost: multiset<Request>)
    requires ContextErrors(ctx)
    ensures Books(Fresh(sched, configured, ctx, accepted, finished, lost))
  {
  }

  lemma ResumeKeepsInv(s: State, snapshot: Snapshot, configured: int, ctx: Option<Error>)
    requires Inv(s) && Paused(s) && IsPauseSnapshot(s, snapshot) && ContextErrors(ctx)
    ensures Inv(Resume(s, snapshot, configured, ctx))
  {
    hide Balanced, Restore, Increasing, ToSet, IsCurrent, InTaskOrder, Resume, Books;
    assert Books(s);
    WithinTables(s);
    ResumeBalanced(s, snapshot, configured, ctx);
    ResumeBooks(s, snapshot, configured, ctx);
  }

  lemma StepKeepsInv(limits: Limits, s: State, ev: Event)
    requires Inv(s) && Enabled(limits, s, ev)
    ensures Inv(After(limits, s, ev))
  {
    hide Inv, HandleTaskResult, Extends, Paused, IsPauseSnapshot, Resume, Stop, IsComplete;
    match ev
    case Cancel(e) =>
      StruckExtends(s, Some(e));
      ExtendsKeepsInv(s, Struck(s, Some(e)));
    case Receive(id, answers, waiting, late) =>
      StruckExtends(s, waiting);
      ExtendsKeepsInv(s, Struck(s, waiting));
      HandleTaskResultKeepsInv(Struck(s, waiting), Outcome(limits, s, ev), late);
    case ContextDone(waiting) =>
      var s' := Struck(s, waiting);
      StruckExtends(s, waiting);
      ExtendsKeepsInv(s, s');
      StopExtends(s', s'.ctxErr.value);
      ExtendsKeepsInv(s', Stop(s', s'.ctxErr.value));
    case Restart(snapshot, configured, ctx) => ResumeKeepsInv(s, snapshot, configured, ctx);
  }

  lemma BeforeKeepsInv(s: State, ev: Event)
    requires Inv(s)
    ensures Inv(Before(s, ev))
  {
    hide Inv;
    StartReadyKeepsInv(s);
  }

  lemma {:induction false} StartKeepsInv(s: State, start: seq<Request>)
    requires Inv(s) && EnqueueStart(s, start).Some?
    ensures Inv(EnqueueStart(s, start).value)
  {
    if start != [] {
      hide Inv, Offer, Extends;
      var init := start[..|start| - 1];
      StartKeepsInv(s, init);
      var s' := EnqueueStart(s, init).value;
      OfferExtends(s', start[|start| - 1], false);
      ExtendsKeepsInv(s', Offer(s', start[|start| - 1], false));
    }
  }

  lemma BlankInv(configured: int, ctx: Option<Error>)
    requires ContextErrors(ctx)
    ensures Inv(Blank(configured, ctx))
  {
    InTaskOrderEmpty(0);
  }

  lemma InitialInv(s: State)
    requires IsInitial(s)
    ensures Inv(s)
  {
    hide Inv, Blank, EnqueueStart;
    var start, configured, ctx :| IsInitialWith(s, start, configured, ctx);
    BlankInv(configured, ctx);
    StartKeepsInv(Blank(configured, ctx), start);
  }

  lemma {:induction false} TraceKeepsInv(limits: Limits, s: State, trace: seq<Event>, s': State)
    requires Inv(s) && Leads(limits, s, trace, s')
    ensures Inv(s')
    decreases trace
  {
    if trace != [] {
      hide Inv;
      BeforeKeepsInv(s, trace[0]);
      StepKeepsInv(limits, Before(s, trace[0]), trace[0]);
      TraceKeepsInv(limits, After(limits, Before(s, trace[0]), trace[0]), trace[1..], s');
    }
  }
}
