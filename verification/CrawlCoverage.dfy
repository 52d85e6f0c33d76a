/** What a crawl visits. */
module CrawlCoverage {
  import opened Wrappers
  import opened SchedulerSpec
  import opened CrawlSpec
  import opened CrawlInvariant
  import opened CrawlSafety
  import opened CrawlFollow

  // ---------- what a task asks for ----------

  /** The robots policy allows the request, and nothing goes wrong before there is a response. */
  predicate Responds(a: Answers) {
    a.robots == Ok(true) && a.acquire.None? && a.sleep.None? && a.fetch.None?
  }

  function Parsable(r: Request): seq<Request> {
    if r.key.Some? then [r] else []
  }

  /** The requests that a task for `r` asks for: what its callback follows, or the retry of a blocked response. */
  function Asks(limits: Limits, r: Request, a: Answers): seq<Request> {
    if !Responds(a) then []
    else if a.blocked == Ok(false) then
      if a.callback.Some? && a.callback.value.Ok? then Follows(a.callback.value.value) else []
    else if a.blocked == Ok(true) && r.retryCount < EffectiveMaxBlockedRetries(limits.maxBlockedRetries) then
      match a.retryHook
      case None => Parsable(Request(r.key, r.priority - 1, true, r.retryCount + 1, r.payload))
      case Some(Ok(retry)) => Parsable(retry)
      case Some(Err(_)) => []
    else []
  }

  /** processRequest and the handlers offer exactly that. */
  lemma OutcomeAsks(limits: Limits, s: State, ev: Event)
    requires ev.Receive? && ev.id in s.inFlight
    ensures Offered(Outcome(limits, s, ev)) == Asks(limits, s.inFlight[ev.id], ev.answers)
  {
    hide Follows;
    assert Follows([]) == [] by { NoFollows(); }
  }

  lemma NoFollows()
    ensures Follows([]) == []
  {
  }

  /** How a task ends is decided by the first answer that stops it. */
  lemma OutcomeIs(limits: Limits, s: State, ev: Event)
    requires ev.Receive? && ev.id in s.inFlight
    ensures var t, a, r := Outcome(limits, s, ev), ev.answers, s.inFlight[ev.id];
            var more := r.retryCount < EffectiveMaxBlockedRetries(limits.maxBlockedRetries);
            && t.taskID == ev.id && t.request == r
            && (t.robotsDisallowed <==> a.robots == Ok(false))
            && (t.blocked <==>
                  Responds(a) && a.blocked == Ok(true) && !(more && a.retryHook.Some? && a.retryHook.value.Err?))
            && (t.err == None <==>
                  a.robots == Ok(false) ||
                  (Responds(a) && a.blocked == Ok(true) && !(more && a.retryHook.Some? && a.retryHook.value.Err?)) ||
                  (Responds(a) && a.blocked == Ok(false) && !(a.callback.Some? && a.callback.value.Err?)))
  {
  }

  /** Receiving a result queues what its task asks for: every filtered request not seen before, once for each
      fingerprint, and every unfiltered one. */
  lemma ReceiveOffers(limits: Limits, s: State, ev: Event)
    requires Enabled(limits, s, ev) && ev.Receive?
    ensures Offers(s, Asks(limits, s.inFlight[ev.id], ev.answers), After(limits, s, ev))
  {
    hide Offers, HandleTaskResult, Asks;
    var struck := Struck(s, ev.waiting);
    OutcomeAsks(limits, s, ev);
    ResultOffers(struck, Outcome(limits, s, ev), ev.late);
    StruckSame(s, ev.waiting);
    OffersSame(struck, After(limits, s, ev), Asks(limits, s.inFlight[ev.id], ev.answers), s, After(limits, s, ev));
  }

  lemma StruckSame(s: State, e: Option<Error>)
    ensures Struck(s, e).sched == s.sched && Struck(s, e).accepted == s.accepted
  {
  }

  /** A request that a task asks for is seen, or one more copy of it is queued and accepted. */
  lemma AskedIsQueued(limits: Limits, s: State, ev: Event, r: Request)
    requires Enabled(limits, s, ev) && ev.Receive? && r in Asks(limits, s.inFlight[ev.id], ev.answers)
    ensures var s' := After(limits, s, ev);
            && r.key.Some?
            && (!r.dontFilter ==> r.key.value in s'.sched.seen)
            && (r.dontFilter ==>
                  multiset(s'.sched.queue)[r] > multiset(s.sched.queue)[r] && s'.accepted[r] > s.accepted[r])
  {
    ReceiveOffers(limits, s, ev);
    var offered := Asks(limits, s.inFlight[ev.id], ev.answers);
    AsksParse(limits, s.inFlight[ev.id], ev.answers, r);
    hide After, Enabled, Asks, Behind;
    if r.dontFilter {
      UnfilteredIsTaken(s.sched.seen, offered, r);
      BehindHas(s.sched.queue, Taken(s.sched.seen, offered), After(limits, s, ev).sched.queue);
    }
  }

  lemma BehindHas(q: seq<Request>, taken: seq<Request>, q': seq<Request>)
    requires Behind(q, taken, q')
    ensures multiset(q') == multiset(q) + multiset(taken)
  {
  }

  lemma {:induction false} FollowsParse(outputs: seq<Output>, r: Request)
    requires r in Follows(outputs)
    ensures r.key.Some?
  {
    if r in Follows(outputs[..|outputs| - 1]) { FollowsParse(outputs[..|outputs| - 1], r); }
  }

  lemma AsksParse(limits: Limits, asker: Request, a: Answers, r: Request)
    requires r in Asks(limits, asker, a)
    ensures r.key.Some?
  {
    if a.blocked == Ok(false) { FollowsParse(a.callback.value.value, r); }
    hide Follows;
  }

  lemma {:induction false} UnfilteredIsTaken(seen: set<Key>, offered: seq<Request>, r: Request)
    requires r in offered && r.dontFilter && r.key.Some?
    ensures r in Taken(seen, offered)
  {
    var init, last := offered[..|offered| - 1], offered[|offered| - 1];
    assert offered == init + [last];
    if r in init {
      UnfilteredIsTaken(seen, init, r);
    } else {
      assert IsNew(seen, offered, |offered| - 1);
    }
  }

  /** A filtered request with a new fingerprint is taken, itself or an earlier one of the fingerprint. */
  lemma {:induction false} NewKeyIsTaken(seen: set<Key>, offered: seq<Request>, k: Key)
    requires k in FilterKeys(offered) && k !in seen
    ensures exists r :: r in Taken(seen, offered) && !r.dontFilter && r.key == Some(k)
  {
    var init, last := offered[..|offered| - 1], offered[|offered| - 1];
    assert offered == init + [last];
    FilterKeysSnoc(init, last);
    if k in FilterKeys(init) {
      NewKeyIsTaken(seen, init, k);
      var r :| r in Taken(seen, init) && !r.dontFilter && r.key == Some(k);
      assert r in Taken(seen, offered);
    } else {
      TakenSnoc(seen, init, last);
      assert last in Taken(seen, offered);
    }
  }

  // ---------- the seen set and the accepted requests ----------

  /** Every fingerprint seen belongs to an accepted filtered request. */
  ghost predicate SeenAccepted(s: State) {
    forall k :: k in s.sched.seen ==> HasFiltered(s.accepted, k)
  }

  ghost predicate HasFiltered(requests: multiset<Request>, k: Key) {
    exists r :: r in requests && !r.dontFilter && r.key == Some(k)
  }

  lemma OffersKeepAccepted(s: State, offered: seq<Request>, s': State)
    requires SeenAccepted(s) && Offers(s, offered, s')
    ensures SeenAccepted(s')
  {
    hide Behind, FilterKeys, Taken;
    forall k | k in s'.sched.seen ensures HasFiltered(s'.accepted, k) {
      if k in s.sched.seen {
        var r :| r in s.accepted && !r.dontFilter && r.key == Some(k);
        assert r in s'.accepted;
      } else {
        NewKeyIsTaken(s.sched.seen, offered, k);
        var r :| r in Taken(s.sched.seen, offered) && !r.dontFilter && r.key == Some(k);
        assert r in s'.accepted;
      }
    }
  }

  lemma {:induction false} StartTasksKeepSeen(s: State)
    ensures StartTasks(s).sched.seen == s.sched.seen && StartTasks(s).accepted == s.accepted
    decreases |s.sched.queue|
  {
    if s.stopErr.None? && s.active < s.concurrentRequests && s.sched.queue != [] { StartTasksKeepSeen(StartTask(s)); }
  }

  lemma BeforeKeepsSeen(s: State, ev: Event)
    ensures Before(s, ev).sched.seen == s.sched.seen && (SeenAccepted(s) ==> SeenAccepted(Before(s, ev)))
  {
    hide HasFiltered;
    StartTasksKeepSeen(s);
  }

  /** The fingerprints of the filtered requests that an event asks for. */
  ghost function EventKeys(limits: Limits, s: State, ev: Event): set<Key>
    requires Enabled(limits, s, ev)
  {
    if ev.Receive? then FilterKeys(Asks(limits, s.inFlight[ev.id], ev.answers)) else {}
  }

  /** All of a trace. */
  ghost function AskedKeys(limits: Limits, s: State, trace: seq<Event>, s': State): set<Key>
    requires Leads(limits, s, trace, s')
    decreases trace
  {
    if trace == [] then {}
    else
      var at, ev := Before(s, trace[0]), trace[0];
      EventKeys(limits, at, ev) + AskedKeys(limits, After(limits, at, ev), trace[1..], s')
  }

  /** A restart sees what was seen before. */
  lemma RestartKeepsSeen(s: State, snapshot: Snapshot)
    requires Inv(s) && IsPauseSnapshot(s, snapshot)
    ensures Restore(snapshot).seen == s.sched.seen
  {
    hide Books, Good, SortByPriority, Increasing;
    var unfinished := InTaskOrder(s.unfinished, s.nextTaskID);
    forall r | r in snapshot.requests ensures r in s.accepted {
      if r in s.sched.queue {
        assert r in multiset(s.sched.queue);
      } else {
        assert r in InTaskOrder(s.activeRequests, s.nextTaskID);
        HeldIsAccepted(s, r);
      }
    }
    assert FilterKeys(snapshot.requests) <= s.sched.seen;
  }

  lemma HeldIsAccepted(s: State, r: Request)
    requires Inv(s) && r in InTaskOrder(s.activeRequests, s.nextTaskID)
    ensures r in s.accepted
  {
    InTaskOrderMembers(s.activeRequests, s.nextTaskID, r);
    WithinTables(s);
    InTaskOrderMembers(s.unfinished, s.nextTaskID, r);
    hide Books, Unique, Good, InTaskOrder;
    assert r in multiset(InTaskOrder(s.unfinished, s.nextTaskID));
  }

  lemma StepSees(limits: Limits, s: State, ev: Event)
    requires Inv(s) && Enabled(limits, s, ev) && SeenAccepted(s)
    ensures var s' := After(limits, s, ev);
            SeenAccepted(s') && s'.sched.seen == s.sched.seen + EventKeys(limits, s, ev)
  {
    hide Inv, HandleTaskResult, Asks, FilterKeys, Behind, IsComplete, IsPauseSnapshot, Paused, Restore, HasFiltered;
    match ev
    case Cancel(_) =>
    case Receive(_, _, _, _) =>
      hide SeenAccepted;
      ReceiveOffers(limits, s, ev);
      OffersKeepAccepted(s, Asks(limits, s.inFlight[ev.id], ev.answers), After(limits, s, ev));
    case ContextDone(_) =>
    case Restart(snapshot, _, _) => RestartKeepsSeen(s, snapshot);
  }

  lemma AskedStep(limits: Limits, s: State, trace: seq<Event>, s': State)
    requires trace != [] && Leads(limits, s, trace, s')
    ensures var at, ev := Before(s, trace[0]), trace[0];
            && Enabled(limits, at, ev) && Leads(limits, After(limits, at, ev), trace[1..], s')
            && AskedKeys(limits, s, trace, s') ==
               EventKeys(limits, at, ev) + AskedKeys(limits, After(limits, at, ev), trace[1..], s')
  {
    hide After, Before, Enabled, EventKeys;
  }

  /** What is seen is what was seen before and what the tasks asked for since. */
  lemma {:induction false} TraceSees(limits: Limits, s: State, trace: seq<Event>, s': State)
    requires Inv(s) && SeenAccepted(s) && Leads(limits, s, trace, s')
    ensures SeenAccepted(s') && s'.sched.seen == s.sched.seen + AskedKeys(limits, s, trace, s')
    decreases trace
  {
    if trace == [] {
      NothingAsked(limits, s, s');
    } else {
      AskedStep(limits, s, trace, s');
      hide Inv, SeenAccepted, EventKeys, After, Enabled, Before, Leads, AskedKeys;
      var at, ev := Before(s, trace[0]), trace[0];
      BeforeKeepsInv(s, ev);
      BeforeKeepsSeen(s, ev);
      StepKeepsInv(limits, at, ev);
      StepSees(limits, at, ev);
      TraceSees(limits, After(limits, at, ev), trace[1..], s');
      Gather(s.sched.seen, EventKeys(limits, at, ev), AskedKeys(limits, After(limits, at, ev), trace[1..], s'));
    }
  }

  lemma Gather(a: set<Key>, b: set<Key>, c: set<Key>)
    ensures (a + b) + c == a + (b + c)
  {
  }

  lemma NothingAsked(limits: Limits, s: State, s': State)
    requires Leads(limits, s, [], s')
    ensures s' == s && s.sched.seen + AskedKeys(limits, s, [], s') == s.sched.seen
  {
  }

  lemma {:induction false} StartOffers(s: State, start: seq<Request>)
    requires EnqueueStart(s, start).Some?
    ensures Offers(s, start, EnqueueStart(s, start).value)
  {
    if start == [] {
      OfferedNone(s);
    } else {
      hide Offers, Offer;
      var init, last := start[..|start| - 1], start[|start| - 1];
      StartOffers(s, init);
      OfferMore(s, init, EnqueueStart(s, init).value, last, false);
      assert start == init + [last];
    }
  }

  /** Over any chain of runs, the fingerprints seen are exactly those of the filtered start requests and of the
      filtered requests that some task asked for, and each belongs to an accepted request. */
  lemma SeenIsAsked(limits: Limits, start: seq<Request>, configured: int, ctx: Option<Error>,
                    s: State, trace: seq<Event>, s': State)
    requires IsInitialWith(s, start, configured, ctx) && Leads(limits, s, trace, s')
    ensures s'.sched.seen == FilterKeys(start) + AskedKeys(limits, s, trace, s') && SeenAccepted(s')
  {
    hide Inv, HasFiltered, FilterKeys, Behind, Taken, EnqueueStart;
    assert IsInitial(s);
    InitialInv(s);
    StartOffers(Blank(configured, ctx), start);
    OffersKeepAccepted(Blank(configured, ctx), start, s);
    TraceSees(limits, s, trace, s');
  }

  /** A crawl that ends without an error, and whose reads agreed on every result, has finished a filtered request of
      exactly those fingerprints: everything that it was asked to visit, and nothing else. */
  lemma CompleteCrawlCovers(limits: Limits, start: seq<Request>, configured: int, ctx: Option<Error>,
                            s: State, trace: seq<Event>, s': State, k: Key)
    requires IsInitialWith(s, start, configured, ctx) && Leads(limits, s, trace, s')
    requires IsComplete(StartReadyTasks(s')) && StartReadyTasks(s').stopErr.None?
    requires Disagreements(limits, s, trace, s') == 0
    ensures HasFiltered(StartReadyTasks(s').finished, k) <==>
            k in FilterKeys(start) + AskedKeys(limits, s, trace, s')
  {
    hide Inv, Leads, FilterKeys, AskedKeys, HasFiltered, SeenAccepted, IsComplete, StartReadyTasks, EnqueueStart;
    var end := StartReadyTasks(s');
    assert IsInitial(s);
    CompleteRunFinishesAll(limits, s, trace, s');
    SeenIsAsked(limits, start, configured, ctx, s, trace, s');
    InitialInv(s);
    TraceKeepsInv(limits, s, trace, s');
    StartReadyKeepsInv(s');
    ReadyKeepsSeen(s');
    AcceptedAreSeen(end, k);
  }

  lemma AcceptedAreSeen(s: State, k: Key)
    requires Inv(s) && SeenAccepted(s)
    ensures HasFiltered(s.accepted, k) <==> k in s.sched.seen
  {
    hide Books;
  }

  lemma ReadyKeepsSeen(s: State)
    ensures StartReadyTasks(s).sched.seen == s.sched.seen && (SeenAccepted(s) ==> SeenAccepted(StartReadyTasks(s)))
  {
    hide HasFiltered;
    StartTasksKeepSeen(s);
  }
}
