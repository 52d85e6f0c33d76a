/** Where followed requests go. */
module CrawlFollow {
  import opened Wrappers
  import opened SchedulerSpec
  import opened CrawlSpec

  // ---------- which requests are offered, and which of them are taken ----------

  /** The request that an output asks to follow: its item, if any, was kept, it is on site, and its URL parses. */
  function Followed(o: Output): seq<Request> {
    if (o.item.None? || o.item == Some(Kept)) && o.request.Some? && o.onsite && o.request.value.key.Some?
    then [o.request.value]
    else []
  }

  function Follows(outputs: seq<Output>): seq<Request> {
    if outputs == [] then [] else Follows(outputs[..|outputs| - 1]) + Followed(outputs[|outputs| - 1])
  }

  /** Request `i` is new: it is not filtered, or its fingerprint has neither been seen nor been offered before it. */
  predicate IsNew(seen: set<Key>, offered: seq<Request>, i: nat)
    requires i < |offered|
  {
    var r := offered[i];
    r.key.Some? &&
    (r.dontFilter ||
     (r.key.value !in seen && forall j :: 0 <= j < i && offered[j].key == r.key ==> offered[j].dontFilter))
  }

  /** The new ones, in order. */
  function Taken(seen: set<Key>, offered: seq<Request>): seq<Request> {
    if offered == [] then []
    else
      Taken(seen, offered[..|offered| - 1]) +
      if IsNew(seen, offered, |offered| - 1) then [offered[|offered| - 1]] else []
  }

  /** `q'` is `q` with the requests of `taken` behind their equals. */
  ghost predicate Behind(q: seq<Request>, taken: seq<Request>, q': seq<Request>) {
    && multiset(q') == multiset(q) + multiset(taken)
    && (PriorityOrdered(q) ==>
          PriorityOrdered(q') && forall p :: AtPriority(q', p) == AtPriority(q, p) + AtPriority(taken, p))
  }

  /** `s'` is `s` after the requests were offered: the new ones are queued behind their equals and accepted, the
      fingerprints of the filtered ones are seen. */
  ghost predicate Offers(s: State, offered: seq<Request>, s': State) {
    && s'.sched.seen == s.sched.seen + FilterKeys(offered)
    && Behind(s.sched.queue, Taken(s.sched.seen, offered), s'.sched.queue)
    && s'.accepted == s.accepted + multiset(Taken(s.sched.seen, offered))
  }

  lemma FilterKeysSnoc(offered: seq<Request>, r: Request)
    ensures FilterKeys(offered + [r]) ==
            FilterKeys(offered) + if !r.dontFilter && r.key.Some? then {r.key.value} else {}
  {
    assert forall x :: x in offered + [r] <==> x in offered || x == r;
  }

  /** One more request, against everything offered before. */
  lemma NewAgainstSeen(seen: set<Key>, offered: seq<Request>, r: Request)
    ensures IsNew(seen, offered + [r], |offered|) <==>
            r.key.Some? && (r.dontFilter || r.key.value !in seen + FilterKeys(offered))
  {
    var all := offered + [r];
    if r.key.Some? && !r.dontFilter {
      if r.key.value in FilterKeys(offered) {
        var x :| x in offered && !x.dontFilter && x.key == r.key;
        var j :| 0 <= j < |offered| && offered[j] == x;
        assert all[j] == x;
      } else {
        forall j | 0 <= j < |offered| && all[j].key == r.key ensures all[j].dontFilter {
          assert all[j] == offered[j] && offered[j] in offered;
        }
      }
    }
  }

  lemma TakenSnoc(seen: set<Key>, offered: seq<Request>, r: Request)
    ensures Taken(seen, offered + [r]) ==
            Taken(seen, offered) +
            if r.key.Some? && (r.dontFilter || r.key.value !in seen + FilterKeys(offered)) then [r] else []
  {
    NewAgainstSeen(seen, offered, r);
    assert (offered + [r])[..|offered|] == offered;
  }

  lemma OfferedNone(s: State)
    ensures Offers(s, [], s)
  {
    assert Taken(s.sched.seen, []) == [];
    forall p ensures AtPriority(s.sched.queue, p) == AtPriority(s.sched.queue, p) + AtPriority([], p) {}
  }

  lemma FilterKeysOne(r: Request)
    ensures FilterKeys([r]) == if !r.dontFilter && r.key.Some? then {r.key.value} else {}
  {
    FilterKeysSnoc([], r);
    assert [] + [r] == [r] && FilterKeys([]) == {};
  }

  /** What Enqueue does to the queue and the seen set. */
  lemma EnqueueDecides(s: Sched, r: Request)
    ensures var (s', outcome) := Enqueue(s, r);
            && (outcome == BadFingerprint <==> r.key.None?)
            && (outcome == Queued <==> r.key.Some? && (r.dontFilter || r.key.value !in s.seen))
            && s'.seen == s.seen + FilterKeys([r])
            && Behind(s.queue, if outcome == Queued then [r] else [], s'.queue)
  {
    FilterKeysOne(r);
    InsertBehind(s.queue, r);
    NoneBehind(s.queue);
    hide Behind, Insert, FilterKeys;
  }

  lemma NoneBehind(q: seq<Request>)
    ensures Behind(q, [], q)
  {
    forall p ensures AtPriority(q, p) == AtPriority(q, p) + AtPriority([], p) {}
  }

  lemma InsertBehind(q: seq<Request>, r: Request)
    ensures Behind(q, [r], Insert(q, r))
  {
    InsertKeepsElements(q, r);
    if PriorityOrdered(q) {
      forall p ensures AtPriority(Insert(q, r), p) == AtPriority(q, p) + AtPriority([r], p) {
        InsertIsStable(q, r, p);
        assert AtPriority([r][1..], p) == [];
      }
      InsertIsStable(q, r, 0);
    }
  }

  lemma BehindBoth(a: seq<Request>, x: seq<Request>, b: seq<Request>, r: Request, c: seq<Request>)
    requires Behind(a, x, b) && Behind(b, [r], c)
    ensures Behind(a, x + [r], c)
  {
    hide PriorityOrdered;
    if PriorityOrdered(a) {
      forall p ensures AtPriority(c, p) == AtPriority(a, p) + AtPriority(x + [r], p) {
        AtPriorityAppend(x, r, p);
        AtPriorityAppend([], r, p);
        assert [] + [r] == [r] && AtPriority([], p) == [];
      }
    }
  }

  lemma OfferIs(s: State, r: Request, isRetry: bool)
    requires r.key.Some?
    ensures var s', (sched, outcome) := Offer(s, r, isRetry), Enqueue(s.sched, r);
            && s'.sched == sched && outcome != BadFingerprint
            && s'.accepted == s.accepted + multiset(if outcome == Queued then [r] else [])
  {
    hide Insert;
  }

  /** Offering one more request. */
  lemma OfferMore(s: State, offered: seq<Request>, s': State, r: Request, isRetry: bool)
    requires Offers(s, offered, s') && r.key.Some?
    ensures Offers(s, offered + [r], Offer(s', r, isRetry))
  {
    TakenSnoc(s.sched.seen, offered, r);
    FilterKeysSnoc(offered, r);
    FilterKeysOne(r);
    EnqueueDecides(s'.sched, r);
    OfferIs(s', r, isRetry);
    hide Enqueue, FilterKeys, Behind, Offer, Taken, Offers;
    if Enqueue(s'.sched, r).1 == Queued {
      OffersQueued(s, offered, s', r, Offer(s', r, isRetry));
    } else {
      OffersRefused(s, offered, s', r, Offer(s', r, isRetry));
    }
  }

  lemma OffersQueued(s: State, offered: seq<Request>, s': State, r: Request, end: State)
    requires Offers(s, offered, s') && Behind(s'.sched.queue, [r], end.sched.queue)
    requires end.sched.seen == s'.sched.seen + FilterKeys([r]) && end.accepted == s'.accepted + multiset([r])
    requires Taken(s.sched.seen, offered + [r]) == Taken(s.sched.seen, offered) + [r]
    ensures Offers(s, offered + [r], end)
  {
    FilterKeysSnoc(offered, r);
    FilterKeysOne(r);
    hide FilterKeys, Behind, Taken;
    BehindBoth(s.sched.queue, Taken(s.sched.seen, offered), s'.sched.queue, r, end.sched.queue);
  }

  lemma OffersRefused(s: State, offered: seq<Request>, s': State, r: Request, end: State)
    requires Offers(s, offered, s') && Behind(s'.sched.queue, [], end.sched.queue)
    requires end.sched.seen == s'.sched.seen + FilterKeys([r]) && end.accepted == s'.accepted + multiset([])
    requires Taken(s.sched.seen, offered + [r]) == Taken(s.sched.seen, offered) + []
    ensures Offers(s, offered + [r], end)
  {
    FilterKeysSnoc(offered, r);
    FilterKeysOne(r);
    hide FilterKeys, Behind, Taken;
    assert Taken(s.sched.seen, offered) + [] == Taken(s.sched.seen, offered);
    BehindSame(s.sched.queue, Taken(s.sched.seen, offered), s'.sched.queue, end.sched.queue);
  }

  lemma BehindSame(a: seq<Request>, x: seq<Request>, b: seq<Request>, c: seq<Request>)
    requires Behind(a, x, b) && Behind(b, [], c)
    ensures Behind(a, x, c)
  {
    hide PriorityOrdered;
    forall p ensures AtPriority([], p) == [] {}
  }

  // ---------- the outputs of a response ----------

  datatype What = KeptItem | DroppedItem | OffSite

  predicate IsA(o: Output, what: What) {
    match what
    case KeptItem => o.item == Some(Kept)
    case DroppedItem => o.item == Some(Dropped)
    case OffSite => (o.item.None? || o.item == Some(Kept)) && o.request.Some? && !o.onsite
  }

  function Times(outputs: seq<Output>, what: What): nat {
    if outputs == [] then 0
    else Times(outputs[..|outputs| - 1], what) + if IsA(outputs[|outputs| - 1], what) then 1 else 0
  }

  /** The counters after these outputs: each request offered is either taken or skipped. */
  ghost predicate Counts(s: State, outputs: seq<Output>, s': State) {
    s'.stats == s.stats.(
      items := s.stats.items + Times(outputs, KeptItem),
      itemsDropped := s.stats.itemsDropped + Times(outputs, DroppedItem),
      offsite := s.stats.offsite + Times(outputs, OffSite),
      skipped := s.stats.skipped + Skipped(s.sched.seen, Follows(outputs)))
  }

  function Skipped(seen: set<Key>, offered: seq<Request>): nat {
    TakenFits(seen, offered);
    |offered| - |Taken(seen, offered)|
  }

  lemma {:induction false} TakenFits(seen: set<Key>, offered: seq<Request>)
    ensures |Taken(seen, offered)| <= |offered|
  {
    if offered != [] { TakenFits(seen, offered[..|offered| - 1]); }
  }

  /** No request, or one that goes nowhere. */
  lemma NothingRequested(s: State, o: Output)
    requires o.request.Some? && o.onsite ==> o.request.value.key.None?
    ensures var s' := HandleRequestOutput(s, o);
            && s'.sched == s.sched && s'.accepted == s.accepted
            && s'.stats == s.stats.(offsite := s.stats.offsite + if o.request.Some? && !o.onsite then 1 else 0)
  {
    if o.request.Some? { BadOffer(s, o.request.value); }
    hide Offer;
  }

  /** An output that offers nothing leaves the scheduler alone. */
  lemma NothingOffered(s: State, o: Output)
    requires Followed(o) == []
    ensures var s' := HandleOutput(s, o);
            && s'.sched == s.sched && s'.accepted == s.accepted
            && s'.stats == s.stats.(
                 items := s.stats.items + if IsA(o, KeptItem) then 1 else 0,
                 itemsDropped := s.stats.itemsDropped + if IsA(o, DroppedItem) then 1 else 0,
                 offsite := s.stats.offsite + if IsA(o, OffSite) then 1 else 0)
  {
    hide HandleRequestOutput;
    if o.item.None? || o.item == Some(Kept) {
      NothingRequested(s, o);
      NothingRequested(s.(stats := s.stats.(items := s.stats.items + 1)), o);
    }
  }

  lemma BadOffer(s: State, r: Request)
    ensures r.key.None? ==> Offer(s, r, false) == Stop(s, BAD_URL)
  {
  }

  /** An output that offers a request counts its item and offers it. */
  lemma OneOffered(s: State, o: Output)
    requires Followed(o) != []
    ensures !IsA(o, DroppedItem) && !IsA(o, OffSite)
    ensures var counted := s.(stats := s.stats.(items := s.stats.items + if IsA(o, KeptItem) then 1 else 0));
            HandleOutput(s, o) == Offer(counted, Followed(o)[0], false)
  {
    hide Offer;
  }

  lemma OfferStats(s: State, r: Request)
    requires r.key.Some?
    ensures Offer(s, r, false).stats ==
            s.stats.(skipped := s.stats.skipped + if Enqueue(s.sched, r).1 == Queued then 0 else 1)
  {
    hide Insert;
  }

  lemma SnocOutputs(outputs: seq<Output>, o: Output, what: What)
    ensures Follows(outputs + [o]) == Follows(outputs) + Followed(o)
    ensures Times(outputs + [o], what) == Times(outputs, what) + if IsA(o, what) then 1 else 0
  {
    assert (outputs + [o])[..|outputs|] == outputs;
  }

  lemma SnocCounts(outputs: seq<Output>, o: Output)
    ensures Times(outputs + [o], KeptItem) == Times(outputs, KeptItem) + if IsA(o, KeptItem) then 1 else 0
    ensures Times(outputs + [o], DroppedItem) == Times(outputs, DroppedItem) + if IsA(o, DroppedItem) then 1 else 0
    ensures Times(outputs + [o], OffSite) == Times(outputs, OffSite) + if IsA(o, OffSite) then 1 else 0
    ensures Follows(outputs + [o]) == Follows(outputs) + Followed(o)
  {
    SnocOutputs(outputs, o, KeptItem);
    SnocOutputs(outputs, o, DroppedItem);
    SnocOutputs(outputs, o, OffSite);
  }

  lemma SkippedSnoc(s: State, offered: seq<Request>, s': State, r: Request)
    requires Offers(s, offered, s') && r.key.Some?
    ensures Skipped(s.sched.seen, offered + [r]) ==
            Skipped(s.sched.seen, offered) + if Enqueue(s'.sched, r).1 == Queued then 0 else 1
  {
    TakenSnoc(s.sched.seen, offered, r);
    EnqueueDecides(s'.sched, r);
    hide Enqueue, Behind, FilterKeys, Taken;
  }

  lemma HandleMore(s: State, outputs: seq<Output>, s': State, o: Output)
    requires Offers(s, Follows(outputs), s') && Counts(s, outputs, s')
    ensures Offers(s, Follows(outputs + [o]), HandleOutput(s', o)) && Counts(s, outputs + [o], HandleOutput(s', o))
  {
    SnocCounts(outputs, o);
    hide Behind, FilterKeys, Taken, Times, Follows, HandleOutput, IsA, Offer, Skipped;
    if Followed(o) == [] {
      NothingOffered(s', o);
      assert Follows(outputs) + [] == Follows(outputs);
    } else {
      OneOffered(s', o);
      FollowedKey(o);
      var counted := s'.(stats := s'.stats.(items := s'.stats.items + if IsA(o, KeptItem) then 1 else 0));
      OfferMore(s, Follows(outputs), counted, Followed(o)[0], false);
      OfferStats(counted, Followed(o)[0]);
      SkippedSnoc(s, Follows(outputs), counted, Followed(o)[0]);
      hide Enqueue, Offers;
    }
  }

  lemma FollowedKey(o: Output)
    requires Followed(o) != []
    ensures Followed(o) == [Followed(o)[0]] && Followed(o)[0].key.Some?
  {
  }

  lemma NothingCounts(s: State)
    ensures Offers(s, Follows([]), s) && Counts(s, [], s)
  {
    OfferedNone(s);
    assert Follows([]) == [] && Taken(s.sched.seen, []) == [];
    hide Offers;
  }

  /** Handling outputs offers every followed request, in order, and counts the rest. */
  lemma {:induction false} OutputsOffer(s: State, outputs: seq<Output>)
    ensures Offers(s, Follows(outputs), HandleOutputs(s, outputs)) && Counts(s, outputs, HandleOutputs(s, outputs))
  {
    hide Offers, Counts, HandleOutput, Follows;
    if outputs == [] {
      NothingCounts(s);
    } else {
      var init, last := outputs[..|outputs| - 1], outputs[|outputs| - 1];
      OutputsOffer(s, init);
      HandleMore(s, init, HandleOutputs(s, init), last);
      assert outputs == init + [last];
    }
  }

  // ---------- results ----------

  /** What a result offers the scheduler. */
  function Offered(t: TaskResult): seq<Request> {
    if t.err.Some? || t.robotsDisallowed then []
    else if t.blocked then if t.retry.Some? && t.retry.value.key.Some? then [t.retry.value] else []
    else Follows(t.outputs)
  }

  /** Offers looks at the scheduler and the accepted requests only. */
  lemma OffersSame(a: State, a': State, offered: seq<Request>, b: State, b': State)
    requires Offers(a, offered, a')
    requires b.sched == a.sched && b.accepted == a.accepted && b'.sched == a'.sched && b'.accepted == a'.accepted
    ensures Offers(b, offered, b')
  {
    hide Behind, FilterKeys, Taken;
  }

  lemma RetryOffers(s: State, r: Request)
    ensures Offers(s, if r.key.Some? then [r] else [], Offer(s, r, true))
  {
    OfferedNone(s);
    if r.key.Some? {
      OfferMore(s, [], s, r, true);
      assert [] + [r] == [r];
    } else {
      BadRetry(s, r);
      hide Offer;
    }
  }

  lemma TaskErrorIs(s: State, id: nat, r: Request, e: Error)
    ensures var s' := HandleTaskError(s, id, r, e);
            && s'.sched == s.sched && s'.accepted == s.accepted
            && s'.stats == if IsCurrent(e, s.ctxErr) then s.stats else s.stats.(failed := s.stats.failed + 1)
  {
    hide IsCurrent;
    if IsCurrent(e, s.ctxErr) { CurrentHasError(e, s.ctxErr); }
  }

  lemma CurrentHasError(e: Error, ctxErr: Option<Error>)
    requires IsCurrent(e, ctxErr)
    ensures ctxErr.Some?
  {
  }

  lemma StruckIs(s: State, id: nat, late: Option<Error>)
    ensures var s' := Struck(Forget(s, id), late);
            s'.sched == s.sched && s'.accepted == s.accepted && s'.stats == s.stats &&
            s'.ctxErr == Struck(s, late).ctxErr
    ensures var s' := Struck(s, late); s'.sched == s.sched && s'.accepted == s.accepted && s'.stats == s.stats
  {
  }

  lemma FailureIs(s: State, id: nat, r: Request, e: Error, late: Option<Error>)
    ensures var s' := HandleFailure(s, id, r, e, late);
            && s'.sched == s.sched && s'.accepted == s.accepted
            && s'.stats == if IsCurrent(e, Struck(s, late).ctxErr) then s.stats
                           else s.stats.(failed := s.stats.failed + 1)
  {
    StruckIs(s, id, late);
    TaskErrorIs(Struck(Forget(s, id), late), id, r, e);
    TaskErrorIs(Struck(s, late), id, r, e);
    hide IsCurrent, HandleTaskError, Forget, Struck;
  }

  lemma ReceivedIs(s: State, id: nat, late: Option<Error>)
    ensures var s' := Received(s, id);
            && s'.sched == s.sched && s'.accepted == s.accepted && s'.stats == s.stats
            && Struck(s', late).ctxErr == Struck(s, late).ctxErr
  {
  }

  lemma FailureOffers(s: State, t: TaskResult, late: Option<Error>)
    requires t.err.Some? || t.robotsDisallowed
    ensures HandleTaskResult(s, t, late).sched == s.sched && HandleTaskResult(s, t, late).accepted == s.accepted
  {
    hide HandleFailure;
    if t.err.Some? {
      ReceivedIs(s, t.taskID, late);
      FailureIs(Received(s, t.taskID), t.taskID, t.request, t.err.value, late);
    }
  }

  lemma BlockedOffers(s: State, t: TaskResult)
    requires t.blocked
    ensures Offers(s, if t.retry.Some? && t.retry.value.key.Some? then [t.retry.value] else [], HandleResponse(s, t))
  {
    hide Offer, Offers;
    var counted := Responded(s);
    counted := counted.(stats := counted.stats.(blockedRequests := counted.stats.blockedRequests + 1));
    if t.retry.Some? {
      RetryOffers(counted, t.retry.value);
      OffersSame(counted, Offer(counted, t.retry.value, true),
        if t.retry.value.key.Some? then [t.retry.value] else [], s, HandleResponse(s, t));
    } else {
      OfferedNone(s);
      OffersSame(s, s, [], s, HandleResponse(s, t));
    }
  }

  lemma ResponseOffers(s: State, t: TaskResult)
    requires !t.blocked
    ensures Offers(s, Follows(t.outputs), HandleResponse(s, t))
  {
    hide Offers, HandleOutputs;
    OutputsOffer(Responded(s), t.outputs);
    OffersSame(Responded(s), HandleOutputs(Responded(s), t.outputs), Follows(t.outputs), s, HandleResponse(s, t));
  }

  /** Receiving a result offers its follow requests or its retry, and nothing else. */
  lemma ResultOffers(s: State, t: TaskResult, late: Option<Error>)
    ensures Offers(s, Offered(t), HandleTaskResult(s, t, late))
  {
    hide Offers, HandleResponse, Follows;
    var settled := Finish(Forget(Received(s, t.taskID), t.taskID), t.taskID, t.request);
    if t.err.Some? || t.robotsDisallowed {
      OfferedNone(s);
      FailureOffers(s, t, late);
      OffersSame(s, s, [], s, HandleTaskResult(s, t, late));
    } else {
      if t.blocked { BlockedOffers(settled, t); } else { ResponseOffers(settled, t); }
      OffersSame(settled, HandleResponse(settled, t), Offered(t), s, HandleTaskResult(s, t, late));
    }
  }

  lemma BadRetry(s: State, r: Request)
    ensures r.key.None? ==> Offer(s, r, true) == Stop(s, BAD_URL)
  {
  }

  lemma OutputsCount(s: State, settled: State, outputs: seq<Output>)
    requires settled.sched == s.sched && settled.stats == s.stats
    ensures Counts(Responded(s), outputs, HandleOutputs(Responded(settled), outputs))
  {
    OutputsOffer(Responded(settled), outputs);
    hide Times, Skipped, HandleOutputs, Follows, Offers;
  }

  /** A response that is not blocked: it is counted, and its outputs are. */
  lemma ResponseCounts(s: State, t: TaskResult, late: Option<Error>)
    requires t.err.None? && !t.robotsDisallowed && !t.blocked
    ensures Counts(Responded(s), t.outputs, HandleTaskResult(s, t, late))
  {
    hide Counts, HandleOutputs;
    OutputsCount(s, Finish(Forget(Received(s, t.taskID), t.taskID), t.taskID, t.request), t.outputs);
  }

  lemma OneTaken(s: Sched, r: Request)
    requires r.key.Some?
    ensures Taken(s.seen, [r]) == (if Enqueue(s, r).1 == Queued then [r] else [])
    ensures Skipped(s.seen, [r]) == if Enqueue(s, r).1 == Queued then 0 else 1
  {
    TakenSnoc(s.seen, [], r);
    assert [] + [r] == [r] && FilterKeys([]) == {} && s.seen + {} == s.seen;
    EnqueueDecides(s, r);
    hide Enqueue, Behind;
  }

  lemma RetryStats(s: State, r: Request)
    requires r.key.Some?
    ensures Offer(s, r, true).stats ==
            if Enqueue(s.sched, r).1 == Queued then s.stats.(blockedRetries := s.stats.blockedRetries + 1)
            else s.stats.(skipped := s.stats.skipped + 1)
  {
    hide Insert;
  }

  lemma NoRetry(seen: set<Key>)
    ensures |Taken(seen, [])| == 0 && Skipped(seen, []) == 0
  {
  }

  /** A blocked response: it is counted as such, and its retry as retried or skipped. */
  lemma BlockedCounts(s: State, t: TaskResult, late: Option<Error>)
    requires t.err.None? && !t.robotsDisallowed && t.blocked
    ensures HandleTaskResult(s, t, late).stats ==
            s.stats.(
              requests := s.stats.requests + 1,
              blockedRequests := s.stats.blockedRequests + 1,
              blockedRetries := s.stats.blockedRetries + |Taken(s.sched.seen, Offered(t))|,
              skipped := s.stats.skipped + Skipped(s.sched.seen, Offered(t)))
  {
    hide Taken, Skipped, Offer, Offered;
    var counted := Responded(Finish(Forget(Received(s, t.taskID), t.taskID), t.taskID, t.request));
    counted := counted.(stats := counted.stats.(blockedRequests := counted.stats.blockedRequests + 1));
    RetryCounts(counted, t);
  }

  lemma RetryCounts(s: State, t: TaskResult)
    requires t.err.None? && !t.robotsDisallowed && t.blocked
    ensures (if t.retry.Some? then Offer(s, t.retry.value, true) else s).stats ==
            s.stats.(
              blockedRetries := s.stats.blockedRetries + |Taken(s.sched.seen, Offered(t))|,
              skipped := s.stats.skipped + Skipped(s.sched.seen, Offered(t)))
  {
    hide Offer, Enqueue, Taken, Skipped;
    NoRetry(s.sched.seen);
    if t.retry.Some? {
      if t.retry.value.key.Some? {
        OneTaken(s.sched, t.retry.value);
        RetryStats(s, t.retry.value);
      } else {
        BadRetry(s, t.retry.value);
      }
    }
  }

  /** A refusal and a failure count themselves and nothing else. */
  lemma OtherCounts(s: State, t: TaskResult, late: Option<Error>)
    requires t.err.Some? || t.robotsDisallowed
    ensures var s' := HandleTaskResult(s, t, late);
            if t.err.None? then s'.stats == s.stats.(robotsDisallowed := s.stats.robotsDisallowed + 1)
            else if IsCurrent(t.err.value, Struck(s, late).ctxErr) then s'.stats == s.stats
            else s'.stats == s.stats.(failed := s.stats.failed + 1)
  {
    hide IsCurrent, HandleFailure;
    if t.err.Some? {
      ReceivedIs(s, t.taskID, late);
      FailureIs(Received(s, t.taskID), t.taskID, t.request, t.err.value, late);
    }
  }
}
