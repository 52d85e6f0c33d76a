/** The crawl scheduler as a value, before heaps and arrival counters. */
module SchedulerSpec {
  import opened Wrappers

  /** A request fingerprint: a fixed-width hash, ordered as a number. */
  type Key = nat

  /** `key` is what Request.Fingerprint returns under the scheduler's options: None when the URL
      does not parse.  `payload` stands for every field the scheduler only copies. */
  datatype Request = Request(key: Option<Key>, priority: int, dontFilter: bool, retryCount: int, payload: int)

  datatype Snapshot = Snapshot(requests: seq<Request>, seen: seq<Key>)

  /** `queue` lists the waiting requests in the order in which Dequeue will return them. */
  datatype Sched = Sched(queue: seq<Request>, seen: set<Key>)

  datatype EnqueueOutcome = BadFingerprint | Duplicate | Queued

  const EMPTY := Sched([], {})

  function Insert(q: seq<Request>, r: Request): seq<Request> {
    if q == [] || q[0].priority < r.priority then [r] + q else [q[0]] + Insert(q[1..], r)
  }

  function Enqueue(s: Sched, r: Request): (Sched, EnqueueOutcome) {
    match r.key
    case None => (s, BadFingerprint)
    case Some(k) =>
      if r.dontFilter then (s.(queue := Insert(s.queue, r)), Queued)
      else if k in s.seen then (s, Duplicate)
      else (Sched(Insert(s.queue, r), s.seen + {k}), Queued)
  }

  function Dequeue(s: Sched): (Sched, Option<Request>) {
    if s.queue == [] then (s, None) else (s.(queue := s.queue[1..]), Some(s.queue[0]))
  }

  /** The fingerprints that Restore adds for the snapshot's own requests. */
  function FilterKeys(q: seq<Request>): (keys: set<Key>) {
    set r | r in q && !r.dontFilter && r.key.Some? :: r.key.value
  }

  function SortByPriority(q: seq<Request>): seq<Request> {
    if q == [] then [] else Insert(SortByPriority(q[..|q| - 1]), q[|q| - 1])
  }

  function ToSet(keys: seq<Key>): set<Key> {
    set k | k in keys
  }

  function Restore(snapshot: Snapshot): Sched {
    Sched(SortByPriority(snapshot.requests), ToSet(snapshot.seen) + FilterKeys(snapshot.requests))
  }

  ghost predicate Increasing(keys: seq<Key>) {
    forall i, j :: 0 <= i < j < |keys| ==> keys[i] < keys[j]
  }

  /** What Snapshot returns: the queue in dequeue order and the seen set as a sorted list. */
  ghost predicate IsSnapshot(s: Sched, snapshot: Snapshot) {
    snapshot.requests == s.queue && Increasing(snapshot.seen) && ToSet(snapshot.seen) == s.seen
  }

  // ---------- order of dequeuing ----------

  ghost predicate PriorityOrdered(q: seq<Request>) {
    forall i, j :: 0 <= i < j < |q| ==> q[i].priority >= q[j].priority
  }

  /** The requests of one priority, in order. */
  function AtPriority(q: seq<Request>, p: int): seq<Request> {
    if q == [] then [] else (if q[0].priority == p then [q[0]] else []) + AtPriority(q[1..], p)
  }

  lemma {:induction false} InsertKeepsElements(q: seq<Request>, r: Request)
    ensures multiset(Insert(q, r)) == multiset(q) + multiset{r}
    ensures |Insert(q, r)| == |q| + 1
  {
    if q == [] || q[0].priority < r.priority {
    } else {
      assert q == [q[0]] + q[1..];
      InsertKeepsElements(q[1..], r);
    }
  }

  lemma {:induction false} InsertMembers(q: seq<Request>, r: Request, x: Request)
    ensures x in Insert(q, r) <==> x == r || x in q
  {
    InsertKeepsElements(q, r);
    assert x in Insert(q, r) <==> x in multiset(Insert(q, r));
  }

  /** Insert keeps priorities descending and puts a request behind its equals: arrival order
      decides within one priority, and no other priority is disturbed. */
  lemma {:induction false} InsertIsStable(q: seq<Request>, r: Request, p: int)
    requires PriorityOrdered(q)
    ensures PriorityOrdered(Insert(q, r))
    ensures AtPriority(Insert(q, r), p) == AtPriority(q, p) + if r.priority == p then [r] else []
  {
    if q == [] {
    } else if q[0].priority < r.priority {
      assert ([r] + q)[1..] == q;
      if p >= r.priority { NoneAtPriority(q, p); }
    } else {
      InsertIsStable(q[1..], r, p);
      forall x | x in Insert(q[1..], r) ensures x.priority <= q[0].priority {
        InsertMembers(q[1..], r, x);
      }
      assert ([q[0]] + Insert(q[1..], r))[1..] == Insert(q[1..], r);
    }
  }

  lemma {:induction false} NoneAtPriority(q: seq<Request>, p: int)
    requires forall x :: x in q ==> x.priority != p
    ensures AtPriority(q, p) == []
  {
    if q != [] {
      assert q[0] in q;
      NoneAtPriority(q[1..], p);
    }
  }

  /** Restoring sorts stably: the queue holds exactly the snapshot's requests, highest priority
      first, each priority in the snapshot's own order. */
  lemma {:induction false} SortIsStable(q: seq<Request>, p: int)
    ensures multiset(SortByPriority(q)) == multiset(q)
    ensures PriorityOrdered(SortByPriority(q))
    ensures AtPriority(SortByPriority(q), p) == AtPriority(q, p)
  {
    if q == [] {
    } else {
      hide PriorityOrdered, AtPriority, Insert;
      var init, last := q[..|q| - 1], q[|q| - 1];
      SortIsStable(init, p);
      InsertKeepsElements(SortByPriority(init), last);
      InsertIsStable(SortByPriority(init), last, p);
      assert q == init + [last];
      AtPriorityAppend(init, last, p);
    }
  }

  lemma {:induction false} AtPriorityAppend(q: seq<Request>, r: Request, p: int)
    ensures AtPriority(q + [r], p) == AtPriority(q, p) + if r.priority == p then [r] else []
  {
    if q == [] {
      assert (q + [r])[1..] == [];
    } else {
      AtPriorityAppend(q[1..], r, p);
      assert (q + [r])[1..] == q[1..] + [r];
    }
  }

  lemma {:induction false} InsertAtEnd(q: seq<Request>, r: Request)
    requires forall x :: x in q ==> x.priority >= r.priority
    ensures Insert(q, r) == q + [r]
  {
    if q != [] {
      assert q[0] in q;
      InsertAtEnd(q[1..], r);
    }
  }

  lemma {:induction false} SortOfOrdered(q: seq<Request>)
    requires PriorityOrdered(q)
    ensures SortByPriority(q) == q
  {
    if q != [] {
      var init := q[..|q| - 1];
      SortOfOrdered(init);
      InsertAtEnd(init, q[|q| - 1]);
      assert q == init + [q[|q| - 1]];
    }
  }

  // ---------- the invariant of a scheduler, and snapshot then restore ----------

  /** Every filtered request of `q` has its fingerprint in `seen`. */
  ghost predicate KeysSeen(q: seq<Request>, seen: set<Key>) {
    forall i :: 0 <= i < |q| && !q[i].dontFilter && q[i].key.Some? ==> q[i].key.value in seen
  }

  ghost predicate Good(s: Sched) {
    PriorityOrdered(s.queue) && KeysSeen(s.queue, s.seen)
  }

  datatype Op = OpEnqueue(r: Request) | OpDequeue | OpLen | OpCheckpoint

  datatype Answer = Enqueued(outcome: EnqueueOutcome) | Dequeued(r: Option<Request>) | Len(n: nat) | Saved

  /** One client call.  OpCheckpoint saves a snapshot and restores from it at once. */
  ghost function Call(s: Sched, op: Op): (Sched, Answer) {
    match op
    case OpEnqueue(r) => (Enqueue(s, r).0, Enqueued(Enqueue(s, r).1))
    case OpDequeue => (Dequeue(s).0, Dequeued(Dequeue(s).1))
    case OpLen => (s, Len(|s.queue|))
    case OpCheckpoint => (Restore(TheSnapshot(s)), Saved)
  }

  ghost function Answers(s: Sched, ops: seq<Op>): (answers: seq<Answer>)
    ensures |answers| == |ops|
    decreases ops
  {
    if ops == [] then [] else [Call(s, ops[0]).1] + Answers(Call(s, ops[0]).0, ops[1..])
  }

  ghost function TheSnapshot(s: Sched): (snapshot: Snapshot)
    ensures IsSnapshot(s, snapshot)
  {
    var keys := SortedKeys(s.seen);
    Snapshot(s.queue, keys)
  }

  ghost function SortedKeys(keys: set<Key>): (sorted: seq<Key>)
    ensures Increasing(sorted) && ToSet(sorted) == keys
    decreases |keys|
  {
    if keys == {} then []
    else
      MaxExists(keys);
      var top :| IsMax(keys, top);
      var rest := SortedKeys(keys - {top});
      AppendTop(rest, top, keys);
      rest + [top]
  }

  ghost predicate IsMax(keys: set<Key>, top: Key) {
    top in keys && forall k :: k in keys ==> k <= top
  }

  lemma AppendTop(sorted: seq<Key>, top: Key, keys: set<Key>)
    requires Increasing(sorted) && ToSet(sorted) == keys - {top} && IsMax(keys, top)
    ensures Increasing(sorted + [top]) && ToSet(sorted + [top]) == keys
  {
    forall i | 0 <= i < |sorted| ensures sorted[i] < top {
      assert sorted[i] in ToSet(sorted);
    }
    forall x ensures x in ToSet(sorted + [top]) <==> x in keys {
      assert x in sorted + [top] <==> x in ToSet(sorted) || x == top;
    }
  }

  lemma {:induction false} MaxExists(keys: set<Key>)
    requires keys != {}
    ensures exists top :: IsMax(keys, top)
    decreases |keys|
  {
    var x :| x in keys;
    var rest := keys - {x};
    assert keys == rest + {x};
    if rest == {} {
      assert IsMax(keys, x);
    } else {
      MaxExists(rest);
      var m :| IsMax(rest, m);
      var top := if x > m then x else m;
      forall k | k in rest + {x} ensures k <= top {}
      assert IsMax(keys, top);
    }
  }

  lemma EnqueueKeepsGood(s: Sched, r: Request)
    requires Good(s)
    ensures Good(Enqueue(s, r).0)
  {
    InsertIsStable(s.queue, r, 0);
    if r.key.Some? { InsertKeysSeen(s.queue, r, s.seen + if r.dontFilter then {} else {r.key.value}); }
  }

  lemma InsertKeysSeen(q: seq<Request>, r: Request, seen: set<Key>)
    requires KeysSeen(q, seen) && KeysSeen([r], seen)
    ensures KeysSeen(Insert(q, r), seen)
  {
    assert [r][0] == r;
    forall x | x in Insert(q, r) ensures !x.dontFilter && x.key.Some? ==> x.key.value in seen {
      InsertMembers(q, r, x);
    }
  }

  lemma RestoreIsGood(snapshot: Snapshot)
    ensures Good(Restore(snapshot))
  {
    SortIsStable(snapshot.requests, 0);
    forall x | x in SortByPriority(snapshot.requests) ensures x in snapshot.requests {
      assert x in multiset(SortByPriority(snapshot.requests));
    }
  }

  lemma CallKeepsGood(s: Sched, op: Op)
    requires Good(s)
    ensures Good(Call(s, op).0)
  {
    match op
    case OpEnqueue(r) => EnqueueKeepsGood(s, r);
    case OpDequeue =>
    case OpLen =>
    case OpCheckpoint => SnapshotRestore(s, TheSnapshot(s));
  }

  /** Restoring a scheduler from its own snapshot gives the scheduler back. */
  lemma SnapshotRestore(s: Sched, snapshot: Snapshot)
    requires Good(s) && IsSnapshot(s, snapshot)
    ensures Restore(snapshot) == s
  {
    SortOfOrdered(s.queue);
    assert FilterKeys(s.queue) <= s.seen;
  }

  lemma CheckpointCall(s: Sched)
    requires Good(s)
    ensures Call(s, OpCheckpoint) == (s, Saved)
  {
    SnapshotRestore(s, TheSnapshot(s));
  }

  /** Whatever a client does before and after, a checkpoint in between changes no later answer. */
  lemma {:induction false} CheckpointIsInvisible(s: Sched, before: seq<Op>, after: seq<Op>)
    requires Good(s)
    ensures Answers(s, before + [OpCheckpoint] + after) ==
            Answers(s, before) + [Saved] + Answers(s, before + after)[|before|..]
    decreases before
  {
    hide Good, Call;
    if before == [] {
      assert Call(s, OpCheckpoint) == (s, Saved) by { CheckpointCall(s); }
      assert ([OpCheckpoint] + after)[1..] == after;
      assert before + [OpCheckpoint] + after == [OpCheckpoint] + after;
      assert before + after == after;
    } else {
      CallKeepsGood(s, before[0]);
      CheckpointIsInvisible(Call(s, before[0]).0, before[1..], after);
      assert (before + [OpCheckpoint] + after)[1..] == before[1..] + [OpCheckpoint] + after;
      assert (before + after)[1..] == before[1..] + after;
    }
  }

  /** Dequeue returns a request of the highest waiting priority, and the first of those to have
      been queued. */
  lemma DequeueReturnsFirst(s: Sched)
    requires Good(s) && s.queue != []
    ensures var r := Dequeue(s).1.value;
            && (forall x :: x in s.queue ==> x.priority <= r.priority)
            && AtPriority(s.queue, r.priority) == [r] + AtPriority(Dequeue(s).0.queue, r.priority)
            && multiset(s.queue) == multiset{r} + multiset(Dequeue(s).0.queue)
  {
    assert s.queue == [s.queue[0]] + s.queue[1..];
  }
}
