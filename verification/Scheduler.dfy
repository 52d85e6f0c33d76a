/** The scheduler as an object with a binary heap, refined to SchedulerSpec: the heap holds the items of a sorted list,
    so that pushing inserts behind equal priorities and popping takes the head. */
module Scheduler {
  import opened Wrappers
  import opened SchedulerSpec

  datatype Scheduled = Scheduled(request: Request, order: nat)

  /** priorityQueue.Less */
  predicate Less(a: Scheduled, b: Scheduled) {
    if a.request.priority != b.request.priority then a.request.priority > b.request.priority
    else a.order < b.order
  }

  predicate Child(p: nat, k: nat) {
    k == 2 * p + 1 || k == 2 * p + 2
  }

  /** Every element except possibly `hole` is not before its parent. */
  ghost predicate HeapExcept(q: seq<Scheduled>, hole: nat) {
    forall p: nat, k: nat :: Child(p, k) && k < |q| && k != hole ==> !Less(q[k], q[p])
  }

  ghost predicate Heap(q: seq<Scheduled>) {
    HeapExcept(q, 0)
  }

  /** Among the first `n` elements, every one not directly below `hole` is not before its parent. */
  ghost predicate HeapBelow(q: seq<Scheduled>, n: nat, hole: nat)
    requires n <= |q|
  {
    forall p: nat, k: nat :: Child(p, k) && k < n && p != hole ==> !Less(q[k], q[p])
  }

  /** The children of `hole` are not before its parent. */
  ghost predicate Bridged(q: seq<Scheduled>, n: nat, hole: nat)
    requires n <= |q|
  {
    forall p: nat, k: nat :: Child(p, hole) && Child(hole, k) && k < n ==> !Less(q[k], q[p])
  }

  ghost predicate Sorted(q: seq<Scheduled>) {
    forall i, j :: 0 <= i < j < |q| ==> Less(q[i], q[j])
  }

  function Requests(q: seq<Scheduled>): (rs: seq<Request>)
    ensures |rs| == |q|
    ensures forall i :: 0 <= i < |q| ==> rs[i] == q[i].request
  {
    seq(|q|, i requires 0 <= i < |q| => q[i].request)
  }

  function InsertItem(q: seq<Scheduled>, x: Scheduled): seq<Scheduled> {
    if q == [] || Less(x, q[0]) then [x] + q else [q[0]] + InsertItem(q[1..], x)
  }

  lemma {:induction false} InsertItemSorts(q: seq<Scheduled>, x: Scheduled)
    requires Sorted(q)
    requires forall y :: y in q ==> Less(y, x) || Less(x, y)
    ensures Sorted(InsertItem(q, x))
    ensures multiset(InsertItem(q, x)) == multiset(q) + multiset{x}
  {
    if q == [] {
    } else if Less(x, q[0]) {
    } else {
      assert q[0] in q;
      var rest := InsertItem(q[1..], x);
      InsertItemSorts(q[1..], x);
      assert q == [q[0]] + q[1..];
      forall y | y in rest ensures Less(q[0], y) {
        assert y in multiset(rest);
        assert y in q[1..] || y == x;
      }
    }
  }

  /** A request that arrives last goes behind every request of its priority or higher. */
  lemma {:induction false} InsertItemRefines(q: seq<Scheduled>, x: Scheduled)
    requires forall y :: y in q ==> y.order < x.order
    ensures Requests(InsertItem(q, x)) == Insert(Requests(q), x.request)
  {
    if q == [] {
    } else if Less(x, q[0]) {
      assert q[0] in q;
    } else {
      assert q[0] in q;
      InsertItemRefines(q[1..], x);
      assert Requests(q)[1..] == Requests(q[1..]);
    }
  }

  /** The root of a heap is before everything else in it. */
  lemma {:induction false} RootIsFirst(q: seq<Scheduled>, k: nat)
    requires Heap(q) && k < |q|
    ensures !Less(q[k], q[0])
  {
    if k != 0 {
      var p := (k - 1) / 2;
      RootIsFirst(q, p);
      assert Child(p, k);
    }
  }

  /** A heap and the sorted list of the same items agree on what comes first. */
  lemma RootIsHead(q: seq<Scheduled>, sorted: seq<Scheduled>)
    requires Heap(q) && q != [] && Sorted(sorted) && multiset(q) == multiset(sorted)
    ensures sorted != [] && q[0] == sorted[0]
  {
    assert q[0] in multiset(sorted);
    assert sorted[0] in multiset(q);
    var k :| 0 <= k < |q| && q[k] == sorted[0];
    RootIsFirst(q, k);
  }

  lemma SameHead(a: seq<Scheduled>, b: seq<Scheduled>)
    requires Sorted(a) && Sorted(b) && multiset(a) == multiset(b) && a != [] && b != []
    ensures a[0] == b[0]
  {
    assert a[0] in multiset(b);
    assert b[0] in multiset(a);
  }

  lemma {:induction false} SortedIsUnique(a: seq<Scheduled>, b: seq<Scheduled>)
    requires Sorted(a) && Sorted(b) && multiset(a) == multiset(b)
    ensures a == b
  {
    assert |multiset(a)| == |multiset(b)|;
    if a != [] {
      SameHead(a, b);
      assert a == [a[0]] + a[1..] && b == [b[0]] + b[1..];
      assert multiset(a[1..]) == multiset(a) - multiset{a[0]};
      assert multiset(b[1..]) == multiset(b) - multiset{b[0]};
      SortedIsUnique(a[1..], b[1..]);
    }
  }

  function Swap(q: seq<Scheduled>, i: nat, j: nat): (r: seq<Scheduled>)
    requires i < |q| && j < |q|
    ensures |r| == |q| && multiset(r) == multiset(q)
  {
    q[i := q[j]][j := q[i]]
  }

  /** The loop of heap.Push: swap the last item with its parent while it is before it. */
  method SiftUp(start: seq<Scheduled>) returns (q: seq<Scheduled>)
    requires start != [] && HeapExcept(start, |start| - 1)
    ensures Heap(q) && multiset(q) == multiset(start)
  {
    q := start;
    var j := |q| - 1;
    while j > 0 && Less(q[j], q[(j - 1) / 2])
      invariant 0 <= j < |q|
      invariant multiset(q) == multiset(start)
      invariant HeapExcept(q, j) && Bridged(q, |q|, j)
    {
      var p := (j - 1) / 2;
      assert Child(p, j);
      ghost var before := q;
      q := Swap(q, p, j);
      SwapUp(before, q, p, j);
      j := p;
    }
    assert j > 0 ==> Child((j - 1) / 2, j);
  }

  lemma SwapUp(before: seq<Scheduled>, q: seq<Scheduled>, p: nat, j: nat)
    requires j < |before| && Child(p, j) && q == Swap(before, p, j)
    requires HeapExcept(before, j) && Bridged(before, |before|, j)
    requires Less(before[j], before[p])
    ensures HeapExcept(q, p) && Bridged(q, |q|, p)
  {
    forall a: nat, k: nat | Child(a, k) && k < |q| && k != p ensures !Less(q[k], q[a]) {
      assert k == j <==> k == j && a == p;
      if a != p && a != j && k != j { assert q[k] == before[k] && q[a] == before[a]; }
    }
    forall a: nat, k: nat | Child(a, p) && Child(p, k) && k < |q| ensures !Less(q[k], q[a]) {
      assert !Less(before[p], before[a]);
    }
  }

  /** The child of `i` that is first. */
  function FirstChild(q: seq<Scheduled>, n: nat, i: nat): (j: nat)
    requires n <= |q| && 2 * i + 1 < n
    ensures Child(i, j) && j < n
    ensures forall k: nat :: Child(i, k) && k < n ==> !Less(q[k], q[j])
  {
    var j1 := 2 * i + 1;
    if j1 + 1 < n && Less(q[j1 + 1], q[j1]) then j1 + 1 else j1
  }

  /** The loop of heap.Pop: among the first `n` items, swap the root with its first child down
      to where neither child is before it. */
  method SiftDown(start: seq<Scheduled>, n: nat) returns (q: seq<Scheduled>)
    requires |start| == n + 1 && HeapBelow(start, n, 0)
    ensures |q| == n + 1 && q[n] == start[n] && Heap(q[..n]) && multiset(q) == multiset(start)
  {
    q := start;
    var i: nat := 0;
    while 2 * i + 1 < n && Less(q[FirstChild(q, n, i)], q[i])
      invariant |q| == n + 1 && q[n] == start[n]
      invariant multiset(q) == multiset(start)
      invariant HeapBelow(q, n, i) && Bridged(q, n, i)
      decreases n - i
    {
      var j := FirstChild(q, n, i);
      SwapDown(q, Swap(q, i, j), n, i, j);
      q := Swap(q, i, j);
      i := j;
    }
    Settled(q, n, i);
  }

  lemma Settled(q: seq<Scheduled>, n: nat, i: nat)
    requires n <= |q| && HeapBelow(q, n, i)
    requires 2 * i + 1 < n ==> !Less(q[FirstChild(q, n, i)], q[i])
    ensures Heap(q[..n])
  {
    forall p: nat, k: nat | Child(p, k) && k < n ensures !Less(q[k], q[p]) {
      if p == i { assert !Less(q[k], q[FirstChild(q, n, i)]); }
    }
  }

  lemma SwapDown(before: seq<Scheduled>, q: seq<Scheduled>, n: nat, i: nat, j: nat)
    requires n <= |before| && j < n && Child(i, j) && q == Swap(before, i, j)
    requires HeapBelow(before, n, i) && Bridged(before, n, i)
    requires Less(before[j], before[i])
    requires forall k: nat :: Child(i, k) && k < n ==> !Less(before[k], before[j])
    ensures HeapBelow(q, n, j) && Bridged(q, n, j)
  {
    forall p: nat, k: nat | Child(p, k) && k < n && p != j ensures !Less(q[k], q[p]) {
      if p == i {
        assert !Less(before[k], before[j]);
      } else if k == i {
        assert !Less(before[j], before[p]);
      } else {
        assert q[k] == before[k] && q[p] == before[p];
      }
    }
    forall p: nat, k: nat | Child(p, j) && Child(j, k) && k < n ensures !Less(q[k], q[p]) {
      assert p == i && q[k] == before[k];
    }
  }

  lemma PushedHeap(q: seq<Scheduled>, x: Scheduled)
    requires Heap(q)
    ensures HeapExcept(q + [x], |q|)
  {
  }

  lemma PoppedHeap(q: seq<Scheduled>, r: seq<Scheduled>, n: nat)
    requires Heap(q) && |q| == |r| == n + 1 && r == Swap(q, 0, n)
    ensures HeapBelow(r, n, 0)
  {
  }

  lemma DropLast(q: seq<Scheduled>, sorted: seq<Scheduled>, x: Scheduled, n: nat)
    requires |q| == n + 1 && q[n] == x && sorted != [] && sorted[0] == x
    requires multiset(q) == multiset(sorted)
    ensures multiset(q[..n]) == multiset(sorted[1..])
  {
    assert q == q[..n] + [x];
    assert sorted == [x] + sorted[1..];
    assert multiset(q[..n]) == multiset(q) - multiset{x};
    assert multiset(sorted[1..]) == multiset(sorted) - multiset{x};
  }

  class Scheduler {
    var queue: seq<Scheduled>
    var seen: set<Key>
    var counter: nat
    /** The items of `queue` in dequeue order. */
    ghost var sorted: seq<Scheduled>

    ghost predicate Valid()
      reads this
    {
      && Heap(queue)
      && Sorted(sorted)
      && multiset(queue) == multiset(sorted)
      && (forall x :: x in sorted ==> x.order <= counter)
    }

    ghost function View(): Sched
      reads this
    {
      Sched(Requests(sorted), seen)
    }

    constructor ()
      ensures Valid() && View() == EMPTY
    {
      queue, seen, counter, sorted := [], {}, 0, [];
    }

    /** heap.Push: append, then sift up. */
    method Push(x: Scheduled)
      requires Valid()
      requires counter == x.order && forall y :: y in sorted ==> y.order < x.order
      modifies this`queue, this`sorted
      ensures Valid()
      ensures View() == SchedulerSpec.Sched(Insert(old(View()).queue, x.request), seen)
    {
      InsertItemSorts(sorted, x);
      InsertItemRefines(sorted, x);
      forall y | y in InsertItem(sorted, x) ensures y.order <= counter {
        assert y in multiset(InsertItem(sorted, x));
      }
      PushedHeap(queue, x);
      queue := SiftUp(queue + [x]);
      sorted := InsertItem(sorted, x);
    }

    /** heap.Pop: swap the root with the last item, sift down, drop the last item. */
    method Pop() returns (x: Scheduled)
      requires Valid() && queue != []
      modifies this`queue, this`sorted
      ensures Valid()
      ensures old(sorted) != [] && x == old(sorted)[0] && sorted == old(sorted)[1..]
    {
      RootIsHead(queue, sorted);
      x := queue[0];
      var n := |queue| - 1;
      PoppedHeap(queue, Swap(queue, 0, n), n);
      var q := SiftDown(Swap(queue, 0, n), n);
      DropLast(q, sorted, x, n);
      queue, sorted := q[..n], sorted[1..];
    }

    method AcceptFingerprint(fp: Key, dontFilter: bool) returns (accepted: bool)
      modifies this`seen
      ensures accepted == (dontFilter || fp !in old(seen))
      ensures seen == if accepted && !dontFilter then old(seen) + {fp} else old(seen)
    {
      if dontFilter { return true; }
      if fp in seen { return false; }
      seen := seen + {fp};
      return true;
    }

    method Enqueue(r: Request) returns (outcome: EnqueueOutcome)
      requires Valid()
      modifies this
      ensures Valid()
      ensures (View(), outcome) == SchedulerSpec.Enqueue(old(View()), r)
    {
      if r.key.None? { return BadFingerprint; }
      var accepted := AcceptFingerprint(r.key.value, r.dontFilter);
      if !accepted { return Duplicate; }
      counter := counter + 1;
      Push(Scheduled(r, counter));
      return Queued;
    }

    method Dequeue() returns (r: Option<Request>)
      requires Valid()
      modifies this
      ensures Valid()
      ensures (View(), r) == SchedulerSpec.Dequeue(old(View()))
    {
      EmptyTogether();
      if |queue| == 0 { return None; }
      var item := Pop();
      assert Requests(sorted) == Requests(old(sorted))[1..];
      return Some(item.request);
    }

    lemma EmptyTogether()
      requires Valid()
      ensures |queue| == |sorted|
    {
      assert |multiset(queue)| == |multiset(sorted)|;
    }

    method Len() returns (n: nat)
      requires Valid()
      ensures n == |View().queue|
    {
      EmptyTogether();
      return |queue|;
    }

    /** Copy the heap, sort it by Less, and list the seen fingerprints in order. */
    method Snapshot() returns (snapshot: SchedulerSpec.Snapshot)
      requires Valid()
      ensures IsSnapshot(View(), snapshot)
    {
      var items: seq<Scheduled> := [];
      for i := 0 to |queue|
        invariant multiset(items) == multiset(queue[..i])
        invariant Sorted(items)
      {
        assert queue[..i + 1] == queue[..i] + [queue[i]];
        HeapItemsDistinct(i);
        SameMembers(items, queue[..i]);
        InsertItemSorts(items, queue[i]);
        items := InsertItem(items, queue[i]);
      }
      assert queue[..|queue|] == queue;
      SortedIsUnique(items, sorted);
      var keys := SortedSeenFingerprints(seen);
      return SchedulerSpec.Snapshot(Requests(items), keys);
    }

    lemma SameMembers(a: seq<Scheduled>, b: seq<Scheduled>)
      requires multiset(a) == multiset(b)
      ensures forall y :: y in a <==> y in b
    {
      forall y ensures y in a <==> y in b {
        assert y in multiset(a) <==> y in multiset(b);
      }
    }

    lemma HeapItemsDistinct(i: nat)
      requires Valid() && i < |queue|
      ensures forall y :: y in queue[..i] ==> y != queue[i] && (Less(y, queue[i]) || Less(queue[i], y))
    {
      forall y | y in queue[..i] ensures y != queue[i] && (Less(y, queue[i]) || Less(queue[i], y)) {
        assert queue == queue[..i] + [queue[i]] + queue[i + 1..];
        if y == queue[i] {
          assert multiset(queue[..i])[y] >= 1;
          assert multiset(sorted)[y] >= 2;
          SortedOnce(sorted, y);
        } else {
          assert y in multiset(sorted) && queue[i] in multiset(sorted);
          var a, b :| 0 <= a < |sorted| && 0 <= b < |sorted| && sorted[a] == y && sorted[b] == queue[i];
          assert a < b || b < a;
        }
      }
    }

    method Restore(snapshot: SchedulerSpec.Snapshot)
      modifies this
      ensures Valid()
      ensures View() == SchedulerSpec.Restore(snapshot)
    {
      queue, sorted := [], [];
      seen := RestoredSeenFingerprints(snapshot);
      counter := 0;
      for i := 0 to |snapshot.requests|
        invariant Valid() && seen == ToSet(snapshot.seen) + FilterKeys(snapshot.requests)
        invariant View().queue == SortByPriority(snapshot.requests[..i])
      {
        var init := snapshot.requests[..i + 1];
        assert init[..|init| - 1] == snapshot.requests[..i];
        counter := counter + 1;
        Push(Scheduled(snapshot.requests[i], counter));
      }
      assert snapshot.requests[..|snapshot.requests|] == snapshot.requests;
    }
  }

  /** restoredSeenFingerprints */
  method RestoredSeenFingerprints(snapshot: Snapshot) returns (seen: set<Key>)
    ensures seen == ToSet(snapshot.seen) + FilterKeys(snapshot.requests)
  {
    seen := {};
    for i := 0 to |snapshot.seen|
      invariant seen == ToSet(snapshot.seen[..i])
    {
      assert snapshot.seen[..i + 1] == snapshot.seen[..i] + [snapshot.seen[i]];
      seen := seen + {snapshot.seen[i]};
    }
    assert snapshot.seen[..|snapshot.seen|] == snapshot.seen;
    var q := snapshot.requests;
    for i := 0 to |q|
      invariant seen == ToSet(snapshot.seen) + FilterKeys(q[..i])
    {
      assert q[..i + 1] == q[..i] + [q[i]];
      if q[i].dontFilter { continue; }
      if q[i].key.None? { continue; }
      seen := seen + {q[i].key.value};
    }
    assert q[..|q|] == q;
  }

  /** sortedSeenFingerprints: gather the keys in any order, keeping the list sorted. */
  method SortedSeenFingerprints(seen: set<Key>) returns (values: seq<Key>)
    ensures Increasing(values) && ToSet(values) == seen
  {
    values := [];
    var rest := seen;
    while rest != {}
      invariant rest <= seen && ToSet(values) == seen - rest
      invariant Increasing(values)
      decreases |rest|
    {
      var k :| k in rest;
      assert k !in ToSet(values);
      var i := 0;
      while i < |values| && values[i] < k
        invariant 0 <= i <= |values|
        invariant forall j :: 0 <= j < i ==> values[j] < k
      {
        i := i + 1;
      }
      InsertKey(values, i, k);
      values := values[..i] + [k] + values[i..];
      rest := rest - {k};
    }
  }

  lemma InsertKey(values: seq<Key>, i: nat, k: Key)
    requires Increasing(values) && k !in ToSet(values) && i <= |values|
    requires forall j :: 0 <= j < i ==> values[j] < k
    requires i < |values| ==> values[i] >= k
    ensures var r := values[..i] + [k] + values[i..]; Increasing(r) && ToSet(r) == ToSet(values) + {k}
  {
    var r := values[..i] + [k] + values[i..];
    if i < |values| { assert values[i] in ToSet(values); }
    assert values == values[..i] + values[i..];
    forall x ensures x in r <==> x == k || x in values {}
  }

  lemma {:induction false} SortedOnce(q: seq<Scheduled>, x: Scheduled)
    requires Sorted(q)
    ensures multiset(q)[x] <= 1
  {
    if q != [] {
      assert q == [q[0]] + q[1..];
      SortedOnce(q[1..], x);
      if x == q[0] {
        assert forall j :: 1 <= j < |q| ==> Less(q[0], q[j]);
        assert x !in q[1..];
      }
    }
  }
}
