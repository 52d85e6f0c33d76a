/** Every atomic step of the concurrent fetcher keeps each slot in the hands of one party and lowers the number
    of steps left. */
module ConcurrentFetchSteps {
  import opened ConcurrentFetch

  // ---------- what a step leaves alone ----------

  /** From `w` to `w'` at most worker `id` moved, and neither before nor after is it on index `j`;
      slot `j` was not touched. */
  ghost predicate Untouched(w: World, w': World, id: nat, j: nat) {
    && |w'.slots| == |w.slots| && |w'.workers| == |w.workers| && j < |w.slots|
    && w'.slots[j] == w.slots[j] && (w.ctxDone ==> w'.ctxDone)
    && (j in w'.replies <==> j in w.replies) && (j in w.replies ==> w'.replies[j] == w.replies[j])
    && (forall x :: 0 <= x < |w.workers| && x != id ==> w'.workers[x] == w.workers[x])
    && (id < |w.workers| ==> !IsOn(w.workers[id], j) && !IsOn(w'.workers[id], j))
  }

  lemma OtherSlot(w: World, w': World, id: nat, j: nat)
    requires Untouched(w, w', id, j) && SlotFits(w, j)
    requires j < Sent(w) <==> j < Sent(w')
    requires j < Marked(w) <==> j < Marked(w')
    ensures SlotFits(w', j)
  {
    if j < Sent(w) {
      if x: nat :| x < |w.workers| && IsOn(w.workers[x], j) && InHand(w, j, x) {
        assert x != id && w'.workers[x] == w.workers[x];
        assert InHand(w', j, x);
      } else {
      }
    }
  }

  /** The worker on index `k` holds it as the slot says. */
  lemma OnHolds(w: World, id: nat, k: nat)
    requires Inv(w) && id < |w.workers| && IsOn(w.workers[id], k)
    ensures k < Sent(w) && k < |w.slots| && InHand(w, k, id)
  {
    assert SlotFits(w, k);
  }

  /** Worker `id`, on index `k` before the step, is on `k` still or idle; nothing else changed. */
  ghost predicate OwnStep(w: World, w': World, id: nat, k: nat) {
    && id < |w.workers| && k < |w.slots| && IsOn(w.workers[id], k)
    && w'.requests == w.requests && w'.dispatcher == w.dispatcher && w'.ctxDone == w.ctxDone
    && |w'.slots| == |w.slots| && |w'.workers| == |w.workers|
    && w'.slots[k].request == w.slots[k].request
    && (forall j :: 0 <= j < |w.slots| && j != k ==> w'.slots[j] == w.slots[j])
    && (forall x :: 0 <= x < |w.workers| && x != id ==> w'.workers[x] == w.workers[x])
    && (forall j :: j != k ==>
       (j in w'.replies <==> j in w.replies) && (j in w.replies ==> w'.replies[j] == w.replies[j]))
    && (w'.workers[id].Idle? || IsOn(w'.workers[id], k))
  }

  lemma OwnStepKeepsInv(w: World, w': World, id: nat, k: nat)
    requires Inv(w) && OwnStep(w, w', id, k)
    requires IsOn(w'.workers[id], k) ==> InHand(w', k, id)
    requires w'.workers[id].Idle? ==> Settled(w', k)
    ensures Inv(w')
  {
    OnHolds(w, id, k);
    forall j: nat | j < |w'.slots| ensures SlotFits(w', j) {
      if j != k {
        assert Untouched(w, w', id, j);
        OtherSlot(w, w', id, j);
      } else if w'.workers[id].Idle? {
        assert forall x: nat :: x < |w'.workers| ==> !IsOn(w'.workers[x], k);
      }
    }
  }

  // ---------- each action ----------

  lemma CheckKeepsInv(w: World, id: nat)
    requires Inv(w) && Enabled(w, Check(id))
    ensures Inv(Next(w, Check(id)))
  {
    var k := w.workers[id].k;
    OnHolds(w, id, k);
    OwnStepKeepsInv(w, Next(w, Check(id)), id, k);
  }

  lemma ReplyKeepsInv(w: World, id: nat, r: Fetched)
    requires Inv(w) && Enabled(w, Reply(id, r))
    ensures Inv(Next(w, Reply(id, r)))
  {
    var k := w.workers[id].k;
    OnHolds(w, id, k);
    OwnStepKeepsInv(w, Next(w, Reply(id, r)), id, k);
  }

  lemma StoreResponseKeepsInv(w: World, id: nat)
    requires Inv(w) && Enabled(w, StoreResponse(id))
    ensures Inv(Next(w, StoreResponse(id)))
  {
    var k := w.workers[id].k;
    OnHolds(w, id, k);
    OwnStepKeepsInv(w, Next(w, StoreResponse(id)), id, k);
  }

  lemma StoreErrorKeepsInv(w: World, id: nat)
    requires Inv(w) && Enabled(w, StoreError(id))
    ensures Inv(Next(w, StoreError(id)))
  {
    var k := w.workers[id].k;
    OnHolds(w, id, k);
    OwnStepKeepsInv(w, Next(w, StoreError(id)), id, k);
  }

  lemma HandKeepsInv(w: World, id: nat)
    requires Inv(w) && Enabled(w, Hand(id))
    ensures Inv(Next(w, Hand(id)))
  {
    var w' := Next(w, Hand(id));
    var k := w.dispatcher.i;
    assert forall x: nat :: x < |w.workers| ==> !IsOn(w.workers[x], k);
    assert SlotFits(w, k);
    assert InHand(w', k, id);
    forall j: nat | j < |w'.slots| ensures SlotFits(w', j) {
      if j != k {
        assert Untouched(w, w', id, j);
        OtherSlot(w, w', id, j);
      }
    }
    forall x: nat, j: nat | x < |w'.workers| && IsOn(w'.workers[x], j) ensures j < Sent(w') && (x == id <==> j == k) {
      if x != id { assert IsOn(w.workers[x], j); }
    }
    assert !exists x :: 0 <= x < |w.workers| && w.workers[x].Exited?;
    assert forall x :: 0 <= x < |w'.workers| && x != id ==> w'.workers[x] == w.workers[x];
  }

  lemma MarkKeepsInv(w: World)
    requires Inv(w) && Enabled(w, MarkCancelled)
    ensures Inv(Next(w, MarkCancelled))
  {
    var w' := Next(w, MarkCancelled);
    var k := w.dispatcher.j;
    assert SlotFits(w, k);
    forall j: nat | j < |w'.slots| ensures SlotFits(w', j) {
      if j != k {
        assert Untouched(w, w', |w.workers|, j);
        OtherSlot(w, w', |w.workers|, j);
      }
    }
  }

  /** The dispatcher or the context moved, and no slot changed its class. */
  lemma SameSlotsKeepsInv(w: World, w': World)
    requires Inv(w) && w' == w.(dispatcher := w'.dispatcher, ctxDone := w'.ctxDone)
    requires Sent(w') == Sent(w) && Marked(w') == Marked(w) && (w.ctxDone ==> w'.ctxDone)
    requires w'.dispatcher.Cancelling? ==> w'.ctxDone
    requires w'.dispatcher.Returned? ==> forall x :: 0 <= x < |w.workers| ==> w.workers[x].Exited?
    requires w.dispatcher.Draining? || w.dispatcher.Returned? ==> w'.dispatcher.Draining? || w'.dispatcher.Returned?
    ensures Inv(w')
  {
    forall j: nat | j < |w'.slots| ensures SlotFits(w', j) {
      assert Untouched(w, w', |w.workers|, j);
      OtherSlot(w, w', |w.workers|, j);
    }
  }

  lemma ExitKeepsInv(w: World, id: nat)
    requires Inv(w) && Enabled(w, Exit(id))
    ensures Inv(Next(w, Exit(id)))
  {
    var w' := Next(w, Exit(id));
    forall j: nat | j < |w'.slots| ensures SlotFits(w', j) {
      assert Untouched(w, w', id, j);
      OtherSlot(w, w', id, j);
    }
    forall x: nat, j: nat | x < |w'.workers| && IsOn(w'.workers[x], j) ensures IsOn(w.workers[x], j) {
    }
  }

  lemma StepKeepsInv(w: World, a: Action)
    requires Inv(w) && Enabled(w, a)
    ensures Inv(Next(w, a))
  {
    match a
    case Cancel => SameSlotsKeepsInv(w, Next(w, a));
    case Hand(id) => HandKeepsInv(w, id);
    case NoticeDone => SameSlotsKeepsInv(w, Next(w, a));
    case MarkCancelled => MarkKeepsInv(w);
    case CloseJobs => SameSlotsKeepsInv(w, Next(w, a));
    case Check(id) => CheckKeepsInv(w, id);
    case Reply(id, r) => ReplyKeepsInv(w, id, r);
    case StoreResponse(id) => StoreResponseKeepsInv(w, id);
    case StoreError(id) => StoreErrorKeepsInv(w, id);
    case Exit(id) => ExitKeepsInv(w, id);
    case Return => SameSlotsKeepsInv(w, Next(w, a));
  }

  lemma {:induction false} RunKeepsInv(w: World, steps: seq<Action>, w': World)
    requires Inv(w) && Leads(w, steps, w')
    ensures Inv(w') && w'.requests == w.requests && |w'.workers| == |w.workers|
    decreases steps
  {
    if steps != [] {
      hide Inv;
      StepKeepsInv(w, steps[0]);
      RunKeepsInv(Next(w, steps[0]), steps[1..], w');
    }
  }

  // ---------- a measure that every step lowers ----------

  function WorkerLeft(pc: WorkerPc): nat {
    match pc
    case Exited => 0
    case Idle => 1
    case Stored(_, _) => 2
    case Got(_, _) => 3
    case Fetching(_) => 4
    case Has(_) => 5
  }

  function WorkersLeft(workers: seq<WorkerPc>): nat {
    if workers == [] then 0 else WorkerLeft(workers[0]) + WorkersLeft(workers[1..])
  }

  function DispatcherLeft(w: World): int {
    match w.dispatcher
    case Dispatching(i) => 5 * (|w.requests| - i) + 2
    case Cancelling(_, j) => |w.requests| - j + 2
    case Draining(_) => 1
    case Returned(_) => 0
  }

  function Left(w: World): int {
    DispatcherLeft(w) + WorkersLeft(w.workers) + if w.ctxDone then 0 else 1
  }

  lemma {:induction false} WorkersLeftUpdate(workers: seq<WorkerPc>, id: nat, pc: WorkerPc)
    requires id < |workers|
    ensures WorkersLeft(workers[id := pc]) == WorkersLeft(workers) - WorkerLeft(workers[id]) + WorkerLeft(pc)
  {
    if id == 0 {
      assert workers[id := pc][1..] == workers[1..];
    } else {
      WorkersLeftUpdate(workers[1..], id - 1, pc);
      assert workers[id := pc][1..] == workers[1..][id - 1 := pc];
    }
  }

  lemma StepLowers(w: World, a: Action)
    requires Inv(w) && Enabled(w, a)
    ensures Left(Next(w, a)) < Left(w)
  {
    hide SlotFits, IsOn, WorkersLeft;
    match a
    case Hand(id) => WorkersLeftUpdate(w.workers, id, Has(w.dispatcher.i));
    case Check(id) =>
      WorkersLeftUpdate(w.workers, id, Idle);
      WorkersLeftUpdate(w.workers, id, Fetching(w.workers[id].k));
    case Reply(id, r) => WorkersLeftUpdate(w.workers, id, Got(w.workers[id].k, r));
    case StoreResponse(id) => WorkersLeftUpdate(w.workers, id, Stored(w.workers[id].k, w.workers[id].result));
    case StoreError(id) => WorkersLeftUpdate(w.workers, id, Idle);
    case Exit(id) => WorkersLeftUpdate(w.workers, id, Exited);
    case _ =>
  }

  lemma {:induction false} RunLowers(w: World, steps: seq<Action>, w': World)
    requires Inv(w) && Leads(w, steps, w')
    ensures |steps| <= Left(w) - Left(w')
    decreases steps
  {
    if steps != [] {
      hide Inv, Left;
      StepKeepsInv(w, steps[0]);
      StepLowers(w, steps[0]);
      RunLowers(Next(w, steps[0]), steps[1..], w');
    }
  }
}
