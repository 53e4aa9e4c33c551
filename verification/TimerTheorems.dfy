/** Whole-run facts about timer heaps: budget slices, and handles across moves. */
module TimerTheorems {
  import opened LoopBudgets
  import opened TimerSpec
  import opened TimerHeaps

  /**
   Pops with fresh slices of one valid budget at a fixed `now` until nothing is
   ready. The outcome is that of one unbudgeted pop, whatever the budget is.
   */
  method PopReadyInSlices(heap: TimerHeap, now: int, budget: LoopBudget)
    returns (ready: seq<TimerHandle>, ghost popped: seq<Entry>)
    requires heap.Valid() && budget.Valid()
    modifies heap
    ensures heap.Valid() && heap.ownerId == old(heap.ownerId) && heap.nextId == old(heap.nextId)
    ensures ready == Handles(heap.ownerId, popped)
    ensures IsReadyList(old(heap.Timers()), now, popped)
    ensures heap.Timers() == NotReady(old(heap.Timers()), now)
  {
    ready, popped := [], [];
    ghost var lives, batches, outs := [heap.Timers()], [], [];
    var next := heap.NextDeadline();
    while next.Some? && next.value <= now
      invariant heap.Valid() && heap.ownerId == old(heap.ownerId) && heap.nextId == old(heap.nextId)
      invariant |lives| == |outs| + 1 && |batches| == |outs|
      invariant lives[0] == old(heap.Timers()) && lives[|outs|] == heap.Timers()
      invariant forall i :: 0 <= i < |outs| ==> PopsBatches(lives[i], now, batches[i], outs[i], lives[i + 1])
      invariant popped == Flatten(outs) && ready == Handles(heap.ownerId, popped)
      invariant next.None? <==> heap.Timers() == map[]
      invariant next.Some? ==> exists id :: id in heap.Timers() && heap.Timers()[id] == next.value
      invariant next.Some? ==> forall id :: id in heap.Timers() ==> next.value <= heap.Timers()[id]
      decreases |ReadyDeadlines(heap.Timers(), now)|
    {
      ghost var before := heap.Timers();
      var slice := new LoopBudgetSlice(budget);
      var more, out, batch := heap.PopReadyWithin(now, slice);
      assert next.value in ReadyDeadlines(before, now);
      FewerDeadlines(before, now, batch, out, heap.Timers());
      FlattenAppend(outs, out);
      HandlesConcat(heap.ownerId, popped, out);
      lives, batches, outs := lives + [heap.Timers()], batches + [batch], outs + [out];
      ready, popped := ready + more, popped + out;
      next := heap.NextDeadline();
    }
    assert ReadyDeadlines(heap.Timers(), now) == {};
    SlicesConcatenate(now, lives, batches, outs);
  }

  lemma FewerDeadlines(live: Live, now: int, batches: set<int>, out: seq<Entry>, rest: Live)
    requires PopsBatches(live, now, batches, out, rest)
    ensures |ReadyDeadlines(rest, now)| == |ReadyDeadlines(live, now)| - |batches|
  {
    var all := ReadyDeadlines(live, now);
    assert ReadyDeadlines(rest, now) == all - batches by {
      forall d | d in all && d !in batches
        ensures d in ReadyDeadlines(rest, now)
      {
        var id :| id in live && live[id] == d;
        assert id in rest && rest[id] == d;
      }
    }
    assert |all - batches| == |all| - |batches| by {
      assert all == (all - batches) + batches;
    }
  }

  lemma {:induction false} FlattenAppend(outs: seq<seq<Entry>>, out: seq<Entry>)
    ensures Flatten(outs + [out]) == Flatten(outs) + out
  {
    if outs != [] {
      FlattenAppend(outs[1..], out);
      assert (outs + [out])[1..] == outs[1..] + [out];
    }
  }

  // Handles across moves

  datatype Heap = Heap(owner: nat, next: nat, live: Live)

  /** Every heap of a program, the owner counter, and the deadline each handle was issued for. */
  datatype World = World(nextOwner: nat, heaps: map<nat, Heap>, issued: map<TimerHandle, int>)

  datatype Event =
    | Create(heap: nat)
    | MoveConstruct(dst: nat, src: nat)
    | MoveAssign(dst: nat, src: nat)
    | Destroy(heap: nat)
    | Add(heap: nat, deadline: int)
    | Cancel(heap: nat, handle: TimerHandle)
    | Pop(heap: nat, now: int)
    /** A budgeted pop, of whole deadline groups. */
    | PopBatches(heap: nat, batches: set<int>)

  predicate Possible(w: World, e: Event) {
    match e
    case Create(h) => h !in w.heaps
    case MoveConstruct(dst, src) => dst !in w.heaps && src in w.heaps
    case MoveAssign(dst, src) => dst in w.heaps && src in w.heaps
    case Destroy(h) => h in w.heaps
    case Add(h, _) => h in w.heaps
    case Cancel(h, _) => h in w.heaps
    case Pop(h, _) => h in w.heaps
    case PopBatches(h, _) => h in w.heaps
  }

  // What happens to a single heap

  function NewHeap(owner: nat): Heap {
    Heap(owner, 1, map[])
  }

  function NextHandle(heap: Heap): TimerHandle {
    TimerHandle(heap.owner, heap.next)
  }

  function Added(heap: Heap, deadline: int): Heap {
    Heap(heap.owner, heap.next + 1, heap.live[heap.next := deadline])
  }

  function Cancelled(heap: Heap, handle: TimerHandle): Heap {
    if handle.ownerId == heap.owner then heap.(live := heap.live - {handle.id}) else heap
  }

  ghost function Popped(heap: Heap, now: int): Heap {
    heap.(live := NotReady(heap.live, now))
  }

  ghost function PoppedBatches(heap: Heap, batches: set<int>): Heap {
    heap.(live := Without(heap.live, batches))
  }

  function HandleFor(w: World, h: nat): TimerHandle
    requires h in w.heaps
  {
    NextHandle(w.heaps[h])
  }

  /** The transitions of all heaps together. */
  ghost function Step(w: World, e: Event): World
    requires Possible(w, e)
  {
    match e
    case Create(h) => World(w.nextOwner + 1, w.heaps[h := NewHeap(w.nextOwner)], w.issued)
    case MoveConstruct(dst, src) => Moved(w, dst, src)
    case MoveAssign(dst, src) => if dst == src then w else Moved(w, dst, src)
    case Destroy(h) => w.(heaps := w.heaps - {h})
    case Add(h, d) =>
      w.(heaps := w.heaps[h := Added(w.heaps[h], d)], issued := w.issued[HandleFor(w, h) := d])
    case Cancel(h, handle) => w.(heaps := w.heaps[h := Cancelled(w.heaps[h], handle)])
    case Pop(h, now) => w.(heaps := w.heaps[h := Popped(w.heaps[h], now)])
    case PopBatches(h, batches) => w.(heaps := w.heaps[h := PoppedBatches(w.heaps[h], batches)])
  }

  function Moved(w: World, dst: nat, src: nat): World
    requires src in w.heaps
  {
    World(w.nextOwner + 1, w.heaps[dst := w.heaps[src]][src := NewHeap(w.nextOwner)], w.issued)
  }

  /** A heap's counter is past every id issued under its owner, and its timers were issued as such. */
  ghost predicate HeapOk(nextOwner: nat, issued: map<TimerHandle, int>, heap: Heap) {
    && 0 < heap.owner < nextOwner && heap.next > 0
    && (forall handle :: handle in issued && handle.ownerId == heap.owner ==> 0 < handle.id < heap.next)
    && (forall id :: id in heap.live ==> TimerHandle(heap.owner, id) in issued)
    && (forall id :: id in heap.live ==> issued[TimerHandle(heap.owner, id)] == heap.live[id])
  }

  ghost predicate Inv(w: World) {
    && w.nextOwner > 0
    && (forall handle :: handle in w.issued ==> 0 < handle.ownerId < w.nextOwner)
    && (forall h :: h in w.heaps ==> HeapOk(w.nextOwner, w.issued, w.heaps[h]))
    && (forall g, h :: g in w.heaps && h in w.heaps && w.heaps[g].owner == w.heaps[h].owner ==> g == h)
  }

  ghost predicate PossibleRun(w: World, events: seq<Event>)
    decreases |events|
  {
    events == [] || (Possible(w, events[0]) && PossibleRun(Step(w, events[0]), events[1..]))
  }

  ghost function Run(w: World, events: seq<Event>): World
    requires PossibleRun(w, events)
    decreases |events|
  {
    if events == [] then w else Run(Step(w, events[0]), events[1..])
  }

  const EMPTY_WORLD := World(1, map[], map[])

  /** A handle is live in `w` when some heap still holds the timer it names. */
  ghost predicate Names(w: World, handle: TimerHandle, h: nat) {
    h in w.heaps && w.heaps[h].owner == handle.ownerId && handle.id in w.heaps[h].live
  }

  lemma StepKeepsInv(w: World, e: Event)
    requires Inv(w) && Possible(w, e)
    ensures Inv(Step(w, e))
    ensures forall handle :: handle in w.issued ==>
                               handle in Step(w, e).issued && Step(w, e).issued[handle] == w.issued[handle]
  {
    match e
    case Create(_) =>
    case MoveConstruct(dst, src) => MovedKeepsInv(w, dst, src);
    case MoveAssign(dst, src) => MovedKeepsInv(w, dst, src);
    case Destroy(_) =>
    case Add(h, d) => AddKeepsInv(w, h, d);
    case Cancel(h, handle) => ShrinkKeepsInv(w, h, Cancelled(w.heaps[h], handle).live);
    case Pop(h, now) => ShrinkKeepsInv(w, h, NotReady(w.heaps[h].live, now));
    case PopBatches(h, batches) => ShrinkKeepsInv(w, h, Without(w.heaps[h].live, batches));
  }

  lemma ShrinkKeepsInv(w: World, h: nat, live: Live)
    requires Inv(w) && h in w.heaps
    requires forall id :: id in live ==> id in w.heaps[h].live && w.heaps[h].live[id] == live[id]
    ensures Inv(w.(heaps := w.heaps[h := w.heaps[h].(live := live)]))
  {
    assert HeapOk(w.nextOwner, w.issued, w.heaps[h]);
  }

  lemma MovedKeepsInv(w: World, dst: nat, src: nat)
    requires Inv(w) && src in w.heaps
    ensures dst != src ==> Inv(Moved(w, dst, src))
  {
  }

  lemma AddKeepsInv(w: World, h: nat, d: int)
    requires Inv(w) && h in w.heaps
    ensures HandleFor(w, h) !in w.issued && Inv(Step(w, Add(h, d)))
  {
    var w' := Step(w, Add(h, d));
    var handle := HandleFor(w, h);
    IssueToOwner(w.nextOwner, w.issued, w.heaps[h], d);
    forall g | g in w.heaps && g != h
      ensures HeapOk(w.nextOwner, w'.issued, w.heaps[g])
    {
      IssueToOther(w.nextOwner, w.issued, w.heaps[g], handle, d);
    }
  }

  lemma IssueToOwner(nextOwner: nat, issued: map<TimerHandle, int>, heap: Heap, d: int)
    requires HeapOk(nextOwner, issued, heap)
    ensures TimerHandle(heap.owner, heap.next) !in issued
    ensures HeapOk(nextOwner, issued[TimerHandle(heap.owner, heap.next) := d],
                   Heap(heap.owner, heap.next + 1, heap.live[heap.next := d]))
  {
  }

  lemma IssueToOther(nextOwner: nat, issued: map<TimerHandle, int>, heap: Heap, handle: TimerHandle, d: int)
    requires HeapOk(nextOwner, issued, heap) && handle.ownerId != heap.owner
    ensures HeapOk(nextOwner, issued[handle := d], heap)
  {
  }

  lemma {:induction false} RunKeepsInv(w: World, events: seq<Event>)
    requires Inv(w) && PossibleRun(w, events)
    ensures Inv(Run(w, events))
    ensures forall handle :: handle in w.issued ==>
                               handle in Run(w, events).issued && Run(w, events).issued[handle] == w.issued[handle]
    decreases |events|
  {
    if events != [] {
      StepKeepsInv(w, events[0]);
      RunKeepsInv(Step(w, events[0]), events[1..]);
    }
  }

  /**
   Over every program of creations, moves, adds, cancels, pops and destructions:
   an add never returns a handle that was returned before; a handle names a timer
   of at most one heap, and that timer has the deadline the handle was issued for;
   and a cancel removes exactly the named timer or changes nothing.
   */
  lemma HandlesNameOneTimer(events: seq<Event>, h: nat, handle: TimerHandle)
    requires PossibleRun(EMPTY_WORLD, events)
    requires h in Run(EMPTY_WORLD, events).heaps
    ensures var w := Run(EMPTY_WORLD, events); HandleFor(w, h) !in w.issued
    ensures var w := Run(EMPTY_WORLD, events);
            forall g :: Names(w, handle, g) && Names(w, handle, h) ==> g == h
    ensures var w := Run(EMPTY_WORLD, events);
            Names(w, handle, h) ==> handle in w.issued && w.issued[handle] == w.heaps[h].live[handle.id]
    ensures var w := Run(EMPTY_WORLD, events); var w' := Step(w, Cancel(h, handle));
            forall other, g :: Names(w', other, g) <==> Names(w, other, g) && !(other == handle && g == h)
  {
    RunKeepsInv(EMPTY_WORLD, events);
  }

  // The transitions, performed by real heaps

  ghost function View(heap: TimerHeap): Heap
    reads heap
    requires heap.Valid()
  {
    Heap(heap.ownerId, heap.nextId, heap.Timers())
  }

  method CreateHeap(allocator: OwnerAllocator) returns (heap: TimerHeap)
    requires allocator.next > 0
    modifies allocator
    ensures fresh(heap) && heap.Valid() && View(heap) == NewHeap(old(allocator.next))
    ensures allocator.next == old(allocator.next) + 1
  {
    heap := new TimerHeap(allocator);
  }

  method MoveConstructHeap(src: TimerHeap, allocator: OwnerAllocator) returns (dst: TimerHeap)
    requires src.Valid() && allocator.next > 0
    modifies src, allocator
    ensures fresh(dst) && dst.Valid() && View(dst) == old(View(src))
    ensures src.Valid() && View(src) == NewHeap(old(allocator.next)) && allocator.next == old(allocator.next) + 1
  {
    dst := new TimerHeap.MoveFrom(src, allocator);
  }

  method MoveAssignHeap(dst: TimerHeap, src: TimerHeap, allocator: OwnerAllocator)
    requires dst.Valid() && src.Valid() && allocator.next > 0
    modifies dst, src, allocator
    ensures dst.Valid() && View(dst) == old(View(src))
    ensures dst != src ==>
              src.Valid() && View(src) == NewHeap(old(allocator.next)) && allocator.next == old(allocator.next) + 1
    ensures dst == src ==> allocator.next == old(allocator.next)
  {
    dst.MoveAssign(src, allocator);
  }

  method AddTimer(heap: TimerHeap, deadline: int) returns (handle: TimerHandle)
    requires heap.Valid()
    modifies heap
    ensures heap.Valid() && View(heap) == Added(old(View(heap)), deadline) && handle == NextHandle(old(View(heap)))
  {
    handle := heap.Add(deadline);
  }

  method CancelTimer(heap: TimerHeap, handle: TimerHandle) returns (cancelled: bool)
    requires heap.Valid()
    modifies heap
    ensures heap.Valid() && View(heap) == Cancelled(old(View(heap)), handle)
    ensures cancelled <==> handle.ownerId == old(View(heap)).owner && handle.id in old(View(heap)).live
  {
    cancelled := heap.Cancel(handle);
  }

  method PopTimers(heap: TimerHeap, now: int) returns (ready: seq<TimerHandle>)
    requires heap.Valid()
    modifies heap
    ensures heap.Valid() && View(heap) == Popped(old(View(heap)), now)
  {
    ghost var popped;
    ready, popped := heap.PopReady(now);
  }

  method PopTimersWithin(heap: TimerHeap, now: int, budget: LoopBudgetSlice)
    returns (ready: seq<TimerHandle>, ghost batches: set<int>)
    requires heap.Valid()
    modifies heap, budget`consumedTimers
    ensures heap.Valid() && View(heap) == PoppedBatches(old(View(heap)), batches)
  {
    ghost var popped;
    ready, popped, batches := heap.PopReadyWithin(now, budget);
  }
}
