/**
 The indexed binary heap of src/timer.cpp: `entries` is a heap ordered by
 (deadline, id), and `indices` maps each live id to its position.
 */
module TimerHeaps {
  import opened Common
  import opened LoopBudgets
  import opened TimerSpec

  datatype TimerHandle = TimerHandle(ownerId: nat, id: nat) {
    predicate Valid() {
      ownerId != 0 && id != 0
    }
  }

  function Parent(k: nat): nat
    requires k > 0
  {
    (k - 1) / 2
  }

  /** `a` does not come after `b`. */
  predicate Le(a: Entry, b: Entry) {
    !Before(b, a)
  }

  ghost predicate Ordered(es: seq<Entry>) {
    forall k :: 0 < k < |es| ==> Le(es[Parent(k)], es[k])
  }

  /** Only the edge above `i` may be out of order. */
  ghost predicate OrderedExceptAbove(es: seq<Entry>, i: nat) {
    && (forall k :: 0 < k < |es| && k != i ==> Le(es[Parent(k)], es[k]))
    && (forall k :: 0 < k < |es| && Parent(k) == i > 0 ==> Le(es[Parent(i)], es[k]))
  }

  /** Only the edges below `i` may be out of order. */
  ghost predicate OrderedExceptBelow(es: seq<Entry>, i: nat) {
    && (forall k :: 0 < k < |es| && Parent(k) != i ==> Le(es[Parent(k)], es[k]))
    && (forall k :: 0 < k < |es| && Parent(k) == i > 0 ==> Le(es[Parent(i)], es[k]))
  }

  /** `ix` is the inverse of the position-to-id map of `es`. */
  ghost predicate Indexed(es: seq<Entry>, ix: map<nat, nat>) {
    && (forall k :: 0 <= k < |es| ==> es[k].id in ix && ix[es[k].id] == k)
    && (forall id :: id in ix ==> ix[id] < |es| && es[ix[id]].id == id)
  }

  ghost function LiveOf(es: seq<Entry>, ix: map<nat, nat>): Live
    requires Indexed(es, ix)
  {
    map id | id in ix :: es[ix[id]].deadline
  }

  lemma DropLast(es: seq<Entry>, ix: map<nat, nat>)
    requires Indexed(es, ix) && es != []
    ensures var last := |es| - 1; var id := es[last].id;
            Indexed(es[..last], ix - {id}) && LiveOf(es[..last], ix - {id}) == LiveOf(es, ix) - {id}
  {
  }

  lemma AppendLast(es: seq<Entry>, ix: map<nat, nat>, e: Entry)
    requires Indexed(es, ix) && e.id !in ix
    ensures Indexed(es + [e], ix[e.id := |es|])
    ensures LiveOf(es + [e], ix[e.id := |es|]) == LiveOf(es, ix)[e.id := e.deadline]
    ensures Ordered(es) ==> OrderedExceptAbove(es + [e], |es|)
  {
  }

  lemma {:induction false} RootIsLeast(es: seq<Entry>, k: nat)
    requires Ordered(es) && k < |es|
    ensures Le(es[0], es[k])
  {
    if k > 0 {
      RootIsLeast(es, Parent(k));
    }
  }

  /** The process-wide counter behind `allocate_owner_id`. */
  class OwnerAllocator {
    var next: nat

    constructor ()
      ensures next == 1
    {
      next := 1;
    }

    method Allocate() returns (id: nat)
      modifies this
      ensures id == old(next) && next == old(next) + 1
    {
      id := next;
      next := next + 1;
    }
  }

  class TimerHeap {
    var ownerId: nat
    var nextId: nat
    var entries: seq<Entry>
    var indices: map<nat, nat>

    ghost predicate Wired()
      reads this
    {
      && Indexed(entries, indices)
      && ownerId > 0
      && nextId > 0
      && forall id :: id in indices ==> 0 < id < nextId
    }

    ghost predicate Valid()
      reads this
    {
      Wired() && Ordered(entries)
    }

    ghost function Timers(): Live
      requires Wired()
      reads this
    {
      LiveOf(entries, indices)
    }

    constructor (allocator: OwnerAllocator)
      requires allocator.next > 0
      modifies allocator
      ensures Valid() && Timers() == map[]
      ensures ownerId == old(allocator.next) && nextId == 1
      ensures allocator.next == old(allocator.next) + 1
    {
      var id := allocator.Allocate();
      ownerId, nextId, entries, indices := id, 1, [], map[];
    }

    /** Move construction: the timers and their handles' owner id move; `other` starts afresh. */
    constructor MoveFrom(other: TimerHeap, allocator: OwnerAllocator)
      requires other.Valid() && allocator.next > 0
      modifies other, allocator
      ensures Valid() && Timers() == old(other.Timers())
      ensures ownerId == old(other.ownerId) && nextId == old(other.nextId)
      ensures other.Valid() && other.Timers() == map[]
      ensures other.ownerId == old(allocator.next) && other.nextId == 1
      ensures allocator.next == old(allocator.next) + 1
    {
      var id := allocator.Allocate();
      ownerId, nextId := other.ownerId, other.nextId;
      entries, indices := other.entries, other.indices;
      new;
      other.ownerId, other.nextId := id, 1;
      other.entries, other.indices := [], map[];
    }

    /** Move assignment: as above, and this heap's own timers and owner id are dropped. */
    method MoveAssign(other: TimerHeap, allocator: OwnerAllocator)
      requires Valid() && other.Valid() && allocator.next > 0
      modifies this, other, allocator
      ensures Valid() && Timers() == old(other.Timers())
      ensures ownerId == old(other.ownerId) && nextId == old(other.nextId)
      ensures other != this ==> other.Valid() && other.Timers() == map[]
      ensures other != this ==> other.ownerId == old(allocator.next) && other.nextId == 1
      ensures allocator.next == old(allocator.next) + (if other == this then 0 else 1)
    {
      if this == other {
        return;
      }
      var id := allocator.Allocate();
      ownerId, other.ownerId := other.ownerId, id;
      nextId, other.nextId := other.nextId, 1;
      entries, indices := other.entries, other.indices;
      other.entries, other.indices := [], map[];
    }

    method SwapEntries(lhs: nat, rhs: nat)
      requires Wired() && lhs < |entries| && rhs < |entries|
      modifies this`entries, this`indices
      ensures Wired() && Timers() == old(Timers())
      ensures entries == old(entries)[lhs := old(entries)[rhs]][rhs := old(entries)[lhs]]
    {
      if lhs == rhs {
        return;
      }
      entries := entries[lhs := entries[rhs]][rhs := entries[lhs]];
      indices := indices[entries[lhs].id := lhs];
      indices := indices[entries[rhs].id := rhs];
    }

    method SiftUp(index: nat)
      requires Wired() && index < |entries| && OrderedExceptAbove(entries, index)
      modifies this`entries, this`indices
      ensures Valid() && Timers() == old(Timers()) && |entries| == |old(entries)|
    {
      var i: nat := index;
      while i > 0
        invariant i < |entries| == |old(entries)|
        invariant Wired() && Timers() == old(Timers())
        invariant OrderedExceptAbove(entries, i)
      {
        var parent := (i - 1) / 2;
        if !Before(entries[i], entries[parent]) {
          break;
        }
        SwappedUp(entries, i);
        SwapEntries(i, parent);
        i := parent;
      }
    }

    method SiftDown(index: nat)
      requires Wired() && index < |entries| && OrderedExceptBelow(entries, index)
      modifies this`entries, this`indices
      ensures Valid() && Timers() == old(Timers()) && |entries| == |old(entries)|
    {
      var i: nat := index;
      var count := |entries|;
      while true
        invariant i < |entries| == count
        invariant Wired() && Timers() == old(Timers())
        invariant OrderedExceptBelow(entries, i)
        decreases count - i
      {
        var left := i * 2 + 1;
        if left >= count {
          NoChildren(entries, i);
          break;
        }
        var right := left + 1;
        var smallest := left;
        if right < count && Before(entries[right], entries[left]) {
          smallest := right;
        }
        LeastChild(entries, i, smallest);
        if !Before(entries[smallest], entries[i]) {
          break;
        }
        SwappedDown(entries, i, smallest);
        SwapEntries(i, smallest);
        i := smallest;
      }
    }

    /** Repairs one position in one direction only. */
    method RepairAt(index: nat)
      requires Wired()
      requires index >= |entries| ==> Ordered(entries)
      requires index < |entries| ==> OrderedAround(entries, index)
      modifies this`entries, this`indices
      ensures Valid() && Timers() == old(Timers()) && |entries| == |old(entries)|
    {
      if index >= |entries| {
        return;
      }
      if index > 0 && Before(entries[index], entries[(index - 1) / 2]) {
        SiftUp(index);
        return;
      }
      SiftDown(index);
    }

    method EraseAt(index: nat)
      requires Valid() && index < |entries|
      modifies this`entries, this`indices
      ensures Valid() && Timers() == old(Timers()) - {old(entries)[index].id}
      ensures |entries| == |old(entries)| - 1
    {
      var removedId := entries[index].id;
      var last := |entries| - 1;
      if index != last {
        SwapEntries(index, last);
      }
      DropLast(entries, indices);
      indices := indices - {removedId};
      entries := entries[..last];
      if index < last {
        ReplacedOrderedAround(old(entries), index, entries);
      }
      RepairAt(index);
    }

    method Add(deadline: int) returns (handle: TimerHandle)
      requires Valid()
      modifies this`nextId, this`entries, this`indices
      ensures Valid() && handle.Valid()
      ensures handle == TimerHandle(ownerId, old(nextId)) && nextId == old(nextId) + 1
      ensures handle.id !in old(Timers()) && Timers() == old(Timers())[handle.id := deadline]
    {
      handle := TimerHandle(ownerId, nextId);
      nextId := nextId + 1;
      var index := |entries|;
      AppendLast(entries, indices, Entry(deadline, handle.id));
      entries := entries + [Entry(deadline, handle.id)];
      indices := indices[handle.id := index];
      SiftUp(index);
    }

    method Cancel(handle: TimerHandle) returns (cancelled: bool)
      requires Valid()
      modifies this`entries, this`indices
      ensures Valid()
      ensures cancelled <==> handle.ownerId == ownerId && handle.id in old(Timers())
      ensures Timers() == if cancelled then old(Timers()) - {handle.id} else old(Timers())
    {
      if !handle.Valid() || handle.ownerId != ownerId {
        return false;
      }
      if handle.id !in indices {
        return false;
      }
      EraseAt(indices[handle.id]);
      return true;
    }

    method NextDeadline() returns (deadline: Option<int>)
      requires Valid()
      ensures deadline.None? <==> Timers() == map[]
      ensures deadline.Some? ==> exists id :: id in Timers() && Timers()[id] == deadline.value
      ensures deadline.Some? ==> forall id :: id in Timers() ==> deadline.value <= Timers()[id]
    {
      if entries == [] {
        assert Timers() == map[];
        return None;
      }
      FrontIsEarliest();
      return Some(entries[0].deadline);
    }

    lemma FrontIsEarliest()
      requires Valid() && entries != []
      ensures entries[0].id in Timers() && Timers()[entries[0].id] == entries[0].deadline
      ensures forall id :: id in Timers() ==> Le(entries[0], Entry(Timers()[id], id))
    {
      forall id | id in Timers()
        ensures Le(entries[0], Entry(Timers()[id], id))
      {
        RootIsLeast(entries, indices[id]);
      }
    }

    /** Counts the timers of one deadline by a scan of the whole heap array. */
    method CurrentDeadlineBatchSize(deadline: int) returns (count: nat)
      requires Valid()
      ensures count == |Group(Timers(), {deadline})|
    {
      count := 0;
      ghost var seen: set<Entry> := {};
      for k := 0 to |entries|
        invariant count == |seen|
        invariant forall j :: 0 <= j < k && entries[j].deadline == deadline ==> entries[j] in seen
        invariant forall e :: e in seen ==>
                                e.deadline == deadline && e.id in indices && indices[e.id] < k && entries[indices[e.id]] == e
      {
        if entries[k].deadline == deadline {
          assert entries[k] !in seen;
          seen := seen + {entries[k]};
          count := count + 1;
        }
      }
      assert seen == Group(Timers(), {deadline}) by {
        forall e
          ensures e in seen <==> e in Group(Timers(), {deadline})
        {
          assert e in seen ==> Timers()[e.id] == e.deadline;
          assert e in Group(Timers(), {deadline}) ==> entries[indices[e.id]] == e;
        }
      }
    }

    /** The earliest ready deadline after `deadline`, by a scan of the whole heap array. */
    method NextReadyDeadlineAfter(deadline: int, now: int) returns (next: Option<int>)
      requires Valid()
      ensures next.Some? ==> next.value in ReadyDeadlines(Timers(), now) && deadline < next.value
      ensures next.Some? ==> forall d :: d in ReadyDeadlines(Timers(), now) && deadline < d ==> next.value <= d
      ensures next.None? ==> forall d :: d in ReadyDeadlines(Timers(), now) ==> d <= deadline
    {
      next := None;
      for k := 0 to |entries|
        invariant next.Some? ==> next.value in ReadyDeadlines(Timers(), now) && deadline < next.value
        invariant forall j :: 0 <= j < k && deadline < entries[j].deadline <= now ==>
                                next.Some? && next.value <= entries[j].deadline
      {
        var entry := entries[k];
        if deadline < entry.deadline <= now && (next.None? || entry.deadline < next.value) {
          assert Timers()[entry.id] == entry.deadline;
          next := Some(entry.deadline);
        }
      }
    }

    /**
     The scan that decides, before anything is removed, how many deadline groups
     and how many timers a pop will return.
     */
    method PlanReadyBatches(now: int, maxBatches: nat)
      returns (batchCount: nat, timerCount: nat, ghost planned: set<int>)
      requires Valid()
      ensures LowestOf(ReadyDeadlines(Timers(), now), planned) && |planned| == batchCount
      ensures batchCount == Min(maxBatches, |ReadyDeadlines(Timers(), now)|)
      ensures timerCount == |Group(Timers(), planned)|
    {
      batchCount, timerCount, planned := 0, 0, {};
      ghost var ready := ReadyDeadlines(Timers(), now);
      assert Group(Timers(), {}) == {};
      if maxBatches == 0 || entries == [] || now < entries[0].deadline {
        if entries == [] {
          assert ready == {};
        } else {
          FrontIsEarliest();
          assert now < entries[0].deadline ==> ready == {};
        }
        return;
      }
      FrontIsEarliest();
      var deadline := entries[0].deadline;
      assert planned == EarlierThan(ready, deadline);
      while batchCount < maxBatches
        invariant deadline in ready && planned == EarlierThan(ready, deadline)
        invariant batchCount == |planned| <= maxBatches
        invariant timerCount == |Group(Timers(), planned)|
        decreases |ready| - batchCount
      {
        var batchSize := CurrentDeadlineBatchSize(deadline);
        GroupNonEmpty(Timers(), now, deadline);
        if batchSize == 0 {
          break;
        }
        timerCount := timerCount + batchSize;
        batchCount := batchCount + 1;
        GroupSplits(Timers(), planned, deadline);
        planned := planned + {deadline};
        var next := NextReadyDeadlineAfter(deadline, now);
        PlanAdvances(ready, deadline, next);
        if next.None? {
          return;
        }
        deadline := next.value;
      }
      SubsetSize(planned, ready);
    }

    /** Pops every timer of the earliest deadline. */
    method PopDeadlineBatch(deadline: int, ready: seq<TimerHandle>)
      returns (ready': seq<TimerHandle>, ghost popped: seq<Entry>)
      requires Valid()
      requires forall id :: id in Timers() ==> deadline <= Timers()[id]
      modifies this`entries, this`indices
      ensures Valid() && Timers() == Without(old(Timers()), {deadline})
      ensures Sorted(popped) && Elements(popped) == Group(old(Timers()), {deadline})
      ensures ready' == ready + Handles(ownerId, popped)
    {
      ready' := ready;
      popped := [];
      ghost var before := Timers();
      while entries != [] && entries[0].deadline == deadline
        invariant Valid()
        invariant PartlyPopped(before, deadline, popped, Timers())
        invariant ready' == ready + Handles(ownerId, popped)
        decreases |entries|
      {
        FrontIsEarliest();
        PopFront(before, deadline, popped, Timers(), entries[0]);
        HandlesAppend(ownerId, popped, entries[0]);
        ready' := ready' + [TimerHandle(ownerId, entries[0].id)];
        popped := popped + [entries[0]];
        EraseAt(0);
      }
      if entries != [] {
        FrontIsEarliest();
      }
      assert forall id :: id in Timers() ==> Timers()[id] != deadline;
      PoppedWhole(before, deadline, popped, Timers());
    }

    /** Pops every ready timer; the number of batches was planned by a separate scan. */
    method PopReady(now: int) returns (ready: seq<TimerHandle>, ghost popped: seq<Entry>)
      requires Valid()
      modifies this`entries, this`indices
      ensures Valid() && ready == Handles(ownerId, popped)
      ensures IsReadyList(old(Timers()), now, popped)
      ensures Timers() == NotReady(old(Timers()), now)
      ensures |ready| == |Ready(old(Timers()), now)|
    {
      ready, popped := [], [];
      ghost var before := Timers();
      DeadlineCountBounded(now);
      var batchCount, timerCount, planned := PlanReadyBatches(now, |entries|);
      ghost var batches: set<int> := {};
      NothingPopped(before, now);
      for batch := 0 to batchCount
        invariant Valid() && |batches| == batch
        invariant PopsBatches(before, now, batches, popped, Timers())
        invariant ready == Handles(ownerId, popped)
      {
        FrontBatchExists(before, now, batches, popped);
        ghost var front := entries[0].deadline;
        ghost var rest := Timers();
        ghost var more;
        ready, more := PopDeadlineBatch(entries[0].deadline, ready);
        BatchesExtend(before, now, batches, popped, rest, front, more, Timers());
        HandlesConcat(ownerId, popped, more);
        popped, batches := popped + more, batches + {front};
      }
      AllBatchesAreReadyList(before, now, batches, popped, Timers());
      LowestUnique(ReadyDeadlines(before, now), batches, planned);
      SortedSize(popped);
      assert |ready| == timerCount;
    }

    /**
     The budgeted pop: one unit of timer budget per deadline group, never part of
     a group, and the planned count of timers.
     */
    method PopReadyWithin(now: int, budget: LoopBudgetSlice)
      returns (ready: seq<TimerHandle>, ghost popped: seq<Entry>, ghost batches: set<int>)
      requires Valid()
      modifies this`entries, this`indices, budget`consumedTimers
      ensures Valid() && ready == Handles(ownerId, popped)
      ensures PopsBatches(old(Timers()), now, batches, popped, Timers())
      ensures |batches| == Min(old(budget.RemainingTimers()), |ReadyDeadlines(old(Timers()), now)|)
      ensures budget.consumedTimers == old(budget.consumedTimers) + |batches|
      ensures |ready| == |Group(old(Timers()), batches)|
    {
      ready, popped, batches := [], [], {};
      ghost var before := Timers();
      var batchCount, timerCount, planned := PlanReadyBatches(now, budget.RemainingTimers());
      NothingPopped(before, now);
      for batch := 0 to batchCount
        invariant Valid() && |batches| == batch
        invariant PopsBatches(before, now, batches, popped, Timers())
        invariant ready == Handles(ownerId, popped)
        invariant budget.consumedTimers == old(budget.consumedTimers) + batch
      {
        var consumed := budget.ConsumeTimer();
        if !consumed {
          assert false;
          break;
        }
        FrontBatchExists(before, now, batches, popped);
        ghost var front := entries[0].deadline;
        ghost var rest := Timers();
        ghost var more;
        ready, more := PopDeadlineBatch(entries[0].deadline, ready);
        BatchesExtend(before, now, batches, popped, rest, front, more, Timers());
        HandlesConcat(ownerId, popped, more);
        popped, batches := popped + more, batches + {front};
      }
      LowestUnique(ReadyDeadlines(before, now), batches, planned);
      SortedSize(popped);
      assert |ready| == timerCount;
    }

    /** A heap of n timers has at most n distinct ready deadlines. */
    lemma DeadlineCountBounded(now: int)
      requires Valid()
      ensures |ReadyDeadlines(Timers(), now)| <= |entries|
    {
      DistinctDeadlines(entries);
      var all := set k | 0 <= k < |entries| :: entries[k].deadline;
      assert ReadyDeadlines(Timers(), now) <= all;
      SubsetSize(ReadyDeadlines(Timers(), now), all);
    }

    /** While planned batches remain, the heap has a front and it is the next ready deadline. */
    lemma FrontBatchExists(before: Live, now: int, batches: set<int>, popped: seq<Entry>)
      requires Valid() && PopsBatches(before, now, batches, popped, Timers())
      requires |batches| < |ReadyDeadlines(before, now)|
      ensures entries != []
      ensures entries[0].deadline in ReadyDeadlines(before, now) && entries[0].deadline !in batches
      ensures forall id :: id in Timers() ==> entries[0].deadline <= Timers()[id]
    {
      var ready := ReadyDeadlines(before, now);
      if ready <= batches {
        SubsetSize(ready, batches);
        assert false;
      }
      var d :| d in ready && d !in batches;
      var id :| id in before && before[id] == d && d <= now;
      assert id in Timers() && indices[id] < |entries|;
      FrontIsEarliest();
      assert before[entries[0].id] == entries[0].deadline <= now;
    }
  }

  ghost predicate BeforeAll(e: Entry, live: Live) {
    forall id :: id in live ==> Before(e, Entry(live[id], id))
  }

  /** Some of the timers of the earliest deadline have been popped, in order. */
  ghost predicate PartlyPopped(before: Live, deadline: int, popped: seq<Entry>, live: Live) {
    && Sorted(popped)
    && (forall id :: id in live <==> id in before && Entry(before[id], id) !in popped)
    && (forall id :: id in live ==> live[id] == before[id])
    && (forall i :: 0 <= i < |popped| ==> popped[i] in Group(before, {deadline}) && BeforeAll(popped[i], live))
  }

  lemma PopFront(before: Live, deadline: int, popped: seq<Entry>, live: Live, front: Entry)
    requires PartlyPopped(before, deadline, popped, live)
    requires front.id in live && live[front.id] == front.deadline == deadline
    requires forall id :: id in live ==> Le(front, Entry(live[id], id))
    ensures PartlyPopped(before, deadline, popped + [front], live - {front.id})
  {
    assert Entry(live[front.id], front.id) == front;
    assert forall i :: 0 <= i < |popped| ==> BeforeAll(popped[i], live);
    assert forall i :: 0 <= i < |popped| ==> Before(popped[i], front);
  }

  lemma PoppedWhole(before: Live, deadline: int, popped: seq<Entry>, live: Live)
    requires PartlyPopped(before, deadline, popped, live)
    requires forall id :: id in live ==> live[id] != deadline
    ensures live == Without(before, {deadline})
    ensures Elements(popped) == Group(before, {deadline})
  {
    forall id | id in before && before[id] == deadline
      ensures Entry(deadline, id) in popped
    {
      assert id !in live;
    }
    assert forall e :: e in popped ==> e in Group(before, {deadline});
  }

  ghost function EarlierThan(all: set<int>, deadline: int): set<int> {
    set d | d in all && d < deadline
  }

  lemma PlanAdvances(ready: set<int>, deadline: int, next: Option<int>)
    requires deadline in ready
    requires next.Some? ==> next.value in ready && deadline < next.value
    requires next.Some? ==> forall d :: d in ready && deadline < d ==> next.value <= d
    requires next.None? ==> forall d :: d in ready ==> d <= deadline
    ensures EarlierThan(ready, deadline) + {deadline} == if next.Some? then EarlierThan(ready, next.value) else ready
    ensures |EarlierThan(ready, deadline)| < |EarlierThan(ready, deadline) + {deadline}| <= |ready|
  {
    SubsetSize(EarlierThan(ready, deadline) + {deadline}, ready);
  }

  lemma SwappedUp(es: seq<Entry>, i: nat)
    requires 0 < i < |es| && OrderedExceptAbove(es, i) && Before(es[i], es[Parent(i)])
    ensures OrderedExceptAbove(es[i := es[Parent(i)]][Parent(i) := es[i]], Parent(i))
  {
  }

  lemma NoChildren(es: seq<Entry>, i: nat)
    requires i < |es| <= i * 2 + 1 && OrderedExceptBelow(es, i)
    ensures Ordered(es)
  {
  }

  lemma LeastChild(es: seq<Entry>, i: nat, c: nat)
    requires i * 2 + 1 < |es| && c < |es| && (c == i * 2 + 1 || c == i * 2 + 2)
    requires Le(es[c], es[i * 2 + 1]) && (i * 2 + 2 < |es| ==> Le(es[c], es[i * 2 + 2]))
    ensures Parent(c) == i
    ensures forall k :: 0 < k < |es| && Parent(k) == i ==> Le(es[c], es[k])
    ensures OrderedExceptBelow(es, i) && Le(es[i], es[c]) ==> Ordered(es)
  {
    assert forall k :: 0 < k < |es| && Parent(k) == i ==> k == i * 2 + 1 || k == i * 2 + 2;
  }

  lemma SwappedDown(es: seq<Entry>, i: nat, c: nat)
    requires i < |es| && 0 < c < |es| && Parent(c) == i && OrderedExceptBelow(es, i)
    requires Before(es[c], es[i])
    requires forall k :: 0 < k < |es| && Parent(k) == i ==> Le(es[c], es[k])
    ensures OrderedExceptBelow(es[i := es[c]][c := es[i]], c)
  {
  }

  /** Position `i` may be out of order with its parent or with its children, not both kinds at once. */
  ghost predicate OrderedAround(es: seq<Entry>, i: nat)
    requires i < |es|
  {
    && (forall k :: 0 < k < |es| && k != i && Parent(k) != i ==> Le(es[Parent(k)], es[k]))
    && (forall k :: 0 < k < |es| && Parent(k) == i > 0 ==> Le(es[Parent(i)], es[k]))
  }

  /** Moving the last entry of a heap into slot `i` disturbs only the edges at `i`. */
  lemma ReplacedOrderedAround(es: seq<Entry>, i: nat, replaced: seq<Entry>)
    requires Ordered(es) && i < |es| - 1
    requires replaced == es[i := es[|es| - 1]][..|es| - 1]
    ensures OrderedAround(replaced, i)
  {
    forall k | 0 < k < |replaced| && Parent(k) == i > 0
      ensures Le(replaced[Parent(i)], replaced[k])
    {
      assert Le(es[Parent(i)], es[i]) && Le(es[Parent(k)], es[k]);
    }
  }

  function Handles(ownerId: nat, popped: seq<Entry>): (handles: seq<TimerHandle>) {
    seq(|popped|, i requires 0 <= i < |popped| => TimerHandle(ownerId, popped[i].id))
  }

  lemma HandlesAppend(ownerId: nat, popped: seq<Entry>, e: Entry)
    ensures Handles(ownerId, popped + [e]) == Handles(ownerId, popped) + [TimerHandle(ownerId, e.id)]
  {
  }

  lemma HandlesConcat(ownerId: nat, a: seq<Entry>, b: seq<Entry>)
    ensures Handles(ownerId, a + b) == Handles(ownerId, a) + Handles(ownerId, b)
  {
  }

  lemma GroupNonEmpty(live: Live, now: int, deadline: int)
    requires deadline in ReadyDeadlines(live, now)
    ensures |Group(live, {deadline})| > 0
  {
    var id :| id in live && live[id] == deadline;
    assert Entry(deadline, id) in Group(live, {deadline});
  }

  lemma GroupSplits(live: Live, planned: set<int>, deadline: int)
    requires deadline !in planned
    ensures |Group(live, planned + {deadline})| == |Group(live, planned)| + |Group(live, {deadline})|
  {
    assert Group(live, planned + {deadline}) == Group(live, planned) + Group(live, {deadline});
    assert Group(live, planned) !! Group(live, {deadline});
  }

  lemma NothingPopped(live: Live, now: int)
    ensures PopsBatches(live, now, {}, [], live)
  {
    assert Group(live, {}) == {};
    assert Without(live, {}) == live;
  }

  lemma BatchesExtend(before: Live, now: int, batches: set<int>, popped: seq<Entry>, rest: Live,
                      front: int, more: seq<Entry>, after: Live)
    requires PopsBatches(before, now, batches, popped, rest)
    requires front in ReadyDeadlines(before, now) && front !in batches
    requires forall id :: id in rest ==> front <= rest[id]
    requires Sorted(more) && Elements(more) == Group(rest, {front})
    requires after == Without(rest, {front})
    ensures PopsBatches(before, now, batches + {front}, popped + more, after)
  {
    var batches' := batches + {front};
    assert LowestOf(ReadyDeadlines(before, now), batches') by {
      forall b | b in ReadyDeadlines(before, now) && b !in batches'
        ensures front < b
      {
        var id :| id in before && before[id] == b;
        assert id in rest;
      }
    }
    assert forall i :: 0 <= i < |popped| ==> popped[i] in Group(before, batches) by {
      assert forall i :: 0 <= i < |popped| ==> popped[i] in Elements(popped);
    }
    assert forall j :: 0 <= j < |more| ==> more[j] in Group(rest, {front}) by {
      assert forall j :: 0 <= j < |more| ==> more[j] in Elements(more);
    }
    assert forall e :: e in Elements(popped + more) <==> e in Elements(popped) || e in Elements(more);
    assert Group(before, batches') == Group(before, batches) + Group(rest, {front}) by {
      forall e | e in Group(before, batches')
        ensures e in Group(before, batches) || e in Group(rest, {front})
      {
        assert e.id in before && e.deadline == before[e.id];
        assert e.deadline !in batches ==> e.id in rest;
      }
    }
    assert after == Without(before, batches');
  }

  lemma {:induction false} DistinctDeadlines(es: seq<Entry>)
    ensures |set k | 0 <= k < |es| :: es[k].deadline| <= |es|
  {
    var all := set k | 0 <= k < |es| :: es[k].deadline;
    if es == [] {
      assert all == {};
    } else {
      var last := |es| - 1;
      var init := es[..last];
      DistinctDeadlines(init);
      var fewer := set k | 0 <= k < |init| :: init[k].deadline;
      assert all == fewer + {es[last].deadline} by {
        assert forall k :: 0 <= k < last ==> es[k] == init[k];
      }
    }
  }

  lemma {:induction false} SortedSize(s: seq<Entry>)
    requires Sorted(s)
    ensures |Elements(s)| == |s|
  {
    if s == [] {
      assert Elements(s) == {};
    } else {
      SortedSize(s[1..]);
      assert Elements(s) == {s[0]} + Elements(s[1..]) by {
        assert s == [s[0]] + s[1..];
      }
      assert s[0] !in Elements(s[1..]);
    }
  }
}
