/** The async semaphore (include/voris/io/async_semaphore.hpp). */
module AsyncSemaphores {
  import opened Common
  import opened AsyncWaiters

  const MAX_PERMITS: nat := 0xffff_ffff_ffff_ffff

  /**
   The semaphore with its operations and its history: what callers released, how many
   successes they were handed, and what saturation discarded. The first two are written
   by `Step` alone, from the calls and their answers.
   */
  datatype Semaphore = Semaphore(
    permits: nat, maxWaiters: nat, queue: seq<nat>, alive: bool, waiters: Waiters, nextTicket: nat,
    initial: nat, released: nat, granted: nat, lost: nat)

  function Initial(permits: nat, maxWaiters: nat): Semaphore {
    Semaphore(permits, maxWaiters, [], true, map[], 1, permits, 0, 0, 0)
  }

  function Put(s: Semaphore, w: nat, x: Waiter): Semaphore {
    s.(waiters := s.waiters[w := x])
  }

  // Releasing

  function AddPermits(s: Semaphore, n: nat): Semaphore {
    if n > MAX_PERMITS - s.permits then
      s.(permits := MAX_PERMITS, lost := s.lost + (n - (MAX_PERMITS - s.permits)))
    else s.(permits := s.permits + n)
  }

  /** The front operation with its permit: complete, reserved, and on its way to the scheduler. */
  function Granted(x: Waiter): Waiter {
    Completed(x, Ok(())).(enqueued := false, reserved := true, scheduled := true)
  }

  function GrantFront(s: Semaphore): Semaphore
    requires s.queue != [] && s.queue[0] in s.waiters
  {
    var w := s.queue[0];
    Put(s, w, Granted(s.waiters[w])).(queue := s.queue[1..])
  }

  predicate Known(s: Semaphore) {
    forall i :: 0 <= i < |s.queue| ==> s.queue[i] in s.waiters
  }

  /** The first `k` operations in the queue have got a permit each. */
  function Served(s: Semaphore, k: nat): Semaphore
    requires Known(s) && k <= |s.queue|
  {
    s.(waiters := Taken(s.waiters, s.queue, k, Granted), queue := s.queue[k..])
  }

  /** Permits go to the front of the queue in order, one each, and what is left joins the free permits. */
  function HandOut(s: Semaphore, n: nat): Semaphore
    requires Known(s)
  {
    var k := Min(n, |s.queue|);
    AddPermits(Served(s, k), n - k)
  }

  function Release(s: Semaphore, n: nat): Semaphore
    requires Known(s)
  {
    if !s.alive || n == 0 then s else HandOut(s, n)
  }

  // Acquiring

  function TryAcquire(s: Semaphore): (Semaphore, VoidResult) {
    if !s.alive then (s, Err(InvalidState))
    else if s.permits == 0 then (s, Err(ResourceExhausted))
    else (s.(permits := s.permits - 1), Ok(()))
  }

  function Create(s: Semaphore, w: nat): Semaphore {
    Put(s, w, NEW_WAITER)
  }

  /** `try_complete_immediate` completes the operation, or reports that it must wait. */
  function TryImmediate(s: Semaphore, w: nat): (Semaphore, bool)
    requires w in s.waiters
  {
    var x := s.waiters[w];
    if x.detached || x.result.Some? then (s, true)
    else if !x.owned || !s.alive then (Put(s, w, Completed(x, Err(InvalidState)).(owned := false)), true)
    else if s.permits != 0 then
      (Put(s, w, Completed(x, Ok(())).(owned := false)).(permits := s.permits - 1), true)
    else if |s.queue| >= s.maxWaiters then (Put(s, w, Completed(x, Err(ResourceExhausted)).(owned := false)), true)
    else (s, false)
  }

  /** `await_resume`: the result goes to the caller, with the reserved permit if there is one. */
  function Finish(s: Semaphore, w: nat): Semaphore
    requires w in s.waiters
  {
    Put(s, w, Observed(s.waiters[w]))
  }

  function Enqueue(s: Semaphore, w: nat): Semaphore
    requires w in s.waiters
  {
    Put(s, w, s.waiters[w].(suspended := true, enqueued := true, ticket := s.nextTicket)).(
      queue := s.queue + [w], nextTicket := s.nextTicket + 1)
  }

  /** `co_await`: complete at once, fail without a scheduler, or join the queue. */
  function Await(s: Semaphore, w: nat, scheduler: bool): Semaphore
    requires w in s.waiters
  {
    var (s1, done) := TryImmediate(s, w);
    if Empty(s.waiters[w]) then s
    else if done then Finish(s1, w)
    else if !scheduler then Finish(Put(s, w, Completed(s.waiters[w], Err(InvalidState)).(owned := false)), w)
    else Enqueue(s, w)
  }

  /** The scheduler runs the job that resumes an operation. */
  function Resume(s: Semaphore, w: nat): Semaphore
    requires w in s.waiters
  {
    var x := s.waiters[w];
    var s1 := Put(s, w, x.(scheduled := false));
    if x.detached || x.observing || !x.suspended then s1 else Finish(s1, w)
  }

  /** The operation is destroyed: it leaves the queue, or gives its reserved permit back. */
  function Detach(s: Semaphore, w: nat): Semaphore
    requires w in s.waiters && Known(s)
  {
    var x := s.waiters[w];
    if x.observing then s
    else
      var gone := x.(detached := true, suspended := false, owned := false);
      if !x.owned || !s.alive then Put(s, w, gone)
      else if x.enqueued then Put(s, w, gone.(enqueued := false)).(queue := Without(s.queue, w))
      else if x.reserved then Release(Put(s, w, gone.(reserved := false)), 1)
      else Put(s, w, gone)
  }

  /** A queued operation, resolved by the destruction of the semaphore. */
  function Refused(x: Waiter): Waiter {
    Completed(x, Err(InvalidState)).(enqueued := false, owned := false, scheduled := true)
  }

  /** The first `k` operations in the queue are resolved with an error, each with a scheduled resume. */
  function RefusedFirst(s: Semaphore, k: nat): Semaphore
    requires k <= |s.queue|
  {
    s.(waiters := Taken(s.waiters, s.queue, k, Refused), queue := s.queue[k..])
  }

  function Destroy(s: Semaphore): Semaphore {
    if s.alive then RefusedFirst(s, |s.queue|).(alive := false) else s
  }

  // Steps

  datatype Event =
    | NewEvent(w: nat)
    | AwaitEvent(w: nat, scheduler: bool)
    | ResumeEvent(w: nat)
    | DetachEvent(w: nat)
    | TryAcquireEvent
    | ReleaseEvent(n: nat)
    | DestroyEvent

  /** A suspended operation is not awaited again, and none is destroyed twice; the scheduler runs the jobs it was given. */
  predicate Possible(s: Semaphore, e: Event) {
    && Known(s)
    && match e
       case NewEvent(w) => w !in s.waiters
       case AwaitEvent(w, _) => w in s.waiters && !s.waiters[w].suspended
       case ResumeEvent(w) => w in s.waiters && s.waiters[w].scheduled
       case DetachEvent(w) => w in s.waiters && !s.waiters[w].detached
       case _ => true
  }

  /** Counting the success that a call has handed out. */
  function Counted(s: Semaphore, success: bool): Semaphore {
    if success then s.(granted := s.granted + 1) else s
  }

  /** The history counts what callers release and the successes they are handed. */
  function Step(s: Semaphore, e: Event): Semaphore
    requires Possible(s, e)
  {
    match e
    case NewEvent(w) => Create(s, w)
    case AwaitEvent(w, scheduler) =>
      var s' := Await(s, w, scheduler);
      Counted(s', Obtained(s.waiters, s'.waiters, w))
    case ResumeEvent(w) =>
      var s' := Resume(s, w);
      Counted(s', Obtained(s.waiters, s'.waiters, w))
    case DetachEvent(w) => Detach(s, w)
    case TryAcquireEvent =>
      var (s', r) := TryAcquire(s);
      Counted(s', r.Ok?)
    case ReleaseEvent(n) => Release(s, n).(released := s.released + n)
    case DestroyEvent => Destroy(s)
  }

  // Invariant

  function Reserved(s: Semaphore): set<nat> {
    set w | w in s.waiters && s.waiters[w].reserved
  }

  predicate RecordOk(x: Waiter) {
    ResumeOk(x) && (x.scheduled ==> x.result.Some?)
  }

  ghost predicate Records(ws: Waiters) {
    forall w :: w in ws ==> RecordOk(ws[w])
  }

  /** Exactly the suspended operations with a success have a permit reserved. */
  predicate ReservedOk(x: Waiter) {
    && (x.reserved ==>
          x.owned && x.suspended && x.result == Some(Ok(())) && !x.detached && !x.observing && x.scheduled && !x.enqueued)
    && (x.suspended && x.result == Some(Ok(())) ==> x.reserved)
  }

  /** While operations wait there are no permits, and never more of them wait than allowed. */
  ghost predicate Core(s: Semaphore) {
    && QueueOk(s.waiters, s.queue, s.nextTicket)
    && Records(s.waiters)
    && NoOvertaking(s.waiters, s.queue, s.nextTicket)
    && s.permits <= MAX_PERMITS && |s.queue| <= s.maxWaiters
    && (s.queue != [] ==> s.alive && s.permits == 0)
    && (s.alive ==> forall w :: w in s.waiters ==> ReservedOk(s.waiters[w]))
  }

  /** `extra` permits are in the hands of a call that is still under way. */
  ghost predicate Ledger(s: Semaphore, extra: nat) {
    s.alive ==>
      && s.permits + |Reserved(s)| + s.granted + s.lost + extra == s.initial + s.released
      && (s.lost > 0 ==> s.initial + s.released > MAX_PERMITS)
  }

  ghost predicate Inv(s: Semaphore) {
    Core(s) && Ledger(s, 0)
  }

  lemma CountedKeepsInv(s: Semaphore, success: bool)
    requires Core(s) && Ledger(s, if success then 1 else 0)
    ensures Inv(Counted(s, success))
  {
    assert Reserved(Counted(s, success)) == Reserved(s);
  }

  lemma InitialInv(permits: nat, maxWaiters: nat)
    requires permits <= MAX_PERMITS
    ensures Inv(Initial(permits, maxWaiters))
  {
    assert Reserved(Initial(permits, maxWaiters)) == {};
  }

  lemma NotQueued(s: Semaphore, w: nat)
    requires QueueOk(s.waiters, s.queue, s.nextTicket) && (w in s.waiters ==> !s.waiters[w].enqueued)
    ensures w !in s.queue
  {
    forall i | 0 <= i < |s.queue|
      ensures s.queue[i] != w
    {
      assert QueuedAt(s.waiters, s.queue[i], s.nextTicket);
    }
  }

  lemma CoreKnown(s: Semaphore)
    requires QueueOk(s.waiters, s.queue, s.nextTicket)
    ensures Known(s)
  {
    forall i | 0 <= i < |s.queue|
      ensures s.queue[i] in s.waiters
    {
      assert QueuedAt(s.waiters, s.queue[i], s.nextTicket);
    }
  }

  /** Changing an operation outside the queue. */
  lemma PutKeepsCore(s: Semaphore, w: nat, x: Waiter)
    requires Core(s) && (w in s.waiters ==> !s.waiters[w].enqueued) && !x.enqueued && RecordOk(x)
    requires (s.alive ==> ReservedOk(x)) && x.ticket == if w in s.waiters then s.waiters[w].ticket else 0
    requires x.ticket > 0 && IsServed(x) ==> IsServed(s.waiters[w])
    ensures Core(Put(s, w, x))
  {
    NotQueued(s, w);
    OutsideQueue(s.waiters, s.queue, s.nextTicket, w, x);
    OutsideOrder(s.waiters, s.queue, s.nextTicket, w, x);
  }

  lemma PutReserved(s: Semaphore, w: nat, x: Waiter)
    ensures Reserved(Put(s, w, x)) == if x.reserved then Reserved(s) + {w} else Reserved(s) - {w}
    ensures |Reserved(Put(s, w, x))| == |Reserved(s)|
              + (if x.reserved && w !in Reserved(s) then 1 else if !x.reserved && w in Reserved(s) then -1 else 0)
  {
    assert Reserved(Put(s, w, x)) == if x.reserved then Reserved(s) + {w} else Reserved(s) - {w};
  }

  ghost predicate Queue(s: Semaphore) {
    QueueOk(s.waiters, s.queue, s.nextTicket)
  }

  /** Serving one more operation is granting the front one. */
  lemma ServedNext(s: Semaphore, k: nat)
    requires Queue(s) && Known(s) && k < |s.queue|
    ensures var r := Served(s, k);
            && r.queue[0] == s.queue[k] && s.queue[k] in r.waiters && CanResume(r.waiters[s.queue[k]])
            && Served(s, k + 1) == GrantFront(r)
  {
    TakenNext(s.waiters, s.queue, s.nextTicket, k, Granted);
  }

  lemma ServedRecords(s: Semaphore, k: nat)
    requires Core(s) && s.alive && Known(s) && k <= |s.queue|
    ensures forall w :: w in s.waiters ==> RecordOk(Served(s, k).waiters[w]) && ReservedOk(Served(s, k).waiters[w])
  {
    forall w | w in s.waiters
      ensures RecordOk(Served(s, k).waiters[w]) && ReservedOk(Served(s, k).waiters[w])
    {
      assert RecordOk(s.waiters[w]) && ReservedOk(s.waiters[w]);
      QueuedHaveNoResult(s, w);
    }
  }

  lemma ServedReserved(s: Semaphore, k: nat)
    requires Queue(s) && Known(s) && k <= |s.queue|
    ensures |Reserved(Served(s, k))| == |Reserved(s)| + k
  {
    QueueDistinct(s.waiters, s.queue, s.nextTicket);
    DistinctCount(s.queue, k);
    FirstIdsPrefix(s.queue, k);
    var first := FirstIds(s.queue, k);
    forall w | w in first
      ensures w in s.waiters && !s.waiters[w].reserved
    {
      QueuedHaveNoResult(s, w);
    }
    assert Reserved(Served(s, k)) == Reserved(s) + first;
    assert Reserved(s) !! first;
  }

  lemma ServedKeepsCore(s: Semaphore, k: nat)
    requires Core(s) && s.alive && Known(s) && k <= |s.queue|
    ensures Core(Served(s, k))
  {
    TakenQueue(s.waiters, s.queue, s.nextTicket, k, Granted);
    TakenOrder(s.waiters, s.queue, s.nextTicket, k, Granted);
    ServedRecords(s, k);
  }

  lemma AddPermitsKeepsLedger(s: Semaphore, n: nat)
    requires Ledger(s, n) && s.permits <= MAX_PERMITS
    ensures Ledger(AddPermits(s, n), 0)
  {
    assert Reserved(AddPermits(s, n)) == Reserved(s);
  }

  /** Adding permits to what was served changes the permits only. */
  lemma HandOutShape(s: Semaphore, n: nat)
    requires Known(s) && s.permits <= MAX_PERMITS
    ensures var k := Min(n, |s.queue|);
            && HandOut(s, n) == Served(s, k).(permits := HandOut(s, n).permits, lost := HandOut(s, n).lost)
            && HandOut(s, n).permits <= MAX_PERMITS
            && (HandOut(s, n).queue != [] ==> HandOut(s, n).permits == s.permits)
  {
  }

  lemma PermitsKeepCore(s: Semaphore, s': Semaphore)
    requires s' == s.(permits := s'.permits, lost := s'.lost)
    requires s'.permits <= MAX_PERMITS && (s.queue != [] ==> s'.permits == 0)
    ensures Core(s) ==> Core(s')
  {
  }

  lemma HandOutKeepsCore(s: Semaphore, n: nat)
    requires s.alive && Known(s) && s.permits <= MAX_PERMITS && (s.queue != [] ==> s.permits == 0)
    ensures Core(s) ==> Core(HandOut(s, n))
  {
    if Core(s) {
      HandOutShape(s, n);
      ServedKeepsCore(s, Min(n, |s.queue|));
      PermitsKeepCore(Served(s, Min(n, |s.queue|)), HandOut(s, n));
    }
  }

  lemma HandOutKeepsLedger(s: Semaphore, n: nat)
    requires s.alive && Known(s)
    ensures Core(s) && Ledger(s, n) ==> Ledger(HandOut(s, n), 0)
  {
    if Core(s) && Ledger(s, n) {
      var k := Min(n, |s.queue|);
      ServedReserved(s, k);
      AddPermitsKeepsLedger(Served(s, k), n - k);
    }
  }

  lemma HandOutKeepsInv(s: Semaphore, n: nat)
    requires s.alive && Known(s)
    ensures Core(s) && Ledger(s, n) ==> Inv(HandOut(s, n))
  {
    if Core(s) {
      HandOutKeepsCore(s, n);
      HandOutKeepsLedger(s, n);
    }
  }

  /** Releasing puts the permits into the ledger before they are handed out. */
  lemma ReleasedLedger(s: Semaphore, n: nat)
    ensures var s1 := s.(released := s.released + n);
            (Core(s) ==> Core(s1)) && (Ledger(s, 0) ==> Ledger(s1, n))
  {
    assert Reserved(s.(released := s.released + n)) == Reserved(s);
  }

  lemma ReleaseRecorded(s: Semaphore, n: nat)
    requires Possible(s, ReleaseEvent(n))
    ensures Step(s, ReleaseEvent(n)) ==
            (if s.alive && n != 0 then HandOut(s.(released := s.released + n), n) else s.(released := s.released + n))
  {
  }

  lemma ReleaseKeepsInv(s: Semaphore, n: nat)
    requires Possible(s, ReleaseEvent(n))
    ensures Inv(s) ==> Inv(Step(s, ReleaseEvent(n)))
  {
    if Inv(s) {
      ReleaseRecorded(s, n);
      ReleasedLedger(s, n);
      HandOutWhenAlive(s.(released := s.released + n), n);
    }
  }

  lemma HandOutWhenAlive(s: Semaphore, n: nat)
    requires Known(s) && Core(s) && Ledger(s, n)
    ensures Inv(if s.alive && n != 0 then HandOut(s, n) else s)
  {
    if s.alive {
      HandOutKeepsInv(s, n);
    }
  }

  lemma CreateKeepsInv(s: Semaphore, w: nat)
    requires Inv(s) && Possible(s, NewEvent(w))
    ensures Inv(Step(s, NewEvent(w)))
  {
    PutKeepsCore(s, w, NEW_WAITER);
    PutReserved(s, w, NEW_WAITER);
  }

  lemma TryAcquireKeepsInv(s: Semaphore)
    requires Inv(s) && Possible(s, TryAcquireEvent)
    ensures Inv(Step(s, TryAcquireEvent))
  {
    assert Reserved(Step(s, TryAcquireEvent)) == Reserved(s);
  }

  /** Completing a fresh operation at once, with or without a permit. */
  lemma FinishFreshKeepsInv(s: Semaphore, w: nat, result: VoidResult)
    requires Inv(s) && Fresh(s.waiters, w) && (result.Ok? ==> s.alive && s.permits > 0 && s.queue == [])
    ensures var x := Completed(s.waiters[w], result).(owned := false);
            var s1 := if result.Ok? then Put(s, w, x).(permits := s.permits - 1) else Put(s, w, x);
            Inv(Counted(Finish(s1, w), result.Ok?)) && Finish(s1, w).waiters[w].result == Some(result)
  {
    var x := Completed(s.waiters[w], result).(owned := false);
    var y := Observed(x);
    assert s.waiters[w := x][w := y] == s.waiters[w := y];
    PutKeepsCore(s, w, y);
    PutReserved(s, w, y);
    var s1 := if result.Ok? then Put(s, w, x).(permits := s.permits - 1) else Put(s, w, x);
    assert Reserved(Counted(Finish(s1, w), result.Ok?)) == Reserved(Put(s, w, y));
  }

  lemma EnqueueKeepsInv(s: Semaphore, w: nat)
    requires Inv(s) && Fresh(s.waiters, w) && s.alive && s.permits == 0 && |s.queue| < s.maxWaiters
    ensures Inv(Enqueue(s, w))
  {
    var x := s.waiters[w].(suspended := true, enqueued := true, ticket := s.nextTicket);
    NotQueued(s, w);
    PushBack(s.waiters, s.queue, s.nextTicket, w, x);
    OrderPushBack(s.waiters, s.queue, s.nextTicket, w, x);
    PutReserved(s, w, x);
    assert Reserved(Enqueue(s, w)) == Reserved(Put(s, w, x));
  }

  lemma AwaitKeepsInv(s: Semaphore, w: nat, scheduler: bool)
    requires Inv(s) && Possible(s, AwaitEvent(w, scheduler))
    ensures Inv(Step(s, AwaitEvent(w, scheduler)))
  {
    assert RecordOk(s.waiters[w]);
    if Empty(s.waiters[w]) {
      return;
    }
    if !s.alive || s.permits != 0 || |s.queue| >= s.maxWaiters || !scheduler {
      FinishFreshKeepsInv(s, w, if !s.alive then Err(InvalidState) else if s.permits != 0 then Ok(())
                                else if |s.queue| >= s.maxWaiters then Err(ResourceExhausted) else Err(InvalidState));
    } else {
      EnqueueKeepsInv(s, w);
    }
  }

  lemma ResumeKeepsInv(s: Semaphore, w: nat)
    requires Inv(s) && Possible(s, ResumeEvent(w))
    ensures Inv(Step(s, ResumeEvent(w)))
  {
    var x := s.waiters[w];
    assert RecordOk(x) && (s.alive ==> ReservedOk(x));
    var y := x.(scheduled := false);
    if x.detached || x.observing || !x.suspended {
      PutKeepsCore(s, w, y);
      PutReserved(s, w, y);
    } else {
      var z := Observed(y);
      assert s.waiters[w := y][w := z] == s.waiters[w := z];
      PutKeepsCore(s, w, z);
      PutReserved(s, w, z);
      var s' := Resume(s, w);
      assert s' == Put(s, w, z);
      CountedKeepsInv(s', x.result == Some(Ok(())));
    }
  }

  lemma LeaveKeepsCore(s: Semaphore, w: nat, gone: Waiter)
    requires Core(s) && w in s.queue && RecordOk(gone) && !gone.enqueued && !gone.reserved
    requires w in s.waiters && gone.ticket == s.waiters[w].ticket && !IsServed(gone)
    ensures Core(Put(s, w, gone).(queue := Without(s.queue, w)))
  {
    Leave(s.waiters, s.queue, s.nextTicket, w, gone);
    OrderLeave(s.waiters, s.queue, s.nextTicket, w, gone);
  }

  lemma LeaveKeepsInv(s: Semaphore, w: nat)
    requires Inv(s) && w in s.waiters && s.waiters[w].enqueued && Known(s)
    ensures Inv(Detach(s, w))
  {
    var x := s.waiters[w];
    QueuedHaveNoResult(s, w);
    var gone := x.(detached := true, suspended := false, owned := false, enqueued := false);
    LeaveKeepsCore(s, w, gone);
    PutReserved(s, w, gone);
    assert Detach(s, w) == Put(s, w, gone).(queue := Without(s.queue, w));
    assert Reserved(Detach(s, w)) == Reserved(Put(s, w, gone));
  }

  /** An operation that is destroyed while a permit is reserved for it. */
  function GivenBack(x: Waiter): Waiter {
    x.(detached := true, suspended := false, owned := false, reserved := false)
  }

  lemma GiveBackKeepsInv(s: Semaphore, w: nat)
    requires Inv(s) && Possible(s, DetachEvent(w)) && s.alive && s.waiters[w].reserved
    ensures Inv(Step(s, DetachEvent(w)))
  {
    var gone := GivenBack(s.waiters[w]);
    assert RecordOk(s.waiters[w]) && ReservedOk(s.waiters[w]);
    PutKeepsCore(s, w, gone);
    PutReserved(s, w, gone);
    CoreKnown(Put(s, w, gone));
    HandOutKeepsInv(Put(s, w, gone), 1);
  }

  lemma DetachKeepsInv(s: Semaphore, w: nat)
    requires Possible(s, DetachEvent(w))
    ensures Inv(s) ==> Inv(Step(s, DetachEvent(w)))
  {
    if Inv(s) {
      var x := s.waiters[w];
      assert RecordOk(x) && (s.alive ==> ReservedOk(x));
      if x.enqueued {
        LeaveKeepsInv(s, w);
      } else if s.alive && x.reserved {
        GiveBackKeepsInv(s, w);
      } else if !x.observing {
        var gone := x.(detached := true, suspended := false, owned := false);
        PutKeepsCore(s, w, gone);
        PutReserved(s, w, gone);
      }
    }
  }

  function RefuseFront(s: Semaphore): Semaphore
    requires s.queue != [] && s.queue[0] in s.waiters
  {
    Put(s, s.queue[0], Refused(s.waiters[s.queue[0]])).(queue := s.queue[1..])
  }

  /** Resolving one more operation is refusing the front one. */
  lemma RefusedNext(s: Semaphore, k: nat)
    requires Queue(s) && k < |s.queue|
    ensures var r := RefusedFirst(s, k);
            && r.queue[0] == s.queue[k] && s.queue[k] in r.waiters && CanResume(r.waiters[s.queue[k]])
            && RefusedFirst(s, k + 1) == RefuseFront(r)
  {
    TakenNext(s.waiters, s.queue, s.nextTicket, k, Refused);
  }

  lemma RefusedRecords(s: Semaphore, k: nat)
    requires Core(s) && k <= |s.queue|
    ensures forall w :: w in s.waiters ==> RecordOk(RefusedFirst(s, k).waiters[w])
  {
    forall w | w in s.waiters
      ensures RecordOk(RefusedFirst(s, k).waiters[w])
    {
      assert RecordOk(s.waiters[w]);
      QueuedHaveNoResult(s, w);
    }
  }

  lemma DestroyKeepsInv(s: Semaphore)
    requires Inv(s) && Possible(s, DestroyEvent)
    ensures Inv(Step(s, DestroyEvent))
  {
    if s.alive {
      var k := |s.queue|;
      TakenQueue(s.waiters, s.queue, s.nextTicket, k, Refused);
      TakenOrder(s.waiters, s.queue, s.nextTicket, k, Refused);
      RefusedRecords(s, k);
    }
  }

  // Runs

  lemma StepKeepsInv(s: Semaphore, e: Event)
    requires Possible(s, e)
    ensures Inv(s) ==> Inv(Step(s, e))
  {
    if Inv(s) {
      match e {
        case NewEvent(w) => CreateKeepsInv(s, w);
        case AwaitEvent(w, scheduler) => AwaitKeepsInv(s, w, scheduler);
        case ResumeEvent(w) => ResumeKeepsInv(s, w);
        case DetachEvent(w) => DetachKeepsInv(s, w);
        case TryAcquireEvent => TryAcquireKeepsInv(s);
        case ReleaseEvent(n) => ReleaseKeepsInv(s, n);
        case DestroyEvent => DestroyKeepsInv(s);
      }
    }
  }

  lemma InvKnown(s: Semaphore)
    ensures Inv(s) ==> Known(s)
  {
    if Inv(s) {
      CoreKnown(s);
    }
  }

  /** The same, and the queued operations stay known. */
  lemma StepStaysValid(s: Semaphore, e: Event)
    requires Possible(s, e)
    ensures Inv(s) ==> Inv(Step(s, e)) && Known(Step(s, e))
  {
    StepKeepsInv(s, e);
    InvKnown(Step(s, e));
  }

  ghost predicate PossibleRun(s: Semaphore, events: seq<Event>)
    decreases |events|
  {
    events == [] || (Possible(s, events[0]) && PossibleRun(Step(s, events[0]), events[1..]))
  }

  ghost function Run(s: Semaphore, events: seq<Event>): Semaphore
    requires PossibleRun(s, events)
    decreases |events|
  {
    if events == [] then s else Run(Step(s, events[0]), events[1..])
  }

  lemma {:induction false} RunKeepsInv(s: Semaphore, events: seq<Event>)
    requires Inv(s) && PossibleRun(s, events)
    ensures Inv(Run(s, events))
    decreases |events|
  {
    if events != [] {
      StepKeepsInv(s, events[0]);
      RunKeepsInv(Step(s, events[0]), events[1..]);
    }
  }

  /**
   In every run of a living semaphore no permit appears or disappears, except past
   the largest count: what was put in is free, reserved, or was handed to a caller as a
   success. Waiting operations mean no free permits, stay within the bound, stand in the
   order in which they joined, and are never overtaken.
   */
  lemma PermitsAreConserved(permits: nat, maxWaiters: nat, events: seq<Event>)
    requires permits <= MAX_PERMITS && PossibleRun(Initial(permits, maxWaiters), events)
    ensures var s := Run(Initial(permits, maxWaiters), events);
            && (s.alive ==>
                  s.permits + |Reserved(s)| + s.granted + s.lost == s.initial + s.released
                  && (s.initial + s.released <= MAX_PERMITS ==> s.lost == 0))
            && (s.queue != [] ==> s.permits == 0) && |s.queue| <= s.maxWaiters
            && (forall i, j :: 0 <= i < j < |s.queue| && s.queue[i] in s.waiters && s.queue[j] in s.waiters ==>
                  s.waiters[s.queue[i]].ticket < s.waiters[s.queue[j]].ticket)
            && (forall w, j :: w in s.waiters && s.waiters[w].ticket > 0 && s.waiters[w].result == Some(Ok(()))
                               && 0 <= j < |s.queue| && s.queue[j] in s.waiters ==>
                  s.waiters[w].ticket < s.waiters[s.queue[j]].ticket)
  {
    InitialInv(permits, maxWaiters);
    RunKeepsInv(Initial(permits, maxWaiters), events);
  }

  // Answers

  /** `try_acquire` succeeds exactly when the semaphore lives and has a permit, and otherwise changes nothing. */
  lemma TryAcquireAnswers(s: Semaphore)
    ensures var (s', r) := TryAcquire(s);
            && (r == Ok(()) <==> s.alive && s.permits > 0)
            && (r == Err(InvalidState) <==> !s.alive)
            && (r.Err? ==> s' == s)
            && (r.Ok? ==> s'.permits == s.permits - 1)
  {
  }

  /** What the caller of `co_await` is told, if anything. */
  function AwaitAnswer(s: Semaphore, w: nat, scheduler: bool): Option<VoidResult>
    requires w in s.waiters
  {
    var x := Await(s, w, scheduler).waiters[w];
    if Empty(s.waiters[w]) then Some(Err(InvalidState)) else if x.suspended then None else x.result
  }

  /**
   The answers of `co_await` on an operation that is not used up: a success exactly when there is a
   permit, `ResourceExhausted` exactly when there is none and the queue is full, no answer and a place at
   the end of the queue exactly when there is room and a scheduler, and `InvalidState` otherwise.
   */
  lemma AwaitAnswers(s: Semaphore, w: nat, scheduler: bool)
    requires Inv(s) && w in s.waiters && !s.waiters[w].suspended && !Empty(s.waiters[w])
    ensures var s' := Await(s, w, scheduler); var r := AwaitAnswer(s, w, scheduler);
            && (r == Some(Ok(())) <==> s.alive && s.permits > 0)
            && (r == Some(Err(ResourceExhausted)) <==> s.alive && s.permits == 0 && |s.queue| >= s.maxWaiters)
            && (r == Some(Err(InvalidState)) <==> !s.alive || (s.permits == 0 && |s.queue| < s.maxWaiters && !scheduler))
            && (r == None <==> s.alive && s.permits == 0 && |s.queue| < s.maxWaiters && scheduler)
            && s'.waiters[w].result == r && s'.waiters[w].suspended == r.None? && s'.waiters[w].observing == r.Some?
            && s'.queue == (if r.None? then s.queue + [w] else s.queue)
            && s'.permits == (if r == Some(Ok(())) then s.permits - 1 else s.permits)
            && forall v :: v in s.waiters && v != w ==> v in s'.waiters && s'.waiters[v] == s.waiters[v]
  {
    assert RecordOk(s.waiters[w]);
  }

  /** Releasing serves the front of the queue, one success and one scheduled resume each, and nobody else. */
  lemma ReleaseAnswers(s: Semaphore, n: nat, w: nat)
    requires Inv(s) && s.alive && Known(s) && w in s.waiters
    ensures var s' := Release(s, n); var k := Min(n, |s.queue|);
            && s'.queue == s.queue[k..] && s'.permits == Min(MAX_PERMITS, s.permits + (n - k)) && w in s'.waiters
            && s'.permits + s'.lost == s.permits + s.lost + (n - k)
            && (w in s.queue[..k] ==> s'.waiters[w].result == Some(Ok(())) && s'.waiters[w].scheduled && s'.waiters[w].suspended)
            && (w !in s.queue[..k] ==> s'.waiters[w] == s.waiters[w])
  {
    QueuedHaveNoResult(s, w);
    assert w in s.queue[..Min(n, |s.queue|)] ==> w in s.queue;
  }

  /** A scheduled resume hands a caller that still waits the result that the operation already has. */
  lemma ResumeAnswers(s: Semaphore, w: nat)
    requires Inv(s) && w in s.waiters && s.waiters[w].scheduled
    ensures var s' := Resume(s, w);
            && s.waiters[w].result.Some? && s'.waiters[w].result == s.waiters[w].result
            && !s'.waiters[w].suspended && (s.waiters[w].suspended ==> s'.waiters[w].observing)
            && s' == s.(waiters := s'.waiters)
  {
    assert RecordOk(s.waiters[w]);
  }

  /** No resume is lost: an operation that is still suspended waits in the queue or is with the scheduler, complete. */
  lemma SuspendedWillResume(permits: nat, maxWaiters: nat, events: seq<Event>, w: nat)
    requires permits <= MAX_PERMITS && PossibleRun(Initial(permits, maxWaiters), events)
    requires w in Run(Initial(permits, maxWaiters), events).waiters
    requires Run(Initial(permits, maxWaiters), events).waiters[w].suspended
    ensures var s := Run(Initial(permits, maxWaiters), events);
            (s.alive && w in s.queue) || (s.waiters[w].scheduled && s.waiters[w].result.Some?)
  {
    InitialInv(permits, maxWaiters);
    RunKeepsInv(Initial(permits, maxWaiters), events);
    var s := Run(Initial(permits, maxWaiters), events);
    assert RecordOk(s.waiters[w]);
  }

  /** Destroying the semaphore resolves every operation that still waits for a permit, with an error, and schedules it. */
  lemma DestroyResolvesQueued(s: Semaphore, w: nat)
    requires Inv(s) && s.alive && w in s.waiters && s.waiters[w].suspended
    ensures var x := Destroy(s).waiters[w];
            x.scheduled && x.result == if w in s.queue then Some(Err(InvalidState)) else s.waiters[w].result
    ensures s.waiters[w].result.None? <==> w in s.queue
  {
    assert RecordOk(s.waiters[w]) && s.queue[..|s.queue|] == s.queue;
    QueuedHaveNoResult(s, w);
  }

  /** A result, once there, stays, and an operation that is over stays over. */
  predicate Settled(x: Waiter, y: Waiter) {
    (x.result.Some? ==> y.result == x.result) && (x.observing ==> y.observing && !y.suspended)
  }

  lemma HandOutSettles(s: Semaphore, n: nat, w: nat)
    requires Core(s) && s.alive && Known(s) && w in s.waiters
    ensures w in HandOut(s, n).waiters && Settled(s.waiters[w], HandOut(s, n).waiters[w])
  {
    QueuedHaveNoResult(s, w);
    assert w in s.queue[..Min(n, |s.queue|)] ==> w in s.queue;
    assert RecordOk(s.waiters[w]);
  }

  lemma DetachSettles(s: Semaphore, v: nat, w: nat)
    requires Inv(s) && Known(s) && v in s.waiters && w in s.waiters
    ensures w in Detach(s, v).waiters && Settled(s.waiters[w], Detach(s, v).waiters[w])
  {
    var x := s.waiters[v];
    assert RecordOk(x) && RecordOk(s.waiters[w]) && (s.alive ==> ReservedOk(x));
    if !x.observing && x.owned && s.alive && !x.enqueued && x.reserved {
      var gone := x.(detached := true, suspended := false, owned := false, reserved := false);
      PutKeepsCore(s, v, gone);
      CoreKnown(Put(s, v, gone));
      HandOutSettles(Put(s, v, gone), 1, w);
    }
  }

  lemma DestroySettles(s: Semaphore, w: nat)
    requires Inv(s) && Known(s) && w in s.waiters
    ensures w in Destroy(s).waiters && Settled(s.waiters[w], Destroy(s).waiters[w])
  {
    assert RecordOk(s.waiters[w]);
    if s.alive {
      QueuedHaveNoResult(s, w);
      assert s.queue[..|s.queue|] == s.queue;
    }
  }

  lemma AwaitSettles(s: Semaphore, v: nat, scheduler: bool, w: nat)
    requires v in s.waiters && !s.waiters[v].suspended && w in s.waiters && RecordOk(s.waiters[v]) && RecordOk(s.waiters[w])
    ensures w in Await(s, v, scheduler).waiters && Settled(s.waiters[w], Await(s, v, scheduler).waiters[w])
  {
  }

  lemma ResumeSettles(s: Semaphore, v: nat, w: nat)
    requires v in s.waiters && w in s.waiters && RecordOk(s.waiters[w])
    ensures w in Resume(s, v).waiters && Settled(s.waiters[w], Resume(s, v).waiters[w])
  {
  }

  /** Over every step, the first result of an operation is its only one, and it resumes at most once. */
  lemma StepSettles(s: Semaphore, e: Event, w: nat)
    requires Inv(s) && Possible(s, e) && w in s.waiters
    ensures w in Step(s, e).waiters && Settled(s.waiters[w], Step(s, e).waiters[w])
  {
    assert RecordOk(s.waiters[w]);
    match e
    case AwaitEvent(v, scheduler) =>
      assert RecordOk(s.waiters[v]);
      AwaitSettles(s, v, scheduler, w);
    case ResumeEvent(v) => ResumeSettles(s, v, w);
    case ReleaseEvent(n) =>
      if s.alive && n != 0 {
        HandOutSettles(s.(released := s.released + n), n, w);
      }
    case DetachEvent(v) => DetachSettles(s, v, w);
    case DestroyEvent => DestroySettles(s, w);
    case _ =>
  }

  lemma QueuedHaveNoResult(s: Semaphore, w: nat)
    requires QueueOk(s.waiters, s.queue, s.nextTicket)
    ensures w in s.queue ==> w in s.waiters && QueuedOk(s.waiters[w])
  {
    if w in s.queue {
      var i :| 0 <= i < |s.queue| && s.queue[i] == w;
      assert QueuedAt(s.waiters, s.queue[i], s.nextTicket);
    }
  }

  /** A step counts exactly the success that its caller is told. */
  lemma AwaitCounts(s: Semaphore, w: nat, scheduler: bool)
    requires Inv(s) && Possible(s, AwaitEvent(w, scheduler))
    ensures Step(s, AwaitEvent(w, scheduler)) ==
            Counted(Await(s, w, scheduler), AwaitAnswer(s, w, scheduler) == Some(Ok(())))
  {
    assert RecordOk(s.waiters[w]);
  }

  lemma ResumeCounts(s: Semaphore, w: nat)
    requires Inv(s) && Possible(s, ResumeEvent(w))
    ensures s.waiters[w].suspended ==> CanResume(s.waiters[w]) && !s.waiters[w].observing
    ensures Step(s, ResumeEvent(w)) ==
            Counted(Resume(s, w), s.waiters[w].suspended && s.waiters[w].result == Some(Ok(())))
  {
    assert RecordOk(s.waiters[w]);
  }

  lemma DetachQueue(s: Semaphore, w: nat)
    requires Queue(s) && w in s.waiters
    ensures !s.waiters[w].enqueued ==> QueueOk(s.waiters[w := GivenBack(s.waiters[w])], s.queue, s.nextTicket)
  {
    if !s.waiters[w].enqueued {
      NotQueued(s, w);
      OutsideQueue(s.waiters, s.queue, s.nextTicket, w, GivenBack(s.waiters[w]));
    }
  }

  class AsyncSemaphore {
    var permits: nat
    const maxWaiters: nat
    var queue: seq<nat>
    var alive: bool
    var waiters: Waiters
    var nextTicket: nat
    ghost const initial: nat
    ghost var released: nat
    ghost var granted: nat
    ghost var lost: nat

    ghost function State(): Semaphore
      reads this
    {
      Semaphore(permits, maxWaiters, queue, alive, waiters, nextTicket, initial, released, granted, lost)
    }

    ghost predicate Valid()
      reads this
    {
      Inv(State()) && Known(State())
    }

    constructor (permits: nat, maxWaiters: nat)
      requires permits <= MAX_PERMITS
      ensures Valid() && State() == Initial(permits, maxWaiters)
    {
      this.permits, this.maxWaiters, queue, alive, waiters := permits, maxWaiters, [], true, map[];
      nextTicket, initial, released, granted, lost := 1, permits, 0, 0, 0;
      new;
      InitialInv(permits, maxWaiters);
    }

    method TryAcquirePermit() returns (r: VoidResult)
      requires Valid()
      modifies this
      ensures Valid() && State() == Step(old(State()), TryAcquireEvent) && r == TryAcquire(old(State())).1
    {
      StepStaysValid(State(), TryAcquireEvent);
      r := TakePermit();
      granted := granted + if r == Ok(()) then 1 else 0;
    }

    method TakePermit() returns (r: VoidResult)
      modifies this`permits
      ensures (State(), r) == TryAcquire(old(State()))
    {
      if !alive {
        return Err(InvalidState);
      }
      if permits == 0 {
        return Err(ResourceExhausted);
      }
      permits := permits - 1;
      return Ok(());
    }

    method TryCompleteImmediate(w: nat) returns (done: bool)
      requires w in waiters
      modifies this
      ensures (State(), done) == TryImmediate(old(State()), w)
    {
      var x := waiters[w];
      if x.detached || x.result.Some? {
        return true;
      }
      if !x.owned || !alive {
        waiters := waiters[w := Completed(x, Err(InvalidState)).(owned := false)];
        return true;
      }
      if permits != 0 {
        permits := permits - 1;
        waiters := waiters[w := Completed(x, Ok(())).(owned := false)];
        return true;
      }
      if |queue| >= maxWaiters {
        waiters := waiters[w := Completed(x, Err(ResourceExhausted)).(owned := false)];
        return true;
      }
      return false;
    }

    /** `await_resume`. */
    method Observe(w: nat)
      requires w in waiters
      modifies this
      ensures State() == Finish(old(State()), w)
    {
      waiters := waiters[w := waiters[w].(observing := true, suspended := false, owned := false, reserved := false)];
    }

    /** `co_await` of an acquire operation that is not suspended: the result, unless it now waits. */
    method AwaitAcquire(w: nat, scheduler: bool) returns (r: Option<VoidResult>)
      requires Valid() && w in waiters && !waiters[w].suspended
      modifies this
      ensures Valid() && State() == Step(old(State()), AwaitEvent(w, scheduler))
      ensures r == AwaitAnswer(old(State()), w, scheduler)
    {
      StepStaysValid(State(), AwaitEvent(w, scheduler));
      AwaitCounts(State(), w, scheduler);
      r := AwaitOperation(w, scheduler);
      granted := granted + if r == Some(Ok(())) then 1 else 0;
    }

    method AwaitOperation(w: nat, scheduler: bool) returns (r: Option<VoidResult>)
      requires w in waiters
      modifies this
      ensures State() == Await(old(State()), w, scheduler) && r == AwaitAnswer(old(State()), w, scheduler)
    {
      if Empty(waiters[w]) {
        return Some(Err(InvalidState));
      }
      AwaitOrEnqueue(w, scheduler);
      return if waiters[w].suspended then None else waiters[w].result;
    }

    method AwaitOrEnqueue(w: nat, scheduler: bool)
      requires w in waiters && !Empty(waiters[w])
      modifies this
      ensures State() == Await(old(State()), w, scheduler)
    {
      var done := TryCompleteImmediate(w);
      if done {
        Observe(w);
        return;
      }
      if !scheduler {
        waiters := waiters[w := Completed(waiters[w], Err(InvalidState)).(owned := false)];
        Observe(w);
        return;
      }
      done := TryCompleteImmediate(w);
      assert !done;
      waiters := waiters[w := waiters[w].(suspended := true, enqueued := true, ticket := nextTicket)];
      queue := queue + [w];
      nextTicket := nextTicket + 1;
    }

    method AddPermitsSaturating(n: nat)
      requires permits <= MAX_PERMITS
      modifies this`permits, this`lost
      ensures State() == AddPermits(old(State()), n)
    {
      if n > MAX_PERMITS - permits {
        lost := lost + (n - (MAX_PERMITS - permits));
        permits := MAX_PERMITS;
        return;
      }
      permits := permits + n;
    }

    /** One round of the loop in `release_to_state`; the front operation can always resume. */
    method GrantNext()
      requires queue != [] && queue[0] in waiters && CanResume(waiters[queue[0]])
      modifies this
      ensures State() == GrantFront(old(State()))
    {
      var w := queue[0];
      var x := waiters[w].(enqueued := false);
      queue := queue[1..];
      x := x.(reserved := true);
      x := Completed(x, Ok(()));
      waiters := waiters[w := x.(scheduled := true)];
    }

    /** `release_to_state` on a living semaphore. */
    method HandOutPermits(n: nat)
      requires Queue(State()) && Known(State()) && permits <= MAX_PERMITS
      modifies this
      ensures State() == HandOut(old(State()), n)
    {
      ghost var before := State();
      var remaining := n;
      ghost var k: nat := 0;
      TakenNone(waiters, queue, Granted);
      while remaining != 0 && queue != []
        invariant k + remaining == n && k <= |before.queue| && State() == Served(before, k)
        decreases remaining
      {
        ServedNext(before, k);
        GrantNext();
        remaining, k := remaining - 1, k + 1;
      }
      assert k == Min(n, |before.queue|);
      AddPermitsSaturating(remaining);
    }

    method ReleasePermits(n: nat)
      requires Valid()
      modifies this
      ensures Valid() && State() == Step(old(State()), ReleaseEvent(n))
    {
      StepStaysValid(State(), ReleaseEvent(n));
      ReleaseToState(n);
      released := released + n;
    }

    method ReleaseToState(n: nat)
      requires Queue(State()) && Known(State()) && permits <= MAX_PERMITS
      modifies this
      ensures State() == Release(old(State()), n)
    {
      if !alive || n == 0 {
        return;
      }
      HandOutPermits(n);
    }

    /** The destructor of an operation. */
    method DetachOperation(w: nat)
      requires Valid() && w in waiters && !waiters[w].detached
      modifies this
      ensures Valid() && State() == Step(old(State()), DetachEvent(w))
    {
      StepStaysValid(State(), DetachEvent(w));
      DetachQueue(State(), w);
      LeaveOrGiveBack(w);
    }

    method LeaveOrGiveBack(w: nat)
      requires w in waiters && Known(State()) && permits <= MAX_PERMITS
      requires !waiters[w].enqueued ==> QueueOk(waiters[w := GivenBack(waiters[w])], queue, nextTicket)
      modifies this
      ensures State() == Detach(old(State()), w)
    {
      var x := waiters[w];
      if x.observing {
        return;
      }
      var gone := x.(detached := true, suspended := false, owned := false);
      if !x.owned || !alive {
        waiters := waiters[w := gone];
        return;
      }
      if x.enqueued {
        queue := Without(queue, w);
        waiters := waiters[w := gone.(enqueued := false)];
        return;
      }
      if x.reserved {
        waiters := waiters[w := gone.(reserved := false)];
        HandOutPermits(1);
        return;
      }
      waiters := waiters[w := gone];
    }

    /** The job that resumes an operation: the result that its caller is handed, if it still waits. */
    method ResumeOperation(w: nat) returns (r: Option<VoidResult>)
      requires Valid() && w in waiters && waiters[w].scheduled
      modifies this
      ensures Valid() && State() == Step(old(State()), ResumeEvent(w))
      ensures r == if old(waiters[w].suspended) then old(waiters[w].result) else None
    {
      StepStaysValid(State(), ResumeEvent(w));
      ResumeCounts(State(), w);
      r := ResumeWaiter(w);
      granted := granted + if r == Some(Ok(())) then 1 else 0;
    }

    method ResumeWaiter(w: nat) returns (r: Option<VoidResult>)
      requires w in waiters
      modifies this
      ensures State() == Resume(old(State()), w)
      ensures r == if old(CanResume(waiters[w]) && !waiters[w].observing) then old(waiters[w].result) else None
    {
      waiters := waiters[w := waiters[w].(scheduled := false)];
      if waiters[w].detached || waiters[w].observing || !waiters[w].suspended {
        return None;
      }
      Observe(w);
      return waiters[w].result;
    }

    /** One round of the loop in `close_state`. */
    method RefuseNext()
      requires queue != [] && queue[0] in waiters && CanResume(waiters[queue[0]])
      modifies this
      ensures State() == RefuseFront(old(State()))
    {
      var w := queue[0];
      var x := waiters[w].(enqueued := false);
      queue := queue[1..];
      x := Completed(x.(owned := false), Err(InvalidState));
      waiters := waiters[w := x.(scheduled := true)];
    }

    /** The destructor of the semaphore. */
    method Close()
      requires Valid() && alive
      modifies this
      ensures Valid() && State() == Step(old(State()), DestroyEvent)
    {
      StepStaysValid(State(), DestroyEvent);
      CloseState();
    }

    method CloseState()
      requires alive && Queue(State())
      modifies this
      ensures State() == Destroy(old(State()))
    {
      alive := false;
      ghost var before, k: nat := State(), 0;
      TakenNone(waiters, queue, Refused);
      while queue != []
        invariant k <= |before.queue| && State() == RefusedFirst(before, k)
        decreases |queue|
      {
        RefusedNext(before, k);
        RefuseNext();
        k := k + 1;
      }
    }
  }
}
