/** The async mutex (include/voris/io/async_mutex.hpp). */
module AsyncMutexes {
  import opened Common
  import opened AsyncWaiters

  /**
   The mutex with its operations; `held` says that a caller was told that it has the lock and
   has not unlocked since. It is written by `Step` alone, from the answers.
   */
  datatype Mutex = Mutex(
    locked: bool, maxWaiters: nat, queue: seq<nat>, handoff: Option<nat>, alive: bool,
    waiters: Waiters, nextTicket: nat, held: bool)

  function Initial(maxWaiters: nat): Mutex {
    Mutex(false, maxWaiters, [], None, true, map[], 1, false)
  }

  function Put(s: Mutex, w: nat, x: Waiter): Mutex {
    s.(waiters := s.waiters[w := x])
  }

  // Handing the lock on

  function Reserved(x: Waiter): Waiter {
    x.(enqueued := false, reserved := true, scheduled := true)
  }

  /** `transfer_or_unlock`: the lock goes to the front of the queue, or becomes free. */
  function Transfer(s: Mutex): Mutex
    requires s.queue != [] ==> s.queue[0] in s.waiters
  {
    if s.queue == [] then s.(handoff := None, locked := false)
    else
      var w := s.queue[0];
      Put(s, w, Reserved(s.waiters[w])).(
        queue := s.queue[1..], locked := true, handoff := Some(w))
  }

  predicate Known(s: Mutex) {
    s.queue != [] ==> s.queue[0] in s.waiters
  }

  function Unlock(s: Mutex): Mutex
    requires Known(s)
  {
    if !s.alive || !s.locked then s else Transfer(s)
  }

  // Locking

  function TryLock(s: Mutex): (Mutex, VoidResult) {
    if !s.alive then (s, Err(InvalidState))
    else if s.locked then (s, Err(OperationInProgress))
    else (s.(locked := true), Ok(()))
  }

  function TryImmediate(s: Mutex, w: nat): (Mutex, bool)
    requires w in s.waiters
  {
    var x := s.waiters[w];
    if x.detached || x.result.Some? then (s, true)
    else if !x.owned || !s.alive then (Put(s, w, Completed(x, Err(InvalidState)).(owned := false)), true)
    else if !s.locked then (Put(s, w, Completed(x, Ok(())).(owned := false)).(locked := true), true)
    else if |s.queue| >= s.maxWaiters then (Put(s, w, Completed(x, Err(ResourceExhausted)).(owned := false)), true)
    else (s, false)
  }

  function ClearHandoff(s: Mutex, w: nat): Mutex {
    if s.handoff == Some(w) then s.(handoff := None) else s
  }

  /** `await_resume`: the result goes to the caller, and a hand-off to the operation is over. */
  function Finish(s: Mutex, w: nat): Mutex
    requires w in s.waiters
  {
    var x := s.waiters[w];
    var s1 := if x.reserved && x.owned && s.alive then ClearHandoff(s, w) else s;
    Put(s1, w, Observed(x))
  }

  function Enqueue(s: Mutex, w: nat): Mutex
    requires w in s.waiters
  {
    Put(s, w, s.waiters[w].(suspended := true, enqueued := true, ticket := s.nextTicket)).(
      queue := s.queue + [w], nextTicket := s.nextTicket + 1)
  }

  /** `co_await`: lock at once, fail, or join the queue. */
  function Await(s: Mutex, w: nat, scheduler: bool): Mutex
    requires w in s.waiters
  {
    var (s1, done) := TryImmediate(s, w);
    if Empty(s.waiters[w]) then s
    else if done then Finish(s1, w)
    else if !scheduler then Finish(Put(s, w, Completed(s.waiters[w], Err(InvalidState)).(owned := false)), w)
    else Enqueue(s, w)
  }

  /** `complete_reserved_waiter`. */
  function CompleteReserved(alive: bool, x: Waiter): Waiter {
    if !x.reserved || x.result.Some? then x
    else if !x.owned || !alive then Completed(x, Err(InvalidState)).(reserved := false, owned := false)
    else Completed(x, Ok(()))
  }

  /** The scheduler runs the job that resumes an operation. */
  function Resume(s: Mutex, w: nat): Mutex
    requires w in s.waiters
  {
    var x := s.waiters[w].(scheduled := false);
    if x.detached || x.observing || !x.suspended then Put(s, w, x)
    else Finish(Put(s, w, CompleteReserved(s.alive, x)), w)
  }

  /** The operation is destroyed: it leaves the queue, or hands its reserved lock on. */
  function Detach(s: Mutex, w: nat): Mutex
    requires w in s.waiters && Known(s)
  {
    var x := s.waiters[w];
    if x.observing then s
    else
      var gone := x.(detached := true, suspended := false, owned := false);
      if !x.owned || !s.alive then Put(s, w, gone)
      else if x.enqueued then Put(s, w, gone.(enqueued := false)).(queue := Without(s.queue, w))
      else if x.reserved then
        var s1 := ClearHandoff(Put(s, w, gone.(reserved := false)), w);
        if s.alive then Transfer(s1) else s1
      else Put(s, w, gone)
  }

  // Destruction

  function Refused(x: Waiter): Waiter {
    Completed(x, Err(InvalidState)).(enqueued := false, owned := false, scheduled := true)
  }

  /** The reserved operation loses the lock, unless it is past waiting for it. */
  function Revoked(x: Waiter): Waiter {
    if x.reserved && !x.detached && !x.observing && x.result.None?
    then Completed(x.(reserved := false, owned := false), Err(InvalidState)) else x
  }

  function RevokeHandoff(s: Mutex): Mutex {
    if s.handoff.Some? && s.handoff.value in s.waiters
    then Put(s, s.handoff.value, Revoked(s.waiters[s.handoff.value])).(handoff := None)
    else s.(handoff := None)
  }

  function RefusedFirst(s: Mutex, k: nat): Mutex
    requires k <= |s.queue|
  {
    s.(waiters := Taken(s.waiters, s.queue, k, Refused), queue := s.queue[k..])
  }

  function Destroy(s: Mutex): Mutex {
    if !s.alive then s
    else
      var s1 := RevokeHandoff(s.(alive := false));
      RefusedFirst(s1, |s1.queue|)
  }

  // Steps

  datatype Event =
    | NewEvent(w: nat)
    | AwaitEvent(w: nat, scheduler: bool)
    | ResumeEvent(w: nat)
    | DetachEvent(w: nat)
    | TryLockEvent
    | UnlockEvent
    | DestroyEvent

  /** Only the holder unlocks. */
  predicate Possible(s: Mutex, e: Event) {
    && Known(s)
    && match e
       case NewEvent(w) => w !in s.waiters
       case AwaitEvent(w, _) => w in s.waiters && !s.waiters[w].suspended
       case ResumeEvent(w) => w in s.waiters && s.waiters[w].scheduled
       case DetachEvent(w) => w in s.waiters && !s.waiters[w].detached
       case UnlockEvent => s.held
       case _ => true
  }

  /** The step tells a caller that it has the lock. */
  predicate Grants(s: Mutex, e: Event)
    requires Possible(s, e)
  {
    match e
    case TryLockEvent => TryLock(s).1 == Ok(())
    case AwaitEvent(w, scheduler) => Obtained(s.waiters, Await(s, w, scheduler).waiters, w)
    case ResumeEvent(w) => Obtained(s.waiters, Resume(s, w).waiters, w)
    case _ => false
  }

  /** What the code does, without the record of the holder. */
  function Effect(s: Mutex, e: Event): Mutex
    requires Possible(s, e)
  {
    match e
    case NewEvent(w) => Put(s, w, NEW_WAITER)
    case AwaitEvent(w, scheduler) => Await(s, w, scheduler)
    case ResumeEvent(w) => Resume(s, w)
    case DetachEvent(w) => Detach(s, w)
    case TryLockEvent => TryLock(s).0
    case UnlockEvent => Unlock(s)
    case DestroyEvent => Destroy(s)
  }

  /** A caller holds the lock from the answer that grants it until it unlocks. */
  function Step(s: Mutex, e: Event): Mutex
    requires Possible(s, e)
  {
    Effect(s, e).(held := (s.held && e != UnlockEvent) || Grants(s, e))
  }

  // Invariant

  predicate ReservedOk(x: Waiter) {
    x.reserved ==>
      x.owned && x.suspended && x.result.None? && !x.detached && !x.observing && x.scheduled && !x.enqueued
  }

  predicate RecordOk(x: Waiter) {
    && ResumeOk(x) && ReservedOk(x)
    && (x.scheduled ==> x.result.Some? || x.reserved || x.detached)
    && (x.suspended && x.result.Some? ==> x.result.value.Err?)
  }

  ghost predicate Records(ws: Waiters) {
    forall w :: w in ws ==> RecordOk(ws[w])
  }

  /** The hand-off names the one reserved operation. */
  ghost predicate HandoffOk(s: Mutex) {
    && (s.handoff.Some? ==> s.handoff.value in s.waiters && s.waiters[s.handoff.value].reserved)
    && forall w :: w in s.waiters && s.waiters[w].reserved ==> s.handoff == Some(w)
  }

  ghost predicate Queue(s: Mutex) {
    QueueOk(s.waiters, s.queue, s.nextTicket)
  }

  /** Everything but the meaning of the lock flag. */
  ghost predicate Core(s: Mutex) {
    && Queue(s)
    && Records(s.waiters)
    && NoOvertaking(s.waiters, s.queue, s.nextTicket)
    && |s.queue| <= s.maxWaiters
    && HandoffOk(s)
  }

  /** While the mutex lives, it is locked exactly when a caller holds it or one operation has it reserved, never both. */
  ghost predicate LockOk(s: Mutex) {
    && (s.alive ==> (s.locked <==> s.held || s.handoff.Some?) && !(s.held && s.handoff.Some?))
    && (!s.alive ==> s.handoff.None? && s.queue == [])
    && (s.queue != [] ==> s.locked)
  }

  ghost predicate Inv(s: Mutex) {
    Core(s) && LockOk(s)
  }

  lemma InitialInv(maxWaiters: nat)
    ensures Inv(Initial(maxWaiters))
  {
  }

  lemma QueuedFacts(s: Mutex, w: nat)
    requires Queue(s)
    ensures w in s.queue ==> w in s.waiters && s.waiters[w].enqueued && QueuedOk(s.waiters[w])
    ensures Known(s)
  {
    if w in s.queue {
      var i :| 0 <= i < |s.queue| && s.queue[i] == w;
      assert QueuedAt(s.waiters, s.queue[i], s.nextTicket);
    }
    if s.queue != [] {
      assert QueuedAt(s.waiters, s.queue[0], s.nextTicket);
    }
  }

  predicate AllKnown(s: Mutex) {
    forall i :: 0 <= i < |s.queue| ==> s.queue[i] in s.waiters
  }

  lemma QueueKnown(s: Mutex)
    requires Queue(s)
    ensures AllKnown(s)
  {
    forall i | 0 <= i < |s.queue|
      ensures s.queue[i] in s.waiters
    {
      assert QueuedAt(s.waiters, s.queue[i], s.nextTicket);
    }
  }

  /** Changing an operation outside the queue; the hand-off must stay right. */
  lemma PutKeepsCore(s: Mutex, w: nat, x: Waiter, handoff: Option<nat>)
    requires Core(s) && (w in s.waiters ==> !s.waiters[w].enqueued) && !x.enqueued && RecordOk(x)
    requires if x.reserved then handoff == Some(w) && (s.handoff.None? || s.handoff == Some(w))
             else handoff == if s.handoff == Some(w) then None else s.handoff
    requires x.ticket == if w in s.waiters then s.waiters[w].ticket else 0
    requires x.ticket > 0 && IsServed(x) ==> IsServed(s.waiters[w])
    ensures Core(Put(s, w, x).(handoff := handoff))
  {
    QueuedFacts(s, w);
    OutsideQueue(s.waiters, s.queue, s.nextTicket, w, x);
    OutsideOrder(s.waiters, s.queue, s.nextTicket, w, x);
  }

  lemma TransferKeepsInv(s: Mutex)
    requires Core(s) && s.alive && s.handoff.None? && Known(s)
    ensures Inv(Transfer(s).(held := false)) && (s.queue != [] ==> CanResume(s.waiters[s.queue[0]]))
  {
    if s.queue != [] {
      var w := s.queue[0];
      assert QueuedAt(s.waiters, w, s.nextTicket);
      var x := Reserved(s.waiters[w]);
      PopFront(s.waiters, s.queue, s.nextTicket, x);
      ServeFront(s.waiters, s.queue, s.nextTicket, x);
    }
  }

  lemma UnlockKeepsInv(s: Mutex)
    requires Inv(s) && Possible(s, UnlockEvent)
    ensures Inv(Step(s, UnlockEvent))
  {
    if s.alive {
      TransferKeepsInv(s);
    }
  }

  lemma TryLockKeepsInv(s: Mutex)
    requires Inv(s) && Possible(s, TryLockEvent)
    ensures Inv(Step(s, TryLockEvent))
  {
  }

  lemma CreateKeepsInv(s: Mutex, w: nat)
    requires Inv(s) && Possible(s, NewEvent(w))
    ensures Inv(Step(s, NewEvent(w)))
  {
    PutKeepsCore(s, w, NEW_WAITER, s.handoff);
  }

  lemma FinishFreshKeepsInv(s: Mutex, w: nat, result: VoidResult)
    requires Inv(s) && Fresh(s.waiters, w) && (result.Ok? ==> s.alive && !s.locked)
    ensures var x := Completed(s.waiters[w], result).(owned := false);
            var s1 := if result.Ok? then Put(s, w, x).(locked := true) else Put(s, w, x);
            Inv(Finish(s1, w).(held := s.held || result.Ok?)) && Finish(s1, w).waiters[w].result == Some(result)
  {
    var x := Completed(s.waiters[w], result).(owned := false);
    assert s.waiters[w := x][w := Observed(x)] == s.waiters[w := Observed(x)];
    PutKeepsCore(s, w, Observed(x), s.handoff);
  }

  lemma EnqueueKeepsQueue(s: Mutex, w: nat)
    requires Queue(s) && NoOvertaking(s.waiters, s.queue, s.nextTicket) && Fresh(s.waiters, w)
    ensures Queue(Enqueue(s, w)) && NoOvertaking(Enqueue(s, w).waiters, Enqueue(s, w).queue, s.nextTicket + 1)
  {
    var x := s.waiters[w].(suspended := true, enqueued := true, ticket := s.nextTicket);
    QueuedFacts(s, w);
    PushBack(s.waiters, s.queue, s.nextTicket, w, x);
    OrderPushBack(s.waiters, s.queue, s.nextTicket, w, x);
  }

  lemma EnqueueKeepsCore(s: Mutex, w: nat)
    requires Fresh(s.waiters, w) && |s.queue| < s.maxWaiters
    ensures Core(s) ==> Core(Enqueue(s, w))
  {
    if Core(s) {
      EnqueueKeepsQueue(s, w);
    }
  }

  /** The four ways in which `co_await` ends. */
  lemma AwaitShape(s: Mutex, w: nat, scheduler: bool)
    requires Possible(s, AwaitEvent(w, scheduler)) && RecordOk(s.waiters[w])
    ensures var full := !s.alive || !s.locked || |s.queue| >= s.maxWaiters || !scheduler;
            var result := if !s.alive then Err(InvalidState) else if !s.locked then Ok(())
                          else if |s.queue| >= s.maxWaiters then Err(ResourceExhausted) else Err(InvalidState);
            var x := Completed(s.waiters[w], result).(owned := false);
            var s1 := if result.Ok? then Put(s, w, x).(locked := true) else Put(s, w, x);
            Step(s, AwaitEvent(w, scheduler)) ==
              (if Empty(s.waiters[w]) then s
               else if full then Finish(s1, w).(held := s.held || result.Ok?) else Enqueue(s, w))
  {
  }

  lemma AwaitKeepsInv(s: Mutex, w: nat, scheduler: bool)
    requires Possible(s, AwaitEvent(w, scheduler))
    ensures Inv(s) ==> Inv(Step(s, AwaitEvent(w, scheduler)))
  {
    if Inv(s) {
      assert RecordOk(s.waiters[w]);
      AwaitShape(s, w, scheduler);
      if Empty(s.waiters[w]) {
      } else if !s.alive || !s.locked || |s.queue| >= s.maxWaiters || !scheduler {
        FinishFreshKeepsInv(s, w, if !s.alive then Err(InvalidState) else if !s.locked then Ok(())
                                  else if |s.queue| >= s.maxWaiters then Err(ResourceExhausted) else Err(InvalidState));
      } else {
        EnqueueKeepsCore(s, w);
      }
    }
  }

  lemma ResumeKeepsInv(s: Mutex, w: nat)
    requires Inv(s) && Possible(s, ResumeEvent(w))
    ensures Inv(Step(s, ResumeEvent(w)))
  {
    var x := s.waiters[w].(scheduled := false);
    assert RecordOk(s.waiters[w]);
    if x.detached || x.observing || !x.suspended {
      PutKeepsCore(s, w, x, s.handoff);
    } else {
      var y := CompleteReserved(s.alive, x);
      assert s.waiters[w := y][w := Observed(y)] == s.waiters[w := Observed(y)];
      PutKeepsCore(s, w, Observed(y), if s.handoff == Some(w) then None else s.handoff);
    }
  }

  lemma LeaveKeepsInv(s: Mutex, w: nat, gone: Waiter)
    requires Inv(s) && w in s.queue && RecordOk(gone) && !gone.enqueued && !gone.reserved
    requires w in s.waiters && gone.ticket == s.waiters[w].ticket && !IsServed(gone)
    ensures Inv(Put(s, w, gone).(queue := Without(s.queue, w)))
  {
    QueuedFacts(s, w);
    Leave(s.waiters, s.queue, s.nextTicket, w, gone);
    OrderLeave(s.waiters, s.queue, s.nextTicket, w, gone);
  }

  lemma AbandonKeepsInv(s: Mutex, w: nat, gone: Waiter)
    requires Inv(s) && s.alive && w in s.waiters && s.waiters[w].reserved && Known(s)
    requires RecordOk(gone) && !gone.reserved && !gone.enqueued && gone.ticket == s.waiters[w].ticket
    ensures Known(Put(s, w, gone)) && !s.held && Inv(Transfer(ClearHandoff(Put(s, w, gone), w)))
  {
    assert RecordOk(s.waiters[w]) && s.handoff == Some(w);
    PutKeepsCore(s, w, gone, None);
    TransferKeepsInv(ClearHandoff(Put(s, w, gone), w));
  }

  lemma DetachKeepsInv(s: Mutex, w: nat)
    requires Inv(s) && Possible(s, DetachEvent(w))
    ensures Inv(Step(s, DetachEvent(w)))
  {
    var x := s.waiters[w];
    assert RecordOk(x);
    var gone := x.(detached := true, suspended := false, owned := false);
    if x.observing {
    } else if x.enqueued {
      QueuedFacts(s, w);
      LeaveKeepsInv(s, w, gone.(enqueued := false));
    } else if x.reserved {
      AbandonKeepsInv(s, w, gone.(reserved := false));
    } else {
      PutKeepsCore(s, w, gone, s.handoff);
    }
  }

  lemma RevokeKeepsCore(s: Mutex)
    requires Core(s)
    ensures Core(RevokeHandoff(s)) && RevokeHandoff(s).handoff.None? && RevokeHandoff(s).queue == s.queue
    ensures s.handoff.Some? ==> s.handoff.value in s.waiters && s.handoff.value !in s.queue
  {
    if s.handoff.Some? {
      var h := s.handoff.value;
      assert RecordOk(s.waiters[h]);
      QueuedFacts(s, h);
      PutKeepsCore(s, h, Revoked(s.waiters[h]), None);
    }
  }

  lemma RefusedKeepsCore(s: Mutex)
    requires Core(s) && s.handoff.None?
    ensures Core(RefusedFirst(s, |s.queue|))
  {
    var k := |s.queue|;
    TakenQueue(s.waiters, s.queue, s.nextTicket, k, Refused);
    TakenOrder(s.waiters, s.queue, s.nextTicket, k, Refused);
    forall w | w in s.waiters
      ensures RecordOk(RefusedFirst(s, k).waiters[w])
      ensures RefusedFirst(s, k).waiters[w].reserved == s.waiters[w].reserved
    {
      assert RecordOk(s.waiters[w]);
      QueuedFacts(s, w);
    }
  }

  lemma DestroyKeepsInv(s: Mutex)
    requires Inv(s) && Possible(s, DestroyEvent)
    ensures Inv(Step(s, DestroyEvent))
  {
    if s.alive {
      var s1 := s.(alive := false);
      RevokeKeepsCore(s1);
      RefusedKeepsCore(RevokeHandoff(s1));
    }
  }

  // Runs

  lemma StepKeepsInv(s: Mutex, e: Event)
    requires Possible(s, e)
    ensures Inv(s) ==> Inv(Step(s, e))
  {
    if Inv(s) {
      match e
      case NewEvent(w) => CreateKeepsInv(s, w);
      case AwaitEvent(w, scheduler) => AwaitKeepsInv(s, w, scheduler);
      case ResumeEvent(w) => ResumeKeepsInv(s, w);
      case DetachEvent(w) => DetachKeepsInv(s, w);
      case TryLockEvent => TryLockKeepsInv(s);
      case UnlockEvent => UnlockKeepsInv(s);
      case DestroyEvent => DestroyKeepsInv(s);
    }
  }

  ghost predicate PossibleRun(s: Mutex, events: seq<Event>)
    decreases |events|
  {
    events == [] || (Possible(s, events[0]) && PossibleRun(Step(s, events[0]), events[1..]))
  }

  ghost function Run(s: Mutex, events: seq<Event>): Mutex
    requires PossibleRun(s, events)
    decreases |events|
  {
    if events == [] then s else Run(Step(s, events[0]), events[1..])
  }

  lemma {:induction false} RunKeepsInv(s: Mutex, events: seq<Event>)
    requires Inv(s) && PossibleRun(s, events)
    ensures Inv(Run(s, events))
    decreases |events|
  {
    if events != [] {
      StepKeepsInv(s, events[0]);
      RunKeepsInv(Step(s, events[0]), events[1..]);
    }
  }

  /** Mutual exclusion: in every run, the lock is granted only while nobody holds it, and a grant makes a holder. */
  lemma MutualExclusion(maxWaiters: nat, events: seq<Event>, e: Event)
    requires PossibleRun(Initial(maxWaiters), events)
    requires Possible(Run(Initial(maxWaiters), events), e) && Grants(Run(Initial(maxWaiters), events), e)
    ensures Run(Initial(maxWaiters), events).alive && !Run(Initial(maxWaiters), events).held
    ensures Step(Run(Initial(maxWaiters), events), e).held
  {
    InitialInv(maxWaiters);
    RunKeepsInv(Initial(maxWaiters), events);
    GrantNeedsFreeLock(Run(Initial(maxWaiters), events), e);
  }

  lemma GrantNeedsFreeLock(s: Mutex, e: Event)
    requires Inv(s) && Possible(s, e) && Grants(s, e)
    ensures s.alive && !s.held && Step(s, e).held
  {
    match e
    case TryLockEvent =>
    case AwaitEvent(w, scheduler) => assert RecordOk(s.waiters[w]);
    case ResumeEvent(w) => assert RecordOk(s.waiters[w]);
  }

  /**
   In every run of a living mutex, it is locked exactly when a caller holds it or
   one operation has it reserved, never both; operations wait only while it is
   locked, within the bound, in the order in which they joined, and are never overtaken.
   */
  lemma LockIsOwnedOnce(maxWaiters: nat, events: seq<Event>)
    requires PossibleRun(Initial(maxWaiters), events)
    ensures var s := Run(Initial(maxWaiters), events);
            && (s.alive ==>
                  && (s.locked <==> s.held || exists w :: w in s.waiters && s.waiters[w].reserved)
                  && !(s.held && exists w :: w in s.waiters && s.waiters[w].reserved))
            && (forall v, w :: v in s.waiters && w in s.waiters && s.waiters[v].reserved && s.waiters[w].reserved ==> v == w)
            && (s.queue != [] ==> s.locked) && |s.queue| <= s.maxWaiters
            && (forall i, j :: 0 <= i < j < |s.queue| && s.queue[i] in s.waiters && s.queue[j] in s.waiters ==>
                  s.waiters[s.queue[i]].ticket < s.waiters[s.queue[j]].ticket)
            && (forall w, j :: w in s.waiters && s.waiters[w].ticket > 0
                               && (s.waiters[w].reserved || s.waiters[w].result == Some(Ok(())))
                               && 0 <= j < |s.queue| && s.queue[j] in s.waiters ==>
                  s.waiters[w].ticket < s.waiters[s.queue[j]].ticket)
  {
    InitialInv(maxWaiters);
    RunKeepsInv(Initial(maxWaiters), events);
    var s := Run(Initial(maxWaiters), events);
    assert s.handoff.Some? ==> s.handoff.value in s.waiters && s.waiters[s.handoff.value].reserved;
  }

  // Answers

  /** `try_lock` succeeds exactly when the mutex lives and nobody has it, and otherwise changes nothing. */
  lemma TryLockAnswers(s: Mutex)
    requires Inv(s)
    ensures var (s', r) := TryLock(s);
            && (r == Ok(()) <==> s.alive && !s.held && forall w :: w in s.waiters ==> !s.waiters[w].reserved)
            && (r == Err(InvalidState) <==> !s.alive) && (r.Err? && s.alive ==> r == Err(OperationInProgress))
            && s' == (if r.Ok? then s.(locked := true) else s)
  {
    assert s.handoff.Some? ==> s.handoff.value in s.waiters && s.waiters[s.handoff.value].reserved;
  }

  /** What the caller of `co_await` is told, if anything. */
  function AwaitAnswer(s: Mutex, w: nat, scheduler: bool): Option<VoidResult>
    requires w in s.waiters
  {
    var x := Await(s, w, scheduler).waiters[w];
    if Empty(s.waiters[w]) then Some(Err(InvalidState)) else if x.suspended then None else x.result
  }

  /**
   The answers of `co_await` on an operation that is not used up: a success exactly when the lock is
   free, `ResourceExhausted` exactly when it is not and the queue is full, no answer and a place at the
   end of the queue exactly when there is room and a scheduler, and `InvalidState` otherwise.
   */
  lemma AwaitAnswers(s: Mutex, w: nat, scheduler: bool)
    requires Inv(s) && w in s.waiters && !s.waiters[w].suspended && !Empty(s.waiters[w])
    ensures var s' := Await(s, w, scheduler); var r := AwaitAnswer(s, w, scheduler);
            && (r == Some(Ok(())) <==> s.alive && !s.locked)
            && (r == Some(Err(ResourceExhausted)) <==> s.alive && s.locked && |s.queue| >= s.maxWaiters)
            && (r == Some(Err(InvalidState)) <==> !s.alive || (s.locked && |s.queue| < s.maxWaiters && !scheduler))
            && (r == None <==> s.alive && s.locked && |s.queue| < s.maxWaiters && scheduler)
            && s'.waiters[w].result == r && s'.waiters[w].suspended == r.None? && s'.waiters[w].observing == r.Some?
            && s'.queue == (if r.None? then s.queue + [w] else s.queue)
            && s'.locked == (s.locked || r == Some(Ok(())))
            && forall v :: v in s.waiters && v != w ==> v in s'.waiters && s'.waiters[v] == s.waiters[v]
  {
    assert RecordOk(s.waiters[w]);
  }

  /** Unlocking frees the lock, or reserves it for the front of the queue and schedules that one; nobody else notices. */
  lemma UnlockAnswers(s: Mutex)
    requires Inv(s) && s.alive && s.held && Known(s)
    ensures var s' := Unlock(s);
            if s.queue == [] then s' == s.(locked := false)
            else
              var w := s.queue[0];
              && w in s.waiters && w in s'.waiters && s'.locked && s'.queue == s.queue[1..]
              && s'.waiters[w] == s.waiters[w].(enqueued := false, reserved := true, scheduled := true)
              && forall v :: v in s.waiters && v != w ==> v in s'.waiters && s'.waiters[v] == s.waiters[v]
  {
    QueuedFacts(s, 0);
  }

  /** What the resumed caller is told: the lock if it is reserved for it, and otherwise the error it already has. */
  lemma ResumeAnswers(s: Mutex, w: nat)
    requires Inv(s) && w in s.waiters && s.waiters[w].scheduled && s.waiters[w].suspended
    ensures var x := Resume(s, w).waiters[w];
            && x.observing && !x.suspended
            && (x.result == Some(Ok(())) <==> s.waiters[w].reserved)
            && (!s.waiters[w].reserved ==> x.result == s.waiters[w].result && x.result.Some? && x.result.value.Err?)
            && (s.waiters[w].reserved ==> s.alive)
  {
    assert RecordOk(s.waiters[w]);
  }

  /** The holder is recorded exactly by what the callers are told. */
  lemma AwaitGrants(s: Mutex, w: nat, scheduler: bool)
    requires Inv(s) && Possible(s, AwaitEvent(w, scheduler))
    ensures Step(s, AwaitEvent(w, scheduler)) ==
            Await(s, w, scheduler).(held := s.held || AwaitAnswer(s, w, scheduler) == Some(Ok(())))
  {
    assert RecordOk(s.waiters[w]);
  }

  lemma AwaitRecorded(s: Mutex, w: nat, scheduler: bool)
    requires w in s.waiters && !s.waiters[w].suspended
    ensures Inv(s) ==> Possible(s, AwaitEvent(w, scheduler))
    ensures Inv(s) ==> Inv(Await(s, w, scheduler).(held := s.held || AwaitAnswer(s, w, scheduler) == Some(Ok(()))))
    ensures Inv(s) ==>
              Step(s, AwaitEvent(w, scheduler)) ==
              Await(s, w, scheduler).(held := s.held || AwaitAnswer(s, w, scheduler) == Some(Ok(())))
  {
    if Inv(s) {
      QueuedFacts(s, 0);
      StepKeepsInv(s, AwaitEvent(w, scheduler));
      AwaitGrants(s, w, scheduler);
    }
  }

  /** Abandoning a reserved lock passes it to the next operation in the queue, or frees it. */
  lemma AbandonPassesOn(s: Mutex, w: nat)
    requires Inv(s) && s.alive && w in s.waiters && s.waiters[w].reserved && Known(s)
    ensures var s' := Detach(s, w);
            if s.queue == [] then !s'.locked && s'.handoff.None?
            else s'.locked && s'.handoff == Some(s.queue[0]) && s.queue[0] in s'.waiters
                 && s'.waiters[s.queue[0]].reserved && s'.waiters[s.queue[0]].scheduled && s'.queue == s.queue[1..]
  {
    assert RecordOk(s.waiters[w]);
    QueuedFacts(s, w);
  }

  /** Destruction resolves exactly the queued and the reserved operations, with an error and a scheduled resume. */
  lemma DestroyResolvesWaiting(s: Mutex, w: nat)
    requires Inv(s) && s.alive && w in s.waiters
    ensures w in Destroy(s).waiters
    ensures var x, y := s.waiters[w], Destroy(s).waiters[w];
            if w in s.queue || x.reserved then
              x.result.None? && y.result == Some(Err(InvalidState)) && y.scheduled && y.suspended && !y.reserved
            else y == x
    ensures Destroy(s).queue == []
  {
    assert RecordOk(s.waiters[w]);
    QueuedFacts(s, w);
    var s1 := s.(alive := false);
    RevokeKeepsCore(s1);
    var s2 := RevokeHandoff(s1);
    assert s2.queue[..|s2.queue|] == s.queue;
  }

  /** A result, once there, stays, and an operation that is over stays over. */
  predicate Settled(x: Waiter, y: Waiter) {
    (x.result.Some? ==> y.result == x.result) && (x.observing ==> y.observing && !y.suspended)
  }

  lemma TransferSettles(s: Mutex, w: nat)
    requires Queue(s) && Known(s) && w in s.waiters && RecordOk(s.waiters[w])
    ensures w in Transfer(s).waiters && Settled(s.waiters[w], Transfer(s).waiters[w])
  {
    QueuedFacts(s, w);
  }

  lemma AwaitSettles(s: Mutex, v: nat, scheduler: bool, w: nat)
    requires v in s.waiters && !s.waiters[v].suspended && w in s.waiters && RecordOk(s.waiters[v]) && RecordOk(s.waiters[w])
    ensures w in Await(s, v, scheduler).waiters && Settled(s.waiters[w], Await(s, v, scheduler).waiters[w])
  {
  }

  lemma ResumeSettles(s: Mutex, v: nat, w: nat)
    requires v in s.waiters && w in s.waiters && RecordOk(s.waiters[w])
    ensures w in Resume(s, v).waiters && Settled(s.waiters[w], Resume(s, v).waiters[w])
  {
  }

  /** Over every step, the first result of an operation is its only one, and it resumes at most once. */
  lemma StepSettles(s: Mutex, e: Event, w: nat)
    requires Inv(s) && Possible(s, e) && w in s.waiters
    ensures w in Step(s, e).waiters && Settled(s.waiters[w], Step(s, e).waiters[w])
  {
    assert RecordOk(s.waiters[w]);
    match e
    case AwaitEvent(v, scheduler) =>
      assert RecordOk(s.waiters[v]);
      AwaitSettles(s, v, scheduler, w);
    case ResumeEvent(v) => ResumeSettles(s, v, w);
    case UnlockEvent => TransferSettles(s, w);
    case DetachEvent(v) => DetachSettles(s, v, w);
    case DestroyEvent =>
      if s.alive {
        DestroyResolvesWaiting(s, w);
      }
    case _ =>
  }

  lemma DetachSettles(s: Mutex, v: nat, w: nat)
    requires Inv(s) && Known(s) && v in s.waiters && w in s.waiters && !s.waiters[v].detached
    ensures w in Detach(s, v).waiters && Settled(s.waiters[w], Detach(s, v).waiters[w])
  {
    var x := s.waiters[v];
    assert RecordOk(x) && RecordOk(s.waiters[w]);
    if x.reserved && s.alive {
      var gone := x.(detached := true, suspended := false, owned := false, reserved := false);
      PutKeepsCore(s, v, gone, None);
      var s1 := ClearHandoff(Put(s, v, gone), v);
      TransferSettles(s1, w);
    }
  }

  function RefuseFront(s: Mutex): Mutex
    requires s.queue != [] && s.queue[0] in s.waiters
  {
    Put(s, s.queue[0], Refused(s.waiters[s.queue[0]])).(queue := s.queue[1..])
  }

  /** Refusing one more operation is refusing the front one. */
  lemma RefusedNext(s: Mutex, k: nat)
    requires Queue(s) && k < |s.queue|
    ensures var r := RefusedFirst(s, k);
            && r.queue[0] == s.queue[k] && s.queue[k] in r.waiters && CanResume(r.waiters[s.queue[k]])
            && RefusedFirst(s, k + 1) == RefuseFront(r)
  {
    TakenNext(s.waiters, s.queue, s.nextTicket, k, Refused);
  }

  lemma FrontCanResume(s: Mutex)
    requires Queue(s)
    ensures s.queue != [] ==> s.queue[0] in s.waiters && CanResume(s.waiters[s.queue[0]]) && s.waiters[s.queue[0]].enqueued
  {
    if s.queue != [] {
      QueuedFacts(s, s.queue[0]);
    }
  }

  class AsyncMutex {
    var locked: bool
    const maxWaiters: nat
    var queue: seq<nat>
    var handoff: Option<nat>
    var alive: bool
    var waiters: Waiters
    var nextTicket: nat
    ghost var held: bool

    ghost function State(): Mutex
      reads this
    {
      Mutex(locked, maxWaiters, queue, handoff, alive, waiters, nextTicket, held)
    }

    ghost predicate Valid()
      reads this
    {
      Inv(State())
    }

    constructor (maxWaiters: nat)
      ensures Valid() && State() == Initial(maxWaiters)
    {
      locked, this.maxWaiters, queue, handoff, alive, waiters := false, maxWaiters, [], None, true, map[];
      nextTicket, held := 1, false;
      new;
      InitialInv(maxWaiters);
    }

    method TryLockNow() returns (r: VoidResult)
      requires Valid()
      modifies this
      ensures Valid() && old(Known(State())) && State() == Step(old(State()), TryLockEvent) && r == TryLock(old(State())).1
    {
      QueuedFacts(State(), 0);
      StepKeepsInv(State(), TryLockEvent);
      r := TakeLock();
      held := held || r == Ok(());
    }

    method TakeLock() returns (r: VoidResult)
      modifies this`locked
      ensures (State(), r) == TryLock(old(State()))
    {
      if !alive {
        return Err(InvalidState);
      }
      if locked {
        return Err(OperationInProgress);
      }
      locked := true;
      return Ok(());
    }

    /** `transfer_or_unlock`: its loop skips operations that cannot resume; in a valid mutex the front one can. */
    method TransferOrUnlock()
      requires AllKnown(State())
      modifies this
      ensures old(queue != [] ==> CanResume(waiters[queue[0]])) ==> State() == Transfer(old(State()))
    {
      ghost var before := State();
      ghost var usual := queue != [] ==> CanResume(waiters[queue[0]]);
      while queue != []
        invariant AllKnown(State()) && (usual ==> State() == before)
        decreases |queue|
      {
        var w := queue[0];
        var x := waiters[w].(enqueued := false);
        queue := queue[1..];
        if x.detached || !x.suspended {
          waiters := waiters[w := x.(owned := false)];
          continue;
        }
        x := x.(reserved := true);
        locked := true;
        handoff := Some(w);
        waiters := waiters[w := x.(scheduled := true)];
        return;
      }
      handoff := None;
      locked := false;
    }

    /** Only the holder may call this. */
    method UnlockNow()
      requires Valid() && held
      modifies this
      ensures Valid() && old(Known(State())) && State() == Step(old(State()), UnlockEvent)
    {
      QueuedFacts(State(), 0);
      QueueKnown(State());
      FrontCanResume(State());
      StepKeepsInv(State(), UnlockEvent);
      UnlockState();
      held := false;
    }

    method UnlockState()
      requires AllKnown(State()) && (queue != [] ==> CanResume(waiters[queue[0]]))
      modifies this
      ensures State() == Unlock(old(State()))
    {
      if !alive || !locked {
        return;
      }
      TransferOrUnlock();
    }

    method TryCompleteImmediate(w: nat) returns (done: bool)
      requires w in waiters
      modifies this
      ensures (State(), done) == TryImmediate(old(State()), w)
    {
      var x := waiters[w];
      if x.detached || x.result.Some? {
        return true;
      }
      if !x.owned || !alive {
        waiters := waiters[w := Completed(x, Err(InvalidState)).(owned := false)];
        return true;
      }
      if !locked {
        locked := true;
        waiters := waiters[w := Completed(x, Ok(())).(owned := false)];
        return true;
      }
      if |queue| >= maxWaiters {
        waiters := waiters[w := Completed(x, Err(ResourceExhausted)).(owned := false)];
        return true;
      }
      return false;
    }

    /** `await_resume`. */
    method Observe(w: nat)
      requires w in waiters
      modifies this
      ensures State() == Finish(old(State()), w)
    {
      var x := waiters[w];
      if x.reserved && x.owned && alive && handoff == Some(w) {
        handoff := None;
      }
      waiters := waiters[w := x.(observing := true, suspended := false, owned := false, reserved := false)];
    }

    /** `co_await` of a lock operation that is not suspended: the result, unless it now waits. */
    method AwaitLock(w: nat, scheduler: bool) returns (r: Option<VoidResult>)
      requires Valid() && w in waiters && !waiters[w].suspended
      modifies this
      ensures Valid() && old(Known(State())) && State() == Step(old(State()), AwaitEvent(w, scheduler))
      ensures r == AwaitAnswer(old(State()), w, scheduler)
    {
      AwaitRecorded(State(), w, scheduler);
      r := AwaitOperation(w, scheduler);
      held := held || r == Some(Ok(()));
    }

    method AwaitOperation(w: nat, scheduler: bool) returns (r: Option<VoidResult>)
      requires w in waiters
      modifies this
      ensures State() == Await(old(State()), w, scheduler) && r == AwaitAnswer(old(State()), w, scheduler)
    {
      if Empty(waiters[w]) {
        return Some(Err(InvalidState));
      }
      AwaitOrEnqueue(w, scheduler);
      return if waiters[w].suspended then None else waiters[w].result;
    }

    method AwaitOrEnqueue(w: nat, scheduler: bool)
      requires w in waiters && !Empty(waiters[w])
      modifies this
      ensures State() == Await(old(State()), w, scheduler)
    {
      var done := TryCompleteImmediate(w);
      if done {
        Observe(w);
        return;
      }
      if !scheduler {
        waiters := waiters[w := Completed(waiters[w], Err(InvalidState)).(owned := false)];
        Observe(w);
        return;
      }
      done := TryCompleteImmediate(w);
      assert !done;
      waiters := waiters[w := waiters[w].(suspended := true, enqueued := true, ticket := nextTicket)];
      queue := queue + [w];
      nextTicket := nextTicket + 1;
    }

    /** The job that resumes an operation: the result that its caller is handed, if it still waits. */
    method ResumeOperation(w: nat) returns (r: Option<VoidResult>)
      requires Valid() && w in waiters && waiters[w].scheduled
      modifies this
      ensures Valid() && old(Known(State())) && State() == Step(old(State()), ResumeEvent(w))
      ensures r == if old(waiters[w].suspended) then waiters[w].result else None
    {
      QueuedFacts(State(), 0);
      StepKeepsInv(State(), ResumeEvent(w));
      assert RecordOk(waiters[w]);
      r := ResumeWaiter(w);
      held := held || r == Some(Ok(()));
    }

    method ResumeWaiter(w: nat) returns (r: Option<VoidResult>)
      requires w in waiters
      modifies this
      ensures State() == Resume(old(State()), w)
      ensures r == if old(CanResume(waiters[w]) && !waiters[w].observing) then waiters[w].result else None
    {
      var x := waiters[w].(scheduled := false);
      if x.detached || x.observing || !x.suspended {
        waiters := waiters[w := x];
        return None;
      }
      waiters := waiters[w := CompleteReserved(alive, x)];
      Observe(w);
      return waiters[w].result;
    }

    /** The destructor of an operation. */
    method DetachOperation(w: nat)
      requires Valid() && w in waiters && !waiters[w].detached
      modifies this
      ensures Valid() && old(Known(State())) && State() == Step(old(State()), DetachEvent(w))
    {
      QueuedFacts(State(), w);
      StepKeepsInv(State(), DetachEvent(w));
      QueueKnown(State());
      FrontCanResume(State());
      LeaveOrPassOn(w);
    }

    method LeaveOrPassOn(w: nat)
      requires w in waiters && AllKnown(State())
      requires queue != [] ==>
                 queue[0] in waiters && CanResume(waiters[queue[0]]) && (queue[0] == w ==> waiters[w].enqueued)
      modifies this
      ensures State() == Detach(old(State()), w)
    {
      var x := waiters[w];
      if x.observing {
        return;
      }
      var gone := x.(detached := true, suspended := false, owned := false);
      if !x.owned || !alive {
        waiters := waiters[w := gone];
        return;
      }
      if x.enqueued {
        queue := Without(queue, w);
        waiters := waiters[w := gone.(enqueued := false)];
        return;
      }
      if x.reserved {
        waiters := waiters[w := gone.(reserved := false)];
        if handoff == Some(w) {
          handoff := None;
        }
        TransferOrUnlock();
        return;
      }
      waiters := waiters[w := gone];
    }

    /** The destructor of the mutex. */
    method CloseState()
      requires Valid() && alive
      modifies this
      ensures Valid() && old(Known(State())) && State() == Step(old(State()), DestroyEvent)
    {
      QueuedFacts(State(), 0);
      StepKeepsInv(State(), DestroyEvent);
      alive := false;
      RevokeKeepsCore(State());
      Revoke();
      RefuseQueued();
    }

    method RefuseQueued()
      requires Queue(State())
      modifies this
      ensures State() == RefusedFirst(old(State()), |old(queue)|)
    {
      ghost var before, k: nat := State(), 0;
      TakenNone(waiters, queue, Refused);
      while queue != []
        invariant k <= |before.queue| && State() == RefusedFirst(before, k)
        decreases |queue|
      {
        RefusedNext(before, k);
        RefuseNext();
        k := k + 1;
      }
    }

    method RefuseNext()
      requires queue != [] && queue[0] in waiters
      modifies this`queue, this`waiters
      ensures State() == RefuseFront(old(State()))
    {
      var w := queue[0];
      var x := waiters[w];
      queue := queue[1..];
      if x.result.None? {
        x := x.(result := Some(Err(InvalidState)));
      }
      waiters := waiters[w := x.(enqueued := false, owned := false, scheduled := true)];
    }

    method Revoke()
      modifies this`waiters, this`handoff
      ensures State() == RevokeHandoff(old(State()))
    {
      if handoff.Some? && handoff.value in waiters {
        var x := waiters[handoff.value];
        if x.reserved && !x.detached && !x.observing && x.result.None? {
          x := Completed(x.(reserved := false, owned := false), Err(InvalidState));
        }
        waiters := waiters[handoff.value := x];
      }
      handoff := None;
    }
  }
}
