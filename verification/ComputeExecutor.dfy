/** Capacity reservations of the compute executor (include/voris/io/compute_executor.hpp). */
module ComputeExecutors {
  import opened Common

  /**
   `live` are the reservations that callers of this executor have and that are still active.
   `accepted` is the work whose submission was answered with success and `ran` the work that was
   run; `Step` alone writes both, from the answers.
   */
  datatype Executor = Executor(
    capacity: nat, queue: seq<nat>, waiters: nat, reserved: nat, shuttingDown: bool,
    live: set<nat>, accepted: seq<nat>, ran: seq<nat>)

  function Initial(capacity: nat): Executor {
    Executor(capacity, [], 0, 0, false, {}, [], [])
  }

  predicate HasCapacity(s: Executor) {
    s.capacity != 0 && |s.queue| < s.capacity && s.reserved < s.capacity - |s.queue|
  }

  function Pressed(s: Executor): Executor {
    var limit := if s.capacity == 0 then 1 else s.capacity;
    if s.waiters < limit then s.(waiters := s.waiters + 1) else s
  }

  function Pushed(s: Executor, work: nat): Executor {
    s.(queue := s.queue + [work], waiters := 0)
  }

  function Submit(s: Executor, work: nat): (Executor, VoidResult) {
    if s.shuttingDown then (s, Err(Closed))
    else if !HasCapacity(s) then (Pressed(s), Err(ResourceExhausted))
    else (Pushed(s, work), Ok(()))
  }

  /** With success the caller gets a reservation. */
  function Reserve(s: Executor): (Executor, VoidResult) {
    if s.shuttingDown then (s, Err(Closed))
    else if !HasCapacity(s) then (Pressed(s), Err(ResourceExhausted))
    else (s.(reserved := s.reserved + 1, waiters := 0), Ok(()))
  }

  /** `release`, also run by the destructor of a reservation. */
  function Release(s: Executor, id: nat): Executor {
    if id !in s.live then s
    else
      var s1 := s.(live := s.live - {id});
      if !s.shuttingDown && s.reserved != 0 then s1.(reserved := s.reserved - 1, waiters := 0) else s1
  }

  /** The reservation is consumed in every case; `id` is not live if it is another executor's or used up. */
  function SubmitReserved(s: Executor, id: nat, work: nat): (Executor, VoidResult) {
    if s.shuttingDown then (s.(live := s.live - {id}), Err(Closed))
    else if id !in s.live || s.reserved == 0 || |s.queue| >= s.capacity then (Release(s, id), Err(InvalidState))
    else (Pushed(s.(reserved := s.reserved - 1, live := s.live - {id}), work), Ok(()))
  }

  /** The work that runs, if any. */
  function RunOne(s: Executor): (Executor, Option<nat>) {
    if s.queue == [] then (s, None)
    else (s.(queue := s.queue[1..], waiters := 0), Some(s.queue[0]))
  }

  function Shutdown(s: Executor): Executor {
    s.(shuttingDown := true, waiters := 0, reserved := 0)
  }

  datatype Event =
    | SubmitEvent(work: nat)
    | ReserveEvent(id: nat)
    | ReleaseEvent(id: nat)
    | SubmitReservedEvent(id: nat, work: nat)
    | RunEvent
    | ShutdownEvent

  predicate Possible(s: Executor, e: Event) {
    e.ReserveEvent? ==> e.id !in s.live
  }

  function Accepted(s: Executor, work: nat, r: VoidResult): Executor {
    if r == Ok(()) then s.(accepted := s.accepted + [work]) else s
  }

  function HandedOut(s: Executor, id: nat, r: VoidResult): Executor {
    if r == Ok(()) then s.(live := s.live + {id}) else s
  }

  function Performed(s: Executor, work: Option<nat>): Executor {
    if work.Some? then s.(ran := s.ran + [work.value]) else s
  }

  /** The history follows what the callers are told and what is run. */
  function Step(s: Executor, e: Event): Executor
    requires Possible(s, e)
  {
    match e
    case SubmitEvent(work) =>
      var (s', r) := Submit(s, work);
      Accepted(s', work, r)
    case ReserveEvent(id) =>
      var (s', r) := Reserve(s);
      HandedOut(s', id, r)
    case ReleaseEvent(id) => Release(s, id)
    case SubmitReservedEvent(id, work) =>
      var (s', r) := SubmitReserved(s, id, work);
      Accepted(s', work, r)
    case RunEvent =>
      var (s', work) := RunOne(s);
      Performed(s', work)
    case ShutdownEvent => Shutdown(s)
  }

  /** Every reservation is backed by a free place in the queue, and work leaves in the order in which it came. */
  ghost predicate Inv(s: Executor) {
    && (if s.shuttingDown then s.reserved == 0 else s.reserved == |s.live|)
    && |s.queue| + s.reserved <= s.capacity
    && s.waiters <= (if s.capacity == 0 then 1 else s.capacity)
    && s.accepted == s.ran + s.queue
  }

  lemma StepKeepsInv(s: Executor, e: Event)
    requires Inv(s) && Possible(s, e)
    ensures Inv(Step(s, e))
  {
    match e
    case RunEvent => RunKeepsOrder(s);
    case ReleaseEvent(id) => ReleaseKeepsInv(s, id);
    case SubmitReservedEvent(id, work) => SubmitReservedKeepsInv(s, id, work);
    case _ =>
  }

  lemma RunKeepsOrder(s: Executor)
    requires Inv(s)
    ensures Inv(Step(s, RunEvent))
  {
    if s.queue != [] {
      assert s.queue == [s.queue[0]] + s.queue[1..];
    }
  }

  lemma ReleaseKeepsInv(s: Executor, id: nat)
    requires Inv(s)
    ensures Inv(Release(s, id))
  {
    if id in s.live {
      assert |s.live - {id}| == |s.live| - 1;
    }
  }

  lemma SubmitReservedKeepsInv(s: Executor, id: nat, work: nat)
    requires Inv(s)
    ensures Inv(Step(s, SubmitReservedEvent(id, work)))
  {
    ReleaseKeepsInv(s, id);
    if id in s.live {
      assert |s.live - {id}| == |s.live| - 1;
    }
  }

  ghost predicate PossibleRun(s: Executor, events: seq<Event>)
    decreases |events|
  {
    events == [] || (Possible(s, events[0]) && PossibleRun(Step(s, events[0]), events[1..]))
  }

  ghost function Run(s: Executor, events: seq<Event>): Executor
    requires PossibleRun(s, events)
    decreases |events|
  {
    if events == [] then s else Run(Step(s, events[0]), events[1..])
  }

  lemma {:induction false} RunKeepsInv(s: Executor, events: seq<Event>)
    requires Inv(s) && PossibleRun(s, events)
    ensures Inv(Run(s, events))
    decreases |events|
  {
    if events != [] {
      StepKeepsInv(s, events[0]);
      RunKeepsInv(Step(s, events[0]), events[1..]);
    }
  }

  /**
   Submitting and reserving succeed exactly when the executor runs and a place is neither taken nor
   reserved, fail with `Closed` exactly during shutdown, and leave the queue alone when they fail.
   */
  lemma CapacityAnswers(s: Executor, work: nat)
    requires Inv(s)
    ensures var room := |s.queue| + s.reserved < s.capacity; var (s1, r1) := Submit(s, work); var (s2, r2) := Reserve(s);
            && r1 == r2
            && (r1 == Ok(()) <==> !s.shuttingDown && room)
            && (r1 == Err(Closed) <==> s.shuttingDown) && (r1 == Err(ResourceExhausted) <==> !s.shuttingDown && !room)
            && s1.queue == s.queue + (if r1.Ok? then [work] else []) && s1.reserved == s.reserved
            && s2.queue == s.queue && s2.reserved == s.reserved + (if r2.Ok? then 1 else 0)
  {
  }

  /** In every run, submitting with a reservation succeeds exactly if it is live and the executor runs. */
  lemma LiveReservationSubmits(capacity: nat, events: seq<Event>, id: nat, work: nat)
    requires PossibleRun(Initial(capacity), events)
    ensures var s := Run(Initial(capacity), events);
            && (SubmitReserved(s, id, work).1.Ok? <==> !s.shuttingDown && id in s.live)
            && (!s.shuttingDown ==> s.reserved == |s.live| && |s.queue| + s.reserved <= capacity)
            && s.accepted == s.ran + s.queue
  {
    assert Inv(Initial(capacity)) by {
      assert |Initial(capacity).live| == 0;
    }
    RunKeepsInv(Initial(capacity), events);
    CapacityStays(Initial(capacity), events);
    var s := Run(Initial(capacity), events);
    if id in s.live {
      assert |s.live - {id}| == |s.live| - 1;
    }
  }

  lemma {:induction false} CapacityStays(s: Executor, events: seq<Event>)
    requires PossibleRun(s, events)
    ensures Run(s, events).capacity == s.capacity
    decreases |events|
  {
    if events != [] {
      CapacityStays(Step(s, events[0]), events[1..]);
    }
  }

  class ComputeExecutor {
    const capacity: nat
    var queue: seq<nat>
    var waiters: nat
    var reserved: nat
    var shuttingDown: bool
    var live: set<nat>
    ghost var accepted: seq<nat>
    ghost var ran: seq<nat>

    ghost function State(): Executor
      reads this
    {
      Executor(capacity, queue, waiters, reserved, shuttingDown, live, accepted, ran)
    }

    constructor (capacity: nat)
      ensures State() == Initial(capacity)
    {
      this.capacity, queue, waiters, reserved, shuttingDown, live := capacity, [], 0, 0, false, {};
      accepted, ran := [], [];
    }

    method RecordWaiter()
      modifies this`waiters
      ensures State() == Pressed(old(State()))
    {
      var limit := if capacity == 0 then 1 else capacity;
      if waiters < limit {
        waiters := waiters + 1;
      }
    }

    method Push(work: nat)
      modifies this
      ensures State() == Pushed(old(State()), work)
    {
      queue := queue + [work];
      waiters := 0;
    }

    predicate HasRoom()
      reads this
    {
      capacity != 0 && |queue| < capacity && reserved < capacity - |queue|
    }

    method SubmitWork(work: nat) returns (r: VoidResult)
      modifies this
      ensures r == Submit(old(State()), work).1 && State() == Step(old(State()), SubmitEvent(work))
    {
      r := TrySubmit(work);
      accepted := if r == Ok(()) then accepted + [work] else accepted;
    }

    method TrySubmit(work: nat) returns (r: VoidResult)
      modifies this
      ensures (State(), r) == Submit(old(State()), work)
    {
      if shuttingDown {
        return Err(Closed);
      }
      if !HasRoom() {
        RecordWaiter();
        return Err(ResourceExhausted);
      }
      Push(work);
      return Ok(());
    }

    /** The caller gets the reservation `id` with a success. */
    method TryReserveCapacity(id: nat) returns (r: VoidResult)
      requires id !in live
      modifies this
      ensures r == Reserve(old(State())).1 && State() == Step(old(State()), ReserveEvent(id))
    {
      r := TakePlace();
      live := if r == Ok(()) then live + {id} else live;
    }

    method TakePlace() returns (r: VoidResult)
      modifies this
      ensures (State(), r) == Reserve(old(State()))
    {
      if shuttingDown {
        return Err(Closed);
      }
      if !HasRoom() {
        RecordWaiter();
        return Err(ResourceExhausted);
      }
      reserved := reserved + 1;
      waiters := 0;
      return Ok(());
    }

    method ReleaseReservation(id: nat)
      modifies this
      ensures State() == Release(old(State()), id)
    {
      if id !in live {
        return;
      }
      live := live - {id};
      if !shuttingDown && reserved != 0 {
        reserved := reserved - 1;
        waiters := 0;
      }
    }

    method SubmitWithReservation(id: nat, work: nat) returns (r: VoidResult)
      modifies this
      ensures r == SubmitReserved(old(State()), id, work).1 && State() == Step(old(State()), SubmitReservedEvent(id, work))
    {
      r := ConsumeReservation(id, work);
      accepted := if r == Ok(()) then accepted + [work] else accepted;
    }

    method ConsumeReservation(id: nat, work: nat) returns (r: VoidResult)
      modifies this
      ensures (State(), r) == SubmitReserved(old(State()), id, work)
    {
      if shuttingDown {
        live := live - {id};
        return Err(Closed);
      }
      if id !in live || reserved == 0 || |queue| >= capacity {
        ReleaseReservation(id);
        return Err(InvalidState);
      }
      reserved := reserved - 1;
      live := live - {id};
      Push(work);
      return Ok(());
    }

    /** Work runs: it may use the executor itself, `more` times at most. */
    method RunWork(more: nat) returns (left: nat)
      requires Inv(State())
      modifies this
      ensures Inv(State()) && left <= more && (left == more ==> State() == old(State()))
      ensures ran == old(ran) && old(accepted) <= accepted
    {
      left := more;
      var again: bool := *;
      while again && left > 0
        invariant Inv(State()) && left <= more && (left == more ==> State() == old(State()))
        invariant ran == old(ran) && old(accepted) <= accepted
        decreases left
      {
        Use();
        left := left - 1;
        again := *;
      }
    }

    /** Any one call. */
    method Use()
      requires Inv(State())
      modifies this
      ensures Inv(State()) && ran == old(ran) && old(accepted) <= accepted
    {
      var kind: nat, id: nat, work: nat := *, *, *;
      if kind == 0 {
        StepKeepsInv(State(), SubmitEvent(work));
        var r := SubmitWork(work);
      } else if kind == 1 && id !in live {
        StepKeepsInv(State(), ReserveEvent(id));
        var r := TryReserveCapacity(id);
      } else if kind == 2 {
        StepKeepsInv(State(), ReleaseEvent(id));
        ReleaseReservation(id);
      } else if kind == 3 {
        StepKeepsInv(State(), SubmitReservedEvent(id, work));
        var r := SubmitWithReservation(id, work);
      } else if kind == 4 {
        StepKeepsInv(State(), ShutdownEvent);
        RequestShutdown();
      }
    }

    /**
     Runs until the queue is empty, in order; the work may use the executor `more` times in
     all. Afterwards everything accepted has run.
     */
    method RunUntilIdle(more: nat) returns (count: nat)
      requires Inv(State())
      modifies this
      ensures Inv(State()) && queue == [] && ran == accepted && old(accepted) <= accepted
      ensures |ran| == |old(ran)| + count
      ensures more == 0 ==> ran == old(ran) + old(queue)
    {
      ghost var all := queue;
      count := 0;
      var left: nat := more;
      while queue != []
        invariant Inv(State()) && left <= more && old(accepted) <= accepted && |ran| == |old(ran)| + count
        invariant more == 0 ==> count <= |all| && queue == all[count..] && ran == old(ran) + all[..count]
        decreases left, |queue|
      {
        if more == 0 {
          PrefixNext(all, count);
        }
        var work := PopFront();
        count := count + 1;
        left := RunWork(left);
      }
      assert ran + [] == ran;
    }

    /** Takes the oldest work and runs it. */
    method PopFront() returns (work: nat)
      requires Inv(State()) && queue != []
      modifies this
      ensures Inv(State()) && State() == Step(old(State()), RunEvent) && Some(work) == RunOne(old(State())).1
    {
      StepKeepsInv(State(), RunEvent);
      work := queue[0];
      queue := queue[1..];
      waiters := 0;
      ran := ran + [work];
    }

    method RequestShutdown()
      modifies this
      ensures State() == Shutdown(old(State()))
    {
      shuttingDown := true;
      waiters := 0;
      reserved := 0;
    }
  }
}
