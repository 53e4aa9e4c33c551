/** Theorems about whole runs of the io_uring backend, for every kernel behaviour. */
module UringRuns {
  import opened Common
  import opened Operations
  import opened HandleRegistry
  import VB = VirtualBackends
  import opened UringSpec
  import opened UringInvariant

  lemma StepKeepsInv(c: Config, u: Uring, e: Event)
    requires Inv(c, u) && Possible(c, u, e)
    ensures Inv(c, Step(c, u, e))
  {
    match e
    case RegisterEvent(native) => RegisterKeepsInv(c, u, native);
    case SubmitEvent(op) => SubmitKeepsInv(c, u, op);
    case CancelEvent(id, reason, outcome) => CancelKeepsInv(c, u, id, reason, outcome);
    case CloseEvent(token, ids, outcomes) =>
      if CloseCheck(c, u, token).Ok? {
        if c.kernel {
          CloseKernelKeepsInv(c, u, token, ids, outcomes);
        } else {
          CloseFallbackKeepsInv(c, u, token, ids, outcomes);
        }
      }
    case PollEvent(flush, ids, outcomes, cqes) =>
      if c.kernel {
        PollKernelKeepsInv(c, u, flush, ids, outcomes, cqes);
      } else {
        PollFallbackKeepsInv(c, u);
      }
    case DrainEvent(room) => DrainUringKeepsInv(c, u, room);
    case WakeEvent => WakeKeepsInv(c, u);
    case ShutdownEvent(ids, outcomes) => ShutdownKeepsInv(c, u, ids, outcomes);
  }

  lemma WakeKeepsInv(c: Config, u: Uring)
    requires Inv(c, u)
    ensures Inv(c, WakeUp(c, u))
  {
    var u' := WakeUp(c, u);
    assert forall id :: Places(u', id) == Places(u, id);
    assert forall id :: id in u.kernelOps ==> KernelOpOk(c, u, id, u.kernelOps[id]);
  }

  lemma {:induction false} RunKeepsInv(c: Config, u: Uring, events: seq<Event>)
    requires Inv(c, u) && PossibleRun(c, u, events)
    ensures Inv(c, Run(c, u, events))
    decreases |events|
  {
    if events != [] {
      StepKeepsInv(c, u, events[0]);
      RunKeepsInv(c, Step(c, u, events[0]), events[1..]);
    }
  }

  /** Polling, closing and shutting down change no active id, and of the registry only the closed token. */
  lemma PollKeepsActive(c: Config, u: Uring, e: Event)
    requires Possible(c, u, e) && e.PollEvent?
    ensures Step(c, u, e).active == u.active && Step(c, u, e).fallback.registry == u.fallback.registry
  {
    if c.kernel {
      PollKernelKeepsActive(c, u, e.flush, e.ids, e.outcomes, e.cqes);
    } else {
      SubmitAllRegistry(u.fallback, u.queue[..Min(c.submitLimit, |u.queue|)]);
    }
  }

  lemma PollKernelKeepsActive(c: Config, u: Uring, flush: seq<OpOutcome>, ids: seq<nat>, outcomes: seq<CancelOutcome>,
                              cqes: Option<seq<Cqe>>)
    requires (u.closed || |flush| <= |u.queue|) && |ids| == |outcomes|
    ensures var u' := PollKernel(c, u, flush, ids, outcomes, cqes); u'.active == u.active && u'.fallback == u.fallback
  {
    var u1 := Flushed(c, u, flush);
    if !u.closed {
      FlushActive(u, flush);
    }
    RequestAllActive(u1, ids, outcomes);
    ObserveActive(RequestAll(u1, ids, outcomes), if cqes.Some? then cqes.value else []);
  }

  lemma CloseKeepsActive(c: Config, u: Uring, token: Token, ids: seq<nat>, outcomes: seq<CancelOutcome>)
    requires |ids| == |outcomes|
    ensures var u' := CloseToken(c, u, token, ids, outcomes);
            && u'.active == u.active
            && (u'.fallback.registry == u.fallback.registry
                || u'.fallback.registry == ClosedRegistry(u.fallback.registry, token))
  {
    RequestAllActive(MarkClosing(u, Some(token)), ids, outcomes);
    SubmitAllRegistry(u.fallback, Picked(u.queue, ByHandle(token)));
  }

  lemma ShutdownKeepsActive(c: Config, u: Uring, ids: seq<nat>, outcomes: seq<CancelOutcome>)
    requires |ids| == |outcomes|
    ensures var u' := Shutdown(c, u, ids, outcomes);
            u'.active == u.active && u'.fallback.registry == u.fallback.registry
  {
    RequestAllActive(MarkClosing(u, None), ids, outcomes);
  }

  lemma {:induction false} SubmitAllRegistry(v: VB.Virtual, ops: seq<Operation>)
    ensures SubmitAll(v, ops).registry == v.registry
    decreases |ops|
  {
    if ops != [] {
      SubmitAllRegistry(VB.Submit(v, ops[0]), ops[1..]);
    }
  }

  /** All other calls but submitting and draining change no active id either. */
  lemma StepKeepsActive(c: Config, u: Uring, e: Event)
    requires Possible(c, u, e) && !e.SubmitEvent? && !e.DrainEvent?
    ensures Step(c, u, e).active == u.active
  {
    match e
    case PollEvent(_, _, _, _) => PollKeepsActive(c, u, e);
    case CloseEvent(token, ids, outcomes) => CloseKeepsActive(c, u, token, ids, outcomes);
    case ShutdownEvent(ids, outcomes) => ShutdownKeepsActive(c, u, ids, outcomes);
    case _ =>
  }

  /** Only submissions add active ids, and only drains remove them. */
  lemma StepActive(c: Config, u: Uring, e: Event, id: nat)
    requires Inv(c, u) && Possible(c, u, e)
    ensures One(id in u.active) + One(e.SubmitEvent? && e.op.id == id && SubmitCheck(c, u, e.op).Ok?)
            == One(id in Step(c, u, e).active) + (if e.DrainEvent? then DoneCount(DrainOutput(c, u, e.room), id) else 0)
  {
    match e
    case DrainEvent(room) => DrainUringKeepsInv(c, u, room);
    case SubmitEvent(_) =>
    case _ => StepKeepsActive(c, u, e);
  }

  lemma {:induction false} FlushActive(u: Uring, outcomes: seq<OpOutcome>)
    requires |outcomes| <= |u.queue|
    ensures Flush(u, outcomes).active == u.active && Flush(u, outcomes).fallback == u.fallback
    ensures Flush(u, outcomes).closed == u.closed
    decreases |outcomes|
  {
    if outcomes != [] && !outcomes[0].OpRefused? {
      FlushActive(FlushOne(u, outcomes[0]), outcomes[1..]);
    }
  }

  lemma {:induction false} RequestAllActive(u: Uring, ids: seq<nat>, outcomes: seq<CancelOutcome>)
    requires |ids| == |outcomes|
    ensures RequestAll(u, ids, outcomes).active == u.active && RequestAll(u, ids, outcomes).fallback == u.fallback
    ensures RequestAll(u, ids, outcomes).closed == u.closed
    decreases |ids|
  {
    if ids != [] {
      var next := if ids[0] in u.kernelOps && RetryRequired(u.kernelOps[ids[0]])
                  then RequestCancel(u, ids[0], outcomes[0]) else u;
      RequestAllActive(next, ids[1..], outcomes[1..]);
    }
  }

  lemma {:induction false} ObserveActive(u: Uring, cqes: seq<Cqe>)
    ensures Observe(u, cqes).active == u.active && Observe(u, cqes).fallback == u.fallback
    ensures Observe(u, cqes).closed == u.closed
    decreases |cqes|
  {
    if cqes != [] {
      ObserveActive(ObserveOne(u, cqes[0]), cqes[1..]);
    }
  }

  // Batches, from the back

  predicate NoneRefused(outcomes: seq<OpOutcome>) {
    forall i :: 0 <= i < |outcomes| ==> !outcomes[i].OpRefused?
  }

  /** A flush ends with its last submission. */
  lemma {:induction false} FlushAppend(u: Uring, outcomes: seq<OpOutcome>, outcome: OpOutcome)
    requires |outcomes| < |u.queue| && NoneRefused(outcomes)
    ensures |Flush(u, outcomes).queue| == |u.queue| - |outcomes|
    ensures Flush(u, outcomes + [outcome]) == FlushOne(Flush(u, outcomes), outcome)
    decreases |outcomes|
  {
    var all := outcomes + [outcome];
    if outcomes == [] {
      assert all[1..] == [];
      assert Flush(u, []) == u;
    } else {
      assert all[0] == outcomes[0] && all[1..] == outcomes[1..] + [outcome];
      FlushAppend(FlushOne(u, outcomes[0]), outcomes[1..], outcome);
    }
  }

  function RequestOne(u: Uring, id: nat, outcome: CancelOutcome): Uring {
    if id in u.kernelOps && RetryRequired(u.kernelOps[id]) then RequestCancel(u, id, outcome) else u
  }

  /** A round of requests ends with its last request. */
  lemma {:induction false} RequestAppend(u: Uring, ids: seq<nat>, outcomes: seq<CancelOutcome>, id: nat, outcome: CancelOutcome)
    requires |ids| == |outcomes|
    ensures RequestAll(u, ids + [id], outcomes + [outcome]) == RequestOne(RequestAll(u, ids, outcomes), id, outcome)
    decreases |ids|
  {
    if ids == [] {
      assert ([] + [id])[1..] == [] && ([] + [outcome])[1..] == [];
    } else {
      assert (ids + [id])[1..] == ids[1..] + [id] && (outcomes + [outcome])[1..] == outcomes[1..] + [outcome];
      RequestAppend(RequestOne(u, ids[0], outcomes[0]), ids[1..], outcomes[1..], id, outcome);
    }
  }

  lemma {:induction false} ObserveAppend(u: Uring, cqes: seq<Cqe>, cqe: Cqe)
    ensures Observe(u, cqes + [cqe]) == ObserveOne(Observe(u, cqes), cqe)
    decreases |cqes|
  {
    if cqes == [] {
      assert ([] + [cqe])[1..] == [];
    } else {
      assert (cqes + [cqe])[1..] == cqes[1..] + [cqe];
      ObserveAppend(ObserveOne(u, cqes[0]), cqes[1..], cqe);
    }
  }

  lemma {:induction false} Ledger(c: Config, u: Uring, events: seq<Event>, id: nat)
    requires Inv(c, u) && PossibleRun(c, u, events)
    ensures One(id in u.active) + Accepts(c, u, events, id)
            == Drains(c, u, events, id) + One(id in Run(c, u, events).active)
    decreases |events|
  {
    if events != [] {
      StepActive(c, u, events[0], id);
      StepKeepsInv(c, u, events[0]);
      Ledger(c, Step(c, u, events[0]), events[1..], id);
    }
  }

  /**
   Exactly-once completion. In every run from the empty backend and for every
   kernel behaviour, an id has been accepted as often as its completion has been
   drained, plus one exactly when it is still active; and an active id is in
   exactly one of the queue, the kernel operations and the completions (or, when
   kernel submission is off, the fallback).
   */
  lemma ExactlyOnce(c: Config, events: seq<Event>, id: nat)
    requires PossibleRun(c, EMPTY_URING, events)
    ensures var u := Run(c, EMPTY_URING, events);
            && Accepts(c, EMPTY_URING, events, id) == Drains(c, EMPTY_URING, events, id) + One(id in u.active)
            && One(id in u.active) == Places(u, id)
  {
    EmptyInv(c);
    Ledger(c, EMPTY_URING, events, id);
    RunKeepsInv(c, EMPTY_URING, events);
  }

  // Shutdown

  lemma {:induction false} ObserveRemoves(u: Uring, cqes: seq<Cqe>)
    ensures forall id :: id in Observe(u, cqes).kernelOps <==>
                           id in u.kernelOps && !exists i :: 0 <= i < |cqes| && cqes[i].kind.OperationDone? && cqes[i].id == id
    ensures Observe(u, cqes).queue == u.queue
    decreases |cqes|
  {
    if cqes != [] {
      var u1 := ObserveOne(u, cqes[0]);
      ObserveRemoves(u1, cqes[1..]);
      forall id
        ensures id in Observe(u, cqes).kernelOps <==>
                  id in u.kernelOps && !exists i :: 0 <= i < |cqes| && cqes[i].kind.OperationDone? && cqes[i].id == id
      {
        assert id in u1.kernelOps <==> id in u.kernelOps && !(cqes[0].kind.OperationDone? && cqes[0].id == id);
        if i :| 0 <= i < |cqes| && cqes[i].kind.OperationDone? && cqes[i].id == id {
          assert i > 0 ==> cqes[1..][i - 1] == cqes[i];
        } else {
          assert forall i :: 0 <= i < |cqes[1..]| ==> cqes[1..][i] == cqes[i + 1];
        }
      }
    }
  }

  predicate Sees(e: Event, id: nat) {
    && e.PollEvent? && e.cqes.Some?
    && exists i :: 0 <= i < |e.cqes.value| && e.cqes.value[i].kind.OperationDone? && e.cqes.value[i].id == id
  }

  predicate OnlyPolls(events: seq<Event>) {
    forall i :: 0 <= i < |events| ==> events[i].PollEvent?
  }

  lemma PollAfterShutdown(c: Config, u: Uring, e: Event)
    requires Inv(c, u) && u.closed && c.kernel && Possible(c, u, e) && e.PollEvent?
    ensures var u' := Step(c, u, e);
            && u'.closed && Inv(c, u')
            && forall id :: id in u'.kernelOps ==> id in u.kernelOps && !Sees(e, id)
  {
    StepKeepsInv(c, u, e);
    if HasKernelWork(u) {
      RequestAllKeepsInv(c, u, e.ids, e.outcomes);
      var u1 := RequestAll(u, e.ids, e.outcomes);
      ObserveRemoves(u1, if e.cqes.Some? then e.cqes.value else []);
      ObserveActive(u1, if e.cqes.Some? then e.cqes.value else []);
    }
  }

  lemma {:induction false} PollsAfterShutdown(c: Config, u: Uring, events: seq<Event>)
    requires Inv(c, u) && u.closed && c.kernel && PossibleRun(c, u, events) && OnlyPolls(events)
    ensures var u' := Run(c, u, events);
            && u'.closed && Inv(c, u')
            && forall id :: id in u'.kernelOps ==>
                 id in u.kernelOps && forall i :: 0 <= i < |events| ==> !Sees(events[i], id)
    decreases |events|
  {
    if events != [] {
      PollAfterShutdown(c, u, events[0]);
      PollsAfterShutdown(c, Step(c, u, events[0]), events[1..]);
      assert forall i :: 0 < i < |events| ==> events[1..][i - 1] == events[i];
    }
  }

  /**
   Deterministic shutdown. After shutdown nothing is queued and every kernel
   operation carries the close mark; once polls have seen an operation entry for
   each of them, in any order and any batching, one drain with enough room leaves
   no active id.
   */
  lemma ShutdownDrains(c: Config, u: Uring, events: seq<Event>, room: nat)
    requires Inv(c, u) && u.closed && c.kernel && PossibleRun(c, u, events) && OnlyPolls(events)
    requires forall id :: id in u.kernelOps ==> exists i :: 0 <= i < |events| && Sees(events[i], id)
    requires room > 0 && room >= |Run(c, u, events).completions|
    ensures u.queue == [] && forall id :: id in u.kernelOps ==> u.kernelOps[id].closeRequested
    ensures Run(c, u, events).kernelOps == map[] && Drain(c, Run(c, u, events), room).active == {}
  {
    assert forall id :: id in u.kernelOps ==> KernelOpOk(c, u, id, u.kernelOps[id]);
    PollsAfterShutdown(c, u, events);
    var polled := Run(c, u, events);
    assert polled.kernelOps == map[];
    DrainUringKeepsInv(c, polled, room);
    var drained := Drain(c, polled, room);
    forall id
      ensures id !in drained.active
    {
      assert One(id in drained.active) == Places(drained, id);
      assert drained.completions == [];
    }
  }
}
