/**
 What the io_uring backend tells its callers and keeps for them, spelled out apart from
 the transition functions: acceptance, cancellation, intents and handed-out completions.
 */
module UringAnswers {
  import opened Common
  import opened Operations
  import opened HandleRegistry
  import VB = VirtualBackends
  import opened UringSpec
  import opened UringInvariant
  import opened UringRuns
  import opened UringIntents

  // Submitting

  /** The operation has a kind that its target has, and that the ring offers. */
  predicate Offered(caps: Capabilities, op: Operation) {
    || (op.kind == Read && caps.supportsRead)
    || (op.kind == Write && caps.supportsWrite)
    || (op.kind == Accept && caps.supportsAccept && op.target == Socket)
    || (op.kind == Connect && caps.supportsConnect && op.target == Socket)
    || (op.kind == Fsync && caps.supportsFsync && op.target == File)
  }

  /** The kernel's own limits: ids below the cancel tag, descriptors, 32-bit sizes, and a connect address. */
  predicate WithinKernelLimits(op: Operation) {
    && op.id < 0x8000_0000_0000_0000 && 0 < op.handle.native <= 0x7fff_ffff
    && (op.kind == Read ==> op.readSize <= 0xffff_ffff)
    && (op.kind == Write ==> op.writeSize <= 0xffff_ffff)
    && (op.kind == Connect ==> 0 < op.addressSize <= 0xffff_ffff)
  }

  /** Everything that an accepted submission needs besides room in the queue. */
  predicate Acceptable(c: Config, u: Uring, op: Operation) {
    && !u.closed && c.caps.available && Offered(c.caps, op)
    && op.id != 0 && op.id !in u.active && Current(u.fallback.registry, op.handle)
    && (c.kernel ==> c.caps.supportsCancel && WithinKernelLimits(op))
  }

  /** A submission is accepted exactly if it is acceptable and there is room, and then it is the last of the queue. */
  lemma SubmitAcceptsIff(c: Config, u: Uring, op: Operation)
    ensures var r := SubmitCheck(c, u, op);
            && (r == Ok(()) <==> Acceptable(c, u, op) && |u.queue| < c.queueCapacity)
            && (r == Err(ResourceExhausted) <==> Acceptable(c, u, op) && |u.queue| >= c.queueCapacity)
            && (r == Err(Closed) <==> u.closed)
            && (r == Err(Unsupported) ==> !c.caps.available || !Offered(c.caps, op) || (c.kernel && !c.caps.supportsCancel))
            && (r.Err? ==> r.error in {Closed, ResourceExhausted, Unsupported, InvalidState})
    ensures Submit(c, u, op) ==
            if SubmitCheck(c, u, op).Ok? then u.(queue := u.queue + [op], active := u.active + {op.id}) else u
  {
  }

  // Cancelling

  predicate Queued(u: Uring, id: nat) {
    exists i :: 0 <= i < |u.queue| && u.queue[i].id == id
  }

  /** A cancel request for the kernel operation was made, or its answer is still out. */
  predicate Requested(k: KernelOperation) {
    k.cancelSubmitted || k.cancelInFlight
  }

  /**
   An accepted cancel of queued work completes it as cancelled with the given reason and
   takes it out of the queue; of kernel work it records the reason unless there is one,
   and leaves the request made unless it was refused. Nothing else changes.
   */
  lemma CancelMeans(c: Config, u: Uring, id: nat, reason: CancellationReason, outcome: CancelOutcome)
    requires !u.closed && c.caps.available && c.caps.supportsCancel && c.kernel && (Queued(u, id) || id in u.kernelOps)
    ensures CancelCheck(c, u, id).Ok?
    ensures var u' := Cancel(c, u, id, reason, outcome);
            if Queued(u, id) then
              && u'.completions == u.completions + [Completion(id, Err(Cancelled(reason)), 0, 0)]
              && (exists i :: 0 <= i < |u.queue| && u.queue[i].id == id && u'.queue == u.queue[..i] + u.queue[i + 1..])
              && u' == u.(completions := u'.completions, queue := u'.queue)
            else
              && u'.kernelOps.Keys == u.kernelOps.Keys
              && u'.kernelOps[id].cancellation
                 == Some(if u.kernelOps[id].cancellation.Some? then u.kernelOps[id].cancellation.value else reason)
              && (outcome.CancelAccepted? ==> Requested(u'.kernelOps[id]))
              && (forall other :: other in u.kernelOps && other != id ==> u'.kernelOps[other] == u.kernelOps[other])
              && u' == u.(kernelOps := u'.kernelOps, cancelIds := u'.cancelIds)
  {
    var i := FindQueued(u.queue, id);
    assert Queued(u, id) <==> i < |u.queue|;
  }

  /** A cancel is refused exactly if the backend is closed, cannot cancel, or does not have the operation. */
  lemma CancelRefusals(c: Config, u: Uring, id: nat, reason: CancellationReason, outcome: CancelOutcome)
    ensures var r := CancelCheck(c, u, id);
            && (r == Err(Closed) <==> u.closed || (r.Err? && u.fallback.stopped && c.caps.available && c.caps.supportsCancel))
            && (r == Err(Unsupported) <==> !u.closed && !(c.caps.available && c.caps.supportsCancel))
            && (!u.closed && c.caps.available && c.caps.supportsCancel && !u.fallback.stopped ==>
                  (r == Ok(()) <==> Queued(u, id) || (c.kernel && id in u.kernelOps) || Pending(u, id)))
            && (r.Err? ==> Cancel(c, u, id, reason, outcome) == u)
  {
    assert Queued(u, id) <==> FindQueued(u.queue, id) < |u.queue|;
  }

  /** Work that the fallback has. */
  predicate Pending(u: Uring, id: nat) {
    id != 0 && exists i :: 0 <= i < |u.fallback.pending| && u.fallback.pending[i].id == id
  }

  // Intents

  /** A cancel call that reaches the kernel operation. */
  predicate Cancels(c: Config, u: Uring, e: Event, id: nat) {
    e.CancelEvent? && e.id == id && !u.closed && c.caps.available && c.caps.supportsCancel && !Queued(u, id)
  }

  /** A close of its handle, or a shutdown, that reaches the kernel operation. */
  predicate Closes(c: Config, u: Uring, e: Event, k: KernelOperation) {
    && !u.closed
    && (|| e.ShutdownEvent?
        || (e.CloseEvent? && c.caps.available && e.token == k.op.handle && Current(u.fallback.registry, e.token)))
  }

  /** Where the intents of the operation come from: only from the caller, and they stay as they are. */
  ghost predicate IntentLaw(c: Config, u: Uring, e: Event, u': Uring, id: nat) {
    id in u'.kernelOps ==>
      var k' := u'.kernelOps[id];
      if id in u.kernelOps then
        var k := u.kernelOps[id];
        && k'.op == k.op
        && k'.cancellation == (if Cancels(c, u, e, id) && k.cancellation.None? then Some(e.reason) else k.cancellation)
        && (k'.closeRequested <==> k.closeRequested || Closes(c, u, e, k))
      else
        e.PollEvent? && k'.op in u.queue && k'.op.id == id && k'.cancellation.None? && !k'.closeRequested
  }

  lemma CancelIntents(c: Config, u: Uring, e: Event, id: nat)
    requires c.kernel && e.CancelEvent?
    ensures IntentLaw(c, u, e, Cancel(c, u, e.id, e.reason, e.outcome), id)
  {
    assert Queued(u, e.id) <==> FindQueued(u.queue, e.id) < |u.queue|;
  }

  lemma CloseIntents(c: Config, u: Uring, e: Event, id: nat)
    requires Inv(c, u) && c.kernel && e.CloseEvent? && |e.ids| == |e.outcomes|
    ensures IntentLaw(c, u, e, CloseToken(c, u, e.token, e.ids, e.outcomes), id)
  {
    var marked := MarkClosing(u, Some(e.token));
    MarkClosingKeepsInv(c, u, Some(e.token));
    RequestAllKeepsInv(c, marked, e.ids, e.outcomes);
    if id in u.kernelOps {
      assert KernelOpOk(c, u, id, u.kernelOps[id]);
      assert SameIntent(marked.kernelOps[id], RequestAll(marked, e.ids, e.outcomes).kernelOps[id]);
    }
  }

  lemma ShutdownIntents(c: Config, u: Uring, e: Event, id: nat)
    requires Inv(c, u) && c.kernel && e.ShutdownEvent? && |e.ids| == |e.outcomes|
    ensures IntentLaw(c, u, e, Shutdown(c, u, e.ids, e.outcomes), id)
  {
    var marked := MarkClosing(u, None);
    MarkClosingKeepsInv(c, u, None);
    RequestAllKeepsInv(c, marked, e.ids, e.outcomes);
    if id in u.kernelOps {
      assert KernelOpOk(c, u, id, u.kernelOps[id]);
      assert SameIntent(marked.kernelOps[id], RequestAll(marked, e.ids, e.outcomes).kernelOps[id]);
    }
  }

  /** A flush brings operations of the queue into the kernel without any intent, and leaves those there alone. */
  lemma {:induction false} FlushIntents(u: Uring, flush: seq<OpOutcome>, id: nat)
    requires |flush| <= |u.queue|
    ensures var u' := Flush(u, flush);
            && (id in u.kernelOps ==> id in u'.kernelOps && u'.kernelOps[id] == u.kernelOps[id])
            && (id in u'.kernelOps && id !in u.kernelOps ==>
                  && u'.kernelOps[id].op in u.queue && u'.kernelOps[id].op.id == id
                  && u'.kernelOps[id].cancellation.None? && !u'.kernelOps[id].closeRequested)
    decreases |flush|
  {
    if flush != [] && !flush[0].OpRefused? {
      var next := FlushOne(u, flush[0]);
      FlushIntents(next, flush[1..], id);
      assert forall op :: op in next.queue ==> op in u.queue;
    }
  }

  lemma {:induction false} ObserveIntents(u: Uring, cqes: seq<Cqe>, id: nat)
    ensures var u' := Observe(u, cqes);
            id in u'.kernelOps ==> id in u.kernelOps && SameIntent(u.kernelOps[id], u'.kernelOps[id])
    decreases |cqes|
  {
    if cqes != [] {
      ObserveIntents(ObserveOne(u, cqes[0]), cqes[1..], id);
    }
  }

  lemma PollIntents(c: Config, u: Uring, e: Event, id: nat)
    requires Inv(c, u) && c.kernel && e.PollEvent? && Possible(c, u, e)
    ensures IntentLaw(c, u, e, PollKernel(c, u, e.flush, e.ids, e.outcomes, e.cqes), id)
  {
    var u1 := Flushed(c, u, e.flush);
    if !u.closed && c.caps.available {
      FlushKeepsInv(c, u, e.flush);
      FlushIntents(u, e.flush, id);
    }
    RequestAllKeepsInv(c, u1, e.ids, e.outcomes);
    var u2 := RequestAll(u1, e.ids, e.outcomes);
    assert id in u1.kernelOps ==> SameIntent(u1.kernelOps[id], u2.kernelOps[id]);
    ObserveIntents(u2, if e.cqes.Some? then e.cqes.value else [], id);
  }

  /**
   Over every step in kernel mode, an operation has a cancel reason exactly if it had one or
   a cancel call reaches it now, the first reason stays, it has the close mark exactly if it
   had it or its handle is closed or the backend shut down now, and it enters the kernel
   without either.
   */
  lemma StepIntents(c: Config, u: Uring, e: Event, id: nat)
    requires Inv(c, u) && c.kernel && Possible(c, u, e)
    ensures IntentLaw(c, u, e, Step(c, u, e), id)
  {
    match e
    case CancelEvent(_, _, _) => CancelIntents(c, u, e, id);
    case CloseEvent(_, _, _) => CloseIntents(c, u, e, id);
    case ShutdownEvent(_, _) => ShutdownIntents(c, u, e, id);
    case PollEvent(_, _, _, _) => PollIntents(c, u, e, id);
    case _ =>
  }

  lemma {:induction false} PollsKeepReason(c: Config, u: Uring, events: seq<Event>, id: nat)
    requires Inv(c, u) && c.kernel && PossibleRun(c, u, events) && OnlyPolls(events)
    requires id in u.active && !Queued(u, id)
    ensures var u' := Run(c, u, events);
            id in u'.kernelOps ==> id in u.kernelOps && SameIntent(u.kernelOps[id], u'.kernelOps[id])
    decreases |events|
  {
    if events != [] {
      var e, next := events[0], Step(c, u, events[0]);
      StepKeepsInv(c, u, e);
      StepIntents(c, u, e, id);
      PollKeepsActive(c, u, e);
      PollQueuesNothing(c, u, e, id);
      PollsKeepReason(c, next, events[1..], id);
    }
  }

  lemma PollQueuesNothing(c: Config, u: Uring, e: Event, id: nat)
    requires c.kernel && Possible(c, u, e) && e.PollEvent? && !Queued(u, id)
    ensures !Queued(Step(c, u, e), id)
  {
    var u1 := Flushed(c, u, e.flush);
    if !u.closed {
      FlushQueue(u, e.flush);
    }
    RequestAllQueue(u1, e.ids, e.outcomes);
    ObserveQueue(RequestAll(u1, e.ids, e.outcomes), if e.cqes.Some? then e.cqes.value else []);
    forall i | 0 <= i < |u1.queue|
      ensures u1.queue[i].id != id
    {
      assert u1.queue[i] in u.queue;
    }
  }

  lemma {:induction false} FlushQueue(u: Uring, flush: seq<OpOutcome>)
    requires |flush| <= |u.queue|
    ensures forall op :: op in Flush(u, flush).queue ==> op in u.queue
    decreases |flush|
  {
    if flush != [] && !flush[0].OpRefused? {
      FlushQueue(FlushOne(u, flush[0]), flush[1..]);
    }
  }

  lemma {:induction false} RequestAllQueue(u: Uring, ids: seq<nat>, outcomes: seq<CancelOutcome>)
    requires |ids| == |outcomes|
    ensures RequestAll(u, ids, outcomes).queue == u.queue
    decreases |ids|
  {
    if ids != [] {
      RequestAllQueue(RequestOne(u, ids[0], outcomes[0]), ids[1..], outcomes[1..]);
    }
  }

  lemma {:induction false} ObserveQueue(u: Uring, cqes: seq<Cqe>)
    ensures Observe(u, cqes).queue == u.queue
    decreases |cqes|
  {
    if cqes != [] {
      ObserveQueue(ObserveOne(u, cqes[0]), cqes[1..]);
    }
  }

  /**
   A user's cancel is not lost: after it, once there were more polls than refused cancel
   requests, the operation has completed, or its cancellation is requested and the first
   reason still stands.
   */
  lemma CancelReachesKernel(c: Config, u: Uring, id: nat, reason: CancellationReason, outcome: CancelOutcome, events: seq<Event>)
    requires Inv(c, u) && c.kernel && !u.closed && c.caps.available && c.caps.supportsCancel
    requires id in u.kernelOps && !Queued(u, id)
    requires PossibleRun(c, Cancel(c, u, id, reason, outcome), events) && OnlyPolls(events)
    requires TotalFailures(events) < |events|
    ensures var u' := Run(c, Cancel(c, u, id, reason, outcome), events);
            id in u'.kernelOps ==>
              && Requested(u'.kernelOps[id])
              && u'.kernelOps[id].cancellation
                 == Some(if u.kernelOps[id].cancellation.Some? then u.kernelOps[id].cancellation.value else reason)
  {
    var u1 := Cancel(c, u, id, reason, outcome);
    CancelMeans(c, u, id, reason, outcome);
    CancelKeepsInv(c, u, id, reason, outcome);
    assert One(id in u.active) == Places(u, id);
    PollingServesIntents(c, u1, events);
    PollsKeepReason(c, u1, events, id);
  }

  /** What becomes of the first queued operation: in the kernel without intents, told the enter error, or still queued. */
  lemma FlushOneMeans(c: Config, u: Uring, outcome: OpOutcome)
    requires Inv(c, u) && c.kernel && u.queue != []
    ensures var op, u' := u.queue[0], FlushOne(u, outcome);
            match outcome
            case OpAccepted =>
              && u' == u.(queue := u.queue[1..], kernelOps := u'.kernelOps)
              && u'.kernelOps == u.kernelOps[op.id := KernelOperation(op, None, false, false, false)]
            case OpEnterFailed(error) =>
              u' == u.(queue := u.queue[1..], completions := u.completions + [Completion(op.id, Err(error), 0, 0)])
            case OpRefused(_) => u' == u
  {
    FlushOneKeepsPlaces(u, outcome);
    assert u.queue[0] in u.queue;
  }

  /**
   What one completion entry does: that of a stored operation completes it with the result for it, an
   acknowledgement only says that no cancel is out any more, and anything else changes nothing.
   */
  lemma EntryMeans(u: Uring, cqe: Cqe)
    ensures var u' := ObserveOne(u, cqe); var known := cqe.id in u.kernelOps;
            if cqe.kind.CancelAck? then
              && u' == u.(cancelIds := u.cancelIds - {cqe.id}, kernelOps := u'.kernelOps)
              && u'.kernelOps
                 == (if known then u.kernelOps[cqe.id := u.kernelOps[cqe.id].(cancelInFlight := false)] else u.kernelOps)
            else if known then
              && u' == u.(kernelOps := u.kernelOps - {cqe.id}, completions := u'.completions)
              && u'.completions == u.completions + [CqeCompletion(u, cqe.id, u.kernelOps[cqe.id], cqe.result)]
            else u' == u
  {
  }

  // Closing, shutting down and draining

  /** Which closes and shutdowns are refused, with which code; a refused one changes nothing. */
  lemma CloseAnswers(c: Config, u: Uring, token: Token, ids: seq<nat>, outcomes: seq<CancelOutcome>)
    requires |ids| == |outcomes|
    ensures var stuck := c.kernel && u.kernelOps.Keys != {} && !c.caps.supportsCancel; var r := CloseCheck(c, u, token);
            && (r == Ok(()) <==> !u.closed && c.caps.available && Current(u.fallback.registry, token) && !stuck)
            && (r == Err(Closed) <==> u.closed)
            && (r == Err(InvalidState) <==> !u.closed && c.caps.available && !Current(u.fallback.registry, token))
            && (r.Err? ==> CloseToken(c, u, token, ids, outcomes) == u)
            && (ShutdownCheck(c, u) == Ok(()) <==> u.closed || !stuck)
            && (ShutdownCheck(c, u).Err? ==> Shutdown(c, u, ids, outcomes) == u)
  {
    assert u.kernelOps == map[] <==> u.kernelOps.Keys == {};
  }

  /** A shutdown completes the queued work as closed, in order, and marks every kernel operation. */
  lemma ShutdownMeans(c: Config, u: Uring, ids: seq<nat>, outcomes: seq<CancelOutcome>)
    requires Inv(c, u) && c.kernel && !u.closed && c.caps.supportsCancel && |ids| == |outcomes|
    ensures var u' := Shutdown(c, u, ids, outcomes);
            && u'.closed && u'.queue == [] && u'.kernelOps.Keys == u.kernelOps.Keys
            && (forall id :: id in u'.kernelOps ==> u'.kernelOps[id].closeRequested)
            && |u'.completions| == |u.completions| + |u.queue|
            && u'.completions[..|u.completions|] == u.completions
            && forall i :: 0 <= i < |u.queue| ==>
                 u'.completions[|u.completions| + i] == Completion(u.queue[i].id, Err(Closed), 0, 0)
  {
    MarkedAll(c, u, ids, outcomes);
    assert VB.Stopped(u.fallback).completions == [] && u.completions + [] == u.completions;
  }

  lemma MarkedAll(c: Config, u: Uring, ids: seq<nat>, outcomes: seq<CancelOutcome>)
    requires Inv(c, u) && c.kernel && |ids| == |outcomes|
    ensures var u' := RequestAll(MarkClosing(u, None), ids, outcomes);
            u'.kernelOps.Keys == u.kernelOps.Keys && forall id :: id in u'.kernelOps ==> u'.kernelOps[id].closeRequested
  {
    var marked := MarkClosing(u, None);
    MarkClosingKeepsInv(c, u, None);
    RequestAllKeepsInv(c, marked, ids, outcomes);
    forall id | id in marked.kernelOps
      ensures RequestAll(marked, ids, outcomes).kernelOps[id].closeRequested
    {
      assert SameIntent(marked.kernelOps[id], RequestAll(marked, ids, outcomes).kernelOps[id]);
    }
  }

  /** A drain hands out the first completions as they are, in order, and keeps the others. */
  lemma DrainHandsOut(c: Config, u: Uring, room: nat)
    ensures DrainOutput(c, u, room) + Drain(c, u, room).completions == u.completions
    ensures |DrainOutput(c, u, room)| ==
              if u.closed || c.caps.available then Min(room, |u.completions|) else 0
  {
  }
}
