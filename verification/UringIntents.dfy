/** Cancel intents are neither dropped nor duplicated, and handle generations isolate operations. */
module UringIntents {
  import opened Common
  import opened Operations
  import opened HandleRegistry
  import VB = VirtualBackends
  import opened UringSpec
  import opened UringInvariant
  import opened UringRuns

  // No intent is dropped

  ghost function Failures(outcomes: seq<CancelOutcome>): nat {
    if outcomes == [] then 0 else One(!outcomes[0].CancelAccepted?) + Failures(outcomes[1..])
  }

  lemma {:induction false} NoFailures(outcomes: seq<CancelOutcome>, i: nat)
    requires Failures(outcomes) == 0 && i < |outcomes|
    ensures outcomes[i].CancelAccepted?
  {
    if i > 0 {
      NoFailures(outcomes[1..], i - 1);
    }
  }

  /** After a round of requests, what still lacks a request was not accepted in this round. */
  lemma {:induction false} RequestAllServes(u: Uring, ids: seq<nat>, outcomes: seq<CancelOutcome>)
    requires |ids| == |outcomes|
    ensures var u' := RequestAll(u, ids, outcomes);
            forall id :: id in Missing(u') ==>
              id in Missing(u) && forall i :: 0 <= i < |ids| && ids[i] == id ==> !outcomes[i].CancelAccepted?
    decreases |ids|
  {
    if ids != [] {
      var next := if ids[0] in u.kernelOps && RetryRequired(u.kernelOps[ids[0]])
                  then RequestCancel(u, ids[0], outcomes[0]) else u;
      RequestAllServes(next, ids[1..], outcomes[1..]);
      assert forall i :: 0 < i < |ids| ==> ids[1..][i - 1] == ids[i] && outcomes[1..][i - 1] == outcomes[i];
      assert forall id :: id in Missing(next) ==> id in Missing(u) && (id == ids[0] ==> !outcomes[0].CancelAccepted?);
    }
  }

  lemma {:induction false} ObserveAddsNoMissing(c: Config, u: Uring, cqes: seq<Cqe>)
    requires Inv(c, u) && c.kernel
    ensures Missing(Observe(u, cqes)) <= Missing(u)
    decreases |cqes|
  {
    if cqes != [] {
      var u1 := ObserveOne(u, cqes[0]);
      ObserveOneKeepsInv(c, u, cqes[0]);
      ObserveAddsNoMissing(c, u1, cqes[1..]);
      forall id | id in Missing(u1)
        ensures id in Missing(u)
      {
        assert KernelOpOk(c, u, id, u.kernelOps[id]);
      }
    }
  }

  lemma {:induction false} FlushAddsNoMissing(u: Uring, outcomes: seq<OpOutcome>)
    requires |outcomes| <= |u.queue|
    ensures Missing(Flush(u, outcomes)) <= Missing(u)
    decreases |outcomes|
  {
    if outcomes != [] && !outcomes[0].OpRefused? {
      FlushAddsNoMissing(FlushOne(u, outcomes[0]), outcomes[1..]);
    }
  }

  /** Every kernel operation that its user cancelled, or whose handle or backend was closed, has its cancel request. */
  ghost predicate IntentsServed(u: Uring) {
    forall id :: id in u.kernelOps && (u.kernelOps[id].cancellation.Some? || u.kernelOps[id].closeRequested) ==>
      u.kernelOps[id].cancelSubmitted || u.kernelOps[id].cancelInFlight
  }

  /** What a poll retries is what keeps the intents from being served. */
  lemma MissingMeans(u: Uring)
    ensures Missing(u) == {} <==> IntentsServed(u)
  {
    if !IntentsServed(u) {
      var id :| id in u.kernelOps && (u.kernelOps[id].cancellation.Some? || u.kernelOps[id].closeRequested)
                && !u.kernelOps[id].cancelSubmitted && !u.kernelOps[id].cancelInFlight;
      assert id in Missing(u);
    }
  }

  /**
   A poll in which no cancel request is refused leaves every intent served, and a poll
   never leaves fewer served than before. Closed backends included.
   */
  lemma PollServesIntents(c: Config, u: Uring, e: Event)
    requires Inv(c, u) && c.kernel && Possible(c, u, e) && e.PollEvent?
    ensures Failures(e.outcomes) == 0 || IntentsServed(u) ==> IntentsServed(Step(c, u, e))
  {
    PollLeavesNoneMissing(c, u, e);
    MissingMeans(u);
    MissingMeans(Step(c, u, e));
  }

  lemma PollLeavesNoneMissing(c: Config, u: Uring, e: Event)
    requires Inv(c, u) && c.kernel && Possible(c, u, e) && e.PollEvent?
    ensures Failures(e.outcomes) == 0 || Missing(u) == {} ==> Missing(Step(c, u, e)) == {}
  {
    var u1 := Flushed(c, u, e.flush);
    if !u.closed && c.caps.available {
      FlushKeepsInv(c, u, e.flush);
      FlushAddsNoMissing(u, e.flush);
    }
    assert Missing(u1) <= Missing(u);
    if PollObserves(c, u, e.flush) {
      RetryServesIntents(c, u1, e.ids, e.outcomes, if e.cqes.Some? then e.cqes.value else []);
    } else {
      UnobservedHasNoMissing(c, u, e.flush);
    }
  }

  /** A poll that does not reach the kernel has no kernel operation to serve. */
  lemma UnobservedHasNoMissing(c: Config, u: Uring, flush: seq<OpOutcome>)
    requires Inv(c, u) && c.kernel && !PollObserves(c, u, flush)
    requires !u.closed && c.caps.available ==> RefusalShape(u, flush)
    ensures Missing(u) == {}
  {
    if u.closed || !c.caps.available {
      NoKernelOps(c, u);
    }
  }

  lemma RetryServesIntents(c: Config, u: Uring, ids: seq<nat>, outcomes: seq<CancelOutcome>, cqes: seq<Cqe>)
    requires Inv(c, u) && c.kernel && |ids| == |outcomes| && Enumerates(ids, Missing(u))
    ensures var u' := Observe(RequestAll(u, ids, outcomes), cqes);
            && Missing(u') <= Missing(u)
            && (Failures(outcomes) == 0 ==> Missing(u') == {})
  {
    RequestAllKeepsInv(c, u, ids, outcomes);
    RequestAllServes(u, ids, outcomes);
    ObserveAddsNoMissing(c, RequestAll(u, ids, outcomes), cqes);
    if Failures(outcomes) == 0 {
      forall id | id in Missing(u)
        ensures exists i :: 0 <= i < |ids| && ids[i] == id && outcomes[i].CancelAccepted?
      {
        assert id in ids;
        var i :| 0 <= i < |ids| && ids[i] == id;
        NoFailures(outcomes, i);
      }
    }
  }

  /** Without the capabilities that submission checks, or after the kernel work is done, nothing is in the kernel. */
  lemma NoKernelOps(c: Config, u: Uring)
    requires Inv(c, u) && c.kernel && (if u.closed then !HasKernelWork(u) else !c.caps.available)
    ensures u.kernelOps == map[]
  {
    assert forall id :: id in u.kernelOps ==> false;
  }

  /** How many cancel requests a run of polls has refused. */
  ghost function TotalFailures(events: seq<Event>): nat
    requires OnlyPolls(events)
  {
    if events == [] then 0 else Failures(events[0].outcomes) + TotalFailures(events[1..])
  }

  /** Finitely many refusals are used up: more polls than refused requests leave no intent unserved. */
  lemma {:induction false} PollingServesIntents(c: Config, u: Uring, events: seq<Event>)
    requires Inv(c, u) && c.kernel && PossibleRun(c, u, events) && OnlyPolls(events)
    ensures IntentsServed(u) || TotalFailures(events) < |events| ==> IntentsServed(Run(c, u, events))
    decreases |events|
  {
    if events != [] {
      PollServesIntents(c, u, events[0]);
      StepKeepsInv(c, u, events[0]);
      PollingServesIntents(c, Step(c, u, events[0]), events[1..]);
    }
  }

  // No intent is duplicated

  /** How many cancel requests for `id` the kernel accepted in one round. */
  ghost function Sent(ids: seq<nat>, outcomes: seq<CancelOutcome>, id: nat): nat
    requires |ids| == |outcomes|
  {
    if ids == [] then 0 else One(ids[0] == id && outcomes[0].CancelAccepted?) + Sent(ids[1..], outcomes[1..], id)
  }

  /** Whether a cancel request for `id` may still be sent. */
  ghost function Unsent(u: Uring, id: nat): nat {
    One(id in u.kernelOps && !u.kernelOps[id].cancelSubmitted)
  }

  /** How often a flush puts an operation with this id into the kernel. */
  ghost function Entered(u: Uring, flush: seq<OpOutcome>, id: nat): nat
    requires |flush| <= |u.queue|
    decreases |flush|
  {
    if flush == [] || flush[0].OpRefused? then 0
    else One(flush[0].OpAccepted? && u.queue[0].id == id) + Entered(FlushOne(u, flush[0]), flush[1..], id)
  }

  lemma {:induction false} FlushUnsent(u: Uring, flush: seq<OpOutcome>, id: nat)
    requires |flush| <= |u.queue|
    ensures Unsent(Flush(u, flush), id) <= Unsent(u, id) + Entered(u, flush, id)
    decreases |flush|
  {
    if flush != [] && !flush[0].OpRefused? {
      FlushUnsent(FlushOne(u, flush[0]), flush[1..], id);
    }
  }

  lemma RequestOneUnsent(u: Uring, target: nat, outcome: CancelOutcome, id: nat)
    requires target in Missing(u)
    ensures var u' := RequestCancel(u, target, outcome);
            && One(target == id && outcome.CancelAccepted?) + Unsent(u', id) <= Unsent(u, id)
            && forall x :: x in Missing(u) && x != target ==> x in Missing(u')
  {
  }

  lemma {:induction false} RequestAllUnsent(u: Uring, ids: seq<nat>, outcomes: seq<CancelOutcome>, id: nat)
    requires |ids| == |outcomes| && NoDuplicates(ids)
    requires forall i :: 0 <= i < |ids| ==> ids[i] in Missing(u)
    ensures Sent(ids, outcomes, id) + Unsent(RequestAll(u, ids, outcomes), id) <= Unsent(u, id)
    decreases |ids|
  {
    if ids != [] {
      RequestOneUnsent(u, ids[0], outcomes[0], id);
      var next := RequestCancel(u, ids[0], outcomes[0]);
      var rest := ids[1..];
      forall i | 0 <= i < |rest|
        ensures rest[i] in Missing(next)
      {
        assert rest[i] == ids[i + 1] && ids[i + 1] != ids[0];
      }
      RequestAllUnsent(next, rest, outcomes[1..], id);
    }
  }

  lemma {:induction false} ObserveUnsent(u: Uring, cqes: seq<Cqe>, id: nat)
    ensures Unsent(Observe(u, cqes), id) <= Unsent(u, id)
    decreases |cqes|
  {
    if cqes != [] {
      ObserveUnsent(ObserveOne(u, cqes[0]), cqes[1..], id);
    }
  }

  /** Cancel requests that the kernel accepts for `id` in one step. */
  ghost function StepSends(c: Config, u: Uring, e: Event, id: nat): nat
    requires Possible(c, u, e)
  {
    match e
    case CancelEvent(target, reason, outcome) =>
      One(target == id && outcome.CancelAccepted?
          && !u.closed && c.caps.available && c.caps.supportsCancel && c.kernel
          && FindQueued(u.queue, id) == |u.queue| && id in u.kernelOps
          && !u.kernelOps[id].cancelSubmitted && !u.kernelOps[id].cancelInFlight)
    case CloseEvent(token, ids, outcomes) =>
      if c.kernel && CloseCheck(c, u, token).Ok? then Sent(ids, outcomes, id) else 0
    case ShutdownEvent(ids, outcomes) =>
      if c.kernel && !u.closed && ShutdownCheck(c, u).Ok? then Sent(ids, outcomes, id) else 0
    case PollEvent(flush, ids, outcomes, _) =>
      if c.kernel && PollObserves(c, u, flush) then Sent(ids, outcomes, id) else 0
    case _ => 0
  }

  /** Operations with this id that the kernel accepts in one step. */
  ghost function StepEnters(c: Config, u: Uring, e: Event, id: nat): nat
    requires Possible(c, u, e)
  {
    if e.PollEvent? && c.kernel && !u.closed && c.caps.available then Entered(u, e.flush, id) else 0
  }

  lemma StepUnsent(c: Config, u: Uring, e: Event, id: nat)
    requires Inv(c, u) && c.kernel && Possible(c, u, e)
    ensures StepSends(c, u, e, id) + Unsent(Step(c, u, e), id) <= Unsent(u, id) + StepEnters(c, u, e, id)
  {
    match e
    case PollEvent(flush, ids, outcomes, cqes) => PollUnsent(c, u, flush, ids, outcomes, cqes, id);
    case CloseEvent(token, ids, outcomes) =>
      if CloseCheck(c, u, token).Ok? {
        MarkedUnsent(c, u, Some(token), ids, outcomes, id);
      }
    case ShutdownEvent(ids, outcomes) =>
      if !u.closed && ShutdownCheck(c, u).Ok? {
        MarkedUnsent(c, u, None, ids, outcomes, id);
      }
    case _ =>
  }

  lemma PollUnsent(c: Config, u: Uring, flush: seq<OpOutcome>, ids: seq<nat>, outcomes: seq<CancelOutcome>,
                   cqes: Option<seq<Cqe>>, id: nat)
    requires Inv(c, u) && c.kernel && Possible(c, u, PollEvent(flush, ids, outcomes, cqes))
    ensures var e := PollEvent(flush, ids, outcomes, cqes);
            StepSends(c, u, e, id) + Unsent(PollKernel(c, u, flush, ids, outcomes, cqes), id)
              <= Unsent(u, id) + StepEnters(c, u, e, id)
  {
    var u1 := Flushed(c, u, flush);
    if !u.closed && c.caps.available {
      FlushKeepsInv(c, u, flush);
      FlushUnsent(u, flush, id);
    }
    if PollObserves(c, u, flush) {
      assert forall i :: 0 <= i < |ids| ==> ids[i] in ids;
      RequestAllUnsent(u1, ids, outcomes, id);
      ObserveUnsent(RequestAll(u1, ids, outcomes), if cqes.Some? then cqes.value else [], id);
    }
  }

  lemma MarkedUnsent(c: Config, u: Uring, scope: Option<Token>, ids: seq<nat>, outcomes: seq<CancelOutcome>, id: nat)
    requires Inv(c, u) && c.kernel && |ids| == |outcomes| && Enumerates(ids, ToCancel(u, scope))
    ensures Sent(ids, outcomes, id) + Unsent(RequestAll(MarkClosing(u, scope), ids, outcomes), id) <= Unsent(u, id)
  {
    var marked := MarkClosing(u, scope);
    MarkClosingKeepsInv(c, u, scope);
    forall i | 0 <= i < |ids|
      ensures ids[i] in Missing(marked)
    {
      assert ids[i] in ids;
    }
    RequestAllUnsent(marked, ids, outcomes, id);
  }

  ghost function Sends(c: Config, u: Uring, events: seq<Event>, id: nat): nat
    requires PossibleRun(c, u, events)
    decreases |events|
  {
    if events == [] then 0
    else StepSends(c, u, events[0], id) + Sends(c, Step(c, u, events[0]), events[1..], id)
  }

  ghost function Enters(c: Config, u: Uring, events: seq<Event>, id: nat): nat
    requires PossibleRun(c, u, events)
    decreases |events|
  {
    if events == [] then 0
    else StepEnters(c, u, events[0], id) + Enters(c, Step(c, u, events[0]), events[1..], id)
  }

  lemma {:induction false} SendsBounded(c: Config, u: Uring, events: seq<Event>, id: nat)
    requires Inv(c, u) && c.kernel && PossibleRun(c, u, events)
    ensures Sends(c, u, events, id) + Unsent(Run(c, u, events), id) <= Unsent(u, id) + Enters(c, u, events, id)
    decreases |events|
  {
    if events != [] {
      StepUnsent(c, u, events[0], id);
      StepKeepsInv(c, u, events[0]);
      SendsBounded(c, Step(c, u, events[0]), events[1..], id);
    }
  }

  /** In every run the kernel accepts at most one cancel request per operation it accepted. */
  lemma AtMostOneCancelEach(c: Config, events: seq<Event>, id: nat)
    requires c.kernel && PossibleRun(c, EMPTY_URING, events)
    ensures Sends(c, EMPTY_URING, events, id) <= Enters(c, EMPTY_URING, events, id)
  {
    EmptyInv(c);
    SendsBounded(c, EMPTY_URING, events, id);
  }

  // Results

  /**
   What the completion of a kernel operation reports: cancelled exactly if the user asked
   and the kernel obeyed; closed exactly if the user did not ask, the handle is gone, and
   the operation is on a socket or was aborted; otherwise the kernel's own result, with
   its count for reads and writes and its handle for accepts.
   */
  lemma CompletionMeans(u: Uring, id: nat, k: KernelOperation, result: int)
    requires IsValidShape(k.op)
    ensures var c := CqeCompletion(u, id, k, result);
            var gone := k.closeRequested || !Current(u.fallback.registry, k.op.handle);
            && c.id == id
            && (forall reason :: c.result == Err(Cancelled(reason)) <==>
                  k.cancellation == Some(reason) && result == -ECANCELED)
            && (c.result == Err(Closed) <==>
                  k.cancellation.None? && gone && (k.op.target.Socket? || result == -ECANCELED))
            && (c.result.Ok? <==> result >= 0 && (k.cancellation.Some? || !gone || k.op.target.File?))
            && c.bytes == (if c.result.Ok? && (k.op.kind.Read? || k.op.kind.Write?) then result else 0)
            && c.acceptedHandle == (if c.result.Ok? && k.op.kind.Accept? then result else 0)
  {
  }

  // Handle isolation

  lemma StepRegistryLater(c: Config, u: Uring, e: Event)
    requires Possible(c, u, e) && Inv(c, u)
    ensures Later(u.fallback.registry, Step(c, u, e).fallback.registry)
  {
    match e
    case RegisterEvent(native) => StepsAreLater(u.fallback.registry, native, Token(0, 0));
    case CloseEvent(token, ids, outcomes) =>
      CloseKeepsActive(c, u, token, ids, outcomes);
      StepsAreLater(u.fallback.registry, 0, token);
    case PollEvent(_, _, _, _) => PollKeepsActive(c, u, e);
    case ShutdownEvent(ids, outcomes) => ShutdownKeepsActive(c, u, ids, outcomes);
    case _ =>
  }

  lemma {:induction false} RunRegistryLater(c: Config, u: Uring, events: seq<Event>)
    requires Inv(c, u) && PossibleRun(c, u, events)
    ensures Later(u.fallback.registry, Run(c, u, events).fallback.registry)
    decreases |events|
  {
    if events != [] {
      StepRegistryLater(c, u, events[0]);
      StepKeepsInv(c, u, events[0]);
      RunRegistryLater(c, Step(c, u, events[0]), events[1..]);
      LaterTransitive(u.fallback.registry, Step(c, u, events[0]).fallback.registry, Run(c, u, events).fallback.registry);
    }
  }

  /**
   Handle isolation. Once a token is closed, then in every later state, even after
   the same native handle has been registered again: the token is not current, no
   submission on it is accepted, nothing queued is on it, every kernel operation
   on it carries the close mark, and whatever the kernel reports for such a socket
   operation that the user did not cancel, its completion is `closed`.
   */
  lemma ClosedHandleStaysClosed(c: Config, u: Uring, events: seq<Event>, token: Token, op: Operation, id: nat, result: int)
    requires Inv(c, u) && PossibleRun(c, u, events) && Retired(u.fallback.registry, token)
    ensures var u' := Run(c, u, events);
            && Retired(u'.fallback.registry, token)
            && (op.handle == token ==> SubmitCheck(c, u', op).Err?)
            && (forall queued :: queued in u'.queue ==> queued.handle != token)
            && (id in u'.kernelOps && u'.kernelOps[id].op.handle == token ==>
                  && u'.kernelOps[id].closeRequested
                  && (u'.kernelOps[id].op.target.Socket? && u'.kernelOps[id].cancellation.None? ==>
                        CqeCompletion(u', id, u'.kernelOps[id], result) == ClosedCompletion(id)))
  {
    RunRegistryLater(c, u, events);
    RunKeepsInv(c, u, events);
    var u' := Run(c, u, events);
    RetiredForever(u.fallback.registry, u'.fallback.registry, token);
    assert id in u'.kernelOps ==> KernelOpOk(c, u', id, u'.kernelOps[id]);
  }

  /** A successful close retires its token and completes everything queued on it as closed, in order. */
  lemma CloseRetiresToken(c: Config, u: Uring, token: Token, ids: seq<nat>, outcomes: seq<CancelOutcome>)
    requires Inv(c, u) && Possible(c, u, CloseEvent(token, ids, outcomes)) && CloseCheck(c, u, token).Ok?
    ensures var u' := CloseToken(c, u, token, ids, outcomes);
            && Retired(u'.fallback.registry, token)
            && (c.kernel ==> u'.completions == u.completions + CloseAll(Picked(u.queue, ByHandle(token))))
  {
    SubmitAllRegistry(u.fallback, Picked(u.queue, ByHandle(token)));
    CloseRetires(u.fallback.registry, token);
    RequestAllActive(MarkClosing(u, Some(token)), ids, outcomes);
    if !c.kernel {
      var v := SubmitAll(u.fallback, Picked(u.queue, ByHandle(token)));
      FallbackCounts(c, u);
      SubmitAllStopped(u.fallback, Picked(u.queue, ByHandle(token)));
      assert VB.CloseToken(v, token).registry == ClosedRegistry(u.fallback.registry, token);
    }
  }

  lemma {:induction false} SubmitAllStopped(v: VB.Virtual, ops: seq<Operation>)
    ensures SubmitAll(v, ops).stopped == v.stopped
    decreases |ops|
  {
    if ops != [] {
      SubmitAllStopped(VB.Submit(v, ops[0]), ops[1..]);
    }
  }
}
