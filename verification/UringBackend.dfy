/**
 The io_uring backend class over the program's test kernel, method by
 method in the imperative form of src/backends_io_uring_backend.cpp. Every method
 is proved against the transition functions of UringSpec.
 */
module UringBackends {
  import opened Common
  import opened Operations
  import VB = VirtualBackends
  import opened UringSpec
  import opened UringInvariant
  import opened UringRuns
  import opened UringIntents
  import opened UringRefinement

  /** `io_uring_test_kernel`: scripted completions and cancel refusals, and a log of what it was sent. */
  class TestKernel {
    var cancelFailures: nat
    var completions: seq<Cqe>
    var submittedCancels: seq<nat>
    var submissions: seq<nat>

    constructor ()
      ensures cancelFailures == 0 && completions == [] && submittedCancels == [] && submissions == []
    {
      cancelFailures, completions, submittedCancels, submissions := 0, [], [], [];
    }
  }

  /** The test kernel refuses its first `failures` cancel requests. */
  function CancelOutcomes(failures: nat, n: nat): (r: seq<CancelOutcome>)
    ensures |r| == n
  {
    seq(n, i => if i < failures then CancelRefused else CancelAccepted)
  }

  function AllAccepted(n: nat): (r: seq<OpOutcome>)
    ensures |r| == n && forall i :: 0 <= i < n ==> r[i] == OpAccepted
  {
    seq(n, _ => OpAccepted)
  }

  function Less(a: nat, b: nat): nat {
    if a <= b then 0 else a - b
  }

  class IoUringBackend {
    const config: Config
    const fallback: VB.VirtualBackend
    const kernel: TestKernel
    var queue: seq<Operation>
    var completions: seq<Completion>
    var kernelOps: map<nat, KernelOperation>
    var cancelIds: set<nat>
    var active: set<nat>
    var closed: bool

    ghost function State(): Uring
      reads this, fallback, fallback.registry
    {
      Uring(fallback.State(), queue, kernelOps, cancelIds, completions, active, closed)
    }

    ghost predicate Valid()
      reads this, fallback, fallback.registry
    {
      && Inv(config, State())
      && config.submitLimit > 0 && config.completionLimit > 0
    }

    constructor (options: Config, kernel: TestKernel)
      ensures Valid() && State() == EMPTY_URING && config == Normalize(options)
      ensures this.kernel == kernel && fresh(fallback) && fresh(fallback.registry)
    {
      config := Normalize(options);
      fallback := new VB.VirtualBackend();
      this.kernel := kernel;
      queue, completions, kernelOps, cancelIds, active, closed := [], [], map[], {}, {}, false;
      new;
      EmptyInv(config);
    }

    method RegisterHandle(native: nat) returns (r: Result<Token, ErrorCode>)
      requires Valid()
      modifies fallback, fallback.registry
      ensures Valid() && State() == Register(config, old(State()), native)
      ensures r == if closed then Err(Closed) else if !config.caps.available then Err(Unsupported)
                   else VB.RegisterHandle(old(State()).fallback, native).1
    {
      RegisterKeepsInv(config, State(), native);
      if closed {
        return Err(Closed);
      }
      if !config.caps.available {
        return Err(Unsupported);
      }
      r := fallback.Register(native);
    }

    method SubmitOperation(op: Operation) returns (r: VoidResult)
      requires Valid()
      modifies this`active, this`queue
      ensures Valid() && State() == Submit(config, old(State()), op)
      ensures r == SubmitCheck(config, old(State()), op)
    {
      SubmitKeepsInv(config, State(), op);
      if closed {
        return Err(Closed);
      }
      if !config.caps.available {
        return Err(Unsupported);
      }
      if !IsValidShape(op) {
        return Err(InvalidState);
      }
      if !Supports(config.caps, op.kind) {
        return Err(Unsupported);
      }
      if op.id == 0 {
        return Err(InvalidState);
      }
      if !fallback.IsCurrentHandle(op.handle) {
        return Err(InvalidState);
      }
      if config.kernel {
        if !config.caps.supportsCancel {
          return Err(Unsupported);
        }
        if op.id >= CANCEL_TAG {
          return Err(InvalidState);
        }
        if !FitsKernel(op) {
          return Err(InvalidState);
        }
      }
      if op.id in active {
        return Err(InvalidState);
      }
      if |queue| >= config.queueCapacity {
        return Err(ResourceExhausted);
      }
      active := active + {op.id};
      queue := queue + [op];
      return Ok(());
    }

    /** `request_test_kernel_cancellation_for`. */
    method RequestCancellation(id: nat) returns (ok: bool, ghost outcome: CancelOutcome)
      requires id in kernelOps
      modifies this`kernelOps, this`cancelIds, kernel`cancelFailures, kernel`submittedCancels
      ensures ok <==> old(kernel.cancelFailures) == 0
      ensures outcome == if ok then CancelAccepted else CancelRefused
      ensures State() == RequestCancel(old(State()), id, outcome)
      ensures kernel.cancelFailures == Less(old(kernel.cancelFailures), 1)
      ensures kernel.submittedCancels == old(kernel.submittedCancels) + if ok then [id] else []
    {
      if kernel.cancelFailures != 0 {
        kernel.cancelFailures := kernel.cancelFailures - 1;
        return false, CancelRefused;
      }
      kernelOps := kernelOps[id := kernelOps[id].(cancelSubmitted := true, cancelInFlight := true)];
      cancelIds := cancelIds + {id};
      kernel.submittedCancels := kernel.submittedCancels + [id];
      return true, CancelAccepted;
    }

    /** Requests each listed cancellation that is still wanted at its turn. */
    method RequestEach(ids: seq<nat>)
      requires Valid() && config.kernel
      requires forall i :: 0 <= i < |ids| ==> ids[i] in Missing(State())
      requires NoDuplicates(ids)
      modifies this`kernelOps, this`cancelIds, kernel`cancelFailures, kernel`submittedCancels
      ensures Valid()
      ensures State() == RequestAll(old(State()), ids, CancelOutcomes(old(kernel.cancelFailures), |ids|))
      ensures kernel.cancelFailures == Less(old(kernel.cancelFailures), |ids|)
    {
      ghost var before, outcomes := State(), CancelOutcomes(kernel.cancelFailures, |ids|);
      for i := 0 to |ids|
        invariant kernel.cancelFailures == Less(old(kernel.cancelFailures), i)
        invariant State() == RequestAll(before, ids[..i], outcomes[..i])
      {
        RequestTurn(config, before, ids, outcomes, i);
        if ids[i] in kernelOps && !kernelOps[ids[i]].cancelSubmitted && !kernelOps[ids[i]].cancelInFlight {
          var ok, outcome := RequestCancellation(ids[i]);
        }
      }
      assert ids[..|ids|] == ids && outcomes[..|ids|] == outcomes;
      RequestAllKeepsInv(config, before, ids, outcomes);
    }

    /** `request_kernel_cancellations_for`. */
    method RequestCancellationsFor(token: Token) returns (r: VoidResult, ghost ids: seq<nat>)
      requires Valid() && config.kernel
      modifies this`kernelOps, this`cancelIds, kernel`cancelFailures, kernel`submittedCancels
      ensures Valid() && r.Ok? && Enumerates(ids, ToCancel(old(State()), ScopeOf(token)))
      ensures State() == RequestAll(MarkClosing(old(State()), ScopeOf(token)), ids,
                                    CancelOutcomes(old(kernel.cancelFailures), |ids|))
    {
      ghost var before := State();
      if kernelOps == map[] {
        assert MarkClosing(before, ScopeOf(token)) == before;
        return Ok(()), [];
      }
      if !config.caps.supportsCancel {
        NoCancelNoOps(config, before);
        assert false;
        return Err(Unsupported), [];
      }
      var marked, toCancel := MarkOperations(kernelOps, token, before);
      kernelOps := marked;
      assert State() == MarkClosing(before, ScopeOf(token));
      MarkClosingKeepsInv(config, before, ScopeOf(token));
      forall i | 0 <= i < |toCancel|
        ensures toCancel[i] in Missing(State())
      {
        assert toCancel[i] in toCancel;
      }
      RequestEach(toCancel);
      return Ok(()), toCancel;
    }

    /** The queue search of `cancel`. */
    method FindInQueue(id: nat) returns (i: nat)
      ensures i == FindQueued(queue, id)
    {
      i := 0;
      while i < |queue| && queue[i].id != id
        invariant i <= |queue| && FindQueued(queue, id, i) == FindQueued(queue, id)
      {
        i := i + 1;
      }
    }

    method CancelOperation(id: nat, reason: CancellationReason) returns (r: VoidResult, ghost outcome: CancelOutcome)
      requires Valid()
      modifies this, fallback, kernel`cancelFailures, kernel`submittedCancels
      ensures Valid() && State() == Cancel(config, old(State()), id, reason, outcome)
      ensures r == CancelCheck(config, old(State()), id)
    {
      ghost var before := State();
      outcome := CancelRefused;
      CancelKeepsInv(config, before, id, reason, CancelAccepted);
      CancelKeepsInv(config, before, id, reason, CancelRefused);
      if closed {
        return Err(Closed), outcome;
      }
      if !config.caps.available {
        return Err(Unsupported), outcome;
      }
      if !config.caps.supportsCancel {
        return Err(Unsupported), outcome;
      }
      var i := FindInQueue(id);
      if i < |queue| {
        completions := completions + [Plain(queue[i].id, Err(Cancelled(reason)))];
        queue := queue[..i] + queue[i + 1..];
        return Ok(()), outcome;
      }
      if config.kernel {
        if id in kernelOps {
          outcome := CancelInKernel(id, reason);
          return Ok(()), outcome;
        }
      }
      r := fallback.CancelOperation(id);
      return r, outcome;
    }

    /** The part of `cancel` for an operation that the kernel holds. */
    method CancelInKernel(id: nat, reason: CancellationReason) returns (ghost outcome: CancelOutcome)
      requires id in kernelOps
      modifies this`kernelOps, this`cancelIds, kernel`cancelFailures, kernel`submittedCancels
      ensures outcome.CancelAccepted? || outcome.CancelRefused?
      ensures var u := old(State());
              var k := u.kernelOps[id];
              var k' := if k.cancellation.None? then k.(cancellation := Some(reason)) else k;
              var u' := u.(kernelOps := u.kernelOps[id := k']);
              State() == if k.cancelSubmitted || k.cancelInFlight then u' else RequestCancel(u', id, outcome)
    {
      outcome := CancelRefused;
      if kernelOps[id].cancellation.None? {
        kernelOps := kernelOps[id := kernelOps[id].(cancellation := Some(reason))];
      }
      assert kernelOps == old(kernelOps)[id := kernelOps[id]];
      if kernelOps[id].cancelSubmitted || kernelOps[id].cancelInFlight {
        return;
      }
      var ok;
      ok, outcome := RequestCancellation(id);
    }

    /** `complete_queued_submissions_for`. */
    method CompleteQueuedFor(token: Token)
      modifies this`queue, this`completions
      ensures State() == old(State()).(queue := Unpicked(old(queue), ByHandle(token)),
                                       completions := old(completions) + CloseAll(Picked(old(queue), ByHandle(token))))
    {
      ghost var before, done, sel := queue, 0, ByHandle(token);
      var i := 0;
      while i < |queue|
        invariant 0 <= done <= |before| && 0 <= i <= |queue|
        invariant queue[..i] == UnpickedTo(before, done, sel)
        invariant queue[i..] == before[done..]
        invariant completions == old(completions) + CloseAll(PickedTo(before, done, sel))
        decreases |before| - done
      {
        assert queue[i] == queue[i..][0] == before[done];
        PickStep(before, done, sel, Err(Closed));
        ErasePosition(queue, i);
        if queue[i].handle == token {
          completions := completions + [ClosedCompletion(queue[i].id)];
          queue := queue[..i] + queue[i + 1..];
        } else {
          i := i + 1;
        }
        done := done + 1;
      }
      assert queue[..i] == queue;
    }

    /** `submit_to_fallback`: on failure the id would stop being active. */
    method SubmitToFallback(op: Operation) returns (r: VoidResult)
      modifies this`active, fallback
      ensures fallback.State() == VB.Submit(old(fallback.State()), op)
      ensures r == VB.SubmitCheck(old(fallback.State()), op)
      ensures active == if r.Ok? then old(active) else old(active) - {op.id}
    {
      r := fallback.SubmitOperation(op);
      if r.Err? {
        active := active - {op.id};
      }
    }

    /** `flush_queued_submissions_for`: its failure branch is unreachable. */
    method FlushQueuedFor(token: Token) returns (r: VoidResult)
      requires Valid() && !config.kernel && !closed
      modifies this`queue, this`active, fallback
      ensures r.Ok?
      ensures State() == old(State()).(queue := Unpicked(old(queue), ByHandle(token)),
                                       fallback := SubmitAll(old(fallback.State()), Picked(old(queue), ByHandle(token))))
    {
      ghost var before, done, sel := queue, 0, ByHandle(token);
      ghost var start, taken := fallback.State(), Picked(queue, ByHandle(token));
      PickedSubmittable(config, State(), token);
      var i := 0;
      while i < |queue|
        invariant 0 <= done <= |before| && 0 <= i <= |queue|
        invariant queue[..i] == UnpickedTo(before, done, sel)
        invariant queue[i..] == before[done..]
        invariant fallback.State() == SubmitAll(start, PickedTo(before, done, sel))
        invariant active == old(active)
        decreases |before| - done
      {
        assert queue[i] == queue[i..][0] == before[done];
        PickStep(before, done, sel, Err(Closed));
        ErasePosition(queue, i);
        if queue[i].handle == token {
          NextPicked(before, done, sel);
          AcceptsNext(start, taken, |PickedTo(before, done, sel)|);
          var op := queue[i];
          queue := queue[..i] + queue[i + 1..];
          var submitted := SubmitToFallback(op);
          if submitted.Err? {
            assert false;
            return submitted;
          }
        } else {
          i := i + 1;
        }
        done := done + 1;
      }
      assert queue[..i] == queue;
      return Ok(());
    }

    method CloseHandle(token: Token) returns (r: VoidResult, ghost ids: seq<nat>, ghost outcomes: seq<CancelOutcome>)
      requires Valid()
      modifies this, fallback, fallback.registry, kernel`cancelFailures, kernel`submittedCancels
      ensures Valid() && r == CloseCheck(config, old(State()), token)
      ensures |ids| == |outcomes| && State() == CloseToken(config, old(State()), token, ids, outcomes)
      ensures r.Ok? && config.kernel ==> Enumerates(ids, ToCancel(old(State()), Some(token)))
    {
      ghost var before := State();
      ids, outcomes := [], [];
      if closed {
        return Err(Closed), ids, outcomes;
      }
      if !config.caps.available {
        return Err(Unsupported), ids, outcomes;
      }
      if !fallback.IsCurrentHandle(token) {
        return Err(InvalidState), ids, outcomes;
      }
      assert token.generation > 0;
      if config.kernel {
        ghost var failures := kernel.cancelFailures;
        r, ids := RequestCancellationsFor(token);
        outcomes := CancelOutcomes(failures, |ids|);
        if r.Err? {
          assert false;
          return r, ids, outcomes;
        }
        RequestAllActive(MarkClosing(before, Some(token)), ids, outcomes);
        RequestAllKeepsQueue(MarkClosing(before, Some(token)), ids, outcomes);
        CompleteQueuedFor(token);
        CloseKernelKeepsInv(config, before, token, ids, outcomes);
      } else {
        var flushed := FlushQueuedFor(token);
        if flushed.Err? {
          assert false;
          return flushed, ids, outcomes;
        }
        CloseFallbackKeepsInv(config, before, token, ids, outcomes);
        SubmitAllStopped(before.fallback, Picked(before.queue, ByHandle(token)));
        SubmitAllRegistry(before.fallback, Picked(before.queue, ByHandle(token)));
      }
      var closedToken := fallback.Close(token);
      return closedToken, ids, outcomes;
    }

    /** `flush_submission_batch` over the test kernel, which accepts every operation. */
    method FlushToKernel()
      requires Valid() && config.kernel && !closed
      modifies this`queue, this`kernelOps, kernel`submissions
      ensures Valid()
      ensures State() == Flush(old(State()), AllAccepted(Min(config.submitLimit, |old(queue)|)))
    {
      var count := Min(config.submitLimit, |queue|);
      ghost var before := State();
      for flushed := 0 to count
        invariant queue == before.queue[flushed..] && State() == Flush(before, AllAccepted(flushed))
      {
        assert AllAccepted(flushed + 1) == AllAccepted(flushed) + [OpAccepted];
        FlushAppend(before, AllAccepted(flushed), OpAccepted);
        SubmitFront();
      }
      FlushKeepsInv(config, before, AllAccepted(count));
    }

    /** `submit_to_test_kernel` for the first queued operation, which passed the same validation when it was submitted. */
    method SubmitFront()
      requires queue != []
      modifies this`queue, this`kernelOps, kernel`submissions
      ensures queue == old(queue)[1..] && State() == FlushOne(old(State()), OpAccepted)
    {
      var op := queue[0];
      kernel.submissions := kernel.submissions + [op.id];
      if op.id !in kernelOps {
        kernelOps := kernelOps[op.id := Fresh(op)];
      }
      queue := queue[1..];
    }

    /** `retry_missing_kernel_cancellations`. */
    method RetryMissing() returns (ghost ids: seq<nat>)
      requires Valid() && config.kernel
      modifies this`kernelOps, this`cancelIds, kernel`cancelFailures, kernel`submittedCancels
      ensures Valid() && Enumerates(ids, Missing(old(State())))
      ensures State() == RequestAll(old(State()), ids, CancelOutcomes(old(kernel.cancelFailures), |ids|))
      ensures kernel.cancelFailures == Less(old(kernel.cancelFailures), |ids|)
    {
      ghost var before := State();
      var toRetry := CollectMissing(kernelOps, before);
      assert forall i :: 0 <= i < |toRetry| ==> toRetry[i] in toRetry;
      RequestEach(toRetry);
      return toRetry;
    }

    /** One entry of `observe_test_kernel_completions`. */
    method ObserveEntry(cqe: Cqe)
      modifies this`kernelOps, this`cancelIds, this`completions
      ensures State() == ObserveOne(old(State()), cqe)
    {
      if cqe.kind.CancelAck? {
        cancelIds := cancelIds - {cqe.id};
        if cqe.id in kernelOps {
          kernelOps := kernelOps[cqe.id := kernelOps[cqe.id].(cancelInFlight := false)];
        }
        return;
      }
      if cqe.id !in kernelOps {
        return;
      }
      completions := completions + [CompletionOf(cqe, kernelOps[cqe.id])];
      kernelOps := kernelOps - {cqe.id};
    }

    /** `observe_test_kernel_completions`, after its retries: any entries, in arrival order, up to the batch limit. */
    method ObserveCompletions() returns (ghost cqes: seq<Cqe>)
      requires Valid() && config.kernel
      modifies this`kernelOps, this`cancelIds, this`completions, kernel`completions
      ensures Valid() && State() == Observe(old(State()), cqes)
      ensures cqes == old(kernel.completions)[..Min(config.completionLimit, |old(kernel.completions)|)]
    {
      ghost var before, all := State(), kernel.completions;
      var count := Min(config.completionLimit, |kernel.completions|);
      for index := 0 to count
        invariant kernel.completions == all[index..] && State() == Observe(before, all[..index])
      {
        var cqe := kernel.completions[0];
        kernel.completions := kernel.completions[1..];
        PrefixNext(all, index);
        ObserveAppend(before, all[..index], cqe);
        ObserveEntry(cqe);
      }
      ObserveKeepsInv(config, before, all[..count]);
      return all[..count];
    }

    /** The completion that an operation entry makes visible. */
    function CompletionOf(cqe: Cqe, k: KernelOperation): (completion: Completion)
      reads this, fallback, fallback.registry
      ensures completion == CqeCompletion(State(), cqe.id, k, cqe.result)
    {
      var current := fallback.IsCurrentHandle(k.op.handle);
      var class_ := ResultClassFor(k.op.target, k.cancellation.Some?, k.closeRequested, current, cqe.result);
      if class_.ResultCancelled? then
        Plain(cqe.id, Err(Cancelled(if k.cancellation.Some? then k.cancellation.value else Manual)))
      else if class_.ResultClosed? then ClosedCompletion(cqe.id)
      else if cqe.result < 0 then Plain(cqe.id, Err(BackendFailure(-cqe.result)))
      else if k.op.kind.Read? || k.op.kind.Write? then Completion(cqe.id, Ok(()), cqe.result, 0)
      else if k.op.kind.Accept? then Completion(cqe.id, Ok(()), 0, cqe.result)
      else if k.op.kind.Connect? || k.op.kind.Fsync? then Plain(cqe.id, Ok(()))
      else Plain(cqe.id, Err(InvalidState))
    }

    /** A poll in kernel mode; the result counts the completions that became drainable. */
    method PollKernelMode() returns (r: Result<nat, ErrorCode>, ghost e: Event)
      requires Valid() && config.kernel
      modifies this, kernel
      ensures Valid() && e.PollEvent? && Possible(config, old(State()), e)
      ensures State() == Step(config, old(State()), e)
      ensures e.cqes.Some? && !Refused(e.flush)
      ensures PollObserves(config, old(State()), e.flush) ==>
                && e.outcomes == CancelOutcomes(old(kernel.cancelFailures), |e.ids|)
                && kernel.cancelFailures == Less(old(kernel.cancelFailures), |e.ids|)
                && r == Ok(|completions| - |old(completions)|)
      ensures !PollObserves(config, old(State()), e.flush) ==> r == Err(if closed then Closed else Unsupported)
    {
      ghost var before := State();
      ghost var ids, cqes := [], [];
      if closed || !config.caps.available {
        if !closed || (kernelOps == map[] && cancelIds == {}) {
          NoKernelOps(config, before);
          assert Missing(before) == {};
          return Err(if closed then Closed else Unsupported), PollEvent([], [], [], Some([]));
        }
      }
      var completionCountBefore := |completions|;
      ghost var flush := AllAccepted(if closed then 0 else Min(config.submitLimit, |queue|));
      if !closed {
        FlushToKernel();
      }
      ghost var failures := kernel.cancelFailures;
      FlushKeepsCompletions(before, flush);
      ids := RetryMissing();
      RequestAllActive(Flushed(config, before, flush), ids, CancelOutcomes(failures, |ids|));
      RequestAllKeepsQueue(Flushed(config, before, flush), ids, CancelOutcomes(failures, |ids|));
      ghost var retried := State();
      cqes := ObserveCompletions();
      ObserveGrows(retried, cqes);
      e := PollEvent(flush, ids, CancelOutcomes(failures, |ids|), Some(cqes));
      return Ok(|completions| - completionCountBefore), e;
    }

    /** `flush_submission_batch` over the fallback: its failure branch is unreachable. */
    method FlushToFallback()
      requires Valid() && !config.kernel && !closed
      modifies this`queue, this`active, fallback
      ensures var n := Min(config.submitLimit, |old(queue)|);
              State() == old(State()).(queue := old(queue)[n..],
                                       fallback := SubmitAll(old(fallback.State()), old(queue)[..n]))
    {
      var count := Min(config.submitLimit, |queue|);
      ghost var start, ops := fallback.State(), queue[..count];
      PrefixSubmittable(config, State(), count);
      for flushed := 0 to count
        invariant queue == old(queue)[flushed..] && active == old(active)
        invariant fallback.State() == SubmitAll(start, ops[..flushed])
      {
        AcceptsNext(start, ops, flushed);
        assert queue[0] == ops[flushed];
        var submitted := SubmitToFallback(queue[0]);
        if submitted.Err? {
          assert false;
          break;
        }
        queue := queue[1..];
      }
      assert ops[..count] == ops;
    }

    /** A poll without kernel submission. */
    method PollFallbackMode() returns (r: Result<nat, ErrorCode>)
      requires Valid() && !config.kernel
      modifies this, fallback
      ensures Valid() && State() == PollFallback(config, old(State()))
      ensures r == if closed then Err(Closed) else if !config.caps.available then Err(Unsupported)
                   else Ok(|completions| - |old(completions)|)
    {
      ghost var before := State();
      PollFallbackKeepsInv(config, before);
      if closed {
        return Err(Closed);
      }
      if !config.caps.available {
        return Err(Unsupported);
      }
      var completionCountBefore := |completions|;
      FlushToFallback();
      ObserveFallback();
      return Ok(|completions| - completionCountBefore);
    }

    /** `observe_completion_batch` without kernel submission. */
    method ObserveFallback()
      modifies this`completions, fallback
      ensures var m := Min(|old(fallback.completions)|, config.completionLimit);
              && fallback.State() == VB.Drained(old(fallback.State()), m)
              && completions == old(completions) + old(fallback.completions)[..m]
    {
      var available := fallback.Poll();
      var batch := Min(available, config.completionLimit);
      if batch != 0 {
        var drained := fallback.Drain(batch);
        completions := completions + drained.value;
      } else {
        assert fallback.State().active - CompletedIds(fallback.completions[..0]) == fallback.State().active;
        assert completions + fallback.completions[..0] == completions;
      }
    }

    method DrainCompletions(room: nat) returns (r: Result<seq<Completion>, ErrorCode>)
      requires Valid()
      modifies this`completions, this`active
      ensures Valid() && State() == Drain(config, old(State()), room)
      ensures r == if room == 0 then Err(InvalidState)
                   else if !closed && !config.caps.available then Err(Unsupported)
                   else Ok(DrainOutput(config, old(State()), room))
    {
      DrainUringKeepsInv(config, State(), room);
      if room == 0 {
        return Err(InvalidState);
      }
      if !closed && !config.caps.available {
        return Err(Unsupported);
      }
      var count := Min(room, |completions|);
      var out := [];
      for index := 0 to count
        invariant out == old(completions)[..index] && completions == old(completions)[index..]
        invariant active == old(active) - CompletedIds(old(completions)[..index])
      {
        active := active - {completions[0].id};
        out := out + [completions[0]];
        completions := completions[1..];
      }
      return Ok(out);
    }

    /** `drain_fallback_completions`: batches of 32 until the fallback is empty. */
    method DrainFallback()
      modifies this`completions, fallback`completions, fallback`active
      ensures fallback.State() == VB.Drained(old(fallback.State()), |old(fallback.completions)|)
      ensures completions == old(completions) + old(fallback.completions)
    {
      ghost var start, n := fallback.State(), 0;
      assert fallback.State() == VB.Drained(start, 0) && completions == old(completions) + start.completions[..0];
      while true
        invariant 0 <= n <= |start.completions| && fallback.State() == VB.Drained(start, n)
        invariant completions == old(completions) + start.completions[..n]
        decreases |fallback.completions|
      {
        var drained := fallback.Drain(32);
        if drained.value == [] {
          assert n == |start.completions| && start.completions[..n] == start.completions;
          return;
        }
        DrainMore(start, n, |drained.value|);
        completions := completions + drained.value;
        n := n + |drained.value|;
      }
    }

    method Shutdown() returns (r: VoidResult, ghost ids: seq<nat>, ghost outcomes: seq<CancelOutcome>)
      requires Valid()
      modifies this, fallback, kernel`cancelFailures, kernel`submittedCancels
      ensures Valid() && |ids| == |outcomes| && r == ShutdownCheck(config, old(State()))
      ensures State() == UringSpec.Shutdown(config, old(State()), ids, outcomes)
      ensures config.kernel && !old(closed) && r.Ok? ==> Enumerates(ids, ToCancel(old(State()), None))
    {
      ghost var before := State();
      ids, outcomes := [], [];
      if closed {
        return Ok(()), ids, outcomes;
      }
      if config.kernel {
        ghost var failures := kernel.cancelFailures;
        r, ids := RequestCancellationsFor(Token(0, 0));
        outcomes := CancelOutcomes(failures, |ids|);
        if r.Err? {
          assert false;
          return r, ids, outcomes;
        }
      }
      ShutdownKeepsInv(config, before, ids, outcomes);
      ShutdownStops(config, before, ids, outcomes);
      Stop();
      return Ok(()), ids, outcomes;
    }

    /** The rest of `shutdown`, once the kernel operations are marked. */
    method Stop()
      modifies this`closed, this`queue, this`completions, fallback
      ensures State() == Stopped(old(State()))
    {
      closed := true;
      fallback.Shutdown();
      DrainFallback();
      CloseQueue();
    }

    /** The last loop of `shutdown`. */
    method CloseQueue()
      modifies this`queue, this`completions
      ensures queue == [] && completions == old(completions) + CloseAll(old(queue))
    {
      ghost var queued, n := queue, 0;
      while queue != []
        invariant 0 <= n <= |queued| && queue == queued[n..]
        invariant completions == old(completions) + CloseAll(queued[..n])
        decreases |queue|
      {
        completions := completions + [ClosedCompletion(queue[0].id)];
        queue := queue[1..];
        n := n + 1;
      }
      assert queued[..n] == queued;
    }
  }

  /** Everything that waits is closed, the fallback's work first. */
  ghost function Stopped(u: Uring): Uring {
    var v := VB.Stopped(u.fallback);
    u.(closed := true, queue := [], fallback := VB.Drained(v, |v.completions|),
       completions := u.completions + v.completions + CloseAll(u.queue))
  }

  lemma ShutdownStops(c: Config, u: Uring, ids: seq<nat>, outcomes: seq<CancelOutcome>)
    requires !u.closed && ShutdownCheck(c, u).Ok? && |ids| == |outcomes|
    ensures UringSpec.Shutdown(c, u, ids, outcomes)
         == Stopped(if c.kernel then RequestAll(MarkClosing(u, None), ids, outcomes) else u)
  {
    RequestAllActive(MarkClosing(u, None), ids, outcomes);
    RequestAllKeepsQueue(MarkClosing(u, None), ids, outcomes);
  }

  function ScopeOf(token: Token): Option<Token> {
    if token.generation == 0 then None else Some(token)
  }

  /** The marking loop of `request_kernel_cancellations_for`; generation zero stands for every operation. */
  method MarkOperations(ops: map<nat, KernelOperation>, token: Token, ghost u: Uring)
    returns (marked: map<nat, KernelOperation>, toCancel: seq<nat>)
    requires ops == u.kernelOps
    ensures marked == MarkClosing(u, ScopeOf(token)).kernelOps
    ensures Enumerates(toCancel, ToCancel(u, ScopeOf(token)))
  {
    ghost var goal := MarkClosing(u, ScopeOf(token)).kernelOps;
    marked, toCancel := ops, [];
    var remaining := ops.Keys;
    while remaining != {}
      invariant remaining <= ops.Keys == marked.Keys
      invariant forall id :: id in ops ==> marked[id] == if id in remaining then ops[id] else goal[id]
      invariant NoDuplicates(toCancel)
      invariant forall id :: id in toCancel <==> id in ToCancel(u, ScopeOf(token)) && id !in remaining
      decreases remaining
    {
      var id :| id in remaining;
      remaining := remaining - {id};
      if token.generation != 0 && marked[id].op.handle != token {
        continue;
      }
      marked := marked[id := marked[id].(closeRequested := true)];
      if !marked[id].cancelSubmitted && !marked[id].cancelInFlight {
        toCancel := toCancel + [id];
      }
    }
  }

  /** The first loop of `retry_missing_kernel_cancellations`. */
  method CollectMissing(ops: map<nat, KernelOperation>, ghost u: Uring) returns (toRetry: seq<nat>)
    requires ops == u.kernelOps
    ensures Enumerates(toRetry, Missing(u))
  {
    toRetry := [];
    var remaining := ops.Keys;
    while remaining != {}
      invariant remaining <= ops.Keys && NoDuplicates(toRetry)
      invariant forall id :: id in toRetry <==> id in Missing(u) && id !in remaining
      decreases remaining
    {
      var id :| id in remaining;
      remaining := remaining - {id};
      if RetryRequired(ops[id]) {
        toRetry := toRetry + [id];
      }
    }
  }

  /** At its turn, a listed cancellation still lacks a request, and requesting it continues the round. */
  lemma RequestTurn(c: Config, u: Uring, ids: seq<nat>, outcomes: seq<CancelOutcome>, i: nat)
    requires Inv(c, u) && c.kernel && |ids| == |outcomes| && i < |ids| && NoDuplicates(ids) && ids[i] in Missing(u)
    ensures var now := RequestAll(u, ids[..i], outcomes[..i]);
            && ids[i] in Missing(now)
            && RequestAll(u, ids[..i + 1], outcomes[..i + 1]) == RequestCancel(now, ids[i], outcomes[i])
  {
    PrefixNext(ids, i);
    PrefixNext(outcomes, i);
    RequestAppend(u, ids[..i], outcomes[..i], ids[i], outcomes[i]);
    OthersUntouched(u, ids[..i], outcomes[..i], ids[i]);
  }

  lemma {:induction false} OthersUntouched(u: Uring, ids: seq<nat>, outcomes: seq<CancelOutcome>, id: nat)
    requires |ids| == |outcomes| && id !in ids && id in u.kernelOps
    ensures id in RequestAll(u, ids, outcomes).kernelOps && RequestAll(u, ids, outcomes).kernelOps[id] == u.kernelOps[id]
    decreases |ids|
  {
    if ids != [] {
      assert id != ids[0] && id !in ids[1..];
      OthersUntouched(RequestOne(u, ids[0], outcomes[0]), ids[1..], outcomes[1..], id);
    }
  }

  /** Kernel operations exist only where cancellation is supported. */
  lemma NoCancelNoOps(c: Config, u: Uring)
    requires Inv(c, u) && c.kernel && !c.caps.supportsCancel
    ensures u.kernelOps == map[]
  {
    assert forall id :: id in u.kernelOps ==> false;
  }

  lemma {:induction false} RequestAllKeepsQueue(u: Uring, ids: seq<nat>, outcomes: seq<CancelOutcome>)
    requires |ids| == |outcomes|
    ensures RequestAll(u, ids, outcomes).queue == u.queue
    ensures RequestAll(u, ids, outcomes).completions == u.completions
    decreases |ids|
  {
    if ids != [] {
      var next := if ids[0] in u.kernelOps && RetryRequired(u.kernelOps[ids[0]])
                  then RequestCancel(u, ids[0], outcomes[0]) else u;
      RequestAllKeepsQueue(next, ids[1..], outcomes[1..]);
    }
  }

  /** The next selected operation is the next one to hand over. */
  lemma NextPicked(ops: seq<Operation>, n: nat, sel: Selector)
    requires n < |ops| && Selected(sel, ops[n])
    ensures var k := |PickedTo(ops, n, sel)|;
            && k < |Picked(ops, sel)|
            && Picked(ops, sel)[..k] == PickedTo(ops, n, sel)
            && Picked(ops, sel)[..k + 1] == PickedTo(ops, n + 1, sel)
            && Picked(ops, sel)[k] == ops[n]
  {
    PickedIsPrefix(ops, n, sel);
    PickedIsPrefix(ops, n + 1, sel);
  }

  lemma {:induction false} PickedIsPrefix(ops: seq<Operation>, n: nat, sel: Selector)
    requires n <= |ops|
    ensures PickedTo(ops, n, sel) <= Picked(ops, sel)
    decreases |ops| - n
  {
    if n < |ops| {
      PickedIsPrefix(ops, n + 1, sel);
    }
  }

  /** The fallback accepts the next operation of a list that it can take as a whole. */
  lemma {:induction false} AcceptsNext(v: VB.Virtual, ops: seq<Operation>, n: nat)
    requires VB.Inv(v) && !v.stopped && Submittable(v, ops) && n < |ops|
    ensures VB.SubmitCheck(SubmitAll(v, ops[..n]), ops[n]).Ok?
    ensures SubmitAll(v, ops[..n + 1]) == VB.Submit(SubmitAll(v, ops[..n]), ops[n])
    decreases n
  {
    SubmitOneAccepts(v, ops);
    var v1, rest := VB.Submit(v, ops[0]), ops[1..];
    if n == 0 {
      assert ops[..1][1..] == [];
    } else {
      VB.SubmitKeepsInv(v, ops[0]);
      AcceptsNext(v1, rest, n - 1);
      assert ops[..n][1..] == rest[..n - 1] && ops[..n + 1][1..] == rest[..n];
    }
  }

  lemma DrainMore(v: VB.Virtual, n: nat, m: nat)
    requires n + m <= |v.completions|
    ensures VB.Drained(VB.Drained(v, n), m) == VB.Drained(v, n + m)
    ensures VB.Drained(v, n).completions[..m] == v.completions[n..n + m]
    ensures v.completions[..n + m] == v.completions[..n] + v.completions[n..n + m]
  {
    var all := v.completions;
    assert all[n..][..m] == all[n..n + m];
    assert all[n..][m..] == all[n + m..];
    assert all[..n + m] == all[..n] + all[n..n + m];
    assert CompletedIds(all[..n + m]) == CompletedIds(all[..n]) + CompletedIds(all[n..n + m]);
  }

  lemma {:induction false} FlushKeepsCompletions(u: Uring, outcomes: seq<OpOutcome>)
    requires |outcomes| <= |u.queue| && forall i :: 0 <= i < |outcomes| ==> outcomes[i].OpAccepted?
    ensures Flush(u, outcomes).completions == u.completions && Flush(u, outcomes).closed == u.closed
    decreases |outcomes|
  {
    if outcomes != [] {
      FlushKeepsCompletions(FlushOne(u, outcomes[0]), outcomes[1..]);
    }
  }

  lemma {:induction false} ObserveGrows(u: Uring, cqes: seq<Cqe>)
    ensures |u.completions| <= |Observe(u, cqes).completions|
    decreases |cqes|
  {
    if cqes != [] {
      ObserveGrows(ObserveOne(u, cqes[0]), cqes[1..]);
    }
  }
}
