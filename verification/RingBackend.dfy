/**
 The io_uring backend over a real submission ring: the public calls of
 src/backends_io_uring_backend.cpp that reach the kernel, each proved to be one step of
 UringSpec, with failed enter calls, and to leave nothing pending in the ring.
 */
module RingBackends {
  import opened Common
  import opened Operations
  import opened HandleRegistry
  import VB = VirtualBackends
  import opened UringSpec
  import opened UringInvariant
  import opened UringRuns
  import opened UringIntents
  import opened KernelRings
  import UB = UringBackends

  /** A completion entry as the kernel writes it. */
  datatype RawCqe = RawCqe(userData: nat, result: int)

  function Decoded(raw: RawCqe): Cqe {
    Cqe(Decode(raw.userData).0, Decode(raw.userData).1, raw.result)
  }

  class RingBackend {
    const config: Config
    const entries: nat
    var u: Uring
    var pending: seq<Pending>
    var ring: KernelRing?

    /** The deque of pending submissions is what the ring holds between head and tail; without a ring the kernel has nothing. */
    ghost predicate Valid()
      reads this, ring
    {
      && RingSize(entries)
      && (ring != null ==> ring.Valid() && ring.Holds(pending))
      && (ring == null ==> pending == [] && u.kernelOps == map[] && u.cancelIds == {})
    }

    /** Between public calls nothing is pending. */
    ghost predicate Settled()
      reads this, ring
    {
      && Valid() && pending == []
      && (ring != null ==> ring.pendingSubmissions == 0 && ring.tail == ring.head)
    }

    /** What every public call starts from and ends in. */
    ghost predicate Ready()
      reads this, ring
    {
      Settled() && Inv(config, u) && config.kernel && config.submitLimit > 0 && config.completionLimit > 0
    }

    /** Everything the kernel has read, in order. */
    ghost function Taken(): seq<Pending>
      reads this, ring
    {
      if ring == null then [] else ring.taken
    }

    constructor (options: Config, entries: nat)
      requires options.kernel && RingSize(entries)
      ensures Ready() && u == EMPTY_URING && ring == null && config == Normalize(options)
    {
      config := Normalize(options);
      this.entries := entries;
      u, pending, ring := EMPTY_URING, [], null;
      new;
      EmptyInv(config);
    }

    /** `ensure_kernel_ring`: setting up the ring may fail, but an existing ring stays. */
    method EnsureRing() returns (ok: bool)
      requires Settled()
      modifies this`ring
      ensures Settled() && Taken() == old(Taken())
      ensures if ok then ring != null else ring == null
      ensures old(ring) != null ==> ok && ring == old(ring)
      ensures ring != old(ring) ==> fresh(ring)
    {
      if ring != null {
        return true;
      }
      var failed: bool := *;
      if failed {
        return false;
      }
      var head: Word := *;
      ring := new KernelRing(entries, head);
      return true;
    }

    /** `discard_submitted_io_uring_submissions`. */
    method DiscardSubmitted(count: nat)
      modifies this`pending
      ensures pending == old(pending)[Min(count, |old(pending)|)..]
    {
      var submitted: nat := count;
      ghost var done: nat := 0;
      while submitted != 0 && pending != []
        invariant done + submitted == count && done <= |old(pending)| && pending == old(pending)[done..]
        decreases submitted
      {
        pending := pending[1..];
        submitted, done := submitted - 1, done + 1;
      }
    }

    /** `complete_unsubmitted_kernel_submissions`. */
    method SettleUnsubmitted(error: ErrorCode) returns (visible: nat)
      modifies this`u, this`pending
      ensures pending == [] && u == CompleteUnsubmitted(old(u), old(pending), error)
      ensures visible == |u.completions| - |old(u).completions|
    {
      var unsubmitted := pending;
      pending := [];
      visible := 0;
      for i := 0 to |unsubmitted|
        invariant pending == [] && u == CompleteFirst(old(u), unsubmitted, i, error)
        invariant visible == |u.completions| - |old(u).completions|
      {
        var id := unsubmitted[i].id;
        if unsubmitted[i].PendingCancel? {
          u := u.(cancelIds := u.cancelIds - {id});
          if id in u.kernelOps {
            u := u.(kernelOps := u.kernelOps[id := u.kernelOps[id].(cancelSubmitted := false, cancelInFlight := false)]);
          }
          continue;
        }
        if id !in u.kernelOps {
          continue;
        }
        var result := UnsubmittedResult(u, u.kernelOps[id], error);
        u := u.(kernelOps := u.kernelOps - {id}, completions := u.completions + [Plain(id, result)]);
        visible := visible + 1;
      }
    }

    /**
     `progress_kernel_submissions`: the kernel reads a prefix of the pending entries in
     order; if it stops early, exactly the rest is settled as never submitted.
     */
    method Progress() returns (visible: nat, ghost count: nat, ghost error: ErrorCode)
      requires Valid() && ring != null
      modifies this`u, this`pending, ring
      ensures Settled() && count <= |old(pending)|
      ensures Taken() == old(Taken()) + old(pending)[..count]
      ensures u == CompleteUnsubmitted(old(u), old(pending)[count..], error)
      ensures visible == |u.completions| - |old(u).completions|
    {
      count, error, visible := 0, InvalidState, 0;
      ghost var start, taken := pending, ring.taken;
      while ring.pendingSubmissions != 0
        invariant Valid() && count <= |start| && pending == start[count..] && u == old(u)
        invariant ring.taken == taken + start[..count]
        decreases |start| - count
      {
        var submitted := EnterOnce();
        if submitted.EnterFailed? {
          ring.DropPending();
          visible := SettleUnsubmitted(submitted.error);
          error := submitted.error;
          return;
        }
        TakenGrows(taken, start, count, submitted.count);
        count := count + submitted.count;
      }
    }

    /** One enter call, and the entries it took leave the deque. */
    method EnterOnce() returns (r: EnterResult)
      requires Valid() && ring != null && pending != []
      modifies this`pending, ring
      ensures Valid() && ring.entries == old(ring.entries)
      ensures r.Entered? ==>
                && 0 < r.count <= |old(pending)|
                && pending == old(pending)[r.count..] && ring.taken == old(ring.taken) + old(pending)[..r.count]
      ensures r.EnterFailed? ==> pending == old(pending) && ring.taken == old(ring.taken)
    {
      r := ring.SubmitPendingOnce(pending);
      if r.Entered? {
        DiscardSubmitted(r.count);
      }
    }

    /** Publishes one entry into the empty ring, which cannot be full, and makes progress. */
    method PublishAndProgress(entry: Pending) returns (ghost taken: bool, ghost error: ErrorCode)
      requires Settled() && ring != null
      modifies this`u, this`pending, ring
      ensures Settled() && u == if taken then old(u) else CompleteOne(old(u), entry, error)
      ensures Taken() == old(Taken()) + if taken then [entry] else []
    {
      var published := ring.Publish(entry, pending);
      pending := [entry];
      ghost var visible, count, failure := Progress();
      SettleSingle(old(u), entry, failure, count);
      return count == 1, failure;
    }

    /** `submit_to_kernel` for the first queued operation, and its removal from the queue: refused only without a ring. */
    method FlushFront() returns (ok: bool, ghost outcome: OpOutcome)
      requires Ready() && u.queue != []
      modifies this`u, this`pending, this`ring, ring
      ensures Settled() && u == FlushOne(old(u), outcome)
      ensures ok <==> !outcome.OpRefused?
      ensures if ok then ring != null else ring == null && old(ring) == null
      ensures ring != old(ring) ==> fresh(ring)
      ensures Taken() == old(Taken()) + if outcome.OpAccepted? then [PendingOperation(old(u).queue[0].id)] else []
      ensures outcome.OpEnterFailed? ==>
                u.completions == old(u).completions + [Completion(old(u).queue[0].id, Err(outcome.error), 0, 0)]
    {
      var op := u.queue[0];
      assert op in u.queue;
      var created := EnsureRing();
      if !created {
        return false, OpRefused(ResourceExhausted);
      }
      QueuedIsNotInKernel(config, u);
      ghost var before := u;
      u := u.(kernelOps := u.kernelOps[op.id := Fresh(op)]);
      ghost var taken, error := PublishAndProgress(PendingOperation(op.id));
      outcome := if taken then OpAccepted else OpEnterFailed(error);
      assert before.kernelOps[op.id := Fresh(op)] - {op.id} == before.kernelOps;
      u := u.(queue := u.queue[1..]);
      return true, outcome;
    }

    /** `flush_submission_batch`. */
    method FlushBatch() returns (ok: bool, ghost flush: seq<OpOutcome>)
      requires Ready() && !u.closed
      modifies this`u, this`pending, this`ring, ring
      ensures Ready() && FlushShape(config, old(u), flush) && RefusalShape(old(u), flush)
      ensures u == Flush(old(u), flush) && (ok <==> !Refused(flush))
      ensures ring != old(ring) ==> fresh(ring)
    {
      var count := Min(config.submitLimit, |u.queue|);
      flush := [];
      ghost var before := u;
      for flushed := 0 to count
        invariant Ready() && |flush| == flushed && NoneRefused(flush) && u == Flush(before, flush)
        invariant |u.queue| == |before.queue| - flushed
        invariant flushed > 0 ==> ring != null
        invariant ring != old(ring) ==> fresh(ring)
      {
        ghost var current, hadRing := u, ring != null;
        var submitted, outcome := FlushFront();
        FlushAppend(before, flush, outcome);
        FlushOneKeepsInv(config, current, outcome);
        flush := flush + [outcome];
        if !submitted {
          assert flush == [outcome] && current == before;
          return false, flush;
        }
      }
      return true, flush;
    }

    /** `request_kernel_cancellation_for`: the flags are set before the entry is published. */
    method RequestCancellation(id: nat) returns (ghost outcome: CancelOutcome)
      requires Settled() && id in u.kernelOps
      modifies this`u, this`pending, ring
      ensures Settled() && u == RequestCancel(old(u), id, outcome)
      ensures outcome.CancelRefused? <==> id >= CANCEL_TAG
      ensures Taken() == old(Taken()) + if outcome.CancelAccepted? then [PendingCancel(id)] else []
    {
      if EncodeCancel(id).Err? {
        return CancelRefused;
      }
      ghost var before := u;
      u := u.(kernelOps := u.kernelOps[id := u.kernelOps[id].(cancelSubmitted := true, cancelInFlight := true)],
              cancelIds := u.cancelIds + {id});
      ghost var mid := u;
      ghost var taken, error := PublishAndProgress(PendingCancel(id));
      outcome := if taken then CancelAccepted else CancelEnterFailed;
      assert mid.cancelIds - {id} == before.cancelIds - {id};
      assert mid.kernelOps[id := Rearmed(mid.kernelOps[id])] == before.kernelOps[id := Rearmed(before.kernelOps[id])];
    }

    /** Requests a cancellation that has an intent, if it is still wanted. */
    method RequestWanted(id: nat) returns (ghost outcome: CancelOutcome)
      requires Ready() && (id in u.kernelOps ==> HasIntent(u.kernelOps[id]))
      modifies this`u, this`pending, ring
      ensures Ready() && u == RequestOne(old(u), id, outcome)
    {
      if id in u.kernelOps && !u.kernelOps[id].cancelSubmitted && !u.kernelOps[id].cancelInFlight {
        ghost var before := u;
        outcome := RequestCancellation(id);
        RequestCancelKeepsInv(config, before, id, outcome);
        return;
      }
      return CancelRefused;
    }

    /** The second loop of `request_kernel_cancellations_for` and of the retries, for operations with intent. */
    method RequestEach(ids: seq<nat>) returns (ghost outcomes: seq<CancelOutcome>)
      requires Ready() && forall i :: 0 <= i < |ids| ==> ids[i] in Missing(u)
      modifies this`u, this`pending, ring
      ensures Ready() && |outcomes| == |ids| && u == RequestAll(old(u), ids, outcomes)
    {
      outcomes := [];
      ghost var before := u;
      assert ids[..0] == [];
      for i := 0 to |ids|
        invariant Ready() && |outcomes| == i && u == RequestAll(before, ids[..i], outcomes)
      {
        IntentStays(config, before, ids, outcomes, i);
        ghost var outcome := RequestWanted(ids[i]);
        RequestAppend(before, ids[..i], outcomes, ids[i], outcome);
        PrefixNext(ids, i);
        outcomes := outcomes + [outcome];
      }
      assert ids[..|ids|] == ids;
    }

    /** `request_kernel_cancellations_for`. */
    method RequestCancellationsFor(token: Token) returns (ghost ids: seq<nat>, ghost outcomes: seq<CancelOutcome>)
      requires Ready()
      modifies this`u, this`pending, ring
      ensures Ready() && |ids| == |outcomes| && Enumerates(ids, ToCancel(old(u), UB.ScopeOf(token)))
      ensures u == RequestAll(MarkClosing(old(u), UB.ScopeOf(token)), ids, outcomes)
    {
      ghost var before, scope := u, UB.ScopeOf(token);
      if u.kernelOps == map[] {
        assert MarkClosing(before, scope) == before;
        return [], [];
      }
      var marked, toCancel := UB.MarkOperations(u.kernelOps, token, u);
      u := u.(kernelOps := marked);
      MarkClosingKeepsInv(config, before, scope);
      MarkedAreMissing(before, scope, toCancel);
      outcomes := RequestEach(toCancel);
      return toCancel, outcomes;
    }

    /** `retry_missing_kernel_cancellations`. */
    method RetryMissing() returns (ghost ids: seq<nat>, ghost outcomes: seq<CancelOutcome>)
      requires Ready()
      modifies this`u, this`pending, ring
      ensures Ready() && |ids| == |outcomes| && Enumerates(ids, Missing(old(u)))
      ensures u == RequestAll(old(u), ids, outcomes)
    {
      var toRetry := UB.CollectMissing(u.kernelOps, u);
      forall i | 0 <= i < |toRetry|
        ensures toRetry[i] in Missing(u)
      {
        assert toRetry[i] in toRetry;
      }
      outcomes := RequestEach(toRetry);
      return toRetry, outcomes;
    }

    /** The loop of `observe_kernel_completions` over the entries it took from the completion queue. */
    method ObserveEntries(batch: seq<RawCqe>) returns (ghost cqes: seq<Cqe>)
      requires Ready()
      modifies this`u
      ensures Ready() && |cqes| == |batch| && u == Observe(old(u), cqes)
      ensures forall i :: 0 <= i < |batch| ==> cqes[i] == Decoded(batch[i])
    {
      cqes := [];
      ghost var before := u;
      for i := 0 to |batch|
        invariant Ready() && |cqes| == i && u == Observe(before, cqes)
        invariant forall j :: 0 <= j < i ==> cqes[j] == Decoded(batch[j])
      {
        var cqe := Decoded(batch[i]);
        ObserveAppend(before, cqes, cqe);
        ObserveOneKeepsInv(config, u, cqe);
        ObserveEntry(cqe);
        cqes := cqes + [cqe];
      }
    }

    method ObserveEntry(cqe: Cqe)
      requires Settled()
      modifies this`u
      ensures Settled() && u == ObserveOne(old(u), cqe)
    {
      if cqe.kind.CancelAck? {
        u := u.(cancelIds := u.cancelIds - {cqe.id});
        if cqe.id in u.kernelOps {
          u := u.(kernelOps := u.kernelOps[cqe.id := u.kernelOps[cqe.id].(cancelInFlight := false)]);
        }
        return;
      }
      if cqe.id !in u.kernelOps {
        return;
      }
      var completion := CqeCompletion(u, cqe.id, u.kernelOps[cqe.id], cqe.result);
      u := u.(kernelOps := u.kernelOps - {cqe.id}, completions := u.completions + [completion]);
    }

    /** `observe_kernel_completions`: `queued` is what the completion queue holds; entering for overflowed entries may fail. */
    method ObserveKernel(queued: seq<RawCqe>)
      returns (ok: bool, ghost ids: seq<nat>, ghost outcomes: seq<CancelOutcome>, ghost cqes: Option<seq<Cqe>>)
      requires Ready()
      modifies this`u, this`pending, ring
      ensures Ready() && |ids| == |outcomes| && Enumerates(ids, Missing(old(u)))
      ensures cqes.Some? ==> |cqes.value| <= config.completionLimit
      ensures !ok ==> cqes.None?
      ensures u == Observe(RequestAll(old(u), ids, outcomes), if cqes.Some? then cqes.value else [])
    {
      if ring == null {
        return true, [], [], None;
      }
      ghost var before := u;
      ghost var visible, count, error := Progress();
      assert u == before;
      ids, outcomes := RetryMissing();
      var failed: bool := *;
      if failed {
        return false, ids, outcomes, None;
      }
      var batch := queued[..Min(config.completionLimit, |queued|)];
      ghost var seen := ObserveEntries(batch);
      return true, ids, outcomes, Some(seen);
    }

    // The public calls

    /** A poll: one step of the specification, with the kernel's choices as they fell. It counts the new completions. */
    method Poll(queued: seq<RawCqe>) returns (r: Result<nat, ErrorCode>, ghost e: Event)
      requires Ready()
      modifies this`u, this`pending, this`ring, ring
      ensures Ready() && e.PollEvent? && Possible(config, old(u), e) && u == Step(config, old(u), e)
      ensures ring != old(ring) ==> fresh(ring)
      ensures r.Ok? ==> PollObserves(config, old(u), e.flush) && r.value == |u.completions| - |old(u).completions|
      ensures r.Err? ==> !PollObserves(config, old(u), e.flush) || e.cqes.None?
      ensures old(u).closed && !HasKernelWork(old(u)) ==> r == Err(Closed)
      ensures !old(u).closed && !config.caps.available ==> r == Err(Unsupported)
    {
      ghost var before := u;
      var completionCountBefore := |u.completions|;
      ghost var flush: seq<OpOutcome> := [];
      if u.closed {
        if u.kernelOps == map[] && u.cancelIds == {} {
          return Err(Closed), PollEvent([], [], [], None);
        }
      } else {
        if !config.caps.available {
          NoKernelOps(config, u);
          assert Missing(u) == {};
          return Err(Unsupported), PollEvent([], [], [], None);
        }
        var flushed;
        flushed, flush := FlushBatch();
        if !flushed {
          RefusedChangesNothing(before, flush);
          return Err(ResourceExhausted), PollEvent(flush, [], [], None);
        }
      }
      var ok; ghost var ids, outcomes, cqes;
      ok, ids, outcomes, cqes := ObserveKernel(queued);
      e := PollEvent(flush, ids, outcomes, cqes);
      if !ok {
        return Err(BackendFailure(0)), e;
      }
      PollGrows(config, before, flush, ids, outcomes, cqes);
      return Ok(|u.completions| - completionCountBefore), e;
    }

    method CancelOperation(id: nat, reason: CancellationReason) returns (r: VoidResult, ghost outcome: CancelOutcome)
      requires Ready()
      modifies this`u, this`pending, ring
      ensures Ready() && r == CancelCheck(config, old(u), id)
      ensures Possible(config, old(u), CancelEvent(id, reason, outcome))
      ensures u == Step(config, old(u), CancelEvent(id, reason, outcome))
    {
      ghost var before := u;
      r, outcome := CancelBody(id, reason);
      CancelKeepsInv(config, before, id, reason, outcome);
    }

    /** The body of `cancel`. */
    method CancelBody(id: nat, reason: CancellationReason) returns (r: VoidResult, ghost outcome: CancelOutcome)
      requires Settled() && config.kernel
      modifies this`u, this`pending, ring
      ensures Settled() && r == CancelCheck(config, old(u), id)
      ensures u == Cancel(config, old(u), id, reason, outcome)
    {
      outcome := CancelRefused;
      if u.closed {
        return Err(Closed), outcome;
      }
      if !config.caps.available || !config.caps.supportsCancel {
        return Err(Unsupported), outcome;
      }
      var i := FindQueued(u.queue, id);
      if i < |u.queue| {
        u := u.(completions := u.completions + [Plain(id, Err(Cancelled(reason)))],
                queue := u.queue[..i] + u.queue[i + 1..]);
        return Ok(()), outcome;
      }
      if id in u.kernelOps {
        outcome := CancelInKernel(id, reason);
        return Ok(()), outcome;
      }
      r := VB.CancelCheck(u.fallback, id);
      u := u.(fallback := VB.Cancel(u.fallback, id));
      return r, outcome;
    }

    /** The part of `cancel` for an operation that the kernel holds. */
    method CancelInKernel(id: nat, reason: CancellationReason) returns (ghost outcome: CancelOutcome)
      requires Settled() && id in u.kernelOps
      modifies this`u, this`pending, ring
      ensures Settled()
      ensures var k := old(u).kernelOps[id];
              var k' := if k.cancellation.None? then k.(cancellation := Some(reason)) else k;
              var u' := old(u).(kernelOps := old(u).kernelOps[id := k']);
              u == if k.cancelSubmitted || k.cancelInFlight then u' else RequestCancel(u', id, outcome)
    {
      var k := u.kernelOps[id];
      if k.cancellation.None? {
        k := k.(cancellation := Some(reason));
      }
      u := u.(kernelOps := u.kernelOps[id := k]);
      if k.cancelSubmitted || k.cancelInFlight {
        return CancelRefused;
      }
      outcome := RequestCancellation(id);
    }

    /** The queue part is the loop of UringBackends.IoUringBackend.CompleteQueuedFor. */
    method CloseHandle(token: Token) returns (r: VoidResult, ghost e: Event)
      requires Ready()
      modifies this`u, this`pending, ring
      ensures Ready() && r == CloseCheck(config, old(u), token)
      ensures e.CloseEvent? && e.token == token && Possible(config, old(u), e) && u == Step(config, old(u), e)
    {
      ghost var before := u;
      r := CloseCheck(config, u, token);
      if r.Err? {
        ghost var listed := SomeOrder(ToCancel(u, Some(token)));
        return r, CloseEvent(token, listed, Unanswered(|listed|));
      }
      CurrentHasGeneration(config, u, token);
      ghost var ids, outcomes := RequestCancellationsFor(token);
      CloseKernelKeepsInv(config, before, token, ids, outcomes);
      CloseInKernelMode(config, before, token, ids, outcomes);
      u := u.(queue := Unpicked(u.queue, ByHandle(token)),
              completions := u.completions + CloseAll(Picked(u.queue, ByHandle(token))),
              fallback := VB.CloseToken(u.fallback, token));
      return Ok(()), CloseEvent(token, ids, outcomes);
    }

    /** The queue part is the loop of UringBackends.IoUringBackend.CloseQueue. */
    method Shutdown() returns (r: VoidResult, ghost e: Event)
      requires Ready()
      modifies this`u, this`pending, ring
      ensures Ready() && r == ShutdownCheck(config, old(u))
      ensures e.ShutdownEvent? && Possible(config, old(u), e) && u == Step(config, old(u), e)
    {
      ghost var before := u;
      r := ShutdownCheck(config, u);
      if u.closed || r.Err? {
        ghost var listed := SomeOrder(ToCancel(u, None));
        return r, ShutdownEvent(listed, Unanswered(|listed|));
      }
      ghost var ids, outcomes := RequestCancellationsFor(Token(0, 0));
      ShutdownKeepsInv(config, before, ids, outcomes);
      ShutdownInKernelMode(config, before, ids, outcomes);
      u := u.(closed := true, queue := [], fallback := VB.Stopped(u.fallback),
              completions := u.completions + CloseAll(u.queue));
      return Ok(()), ShutdownEvent(ids, outcomes);
    }
  }

  /** Some enumeration of a set. */
  lemma SomeOrder(all: set<nat>) returns (ids: seq<nat>)
    ensures Enumerates(ids, all)
  {
    if all == {} {
      return [];
    }
    var id :| id in all;
    var rest := SomeOrder(all - {id});
    return rest + [id];
  }

  /** The outcomes of requests that were not made. */
  ghost function Unanswered(n: nat): (r: seq<CancelOutcome>)
    ensures |r| == n
  {
    seq(n, _ => CancelRefused)
  }

  lemma QueuedIsNotInKernel(c: Config, u: Uring)
    requires Inv(c, u) && u.queue != []
    ensures u.queue[0].id !in u.kernelOps
  {
    var id := u.queue[0].id;
    OpCountMember(u.queue, |u.queue|, id);
    assert One(id in u.active) == Places(u, id);
  }

  lemma TakenGrows(taken: seq<Pending>, pending: seq<Pending>, count: nat, more: nat)
    requires count + more <= |pending|
    ensures taken + pending[..count] + pending[count..][..more] == taken + pending[..count + more]
    ensures pending[count..][more..] == pending[count + more..]
  {
    assert pending[..count] + pending[count..][..more] == pending[..count + more];
  }

  /** Progress on a single entry either takes it or settles it. */
  lemma SettleSingle(u: Uring, entry: Pending, error: ErrorCode, count: nat)
    requires count <= 1
    ensures count == 1 ==> CompleteUnsubmitted(u, [entry][count..], error) == u && [entry][..count] == [entry]
    ensures count == 0 ==> CompleteUnsubmitted(u, [entry][count..], error) == CompleteOne(u, entry, error) && [entry][..count] == []
  {
    if count == 0 {
      assert [entry][0..] == [entry];
      assert CompleteFirst(u, [entry], 0, error) == u;
    }
  }

  predicate HasIntent(k: KernelOperation) {
    k.cancellation.Some? || k.closeRequested
  }

  /** A round of requests leaves the intents as they are. */
  lemma IntentStays(c: Config, u: Uring, ids: seq<nat>, outcomes: seq<CancelOutcome>, i: nat)
    requires Inv(c, u) && c.kernel && |outcomes| == i < |ids| && ids[i] in Missing(u)
    ensures var u' := RequestAll(u, ids[..i], outcomes);
            ids[i] in u'.kernelOps && HasIntent(u'.kernelOps[ids[i]])
  {
    RequestAllKeepsInv(c, u, ids[..i], outcomes);
    assert SameIntent(u.kernelOps[ids[i]], RequestAll(u, ids[..i], outcomes).kernelOps[ids[i]]);
  }

  /** What a close or shutdown lists for cancellation lacks a request once it is marked. */
  lemma MarkedAreMissing(u: Uring, scope: Option<Token>, ids: seq<nat>)
    requires Enumerates(ids, ToCancel(u, scope))
    ensures forall i :: 0 <= i < |ids| ==> ids[i] in Missing(MarkClosing(u, scope))
  {
    forall i | 0 <= i < |ids|
      ensures ids[i] in Missing(MarkClosing(u, scope))
    {
      assert ids[i] in ids;
    }
  }

  lemma RefusedChangesNothing(u: Uring, flush: seq<OpOutcome>)
    requires Refused(flush) && |flush| == 1 && |flush| <= |u.queue| && u.kernelOps == map[]
    ensures Flush(u, flush) == u && Missing(u) == {}
  {
  }

  lemma {:induction false} FlushGrows(u: Uring, outcomes: seq<OpOutcome>)
    requires |outcomes| <= |u.queue|
    ensures |u.completions| <= |Flush(u, outcomes).completions|
    decreases |outcomes|
  {
    if outcomes != [] && !outcomes[0].OpRefused? {
      FlushGrows(FlushOne(u, outcomes[0]), outcomes[1..]);
    }
  }

  lemma PollGrows(c: Config, u: Uring, flush: seq<OpOutcome>, ids: seq<nat>, outcomes: seq<CancelOutcome>,
                  cqes: Option<seq<Cqe>>)
    requires (u.closed || |flush| <= |u.queue|) && |ids| == |outcomes|
    ensures |u.completions| <= |PollKernel(c, u, flush, ids, outcomes, cqes).completions|
  {
    if !u.closed {
      FlushGrows(u, flush);
    }
    var u1 := Flushed(c, u, flush);
    UB.RequestAllKeepsQueue(u1, ids, outcomes);
    UB.ObserveGrows(RequestAll(u1, ids, outcomes), if cqes.Some? then cqes.value else []);
  }

  lemma CurrentHasGeneration(c: Config, u: Uring, token: Token)
    requires Inv(c, u) && Current(u.fallback.registry, token)
    ensures token.generation > 0
  {
  }

  /** Marking and requesting do not touch what the rest of a close works on. */
  lemma CloseInKernelMode(c: Config, u: Uring, token: Token, ids: seq<nat>, outcomes: seq<CancelOutcome>)
    requires Inv(c, u) && c.kernel && CloseCheck(c, u, token).Ok? && |ids| == |outcomes|
    ensures var u1 := RequestAll(MarkClosing(u, Some(token)), ids, outcomes);
            CloseToken(c, u, token, ids, outcomes) ==
              u1.(queue := Unpicked(u1.queue, ByHandle(token)),
                  completions := u1.completions + CloseAll(Picked(u1.queue, ByHandle(token))),
                  fallback := VB.CloseToken(u1.fallback, token))
  {
    MarkClosingKeepsInv(c, u, Some(token));
    RequestAllKeepsInv(c, MarkClosing(u, Some(token)), ids, outcomes);
  }

  /** In kernel mode the fallback holds no work, so stopping it completes nothing. */
  lemma ShutdownInKernelMode(c: Config, u: Uring, ids: seq<nat>, outcomes: seq<CancelOutcome>)
    requires Inv(c, u) && c.kernel && !u.closed && ShutdownCheck(c, u).Ok? && |ids| == |outcomes|
    ensures var u1 := RequestAll(MarkClosing(u, None), ids, outcomes);
            UringSpec.Shutdown(c, u, ids, outcomes) ==
              u1.(closed := true, queue := [], fallback := VB.Stopped(u1.fallback),
                  completions := u1.completions + CloseAll(u1.queue))
  {
    MarkClosingKeepsInv(c, u, None);
    RequestAllKeepsInv(c, MarkClosing(u, None), ids, outcomes);
    var v := VB.Stopped(u.fallback);
    assert v.completions == [] && u.completions + [] == u.completions;
    assert v.active - CompletedIds(v.completions[..0]) == v.active;
  }
}
