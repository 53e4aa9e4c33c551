/** What every step of the io_uring backend keeps, and what follows for whole runs. */
module UringInvariant {
  import opened Common
  import opened Operations
  import opened HandleRegistry
  import VB = VirtualBackends
  import opened UringSpec

  /** How many places hold this id. */
  ghost function Places(u: Uring, id: nat): nat {
    OpCount(u.queue, id) + One(id in u.kernelOps) + DoneCount(u.completions, id)
    + OpCount(u.fallback.pending, id) + DoneCount(u.fallback.completions, id)
  }

  /** The active ids are the disjoint union of the places that hold work, each id once. */
  ghost predicate Partition(u: Uring) {
    forall id :: One(id in u.active) == Places(u, id)
  }

  predicate Acceptable(c: Config, op: Operation) {
    StaticCheck(c, op).Ok? && KernelCheck(c, op).Ok?
  }

  ghost predicate QueueOk(c: Config, u: Uring) {
    && (u.closed ==> u.queue == [])
    && |u.queue| <= c.queueCapacity
    && forall op :: op in u.queue ==> Acceptable(c, op) && Current(u.fallback.registry, op.handle)
  }

  /** A kernel operation on a handle that is no longer current, or after shutdown, carries the close mark. */
  ghost predicate KernelOpOk(c: Config, u: Uring, id: nat, k: KernelOperation) {
    && k.op.id == id
    && Acceptable(c, k.op)
    && (k.cancelInFlight ==> k.cancelSubmitted && id in u.cancelIds)
    && (u.closed || !Current(u.fallback.registry, k.op.handle) ==> k.closeRequested)
  }

  /** A kernel operation stays in order when only its intent or its cancel bookkeeping changes, consistently. */
  lemma KernelOpStays(c: Config, u: Uring, u': Uring, id: nat, k: KernelOperation, k': KernelOperation)
    requires KernelOpOk(c, u, id, k) && k'.op == k.op && (k.closeRequested ==> k'.closeRequested)
    requires u'.closed ==> u.closed || k'.closeRequested
    requires !Current(u'.fallback.registry, k.op.handle) ==> !Current(u.fallback.registry, k.op.handle) || k'.closeRequested
    requires k'.cancelInFlight ==> k'.cancelSubmitted && id in u'.cancelIds
    ensures KernelOpOk(c, u', id, k')
  {
  }

  ghost predicate KernelOk(c: Config, u: Uring) {
    forall id :: id in u.kernelOps ==> KernelOpOk(c, u, id, u.kernelOps[id])
  }

  ghost predicate ModeOk(c: Config, u: Uring) {
    && VB.Inv(u.fallback)
    && u.fallback.stopped == u.closed
    && (c.kernel ==> u.fallback.pending == [] && u.fallback.completions == [])
    && (!c.kernel ==> u.kernelOps == map[] && u.cancelIds == {})
  }

  ghost predicate Inv(c: Config, u: Uring) {
    Partition(u) && QueueOk(c, u) && KernelOk(c, u) && ModeOk(c, u)
  }

  lemma EmptyInv(c: Config)
    ensures Inv(c, EMPTY_URING)
  {
  }

  lemma SubmitKeepsInv(c: Config, u: Uring, op: Operation)
    requires Inv(c, u)
    ensures Inv(c, Submit(c, u, op))
  {
    if SubmitCheck(c, u, op).Ok? {
      OpCountAppend(u.queue, op);
      var u' := Submit(c, u, op);
      assert forall i :: Places(u', i) == Places(u, i) + One(i == op.id);
      assert forall i :: i in u'.kernelOps ==> KernelOpOk(c, u, i, u.kernelOps[i]);
    }
  }

  predicate SameIntent(k: KernelOperation, k': KernelOperation) {
    k'.op == k.op && k'.cancellation == k.cancellation && k'.closeRequested == k.closeRequested
  }

  /** Only the cancel bookkeeping may differ. */
  ghost predicate SameButCancels(u: Uring, u': Uring) {
    && u' == u.(kernelOps := u'.kernelOps, cancelIds := u'.cancelIds)
    && u'.kernelOps.Keys == u.kernelOps.Keys
    && forall id :: id in u.kernelOps ==> SameIntent(u.kernelOps[id], u'.kernelOps[id])
  }

  lemma RequestCancelChangesCancels(u: Uring, id: nat, outcome: CancelOutcome)
    requires id in u.kernelOps
    ensures SameButCancels(u, RequestCancel(u, id, outcome))
  {
  }

  lemma RequestCancelKeepsInv(c: Config, u: Uring, id: nat, outcome: CancelOutcome)
    requires Inv(c, u) && id in u.kernelOps && RetryRequired(u.kernelOps[id]) && c.kernel
    ensures Inv(c, RequestCancel(u, id, outcome)) && SameButCancels(u, RequestCancel(u, id, outcome))
  {
    var u' := RequestCancel(u, id, outcome);
    RequestCancelChangesCancels(u, id, outcome);
    SamePlaces(u, u');
    forall i | i in u'.kernelOps
      ensures KernelOpOk(c, u', i, u'.kernelOps[i])
    {
      KernelOpStays(c, u, u', i, u.kernelOps[i], u'.kernelOps[i]);
    }
  }

  lemma SamePlaces(u: Uring, u': Uring)
    requires Partition(u) && u' == u.(kernelOps := u'.kernelOps, cancelIds := u'.cancelIds)
    requires u'.kernelOps.Keys == u.kernelOps.Keys
    ensures Partition(u')
  {
    forall id
      ensures One(id in u'.active) == Places(u', id)
    {
      assert id in u'.kernelOps <==> id in u.kernelOps;
      assert One(id in u.active) == Places(u, id);
    }
  }

  lemma {:induction false} RequestAllKeepsInv(c: Config, u: Uring, ids: seq<nat>, outcomes: seq<CancelOutcome>)
    requires Inv(c, u) && |ids| == |outcomes| && c.kernel
    ensures Inv(c, RequestAll(u, ids, outcomes)) && SameButCancels(u, RequestAll(u, ids, outcomes))
    decreases |ids|
  {
    if ids != [] {
      if ids[0] in u.kernelOps && RetryRequired(u.kernelOps[ids[0]]) {
        RequestCancelKeepsInv(c, u, ids[0], outcomes[0]);
        RequestAllKeepsInv(c, RequestCancel(u, ids[0], outcomes[0]), ids[1..], outcomes[1..]);
      } else {
        RequestAllKeepsInv(c, u, ids[1..], outcomes[1..]);
      }
    }
  }

  lemma MarkClosingKeepsInv(c: Config, u: Uring, scope: Option<Token>)
    requires Inv(c, u)
    ensures Inv(c, MarkClosing(u, scope))
  {
    var u' := MarkClosing(u, scope);
    SamePlaces(u, u');
    forall i | i in u'.kernelOps
      ensures KernelOpOk(c, u', i, u'.kernelOps[i])
    {
      KernelOpStays(c, u, u', i, u.kernelOps[i], u'.kernelOps[i]);
    }
  }

  lemma MarkCancelledKeepsInv(c: Config, u: Uring, id: nat, reason: CancellationReason)
    requires Inv(c, u) && id in u.kernelOps
    ensures var k := u.kernelOps[id];
            var k' := if k.cancellation.None? then k.(cancellation := Some(reason)) else k;
            Inv(c, u.(kernelOps := u.kernelOps[id := k']))
  {
    var k := u.kernelOps[id];
    var k' := if k.cancellation.None? then k.(cancellation := Some(reason)) else k;
    var u' := u.(kernelOps := u.kernelOps[id := k']);
    SamePlaces(u, u');
    forall i | i in u'.kernelOps
      ensures KernelOpOk(c, u', i, u'.kernelOps[i])
    {
      KernelOpStays(c, u, u', i, u.kernelOps[i], u'.kernelOps[i]);
    }
  }

  lemma CancelQueuedKeepsInv(c: Config, u: Uring, i: nat, reason: CancellationReason)
    requires Inv(c, u) && i < |u.queue|
    ensures Inv(c, u.(completions := u.completions + [Plain(u.queue[i].id, Err(Cancelled(reason)))],
                      queue := u.queue[..i] + u.queue[i + 1..]))
  {
    var id := u.queue[i].id;
    OpCountRemove(u.queue, i);
    DoneCountAppend(u.completions, Plain(id, Err(Cancelled(reason))));
    var u' := u.(completions := u.completions + [Plain(id, Err(Cancelled(reason)))],
                 queue := u.queue[..i] + u.queue[i + 1..]);
    assert forall op :: op in u'.queue ==> op in u.queue;
    assert forall i :: i in u'.kernelOps ==> KernelOpOk(c, u, i, u.kernelOps[i]);
    assert forall j :: Places(u', j) == Places(u, j);
  }

  lemma CancelKeepsInv(c: Config, u: Uring, id: nat, reason: CancellationReason, outcome: CancelOutcome)
    requires Inv(c, u)
    ensures Inv(c, Cancel(c, u, id, reason, outcome))
  {
    var i := FindQueued(u.queue, id);
    if u.closed || !c.caps.available || !c.caps.supportsCancel {
    } else if i < |u.queue| {
      CancelQueuedKeepsInv(c, u, i, reason);
    } else if c.kernel && id in u.kernelOps {
      var k := u.kernelOps[id];
      var k' := if k.cancellation.None? then k.(cancellation := Some(reason)) else k;
      var u' := u.(kernelOps := u.kernelOps[id := k']);
      MarkCancelledKeepsInv(c, u, id, reason);
      if !k.cancelSubmitted && !k.cancelInFlight {
        RequestCancelKeepsInv(c, u', id, outcome);
      }
    }
  }

  lemma FlushOneKeepsPlaces(u: Uring, outcome: OpOutcome)
    requires u.queue != [] && Partition(u)
    ensures Partition(FlushOne(u, outcome)) && u.queue[0].id !in u.kernelOps
  {
    var op, u' := u.queue[0], FlushOne(u, outcome);
    assert u.queue == [op] + u.queue[1..];
    OpCountConcat([op], u.queue[1..]);
    OpCountAppend([], op);
    assert [] + [op] == [op];
    if outcome.OpEnterFailed? {
      DoneCountAppend(u.completions, Plain(op.id, UnsubmittedResult(u, Fresh(op), outcome.error)));
    }
    assert One(op.id in u.active) == Places(u, op.id);
    forall i
      ensures One(i in u'.active) == Places(u', i)
    {
      assert One(i in u.active) == Places(u, i);
      assert outcome.OpAccepted? ==> (i in u'.kernelOps <==> i in u.kernelOps || i == op.id);
    }
  }

  lemma FlushOneKeepsOps(c: Config, u: Uring, outcome: OpOutcome)
    requires u.queue != [] && QueueOk(c, u) && KernelOk(c, u) && u.queue[0].id !in u.kernelOps
    ensures QueueOk(c, FlushOne(u, outcome)) && KernelOk(c, FlushOne(u, outcome))
  {
    var op, u' := u.queue[0], FlushOne(u, outcome);
    assert op in u.queue && forall x :: x in u.queue[1..] ==> x in u.queue;
    forall i | i in u'.kernelOps
      ensures KernelOpOk(c, u', i, u'.kernelOps[i])
    {
      if i in u.kernelOps {
        KernelOpStays(c, u, u', i, u.kernelOps[i], u'.kernelOps[i]);
      } else {
        assert u'.kernelOps[i] == Fresh(op) && i == op.id;
      }
    }
  }

  lemma FlushOneKeepsInv(c: Config, u: Uring, outcome: OpOutcome)
    requires Inv(c, u) && u.queue != [] && c.kernel
    ensures Inv(c, FlushOne(u, outcome))
  {
    FlushOneKeepsPlaces(u, outcome);
    FlushOneKeepsOps(c, u, outcome);
  }

  lemma {:induction false} FlushKeepsInv(c: Config, u: Uring, outcomes: seq<OpOutcome>)
    requires Inv(c, u) && |outcomes| <= |u.queue| && c.kernel
    ensures Inv(c, Flush(u, outcomes)) && Flush(u, outcomes).closed == u.closed
    decreases |outcomes|
  {
    if outcomes != [] && !outcomes[0].OpRefused? {
      FlushOneKeepsInv(c, u, outcomes[0]);
      FlushKeepsInv(c, FlushOne(u, outcomes[0]), outcomes[1..]);
    }
  }

  lemma ObserveOneKeepsInv(c: Config, u: Uring, cqe: Cqe)
    requires Inv(c, u) && c.kernel
    ensures Inv(c, ObserveOne(u, cqe))
  {
    var u' := ObserveOne(u, cqe);
    if cqe.id in u.kernelOps && cqe.kind.OperationDone? {
      DoneCountAppend(u.completions, CqeCompletion(u, cqe.id, u.kernelOps[cqe.id], cqe.result));
    }
    forall i
      ensures Places(u', i) == Places(u, i)
    {
      assert i in u'.kernelOps <==> i in u.kernelOps && !(i == cqe.id && cqe.kind.OperationDone?);
    }
    forall i | i in u'.kernelOps
      ensures KernelOpOk(c, u', i, u'.kernelOps[i])
    {
      KernelOpStays(c, u, u', i, u.kernelOps[i], u'.kernelOps[i]);
    }
  }

  lemma {:induction false} ObserveKeepsInv(c: Config, u: Uring, cqes: seq<Cqe>)
    requires Inv(c, u) && c.kernel
    ensures Inv(c, Observe(u, cqes))
    decreases |cqes|
  {
    if cqes != [] {
      ObserveOneKeepsInv(c, u, cqes[0]);
      ObserveKeepsInv(c, ObserveOne(u, cqes[0]), cqes[1..]);
    }
  }

  lemma PollKernelKeepsInv(c: Config, u: Uring, flush: seq<OpOutcome>, ids: seq<nat>,
                           outcomes: seq<CancelOutcome>, cqes: Option<seq<Cqe>>)
    requires Inv(c, u) && c.kernel && (u.closed || |flush| <= |u.queue|) && |ids| == |outcomes|
    ensures Inv(c, PollKernel(c, u, flush, ids, outcomes, cqes))
  {
    if !u.closed {
      FlushKeepsInv(c, u, flush);
    }
    var u1 := Flushed(c, u, flush);
    RequestAllKeepsInv(c, u1, ids, outcomes);
    ObserveKeepsInv(c, RequestAll(u1, ids, outcomes), if cqes.Some? then cqes.value else []);
  }

  ghost predicate Submittable(v: VB.Virtual, ops: seq<Operation>) {
    && (forall op :: op in ops ==> op.id != 0 && IsValidShape(op) && Current(v.registry, op.handle))
    && (forall id :: One(id in v.active) + OpCount(ops, id) <= 1)
  }

  lemma SubmitOneAccepts(v: VB.Virtual, ops: seq<Operation>)
    requires !v.stopped && ops != [] && Submittable(v, ops)
    ensures VB.SubmitCheck(v, ops[0]).Ok? && Submittable(VB.Submit(v, ops[0]), ops[1..])
  {
    var op, rest := ops[0], ops[1..];
    assert ops == [op] + rest;
    OpCountConcat([op], rest);
    OpCountAppend([], op);
    assert [] + [op] == [op];
    assert op in ops && forall x :: x in rest ==> x in ops;
    assert One(op.id in v.active) + OpCount(ops, op.id) <= 1;
    forall id
      ensures One(id in v.active + {op.id}) + OpCount(rest, id) <= 1
    {
      assert OpCount(ops, id) == OpCount([op], id) + OpCount(rest, id);
    }
  }

  /** Handing operations to the fallback succeeds for each of them when they are acceptable and new to it. */
  lemma {:induction false} SubmitAllAccepts(v: VB.Virtual, ops: seq<Operation>)
    requires VB.Inv(v) && !v.stopped && Submittable(v, ops)
    ensures var v' := SubmitAll(v, ops);
            && VB.Inv(v')
            && v' == v.(pending := v.pending + ops, active := v'.active, submitted := v.submitted + |ops|)
    decreases |ops|
  {
    if ops == [] {
      assert v.pending + ops == v.pending;
    } else {
      SubmitOneAccepts(v, ops);
      VB.SubmitKeepsInv(v, ops[0]);
      SubmitAllAccepts(VB.Submit(v, ops[0]), ops[1..]);
      assert v.pending + [ops[0]] + ops[1..] == v.pending + ops;
    }
  }

  lemma FallbackCounts(c: Config, u: Uring)
    requires Inv(c, u)
    ensures forall id :: One(id in u.fallback.active) == OpCount(u.fallback.pending, id) + DoneCount(u.fallback.completions, id)
    ensures forall id :: One(id in u.fallback.active) + OpCount(u.queue, id) <= 1
  {
    forall id
      ensures One(id in u.fallback.active) + OpCount(u.queue, id) <= 1
    {
      assert One(id in u.active) == Places(u, id);
    }
  }

  lemma PollFallbackKeepsInv(c: Config, u: Uring)
    requires Inv(c, u) && !c.kernel
    ensures Inv(c, PollFallback(c, u))
  {
    if u.closed || !c.caps.available {
      return;
    }
    var n := Min(c.submitLimit, |u.queue|);
    var ops, rest := u.queue[..n], u.queue[n..];
    assert u.queue == ops + rest;
    OpCountConcat(ops, rest);
    FallbackCounts(c, u);
    SubmitAllAccepts(u.fallback, ops);
    OpCountConcat(u.fallback.pending, ops);
    var v := SubmitAll(u.fallback, ops);
    var m := Min(|v.completions|, c.completionLimit);
    assert v.completions == v.completions[..m] + v.completions[m..];
    DoneCountConcat(v.completions[..m], v.completions[m..]);
    DoneCountConcat(u.completions, v.completions[..m]);
    VB.DrainKeepsInv(v, m);
    assert forall op :: op in rest ==> op in u.queue;
  }

  /** Marking and requesting keeps the invariant and leaves everything in scope marked for closing. */
  lemma MarkAndRequest(c: Config, u: Uring, scope: Option<Token>, ids: seq<nat>, outcomes: seq<CancelOutcome>)
    requires Inv(c, u) && c.kernel && |ids| == |outcomes|
    ensures var u1 := RequestAll(MarkClosing(u, scope), ids, outcomes);
            && Inv(c, u1)
            && u1 == u.(kernelOps := u1.kernelOps, cancelIds := u1.cancelIds)
            && u1.kernelOps.Keys == u.kernelOps.Keys
            && (forall id :: id in u1.kernelOps ==> u1.kernelOps[id].op == u.kernelOps[id].op)
            && (forall id :: id in u1.kernelOps && InScope(u1.kernelOps[id], scope) ==> u1.kernelOps[id].closeRequested)
  {
    var marked := MarkClosing(u, scope);
    MarkClosingKeepsInv(c, u, scope);
    RequestAllKeepsInv(c, marked, ids, outcomes);
    var u1 := RequestAll(marked, ids, outcomes);
    forall id | id in u1.kernelOps
      ensures u1.kernelOps[id].op == u.kernelOps[id].op
      ensures InScope(u1.kernelOps[id], scope) ==> u1.kernelOps[id].closeRequested
    {
      assert SameIntent(marked.kernelOps[id], u1.kernelOps[id]);
    }
  }

  /** Closing a handle whose kernel operations are marked. */
  lemma CloseMarkedKeepsInv(c: Config, u: Uring, token: Token)
    requires Inv(c, u) && c.kernel && !u.closed && Current(u.fallback.registry, token)
    requires forall id :: id in u.kernelOps && u.kernelOps[id].op.handle == token ==> u.kernelOps[id].closeRequested
    ensures Inv(c, u.(queue := Unpicked(u.queue, ByHandle(token)),
                      completions := u.completions + CloseAll(Picked(u.queue, ByHandle(token))),
                      fallback := VB.CloseToken(u.fallback, token)))
  {
    var sel := ByHandle(token);
    PickPartitions(u.queue, sel);
    PickMembers(u.queue, |u.queue|, sel);
    CompleteAllCount(Picked(u.queue, sel), Err(Closed));
    DoneCountConcat(u.completions, CloseAll(Picked(u.queue, sel)));
    VB.CloseKeepsInv(u.fallback, token);
    CloseRetires(u.fallback.registry, token);
    var u' := u.(queue := Unpicked(u.queue, sel), completions := u.completions + CloseAll(Picked(u.queue, sel)),
                 fallback := VB.CloseToken(u.fallback, token));
    forall i
      ensures Places(u', i) == Places(u, i)
    {
      CompletePendingEmpty(u.fallback, token);
    }
    forall i | i in u'.kernelOps
      ensures KernelOpOk(c, u', i, u'.kernelOps[i])
    {
      KernelOpStays(c, u, u', i, u.kernelOps[i], u.kernelOps[i]);
    }
  }

  lemma CompletePendingEmpty(v: VB.Virtual, token: Token)
    requires v.pending == [] && v.completions == []
    ensures VB.CloseToken(v, token).pending == [] && VB.CloseToken(v, token).completions == []
  {
  }

  lemma CloseKernelKeepsInv(c: Config, u: Uring, token: Token, ids: seq<nat>, outcomes: seq<CancelOutcome>)
    requires Inv(c, u) && c.kernel && |ids| == |outcomes| && CloseCheck(c, u, token).Ok?
    ensures Inv(c, CloseToken(c, u, token, ids, outcomes))
  {
    MarkAndRequest(c, u, Some(token), ids, outcomes);
    CloseMarkedKeepsInv(c, RequestAll(MarkClosing(u, Some(token)), ids, outcomes), token);
  }

  lemma CloseFallbackKeepsInv(c: Config, u: Uring, token: Token, ids: seq<nat>, outcomes: seq<CancelOutcome>)
    requires Inv(c, u) && !c.kernel && |ids| == |outcomes| && CloseCheck(c, u, token).Ok?
    ensures Inv(c, CloseToken(c, u, token, ids, outcomes))
  {
    var sel := ByHandle(token);
    var taken, rest := Picked(u.queue, sel), Unpicked(u.queue, sel);
    PickPartitions(u.queue, sel);
    PickMembers(u.queue, |u.queue|, sel);
    FallbackCounts(c, u);
    SubmitAllAccepts(u.fallback, taken);
    OpCountConcat(u.fallback.pending, taken);
    var v := SubmitAll(u.fallback, taken);
    VB.CloseKeepsInv(v, token);
    CloseRetires(v.registry, token);
    VB.CompletePendingKeepsCounts(v.(registry := ClosedRegistry(v.registry, token)), sel, Err(Closed));
  }

  /** Stopping a backend whose kernel operations are all marked. */
  lemma StopMarkedKeepsInv(c: Config, u: Uring)
    requires Inv(c, u) && !u.closed
    requires forall id :: id in u.kernelOps ==> u.kernelOps[id].closeRequested
    ensures var v := VB.Stopped(u.fallback);
            Inv(c, u.(closed := true, queue := [], fallback := VB.Drained(v, |v.completions|),
                      completions := u.completions + v.completions + CloseAll(u.queue)))
  {
    var v := VB.Stopped(u.fallback);
    VB.StopKeepsInv(u.fallback);
    VB.DrainKeepsInv(v, |v.completions|);
    CompleteAllCount(u.fallback.pending, Err(Closed));
    DoneCountConcat(u.fallback.completions, CloseAll(u.fallback.pending));
    CompleteAllCount(u.queue, Err(Closed));
    DoneCountConcat(u.completions, v.completions);
    DoneCountConcat(u.completions + v.completions, CloseAll(u.queue));
    var u' := u.(closed := true, queue := [], fallback := VB.Drained(v, |v.completions|),
                 completions := u.completions + v.completions + CloseAll(u.queue));
    assert u'.fallback.completions == [];
    assert forall i :: Places(u', i) == Places(u, i);
    forall i | i in u'.kernelOps
      ensures KernelOpOk(c, u', i, u'.kernelOps[i])
    {
      KernelOpStays(c, u, u', i, u.kernelOps[i], u.kernelOps[i]);
    }
  }

  lemma ShutdownKeepsInv(c: Config, u: Uring, ids: seq<nat>, outcomes: seq<CancelOutcome>)
    requires Inv(c, u) && |ids| == |outcomes|
    ensures Inv(c, Shutdown(c, u, ids, outcomes))
  {
    if !u.closed && ShutdownCheck(c, u).Ok? {
      if c.kernel {
        MarkAndRequest(c, u, None, ids, outcomes);
        StopMarkedKeepsInv(c, RequestAll(MarkClosing(u, None), ids, outcomes));
      } else {
        StopMarkedKeepsInv(c, u);
      }
    }
  }

  lemma DrainUringKeepsInv(c: Config, u: Uring, room: nat)
    requires Inv(c, u)
    ensures Inv(c, Drain(c, u, room))
    ensures forall id :: One(id in u.active) == One(id in Drain(c, u, room).active) + DoneCount(DrainOutput(c, u, room), id)
  {
    if !(room == 0 || (!u.closed && !c.caps.available)) {
      var n := Min(room, |u.completions|);
      var out, rest := u.completions[..n], u.completions[n..];
      assert u.completions == out + rest;
      DoneCountConcat(out, rest);
      forall id
        ensures DoneCount(out, id) <= One(id in u.active)
      {
        assert One(id in u.active) == Places(u, id);
      }
      EraseIds(u.active, out);
    }
  }

  lemma RegisterKeepsInv(c: Config, u: Uring, native: nat)
    requires Inv(c, u)
    ensures Inv(c, Register(c, u, native))
  {
    var u' := Register(c, u, native);
    assert forall token: Token :: Current(u.fallback.registry, token) ==> Current(u'.fallback.registry, token);
  }
}
