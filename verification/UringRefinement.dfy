/**
 Without kernel submission the io_uring backend is a buffered front end of the
 virtual backend, and every run of it is a run of that simpler backend with one
 extra kind of step: cancelling an operation that is still queued.
 */
module UringRefinement {
  import opened Common
  import opened Operations
  import VB = VirtualBackends
  import opened UringSpec
  import opened UringInvariant
  import opened UringRuns

  /** A virtual backend without its statistics, which the io_uring backend does not expose. */
  function Core(v: VB.Virtual): VB.Virtual {
    v.(registered := 0, submitted := 0, cancelled := 0, wakeups := 0)
  }

  /** The simple backend that a front end stands for: queued work is pending, both completion queues are one. */
  function Abs(u: Uring): VB.Virtual {
    Core(u.fallback.(pending := u.fallback.pending + u.queue,
                     completions := u.completions + u.fallback.completions,
                     active := u.active, stopped := u.closed))
  }

  datatype SimpleEvent =
    | SimpleRegister(native: nat)
    | SimpleSubmit(op: Operation)
    | SimpleClose(token: Token)
    | SimpleDrain(count: nat)
    | SimpleShutdown
    | SimpleNothing
    | CancelPending(index: nat, position: nat, reason: CancellationReason)

  ghost predicate SimplePossible(v: VB.Virtual, e: SimpleEvent) {
    match e
    case SimpleDrain(count) => count <= |v.completions|
    case CancelPending(index, position, _) => index < |v.pending| && position <= |v.completions|
    case _ => true
  }

  ghost function SimpleStep(v: VB.Virtual, e: SimpleEvent): VB.Virtual
    requires SimplePossible(v, e)
  {
    match e
    case SimpleRegister(native) => Core(VB.RegisterHandle(v, native).0)
    case SimpleSubmit(op) => Core(VB.Submit(v, op))
    case SimpleClose(token) => Core(VB.CloseToken(v, token))
    case SimpleDrain(count) => VB.Drained(v, count)
    case SimpleShutdown => VB.Stopped(v)
    case SimpleNothing => v
    case CancelPending(index, position, reason) =>
      v.(pending := v.pending[..index] + v.pending[index + 1..],
         completions := v.completions[..position] + [Plain(v.pending[index].id, Err(Cancelled(reason)))]
                        + v.completions[position..])
  }

  /** The simple step that a step of the front end amounts to. */
  ghost function Lift(c: Config, u: Uring, e: Event): SimpleEvent
    requires Possible(c, u, e)
  {
    var on := !u.closed && c.caps.available;
    match e
    case RegisterEvent(native) => if on then SimpleRegister(native) else SimpleNothing
    case SubmitEvent(op) => if SubmitCheck(c, u, op).Ok? then SimpleSubmit(op) else SimpleNothing
    case CancelEvent(id, reason, _) =>
      var i := FindQueued(u.queue, id);
      if on && c.caps.supportsCancel && i < |u.queue|
      then CancelPending(|u.fallback.pending| + i, |u.completions|, reason)
      else SimpleNothing
    case CloseEvent(token, _, _) => if on then SimpleClose(token) else SimpleNothing
    case PollEvent(_, _, _, _) => SimpleNothing
    case DrainEvent(room) => SimpleDrain(|DrainOutput(c, u, room)|)
    case WakeEvent => SimpleNothing
    case ShutdownEvent(_, _) => SimpleShutdown
  }

  lemma AbsKeepsInv(c: Config, u: Uring)
    requires Inv(c, u) && !c.kernel
    ensures VB.Inv(Abs(u))
  {
    OpCountConcat(u.fallback.pending, u.queue);
    DoneCountConcat(u.completions, u.fallback.completions);
    var v := Abs(u);
    forall id
      ensures One(id in v.active) == OpCount(v.pending, id) + DoneCount(v.completions, id)
    {
      assert One(id in u.active) == Places(u, id);
    }
  }

  lemma SubmitSimulates(c: Config, u: Uring, op: Operation)
    requires Inv(c, u) && !c.kernel
    ensures SubmitCheck(c, u, op).Ok? ==>
              VB.SubmitCheck(Abs(u), op).Ok? && Abs(Submit(c, u, op)) == Core(VB.Submit(Abs(u), op))
    ensures VB.SubmitCheck(Abs(u), op).Ok? && SubmitCheck(c, u, op).Err? ==>
              SubmitCheck(c, u, op).error.Unsupported? || SubmitCheck(c, u, op).error.ResourceExhausted?
  {
    assert u.fallback.pending + (u.queue + [op]) == u.fallback.pending + u.queue + [op];
  }

  /** A poll moves work between the buffers and changes nothing that a caller of the simple backend could see. */
  lemma PollStutters(c: Config, u: Uring)
    requires Inv(c, u) && !c.kernel
    ensures Abs(PollFallback(c, u)) == Abs(u)
  {
    if !u.closed && c.caps.available {
      var n := Min(c.submitLimit, |u.queue|);
      var ops, rest := u.queue[..n], u.queue[n..];
      PrefixSubmittable(c, u, n);
      SubmitAllAccepts(u.fallback, ops);
      var v := SubmitAll(u.fallback, ops);
      var m := Min(|v.completions|, c.completionLimit);
      assert u.queue == ops + rest;
      assert u.fallback.pending + ops + rest == u.fallback.pending + u.queue;
      assert v.completions == v.completions[..m] + v.completions[m..];
      assert u.completions + v.completions[..m] + v.completions[m..] == u.completions + v.completions;
    }
  }

  lemma PrefixSubmittable(c: Config, u: Uring, n: nat)
    requires Inv(c, u) && !c.kernel && n <= |u.queue|
    ensures Submittable(u.fallback, u.queue[..n])
  {
    assert u.queue == u.queue[..n] + u.queue[n..];
    OpCountConcat(u.queue[..n], u.queue[n..]);
    FallbackCounts(c, u);
    assert forall op :: op in u.queue[..n] ==> op in u.queue;
  }

  lemma PickedSubmittable(c: Config, u: Uring, token: Token)
    requires Inv(c, u) && !c.kernel
    ensures Submittable(u.fallback, Picked(u.queue, ByHandle(token)))
  {
    PickPartitions(u.queue, ByHandle(token));
    PickMembers(u.queue, |u.queue|, ByHandle(token));
    FallbackCounts(c, u);
  }

  lemma PickTwice(q: seq<Operation>, sel: Selector)
    ensures Picked(Picked(q, sel), sel) == Picked(q, sel) && Unpicked(Picked(q, sel), sel) == []
  {
    var taken := Picked(q, sel);
    PickMembers(q, |q|, sel);
    forall i | 0 <= i < |taken|
      ensures Selected(sel, taken[i])
    {
      assert taken[i] in taken;
    }
    PickAllTo(taken, |taken|, sel);
    WholePrefix(taken);
  }

  lemma PickAfterFlush(p: seq<Operation>, q: seq<Operation>, sel: Selector)
    ensures Picked(p + Picked(q, sel), sel) == Picked(p + q, sel)
    ensures Unpicked(p + Picked(q, sel), sel) + Unpicked(q, sel) == Unpicked(p + q, sel)
  {
    var taken := Picked(q, sel);
    PickTwice(q, sel);
    calc {
      Picked(p + taken, sel);
      { PickConcat(p, taken, sel); }
      Picked(p, sel) + taken;
      { PickConcat(p, q, sel); }
      Picked(p + q, sel);
    }
    calc {
      Unpicked(p + taken, sel) + Unpicked(q, sel);
      { PickConcat(p, taken, sel); }
      Unpicked(p, sel) + [] + Unpicked(q, sel);
      { assert Unpicked(p, sel) + [] == Unpicked(p, sel); PickConcat(p, q, sel); }
      Unpicked(p + q, sel);
    }
  }

  /** Flushing the queued work of a handle and then closing it completes the same work in the same order. */
  lemma CloseSimulates(c: Config, u: Uring, token: Token, ids: seq<nat>, outcomes: seq<CancelOutcome>)
    requires Inv(c, u) && !c.kernel && |ids| == |outcomes| && !u.closed && c.caps.available
    ensures Abs(CloseToken(c, u, token, ids, outcomes)) == Core(VB.CloseToken(Abs(u), token))
    ensures CloseCheck(c, u, token) == VB.CloseCheck(Abs(u), token)
  {
    if CloseCheck(c, u, token).Ok? {
      PickedSubmittable(c, u, token);
      SubmitAllAccepts(u.fallback, Picked(u.queue, ByHandle(token)));
      PickAfterFlush(u.fallback.pending, u.queue, ByHandle(token));
      var done := CloseAll(Picked(u.fallback.pending + u.queue, ByHandle(token)));
      assert u.completions + (u.fallback.completions + done) == u.completions + u.fallback.completions + done;
    }
  }

  lemma ShutdownSimulates(c: Config, u: Uring, ids: seq<nat>, outcomes: seq<CancelOutcome>)
    requires Inv(c, u) && !c.kernel && |ids| == |outcomes|
    ensures Abs(Shutdown(c, u, ids, outcomes)) == VB.Stopped(Abs(u))
  {
    if !u.closed {
      ClosedInOrder(u.completions, u.fallback.completions, u.fallback.pending, u.queue);
      var u' := Shutdown(c, u, ids, outcomes);
      assert u'.fallback.completions == [] && u'.completions + [] == u'.completions;
      assert u'.fallback.pending + u'.queue == [];
    }
  }

  lemma ClosedInOrder(a: seq<Completion>, b: seq<Completion>, p: seq<Operation>, q: seq<Operation>)
    ensures a + (b + CloseAll(p)) + CloseAll(q) == a + b + CloseAll(p + q)
  {
    CompleteAllConcat(p, q, Err(Closed));
  }

  lemma DrainSimulates(c: Config, u: Uring, room: nat)
    requires Inv(c, u) && !c.kernel
    ensures var n := |DrainOutput(c, u, room)|;
            && n <= |Abs(u).completions|
            && Abs(Drain(c, u, room)) == VB.Drained(Abs(u), n)
            && DrainOutput(c, u, room) == Abs(u).completions[..n]
  {
    var n := |DrainOutput(c, u, room)|;
    var all := u.completions + u.fallback.completions;
    assert all[..n] == u.completions[..n];
    assert all[n..] == u.completions[n..] + u.fallback.completions;
    if n == 0 {
      assert u.active - CompletedIds(u.completions[..0]) == u.active;
    }
  }

  lemma SpliceConcat<T>(p: seq<T>, q: seq<T>, i: nat, x: T)
    requires i <= |q|
    ensures i < |q| ==> (p + q)[|p| + i] == q[i]
    ensures i < |q| ==> (p + q)[..|p| + i] + (p + q)[|p| + i + 1..] == p + (q[..i] + q[i + 1..])
    ensures (p + q)[..|p|] + [x] + (p + q)[|p|..] == p + [x] + q
  {
  }

  lemma CancelSimulates(c: Config, u: Uring, id: nat, reason: CancellationReason, outcome: CancelOutcome)
    requires !c.kernel
    ensures var e := CancelEvent(id, reason, outcome);
            && SimplePossible(Abs(u), Lift(c, u, e))
            && Abs(Cancel(c, u, id, reason, outcome)) == SimpleStep(Abs(u), Lift(c, u, e))
  {
    if !(u.closed || !c.caps.available || !c.caps.supportsCancel) {
      var i := FindQueued(u.queue, id);
      if i < |u.queue| {
        CancelQueuedSimulates(u, i, reason);
        assert Cancel(c, u, id, reason, outcome) ==
               u.(completions := u.completions + [Plain(u.queue[i].id, Err(Cancelled(reason)))],
                  queue := u.queue[..i] + u.queue[i + 1..]);
      }
    }
  }

  lemma CancelQueuedSimulates(u: Uring, i: nat, reason: CancellationReason)
    requires i < |u.queue|
    ensures var v := Abs(u);
            var e := CancelPending(|u.fallback.pending| + i, |u.completions|, reason);
            && SimplePossible(v, e)
            && Abs(u.(completions := u.completions + [Plain(u.queue[i].id, Err(Cancelled(reason)))],
                      queue := u.queue[..i] + u.queue[i + 1..]))
               == SimpleStep(v, e)
  {
    SpliceConcat(u.fallback.pending, u.queue, i, u.queue[i]);
    SpliceConcat(u.completions, u.fallback.completions, 0, Plain(u.queue[i].id, Err(Cancelled(reason))));
  }

  /** A cancel of work that is no longer queued succeeds exactly when the simple backend's does. */
  lemma CancelResultAgrees(c: Config, u: Uring, id: nat)
    requires !c.kernel && !u.closed && !u.fallback.stopped && c.caps.available && c.caps.supportsCancel
    requires FindQueued(u.queue, id) == |u.queue|
    ensures CancelCheck(c, u, id) == VB.CancelCheck(Abs(u), id)
  {
    var p, q := u.fallback.pending, u.queue;
    assert forall j :: 0 <= j < |p| ==> (p + q)[j] == p[j];
    assert forall j :: |p| <= j < |p + q| ==> (p + q)[j] == q[j - |p|];
  }

  /** Every step of the front end is a step of the simple backend, a stutter, or the cancel of queued work. */
  lemma StepSimulates(c: Config, u: Uring, e: Event)
    requires Inv(c, u) && !c.kernel && Possible(c, u, e)
    ensures SimplePossible(Abs(u), Lift(c, u, e))
    ensures Abs(Step(c, u, e)) == SimpleStep(Abs(u), Lift(c, u, e))
  {
    match e
    case RegisterEvent(native) =>
    case SubmitEvent(op) => SubmitSimulates(c, u, op);
    case CancelEvent(id, reason, outcome) => CancelSimulates(c, u, id, reason, outcome);
    case CloseEvent(token, ids, outcomes) =>
      if !u.closed && c.caps.available {
        CloseSimulates(c, u, token, ids, outcomes);
      }
    case PollEvent(_, _, _, _) => PollStutters(c, u);
    case DrainEvent(room) => DrainSimulates(c, u, room);
    case WakeEvent =>
    case ShutdownEvent(ids, outcomes) => ShutdownSimulates(c, u, ids, outcomes);
  }

  ghost function LiftRun(c: Config, u: Uring, events: seq<Event>): (r: seq<SimpleEvent>)
    requires PossibleRun(c, u, events)
    decreases |events|
  {
    if events == [] then [] else [Lift(c, u, events[0])] + LiftRun(c, Step(c, u, events[0]), events[1..])
  }

  ghost predicate SimpleRunPossible(v: VB.Virtual, events: seq<SimpleEvent>)
    decreases |events|
  {
    events == [] || (SimplePossible(v, events[0]) && SimpleRunPossible(SimpleStep(v, events[0]), events[1..]))
  }

  ghost function SimpleRun(v: VB.Virtual, events: seq<SimpleEvent>): VB.Virtual
    requires SimpleRunPossible(v, events)
    decreases |events|
  {
    if events == [] then v else SimpleRun(SimpleStep(v, events[0]), events[1..])
  }

  /** Everything a run of the simple backend hands out, in order. */
  ghost function SimpleOutput(v: VB.Virtual, events: seq<SimpleEvent>): seq<Completion>
    requires SimpleRunPossible(v, events)
    decreases |events|
  {
    if events == [] then []
    else (if events[0].SimpleDrain? then v.completions[..events[0].count] else [])
         + SimpleOutput(SimpleStep(v, events[0]), events[1..])
  }

  /** Everything a run of the front end hands out, in order. */
  ghost function Output(c: Config, u: Uring, events: seq<Event>): seq<Completion>
    requires PossibleRun(c, u, events)
    decreases |events|
  {
    if events == [] then []
    else (if events[0].DrainEvent? then DrainOutput(c, u, events[0].room) else [])
         + Output(c, Step(c, u, events[0]), events[1..])
  }

  /** Refinement: a run of the front end is a run of the simple backend that hands out the same completions. */
  lemma {:induction false} RunSimulates(c: Config, u: Uring, events: seq<Event>)
    requires Inv(c, u) && !c.kernel && PossibleRun(c, u, events)
    ensures SimpleRunPossible(Abs(u), LiftRun(c, u, events))
    ensures SimpleRun(Abs(u), LiftRun(c, u, events)) == Abs(Run(c, u, events))
    ensures SimpleOutput(Abs(u), LiftRun(c, u, events)) == Output(c, u, events)
    decreases |events|
  {
    if events != [] {
      var next := Step(c, u, events[0]);
      StepSimulates(c, u, events[0]);
      StepKeepsInv(c, u, events[0]);
      RunSimulates(c, next, events[1..]);
      if events[0].DrainEvent? {
        DrainSimulates(c, u, events[0].room);
      }
      assert LiftRun(c, u, events)[0] == Lift(c, u, events[0]);
      assert LiftRun(c, u, events)[1..] == LiftRun(c, next, events[1..]);
    }
  }

  /** The flush of a poll, and of a close, never meets a fallback that rejects the work. */
  lemma FlushNeverFails(c: Config, u: Uring, token: Token, n: nat)
    requires Inv(c, u) && !c.kernel && !u.closed && n <= |u.queue|
    ensures SubmitAll(u.fallback, u.queue[..n]).pending == u.fallback.pending + u.queue[..n]
    ensures var taken := Picked(u.queue, ByHandle(token));
            SubmitAll(u.fallback, taken).pending == u.fallback.pending + taken
  {
    PrefixSubmittable(c, u, n);
    SubmitAllAccepts(u.fallback, u.queue[..n]);
    PickedSubmittable(c, u, token);
    SubmitAllAccepts(u.fallback, Picked(u.queue, ByHandle(token)));
  }
}
