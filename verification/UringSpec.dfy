/**
 The io_uring backend as a state machine over values
 (src/backends_io_uring_backend.cpp, include/voris/io/backends/io_uring_backend.hpp).

 The kernel is an adversary: it may answer a poll with any completion entries,
 may refuse or fail the submission of an operation or of a cancel request, and
 the hash map of kernel operations may be enumerated in any order. Those choices
 are arguments of the transition functions.
 */
module UringSpec {
  import opened Common
  import opened Operations
  import opened HandleRegistry
  import VB = VirtualBackends

  datatype Capabilities = Capabilities(
    available: bool, supportsRead: bool, supportsWrite: bool, supportsAccept: bool,
    supportsConnect: bool, supportsFsync: bool, supportsCancel: bool)

  datatype Config = Config(
    caps: Capabilities, queueCapacity: nat, submitLimit: nat, completionLimit: nat, kernel: bool)

  /** Zero batch limits mean one. */
  function Normalize(c: Config): (r: Config)
    ensures r.submitLimit > 0 && r.completionLimit > 0
  {
    c.(submitLimit := if c.submitLimit == 0 then 1 else c.submitLimit,
       completionLimit := if c.completionLimit == 0 then 1 else c.completionLimit)
  }

  datatype KernelOperation = KernelOperation(
    op: Operation, cancellation: Option<CancellationReason>, closeRequested: bool,
    cancelSubmitted: bool, cancelInFlight: bool)

  datatype Uring = Uring(
    fallback: VB.Virtual, queue: seq<Operation>, kernelOps: map<nat, KernelOperation>,
    cancelIds: set<nat>, completions: seq<Completion>, active: set<nat>, closed: bool)

  const EMPTY_URING := Uring(VB.EMPTY_VIRTUAL, [], map[], {}, [], {}, false)

  datatype CqeKind = OperationDone | CancelAck

  /** A completion queue entry, decoded from its user data. */
  datatype Cqe = Cqe(kind: CqeKind, id: nat, result: int)

  datatype OpOutcome = OpAccepted | OpEnterFailed(error: ErrorCode) | OpRefused(error: ErrorCode)

  datatype CancelOutcome = CancelAccepted | CancelEnterFailed | CancelRefused

  const INT_MAX: nat := 0x7fff_ffff
  const U32_MAX: nat := 0xffff_ffff
  const CANCEL_TAG: nat := 0x8000_0000_0000_0000
  const ECANCELED: int := 125

  // Submission

  predicate Supports(caps: Capabilities, kind: Kind) {
    match kind
    case Read => caps.supportsRead
    case Write => caps.supportsWrite
    case Accept => caps.supportsAccept
    case Connect => caps.supportsConnect
    case Fsync => caps.supportsFsync
    case CloseHandle => false
    case Wake => false
  }

  /** `validate_kernel_operation`, for operations that already have a valid shape. */
  predicate FitsKernel(op: Operation) {
    && 0 < op.handle.native <= INT_MAX
    && IsValidShape(op)
    && (op.kind.Read? ==> op.readSize <= U32_MAX)
    && (op.kind.Write? ==> op.writeSize <= U32_MAX)
    && (op.kind.Connect? ==> 0 < op.addressSize <= U32_MAX)
  }

  /** The checks of `submit` that depend on the operation and the configuration only. */
  function StaticCheck(c: Config, op: Operation): VoidResult {
    if !c.caps.available then Err(Unsupported)
    else if !IsValidShape(op) then Err(InvalidState)
    else if !Supports(c.caps, op.kind) then Err(Unsupported)
    else if op.id == 0 then Err(InvalidState)
    else Ok(())
  }

  function KernelCheck(c: Config, op: Operation): VoidResult {
    if !c.kernel then Ok(())
    else if !c.caps.supportsCancel then Err(Unsupported)
    else if op.id >= CANCEL_TAG then Err(InvalidState)
    else if !FitsKernel(op) then Err(InvalidState)
    else Ok(())
  }

  function SubmitCheck(c: Config, u: Uring, op: Operation): VoidResult {
    if u.closed then Err(Closed)
    else if StaticCheck(c, op).Err? then StaticCheck(c, op)
    else if !Current(u.fallback.registry, op.handle) then Err(InvalidState)
    else if KernelCheck(c, op).Err? then KernelCheck(c, op)
    else if op.id in u.active then Err(InvalidState)
    else if |u.queue| >= c.queueCapacity then Err(ResourceExhausted)
    else Ok(())
  }

  function Submit(c: Config, u: Uring, op: Operation): Uring {
    if SubmitCheck(c, u, op).Err? then u
    else u.(active := u.active + {op.id}, queue := u.queue + [op])
  }

  // Cancellation requests to the kernel

  predicate RetryRequired(k: KernelOperation) {
    (k.cancellation.Some? || k.closeRequested) && !k.cancelSubmitted && !k.cancelInFlight
  }

  function RequestCancel(u: Uring, id: nat, outcome: CancelOutcome): Uring
    requires id in u.kernelOps
  {
    var k := u.kernelOps[id];
    match outcome
    case CancelAccepted =>
      u.(kernelOps := u.kernelOps[id := k.(cancelSubmitted := true, cancelInFlight := true)],
         cancelIds := u.cancelIds + {id})
    case CancelEnterFailed =>
      u.(kernelOps := u.kernelOps[id := k.(cancelSubmitted := false, cancelInFlight := false)],
         cancelIds := u.cancelIds - {id})
    case CancelRefused => u
  }

  /** Requests, in order, the cancellations that are still wanted when their turn comes. */
  function RequestAll(u: Uring, ids: seq<nat>, outcomes: seq<CancelOutcome>): Uring
    requires |ids| == |outcomes|
    decreases |ids|
  {
    if ids == [] then u
    else
      var next := if ids[0] in u.kernelOps && RetryRequired(u.kernelOps[ids[0]])
                  then RequestCancel(u, ids[0], outcomes[0]) else u;
      RequestAll(next, ids[1..], outcomes[1..])
  }

  /** `ids` lists `all` in some order, each once: one enumeration of the hash map. */
  ghost predicate Enumerates(ids: seq<nat>, all: set<nat>) {
    NoDuplicates(ids) && forall id :: id in ids <==> id in all
  }

  /** Cancel or close intent without a cancel request: what a poll retries. */
  function Missing(u: Uring): set<nat> {
    set id | id in u.kernelOps && RetryRequired(u.kernelOps[id])
  }

  /** `scope` is a handle, or everything for a shutdown. */
  predicate InScope(k: KernelOperation, scope: Option<Token>) {
    scope.None? || k.op.handle == scope.value
  }

  function MarkClosing(u: Uring, scope: Option<Token>): Uring {
    u.(kernelOps := map id | id in u.kernelOps ::
         if InScope(u.kernelOps[id], scope) then u.kernelOps[id].(closeRequested := true) else u.kernelOps[id])
  }

  /** The operations that a close or shutdown sends cancel requests for. */
  function ToCancel(u: Uring, scope: Option<Token>): set<nat> {
    set id | id in u.kernelOps && InScope(u.kernelOps[id], scope)
             && !u.kernelOps[id].cancelSubmitted && !u.kernelOps[id].cancelInFlight
  }

  function FindQueued(queue: seq<Operation>, id: nat, i: nat := 0): (r: nat)
    requires i <= |queue|
    ensures i <= r <= |queue|
    ensures r < |queue| ==> queue[r].id == id
    ensures forall j :: i <= j < r ==> queue[j].id != id
    decreases |queue| - i
  {
    if i == |queue| || queue[i].id == id then i else FindQueued(queue, id, i + 1)
  }

  function CancelCheck(c: Config, u: Uring, id: nat): VoidResult {
    if u.closed then Err(Closed)
    else if !c.caps.available || !c.caps.supportsCancel then Err(Unsupported)
    else if FindQueued(u.queue, id) < |u.queue| || (c.kernel && id in u.kernelOps) then Ok(())
    else VB.CancelCheck(u.fallback, id)
  }

  /** User cancellation; the first reason stays. */
  function Cancel(c: Config, u: Uring, id: nat, reason: CancellationReason, outcome: CancelOutcome): Uring {
    if u.closed || !c.caps.available || !c.caps.supportsCancel then u
    else
      var i := FindQueued(u.queue, id);
      if i < |u.queue| then
        u.(completions := u.completions + [Plain(id, Err(Cancelled(reason)))],
           queue := u.queue[..i] + u.queue[i + 1..])
      else if c.kernel && id in u.kernelOps then
        var k := u.kernelOps[id];
        var k' := if k.cancellation.None? then k.(cancellation := Some(reason)) else k;
        var u' := u.(kernelOps := u.kernelOps[id := k']);
        if k.cancelSubmitted || k.cancelInFlight then u' else RequestCancel(u', id, outcome)
      else u.(fallback := VB.Cancel(u.fallback, id))
  }

  // Results of kernel completions

  datatype ResultClass = KernelResult | ResultCancelled | ResultClosed

  /** `io_uring_completion_result_for`. */
  function ResultClassFor(target: Target, cancelRequested: bool, closeRequested: bool, current: bool, result: int): ResultClass {
    if cancelRequested then
      if result == -ECANCELED then ResultCancelled else KernelResult
    else if target.File? then
      if (closeRequested || !current) && result == -ECANCELED then ResultClosed else KernelResult
    else if closeRequested || !current then ResultClosed
    else KernelResult
  }

  function CqeCompletion(u: Uring, id: nat, k: KernelOperation, result: int): Completion {
    match ResultClassFor(k.op.target, k.cancellation.Some?, k.closeRequested,
                         Current(u.fallback.registry, k.op.handle), result)
    case ResultCancelled =>
      Plain(id, Err(Cancelled(if k.cancellation.Some? then k.cancellation.value else Manual)))
    case ResultClosed => Plain(id, Err(Closed))
    case KernelResult =>
      if result < 0 then Plain(id, Err(BackendFailure(-result)))
      else match k.op.kind
        case Read => Completion(id, Ok(()), result, 0)
        case Write => Completion(id, Ok(()), result, 0)
        case Accept => Completion(id, Ok(()), 0, result)
        case Connect => Plain(id, Ok(()))
        case Fsync => Plain(id, Ok(()))
        case CloseHandle => Plain(id, Err(InvalidState))
        case Wake => Plain(id, Err(InvalidState))
  }

  /** The result of an operation whose submission queue entry provably never reached the kernel. */
  function UnsubmittedResult(u: Uring, k: KernelOperation, error: ErrorCode): VoidResult {
    if k.cancellation.Some? then Err(Cancelled(k.cancellation.value))
    else if u.closed || k.closeRequested || !Current(u.fallback.registry, k.op.handle) then Err(Closed)
    else Err(error)
  }

  // Polling

  function Fresh(op: Operation): KernelOperation {
    KernelOperation(op, None, false, false, false)
  }

  function FlushOne(u: Uring, outcome: OpOutcome): Uring
    requires u.queue != []
  {
    var op := u.queue[0];
    match outcome
    case OpAccepted =>
      u.(queue := u.queue[1..],
         kernelOps := if op.id in u.kernelOps then u.kernelOps else u.kernelOps[op.id := Fresh(op)])
    case OpEnterFailed(error) =>
      u.(queue := u.queue[1..],
         completions := u.completions + [Plain(op.id, UnsubmittedResult(u, Fresh(op), error))])
    case OpRefused(_) => u
  }

  function Flush(u: Uring, outcomes: seq<OpOutcome>): Uring
    requires |outcomes| <= |u.queue|
    decreases |outcomes|
  {
    if outcomes == [] || outcomes[0].OpRefused? then u
    else Flush(FlushOne(u, outcomes[0]), outcomes[1..])
  }

  predicate Refused(outcomes: seq<OpOutcome>) {
    exists i :: 0 <= i < |outcomes| && outcomes[i].OpRefused?
  }

  function ObserveOne(u: Uring, cqe: Cqe): Uring {
    if cqe.id !in u.kernelOps then
      if cqe.kind.CancelAck? then u.(cancelIds := u.cancelIds - {cqe.id}) else u
    else if cqe.kind.CancelAck? then
      u.(cancelIds := u.cancelIds - {cqe.id},
         kernelOps := u.kernelOps[cqe.id := u.kernelOps[cqe.id].(cancelInFlight := false)])
    else
      u.(kernelOps := u.kernelOps - {cqe.id},
         completions := u.completions + [CqeCompletion(u, cqe.id, u.kernelOps[cqe.id], cqe.result)])
  }

  function Observe(u: Uring, cqes: seq<Cqe>): Uring
    decreases |cqes|
  {
    if cqes == [] then u else Observe(ObserveOne(u, cqes[0]), cqes[1..])
  }

  predicate HasKernelWork(u: Uring) {
    u.kernelOps != map[] || u.cancelIds != {}
  }

  /** Whether a poll reaches the kernel completion queue at all. */
  predicate PollObserves(c: Config, u: Uring, flush: seq<OpOutcome>) {
    if u.closed then c.kernel && HasKernelWork(u) else c.caps.available && c.kernel && !Refused(flush)
  }

  function Flushed(c: Config, u: Uring, flush: seq<OpOutcome>): Uring
    requires u.closed || |flush| <= |u.queue|
  {
    if u.closed || !c.caps.available then u else Flush(u, flush)
  }

  /** A poll in kernel mode: flush, retry missing cancels, observe; `cqes` is None when the enter call fails. */
  function PollKernel(c: Config, u: Uring, flush: seq<OpOutcome>, ids: seq<nat>, outcomes: seq<CancelOutcome>,
                      cqes: Option<seq<Cqe>>): Uring
    requires u.closed || |flush| <= |u.queue|
    requires |ids| == |outcomes|
  {
    var u1 := Flushed(c, u, flush);
    if PollObserves(c, u, flush) then
      Observe(RequestAll(u1, ids, outcomes), if cqes.Some? then cqes.value else [])
    else u1
  }

  function SubmitAll(v: VB.Virtual, ops: seq<Operation>): VB.Virtual
    decreases |ops|
  {
    if ops == [] then v else SubmitAll(VB.Submit(v, ops[0]), ops[1..])
  }

  /** A poll without kernel submission: hand queued work to the fallback, take its completions. */
  ghost function PollFallback(c: Config, u: Uring): Uring {
    if u.closed || !c.caps.available then u
    else
      var n := Min(c.submitLimit, |u.queue|);
      var v := SubmitAll(u.fallback, u.queue[..n]);
      var m := Min(|v.completions|, c.completionLimit);
      u.(queue := u.queue[n..], fallback := VB.Drained(v, m), completions := u.completions + v.completions[..m])
  }

  // Closing and draining

  function CloseCheck(c: Config, u: Uring, token: Token): VoidResult {
    if u.closed then Err(Closed)
    else if !c.caps.available then Err(Unsupported)
    else if !Current(u.fallback.registry, token) then Err(InvalidState)
    else if c.kernel && u.kernelOps != map[] && !c.caps.supportsCancel then Err(Unsupported)
    else Ok(())
  }

  /** Without kernel submission, queued work on the handle first moves to the fallback, which then closes it. */
  function CloseToken(c: Config, u: Uring, token: Token, ids: seq<nat>, outcomes: seq<CancelOutcome>): Uring
    requires |ids| == |outcomes|
  {
    if CloseCheck(c, u, token).Err? then u
    else
      var rest := Unpicked(u.queue, ByHandle(token));
      var taken := Picked(u.queue, ByHandle(token));
      if c.kernel then
        var u1 := RequestAll(MarkClosing(u, Some(token)), ids, outcomes);
        u1.(queue := rest, completions := u.completions + CloseAll(taken),
            fallback := VB.CloseToken(u.fallback, token))
      else
        u.(queue := rest, fallback := VB.CloseToken(SubmitAll(u.fallback, taken), token))
  }

  function ShutdownCheck(c: Config, u: Uring): VoidResult {
    if !u.closed && c.kernel && u.kernelOps != map[] && !c.caps.supportsCancel then Err(Unsupported) else Ok(())
  }

  ghost function Shutdown(c: Config, u: Uring, ids: seq<nat>, outcomes: seq<CancelOutcome>): Uring
    requires |ids| == |outcomes|
  {
    if u.closed || ShutdownCheck(c, u).Err? then u
    else
      var u1 := if c.kernel then RequestAll(MarkClosing(u, None), ids, outcomes) else u;
      var v := VB.Stopped(u.fallback);
      u1.(closed := true, queue := [], fallback := VB.Drained(v, |v.completions|),
          completions := u.completions + v.completions + CloseAll(u.queue))
  }

  ghost function Drain(c: Config, u: Uring, room: nat): Uring {
    if room == 0 || (!u.closed && !c.caps.available) then u
    else
      var n := Min(room, |u.completions|);
      u.(completions := u.completions[n..], active := u.active - CompletedIds(u.completions[..n]))
  }

  function DrainOutput(c: Config, u: Uring, room: nat): seq<Completion> {
    if room == 0 || (!u.closed && !c.caps.available) then [] else u.completions[..Min(room, |u.completions|)]
  }

  function Register(c: Config, u: Uring, native: nat): Uring {
    if u.closed || !c.caps.available then u
    else u.(fallback := VB.RegisterHandle(u.fallback, native).0)
  }

  function WakeUp(c: Config, u: Uring): Uring {
    if u.closed || !c.caps.available then u else u.(fallback := VB.Woken(u.fallback))
  }

  // Runs

  datatype Event =
    | RegisterEvent(native: nat)
    | SubmitEvent(op: Operation)
    | CancelEvent(id: nat, reason: CancellationReason, outcome: CancelOutcome)
    | CloseEvent(token: Token, ids: seq<nat>, outcomes: seq<CancelOutcome>)
    | PollEvent(flush: seq<OpOutcome>, ids: seq<nat>, outcomes: seq<CancelOutcome>, cqes: Option<seq<Cqe>>)
    | DrainEvent(room: nat)
    | WakeEvent
    | ShutdownEvent(ids: seq<nat>, outcomes: seq<CancelOutcome>)

  /** How far a flush gets: to the batch limit, or to the first refusal. */
  predicate FlushShape(c: Config, u: Uring, flush: seq<OpOutcome>) {
    var n := Min(c.submitLimit, |u.queue|);
    && |flush| <= n
    && (forall i :: 0 <= i < |flush| - 1 ==> !flush[i].OpRefused?)
    && (|flush| < n ==> flush != [] && flush[|flush| - 1].OpRefused?)
  }

  /**
   The flush of a poll is refused only while the ring cannot be created, hence at its
   first operation and before the kernel has anything; `RingBackends` proves this of the ring.
   */
  predicate RefusalShape(u: Uring, flush: seq<OpOutcome>) {
    Refused(flush) ==> |flush| == 1 && u.kernelOps == map[] && u.cancelIds == {}
  }

  ghost predicate Possible(c: Config, u: Uring, e: Event) {
    match e
    case CloseEvent(token, ids, outcomes) =>
      |ids| == |outcomes| && Enumerates(ids, ToCancel(u, Some(token)))
    case ShutdownEvent(ids, outcomes) =>
      |ids| == |outcomes| && Enumerates(ids, ToCancel(u, None))
    case PollEvent(flush, ids, outcomes, cqes) =>
      c.kernel ==>
        && (!u.closed && c.caps.available ==> FlushShape(c, u, flush) && RefusalShape(u, flush))
        && (u.closed || !c.caps.available ==> flush == [])
        && |ids| == |outcomes| && Enumerates(ids, Missing(Flushed(c, u, flush)))
        && (cqes.Some? ==> |cqes.value| <= c.completionLimit)
    case _ => true
  }

  ghost function Step(c: Config, u: Uring, e: Event): Uring
    requires Possible(c, u, e)
  {
    match e
    case RegisterEvent(native) => Register(c, u, native)
    case SubmitEvent(op) => Submit(c, u, op)
    case CancelEvent(id, reason, outcome) => Cancel(c, u, id, reason, outcome)
    case CloseEvent(token, ids, outcomes) => CloseToken(c, u, token, ids, outcomes)
    case PollEvent(flush, ids, outcomes, cqes) =>
      if c.kernel then PollKernel(c, u, flush, ids, outcomes, cqes) else PollFallback(c, u)
    case DrainEvent(room) => Drain(c, u, room)
    case WakeEvent => WakeUp(c, u)
    case ShutdownEvent(ids, outcomes) => Shutdown(c, u, ids, outcomes)
  }

  ghost predicate PossibleRun(c: Config, u: Uring, events: seq<Event>)
    decreases |events|
  {
    events == [] || (Possible(c, u, events[0]) && PossibleRun(c, Step(c, u, events[0]), events[1..]))
  }

  ghost function Run(c: Config, u: Uring, events: seq<Event>): Uring
    requires PossibleRun(c, u, events)
    decreases |events|
  {
    if events == [] then u else Run(c, Step(c, u, events[0]), events[1..])
  }

  /** How often a run accepts a submission with this id. */
  ghost function Accepts(c: Config, u: Uring, events: seq<Event>, id: nat): nat
    requires PossibleRun(c, u, events)
    decreases |events|
  {
    if events == [] then 0
    else One(events[0].SubmitEvent? && events[0].op.id == id && SubmitCheck(c, u, events[0].op).Ok?)
         + Accepts(c, Step(c, u, events[0]), events[1..], id)
  }

  /** How often a run hands out a completion with this id. */
  ghost function Drains(c: Config, u: Uring, events: seq<Event>, id: nat): nat
    requires PossibleRun(c, u, events)
    decreases |events|
  {
    if events == [] then 0
    else (if events[0].DrainEvent? then DoneCount(DrainOutput(c, u, events[0].room), id) else 0)
         + Drains(c, Step(c, u, events[0]), events[1..], id)
  }
}
