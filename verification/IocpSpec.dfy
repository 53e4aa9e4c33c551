/**
 Operation storage of the IOCP backend as a state machine over values
 (src/backends_iocp_backend.cpp). Addresses of overlapped blocks, outcomes of the
 system calls and the packets of the completion port are arguments of the steps.
 */
module IocpSpec {
  import opened Common
  import opened Operations
  import opened HandleRegistry
  import A = IocpAssociations

  datatype Storage = Storage(
    op: Operation, key: A.Key, overlapped: nat, cancellation: Option<CancellationReason>,
    cancelRequested: bool, closeRequested: bool, native: bool)

  /** A node of the submission-order list; `node` stands for its list iterator. */
  datatype Node = Node(node: nat, id: nat)

  datatype Packet = Packet(bytes: nat, key: A.Key, overlapped: nat, status: nat)

  datatype Iocp = Iocp(
    registry: Registry, table: A.Table, operations: map<nat, Storage>, order: seq<Node>, nextNode: nat,
    orderById: map<nat, nat>, byOverlapped: map<nat, nat>, completions: seq<Completion>, active: set<nat>,
    packets: seq<Packet>, portOpen: bool, stopped: bool)

  const EMPTY_IOCP := Iocp(map[], A.EMPTY_TABLE, map[], [], 0, map[], map[], [], {}, [], true, false)

  datatype Config = Config(completionLimit: nat, packetCapacity: nat, associationCapacity: nat)

  const MAX_COMPLETIONS: nat := 256
  const MAX_PACKETS: nat := 1024

  function Normalize(c: Config): Config {
    var limit := Min(if c.completionLimit == 0 then 1 else c.completionLimit, MAX_COMPLETIONS);
    Config(limit, Min(if c.packetCapacity == 0 then limit else c.packetCapacity, MAX_PACKETS),
           Min(if c.associationCapacity == 0 then 1 else c.associationCapacity, A.MAX_ASSOCIATIONS))
  }

  const STATUS_SUCCESS: nat := 0
  const STATUS_ABORTED: nat := 995
  const STATUS_CANCELLED: nat := 0xC000_0120

  predicate IsCancelledStatus(status: nat) {
    status == STATUS_ABORTED || status == STATUS_CANCELLED
  }

  // Releasing storage

  function RemoveNode(order: seq<Node>, node: nat): seq<Node> {
    if order == [] then []
    else if order[0].node == node then order[1..]
    else [order[0]] + RemoveNode(order[1..], node)
  }

  /** After shutdown the port closes with the last operation. */
  function MaybeClosePort(s: Iocp): Iocp {
    if s.stopped && s.operations == map[] then s.(packets := [], table := A.EMPTY_TABLE, portOpen := false) else s
  }

  function Erase(s: Iocp, id: nat): Iocp {
    if id !in s.operations then s
    else
      MaybeClosePort(s.(
        byOverlapped := s.byOverlapped - {s.operations[id].overlapped},
        operations := s.operations - {id},
        order := if id in s.orderById then RemoveNode(s.order, s.orderById[id]) else s.order,
        orderById := s.orderById - {id}))
  }

  function Complete(s: Iocp, c: Completion): Iocp {
    Erase(s.(completions := s.completions + [c]), c.id)
  }

  function Update(s: Iocp, id: nat, st: Storage): Iocp {
    s.(operations := s.operations[id := st])
  }

  // Submission

  function SubmitCheck(s: Iocp, op: Operation): VoidResult {
    if s.stopped then Err(Closed)
    else if op.id == 0 then Err(InvalidState)
    else if !IsValidShape(op) then Err(InvalidState)
    else if !Current(s.registry, op.handle) then Err(InvalidState)
    else if op.id in s.active then Err(InvalidState)
    else if A.KeyFor(s.table, s.registry, op.handle).Err? then Err(InvalidState)
    else Ok(())
  }

  /** A new storage block, entered in all four indexes. */
  function Inserted(s: Iocp, op: Operation, key: A.Key, address: nat): Iocp {
    s.(active := s.active + {op.id},
       byOverlapped := s.byOverlapped[address := op.id],
       operations := s.operations[op.id := Storage(op, key, address, None, false, false, false)],
       order := s.order + [Node(s.nextNode, op.id)],
       orderById := s.orderById[op.id := s.nextNode],
       nextNode := s.nextNode + 1)
  }

  function Submit(s: Iocp, op: Operation, address: nat): Iocp {
    if SubmitCheck(s, op).Err? then s
    else Inserted(s, op, A.KeyFor(s.table, s.registry, op.handle).value, address)
  }

  function MarkNative(s: Iocp, id: nat): Iocp {
    if id !in s.operations then s else Update(s, id, s.operations[id].(native := true))
  }

  // Cancelling and closing

  /** `ok` is the outcome of the system call. */
  function RequestCancel(s: Iocp, id: nat, ok: bool): Iocp
    requires id in s.operations
  {
    var st := s.operations[id];
    if st.cancelRequested || !st.native || !ok then s else Update(s, id, st.(cancelRequested := true))
  }

  function RequestCancelResult(st: Storage, ok: bool): VoidResult {
    if st.cancelRequested || !st.native || ok then Ok(()) else Err(BackendFailure(0))
  }

  function WithReason(st: Storage, reason: CancellationReason): Storage {
    if st.cancellation.None? then st.(cancellation := Some(reason)) else st
  }

  function Cancel(s: Iocp, id: nat, reason: CancellationReason, ok: bool): Iocp {
    if s.stopped || id == 0 || id !in s.operations || s.operations[id].closeRequested then s
    else
      var st := WithReason(s.operations[id], reason);
      var s' := Update(s, id, st);
      if !st.native then Complete(s', Plain(id, Err(Cancelled(st.cancellation.value))))
      else RequestCancel(s', id, ok)
  }

  function CancelResult(s: Iocp, id: nat, ok: bool): VoidResult {
    if s.stopped then Err(Closed)
    else if id == 0 || id !in s.operations then Err(InvalidState)
    else if s.operations[id].closeRequested then Err(Closed)
    else RequestCancelResult(s.operations[id], ok)
  }

  function CloseOne(s: Iocp, id: nat, ok: bool): Iocp {
    if id !in s.operations then s
    else
      var st := s.operations[id].(closeRequested := true);
      var s' := Update(s, id, st);
      if !st.native then Complete(s', ClosedCompletion(id)) else RequestCancel(s', id, ok)
  }

  /** Marks the first `n` listed operations; the system call fails for the ids in `failing`. */
  function CloseFirst(s: Iocp, ids: seq<nat>, n: nat, failing: set<nat>): Iocp
    requires n <= |ids|
  {
    if n == 0 then s else CloseOne(CloseFirst(s, ids, n - 1, failing), ids[n - 1], ids[n - 1] !in failing)
  }

  /** Whether a system call failed on the way. */
  predicate FailedFirst(s: Iocp, ids: seq<nat>, n: nat, failing: set<nat>)
    requires n <= |ids|
  {
    n > 0 &&
    (FailedFirst(s, ids, n - 1, failing)
     || var s' := CloseFirst(s, ids, n - 1, failing);
        ids[n - 1] in s'.operations && RequestCancelResult(s'.operations[ids[n - 1]], ids[n - 1] !in failing).Err?)
  }

  predicate InScope(s: Iocp, id: nat, scope: Option<Token>) {
    id in s.operations && (scope.None? || s.operations[id].op.handle == scope.value)
  }

  /** The ids of the first `n` nodes that are in scope, in submission order. */
  function Scoped(s: Iocp, n: nat, scope: Option<Token>): (ids: seq<nat>)
    requires n <= |s.order|
    ensures forall id :: id in ids ==> InScope(s, id, scope)
    ensures forall k :: 0 <= k < n && InScope(s, s.order[k].id, scope) ==> s.order[k].id in ids
  {
    if n == 0 then []
    else if InScope(s, s.order[n - 1].id, scope) then Scoped(s, n - 1, scope) + [s.order[n - 1].id]
    else Scoped(s, n - 1, scope)
  }

  /** `mark_close_requested` and `mark_shutdown_requested`. */
  function MarkAll(s: Iocp, scope: Option<Token>, failing: set<nat>): Iocp {
    var ids := Scoped(s, |s.order|, scope);
    CloseFirst(s, ids, |ids|, failing)
  }

  function CloseCheck(s: Iocp, token: Token): VoidResult {
    if s.stopped then Err(Closed) else if !Current(s.registry, token) then Err(InvalidState) else Ok(())
  }

  function Detached(s: Iocp, token: Token): Iocp {
    s.(table := A.CloseHandle(s.table, s.registry, token).0, registry := A.CloseHandle(s.table, s.registry, token).1)
  }

  function CloseToken(s: Iocp, token: Token, failing: set<nat>): Iocp {
    if CloseCheck(s, token).Err? then s else Detached(MarkAll(s, Some(token), failing), token)
  }

  function Shutdown(s: Iocp, failing: set<nat>): Iocp {
    if s.stopped then s else MaybeClosePort(MarkAll(s, None, failing).(stopped := true))
  }

  // Packets

  function NativeCompletion(s: Iocp, st: Storage, bytes: nat, status: nat): (c: Completion)
    ensures c.id == st.op.id
  {
    var id := st.op.id;
    if IsCancelledStatus(status) && st.cancellation.Some? then Plain(id, Err(Cancelled(st.cancellation.value)))
    else if st.closeRequested || s.stopped || !Current(s.registry, st.op.handle) then ClosedCompletion(id)
    else if IsCancelledStatus(status) then Plain(id, Err(Cancelled(BackendAbort)))
    else if status != STATUS_SUCCESS then Plain(id, Err(BackendFailure(status)))
    else match st.op.kind
      case Read => Completion(id, Ok(()), bytes, 0)
      case Write => Completion(id, Ok(()), bytes, 0)
      case Accept => Completion(id, Ok(()), 0, bytes)
      case Connect => Plain(id, Ok(()))
      case Fsync => Plain(id, Ok(()))
      case CloseHandle => Plain(id, Err(InvalidState))
      case Wake => Plain(id, Err(InvalidState))
  }

  function Observe(s: Iocp, p: Packet): Iocp {
    if p.overlapped == 0 || p.overlapped !in s.byOverlapped then s
    else
      var id := s.byOverlapped[p.overlapped];
      if id !in s.operations then s.(byOverlapped := s.byOverlapped - {p.overlapped})
      else if s.operations[id].key != p.key then s
      else Complete(s, NativeCompletion(s, s.operations[id], p.bytes, p.status))
  }

  function ObserveQueued(s: Iocp, limit: nat): Iocp
    decreases limit
  {
    if limit == 0 || s.packets == [] then s
    else ObserveQueued(Observe(s.(packets := s.packets[1..]), s.packets[0]), limit - 1)
  }

  function ObserveFirst(s: Iocp, packets: seq<Packet>, n: nat): Iocp
    requires n <= |packets|
  {
    if n == 0 then s else Observe(ObserveFirst(s, packets, n - 1), packets[n - 1])
  }

  function QueuePacket(c: Config, s: Iocp, p: Packet): Iocp {
    if |s.packets| >= c.packetCapacity || A.Pack(p.key).Err? then s else s.(packets := s.packets + [p])
  }

  /** A poll hands out what it has; otherwise it observes queued packets, then those of the port. */
  function Poll(c: Config, s: Iocp, port: seq<Packet>): Iocp {
    if s.completions != [] || !s.portOpen then s
    else
      var s1 := ObserveQueued(s, c.completionLimit);
      if !s1.portOpen then s1 else ObserveFirst(s1, port, |port|)
  }

  ghost function Drain(s: Iocp, room: nat): Iocp {
    var n := Min(room, |s.completions|);
    s.(completions := s.completions[n..], active := s.active - CompletedIds(s.completions[..n]))
  }

  ghost function Register(c: Config, s: Iocp, native: nat, associated: bool): Iocp
    requires A.FreeOk(s.table)
  {
    if s.stopped then s
    else
      var r := A.Register(s.table, s.registry, c.associationCapacity, native, associated);
      s.(table := r.0, registry := r.1)
  }

  // Runs

  datatype Event =
    | RegisterEvent(native: nat, associated: bool)
    | SubmitEvent(op: Operation, address: nat)
    | NativeEvent(id: nat)
    | CancelEvent(id: nat, reason: CancellationReason, ok: bool)
    | CloseEvent(token: Token, failing: set<nat>)
    | PacketEvent(packet: Packet)
    | PollEvent(port: seq<Packet>)
    | DrainEvent(room: nat)
    | ShutdownEvent(failing: set<nat>)

  /** A new block has an address of its own. */
  ghost predicate Possible(s: Iocp, e: Event) {
    match e
    case SubmitEvent(_, address) => address != 0 && address !in s.byOverlapped
    case RegisterEvent(_, _) => A.FreeOk(s.table)
    case _ => true
  }

  ghost function Step(c: Config, s: Iocp, e: Event): Iocp
    requires Possible(s, e)
  {
    match e
    case RegisterEvent(native, associated) => Register(c, s, native, associated)
    case SubmitEvent(op, address) => Submit(s, op, address)
    case NativeEvent(id) => MarkNative(s, id)
    case CancelEvent(id, reason, ok) => Cancel(s, id, reason, ok)
    case CloseEvent(token, failing) => CloseToken(s, token, failing)
    case PacketEvent(packet) => QueuePacket(c, s, packet)
    case PollEvent(port) => Poll(c, s, port)
    case DrainEvent(room) => Drain(s, room)
    case ShutdownEvent(failing) => Shutdown(s, failing)
  }

  ghost predicate PossibleRun(c: Config, s: Iocp, events: seq<Event>)
    decreases |events|
  {
    events == [] || (Possible(s, events[0]) && PossibleRun(c, Step(c, s, events[0]), events[1..]))
  }

  ghost function Run(c: Config, s: Iocp, events: seq<Event>): Iocp
    requires PossibleRun(c, s, events)
    decreases |events|
  {
    if events == [] then s else Run(c, Step(c, s, events[0]), events[1..])
  }

  ghost function Accepts(c: Config, s: Iocp, events: seq<Event>, id: nat): nat
    requires PossibleRun(c, s, events)
    decreases |events|
  {
    if events == [] then 0
    else One(events[0].SubmitEvent? && events[0].op.id == id && SubmitCheck(s, events[0].op).Ok?)
         + Accepts(c, Step(c, s, events[0]), events[1..], id)
  }

  ghost function Drains(c: Config, s: Iocp, events: seq<Event>, id: nat): nat
    requires PossibleRun(c, s, events)
    decreases |events|
  {
    if events == [] then 0
    else (if events[0].DrainEvent? then DoneCount(s.completions[..Min(events[0].room, |s.completions|)], id) else 0)
         + Drains(c, Step(c, s, events[0]), events[1..], id)
  }
}
