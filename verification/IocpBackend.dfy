/**
 The IOCP backend class, method by method in the imperative form of
 src/backends_iocp_backend.cpp, each proved against the transition functions of
 IocpSpec. What the system decides is chosen nondeterministically and returned as a
 ghost result.
 */
module IocpBackends {
  import opened Common
  import opened Operations
  import opened HandleRegistry
  import A = IocpAssociations
  import opened IocpSpec
  import opened IocpInvariant

  class IocpBackend {
    const config: Config
    const registry: NativeHandleRegistry
    const table: A.AssociationTable
    var operations: map<nat, Storage>
    var order: seq<Node>
    var nextNode: nat
    var orderById: map<nat, nat>
    var byOverlapped: map<nat, nat>
    var completions: seq<Completion>
    var active: set<nat>
    var packets: seq<Packet>
    var portOpen: bool
    var stopped: bool

    ghost function State(): Iocp
      reads this, registry, table
    {
      Iocp(registry.entries, table.State(), operations, order, nextNode, orderById, byOverlapped,
           completions, active, packets, portOpen, stopped)
    }

    ghost predicate Valid()
      reads this, registry, table
    {
      Inv(State()) && table.capacity == config.associationCapacity && 0 < table.capacity <= A.MAX_ASSOCIATIONS
    }

    constructor (options: Config)
      ensures Valid() && State() == EMPTY_IOCP && config == Normalize(options) && fresh(registry) && fresh(table)
    {
      config := Normalize(options);
      registry := new NativeHandleRegistry();
      table := new A.AssociationTable(Normalize(options).associationCapacity);
      operations, order, nextNode, orderById, byOverlapped := map[], [], 0, map[], map[];
      completions, active, packets, portOpen, stopped := [], {}, [], true, false;
      new;
      EmptyInv();
    }

    method RegisterHandle(native: nat) returns (r: Result<Token, ErrorCode>, ghost associated: bool)
      requires Valid()
      modifies registry, table
      ensures Valid() && State() == Register(config, old(State()), native, associated)
      ensures stopped ==> r == Err(Closed)
      ensures !stopped ==> r == A.Register(old(table.State()), old(registry.entries), config.associationCapacity,
                                           native, associated).2
    {
      RegisterKeepsInv(config, State(), native, true);
      RegisterKeepsInv(config, State(), native, false);
      associated := true;
      if stopped {
        return Err(Closed), true;
      }
      ghost var t0, r0 := table.State(), registry.entries;
      r := registry.RegisterHandle(native);
      if r.Err? {
        return;
      }
      A.NativeIsFree(t0, r0, native);
      A.CreateLinks(t0, r0, config.associationCapacity, native);
      var token := r.value;
      var key := table.CreateAssociation(token);
      if key.Err? {
        var closed := registry.Close(token);
        return Err(key.error), true;
      }
      var accepted: bool := *;
      associated := accepted;
      if A.Pack(key.value).Err? || !accepted {
        table.RollbackAssociation(key.value);
        var closed := registry.Close(token);
        return Err(BackendFailure(0)), accepted;
      }
    }

    /** `address` is where the new block is allocated. */
    method SubmitOperation(op: Operation, address: nat) returns (r: VoidResult)
      requires Valid() && address != 0 && address !in byOverlapped
      modifies this
      ensures Valid() && State() == Submit(old(State()), op, address) && r == SubmitCheck(old(State()), op)
    {
      SubmitKeepsInv(State(), op, address);
      r := Store(op, address);
    }

    /** The body of `submit`. */
    method Store(op: Operation, address: nat) returns (r: VoidResult)
      modifies this
      ensures State() == Submit(old(State()), op, address) && r == SubmitCheck(old(State()), op)
    {
      if stopped {
        return Err(Closed);
      }
      if op.id == 0 || !IsValidShape(op) || !registry.IsCurrent(op.handle) || op.id in active {
        return Err(InvalidState);
      }
      var key := A.KeyFor(A.Table(table.slots, table.free, table.byNative), registry.entries, op.handle);
      if key.Err? {
        return Err(InvalidState);
      }
      Insert(op, key.value, address);
      return Ok(());
    }

    method Insert(op: Operation, key: A.Key, address: nat)
      modifies this
      ensures State() == Inserted(old(State()), op, key, address)
    {
      active := active + {op.id};
      byOverlapped := byOverlapped[address := op.id];
      operations := operations[op.id := Storage(op, key, address, None, false, false, false)];
      order := order + [Node(nextNode, op.id)];
      orderById := orderById[op.id := nextNode];
      nextNode := nextNode + 1;
    }

    method MaybeClose()
      modifies this`packets, this`portOpen, table
      ensures State() == MaybeClosePort(old(State()))
    {
      if stopped && operations == map[] {
        packets := [];
        table.Clear();
        portOpen := false;
      }
    }

    method EraseStorage(id: nat)
      modifies this, table
      ensures State() == Erase(old(State()), id)
    {
      if id !in operations {
        return;
      }
      byOverlapped := byOverlapped - {operations[id].overlapped};
      operations := operations - {id};
      if id in orderById {
        order := RemoveNode(order, orderById[id]);
        orderById := orderById - {id};
      }
      assert orderById == old(orderById) - {id};
      MaybeClose();
    }

    method CompleteStorage(c: Completion)
      modifies this, table
      ensures State() == Complete(old(State()), c)
    {
      completions := completions + [c];
      EraseStorage(c.id);
    }

    method RequestCancelFor(id: nat, ok: bool) returns (r: VoidResult)
      requires id in operations
      modifies this`operations
      ensures State() == RequestCancel(old(State()), id, ok)
      ensures r == RequestCancelResult(old(operations)[id], ok)
    {
      if operations[id].cancelRequested {
        return Ok(());
      }
      if !operations[id].native {
        return Ok(());
      }
      if !ok {
        return Err(BackendFailure(0));
      }
      operations := operations[id := operations[id].(cancelRequested := true)];
      return Ok(());
    }

    method CancelOperation(id: nat, reason: CancellationReason) returns (r: VoidResult, ghost accepted: bool)
      requires Valid()
      modifies this, table
      ensures Valid() && State() == Cancel(old(State()), id, reason, accepted)
      ensures r == CancelResult(old(State()), id, accepted)
    {
      var ok: bool := *;
      accepted := ok;
      CancelKeepsInv(State(), id, reason, ok);
      r := CancelStorage(id, reason, ok);
    }

    /** The body of `cancel`; `ok` is the outcome of the system call. */
    method CancelStorage(id: nat, reason: CancellationReason, ok: bool) returns (r: VoidResult)
      modifies this, table
      ensures State() == Cancel(old(State()), id, reason, ok)
      ensures r == CancelResult(old(State()), id, ok)
    {
      if stopped {
        return Err(Closed);
      }
      if id == 0 || id !in operations {
        return Err(InvalidState);
      }
      if operations[id].closeRequested {
        return Err(Closed);
      }
      var first := KeepFirstReason(id, reason);
      if !operations[id].native {
        CompleteStorage(Plain(id, Err(Cancelled(first))));
        return Ok(());
      }
      r := RequestCancelFor(id, ok);
    }

    method KeepFirstReason(id: nat, reason: CancellationReason) returns (first: CancellationReason)
      requires id in operations
      modifies this`operations
      ensures State() == Update(old(State()), id, WithReason(old(operations)[id], reason))
      ensures id in operations && operations[id].cancellation == Some(first)
    {
      var storage := operations[id];
      if storage.cancellation.None? {
        storage := storage.(cancellation := Some(reason));
      }
      operations := operations[id := storage];
      return storage.cancellation.value;
    }

    /** The first loop of `mark_close_requested` and `mark_shutdown_requested`. */
    method CollectIds(scope: Option<Token>) returns (ids: seq<nat>)
      ensures ids == Scoped(State(), |order|, scope)
    {
      ids := [];
      for i := 0 to |order|
        invariant ids == Scoped(State(), i, scope)
      {
        var id := order[i].id;
        if id in operations && (scope.None? || operations[id].op.handle == scope.value) {
          ids := ids + [id];
        }
      }
    }

    /** The body of their second loop. */
    method CloseStorage(id: nat, ok: bool) returns (r: VoidResult)
      modifies this, table
      ensures State() == CloseOne(old(State()), id, ok)
      ensures r == if id in old(operations) then RequestCancelResult(old(operations)[id], ok) else Ok(())
    {
      if id !in operations {
        return Ok(());
      }
      operations := operations[id := operations[id].(closeRequested := true)];
      if !operations[id].native {
        CompleteStorage(ClosedCompletion(id));
        return Ok(());
      }
      r := RequestCancelFor(id, ok);
    }

    method MarkRequested(scope: Option<Token>) returns (r: VoidResult, failing: set<nat>)
      modifies this, table
      ensures State() == MarkAll(old(State()), scope, failing)
      ensures var ids := Scoped(old(State()), |old(order)|, scope);
              r == if FailedFirst(old(State()), ids, |ids|, failing) then Err(BackendFailure(0)) else Ok(())
    {
      failing := *;
      var ids := CollectIds(scope);
      r := Ok(());
      for i := 0 to |ids|
        invariant State() == CloseFirst(old(State()), ids, i, failing)
        invariant r == if FailedFirst(old(State()), ids, i, failing) then Err(BackendFailure(0)) else Ok(())
      {
        var cancelled := CloseStorage(ids[i], ids[i] !in failing);
        if cancelled.Err? && r.Ok? {
          r := cancelled;
        }
      }
    }

    method CloseHandle(token: Token) returns (r: VoidResult, ghost failing: set<nat>)
      requires Valid()
      modifies this, table, registry
      ensures Valid() && State() == CloseToken(old(State()), token, failing)
      ensures CloseCheck(old(State()), token).Err? ==> r == CloseCheck(old(State()), token)
      ensures CloseCheck(old(State()), token).Ok? ==>
                var ids := Scoped(old(State()), |old(order)|, Some(token));
                r == if FailedFirst(old(State()), ids, |ids|, failing) then Err(BackendFailure(0)) else Ok(())
    {
      failing := {};
      if stopped {
        return Err(Closed), {};
      }
      if !registry.IsCurrent(token) {
        return Err(InvalidState), {};
      }
      ghost var before := State();
      var marked, failed := MarkRequested(Some(token));
      MarkAllKeepsInv(before, Some(token), failed);
      CloseTokenKeepsInv(before, token, failed);
      var closed := registry.Close(token);
      table.Close(token);
      return marked, failed;
    }

    method Shut() returns (r: VoidResult, ghost failing: set<nat>)
      requires Valid()
      modifies this, table
      ensures Valid() && State() == Shutdown(old(State()), failing)
      ensures var ids := Scoped(old(State()), |old(order)|, None);
              r.Err? <==> !old(stopped) && FailedFirst(old(State()), ids, |ids|, failing)
    {
      failing := {};
      if stopped {
        return Ok(()), {};
      }
      ghost var before := State();
      var marked, failed := MarkRequested(None);
      ShutdownKeepsInv(before, failed);
      stopped := true;
      MaybeClose();
      return marked, failed;
    }

    method ObservePacket(p: Packet)
      modifies this, table
      ensures State() == Observe(old(State()), p)
    {
      if p.overlapped == 0 || p.overlapped !in byOverlapped {
        return;
      }
      var id := byOverlapped[p.overlapped];
      if id !in operations {
        byOverlapped := byOverlapped - {p.overlapped};
        return;
      }
      var storage := operations[id];
      if storage.key.association != p.key.association || storage.key.generation != p.key.generation {
        return;
      }
      CompleteStorage(NativeResult(storage, p.bytes, p.status));
    }

    /** The completion that `complete_native_operation` builds. */
    function NativeResult(storage: Storage, bytes: nat, status: nat): (c: Completion)
      reads this, registry, table
      ensures c == NativeCompletion(State(), storage, bytes, status)
    {
      NativeCompletion(Iocp(registry.entries, A.Table(table.slots, table.free, table.byNative), operations, order,
                            nextNode, orderById, byOverlapped, completions, active, packets, portOpen, stopped),
                       storage, bytes, status)
    }

    method ObserveQueuedPackets() returns (observed: nat)
      modifies this, table
      ensures State() == ObserveQueued(old(State()), config.completionLimit)
      ensures observed <= config.completionLimit
    {
      observed := 0;
      while observed < config.completionLimit && packets != []
        invariant observed <= config.completionLimit
        invariant ObserveQueued(State(), config.completionLimit - observed)
               == ObserveQueued(old(State()), config.completionLimit)
        decreases config.completionLimit - observed
      {
        var packet := packets[0];
        packets := packets[1..];
        ObservePacket(packet);
        observed := observed + 1;
      }
    }

    /** `port` is what the completion port holds, decoded; a poll takes no more of it than the batch limit allows. */
    method PollPort(port: seq<Packet>) returns (r: Result<nat, ErrorCode>, ghost taken: seq<Packet>)
      requires Valid()
      modifies this, table
      ensures Valid() && State() == Poll(config, old(State()), taken)
      ensures taken <= port && |taken| <= config.completionLimit
      ensures old(completions) != [] ==> r == Ok(|old(completions)|)
      ensures old(completions) == [] && !old(portOpen) ==> r == Err(Closed)
      ensures r.Ok? && old(completions) == [] ==> r.value <= config.completionLimit
    {
      ghost var before := State();
      taken := [];
      PollKeepsInv(config, before, []);
      if completions != [] {
        return Ok(|completions|), [];
      }
      if !portOpen {
        return Err(Closed), [];
      }
      var queued := ObserveQueuedPackets();
      if queued >= config.completionLimit || !portOpen {
        return Ok(queued), [];
      }
      var failed: bool := *;
      if failed {
        return Err(BackendFailure(0)), [];
      }
      var n := Min(config.completionLimit - queued, |port|);
      taken := port[..n];
      PollKeepsInv(config, before, taken);
      ObserveEach(port, n);
      return Ok(queued + n), taken;
    }

    /** The loop over the entries that the completion port returned. */
    method ObserveEach(port: seq<Packet>, n: nat)
      requires n <= |port|
      modifies this, table
      ensures State() == ObserveFirst(old(State()), port[..n], n)
    {
      ghost var taken := port[..n];
      for i := 0 to n
        invariant State() == ObserveFirst(old(State()), taken, i)
      {
        assert taken[i] == port[i];
        ObservePacket(port[i]);
      }
    }

    method DrainCompletions(room: nat) returns (r: Result<seq<Completion>, ErrorCode>)
      requires Valid()
      modifies this`completions, this`active
      ensures Valid() && State() == Drain(old(State()), room)
      ensures r == if room == 0 then Err(InvalidState) else Ok(old(completions)[..Min(room, |old(completions)|)])
    {
      DrainKeepsInv(State(), room);
      if room == 0 {
        assert active - CompletedIds(completions[..0]) == active;
        return Err(InvalidState);
      }
      var count := Min(room, |completions|);
      ghost var all := completions;
      var out := [];
      for i := 0 to count
        invariant out == all[..i] && completions == all[i..]
        invariant active == old(active) - CompletedIds(all[..i])
      {
        assert all[..i + 1] == all[..i] + [all[i]];
        active := active - {completions[0].id};
        out := out + [completions[0]];
        completions := completions[1..];
      }
      return Ok(out);
    }
  }
}
