/** What every step of the IOCP backend keeps, and what follows for whole runs. */
module IocpInvariant {
  import opened Common
  import opened Operations
  import opened HandleRegistry
  import A = IocpAssociations
  import opened IocpSpec

  // The four indexes over operation storage

  ghost predicate Increasing(order: seq<Node>) {
    forall j, k :: 0 <= j < k < |order| ==> order[j].node < order[k].node
  }

  predicate NodeOk(s: Iocp, x: Node) {
    x.id in s.operations && x.id in s.orderById && s.orderById[x.id] == x.node && x.node < s.nextNode
  }

  /** The order list and its index describe the stored operations, each once. */
  ghost predicate OrderOk(s: Iocp) {
    && Increasing(s.order)
    && (forall x :: x in s.order ==> NodeOk(s, x))
    && s.orderById.Keys == s.operations.Keys
    && forall id :: id in s.operations ==> Node(s.orderById[id], id) in s.order
  }

  predicate BlockOk(s: Iocp, id: nat) {
    id in s.operations ==>
      var st := s.operations[id];
      st.op.id == id && st.overlapped != 0 && st.overlapped in s.byOverlapped && s.byOverlapped[st.overlapped] == id
  }

  predicate AddressOk(s: Iocp, address: nat) {
    address in s.byOverlapped ==>
      s.byOverlapped[address] in s.operations && s.operations[s.byOverlapped[address]].overlapped == address
  }

  /** Overlapped addresses and stored operations are in one-to-one correspondence. */
  ghost predicate OverlappedOk(s: Iocp) {
    (forall id: nat :: BlockOk(s, id)) && forall address: nat :: AddressOk(s, address)
  }

  // Ownership of ids, and what an operation knows of its handle

  ghost function Places(s: Iocp, id: nat): nat {
    One(id in s.operations) + DoneCount(s.completions, id)
  }

  /** The active ids are the stored operations and the queued completions, disjointly. */
  ghost predicate Partition(s: Iocp) {
    forall id: nat :: One(id in s.active) == Places(s, id)
  }

  /**
   An open handle's operations carry the key that its association has now; those of a
   closed one carry the close mark and a key that no association will have again.
   Only natively submitted operations outlive a close or shutdown.
   */
  predicate StorageOk(s: Iocp, st: Storage) {
    && (st.closeRequested || st.cancelRequested ==> st.native)
    && (st.cancelRequested ==> st.closeRequested || st.cancellation.Some?)
    && (s.stopped ==> st.closeRequested)
    && (!s.stopped ==>
          if Current(s.registry, st.op.handle) then A.KeyFor(s.table, s.registry, st.op.handle) == Ok(st.key)
          else Retired(s.registry, st.op.handle) && st.closeRequested && A.Spent(s.table, st.key))
  }

  ghost predicate StoragesOk(s: Iocp) {
    forall id :: id in s.operations ==> StorageOk(s, s.operations[id])
  }

  /** The port stays open as long as the backend runs or the system may still write to a block. */
  ghost predicate PortOk(s: Iocp) {
    && A.TableOk(s.table)
    && (if s.stopped then s.portOpen <==> s.operations != map[] else s.portOpen && A.Inv(s.table, s.registry))
  }

  ghost predicate Inv(s: Iocp) {
    OrderOk(s) && OverlappedOk(s) && Partition(s) && StoragesOk(s) && PortOk(s)
  }

  lemma EmptyInv()
    ensures Inv(EMPTY_IOCP)
  {
    assert EMPTY_IOCP.operations.Keys == {};
  }

  // Releasing storage

  lemma {:induction false} RemoveNodeExactly(order: seq<Node>, node: nat)
    requires Increasing(order)
    ensures var r := RemoveNode(order, node);
            Increasing(r) && forall x :: x in r <==> x in order && x.node != node
  {
    if order != [] {
      var rest := order[1..];
      assert order == [order[0]] + rest;
      if order[0].node == node {
        assert forall x :: x in rest ==> x.node > node;
      } else {
        RemoveNodeExactly(rest, node);
        var r := RemoveNode(rest, node);
        assert forall k :: 0 <= k < |r| ==> r[k] in rest;
      }
    }
  }

  lemma EraseKeepsOrder(s: Iocp, id: nat)
    requires OrderOk(s) && id in s.operations
    ensures OrderOk(Erase(s, id))
  {
    RemoveNodeExactly(s.order, s.orderById[id]);
    var s' := Erase(s, id);
    assert s'.orderById.Keys == s'.operations.Keys;
    forall x | x in s'.order
      ensures NodeOk(s', x)
    {
      assert NodeOk(s, x);
    }
    forall i | i in s'.operations
      ensures Node(s'.orderById[i], i) in s'.order
    {
      assert Node(s.orderById[i], i) in s.order && NodeOk(s, Node(s.orderById[id], id));
      SameNode(s, i, id);
    }
  }

  /** Different operations have different list nodes. */
  lemma SameNode(s: Iocp, i: nat, j: nat)
    requires OrderOk(s) && i in s.operations && j in s.operations && i != j
    ensures s.orderById[i] != s.orderById[j]
  {
    assert Node(s.orderById[i], i) in s.order && Node(s.orderById[j], j) in s.order;
  }

  lemma EraseKeepsOverlapped(s: Iocp, id: nat)
    requires OverlappedOk(s) && id in s.operations
    ensures OverlappedOk(Erase(s, id))
  {
    var s' := Erase(s, id);
    assert BlockOk(s, id);
    forall i: nat
      ensures BlockOk(s', i)
    {
      assert BlockOk(s, i);
    }
    forall address: nat
      ensures AddressOk(s', address)
    {
      assert AddressOk(s, address);
    }
  }

  /** Completing a stored operation moves its id from storage to the completion queue. */
  lemma CompleteKeepsInv(s: Iocp, c: Completion)
    requires c.id in s.operations
    ensures Inv(s) ==> Inv(Complete(s, c))
  {
    if Inv(s) {
      CompleteKeepsIndexes(s, c);
      CompleteKeepsPartition(s, c);
      CompleteKeepsStorages(s, c);
    }
  }

  lemma CompleteKeepsIndexes(s: Iocp, c: Completion)
    requires OrderOk(s) && OverlappedOk(s) && c.id in s.operations
    ensures OrderOk(Complete(s, c)) && OverlappedOk(Complete(s, c))
  {
    var s1 := s.(completions := s.completions + [c]);
    assert forall x :: NodeOk(s, x) ==> NodeOk(s1, x);
    OverlappedUntouched(s, s1);
    EraseKeepsOrder(s1, c.id);
    EraseKeepsOverlapped(s1, c.id);
  }

  lemma CompleteKeepsStorages(s: Iocp, c: Completion)
    requires StoragesOk(s) && PortOk(s) && c.id in s.operations
    ensures StoragesOk(Complete(s, c)) && PortOk(Complete(s, c))
  {
    var s' := Complete(s, c);
    forall id | id in s'.operations
      ensures StorageOk(s', s'.operations[id])
    {
      assert StorageOk(s, s.operations[id]);
    }
  }

  lemma OverlappedUntouched(s: Iocp, s': Iocp)
    requires OverlappedOk(s) && s'.operations == s.operations && s'.byOverlapped == s.byOverlapped
    ensures OverlappedOk(s')
  {
    assert forall id: nat :: BlockOk(s, id) ==> BlockOk(s', id);
    assert forall a: nat :: AddressOk(s, a) ==> AddressOk(s', a);
  }

  lemma CompleteKeepsPartition(s: Iocp, c: Completion)
    requires Partition(s) && c.id in s.operations
    ensures Partition(Complete(s, c))
  {
    DoneCountAppend(s.completions, c);
    var s' := Complete(s, c);
    forall id: nat
      ensures One(id in s'.active) == Places(s', id)
    {
      assert One(id in s.active) == Places(s, id);
    }
  }

  /** A stored operation may change its marks and its cancellation. */
  lemma UpdateKeepsInv(s: Iocp, id: nat, st: Storage)
    requires Inv(s) && id in s.operations && StorageOk(s, st)
    requires st.op == s.operations[id].op && st.key == s.operations[id].key && st.overlapped == s.operations[id].overlapped
    ensures Inv(Update(s, id, st))
  {
    var s' := Update(s, id, st);
    UpdateKeepsIndexes(s, id, st);
    assert s'.operations.Keys == s.operations.Keys;
    assert forall i :: Places(s', i) == Places(s, i);
    forall i | i in s'.operations
      ensures StorageOk(s', s'.operations[i])
    {
      assert i != id ==> StorageOk(s, s.operations[i]);
    }
  }

  lemma UpdateKeepsIndexes(s: Iocp, id: nat, st: Storage)
    requires OrderOk(s) && OverlappedOk(s) && id in s.operations
    requires st.op == s.operations[id].op && st.overlapped == s.operations[id].overlapped
    ensures OrderOk(Update(s, id, st)) && OverlappedOk(Update(s, id, st))
  {
    var s' := Update(s, id, st);
    assert s'.operations.Keys == s.operations.Keys;
    forall x | x in s'.order
      ensures NodeOk(s', x)
    {
      assert NodeOk(s, x);
    }
    forall i: nat
      ensures BlockOk(s', i)
    {
      assert BlockOk(s, i);
    }
    forall address: nat
      ensures AddressOk(s', address)
    {
      assert AddressOk(s, address);
    }
  }

  // Steps on single operations

  lemma SubmitKeepsOrder(s: Iocp, op: Operation, address: nat)
    requires OrderOk(s) && SubmitCheck(s, op).Ok? && op.id !in s.operations
    ensures OrderOk(Submit(s, op, address))
  {
    var s' := Submit(s, op, address);
    forall x | x in s'.order
      ensures NodeOk(s', x)
    {
      if x in s.order {
        assert NodeOk(s, x);
      }
    }
    forall j, k | 0 <= j < k < |s'.order|
      ensures s'.order[j].node < s'.order[k].node
    {
      assert s.order[j] in s.order && NodeOk(s, s.order[j]);
    }
    assert s'.orderById.Keys == s'.operations.Keys;
    forall id | id in s'.operations
      ensures Node(s'.orderById[id], id) in s'.order
    {
      if id == op.id {
        assert s'.order[|s.order|] == Node(s.nextNode, id);
      } else {
        assert Node(s.orderById[id], id) in s.order;
      }
    }
  }

  lemma SubmitKeepsOverlapped(s: Iocp, op: Operation, address: nat)
    requires OverlappedOk(s) && SubmitCheck(s, op).Ok? && op.id !in s.operations
    requires address != 0 && address !in s.byOverlapped
    ensures OverlappedOk(Submit(s, op, address))
  {
    var s' := Submit(s, op, address);
    forall id: nat
      ensures BlockOk(s', id)
    {
      assert BlockOk(s, id);
    }
    forall a: nat
      ensures AddressOk(s', a)
    {
      assert AddressOk(s, a);
    }
  }

  lemma SubmitKeepsInv(s: Iocp, op: Operation, address: nat)
    requires Inv(s) && address != 0 && address !in s.byOverlapped
    ensures Inv(Submit(s, op, address))
  {
    if SubmitCheck(s, op).Ok? {
      var s' := Submit(s, op, address);
      assert One(op.id in s.active) == Places(s, op.id);
      SubmitKeepsOrder(s, op, address);
      SubmitKeepsOverlapped(s, op, address);
      assert forall id :: Places(s', id) == Places(s, id) + One(id == op.id);
      forall id | id in s'.operations
        ensures StorageOk(s', s'.operations[id])
      {
        assert id != op.id ==> StorageOk(s, s.operations[id]);
      }
    }
  }

  lemma MarkNativeKeepsInv(s: Iocp, id: nat)
    requires Inv(s)
    ensures Inv(MarkNative(s, id))
  {
    if id in s.operations {
      assert StorageOk(s, s.operations[id]);
      UpdateKeepsInv(s, id, s.operations[id].(native := true));
    }
  }

  lemma RequestCancelKeepsInv(s: Iocp, id: nat, ok: bool)
    requires id in s.operations && (s.operations[id].closeRequested || s.operations[id].cancellation.Some?)
    ensures Inv(s) ==> Inv(RequestCancel(s, id, ok))
  {
    var st := s.operations[id];
    if Inv(s) && !(st.cancelRequested || !st.native || !ok) {
      assert StorageOk(s, st);
      UpdateKeepsInv(s, id, st.(cancelRequested := true));
    }
  }

  lemma ReasonKeepsInv(s: Iocp, id: nat, reason: CancellationReason)
    requires Inv(s) && id in s.operations
    ensures Inv(Update(s, id, WithReason(s.operations[id], reason)))
  {
    assert StorageOk(s, s.operations[id]);
    UpdateKeepsInv(s, id, WithReason(s.operations[id], reason));
  }

  lemma CancelKeepsInv(s: Iocp, id: nat, reason: CancellationReason, ok: bool)
    requires Inv(s)
    ensures Inv(Cancel(s, id, reason, ok))
  {
    if !(s.stopped || id == 0 || id !in s.operations || s.operations[id].closeRequested) {
      ReasonKeepsInv(s, id, reason);
      var st := WithReason(s.operations[id], reason);
      var s' := Update(s, id, st);
      if st.native {
        RequestCancelKeepsInv(s', id, ok);
        assert Cancel(s, id, reason, ok) == RequestCancel(s', id, ok);
      } else {
        var c := Plain(id, Err(Cancelled(st.cancellation.value)));
        CompleteKeepsInv(s', c);
        assert Cancel(s, id, reason, ok) == Complete(s', c);
      }
    }
  }

  lemma ObserveKeepsInv(s: Iocp, p: Packet)
    requires Inv(s)
    ensures Inv(Observe(s, p))
  {
    assert AddressOk(s, p.overlapped);
    if p.overlapped != 0 && p.overlapped in s.byOverlapped {
      var id := s.byOverlapped[p.overlapped];
      assert BlockOk(s, id);
      if s.operations[id].key == p.key {
        CompleteKeepsInv(s, NativeCompletion(s, s.operations[id], p.bytes, p.status));
      }
    }
  }

  // Closing

  /** A stored operation keeps its identity, and its close mark. */
  predicate Carried(st: Storage, st': Storage) {
    && st'.op == st.op && st'.native == st.native && st'.key == st.key && st'.overlapped == st.overlapped
    && (st.closeRequested ==> st'.closeRequested)
  }

  /** What closing may change: it only removes operations that are not native, and marks the rest. */
  ghost predicate Marks(s: Iocp, s': Iocp) {
    && s'.registry == s.registry && s'.table == s.table && s'.stopped == s.stopped && s'.active == s.active
    && s'.portOpen == s.portOpen && s'.packets == s.packets
    && (forall id :: id in s'.operations ==> id in s.operations && Carried(s.operations[id], s'.operations[id]))
    && forall id :: id in s.operations && s.operations[id].native ==> id in s'.operations
  }

  lemma CloseOneMarks(s: Iocp, id: nat, ok: bool)
    requires !s.stopped && id in s.operations
    ensures Marks(s, CloseOne(s, id, ok))
    ensures id in CloseOne(s, id, ok).operations ==> CloseOne(s, id, ok).operations[id].closeRequested
  {
    var st := s.operations[id].(closeRequested := true);
    var s1 := Update(s, id, st);
    if st.native {
      assert CloseOne(s, id, ok) == RequestCancel(s1, id, ok);
    } else {
      CompleteForgets(s, id, st);
      assert CloseOne(s, id, ok) == Complete(s, ClosedCompletion(id));
      assert Complete(s, ClosedCompletion(id)).operations == s.operations - {id};
    }
  }

  lemma CloseOneKeepsInv(s: Iocp, id: nat, ok: bool)
    requires Inv(s) && !s.stopped && id in s.operations
    ensures Inv(CloseOne(s, id, ok))
  {
    var was := s.operations[id];
    assert StorageOk(s, was);
    if was.native {
      MarkKeepsInv(s, id, ok);
    } else {
      CompleteKeepsInv(s, ClosedCompletion(id));
      CompleteForgets(s, id, was.(closeRequested := true));
    }
  }

  lemma MarkKeepsInv(s: Iocp, id: nat, ok: bool)
    requires Inv(s) && id in s.operations && s.operations[id].native
    ensures Inv(RequestCancel(Update(s, id, s.operations[id].(closeRequested := true)), id, ok))
  {
    var st := s.operations[id].(closeRequested := true);
    assert StorageOk(s, s.operations[id]);
    UpdateKeepsInv(s, id, st);
    RequestCancelKeepsInv(Update(s, id, st), id, ok);
  }

  /** A mark on an operation that completes at once leaves no trace. */
  lemma CompleteForgets(s: Iocp, id: nat, st: Storage)
    requires id in s.operations && st.overlapped == s.operations[id].overlapped
    ensures Complete(Update(s, id, st), ClosedCompletion(id)) == Complete(s, ClosedCompletion(id))
  {
    assert s.operations[id := st] - {id} == s.operations - {id};
  }

  lemma {:induction false} CloseFirstKeepsInv(s: Iocp, ids: seq<nat>, n: nat, failing: set<nat>)
    requires Inv(s) && !s.stopped && n <= |ids|
    ensures Inv(CloseFirst(s, ids, n, failing)) && !CloseFirst(s, ids, n, failing).stopped
  {
    if n > 0 {
      CloseFirstKeepsInv(s, ids, n - 1, failing);
      var s1 := CloseFirst(s, ids, n - 1, failing);
      if ids[n - 1] in s1.operations {
        CloseOneKeepsInv(s1, ids[n - 1], ids[n - 1] !in failing);
        CloseOneMarks(s1, ids[n - 1], ids[n - 1] !in failing);
      }
    }
  }

  lemma {:induction false} CloseFirstMarks(s: Iocp, ids: seq<nat>, n: nat, failing: set<nat>)
    requires !s.stopped && n <= |ids|
    ensures Marks(s, CloseFirst(s, ids, n, failing))
    ensures var s' := CloseFirst(s, ids, n, failing);
            forall k :: 0 <= k < n && ids[k] in s'.operations ==> s'.operations[ids[k]].closeRequested
  {
    if n > 0 {
      CloseFirstMarks(s, ids, n - 1, failing);
      var s1 := CloseFirst(s, ids, n - 1, failing);
      if ids[n - 1] in s1.operations {
        CloseOneMarks(s1, ids[n - 1], ids[n - 1] !in failing);
        MarksTransitive(s, s1, CloseFirst(s, ids, n, failing));
      }
    }
  }

  lemma MarksTransitive(a: Iocp, b: Iocp, c: Iocp)
    requires Marks(a, b) && Marks(b, c)
    ensures Marks(a, c)
  {
  }

  /** After marking, everything left in scope carries the close mark, and is native. */
  lemma MarkAllKeepsInv(s: Iocp, scope: Option<Token>, failing: set<nat>)
    requires Inv(s) && !s.stopped
    ensures Inv(MarkAll(s, scope, failing)) && Marks(s, MarkAll(s, scope, failing))
    ensures var s' := MarkAll(s, scope, failing);
            forall id :: InScope(s', id, scope) ==> s'.operations[id].closeRequested
  {
    var ids := Scoped(s, |s.order|, scope);
    CloseFirstKeepsInv(s, ids, |ids|, failing);
    CloseFirstMarks(s, ids, |ids|, failing);
    var s' := MarkAll(s, scope, failing);
    forall id | InScope(s', id, scope)
      ensures s'.operations[id].closeRequested
    {
      assert Node(s.orderById[id], id) in s.order;
      assert InScope(s, id, scope);
      assert id in ids;
    }
  }

  lemma DetachKeepsStorage(s: Iocp, token: Token, st: Storage)
    requires !s.stopped && A.Inv(s.table, s.registry) && StorageOk(s, st) && Current(s.registry, token)
    requires st.op.handle == token ==> st.closeRequested
    ensures StorageOk(Detached(s, token), st)
  {
    A.CloseSpends(s.table, s.registry, token);
    if st.op.handle == token {
      CloseRetires(s.registry, token);
    } else {
      CloseRetires(s.registry, token);
      if Current(s.registry, st.op.handle) {
        A.CloseKeepsOtherKeys(s.table, s.registry, token, st.op.handle);
      } else {
        StepsAreLater(s.registry, 0, token);
        RetiredForever(s.registry, Detached(s, token).registry, st.op.handle);
        A.CloseKeepsSpent(s.table, s.registry, token, st.key);
      }
    }
  }

  lemma CloseTokenKeepsInv(s: Iocp, token: Token, failing: set<nat>)
    requires Inv(s)
    ensures Inv(CloseToken(s, token, failing))
  {
    if CloseCheck(s, token).Ok? {
      MarkAllKeepsInv(s, Some(token), failing);
      var s1 := MarkAll(s, Some(token), failing);
      var s' := Detached(s1, token);
      A.CloseHandleKeepsInv(s1.table, s1.registry, token);
      SameIndexes(s1, s');
      forall id | id in s'.operations
        ensures StorageOk(s', s'.operations[id])
      {
        assert s1.operations[id].op.handle == token ==> InScope(s1, id, Some(token));
        DetachKeepsStorage(s1, token, s1.operations[id]);
      }
    }
  }

  /** The indexes and the partition do not depend on the tables, packets and flags. */
  lemma SameIndexes(s: Iocp, s': Iocp)
    requires OrderOk(s) && OverlappedOk(s) && Partition(s)
    requires s' == s.(table := s'.table, registry := s'.registry, packets := s'.packets,
                      portOpen := s'.portOpen, stopped := s'.stopped)
    ensures OrderOk(s') && OverlappedOk(s') && Partition(s')
  {
    OverlappedUntouched(s, s');
    assert forall x :: NodeOk(s, x) ==> NodeOk(s', x);
    assert forall id :: Places(s', id) == Places(s, id);
  }

  lemma ShutdownKeepsInv(s: Iocp, failing: set<nat>)
    requires Inv(s)
    ensures Inv(Shutdown(s, failing))
  {
    if !s.stopped {
      MarkAllKeepsInv(s, None, failing);
      var s1 := MarkAll(s, None, failing);
      var s' := Shutdown(s, failing);
      SameIndexes(s1, s');
      forall id | id in s'.operations
        ensures StorageOk(s', s'.operations[id])
      {
        assert InScope(s1, id, None);
        assert StorageOk(s1, s1.operations[id]);
      }
    }
  }

  lemma RegisterKeepsStorage(c: Config, s: Iocp, native: nat, associated: bool, st: Storage)
    requires !s.stopped && A.Inv(s.table, s.registry) && StorageOk(s, st) && c.associationCapacity <= A.MAX_ASSOCIATIONS
    ensures StorageOk(Register(c, s, native, associated), st)
  {
    var s' := Register(c, s, native, associated);
    if Current(s.registry, st.op.handle) {
      A.RegisterKeepsKeys(s.table, s.registry, c.associationCapacity, native, associated, st.op.handle);
    } else {
      A.RegistryLater(s.table, s.registry, c.associationCapacity, native, associated);
      RetiredForever(s.registry, s'.registry, st.op.handle);
      A.RegisterKeepsSpent(s.table, s.registry, c.associationCapacity, native, associated, st.key);
    }
  }

  lemma RegisterKeepsInv(c: Config, s: Iocp, native: nat, associated: bool)
    requires Inv(s) && c.associationCapacity <= A.MAX_ASSOCIATIONS
    ensures Inv(Register(c, s, native, associated))
  {
    if !s.stopped {
      var s' := Register(c, s, native, associated);
      A.RegisterKeepsInv(s.table, s.registry, c.associationCapacity, native, associated);
      SameIndexes(s, s');
      forall id | id in s'.operations
        ensures StorageOk(s', s'.operations[id])
      {
        RegisterKeepsStorage(c, s, native, associated, s.operations[id]);
      }
    }
  }

  // Polling and draining

  lemma PacketsKeepInv(s: Iocp, packets: seq<Packet>)
    requires Inv(s)
    ensures Inv(s.(packets := packets))
  {
    var s' := s.(packets := packets);
    SameIndexes(s, s');
    assert forall id :: id in s.operations ==> StorageOk(s, s.operations[id]) && StorageOk(s', s.operations[id]);
  }

  lemma {:induction false} ObserveQueuedKeepsInv(s: Iocp, limit: nat)
    requires Inv(s)
    ensures Inv(ObserveQueued(s, limit))
    decreases limit
  {
    if limit > 0 && s.packets != [] {
      PacketsKeepInv(s, s.packets[1..]);
      ObserveKeepsInv(s.(packets := s.packets[1..]), s.packets[0]);
      ObserveQueuedKeepsInv(Observe(s.(packets := s.packets[1..]), s.packets[0]), limit - 1);
    }
  }

  lemma {:induction false} ObserveFirstKeepsInv(s: Iocp, packets: seq<Packet>, n: nat)
    requires Inv(s) && n <= |packets|
    ensures Inv(ObserveFirst(s, packets, n))
  {
    if n > 0 {
      ObserveFirstKeepsInv(s, packets, n - 1);
      ObserveKeepsInv(ObserveFirst(s, packets, n - 1), packets[n - 1]);
    }
  }

  lemma PollKeepsInv(c: Config, s: Iocp, port: seq<Packet>)
    requires Inv(s)
    ensures Inv(Poll(c, s, port))
  {
    if s.completions == [] && s.portOpen {
      ObserveQueuedKeepsInv(s, c.completionLimit);
      ObserveFirstKeepsInv(ObserveQueued(s, c.completionLimit), port, |port|);
    }
  }

  lemma DrainCounts(s: Iocp, room: nat)
    requires Partition(s)
    ensures Partition(Drain(s, room))
    ensures forall id: nat :: One(id in s.active) ==
              One(id in Drain(s, room).active) + DoneCount(s.completions[..Min(room, |s.completions|)], id)
  {
    var n := Min(room, |s.completions|);
    var out, rest := s.completions[..n], s.completions[n..];
    assert s.completions == out + rest;
    DoneCountConcat(out, rest);
    forall id: nat
      ensures DoneCount(out, id) <= One(id in s.active)
    {
      assert One(id in s.active) == Places(s, id);
    }
    EraseIds(s.active, out);
    forall id: nat
      ensures One(id in Drain(s, room).active) == Places(Drain(s, room), id)
    {
      assert One(id in s.active) == Places(s, id);
    }
  }

  lemma DrainKeepsInv(s: Iocp, room: nat)
    requires Inv(s)
    ensures Inv(Drain(s, room))
  {
    var s' := Drain(s, room);
    DrainCounts(s, room);
    OverlappedUntouched(s, s');
    assert forall x :: NodeOk(s, x) ==> NodeOk(s', x);
    assert forall id :: id in s.operations ==> StorageOk(s, s.operations[id]) && StorageOk(s', s.operations[id]);
  }

  lemma StepKeepsInv(c: Config, s: Iocp, e: Event)
    requires Inv(s) && Possible(s, e) && c.associationCapacity <= A.MAX_ASSOCIATIONS
    ensures Inv(Step(c, s, e))
  {
    match e
    case RegisterEvent(native, associated) => RegisterKeepsInv(c, s, native, associated);
    case SubmitEvent(op, address) => SubmitKeepsInv(s, op, address);
    case NativeEvent(id) => MarkNativeKeepsInv(s, id);
    case CancelEvent(id, reason, ok) => CancelKeepsInv(s, id, reason, ok);
    case CloseEvent(token, failing) => CloseTokenKeepsInv(s, token, failing);
    case PacketEvent(packet) => PacketsKeepInv(s, QueuePacket(c, s, packet).packets);
    case PollEvent(port) => PollKeepsInv(c, s, port);
    case DrainEvent(room) => DrainKeepsInv(s, room);
    case ShutdownEvent(failing) => ShutdownKeepsInv(s, failing);
  }

  lemma {:induction false} RunKeepsInv(c: Config, s: Iocp, events: seq<Event>)
    requires Inv(s) && PossibleRun(c, s, events) && c.associationCapacity <= A.MAX_ASSOCIATIONS
    ensures Inv(Run(c, s, events))
    decreases |events|
  {
    if events != [] {
      StepKeepsInv(c, s, events[0]);
      RunKeepsInv(c, Step(c, s, events[0]), events[1..]);
    }
  }
}
