/** Theorems about every run of the IOCP backend. */
module IocpRuns {
  import opened Common
  import opened Operations
  import opened HandleRegistry
  import A = IocpAssociations
  import opened IocpSpec
  import opened IocpInvariant

  // Packets

  predicate Matches(s: Iocp, id: nat, p: Packet) {
    id in s.operations && s.operations[id].overlapped == p.overlapped && s.operations[id].key == p.key
  }

  /**
   A packet completes the one operation whose address and completion key it carries,
   and without such an operation it changes nothing.
   */
  lemma PacketEffect(s: Iocp, p: Packet)
    requires OverlappedOk(s)
    ensures (forall id: nat :: !Matches(s, id, p)) ==> Observe(s, p) == s
    ensures forall id: nat :: Matches(s, id, p) ==>
              && Observe(s, p).operations == s.operations - {id}
              && Observe(s, p).completions
                 == s.completions + [NativeCompletion(s, s.operations[id], p.bytes, p.status)]
    ensures forall i: nat, j: nat :: Matches(s, i, p) && Matches(s, j, p) ==> i == j
  {
    assert AddressOk(s, p.overlapped);
    forall id: nat | Matches(s, id, p)
      ensures p.overlapped != 0 && p.overlapped in s.byOverlapped && s.byOverlapped[p.overlapped] == id
      ensures s.operations[id].op.id == id
    {
      assert BlockOk(s, id);
    }
    if p.overlapped in s.byOverlapped {
      assert BlockOk(s, s.byOverlapped[p.overlapped]);
      assert s.operations[s.byOverlapped[p.overlapped]].key == p.key ==> Matches(s, s.byOverlapped[p.overlapped], p);
    }
  }

  /** `s'` has some of the operations of `s`, unchanged. */
  ghost predicate Fewer(s: Iocp, s': Iocp) {
    forall id: nat :: id in s'.operations ==> id in s.operations && s'.operations[id] == s.operations[id]
  }

  lemma ObserveKeepsOverlapped(s: Iocp, p: Packet)
    requires OverlappedOk(s)
    ensures OverlappedOk(Observe(s, p))
  {
    assert AddressOk(s, p.overlapped);
    if p.overlapped != 0 && p.overlapped in s.byOverlapped {
      var id := s.byOverlapped[p.overlapped];
      assert BlockOk(s, id);
      if s.operations[id].key == p.key {
        var s1 := s.(completions := s.completions + [NativeCompletion(s, s.operations[id], p.bytes, p.status)]);
        OverlappedUntouched(s, s1);
        EraseKeepsOverlapped(s1, id);
      }
    }
  }

  lemma {:induction false} ObserveFirstKeepsOverlapped(s: Iocp, packets: seq<Packet>, n: nat)
    requires OverlappedOk(s) && n <= |packets|
    ensures OverlappedOk(ObserveFirst(s, packets, n))
  {
    if n > 0 {
      ObserveFirstKeepsOverlapped(s, packets, n - 1);
      ObserveKeepsOverlapped(ObserveFirst(s, packets, n - 1), packets[n - 1]);
    }
  }

  lemma ObserveFewer(s: Iocp, p: Packet, id: nat)
    requires OverlappedOk(s)
    ensures Fewer(s, Observe(s, p))
    ensures id in s.operations ==> (id in Observe(s, p).operations <==> !Matches(s, id, p))
  {
    PacketEffect(s, p);
    if other: nat :| Matches(s, other, p) {
      assert Observe(s, p).operations == s.operations - {other};
    }
  }

  ghost predicate Matched(s: Iocp, id: nat, packets: seq<Packet>, n: nat)
    requires n <= |packets|
  {
    exists k :: 0 <= k < n && Matches(s, id, packets[k])
  }

  lemma MatchedNext(s: Iocp, id: nat, packets: seq<Packet>, n: nat)
    requires 0 < n <= |packets|
    ensures Matched(s, id, packets, n) <==> Matched(s, id, packets, n - 1) || Matches(s, id, packets[n - 1])
  {
  }

  lemma {:induction false} ObserveFirstFewer(s: Iocp, packets: seq<Packet>, n: nat)
    requires OverlappedOk(s) && n <= |packets|
    ensures Fewer(s, ObserveFirst(s, packets, n))
  {
    if n > 0 {
      ObserveFirstFewer(s, packets, n - 1);
      ObserveFirstKeepsOverlapped(s, packets, n - 1);
      ObserveFewer(ObserveFirst(s, packets, n - 1), packets[n - 1], 0);
    }
  }

  /** The operations left after a list of packets are exactly those that none of them matches. */
  lemma {:induction false} ObserveFirstReleases(s: Iocp, packets: seq<Packet>, n: nat, id: nat)
    requires OverlappedOk(s) && n <= |packets| && id in s.operations
    ensures id !in ObserveFirst(s, packets, n).operations <==> Matched(s, id, packets, n)
  {
    if n > 0 {
      var s1 := ObserveFirst(s, packets, n - 1);
      ObserveFirstReleases(s, packets, n - 1, id);
      ObserveFirstKeepsOverlapped(s, packets, n - 1);
      ObserveFirstFewer(s, packets, n - 1);
      ObserveFewer(s1, packets[n - 1], id);
      MatchedNext(s, id, packets, n);
      assert id in s1.operations ==> s1.operations[id] == s.operations[id];
    }
  }

  /** A queued packet that a batch of at most `limit` reaches matches the operation. */
  ghost predicate QueuedMatch(s: Iocp, limit: nat, id: nat) {
    exists k :: 0 <= k < |s.packets| && k < limit && Matches(s, id, s.packets[k])
  }

  lemma {:induction false} ObserveQueuedReleases(s: Iocp, limit: nat, id: nat)
    requires OverlappedOk(s)
    ensures Fewer(s, ObserveQueued(s, limit))
    ensures id in s.operations && id !in ObserveQueued(s, limit).operations ==> QueuedMatch(s, limit, id)
    decreases limit
  {
    if limit > 0 && s.packets != [] {
      var s1 := s.(packets := s.packets[1..]);
      var s2 := Observe(s1, s.packets[0]);
      OverlappedUntouched(s, s1);
      ObserveKeepsOverlapped(s1, s.packets[0]);
      ObserveFewer(s1, s.packets[0], id);
      ObserveQueuedReleases(s2, limit - 1, id);
      ObservePackets(s1, s.packets[0]);
      if id in s2.operations && id !in ObserveQueued(s, limit).operations {
        var k :| 0 <= k < |s2.packets| && k < limit - 1 && Matches(s2, id, s2.packets[k]);
        assert s2.packets[k] == s.packets[k + 1] && Matches(s, id, s.packets[k + 1]);
      } else if id in s.operations && id !in s2.operations {
        assert Matches(s, id, s.packets[0]);
      }
    }
  }

  lemma ObservePackets(s: Iocp, p: Packet)
    ensures Observe(s, p).packets == s.packets || Observe(s, p).packets == []
  {
  }

  // Storage of natively submitted operations

  /** Cancelling, closing and shutting down keep every natively submitted operation stored. */
  lemma MarkingKeepsNative(s: Iocp, id: nat, token: Token, failing: set<nat>)
    requires id in s.operations && s.operations[id].native
    ensures id in CloseToken(s, token, failing).operations && id in Shutdown(s, failing).operations
  {
    if !s.stopped {
      var some, all := Scoped(s, |s.order|, Some(token)), Scoped(s, |s.order|, None);
      CloseFirstMarks(s, some, |some|, failing);
      CloseFirstMarks(s, all, |all|, failing);
    }
  }

  lemma CancelKeepsNative(s: Iocp, id: nat, other: nat, reason: CancellationReason, ok: bool)
    requires id in s.operations && s.operations[id].native
    ensures id in Cancel(s, other, reason, ok).operations
  {
  }

  lemma OnlyPollReleases(c: Config, s: Iocp, e: Event, id: nat)
    requires Possible(s, e) && id in s.operations && s.operations[id].native && !e.PollEvent?
    ensures id in Step(c, s, e).operations
  {
    match e
    case CloseEvent(token, failing) => MarkingKeepsNative(s, id, token, failing);
    case ShutdownEvent(failing) => MarkingKeepsNative(s, id, Token(0, 0), failing);
    case CancelEvent(other, reason, ok) => CancelKeepsNative(s, id, other, reason, ok);
    case _ =>
  }

  lemma PollReleases(c: Config, s: Iocp, port: seq<Packet>, id: nat)
    requires Inv(s) && id in s.operations && id !in Poll(c, s, port).operations
    ensures QueuedMatch(s, c.completionLimit, id) || Matched(s, id, port, |port|)
  {
    var s1 := ObserveQueued(s, c.completionLimit);
    ObserveQueuedReleases(s, c.completionLimit, id);
    ObserveQueuedKeepsInv(s, c.completionLimit);
    if id in s1.operations {
      ObserveFirstReleases(s1, port, |port|, id);
      var k :| 0 <= k < |port| && Matches(s1, id, port[k]);
      assert Matches(s, id, port[k]);
    }
  }

  /**
   The storage of a natively submitted operation is released only by a poll, and only if
   a packet with its overlapped address and its completion key is among the queued ones
   that the poll's batch reaches or among those it takes from the port.
   */
  lemma NativeStorageNeedsPacket(c: Config, s: Iocp, e: Event, id: nat)
    requires Inv(s) && Possible(s, e) && id in s.operations && s.operations[id].native
    requires id !in Step(c, s, e).operations
    ensures e.PollEvent?
    ensures QueuedMatch(s, c.completionLimit, id) || Matched(s, id, e.port, |e.port|)
  {
    if e.PollEvent? {
      PollReleases(c, s, e.port, id);
    } else {
      OnlyPollReleases(c, s, e, id);
    }
  }

  /** After shutdown, packets for all remaining operations complete them all and close the port. */
  lemma StoppedPortCloses(s: Iocp, packets: seq<Packet>)
    requires Inv(s) && s.stopped
    requires forall id: nat :: id in s.operations ==> Matched(s, id, packets, |packets|)
    ensures var s' := ObserveFirst(s, packets, |packets|);
            s'.operations == map[] && !s'.portOpen && s'.stopped
  {
    var s' := ObserveFirst(s, packets, |packets|);
    ObserveFirstKeepsInv(s, packets, |packets|);
    StoppedStays(s, packets, |packets|);
    forall id: nat
      ensures id !in s'.operations
    {
      ObserveFirstFewer(s, packets, |packets|);
      if id in s.operations {
        ObserveFirstReleases(s, packets, |packets|, id);
      }
    }
    assert s'.operations.Keys == {};
  }

  lemma {:induction false} StoppedStays(s: Iocp, packets: seq<Packet>, n: nat)
    requires n <= |packets|
    ensures ObserveFirst(s, packets, n).stopped == s.stopped
  {
    if n > 0 {
      StoppedStays(s, packets, n - 1);
    }
  }

  // Exactly once

  lemma {:induction false} CompletesKeepActive(s: Iocp, packets: seq<Packet>, n: nat)
    requires n <= |packets|
    ensures ObserveFirst(s, packets, n).active == s.active
  {
    if n > 0 {
      CompletesKeepActive(s, packets, n - 1);
    }
  }

  lemma {:induction false} QueuedKeepActive(s: Iocp, limit: nat)
    ensures ObserveQueued(s, limit).active == s.active
    decreases limit
  {
    if limit > 0 && s.packets != [] {
      QueuedKeepActive(Observe(s.(packets := s.packets[1..]), s.packets[0]), limit - 1);
    }
  }

  lemma PollKeepsActive(c: Config, s: Iocp, port: seq<Packet>)
    ensures Poll(c, s, port).active == s.active
  {
    QueuedKeepActive(s, c.completionLimit);
    CompletesKeepActive(ObserveQueued(s, c.completionLimit), port, |port|);
  }

  lemma MarkAllKeepsActive(s: Iocp, scope: Option<Token>, failing: set<nat>)
    requires !s.stopped
    ensures MarkAll(s, scope, failing).active == s.active
  {
    var ids := Scoped(s, |s.order|, scope);
    CloseFirstMarks(s, ids, |ids|, failing);
  }

  lemma StepKeepsActive(c: Config, s: Iocp, e: Event)
    requires Possible(s, e) && !e.SubmitEvent? && !e.DrainEvent?
    ensures Step(c, s, e).active == s.active
  {
    match e
    case PollEvent(port) => PollKeepsActive(c, s, port);
    case CloseEvent(token, failing) =>
      if !s.stopped {
        MarkAllKeepsActive(s, Some(token), failing);
      }
    case ShutdownEvent(failing) =>
      if !s.stopped {
        MarkAllKeepsActive(s, None, failing);
      }
    case _ =>
  }

  /** Only accepting and draining change the active ids. */
  lemma StepLedger(c: Config, s: Iocp, e: Event, id: nat)
    requires Inv(s) && Possible(s, e)
    ensures var s' := Step(c, s, e);
            One(id in s'.active)
            + (if e.DrainEvent? then DoneCount(s.completions[..Min(e.room, |s.completions|)], id) else 0)
            == One(id in s.active) + One(e.SubmitEvent? && e.op.id == id && SubmitCheck(s, e.op).Ok?)
  {
    match e
    case DrainEvent(room) => DrainCounts(s, room);
    case SubmitEvent(op, _) => assert op.id in s.active ==> SubmitCheck(s, op).Err?;
    case _ => StepKeepsActive(c, s, e);
  }

  /** Over every run, an id's accepted submissions minus its drained completions is its membership in the active set. */
  lemma {:induction false} Ledger(c: Config, s: Iocp, events: seq<Event>, id: nat)
    requires Inv(s) && PossibleRun(c, s, events) && c.associationCapacity <= A.MAX_ASSOCIATIONS
    ensures One(id in Run(c, s, events).active) + Drains(c, s, events, id)
         == One(id in s.active) + Accepts(c, s, events, id)
    decreases |events|
  {
    if events != [] {
      StepLedger(c, s, events[0], id);
      StepKeepsInv(c, s, events[0]);
      Ledger(c, Step(c, s, events[0]), events[1..], id);
    }
  }

  /** Each accepted operation is stored, waiting as a completion, or drained: exactly one of these, once. */
  lemma ExactlyOnce(c: Config, events: seq<Event>, id: nat)
    requires PossibleRun(c, EMPTY_IOCP, events) && c.associationCapacity <= A.MAX_ASSOCIATIONS
    ensures var s := Run(c, EMPTY_IOCP, events);
            Accepts(c, EMPTY_IOCP, events, id) ==
              Drains(c, EMPTY_IOCP, events, id) + One(id in s.operations) + DoneCount(s.completions, id)
    ensures Accepts(c, EMPTY_IOCP, events, id) <= Drains(c, EMPTY_IOCP, events, id) + 1
  {
    EmptyInv();
    Ledger(c, EMPTY_IOCP, events, id);
    RunKeepsInv(c, EMPTY_IOCP, events);
    var s := Run(c, EMPTY_IOCP, events);
    assert One(id in s.active) == Places(s, id);
  }

  // Results

  predicate Transfers(kind: Kind) {
    kind.Read? || kind.Write?
  }

  /**
   What a packet's completion reports: the user's cancellation exactly if the operation
   was cancelled and has a reason; otherwise closed exactly if the handle or the backend
   is; otherwise an abort, a failure, or success with the transferred count for reads
   and writes and the new handle for accepts.
   */
  lemma CompletionMeans(s: Iocp, st: Storage, bytes: nat, status: nat)
    requires IsValidShape(st.op)
    ensures var c := NativeCompletion(s, st, bytes, status);
            var gone := st.closeRequested || s.stopped || !Current(s.registry, st.op.handle);
            && c.id == st.op.id
            && (c.result == Err(Closed) <==> gone && !(IsCancelledStatus(status) && st.cancellation.Some?))
            && (forall reason :: c.result == Err(Cancelled(reason)) <==>
                  IsCancelledStatus(status) &&
                  if st.cancellation.Some? then reason == st.cancellation.value else !gone && reason == BackendAbort)
            && (c.result.Ok? <==> !gone && status == STATUS_SUCCESS)
            && c.bytes == (if c.result.Ok? && Transfers(st.op.kind) then bytes else 0)
            && c.acceptedHandle == (if c.result.Ok? && st.op.kind.Accept? then bytes else 0)
  {
  }

  // Handle reuse

  lemma {:induction false} CloseFirstKeepsRegistry(s: Iocp, ids: seq<nat>, n: nat, failing: set<nat>)
    requires n <= |ids|
    ensures CloseFirst(s, ids, n, failing).registry == s.registry
  {
    if n > 0 {
      CloseFirstKeepsRegistry(s, ids, n - 1, failing);
    }
  }

  lemma {:induction false} ObserversKeepRegistry(s: Iocp, packets: seq<Packet>, n: nat)
    requires n <= |packets|
    ensures ObserveFirst(s, packets, n).registry == s.registry
  {
    if n > 0 {
      ObserversKeepRegistry(s, packets, n - 1);
    }
  }

  lemma {:induction false} QueuedKeepRegistry(s: Iocp, limit: nat)
    ensures ObserveQueued(s, limit).registry == s.registry
    decreases limit
  {
    if limit > 0 && s.packets != [] {
      QueuedKeepRegistry(Observe(s.(packets := s.packets[1..]), s.packets[0]), limit - 1);
    }
  }

  lemma StepRegistryLater(c: Config, s: Iocp, e: Event)
    requires Possible(s, e)
    ensures Later(s.registry, Step(c, s, e).registry)
  {
    match e
    case RegisterEvent(native, associated) =>
      A.RegistryLater(s.table, s.registry, c.associationCapacity, native, associated);
    case PollEvent(port) =>
      QueuedKeepRegistry(s, c.completionLimit);
      ObserversKeepRegistry(ObserveQueued(s, c.completionLimit), port, |port|);
    case CloseEvent(token, failing) =>
      var ids := Scoped(s, |s.order|, Some(token));
      CloseFirstKeepsRegistry(s, ids, |ids|, failing);
      StepsAreLater(s.registry, 0, token);
    case ShutdownEvent(failing) =>
      var ids := Scoped(s, |s.order|, None);
      CloseFirstKeepsRegistry(s, ids, |ids|, failing);
    case _ =>
  }

  lemma {:induction false} RunRegistryLater(c: Config, s: Iocp, events: seq<Event>)
    requires PossibleRun(c, s, events)
    ensures Later(s.registry, Run(c, s, events).registry)
    decreases |events|
  {
    if events != [] {
      StepRegistryLater(c, s, events[0]);
      RunRegistryLater(c, Step(c, s, events[0]), events[1..]);
      LaterTransitive(s.registry, Step(c, s, events[0]).registry, Run(c, s, events).registry);
    }
  }

  /**
   However the same native handle is registered again after a token was closed, an
   operation on that token accepts no key of an open handle, and completes as closed
   or by its own cancellation; nothing new is accepted on the token.
   */
  lemma ClosedHandleStaysClosed(c: Config, s: Iocp, events: seq<Event>, id: nat, token: Token, p: Packet)
    requires Inv(s) && PossibleRun(c, s, events) && c.associationCapacity <= A.MAX_ASSOCIATIONS
    requires Retired(s.registry, token)
    ensures var s' := Run(c, s, events);
            && (forall op: Operation :: op.handle == token ==> SubmitCheck(s', op).Err?)
            && (id in s'.operations && s'.operations[id].op.handle == token ==>
                  && (!s'.stopped ==> A.Resolve(s'.table, s'.registry, s'.operations[id].key).None?)
                  && NativeCompletion(s', s'.operations[id], p.bytes, p.status) ==
                       (if IsCancelledStatus(p.status) && s'.operations[id].cancellation.Some?
                        then Plain(id, Err(Cancelled(s'.operations[id].cancellation.value)))
                        else ClosedCompletion(id)))
  {
    RunKeepsInv(c, s, events);
    RunRegistryLater(c, s, events);
    var s' := Run(c, s, events);
    RetiredForever(s.registry, s'.registry, token);
    if id in s'.operations && s'.operations[id].op.handle == token {
      assert StorageOk(s', s'.operations[id]) && BlockOk(s', id);
      if !s'.stopped {
        A.SpentNeverResolves(s'.table, s'.registry, s'.operations[id].key);
      }
    }
  }
}
