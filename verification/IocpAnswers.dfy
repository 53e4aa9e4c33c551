/**
 What the IOCP backend tells its callers and keeps for them, spelled out apart from
 the transition functions: acceptance, marks, closed completions and releases.
 */
module IocpAnswers {
  import opened Common
  import opened Operations
  import opened HandleRegistry
  import A = IocpAssociations
  import opened IocpSpec
  import opened IocpInvariant
  import opened IocpRuns

  // Registering and submitting

  /**
   A registration succeeds exactly if the handle is neither zero nor open, a slot is free or can be
   added, and the system call succeeds; then the token is the one current token of the handle.
   Otherwise no token changes its currency.
   */
  lemma RegisterAnswers(t: A.Table, r: Registry, capacity: nat, native: nat, associated: bool, other: Token)
    requires A.Inv(t, r) && capacity <= A.MAX_ASSOCIATIONS
    ensures var (_, r', token) := A.Register(t, r, capacity, native, associated);
            && (token.Ok? <==>
                  native != 0 && !IsOpen(r, native) && (t.free != [] || |t.slots| < capacity) && associated)
            && (token.Ok? ==> token.value.native == native && Current(r', token.value) && !Current(r, token.value))
            && (token.Err? || other.native != native ==> (Current(r', other) <==> Current(r, other)))
  {
    if RegisterResult(r, native).Ok? {
      A.RegisterPacks(t, r, capacity, native);
    }
  }

  /** A submission is accepted exactly if all of this holds; otherwise the answer says closed exactly after shutdown. */
  lemma SubmitAcceptsIff(s: Iocp, op: Operation)
    requires Inv(s)
    ensures var r := SubmitCheck(s, op); r.Err? ==> r == Err(if s.stopped then Closed else InvalidState)
    ensures SubmitCheck(s, op) == Ok(()) <==>
              && !s.stopped && op.id != 0 && op.id !in s.active && Current(s.registry, op.handle)
              && match op.kind
                 case Read => true
                 case Write => true
                 case Accept => op.target == Socket
                 case Connect => op.target == Socket
                 case Fsync => op.target == File
                 case _ => false
  {
    if !s.stopped {
      A.OpenHandlesResolve(s.table, s.registry, op.handle);
    }
  }

  /** An accepted operation is stored without any mark, with the key of its handle, as the last in submission order. */
  lemma SubmitStores(s: Iocp, op: Operation, address: nat, other: nat)
    requires Inv(s) && SubmitCheck(s, op).Ok? && address != 0 && address !in s.byOverlapped
    ensures var s' := Submit(s, op, address);
            && op.id in s'.operations && op.id in s'.orderById
            && (other in s.operations ==>
                  && other in s'.operations && s'.operations[other] == s.operations[other]
                  && other in s'.orderById && s'.orderById[other] < s'.orderById[op.id])
            && var st := s'.operations[op.id];
               && st.op == op && st.overlapped == address && A.Resolve(s'.table, s'.registry, st.key) == Some(op.handle)
               && st.cancellation.None? && !st.cancelRequested && !st.closeRequested && !st.native
  {
    A.OpenHandlesResolve(s.table, s.registry, op.handle);
    assert One(op.id in s.active) == Places(s, op.id);
    if other in s.operations {
      assert Node(s.orderById[other], other) in s.order && NodeOk(s, Node(s.orderById[other], other));
    }
  }

  // Cancelling

  /**
   An accepted cancel of an operation that the system does not have yet completes it as cancelled;
   of a native one it records the reason unless there is one, and the request unless the system call
   fails. Nothing else changes, and the answer is an error exactly if the call was needed and failed.
   */
  lemma CancelMeans(s: Iocp, id: nat, reason: CancellationReason, ok: bool)
    requires !s.stopped && id != 0 && id in s.operations && !s.operations[id].closeRequested
    ensures var s' := Cancel(s, id, reason, ok); var st := s.operations[id];
            var first := if st.cancellation.Some? then st.cancellation.value else reason;
            && (CancelResult(s, id, ok).Err? <==> st.native && !st.cancelRequested && !ok)
            && if st.native then
                 && s' == s.(operations := s'.operations)
                 && s'.operations == s.operations[id := st.(cancellation := Some(first),
                                                            cancelRequested := st.cancelRequested || ok)]
               else
                 && s'.completions == s.completions + [Completion(id, Err(Cancelled(first)), 0, 0)]
                 && s'.operations == s.operations - {id} && s'.active == s.active
  {
    var st := s.operations[id];
    var s1 := Update(s, id, WithReason(st, reason));
    if st.native {
      assert Cancel(s, id, reason, ok) == RequestCancel(s1, id, ok);
      UpdateTwice(s, id, WithReason(st, reason), WithReason(st, reason).(cancelRequested := true));
    } else {
      var c := Plain(id, Err(Cancelled(WithReason(st, reason).cancellation.value)));
      assert Cancel(s, id, reason, ok) == Complete(s1, c);
      CompleteRemoves(s, id, WithReason(st, reason), c);
    }
  }

  /** The other cancels are refused, and change nothing. */
  lemma CancelRefusals(s: Iocp, id: nat, reason: CancellationReason, ok: bool)
    ensures var known := id != 0 && id in s.operations; var r := CancelResult(s, id, ok);
            && (r == Err(Closed) <==> s.stopped || (known && s.operations[id].closeRequested))
            && (r == Err(InvalidState) <==> !s.stopped && !known)
            && (s.stopped || !known || s.operations[id].closeRequested ==> Cancel(s, id, reason, ok) == s)
  {
  }

  lemma UpdateTwice(s: Iocp, id: nat, st: Storage, st': Storage)
    ensures Update(Update(s, id, st), id, st') == Update(s, id, st')
  {
    assert s.operations[id := st][id := st'] == s.operations[id := st'];
  }

  lemma CompleteRemoves(s: Iocp, id: nat, st: Storage, c: Completion)
    requires id in s.operations && c.id == id
    ensures var s' := Complete(Update(s, id, st), c);
            s'.operations == s.operations - {id} && s'.completions == s.completions + [c] && s'.active == s.active
  {
    assert s.operations[id := st] - {id} == s.operations - {id};
  }

  // Closing and shutting down

  /** The marks of an operation that a close or a shutdown reaches. */
  function Marked(st: Storage, failing: bool): Storage {
    st.(closeRequested := true, cancelRequested := st.cancelRequested || !failing)
  }

  /** The listed operations are in submission order. */
  ghost predicate InOrder(s: Iocp, ids: seq<nat>) {
    && (forall i :: 0 <= i < |ids| ==> ids[i] in s.operations && ids[i] in s.orderById)
    && forall i, j :: 0 <= i < j < |ids| ==> s.orderById[ids[i]] < s.orderById[ids[j]]
  }

  lemma InOrderNext(s: Iocp, ids: seq<nat>, id: nat)
    requires InOrder(s, ids) && id in s.operations && id in s.orderById
    requires forall i :: 0 <= i < |ids| ==> s.orderById[ids[i]] < s.orderById[id]
    ensures InOrder(s, ids + [id])
  {
  }

  /** All listed operations come before the nodes from `n` on. */
  ghost predicate Before(s: Iocp, ids: seq<nat>, n: nat) {
    forall i, k :: 0 <= i < |ids| && n <= k < |s.order| && ids[i] in s.orderById ==> s.orderById[ids[i]] < s.order[k].node
  }

  lemma BeforeNext(s: Iocp, ids: seq<nat>, n: nat)
    requires OrderOk(s) && 0 < n <= |s.order| && InOrder(s, ids) && Before(s, ids, n - 1)
    ensures var x := s.order[n - 1].id; InOrder(s, ids + [x]) && Before(s, ids + [x], n) && Before(s, ids, n)
  {
    var x := s.order[n - 1];
    assert x in s.order && NodeOk(s, x);
    InOrderNext(s, ids, x.id);
  }

  lemma {:induction false} ScopedInOrder(s: Iocp, n: nat, scope: Option<Token>)
    requires OrderOk(s) && n <= |s.order|
    ensures InOrder(s, Scoped(s, n, scope)) && Before(s, Scoped(s, n, scope), n)
  {
    if n > 0 {
      ScopedInOrder(s, n - 1, scope);
      BeforeNext(s, Scoped(s, n - 1, scope), n);
    }
  }

  lemma ScopedIsScope(s: Iocp, scope: Option<Token>, id: nat)
    requires OrderOk(s)
    ensures id in Scoped(s, |s.order|, scope) <==> InScope(s, id, scope)
  {
    if InScope(s, id, scope) {
      assert Node(s.orderById[id], id) in s.order;
      var k :| 0 <= k < |s.order| && s.order[k] == Node(s.orderById[id], id);
      assert s.order[k].id == id;
    }
  }

  /** What has become of one operation after the first `n` of the list were reached. */
  ghost predicate Reached(s: Iocp, s': Iocp, ids: seq<nat>, n: nat, failing: set<nat>, id: nat)
    requires n <= |ids|
  {
    if id !in s.operations then id !in s'.operations
    else if id !in ids[..n] then id in s'.operations && s'.operations[id] == s.operations[id]
    else if s.operations[id].native then id in s'.operations && s'.operations[id] == Marked(s.operations[id], id in failing)
    else id !in s'.operations
  }

  lemma CloseOneMeans(s: Iocp, id: nat, ok: bool)
    requires id in s.operations && !s.stopped
    ensures var s' := CloseOne(s, id, ok); var st := s.operations[id];
            && s'.operations == (if st.native then s.operations[id := Marked(st, !ok)] else s.operations - {id})
            && s'.completions == s.completions + (if st.native then [] else [Completion(id, Err(Closed), 0, 0)])
            && s'.stopped == s.stopped
  {
    CompleteForgets(s, id, s.operations[id].(closeRequested := true));
    var st := s.operations[id].(closeRequested := true);
    assert s.operations[id := st][id := st.(cancelRequested := true)] == s.operations[id := st.(cancelRequested := true)];
  }

  lemma NotEarlier(s: Iocp, ids: seq<nat>, n: nat)
    requires InOrder(s, ids) && n < |ids|
    ensures ids[n] !in ids[..n]
  {
  }

  lemma {:induction false} CloseFirstReaches(s: Iocp, ids: seq<nat>, n: nat, failing: set<nat>)
    requires !s.stopped && InOrder(s, ids) && n <= |ids|
    ensures !CloseFirst(s, ids, n, failing).stopped
    ensures forall id: nat :: Reached(s, CloseFirst(s, ids, n, failing), ids, n, failing, id)
  {
    if n > 0 {
      CloseFirstReaches(s, ids, n - 1, failing);
      var s1, x := CloseFirst(s, ids, n - 1, failing), ids[n - 1];
      NotEarlier(s, ids, n - 1);
      PrefixNext(ids, n - 1);
      assert Reached(s, s1, ids, n - 1, failing, x);
      CloseOneMeans(s1, x, x !in failing);
      forall id: nat
        ensures Reached(s, CloseFirst(s, ids, n, failing), ids, n, failing, id)
      {
        assert Reached(s, s1, ids, n - 1, failing, id);
      }
    }
  }

  /** The completions that were added: closed ones of listed operations that are not native, in order. */
  ghost predicate ToldClosed(s: Iocp, added: seq<Completion>, ids: seq<nat>, n: nat)
    requires n <= |ids|
  {
    && (forall k :: 0 <= k < |added| ==>
          && added[k] == Completion(added[k].id, Err(Closed), 0, 0)
          && added[k].id in s.operations && added[k].id in s.orderById
          && added[k].id in ids[..n] && !s.operations[added[k].id].native)
    && (forall j, k :: 0 <= j < k < |added| ==> s.orderById[added[j].id] < s.orderById[added[k].id])
    && forall i :: 0 <= i < n && ids[i] in s.operations && !s.operations[ids[i]].native ==> Told(added, ids[i])
  }

  ghost predicate Told(added: seq<Completion>, id: nat) {
    exists k :: 0 <= k < |added| && added[k].id == id
  }

  lemma ToldStays(added: seq<Completion>, c: Completion, id: nat)
    ensures Told(added, id) ==> Told(added + [c], id)
    ensures Told(added + [c], c.id)
  {
    if Told(added, id) {
      var k :| 0 <= k < |added| && added[k].id == id;
      assert (added + [c])[k].id == id;
    }
    assert (added + [c])[|added|] == c;
  }

  lemma {:induction false} CloseFirstTells(s: Iocp, ids: seq<nat>, n: nat, failing: set<nat>)
    requires !s.stopped && InOrder(s, ids) && n <= |ids|
    ensures var cs := CloseFirst(s, ids, n, failing).completions;
            |s.completions| <= |cs| && cs[..|s.completions|] == s.completions && ToldClosed(s, cs[|s.completions|..], ids, n)
  {
    if n > 0 {
      CloseFirstTells(s, ids, n - 1, failing);
      CloseFirstReaches(s, ids, n - 1, failing);
      var s1, x := CloseFirst(s, ids, n - 1, failing), ids[n - 1];
      NotEarlier(s, ids, n - 1);
      assert Reached(s, s1, ids, n - 1, failing, x);
      CloseOneMeans(s1, x, x !in failing);
      var added := s1.completions[|s.completions|..];
      var cs := CloseFirst(s, ids, n, failing).completions;
      TellNext(s, added, ids, n);
      AddedNext(s.completions, s1.completions, cs, if s.operations[x].native then [] else [Completion(x, Err(Closed), 0, 0)]);
    }
  }

  lemma AddedNext(cs: seq<Completion>, cs1: seq<Completion>, cs2: seq<Completion>, more: seq<Completion>)
    requires |cs| <= |cs1| && cs1[..|cs|] == cs && cs2 == cs1 + more
    ensures |cs| <= |cs2| && cs2[..|cs|] == cs && cs2[|cs|..] == cs1[|cs|..] + more
    ensures more == [] ==> cs2[|cs|..] == cs1[|cs|..]
  {
  }

  lemma TellNext(s: Iocp, added: seq<Completion>, ids: seq<nat>, n: nat)
    requires 0 < n <= |ids| && InOrder(s, ids) && ToldClosed(s, added, ids, n - 1)
    ensures s.operations[ids[n - 1]].native ==> ToldClosed(s, added, ids, n)
    ensures !s.operations[ids[n - 1]].native ==> ToldClosed(s, added + [Completion(ids[n - 1], Err(Closed), 0, 0)], ids, n)
  {
    PrefixNext(ids, n - 1);
    var c := Completion(ids[n - 1], Err(Closed), 0, 0);
    forall i | 0 <= i < n && ids[i] in s.operations && !s.operations[ids[i]].native
      ensures Told(added + [c], ids[i])
    {
      ToldStays(added, c, ids[i]);
    }
  }

  /** A system call that was needed failed on the way. */
  ghost predicate NeededAndFailed(s: Iocp, id: nat, failing: set<nat>) {
    id in s.operations && s.operations[id].native && !s.operations[id].cancelRequested && id in failing
  }

  lemma {:induction false} FailedFirstMeans(s: Iocp, ids: seq<nat>, n: nat, failing: set<nat>)
    requires !s.stopped && InOrder(s, ids) && n <= |ids|
    ensures FailedFirst(s, ids, n, failing) <==> exists i :: 0 <= i < n && NeededAndFailed(s, ids[i], failing)
  {
    if n > 0 {
      FailedFirstMeans(s, ids, n - 1, failing);
      CloseFirstReaches(s, ids, n - 1, failing);
      NotEarlier(s, ids, n - 1);
      assert Reached(s, CloseFirst(s, ids, n - 1, failing), ids, n - 1, failing, ids[n - 1]);
    }
  }

  /**
   Closing a handle or shutting down, without naming the lists it walks: of the operations in scope the
   native ones stay, marked, each with its cancel request unless the system call failed; the others
   go, and are told that they are closed, exactly they, in submission order. The others are untouched.
   */
  lemma MarkAllMeans(s: Iocp, scope: Option<Token>, failing: set<nat>, id: nat)
    requires Inv(s) && !s.stopped
    ensures var s' := MarkAll(s, scope, failing); var n := |s.completions|;
            && n <= |s'.completions| && s'.completions[..n] == s.completions
            && (forall k :: n <= k < |s'.completions| ==>
                  var x := s'.completions[k].id;
                  && s'.completions[k] == Completion(x, Err(Closed), 0, 0)
                  && InScope(s, x, scope) && x in s.orderById && !s.operations[x].native)
            && (forall j, k :: n <= j < k < |s'.completions| ==>
                  s.orderById[s'.completions[j].id] < s.orderById[s'.completions[k].id])
            && (InScope(s, id, scope) && !s.operations[id].native ==>
                  id !in s'.operations && Told(s'.completions[n..], id))
            && (InScope(s, id, scope) && s.operations[id].native ==>
                  id in s'.operations && s'.operations[id] == Marked(s.operations[id], id in failing))
            && (id in s.operations && !InScope(s, id, scope) ==>
                  id in s'.operations && s'.operations[id] == s.operations[id])
            && (id !in s.operations ==> id !in s'.operations)
  {
    var ids := Scoped(s, |s.order|, scope);
    ScopedInOrder(s, |s.order|, scope);
    ScopedIsScope(s, scope, id);
    CloseFirstReaches(s, ids, |ids|, failing);
    CloseFirstTells(s, ids, |ids|, failing);
    WholePrefix(ids);
    var s', n := MarkAll(s, scope, failing), |s.completions|;
    assert Reached(s, s', ids, |ids|, failing, id);
    ToldInScope(s, s'.completions, ids, scope);
  }

  lemma ToldInScope(s: Iocp, cs: seq<Completion>, ids: seq<nat>, scope: Option<Token>)
    requires |s.completions| <= |cs| && ToldClosed(s, cs[|s.completions|..], ids, |ids|)
    requires ids == Scoped(s, |s.order|, scope)
    ensures forall k :: |s.completions| <= k < |cs| ==>
              var x := cs[k].id;
              && cs[k] == Completion(x, Err(Closed), 0, 0)
              && InScope(s, x, scope) && x in s.orderById && !s.operations[x].native
    ensures forall j, k :: |s.completions| <= j < k < |cs| ==> s.orderById[cs[j].id] < s.orderById[cs[k].id]
  {
    var n, added := |s.completions|, cs[|s.completions|..];
    forall k | n <= k < |cs|
      ensures cs[k] == added[k - n] && cs[k].id in ids
    {
      assert cs[k] == added[k - n] && added[k - n].id in ids[..|ids|];
    }
  }

  /** Closing and shutting down answer with an error exactly if a needed system call failed for something in scope. */
  lemma MarkAllAnswers(s: Iocp, scope: Option<Token>, failing: set<nat>)
    requires Inv(s) && !s.stopped
    ensures var ids := Scoped(s, |s.order|, scope);
            FailedFirst(s, ids, |ids|, failing) <==>
              exists id: nat :: InScope(s, id, scope) && NeededAndFailed(s, id, failing)
  {
    var ids := Scoped(s, |s.order|, scope);
    ScopedInOrder(s, |s.order|, scope);
    FailedFirstMeans(s, ids, |ids|, failing);
    if id: nat :| InScope(s, id, scope) && NeededAndFailed(s, id, failing) {
      ScopedIsScope(s, scope, id);
      var i :| 0 <= i < |ids| && ids[i] == id;
    }
  }

  /**
   A close is carried out exactly for a current token of a running backend; then it retires that token
   and leaves the currency of every other, and the key of the token resolves to nothing.
   */
  lemma CloseMeans(s: Iocp, token: Token, failing: set<nat>, other: Token)
    requires Inv(s)
    ensures var s' := CloseToken(s, token, failing); var r := CloseCheck(s, token);
            && (r == Ok(()) <==> !s.stopped && Current(s.registry, token)) && (r == Err(Closed) <==> s.stopped)
            && (r.Err? ==> s' == s)
            && (r.Ok? ==>
                  && Retired(s'.registry, token) && A.KeyFor(s'.table, s'.registry, token).Err?
                  && (other != token ==> (Current(s'.registry, other) <==> Current(s.registry, other)))
                  && s'.operations == MarkAll(s, Some(token), failing).operations
                  && s'.completions == MarkAll(s, Some(token), failing).completions)
  {
    if CloseCheck(s, token).Ok? {
      MarkAllKeepsInv(s, Some(token), failing);
      CloseRetires(s.registry, token);
    }
  }

  /** A shutdown stops the backend after marking everything, and the port stays open exactly while operations are left. */
  lemma ShutdownMeans(s: Iocp, failing: set<nat>)
    requires Inv(s) && !s.stopped
    ensures var s' := Shutdown(s, failing);
            && s'.stopped && (s'.portOpen <==> s'.operations.Keys != {})
            && s'.operations == MarkAll(s, None, failing).operations
            && s'.completions == MarkAll(s, None, failing).completions && s'.active == s.active
  {
    MarkAllKeepsInv(s, None, failing);
    var s1 := MarkAll(s, None, failing);
    assert s1.operations == map[] <==> s1.operations.Keys == {};
  }

  // Intents

  /** A cancel call that reaches the stored operation. */
  predicate Cancels(s: Iocp, e: Event, id: nat) {
    e.CancelEvent? && e.id == id && id != 0 && !s.stopped && id in s.operations && !s.operations[id].closeRequested
  }

  /** A close of its handle, or a shutdown, that reaches the stored operation. */
  predicate Closes(s: Iocp, e: Event, st: Storage) {
    !s.stopped && (e.ShutdownEvent? || (e.CloseEvent? && e.token == st.op.handle && Current(s.registry, e.token)))
  }

  /** Where the marks of a stored operation come from: only from the caller, and they stay as they are. */
  ghost predicate MarkLaw(s: Iocp, e: Event, s': Iocp, id: nat) {
    id in s'.operations ==>
      var st' := s'.operations[id];
      if id in s.operations then
        var st := s.operations[id];
        && st'.op == st.op && st'.key == st.key && st'.overlapped == st.overlapped
        && (st'.native <==> st.native || e == NativeEvent(id))
        && st'.cancellation == (if Cancels(s, e, id) && st.cancellation.None? then Some(e.reason) else st.cancellation)
        && (st'.closeRequested <==> st.closeRequested || Closes(s, e, st))
        && (st'.cancelRequested <==>
              || st.cancelRequested || (Cancels(s, e, id) && e.ok)
              || (Closes(s, e, st) && id !in e.failing))
      else
        e.SubmitEvent? && st'.op == e.op && e.op.id == id && st'.overlapped == e.address
        && st'.cancellation.None? && !st'.cancelRequested && !st'.closeRequested && !st'.native
  }

  lemma CancelLaw(s: Iocp, e: Event, s': Iocp, id: nat)
    requires e.CancelEvent? && Cancels(s, e, e.id)
    requires var st := s.operations[e.id];
             s'.operations ==
             if st.native
             then s.operations[e.id := st.(cancellation := Some(if st.cancellation.Some? then st.cancellation.value else e.reason),
                                           cancelRequested := st.cancelRequested || e.ok)]
             else s.operations - {e.id}
    ensures MarkLaw(s, e, s', id)
  {
  }

  lemma CancelMarks(s: Iocp, e: Event, id: nat)
    requires Inv(s) && e.CancelEvent?
    ensures MarkLaw(s, e, Cancel(s, e.id, e.reason, e.ok), id)
  {
    if Cancels(s, e, e.id) {
      CancelMeans(s, e.id, e.reason, e.ok);
      CancelLaw(s, e, Cancel(s, e.id, e.reason, e.ok), id);
    } else {
      assert Cancel(s, e.id, e.reason, e.ok) == s;
    }
  }

  /** Steps that only drop stored operations. */
  lemma DroppingMarks(s: Iocp, e: Event, s': Iocp, id: nat)
    requires e.RegisterEvent? || e.PacketEvent? || e.DrainEvent? || e.PollEvent?
    requires id in s'.operations ==> id in s.operations && s'.operations[id] == s.operations[id]
    ensures MarkLaw(s, e, s', id)
  {
  }

  lemma SubmitMarks(s: Iocp, e: Event, id: nat)
    requires Inv(s) && e.SubmitEvent?
    ensures MarkLaw(s, e, Submit(s, e.op, e.address), id)
  {
    assert One(e.op.id in s.active) == Places(s, e.op.id);
  }

  lemma NativeMarks(s: Iocp, e: Event, id: nat)
    requires e.NativeEvent?
    ensures MarkLaw(s, e, MarkNative(s, e.id), id)
  {
    if id in s.operations && id != e.id {
      assert MarkNative(s, e.id).operations[id] == s.operations[id];
    }
  }

  lemma CloseMarks(s: Iocp, e: Event, id: nat)
    requires Inv(s) && e.CloseEvent?
    ensures MarkLaw(s, e, CloseToken(s, e.token, e.failing), id)
  {
    if CloseCheck(s, e.token).Ok? {
      MarkAllMeans(s, Some(e.token), e.failing, id);
    }
  }

  lemma ShutdownMarks(s: Iocp, e: Event, id: nat)
    requires Inv(s) && e.ShutdownEvent?
    ensures MarkLaw(s, e, Shutdown(s, e.failing), id)
  {
    if !s.stopped {
      MarkAllMeans(s, None, e.failing, id);
    }
  }

  lemma PollFewer(c: Config, s: Iocp, port: seq<Packet>)
    requires Inv(s)
    ensures Fewer(s, Poll(c, s, port))
  {
    ObserveQueuedReleases(s, c.completionLimit, 0);
    ObserveQueuedKeepsInv(s, c.completionLimit);
    ObserveFirstFewer(ObserveQueued(s, c.completionLimit), port, |port|);
  }

  /** Over every step, the first reason and the close mark of an operation come from the caller and stay. */
  lemma StepMarks(c: Config, s: Iocp, e: Event, id: nat)
    requires Inv(s) && Possible(s, e)
    ensures MarkLaw(s, e, Step(c, s, e), id)
  {
    match e
    case SubmitEvent(_, _) => SubmitMarks(s, e, id);
    case CancelEvent(_, _, _) => CancelMarks(s, e, id);
    case CloseEvent(_, _) => CloseMarks(s, e, id);
    case ShutdownEvent(_) => ShutdownMarks(s, e, id);
    case NativeEvent(_) => NativeMarks(s, e, id);
    case PollEvent(port) =>
      PollFewer(c, s, port);
      DroppingMarks(s, e, Poll(c, s, port), id);
    case _ => DroppingMarks(s, e, Step(c, s, e), id);
  }

  // Releasing and handing out

  /** One queued packet: the operation goes if it matches, and otherwise nothing is lost. */
  lemma QueuedStep(s: Iocp, id: nat)
    requires OverlappedOk(s) && id in s.operations && s.packets != []
    ensures var s2 := Observe(s.(packets := s.packets[1..]), s.packets[0]);
            && OverlappedOk(s2)
            && (id in s2.operations <==> !Matches(s, id, s.packets[0]))
            && (id in s2.operations ==> s2.operations[id] == s.operations[id] && s2.packets == s.packets[1..])
  {
    var s1 := s.(packets := s.packets[1..]);
    OverlappedUntouched(s, s1);
    ObserveKeepsOverlapped(s1, s.packets[0]);
    ObserveFewer(s1, s.packets[0], id);
    KeptPackets(s1, s.packets[0]);
  }

  lemma MatchesLater(s: Iocp, s2: Iocp, id: nat, k: nat)
    requires 0 < k < |s.packets| && s2.packets == s.packets[1..] && Matches(s, id, s.packets[k])
    requires id in s2.operations && s2.operations[id] == s.operations[id]
    ensures k - 1 < |s2.packets| && Matches(s2, id, s2.packets[k - 1])
  {
  }

  lemma {:induction false} ObserveQueuedReaches(s: Iocp, limit: nat, id: nat, k: nat)
    requires OverlappedOk(s) && id in s.operations && k < |s.packets| && k < limit && Matches(s, id, s.packets[k])
    ensures id !in ObserveQueued(s, limit).operations
    decreases limit
  {
    var s2 := Observe(s.(packets := s.packets[1..]), s.packets[0]);
    QueuedStep(s, id);
    assert ObserveQueued(s, limit) == ObserveQueued(s2, limit - 1);
    if id in s2.operations {
      MatchesLater(s, s2, id, k);
      ObserveQueuedReaches(s2, limit - 1, id, k - 1);
    } else {
      ObserveQueuedReleases(s2, limit - 1, id);
    }
  }

  /** Packets are dropped only with the last operation. */
  lemma KeptPackets(s: Iocp, p: Packet)
    ensures Observe(s, p).operations != map[] ==> Observe(s, p).packets == s.packets
  {
  }

  /**
   A poll that has nothing to hand out releases exactly the operations for which a packet with their address
   and key is among the queued ones that its batch reaches or among those it takes from the port.
   */
  lemma PollReleasesIff(c: Config, s: Iocp, port: seq<Packet>, id: nat)
    requires Inv(s) && s.completions == [] && s.portOpen && id in s.operations
    ensures id !in Poll(c, s, port).operations <==> QueuedMatch(s, c.completionLimit, id) || Matched(s, id, port, |port|)
  {
    if id !in Poll(c, s, port).operations {
      PollReleases(c, s, port, id);
    }
    var s1 := ObserveQueued(s, c.completionLimit);
    ObserveQueuedKeepsInv(s, c.completionLimit);
    ObserveQueuedReleases(s, c.completionLimit, id);
    ObserveFirstFewer(s1, port, |port|);
    if QueuedMatch(s, c.completionLimit, id) {
      var k :| 0 <= k < |s.packets| && k < c.completionLimit && Matches(s, id, s.packets[k]);
      ObserveQueuedReaches(s, c.completionLimit, id, k);
    } else if Matched(s, id, port, |port|) && id in s1.operations {
      var k :| 0 <= k < |port| && Matches(s, id, port[k]);
      assert Matches(s1, id, port[k]);
      ObserveFirstReleases(s1, port, |port|, id);
    }
  }

  /** Draining hands out the oldest completions, as many as fit, and exactly their ids become free. */
  lemma DrainHandsOut(s: Iocp, room: nat, id: nat)
    ensures var s' := Drain(s, room); var out := s.completions[..|s.completions| - |s'.completions|];
            && |out| == Min(room, |s.completions|) && s.completions == out + s'.completions
            && (id in s'.active <==> id in s.active && !Told(out, id))
            && s' == s.(completions := s'.completions, active := s'.active)
  {
    var n := Min(room, |s.completions|);
    assert id in CompletedIds(s.completions[..n]) <==> Told(s.completions[..n], id);
  }
}
