/** The portable backend of src/backend.cpp: pending operations, completions and active ids. */
module VirtualBackends {
  import opened Common
  import opened Operations
  import opened HandleRegistry

  datatype Virtual = Virtual(
    registry: Registry, pending: seq<Operation>, completions: seq<Completion>, active: set<nat>,
    stopped: bool, registered: nat, submitted: nat, cancelled: nat, wakeups: nat)

  const EMPTY_VIRTUAL := Virtual(map[], [], [], {}, false, 0, 0, 0, 0)

  function RegisterHandle(v: Virtual, native: nat): (Virtual, Result<Token, ErrorCode>) {
    if v.stopped then (v, Err(Closed))
    else if RegisterResult(v.registry, native).Err? then (v, RegisterResult(v.registry, native))
    else (v.(registry := Registered(v.registry, native), registered := v.registered + 1),
          RegisterResult(v.registry, native))
  }

  function SubmitCheck(v: Virtual, op: Operation): VoidResult {
    if v.stopped then Err(Closed)
    else if op.id == 0 || !IsValidShape(op) || !Current(v.registry, op.handle) || op.id in v.active
    then Err(InvalidState)
    else Ok(())
  }

  function Submit(v: Virtual, op: Operation): Virtual {
    if SubmitCheck(v, op).Err? then v
    else v.(active := v.active + {op.id}, pending := v.pending + [op], submitted := v.submitted + 1)
  }

  /** A virtual cancellation is only recorded; the operation stays pending. */
  function CancelCheck(v: Virtual, id: nat): VoidResult {
    if v.stopped then Err(Closed)
    else if id == 0 || !exists i :: 0 <= i < |v.pending| && v.pending[i].id == id then Err(InvalidState)
    else Ok(())
  }

  function Cancel(v: Virtual, id: nat): Virtual {
    if CancelCheck(v, id).Err? then v else v.(cancelled := v.cancelled + 1)
  }

  /** Completes the selected pending operations, in submission order. */
  function CompletePending(v: Virtual, sel: Selector, result: VoidResult): Virtual {
    v.(pending := Unpicked(v.pending, sel),
       completions := v.completions + CompleteAll(Picked(v.pending, sel), result))
  }

  function CloseCheck(v: Virtual, token: Token): VoidResult {
    if v.stopped then Err(Closed) else if !Current(v.registry, token) then Err(InvalidState) else Ok(())
  }

  function CloseToken(v: Virtual, token: Token): Virtual {
    if CloseCheck(v, token).Err? then v
    else CompletePending(v.(registry := ClosedRegistry(v.registry, token)), ByHandle(token), Err(Closed))
  }

  function CompleteReady(v: Virtual, token: Token, readiness: Kind): Virtual {
    if !Current(v.registry, token) then v else CompletePending(v, ByReadiness(token, readiness), Ok(()))
  }

  function DrainCount(v: Virtual, room: nat): nat {
    Min(room, |v.completions|)
  }

  ghost function Drained(v: Virtual, count: nat): Virtual
    requires count <= |v.completions|
  {
    v.(completions := v.completions[count..], active := v.active - CompletedIds(v.completions[..count]))
  }

  function Woken(v: Virtual): Virtual {
    if v.stopped then v else v.(wakeups := v.wakeups + 1)
  }

  function Stopped(v: Virtual): Virtual {
    if v.stopped then v
    else v.(stopped := true, pending := [], completions := v.completions + CloseAll(v.pending))
  }

  /**
   Every active id is in exactly one place, once: pending or completed. Queued
   work is well shaped, and while the backend runs it is on a current handle.
   */
  ghost predicate Inv(v: Virtual) {
    && WellFormed(v.registry)
    && (forall id :: One(id in v.active) == OpCount(v.pending, id) + DoneCount(v.completions, id))
    && (v.stopped ==> v.pending == [])
    && (forall op :: op in v.pending ==> op.id != 0 && IsValidShape(op) && Current(v.registry, op.handle))
  }

  lemma SubmitKeepsInv(v: Virtual, op: Operation)
    requires Inv(v)
    ensures Inv(Submit(v, op))
  {
    if SubmitCheck(v, op).Ok? {
      OpCountAppend(v.pending, op);
    }
  }

  lemma CompletePendingKeepsCounts(v: Virtual, sel: Selector, result: VoidResult)
    ensures var v' := CompletePending(v, sel, result);
            forall id :: OpCount(v'.pending, id) + DoneCount(v'.completions, id)
                         == OpCount(v.pending, id) + DoneCount(v.completions, id)
  {
    PickPartitions(v.pending, sel);
    CompleteAllCount(Picked(v.pending, sel), result);
    DoneCountConcat(v.completions, CompleteAll(Picked(v.pending, sel), result));
  }

  lemma CloseKeepsInv(v: Virtual, token: Token)
    requires Inv(v)
    ensures Inv(CloseToken(v, token))
  {
    if CloseCheck(v, token).Ok? {
      CloseRetires(v.registry, token);
      CompletePendingKeepsCounts(v.(registry := ClosedRegistry(v.registry, token)), ByHandle(token), Err(Closed));
      PickMembers(v.pending, |v.pending|, ByHandle(token));
    }
  }

  lemma CompleteReadyKeepsInv(v: Virtual, token: Token, readiness: Kind)
    requires Inv(v)
    ensures Inv(CompleteReady(v, token, readiness))
  {
    CompletePendingKeepsCounts(v, ByReadiness(token, readiness), Ok(()));
    PickMembers(v.pending, |v.pending|, ByReadiness(token, readiness));
  }

  lemma DrainKeepsInv(v: Virtual, count: nat)
    requires Inv(v) && count <= |v.completions|
    ensures Inv(Drained(v, count))
    ensures forall id :: One(id in v.active) ==
                         One(id in Drained(v, count).active) + DoneCount(v.completions[..count], id)
  {
    var out, rest := v.completions[..count], v.completions[count..];
    assert v.completions == out + rest;
    DoneCountConcat(out, rest);
    EraseIds(v.active, out);
  }

  lemma StopKeepsInv(v: Virtual)
    requires Inv(v)
    ensures Inv(Stopped(v))
  {
    CompleteAllCount(v.pending, Err(Closed));
    DoneCountConcat(v.completions, CloseAll(v.pending));
  }

  // What callers are told

  /** A submission is accepted exactly if all of this holds, and then it is the last pending operation. */
  lemma SubmitAcceptsIff(v: Virtual, op: Operation)
    ensures SubmitCheck(v, op).Ok? <==>
              && !v.stopped && op.id != 0 && op.id !in v.active && Current(v.registry, op.handle)
              && (if op.target == Socket then op.kind in {Read, Write, Accept, Connect} else op.kind in {Read, Write, Fsync})
    ensures var r := SubmitCheck(v, op); r.Err? ==> r == Err(if v.stopped then Closed else InvalidState)
    ensures Submit(v, op).pending == if SubmitCheck(v, op).Ok? then v.pending + [op] else v.pending
  {
  }

  /** A cancellation succeeds exactly for a pending operation of a running backend. */
  lemma CancelAcceptsIff(v: Virtual, id: nat)
    ensures CancelCheck(v, id).Ok? <==> !v.stopped && id != 0 && exists op :: op in v.pending && op.id == id
    ensures var r := CancelCheck(v, id); r.Err? ==> r == Err(if v.stopped then Closed else InvalidState)
  {
    if exists op :: op in v.pending && op.id == id {
      var op :| op in v.pending && op.id == id;
      var i :| 0 <= i < |v.pending| && v.pending[i] == op;
    }
  }

  /** Closing a current token completes exactly its pending work, as closed, and retires the token. */
  lemma CloseMeans(v: Virtual, token: Token)
    requires !v.stopped && Current(v.registry, token)
    ensures var v' := CloseToken(v, token);
            && (forall op :: op in v'.pending <==> op in v.pending && op.handle != token)
            && v'.completions[..|v.completions|] == v.completions
            && |v'.completions| == |v.completions| + |v.pending| - |v'.pending|
            && (forall i :: |v.completions| <= i < |v'.completions| ==> v'.completions[i].result == Err(Closed))
            && !Current(v'.registry, token)
  {
    PickedExactly(v.pending, ByHandle(token));
    PickMembers(v.pending, |v.pending|, ByHandle(token));
  }

  /** Readiness of a current token completes exactly the socket work that it serves, successfully. */
  lemma ReadyMeans(v: Virtual, token: Token, readiness: Kind)
    requires Current(v.registry, token)
    ensures var v' := CompleteReady(v, token, readiness);
            && (forall op :: op in v'.pending <==>
                  op in v.pending
                  && !(op.handle == token && op.target == Socket
                       && ((readiness == Read && op.kind in {Read, Accept})
                           || (readiness == Write && op.kind in {Write, Connect}))))
            && v'.completions[..|v.completions|] == v.completions
            && |v'.completions| == |v.completions| + |v.pending| - |v'.pending|
            && (forall i :: |v.completions| <= i < |v'.completions| ==> v'.completions[i].result == Ok(()))
  {
    var sel := ByReadiness(token, readiness);
    PickedExactly(v.pending, sel);
    PickMembers(v.pending, |v.pending|, sel);
    forall op | op in v.pending
      ensures Selected(sel, op) <==>
                op.handle == token && op.target == Socket
                && ((readiness == Read && op.kind in {Read, Accept}) || (readiness == Write && op.kind in {Write, Connect}))
    {
      SelectedMeans(token, readiness, op);
    }
  }

  /** Stopping completes all pending work as closed, in order. */
  lemma StopMeans(v: Virtual)
    requires !v.stopped
    ensures var v' := Stopped(v);
            && v'.stopped && v'.pending == []
            && |v'.completions| == |v.completions| + |v.pending|
            && v'.completions[..|v.completions|] == v.completions
            && forall i :: 0 <= i < |v.pending| ==>
                 v'.completions[|v.completions| + i] == Completion(v.pending[i].id, Err(Closed), 0, 0)
  {
  }

  class VirtualBackend {
    const registry: NativeHandleRegistry
    var pending: seq<Operation>
    var completions: seq<Completion>
    var active: set<nat>
    var stopped: bool
    var registered: nat
    var submitted: nat
    var cancelled: nat
    var wakeups: nat

    ghost function State(): Virtual
      reads this, registry
    {
      Virtual(registry.entries, pending, completions, active, stopped, registered, submitted, cancelled, wakeups)
    }

    constructor ()
      ensures fresh(registry) && State() == EMPTY_VIRTUAL
    {
      registry := new NativeHandleRegistry();
      pending, completions, active, stopped := [], [], {}, false;
      registered, submitted, cancelled, wakeups := 0, 0, 0, 0;
    }

    predicate IsCurrentHandle(token: Token)
      reads this, registry
    {
      registry.IsCurrent(token)
    }

    method Register(native: nat) returns (r: Result<Token, ErrorCode>)
      modifies this, registry
      ensures (State(), r) == RegisterHandle(old(State()), native)
    {
      if stopped {
        return Err(Closed);
      }
      r := registry.RegisterHandle(native);
      if r.Err? {
        return;
      }
      registered := registered + 1;
    }

    method SubmitOperation(op: Operation) returns (r: VoidResult)
      modifies this
      ensures State() == Submit(old(State()), op) && r == SubmitCheck(old(State()), op)
    {
      if stopped {
        return Err(Closed);
      }
      if op.id == 0 {
        return Err(InvalidState);
      }
      if !IsValidShape(op) {
        return Err(InvalidState);
      }
      if !IsCurrentHandle(op.handle) {
        return Err(InvalidState);
      }
      if op.id in active {
        return Err(InvalidState);
      }
      active := active + {op.id};
      pending := pending + [op];
      submitted := submitted + 1;
      return Ok(());
    }

    method CancelOperation(id: nat) returns (r: VoidResult)
      modifies this
      ensures State() == Cancel(old(State()), id) && r == CancelCheck(old(State()), id)
    {
      if stopped {
        return Err(Closed);
      }
      if id == 0 {
        return Err(InvalidState);
      }
      var found := 0;
      while found < |pending| && pending[found].id != id
        invariant 0 <= found <= |pending|
        invariant forall i :: 0 <= i < found ==> pending[i].id != id
      {
        found := found + 1;
      }
      if found == |pending| {
        return Err(InvalidState);
      }
      cancelled := cancelled + 1;
      return Ok(());
    }

    method CompleteSelected(sel: Selector, result: VoidResult)
      modifies this`pending, this`completions
      ensures State() == CompletePending(old(State()), sel, result)
    {
      ghost var before, done := pending, 0;
      var i := 0;
      while i < |pending|
        invariant 0 <= done <= |before| && 0 <= i <= |pending|
        invariant pending[..i] == UnpickedTo(before, done, sel)
        invariant pending[i..] == before[done..]
        invariant completions == old(completions) + CompleteAll(PickedTo(before, done, sel), result)
        decreases |before| - done
      {
        assert pending[i] == pending[i..][0] == before[done];
        PickStep(before, done, sel, result);
        ErasePosition(pending, i);
        if Selected(sel, pending[i]) {
          completions := completions + [Plain(pending[i].id, result)];
          pending := pending[..i] + pending[i + 1..];
        } else {
          i := i + 1;
        }
        done := done + 1;
      }
      assert pending[..i] == pending;
    }

    method Close(token: Token) returns (r: VoidResult)
      modifies this, registry
      ensures State() == CloseToken(old(State()), token) && r == CloseCheck(old(State()), token)
    {
      if stopped {
        return Err(Closed);
      }
      r := registry.Close(token);
      if r.Err? {
        return;
      }
      CompleteSelected(ByHandle(token), Err(Closed));
    }

    method Ready(token: Token, readiness: Kind) returns (r: VoidResult)
      modifies this`pending, this`completions
      ensures State() == CompleteReady(old(State()), token, readiness)
      ensures r.Ok? <==> Current(registry.entries, token)
    {
      if !IsCurrentHandle(token) {
        return Err(InvalidState);
      }
      CompleteSelected(ByReadiness(token, readiness), Ok(()));
      return Ok(());
    }

    method Poll() returns (available: nat)
      ensures available == |State().completions|
    {
      return |completions|;
    }

    method Drain(room: nat) returns (r: Result<seq<Completion>, ErrorCode>)
      modifies this`completions, this`active
      ensures room == 0 ==> r == Err(InvalidState) && State() == old(State())
      ensures room > 0 ==> r == Ok(old(completions)[..DrainCount(old(State()), room)])
      ensures room > 0 ==> State() == Drained(old(State()), DrainCount(old(State()), room))
    {
      if room == 0 {
        return Err(InvalidState);
      }
      var count := Min(room, |completions|);
      var out := [];
      for index := 0 to count
        invariant out == old(completions)[..index]
        invariant completions == old(completions)[index..]
        invariant active == old(active) - CompletedIds(old(completions)[..index])
      {
        active := active - {completions[0].id};
        out := out + [completions[0]];
        completions := completions[1..];
      }
      return Ok(out);
    }

    method WakeUp() returns (r: VoidResult)
      modifies this`wakeups
      ensures State() == Woken(old(State()))
      ensures r == if stopped then Err(Closed) else Ok(())
    {
      if stopped {
        return Err(Closed);
      }
      wakeups := wakeups + 1;
      return Ok(());
    }

    method Shutdown()
      modifies this
      ensures State() == Stopped(old(State()))
    {
      if stopped {
        return;
      }
      stopped := true;
      ghost var before, done := pending, 0;
      while pending != []
        invariant 0 <= done <= |before| && pending == before[done..]
        invariant completions == old(completions) + CloseAll(before[..done])
        invariant stopped && active == old(active) && registered == old(registered) && submitted == old(submitted)
        invariant cancelled == old(cancelled) && wakeups == old(wakeups)
        decreases |pending|
      {
        completions := completions + [ClosedCompletion(pending[0].id)];
        pending := pending[1..];
        done := done + 1;
      }
      assert before[..done] == before;
    }
  }
}
