/** Operations, handle tokens and completions (include/voris/io/backend.hpp, src/backend.cpp). */
module Operations {
  import opened Common

  datatype Kind = Read | Write | Accept | Connect | Fsync | CloseHandle | Wake

  datatype Target = Socket | File

  datatype Token = Token(native: nat, generation: nat)

  /** An operation; of its borrowed buffers only the sizes matter to the backends. */
  datatype Operation = Operation(
    id: nat, kind: Kind, target: Target, handle: Token,
    readSize: nat, writeSize: nat, addressSize: nat)

  datatype Completion = Completion(id: nat, result: VoidResult, bytes: nat, acceptedHandle: nat)

  predicate IsSocketOperation(op: Operation) {
    op.target.Socket? && (op.kind.Read? || op.kind.Write? || op.kind.Accept? || op.kind.Connect?)
  }

  predicate IsFileOperation(op: Operation) {
    op.target.File? && (op.kind.Read? || op.kind.Write? || op.kind.Fsync?)
  }

  predicate IsValidShape(op: Operation) {
    IsSocketOperation(op) || IsFileOperation(op)
  }

  /** A completion that only carries a result. */
  function Plain(id: nat, result: VoidResult): Completion {
    Completion(id, result, 0, 0)
  }

  function ClosedCompletion(id: nat): Completion {
    Plain(id, Err(Closed))
  }

  /** Completes every operation of a list with one result, in order. */
  function CompleteAll(ops: seq<Operation>, result: VoidResult): (cs: seq<Completion>)
    ensures |cs| == |ops|
    ensures forall i :: 0 <= i < |cs| ==> cs[i] == Plain(ops[i].id, result)
  {
    seq(|ops|, i requires 0 <= i < |ops| => Plain(ops[i].id, result))
  }

  /** Every operation of a list is told that its handle or backend is closed, in order. */
  function CloseAll(ops: seq<Operation>): (cs: seq<Completion>)
    ensures |cs| == |ops|
    ensures forall i :: 0 <= i < |cs| ==> cs[i] == Completion(ops[i].id, Err(Closed), 0, 0)
  {
    CompleteAll(ops, Err(Closed))
  }

  lemma CompleteAllConcat(a: seq<Operation>, b: seq<Operation>, result: VoidResult)
    ensures CompleteAll(a + b, result) == CompleteAll(a, result) + CompleteAll(b, result)
  {
  }

  // How often an id occurs

  ghost function One(b: bool): nat {
    if b then 1 else 0
  }

  ghost function OpCountTo(ops: seq<Operation>, n: nat, id: nat): nat
    requires n <= |ops|
  {
    if n == 0 then 0 else OpCountTo(ops, n - 1, id) + One(ops[n - 1].id == id)
  }

  ghost function OpCount(ops: seq<Operation>, id: nat): nat {
    OpCountTo(ops, |ops|, id)
  }

  ghost function DoneCountTo(cs: seq<Completion>, n: nat, id: nat): nat
    requires n <= |cs|
  {
    if n == 0 then 0 else DoneCountTo(cs, n - 1, id) + One(cs[n - 1].id == id)
  }

  ghost function DoneCount(cs: seq<Completion>, id: nat): nat {
    DoneCountTo(cs, |cs|, id)
  }

  lemma {:induction false} OpCountToConcat(a: seq<Operation>, b: seq<Operation>, n: nat, id: nat)
    requires n <= |b|
    ensures OpCountTo(a + b, |a| + n, id) == OpCount(a, id) + OpCountTo(b, n, id)
  {
    if n == 0 {
      OpCountToPrefix(a, b, |a|, id);
    } else {
      OpCountToConcat(a, b, n - 1, id);
    }
  }

  lemma {:induction false} OpCountToPrefix(a: seq<Operation>, b: seq<Operation>, n: nat, id: nat)
    requires n <= |a|
    ensures OpCountTo(a + b, n, id) == OpCountTo(a, n, id)
  {
    if n > 0 {
      OpCountToPrefix(a, b, n - 1, id);
    }
  }

  lemma OpCountConcat(a: seq<Operation>, b: seq<Operation>)
    ensures forall id :: OpCount(a + b, id) == OpCount(a, id) + OpCount(b, id)
  {
    forall id {
      OpCountToConcat(a, b, |b|, id);
    }
  }

  lemma OpCountAppend(ops: seq<Operation>, op: Operation)
    ensures forall id :: OpCount(ops + [op], id) == OpCount(ops, id) + One(op.id == id)
  {
    OpCountConcat(ops, [op]);
    assert forall id :: OpCount([op], id) == OpCountTo([op], 0, id) + One(op.id == id);
  }

  /** Removing one position removes that one id. */
  lemma OpCountRemove(ops: seq<Operation>, i: nat)
    requires i < |ops|
    ensures forall id :: OpCount(ops, id) == OpCount(ops[..i] + ops[i + 1..], id) + One(ops[i].id == id)
  {
    var a, b := ops[..i], ops[i + 1..];
    assert ops == (a + [ops[i]]) + b;
    OpCountConcat(a + [ops[i]], b);
    OpCountAppend(a, ops[i]);
    OpCountConcat(a, b);
  }

  lemma {:induction false} OpCountMember(ops: seq<Operation>, n: nat, id: nat)
    requires n <= |ops|
    ensures OpCountTo(ops, n, id) > 0 <==> exists i :: 0 <= i < n && ops[i].id == id
  {
    if n > 0 {
      OpCountMember(ops, n - 1, id);
    }
  }

  lemma {:induction false} DoneCountToPrefix(a: seq<Completion>, b: seq<Completion>, n: nat, id: nat)
    requires n <= |a|
    ensures DoneCountTo(a + b, n, id) == DoneCountTo(a, n, id)
  {
    if n > 0 {
      DoneCountToPrefix(a, b, n - 1, id);
    }
  }

  lemma {:induction false} DoneCountToConcat(a: seq<Completion>, b: seq<Completion>, n: nat, id: nat)
    requires n <= |b|
    ensures DoneCountTo(a + b, |a| + n, id) == DoneCount(a, id) + DoneCountTo(b, n, id)
  {
    if n == 0 {
      DoneCountToPrefix(a, b, |a|, id);
    } else {
      DoneCountToConcat(a, b, n - 1, id);
    }
  }

  lemma DoneCountConcat(a: seq<Completion>, b: seq<Completion>)
    ensures forall id :: DoneCount(a + b, id) == DoneCount(a, id) + DoneCount(b, id)
  {
    forall id {
      DoneCountToConcat(a, b, |b|, id);
    }
  }

  lemma DoneCountAppend(cs: seq<Completion>, c: Completion)
    ensures forall id :: DoneCount(cs + [c], id) == DoneCount(cs, id) + One(c.id == id)
  {
    DoneCountConcat(cs, [c]);
    assert forall id :: DoneCount([c], id) == DoneCountTo([c], 0, id) + One(c.id == id);
  }

  lemma {:induction false} DoneCountMember(cs: seq<Completion>, n: nat, id: nat)
    requires n <= |cs|
    ensures DoneCountTo(cs, n, id) > 0 <==> exists i :: 0 <= i < n && cs[i].id == id
  {
    if n > 0 {
      DoneCountMember(cs, n - 1, id);
    }
  }

  lemma {:induction false} CompleteAllCountTo(ops: seq<Operation>, result: VoidResult, n: nat, id: nat)
    requires n <= |ops|
    ensures DoneCountTo(CompleteAll(ops, result), n, id) == OpCountTo(ops, n, id)
  {
    if n > 0 {
      CompleteAllCountTo(ops, result, n - 1, id);
    }
  }

  lemma CompleteAllCount(ops: seq<Operation>, result: VoidResult)
    ensures forall id :: DoneCount(CompleteAll(ops, result), id) == OpCount(ops, id)
  {
    forall id {
      CompleteAllCountTo(ops, result, |ops|, id);
    }
  }

  ghost function CompletedIds(cs: seq<Completion>): set<nat> {
    set c | c in cs :: c.id
  }

  /** Erasing the ids of drained completions from a set that counts each once subtracts their counts. */
  lemma EraseIds(active: set<nat>, cs: seq<Completion>)
    requires forall id :: DoneCount(cs, id) <= One(id in active)
    ensures forall id :: One(id in active - CompletedIds(cs)) == One(id in active) - DoneCount(cs, id)
  {
    forall id
      ensures id in CompletedIds(cs) <==> DoneCount(cs, id) > 0
    {
      DoneCountMember(cs, |cs|, id);
    }
  }

  // Selecting operations

  /** What `complete_pending` selects: all work on a handle, or the socket work that a readiness event serves. */
  datatype Selector = ByHandle(token: Token) | ByReadiness(token: Token, readiness: Kind)

  predicate Selected(sel: Selector, op: Operation) {
    && op.handle == sel.token
    && (sel.ByReadiness? ==>
          && IsSocketOperation(op)
          && (|| (sel.readiness.Read? && (op.kind.Read? || op.kind.Accept?))
              || (sel.readiness.Write? && (op.kind.Write? || op.kind.Connect?))))
  }

  /** The selected ones among the first `n` operations, in order. */
  function PickedTo(ops: seq<Operation>, n: nat, sel: Selector): seq<Operation>
    requires n <= |ops|
  {
    if n == 0 then [] else PickedTo(ops, n - 1, sel) + if Selected(sel, ops[n - 1]) then [ops[n - 1]] else []
  }

  /** The other ones among the first `n` operations, in order. */
  function UnpickedTo(ops: seq<Operation>, n: nat, sel: Selector): seq<Operation>
    requires n <= |ops|
  {
    if n == 0 then [] else UnpickedTo(ops, n - 1, sel) + if Selected(sel, ops[n - 1]) then [] else [ops[n - 1]]
  }

  function Picked(ops: seq<Operation>, sel: Selector): seq<Operation> {
    PickedTo(ops, |ops|, sel)
  }

  function Unpicked(ops: seq<Operation>, sel: Selector): seq<Operation> {
    UnpickedTo(ops, |ops|, sel)
  }

  lemma PickStep(ops: seq<Operation>, n: nat, sel: Selector, result: VoidResult)
    requires n < |ops|
    ensures Selected(sel, ops[n]) ==>
              && PickedTo(ops, n + 1, sel) == PickedTo(ops, n, sel) + [ops[n]]
              && UnpickedTo(ops, n + 1, sel) == UnpickedTo(ops, n, sel)
              && CompleteAll(PickedTo(ops, n + 1, sel), result)
                 == CompleteAll(PickedTo(ops, n, sel), result) + [Plain(ops[n].id, result)]
    ensures !Selected(sel, ops[n]) ==>
              && PickedTo(ops, n + 1, sel) == PickedTo(ops, n, sel)
              && UnpickedTo(ops, n + 1, sel) == UnpickedTo(ops, n, sel) + [ops[n]]
  {
    CompleteAllConcat(PickedTo(ops, n, sel), [ops[n]], result);
  }

  /** Erasing position `i` of a list leaves what is before it and what is after it. */
  lemma ErasePosition(list: seq<Operation>, i: nat)
    requires i < |list|
    ensures var list' := list[..i] + list[i + 1..];
            list'[..i] == list[..i] && list'[i..] == list[i + 1..] == list[i..][1..]
    ensures list[..i + 1] == list[..i] + [list[i]] && list[i + 1..] == list[i..][1..]
  {
  }

  lemma {:induction false} PickMembers(ops: seq<Operation>, n: nat, sel: Selector)
    requires n <= |ops|
    ensures forall op :: op in PickedTo(ops, n, sel) ==> Selected(sel, op) && op in ops
    ensures forall op :: op in UnpickedTo(ops, n, sel) ==> !Selected(sel, op) && op in ops
    ensures |PickedTo(ops, n, sel)| + |UnpickedTo(ops, n, sel)| == n
  {
    if n > 0 {
      PickMembers(ops, n - 1, sel);
    }
  }

  /** Nothing that is selected is left behind. */
  lemma {:induction false} PickComplete(ops: seq<Operation>, n: nat, sel: Selector, i: nat)
    requires i < n <= |ops|
    ensures if Selected(sel, ops[i]) then ops[i] in PickedTo(ops, n, sel) else ops[i] in UnpickedTo(ops, n, sel)
  {
    if i < n - 1 {
      PickComplete(ops, n - 1, sel, i);
    }
  }

  /** What a selector stands for: everything on a handle, or what a readable or writable socket can serve. */
  lemma SelectedMeans(token: Token, readiness: Kind, op: Operation)
    ensures Selected(ByHandle(token), op) <==> op.handle == token
    ensures Selected(ByReadiness(token, readiness), op) <==>
              && op.handle == token && op.target == Socket
              && (|| (readiness == Read && op.kind in {Read, Accept})
                  || (readiness == Write && op.kind in {Write, Connect}))
  {
  }

  /** Picking splits a list by what is selected, keeping every element on its side. */
  lemma PickedExactly(ops: seq<Operation>, sel: Selector)
    ensures forall op :: op in Picked(ops, sel) <==> op in ops && Selected(sel, op)
    ensures forall op :: op in Unpicked(ops, sel) <==> op in ops && !Selected(sel, op)
  {
    PickMembers(ops, |ops|, sel);
    forall op | op in ops
      ensures if Selected(sel, op) then op in Picked(ops, sel) else op in Unpicked(ops, sel)
    {
      var i :| 0 <= i < |ops| && ops[i] == op;
      PickComplete(ops, |ops|, sel, i);
    }
  }

  /** What is picked, and what is left, keeps its order: both are at increasing places of the list. */
  lemma {:induction false} PickedPlaces(ops: seq<Operation>, n: nat, sel: Selector) returns (picked: seq<nat>, left: seq<nat>)
    requires n <= |ops|
    ensures PlacedIn(PickedTo(ops, n, sel), ops[..n], picked) && PlacedIn(UnpickedTo(ops, n, sel), ops[..n], left)
  {
    if n == 0 {
      return [], [];
    }
    picked, left := PickedPlaces(ops, n - 1, sel);
    PrefixNext(ops, n - 1);
    if Selected(sel, ops[n - 1]) {
      PlaceNext(PickedTo(ops, n - 1, sel), ops[..n - 1], picked, ops[n - 1]);
      picked := picked + [n - 1];
      assert UnpickedTo(ops, n, sel) == UnpickedTo(ops, n - 1, sel);
    } else {
      PlaceNext(UnpickedTo(ops, n - 1, sel), ops[..n - 1], left, ops[n - 1]);
      left := left + [n - 1];
      assert PickedTo(ops, n, sel) == PickedTo(ops, n - 1, sel);
    }
  }

  lemma PlaceNext(part: seq<Operation>, whole: seq<Operation>, places: seq<nat>, op: Operation)
    requires PlacedIn(part, whole, places)
    ensures PlacedIn(part + [op], whole + [op], places + [|whole|]) && PlacedIn(part, whole + [op], places)
  {
  }

  /** The elements of `part` are those of `whole` at these places, in order. */
  ghost predicate PlacedIn(part: seq<Operation>, whole: seq<Operation>, places: seq<nat>) {
    && |places| == |part|
    && (forall k :: 0 <= k < |part| ==> places[k] < |whole| && part[k] == whole[places[k]])
    && (forall j, k :: 0 <= j < k < |part| ==> places[j] < places[k])
  }

  lemma {:induction false} PickPrefix(a: seq<Operation>, b: seq<Operation>, n: nat, sel: Selector)
    requires n <= |a|
    ensures PickedTo(a + b, n, sel) == PickedTo(a, n, sel)
    ensures UnpickedTo(a + b, n, sel) == UnpickedTo(a, n, sel)
  {
    if n > 0 {
      PickPrefix(a, b, n - 1, sel);
    }
  }

  lemma {:induction false} PickConcatTo(a: seq<Operation>, b: seq<Operation>, n: nat, sel: Selector)
    requires n <= |b|
    ensures PickedTo(a + b, |a| + n, sel) == Picked(a, sel) + PickedTo(b, n, sel)
    ensures UnpickedTo(a + b, |a| + n, sel) == Unpicked(a, sel) + UnpickedTo(b, n, sel)
  {
    if n == 0 {
      PickPrefix(a, b, |a|, sel);
    } else {
      PickConcatTo(a, b, n - 1, sel);
      assert (a + b)[|a| + n - 1] == b[n - 1];
    }
  }

  lemma PickConcat(a: seq<Operation>, b: seq<Operation>, sel: Selector)
    ensures Picked(a + b, sel) == Picked(a, sel) + Picked(b, sel)
    ensures Unpicked(a + b, sel) == Unpicked(a, sel) + Unpicked(b, sel)
  {
    PickConcatTo(a, b, |b|, sel);
  }

  lemma {:induction false} PickCountTo(ops: seq<Operation>, n: nat, sel: Selector, id: nat)
    requires n <= |ops|
    ensures OpCountTo(ops, n, id) == OpCount(PickedTo(ops, n, sel), id) + OpCount(UnpickedTo(ops, n, sel), id)
  {
    if n > 0 {
      PickCountTo(ops, n - 1, sel, id);
      if Selected(sel, ops[n - 1]) {
        OpCountAppend(PickedTo(ops, n - 1, sel), ops[n - 1]);
        assert UnpickedTo(ops, n, sel) == UnpickedTo(ops, n - 1, sel);
      } else {
        OpCountAppend(UnpickedTo(ops, n - 1, sel), ops[n - 1]);
        assert PickedTo(ops, n, sel) == PickedTo(ops, n - 1, sel);
      }
    }
  }

  /** Splitting by a selector keeps every operation once and loses none. */
  lemma PickPartitions(ops: seq<Operation>, sel: Selector)
    ensures forall id :: OpCount(ops, id) == OpCount(Picked(ops, sel), id) + OpCount(Unpicked(ops, sel), id)
  {
    forall id {
      PickCountTo(ops, |ops|, sel, id);
    }
  }

  lemma {:induction false} PickAllTo(ops: seq<Operation>, n: nat, sel: Selector)
    requires n <= |ops| && forall i :: 0 <= i < n ==> Selected(sel, ops[i])
    ensures PickedTo(ops, n, sel) == ops[..n] && UnpickedTo(ops, n, sel) == []
  {
    if n > 0 {
      PickAllTo(ops, n - 1, sel);
    }
  }

  lemma {:induction false} PickNoneTo(ops: seq<Operation>, n: nat, sel: Selector)
    requires n <= |ops| && forall i :: 0 <= i < n ==> !Selected(sel, ops[i])
    ensures UnpickedTo(ops, n, sel) == ops[..n] && PickedTo(ops, n, sel) == []
  {
    if n > 0 {
      PickNoneTo(ops, n - 1, sel);
    }
  }
}
