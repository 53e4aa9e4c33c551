/**
 The shared submission ring of the io_uring backend: wrapping 32-bit positions,
 the deque of entries the kernel has not taken yet, and what happens to them when
 entering the kernel fails (src/backends_io_uring_backend.cpp).
 */
module KernelRings {
  import opened Common
  import opened Operations
  import opened HandleRegistry
  import opened UringSpec

  const TWO32: nat := 0x1_0000_0000

  datatype Pending = PendingOperation(id: nat) | PendingCancel(id: nat)

  // User data

  /** `encode_operation_user_data`: ids that would carry the cancel tag are rejected. */
  function EncodeOperation(id: nat): Result<nat, ErrorCode> {
    if id >= CANCEL_TAG then Err(InvalidState) else Ok(id)
  }

  function EncodeCancel(id: nat): Result<nat, ErrorCode> {
    if EncodeOperation(id).Err? then EncodeOperation(id) else Ok(id + CANCEL_TAG)
  }

  function Decode(userData: nat): (CqeKind, nat) {
    (if userData >= CANCEL_TAG then CancelAck else OperationDone, userData % CANCEL_TAG)
  }

  /** Operation and cancel entries of one id decode back to themselves and are never confused. */
  lemma UserDataRoundTrip(id: nat)
    ensures EncodeOperation(id).Ok? <==> id < CANCEL_TAG
    ensures EncodeOperation(id).Ok? ==>
              && EncodeCancel(id).Ok?
              && Decode(EncodeOperation(id).value) == (OperationDone, id)
              && Decode(EncodeCancel(id).value) == (CancelAck, id)
              && EncodeCancel(id).value < 2 * CANCEL_TAG
  {
  }

  // Wrapping arithmetic

  type Word = x: int | 0 <= x < 0x1_0000_0000

  /** Unsigned 32-bit addition. */
  function Add32(a: Word, b: Word): Word {
    if a + b < TWO32 then a + b else a + b - TWO32
  }

  /** Unsigned 32-bit subtraction. */
  function Sub32(a: Word, b: Word): Word {
    if a >= b then a - b else a - b + TWO32
  }

  /** The position masked to the ring size: its remainder, by repeated subtraction. */
  function Slot(position: nat, entries: nat): (r: nat)
    requires entries > 0
    ensures r < entries
  {
    if position < entries then position else Slot(position - entries, entries)
  }

  lemma {:induction false} SlotIsRemainder(q: nat, r: nat, entries: nat)
    requires r < entries
    ensures Slot(entries * q + r, entries) == r
    decreases q
  {
    if q > 0 {
      assert entries * q + r == entries * (q - 1) + r + entries;
      SlotIsRemainder(q - 1, r, entries);
    }
  }

  /** A multiple of the ring size does not change the slot. */
  lemma {:induction false} SlotOfMultiple(x: nat, r: nat, entries: nat)
    requires entries > 0 && Slot(x, entries) == 0
    ensures Slot(x + r, entries) == Slot(r, entries)
    decreases x
  {
    if x >= entries {
      SlotOfMultiple(x - entries, r, entries);
    }
  }

  /** Positions less than a ring apart use different slots. */
  lemma {:induction false} SlotsDiffer(x: nat, d: nat, entries: nat)
    requires 0 < d < entries
    ensures Slot(x + d, entries) != Slot(x, entries)
    decreases x
  {
    if x >= entries {
      SlotsDiffer(x - entries, d, entries);
    }
  }

  /** A ring size that divides the range of positions, as every power of two in that range does. */
  predicate RingSize(entries: nat) {
    0 < entries <= TWO32 / 2 && Slot(TWO32, entries) == 0
  }

  lemma DivisorsAreRingSizes(entries: nat, q: nat)
    requires 0 < entries <= TWO32 / 2 && entries * q == TWO32
    ensures RingSize(entries)
  {
    SlotIsRemainder(q, 0, entries);
  }

  /** The slot that is `i` entries after a position. */
  function SlotAfter(position: nat, i: nat, entries: nat): (r: nat)
    requires entries > 0
    ensures r < entries
  {
    Slot(position + i, entries)
  }

  /** Wrapping a position does not change the slots reached from it. */
  lemma SlotAfterWrapped(x: Word, n: Word, i: nat, entries: nat)
    requires RingSize(entries)
    ensures SlotAfter(Add32(x, n), i, entries) == SlotAfter(x, n + i, entries)
  {
    if x + n >= TWO32 {
      SlotOfMultiple(TWO32, x + n - TWO32 + i, entries);
    }
  }

  datatype EnterResult = Entered(count: nat) | EnterFailed(error: ErrorCode)

  class KernelRing {
    const entries: nat
    var head: Word
    var tail: Word
    var pendingSubmissions: nat
    var slots: seq<Pending>
    /** What the kernel has read from the slots, in order. */
    ghost var taken: seq<Pending>

    ghost predicate Valid()
      reads this
    {
      && RingSize(entries) && |slots| == entries
      && pendingSubmissions == Sub32(tail, head) <= entries
    }

    /** The slots between head and tail hold exactly `pending`, in order. */
    ghost predicate Holds(pending: seq<Pending>)
      requires Valid()
      reads this
    {
      && |pending| == pendingSubmissions
      && forall i :: 0 <= i < |pending| ==> slots[SlotAfter(head, i, entries)] == pending[i]
    }

    constructor (entries: nat, head: Word)
      requires RingSize(entries)
      ensures Valid() && Holds([]) && this.entries == entries && taken == []
    {
      this.entries := entries;
      this.head, tail, pendingSubmissions := head, head, 0;
      slots := seq(entries, _ => PendingOperation(0));
      taken := [];
    }

    /** `reserve_sqe` and `publish_sqe`: nothing is published when the ring is full. */
    method Publish(entry: Pending, ghost pending: seq<Pending>) returns (ok: bool)
      requires Valid() && Holds(pending)
      modifies this`slots, this`tail, this`pendingSubmissions
      ensures Valid() && Holds(if ok then pending + [entry] else pending)
      ensures ok <==> |pending| < entries
    {
      if Sub32(tail, head) >= entries {
        return false;
      }
      var index := Slot(tail, entries);
      PublishSlot(pending);
      ghost var before := slots;
      slots := slots[index := entry];
      forall i | 0 <= i <= |pending|
        ensures slots[SlotAfter(head, i, entries)] == (pending + [entry])[i]
      {
        if i < |pending| {
          assert SlotAfter(head, i, entries) != index && before[SlotAfter(head, i, entries)] == pending[i];
        }
      }
      tail := Add32(tail, 1);
      pendingSubmissions := pendingSubmissions + 1;
      return true;
    }

    /** The tail's slot is the one after the pending entries, and none of theirs. */
    lemma PublishSlot(pending: seq<Pending>)
      requires Valid() && Holds(pending) && |pending| < entries
      ensures Slot(tail, entries) == SlotAfter(head, |pending|, entries)
      ensures forall i :: 0 <= i < |pending| ==> SlotAfter(head, i, entries) != Slot(tail, entries)
      ensures Sub32(Add32(tail, 1), head) == |pending| + 1
    {
      SlotAfterWrapped(head, |pending|, 0, entries);
      assert tail == Add32(head, |pending|);
      forall i | 0 <= i < |pending|
        ensures SlotAfter(head, i, entries) != SlotAfter(head, |pending|, entries)
      {
        SlotsDiffer(head + i, |pending| - i, entries);
      }
    }

    /**
     `submit_pending_once`: the kernel takes some entries from the head and reports
     how many, or the call fails. Retries of interrupted calls are one call here.
     */
    method SubmitPendingOnce(ghost pending: seq<Pending>) returns (r: EnterResult)
      requires Valid() && Holds(pending) && pendingSubmissions != 0
      modifies this`head, this`pendingSubmissions, this`taken
      ensures Valid()
      ensures r.Entered? ==>
                0 < r.count <= |pending| && Holds(pending[r.count..]) && taken == old(taken) + pending[..r.count]
      ensures r.EnterFailed? ==> Holds(pending) && taken == old(taken)
    {
      var failed: bool := *;
      if failed {
        var code: int := *;
        return EnterFailed(BackendFailure(code));
      }
      var count: nat :| 0 < count <= pendingSubmissions;
      ghost var ring, from, size := slots, head, entries;
      ghost var read := seq(count, i requires 0 <= i < count => ring[SlotAfter(from, i, size)]);
      assert read == pending[..count];
      taken := taken + read;
      forall i | 0 <= i < |pending| - count
        ensures slots[SlotAfter(Add32(head, count), i, entries)] == pending[count..][i]
      {
        SlotAfterWrapped(head, count, i, entries);
      }
      head := Add32(head, count);
      pendingSubmissions := if count >= pendingSubmissions then 0 else pendingSubmissions - count;
      return Entered(count);
    }

    /** `drop_pending_submissions`: the unsubmitted tail becomes invisible. */
    method DropPending()
      requires Valid()
      modifies this`tail, this`pendingSubmissions
      ensures Valid() && Holds([]) && tail == head
    {
      if pendingSubmissions == 0 {
        return;
      }
      tail := Sub32(tail, pendingSubmissions);
      pendingSubmissions := 0;
    }
  }

  // Entries the kernel never took

  function CompleteOne(u: Uring, entry: Pending, error: ErrorCode): Uring {
    match entry
    case PendingCancel(id) =>
      u.(cancelIds := u.cancelIds - {id},
         kernelOps := if id in u.kernelOps then u.kernelOps[id := Rearmed(u.kernelOps[id])] else u.kernelOps)
    case PendingOperation(id) =>
      if id !in u.kernelOps then u
      else u.(kernelOps := u.kernelOps - {id},
              completions := u.completions + [Plain(id, UnsubmittedResult(u, u.kernelOps[id], error))])
  }

  /** The cancel request may be made again. */
  function Rearmed(k: KernelOperation): KernelOperation {
    k.(cancelSubmitted := false, cancelInFlight := false)
  }

  /** The effect of `complete_unsubmitted_kernel_submissions` on the first `n` of the entries it takes. */
  function CompleteFirst(u: Uring, entries: seq<Pending>, n: nat, error: ErrorCode): Uring
    requires n <= |entries|
  {
    if n == 0 then u else CompleteOne(CompleteFirst(u, entries, n - 1, error), entries[n - 1], error)
  }

  function CompleteUnsubmitted(u: Uring, entries: seq<Pending>, error: ErrorCode): Uring {
    CompleteFirst(u, entries, |entries|, error)
  }

  ghost predicate Mentions(entries: seq<Pending>, n: nat, entry: Pending)
    requires n <= |entries|
  {
    exists i :: 0 <= i < n && entries[i] == entry
  }

  /** What a failed enter does to one id: everything about it, from whether its entries were left over. */
  ghost predicate SettledId(u: Uring, u': Uring, operation: bool, cancel: bool, id: nat) {
    && (id in u'.kernelOps <==> id in u.kernelOps && !operation)
    && (id in u'.kernelOps ==>
          u'.kernelOps[id] == if cancel then u.kernelOps[id].(cancelSubmitted := false, cancelInFlight := false)
                              else u.kernelOps[id])
    && (id in u'.cancelIds <==> id in u.cancelIds && !cancel)
    && DoneCount(u'.completions, id) == DoneCount(u.completions, id) + One(operation && id in u.kernelOps)
  }

  lemma {:induction false} CompleteFirstExactly(u: Uring, entries: seq<Pending>, n: nat, error: ErrorCode)
    requires n <= |entries|
    ensures var u' := CompleteFirst(u, entries, n, error);
            && u' == u.(kernelOps := u'.kernelOps, cancelIds := u'.cancelIds, completions := u'.completions)
            && forall id :: SettledId(u, u', Mentions(entries, n, PendingOperation(id)),
                                      Mentions(entries, n, PendingCancel(id)), id)
  {
    if n > 0 {
      CompleteFirstExactly(u, entries, n - 1, error);
      var before, entry := CompleteFirst(u, entries, n - 1, error), entries[n - 1];
      forall id
        ensures SettledId(u, CompleteOne(before, entry, error), Mentions(entries, n, PendingOperation(id)),
                          Mentions(entries, n, PendingCancel(id)), id)
      {
        MentionsNext(entries, n, PendingOperation(id));
        MentionsNext(entries, n, PendingCancel(id));
        assert SettledId(u, before, Mentions(entries, n - 1, PendingOperation(id)),
                         Mentions(entries, n - 1, PendingCancel(id)), id);
        CompleteOneSettles(u, before, entry, error, Mentions(entries, n - 1, PendingOperation(id)),
                           Mentions(entries, n - 1, PendingCancel(id)), id);
      }
    }
  }

  lemma MentionsNext(entries: seq<Pending>, n: nat, entry: Pending)
    requires 0 < n <= |entries|
    ensures Mentions(entries, n, entry) <==> Mentions(entries, n - 1, entry) || entries[n - 1] == entry
  {
  }

  lemma CompleteOneSettles(u: Uring, before: Uring, entry: Pending, error: ErrorCode, operation: bool, cancel: bool, id: nat)
    requires SettledId(u, before, operation, cancel, id)
    ensures SettledId(u, CompleteOne(before, entry, error), operation || entry == PendingOperation(id),
                      cancel || entry == PendingCancel(id), id)
  {
    if entry.PendingOperation? && entry.id in before.kernelOps {
      DoneCountAppend(before.completions, Plain(entry.id, UnsubmittedResult(before, before.kernelOps[entry.id], error)));
    }
  }

  /**
   What a left-over operation is told: never success; its own cancellation if it has one;
   closed if it has none and the backend, its mark or its handle says so; else the error.
   */
  ghost predicate ToldLeftOver(u: Uring, k: KernelOperation, error: ErrorCode, c: Completion) {
    && c.result.Err? && c.bytes == 0 && c.acceptedHandle == 0
    && (k.cancellation.Some? ==> c.result.error == Cancelled(k.cancellation.value))
    && (k.cancellation.None? && (u.closed || k.closeRequested || !Current(u.fallback.registry, k.op.handle)) ==>
          c.result.error == Closed)
    && (k.cancellation.None? && !u.closed && !k.closeRequested && Current(u.fallback.registry, k.op.handle) ==>
          c.result.error == error)
  }

  /** For an error of the enter call itself, what is told tells the three cases apart. */
  lemma ToldApart(u: Uring, k: KernelOperation, error: ErrorCode, c: Completion)
    requires ToldLeftOver(u, k, error, c) && !error.Closed? && !error.Cancelled?
    ensures forall r :: c.result == Err(Cancelled(r)) <==> k.cancellation == Some(r)
    ensures c.result == Err(Closed) <==>
              k.cancellation.None? && (u.closed || k.closeRequested || !Current(u.fallback.registry, k.op.handle))
  {
  }

  /** Every completion from place `from` on is told to an operation that the bookkeeping had, as left over. */
  ghost predicate TellsFrom(u: Uring, cs: seq<Completion>, from: nat, error: ErrorCode) {
    forall i :: from <= i < |cs| ==> cs[i].id in u.kernelOps && ToldLeftOver(u, u.kernelOps[cs[i].id], error, cs[i])
  }

  lemma CompleteOneTells(u: Uring, before: Uring, entry: Pending, error: ErrorCode)
    requires before.closed == u.closed && before.fallback == u.fallback
    requires entry.id in before.kernelOps ==>
               && entry.id in u.kernelOps && before.kernelOps[entry.id].op == u.kernelOps[entry.id].op
               && before.kernelOps[entry.id].cancellation == u.kernelOps[entry.id].cancellation
               && before.kernelOps[entry.id].closeRequested == u.kernelOps[entry.id].closeRequested
    ensures var cs := CompleteOne(before, entry, error).completions;
            || cs == before.completions
            || (&& |cs| == |before.completions| + 1 && cs[..|before.completions|] == before.completions
                && TellsFrom(u, cs, |before.completions|, error))
  {
  }

  lemma {:induction false} CompleteFirstTells(u: Uring, entries: seq<Pending>, n: nat, error: ErrorCode)
    requires n <= |entries|
    ensures var u' := CompleteFirst(u, entries, n, error);
            && |u.completions| <= |u'.completions| && u'.completions[..|u.completions|] == u.completions
            && TellsFrom(u, u'.completions, |u.completions|, error)
  {
    if n > 0 {
      CompleteFirstTells(u, entries, n - 1, error);
      CompleteFirstExactly(u, entries, n - 1, error);
      var before, id := CompleteFirst(u, entries, n - 1, error), entries[n - 1].id;
      assert SettledId(u, before, Mentions(entries, n - 1, PendingOperation(id)), Mentions(entries, n - 1, PendingCancel(id)), id);
      CompleteOneTells(u, before, entries[n - 1], error);
      TellsMore(u, before.completions, CompleteFirst(u, entries, n, error).completions, error);
    }
  }

  lemma TellsMore(u: Uring, cs: seq<Completion>, cs': seq<Completion>, error: ErrorCode)
    requires |u.completions| <= |cs| && cs[..|u.completions|] == u.completions && TellsFrom(u, cs, |u.completions|, error)
    requires |cs| <= |cs'| && cs'[..|cs|] == cs && TellsFrom(u, cs', |cs|, error)
    ensures cs'[..|u.completions|] == u.completions && TellsFrom(u, cs', |u.completions|, error)
  {
    forall i | |u.completions| <= i < |cs|
      ensures cs'[i] == cs[i]
    {
      assert cs'[..|cs|][i] == cs[i];
    }
    assert cs'[..|u.completions|] == cs'[..|cs|][..|u.completions|];
  }

  /**
   A failed enter completes each unsubmitted operation once, with what a left-over
   operation is told, makes each unsubmitted cancel request possible again, and leaves
   every other operation, cancel and completion as it was.
   */
  lemma FailedEnterSettlesExactly(u: Uring, entries: seq<Pending>, error: ErrorCode)
    ensures var u' := CompleteUnsubmitted(u, entries, error);
            && u' == u.(kernelOps := u'.kernelOps, cancelIds := u'.cancelIds, completions := u'.completions)
            && (forall id :: SettledId(u, u', PendingOperation(id) in entries, PendingCancel(id) in entries, id))
            && |u.completions| <= |u'.completions| && u'.completions[..|u.completions|] == u.completions
            && TellsFrom(u, u'.completions, |u.completions|, error)
  {
    CompleteFirstExactly(u, entries, |entries|, error);
    CompleteFirstTells(u, entries, |entries|, error);
    var u' := CompleteUnsubmitted(u, entries, error);
    forall id
      ensures SettledId(u, u', PendingOperation(id) in entries, PendingCancel(id) in entries, id)
    {
      assert Mentions(entries, |entries|, PendingOperation(id)) <==> PendingOperation(id) in entries;
      assert Mentions(entries, |entries|, PendingCancel(id)) <==> PendingCancel(id) in entries;
    }
  }
}
