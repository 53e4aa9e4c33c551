/** Building the scatter/gather chain of a socket call (src/socket.cpp, include/voris/io/detail/socket_io_limits.hpp). */
module IovecChains {
  const LOCAL_CAPACITY: nat := 1024

  /** An entry covers the first `length` bytes of the buffer with index `buffer`. */
  datatype Iovec = Iovec(buffer: nat, length: nat)

  datatype Plan = Plan(count: nat, size: nat)

  predicate PlanFull(plan: Plan, countLimit: nat, sizeLimit: nat) {
    plan.count >= countLimit || plan.size >= sizeLimit
  }

  /** `append_socket_iovec_segment`: the grown plan, and how much of the segment it takes. */
  function Append(plan: Plan, segment: nat, countLimit: nat, sizeLimit: nat): (r: (Plan, nat))
    ensures r.1 <= segment
    ensures r.1 == 0 <==> segment == 0 || PlanFull(plan, countLimit, sizeLimit)
    ensures r.0.size == plan.size + r.1
    ensures r.1 < segment && r.1 != 0 ==> r.0.size == sizeLimit
  {
    if segment == 0 || PlanFull(plan, countLimit, sizeLimit) then (plan, 0)
    else
      var remaining := sizeLimit - plan.size;
      var accepted := if segment < remaining then segment else remaining;
      (Plan(plan.count + 1, plan.size + accepted), accepted)
  }

  /** All bytes of the first `n` buffers, in order. */
  ghost function Bytes(buffers: seq<seq<bv8>>, n: nat): seq<bv8>
    requires n <= |buffers|
  {
    if n == 0 then [] else Bytes(buffers, n - 1) + buffers[n - 1]
  }

  ghost predicate WellFormed(buffers: seq<seq<bv8>>, entries: seq<Iovec>) {
    forall k :: 0 <= k < |entries| ==> entries[k].buffer < |buffers| && 0 < entries[k].length <= |buffers[entries[k].buffer]|
  }

  /** The bytes that the first `n` entries cover, in order. */
  ghost function Covered(buffers: seq<seq<bv8>>, entries: seq<Iovec>, n: nat): seq<bv8>
    requires n <= |entries| && WellFormed(buffers, entries)
  {
    if n == 0 then []
    else Covered(buffers, entries, n - 1) + buffers[entries[n - 1].buffer][..entries[n - 1].length]
  }

  ghost predicate Whole(buffers: seq<seq<bv8>>, e: Iovec) {
    e.buffer < |buffers| && e.length == |buffers[e.buffer]|
  }

  lemma {:induction false} CoveredPrefix(buffers: seq<seq<bv8>>, entries: seq<Iovec>, e: Iovec, n: nat)
    requires n <= |entries| && WellFormed(buffers, entries) && WellFormed(buffers, entries + [e])
    ensures Covered(buffers, entries + [e], n) == Covered(buffers, entries, n)
  {
    if n > 0 {
      CoveredPrefix(buffers, entries, e, n - 1);
    }
  }

  lemma {:induction false} BytesGrow(buffers: seq<seq<bv8>>, m: nat, n: nat)
    requires m <= n <= |buffers|
    ensures Bytes(buffers, m) <= Bytes(buffers, n)
    decreases n
  {
    if m < n {
      BytesGrow(buffers, m, n - 1);
    }
  }

  /** Appending an entry for the next buffer extends the covered bytes by its bytes. */
  lemma CoverNext(buffers: seq<seq<bv8>>, entries: seq<Iovec>, i: nat, length: nat)
    requires i < |buffers| && WellFormed(buffers, entries) && 0 < length <= |buffers[i]|
    requires Covered(buffers, entries, |entries|) == Bytes(buffers, i)
    ensures WellFormed(buffers, entries + [Iovec(i, length)])
    ensures Covered(buffers, entries + [Iovec(i, length)], |entries| + 1) == Bytes(buffers, i) + buffers[i][..length]
    ensures Covered(buffers, entries + [Iovec(i, length)], |entries| + 1) <= Bytes(buffers, i + 1)
  {
    CoveredPrefix(buffers, entries, Iovec(i, length), |entries|);
    var next := Bytes(buffers, i) + buffers[i][..length];
    assert Bytes(buffers, i + 1)[..|next|] == next;
  }

  /** The chain after the first `i` buffers; it is truncated if it ends inside the last one it took. */
  ghost predicate Covers(buffers: seq<seq<bv8>>, entries: seq<Iovec>, plan: Plan, i: nat, truncated: bool, sizeLimit: nat)
    requires i <= |buffers|
  {
    && plan.count == |entries| && WellFormed(buffers, entries)
    && plan.size == |Covered(buffers, entries, |entries|)| <= sizeLimit
    && (if truncated then |entries| > 0 && plan.size == sizeLimit && Covered(buffers, entries, |entries|) <= Bytes(buffers, i)
        else Covered(buffers, entries, |entries|) == Bytes(buffers, i))
    && forall k :: 0 <= k < |entries| && (k < |entries| - 1 || !truncated) ==> Whole(buffers, entries[k])
  }

  lemma SkipEmpty(buffers: seq<seq<bv8>>, entries: seq<Iovec>, plan: Plan, i: nat, truncated: bool, sizeLimit: nat)
    requires i < |buffers| && buffers[i] == [] && Covers(buffers, entries, plan, i, truncated, sizeLimit)
    ensures Covers(buffers, entries, plan, i + 1, truncated, sizeLimit)
  {
    assert Bytes(buffers, i + 1) == Bytes(buffers, i);
  }

  lemma AppendCovers(buffers: seq<seq<bv8>>, entries: seq<Iovec>, plan: Plan, i: nat, countLimit: nat, sizeLimit: nat)
    requires i < |buffers| && buffers[i] != [] && !PlanFull(plan, countLimit, sizeLimit)
    requires Covers(buffers, entries, plan, i, false, sizeLimit)
    ensures var (next, length) := Append(plan, |buffers[i]|, countLimit, sizeLimit);
            Covers(buffers, entries + [Iovec(i, length)], next, i + 1, length < |buffers[i]|, sizeLimit)
  {
    var (next, length) := Append(plan, |buffers[i]|, countLimit, sizeLimit);
    CoverNext(buffers, entries, i, length);
    if length == |buffers[i]| {
      assert buffers[i][..length] == buffers[i];
    }
  }

  /**
   `build_iovec_chain`: the chain covers a prefix of the concatenated buffers. All
   entries but the last are whole buffers, the last is cut only by the size limit,
   and the chain stops early only because the entry count or the size limit is reached.
   */
  method BuildIovecChain(buffers: seq<seq<bv8>>, countLimit: nat, sizeLimit: nat)
    returns (chain: array<Iovec>, plan: Plan)
    requires 0 < countLimit <= LOCAL_CAPACITY
    ensures fresh(chain) && chain.Length == LOCAL_CAPACITY
    ensures plan.count <= countLimit && plan.size <= sizeLimit
    ensures WellFormed(buffers, chain[..plan.count])
    ensures Covered(buffers, chain[..plan.count], plan.count) <= Bytes(buffers, |buffers|)
    ensures plan.size == |Covered(buffers, chain[..plan.count], plan.count)|
    ensures forall k :: 0 <= k < plan.count - 1 ==> Whole(buffers, chain[..plan.count][k])
    ensures plan.count > 0 && !Whole(buffers, chain[plan.count - 1]) ==> plan.size == sizeLimit
    ensures plan.size < |Bytes(buffers, |buffers|)| ==> PlanFull(plan, countLimit, sizeLimit)
  {
    chain := new Iovec[LOCAL_CAPACITY](_ => Iovec(0, 0));
    plan := Plan(0, 0);
    var i: nat := 0;
    ghost var truncated := false;
    while i < |buffers|
      invariant i <= |buffers| && plan.count <= countLimit
      invariant Covers(buffers, chain[..plan.count], plan, i, truncated, sizeLimit)
      decreases |buffers| - i
    {
      ghost var before := chain[..plan.count];
      if buffers[i] == [] {
        SkipEmpty(buffers, before, plan, i, truncated, sizeLimit);
        i := i + 1;
        continue;
      }
      if PlanFull(plan, countLimit, sizeLimit) {
        break;
      }
      AppendCovers(buffers, before, plan, i, countLimit, sizeLimit);
      ghost var length;
      plan, length := AppendEntry(chain, plan, i, |buffers[i]|, countLimit, sizeLimit);
      truncated := length < |buffers[i]|;
      i := i + 1;
    }
    BytesGrow(buffers, i, |buffers|);
  }

  /** Writes the entry that the grown plan has room for behind the others. */
  method AppendEntry(chain: array<Iovec>, plan: Plan, buffer: nat, segment: nat, countLimit: nat, sizeLimit: nat)
    returns (next: Plan, length: nat)
    requires segment > 0 && !PlanFull(plan, countLimit, sizeLimit) && countLimit <= chain.Length
    modifies chain
    ensures (next, length) == Append(plan, segment, countLimit, sizeLimit) && next.count == plan.count + 1
    ensures chain[..next.count] == old(chain[..plan.count]) + [Iovec(buffer, length)]
  {
    var grown := Append(plan, segment, countLimit, sizeLimit);
    next, length := grown.0, grown.1;
    chain[plan.count] := Iovec(buffer, length);
  }
}
