/** The waiter records that the semaphore and the mutex share in shape. */
module AsyncWaiters {
  import opened Common

  /**
   One acquire or lock operation. `suspended` means that its continuation and scheduler
   are set, `scheduled` that a job which resumes it is with the scheduler, and
   `ticket` is its place in the order of all enqueued operations, 0 before it joins.
   */
  datatype Waiter = Waiter(
    owned: bool, suspended: bool, result: Option<VoidResult>, enqueued: bool, detached: bool,
    observing: bool, reserved: bool, scheduled: bool, ticket: nat)

  const NEW_WAITER := Waiter(true, false, None, false, false, false, false, false, 0)

  type Waiters = map<nat, Waiter>

  /** The first result stays. */
  function Completed(x: Waiter, result: VoidResult): Waiter {
    if x.result.Some? then x else x.(result := Some(result))
  }

  /** `await_resume`: the operation is over. */
  function Observed(x: Waiter): Waiter {
    x.(observing := true, suspended := false, owned := false, reserved := false)
  }

  predicate IsFresh(x: Waiter) {
    x.owned && !x.suspended && x.result.None? && !x.enqueued && !x.detached && !x.observing && !x.reserved && !x.scheduled
    && x.ticket == 0
  }

  predicate Fresh(ws: Waiters, w: nat) {
    w in ws && IsFresh(ws[w])
  }

  /** The operation object has lost its state: it was observed, or destroyed or moved over. */
  predicate Empty(x: Waiter) {
    x.observing || x.detached
  }

  /** `prepare_waiter_for_resume` succeeds. */
  predicate CanResume(x: Waiter) {
    !x.detached && x.suspended
  }

  predicate QueuedOk(x: Waiter) {
    x.owned && x.suspended && x.result.None? && !x.detached && !x.observing && !x.reserved && !x.scheduled
  }

  /**
   A suspended operation is queued or its resume is with the scheduler: no resume is lost.
   One that is neither suspended nor empty has not been awaited.
   */
  predicate ResumeOk(x: Waiter) {
    && (x.suspended ==> !x.detached && !x.observing && (x.enqueued || x.scheduled))
    && (x.scheduled ==> !x.enqueued && (x.suspended || x.detached))
    && (x.observing ==> x.result.Some? && !x.enqueued)
    && (x.detached ==> !x.enqueued)
    && (!x.suspended && !Empty(x) ==> IsFresh(x))
  }

  predicate QueuedAt(ws: Waiters, w: nat, nextTicket: nat) {
    w in ws && ws[w].enqueued && QueuedOk(ws[w]) && ws[w].ticket < nextTicket
  }

  /** The queue lists the enqueued operations, each once, in ticket order. */
  ghost predicate QueueOk(ws: Waiters, queue: seq<nat>, nextTicket: nat) {
    && (forall i :: 0 <= i < |queue| ==> QueuedAt(ws, queue[i], nextTicket))
    && (forall i, j :: 0 <= i < j < |queue| ==> ws[queue[i]].ticket < ws[queue[j]].ticket)
    && (forall w :: w in ws && ws[w].enqueued ==> w in queue)
  }

  /** The operation has got, or has been promised, what it waits for. */
  predicate IsServed(x: Waiter) {
    x.reserved || x.result == Some(Ok(()))
  }

  /** No operation in the queue is overtaken: whoever joined and was served had joined before it. */
  ghost predicate NoOvertaking(ws: Waiters, queue: seq<nat>, nextTicket: nat) {
    && nextTicket > 0
    && (forall w :: w in ws ==> ws[w].ticket < nextTicket)
    && forall w, j :: w in ws && ws[w].ticket > 0 && IsServed(ws[w]) && 0 <= j < |queue| && queue[j] in ws ==>
         ws[w].ticket < ws[queue[j]].ticket
  }

  /** `co_await` or the resume has handed the operation's success to the caller. */
  predicate Obtained(before: Waiters, after: Waiters, w: nat) {
    w in before && w in after && !before[w].observing && after[w].observing && after[w].result == Some(Ok(()))
  }

  lemma QueueDistinct(ws: Waiters, queue: seq<nat>, nextTicket: nat)
    requires QueueOk(ws, queue, nextTicket)
    ensures NoDuplicates(queue)
  {
  }

  /** Changing an operation that is not queued, and stays so, leaves the queue as it is. */
  lemma OutsideQueue(ws: Waiters, queue: seq<nat>, nextTicket: nat, w: nat, x: Waiter)
    requires QueueOk(ws, queue, nextTicket) && !x.enqueued && w !in queue
    ensures QueueOk(ws[w := x], queue, nextTicket)
  {
    forall i | 0 <= i < |queue|
      ensures queue[i] != w
    {
      assert queue[i] in queue;
    }
  }

  lemma OutsideOrder(ws: Waiters, queue: seq<nat>, nextTicket: nat, w: nat, x: Waiter)
    requires NoOvertaking(ws, queue, nextTicket) && w !in queue
    requires x.ticket == if w in ws then ws[w].ticket else 0
    requires x.ticket > 0 && IsServed(x) ==> IsServed(ws[w])
    ensures NoOvertaking(ws[w := x], queue, nextTicket)
  {
    forall i | 0 <= i < |queue|
      ensures queue[i] != w
    {
      assert queue[i] in queue;
    }
  }

  /** Taking the front out of the queue. */
  lemma PopFront(ws: Waiters, queue: seq<nat>, nextTicket: nat, x: Waiter)
    requires QueueOk(ws, queue, nextTicket) && queue != [] && !x.enqueued
    ensures QueueOk(ws[queue[0] := x], queue[1..], nextTicket) && queue[0] !in queue[1..]
  {
    var w, ws', rest := queue[0], ws[queue[0] := x], queue[1..];
    assert forall i :: 0 <= i < |rest| ==> rest[i] == queue[i + 1] && rest[i] != w;
    forall v | v in ws' && ws'[v].enqueued
      ensures v in rest
    {
      assert v in queue;
    }
  }

  lemma ServeFront(ws: Waiters, queue: seq<nat>, nextTicket: nat, x: Waiter)
    requires QueueOk(ws, queue, nextTicket) && NoOvertaking(ws, queue, nextTicket) && queue != []
    requires queue[0] in ws && x.ticket == ws[queue[0]].ticket
    ensures NoOvertaking(ws[queue[0] := x], queue[1..], nextTicket)
  {
    var rest := queue[1..];
    assert forall i :: 0 <= i < |rest| ==> rest[i] == queue[i + 1] && rest[i] != queue[0];
  }

  /** Joining the queue with the next ticket. */
  lemma PushBack(ws: Waiters, queue: seq<nat>, nextTicket: nat, w: nat, x: Waiter)
    requires QueueOk(ws, queue, nextTicket) && w !in queue && x.enqueued && QueuedOk(x) && x.ticket == nextTicket
    ensures QueueOk(ws[w := x], queue + [w], nextTicket + 1)
  {
    forall i | 0 <= i < |queue|
      ensures queue[i] != w
    {
      assert queue[i] in queue;
    }
    assert (queue + [w])[|queue|] == w;
  }

  lemma OrderPushBack(ws: Waiters, queue: seq<nat>, nextTicket: nat, w: nat, x: Waiter)
    requires NoOvertaking(ws, queue, nextTicket) && w !in queue && x.ticket == nextTicket && !IsServed(x)
    ensures NoOvertaking(ws[w := x], queue + [w], nextTicket + 1)
  {
    forall i | 0 <= i < |queue|
      ensures queue[i] != w
    {
      assert queue[i] in queue;
    }
  }

  /** The place of an operation in the queue, or its length. */
  function Find(queue: seq<nat>, w: nat, i: nat := 0): (r: nat)
    requires i <= |queue|
    ensures i <= r <= |queue| && (r < |queue| ==> queue[r] == w)
    ensures forall j :: i <= j < r ==> queue[j] != w
    decreases |queue| - i
  {
    if i == |queue| || queue[i] == w then i else Find(queue, w, i + 1)
  }

  function Without(queue: seq<nat>, w: nat): seq<nat> {
    var i := Find(queue, w);
    if i < |queue| then queue[..i] + queue[i + 1..] else queue
  }

  /** The place in the queue of what is at place `i` without `w`. */
  function Place(queue: seq<nat>, w: nat, i: nat): nat {
    if i < Find(queue, w) then i else i + 1
  }

  lemma WithoutPlaces(queue: seq<nat>, w: nat)
    requires NoDuplicates(queue) && w in queue
    ensures var q := Without(queue, w);
            && |q| == |queue| - 1
            && (forall i :: 0 <= i < |q| ==> q[i] == queue[Place(queue, w, i)] && q[i] != w)
            && forall v :: v in queue && v != w ==> v in q
  {
    var k, q := Find(queue, w), Without(queue, w);
    forall v | v in queue && v != w
      ensures v in q
    {
      var i :| 0 <= i < |queue| && queue[i] == v;
      assert q[if i < k then i else i - 1] == v;
    }
  }

  /** Leaving the queue from any place. */
  lemma Leave(ws: Waiters, queue: seq<nat>, nextTicket: nat, w: nat, x: Waiter)
    requires QueueOk(ws, queue, nextTicket) && w in queue && !x.enqueued
    ensures QueueOk(ws[w := x], Without(queue, w), nextTicket)
    ensures |Without(queue, w)| == |queue| - 1
  {
    QueueDistinct(ws, queue, nextTicket);
    WithoutPlaces(queue, w);
    var q := Without(queue, w);
    forall i | 0 <= i < |q|
      ensures QueuedAt(ws[w := x], q[i], nextTicket)
    {
      assert QueuedAt(ws, queue[Place(queue, w, i)], nextTicket);
    }
    forall i, j | 0 <= i < j < |q|
      ensures ws[w := x][q[i]].ticket < ws[w := x][q[j]].ticket
    {
      assert Place(queue, w, i) < Place(queue, w, j);
    }
  }

  lemma OrderLeave(ws: Waiters, queue: seq<nat>, nextTicket: nat, w: nat, x: Waiter)
    requires QueueOk(ws, queue, nextTicket) && NoOvertaking(ws, queue, nextTicket) && w in queue
    requires w in ws && x.ticket == ws[w].ticket && !IsServed(x)
    ensures NoOvertaking(ws[w := x], Without(queue, w), nextTicket)
  {
    QueueDistinct(ws, queue, nextTicket);
    WithoutPlaces(queue, w);
  }

  // Taking the first operations out of the queue at once

  /** The first `k` queued operations are changed by `f`. */
  function Taken(ws: Waiters, queue: seq<nat>, k: nat, f: Waiter -> Waiter): (r: Waiters)
    requires k <= |queue|
    ensures r.Keys == ws.Keys
  {
    map w | w in ws :: if w in queue[..k] then f(ws[w]) else ws[w]
  }

  /** Later operations are not among the first `k`, and are unchanged. */
  lemma LaterUntouched(ws: Waiters, queue: seq<nat>, nextTicket: nat, k: nat, f: Waiter -> Waiter, j: nat)
    requires QueueOk(ws, queue, nextTicket) && k <= j < |queue|
    ensures queue[j] in ws && Taken(ws, queue, k, f)[queue[j]] == ws[queue[j]] && QueuedAt(ws, queue[j], nextTicket)
  {
    QueueDistinct(ws, queue, nextTicket);
    assert QueuedAt(ws, queue[j], nextTicket);
  }

  lemma TakenQueue(ws: Waiters, queue: seq<nat>, nextTicket: nat, k: nat, f: Waiter -> Waiter)
    requires QueueOk(ws, queue, nextTicket) && k <= |queue|
    requires forall x :: !f(x).enqueued
    ensures QueueOk(Taken(ws, queue, k, f), queue[k..], nextTicket)
  {
    var ws', rest := Taken(ws, queue, k, f), queue[k..];
    forall i | 0 <= i < |rest|
      ensures QueuedAt(ws', rest[i], nextTicket) && ws'[rest[i]] == ws[rest[i]]
    {
      LaterUntouched(ws, queue, nextTicket, k, f, k + i);
    }
    forall w | w in ws' && ws'[w].enqueued
      ensures w in rest
    {
      assert w !in queue[..k] && w in queue && queue == queue[..k] + rest;
    }
  }

  lemma TakenOrder(ws: Waiters, queue: seq<nat>, nextTicket: nat, k: nat, f: Waiter -> Waiter)
    requires QueueOk(ws, queue, nextTicket) && NoOvertaking(ws, queue, nextTicket) && k <= |queue|
    requires forall x :: f(x).ticket == x.ticket
    ensures NoOvertaking(Taken(ws, queue, k, f), queue[k..], nextTicket)
  {
    var ws', rest := Taken(ws, queue, k, f), queue[k..];
    forall w, j | w in ws' && ws'[w].ticket > 0 && IsServed(ws'[w]) && 0 <= j < |rest| && rest[j] in ws'
      ensures ws'[w].ticket < ws'[rest[j]].ticket
    {
      LaterUntouched(ws, queue, nextTicket, k, f, k + j);
      if w in queue[..k] {
        var i :| 0 <= i < k && queue[i] == w;
        assert ws[queue[i]].ticket < ws[queue[k + j]].ticket;
      }
    }
  }

  /** One more at a time. */
  lemma TakenNext(ws: Waiters, queue: seq<nat>, nextTicket: nat, k: nat, f: Waiter -> Waiter)
    requires QueueOk(ws, queue, nextTicket) && k < |queue|
    ensures queue[k] in ws && QueuedOk(ws[queue[k]]) && Taken(ws, queue, k, f)[queue[k]] == ws[queue[k]]
    ensures Taken(ws, queue, k + 1, f) == Taken(ws, queue, k, f)[queue[k] := f(ws[queue[k]])]
  {
    LaterUntouched(ws, queue, nextTicket, k, f, k);
    assert queue[..k + 1] == queue[..k] + [queue[k]];
  }

  lemma TakenNone(ws: Waiters, queue: seq<nat>, f: Waiter -> Waiter)
    ensures Taken(ws, queue, 0, f) == ws
  {
  }

  /** The ids among the first `k` of the queue. */
  function FirstIds(queue: seq<nat>, k: nat): set<nat>
    requires k <= |queue|
  {
    if k == 0 then {} else FirstIds(queue, k - 1) + {queue[k - 1]}
  }

  lemma {:induction false} FirstIdsMember(queue: seq<nat>, k: nat, w: nat)
    requires k <= |queue|
    ensures w in FirstIds(queue, k) <==> exists i :: 0 <= i < k && queue[i] == w
  {
    if k > 0 {
      FirstIdsMember(queue, k - 1, w);
    }
  }

  lemma FirstIdsPrefix(queue: seq<nat>, k: nat)
    requires k <= |queue|
    ensures forall w :: w in FirstIds(queue, k) <==> w in queue[..k]
  {
    forall w
      ensures w in FirstIds(queue, k) <==> w in queue[..k]
    {
      FirstIdsMember(queue, k, w);
    }
  }

  lemma {:induction false} DistinctCount(queue: seq<nat>, k: nat)
    requires NoDuplicates(queue) && k <= |queue|
    ensures |FirstIds(queue, k)| == k
  {
    if k > 0 {
      DistinctCount(queue, k - 1);
      FirstIdsMember(queue, k - 1, queue[k - 1]);
    }
  }
}
