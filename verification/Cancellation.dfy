/**
 Cancellation callbacks (src/cancellation.cpp). Each section under the state's mutex
 and each call of a callback is one step, so registrations, unregistrations and
 requests interleave in any order, also from inside callbacks.
 */
module Cancellations {
  import opened Common

  /** `runs` lists the reasons that the callback was called with. */
  datatype Slot = Slot(registered: bool, runs: seq<CancellationReason>)

  /**
   `snapshot` are the callbacks that the winning request still has to run, `late` those
   whose registration was answered with a reason and that are about to run with it, and
   `removed` those that were unregistered before any request.
   */
  datatype Cancellation = Cancellation(
    reason: Option<CancellationReason>, callbacks: seq<nat>, slots: map<nat, Slot>, snapshot: seq<nat>,
    late: map<nat, CancellationReason>, removed: set<nat>)

  const INITIAL := Cancellation(None, [], map[], [], map[], {})

  datatype Event =
    | Register(slot: nat)
    | Unregister(slot: nat)
    | Request(requested: CancellationReason)
    | RunNext
    | RunLate(slot: nat)

  predicate Possible(s: Cancellation, e: Event) {
    match e
    case Register(slot) => slot !in s.slots
    case Unregister(slot) => slot in s.slots
    case RunNext => s.snapshot != [] && s.reason.Some?
    case RunLate(slot) => slot in s.late
    case Request(_) => true
  }

  /** The slot joins the list, or the callback is to be called at once with the reason in the answer. */
  function RegisterStep(s: Cancellation, slot: nat): (Cancellation, Option<CancellationReason>) {
    if s.reason.None? then (s.(callbacks := s.callbacks + [slot], slots := s.slots[slot := Slot(true, [])]), None)
    else (s.(slots := s.slots[slot := Slot(false, [])]), s.reason)
  }

  /** The list without a slot, as `std::remove` leaves it. */
  function Without(callbacks: seq<nat>, slot: nat): (r: seq<nat>)
    ensures forall x :: x in r <==> x in callbacks && x != slot
  {
    if callbacks == [] then []
    else
      var rest := Without(callbacks[1..], slot);
      assert callbacks == [callbacks[0]] + callbacks[1..];
      if callbacks[0] == slot then rest else [callbacks[0]] + rest
  }

  function UnregisterStep(s: Cancellation, slot: nat): Cancellation
    requires slot in s.slots
  {
    if !s.slots[slot].registered then s
    else s.(callbacks := Without(s.callbacks, slot),
            slots := s.slots[slot := s.slots[slot].(registered := false)])
  }

  /** The callbacks that a winning request takes: the registered ones, in order. */
  function Registered(s: Cancellation, n: nat): (r: seq<nat>)
    requires n <= |s.callbacks|
    ensures forall x :: x in r ==> x in s.slots && s.slots[x].registered && x in s.callbacks[..n]
  {
    if n == 0 then []
    else
      var x := s.callbacks[n - 1];
      var rest := Registered(s, n - 1);
      assert s.callbacks[..n] == s.callbacks[..n - 1] + [x];
      if x in s.slots && s.slots[x].registered then rest + [x] else rest
  }

  /** The slots after the request cleared the mark of the ones it took. */
  function Selected(s: Cancellation, taken: seq<nat>): map<nat, Slot> {
    map x | x in s.slots :: if x in taken then s.slots[x].(registered := false) else s.slots[x]
  }

  /** Only the first request wins. */
  function RequestStep(s: Cancellation, requested: CancellationReason): (Cancellation, bool) {
    if s.reason.Some? then (s, false)
    else
      var taken := Registered(s, |s.callbacks|);
      (s.(reason := Some(requested), callbacks := [], slots := Selected(s, taken), snapshot := taken), true)
  }

  function Called(slots: map<nat, Slot>, slot: nat, reason: CancellationReason): map<nat, Slot> {
    if slot in slots then slots[slot := slots[slot].(runs := slots[slot].runs + [reason])] else slots
  }

  /** What the code does under the lock, and the calls that follow from its answers. */
  function Step(s: Cancellation, e: Event): Cancellation
    requires Possible(s, e)
  {
    match e
    case Register(slot) =>
      var (s', immediate) := RegisterStep(s, slot);
      if immediate.Some? then s'.(late := s'.late[slot := immediate.value]) else s'
    case Unregister(slot) => UnregisterStep(s, slot).(removed := if s.reason.None? then s.removed + {slot} else s.removed)
    case Request(requested) => RequestStep(s, requested).0
    case RunNext => s.(snapshot := s.snapshot[1..], slots := Called(s.slots, s.snapshot[0], s.reason.value))
    case RunLate(slot) => s.(late := s.late - {slot}, slots := Called(s.slots, slot, s.late[slot]))
  }

  ghost predicate PossibleRun(s: Cancellation, events: seq<Event>)
    decreases |events|
  {
    events == [] || (Possible(s, events[0]) && PossibleRun(Step(s, events[0]), events[1..]))
  }

  ghost function Run(s: Cancellation, events: seq<Event>): Cancellation
    requires PossibleRun(s, events)
    decreases |events|
  {
    if events == [] then s else Run(Step(s, events[0]), events[1..])
  }

  // Invariant

  /** A slot is registered exactly while it is in the list; otherwise it is removed, about to run, or has run once. */
  predicate SlotOk(s: Cancellation, x: nat) {
    x in s.slots ==>
      var slot := s.slots[x];
      && (slot.registered <==> x in s.callbacks)
      && (slot.registered ==> x !in s.removed && x !in s.snapshot && x !in s.late && slot.runs == [])
      && (x in s.snapshot ==> x !in s.late && x !in s.removed && slot.runs == [])
      && (x in s.late ==> x !in s.removed && slot.runs == [] && s.reason == Some(s.late[x]))
      && (x in s.removed ==> slot.runs == [])
      && (!slot.registered && x !in s.removed && x !in s.snapshot && x !in s.late ==>
            s.reason.Some? && slot.runs == [s.reason.value])
  }

  ghost predicate Inv(s: Cancellation) {
    && (forall x: nat :: SlotOk(s, x))
    && (forall x :: x in s.callbacks || x in s.snapshot || x in s.late || x in s.removed ==> x in s.slots)
    && NoDuplicates(s.callbacks) && NoDuplicates(s.snapshot)
    && (s.reason.Some? ==> s.callbacks == [])
    && (s.reason.None? ==> s.snapshot == [] && s.late == map[])
  }

  lemma {:induction false} WithoutDistinct(callbacks: seq<nat>, slot: nat)
    requires NoDuplicates(callbacks)
    ensures NoDuplicates(Without(callbacks, slot))
  {
    if callbacks != [] {
      var rest := callbacks[1..];
      WithoutDistinct(rest, slot);
      assert forall i :: 0 <= i < |Without(rest, slot)| ==> Without(rest, slot)[i] in rest;
      assert callbacks[0] !in rest;
    }
  }

  lemma {:induction false} RegisteredIsAll(s: Cancellation, n: nat)
    requires n <= |s.callbacks| && Inv(s)
    ensures Registered(s, n) == s.callbacks[..n]
  {
    if n > 0 {
      RegisteredIsAll(s, n - 1);
      var x := s.callbacks[n - 1];
      assert x in s.callbacks && SlotOk(s, x);
    }
  }

  lemma RegisterKeepsInv(s: Cancellation, slot: nat)
    requires Inv(s) && Possible(s, Register(slot))
    ensures Inv(Step(s, Register(slot)))
  {
    var s' := Step(s, Register(slot));
    assert slot !in s.callbacks && slot !in s.snapshot && slot !in s.late && slot !in s.removed;
    forall x: nat
      ensures SlotOk(s', x)
    {
      assert SlotOk(s, x);
    }
  }

  lemma UnregisterKeepsInv(s: Cancellation, slot: nat)
    requires Inv(s) && Possible(s, Unregister(slot))
    ensures Inv(Step(s, Unregister(slot)))
  {
    var s' := Step(s, Unregister(slot));
    WithoutDistinct(s.callbacks, slot);
    assert SlotOk(s, slot);
    forall x: nat
      ensures SlotOk(s', x)
    {
      assert SlotOk(s, x);
    }
  }

  lemma RequestKeepsInv(s: Cancellation, requested: CancellationReason)
    requires Inv(s)
    ensures Inv(Step(s, Request(requested)))
  {
    if s.reason.None? {
      var s' := Step(s, Request(requested));
      RegisteredIsAll(s, |s.callbacks|);
      assert s.callbacks[..|s.callbacks|] == s.callbacks;
      forall x: nat
        ensures SlotOk(s', x)
      {
        assert SlotOk(s, x);
      }
    }
  }

  lemma RunNextKeepsInv(s: Cancellation)
    requires Inv(s) && Possible(s, RunNext)
    ensures Inv(Step(s, RunNext))
  {
    var s', first := Step(s, RunNext), s.snapshot[0];
    assert s.snapshot == [first] + s'.snapshot && first in s.snapshot && first !in s'.snapshot;
    forall x: nat
      ensures SlotOk(s', x)
    {
      assert SlotOk(s, x);
    }
  }

  lemma RunLateKeepsInv(s: Cancellation, slot: nat)
    requires Inv(s) && Possible(s, RunLate(slot))
    ensures Inv(Step(s, RunLate(slot)))
  {
    var s' := Step(s, RunLate(slot));
    forall x: nat
      ensures SlotOk(s', x)
    {
      assert SlotOk(s, x);
    }
  }

  lemma StepKeepsInv(s: Cancellation, e: Event)
    requires Inv(s) && Possible(s, e)
    ensures Inv(Step(s, e))
  {
    match e
    case Register(slot) => RegisterKeepsInv(s, slot);
    case Unregister(slot) => UnregisterKeepsInv(s, slot);
    case Request(requested) => RequestKeepsInv(s, requested);
    case RunNext => RunNextKeepsInv(s);
    case RunLate(slot) => RunLateKeepsInv(s, slot);
  }

  /** What never changes again: the winning reason, and that a slot was removed or has run. */
  lemma StepIsFinal(s: Cancellation, e: Event, x: nat)
    requires Inv(s) && Possible(s, e)
    ensures s.reason.Some? ==> Step(s, e).reason == s.reason
    ensures x in s.slots ==> x in Step(s, e).slots
    ensures x in s.slots && (x in s.removed || s.slots[x].runs != []) ==>
              (x in Step(s, e).removed <==> x in s.removed) && Step(s, e).slots[x].runs == s.slots[x].runs
  {
    assert SlotOk(s, x);
    if e.Request? {
      RegisteredIsAll(s, |s.callbacks|);
    }
  }

  lemma {:induction false} RunKeepsInv(s: Cancellation, events: seq<Event>)
    requires Inv(s) && PossibleRun(s, events)
    ensures Inv(Run(s, events))
    decreases |events|
  {
    if events != [] {
      StepKeepsInv(s, events[0]);
      RunKeepsInv(Step(s, events[0]), events[1..]);
    }
  }

  // What the calls alone say

  /** The reason of the first request in a run. */
  function FirstRequest(events: seq<Event>): Option<CancellationReason> {
    if events == [] then None
    else if events[0].Request? then Some(events[0].requested)
    else FirstRequest(events[1..])
  }

  /** The callback is unregistered before any request. */
  function UnregisteredInTime(events: seq<Event>, x: nat): bool {
    events != [] && !events[0].Request? && (events[0] == Unregister(x) || UnregisteredInTime(events[1..], x))
  }

  /** The callback is registered. */
  function EverRegistered(events: seq<Event>, x: nat): bool {
    events != [] && (events[0] == Register(x) || EverRegistered(events[1..], x))
  }

  /** The first request wins for good. */
  lemma {:induction false} FirstReasonWins(s: Cancellation, events: seq<Event>)
    requires Inv(s) && PossibleRun(s, events)
    ensures Run(s, events).reason == if s.reason.Some? then s.reason else FirstRequest(events)
    decreases |events|
  {
    if events != [] {
      StepKeepsInv(s, events[0]);
      StepIsFinal(s, events[0], 0);
      FirstReasonWins(Step(s, events[0]), events[1..]);
    }
  }

  lemma {:induction false} RemovedMeans(s: Cancellation, events: seq<Event>, x: nat)
    requires PossibleRun(s, events)
    ensures x in Run(s, events).removed <==> x in s.removed || (s.reason.None? && UnregisteredInTime(events, x))
    decreases |events|
  {
    if events != [] {
      RemovedMeans(Step(s, events[0]), events[1..], x);
    }
  }

  lemma {:induction false} SlotsMean(s: Cancellation, events: seq<Event>, x: nat)
    requires PossibleRun(s, events)
    ensures x in Run(s, events).slots <==> x in s.slots || EverRegistered(events, x)
    decreases |events|
  {
    if events != [] {
      SlotsMean(Step(s, events[0]), events[1..], x);
    }
  }

  /**
   In every run each registered callback runs at most once, only with the reason of the first
   request, and never if it was unregistered before any request; once a request was made
   and nothing is left to run, every other callback has run exactly once, whether it
   was registered before or after the request.
   */
  lemma CallbacksRunOnce(events: seq<Event>, x: nat)
    requires PossibleRun(INITIAL, events) && EverRegistered(events, x)
    ensures var s := Run(INITIAL, events);
            && x in s.slots && s.reason == FirstRequest(events)
            && (s.slots[x].runs == [] || (s.reason.Some? && s.slots[x].runs == [s.reason.value]))
            && (s.slots[x].registered <==> x in s.callbacks)
            && (UnregisteredInTime(events, x) ==> s.slots[x].runs == [])
            && (s.reason.Some? && s.snapshot == [] && s.late == map[] && !UnregisteredInTime(events, x) ==>
                  s.slots[x].runs == [s.reason.value])
  {
    RunKeepsInv(INITIAL, events);
    FirstReasonWins(INITIAL, events);
    RemovedMeans(INITIAL, events, x);
    SlotsMean(INITIAL, events, x);
    assert SlotOk(Run(INITIAL, events), x);
  }

  /**
   The answers: a request wins exactly if it is the first, and then it is to run the callbacks in the
   list, in order; a registration is told to run its callback, with the winning reason, exactly if there was a request.
   */
  lemma AnswersMean(events: seq<Event>, requested: CancellationReason, slot: nat)
    requires PossibleRun(INITIAL, events)
    ensures var s := Run(INITIAL, events);
            && (RequestStep(s, requested).1 <==> FirstRequest(events) == None)
            && (RequestStep(s, requested).1 ==> RequestStep(s, requested).0.snapshot == s.callbacks)
            && RegisterStep(s, slot).1 == FirstRequest(events)
            && RegisterStep(s, slot).0.callbacks == s.callbacks + (if RegisterStep(s, slot).1.None? then [slot] else [])
  {
    RunKeepsInv(INITIAL, events);
    FirstReasonWins(INITIAL, events);
    RegisteredIsAll(Run(INITIAL, events), |Run(INITIAL, events).callbacks|);
  }

  class CancellationState {
    var reason: Option<CancellationReason>
    var callbacks: seq<nat>
    var slots: map<nat, Slot>
    var snapshot: seq<nat>
    ghost var late: map<nat, CancellationReason>
    ghost var removed: set<nat>

    ghost function State(): Cancellation
      reads this
    {
      Cancellation(reason, callbacks, slots, snapshot, late, removed)
    }

    constructor ()
      ensures State() == INITIAL
    {
      reason, callbacks, slots, snapshot, late, removed := None, [], map[], [], map[], {};
    }

    /** The section of `register_callback` under the lock; with a reason the caller has to call its callback. */
    method RegisterCallback(slot: nat) returns (immediate: Option<CancellationReason>)
      requires Inv(State()) && slot !in slots
      modifies this
      ensures Inv(State()) && State() == Step(old(State()), Register(slot)) && immediate == RegisterStep(old(State()), slot).1
    {
      RegisterKeepsInv(State(), slot);
      immediate := Join(slot);
      late := if immediate.Some? then late[slot := immediate.value] else late;
    }

    method Join(slot: nat) returns (immediate: Option<CancellationReason>)
      modifies this`callbacks, this`slots
      ensures (State(), immediate) == RegisterStep(old(State()), slot)
    {
      if reason.None? {
        callbacks := callbacks + [slot];
        slots := slots[slot := Slot(true, [])];
        return None;
      }
      slots := slots[slot := Slot(false, [])];
      return reason;
    }

    method UnregisterCallback(slot: nat)
      requires Inv(State()) && slot in slots
      modifies this
      ensures Inv(State()) && State() == Step(old(State()), Unregister(slot))
    {
      UnregisterKeepsInv(State(), slot);
      removed := if reason.None? then removed + {slot} else removed;
      if !slots[slot].registered {
        return;
      }
      slots := slots[slot := slots[slot].(registered := false)];
      callbacks := Without(callbacks, slot);
    }

    /** The section of `request_cancellation` under the lock. */
    method RequestCancellation(requested: CancellationReason) returns (won: bool)
      requires Inv(State())
      modifies this
      ensures Inv(State()) && (State(), won) == RequestStep(old(State()), requested)
    {
      RequestKeepsInv(State(), requested);
      if reason.Some? {
        return false;
      }
      SelectRegistered();
      reason := Some(requested);
      callbacks := [];
      return true;
    }

    /** Its loop over the callback list. */
    method SelectRegistered()
      requires Inv(State())
      modifies this`slots, this`snapshot
      ensures snapshot == Registered(old(State()), |callbacks|) && slots == Selected(old(State()), snapshot)
    {
      ghost var before := State();
      snapshot := [];
      for i := 0 to |callbacks|
        invariant snapshot == Registered(before, i) && slots == Selected(before, snapshot)
      {
        SelectedNext(before, i);
        var slot := callbacks[i];
        if slot in slots && slots[slot].registered {
          slots := slots[slot := slots[slot].(registered := false)];
          snapshot := snapshot + [slot];
        }
      }
    }

    /** `register_callback` after the request: the callback is called before it returns. */
    method RegisterLate(slot: nat)
      requires Inv(State()) && reason.Some? && slot !in slots
      modifies this
      ensures Inv(State()) && reason == old(reason) && snapshot == old(snapshot)
      ensures slots == old(slots)[slot := Slot(false, [reason.value])]
    {
      var immediate := RegisterCallback(slot);
      RunLateKeepsInv(State(), slot);
      slots := slots[slot := slots[slot].(runs := slots[slot].runs + [immediate.value])];
      late := late - {slot};
      assert [] + [immediate.value] == [immediate.value];
      assert slots == old(slots)[slot := slots[slot]];
    }

    /** A callback runs after the request: it may register and unregister callbacks, `more` times at most. */
    method RunCallback(more: nat)
      requires Inv(State()) && reason.Some?
      modifies this
      ensures Inv(State()) && reason == old(reason) && snapshot == old(snapshot)
      ensures forall x :: x in old(slots) ==> x in slots && slots[x] == old(slots)[x]
    {
      for i := 0 to more
        invariant Inv(State()) && reason == old(reason) && snapshot == old(snapshot)
        invariant forall x :: x in old(slots) ==> x in slots && slots[x] == old(slots)[x]
      {
        var slot: nat := *;
        if slot in slots {
          assert SlotOk(State(), slot);
          UnregisterCallback(slot);
        } else {
          RegisterLate(slot);
        }
      }
    }

    /**
     The callback loop that follows: each taken callback runs once with the winning reason,
     whatever the callbacks themselves register and unregister meanwhile, and no other
     slot that was there changes.
     */
    method RunCallbacks()
      requires Inv(State()) && reason.Some?
      modifies this
      ensures Inv(State()) && snapshot == [] && reason == old(reason)
      ensures forall x :: x in old(slots) ==>
                x in slots && slots[x] == if x in old(snapshot) then old(slots)[x].(runs := [reason.value]) else old(slots)[x]
    {
      ghost var before, done: nat := State(), 0;
      while snapshot != []
        invariant Inv(State()) && reason == before.reason
        invariant done <= |before.snapshot| && snapshot == before.snapshot[done..]
        invariant RanFirst(before, State(), done)
        decreases |snapshot|
      {
        ghost var current := State();
        RunNextKeepsInv(current);
        var slot := snapshot[0];
        assert slot in snapshot && SlotOk(current, slot);
        slots := slots[slot := slots[slot].(runs := slots[slot].runs + [reason.value])];
        snapshot := snapshot[1..];
        RanNext(before, current, done);
        done := done + 1;
        var more: nat := *;
        RunCallback(more);
      }
      assert before.snapshot[..done] == before.snapshot;
    }
  }

  /** Of the slots in `s`, the first `done` of its snapshot have run in `s'`, and the others are as they were. */
  ghost predicate RanFirst(s: Cancellation, s': Cancellation, done: nat)
    requires done <= |s.snapshot| && s.reason.Some?
  {
    forall x :: x in s.slots ==>
      x in s'.slots
      && s'.slots[x] == if x in s.snapshot[..done] then s.slots[x].(runs := [s.reason.value]) else s.slots[x]
  }

  lemma RanNext(s: Cancellation, s': Cancellation, done: nat)
    requires Inv(s) && s.reason.Some? && done < |s.snapshot| && RanFirst(s, s', done) && s.snapshot[done] in s'.slots
    ensures var x := s.snapshot[done];
            && s'.slots[x].runs == []
            && RanFirst(s, s'.(slots := s'.slots[x := s'.slots[x].(runs := [s.reason.value])]), done + 1)
  {
    var x := s.snapshot[done];
    assert x in s.snapshot && SlotOk(s, x);
    assert x !in s.snapshot[..done];
    PrefixNext(s.snapshot, done);
  }

  lemma SelectedNext(s: Cancellation, i: nat)
    requires Inv(s) && i < |s.callbacks|
    ensures var x := s.callbacks[i];
            && x in s.slots && s.slots[x].registered
            && Selected(s, Registered(s, i))[x] == s.slots[x]
            && Selected(s, Registered(s, i + 1)) == Selected(s, Registered(s, i))[x := s.slots[x].(registered := false)]
  {
    var x := s.callbacks[i];
    assert x in s.callbacks && SlotOk(s, x);
    RegisteredIsAll(s, i);
    RegisteredIsAll(s, i + 1);
  }
}
