/**
 The hand-off from a finished task to the coroutine that awaits it
 (include/voris/io/task.hpp). Each section under the state's mutex is one step, so a
 run is any interleaving of the awaiting, abandoning and finishing threads and the
 scheduler. The threads act on the answers they get and on nothing else.
 */
module TaskContinuations {
  import opened Common

  /** The state under the mutex. */
  datatype Shared = Shared(continuation: Option<nat>, completed: bool, detached: bool, consumed: bool)

  datatype InstallResult = Suspend | Ready | AlreadyConsumed

  function Installed(s: Shared, parent: nat): (Shared, InstallResult) {
    if s.consumed then (s, AlreadyConsumed)
    else if s.completed || s.detached then (s.(consumed := true), Ready)
    else (s.(consumed := true, continuation := Some(parent)), Suspend)
  }

  /** Whether a resume of the continuation must be scheduled. */
  function Published(s: Shared): (Shared, bool) {
    (s.(completed := true), !s.detached && s.continuation.Some?)
  }

  /** The coroutine to resume, if it is still there. */
  function Claimed(s: Shared): (Shared, Option<nat>) {
    if s.detached || s.continuation.None? then (s, None) else (s.(continuation := None), s.continuation)
  }

  function Detached(s: Shared): Shared {
    s.(continuation := None, detached := true)
  }

  /** What the answers promise to the threads that get them. */
  lemma AnswersMean(s: Shared, parent: nat)
    ensures Installed(s, parent).1 == Suspend <==> !s.consumed && !s.completed && !s.detached
    ensures Installed(s, parent).1 == Ready <==> !s.consumed && (s.completed || s.detached)
    ensures Installed(s, parent).1 == Suspend ==> Installed(s, parent).0.continuation == Some(parent)
    ensures Installed(s, parent).1 != Suspend ==> Installed(s, parent).0.continuation == s.continuation
    ensures Published(s).1 <==> !s.detached && s.continuation.Some?
    ensures Claimed(s).1 == if s.detached then None else s.continuation
    ensures Claimed(s).1.Some? ==> Claimed(s).0.continuation.None?
  {
  }

  // Runs

  /** Where the finishing side is. */
  datatype ChildPc =
    | Running
    /** Was told that there is a continuation, and is about to schedule its resume. */
    | MustSchedule
    | Queued
    | Finished

  /** `suspended` are the coroutines that were told to suspend, and `resumed` those that were resumed. */
  datatype Handoff = Handoff(shared: Shared, child: ChildPc, suspended: seq<nat>, resumed: seq<nat>)

  const INITIAL := Handoff(Shared(None, false, false, false), Running, [], [])

  datatype Event = Install(parent: nat) | Publish | Schedule | Claim | Detach | MarkCompleted

  predicate Possible(s: Handoff, e: Event) {
    match e
    case Publish => s.child.Running?
    case Schedule => s.child.MustSchedule?
    case Claim => s.child.Queued?
    case _ => true
  }

  /** An awaiter suspends exactly if it is told so; a refused second await marks the task as completed. */
  function Awaited(s: Handoff, parent: nat): Handoff {
    var (shared, answer) := Installed(s.shared, parent);
    match answer
    case Suspend => s.(shared := shared, suspended := s.suspended + [parent])
    case Ready => s.(shared := shared)
    case AlreadyConsumed => s.(shared := shared.(completed := true))
  }

  function Step(s: Handoff, e: Event): Handoff
    requires Possible(s, e)
  {
    match e
    case Install(parent) => Awaited(s, parent)
    case Publish =>
      var (shared, notify) := Published(s.shared);
      s.(shared := shared, child := if notify then MustSchedule else Finished)
    case Schedule => s.(child := Queued)
    case Claim =>
      var (shared, parent) := Claimed(s.shared);
      s.(shared := shared, child := Finished, resumed := s.resumed + if parent.Some? then [parent.value] else [])
    case Detach => s.(shared := Detached(s.shared))
    case MarkCompleted => s.(shared := s.shared.(completed := true))
  }

  ghost predicate PossibleRun(s: Handoff, events: seq<Event>)
    decreases |events|
  {
    events == [] || (Possible(s, events[0]) && PossibleRun(Step(s, events[0]), events[1..]))
  }

  ghost function Run(s: Handoff, events: seq<Event>): Handoff
    requires PossibleRun(s, events)
    decreases |events|
  {
    if events == [] then s else Run(Step(s, events[0]), events[1..])
  }

  /** A suspended coroutine that nobody abandoned is installed until it is resumed, and a finished child has resumed it. */
  ghost predicate Inv(s: Handoff) {
    var shared := s.shared;
    && |s.suspended| <= 1 && (s.suspended != [] ==> shared.consumed)
    && (shared.continuation.Some? ==> s.suspended == [shared.continuation.value] && !shared.detached && s.resumed == [])
    && (s.suspended != [] && !shared.detached ==> shared.continuation == Some(s.suspended[0]) || s.resumed == s.suspended)
    && (s.resumed != [] ==> s.resumed == s.suspended && s.child.Finished?)
    && (!s.child.Running? ==> shared.completed)
    && (s.child.Finished? ==> shared.continuation.None?)
    && (s.child.MustSchedule? || s.child.Queued? ==> s.suspended != [])
  }

  lemma StepKeepsInv(s: Handoff, e: Event)
    requires Inv(s) && Possible(s, e)
    ensures Inv(Step(s, e))
  {
  }

  lemma {:induction false} RunKeepsInv(s: Handoff, events: seq<Event>)
    requires Inv(s) && PossibleRun(s, events)
    ensures Inv(Run(s, events))
    ensures Run(s, events).shared.detached <==> s.shared.detached || Detach in events
    decreases |events|
  {
    if events != [] {
      StepKeepsInv(s, events[0]);
      RunKeepsInv(Step(s, events[0]), events[1..]);
    }
  }

  /**
   In every interleaving at most one coroutine is told to suspend, only it is resumed and
   at most once, and if no event abandons it, it is resumed exactly once by the time the
   child and its resume job are done.
   */
  lemma ResumedExactlyOnce(events: seq<Event>)
    requires PossibleRun(INITIAL, events)
    ensures var s := Run(INITIAL, events);
            && |s.suspended| <= 1
            && (s.resumed == [] || s.resumed == s.suspended)
            && (Detach !in events && s.child.Finished? ==> s.resumed == s.suspended)
  {
    RunKeepsInv(INITIAL, events);
  }

  /** No resume is lost: a coroutine that waits still has the child, or its resume job, ahead of it. */
  lemma WaitingIsNotForgotten(events: seq<Event>)
    requires PossibleRun(INITIAL, events)
    ensures var s := Run(INITIAL, events);
            s.suspended != [] && Detach !in events && s.resumed == [] ==>
              s.shared.continuation == Some(s.suspended[0]) && !s.child.Finished?
  {
    RunKeepsInv(INITIAL, events);
  }

  /** A task that nobody has awaited, and that has finished or was abandoned, tells its awaiter not to suspend. */
  lemma FinishedTaskIsReady(events: seq<Event>, parent: nat)
    requires PossibleRun(INITIAL, events) && !Run(INITIAL, events).child.Running?
    ensures Installed(Run(INITIAL, events).shared, parent).1 != Suspend
  {
    RunKeepsInv(INITIAL, events);
  }

  /** After a detach nothing is resumed any more. */
  lemma {:induction false} DetachedIsNotResumed(s: Handoff, events: seq<Event>)
    requires Inv(s) && s.shared.detached && PossibleRun(s, events)
    ensures Run(s, events).resumed == s.resumed
    decreases |events|
  {
    if events != [] {
      StepKeepsInv(s, events[0]);
      DetachedIsNotResumed(Step(s, events[0]), events[1..]);
    }
  }

  class TaskContinuationState {
    var continuation: Option<nat>
    var completed: bool
    var detached: bool
    var consumed: bool

    ghost function State(): Shared
      reads this
    {
      Shared(continuation, completed, detached, consumed)
    }

    constructor ()
      ensures State() == INITIAL.shared
    {
      continuation, completed, detached, consumed := None, false, false, false;
    }

    method Abandon()
      modifies this
      ensures State() == Detached(old(State()))
    {
      continuation := None;
      detached := true;
    }

    method InstallParent(next: nat) returns (r: InstallResult)
      modifies this
      ensures (State(), r) == Installed(old(State()), next)
      ensures r == Suspend <==> !old(consumed) && !old(completed) && !old(detached)
      ensures r == Suspend ==> continuation == Some(next)
    {
      if consumed {
        return AlreadyConsumed;
      }
      consumed := true;
      if completed || detached {
        return Ready;
      }
      continuation := Some(next);
      return Suspend;
    }

    method PublishCompleted() returns (notify: bool)
      modifies this
      ensures (State(), notify) == Published(old(State()))
      ensures notify <==> !detached && continuation.Some?
    {
      completed := true;
      if detached || continuation.None? {
        return false;
      }
      return true;
    }

    method ClaimContinuation() returns (claimed: Option<nat>)
      modifies this
      ensures (State(), claimed) == Claimed(old(State()))
      ensures claimed == if detached then None else old(continuation)
    {
      if detached || continuation.None? {
        return None;
      }
      claimed := continuation;
      continuation := None;
    }
  }
}
