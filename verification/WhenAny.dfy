/**
 The winner and parent hand-off of `when_any` (include/voris/io/when_any.hpp). Each
 section under the mutex, the cancellation of the losers, the scheduling and the
 resume job are separate steps that may interleave with everything else. The threads
 act on the answers they get and on nothing else.
 */
module WhenAnys {
  import opened Common

  /** The state under the mutex; `parent` says that a parent is installed. */
  datatype Shared = Shared(winner: Option<nat>, parent: bool, detached: bool)

  /** What a publisher learns: whether it chose the winner, and whether a parent waits for it. */
  datatype PublishResult = PublishResult(selected: bool, notify: bool)

  function Published(s: Shared, index: nat): (Shared, PublishResult) {
    if s.winner.Some? then (s, PublishResult(false, false))
    else (s.(winner := Some(index)), PublishResult(true, !s.detached && s.parent))
  }

  /** Without a scheduler the awaiter fails the race as the first index, and nobody waits. */
  function PublishedInvalid(s: Shared): (Shared, bool) {
    if s.winner.Some? then (s, false) else (s.(winner := Some(0)), true)
  }

  function Installed(s: Shared): (Shared, bool) {
    if s.detached || s.winner.Some? then (s, false) else (s.(parent := true), true)
  }

  function Claimed(s: Shared): (Shared, bool) {
    if s.detached || !s.parent then (s, false) else (s.(parent := false), true)
  }

  function Detached(s: Shared): Shared {
    s.(detached := true, parent := false)
  }

  /** What the answers promise to the threads that get them. */
  lemma AnswersMean(s: Shared, index: nat)
    ensures Published(s, index).1.selected <==> s.winner.None?
    ensures Published(s, index).0.winner == Some(if s.winner.Some? then s.winner.value else index)
    ensures Published(s, index).1.notify <==> s.winner.None? && !s.detached && s.parent
    ensures PublishedInvalid(s).1 <==> s.winner.None?
    ensures PublishedInvalid(s).0.winner == Some(if s.winner.Some? then s.winner.value else 0)
    ensures Installed(s).1 <==> !s.detached && s.winner.None?
    ensures Installed(s).0.parent <==> s.parent || Installed(s).1
    ensures Claimed(s).1 <==> !s.detached && s.parent
    ensures Claimed(s).1 ==> !Claimed(s).0.parent
  {
  }

  // Runs

  /** Where the thread is that was told it chose the winner. */
  datatype WinnerPc =
    | NoWinner
    | MustCancel(notify: bool)
    | MustSchedule
    | Queued
    | Finished

  /**
   `awaited` says that the one awaiter has asked to be installed, `suspended` that it was
   told to suspend; `cancels` counts the cancellation requests for the losers.
   */
  datatype Race = Race(shared: Shared, awaited: bool, suspended: bool, pc: WinnerPc, cancels: nat, resumes: nat)

  const INITIAL := Race(Shared(None, false, false), false, false, NoWinner, 0, 0)

  datatype Event =
    | Publish(index: nat)
    | PublishInvalid
    | InstallParent
    | CancelLosers
    | Schedule
    | ResumeParent
    | DetachParent

  /** The awaiter asks once: to be installed, or, without a scheduler, to fail the race. */
  predicate Possible(s: Race, e: Event) {
    match e
    case PublishInvalid => !s.awaited
    case InstallParent => !s.awaited
    case CancelLosers => s.pc.MustCancel?
    case Schedule => s.pc.MustSchedule?
    case ResumeParent => s.pc.Queued?
    case _ => true
  }

  function Step(s: Race, e: Event): Race
    requires Possible(s, e)
  {
    match e
    case Publish(index) =>
      var (shared, r) := Published(s.shared, index);
      s.(shared := shared, pc := if r.selected then MustCancel(r.notify) else s.pc)
    case PublishInvalid =>
      var (shared, selected) := PublishedInvalid(s.shared);
      s.(shared := shared, awaited := true, pc := if selected then MustCancel(false) else s.pc)
    case InstallParent =>
      var (shared, suspend) := Installed(s.shared);
      s.(shared := shared, awaited := true, suspended := suspend)
    case CancelLosers => s.(cancels := s.cancels + 1, pc := if s.pc.notify then MustSchedule else Finished)
    case Schedule => s.(pc := Queued)
    case ResumeParent =>
      var (shared, claimed) := Claimed(s.shared);
      s.(shared := shared, pc := Finished, resumes := s.resumes + if claimed then 1 else 0)
    case DetachParent => s.(shared := Detached(s.shared))
  }

  ghost predicate PossibleRun(s: Race, events: seq<Event>)
    decreases |events|
  {
    events == [] || (Possible(s, events[0]) && PossibleRun(Step(s, events[0]), events[1..]))
  }

  ghost function Run(s: Race, events: seq<Event>): Race
    requires PossibleRun(s, events)
    decreases |events|
  {
    if events == [] then s else Run(Step(s, events[0]), events[1..])
  }

  /** The index of the first publication among the events; a failed awaiter publishes as the first index. */
  function FirstPublished(events: seq<Event>): Option<nat> {
    if events == [] then None
    else if events[0].Publish? then Some(events[0].index)
    else if events[0].PublishInvalid? then Some(0)
    else FirstPublished(events[1..])
  }

  ghost predicate Inv(s: Race) {
    && (s.shared.winner.None? <==> s.pc.NoWinner?)
    && s.cancels == (if s.pc.NoWinner? || s.pc.MustCancel? then 0 else 1)
    && s.resumes <= 1
    && (s.suspended ==> s.awaited)
    && (s.shared.parent ==> s.suspended && !s.shared.detached && s.resumes == 0)
    && (s.suspended && !s.shared.detached ==> s.shared.parent || s.resumes == 1)
    && (s.resumes == 1 ==> s.suspended && !s.shared.parent && s.pc.Finished?)
    && (s.shared.parent && s.pc.MustCancel? ==> s.pc.notify)
    && (s.shared.parent ==> !s.pc.Finished?)
  }

  lemma StepKeepsInv(s: Race, e: Event)
    requires Inv(s) && Possible(s, e)
    ensures Inv(Step(s, e))
    ensures s.shared.winner.Some? ==> Step(s, e).shared.winner == s.shared.winner
    ensures s.shared.winner.None? ==> Step(s, e).shared.winner == FirstPublished([e])
  {
  }

  /** The winner is the first to publish, and fixed for good; every reachable state keeps the invariant. */
  lemma {:induction false} RunKeepsInv(s: Race, events: seq<Event>)
    requires Inv(s) && PossibleRun(s, events)
    ensures Inv(Run(s, events))
    ensures Run(s, events).shared.winner == if s.shared.winner.Some? then s.shared.winner else FirstPublished(events)
    ensures Run(s, events).shared.detached <==> s.shared.detached || DetachParent in events
    decreases |events|
  {
    if events != [] {
      StepKeepsInv(s, events[0]);
      RunKeepsInv(Step(s, events[0]), events[1..]);
      assert FirstPublished(events) == if FirstPublished([events[0]]).Some? then FirstPublished([events[0]])
                                       else FirstPublished(events[1..]);
    }
  }

  /**
   In every interleaving the winner is the first to publish, the losers are cancelled at
   most once and only after a winner is chosen, the parent is resumed at most once and
   only with a winner to take; and once the winner's thread and its job are done, the
   losers were cancelled once and a parent that was told to suspend, and that no event
   abandons, was resumed once.
   */
  lemma RaceEndsOnce(events: seq<Event>)
    requires PossibleRun(INITIAL, events)
    ensures var s := Run(INITIAL, events);
            && s.shared.winner == FirstPublished(events)
            && s.cancels <= 1 && (s.cancels == 1 ==> s.shared.winner.Some?)
            && s.resumes <= 1 && (s.resumes == 1 ==> s.suspended && s.shared.winner.Some?)
            && (s.pc.Finished? ==> s.cancels == 1 && (s.suspended && DetachParent !in events ==> s.resumes == 1))
            && (s.suspended && DetachParent !in events && s.resumes == 0 ==> s.shared.parent && !s.pc.Finished?)
  {
    RunKeepsInv(INITIAL, events);
  }

  class WhenAnyState {
    var winner: Option<nat>
    var parent: bool
    var detached: bool

    ghost function State(): Shared
      reads this
    {
      Shared(winner, parent, detached)
    }

    constructor ()
      ensures State() == INITIAL.shared
    {
      winner, parent, detached := None, false, false;
    }

    /** The section of `publish` under the mutex. */
    method SelectWinner(index: nat) returns (r: PublishResult)
      modifies this
      ensures (State(), r) == Published(old(State()), index)
      ensures r.selected <==> old(winner).None?
      ensures r.notify <==> r.selected && !detached && parent
    {
      if winner.Some? {
        return PublishResult(false, false);
      }
      winner := Some(index);
      return PublishResult(true, !detached && parent);
    }

    /** Answers whether the awaiter must suspend. */
    method Install() returns (suspend: bool)
      modifies this
      ensures (State(), suspend) == Installed(old(State()))
      ensures suspend <==> !detached && winner.None?
    {
      if detached || winner.Some? {
        return false;
      }
      parent := true;
      return true;
    }

    method PublishInvalidResult() returns (selected: bool)
      modifies this
      ensures (State(), selected) == PublishedInvalid(old(State())) && (selected <==> old(winner).None?)
    {
      if winner.Some? {
        return false;
      }
      winner := Some(0);
      return true;
    }

    method Abandon()
      modifies this
      ensures State() == Detached(old(State()))
    {
      detached := true;
      parent := false;
    }

    method ClaimParent() returns (claimed: bool)
      modifies this
      ensures (State(), claimed) == Claimed(old(State()))
      ensures claimed <==> !detached && old(parent)
    {
      if detached || !parent {
        return false;
      }
      parent := false;
      return true;
    }
  }
}
