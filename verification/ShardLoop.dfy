/**
 The shard's worker loop and its submitters (src/shard.cpp, backend_wakeup.hpp), as
 an interleaving of atomic steps: each lock-protected section, and each access to
 the stop flag, is one step of one thread.
 */
module ShardLoops {
  import opened Common
  import opened LoopBudgets

  datatype Config = Config(capacity: nat, budget: LoopBudget)

  /** Where a submitting or stopping thread is. */
  datatype ThreadPc =
    | Idle
    /** Holds the lifecycle lock, having seen no stop request. */
    | Locked(system: bool, work: nat)
    /** Has pushed or set the stop flag, and has not called `wake` yet. */
    | MustWake

  datatype WorkerPc =
    | NotStarted
    | CheckStop
    | Iterate(remaining: nat, count: nat)
    /** Found the system queue empty. */
    | PopUser(remaining: nat, count: nat)
    | Running(system: bool, work: nat, remaining: nat, count: nat)
    | Wait
    | Parked
    | Consume
    | DrainSystem
    | DrainUser
    | DrainRunning(system: bool, work: nat)
    | Done
    /** Left the loop without draining, because the budget is invalid. */
    | Failed

  /** The two lanes of the mailbox, the wake-up counter, the stop flag, the lifecycle lock and the threads. */
  datatype Shard = Shard(
    sys: seq<nat>, user: seq<nat>, pending: nat, stop: bool, lock: Option<nat>,
    threads: map<nat, ThreadPc>, worker: WorkerPc)

  const INITIAL := Shard([], [], 0, false, None, map[], NotStarted)

  /** The calls that a running continuation makes on the worker's own thread. */
  const NESTED: nat := 0

  function Pc(s: Shard, t: nat): ThreadPc {
    if t in s.threads then s.threads[t] else Idle
  }

  datatype Event =
    | Enter(thread: nat, system: bool, work: nat)
    | Push(thread: nat)
    | Wake(thread: nat)
    | RequestStop(thread: nat)
    | Start
    | Work

  predicate InsideWork(s: Shard) {
    s.worker.Running? || s.worker.DrainRunning?
  }

  /** Nested calls happen only while a continuation runs, which returns only after them. */
  predicate MayAct(s: Shard, t: nat) {
    t != NESTED || InsideWork(s)
  }

  predicate WorkerEnabled(s: Shard) {
    match s.worker
    case NotStarted => false
    case Parked => s.pending > 0
    case Running(_, _, _, _) => Pc(s, NESTED).Idle?
    case DrainRunning(_, _) => Pc(s, NESTED).Idle?
    case Done => false
    case Failed => false
    case _ => true
  }

  predicate Enabled(s: Shard, e: Event) {
    match e
    case Enter(t, _, _) => MayAct(s, t) && Pc(s, t).Idle? && s.lock.None?
    case Push(t) => MayAct(s, t) && Pc(s, t).Locked?
    case Wake(t) => MayAct(s, t) && Pc(s, t).MustWake?
    case RequestStop(t) => MayAct(s, t) && Pc(s, t).Idle? && s.lock.None?
    case Start => s.worker.NotStarted? && s.lock.None?
    case Work => WorkerEnabled(s)
  }

  function Moved(s: Shard, t: nat, pc: ThreadPc): Shard {
    s.(threads := s.threads[t := pc])
  }

  function PushStep(c: Config, s: Shard, t: nat): Shard
    requires Pc(s, t).Locked?
  {
    var pc := Pc(s, t);
    var lane := if pc.system then s.sys else s.user;
    if |lane| >= c.capacity then Moved(s, t, Idle).(lock := None)
    else if pc.system then Moved(s, t, MustWake).(lock := None, sys := lane + [pc.work])
    else Moved(s, t, MustWake).(lock := None, user := lane + [pc.work])
  }

  /** The end of an iteration: an idle one waits. */
  function AfterIteration(count: nat): WorkerPc {
    if count == 0 then Wait else CheckStop
  }

  function WorkerStep(c: Config, s: Shard): Shard
    requires WorkerEnabled(s)
  {
    match s.worker
    case CheckStop =>
      if s.stop then s.(worker := DrainSystem)
      else if !c.budget.Valid() then s.(stop := true, worker := Failed)
      else s.(worker := Iterate(c.budget.taskBudget, 0))
    case Iterate(remaining, count) =>
      if remaining == 0 then s.(worker := AfterIteration(count))
      else if s.sys == [] then s.(worker := PopUser(remaining, count))
      else s.(sys := s.sys[1..], worker := Running(true, s.sys[0], remaining, count))
    case PopUser(remaining, count) =>
      if s.user == [] then s.(worker := AfterIteration(count))
      else s.(user := s.user[1..], worker := Running(false, s.user[0], remaining, count))
    case Running(_, _, remaining, count) =>
      s.(worker := Iterate(if remaining == 0 then 0 else remaining - 1, count + 1))
    case Wait =>
      if s.pending == 0 then s.(worker := Parked) else s.(pending := s.pending - 1, worker := Consume)
    case Parked => s.(pending := s.pending - 1, worker := Consume)
    case Consume => s.(pending := 0, worker := CheckStop)
    case DrainSystem =>
      if s.sys == [] then s.(worker := DrainUser)
      else s.(sys := s.sys[1..], worker := DrainRunning(true, s.sys[0]))
    case DrainUser =>
      if s.user == [] then s.(worker := Done)
      else s.(user := s.user[1..], worker := DrainRunning(false, s.user[0]))
    case DrainRunning(_, _) => s.(worker := DrainSystem)
  }

  function Step(c: Config, s: Shard, e: Event): Shard
    requires Enabled(s, e)
  {
    match e
    case Enter(t, system, work) => if s.stop then s else Moved(s, t, Locked(system, work)).(lock := Some(t))
    case Push(t) => PushStep(c, s, t)
    case Wake(t) => Moved(s, t, Idle).(pending := s.pending + 1)
    case RequestStop(t) => Moved(s, t, MustWake).(stop := true)
    case Start => s.(stop := false, worker := CheckStop)
    case Work => WorkerStep(c, s)
  }

  ghost predicate PossibleRun(c: Config, s: Shard, events: seq<Event>)
    decreases |events|
  {
    events == [] || (Enabled(s, events[0]) && PossibleRun(c, Step(c, s, events[0]), events[1..]))
  }

  ghost function Run(c: Config, s: Shard, events: seq<Event>): Shard
    requires PossibleRun(c, s, events)
    decreases |events|
  {
    if events == [] then s else Run(c, Step(c, s, events[0]), events[1..])
  }

  // Invariant

  /** Some thread is between its push or flag and its wake. */
  ghost predicate Waking(s: Shard) {
    exists t :: Pc(s, t).MustWake?
  }

  ghost predicate Signalled(s: Shard) {
    s.pending > 0 || Waking(s)
  }

  /** What the worker has already looked at in this idle iteration cannot have changed without a signal. */
  ghost predicate NoLostWakeup(s: Shard) {
    match s.worker
    case Iterate(_, count) => count == 0 && s.stop ==> Signalled(s)
    case PopUser(_, count) => count == 0 && (s.stop || s.sys != []) ==> Signalled(s)
    case Wait => s.stop || s.sys != [] || s.user != [] ==> Signalled(s)
    case Parked => s.stop || s.sys != [] || s.user != [] ==> Signalled(s)
    case _ => true
  }

  ghost predicate LockOk(s: Shard) {
    && (forall t: nat :: Pc(s, t).Locked? <==> s.lock == Some(t))
    && (s.stop && !s.worker.Failed? ==> s.lock.None?)
    && (!Pc(s, NESTED).Idle? ==> InsideWork(s))
  }

  ghost predicate WorkerOk(c: Config, s: Shard) {
    match s.worker
    case Iterate(remaining, count) => c.budget.Valid() && remaining + count == c.budget.taskBudget
    case PopUser(remaining, count) => c.budget.Valid() && remaining + count == c.budget.taskBudget && remaining > 0
    case Running(_, _, remaining, count) =>
      c.budget.Valid() && remaining + count == c.budget.taskBudget && remaining > 0
    case DrainSystem => s.stop
    case DrainUser => s.stop && s.sys == []
    case DrainRunning(_, _) => s.stop
    case Done => s.stop && s.sys == [] && s.user == []
    case Failed => s.stop && !c.budget.Valid()
    case NotStarted => true
    case CheckStop => true
    case _ => c.budget.Valid()
  }

  ghost predicate Inv(c: Config, s: Shard) {
    && LockOk(s)
    && WorkerOk(c, s)
    && NoLostWakeup(s)
  }

  lemma InitialInv(c: Config)
    ensures Inv(c, INITIAL)
  {
  }

  lemma MovedPc(s: Shard, t: nat, pc: ThreadPc)
    ensures forall u :: Pc(Moved(s, t, pc), u) == if u == t then pc else Pc(s, u)
  {
  }

  lemma MustWakeSignals(s: Shard, t: nat)
    requires Pc(s, t).MustWake?
    ensures Signalled(s)
  {
  }

  lemma EnterKeepsInv(c: Config, s: Shard, t: nat, system: bool, work: nat)
    requires Inv(c, s) && Enabled(s, Enter(t, system, work))
    ensures Inv(c, Step(c, s, Enter(t, system, work)))
  {
    if !s.stop {
      var s' := Step(c, s, Enter(t, system, work));
      MovedPc(s, t, Locked(system, work));
      assert forall u :: Pc(s', u) == if u == t then Locked(system, work) else Pc(s, u);
      assert forall u :: Pc(s, u).MustWake? ==> Pc(s', u).MustWake?;
    }
  }

  lemma PushKeepsInv(c: Config, s: Shard, t: nat)
    requires Inv(c, s) && Enabled(s, Push(t))
    ensures Inv(c, Step(c, s, Push(t)))
  {
    var s' := Step(c, s, Push(t));
    PushKeepsLock(c, s, t);
    PushSignals(c, s, t);
    assert s'.worker == s.worker && s'.stop == s.stop;
  }

  lemma PushKeepsLock(c: Config, s: Shard, t: nat)
    requires LockOk(s) && Pc(s, t).Locked? && MayAct(s, t)
    ensures LockOk(PushStep(c, s, t))
  {
    var s' := PushStep(c, s, t);
    var next := Pc(s', t);
    assert forall u :: Pc(s', u) == if u == t then next else Pc(s, u);
  }

  lemma PushSignals(c: Config, s: Shard, t: nat)
    requires Pc(s, t).Locked?
    ensures var s' := PushStep(c, s, t);
            && (Signalled(s) ==> Signalled(s'))
            && (s'.sys != s.sys || s'.user != s.user ==> Signalled(s'))
  {
    var s' := PushStep(c, s, t);
    var next := Pc(s', t);
    assert forall u :: Pc(s', u) == if u == t then next else Pc(s, u);
    assert forall u :: Pc(s, u).MustWake? ==> Pc(s', u).MustWake?;
  }

  lemma WakeKeepsInv(c: Config, s: Shard, t: nat)
    requires Inv(c, s) && Enabled(s, Wake(t))
    ensures Inv(c, Step(c, s, Wake(t)))
  {
    var s' := Step(c, s, Wake(t));
    assert forall u :: Pc(s', u) == if u == t then Idle else Pc(s, u);
  }

  lemma StopKeepsInv(c: Config, s: Shard, t: nat)
    requires Inv(c, s) && Enabled(s, RequestStop(t))
    ensures Inv(c, Step(c, s, RequestStop(t)))
  {
    var s' := Step(c, s, RequestStop(t));
    assert forall u :: Pc(s', u) == if u == t then MustWake else Pc(s, u);
    MustWakeSignals(s', t);
  }

  lemma WorkKeepsInv(c: Config, s: Shard)
    requires Inv(c, s) && WorkerEnabled(s)
    ensures Inv(c, WorkerStep(c, s))
  {
    WorkKeepsSignals(c, s);
    WorkKeepsWorkerOk(c, s);
    WorkKeepsLock(c, s);
  }

  lemma WorkKeepsLock(c: Config, s: Shard)
    requires LockOk(s) && WorkerEnabled(s)
    ensures LockOk(WorkerStep(c, s))
  {
    assert forall u :: Pc(WorkerStep(c, s), u) == Pc(s, u);
  }

  lemma WorkKeepsSignals(c: Config, s: Shard)
    requires LockOk(s) && WorkerOk(c, s) && NoLostWakeup(s) && WorkerEnabled(s)
    ensures NoLostWakeup(WorkerStep(c, s))
  {
    var s' := WorkerStep(c, s);
    assert forall u :: Pc(s', u) == Pc(s, u);
    assert s'.pending == s.pending ==> Signalled(s') == Signalled(s);
  }

  lemma WorkKeepsWorkerOk(c: Config, s: Shard)
    requires Inv(c, s) && WorkerEnabled(s)
    ensures WorkerOk(c, WorkerStep(c, s))
  {
  }

  lemma StepKeepsInv(c: Config, s: Shard, e: Event)
    requires Inv(c, s) && Enabled(s, e)
    ensures Inv(c, Step(c, s, e))
  {
    match e
    case Enter(t, system, work) => EnterKeepsInv(c, s, t, system, work);
    case Push(t) => PushKeepsInv(c, s, t);
    case Wake(t) => WakeKeepsInv(c, s, t);
    case RequestStop(t) => StopKeepsInv(c, s, t);
    case Start => assert forall u :: Pc(Step(c, s, e), u) == Pc(s, u);
    case Work => WorkKeepsInv(c, s);
  }

  lemma {:induction false} RunKeepsInv(c: Config, s: Shard, events: seq<Event>)
    requires Inv(c, s) && PossibleRun(c, s, events)
    ensures Inv(c, Run(c, s, events))
    decreases |events|
  {
    if events != [] {
      StepKeepsInv(c, s, events[0]);
      RunKeepsInv(c, Step(c, s, events[0]), events[1..]);
    }
  }

  // What holds in every reachable state

  /**
   A worker parked with no pending wake while there is work or a stop request is
   about to be woken: some thread is between its push or flag and its wake. That
   thread is never the worker's own.
   */
  lemma NoWakeupIsLost(c: Config, events: seq<Event>)
    requires PossibleRun(c, INITIAL, events)
    ensures var s := Run(c, INITIAL, events);
            s.worker.Parked? && s.pending == 0 && (s.stop || s.sys != [] || s.user != []) ==>
              exists t :: t != NESTED && Pc(s, t).MustWake?
  {
    InitialInv(c);
    RunKeepsInv(c, INITIAL, events);
  }

  // What was submitted, and what ran

  datatype Call = Call(system: bool, work: nat)

  /** The last submission that each thread began. */
  function Remembered(calls: map<nat, Call>, e: Event): map<nat, Call> {
    if e.Enter? then calls[e.thread := Call(e.system, e.work)] else calls
  }

  /** The continuation that a step accepts for a lane: the submitting thread is told so, and must wake the worker. */
  function Accepts(c: Config, s: Shard, calls: map<nat, Call>, e: Event, system: bool): seq<nat>
    requires Enabled(s, e)
  {
    if e.Push? && Pc(Step(c, s, e), e.thread).MustWake? && e.thread in calls && calls[e.thread].system == system
    then [calls[e.thread].work] else []
  }

  /** The continuation of a lane that the worker is calling, if any. */
  function InFlight(w: WorkerPc, system: bool): seq<nat> {
    if w.Running? && w.system == system then [w.work]
    else if w.DrainRunning? && w.system == system then [w.work]
    else []
  }

  /** The continuation of a lane that returns in a step. */
  function Finishes(s: Shard, e: Event, system: bool): seq<nat> {
    if e.Work? then InFlight(s.worker, system) else []
  }

  /** The work that was submitted to a lane and accepted during a run, in order. */
  ghost function Submitted(c: Config, s: Shard, calls: map<nat, Call>, events: seq<Event>, system: bool): seq<nat>
    requires PossibleRun(c, s, events)
    decreases |events|
  {
    if events == [] then []
    else Accepts(c, s, calls, events[0], system)
         + Submitted(c, Step(c, s, events[0]), Remembered(calls, events[0]), events[1..], system)
  }

  /** The work of a lane that the worker ran, in order. */
  ghost function Executed(c: Config, s: Shard, events: seq<Event>, system: bool): seq<nat>
    requires PossibleRun(c, s, events)
    decreases |events|
  {
    if events == [] then []
    else Finishes(s, events[0], system) + Executed(c, Step(c, s, events[0]), events[1..], system)
  }

  function Lane(s: Shard, system: bool): seq<nat> {
    if system then s.sys else s.user
  }

  /** Accepted and not finished yet. */
  function Unfinished(s: Shard, system: bool): seq<nat> {
    InFlight(s.worker, system) + Lane(s, system)
  }

  /** A thread inside a submission carries what it was asked to submit. */
  ghost predicate CallsOk(s: Shard, calls: map<nat, Call>) {
    forall t :: Pc(s, t).Locked? ==> t in calls && calls[t] == Call(Pc(s, t).system, Pc(s, t).work)
  }

  /**
   A submission is refused exactly when a stop was requested or its lane is full; otherwise its
   work, and nothing else, joins the end of the lane that was asked for.
   */
  lemma SubmitAnswers(c: Config, s: Shard, t: nat, system: bool, work: nat)
    requires Enabled(s, Enter(t, system, work))
    ensures var s1 := Step(c, s, Enter(t, system, work));
            && (Pc(s1, t).Idle? <==> s.stop) && (s.stop ==> s1 == s)
            && (!s.stop ==>
                  && Enabled(s1, Push(t))
                  && var s2 := Step(c, s1, Push(t));
                     && (Pc(s2, t).MustWake? <==> |Lane(s, system)| < c.capacity)
                     && (Pc(s2, t).Idle? <==> |Lane(s, system)| >= c.capacity)
                     && Lane(s2, system) == Lane(s, system) + (if Pc(s2, t).MustWake? then [work] else [])
                     && Lane(s2, !system) == Lane(s, !system) && s2.lock == None && s2.worker == s.worker)
  {
  }

  /** The worker looks for user work only after it has found the system lane empty, and takes the oldest work of a lane. */
  lemma SystemWorkFirst(c: Config, s: Shard)
    requires WorkerEnabled(s)
    ensures var w := WorkerStep(c, s).worker;
            && (w.Running? || w.DrainRunning? ==>
                  if w.system then s.sys != [] && w.work == s.sys[0] && WorkerStep(c, s).sys == s.sys[1..]
                  else (s.worker.PopUser? || s.worker.DrainUser?)
                       && s.user != [] && w.work == s.user[0] && WorkerStep(c, s).user == s.user[1..])
            && (w.PopUser? || w.DrainUser? ==> s.sys == [])
            && (s.worker.Iterate? && s.worker.remaining > 0 && s.sys != [] ==> w.Running? && w.system)
            && (s.worker.DrainSystem? && s.sys != [] ==> w.DrainRunning? && w.system)
  {
  }

  lemma CallsStayOk(c: Config, s: Shard, calls: map<nat, Call>, e: Event)
    requires Enabled(s, e) && CallsOk(s, calls)
    ensures CallsOk(Step(c, s, e), Remembered(calls, e))
  {
  }

  /** The other threads only add what they were told is accepted. */
  lemma OthersOnlyAdd(c: Config, s: Shard, calls: map<nat, Call>, e: Event, system: bool)
    requires Enabled(s, e) && CallsOk(s, calls) && !e.Work?
    ensures Lane(Step(c, s, e), system) == Lane(s, system) + Accepts(c, s, calls, e, system)
    ensures InFlight(Step(c, s, e).worker, system) == InFlight(s.worker, system)
  {
  }

  /** One step: what was unfinished or is accepted now is finished now or still unfinished. */
  lemma StepConserves(c: Config, s: Shard, calls: map<nat, Call>, e: Event, system: bool)
    requires Enabled(s, e) && CallsOk(s, calls)
    ensures Unfinished(s, system) + Accepts(c, s, calls, e, system) == Finishes(s, e, system) + Unfinished(Step(c, s, e), system)
  {
    if e.Work? {
      WorkConserves(c, s, system);
    } else {
      OthersOnlyAdd(c, s, calls, e, system);
      Associate(InFlight(s.worker, system), Lane(s, system), Accepts(c, s, calls, e, system));
    }
  }

  lemma Associate<T>(a: seq<T>, b: seq<T>, c: seq<T>)
    ensures (a + b) + c == [] + (a + (b + c))
  {
  }

  /** The worker leaves a lane alone, or takes its front continuation. */
  lemma WorkTakesFront(c: Config, s: Shard, system: bool)
    requires WorkerEnabled(s)
    ensures var lane, s' := Lane(s, system), WorkerStep(c, s);
            || (Lane(s', system) == lane && InFlight(s'.worker, system) == [])
            || (lane != [] && InFlight(s.worker, system) == [] && InFlight(s'.worker, system) == [lane[0]]
                && Lane(s', system) == lane[1..])
  {
  }

  lemma FrontFirst(lane: seq<nat>)
    requires lane != []
    ensures [lane[0]] + lane[1..] == lane
  {
  }

  lemma WorkConserves(c: Config, s: Shard, system: bool)
    requires WorkerEnabled(s)
    ensures Unfinished(s, system) == InFlight(s.worker, system) + Unfinished(WorkerStep(c, s), system)
  {
    WorkTakesFront(c, s, system);
    var lane, running, s' := Lane(s, system), InFlight(s.worker, system), WorkerStep(c, s);
    if Lane(s', system) == lane && InFlight(s'.worker, system) == [] {
      assert [] + lane == lane;
    } else {
      FrontFirst(lane);
      assert running + lane == lane;
    }
  }

  lemma {:induction false} RunConserves(c: Config, s: Shard, calls: map<nat, Call>, events: seq<Event>, system: bool)
    requires PossibleRun(c, s, events) && CallsOk(s, calls)
    ensures Unfinished(s, system) + Submitted(c, s, calls, events, system)
            == Executed(c, s, events, system) + Unfinished(Run(c, s, events), system)
    decreases |events|
  {
    if events != [] {
      var e, rest := events[0], events[1..];
      var s', calls' := Step(c, s, e), Remembered(calls, e);
      CallsStayOk(c, s, calls, e);
      StepConserves(c, s, calls, e, system);
      RunConserves(c, s', calls', rest, system);
      Chain(Unfinished(s, system), Accepts(c, s, calls, e, system), Submitted(c, s', calls', rest, system),
            Finishes(s, e, system), Unfinished(s', system), Executed(c, s', rest, system),
            Unfinished(Run(c, s', rest), system));
    }
  }

  lemma Chain<T>(a: seq<T>, b: seq<T>, more: seq<T>, x: seq<T>, a': seq<T>, y: seq<T>, z: seq<T>)
    requires a + b == x + a' && a' + more == y + z
    ensures a + (b + more) == (x + y) + z
  {
    assert a + (b + more) == (a + b) + more;
    assert x + (a' + more) == (x + a') + more;
    assert (x + y) + z == x + (y + z);
  }

  /** In every run, what was submitted to a lane and accepted has run, runs or waits: once each, in order, in that lane. */
  lemma WorkIsConserved(c: Config, events: seq<Event>, system: bool)
    requires PossibleRun(c, INITIAL, events)
    ensures Submitted(c, INITIAL, map[], events, system)
            == Executed(c, INITIAL, events, system) + Unfinished(Run(c, INITIAL, events), system)
  {
    RunConserves(c, INITIAL, map[], events, system);
    assert Unfinished(INITIAL, system) == [];
  }

  // Exit

  /** Everything submitted to the shard and accepted has run, lane by lane and in order. */
  ghost predicate AllRan(c: Config, events: seq<Event>)
    requires PossibleRun(c, INITIAL, events)
  {
    forall system :: Executed(c, INITIAL, events, system) == Submitted(c, INITIAL, map[], events, system)
  }

  ghost predicate NothingSubmitted(c: Config, events: seq<Event>)
    requires PossibleRun(c, INITIAL, events)
  {
    forall system :: Submitted(c, INITIAL, map[], events, system) == []
  }

  ghost predicate NothingRan(c: Config, events: seq<Event>)
    requires PossibleRun(c, INITIAL, events)
  {
    forall system :: Executed(c, INITIAL, events, system) == []
  }

  /** The worker has not got past its first look at the stop flag, or left the loop there. */
  predicate Early(w: WorkerPc) {
    w.NotStarted? || w.CheckStop? || w.Failed?
  }

  lemma {:induction false} PastEarlyStays(c: Config, s: Shard, events: seq<Event>)
    requires Inv(c, s) && PossibleRun(c, s, events) && !c.budget.Valid() && !Early(s.worker)
    ensures !Early(Run(c, s, events).worker)
    decreases |events|
  {
    if events != [] {
      StepKeepsInv(c, s, events[0]);
      PastEarlyStays(c, Step(c, s, events[0]), events[1..]);
    }
  }

  lemma {:induction false} EarlyRanNothing(c: Config, s: Shard, events: seq<Event>, system: bool)
    requires Inv(c, s) && PossibleRun(c, s, events) && !c.budget.Valid() && Early(Run(c, s, events).worker)
    ensures Executed(c, s, events, system) == []
    decreases |events|
  {
    if events != [] {
      if !Early(s.worker) {
        PastEarlyStays(c, s, events);
      }
      StepKeepsInv(c, s, events[0]);
      EarlyRanNothing(c, Step(c, s, events[0]), events[1..], system);
    }
  }

  lemma AtRestRanAll(c: Config, events: seq<Event>)
    requires PossibleRun(c, INITIAL, events)
    requires forall system :: Unfinished(Run(c, INITIAL, events), system) == []
    ensures AllRan(c, events)
  {
    forall system
      ensures Executed(c, INITIAL, events, system) == Submitted(c, INITIAL, map[], events, system)
    {
      WorkIsConserved(c, events, system);
    }
  }

  /**
   When the worker loop has exited, everything that was submitted and accepted has run, once and in
   the order of its lane, exactly if the loop drained or nothing was accepted. It
   skips the drain only because of an invalid budget, and then nothing has run.
   */
  lemma ExitRanEverything(c: Config, events: seq<Event>)
    requires PossibleRun(c, INITIAL, events)
    requires Run(c, INITIAL, events).worker.Done? || Run(c, INITIAL, events).worker.Failed?
    ensures var s := Run(c, INITIAL, events);
            && (AllRan(c, events) <==> s.worker.Done? || NothingSubmitted(c, events))
            && (s.worker.Failed? ==> !c.budget.Valid() && NothingRan(c, events))
  {
    InitialInv(c);
    RunKeepsInv(c, INITIAL, events);
    var s := Run(c, INITIAL, events);
    if s.worker.Done? {
      AtRestRanAll(c, events);
    } else {
      forall system
        ensures Executed(c, INITIAL, events, system) == []
      {
        EarlyRanNothing(c, INITIAL, events, system);
      }
    }
  }

  lemma ValidBudgetAlwaysDrains(c: Config, events: seq<Event>)
    requires PossibleRun(c, INITIAL, events) && c.budget.Valid()
    ensures !Run(c, INITIAL, events).worker.Failed?
  {
    InitialInv(c);
    RunKeepsInv(c, INITIAL, events);
  }

  /** An invalid budget loses accepted work: a submission, a start and one look at the stop flag. */
  lemma InvalidBudgetLosesWork(c: Config, work: nat)
    requires !c.budget.Valid() && c.capacity > 0
    ensures var events := [Enter(1, false, work)] + ([Push(1)] + ([Wake(1)] + ([Start] + ([Work] + []))));
            PossibleRun(c, INITIAL, events) && !AllRan(c, events)
            && Run(c, INITIAL, events).worker.Failed?
  {
    var s1 := Step(c, INITIAL, Enter(1, false, work));
    var s2 := Step(c, s1, Push(1));
    var s3 := Step(c, s2, Wake(1));
    var s4 := Step(c, s3, Start);
    var s5 := Step(c, s4, Work);
    RunFrom(c, s4, Work, []);
    RunFrom(c, s3, Start, [Work] + []);
    RunFrom(c, s2, Wake(1), [Start] + ([Work] + []));
    RunFrom(c, s1, Push(1), [Wake(1)] + ([Start] + ([Work] + [])));
    RunFrom(c, INITIAL, Enter(1, false, work), [Push(1)] + ([Wake(1)] + ([Start] + ([Work] + []))));
    var events := [Enter(1, false, work)] + ([Push(1)] + ([Wake(1)] + ([Start] + ([Work] + []))));
    assert s5.user == [work] && s5.worker == Failed;
    WorkIsConserved(c, events, false);
  }

  lemma RunFrom(c: Config, s: Shard, e: Event, rest: seq<Event>)
    requires Enabled(s, e) && PossibleRun(c, Step(c, s, e), rest)
    ensures PossibleRun(c, s, [e] + rest) && Run(c, s, [e] + rest) == Run(c, Step(c, s, e), rest)
  {
    assert ([e] + rest)[1..] == rest;
  }

  ghost predicate Exited(s: Shard) {
    s.worker.Done? || s.worker.Failed?
  }

  /** Whenever the loop has exited, everything accepted has run. */
  ghost predicate NeverLosesWork(c: Config) {
    forall events :: PossibleRun(c, INITIAL, events) && Exited(Run(c, INITIAL, events)) ==> AllRan(c, events)
  }

  /** A shard loses no work in any run exactly if its budget is valid, or it cannot accept work at all. */
  lemma LosesNoWorkIff(c: Config)
    ensures NeverLosesWork(c) <==> c.budget.Valid() || c.capacity == 0
  {
    if c.budget.Valid() || c.capacity == 0 {
      forall events | PossibleRun(c, INITIAL, events) && Exited(Run(c, INITIAL, events))
        ensures AllRan(c, events)
      {
        ExitRanEverything(c, events);
        if c.budget.Valid() {
          ValidBudgetAlwaysDrains(c, events);
        } else {
          forall system
            ensures Submitted(c, INITIAL, map[], events, system) == []
          {
            NothingAccepted(c, INITIAL, map[], events, system);
          }
        }
      }
    } else {
      InvalidBudgetLosesWork(c, 0);
    }
  }

  lemma {:induction false} NothingAccepted(c: Config, s: Shard, calls: map<nat, Call>, events: seq<Event>, system: bool)
    requires c.capacity == 0 && PossibleRun(c, s, events)
    ensures Submitted(c, s, calls, events, system) == []
    decreases |events|
  {
    if events != [] {
      NothingAccepted(c, Step(c, s, events[0]), Remembered(calls, events[0]), events[1..], system);
    }
  }

  // Progress

  /** No thread is in a call. */
  ghost predicate Quiet(s: Shard) {
    forall t :: Pc(s, t).Idle?
  }

  function Rank(s: Shard): nat {
    var signal := if s.pending > 0 then 10 else 0;
    match s.worker
    case Done => 0
    case Failed => 0
    case NotStarted => 0
    case DrainUser => 1
    case DrainSystem => 2
    case DrainRunning(_, _) => 3
    case Parked => 4 + signal
    case Wait => 5 + signal
    case PopUser(_, count) => (if count == 0 then 6 else 9) + signal
    case Iterate(_, count) => (if count == 0 then 7 else 10) + signal
    case CheckStop => 8 + signal
    case Consume => 9
    case Running(_, _, _, _) => 11 + signal
  }

  /** Falls with every worker step. */
  function Measure(s: Shard): nat {
    30 * (|s.sys| + |s.user|) + Rank(s)
  }

  lemma WorkFalls(c: Config, s: Shard)
    requires Inv(c, s) && WorkerEnabled(s)
    ensures Measure(WorkerStep(c, s)) < Measure(s)
  {
  }

  ghost predicate AllWork(events: seq<Event>) {
    forall i :: 0 <= i < |events| ==> events[i] == Work
  }

  /** The worker's steps when it runs alone until it can do no more. */
  ghost function Alone(c: Config, s: Shard): seq<Event>
    requires Inv(c, s)
    decreases Measure(s)
  {
    if !WorkerEnabled(s) then []
    else
      WorkKeepsInv(c, s);
      WorkFalls(c, s);
      [Work] + Alone(c, WorkerStep(c, s))
  }

  /** Running alone is possible, accepts nothing, and ends at rest. */
  lemma {:induction false} AloneRests(c: Config, s: Shard)
    requires Inv(c, s) && Quiet(s) && c.budget.Valid() && !s.worker.NotStarted?
    ensures PossibleRun(c, s, Alone(c, s))
    ensures AllWork(Alone(c, s))
    ensures AtRest(Run(c, s, Alone(c, s))) && Run(c, s, Alone(c, s)).stop == s.stop
    decreases Measure(s)
  {
    if WorkerEnabled(s) {
      WorkKeepsInv(c, s);
      WorkFalls(c, s);
      WorkKeepsQuiet(c, s);
      AloneRests(c, WorkerStep(c, s));
      RunFrom(c, s, Work, Alone(c, WorkerStep(c, s)));
    } else {
      QuietAtRest(c, s);
    }
  }

  lemma {:induction false} RunAppend(c: Config, s: Shard, events: seq<Event>, more: seq<Event>)
    requires PossibleRun(c, s, events) && PossibleRun(c, Run(c, s, events), more)
    ensures PossibleRun(c, s, events + more) && Run(c, s, events + more) == Run(c, Run(c, s, events), more)
    decreases |events|
  {
    if events == [] {
      assert events + more == more;
    } else {
      RunAppend(c, Step(c, s, events[0]), events[1..], more);
      assert (events + more)[1..] == events[1..] + more;
    }
  }

  lemma {:induction false} WorkSubmitsNothing(
      c: Config, s: Shard, calls: map<nat, Call>, events: seq<Event>, more: seq<Event>, system: bool)
    requires PossibleRun(c, s, events) && PossibleRun(c, s, events + more) && AllWork(more)
    ensures Submitted(c, s, calls, events + more, system) == Submitted(c, s, calls, events, system)
    decreases |events|, |more|
  {
    if events != [] {
      assert (events + more)[1..] == events[1..] + more;
      WorkSubmitsNothing(c, Step(c, s, events[0]), Remembered(calls, events[0]), events[1..], more, system);
    } else if more != [] {
      assert events + more == more && more[0] == Work && [] + more[1..] == more[1..];
      WorkSubmitsNothing(c, Step(c, s, Work), calls, [], more[1..], system);
    }
  }

  /**
   Once no thread is in a call, a started worker with a valid budget comes to rest by itself
   with everything submitted and accepted run in order: exited if a stop was requested, parked if not.
   */
  lemma QuietWorkerFinishes(c: Config, events: seq<Event>)
    requires PossibleRun(c, INITIAL, events) && c.budget.Valid()
    requires Quiet(Run(c, INITIAL, events)) && !Run(c, INITIAL, events).worker.NotStarted?
    ensures var s := Run(c, INITIAL, events);
            && Inv(c, s)
            && var all := events + Alone(c, s);
               && PossibleRun(c, INITIAL, all) && AllRan(c, all)
               && (forall system :: Submitted(c, INITIAL, map[], all, system) == Submitted(c, INITIAL, map[], events, system))
               && var r := Run(c, INITIAL, all);
                  if s.stop then r.worker.Done? else r.worker.Parked? && r.pending == 0
  {
    InitialInv(c);
    RunKeepsInv(c, INITIAL, events);
    var s := Run(c, INITIAL, events);
    AloneRests(c, s);
    RunAppend(c, INITIAL, events, Alone(c, s));
    AtRestRanAll(c, events + Alone(c, s));
    forall system
      ensures Submitted(c, INITIAL, map[], events + Alone(c, s), system) == Submitted(c, INITIAL, map[], events, system)
    {
      WorkSubmitsNothing(c, INITIAL, map[], events, Alone(c, s), system);
    }
  }

  lemma WorkKeepsQuiet(c: Config, s: Shard)
    requires Quiet(s) && WorkerEnabled(s) && c.budget.Valid()
    ensures var s' := WorkerStep(c, s); Quiet(s') && !s'.worker.NotStarted? && s'.stop == s.stop
  {
    assert forall t :: Pc(WorkerStep(c, s), t) == Pc(s, t);
  }

  /** Nothing waits or runs, and the worker has exited or sleeps without a wake. */
  ghost predicate AtRest(s: Shard) {
    && (forall system :: Unfinished(s, system) == [])
    && if s.stop then s.worker.Done? else s.worker.Parked? && s.pending == 0
  }

  lemma QuietAtRest(c: Config, s: Shard)
    requires Inv(c, s) && Quiet(s) && c.budget.Valid() && !WorkerEnabled(s) && !s.worker.NotStarted?
    ensures AtRest(s)
  {
    assert s.worker.Done? || s.worker.Parked?;
    assert s.sys == s.user == [];
  }
}
