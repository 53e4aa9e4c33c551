/** The shard's two-queue mailbox (include/voris/io/detail/mailbox.hpp, bounded_queue.hpp). */
module Mailboxes {
  import opened Common
  import opened LoopBudgets

  class BoundedQueue {
    const capacity: nat
    var items: seq<nat>
    var pressure: nat

    /** The failed-push pressure saturates, and is zero after any change of the contents. */
    ghost predicate Valid()
      reads this
    {
      |items| <= capacity && pressure <= (if capacity == 0 then 1 else capacity)
      && (pressure > 0 ==> |items| == capacity)
    }

    constructor (capacity: nat)
      ensures Valid() && items == [] && pressure == 0 && this.capacity == capacity
    {
      this.capacity := capacity;
      items, pressure := [], 0;
    }

    method TryPush(value: nat) returns (r: VoidResult)
      requires Valid()
      modifies this
      ensures Valid()
      ensures r == if |old(items)| < capacity then Ok(()) else Err(ResourceExhausted)
      ensures items == if r.Ok? then old(items) + [value] else old(items)
      ensures r.Ok? ==> pressure == 0
      ensures r.Err? ==> pressure == Min(old(pressure) + 1, if capacity == 0 then 1 else capacity)
    {
      if capacity == 0 || |items| >= capacity {
        if pressure < (if capacity == 0 then 1 else capacity) {
          pressure := pressure + 1;
        }
        return Err(ResourceExhausted);
      }
      items := items + [value];
      pressure := 0;
      return Ok(());
    }

    method Pop() returns (r: Option<nat>)
      requires Valid()
      modifies this
      ensures Valid()
      ensures if old(items) == [] then r.None? && items == [] && pressure == old(pressure)
              else r == Some(old(items)[0]) && items == old(items)[1..] && pressure == 0
    {
      if items == [] {
        return None;
      }
      r := Some(items[0]);
      items := items[1..];
      pressure := 0;
    }
  }

  /** The history of one queue: what it accepted and what was taken from it to be run, in order. */
  datatype Lane = Lane(accepted: seq<nat>, ran: seq<nat>)

  /** Taking the first item of a queue, which `behind` follows, keeps what ran and what waits together. */
  lemma TakeFirst(ran: seq<nat>, items: seq<nat>, behind: seq<nat>)
    ensures items != [] ==> ran + items == (ran + [items[0]]) + items[1..]
    ensures items != [] ==> (items + behind)[0] == items[0] && (items + behind)[1..] == items[1..] + behind
    ensures items == [] ==> items + behind == behind
  {
  }

  lemma NextOf(all: seq<nat>, ran: nat)
    requires ran <= |all|
    ensures ran < |all| ==> all[ran..][0] == all[ran] && all[ran..][1..] == all[ran + 1..]
    ensures ran < |all| ==> all[..ran + 1] == all[..ran] + [all[ran]]
    ensures ran == |all| ==> all[..ran] == all && all[ran..] == []
  {
  }

  class Mailbox {
    const queue: BoundedQueue
    const systemQueue: BoundedQueue
    ghost var user: Lane
    ghost var sys: Lane
    /** The continuations run so far, in order. */
    ghost var log: seq<nat>

    /** What was accepted has run or waits, in order, in either queue. */
    ghost predicate Valid()
      reads this, queue, systemQueue
    {
      && queue != systemQueue && queue.Valid() && systemQueue.Valid() && systemQueue.capacity == queue.capacity
      && user.accepted == user.ran + queue.items && sys.accepted == sys.ran + systemQueue.items
    }

    /** Everything waiting, in the order in which it is taken. */
    ghost function Waiting(): seq<nat>
      reads queue, systemQueue
    {
      systemQueue.items + queue.items
    }

    constructor (capacity: nat)
      ensures Valid() && fresh(queue) && fresh(systemQueue) && Waiting() == [] && log == []
      ensures queue.capacity == capacity && user == sys == Lane([], [])
    {
      queue := new BoundedQueue(capacity);
      systemQueue := new BoundedQueue(capacity);
      user, sys, log := Lane([], []), Lane([], []), [];
    }

    method Submit(work: nat) returns (r: VoidResult)
      requires Valid()
      modifies this`user, queue
      ensures Valid() && r == if |old(queue.items)| < queue.capacity then Ok(()) else Err(ResourceExhausted)
      ensures user == if r.Ok? then old(user).(accepted := old(user).accepted + [work]) else old(user)
      ensures Waiting() == if r.Ok? then old(Waiting()) + [work] else old(Waiting())
    {
      r := queue.TryPush(work);
      if r.Ok? {
        user := user.(accepted := user.accepted + [work]);
      }
    }

    /** System work goes behind other system work and before all user work. */
    method SubmitSystem(work: nat) returns (r: VoidResult)
      requires Valid()
      modifies this`sys, systemQueue
      ensures Valid() && r == if |old(systemQueue.items)| < queue.capacity then Ok(()) else Err(ResourceExhausted)
      ensures sys == if r.Ok? then old(sys).(accepted := old(sys).accepted + [work]) else old(sys)
      ensures Waiting() == if r.Ok? then old(systemQueue.items) + [work] + queue.items else old(Waiting())
    {
      r := systemQueue.TryPush(work);
      if r.Ok? {
        sys := sys.(accepted := sys.accepted + [work]);
      }
    }

    /** Takes the next continuation, which is about to run. */
    method PopNext() returns (next: Option<nat>)
      requires Valid()
      modifies this`user, this`sys, this`log, queue, systemQueue
      ensures Valid() && user.accepted == old(user).accepted && sys.accepted == old(sys).accepted
      ensures next == if old(Waiting()) == [] then None else Some(old(Waiting())[0])
      ensures Waiting() == if next.None? then [] else old(Waiting())[1..]
      ensures log == if next.None? then old(log) else old(log) + [next.value]
      ensures old(systemQueue.items) != [] ==> queue.items == old(queue.items)
    {
      TakeFirst(sys.ran, systemQueue.items, queue.items);
      TakeFirst(user.ran, queue.items, []);
      next := systemQueue.Pop();
      if next.Some? {
        sys := sys.(ran := sys.ran + [next.value]);
        log := log + [next.value];
        return;
      }
      next := queue.Pop();
      if next.Some? {
        user := user.(ran := user.ran + [next.value]);
        log := log + [next.value];
      }
    }

    /** A continuation runs: it may submit work itself, `more` times at most. */
    method RunWork(more: nat) returns (left: nat)
      requires Valid()
      modifies this`user, this`sys, queue, systemQueue
      ensures Valid() && left <= more && (left == more ==> Waiting() == old(Waiting()))
      ensures old(user).accepted <= user.accepted && old(sys).accepted <= sys.accepted
    {
      left := more;
      var again: bool := *;
      while again && left > 0
        invariant Valid() && left <= more && (left == more ==> Waiting() == old(Waiting()))
        invariant old(user).accepted <= user.accepted && old(sys).accepted <= sys.accepted
        decreases left
      {
        var system: bool, work: nat := *, *;
        if system {
          var r := SubmitSystem(work);
        } else {
          var r := Submit(work);
        }
        left := left - 1;
        again := *;
      }
    }

    /**
     Runs waiting continuations in order, up to the task budget, and stops early only
     when nothing waits. The continuations may submit `more` times in all; if they do not
     submit, exactly the first waiting ones run.
     */
    method RunForBudget(budget: LoopBudgetSlice, more: nat) returns (ran: nat)
      requires Valid()
      modifies this`user, this`sys, this`log, queue, systemQueue, budget`consumedTasks
      ensures Valid() && |log| == |old(log)| + ran && old(log) <= log
      ensures ran <= old(budget.RemainingTasks()) && budget.RemainingTasks() == old(budget.RemainingTasks()) - ran
      ensures ran < old(budget.RemainingTasks()) ==> Waiting() == []
      ensures old(user).accepted <= user.accepted && old(sys).accepted <= sys.accepted
      ensures more == 0 ==> ran == Min(old(budget.RemainingTasks()), |old(Waiting())|)
      ensures more == 0 ==> log == old(log) + old(Waiting())[..ran] && Waiting() == old(Waiting())[ran..]
    {
      ghost var all, total := Waiting(), budget.RemainingTasks();
      ran := 0;
      var left: nat := more;
      var ok := true;
      while ok && budget.RemainingTasks() > 0
        invariant Valid() && |log| == |old(log)| + ran && old(log) <= log && left <= more
        invariant budget.RemainingTasks() == total - ran && (!ok ==> Waiting() == [])
        invariant old(user).accepted <= user.accepted && old(sys).accepted <= sys.accepted
        invariant more == 0 ==> ran <= |all| && Waiting() == all[ran..] && log == old(log) + all[..ran]
        decreases ok, budget.RemainingTasks()
      {
        if more == 0 {
          NextOf(all, ran);
        }
        ok, left := RunOneWithin(budget, left);
        if ok {
          ran := ran + 1;
        }
      }
    }

    /** One round of the loop in `run_for_budget`: the unit of budget is spent before the work runs. */
    method RunOneWithin(budget: LoopBudgetSlice, more: nat) returns (ok: bool, left: nat)
      requires Valid() && budget.RemainingTasks() > 0
      modifies this`user, this`sys, this`log, queue, systemQueue, budget`consumedTasks
      ensures Valid() && left <= more && (ok <==> old(Waiting()) != [])
      ensures budget.RemainingTasks() == old(budget.RemainingTasks()) - (if ok then 1 else 0)
      ensures old(user).accepted <= user.accepted && old(sys).accepted <= sys.accepted
      ensures log == if ok then old(log) + [old(Waiting())[0]] else old(log)
      ensures !ok ==> Waiting() == []
      ensures ok && left == more ==> Waiting() == old(Waiting())[1..]
    {
      var next := PopNext();
      if next.None? {
        return false, more;
      }
      var consumed := budget.ConsumeTask();
      left := RunWork(more);
      return true, left;
    }

    method RunOne(more: nat) returns (ok: bool, left: nat)
      requires Valid()
      modifies this`user, this`sys, this`log, queue, systemQueue
      ensures Valid() && left <= more && (ok <==> old(Waiting()) != [])
      ensures old(user).accepted <= user.accepted && old(sys).accepted <= sys.accepted
      ensures log == if ok then old(log) + [old(Waiting())[0]] else old(log)
      ensures !ok ==> Waiting() == [] && left == more
      ensures ok && left == more ==> Waiting() == old(Waiting())[1..]
    {
      var next := PopNext();
      if next.None? {
        return false, more;
      }
      left := RunWork(more);
      return true, left;
    }

    /** `run_until_idle`, and the shard's `drain`: it ends once the work stops submitting, and everything accepted has run. */
    method RunUntilIdle(more: nat) returns (ran: nat)
      requires Valid()
      modifies this`user, this`sys, this`log, queue, systemQueue
      ensures Valid() && Waiting() == [] && |log| == |old(log)| + ran && old(log) <= log
      ensures user.ran == user.accepted && sys.ran == sys.accepted
      ensures old(user).accepted <= user.accepted && old(sys).accepted <= sys.accepted
      ensures more == 0 ==> log == old(log) + old(Waiting())
    {
      ghost var all := Waiting();
      ran := 0;
      var left: nat := more;
      var ok := true;
      while ok
        invariant Valid() && left <= more && |log| == |old(log)| + ran && old(log) <= log
        invariant old(user).accepted <= user.accepted && old(sys).accepted <= sys.accepted
        invariant !ok ==> Waiting() == []
        invariant more == 0 ==> ran <= |all| && Waiting() == all[ran..] && log == old(log) + all[..ran]
        decreases ok, left, |Waiting()|
      {
        if more == 0 {
          NextOf(all, ran);
        }
        ok, left := RunOne(left);
        if ok {
          ran := ran + 1;
        }
      }
      assert user.ran + [] == user.ran && sys.ran + [] == sys.ran;
    }
  }
}
