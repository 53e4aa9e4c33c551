/** Per-iteration budgets (include/voris/io/loop_budget.hpp). */
module LoopBudgets {
  import opened Common

  datatype LoopBudget = LoopBudget(taskBudget: nat, completionBudget: nat, timerBudget: nat) {
    predicate Valid() {
      taskBudget != 0 && completionBudget != 0 && timerBudget != 0
    }
  }

  /** What is left of a limit; the counter may not exceed it, but the source saturates anyway. */
  function Remaining(limit: nat, consumed: nat): nat {
    if consumed >= limit then 0 else limit - consumed
  }

  class LoopBudgetSlice {
    const budget: LoopBudget
    var consumedTasks: nat
    var consumedCompletions: nat
    var consumedTimers: nat

    constructor (budget: LoopBudget)
      ensures this.budget == budget
      ensures consumedTasks == consumedCompletions == consumedTimers == 0
    {
      this.budget := budget;
      consumedTasks, consumedCompletions, consumedTimers := 0, 0, 0;
    }

    static method Create(budget: LoopBudget) returns (r: Result<LoopBudgetSlice, ErrorCode>)
      ensures r.Ok? <==> budget.Valid()
      ensures r.Err? ==> r.error == InvalidState
      ensures r.Ok? ==> fresh(r.value) && r.value.budget == budget
      ensures r.Ok? ==> r.value.consumedTasks == r.value.consumedCompletions == r.value.consumedTimers == 0
    {
      if !budget.Valid() {
        return Err(InvalidState);
      }
      var slice := new LoopBudgetSlice(budget);
      return Ok(slice);
    }

    function RemainingTasks(): nat
      reads this
    {
      Remaining(budget.taskBudget, consumedTasks)
    }

    function RemainingTimers(): nat
      reads this
    {
      Remaining(budget.timerBudget, consumedTimers)
    }

    method ConsumeTask() returns (consumed: bool)
      modifies this`consumedTasks
      ensures consumed <==> old(RemainingTasks()) > 0
      ensures RemainingTasks() == old(RemainingTasks()) - (if consumed then 1 else 0)
      ensures consumedTasks == old(consumedTasks) + (if consumed then 1 else 0)
    {
      if consumedTasks >= budget.taskBudget {
        return false;
      }
      consumedTasks := consumedTasks + 1;
      return true;
    }

    method ConsumeTimer() returns (consumed: bool)
      modifies this`consumedTimers
      ensures consumed <==> old(RemainingTimers()) > 0
      ensures RemainingTimers() == old(RemainingTimers()) - (if consumed then 1 else 0)
      ensures consumedTimers == old(consumedTimers) + (if consumed then 1 else 0)
    {
      if consumedTimers >= budget.timerBudget {
        return false;
      }
      consumedTimers := consumedTimers + 1;
      return true;
    }
  }
}
