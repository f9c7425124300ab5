/** The daily call-budget gate: a clamped subtraction compared with the calls a run needs. */
module Budget {
  import opened CivilTime

  const DefaultDailyLimit := 1000

  datatype BudgetReason = BudgetOk | BudgetExceeded

  datatype BudgetDecision = BudgetDecision(shouldCollect: bool, remainingCalls: int, reason: BudgetReason)

  /** `check_budget(today=..., used_calls_today=..., required_calls=..., daily_limit=1000)`. */
  function CheckBudget(today: Date, usedCallsToday: int, requiredCalls: int, dailyLimit: int := DefaultDailyLimit)
    : (d: BudgetDecision)
    ensures d.remainingCalls >= 0 && d.remainingCalls >= dailyLimit - usedCallsToday
    ensures d.remainingCalls == 0 || d.remainingCalls == dailyLimit - usedCallsToday
    ensures d.shouldCollect <==> d.remainingCalls >= requiredCalls
    ensures d.reason == (if d.shouldCollect then BudgetOk else BudgetExceeded)
  {
    var difference := dailyLimit - usedCallsToday;
    var remaining := if difference < 0 then 0 else difference;
    if remaining >= requiredCalls then BudgetDecision(true, remaining, BudgetOk)
    else BudgetDecision(false, remaining, BudgetExceeded)
  }

  /** A run that needs no calls is always allowed, even past the limit. */
  lemma NothingRequiredAlwaysPasses(today: Date, used: int, limit: int)
    ensures CheckBudget(today, used, 0, limit).shouldCollect
  {
  }

  /** The decision does not depend on the date it is given. */
  lemma IndependentOfToday(a: Date, b: Date, used: int, required: int, limit: int)
    ensures CheckBudget(a, used, required, limit) == CheckBudget(b, used, required, limit)
  {
  }

  /** With the default limit, a run needing four calls passes iff at most 996 were used. */
  lemma FourCallsUnderDefaultLimit(today: Date, used: int)
    ensures CheckBudget(today, used, 4).shouldCollect <==> used <= 996
  {
  }

  /** Spending more calls never reopens a closed budget. */
  lemma MoreUsageNeverUnblocks(today: Date, used1: int, used2: int, required: int, limit: int)
    requires used1 <= used2 && CheckBudget(today, used2, required, limit).shouldCollect
    ensures CheckBudget(today, used1, required, limit).shouldCollect
  {
  }
}
