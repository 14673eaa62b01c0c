/** Mode 2, "Budget EUR to Raise %" (app/page.js, lines 38-43): a monthly
    euro budget on top of the current employer cost gives the most the salary
    can be raised. */
module BudgetToRaise {
  import opened Rates

  /** The figures of the mode-2 panel and table, all monthly except the two
      percentages. */
  datatype Affordable = Affordable(
    currentCost: real,
    targetCost: real,
    newSalary: real,
    salaryIncrease: real,
    raisePercent: real,
    budgetPercent: real)

  /** Every mode-2 figure for a salary and a budget. Both percentages are
      guarded: 0 instead of a division by a non-positive salary or cost. */
  function Compute(c: Country, salary: real, budget: real): (r: Affordable)
    ensures r.currentCost == Cost(c, salary)
    ensures r.targetCost == r.currentCost + budget
    ensures Cost(c, r.newSalary) == r.targetCost
    ensures Cost(c, r.salaryIncrease) == budget
    ensures salary <= 0.0 ==> r.raisePercent == 0.0
    ensures salary > 0.0 ==> r.raisePercent == r.salaryIncrease / salary * 100.0
    ensures r.currentCost <= 0.0 ==> r.budgetPercent == 0.0
    ensures r.currentCost > 0.0 ==> r.budgetPercent == budget / r.currentCost * 100.0
    ensures budget == 0.0 ==> r.newSalary == salary && r.salaryIncrease == 0.0
    ensures budget == 0.0 ==> r.raisePercent == 0.0 && r.budgetPercent == 0.0
  {
    var currentCost := Cost(c, salary);
    var targetCost := currentCost + budget;
    var newSalary := SalaryFor(c, targetCost);
    var salaryIncrease := newSalary - salary;
    CostAdditive(c, salary, newSalary);
    var raisePercent := if salary > 0.0 then salaryIncrease / salary * 100.0 else 0.0;
    var budgetPercent := if currentCost > 0.0 then budget / currentCost * 100.0 else 0.0;
    Affordable(currentCost, targetCost, newSalary, salaryIncrease, raisePercent, budgetPercent)
  }

  /** The affordable salary increase is the budget divided by the cost factor. */
  lemma IncreaseIsBudgetOverFactor(c: Country, salary: real, budget: real)
    ensures Compute(c, salary, budget).salaryIncrease == budget / Factor(c)
  {
    var r := Compute(c, salary, budget);
    assert r.salaryIncrease * Factor(c) == budget;
  }

  /** The affordable raise percentage always equals the budget percentage
      shown beside it: the rate factor cancels, and the two guards agree
      because the cost is positive exactly when the salary is. */
  lemma RaisePercentIsBudgetPercent(c: Country, salary: real, budget: real)
    ensures Compute(c, salary, budget).raisePercent == Compute(c, salary, budget).budgetPercent
  {
    var r := Compute(c, salary, budget);
    var f := Factor(c);
    if salary > 0.0 {
      IncreaseIsBudgetOverFactor(c, salary, budget);
      assert r.salaryIncrease / salary == budget / (salary * f);
      assert r.currentCost == salary * f;
    }
  }
}
