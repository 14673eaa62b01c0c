/** Mode 1, "Raise % to Cost" (app/page.js, lines 31-36 and 165): a planned
    raise percentage gives the new salary and the employer-cost impact. */
module RaiseToCost {
  import opened Rates

  /** The figures of the mode-1 table, all monthly. */
  datatype Impact = Impact(
    newSalary: real,
    salaryIncrease: real,
    currentCost: real,
    newCost: real,
    costIncrease: real)

  /** The raised salary. */
  function NewSalary(salary: real, raise: real): (r: real)
    ensures r - salary == salary * raise / 100.0
    ensures raise == 0.0 ==> r == salary
  {
    salary * (1.0 + raise / 100.0)
  }

  /** Every mode-1 figure for a salary and a raise percentage. */
  function Compute(c: Country, salary: real, raise: real): (r: Impact)
    ensures r.salaryIncrease == salary * raise / 100.0
    ensures r.currentCost == Cost(c, salary)
    ensures r.newCost == Cost(c, r.newSalary)
    ensures r.costIncrease == r.salaryIncrease * Factor(c)
    ensures r.newSalary == salary + r.salaryIncrease
    ensures raise == 0.0 ==> r.salaryIncrease == 0.0 && r.costIncrease == 0.0
  {
    var newSalary := NewSalary(salary, raise);
    var currentCost := Cost(c, salary);
    var newCost := Cost(c, newSalary);
    CostAdditive(c, salary, newSalary);
    Impact(newSalary, newSalary - salary, currentCost, newCost, newCost - currentCost)
  }

  /** The "Budget Impact" percentage: cost increase relative to current cost,
      shown as 0 when there is no positive current cost. */
  function BudgetImpact(c: Country, salary: real, raise: real): (r: real)
    ensures r == (if salary > 0.0 then raise else 0.0)
  {
    var m := Compute(c, salary, raise);
    if m.currentCost > 0.0 then
      BudgetImpactCancels(c, salary, raise);
      m.costIncrease / m.currentCost * 100.0
    else 0.0
  }

  /** For a positive salary the rate factor cancels from the impact ratio. */
  lemma BudgetImpactCancels(c: Country, salary: real, raise: real)
    requires salary > 0.0
    ensures Compute(c, salary, raise).costIncrease / Compute(c, salary, raise).currentCost * 100.0 == raise
  {
    var m := Compute(c, salary, raise);
    var f := Factor(c);
    assert m.costIncrease == salary * f * (raise / 100.0);
    assert m.currentCost == salary * f;
    assert m.costIncrease / m.currentCost == raise / 100.0;
  }

  /** A raise costs the employer its salary increase times the cost factor:
      percentage raises and cost increases are proportional. */
  lemma CostIncreaseLinear(c: Country, salary: real, raise1: real, raise2: real)
    ensures Compute(c, salary, raise1 + raise2).costIncrease
         == Compute(c, salary, raise1).costIncrease + Compute(c, salary, raise2).costIncrease
  {
    var f := Factor(c);
    assert salary * (raise1 + raise2) / 100.0 == salary * raise1 / 100.0 + salary * raise2 / 100.0;
    assert (salary * raise1 / 100.0 + salary * raise2 / 100.0) * f
        == salary * raise1 / 100.0 * f + salary * raise2 / 100.0 * f;
  }
}
