/** One evaluation of the salary budget page (app/page.js): the inputs are
    read, both modes are computed, and the selected mode's monthly/annual
    table is laid out. */
module Calculator {
  import opened Wrappers
  import opened Rates
  import opened Inputs
  import RaiseToCost
  import BudgetToRaise
  import Annual

  /** Which of the two calculations the page shows. */
  datatype Mode = CostImpact | AffordableRaise

  /** The form state: the selected country and mode, and the outcome of
      parsing each numeric text field. */
  datatype Form = Form(
    country: Country,
    mode: Mode,
    salaryField: Option<real>,
    raiseField: Option<real>,
    budgetField: Option<real>)

  /** Everything the page derives from one form state. */
  datatype Evaluation = Evaluation(
    salary: real,
    raise: real,
    budget: real,
    impact: RaiseToCost.Impact,
    budgetImpact: real,
    affordable: BudgetToRaise.Affordable)

  /** One table row: a label with a monthly figure and its annual figure. */
  datatype Row = Row(caption: string, monthly: real, annual: real)

  /** Both modes are computed on every evaluation, whichever is shown. */
  function Evaluate(f: Form): (e: Evaluation)
    ensures e.salary == ReadField(f.salaryField)
    ensures e.raise == ReadField(f.raiseField)
    ensures e.budget == ReadField(f.budgetField)
    ensures e.salary == 0.0 <==> f.salaryField.None? || f.salaryField.value == 0.0
    ensures e.impact.salaryIncrease == e.salary * e.raise / 100.0
    ensures e.impact.newSalary == e.salary + e.impact.salaryIncrease
    ensures e.impact.newCost == Cost(f.country, e.impact.newSalary)
    ensures e.impact.currentCost == e.affordable.currentCost == Cost(f.country, e.salary)
    ensures e.impact.costIncrease == e.impact.salaryIncrease * Factor(f.country)
    ensures e.budgetImpact == (if e.salary > 0.0 then e.raise else 0.0)
    ensures Cost(f.country, e.affordable.newSalary) == e.affordable.targetCost
    ensures e.affordable.targetCost - e.affordable.currentCost == e.budget
    ensures e.affordable.salaryIncrease == e.affordable.newSalary - e.salary
    ensures e.affordable.raisePercent
         == (if e.salary > 0.0 then e.affordable.salaryIncrease / e.salary * 100.0 else 0.0)
    ensures e.affordable.budgetPercent
         == (if e.salary > 0.0 then e.budget / e.affordable.currentCost * 100.0 else 0.0)
    ensures e.affordable.raisePercent == e.affordable.budgetPercent
  {
    var salary := ReadField(f.salaryField);
    var raise := ReadField(f.raiseField);
    var budget := ReadField(f.budgetField);
    BudgetToRaise.RaisePercentIsBudgetPercent(f.country, salary, budget);
    Evaluation(
      salary, raise, budget,
      RaiseToCost.Compute(f.country, salary, raise),
      RaiseToCost.BudgetImpact(f.country, salary, raise),
      BudgetToRaise.Compute(f.country, salary, budget))
  }

  /** A table row whose annual column is a year of its monthly figure. */
  function MonthlyAndAnnual(caption: string, monthly: real): (r: Row)
    ensures r.caption == caption && r.monthly == monthly
    ensures r.annual == Annual.Total(Annual.Months(Annual.MonthsPerYear, monthly))
  {
    Annual.AnnualIsYearTotal(monthly);
    Row(caption, monthly, Annual.OfMonthly(monthly))
  }

  /** The mode-1 table (app/page.js, lines 150-156). */
  function CostImpactTable(salary: real, m: RaiseToCost.Impact): (rows: seq<Row>)
    ensures |rows| == 6
    ensures forall i :: 0 <= i < |rows| ==> rows[i].annual == Annual.MonthsPerYear as real * rows[i].monthly
    ensures rows[0].monthly == salary && rows[1].monthly == m.newSalary
    ensures rows[2].monthly == m.salaryIncrease && rows[3].monthly == m.currentCost
    ensures rows[4].monthly == m.newCost && rows[5].monthly == m.costIncrease
    ensures rows[0].caption == "Current Salaries" && rows[1].caption == "New Salaries"
    ensures rows[2].caption == "Salary Increase" && rows[3].caption == "Current Employer Cost"
    ensures rows[4].caption == "New Employer Cost" && rows[5].caption == "Total Cost Increase"
  {
    [ MonthlyAndAnnual("Current Salaries", salary),
      MonthlyAndAnnual("New Salaries", m.newSalary),
      MonthlyAndAnnual("Salary Increase", m.salaryIncrease),
      MonthlyAndAnnual("Current Employer Cost", m.currentCost),
      MonthlyAndAnnual("New Employer Cost", m.newCost),
      MonthlyAndAnnual("Total Cost Increase", m.costIncrease) ]
  }

  /** The mode-2 table (app/page.js, lines 230-236). */
  function AffordableRaiseTable(salary: real, budget: real, a: BudgetToRaise.Affordable): (rows: seq<Row>)
    ensures |rows| == 6
    ensures forall i :: 0 <= i < |rows| ==> rows[i].annual == Annual.MonthsPerYear as real * rows[i].monthly
    ensures rows[0].monthly == salary && rows[1].monthly == a.newSalary
    ensures rows[2].monthly == a.salaryIncrease && rows[3].monthly == a.currentCost
    ensures rows[4].monthly == a.targetCost && rows[5].monthly == budget
    ensures rows[0].caption == "Current Salaries" && rows[1].caption == "Affordable New Salaries"
    ensures rows[2].caption == "Affordable Increase" && rows[3].caption == "Current Employer Cost"
    ensures rows[4].caption == "Maximum New Cost" && rows[5].caption == "Cost Increase (at limit)"
  {
    [ MonthlyAndAnnual("Current Salaries", salary),
      MonthlyAndAnnual("Affordable New Salaries", a.newSalary),
      MonthlyAndAnnual("Affordable Increase", a.salaryIncrease),
      MonthlyAndAnnual("Current Employer Cost", a.currentCost),
      MonthlyAndAnnual("Maximum New Cost", a.targetCost),
      MonthlyAndAnnual("Cost Increase (at limit)", budget) ]
  }

  /** The table the selected mode shows. */
  function Shown(f: Form): (rows: seq<Row>)
    ensures |rows| == 6
    ensures forall i :: 0 <= i < |rows| ==> rows[i].annual == Annual.MonthsPerYear as real * rows[i].monthly
    ensures rows[0].monthly == ReadField(f.salaryField)
    ensures rows[3].monthly == Cost(f.country, rows[0].monthly)
    ensures f.mode.CostImpact? ==>
      && rows[2].monthly == rows[0].monthly * ReadField(f.raiseField) / 100.0
      && rows[1].monthly == rows[0].monthly + rows[2].monthly
      && rows[4].monthly == Cost(f.country, rows[1].monthly)
      && rows[5].monthly == rows[4].monthly - rows[3].monthly
    ensures f.mode.AffordableRaise? ==>
      && rows[5].monthly == ReadField(f.budgetField)
      && rows[4].monthly == rows[3].monthly + rows[5].monthly
      && Cost(f.country, rows[1].monthly) == rows[4].monthly
      && rows[2].monthly == rows[1].monthly - rows[0].monthly
  {
    var salary := ReadField(f.salaryField);
    match f.mode
    case CostImpact =>
      var raise := ReadField(f.raiseField);
      CostImpactRows(f.country, salary, raise);
      CostImpactTable(salary, RaiseToCost.Compute(f.country, salary, raise))
    case AffordableRaise =>
      var budget := ReadField(f.budgetField);
      AffordableRaiseRows(f.country, salary, budget);
      AffordableRaiseTable(salary, budget, BudgetToRaise.Compute(f.country, salary, budget))
  }

  /** The mode-1 table's rows in terms of the salary and the raise. */
  lemma CostImpactRows(c: Country, salary: real, raise: real)
    ensures var rows := CostImpactTable(salary, RaiseToCost.Compute(c, salary, raise));
      && rows[2].monthly == rows[0].monthly * raise / 100.0
      && rows[1].monthly == rows[0].monthly + rows[2].monthly
      && rows[3].monthly == Cost(c, rows[0].monthly)
      && rows[4].monthly == Cost(c, rows[1].monthly)
      && rows[5].monthly == rows[4].monthly - rows[3].monthly
  {
    var m := RaiseToCost.Compute(c, salary, raise);
    CostAdditive(c, salary, m.newSalary);
  }

  /** The mode-2 table's rows in terms of the salary and the budget. */
  lemma AffordableRaiseRows(c: Country, salary: real, budget: real)
    ensures var rows := AffordableRaiseTable(salary, budget, BudgetToRaise.Compute(c, salary, budget));
      && rows[3].monthly == Cost(c, rows[0].monthly)
      && rows[5].monthly == budget
      && rows[4].monthly == rows[3].monthly + rows[5].monthly
      && Cost(c, rows[1].monthly) == rows[4].monthly
      && rows[2].monthly == rows[1].monthly - rows[0].monthly
  {
  }

  /** The annual columns of the mode-1 table keep its monthly relations:
      the annual cost increase is the annual salary increase times the cost
      factor, and new figures are current figures plus increases. */
  lemma CostImpactAnnual(c: Country, salary: real, raise: real)
    ensures var rows := CostImpactTable(salary, RaiseToCost.Compute(c, salary, raise));
      && rows[5].annual == rows[2].annual * Factor(c)
      && rows[4].annual == rows[3].annual + rows[5].annual
      && rows[1].annual == rows[0].annual + rows[2].annual
  {
    var m := RaiseToCost.Compute(c, salary, raise);
    var k := Annual.MonthsPerYear as real;
    assert k * (m.salaryIncrease * Factor(c)) == (k * m.salaryIncrease) * Factor(c);
  }

  /** The annual columns of the mode-2 table keep its monthly relations:
      the annual budget is the annual affordable increase times the cost
      factor, and the annual target cost is the annual current cost plus the
      annual budget. */
  lemma AffordableRaiseAnnual(c: Country, salary: real, budget: real)
    ensures var rows := AffordableRaiseTable(salary, budget, BudgetToRaise.Compute(c, salary, budget));
      && rows[5].annual == rows[2].annual * Factor(c)
      && rows[4].annual == rows[3].annual + rows[5].annual
      && rows[1].annual == rows[0].annual + rows[2].annual
  {
    var a := BudgetToRaise.Compute(c, salary, budget);
    var k := Annual.MonthsPerYear as real;
    assert budget == a.salaryIncrease * Factor(c);
    assert k * (a.salaryIncrease * Factor(c)) == (k * a.salaryIncrease) * Factor(c);
  }

  /** Switching mode keeps the current salary and current cost rows, which
      both tables show first and fourth. */
  lemma SwitchingModeKeepsCurrentRows(f: Form)
    ensures Shown(f.(mode := CostImpact))[0] == Shown(f.(mode := AffordableRaise))[0]
    ensures Shown(f.(mode := CostImpact))[3] == Shown(f.(mode := AffordableRaise))[3]
  {
  }

  /** When the budget entered is the cost increase the raise mode shows, the
      budget mode's table shows the raise mode's new salary, new cost and
      cost increase in the same rows, monthly and annual. */
  lemma BudgetTableMatchesRaiseTable(f: Form)
    requires ReadField(f.budgetField) == Evaluate(f).impact.costIncrease
    ensures forall i :: 0 <= i < 6 ==>
      Shown(f.(mode := AffordableRaise))[i].monthly == Shown(f.(mode := CostImpact))[i].monthly
    ensures forall i :: 0 <= i < 6 ==>
      Shown(f.(mode := AffordableRaise))[i].annual == Shown(f.(mode := CostImpact))[i].annual
  {
    var e := Evaluate(f);
    BudgetUndoesRaise(f.country, e.salary, e.raise);
    assert Evaluate(f.(mode := AffordableRaise)) == e;
    assert Evaluate(f.(mode := CostImpact)) == e;
  }

  /** A field that fails to parse contributes exactly what a field holding
      zero contributes. */
  lemma UnparsedIsZero(f: Form)
    ensures Evaluate(f.(salaryField := None)) == Evaluate(f.(salaryField := Some(0.0)))
    ensures Evaluate(f.(raiseField := None)) == Evaluate(f.(raiseField := Some(0.0)))
    ensures Evaluate(f.(budgetField := None)) == Evaluate(f.(budgetField := Some(0.0)))
  {
  }

  /** With no salary entered, the raise mode's salaries and costs, the cost
      increase, the budget impact and both budget-mode percentages are 0,
      while the budget mode's target cost is the budget alone. */
  lemma NoSalaryGivesZeroCosts(f: Form)
    requires f.salaryField.None?
    ensures Evaluate(f).impact.currentCost == 0.0 && Evaluate(f).impact.costIncrease == 0.0
    ensures Evaluate(f).impact.newSalary == 0.0 && Evaluate(f).impact.newCost == 0.0
    ensures Evaluate(f).affordable.targetCost == Evaluate(f).budget
    ensures Evaluate(f).budgetImpact == 0.0
    ensures Evaluate(f).affordable.raisePercent == 0.0 && Evaluate(f).affordable.budgetPercent == 0.0
  {
  }

  /** Mode 2 undoes mode 1: spending exactly mode 1's cost increase as the
      budget affords exactly mode 1's new salary, and for a positive salary
      the affordable raise is the planned raise. */
  lemma BudgetUndoesRaise(c: Country, salary: real, raise: real)
    ensures BudgetToRaise.Compute(c, salary, RaiseToCost.Compute(c, salary, raise).costIncrease).newSalary
         == RaiseToCost.Compute(c, salary, raise).newSalary
    ensures BudgetToRaise.Compute(c, salary, RaiseToCost.Compute(c, salary, raise).costIncrease).targetCost
         == RaiseToCost.Compute(c, salary, raise).newCost
    ensures salary > 0.0 ==>
      BudgetToRaise.Compute(c, salary, RaiseToCost.Compute(c, salary, raise).costIncrease).raisePercent == raise
  {
    var m := RaiseToCost.Compute(c, salary, raise);
    var a := BudgetToRaise.Compute(c, salary, m.costIncrease);
    CostAdditive(c, salary, m.salaryIncrease);
    CostStrictlyMonotone(c, a.newSalary, m.newSalary);
    CostStrictlyMonotone(c, m.newSalary, a.newSalary);
    if salary > 0.0 {
      assert a.salaryIncrease == m.salaryIncrease;
      assert a.raisePercent == salary * raise / 100.0 / salary * 100.0;
    }
  }

  /** Mode 1 undoes mode 2: for a positive salary, planning the affordable
      raise percentage costs exactly the budget and reaches the affordable
      salary. */
  lemma RaiseUndoesBudget(c: Country, salary: real, budget: real)
    requires salary > 0.0
    ensures RaiseToCost.Compute(c, salary, BudgetToRaise.Compute(c, salary, budget).raisePercent).costIncrease == budget
    ensures RaiseToCost.Compute(c, salary, BudgetToRaise.Compute(c, salary, budget).raisePercent).newSalary
         == BudgetToRaise.Compute(c, salary, budget).newSalary
  {
    var a := BudgetToRaise.Compute(c, salary, budget);
    var m := RaiseToCost.Compute(c, salary, a.raisePercent);
    assert m.salaryIncrease == salary * (a.salaryIncrease / salary * 100.0) / 100.0;
    assert m.salaryIncrease == a.salaryIncrease;
  }
}
