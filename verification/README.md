# Baltic salary budget calculator — Dafny model

This project models the employer-cost arithmetic of the salary budget
calculator page. The page plans pay raises for Estonia, Latvia and Lithuania.
Each country has a fixed employer social-tax rate: EE 33.8 %, LV 23.59 %,
LT 1.77 %. The employer cost of a gross monthly salary is
`salary × (1 + rate)`. The page has two modes:

- **Raise % → Cost Impact.** A planned raise percentage gives the new salary,
  the salary increase, the current and new employer cost, the cost increase,
  and the "Budget Impact" percentage.
- **Budget € → Affordable Raise.** A monthly euro budget on top of the current
  employer cost gives a target cost. Dividing the target by the cost factor
  gives the affordable salary. The affordable raise percentage and the budget
  percentage follow from it. Both percentages fall back to 0 instead of
  dividing by a non-positive salary or cost.

Each mode's table shows every monthly figure next to an annual figure, which
is the monthly figure × 12.

All figures are exact `real`s. The properties are algebraic facts about the
formulas:

- cost is linear in salary;
- budget mode inverts cost;
- the two modes undo each other;
- the division guards yield 0.

Modules:

- `Wrappers`: the `Option` type.
- `Rates`: the country table, the cost function and its inverse.
- `Inputs`: how a text field is read.
- `RaiseToCost`: mode 1.
- `BudgetToRaise`: mode 2.
- `Annual`: annual figures, related to twelve monthly payments.
- `Calculator`: one evaluation of the form and the tables it shows, plus the
  lemmas that relate the two modes.

The page reads each numeric field as `parseFloat(text) || 0`. The model
abstracts the string scan to its outcome: `None` for `NaN`, or `Some(v)`. Both
`NaN` and 0 are falsy, so both read as 0. Negative numbers pass through
unchanged, because the code has no guard against them.

## Model

| member | source | states |
|---|---|---|
| Rates.Rate | app/page.js:13-17 | every country's employer rate is strictly positive and below 1 |
| Rates.CountryOf | app/page.js:13-23 | exactly the codes EE, LV and LT select a country, and the selected country has that code |
| Rates.Code | app/page.js:78-80 | each country's selector code is one of the two-letter codes EE, LV and LT |
| Rates.CodeRoundTrip | app/page.js:13-23 | looking up a country's own code gives that country back |
| Rates.Name | app/page.js:19-23 | every country has a non-empty display name |
| Rates.RatePercent | app/page.js:171 | the "Employer Tax" figure lies strictly between 0 and 100, and divided by 100 it is the rate |
| Rates.Factor | app/page.js:25 | the salary-to-cost multiplier is greater than 1 |
| Rates.Cost | app/page.js:25 | cost exceeds a positive salary, is 0 for a zero salary, and is positive exactly when the salary is |
| Rates.CostAtLeastSalary | app/page.js:13-25 | for a non-negative salary, cost is at least the salary, and the excess is salary × rate |
| Rates.CostAdditive | app/page.js:25 | the cost of a sum of salaries is the sum of their costs, and a cost difference is the cost of the salary difference |
| Rates.CostScales | app/page.js:25 | scaling the salary scales the cost by the same factor |
| Rates.CostStrictlyMonotone | app/page.js:25 | one salary is below another exactly when its cost is below the other's cost |
| Rates.SalaryFor | app/page.js:40 | dividing a target cost by the factor gives a salary whose cost is exactly the target |
| Rates.SalaryForCost | app/page.js:40 | dividing a salary's cost by the factor gives the salary back |
| Inputs.ReadField | app/page.js:27-29 | an unparseable field reads as 0, any other number reads as itself, and a field reads 0 exactly when it is unparseable or zero |
| RaiseToCost.NewSalary | app/page.js:32 | the raised salary exceeds the old one by salary × raise / 100, and a zero raise leaves it unchanged |
| RaiseToCost.Compute | app/page.js:32-36 | the salary increase is salary × raise / 100; both costs are costs of their salaries; the cost increase is the salary increase × (1 + rate); a zero raise changes nothing |
| RaiseToCost.BudgetImpact | app/page.js:165 | the budget-impact percentage equals the raise percentage when the salary is positive, and is 0 otherwise |
| RaiseToCost.BudgetImpactCancels | app/page.js:165 | for a positive salary, cost increase / current cost × 100 equals the raise, because the rate factor cancels |
| RaiseToCost.CostIncreaseLinear | app/page.js:32-36 | the cost increase of a sum of two raises is the sum of their cost increases |
| BudgetToRaise.Compute | app/page.js:38-43 | the affordable salary costs exactly current cost + budget; the affordable increase costs exactly the budget; each guarded percentage is 0 when its divisor is not positive and the ratio × 100 otherwise; a zero budget leaves the salary unchanged and both percentages 0 |
| BudgetToRaise.IncreaseIsBudgetOverFactor | app/page.js:39-41 | the affordable salary increase is the budget divided by (1 + rate) |
| BudgetToRaise.RaisePercentIsBudgetPercent | app/page.js:42-43 | for every input, the affordable raise percentage equals the budget percentage |
| Calculator.Evaluate | app/page.js:27-43 | salary, raise and budget are the read fields; mode 1 raises the read salary by the read raise (increase = salary × raise / 100) and its new cost is the cost of the new salary; both modes see the same current cost; the budget impact equals the raise for a positive salary and 0 otherwise; the affordable salary costs current cost + budget and the affordable increase is affordable salary − salary; the affordable raise percentage is increase / salary × 100 and the budget percentage is budget / current cost × 100 when the salary is positive, both 0 otherwise, and the two are equal |
| Calculator.MonthlyAndAnnual | app/page.js:150-156 | a table row keeps its caption and monthly figure, and its annual figure is the total of twelve monthly payments of that figure |
| Calculator.CostImpactTable | app/page.js:150-156 | the mode-1 table lists salary, new salary, salary increase, current cost, new cost and cost increase under the page's captions, each with annual = 12 × monthly |
| Calculator.AffordableRaiseTable | app/page.js:230-236 | the mode-2 table lists salary, affordable salary, affordable increase, current cost, target cost and budget under the page's captions, each with annual = 12 × monthly |
| Calculator.Shown | app/page.js:109-236 | the selected mode's table has six rows, each annual figure is 12 × its monthly figure, and it starts with the read salary and its cost in row four; the raise mode shows the raised salary, its cost and the cost increase for the read raise; the budget mode shows the read budget as the last row, the target cost as current cost + budget, and an affordable salary that costs exactly the target |
| Calculator.CostImpactAnnual | app/page.js:150-156 | in the mode-1 table's annual column, cost increase = salary increase × (1 + rate), new cost = current cost + cost increase, and new salary = salary + salary increase |
| Calculator.AffordableRaiseAnnual | app/page.js:230-236 | in the mode-2 table's annual column, budget = affordable increase × (1 + rate), target cost = current cost + budget, and affordable salary = salary + affordable increase |
| Calculator.CostImpactRows | app/page.js:150-156 | the mode-1 table's salary increase is salary × raise / 100, its new salary is salary + increase, its costs are the costs of its salaries, and its cost increase is new cost − current cost |
| Calculator.AffordableRaiseRows | app/page.js:230-236 | the mode-2 table's last row is the budget, its target cost is current cost + budget, its affordable salary costs exactly the target, and its increase is affordable salary − salary |
| Calculator.SwitchingModeKeepsCurrentRows | app/page.js:150-236 | both modes show the same current-salary row and the same current-cost row |
| Calculator.BudgetTableMatchesRaiseTable | app/page.js:150-236 | when the budget entered equals the raise mode's cost increase, every row of the budget mode's table has the same monthly and annual figures as the raise mode's table |
| Annual.OfMonthly | app/page.js:150-156 | the annual figure divided over the twelve months gives the monthly figure back, and it has the monthly figure's sign; `Annual.AnnualIsYearTotal` relates it to a year of payments |
| Annual.TotalOfEqualMonths | app/page.js:150-156 | n equal monthly payments total n times the payment |
| Annual.AnnualIsYearTotal | app/page.js:150-156 | the annual figure shown (monthly × 12) is the total of twelve monthly payments |
| Annual.CostOfTotal | app/page.js:25 | the employer cost of a total of monthly salaries is the total of their monthly costs, even when the months differ |
| Annual.AnnualCostOfAnnualSalary | app/page.js:154 | the annual employer cost shown is the cost of the annual salary, and it is the total of twelve monthly costs |
| Calculator.UnparsedIsZero | app/page.js:27-29 | an unparseable salary, raise or budget field gives exactly the evaluation that a field holding 0 gives |
| Calculator.NoSalaryGivesZeroCosts | app/page.js:27-43 | with no salary entered, mode 1's new salary, current and new employer cost and cost increase, the budget impact and both mode-2 percentages are 0, and mode 2's target cost is the budget alone |
| Calculator.BudgetUndoesRaise | app/page.js:32-42 | feeding mode 1's cost increase into mode 2 as the budget affords mode 1's new salary at mode 1's new cost, and for a positive salary it affords exactly the planned raise |
| Calculator.RaiseUndoesBudget | app/page.js:32-42 | for a positive salary, planning mode 2's affordable raise percentage costs exactly the budget and reaches the affordable salary |

## Left out

- Rendering, styling, `TableRow`'s markup and classes, and the icon (app/page.js:45-253): these are presentation only. The monthly and annual figures a `TableRow` receives are modelled as `Calculator.Row`.
- React state hooks and event handlers: the model evaluates one form state, as a `Form` value. It does not model transitions between states.
- `toFixed(2)` formatting and IEEE-754 rounding: all figures are exact reals. Where every figure the page computes is finite, the equalities proved here hold on the page only up to floating-point rounding.
- Overflow to ±Infinity and the `NaN` it can produce are not modelled. For example, a salary of 1.5e308 in Estonia makes the page's current cost Infinity and its cost increase `NaN`, so the budget impact at app/page.js:165 shows "NaN%" where `RaiseToCost.BudgetImpact` gives the raise. A field such as "1e400" parses to Infinity, which passes `|| 0`; `Option<real>` has no value for it.
- `parseFloat`'s string-scanning rules: a field is abstracted to the finite number it parses to, or to `None` for `NaN`. JavaScript's `-0` is the same real as 0.
- A `country` state outside EE, LV and LT: the selector cannot produce one, so `Form` holds a `Country`. `Rates.CountryOf` shows that other codes select nothing.
- Rates.Rate: the contract only bounds each rate in (0, 1). The exact constants 0.338, 0.2359 and 0.0177 appear in the body, and the model takes them as given.
- Rates.Name: the contract only says the name is non-empty. The three names appear in the body.
- app/layout.js: it holds only page metadata and the HTML shell.
- app/page.js has no income-tax calculation, either gross→net or net→gross, so the model has none. Negative input is not rejected: `parseFloat` passes it through, and the model does the same.
