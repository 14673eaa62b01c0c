/** The fixed per-country employer social-tax table and the employer-cost
    function built on it (app/page.js, lines 13-25). */
module Rates {
  import opened Wrappers

  /** The three supported countries, by their two-letter codes. */
  datatype Country = EE | LV | LT

  /** The code the country selector stores in the `country` state. */
  function Code(c: Country): (r: string)
    ensures |r| == 2
    ensures r in {"EE", "LV", "LT"}
  {
    match c
    case EE => "EE"
    case LV => "LV"
    case LT => "LT"
  }

  /** The country a stored code selects; codes outside the table select none. */
  function CountryOf(code: string): (r: Option<Country>)
    ensures r.Some? <==> code in {"EE", "LV", "LT"}
    ensures r.Some? ==> Code(r.value) == code
  {
    if code == "EE" then Some(EE)
    else if code == "LV" then Some(LV)
    else if code == "LT" then Some(LT)
    else None
  }

  /** Codes and countries are in one-to-one correspondence. */
  lemma CodeRoundTrip(c: Country)
    ensures CountryOf(Code(c)) == Some(c)
  {
  }

  /** The display name shown in the page footer and heading. */
  function Name(c: Country): (r: string)
    ensures |r| > 0
  {
    match c
    case EE => "Estonia"
    case LV => "Latvia"
    case LT => "Lithuania"
  }

  /** Employer social-tax rate, as a fraction of gross salary. */
  function Rate(c: Country): (r: real)
    ensures 0.0 < r < 1.0
  {
    match c
    case EE => 0.338
    case LV => 0.2359
    case LT => 0.0177
  }

  /** The "Employer Tax" figure: the rate as a percentage. */
  function RatePercent(c: Country): (r: real)
    ensures 0.0 < r < 100.0
    ensures r / 100.0 == Rate(c)
  {
    Rate(c) * 100.0
  }

  /** The multiplier from gross salary to employer cost. */
  function Factor(c: Country): (f: real)
    ensures f > 1.0
  {
    1.0 + Rate(c)
  }

  /** Employer cost of a monthly gross salary. */
  function Cost(c: Country, salary: real): (r: real)
    ensures salary > 0.0 ==> r > salary
    ensures salary == 0.0 ==> r == 0.0
    ensures salary < 0.0 ==> r < salary
    ensures r > 0.0 <==> salary > 0.0
  {
    salary * Factor(c)
  }

  /** Cost never undercuts a non-negative salary. */
  lemma CostAtLeastSalary(c: Country, salary: real)
    requires salary >= 0.0
    ensures Cost(c, salary) >= salary
    ensures Cost(c, salary) - salary == salary * Rate(c)
  {
  }

  /** Cost is additive in the salary. */
  lemma CostAdditive(c: Country, a: real, b: real)
    ensures Cost(c, a + b) == Cost(c, a) + Cost(c, b)
    ensures Cost(c, b) - Cost(c, a) == Cost(c, b - a)
  {
  }

  /** Cost commutes with scaling of the salary. */
  lemma CostScales(c: Country, k: real, salary: real)
    ensures Cost(c, k * salary) == k * Cost(c, salary)
  {
  }

  /** A higher salary always costs strictly more, and conversely. */
  lemma CostStrictlyMonotone(c: Country, a: real, b: real)
    ensures a < b <==> Cost(c, a) < Cost(c, b)
  {
  }

  /** The salary whose employer cost is exactly `target`: the inverse of `Cost`. */
  function SalaryFor(c: Country, target: real): (s: real)
    ensures Cost(c, s) == target
  {
    target / Factor(c)
  }

  /** Dividing a cost by the factor recovers the salary it was computed from. */
  lemma SalaryForCost(c: Country, salary: real)
    ensures SalaryFor(c, Cost(c, salary)) == salary
  {
  }
}
