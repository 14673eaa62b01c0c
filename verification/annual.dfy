/** Annual figures. The page shows every monthly figure beside an annual one,
    computed as the monthly figure times 12 (app/page.js, lines 150-156 and
    230-236). Here a year is twelve monthly payments, and the annual figure
    is proved to be their total. */
module Annual {
  import opened Rates

  /** Months in a year. */
  const MonthsPerYear: nat := 12

  /** The sum of a run of monthly payments. */
  function Total(months: seq<real>): (r: real)
  {
    if |months| == 0 then 0.0 else months[0] + Total(months[1..])
  }

  /** `n` months that each pay `monthly`. */
  function Months(n: nat, monthly: real): (r: seq<real>)
    ensures |r| == n
    ensures forall i :: 0 <= i < n ==> r[i] == monthly
  {
    seq(n, _ => monthly)
  }

  /** The annual figure the page shows for a monthly one. Dividing it back
      over the months of the year gives the monthly figure; its relation to
      a year of payments is `AnnualIsYearTotal`. */
  function OfMonthly(monthly: real): (r: real)
    ensures r / (MonthsPerYear as real) == monthly
    ensures r == 0.0 <==> monthly == 0.0
    ensures r > 0.0 <==> monthly > 0.0
  {
    monthly * MonthsPerYear as real
  }

  /** Each month's employer cost for a run of monthly salaries. */
  function CostEach(c: Country, months: seq<real>): (r: seq<real>)
    ensures |r| == |months|
    ensures forall i :: 0 <= i < |months| ==> r[i] == Cost(c, months[i])
  {
    seq(|months|, i requires 0 <= i < |months| => Cost(c, months[i]))
  }

  /** `n` equal payments total `n` times the payment. */
  lemma {:induction false} TotalOfEqualMonths(n: nat, monthly: real)
    ensures Total(Months(n, monthly)) == n as real * monthly
  {
    if n > 0 {
      assert Months(n, monthly)[1..] == Months(n - 1, monthly);
      TotalOfEqualMonths(n - 1, monthly);
    }
  }

  /** The page's annual figure is the total of twelve monthly payments. */
  lemma AnnualIsYearTotal(monthly: real)
    ensures OfMonthly(monthly) == Total(Months(MonthsPerYear, monthly))
  {
    TotalOfEqualMonths(MonthsPerYear, monthly);
  }

  /** Employer cost distributes over a run of months: the cost of the total
      salary is the total of the monthly costs, whatever each month pays. */
  lemma {:induction false} CostOfTotal(c: Country, months: seq<real>)
    ensures Cost(c, Total(months)) == Total(CostEach(c, months))
  {
    if |months| > 0 {
      assert CostEach(c, months)[1..] == CostEach(c, months[1..]);
      CostOfTotal(c, months[1..]);
      CostAdditive(c, months[0], Total(months[1..]));
    }
  }

  /** The annual employer cost the page shows is the cost of the annual
      salary it shows. */
  lemma AnnualCostOfAnnualSalary(c: Country, salary: real)
    ensures OfMonthly(Cost(c, salary)) == Cost(c, OfMonthly(salary))
    ensures OfMonthly(Cost(c, salary)) == Total(CostEach(c, Months(MonthsPerYear, salary)))
  {
    AnnualIsYearTotal(salary);
    CostOfTotal(c, Months(MonthsPerYear, salary));
    CostScales(c, MonthsPerYear as real, salary);
  }
}
