/**
 * The `GET /` handler without its HTTP and HTML parts: validate the
 * request, then compute the adjustment and return the figures the page
 * shows.
 */
module Handler {
  import opened Wrappers
  import opened Employees
  import opened Validator
  import opened Calculator

  /** The figures of the summary page, in the order it lists them. */
  datatype Summary = Summary(
    code: string,
    age: int,
    gender: Gender,
    salary: real,
    hireYear: int,
    tenure: int,
    pct: real,
    bonus: int,
    newSalary: real)

  /**
   * One request. `currentYear` is the year the handler reads from the
   * clock. A rejected request carries the validator's error; an accepted
   * one carries a summary whose tenure is not negative, whose rates are
   * the positive ones of the age's band, and whose new salary exceeds the
   * base salary.
   */
  function Handle(req: Request, currentYear: int): (r: Result<Summary, Error>)
    ensures r.Failure? <==> Validate(req, currentYear).Failure?
    ensures r.Failure? ==> FirstFailure(req, currentYear, r.error)
    ensures r.Success? ==>
      && r.value.code == req.code
      && r.value.age == req.age
      && GenderText(r.value.gender) == req.genderText
      && r.value.salary == req.salary
      && r.value.hireYear == req.hireYear
      && r.value.tenure == currentYear - req.hireYear >= 0
      && BandOf(req.age).Some?
      && r.value.pct == Percent(BandOf(req.age).value, r.value.gender) > 0.0
      && r.value.bonus == Bonus(BandOf(req.age).value, r.value.gender, TierOf(r.value.tenure)) > 0
      && r.value.newSalary == r.value.salary * (1.0 + r.value.pct) + r.value.bonus as real
      && r.value.newSalary > r.value.salary
  {
    var tenure := currentYear - req.hireYear;
    match Validate(req, currentYear)
    case Failure(e) => Failure(e)
    case Success(emp) =>
      ValidatedRanges(req, currentYear);
      var rates := Adjustment(emp.age, emp.gender, tenure);
      var newSalary := NewSalary(emp.salary, rates.pct, rates.bonus);
      NewSalaryScaled(emp.salary, rates.pct, rates.bonus);
      Success(Summary(emp.code, emp.age, emp.gender, emp.salary, emp.hireYear,
                      tenure, rates.pct, rates.bonus, newSalary))
  }

  /**
   * Every accepted request gets the percentage and bonus of the one table
   * row for its band and gender, with the tier chosen by its tenure.
   */
  lemma HandleFollowsTable(req: Request, currentYear: int)
    requires Handle(req, currentYear).Success?
    ensures var s := Handle(req, currentYear).value;
      var row := Lookup(Table, BandOf(s.age).value, s.gender);
      && row.Some?
      && s.pct == row.value.pct
      && s.bonus == RowBonus(row.value, s.tenure)
  {
    var s := Handle(req, currentYear).value;
    AdjustmentMatchesTable(s.age, s.gender, s.tenure);
  }

  /** A request with every field in range is accepted. */
  lemma ValidInputAccepted(req: Request, currentYear: int)
    requires AllGiven(req) && 18 <= req.age <= 99 && req.salary > 0.0
    requires req.hireYear <= currentYear && (req.genderText == "M" || req.genderText == "F")
    ensures Handle(req, currentYear).Success?
  {
  }

  /** Age 30, M, salary 2000, hired 2021, in 2025: tenure 4, 10%, bonus 10, new salary 2210. */
  lemma YoungManExample()
    ensures Handle(Request("30", "M", "2000", "2021", "123", 30, 2000.0, 2021), 2025)
      == Success(Summary("123", 30, M, 2000.0, 2021, 4, 0.10, 10, 2210.0))
  {
  }

  /** Age 75, F, salary 3000, hired 2000, in 2025: tenure 25, 17%, bonus 12, new salary 3522. */
  lemma SeniorWomanExample()
    ensures Handle(Request("75", "F", "3000", "2000", "7", 75, 3000.0, 2000), 2025)
      == Success(Summary("7", 75, F, 3000.0, 2000, 25, 0.17, 12, 3522.0))
  {
  }

  /** Tenure 10 earns the lower bonus and tenure 11 the upper, here for a man of 45. */
  lemma TenureTenExample()
    ensures Handle(Request("45", "M", "1000", "2015", "9", 45, 1000.0, 2015), 2025).value.bonus == 5
    ensures Handle(Request("45", "M", "1000", "2014", "9", 45, 1000.0, 2014), 2025).value.bonus == 15
  {
  }

  /** An empty employee code is a missing field, even when everything else is wrong too. */
  lemma MissingCodeExample()
    ensures Handle(Request("5", "x", "0", "3000", "", 5, 0.0, 3000), 2025) == Failure(MissingFields)
  {
  }
}
