/**
 * The guard chain at the head of the `GET /` handler: five checks run in a
 * fixed order and the first one that fails decides the error reported.
 */
module Validator {
  import opened Wrappers
  import opened Employees

  /**
   * The five query fields as received, plus the numbers the handler parses
   * out of three of them. A query field that is absent is written as the
   * empty string: the handler tests each field for truthiness, and an
   * absent field and an empty one are both falsy.
   *
   *   ageText      idadeFuncionario     age       its parseInt value
   *   genderText   genero
   *   salaryText   salarioBase          salary    its parseFloat value
   *   hireYearText anoEntrada           hireYear  its parseInt value
   *   code         codigoFuncionario
   */
  datatype Request = Request(
    ageText: string,
    genderText: string,
    salaryText: string,
    hireYearText: string,
    code: string,
    age: int,
    salary: real,
    hireYear: int)

  /** One error per failed check; each has its own message in the handler. */
  datatype Error = MissingFields | InvalidAge | InvalidSalary | FutureHireYear | InvalidGender

  /** A query field counts as given when it is a non-empty string. */
  predicate Given(s: string) {
    s != ""
  }

  predicate AllGiven(req: Request) {
    Given(req.ageText) && Given(req.genderText) && Given(req.salaryText)
      && Given(req.hireYearText) && Given(req.code)
  }

  /** Position of each check in the chain; a smaller rank is checked first. */
  function Rank(e: Error): nat
  {
    match e
    case MissingFields => 0
    case InvalidAge => 1
    case InvalidSalary => 2
    case FutureHireYear => 3
    case InvalidGender => 4
  }

  /** Different errors sit at different positions of the chain. */
  lemma RankInjective(e1: Error, e2: Error)
    ensures Rank(e1) == Rank(e2) ==> e1 == e2
  {
  }

  /**
   * The condition under which each check, taken on its own, rejects the
   * request; `currentYear` stands for the year the clock reports.
   */
  predicate Fails(req: Request, currentYear: int, e: Error) {
    match e
    case MissingFields => !AllGiven(req)
    case InvalidAge => !(18 <= req.age <= 99)
    case InvalidSalary => req.salary <= 0.0
    case FutureHireYear => req.hireYear > currentYear
    case InvalidGender => req.genderText != "M" && req.genderText != "F"
  }

  /** `e` fails and no check before it does: the error the chain reports. */
  predicate FirstFailure(req: Request, currentYear: int, e: Error) {
    Fails(req, currentYear, e)
      && forall e' :: Rank(e') < Rank(e) ==> !Fails(req, currentYear, e')
  }

  /**
   * The guard chain. It rejects exactly the requests some check fails,
   * with the first failing check's error, and otherwise hands on the
   * fields unchanged with the gender read from its text.
   */
  function Validate(req: Request, currentYear: int): (r: Result<Employee, Error>)
    ensures r.Failure? <==> exists e :: Fails(req, currentYear, e)
    ensures r.Failure? ==> FirstFailure(req, currentYear, r.error)
    ensures r.Success? ==>
      && r.value.code == req.code
      && r.value.age == req.age
      && GenderText(r.value.gender) == req.genderText
      && r.value.salary == req.salary
      && r.value.hireYear == req.hireYear
  {
    if !AllGiven(req) then
      assert Fails(req, currentYear, MissingFields);
      Failure(MissingFields)
    else if req.age < 18 || req.age > 99 then
      assert Fails(req, currentYear, InvalidAge);
      Failure(InvalidAge)
    else if req.salary <= 0.0 then
      assert Fails(req, currentYear, InvalidSalary);
      Failure(InvalidSalary)
    else if req.hireYear > currentYear then
      assert Fails(req, currentYear, FutureHireYear);
      Failure(FutureHireYear)
    else
      match ParseGender(req.genderText)
      case None =>
        assert Fails(req, currentYear, InvalidGender);
        Failure(InvalidGender)
      case Some(g) => Success(Employee(req.code, req.age, g, req.salary, req.hireYear))
  }

  /** The first failing check is unique, so the reported error is determined by it. */
  lemma {:induction false} FirstFailureUnique(req: Request, currentYear: int, e1: Error, e2: Error)
    requires FirstFailure(req, currentYear, e1) && FirstFailure(req, currentYear, e2)
    ensures e1 == e2
  {
    RankInjective(e1, e2);
  }

  /** The error reported is exactly the first failing check. */
  lemma ValidateReportsFirstFailure(req: Request, currentYear: int, e: Error)
    ensures Validate(req, currentYear) == Failure(e) <==> FirstFailure(req, currentYear, e)
  {
    var r := Validate(req, currentYear);
    if FirstFailure(req, currentYear, e) {
      FirstFailureUnique(req, currentYear, e, r.error);
    }
  }

  /** Everything the validator accepts lies in the ranges the calculator relies on. */
  lemma ValidatedRanges(req: Request, currentYear: int)
    requires Validate(req, currentYear).Success?
    ensures AllGiven(req)
    ensures 18 <= Validate(req, currentYear).value.age <= 99
    ensures Validate(req, currentYear).value.salary > 0.0
    ensures Validate(req, currentYear).value.hireYear <= currentYear
  {
    assert !Fails(req, currentYear, MissingFields);
    assert !Fails(req, currentYear, InvalidAge);
    assert !Fails(req, currentYear, InvalidSalary);
    assert !Fails(req, currentYear, FutureHireYear);
  }

  /** With every field given, the age check rejects exactly the ages outside [18, 99]. */
  lemma AgeAcceptedIff(req: Request, currentYear: int)
    requires AllGiven(req)
    ensures Validate(req, currentYear) == Failure(InvalidAge) <==> !(18 <= req.age <= 99)
  {
  }

  /** 18 and 99 pass the age check; 17 and 100 are reported as `InvalidAge`. */
  lemma AgeBoundaries(req: Request, currentYear: int)
    requires AllGiven(req)
    ensures Validate(req.(age := 17), currentYear) == Failure(InvalidAge)
    ensures Validate(req.(age := 100), currentYear) == Failure(InvalidAge)
    ensures Validate(req.(age := 18), currentYear) != Failure(InvalidAge)
    ensures Validate(req.(age := 99), currentYear) != Failure(InvalidAge)
  {
  }

  /**
   * A salary of zero or less is always rejected, whatever the other
   * fields; only a missing field or a bad age can be reported before it.
   */
  lemma NonPositiveSalaryRejected(req: Request, currentYear: int)
    requires req.salary <= 0.0
    ensures Validate(req, currentYear).Failure?
    ensures Rank(Validate(req, currentYear).error) <= Rank(InvalidSalary)
    ensures AllGiven(req) && 18 <= req.age <= 99 ==>
      Validate(req, currentYear) == Failure(InvalidSalary)
  {
  }

  /**
   * Once the earlier checks pass, a hire year equal to the current year is
   * accepted by the hire-year check and the year after it is not.
   */
  lemma HireYearBoundary(req: Request, currentYear: int)
    requires AllGiven(req) && 18 <= req.age <= 99 && req.salary > 0.0
    ensures Validate(req.(hireYear := currentYear + 1), currentYear) == Failure(FutureHireYear)
    ensures Validate(req.(hireYear := currentYear), currentYear) != Failure(FutureHireYear)
    ensures Validate(req.(hireYear := currentYear, genderText := "M"), currentYear).Success?
  {
  }

  /**
   * Once the earlier checks pass, the gender check accepts exactly the
   * texts "M" and "F"; a lower-case letter or a full word is rejected.
   */
  lemma GenderAcceptedIff(req: Request, currentYear: int)
    requires AllGiven(req) && 18 <= req.age <= 99 && req.salary > 0.0
    requires req.hireYear <= currentYear
    ensures Validate(req, currentYear).Success? <==> (req.genderText == "M" || req.genderText == "F")
    ensures Validate(req.(genderText := "m"), currentYear) == Failure(InvalidGender)
    ensures Validate(req.(genderText := "Male"), currentYear) == Failure(InvalidGender)
  {
  }

  /** A future hire year is reported whatever the gender text, since the gender is checked last. */
  lemma FutureHireYearBeforeGender(req: Request, currentYear: int)
    requires AllGiven(req) && 18 <= req.age <= 99 && req.salary > 0.0
    requires req.hireYear > currentYear
    ensures Validate(req, currentYear) == Failure(FutureHireYear)
  {
  }
}
