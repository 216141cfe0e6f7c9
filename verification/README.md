# Salary adjustment calculator — Dafny model

The repository is a one-endpoint Express service: `GET /` takes five query
fields (`idadeFuncionario` age, `genero` gender, `salarioBase` base salary,
`anoEntrada` hire year, `codigoFuncionario` employee code), rejects the
request with one of five messages when a check fails, and otherwise shows a
page with the employee's tenure, raise percentage, fixed bonus and new
salary. This project models the handler's logic as pure Dafny functions,
since the handler keeps no state and has no loops:

- `employees.dfy` (module `Employees`): the two genders, the exact reading of
  the `genero` text, the validated employee.
- `validator.dfy` (module `Validator`): the request, the five errors and the
  guard chain `Validate`, specified as "report the first check, in the order
  missing fields, age, salary, hire year, gender, that fails".
- `calculator.dfy` (module `Calculator`): age bands, tenure tiers, the
  percentage and bonus chosen by the handler's if/else-if chain, the new
  salary, and the rule table as an independent reference that the chain is
  proved to agree with.
- `handler.dfy` (module `Handler`): `Handle`, validation followed by the
  calculation, with the figures of the summary page, and worked examples.
- `wrappers.dfy` (module `Wrappers`): `Option` and `Result`.

Inputs that the handler takes from its environment are parameters here:
the current year (the handler reads it from the clock) and the numbers
that `parseInt`/`parseFloat` produce from the age, salary and hire-year
texts, which a `Request` carries beside the texts themselves. A query field
that is absent is written as the empty string; the handler's truthiness
test treats the two alike. Money and percentages are exact `real`s
(`0.10` is exactly one tenth).

## Model

| member | source | states |
|---|---|---|
| `Employees.ParseGender` | index.js:31-33 | a gender is read exactly when the text is "M" or "F", case-sensitive, and it reads back as that text |
| `Employees.ParseGenderText` | index.js:31 | each gender's text is accepted as that gender |
| `Employees.GenderNearMissesRejected` | index.js:31-33 | "m", "f", "Male", "Female", "" and " M" are not genders |
| `Validator.Validate` | index.js:9-33 | rejects exactly the requests some check fails, with the error of the first failing check in the order missing field, age, salary, hire year, gender; an accepted request's fields are passed on unchanged |
| `Validator.FirstFailureUnique` | index.js:9-33 | the first failing check is unique, so one error per request |
| `Validator.ValidateReportsFirstFailure` | index.js:9-33 | the error reported is `e` if and only if `e` is the first failing check |
| `Validator.ValidatedRanges` | index.js:9-29 | an accepted request has all fields given, age in [18, 99], salary above 0 and hire year not after the current year |
| `Validator.AgeAcceptedIff` | index.js:19-21 | with all fields given, `InvalidAge` is reported if and only if the age is outside [18, 99] |
| `Validator.AgeBoundaries` | index.js:19-21 | ages 17 and 100 give `InvalidAge`; 18 and 99 do not |
| `Validator.NonPositiveSalaryRejected` | index.js:23-25 | a salary of 0 or less is always rejected, at the salary check or an earlier one, and at the salary check once fields and age are fine |
| `Validator.HireYearBoundary` | index.js:27-29 | hire year = current year + 1 gives `FutureHireYear`; hire year = current year passes that check, and with gender "M" the request is accepted |
| `Validator.GenderAcceptedIff` | index.js:31-33 | once the earlier checks pass, the request is accepted if and only if the gender text is "M" or "F"; "m" and "Male" give `InvalidGender` |
| `Validator.FutureHireYearBeforeGender` | index.js:27-33 | once fields, age and salary pass, a future hire year reports `FutureHireYear` whatever the gender text, bad or good |
| `Calculator.BandOf` | index.js:38-44 | the chain gives a band exactly for ages 18 and up, and the band given holds the age |
| `Calculator.BandsPartition` | index.js:38-44 | an age lies in a band if and only if the chain selects that band: the bands are disjoint and cover every age from 18 |
| `Calculator.BandSeams` | index.js:38-44 | 17 has no band; 18 and 39 are in the first band, 40 and 69 in the second, 70 and 99 in the third |
| `Calculator.TierPicksTableColumn` | index.js:40-46 | in every band and for either gender, the bonus is the table row's lower-tier bonus for tenure up to 10 (10 included) and its upper-tier bonus from 11 on |
| `Calculator.TierBoundary` | index.js:40-46 | tenure 0 and 10 are the lower tier, 11 the upper |
| `Calculator.Percent` | index.js:39-45 | every band and gender has a percentage strictly between 0 and 1 |
| `Calculator.Bonus` | index.js:40-46 | every band, gender and tier has a bonus between 5 and 17 |
| `Calculator.Adjustment` | index.js:35-47 | the rates stay (0, 0) exactly when the age is under 18; from 18 up both are positive |
| `Calculator.NewSalary` | index.js:49 | with a positive base and non-negative rates the new salary is at least the base, and above it when either rate is positive |
| `Calculator.NewSalaryScaled` | index.js:49 | the new salary equals base × (1 + percentage) + bonus |
| `Calculator.TableRowsUnique` | index.js:38-47 | every band and gender has exactly one row in the rule table |
| `Calculator.AdjustmentMatchesTable` | index.js:35-47 | for every age from 18 up, the chain's percentage and bonus are those of the table row for the band and gender, with the bonus tier chosen by tenure |
| `Handler.Handle` | index.js:7-49 | a request fails exactly when validation fails, with the first failing check; an accepted one gets tenure = current year − hire year ≥ 0, the positive percentage and bonus of its band, and new salary = base × (1 + percentage) + bonus, above the base |
| `Handler.HandleFollowsTable` | index.js:35-49 | every accepted request is priced by its row of the rule table |
| `Handler.ValidInputAccepted` | index.js:9-49 | every request with all fields given, age 18–99, salary > 0, hire year ≤ current year and gender "M" or "F" is accepted |
| `Handler.YoungManExample` | index.js:134 | the example query of the file (age 30, M, 2000, hired 2021), in 2025: tenure 4, 10%, bonus 10, new salary 2210 |
| `Handler.SeniorWomanExample` | index.js:44-49 | age 75, F, 3000, hired 2000, in 2025: tenure 25, 17%, bonus 12, new salary 3522 |
| `Handler.TenureTenExample` | index.js:41-43 | a man of 45 gets bonus 5 at tenure 10 and 15 at tenure 11 |
| `Handler.MissingCodeExample` | index.js:9-11 | an empty employee code is reported as a missing field even when every other check would fail too |

## Left out

- Express plumbing (index.js:1-6, 129-132): creating the app, listening on port 3000, the console message and the export; network I/O with no logic.
- The HTML page (index.js:51-126) and its number formatting with `toFixed(2)` and `toFixed(1)`: presentation only. `Handle` returns the figures the page shows as a `Summary`; the error messages are the five `Error` constructors.
- The clock (index.js:16): the current year is a parameter.
- `parseInt`/`parseFloat` (index.js:13-15): prefix parsing of the texts is not modelled; the parsed numbers are inputs. A non-numeric age parses to `NaN`, which fails every comparison, so in the source it passes the age check at index.js:19 and falls through all three bands with percentage 0 and bonus 0; the model has no `NaN` and does not capture this path (nor a `NaN` salary or hire year, which likewise pass their checks).
- IEEE double arithmetic at index.js:49: the model computes the new salary exactly over `real`, so it does not show rounding such as 0.1 not being exactly representable.
- Query values that are arrays or objects (a repeated or bracketed parameter): fields are modelled as strings only.
