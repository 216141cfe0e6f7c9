/**
 * The entities the salary adjustment handler works on once its input has
 * passed validation: the two accepted genders and the validated employee.
 */
module Employees {
  import opened Wrappers

  /** The only two values the `genero` query field may take. */
  datatype Gender = M | F

  /** The exact query text that denotes a gender. */
  function GenderText(g: Gender): string
  {
    match g
    case M => "M"
    case F => "F"
  }

  /**
   * Reads the `genero` field. The comparison is exact and case-sensitive:
   * only the one-letter strings "M" and "F" are genders.
   */
  function ParseGender(s: string): (g: Option<Gender>)
    ensures g.Some? <==> (s == "M" || s == "F")
    ensures g.Some? ==> GenderText(g.value) == s
  {
    if s == "M" then Some(M)
    else if s == "F" then Some(F)
    else None
  }

  /** Parsing a gender's own text gives that gender back. */
  lemma ParseGenderText(g: Gender)
    ensures ParseGender(GenderText(g)) == Some(g)
  {
  }

  /** Near misses of the two accepted spellings are not genders. */
  lemma GenderNearMissesRejected()
    ensures ParseGender("m") == None && ParseGender("f") == None
    ensures ParseGender("Male") == None && ParseGender("Female") == None
    ensures ParseGender("") == None && ParseGender(" M") == None
  {
  }

  /**
   * An employee whose fields passed every check of the handler: the
   * employee code is passed through untouched, the numbers are the parsed
   * query values.
   */
  datatype Employee = Employee(
    code: string,
    age: int,
    gender: Gender,
    salary: real,
    hireYear: int)
}
