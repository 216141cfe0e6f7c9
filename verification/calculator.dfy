/**
 * The adjustment computed once a request is validated: an age band picks a
 * percentage by gender and a bonus by gender and tenure tier, and the new
 * salary is the base salary raised by the percentage plus the bonus.
 */
module Calculator {
  import opened Wrappers
  import opened Employees

  /** The three age bands: 18 to 39, 40 to 69, and 70 and over. */
  datatype Band = Young | Middle | Senior

  /** The inclusive bounds of each band; the last band has no upper bound. */
  predicate InBand(b: Band, age: int) {
    match b
    case Young => 18 <= age <= 39
    case Middle => 40 <= age <= 69
    case Senior => 70 <= age
  }

  /**
   * The handler's if/else-if chain over the age. An age under 18 matches
   * no branch; the validator never lets one through.
   */
  function BandOf(age: int): (b: Option<Band>)
    ensures b.Some? <==> age >= 18
    ensures b.Some? ==> InBand(b.value, age)
  {
    if 18 <= age <= 39 then Some(Young)
    else if 40 <= age <= 69 then Some(Middle)
    else if age >= 70 then Some(Senior)
    else None
  }

  /** The bands do not overlap and cover every age from 18 up. */
  lemma BandsPartition(age: int, b: Band)
    ensures InBand(b, age) <==> BandOf(age) == Some(b)
  {
  }

  /** Each band meets the next without a gap: 39/40 and 69/70 are the seams. */
  lemma BandSeams()
    ensures BandOf(17) == None && BandOf(18) == Some(Young)
    ensures BandOf(39) == Some(Young) && BandOf(40) == Some(Middle)
    ensures BandOf(69) == Some(Middle) && BandOf(70) == Some(Senior)
    ensures BandOf(99) == Some(Senior)
  {
  }

  /** The two bonus tiers: a tenure of at most ten years, and more than ten. */
  datatype Tier = UpToTen | OverTen

  function TierOf(tenure: int): (t: Tier)
    ensures t == UpToTen <==> tenure <= 10
  {
    if tenure <= 10 then UpToTen else OverTen
  }

  /** Ten years of tenure is still the lower tier; eleven is the upper. */
  lemma TierBoundary()
    ensures TierOf(10) == UpToTen && TierOf(11) == OverTen
    ensures TierOf(0) == UpToTen
  {
  }

  /** The raise percentage of a band and gender, as an exact fraction. */
  function Percent(b: Band, g: Gender): (pct: real)
    ensures 0.0 < pct < 1.0
  {
    match b
    case Young => if g == M then 0.10 else 0.08
    case Middle => if g == M then 0.08 else 0.10
    case Senior => if g == M then 0.15 else 0.17
  }

  /** The fixed bonus of a band, gender and tenure tier. */
  function Bonus(b: Band, g: Gender, t: Tier): (bonus: int)
    ensures 5 <= bonus <= 17
  {
    match b
    case Young =>
      if t == UpToTen then (if g == M then 10 else 11) else (if g == M then 17 else 16)
    case Middle =>
      if t == UpToTen then (if g == M then 5 else 7) else (if g == M then 15 else 14)
    case Senior =>
      if t == UpToTen then (if g == M then 15 else 17) else (if g == M then 13 else 12)
  }

  /** The percentage and the bonus the handler settles on. */
  datatype Rates = Rates(pct: real, bonus: int)

  /**
   * Both rates start at zero and are set once by the band that holds the
   * age, so an age in no band keeps the rates (0, 0).
   */
  function Adjustment(age: int, g: Gender, tenure: int): (r: Rates)
    ensures age < 18 <==> r == Rates(0.0, 0)
    ensures age >= 18 ==> r.pct > 0.0 && r.bonus > 0
  {
    match BandOf(age)
    case None => Rates(0.0, 0)
    case Some(b) => Rates(Percent(b, g), Bonus(b, g, TierOf(tenure)))
  }

  /**
   * The new salary: base salary, plus the base salary times the
   * percentage, plus the bonus. With a positive base salary and
   * non-negative rates it never falls below the base, and it rises above
   * it as soon as either rate is positive.
   */
  function NewSalary(salary: real, pct: real, bonus: int): (s: real)
    ensures salary > 0.0 && pct >= 0.0 && bonus >= 0 ==> s >= salary
    ensures salary > 0.0 && pct >= 0.0 && bonus >= 0 && (pct > 0.0 || bonus > 0) ==> s > salary
  {
    salary + salary * pct + bonus as real
  }

  /** The same new salary, written as the base scaled by (1 + percentage) plus the bonus. */
  lemma NewSalaryScaled(salary: real, pct: real, bonus: int)
    ensures NewSalary(salary, pct, bonus) == salary * (1.0 + pct) + bonus as real
  {
  }

  /** One line of the rule table: a band and gender with its percentage and its two bonuses. */
  datatype Row = Row(band: Band, gender: Gender, pct: real, bonusUpToTen: int, bonusOverTen: int)

  /** The rule table, one row per band and gender. */
  const Table: seq<Row> := [
    Row(Young, M, 0.10, 10, 17),
    Row(Young, F, 0.08, 11, 16),
    Row(Middle, M, 0.08, 5, 15),
    Row(Middle, F, 0.10, 7, 14),
    Row(Senior, M, 0.15, 15, 13),
    Row(Senior, F, 0.17, 17, 12)
  ]

  /** The first row of `rows` for a band and gender, if there is one. */
  function Lookup(rows: seq<Row>, b: Band, g: Gender): (r: Option<Row>)
    ensures r.Some? ==> r.value in rows && r.value.band == b && r.value.gender == g
    ensures r.None? ==> forall i :: 0 <= i < |rows| ==> !(rows[i].band == b && rows[i].gender == g)
  {
    if rows == [] then None
    else if rows[0].band == b && rows[0].gender == g then Some(rows[0])
    else Lookup(rows[1..], b, g)
  }

  /** The bonus a table row gives at a tenure. */
  function RowBonus(row: Row, tenure: int): int {
    if tenure <= 10 then row.bonusUpToTen else row.bonusOverTen
  }

  /** Lookup finds the row at `i` when it matches and no earlier row does. */
  lemma {:induction false} LookupFinds(rows: seq<Row>, i: nat, b: Band, g: Gender)
    requires i < |rows| && rows[i].band == b && rows[i].gender == g
    requires forall j :: 0 <= j < i ==> !(rows[j].band == b && rows[j].gender == g)
    ensures Lookup(rows, b, g) == Some(rows[i])
  {
    if i > 0 {
      assert !(rows[0].band == b && rows[0].gender == g);
      LookupFinds(rows[1..], i - 1, b, g);
    }
  }

  /** Where a band and gender sit in the table. */
  function RowIndex(b: Band, g: Gender): (i: nat)
    ensures i < |Table| && Table[i].band == b && Table[i].gender == g
  {
    match (b, g)
    case (Young, M) => 0
    case (Young, F) => 1
    case (Middle, M) => 2
    case (Middle, F) => 3
    case (Senior, M) => 4
    case (Senior, F) => 5
  }

  /** Every band and gender appears in exactly one row of the table. */
  lemma TableRowsUnique(b: Band, g: Gender)
    ensures exists i :: 0 <= i < |Table| && Table[i].band == b && Table[i].gender == g
    ensures forall i, j ::
      (0 <= i < |Table| && 0 <= j < |Table|
       && Table[i].band == b && Table[i].gender == g
       && Table[j].band == b && Table[j].gender == g) ==> i == j
  {
    var k := RowIndex(b, g);
    assert Table[k].band == b && Table[k].gender == g;
  }

  /**
   * In every band and for either gender, the tenure tier picks the table
   * row's bonus column: tenure up to ten, including ten itself, the lower
   * column, and from eleven on the upper one.
   */
  lemma TierPicksTableColumn(b: Band, g: Gender, tenure: int)
    ensures Bonus(b, g, TierOf(tenure)) == RowBonus(Table[RowIndex(b, g)], tenure)
    ensures Bonus(b, g, TierOf(10)) == Table[RowIndex(b, g)].bonusUpToTen
    ensures Bonus(b, g, TierOf(11)) == Table[RowIndex(b, g)].bonusOverTen
  {
  }

  /**
   * For every age from 18 up, the handler's branches pick exactly the
   * percentage and bonus of the table row for the age's band and the gender.
   */
  lemma AdjustmentMatchesTable(age: int, g: Gender, tenure: int)
    requires age >= 18
    ensures Lookup(Table, BandOf(age).value, g).Some?
    ensures var row := Lookup(Table, BandOf(age).value, g).value;
      Adjustment(age, g, tenure) == Rates(row.pct, RowBonus(row, tenure))
  {
    var b := BandOf(age).value;
    LookupFinds(Table, RowIndex(b, g), b, g);
  }
}
