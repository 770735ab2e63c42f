/**
 Instants and their civil date and time in UTC. An instant counts nanoseconds from 0000-01-01T00:00:00Z
 of the proleptic Gregorian calendar.
 */
module Calendar {
  const SECOND := 1_000_000_000
  const DAY := 86_400_000_000_000

  // ---------- civil dates ----------

  predicate Leap(year: int) {
    year % 4 == 0 && (year % 100 != 0 || year % 400 == 0)
  }

  function DaysBeforeYear(year: int): int {
    365 * year + (year + 3) / 4 - (year + 99) / 100 + (year + 399) / 400
  }

  function DaysBeforeMonth(leap: bool, month: nat): nat
    requires 1 <= month <= 13
  {
    [0, 31, 59, 90, 120, 151, 181, 212, 243, 273, 304, 334, 365][month - 1] + if leap && month > 2 then 1 else 0
  }

  function DaysIn(leap: bool, month: nat): (n: nat)
    requires 1 <= month <= 12
    ensures n == DaysBeforeMonth(leap, month + 1) - DaysBeforeMonth(leap, month)
    ensures 28 <= n <= 31
  {
    if month == 2 then (if leap then 29 else 28)
    else if month in {4, 6, 9, 11} then 30 else 31
  }

  lemma Ceiling4(year: int)
    ensures (year + 4) / 4 - (year + 3) / 4 == if year % 4 == 0 then 1 else 0
  {
    assert year == year / 4 * 4 + year % 4;
  }

  lemma Ceiling100(year: int)
    ensures (year + 100) / 100 - (year + 99) / 100 == if year % 100 == 0 then 1 else 0
  {
    assert year == year / 100 * 100 + year % 100;
  }

  lemma Ceiling400(year: int)
    ensures (year + 400) / 400 - (year + 399) / 400 == if year % 400 == 0 then 1 else 0
  {
    assert year == year / 400 * 400 + year % 400;
  }

  lemma Divisible(year: int)
    ensures year % 400 == 0 ==> year % 100 == 0
    ensures year % 100 == 0 ==> year % 4 == 0
  {
  }

  lemma YearLength(year: int)
    ensures DaysBeforeYear(year + 1) - DaysBeforeYear(year) == if Leap(year) then 366 else 365
  {
    Ceiling4(year);
    Ceiling100(year);
    Ceiling400(year);
    Divisible(year);
  }

  lemma YearCycle(cycle: int, year: int)
    ensures DaysBeforeYear(400 * cycle + year) == 146_097 * cycle + DaysBeforeYear(year)
  {
    assert (400 * cycle + year + 3) / 4 == 100 * cycle + (year + 3) / 4;
    assert (400 * cycle + year + 99) / 100 == 4 * cycle + (year + 99) / 100;
    assert (400 * cycle + year + 399) / 400 == cycle + (year + 399) / 400;
  }

  lemma CycleYear(cycle: int, inCycle: int, year: int)
    requires DaysBeforeYear(year) <= inCycle < DaysBeforeYear(year + 1)
    ensures DaysBeforeYear(400 * cycle + year) <= 146_097 * cycle + inCycle < DaysBeforeYear(400 * cycle + year + 1)
  {
    YearCycle(cycle, year);
    YearCycle(cycle, year + 1);
    assert 400 * cycle + (year + 1) == 400 * cycle + year + 1;
  }

  /** The year that day `inCycle` of a 400-year cycle falls in, as an offset. */
  function YearInCycle(inCycle: int): (y: int)
    requires 0 <= inCycle < 146_097
    ensures DaysBeforeYear(y) <= inCycle < DaysBeforeYear(y + 1)
  {
    assert DaysBeforeYear(0) == 0 && DaysBeforeYear(400) == 146_097;
    YearFrom(inCycle, 0)
  }

  function YearFrom(days: int, year: int): (y: int)
    requires 0 <= year < 400
    requires DaysBeforeYear(year) <= days < DaysBeforeYear(400)
    ensures 0 <= y < 400
    ensures DaysBeforeYear(y) <= days < DaysBeforeYear(y + 1)
    decreases 400 - year
  {
    if days < DaysBeforeYear(year + 1) then year else YearFrom(days, year + 1)
  }

  /** The year that day number `days` falls in. */
  function YearOf(days: int): (y: int)
    ensures DaysBeforeYear(y) <= days < DaysBeforeYear(y + 1)
  {
    hide DaysBeforeYear;
    var cycle, inCycle := days / 146_097, days % 146_097;
    var y := YearInCycle(inCycle);
    CycleYear(cycle, inCycle, y);
    400 * cycle + y
  }

  function MonthFrom(leap: bool, day: nat, month: nat): (m: nat)
    requires 1 <= month <= 12
    requires DaysBeforeMonth(leap, month) <= day < DaysBeforeMonth(leap, 13)
    ensures 1 <= m <= 12
    ensures DaysBeforeMonth(leap, m) <= day < DaysBeforeMonth(leap, m + 1)
    decreases 12 - month
  {
    if day < DaysBeforeMonth(leap, month + 1) then month else MonthFrom(leap, day, month + 1)
  }

  datatype Date = Date(year: int, month: nat, day: nat) {
    predicate Valid() {
      1 <= month <= 12 && 1 <= day <= DaysIn(Leap(year), month)
    }

    /** The day number of a date, counted from 0000-01-01. */
    function Number(): int
      requires Valid()
    {
      DaysBeforeYear(year) + DaysBeforeMonth(Leap(year), month) + day - 1
    }
  }

  function DateOf(days: int): (d: Date)
    ensures d.Valid() && d.Number() == days && d.year == YearOf(days)
  {
    var year := YearOf(days);
    YearLength(year);
    var leap := Leap(year);
    var inYear := days - DaysBeforeYear(year);
    var month := MonthFrom(leap, inYear, 1);
    Date(year, month, inYear - DaysBeforeMonth(leap, month) + 1)
  }

  // ---------- time of day ----------

  datatype Clock = Clock(hour: nat, minute: nat, second: nat, nano: nat) {
    predicate Valid() {
      hour < 24 && minute < 60 && second < 60 && nano < SECOND
    }

    function Nanos(): nat {
      (hour * 3600 + minute * 60 + second) * SECOND + nano
    }
  }

  function ClockOf(nanos: nat): (c: Clock)
    requires nanos < DAY
    ensures c.Valid() && c.Nanos() == nanos
  {
    var seconds := nanos / SECOND;
    assert seconds < 86_400;
    Clock(seconds / 3600, seconds / 60 % 60, seconds % 60, nanos % SECOND)
  }

  function Instant(d: Date, c: Clock): int
    requires d.Valid()
  {
    d.Number() * DAY + c.Nanos()
  }

  function YearAt(t: int): int {
    YearOf(t / DAY)
  }

  /** The civil date and time of an instant in UTC. */
  function Civil(t: int): (dc: (Date, Clock))
    ensures dc.0.Valid() && dc.1.Valid() && dc.0.year == YearAt(t)
    ensures Instant(dc.0, dc.1) == t
  {
    (DateOf(t / DAY), ClockOf(t % DAY))
  }
}
