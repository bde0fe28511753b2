/**
 The proleptic Gregorian calendar: a date's day number and a day number's date.

 Division truncates toward zero, as the source's does; the adjustment by which
 it nevertheless finds the era of a day before the epoch is part of what is
 proved.
 */
module Calendar {

  /** Division that truncates toward zero. */
  function Quotient(a: int, b: int): int
    requires b > 0
  {
    if a >= 0 then a / b else -((-a) / b)
  }

  predicate IsLeapYear(year: int) {
    (year % 4 == 0 && year % 100 != 0) || year % 400 == 0
  }

  const LENGTHS: seq<int> := [31, 28, 31, 30, 31, 30, 31, 31, 30, 31, 30, 31]

  function DaysInMonth(year: int, month: int): int
    requires 1 <= month <= 12
  {
    if month == 2 && IsLeapYear(year) then 29 else LENGTHS[month - 1]
  }

  datatype Date = Date(year: int, month: int, day: int)

  predicate IsDate(d: Date) {
    1 <= d.month <= 12 && 1 <= d.day <= DaysInMonth(d.year, d.month)
  }

  function DaysFromCivil(d: Date): int {
    var year := if d.month <= 2 then d.year - 1 else d.year;
    var era := Quotient(if year >= 0 then year else year - 399, 400);
    var yearOfEra := year - era * 400;
    var dayOfYear := Quotient(153 * (if d.month > 2 then d.month - 3 else d.month + 9) + 2, 5) + d.day - 1;
    var dayOfEra := yearOfEra * 365 + Quotient(yearOfEra, 4) - Quotient(yearOfEra, 100) + dayOfYear;
    era * 146097 + dayOfEra - 719468
  }

  function CivilFromDays(days: int): Date {
    var shifted := days + 719468;
    var era := Quotient(if shifted >= 0 then shifted else shifted - 146096, 146097);
    var dayOfEra := shifted - era * 146097;
    var yearOfEra := Quotient(dayOfEra - Quotient(dayOfEra, 1460) + Quotient(dayOfEra, 36524) - Quotient(dayOfEra, 146096), 365);
    var year := yearOfEra + era * 400;
    var dayOfYear := dayOfEra - (365 * yearOfEra + Quotient(yearOfEra, 4) - Quotient(yearOfEra, 100));
    var shiftedMonth := Quotient(5 * dayOfYear + 2, 153);
    var day := dayOfYear - Quotient(153 * shiftedMonth + 2, 5) + 1;
    var month := if shiftedMonth < 10 then shiftedMonth + 3 else shiftedMonth - 9;
    Date(if month <= 2 then year + 1 else year, month, day)
  }

  // ------------------------------------------------------------- the division

  lemma DivIs(a: int, b: int, k: int)
    requires b > 0 && b * k <= a < b * k + b
    ensures a / b == k
  {
    var q, r := a / b, a % b;
    assert a == b * q + r;
    Multiples(b, q, k);
    Multiples(b, k, q);
  }

  lemma {:induction false} Multiples(b: int, i: int, j: int)
    requires b > 0
    ensures i < j ==> b * i + b <= b * j
    decreases j - i
  {
    if i < j {
      assert b * (i + 1) == b * i + b;
      Multiples(b, i + 1, j);
    }
  }

  lemma RemainderShifts(x: int, m: int, k: int)
    requires m > 0
    ensures (m * k + x) % m == x % m
  {
    var q, r := x / m, x % m;
    assert m * (k + q) == m * k + m * q;
    DivIs(m * k + x, m, k + q);
  }

  /** With the adjustment, truncation finds the era: a floor. */
  lemma EraIs(a: int, n: int, k: int)
    requires n > 0 && n * k <= a < n * k + n
    ensures Quotient(if a >= 0 then a else a - (n - 1), n) == k
  {
    if a >= 0 {
      DivIs(a, n, k);
    } else {
      assert n * (-k) == -(n * k);
      DivIs(n - 1 - a, n, -k);
    }
  }

  // -------------------------------------------------------------- inside an era

  /** The years of an era, counted from March: a century, a four-year cycle, a year. */
  datatype EraYear = EraYear(century: int, cycle: int, year: int)

  predicate IsEraYear(y: EraYear) {
    0 <= y.century < 4 && 0 <= y.cycle < 25 && 0 <= y.year < 4
  }

  function YearNumber(y: EraYear): int {
    100 * y.century + 4 * y.cycle + y.year
  }

  /** The March-based year ends in a leap February. */
  predicate EndsLeap(y: EraYear) {
    y.year == 3 && (y.cycle < 24 || y.century == 3)
  }

  predicate IsDayOfYear(y: EraYear, day: int) {
    0 <= day < 365 || (day == 365 && EndsLeap(y))
  }

  function DayOfEra(y: EraYear, day: int): int {
    36524 * y.century + 1461 * y.cycle + 365 * y.year + day
  }

  lemma YearParts(y: EraYear)
    requires IsEraYear(y)
    ensures 0 <= YearNumber(y) < 400
    ensures Quotient(YearNumber(y), 4) == 25 * y.century + y.cycle && Quotient(YearNumber(y), 100) == y.century
    ensures IsLeapYear(YearNumber(y) + 1) <==> EndsLeap(y)
  {
    DivIs(YearNumber(y), 4, 25 * y.century + y.cycle);
    DivIs(YearNumber(y), 100, y.century);
  }

  /** The formula for the first day of a year of the era. */
  lemma YearStarts(y: EraYear, day: int)
    requires IsEraYear(y)
    ensures var n := YearNumber(y); n * 365 + Quotient(n, 4) - Quotient(n, 100) + day == DayOfEra(y, day)
  {
    YearParts(y);
  }

  /** The formula that reads the year off a day of the era. */
  lemma YearIsRead(y: EraYear, day: int)
    requires IsEraYear(y) && IsDayOfYear(y, day)
    ensures var n := DayOfEra(y, day);
            && 0 <= n < 146097
            && Quotient(n - Quotient(n, 1460) + Quotient(n, 36524) - Quotient(n, 146096), 365) == YearNumber(y)
  {
    var n := DayOfEra(y, day);
    var spill := 24 * y.century + y.cycle + 365 * y.year + day;
    var late := if spill >= 1460 then 1 else 0;
    var last := if n == 146096 then 1 else 0;
    DivIs(n, 1460, 25 * y.century + y.cycle + late);
    DivIs(n, 36524, y.century + last);
    DivIs(n, 146096, last);
    DivIs(365 * YearNumber(y) + day - late, 365, YearNumber(y));
  }

  /** Every day of an era belongs to a year of it. */
  lemma DayBelongs(n: int) returns (y: EraYear, day: int)
    requires 0 <= n < 146097
    ensures IsEraYear(y) && IsDayOfYear(y, day) && n == DayOfEra(y, day)
  {
    var century := if n / 36524 < 4 then n / 36524 else 3;
    var inCentury := n - 36524 * century;
    var cycle := inCentury / 1461;
    var inCycle := inCentury - 1461 * cycle;
    var year := if inCycle / 365 < 4 then inCycle / 365 else 3;
    y, day := EraYear(century, cycle, year), inCycle - 365 * year;
  }

  // ------------------------------------------------------------ inside a year

  /** Months counted from March. */
  function ShiftedMonth(month: int): int {
    if month > 2 then month - 3 else month + 9
  }

  function MonthLength(shifted: int, leap: bool): int
    requires 0 <= shifted < 12
  {
    if shifted == 11 then (if leap then 29 else 28)
    else if shifted == 1 || shifted == 3 || shifted == 6 || shifted == 8 then 30 else 31
  }

  function MonthStart(shifted: int): int {
    Quotient(153 * shifted + 2, 5)
  }

  lemma MonthIsRead(shifted: int, day: int, leap: bool)
    requires 0 <= shifted < 12 && 1 <= day <= MonthLength(shifted, leap)
    ensures var n := MonthStart(shifted) + day - 1;
            && 0 <= n < (if leap then 366 else 365)
            && Quotient(5 * n + 2, 153) == shifted
  {
    var n := MonthStart(shifted) + day - 1;
    DivIs(5 * n + 2, 153, shifted);
  }

  lemma DayInMonth(n: int, leap: bool) returns (shifted: int, day: int)
    requires 0 <= n < (if leap then 366 else 365)
    ensures 0 <= shifted < 12 && 1 <= day <= MonthLength(shifted, leap) && n == MonthStart(shifted) + day - 1
  {
    shifted := (5 * n + 2) / 153;
    day := n - MonthStart(shifted) + 1;
  }

  // ---------------------------------------------------------------- the dates

  /** A date taken apart: its era, its March-based year in the era, its shifted month. */
  predicate Apart(d: Date, era: int, y: EraYear, shifted: int) {
    && IsEraYear(y) && 0 <= shifted < 12 && 1 <= d.month <= 12 && shifted == ShiftedMonth(d.month)
    && 400 * era + YearNumber(y) == (if d.month <= 2 then d.year - 1 else d.year)
  }

  lemma LeapShifts(d: Date, era: int, y: EraYear, shifted: int)
    requires Apart(d, era, y, shifted)
    ensures DaysInMonth(d.year, d.month) == MonthLength(shifted, EndsLeap(y))
  {
    YearParts(y);
    if d.month == 2 {
      assert d.year == 400 * era + (YearNumber(y) + 1);
      LeapRepeats(era, YearNumber(y) + 1);
    }
  }

  lemma LeapRepeats(era: int, n: int)
    ensures IsLeapYear(400 * era + n) == IsLeapYear(n)
  {
    RemainderShifts(n, 4, 100 * era);
    RemainderShifts(n, 100, 4 * era);
    RemainderShifts(n, 400, era);
    assert 4 * (100 * era) == 400 * era && 100 * (4 * era) == 400 * era;
  }

  lemma TakeApart(d: Date) returns (era: int, y: EraYear, shifted: int)
    requires 1 <= d.month <= 12
    ensures Apart(d, era, y, shifted)
  {
    var year := if d.month <= 2 then d.year - 1 else d.year;
    era := year / 400;
    var n := year % 400;
    y := EraYear(n / 100, (n % 100) / 4, n % 4);
    shifted := ShiftedMonth(d.month);
    assert n % 100 == 4 * ((n % 100) / 4) + n % 4;
  }

  /** The day number in terms of the parts. */
  lemma DaysOfParts(d: Date, era: int, y: EraYear, shifted: int)
    requires Apart(d, era, y, shifted)
    ensures DaysFromCivil(d) == 146097 * era + DayOfEra(y, MonthStart(shifted) + d.day - 1) - 719468
  {
    hide Quotient, DayOfEra, YearNumber;
    var year := if d.month <= 2 then d.year - 1 else d.year;
    YearParts(y);
    EraIs(year, 400, era);
    YearStarts(y, MonthStart(shifted) + d.day - 1);
    assert year - era * 400 == YearNumber(y);
  }

  /** The steps of `CivilFromDays`, given what each of them finds. */
  lemma ReadsBack(days: int, era: int, n: int, year: int, dayOfYear: int, shifted: int, d: Date)
    requires var s := days + 719468; Quotient(if s >= 0 then s else s - 146096, 146097) == era && s == 146097 * era + n
    requires Quotient(n - Quotient(n, 1460) + Quotient(n, 36524) - Quotient(n, 146096), 365) == year
    requires year * 365 + Quotient(year, 4) - Quotient(year, 100) + dayOfYear == n
    requires Quotient(5 * dayOfYear + 2, 153) == shifted && dayOfYear == MonthStart(shifted) + d.day - 1
    requires 1 <= d.month <= 12 && shifted == ShiftedMonth(d.month)
    requires 400 * era + year == (if d.month <= 2 then d.year - 1 else d.year)
    ensures CivilFromDays(days) == d
  {
    hide Quotient;
  }

  /** The date in terms of the parts. */
  lemma DateOfParts(d: Date, era: int, y: EraYear, shifted: int)
    requires Apart(d, era, y, shifted) && 1 <= d.day <= MonthLength(shifted, EndsLeap(y))
    ensures CivilFromDays(146097 * era + DayOfEra(y, MonthStart(shifted) + d.day - 1) - 719468) == d
  {
    var dayOfYear := MonthStart(shifted) + d.day - 1;
    MonthIsRead(shifted, d.day, EndsLeap(y));
    hide Quotient, DayOfEra, YearNumber, MonthLength, CivilFromDays, MonthStart, EndsLeap;
    assert IsDayOfYear(y, dayOfYear);
    YearIsRead(y, dayOfYear);
    var n := DayOfEra(y, dayOfYear);
    EraIs(146097 * era + n, 146097, era);
    YearStarts(y, dayOfYear);
    ReadsBack(146097 * era + n - 719468, era, n, YearNumber(y), dayOfYear, shifted, d);
  }

  /** A valid date comes back from its day number. */
  lemma DateRoundTrip(d: Date)
    requires IsDate(d)
    ensures CivilFromDays(DaysFromCivil(d)) == d
  {
    hide CivilFromDays, DaysFromCivil, DayOfEra, YearNumber, MonthLength, MonthStart, DaysInMonth;
    var era, y, shifted := TakeApart(d);
    LeapShifts(d, era, y, shifted);
    DaysOfParts(d, era, y, shifted);
    DateOfParts(d, era, y, shifted);
  }

  /** Every day number is that of a valid date. */
  lemma DayRoundTrip(n: int)
    ensures IsDate(CivilFromDays(n)) && DaysFromCivil(CivilFromDays(n)) == n
  {
    hide CivilFromDays, DaysFromCivil;
    var era := (n + 719468) / 146097;
    var y, dayOfYear := DayBelongs((n + 719468) % 146097);
    var shifted, day := DayInMonth(dayOfYear, EndsLeap(y));
    var month := if shifted < 10 then shifted + 3 else shifted - 9;
    var d := Date(400 * era + YearNumber(y) + (if month <= 2 then 1 else 0), month, day);
    assert Apart(d, era, y, shifted);
    LeapShifts(d, era, y, shifted);
    DaysOfParts(d, era, y, shifted);
    DateOfParts(d, era, y, shifted);
  }

  // ------------------------------------------------------------------ the order

  predicate Earlier(a: Date, b: Date) {
    a.year < b.year || (a.year == b.year && (a.month < b.month || (a.month == b.month && a.day < b.day)))
  }

  function NextDay(d: Date): Date
    requires IsDate(d)
  {
    if d.day < DaysInMonth(d.year, d.month) then Date(d.year, d.month, d.day + 1)
    else if d.month < 12 then Date(d.year, d.month + 1, 1)
    else Date(d.year + 1, 1, 1)
  }

  lemma SameMonth(d: Date, next: Date)
    requires IsDate(d) && next == Date(d.year, d.month, d.day + 1)
    ensures DaysFromCivil(next) == DaysFromCivil(d) + 1
  {
    hide DaysFromCivil, Quotient, MonthStart, YearNumber, DaysInMonth;
    var era, y, shifted := TakeApart(d);
    DaysOfParts(d, era, y, shifted);
    DaysOfParts(next, era, y, shifted);
  }

  lemma NextMonth(d: Date, next: Date)
    requires IsDate(d) && d.day == DaysInMonth(d.year, d.month) && d.month != 2 && next.day == 1
    requires next.month == (if d.month < 12 then d.month + 1 else 1) && next.year == (if d.month < 12 then d.year else d.year + 1)
    ensures DaysFromCivil(next) == DaysFromCivil(d) + 1
  {
    var era, y, shifted := TakeApart(d);
    LeapShifts(d, era, y, shifted);
    hide DaysFromCivil, Quotient, MonthStart, YearNumber, DaysInMonth;
    MonthsJoin(shifted);
    DaysOfParts(d, era, y, shifted);
    DaysOfParts(next, era, y, shifted + 1);
  }

  lemma AfterFebruary(d: Date, next: Date)
    requires IsDate(d) && d.day == DaysInMonth(d.year, d.month) && d.month == 2 && next == Date(d.year, 3, 1)
    ensures DaysFromCivil(next) == DaysFromCivil(d) + 1
  {
    var era, y, shifted := TakeApart(d);
    LeapShifts(d, era, y, shifted);
    hide DaysFromCivil, Quotient, MonthStart, YearNumber, DaysInMonth, MonthLength, DayOfEra;
    var era', y' := YearsJoin(era, y, d.day);
    DaysOfParts(d, era, y, shifted);
    DaysOfParts(next, era', y', 0);
  }

  /** The next date has the next day number. */
  lemma NextDayFollows(d: Date)
    requires IsDate(d)
    ensures IsDate(NextDay(d)) && DaysFromCivil(NextDay(d)) == DaysFromCivil(d) + 1 && Earlier(d, NextDay(d))
  {
    hide DaysFromCivil, IsLeapYear;
    if d.day < DaysInMonth(d.year, d.month) {
      SameMonth(d, NextDay(d));
    } else {
      FirstIsDate(NextDay(d));
      if d.month == 2 {
        AfterFebruary(d, NextDay(d));
      } else {
        NextMonth(d, NextDay(d));
      }
    }
  }

  lemma FirstIsDate(d: Date)
    requires 1 <= d.month <= 12 && d.day == 1
    ensures IsDate(d)
  {}

  /** A month ends where the next one begins. */
  lemma MonthsJoin(shifted: int)
    requires 0 <= shifted < 11
    ensures MonthStart(shifted) + MonthLength(shifted, false) == MonthStart(shifted + 1)
  {}

  /** The era and the year of it that follow. */
  function NextEra(era: int, y: EraYear): int {
    if y == EraYear(3, 24, 3) then era + 1 else era
  }

  function NextYear(y: EraYear): EraYear {
    if y.year < 3 then EraYear(y.century, y.cycle, y.year + 1)
    else if y.cycle < 24 then EraYear(y.century, y.cycle + 1, 0)
    else EraYear(if y.century < 3 then y.century + 1 else 0, 0, 0)
  }

  lemma NextYearFollows(era: int, y: EraYear)
    requires IsEraYear(y)
    ensures IsEraYear(NextYear(y)) && 400 * NextEra(era, y) + YearNumber(NextYear(y)) == 400 * era + YearNumber(y) + 1
    ensures 146097 * NextEra(era, y) + DayOfEra(NextYear(y), 0) == 146097 * era + DayOfEra(y, if EndsLeap(y) then 366 else 365)
  {}

  /** A year ends where the next one begins. */
  lemma YearsJoin(era: int, y: EraYear, day: int) returns (era': int, y': EraYear)
    requires IsEraYear(y) && day == MonthLength(11, EndsLeap(y))
    ensures IsEraYear(y') && 400 * era' + YearNumber(y') == 400 * era + YearNumber(y) + 1
    ensures 146097 * era' + DayOfEra(y', MonthStart(0)) == 146097 * era + DayOfEra(y, MonthStart(11) + day - 1) + 1
  {
    MonthEnds();
    hide MonthStart, Quotient, NextEra, NextYear, EndsLeap, YearNumber;
    era', y' := NextEra(era, y), NextYear(y);
    NextYearFollows(era, y);
  }

  lemma MonthEnds()
    ensures MonthStart(0) == 0 && MonthStart(11) == 337
  {}

  lemma {:induction false} DatesIncrease(m: int, n: int)
    requires m < n
    ensures Earlier(CivilFromDays(m), CivilFromDays(n))
    decreases n - m
  {
    hide CivilFromDays, DaysFromCivil;
    DayRoundTrip(n - 1);
    NextDayFollows(CivilFromDays(n - 1));
    DateRoundTrip(NextDay(CivilFromDays(n - 1)));
    if m < n - 1 { DatesIncrease(m, n - 1); }
  }

  /** The day number is strictly increasing: dates are ordered as their day numbers are. */
  lemma DaysIncrease(a: Date, b: Date)
    requires IsDate(a) && IsDate(b)
    ensures DaysFromCivil(a) < DaysFromCivil(b) <==> Earlier(a, b)
  {
    hide CivilFromDays, DaysFromCivil;
    DateRoundTrip(a);
    DateRoundTrip(b);
    var m, n := DaysFromCivil(a), DaysFromCivil(b);
    if m < n {
      DatesIncrease(m, n);
    } else if n < m {
      DatesIncrease(n, m);
    }
  }
}
