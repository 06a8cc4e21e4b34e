/** The closed-form civil date of `src/config.rs` against the day-by-day Gregorian calendar.
  *
  * The closed form counts days from 1 March of the year 0 in eras of 400 years, so that a leap day
  * is the last day of its year. The lemmas take an era apart into centuries, leap cycles, years and
  * months, and show that the date of the next day is the next date.
  */
module Calendar {
  datatype Date = Date(year: int, month: int, day: int)

  /** The leap rule of Appendix C of RFC 3339. */
  predicate Leap(year: int) {
    year % 4 == 0 && (year % 100 != 0 || year % 400 == 0)
  }

  function DaysIn(year: int, month: int): int
    requires 1 <= month <= 12
  {
    if month == 2 then (if Leap(year) then 29 else 28)
    else if month == 4 || month == 6 || month == 9 || month == 11 then 30
    else 31
  }

  predicate ValidDate(t: Date) {
    1 <= t.month <= 12 && 1 <= t.day <= DaysIn(t.year, t.month)
  }

  function NextDay(t: Date): Date
    requires ValidDate(t)
  {
    if t.day < DaysIn(t.year, t.month) then Date(t.year, t.month, t.day + 1)
    else if t.month < 12 then Date(t.year, t.month + 1, 1)
    else Date(t.year + 1, 1, 1)
  }

  // ----- The closed form

  /** Integer division rounding toward zero. */
  function TruncDiv(a: int, b: int): int
    requires b > 0
  {
    if a >= 0 then a / b else -(-a / b)
  }

  function YearOfEra(doe: int): int {
    (doe - doe / 1460 + doe / 36524 - doe / 146096) / 365
  }

  /** The date of a year that starts in March and of a day in it. */
  function FromMarch(y: int, doy: int): Date {
    var mp := (5 * doy + 2) / 153;
    var d := doy - (153 * mp + 2) / 5 + 1;
    var m := if mp < 10 then mp + 3 else mp - 9;
    Date(if m <= 2 then y + 1 else y, m, d)
  }

  function CivilFromDays(days: int): Date {
    var z := days + 719468;
    var era := TruncDiv(if z >= 0 then z else z - 146096, 146097);
    var doe := z - era * 146097;
    var yoe := YearOfEra(doe);
    FromMarch(yoe + era * 400, doe - (365 * yoe + yoe / 4 - yoe / 100))
  }

  // ----- Years that start in March

  /** Days before March year `y`. */
  function YearStart(y: int): int {
    365 * y + y / 4 - y / 100 + y / 400
  }

  function YearLength(y: int): int {
    if Leap(y + 1) then 366 else 365
  }

  lemma NextYearStart(y: int)
    ensures YearStart(y + 1) == YearStart(y) + YearLength(y) && YearLength(y + 1) > 0
  {
    assert (y + 1) / 4 == y / 4 + if (y + 1) % 4 == 0 then 1 else 0;
    assert (y + 1) / 100 == y / 100 + if (y + 1) % 100 == 0 then 1 else 0;
    assert (y + 1) / 400 == y / 400 + if (y + 1) % 400 == 0 then 1 else 0;
  }

  /** The year of a day `d` of year `100c + 4q + r` of an era. */
  lemma YearOfEraIs(c: int, q: int, r: int, d: int)
    requires 0 <= c <= 3 && 0 <= q <= 24 && 0 <= r <= 3
    requires 0 <= d < (if r == 3 && (q < 24 || c == 3) then 366 else 365)
    ensures YearOfEra(36524 * c + 1461 * q + 365 * r + d) == 100 * c + 4 * q + r
  {
    var doe, y := 36524 * c + 1461 * q + 365 * r + d, 100 * c + 4 * q + r;
    var rest := 24 * c + q + 365 * r + d;
    assert doe == 1460 * (25 * c + q) + rest;
    assert doe / 1460 == 25 * c + q + if rest >= 1460 then 1 else 0;
    var last := c == 3 && q == 24 && r == 3 && d == 365;
    assert doe / 36524 == if last then 4 else c;
    assert doe / 146096 == if last then 1 else 0;
    var n := d - if rest >= 1460 then 1 else 0;
    assert doe - doe / 1460 + doe / 36524 - doe / 146096 == 365 * y + n && 0 <= n < 365;
  }

  /** Every day of an era is a day of one of its 400 years. */
  lemma PartsOfEra(doe: int) returns (c: int, q: int, r: int, d: int)
    requires 0 <= doe < 146097
    ensures doe == 36524 * c + 1461 * q + 365 * r + d
    ensures 0 <= c <= 3 && 0 <= q <= 24 && 0 <= r <= 3
    ensures 0 <= d < (if r == 3 && (q < 24 || c == 3) then 366 else 365)
  {
    c := if doe == 146096 then 3 else doe / 36524;
    var inCentury := doe - 36524 * c;
    assert 0 <= c <= 3 && 0 <= inCentury <= 36524 && (c < 3 ==> inCentury < 36524);
    q := inCentury / 1461;
    var inFour := inCentury - 1461 * q;
    assert 0 <= q <= 24 && 0 <= inFour < 1461 && (q == 24 && c < 3 ==> inFour < 1460);
    r := if inFour == 1460 then 3 else inFour / 365;
    d := inFour - 365 * r;
  }

  lemma LeapInEra(c: int, q: int, r: int)
    requires 0 <= c <= 3 && 0 <= q <= 24 && 0 <= r <= 3
    ensures var y := 100 * c + 4 * q + r;
      y / 4 == 25 * c + q && y / 100 == c && (Leap(y + 1) <==> r == 3 && (q < 24 || c == 3))
  {
  }

  lemma DayOfEra(doe: int)
    requires 0 <= doe < 146097
    ensures var y := YearOfEra(doe);
      0 <= y < 400 && 0 <= doe - (365 * y + y / 4 - y / 100) < YearLength(y)
  {
    var c, q, r, d := PartsOfEra(doe);
    YearOfEraIs(c, q, r, d);
    LeapInEra(c, q, r);
    hide YearOfEra, Leap;
  }

  /** The day, as a March year and a day in it. */
  lemma MarchYearOf(days: int) returns (y: int, doy: int)
    ensures CivilFromDays(days) == FromMarch(y, doy)
    ensures days + 719468 == YearStart(y) + doy && 0 <= doy < YearLength(y)
  {
    hide YearOfEra, FromMarch, TruncDiv, YearStart, YearLength;
    var z := days + 719468;
    var era := TruncDiv(if z >= 0 then z else z - 146096, 146097);
    var doe := z - era * 146097;
    var yoe := YearOfEra(doe);
    y, doy := yoe + era * 400, doe - (365 * yoe + yoe / 4 - yoe / 100);
    assert CivilFromDays(days) == FromMarch(y, doy);
    EraIsFloor(z);
    hide *;
    DayOfEra(doe);
    EraShift(yoe, era);
  }

  lemma EraIsFloor(z: int)
    ensures var era := TruncDiv(if z >= 0 then z else z - 146096, 146097); 0 <= z - era * 146097 < 146097
  {
  }

  lemma EraShift(yoe: int, era: int)
    requires 0 <= yoe < 400
    ensures YearStart(yoe + era * 400) == era * 146097 + 365 * yoe + yoe / 4 - yoe / 100
    ensures YearLength(yoe + era * 400) == YearLength(yoe)
  {
    ShiftedDiv(yoe, era);
    ShiftedLeap(yoe + 1, era);
  }

  lemma ShiftedDiv(yoe: int, era: int)
    requires 0 <= yoe < 400
    ensures var y := yoe + era * 400;
      y / 4 == yoe / 4 + 100 * era && y / 100 == yoe / 100 + 4 * era && y / 400 == era
  {
  }

  lemma ShiftedLeap(y: int, era: int)
    ensures Leap(y + era * 400) <==> Leap(y)
  {
    assert (y + era * 400) / 4 == y / 4 + 100 * era;
    assert (y + era * 400) / 100 == y / 100 + 4 * era;
    assert (y + era * 400) / 400 == y / 400 + era;
  }

  // ----- Agreement with the day-by-day calendar

  lemma MonthOfDay(doy: int)
    requires 0 <= doy < 366
    ensures var mp := (5 * doy + 2) / 153;
      0 <= mp <= 11 && (153 * mp + 2) / 5 <= doy && (mp < 11 ==> doy < (153 * (mp + 1) + 2) / 5)
  {
  }

  /** The day of its year a March month starts on. */
  function MonthStart(mp: int): int {
    (153 * mp + 2) / 5
  }

  lemma NextMonthOfDay(doy: int)
    requires 0 <= doy < 365
    ensures var mp, next := (5 * doy + 2) / 153, (5 * (doy + 1) + 2) / 153;
      next == mp || (next == mp + 1 && doy + 1 == MonthStart(next))
  {
  }

  lemma MonthLengths(year: int, mp: int)
    requires 0 <= mp < 11
    ensures var m := if mp < 10 then mp + 3 else mp - 9;
      m != 2 && MonthStart(mp + 1) - MonthStart(mp) == DaysIn(year, m)
    ensures MonthStart(0) == 0 && MonthStart(11) == 337
  {
  }

  lemma FromMarchIs(y: int, doy: int) returns (mp: int)
    requires 0 <= doy < 366
    ensures mp == (5 * doy + 2) / 153 && 0 <= mp <= 11 && MonthStart(mp) <= doy && (mp < 11 ==> doy < MonthStart(mp + 1))
    ensures FromMarch(y, doy) == Date(if mp >= 10 then y + 1 else y, if mp < 10 then mp + 3 else mp - 9, doy - MonthStart(mp) + 1)
  {
    mp := (5 * doy + 2) / 153;
    MonthOfDay(doy);
  }

  /** Within one March year the months have their lengths, February the one of the next year. */
  lemma MarchMonths(y: int, doy: int)
    requires 0 <= doy < YearLength(y)
    ensures ValidDate(FromMarch(y, doy))
    ensures doy + 1 < YearLength(y) ==> FromMarch(y, doy + 1) == NextDay(FromMarch(y, doy))
    ensures doy + 1 == YearLength(y) ==> FromMarch(y + 1, 0) == NextDay(FromMarch(y, doy))
  {
    hide Leap, MonthStart, FromMarch;
    var mp := FromMarchIs(y, doy);
    var first := FromMarchIs(y + 1, 0);
    if mp < 11 {
      MonthLengths(if mp >= 10 then y + 1 else y, mp);
    } else {
      MonthLengths(y, 0);
    }
    if doy + 1 < YearLength(y) {
      var next := FromMarchIs(y, doy + 1);
      NextMonthOfDay(doy);
    }
  }

  lemma OneMarchYear(y: int, doy: int, y': int, doy': int)
    requires YearStart(y) + doy == YearStart(y') + doy'
    requires 0 <= doy < YearLength(y) && 0 <= doy' < YearLength(y')
    ensures y == y' && doy == doy'
  {
    hide YearStart, YearLength;
    if y < y' {
      YearStartGrows(y, y');
    } else if y' < y {
      YearStartGrows(y', y);
    }
  }

  lemma {:induction false} YearStartGrows(y: int, y': int)
    requires y < y'
    ensures YearStart(y) + YearLength(y) <= YearStart(y')
    decreases y' - y
  {
    NextYearStart(y);
    hide YearStart, YearLength;
    if y + 1 < y' {
      YearStartGrows(y + 1, y');
    }
  }

  lemma Epoch()
    ensures CivilFromDays(0) == Date(1970, 1, 1)
  {
  }

  /** Day 0 is 1970-01-01 and each day's date is the successor of the day before's: the closed form
    * is the Gregorian calendar. */
  lemma CivilIsGregorian(days: int)
    ensures CivilFromDays(0) == Date(1970, 1, 1)
    ensures ValidDate(CivilFromDays(days))
    ensures CivilFromDays(days + 1) == NextDay(CivilFromDays(days))
  {
    hide *;
    Epoch();
    var y, doy := MarchYearOf(days);
    var y', doy' := MarchYearOf(days + 1);
    NextYearStart(y);
    MarchMonths(y, doy);
    if doy + 1 < YearLength(y) {
      OneMarchYear(y, doy + 1, y', doy');
    } else {
      OneMarchYear(y + 1, 0, y', doy');
    }
  }

  lemma OneDayOfMarchYear(y: int, doy: int, y': int, doy': int)
    requires 0 <= doy < 366 && 0 <= doy' < 366 && FromMarch(y, doy) == FromMarch(y', doy')
    ensures y == y' && doy == doy'
  {
    MonthOfDay(doy);
    MonthOfDay(doy');
  }

  /** No two days share a date. */
  lemma DatesAreDistinct(a: int, b: int)
    ensures CivilFromDays(a) == CivilFromDays(b) <==> a == b
  {
    hide CivilFromDays, FromMarch, YearStart;
    var y, doy := MarchYearOf(a);
    var y', doy' := MarchYearOf(b);
    if FromMarch(y, doy) == FromMarch(y', doy') {
      OneDayOfMarchYear(y, doy, y', doy');
    }
  }

  /** Later days have no earlier year. */
  lemma {:induction false} YearsGrow(a: int, b: int)
    requires a <= b
    ensures CivilFromDays(a).year <= CivilFromDays(b).year
    decreases b - a
  {
    hide CivilFromDays;
    if a < b {
      YearsGrow(a, b - 1);
      CivilIsGregorian(b - 1);
    }
  }
}
