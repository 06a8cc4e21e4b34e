/** The timestamps of history entries: printing, and the shape a read one must have.
  *
  * A stamp is the date and the time of day of a number of seconds since 1970, each field padded
  * with zeros. The year is padded to four digits but may need more; the shape that is read back has
  * exactly four.
  */
module Timestamps {
  import opened Calendar
  import opened Decimals

  const SECS_PER_DAY := 86400

  /** The first second of the year 10000. */
  const YEAR_10000 := 253402300800

  predicate FieldIn(ts: string, i: nat, j: nat, low: nat, high: nat)
    requires i <= j <= |ts|
  {
    AllDigits(ts[i..j]) && low <= Value(ts[i..j]) <= high
  }

  /** `date-time` of section 5.6 of RFC 3339 with whole seconds and offset `Z`, days up to 31 in
    * every month and no leap second. */
  predicate ValidTimestamp(ts: string) {
    && |ts| == 20
    && ts[4] == '-' && ts[7] == '-' && ts[10] == 'T' && ts[13] == ':' && ts[16] == ':' && ts[19] == 'Z'
    && AllDigits(ts[0..4])
    && FieldIn(ts, 5, 7, 1, 12) && FieldIn(ts, 8, 10, 1, 31)
    && FieldIn(ts, 11, 13, 0, 23) && FieldIn(ts, 14, 16, 0, 59) && FieldIn(ts, 17, 19, 0, 59)
  }

  function Fields(a: string, b: string, c: string, d: string, e: string): string {
    "-" + (a + ("-" + (b + ("T" + (c + (":" + (d + (":" + (e + "Z")))))))))
  }

  /** What follows the year. */
  function AfterYear(month: nat, day: nat, rem: nat): string {
    Fields(Pad(2, month), Pad(2, day), Pad(2, rem / 3600), Pad(2, (rem % 3600) / 60), Pad(2, rem % 60))
  }

  function FormatTimestamp(secs: nat): string {
    var t := CivilFromDays(secs / SECS_PER_DAY);
    CivilIsGregorian(secs / SECS_PER_DAY);
    YearsGrow(0, secs / SECS_PER_DAY);
    Pad(4, t.year) + AfterYear(t.month, t.day, secs % SECS_PER_DAY)
  }

  lemma TwoDigits(n: nat)
    requires n < 100
    ensures |Pad(2, n)| == 2 && Value(Pad(2, n)) == n
  {
    assert Pow10(2) == 10 * Pow10(1) && Pow10(1) == 10 * Pow10(0);
    DigitsFit(2, n);
    ValueOfPad(2, n);
  }

  /** The fields after the year, each where it belongs. */
  lemma FieldsOf(a: string, b: string, c: string, d: string, e: string)
    requires |a| == 2 && |b| == 2 && |c| == 2 && |d| == 2 && |e| == 2
    ensures var s := Fields(a, b, c, d, e);
      && |s| == 16 && s[0] == '-' && s[3] == '-' && s[6] == 'T' && s[9] == ':' && s[12] == ':' && s[15] == 'Z'
      && s[1..3] == a && s[4..6] == b && s[7..9] == c && s[10..12] == d && s[13..15] == e
  {
    var s := Fields(a, b, c, d, e);
    assert s == ['-', a[0], a[1], '-', b[0], b[1], 'T', c[0], c[1], ':', d[0], d[1], ':', e[0], e[1], 'Z'];
  }

  lemma FourDigits(n: nat)
    ensures |Pad(4, n)| == 4 <==> n < 10000
    ensures Value(Pad(4, n)) == n
  {
    assert Pow10(4) == 10 * Pow10(3) && Pow10(3) == 10 * Pow10(2) && Pow10(2) == 10 * Pow10(1) && Pow10(1) == 10 * Pow10(0);
    DigitsFit(4, n);
    ValueOfPad(4, n);
  }

  lemma TimeFields(rem: nat)
    requires rem < SECS_PER_DAY
    ensures rem / 3600 <= 23 && (rem % 3600) / 60 <= 59 && rem % 60 <= 59
    ensures rem == 3600 * (rem / 3600) + 60 * ((rem % 3600) / 60) + rem % 60
  {
    assert rem % 3600 == rem - 3600 * (rem / 3600);
    assert (rem % 3600) % 60 == rem % 60;
  }

  /** The part after the year has 16 characters and tells month, day and second of the day. */
  lemma AfterYearTells(month: nat, day: nat, rem: nat)
    requires month < 100 && day < 100 && rem < SECS_PER_DAY
    ensures var s := AfterYear(month, day, rem);
      && |s| == 16 && s[0] == '-' && s[3] == '-' && s[6] == 'T' && s[9] == ':' && s[12] == ':' && s[15] == 'Z'
      && AllDigits(s[1..3]) && Value(s[1..3]) == month
      && AllDigits(s[4..6]) && Value(s[4..6]) == day
      && AllDigits(s[7..9]) && Value(s[7..9]) == rem / 3600
      && AllDigits(s[10..12]) && Value(s[10..12]) == (rem % 3600) / 60
      && AllDigits(s[13..15]) && Value(s[13..15]) == rem % 60
  {
    hide Pad, Value, Fields;
    TimeFields(rem);
    TwoDigits(month);
    TwoDigits(day);
    TwoDigits(rem / 3600);
    TwoDigits((rem % 3600) / 60);
    TwoDigits(rem % 60);
    FieldsOf(Pad(2, month), Pad(2, day), Pad(2, rem / 3600), Pad(2, (rem % 3600) / 60), Pad(2, rem % 60));
  }

  lemma DateFields(days: nat)
    ensures var t := CivilFromDays(days);
      ValidDate(t) && t.year >= 1970 && t.month < 100 && t.day < 100 && 1 <= t.month <= 12 && 1 <= t.day <= 31
  {
    CivilIsGregorian(days);
    YearsGrow(0, days);
    hide CivilFromDays;
  }

  lemma LaterBy4(a: string, b: string, i: nat, j: nat)
    requires |a| == 4 && i <= j <= |b|
    ensures (a + b)[4 + i..4 + j] == b[i..j]
  {
  }

  lemma ValidFrom(y: string, rest: string)
    requires |y| == 4 && AllDigits(y) && |rest| == 16
    requires rest[0] == '-' && rest[3] == '-' && rest[6] == 'T' && rest[9] == ':' && rest[12] == ':' && rest[15] == 'Z'
    requires FieldIn(rest, 1, 3, 1, 12) && FieldIn(rest, 4, 6, 1, 31)
    requires FieldIn(rest, 7, 9, 0, 23) && FieldIn(rest, 10, 12, 0, 59) && FieldIn(rest, 13, 15, 0, 59)
    ensures ValidTimestamp(y + rest)
  {
    hide Value;
    LaterBy4(y, rest, 1, 3);
    LaterBy4(y, rest, 4, 6);
    LaterBy4(y, rest, 7, 9);
    LaterBy4(y, rest, 10, 12);
    LaterBy4(y, rest, 13, 15);
    assert (y + rest)[0..4] == y;
  }

  /** Up to the year 9999, and no further, every stamp written is one that is read back. */
  lemma StampsAreValid(secs: nat)
    ensures ValidTimestamp(FormatTimestamp(secs)) <==> secs < YEAR_10000
  {
    var days, rem := secs / SECS_PER_DAY, secs % SECS_PER_DAY;
    var t := CivilFromDays(days);
    DateFields(days);
    TimeFields(rem);
    YearBound(days);
    hide CivilFromDays, Pad, Value, AfterYear;
    AfterYearTells(t.month, t.day, rem);
    FourDigits(t.year);
    if t.year < 10000 {
      ValidFrom(Pad(4, t.year), AfterYear(t.month, t.day, rem));
    }
  }

  lemma LastDayOf9999()
    ensures CivilFromDays(2932896) == Date(9999, 12, 31)
  {
  }

  lemma YearBound(days: nat)
    ensures CivilFromDays(days).year < 10000 <==> days < YEAR_10000 / SECS_PER_DAY
  {
    LastDayOf9999();
    CivilIsGregorian(2932896);
    hide CivilFromDays;
    if days <= 2932896 {
      YearsGrow(days, 2932896);
    } else {
      YearsGrow(2932897, days);
    }
  }

  lemma SameTail(a: string, b: string, c: string, d: string)
    requires a + b == c + d && |b| == |d|
    ensures a == c && b == d
  {
    assert |a| == |c|;
    assert (a + b)[..|a|] == a && (c + d)[..|a|] == c && (a + b)[|a|..] == b && (c + d)[|a|..] == d;
  }

  /** Different seconds have different stamps, at any year. */
  lemma StampsAreDistinct(a: nat, b: nat)
    ensures FormatTimestamp(a) == FormatTimestamp(b) <==> a == b
  {
    hide CivilFromDays, Pad, Value, AfterYear;
    if FormatTimestamp(a) == FormatTimestamp(b) {
      var da, db, ra, rb := a / SECS_PER_DAY, b / SECS_PER_DAY, a % SECS_PER_DAY, b % SECS_PER_DAY;
      var s, t := CivilFromDays(da), CivilFromDays(db);
      DateFields(da);
      DateFields(db);
      TimeFields(ra);
      TimeFields(rb);
      AfterYearTells(s.month, s.day, ra);
      AfterYearTells(t.month, t.day, rb);
      SameTail(Pad(4, s.year), AfterYear(s.month, s.day, ra), Pad(4, t.year), AfterYear(t.month, t.day, rb));
      FourDigits(s.year);
      FourDigits(t.year);
      DatesAreDistinct(da, db);
    }
  }

  // ----- What a stamp tells

  /** The date `n` days after 1970-01-01, one day after the other. */
  function DayAfter(n: nat): (t: Date)
    ensures ValidDate(t)
  {
    if n == 0 then Date(1970, 1, 1)
    else
      var before := DayAfter(n - 1);
      NextIsValid(before);
      NextDay(before)
  }

  lemma NextIsValid(t: Date)
    requires ValidDate(t)
    ensures ValidDate(NextDay(t))
  {
  }

  lemma {:induction false} DayAfterIs(n: nat)
    ensures DayAfter(n) == CivilFromDays(n)
  {
    hide CivilFromDays;
    if n == 0 {
      CivilIsGregorian(0);
    } else {
      DayAfterIs(n - 1);
      CivilIsGregorian(n - 1);
    }
  }

  /** The date and the second of the day a stamp of twenty characters shows. */
  datatype Told = Told(date: Date, second: int)

  function Tells(ts: string): Told
    requires ValidTimestamp(ts)
  {
    Told(Date(Value(ts[0..4]), Value(ts[5..7]), Value(ts[8..10])),
         3600 * Value(ts[11..13]) + 60 * Value(ts[14..16]) + Value(ts[17..19]))
  }

  lemma FieldsTell(y: string, rest: string)
    requires |y| == 4 && AllDigits(y) && |rest| == 16 && ValidTimestamp(y + rest)
    requires AllDigits(rest[1..3]) && AllDigits(rest[4..6]) && AllDigits(rest[7..9]) && AllDigits(rest[10..12]) && AllDigits(rest[13..15])
    ensures Tells(y + rest) == Told(Date(Value(y), Value(rest[1..3]), Value(rest[4..6])),
                                    3600 * Value(rest[7..9]) + 60 * Value(rest[10..12]) + Value(rest[13..15]))
  {
    hide Value;
    LaterBy4(y, rest, 1, 3);
    LaterBy4(y, rest, 4, 6);
    LaterBy4(y, rest, 7, 9);
    LaterBy4(y, rest, 10, 12);
    LaterBy4(y, rest, 13, 15);
    assert (y + rest)[0..4] == y;
  }

  /** A stamp shows its second: the date reached from 1970-01-01 day by day, and the time of day. */
  lemma StampTells(secs: nat)
    requires secs < YEAR_10000
    ensures ValidTimestamp(FormatTimestamp(secs))
    ensures Tells(FormatTimestamp(secs)) == Told(DayAfter(secs / 86400), secs % 86400)
  {
    hide CivilFromDays, Pad, Value, AfterYear, ValidTimestamp, Tells;
    var days, rem := secs / SECS_PER_DAY, secs % SECS_PER_DAY;
    var t := CivilFromDays(days);
    StampsAreValid(secs);
    DateFields(days);
    TimeFields(rem);
    YearBound(days);
    AfterYearTells(t.month, t.day, rem);
    FourDigits(t.year);
    FieldsTell(Pad(4, t.year), AfterYear(t.month, t.day, rem));
    DayAfterIs(days);
  }

  /** A string is read as a stamp exactly when it is one of the fields it shows, each in its range. */
  lemma ValidExactly(ts: string)
    ensures ValidTimestamp(ts) <==>
            exists y: nat, month: nat, day: nat, hour: nat, minute: nat, second: nat ::
              && ts == StampOf(y, month, day, hour, minute, second)
              && y < 10000 && 1 <= month <= 12 && 1 <= day <= 31 && hour < 24 && minute < 60 && second < 60
  {
    hide Value, Pad, Fields;
    if ValidTimestamp(ts) {
      ReadAsShown(ts);
    }
    if y: nat, month: nat, day: nat, hour: nat, minute: nat, second: nat :|
         && ts == StampOf(y, month, day, hour, minute, second)
         && y < 10000 && 1 <= month <= 12 && 1 <= day <= 31 && hour < 24 && minute < 60 && second < 60 {
      ShownIsRead(y, month, day, hour, minute, second);
    }
  }

  function StampOf(y: nat, month: nat, day: nat, hour: nat, minute: nat, second: nat): string {
    Pad(4, y) + Fields(Pad(2, month), Pad(2, day), Pad(2, hour), Pad(2, minute), Pad(2, second))
  }

  lemma ReadAsShown(ts: string)
    requires ValidTimestamp(ts)
    ensures ts == StampOf(Value(ts[0..4]), Value(ts[5..7]), Value(ts[8..10]), Value(ts[11..13]), Value(ts[14..16]), Value(ts[17..19]))
    ensures Value(ts[0..4]) < 10000
  {
    hide Value, Pad;
    PadOfValue(ts[0..4]);
    PadOfValue(ts[5..7]);
    PadOfValue(ts[8..10]);
    PadOfValue(ts[11..13]);
    PadOfValue(ts[14..16]);
    PadOfValue(ts[17..19]);
    FourDigits(Value(ts[0..4]));
    assert ts == ts[0..4] + Fields(ts[5..7], ts[8..10], ts[11..13], ts[14..16], ts[17..19]);
  }

  lemma ShownIsRead(y: nat, month: nat, day: nat, hour: nat, minute: nat, second: nat)
    requires y < 10000 && 1 <= month <= 12 && 1 <= day <= 31 && hour < 24 && minute < 60 && second < 60
    ensures ValidTimestamp(StampOf(y, month, day, hour, minute, second))
  {
    hide Value, Pad, Fields, ValidTimestamp;
    FourDigits(y);
    TwoDigits(month);
    TwoDigits(day);
    TwoDigits(hour);
    TwoDigits(minute);
    TwoDigits(second);
    FieldsOf(Pad(2, month), Pad(2, day), Pad(2, hour), Pad(2, minute), Pad(2, second));
    ValidFrom(Pad(4, y), Fields(Pad(2, month), Pad(2, day), Pad(2, hour), Pad(2, minute), Pad(2, second)));
  }

  // ----- Later seconds, later stamps

  lemma Joined(a: string, x: string, c: string, y: string)
    requires |a| == |c| && |x| == |y| && (Precedes(a, c) || (a == c && Precedes(x, y)))
    ensures Precedes(a + x, c + y)
  {
    if Precedes(a, c) {
      var i :| 0 <= i < |a| && a[..i] == c[..i] && a[i] < c[i];
      assert (a + x)[..i] == a[..i] && (c + y)[..i] == c[..i] && (a + x)[i] < (c + y)[i];
    } else {
      var i :| 0 <= i < |x| && x[..i] == y[..i] && x[i] < y[i];
      assert (a + x)[..|a| + i] == a + x[..i] && (c + y)[..|a| + i] == c + y[..i] && (a + x)[|a| + i] < (c + y)[|a| + i];
    }
  }

  /** A field, a separator and the rest. */
  lemma FieldThenRest(a: string, c: string, sep: string, x: string, y: string)
    requires AllDigits(a) && AllDigits(c) && |a| == |c| && |x| == |y|
    requires Value(a) < Value(c) || (Value(a) == Value(c) && Precedes(x, y))
    ensures Precedes(a + (sep + x), c + (sep + y))
  {
    hide Value, Precedes;
    OrderOfValues(a, c);
    if Value(a) == Value(c) {
      Joined(sep, x, sep, y);
    }
    Joined(a, sep + x, c, sep + y);
  }

  function TimeText(c: string, d: string, e: string): string {
    c + (":" + (d + (":" + (e + "Z"))))
  }

  lemma TimesAreOrdered(a: nat, b: nat)
    requires a < b < SECS_PER_DAY
    ensures Precedes(TimeText(Pad(2, a / 3600), Pad(2, (a % 3600) / 60), Pad(2, a % 60)),
                     TimeText(Pad(2, b / 3600), Pad(2, (b % 3600) / 60), Pad(2, b % 60)))
  {
    hide Value, Pad, Precedes;
    TimeFields(a);
    TimeFields(b);
    TwoDigits(a / 3600);
    TwoDigits(b / 3600);
    TwoDigits((a % 3600) / 60);
    TwoDigits((b % 3600) / 60);
    TwoDigits(a % 60);
    TwoDigits(b % 60);
    var s, t := Pad(2, a % 60), Pad(2, b % 60);
    var m, n := Pad(2, (a % 3600) / 60), Pad(2, (b % 3600) / 60);
    if a / 3600 == b / 3600 {
      if (a % 3600) / 60 == (b % 3600) / 60 {
        OrderOfValues(s, t);
        Joined(s, "Z", t, "Z");
      }
      FieldThenRest(m, n, ":", s + "Z", t + "Z");
    }
    FieldThenRest(Pad(2, a / 3600), Pad(2, b / 3600), ":", m + (":" + (s + "Z")), n + (":" + (t + "Z")));
  }

  predicate Earlier(s: Date, t: Date) {
    s.year < t.year || (s.year == t.year && (s.month < t.month || (s.month == t.month && s.day < t.day)))
  }

  lemma {:induction false} DatesAreOrdered(a: int, b: int)
    requires a < b
    ensures Earlier(CivilFromDays(a), CivilFromDays(b))
    decreases b - a
  {
    hide CivilFromDays;
    CivilIsGregorian(b - 1);
    if a < b - 1 {
      DatesAreOrdered(a, b - 1);
    }
  }

  lemma DateThenTime(s: Date, t: Date, x: string, y: string)
    requires |x| == |y| && (Earlier(s, t) || (s == t && Precedes(x, y)))
    requires 0 <= s.year < 10000 && 0 <= t.year < 10000
    requires 0 <= s.month < 100 && 0 <= t.month < 100 && 0 <= s.day < 100 && 0 <= t.day < 100
    ensures Precedes(Pad(4, s.year) + ("-" + (Pad(2, s.month) + ("-" + (Pad(2, s.day) + ("T" + x))))),
                     Pad(4, t.year) + ("-" + (Pad(2, t.month) + ("-" + (Pad(2, t.day) + ("T" + y))))))
  {
    hide Value, Pad, Precedes;
    FourDigits(s.year);
    FourDigits(t.year);
    TwoDigits(s.month);
    TwoDigits(t.month);
    TwoDigits(s.day);
    TwoDigits(t.day);
    var d, e := Pad(2, s.day) + ("T" + x), Pad(2, t.day) + ("T" + y);
    if s.year == t.year {
      if s.month == t.month {
        FieldThenRest(Pad(2, s.day), Pad(2, t.day), "T", x, y);
      }
      FieldThenRest(Pad(2, s.month), Pad(2, t.month), "-", d, e);
    }
    FieldThenRest(Pad(4, s.year), Pad(4, t.year), "-", Pad(2, s.month) + ("-" + d), Pad(2, t.month) + ("-" + e));
  }

  /** Up to the year 9999 later seconds have later stamps, character by character. */
  lemma StampsAreOrdered(a: nat, b: nat)
    requires a < b < YEAR_10000
    ensures Precedes(FormatTimestamp(a), FormatTimestamp(b))
  {
    hide CivilFromDays, Pad, Value, Precedes;
    var da, db, ra, rb := a / SECS_PER_DAY, b / SECS_PER_DAY, a % SECS_PER_DAY, b % SECS_PER_DAY;
    DateFields(da);
    DateFields(db);
    YearBound(da);
    YearBound(db);
    TimeFields(ra);
    TimeFields(rb);
    TimeLength(ra);
    TimeLength(rb);
    var x := TimeText(Pad(2, ra / 3600), Pad(2, (ra % 3600) / 60), Pad(2, ra % 60));
    var y := TimeText(Pad(2, rb / 3600), Pad(2, (rb % 3600) / 60), Pad(2, rb % 60));
    if da < db {
      DatesAreOrdered(da, db);
    } else {
      TimesAreOrdered(ra, rb);
    }
    DateThenTime(CivilFromDays(da), CivilFromDays(db), x, y);
  }

  lemma TimeLength(rem: nat)
    requires rem < SECS_PER_DAY
    ensures |TimeText(Pad(2, rem / 3600), Pad(2, (rem % 3600) / 60), Pad(2, rem % 60))| == 9
  {
    TimeFields(rem);
    hide Pad;
    TwoDigits(rem / 3600);
    TwoDigits((rem % 3600) / 60);
    TwoDigits(rem % 60);
  }
}
