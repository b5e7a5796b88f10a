// Calendar arithmetic in closed form, and the proleptic Gregorian calendar it
// has to agree with (RFC 3339, appendix C, gives the leap year rule).
module Calendar {
  datatype Date = Date(year: int, month: nat, day: nat)

  // ---- the calendar, by its rules ---------------------------------------------

  predicate IsLeapYear(y: int) {
    y % 4 == 0 && (y % 100 != 0 || y % 400 == 0)
  }

  function DaysInMonth(y: int, m: nat): nat {
    if m == 2 then if IsLeapYear(y) then 29 else 28
    else if m == 4 || m == 6 || m == 9 || m == 11 then 30
    else 31
  }

  predicate ValidDate(d: Date) {
    1 <= d.month <= 12 && 1 <= d.day <= DaysInMonth(d.year, d.month)
  }

  function NextDate(d: Date): Date {
    if d.day < DaysInMonth(d.year, d.month) then Date(d.year, d.month, d.day + 1)
    else if d.month < 12 then Date(d.year, d.month + 1, 1)
    else Date(d.year + 1, 1, 1)
  }

  // ---- the closed forms ---------------------------------------------------------

  // Division of the source language: it truncates toward zero.
  function TruncatedQuotient(a: int, b: int): int
    requires b > 0
  {
    if a >= 0 then a / b else -((-a) / b)
  }

  function YearOfEra(doe: nat): nat {
    (doe - doe / 1460 + doe / 36524 - doe / 146096) / 365
  }

  function YearStart(yoe: nat): nat {
    365 * yoe + yoe / 4 - yoe / 100
  }

  function MonthStart(mp: nat): nat {
    (153 * mp + 2) / 5
  }

  function CivilFromDays(days: int): Date {
    var z := days + 719468;
    var era := TruncatedQuotient(if z >= 0 then z else z - 146096, 146097);
    EraIsFloor(z);
    var doe := z - era * 146097;
    DayInEra(doe);
    var yoe := YearOfEra(doe);
    var doy := doe - YearStart(yoe);
    var mp := (5 * doy + 2) / 153;
    DayInYear(doy);
    var d := doy - MonthStart(mp) + 1;
    var m := if mp < 10 then mp + 3 else mp - 9;
    Date(yoe + era * 400 + (if m <= 2 then 1 else 0), m, d)
  }

  function DaysFromCivil(date: Date): int
    requires 1 <= date.month <= 12 && 1 <= date.day
  {
    var y := date.year - (if date.month <= 2 then 1 else 0);
    var era := TruncatedQuotient(if y >= 0 then y else y - 399, 400);
    YearEraIsFloor(y);
    var yoe := y - era * 400;
    var doy := MonthStart(MonthPlace(date.month)) + date.day - 1;
    era * 146097 + (YearStart(yoe) + doy) - 719468
  }

  // Months counted from March.
  function MonthPlace(m: nat): nat
    requires 1 <= m <= 12
  {
    if m > 2 then m - 3 else m + 9
  }

  // ---- eras and years -------------------------------------------------------------

  lemma EraIsFloor(z: int)
    ensures TruncatedQuotient(if z >= 0 then z else z - 146096, 146097) == z / 146097
    ensures 0 <= z - (z / 146097) * 146097 < 146097
  {
  }

  lemma YearEraIsFloor(y: int)
    ensures TruncatedQuotient(if y >= 0 then y else y - 399, 400) == y / 400
    ensures 0 <= y - (y / 400) * 400 < 400
  {
  }

  // The number of days in the year of an era that starts in March.
  function YearLength(yoe: nat): nat {
    if yoe % 4 == 3 && (yoe % 100 != 99 || yoe == 399) then 366 else 365
  }

  // An era is 100c + 4q + t years; a day of it is that many leap cycles on.
  lemma YearOfEraOf(c: nat, q: nat, t: nat, u: nat)
    requires c <= 3 && q <= 24 && t <= 3 && u < YearLength(100 * c + 4 * q + t)
    ensures YearOfEra(36524 * c + 1461 * q + 365 * t + u) == 100 * c + 4 * q + t
  {
    var doe := 36524 * c + 1461 * q + 365 * t + u;
    var e := if 24 * c + q + 365 * t + u >= 1460 then 1 else 0;
    LengthOf(c, q, t);
    assert doe / 1460 == 25 * c + q + e;
    if doe == 146096 {
      assert c == 3 && q == 24 && t == 3 && u == 365;
    } else {
      assert doe / 36524 == c && doe / 146096 == 0;
      assert doe - doe / 1460 + c == 365 * (100 * c + 4 * q + t) + (u - e);
      assert 0 <= u - e < 365;
    }
  }

  lemma LengthOf(c: nat, q: nat, t: nat)
    requires c <= 3 && q <= 24 && t <= 3
    ensures YearLength(100 * c + 4 * q + t) == if t == 3 && (q != 24 || c == 3) then 366 else 365
  {
    assert (100 * c + 4 * q + t) % 4 == t;
    assert (100 * c + 4 * q + t) % 100 == 4 * q + t;
  }

  lemma StartOf(c: nat, q: nat, t: nat)
    requires q <= 24 && t <= 3
    ensures YearStart(100 * c + 4 * q + t) == 36524 * c + 1461 * q + 365 * t
  {
    assert (100 * c + 4 * q + t) / 4 == 25 * c + q;
    assert (100 * c + 4 * q + t) / 100 == c;
  }

  // A day and its year within the era determine each other.
  lemma YearAndDay(yoe: nat, doy: nat)
    requires yoe < 400 && doy < YearLength(yoe)
    ensures YearOfEra(YearStart(yoe) + doy) == yoe
    ensures YearStart(yoe) + doy < 146097
  {
    var c, q, t := yoe / 100, yoe % 100 / 4, yoe % 4;
    assert yoe == 100 * c + 4 * q + t;
    LengthOf(c, q, t);
    StartOf(c, q, t);
    YearOfEraOf(c, q, t, doy);
  }

  lemma DayInEra(doe: int)
    requires 0 <= doe < 146097
    ensures YearOfEra(doe) < 400
    ensures 0 <= doe - YearStart(YearOfEra(doe)) < YearLength(YearOfEra(doe))
  {
    var c := if doe == 146096 then 3 else doe / 36524;
    var r := doe - 36524 * c;
    var q := r / 1461;
    var s := r - 1461 * q;
    var t := if s == 1460 then 3 else s / 365;
    var u := s - 365 * t;
    LengthOf(c, q, t);
    StartOf(c, q, t);
    YearOfEraOf(c, q, t, u);
  }

  // ---- months ------------------------------------------------------------------------

  // A day of the year and its month determine each other.
  lemma DayInYear(doy: nat)
    requires doy < 366
    ensures var mp := (5 * doy + 2) / 153;
            && mp <= 11 && MonthStart(mp) <= doy
            && (mp < 11 ==> doy < MonthStart(mp + 1))
  {
  }

  lemma MonthOfDay(mp: nat, day: nat)
    requires mp <= 11 && day < (if mp == 11 then 29 else MonthStart(mp + 1) - MonthStart(mp))
    ensures (5 * (MonthStart(mp) + day) + 2) / 153 == mp
  {
  }

  // Month lengths fall out of the closed form.
  lemma MonthLength(y: int, m: nat)
    requires 1 <= m <= 12
    ensures m != 2 ==> MonthStart(MonthPlace(m) + 1) - MonthStart(MonthPlace(m)) == DaysInMonth(y, m)
    ensures m == 2 ==> MonthStart(11) + DaysInMonth(y, m) == YearLength((y - 1) % 400)
  {
    if m == 2 {
      LeapYears(y);
    }
  }

  lemma LeapYears(y: int)
    ensures YearLength((y - 1) % 400) == if IsLeapYear(y) then 366 else 365
  {
    var k, r := (y - 1) / 400, (y - 1) % 400;
    var c, q, t := r / 100, r % 100 / 4, r % 4;
    assert r == 100 * c + 4 * q + t;
    LengthOf(c, q, t);
    assert y == 400 * k + 100 * c + 4 * q + t + 1;
    LeapByParts(k, c, q, t);
  }

  lemma LeapByParts(k: int, c: nat, q: nat, t: nat)
    requires c <= 3 && q <= 24 && t <= 3
    ensures IsLeapYear(400 * k + 100 * c + 4 * q + t + 1) <==> t == 3 && (q != 24 || c == 3)
  {
    if t < 3 {
      Remainder4(100 * k + 25 * c + q, t + 1);
    } else {
      Remainder4(100 * k + 25 * c + q + 1, 0);
      if q < 24 {
        Remainder100(4 * k + c, 4 * q + 4);
      } else if c < 3 {
        Remainder100(4 * k + c + 1, 0);
        Remainder400(k, 100 * (c + 1));
      } else {
        Remainder400(k + 1, 0);
      }
    }
  }

  lemma Remainder4(k: int, r: nat)
    requires r < 4
    ensures (4 * k + r) % 4 == r
  {
  }

  lemma Remainder100(k: int, r: nat)
    requires r < 100
    ensures (100 * k + r) % 100 == r
  {
  }

  lemma Remainder400(k: int, r: nat)
    requires r < 400
    ensures (400 * k + r) % 400 == r && (400 * k + r) / 400 == k
  {
  }

  // ---- the two forms agree with the calendar and with each other ----------------------

  lemma DayOfYearFits(date: Date)
    requires ValidDate(date)
    ensures var yoe := (date.year - (if date.month <= 2 then 1 else 0)) % 400;
            MonthStart(MonthPlace(date.month)) + date.day - 1 < YearLength(yoe)
  {
    MonthLength(date.year, date.month);
  }

  // The inverse, on every valid date.
  lemma CivilOfDays(date: Date)
    requires ValidDate(date)
    ensures CivilFromDays(DaysFromCivil(date)) == date
  {
    hide YearOfEra, YearStart, YearLength, MonthStart, TruncatedQuotient, DaysInMonth;
    var y := date.year - (if date.month <= 2 then 1 else 0);
    var mp := MonthPlace(date.month);
    var yoe, doy := y % 400, MonthStart(mp) + date.day - 1;
    var z := DaysFromCivil(date) + 719468;
    YearEraIsFloor(y);
    DayOfYearFits(date);
    YearAndDay(yoe, doy);
    EraIsFloor(z);
    assert z == (y / 400) * 146097 + (YearStart(yoe) + doy);
    assert z / 146097 == y / 400 && z - (z / 146097) * 146097 == YearStart(yoe) + doy;
    MonthLength(date.year, date.month);
    FebruaryFits(date.year);
    MonthOfDay(mp, date.day - 1);
  }

  lemma FebruaryFits(y: int)
    ensures DaysInMonth(y, 2) <= 29
  {
  }

  // The inverse, on every day number.
  lemma DaysOfCivil(days: int)
    ensures ValidDate(CivilFromDays(days))
    ensures DaysFromCivil(CivilFromDays(days)) == days
  {
    hide YearOfEra, YearStart, YearLength, MonthStart, TruncatedQuotient, DaysInMonth;
    var z := days + 719468;
    EraIsFloor(z);
    var era, doe := z / 146097, z - (z / 146097) * 146097;
    DayInEra(doe);
    var yoe := YearOfEra(doe);
    var doy := doe - YearStart(yoe);
    LengthAtMost(yoe);
    DayInYear(doy);
    var mp := (5 * doy + 2) / 153;
    var date := CivilFromDays(days);
    assert MonthPlace(date.month) == mp;
    var y := yoe + era * 400;
    assert y == date.year - (if date.month <= 2 then 1 else 0);
    YearEraIsFloor(y);
    assert y / 400 == era && y % 400 == yoe;
    MonthLength(date.year, date.month);
  }

  lemma LengthAtMost(yoe: nat)
    ensures YearLength(yoe) <= 366
  {
  }

  // One day later in the calendar is one more day in the count.
  lemma NextDateIsNextDay(date: Date)
    requires ValidDate(date)
    ensures ValidDate(NextDate(date))
    ensures DaysFromCivil(NextDate(date)) == DaysFromCivil(date) + 1
  {
    hide YearStart, YearLength, MonthStart, TruncatedQuotient, DaysInMonth;
    MonthLength(date.year, date.month);
    MonthsNotEmpty(date.year);
    MonthsNotEmpty(date.year + 1);
    var next := NextDate(date);
    var y := date.year - (if date.month <= 2 then 1 else 0);
    YearEraIsFloor(y);
    YearEraIsFloor(y + 1);
    FirstMonth();
    if date.day == DaysInMonth(date.year, date.month) && date.month == 2 {
      NextYear(y);
    }
  }

  lemma MonthsNotEmpty(y: int)
    ensures forall m: nat :: DaysInMonth(y, m) >= 1
  {
  }

  lemma FirstMonth()
    ensures MonthStart(0) == 0
  {
  }

  lemma NextYear(y: int)
    ensures (y + 1) / 400 * 146097 + YearStart((y + 1) % 400)
         == y / 400 * 146097 + YearStart(y % 400) + YearLength(y % 400)
  {
    var era, yoe := y / 400, y % 400;
    assert y == 400 * era + yoe;
    if yoe < 399 {
      Remainder400(era, yoe + 1);
      YearInEra(yoe);
    } else {
      Remainder400(era + 1, 0);
    }
  }

  lemma YearInEra(yoe: nat)
    requires yoe < 399
    ensures YearStart(yoe + 1) == YearStart(yoe) + YearLength(yoe)
  {
    var c, q, t := yoe / 100, yoe % 100 / 4, yoe % 4;
    assert yoe == 100 * c + 4 * q + t;
    LengthOf(c, q, t);
    hide YearStart, YearLength;
    StartOf(c, q, t);
    if t < 3 {
      StartOf(c, q, t + 1);
    } else if q < 24 {
      StartOf(c, q + 1, 0);
    } else {
      StartOf(c + 1, 0, 0);
    }
  }

  // Day zero is the first of January 1970, and consecutive day numbers are
  // consecutive dates: the closed form is the Gregorian calendar.
  lemma ConsecutiveDays(days: int)
    ensures CivilFromDays(0) == Date(1970, 1, 1)
    ensures CivilFromDays(days + 1) == NextDate(CivilFromDays(days))
  {
    hide CivilFromDays, DaysFromCivil, NextDate, ValidDate;
    DaysOfCivil(days);
    NextDateIsNextDay(CivilFromDays(days));
    CivilOfDays(NextDate(CivilFromDays(days)));
    UnixEpoch();
  }

  lemma UnixEpoch()
    ensures CivilFromDays(0) == Date(1970, 1, 1)
  {
    assert DaysFromCivil(Date(1970, 1, 1)) == 0;
    hide CivilFromDays, DaysFromCivil;
    CivilOfDays(Date(1970, 1, 1));
  }
}
