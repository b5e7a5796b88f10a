// Timestamps as text, in the profile of section 5.6 of RFC 3339 without
// offsets: printing with nanoseconds, and the parser that accepts it.
module IsoTime {
  import opened Bytes
  import opened Calendar
  import opened Decimal
  import opened Sequences

  const NANOS := 1_000_000_000
  const DAY := 86_400
  const LOWEST := -0x8000_0000_0000_0000

  // The parser multiplies signed words; "Undefined" is an overflow there.
  datatype Parsed = Instant(nanos: I64) | InvalidArgument | OutOfRange | Undefined

  // ---- printing -------------------------------------------------------------------

  function FloorSecond(nanos: int): int {
    var seconds := TruncatedQuotient(nanos, NANOS);
    if nanos - seconds * NANOS < 0 then seconds - 1 else seconds
  }

  function FractionOf(nanos: int): int {
    var fraction := nanos - TruncatedQuotient(nanos, NANOS) * NANOS;
    if fraction < 0 then fraction + NANOS else fraction
  }

  function DayOf(seconds: int): int {
    if seconds >= 0 then seconds / DAY else -((-seconds + 86399) / DAY)
  }

  lemma Floors(nanos: int, seconds: int)
    ensures nanos == FloorSecond(nanos) * NANOS + FractionOf(nanos) && 0 <= FractionOf(nanos) < NANOS
    ensures 0 <= seconds - DayOf(seconds) * DAY < DAY
  {
  }

  function DateText(d: Date): string
    requires d.year >= 0
  {
    Padded(d.year, 4) + "-" + Padded(d.month, 2) + "-" + Padded(d.day, 2)
  }

  function ClockText(secondOfDay: nat): string {
    Padded(secondOfDay / 3600, 2) + ":" + Padded(secondOfDay % 3600 / 60, 2) + ":" + Padded(secondOfDay % 60, 2)
  }

  function ToText(nanos: I64): string {
    var seconds := FloorSecond(nanos);
    var days := DayOf(seconds);
    YearInRange(nanos);
    Floors(nanos, seconds);
    DateText(CivilFromDays(days)) + "T" + ClockText(seconds - days * DAY) + "." + Padded(FractionOf(nanos), 9) + "Z"
  }

  // Every 64-bit instant lies in a year of four digits.
  lemma YearInRange(nanos: I64)
    ensures 1600 <= CivilFromDays(DayOf(FloorSecond(nanos))).year <= 2400
  {
    var days := DayOf(FloorSecond(nanos));
    Floors(nanos, FloorSecond(nanos));
    assert -110000 < days < 110000;
    var z := days + 719468;
    EraIsFloor(z);
    assert 4 <= z / 146097 <= 5;
    DayInEra(z - z / 146097 * 146097);
    hide YearOfEra, YearStart, YearLength, TruncatedQuotient;
  }

  // ---- parsing ----------------------------------------------------------------------

  predicate DigitsAt(text: string, offset: nat, count: nat) {
    offset + count <= |text| && AllDigits(text[offset..offset + count])
  }

  function NumberAt(text: string, offset: nat, count: nat): nat
    requires DigitsAt(text, offset, count)
  {
    NumberOf(text[offset..offset + count])
  }

  predicate HasShape(text: string) {
    && |text| >= 19
    && DigitsAt(text, 0, 4) && text[4] == '-' && DigitsAt(text, 5, 2) && text[7] == '-' && DigitsAt(text, 8, 2)
    && (text[10] == 'T' || text[10] == 't' || text[10] == ' ')
    && DigitsAt(text, 11, 2) && text[13] == ':' && DigitsAt(text, 14, 2) && text[16] == ':' && DigitsAt(text, 17, 2)
  }

  // How many digits stand at the cursor.
  function DigitRun(text: string, cursor: nat): (n: nat)
    requires cursor <= |text|
    ensures cursor + n <= |text| && AllDigits(text[cursor..cursor + n])
    ensures cursor + n < |text| ==> !IsDigit(text[cursor + n])
    decreases |text| - cursor
  {
    if cursor == |text| || !IsDigit(text[cursor]) then 0
    else
      var n := DigitRun(text, cursor + 1);
      assert text[cursor..cursor + 1 + n] == [text[cursor]] + text[cursor + 1..cursor + 1 + n];
      n + 1
  }

  // The nanoseconds that the first nine of n digits stand for.
  function FractionValue(text: string, cursor: nat, n: nat): nat
    requires DigitsAt(text, cursor, n)
  {
    var kept := if n <= 9 then n else 9;
    FewerDigits(text, cursor, kept, n);
    NumberAt(text, cursor, kept) * Pow10(9 - kept)
  }

  lemma FewerDigits(text: string, cursor: nat, kept: nat, n: nat)
    requires DigitsAt(text, cursor, n) && kept <= n
    ensures DigitsAt(text, cursor, kept)
  {
    assert text[cursor..cursor + kept] == text[cursor..cursor + n][..kept];
  }

  // The position behind the fraction and its value, if it is well formed.
  datatype Tail = NoDigits | Fraction(cursor: nat, nanos: nat)

  function ReadFraction(text: string): (t: Tail)
    requires |text| >= 19
    ensures t.Fraction? ==> 19 <= t.cursor <= |text|
  {
    if |text| == 19 || text[19] != '.' then Fraction(19, 0)
    else
      var n := DigitRun(text, 20);
      if n == 0 then NoDigits else Fraction(20 + n, FractionValue(text, 20, n))
  }

  function InstantOf(date: Date, secondOfDay: int, fraction: int): Parsed
    requires 1 <= date.month <= 12 && 1 <= date.day
  {
    var seconds := DaysFromCivil(date) * DAY + secondOfDay;
    var nanos := seconds * NANOS + fraction;
    if LOWEST <= seconds * NANOS < -LOWEST && LOWEST <= nanos < -LOWEST then Instant(nanos) else Undefined
  }

  function Parse(text: string): Parsed {
    if !HasShape(text) then InvalidArgument
    else
      var year, month, day := NumberAt(text, 0, 4), NumberAt(text, 5, 2), NumberAt(text, 8, 2);
      var hour, minute, second := NumberAt(text, 11, 2), NumberAt(text, 14, 2), NumberAt(text, 17, 2);
      if month < 1 || month > 12 || day < 1 || day > 31 || hour > 23 || minute > 59 || second > 60 then OutOfRange
      else
        match ReadFraction(text)
        case NoDigits => InvalidArgument
        case Fraction(cursor, fraction) =>
          var end := if cursor < |text| && (text[cursor] == 'Z' || text[cursor] == 'z') then cursor + 1 else cursor;
          if end != |text| then InvalidArgument
          else InstantOf(Date(year, month, day), hour * 3600 + minute * 60 + second, fraction)
  }

  // ---- the parser's loops -------------------------------------------------------------

  method ParseFixedDigits(text: string, offset: nat, count: nat) returns (ok: bool, value: nat)
    ensures ok == DigitsAt(text, offset, count)
    ensures ok ==> value == NumberAt(text, offset, count)
  {
    ok, value := false, 0;
    if offset + count > |text| {
      return;
    }
    ghost var field := text[offset..offset + count];
    for i := 0 to count
      invariant AllDigits(field[..i]) && value == NumberOf(field[..i])
    {
      var ch := text[offset + i];
      assert field[i] == ch && field[..i + 1] == field[..i] + [ch];
      if !IsDigit(ch) {
        assert ch in field;
        return;
      }
      TakeOneMore(field, i);
      value := value * 10 + DigitValue(ch);
    }
    assert field[..count] == field;
    ok := true;
  }

  method ParseFraction(text: string) returns (tail: Tail)
    requires |text| >= 19
    ensures tail == ReadFraction(text)
  {
    hide FractionValue, DigitsAt, Pow10, DigitValue, AllDigits;
    var cursor, fraction := 19, 0;
    if cursor < |text| && text[cursor] == '.' {
      cursor := cursor + 1;
      var digits, scale := 0, 100_000_000;
      NinePlaces();
      NoDigitsYet(text);
      while cursor < |text| && IsDigit(text[cursor])
        invariant cursor == 20 + digits <= |text|
        invariant digits + DigitRun(text, cursor) == DigitRun(text, 20)
        invariant DigitsAt(text, 20, digits)
        invariant fraction == FractionValue(text, 20, digits)
        invariant digits < 9 ==> 10 * scale == Pow10(9 - digits)
      {
        OneMoreDigit(text, digits);
        MoreFraction(text, digits, scale);
        if digits < 9 {
          if digits < 8 {
            NextScale(digits, scale);
          }
          fraction := fraction + DigitValue(text[cursor]) * scale;
          scale := scale / 10;
        }
        digits := digits + 1;
        cursor := cursor + 1;
      }
      if digits == 0 {
        return NoDigits;
      }
    }
    return Fraction(cursor, fraction);
  }

  lemma NoDigitsYet(text: string)
    requires |text| >= 20
    ensures DigitsAt(text, 20, 0) && FractionValue(text, 20, 0) == 0
  {
  }

  lemma OneMoreDigit(text: string, digits: nat)
    requires DigitsAt(text, 20, digits) && 20 + digits < |text| && IsDigit(text[20 + digits])
    ensures DigitsAt(text, 20, digits + 1)
    ensures DigitRun(text, 20 + digits) == 1 + DigitRun(text, 20 + (digits + 1))
  {
    assert text[20..20 + (digits + 1)] == text[20..20 + digits] + [text[20 + digits]];
  }

  lemma NinePlaces()
    ensures Pow10(9) == NANOS
  {
    assert Pow10(3) == 1000;
    assert Pow10(6) == 1_000_000;
  }

  // One more digit of the fraction, at its decimal place.
  lemma MoreFraction(text: string, digits: nat, scale: int)
    requires DigitsAt(text, 20, digits + 1) && DigitsAt(text, 20, digits)
    requires digits < 9 ==> 10 * scale == Pow10(9 - digits)
    ensures FractionValue(text, 20, digits + 1)
         == FractionValue(text, 20, digits) + if digits < 9 then DigitValue(text[20 + digits]) * scale else 0
  {
    hide Pow10, NumberAt, DigitsAt, DigitValue;
    if digits < 9 {
      NumberGrows(text, digits);
      var v, d, p := NumberAt(text, 20, digits), DigitValue(text[20 + digits]), Pow10(8 - digits);
      PowStep(8 - digits);
      Places(v, d, p);
    }
  }

  lemma PowStep(n: nat)
    ensures Pow10(n + 1) == 10 * Pow10(n)
  {
  }

  lemma NumberGrows(text: string, digits: nat)
    requires DigitsAt(text, 20, digits + 1)
    ensures DigitsAt(text, 20, digits) && 20 + digits < |text| && IsDigit(text[20 + digits])
    ensures NumberAt(text, 20, digits + 1) == 10 * NumberAt(text, 20, digits) + DigitValue(text[20 + digits])
  {
    var field := text[20..20 + (digits + 1)];
    assert field[..digits + 1] == field && field[..digits] == text[20..20 + digits];
    TakeOneMore(field, digits);
    assert text[20 + digits] in field;
  }

  lemma Places(v: int, d: int, p: int)
    ensures (10 * v + d) * p == v * (10 * p) + d * p
  {
  }

  // The scale of the next digit.
  lemma NextScale(digits: nat, scale: int)
    requires digits < 8 && 10 * scale == Pow10(9 - digits)
    ensures 10 * (scale / 10) == Pow10(8 - digits)
  {
    hide Pow10;
    PowStep(8 - digits);
    PowStep(7 - digits);
    assert scale == 10 * Pow10(7 - digits);
  }

  method ParseIso8601(text: string) returns (parsed: Parsed)
    ensures parsed == Parse(text)
  {
    hide DigitRun, FractionValue, NumberAt, DigitsAt, InstantOf;
    if |text| < 19 {
      return InvalidArgument;
    }
    var shaped, year, month, day, hour, minute, second := ParseFields(text);
    if !shaped {
      return InvalidArgument;
    }
    if month < 1 || month > 12 || day < 1 || day > 31 || hour > 23 || minute > 59 || second > 60 {
      return OutOfRange;
    }
    var tail := ParseFraction(text);
    if tail == NoDigits {
      return InvalidArgument;
    }
    var cursor := tail.cursor;
    if cursor < |text| && (text[cursor] == 'Z' || text[cursor] == 'z') {
      cursor := cursor + 1;
    }
    if cursor != |text| {
      return InvalidArgument;
    }
    return InstantOf(Date(year, month, day), hour * 3600 + minute * 60 + second, tail.nanos);
  }

  method ParseFields(text: string)
      returns (ok: bool, year: nat, month: nat, day: nat, hour: nat, minute: nat, second: nat)
    requires |text| >= 19
    ensures ok == HasShape(text)
    ensures ok ==>
              && year == NumberAt(text, 0, 4) && month == NumberAt(text, 5, 2) && day == NumberAt(text, 8, 2)
              && hour == NumberAt(text, 11, 2) && minute == NumberAt(text, 14, 2) && second == NumberAt(text, 17, 2)
  {
    hide DigitsAt, NumberAt;
    month, day, hour, minute, second := 0, 0, 0, 0, 0;
    ok, year := ParseFixedDigits(text, 0, 4);
    ok := ok && text[4] == '-';
    if ok {
      ok, month := ParseFixedDigits(text, 5, 2);
    }
    ok := ok && text[7] == '-';
    if ok {
      ok, day := ParseFixedDigits(text, 8, 2);
    }
    ok := ok && (text[10] == 'T' || text[10] == 't' || text[10] == ' ');
    if ok {
      ok, hour := ParseFixedDigits(text, 11, 2);
    }
    ok := ok && text[13] == ':';
    if ok {
      ok, minute := ParseFixedDigits(text, 14, 2);
    }
    ok := ok && text[16] == ':';
    if ok {
      ok, second := ParseFixedDigits(text, 17, 2);
    }
  }

  // ---- round trip ------------------------------------------------------------------------

  // A field of a part of a text is a field of the text.
  lemma FieldOfPart(text: string, part: string, base: nat, offset: nat, count: nat)
    requires base + |part| <= |text| && text[base..base + |part|] == part && offset + count <= |part|
    ensures DigitsAt(text, base + offset, count) == DigitsAt(part, offset, count)
    ensures DigitsAt(part, offset, count) ==> NumberAt(text, base + offset, count) == NumberAt(part, offset, count)
  {
    hide AllDigits, NumberOf;
    var inText, inPart := text[base + offset..base + offset + count], part[offset..offset + count];
    forall i | 0 <= i < count
      ensures inText[i] == inPart[i]
    {
      assert inPart[i] == text[base..base + |part|][offset + i];
    }
    assert inText == inPart;
  }

  ghost predicate Holds(text: string, offset: nat, count: nat, value: int) {
    DigitsAt(text, offset, count) && NumberAt(text, offset, count) == value
  }

  // Three padded numbers with a separator between them.
  lemma ThreeFields(a: nat, b: nat, c: nat, width: nat, mark: char)
    requires a < Pow10(width) && b < 100 && c < 100 && width >= 1
    ensures var s := Padded(a, width) + [mark] + Padded(b, 2) + [mark] + Padded(c, 2);
            && |s| == width + 6 && s[width] == mark && s[width + 3] == mark
            && Holds(s, 0, width, a) && Holds(s, width + 1, 2, b) && Holds(s, width + 4, 2, c)
  {
    assert Pow10(2) == 100;
    PaddedWidth(a, width);
    PaddedWidth(b, 2);
    PaddedWidth(c, 2);
    PaddedReads(a, width);
    PaddedReads(b, 2);
    PaddedReads(c, 2);
    hide Padded, NumberOf, Pow10;
    JoinThree(Padded(a, width), Padded(b, 2), Padded(c, 2), mark);
  }

  lemma JoinThree(a: string, b: string, c: string, mark: char)
    requires |b| == 2 && |c| == 2 && AllDigits(a) && AllDigits(b) && AllDigits(c)
    ensures var s := a + [mark] + b + [mark] + c;
            && |s| == |a| + 6 && s[|a|] == mark && s[|a| + 3] == mark
            && Holds(s, 0, |a|, NumberOf(a)) && Holds(s, |a| + 1, 2, NumberOf(b)) && Holds(s, |a| + 4, 2, NumberOf(c))
  {
    hide AllDigits, NumberOf, Holds;
    ThreeParts(a, b, c, mark);
    var s := a + [mark] + b + [mark] + c;
    PartHolds(s, 0, a);
    PartHolds(s, |a| + 1, b);
    PartHolds(s, |a| + |b| + 2, c);
  }

  lemma PartHolds(s: string, offset: nat, part: string)
    requires offset + |part| <= |s| && s[offset..offset + |part|] == part && AllDigits(part)
    ensures Holds(s, offset, |part|, NumberOf(part))
  {
  }

  lemma RunIs(text: string, cursor: nat, n: nat)
    requires DigitsAt(text, cursor, n)
    requires cursor + n < |text| && !IsDigit(text[cursor + n])
    ensures DigitRun(text, cursor) == n
  {
  }

  // A text of the printed shape has its parts where the parser looks for them.
  lemma PartsOfText(date: string, clock: string, fraction: string, text: string)
    requires |date| == 10 && |clock| == 8 && |fraction| == 9
    requires text == date + "T" + clock + "." + fraction + "Z"
    ensures |text| == 30 && text[10] == 'T' && text[19] == '.' && text[29] == 'Z'
    ensures text[0..10] == date && text[11..19] == clock && text[20..29] == fraction
  {
  }

  lemma ShapeOfText(text: string, d: Date, hour: nat, minute: nat, second: nat, fraction: nat)
    requires |text| == 30 && text[10] == 'T' && text[19] == '.' && text[29] == 'Z'
    requires text[4] == '-' && text[7] == '-' && text[13] == ':' && text[16] == ':'
    requires Holds(text, 0, 4, d.year) && Holds(text, 5, 2, d.month) && Holds(text, 8, 2, d.day)
    requires Holds(text, 11, 2, hour) && Holds(text, 14, 2, minute) && Holds(text, 17, 2, second)
    requires Holds(text, 20, 9, fraction)
    requires ValidDate(d) && hour <= 23 && minute <= 59 && second <= 60
    ensures Parse(text) == InstantOf(d, hour * 3600 + minute * 60 + second, fraction)
  {
    RunIs(text, 20, 9);
    assert Pow10(0) == 1;
    assert FractionValue(text, 20, 9) == fraction * Pow10(0) == fraction;
    hide DigitsAt, NumberAt, DigitRun, InstantOf, FractionValue;
    assert ReadFraction(text) == Fraction(29, fraction);
    assert d.day <= 31;
  }

  lemma ParsesJoined(date: string, clock: string, f: string, text: string, d: Date,
                     hour: nat, minute: nat, second: nat, fraction: nat)
    requires text == date + "T" + clock + "." + f + "Z"
    requires |date| == 10 && date[4] == '-' && date[7] == '-'
    requires Holds(date, 0, 4, d.year) && Holds(date, 5, 2, d.month) && Holds(date, 8, 2, d.day)
    requires |clock| == 8 && clock[2] == ':' && clock[5] == ':'
    requires Holds(clock, 0, 2, hour) && Holds(clock, 3, 2, minute) && Holds(clock, 6, 2, second)
    requires |f| == 9 && Holds(f, 0, 9, fraction)
    requires ValidDate(d) && hour <= 23 && minute <= 59 && second <= 60
    ensures |text| == 30 && Parse(text) == InstantOf(d, hour * 3600 + minute * 60 + second, fraction)
  {
    hide DigitsAt, NumberAt, Parse, InstantOf, ValidDate;
    PartsOfText(date, clock, f, text);
    FieldOfPart(text, date, 0, 0, 4);
    FieldOfPart(text, date, 0, 5, 2);
    FieldOfPart(text, date, 0, 8, 2);
    FieldOfPart(text, clock, 11, 0, 2);
    FieldOfPart(text, clock, 11, 3, 2);
    FieldOfPart(text, clock, 11, 6, 2);
    FieldOfPart(text, f, 20, 0, 9);
    assert text[4] == text[0..10][4] && text[7] == text[0..10][7];
    assert text[13] == text[11..19][2] && text[16] == text[11..19][5];
    ShapeOfText(text, d, hour, minute, second, fraction);
  }

  lemma ParsesParts(d: Date, secondOfDay: nat, fraction: nat)
    requires ValidDate(d) && 0 <= d.year <= 9999 && secondOfDay < DAY && fraction < NANOS
    ensures var text := DateText(d) + "T" + ClockText(secondOfDay) + "." + Padded(fraction, 9) + "Z";
            |text| == 30 && Parse(text) == InstantOf(d, secondOfDay, fraction)
  {
    hide Padded, Pow10, Holds, Parse, InstantOf, ValidDate, AllDigits, NumberOf;
    var hour, minute, second := secondOfDay / 3600, secondOfDay % 3600 / 60, secondOfDay % 60;
    ClockParts(secondOfDay);
    DateParts(d);
    PowersHere();
    ThreeFields(d.year, d.month, d.day, 4, '-');
    ThreeFields(hour, minute, second, 2, ':');
    FractionField(fraction);
    var f := Padded(fraction, 9);
    var text := DateText(d) + "T" + ClockText(secondOfDay) + "." + f + "Z";
    ParsesJoined(DateText(d), ClockText(secondOfDay), f, text, d, hour, minute, second, fraction);
  }

  lemma ClockParts(second: nat)
    requires second < DAY
    ensures second == second / 3600 * 3600 + second % 3600 / 60 * 60 + second % 60
    ensures second / 3600 <= 23 && second % 3600 / 60 <= 59 && second % 60 <= 59
  {
  }

  lemma DateParts(d: Date)
    requires ValidDate(d)
    ensures d.month <= 12 && d.day <= 31
  {
  }

  lemma FractionField(fraction: nat)
    requires fraction < NANOS
    ensures |Padded(fraction, 9)| == 9 && Holds(Padded(fraction, 9), 0, 9, fraction)
  {
    hide Padded, Pow10, NumberOf, AllDigits;
    NinePlaces();
    PaddedWidth(fraction, 9);
    PaddedReads(fraction, 9);
    assert Padded(fraction, 9)[0..0 + 9] == Padded(fraction, 9);
  }

  lemma PowersHere()
    ensures Pow10(2) == 100 && Pow10(4) == 10000
  {
    assert Pow10(3) == 1000;
  }

  // Printing and parsing give the same instant back exactly when the whole
  // second of the instant, in nanoseconds, is a 64-bit word; in the first
  // partial second of the range the parser overflows.
  lemma RoundTrip(nanos: I64)
    ensures |ToText(nanos)| == 30
    ensures Parse(ToText(nanos)) == if FloorSecond(nanos) * NANOS >= LOWEST then Instant(nanos) else Undefined
  {
    var seconds := FloorSecond(nanos);
    var days := DayOf(seconds);
    YearInRange(nanos);
    Floors(nanos, seconds);
    DaysOfCivil(days);
    hide FloorSecond, FractionOf, DayOf, CivilFromDays, DaysFromCivil, ValidDate, Parse, DateText, ClockText, Padded;
    ParsesParts(CivilFromDays(days), seconds - days * DAY, FractionOf(nanos));
    assert seconds * NANOS <= nanos;
  }

  // Different instants print differently.
  lemma TextsDiffer(a: I64, b: I64)
    requires FloorSecond(a) * NANOS >= LOWEST && FloorSecond(b) * NANOS >= LOWEST
    ensures ToText(a) == ToText(b) ==> a == b
  {
    hide ToText, Parse, FloorSecond;
    RoundTrip(a);
    RoundTrip(b);
  }
}
