/** Instants as text: time.Format(time.RFC3339) and time.Parse(time.RFC3339), that is section 5.6 of
    RFC 3339, over the proleptic Gregorian calendar. Zones are whole minutes off UTC. */
module TimeText {
  import opened Optional
  import opened Text
  import opened Tokens

  const DAY: int := 86400
  const LAST_PRINTABLE_YEAR: int := 9999
  const DAYS_OF_FOUR_DIGIT_YEARS: int := 3_652_059

  // ---------- Calendar ----------

  datatype Date = Date(year: nat, month: nat, day: nat)

  predicate Leap(y: nat) {
    y % 4 == 0 && (y % 100 != 0 || y % 400 == 0)
  }

  function DaysIn(y: nat, m: nat): nat {
    if m == 2 then (if Leap(y) then 29 else 28)
    else if m == 4 || m == 6 || m == 9 || m == 11 then 30
    else 31
  }

  predicate ValidDate(d: Date) {
    d.year >= 1 && 1 <= d.month <= 12 && 1 <= d.day <= DaysIn(d.year, d.month)
  }

  function DaysBeforeYear(y: nat): int {
    365 * (y - 1) + (y - 1) / 4 - (y - 1) / 100 + (y - 1) / 400
  }

  function DaysBeforeMonth(y: nat, m: nat): nat {
    if m <= 1 then 0 else DaysBeforeMonth(y, m - 1) + DaysIn(y, m - 1)
  }

  /** Days since 1 January of year 1, by arithmetic, as a parser computes it. */
  function DayNumber(d: Date): int {
    DaysBeforeYear(d.year) + DaysBeforeMonth(d.year, d.month) + d.day - 1
  }

  function Tomorrow(d: Date): Date {
    if d.day < DaysIn(d.year, d.month) then d.(day := d.day + 1)
    else if d.month < 12 then Date(d.year, d.month + 1, 1)
    else Date(d.year + 1, 1, 1)
  }

  /** The date n days after 1 January of year 1, by counting, independently of DayNumber. */
  function DateOf(n: nat): (d: Date)
    ensures ValidDate(d)
  {
    if n == 0 then Date(1, 1, 1) else Tomorrow(DateOf(n - 1))
  }

  lemma LeapDays(y: nat)
    requires y >= 1
    ensures y / 4 == (y - 1) / 4 + if y % 4 == 0 then 1 else 0
    ensures y / 100 == (y - 1) / 100 + if y % 100 == 0 then 1 else 0
    ensures y / 400 == (y - 1) / 400 + if y % 400 == 0 then 1 else 0
  {}

  lemma YearLength(y: nat)
    requires y >= 1
    ensures DaysBeforeYear(y + 1) == DaysBeforeYear(y) + 365 + if Leap(y) then 1 else 0
  {
    LeapDays(y);
    MultiplesNest(y);
    assert y + 1 - 1 == y;
  }

  lemma MultiplesNest(y: nat)
    ensures y % 400 == 0 ==> y % 100 == 0
    ensures y % 100 == 0 ==> y % 4 == 0
  {
    if y % 400 == 0 {
      var k := 4 * (y / 400);
      assert y == 100 * k;
    }
    if y % 100 == 0 {
      var k := 25 * (y / 100);
      assert y == 4 * k;
    }
  }

  lemma MonthsBeforeDecember(y: nat)
    ensures DaysBeforeMonth(y, 12) == 306 + DaysIn(y, 2)
  {
    assert DaysBeforeMonth(y, 2) == 31;
    assert DaysBeforeMonth(y, 3) == 31 + DaysIn(y, 2);
    assert DaysBeforeMonth(y, 4) == DaysBeforeMonth(y, 3) + 31;
    assert DaysBeforeMonth(y, 5) == DaysBeforeMonth(y, 4) + 30;
    assert DaysBeforeMonth(y, 6) == DaysBeforeMonth(y, 5) + 31;
    assert DaysBeforeMonth(y, 7) == DaysBeforeMonth(y, 6) + 30;
    assert DaysBeforeMonth(y, 8) == DaysBeforeMonth(y, 7) + 31;
    assert DaysBeforeMonth(y, 9) == DaysBeforeMonth(y, 8) + 31;
    assert DaysBeforeMonth(y, 10) == DaysBeforeMonth(y, 9) + 30;
    assert DaysBeforeMonth(y, 11) == DaysBeforeMonth(y, 10) + 31;
    assert DaysBeforeMonth(y, 12) == DaysBeforeMonth(y, 11) + 30;
  }

  lemma TomorrowIsOneDayLater(d: Date)
    requires ValidDate(d)
    ensures DayNumber(Tomorrow(d)) == DayNumber(d) + 1
  {
    if d.day == DaysIn(d.year, d.month) && d.month == 12 {
      YearLength(d.year);
      MonthsBeforeDecember(d.year);
    }
  }

  /** The arithmetic day number undoes counting days. */
  lemma {:induction false} DayNumberOfDate(n: nat)
    ensures DayNumber(DateOf(n)) == n
  {
    if n != 0 {
      DayNumberOfDate(n - 1);
      TomorrowIsOneDayLater(DateOf(n - 1));
    }
  }

  lemma {:induction false} MonthsFitTheYear(y: nat, m: nat)
    requires 1 <= m <= 12
    ensures DaysBeforeMonth(y, m) + DaysIn(y, m) <= DaysBeforeMonth(y, 12) + 31
    decreases 12 - m
  {
    if m < 12 {
      MonthsFitTheYear(y, m + 1);
      assert DaysBeforeMonth(y, m + 1) == DaysBeforeMonth(y, m) + DaysIn(y, m);
    }
  }

  lemma YearsGrow(y: nat)
    ensures 1 <= y <= 10000 ==> DaysBeforeYear(y) <= DAYS_OF_FOUR_DIGIT_YEARS
    ensures y >= 10000 ==> DaysBeforeYear(y) >= DAYS_OF_FOUR_DIGIT_YEARS
  {}

  lemma DaysWithinYear(y: nat, m: nat, day: nat)
    requires y >= 1 && 1 <= m <= 12 && 1 <= day <= DaysIn(y, m)
    ensures DaysBeforeMonth(y, m) + day - 1 < DaysBeforeYear(y + 1) - DaysBeforeYear(y)
  {
    MonthsFitTheYear(y, m);
    MonthsBeforeDecember(y);
    YearLength(y);
  }

  lemma FourDigitYears(d: Date)
    requires ValidDate(d)
    ensures d.year <= LAST_PRINTABLE_YEAR <==> DayNumber(d) < DAYS_OF_FOUR_DIGIT_YEARS
  {
    DaysWithinYear(d.year, d.month, d.day);
    YearsGrow(d.year);
    YearsGrow(d.year + 1);
  }

  /** The days with a four-digit year are exactly the first 3652059. */
  lemma FourDigitYearExactlyWhen(n: nat)
    ensures DateOf(n).year <= LAST_PRINTABLE_YEAR <==> n < DAYS_OF_FOUR_DIGIT_YEARS
  {
    var d := DateOf(n);
    DayNumberOfDate(n);
    FourDigitYears(d);
  }

  lemma FiveDigits(n: nat)
    requires n >= 10000
    ensures |Decimal(n)| >= 5
  {
    assert n / 10 >= 1000 && n / 10 / 10 >= 100 && n / 10 / 10 / 10 >= 10;
    assert |Decimal(n / 10 / 10 / 10)| >= 2;
    assert |Decimal(n / 10 / 10)| >= 3;
    assert |Decimal(n / 10)| >= 4;
  }

  // ---------- Printing ----------

  /** A zone is its offset from UTC in minutes. */
  predicate IsZone(offset: int) {
    -1440 < offset < 1440
  }

  function LocalSeconds(instant: int, offset: int): int {
    instant / SECOND + offset * 60
  }

  function Year(y: nat): string {
    if y <= LAST_PRINTABLE_YEAR
    then [Digit(y / 10 / 10 / 10), Digit(y / 10 / 10 % 10), Digit(y / 10 % 10), Digit(y % 10)]
    else Decimal(y)
  }

  /** Everything after the year up to the zone, for a second of the day. */
  function AfterYear(d: Date, sod: nat): string
    requires ValidDate(d) && sod < DAY
  {
    var h, m, s := sod / 60 / 60, sod / 60 % 60, sod % 60;
    ['-', Digit(d.month / 10), Digit(d.month % 10), '-', Digit(d.day / 10), Digit(d.day % 10),
     'T', Digit(h / 10), Digit(h % 10), ':', Digit(m / 10), Digit(m % 10), ':', Digit(s / 10), Digit(s % 10)]
  }

  function ZoneText(offset: int): string
    requires IsZone(offset)
  {
    if offset == 0 then "Z"
    else
      var m := if offset < 0 then -offset else offset;
      [if offset < 0 then '-' else '+', Digit(m / 60 / 10), Digit(m / 60 % 10), ':', Digit(m % 60 / 10),
       Digit(m % 60 % 10)]
  }

  /** The instant falls before the year 10000 on that zone's clock. */
  predicate HasFourDigitYear(instant: int, offset: int) {
    LocalSeconds(instant, offset) < DAYS_OF_FOUR_DIGIT_YEARS * DAY
  }

  function LocalDate(instant: int, offset: int): Date
    requires LocalSeconds(instant, offset) >= 0
  {
    DateOf(LocalSeconds(instant, offset) / DAY)
  }

  function Format(instant: int, offset: int): string
    requires IsZone(offset) && LocalSeconds(instant, offset) >= 0
  {
    var date := LocalDate(instant, offset);
    Year(date.year) + AfterYear(date, LocalSeconds(instant, offset) % DAY) + ZoneText(offset)
  }

  // ---------- Parsing ----------

  predicate DigitsAt(s: string, i: nat, n: nat) {
    i + n <= |s| && forall k :: i <= k < i + n ==> IsDigit(s[k])
  }

  function TwoAt(s: string, i: nat): int
    requires i + 2 <= |s|
  {
    10 * Value(s[i]) + Value(s[i + 1])
  }

  function FourAt(s: string, i: nat): int
    requires i + 4 <= |s|
  {
    100 * TwoAt(s, i) + TwoAt(s, i + 2)
  }

  function LeadingDigits(s: string): (n: nat)
    ensures n <= |s|
  {
    if s != "" && IsDigit(s[0]) then 1 + LeadingDigits(s[1..]) else 0
  }

  /** The first nine fraction digits, in nanoseconds; further digits are dropped. */
  function Nanos(digits: string, unit: nat): int {
    if digits == "" || unit == 0 then 0 else Value(digits[0]) * unit + Nanos(digits[1..], unit / 10)
  }

  function ParseZone(z: string): Option<int> {
    if z == "Z" then Some(0)
    else if |z| == 6 && (z[0] == '+' || z[0] == '-') && DigitsAt(z, 1, 2) && z[3] == ':' && DigitsAt(z, 4, 2)
            && TwoAt(z, 1) <= 23 && TwoAt(z, 4) <= 59
    then
      var m := 60 * TwoAt(z, 1) + TwoAt(z, 4);
      Some(if z[0] == '-' then -m else m)
    else None
  }

  predicate DateTimeShape(s: string) {
    && |s| >= 20
    && DigitsAt(s, 0, 4) && s[4] == '-' && DigitsAt(s, 5, 2) && s[7] == '-' && DigitsAt(s, 8, 2) && s[10] == 'T'
    && DigitsAt(s, 11, 2) && s[13] == ':' && DigitsAt(s, 14, 2) && s[16] == ':' && DigitsAt(s, 17, 2)
  }

  function Parse(s: string): Option<int> {
    if !DateTimeShape(s) then None
    else
      var y, mo, d := FourAt(s, 0), TwoAt(s, 5), TwoAt(s, 8);
      var h, mi, sec := TwoAt(s, 11), TwoAt(s, 14), TwoAt(s, 17);
      if y < 0 || mo < 1 || mo > 12 || d < 1 || d > DaysIn(y, mo) || h > 23 || mi > 59 || sec > 59 then None
      else
        var fraction := if s[19] == '.' then LeadingDigits(s[20..]) else 0;
        if s[19] == '.' && fraction == 0 then None
        else
          var zone := ParseZone(if s[19] == '.' then s[20 + fraction..] else s[19..]);
          if zone.None? then None
          else
            var nanos := if s[19] == '.' then Nanos(s[20..20 + fraction], 100_000_000) else 0;
            Some((DayNumber(Date(y, mo, d)) * DAY + h * 3600 + mi * 60 + sec - zone.value * 60) * SECOND + nanos)
  }

  // ---------- The round trip ----------

  lemma ZoneRoundTrip(offset: int)
    requires IsZone(offset)
    ensures ParseZone(ZoneText(offset)) == Some(offset)
  {}

  lemma FourDigits(y: nat)
    requires y <= LAST_PRINTABLE_YEAR
    ensures DigitsAt(Year(y), 0, 4) && FourAt(Year(y), 0) == y
  {}

  /** The fields of a printed date and time read back as they were printed. */
  lemma FieldsRoundTrip(d: Date, sod: nat, zone: string)
    requires ValidDate(d) && sod < DAY && d.year <= LAST_PRINTABLE_YEAR && zone != ""
    ensures var s := Year(d.year) + AfterYear(d, sod) + zone;
            && DateTimeShape(s) && s[19..] == zone
            && FourAt(s, 0) == d.year && TwoAt(s, 5) == d.month && TwoAt(s, 8) == d.day
            && TwoAt(s, 11) == sod / 60 / 60 && TwoAt(s, 14) == sod / 60 % 60 && TwoAt(s, 17) == sod % 60
  {
    var a := AfterYear(d, sod);
    var s := Year(d.year) + a + zone;
    FourDigits(d.year);
    assert forall k :: 0 <= k < 4 ==> s[k] == Year(d.year)[k];
    assert forall k :: 0 <= k < 15 ==> s[4 + k] == a[k];
    assert s[4] == a[0] && s[5] == a[1] && s[6] == a[2] && s[7] == a[3] && s[8] == a[4] && s[9] == a[5]
        && s[10] == a[6];
    assert s[11] == a[7] && s[12] == a[8] && s[13] == a[9] && s[14] == a[10] && s[15] == a[11] && s[16] == a[12];
    assert s[17] == a[13] && s[18] == a[14];
  }

  lemma SecondOfDay(sod: nat)
    requires sod < DAY
    ensures sod / 60 / 60 < 24 && sod / 60 % 60 < 60
    ensures sod / 60 / 60 * 3600 + sod / 60 % 60 * 60 + sod % 60 == sod
  {}

  lemma PrintedFieldsParse(d: Date, sod: nat, offset: int)
    requires ValidDate(d) && sod < DAY && d.year <= LAST_PRINTABLE_YEAR && IsZone(offset)
    ensures Parse(Year(d.year) + AfterYear(d, sod) + ZoneText(offset))
         == Some((DayNumber(d) * DAY + sod - offset * 60) * SECOND)
  {
    var s := Year(d.year) + AfterYear(d, sod) + ZoneText(offset);
    FieldsRoundTrip(d, sod, ZoneText(offset));
    ZoneRoundTrip(offset);
    SecondOfDay(sod);
    assert s[19] == s[19..][0] && s[19] != '.';
  }

  lemma FourDigitInstant(instant: int, offset: int)
    requires LocalSeconds(instant, offset) >= 0
    ensures LocalDate(instant, offset).year <= LAST_PRINTABLE_YEAR <==> HasFourDigitYear(instant, offset)
  {
    FourDigitYearExactlyWhen(LocalSeconds(instant, offset) / DAY);
  }

  /** Parsing undoes printing up to the second, in every zone, exactly until the year 9999 ends: a
      five-digit year is printed but not read back. */
  lemma ParseUndoesFormat(instant: int, offset: int)
    requires IsZone(offset) && LocalSeconds(instant, offset) >= 0
    ensures Parse(Format(instant, offset)) ==
            if HasFourDigitYear(instant, offset) then Some(Truncate(instant)) else None
  {
    var local := LocalSeconds(instant, offset);
    FourDigitInstant(instant, offset);
    var date, sod := LocalDate(instant, offset), local % DAY;
    if date.year <= LAST_PRINTABLE_YEAR {
      PrintedFieldsParse(date, sod, offset);
      DayNumberOfDate(local / DAY);
    } else {
      LongYearDoesNotParse(date.year, AfterYear(date, sod) + ZoneText(offset));
      assert Format(instant, offset) == Year(date.year) + (AfterYear(date, sod) + ZoneText(offset));
    }
  }

  lemma LongYearDoesNotParse(y: nat, rest: string)
    requires y > LAST_PRINTABLE_YEAR
    ensures Parse(Year(y) + rest).None?
  {
    var s := Year(y) + rest;
    FiveDigits(y);
    assert s[4] == Decimal(y)[4];
    assert Decimal(y)[4] in Decimal(y);
  }

  /** Printed instants begin and end with something other than white space. */
  lemma FormatEnds(instant: int, offset: int)
    requires IsZone(offset) && LocalSeconds(instant, offset) >= 0
    ensures var s := Format(instant, offset); s != "" && (s[|s| - 1] == 'Z' || IsDigit(s[|s| - 1]))
  {
    var z := ZoneText(offset);
    var s := Format(instant, offset);
    assert s[|s| - 1] == z[|z| - 1];
  }

  // ---------- The other way round ----------

  function Yesterday(d: Date): Date
    requires ValidDate(d) && d != Date(1, 1, 1)
  {
    if d.day > 1 then d.(day := d.day - 1)
    else if d.month > 1 then Date(d.year, d.month - 1, DaysIn(d.year, d.month - 1))
    else Date(d.year - 1, 12, 31)
  }

  lemma TomorrowOfYesterday(d: Date)
    requires ValidDate(d) && d != Date(1, 1, 1)
    ensures var y := Yesterday(d);
            && ValidDate(y) && Tomorrow(y) == d
            && (y.year < d.year || (y.year == d.year && (y.month < d.month || (y.month == d.month && y.day < d.day))))
  {}

  lemma NextDay(y: Date, d: Date, n: nat)
    requires ValidDate(y) && Tomorrow(y) == d && DayNumber(y) == n && DateOf(n) == y
    ensures DayNumber(d) == n + 1 && DateOf(n + 1) == d
  {
    TomorrowIsOneDayLater(y);
  }

  /** Counting that many days leads to the date: every valid date is reached. */
  lemma {:induction false} DateOfDayNumber(d: Date)
    requires ValidDate(d)
    ensures DayNumber(d) >= 0 && DateOf(DayNumber(d)) == d
    decreases d.year, d.month, d.day
  {
    if d == Date(1, 1, 1) {
      assert DayNumber(d) == 0;
    } else {
      var y := Yesterday(d);
      TomorrowOfYesterday(d);
      DateOfDayNumber(y);
      NextDay(y, d, DayNumber(y));
    }
  }

  lemma TwoDigits(a: char, b: char)
    requires IsDigit(a) && IsDigit(b)
    ensures var n := 10 * Value(a) + Value(b);
            0 <= n < 100 && Digit(n / 10) == a && Digit(n % 10) == b
  {
    var n := 10 * Value(a) + Value(b);
    assert n / 10 == Value(a) && n % 10 == Value(b);
  }

  lemma YearDigits(s: string)
    requires DigitsAt(s, 0, 4)
    ensures 0 <= FourAt(s, 0) <= LAST_PRINTABLE_YEAR && Year(FourAt(s, 0)) == s[..4]
  {
    TwoDigits(s[0], s[1]);
    TwoDigits(s[2], s[3]);
    var a, b := TwoAt(s, 0), TwoAt(s, 2);
    var y := FourAt(s, 0);
    assert y == 100 * a + b && y / 10 / 10 == a && y / 10 == 10 * a + b / 10;
  }

  lemma TimeOfDay(h: nat, m: nat, sec: nat)
    requires h < 24 && m < 60 && sec < 60
    ensures var sod := h * 3600 + m * 60 + sec;
            sod < DAY && sod / 60 / 60 == h && sod / 60 % 60 == m && sod % 60 == sec
  {}

  lemma AfterYearDigits(s: string, d: Date, sod: nat)
    requires DateTimeShape(s) && ValidDate(d) && sod < DAY && d.month == TwoAt(s, 5) && d.day == TwoAt(s, 8)
    requires sod / 60 / 60 == TwoAt(s, 11) && sod / 60 % 60 == TwoAt(s, 14) && sod % 60 == TwoAt(s, 17)
    ensures AfterYear(d, sod) == s[4..19]
  {
    TwoDigits(s[5], s[6]);
    TwoDigits(s[8], s[9]);
    TwoDigits(s[11], s[12]);
    TwoDigits(s[14], s[15]);
    TwoDigits(s[17], s[18]);
  }

  /** Valid fields print as they were written. */
  lemma FieldsPrintBack(s: string, d: Date, sod: int)
    requires DateTimeShape(s) && d == Date(FourAt(s, 0), TwoAt(s, 5), TwoAt(s, 8)) && ValidDate(d)
    requires 0 <= TwoAt(s, 11) < 24 && 0 <= TwoAt(s, 14) < 60 && 0 <= TwoAt(s, 17) < 60
    requires sod == TwoAt(s, 11) * 3600 + TwoAt(s, 14) * 60 + TwoAt(s, 17)
    ensures 0 <= sod < DAY && Year(d.year) + AfterYear(d, sod) == s[..19]
  {
    YearDigits(s);
    TimeOfDay(TwoAt(s, 11), TwoAt(s, 14), TwoAt(s, 17));
    AfterYearDigits(s, d, sod);
    assert s[..19] == s[..4] + s[4..19];
  }

  lemma {:induction false} NanosAreBelowTen(digits: string, unit: nat)
    requires forall c <- digits :: IsDigit(c)
    ensures 0 <= Nanos(digits, unit) && (unit > 0 ==> Nanos(digits, unit) < 10 * unit)
    decreases |digits|
  {
    if digits != "" && unit != 0 {
      assert digits[0] in digits;
      forall c | c in digits[1..] ensures IsDigit(c) { assert c in digits; }
      NanosAreBelowTen(digits[1..], unit / 10);
      DigitTimes(Value(digits[0]), unit);
    }
  }

  lemma DigitTimes(d: int, unit: nat)
    requires 0 <= d <= 9
    ensures 0 <= d * unit <= 9 * unit
  {
    assert (9 - d) * unit >= 0;
  }

  /** A fraction's value is its first digit in this unit and less than one unit of the others. */
  lemma FractionHasItsDigits(digits: string, unit: nat)
    requires digits != "" && unit > 0 && forall c <- digits :: IsDigit(c)
    ensures 0 <= Nanos(digits, unit) - Value(digits[0]) * unit == Nanos(digits[1..], unit / 10) < unit
  {
    forall c | c in digits[1..] ensures IsDigit(c) { assert c in digits; }
    NanosAreBelowTen(digits[1..], unit / 10);
  }

  lemma ParsedZone(z: string)
    requires ParseZone(z).Some?
    ensures IsZone(ParseZone(z).value)
    ensures ParseZone(z).value != 0 || z == "Z" ==> ZoneText(ParseZone(z).value) == z
    ensures ParseZone(z).value == 0 ==> z == "Z" || z == "+00:00" || z == "-00:00"
  {
    if z != "Z" {
      TwoDigits(z[1], z[2]);
      TwoDigits(z[4], z[5]);
      var m := 60 * TwoAt(z, 1) + TwoAt(z, 4);
      assert m / 60 == TwoAt(z, 1) && m % 60 == TwoAt(z, 4);
    }
  }

  /** Where the zone begins: after the seconds, or after a point and at least one digit. */
  predicate ZoneAt(s: string, k: nat) {
    && 19 <= k <= |s|
    && (k == 19 || (k > 20 && s[19] == '.' && DigitsAt(s, 20, k - 20)))
  }

  lemma {:induction false} LeadingDigitsAreDigits(s: string)
    ensures forall i :: 0 <= i < LeadingDigits(s) ==> IsDigit(s[i])
  {
    if s != "" && IsDigit(s[0]) {
      LeadingDigitsAreDigits(s[1..]);
      assert forall i :: 1 <= i < LeadingDigits(s) ==> s[i] == s[1..][i - 1];
    }
  }

  lemma LocalIsTheFields(day: int, sod: int, offset: int, nanos: int)
    requires 0 <= nanos < SECOND && day >= 0 && 0 <= sod < DAY
    ensures var local := LocalSeconds((day * DAY + sod - offset * 60) * SECOND + nanos, offset);
            local == day * DAY + sod && local / DAY == day && local % DAY == sod
  {
    SecondsOf(day * DAY + sod - offset * 60, nanos);
  }

  lemma SecondsOf(seconds: int, nanos: int)
    requires 0 <= nanos < SECOND
    ensures (seconds * SECOND + nanos) / SECOND == seconds
    ensures seconds * SECOND + nanos - Truncate(seconds * SECOND + nanos) == nanos
  {}

  lemma FormatOf(instant: int, offset: int, d: Date, sod: nat)
    requires IsZone(offset) && LocalSeconds(instant, offset) >= 0 && ValidDate(d) && sod < DAY
    requires DateOf(LocalSeconds(instant, offset) / DAY) == d && LocalSeconds(instant, offset) % DAY == sod
    ensures Format(instant, offset) == Year(d.year) + AfterYear(d, sod) + ZoneText(offset)
  {}

  lemma FormatOfDay(instant: int, offset: int, day: nat, d: Date, sod: int, nanos: int)
    requires IsZone(offset) && ValidDate(d) && DateOf(day) == d && 0 <= sod < DAY && 0 <= nanos < SECOND
    requires instant == (day * DAY + sod - offset * 60) * SECOND + nanos
    ensures LocalSeconds(instant, offset) >= 0
    ensures Format(instant, offset) == Year(d.year) + AfterYear(d, sod) + ZoneText(offset)
  {
    LocalIsTheFields(day, sod, offset, nanos);
    FormatOf(instant, offset, d, sod);
  }

  /** An instant whose date, time and zone are known prints as they do. */
  lemma PrintsAsItsFields(instant: int, offset: int, d: Date, sod: int, nanos: int)
    requires IsZone(offset) && ValidDate(d) && 0 <= sod < DAY && 0 <= nanos < SECOND
    requires instant == (DayNumber(d) * DAY + sod - offset * 60) * SECOND + nanos
    ensures LocalSeconds(instant, offset) >= 0 && instant - Truncate(instant) == nanos
    ensures Format(instant, offset) == Year(d.year) + AfterYear(d, sod) + ZoneText(offset)
  {
    var day := DayNumber(d);
    DateOfDayNumber(d);
    FormatOfDay(instant, offset, day, d, sod, nanos);
    SecondsOf(day * DAY + sod - offset * 60, nanos);
  }

  /** The pieces of an accepted text: its fields are in range and its zone is good. */
  lemma ParsedPieces(s: string) returns (k: nat, offset: int, nanos: int)
    requires Parse(s).Some? && FourAt(s, 0) >= 1
    ensures ZoneAt(s, k) && ParseZone(s[k..]) == Some(offset) && IsZone(offset) && 0 <= nanos < SECOND
    ensures ValidDate(Date(FourAt(s, 0), TwoAt(s, 5), TwoAt(s, 8)))
    ensures 0 <= TwoAt(s, 11) < 24 && 0 <= TwoAt(s, 14) < 60 && 0 <= TwoAt(s, 17) < 60
    ensures var sod := TwoAt(s, 11) * 3600 + TwoAt(s, 14) * 60 + TwoAt(s, 17);
            Parse(s).value
            == (DayNumber(Date(FourAt(s, 0), TwoAt(s, 5), TwoAt(s, 8))) * DAY + sod - offset * 60) * SECOND + nanos
    ensures nanos == if k == 19 then 0 else Nanos(s[20..k], 100_000_000)
  {
    LeadingDigitsAreDigits(s[20..]);
    var fraction := if s[19] == '.' then LeadingDigits(s[20..]) else 0;
    k := if s[19] == '.' then 20 + fraction else 19;
    nanos := if s[19] == '.' then Nanos(s[20..k], 100_000_000) else 0;
    if s[19] == '.' {
      assert forall i :: 20 <= i < k ==> s[i] == s[20..][i - 20];
      assert forall c <- s[20..k] :: IsDigit(c);
      NanosAreBelowTen(s[20..k], 100_000_000);
    }
    offset := ParseZone(s[k..]).value;
    ParsedZone(s[k..]);
  }

  /** Printing undoes parsing: an accepted text of the years 1 to 9999 is a valid date and time, perhaps a
      fraction, and a zone, and its instant printed in that zone gives the same date, time and zone again
      (a zone of zero minutes is printed as Z). So nothing but valid dates and times is accepted. */
  lemma FormatUndoesParse(s: string) returns (k: nat, offset: int)
    requires Parse(s).Some? && FourAt(s, 0) >= 1
    ensures ZoneAt(s, k) && ParseZone(s[k..]) == Some(offset) && IsZone(offset)
    ensures LocalSeconds(Parse(s).value, offset) >= 0
    ensures Format(Parse(s).value, offset) == s[..19] + (if offset == 0 then "Z" else s[k..])
    ensures Parse(s).value - Truncate(Parse(s).value) == if k == 19 then 0 else Nanos(s[20..k], 100_000_000)
  {
    var nanos;
    k, offset, nanos := ParsedPieces(s);
    var instant, d := Parse(s).value, Date(FourAt(s, 0), TwoAt(s, 5), TwoAt(s, 8));
    var sod := TwoAt(s, 11) * 3600 + TwoAt(s, 14) * 60 + TwoAt(s, 17);
    FieldsPrintBack(s, d, sod);
    PrintsAsItsFields(instant, offset, d, sod, nanos);
    ParsedZone(s[k..]);
  }
}
