// The proleptic Gregorian calendar as the date library computes it: years are
// counted from March, in eras of 400 years (146097 days).
module Calendar {
  datatype Date = Date(year: int, month: int, day: int)

  predicate IsLeap(year: int) {
    year % 4 == 0 && (year % 100 != 0 || year % 400 == 0)
  }

  function MonthLength(year: int, month: int): int {
    if month == 2 then (if IsLeap(year) then 29 else 28)
    else if month == 4 || month == 6 || month == 9 || month == 11 then 30
    else 31
  }

  predicate IsDate(date: Date) {
    1 <= date.month <= 12 && 1 <= date.day <= MonthLength(date.year, date.month)
  }

  // The day of a year counted from March.
  function DayOfYear(month: int, day: int): int {
    (153 * (if month > 2 then month - 3 else month + 9) + 2) / 5 + day - 1
  }

  function DayOfEra(yoe: int, doy: int): int {
    yoe * 365 + yoe / 4 - yoe / 100 + doy
  }

  function YearOfEra(doe: int): int {
    (doe - doe / 1460 + doe / 36524 - doe / 146096) / 365
  }

  function MonthAndDay(doy: int): (int, int) {
    var mp := (5 * doy + 2) / 153;
    (if mp < 10 then mp + 3 else mp - 9, doy - (153 * mp + 2) / 5 + 1)
  }

  function DaysFromCivil(date: Date): int {
    var y := if date.month <= 2 then date.year - 1 else date.year;
    var era := y / 400;
    var doe := DayOfEra(y - era * 400, DayOfYear(date.month, date.day));
    era * 146097 + doe - 719468
  }

  function CivilFromDays(days: int): Date {
    var z := days + 719468;
    var era := z / 146097;
    var doe := z - era * 146097;
    var yoe := YearOfEra(doe);
    var doy := doe - DayOfEra(yoe, 0);
    var (month, day) := MonthAndDay(doy);
    var y := yoe + era * 400;
    Date(if month <= 2 then y + 1 else y, month, day)
  }

  // ----- Back from days to dates -----

  // Centuries, leap cycles and years of a year of an era.
  lemma DayOfEraParts(yoe: int, doy: int) returns (c: int, f: int, r: int)
    requires 0 <= yoe < 400 && 0 <= doy <= (if IsLeap(yoe + 1) then 365 else 364)
    ensures yoe == 100 * c + 4 * f + r && 0 <= c < 4 && 0 <= f < 25 && 0 <= r < 4
    ensures DayOfEra(yoe, doy) == 36524 * c + 1461 * f + 365 * r + doy
    ensures doy == 365 ==> r == 3 && (f < 24 || c == 3)
  {
    c, f, r := yoe / 100, yoe % 100 / 4, yoe % 4;
    assert yoe % 100 == 4 * f + r;
    assert yoe / 4 == 25 * c + f;
    if doy == 365 {
      assert (yoe + 1) % 4 == 0;
      assert f == 24 ==> (yoe + 1) % 100 == 0;
      assert (yoe + 1) % 400 == 0 ==> yoe + 1 == 400;
    }
  }

  // The era arithmetic undoes itself on every day.
  lemma YearOfEraRecovered(yoe: int, doy: int)
    requires 0 <= yoe < 400 && 0 <= doy <= (if IsLeap(yoe + 1) then 365 else 364)
    ensures 0 <= DayOfEra(yoe, doy) < 146097 && YearOfEra(DayOfEra(yoe, doy)) == yoe
  {
    var c, f, r := DayOfEraParts(yoe, doy);
    hide DayOfEra, IsLeap;
    var doe := DayOfEra(yoe, doy);
    var last := if doe == 146096 then 1 else 0;
    assert doe / 146096 == last;
    assert doe / 36524 == c + last;
    var q := doe / 1460;
    assert 25 * c + f <= q <= 25 * c + f + 1;
  }

  // The month lengths as days of a year counted from March; February is last.
  lemma MonthRecovered(year: int, month: int, day: int)
    requires IsDate(Date(year, month, day))
    ensures MonthAndDay(DayOfYear(month, day)) == (month, day)
    ensures 0 <= DayOfYear(month, day) <= if IsLeap(year) || month > 2 then 365 else 364
    ensures month > 2 ==> DayOfYear(month, day) < 337
  {
    hide IsLeap;
  }

  lemma LeapInEra(year: int, era: int)
    ensures IsLeap(year - 400 * era) <==> IsLeap(year)
  {
    Remainder4(year, 100 * era);
    Remainder100(year, 4 * era);
    Remainder400(year, era);
  }

  lemma Remainder4(n: int, k: int)
    ensures (n - 4 * k) % 4 == n % 4
  {
    assert n - 4 * k == 4 * (n / 4 - k) + n % 4;
  }

  lemma Remainder100(n: int, k: int)
    ensures (n - 100 * k) % 100 == n % 100
  {
    assert n - 100 * k == 100 * (n / 100 - k) + n % 100;
  }

  lemma Remainder400(n: int, k: int)
    ensures (n - 400 * k) % 400 == n % 400
  {
    assert n - 400 * k == 400 * (n / 400 - k) + n % 400;
  }

  lemma EraRecovered(era: int, doe: int)
    requires 0 <= doe < 146097
    ensures (era * 146097 + doe) / 146097 == era
  {
  }

  // The day of a date fits its year, counted from March in its era.
  lemma DayFits(date: Date, y: int)
    requires IsDate(date) && y == if date.month <= 2 then date.year - 1 else date.year
    ensures var yoe := y - y / 400 * 400;
            var doy := DayOfYear(date.month, date.day);
            0 <= yoe < 400 && 0 <= doy <= if IsLeap(yoe + 1) then 365 else 364
  {
    MonthRecovered(date.year, date.month, date.day);
    LeapInEra(y + 1, y / 400);
    hide IsLeap, DayOfYear, IsDate;
  }

  // Every date is read back as it was written.
  lemma DateRoundTrip(date: Date)
    requires IsDate(date)
    ensures CivilFromDays(DaysFromCivil(date)) == date
  {
    var y := if date.month <= 2 then date.year - 1 else date.year;
    var era := y / 400;
    var yoe := y - era * 400;
    var doy := DayOfYear(date.month, date.day);
    hide *;
    MonthRecovered(date.year, date.month, date.day);
    DayFits(date, y);
    YearOfEraRecovered(yoe, doy);
    Encoded(date);
    Assembled(date, era, yoe, doy);
  }

  // The same, for a year split into an era and a year of it.
  lemma Assembled(date: Date, era: int, yoe: int, doy: int)
    requires (if date.month <= 2 then date.year - 1 else date.year) == yoe + era * 400
    requires MonthAndDay(doy) == (date.month, date.day)
    requires DaysFromCivil(date) == era * 146097 + DayOfEra(yoe, doy) - 719468
    requires 0 <= DayOfEra(yoe, doy) < 146097 && YearOfEra(DayOfEra(yoe, doy)) == yoe
    ensures CivilFromDays(DaysFromCivil(date)) == date
  {
    hide *;
    Decoded(era, yoe, doy);
  }

  lemma Encoded(date: Date)
    ensures var y := if date.month <= 2 then date.year - 1 else date.year;
            DaysFromCivil(date)
            == y / 400 * 146097 + DayOfEra(y - y / 400 * 400, DayOfYear(date.month, date.day)) - 719468
  {
    hide DayOfEra, DayOfYear;
  }

  // What the decoder makes of a day of an era.
  lemma Decoded(era: int, yoe: int, doy: int)
    requires 0 <= DayOfEra(yoe, doy) < 146097 && YearOfEra(DayOfEra(yoe, doy)) == yoe
    ensures var (month, day) := MonthAndDay(doy);
            CivilFromDays(era * 146097 + DayOfEra(yoe, doy) - 719468)
            == Date(yoe + era * 400 + (if month <= 2 then 1 else 0), month, day)
  {
    DayRecovered(yoe, doy);
    hide YearOfEra, DayOfEra, MonthAndDay;
    EraRecovered(era, DayOfEra(yoe, doy));
  }

  lemma DayRecovered(yoe: int, doy: int)
    ensures DayOfEra(yoe, doy) - DayOfEra(yoe, 0) == doy
  {
  }

  // ----- Every day in turn -----

  // The day number of a date, without eras.
  lemma DaysFlat(date: Date)
    ensures var y := if date.month <= 2 then date.year - 1 else date.year;
            DaysFromCivil(date)
            == 365 * y + y / 4 - y / 100 + y / 400 + DayOfYear(date.month, date.day) - 719468
  {
    hide DayOfYear;
    var y := if date.month <= 2 then date.year - 1 else date.year;
    var era := y / 400;
    var yoe := y - era * 400;
    assert y / 4 == 100 * era + yoe / 4;
    assert y / 100 == 4 * era + yoe / 100;
  }

  function NextDay(date: Date): Date {
    if date.day < MonthLength(date.year, date.month) then date.(day := date.day + 1)
    else if date.month < 12 then Date(date.year, date.month + 1, 1)
    else Date(date.year + 1, 1, 1)
  }

  // How many days the leap years before a year add.
  lemma LeapStep(year: int)
    ensures (year / 4 - year / 100 + year / 400) - ((year - 1) / 4 - (year - 1) / 100 + (year - 1) / 400)
            == if IsLeap(year) then 1 else 0
  {
    assert year / 4 - (year - 1) / 4 == if year % 4 == 0 then 1 else 0;
    assert year / 100 - (year - 1) / 100 == if year % 100 == 0 then 1 else 0;
    assert year / 400 - (year - 1) / 400 == if year % 400 == 0 then 1 else 0;
    assert year % 100 == 0 ==> year % 4 == 0;
    assert year % 400 == 0 ==> year % 100 == 0;
  }

  // Within a year counted from March, the day after the last of a month is the
  // first of the next.
  lemma NextMonth(year: int, month: int)
    requires 1 <= month < 12 && month != 2
    ensures DayOfYear(month + 1, 1) == DayOfYear(month, MonthLength(year, month)) + 1
  {
    hide IsLeap;
  }

  // Day numbers count the days of the calendar one by one. Together with
  // EpochIs1970 this fixes the day number of every date.
  lemma NextDayIs(date: Date)
    requires IsDate(date)
    ensures IsDate(NextDay(date)) && DaysFromCivil(NextDay(date)) == DaysFromCivil(date) + 1
  {
    DaysFlat(date);
    DaysFlat(NextDay(date));
    hide DaysFromCivil, IsLeap;
    if date.day == MonthLength(date.year, date.month) {
      if date.month == 2 {
        LeapStep(date.year);
      } else if date.month < 12 {
        NextMonth(date.year, date.month);
      }
    }
  }

  // From one January 1st to the next are 366 days in a leap year, else 365.
  lemma YearLength(year: int)
    ensures DaysFromCivil(Date(year + 1, 1, 1)) - DaysFromCivil(Date(year, 1, 1)) == if IsLeap(year) then 366 else 365
  {
    DaysFlat(Date(year, 1, 1));
    DaysFlat(Date(year + 1, 1, 1));
    LeapStep(year);
    hide *;
  }

  // January 1st of a year far enough back comes before any day.
  lemma EarlyEnough(days: int)
    ensures DaysFromCivil(Date(1970 + (if days < 0 then days else 0), 1, 1)) <= days
  {
    var year := 1970 + if days < 0 then days else 0;
    DaysFlat(Date(year, 1, 1));
    hide DaysFromCivil;
    var y := year - 1;
    assert y / 4 <= 4 * (y / 16) + 3;
    assert 400 * (y / 4 - y / 100 + y / 400) <= 97 * y + 400;
  }

  // Every day has a date.
  lemma DateOfDay(days: int) returns (date: Date)
    ensures IsDate(date) && DaysFromCivil(date) == days
  {
    EarlyEnough(days);
    date := Date(1970 + (if days < 0 then days else 0), 1, 1);
    hide DaysFromCivil, IsLeap, NextDay;
    while DaysFromCivil(date) < days
      invariant IsDate(date) && DaysFromCivil(date) <= days
      decreases days - DaysFromCivil(date)
    {
      NextDayIs(date);
      date := NextDay(date);
    }
  }

  // What is read for a day number is the date of that day.
  lemma DayRoundTrip(days: int)
    ensures IsDate(CivilFromDays(days)) && DaysFromCivil(CivilFromDays(days)) == days
  {
    hide *;
    var date := DateOfDay(days);
    DateRoundTrip(date);
  }

  // Day 0, the value that stands for "no date", is January 1st of 1970 only.
  lemma EpochIs1970(date: Date)
    requires IsDate(date)
    ensures DaysFromCivil(date) == 0 <==> date == Date(1970, 1, 1)
  {
    assert DaysFromCivil(Date(1970, 1, 1)) == 0;
    DateRoundTrip(Date(1970, 1, 1));
    DateRoundTrip(date);
  }
}
