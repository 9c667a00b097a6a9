/** Civil dates in UTC, as Go's time package counts them. */
module Calendar {

  datatype Date = Date(year: int, month: int, day: int)

  predicate IsLeap(y: int) {
    y % 4 == 0 && (y % 100 != 0 || y % 400 == 0)
  }

  function DaysIn(y: int, m: int): (n: int)
    ensures 28 <= n <= 31
  {
    if m == 2 then (if IsLeap(y) then 29 else 28)
    else if m == 4 || m == 6 || m == 9 || m == 11 then 30
    else 31
  }

  predicate Valid(d: Date) {
    1 <= d.month <= 12 && 1 <= d.day <= DaysIn(d.year, d.month)
  }

  /** The days before the first of January of a year, counted from the year 1. */
  function YearStart(y: int): int {
    365 * (y - 1) + (y - 1) / 4 - (y - 1) / 100 + (y - 1) / 400
  }

  function MonthStart(y: int, m: int): (n: int)
    requires 1 <= m <= 13
    ensures n >= 0
    decreases m
  {
    if m == 1 then 0 else MonthStart(y, m - 1) + DaysIn(y, m - 1)
  }

  /** The number of a day: 1 is the first of January of the year 1, a Monday. */
  function DayNumber(d: Date): int
    requires Valid(d)
  {
    YearStart(d.year) + MonthStart(d.year, d.month) + d.day
  }

  /** 0 is Sunday. */
  function Weekday(d: Date): (w: int)
    requires Valid(d)
    ensures 0 <= w < 7
  {
    DayNumber(d) % 7
  }

  /** AddDate(0, 0, 1) */
  function NextDay(d: Date): (r: Date)
    requires Valid(d)
    ensures Valid(r)
  {
    if d.day < DaysIn(d.year, d.month) then d.(day := d.day + 1)
    else if d.month < 12 then Date(d.year, d.month + 1, 1)
    else Date(d.year + 1, 1, 1)
  }

  /** AddDate(years, 0, 0): the 29th of February becomes the first of March in a common year. */
  function AddYears(d: Date, years: int): (r: Date)
    requires Valid(d)
    ensures Valid(r)
  {
    if d.day <= DaysIn(d.year + years, d.month) then d.(year := d.year + years) else Date(d.year + years, 3, 1)
  }

  lemma YearLength(y: int)
    ensures YearStart(y + 1) == YearStart(y) + (if IsLeap(y) then 366 else 365)
    ensures MonthStart(y, 13) == if IsLeap(y) then 366 else 365
  {
    YearMonths(y);
    YearStartStep(y);
  }

  lemma YearStartStep(y: int)
    ensures YearStart(y + 1) == YearStart(y) + (if IsLeap(y) then 366 else 365)
  {
    FourYears(y);
    Century(y);
    FourCenturies(y);
  }

  lemma FourYears(y: int)
    ensures y / 4 - (y - 1) / 4 == if y % 4 == 0 then 1 else 0
  {
  }

  lemma Century(y: int)
    ensures y / 100 - (y - 1) / 100 == if y % 100 == 0 then 1 else 0
    ensures y % 100 == 0 ==> y % 4 == 0
  {
    HundredYears(y);
    Quarters(y);
  }

  lemma HundredYears(y: int)
    ensures y / 100 - (y - 1) / 100 == if y % 100 == 0 then 1 else 0
  {
  }

  lemma Quarters(y: int)
    ensures y % 100 == 0 ==> y % 4 == 0
  {
    var q, r := y / 100, y % 100;
    assert y == 4 * (25 * q) + r;
  }

  lemma FourCenturies(y: int)
    ensures y / 400 - (y - 1) / 400 == if y % 400 == 0 then 1 else 0
    ensures y % 400 == 0 ==> y % 100 == 0
  {
    FourHundredYears(y);
    Centuries(y);
  }

  lemma FourHundredYears(y: int)
    ensures y / 400 - (y - 1) / 400 == if y % 400 == 0 then 1 else 0
  {
  }

  lemma Centuries(y: int)
    ensures y % 400 == 0 ==> y % 100 == 0
  {
    var q, r := y / 400, y % 400;
    assert y == 100 * (4 * q) + r;
  }

  lemma YearMonths(y: int)
    ensures MonthStart(y, 13) == if IsLeap(y) then 366 else 365
  {
    var f := if IsLeap(y) then 29 else 28;
    assert MonthStart(y, 2) == 31;
    assert MonthStart(y, 3) == 31 + f;
    assert MonthStart(y, 4) == 62 + f;
    assert MonthStart(y, 5) == 92 + f;
    assert MonthStart(y, 6) == 123 + f;
    assert MonthStart(y, 7) == 153 + f;
    assert MonthStart(y, 8) == 184 + f;
    assert MonthStart(y, 9) == 215 + f;
    assert MonthStart(y, 10) == 245 + f;
    assert MonthStart(y, 11) == 276 + f;
    assert MonthStart(y, 12) == 306 + f;
  }

  /** The next day has the next number. */
  lemma NextDayNumber(d: Date)
    requires Valid(d)
    ensures DayNumber(NextDay(d)) == DayNumber(d) + 1
  {
    if d.day < DaysIn(d.year, d.month) {
      assert NextDay(d) == Date(d.year, d.month, d.day + 1);
    } else if d.month < 12 {
      assert MonthStart(d.year, d.month + 1) == MonthStart(d.year, d.month) + d.day;
    } else {
      NextYearNumber(d);
    }
  }

  lemma NextYearNumber(d: Date)
    requires Valid(d) && d.month == 12 && d.day == 31
    ensures DayNumber(Date(d.year + 1, 1, 1)) == DayNumber(d) + 1
  {
    YearLength(d.year);
    assert MonthStart(d.year, 13) == MonthStart(d.year, 12) + 31 && MonthStart(d.year + 1, 1) == 0;
  }

  lemma SevenFollows(n: int)
    ensures (n + 1) % 7 == if n % 7 == 6 then 0 else n % 7 + 1
  {
  }

  lemma Epoch()
    ensures DayNumber(Date(1970, 1, 1)) == 719163
  {
  }

  /** Years later is as many days into the same month, counted on into the next one if that is too short. */
  lemma YearsLater(d: Date, years: int)
    requires Valid(d)
    ensures DayNumber(AddYears(d, years)) == DayNumber(Date(d.year + years, d.month, 1)) + d.day - 1
  {
  }

  /** The weekdays follow each other from Thursday, the first of January 1970. */
  lemma WeekdayFollows(d: Date)
    requires Valid(d)
    ensures Weekday(NextDay(d)) == if Weekday(d) == 6 then 0 else Weekday(d) + 1
    ensures Weekday(Date(1970, 1, 1)) == 4
  {
    NextDayNumber(d);
    SevenFollows(DayNumber(d));
    Epoch();
  }

  lemma {:induction false} MonthStartMonotone(y: int, m: int, n: int)
    requires 1 <= m < n <= 13
    ensures MonthStart(y, m) + DaysIn(y, m) <= MonthStart(y, n)
    decreases n
  {
    if m + 1 < n {
      MonthStartMonotone(y, m, n - 1);
    }
  }

  lemma {:induction false} YearStartMonotone(y: int, z: int)
    requires y < z
    ensures YearStart(y) + MonthStart(y, 13) <= YearStart(z)
    decreases z - y
  {
    YearLength(z - 1);
    YearLength(y);
    if y + 1 < z {
      YearStartMonotone(y, z - 1);
    }
  }

  predicate Earlier(a: Date, b: Date) {
    a.year < b.year || (a.year == b.year && (a.month < b.month || (a.month == b.month && a.day < b.day)))
  }

  /** Day numbers order dates as the calendar does. */
  lemma DayNumberOrder(a: Date, b: Date)
    requires Valid(a) && Valid(b)
    ensures DayNumber(a) < DayNumber(b) <==> Earlier(a, b)
    ensures DayNumber(a) == DayNumber(b) <==> a == b
  {
    if Earlier(a, b) {
      EarlierNumber(a, b);
    } else if Earlier(b, a) {
      EarlierNumber(b, a);
    } else {
      assert a == b;
    }
  }

  lemma EarlierNumber(a: Date, b: Date)
    requires Valid(a) && Valid(b) && Earlier(a, b)
    ensures DayNumber(a) < DayNumber(b)
  {
    if a.year < b.year {
      YearStartMonotone(a.year, b.year);
      MonthStartMonotone(a.year, a.month, 13);
    } else if a.month < b.month {
      MonthStartMonotone(a.year, a.month, b.month);
    }
  }
}
