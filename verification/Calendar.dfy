/** Dates as day numbers (Python's date.toordinal) and the academic session
    (session_bounds of services/school_profile.py). */
module Calendar {

  const SUNDAY := 6

  datatype Date = Date(year: int, month: int, day: int)

  predicate Leap(y: int) {
    y % 4 == 0 && (y % 100 != 0 || y % 400 == 0)
  }

  function DaysInMonth(y: int, m: int): (n: nat)
    ensures 28 <= n <= 31
  {
    if m == 2 then (if Leap(y) then 29 else 28)
    else if m == 4 || m == 6 || m == 9 || m == 11 then 30 else 31
  }

  function DaysBeforeYear(y: int): int {
    (y - 1) * 365 + (y - 1) / 4 - (y - 1) / 100 + (y - 1) / 400
  }

  const DAYS_BEFORE: seq<nat> := [0, 31, 59, 90, 120, 151, 181, 212, 243, 273, 304, 334]

  predicate MonthOk(m: int) {
    1 <= m <= 12
  }

  function DaysBeforeMonth(y: int, m: int): int
    requires MonthOk(m)
  {
    DAYS_BEFORE[m - 1] + if m > 2 && Leap(y) then 1 else 0
  }

  predicate Valid(d: Date) {
    1 <= d.year && MonthOk(d.month) && 1 <= d.day <= DaysInMonth(d.year, d.month)
  }

  function Ordinal(d: Date): int
    requires MonthOk(d.month)
  {
    DaysBeforeYear(d.year) + DaysBeforeMonth(d.year, d.month) + d.day
  }

  function First(y: int, m: int): int
    requires MonthOk(m)
  {
    Ordinal(Date(y, m, 1))
  }

  function Weekday(ordinal: int): int {
    (ordinal + 6) % 7
  }

  /** Months in a row: twelve to a year. */
  function Index(y: int, m: int): int {
    12 * y + m - 1
  }

  function NextMonth(y: int, m: int): (int, int) {
    if m == 12 then (y + 1, 1) else (y, m + 1)
  }

  lemma LeapDays(n: int)
    ensures (n + 1) / 4 - n / 4 == if (n + 1) % 4 == 0 then 1 else 0
    ensures (n + 1) / 100 - n / 100 == if (n + 1) % 100 == 0 then 1 else 0
    ensures (n + 1) / 400 - n / 400 == if (n + 1) % 400 == 0 then 1 else 0
  {
  }

  lemma Centuries(y: int)
    ensures y % 400 == 0 ==> y % 100 == 0
    ensures y % 100 == 0 ==> y % 4 == 0
  {
  }

  lemma NextYearFollows(y: int)
    ensures DaysBeforeYear(y + 1) == DaysBeforeYear(y) + if Leap(y) then 366 else 365
  {
    LeapDays(y - 1);
    Centuries(y);
  }

  /** The first of a month comes right after the last day of the one before. */
  lemma NextMonthFollows(y: int, m: int)
    requires MonthOk(m)
    ensures var (y', m') := NextMonth(y, m); MonthOk(m') && First(y', m') == First(y, m) + DaysInMonth(y, m)
  {
    if m == 12 { NextYearFollows(y); }
    hide DaysBeforeYear, Leap;
  }

  /** Later months start after earlier ones end. */
  lemma {:induction false} MonthsInOrder(y: int, m: int, y': int, m': int)
    requires MonthOk(m) && MonthOk(m') && Index(y, m) < Index(y', m')
    ensures First(y, m) + DaysInMonth(y, m) <= First(y', m')
    decreases Index(y', m') - Index(y, m)
  {
    hide First, DaysInMonth;
    NextMonthFollows(y, m);
    var next := NextMonth(y, m);
    if Index(next.0, next.1) < Index(y', m') {
      MonthsInOrder(next.0, next.1, y', m');
    }
  }

  /** The day is one of the month's. */
  predicate InMonth(day: int, y: int, m: int)
    requires MonthOk(m)
  {
    First(y, m) <= day < First(y, m) + DaysInMonth(y, m)
  }

  lemma OneMonthEach(day: int, y: int, m: int, y': int, m': int)
    requires MonthOk(m) && MonthOk(m') && InMonth(day, y, m) && InMonth(day, y', m')
    ensures y == y' && m == m'
  {
    if Index(y, m) < Index(y', m') { MonthsInOrder(y, m, y', m'); }
    if Index(y', m') < Index(y, m) { MonthsInOrder(y', m', y, m); }
  }

  /** Selecting the days from a month's first to its last selects the dates of that year and month. */
  lemma MonthOfDate(d: Date, y: int, m: int)
    requires Valid(d) && MonthOk(m)
    ensures InMonth(Ordinal(d), y, m) <==> d.year == y && d.month == m
  {
    hide DaysBeforeYear, DaysBeforeMonth, DaysInMonth;
    assert InMonth(Ordinal(d), d.year, d.month);
    if InMonth(Ordinal(d), y, m) { OneMonthEach(Ordinal(d), y, m, d.year, d.month); }
  }

  /** The order of dates is the order of their numbers. */
  lemma OrdinalOrder(a: Date, b: Date)
    requires Valid(a) && Valid(b)
    ensures Ordinal(a) < Ordinal(b) <==>
      || Index(a.year, a.month) < Index(b.year, b.month)
      || (Index(a.year, a.month) == Index(b.year, b.month) && a.day < b.day)
  {
    hide DaysBeforeYear, DaysBeforeMonth, DaysInMonth;
    if Index(a.year, a.month) < Index(b.year, b.month) { MonthsInOrder(a.year, a.month, b.year, b.month); }
    if Index(b.year, b.month) < Index(a.year, a.month) { MonthsInOrder(b.year, b.month, a.year, a.month); }
  }

  lemma DayAfter(d: Date) returns (next: Date)
    requires Valid(d)
    ensures Valid(next) && Ordinal(next) == Ordinal(d) + 1
  {
    NextMonthFollows(d.year, d.month);
    var (y, m) := NextMonth(d.year, d.month);
    next := if d.day < DaysInMonth(d.year, d.month) then d.(day := d.day + 1) else Date(y, m, 1);
    hide DaysBeforeYear, DaysBeforeMonth, Leap;
  }

  lemma SameDay(d: Date, e: Date)
    requires Valid(d) && Valid(e) && Ordinal(d) == Ordinal(e)
    ensures d == e
  {
    OrdinalOrder(d, e);
    OrdinalOrder(e, d);
  }

  lemma {:induction false} DateAt(n: int) returns (d: Date)
    requires n >= 1
    ensures Valid(d) && Ordinal(d) == n
    decreases n
  {
    if n == 1 {
      d := Date(1, 1, 1);
    } else {
      hide Ordinal, Valid;
      var before := DateAt(n - 1);
      d := DayAfter(before);
    }
  }

  /** Every number from 1 on is the number of one date. */
  lemma DateOf(n: int) returns (d: Date)
    requires n >= 1
    ensures forall e :: Valid(e) && Ordinal(e) == n <==> e == d
  {
    d := DateAt(n);
    hide Ordinal, Valid;
    forall e | Valid(e) && Ordinal(e) == n ensures e == d { SameDay(d, e); }
  }

  // ----------------------------------------------------- academic session

  function StartMonth(configured: int): int {
    if 1 <= configured <= 12 then configured else 4
  }

  /** `session_bounds`: the first day, and the number of the last one. */
  function SessionBounds(configured: int, today: Date): (Date, int)
    requires MonthOk(today.month)
  {
    var m := StartMonth(configured);
    var year := if today.month >= m then today.year else today.year - 1;
    var endYear := if m > 1 then year + 1 else year;
    var endMonth := if m > 1 then m - 1 else 12;
    var nextFirst := Date(endYear + endMonth / 12, endMonth % 12 + 1, 1);
    (Date(year, m, 1), Ordinal(nextFirst) - 1)
  }

  /** The last day of the session as a date. */
  function SessionEnd(configured: int, today: Date): Date {
    var m := StartMonth(configured);
    var year := if today.month >= m then today.year else today.year - 1;
    if m > 1 then Date(year + 1, m - 1, DaysInMonth(year + 1, m - 1)) else Date(year, 12, 31)
  }

  /** A session contains today, is twelve whole months long and ends the day before the session of
      the next year, which is the one any day of it is in. */
  lemma SessionTiles(configured: int, today: Date, other: Date)
    requires Valid(today) && Valid(other)
    ensures var (start, end) := SessionBounds(configured, today);
      && start.day == 1 && start.month == (if 0 < configured < 13 then configured else 4)
      && Ordinal(start) <= Ordinal(today) <= end
      && end + 1 == First(start.year + 1, start.month)
      && (Ordinal(start) <= Ordinal(other) <= end <==>
          SessionBounds(configured, other) == SessionBounds(configured, today))
      && (Ordinal(other) == end + 1 ==> SessionBounds(configured, other).0 == Date(start.year + 1, start.month, 1))
  {
    hide DaysBeforeYear, DaysBeforeMonth, DaysInMonth;
    var m := StartMonth(configured);
    var start := SessionBounds(configured, today).0;
    var start' := SessionBounds(configured, other).0;
    SessionHolds(configured, today);
    SessionHolds(configured, other);
    if start.year < start'.year { FirstsInOrder(start.year + 1, start'.year, m); }
    if start'.year < start.year { FirstsInOrder(start'.year + 1, start.year, m); }
    if Ordinal(other) == First(start.year + 1, m) {
      OrdinalOrder(other, Date(start.year + 1, m, 1));
      OrdinalOrder(Date(start.year + 1, m, 1), other);
    }
  }

  lemma FirstsInOrder(y: int, y': int, m: int)
    requires MonthOk(m) && y <= y'
    ensures First(y, m) <= First(y', m)
  {
    hide First, DaysInMonth;
    if y < y' { MonthsInOrder(y, m, y', m); }
  }

  lemma SessionHolds(configured: int, today: Date)
    requires Valid(today)
    ensures var (start, end) := SessionBounds(configured, today);
      && end + 1 == First(start.year + 1, start.month) && MonthOk(start.month)
      && First(start.year, start.month) <= Ordinal(today) < First(start.year + 1, start.month)
  {
    hide DaysBeforeYear, DaysBeforeMonth, DaysInMonth;
    var start := SessionBounds(configured, today).0;
    if Index(start.year, start.month) < Index(today.year, today.month) {
      MonthsInOrder(start.year, start.month, today.year, today.month);
    }
    MonthsInOrder(today.year, today.month, start.year + 1, start.month);
  }

  lemma SessionEndIsLastDay(configured: int, today: Date)
    requires Valid(today)
    ensures var end := SessionEnd(configured, today);
      && MonthOk(end.month) && end.day == DaysInMonth(end.year, end.month)
      && Ordinal(end) == SessionBounds(configured, today).1
      && Index(end.year, end.month) ==
          Index(SessionBounds(configured, today).0.year, SessionBounds(configured, today).0.month) + 11
  {
    hide DaysBeforeYear, DaysBeforeMonth;
    var end := SessionEnd(configured, today);
    NextMonthFollows(end.year, end.month);
  }
}
