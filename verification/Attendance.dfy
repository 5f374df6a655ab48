/** A student's attendance (services/student_attendance.py): the month and session counts against
    their day-by-day definition. Days are ordinals; an interval runs from its first day up to, but
    without, its second. */
module Attendance {
  import opened Calendar
  import opened Collections

  datatype Status = Present | Absent | HalfDay | Leave

  predicate IsWorking(d: int, holidays: set<int>) {
    Weekday(d) != SUNDAY && d !in holidays
  }

  // ------------------------------------------------ the days that are meant

  /** How many days of the interval are such days. */
  function Count(such: int -> bool, from: int, upTo: int): nat
    decreases upTo - from
  {
    if upTo <= from then 0 else Count(such, from, upTo - 1) + if such(upTo - 1) then 1 else 0
  }

  function OnSunday(): int -> bool {
    d => Weekday(d) == SUNDAY
  }

  function DayOff(holidays: set<int>): int -> bool {
    d => d in holidays && Weekday(d) != SUNDAY
  }

  function Working(holidays: set<int>): int -> bool {
    d => IsWorking(d, holidays)
  }

  /** Before today, or today once it is marked. */
  function Elapsed(holidays: set<int>, records: map<int, Status>, today: int): int -> bool {
    d => IsWorking(d, holidays) && (d < today || (d == today && d in records))
  }

  function Marked(records: map<int, Status>, status: Status): int -> bool {
    d => d in records && records[d] == status
  }

  datatype Counts = Counts(
    days: int, sundays: nat, holidays: nat, working: nat, total: int, present: nat, absent: nat, halfDay: nat,
        leave: nat)

  function CountsOf(from: int, upTo: int, holidays: set<int>, records: map<int, Status>, today: int): Counts {
    var sundays, off := Count(OnSunday(), from, upTo), Count(DayOff(holidays), from, upTo);
    Counts(upTo - from, sundays, off, Count(Elapsed(holidays, records, today), from, upTo), upTo - from - sundays - off,
           Count(Marked(records, Present), from, upTo), Count(Marked(records, Absent), from, upTo),
           Count(Marked(records, HalfDay), from, upTo), Count(Marked(records, Leave), from, upTo))
  }

  function Plus(a: Counts, b: Counts): Counts {
    Counts(a.days + b.days, a.sundays + b.sundays, a.holidays + b.holidays, a.working + b.working, a.total + b.total,
           a.present + b.present, a.absent + b.absent, a.halfDay + b.halfDay, a.leave + b.leave)
  }

  /** A finite set counted one by one is the interval counted day by day. */
  lemma {:induction false} SetIsCount(days: set<int>, such: int -> bool, from: int, upTo: int)
    requires forall d :: d in days <==> from <= d < upTo && such(d)
    ensures |days| == Count(such, from, upTo)
    decreases upTo - from
  {
    if upTo <= from {
      assert days == {};
    } else {
      var rest := days - {upTo - 1};
      assert upTo - 1 in days <==> such(upTo - 1);
      SetIsCount(rest, such, from, upTo - 1);
      assert days == if such(upTo - 1) then rest + {upTo - 1} else rest;
    }
  }

  lemma {:induction false} CountSplits(such: int -> bool, from: int, mid: int, upTo: int)
    requires from <= mid <= upTo
    ensures Count(such, from, upTo) == Count(such, from, mid) + Count(such, mid, upTo)
    decreases upTo - mid
  {
    if mid < upTo { CountSplits(such, from, mid, upTo - 1); }
  }

  /** days - Sundays - holidays on other days is the number of working days. */
  lemma {:induction false} TotalIsWorkingDays(from: int, upTo: int, holidays: set<int>)
    requires from <= upTo
    ensures upTo - from - Count(OnSunday(), from, upTo) - Count(DayOff(holidays), from, upTo)
            == Count(Working(holidays), from, upTo)
    decreases upTo - from
  {
    hide Weekday;
    if from < upTo { TotalIsWorkingDays(from, upTo - 1, holidays); }
  }

  lemma {:induction false} ElapsedAreWorking(from: int, upTo: int, holidays: set<int>,
      records: map<int, Status>, today: int)
    ensures Count(Elapsed(holidays, records, today), from, upTo) <= Count(Working(holidays), from, upTo)
    ensures upTo <= today ==>
      Count(Elapsed(holidays, records, today), from, upTo) == Count(Working(holidays), from, upTo)
    decreases upTo - from
  {
    hide Weekday;
    if from < upTo { ElapsedAreWorking(from, upTo - 1, holidays, records, today); }
  }

  /** The elapsed working days are those before today, and today's once it is marked. */
  lemma {:induction false} ElapsedUpToToday(from: int, upTo: int, holidays: set<int>, records: map<int, Status>,
      today: int)
    ensures Count(Elapsed(holidays, records, today), from, upTo) ==
      Count(Working(holidays), from, if today < upTo then today else upTo)
      + if from <= today < upTo && Weekday(today) != SUNDAY && today !in holidays && today in records then 1 else 0
    decreases upTo - from
  {
    hide Weekday;
    if from < upTo { ElapsedUpToToday(from, upTo - 1, holidays, records, today); }
  }

  /** No more working days have elapsed than there are; all of them have once the last day is past. */
  lemma ElapsedWithinTotal(from: int, upTo: int, holidays: set<int>, records: map<int, Status>, today: int)
    requires from <= upTo
    ensures var c := CountsOf(from, upTo, holidays, records, today);
      c.working <= c.total && (upTo <= today ==> c.working == c.total)
  {
    TotalIsWorkingDays(from, upTo, holidays);
    ElapsedAreWorking(from, upTo, holidays, records, today);
  }

  /** Counting two neighbouring intervals is counting them as one. */
  lemma CountsAdd(from: int, mid: int, upTo: int, holidays: set<int>, records: map<int, Status>, today: int)
    requires from <= mid <= upTo
    ensures Plus(CountsOf(from, mid, holidays, records, today), CountsOf(mid, upTo, holidays, records, today))
            == CountsOf(from, upTo, holidays, records, today)
  {
    hide Count;
    CountSplits(OnSunday(), from, mid, upTo);
    CountSplits(DayOff(holidays), from, mid, upTo);
    CountSplits(Elapsed(holidays, records, today), from, mid, upTo);
    CountSplits(Marked(records, Present), from, mid, upTo);
    CountSplits(Marked(records, Absent), from, mid, upTo);
    CountSplits(Marked(records, HalfDay), from, mid, upTo);
    CountSplits(Marked(records, Leave), from, mid, upTo);
  }

  // --------------------------------------------------------------- percent

  /** The quotient and remainder rounded to the nearest, ties to even. */
  function Nearest(q: nat, r: nat, den: nat): nat {
    if 2 * r < den || (2 * r == den && q % 2 == 0) then q else q + 1
  }

  /** round() of num / den. */
  function Round(num: nat, den: nat): nat
    requires den > 0
  {
    Nearest(num / den, num % den, den)
  }

  /** `_percent` in units of 1 (scale 1) or of a tenth (scale 10). */
  function Percent(present: nat, halfDays: nat, working: nat, scale: nat): Option<nat> {
    if working == 0 then None else Some(Round((2 * present + halfDays) * 100 * scale, 2 * working))
  }

  lemma QuotientBelow(q: nat, r: nat, den: nat, top: nat)
    requires r < den && q < top
    ensures 2 * (q * den + r) <= (2 * top + 1) * den
  {
    MulMonotone(q + 1, top, den);
    assert (q + 1) * den == q * den + den && (2 * top + 1) * den == 2 * (top * den) + den;
  }

  lemma QuotientAbove(q: nat, r: nat, den: nat, top: nat)
    requires r < den && q > top
    ensures 2 * (q * den + r) > (2 * top + 1) * den
  {
    MulMonotone(top + 1, q, den);
    assert (top + 1) * den == top * den + den && (2 * top + 1) * den == 2 * (top * den) + den;
  }

  lemma QuotientAt(r: nat, den: nat, top: nat)
    ensures 2 * (top * den + r) <= (2 * top + 1) * den <==> 2 * r <= den
  {
    assert (2 * top + 1) * den == 2 * (top * den) + den;
  }

  /** An even bound is kept by anything up to a half above it. */
  lemma NearestAtMost(q: nat, r: nat, den: nat, top: nat)
    requires r < den && top % 2 == 0
    ensures Nearest(q, r, den) <= top <==> 2 * (q * den + r) <= (2 * top + 1) * den
  {
    if q < top {
      QuotientBelow(q, r, den, top);
    } else if q > top {
      QuotientAbove(q, r, den, top);
    } else {
      QuotientAt(r, den, top);
    }
  }

  lemma DivisionSplits(num: nat, den: nat)
    requires den > 0
    ensures num == num / den * den + num % den && num % den < den
  {
  }

  lemma RoundAtMost(num: nat, den: nat, top: nat)
    requires den > 0 && top % 2 == 0
    ensures Round(num, den) <= top <==> 2 * num <= (2 * top + 1) * den
  {
    DivisionSplits(num, den);
    hide Nearest;
    NearestAtMost(num / den, num % den, den, top);
  }

  lemma ExcessShows(credit: int, working: int, top: int)
    ensures 2 * (credit * top) <= (2 * top + 1) * (2 * working) <==> (credit - 2 * working) * top <= working
  {
    assert (2 * top + 1) * (2 * working) == 4 * (working * top) + 2 * working;
    assert (credit - 2 * working) * top == credit * top - 2 * (working * top);
  }

  /** 100 * scale is even, so the percentage is at most 100 as long as the half days credited beyond the
      full days that count stay under half a unit of the last digit shown. */
  lemma PercentAtMost(present: nat, halfDays: nat, working: nat, scale: nat)
    requires working > 0
    ensures Percent(present, halfDays, working, scale).value <= 100 * scale <==>
      (2 * present + halfDays - 2 * working) * (100 * scale) <= working
  {
    hide Round;
    var credit, top := 2 * present + halfDays, 100 * scale;
    assert credit * 100 * scale == credit * top;
    RoundAtMost(credit * top, 2 * working, top);
    ExcessShows(credit, working, top);
  }

  /** v is the whole number nearest to num / den, the even one of two that are equally near. */
  predicate IsNearest(v: int, num: int, den: int) {
    && (2 * v - 1) * den <= 2 * num <= (2 * v + 1) * den
    && (2 * num == (2 * v - 1) * den || 2 * num == (2 * v + 1) * den ==> v % 2 == 0)
  }

  lemma NearestIsNearest(q: nat, r: nat, den: nat)
    requires r < den
    ensures IsNearest(Nearest(q, r, den), q * den + r, den)
  {
    assert (2 * q - 1) * den == 2 * (q * den) - den && (2 * q + 1) * den == 2 * (q * den) + den;
    assert (2 * (q + 1) - 1) * den == 2 * (q * den) + den && (2 * (q + 1) + 1) * den == 2 * (q * den) + 3 * den;
  }

  lemma RoundIsNearest(num: nat, den: nat)
    requires den > 0
    ensures IsNearest(Round(num, den), num, den)
  {
    hide Nearest, IsNearest;
    DivisionSplits(num, den);
    NearestIsNearest(num / den, num % den, den);
  }

  /** The percentage shown is the nearest one to the half days credited out of those that were to be had;
      there is none exactly while no working day has elapsed. */
  lemma PercentIsNearest(present: nat, halfDays: nat, working: nat, scale: nat)
    ensures Percent(present, halfDays, working, scale).None? <==> working == 0
    ensures working > 0 ==>
      IsNearest(Percent(present, halfDays, working, scale).value, (2 * present + halfDays) * 100 * scale, 2 * working)
  {
    hide Round, IsNearest;
    if working > 0 { RoundIsNearest((2 * present + halfDays) * 100 * scale, 2 * working); }
  }

  /** Half days a mark is worth. */
  function Credit(records: map<int, Status>, d: int): nat {
    if d !in records then 0 else match records[d] case Present => 2 case HalfDay => 1 case _ => 0
  }

  /** The half days credited on days that are no elapsed working days. */
  function Extra(from: int, upTo: int, holidays: set<int>, records: map<int, Status>, today: int): nat
    decreases upTo - from
  {
    if upTo <= from then 0
    else Extra(from, upTo - 1, holidays, records, today)
         + if Elapsed(holidays, records, today)(upTo - 1) then 0 else Credit(records, upTo - 1)
  }

  /** The half days missing on elapsed working days. */
  function Lost(from: int, upTo: int, holidays: set<int>, records: map<int, Status>, today: int): nat
    decreases upTo - from
  {
    if upTo <= from then 0
    else Lost(from, upTo - 1, holidays, records, today)
         + if Elapsed(holidays, records, today)(upTo - 1) then 2 - Credit(records, upTo - 1) else 0
  }

  lemma {:induction false} CreditBalance(from: int, upTo: int, holidays: set<int>, records: map<int, Status>,
      today: int)
    ensures 2 * Count(Marked(records, Present), from, upTo) + Count(Marked(records, HalfDay), from, upTo)
            - 2 * Count(Elapsed(holidays, records, today), from, upTo)
         == Extra(from, upTo, holidays, records, today) - Lost(from, upTo, holidays, records, today)
    decreases upTo - from
  {
    hide IsWorking;
    if from < upTo { CreditBalance(from, upTo - 1, holidays, records, today); }
  }

  predicate OnWorkingDays(records: map<int, Status>, holidays: set<int>, today: int) {
    forall d :: d in records ==> IsWorking(d, holidays) && d <= today
  }

  /** Every working day that has elapsed is either marked or missed, and every mark is on one. */
  lemma {:induction false} ElapsedSplits(from: int, upTo: int, holidays: set<int>, records: map<int, Status>,
      today: int)
    requires OnWorkingDays(records, holidays, today)
    ensures Count(Elapsed(holidays, records, today), from, upTo) ==
      Count(Marked(records, Present), from, upTo) + Count(Marked(records, Absent), from, upTo)
      + Count(Marked(records, HalfDay), from, upTo) + Count(Marked(records, Leave), from, upTo)
      + Count(Missed(holidays, records, today), from, upTo)
    decreases upTo - from
  {
    hide Weekday;
    if from < upTo { ElapsedSplits(from, upTo - 1, holidays, records, today); }
  }

  /** The percentage goes above 100 exactly when the half days credited on other days outweigh those
      missing on elapsed working days by enough to show. */
  lemma AtMostFull(from: int, upTo: int, holidays: set<int>, records: map<int, Status>, today: int, scale: nat)
    ensures var c := CountsOf(from, upTo, holidays, records, today);
      var percent := Percent(c.present, c.halfDay, c.working, scale);
      var excess := Extra(from, upTo, holidays, records, today) - Lost(from, upTo, holidays, records, today);
      c.working > 0 ==> percent.Some? && (percent.value <= 100 * scale <==> excess * (100 * scale) <= c.working)
  {
    var c := CountsOf(from, upTo, holidays, records, today);
    CreditBalance(from, upTo, holidays, records, today);
    if c.working > 0 { PercentAtMost(c.present, c.halfDay, c.working, scale); }
  }

  lemma {:induction false} NothingExtra(from: int, upTo: int, holidays: set<int>, records: map<int, Status>,
      today: int)
    requires OnWorkingDays(records, holidays, today)
    ensures Extra(from, upTo, holidays, records, today) == 0
    decreases upTo - from
  {
    hide IsWorking;
    if from < upTo { NothingExtra(from, upTo - 1, holidays, records, today); }
  }

  /** So nobody is more than fully present while attendance is only marked on working days up to today. */
  lemma MarkedRightIsAtMostFull(from: int, upTo: int, holidays: set<int>, records: map<int, Status>, today: int,
      scale: nat)
    requires OnWorkingDays(records, holidays, today)
    ensures var c := CountsOf(from, upTo, holidays, records, today);
      var percent := Percent(c.present, c.halfDay, c.working, scale);
      percent.Some? ==> percent.value <= 100 * scale
  {
    hide Percent, Count;
    NothingExtra(from, upTo, holidays, records, today);
    AtMostFull(from, upTo, holidays, records, today, scale);
    var c, lost := CountsOf(from, upTo, holidays, records, today), Lost(from, upTo, holidays, records, today);
    assert Percent(c.present, c.halfDay, c.working, scale).Some? ==> c.working > 0 by { NoDaysNoPercent(c, scale); }
    assert (0 - lost) * (100 * scale) <= 0;
  }

  lemma NoDaysNoPercent(c: Counts, scale: nat)
    ensures Percent(c.present, c.halfDay, c.working, scale).Some? <==> c.working > 0
  {
  }

  lemma {:induction false} NoneCounted(such: int -> bool, from: int, upTo: int)
    requires forall d :: from <= d < upTo ==> !such(d)
    ensures Count(such, from, upTo) == 0
    decreases upTo - from
  {
    if from < upTo { NoneCounted(such, from, upTo - 1); }
  }

  lemma OneMonday(first: int, days: nat)
    requires Weekday(first) == SUNDAY && days >= 28
    ensures var records := map[first := Present, first + 1 := Present];
      && Count(Marked(records, Present), first, first + days) == 2
      && Count(Marked(records, HalfDay), first, first + days) == 0
      && Count(Elapsed({}, records, first + 2), first, first + days) == 1
  {
    var records := map[first := Present, first + 1 := Present];
    CountSplits(Marked(records, Present), first, first + 2, first + days);
    CountSplits(Elapsed({}, records, first + 2), first, first + 2, first + days);
    NoneCounted(Marked(records, Present), first + 2, first + days);
    NoneCounted(Marked(records, HalfDay), first, first + days);
    NoneCounted(Elapsed({}, records, first + 2), first + 2, first + days);
    assert Count(Marked(records, Present), first, first + 1) == 1;
    assert Count(Elapsed({}, records, first + 2), first, first + 1) == 0;
    assert IsWorking(first + 1, {}) && !IsWorking(first, {});
  }

  /** It does happen: a mark on a Sunday counts as present but not as a working day. In every month that
      begins on a Sunday, marked present on the 1st and 2nd, a student has 200 percent on the 3rd. */
  lemma SundayMarkOverflows(y: int, m: int, scale: nat)
    requires MonthOk(m) && Weekday(First(y, m)) == SUNDAY
    ensures var first := First(y, m);
      var c := CountsOf(first, first + DaysInMonth(y, m), {}, map[first := Present, first + 1 := Present], first + 2);
      Percent(c.present, c.halfDay, c.working, scale) == Some(200 * scale)
  {
    hide First, Count, Weekday;
    OneMonday(First(y, m), DaysInMonth(y, m));
    WholePercent(scale);
  }

  lemma WholePercent(scale: nat)
    ensures Percent(2, 0, 1, scale) == Some(200 * scale)
  {
    var num := 4 * 100 * scale;
    assert num / 2 == 200 * scale && num % 2 == 0;
  }

  /** October 2023 began on a Sunday. */
  lemma SuchMonthsExist()
    ensures Weekday(First(2023, 10)) == SUNDAY
  {
  }

  // ---------------------------------------------------------------- months

  method CountDaysOff(from: int, upTo: int, holidays: set<int>) returns (n: nat)
    ensures n == Count(DayOff(holidays), from, upTo)
  {
    hide Weekday;
    n := 0;
    var todo := holidays;
    ghost var found: set<int> := {};
    while exists d :: d in todo
      invariant todo <= holidays && n == |found|
      invariant forall d :: d in found <==> d in holidays && d !in todo && from <= d < upTo && Weekday(d) != SUNDAY
      decreases |todo|
    {
      var d :| d in todo;
      todo := todo - {d};
      if from <= d < upTo && Weekday(d) != SUNDAY {
        n, found := n + 1, found + {d};
      }
    }
    assert todo == {};
    SetIsCount(found, DayOff(holidays), from, upTo);
  }

  function Bump(tally: map<Status, nat>, status: Status): map<Status, nat> {
    tally[status := (if status in tally then tally[status] else 0) + 1]
  }

  function MarkedAmong(records: map<int, Status>, seen: set<int>, from: int, upTo: int, status: Status): set<int> {
    set d | d in seen && d in records && from <= d < upTo && records[d] == status
  }

  lemma MarkedMore(records: map<int, Status>, seen: set<int>, d: int, from: int, upTo: int, status: Status)
    requires d in records && d !in seen
    ensures |MarkedAmong(records, seen + {d}, from, upTo, status)| == |MarkedAmong(records, seen, from, upTo, status)|
      + if from <= d < upTo && records[d] == status then 1 else 0
  {
    var was := MarkedAmong(records, seen, from, upTo, status);
    var now := MarkedAmong(records, seen + {d}, from, upTo, status);
    if from <= d < upTo && records[d] == status { assert now == was + {d}; } else { assert now == was; }
  }

  method CountMarks(from: int, upTo: int, records: map<int, Status>) returns (tally: map<Status, nat>)
    ensures forall s: Status :: s in tally && tally[s] == Count(Marked(records, s), from, upTo)
  {
    tally := map[Present := 0, Absent := 0, HalfDay := 0, Leave := 0];
    var todo := records.Keys;
    ghost var seen: set<int> := {};
    forall s: Status ensures s in tally && tally[s] == |MarkedAmong(records, seen, from, upTo, s)| {
      assert s.Present? || s.Absent? || s.HalfDay? || s.Leave?;
      assert MarkedAmong(records, seen, from, upTo, s) == {};
    }
    while exists d :: d in todo
      invariant todo <= records.Keys && seen == records.Keys - todo
      invariant forall s: Status :: s in tally && tally[s] == |MarkedAmong(records, seen, from, upTo, s)|
      decreases |todo|
    {
      var d :| d in todo;
      forall s: Status { MarkedMore(records, seen, d, from, upTo, s); }
      if from <= d < upTo {
        tally := Bump(tally, records[d]);
      }
      todo, seen := todo - {d}, seen + {d};
    }
    assert todo == {};
    forall s: Status ensures tally[s] == Count(Marked(records, s), from, upTo) {
      SetIsCount(MarkedAmong(records, seen, from, upTo, s), Marked(records, s), from, upTo);
    }
  }

  /** `_month_counts`. */
  method MonthCounts(y: int, m: int, holidays: set<int>, records: map<int, Status>, today: int) returns (c: Counts)
    requires MonthOk(m)
    ensures c == CountsOf(First(y, m), First(y, m) + DaysInMonth(y, m), holidays, records, today)
  {
    hide First, Weekday;
    var first, days := First(y, m), DaysInMonth(y, m);
    var sundays, working := 0, 0;
    for d := 0 to days
      invariant sundays == Count(OnSunday(), first, first + d)
    {
      if Weekday(first + d) == SUNDAY { sundays := sundays + 1; }
    }
    var off := CountDaysOff(first, first + days, holidays);
    var tally := CountMarks(first, first + days, records);
    for d := 0 to days
      invariant working == Count(Elapsed(holidays, records, today), first, first + d)
    {
      var day := first + d;
      if IsWorking(day, holidays) && (day < today || (day == today && day in records)) { working := working + 1; }
    }
    c := Counts(days, sundays, off, working, days - sundays - off, tally[Present], tally[Absent], tally[HalfDay],
        tally[Leave]);
  }

  // ------------------------------------------------------------- one month

  datatype Shown = Mark(status: Status) | Holiday | Sunday | NotMarked

  function ShownOn(d: int, holidays: set<int>, records: map<int, Status>): Shown {
    if d in records then Mark(records[d])
    else if d in holidays then Holiday
    else if Weekday(d) == SUNDAY then Sunday
    else NotMarked
  }

  /** A day shows its mark; without one it is a holiday, else a Sunday, and else, on a working day, not
      marked. */
  lemma ShownMeans(d: int, holidays: set<int>, records: map<int, Status>, s: Status)
    ensures var shown := ShownOn(d, holidays, records);
      && (shown == Mark(s) <==> d in records && records[d] == s)
      && (shown == NotMarked <==> d !in records && IsWorking(d, holidays))
      && (shown == Holiday <==> d !in records && d in holidays)
      && (shown == Sunday <==> d !in records && d !in holidays && Weekday(d) == 6)
  {
  }

  datatype Summary = Summary(marks: map<Status, nat>, holiday: nat, notMarked: nat)

  function UnmarkedOff(holidays: set<int>, records: map<int, Status>): int -> bool {
    d => d in holidays && Weekday(d) != SUNDAY && d !in records
  }

  function Missed(holidays: set<int>, records: map<int, Status>, today: int): int -> bool {
    d => d < today && IsWorking(d, holidays) && d !in records
  }

  ghost predicate Summarises(summary: Summary, from: int, upTo: int, holidays: set<int>,
      records: map<int, Status>, today: int)
  {
    && (forall s: Status :: s in summary.marks && summary.marks[s] == Count(Marked(records, s), from, upTo))
    && summary.holiday == Count(UnmarkedOff(holidays, records), from, upTo)
    && summary.notMarked == Count(Missed(holidays, records, today), from, upTo)
  }

  /** The loop of `month`: every day with what is shown for it, and the summary. */
  method Month(y: int, m: int, holidays: set<int>, records: map<int, Status>, today: int)
    returns (days: seq<Shown>, summary: Summary, counts: Counts)
    requires MonthOk(m)
    ensures |days| == DaysInMonth(y, m)
    ensures forall i :: 0 <= i < |days| ==> days[i] == ShownOn(First(y, m) + i, holidays, records)
    ensures Summarises(summary, First(y, m), First(y, m) + DaysInMonth(y, m), holidays, records, today)
    ensures counts == CountsOf(First(y, m), First(y, m) + DaysInMonth(y, m), holidays, records, today)
  {
    hide First, Weekday;
    var first := First(y, m);
    var last := first + DaysInMonth(y, m) - 1;
    days, summary := [], Summary(map[Present := 0, Absent := 0, HalfDay := 0, Leave := 0], 0, 0);
    forall s: Status ensures s in summary.marks && summary.marks[s] == Count(Marked(records, s), first, first) {
      assert s.Present? || s.Absent? || s.HalfDay? || s.Leave?;
    }
    var d := first;
    while d <= last
      invariant first <= d <= last + 1 && |days| == d - first
      invariant forall i :: 0 <= i < |days| ==> days[i] == ShownOn(first + i, holidays, records)
      invariant Summarises(summary, first, d, holidays, records, today)
    {
      var shown := ShownOn(d, holidays, records);
      // a day still to come is not "not marked" yet
      var counted := shown != NotMarked || d < today;
      if counted && !(shown == Holiday && Weekday(d) == SUNDAY) {
        match shown {
          case Mark(s) => summary := summary.(marks := Bump(summary.marks, s));
          case Holiday => summary := summary.(holiday := summary.holiday + 1);
          case NotMarked => summary := summary.(notMarked := summary.notMarked + 1);
          case Sunday =>
        }
      }
      days := days + [shown];
      d := d + 1;
    }
    counts := MonthCounts(y, m, holidays, records, today);
  }

  lemma {:induction false} OffUnmarked(from: int, upTo: int, holidays: set<int>, records: map<int, Status>)
    requires forall d :: d in records ==> d !in holidays
    ensures Count(UnmarkedOff(holidays, records), from, upTo) == Count(DayOff(holidays), from, upTo)
    decreases upTo - from
  {
    hide Weekday;
    if from < upTo { OffUnmarked(from, upTo - 1, holidays, records); }
  }

  /** The day-by-day summary and the record-by-record counts tell the same story: the same marks, and
      every working day that has elapsed is either marked or not marked. */
  lemma SummaryAgrees(summary: Summary, from: int, upTo: int, holidays: set<int>, records: map<int, Status>, today: int)
    requires Summarises(summary, from, upTo, holidays, records, today) && OnWorkingDays(records, holidays, today)
    ensures var c := CountsOf(from, upTo, holidays, records, today);
      && summary.marks[Present] == c.present && summary.marks[Absent] == c.absent
      && summary.marks[HalfDay] == c.halfDay && summary.marks[Leave] == c.leave
      && c.working == c.present + c.absent + c.halfDay + c.leave + summary.notMarked
      && summary.holiday == c.holidays
  {
    ElapsedSplits(from, upTo, holidays, records, today);
    OffUnmarked(from, upTo, holidays, records);
  }

  // --------------------------------------------------------------- session

  function MonthsFrom(y: int, m: int, n: nat): seq<(int, int)>
    decreases n
  {
    if n == 0 then [] else [(y, m)] + MonthsFrom(NextMonth(y, m).0, NextMonth(y, m).1, n - 1)
  }

  /** The number of months from the given one to the one of `end`. */
  function Span(y: int, m: int, end: Date): nat {
    if Index(y, m) <= Index(end.year, end.month) then Index(end.year, end.month) - Index(y, m) + 1 else 0
  }

  lemma OneMonthOn(y: int, m: int, end: Date)
    requires MonthOk(m) && MonthOk(end.month)
    ensures Span(y, m, end) > 0 <==> y < end.year || (y == end.year && m <= end.month)
    ensures Span(y, m, end) > 0 ==> Span(NextMonth(y, m).0, NextMonth(y, m).1, end) == Span(y, m, end) - 1
  {
  }

  /** `_months`. */
  method Months(start: Date, end: Date) returns (months: seq<(int, int)>)
    requires MonthOk(start.month) && MonthOk(end.month)
    ensures months == MonthsFrom(start.year, start.month, Span(start.year, start.month, end))
  {
    var y, m := start.year, start.month;
    months := [];
    ghost var n := Span(y, m, end);
    hide Span;
    while y < end.year || (y == end.year && m <= end.month)
      invariant MonthOk(m)
      invariant months + MonthsFrom(y, m, Span(y, m, end)) == MonthsFrom(start.year, start.month, n)
      decreases Span(y, m, end)
    {
      OneMonthOn(y, m, end);
      months := months + [(y, m)];
      y, m := if m == 12 then y + 1 else y, if m == 12 then 1 else m + 1;
    }
    OneMonthOn(y, m, end);
  }

  function Zero(): Counts {
    Counts(0, 0, 0, 0, 0, 0, 0, 0, 0)
  }

  /** The day after the last of n months. */
  function After(y: int, m: int, n: nat): int
    requires MonthOk(m)
    decreases n
  {
    if n == 0 then First(y, m) else After(NextMonth(y, m).0, NextMonth(y, m).1, n - 1)
  }

  lemma {:induction false} AfterIsFirst(y: int, m: int, n: nat, y': int, m': int)
    requires MonthOk(m) && MonthOk(m') && Index(y', m') == Index(y, m) + n
    ensures After(y, m, n) == First(y', m')
    decreases n
  {
    hide First;
    if n > 0 { AfterIsFirst(NextMonth(y, m).0, NextMonth(y, m).1, n - 1, y', m'); }
  }

  lemma {:induction false} AfterIsLater(y: int, m: int, n: nat)
    requires MonthOk(m)
    ensures First(y, m) <= After(y, m, n)
    decreases n
  {
    hide First;
    if n > 0 {
      NextMonthFollows(y, m);
      AfterIsLater(NextMonth(y, m).0, NextMonth(y, m).1, n - 1);
    }
  }

  function CountsIn(month: (int, int), holidays: set<int>, records: map<int, Status>, today: int): Counts {
    if MonthOk(month.1)
    then
      var first := First(month.0, month.1);
      CountsOf(first, first + DaysInMonth(month.0, month.1), holidays, records, today)
    else Zero()
  }

  /** The months added up, and the entries of those no later than `last`. */
  method AddUp(months: seq<(int, int)>, y: int, m: int, holidays: set<int>, records: map<int, Status>,
      now: int, last: int)
    returns (totals: Counts, shown: seq<Counts>)
    requires MonthOk(m) && months == MonthsFrom(y, m, |months|)
    ensures totals == CountsOf(First(y, m), After(y, m, |months|), holidays, records, now)
    ensures Index(y, m) <= last < Index(y, m) + |months| ==> |shown| == last - Index(y, m) + 1
    ensures |shown| <= |months| && forall i :: 0 <= i < |shown| ==>
        shown[i] == CountsIn(months[i], holidays, records, now)
  {
    hide First, DaysInMonth, CountsOf;
    totals, shown := Zero(), [];
    NothingCounted(First(y, m), holidays, records, now);
    ghost var y', m' := y, m;
    for i := 0 to |months|
      invariant MonthOk(m') && months[i..] == MonthsFrom(y', m', |months| - i) && Index(y', m') == Index(y, m) + i
      invariant First(y, m) <= First(y', m') && After(y', m', |months| - i) == After(y, m, |months|)
      invariant totals == CountsOf(First(y, m), First(y', m'), holidays, records, now)
      invariant |shown| <= i && forall j :: 0 <= j < |shown| ==> shown[j] == CountsIn(months[j], holidays, records, now)
      invariant |shown| ==
        if Index(y, m) + i <= last then i else if last < Index(y, m) then 0 else last - Index(y, m) + 1
    {
      assert months[i] == months[i..][0] == (y', m');
      var counts := MonthCounts(months[i].0, months[i].1, holidays, records, now);
      NextMonthFollows(y', m');
      CountsAdd(First(y, m), First(y', m'), First(y', m') + DaysInMonth(y', m'), holidays, records, now);
      totals := Plus(totals, counts);
      if Index(months[i].0, months[i].1) <= last {
        shown := shown + [counts];
      }
      assert months[i + 1..] == months[i..][1..];
      y', m' := NextMonth(y', m').0, NextMonth(y', m').1;
    }
  }

  lemma NothingCounted(from: int, holidays: set<int>, records: map<int, Status>, today: int)
    ensures CountsOf(from, from, holidays, records, today) == Zero()
  {
  }

  lemma {:induction false} MonthsCount(y: int, m: int, n: nat)
    ensures |MonthsFrom(y, m, n)| == n
    decreases n
  {
    if n > 0 { MonthsCount(NextMonth(y, m).0, NextMonth(y, m).1, n - 1); }
  }

  lemma SessionMonths(configured: int, today: Date)
    requires Valid(today)
    ensures var (start, last) := SessionBounds(configured, today);
      var end := SessionEnd(configured, today);
      && MonthOk(start.month) && MonthOk(end.month) && Index(end.year, end.month) == Index(start.year, start.month) + 11
      && Index(start.year, start.month) <= Index(today.year, today.month) <= Index(start.year, start.month) + 11
      && First(start.year, start.month) == Ordinal(start) && After(start.year, start.month, 12) == last + 1
  {
    SessionEndIsLastDay(configured, today);
    SessionDays(configured, today);
    hide After, First, DaysBeforeYear, DaysBeforeMonth, DaysInMonth;
  }

  lemma SessionDays(configured: int, today: Date)
    requires Valid(today)
    ensures var (start, last) := SessionBounds(configured, today);
      && MonthOk(start.month) && First(start.year, start.month) == Ordinal(start)
      && After(start.year, start.month, 12) == last + 1
  {
    var start := SessionBounds(configured, today).0;
    SessionHolds(configured, today);
    hide After, DaysBeforeYear, DaysBeforeMonth, DaysInMonth;
    AfterIsFirst(start.year, start.month, 12, start.year + 1, start.month);
  }

  /** `overview`: one entry a month of the session, of which those up to today's month are shown, and
      the totals, which are those of the session counted as one. */
  method Overview(configured: int, holidays: set<int>, records: map<int, Status>, today: Date)
    returns (totals: Counts, percent: Option<nat>, shown: seq<Counts>)
    requires Valid(today)
    ensures var (start, end) := SessionBounds(configured, today);
      && totals == CountsOf(Ordinal(start), end + 1, holidays, records, Ordinal(today))
      && |shown| == Index(today.year, today.month) - Index(start.year, start.month) + 1
      && |shown| <= |MonthsFrom(start.year, start.month, 12)|
      && forall i :: 0 <= i < |shown| ==>
           shown[i] == CountsIn(MonthsFrom(start.year, start.month, 12)[i], holidays, records, Ordinal(today))
    ensures percent == Percent(totals.present, totals.halfDay, totals.working, 10)
  {
    var (start, last) := SessionBounds(configured, today);
    var end := SessionEnd(configured, today);
    SessionMonths(configured, today);
    MonthsCount(start.year, start.month, 12);
    hide *;
    var months := Months(start, end);
    totals, shown := AddUp(months, start.year, start.month, holidays, records, Ordinal(today),
        Index(today.year, today.month));
    percent := Percent(totals.present, totals.halfDay, totals.working, 10);
  }
}
