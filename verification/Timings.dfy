/** School timings (models/school_timings.py, services/school_timings.py): what the validator accepts
    and the periods computed from it. */
module Timings {
  import opened Collections
  import opened Text

  const MINUTES_PER_DAY := 24 * 60

  datatype Break = Break(after: int, minutes: int)

  datatype Timings = Timings(start: string, prayer: int, period: int, periods: int, breaks: seq<Break>)

  datatype Period = Period(number: int, start: string, end: string)

  // ------------------------------------------------------------ clock times

  /** ^([01]\d|2[0-3]):([0-5]\d)$ */
  predicate IsClock(s: string) {
    && |s| == 5 && s[2] == ':' && IsDigit(s[0]) && IsDigit(s[1]) && IsDigit(s[3]) && IsDigit(s[4])
    && (s[0] <= '1' || (s[0] == '2' && s[1] <= '3')) && s[3] <= '5'
  }

  /** `_minutes` of "HH:MM". */
  function Minutes(s: string): int
    requires IsClock(s)
  {
    60 * (10 * Digit(s[0]) + Digit(s[1])) + 10 * Digit(s[3]) + Digit(s[4])
  }

  function TwoDigits(n: nat): string
    requires n < 100
  {
    [DigitChar(n / 10), DigitChar(n % 10)]
  }

  /** `hm`. */
  function Hm(minutes: int): string
    requires 0 <= minutes < MINUTES_PER_DAY
  {
    TwoDigits(minutes / 60) + ":" + TwoDigits(minutes % 60)
  }

  /** Printing and reading a clock time are inverse to each other. */
  lemma HmRoundTrip(minutes: int)
    requires 0 <= minutes < MINUTES_PER_DAY
    ensures IsClock(Hm(minutes)) && Minutes(Hm(minutes)) == minutes
  {
    var h, m := minutes / 60, minutes % 60;
    assert h == 10 * (h / 10) + h % 10 && m == 10 * (m / 10) + m % 10;
    assert Hm(minutes) == [DigitChar(h / 10), DigitChar(h % 10), ':', DigitChar(m / 10), DigitChar(m % 10)];
  }

  lemma Divides(a: nat, b: nat, unit: nat)
    requires b < unit && (unit == 10 || unit == 60)
    ensures (unit * a + b) / unit == a && (unit * a + b) % unit == b
  {
  }

  lemma ClockRoundTrip(s: string)
    requires IsClock(s)
    ensures 0 <= Minutes(s) < MINUTES_PER_DAY && Hm(Minutes(s)) == s
  {
    var h, m := 10 * Digit(s[0]) + Digit(s[1]), 10 * Digit(s[3]) + Digit(s[4]);
    assert h < 24 && m < 60;
    Divides(h, m, 60);
    Divides(Digit(s[0]), Digit(s[1]), 10);
    Divides(Digit(s[3]), Digit(s[4]), 10);
    assert TwoDigits(h) == [s[0], s[1]] && TwoDigits(m) == [s[3], s[4]];
    hide TwoDigits, IsClock;
    assert s == [s[0], s[1]] + ":" + [s[3], s[4]];
  }

  lemma {:induction false} FirstDifference(a: string, b: string, k: nat)
    requires k < |a| == |b| && a[..k] == b[..k] && a[k] < b[k]
    ensures Precedes(a, b)
  {
    if k > 0 {
      assert a[0] == a[..k][0] && b[0] == b[..k][0];
      assert a[1..][..k - 1] == a[..k][1..] && b[1..][..k - 1] == b[..k][1..];
      FirstDifference(a[1..], b[1..], k - 1);
    }
  }

  /** Clock times sort as text in the order of the day. */
  lemma TextOrderIsTimeOrder(a: string, b: string)
    requires IsClock(a) && IsClock(b) && Minutes(a) < Minutes(b)
    ensures Precedes(a, b)
  {
    if a[0] != b[0] {
      FirstDifference(a, b, 0);
    } else if a[1] != b[1] {
      FirstDifference(a, b, 1);
    } else if a[3] != b[3] {
      FirstDifference(a, b, 3);
    } else {
      FirstDifference(a, b, 4);
    }
  }

  // -------------------------------------------------------------- validator

  /** `_valid_time`: "6:30" and "06:30:00" are brought to "06:30". */
  function ValidTime(value: string): Option<string> {
    var stripped := Strip(value);
    var padded := if |stripped| == 4 && stripped[1] == ':' then "0" + stripped else stripped;
    var cut := if |padded| == 8 && padded[5] == ':' then padded[..5] else padded;
    if IsClock(cut) then Some(cut) else None
  }

  lemma ClockIsStripped(s: string)
    requires IsClock(s)
    ensures Strip(s) == s
  {
    assert !IsSpace(s[0]) && !IsSpace(s[4]);
  }

  /** Only proper clock times come out, a second pass changes nothing, and every minute of the day
      can be given. */
  lemma TimesAreNormal(value: string, minutes: int)
    ensures ValidTime(value).Some? ==>
        IsClock(ValidTime(value).value) && ValidTime(ValidTime(value).value) == ValidTime(value)
    ensures 0 <= minutes < MINUTES_PER_DAY ==> ValidTime(Hm(minutes)) == Some(Hm(minutes))
  {
    if ValidTime(value).Some? { ClockIsStripped(ValidTime(value).value); }
    if 0 <= minutes < MINUTES_PER_DAY {
      HmRoundTrip(minutes);
      ClockIsStripped(Hm(minutes));
    }
  }

  /** The clock time itself, one without its leading zero, or one with seconds, whatever they say. */
  predicate FormOf(text: string, clock: string)
    requires |clock| == 5
  {
    || text == clock
    || (clock[0] == '0' && text == clock[1..])
    || (|text| == 8 && text[..5] == clock && text[5] == ':')
  }

  lemma TimeFormsIff(value: string, clock: string)
    requires IsClock(clock)
    ensures ValidTime(value) == Some(clock) <==> FormOf(Strip(value), clock)
  {
    hide Strip;
    var text := Strip(value);
    if text == clock[1..] && clock[0] == '0' { assert "0" + text == clock; }
    if |text| == 4 && "0" + text == clock { assert clock[1..] == text; }
  }

  function BreakMinutes(breaks: seq<Break>): int {
    if breaks == [] then 0 else BreakMinutes(breaks[..|breaks| - 1]) + breaks[|breaks| - 1].minutes
  }

  /** The end of the day as the validator adds it up. */
  function Total(t: Timings): int
    requires IsClock(t.start)
  {
    Minutes(t.start) + t.prayer + t.period * t.periods + BreakMinutes(t.breaks)
  }

  predicate FieldsOk(t: Timings) {
    && 0 <= t.prayer <= 120 && 10 <= t.period <= 180 && 1 <= t.periods <= 12
    && forall b :: b in t.breaks ==> 1 <= b.minutes <= 180
  }

  predicate BreaksFit(breaks: seq<Break>, periods: int) {
    && (forall b :: b in breaks ==> 1 <= b.after <= periods - 1)
    && (forall i, j :: 0 <= i < j < |breaks| ==> breaks[i].after != breaks[j].after)
  }

  predicate Accepted(t: Timings) {
    FieldsOk(t) && IsClock(t.start) && BreaksFit(t.breaks, t.periods) && Total(t) < MINUTES_PER_DAY
  }

  function AfterSet(breaks: seq<Break>): set<int> {
    set b | b in breaks :: b.after
  }

  lemma OneMoreFits(breaks: seq<Break>, b: Break, periods: int)
    ensures BreaksFit(breaks + [b], periods) <==>
      BreaksFit(breaks, periods) && 1 <= b.after <= periods - 1 && b.after !in AfterSet(breaks)
    ensures AfterSet(breaks + [b]) == AfterSet(breaks) + {b.after}
  {
    var all := breaks + [b];
    assert forall k :: 0 <= k < |breaks| ==> all[k] == breaks[k] && breaks[k].after in AfterSet(breaks);
    assert b in all && all[|breaks|] == b;
    if BreaksFit(all, periods) {
      assert forall c :: c in breaks ==> c in all;
    }
  }

  lemma PrefixFits(breaks: seq<Break>, n: nat, periods: int)
    requires n <= |breaks|
    ensures BreaksFit(breaks, periods) ==> BreaksFit(breaks[..n], periods)
  {
  }

  /** The loop of `_check_day`, and the sum it needs afterwards. */
  method CheckBreaks(breaks: seq<Break>, periods: int) returns (ok: bool, sum: int)
    ensures ok <==> BreaksFit(breaks, periods)
    ensures ok ==> sum == BreakMinutes(breaks)
  {
    var seen := {};
    sum := 0;
    assert BreaksFit([], periods);
    hide BreaksFit, AfterSet;
    for i := 0 to |breaks|
      invariant sum == BreakMinutes(breaks[..i])
      invariant seen == AfterSet(breaks[..i]) && BreaksFit(breaks[..i], periods)
    {
      var b := breaks[i];
      assert breaks[..i + 1] == breaks[..i] + [b];
      OneMoreFits(breaks[..i], b, periods);
      if !(1 <= b.after <= periods - 1) || b.after in seen {
        PrefixFits(breaks, i + 1, periods);
        return false, sum;
      }
      seen := seen + {b.after};
      sum := sum + b.minutes;
    }
    assert breaks[..|breaks|] == breaks;
    ok := true;
  }

  /** `_check_day` on fields already checked one by one. */
  method CheckDay(t: Timings) returns (ok: bool)
    requires FieldsOk(t) && IsClock(t.start)
    ensures ok <==> Accepted(t)
  {
    hide Minutes, IsClock, BreaksFit, BreakMinutes, FieldsOk;
    var sum;
    ok, sum := CheckBreaks(t.breaks, t.periods);
    if ok {
      ok := Minutes(t.start) + t.prayer + t.period * t.periods + sum < MINUTES_PER_DAY;
    }
  }

  // ---------------------------------------------------------------- periods

  /** The minutes of the breaks before a period. */
  function BreaksBefore(breaks: seq<Break>, p: int): int {
    if breaks == [] then 0
    else
      BreaksBefore(breaks[..|breaks| - 1], p)
      + if breaks[|breaks| - 1].after < p then breaks[|breaks| - 1].minutes else 0
  }

  /** The break declared after a period, if any. */
  function BreakAfter(breaks: seq<Break>, p: int): int {
    if breaks == [] then 0
    else if breaks[|breaks| - 1].after == p then breaks[|breaks| - 1].minutes
    else BreakAfter(breaks[..|breaks| - 1], p)
  }

  function StartOf(t: Timings, p: int): int
    requires IsClock(t.start)
  {
    Minutes(t.start) + t.prayer + t.period * (p - 1) + BreaksBefore(t.breaks, p)
  }

  lemma {:induction false} NoBreak(breaks: seq<Break>, p: int)
    requires forall b :: b in breaks ==> b.after != p
    ensures BreakAfter(breaks, p) == 0 && BreaksBefore(breaks, p + 1) == BreaksBefore(breaks, p)
    decreases |breaks|
  {
    if breaks != [] {
      assert breaks[|breaks| - 1] in breaks;
      NoBreak(breaks[..|breaks| - 1], p);
    }
  }

  lemma {:induction false} OneBreakLater(breaks: seq<Break>, p: int)
    requires forall i, j :: 0 <= i < j < |breaks| ==> breaks[i].after != breaks[j].after
    ensures BreaksBefore(breaks, p + 1) == BreaksBefore(breaks, p) + BreakAfter(breaks, p)
    decreases |breaks|
  {
    if breaks != [] {
      var rest := breaks[..|breaks| - 1];
      if breaks[|breaks| - 1].after == p { NoBreak(rest, p); } else { OneBreakLater(rest, p); }
    }
  }

  lemma {:induction false} BreakBounds(breaks: seq<Break>, p: int, q: int)
    requires (forall b :: b in breaks ==> 1 <= b.minutes) && p <= q
    ensures 0 <= BreaksBefore(breaks, p) <= BreaksBefore(breaks, q) <= BreakMinutes(breaks)
    ensures (forall b :: b in breaks ==> b.after < q) ==> BreaksBefore(breaks, q) == BreakMinutes(breaks)
    decreases |breaks|
  {
    if breaks != [] {
      assert breaks[|breaks| - 1] in breaks;
      BreakBounds(breaks[..|breaks| - 1], p, q);
    }
  }

  lemma OneMorePeriod(period: int, p: int)
    ensures period * (p - 1) + period == period * p
  {
  }

  lemma PeriodsUpTo(period: nat, p: nat, n: nat)
    requires 1 <= p <= n
    ensures 0 <= period * (p - 1) && period * p <= period * n
  {
    MulMonotone(p, n, period);
  }

  lemma PeriodsInDay(t: Timings, p: int)
    requires Accepted(t) && 1 <= p <= t.periods
    ensures 0 <= StartOf(t, p) < StartOf(t, p) + t.period <= Total(t) < MINUTES_PER_DAY
    ensures p == t.periods ==> StartOf(t, p) + t.period == Total(t)
  {
    ClockRoundTrip(t.start);
    BreakBounds(t.breaks, p, t.periods);
    OneMorePeriod(t.period, p);
    PeriodsUpTo(t.period, p, t.periods);
    hide IsClock, Minutes, BreaksBefore, BreakMinutes;
    var before, upTo, all := t.period * (p - 1), t.period * p, t.period * t.periods;
    assert before + t.period == upTo <= all;
  }

  lemma GapIsBreak(t: Timings, p: int)
    requires Accepted(t) && 1 <= p
    ensures StartOf(t, p + 1) == StartOf(t, p) + t.period + BreakAfter(t.breaks, p) && BreakAfter(t.breaks, p) >= 0
  {
    OneBreakLater(t.breaks, p);
    BreakBounds(t.breaks, p, p + 1);
    OneMorePeriod(t.period, p);
  }

  function AfterMap(breaks: seq<Break>): map<int, int> {
    if breaks == [] then map[]
    else AfterMap(breaks[..|breaks| - 1])[breaks[|breaks| - 1].after := breaks[|breaks| - 1].minutes]
  }

  lemma {:induction false} AfterMapIsBreak(breaks: seq<Break>, p: int)
    ensures (if p in AfterMap(breaks) then AfterMap(breaks)[p] else 0) == BreakAfter(breaks, p)
    decreases |breaks|
  {
    if breaks != [] { AfterMapIsBreak(breaks[..|breaks| - 1], p); }
  }

  method BreakDict(breaks: seq<Break>) returns (after: map<int, int>)
    ensures after == AfterMap(breaks)
  {
    after := map[];
    for i := 0 to |breaks|
      invariant after == AfterMap(breaks[..i])
    {
      assert breaks[..i + 1][..i] == breaks[..i];
      after := after[breaks[i].after := breaks[i].minutes];
    }
    assert breaks[..|breaks|] == breaks;
  }

  predicate IsPeriod(t: Timings, number: int, p: Period)
    requires IsClock(t.start)
  {
    && 0 <= StartOf(t, number) && 0 < t.period && StartOf(t, number) + t.period < MINUTES_PER_DAY
    && p == Period(number, Hm(StartOf(t, number)), Hm(StartOf(t, number) + t.period))
  }

  ghost predicate ComputedTo(t: Timings, out: seq<Period>, n: nat)
    requires Accepted(t)
  {
    |out| == n && forall k :: 0 <= k < |out| ==> IsPeriod(t, k + 1, out[k])
  }

  ghost predicate Computed(t: Timings, out: seq<Period>)
    requires Accepted(t)
  {
    t.periods >= 1 && ComputedTo(t, out, t.periods)
  }

  /** The next period starts where the last one ended and its break is over. */
  lemma OnePeriodMore(t: Timings, out: seq<Period>, p: int)
    requires Accepted(t) && 1 <= p <= t.periods && ComputedTo(t, out, p - 1)
    ensures IsClock(t.start) && 0 < t.period && 0 <= StartOf(t, p) && StartOf(t, p) + t.period < MINUTES_PER_DAY
    ensures ComputedTo(t, out + [Period(p, Hm(StartOf(t, p)), Hm(StartOf(t, p) + t.period))], p)
    ensures var pause := if p in AfterMap(t.breaks) then AfterMap(t.breaks)[p] else 0;
      StartOf(t, p + 1) == StartOf(t, p) + t.period + pause
  {
    assert t.period > 0;
    hide StartOf, BreakAfter, Total, Accepted, Minutes, Hm, AfterMap;
    PeriodsInDay(t, p);
    AfterMapIsBreak(t.breaks, p);
    GapIsBreak(t, p);
  }

  /** `compute_periods`. */
  method ComputePeriods(t: Timings) returns (out: seq<Period>)
    requires Accepted(t)
    ensures Computed(t, out)
  {
    assert t.periods >= 1 && t.period > 0;
    FirstStart(t);
    assert ComputedTo(t, [], 0);
    hide StartOf, Total, Accepted, Minutes, Hm, IsClock, AfterMap, ComputedTo;
    var at := Minutes(t.start) + t.prayer;
    var after := BreakDict(t.breaks);
    out := [];
    for p := 1 to t.periods + 1
      invariant ComputedTo(t, out, p - 1) && (p <= t.periods ==> at == StartOf(t, p))
    {
      OnePeriodMore(t, out, p);
      out := out + [Period(p, Hm(at), Hm(at + t.period))];
      at := at + t.period + if p < t.periods && p in after then after[p] else 0;
    }
  }

  lemma {:induction false} NothingBeforeOne(breaks: seq<Break>)
    requires forall b :: b in breaks ==> 1 <= b.after
    ensures BreaksBefore(breaks, 1) == 0
    decreases |breaks|
  {
    if breaks != [] {
      assert breaks[|breaks| - 1] in breaks;
      NothingBeforeOne(breaks[..|breaks| - 1]);
    }
  }

  lemma NothingBefore(breaks: seq<Break>)
    ensures (forall b :: b in breaks ==> 1 <= b.after) ==> BreaksBefore(breaks, 1) == 0
  {
    if forall b :: b in breaks ==> 1 <= b.after { NothingBeforeOne(breaks); }
  }

  /** In an accepted day every period lasts as long as it should, the gap after it is exactly the
      break declared there, nothing overlaps, text order is time order, and the last one ends when the
      validator said, before midnight. */
  lemma PeriodsFillDay(t: Timings, out: seq<Period>, k: nat)
    requires Accepted(t) && Computed(t, out) && k < |out|
    ensures IsClock(out[k].start) && IsClock(out[k].end)
    ensures Minutes(out[k].end) == Minutes(out[k].start) + t.period && Precedes(out[k].start, out[k].end)
    ensures k == 0 ==> Minutes(out[k].start) == Minutes(t.start) + t.prayer
    ensures k + 1 < |out| ==>
      && IsClock(out[k + 1].start) && BreakAfter(t.breaks, k + 1) >= 0
      && Minutes(out[k + 1].start) == Minutes(out[k].end) + BreakAfter(t.breaks, k + 1)
    ensures k + 1 == |out| ==> Minutes(out[k].end) == Total(t) < MINUTES_PER_DAY
  {
    hide Minutes, Hm, IsClock, Precedes, BreakAfter, StartOf, Total, FieldsOk, BreaksFit;
    assert IsPeriod(t, k + 1, out[k]);
    HmRoundTrip(StartOf(t, k + 1));
    HmRoundTrip(StartOf(t, k + 1) + t.period);
    TextOrderIsTimeOrder(out[k].start, out[k].end);
    PeriodsInDay(t, k + 1);
    FirstStart(t);
    if k + 1 < |out| {
      assert IsPeriod(t, k + 2, out[k + 1]);
      HmRoundTrip(StartOf(t, k + 2));
      GapIsBreak(t, k + 1);
    }
  }

  lemma FirstStart(t: Timings)
    requires Accepted(t)
    ensures StartOf(t, 1) == Minutes(t.start) + t.prayer
  {
    NothingBefore(t.breaks);
  }

  lemma {:induction false} BreakIsFound(breaks: seq<Break>, b: Break)
    requires b in breaks
    requires forall i, j :: 0 <= i < j < |breaks| ==> breaks[i].after != breaks[j].after
    ensures BreakAfter(breaks, b.after) == b.minutes
    decreases |breaks|
  {
    var rest, last := breaks[..|breaks| - 1], breaks[|breaks| - 1];
    if last != b {
      var i :| 0 <= i < |breaks| && breaks[i] == b;
      assert rest[i] == b;
      BreakIsFound(rest, b);
    }
  }

  lemma BreakLiesBetween(t: Timings, out: seq<Period>, b: Break)
    requires Accepted(t) && Computed(t, out) && b in t.breaks
    ensures 1 <= b.after < |out| && BreakAfter(t.breaks, b.after) == b.minutes
  {
    hide IsPeriod, Total, IsClock, FieldsOk;
    BreakIsFound(t.breaks, b);
  }

  /** Every break that was declared lies between two periods of the day and lasts its minutes. */
  lemma EveryBreakIsGap(t: Timings, out: seq<Period>, b: Break)
    requires Accepted(t) && Computed(t, out) && b in t.breaks
    ensures 1 <= b.after < |out| && IsClock(out[b.after - 1].end) && IsClock(out[b.after].start)
    ensures Minutes(out[b.after].start) == Minutes(out[b.after - 1].end) + b.minutes
  {
    hide Accepted, Computed, IsClock, Minutes, BreakAfter;
    BreakLiesBetween(t, out, b);
    PeriodsFillDay(t, out, b.after - 1);
  }
}
