/** `availability` answers for a whole range from five bulk queries what `_busy_reason` answers
    for one teacher, day and period; rows come back in no particular order. */
module Availability {
  import opened Calendar
  import opened Collections
  import opened SubstitutionRequests
  import opened SubstitutionService
  import opened Text

  datatype SlotRow = SlotRow(teacher: UserId, day: int, period: int)

  datatype Rows = Rows(slots: seq<SlotRow>, requests: seq<Request>, leaves: seq<Leave>)

  /** `subject` is what the profile says, subjects with commas between them. */
  datatype TeacherRow = TeacherRow(id: UserId, name: string, subject: Option<string>)

  datatype MySlot = MySlot(day: int, period: int, subject: Option<string>)

  datatype PeriodEntry = PeriodEntry(slot: MySlot, available: seq<UserId>)

  const MAX_RANGE_DAYS := 31

  datatype RangeError = NotYourClasses | RangeBackwards | RangeTooLong | LeaveNotFound

  datatype Answer = Planned(days: seq<DayEntry>) | Rejected(error: RangeError)

  datatype DayEntry = DayEntry(date: int, holiday: bool, periods: seq<PeriodEntry>)

  // ------------------------------------------------------- the simple check

  predicate IsCoveringIn(requests: seq<Request>, teacher: UserId, day: int, period: int) {
    exists r :: r in requests && r.substitute == teacher && r.date == day && r.period == period && r.status == Accepted
  }

  predicate IsAwayIn(leaves: seq<Leave>, teacher: UserId, day: int) {
    exists l :: l in leaves && l.user == teacher && LeaveOpen(l.status) && l.from <= day <= l.to
  }

  /** `_busy_reason`, query by query. */
  function Reason(rows: Rows, teacher: UserId, day: int, period: int): Option<BusyReason> {
    if SlotRow(teacher, Weekday(day), period) in rows.slots then Some(HasClass)
    else if IsCoveringIn(rows.requests, teacher, day, period) then Some(IsCovering)
    else if IsAwayIn(rows.leaves, teacher, day) then Some(OnLeave)
    else None
  }

  /** `rows` lists the tables, each row once. */
  ghost predicate Lists(rows: Rows, w: Tables) {
    && (forall s :: s in w.slots <==> SlotRow(s.0, s.1, s.2) in rows.slots)
    && (forall r :: r in rows.requests <==> r in w.requests.Values)
    && (forall l :: l in rows.leaves <==> l in w.leaves.Values)
  }

  lemma ReasonIsBusy(rows: Rows, w: Tables, teacher: UserId, day: int, period: int)
    requires Lists(rows, w)
    ensures Reason(rows, teacher, day, period) == Busy(w, teacher, day, period)
  {
    assert (teacher, Weekday(day), period) in w.slots <==> SlotRow(teacher, Weekday(day), period) in rows.slots;
    if j :| j in w.requests && w.requests[j].substitute == teacher && w.requests[j].date == day
            && w.requests[j].period == period && w.requests[j].status == Accepted
    {
      assert w.requests[j] in w.requests.Values;
    }
    if l :| l in w.leaves && w.leaves[l].user == teacher && LeaveOpen(w.leaves[l].status)
            && w.leaves[l].from <= day <= w.leaves[l].to
    {
      assert w.leaves[l] in w.leaves.Values;
    }
  }

  function Monday(day: int): int {
    day - Weekday(day)
  }

  /** Periods `teacher` covers between `monday` and the Sunday after it. */
  function WeekCovers(requests: seq<Request>, teacher: UserId, monday: int): nat {
    if requests == [] then 0
    else
      var r := requests[|requests| - 1];
      WeekCovers(requests[..|requests| - 1], teacher, monday)
      + if r.status == Accepted && r.substitute == teacher && monday <= r.date <= monday + 6 then 1 else 0
  }

  predicate SameSubject(teacher: TeacherRow, subject: Option<string>) {
    && subject.Some? && subject.value != "" && teacher.subject.Some? && teacher.subject.value != ""
    && exists part :: part in Split(teacher.subject.value, ',') && Lower(Strip(part)) == Lower(Strip(subject.value))
  }

  /** A teacher's subjects count one by one, whatever the case and the spaces around them. */
  lemma SubjectsListed(id: UserId, name: string, parts: seq<string>, subject: string)
    requires subject != "" && parts != [] && parts != [""]
    requires forall k :: 0 <= k < |parts| ==> Lacks(parts[k], ',')
    ensures SameSubject(TeacherRow(id, name, Some(Join(parts, ','))), Some(subject)) <==>
      exists part :: part in parts && Lower(Strip(part)) == Lower(Strip(subject))
    ensures !SameSubject(TeacherRow(id, name, None), Some(subject))
    ensures !SameSubject(TeacherRow(id, name, Some(Join(parts, ','))), None)
  {
    SplitJoin(parts, ',');
    assert Join(parts, ',') == "" ==> Split(Join(parts, ','), ',') == [""];
    hide Split, Join, Strip, Lower;
  }

  // ---------------------------------------------------------------- sorting

  datatype Candidate = Candidate(otherSubject: bool, covers: nat, name: string, id: UserId)

  predicate Before(a: Candidate, b: Candidate) {
    if a.otherSubject != b.otherSubject then !a.otherSubject
    else if a.covers != b.covers then a.covers < b.covers
    else if a.name != b.name then Precedes(a.name, b.name)
    else a.id < b.id
  }

  function Insert(c: Candidate, cs: seq<Candidate>): seq<Candidate> {
    if cs == [] || Before(c, cs[0]) then [c] + cs else [cs[0]] + Insert(c, cs[1..])
  }

  function Sort(cs: seq<Candidate>): seq<Candidate> {
    if cs == [] then [] else Insert(cs[|cs| - 1], Sort(cs[..|cs| - 1]))
  }

  predicate InOrder(cs: seq<Candidate>) {
    forall i, j :: 0 <= i < j < |cs| ==> !Before(cs[j], cs[i])
  }

  /** Who teaches the subject comes first, then who covers less that week, then by name and by id. */
  lemma BeforeMeans(a: Candidate, b: Candidate)
    requires Before(a, b)
    ensures b.otherSubject || !a.otherSubject
    ensures a.otherSubject == b.otherSubject ==> a.covers <= b.covers
    ensures a.otherSubject == b.otherSubject && a.covers == b.covers ==> a.name == b.name || Precedes(a.name, b.name)
    ensures a.otherSubject == b.otherSubject && a.covers == b.covers && a.name == b.name ==> a.id < b.id
  {
  }

  lemma BeforeIsOrder(a: Candidate, b: Candidate, c: Candidate)
    ensures a == b || Before(a, b) || Before(b, a)
    ensures !(Before(a, b) && Before(b, a))
    ensures Before(a, b) && !Before(c, b) ==> Before(a, c)
  {
    TextsOrdered(a.name, b.name, c.name);
    TextsOrdered(c.name, b.name, a.name);
    TextsOrdered(c.name, a.name, b.name);
    TextsOrdered(b.name, c.name, a.name);
  }

  lemma {:induction false} InsertAdds(c: Candidate, cs: seq<Candidate>)
    ensures multiset(Insert(c, cs)) == multiset(cs) + multiset{c}
  {
    hide Before;
    if cs != [] && Insert(c, cs) != [c] + cs {
      InsertAdds(c, cs[1..]);
      assert cs == [cs[0]] + cs[1..];
    }
  }

  lemma {:induction false} InsertInOrder(c: Candidate, cs: seq<Candidate>)
    requires InOrder(cs)
    ensures InOrder(Insert(c, cs)) && multiset(Insert(c, cs)) == multiset(cs) + multiset{c}
  {
    hide Before;
    InsertAdds(c, cs);
    if cs != [] {
      if Before(c, cs[0]) {
        forall k | 0 <= k < |cs| ensures !Before(cs[k], c) {
          BeforeIsOrder(c, cs[0], cs[k]);
          BeforeIsOrder(cs[k], c, c);
        }
      } else {
        InsertInOrder(c, cs[1..]);
        var rest := Insert(c, cs[1..]);
        forall k | 0 <= k < |rest| ensures !Before(rest[k], cs[0]) {
          assert rest[k] in multiset(rest);
          assert rest[k] == c || rest[k] in cs[1..];
        }
      }
    }
  }

  lemma {:induction false} SortInOrder(cs: seq<Candidate>)
    ensures InOrder(Sort(cs)) && multiset(Sort(cs)) == multiset(cs)
  {
    if cs != [] {
      SortInOrder(cs[..|cs| - 1]);
      InsertInOrder(cs[|cs| - 1], Sort(cs[..|cs| - 1]));
      assert cs == cs[..|cs| - 1] + [cs[|cs| - 1]];
    }
  }

  function Ids(cs: seq<Candidate>): (ids: seq<UserId>)
    ensures |ids| == |cs| && forall i :: 0 <= i < |cs| ==> ids[i] == cs[i].id
  {
    seq(|cs|, i requires 0 <= i < |cs| => cs[i].id)
  }

  // ------------------------------------------------ what the answer must be

  /** The sort key of the source, with the id. */
  function KeyOf(rows: Rows, t: TeacherRow, day: int, slot: MySlot): Candidate {
    Candidate(!SameSubject(t, slot.subject), WeekCovers(rows.requests, t.id, Monday(day)), Lower(t.name), t.id)
  }

  function Candidates(rows: Rows, teachers: seq<TeacherRow>, day: int, slot: MySlot): seq<Candidate> {
    if teachers == [] then []
    else
      var t := teachers[|teachers| - 1];
      Candidates(rows, teachers[..|teachers| - 1], day, slot)
      + if Reason(rows, t.id, day, slot.period) == None
        then [KeyOf(rows, t, day, slot)] else []
  }

  function Periods(rows: Rows, teachers: seq<TeacherRow>, mine: seq<MySlot>, day: int): seq<PeriodEntry> {
    if mine == [] then []
    else
      var slot := mine[|mine| - 1];
      Periods(rows, teachers, mine[..|mine| - 1], day)
      + if slot.day == Weekday(day)
        then [PeriodEntry(slot, Ids(Sort(Candidates(rows, teachers, day, slot))))] else []
  }

  function Days(rows: Rows, holidays: set<int>, teachers: seq<TeacherRow>, mine: seq<MySlot>, from: int, upTo: int)
    : seq<DayEntry>
    decreases upTo - from
  {
    if upTo <= from then []
    else
      var d := upTo - 1;
      Days(rows, holidays, teachers, mine, from, d)
      + if Weekday(d) == SUNDAY then []
        else [DayEntry(d, d in holidays, if d in holidays then [] else Periods(rows, teachers, mine, d))]
  }

  lemma {:induction false} CandidatesAreFree(rows: Rows, teachers: seq<TeacherRow>, day: int, slot: MySlot,
      c: Candidate)
    ensures c in Candidates(rows, teachers, day, slot) <==>
      exists t :: t in teachers && Reason(rows, t.id, day, slot.period) == None
        && c.id == t.id && c.name == Lower(t.name) && c.otherSubject == !SameSubject(t, slot.subject)
        && c.covers == WeekCovers(rows.requests, t.id, Monday(day))
  {
    if teachers != [] {
      CandidatesAreFree(rows, teachers[..|teachers| - 1], day, slot, c);
      assert teachers == teachers[..|teachers| - 1] + [teachers[|teachers| - 1]];
    }
  }

  lemma {:induction false} SortKeeps(cs: seq<Candidate>, c: Candidate)
    ensures c in Sort(cs) <==> c in cs
  {
    SortInOrder(cs);
    assert c in multiset(cs) <==> c in multiset(Sort(cs));
  }

  /** A teacher is offered for a period exactly when the simple check finds no reason against it. */
  lemma ListedIffFree(rows: Rows, teachers: seq<TeacherRow>, day: int, slot: MySlot, id: UserId)
    ensures id in Ids(Sort(Candidates(rows, teachers, day, slot))) <==>
      (exists t :: t in teachers && t.id == id) && Reason(rows, id, day, slot.period) == None
  {
    hide Reason, SameSubject, WeekCovers, Sort, Candidates;
    var cs := Candidates(rows, teachers, day, slot);
    if id in Ids(Sort(cs)) {
      var i :| 0 <= i < |Sort(cs)| && Sort(cs)[i].id == id;
      SortKeeps(cs, Sort(cs)[i]);
      CandidatesAreFree(rows, teachers, day, slot, Sort(cs)[i]);
    }
    if t :| t in teachers && t.id == id && Reason(rows, id, day, slot.period) == None {
      var c := KeyOf(rows, t, day, slot);
      CandidatesAreFree(rows, teachers, day, slot, c);
      SortKeeps(cs, c);
      var i :| 0 <= i < |Sort(cs)| && Sort(cs)[i] == c;
      assert Ids(Sort(cs))[i] == id;
    }
  }

  /** One entry for every day of the range but Sundays. */
  lemma {:induction false} DaysListed(rows: Rows, holidays: set<int>, teachers: seq<TeacherRow>, mine: seq<MySlot>,
      from: int, upTo: int, d: int)
    ensures (exists e :: e in Days(rows, holidays, teachers, mine, from, upTo) && e.date == d)
            <==> from <= d < upTo && Weekday(d) != SUNDAY
    decreases upTo - from
  {
    hide Periods;
    if from < upTo {
      DaysListed(rows, holidays, teachers, mine, from, upTo - 1, d);
      var last := DayEntry(upTo - 1, upTo - 1 in holidays,
                           if upTo - 1 in holidays then [] else Periods(rows, teachers, mine, upTo - 1));
      var all := Days(rows, holidays, teachers, mine, from, upTo);
      var rest := Days(rows, holidays, teachers, mine, from, upTo - 1);
      assert forall e :: e in all <==> e in rest || (Weekday(upTo - 1) != SUNDAY && e == last);
      if d == upTo - 1 && Weekday(d) != SUNDAY { assert last in all; }
    }
  }

  // -------------------------------------------------------- the bulk answer

  datatype Bulk = Bulk(
    busySlots: set<SlotRow>, covering: set<(UserId, int, int)>, perWeek: map<(UserId, int), nat>,
    onLeave: map<UserId, seq<(int, int)>>)

  function PerWeek(bulk: Bulk, teacher: UserId, monday: int): nat {
    if (teacher, monday) in bulk.perWeek then bulk.perWeek[(teacher, monday)] else 0
  }

  predicate InSpan(onLeave: map<UserId, seq<(int, int)>>, teacher: UserId, day: int) {
    teacher in onLeave && exists span :: span in onLeave[teacher] && span.0 <= day <= span.1
  }

  predicate Free(bulk: Bulk, teacher: UserId, day: int, period: int) {
    && SlotRow(teacher, Weekday(day), period) !in bulk.busySlots
    && (teacher, day, period) !in bulk.covering
    && !InSpan(bulk.onLeave, teacher, day)
  }

  /** The bulk tables answer every question inside the range. */
  ghost predicate Answers(bulk: Bulk, rows: Rows, from: int, to: int) {
    && (forall teacher: UserId, day, period :: from <= day <= to && Weekday(day) != SUNDAY ==>
          (Free(bulk, teacher, day, period) <==> Reason(rows, teacher, day, period) == None))
    && (forall teacher: UserId, day :: from <= day <= to ==>
          PerWeek(bulk, teacher, Monday(day)) == WeekCovers(rows.requests, teacher, Monday(day)))
  }

  /** The slots of the weekdays that the range reaches. */
  ghost predicate SlotsKnown(busy: set<SlotRow>, slots: seq<SlotRow>, from: int, to: int) {
    forall s :: s in busy <==>
        s in slots && exists d :: from <= d <= to && Weekday(d) != SUNDAY && Weekday(d) == s.day
  }

  /** The covers of the range. */
  ghost predicate CoversKnown(covering: set<(UserId, int, int)>, requests: seq<Request>, from: int, to: int) {
    forall c :: c in covering <==>
      exists r :: r in requests && r.status == Accepted && from <= r.date <= to
                  && c == (r.substitute, r.date, r.period)
  }

  /** How many covers each teacher has in each whole week of the range. */
  ghost predicate CountsKnown(perWeek: map<(UserId, int), nat>, requests: seq<Request>, from: int, to: int) {
    forall teacher: UserId, day :: from <= Monday(day) && Monday(day) + 6 <= to ==>
      WeekCovers(requests, teacher, Monday(day))
      == if (teacher, Monday(day)) in perWeek then perWeek[(teacher, Monday(day))] else 0
  }

  /** Who is away on the days of the range. */
  ghost predicate SpansKnown(onLeave: map<UserId, seq<(int, int)>>, leaves: seq<Leave>, from: int, to: int) {
    forall user: UserId, day :: from <= day <= to ==> (InSpan(onLeave, user, day) <==> IsAwayIn(leaves, user, day))
  }

  /** A bounded range reaches every weekday it is asked about. */
  method BusySlots(slots: seq<SlotRow>, from: int, to: int) returns (busy: set<SlotRow>)
    ensures SlotsKnown(busy, slots, from, to)
  {
    var weekdays: set<int> := {};
    for d := from to (if to < from then from else to + 1)
      invariant forall w :: w in weekdays <==> exists e :: from <= e < d && Weekday(e) != SUNDAY && Weekday(e) == w
    {
      if Weekday(d) != SUNDAY { weekdays := weekdays + {Weekday(d)}; }
    }
    busy := set s | s in slots && s.day in weekdays;
  }

  predicate Counts(r: Request, from: int, to: int) {
    r.status == Accepted && from <= r.date <= to
  }

  lemma OneMoreCover(covering: set<(UserId, int, int)>, requests: seq<Request>, r: Request, from: int, to: int)
    requires CoversKnown(covering, requests, from, to)
    ensures var more := if Counts(r, from, to) then {(r.substitute, r.date, r.period)} else {};
      CoversKnown(covering + more, requests + [r], from, to)
  {
    assert forall q :: q in requests + [r] <==> q in requests || q == r;
  }

  lemma OneMoreCount(perWeek: map<(UserId, int), nat>, requests: seq<Request>, r: Request, from: int, to: int)
    requires CountsKnown(perWeek, requests, from, to)
    ensures var key := (r.substitute, Monday(r.date));
      var count := if key in perWeek then perWeek[key] else 0;
      CountsKnown(if Counts(r, from, to) then perWeek[key := count + 1] else perWeek, requests + [r], from, to)
  {
    assert (requests + [r])[..|requests|] == requests;
  }

  method Covers(requests: seq<Request>, weekStart: int, weekEnd: int)
    returns (covering: set<(UserId, int, int)>, perWeek: map<(UserId, int), nat>)
    ensures CoversKnown(covering, requests, weekStart, weekEnd)
    ensures CountsKnown(perWeek, requests, weekStart, weekEnd)
  {
    covering, perWeek := {}, map[];
    assert CoversKnown({}, [], weekStart, weekEnd) && CountsKnown(map[], [], weekStart, weekEnd);
    hide CoversKnown, CountsKnown;
    for i := 0 to |requests|
      invariant CoversKnown(covering, requests[..i], weekStart, weekEnd)
      invariant CountsKnown(perWeek, requests[..i], weekStart, weekEnd)
    {
      var r := requests[i];
      assert requests[..i + 1] == requests[..i] + [r];
      OneMoreCover(covering, requests[..i], r, weekStart, weekEnd);
      OneMoreCount(perWeek, requests[..i], r, weekStart, weekEnd);
      if r.status == Accepted && weekStart <= r.date <= weekEnd {
        var key := (r.substitute, Monday(r.date));
        covering := covering + {(r.substitute, r.date, r.period)};
        perWeek := perWeek[key := (if key in perWeek then perWeek[key] else 0) + 1];
      } else {
        assert covering + {} == covering;
      }
    }
    assert requests[..|requests|] == requests;
  }

  method Absences(leaves: seq<Leave>, from: int, to: int) returns (onLeave: map<UserId, seq<(int, int)>>)
    ensures SpansKnown(onLeave, leaves, from, to)
  {
    onLeave := map[];
    for i := 0 to |leaves|
      invariant forall user: UserId, span :: user in onLeave && span in onLeave[user] ==>
        exists l :: l in leaves[..i] && l.user == user && LeaveOpen(l.status) && span == (l.from, l.to)
      invariant forall l :: l in leaves[..i] && LeaveOpen(l.status) && l.from <= to && from <= l.to ==>
        l.user in onLeave && (l.from, l.to) in onLeave[l.user]
    {
      var l := leaves[i];
      assert leaves[..i + 1] == leaves[..i] + [l];
      if LeaveOpen(l.status) && l.from <= to && from <= l.to {
        onLeave := onLeave[l.user := (if l.user in onLeave then onLeave[l.user] else []) + [(l.from, l.to)]];
      }
    }
    assert leaves[..|leaves|] == leaves;
    forall user: UserId, day | from <= day <= to
      ensures InSpan(onLeave, user, day) <==> IsAwayIn(leaves, user, day)
    {
      if l :| l in leaves && l.user == user && LeaveOpen(l.status) && l.from <= day <= l.to {
        var span := (l.from, l.to);
        assert span in onLeave[user] && span.0 <= day <= span.1;
      }
      if user in onLeave {
        if span :| span in onLeave[user] && span.0 <= day <= span.1 {
          var l :| l in leaves && l.user == user && LeaveOpen(l.status) && span == (l.from, l.to);
        }
      }
    }
  }

  /** What the queries must have read: whole weeks of covers, since they are also counted by the week. */
  ghost predicate Known(bulk: Bulk, rows: Rows, from: int, to: int) {
    && SlotsKnown(bulk.busySlots, rows.slots, from, to)
    && CoversKnown(bulk.covering, rows.requests, Monday(from), to + SUNDAY - Weekday(to))
    && CountsKnown(bulk.perWeek, rows.requests, Monday(from), to + SUNDAY - Weekday(to))
    && SpansKnown(bulk.onLeave, rows.leaves, from, to)
  }

  lemma FreeIff(bulk: Bulk, rows: Rows, from: int, to: int, teacher: UserId, day: int, period: int)
    requires Known(bulk, rows, from, to) && from <= day <= to && Weekday(day) != SUNDAY
    ensures Free(bulk, teacher, day, period) <==> Reason(rows, teacher, day, period) == None
  {
    assert SlotRow(teacher, Weekday(day), period) in bulk.busySlots <==>
        SlotRow(teacher, Weekday(day), period) in rows.slots;
    assert (teacher, day, period) in bulk.covering <==> IsCoveringIn(rows.requests, teacher, day, period);
    hide SlotsKnown, CoversKnown, CountsKnown;
  }

  lemma CountIs(bulk: Bulk, rows: Rows, from: int, to: int, teacher: UserId, day: int)
    requires Known(bulk, rows, from, to) && from <= day <= to
    ensures PerWeek(bulk, teacher, Monday(day)) == WeekCovers(rows.requests, teacher, Monday(day))
  {
    hide SlotsKnown, CoversKnown, SpansKnown, WeekCovers;
  }

  method LoadBulk(rows: Rows, from: int, to: int) returns (bulk: Bulk)
    requires from <= to
    ensures Answers(bulk, rows, from, to)
  {
    hide Free, Reason, PerWeek, WeekCovers, SlotsKnown, CoversKnown, CountsKnown, SpansKnown;
    var busySlots := BusySlots(rows.slots, from, to);
    var covering, perWeek := Covers(rows.requests, Monday(from), to + SUNDAY - Weekday(to));
    var onLeave := Absences(rows.leaves, from, to);
    bulk := Bulk(busySlots, covering, perWeek, onLeave);
    assert Known(bulk, rows, from, to);
    hide Monday, Weekday, Known;
    forall teacher: UserId, day, period | from <= day <= to && Weekday(day) != SUNDAY
      ensures Free(bulk, teacher, day, period) <==> Reason(rows, teacher, day, period) == None
    {
      FreeIff(bulk, rows, from, to, teacher, day, period);
    }
    forall teacher: UserId, day | from <= day <= to
      ensures PerWeek(bulk, teacher, Monday(day)) == WeekCovers(rows.requests, teacher, Monday(day))
    {
      CountIs(bulk, rows, from, to, teacher, day);
    }
  }

  function Keyed(bulk: Bulk, t: TeacherRow, day: int, slot: MySlot): Candidate {
    Candidate(!SameSubject(t, slot.subject), PerWeek(bulk, t.id, Monday(day)), Lower(t.name), t.id)
  }

  /** `[t for t in teachers if free(t, d, period)]`, sorted by the key of the source. */
  method Available(bulk: Bulk, ghost rows: Rows, teachers: seq<TeacherRow>, day: int, slot: MySlot,
      ghost from: int, ghost to: int) returns (ids: seq<UserId>)
    requires Answers(bulk, rows, from, to) && from <= day <= to && Weekday(day) != SUNDAY
    ensures ids == Ids(Sort(Candidates(rows, teachers, day, slot)))
  {
    var free: seq<Candidate> := [];
    for i := 0 to |teachers|
      invariant free == Candidates(rows, teachers[..i], day, slot)
    {
      var t := teachers[i];
      assert teachers[..i + 1][..i] == teachers[..i];
      assert Free(bulk, t.id, day, slot.period) <==> Reason(rows, t.id, day, slot.period) == None;
      if Free(bulk, t.id, day, slot.period) { free := free + [Keyed(bulk, t, day, slot)]; }
    }
    assert teachers[..|teachers|] == teachers;
    ids := Ids(Sort(free));
  }

  /** The whole answer: exactly what asking `_busy_reason` teacher by teacher and counting covers
      week by week would give, whatever part of its first and last week the range cuts off. */
  method Availability(rows: Rows, holidays: set<int>, teachers: seq<TeacherRow>, mine: seq<MySlot>, from: int, to: int,
      mayPlan: bool, leave: Option<LeaveId>, ownLeaves: set<LeaveId>) returns (answer: Answer)
    ensures answer.Planned? <==>
      mayPlan && from <= to < from + MAX_RANGE_DAYS && (leave.Some? ==> leave.value in ownLeaves)
    ensures answer.Planned? ==> answer.days == Days(rows, holidays, teachers, mine, from, to + 1)
    ensures answer.Rejected? ==>
      answer.error == if !mayPlan then NotYourClasses else if to < from then RangeBackwards
                      else if to - from + 1 > MAX_RANGE_DAYS then RangeTooLong else LeaveNotFound
  {
    if !mayPlan { return Rejected(NotYourClasses); }
    if to < from { return Rejected(RangeBackwards); }
    if to - from + 1 > MAX_RANGE_DAYS { return Rejected(RangeTooLong); }
    if leave.Some? && leave.value !in ownLeaves { return Rejected(LeaveNotFound); }
    var bulk := LoadBulk(rows, from, to);
    var days: seq<DayEntry> := [];
    for d := from to to + 1
      invariant days == Days(rows, holidays, teachers, mine, from, d)
    {
      if Weekday(d) != SUNDAY {
        var periods: seq<PeriodEntry> := [];
        if d !in holidays {
          for i := 0 to |mine|
            invariant periods == Periods(rows, teachers, mine[..i], d)
          {
            assert mine[..i + 1][..i] == mine[..i];
            if mine[i].day == Weekday(d) {
              var ids := Available(bulk, rows, teachers, d, mine[i], from, to);
              periods := periods + [PeriodEntry(mine[i], ids)];
            }
          }
          assert mine[..|mine|] == mine;
        }
        days := days + [DayEntry(d, d in holidays, periods)];
      }
    }
    answer := Planned(days);
  }
}
