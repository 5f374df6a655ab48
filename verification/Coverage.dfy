/** `coverage`: how many of the periods a teacher misses during a leave are covered or asked for. */
module Coverage {
  import opened Calendar
  import opened Collections
  import opened SubstitutionRequests
  import opened SubstitutionService
  import opened Availability

  datatype Counts = Counts(periods: nat, covered: nat, pending: nat)

  /** The periods `user` teaches on a weekday. */
  function Teaches(slots: seq<SlotRow>, user: UserId, weekday: int): set<int> {
    set s | s in slots && s.teacher == user && s.day == weekday :: s.period
  }

  predicate HasStatus(requests: seq<Request>, user: UserId, day: int, period: int, status: Status) {
    exists r :: r in requests && r.requester == user && r.date == day && r.period == period && r.status == status
  }

  function CoveredIn(requests: seq<Request>, user: UserId, day: int, periods: set<int>): set<int> {
    set p | p in periods && HasStatus(requests, user, day, p, Accepted)
  }

  function PendingIn(requests: seq<Request>, user: UserId, day: int, periods: set<int>): set<int> {
    set p | p in periods && !HasStatus(requests, user, day, p, Accepted) && HasStatus(requests, user, day, p, Pending)
  }

  /** Every taught period of every school day, one by one. */
  function CountDays(slots: seq<SlotRow>, requests: seq<Request>, holidays: set<int>, user: UserId, from: int,
      upTo: int)
    : Counts
    decreases upTo - from
  {
    if upTo <= from then Counts(0, 0, 0)
    else
      var rest := CountDays(slots, requests, holidays, user, from, upTo - 1);
      var d := upTo - 1;
      if Weekday(d) == SUNDAY || d in holidays then rest
      else
        var periods := Teaches(slots, user, Weekday(d));
        Counts(rest.periods + |periods|,
               rest.covered + |CoveredIn(requests, user, d, periods)|,
               rest.pending + |PendingIn(requests, user, d, periods)|)
  }

  function CoverageOf(slots: seq<SlotRow>, requests: seq<Request>, holidays: set<int>, leave: Leave): Option<Counts> {
    if exists s :: s in slots && s.teacher == leave.user
    then Some(CountDays(slots, requests, holidays, leave.user, leave.from, leave.to + 1)) else None
  }

  lemma {:induction false} CoveredAndPendingFit(slots: seq<SlotRow>, requests: seq<Request>, holidays: set<int>,
      user: UserId, from: int, upTo: int)
    ensures var c := CountDays(slots, requests, holidays, user, from, upTo); c.covered + c.pending <= c.periods
    decreases upTo - from
  {
    if from < upTo {
      CoveredAndPendingFit(slots, requests, holidays, user, from, upTo - 1);
      var d := upTo - 1;
      var periods := Teaches(slots, user, Weekday(d));
      var covered, pending := CoveredIn(requests, user, d, periods), PendingIn(requests, user, d, periods);
      SubsetSize(covered + pending, periods);
      assert covered !! pending;
    }
  }

  /** The pairs of a day and a period of the leave that fall to somebody else. */
  ghost predicate AreMissed(missed: set<(int, int)>, slots: seq<SlotRow>, holidays: set<int>, user: UserId, from: int,
      upTo: int)
  {
    forall x :: x in missed <==> IsMissed(x, slots, holidays, user, from, upTo)
  }

  predicate IsMissed(x: (int, int), slots: seq<SlotRow>, holidays: set<int>, user: UserId, from: int, upTo: int) {
    from <= x.0 < upTo && Weekday(x.0) != SUNDAY && x.0 !in holidays && SlotRow(user, Weekday(x.0), x.1) in slots
  }

  ghost predicate Answered(requests: seq<Request>, user: UserId, x: (int, int), status: Status) {
    exists r :: r in requests && r.requester == user && r.date == x.0 && r.period == x.1 && r.status == status
  }

  ghost function CoveredOf(requests: seq<Request>, user: UserId, missed: set<(int, int)>): set<(int, int)> {
    set x | x in missed && Answered(requests, user, x, Accepted)
  }

  ghost function PendingOf(requests: seq<Request>, user: UserId, missed: set<(int, int)>): set<(int, int)> {
    set x | x in missed && !Answered(requests, user, x, Accepted) && Answered(requests, user, x, Pending)
  }

  lemma {:induction false} PairsSize(d: int, periods: set<int>, pairs: set<(int, int)>)
    requires forall x :: x in pairs <==> x.0 == d && x.1 in periods
    ensures |pairs| == |periods|
  {
    if pairs == {} {
      assert forall p :: p in periods ==> (d, p) in pairs;
    } else {
      var x :| x in pairs;
      PairsSize(d, periods - {x.1}, pairs - {x});
      assert periods == (periods - {x.1}) + {x.1};
    }
  }

  lemma SizesAdd(requests: seq<Request>, user: UserId, a: set<(int, int)>, b: set<(int, int)>)
    requires a !! b
    ensures |CoveredOf(requests, user, a + b)| == |CoveredOf(requests, user, a)| + |CoveredOf(requests, user, b)|
    ensures |PendingOf(requests, user, a + b)| == |PendingOf(requests, user, a)| + |PendingOf(requests, user, b)|
  {
    hide Answered;
    assert CoveredOf(requests, user, a + b) == CoveredOf(requests, user, a) + CoveredOf(requests, user, b);
    assert PendingOf(requests, user, a + b) == PendingOf(requests, user, a) + PendingOf(requests, user, b);
  }

  /** The missed periods before the last day, and those of it. */
  lemma DaysApart(missed: set<(int, int)>, slots: seq<SlotRow>, holidays: set<int>, user: UserId, from: int, upTo: int)
    returns (before: set<(int, int)>, last: set<(int, int)>)
    requires from < upTo && AreMissed(missed, slots, holidays, user, from, upTo)
    ensures AreMissed(before, slots, holidays, user, from, upTo - 1)
    ensures AreMissed(last, slots, holidays, user, upTo - 1, upTo)
    ensures missed == before + last && before !! last
  {
    before := set x | x in missed && x.0 < upTo - 1;
    last := set x | x in missed && x.0 == upTo - 1;
    assert missed == before + last;
  }

  /** The counts are the numbers of missed periods, of those somebody covers, and of those nobody covers
      but somebody is asked for. */
  lemma {:induction false} CountsAreSizes(slots: seq<SlotRow>, requests: seq<Request>, holidays: set<int>,
      user: UserId, from: int, upTo: int, missed: set<(int, int)>)
    requires AreMissed(missed, slots, holidays, user, from, upTo)
    ensures CountDays(slots, requests, holidays, user, from, upTo) ==
      Counts(|missed|, |CoveredOf(requests, user, missed)|, |PendingOf(requests, user, missed)|)
    decreases upTo - from
  {
    if upTo <= from {
      NothingMissed(requests, user, missed) by { assert forall x :: !IsMissed(x, slots, holidays, user, from, upTo); }
    } else {
      hide AreMissed, CoveredIn, PendingIn, CoveredOf, PendingOf, Teaches;
      var before, last := DaysApart(missed, slots, holidays, user, from, upTo);
      CountsAreSizes(slots, requests, holidays, user, from, upTo - 1, before);
      LastDay(slots, requests, holidays, user, upTo - 1, last);
      SizesAdd(requests, user, before, last);
    }
  }

  /** So for a leave, both its ends included; staff without classes have no counts. */
  lemma CoverageMeans(slots: seq<SlotRow>, requests: seq<Request>, holidays: set<int>, leave: Leave,
      missed: set<(int, int)>)
    requires AreMissed(missed, slots, holidays, leave.user, leave.from, leave.to + 1)
    ensures CoverageOf(slots, requests, holidays, leave).None? <==> forall s :: s in slots ==> s.teacher != leave.user
    ensures (exists s :: s in slots && s.teacher == leave.user) ==>
      CoverageOf(slots, requests, holidays, leave) ==
      Some(Counts(|missed|, |CoveredOf(requests, leave.user, missed)|, |PendingOf(requests, leave.user, missed)|))
  {
    CountsAreSizes(slots, requests, holidays, leave.user, leave.from, leave.to + 1, missed);
  }

  lemma NothingMissed(requests: seq<Request>, user: UserId, missed: set<(int, int)>)
    requires forall x :: x !in missed
    ensures |missed| == |CoveredOf(requests, user, missed)| == |PendingOf(requests, user, missed)| == 0
  {
    assert missed == {} && CoveredOf(requests, user, missed) == {} && PendingOf(requests, user, missed) == {};
  }

  lemma LastDay(slots: seq<SlotRow>, requests: seq<Request>, holidays: set<int>, user: UserId, d: int,
      last: set<(int, int)>)
    requires AreMissed(last, slots, holidays, user, d, d + 1)
    ensures var periods := Teaches(slots, user, Weekday(d));
      if Weekday(d) == SUNDAY || d in holidays then
        last == {} && CoveredOf(requests, user, last) == {} == PendingOf(requests, user, last)
      else
        |last| == |periods| && |CoveredOf(requests, user, last)| == |CoveredIn(requests, user, d, periods)|
        && |PendingOf(requests, user, last)| == |PendingIn(requests, user, d, periods)|
  {
    var periods := Teaches(slots, user, Weekday(d));
    if Weekday(d) == SUNDAY || d in holidays {
      forall x ensures x !in last { assert !IsMissed(x, slots, holidays, user, d, d + 1); }
    } else {
      forall x ensures x in last <==> x.0 == d && x.1 in periods {
        assert x in last <==> IsMissed(x, slots, holidays, user, d, d + 1);
        assert x.1 in periods <==> SlotRow(user, Weekday(d), x.1) in slots;
      }
      forall x: (int, int), status | x.0 == d
        ensures Answered(requests, user, x, status) <==> HasStatus(requests, user, d, x.1, status)
      {
      }
      hide Answered, HasStatus, Teaches;
      PairsSize(d, periods, last);
      PairsSize(d, CoveredIn(requests, user, d, periods), CoveredOf(requests, user, last));
      PairsSize(d, PendingIn(requests, user, d, periods), PendingOf(requests, user, last));
    }
  }

  /** The numbers depend on which rows there are, not on the order they were read in. */
  lemma {:induction false} RowOrderIrrelevant(slots: seq<SlotRow>, slots': seq<SlotRow>, requests: seq<Request>,
      requests': seq<Request>, holidays: set<int>, user: UserId, from: int, upTo: int)
    requires multiset(slots) == multiset(slots') && multiset(requests) == multiset(requests')
    ensures CountDays(slots, requests, holidays, user, from, upTo)
            == CountDays(slots', requests', holidays, user, from, upTo)
    decreases upTo - from
  {
    if from < upTo {
      RowOrderIrrelevant(slots, slots', requests, requests', holidays, user, from, upTo - 1);
      var d := upTo - 1;
      forall s | s in slots || s in slots' ensures s in slots && s in slots' {
        assert s in multiset(slots) && s in multiset(slots');
      }
      forall r | r in requests || r in requests' ensures r in requests && r in requests' {
        assert r in multiset(requests) && r in multiset(requests');
      }
      assert Teaches(slots, user, Weekday(d)) == Teaches(slots', user, Weekday(d));
      forall p, status ensures HasStatus(requests, user, d, p, status) == HasStatus(requests', user, d, p, status) {}
      var periods := Teaches(slots, user, Weekday(d));
      assert CoveredIn(requests, user, d, periods) == CoveredIn(requests', user, d, periods);
      assert PendingIn(requests, user, d, periods) == PendingIn(requests', user, d, periods);
    }
  }

  /** `state[key]`: accepted wins over pending whichever row is read first. */
  ghost predicate StateOf(state: map<(UserId, int, int), Status>, requests: seq<Request>, first: int, last: int) {
    forall user: UserId, day, period :: first <= day <= last ==>
      var key := (user, day, period);
      && (key in state && state[key] == Accepted <==> HasStatus(requests, user, day, period, Accepted))
      && (key in state && state[key] == Pending <==>
            !HasStatus(requests, user, day, period, Accepted) && HasStatus(requests, user, day, period, Pending))
  }

  method ReadStates(requests: seq<Request>, first: int, last: int) returns (state: map<(UserId, int, int), Status>)
    ensures StateOf(state, requests, first, last)
  {
    state := map[];
    for i := 0 to |requests|
      invariant forall key :: key in state ==> Open(state[key])
      invariant StateOf(state, requests[..i], first, last)
    {
      var r := requests[i];
      assert requests[..i + 1] == requests[..i] + [r];
      var key := (r.requester, r.date, r.period);
      ghost var before := state;
      if Open(r.status) && first <= r.date <= last && !(key in state && state[key] == Accepted) {
        state := state[key := r.status];
      }
      forall user: UserId, day, period, status
        ensures HasStatus(requests[..i + 1], user, day, period, status) <==>
          HasStatus(requests[..i], user, day, period, status)
          || (r.requester == user && r.date == day && r.period == period && r.status == status) {}
    }
    assert requests[..|requests|] == requests;
  }

  lemma OneMorePeriod(requests: seq<Request>, user: UserId, day: int, done: set<int>, p: int)
    requires p !in done
    ensures |CoveredIn(requests, user, day, done + {p})|
            == |CoveredIn(requests, user, day, done)| + if HasStatus(requests, user, day, p, Accepted) then 1 else 0
    ensures |PendingIn(requests, user, day, done + {p})|
            == |PendingIn(requests, user, day, done)|
               + if !HasStatus(requests, user, day, p, Accepted) && HasStatus(requests, user, day, p, Pending)
                 then 1 else 0
  {
    hide HasStatus;
    assert CoveredIn(requests, user, day, done + {p})
           == CoveredIn(requests, user, day, done) + CoveredIn(requests, user, day, {p});
    assert PendingIn(requests, user, day, done + {p})
           == PendingIn(requests, user, day, done) + PendingIn(requests, user, day, {p});
    assert CoveredIn(requests, user, day, {p}) == if HasStatus(requests, user, day, p, Accepted) then {p} else {};
    assert PendingIn(requests, user, day, {p})
           == if !HasStatus(requests, user, day, p, Accepted) && HasStatus(requests, user, day, p, Pending)
              then {p} else {};
  }

  /** The `for period in teaches.get(...)` loop for one day. */
  method CountDay(teaches: set<int>, ghost requests: seq<Request>, state: map<(UserId, int, int), Status>,
      user: UserId, d: int, start: Counts, ghost first: int, ghost last: int) returns (counts: Counts)
    requires StateOf(state, requests, first, last) && first <= d <= last
    ensures counts == Counts(start.periods + |teaches|, start.covered + |CoveredIn(requests, user, d, teaches)|,
                             start.pending + |PendingIn(requests, user, d, teaches)|)
  {
    counts := start;
    var todo, done := teaches, {};
    while exists p :: p in todo
      invariant done !! todo && done + todo == teaches
      invariant counts == Counts(start.periods + |done|, start.covered + |CoveredIn(requests, user, d, done)|,
                                 start.pending + |PendingIn(requests, user, d, done)|)
      decreases |todo|
    {
      var period :| period in todo;
      var key := (user, d, period);
      counts := Counts(counts.periods + 1,
                       counts.covered + if key in state && state[key] == Accepted then 1 else 0,
                       counts.pending + if key in state && state[key] == Pending then 1 else 0);
      OneMorePeriod(requests, user, d, done, period);
      todo, done := todo - {period}, done + {period};
    }
    assert done == teaches;
  }

  /** The `while d <= lv["to_date"]` loop for one leave. */
  method CountLeave(slots: seq<SlotRow>, ghost requests: seq<Request>, holidays: set<int>,
      state: map<(UserId, int, int), Status>, leave: Leave, ghost first: int, ghost last: int) returns (counts: Counts)
    requires StateOf(state, requests, first, last) && first <= leave.from && leave.to <= last
    ensures counts == CountDays(slots, requests, holidays, leave.user, leave.from, leave.to + 1)
  {
    counts := Counts(0, 0, 0);
    var d := leave.from;
    while d <= leave.to
      invariant leave.from <= d && (d <= leave.to + 1 || d == leave.from)
      invariant counts == CountDays(slots, requests, holidays, leave.user, leave.from, d)
    {
      if Weekday(d) != SUNDAY && d !in holidays {
        counts := CountDay(Teaches(slots, leave.user, Weekday(d)), requests, state, leave.user, d, counts, first, last);
      }
      d := d + 1;
    }
  }

  /** Every leave gets its day-by-day counts; None for staff without timetable periods. */
  method Coverage(slots: seq<SlotRow>, requests: seq<Request>, holidays: set<int>, leaves: seq<Leave>)
    returns (coverage: seq<Option<Counts>>)
    ensures |coverage| == |leaves|
    ensures forall i :: 0 <= i < |leaves| ==> coverage[i] == CoverageOf(slots, requests, holidays, leaves[i])
  {
    coverage := [];
    if leaves == [] { return; }
    var first, last := leaves[0].from, leaves[0].to;
    for i := 0 to |leaves|
      invariant forall k :: 0 <= k < i ==> first <= leaves[k].from && leaves[k].to <= last
    {
      if leaves[i].from < first { first := leaves[i].from; }
      if leaves[i].to > last { last := leaves[i].to; }
    }
    var state := ReadStates(requests, first, last);
    for i := 0 to |leaves|
      invariant |coverage| == i
      invariant forall k :: 0 <= k < i ==> coverage[k] == CoverageOf(slots, requests, holidays, leaves[k])
    {
      if exists s :: s in slots && s.teacher == leaves[i].user {
        var counts := CountLeave(slots, requests, holidays, state, leaves[i], first, last);
        coverage := coverage + [Some(counts)];
      } else {
        coverage := coverage + [None];
      }
    }
  }
}
