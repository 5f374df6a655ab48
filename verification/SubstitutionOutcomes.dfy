/** What each operation of the substitution protocol answers and leaves behind: exactly when it goes
    through, what every row is afterwards, and what a refusal says about the tables. */
module SubstitutionOutcomes {
  import opened Calendar
  import opened Collections
  import opened SubstitutionProtocol
  import opened SubstitutionRequests
  import opened SubstitutionService

  // ------------------------------------------------------------ who may what

  predicate At(row: Request, day: int, period: int) {
    row.date == day && row.period == period
  }

  /** No class, no cover and no leave of the teacher at that time. */
  ghost predicate FreeAt(w: Tables, teacher: UserId, day: int, period: int) {
    && (forall s :: s in w.slots ==> !(s.0 == teacher && s.1 == (day + 6) % 7 && s.2 == period))
    && (forall j :: j in w.requests && At(w.requests[j], day, period) && w.requests[j].substitute == teacher ==>
          w.requests[j].status != Accepted)
    && (forall l :: l in w.leaves && w.leaves[l].user == teacher && w.leaves[l].from <= day <= w.leaves[l].to ==>
          w.leaves[l].status == LeaveRejected || w.leaves[l].status == LeaveCancelled)
  }

  lemma FreeIffNotBusy(w: Tables, teacher: UserId, day: int, period: int)
    ensures FreeAt(w, teacher, day, period) <==> Busy(w, teacher, day, period) == None
  {
  }

  predicate Office(role: Role) {
    role in {Admin, Principal, SubAdmin, Coordinator}
  }

  predicate ActiveIn(w: Tables, user: UserId, roles: set<Role>) {
    user in w.people && w.people[user].active && w.people[user].role in roles
  }

  /** `user` may plan for `requester`, who is active staff with classes to plan. */
  predicate MayPlanFor(w: Tables, user: UserId, requester: UserId) {
    && (user == requester || (user in w.people && Office(w.people[user].role)))
    && ActiveIn(w, requester, {Admin, Principal, SubAdmin, Coordinator, Teacher})
  }

  /** A class of the requester on a coming school day, not covered yet. */
  ghost predicate CanBePlanned(w: Tables, requester: UserId, day: int, period: int) {
    && w.today <= day && (day + 6) % 7 != 6 && day !in w.holidays && (requester, (day + 6) % 7, period) in w.slots
    && (forall j :: j in w.requests && At(w.requests[j], day, period) && w.requests[j].requester == requester ==>
          w.requests[j].status != Accepted)
  }

  /** An active teacher, free at that time and not asked for the period yet. */
  ghost predicate CanBeAsked(w: Tables, requester: UserId, item: Item) {
    && ActiveIn(w, item.substitute, {Teacher}) && item.substitute != requester
    && FreeAt(w, item.substitute, item.day, item.period)
    && (forall j :: j in w.requests && At(w.requests[j], item.day, item.period) ==>
          w.requests[j].requester == requester && w.requests[j].substitute == item.substitute ==>
            w.requests[j].status != Pending && w.requests[j].status != Accepted)
  }

  /** No leave, or one of the requester's that still stands and holds the day. */
  predicate LeaveFits(w: Tables, requester: UserId, day: int, leave: Option<LeaveId>) {
    leave.Some? ==>
      && leave.value in w.leaves && w.leaves[leave.value].user == requester
      && w.leaves[leave.value].status in {LeavePending, LeaveApproved}
      && w.leaves[leave.value].from <= day <= w.leaves[leave.value].to
  }

  ghost predicate MayCreate(w: Tables, requester: UserId, item: Item, leave: Option<LeaveId>) {
    && CanBePlanned(w, requester, item.day, item.period) && CanBeAsked(w, requester, item)
    && LeaveFits(w, requester, item.day, leave)
  }

  lemma NoErrorIff(w: Tables, requester: UserId, item: Item, leave: Option<LeaveId>)
    ensures CreateError(w, requester, item, leave) == None <==> MayCreate(w, requester, item, leave)
  {
    FreeIffNotBusy(w, item.substitute, item.day, item.period);
    hide FreeAt, Busy;
  }

  /** What a refused item was refused for. */
  ghost predicate CreateRefusal(w: Tables, requester: UserId, item: Item, leave: Option<LeaveId>, error: Error) {
    var Item(day, period, substitute) := item;
    match error
    case PastDate => day < w.today
    case OnSunday => (day + 6) % 7 == 6
    case OnHoliday => day in w.holidays
    case NoClass => (requester, (day + 6) % 7, period) !in w.slots
    case NoSubstitute => !ActiveIn(w, substitute, {Teacher})
    case OwnSubstitute => substitute == requester
    case NotFree => !FreeAt(w, substitute, day, period)
    case AlreadyCovered => PeriodCovered(w.requests, requester, day, period)
    case AlreadyAsked => Asked(w.requests, requester, substitute, day, period)
    case NotFound => leave.Some? && !(leave.value in w.leaves && w.leaves[leave.value].user == requester)
    case LeaveClosed =>
      leave.Some? && leave.value in w.leaves && w.leaves[leave.value].status in {LeaveRejected, LeaveCancelled}
    case OutsideLeave =>
      leave.Some? && leave.value in w.leaves
      && (day < w.leaves[leave.value].from || w.leaves[leave.value].to < day)
    case _ => false
  }

  lemma ErrorIsTrue(w: Tables, requester: UserId, item: Item, leave: Option<LeaveId>)
    ensures var error := CreateError(w, requester, item, leave);
      error.Some? ==> CreateRefusal(w, requester, item, leave, error.value)
  {
    FreeIffNotBusy(w, item.substitute, item.day, item.period);
    hide FreeAt, Busy, PeriodCovered, Asked;
  }

  /** Nothing but the request rows and their counter. */
  predicate OnlyRequests(w: Tables, w': Tables) {
    w' == w.(requests := w'.requests, nextRequest := w'.nextRequest)
  }

  /** Every row there was is as it was, and exactly these rows are new. */
  ghost predicate NewRows(w: Tables, w': Tables, rows: seq<Request>) {
    && w'.nextRequest == w.nextRequest + |rows|
    && (forall j :: j in w'.requests <==> j in w.requests || w.nextRequest <= j < w.nextRequest + |rows|)
    && (forall j :: j in w.requests && j < w.nextRequest ==> w'.requests[j] == w.requests[j])
    && (forall k :: 0 <= k < |rows| ==> w'.requests[w.nextRequest + k] == rows[k])
  }

  predicate KnownIds(w: Tables) {
    forall j :: j in w.requests ==> j < w.nextRequest
  }

  /** `create_request` goes through exactly when the planner, the period, the colleague and the leave
      are all right; then there is one pending row more, and a refusal is true of the tables. */
  lemma CreateOutcome(w: Tables, user: UserId, teacher: Option<UserId>, item: Item, leave: Option<LeaveId>)
    requires KnownIds(w)
    ensures var (w', reply) := Apply(w, OpCreate(user, teacher, item, leave));
      var requester := if teacher.Some? then teacher.value else user;
      && (reply == Done <==> MayPlanFor(w, user, requester) && MayCreate(w, requester, item, leave))
      && (reply == Done ==>
            && OnlyRequests(w, w')
            && NewRows(w, w', [Request(requester, item.substitute, item.day, item.period, leave, Pending)]))
      && (reply != Done ==> w' == w)
      && (reply.Refused? && MayPlanFor(w, user, requester) ==>
            CreateRefusal(w, requester, item, leave, reply.error))
      && (reply == Refused(Forbidden) <==> user != requester && !(user in w.people && Office(w.people[user].role)))
      && (reply.Refused? && !MayPlanFor(w, user, requester) ==> reply.error in {Forbidden, NotFound})
  {
    var requester := if teacher.Some? then teacher.value else user;
    NoErrorIff(w, requester, item, leave);
    ErrorIsTrue(w, requester, item, leave);
    hide MayCreate, CreateError, CreateRefusal;
  }

  // ------------------------------------------------------------ a whole batch

  function RowOf(requester: UserId, item: Item, leave: LeaveId): Request {
    Request(requester, item.substitute, item.day, item.period, Some(leave), Pending)
  }

  function RowsOf(requester: UserId, items: seq<Item>, leave: LeaveId): (rows: seq<Request>)
    ensures |rows| == |items| && forall k :: 0 <= k < |items| ==> rows[k] == RowOf(requester, items[k], leave)
  {
    if items == [] then [] else [RowOf(requester, items[0], leave)] + RowsOf(requester, items[1..], leave)
  }

  /** The tables once the first items are in. */
  function With(w: Tables, requester: UserId, items: seq<Item>, leave: LeaveId): Tables
    decreases |items|
  {
    if items == [] then w else With(Inserted(w, requester, items[0], Some(leave)), requester, items[1..], leave)
  }

  lemma RowsChain(w: Tables, w1: Tables, w': Tables, row: Request, rows: seq<Request>)
    requires KnownIds(w) && NewRows(w, w1, [row]) && NewRows(w1, w', rows)
    ensures NewRows(w, w', [row] + rows)
  {
    var all := [row] + rows;
    forall k | 0 <= k < |all| ensures w'.requests[w.nextRequest + k] == all[k] {
      if k > 0 { assert all[k] == rows[k - 1] && w.nextRequest + k == w1.nextRequest + (k - 1); }
    }
  }

  lemma {:induction false} BatchIsIn(w: Tables, requester: UserId, items: seq<Item>, leave: LeaveId)
    requires KnownIds(w)
    ensures var w' := With(w, requester, items, leave);
      OnlyRequests(w, w') && NewRows(w, w', RowsOf(requester, items, leave)) && KnownIds(w')
    decreases |items|
  {
    if items != [] {
      var w1 := Inserted(w, requester, items[0], Some(leave));
      assert NewRows(w, w1, [RowOf(requester, items[0], leave)]) && OnlyRequests(w, w1) && KnownIds(w1);
      hide NewRows, Inserted, KnownIds;
      BatchIsIn(w1, requester, items[1..], leave);
      RowsChain(w, w1, With(w, requester, items, leave), RowOf(requester, items[0], leave),
        RowsOf(requester, items[1..], leave));
    }
  }

  /** Each item may be asked once those before it are. */
  ghost predicate EachMay(w: Tables, requester: UserId, items: seq<Item>, leave: LeaveId) {
    forall k :: 0 <= k < |items| ==> MayCreate(With(w, requester, items[..k], leave), requester, items[k], Some(leave))
  }

  /** A batch goes through exactly when each of its items may be asked after those before it; then its
      rows are new, one an item. Otherwise the first item that may not is named with its reason. */
  lemma {:induction false} BatchOutcome(w: Tables, requester: UserId, items: seq<Item>, leave: LeaveId)
    ensures var (w', reply) := CreateMany(w, requester, items, leave);
      && (reply == Done <==> EachMay(w, requester, items, leave))
      && (reply == Done ==> w' == With(w, requester, items, leave))
      && (reply.Refused? ==> exists k :: 0 <= k < |items| && FirstRefused(w, requester, items, leave, k, reply.error))
    decreases |items|
  {
    hide MayCreate, CreateError, CreateRefusal, Inserted;
    if items != [] {
      NoErrorIff(w, requester, items[0], Some(leave));
      ErrorIsTrue(w, requester, items[0], Some(leave));
      var error := CreateError(w, requester, items[0], Some(leave));
      var w1 := Inserted(w, requester, items[0], Some(leave));
      assert items[..0] == [];
      if error == None {
        BatchOutcome(w1, requester, items[1..], leave);
        LaterItems(w, requester, items, leave);
        var reply := CreateMany(w1, requester, items[1..], leave).1;
        if reply.Refused? {
          var k :| 0 <= k < |items| - 1 && FirstRefused(w1, requester, items[1..], leave, k, reply.error);
          assert With(w, requester, items[..k + 1], leave) == With(w1, requester, items[1..][..k], leave);
          assert FirstRefused(w, requester, items, leave, k + 1, reply.error);
        }
      } else {
        assert !MayCreate(With(w, requester, items[..0], leave), requester, items[0], Some(leave));
        assert FirstRefused(w, requester, items, leave, 0, ItemRefused(error.value));
      }
    }
  }

  /** Item k is the first that may not be asked, and the reason given is true. */
  ghost predicate FirstRefused(w: Tables, requester: UserId, items: seq<Item>, leave: LeaveId, k: int, error: Error)
    requires 0 <= k < |items|
  {
    && EachMay(w, requester, items[..k], leave)
    && error.ItemRefused?
    && CreateRefusal(With(w, requester, items[..k], leave), requester, items[k], Some(leave), error.reason)
  }

  lemma LaterItems(w: Tables, requester: UserId, items: seq<Item>, leave: LeaveId)
    requires items != []
    ensures var w1 := Inserted(w, requester, items[0], Some(leave));
      && (forall k :: 0 <= k < |items| - 1 ==>
            With(w, requester, items[..k + 1], leave) == With(w1, requester, items[1..][..k], leave))
      && (MayCreate(w, requester, items[0], Some(leave)) ==>
            (EachMay(w, requester, items, leave) <==> EachMay(w1, requester, items[1..], leave))
            && forall k :: 0 <= k < |items| - 1 ==>
                 (EachMay(w, requester, items[..k + 1], leave) <==> EachMay(w1, requester, items[1..][..k], leave)))
  {
    hide MayCreate, Inserted;
    var w1 := Inserted(w, requester, items[0], Some(leave));
    forall k | 0 <= k < |items| - 1
      ensures With(w, requester, items[..k + 1], leave) == With(w1, requester, items[1..][..k], leave)
    {
      assert items[..k + 1][0] == items[0] && items[..k + 1][1..] == items[1..][..k];
    }
    assert items[..0] == [];
    if MayCreate(w, requester, items[0], Some(leave)) {
      EachShifts(w, requester, items, leave);
      forall k | 0 <= k < |items| - 1
        ensures EachMay(w, requester, items[..k + 1], leave) <==> EachMay(w1, requester, items[1..][..k], leave)
      {
        EachShifts(w, requester, items[..k + 1], leave);
        assert items[..k + 1][0] == items[0] && items[..k + 1][1..] == items[1..][..k];
      }
    }
  }

  lemma EachShifts(w: Tables, requester: UserId, items: seq<Item>, leave: LeaveId)
    requires items != [] && MayCreate(w, requester, items[0], Some(leave))
    ensures EachMay(w, requester, items, leave) <==>
      EachMay(Inserted(w, requester, items[0], Some(leave)), requester, items[1..], leave)
  {
    hide MayCreate, Inserted;
    var w1 := Inserted(w, requester, items[0], Some(leave));
    assert items[..0] == [];
    forall k | 0 <= k < |items| - 1
      ensures MayCreate(With(w, requester, items[..k + 1], leave), requester, items[k + 1], Some(leave)) <==>
              MayCreate(With(w1, requester, items[1..][..k], leave), requester, items[1..][k], Some(leave))
    {
      assert items[..k + 1][0] == items[0] && items[..k + 1][1..] == items[1..][..k];
    }
    if EachMay(w1, requester, items[1..], leave) {
      forall k | 0 <= k < |items|
        ensures MayCreate(With(w, requester, items[..k], leave), requester, items[k], Some(leave))
      {
        if k > 0 {
          assert MayCreate(With(w1, requester, items[1..][..k - 1], leave), requester, items[1..][k - 1], Some(leave));
        }
      }
    }
  }

  // ------------------------------------------------------------------ answers

  /** One row got a new status; nothing else changed. */
  ghost predicate OneStatus(w: Tables, w': Tables, id: RequestId, status: Status) {
    && id in w.requests && w' == w.(requests := w'.requests) && w'.requests.Keys == w.requests.Keys
    && w'.requests[id] == w.requests[id].(status := status)
    && forall j :: j in w.requests && j != id ==> w'.requests[j] == w.requests[j]
  }

  predicate Concerns(w: Tables, user: UserId, row: Request) {
    row.requester == user || (user in w.people && Office(w.people[user].role))
  }

  /** What the one asked is refused for, or somebody else. */
  predicate AnswerRefusal(w: Tables, user: UserId, id: RequestId, from: Status, error: Error) {
    match error
    case NotFound => id !in w.requests || (w.requests[id].substitute != user && !Concerns(w, user, w.requests[id]))
    case Forbidden => id in w.requests && w.requests[id].substitute != user && Concerns(w, user, w.requests[id])
    case WrongStatus => id in w.requests && w.requests[id].substitute == user && w.requests[id].status != from
    case _ => id in w.requests && w.requests[id].substitute == user && w.requests[id].status == from
  }

  predicate AskedWith(w: Tables, user: UserId, id: RequestId, status: Status) {
    id in w.requests && w.requests[id].substitute == user && w.requests[id].status == status
  }

  lemma DeclineOutcome(w: Tables, user: UserId, id: RequestId)
    ensures var (w', reply) := Apply(w, OpDecline(user, id));
      && (reply == Done <==> AskedWith(w, user, id, Pending))
      && (reply == Done ==> OneStatus(w, w', id, Declined))
      && (reply.Refused? ==> w' == w && AnswerRefusal(w, user, id, Pending, reply.error))
  {
  }

  const DAY := 24 * 60

  /** The period begins after this minute; one without a time ends with its day. */
  predicate NotBegun(w: Tables, row: Request) {
    w.today * DAY + w.minute < row.date * DAY + if row.period in w.starts then w.starts[row.period] else DAY
  }

  /** Times are minutes of a day. */
  predicate ClockOk(w: Tables) {
    0 <= w.minute < DAY && forall p :: p in w.starts ==> 0 <= w.starts[p] < DAY
  }

  /** A cover can be withdrawn exactly until its period begins. */
  lemma WithdrawOutcome(w: Tables, user: UserId, id: RequestId)
    requires ClockOk(w)
    ensures var (w', reply) := Apply(w, OpWithdraw(user, id));
      && (reply == Done <==> AskedWith(w, user, id, Accepted) && NotBegun(w, w.requests[id]))
      && (reply == Done ==> OneStatus(w, w', id, Withdrawn))
      && (reply.Refused? ==> w' == w && AnswerRefusal(w, user, id, Accepted, reply.error))
      && (reply == Refused(PeriodStarted) <==> AskedWith(w, user, id, Accepted) && !NotBegun(w, w.requests[id]))
  {
  }

  lemma CancelOutcome(w: Tables, user: UserId, id: RequestId)
    ensures var (w', reply) := Apply(w, OpCancel(user, id));
      var mine := id in w.requests && Concerns(w, user, w.requests[id]);
      && (reply == Done <==> mine && w.requests[id].status in {Pending, Accepted})
      && (reply == Done ==> OneStatus(w, w', id, Cancelled))
      && (reply != Done ==> w' == w)
      && (reply.Refused? && mine ==> reply.error == WrongStatus)
      && (reply.Refused? && !mine ==>
            reply.error == if id in w.requests && w.requests[id].substitute == user then Forbidden else NotFound)
  {
  }

  /** The request is accepted, its rivals filled, and nothing else changed. */
  ghost predicate Covers(w: Tables, w': Tables, id: RequestId) {
    && id in w.requests && w' == w.(requests := w'.requests) && w'.requests.Keys == w.requests.Keys
    && w'.requests[id] == w.requests[id].(status := Accepted)
    && forall j :: j in w.requests && j != id ==>
         w'.requests[j] == if SamePeriod(w.requests[j], w.requests[id]) && w.requests[j].status == Pending
                           then w.requests[j].(status := Filled) else w.requests[j]
  }

  /** On any tables, a period covered twice over included: then the request that comes too late is filled. */
  lemma AcceptOutcome(w: Tables, user: UserId, id: RequestId)
    ensures var (w', reply) := Apply(w, OpAccept(user, id));
      var taken := id in w.requests
        && PeriodCovered(w.requests, w.requests[id].requester, w.requests[id].date, w.requests[id].period);
      && (reply == Done <==>
            AskedWith(w, user, id, Pending) && !taken && FreeAt(w, user, w.requests[id].date, w.requests[id].period))
      && (reply == Done ==> Covers(w, w', id))
      && (reply == Refused(AlreadyCovered) <==> AskedWith(w, user, id, Pending) && taken)
      && (reply == Refused(AlreadyCovered) ==> OneStatus(w, w', id, Filled))
      && (reply.Refused? && reply.error != AlreadyCovered ==> w' == w)
      && (reply.Refused? ==> AnswerRefusal(w, user, id, Pending, reply.error))
      && (reply.Refused? && AskedWith(w, user, id, Pending) ==> reply.error in {AlreadyCovered, NotFree})
  {
    if id in w.requests { FreeIffNotBusy(w, user, w.requests[id].date, w.requests[id].period); }
    hide FreeAt, Busy, PeriodCovered;
  }

  // ------------------------------------------------------------------- leaves

  predicate Outside(date: int, from: int, to: int) {
    date < from || to < date
  }

  /** What saving a leave with these dates makes of a request there was. */
  function AfterSaving(row: Request, user: UserId, leave: LeaveId, from: int, to: int, moved: bool): Request {
    if row.status != Pending && row.status != Accepted then row
    else if moved && row.leave == Some(leave) && Outside(row.date, from, to) then row.(status := Cancelled)
    else if row.requester == user && row.leave == None && !Outside(row.date, from, to) then row.(leave := Some(leave))
    else row
  }

  /** Each request there was is as it should be, and the new ones are the items. */
  ghost predicate SavedRows(w: Tables, rs: Requests, user: UserId, leave: LeaveId, from: int, to: int,
      items: seq<Item>, moved: bool) {
    && (forall j :: j in rs <==> j in w.requests || w.nextRequest <= j < w.nextRequest + |items|)
    && (forall j :: j in w.requests ==> rs[j] == AfterSaving(w.requests[j], user, leave, from, to, moved))
    && (forall k :: 0 <= k < |items| ==> rs[w.nextRequest + k] == RowOf(user, items[k], leave))
  }

  /** The leave stands with these dates, pending, and the rows are as they should be. */
  ghost predicate Saved(w: Tables, w': Tables, user: UserId, leave: LeaveId, from: int, to: int,
      items: seq<Item>, moved: bool) {
    && w'.leaves == w.leaves[leave := Leave(user, from, to, LeavePending)]
    && w' == w.(requests := w'.requests, nextRequest := w.nextRequest + |items|, leaves := w'.leaves,
                nextLeave := if moved then w.nextLeave else leave + 1)
    && SavedRows(w, w'.requests, user, leave, from, to, items, moved)
  }

  /** Moving a leave cancels its open requests outside the new dates. */
  function CutOff(rs: Requests, leave: LeaveId, from: int, to: int): Requests {
    map j | j in rs ::
      if rs[j].leave == Some(leave) && rs[j].status in {Pending, Accepted} && Outside(rs[j].date, from, to)
      then rs[j].(status := Cancelled) else rs[j]
  }

  /** The tables with the leave, before anybody is asked. */
  function WithLeave(w: Tables, user: UserId, leave: LeaveId, from: int, to: int, moved: bool): Tables {
    w.(leaves := w.leaves[leave := Leave(user, from, to, LeavePending)],
       nextLeave := if moved then w.nextLeave else leave + 1,
       requests := if moved then CutOff(w.requests, leave, from, to) else w.requests)
  }

  lemma OldRowSaved(w: Tables, w2: Tables, user: UserId, leave: LeaveId, from: int, to: int, moved: bool, j: RequestId)
    requires j in w.requests && j in w2.requests
    requires w2.requests[j] == WithLeave(w, user, leave, from, to, moved).requests[j]
    ensures Linked(w2.requests, user, leave, from, to)[j] == AfterSaving(w.requests[j], user, leave, from, to, moved)
  {
  }

  lemma NewRowSaved(w2: Tables, user: UserId, leave: LeaveId, from: int, to: int, j: RequestId)
    requires j in w2.requests && w2.requests[j].leave == Some(leave)
    ensures Linked(w2.requests, user, leave, from, to)[j] == w2.requests[j]
  {
  }

  lemma NewRowIs(w1: Tables, w2: Tables, rows: seq<Request>, k: nat)
    requires NewRows(w1, w2, rows) && k < |rows|
    ensures w1.nextRequest + k in w2.requests && w2.requests[w1.nextRequest + k] == rows[k]
  {
  }

  lemma OldRowIs(w1: Tables, w2: Tables, rows: seq<Request>, j: RequestId)
    requires NewRows(w1, w2, rows) && j in w1.requests && j < w1.nextRequest
    ensures j in w2.requests && w2.requests[j] == w1.requests[j]
  {
  }

  lemma RowIds(w1: Tables, w2: Tables, rows: seq<Request>)
    requires NewRows(w1, w2, rows)
    ensures forall j :: j in w2.requests <==> j in w1.requests || w1.nextRequest <= j < w1.nextRequest + |rows|
  {
  }

  lemma SameIds(w: Tables, rs: Requests, user: UserId, leave: LeaveId, from: int, to: int, moved: bool)
    ensures Linked(rs, user, leave, from, to).Keys == rs.Keys
    ensures var w1 := WithLeave(w, user, leave, from, to, moved);
      w1.requests.Keys == w.requests.Keys && w1.nextRequest == w.nextRequest
  {
  }

  lemma LinkedRows(w: Tables, w2: Tables, user: UserId, leave: LeaveId, from: int, to: int, items: seq<Item>,
      moved: bool)
    requires KnownIds(w) && NewRows(WithLeave(w, user, leave, from, to, moved), w2, RowsOf(user, items, leave))
    ensures SavedRows(w, Linked(w2.requests, user, leave, from, to), user, leave, from, to, items, moved)
  {
    hide Linked, AfterSaving, RowsOf, CutOff, WithLeave, NewRows;
    var rs, rows := Linked(w2.requests, user, leave, from, to), RowsOf(user, items, leave);
    var w1 := WithLeave(w, user, leave, from, to, moved);
    SameIds(w, w2.requests, user, leave, from, to, moved);
    RowIds(w1, w2, rows);
    forall j | j in w.requests ensures rs[j] == AfterSaving(w.requests[j], user, leave, from, to, moved) {
      OldRowIs(w1, w2, rows, j);
      OldRowSaved(w, w2, user, leave, from, to, moved, j);
    }
    forall k | 0 <= k < |items| ensures rs[w.nextRequest + k] == RowOf(user, items[k], leave) {
      NewRowIs(w1, w2, rows, k);
      NewRowSaved(w2, user, leave, from, to, w.nextRequest + k);
    }
  }

  lemma LinkedIsSaved(w: Tables, w2: Tables, user: UserId, leave: LeaveId, from: int, to: int, items: seq<Item>,
      moved: bool)
    requires KnownIds(w)
    requires var w1 := WithLeave(w, user, leave, from, to, moved);
      OnlyRequests(w1, w2) && NewRows(w1, w2, RowsOf(user, items, leave))
    ensures Saved(w, w2.(requests := Linked(w2.requests, user, leave, from, to)), user, leave, from, to, items, moved)
  {
    assert w2.nextRequest == w.nextRequest + |items|;
    hide SavedRows, Linked, NewRows, RowsOf, CutOff, KnownIds;
    LinkedRows(w, w2, user, leave, from, to, items, moved);
  }

  lemma BatchIsSaved(w: Tables, user: UserId, leave: LeaveId, from: int, to: int, items: seq<Item>, moved: bool)
    requires KnownIds(w)
    ensures var w1 := WithLeave(w, user, leave, from, to, moved);
      var (w2, reply) := CreateMany(w1, user, items, leave);
      && (reply == Done <==> EachMay(w1, user, items, leave))
      && (reply == Done ==>
            Saved(w, w2.(requests := Linked(w2.requests, user, leave, from, to)), user, leave, from, to, items, moved))
  {
    var w1 := WithLeave(w, user, leave, from, to, moved);
    assert KnownIds(w1);
    hide WithLeave, Saved, EachMay, CreateMany, NewRows, With, KnownIds, Linked;
    BatchOutcome(w1, user, items, leave);
    BatchIsIn(w1, user, items, leave);
    LinkedIsSaved(w, With(w1, user, items, leave), user, leave, from, to, items, moved);
  }

  /** Asking for leave goes through exactly when no leave of the user is pending and every item may be
      asked; then the leave is pending with its dates. Refused, it leaves no trace. */
  lemma RequestLeaveOutcome(w: Tables, user: UserId, from: int, to: int, items: seq<Item>)
    requires KnownIds(w)
    ensures var (w', reply) := Apply(w, OpRequestLeave(user, from, to, items));
      var pending := exists l :: l in w.leaves && w.leaves[l].user == user && w.leaves[l].status == LeavePending;
      && (reply == Done <==>
            !pending && EachMay(WithLeave(w, user, w.nextLeave, from, to, false), user, items, w.nextLeave))
      && (reply == Done ==> Saved(w, w', user, w.nextLeave, from, to, items, false))
      && (reply != Done ==> w' == w)
      && (reply == Refused(PendingLeaveExists) <==> pending)
  {
    BatchIsSaved(w, user, w.nextLeave, from, to, items, false);
    var w1 := w.(leaves := w.leaves[w.nextLeave := Leave(user, from, to, LeavePending)], nextLeave := w.nextLeave + 1);
    assert w1 == WithLeave(w, user, w.nextLeave, from, to, false);
    BatchNotPending(w1, user, items, w.nextLeave);
    hide Saved, WithLeave, EachMay, CreateMany, Linked;
  }

  lemma BatchNotPending(w: Tables, requester: UserId, items: seq<Item>, leave: LeaveId)
    ensures CreateMany(w, requester, items, leave).1.Refused? ==>
      CreateMany(w, requester, items, leave).1.error.ItemRefused?
  {
    hide EachMay, CreateMany, With, CreateRefusal;
    BatchOutcome(w, requester, items, leave);
    var reply := CreateMany(w, requester, items, leave).1;
    if reply.Refused? {
      var k :| 0 <= k < |items| && FirstRefused(w, requester, items, leave, k, reply.error);
    }
  }

  lemma CutOffIs(rs: Requests, leave: LeaveId, from: int, to: int)
    ensures MarkAll(rs, ToCancel(rs, leave, Some((from, to))), Cancelled) == CutOff(rs, leave, from, to)
  {
  }

  /** A leave can be moved exactly by its owner while it is pending, if every item may be asked. */
  lemma UpdateLeaveOutcome(w: Tables, user: UserId, leave: LeaveId, from: int, to: int, items: seq<Item>)
    requires KnownIds(w)
    ensures var (w', reply) := Apply(w, OpUpdateLeave(user, leave, from, to, items));
      var mine := leave in w.leaves && w.leaves[leave].user == user;
      var office := user in w.people && Office(w.people[user].role);
      && (reply == Done <==>
            && mine && w.leaves[leave].status == LeavePending
            && EachMay(WithLeave(w, user, leave, from, to, true), user, items, leave))
      && (reply == Done ==> Saved(w, w', user, leave, from, to, items, true))
      && (reply != Done ==> w' == w)
      && (reply == Refused(NotFound) <==> leave !in w.leaves || (!mine && !office))
      && (reply == Refused(Forbidden) <==> leave in w.leaves && !mine && office)
      && (reply == Refused(WrongStatus) <==> mine && w.leaves[leave].status != LeavePending)
  {
    hide Saved, EachMay, CreateMany, Linked, MarkAll, CutOff, ToCancel;
    CutOffIs(w.requests, leave, from, to);
    BatchIsSaved(w, user, leave, from, to, items, true);
    BatchNotPending(WithLeave(w, user, leave, from, to, true), user, items, leave);
  }

  /** Its own requests are cancelled where they were open, and untied when the leave itself is deleted. */
  function AfterEnding(row: Request, leave: LeaveId, deleted: bool): Request {
    if row.leave != Some(leave) then row
    else row.(status := if row.status == Pending || row.status == Accepted then Cancelled else row.status,
              leave := if deleted then None else Some(leave))
  }

  /** Nothing but this leave and the requests tied to it. */
  ghost predicate Ended(w: Tables, w': Tables, leave: LeaveId, deleted: bool) {
    && leave in w.leaves && w' == w.(requests := w'.requests, leaves := w'.leaves)
    && (forall l :: l in w'.leaves && l != leave <==> l in w.leaves && l != leave)
    && (forall l :: l in w.leaves && l != leave ==> w'.leaves[l] == w.leaves[l])
    && w'.requests.Keys == w.requests.Keys
    && forall j :: j in w.requests ==> w'.requests[j] == AfterEnding(w.requests[j], leave, deleted)
  }

  lemma EndedRows(rs: Requests, leave: LeaveId)
    ensures var ended := MarkAll(rs, ToCancel(rs, leave, None), Cancelled);
      && ended.Keys == rs.Keys && (forall j :: j in rs ==> ended[j] == AfterEnding(rs[j], leave, false))
      && Unlinked(ended, leave).Keys == rs.Keys
      && (forall j :: j in rs ==> Unlinked(ended, leave)[j] == AfterEnding(rs[j], leave, true))
  {
  }

  /** A pending leave can be deleted by its owner at any time; a leave that has not started also by its
      owner when it is approved and by the office. A pending one is gone, an approved one cancelled. */
  lemma DeleteLeaveOutcome(w: Tables, user: UserId, leave: LeaveId)
    ensures var (w', reply) := Apply(w, OpDeleteLeave(user, leave));
      var mine := leave in w.leaves && w.leaves[leave].user == user;
      var office := leave in w.leaves && user in w.people && Office(w.people[user].role);
      var stands := leave in w.leaves && w.leaves[leave].status in {LeavePending, LeaveApproved};
      && (reply == Done <==>
            && stands && (mine || office)
            && (w.today < w.leaves[leave].from || (mine && w.leaves[leave].status == LeavePending)))
      && (reply == Done && w.leaves[leave].status == LeavePending ==>
            Ended(w, w', leave, true) && leave !in w'.leaves)
      && (reply == Done && w.leaves[leave].status == LeaveApproved ==>
            Ended(w, w', leave, false) && leave in w'.leaves
            && w'.leaves[leave] == w.leaves[leave].(status := LeaveCancelled))
      && (reply != Done ==> w' == w)
      && (reply == Refused(NotFound) <==> !mine && !office)
      && (reply == Refused(WrongStatus) <==> (mine || office) && !stands)
      && (reply.Refused? ==> reply.error in {NotFound, WrongStatus, LeaveStarted})
  {
    EndedRows(w.requests, leave);
    hide MarkAll, ToCancel, Unlinked, AfterEnding;
  }

  /** Only a pending leave can be reviewed, and the decision is what is stored: after it the leave is no
      longer pending, so a second review of either kind is refused and its owner can ask again. An
      approval changes nothing else; a rejection cancels the open requests of the leave. */
  lemma ReviewLeaveOutcome(w: Tables, leave: LeaveId, approve: bool, again: bool)
    requires OnePendingLeave(w.leaves)
    ensures var (w', reply) := Apply(w, OpReviewLeave(leave, approve));
      && (reply == Done <==> leave in w.leaves && w.leaves[leave].status == LeavePending)
      && (reply == Done ==>
            && leave in w'.leaves && !PendingLeave(w'.leaves, w.leaves[leave].user)
            && w'.leaves[leave] == w.leaves[leave].(status := if approve then LeaveApproved else LeaveRejected)
            && Apply(w', OpReviewLeave(leave, again)) == (w', Refused(WrongStatus)))
      && (reply == Done && approve ==>
            && w' == w.(leaves := w'.leaves) && w'.leaves.Keys == w.leaves.Keys
            && forall l :: l in w.leaves && l != leave ==> w'.leaves[l] == w.leaves[l])
      && (reply == Done && !approve ==> Ended(w, w', leave, false))
      && (reply.Refused? ==> w' == w && reply.error == if leave in w.leaves then WrongStatus else NotFound)
  {
  }

  // ---------------------------------------------------------------- departures

  /** From today on, what was asked of whoever left is declined or withdrawn, what they asked for is
      cancelled. */
  function AfterLeaving(row: Request, user: UserId, today: int): Request {
    if row.date < today || (row.status != Pending && row.status != Accepted) then row
    else if row.substitute == user then row.(status := if row.status == Pending then Declined else Withdrawn)
    else if row.requester == user then row.(status := Cancelled)
    else row
  }

  /** Marking as left goes through exactly for somebody else's account that is still open, and for the
      office's accounts only by an admin. The account is closed; a student's timetable, requests and
      leaves are nobody's business here, those of staff are ended. */
  lemma MarkLeftOutcome(w: Tables, actor: UserId, user: UserId)
    ensures var (w', reply) := Apply(w, OpMarkLeft(actor, user));
      var known := user in w.people && actor != user;
      var office := user in w.people && w.people[user].role in {Admin, Principal, SubAdmin};
      var admin := actor in w.people && w.people[actor].role == Admin;
      && (reply == Done <==> known && (office ==> admin) && !w.people[user].left)
      && (reply == Done ==>
            && w' == w.(people := w'.people, slots := w'.slots, requests := w'.requests, leaves := w'.leaves)
            && w'.people == w.people[user := w.people[user].(active := false, left := true)])
      && (reply == Done && w.people[user].role == Student ==> w' == w.(people := w'.people))
      && (reply == Done && w.people[user].role != Student ==> TakenOff(w, w', user))
      && (reply != Done ==> w' == w)
      && (reply == Refused(NotFound) <==> user !in w.people)
      && (reply == Refused(OwnAccount) <==> user in w.people && actor == user)
      && (reply == Refused(Forbidden) <==> known && office && !admin)
  {
    hide Closed, CancelPending, TakenOff;
    if MarkLeft(w, actor, user).1 == Done && w.people[user].role != Student { StaffIsTakenOff(w, actor, user); }
  }

  /** Whatever else changes around the protocol, time alone never runs backwards. */
  lemma AnythingAround(w: Tables, w': Tables)
    requires w.today <= w'.today
    requires w' == w.(people := w'.people, slots := w'.slots, holidays := w'.holidays, starts := w'.starts,
                      today := w'.today, minute := w'.minute)
    ensures exists s :: Apply(w, OpSurroundings(s)) == (w', Done)
  {
    var s := Surroundings(w'.people, w'.slots, w'.holidays, w'.starts, w'.today - w.today, w'.minute);
    assert Apply(w, OpSurroundings(s)) == (w', Done);
  }

  ghost predicate TakenOff(w: Tables, w': Tables, user: UserId) {
    && (forall s :: s in w'.slots <==> s in w.slots && s.0 != user)
    && w'.requests.Keys == w.requests.Keys && w'.leaves.Keys == w.leaves.Keys
    && (forall j :: j in w.requests ==> w'.requests[j] == AfterLeaving(w.requests[j], user, w.today))
    && (forall l :: l in w.leaves ==>
          w'.leaves[l] == if w.leaves[l].user == user && w.leaves[l].status == LeavePending
                          then w.leaves[l].(status := LeaveCancelled) else w.leaves[l])
  }

  lemma ClosedRow(rs: Requests, user: UserId, today: int, j: RequestId)
    requires j in rs
    ensures j in Closed(rs, user, today) && Closed(rs, user, today)[j] == AfterLeaving(rs[j], user, today)
  {
  }

  lemma ClosedIds(rs: Requests, user: UserId, today: int)
    ensures Closed(rs, user, today).Keys == rs.Keys
  {
    hide OpenFrom;
  }

  lemma StaffIsTakenOff(w: Tables, actor: UserId, user: UserId)
    requires MarkLeft(w, actor, user).1 == Done && w.people[user].role != Student
    ensures TakenOff(w, MarkLeft(w, actor, user).0, user)
  {
    hide Closed, AfterLeaving;
    ClosedIds(w.requests, user, w.today);
    forall j | j in w.requests
      ensures Closed(w.requests, user, w.today)[j] == AfterLeaving(w.requests[j], user, w.today)
    {
      ClosedRow(w.requests, user, w.today, j);
    }
  }
}
