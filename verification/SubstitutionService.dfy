/** The substitution and leave protocol (services/substitutions.py, hr.py, leaving.py) one
    transaction at a time: what each transaction does to the tables, and what every run keeps.

    Dates are Python ordinals; a week starts on Monday (weekday 0). */
module SubstitutionService {
  import opened Calendar
  import opened Collections
  import opened SubstitutionRequests

  datatype Role = Admin | Principal | SubAdmin | Coordinator | Teacher | Driver | Student

  datatype Person = Person(role: Role, active: bool, left: bool)

  datatype LeaveStatus = LeavePending | LeaveApproved | LeaveRejected | LeaveCancelled

  datatype Leave = Leave(user: UserId, from: int, to: int, status: LeaveStatus)

  /** `slots` holds (teacher, weekday, period); `starts` the first minute of each timed period. */
  datatype Tables = Tables(
    requests: Requests, nextRequest: RequestId,
    leaves: map<LeaveId, Leave>, nextLeave: LeaveId,
    people: map<UserId, Person>, slots: set<(UserId, int, int)>, holidays: set<int>, starts: map<int, int>,
    today: int, minute: int)

  datatype Item = Item(day: int, period: int, substitute: UserId)

  datatype Error =
    | NotFound | Forbidden | PastDate | OnSunday | OnHoliday | NoClass | NoSubstitute | OwnSubstitute | NotFree
    | AlreadyCovered | AlreadyAsked | LeaveClosed | OutsideLeave | WrongStatus | PeriodStarted | LeaveStarted
    | PendingLeaveExists | OwnAccount | AlreadyLeft | ItemRefused(reason: Error)

  datatype Reply = Done | Refused(error: Error)

  datatype BusyReason = HasClass | IsCovering | OnLeave

  // -------------------------------------------------------------- queries

  predicate HasSlot(w: Tables, teacher: UserId, day: int, period: int) {
    (teacher, Weekday(day), period) in w.slots
  }

  predicate CoversPeriod(rs: Requests, teacher: UserId, day: int, period: int) {
    exists j :: j in rs && rs[j].substitute == teacher && rs[j].date == day && rs[j].period == period
                && rs[j].status == Accepted
  }

  predicate LeaveOpen(status: LeaveStatus) {
    status == LeavePending || status == LeaveApproved
  }

  predicate AwayOn(leaves: map<LeaveId, Leave>, user: UserId, day: int) {
    exists l :: l in leaves && leaves[l].user == user && LeaveOpen(leaves[l].status)
                && leaves[l].from <= day <= leaves[l].to
  }

  /** Why a teacher can't cover a period (None = free). */
  function Busy(w: Tables, teacher: UserId, day: int, period: int): Option<BusyReason> {
    if HasSlot(w, teacher, day, period) then Some(HasClass)
    else if CoversPeriod(w.requests, teacher, day, period) then Some(IsCovering)
    else if AwayOn(w.leaves, teacher, day) then Some(OnLeave)
    else None
  }

  predicate PeriodCovered(rs: Requests, requester: UserId, day: int, period: int) {
    exists j :: j in rs && rs[j].requester == requester && rs[j].date == day && rs[j].period == period
                && rs[j].status == Accepted
  }

  predicate Asked(rs: Requests, requester: UserId, substitute: UserId, day: int, period: int) {
    exists j :: j in rs && rs[j].requester == requester && rs[j].substitute == substitute
                && rs[j].date == day && rs[j].period == period && Open(rs[j].status)
  }

  predicate PendingLeave(leaves: map<LeaveId, Leave>, user: UserId) {
    exists l :: l in leaves && leaves[l].user == user && leaves[l].status == LeavePending
  }

  predicate Manages(role: Role) {
    role.Admin? || role.Principal? || role.SubAdmin? || role.Coordinator?
  }

  predicate IsManager(w: Tables, user: UserId) {
    user in w.people && Manages(w.people[user].role)
  }

  /** Accounts only an admin may create or close. */
  predicate AdminManaged(role: Role) {
    role.Admin? || role.Principal? || role.SubAdmin?
  }

  /** Accepted, and the period has not started (or, without timings, the day has not passed). */
  predicate CanWithdraw(w: Tables, row: Request) {
    && row.status == Accepted
    && if row.period in w.starts then row.date > w.today || (row.date == w.today && w.minute < w.starts[row.period])
       else row.date >= w.today
  }

  // --------------------------------------------------- table-level updates

  function MarkAll(rs: Requests, ids: set<RequestId>, status: Status): Requests {
    map j | j in rs :: if j in ids then rs[j].(status := status) else rs[j]
  }

  function Rivals(rs: Requests, id: RequestId): set<RequestId>
    requires id in rs
  {
    set j | j in rs && j != id && SamePeriod(rs[j], rs[id]) && rs[j].status == Pending
  }

  /** The open requests of a leave outside keepFrom..keepTo (all of them when `keep` is None). */
  function ToCancel(rs: Requests, leave: LeaveId, keep: Option<(int, int)>): set<RequestId> {
    set j | j in rs && rs[j].leave == Some(leave) && Open(rs[j].status)
            && (keep.Some? ==> rs[j].date < keep.value.0 || rs[j].date > keep.value.1)
  }

  function Linked(rs: Requests, requester: UserId, leave: LeaveId, from: int, to: int): Requests {
    map j | j in rs ::
      if rs[j].requester == requester && rs[j].leave == None && Open(rs[j].status) && from <= rs[j].date <= to
      then rs[j].(leave := Some(leave)) else rs[j]
  }

  /** ON DELETE SET NULL on leave_id. */
  function Unlinked(rs: Requests, leave: LeaveId): Requests {
    map j | j in rs :: if rs[j].leave == Some(leave) then rs[j].(leave := None) else rs[j]
  }

  function Without(leaves: map<LeaveId, Leave>, leave: LeaveId): map<LeaveId, Leave> {
    map l | l in leaves && l != leave :: leaves[l]
  }

  // ---------------------------------------------------------- transactions

  /** The checks of `create`, in its order. */
  function CreateError(w: Tables, requester: UserId, item: Item, leave: Option<LeaveId>): Option<Error> {
    var Item(day, period, substitute) := item;
    if day < w.today then Some(PastDate)
    else if Weekday(day) == SUNDAY then Some(OnSunday)
    else if day in w.holidays then Some(OnHoliday)
    else if !HasSlot(w, requester, day, period) then Some(NoClass)
    else if substitute !in w.people || w.people[substitute].role != Teacher || !w.people[substitute].active
    then Some(NoSubstitute)
    else if substitute == requester then Some(OwnSubstitute)
    else if Busy(w, substitute, day, period).Some? then Some(NotFree)
    else if PeriodCovered(w.requests, requester, day, period) then Some(AlreadyCovered)
    else if Asked(w.requests, requester, substitute, day, period) then Some(AlreadyAsked)
    else if leave.None? then None
    else if leave.value !in w.leaves || w.leaves[leave.value].user != requester then Some(NotFound)
    else if !LeaveOpen(w.leaves[leave.value].status) then Some(LeaveClosed)
    else if !(w.leaves[leave.value].from <= day <= w.leaves[leave.value].to) then Some(OutsideLeave)
    else None
  }

  function Inserted(w: Tables, requester: UserId, item: Item, leave: Option<LeaveId>): Tables {
    w.(requests := w.requests[w.nextRequest :=
         Request(requester, item.substitute, item.day, item.period, leave, Pending)],
       nextRequest := w.nextRequest + 1)
  }

  function CreateRequest(w: Tables, user: UserId, teacher: Option<UserId>, item: Item, leave: Option<LeaveId>)
    : (Tables, Reply)
  {
    var requester := if teacher.Some? then teacher.value else user;
    if requester != user && !IsManager(w, user) then (w, Refused(Forbidden))
    else if requester !in w.people || !w.people[requester].active
            || !(Manages(w.people[requester].role) || w.people[requester].role.Teacher?)
    then (w, Refused(NotFound))
    else if CreateError(w, requester, item, leave).Some?
    then (w, Refused(CreateError(w, requester, item, leave).value))
    else (Inserted(w, requester, item, leave), Done)
  }

  /** `create_many`: every item or none. */
  function CreateMany(w: Tables, requester: UserId, items: seq<Item>, leave: LeaveId): (Tables, Reply)
    decreases |items|
  {
    if items == [] then (w, Done)
    else
      var e := CreateError(w, requester, items[0], Some(leave));
      if e.Some? then (w, Refused(ItemRefused(e.value)))
      else CreateMany(Inserted(w, requester, items[0], Some(leave)), requester, items[1..], leave)
  }

  /** `_only_substitute`: what somebody else is told; strangers do not learn that the request exists. */
  function NotYours(w: Tables, user: UserId, row: Request): Error {
    if user == row.requester || IsManager(w, user) then Forbidden else NotFound
  }

  function Accept(w: Tables, user: UserId, id: RequestId): (Tables, Reply) {
    if id !in w.requests then (w, Refused(NotFound))
    else
      var row := w.requests[id];
      if row.substitute != user then (w, Refused(NotYours(w, user, row)))
      else if row.status != Pending then (w, Refused(WrongStatus))
      else if PeriodCovered(w.requests, row.requester, row.date, row.period)
      then (w.(requests := MarkAll(w.requests, {id}, Filled)), Refused(AlreadyCovered))
      else if Busy(w, user, row.date, row.period).Some? then (w, Refused(NotFree))
      else (w.(requests := MarkAll(MarkAll(w.requests, {id}, Accepted), Rivals(w.requests, id), Filled)), Done)
  }

  function Decline(w: Tables, user: UserId, id: RequestId): (Tables, Reply) {
    if id !in w.requests then (w, Refused(NotFound))
    else if w.requests[id].substitute != user then (w, Refused(NotYours(w, user, w.requests[id])))
    else if w.requests[id].status != Pending then (w, Refused(WrongStatus))
    else (w.(requests := MarkAll(w.requests, {id}, Declined)), Done)
  }

  function Withdraw(w: Tables, user: UserId, id: RequestId): (Tables, Reply) {
    if id !in w.requests then (w, Refused(NotFound))
    else if w.requests[id].substitute != user then (w, Refused(NotYours(w, user, w.requests[id])))
    else if w.requests[id].status != Accepted then (w, Refused(WrongStatus))
    else if !CanWithdraw(w, w.requests[id]) then (w, Refused(PeriodStarted))
    else (w.(requests := MarkAll(w.requests, {id}, Withdrawn)), Done)
  }

  function Cancel(w: Tables, user: UserId, id: RequestId): (Tables, Reply) {
    if id !in w.requests then (w, Refused(NotFound))
    else if w.requests[id].requester != user && !IsManager(w, user)
    then (w, Refused(if w.requests[id].substitute == user then Forbidden else NotFound))
    else if !Open(w.requests[id].status) then (w, Refused(WrongStatus))
    else (w.(requests := MarkAll(w.requests, {id}, Cancelled)), Done)
  }

  function RequestLeave(w: Tables, user: UserId, from: int, to: int, items: seq<Item>): (Tables, Reply) {
    if PendingLeave(w.leaves, user) then (w, Refused(PendingLeaveExists))
    else
      var leave := w.nextLeave;
      var w1 := w.(leaves := w.leaves[leave := Leave(user, from, to, LeavePending)], nextLeave := leave + 1);
      var (w2, reply) := CreateMany(w1, user, items, leave);
      if reply.Refused? then (w, reply)
      else (w2.(requests := Linked(w2.requests, user, leave, from, to)), Done)
  }

  predicate Visible(w: Tables, user: UserId, leave: LeaveId) {
    leave in w.leaves && (w.leaves[leave].user == user || IsManager(w, user))
  }

  function UpdateLeave(w: Tables, user: UserId, leave: LeaveId, from: int, to: int, items: seq<Item>)
    : (Tables, Reply)
  {
    if !Visible(w, user, leave) then (w, Refused(NotFound))
    else if w.leaves[leave].user != user then (w, Refused(Forbidden))
    else if w.leaves[leave].status != LeavePending then (w, Refused(WrongStatus))
    else
      var w1 := w.(leaves := w.leaves[leave := w.leaves[leave].(from := from, to := to)],
                   requests := MarkAll(w.requests, ToCancel(w.requests, leave, Some((from, to))), Cancelled));
      var (w2, reply) := CreateMany(w1, user, items, leave);
      if reply.Refused? then (w, reply)
      else (w2.(requests := Linked(w2.requests, user, leave, from, to)), Done)
  }

  function DeleteLeave(w: Tables, user: UserId, leave: LeaveId): (Tables, Reply) {
    if !Visible(w, user, leave) then (w, Refused(NotFound))
    else
      var row := w.leaves[leave];
      if !LeaveOpen(row.status) then (w, Refused(WrongStatus))
      else if !(row.user == user && (row.status == LeavePending || row.from > w.today))
              && !(IsManager(w, user) && row.from > w.today) then (w, Refused(LeaveStarted))
      else
        var rs := MarkAll(w.requests, ToCancel(w.requests, leave, None), Cancelled);
        if row.status == LeavePending
        then (w.(requests := Unlinked(rs, leave), leaves := Without(w.leaves, leave)), Done)
        else (w.(requests := rs, leaves := w.leaves[leave := row.(status := LeaveCancelled)]), Done)
  }

  function ReviewLeave(w: Tables, leave: LeaveId, approve: bool): (Tables, Reply) {
    if leave !in w.leaves then (w, Refused(NotFound))
    else if w.leaves[leave].status != LeavePending then (w, Refused(WrongStatus))
    else if approve
    then (w.(leaves := w.leaves[leave := w.leaves[leave].(status := LeaveApproved)]), Done)
    else (w.(leaves := w.leaves[leave := w.leaves[leave].(status := LeaveRejected)],
             requests := MarkAll(w.requests, ToCancel(w.requests, leave, None), Cancelled)), Done)
  }

  /** Asked or covering (`asRequester` false), or asking, from `today` on. */
  function OpenFrom(rs: Requests, user: UserId, today: int, asRequester: bool, statuses: set<Status>): set<RequestId> {
    set j | j in rs && (if asRequester then rs[j].requester else rs[j].substitute) == user
            && rs[j].status in statuses && rs[j].date >= today
  }

  function Closed(rs: Requests, user: UserId, today: int): Requests {
    var rs1 := MarkAll(rs, OpenFrom(rs, user, today, false, {Pending}), Declined);
    var rs2 := MarkAll(rs1, OpenFrom(rs1, user, today, false, {Accepted}), Withdrawn);
    MarkAll(rs2, OpenFrom(rs2, user, today, true, {Pending, Accepted}), Cancelled)
  }

  function CancelPending(leaves: map<LeaveId, Leave>, user: UserId): map<LeaveId, Leave> {
    map l | l in leaves ::
      if leaves[l].user == user && leaves[l].status == LeavePending
      then leaves[l].(status := LeaveCancelled) else leaves[l]
  }

  /** The part of `mark_left` that concerns staff: timetable, requests and pending leaves. */
  function MarkLeft(w: Tables, actor: UserId, user: UserId): (Tables, Reply) {
    if user !in w.people then (w, Refused(NotFound))
    else if actor == user then (w, Refused(OwnAccount))
    else if AdminManaged(w.people[user].role) && !(actor in w.people && w.people[actor].role.Admin?)
    then (w, Refused(Forbidden))
    else if w.people[user].left then (w, Refused(AlreadyLeft))
    else
      var gone := w.people[user := w.people[user].(active := false, left := true)];
      if w.people[user].role == Student then (w.(people := gone), Done)
      else
        (w.(people := gone,
            slots := (set s | s in w.slots && s.0 != user),
            requests := Closed(w.requests, user, w.today),
            leaves := CancelPending(w.leaves, user)), Done)
  }

  /** Everything else that changes what the protocol reads: accounts, timetable, holidays,
      timings, and time itself, which never runs backwards. */
  datatype Surroundings = Surroundings(
    people: map<UserId, Person>, slots: set<(UserId, int, int)>, holidays: set<int>, starts: map<int, int>,
    days: nat, minute: int)

  datatype Op =
    | OpCreate(user: UserId, teacher: Option<UserId>, item: Item, leave: Option<LeaveId>)
    | OpAccept(user: UserId, id: RequestId)
    | OpDecline(user: UserId, id: RequestId)
    | OpWithdraw(user: UserId, id: RequestId)
    | OpCancel(user: UserId, id: RequestId)
    | OpRequestLeave(user: UserId, from: int, to: int, items: seq<Item>)
    | OpUpdateLeave(user: UserId, leaveId: LeaveId, from: int, to: int, items: seq<Item>)
    | OpDeleteLeave(user: UserId, leaveId: LeaveId)
    | OpReviewLeave(leaveId: LeaveId, approve: bool)
    | OpMarkLeft(actor: UserId, user: UserId)
    | OpSurroundings(s: Surroundings)

  function Apply(w: Tables, op: Op): (Tables, Reply) {
    match op
    case OpCreate(user, teacher, item, leave) => CreateRequest(w, user, teacher, item, leave)
    case OpAccept(user, id) => Accept(w, user, id)
    case OpDecline(user, id) => Decline(w, user, id)
    case OpWithdraw(user, id) => Withdraw(w, user, id)
    case OpCancel(user, id) => Cancel(w, user, id)
    case OpRequestLeave(user, from, to, items) => RequestLeave(w, user, from, to, items)
    case OpUpdateLeave(user, leave, from, to, items) => UpdateLeave(w, user, leave, from, to, items)
    case OpDeleteLeave(user, leave) => DeleteLeave(w, user, leave)
    case OpReviewLeave(leave, approve) => ReviewLeave(w, leave, approve)
    case OpMarkLeft(actor, user) => MarkLeft(w, actor, user)
    case OpSurroundings(s) =>
      (w.(people := s.people, slots := s.slots, holidays := s.holidays, starts := s.starts,
          today := w.today + s.days, minute := s.minute), Done)
  }

  function Run(w: Tables, ops: seq<Op>): Tables
    decreases |ops|
  {
    if ops == [] then w else Run(Apply(w, ops[0]).0, ops[1..])
  }
}
