/** The services as they run: tables updated in place, one transaction a method, every exception
    rolling its transaction back. Each method refines the transaction of the same name, and says what
    it leaves behind: the invariant, the history, and who may find what changed. */
module SubstitutionTables {
  import opened Calendar
  import opened Collections
  import opened SubstitutionProtocol
  import opened SubstitutionRequests
  import opened SubstitutionService

  /** What a whole transaction on sound tables promises, refused or not. */
  ghost predicate Sound(w: Tables, op: Op, w': Tables, reply: Reply) {
    Inv(w) ==>
      && Inv(w') && History(w.requests, w'.requests)
      && ChangesHaveCause(w, op, w'.requests)
      && (reply != Done ==> w' == w)
  }

  lemma RefusedChangesNothing(w: Tables, op: Op)
    requires Inv(w) && Apply(w, op).1 != Done
    ensures Apply(w, op).0 == w
  {
    if op.OpAccept? { AcceptSucceedsIff(w, op.user, op.id); }
    hide Inv, CreateMany, CreateError, Busy;
  }

  lemma ApplyIsSound(w: Tables, op: Op)
    ensures Sound(w, op, Apply(w, op).0, Apply(w, op).1)
  {
    hide Inv, History, Apply, ChangesHaveCause;
    if Inv(w) {
      ApplyKeeps(w, op);
      StatusChangesForCause(w, op);
      if Apply(w, op).1 != Done { RefusedChangesNothing(w, op); }
    }
  }

  /** Row `j` kept its place and everything but its status. */
  predicate Became(rs: Requests, rs': Requests, j: RequestId, status: Status)
    requires j in rs && j in rs'
  {
    rs'[j] == rs[j].(status := status)
  }

  lemma DepartureIsClean(w: Tables, actor: UserId, user: UserId)
    ensures var (w', reply) := Apply(w, OpMarkLeft(actor, user));
      Inv(w) && reply == Done && w.people[user].role != Student ==> GoneFrom(w', user)
  {
    hide Inv, GoneFrom, Closed;
    if Inv(w) && MarkLeft(w, actor, user).1 == Done && w.people[user].role != Student {
      DepartureLeavesNothingOpen(w, actor, user);
    }
  }

  lemma SavingIsSound(w: Tables, user: UserId, op: Op, from: int, to: int, items: seq<Item>)
    requires op == OpRequestLeave(user, from, to, items)
             || (op.OpUpdateLeave? && op == OpUpdateLeave(user, op.leaveId, from, to, items))
    ensures var (w', reply) := Apply(w, op);
      Sound(w, op, w', reply) && (Inv(w) && reply == Done ==> SavedWith(w', user, from, to, items))
  {
    hide *;
    ApplyIsSound(w, op);
    if Inv(w) && Apply(w, op).1 == Done { SavedLeaveAdopts(w, user, op, from, to, items); }
  }

  lemma AllAsked(w: Tables, requester: UserId, items: seq<Item>, leave: LeaveId)
    ensures var (w', reply) := CreateMany(w, requester, items, leave); Inv(w) && reply == Done ==>
      && (forall k :: 0 <= k < |items| ==>
            Asked(w'.requests, requester, items[k].substitute, items[k].day, items[k].period))
      && (forall j :: j in w.requests ==> j in w'.requests && w'.requests[j] == w.requests[j])
  {
    hide CreateMany, Inv, Asked;
    if Inv(w) && CreateMany(w, requester, items, leave).1 == Done {
      forall k | 0 <= k < |items| { EveryItemAsked(w, requester, items, leave, k); }
      forall j | j in w.requests { StillPending(w, requester, items, leave, j); }
    }
  }

  class Store {
    var requests: Requests
    var nextRequest: RequestId
    var leaves: map<LeaveId, Leave>
    var nextLeave: LeaveId
    var people: map<UserId, Person>
    var slots: set<(UserId, int, int)>
    var holidays: set<int>
    var starts: map<int, int>
    var today: int
    var minute: int

    function View(): Tables
      reads this
    {
      Tables(requests, nextRequest, leaves, nextLeave, people, slots, holidays, starts, today, minute)
    }

    /** `create`: the checks in order, then the INSERT. */
    method Create(requester: UserId, item: Item, leave: Option<LeaveId>) returns (error: Option<Error>)
      modifies this
      ensures error == CreateError(old(View()), requester, item, leave)
      ensures View() == if error.None? then Inserted(old(View()), requester, item, leave) else old(View())
    {
      if item.day < today { return Some(PastDate); }
      if Weekday(item.day) == SUNDAY { return Some(OnSunday); }
      if item.day in holidays { return Some(OnHoliday); }
      if (requester, Weekday(item.day), item.period) !in slots { return Some(NoClass); }
      if item.substitute !in people || people[item.substitute].role != Teacher || !people[item.substitute].active {
        return Some(NoSubstitute);
      }
      if item.substitute == requester { return Some(OwnSubstitute); }
      if Busy(View(), item.substitute, item.day, item.period).Some? { return Some(NotFree); }
      if PeriodCovered(requests, requester, item.day, item.period) { return Some(AlreadyCovered); }
      if Asked(requests, requester, item.substitute, item.day, item.period) { return Some(AlreadyAsked); }
      if leave.Some? {
        if leave.value !in leaves || leaves[leave.value].user != requester { return Some(NotFound); }
        if !LeaveOpen(leaves[leave.value].status) { return Some(LeaveClosed); }
        if !(leaves[leave.value].from <= item.day <= leaves[leave.value].to) { return Some(OutsideLeave); }
      }
      requests := requests[nextRequest := Request(requester, item.substitute, item.day, item.period, leave, Pending)];
      nextRequest := nextRequest + 1;
      return None;
    }

    method CreateRequest(user: UserId, teacher: Option<UserId>, item: Item, leave: Option<LeaveId>)
      returns (reply: Reply)
      modifies this
      ensures (View(), reply) == Apply(old(View()), OpCreate(user, teacher, item, leave))
      ensures Sound(old(View()), OpCreate(user, teacher, item, leave), View(), reply)
    {
      ApplyIsSound(View(), OpCreate(user, teacher, item, leave));
      hide Sound, CreateError;
      var requester := if teacher.Some? then teacher.value else user;
      if requester != user && !IsManager(View(), user) { return Refused(Forbidden); }
      if requester !in people || !people[requester].active
         || !(Manages(people[requester].role) || people[requester].role.Teacher?) { return Refused(NotFound); }
      var error := Create(requester, item, leave);
      reply := if error.Some? then Refused(error.value) else Done;
    }

    /** `create_many`: asks item by item and stops at the first refusal. */
    method CreateMany(requester: UserId, items: seq<Item>, leave: LeaveId) returns (reply: Reply)
      modifies this
      ensures reply == SubstitutionService.CreateMany(old(View()), requester, items, leave).1
      ensures reply == Done ==> View() == SubstitutionService.CreateMany(old(View()), requester, items, leave).0
      ensures Inv(old(View())) && reply == Done ==>
        && forall k :: 0 <= k < |items| ==>
            Asked(requests, requester, items[k].substitute, items[k].day, items[k].period)
      ensures Inv(old(View())) && reply == Done ==>
        && forall j :: j in old(requests) ==> j in requests && requests[j] == old(requests)[j]
    {
      AllAsked(View(), requester, items, leave);
      hide CreateError, Inv, Asked;
      ghost var goal := SubstitutionService.CreateMany(View(), requester, items, leave);
      for i := 0 to |items|
        invariant SubstitutionService.CreateMany(View(), requester, items[i..], leave) == goal
      {
        assert items[i..][0] == items[i] && items[i..][1..] == items[i + 1..];
        var error := Create(requester, items[i], Some(leave));
        if error.Some? { return Refused(ItemRefused(error.value)); }
      }
      reply := Done;
    }

    /** `_fill_others`: the ids first, then one UPDATE. Nobody else is pending for the period any more,
        nobody was filled who was not, and every other row is as it was. */
    method FillOthers(id: RequestId)
      requires id in requests
      modifies this`requests
      ensures requests.Keys == old(requests).Keys && requests[id] == old(requests)[id]
      ensures forall j :: j in requests && j != id && SamePeriod(requests[j], requests[id]) ==>
          requests[j].status != Pending
      ensures forall j :: j in requests && requests[j] != old(requests)[j] ==>
        && SamePeriod(requests[j], requests[id]) && old(requests)[j].status == Pending
        && Became(old(requests), requests, j, Filled)
    {
      var others := Rivals(requests, id);
      if others != {} { requests := MarkAll(requests, others, Filled); }
      assert forall j :: j in old(requests) && j !in others ==> requests[j] == old(requests)[j];
    }

    method Accept(user: UserId, id: RequestId) returns (reply: Reply)
      modifies this`requests
      ensures (View(), reply) == Apply(old(View()), OpAccept(user, id))
      ensures Sound(old(View()), OpAccept(user, id), View(), reply)
      ensures reply == Done ==> id in requests && requests[id].substitute == user && requests[id].status == Accepted
      ensures reply == Done ==>
        forall j :: j in requests && SamePeriod(requests[j], requests[id]) ==> requests[j].status != Pending
    {
      ApplyIsSound(View(), OpAccept(user, id));
      hide Sound, Busy, PeriodCovered;
      if id !in requests { return Refused(NotFound); }
      var row := requests[id];
      if row.substitute != user { return Refused(NotYours(View(), user, row)); }
      if row.status != Pending { return Refused(WrongStatus); }
      ghost var before := requests;
      if PeriodCovered(requests, row.requester, row.date, row.period) {
        requests := requests[id := row.(status := Filled)];
        assert requests == MarkAll(before, {id}, Filled);
        return Refused(AlreadyCovered);
      }
      if Busy(View(), user, row.date, row.period).Some? { return Refused(NotFree); }
      requests := requests[id := row.(status := Accepted)];
      ghost var mine := requests;
      assert mine == MarkAll(before, {id}, Accepted);
      FillOthers(id);
      reply := Done;
      assert requests == MarkAll(mine, Rivals(before, id), Filled);
    }

    method Decline(user: UserId, id: RequestId) returns (reply: Reply)
      modifies this`requests
      ensures (View(), reply) == Apply(old(View()), OpDecline(user, id))
      ensures Sound(old(View()), OpDecline(user, id), View(), reply)
    {
      ApplyIsSound(View(), OpDecline(user, id));
      hide Sound, Inv;
      if id !in requests { return Refused(NotFound); }
      if requests[id].substitute != user { return Refused(NotYours(View(), user, requests[id])); }
      if requests[id].status != Pending { return Refused(WrongStatus); }
      requests := requests[id := requests[id].(status := Declined)];
      assert requests == MarkAll(old(requests), {id}, Declined);
      reply := Done;
    }

    method Withdraw(user: UserId, id: RequestId) returns (reply: Reply)
      modifies this`requests
      ensures (View(), reply) == Apply(old(View()), OpWithdraw(user, id))
      ensures Sound(old(View()), OpWithdraw(user, id), View(), reply)
      ensures Inv(old(View())) && reply == Done ==>
        && id in requests && !PeriodCovered(requests, requests[id].requester, requests[id].date, requests[id].period)
        && !CoversPeriod(requests, user, requests[id].date, requests[id].period)
    {
      ApplyIsSound(View(), OpWithdraw(user, id));
      ghost var w := View();
      if Inv(w) && SubstitutionService.Withdraw(w, user, id).1 == Done { WithdrawUncovers(w, user, id); }
      hide Sound, Inv;
      if id !in requests { return Refused(NotFound); }
      if requests[id].substitute != user { return Refused(NotYours(View(), user, requests[id])); }
      if requests[id].status != Accepted { return Refused(WrongStatus); }
      if !CanWithdraw(View(), requests[id]) { return Refused(PeriodStarted); }
      requests := requests[id := requests[id].(status := Withdrawn)];
      assert requests == MarkAll(old(requests), {id}, Withdrawn);
      reply := Done;
    }

    method Cancel(user: UserId, id: RequestId) returns (reply: Reply)
      modifies this`requests
      ensures (View(), reply) == Apply(old(View()), OpCancel(user, id))
      ensures Sound(old(View()), OpCancel(user, id), View(), reply)
    {
      ApplyIsSound(View(), OpCancel(user, id));
      hide Sound, Inv;
      if id !in requests { return Refused(NotFound); }
      if requests[id].requester != user && !IsManager(View(), user) {
        return Refused(if requests[id].substitute == user then Forbidden else NotFound);
      }
      if !Open(requests[id].status) { return Refused(WrongStatus); }
      requests := requests[id := requests[id].(status := Cancelled)];
      assert requests == MarkAll(old(requests), {id}, Cancelled);
      reply := Done;
    }

    /** `cancel_for_leave`: the ids first, then one UPDATE. No request of the leave outside `keep` stays
        open, none of another leave or inside `keep` is touched, and the count is right. */
    method CancelForLeave(leave: LeaveId, keep: Option<(int, int)>) returns (count: nat)
      modifies this`requests
      ensures requests.Keys == old(requests).Keys
      ensures forall j :: j in requests && requests[j].leave == Some(leave) && Open(requests[j].status) ==>
        keep.Some? && keep.value.0 <= requests[j].date <= keep.value.1
      ensures forall j :: j in requests && requests[j] != old(requests)[j] ==>
        && requests[j].leave == Some(leave) && Open(old(requests)[j].status)
        && (keep.None? || !(keep.value.0 <= requests[j].date <= keep.value.1))
        && Became(old(requests), requests, j, Cancelled)
      ensures count == |set j | j in requests && requests[j] != old(requests)[j]|
    {
      var ids := ToCancel(requests, leave, keep);
      if ids != {} { requests := MarkAll(requests, ids, Cancelled); }
      assert forall j :: j in requests && j !in ids ==> requests[j] == old(requests)[j];
      count := |ids|;
      assert ids == set j | j in requests && requests[j] != old(requests)[j];
    }

    /** So it is the protocol's cascade. */
    lemma CascadeIs(before: Requests, after: Requests, leave: LeaveId, keep: Option<(int, int)>)
      requires after.Keys == before.Keys
      requires forall j :: j in after && after[j].leave == Some(leave) && Open(after[j].status) ==>
        keep.Some? && keep.value.0 <= after[j].date <= keep.value.1
      requires forall j :: j in after && after[j] != before[j] ==>
        && after[j].leave == Some(leave) && Open(before[j].status)
        && (keep.None? || !(keep.value.0 <= after[j].date <= keep.value.1)) && Became(before, after, j, Cancelled)
      ensures after == MarkAll(before, ToCancel(before, leave, keep), Cancelled)
    {
      forall j | j in before ensures after[j] == MarkAll(before, ToCancel(before, leave, keep), Cancelled)[j] {
        if j in ToCancel(before, leave, keep) { assert after[j] != before[j]; }
      }
    }

    method RequestLeave(user: UserId, from: int, to: int, items: seq<Item>) returns (reply: Reply)
      modifies this
      ensures (View(), reply) == Apply(old(View()), OpRequestLeave(user, from, to, items))
      ensures Sound(old(View()), OpRequestLeave(user, from, to, items), View(), reply)
      ensures Inv(old(View())) && reply == Done ==> SavedWith(View(), user, from, to, items)
    {
      hide Sound, Inv, SavedWith, CreateError, Asked, Linked, MarkAll;
      SavingIsSound(View(), user, OpRequestLeave(user, from, to, items), from, to, items);
      if PendingLeave(leaves, user) { return Refused(PendingLeaveExists); }
      var saved := View();
      var leave := nextLeave;
      leaves, nextLeave := leaves[leave := Leave(user, from, to, LeavePending)], leave + 1;
      reply := CreateMany(user, items, leave);
      if reply.Refused? {
        RollBack(saved);
      } else {
        requests := Linked(requests, user, leave, from, to);
      }
    }

    method UpdateLeave(user: UserId, leave: LeaveId, from: int, to: int, items: seq<Item>) returns (reply: Reply)
      modifies this
      ensures (View(), reply) == Apply(old(View()), OpUpdateLeave(user, leave, from, to, items))
      ensures Sound(old(View()), OpUpdateLeave(user, leave, from, to, items), View(), reply)
      ensures Inv(old(View())) && reply == Done ==> SavedWith(View(), user, from, to, items)
    {
      hide Sound, Inv, SavedWith, CreateError, Asked, Linked, MarkAll;
      SavingIsSound(View(), user, OpUpdateLeave(user, leave, from, to, items), from, to, items);
      if !Visible(View(), user, leave) { return Refused(NotFound); }
      if leaves[leave].user != user { return Refused(Forbidden); }
      if leaves[leave].status != LeavePending { return Refused(WrongStatus); }
      var saved := View();
      leaves := leaves[leave := leaves[leave].(from := from, to := to)];
      var _ := CancelForLeave(leave, Some((from, to)));
      CascadeIs(saved.requests, requests, leave, Some((from, to)));
      reply := CreateMany(user, items, leave);
      if reply.Refused? {
        RollBack(saved);
      } else {
        requests := Linked(requests, user, leave, from, to);
      }
    }

    method RollBack(saved: Tables)
      modifies this
      ensures View() == saved
    {
      requests, nextRequest, leaves, nextLeave := saved.requests, saved.nextRequest, saved.leaves, saved.nextLeave;
      people, slots, holidays, starts := saved.people, saved.slots, saved.holidays, saved.starts;
      today, minute := saved.today, saved.minute;
    }

    method DeleteLeave(user: UserId, leave: LeaveId) returns (reply: Reply)
      modifies this`requests, this`leaves
      ensures (View(), reply) == Apply(old(View()), OpDeleteLeave(user, leave))
      ensures Sound(old(View()), OpDeleteLeave(user, leave), View(), reply)
      ensures Inv(old(View())) && reply == Done ==> EndedWithout(old(View()), View(), leave)
    {
      ApplyIsSound(View(), OpDeleteLeave(user, leave));
      ghost var w, op := View(), OpDeleteLeave(user, leave);
      if Inv(w) && Apply(w, op).1 == Done { EndedLeaveLeavesNothing(w, user, leave, op); }
      hide Sound, Inv, EndedWithout;
      ghost var before := requests;
      if !Visible(View(), user, leave) { return Refused(NotFound); }
      var row := leaves[leave];
      var isOwner, notStarted := row.user == user, row.from > today;
      if !LeaveOpen(row.status) { return Refused(WrongStatus); }
      if !(isOwner && (row.status == LeavePending || notStarted)) && !(IsManager(View(), user) && notStarted) {
        return Refused(LeaveStarted);
      }
      var _ := CancelForLeave(leave, None);
      CascadeIs(before, requests, leave, None);
      if row.status == LeavePending {
        leaves, requests := Without(leaves, leave), Unlinked(requests, leave);
      } else {
        leaves := leaves[leave := row.(status := LeaveCancelled)];
      }
      reply := Done;
    }

    method ReviewLeave(leave: LeaveId, approve: bool) returns (reply: Reply)
      modifies this`requests, this`leaves
      ensures (View(), reply) == Apply(old(View()), OpReviewLeave(leave, approve))
      ensures Sound(old(View()), OpReviewLeave(leave, approve), View(), reply)
      ensures reply == Done ==>
        leave in old(leaves) && old(leaves)[leave].status == LeavePending
        && var decided := if approve then LeaveApproved else LeaveRejected;
           leaves == old(leaves)[leave := old(leaves)[leave].(status := decided)]
      ensures approve ==> requests == old(requests)
      ensures Inv(old(View())) && reply == Done && !approve ==> EndedWithout(old(View()), View(), leave)
    {
      ApplyIsSound(View(), OpReviewLeave(leave, approve));
      ghost var w, op := View(), OpReviewLeave(leave, approve);
      if Inv(w) && Apply(w, op).1 == Done && !approve { EndedLeaveLeavesNothing(w, 0, leave, op); }
      hide Sound, Inv, EndedWithout;
      if leave !in leaves { return Refused(NotFound); }
      if leaves[leave].status != LeavePending { return Refused(WrongStatus); }
      leaves := leaves[leave := leaves[leave].(status := if approve then LeaveApproved else LeaveRejected)];
      if !approve {
        ghost var before := requests;
        var _ := CancelForLeave(leave, None);
        CascadeIs(before, requests, leave, None);
      }
      reply := Done;
    }

    /** `_close_open_substitutions`: three UPDATEs in sequence. */
    method CloseOpenSubstitutions(user: UserId)
      modifies this`requests
      ensures requests == Closed(old(requests), user, today)
    {
      requests := MarkAll(requests, OpenFrom(requests, user, today, false, {Pending}), Declined);
      requests := MarkAll(requests, OpenFrom(requests, user, today, false, {Accepted}), Withdrawn);
      requests := MarkAll(requests, OpenFrom(requests, user, today, true, {Pending, Accepted}), Cancelled);
    }

    /** What staff who leave are taken off: their periods, open requests and pending leaves. */
    method TakeOff(user: UserId)
      modifies this`slots, this`requests, this`leaves
      ensures slots == set s | s in old(slots) && s.0 != user
      ensures requests == Closed(old(requests), user, today)
      ensures leaves == CancelPending(old(leaves), user)
    {
      hide Closed;
      slots := set s | s in slots && s.0 != user;
      CloseOpenSubstitutions(user);
      leaves := CancelPending(leaves, user);
    }

    method MarkLeft(actor: UserId, user: UserId) returns (reply: Reply)
      modifies this
      ensures (View(), reply) == Apply(old(View()), OpMarkLeft(actor, user))
      ensures Sound(old(View()), OpMarkLeft(actor, user), View(), reply)
      ensures Inv(old(View())) && reply == Done && old(people)[user].role != Student ==> GoneFrom(View(), user)
    {
      ApplyIsSound(View(), OpMarkLeft(actor, user));
      DepartureIsClean(View(), actor, user);
      hide Sound, Inv, GoneFrom, Closed, CancelPending;
      if user !in people { return Refused(NotFound); }
      var person := people[user];
      if actor == user { return Refused(OwnAccount); }
      if AdminManaged(person.role) && !(actor in people && people[actor].role.Admin?) { return Refused(Forbidden); }
      if person.left { return Refused(AlreadyLeft); }
      people := people[user := person.(active := false, left := true)];
      if person.role != Student { TakeOff(user); }
      reply := Done;
    }
  }
}
