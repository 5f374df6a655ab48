/** What every serial run of the substitution and leave protocol keeps. */
module SubstitutionProtocol {
  import opened Collections
  import opened SubstitutionRequests
  import opened SubstitutionService

  // ------------------------------------------------------------ invariant

  ghost predicate NobodyAsksThemselves(rs: Requests) {
    forall i :: i in rs ==> rs[i].requester != rs[i].substitute
  }

  /** An open request tied to a leave belongs to the leave's owner and lies inside its dates;
      from today on that leave is pending or approved. */
  ghost predicate LinkOk(row: Request, leaves: map<LeaveId, Leave>, today: int) {
    row.leave.Some? ==>
      && row.leave.value in leaves
      && (Open(row.status) ==>
            var leave := leaves[row.leave.value];
            && leave.user == row.requester && leave.from <= row.date <= leave.to
            && (row.date >= today ==> LeaveOpen(leave.status)))
  }

  ghost predicate OnePendingLeave(leaves: map<LeaveId, Leave>) {
    forall l, m :: l in leaves && m in leaves && l != m && leaves[l].user == leaves[m].user
      ==> !(leaves[l].status == LeavePending && leaves[m].status == LeavePending)
  }

  ghost predicate RequestsOk(rs: Requests) {
    UniqueKeys(rs) && NothingPendingWhenCovered(rs) && NobodyAsksThemselves(rs)
  }

  ghost predicate LinksOk(w: Tables) {
    forall i :: i in w.requests ==> LinkOk(w.requests[i], w.leaves, w.today)
  }

  ghost predicate IdsFresh(w: Tables) {
    && (forall i :: i in w.requests ==> i < w.nextRequest)
    && (forall l :: l in w.leaves ==> l < w.nextLeave)
  }

  ghost predicate Inv(w: Tables) {
    IdsFresh(w) && RequestsOk(w.requests) && LinksOk(w) && OnePendingLeave(w.leaves)
  }

  // -------------------------------------------------------- status history

  /** Reachable along the documented edges. */
  predicate Reaches(a: Status, b: Status) {
    a == b || Edge(a, b) || (a == Pending && b == Withdrawn)
  }

  lemma EdgesCompose(a: Status, b: Status, c: Status)
    ensures Reaches(a, b) && Reaches(b, c) ==> Reaches(a, c)
    ensures !Open(a) && Reaches(a, b) ==> b == a
  {
  }

  /** The request itself never changes; its status follows the graph. */
  predicate Follows(before: Request, after: Request) {
    && after.requester == before.requester && after.substitute == before.substitute
    && after.date == before.date && after.period == before.period
    && Reaches(before.status, after.status)
  }

  ghost predicate History(rs: Requests, rs': Requests) {
    forall i :: i in rs ==> i in rs' && Follows(rs[i], rs'[i])
  }

  lemma HistoryStarts(rs: Requests)
    ensures History(rs, rs)
  {
  }

  lemma HistoryComposes(a: Requests, b: Requests, c: Requests)
    requires History(a, b) && History(b, c)
    ensures History(a, c)
  {
  }

  /** Each row of `rs'` is a row of `rs` whose status moved at most one documented edge,
      never to accepted. */
  ghost predicate OnlyCloses(rs: Requests, rs': Requests) {
    && rs'.Keys == rs.Keys
    && forall i :: i in rs ==>
         rs'[i] == rs[i] || (Edge(rs[i].status, rs'[i].status) && !Open(rs'[i].status)
             && rs'[i] == rs[i].(status := rs'[i].status))
  }

  lemma ClosingKeeps(rs: Requests, rs': Requests)
    requires RequestsOk(rs) && OnlyCloses(rs, rs')
    ensures RequestsOk(rs') && History(rs, rs')
  {
    assert forall i :: i in rs && Open(rs'[i].status) ==> rs'[i] == rs[i];
  }

  lemma ClosingKeepsLinks(w: Tables, rs': Requests)
    requires LinksOk(w) && OnlyCloses(w.requests, rs')
    ensures LinksOk(w.(requests := rs'))
  {
    forall i | i in rs' ensures LinkOk(rs'[i], w.leaves, w.today) {
      assert LinkOk(w.requests[i], w.leaves, w.today);
    }
  }

  lemma MarkingCloses(rs: Requests, ids: set<RequestId>, status: Status)
    requires !Open(status) && forall i :: i in ids && i in rs ==> Edge(rs[i].status, status)
    ensures OnlyCloses(rs, MarkAll(rs, ids, status))
  {
  }

  // ---------------------------------------------------------------- steps

  /** A created request is a new pending row that breaks no rule. */
  lemma InsertKeeps(w: Tables, requester: UserId, item: Item, leave: Option<LeaveId>)
    requires Inv(w) && CreateError(w, requester, item, leave).None?
    ensures Inv(Inserted(w, requester, item, leave))
    ensures History(w.requests, Inserted(w, requester, item, leave).requests)
  {
    var w' := Inserted(w, requester, item, leave);
    var id := w.nextRequest;
    assert id !in w.requests;
    forall i | i in w.requests && SamePeriod(w.requests[i], w'.requests[id])
      ensures w.requests[i].status != Accepted
      ensures w.requests[i].substitute == item.substitute ==> !Open(w.requests[i].status) {}
    forall i | i in w'.requests ensures LinkOk(w'.requests[i], w'.leaves, w'.today) {
      if i != id { assert LinkOk(w.requests[i], w.leaves, w.today); }
    }
  }

  lemma {:induction false} CreateManyKeeps(w: Tables, requester: UserId, items: seq<Item>, leave: LeaveId)
    requires Inv(w)
    ensures var w' := CreateMany(w, requester, items, leave).0;
      && Inv(w') && History(w.requests, w'.requests)
      && w' == w.(requests := w'.requests, nextRequest := w'.nextRequest)
    decreases |items|
  {
    if items != [] && CreateError(w, requester, items[0], Some(leave)).None? {
      InsertKeeps(w, requester, items[0], Some(leave));
      var w1 := Inserted(w, requester, items[0], Some(leave));
      CreateManyKeeps(w1, requester, items[1..], leave);
      HistoryComposes(w.requests, w1.requests, CreateMany(w1, requester, items[1..], leave).0.requests);
    }
  }

  lemma LinkingKeeps(w: Tables, requester: UserId, leave: LeaveId, from: int, to: int)
    requires Inv(w) && leave in w.leaves
    requires w.leaves[leave].user == requester && w.leaves[leave].from == from && w.leaves[leave].to == to
    requires LeaveOpen(w.leaves[leave].status)
    ensures var rs' := Linked(w.requests, requester, leave, from, to);
      Inv(w.(requests := rs')) && History(w.requests, rs')
  {
    var rs' := Linked(w.requests, requester, leave, from, to);
    LeaveIdIsNoKey(w.requests, rs');
    forall i | i in rs' ensures LinkOk(rs'[i], w.leaves, w.today) {
      assert LinkOk(w.requests[i], w.leaves, w.today);
    }
  }

  lemma CloseKeeps(w: Tables, ids: set<RequestId>, status: Status)
    requires Inv(w) && !Open(status) && forall i :: i in ids && i in w.requests ==> Edge(w.requests[i].status, status)
    ensures Inv(w.(requests := MarkAll(w.requests, ids, status)))
    ensures History(w.requests, MarkAll(w.requests, ids, status))
  {
    var rs' := MarkAll(w.requests, ids, status);
    MarkingCloses(w.requests, ids, status);
    ClosingKeeps(w.requests, rs');
    ClosingKeepsLinks(w, rs');
  }

  /** The accepted row and its filled rivals, given that neither the period nor the substitute was taken. */
  ghost predicate Takes(rs: Requests, rs': Requests, id: RequestId) {
    && id in rs && rs[id].status == Pending && rs'.Keys == rs.Keys
    && (forall i :: i in rs ==> rs[i].status == Accepted ==>
        !SamePeriod(rs[i], rs[id]) && !SameSubstitution(rs[i], rs[id]))
    && (forall i :: i in rs ==>
          rs'[i] == if i == id then rs[i].(status := Accepted)
                    else if SamePeriod(rs[i], rs[id]) && rs[i].status == Pending then rs[i].(status := Filled)
                    else rs[i])
  }

  lemma TakingKeepsUnique(rs: Requests, rs': Requests, id: RequestId)
    requires UniqueKeys(rs) && Takes(rs, rs', id)
    ensures UniqueKeys(rs')
  {
    assert forall i :: i in rs' && rs'[i].status == Accepted ==> i == id || rs[i] == rs'[i];
    assert forall i :: i in rs' && Open(rs'[i].status) ==> Open(rs[i].status);
  }

  lemma TakingKeeps(rs: Requests, rs': Requests, id: RequestId)
    requires RequestsOk(rs) && Takes(rs, rs', id)
    ensures RequestsOk(rs') && History(rs, rs')
  {
    hide OneCover, SubstituteOnce, NoDuplicate;
    TakingKeepsUnique(rs, rs', id);
    forall i, j | i in rs' && j in rs' && SamePeriod(rs'[i], rs'[j]) && rs'[i].status == Accepted
      ensures rs'[j].status != Pending
    {
      assert SamePeriod(rs[i], rs[j]);
    }
  }

  lemma TakingKeepsLinks(w: Tables, rs': Requests, id: RequestId)
    requires LinksOk(w) && Takes(w.requests, rs', id)
    ensures LinksOk(w.(requests := rs'))
  {
    forall i | i in rs' ensures LinkOk(rs'[i], w.leaves, w.today) { assert LinkOk(w.requests[i], w.leaves, w.today); }
  }

  lemma AcceptTakes(w: Tables, user: UserId, id: RequestId)
    requires Accept(w, user, id).1 == Done
    ensures Takes(w.requests, Accept(w, user, id).0.requests, id)
  {
  }

  lemma AcceptKeeps(w: Tables, user: UserId, id: RequestId)
    requires Inv(w)
    ensures var w' := Accept(w, user, id).0; Inv(w') && History(w.requests, w'.requests)
  {
    hide RequestsOk, LinksOk, OnePendingLeave;
    var (w', reply) := Accept(w, user, id);
    if reply == Done {
      AcceptTakes(w, user, id);
      TakingKeeps(w.requests, w'.requests, id);
      TakingKeepsLinks(w, w'.requests, id);
    } else if reply == Refused(AlreadyCovered) {
      CloseKeeps(w, {id}, Filled);
    }
  }

  lemma AnswerKeeps(w: Tables, user: UserId, id: RequestId)
    requires Inv(w)
    ensures var w' := Decline(w, user, id).0; Inv(w') && History(w.requests, w'.requests)
    ensures var w' := Withdraw(w, user, id).0; Inv(w') && History(w.requests, w'.requests)
    ensures var w' := Cancel(w, user, id).0; Inv(w') && History(w.requests, w'.requests)
  {
    hide RequestsOk, LinksOk, OnePendingLeave;
    if id in w.requests {
      if w.requests[id].status == Pending { CloseKeeps(w, {id}, Declined); }
      if w.requests[id].status == Accepted { CloseKeeps(w, {id}, Withdrawn); }
      if Open(w.requests[id].status) { CloseKeeps(w, {id}, Cancelled); }
    }
  }

  lemma CancelForLeaveKeeps(w: Tables, leave: LeaveId, keep: Option<(int, int)>)
    requires Inv(w)
    ensures var rs' := MarkAll(w.requests, ToCancel(w.requests, leave, keep), Cancelled);
      Inv(w.(requests := rs')) && History(w.requests, rs')
  {
    CloseKeeps(w, ToCancel(w.requests, leave, keep), Cancelled);
  }

  /** A new pending leave disturbs no link and is the user's only pending one. */
  lemma NewLeaveKeeps(w: Tables, user: UserId, from: int, to: int)
    requires Inv(w) && !PendingLeave(w.leaves, user)
    ensures Inv(w.(leaves := w.leaves[w.nextLeave := Leave(user, from, to, LeavePending)],
                   nextLeave := w.nextLeave + 1))
  {
    var w1 := w.(leaves := w.leaves[w.nextLeave := Leave(user, from, to, LeavePending)], nextLeave := w.nextLeave + 1);
    forall i | i in w1.requests ensures LinkOk(w1.requests[i], w1.leaves, w1.today) {
      assert LinkOk(w.requests[i], w.leaves, w.today);
    }
  }

  lemma RequestLeaveKeeps(w: Tables, user: UserId, from: int, to: int, items: seq<Item>)
    requires Inv(w)
    ensures var w' := RequestLeave(w, user, from, to, items).0; Inv(w') && History(w.requests, w'.requests)
  {
    hide RequestsOk, LinksOk, OnePendingLeave, History;
    HistoryStarts(w.requests);
    var (w', reply) := RequestLeave(w, user, from, to, items);
    if reply == Done {
      var leave := w.nextLeave;
      var w1 := w.(leaves := w.leaves[leave := Leave(user, from, to, LeavePending)], nextLeave := leave + 1);
      NewLeaveKeeps(w, user, from, to);
      CreateManyKeeps(w1, user, items, leave);
      var w2 := CreateMany(w1, user, items, leave).0;
      LinkingKeeps(w2, user, leave, from, to);
      HistoryComposes(w.requests, w2.requests, w'.requests);
    }
  }

  /** Moving a leave's dates and cancelling what falls outside keeps every link right. */
  lemma MoveLeaveKeeps(w: Tables, leave: LeaveId, from: int, to: int)
    requires Inv(w) && leave in w.leaves && w.leaves[leave].status == LeavePending
    ensures var w' := w.(leaves := w.leaves[leave := w.leaves[leave].(from := from, to := to)],
                         requests := MarkAll(w.requests, ToCancel(w.requests, leave, Some((from, to))), Cancelled));
      Inv(w') && History(w.requests, w'.requests)
  {
    CancelForLeaveKeeps(w, leave, Some((from, to)));
    var leaves' := w.leaves[leave := w.leaves[leave].(from := from, to := to)];
    var rs' := MarkAll(w.requests, ToCancel(w.requests, leave, Some((from, to))), Cancelled);
    forall i | i in rs' ensures LinkOk(rs'[i], leaves', w.today) {
      assert LinkOk(w.requests[i], w.leaves, w.today);
    }
  }

  lemma UpdateLeaveKeeps(w: Tables, user: UserId, leave: LeaveId, from: int, to: int, items: seq<Item>)
    requires Inv(w)
    ensures var w' := UpdateLeave(w, user, leave, from, to, items).0; Inv(w') && History(w.requests, w'.requests)
  {
    hide RequestsOk, LinksOk, OnePendingLeave, History;
    HistoryStarts(w.requests);
    var (w', reply) := UpdateLeave(w, user, leave, from, to, items);
    if reply == Done {
      MoveLeaveKeeps(w, leave, from, to);
      var w1 := w.(leaves := w.leaves[leave := w.leaves[leave].(from := from, to := to)],
                   requests := MarkAll(w.requests, ToCancel(w.requests, leave, Some((from, to))), Cancelled));
      CreateManyKeeps(w1, user, items, leave);
      var w2 := CreateMany(w1, user, items, leave).0;
      LinkingKeeps(w2, user, leave, from, to);
      HistoryComposes(w.requests, w1.requests, w2.requests);
      HistoryComposes(w.requests, w2.requests, w'.requests);
    }
  }

  /** Ending a leave cancels all its open requests, so none is left pointing at a dead leave. */
  lemma EndLeaveKeeps(w: Tables, leave: LeaveId, status: LeaveStatus)
    requires Inv(w) && leave in w.leaves && !LeaveOpen(status)
    ensures var rs' := MarkAll(w.requests, ToCancel(w.requests, leave, None), Cancelled);
      && Inv(w.(requests := rs', leaves := w.leaves[leave := w.leaves[leave].(status := status)]))
      && History(w.requests, rs')
  {
    CancelForLeaveKeeps(w, leave, None);
    var rs' := MarkAll(w.requests, ToCancel(w.requests, leave, None), Cancelled);
    var kept := w.leaves[leave := w.leaves[leave].(status := status)];
    forall i | i in rs' ensures LinkOk(rs'[i], kept, w.today) { assert LinkOk(w.requests[i], w.leaves, w.today); }
  }

  ghost predicate SameButLeave(rs: Requests, rs': Requests) {
    rs'.Keys == rs.Keys && forall i :: i in rs ==> rs'[i] == rs[i].(leave := rs'[i].leave)
  }

  lemma LeaveIdIsNoKey(rs: Requests, rs': Requests)
    requires RequestsOk(rs) && SameButLeave(rs, rs')
    ensures RequestsOk(rs') && History(rs, rs')
  {
  }

  /** Erasing an ended leave: ON DELETE SET NULL unlinks its closed requests. */
  lemma EraseLeaveKeeps(w: Tables, leave: LeaveId)
    requires Inv(w) && leave in w.leaves && !LeaveOpen(w.leaves[leave].status)
    requires forall i :: i in w.requests && w.requests[i].leave == Some(leave) ==> !Open(w.requests[i].status)
    ensures Inv(w.(requests := Unlinked(w.requests, leave), leaves := Without(w.leaves, leave)))
    ensures History(w.requests, Unlinked(w.requests, leave))
  {
    var rs', leaves' := Unlinked(w.requests, leave), Without(w.leaves, leave);
    LeaveIdIsNoKey(w.requests, rs');
    forall i | i in rs' ensures LinkOk(rs'[i], leaves', w.today) { assert LinkOk(w.requests[i], w.leaves, w.today); }
  }

  lemma DeleteLeaveKeeps(w: Tables, user: UserId, leave: LeaveId)
    requires Inv(w)
    ensures var w' := DeleteLeave(w, user, leave).0; Inv(w') && History(w.requests, w'.requests)
  {
    hide RequestsOk, LinksOk, OnePendingLeave, History;
    HistoryStarts(w.requests);
    var (w', reply) := DeleteLeave(w, user, leave);
    if reply == Done {
      EndLeaveKeeps(w, leave, LeaveCancelled);
      if w.leaves[leave].status == LeavePending {
        var ended := w.(requests := MarkAll(w.requests, ToCancel(w.requests, leave, None), Cancelled),
                        leaves := w.leaves[leave := w.leaves[leave].(status := LeaveCancelled)]);
        EraseLeaveKeeps(ended, leave);
        HistoryComposes(w.requests, ended.requests, w'.requests);
        assert Without(ended.leaves, leave) == Without(w.leaves, leave);
      }
    }
  }

  lemma ReviewLeaveKeeps(w: Tables, leave: LeaveId, approve: bool)
    requires Inv(w)
    ensures var w' := ReviewLeave(w, leave, approve).0; Inv(w') && History(w.requests, w'.requests)
  {
    var (w', reply) := ReviewLeave(w, leave, approve);
    if reply == Done {
      if approve {
        forall i | i in w'.requests ensures LinkOk(w'.requests[i], w'.leaves, w'.today) {
          assert LinkOk(w.requests[i], w.leaves, w.today);
        }
      } else {
        EndLeaveKeeps(w, leave, LeaveRejected);
      }
    }
  }

  lemma ClosedOnlyCloses(rs: Requests, user: UserId, today: int)
    requires NobodyAsksThemselves(rs)
    ensures OnlyCloses(rs, Closed(rs, user, today))
    ensures forall i :: i in rs && Open(Closed(rs, user, today)[i].status) && rs[i].date >= today
              ==> rs[i].requester != user && rs[i].substitute != user
  {
  }

  /** Requests that stay open belong to others, so cancelling a pending leave cuts none of their links. */
  lemma DepartureKeepsLinks(w: Tables, rs': Requests, user: UserId)
    requires LinksOk(w) && OnlyCloses(w.requests, rs')
    requires forall i :: i in rs' && Open(rs'[i].status) && rs'[i].date >= w.today ==> rs'[i].requester != user
    ensures LinksOk(w.(requests := rs', leaves := CancelPending(w.leaves, user)))
  {
    forall i | i in rs' ensures LinkOk(rs'[i], CancelPending(w.leaves, user), w.today) {
      assert LinkOk(w.requests[i], w.leaves, w.today);
    }
  }

  lemma StaffLeavingKeeps(w: Tables, rs': Requests, leaves': map<LeaveId, Leave>, user: UserId)
    requires Inv(w) && rs' == Closed(w.requests, user, w.today) && leaves' == CancelPending(w.leaves, user)
    ensures Inv(w.(requests := rs', leaves := leaves')) && History(w.requests, rs')
  {
    ClosedOnlyCloses(w.requests, user, w.today);
    hide Closed, UniqueKeys, NothingPendingWhenCovered, LinksOk;
    ClosingKeeps(w.requests, rs');
    DepartureKeepsLinks(w, rs', user);
    hide RequestsOk, History;
  }

  lemma MarkLeftKeeps(w: Tables, actor: UserId, user: UserId)
    requires Inv(w)
    ensures var w' := MarkLeft(w, actor, user).0; Inv(w') && History(w.requests, w'.requests)
  {
    hide RequestsOk, OnePendingLeave, Closed, CancelPending, History;
    HistoryStarts(w.requests);
    StaffLeavingKeeps(w, Closed(w.requests, user, w.today), CancelPending(w.leaves, user), user);
  }

  lemma CreateKeeps(w: Tables, user: UserId, teacher: Option<UserId>, item: Item, leave: Option<LeaveId>)
    requires Inv(w)
    ensures var w' := CreateRequest(w, user, teacher, item, leave).0; Inv(w') && History(w.requests, w'.requests)
  {
    var requester := if teacher.Some? then teacher.value else user;
    if CreateError(w, requester, item, leave).None? { InsertKeeps(w, requester, item, leave); }
  }

  lemma SurroundingsKeep(w: Tables, s: Surroundings)
    requires Inv(w)
    ensures Inv(Apply(w, OpSurroundings(s)).0)
  {
    forall i | i in w.requests ensures LinkOk(w.requests[i], w.leaves, w.today + s.days) {
      assert LinkOk(w.requests[i], w.leaves, w.today);
    }
  }

  lemma ApplyKeeps(w: Tables, op: Op)
    requires Inv(w)
    ensures Inv(Apply(w, op).0) && History(w.requests, Apply(w, op).0.requests)
  {
    match op
    case OpCreate(user, teacher, item, leave) => CreateKeeps(w, user, teacher, item, leave);
    case OpAccept(user, id) => AcceptKeeps(w, user, id);
    case OpDecline(user, id) => AnswerKeeps(w, user, id);
    case OpWithdraw(user, id) => AnswerKeeps(w, user, id);
    case OpCancel(user, id) => AnswerKeeps(w, user, id);
    case OpRequestLeave(user, from, to, items) => RequestLeaveKeeps(w, user, from, to, items);
    case OpUpdateLeave(user, leave, from, to, items) => UpdateLeaveKeeps(w, user, leave, from, to, items);
    case OpDeleteLeave(user, leave) => DeleteLeaveKeeps(w, user, leave);
    case OpReviewLeave(leave, approve) => ReviewLeaveKeeps(w, leave, approve);
    case OpMarkLeft(actor, user) => MarkLeftKeeps(w, actor, user);
    case OpSurroundings(s) => SurroundingsKeep(w, s);
  }

  /** Every serial run keeps the invariant, and no request ever leaves the documented graph. */
  lemma {:induction false} EveryRunKeeps(w: Tables, ops: seq<Op>)
    requires Inv(w)
    ensures Inv(Run(w, ops))
    ensures History(w.requests, Run(w, ops).requests)
    decreases |ops|
  {
    if ops != [] {
      ApplyKeeps(w, ops[0]);
      EveryRunKeeps(Apply(w, ops[0]).0, ops[1..]);
      HistoryComposes(w.requests, Apply(w, ops[0]).0.requests, Run(w, ops).requests);
    }
  }

  /** A declined, cancelled, withdrawn or filled request stays what it is in every run. */
  lemma ClosedForGood(w: Tables, ops: seq<Op>, id: RequestId)
    requires Inv(w) && id in w.requests && !Open(w.requests[id].status)
    ensures id in Run(w, ops).requests && Run(w, ops).requests[id].status == w.requests[id].status
  {
    EveryRunKeeps(w, ops);
  }

  // --------------------------------------------------- across transactions

  /** In a serial run an accept succeeds exactly when the substitute is asked, still pending and
      free; it never finds the period already covered. */
  lemma AcceptSucceedsIff(w: Tables, user: UserId, id: RequestId)
    requires Inv(w)
    ensures Accept(w, user, id).1 == Done <==>
      && id in w.requests && w.requests[id].substitute == user && w.requests[id].status == Pending
      && Busy(w, user, w.requests[id].date, w.requests[id].period) == None
    ensures Accept(w, user, id).1 != Refused(AlreadyCovered)
    ensures Accept(w, user, id).1 != Done ==> Accept(w, user, id).0 == w
  {
    if id in w.requests && w.requests[id].status == Pending {
      var row := w.requests[id];
      assert !PeriodCovered(w.requests, row.requester, row.date, row.period) by {
        assert forall j :: j in w.requests && SamePeriod(w.requests[j], row) ==> w.requests[j].status != Accepted;
      }
    }
  }

  /** What `create` checked is enough: the colleague can accept at once, and then covers the period. */
  lemma AskedCanAccept(w: Tables, user: UserId, teacher: Option<UserId>, item: Item, leave: Option<LeaveId>)
    requires Inv(w) && CreateRequest(w, user, teacher, item, leave).1 == Done
    ensures var asked := CreateRequest(w, user, teacher, item, leave).0;
      var (taken, reply) := Accept(asked, item.substitute, w.nextRequest);
      && reply == Done
      && PeriodCovered(taken.requests, if teacher.Some? then teacher.value else user, item.day, item.period)
      && Busy(taken, item.substitute, item.day, item.period) == Some(IsCovering)
  {
    var requester := if teacher.Some? then teacher.value else user;
    InsertKeeps(w, requester, item, leave);
    var asked := CreateRequest(w, user, teacher, item, leave).0;
    hide Inv;
    assert Busy(asked, item.substitute, item.day, item.period) == None;
    AcceptSucceedsIff(asked, item.substitute, w.nextRequest);
    hide CreateError, AwayOn, PendingLeave;
    var taken := Accept(asked, item.substitute, w.nextRequest).0;
    assert w.nextRequest in taken.requests && taken.requests[w.nextRequest].status == Accepted;
  }

  /** Withdrawing undoes the cover: the period is uncovered again and the teacher as free as before. */
  lemma WithdrawUncovers(w: Tables, user: UserId, id: RequestId)
    requires Inv(w) && Withdraw(w, user, id).1 == Done
    ensures var w', row := Withdraw(w, user, id).0, w.requests[id];
      && !PeriodCovered(w'.requests, row.requester, row.date, row.period)
      && !CoversPeriod(w'.requests, user, row.date, row.period)
  {
    var w', row := Withdraw(w, user, id).0, w.requests[id];
    forall j | j in w'.requests && (SamePeriod(w'.requests[j], row) || SameSubstitution(w'.requests[j], row))
      ensures w'.requests[j].status != Accepted
    {
      assert SamePeriod(w.requests[j], w.requests[id]) || SameSubstitution(w.requests[j], w.requests[id]);
    }
  }

  /** The account is closed, and nothing is pending, timetabled or open from today on with or for it. */
  ghost predicate GoneFrom(w: Tables, user: UserId) {
    && user in w.people && w.people[user].left && !w.people[user].active && !PendingLeave(w.leaves, user)
    && (forall s :: s in w.slots ==> s.0 != user)
    && (forall j :: j in w.requests && Open(w.requests[j].status) && w.requests[j].date >= w.today ==>
          w.requests[j].requester != user && w.requests[j].substitute != user)
  }

  /** After a departure nothing from today on is open with or for that person, and nobody else's periods
      are gone. */
  lemma DepartureLeavesNothingOpen(w: Tables, actor: UserId, user: UserId)
    requires Inv(w) && MarkLeft(w, actor, user).1 == Done && w.people[user].role != Student
    ensures GoneFrom(MarkLeft(w, actor, user).0, user)
    ensures forall s :: s in w.slots && s.0 != user ==> s in MarkLeft(w, actor, user).0.slots
  {
    ClosedOnlyCloses(w.requests, user, w.today);
    hide Closed;
  }

  /** The leave is over, exactly the open requests tied to it are cancelled, and its owner can ask for
      another if it was pending. */
  ghost predicate EndedWithout(w: Tables, w': Tables, leave: LeaveId) {
    && leave in w.leaves && (leave in w'.leaves ==> !LeaveOpen(w'.leaves[leave].status))
    && (w.leaves[leave].status == LeavePending ==> !PendingLeave(w'.leaves, w.leaves[leave].user))
    && w'.requests.Keys == w.requests.Keys
    && forall j :: j in w.requests ==> w'.requests[j].status == EndedStatus(w.requests[j], leave)
  }

  function EndedStatus(row: Request, leave: LeaveId): Status {
    if row.leave == Some(leave) && Open(row.status) then Cancelled else row.status
  }

  /** Deleting or rejecting a leave ends it and every open request tied to it; the applicant can apply
      again, and nobody else's requests move. */
  lemma EndedLeaveLeavesNothing(w: Tables, user: UserId, leave: LeaveId, op: Op)
    requires Inv(w)
    requires op == OpDeleteLeave(user, leave) || op == OpReviewLeave(leave, false)
    requires Apply(w, op).1 == Done
    ensures EndedWithout(w, Apply(w, op).0, leave)
  {
    hide RequestsOk, LinksOk;
  }

  /** Every item is asked for, and every open request of the owner inside the dates is tied to a leave. */
  ghost predicate SavedWith(w: Tables, user: UserId, from: int, to: int, items: seq<Item>) {
    && (forall j :: j in w.requests ==> Adopted(w.requests[j], user, from, to))
    && forall k :: 0 <= k < |items| ==>
         Asked(w.requests, user, items[k].substitute, items[k].day, items[k].period)
  }

  predicate Adopted(row: Request, user: UserId, from: int, to: int) {
    Open(row.status) && row.requester == user && from <= row.date <= to ==> row.leave.Some?
  }

  /** Saving a leave adopts every open request of its owner inside its dates, and asks for every item. */
  lemma SavedLeaveAdopts(w: Tables, user: UserId, op: Op, from: int, to: int, items: seq<Item>)
    requires Inv(w) && Apply(w, op).1 == Done
    requires op == OpRequestLeave(user, from, to, items)
             || (op.OpUpdateLeave? && op == OpUpdateLeave(user, op.leaveId, from, to, items))
    ensures SavedWith(Apply(w, op).0, user, from, to, items)
  {
    hide Inv, CreateMany, MarkAll, ToCancel, CreateError;
    var leave := if op.OpRequestLeave? then w.nextLeave else op.leaveId;
    var w1 := if op.OpRequestLeave?
      then w.(leaves := w.leaves[leave := Leave(user, from, to, LeavePending)], nextLeave := leave + 1)
      else w.(leaves := w.leaves[leave := w.leaves[leave].(from := from, to := to)],
              requests := MarkAll(w.requests, ToCancel(w.requests, leave, Some((from, to))), Cancelled));
    if op.OpRequestLeave? { NewLeaveKeeps(w, user, from, to); } else { MoveLeaveKeeps(w, leave, from, to); }
    var w2 := CreateMany(w1, user, items, leave).0;
    forall k | 0 <= k < |items|
      ensures Asked(Linked(w2.requests, user, leave, from, to), user, items[k].substitute, items[k].day,
          items[k].period)
    {
      EveryItemAsked(w1, user, items, leave, k);
      var i :| i in w2.requests && w2.requests[i].requester == user && w2.requests[i].substitute == items[k].substitute
               && w2.requests[i].date == items[k].day && w2.requests[i].period == items[k].period
               && Open(w2.requests[i].status);
      assert i in Linked(w2.requests, user, leave, from, to);
    }
  }

  lemma {:induction false} StillPending(w: Tables, requester: UserId, items: seq<Item>, leave: LeaveId, i: RequestId)
    requires Inv(w) && i in w.requests
    ensures var w' := CreateMany(w, requester, items, leave).0; i in w'.requests && w'.requests[i] == w.requests[i]
    decreases |items|
  {
    if items != [] && CreateError(w, requester, items[0], Some(leave)).None? {
      InsertKeeps(w, requester, items[0], Some(leave));
      StillPending(Inserted(w, requester, items[0], Some(leave)), requester, items[1..], leave, i);
    }
  }

  lemma {:induction false} EveryItemAsked(w: Tables, requester: UserId, items: seq<Item>, leave: LeaveId, k: nat)
    requires Inv(w) && CreateMany(w, requester, items, leave).1 == Done && k < |items|
    ensures Asked(CreateMany(w, requester, items, leave).0.requests, requester,
                  items[k].substitute, items[k].day, items[k].period)
    decreases |items|
  {
    var w1 := Inserted(w, requester, items[0], Some(leave));
    InsertKeeps(w, requester, items[0], Some(leave));
    if k == 0 {
      StillPending(w1, requester, items[1..], leave, w.nextRequest);
    } else {
      EveryItemAsked(w1, requester, items[1..], leave, k - 1);
    }
  }

  // ------------------------------------------------ who changes what, and why

  /** The operation ends or moves the leave the request is tied to. */
  predicate EndsLeave(op: Op, leave: Option<LeaveId>) {
    leave.Some? && ((op.OpUpdateLeave? || op.OpDeleteLeave? || op.OpReviewLeave?) && op.leaveId == leave.value)
  }

  /** Why a request may get the status `now`. */
  predicate HasCause(w: Tables, op: Op, j: RequestId, now: Status)
    requires j in w.requests
  {
    var was := w.requests[j];
    match now
    case Pending => false
    case Accepted => op == OpAccept(was.substitute, j)
    case Declined => op == OpDecline(was.substitute, j) || (op.OpMarkLeft? && op.user == was.substitute)
    case Withdrawn => op == OpWithdraw(was.substitute, j) || (op.OpMarkLeft? && op.user == was.substitute)
    case Cancelled =>
      || (op.OpCancel? && op.id == j && (op.user == was.requester || IsManager(w, op.user)))
      || (op.OpMarkLeft? && op.user == was.requester) || EndsLeave(op, was.leave)
    case Filled =>
      op.OpAccept? && op.id in w.requests && op.id != j && SamePeriod(was, w.requests[op.id])
      && Accept(w, op.user, op.id).1 == Done
  }

  ghost predicate ChangesHaveCause(w: Tables, op: Op, rs': Requests) {
    forall j :: j in w.requests && j in rs' && rs'[j].status != w.requests[j].status ==>
        HasCause(w, op, j, rs'[j].status)
  }

  lemma AskingLeaveHasCause(w: Tables, user: UserId, from: int, to: int, items: seq<Item>)
    requires Inv(w)
    ensures ChangesHaveCause(w, OpRequestLeave(user, from, to, items),
                             RequestLeave(w, user, from, to, items).0.requests)
  {
    if !PendingLeave(w.leaves, user) {
      var w1 := w.(leaves := w.leaves[w.nextLeave := Leave(user, from, to, LeavePending)],
                   nextLeave := w.nextLeave + 1);
      NewLeaveKeeps(w, user, from, to);
      hide Inv, CreateMany, HasCause;
      forall j | j in w.requests { StillPending(w1, user, items, w.nextLeave, j); }
    }
  }

  lemma MovingLeaveHasCause(w: Tables, user: UserId, leave: LeaveId, from: int, to: int, items: seq<Item>)
    requires Inv(w)
    ensures ChangesHaveCause(w, OpUpdateLeave(user, leave, from, to, items),
                             UpdateLeave(w, user, leave, from, to, items).0.requests)
  {
    if UpdateLeave(w, user, leave, from, to, items).1 == Done {
      var w1 := w.(leaves := w.leaves[leave := w.leaves[leave].(from := from, to := to)],
                   requests := MarkAll(w.requests, ToCancel(w.requests, leave, Some((from, to))), Cancelled));
      MoveLeaveKeeps(w, leave, from, to);
      hide Inv, CreateMany, IsManager;
      forall j | j in w.requests { StillPending(w1, user, items, leave, j); }
    }
  }

  lemma EndingLeaveHasCause(w: Tables, op: Op)
    requires op.OpDeleteLeave? || op.OpReviewLeave?
    ensures ChangesHaveCause(w, op, Apply(w, op).0.requests)
  {
    hide IsManager, CanWithdraw, Busy, Accept;
  }

  lemma LeaveOpsHaveCause(w: Tables, op: Op)
    requires Inv(w) && (op.OpRequestLeave? || op.OpUpdateLeave? || op.OpDeleteLeave? || op.OpReviewLeave?)
    ensures ChangesHaveCause(w, op, Apply(w, op).0.requests)
  {
    hide Inv, ChangesHaveCause, RequestLeave, UpdateLeave, DeleteLeave, ReviewLeave;
    match op
    case OpRequestLeave(user, from, to, items) => AskingLeaveHasCause(w, user, from, to, items);
    case OpUpdateLeave(user, leave, from, to, items) => MovingLeaveHasCause(w, user, leave, from, to, items);
    case _ => EndingLeaveHasCause(w, op);
  }

  lemma AcceptHasCause(w: Tables, user: UserId, id: RequestId)
    requires Inv(w)
    ensures ChangesHaveCause(w, OpAccept(user, id), Accept(w, user, id).0.requests)
  {
    AcceptSucceedsIff(w, user, id);
    hide Busy, Inv, PeriodCovered;
  }

  lemma MarkedAlone(rs: Requests, id: RequestId, status: Status)
    requires id in rs
    ensures MarkAll(rs, {id}, status) == rs[id := rs[id].(status := status)]
  {
  }

  lemma DeclineHasCause(w: Tables, user: UserId, id: RequestId)
    ensures ChangesHaveCause(w, OpDecline(user, id), Decline(w, user, id).0.requests)
  {
    if id in w.requests { MarkedAlone(w.requests, id, Declined); }
    hide CanWithdraw, Accept, MarkAll, IsManager, EndsLeave;
  }

  lemma WithdrawHasCause(w: Tables, user: UserId, id: RequestId)
    ensures ChangesHaveCause(w, OpWithdraw(user, id), Withdraw(w, user, id).0.requests)
  {
    if id in w.requests { MarkedAlone(w.requests, id, Withdrawn); }
    hide CanWithdraw, Accept, MarkAll, IsManager, EndsLeave;
  }

  lemma CancelHasCause(w: Tables, user: UserId, id: RequestId)
    ensures ChangesHaveCause(w, OpCancel(user, id), Cancel(w, user, id).0.requests)
  {
    if id in w.requests { MarkedAlone(w.requests, id, Cancelled); }
    hide CanWithdraw, Accept, MarkAll, IsManager, EndsLeave;
  }

  lemma CreatingHasCause(w: Tables, user: UserId, teacher: Option<UserId>, item: Item, leave: Option<LeaveId>)
    requires IdsFresh(w)
    ensures ChangesHaveCause(w, OpCreate(user, teacher, item, leave),
        CreateRequest(w, user, teacher, item, leave).0.requests)
  {
    hide CreateError;
  }

  lemma SingleOpsHaveCause(w: Tables, op: Op)
    requires op.OpCreate? || op.OpAccept? || op.OpDecline? || op.OpWithdraw? || op.OpCancel? || op.OpSurroundings?
    requires Inv(w)
    ensures ChangesHaveCause(w, op, Apply(w, op).0.requests)
  {
    hide Accept, Decline, Withdraw, Cancel, CreateRequest, HasCause, RequestsOk, LinksOk, OnePendingLeave;
    match op
    case OpCreate(user, teacher, item, leave) => CreatingHasCause(w, user, teacher, item, leave);
    case OpAccept(user, id) => AcceptHasCause(w, user, id);
    case OpDecline(user, id) => DeclineHasCause(w, user, id);
    case OpWithdraw(user, id) => WithdrawHasCause(w, user, id);
    case OpCancel(user, id) => CancelHasCause(w, user, id);
    case OpSurroundings(_) =>
  }

  lemma DepartureHasCause(w: Tables, actor: UserId, user: UserId)
    ensures ChangesHaveCause(w, OpMarkLeft(actor, user), MarkLeft(w, actor, user).0.requests)
  {
  }

  /** No request changes its status without cause: only the one asked accepts, declines or withdraws
      (or leaves), only the requester, a manager, the end of the leave it is tied to or the requester's
      departure cancels it, and only the acceptance of another for the same period fills it. */
  lemma StatusChangesForCause(w: Tables, op: Op)
    requires Inv(w)
    ensures ChangesHaveCause(w, op, Apply(w, op).0.requests)
  {
    hide Inv, Apply, ChangesHaveCause;
    if op.OpMarkLeft? {
      DepartureIsApplied(w, op.actor, op.user);
      DepartureHasCause(w, op.actor, op.user);
    } else if op.OpRequestLeave? || op.OpUpdateLeave? || op.OpDeleteLeave? || op.OpReviewLeave? {
      LeaveOpsHaveCause(w, op);
    } else {
      SingleOpsHaveCause(w, op);
    }
  }

  lemma DepartureIsApplied(w: Tables, actor: UserId, user: UserId)
    ensures Apply(w, OpMarkLeft(actor, user)) == MarkLeft(w, actor, user)
  {
  }
}
