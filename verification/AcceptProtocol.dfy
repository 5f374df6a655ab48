/** Any number of concurrent accept transactions (accept, _lock_users, _load_for_update,
    _busy_reason and _fill_others of services/substitutions.py), one database statement a step.

    A transaction's own writes stay in its Commit program counter until the commit; FOR UPDATE locks
    are held from the statement that takes them to the end. Everybody else (creating requests,
    declining, withdrawing, cancelling, leave cascades, tying requests to leaves, departures) is the
    environment: it locks the rows it will change, and later changes and frees them. */
module AcceptProtocol {
  import opened Collections
  import opened SubstitutionRequests

  type ThreadId = nat

  datatype Outcome = Missing | NotAsked | NotPending | PeriodTaken | NotFree | DuplicateKey | Won

  datatype Pc =
    | Peek
    | LockFirst(low: UserId, high: UserId)
    | LockSecond(low: UserId, high: UserId)
    | LockRow(low: UserId, high: UserId)
    | CheckCover(row: Request)
    | CheckBusy(row: Request)
    | MarkFilled(row: Request)
    | MarkAccepted(row: Request)
    | FillOthers(row: Request)
    | Commit(row: Request, writes: map<RequestId, Status>, outcome: Outcome)
    | Finished(outcome: Outcome)

  /** `user` answers request `id`. */
  datatype Thread = Thread(user: UserId, id: RequestId, pc: Pc)

  /** `rows` is the committed table, `held` the rows other operations have locked. */
  datatype State = State(rows: Requests, threads: map<ThreadId, Thread>, held: set<RequestId>)

  // ---------------------------------------------------------------- locks

  function UserLocks(th: Thread): set<UserId> {
    match th.pc
    case Peek | LockFirst(_, _) | Finished(_) => {}
    case LockSecond(low, _) => {low}
    case LockRow(low, high) => {low, high}
    case CheckCover(row) => {row.requester, row.substitute}
    case CheckBusy(row) => {row.requester, row.substitute}
    case MarkFilled(row) => {row.requester, row.substitute}
    case MarkAccepted(row) => {row.requester, row.substitute}
    case FillOthers(row) => {row.requester, row.substitute}
    case Commit(row, _, _) => {row.requester, row.substitute}
  }

  function RowLocks(th: Thread): set<RequestId> {
    match th.pc
    case CheckCover(_) | CheckBusy(_) | MarkFilled(_) | MarkAccepted(_) | FillOthers(_) => {th.id}
    case Commit(_, writes, _) => writes.Keys
    case _ => {}
  }

  ghost predicate UserHeld(s: State, t: ThreadId, user: UserId) {
    exists u :: u in s.threads && u != t && user in UserLocks(s.threads[u])
  }

  ghost predicate RowHeld(s: State, t: ThreadId, id: RequestId) {
    exists u :: u in s.threads && u != t && id in RowLocks(s.threads[u])
  }

  /** Somebody else has the row locked. */
  ghost predicate RowBusy(s: State, t: ThreadId, id: RequestId) {
    RowHeld(s, t, id) || id in s.held
  }

  // ---------------------------------------------------------------- steps

  /** The other pending requests for the period of `row`. */
  function Others(rows: Requests, id: RequestId, row: Request): set<RequestId> {
    set j | j in rows && j != id && SamePeriod(rows[j], row) && rows[j].status == Pending
  }

  /** Thread `th` has written, committed or not, that `j` is accepted. */
  predicate WroteAccepted(th: Thread, j: RequestId) {
    match th.pc
    case FillOthers(_) => th.id == j
    case Commit(_, writes, _) => j in writes && writes[j] == Accepted
    case _ => false
  }

  /** Marking `id` accepted would violate ux_sub_req_one_cover or ux_sub_req_sub_busy. */
  ghost predicate KeyClash(s: State, t: ThreadId, id: RequestId, row: Request) {
    exists j :: j in s.rows && j != id
      && (SamePeriod(s.rows[j], row) || SameSubstitution(s.rows[j], row))
      && (s.rows[j].status == Accepted
          || exists u :: u in s.threads && u != t && WroteAccepted(s.threads[u], j))
  }

  function Written(rows: Requests, writes: map<RequestId, Status>): Requests {
    map j | j in rows :: if j in writes then rows[j].(status := writes[j]) else rows[j]
  }

  /** The next program counter of thread `t`; `otherReason` says the substitute has a class of
      their own or is on leave. None: the thread waits for a lock. */
  ghost function NextPc(s: State, t: ThreadId, otherReason: bool): Option<Pc>
    requires t in s.threads
  {
    var Thread(user, id, pc) := s.threads[t];
    match pc
    case Peek =>
      if id !in s.rows then Some(Finished(Missing))
      else
        var r := s.rows[id];
        Some(if r.requester <= r.substitute then LockFirst(r.requester, r.substitute)
             else LockFirst(r.substitute, r.requester))
    case LockFirst(low, high) =>
      if UserHeld(s, t, low) then None
      else Some(if low == high then LockRow(low, high) else LockSecond(low, high))
    case LockSecond(low, high) =>
      if UserHeld(s, t, high) then None else Some(LockRow(low, high))
    case LockRow(_, _) =>
      if RowBusy(s, t, id) then None
      else if id !in s.rows then Some(Finished(Missing))
      else if s.rows[id].substitute != user then Some(Finished(NotAsked))
      else if s.rows[id].status != Pending then Some(Finished(NotPending))
      else Some(CheckCover(s.rows[id]))
    case CheckCover(row) =>
      Some(if Covered(s.rows, row) then MarkFilled(row) else CheckBusy(row))
    case CheckBusy(row) =>
      Some(if Covering(s.rows, row) || otherReason then Finished(NotFree) else MarkAccepted(row))
    case MarkFilled(row) =>
      Some(Commit(row, map[id := Filled], PeriodTaken))
    case MarkAccepted(row) =>
      Some(if KeyClash(s, t, id, row) then Finished(DuplicateKey) else FillOthers(row))
    case FillOthers(row) =>
      var others := Others(s.rows, id, row);
      if exists j :: j in others && RowBusy(s, t, j) then None
      else Some(Commit(row, (map j | j in others :: Filled)[id := Accepted], Won))
    case Commit(_, _, outcome) => Some(Finished(outcome))
    case Finished(_) => None
  }

  ghost predicate ThreadStep(s: State, s': State, t: ThreadId, otherReason: bool) {
    && t in s.threads
    && NextPc(s, t, otherReason).Some?
    && s'.threads == s.threads[t := s.threads[t].(pc := NextPc(s, t, otherReason).value)]
    && s'.rows == (if s.threads[t].pc.Commit? then Written(s.rows, s.threads[t].pc.writes) else s.rows)
    && s'.held == s.held
  }

  /** Another user opens an accept. */
  ghost predicate StartStep(s: State, s': State, t: ThreadId, user: UserId, id: RequestId) {
    && t !in s.threads
    && s' == s.(threads := s.threads[t := Thread(user, id, Peek)])
  }

  /** A new request: it takes no user lock and may race with an accept for the same period. */
  ghost predicate CreateStep(s: State, s': State, id: RequestId, row: Request) {
    && id !in s.rows
    && row.status == Pending && row.requester != row.substitute
    && (forall j :: j in s.rows && SamePeriod(s.rows[j], row) && s.rows[j].substitute == row.substitute
          ==> !Open(s.rows[j].status))
    && s' == s.(rows := s.rows[id := row])
  }

  /** Decline, withdraw, cancel, a leave cascade or a departure locks rows. */
  ghost predicate HoldStep(s: State, s': State, ids: set<RequestId>) {
    && ids <= s.rows.Keys && ids !! s.held
    && (forall u :: u in s.threads ==> RowLocks(s.threads[u]) !! ids)
    && s' == s.(held := s.held + ids)
  }

  /** It closes open requests among them and ends; with nothing to close it only ends. */
  ghost predicate CloseStep(s: State, s': State, closed: map<RequestId, Status>, freed: set<RequestId>) {
    && closed.Keys <= freed <= s.held
    && (forall j :: j in closed ==> j in s.rows && Edge(s.rows[j].status, closed[j]) && !Open(closed[j]))
    && s' == s.(rows := Written(s.rows, closed), held := s.held - freed)
  }

  function Retied(rows: Requests, links: map<RequestId, Option<LeaveId>>): Requests {
    map j | j in rows :: if j in links then rows[j].(leave := links[j]) else rows[j]
  }

  /** Saving a leave ties requests to it; deleting one unties them (SET NULL). */
  ghost predicate RetieStep(s: State, s': State, links: map<RequestId, Option<LeaveId>>) {
    links.Keys <= s.held && s' == s.(rows := Retied(s.rows, links), held := s.held - links.Keys)
  }

  datatype Step =
    | Advance(t: ThreadId, otherReason: bool)
    | Start(t: ThreadId, user: UserId, id: RequestId)
    | Create(id: RequestId, row: Request)
    | Hold(ids: set<RequestId>)
    | Close(closed: map<RequestId, Status>, freed: set<RequestId>)
    | Retie(links: map<RequestId, Option<LeaveId>>)

  ghost predicate Next(s: State, s': State, step: Step) {
    match step
    case Advance(t, otherReason) => ThreadStep(s, s', t, otherReason)
    case Start(t, user, id) => StartStep(s, s', t, user, id)
    case Create(id, row) => CreateStep(s, s', id, row)
    case Hold(ids) => HoldStep(s, s', ids)
    case Close(closed, freed) => CloseStep(s, s', closed, freed)
    case Retie(links) => RetieStep(s, s', links)
  }

  // ------------------------------------------------------------ invariant

  ghost predicate RowOk(rows: Requests, th: Thread, row: Request) {
    th.id in rows && rows[th.id] == row && row.status == Pending && row.substitute == th.user
  }

  ghost predicate PeopleOk(rows: Requests, th: Thread, low: UserId, high: UserId) {
    && th.id in rows && low <= high
    && {low, high} == {rows[th.id].requester, rows[th.id].substitute}
  }

  ghost predicate CommitOk(rows: Requests, th: Thread, row: Request, writes: map<RequestId, Status>) {
    && RowOk(rows, th, row) && th.pc.Commit? && (th.pc.outcome == Won || th.pc.outcome == PeriodTaken)
    && th.id in writes
    && (forall j :: j in writes ==>
          j in rows && SamePeriod(rows[j], row) && rows[j].status == Pending && (j != th.id ==> writes[j] == Filled))
    && (th.pc.outcome == Won <==> writes[th.id] == Accepted)
    && (writes[th.id] == Filled || (writes[th.id] == Accepted && !Covered(rows, row) && !Covering(rows, row)))
  }

  ghost predicate ThreadOk(rows: Requests, th: Thread) {
    match th.pc
    case Peek => true
    case LockFirst(low, high) => PeopleOk(rows, th, low, high)
    case LockSecond(low, high) => PeopleOk(rows, th, low, high) && low < high
    case LockRow(low, high) => PeopleOk(rows, th, low, high)
    case CheckCover(row) => RowOk(rows, th, row)
    case CheckBusy(row) => RowOk(rows, th, row) && !Covered(rows, row)
    case MarkFilled(row) => RowOk(rows, th, row)
    case MarkAccepted(row) => RowOk(rows, th, row) && !Covered(rows, row) && !Covering(rows, row)
    case FillOthers(row) => RowOk(rows, th, row) && !Covered(rows, row) && !Covering(rows, row)
    case Commit(row, writes, _) => CommitOk(rows, th, row, writes)
    case Finished(outcome) => outcome != DuplicateKey
  }

  ghost predicate LocksApart(s: State) {
    forall t, u :: t in s.threads && u in s.threads && t != u
      ==> UserLocks(s.threads[t]) !! UserLocks(s.threads[u])
  }

  ghost predicate Inv(s: State) {
    && UniqueKeys(s.rows)
    && LocksApart(s)
    && (forall t :: t in s.threads ==> ThreadOk(s.rows, s.threads[t]) && RowLocks(s.threads[t]) !! s.held)
  }

  /** Every locked row belongs to a requester the thread has locked too. */
  lemma RowLocksUnderUserLocks(s: State, t: ThreadId, j: RequestId)
    requires Inv(s) && t in s.threads && j in RowLocks(s.threads[t])
    ensures j in s.rows && s.rows[j].requester in UserLocks(s.threads[t])
  {
    assert ThreadOk(s.rows, s.threads[t]);
  }

  /** No accept waits for another's row: the user locks already keep accepts of the same people apart. */
  lemma RowsNeverContended(s: State, t: ThreadId, j: RequestId)
    requires Inv(s) && t in s.threads && j in s.rows
    requires s.rows[j].requester in UserLocks(s.threads[t])
    ensures !RowHeld(s, t, j)
  {
    forall u | u in s.threads && u != t ensures j !in RowLocks(s.threads[u]) {
      assert UserLocks(s.threads[t]) !! UserLocks(s.threads[u]);
      if j in RowLocks(s.threads[u]) { RowLocksUnderUserLocks(s, u, j); }
    }
  }

  /** It has marked the row accepted and not committed yet. */
  predicate AboutToWin(th: Thread, j: RequestId) {
    th.id == j && (th.pc.FillOthers? || (th.pc.Commit? && th.pc.outcome == Won))
  }

  ghost predicate AcceptedBeside(s: State, t: ThreadId, j: RequestId) {
    || (j in s.rows && s.rows[j].status == Accepted)
    || exists u :: u in s.threads && u != t && AboutToWin(s.threads[u], j)
  }

  predicate SharesPeriod(a: Request, b: Request) {
    a.date == b.date && a.period == b.period && (a.requester == b.requester || a.substitute == b.substitute)
  }

  /** Marking the row fails exactly when another accepted request of that day and period, committed or
      not, has the same requester or the same substitute. */
  lemma KeysFireIff(s: State, t: ThreadId, row: Request, otherReason: bool)
    requires t in s.threads && s.threads[t].pc == MarkAccepted(row)
    requires forall u :: u in s.threads && u != t ==> ThreadOk(s.rows, s.threads[u])
    ensures var id := s.threads[t].id;
      var clash := exists j :: j in s.rows && j != id && AcceptedBeside(s, t, j) && SharesPeriod(s.rows[j], row);
      NextPc(s, t, otherReason) == Some(if clash then Finished(DuplicateKey) else FillOthers(row))
  {
    forall j | j in s.rows
      ensures AcceptedBeside(s, t, j) <==>
        s.rows[j].status == Accepted || exists u :: u in s.threads && u != t && WroteAccepted(s.threads[u], j)
    {
      forall u | u in s.threads && u != t
        ensures WroteAccepted(s.threads[u], j) <==> AboutToWin(s.threads[u], j)
      {
        assert ThreadOk(s.rows, s.threads[u]);
      }
    }
    hide AcceptedBeside, WroteAccepted, ThreadOk;
  }

  /** The UNIQUE keys never fire: the locks and the two checks were enough. */
  lemma KeysNeverFire(s: State, t: ThreadId)
    requires Inv(s) && t in s.threads && s.threads[t].pc.MarkAccepted?
    ensures !KeyClash(s, t, s.threads[t].id, s.threads[t].pc.row)
  {
    var id, row := s.threads[t].id, s.threads[t].pc.row;
    assert ThreadOk(s.rows, s.threads[t]);
    assert UserLocks(s.threads[t]) == {row.requester, row.substitute};
    forall j, u | j in s.rows && (SamePeriod(s.rows[j], row) || SameSubstitution(s.rows[j], row))
      && u in s.threads && u != t
      ensures !WroteAccepted(s.threads[u], j)
    {
      assert ThreadOk(s.rows, s.threads[u]);
      assert UserLocks(s.threads[t]) !! UserLocks(s.threads[u]);
      assert row.requester !in UserLocks(s.threads[u]) && row.substitute !in UserLocks(s.threads[u]);
    }
  }

  lemma CommitSparesLocked(s: State, t: ThreadId, u: ThreadId, j: RequestId)
    requires Inv(s) && t in s.threads && u in s.threads && u != t && s.threads[t].pc.Commit?
    requires j in RowLocks(s.threads[u])
    ensures j in s.rows && j !in s.threads[t].pc.writes
  {
    assert UserLocks(s.threads[t]) !! UserLocks(s.threads[u]);
    RowLocksUnderUserLocks(s, u, j);
    if j in RowLocks(s.threads[t]) { RowLocksUnderUserLocks(s, t, j); }
    hide Inv;
  }

  predicate HasRow(pc: Pc) {
    pc.CheckCover? || pc.CheckBusy? || pc.MarkFilled? || pc.MarkAccepted? || pc.FillOthers? || pc.Commit?
  }

  /** The row a winner takes is for another period and another substitute than any row under check. */
  lemma CommitIsElsewhere(s: State, t: ThreadId, u: ThreadId)
    requires Inv(s) && t in s.threads && u in s.threads && u != t && s.threads[t].pc.Commit? && HasRow(s.threads[u].pc)
    ensures var me, row := s.threads[t], s.threads[u].pc.row;
      me.id in s.rows && !SamePeriod(s.rows[me.id], row) && !SameSubstitution(s.rows[me.id], row)
  {
    var me, row := s.threads[t], s.threads[u].pc.row;
    assert ThreadOk(s.rows, me) && UserLocks(me) !! UserLocks(s.threads[u]);
    assert row.requester in UserLocks(s.threads[u]) && row.substitute in UserLocks(s.threads[u]);
    assert me.pc.row.requester in UserLocks(me) && me.pc.row.substitute in UserLocks(me);
    hide Inv;
  }

  /** A committed row kept its status, or is the winner's own. */
  lemma CommitAccepts(rows: Requests, th: Thread, j: RequestId)
    requires th.pc.Commit? && ThreadOk(rows, th) && j in rows
    ensures var row, row' := th.pc.row, Written(rows, th.pc.writes)[j];
      && (Open(row'.status) ==> Open(rows[j].status))
      && (row'.status == Accepted ==>
            || rows[j].status == Accepted
            || (j == th.id && rows[j] == row && !Covered(rows, row) && !Covering(rows, row)))
  {
  }

  /** So what another thread found uncovered and free stays so. */
  lemma CommitCoversNoOther(s: State, t: ThreadId, u: ThreadId)
    requires Inv(s) && t in s.threads && u in s.threads && u != t && s.threads[t].pc.Commit? && HasRow(s.threads[u].pc)
    ensures var rows', row := Written(s.rows, s.threads[t].pc.writes), s.threads[u].pc.row;
      (Covered(rows', row) ==> Covered(s.rows, row)) && (Covering(rows', row) ==> Covering(s.rows, row))
  {
    CommitIsElsewhere(s, t, u);
    assert ThreadOk(s.rows, s.threads[t]);
    forall j | j in s.rows { CommitAccepts(s.rows, s.threads[t], j); }
    hide Inv, ThreadOk, CommitOk;
  }

  lemma CommitKeepsOthers(s: State, t: ThreadId, u: ThreadId)
    requires Inv(s) && t in s.threads && u in s.threads && u != t && s.threads[t].pc.Commit?
    ensures ThreadOk(Written(s.rows, s.threads[t].pc.writes), s.threads[u])
  {
    var me, them := s.threads[t], s.threads[u];
    assert ThreadOk(s.rows, them);
    forall j | j in RowLocks(them) { CommitSparesLocked(s, t, u, j); }
    if HasRow(them.pc) { CommitCoversNoOther(s, t, u); }
    hide Inv, Covered, Covering;
  }

  lemma CommitKeepsKeys(rows: Requests, th: Thread)
    requires UniqueKeys(rows) && th.pc.Commit? && ThreadOk(rows, th)
    ensures UniqueKeys(Written(rows, th.pc.writes))
  {
    forall j | j in rows { CommitAccepts(rows, th, j); }
    hide ThreadOk, CommitOk;
  }

  /** Before its commit a thread changes no row, and its next program counter fits its checks. */
  lemma AdvanceKeepsItself(s: State, t: ThreadId, otherReason: bool)
    requires Inv(s) && t in s.threads && !s.threads[t].pc.Commit? && NextPc(s, t, otherReason).Some?
    ensures ThreadOk(s.rows, s.threads[t].(pc := NextPc(s, t, otherReason).value))
  {
    assert ThreadOk(s.rows, s.threads[t]);
    if s.threads[t].pc.MarkAccepted? { KeysNeverFire(s, t); }
  }

  /** A step takes at most the one lock that nobody else held. */
  lemma LocksAreFree(s: State, t: ThreadId, otherReason: bool, user: UserId)
    requires t in s.threads && ThreadOk(s.rows, s.threads[t]) && NextPc(s, t, otherReason).Some?
    requires user in UserLocks(s.threads[t].(pc := NextPc(s, t, otherReason).value))
    ensures user in UserLocks(s.threads[t]) || !UserHeld(s, t, user)
  {
    hide Others, KeyClash, Covered, Covering, RowBusy, CommitOk, UserHeld;
  }

  lemma AdvanceKeepsLocksApart(s: State, t: ThreadId, u: ThreadId, otherReason: bool)
    requires Inv(s) && t in s.threads && u in s.threads && u != t && NextPc(s, t, otherReason).Some?
    ensures UserLocks(s.threads[t].(pc := NextPc(s, t, otherReason).value)) !! UserLocks(s.threads[u])
  {
    var th' := s.threads[t].(pc := NextPc(s, t, otherReason).value);
    assert ThreadOk(s.rows, s.threads[t]);
    assert UserLocks(s.threads[t]) !! UserLocks(s.threads[u]);
    hide Inv, NextPc, UserLocks, ThreadOk;
    forall user | user in UserLocks(th') ensures user !in UserLocks(s.threads[u]) {
      LocksAreFree(s, t, otherReason, user);
    }
  }

  /** Rows are locked only when nobody else holds them. */
  lemma AdvanceLeavesHeld(s: State, t: ThreadId, otherReason: bool)
    requires Inv(s) && t in s.threads && NextPc(s, t, otherReason).Some?
    ensures RowLocks(s.threads[t].(pc := NextPc(s, t, otherReason).value)) !! s.held
  {
    assert RowLocks(s.threads[t]) !! s.held;
  }

  lemma AdvanceKeepsInv(s: State, s': State, t: ThreadId, otherReason: bool)
    requires Inv(s) && ThreadStep(s, s', t, otherReason)
    ensures Inv(s')
  {
    var me := s.threads[t];
    assert ThreadOk(s.rows, me);
    forall u | u in s.threads ensures ThreadOk(s'.rows, s'.threads[u]) {
      if u != t {
        if me.pc.Commit? { CommitKeepsOthers(s, t, u); }
      } else if !me.pc.Commit? {
        AdvanceKeepsItself(s, t, otherReason);
      }
    }
    AdvanceLeavesHeld(s, t, otherReason);
    forall u | u in s.threads && u != t ensures UserLocks(s'.threads[t]) !! UserLocks(s'.threads[u]) {
      AdvanceKeepsLocksApart(s, t, u, otherReason);
    }
    forall u, v | u in s.threads && v in s.threads && u != v
      ensures UserLocks(s'.threads[u]) !! UserLocks(s'.threads[v]) {
      assert UserLocks(s.threads[u]) !! UserLocks(s.threads[v]);
    }
    if me.pc.Commit? { CommitKeepsKeys(s.rows, me); }
  }

  /** The environment leaves locked rows alone and accepts nothing, so it disturbs no thread. */
  lemma EnvironmentKeepsThread(rows: Requests, rows': Requests, th: Thread)
    requires ThreadOk(rows, th)
    requires forall j :: j in rows ==> j in rows' && SameAsk(rows[j], rows'[j])
    requires forall j :: j in rows && j in RowLocks(th) ==> rows'[j] == rows[j]
    requires forall j :: j in rows' && rows'[j].status == Accepted ==> j in rows && rows[j].status == Accepted
    ensures ThreadOk(rows', th)
  {
  }

  lemma NextKeepsInv(s: State, s': State, step: Step)
    requires Inv(s) && Next(s, s', step)
    ensures Inv(s')
  {
    match step
    case Advance(t, otherReason) => AdvanceKeepsInv(s, s', t, otherReason);
    case Start(t, user, id) =>
    case Hold(ids) =>
    case Create(id, row) => OutsideKeepsInv(s, s');
    case Close(closed, _) =>
      CloseKeepsKeys(s.rows, closed);
      OutsideKeepsInv(s, s');
    case Retie(links) =>
      RetyingKeepsKeys(s.rows, links);
      OutsideKeepsInv(s, s');
  }

  lemma OutsideKeepsInv(s: State, s': State)
    requires Inv(s) && UniqueKeys(s'.rows) && s'.threads == s.threads && s'.held <= s.held
    requires forall j :: j in s.rows ==> j in s'.rows && SameAsk(s.rows[j], s'.rows[j])
    requires forall j :: j in s.rows && j !in s.held ==> s'.rows[j] == s.rows[j]
    requires forall j :: j in s'.rows && s'.rows[j].status == Accepted ==> j in s.rows && s.rows[j].status == Accepted
    ensures Inv(s')
  {
    forall u | u in s.threads ensures ThreadOk(s'.rows, s.threads[u]) {
      assert RowLocks(s.threads[u]) !! s.held;
      EnvironmentKeepsThread(s.rows, s'.rows, s.threads[u]);
    }
  }

  lemma RetyingKeepsKeys(rows: Requests, links: map<RequestId, Option<LeaveId>>)
    requires UniqueKeys(rows)
    ensures UniqueKeys(Retied(rows, links))
  {
    var rows' := Retied(rows, links);
    assert forall j :: j in rows ==> rows'[j].status == rows[j].status && SameAsk(rows[j], rows'[j]);
  }

  lemma CloseKeepsKeys(rows: Requests, closed: map<RequestId, Status>)
    requires UniqueKeys(rows) && forall j :: j in closed ==> !Open(closed[j])
    ensures UniqueKeys(Written(rows, closed))
  {
    var rows' := Written(rows, closed);
    assert forall j :: j in rows && Open(rows'[j].status) ==> rows[j] == rows'[j];
  }

  // ------------------------------------------------------------ waiting

  /** `t` wants a lock that `u` holds. */
  ghost predicate WaitsFor(s: State, t: ThreadId, u: ThreadId) {
    && t in s.threads && u in s.threads && t != u
    && match s.threads[t].pc
       case LockFirst(low, _) => low in UserLocks(s.threads[u])
       case LockSecond(_, high) => high in UserLocks(s.threads[u])
       case LockRow(_, _) => s.threads[t].id in RowLocks(s.threads[u])
       case FillOthers(row) => Others(s.rows, s.threads[t].id, row) * RowLocks(s.threads[u]) != {}
       case _ => false
  }

  /** The user lock a thread asks for next, or one past every id when it asks for none. */
  function Wanted(th: Thread): Option<UserId> {
    match th.pc
    case LockFirst(low, _) => Some(low)
    case LockSecond(_, high) => Some(high)
    case _ => None
  }

  /** Locks are asked for in id order, so a waiting holder wants a larger id than its waiter. */
  lemma WaitingGoesUp(s: State, t: ThreadId, u: ThreadId)
    requires Inv(s) && WaitsFor(s, t, u)
    ensures Wanted(s.threads[t]).Some?
    ensures Wanted(s.threads[u]).Some? ==> Wanted(s.threads[t]).value < Wanted(s.threads[u]).value
  {
    var me, them := s.threads[t], s.threads[u];
    assert ThreadOk(s.rows, me) && ThreadOk(s.rows, them);
    if me.pc.LockRow? {
      RowsNeverContended(s, t, me.id);
    } else if me.pc.FillOthers? {
      forall j | j in Others(s.rows, me.id, me.pc.row) ensures !RowHeld(s, t, j) { RowsNeverContended(s, t, j); }
    }
  }

  /** Each thread of `cycle` waits for the next one, the last for the first. */
  ghost predicate WaitCycle(s: State, cycle: seq<ThreadId>) {
    && |cycle| > 0
    && forall k :: 0 <= k < |cycle| ==> WaitsFor(s, cycle[k], cycle[if k + 1 < |cycle| then k + 1 else 0])
  }

  lemma {:induction false} WantedClimbs(s: State, cycle: seq<ThreadId>, k: nat)
    requires Inv(s) && WaitCycle(s, cycle) && k < |cycle|
    ensures cycle[0] in s.threads && cycle[k] in s.threads
    ensures Wanted(s.threads[cycle[0]]).Some? && Wanted(s.threads[cycle[k]]).Some?
    ensures Wanted(s.threads[cycle[0]]).value <= Wanted(s.threads[cycle[k]]).value
  {
    WaitingGoesUp(s, cycle[k], cycle[if k + 1 < |cycle| then k + 1 else 0]);
    if k > 0 {
      WantedClimbs(s, cycle, k - 1);
      WaitingGoesUp(s, cycle[k - 1], cycle[k]);
    }
  }

  lemma NoWaitCycle(s: State, cycle: seq<ThreadId>)
    requires Inv(s)
    ensures !WaitCycle(s, cycle)
  {
    if WaitCycle(s, cycle) {
      WantedClimbs(s, cycle, |cycle| - 1);
      WaitingGoesUp(s, cycle[|cycle| - 1], cycle[0]);
    }
  }

  ghost predicate Unfinished(s: State, t: ThreadId) {
    t in s.threads && !s.threads[t].pc.Finished?
  }

  /** The accept can take its next step, or it needs a row that an operation outside has locked, which
      no accept can keep from ending. */
  ghost predicate MovesOrWaitsOutside(s: State, t: ThreadId)
    requires t in s.threads
  {
    || (forall otherReason :: NextPc(s, t, otherReason).Some?)
    || (s.threads[t].pc.LockRow? && s.threads[t].id in s.held)
    || (s.threads[t].pc.FillOthers? && Others(s.rows, s.threads[t].id, s.threads[t].pc.row) * s.held != {})
  }

  /** Whatever is locked outside can be freed at any moment. */
  lemma OutsideCanEnd(s: State)
    ensures Next(s, s.(held := {}), Close(map[], s.held))
  {
    assert Written(s.rows, map[]) == s.rows;
  }

  ghost predicate Unlocked(s: State, ids: set<RequestId>) {
    ids <= s.rows.Keys && ids !! s.held && forall t :: t in s.threads ==> RowLocks(s.threads[t]) !! ids
  }

  /** Any open rows that nobody has locked can be closed from outside along the documented edges. */
  lemma OutsideCanClose(s: State, closed: map<RequestId, Status>) returns (a: State, b: State)
    requires Unlocked(s, closed.Keys)
    requires forall j :: j in closed ==> Edge(s.rows[j].status, closed[j]) && !Open(closed[j])
    ensures Next(s, a, Hold(closed.Keys)) && Next(a, b, Close(closed, closed.Keys))
    ensures b == s.(rows := b.rows) && b.rows.Keys == s.rows.Keys
    ensures forall j :: j in s.rows ==>
      b.rows[j] == if j in closed then s.rows[j].(status := closed[j]) else s.rows[j]
  {
    a := s.(held := s.held + closed.Keys);
    b := s.(rows := Written(s.rows, closed));
    assert a.held - closed.Keys == s.held;
  }

  /** And any rows nobody has locked can be tied to leaves or untied. */
  lemma OutsideCanTie(s: State, links: map<RequestId, Option<LeaveId>>) returns (a: State, b: State)
    requires Unlocked(s, links.Keys)
    ensures Next(s, a, Hold(links.Keys)) && Next(a, b, Retie(links))
    ensures b == s.(rows := b.rows) && b.rows.Keys == s.rows.Keys
    ensures forall j :: j in s.rows ==>
      b.rows[j] == if j in links then s.rows[j].(leave := links[j]) else s.rows[j]
  {
    a := s.(held := s.held + links.Keys);
    b := s.(rows := Retied(s.rows, links));
    assert a.held - links.Keys == s.held;
  }

  /** Some lock holder can move: from any waiting thread the chain of holders ends at one. */
  lemma {:induction false} ChainEnds(s: State, t: ThreadId, above: set<ThreadId>) returns (mover: ThreadId)
    requires Inv(s) && Unfinished(s, t)
    requires above == set u | u in s.threads && Wanted(s.threads[u]).Some?
                              && (Wanted(s.threads[t]).None? || Wanted(s.threads[t]).value < Wanted(s.threads[u]).value)
    requires Wanted(s.threads[t]).Some? || forall u :: !WaitsFor(s, t, u)
    ensures Unfinished(s, mover) && MovesOrWaitsOutside(s, mover)
    decreases above
  {
    mover := t;
    if u :| WaitsFor(s, t, u) {
      WaitingGoesUp(s, t, u);
      forall v ensures Wanted(s.threads[u]).None? ==> !WaitsFor(s, u, v) {
        if WaitsFor(s, u, v) { WaitingGoesUp(s, u, v); }
      }
      if Wanted(s.threads[u]).Some? {
        var above' := set v | v in s.threads && Wanted(s.threads[v]).Some?
                              && Wanted(s.threads[u]).value < Wanted(s.threads[v]).value;
        assert u in above && u !in above' && above' <= above;
        mover := ChainEnds(s, u, above');
      } else {
        mover := u;
        NotWaitingMoves(s, u);
      }
    } else {
      NotWaitingMoves(s, t);
    }
  }

  lemma NotWaitingMoves(s: State, t: ThreadId)
    requires Unfinished(s, t) && forall u :: !WaitsFor(s, t, u)
    ensures MovesOrWaitsOutside(s, t)
  {
    match s.threads[t].pc
    case LockFirst(low, _) =>
      assert forall u :: u in s.threads && u != t ==> !WaitsFor(s, t, u);
    case LockSecond(_, high) =>
      assert forall u :: u in s.threads && u != t ==> !WaitsFor(s, t, u);
    case LockRow(_, _) =>
      assert forall u :: u in s.threads && u != t ==> !WaitsFor(s, t, u);
    case FillOthers(row) =>
      forall u, j | u in s.threads && u != t && j in Others(s.rows, s.threads[t].id, row)
        ensures j !in RowLocks(s.threads[u])
      {
        assert !WaitsFor(s, t, u);
        assert j !in Others(s.rows, s.threads[t].id, row) * RowLocks(s.threads[u]);
      }
      assert forall j :: j in Others(s.rows, s.threads[t].id, row) && j in s.held ==>
          j in Others(s.rows, s.threads[t].id, row) * s.held;
    case _ =>
  }

  /** As long as an accept is unfinished, some accept can take its next step, unless it needs a row
      locked outside; and with nothing locked outside some accept always can. */
  lemma SomeAcceptMoves(s: State, t: ThreadId) returns (mover: ThreadId)
    requires Inv(s) && Unfinished(s, t)
    ensures Unfinished(s, mover) && MovesOrWaitsOutside(s, mover)
    ensures s.held == {} ==> forall otherReason :: NextPc(s, mover, otherReason).Some?
  {
    forall u ensures Wanted(s.threads[t]).None? ==> !WaitsFor(s, t, u) {
      if WaitsFor(s, t, u) { WaitingGoesUp(s, t, u); }
    }
    var above := set u | u in s.threads && Wanted(s.threads[u]).Some?
                         && (Wanted(s.threads[t]).None? || Wanted(s.threads[t]).value < Wanted(s.threads[u]).value);
    mover := ChainEnds(s, t, above);
  }

  // ---------------------------------------------------------------- runs

  ghost predicate Run(states: seq<State>, steps: seq<Step>) {
    && |states| == |steps| + 1
    && forall i :: 0 <= i < |steps| ==> Next(states[i], states[i + 1], steps[i])
  }

  lemma {:induction false} RunKeepsInv(states: seq<State>, steps: seq<Step>, n: nat)
    requires Run(states, steps) && Inv(states[0]) && n < |states|
    ensures Inv(states[n])
  {
    if n > 0 {
      RunKeepsInv(states, steps, n - 1);
      NextKeepsInv(states[n - 1], states[n], steps[n - 1]);
    }
  }

  /** Any number of concurrent accepts, racing with everything else: one cover per period and one
      class per substitute, no UNIQUE key ever fires, and nobody waits in a cycle. */
  lemma ConcurrentAcceptsAreSafe(states: seq<State>, steps: seq<Step>, n: nat)
    requires Run(states, steps) && n < |states|
    requires UniqueKeys(states[0].rows) && states[0].threads == map[]
    ensures OneCover(states[n].rows) && SubstituteOnce(states[n].rows) && NoDuplicate(states[n].rows)
    ensures forall t :: t in states[n].threads ==> states[n].threads[t].pc != Finished(DuplicateKey)
    ensures forall cycle :: !WaitCycle(states[n], cycle)
  {
    RunKeepsInv(states, steps, n);
    forall t | t in states[n].threads ensures states[n].threads[t].pc != Finished(DuplicateKey) {
      assert ThreadOk(states[n].rows, states[n].threads[t]);
    }
    forall cycle ensures !WaitCycle(states[n], cycle) { NoWaitCycle(states[n], cycle); }
  }

  lemma {:induction false} OnlyItselfMoves(states: seq<State>, steps: seq<Step>, t: ThreadId, n: nat)
    requires Run(states, steps) && n < |states| && t in states[0].threads
    requires forall i :: 0 <= i < n ==> !(steps[i].Advance? && steps[i].t == t)
    ensures t in states[n].threads && states[n].threads[t] == states[0].threads[t]
  {
    if n > 0 {
      OnlyItselfMoves(states, steps, t, n - 1);
      assert Next(states[n - 1], states[n], steps[n - 1]);
    }
  }

  /** From the moment a winner looks for competitors to its commit anything may happen in between:
      afterwards it covers the period and every competitor it saw is filled. */
  lemma WinnerFillsCompetitors(states: seq<State>, steps: seq<Step>, t: ThreadId)
    requires Run(states, steps) && Inv(states[0]) && |steps| >= 2
    requires t in states[0].threads && states[0].threads[t].pc.FillOthers?
    requires steps[0].Advance? && steps[0].t == t
    requires steps[|steps| - 1].Advance? && steps[|steps| - 1].t == t
    requires forall i :: 0 < i < |steps| - 1 ==> !(steps[i].Advance? && steps[i].t == t)
    ensures var th, rows' := states[0].threads[t], states[|steps|].rows;
      && th.id in rows' && rows'[th.id] == th.pc.row.(status := Accepted)
      && (forall j :: j in Others(states[0].rows, th.id, th.pc.row) ==> j in rows' && rows'[j].status == Filled)
  {
    var last := |steps| - 1;
    assert Next(states[0], states[1], steps[0]);
    var commit := states[1].threads[t];
    OnlyItselfMoves(states[1..], steps[1..], t, last - 1);
    assert states[last] == states[1..][last - 1] && states[last].threads[t] == commit;
    RunKeepsInv(states, steps, last);
    assert ThreadOk(states[last].rows, commit);
    hide Inv, Run, KeyClash, UserHeld;
    assert Next(states[last], states[last + 1], steps[last]);
  }

  /** One undisturbed accept of the only request, up to its commit. */
  lemma AloneToCommit(row: Request) returns (states: seq<State>, steps: seq<Step>)
    requires row.requester < row.substitute && row.status == Pending
    ensures Run(states, steps) && states[0] == State(map[0 := row], map[], {})
    ensures states[|steps|] == State(map[0 := row],
              map[0 := Thread(row.substitute, 0, Commit(row, map[0 := Accepted], Won))], {})
  {
    var rows := map[0 := row];
    var low, high := row.requester, row.substitute;
    var pcs := [Peek, LockFirst(low, high), LockSecond(low, high), LockRow(low, high), CheckCover(row), CheckBusy(row),
                MarkAccepted(row), FillOthers(row), Commit(row, map[0 := Accepted], Won)];
    assert Others(rows, 0, row) == {};
    states := [State(rows, map[], {}), State(rows, map[0 := Thread(high, 0, Peek)], {})];
    steps := [Start(0, high, 0)];
    for k := 0 to 8
      invariant |steps| == k + 1 && Run(states, steps) && states[0] == State(rows, map[], {})
      invariant states[k + 1] == State(rows, map[0 := Thread(high, 0, pcs[k])], {})
    {
      var now := State(rows, map[0 := Thread(high, 0, pcs[k + 1])], {});
      assert NextPc(states[k + 1], 0, false) == Some(pcs[k + 1]);
      assert Next(states[k + 1], now, Advance(0, false));
      states, steps := states + [now], steps + [Advance(0, false)];
    }
  }

  // ---------------------------------------------- pending beside accepted

  /** Creating takes no user lock: the period is covered, or about to be by a winner that has looked
      for competitors already. */
  ghost predicate Late(s: State, row: Request) {
    || Covered(s.rows, row)
    || exists t :: t in s.threads && AboutToCover(s.threads[t], row)
  }

  predicate AboutToCover(th: Thread, row: Request) {
    th.pc.Commit? && th.pc.outcome == Won && SamePeriod(th.pc.row, row)
  }

  ghost predicate WinnersReady(s: State) {
    forall t, j :: t in s.threads && s.threads[t].pc.Commit? && s.threads[t].pc.outcome == Won
      && j in s.rows && SamePeriod(s.rows[j], s.threads[t].pc.row) && s.rows[j].status == Pending
      ==> j in s.threads[t].pc.writes
  }

  predicate TurnedAway(pc: Pc) {
    pc.MarkFilled? || ((pc.Commit? || pc.Finished?) && pc.outcome == PeriodTaken)
  }

  /** Nothing is pending for a covered period, nor will be once the winners commit, and nobody was
      told that somebody else already covers it. */
  ghost predicate Tidy(s: State) {
    && Inv(s) && NothingPendingWhenCovered(s.rows) && WinnersReady(s)
    && forall t :: t in s.threads ==> !TurnedAway(s.threads[t].pc)
  }

  lemma CommitStaysTidy(s: State, s': State, t: ThreadId, otherReason: bool)
    requires Tidy(s) && ThreadStep(s, s', t, otherReason) && s.threads[t].pc.Commit?
    ensures NothingPendingWhenCovered(s'.rows) && WinnersReady(s') && !TurnedAway(s'.threads[t].pc)
  {
    var me := s.threads[t];
    assert ThreadOk(s.rows, me);
    hide UniqueKeys, LocksApart;
    assert forall j :: j in s.rows && s'.rows[j].status == Pending ==> j !in me.pc.writes && s.rows[j] == s'.rows[j];
    forall i, j | i in s'.rows && j in s'.rows && SamePeriod(s'.rows[i], s'.rows[j]) && s'.rows[i].status == Accepted
      ensures s'.rows[j].status != Pending
    {
      if s.rows[i].status != Accepted { assert i == me.id && me.pc.writes[me.id] == Accepted; }
    }
  }

  lemma LookingStaysTidy(s: State, s': State, t: ThreadId, otherReason: bool)
    requires Tidy(s) && ThreadStep(s, s', t, otherReason) && !s.threads[t].pc.Commit?
    ensures WinnersReady(s') && !TurnedAway(s'.threads[t].pc)
  {
    if s.threads[t].pc.CheckCover? { assert ThreadOk(s.rows, s.threads[t]); }
    hide Inv, KeyClash;
    forall u, j | u in s'.threads && s'.threads[u].pc.Commit? && s'.threads[u].pc.outcome == Won
      && j in s'.rows && SamePeriod(s'.rows[j], s'.threads[u].pc.row) && s'.rows[j].status == Pending
      ensures j in s'.threads[u].pc.writes
    {
      var me := s.threads[t];
      if u == t { assert me.pc.FillOthers? && (j == me.id || j in Others(s.rows, me.id, me.pc.row)); }
    }
  }

  lemma OutsideStaysTidy(s: State, s': State)
    requires NothingPendingWhenCovered(s.rows) && WinnersReady(s)
    requires s'.threads == s.threads && s'.rows.Keys == s.rows.Keys
    requires forall j :: j in s.rows ==> SameAsk(s.rows[j], s'.rows[j])
    requires forall j :: j in s.rows ==> s'.rows[j].status == s.rows[j].status || !Open(s'.rows[j].status)
    ensures NothingPendingWhenCovered(s'.rows) && WinnersReady(s')
  {
  }

  lemma CreateStaysTidy(s: State, s': State, id: RequestId, row: Request)
    requires Tidy(s) && CreateStep(s, s', id, row) && !Late(s, row)
    ensures NothingPendingWhenCovered(s'.rows) && WinnersReady(s')
  {
    hide Inv;
    forall t | t in s.threads && s.threads[t].pc.Commit? && s.threads[t].pc.outcome == Won
      ensures !SamePeriod(row, s.threads[t].pc.row)
    {
      assert !AboutToCover(s.threads[t], row);
    }
  }

  lemma OnTimeStaysTidy(s: State, s': State, step: Step)
    requires Tidy(s) && Next(s, s', step) && (step.Create? ==> !Late(s, step.row))
    ensures Tidy(s')
  {
    NextKeepsInv(s, s', step);
    hide Inv, NothingPendingWhenCovered, WinnersReady, Late, NextPc;
    match step
    case Advance(t, otherReason) =>
      if s.threads[t].pc.Commit? {
        CommitStaysTidy(s, s', t, otherReason);
      } else {
        LookingStaysTidy(s, s', t, otherReason);
      }
    case Start(_, _, _) =>
    case Create(id, row) => CreateStaysTidy(s, s', id, row);
    case Hold(_) =>
    case Close(_, _) => OutsideStaysTidy(s, s');
    case Retie(_) => OutsideStaysTidy(s, s');
  }

  ghost predicate OnTime(states: seq<State>, steps: seq<Step>)
    requires |states| == |steps| + 1
  {
    forall i :: 0 <= i < |steps| && steps[i].Create? ==> !Late(states[i], steps[i].row)
  }

  /** Without late creates nothing is ever pending for a covered period, whatever overlaps. */
  lemma {:induction false} OnTimeRunsAreTidy(states: seq<State>, steps: seq<Step>, n: nat)
    requires Run(states, steps) && Tidy(states[0]) && n < |states| && OnTime(states, steps)
    ensures Tidy(states[n])
  {
    hide Tidy, Next, Late;
    if n > 0 {
      OnTimeRunsAreTidy(states, steps, n - 1);
      OnTimeStaysTidy(states[n - 1], states[n], steps[n - 1]);
    }
  }

  lemma StartsTidy(s: State)
    requires s.threads == map[] && UniqueKeys(s.rows) && NothingPendingWhenCovered(s.rows)
    ensures Tidy(s)
  {
  }

  /** A winner's next step never waits, and then its period is covered. */
  lemma WinnerCommits(s: State, t: ThreadId, id: RequestId) returns (end: State)
    requires Inv(s) && t in s.threads && s.threads[t].pc.Commit? && s.threads[t].pc.outcome == Won
    requires id in s.rows && id !in s.threads[t].pc.writes && s.rows[id].status == Pending
    requires SamePeriod(s.threads[t].pc.row, s.rows[id])
    ensures Next(s, end, Advance(t, false)) && !NothingPendingWhenCovered(end.rows)
  {
    var me := s.threads[t];
    assert ThreadOk(s.rows, me);
    hide UniqueKeys, LocksApart, Inv;
    end := State(Written(s.rows, me.pc.writes), s.threads[t := me.(pc := Finished(Won))], s.held);
    assert end.rows[me.id].status == Accepted && end.rows[id] == s.rows[id];
    assert SamePeriod(end.rows[me.id], end.rows[id]);
  }

  lemma CoveredBreaks(s: State, s': State, id: RequestId, row: Request)
    requires CreateStep(s, s', id, row) && Covered(s.rows, row)
    ensures !NothingPendingWhenCovered(s'.rows)
  {
    var j :| j in s.rows && SamePeriod(s.rows[j], row) && s.rows[j].status == Accepted;
    assert s'.rows[j] == s.rows[j] && s'.rows[id] == row;
  }

  lemma CommitBreaks(s: State, s': State, id: RequestId, row: Request, t: ThreadId) returns (end: State)
    requires Inv(s) && CreateStep(s, s', id, row) && t in s.threads && AboutToCover(s.threads[t], row)
    ensures Next(s', end, Advance(t, false)) && !NothingPendingWhenCovered(end.rows)
  {
    assert ThreadOk(s.rows, s.threads[t]);
    NextKeepsInv(s, s', Create(id, row));
    hide Inv;
    end := WinnerCommits(s', t, id);
  }

  /** A late create breaks it at once, or as soon as the winner takes its next step. */
  lemma LateCreateBreaks(s: State, s': State, id: RequestId, row: Request)
    returns (states: seq<State>, steps: seq<Step>)
    requires Inv(s) && CreateStep(s, s', id, row) && Late(s, row)
    ensures Run(states, steps) && states[0] == s'
    ensures |steps| <= 1 && forall i :: 0 <= i < |steps| ==> steps[i].Advance?
    ensures !NothingPendingWhenCovered(states[|steps|].rows)
  {
    hide Inv, Covered, NothingPendingWhenCovered, AboutToCover, CreateStep, Next;
    if Covered(s.rows, row) {
      states, steps := [s'], [];
      CoveredBreaks(s, s', id, row);
    } else {
      var t :| t in s.threads && AboutToCover(s.threads[t], row);
      var end := CommitBreaks(s, s', id, row, t);
      states, steps := [s', end], [Advance(t, false)];
    }
  }

  /** So creating is safe exactly when it is not late. */
  lemma CreateIsSafeIff(s: State, s': State, id: RequestId, row: Request)
    requires Tidy(s) && CreateStep(s, s', id, row)
    ensures !Late(s, row) <==>
      forall states: seq<State>, steps: seq<Step> :: Run(states, steps) && states[0] == s' && OnTime(states, steps) ==>
        NothingPendingWhenCovered(states[|steps|].rows)
  {
    if Late(s, row) {
      var states, steps := LateCreateBreaks(s, s', id, row);
      assert OnTime(states, steps);
    } else {
      OnTimeStaysTidy(s, s', Create(id, row));
      forall states: seq<State>, steps: seq<Step> | Run(states, steps) && states[0] == s' && OnTime(states, steps)
        ensures NothingPendingWhenCovered(states[|steps|].rows)
      {
        OnTimeRunsAreTidy(states, steps, |steps|);
      }
    }
  }

  /** And late creates do happen: one between the winner's look for competitors and its commit. */
  lemma PendingBesideAccepted() returns (states: seq<State>, steps: seq<Step>)
    ensures Run(states, steps) && Tidy(states[0]) && states[0].threads == map[]
    ensures !NothingPendingWhenCovered(states[|steps|].rows)
  {
    var row := Request(1, 2, 0, 1, None, Pending);
    var late := Request(1, 3, 0, 1, None, Pending);
    states, steps := AloneToCommit(row);
    StartsTidy(states[0]);
    var now := states[|steps|];
    var created := now.(rows := now.rows[1 := late]);
    assert Next(now, created, Create(1, late));
    RunKeepsInv(states, steps, |steps|);
    assert AboutToCover(now.threads[0], late);
    var more, last := LateCreateBreaks(now, created, 1, late);
    assert Next(now, more[0], Create(1, late));
    states, steps := states + more, steps + [Create(1, late)] + last;
  }
}
