/** The rows of substitution_requests and the three UNIQUE keys of migration 0007, shared by
    the interleaved model of acceptance and by the serial model of the whole protocol. */
module SubstitutionRequests {
  import opened Collections

  type UserId = nat
  type RequestId = nat
  type LeaveId = nat

  datatype Status = Pending | Accepted | Declined | Cancelled | Withdrawn | Filled

  datatype Request = Request(
    requester: UserId, substitute: UserId, date: int, period: int,
    leave: Option<LeaveId>, status: Status)

  type Requests = map<RequestId, Request>

  predicate Open(status: Status) {
    status == Pending || status == Accepted
  }

  /** One documented status change. */
  predicate Edge(a: Status, b: Status) {
    match a
    case Pending => b == Accepted || b == Declined || b == Cancelled || b == Filled
    case Accepted => b == Withdrawn || b == Cancelled
    case _ => false
  }

  /** The same period of the same requester on the same day. */
  predicate SamePeriod(a: Request, b: Request) {
    a.requester == b.requester && a.date == b.date && a.period == b.period
  }

  predicate SameSubstitution(a: Request, b: Request) {
    a.substitute == b.substitute && a.date == b.date && a.period == b.period
  }

  /** ux_sub_req_one_cover: at most one accepted request for a period. */
  ghost predicate OneCover(rs: Requests) {
    forall i, j :: i in rs && j in rs && i != j && SamePeriod(rs[i], rs[j])
      ==> !(rs[i].status == Accepted && rs[j].status == Accepted)
  }

  /** ux_sub_req_sub_busy: nobody covers two classes in one period. */
  ghost predicate SubstituteOnce(rs: Requests) {
    forall i, j :: i in rs && j in rs && i != j && SameSubstitution(rs[i], rs[j])
      ==> !(rs[i].status == Accepted && rs[j].status == Accepted)
  }

  /** ux_sub_req_no_dup: one open request per requester, substitute, date and period. */
  ghost predicate NoDuplicate(rs: Requests) {
    forall i, j :: i in rs && j in rs && i != j && SamePeriod(rs[i], rs[j]) && rs[i].substitute == rs[j].substitute
      ==> !(Open(rs[i].status) && Open(rs[j].status))
  }

  ghost predicate UniqueKeys(rs: Requests) {
    OneCover(rs) && SubstituteOnce(rs) && NoDuplicate(rs)
  }

  /** Once somebody covers a period nobody is still being asked to. */
  ghost predicate NothingPendingWhenCovered(rs: Requests) {
    forall i, j :: i in rs && j in rs && SamePeriod(rs[i], rs[j])
      ==> !(rs[i].status == Accepted && rs[j].status == Pending)
  }

  /** Somebody has already accepted the period of `row`. */
  ghost predicate Covered(rs: Requests, row: Request) {
    exists j :: j in rs && SamePeriod(rs[j], row) && rs[j].status == Accepted
  }

  /** The substitute of `row` already covers a class in that period. */
  ghost predicate Covering(rs: Requests, row: Request) {
    exists j :: j in rs && SameSubstitution(rs[j], row) && rs[j].status == Accepted
  }

  /** Who asks whom, and for what, never changes. */
  predicate SameAsk(before: Request, after: Request) {
    after == before.(status := after.status, leave := after.leave)
  }
}
