/** Paying, deleting, claiming and reviewing at the same time: each request locks rows
    (SELECT … FOR UPDATE), reads them, decides on what it read and commits later. */
module FeeLocks {
  import opened Collections
  import opened Fees

  type Thread = nat

  /** How far a request has come: the rows it holds locked and what it read from them. */
  datatype Phase =
    | Idle
    | PayHolds(org: OrgId, fee: FeeId, read: Fee)
    | DeleteHolds(org: OrgId, fee: FeeId, read: Fee)
    | DeleteReady(org: OrgId, fee: FeeId, read: Fee)                         // counted no open claims
    | SubmitHolds(org: OrgId, student: StudentId, fee: FeeId, read: Fee)
    | SubmitReady(org: OrgId, student: StudentId, fee: FeeId, read: Fee)     // found no pending claim
    | ReviewHolds(org: OrgId, claim: ClaimId, row: Claim, approving: bool)
    | ApproveHolds(org: OrgId, claim: ClaimId, row: Claim, read: Fee)        // also holds the claim's fee

  /** `log` lists what was committed, in order. */
  datatype World = World(tables: Tables, threads: map<Thread, Phase>, log: seq<Op>)

  datatype Event =
    | StartPay(i: Thread, org: OrgId, fee: FeeId)
    | StartDelete(i: Thread, org: OrgId, fee: FeeId)
    | StartSubmit(i: Thread, org: OrgId, student: StudentId, fee: FeeId)
    | StartReview(i: Thread, org: OrgId, claim: ClaimId, approving: bool)
    | LockFee(i: Thread)
    | Check(i: Thread)
    | Commit(i: Thread)
    | Abort(i: Thread)
    | Insert(op: Op)                       // create_fee, generate_class_fees, create_transaction

  function FeeHeld(p: Phase): Option<FeeId> {
    match p
    case PayHolds(_, f, _) => Some(f)
    case DeleteHolds(_, f, _) => Some(f)
    case DeleteReady(_, f, _) => Some(f)
    case SubmitHolds(_, _, f, _) => Some(f)
    case SubmitReady(_, _, f, _) => Some(f)
    case ApproveHolds(_, _, row, _) => Some(row.fee)
    case _ => None
  }

  function ClaimHeld(p: Phase): Option<ClaimId> {
    match p
    case ReviewHolds(_, c, _, _) => Some(c)
    case ApproveHolds(_, c, _, _) => Some(c)
    case _ => None
  }

  function PhaseOf(w: World, i: Thread): Phase {
    if i in w.threads then w.threads[i] else Idle
  }

  predicate FeeFree(w: World, f: FeeId) {
    forall i :: i in w.threads ==> FeeHeld(w.threads[i]) != Some(f)
  }

  predicate ClaimFree(w: World, c: ClaimId) {
    forall i :: i in w.threads ==> ClaimHeld(w.threads[i]) != Some(c)
  }

  function At(w: World, i: Thread, p: Phase): World {
    w.(threads := w.threads[i := p])
  }

  /** The rows as the request leaves them, computed from what it read. */
  function Effect(t: Tables, p: Phase): Tables {
    match p
    case PayHolds(_, f, read) => MarkPaid(t, f, read).0
    case DeleteReady(_, f, _) => Remove(t, f)
    case SubmitReady(org, student, f, read) => InsertClaim(t, org, f, student, read)
    case ReviewHolds(_, c, _, approving) => if c in t.claims && !approving then SetStatus(t, c, Rejected) else t
    case ApproveHolds(_, c, row, read) =>
      if c !in t.claims then t
      else if read.paid then SetStatus(t, c, Approved)
      else MarkPaid(SetStatus(t, c, Approved), row.fee, read).0
    case _ => t
  }

  /** What it did, seen from outside. */
  function Done(p: Phase): seq<Op> {
    match p
    case PayHolds(org, f, _) => [PayFee(org, f)]
    case DeleteReady(org, f, _) => [DeleteFee(org, f)]
    case SubmitReady(org, student, f, _) => [SubmitClaim(org, student, f)]
    case ReviewHolds(org, c, _, approving) => if approving then [] else [RejectClaim(org, c)]
    case ApproveHolds(org, c, _, _) => [ApproveClaim(org, c)]
    case _ => []
  }

  predicate MayCommit(p: Phase) {
    p.PayHolds? || p.DeleteReady? || p.SubmitReady? || (p.ReviewHolds? && !p.approving) || p.ApproveHolds?
  }

  predicate Inserts(op: Op) {
    op.CreateFee? || op.GenerateFees? || op.CreateTxn?
  }

  /** One step of one request. A lock that is taken makes it wait: nothing happens yet. */
  function Next(w: World, e: Event): World {
    var t := w.tables;
    match e
    case StartPay(i, org, f) =>
      if PhaseOf(w, i) == Idle && f in t.fees && FeeFree(w, f) && t.fees[f].org == org && !t.fees[f].paid
      then At(w, i, PayHolds(org, f, t.fees[f])) else w
    case StartDelete(i, org, f) =>
      if PhaseOf(w, i) == Idle && f in t.fees && FeeFree(w, f) && t.fees[f].org == org && !t.fees[f].paid
      then At(w, i, DeleteHolds(org, f, t.fees[f])) else w
    case StartSubmit(i, org, student, f) =>
      if PhaseOf(w, i) == Idle && f in t.fees && FeeFree(w, f) && t.fees[f].org == org && t.fees[f].student == student
         && !t.fees[f].paid
      then At(w, i, SubmitHolds(org, student, f, t.fees[f])) else w
    case StartReview(i, org, c, approving) =>
      if PhaseOf(w, i) == Idle && c in t.claims && ClaimFree(w, c) && t.claims[c].org == org
          && t.claims[c].status == Pending
      then At(w, i, ReviewHolds(org, c, t.claims[c], approving)) else w
    case LockFee(i) =>
      var p := PhaseOf(w, i);
      if p.ReviewHolds? && p.approving && p.row.fee in t.fees && FeeFree(w, p.row.fee)
      then At(w, i, ApproveHolds(p.org, p.claim, p.row, t.fees[p.row.fee])) else w
    case Check(i) =>
      var p := PhaseOf(w, i);
      if p.DeleteHolds? then At(w, i, if OpenOn(t, p.fee) == {} then DeleteReady(p.org, p.fee, p.read) else Idle)
      else if p.SubmitHolds?
      then At(w, i, if PendingOn(t, p.fee) == {} then SubmitReady(p.org, p.student, p.fee, p.read) else Idle)
      else w
    case Commit(i) =>
      var p := PhaseOf(w, i);
      if MayCommit(p) then World(Effect(t, p), w.threads[i := Idle], w.log + Done(p)) else w
    case Abort(i) => At(w, i, Idle)
    case Insert(op) =>
      if Inserts(op) then w.(tables := Apply(t, op), log := w.log + [op]) else w
  }

  function RunAll(w: World, events: seq<Event>): World
    decreases |events|
  {
    if events == [] then w else RunAll(Next(w, events[0]), events[1..])
  }

  /** The steps of one request, one after the other. */
  function Steps(i: Thread, op: Op): seq<Event> {
    match op
    case PayFee(org, f) => [StartPay(i, org, f), Commit(i)]
    case DeleteFee(org, f) => [StartDelete(i, org, f), Check(i), Commit(i)]
    case SubmitClaim(org, student, f) => [StartSubmit(i, org, student, f), Check(i), Commit(i)]
    case ApproveClaim(org, c) => [StartReview(i, org, c, true), LockFee(i), Commit(i)]
    case RejectClaim(org, c) => [StartReview(i, org, c, false), Commit(i)]
    case _ => [Insert(op)]
  }

  lemma RunSteps(w: World, a: Event, b: Event, c: Event)
    ensures RunAll(w, [a]) == Next(w, a)
    ensures RunAll(w, [a, b]) == Next(Next(w, a), b)
    ensures RunAll(w, [a, b, c]) == Next(Next(Next(w, a), b), c)
  {
    hide Next;
    assert [a, b, c][1..] == [b, c] && [b, c][1..] == [c] && [a, b][1..] == [b];
    assert RunAll(Next(Next(w, a), b), [c]) == Next(Next(Next(w, a), b), c);
    assert RunAll(Next(w, a), [b, c]) == RunAll(Next(Next(w, a), b), [c]);
    assert RunAll(Next(w, a), [b]) == Next(Next(w, a), b);
  }

  predicate NothingHeld(w: World) {
    forall j :: j in w.threads ==> FeeHeld(w.threads[j]) == None && ClaimHeld(w.threads[j]) == None
  }

  /** The steps go through when the operation does, and leave no trace when it is refused. */
  ghost predicate AmountsTo(w: World, i: Thread, op: Op) {
    var w' := RunAll(w, Steps(i, op));
    && w'.tables == Apply(w.tables, op) && PhaseOf(w', i) == Idle
    && (w'.log == w.log + [op] || (w'.log == w.log && w'.tables == w.tables))
    && forall j :: j in w.threads && j != i ==> j in w'.threads && w'.threads[j] == w.threads[j]
  }

  lemma PayAlone(w: World, i: Thread, org: OrgId, f: FeeId)
    requires PhaseOf(w, i) == Idle && NothingHeld(w)
    ensures AmountsTo(w, i, PayFee(org, f))
  {
    var steps := Steps(i, PayFee(org, f));
    RunSteps(w, steps[0], steps[1], steps[1]);
    hide RunAll, MarkPaid, InsertClaim, Remove, OpenOn, PendingOn;
  }

  lemma DeleteAlone(w: World, i: Thread, org: OrgId, f: FeeId)
    requires PhaseOf(w, i) == Idle && NothingHeld(w)
    ensures AmountsTo(w, i, DeleteFee(org, f))
  {
    var steps := Steps(i, DeleteFee(org, f));
    RunSteps(w, steps[0], steps[1], steps[2]);
    hide RunAll, MarkPaid, InsertClaim, Remove, OpenOn, PendingOn;
  }

  lemma SubmitAlone(w: World, i: Thread, org: OrgId, student: StudentId, f: FeeId)
    requires PhaseOf(w, i) == Idle && NothingHeld(w)
    ensures AmountsTo(w, i, SubmitClaim(org, student, f))
  {
    var steps := Steps(i, SubmitClaim(org, student, f));
    RunSteps(w, steps[0], steps[1], steps[2]);
    hide RunAll, MarkPaid, InsertClaim, Remove, OpenOn, PendingOn;
  }

  lemma ApproveAlone(w: World, i: Thread, org: OrgId, c: ClaimId)
    requires PhaseOf(w, i) == Idle && NothingHeld(w)
    requires c in w.tables.claims ==> w.tables.claims[c].fee in w.tables.fees
    ensures AmountsTo(w, i, ApproveClaim(org, c))
  {
    var steps := Steps(i, ApproveClaim(org, c));
    RunSteps(w, steps[0], steps[1], steps[2]);
    hide RunAll, MarkPaid, InsertClaim, Remove, OpenOn, PendingOn;
  }

  lemma RejectAlone(w: World, i: Thread, org: OrgId, c: ClaimId)
    requires PhaseOf(w, i) == Idle && NothingHeld(w)
    ensures AmountsTo(w, i, RejectClaim(org, c))
  {
    var steps := Steps(i, RejectClaim(org, c));
    RunSteps(w, steps[0], steps[1], steps[1]);
    hide RunAll, MarkPaid, InsertClaim, Remove, OpenOn, PendingOn;
  }

  /** With nothing locked, the steps of a request amount to the operation. */
  lemma AloneIsOperation(w: World, i: Thread, op: Op)
    requires PhaseOf(w, i) == Idle && NothingHeld(w)
    requires op.ApproveClaim? && op.claim in w.tables.claims ==> w.tables.claims[op.claim].fee in w.tables.fees
    ensures AmountsTo(w, i, op)
  {
    match op
    case PayFee(org, f) => PayAlone(w, i, org, f);
    case DeleteFee(org, f) => DeleteAlone(w, i, org, f);
    case SubmitClaim(org, student, f) => SubmitAlone(w, i, org, student, f);
    case ApproveClaim(org, c) => ApproveAlone(w, i, org, c);
    case RejectClaim(org, c) => RejectAlone(w, i, org, c);
    case _ =>
      RunSteps(w, Insert(op), Insert(op), Insert(op));
  }

  // ------------------------------------------------------------- invariant

  predicate FeeRow(t: Tables, org: OrgId, f: FeeId, read: Fee) {
    f in t.fees && t.fees[f] == read && read.org == org && !read.paid
  }

  predicate ClaimRow(t: Tables, org: OrgId, c: ClaimId, row: Claim) {
    c in t.claims && t.claims[c] == row && row.org == org && row.status == Pending
  }

  /** What the request read is still what the tables hold. */
  predicate Fresh(t: Tables, p: Phase) {
    match p
    case Idle => true
    case PayHolds(org, f, read) => FeeRow(t, org, f, read)
    case DeleteHolds(org, f, read) => FeeRow(t, org, f, read)
    case DeleteReady(org, f, read) => FeeRow(t, org, f, read) && OpenOn(t, f) == {}
    case SubmitHolds(org, student, f, read) => FeeRow(t, org, f, read) && read.student == student
    case SubmitReady(org, student, f, read) =>
      FeeRow(t, org, f, read) && read.student == student && PendingOn(t, f) == {}
    case ReviewHolds(org, c, row, _) => ClaimRow(t, org, c, row)
    case ApproveHolds(org, c, row, read) => ClaimRow(t, org, c, row) && row.fee in t.fees && t.fees[row.fee] == read
  }

  predicate Apart(p: Phase, q: Phase) {
    && (FeeHeld(p).Some? ==> FeeHeld(p) != FeeHeld(q))
    && (ClaimHeld(p).Some? ==> ClaimHeld(p) != ClaimHeld(q))
  }

  ghost predicate Locked(w: World) {
    && (forall i :: i in w.threads ==> Fresh(w.tables, w.threads[i]))
    && (forall i, j :: i in w.threads && j in w.threads && i != j ==> Apart(w.threads[i], w.threads[j]))
  }

  /** The tables are what running the log one request at a time gives. */
  ghost predicate Serial(start: Tables, w: World) {
    w.tables == Run(start, w.log)
  }

  lemma {:induction false} RunMore(t: Tables, ops: seq<Op>, more: seq<Op>)
    ensures Run(t, ops + more) == Run(Run(t, ops), more)
    decreases |ops|
  {
    hide Apply;
    if ops == [] {
      assert ops + more == more;
    } else {
      assert (ops + more)[0] == ops[0] && (ops + more)[1..] == ops[1..] + more;
      RunMore(Apply(t, ops[0]), ops[1..], more);
    }
  }

  lemma RunOne(t: Tables, op: Op)
    ensures Run(t, [op]) == Apply(t, op)
  {
    hide Apply;
    assert Run(t, [op]) == Run(Apply(t, op), [op][1..]);
  }

  /** Nothing read under a lock is stale: a commit does what the whole request would do now. */
  lemma CommitIsSerial(t: Tables, p: Phase)
    requires Fresh(t, p) && MayCommit(p)
    ensures Done(p) == [Done(p)[0]] && Effect(t, p) == Apply(t, Done(p)[0])
  {
  }

  lemma ClaimsElsewhere(t: Tables, t': Tables, q: Phase)
    requires Fresh(t, q) && t'.fees == t.fees
    requires ClaimHeld(q).Some? ==>
      ClaimHeld(q).value in t'.claims && t'.claims[ClaimHeld(q).value] == t.claims[ClaimHeld(q).value]
    requires FeeHeld(q).Some? ==> forall c :: c in t'.claims && t'.claims[c].fee == FeeHeld(q).value ==>
      && c in t.claims && t.claims[c].fee == t'.claims[c].fee
      && (t.claims[c].status == t'.claims[c].status || t.claims[c].status == Pending)
      && (t'.claims[c].status == Pending ==> t.claims[c].status == Pending)
    ensures Fresh(t', q)
  {
    if q.DeleteReady? {
      assert forall c :: c in OpenOn(t', q.fee) ==> c in OpenOn(t, q.fee);
    }
    if q.SubmitReady? {
      assert forall c :: c in PendingOn(t', q.fee) ==> c in PendingOn(t, q.fee);
    }
  }

  lemma FeesElsewhere(t: Tables, t': Tables, q: Phase)
    requires Fresh(t, q) && t'.claims == t.claims
    requires FeeHeld(q).Some? ==> FeeHeld(q).value in t'.fees && t'.fees[FeeHeld(q).value] == t.fees[FeeHeld(q).value]
    ensures Fresh(t', q)
  {
    if q.DeleteReady? { assert OpenOn(t', q.fee) == OpenOn(t, q.fee); }
    if q.SubmitReady? { assert PendingOn(t', q.fee) == PendingOn(t, q.fee); }
  }

  /** One request's commit leaves alone every row another one holds. */
  lemma OthersStayFresh(t: Tables, p: Phase, q: Phase)
    requires Fresh(t, p) && Fresh(t, q) && MayCommit(p) && Apart(p, q)
    requires forall c :: c in t.claims ==> c < t.nextClaim
    ensures Fresh(Effect(t, p), q)
  {
    match p
    case PayHolds(_, f, read) => FeesElsewhere(t, Effect(t, p), q);
    case DeleteReady(_, f, _) =>
      var t1 := t.(fees := t.fees - {f});
      FeesElsewhere(t, t1, q);
      ClaimsElsewhere(t1, Effect(t, p), q);
    case SubmitReady(_, _, _, _) => ClaimsElsewhere(t, Effect(t, p), q);
    case ReviewHolds(_, c, _, _) => ClaimsElsewhere(t, Effect(t, p), q);
    case ApproveHolds(_, c, row, read) =>
      var t1 := SetStatus(t, c, Approved);
      ClaimsElsewhere(t, t1, q);
      FeesElsewhere(t1, Effect(t, p), q);
  }

  lemma InsertStaysFresh(t: Tables, op: Op, q: Phase)
    requires Fresh(t, q) && Inserts(op) && Ids(t)
    ensures Fresh(Apply(t, op), q)
  {
    if op.GenerateFees? {
      InsertsKeepRows(t, op.org, Missing(t, op.students, op.title), op.title, op.amount);
    }
    hide InsertFees, Missing, Fresh;
    assert FeeHeld(q).Some? ==> FeeHeld(q).value in t.fees by { HeldExists(t, q); }
    FeesElsewhere(t, Apply(t, op), q);
  }

  lemma HeldExists(t: Tables, q: Phase)
    requires Fresh(t, q)
    ensures FeeHeld(q).Some? ==> FeeHeld(q).value in t.fees
    ensures ClaimHeld(q).Some? ==> ClaimHeld(q).value in t.claims
  {
  }

  lemma CommitStaysLocked(w: World, i: Thread)
    requires Locked(w) && Ids(w.tables)
    ensures Locked(Next(w, Commit(i)))
  {
    var w' := Next(w, Commit(i));
    hide Effect, Fresh, Apart, MayCommit, Done;
    if i in w.threads && MayCommit(w.threads[i]) {
      forall j | j in w'.threads ensures Fresh(w'.tables, w'.threads[j]) {
        if j != i { OthersStayFresh(w.tables, w.threads[i], w.threads[j]); } else { IdleIsFresh(w'.tables); }
      }
      forall j, k | j in w'.threads && k in w'.threads && j != k ensures Apart(w'.threads[j], w'.threads[k]) {
        IdleIsApart(w'.threads[j]);
        IdleIsApart(w'.threads[k]);
      }
    } else {
      IdleWaits();
    }
  }

  lemma IdleIsFresh(t: Tables)
    ensures Fresh(t, Idle)
  {
  }

  lemma IdleIsApart(p: Phase)
    ensures Apart(Idle, p) && Apart(p, Idle)
  {
  }

  lemma IdleWaits()
    ensures !MayCommit(Idle)
  {
  }

  /** Steps that only lock and read. */
  lemma AtStaysLocked(w: World, i: Thread, p: Phase)
    requires Locked(w) && Fresh(w.tables, p)
    requires FeeHeld(p).Some? ==> FeeHeld(p) == FeeHeld(PhaseOf(w, i)) || FeeFree(w, FeeHeld(p).value)
    requires ClaimHeld(p).Some? ==> ClaimHeld(p) == ClaimHeld(PhaseOf(w, i)) || ClaimFree(w, ClaimHeld(p).value)
    ensures Locked(At(w, i, p))
  {
    hide Fresh;
  }

  lemma NextStaysLocked(w: World, e: Event)
    requires Locked(w) && Ids(w.tables)
    ensures Locked(Next(w, e))
  {
    match e
    case Commit(i) => CommitStaysLocked(w, i);
    case Insert(op) =>
      if Inserts(op) {
        forall j | j in w.threads ensures Fresh(Apply(w.tables, op), w.threads[j]) {
          InsertStaysFresh(w.tables, op, w.threads[j]);
        }
      }
    case _ =>
      var i := e.i;
      var w' := Next(w, e);
      if w' != w { AtStaysLocked(w, i, w'.threads[i]); }
  }

  /** However requests interleave, the tables are those of running the committed ones one by one. */
  lemma NextIsSerial(start: Tables, w: World, e: Event)
    requires Locked(w) && Serial(start, w)
    ensures Serial(start, Next(w, e))
  {
    match e
    case Commit(i) =>
      var p := PhaseOf(w, i);
      if MayCommit(p) {
        CommitIsSerial(w.tables, p);
        hide *;
        RunMore(start, w.log, Done(p));
        RunOne(w.tables, Done(p)[0]);
      }
    case Insert(op) =>
      RunMore(start, w.log, [op]);
      RunOne(w.tables, op);
    case _ =>
  }

  ghost predicate Sound(start: Tables, w: World) {
    Locked(w) && Serial(start, w) && Books(w.tables) && Kept(start, w.tables)
  }

  lemma NextIsSound(start: Tables, w: World, e: Event)
    requires Books(start) && Sound(start, w)
    ensures Sound(start, Next(w, e))
  {
    NextStaysLocked(w, e);
    NextIsSerial(start, w, e);
    hide Next, Locked, Books;
    RunKeeps(start, Next(w, e).log);
  }

  /** Every interleaving of any number of requests is serial, keeps the books, and undoes no payment. */
  lemma {:induction false} InterleavingsAreSound(start: Tables, w: World, events: seq<Event>)
    requires Books(start) && Sound(start, w)
    ensures Sound(start, RunAll(w, events))
    decreases |events|
  {
    hide Sound, Next, Books;
    if events != [] {
      NextIsSound(start, w, events[0]);
      InterleavingsAreSound(start, Next(w, events[0]), events[1..]);
    }
  }

  lemma NobodyYet(start: Tables)
    requires Books(start)
    ensures Sound(start, World(start, map[], []))
  {
  }

  /** So money is conserved under every interleaving, whoever crashes in between. */
  lemma MoneyIsConserved(start: Tables, events: seq<Event>, org: OrgId, id: FeeId)
    requires Books(start)
    ensures var t := RunAll(World(start, map[], []), events).tables;
      && Collected(t, org) == Sum(FeeTxns(t, org), TxnAmounts(t))
      && (id in t.fees ==> (t.fees[id].paid <==> |Payments(t, id)| == 1))
      && (id in start.fees && start.fees[id].paid ==> id in t.fees && t.fees[id] == start.fees[id])
  {
    NobodyYet(start);
    InterleavingsAreSound(start, World(start, map[], []), events);
    var t := RunAll(World(start, map[], []), events).tables;
    hide *;
    SoundMeans(start, RunAll(World(start, map[], []), events));
    CollectedIsRecorded(t, org);
    if id in t.fees { PaidOnce(t, id); }
    KeptMeans(start, t, id);
  }

  lemma SoundMeans(start: Tables, w: World)
    requires Sound(start, w)
    ensures Books(w.tables) && Kept(start, w.tables)
  {
  }

  lemma KeptMeans(t: Tables, t': Tables, id: FeeId)
    requires Kept(t, t')
    ensures id in t.fees && t.fees[id].paid ==> id in t'.fees && t'.fees[id] == t.fees[id]
  {
  }

  /** Whoever waits for a fee waits for a request that can go on by itself: no deadlock. */
  lemma HoldersCanFinish(w: World, i: Thread, holder: Thread)
    requires Locked(w) && Books(w.tables)
    requires PhaseOf(w, i).ReviewHolds? && PhaseOf(w, i).approving
    requires holder in w.threads && FeeHeld(w.threads[holder]) == Some(PhaseOf(w, i).row.fee)
    ensures PhaseOf(w, i).row.fee in w.tables.fees
    ensures Next(w, Commit(holder)).threads[holder] == Idle || !MayCommit(w.threads[holder])
    ensures !MayCommit(w.threads[holder]) ==>
      var w' := Next(w, Check(holder)); w'.threads[holder] == Idle || MayCommit(w'.threads[holder])
    ensures forall j :: j in w.threads && j != i && FeeHeld(w.threads[j]) == Some(PhaseOf(w, i).row.fee) ==> j == holder
  {
    assert i in w.threads && Fresh(w.tables, w.threads[i]);
  }
}
