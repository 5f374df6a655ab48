/** Fees, payment proofs and transactions (services/fees.py, services/payments.py), one database
    transaction at a time. Amounts are whole minor units. */
module Fees {
  import opened Collections

  type OrgId = nat
  type StudentId = nat
  type FeeId = nat
  type ClaimId = nat
  type TxnId = nat

  datatype Fee = Fee(org: OrgId, student: StudentId, title: string, amount: nat, paid: bool)

  datatype Status = Pending | Approved | Rejected

  datatype Claim = Claim(org: OrgId, fee: FeeId, student: StudentId, amount: nat, status: Status)

  datatype Txn = Txn(org: OrgId, student: Option<StudentId>, fee: Option<FeeId>, amount: nat, success: bool)

  datatype Tables = Tables(
    fees: map<FeeId, Fee>, claims: map<ClaimId, Claim>, txns: map<TxnId, Txn>,
    nextFee: FeeId, nextClaim: ClaimId, nextTxn: TxnId)

  datatype Answer = Done | NotFound | AlreadyPaid | HasClaims | UnderReview | AlreadyReviewed | NoAmount

  // ------------------------------------------------------------ operations

  function InsertFee(t: Tables, fee: Fee): Tables {
    t.(fees := t.fees[t.nextFee := fee], nextFee := t.nextFee + 1)
  }

  function InsertTxn(t: Tables, txn: Txn): Tables {
    t.(txns := t.txns[t.nextTxn := txn], nextTxn := t.nextTxn + 1)
  }

  /** `_mark_paid`: only a pending fee changes, and only then is the payment recorded, from the row
      as it was read. */
  function MarkPaid(t: Tables, id: FeeId, read: Fee): (r: (Tables, bool))
    ensures if r.1 then r.0.nextTxn == t.nextTxn + 1 else r.0 == t
  {
    if id in t.fees && !t.fees[id].paid then
      (InsertTxn(t.(fees := t.fees[id := t.fees[id].(paid := true)]),
                 Txn(read.org, Some(read.student), Some(id), read.amount, true)), true)
    else (t, false)
  }

  function Pay(t: Tables, org: OrgId, id: FeeId): (Tables, Answer) {
    if id !in t.fees || t.fees[id].org != org then (t, NotFound)
    else if t.fees[id].paid then (t, AlreadyPaid)
    else (MarkPaid(t, id, t.fees[id]).0, Done)
  }

  function PendingOn(t: Tables, id: FeeId): set<ClaimId> {
    set c | c in t.claims && t.claims[c].fee == id && t.claims[c].status == Pending
  }

  function OpenOn(t: Tables, id: FeeId): set<ClaimId> {
    set c | c in t.claims && t.claims[c].fee == id && t.claims[c].status != Rejected
  }

  function Remove(t: Tables, id: FeeId): Tables {
    t.(fees := t.fees - {id},
       claims := map c | c in t.claims && !(t.claims[c].fee == id && t.claims[c].status == Rejected) :: t.claims[c])
  }

  function Delete(t: Tables, org: OrgId, id: FeeId): (Tables, Answer) {
    if id !in t.fees || t.fees[id].org != org then (t, NotFound)
    else if t.fees[id].paid then (t, AlreadyPaid)
    else if OpenOn(t, id) != {} then (t, HasClaims)
    else (Remove(t, id), Done)
  }

  function InsertClaim(t: Tables, org: OrgId, id: FeeId, student: StudentId, read: Fee): Tables {
    t.(claims := t.claims[t.nextClaim := Claim(org, id, student, read.amount, Pending)], nextClaim := t.nextClaim + 1)
  }

  function Submit(t: Tables, org: OrgId, student: StudentId, id: FeeId): (Tables, Answer) {
    if id !in t.fees || t.fees[id].org != org || t.fees[id].student != student then (t, NotFound)
    else if t.fees[id].paid then (t, AlreadyPaid)
    else if PendingOn(t, id) != {} then (t, UnderReview)
    else (InsertClaim(t, org, id, student, t.fees[id]), Done)
  }

  function SetStatus(t: Tables, c: ClaimId, status: Status): Tables
    requires c in t.claims
  {
    t.(claims := t.claims[c := t.claims[c].(status := status)])
  }

  function Approve(t: Tables, org: OrgId, c: ClaimId): (Tables, Answer) {
    if c !in t.claims || t.claims[c].org != org then (t, NotFound)
    else if t.claims[c].status != Pending then (t, AlreadyReviewed)
    else
      var id, t' := t.claims[c].fee, SetStatus(t, c, Approved);
      (if id in t.fees && !t.fees[id].paid then MarkPaid(t', id, t.fees[id]).0 else t', Done)
  }

  function Reject(t: Tables, org: OrgId, c: ClaimId): (Tables, Answer) {
    if c !in t.claims || t.claims[c].org != org then (t, NotFound)
    else if t.claims[c].status != Pending then (t, AlreadyReviewed)
    else (SetStatus(t, c, Rejected), Done)
  }

  predicate HasFee(t: Tables, student: StudentId, title: string) {
    exists f :: f in t.fees && t.fees[f].student == student && t.fees[f].title == title
  }

  /** The students, in order, without a fee of that title. */
  function Missing(t: Tables, students: seq<StudentId>, title: string): seq<StudentId> {
    if students == [] then []
    else (if HasFee(t, students[0], title) then [] else [students[0]]) + Missing(t, students[1..], title)
  }

  function InsertFees(t: Tables, org: OrgId, students: seq<StudentId>, title: string, amount: nat): Tables
    decreases |students|
  {
    if students == [] then t
    else InsertFees(InsertFee(t, Fee(org, students[0], title, amount, false)), org, students[1..], title, amount)
  }

  /** `generate_class_fees` for the class's active students: the tables and how many were created. */
  function Generate(t: Tables, org: OrgId, students: seq<StudentId>, title: string, amount: nat)
    : (Tables, nat, Answer)
  {
    if amount == 0 then (t, 0, NoAmount)
    else
      var new' := Missing(t, students, title);
      (InsertFees(t, org, new', title, amount), |new'|, Done)
  }

  datatype Op =
    | PayFee(org: OrgId, fee: FeeId)
    | DeleteFee(org: OrgId, fee: FeeId)
    | SubmitClaim(org: OrgId, student: StudentId, fee: FeeId)
    | ApproveClaim(org: OrgId, claim: ClaimId)
    | RejectClaim(org: OrgId, claim: ClaimId)
    | CreateFee(org: OrgId, student: StudentId, title: string, amount: nat)
    | GenerateFees(org: OrgId, students: seq<StudentId>, title: string, amount: nat)
    | CreateTxn(org: OrgId, payer: Option<StudentId>, amount: nat, success: bool)

  function Apply(t: Tables, op: Op): Tables {
    match op
    case PayFee(org, fee) => Pay(t, org, fee).0
    case DeleteFee(org, fee) => Delete(t, org, fee).0
    case SubmitClaim(org, student, fee) => Submit(t, org, student, fee).0
    case ApproveClaim(org, claim) => Approve(t, org, claim).0
    case RejectClaim(org, claim) => Reject(t, org, claim).0
    case CreateFee(org, student, title, amount) => InsertFee(t, Fee(org, student, title, amount, false))
    case GenerateFees(org, students, title, amount) => Generate(t, org, students, title, amount).0
    case CreateTxn(org, payer, amount, success) => InsertTxn(t, Txn(org, payer, None, amount, success))
  }

  function Run(t: Tables, ops: seq<Op>): Tables
    decreases |ops|
  {
    if ops == [] then t else Run(Apply(t, ops[0]), ops[1..])
  }

  // ---------------------------------------------- what each operation answers

  /** A fee of the school that nobody has paid. */
  predicate Payable(t: Tables, org: OrgId, id: FeeId) {
    id in t.fees && t.fees[id].org == org && !t.fees[id].paid
  }

  predicate FeeRefusal(t: Tables, org: OrgId, id: FeeId, answer: Answer) {
    match answer
    case NotFound => id !in t.fees || t.fees[id].org != org
    case AlreadyPaid => id in t.fees && t.fees[id].org == org && t.fees[id].paid
    case _ => Payable(t, org, id)
  }

  /** The fee is paid and one successful transaction of its school, student and amount is new. */
  ghost predicate PaidInFull(t: Tables, t': Tables, id: FeeId) {
    && id in t.fees && t' == t.(fees := t'.fees, txns := t'.txns, nextTxn := t.nextTxn + 1)
    && t'.fees == t.fees[id := t.fees[id].(paid := true)]
    && t'.txns == t.txns[t.nextTxn := Txn(t.fees[id].org, Some(t.fees[id].student), Some(id), t.fees[id].amount, true)]
  }

  lemma PayOutcome(t: Tables, org: OrgId, id: FeeId)
    ensures var (t', answer) := Pay(t, org, id);
      && t' == Apply(t, PayFee(org, id)) && (answer == Done <==> Payable(t, org, id))
      && (answer == Done ==> PaidInFull(t, t', id))
      && (answer != Done ==> t' == t && answer in {NotFound, AlreadyPaid} && FeeRefusal(t, org, id, answer))
  {
  }

  /** A fee can be deleted exactly while it is unpaid and every proof of it was rejected; those go with
      it, and nothing else. */
  lemma DeleteOutcome(t: Tables, org: OrgId, id: FeeId)
    ensures var (t', answer) := Delete(t, org, id);
      var rejected := forall c :: c in t.claims && t.claims[c].fee == id ==> t.claims[c].status == Rejected;
      && t' == Apply(t, DeleteFee(org, id)) && (answer == Done <==> Payable(t, org, id) && rejected)
      && (answer == Done ==>
            && t' == t.(fees := t'.fees, claims := t'.claims)
            && t'.fees.Keys == t.fees.Keys - {id} && (forall f :: f in t'.fees ==> t'.fees[f] == t.fees[f])
            && (forall c :: c in t'.claims <==> c in t.claims && t.claims[c].fee != id)
            && (forall c :: c in t'.claims ==> t'.claims[c] == t.claims[c]))
      && (answer == HasClaims <==> Payable(t, org, id) && !rejected)
      && (answer != Done ==>
            t' == t && answer in {NotFound, AlreadyPaid, HasClaims} && FeeRefusal(t, org, id, answer))
  {
    if Payable(t, org, id) {
      assert OpenOn(t, id) == {} <==>
        forall c :: c in t.claims && t.claims[c].fee == id ==> t.claims[c].status == Rejected by {
        forall c | c in t.claims && t.claims[c].fee == id && t.claims[c].status != Rejected
          ensures c in OpenOn(t, id) {}
      }
    }
  }

  /** A proof can be sent exactly for one's own unpaid fee without another one under review. */
  lemma SubmitOutcome(t: Tables, org: OrgId, student: StudentId, id: FeeId)
    ensures var (t', answer) := Submit(t, org, student, id);
      var mine := id in t.fees && t.fees[id].org == org && t.fees[id].student == student;
      var waiting := exists c :: c in t.claims && t.claims[c].fee == id && t.claims[c].status == Pending;
      && t' == Apply(t, SubmitClaim(org, student, id))
      && (answer == Done <==> mine && !t.fees[id].paid && !waiting)
      && (answer == Done ==>
            && t' == t.(claims := t'.claims, nextClaim := t.nextClaim + 1)
            && t'.claims == t.claims[t.nextClaim := Claim(org, id, student, t.fees[id].amount, Pending)])
      && (answer != Done ==> t' == t)
      && (answer == NotFound <==> !mine)
      && (answer == AlreadyPaid <==> mine && t.fees[id].paid)
      && (answer == UnderReview <==> mine && !t.fees[id].paid && waiting)
  {
    if c :| c in t.claims && t.claims[c].fee == id && t.claims[c].status == Pending {
      assert c in PendingOn(t, id);
    }
  }

  /** A claim can be reviewed exactly while it is pending. Approving it pays its fee unless that is paid
      already; rejecting it changes nothing else. */
  lemma ReviewOutcome(t: Tables, org: OrgId, c: ClaimId, approve: bool)
    ensures var (t', answer) := if approve then Approve(t, org, c) else Reject(t, org, c);
      var there := c in t.claims && t.claims[c].org == org;
      && t' == Apply(t, if approve then ApproveClaim(org, c) else RejectClaim(org, c))
      && (answer == Done <==> there && t.claims[c].status == Pending)
      && (answer == Done ==>
            var claim := t.claims[c];
            var marked := t.(claims := t.claims[c := claim.(status := if approve then Approved else Rejected)]);
            if approve && claim.fee in t.fees && !t.fees[claim.fee].paid then PaidInFull(marked, t', claim.fee)
            else t' == marked)
      && (answer != Done ==> t' == t && answer == if there then AlreadyReviewed else NotFound)
  {
  }

  // ------------------------------------------------------------- invariant

  ghost predicate Ids(t: Tables) {
    && (forall f :: f in t.fees ==> f < t.nextFee)
    && (forall c :: c in t.claims ==> c < t.nextClaim)
    && (forall x :: x in t.txns ==> x < t.nextTxn)
  }

  /** The transaction records a payment of exactly this fee. */
  predicate Pays(txn: Txn, id: FeeId, fee: Fee) {
    && txn.success && txn.fee == Some(id) && txn.org == fee.org && txn.student == Some(fee.student)
    && txn.amount == fee.amount
  }

  ghost predicate TxnsLinked(t: Tables) {
    forall x :: x in t.txns && t.txns[x].fee.Some? ==>
      && t.txns[x].fee.value in t.fees && t.fees[t.txns[x].fee.value].paid
      && Pays(t.txns[x], t.txns[x].fee.value, t.fees[t.txns[x].fee.value])
  }

  ghost predicate TxnsDiffer(t: Tables) {
    forall x, y :: x in t.txns && y in t.txns && t.txns[x].fee.Some? && t.txns[x].fee == t.txns[y].fee ==> x == y
  }

  ghost predicate PaidHaveTxn(t: Tables) {
    forall f :: f in t.fees && t.fees[f].paid ==> Settled(t, f)
  }

  ghost predicate Settled(t: Tables, f: FeeId) {
    exists x :: x in t.txns && t.txns[x].fee == Some(f)
  }

  predicate ClaimOf(claim: Claim, fee: Fee) {
    claim.org == fee.org && claim.student == fee.student && claim.amount == fee.amount
  }

  /** A claim is on a fee of its own school, student and amount; an approved one on a paid fee. */
  ghost predicate ClaimsOk(t: Tables) {
    forall c :: c in t.claims ==>
      && t.claims[c].fee in t.fees && ClaimOf(t.claims[c], t.fees[t.claims[c].fee])
      && (t.claims[c].status == Approved ==> t.fees[t.claims[c].fee].paid)
  }

  predicate Rivals(a: Claim, b: Claim) {
    a.status == Pending && b.status == Pending && a.fee == b.fee
  }

  ghost predicate OnePending(t: Tables) {
    forall c, d :: c in t.claims && d in t.claims && Rivals(t.claims[c], t.claims[d]) ==> c == d
  }

  ghost predicate Books(t: Tables) {
    Ids(t) && TxnsLinked(t) && TxnsDiffer(t) && PaidHaveTxn(t) && ClaimsOk(t) && OnePending(t)
  }

  /** What is never undone: a paid fee keeps its row, a transaction its entry, an approval its claim. */
  ghost predicate Kept(t: Tables, t': Tables) {
    && (forall f :: f in t.fees && t.fees[f].paid ==> f in t'.fees && t'.fees[f] == t.fees[f])
    && (forall x :: x in t.txns ==> x in t'.txns && t'.txns[x] == t.txns[x])
    && (forall c :: c in t.claims && t.claims[c].status == Approved ==> c in t'.claims && t'.claims[c] == t.claims[c])
  }

  lemma PaymentKeeps(t: Tables, id: FeeId)
    requires Books(t) && id in t.fees && !t.fees[id].paid
    ensures Books(MarkPaid(t, id, t.fees[id]).0) && Kept(t, MarkPaid(t, id, t.fees[id]).0)
  {
    var t' := MarkPaid(t, id, t.fees[id]).0;
    forall f | f in t'.fees && t'.fees[f].paid ensures Settled(t', f) {
      if f == id {
        assert t'.txns[t.nextTxn].fee == Some(f);
      } else {
        assert Settled(t, f);
        var x :| x in t.txns && t.txns[x].fee == Some(f);
        assert t'.txns[x].fee == Some(f);
      }
    }
  }

  /** Nothing about payments changes while no transaction is added and no paid fee touched. */
  lemma PaymentsStand(t: Tables, t': Tables)
    requires TxnsLinked(t) && TxnsDiffer(t) && PaidHaveTxn(t) && t'.txns == t.txns
    requires forall f :: f in t.fees && t.fees[f].paid ==> f in t'.fees && t'.fees[f] == t.fees[f]
    requires forall f :: f in t'.fees && t'.fees[f].paid ==> f in t.fees && t.fees[f].paid
    ensures TxnsLinked(t') && TxnsDiffer(t') && PaidHaveTxn(t')
  {
    forall f | f in t'.fees && t'.fees[f].paid ensures Settled(t', f) { assert Settled(t, f); }
  }

  lemma RemoveKeepsClaims(t: Tables, id: FeeId)
    requires ClaimsOk(t) && OpenOn(t, id) == {}
    ensures ClaimsOk(Remove(t, id))
  {
    assert forall c :: c in t.claims && t.claims[c].fee == id && t.claims[c].status != Rejected ==> c in OpenOn(t, id);
  }

  lemma RemoveKeepsPending(t: Tables, id: FeeId)
    requires OnePending(t)
    ensures OnePending(Remove(t, id))
  {
    hide OpenOn;
  }

  lemma RemoveKeepsRest(t: Tables, id: FeeId)
    requires Ids(t) && ClaimsOk(t) && id in t.fees && !t.fees[id].paid
    ensures Ids(Remove(t, id)) && Kept(t, Remove(t, id))
  {
  }

  lemma DeleteKeeps(t: Tables, org: OrgId, id: FeeId)
    requires Books(t)
    ensures Books(Delete(t, org, id).0) && Kept(t, Delete(t, org, id).0)
  {
    if Delete(t, org, id).1 == Done {
      PaymentsStand(t, Remove(t, id));
      hide Ids, TxnsLinked, TxnsDiffer, PaidHaveTxn, ClaimsOk, OnePending, Kept, Remove;
      RemoveKeepsClaims(t, id);
      RemoveKeepsPending(t, id);
      RemoveKeepsRest(t, id);
    }
  }

  lemma PendingAdded(t: Tables, org: OrgId, id: FeeId, student: StudentId)
    requires OnePending(t) && PendingOn(t, id) == {} && id in t.fees
    ensures OnePending(InsertClaim(t, org, id, student, t.fees[id]))
  {
    assert forall c :: c in t.claims && t.claims[c].fee == id && t.claims[c].status == Pending ==>
        c in PendingOn(t, id);
  }

  lemma SubmitKeeps(t: Tables, org: OrgId, student: StudentId, id: FeeId)
    requires Books(t)
    ensures Books(Submit(t, org, student, id).0) && Kept(t, Submit(t, org, student, id).0)
  {
    if Submit(t, org, student, id).1 == Done {
      var t' := InsertClaim(t, org, id, student, t.fees[id]);
      PaymentsStand(t, t');
      PendingAdded(t, org, id, student);
      hide TxnsLinked, TxnsDiffer, PaidHaveTxn, OnePending;
      assert Ids(t') && ClaimsOk(t') && Kept(t, t');
    }
  }

  lemma ReviewKeeps(t: Tables, c: ClaimId, status: Status)
    requires Books(t) && c in t.claims && t.claims[c].status == Pending
    requires status == Rejected || (status == Approved && t.fees[t.claims[c].fee].paid)
    ensures Books(SetStatus(t, c, status)) && Kept(t, SetStatus(t, c, status))
  {
    PaymentsStand(t, SetStatus(t, c, status));
    hide TxnsLinked, TxnsDiffer, PaidHaveTxn;
  }

  /** Approving is the same as paying first and approving the claim on the paid fee after. */
  lemma ApproveKeeps(t: Tables, org: OrgId, c: ClaimId)
    requires Books(t)
    ensures Books(Approve(t, org, c).0) && Kept(t, Approve(t, org, c).0)
  {
    if c in t.claims && t.claims[c].org == org && t.claims[c].status == Pending {
      var id := t.claims[c].fee;
      if t.fees[id].paid {
        ReviewKeeps(t, c, Approved);
      } else {
        PaymentKeeps(t, id);
        var paid := MarkPaid(t, id, t.fees[id]).0;
        ReviewKeeps(paid, c, Approved);
        assert Approve(t, org, c).0 == SetStatus(paid, c, Approved);
      }
    }
  }

  lemma InsertKeeps(t: Tables, fee: Fee)
    requires Books(t) && !fee.paid
    ensures Books(InsertFee(t, fee)) && Kept(t, InsertFee(t, fee))
  {
    PaymentsStand(t, InsertFee(t, fee));
    hide TxnsLinked, TxnsDiffer, PaidHaveTxn, Settled;
    assert ClaimsOk(InsertFee(t, fee)) && OnePending(InsertFee(t, fee)) by { hide Kept; }
    hide ClaimsOk, OnePending, ClaimOf, Rivals;
  }

  lemma {:induction false} InsertsKeep(t: Tables, org: OrgId, students: seq<StudentId>, title: string, amount: nat)
    requires Books(t)
    ensures Books(InsertFees(t, org, students, title, amount)) && Kept(t, InsertFees(t, org, students, title, amount))
    decreases |students|
  {
    if students != [] {
      hide Books;
      var fee := Fee(org, students[0], title, amount, false);
      InsertKeeps(t, fee);
      InsertsKeep(InsertFee(t, fee), org, students[1..], title, amount);
    }
  }

  lemma ManualTxnKeeps(t: Tables, txn: Txn)
    requires Books(t) && txn.fee == None
    ensures Books(InsertTxn(t, txn)) && Kept(t, InsertTxn(t, txn))
  {
    var t' := InsertTxn(t, txn);
    forall f | f in t'.fees && t'.fees[f].paid ensures Settled(t', f) {
      assert Settled(t, f);
      var x :| x in t.txns && t.txns[x].fee == Some(f);
      assert t'.txns[x].fee == Some(f);
    }
    hide OnePending, Settled;
  }

  lemma ApplyKeeps(t: Tables, op: Op)
    requires Books(t)
    ensures Books(Apply(t, op)) && Kept(t, Apply(t, op))
  {
    hide Books, Delete, Submit, Approve, InsertFees, Missing;
    match op
    case PayFee(org, fee) =>
      if fee in t.fees && t.fees[fee].org == org && !t.fees[fee].paid { PaymentKeeps(t, fee); }
    case DeleteFee(org, fee) => DeleteKeeps(t, org, fee);
    case SubmitClaim(org, student, fee) => SubmitKeeps(t, org, student, fee);
    case ApproveClaim(org, claim) => ApproveKeeps(t, org, claim);
    case RejectClaim(org, claim) =>
      if claim in t.claims && t.claims[claim].org == org && t.claims[claim].status == Pending {
        ReviewKeeps(t, claim, Rejected);
      }
    case CreateFee(org, student, title, amount) => InsertKeeps(t, Fee(org, student, title, amount, false));
    case GenerateFees(org, students, title, amount) => InsertsKeep(t, org, Missing(t, students, title), title, amount);
    case CreateTxn(org, payer, amount, success) => ManualTxnKeeps(t, Txn(org, payer, None, amount, success));
  }

  /** Over every run, and no payment, transaction or approval is ever undone. */
  lemma {:induction false} RunKeeps(t: Tables, ops: seq<Op>)
    requires Books(t)
    ensures Books(Run(t, ops)) && Kept(t, Run(t, ops))
    decreases |ops|
  {
    hide Books, Apply;
    if ops != [] {
      ApplyKeeps(t, ops[0]);
      RunKeeps(Apply(t, ops[0]), ops[1..]);
    }
  }

  // ------------------------------------------------- once and only once

  ghost predicate Paid(t: Tables, id: FeeId, x: TxnId) {
    id in t.fees && t.fees[id].paid && x in t.txns && t.txns[x].fee == Some(id)
  }

  /** A fee once paid, by either way, cannot be paid, claimed or deleted in any later state, and its
      one transaction stays the only one: a double click or a second approval records nothing. */
  lemma PaidForGood(t: Tables, ops: seq<Op>, id: FeeId, x: TxnId, org: OrgId, student: StudentId)
    requires Books(t) && Paid(t, id, x)
    ensures var later := Run(t, ops);
      && Pay(later, org, id).1 != Done && Delete(later, org, id).1 != Done && Submit(later, org, student, id).1 != Done
      && Payments(later, id) == {x} && later.txns[x] == t.txns[x]
  {
    RunKeeps(t, ops);
    hide Run;
    var later := Run(t, ops);
    assert Paid(later, id, x) && TxnsDiffer(later);
  }

  /** A claim that was approved can never be reviewed again, and its fee is paid from then on. */
  lemma ApprovedForGood(t: Tables, org: OrgId, c: ClaimId, ops: seq<Op>, other: OrgId)
    requires Books(t) && Approve(t, org, c).1 == Done
    ensures var later := Run(Approve(t, org, c).0, ops);
      && Approve(later, other, c).1 != Done && Reject(later, other, c).1 != Done
      && c in later.claims && later.claims[c].fee in later.fees && later.fees[later.claims[c].fee].paid
  {
    ApproveKeeps(t, org, c);
    RunKeeps(Approve(t, org, c).0, ops);
    hide Run;
    assert c in Approve(t, org, c).0.claims && Approve(t, org, c).0.claims[c].status == Approved by {
      hide Books, TxnsLinked, PaidHaveTxn;
    }
  }

  /** After a rejection the student can send another proof, or the office delete the fee, and approving
      the new proof pays it. */
  lemma RejectedCanTryAgain(t: Tables, org: OrgId, c: ClaimId)
    requires Books(t) && Reject(t, org, c).1 == Done && !t.fees[t.claims[c].fee].paid
    ensures var t', id, student := Reject(t, org, c).0, t.claims[c].fee, t.claims[c].student;
      var again := Submit(t', org, student, id);
      && again.1 == Done && Delete(t', org, id).1 == Done
      && Approve(again.0, org, t'.nextClaim).1 == Done && Approve(again.0, org, t'.nextClaim).0.fees[id].paid
  {
    var t', id := Reject(t, org, c).0, t.claims[c].fee;
    forall d | d in t.claims && t.claims[d].fee == id ensures d == c || t.claims[d].status == Rejected {
      assert Rivals(t.claims[c], t.claims[d]) || t.claims[d].status != Pending;
    }
    assert PendingOn(t', id) == {} && OpenOn(t', id) == {};
  }

  lemma EmptyBooks()
    ensures Books(Tables(map[], map[], map[], 0, 0, 0))
  {
  }

  // ---------------------------------------------------------- conservation

  function Payments(t: Tables, id: FeeId): set<TxnId> {
    set x | x in t.txns && t.txns[x].fee == Some(id)
  }

  /** A fee is paid exactly when one successful transaction of its student and amount records it;
      an unpaid one has none. */
  lemma PaidOnce(t: Tables, id: FeeId)
    requires Books(t) && id in t.fees
    ensures t.fees[id].paid <==> |Payments(t, id)| == 1
    ensures !t.fees[id].paid <==> Payments(t, id) == {}
    ensures forall x :: x in Payments(t, id) ==> Pays(t.txns[x], id, t.fees[id])
  {
    if t.fees[id].paid {
      assert Settled(t, id);
      var x :| x in t.txns && t.txns[x].fee == Some(id);
      assert Payments(t, id) == {x};
    } else {
      assert Payments(t, id) == {};
    }
  }

  function FeeAmounts(t: Tables): map<FeeId, nat> {
    map f | f in t.fees :: t.fees[f].amount
  }

  function TxnAmounts(t: Tables): map<TxnId, nat> {
    map x | x in t.txns :: t.txns[x].amount
  }

  function FeesOf(t: Tables, org: OrgId): set<FeeId> {
    set f | f in t.fees && t.fees[f].org == org
  }

  function PaidFees(t: Tables, org: OrgId): set<FeeId> {
    set f | f in t.fees && t.fees[f].org == org && t.fees[f].paid
  }

  /** `collected` in `stats`. */
  ghost function Collected(t: Tables, org: OrgId): nat {
    Sum(PaidFees(t, org), FeeAmounts(t))
  }

  function FeeTxns(t: Tables, org: OrgId): set<TxnId> {
    set x | x in t.txns && t.txns[x].org == org && t.txns[x].fee.Some?
  }

  function FeeOf(t: Tables): map<TxnId, FeeId> {
    map x | x in t.txns && t.txns[x].fee.Some? :: t.txns[x].fee.value
  }

  /** Money is conserved: what fees say was collected is what fee transactions add up to. */
  lemma CollectedIsRecorded(t: Tables, org: OrgId)
    requires Books(t)
    ensures Collected(t, org) == Sum(FeeTxns(t, org), TxnAmounts(t))
  {
    forall f | f in PaidFees(t, org) ensures exists x :: x in FeeTxns(t, org) && FeeOf(t)[x] == f {
      assert Settled(t, f);
      var x :| x in t.txns && t.txns[x].fee == Some(f);
      assert x in FeeTxns(t, org) && FeeOf(t)[x] == f;
    }
    PairedSums(PaidFees(t, org), FeeTxns(t, org), FeeAmounts(t), TxnAmounts(t), FeeOf(t));
  }

  /** A payment adds exactly the fee's amount to what is collected, and nothing else moves it. */
  lemma PaymentCollects(t: Tables, org: OrgId, id: FeeId, school: OrgId)
    requires Books(t)
    ensures Collected(Pay(t, org, id).0, school) ==
            Collected(t, school) + if Pay(t, org, id).1 == Done && school == org then t.fees[id].amount else 0
  {
    var t' := Pay(t, org, id).0;
    assert FeeAmounts(t') == FeeAmounts(t);
    if Pay(t, org, id).1 == Done && school == org {
      assert PaidFees(t', school) == PaidFees(t, school) + {id};
      SumTakeOut(PaidFees(t', school), FeeAmounts(t), id);
      assert PaidFees(t', school) - {id} == PaidFees(t, school);
    } else {
      assert PaidFees(t', school) == PaidFees(t, school);
    }
  }

  function Due(t: Tables, org: OrgId, late: set<FeeId>, overdue: bool): set<FeeId> {
    set f | f in t.fees && t.fees[f].org == org && !t.fees[f].paid && (f in late) == overdue
  }

  /** collected, pending and overdue make up the total; `late` are the fees past their due date. */
  lemma TotalSplits(t: Tables, org: OrgId, late: set<FeeId>)
    ensures forall f :: f in Due(t, org, late, true) <==>
      f in t.fees && t.fees[f].org == org && !t.fees[f].paid && f in late
    ensures forall f :: f in Due(t, org, late, false) <==>
      f in t.fees && t.fees[f].org == org && !t.fees[f].paid && f !in late
    ensures Sum(FeesOf(t, org), FeeAmounts(t)) ==
            Collected(t, org) + Sum(Due(t, org, late, false), FeeAmounts(t))
            + Sum(Due(t, org, late, true), FeeAmounts(t))
  {
    var paid, soon, over := PaidFees(t, org), Due(t, org, late, false), Due(t, org, late, true);
    assert FeesOf(t, org) == paid + soon + over;
    SumSplits(paid + soon, over, FeeAmounts(t));
    SumSplits(paid, soon, FeeAmounts(t));
  }

  // ------------------------------------------------------------ generating

  lemma {:induction false} MissingIff(t: Tables, students: seq<StudentId>, title: string, s: StudentId)
    ensures s in Missing(t, students, title) <==> s in students && !HasFee(t, s, title)
    decreases |students|
  {
    if students != [] {
      MissingIff(t, students[1..], title, s);
      assert s in students <==> s == students[0] || s in students[1..];
    }
  }

  lemma {:induction false} InsertedHave(t: Tables, org: OrgId, students: seq<StudentId>, title: string,
      amount: nat, s: StudentId)
    requires Ids(t)
    ensures HasFee(InsertFees(t, org, students, title, amount), s, title) <==> HasFee(t, s, title) || s in students
    decreases |students|
  {
    if students != [] {
      var t' := InsertFee(t, Fee(org, students[0], title, amount, false));
      assert HasFee(t', s, title) <==> HasFee(t, s, title) || s == students[0] by {
        if HasFee(t, s, title) {
          var f :| f in t.fees && t.fees[f].student == s && t.fees[f].title == title;
          assert f in t'.fees && t'.fees[f] == t.fees[f];
        }
        assert t'.fees[t.nextFee].student == students[0] && t'.fees[t.nextFee].title == title;
      }
      InsertedHave(t', org, students[1..], title, amount, s);
      assert s in students <==> s == students[0] || s in students[1..];
    }
  }

  /** Afterwards every student of the class has the fee; running it again creates nothing. */
  lemma GenerateTwice(t: Tables, org: OrgId, students: seq<StudentId>, title: string, amount: nat, again: nat)
    requires Ids(t) && amount > 0
    ensures var t' := Generate(t, org, students, title, amount).0;
      && (forall s :: s in students ==> HasFee(t', s, title))
      && Generate(t', org, students, title, again).0 == t' && Generate(t', org, students, title, again).1 == 0
  {
    var t' := Generate(t, org, students, title, amount).0;
    var missing := Missing(t', students, title);
    assert missing == [] || missing[0] in missing;
    forall s | s in students ensures HasFee(t', s, title) {
      MissingIff(t, students, title, s);
      InsertedHave(t, org, Missing(t, students, title), title, amount, s);
    }
    forall s ensures s !in Missing(t', students, title) {
      MissingIff(t', students, title, s);
    }
  }

  predicate SameFee(a: Fee, b: Fee, title: string) {
    a.title == title && b.title == title && a.student == b.student
  }

  predicate OneFeeEach(t: Tables, students: seq<StudentId>, title: string) {
    forall f, g ::
      f in t.fees && g in t.fees && t.fees[f].student in students && SameFee(t.fees[f], t.fees[g], title) ==> f == g
  }

  predicate Distinct(students: seq<StudentId>) {
    forall i, j :: 0 <= i < j < |students| ==> students[i] != students[j]
  }

  lemma {:induction false} InsertsNoDoubles(t: Tables, org: OrgId, students: seq<StudentId>, title: string,
      amount: nat, all: seq<StudentId>)
    requires Ids(t) && Distinct(students) && OneFeeEach(t, all, title)
    requires forall s :: s in students ==> !HasFee(t, s, title)
    ensures OneFeeEach(InsertFees(t, org, students, title, amount), all, title)
    decreases |students|
  {
    if students != [] {
      var t' := InsertFee(t, Fee(org, students[0], title, amount, false));
      forall s | s in students[1..] ensures s in students && s != students[0] && !HasFee(t', s, title) {
        assert exists i :: 1 <= i < |students| && students[i] == s;
      }
      assert !HasFee(t, students[0], title);
      InsertsNoDoubles(t', org, students[1..], title, amount, all);
    }
  }

  lemma {:induction false} MissingDistinct(t: Tables, students: seq<StudentId>, title: string)
    requires Distinct(students)
    ensures Distinct(Missing(t, students, title))
    decreases |students|
  {
    if students != [] {
      MissingDistinct(t, students[1..], title);
      MissingIff(t, students[1..], title, students[0]);
      assert forall i :: 1 <= i < |students| ==> students[i] != students[0];
    }
  }

  /** It is refused exactly without an amount; the number told is that of the students listed who had no
      fee of the title, and so many fees are new. */
  lemma GenerateOutcome(t: Tables, org: OrgId, students: seq<StudentId>, title: string, amount: nat)
    requires Ids(t) && Distinct(students)
    ensures var (t', created, answer) := Generate(t, org, students, title, amount);
      && t' == Apply(t, GenerateFees(org, students, title, amount))
      && answer == (if amount == 0 then NoAmount else Done)
      && (amount == 0 ==> t' == t && created == 0)
      && (amount > 0 ==>
            && created == |set s | s in students && !HasFee(t, s, title)|
            && t' == t.(fees := t'.fees, nextFee := t.nextFee + created))
  {
    var without := set s | s in students && !HasFee(t, s, title);
    var missing := Missing(t, students, title);
    MissingDistinct(t, students, title);
    forall s ensures s in missing <==> s in without { MissingIff(t, students, title, s); }
    hide HasFee, Missing;
    SizeOfDistinct(missing, without);
    InsertsKeepRest(t, org, missing, title, amount);
  }

  lemma {:induction false} SizeOfDistinct(students: seq<StudentId>, them: set<StudentId>)
    requires Distinct(students) && forall s :: s in students <==> s in them
    ensures |students| == |them|
    decreases |students|
  {
    if students == [] {
      assert them == {};
    } else {
      SizeOfDistinct(students[1..], them - {students[0]});
    }
  }

  lemma {:induction false} InsertsKeepRest(t: Tables, org: OrgId, students: seq<StudentId>, title: string, amount: nat)
    ensures var t' := InsertFees(t, org, students, title, amount);
      t' == t.(fees := t'.fees, nextFee := t.nextFee + |students|)
    decreases |students|
  {
    if students != [] {
      InsertsKeepRest(InsertFee(t, Fee(org, students[0], title, amount, false)), org, students[1..], title, amount);
    }
  }

  /** Generating never gives a student of the class a second fee of the same title. */
  lemma GenerateNoDoubles(t: Tables, org: OrgId, students: seq<StudentId>, title: string, amount: nat)
    requires Ids(t) && Distinct(students) && OneFeeEach(t, students, title)
    ensures OneFeeEach(Generate(t, org, students, title, amount).0, students, title)
  {
    forall s | s in Missing(t, students, title) ensures !HasFee(t, s, title) { MissingIff(t, students, title, s); }
    MissingDistinct(t, students, title);
    InsertsNoDoubles(t, org, Missing(t, students, title), title, amount, students);
  }

  lemma {:induction false} InsertsKeepRows(t: Tables, org: OrgId, students: seq<StudentId>, title: string, amount: nat)
    requires forall f :: f in t.fees ==> f < t.nextFee
    ensures var t' := InsertFees(t, org, students, title, amount);
      t'.claims == t.claims && forall f :: f in t.fees ==> f in t'.fees && t'.fees[f] == t.fees[f]
    decreases |students|
  {
    if students != [] {
      InsertsKeepRows(InsertFee(t, Fee(org, students[0], title, amount, false)), org, students[1..], title, amount);
    }
  }

  /** Each student without the fee gets exactly one, unpaid, of the class's amount, and nothing else
      changes. */
  lemma {:induction false} GenerateAdds(t: Tables, org: OrgId, students: seq<StudentId>, title: string, amount: nat,
      k: nat)
    requires Ids(t)
    ensures var t' := InsertFees(t, org, students, title, amount);
      && t' == t.(fees := t'.fees, nextFee := t.nextFee + |students|)
      && (forall f :: f in t'.fees <==> f in t.fees || t.nextFee <= f < t.nextFee + |students|)
      && (forall f :: f in t.fees ==> t'.fees[f] == t.fees[f])
      && (k < |students| ==> t'.fees[t.nextFee + k] == Fee(org, students[k], title, amount, false))
    decreases |students|
  {
    if students != [] {
      var t1 := InsertFee(t, Fee(org, students[0], title, amount, false));
      GenerateAdds(t1, org, students[1..], title, amount, if k == 0 then 0 else k - 1);
    }
  }

  // ------------------------------------------------------ nothing but its own

  /** The fee an operation is about. */
  function Target(t: Tables, op: Op): Option<FeeId> {
    match op
    case PayFee(_, fee) => Some(fee)
    case DeleteFee(_, fee) => Some(fee)
    case SubmitClaim(_, _, fee) => Some(fee)
    case ApproveClaim(_, claim) => if claim in t.claims then Some(t.claims[claim].fee) else None
    case RejectClaim(_, claim) => if claim in t.claims then Some(t.claims[claim].fee) else None
    case _ => None
  }

  function ClaimsOn(t: Tables, id: FeeId): map<ClaimId, Claim> {
    map c | c in t.claims && t.claims[c].fee == id :: t.claims[c]
  }

  lemma RowUntouched(t: Tables, op: Op, id: FeeId)
    requires Ids(t) && id in t.fees && Target(t, op) != Some(id)
    ensures id in Apply(t, op).fees && Apply(t, op).fees[id] == t.fees[id]
  {
    if op.GenerateFees? {
      GenerateAdds(t, op.org, Missing(t, op.students, op.title), op.title, op.amount, 0);
    }
    hide InsertFees, Missing, PendingOn, OpenOn;
  }

  lemma ClaimsUntouched(t: Tables, op: Op, id: FeeId)
    requires Ids(t) && id in t.fees && Target(t, op) != Some(id)
    ensures ClaimsOn(Apply(t, op), id) == ClaimsOn(t, id)
  {
    if op.GenerateFees? {
      GenerateAdds(t, op.org, Missing(t, op.students, op.title), op.title, op.amount, 0);
    }
    hide InsertFees, Missing, PendingOn, OpenOn;
  }

  lemma PaymentsUntouched(t: Tables, op: Op, id: FeeId)
    requires Ids(t) && id in t.fees && Target(t, op) != Some(id)
    ensures Payments(Apply(t, op), id) == Payments(t, id)
  {
    RowUntouched(t, op, id);
    if op.GenerateFees? {
      GenerateAdds(t, op.org, Missing(t, op.students, op.title), op.title, op.amount, 0);
    }
    hide InsertFees, Missing, PendingOn, OpenOn;
  }

  /** An operation on one fee leaves every other fee, its claims and its payments as they are. */
  lemma OthersUntouched(t: Tables, op: Op, id: FeeId)
    requires Ids(t) && id in t.fees && Target(t, op) != Some(id)
    ensures var t' := Apply(t, op);
      && id in t'.fees && t'.fees[id] == t.fees[id] && ClaimsOn(t', id) == ClaimsOn(t, id)
      && Payments(t', id) == Payments(t, id)
  {
    hide Apply, ClaimsOn, Payments;
    RowUntouched(t, op, id);
    ClaimsUntouched(t, op, id);
    PaymentsUntouched(t, op, id);
  }
}
