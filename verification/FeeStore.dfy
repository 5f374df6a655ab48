/** The fee tables as the service updates them, statement by statement, with the students and classes
    the statements look up. */
module FeeStore {
  import opened Collections
  import opened Fees

  type ClassId = nat

  datatype Pupil = Pupil(org: OrgId, active: bool, inClass: Option<ClassId>)

  /** A class without a fee amount has none or zero. */
  datatype Class = Class(org: OrgId, amount: Option<nat>)

  /** What every transaction promises, refused or not. */
  ghost predicate Sound(t: Tables, t': Tables, answer: Answer) {
    && (Books(t) ==> Books(t') && Kept(t, t'))
    && (answer != Done ==> t' == t)
  }

  /** Paid, by exactly one transaction of its student and amount. */
  ghost predicate PaidBooks(t: Tables, id: FeeId) {
    id in t.fees && t.fees[id].paid && |Payments(t, id)| == 1
    && forall x :: x in Payments(t, id) ==> Pays(t.txns[x], id, t.fees[id])
  }

  /** Every school has collected what it had, `org` that much more. */
  ghost predicate CollectedMore(t: Tables, t': Tables, org: OrgId, amount: nat) {
    forall school: OrgId :: Collected(t', school) == Collected(t, school) + if school == org then amount else 0
  }

  lemma PayIsSound(t: Tables, org: OrgId, id: FeeId)
    ensures var (t', answer) := Pay(t, org, id);
      && Sound(t, t', answer)
      && (Books(t) && answer == Done ==> PaidBooks(t', id) && CollectedMore(t, t', org, t.fees[id].amount))
  {
    hide Books, Collected, Payments, Kept, MarkPaid;
    if Books(t) && Pay(t, org, id).1 == Done {
      PaymentKeeps(t, id);
      PaysTheFee(t, id);
      PaidOnce(MarkPaid(t, id, t.fees[id]).0, id);
      forall school: OrgId { PaymentCollects(t, org, id, school); }
    } else if Books(t) {
      KeptStarts(t);
    }
  }

  lemma KeptStarts(t: Tables)
    ensures Kept(t, t)
  {
  }

  lemma PaysTheFee(t: Tables, id: FeeId)
    requires id in t.fees && !t.fees[id].paid
    ensures var t' := MarkPaid(t, id, t.fees[id]).0; id in t'.fees && t'.fees[id] == t.fees[id].(paid := true)
  {
  }

  lemma ApproveIsSound(t: Tables, org: OrgId, c: ClaimId)
    ensures var (t', answer) := Approve(t, org, c);
      Sound(t, t', answer) && (Books(t) && answer == Done ==>
        c in t.claims && c in t'.claims && t'.claims[c].status == Approved && PaidBooks(t', t.claims[c].fee))
  {
    if Books(t) {
      ApproveKeeps(t, org, c);
      if Approve(t, org, c).1 == Done {
        var t' := Approve(t, org, c).0;
        assert t'.fees[t.claims[c].fee].paid;
        PaidOnce(t', t.claims[c].fee);
      }
    }
    hide Books, Kept, Payments;
  }

  /** The ids in ascending order, as ORDER BY lists them. */
  function Ascending(ids: set<StudentId>): (list: seq<StudentId>)
    ensures forall s :: s in list <==> s in ids
    ensures forall i, j :: 0 <= i < j < |list| ==> list[i] < list[j]
  {
    if ids == {} then []
    else
      assert exists m :: m in ids && IsLast(ids, m) by { SomeLast(ids); }
      var m :| m in ids && IsLast(ids, m);
      Ascending(ids - {m}) + [m]
  }

  predicate IsLast(ids: set<StudentId>, m: StudentId) {
    forall x :: x in ids ==> x <= m
  }

  lemma {:induction false} SomeLast(ids: set<StudentId>)
    requires ids != {}
    ensures exists m :: m in ids && IsLast(ids, m)
  {
    var x :| x in ids;
    if ids == {x} {
      assert IsLast(ids, x);
    } else {
      SomeLast(ids - {x});
      var m :| m in ids - {x} && IsLast(ids - {x}, m);
      var last := if x < m then m else x;
      forall y | y in ids ensures y <= last { assert y == x || y in ids - {x}; }
      assert last in ids && IsLast(ids, last);
    }
  }

  /** Every listed student has the fee; whoever had none has one more, unpaid, of that amount; nothing
      else is different. */
  ghost predicate ChargedOnce(t: Tables, t': Tables, org: OrgId, students: seq<StudentId>, title: string,
      amount: nat)
  {
    && (forall s :: s in students ==> HasFee(t', s, title))
    && t' == t.(fees := t'.fees, nextFee := t'.nextFee)
    && (forall f :: f in t.fees ==> f in t'.fees && t'.fees[f] == t.fees[f])
    && (forall f :: f in t'.fees && f !in t.fees ==> NewFee(t, t'.fees[f], org, students, title, amount))
    && (OneFeeEach(t, students, title) ==> OneFeeEach(t', students, title))
  }

  predicate NewFee(t: Tables, fee: Fee, org: OrgId, students: seq<StudentId>, title: string, amount: nat) {
    && fee == Fee(org, fee.student, title, amount, false)
    && fee.student in students && !HasFee(t, fee.student, title)
  }

  lemma AddedAreNew(t: Tables, org: OrgId, students: seq<StudentId>, title: string, amount: nat, f: FeeId)
    requires Ids(t)
    requires var t' := InsertFees(t, org, Missing(t, students, title), title, amount); f in t'.fees && f !in t.fees
    ensures var t' := InsertFees(t, org, Missing(t, students, title), title, amount);
      NewFee(t, t'.fees[f], org, students, title, amount)
  {
    hide Ids, InsertFees, Missing, HasFee;
    var missing := Missing(t, students, title);
    GenerateAdds(t, org, missing, title, amount, 0);
    GenerateAdds(t, org, missing, title, amount, f - t.nextFee);
    MissingIff(t, students, title, missing[f - t.nextFee]);
  }

  lemma GenerateChargesOnce(t: Tables, org: OrgId, students: seq<StudentId>, title: string, amount: nat)
    requires Ids(t) && amount > 0 && Distinct(students)
    ensures ChargedOnce(t, Generate(t, org, students, title, amount).0, org, students, title, amount)
  {
    hide Ids, InsertFees, Missing, OneFeeEach, HasFee, NewFee;
    GenerateTwice(t, org, students, title, amount, amount);
    if OneFeeEach(t, students, title) { GenerateNoDoubles(t, org, students, title, amount); }
    GenerateAdds(t, org, Missing(t, students, title), title, amount, 0);
    var t' := Generate(t, org, students, title, amount).0;
    forall f | f in t'.fees && f !in t.fees ensures NewFee(t, t'.fees[f], org, students, title, amount) {
      AddedAreNew(t, org, students, title, amount, f);
    }
  }

  lemma GenerateCharges(t: Tables, org: OrgId, students: seq<StudentId>, title: string, amount: nat)
    requires Books(t) && amount > 0 && Distinct(students)
    ensures var (t', created, _) := Generate(t, org, students, title, amount);
      && Sound(t, t', Done) && ChargedOnce(t, t', org, students, title, amount)
      && |t'.fees| == |t.fees| + created
  {
    BooksHaveIds(t);
    hide Books, Ids, InsertFees, Missing, ChargedOnce;
    InsertsKeep(t, org, Missing(t, students, title), title, amount);
    GenerateChargesOnce(t, org, students, title, amount);
    InsertsCount(t, org, Missing(t, students, title), title, amount);
  }

  lemma BooksHaveIds(t: Tables)
    requires Books(t)
    ensures Ids(t)
  {
  }

  lemma OneMore<K, V>(m: map<K, V>, k: K, v: V)
    requires k !in m
    ensures |m[k := v]| == |m| + 1
  {
    assert m[k := v].Keys == m.Keys + {k};
    assert |m[k := v]| == |m[k := v].Keys| && |m| == |m.Keys|;
  }

  /** No fee's payments and no school's collected sum are any different. */
  ghost predicate FeesAside(t: Tables, t': Tables) {
    && (forall id: FeeId :: Payments(t', id) == Payments(t, id))
    && (forall school: OrgId :: Collected(t', school) == Collected(t, school))
  }

  lemma ManualTxnIsSound(t: Tables, txn: Txn)
    requires txn.fee == None
    ensures var t' := InsertTxn(t, txn);
      Sound(t, t', Done) && (Books(t) ==> FeesAside(t, t') && |t'.txns| == |t.txns| + 1)
  {
    var t' := InsertTxn(t, txn);
    if Books(t) {
      ManualTxnKeeps(t, txn);
      BooksHaveIds(t);
      assert t.nextTxn !in t.txns;
      OneMore(t.txns, t.nextTxn, txn);
    }
    hide Books, Kept;
    forall school: OrgId ensures Collected(t', school) == Collected(t, school) {
      assert PaidFees(t', school) == PaidFees(t, school) && FeeAmounts(t') == FeeAmounts(t);
    }
  }

  lemma {:induction false} InsertsCount(t: Tables, org: OrgId, students: seq<StudentId>, title: string, amount: nat)
    requires Ids(t)
    ensures |InsertFees(t, org, students, title, amount).fees| == |t.fees| + |students|
    decreases |students|
  {
    if students != [] {
      var t' := InsertFee(t, Fee(org, students[0], title, amount, false));
      OneMore(t.fees, t.nextFee, t'.fees[t.nextFee]);
      InsertsCount(t', org, students[1..], title, amount);
    }
  }

  lemma MissingFrom(t: Tables, students: seq<StudentId>, i: nat, title: string)
    requires i < |students|
    ensures Missing(t, students[i..], title) ==
      (if HasFee(t, students[i], title) then [] else [students[i]]) + Missing(t, students[i + 1..], title)
  {
    assert students[i..][0] == students[i] && students[i..][1..] == students[i + 1..];
  }

  lemma NoneMissing(t: Tables, students: seq<StudentId>, title: string)
    requires students == []
    ensures Missing(t, students, title) == []
  {
  }

  class FeeStore {
    var fees: map<FeeId, Fee>
    var claims: map<ClaimId, Claim>
    var txns: map<TxnId, Txn>
    var nextFee: FeeId
    var nextClaim: ClaimId
    var nextTxn: TxnId
    var pupils: map<StudentId, Pupil>
    var classes: map<ClassId, Class>

    constructor (pupils: map<StudentId, Pupil>, classes: map<ClassId, Class>)
      ensures View() == Tables(map[], map[], map[], 0, 0, 0) && Books(View())
      ensures this.pupils == pupils && this.classes == classes
    {
      fees, claims, txns := map[], map[], map[];
      nextFee, nextClaim, nextTxn := 0, 0, 0;
      this.pupils, this.classes := pupils, classes;
      EmptyBooks();
    }

    function View(): Tables
      reads this
    {
      Tables(fees, claims, txns, nextFee, nextClaim, nextTxn)
    }

    method MarkFeePaid(id: FeeId, read: Fee) returns (changed: bool)
      modifies this`fees, this`txns, this`nextTxn
      ensures (View(), changed) == MarkPaid(old(View()), id, read)
    {
      changed := id in fees && !fees[id].paid;
      if changed {
        fees := fees[id := fees[id].(paid := true)];
        txns := txns[nextTxn := Txn(read.org, Some(read.student), Some(id), read.amount, true)];
        nextTxn := nextTxn + 1;
      }
    }

    method PayFee(org: OrgId, id: FeeId) returns (answer: Answer)
      modifies this`fees, this`txns, this`nextTxn
      ensures (View(), answer) == Pay(old(View()), org, id)
      ensures Sound(old(View()), View(), answer)
      ensures Books(old(View())) && answer == Done ==>
        PaidBooks(View(), id) && CollectedMore(old(View()), View(), org, fees[id].amount)
    {
      PayIsSound(View(), org, id);
      hide Sound, Books, PaidBooks, CollectedMore;
      if id !in fees || fees[id].org != org { return NotFound; }
      var fee := fees[id];
      var changed := false;
      if !fee.paid {
        changed := MarkFeePaid(id, fee);
      }
      answer := if changed then Done else AlreadyPaid;
    }

    method DeleteFee(org: OrgId, id: FeeId) returns (answer: Answer)
      modifies this`fees, this`claims
      ensures (View(), answer) == Delete(old(View()), org, id)
      ensures Sound(old(View()), View(), answer)
      ensures answer == Done ==> id !in fees && forall c :: c in claims ==> claims[c].fee != id
    {
      ghost var t := View();
      if Books(t) { DeleteKeeps(t, org, id); }
      hide Books, Kept;
      if id !in fees || fees[id].org != org { return NotFound; }
      if fees[id].paid { return AlreadyPaid; }
      var open := set c | c in claims && claims[c].fee == id && claims[c].status in {Pending, Approved};
      assert open == OpenOn(View(), id);
      if |open| > 0 { return HasClaims; }
      assert forall c :: c in claims && claims[c].fee == id && claims[c].status != Rejected ==> c in open;
      claims := map c | c in claims && !(claims[c].fee == id && claims[c].status == Rejected) :: claims[c];
      fees := fees - {id};
      answer := Done;
    }

    method SubmitClaim(org: OrgId, student: StudentId, id: FeeId) returns (answer: Answer)
      modifies this`claims, this`nextClaim
      ensures (View(), answer) == Submit(old(View()), org, student, id)
      ensures Sound(old(View()), View(), answer)
      ensures answer == Done ==> PendingOn(View(), id) == {old(nextClaim)} && ClaimOf(claims[old(nextClaim)], fees[id])
    {
      ghost var t := View();
      if Books(t) { SubmitKeeps(t, org, student, id); }
      hide Books, Kept;
      if id !in fees || fees[id].student != student || fees[id].org != org { return NotFound; }
      if fees[id].paid { return AlreadyPaid; }
      if exists c :: c in claims && claims[c].fee == id && claims[c].status == Pending {
        assert PendingOn(View(), id) != {} by {
          var c :| c in claims && claims[c].fee == id && claims[c].status == Pending;
          assert c in PendingOn(View(), id);
        }
        return UnderReview;
      }
      assert PendingOn(View(), id) == {};
      claims := claims[nextClaim := Claim(org, id, student, fees[id].amount, Pending)];
      nextClaim := nextClaim + 1;
      answer := Done;
    }

    method LockPendingClaim(org: OrgId, c: ClaimId) returns (answer: Answer)
      ensures answer == if c !in claims || claims[c].org != org then NotFound
                        else if claims[c].status != Pending then AlreadyReviewed else Done
    {
      if c !in claims || claims[c].org != org { return NotFound; }
      answer := if claims[c].status != Pending then AlreadyReviewed else Done;
    }

    method ApproveClaim(org: OrgId, c: ClaimId) returns (answer: Answer)
      modifies this`claims, this`fees, this`txns, this`nextTxn
      ensures (View(), answer) == Approve(old(View()), org, c)
      ensures Sound(old(View()), View(), answer)
      ensures Books(old(View())) && answer == Done ==>
        c in claims && claims[c].status == Approved && PaidBooks(View(), claims[c].fee)
    {
      ApproveIsSound(View(), org, c);
      hide Sound, Books, PaidBooks;
      answer := LockPendingClaim(org, c);
      if answer != Done { return; }
      var id := claims[c].fee;
      claims := claims[c := claims[c].(status := Approved)];
      if id in fees && !fees[id].paid {
        var _ := MarkFeePaid(id, fees[id]);
      }
    }

    method RejectClaim(org: OrgId, c: ClaimId) returns (answer: Answer)
      modifies this`claims
      ensures (View(), answer) == Reject(old(View()), org, c)
      ensures Sound(old(View()), View(), answer)
    {
      ghost var t := View();
      if Books(t) && Reject(t, org, c).1 == Done { ReviewKeeps(t, c, Rejected); }
      hide Books;
      answer := LockPendingClaim(org, c);
      if answer != Done { return; }
      claims := claims[c := claims[c].(status := Rejected)];
    }

    predicate IsPupil(org: OrgId, student: StudentId)
      reads this`pupils
    {
      student in pupils && pupils[student].org == org
    }

    method CreateFee(org: OrgId, student: StudentId, title: string, amount: nat) returns (answer: Answer)
      modifies this`fees, this`nextFee
      ensures answer == if student in pupils && pupils[student].org == org then Done else NotFound
      ensures Sound(old(View()), View(), answer)
      ensures answer == Done ==>
        View() == old(View()).(fees := old(fees)[old(nextFee) := Fee(org, student, title, amount, false)],
                               nextFee := old(nextFee) + 1)
    {
      var fee := Fee(org, student, title, amount, false);
      ghost var t := View();
      if Books(t) { InsertKeeps(t, fee); }
      hide Books, Kept;
      if !IsPupil(org, student) { return NotFound; }
      InsertOne(fee);
      answer := Done;
    }

    method InsertOne(fee: Fee)
      modifies this`fees, this`nextFee
      ensures View() == InsertFee(old(View()), fee)
    {
      fees := fees[nextFee := fee];
      nextFee := nextFee + 1;
    }

    method SelectMissing(students: seq<StudentId>, title: string) returns (missing: seq<StudentId>)
      ensures missing == Missing(View(), students, title)
    {
      ghost var t := View();
      hide HasFee, Missing;
      missing := [];
      assert students[0..] == students;
      for i := 0 to |students|
        invariant missing + Missing(t, students[i..], title) == Missing(t, students, title)
      {
        MissingFrom(t, students, i, title);
        if !HasFee(View(), students[i], title) { missing := missing + [students[i]]; }
      }
      NoneMissing(t, students[|students|..], title);
    }

    method InsertAll(org: OrgId, students: seq<StudentId>, title: string, amount: nat)
      modifies this`fees, this`nextFee
      ensures View() == InsertFees(old(View()), org, students, title, amount)
    {
      for i := 0 to |students|
        invariant InsertFees(View(), org, students[i..], title, amount) ==
                  InsertFees(old(View()), org, students, title, amount)
      {
        assert students[i..][0] == students[i] && students[i..][1..] == students[i + 1..];
        InsertOne(Fee(org, students[i], title, amount, false));
      }
    }

    /** The active students of a class in the order of their ids. */
    function ActiveIn(c: ClassId): seq<StudentId>
      reads this`pupils
    {
      Ascending(set s | s in pupils && pupils[s].inClass == Some(c) && pupils[s].active)
    }

    /** The class first, then the students without the fee, then one INSERT for all of them. */
    method GenerateClassFees(org: OrgId, c: ClassId, title: string) returns (created: nat, total: nat, answer: Answer)
      modifies this`fees, this`nextFee
      ensures answer == if c !in classes || classes[c].org != org then NotFound
                        else if classes[c].amount in {None, Some(0)} then NoAmount else Done
      ensures Sound(old(View()), View(), answer)
      ensures Books(old(View())) && answer == Done ==>
        ChargedOnce(old(View()), View(), org, ActiveIn(c), title, classes[c].amount.value)
      ensures Books(old(View())) ==> |fees| == |old(fees)| + created
      ensures answer == Done ==>
        && total == |ActiveIn(c)|
        && forall s :: s in ActiveIn(c) <==> s in pupils && pupils[s].inClass == Some(c) && pupils[s].active
    {
      ghost var t := View();
      KeptStarts(t);
      hide Books, Kept, ChargedOnce;
      if c !in classes || classes[c].org != org { return 0, 0, NotFound; }
      if classes[c].amount.None? || classes[c].amount.value == 0 { return 0, 0, NoAmount; }
      var amount, students := classes[c].amount.value, ActiveIn(c);
      if Books(t) { GenerateCharges(t, org, students, title, amount); }
      var missing := SelectMissing(students, title);
      InsertAll(org, missing, title, amount);
      created, total, answer := |missing|, |students|, Done;
    }

    /** A payment entered by hand: of no fee, so no fee's books change. */
    method CreateTransaction(org: OrgId, student: Option<StudentId>, amount: nat, success: bool)
      returns (answer: Answer)
      modifies this`txns, this`nextTxn
      ensures answer == if student.None? || (student.value in pupils && pupils[student.value].org == org) then Done
                        else NotFound
      ensures Sound(old(View()), View(), answer)
      ensures Books(old(View())) && answer == Done ==> FeesAside(old(View()), View()) && |txns| == |old(txns)| + 1
      ensures answer == Done ==>
        View() == old(View()).(txns := old(txns)[old(nextTxn) := Txn(org, student, None, amount, success)],
                               nextTxn := old(nextTxn) + 1)
    {
      var txn := Txn(org, student, None, amount, success);
      ghost var t := View();
      ManualTxnIsSound(t, txn);
      KeptStarts(t);
      assert Sound(t, t, NotFound);
      hide Books, Kept, FeesAside, Sound;
      if student.Some? && !IsPupil(org, student.value) { return NotFound; }
      txns := txns[nextTxn := txn];
      nextTxn := nextTxn + 1;
      assert View() == InsertTxn(t, txn);
      answer := Done;
    }
  }
}
