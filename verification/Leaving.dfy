/** Leaving the school and coming back (services/leaving.py), among the other operations that place
    students and appoint principals (services/students.py, users.py, classes.py). One school. */
module Leaving {
  import opened Collections

  type UserId = nat
  type ClassId = nat
  type SectionId = nat

  datatype Kind = Student | Principal | Admin | SubAdmin | Staff

  datatype User = User(kind: Kind, active: bool, left: bool)

  datatype Profile = Profile(
    inClass: Option<ClassId>, section: Option<SectionId>, roll: Option<string>,
    lastClass: Option<ClassId>, lastSection: Option<SectionId>)

  /** The class of each section; users and sections are never deleted and reused under the same id. */
  datatype School = School(
    users: map<UserId, User>, profiles: map<UserId, Profile>, sections: map<SectionId, ClassId>,
    nextUser: UserId, nextSection: SectionId)

  /** Who asks, as the request's token was checked. */
  datatype Actor = Actor(id: UserId, kind: Kind)

  datatype Answer =
    | Done | NotFound | OwnAccount | OnlyAdmin | AlreadyLeft | AlreadyActive | SecondPrincipal | HasLeft | RollTaken

  // ------------------------------------------------------------ operations

  /** UNIQUE (section_id, roll_no): a missing one never collides. */
  predicate Taken(profiles: map<UserId, Profile>, section: Option<SectionId>, roll: Option<string>, except: UserId) {
    section.Some? && roll.Some? &&
    exists u :: u in profiles && u != except && profiles[u].section == section && profiles[u].roll == roll
  }

  predicate OtherPrincipal(users: map<UserId, User>, except: UserId) {
    exists u :: u in users && u != except && users[u].kind == Principal && !users[u].left
  }

  function Unplaced(p: Profile): Profile {
    p.(lastClass := p.inClass, lastSection := p.section, inClass := None, section := None)
  }

  /** `_check_rights`: nobody their own account, and only an admin those of the office. */
  function RightsError(actor: Actor, u: UserId, target: User): Option<Answer> {
    if actor.id == u then Some(OwnAccount)
    else if target.kind in {Admin, Principal, SubAdmin} && actor.kind != Admin then Some(OnlyAdmin)
    else None
  }

  function MarkLeft(w: School, actor: Actor, u: UserId): (School, Answer) {
    if u !in w.users then (w, NotFound)
    else if RightsError(actor, u, w.users[u]).Some? then (w, RightsError(actor, u, w.users[u]).value)
    else if w.users[u].left then (w, AlreadyLeft)
    else
      (w.(users := w.users[u := w.users[u].(active := false, left := true)],
          profiles := if w.users[u].kind == Student && u in w.profiles
                      then w.profiles[u := Unplaced(w.profiles[u])] else w.profiles),
       Done)
  }

  /** The old section is still there, in the old class. */
  predicate SectionOk(w: School, p: Profile) {
    p.lastSection.Some? && p.lastSection.value in w.sections && p.lastClass == Some(w.sections[p.lastSection.value])
  }

  function Replaced(w: School, u: UserId, p: Profile): Profile {
    if p.inClass == None && SectionOk(w, p)
    then
      var roll := if Taken(w.profiles, p.lastSection, p.roll, u) then None else p.roll;
      Profile(p.lastClass, p.lastSection, roll, None, None)
    else p
  }

  function Reactivate(w: School, actor: Actor, u: UserId): (School, Answer) {
    if u !in w.users then (w, NotFound)
    else if RightsError(actor, u, w.users[u]).Some? then (w, RightsError(actor, u, w.users[u]).value)
    else if w.users[u].active && !w.users[u].left then (w, AlreadyActive)
    else if w.users[u].kind == Principal && OtherPrincipal(w.users, u) then (w, SecondPrincipal)
    else
      (w.(users := w.users[u := w.users[u].(active := true, left := false)],
          profiles := if w.users[u].kind == Student && u in w.profiles
                      then w.profiles[u := Replaced(w, u, w.profiles[u])] else w.profiles),
       Done)
  }

  function CreateStudent(w: School, c: ClassId, s: SectionId, roll: Option<string>): (School, Answer) {
    if s !in w.sections || w.sections[s] != c then (w, NotFound)
    else if Taken(w.profiles, Some(s), roll, w.nextUser) then (w, RollTaken)
    else
      (w.(users := w.users[w.nextUser := User(Student, true, false)], nextUser := w.nextUser + 1,
          profiles := w.profiles[w.nextUser := Profile(Some(c), Some(s), roll, None, None)]), Done)
  }

  function CreateStaff(w: School, kind: Kind): (School, Answer) {
    if kind == Principal && OtherPrincipal(w.users, w.nextUser) then (w, SecondPrincipal)
    else (w.(users := w.users[w.nextUser := User(kind, true, false)], nextUser := w.nextUser + 1), Done)
  }

  function Or<T>(change: Option<T>, current: Option<T>): Option<T> {
    if change.Some? then change else current
  }

  /** `update_student`: a field left out keeps its value; the database refuses a taken roll number. */
  function UpdateStudent(w: School, u: UserId, c: Option<ClassId>, s: Option<SectionId>,
      roll: Option<Option<string>>): (School, Answer) {
    if u !in w.users || u !in w.profiles || w.users[u].kind != Student then (w, NotFound)
    else if w.users[u].left && (c.Some? || s.Some?) then (w, HasLeft)
    else
      var p := w.profiles[u];
      var newClass, newSection := Or(c, p.inClass), Or(s, p.section);
      var newRoll := if roll.Some? then roll.value else p.roll;
      if (newClass != p.inClass || newSection != p.section)
         && !(newSection.Some? && newSection.value in w.sections && newClass == Some(w.sections[newSection.value]))
      then (w, NotFound)
      else if Taken(w.profiles, newSection, newRoll, u) then (w, RollTaken)
      else (w.(profiles := w.profiles[u := p.(inClass := newClass, section := newSection, roll := newRoll)]), Done)
  }

  function CreateSection(w: School, c: ClassId): School {
    w.(sections := w.sections[w.nextSection := c], nextSection := w.nextSection + 1)
  }

  function Forget<T(==)>(o: Option<T>, gone: set<T>): Option<T> {
    if o.Some? && o.value in gone then None else o
  }

  /** ON DELETE SET NULL, for the current place and for the last one. */
  function WithoutSections(profiles: map<UserId, Profile>, gone: set<SectionId>): map<UserId, Profile> {
    map u | u in profiles ::
      profiles[u].(section := Forget(profiles[u].section, gone), lastSection := Forget(profiles[u].lastSection, gone))
  }

  function WithoutClass(profiles: map<UserId, Profile>, c: ClassId, gone: set<SectionId>): map<UserId, Profile> {
    map u | u in profiles ::
      Profile(Forget(profiles[u].inClass, {c}), Forget(profiles[u].section, gone), profiles[u].roll,
              Forget(profiles[u].lastClass, {c}), Forget(profiles[u].lastSection, gone))
  }

  function DeleteSection(w: School, s: SectionId): School {
    w.(sections := w.sections - {s}, profiles := WithoutSections(w.profiles, {s}))
  }

  function SectionsOf(w: School, c: ClassId): set<SectionId> {
    set s | s in w.sections && w.sections[s] == c
  }

  function DeleteClass(w: School, c: ClassId): School {
    w.(sections := w.sections - SectionsOf(w, c), profiles := WithoutClass(w.profiles, c, SectionsOf(w, c)))
  }

  datatype Op =
    | Leave(actor: Actor, user: UserId)
    | Return(actor: Actor, user: UserId)
    | AddStudent(inClass: ClassId, section: SectionId, roll: Option<string>)
    | AddStaff(kind: Kind)
    | Update(user: UserId, toClass: Option<ClassId>, toSection: Option<SectionId>, newRoll: Option<Option<string>>)
    | AddSection(inClass: ClassId)
    | DropSection(section: SectionId)
    | DropClass(inClass: ClassId)

  function Apply(w: School, op: Op): School {
    match op
    case Leave(actor, u) => MarkLeft(w, actor, u).0
    case Return(actor, u) => Reactivate(w, actor, u).0
    case AddStudent(c, s, roll) => CreateStudent(w, c, s, roll).0
    case AddStaff(kind) => if kind == Student then w else CreateStaff(w, kind).0
    case Update(u, c, s, roll) => UpdateStudent(w, u, c, s, roll).0
    case AddSection(c) => CreateSection(w, c)
    case DropSection(s) => DeleteSection(w, s)
    case DropClass(c) => DeleteClass(w, c)
  }

  function Run(w: School, ops: seq<Op>): School
    decreases |ops|
  {
    if ops == [] then w else Run(Apply(w, ops[0]), ops[1..])
  }

  // ------------------------------------------------------------- invariant

  ghost predicate Ids(w: School) {
    && (forall u :: u in w.users ==> u < w.nextUser)
    && (forall u :: u in w.profiles ==> u in w.users && w.users[u].kind == Student)
    && (forall s :: s in w.sections ==> s < w.nextSection)
  }

  /** Whoever left is inactive and in no class. */
  ghost predicate LeftAreOut(w: School) {
    && (forall u :: u in w.users && w.users[u].left ==> !w.users[u].active)
    && (forall u :: u in w.profiles && u in w.users && w.users[u].left ==>
          w.profiles[u].inClass == None && w.profiles[u].section == None)
  }

  ghost predicate SectionsMatch(w: School) {
    forall u :: u in w.profiles && w.profiles[u].section.Some? ==>
      && w.profiles[u].section.value in w.sections
      && w.profiles[u].inClass == Some(w.sections[w.profiles[u].section.value])
  }

  predicate Collide(p: Profile, q: Profile) {
    p.section.Some? && p.roll.Some? && p.section == q.section && p.roll == q.roll
  }

  ghost predicate RollsUnique(profiles: map<UserId, Profile>) {
    forall u, v :: u in profiles && v in profiles && u != v ==> !Collide(profiles[u], profiles[v])
  }

  ghost predicate OnePrincipal(users: map<UserId, User>) {
    forall u, v :: u in users && v in users && users[u].kind == Principal && users[v].kind == Principal
      ==> users[u].left || users[v].left || u == v
  }

  ghost predicate Inv(w: School) {
    Ids(w) && LeftAreOut(w) && SectionsMatch(w) && RollsUnique(w.profiles) && OnePrincipal(w.users)
  }

  lemma PlacedUnique(profiles: map<UserId, Profile>, u: UserId, p: Profile)
    requires RollsUnique(profiles) && !Taken(profiles, p.section, p.roll, u)
    ensures RollsUnique(profiles[u := p])
  {
    forall v | v in profiles && v != u ensures !Collide(profiles[v], p) && !Collide(p, profiles[v]) {
      assert !(profiles[v].section == p.section && profiles[v].roll == p.roll) || p.section == None || p.roll == None;
    }
  }

  lemma LeavingKeepsPrincipal(w: School, actor: Actor, u: UserId)
    requires OnePrincipal(w.users)
    ensures OnePrincipal(MarkLeft(w, actor, u).0.users)
  {
    hide RightsError;
  }

  lemma LeavingKeeps(w: School, actor: Actor, u: UserId)
    requires Inv(w)
    ensures Inv(MarkLeft(w, actor, u).0)
  {
    hide RightsError;
    if MarkLeft(w, actor, u).1 == Done {
      if u in w.profiles { PlacedUnique(w.profiles, u, Unplaced(w.profiles[u])); }
      LeavingKeepsPrincipal(w, actor, u);
      hide RollsUnique, OnePrincipal, Taken;
    }
  }

  lemma ReturnKeepsPrincipal(w: School, actor: Actor, u: UserId)
    requires OnePrincipal(w.users) && Reactivate(w, actor, u).1 == Done
    ensures OnePrincipal(Reactivate(w, actor, u).0.users)
  {
  }

  lemma ReturnKeepsPlaces(w: School, actor: Actor, u: UserId)
    requires Ids(w) && LeftAreOut(w) && SectionsMatch(w) && Reactivate(w, actor, u).1 == Done
    ensures var w' := Reactivate(w, actor, u).0; Ids(w') && LeftAreOut(w') && SectionsMatch(w')
  {
    hide OtherPrincipal, Taken, RightsError;
  }

  lemma ReturnKeepsRolls(w: School, actor: Actor, u: UserId)
    requires Inv(w) && Reactivate(w, actor, u).1 == Done
    ensures RollsUnique(Reactivate(w, actor, u).0.profiles)
  {
    hide OtherPrincipal, RightsError, Ids, LeftAreOut, OnePrincipal;
    if u in w.profiles {
      ReplacedFits(w, u);
      hide RollsUnique, Taken, SectionsMatch;
      PlacedUnique(w.profiles, u, Replaced(w, u, w.profiles[u]));
    }
  }

  lemma ReturningKeeps(w: School, actor: Actor, u: UserId)
    requires Inv(w)
    ensures Inv(Reactivate(w, actor, u).0)
  {
    hide Ids, LeftAreOut, SectionsMatch, RollsUnique, OnePrincipal, OtherPrincipal, Replaced, RightsError;
    if Reactivate(w, actor, u).1 == Done {
      ReturnKeepsPrincipal(w, actor, u);
      ReturnKeepsPlaces(w, actor, u);
      ReturnKeepsRolls(w, actor, u);
    }
  }

  lemma ReplacedFits(w: School, u: UserId)
    requires Inv(w) && u in w.profiles
    ensures var p := Replaced(w, u, w.profiles[u]); !Taken(w.profiles, p.section, p.roll, u)
  {
    var p := w.profiles[u];
    if !(p.inClass == None && SectionOk(w, p)) {
      assert forall v :: v in w.profiles && v != u ==> !Collide(p, w.profiles[v]);
    }
  }

  lemma StudentKeeps(w: School, c: ClassId, s: SectionId, roll: Option<string>)
    requires Inv(w)
    ensures Inv(CreateStudent(w, c, s, roll).0)
  {
    if CreateStudent(w, c, s, roll).1 == Done {
      PlacedUnique(w.profiles, w.nextUser, Profile(Some(c), Some(s), roll, None, None));
      hide RollsUnique, Taken;
    }
  }

  lemma StaffKeeps(w: School, kind: Kind)
    requires Inv(w) && kind != Student
    ensures Inv(CreateStaff(w, kind).0)
  {
    hide RollsUnique;
  }

  lemma UpdateKeeps(w: School, u: UserId, c: Option<ClassId>, s: Option<SectionId>, roll: Option<Option<string>>)
    requires Inv(w)
    ensures Inv(UpdateStudent(w, u, c, s, roll).0)
  {
    var w' := UpdateStudent(w, u, c, s, roll).0;
    if UpdateStudent(w, u, c, s, roll).1 == Done {
      PlacedUnique(w.profiles, u, w'.profiles[u]);
      hide RollsUnique, OnePrincipal, Taken;
    }
  }

  lemma SectionGoneKeeps(w: School, s: SectionId)
    requires Inv(w)
    ensures Inv(DeleteSection(w, s))
  {
    FewerPlaces(w.profiles, DeleteSection(w, s).profiles);
    hide RollsUnique, OnePrincipal;
  }

  lemma ClassGoneMatches(w: School, c: ClassId)
    requires SectionsMatch(w)
    ensures SectionsMatch(DeleteClass(w, c))
  {
  }

  lemma ClassGoneKeeps(w: School, c: ClassId)
    requires Inv(w)
    ensures Inv(DeleteClass(w, c))
  {
    FewerPlaces(w.profiles, DeleteClass(w, c).profiles);
    ClassGoneMatches(w, c);
    hide RollsUnique, OnePrincipal, SectionsMatch, SectionsOf;
  }

  lemma FewerPlaces(profiles: map<UserId, Profile>, profiles': map<UserId, Profile>)
    requires RollsUnique(profiles) && profiles'.Keys == profiles.Keys
    requires forall u :: u in profiles ==>
      && profiles'[u].roll == profiles[u].roll
      && (profiles'[u].section == profiles[u].section || profiles'[u].section == None)
    ensures RollsUnique(profiles')
  {
    forall u, v | u in profiles' && v in profiles' && u != v ensures !Collide(profiles'[u], profiles'[v]) {
      assert !Collide(profiles[u], profiles[v]);
    }
  }

  lemma ApplyKeeps(w: School, op: Op)
    requires Inv(w)
    ensures Inv(Apply(w, op))
  {
    match op
    case Leave(actor, u) => LeavingKeeps(w, actor, u);
    case Return(actor, u) => ReturningKeeps(w, actor, u);
    case AddStudent(c, s, roll) => StudentKeeps(w, c, s, roll);
    case AddStaff(kind) => if kind != Student { StaffKeeps(w, kind); }
    case Update(u, c, s, roll) => UpdateKeeps(w, u, c, s, roll);
    case AddSection(c) =>
    case DropSection(s) => SectionGoneKeeps(w, s);
    case DropClass(c) => ClassGoneKeeps(w, c);
  }

  /** Over every run: no one who left is in a class, no two students of a section share a roll number
      and there is at most one principal who has not left. */
  lemma {:induction false} RunKeeps(w: School, ops: seq<Op>)
    requires Inv(w)
    ensures Inv(Run(w, ops))
    decreases |ops|
  {
    hide Inv, Apply;
    if ops != [] {
      ApplyKeeps(w, ops[0]);
      RunKeeps(Apply(w, ops[0]), ops[1..]);
    }
  }

  /** Returning never runs into the unique key: the roll number is given up exactly when taken. */
  lemma ReturnNeverCollides(w: School, actor: Actor, u: UserId)
    requires Inv(w) && Reactivate(w, actor, u).1 == Done
    ensures RollsUnique(Reactivate(w, actor, u).0.profiles) && OnePrincipal(Reactivate(w, actor, u).0.users)
  {
    ReturningKeeps(w, actor, u);
  }

  // -------------------------------------------------- leaving and returning

  predicate Touches(op: Op, u: UserId) {
    match op
    case Leave(_, v) => v == u
    case Return(_, v) => v == u
    case Update(v, _, _, _) => v == u
    case _ => false
  }

  /** A student who left, remembered in a section of a class, or what deletions have left of that. */
  ghost predicate Remembered(w: School, u: UserId, c: ClassId, s: SectionId, roll: Option<string>) {
    && u in w.users && w.users[u] == User(Student, false, true) && u in w.profiles && s < w.nextSection
    && w.profiles[u].inClass == None && w.profiles[u].section == None && w.profiles[u].roll == roll
    && (s in w.sections ==>
          w.sections[s] == c && w.profiles[u].lastClass == Some(c) && w.profiles[u].lastSection == Some(s))
    && (s !in w.sections ==> w.profiles[u].lastSection == None)
  }

  lemma StaysRemembered(w: School, op: Op, u: UserId, c: ClassId, s: SectionId, roll: Option<string>)
    requires Inv(w) && Remembered(w, u, c, s, roll) && !Touches(op, u)
    ensures Remembered(Apply(w, op), u, c, s, roll)
  {
    hide RollsUnique, OnePrincipal, SectionsMatch, LeftAreOut, Taken, OtherPrincipal;
  }

  lemma {:induction false} RunRemembers(w: School, ops: seq<Op>, u: UserId, c: ClassId, s: SectionId,
      roll: Option<string>)
    requires Inv(w) && Remembered(w, u, c, s, roll)
    requires forall op :: op in ops ==> !Touches(op, u)
    ensures Remembered(Run(w, ops), u, c, s, roll) && Inv(Run(w, ops))
    decreases |ops|
  {
    hide Inv, Apply, Remembered, Touches;
    if ops != [] {
      assert ops[0] in ops && forall op :: op in ops[1..] ==> op in ops;
      StaysRemembered(w, ops[0], u, c, s, roll);
      ApplyKeeps(w, ops[0]);
      RunRemembers(Apply(w, ops[0]), ops[1..], u, c, s, roll);
    }
  }

  /** Whatever happens to others in between, a student comes back to the class and section they left
      exactly when the section still exists, and with their roll number unless someone took it. */
  lemma ReturnRestores(w: School, actor: Actor, again: Actor, u: UserId, ops: seq<Op>)
    requires actor.id != u && again.id != u
    requires Inv(w) && u in w.users && !w.users[u].left && u in w.profiles && w.profiles[u].section.Some?
    requires forall op :: op in ops ==> !Touches(op, u)
    ensures var p := w.profiles[u];
      var away := Run(MarkLeft(w, actor, u).0, ops);
      var (back, answer) := Reactivate(away, again, u);
      && answer == Done && u in back.users && back.users[u] == User(Student, true, false) && u in back.profiles
      && (p.section.value in away.sections ==>
            && back.profiles[u].inClass == p.inClass && back.profiles[u].section == p.section
            && back.profiles[u].lastClass == None && back.profiles[u].lastSection == None
            && back.profiles[u].roll == if Taken(away.profiles, p.section, p.roll, u) then None else p.roll)
      && (p.section.value !in away.sections ==>
          back.profiles[u] == away.profiles[u] && back.profiles[u].section == None)
  {
    var p := w.profiles[u];
    LeavingKeeps(w, actor, u);
    assert Remembered(MarkLeft(w, actor, u).0, u, p.inClass.value, p.section.value, p.roll);
    RunRemembers(MarkLeft(w, actor, u).0, ops, u, p.inClass.value, p.section.value, p.roll);
  }

  /** Nobody else's coming, going or moving changes an account, or a place unless its section or class
      is deleted. */
  lemma OnlyItsOwn(w: School, op: Op, u: UserId)
    requires Ids(w) && u in w.users && !Touches(op, u)
    ensures u in Apply(w, op).users && Apply(w, op).users[u] == w.users[u]
    ensures u in w.profiles ==> u in Apply(w, op).profiles && Apply(w, op).profiles[u].roll == w.profiles[u].roll
    ensures u in w.profiles && !op.DropSection? && !op.DropClass? ==> Apply(w, op).profiles[u] == w.profiles[u]
  {
    hide Taken, OtherPrincipal, SectionOk;
  }

  // ---------------------------------------------- what each operation answers

  /** Nobody's own account, and the office's accounts only for an admin. */
  predicate MayClose(w: School, actor: Actor, u: UserId) {
    && u in w.users && actor.id != u
    && (actor.kind == Admin
        || (w.users[u].kind != Admin && w.users[u].kind != Principal && w.users[u].kind != SubAdmin))
  }

  /** What stands in the way of closing or opening the account. */
  predicate CloseRefusal(w: School, actor: Actor, u: UserId, answer: Answer) {
    match answer
    case NotFound => u !in w.users
    case OwnAccount => u in w.users && actor.id == u
    case OnlyAdmin => u in w.users && actor.id != u && !MayClose(w, actor, u)
    case _ => MayClose(w, actor, u)
  }

  /** The account of `u` and perhaps its place, and nothing else. */
  ghost predicate OnlyAccount(w: School, w': School, u: UserId, user: User) {
    && w' == w.(users := w.users[u := user], profiles := w'.profiles) && w'.profiles.Keys == w.profiles.Keys
    && (forall v :: v in w.profiles && v != u ==> w'.profiles[v] == w.profiles[v])
    && (u in w.profiles && user.kind != Student ==> w'.profiles[u] == w.profiles[u])
  }

  /** Leaving goes through exactly for an account one may close that has not left; a student's place is
      kept aside, with the roll number on it. */
  lemma LeaveOutcome(w: School, actor: Actor, u: UserId)
    ensures var (w', answer) := MarkLeft(w, actor, u);
      && w' == Apply(w, Leave(actor, u))
      && (answer == Done <==> MayClose(w, actor, u) && !w.users[u].left)
      && (answer == Done ==> OnlyAccount(w, w', u, User(w.users[u].kind, false, true)))
      && (answer == Done && w.users[u].kind == Student && u in w.profiles ==>
            var p := w.profiles[u]; w'.profiles[u] == Profile(None, None, p.roll, p.inClass, p.section))
      && (answer != Done ==> w' == w && CloseRefusal(w, actor, u, answer))
      && (answer == AlreadyLeft <==> MayClose(w, actor, u) && w.users[u].left)
  {
  }

  /** Nobody else in the section has the number. */
  predicate RollFree(w: School, section: Option<SectionId>, roll: Option<string>, u: UserId) {
    forall v :: v in w.profiles && v != u && w.profiles[v].section == section && section.Some? ==>
      w.profiles[v].roll != roll || roll == None
  }

  predicate NoOtherPrincipal(w: School, u: UserId) {
    forall v :: v in w.users && v != u && w.users[v].kind == Principal ==> w.users[v].left
  }

  /** Where a student who comes back is put: nowhere else than before, and only without a place now. */
  function BackAt(w: School, u: UserId): Profile
    requires u in w.profiles
  {
    var p := w.profiles[u];
    if p.inClass == None && p.lastSection.Some? && p.lastSection.value in w.sections
       && p.lastClass == Some(w.sections[p.lastSection.value])
    then Profile(p.lastClass, p.lastSection, if RollFree(w, p.lastSection, p.roll, u) then p.roll else None, None, None)
    else p
  }

  /** Coming back goes through exactly for an account one may open that is closed, and for a principal
      only while there is no other. */
  lemma ReturnOutcome(w: School, actor: Actor, u: UserId)
    ensures var (w', answer) := Reactivate(w, actor, u);
      var closed := u in w.users && (w.users[u].left || !w.users[u].active);
      var second := u in w.users && w.users[u].kind == Principal && !NoOtherPrincipal(w, u);
      && w' == Apply(w, Return(actor, u))
      && (answer == Done <==> MayClose(w, actor, u) && closed && !second)
      && (answer == Done ==> OnlyAccount(w, w', u, User(w.users[u].kind, true, false)))
      && (answer == Done && w.users[u].kind == Student && u in w.profiles ==> w'.profiles[u] == BackAt(w, u))
      && (answer != Done ==> w' == w && CloseRefusal(w, actor, u, answer))
      && (answer == AlreadyActive <==> MayClose(w, actor, u) && !closed)
      && (answer == SecondPrincipal <==> MayClose(w, actor, u) && closed && second)
  {
  }

  /** A new student gets a place in an existing section of the class, with a number free there. */
  lemma AddStudentOutcome(w: School, c: ClassId, s: SectionId, roll: Option<string>)
    requires Ids(w)
    ensures var (w', answer) := CreateStudent(w, c, s, roll);
      var there := s in w.sections && w.sections[s] == c;
      && w' == Apply(w, AddStudent(c, s, roll))
      && (answer == Done <==> there && RollFree(w, Some(s), roll, w.nextUser))
      && (answer == Done ==>
            && w' == w.(users := w'.users, profiles := w'.profiles, nextUser := w.nextUser + 1)
            && w'.users == w.users[w.nextUser := User(Student, true, false)]
            && w'.profiles == w.profiles[w.nextUser := Profile(Some(c), Some(s), roll, None, None)])
      && (answer != Done ==> w' == w && answer == if there then RollTaken else NotFound)
  {
  }

  /** A second principal is refused, and nobody else is. */
  lemma AddStaffOutcome(w: School, kind: Kind)
    requires Ids(w)
    ensures var (w', answer) := CreateStaff(w, kind);
      && (kind != Student ==> w' == Apply(w, AddStaff(kind)))
      && (answer == Done <==> kind == Principal ==> NoOtherPrincipal(w, w.nextUser))
      && (answer == Done ==>
            w' == w.(users := w.users[w.nextUser := User(kind, true, false)], nextUser := w.nextUser + 1))
      && (answer != Done ==> w' == w && answer == SecondPrincipal)
  {
  }

  /** An edit goes through exactly for a student, not into a class after leaving, only to a section of
      that class and to a number free there; what it does not name stays. */
  lemma UpdateOutcome(w: School, u: UserId, c: Option<ClassId>, s: Option<SectionId>, roll: Option<Option<string>>)
    requires Inv(w)
    ensures var (w', answer) := UpdateStudent(w, u, c, s, roll);
      var known := u in w.profiles;
      && w' == Apply(w, Update(u, c, s, roll))
      && (known ==>
            var p := w.profiles[u];
            var place := (if c == None then p.inClass else c, if s == None then p.section else s);
            var number := match roll case None => p.roll case Some(r) => r;
            var moves := place != (p.inClass, p.section);
            var fits := place.1.Some? && place.1.value in w.sections && place.0 == Some(w.sections[place.1.value]);
            var left := w.users[u].left && (c != None || s != None);
            && (answer == Done <==> !left && (moves ==> fits) && RollFree(w, place.1, number, u))
            && (answer == Done ==>
                  w' == w.(profiles := w.profiles[u := Profile(place.0, place.1, number, p.lastClass, p.lastSection)]))
            && (answer == HasLeft <==> left)
            && (answer == NotFound <==> !left && moves && !fits))
      && (!known ==> answer == NotFound)
      && (answer != Done ==> w' == w && answer in {NotFound, HasLeft, RollTaken})
  {
    if u in w.profiles {
      var p := w.profiles[u];
      var number := if roll.Some? then roll.value else p.roll;
      TakenIff(w, Or(s, p.section), number, u);
    }
    hide Taken, RollFree, RollsUnique, OnePrincipal, LeftAreOut;
  }

  lemma TakenIff(w: School, section: Option<SectionId>, roll: Option<string>, u: UserId)
    ensures Taken(w.profiles, section, roll, u) <==> !RollFree(w, section, roll, u)
  {
  }

  /** A deleted section is forgotten wherever it was somebody's place or last place; a deleted class with
      all its sections. */
  lemma DropOutcome(w: School, op: Op, u: UserId)
    requires op.DropSection? || op.DropClass?
    ensures var w' := Apply(w, op);
      var gone := if op.DropSection? then {op.section} else SectionsOf(w, op.inClass);
      && w' == w.(sections := w'.sections, profiles := w'.profiles) && w'.profiles.Keys == w.profiles.Keys
      && (forall s :: s in w'.sections <==> s in w.sections && s !in gone)
      && (forall s :: s in w'.sections ==> w'.sections[s] == w.sections[s])
      && (op.DropClass? ==> forall s :: s in w'.sections ==> w'.sections[s] != op.inClass)
      && (op.DropClass? ==> forall s :: s in gone ==> w.sections[s] == op.inClass)
      && (u in w.profiles ==>
            var p, p' := w.profiles[u], w'.profiles[u];
            && p'.section == (if p.section.Some? && p.section.value in gone then None else p.section)
            && p'.lastSection == (if p.lastSection.Some? && p.lastSection.value in gone then None else p.lastSection)
            && p'.inClass == (if op.DropClass? && p.inClass == Some(op.inClass) then None else p.inClass)
            && p'.lastClass == (if op.DropClass? && p.lastClass == Some(op.inClass) then None else p.lastClass)
            && p'.roll == p.roll)
  {
  }

  /** A new section of the class, with nobody in it. */
  lemma AddSectionOutcome(w: School, c: ClassId)
    requires Ids(w) && SectionsMatch(w)
    ensures var w' := Apply(w, AddSection(c));
      && w' == w.(sections := w'.sections, nextSection := w.nextSection + 1)
      && w.nextSection !in w.sections && w'.sections == w.sections[w.nextSection := c]
      && forall u :: u in w'.profiles ==> w'.profiles[u].section != Some(w.nextSection)
  {
  }

  // ------------------------------------------------------------ stale edits

  /** What an edit of a student has read, merged with its changes and is about to write. */
  datatype Edit = Edit(user: UserId, inClass: Option<ClassId>, section: Option<SectionId>, roll: Option<string>)

  datatype System = System(school: School, edits: map<nat, Edit>)

  /** `update_student` reads without a lock and writes later; everything else is one locked transaction. */
  datatype Step =
    | Do(op: Op)
    | ReadStudent(i: nat, user: UserId, toClass: Option<ClassId>, toSection: Option<SectionId>,
                  newRoll: Option<Option<string>>)
    | WriteStudent(i: nat)

  /** The checks of `update_student` on what it read. */
  predicate MayEdit(w: School, u: UserId, c: Option<ClassId>, s: Option<SectionId>) {
    && u in w.users && u in w.profiles && w.users[u].kind == Student
    && !(w.users[u].left && (c.Some? || s.Some?))
    && var newClass, newSection := Or(c, w.profiles[u].inClass), Or(s, w.profiles[u].section);
       || (newClass == w.profiles[u].inClass && newSection == w.profiles[u].section)
       || (newSection.Some? && newSection.value in w.sections && newClass == Some(w.sections[newSection.value]))
  }

  function Merged(w: School, u: UserId, c: Option<ClassId>, s: Option<SectionId>, roll: Option<Option<string>>): Edit
    requires u in w.profiles
  {
    var p := w.profiles[u];
    Edit(u, Or(c, p.inClass), Or(s, p.section), if roll.Some? then roll.value else p.roll)
  }

  /** The keys let the write through: the roll number is free and the section still exists. */
  predicate Lands(w: School, e: Edit) {
    && e.user in w.profiles && !Taken(w.profiles, e.section, e.roll, e.user)
    && (e.section.Some? ==> e.section.value in w.sections)
  }

  function WriteBack(w: School, e: Edit): School
    requires e.user in w.profiles
  {
    w.(profiles := w.profiles[e.user :=
         w.profiles[e.user].(inClass := e.inClass, section := e.section, roll := e.roll)])
  }

  function Next(y: System, step: Step): System {
    match step
    case Do(op) => y.(school := Apply(y.school, op))
    case ReadStudent(i, u, c, s, roll) =>
      if i in y.edits || !MayEdit(y.school, u, c, s) then y
      else y.(edits := y.edits[i := Merged(y.school, u, c, s, roll)])
    case WriteStudent(i) =>
      if i !in y.edits then y
      else System(if Lands(y.school, y.edits[i]) then WriteBack(y.school, y.edits[i]) else y.school, y.edits - {i})
  }

  /** Reading and writing with nothing in between is the update of the serial model. */
  lemma UndisturbedEditIsUpdate(y: System, i: nat, u: UserId, c: Option<ClassId>, s: Option<SectionId>,
      roll: Option<Option<string>>)
    requires i !in y.edits && Inv(y.school)
    ensures Next(Next(y, ReadStudent(i, u, c, s, roll)), WriteStudent(i)).school
            == UpdateStudent(y.school, u, c, s, roll).0
  {
    hide Taken, RollsUnique, OnePrincipal, LeftAreOut;
  }

  /** A write comes to nothing exactly when the student or the section is gone or the number is taken;
      else the place is the one worked out from what was read, whatever happened since. */
  lemma WriteOutcome(y: System, i: nat)
    requires i in y.edits
    ensures var y', e, w := Next(y, WriteStudent(i)), y.edits[i], y.school;
      var fits := e.user in w.profiles && (e.section.Some? ==> e.section.value in w.sections)
                  && RollFree(w, e.section, e.roll, e.user);
      && y'.edits == y.edits - {i}
      && (!fits ==> y'.school == w)
      && (fits ==>
            var p := w.profiles[e.user];
            y'.school == w.(profiles := w.profiles[e.user :=
              Profile(e.inClass, e.section, e.roll, p.lastClass, p.lastSection)]))
  {
    var e := y.edits[i];
    TakenIff(y.school, e.section, e.roll, e.user);
    hide Taken, RollFree;
  }

  /** The student has not left, or the write puts them in no class. */
  predicate Harmless(w: School, e: Edit) {
    e.user !in w.users || !w.users[e.user].left || (e.inClass == None && e.section == None)
  }

  /** A write-back keeps those who left out of every class exactly when it is harmless. */
  lemma WriteBackIff(w: School, e: Edit)
    requires Ids(w) && LeftAreOut(w) && e.user in w.profiles
    ensures LeftAreOut(WriteBack(w, e)) <==> Harmless(w, e)
  {
    assert WriteBack(w, e).profiles[e.user].inClass == e.inClass
        && WriteBack(w, e).profiles[e.user].section == e.section;
  }

  /** Everything else keeps them out, also where edits have upset other rules. */
  lemma ApplyKeepsOut(w: School, op: Op)
    requires Ids(w) && LeftAreOut(w)
    ensures Ids(Apply(w, op)) && LeftAreOut(Apply(w, op))
  {
    hide Taken, OtherPrincipal, SectionOk;
  }

  lemma NextKeepsIds(y: System, step: Step)
    requires Ids(y.school) && LeftAreOut(y.school)
    ensures Ids(Next(y, step).school)
  {
    hide Taken, Apply, MayEdit;
    if step.Do? { ApplyKeepsOut(y.school, step.op); }
  }

  /** At every moment of the run whoever left is in no class. */
  ghost predicate AlwaysOut(y: System, steps: seq<Step>)
    decreases |steps|
  {
    LeftAreOut(y.school) && (steps != [] ==> AlwaysOut(Next(y, steps[0]), steps[1..]))
  }

  /** Every write of the run that lands is harmless at its moment. */
  ghost predicate AllHarmless(y: System, steps: seq<Step>)
    decreases |steps|
  {
    steps != [] ==>
      && (steps[0].WriteStudent? && steps[0].i in y.edits && Lands(y.school, y.edits[steps[0].i]) ==>
            Harmless(y.school, y.edits[steps[0].i]))
      && AllHarmless(Next(y, steps[0]), steps[1..])
  }

  /** So those who left stay out over a run, edits overlapping as they may, exactly when no write of a
      stale place lands on a student who has left meanwhile. */
  lemma {:induction false} OutIffHarmless(y: System, steps: seq<Step>)
    requires Ids(y.school) && LeftAreOut(y.school)
    ensures AlwaysOut(y, steps) <==> AllHarmless(y, steps)
    decreases |steps|
  {
    if steps != [] {
      var step, y' := steps[0], Next(y, steps[0]);
      NextKeepsIds(y, step);
      OutAfterIff(y, step);
      hide Ids, LeftAreOut, Next, Lands, Harmless;
      if LeftAreOut(y'.school) { OutIffHarmless(y', steps[1..]); }
    }
  }

  lemma OutAfterIff(y: System, step: Step)
    requires Ids(y.school) && LeftAreOut(y.school)
    ensures LeftAreOut(Next(y, step).school) <==>
      (step.WriteStudent? && step.i in y.edits && Lands(y.school, y.edits[step.i]) ==>
         Harmless(y.school, y.edits[step.i]))
  {
    hide Ids, LeftAreOut, Taken, Apply, MayEdit, Harmless, WriteBack;
    match step
    case Do(op) => ApplyKeepsOut(y.school, op);
    case ReadStudent(_, _, _, _, _) =>
    case WriteStudent(i) =>
      if i in y.edits && Lands(y.school, y.edits[i]) { WriteBackIff(y.school, y.edits[i]); }
  }

  /** And such writes do happen: for any student in a class, an edit that changes nothing, read before
      they are marked as left and written after, puts them back in the class, account closed. */
  lemma StaleEditUndoesLeaving(y: System, i: nat, actor: Actor, u: UserId)
    requires Inv(y.school) && i !in y.edits && actor.id != u
    requires u in y.school.users && u in y.school.profiles
    requires !y.school.users[u].left && y.school.profiles[u].section.Some?
    ensures !AlwaysOut(y, [ReadStudent(i, u, None, None, None), Do(Leave(actor, u)), WriteStudent(i)])
  {
    var steps := [ReadStudent(i, u, None, None, None), Do(Leave(actor, u)), WriteStudent(i)];
    var y1 := Next(y, steps[0]);
    var y2 := Next(y1, steps[1]);
    var p := y.school.profiles[u];
    assert y1.edits[i] == Edit(u, p.inClass, p.section, p.roll);
    assert !Taken(y2.school.profiles, p.section, p.roll, u) by {
      assert forall v :: v in y.school.profiles && v != u ==> !Collide(p, y.school.profiles[v]);
    }
    LeavingKeeps(y.school, actor, u);
    WriteBackIff(y2.school, y1.edits[i]);
    assert !LeftAreOut(Next(y2, steps[2]).school);
    hide Next, LeftAreOut;
    assert steps[1..][0] == steps[1] && steps[1..][1..][0] == steps[2];
    assert !AlwaysOut(Next(y2, steps[2]), steps[1..][1..][1..]);
    assert !AlwaysOut(y2, steps[1..][1..]);
    assert !AlwaysOut(y1, steps[1..]);
  }

  // ----------------------------------------------- statement by statement

  class Roster {
    var users: map<UserId, User>
    var profiles: map<UserId, Profile>
    var sections: map<SectionId, ClassId>
    var nextUser: UserId
    var nextSection: SectionId

    constructor ()
      ensures View() == School(map[], map[], map[], 0, 0)
    {
      users, profiles, sections := map[], map[], map[];
      nextUser, nextSection := 0, 0;
    }

    function View(): School
      reads this
    {
      School(users, profiles, sections, nextUser, nextSection)
    }

    method CheckRights(actor: Actor, u: UserId, target: User) returns (error: Option<Answer>)
      ensures error == RightsError(actor, u, target)
    {
      if actor.id == u { return Some(OwnAccount); }
      if target.kind in {Admin, Principal, SubAdmin} && actor.kind != Admin { return Some(OnlyAdmin); }
      error := None;
    }

    method Depart(actor: Actor, u: UserId) returns (answer: Answer)
      modifies this`users, this`profiles
      ensures (View(), answer) == MarkLeft(old(View()), actor, u)
      ensures answer == Done ==> u in users && users[u].left && !users[u].active
      ensures Inv(old(View())) ==> Inv(View())
    {
      ghost var w := View();
      if Inv(w) { LeavingKeeps(w, actor, u); }
      hide Inv;
      if u !in users { return NotFound; }
      var target := users[u];
      var error := CheckRights(actor, u, target);
      if error.Some? { return error.value; }
      if target.left { return AlreadyLeft; }
      users := users[u := target.(active := false, left := true)];
      if target.kind == Student && u in profiles {
        var p := profiles[u];
        p := p.(lastClass := p.inClass, lastSection := p.section, inClass := None, section := None);
        profiles := profiles[u := p];
      }
      answer := Done;
    }

    method ComeBack(actor: Actor, u: UserId) returns (answer: Answer)
      modifies this`users, this`profiles
      ensures (View(), answer) == Reactivate(old(View()), actor, u)
      ensures answer == Done ==> u in users && users[u].active && !users[u].left
      ensures Inv(old(View())) ==> Inv(View())
    {
      ghost var w := View();
      if Inv(w) { ReturningKeeps(w, actor, u); }
      hide Inv;
      if u !in users { return NotFound; }
      var target := users[u];
      var error := CheckRights(actor, u, target);
      if error.Some? { return error.value; }
      if target.active && !target.left { return AlreadyActive; }
      if target.kind == Principal && exists v :: v in users && users[v].kind == Principal && !users[v].left && v != u {
        assert OtherPrincipal(users, u);
        return SecondPrincipal;
      }
      users := users[u := target.(active := true, left := false)];
      if target.kind == Student && u in profiles {
        PutBack(u);
      }
      answer := Done;
    }

    method PutBack(u: UserId)
      requires u in profiles
      modifies this`profiles
      ensures profiles == old(profiles)[u := Replaced(old(View()), u, old(profiles)[u])]
    {
      var p := profiles[u];
      var sectionOk := p.lastSection.Some? && p.lastSection.value in sections
                       && p.lastClass == Some(sections[p.lastSection.value]);
      if p.inClass == None && sectionOk {
        var taken := p.roll.Some? &&
          exists v :: v in profiles && profiles[v].section == p.lastSection && profiles[v].roll == p.roll && v != u;
        assert taken == Taken(profiles, p.lastSection, p.roll, u);
        p := p.(inClass := p.lastClass, section := p.lastSection, lastClass := None, lastSection := None);
        if taken {
          p := p.(roll := None);
        }
      }
      profiles := profiles[u := p];
    }
  }
}
