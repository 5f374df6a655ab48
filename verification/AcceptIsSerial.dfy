/** The interleaved accept of AcceptProtocol is the one-transaction accept of SubstitutionService:
    whenever an accept ends, it ends as the whole request would have at that moment. */
module AcceptIsSerial {
  import opened Collections
  import opened AcceptProtocol
  import opened SubstitutionRequests
  import Service = SubstitutionService

  /** The substitute has a class of their own or is on leave. */
  predicate OtherReason(w: Service.Tables, row: Request) {
    || Service.HasSlot(w, row.substitute, row.date, row.period)
    || Service.AwayOn(w.leaves, row.substitute, row.date)
  }

  lemma SameQueries(w: Service.Tables, row: Request)
    ensures Service.PeriodCovered(w.requests, row.requester, row.date, row.period) == Covered(w.requests, row)
    ensures Service.Busy(w, row.substitute, row.date, row.period).Some? <==>
      Covering(w.requests, row) || OtherReason(w, row)
  {
  }

  /** A winner writes its own row and every rival there is by then. */
  lemma WritesAreWhole(s: State, t: ThreadId)
    requires Tidy(s) && t in s.threads && s.threads[t].pc.Commit?
    ensures var Thread(user, id, pc) := s.threads[t];
      && pc.outcome == Won && RowOk(s.rows, s.threads[t], pc.row) && pc.writes.Keys == {id} + Service.Rivals(s.rows, id)
      && forall j :: j in pc.writes ==> pc.writes[j] == if j == id then Accepted else Filled
  {
    assert ThreadOk(s.rows, s.threads[t]) && !TurnedAway(s.threads[t].pc);
    hide UniqueKeys, LocksApart, NothingPendingWhenCovered, Covered, Covering;
  }

  lemma WholeWrites(rows: Requests, id: RequestId, writes: map<RequestId, Status>)
    requires id in rows && writes.Keys == {id} + Service.Rivals(rows, id)
    requires forall j :: j in writes ==> writes[j] == if j == id then Accepted else Filled
    ensures Written(rows, writes) ==
      Service.MarkAll(Service.MarkAll(rows, {id}, Accepted), Service.Rivals(rows, id), Filled)
  {
  }

  lemma WinnerMayStill(s: State, t: ThreadId)
    requires Tidy(s) && t in s.threads && s.threads[t].pc.Commit? && s.threads[t].pc.outcome == Won
    ensures var Thread(user, id, pc) := s.threads[t];
      RowOk(s.rows, s.threads[t], pc.row) && !Covered(s.rows, pc.row) && !Covering(s.rows, pc.row)
  {
    assert ThreadOk(s.rows, s.threads[t]);
    hide UniqueKeys, LocksApart, NothingPendingWhenCovered, Covered, Covering;
  }

  /** A commit, given that no create came late: the rows it writes are those of the whole request
      made at that moment, which would go through unless the substitute has meanwhile got a class
      or a leave. */
  lemma CommitIsSerial(s: State, t: ThreadId, w: Service.Tables)
    requires Tidy(s) && t in s.threads && s.threads[t].pc.Commit? && w.requests == s.rows
    ensures var Thread(user, id, pc) := s.threads[t];
      && pc.outcome == Won
      && (Service.Accept(w, user, id).1 == Service.Done <==> !OtherReason(w, pc.row))
      && (!OtherReason(w, pc.row) ==>
            Service.Accept(w, user, id).0 == w.(requests := Written(s.rows, pc.writes)))
  {
    var Thread(user, id, pc) := s.threads[t];
    hide Tidy, Covered, Covering, OtherReason, Written;
    hide Service.Busy, Service.PeriodCovered, Service.Rivals, Service.MarkAll;
    WritesAreWhole(s, t);
    WinnerMayStill(s, t);
    SameQueries(w, pc.row);
    WholeWrites(s.rows, id, pc.writes);
  }

  /** The refusal that an outcome stands for. */
  function RefusalOf(w: Service.Tables, user: UserId, id: RequestId, outcome: Outcome): Service.Reply {
    match outcome
    case Missing => Service.Refused(Service.NotFound)
    case NotAsked =>
      Service.Refused(if id in w.requests then Service.NotYours(w, user, w.requests[id]) else Service.NotFound)
    case NotPending => Service.Refused(Service.WrongStatus)
    case PeriodTaken | DuplicateKey => Service.Refused(Service.AlreadyCovered)
    case NotFree => Service.Refused(Service.NotFree)
    case Won => Service.Done
  }

  /** An accept that ends without a commit is refused as the whole request would be at that moment. */
  lemma RefusalIsSerial(s: State, t: ThreadId, w: Service.Tables)
    requires Tidy(s) && t in s.threads && w.requests == s.rows && !s.threads[t].pc.Commit?
    requires var th := s.threads[t];
      var other := th.pc.CheckBusy? && OtherReason(w, th.pc.row);
      NextPc(s, t, other).Some? && NextPc(s, t, other).value.Finished?
    ensures var Thread(user, id, pc) := s.threads[t];
      var outcome := NextPc(s, t, pc.CheckBusy? && OtherReason(w, pc.row)).value.outcome;
      && Service.Accept(w, user, id) == (w, RefusalOf(w, user, id, outcome)) && outcome != Won
      && (outcome == Missing <==> id !in s.rows)
  {
    var Thread(user, id, pc) := s.threads[t];
    assert ThreadOk(s.rows, s.threads[t]);
    match pc
    case CheckBusy(row) => SameQueries(w, row);
    case MarkAccepted(_) => KeysNeverFire(s, t);
    case _ =>
  }

  // ------------------------------------------------------------- the check

  /** The check of the substitute: from the tables as they are, the accept goes on to mark its row
      exactly when the substitute is free, and is refused otherwise; no row changes. */
  lemma CheckIsWhole(s: State, s': State, t: ThreadId, w: Service.Tables)
    requires Inv(s) && t in s.threads && s.threads[t].pc.CheckBusy? && w.requests == s.rows
    requires ThreadStep(s, s', t, OtherReason(w, s.threads[t].pc.row))
    ensures var row := s.threads[t].pc.row;
      && row.substitute == s.threads[t].user && s'.rows == s.rows
      && s'.threads[t].pc == if Service.Busy(w, row.substitute, row.date, row.period) == None then MarkAccepted(row)
                             else Finished(NotFree)
  {
    assert ThreadOk(s.rows, s.threads[t]);
    SameQueries(w, s.threads[t].pc.row);
    hide Covered, Covering, OtherReason, Service.Busy;
  }

  predicate PastCheck(pc: Pc) {
    pc.MarkAccepted? || pc.FillOthers? || ((pc.Commit? || pc.Finished?) && pc.outcome == Won)
  }

  /** `worlds` are the tables beside the rows: each check looks at those of its moment. */
  ghost predicate Beside(states: seq<State>, steps: seq<Step>, worlds: seq<Service.Tables>) {
    && |states| == |steps| + 1 == |worlds|
    && (forall i :: 0 <= i < |states| ==> worlds[i].requests == states[i].rows)
    && forall i :: 0 <= i < |steps| && steps[i].Advance? ==> ChecksWorld(states[i], worlds[i], steps[i])
  }

  predicate ChecksWorld(s: State, w: Service.Tables, step: Step)
    requires step.Advance?
  {
    step.t in s.threads && s.threads[step.t].pc.CheckBusy? ==>
      step.otherReason == OtherReason(w, s.threads[step.t].pc.row)
  }

  /** The accept of `t` is at its check, and its user is free in the tables of that moment. */
  predicate FoundFree(s: State, w: Service.Tables, t: ThreadId, user: UserId, id: RequestId) {
    && t in s.threads && s.threads[t].pc.CheckBusy? && s.threads[t].user == user && s.threads[t].id == id
    && id in s.rows && s.threads[t].pc.row == s.rows[id] && s.rows[id].substitute == user
    && s.rows[id].status == Pending && Service.Busy(w, user, s.rows[id].date, s.rows[id].period) == None
  }

  lemma StepPastCheck(s: State, s': State, step: Step, w: Service.Tables, t: ThreadId)
    requires Inv(s) && Next(s, s', step) && t in s'.threads && PastCheck(s'.threads[t].pc)
    requires w.requests == s.rows && (step.Advance? ==> ChecksWorld(s, w, step))
    ensures t in s.threads && s.threads[t].user == s'.threads[t].user && s.threads[t].id == s'.threads[t].id
    ensures PastCheck(s.threads[t].pc) || FoundFree(s, w, t, s.threads[t].user, s.threads[t].id)
  {
    hide UniqueKeys, LocksApart, Covered, OtherReason, Service.Busy, KeyClash, RowBusy, UserHeld;
    if step.Advance? && step.t == t && s.threads[t].pc.CheckBusy? {
      assert ThreadOk(s.rows, s.threads[t]);
      CheckIsWhole(s, s', t, w);
    }
  }

  /** So over every run: whoever has got past the check, winners above all, was free in the tables at
      the moment of the check, with the request pending and their own. */
  lemma {:induction false} WinnersWereFree(states: seq<State>, steps: seq<Step>, worlds: seq<Service.Tables>,
      n: nat, t: ThreadId) returns (i: nat)
    requires Run(states, steps) && Beside(states, steps, worlds) && n < |states|
    requires Inv(states[0]) && states[0].threads == map[]
    requires t in states[n].threads && PastCheck(states[n].threads[t].pc)
    ensures i < n && FoundFree(states[i], worlds[i], t, states[n].threads[t].user, states[n].threads[t].id)
  {
    i := n - 1;
    RunKeepsInv(states, steps, n - 1);
    assert Next(states[n - 1], states[n], steps[n - 1]);
    assert steps[n - 1].Advance? ==> ChecksWorld(states[n - 1], worlds[n - 1], steps[n - 1]);
    hide Inv, Next, ChecksWorld, FoundFree, PastCheck;
    StepPastCheck(states[n - 1], states[n], steps[n - 1], worlds[n - 1], t);
    if PastCheck(states[n - 1].threads[t].pc) {
      i := WinnersWereFree(states, steps, worlds, n - 1, t);
    }
  }

  // ------------------------------------------------------------ whole runs

  /** What a step commits: an accept that went through, or what somebody else did to the rows. */
  datatype Entry =
    | Took(user: UserId, id: RequestId)
    | Created(id: RequestId, row: Request)
    | Closed(closed: map<RequestId, Status>)
    | Tied(links: map<RequestId, Option<LeaveId>>)

  function Commits(s: State, step: Step): seq<Entry> {
    match step
    case Advance(t, _) =>
      if t in s.threads && s.threads[t].pc.Commit? then [Took(s.threads[t].user, s.threads[t].id)] else []
    case Create(id, row) => [Created(id, row)]
    case Close(closed, _) => [Closed(closed)]
    case Retie(links) => [Tied(links)]
    case _ => []
  }

  /** Everything the first n steps commit, in that order. */
  function Log(states: seq<State>, steps: seq<Step>, n: nat): seq<Entry>
    requires n <= |steps| < |states|
  {
    if n == 0 then [] else Log(states, steps, n - 1) + Commits(states[n - 1], steps[n - 1])
  }

  /** The request rows with no classes and no leaves around. */
  function Alone(rows: Requests): Service.Tables {
    Service.Tables(rows, 0, map[], 0, map[], {}, {}, map[], 0, 0)
  }

  function Effect(rows: Requests, e: Entry): Requests {
    match e
    case Took(user, id) => Service.Accept(Alone(rows), user, id).0.requests
    case Created(id, row) => rows[id := row]
    case Closed(closed) => Written(rows, closed)
    case Tied(links) => Retied(rows, links)
  }

  function Replayed(rows: Requests, log: seq<Entry>): Requests {
    if log == [] then rows else Effect(Replayed(rows, log[..|log| - 1]), log[|log| - 1])
  }

  predicate GoesThrough(rows: Requests, e: Entry) {
    e.Took? ==> Service.Accept(Alone(rows), e.user, e.id).1 == Service.Done
  }

  /** Each accept goes through when its turn comes. */
  predicate AllGoThrough(rows: Requests, log: seq<Entry>) {
    log != [] ==>
      var before := log[..|log| - 1];
      AllGoThrough(rows, before) && GoesThrough(Replayed(rows, before), log[|log| - 1])
  }

  lemma StepIsSerial(s: State, s': State, step: Step)
    requires Tidy(s) && Next(s, s', step)
    ensures var log := Commits(s, step);
      && (log == [] ==> s'.rows == s.rows)
      && (log != [] ==> |log| == 1 && s'.rows == Effect(s.rows, log[0]) && GoesThrough(s.rows, log[0]))
  {
    if step.Advance? && s.threads[step.t].pc.Commit? { CommitIsSerial(s, step.t, Alone(s.rows)); }
    hide Tidy, Service.Accept, NextPc;
  }

  /** However accepts and everything else interleave, as long as no create comes late, the rows are
      those of carrying out what was committed one whole request after another, in the order of the
      commits; and each accept among them goes through when its turn comes. */
  lemma {:induction false} RunIsSerial(states: seq<State>, steps: seq<Step>, n: nat)
    requires |states| == |steps| + 1 && n <= |steps|
    requires Run(states, steps) && Tidy(states[0]) && OnTime(states, steps)
    ensures var log := Log(states, steps, n);
      states[n].rows == Replayed(states[0].rows, log) && AllGoThrough(states[0].rows, log)
  {
    hide Tidy, Next, Effect, GoesThrough, AllGoThrough, Commits, Run, OnTime;
    if n > 0 {
      RunIsSerial(states, steps, n - 1);
      OnTimeRunsAreTidy(states, steps, n - 1);
      StepOfRun(states, steps, n - 1);
      StepIsSerial(states[n - 1], states[n], steps[n - 1]);
      Longer(states[0].rows, Log(states, steps, n - 1), Commits(states[n - 1], steps[n - 1]));
    } else {
      assert AllGoThrough(states[0].rows, []) by { NothingFails(states[0].rows); }
    }
  }

  lemma NothingFails(rows: Requests)
    ensures AllGoThrough(rows, []) && Replayed(rows, []) == rows
  {
  }

  lemma Longer(rows: Requests, log: seq<Entry>, more: seq<Entry>)
    requires |more| <= 1
    ensures Replayed(rows, log + more) ==
      if more == [] then Replayed(rows, log) else Effect(Replayed(rows, log), more[0])
    ensures AllGoThrough(rows, log + more) <==>
      AllGoThrough(rows, log) && (more == [] || GoesThrough(Replayed(rows, log), more[0]))
  {
    hide Effect, GoesThrough;
    assert more == [] ==> log + more == log;
    assert more != [] ==> (log + more)[..|log|] == log;
  }

  lemma StepOfRun(states: seq<State>, steps: seq<Step>, i: nat)
    requires Run(states, steps) && i < |steps|
    ensures Next(states[i], states[i + 1], steps[i])
  {
  }
}
