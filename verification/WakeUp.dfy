/** The wake-up flag between enqueueing threads and the only worker (enqueue, run_pending and
    work_forever of services/background.py), one shared action a step. */
module WakeUp {

  type JobId = nat

  /** A committed job nobody has run yet, asked for with a delay or not; `announced` once its on-commit
      hook has set the flag. A job put back for a later retry is not announced again and is left to
      polling. */
  datatype Job = Job(runAfter: int, delayed: bool, announced: bool, retry: bool)

  /** The worker: `_wake.clear()`, `now = utcnow()`, SELECT, the jobs one by one, `_wake.wait()`. */
  datatype Worker =
    | Top
    | Cleared
    | Clocked(now: int)
    | Working(todo: seq<JobId>, full: bool)
    | Waiting

  /** `scanned` is the clock as the worker last read it. */
  datatype State = State(flag: bool, now: int, scanned: int, waiting: map<JobId, Job>, worker: Worker)

  datatype Step =
    | Commit(id: JobId, createdAt: int, delay: nat)
    | Announce(id: JobId)
    | Tick(seconds: nat)
    | Clear
    | ReadClock
    | Select(due: seq<JobId>)
    | RunNext(retryAt: int)
    | Decide
    | Return

  predicate Due(s: State, now: int, j: JobId) {
    j in s.waiting && s.waiting[j].runAfter <= now
  }

  predicate Distinct(due: seq<JobId>) {
    forall i, k :: 0 <= i < k < |due| ==> due[i] != due[k]
  }

  function Gone(waiting: map<JobId, Job>, id: JobId): map<JobId, Job> {
    map j | j in waiting && j != id :: waiting[j]
  }

  ghost predicate Next(limit: nat, s: State, s': State, step: Step) {
    match step
    case Commit(id, createdAt, delay) =>
      // the clock was read before the commit
      && id !in s.waiting && createdAt <= s.now
      && s' == s.(waiting := s.waiting[id := Job(createdAt + delay, delay > 0, false, false)])
    case Announce(id) =>
      // the hook may find the job already run
      s' == s.(flag := true,
               waiting := if id in s.waiting then s.waiting[id := s.waiting[id].(announced := true)] else s.waiting)
    case Tick(seconds) => s' == s.(now := s.now + seconds)
    case Clear => s.worker == Top && s' == s.(flag := false, worker := Cleared)
    case ReadClock => s.worker == Cleared && s' == s.(scanned := s.now, worker := Clocked(s.now))
    case Select(due) =>
      && s.worker.Clocked? && |due| <= limit
      && (forall j :: j in due ==> Due(s, s.worker.now, j)) && Distinct(due)
      && (|due| < limit ==> forall j :: Due(s, s.worker.now, j) ==> j in due)
      && s' == s.(worker := Working(due, |due| == limit))
    case RunNext(retryAt) =>
      // done for good, or put back for later
      && s.worker.Working? && s.worker.todo != []
      && var id := s.worker.todo[0];
         && (s'.waiting == Gone(s.waiting, id)
             || (retryAt > s.now && s'.waiting == s.waiting[id := Job(retryAt, true, false, true)]))
         && s' == s.(waiting := s'.waiting, worker := Working(s.worker.todo[1..], s.worker.full))
    case Decide =>
      && s.worker.Working? && s.worker.todo == []
      && s' == s.(worker := if s.worker.full then Top else Waiting)
    case Return => s.worker == Waiting && s' == s.(worker := Top)   // the flag is set, or the poll ran out
  }

  /** An announced job is covered: by the flag, by the scan the worker has begun, or it was not due when
      the worker last read the clock. */
  ghost predicate Covered(s: State, j: JobId)
    requires j in s.waiting
  {
    s.flag || match s.worker
      case Top | Cleared => true
      case Clocked(_) => s.waiting[j].delayed || s.waiting[j].runAfter <= s.scanned
      case Working(todo, full) => j in todo || full || NotYet(s, j)
      case Waiting => NotYet(s, j)
  }

  predicate NotYet(s: State, j: JobId)
    requires j in s.waiting
  {
    s.waiting[j].delayed && s.waiting[j].runAfter > s.scanned
  }

  ghost predicate Inv(s: State) {
    && (forall j :: j in s.waiting && !s.waiting[j].delayed ==> s.waiting[j].runAfter <= s.now)
    && (forall j :: j in s.waiting && s.waiting[j].announced && !s.waiting[j].retry ==> Covered(s, j))
    && (s.worker.Clocked? ==> s.worker.now == s.scanned) && s.scanned <= s.now
    && (s.worker.Working? ==> Listed(s, s.worker.todo))
  }

  /** What the worker has still to run is there, and was due when it last read the clock. */
  ghost predicate Listed(s: State, todo: seq<JobId>) {
    Distinct(todo) && forall j :: j in todo ==> j in s.waiting && s.waiting[j].runAfter <= s.scanned
  }

  lemma NextKeeps(limit: nat, s: State, s': State, step: Step)
    requires Inv(s) && Next(limit, s, s', step)
    ensures Inv(s')
  {
    if step.RunNext? {
      assert s.worker.todo == [s.worker.todo[0]] + s.worker.todo[1..];
      assert s.worker.todo[0] !in s.worker.todo[1..];
    }
  }

  ghost predicate Run(limit: nat, states: seq<State>, steps: seq<Step>) {
    && |states| == |steps| + 1
    && forall i :: 0 <= i < |steps| ==> Next(limit, states[i], states[i + 1], steps[i])
  }

  lemma {:induction false} RunKeeps(limit: nat, states: seq<State>, steps: seq<Step>, n: nat)
    requires Run(limit, states, steps) && n < |states| && Inv(states[0])
    ensures Inv(states[n])
  {
    if n > 0 {
      RunKeeps(limit, states, steps, n - 1);
      NextKeeps(limit, states[n - 1], states[n], steps[n - 1]);
    }
  }

  /** No wake-up is lost: whenever the worker sleeps with the flag down, every job committed in this
      process has a hook that is still about to raise the flag, or was asked for with a delay that was
      not over when the worker last looked. */
  lemma NoLostWakeUp(limit: nat, states: seq<State>, steps: seq<Step>, n: nat, j: JobId)
    requires Run(limit, states, steps) && n < |states|
    requires states[0].waiting == map[] && states[0].worker == Top && states[0].scanned <= states[0].now
    requires states[n].worker == Waiting && j in states[n].waiting && !states[n].waiting[j].retry
    ensures states[n].flag || !states[n].waiting[j].announced || NotYet(states[n], j)
  {
    RunKeeps(limit, states, steps, n);
  }

  /** And no job is run before its time, or a second time without being put back. */
  lemma RunWhenDue(limit: nat, states: seq<State>, steps: seq<Step>, n: nat)
    requires Run(limit, states, steps) && n < |steps| && Next(limit, states[n], states[n + 1], steps[n])
    requires steps[n].RunNext?
    requires states[0].waiting == map[] && states[0].worker == Top && states[0].scanned <= states[0].now
    ensures Due(states[n], states[n].now, states[n].worker.todo[0])
  {
    RunKeeps(limit, states, steps, n);
    assert states[n].worker.todo[0] in states[n].worker.todo;
  }

  // ------------------------------------------------ what the worker gets done

  /** What a round leaves waiting: a job run is gone unless it is put back for later. */
  function After(waiting: map<JobId, Job>, todo: seq<JobId>, retries: map<JobId, int>): map<JobId, Job> {
    map j | j in waiting && (j in todo ==> j in retries) ::
      if j in todo then Job(retries[j], true, false, true) else waiting[j]
  }

  lemma AfterFirst(waiting: map<JobId, Job>, todo: seq<JobId>, retries: map<JobId, int>)
    requires todo != [] && Distinct(todo) && todo[0] in waiting
    ensures var id := todo[0];
      var rest := if id in retries then waiting[id := Job(retries[id], true, false, true)] else Gone(waiting, id);
      After(rest, todo[1..], retries) == After(waiting, todo, retries)
  {
    assert todo == [todo[0]] + todo[1..] && todo[0] !in todo[1..];
  }

  lemma FirstStep(limit: nat, s: State, step: Step, states: seq<State>, steps: seq<Step>)
    requires Run(limit, states, steps) && Next(limit, s, states[0], step)
    ensures Run(limit, [s] + states, [step] + steps)
  {
    hide Next;
    forall i | 0 <= i < |steps| + 1
      ensures Next(limit, ([s] + states)[i], ([s] + states)[i + 1], ([step] + steps)[i])
    {
      if i > 0 {
        assert ([s] + states)[i] == states[i - 1] && ([s] + states)[i + 1] == states[i];
        assert ([step] + steps)[i] == steps[i - 1];
      }
    }
  }

  /** Some run leads from one state to the other. */
  ghost predicate Leads(limit: nat, s: State, s': State) {
    exists states, steps :: Run(limit, states, steps) && states[0] == s && states[|steps|] == s'
  }

  lemma LeadsOn(limit: nat, s: State, step: Step, s1: State, s': State)
    requires Next(limit, s, s1, step) && Leads(limit, s1, s')
    ensures Leads(limit, s, s')
  {
    hide Next;
    var states, steps :| Run(limit, states, steps) && states[0] == s1 && states[|steps|] == s';
    FirstStep(limit, s, step, states, steps);
    assert ([s] + states)[|[step] + steps|] == s';
  }

  lemma LeadsToItself(limit: nat, s: State)
    ensures Leads(limit, s, s)
  {
    var states, steps: seq<Step> := [s], [];
    assert Run(limit, states, steps);
  }

  lemma {:induction false} ListIsRun(limit: nat, s: State, todo: seq<JobId>, full: bool, retries: map<JobId, int>)
    requires s.worker == Working(todo, full) && Distinct(todo) && forall j :: j in todo ==> j in s.waiting
    requires forall j :: j in retries ==> retries[j] > s.now
    ensures Leads(limit, s, s.(waiting := After(s.waiting, todo, retries), worker := if full then Top else Waiting))
    decreases |todo|
  {
    if todo == [] {
      assert After(s.waiting, todo, retries) == s.waiting;
      var s' := s.(worker := if full then Top else Waiting);
      LeadsToItself(limit, s');
      LeadsOn(limit, s, Decide, s', s');
    } else {
      var id := todo[0];
      var waiting :=
        if id in retries then s.waiting[id := Job(retries[id], true, false, true)] else Gone(s.waiting, id);
      var s1 := s.(waiting := waiting, worker := Working(todo[1..], full));
      AfterFirst(s.waiting, todo, retries);
      assert Next(limit, s, s1, RunNext(if id in retries then retries[id] else 0));
      hide After, Leads, Next;
      ListIsRun(limit, s1, todo[1..], full, retries);
      LeadsOn(limit, s, RunNext(if id in retries then retries[id] else 0), s1,
        s.(waiting := After(s.waiting, todo, retries), worker := if full then Top else Waiting));
    }
  }

  /** A round of the worker: whatever it may list is run, what raised is put back, and it goes on at once
      exactly when the list was full; else it sleeps, with the flag down. */
  lemma OneRound(limit: nat, s: State, due: seq<JobId>, retries: map<JobId, int>)
    requires s.worker == Top && |due| <= limit && Distinct(due)
    requires forall j :: j in due ==> j in s.waiting && s.waiting[j].runAfter <= s.now
    requires |due| < limit ==> forall j :: j in s.waiting && s.waiting[j].runAfter <= s.now ==> j in due
    requires forall j :: j in retries ==> retries[j] > s.now
    ensures Leads(limit, s, State(false, s.now, s.now, After(s.waiting, due, retries),
                                  if |due| == limit then Top else Waiting))
  {
    var s1 := s.(flag := false, worker := Cleared);
    var s2 := s1.(scanned := s.now, worker := Clocked(s.now));
    var s3 := s2.(worker := Working(due, |due| == limit));
    var end := State(false, s.now, s.now, After(s.waiting, due, retries), if |due| == limit then Top else Waiting);
    assert Next(limit, s, s1, Clear) && Next(limit, s1, s2, ReadClock) && Next(limit, s2, s3, Select(due));
    hide Next, Leads, After;
    ListIsRun(limit, s3, due, |due| == limit, retries);
    LeadsOn(limit, s2, Select(due), s3, end);
    LeadsOn(limit, s1, ReadClock, s2, end);
    LeadsOn(limit, s, Clear, s1, end);
  }

  /** What happens to a job: committed by a clock read before, announced, and left for a while, it is run
      by the worker that the flag or the poll wakes, once its delay is over, with all that is due then. */
  lemma AnnouncedIsRun(limit: nat, s: State, id: JobId, createdAt: int, delay: nat, wait: nat, due: seq<JobId>,
      retries: map<JobId, int>)
    requires s.worker == Waiting && id !in s.waiting && createdAt <= s.now && createdAt + delay <= s.now + wait
    requires Distinct(due) && |due| < limit && id !in retries && forall j :: j in retries ==> retries[j] > s.now + wait
    requires forall j :: j in due <==> j in s.waiting && s.waiting[j].runAfter <= s.now + wait
    ensures Leads(limit, s, State(false, s.now + wait, s.now + wait, After(s.waiting, due, retries),
                                  if |due| + 1 == limit then Top else Waiting))
  {
    var s1 := s.(waiting := s.waiting[id := Job(createdAt + delay, delay > 0, false, false)]);
    var s2 := s1.(flag := true, waiting := s.waiting[id := Job(createdAt + delay, delay > 0, true, false)]);
    var s3 := s2.(now := s.now + wait);
    var s4 := s3.(worker := Top);
    var end := State(false, s.now + wait, s.now + wait, After(s.waiting, due, retries),
                     if |due| + 1 == limit then Top else Waiting);
    assert Next(limit, s, s1, Commit(id, createdAt, delay)) && Next(limit, s1, s2, Announce(id));
    assert Next(limit, s2, s3, Tick(wait)) && Next(limit, s3, s4, Return);
    assert id !in due && forall j :: j in due + [id] <==> j in due || j == id;
    assert After(s4.waiting, due + [id], retries) == After(s.waiting, due, retries);
    hide Next, Leads, After;
    OneRound(limit, s4, due + [id], retries);
    LeadsOn(limit, s3, Return, s4, end);
    LeadsOn(limit, s2, Tick(wait), s3, end);
    LeadsOn(limit, s1, Announce(id), s2, end);
    LeadsOn(limit, s, Commit(id, createdAt, delay), s1, end);
  }
}
