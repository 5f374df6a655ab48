/** The durable job queue of services/background.py under any number of workers, statement by
    statement. Time is in seconds. */
module JobQueue {

  type JobId = nat
  type WorkerId = nat

  datatype Status = Pending | Running | Done | Failed

  /** `crashes` counts the workers lost while running this job since it was last queued; it is kept
      for the statements below, the source stores no such column. */
  datatype Job = Job(
    status: Status, attempts: nat, maxAttempts: nat, runAfter: int, lockedAt: int, payload: bool, crashes: nat)

  datatype Worker =
    | Asleep
    | Recovered(now: int)                               // freed stuck jobs, about to look for due ones
    | Claiming(todo: seq<JobId>)
    | Executing(job: JobId, claimedAt: int, todo: seq<JobId>)

  datatype State = State(jobs: map<JobId, Job>, workers: map<WorkerId, Worker>, now: int)

  /** How a job's function ends; CantRun is an unknown task or an unreadable payload. */
  datatype Outcome = Succeeds | Raises | CantRun

  const CLAIM_BATCH: nat := 20

  const BACKOFF_SECONDS: seq<nat> := [10, 60, 300, 1800, 7200]

  function Backoff(attempts: nat): nat
    requires attempts >= 1
  {
    BACKOFF_SECONDS[(if attempts < |BACKOFF_SECONDS| then attempts else |BACKOFF_SECONDS|) - 1]
  }

  /** Ten seconds, a minute, five minutes, half an hour, then two hours each time: the delay before the
      next attempt never shrinks. */
  lemma BackoffGrows(a: nat, b: nat)
    requires 1 <= a <= b
    ensures 10 <= Backoff(a) <= Backoff(b) <= 7200
    ensures (a == 1 ==> Backoff(a) == 10) && (a == 2 ==> Backoff(a) == 60) && (a == 3 ==> Backoff(a) == 5 * 60)
    ensures (a == 4 ==> Backoff(a) == 30 * 60) && (a >= 5 ==> Backoff(a) == 2 * 60 * 60)
  {
  }

  // ---------------------------------------------------------- statements

  function Freed(jobs: map<JobId, Job>, before: int): map<JobId, Job> {
    map j | j in jobs :: if jobs[j].status == Running && jobs[j].lockedAt < before
                         then jobs[j].(status := Pending) else jobs[j]
  }

  predicate Due(job: Job, now: int) {
    job.status == Pending && job.runAfter <= now
  }

  function Claimed(job: Job, now: int): Job {
    job.(status := Running, lockedAt := now, attempts := job.attempts + 1)
  }

  /** `_run_job` after the function returned or raised. */
  function Settled(job: Job, outcome: Outcome, now: int): Job
    requires job.attempts >= 1
  {
    match outcome
    case Succeeds => job.(status := Done, payload := false)
    case CantRun => job.(status := Failed)
    case Raises =>
      if job.attempts >= job.maxAttempts then job.(status := Failed)
      else job.(status := Pending, runAfter := now + Backoff(job.attempts))
  }

  function Retried(jobs: map<JobId, Job>, now: int): map<JobId, Job> {
    map j | j in jobs :: if jobs[j].status == Failed && jobs[j].payload
                         then jobs[j].(status := Pending, attempts := 0, runAfter := now, crashes := 0) else jobs[j]
  }

  /** ORDER BY run_after, id. */
  predicate Earlier(jobs: map<JobId, Job>, a: JobId, b: JobId)
    requires a in jobs && b in jobs
  {
    jobs[a].runAfter < jobs[b].runAfter || (jobs[a].runAfter == jobs[b].runAfter && a <= b)
  }

  /** The first `limit` due jobs, in order, each once. */
  ghost predicate IsDueList(jobs: map<JobId, Job>, now: int, limit: nat, due: seq<JobId>) {
    && |due| <= limit
    && (forall i :: 0 <= i < |due| ==> due[i] in jobs && Due(jobs[due[i]], now))
    && (forall i, k :: 0 <= i < k < |due| ==> due[i] != due[k] && Earlier(jobs, due[i], due[k]))
    && (forall j, i :: j in jobs && Due(jobs[j], now) && j !in due && 0 <= i < |due| ==> Earlier(jobs, due[i], j))
    && (|due| < limit ==> forall j :: j in jobs && Due(jobs[j], now) ==> j in due)
  }

  // --------------------------------------------------------------- steps

  datatype Step =
    | Enqueue(id: JobId, maxAttempts: nat, delay: nat)
    | Recover(w: WorkerId)
    | Scan(w: WorkerId, due: seq<JobId>)
    | Claim(w: WorkerId)
    | Rest(w: WorkerId)
    | Settle(w: WorkerId, outcome: Outcome)
    | Crash(w: WorkerId)
    | RetryFailed
    | Tick(seconds: nat)

  /** No live run outlasts the stuck window: time waits for it to settle or crash. */
  ghost predicate InTime(stuck: nat, s: State) {
    forall w :: w in s.workers && s.workers[w].Executing? ==> s.now <= s.workers[w].claimedAt + stuck
  }

  ghost predicate Next(stuck: nat, s: State, s': State, step: Step) {
    match step
    case Enqueue(id, maxAttempts, delay) =>
      && id !in s.jobs && maxAttempts >= 1
      && s' == s.(jobs := s.jobs[id := Job(Pending, 0, maxAttempts, s.now + delay, 0, true, 0)])
    case Recover(w) =>
      && w in s.workers && s.workers[w].Asleep?
      && s' == s.(jobs := Freed(s.jobs, s.now - stuck), workers := s.workers[w := Recovered(s.now)])
    case Scan(w, due) =>
      && w in s.workers && s.workers[w].Recovered?
      && IsDueList(s.jobs, s.workers[w].now, CLAIM_BATCH, due)
      && s' == s.(workers := s.workers[w := Claiming(due)])
    case Claim(w) =>
      && w in s.workers && s.workers[w].Claiming? && s.workers[w].todo != []
      && var j, rest := s.workers[w].todo[0], s.workers[w].todo[1..];
         if j in s.jobs && s.jobs[j].status == Pending
         then s' == s.(jobs := s.jobs[j := Claimed(s.jobs[j], s.now)],
                       workers := s.workers[w := Executing(j, s.now, rest)])
         else s' == s.(workers := s.workers[w := Claiming(rest)])
    case Rest(w) =>
      && w in s.workers && s.workers[w].Claiming? && s.workers[w].todo == []
      && s' == s.(workers := s.workers[w := Asleep])
    case Settle(w, outcome) =>
      && w in s.workers && s.workers[w].Executing?
      && var j := s.workers[w].job;
         && j in s.jobs && s.jobs[j].attempts >= 1
         && s' == s.(jobs := s.jobs[j := Settled(s.jobs[j], outcome, s.now)],
                     workers := s.workers[w := Claiming(s.workers[w].todo)])
    case Crash(w) =>
      && w in s.workers && s.workers[w].Executing?
      && var j := s.workers[w].job;
         && j in s.jobs
         && s' == s.(jobs := s.jobs[j := s.jobs[j].(crashes := s.jobs[j].crashes + 1)],
                     workers := s.workers[w := Asleep])
    case RetryFailed => s' == s.(jobs := Retried(s.jobs, s.now))
    case Tick(seconds) => s' == s.(now := s.now + seconds) && InTime(stuck, s')
  }

  // ----------------------------------------------------------- invariant

  ghost predicate Runs(s: State, w: WorkerId, j: JobId) {
    w in s.workers && s.workers[w].Executing? && s.workers[w].job == j
  }

  /** Attempts beyond the maximum are paid for by crashes; a job lost in a crash has one to spare. */
  ghost predicate JobOk(s: State, j: JobId)
    requires j in s.jobs
  {
    var job := s.jobs[j];
    && job.maxAttempts >= 1
    && job.attempts <= job.maxAttempts + job.crashes
    && (job.status == Pending ==> job.attempts < job.maxAttempts + job.crashes)
    && (job.status == Running ==> job.attempts >= 1)
    && (job.status == Running && (forall w :: !Runs(s, w, j)) ==> job.attempts < job.maxAttempts + job.crashes)
    && (job.status != Done ==> job.payload)
  }

  ghost predicate WorkerOk(stuck: nat, s: State, w: WorkerId)
    requires w in s.workers
  {
    match s.workers[w]
    case Executing(j, claimedAt, _) =>
      && j in s.jobs && s.jobs[j].status == Running && s.jobs[j].lockedAt == claimedAt
      && s.now <= claimedAt + stuck
    case Recovered(now) => now <= s.now
    case _ => true
  }

  ghost predicate OneExecutor(s: State) {
    forall v, w, j :: Runs(s, v, j) && Runs(s, w, j) ==> v == w
  }

  ghost predicate Inv(stuck: nat, s: State) {
    && (forall j :: j in s.jobs ==> JobOk(s, j))
    && (forall w :: w in s.workers ==> WorkerOk(stuck, s, w))
    && OneExecutor(s)
  }

  /** Recovery never touches a job that a live worker is still running. */
  lemma LiveJobsNotFreed(stuck: nat, s: State, j: JobId, w: WorkerId)
    requires Inv(stuck, s) && Runs(s, w, j)
    ensures j in s.jobs && Freed(s.jobs, s.now - stuck)[j] == s.jobs[j]
  {
    assert WorkerOk(stuck, s, w);
  }

  lemma RecoverKeeps(stuck: nat, s: State, s': State, w: WorkerId)
    requires Inv(stuck, s) && Next(stuck, s, s', Recover(w))
    ensures Inv(stuck, s')
  {
    forall v, j ensures Runs(s', v, j) <==> Runs(s, v, j) {}
    forall j | j in s'.jobs ensures JobOk(s', j) {
      assert JobOk(s, j);
      if v :| Runs(s, v, j) {
        LiveJobsNotFreed(stuck, s, j, v);
        assert Runs(s', v, j);
      }
    }
    forall v | v in s'.workers ensures WorkerOk(stuck, s', v) {
      assert WorkerOk(stuck, s, v);
      if s'.workers[v].Executing? { LiveJobsNotFreed(stuck, s, s.workers[v].job, v); }
    }
  }

  lemma ClaimKeeps(stuck: nat, s: State, s': State, w: WorkerId)
    requires Inv(stuck, s) && Next(stuck, s, s', Claim(w))
    ensures Inv(stuck, s')
  {
    var j := s.workers[w].todo[0];
    forall v, k ensures Runs(s', v, k) <==> Runs(s, v, k) || (s'.workers[w].Executing? && v == w && k == j) {}
    forall v | v in s.workers ensures v != w ==> s'.workers[v] == s.workers[v] && WorkerOk(stuck, s, v) {}
    forall k | k in s'.jobs ensures JobOk(s', k) {
      assert JobOk(s, k);
      if s'.workers[w].Executing? { assert Runs(s', w, j); }
      if v :| Runs(s, v, k) { assert Runs(s', v, k); }
    }
  }

  lemma SettleKeeps(stuck: nat, s: State, s': State, w: WorkerId, step: Step)
    requires Inv(stuck, s) && Next(stuck, s, s', step) && (step == Crash(w) || (step.Settle? && step.w == w))
    ensures Inv(stuck, s')
  {
    var j := s.workers[w].job;
    assert Runs(s, w, j) && WorkerOk(stuck, s, w);
    forall v, k ensures Runs(s', v, k) <==> Runs(s, v, k) && v != w {}
    forall v | v in s.workers && v != w ensures WorkerOk(stuck, s', v) {
      assert WorkerOk(stuck, s, v);
      if s.workers[v].Executing? { assert Runs(s, v, s.workers[v].job); }
    }
    forall k | k in s'.jobs ensures JobOk(s', k) {
      assert JobOk(s, k);
      if k != j {
        if v :| Runs(s, v, k) { assert Runs(s', v, k); }
      }
    }
  }

  lemma NextKeeps(stuck: nat, s: State, s': State, step: Step)
    requires Inv(stuck, s) && Next(stuck, s, s', step)
    ensures Inv(stuck, s')
  {
    match step
    case Recover(w) => RecoverKeeps(stuck, s, s', w);
    case Claim(w) => ClaimKeeps(stuck, s, s', w);
    case Settle(w, outcome) => SettleKeeps(stuck, s, s', w, step);
    case Crash(w) => SettleKeeps(stuck, s, s', w, step);
    case _ =>
      forall v, k ensures Runs(s', v, k) <==> Runs(s, v, k) {}
      forall v | v in s'.workers ensures WorkerOk(stuck, s', v) {
        assert WorkerOk(stuck, s, v);
        if s.workers[v].Executing? { assert Runs(s, v, s.workers[v].job); }
      }
      forall k | k in s'.jobs ensures JobOk(s', k) {
        if k in s.jobs {
          assert JobOk(s, k);
          if v :| Runs(s, v, k) { assert Runs(s', v, k); }
        }
      }
  }

  // ---------------------------------------------------------------- runs

  ghost predicate Run(stuck: nat, states: seq<State>, steps: seq<Step>) {
    && |states| == |steps| + 1
    && forall i :: 0 <= i < |steps| ==> Next(stuck, states[i], states[i + 1], steps[i])
  }

  lemma {:induction false} RunKeeps(stuck: nat, states: seq<State>, steps: seq<Step>, n: nat)
    requires Run(stuck, states, steps) && n < |states| && Inv(stuck, states[0])
    ensures Inv(stuck, states[n])
  {
    if n > 0 {
      RunKeeps(stuck, states, steps, n - 1);
      NextKeeps(stuck, states[n - 1], states[n], steps[n - 1]);
    }
  }

  /** From an empty queue, whatever the workers do: never two at the same job; never more than
      max_attempts runs per queueing, and one more for each crash; no payload lost before the end. */
  lemma QueueIsSafe(stuck: nat, states: seq<State>, steps: seq<Step>, n: nat)
    requires Run(stuck, states, steps) && n < |states|
    requires states[0].jobs == map[] && forall w :: w in states[0].workers ==> states[0].workers[w] == Asleep
    ensures OneExecutor(states[n])
    ensures forall j :: j in states[n].jobs ==>
      var job := states[n].jobs[j];
      && job.attempts <= job.maxAttempts + job.crashes
      && (job.status == Pending && job.crashes == 0 ==> job.attempts < job.maxAttempts)
      && (job.status != Done ==> job.payload)
  {
    RunKeeps(stuck, states, steps, n);
    forall j | j in states[n].jobs ensures JobOk(states[n], j) {}
  }

  // ------------------------------------------------------------- outcomes

  /** What becomes of a job that a worker runs: done without its payload, failed with it, or back with
      it for later; nothing else about it changes. */
  lemma SettlingMeans(stuck: nat, s: State, s': State, w: WorkerId, outcome: Outcome)
    requires Inv(stuck, s) && Next(stuck, s, s', Settle(w, outcome))
    ensures var j := s.workers[w].job;
      && Runs(s, w, j) && j in s.jobs && j in s'.jobs
      && var job, job' := s.jobs[j], s'.jobs[j];
         var spare := job.attempts < job.maxAttempts;
         && (job'.status == Done <==> outcome == Succeeds) && (job'.status == Pending <==> outcome == Raises && spare)
         && (job'.status == Done || job'.status == Pending || job'.status == Failed)
         && job'.payload == (outcome != Succeeds)
         && job'.runAfter == (if job'.status == Pending then s.now + Backoff(job.attempts) else job.runAfter)
         && job' == job.(status := job'.status, payload := job'.payload, runAfter := job'.runAfter)
    ensures forall k :: k in s.jobs && k != s.workers[w].job ==> k in s'.jobs && s'.jobs[k] == s.jobs[k]
  {
    var j := s.workers[w].job;
    assert WorkerOk(stuck, s, w) && JobOk(s, j);
    if s.jobs[j].attempts < s.jobs[j].maxAttempts { BackoffGrows(s.jobs[j].attempts, s.jobs[j].attempts); }
    hide Backoff;
  }

  /** Done, or without its payload. */
  predicate Through(s: State, j: JobId) {
    j in s.jobs && (s.jobs[j].status == Done || !s.jobs[j].payload)
  }

  /** Only a success of the one worker that runs it makes a job done or takes its payload. */
  lemma DoneBySuccess(stuck: nat, s: State, s': State, step: Step, j: JobId)
    requires Inv(stuck, s) && Next(stuck, s, s', step) && j in s.jobs && Through(s', j)
    ensures Through(s, j) || Succeeded(s, step, j)
  {
    assert JobOk(s, j);
    if step.Settle? && Runs(s, step.w, j) { SettlingMeans(stuck, s, s', step.w, step.outcome); }
  }

  ghost predicate Succeeded(s: State, step: Step, j: JobId) {
    step.Settle? && step.outcome == Succeeds && Runs(s, step.w, j)
  }

  /** So over every run from an empty queue, whatever crashes or is tried again: a job that is done, or
      has lost its payload, was run to its end by a worker without raising. */
  lemma {:induction false} DoneWasRun(stuck: nat, states: seq<State>, steps: seq<Step>, n: nat, j: JobId)
    returns (i: nat)
    requires |states| == |steps| + 1 && n <= |steps| && Run(stuck, states, steps)
    requires Inv(stuck, states[0]) && states[0].jobs == map[]
    requires Through(states[n], j)
    ensures i < n && Succeeded(states[i], steps[i], j)
  {
    i := n - 1;
    RunKeeps(stuck, states, steps, n - 1);
    assert Next(stuck, states[n - 1], states[n], steps[n - 1]);
    hide Run, Inv;
    assert j in states[n - 1].jobs;
    hide Through;
    DoneBySuccess(stuck, states[n - 1], states[n], steps[n - 1], j);
    hide Next, Succeeded;
    if !Succeeded(states[n - 1], steps[n - 1], j) {
      i := DoneWasRun(stuck, states, steps, n - 1, j);
    }
  }

  /** Trying failed jobs again makes every one of them due at once with all its attempts, and leaves
      the others alone. */
  lemma RetryingMeans(stuck: nat, s: State, s': State, j: JobId)
    requires Inv(stuck, s) && Next(stuck, s, s', RetryFailed) && j in s.jobs
    ensures j in s'.jobs
    ensures s.jobs[j].status == Failed ==>
      && Due(s'.jobs[j], s'.now) && s'.jobs[j].attempts == 0 && s'.jobs[j].payload
      && s'.jobs[j].maxAttempts == s.jobs[j].maxAttempts
    ensures s.jobs[j].status != Failed ==> s'.jobs[j] == s.jobs[j]
  {
    assert JobOk(s, j);
  }

  /** Freeing stuck jobs puts exactly those back that were claimed before the window, as they were. */
  lemma RecoveringMeans(stuck: nat, s: State, s': State, w: WorkerId, j: JobId)
    requires Next(stuck, s, s', Recover(w)) && j in s.jobs
    ensures j in s'.jobs
    ensures s'.jobs[j] == s.jobs[j].(status := s'.jobs[j].status)
    ensures s'.jobs[j].status != s.jobs[j].status <==> s.jobs[j].status == Running && s.jobs[j].lockedAt + stuck < s.now
    ensures s'.jobs[j].status != s.jobs[j].status ==> s'.jobs[j].status == Pending
  {
  }

  /** A claim counts the attempt and stamps it; a job that is no longer pending is passed over. */
  lemma ClaimingMeans(stuck: nat, s: State, s': State, w: WorkerId)
    requires Next(stuck, s, s', Claim(w))
    ensures var j := s.workers[w].todo[0];
      && (forall k :: k in s.jobs && k != j ==> k in s'.jobs && s'.jobs[k] == s.jobs[k])
      && (Runs(s', w, j) <==> j in s.jobs && s.jobs[j].status == Pending)
      && (Runs(s', w, j) ==>
            j in s'.jobs && s'.jobs[j] == s.jobs[j].(status := Running, lockedAt := s.now,
                                                    attempts := s.jobs[j].attempts + 1))
      && (!Runs(s', w, j) ==> s'.jobs == s.jobs)
      && Todo(s'.workers[w]) == s.workers[w].todo[1..]
  {
  }

  // --------------------------------------------------------------- delays

  function Todo(worker: Worker): seq<JobId> {
    match worker
    case Claiming(todo) => todo
    case Executing(_, _, todo) => todo
    case _ => []
  }

  ghost predicate NobodyPlans(s: State, j: JobId) {
    forall w :: w in s.workers ==> j !in Todo(s.workers[w])
  }

  /** Put back for later, and on nobody's list. */
  ghost predicate Delayed(s: State, j: JobId, job: Job) {
    j in s.jobs && s.jobs[j] == job && job.status == Pending && NobodyPlans(s, j)
  }

  lemma StaysDelayed(stuck: nat, s: State, s': State, step: Step, j: JobId, job: Job)
    requires Inv(stuck, s) && Next(stuck, s, s', step) && Delayed(s, j, job) && s.now < job.runAfter
    ensures Delayed(s', j, job)
  {
    forall w | w in s.workers ensures WorkerOk(stuck, s, w) && j !in Todo(s.workers[w]) {}
    forall w | w in s'.workers ensures j !in Todo(s'.workers[w]) {
      if step.Scan? && w == step.w {
        assert s.workers[w].Recovered? && s.workers[w].now <= s.now;
      } else if w in s.workers && s.workers[w].Claiming? && s.workers[w].todo != [] {
        assert forall k :: k in s.workers[w].todo[1..] ==> k in s.workers[w].todo;
      }
    }
  }

  /** A job that is on nobody's list is not run before its delay is over, whatever happens meanwhile. */
  lemma {:induction false} DelayRespected(stuck: nat, states: seq<State>, steps: seq<Step>, m: nat, n: nat, j: JobId,
      job: Job)
    requires Run(stuck, states, steps) && m <= n < |states| && Inv(stuck, states[0])
    requires Delayed(states[m], j, job) && forall i :: m <= i < n ==> states[i].now < job.runAfter
    ensures Delayed(states[n], j, job) && forall w :: !Runs(states[n], w, j)
    decreases n
  {
    RunKeeps(stuck, states, steps, n);
    if n > m {
      DelayRespected(stuck, states, steps, m, n - 1, j, job);
      RunKeeps(stuck, states, steps, n - 1);
      StaysDelayed(stuck, states[n - 1], states[n], steps[n - 1], j, job);
    }
    forall w ensures !Runs(states[n], w, j) {
      if w in states[n].workers { assert WorkerOk(stuck, states[n], w); }
    }
  }

  /** No time passes and no other worker does anything. */
  predicate OnlyWorker(steps: seq<Step>, w: WorkerId) {
    forall i :: 0 <= i < |steps| ==>
      steps[i] == Claim(w) || steps[i] == Settle(w, Succeeds)
  }

  /** The other half: claiming does not look at run_after again. A worker that has the job on its list
      can settle what it runs, go through its list and run the job at once, delay or not. */
  lemma {:induction false} ListedRuns(stuck: nat, s: State, w: WorkerId, j: JobId)
    returns (states: seq<State>, steps: seq<Step>)
    requires Inv(stuck, s) && j in s.jobs && s.jobs[j].status == Pending
    requires w in s.workers && j in Todo(s.workers[w])
    ensures Run(stuck, states, steps) && states[0] == s && OnlyWorker(steps, w)
    ensures forall i :: 0 <= i < |states| ==> states[i].now == s.now
    ensures var last := states[|steps|];
      && Runs(last, w, j) && j in last.jobs && last.jobs[j] == Claimed(s.jobs[j], s.now)
      && last.workers == s.workers[w := last.workers[w]]
    decreases |Todo(s.workers[w])|, s.workers[w].Executing?
  {
    assert WorkerOk(stuck, s, w);
    var step, s1;
    if s.workers[w].Executing? {
      var k := s.workers[w].job;
      assert JobOk(s, k);
      step := Settle(w, Succeeds);
      s1 := s.(jobs := s.jobs[k := Settled(s.jobs[k], Succeeds, s.now)],
               workers := s.workers[w := Claiming(s.workers[w].todo)]);
    } else {
      var k, rest := s.workers[w].todo[0], s.workers[w].todo[1..];
      assert j == k || j in rest;
      step := Claim(w);
      s1 := if k in s.jobs && s.jobs[k].status == Pending
            then s.(jobs := s.jobs[k := Claimed(s.jobs[k], s.now)],
                    workers := s.workers[w := Executing(k, s.now, rest)])
            else s.(workers := s.workers[w := Claiming(rest)]);
    }
    assert Next(stuck, s, s1, step);
    states, steps := [s, s1], [step];
    if !Runs(s1, w, j) {
      NextKeeps(stuck, s, s1, step);
      hide Inv, Next;
      var states1, steps1 := ListedRuns(stuck, s1, w, j);
      states, steps := [s] + states1, [step] + steps1;
      FirstStep(stuck, s, step, states1, steps1);
    }
  }

  lemma FirstStep(stuck: nat, s: State, step: Step, states: seq<State>, steps: seq<Step>)
    requires Run(stuck, states, steps) && Next(stuck, s, states[0], step)
    ensures Run(stuck, [s] + states, [step] + steps)
  {
    hide Next;
    forall i | 0 <= i < |steps| + 1
      ensures Next(stuck, ([s] + states)[i], ([s] + states)[i + 1], ([step] + steps)[i])
    {
      if i > 0 {
        assert ([s] + states)[i] == states[i - 1] && ([s] + states)[i + 1] == states[i];
        assert ([step] + steps)[i] == steps[i - 1];
      }
    }
  }

  lemma RunsJoin(stuck: nat, states: seq<State>, steps: seq<Step>, states1: seq<State>, steps1: seq<Step>)
    requires Run(stuck, states, steps) && Run(stuck, states1, steps1) && states[|steps|] == states1[0]
    ensures Run(stuck, states + states1[1..], steps + steps1)
    ensures (states + states1[1..])[|steps + steps1|] == states1[|steps1|]
  {
    hide Next;
    var all := states + states1[1..];
    forall i | 0 <= i < |steps + steps1| ensures Next(stuck, all[i], all[i + 1], (steps + steps1)[i]) {
      if i >= |steps| { assert all[i] == states1[i - |steps|] && all[i + 1] == states1[i - |steps| + 1]; }
    }
  }

  /** A run from `s` that gets to run `j` while its delay lasts. */
  ghost predicate RunsEarly(stuck: nat, s: State, j: JobId, states: seq<State>, steps: seq<Step>)
    requires j in s.jobs
  {
    && Run(stuck, states, steps) && states[0] == s
    && (forall i :: 0 <= i < |states| ==> states[i].now < s.jobs[j].runAfter)
    && exists w :: Runs(states[|steps|], w, j)
  }

  /** So a delay is respected exactly when no worker has the job on its list. */
  lemma EarlyIff(stuck: nat, s: State, j: JobId)
    requires Inv(stuck, s) && j in s.jobs && s.jobs[j].status == Pending && s.now < s.jobs[j].runAfter
    ensures !NobodyPlans(s, j) <==>
      exists states: seq<State>, steps: seq<Step> :: RunsEarly(stuck, s, j, states, steps)
  {
    if NobodyPlans(s, j) {
      forall states: seq<State>, steps: seq<Step> ensures !RunsEarly(stuck, s, j, states, steps) {
        if RunsEarly(stuck, s, j, states, steps) {
          DelayRespected(stuck, states, steps, 0, |steps|, j, s.jobs[j]);
        }
      }
    } else {
      var w :| w in s.workers && j in Todo(s.workers[w]);
      var states, steps := ListedRuns(stuck, s, w, j);
      assert RunsEarly(stuck, s, j, states, steps);
    }
  }

  /** And a failed job does stay on lists: when two workers have it on theirs and the first runs it and
      fails, the second runs it again at the same moment, though it is not due for ten seconds or more. */
  lemma RetriedAtOnce(stuck: nat, s: State, v: WorkerId, w: WorkerId, j: JobId)
    returns (states: seq<State>, steps: seq<Step>)
    requires Inv(stuck, s) && Runs(s, v, j) && s.jobs[j].attempts < s.jobs[j].maxAttempts
    requires w in s.workers && w != v && j in Todo(s.workers[w])
    ensures Run(stuck, states, steps) && |steps| >= 1 && states[0] == s && steps[0] == Settle(v, Raises)
    ensures var failed, last := states[1], states[|steps|];
      && j in failed.jobs && failed.jobs[j].runAfter >= failed.now + 10
      && Runs(last, w, j) && last.now == failed.now == s.now
  {
    assert WorkerOk(stuck, s, v) && JobOk(s, j);
    var failed := s.(jobs := s.jobs[j := Settled(s.jobs[j], Raises, s.now)],
                     workers := s.workers[v := Claiming(s.workers[v].todo)]);
    var step := Settle(v, Raises);
    assert Next(stuck, s, failed, step);
    BackoffGrows(s.jobs[j].attempts, s.jobs[j].attempts);
    NextKeeps(stuck, s, failed, step);
    hide Inv, Next;
    var states1, steps1 := ListedRuns(stuck, failed, w, j);
    states, steps := [s] + states1, [step] + steps1;
    FirstStep(stuck, s, step, states1, steps1);
  }

  lemma ListedIsPending(jobs: map<JobId, Job>, now: int, due: seq<JobId>, j: JobId)
    requires IsDueList(jobs, now, CLAIM_BATCH, due) && j in due
    ensures j in jobs && jobs[j].status == Pending
  {
  }

  /** Two sleeping workers that look for due jobs at the same time get there. */
  lemma BothCanList(stuck: nat, s: State, v: WorkerId, w: WorkerId, due: seq<JobId>, j: JobId)
    returns (states: seq<State>, steps: seq<Step>)
    requires Inv(stuck, s) && v in s.workers && w in s.workers && v != w
    requires s.workers[v].Asleep? && s.workers[w].Asleep?
    requires IsDueList(Freed(s.jobs, s.now - stuck), s.now, CLAIM_BATCH, due) && j in due
    ensures Run(stuck, states, steps) && states[0] == s
    ensures var last := states[|steps|]; Runs(last, v, j) && w in last.workers && j in Todo(last.workers[w])
  {
    var jobs := Freed(s.jobs, s.now - stuck);
    ListedIsPending(jobs, s.now, due, j);
    states, steps := BothScan(stuck, s, v, w, due);
    var both := states[|steps|];
    hide Next, Inv, IsDueList, Freed;
    assert j in Todo(both.workers[v]) && j in Todo(both.workers[w]);
    var states1, steps1 := ListedRuns(stuck, both, v, j);
    RunsJoin(stuck, states, steps, states1, steps1);
    states, steps := states + states1[1..], steps + steps1;
  }

  lemma BothScan(stuck: nat, s: State, v: WorkerId, w: WorkerId, due: seq<JobId>)
    returns (states: seq<State>, steps: seq<Step>)
    requires Inv(stuck, s) && v in s.workers && w in s.workers && v != w
    requires s.workers[v].Asleep? && s.workers[w].Asleep?
    requires IsDueList(Freed(s.jobs, s.now - stuck), s.now, CLAIM_BATCH, due)
    ensures Run(stuck, states, steps) && states[0] == s && Inv(stuck, states[|steps|])
    ensures states[|steps|] == State(Freed(s.jobs, s.now - stuck),
              s.workers[v := Claiming(due)][w := Claiming(due)], s.now)
  {
    hide IsDueList;
    var jobs := Freed(s.jobs, s.now - stuck);
    var a := State(jobs, s.workers[v := Recovered(s.now)], s.now);
    var b := State(jobs, a.workers[w := Recovered(s.now)], s.now);
    var c := State(jobs, b.workers[v := Claiming(due)], s.now);
    var d := State(jobs, c.workers[w := Claiming(due)], s.now);
    assert Freed(jobs, s.now - stuck) == jobs;
    assert d.workers == s.workers[v := Claiming(due)][w := Claiming(due)];
    states, steps := [s, a, b, c, d], [Recover(v), Recover(w), Scan(v, due), Scan(w, due)];
    assert Next(stuck, s, a, steps[0]) && Next(stuck, a, b, steps[1]);
    assert Next(stuck, b, c, steps[2]) && Next(stuck, c, d, steps[3]);
    hide Next, Inv, Freed;
    forall i | 0 <= i < 4 ensures Next(stuck, states[i], states[i + 1], steps[i]) {}
    RunKeeps(stuck, states, steps, 4);
  }

  // ------------------------------------------------- the bound on attempts

  /** One worker about to look for due jobs, and one job, which is due. */
  function Ready(job: Job, now: int): State {
    State(map[0 := job], map[0 := Recovered(now)], now)
  }

  predicate CanRun(job: Job, now: int) {
    Due(job, now) && job.payload
  }

  lemma ScansIt(stuck: nat, job: Job, now: int)
    requires CanRun(job, now)
    ensures Next(stuck, Ready(job, now), State(map[0 := job], map[0 := Claiming([0])], now), Scan(0, [0]))
    ensures Next(stuck, State(map[0 := job], map[0 := Claiming([0])], now),
                 State(map[0 := Claimed(job, now)], map[0 := Executing(0, now, [])], now), Claim(0))
  {
    assert [0][0] == 0 && [0][1..] == [];
  }

  /** Time passes while the worker sleeps, then it frees what is stuck. */
  lemma WaitsAndFrees(stuck: nat, job: Job, now: int, wait: nat)
    ensures Next(stuck, State(map[0 := job], map[0 := Asleep], now),
                 State(map[0 := job], map[0 := Asleep], now + wait), Tick(wait))
    ensures Next(stuck, State(map[0 := job], map[0 := Asleep], now + wait),
                 Ready(Freed(map[0 := job], now + wait - stuck)[0], now + wait), Recover(0))
  {
  }

  lemma FailsAndRests(stuck: nat, job: Job, now: int)
    requires job.attempts >= 1
    ensures var job' := Settled(job, Raises, now);
      && Next(stuck, State(map[0 := job], map[0 := Executing(0, now, [])], now),
              State(map[0 := job'], map[0 := Claiming([])], now), Settle(0, Raises))
      && Next(stuck, State(map[0 := job'], map[0 := Claiming([])], now),
              State(map[0 := job'], map[0 := Asleep], now), Rest(0))
  {
  }

  /** A run that raises, with attempts to spare, and the wait for the next one. */
  lemma OneFailure(stuck: nat, job: Job, now: int) returns (job': Job, now': int, states: seq<State>, steps: seq<Step>)
    requires CanRun(job, now) && job.attempts + 1 < job.maxAttempts
    ensures job' == job.(attempts := job.attempts + 1, runAfter := job'.runAfter, lockedAt := now) && CanRun(job', now')
    ensures Run(stuck, states, steps) && states[0] == Ready(job, now) && states[|steps|] == Ready(job', now')
  {
    job' := Settled(Claimed(job, now), Raises, now);
    now' := job'.runAfter;
    BackoffGrows(job.attempts + 1, job.attempts + 1);
    ScansIt(stuck, job, now);
    var jobs' := map[0 := job'];
    var listed := State(map[0 := job], map[0 := Claiming([0])], now);
    var running := State(map[0 := Claimed(job, now)], map[0 := Executing(0, now, [])], now);
    var failed := State(jobs', map[0 := Claiming([])], now);
    var asleep, later := State(jobs', map[0 := Asleep], now), State(jobs', map[0 := Asleep], now');
    FailsAndRests(stuck, Claimed(job, now), now);
    assert job' == job.(attempts := job.attempts + 1, runAfter := job'.runAfter, lockedAt := now);
    hide Next, Settled, Claimed, Backoff;
    WaitsAndFrees(stuck, job', now, now' - now);
    states, steps := [listed, running, failed, asleep, later, Ready(job', now')],
      [Claim(0), Settle(0, Raises), Rest(0), Tick(now' - now), Recover(0)];
    RunOfFive(stuck, listed, running, failed, asleep, later, Ready(job', now'),
      Claim(0), Settle(0, Raises), Rest(0), Tick(now' - now), Recover(0));
    FirstStep(stuck, Ready(job, now), Scan(0, [0]), states, steps);
    states, steps := [Ready(job, now)] + states, [Scan(0, [0])] + steps;
  }

  lemma RunOfFive(stuck: nat, a: State, b: State, c: State, d: State, e: State, f: State,
      p: Step, q: Step, r: Step, s: Step, t: Step)
    requires Next(stuck, a, b, p) && Next(stuck, b, c, q) && Next(stuck, c, d, r) && Next(stuck, d, e, s)
    requires Next(stuck, e, f, t)
    ensures Run(stuck, [a, b, c, d, e, f], [p, q, r, s, t])
  {
    hide Next;
  }

  /** A run cut off by a crash, and the wait until it counts as stuck. */
  lemma OneCrash(stuck: nat, job: Job, now: int) returns (job': Job, now': int, states: seq<State>, steps: seq<Step>)
    requires CanRun(job, now)
    ensures job' == job.(attempts := job.attempts + 1, crashes := job.crashes + 1, lockedAt := now)
    ensures CanRun(job', now')
    ensures Run(stuck, states, steps) && states[0] == Ready(job, now) && states[|steps|] == Ready(job', now')
  {
    var lost := Claimed(job, now).(crashes := job.crashes + 1);
    job', now' := lost.(status := Pending), now + stuck + 1;
    ScansIt(stuck, job, now);
    var listed := State(map[0 := job], map[0 := Claiming([0])], now);
    var running := State(map[0 := Claimed(job, now)], map[0 := Executing(0, now, [])], now);
    var asleep, later := State(map[0 := lost], map[0 := Asleep], now), State(map[0 := lost], map[0 := Asleep], now');
    assert Next(stuck, running, asleep, Crash(0));
    hide Next;
    WaitsAndFrees(stuck, lost, now, stuck + 1);
    RunOfFive(stuck, Ready(job, now), listed, running, asleep, later, Ready(job', now'),
      Scan(0, [0]), Claim(0), Crash(0), Tick(stuck + 1), Recover(0));
    states, steps := [Ready(job, now), listed, running, asleep, later, Ready(job', now')],
      [Scan(0, [0]), Claim(0), Crash(0), Tick(stuck + 1), Recover(0)];
  }

  /** `fails` raising runs, then `crashes` crashed ones. */
  lemma {:induction false} Repeated(stuck: nat, job: Job, now: int, fails: nat, crashes: nat)
    returns (job': Job, now': int, states: seq<State>, steps: seq<Step>)
    requires CanRun(job, now) && (fails > 0 ==> job.attempts + fails < job.maxAttempts)
    ensures job' == job.(attempts := job.attempts + fails + crashes, crashes := job.crashes + crashes,
                         runAfter := job'.runAfter, lockedAt := job'.lockedAt)
    ensures CanRun(job', now') && Run(stuck, states, steps)
    ensures states[0] == Ready(job, now) && states[|steps|] == Ready(job', now')
    decreases fails + crashes
  {
    hide Next;
    if fails + crashes == 0 {
      job', now', states, steps := job, now, [Ready(job, now)], [];
    } else {
      var job1, now1, states1, steps1;
      if fails > 0 {
        job1, now1, states1, steps1 := OneFailure(stuck, job, now);
        job', now', states, steps := Repeated(stuck, job1, now1, fails - 1, crashes);
      } else {
        job1, now1, states1, steps1 := OneCrash(stuck, job, now);
        job', now', states, steps := Repeated(stuck, job1, now1, 0, crashes - 1);
      }
      RunsJoin(stuck, states1, steps1, states, steps);
      states, steps := states1 + states[1..], steps1 + steps;
    }
  }

  /** The bound of QueueIsSafe is met: for every maximum and every number of crashes some run attempts
      the job that many times more, each crash one. */
  lemma BoundIsMet(stuck: nat, maxAttempts: nat, crashes: nat) returns (states: seq<State>, steps: seq<Step>)
    requires maxAttempts >= 1
    ensures Run(stuck, states, steps)
    ensures states[0].jobs == map[] && forall w :: w in states[0].workers ==> states[0].workers[w] == Asleep
    ensures var last := states[|steps|];
      && Runs(last, 0, 0) && 0 in last.jobs && last.jobs[0].maxAttempts == maxAttempts
      && last.jobs[0].crashes == crashes && last.jobs[0].attempts == maxAttempts + crashes
  {
    var job := Job(Pending, 0, maxAttempts, 0, 0, true, 0);
    var start := [State(map[], map[0 := Asleep], 0), State(map[0 := job], map[0 := Asleep], 0), Ready(job, 0)];
    var opening := [Enqueue(0, maxAttempts, 0), Recover(0)];
    assert Freed(map[0 := job], 0 - stuck) == map[0 := job];
    assert Next(stuck, start[0], start[1], opening[0]) && Next(stuck, start[1], start[2], opening[1]);
    var job', now', states1, steps1 := Repeated(stuck, job, 0, maxAttempts - 1, crashes);
    ScansIt(stuck, job', now');
    var end := [Ready(job', now'), State(map[0 := job'], map[0 := Claiming([0])], now'),
                State(map[0 := Claimed(job', now')], map[0 := Executing(0, now', [])], now')];
    hide Next;
    assert Run(stuck, start, opening) && Run(stuck, end, [Scan(0, [0]), Claim(0)]);
    RunsJoin(stuck, start, opening, states1, steps1);
    RunsJoin(stuck, start + states1[1..], opening + steps1, end, [Scan(0, [0]), Claim(0)]);
    states, steps := start + states1[1..] + end[1..], opening + steps1 + [Scan(0, [0]), Claim(0)];
  }

  // ------------------------------------------------------------- progress

  /** What is left of a queueing: two steps (claim, settle) for each attempt still allowed. */
  function Measure(job: Job): nat
    requires job.attempts <= job.maxAttempts + job.crashes
  {
    match job.status
    case Pending => 2 * (job.maxAttempts + job.crashes - job.attempts)
    case Running => 2 * (job.maxAttempts + job.crashes - job.attempts) + 1
    case _ => 0
  }

  /** Until it is queued again, no step raises a job's measure but a crash (by two); claiming,
      settling and recovering it lower it. So without crashes a queueing ends done or failed after
      at most max_attempts runs. */
  lemma MeasureFalls(stuck: nat, s: State, s': State, step: Step, j: JobId)
    requires Inv(stuck, s) && Next(stuck, s, s', step) && j in s.jobs && !step.RetryFailed?
    ensures j in s'.jobs && JobOk(s', j)
    ensures step.Crash? && Runs(s, step.w, j) ==> Measure(s'.jobs[j]) == Measure(s.jobs[j]) + 2
    ensures !(step.Crash? && Runs(s, step.w, j)) ==> Measure(s'.jobs[j]) <= Measure(s.jobs[j])
    ensures s'.jobs[j].status != s.jobs[j].status ==> Measure(s'.jobs[j]) < Measure(s.jobs[j])
    ensures s.jobs[j].status == Done ==> s'.jobs[j] == s.jobs[j]
  {
    NextKeeps(stuck, s, s', step);
    assert JobOk(s, j) && JobOk(s', j);
    if (step.Settle? || step.Crash?) && s.workers[step.w].job == j { assert WorkerOk(stuck, s, step.w); }
  }

  predicate Changed(s: State, s': State, j: JobId) {
    j in s.jobs && j in s'.jobs && s'.jobs[j].status != s.jobs[j].status
  }

  /** How often the first n steps claim, settle or free the job. */
  function Changes(states: seq<State>, j: JobId, n: nat): nat
    requires n < |states|
  {
    if n == 0 then 0 else Changes(states, j, n - 1) + if Changed(states[n - 1], states[n], j) then 1 else 0
  }

  ghost predicate Loses(s: State, step: Step, j: JobId) {
    step.Crash? && Runs(s, step.w, j)
  }

  /** How often a worker is lost while running it. */
  ghost function Crashes(states: seq<State>, steps: seq<Step>, j: JobId, n: nat): nat
    requires n <= |steps| < |states|
  {
    if n == 0 then 0 else Crashes(states, steps, j, n - 1) + if Loses(states[n - 1], steps[n - 1], j) then 1 else 0
  }

  ghost function MeasureIn(s: State, j: JobId): nat {
    if j in s.jobs && JobOk(s, j) then Measure(s.jobs[j]) else 0
  }

  lemma StepCounts(stuck: nat, s: State, s': State, step: Step, j: JobId)
    requires Inv(stuck, s) && Next(stuck, s, s', step) && j in s.jobs && !step.RetryFailed?
    ensures j in s'.jobs && JobOk(s, j) && JobOk(s', j)
    ensures (if Changed(s, s', j) then 1 else 0) + MeasureIn(s', j) <=
      MeasureIn(s, j) + if Loses(s, step, j) then 2 else 0
  {
    assert JobOk(s, j);
    hide Next, JobOk;
    MeasureFalls(stuck, s, s', step, j);
    if Loses(s, step, j) { CrashChangesNothing(stuck, s, s', step, j); }
  }

  lemma CrashChangesNothing(stuck: nat, s: State, s': State, step: Step, j: JobId)
    requires Next(stuck, s, s', step) && Loses(s, step, j)
    ensures !Changed(s, s', j)
  {
  }

  /** So in every run of one queueing a job is claimed, settled or freed at most as often as its measure
      says at the start (twice the attempts it has left) and twice more for each crash. */
  lemma {:induction false} QueueingEnds(stuck: nat, states: seq<State>, steps: seq<Step>, j: JobId, n: nat)
    requires |states| == |steps| + 1 && n <= |steps|
    requires Run(stuck, states, steps) && Inv(stuck, states[0]) && j in states[0].jobs
    requires forall i :: 0 <= i < n ==> !steps[i].RetryFailed?
    ensures j in states[n].jobs && Changes(states, j, n) + MeasureIn(states[n], j) <=
      MeasureIn(states[0], j) + 2 * Crashes(states, steps, j, n)
  {
    hide Inv, Next, MeasureIn, Changed, Loses;
    if n > 0 {
      QueueingEnds(stuck, states, steps, j, n - 1);
      RunKeeps(stuck, states, steps, n - 1);
      assert Next(stuck, states[n - 1], states[n], steps[n - 1]);
      hide Run;
      StepCounts(stuck, states[n - 1], states[n], steps[n - 1], j);
    }
  }

  /** A job just queued: at most twice its maximum, and twice more for each crash. */
  lemma FreshJobEnds(stuck: nat, states: seq<State>, steps: seq<Step>, j: JobId, n: nat)
    requires |states| == |steps| + 1 && n <= |steps|
    requires Run(stuck, states, steps) && Inv(stuck, states[0]) && j in states[0].jobs
    requires states[0].jobs[j].status == Pending && states[0].jobs[j].attempts == states[0].jobs[j].crashes == 0
    requires forall i :: 0 <= i < n ==> !steps[i].RetryFailed?
    ensures Changes(states, j, n) <= 2 * (states[0].jobs[j].maxAttempts + Crashes(states, steps, j, n))
  {
    QueueingEnds(stuck, states, steps, j, n);
  }

  /** A measure of zero means the queueing is over. */
  lemma ZeroMeansOver(stuck: nat, s: State, j: JobId)
    requires Inv(stuck, s) && j in s.jobs
    ensures JobOk(s, j) && (Measure(s.jobs[j]) == 0 <==> s.jobs[j].status == Done || s.jobs[j].status == Failed)
  {
    assert JobOk(s, j);
  }

  lemma {:induction false} DueListExists(jobs: map<JobId, Job>, now: int, limit: nat) returns (due: seq<JobId>)
    ensures IsDueList(jobs, now, limit, due)
  {
    due := [];
    if limit > 0 {
      var before := DueListExists(jobs, now, limit - 1);
      due := before;
      var left := set j | j in jobs && Due(jobs[j], now) && j !in before;
      if left != {} {
        var next := Earliest(jobs, left);
        due := before + [next];
      }
      forall j | j in jobs && Due(jobs[j], now) && j !in due ensures j in left {}
    }
  }

  lemma {:induction false} Earliest(jobs: map<JobId, Job>, ids: set<JobId>) returns (next: JobId)
    requires ids <= jobs.Keys && ids != {}
    ensures next in ids && forall j :: j in ids ==> Earlier(jobs, next, j)
  {
    next :| next in ids;
    if ids != {next} {
      var other := Earliest(jobs, ids - {next});
      if !Earlier(jobs, next, other) { next := other; }
      forall j | j in ids ensures Earlier(jobs, next, j) { assert j in ids - {next} || j == next; }
    }
  }

  /** A job that is not over can always go on: run it, settle it, or free it once it is stuck. A job that
      is due is on the list of whoever scans next, unless that takes a full batch of earlier ones. */
  lemma NeverDeadEnd(stuck: nat, s: State, j: JobId, w: WorkerId) returns (due: seq<JobId>)
    requires Inv(stuck, s) && j in s.jobs && w in s.workers && s.workers[w].Asleep?
    requires s.jobs[j].status == Pending || s.jobs[j].status == Running
    ensures s.jobs[j].status == Running && (forall v :: !Runs(s, v, j)) && s.jobs[j].lockedAt < s.now - stuck ==>
      exists s' :: Next(stuck, s, s', Recover(w)) && s'.jobs[j].status == Pending
    ensures forall v :: Runs(s, v, j) ==>
        exists s' :: Next(stuck, s, s', Settle(v, Succeeds)) && s'.jobs[j].status == Done
    ensures exists a, b :: Next(stuck, s, a, Recover(w)) && Next(stuck, a, b, Scan(w, due))
    ensures Due(s.jobs[j], s.now) && j !in due ==>
      |due| == CLAIM_BATCH && forall i :: 0 <= i < |due| ==> due[i] in s.jobs && Earlier(s.jobs, due[i], j)
  {
    var a := s.(jobs := Freed(s.jobs, s.now - stuck), workers := s.workers[w := Recovered(s.now)]);
    assert Next(stuck, s, a, Recover(w));
    due := DueListExists(a.jobs, s.now, CLAIM_BATCH);
    var b := a.(workers := a.workers[w := Claiming(due)]);
    assert Next(stuck, a, b, Scan(w, due));
    forall v | Runs(s, v, j) ensures exists s' :: Next(stuck, s, s', Settle(v, Succeeds)) && s'.jobs[j].status == Done {
      assert WorkerOk(stuck, s, v) && JobOk(s, j);
      var s' := s.(jobs := s.jobs[j := Settled(s.jobs[j], Succeeds, s.now)],
                   workers := s.workers[v := Claiming(s.workers[v].todo)]);
      assert Next(stuck, s, s', Settle(v, Succeeds));
    }
    if Due(s.jobs[j], s.now) && j !in due {
      assert a.jobs[j] == s.jobs[j];
      forall i | 0 <= i < |due| ensures due[i] in s.jobs && Earlier(s.jobs, due[i], j) {
        assert Earlier(a.jobs, due[i], j);
      }
    }
  }

  // ------------------------------------------------- one worker's scan

  /** The table after one scan: freed, and each due job claimed and settled. */
  function Scanned(jobs: map<JobId, Job>, due: seq<JobId>, outcomes: JobId -> Outcome, now: int): map<JobId, Job> {
    map j | j in jobs :: if j in due then Settled(Claimed(jobs[j], now), outcomes(j), now) else jobs[j]
  }

  lemma {:induction false} ClaimsAreRun(stuck: nat, s: State, w: WorkerId, todo: seq<JobId>,
      outcomes: JobId -> Outcome) returns (states: seq<State>, steps: seq<Step>)
    requires w in s.workers && s.workers[w] == Claiming(todo)
    requires forall i :: 0 <= i < |todo| ==> todo[i] in s.jobs && s.jobs[todo[i]].status == Pending
    requires forall i, k :: 0 <= i < k < |todo| ==> todo[i] != todo[k]
    ensures Run(stuck, states, steps) && states[0] == s
    ensures states[|steps|] ==
      State(Scanned(s.jobs, todo, outcomes, s.now), s.workers[w := Asleep], s.now)
    decreases |todo|
  {
    if todo == [] {
      var rested := s.(workers := s.workers[w := Asleep]);
      assert Scanned(s.jobs, todo, outcomes, s.now) == s.jobs;
      states, steps := [s, rested], [Rest(w)];
      assert Next(stuck, s, rested, steps[0]);
    } else {
      var j, rest := todo[0], todo[1..];
      var a := s.(jobs := s.jobs[j := Claimed(s.jobs[j], s.now)], workers := s.workers[w := Executing(j, s.now, rest)]);
      var b := s.(jobs := s.jobs[j := Settled(a.jobs[j], outcomes(j), s.now)],
                  workers := s.workers[w := Claiming(rest)]);
      assert b.jobs == a.jobs[j := Settled(a.jobs[j], outcomes(j), s.now)];
      assert b.workers == a.workers[w := Claiming(rest)];
      assert Next(stuck, s, a, Claim(w)) && Next(stuck, a, b, Settle(w, outcomes(j)));
      forall i | 0 <= i < |rest| ensures rest[i] in b.jobs && b.jobs[rest[i]].status == Pending {
        assert rest[i] == todo[i + 1] && todo[0] != todo[i + 1];
      }
      assert forall i, k :: 0 <= i < k < |rest| ==> rest[i] == todo[i + 1] && rest[k] == todo[k + 1];
      RestOfScan(s.jobs, b.jobs, todo, outcomes, s.now);
      assert b.workers[w := Asleep] == s.workers[w := Asleep];
      hide Next, Scanned, Settled;
      states, steps := ClaimsAreRun(stuck, b, w, rest, outcomes);
      FirstStep(stuck, a, Settle(w, outcomes(j)), states, steps);
      FirstStep(stuck, s, Claim(w), [a] + states, [Settle(w, outcomes(j))] + steps);
      states, steps := [s] + ([a] + states), [Claim(w)] + ([Settle(w, outcomes(j))] + steps);
    }
  }

  lemma RestOfScan(jobs: map<JobId, Job>, jobs': map<JobId, Job>, todo: seq<JobId>, outcomes: JobId -> Outcome,
      now: int)
    requires todo != [] && todo[0] in jobs && todo[0] !in todo[1..]
    requires jobs' == jobs[todo[0] := Settled(Claimed(jobs[todo[0]], now), outcomes(todo[0]), now)]
    ensures Scanned(jobs', todo[1..], outcomes, now) == Scanned(jobs, todo, outcomes, now)
  {
    hide Settled, Claimed;
    assert todo == [todo[0]] + todo[1..];
  }

  /** What `run_pending` does alone is a run of the queue: recovery, the listing, and a claim and a
      settlement for each job listed. */
  lemma ScanIsRun(stuck: nat, s: State, w: WorkerId, due: seq<JobId>, outcomes: JobId -> Outcome)
    returns (states: seq<State>, steps: seq<Step>)
    requires w in s.workers && s.workers[w].Asleep?
    requires IsDueList(Freed(s.jobs, s.now - stuck), s.now, CLAIM_BATCH, due)
    ensures Run(stuck, states, steps) && states[0] == s
    ensures states[|steps|] == s.(jobs := Scanned(Freed(s.jobs, s.now - stuck), due, outcomes, s.now))
  {
    var freed := Freed(s.jobs, s.now - stuck);
    var a := s.(jobs := freed, workers := s.workers[w := Recovered(s.now)]);
    var b := s.(jobs := freed, workers := s.workers[w := Claiming(due)]);
    assert b.workers == a.workers[w := Claiming(due)] && b.workers[w := Asleep] == s.workers;
    assert Next(stuck, s, a, Recover(w)) && Next(stuck, a, b, Scan(w, due));
    hide Next, Scanned, Freed, Earlier;
    states, steps := ClaimsAreRun(stuck, b, w, due, outcomes);
    FirstStep(stuck, a, Scan(w, due), states, steps);
    FirstStep(stuck, s, Recover(w), [a] + states, [Scan(w, due)] + steps);
    states, steps := [s] + ([a] + states), [Recover(w)] + ([Scan(w, due)] + steps);
  }

  /** The list runs by time and then by id, and whoever is due and not on it comes later. */
  lemma ListedInOrder(jobs: map<JobId, Job>, now: int, limit: nat, due: seq<JobId>, i: nat, j: JobId)
    requires IsDueList(jobs, now, limit, due) && i < |due| && j in jobs && jobs[j].status == Pending
    requires jobs[j].runAfter <= now && (j in due ==> j in due[i + 1..])
    ensures due[i] in jobs && jobs[due[i]].status == Pending && jobs[due[i]].runAfter <= jobs[j].runAfter
    ensures jobs[due[i]].runAfter == jobs[j].runAfter ==> due[i] < j
  {
    if j in due {
      var k :| 0 <= k < |due| - i - 1 && due[i + 1..][k] == j;
      assert due[i + 1 + k] == j;
    }
  }

  class Queue {
    var jobs: map<JobId, Job>

    /** The next due job after those already picked. */
    method NextDue(now: int, picked: seq<JobId>) returns (found: bool, next: JobId)
      ensures found <==> exists j :: j in jobs && Due(jobs[j], now) && j !in picked
      ensures found ==> next in jobs && Due(jobs[next], now) && next !in picked
      ensures found ==> forall j :: j in jobs && Due(jobs[j], now) && j !in picked ==> Earlier(jobs, next, j)
    {
      found, next := false, 0;
      var todo := jobs.Keys;
      while exists j :: j in todo
        invariant todo <= jobs.Keys
        invariant found ==> next in jobs && Due(jobs[next], now) && next !in picked
        invariant forall j :: j in jobs && j !in todo && Due(jobs[j], now) && j !in picked ==>
          found && Earlier(jobs, next, j)
        decreases |todo|
      {
        var j :| j in todo;
        todo := todo - {j};
        if Due(jobs[j], now) && j !in picked && (!found || !Earlier(jobs, next, j)) { found, next := true, j; }
      }
    }

    method DueJobs(now: int, limit: nat) returns (due: seq<JobId>)
      ensures IsDueList(jobs, now, limit, due)
    {
      due := [];
      while |due| < limit
        invariant |due| <= limit
        invariant forall i :: 0 <= i < |due| ==> due[i] in jobs && Due(jobs[due[i]], now)
        invariant forall i, k :: 0 <= i < k < |due| ==> due[i] != due[k] && Earlier(jobs, due[i], due[k])
        invariant forall j, i :: j in jobs && Due(jobs[j], now) && j !in due && 0 <= i < |due| ==>
            Earlier(jobs, due[i], j)
      {
        var found, next := NextDue(now, due);
        if !found { return; }
        due := due + [next];
      }
    }

    /** `run_pending` with no other worker about: frees stuck jobs, then runs each due job once.
        Fewer than `limit` runs mean that nothing more is due. */
    method RunPending(now: int, stuck: nat, limit: nat, outcomes: JobId -> Outcome) returns (ran: nat,
        ghost due: seq<JobId>)
      modifies this
      ensures IsDueList(Freed(old(jobs), now - stuck), now, limit, due) && ran == |due|
      ensures jobs == Scanned(Freed(old(jobs), now - stuck), due, outcomes, now)
      ensures ran < limit ==> forall j :: j in jobs ==> !Due(jobs[j], now)
    {
      jobs := Freed(jobs, now - stuck);
      ghost var freed := jobs;
      var todo := DueJobs(now, limit);
      due, ran := todo, 0;
      for i := 0 to |todo|
        invariant jobs == Scanned(freed, todo[..i], outcomes, now) && ran == i
      {
        var j := todo[i];
        assert j !in todo[..i] && todo[..i + 1] == todo[..i] + [j];
        if jobs[j].status == Pending {
          jobs := jobs[j := Claimed(jobs[j], now)];
          jobs := jobs[j := Settled(jobs[j], outcomes(j), now)];
          ran := ran + 1;
        }
      }
      assert todo[..|todo|] == todo;
    }
  }
}
