/** Password-reset codes (services/password_reset.py): issuing by background jobs that may run late
    and out of order, and guessing. A digest is as good as the code it is made of. */
module ResetCodes {
  import opened Collections
  import opened Text

  type UserId = nat
  type CodeId = nat

  /** Times and durations in seconds. */
  datatype Settings = Settings(window: nat, maxCodes: nat, maxAttempts: nat, maxWrongPerDay: nat, ttl: nat)

  const DAY: nat := 24 * 60 * 60
  const RETENTION: nat := 30 * DAY

  datatype Code = Code(user: UserId, digits: string, createdAt: int, expiresAt: int, attempts: nat, used: bool)

  datatype Table = Table(codes: map<CodeId, Code>, next: CodeId)

  // --------------------------------------------------------------- issuing

  function Purged(codes: map<CodeId, Code>, gone: set<CodeId>, before: int): map<CodeId, Code> {
    map c | c in codes && !(c in gone && codes[c].createdAt < before) :: codes[c]
  }

  function Recent(codes: map<CodeId, Code>, user: UserId, since: int): set<CodeId> {
    set c | c in codes && codes[c].user == user && codes[c].createdAt >= since
  }

  function Marked(codes: map<CodeId, Code>, ids: set<CodeId>): map<CodeId, Code> {
    map c | c in codes :: if c in ids then codes[c].(used := true) else codes[c]
  }

  function Unused(codes: map<CodeId, Code>, user: UserId): set<CodeId> {
    set c | c in codes && codes[c].user == user && !codes[c].used
  }

  /** The new code replaces `ids`; `now` is when it was asked for. */
  function Insert(s: Settings, t: Table, ids: set<CodeId>, user: UserId, digits: string, now: int): Table {
    Table(Marked(t.codes, ids)[t.next := Code(user, digits, now, now + s.ttl, 0, false)], t.next + 1)
  }

  /** `_issue_code` with nobody in between. */
  function Issue(s: Settings, t: Table, user: UserId, digits: string, now: int): Table {
    if |Recent(t.codes, user, now - s.window)| >= s.maxCodes then t
    else Insert(s, t, Unused(t.codes, user), user, digits, now)
  }

  // -------------------------------------------------------------- guessing

  /** ORDER BY created_at DESC, id DESC. */
  predicate Newer(codes: map<CodeId, Code>, a: CodeId, b: CodeId)
    requires a in codes && b in codes
  {
    codes[a].createdAt > codes[b].createdAt || (codes[a].createdAt == codes[b].createdAt && a > b)
  }

  predicate IsChosen(codes: map<CodeId, Code>, user: UserId, c: CodeId) {
    c in Unused(codes, user) && forall d :: d in Unused(codes, user) ==> d == c || Newer(codes, c, d)
  }

  function Chosen(codes: map<CodeId, Code>, user: UserId): Option<CodeId> {
    if c :| c in codes && IsChosen(codes, user, c) then Some(c) else None
  }

  function Attempts(codes: map<CodeId, Code>): map<CodeId, nat> {
    map c | c in codes :: codes[c].attempts
  }

  /** `_wrong_codes_today`. */
  ghost function WrongToday(codes: map<CodeId, Code>, user: UserId, now: int): nat {
    Sum(Recent(codes, user, now - DAY), Attempts(codes))
  }

  predicate WellFormed(guess: string) {
    |guess| == 6 && forall ch :: ch in guess ==> '0' <= ch <= '9'
  }

  ghost predicate Live(s: Settings, codes: map<CodeId, Code>, c: CodeId, now: int)
    requires c in codes
  {
    && now < codes[c].expiresAt && codes[c].attempts < s.maxAttempts
    && WrongToday(codes, codes[c].user, now) < s.maxWrongPerDay
  }

  function Missed(s: Settings, code: Code): Code {
    code.(attempts := code.attempts + 1, used := code.attempts + 1 >= s.maxAttempts)
  }

  /** `_redeem`: the table and whether the guess was right. */
  ghost function Redeem(s: Settings, t: Table, user: UserId, typed: string, now: int, consume: bool): (Table, bool) {
    var guess := Strip(typed);
    var c := if WellFormed(guess) then Chosen(t.codes, user) else None;
    if c.None? || !Live(s, t.codes, c.value, now) then (t, false)
    else if t.codes[c.value].digits == guess then
      (if consume then t.(codes := t.codes[c.value := t.codes[c.value].(used := true)]) else t, true)
    else (t.(codes := t.codes[c.value := Missed(s, t.codes[c.value])]), false)
  }

  // ------------------------------------------------------------------ runs

  type Thread = nat

  /** A background job that has counted the recent codes: about to mark the unused ones as used, or
      holding those it has marked, about to insert its own. */
  datatype Stage = Counted | Holding(ids: set<CodeId>)

  datatype Job = Job(user: UserId, at: int, stage: Stage)

  /** `table` is what is committed: a job's marks and its insert commit together. */
  datatype System = System(table: Table, jobs: map<Thread, Job>, clock: int)

  predicate Holds(job: Job, c: CodeId) {
    job.stage.Holding? && c in job.stage.ids
  }

  function HeldCodes(codes: map<CodeId, Code>, jobs: map<Thread, Job>): set<CodeId> {
    set c | c in codes && exists i :: i in jobs && Holds(jobs[i], c)
  }

  /** A job carries the time of its request, whatever the clock says when it runs. */
  datatype Op =
    | Count(i: Thread, user: UserId, requestedAt: int, gone: set<CodeId>)
    | Supersede(i: Thread)
    | Finish(i: Thread, digits: string)
    | Lose(i: Thread)
    | Guess(user: UserId, guess: string, consume: bool, after: nat)
    | Left(user: UserId)

  /** Whoever needs a row that a job holds waits: here, nothing happens. */
  ghost function Apply(s: Settings, y: System, op: Op): System {
    match op
    case Count(i, user, at, gone) =>
      var codes := Purged(y.table.codes, gone - HeldCodes(y.table.codes, y.jobs), at - RETENTION);
      var y' := y.(table := y.table.(codes := codes));
      if i in y.jobs || |Recent(codes, user, at - s.window)| >= s.maxCodes then y'
      else y'.(jobs := y.jobs[i := Job(user, at, Counted)])
    case Supersede(i) =>
      if i !in y.jobs || y.jobs[i].stage != Counted || Waits(y, y.jobs[i].user) then y
      else y.(jobs := y.jobs[i := y.jobs[i].(stage := Holding(Unused(y.table.codes, y.jobs[i].user)))])
    case Finish(i, digits) =>
      if i !in y.jobs || y.jobs[i].stage == Counted then y
      else y.(table := Insert(s, y.table, y.jobs[i].stage.ids, y.jobs[i].user, digits, y.jobs[i].at),
              jobs := y.jobs - {i})
    case Lose(i) => y.(jobs := y.jobs - {i})
    case Guess(user, guess, consume, after) =>
      if Waits(y, user) then y
      else y.(table := Redeem(s, y.table, user, guess, y.clock + after, consume).0, clock := y.clock + after)
    case Left(user) =>
      if Waits(y, user) then y else y.(table := y.table.(codes := Forgotten(y.table.codes, user)))
  }

  /** An unused code of the account is held. */
  ghost predicate Waits(y: System, user: UserId) {
    Unused(y.table.codes, user) * HeldCodes(y.table.codes, y.jobs) != {}
  }

  function Forgotten(codes: map<CodeId, Code>, user: UserId): map<CodeId, Code> {
    map c | c in codes && codes[c].user != user :: codes[c]
  }

  ghost function Run(s: Settings, y: System, ops: seq<Op>): System
    decreases |ops|
  {
    if ops == [] then y else Run(s, Apply(s, y, ops[0]), ops[1..])
  }

  function JobsOf(jobs: map<Thread, Job>, user: UserId): set<Thread> {
    set i | i in jobs && jobs[i].user == user
  }

  ghost predicate Few(k: nat, jobs: map<Thread, Job>) {
    forall user: UserId :: |JobsOf(jobs, user)| <= k
  }

  /** Never more than k jobs of one account between counting and inserting. */
  ghost predicate AtMost(s: Settings, k: nat, y: System, ops: seq<Op>)
    decreases |ops|
  {
    Few(k, y.jobs) && (ops != [] ==> AtMost(s, k, Apply(s, y, ops[0]), ops[1..]))
  }

  function Holders(jobs: map<Thread, Job>, user: UserId): set<Thread> {
    set i | i in jobs && jobs[i].user == user && jobs[i].stage.Holding?
  }

  ghost predicate FewHold(h: nat, jobs: map<Thread, Job>) {
    forall user: UserId :: |Holders(jobs, user)| <= h
  }

  /** Never more than h jobs of one account between marking and inserting. */
  ghost predicate AtMostHold(s: Settings, h: nat, y: System, ops: seq<Op>)
    decreases |ops|
  {
    FewHold(h, y.jobs) && (ops != [] ==> AtMostHold(s, h, Apply(s, y, ops[0]), ops[1..]))
  }

  lemma {:induction false} FewJobsFewHolders(s: Settings, k: nat, y: System, ops: seq<Op>)
    requires AtMost(s, k, y, ops)
    ensures AtMostHold(s, k, y, ops)
    decreases |ops|
  {
    hide Apply;
    forall user: UserId ensures |Holders(y.jobs, user)| <= k {
      SubsetSize(Holders(y.jobs, user), JobsOf(y.jobs, user));
    }
    if ops != [] {
      assert AtMost(s, k, Apply(s, y, ops[0]), ops[1..]);
      FewJobsFewHolders(s, k, Apply(s, y, ops[0]), ops[1..]);
    }
  }

  lemma StepsAreIssue(s: Settings, y: System, i: Thread, user: UserId, digits: string, at: int)
    requires y.jobs == map[]
    ensures Apply(s, Apply(s, Apply(s, y, Count(i, user, at, {})), Supersede(i)), Finish(i, digits)).table
            == Issue(s, y.table, user, digits, at)
  {
    assert Purged(y.table.codes, {} - HeldCodes(y.table.codes, y.jobs), at - RETENTION) == y.table.codes;
    var y1 := Apply(s, y, Count(i, user, at, {}));
    assert HeldCodes(y1.table.codes, y1.jobs) == {};
    hide HeldCodes, Recent, Purged, Unused, Insert;
    assert !Waits(y1, user);
  }

  /** Counting, marking and inserting with nobody else about is `_issue_code`. */
  lemma AloneIsIssue(s: Settings, y: System, i: Thread, user: UserId, digits: string, at: int)
    requires y.jobs == map[]
    ensures Run(s, y, [Count(i, user, at, {}), Supersede(i), Finish(i, digits)]).table
            == Issue(s, y.table, user, digits, at)
  {
    hide Apply, Issue;
    StepsAreIssue(s, y, i, user, digits, at);
    var ops := [Count(i, user, at, {}), Supersede(i), Finish(i, digits)];
    assert ops[1..] == [Supersede(i), Finish(i, digits)] && ops[1..][1..] == [Finish(i, digits)];
    assert ops[1..][1..][1..] == [];
    var y1 := Apply(s, y, ops[0]);
    var y2 := Apply(s, y1, ops[1]);
    var y3 := Apply(s, y2, ops[2]);
    assert Run(s, y3, []) == y3;
    assert Run(s, y2, [Finish(i, digits)]) == y3;
    assert Run(s, y1, ops[1..]) == y3;
  }

  // ------------------------------------------------------------- invariant

  function InWindow(codes: map<CodeId, Code>, user: UserId, start: int, length: nat): set<CodeId> {
    set c | c in codes && codes[c].user == user && start <= codes[c].createdAt <= start + length
  }

  /** Jobs whose code will fall into the window. */
  function Coming(jobs: map<Thread, Job>, user: UserId, start: int, length: nat): set<Thread> {
    set i | i in jobs && jobs[i].user == user && start <= jobs[i].at <= start + length
  }

  ghost predicate WindowFits(s: Settings, k: nat, codes: map<CodeId, Code>, jobs: map<Thread, Job>,
      user: UserId, start: int) {
    |InWindow(codes, user, start, s.window)| + |Coming(jobs, user, start, s.window)| <= s.maxCodes - 1 + k
  }

  ghost predicate WindowsFit(s: Settings, k: nat, codes: map<CodeId, Code>, jobs: map<Thread, Job>) {
    forall user: UserId, start: int :: WindowFits(s, k, codes, jobs, user, start)
  }

  ghost predicate RowsFit(s: Settings, codes: map<CodeId, Code>) {
    forall c :: c in codes ==>
      && codes[c].attempts <= s.maxAttempts && (!codes[c].used ==> codes[c].attempts < s.maxAttempts)
      && codes[c].expiresAt == codes[c].createdAt + s.ttl
  }

  ghost predicate DaysFit(s: Settings, codes: map<CodeId, Code>, clock: int) {
    forall user: UserId :: WrongToday(codes, user, clock) <= s.maxWrongPerDay
  }

  ghost predicate CodesOk(s: Settings, t: Table, clock: int) {
    && (forall c :: c in t.codes ==> c < t.next)
    && RowsFit(s, t.codes) && DaysFit(s, t.codes, clock)
  }

  /** What a job holds is unused codes of its account, and nobody else's. */
  ghost predicate HoldsOk(codes: map<CodeId, Code>, jobs: map<Thread, Job>) {
    && (forall i, c :: i in jobs && Holds(jobs[i], c) ==> c in Unused(codes, jobs[i].user))
    && (forall i, j, c :: i in jobs && j in jobs && Holds(jobs[i], c) && Holds(jobs[j], c) ==> i == j)
  }

  ghost predicate Inv(s: Settings, k: nat, y: System) {
    CodesOk(s, y.table, y.clock) && WindowsFit(s, k, y.table.codes, y.jobs) && HoldsOk(y.table.codes, y.jobs)
  }

  /** Rows may go or become used; nothing else about them changes. */
  ghost predicate Shrinks(codes: map<CodeId, Code>, codes': map<CodeId, Code>) {
    forall c :: c in codes' ==> c in codes && (codes'[c] == codes[c] || codes'[c] == codes[c].(used := true))
  }

  lemma SumWithin(a: set<CodeId>, b: set<CodeId>, codes: map<CodeId, Code>, codes': map<CodeId, Code>)
    requires b <= a <= codes.Keys && b <= codes'.Keys
    requires forall c :: c in b ==> codes'[c].attempts == codes[c].attempts
    ensures Sum(b, Attempts(codes')) <= Sum(a, Attempts(codes))
  {
    SameSums(b, Attempts(codes), Attempts(codes'));
    assert a == b + (a - b);
    SumSplits(b, a - b, Attempts(codes));
  }

  /** Wrong guesses fall out of the last day as time passes and rows go. */
  lemma WrongShrinks(codes: map<CodeId, Code>, codes': map<CodeId, Code>, user: UserId, now: int, later: int)
    requires Shrinks(codes, codes') && now <= later
    ensures WrongToday(codes', user, later) <= WrongToday(codes, user, now)
  {
    SumWithin(Recent(codes, user, now - DAY), Recent(codes', user, later - DAY), codes, codes');
  }

  lemma ShrinkingKeepsCodes(s: Settings, t: Table, codes': map<CodeId, Code>, clock: int, later: int)
    requires CodesOk(s, t, clock) && Shrinks(t.codes, codes') && clock <= later
    ensures CodesOk(s, t.(codes := codes'), later)
  {
    forall user: UserId ensures WrongToday(codes', user, later) <= s.maxWrongPerDay {
      WrongShrinks(t.codes, codes', user, clock, later);
    }
    hide WrongToday;
  }

  /** Fewer rows or fewer jobs never fill a window. */
  lemma ShrinkingKeepsWindows(s: Settings, k: nat, codes: map<CodeId, Code>, codes': map<CodeId, Code>,
                              jobs: map<Thread, Job>, jobs': map<Thread, Job>)
    requires WindowsFit(s, k, codes, jobs) && Shrinks(codes, codes')
    requires forall i :: i in jobs' ==> i in jobs && jobs'[i] == jobs[i].(stage := jobs'[i].stage)
    ensures WindowsFit(s, k, codes', jobs')
  {
    forall user: UserId, start: int ensures WindowFits(s, k, codes', jobs', user, start) {
      assert WindowFits(s, k, codes, jobs, user, start);
      SubsetSize(InWindow(codes', user, start, s.window), InWindow(codes, user, start, s.window));
      SubsetSize(Coming(jobs', user, start, s.window), Coming(jobs, user, start, s.window));
    }
  }

  lemma ShrinkingKeeps(s: Settings, k: nat, y: System, codes': map<CodeId, Code>, later: int)
    requires Inv(s, k, y) && Shrinks(y.table.codes, codes') && y.clock <= later
    requires forall c :: c in HeldCodes(y.table.codes, y.jobs) ==> c in codes' && codes'[c] == y.table.codes[c]
    ensures Inv(s, k, y.(table := y.table.(codes := codes'), clock := later))
  {
    ShrinkingKeepsCodes(s, y.table, codes', y.clock, later);
    ShrinkingKeepsWindows(s, k, y.table.codes, codes', y.jobs, y.jobs);
    HoldsStay(y.table.codes, codes', y.jobs);
    hide CodesOk, WindowsFit;
  }

  lemma HoldsStay(codes: map<CodeId, Code>, codes': map<CodeId, Code>, jobs: map<Thread, Job>)
    requires HoldsOk(codes, jobs)
    requires forall c :: c in HeldCodes(codes, jobs) ==> c in codes' && codes'[c] == codes[c]
    ensures HoldsOk(codes', jobs)
  {
    forall i, c | i in jobs && Holds(jobs[i], c) ensures c in Unused(codes', jobs[i].user) {
      assert c in Unused(codes, jobs[i].user) && c in HeldCodes(codes, jobs);
    }
  }

  /** A window the new job's code will fall into starts no earlier than the count did. */
  lemma CountKeeps(s: Settings, k: nat, y: System, i: Thread, job: Job)
    requires Inv(s, k, y) && i !in y.jobs && Few(k, y.jobs[i := job]) && job.stage == Counted
    requires |Recent(y.table.codes, job.user, job.at - s.window)| < s.maxCodes
    ensures Inv(s, k, y.(jobs := y.jobs[i := job]))
  {
    var codes, jobs := y.table.codes, y.jobs[i := job];
    forall user: UserId, start: int ensures WindowFits(s, k, codes, jobs, user, start) {
      assert WindowFits(s, k, codes, y.jobs, user, start);
      if i in Coming(jobs, user, start, s.window) {
        SubsetSize(InWindow(codes, user, start, s.window), Recent(codes, user, job.at - s.window));
        SubsetSize(Coming(jobs, user, start, s.window), JobsOf(jobs, user));
      } else {
        assert Coming(jobs, user, start, s.window) == Coming(y.jobs, user, start, s.window);
      }
    }
    hide WindowFits, CodesOk;
  }

  lemma NewCodeCountsNothing(codes: map<CodeId, Code>, id: CodeId, code: Code, user: UserId, now: int)
    requires id !in codes && code.attempts == 0
    ensures WrongToday(codes[id := code], user, now) == WrongToday(codes, user, now)
  {
    var was, is' := Recent(codes, user, now - DAY), Recent(codes[id := code], user, now - DAY);
    var before, after := Attempts(codes), Attempts(codes[id := code]);
    if id in is' {
      assert is' - {id} == was;
      SumTakeOut(is', after, id);
    } else {
      assert is' == was;
    }
    SameSums(was, before, after);
  }

  lemma InsertKeepsCodes(s: Settings, t: Table, code: Code, clock: int)
    requires CodesOk(s, t, clock) && code.attempts == 0 && s.maxAttempts >= 1
    requires code.expiresAt == code.createdAt + s.ttl
    ensures CodesOk(s, Table(t.codes[t.next := code], t.next + 1), clock)
  {
    var codes' := t.codes[t.next := code];
    forall user: UserId ensures WrongToday(codes', user, clock) <= s.maxWrongPerDay {
      NewCodeCountsNothing(t.codes, t.next, code, user, clock);
    }
    hide WrongToday, Recent;
  }

  /** The code takes the place its job was counted for. */
  lemma InsertKeepsWindows(s: Settings, k: nat, codes: map<CodeId, Code>, id: CodeId, code: Code,
      jobs: map<Thread, Job>, i: Thread)
    requires WindowsFit(s, k, codes, jobs) && id !in codes && i in jobs
    requires jobs[i].user == code.user && jobs[i].at == code.createdAt
    ensures WindowsFit(s, k, codes[id := code], jobs - {i})
  {
    var codes', jobs' := codes[id := code], jobs - {i};
    forall user: UserId, start: int ensures WindowFits(s, k, codes', jobs', user, start) {
      assert WindowFits(s, k, codes, jobs, user, start);
      OneMore(codes, id, code, user, start, s.window);
      OneLess(jobs, i, user, start, s.window);
    }
  }

  lemma OneMore(codes: map<CodeId, Code>, id: CodeId, code: Code, user: UserId, start: int, length: nat)
    requires id !in codes
    ensures |InWindow(codes[id := code], user, start, length)| == |InWindow(codes, user, start, length)|
      + if code.user == user && start <= code.createdAt <= start + length then 1 else 0
  {
    var was, now := InWindow(codes, user, start, length), InWindow(codes[id := code], user, start, length);
    if id in now { assert now == was + {id}; } else { assert now == was; }
  }

  lemma OneLess(jobs: map<Thread, Job>, i: Thread, user: UserId, start: int, length: nat)
    requires i in jobs
    ensures |Coming(jobs, user, start, length)| == |Coming(jobs - {i}, user, start, length)|
      + if jobs[i].user == user && start <= jobs[i].at <= start + length then 1 else 0
  {
    var was, now := Coming(jobs, user, start, length), Coming(jobs - {i}, user, start, length);
    if i in was { assert was == now + {i}; } else { assert was == now; }
  }

  /** The other jobs' holds are on other codes. */
  lemma FinishKeepsHolds(codes: map<CodeId, Code>, jobs: map<Thread, Job>, i: Thread, id: CodeId, code: Code)
    requires HoldsOk(codes, jobs) && i in jobs && jobs[i].stage.Holding? && id !in codes
    ensures HoldsOk(Marked(codes, jobs[i].stage.ids)[id := code], jobs - {i})
  {
    var codes' := Marked(codes, jobs[i].stage.ids)[id := code];
    forall j, c | j in jobs - {i} && Holds(jobs[j], c) ensures c in Unused(codes', jobs[j].user) {
      assert c in Unused(codes, jobs[j].user);
      assert !Holds(jobs[i], c);
    }
  }

  lemma FinishKeeps(s: Settings, k: nat, y: System, i: Thread, digits: string)
    requires Inv(s, k, y) && s.maxAttempts >= 1
    ensures Inv(s, k, Apply(s, y, Finish(i, digits)))
  {
    if i in y.jobs && y.jobs[i].stage.Holding? {
      var job, codes := y.jobs[i], Marked(y.table.codes, y.jobs[i].stage.ids);
      var code := Code(job.user, digits, job.at, job.at + s.ttl, 0, false);
      InvMeans(s, k, y);
      hide Inv, CodesOk, WindowsFit, HoldsOk;
      FinishKeepsHolds(y.table.codes, y.jobs, i, y.table.next, code);
      ShrinkingKeepsCodes(s, y.table, codes, y.clock, y.clock);
      ShrinkingKeepsWindows(s, k, y.table.codes, codes, y.jobs, y.jobs);
      InsertKeepsCodes(s, y.table.(codes := codes), code, y.clock);
      InsertKeepsWindows(s, k, codes, y.table.next, code, y.jobs, i);
      InvMeans(s, k, Apply(s, y, Finish(i, digits)));
    }
  }

  lemma InvMeans(s: Settings, k: nat, y: System)
    ensures Inv(s, k, y) <==>
      CodesOk(s, y.table, y.clock) && WindowsFit(s, k, y.table.codes, y.jobs) && HoldsOk(y.table.codes, y.jobs)
    ensures Inv(s, k, y) ==> y.table.next !in y.table.codes
  {
  }

  lemma MissedCountsOne(s: Settings, codes: map<CodeId, Code>, c: CodeId, user: UserId, now: int)
    requires c in codes
    ensures WrongToday(codes[c := Missed(s, codes[c])], user, now) <=
            WrongToday(codes, user, now) + if codes[c].user == user then 1 else 0
  {
    var codes' := codes[c := Missed(s, codes[c])];
    var day := Recent(codes, user, now - DAY);
    assert Recent(codes', user, now - DAY) == day;
    if c in day {
      SumTakeOut(day, Attempts(codes), c);
      SumTakeOut(day, Attempts(codes'), c);
      SameSums(day - {c}, Attempts(codes), Attempts(codes'));
    } else {
      SameSums(day, Attempts(codes), Attempts(codes'));
    }
  }

  lemma MissKeepsWindows(s: Settings, k: nat, codes: map<CodeId, Code>, jobs: map<Thread, Job>, c: CodeId)
    requires WindowsFit(s, k, codes, jobs) && c in codes
    ensures WindowsFit(s, k, codes[c := Missed(s, codes[c])], jobs)
  {
    var codes' := codes[c := Missed(s, codes[c])];
    forall user: UserId, start: int ensures WindowFits(s, k, codes', jobs, user, start) {
      assert WindowFits(s, k, codes, jobs, user, start);
      assert InWindow(codes', user, start, s.window) == InWindow(codes, user, start, s.window);
    }
  }

  lemma MissKeeps(s: Settings, k: nat, y: System, c: CodeId)
    requires Inv(s, k, y) && c in y.table.codes && !y.table.codes[c].used
    requires c !in HeldCodes(y.table.codes, y.jobs)
    requires WrongToday(y.table.codes, y.table.codes[c].user, y.clock) < s.maxWrongPerDay
    ensures Inv(s, k, y.(table := y.table.(codes := y.table.codes[c := Missed(s, y.table.codes[c])])))
  {
    var codes := y.table.codes;
    var codes' := codes[c := Missed(s, codes[c])];
    MissKeepsWindows(s, k, codes, y.jobs, c);
    HoldsStay(codes, codes', y.jobs);
    forall user: UserId ensures WrongToday(codes', user, y.clock) <= s.maxWrongPerDay {
      assert WrongToday(codes, user, y.clock) <= s.maxWrongPerDay;
      MissedCountsOne(s, codes, c, user, y.clock);
    }
    hide WrongToday, WindowsFit, HoldsOk;
  }

  /** Marking holds unused codes that nobody else does. */
  lemma SupersedeKeeps(s: Settings, k: nat, y: System, i: Thread)
    requires Inv(s, k, y)
    ensures Inv(s, k, Apply(s, y, Supersede(i)))
  {
    var y' := Apply(s, y, Supersede(i));
    ShrinkingKeepsWindows(s, k, y.table.codes, y.table.codes, y.jobs, y'.jobs);
    if y'.jobs != y.jobs {
      forall c | c in Unused(y.table.codes, y.jobs[i].user) ensures c !in HeldCodes(y.table.codes, y.jobs) {
        NotWaiting(y, y.jobs[i].user, c);
      }
      forall j, c | j in y.jobs && Holds(y.jobs[j], c) ensures c !in Unused(y.table.codes, y.jobs[i].user) {
        assert c in Unused(y.table.codes, y.jobs[j].user) && c in HeldCodes(y.table.codes, y.jobs);
      }
    }
    hide CodesOk, WindowsFit;
  }

  lemma NotWaiting(y: System, user: UserId, c: CodeId)
    requires !Waits(y, user) && c in Unused(y.table.codes, user)
    ensures c !in HeldCodes(y.table.codes, y.jobs)
  {
    assert c !in Unused(y.table.codes, user) * HeldCodes(y.table.codes, y.jobs);
  }

  lemma GuessKeeps(s: Settings, k: nat, y: System, user: UserId, guess: string, consume: bool, after: nat)
    requires Inv(s, k, y)
    ensures Inv(s, k, Apply(s, y, Guess(user, guess, consume, after)))
  {
    hide Inv, WrongToday, Strip;
    if !Waits(y, user) {
      var codes, later := y.table.codes, y.(clock := y.clock + after);
      ShrinkingKeeps(s, k, y, codes, y.clock + after);
      var c := if WellFormed(Strip(guess)) then Chosen(codes, user) else None;
      if c.Some? && Live(s, codes, c.value, y.clock + after) {
        NotWaiting(y, user, c.value);
        if codes[c.value].digits == Strip(guess) {
          ShrinkingKeeps(s, k, later, codes[c.value := codes[c.value].(used := true)], y.clock + after);
        } else {
          MissKeeps(s, k, later, c.value);
        }
      }
    }
  }

  lemma LeftKeeps(s: Settings, k: nat, y: System, user: UserId)
    requires Inv(s, k, y)
    ensures Inv(s, k, Apply(s, y, Left(user)))
  {
    if !Waits(y, user) {
      var codes := y.table.codes;
      forall c | c in Unused(codes, user) ensures c !in HeldCodes(codes, y.jobs) { NotWaiting(y, user, c); }
      forall c | c in HeldCodes(codes, y.jobs) ensures codes[c].user != user {
        var i :| i in y.jobs && Holds(y.jobs[i], c);
        assert c in Unused(codes, y.jobs[i].user);
      }
      hide Inv;
      ShrinkingKeeps(s, k, y, Forgotten(codes, user), y.clock);
    }
  }

  lemma ApplyKeeps(s: Settings, k: nat, y: System, op: Op)
    requires Inv(s, k, y) && s.maxAttempts >= 1 && Few(k, Apply(s, y, op).jobs)
    ensures Inv(s, k, Apply(s, y, op))
  {
    match op
    case Count(i, user, at, gone) =>
      hide Inv, Few;
      var codes := Purged(y.table.codes, gone - HeldCodes(y.table.codes, y.jobs), at - RETENTION);
      ShrinkingKeeps(s, k, y, codes, y.clock);
      if i !in y.jobs && |Recent(codes, user, at - s.window)| < s.maxCodes {
        CountKeeps(s, k, y.(table := y.table.(codes := codes)), i, Job(user, at, Counted));
      }
    case Supersede(i) => SupersedeKeeps(s, k, y, i);
    case Finish(i, digits) => FinishKeeps(s, k, y, i, digits);
    case Lose(i) => LoseKeeps(s, k, y, i);
    case Guess(user, guess, consume, after) => GuessKeeps(s, k, y, user, guess, consume, after);
    case Left(user) => LeftKeeps(s, k, y, user);
  }

  lemma LoseKeeps(s: Settings, k: nat, y: System, i: Thread)
    requires Inv(s, k, y)
    ensures Inv(s, k, y.(jobs := y.jobs - {i}))
  {
    ShrinkingKeepsWindows(s, k, y.table.codes, y.table.codes, y.jobs, y.jobs - {i});
    hide CodesOk, WindowsFit;
  }

  lemma {:induction false} RunKeeps(s: Settings, k: nat, y: System, ops: seq<Op>)
    requires Inv(s, k, y) && s.maxAttempts >= 1 && AtMost(s, k, y, ops)
    ensures Inv(s, k, Run(s, y, ops))
    decreases |ops|
  {
    hide Inv, Apply, Few;
    if ops != [] {
      assert AtMost(s, k, Apply(s, y, ops[0]), ops[1..]);
      ApplyKeeps(s, k, y, ops[0]);
      RunKeeps(s, k, Apply(s, y, ops[0]), ops[1..]);
    }
  }

  // ------------------------------------------------------------- the limits

  lemma NothingYet(s: Settings, k: nat, clock: int)
    requires s.maxCodes >= 1
    ensures Inv(s, k, System(Table(map[], 0), map[], clock))
  {
    forall user: UserId, start: int ensures WindowFits(s, k, map[], map[], user, start) {
      assert InWindow(map[], user, start, s.window) == {} && Coming(map[], user, start, s.window) == {};
    }
  }

  // ----------------------------------------------------- how many are unused

  function EmptyHolders(jobs: map<Thread, Job>, user: UserId): set<Thread> {
    set i | i in jobs && jobs[i].user == user && jobs[i].stage == Holding({})
  }

  /** A job that found nothing to supersede will add a code and take none away. */
  ghost predicate UnusedFit(h: nat, y: System, user: UserId) {
    |Unused(y.table.codes, user)| + |EmptyHolders(y.jobs, user)| <= h
  }

  lemma SupersedeFits(s: Settings, k: nat, h: nat, y: System, i: Thread, user: UserId)
    requires Inv(s, k, y) && UnusedFit(h, y, user) && FewHold(h, Apply(s, y, Supersede(i)).jobs)
    ensures UnusedFit(h, Apply(s, y, Supersede(i)), user)
  {
    var y' := Apply(s, y, Supersede(i));
    if Unused(y.table.codes, user) == {} {
      SubsetSize(EmptyHolders(y'.jobs, user), Holders(y'.jobs, user));
    } else {
      assert EmptyHolders(y'.jobs, user) == EmptyHolders(y.jobs, user);
    }
  }

  lemma UnusedAfterInsert(codes: map<CodeId, Code>, ids: set<CodeId>, id: CodeId, code: Code, user: UserId)
    requires id !in codes && !code.used
    ensures Unused(Marked(codes, ids)[id := code], user) ==
      Unused(codes, user) - ids + if code.user == user then {id} else {}
  {
  }

  /** A job that holds codes takes at least one away for the one it adds. */
  lemma InsertAdds(codes: map<CodeId, Code>, ids: set<CodeId>, id: CodeId, code: Code, user: UserId)
    requires id !in codes && !code.used && ids <= Unused(codes, code.user)
    ensures |Unused(Marked(codes, ids)[id := code], user)| <=
      |Unused(codes, user)| + if code.user == user && ids == {} then 1 else 0
  {
    UnusedAfterInsert(codes, ids, id, code, user);
    var was, now := Unused(codes, user), Unused(Marked(codes, ids)[id := code], user);
    hide Marked;
    if code.user != user {
      SubsetSize(now, was);
    } else if ids == {} {
      SubsetSize(now, was + {id});
    } else {
      var c :| c in ids;
      assert c in was;
      SubsetSize(now, was - {c} + {id});
    }
  }

  lemma HolderGone(jobs: map<Thread, Job>, i: Thread, user: UserId)
    requires i in jobs
    ensures |EmptyHolders(jobs - {i}, user)| == |EmptyHolders(jobs, user)|
      - if jobs[i].user == user && jobs[i].stage == Holding({}) then 1 else 0
  {
    if jobs[i].user == user && jobs[i].stage == Holding({}) {
      assert EmptyHolders(jobs, user) == EmptyHolders(jobs - {i}, user) + {i};
    } else {
      assert EmptyHolders(jobs, user) == EmptyHolders(jobs - {i}, user);
    }
  }

  lemma FinishFits(s: Settings, k: nat, h: nat, y: System, i: Thread, digits: string, user: UserId)
    requires Inv(s, k, y) && UnusedFit(h, y, user) && i in y.jobs && y.jobs[i].stage.Holding?
    ensures UnusedFit(h, Apply(s, y, Finish(i, digits)), user)
  {
    var Job(owner, at, stage) := y.jobs[i];
    InvMeans(s, k, y);
    forall c | c in stage.ids ensures c in Unused(y.table.codes, owner) { assert Holds(y.jobs[i], c); }
    hide Inv, CodesOk, WindowsFit, HoldsOk, Unused, Marked, EmptyHolders;
    InsertAdds(y.table.codes, stage.ids, y.table.next, Code(owner, digits, at, at + s.ttl, 0, false), user);
    HolderGone(y.jobs, i, user);
  }

  lemma FewerUnusedFit(h: nat, y: System, y': System, user: UserId)
    requires UnusedFit(h, y, user)
    requires Unused(y'.table.codes, user) <= Unused(y.table.codes, user)
    requires EmptyHolders(y'.jobs, user) <= EmptyHolders(y.jobs, user)
    ensures UnusedFit(h, y', user)
  {
    SubsetSize(Unused(y'.table.codes, user), Unused(y.table.codes, user));
    SubsetSize(EmptyHolders(y'.jobs, user), EmptyHolders(y.jobs, user));
  }

  lemma RedeemUnused(s: Settings, t: Table, user: UserId, typed: string, now: int, consume: bool, other: UserId)
    ensures Unused(Redeem(s, t, user, typed, now, consume).0.codes, other) <= Unused(t.codes, other)
  {
    hide WrongToday, Strip, WellFormed;
  }

  lemma RestFits(s: Settings, h: nat, y: System, op: Op, user: UserId)
    requires UnusedFit(h, y, user) && (op.Count? || op.Lose? || op.Guess? || op.Left?)
    ensures UnusedFit(h, Apply(s, y, op), user)
  {
    hide UnusedFit, Waits, Redeem, Recent;
    if op.Guess? { RedeemUnused(s, y.table, op.user, op.guess, y.clock + op.after, op.consume, user); }
    var y' := Apply(s, y, op);
    assert EmptyHolders(y'.jobs, user) <= EmptyHolders(y.jobs, user);
    FewerUnusedFit(h, y, y', user);
  }

  lemma ApplyFits(s: Settings, k: nat, h: nat, y: System, op: Op, user: UserId)
    requires Inv(s, k, y) && UnusedFit(h, y, user) && FewHold(h, Apply(s, y, op).jobs)
    ensures UnusedFit(h, Apply(s, y, op), user)
  {
    if op.Supersede? {
      SupersedeFits(s, k, h, y, op.i, user);
    } else if op.Finish? {
      hide Inv, UnusedFit, FewHold;
      if op.i in y.jobs && y.jobs[op.i].stage.Holding? { FinishFits(s, k, h, y, op.i, op.digits, user); }
    } else {
      hide *;
      RestFits(s, h, y, op, user);
    }
  }

  lemma {:induction false} RunFits(s: Settings, k: nat, h: nat, y: System, ops: seq<Op>, user: UserId)
    requires Inv(s, k, y) && s.maxAttempts >= 1 && AtMost(s, k, y, ops) && AtMostHold(s, h, y, ops)
    requires UnusedFit(h, y, user)
    ensures UnusedFit(h, Run(s, y, ops), user)
    decreases |ops|
  {
    hide Inv, Apply, Few, FewHold, UnusedFit;
    if ops != [] {
      var y' := Apply(s, y, ops[0]);
      assert AtMost(s, k, y', ops[1..]) && AtMostHold(s, h, y', ops[1..]);
      ApplyKeeps(s, k, y, ops[0]);
      ApplyFits(s, k, h, y, ops[0], user);
      RunFits(s, k, h, y', ops[1..], user);
    }
  }

  function Start(clock: int): System {
    System(Table(map[], 0), map[], clock)
  }

  /** However late and in whatever order the jobs run, at most k of an account overlapping: no stretch
      of the reset window holds more than limit - 1 + k codes of an account (so the limit, one at a
      time), at most k of them are unused, no code is guessed at more than the allowed number of times,
      and wrong guesses on codes of the last day stay within the daily limit at any later moment. */
  lemma LimitsHold(s: Settings, k: nat, ops: seq<Op>, clock: int, user: UserId, start: int, at: int, c: CodeId)
    requires s.maxAttempts >= 1 && s.maxCodes >= 1 && AtMost(s, k, Start(clock), ops)
    ensures var y := Run(s, Start(clock), ops);
      && |InWindow(y.table.codes, user, start, s.window)| <= s.maxCodes - 1 + k
      && (y.clock <= at ==> WrongToday(y.table.codes, user, at) <= s.maxWrongPerDay)
      && (c in y.table.codes ==> y.table.codes[c].attempts <= s.maxAttempts)
      && |Unused(y.table.codes, user)| <= k
  {
    var y := Run(s, Start(clock), ops);
    NothingYet(s, k, clock);
    RunKeeps(s, k, Start(clock), ops);
    assert WindowFits(s, k, y.table.codes, y.jobs, user, start);
    if y.clock <= at { WrongShrinks(y.table.codes, y.table.codes, user, y.clock, at); }
    hide WrongToday;
    FewJobsFewHolders(s, k, Start(clock), ops);
    assert UnusedFit(k, Start(clock), user);
    hide AtMost, AtMostHold, Run;
    RunFits(s, k, k, Start(clock), ops, user);
  }

  /** Only the newest code is unused as long as no two jobs of an account stand between marking and
      inserting. */
  lemma OneUnusedWhileAlone(s: Settings, k: nat, ops: seq<Op>, clock: int, user: UserId)
    requires s.maxAttempts >= 1 && s.maxCodes >= 1 && AtMost(s, k, Start(clock), ops)
    requires AtMostHold(s, 1, Start(clock), ops)
    ensures |Unused(Run(s, Start(clock), ops).table.codes, user)| <= 1
  {
    NothingYet(s, k, clock);
    assert UnusedFit(1, Start(clock), user) by {
      assert Unused(map[], user) == {} && EmptyHolders(map[], user) == {};
    }
    hide AtMost, AtMostHold, Run;
    RunFits(s, k, 1, Start(clock), ops, user);
  }

  /** Once two do, both will be: when they insert, whatever they hold, both codes are unused. */
  lemma TwoHoldersLeaveTwo(s: Settings, k: nat, y: System, i: Thread, j: Thread, a: string, b: string)
    requires Inv(s, k, y) && i in y.jobs && j in y.jobs && i != j && y.jobs[i].user == y.jobs[j].user
    requires y.jobs[i].stage.Holding? && y.jobs[j].stage.Holding?
    ensures |Unused(Run(s, y, [Finish(i, a), Finish(j, b)]).table.codes, y.jobs[i].user)| >= 2
  {
    var user, ops := y.jobs[i].user, [Finish(i, a), Finish(j, b)];
    assert ops[1..] == [Finish(j, b)] && ops[1..][1..] == [];
    var y1 := Apply(s, y, ops[0]);
    var y2 := Apply(s, y1, ops[1]);
    assert Run(s, y2, []) == y2 && Run(s, y1, ops[1..]) == y2 && Run(s, y, ops) == y2;
    InvMeans(s, k, y);
    forall c | c in y.jobs[j].stage.ids ensures c in y.table.codes { assert Holds(y.jobs[j], c); }
    SubsetSize({y.table.next, y.table.next + 1}, Unused(y2.table.codes, user));
  }

  // --------------------------------------------------- the bounds are met

  lemma OneStep(s: Settings, k: nat, y: System, y': System, op: Op, rest: seq<Op>)
    requires Apply(s, y, op) == y' && Few(k, y.jobs) && AtMost(s, k, y', rest)
    ensures Run(s, y, [op] + rest) == Run(s, y', rest) && AtMost(s, k, y, [op] + rest)
  {
    hide Apply, Few;
    assert ([op] + rest)[1..] == rest;
  }

  /** Who asks for codes, when, and what they get. */
  datatype Request = Request(user: UserId, at: int, digits: string)

  function CodeOf(s: Settings, r: Request, used: bool): Code {
    Code(r.user, r.digits, r.at, r.at + s.ttl, 0, used)
  }

  function Codes(s: Settings, r: Request, n: nat, used: bool): (codes: map<CodeId, Code>)
    ensures forall c: CodeId :: c in codes <==> c < n
    ensures forall c :: c in codes ==> codes[c] == CodeOf(s, r, used)
  {
    if n == 0 then map[] else Codes(s, r, n - 1, used)[n - 1 := CodeOf(s, r, used)]
  }

  /** Jobs h to m - 1 have counted; j to h - 1 have also marked, and found nothing unused. */
  function Jobs(r: Request, j: nat, h: nat, m: nat): (jobs: map<Thread, Job>)
    requires j <= h <= m
    ensures forall i: Thread :: i in jobs <==> j <= i < m
    ensures forall i :: i in jobs ==> jobs[i] == Job(r.user, r.at, if i < h then Holding({}) else Counted)
  {
    if m == j then map[]
    else if h < m then Jobs(r, j, h, m - 1)[m - 1 := Job(r.user, r.at, Counted)]
    else Jobs(r, j, h - 1, m - 1)[m - 1 := Job(r.user, r.at, Holding({}))]
  }

  lemma FewJobs(k: nat, r: Request, j: nat, h: nat, m: nat)
    requires j <= h <= m <= j + k
    ensures Few(k, Jobs(r, j, h, m))
  {
    var jobs := Jobs(r, j, h, m);
    RangeSize(j, m);
    forall user: UserId ensures |JobsOf(jobs, user)| <= k { SubsetSize(JobsOf(jobs, user), Below(m) - Below(j)); }
  }

  lemma CountJoins(s: Settings, y: System, r: Request, j: nat, h: nat, m: nat)
    requires j <= h <= m && y.jobs == Jobs(r, j, h, m) && |Recent(y.table.codes, r.user, r.at - s.window)| < s.maxCodes
    ensures Apply(s, y, Count(m, r.user, r.at, {})) == y.(jobs := Jobs(r, j, h, m + 1))
  {
    assert Purged(y.table.codes, {} - HeldCodes(y.table.codes, y.jobs), r.at - RETENTION) == y.table.codes;
    assert Jobs(r, j, h, m + 1) == y.jobs[m := Job(r.user, r.at, Counted)];
    hide HeldCodes, Recent;
  }

  lemma NothingHeld(codes: map<CodeId, Code>, r: Request, j: nat, h: nat, m: nat)
    requires j <= h <= m
    ensures HeldCodes(codes, Jobs(r, j, h, m)) == {}
  {
  }

  /** The codes after n jobs one by one: only the newest is unused. */
  function Newest(s: Settings, r: Request, n: nat): Table {
    Table(if n == 0 then map[] else Codes(s, r, n - 1, true)[n - 1 := CodeOf(s, r, false)], n)
  }

  /** n codes are in, and jobs j to m - 1 have counted. */
  function Queued(s: Settings, r: Request, clock: int, n: nat, j: nat, m: nat): System
    requires j <= m
  {
    System(Newest(s, r, n), Jobs(r, j, j, m), clock)
  }

  lemma NewestReplaced(s: Settings, r: Request, n: nat)
    ensures Insert(s, Newest(s, r, n), Unused(Newest(s, r, n).codes, r.user), r.user, r.digits, r.at)
            == Newest(s, r, n + 1)
  {
    var t := Newest(s, r, n);
    assert Unused(t.codes, r.user) == if n == 0 then {} else {n - 1};
    assert Marked(t.codes, Unused(t.codes, r.user)) == Codes(s, r, n, true);
  }

  /** Marking and inserting, while the other jobs wait with nothing marked. */
  lemma JobFinishes(s: Settings, r: Request, clock: int, n: nat, j: nat, m: nat)
    requires j < m
    ensures var y := Queued(s, r, clock, n, j, m);
      && Apply(s, y, Supersede(j)).jobs.Keys == y.jobs.Keys
      && (forall i :: i in y.jobs ==> Apply(s, y, Supersede(j)).jobs[i].user == r.user)
      && Apply(s, Apply(s, y, Supersede(j)), Finish(j, r.digits)) == Queued(s, r, clock, n + 1, j + 1, m)
  {
    var y := Queued(s, r, clock, n, j, m);
    NothingHeld(y.table.codes, r, j, j, m);
    NewestReplaced(s, r, n);
    hide Newest, Insert, HeldCodes, Unused;
    assert !Waits(y, r.user);
    assert y.jobs - {j} == Jobs(r, j + 1, j + 1, m);
    var y1 := Apply(s, y, Supersede(j));
    assert y1.jobs - {j} == y.jobs - {j};
  }

  lemma SameUsersFew(k: nat, jobs: map<Thread, Job>, jobs': map<Thread, Job>, user: UserId)
    requires Few(k, jobs) && jobs'.Keys == jobs.Keys
    requires forall i :: i in jobs ==> jobs[i].user == jobs'[i].user == user
    ensures Few(k, jobs')
  {
    forall other: UserId ensures |JobsOf(jobs', other)| <= k { assert JobsOf(jobs', other) == JobsOf(jobs, other); }
  }

  lemma NothingMore(s: Settings, k: nat, y: System) returns (ops: seq<Op>)
    requires Few(k, y.jobs)
    ensures AtMost(s, k, y, ops) && Run(s, y, ops) == y
  {
    ops := [];
  }

  lemma FinishFirst(s: Settings, k: nat, r: Request, clock: int, n: nat, j: nat, m: nat, rest: seq<Op>)
    returns (ops: seq<Op>)
    requires j < m <= j + k && AtMost(s, k, Queued(s, r, clock, n + 1, j + 1, m), rest)
    ensures var y := Queued(s, r, clock, n, j, m);
      AtMost(s, k, y, ops) && Run(s, y, ops) == Run(s, Queued(s, r, clock, n + 1, j + 1, m), rest)
  {
    var y := Queued(s, r, clock, n, j, m);
    var y1 := Apply(s, y, Supersede(j));
    hide Apply, AtMost, Run, Newest, Jobs;
    FewJobs(k, r, j, j, m);
    JobFinishes(s, r, clock, n, j, m);
    SameUsersFew(k, y.jobs, y1.jobs, r.user);
    hide Queued;
    OneStep(s, k, y1, Queued(s, r, clock, n + 1, j + 1, m), Finish(j, r.digits), rest);
    OneStep(s, k, y, y1, Supersede(j), [Finish(j, r.digits)] + rest);
    ops := [Supersede(j)] + ([Finish(j, r.digits)] + rest);
  }

  lemma QueueIsFew(s: Settings, k: nat, r: Request, clock: int, n: nat, j: nat, m: nat)
    requires j <= m <= j + k
    ensures Few(k, Queued(s, r, clock, n, j, m).jobs)
  {
    FewJobs(k, r, j, j, m);
  }

  lemma {:induction false} AllFinish(s: Settings, k: nat, r: Request, clock: int, n: nat, j: nat, m: nat)
    returns (ops: seq<Op>)
    requires j <= m <= j + k
    ensures var y := Queued(s, r, clock, n, j, m);
      AtMost(s, k, y, ops) && Run(s, y, ops) == Queued(s, r, clock, n + m - j, m, m)
    decreases m - j
  {
    hide AtMost, Run, Queued;
    if j == m {
      QueueIsFew(s, k, r, clock, n, j, m);
      ops := NothingMore(s, k, Queued(s, r, clock, n, j, m));
    } else {
      var rest := AllFinish(s, k, r, clock, n + 1, j + 1, m);
      ops := FinishFirst(s, k, r, clock, n, j, m, rest);
    }
  }

  lemma RecentOnes(s: Settings, r: Request, n: nat)
    ensures |Recent(Newest(s, r, n).codes, r.user, r.at - s.window)| == n
    ensures |InWindow(Newest(s, r, n).codes, r.user, r.at, s.window)| == n
  {
    BelowSize(n);
    assert Recent(Newest(s, r, n).codes, r.user, r.at - s.window) == Below(n);
    assert InWindow(Newest(s, r, n).codes, r.user, r.at, s.window) == Below(n);
  }

  /** Jobs one by one up to the limit but one, then k of them count before any inserts. */
  lemma {:induction false} AllCount(s: Settings, k: nat, r: Request, clock: int, n: nat, j: nat, m: nat)
    returns (ops: seq<Op>)
    requires j <= m <= j + k && n < s.maxCodes
    ensures var y := Queued(s, r, clock, n, j, m);
      AtMost(s, k, y, ops) && Run(s, y, ops) == Queued(s, r, clock, n + k, j + k, j + k)
    decreases j + k - m
  {
    hide Apply, AtMost, Run, Queued;
    if m == j + k {
      ops := AllFinish(s, k, r, clock, n, j, m);
    } else {
      var rest := AllCount(s, k, r, clock, n, j, m + 1);
      ops := CountFirst(s, k, r, clock, n, j, m, rest);
    }
  }

  lemma CountFirst(s: Settings, k: nat, r: Request, clock: int, n: nat, j: nat, m: nat, rest: seq<Op>)
    returns (ops: seq<Op>)
    requires j <= m <= j + k && n < s.maxCodes && AtMost(s, k, Queued(s, r, clock, n, j, m + 1), rest)
    ensures var y := Queued(s, r, clock, n, j, m);
      AtMost(s, k, y, ops) && Run(s, y, ops) == Run(s, Queued(s, r, clock, n, j, m + 1), rest)
  {
    var y := Queued(s, r, clock, n, j, m);
    hide Apply, AtMost, Run, Newest, Jobs;
    FewJobs(k, r, j, j, m);
    RecentOnes(s, r, n);
    CountJoins(s, y, r, j, j, m);
    OneStep(s, k, y, Queued(s, r, clock, n, j, m + 1), Count(m, r.user, r.at, {}), rest);
    ops := [Count(m, r.user, r.at, {})] + rest;
  }

  lemma {:induction false} FillUp(s: Settings, k: nat, r: Request, clock: int, n: nat) returns (ops: seq<Op>)
    requires k >= 1 && n < s.maxCodes
    ensures var y, last := Queued(s, r, clock, n, n, n), s.maxCodes - 1 + k;
      AtMost(s, k, y, ops) && Run(s, y, ops) == Queued(s, r, clock, last, last, last)
    decreases s.maxCodes - n
  {
    hide Apply, AtMost, Run, Queued;
    if n == s.maxCodes - 1 {
      ops := AllCount(s, k, r, clock, n, n, n);
    } else {
      var rest := FillUp(s, k, r, clock, n + 1);
      ops := FinishFirst(s, k, r, clock, n, n, n + 1, rest);
      ops := CountFirst(s, k, r, clock, n, n, n, ops);
    }
  }

  /** For every limit and every k a run puts limit - 1 + k codes of an account into one window. */
  lemma WindowBoundIsMet(s: Settings, k: nat, r: Request, clock: int) returns (ops: seq<Op>)
    requires s.maxCodes >= 1 && k >= 1
    ensures AtMost(s, k, Start(clock), ops)
    ensures |InWindow(Run(s, Start(clock), ops).table.codes, r.user, r.at, s.window)| == s.maxCodes - 1 + k
  {
    ops := FillUp(s, k, r, clock, 0);
    RecentOnes(s, r, s.maxCodes - 1 + k);
    assert Queued(s, r, clock, 0, 0, 0) == Start(clock);
    hide Run, AtMost, InWindow, Recent;
  }

  /** The first j of the jobs are in, those up to h have marked, those up to m have counted. */
  function Racing(s: Settings, r: Request, clock: int, j: nat, h: nat, m: nat): System
    requires j <= h <= m && (j == 0 || h == m)
  {
    System(Table(Codes(s, r, j, false), j), Jobs(r, j, h, m), clock)
  }

  lemma CountBeside(s: Settings, r: Request, clock: int, m: nat)
    requires s.maxCodes >= 1
    ensures Apply(s, Racing(s, r, clock, 0, 0, m), Count(m, r.user, r.at, {})) == Racing(s, r, clock, 0, 0, m + 1)
  {
    assert Recent(Codes(s, r, 0, false), r.user, r.at - s.window) == {};
    hide Apply, Recent;
    CountJoins(s, Racing(s, r, clock, 0, 0, m), r, 0, 0, m);
  }

  lemma MarkNothing(s: Settings, r: Request, clock: int, h: nat, m: nat)
    requires h < m
    ensures Apply(s, Racing(s, r, clock, 0, h, m), Supersede(h)) == Racing(s, r, clock, 0, h + 1, m)
  {
    var y := Racing(s, r, clock, 0, h, m);
    assert Unused(y.table.codes, r.user) == {};
    assert y.jobs[h := Job(r.user, r.at, Holding({}))] == Jobs(r, 0, h + 1, m);
    hide HeldCodes;
  }

  lemma InsertBeside(s: Settings, r: Request, clock: int, j: nat, m: nat)
    requires j < m
    ensures Apply(s, Racing(s, r, clock, j, m, m), Finish(j, r.digits)) == Racing(s, r, clock, j + 1, m, m)
  {
    var y := Racing(s, r, clock, j, m, m);
    assert Marked(y.table.codes, {}) == y.table.codes;
    assert y.jobs - {j} == Jobs(r, j + 1, m, m);
  }

  lemma RacingIsFew(s: Settings, k: nat, r: Request, clock: int, j: nat, h: nat, m: nat)
    requires j <= h <= m <= k && (j == 0 || h == m)
    ensures Few(k, Racing(s, r, clock, j, h, m).jobs)
  {
    FewJobs(k, r, j, h, m);
  }

  lemma {:induction false} AllInsert(s: Settings, k: nat, r: Request, clock: int, j: nat) returns (ops: seq<Op>)
    requires j <= k
    ensures var y := Racing(s, r, clock, j, k, k);
      AtMost(s, k, y, ops) && Run(s, y, ops) == Racing(s, r, clock, k, k, k)
    decreases k - j
  {
    hide Apply, AtMost, Run, Racing, Few;
    RacingIsFew(s, k, r, clock, j, k, k);
    if j == k {
      ops := NothingMore(s, k, Racing(s, r, clock, k, k, k));
    } else {
      var rest := AllInsert(s, k, r, clock, j + 1);
      InsertBeside(s, r, clock, j, k);
      OneStep(s, k, Racing(s, r, clock, j, k, k), Racing(s, r, clock, j + 1, k, k), Finish(j, r.digits), rest);
      ops := [Finish(j, r.digits)] + rest;
    }
  }

  lemma {:induction false} AllMark(s: Settings, k: nat, r: Request, clock: int, h: nat) returns (ops: seq<Op>)
    requires h <= k
    ensures var y := Racing(s, r, clock, 0, h, k);
      AtMost(s, k, y, ops) && Run(s, y, ops) == Racing(s, r, clock, k, k, k)
    decreases k - h
  {
    hide Apply, AtMost, Run, Racing, Few;
    RacingIsFew(s, k, r, clock, 0, h, k);
    if h == k {
      ops := AllInsert(s, k, r, clock, 0);
    } else {
      var rest := AllMark(s, k, r, clock, h + 1);
      MarkNothing(s, r, clock, h, k);
      OneStep(s, k, Racing(s, r, clock, 0, h, k), Racing(s, r, clock, 0, h + 1, k), Supersede(h), rest);
      ops := [Supersede(h)] + rest;
    }
  }

  /** k jobs all count, then all mark, then all insert. */
  lemma {:induction false} AllAtOnce(s: Settings, k: nat, r: Request, clock: int, m: nat) returns (ops: seq<Op>)
    requires m <= k && s.maxCodes >= 1
    ensures var y := Racing(s, r, clock, 0, 0, m);
      AtMost(s, k, y, ops) && Run(s, y, ops) == Racing(s, r, clock, k, k, k)
    decreases k - m
  {
    hide Apply, AtMost, Run, Racing, Few;
    RacingIsFew(s, k, r, clock, 0, 0, m);
    if m == k {
      ops := AllMark(s, k, r, clock, 0);
    } else {
      var rest := AllAtOnce(s, k, r, clock, m + 1);
      CountBeside(s, r, clock, m);
      var count := Count(m, r.user, r.at, {});
      OneStep(s, k, Racing(s, r, clock, 0, 0, m), Racing(s, r, clock, 0, 0, m + 1), count, rest);
      ops := [count] + rest;
    }
  }

  /** And for every k a run ends with k unused codes of one account: with nothing to supersede no job
      waits for another. */
  lemma UnusedBoundIsMet(s: Settings, k: nat, r: Request, clock: int) returns (ops: seq<Op>)
    requires s.maxCodes >= 1
    ensures AtMost(s, k, Start(clock), ops)
    ensures |Unused(Run(s, Start(clock), ops).table.codes, r.user)| == k
  {
    ops := AllAtOnce(s, k, r, clock, 0);
    assert Racing(s, r, clock, 0, 0, 0) == Start(clock);
    assert Unused(Codes(s, r, k, false), r.user) == Below(k);
    BelowSize(k);
    hide Run, AtMost;
  }

  ghost predicate Spent(t: Table, c: CodeId) {
    c < t.next && (c in t.codes ==> t.codes[c].used)
  }

  lemma ApplySpent(s: Settings, y: System, op: Op, c: CodeId)
    requires Spent(y.table, c)
    ensures Spent(Apply(s, y, op).table, c)
  {
  }

  /** A used, superseded, burnt or deleted code is never looked at again. */
  lemma {:induction false} SpentForGood(s: Settings, y: System, ops: seq<Op>, c: CodeId, user: UserId)
    requires Spent(y.table, c)
    ensures Spent(Run(s, y, ops).table, c) && Chosen(Run(s, y, ops).table.codes, user) != Some(c)
    decreases |ops|
  {
    hide Apply;
    if ops != [] {
      ApplySpent(s, y, ops[0], c);
      SpentForGood(s, Apply(s, y, ops[0]), ops[1..], c, user);
    }
  }

  /** The account whose codes an operation may change; counting only purges. */
  function AccountOf(y: System, op: Op): Option<UserId> {
    match op
    case Count(_, _, _, _) => None
    case Supersede(_) => None
    case Finish(i, _) => if i in y.jobs then Some(y.jobs[i].user) else None
    case Lose(_) => None
    case Guess(user, _, _, _) => Some(user)
    case Left(user) => Some(user)
  }

  /** Nobody's requests or guesses touch another account's codes; only purging does, past 30 days. */
  lemma OneAccountOnly(s: Settings, y: System, op: Op, c: CodeId)
    requires HoldsOk(y.table.codes, y.jobs)
    requires c in y.table.codes && c < y.table.next && AccountOf(y, op) != Some(y.table.codes[c].user)
    requires op.Count? ==> y.table.codes[c].createdAt >= op.requestedAt - RETENTION
    ensures c in Apply(s, y, op).table.codes && Apply(s, y, op).table.codes[c] == y.table.codes[c]
  {
    forall i, d | i in y.jobs && Holds(y.jobs[i], d)
      ensures d in y.table.codes && y.table.codes[d].user == y.jobs[i].user
    {
      assert d in Unused(y.table.codes, y.jobs[i].user);
    }
    hide WrongToday, Recent, Waits, HeldCodes, Strip;
  }

  /** A guess is accepted only well-formed, less than the lifetime after the request, and while the
      account's wrong guesses of the last day leave room. */
  lemma AcceptedInTime(s: Settings, t: Table, clock: int, user: UserId, guess: string, now: int, consume: bool)
    requires CodesOk(s, t, clock) && Redeem(s, t, user, guess, now, consume).1
    ensures WellFormed(Strip(guess)) && WrongToday(t.codes, user, now) < s.maxWrongPerDay
    ensures exists c ::
      c in Unused(t.codes, user) && t.codes[c].digits == Strip(guess) && now < t.codes[c].createdAt + s.ttl
  {
    hide WrongToday, Strip;
    var c := Chosen(t.codes, user).value;
    assert c in Unused(t.codes, user);
  }

  /** The newest unused code is the one looked at. It ends when it is used, when its last attempt is
      missed and when the job of a newer one, having found it unused, inserts that. */
  lemma CodesEnd(s: Settings, t: Table, clock: int, user: UserId, guess: string, now: int, digits: string,
      at: int, c: CodeId)
    requires CodesOk(s, t, clock) && c in t.codes && IsChosen(t.codes, user, c)
    ensures Redeem(s, t, user, guess, now, true).1 <==>
      Live(s, t.codes, c, now) && WellFormed(Strip(guess)) && t.codes[c].digits == Strip(guess)
    ensures Redeem(s, t, user, guess, now, true).1 ==> Spent(Redeem(s, t, user, guess, now, true).0, c)
    ensures Live(s, t.codes, c, now) && WellFormed(Strip(guess)) && t.codes[c].digits != Strip(guess) ==>
      t.codes[c].attempts + 1 < s.maxAttempts || Spent(Redeem(s, t, user, guess, now, true).0, c)
    ensures Spent(Insert(s, t, Unused(t.codes, user), user, digits, at), c)
  {
    assert Chosen(t.codes, user) == Some(c);
    hide WrongToday, Strip;
  }

  // ------------------------------------------------------- what is answered

  /** Nothing but these rows may differ. */
  ghost predicate OnlyCodes(codes: map<CodeId, Code>, codes': map<CodeId, Code>, ids: set<CodeId>) {
    codes'.Keys == codes.Keys && forall c :: c in codes && c !in ids ==> codes'[c] == codes[c]
  }

  /** A code is issued exactly while fewer than the limit were asked for in the window before this request;
      then it is unused with its whole lifetime ahead, every older one of the account is used up, and no
      other row is touched. */
  lemma IssueOutcome(s: Settings, t: Table, user: UserId, digits: string, now: int)
    requires forall c :: c in t.codes ==> c < t.next
    ensures var t', asked := Issue(s, t, user, digits, now),
        set c | c in t.codes && t.codes[c].user == user && now - s.window <= t.codes[c].createdAt;
      && (|asked| >= s.maxCodes ==> t' == t)
      && (|asked| < s.maxCodes ==>
            && t'.next == t.next + 1 && t'.codes.Keys == t.codes.Keys + {t.next}
            && t'.codes[t.next] == Code(user, digits, now, now + s.ttl, 0, false)
            && forall c :: c in t.codes ==>
                 t'.codes[c] == if t.codes[c].user == user then t.codes[c].(used := true) else t.codes[c])
  {
    assert Recent(t.codes, user, now - s.window) ==
      set c | c in t.codes && t.codes[c].user == user && now - s.window <= t.codes[c].createdAt;
  }

  /** The newest unused code of the account: asked for last, or of two at the same moment the later row. */
  ghost predicate NewestUnused(codes: map<CodeId, Code>, user: UserId, c: CodeId) {
    && c in codes && codes[c].user == user && !codes[c].used
    && forall d :: d in codes && d != c && codes[d].user == user && !codes[d].used ==>
         codes[d].createdAt < codes[c].createdAt || (codes[d].createdAt == codes[c].createdAt && d < c)
  }

  lemma {:induction false} NewestExists(codes: map<CodeId, Code>, among: set<CodeId>) returns (n: CodeId)
    requires among <= codes.Keys && among != {}
    ensures n in among && forall d :: d in among ==> d == n || Newer(codes, n, d)
    decreases |among|
  {
    var x :| x in among;
    n := x;
    if among != {x} {
      var rest := NewestExists(codes, among - {x});
      n := if Newer(codes, x, rest) then x else rest;
      forall d | d in among ensures d == n || Newer(codes, n, d) {
        assert d == x || d in among - {x};
      }
    }
  }

  lemma ChosenIsNewest(codes: map<CodeId, Code>, user: UserId)
    ensures Chosen(codes, user).Some? <==> exists c :: c in codes && codes[c].user == user && !codes[c].used
    ensures forall c: CodeId :: Chosen(codes, user) == Some(c) <==> NewestUnused(codes, user, c)
  {
    var unused := Unused(codes, user);
    if c :| c in codes && codes[c].user == user && !codes[c].used {
      assert c in unused;
      var n := NewestExists(codes, unused);
      assert IsChosen(codes, user, n);
    }
    forall c: CodeId ensures Chosen(codes, user) == Some(c) <==> NewestUnused(codes, user, c) {
      ChosenIff(codes, user, c);
      if Chosen(codes, user).Some? { ChosenIff(codes, user, Chosen(codes, user).value); }
    }
  }

  lemma ChosenIff(codes: map<CodeId, Code>, user: UserId, c: CodeId)
    ensures c in codes && IsChosen(codes, user, c) <==> NewestUnused(codes, user, c)
  {
    if NewestUnused(codes, user, c) {
      assert c in Unused(codes, user);
    }
    if c in codes && IsChosen(codes, user, c) {
      forall d | d in codes && d != c && codes[d].user == user && !codes[d].used ensures Newer(codes, c, d) {
        assert d in Unused(codes, user);
      }
    }
  }

  /** The day's wrong guesses are the attempts on the account's codes of the last 24 hours, code by code. */
  lemma OneCodeCounts(codes: map<CodeId, Code>, user: UserId, now: int, c: CodeId)
    requires c in codes
    ensures WrongToday(codes, user, now) ==
      WrongToday(codes - {c}, user, now)
      + if codes[c].user == user && now - 24 * 60 * 60 <= codes[c].createdAt then codes[c].attempts else 0
  {
    var was, rest := Recent(codes, user, now - DAY), Recent(codes - {c}, user, now - DAY);
    assert rest == was - {c};
    SameSums(rest, Attempts(codes), Attempts(codes - {c}));
    if c in was { SumTakeOut(was, Attempts(codes), c); } else { assert rest == was; }
  }

  predicate SixDigits(guess: string) {
    |guess| == 6 && forall i :: 0 <= i < 6 ==> '0' <= guess[i] <= '9'
  }

  lemma WellFormedIff(guess: string)
    ensures WellFormed(guess) <==> SixDigits(guess)
  {
    assert forall i :: 0 <= i < |guess| ==> guess[i] in guess;
  }

  /** A guess is compared with the newest unused code while that is within its lifetime, has attempts left
      and the account wrong guesses for the day. Right, it uses the code up if it is to; wrong, it costs
      an attempt, and the last one the code. Any other guess is refused and changes nothing. */
  lemma RedeemOutcome(s: Settings, t: Table, user: UserId, typed: string, now: int, consume: bool, c: CodeId)
    requires NewestUnused(t.codes, user, c)
    ensures var (t', valid) := Redeem(s, t, user, typed, now, consume);
      var guess, row := Strip(typed), t.codes[c];
      var looked := SixDigits(guess) && now < row.expiresAt && row.attempts < s.maxAttempts
        && WrongToday(t.codes, user, now) < s.maxWrongPerDay;
      && (valid <==> looked && row.digits == guess)
      && t' == t.(codes := t'.codes) && OnlyCodes(t.codes, t'.codes, {c})
      && t'.codes[c] == (if !looked then row
                         else if valid then row.(used := consume)
                         else row.(attempts := row.attempts + 1, used := row.attempts + 1 >= s.maxAttempts))
  {
    hide WrongToday, Strip, Unused;
    ChosenIsNewest(t.codes, user);
    WellFormedIff(Strip(typed));
    assert c in t.codes && t.codes[c].user == user && !t.codes[c].used && Chosen(t.codes, user) == Some(c);
    hide NewestUnused, Chosen, SixDigits, WellFormed;
  }

  /** Without an unused code every guess is refused and changes nothing. */
  lemma NothingToRedeem(s: Settings, t: Table, user: UserId, typed: string, now: int, consume: bool)
    requires forall c :: c in t.codes && t.codes[c].user == user ==> t.codes[c].used
    ensures Redeem(s, t, user, typed, now, consume) == (t, false)
  {
    hide WrongToday, Strip, Unused;
    ChosenIsNewest(t.codes, user);
  }

  /** A job holds an unused code of the account. */
  ghost predicate HeldUp(y: System, user: UserId) {
    exists i, c :: i in y.jobs && c in y.table.codes && Holds(y.jobs[i], c)
                   && y.table.codes[c].user == user && !y.table.codes[c].used
  }

  /** A guess, and the deletion of the codes of whoever leaves, wait exactly while a job holds one of
      the account's unused codes; then they happen as they would alone. A job that fails leaves no trace. */
  lemma EventOutcome(s: Settings, y: System, user: UserId, guess: string, consume: bool, after: nat, i: Thread)
    ensures var y' := Apply(s, y, Guess(user, guess, consume, after));
      if HeldUp(y, user) then y' == y
      else y' == System(Redeem(s, y.table, user, guess, y.clock + after, consume).0, y.jobs, y.clock + after)
    ensures var y' := Apply(s, y, Left(user));
      && y' == y.(table := Table(y'.table.codes, y.table.next))
      && (forall c :: c in y'.table.codes ==> c in y.table.codes && y'.table.codes[c] == y.table.codes[c])
      && (forall c :: c in y.table.codes ==>
            (c in y'.table.codes <==> HeldUp(y, user) || y.table.codes[c].user != user))
    ensures var y' := Apply(s, y, Lose(i));
      y'.table == y.table && y'.clock == y.clock && i !in y'.jobs
      && forall j :: j in y.jobs && j != i ==> j in y'.jobs && y'.jobs[j] == y.jobs[j]
  {
    hide Redeem;
    assert HeldUp(y, user) <==> Waits(y, user) by {
      var held, unused := HeldCodes(y.table.codes, y.jobs), Unused(y.table.codes, user);
      if HeldUp(y, user) {
        var j, c :| j in y.jobs && c in y.table.codes && Holds(y.jobs[j], c)
                    && y.table.codes[c].user == user && !y.table.codes[c].used;
        assert c in unused * held;
      }
      if Waits(y, user) {
        var c :| c in unused * held;
        var j :| j in y.jobs && Holds(y.jobs[j], c);
      }
    }
    hide HeldUp, Waits;
  }

  // ----------------------------------------------- statement by statement

  class CodeStore {
    const settings: Settings
    var codes: map<CodeId, Code>
    var next: CodeId

    constructor (settings: Settings)
      ensures this.settings == settings && View() == Table(map[], 0)
    {
      this.settings, codes, next := settings, map[], 0;
    }

    function View(): Table
      reads this
    {
      Table(codes, next)
    }

    method Purge(gone: set<CodeId>, before: int)
      modifies this`codes
      ensures codes == Purged(old(codes), gone, before)
    {
      codes := map c | c in codes && !(c in gone && codes[c].createdAt < before) :: codes[c];
    }

    method IssueCode(user: UserId, digits: string, now: int)
      modifies this`codes, this`next
      ensures View() == Issue(settings, old(View()), user, digits, now)
    {
      var recent := set c | c in codes && codes[c].user == user && codes[c].createdAt >= now - settings.window;
      assert recent == Recent(codes, user, now - settings.window);
      if |recent| >= settings.maxCodes {
        return;
      }
      codes := map c | c in codes ::
                 if codes[c].user == user && !codes[c].used then codes[c].(used := true) else codes[c];
      codes := codes[next := Code(user, digits, now, now + settings.ttl, 0, false)];
      next := next + 1;
    }

    method WrongCodesToday(user: UserId, now: int) returns (wrong: nat)
      ensures wrong == WrongToday(codes, user, now)
    {
      wrong := 0;
      var rest := set c | c in codes && codes[c].user == user && codes[c].createdAt >= now - DAY;
      assert rest == Recent(codes, user, now - DAY);
      while exists c :: c in rest
        invariant rest <= codes.Keys
        invariant wrong + Sum(rest, Attempts(codes)) == WrongToday(codes, user, now)
        decreases |rest|
      {
        var c :| c in rest;
        SumTakeOut(rest, Attempts(codes), c);
        wrong, rest := wrong + codes[c].attempts, rest - {c};
      }
      assert rest == {};
    }

    method RedeemCode(user: UserId, typed: string, now: int, consume: bool) returns (valid: bool)
      modifies this`codes
      ensures (View(), valid) == Redeem(settings, old(View()), user, typed, now, consume)
    {
      var guess := Strip(typed);
      var chosen := if WellFormed(guess) then Chosen(codes, user) else None;
      if chosen.None? {
        return false;
      }
      var row := codes[chosen.value];
      var wrong := WrongCodesToday(user, now);
      var live := now < row.expiresAt && row.attempts < settings.maxAttempts && wrong < settings.maxWrongPerDay;
      valid := live && row.digits == guess;
      if valid {
        if consume {
          codes := codes[chosen.value := row.(used := true)];
        }
      } else if live {
        var attempts := row.attempts + 1;
        var burnt := attempts >= settings.maxAttempts;
        codes := codes[chosen.value := row.(attempts := attempts, used := burnt)];
      }
    }
  }
}
