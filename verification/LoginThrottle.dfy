/** Brute-force limits on password checks (services/login_throttle.py): what is counted, who has to
    wait and for how long, and what bound on failures that gives when attempts overlap. */
module LoginThrottle {
  import opened Collections
  import opened Text

  type Key = string
  type Thread = nat
  type AttemptId = nat

  /** Times in microseconds (DATETIME(6)). */
  const SECOND: nat := 1_000_000
  const MINUTE: nat := 60 * SECOND
  const RETENTION: nat := 30 * 24 * 60 * 60 * SECOND

  datatype Settings = Settings(
    window: nat, accountMax: nat, deviceMax: nat, addressMax: nat, floodMax: nat, captchaAccount: nat,
        captchaAddress: nat)

  datatype Caller = Caller(account: Key, ip: Option<string>, device: Option<string>)

  datatype Attempt = Attempt(caller: Caller, success: bool, at: int)

  /** Every attempt ever recorded, and the rows of them that retention has left in the table. */
  datatype Log = Log(rows: map<AttemptId, Attempt>, stored: set<AttemptId>, next: AttemptId)

  /** What failures are counted together. */
  datatype Scope =
    | Account(account: Key)
    | Device(account: Key, device: string)
    | Nameless(account: Key, ip: Option<string>)      // no device id sent
    | Address(ip: Option<string>)

  predicate Matches(scope: Scope, caller: Caller) {
    match scope
    case Account(u) => caller.account == u
    case Device(u, d) => caller.account == u && caller.device == Some(d)
    case Nameless(u, ip) => caller.account == u && caller.device == None && caller.ip == ip
    case Address(ip) => caller.ip == ip
  }

  function PairOf(caller: Caller): Scope {
    if caller.device.Some? then Device(caller.account, caller.device.value) else Nameless(caller.account, caller.ip)
  }

  /** A successful login wipes the account's slate, never the address's. */
  predicate Resets(scope: Scope, a: Attempt) {
    a.success && !scope.Address? && a.caller.account == scope.account
  }

  function Limit(s: Settings, scope: Scope, captcha: bool): nat {
    match scope
    case Account(_) => s.accountMax
    case Device(_, _) => s.deviceMax
    case Nameless(_, _) => s.deviceMax
    case Address(_) => if captcha then s.floodMax else s.addressMax
  }

  // -------------------------------------------------------------- assessing

  predicate Forgiven(l: Log, scope: Scope, start: int, at: int) {
    exists j :: j in l.rows && j in l.stored && Resets(scope, l.rows[j]) && start <= l.rows[j].at && at <= l.rows[j].at
  }

  /** The failures that count at `now`: in the window and after the last success in it. */
  function Counted(s: Settings, l: Log, scope: Scope, now: int): set<AttemptId> {
    set i | i in l.rows && i in l.stored && !l.rows[i].success && Matches(scope, l.rows[i].caller)
            && (if scope.Address? then now - s.window <= l.rows[i].at else now - s.window < l.rows[i].at)
            && !Forgiven(l, scope, now - s.window, l.rows[i].at)
  }

  predicate IsOldest(l: Log, counted: set<AttemptId>, t: int) {
    && (exists i :: i in counted && i in l.rows && l.rows[i].at == t)
    && (forall i :: i in counted && i in l.rows ==> t <= l.rows[i].at)
  }

  /** `_wait_seconds` when there is an oldest failure. */
  function WaitSeconds(oldest: int, s: Settings, now: int): nat {
    var left := oldest + s.window - now;
    var seconds := if left < 0 then 0 else left / SECOND;
    if seconds < 1 then 1 else seconds
  }

  predicate Full(s: Settings, l: Log, scope: Scope, captcha: bool, now: int) {
    |Counted(s, l, scope, now)| >= Limit(s, scope, captcha)
  }

  predicate Blocked(s: Settings, l: Log, caller: Caller, captcha: bool, now: int) {
    || Full(s, l, Account(caller.account), captcha, now)
    || Full(s, l, PairOf(caller), captcha, now)
    || Full(s, l, Address(caller.ip), captcha, now)
  }

  // ------------------------------------------------------------------ runs

  /** The attempts assessed and not yet recorded, and the clock. */
  datatype System = System(log: Log, flights: map<Thread, Caller>, clock: int)

  datatype Event =
    | Assess(i: Thread, caller: Caller, captcha: bool, after: nat)
    | Record(i: Thread, success: bool, after: nat, gone: set<AttemptId>)
    | Succeed(caller: Caller, after: nat)                    // a reset code also clears the account
    | Abandon(i: Thread)
    | Purge(after: nat, gone: set<AttemptId>)                // the daily clean-up

  function Recorded(l: Log, a: Attempt, gone: set<AttemptId>): Log {
    var l' := Log(l.rows[l.next := a], l.stored + {l.next}, l.next + 1);
    Purged(l', gone, a.at)
  }

  /** Rows past retention are deleted. */
  function Purged(l: Log, gone: set<AttemptId>, now: int): Log {
    l.(stored := set i | i in l.stored && !(i in gone && i in l.rows && l.rows[i].at < now - RETENTION))
  }

  function Next(s: Settings, y: System, e: Event): System {
    match e
    case Assess(i, caller, captcha, after) =>
      var y' := y.(clock := y.clock + after);
      if i in y.flights || Blocked(s, y.log, caller, captcha, y'.clock) then y'
      else y'.(flights := y.flights[i := caller])
    case Record(i, success, after, gone) =>
      if i !in y.flights then y
      else
        var at := y.clock + after;
        System(Recorded(y.log, Attempt(y.flights[i], success, at), gone), y.flights - {i}, at)
    case Succeed(caller, after) =>
      System(Recorded(y.log, Attempt(caller, true, y.clock + after), {}), y.flights, y.clock + after)
    case Abandon(i) => y.(flights := y.flights - {i})
    case Purge(after, gone) => System(Purged(y.log, gone, y.clock + after), y.flights, y.clock + after)
  }

  function Run(s: Settings, y: System, events: seq<Event>): System
    decreases |events|
  {
    if events == [] then y else Run(s, Next(s, y, events[0]), events[1..])
  }

  function InFlight(flights: map<Thread, Caller>, scope: Scope): set<Thread> {
    set i | i in flights && Matches(scope, flights[i])
  }

  /** Never more than k attempts of the scope between assessing and recording. */
  predicate AtMost(s: Settings, k: nat, scope: Scope, y: System, events: seq<Event>)
    decreases |events|
  {
    |InFlight(y.flights, scope)| <= k && (events != [] ==> AtMost(s, k, scope, Next(s, y, events[0]), events[1..]))
  }

  // ------------------------------------------------------------- the bound

  /** The failures later than `start` and no later than `start` plus the window. */
  function Failures(s: Settings, l: Log, scope: Scope, start: int): set<AttemptId> {
    set i | i in l.rows && !l.rows[i].success && Matches(scope, l.rows[i].caller)
        && start < l.rows[i].at <= start + s.window
  }

  predicate Unbroken(s: Settings, l: Log, scope: Scope, start: int) {
    forall j :: j in l.rows && start < l.rows[j].at <= start + s.window ==> !Resets(scope, l.rows[j])
  }

  function Most(s: Settings, scope: Scope): nat {
    if Limit(s, scope, true) > Limit(s, scope, false) then Limit(s, scope, true) else Limit(s, scope, false)
  }

  ghost predicate LogOk(y: System) {
    && (forall i :: i in y.log.rows ==> i < y.log.next && y.log.rows[i].at <= y.clock)
    && y.log.stored <= y.log.rows.Keys
    && (forall i :: i in y.log.rows && i !in y.log.stored ==> y.log.rows[i].at < y.clock - RETENTION)
  }

  /** Failures in a window still open may be joined by those in flight. */
  function Joining(s: Settings, y: System, scope: Scope, start: int): nat {
    if y.clock <= start + s.window then |InFlight(y.flights, scope)| else 0
  }

  ghost predicate WindowFits(s: Settings, k: nat, scope: Scope, y: System, start: int) {
    Unbroken(s, y.log, scope, start) ==>
      |Failures(s, y.log, scope, start)| + Joining(s, y, scope, start) <= Most(s, scope) - 1 + k
  }

  ghost predicate Inv(s: Settings, k: nat, scope: Scope, y: System) {
    LogOk(y) && |InFlight(y.flights, scope)| <= k && forall start: int :: WindowFits(s, k, scope, y, start)
  }

  lemma NothingForgiven(s: Settings, y: System, scope: Scope, start: int, since: int, at: int)
    requires LogOk(y) && Unbroken(s, y.log, scope, start) && y.clock <= start + s.window && start < at
    ensures !Forgiven(y.log, scope, since, at)
  {
    var l := y.log;
    forall j | j in l.rows && at <= l.rows[j].at ensures !Resets(scope, l.rows[j]) {
      assert start < l.rows[j].at <= start + s.window;
    }
  }

  /** A window without a success that is still open holds nothing that is not counted. */
  lemma OpenWindowCounted(s: Settings, y: System, scope: Scope, start: int)
    requires LogOk(y) && s.window <= RETENTION
    requires Unbroken(s, y.log, scope, start) && y.clock <= start + s.window
    ensures |Failures(s, y.log, scope, start)| <= |Counted(s, y.log, scope, y.clock)|
  {
    forall i | i in Failures(s, y.log, scope, start) ensures i in Counted(s, y.log, scope, y.clock) {
      NothingForgiven(s, y, scope, start, y.clock - s.window, y.log.rows[i].at);
    }
    SubsetSize(Failures(s, y.log, scope, start), Counted(s, y.log, scope, y.clock));
  }

  lemma WaitingKeeps(s: Settings, k: nat, scope: Scope, y: System, clock: int)
    requires Inv(s, k, scope, y) && y.clock <= clock
    ensures Inv(s, k, scope, y.(clock := clock))
  {
    forall start: int ensures WindowFits(s, k, scope, y.(clock := clock), start) {
      assert WindowFits(s, k, scope, y, start);
    }
  }

  lemma AdmittedFits(s: Settings, y: System, caller: Caller, captcha: bool, scope: Scope)
    requires !Blocked(s, y.log, caller, captcha, y.clock) && Matches(scope, caller)
    ensures |Counted(s, y.log, scope, y.clock)| < Most(s, scope)
  {
    assert scope == Account(caller.account) || scope == PairOf(caller) || scope == Address(caller.ip);
  }

  lemma AdmissionKeeps(s: Settings, k: nat, scope: Scope, y: System, i: Thread, caller: Caller, captcha: bool)
    requires Inv(s, k, scope, y) && s.window <= RETENTION
    requires i !in y.flights && !Blocked(s, y.log, caller, captcha, y.clock)
    requires |InFlight(y.flights[i := caller], scope)| <= k
    ensures Inv(s, k, scope, y.(flights := y.flights[i := caller]))
  {
    var y' := y.(flights := y.flights[i := caller]);
    forall start: int ensures WindowFits(s, k, scope, y', start) {
      assert WindowFits(s, k, scope, y, start);
      if Matches(scope, caller) {
        if Unbroken(s, y.log, scope, start) && y.clock <= start + s.window {
          OpenWindowCounted(s, y, scope, start);
          AdmittedFits(s, y, caller, captcha, scope);
        }
      } else {
        assert InFlight(y'.flights, scope) == InFlight(y.flights, scope);
      }
    }
  }

  lemma LandingKeeps(s: Settings, k: nat, scope: Scope, y: System, i: Thread)
    requires Inv(s, k, scope, y)
    ensures Inv(s, k, scope, y.(flights := y.flights - {i}))
  {
    var y' := y.(flights := y.flights - {i});
    SubsetSize(InFlight(y'.flights, scope), InFlight(y.flights, scope));
    forall start: int ensures WindowFits(s, k, scope, y', start) { assert WindowFits(s, k, scope, y, start); }
  }

  lemma StillUnbroken(s: Settings, l: Log, a: Attempt, gone: set<AttemptId>, scope: Scope, start: int)
    requires l.next !in l.rows && Unbroken(s, Recorded(l, a, gone), scope, start)
    ensures Unbroken(s, l, scope, start)
  {
    var l' := Recorded(l, a, gone);
    forall j | j in l.rows && start < l.rows[j].at <= start + s.window ensures !Resets(scope, l.rows[j]) {
      assert l'.rows[j] == l.rows[j];
    }
  }

  lemma OneMoreFailure(s: Settings, l: Log, l': Log, a: Attempt, scope: Scope, start: int)
    requires l.next !in l.rows && l'.rows == l.rows[l.next := a]
    ensures |Failures(s, l', scope, start)| ==
      |Failures(s, l, scope, start)|
      + if !a.success && Matches(scope, a.caller) && start < a.at <= start + s.window then 1 else 0
  {
    hide Matches;
    var was, now := Failures(s, l, scope, start), Failures(s, l', scope, start);
    if l.next in now {
      assert now == was + {l.next};
    } else {
      assert now == was;
    }
  }

  /** A failure leaves the flight it was in; a success only ever breaks windows. */
  lemma RecordWindow(s: Settings, k: nat, scope: Scope, y: System, a: Attempt, gone: set<AttemptId>,
      flights: map<Thread, Caller>, start: int)
    requires LogOk(y) && a.at == y.clock && WindowFits(s, k, scope, y, start)
    requires |InFlight(flights, scope)| + (if !a.success && Matches(scope, a.caller) then 1 else 0) <=
      |InFlight(y.flights, scope)|
    ensures WindowFits(s, k, scope, System(Recorded(y.log, a, gone), flights, y.clock), start)
  {
    OneMoreFailure(s, y.log, Recorded(y.log, a, gone), a, scope, start);
    if Unbroken(s, Recorded(y.log, a, gone), scope, start) { StillUnbroken(s, y.log, a, gone, scope, start); }
    hide Unbroken, Failures, Recorded, InFlight, Matches;
  }

  lemma RecordKeeps(s: Settings, k: nat, scope: Scope, y: System, a: Attempt, gone: set<AttemptId>,
      flights: map<Thread, Caller>)
    requires Inv(s, k, scope, y) && a.at == y.clock
    requires |InFlight(flights, scope)| + (if !a.success && Matches(scope, a.caller) then 1 else 0) <=
      |InFlight(y.flights, scope)|
    ensures Inv(s, k, scope, System(Recorded(y.log, a, gone), flights, y.clock))
  {
    forall start: int ensures WindowFits(s, k, scope, System(Recorded(y.log, a, gone), flights, y.clock), start) {
      assert WindowFits(s, k, scope, y, start);
      RecordWindow(s, k, scope, y, a, gone, flights, start);
    }
  }

  lemma OneLess(flights: map<Thread, Caller>, i: Thread, scope: Scope)
    requires i in flights
    ensures |InFlight(flights - {i}, scope)| + (if Matches(scope, flights[i]) then 1 else 0) ==
        |InFlight(flights, scope)|
  {
    hide Matches;
    if Matches(scope, flights[i]) {
      assert InFlight(flights, scope) == InFlight(flights - {i}, scope) + {i};
    } else {
      assert InFlight(flights, scope) == InFlight(flights - {i}, scope);
    }
  }

  lemma LandedKeeps(s: Settings, k: nat, scope: Scope, y: System, i: Thread, success: bool, gone: set<AttemptId>)
    requires Inv(s, k, scope, y) && i in y.flights
    ensures Inv(s, k, scope, System(Recorded(y.log, Attempt(y.flights[i], success, y.clock), gone), y.flights - {i},
        y.clock))
  {
    hide Inv, InFlight, Matches;
    OneLess(y.flights, i, scope);
    RecordKeeps(s, k, scope, y, Attempt(y.flights[i], success, y.clock), gone, y.flights - {i});
  }

  /** What happened does not change when rows of it are deleted. */
  lemma PurgeKeeps(s: Settings, k: nat, scope: Scope, y: System, gone: set<AttemptId>)
    requires Inv(s, k, scope, y)
    ensures Inv(s, k, scope, y.(log := Purged(y.log, gone, y.clock)))
  {
    var y' := y.(log := Purged(y.log, gone, y.clock));
    forall start: int ensures WindowFits(s, k, scope, y', start) {
      assert WindowFits(s, k, scope, y, start);
      assert Failures(s, y'.log, scope, start) == Failures(s, y.log, scope, start);
    }
  }

  lemma NextKeeps(s: Settings, k: nat, scope: Scope, y: System, e: Event)
    requires Inv(s, k, scope, y) && s.window <= RETENTION
    requires |InFlight(Next(s, y, e).flights, scope)| <= k
    ensures Inv(s, k, scope, Next(s, y, e))
  {
    hide Inv, Blocked, Recorded, Purged, InFlight;
    match e
    case Assess(i, caller, captcha, after) =>
      WaitingKeeps(s, k, scope, y, y.clock + after);
      if !(i in y.flights || Blocked(s, y.log, caller, captcha, y.clock + after)) {
        AdmissionKeeps(s, k, scope, y.(clock := y.clock + after), i, caller, captcha);
      }
    case Record(i, success, after, gone) =>
      if i in y.flights {
        WaitingKeeps(s, k, scope, y, y.clock + after);
        LandedKeeps(s, k, scope, y.(clock := y.clock + after), i, success, gone);
      }
    case Succeed(caller, after) =>
      WaitingKeeps(s, k, scope, y, y.clock + after);
      RecordKeeps(s, k, scope, y.(clock := y.clock + after), Attempt(caller, true, y.clock + after), {}, y.flights);
    case Abandon(i) => LandingKeeps(s, k, scope, y, i);
    case Purge(after, gone) =>
      WaitingKeeps(s, k, scope, y, y.clock + after);
      PurgeKeeps(s, k, scope, y.(clock := y.clock + after), gone);
  }

  lemma {:induction false} RunKeeps(s: Settings, k: nat, scope: Scope, y: System, events: seq<Event>)
    requires Inv(s, k, scope, y) && s.window <= RETENTION && AtMost(s, k, scope, y, events)
    ensures Inv(s, k, scope, Run(s, y, events))
    decreases |events|
  {
    hide Inv, Next;
    if events != [] {
      assert AtMost(s, k, scope, Next(s, y, events[0]), events[1..]);
      NextKeeps(s, k, scope, y, events[0]);
      RunKeeps(s, k, scope, Next(s, y, events[0]), events[1..]);
    }
  }

  /** With at most k attempts overlapping, no half-open window without a success holds more than
      limit - 1 + k failures of an account, of a device on it, or of an address. */
  lemma FailuresBounded(s: Settings, k: nat, scope: Scope, clock: int, events: seq<Event>, start: int)
    requires s.window <= RETENTION && Limit(s, scope, false) >= 1
    requires AtMost(s, k, scope, System(Log(map[], {}, 0), map[], clock), events)
    ensures var l := Run(s, System(Log(map[], {}, 0), map[], clock), events).log;
      Unbroken(s, l, scope, start) ==> |Failures(s, l, scope, start)| <= Most(s, scope) - 1 + k
  {
    var y := System(Log(map[], {}, 0), map[], clock);
    forall from: int ensures WindowFits(s, k, scope, y, from) {
      assert Failures(s, y.log, scope, from) == {} && InFlight(y.flights, scope) == {};
    }
    RunKeeps(s, k, scope, y, events);
    assert WindowFits(s, k, scope, Run(s, y, events), start);
  }

  // ------------------------------------------------- one guess after the other

  /** What the settings can be: whole minutes, and limits of at least one. */
  predicate Receivable(s: Settings) {
    && s.window % MINUTE == 0 && s.window > 0
    && s.accountMax >= 1 && s.deviceMax >= 1 && s.addressMax >= 1 && s.floodMax >= 1
  }

  function Start(): System {
    System(Log(map[], {}, 0), map[], 1)
  }

  /** The n-th guess at one account, each from another device and address. */
  function Guess(n: nat, at: int): Attempt {
    Attempt(Caller("a", Some(Show(n)), Some(Show(n))), false, at)
  }

  function Guesses(n: nat): Log {
    Log(map i | i in Below(n) :: Guess(i, 1), Below(n), n)
  }

  /** None of the failures on record counts against a caller but those of the account. */
  lemma NotBlockedBy(s: Settings, l: Log, caller: Caller, now: int)
    requires Receivable(s) && |Counted(s, l, Account(caller.account), now)| < s.accountMax
    requires caller.device.Some? && forall i :: i in l.rows && i in l.stored ==>
      l.rows[i].caller.device != caller.device && l.rows[i].caller.ip != caller.ip
    ensures !Blocked(s, l, caller, false, now)
  {
    assert Counted(s, l, PairOf(caller), now) == {};
    assert Counted(s, l, Address(caller.ip), now) == {};
  }

  /** Any later guess is let in as long as the account has room. */
  lemma GuessLetIn(s: Settings, n: nat, m: nat)
    requires Receivable(s) && n < s.accountMax && n <= m
    ensures !Blocked(s, Guesses(n), Guess(m, 1).caller, false, 1)
  {
    var l, caller := Guesses(n), Guess(m, 1).caller;
    BelowSize(n);
    SubsetSize(Counted(s, l, Account("a"), 1), Below(n));
    forall i | i in l.rows ensures l.rows[i].caller.device != caller.device && l.rows[i].caller.ip != caller.ip {
      ReadShow(i);
      ReadShow(m);
    }
    hide Blocked, Counted;
    NotBlockedBy(s, l, caller, 1);
  }

  lemma OneGuessMore(n: nat)
    ensures Recorded(Guesses(n), Guess(n, 1), {}) == Guesses(n + 1)
  {
  }

  function Flying(j: nat, m: nat): (flights: map<Thread, Caller>)
    ensures forall i: Thread :: i in flights <==> j <= i < m
    ensures forall i :: i in flights ==> flights[i] == Guess(i, 1).caller
  {
    if m <= j then map[] else Flying(j, m - 1)[m - 1 := Guess(m - 1, 1).caller]
  }

  /** Guesses j to m - 1 have been let in, those before j have failed. */
  function Racing(j: nat, m: nat): System {
    System(Guesses(j), Flying(j, m), 1)
  }

  lemma FewFly(k: nat, scope: Scope, j: nat, m: nat)
    requires j <= m <= j + k
    ensures |InFlight(Racing(j, m).flights, scope)| <= k
  {
    hide Matches, Guess;
    RangeSize(j, m);
    SubsetSize(InFlight(Flying(j, m), scope), Below(m) - Below(j));
  }

  function LetIn(m: nat): Event {
    Assess(m, Guess(m, 1).caller, false, 0)
  }

  lemma GuessJoins(s: Settings, j: nat, m: nat)
    requires Receivable(s) && j <= m && j < s.accountMax
    ensures Next(s, Racing(j, m), LetIn(m)) == Racing(j, m + 1)
  {
    GuessLetIn(s, j, m);
    hide Blocked, Guesses, Show;
  }

  lemma GuessFails(s: Settings, j: nat, m: nat)
    requires j < m
    ensures Next(s, Racing(j, m), Record(j, false, 0, {})) == Racing(j + 1, m)
  {
    hide Guesses, Recorded, Show;
    OneGuessMore(j);
    assert Flying(j, m) - {j} == Flying(j + 1, m);
  }

  lemma OneMore(s: Settings, k: nat, scope: Scope, y: System, e: Event, y': System, rest: seq<Event>)
    requires Next(s, y, e) == y' && |InFlight(y.flights, scope)| <= k
    ensures Run(s, y, [e] + rest) == Run(s, y', rest)
    ensures AtMost(s, k, scope, y', rest) ==> AtMost(s, k, scope, y, [e] + rest)
  {
    hide Next;
    assert ([e] + rest)[1..] == rest;
  }

  /** One guess after the other, from the j-th to before the n-th. */
  lemma {:induction false} KeepGuessing(s: Settings, k: nat, scope: Scope, j: nat, n: nat, rest: seq<Event>)
    returns (events: seq<Event>)
    requires Receivable(s) && k >= 1 && j <= n <= s.accountMax
    ensures Run(s, Racing(j, j), events) == Run(s, Racing(n, n), rest)
    ensures AtMost(s, k, scope, Racing(n, n), rest) ==> AtMost(s, k, scope, Racing(j, j), events)
    decreases n - j
  {
    hide Next, Run, AtMost, Racing, LetIn;
    if j == n {
      events := rest;
    } else {
      var later := KeepGuessing(s, k, scope, j + 1, n, rest);
      FewFly(k, scope, j, j);
      FewFly(k, scope, j, j + 1);
      GuessJoins(s, j, j);
      GuessFails(s, j, j + 1);
      var fail := Record(j, false, 0, {});
      OneMore(s, k, scope, Racing(j, j + 1), fail, Racing(j + 1, j + 1), later);
      OneMore(s, k, scope, Racing(j, j), LetIn(j), Racing(j, j + 1), [fail] + later);
      events := [LetIn(j)] + ([fail] + later);
    }
  }

  // ------------------------------------------------------ the bound is met

  /** Whoever has been let in fails. */
  lemma {:induction false} AllFail(s: Settings, k: nat, scope: Scope, j: nat, m: nat) returns (events: seq<Event>)
    requires j <= m <= j + k
    ensures AtMost(s, k, scope, Racing(j, m), events) && Run(s, Racing(j, m), events) == Racing(m, m)
    decreases m - j
  {
    FewFly(k, scope, j, m);
    hide Next, Racing;
    if j == m {
      events := [];
    } else {
      var rest := AllFail(s, k, scope, j + 1, m);
      GuessFails(s, j, m);
      OneMore(s, k, scope, Racing(j, m), Record(j, false, 0, {}), Racing(j + 1, m), rest);
      events := [Record(j, false, 0, {})] + rest;
    }
  }

  /** k guesses are let in before any fails. */
  lemma {:induction false} AllLetIn(s: Settings, k: nat, scope: Scope, j: nat, m: nat) returns (events: seq<Event>)
    requires Receivable(s) && j <= m <= j + k && j < s.accountMax
    ensures AtMost(s, k, scope, Racing(j, m), events) && Run(s, Racing(j, m), events) == Racing(j + k, j + k)
    decreases j + k - m
  {
    hide Next, Run, AtMost, Racing, LetIn;
    if m == j + k {
      events := AllFail(s, k, scope, j, m);
    } else {
      var rest := AllLetIn(s, k, scope, j, m + 1);
      FewFly(k, scope, j, m);
      GuessJoins(s, j, m);
      OneMore(s, k, scope, Racing(j, m), LetIn(m), Racing(j, m + 1), rest);
      events := [LetIn(m)] + rest;
    }
  }

  /** Everything on record is a failure of the account, at one or later but inside the first window. */
  lemma AllInWindow(s: Settings, l: Log, later: int, n: nat)
    requires 1 <= later <= s.window && l.rows.Keys == Below(n + 1)
    requires forall i :: i in l.rows ==> l.rows[i] == Guess(i, if i < n then 1 else later)
    ensures Unbroken(s, l, Account("a"), 0) && |Failures(s, l, Account("a"), 0)| == n + 1
  {
    hide Show, Below;
    assert Failures(s, l, Account("a"), 0) == Below(n + 1);
    BelowSize(n + 1);
  }

  lemma RacingEnds(s: Settings, n: nat)
    requires Receivable(s) && n >= 1
    ensures Racing(0, 0) == Start() && Unbroken(s, Racing(n, n).log, Account("a"), 0)
    ensures |Failures(s, Racing(n, n).log, Account("a"), 0)| == n
  {
    assert Guesses(0) == Log(map[], {}, 0);
    hide Failures, Unbroken, Guess;
    AllInWindow(s, Guesses(n), 1, n - 1);
  }

  /** The bound of FailuresBounded is met: for every limit and every k, one guess after the other up to
      the limit but one, then k at once, and the account has limit - 1 + k failures in a window. */
  lemma BoundIsMet(s: Settings, k: nat) returns (events: seq<Event>)
    requires Receivable(s) && k >= 1
    ensures AtMost(s, k, Account("a"), Start(), events)
    ensures var l := Run(s, Start(), events).log;
      Unbroken(s, l, Account("a"), 0) && |Failures(s, l, Account("a"), 0)| == Most(s, Account("a")) - 1 + k
  {
    hide Run, AtMost, Racing, Guesses, Failures, Unbroken;
    RacingEnds(s, s.accountMax - 1 + k);
    events := AllLetIn(s, k, Account("a"), s.accountMax - 1, s.accountMax - 1);
    events := KeepGuessing(s, k, Account("a"), 0, s.accountMax - 1, events);
  }

  // ------------------------------------- windows longer than rows are kept

  /** One attempt that is let in and fails, with nobody else under way. */
  function Try(a: Attempt): seq<Event> {
    [Assess(0, a.caller, false, 0), Record(0, false, 0, {})]
  }

  lemma TryAndFail(s: Settings, l: Log, a: Attempt, rest: seq<Event>)
    requires !a.success && !Blocked(s, l, a.caller, false, a.at)
    ensures var y, y' := System(l, map[], a.at), System(Recorded(l, a, {}), map[], a.at);
      && Run(s, y, Try(a) + rest) == Run(s, y', rest)
      && forall scope: Scope :: AtMost(s, 1, scope, y', rest) ==> AtMost(s, 1, scope, y, Try(a) + rest)
  {
    hide Blocked, Recorded, Matches;
    var y := System(l, map[], a.at);
    var events := Try(a) + rest;
    assert events[1..][0] == Record(0, false, 0, {}) && events[1..][1..] == rest;
    var y1 := Next(s, y, events[0]);
    assert y1.flights == map[0 := a.caller] && y1.flights - {0} == map[] && Attempt(a.caller, false, a.at) == a;
    var y2 := Next(s, y1, events[1]);
    assert Run(s, y, events) == Run(s, y2, rest);
    forall scope: Scope | AtMost(s, 1, scope, y2, rest) ensures AtMost(s, 1, scope, y, events) {
      SubsetSize(InFlight(y1.flights, scope), {0});
      assert InFlight(y.flights, scope) == {};
      assert AtMost(s, 1, scope, y1, events[1..]);
    }
  }

  const LATER := RETENTION + 2

  /** The clean-up forgets them all, and one guess more is let in. */
  function Forgotten(n: nat): Log {
    Guesses(n).(stored := {})
  }

  lemma ForgottenLetIn(s: Settings, n: nat)
    requires Receivable(s)
    ensures Purged(Guesses(n), Below(n), LATER) == Forgotten(n)
    ensures !Blocked(s, Forgotten(n), Guess(n, LATER).caller, false, LATER)
  {
    assert Counted(s, Forgotten(n), Account("a"), LATER) == {};
    hide Blocked, Counted;
    NotBlockedBy(s, Forgotten(n), Guess(n, LATER).caller, LATER);
  }

  ghost predicate TooMany(s: Settings, l: Log) {
    Unbroken(s, l, Account("a"), 0) && |Failures(s, l, Account("a"), 0)| > Most(s, Account("a")) - 1 + 1
  }

  lemma AllOnRecord(n: nat)
    ensures var l := Recorded(Forgotten(n), Guess(n, LATER), {});
      l.rows.Keys == Below(n + 1) && forall i :: i in l.rows ==> l.rows[i] == Guess(i, if i < n then 1 else LATER)
  {
    hide Show, Guess;
  }

  lemma OneTooMany(s: Settings)
    requires Receivable(s) && s.window > RETENTION
    ensures TooMany(s, Recorded(Forgotten(s.accountMax), Guess(s.accountMax, LATER), {}))
  {
    hide Recorded, Forgotten, Below, Guess, Failures, Unbroken;
    WholeMinutes(s);
    AllOnRecord(s.accountMax);
    AllInWindow(s, Recorded(Forgotten(s.accountMax), Guess(s.accountMax, LATER), {}), LATER, s.accountMax);
  }

  lemma WholeMinutes(s: Settings)
    requires Receivable(s) && s.window > RETENTION
    ensures s.window >= RETENTION + MINUTE
  {
    assert RETENTION % MINUTE == 0;
    assert s.window / MINUTE > RETENTION / MINUTE;
  }

  /** In a window longer than rows are kept, failures are forgotten while they should still count: an
      account's whole limit, the clean-up, and one more in the same window, nothing overlapping. */
  lemma LongWindowForgets(s: Settings) returns (events: seq<Event>)
    requires Receivable(s) && s.window > RETENTION
    ensures TooMany(s, Run(s, Start(), events).log) && AtMost(s, 1, Account("a"), Start(), events)
  {
    var n := s.accountMax;
    var a := Guess(n, LATER);
    var purge := Purge(RETENTION + 1, Below(n));
    ForgottenLetIn(s, n);
    OneTooMany(s);
    assert Guesses(0) == Log(map[], {}, 0);
    var full, forgotten := System(Guesses(n), map[], 1), System(Forgotten(n), map[], LATER);
    assert Next(s, full, purge) == forgotten;
    hide Blocked, Recorded, TooMany, Guesses, Forgotten, Try, Purged;
    TryAndFail(s, Forgotten(n), a, []);
    var last := Try(a) + [];
    RunNothing(s, System(Recorded(Forgotten(n), a, {}), map[], LATER));
    assert AtMost(s, 1, Account("a"), forgotten, last);
    PurgeFirst(s, full, purge, last);
    hide Next, Run, AtMost;
    events := KeepGuessing(s, 1, Account("a"), 0, n, [purge] + last);
  }

  lemma PurgeFirst(s: Settings, y: System, e: Event, rest: seq<Event>)
    requires y.flights == map[] && AtMost(s, 1, Account("a"), Next(s, y, e), rest)
    ensures Run(s, y, [e] + rest) == Run(s, Next(s, y, e), rest) && AtMost(s, 1, Account("a"), y, [e] + rest)
  {
    hide Next;
    assert ([e] + rest)[1..] == rest && InFlight(y.flights, Account("a")) == {};
  }

  lemma RunNothing(s: Settings, y: System)
    requires y.flights == map[]
    ensures Run(s, y, []) == y && forall scope: Scope :: AtMost(s, 1, scope, y, [])
  {
    forall scope: Scope ensures InFlight(y.flights, scope) == {} {}
  }

  ghost predicate Bounded(s: Settings, k: nat, scope: Scope, clock: int, events: seq<Event>, start: int) {
    var y := System(Log(map[], {}, 0), map[], clock);
    AtMost(s, k, scope, y, events) && Unbroken(s, Run(s, y, events).log, scope, start) ==>
      |Failures(s, Run(s, y, events).log, scope, start)| <= Most(s, scope) - 1 + k
  }

  /** So for every setting there can be, the bound holds in every run exactly when the window is no
      longer than rows are kept. */
  lemma BoundedIff(s: Settings)
    requires Receivable(s)
    ensures s.window <= RETENTION <==>
      forall k: nat, scope: Scope, clock: int, events: seq<Event>, start: int ::
        Bounded(s, k, scope, clock, events, start)
  {
    if s.window <= RETENTION {
      forall k: nat, scope: Scope, clock: int, events: seq<Event>, start: int
        ensures Bounded(s, k, scope, clock, events, start)
      {
        var y := System(Log(map[], {}, 0), map[], clock);
        hide Run, AtMost;
        if AtMost(s, k, scope, y, events) { FailuresBounded(s, k, scope, clock, events, start); }
      }
    } else {
      var events := LongWindowForgets(s);
      hide Run, AtMost;
      assert !Bounded(s, 1, Account("a"), 1, events, 0);
    }
  }

  // --------------------------------------------------- what counts, spelled out

  /** A stored failure counts against an account, or a device on it, while it is younger than the window
      and later than every stored success of the account in the window; against an address while it is
      in the window, whatever succeeded since. */
  lemma CountedIff(s: Settings, l: Log, scope: Scope, now: int, i: AttemptId)
    requires i in l.rows && i in l.stored
    ensures var a, start := l.rows[i], now - s.window;
      i in Counted(s, l, scope, now) <==>
        && !a.success && Matches(scope, a.caller)
        && if scope.Address? then start <= a.at
           else
             && start < a.at
             && forall j :: j in l.rows && j in l.stored && l.rows[j].success && start <= l.rows[j].at ==>
                  l.rows[j].caller.account == scope.account ==> l.rows[j].at < a.at
  {
  }

  /** Who is counted with whom: everybody at the account, the same device there (or, without one, the same
      address), everybody at the address. */
  lemma CountedWith(caller: Caller, other: Caller)
    ensures Matches(Account(caller.account), other) <==> other.account == caller.account
    ensures Matches(Address(caller.ip), other) <==> other.ip == caller.ip
    ensures Matches(PairOf(caller), other) <==>
      && other.account == caller.account && other.device == caller.device
      && (caller.device == None ==> other.ip == caller.ip)
  {
  }

  /** A caller is held back by a full account, a full device or a full address; the limit of an address is
      the flood limit for apps that can show a captcha. */
  lemma BlockedIff(s: Settings, l: Log, caller: Caller, captcha: bool, now: int)
    ensures Blocked(s, l, caller, captcha, now) <==>
      || |Counted(s, l, Account(caller.account), now)| >= s.accountMax
      || |Counted(s, l, PairOf(caller), now)| >= s.deviceMax
      || |Counted(s, l, Address(caller.ip), now)| >= if captcha then s.floodMax else s.addressMax
  {
    hide Counted;
  }

  /** The wait is what is left of the window of the oldest failure in whole seconds, one at least. */
  lemma WaitIsRest(oldest: int, s: Settings, now: int)
    ensures var left, wait := oldest + s.window - now, WaitSeconds(oldest, s, now);
      wait >= 1 && left < (wait + 1) * SECOND && (wait * SECOND <= left || wait == 1)
  {
  }

  /** An attempt is under way from the moment it is let in until it is recorded or given up. */
  lemma FlightsMove(s: Settings, y: System, e: Event, i: Thread)
    ensures i in Next(s, y, e).flights <==>
      || (e.Assess? && e.i == i && i !in y.flights && !Blocked(s, y.log, e.caller, e.captcha, y.clock + e.after))
      || (i in y.flights && !((e.Record? || e.Abandon?) && e.i == i))
    ensures i in y.flights && i in Next(s, y, e).flights ==> Next(s, y, e).flights[i] == y.flights[i]
  {
    hide Blocked, Recorded, Purged;
  }

  // ----------------------------------------------------------- Retry-After

  /** The number of seconds told to a caller who is blocked is the longest of the full scopes'. */
  ghost predicate Told(s: Settings, l: Log, caller: Caller, captcha: bool, now: int, retry: nat) {
    forall scope, oldest :: scope in Scopes(caller) && Full(s, l, scope, captcha, now) ==>
      IsOldest(l, Counted(s, l, scope, now), oldest) ==> retry >= WaitSeconds(oldest, s, now)
  }

  /** And no longer than one of theirs. */
  ghost predicate Longest(s: Settings, l: Log, caller: Caller, captcha: bool, now: int, retry: nat) {
    exists scope, oldest :: scope in Scopes(caller) && WaitsFor(s, l, scope, captcha, now, oldest, retry)
  }

  predicate WaitsFor(s: Settings, l: Log, scope: Scope, captcha: bool, now: int, oldest: int, retry: nat) {
    && Full(s, l, scope, captcha, now) && IsOldest(l, Counted(s, l, scope, now), oldest)
    && retry == WaitSeconds(oldest, s, now)
  }

  function Scopes(caller: Caller): set<Scope> {
    {Account(caller.account), PairOf(caller), Address(caller.ip)}
  }

  lemma {:induction false} OldestExists(l: Log, counted: set<AttemptId>) returns (t: int)
    requires counted <= l.rows.Keys && counted != {}
    ensures IsOldest(l, counted, t)
    decreases |counted|
  {
    var x :| x in counted;
    var rest := counted - {x};
    assert counted == rest + {x};
    if rest == {} {
      t := l.rows[x].at;
    } else {
      var u := OldestExists(l, rest);
      t := if u < l.rows[x].at then u else l.rows[x].at;
      if t == u {
        var i :| i in rest && l.rows[i].at == u;
        assert i in counted;
      }
    }
  }

  lemma ForgivenAlike(l: Log, scope: Scope, start: int, later: int, at: int)
    requires start <= later <= at
    ensures Forgiven(l, scope, start, at) <==> Forgiven(l, scope, later, at)
  {
  }

  /** As time passes nothing new counts. */
  lemma CountShrinks(s: Settings, l: Log, scope: Scope, now: int, later: int)
    requires now <= later
    ensures Counted(s, l, scope, later) <= Counted(s, l, scope, now)
  {
    forall i | i in Counted(s, l, scope, later) ensures i in Counted(s, l, scope, now) {
      ForgivenAlike(l, scope, now - s.window, later - s.window, l.rows[i].at);
    }
  }

  lemma FullScopeClears(s: Settings, l: Log, scope: Scope, captcha: bool, now: int, retry: nat, later: int)
    requires |Counted(s, l, scope, now)| <= Limit(s, scope, captcha) && Limit(s, scope, captcha) >= 1
    requires Full(s, l, scope, captcha, now) ==>
      exists oldest :: IsOldest(l, Counted(s, l, scope, now), oldest) && retry >= WaitSeconds(oldest, s, now)
    requires later >= now + (retry + 1) * SECOND
    ensures !Full(s, l, scope, captcha, later)
  {
    CountShrinks(s, l, scope, now, later);
    var before, after := Counted(s, l, scope, now), Counted(s, l, scope, later);
    if Full(s, l, scope, captcha, now) {
      var oldest :| IsOldest(l, before, oldest) && retry >= WaitSeconds(oldest, s, now);
      var i :| i in before && i in l.rows && l.rows[i].at == oldest;
      assert oldest + s.window < later;
      assert after <= before - {i};
      SubsetSize(after, before - {i});
    } else {
      SubsetSize(after, before);
    }
  }

  /** A caller blocked with no scope beyond its limit is let in again within a second after the
      time told, if nobody fails in between. */
  lemma RetryAfterIsHonest(s: Settings, l: Log, caller: Caller, captcha: bool, now: int, retry: nat, later: int)
    requires l.stored <= l.rows.Keys && Told(s, l, caller, captcha, now, retry)
    requires forall scope :: scope in Scopes(caller) ==>
      |Counted(s, l, scope, now)| <= Limit(s, scope, captcha) && Limit(s, scope, captcha) >= 1
    requires later >= now + (retry + 1) * SECOND
    ensures !Blocked(s, l, caller, captcha, later)
  {
    forall scope | scope in Scopes(caller) ensures !Full(s, l, scope, captcha, later) {
      if Full(s, l, scope, captcha, now) {
        var oldest := OldestExists(l, Counted(s, l, scope, now));
      }
      hide Full, Counted, WaitSeconds, IsOldest, Blocked;
      FullScopeClears(s, l, scope, captcha, now, retry, later);
    }
  }

  lemma {:induction false} TriesLeaveLog(s: Settings, y: System, tries: seq<Event>)
    requires forall e :: e in tries ==> e.Assess?
    ensures Run(s, y, tries).log == y.log
    decreases |tries|
  {
    hide Blocked;
    if tries != [] {
      assert tries[0] in tries && forall e :: e in tries[1..] ==> e in tries;
      TriesLeaveLog(s, Next(s, y, tries[0]), tries[1..]);
    }
  }

  /** Trying again while blocked costs nothing: whatever is tried meanwhile, the wait ends in time. */
  lemma TryingCostsNothing(s: Settings, y: System, tries: seq<Event>, caller: Caller, captcha: bool, retry: nat)
    requires LogOk(y) && Told(s, y.log, caller, captcha, y.clock, retry)
    requires forall scope :: scope in Scopes(caller) ==>
      |Counted(s, y.log, scope, y.clock)| <= Limit(s, scope, captcha) && Limit(s, scope, captcha) >= 1
    requires forall e :: e in tries ==> e.Assess?
    ensures var y' := Run(s, y, tries);
      y'.clock >= y.clock + (retry + 1) * SECOND ==> !Blocked(s, y'.log, caller, captcha, y'.clock)
  {
    TriesLeaveLog(s, y, tries);
    var y' := Run(s, y, tries);
    if y'.clock >= y.clock + (retry + 1) * SECOND {
      RetryAfterIsHonest(s, y.log, caller, captcha, y.clock, retry, y'.clock);
    }
  }

  // ----------------------------------------------- statement by statement

  datatype Verdict = Refused(retryAfter: nat) | Allowed(captchaRequired: bool)

  lemma StoredForgive(l: Log, l': Log, scope: Scope, start: int, at: int)
    requires l.stored <= l.rows.Keys && l'.rows == (map i | i in l.stored :: l.rows[i]) && l'.stored == l.stored
    ensures Forgiven(l', scope, start, at) <==> Forgiven(l, scope, start, at)
  {
    if Forgiven(l, scope, start, at) {
      var j :| j in l.rows && j in l.stored && Resets(scope, l.rows[j]) && start <= l.rows[j].at && at <= l.rows[j].at;
      assert j in l'.rows && l'.rows[j] == l.rows[j];
    }
  }

  /** What is counted depends on the rows in the table alone. */
  lemma StoredIsEnough(s: Settings, l: Log, scope: Scope, now: int)
    requires l.stored <= l.rows.Keys
    ensures var kept := map i | i in l.stored :: l.rows[i];
      Counted(s, Log(kept, kept.Keys, l.next), scope, now) == Counted(s, l, scope, now)
  {
    var kept := map i | i in l.stored :: l.rows[i];
    var l' := Log(kept, kept.Keys, l.next);
    forall i | i in l.stored ensures i in Counted(s, l', scope, now) <==> i in Counted(s, l, scope, now) {
      StoredForgive(l, l', scope, now - s.window, l.rows[i].at);
    }
  }

  class AttemptTable {
    const settings: Settings
    var rows: map<AttemptId, Attempt>
    var next: AttemptId

    constructor (settings: Settings)
      ensures this.settings == settings && View() == Log(map[], {}, 0)
    {
      this.settings, rows, next := settings, map[], 0;
    }

    function View(): Log
      reads this
    {
      Log(rows, rows.Keys, next)
    }

    /** SELECT MAX(created_at): a failure is forgiven exactly when it is not later. */
    method LastSuccess(account: Key, start: int) returns (last: Option<int>)
      ensures forall at: int, scope: Scope :: !scope.Address? && scope.account == account ==>
        (Forgiven(View(), scope, start, at) <==> last.Some? && at <= last.value)
      ensures last.Some? ==> last.value >= start
    {
      last := None;
      var todo := set j | j in rows && rows[j].success && rows[j].caller.account == account && rows[j].at >= start;
      var all := todo;
      while todo != {}
        invariant todo <= all <= rows.Keys
        invariant forall j :: j in all && j !in todo ==> last.Some? && rows[j].at <= last.value
        invariant last.Some? ==> exists j :: j in all && rows[j].at == last.value
        decreases |todo|
      {
        var j :| j in todo;
        todo := todo - {j};
        if last.None? || last.value < rows[j].at {
          last := Some(rows[j].at);
        }
      }
    }

    /** MIN(created_at). */
    method Oldest(counted: set<AttemptId>) returns (oldest: int)
      requires counted <= rows.Keys && counted != {}
      ensures IsOldest(View(), counted, oldest)
    {
      var first :| first in counted;
      oldest := rows[first].at;
      var todo := counted;
      while todo != {}
        invariant todo <= counted
        invariant exists i :: i in counted && rows[i].at == oldest
        invariant forall i :: i in counted && i !in todo ==> oldest <= rows[i].at
        decreases |todo|
      {
        var i :| i in todo;
        todo := todo - {i};
        if rows[i].at < oldest {
          oldest := rows[i].at;
        }
      }
    }

    method Count(scope: Scope, now: int) returns (counted: set<AttemptId>)
      ensures counted == Counted(settings, View(), scope, now)
    {
      var start := now - settings.window;
      if scope.Address? {
        counted := set i | i in rows && !rows[i].success && rows[i].caller.ip == scope.ip && rows[i].at >= start;
        assert forall at: int :: !Forgiven(View(), scope, start, at);
      } else {
        var last := LastSuccess(scope.account, start);
        var since := if last.Some? then last.value else start;
        counted := set i | i in rows && !rows[i].success && Matches(scope, rows[i].caller)
                           && rows[i].at >= start && rows[i].at > since;
      }
    }

    /** Makes the wait so far at least as long as this scope's, if it is full. */
    method Wait(scope: Scope, captcha: bool, now: int, soFar: Option<nat>) returns (wait: Option<nat>)
      requires Limit(settings, scope, captcha) >= 1
      ensures wait.Some? <==> soFar.Some? || Full(settings, View(), scope, captcha, now)
      ensures soFar.Some? ==> wait.value >= soFar.value
      ensures Full(settings, View(), scope, captcha, now) ==> forall oldest ::
        IsOldest(View(), Counted(settings, View(), scope, now), oldest) ==>
            wait.value >= WaitSeconds(oldest, settings, now)
      ensures wait.Some? ==>
        wait == soFar || exists oldest :: WaitsFor(settings, View(), scope, captcha, now, oldest, wait.value)
    {
      wait := soFar;
      var counted := Count(scope, now);
      if |counted| >= Limit(settings, scope, captcha) {
        var oldest := Oldest(counted);
        var seconds := WaitSeconds(oldest, settings, now);
        assert WaitsFor(settings, View(), scope, captcha, now, oldest, seconds);
        if wait.None? || wait.value < seconds {
          wait := Some(seconds);
        }
      }
    }

    method Assess(caller: Caller, captcha: bool, now: int) returns (verdict: Verdict)
      requires forall scope :: scope in Scopes(caller) ==> Limit(settings, scope, captcha) >= 1
      ensures verdict.Refused? <==> Blocked(settings, View(), caller, captcha, now)
      ensures verdict.Refused? ==> Told(settings, View(), caller, captcha, now, verdict.retryAfter)
      ensures verdict.Refused? ==> Longest(settings, View(), caller, captcha, now, verdict.retryAfter)
      ensures verdict.Allowed? ==>
        verdict.captchaRequired ==
          (captcha && (|Counted(settings, View(), Account(caller.account), now)| >= settings.captchaAccount
                       || |Counted(settings, View(), Address(caller.ip), now)| >= settings.captchaAddress))
    {
      hide Counted, IsOldest, WaitSeconds, Full;
      var wait := Wait(Account(caller.account), captcha, now, None);
      wait := Wait(PairOf(caller), captcha, now, wait);
      wait := Wait(Address(caller.ip), captcha, now, wait);
      if wait.Some? {
        return Refused(wait.value);
      }
      var account := Count(Account(caller.account), now);
      var address := Count(Address(caller.ip), now);
      verdict := Allowed(captcha && (|account| >= settings.captchaAccount || |address| >= settings.captchaAddress));
    }

    method RecordAttempt(caller: Caller, success: bool, now: int, gone: set<AttemptId>)
      modifies this`rows, this`next
      ensures next == old(next) + 1
      ensures rows.Keys == Recorded(old(View()), Attempt(caller, success, now), gone).stored
      ensures forall i :: i in rows ==> rows[i] == Recorded(old(View()), Attempt(caller, success, now), gone).rows[i]
    {
      rows := rows[next := Attempt(caller, success, now)];
      next := next + 1;
      rows := map i | i in rows && !(i in gone && rows[i].at < now - RETENTION) :: rows[i];
    }
  }
}
