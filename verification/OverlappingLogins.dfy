/** Logins of one account that overlap: each is one transaction, which prunes on what it reads and
    inserts later (open_session of services/sessions.py). Its changes show when it commits; waiting
    for rows that another one ends only takes runs away. */
module OverlappingLogins {
  import opened Collections
  import opened Sessions

  type Ticket = nat

  /** A login that has pruned: the dead sessions it deletes and the extra ones it revokes. A password
      change has signed the account out before. */
  datatype Opening = Opening(now: int, signOut: bool, dead: set<SessionId>, extra: set<SessionId>)

  /** Logins are numbered in the order in which they prune; those committed are all below `newest`. */
  datatype State = State(tables: Tables, waiting: map<Ticket, Opening>, tickets: Ticket, newest: Ticket)

  datatype Event =
    | Prune(signOut: bool, now: int)
    | Commit(i: Ticket, salt: Salt)
    | RollBack(i: Ticket)
    | Other(op: Op)                       // whatever else happens, to this account or another

  function DeadOf(all: map<SessionId, Session>, user: UserId, now: int): set<SessionId> {
    set s | s in all && all[s].user == user && Dead(all[s], now)
  }

  function ExtraOf(c: Settings, all: map<SessionId, Session>, user: UserId, now: int): set<SessionId> {
    var live := Live(all, user, now);
    set s | s in live && |NewerThan(all, live, s)| + 1 >= c.maxSessions
  }

  function Pruning(c: Settings, all: map<SessionId, Session>, user: UserId, signOut: bool, now: int): Opening {
    if signOut then Opening(now, true, OwnedBy(all, user), {})
    else Opening(now, false, DeadOf(all, user, now), ExtraOf(c, all, user, now))
  }

  function Applied(all: map<SessionId, Session>, l: Opening): map<SessionId, Session> {
    map s | s in all && s !in l.dead :: if s in l.extra then all[s].(revoked := true) else all[s]
  }

  function Landed(c: Settings, w: Tables, user: UserId, l: Opening, salt: Salt): Tables {
    Tables(if l.signOut then Bumped(w.users, user) else w.users,
           Applied(w.sessions, l)[w.next := NewSession(c, user, salt, l.now)], w.next + 1)
  }

  /** Logins and password changes of the account are the other events. */
  predicate Opens(op: Op, user: UserId) {
    match op
    case Login(u, _, _) => u == user
    case ChangePassword(u, _, _) => u == user
    case _ => false
  }

  function After(c: Settings, w: Tables, op: Op): Tables {
    Apply(c, System(w, {}, {}), op).tables
  }

  function Next(c: Settings, user: UserId, x: State, e: Event): State {
    match e
    case Prune(signOut, now) =>
      if user !in x.tables.users || !(signOut || x.tables.users[user].active) then x
      else x.(waiting := x.waiting[x.tickets := Pruning(c, x.tables.sessions, user, signOut, now)],
              tickets := x.tickets + 1)
    case Commit(i, salt) =>
      if i !in x.waiting then x
      else State(Landed(c, x.tables, user, x.waiting[i], salt), x.waiting - {i}, x.tickets,
                 if i < x.newest then x.newest else i + 1)
    case RollBack(i) => x.(waiting := x.waiting - {i})
    case Other(op) => if Opens(op, user) then x else x.(tables := After(c, x.tables, op))
  }

  function Run(c: Settings, user: UserId, x: State, events: seq<Event>): State
    decreases |events|
  {
    if events == [] then x else Run(c, user, Next(c, user, x, events[0]), events[1..])
  }

  predicate Few(k: nat, waiting: map<Ticket, Opening>) {
    |waiting| <= k
  }

  /** Never more than k of them between pruning and committing. */
  predicate AtMost(c: Settings, user: UserId, k: nat, x: State, events: seq<Event>)
    decreases |events|
  {
    Few(k, x.waiting) && (events != [] ==> AtMost(c, user, k, Next(c, user, x, events[0]), events[1..]))
  }

  function Start(w: Tables): State {
    State(w, map[], 0, 0)
  }

  /** Pruning and committing with nothing in between is the login of the serial model. */
  lemma AloneIsLogin(c: Settings, user: UserId, x: State, signOut: bool, now: int, salt: Salt)
    requires user in x.tables.users && (signOut || x.tables.users[user].active)
    requires x.tickets !in x.waiting
    ensures var op := if signOut then ChangePassword(user, salt, now) else Login(user, salt, now);
      var x' := Next(c, user, Next(c, user, x, Prune(signOut, now)), Commit(x.tickets, salt));
      x'.tables == After(c, x.tables, op) && x'.waiting == x.waiting
  {
    hide NewerThan, Newer;
    var w, l := x.tables, Pruning(c, x.tables.sessions, user, signOut, now);
    if signOut {
      assert Applied(w.sessions, l) == Pruned(c, RevokeAll(w.sessions, user), user, now);
    } else {
      assert Applied(w.sessions, l) == Pruned(c, w.sessions, user, now);
    }
  }

  /** Whatever is no login and no password change of the account happens as it does alone; one of those
      that is rolled back leaves no trace. */
  lemma OthersHappen(c: Settings, user: UserId, x: State, y: System, op: Op, i: Ticket)
    requires y.tables == x.tables
    ensures !(op.Login? && op.user == user) && !(op.ChangePassword? && op.user == user) ==>
      Next(c, user, x, Other(op)) == x.(tables := Apply(c, y, op).tables)
    ensures Next(c, user, x, RollBack(i)).tables == x.tables && i !in Next(c, user, x, RollBack(i)).waiting
    ensures forall j :: j in x.waiting && j != i ==>
      j in Next(c, user, x, RollBack(i)).waiting && Next(c, user, x, RollBack(i)).waiting[j] == x.waiting[j]
  {
    hide Rotate, Open, SignOutEverywhere;
  }

  // ------------------------------------------------------------- invariant

  function Gone(l: Opening): set<SessionId> {
    l.dead + l.extra
  }

  /** Those waiting that pruned before ticket n was given. */
  function Earlier(waiting: map<Ticket, Opening>, n: Ticket): set<Ticket> {
    set i | i in waiting && i < n
  }

  /** What is left without the sessions `gone`, and one more for each waiting login that pruned before n. */
  ghost predicate Fits(cap: int, left: set<SessionId>, gone: set<SessionId>, waiting: map<Ticket, Opening>, n: Ticket) {
    |left - gone| + |Earlier(waiting, n)| <= cap
  }

  ghost predicate Known(gone: set<SessionId>, next: SessionId) {
    forall s :: s in gone ==> s < next
  }

  /** A login that pruned after all that have committed: what it spares, and those before it. */
  ghost predicate LoginFits(cap: int, next: SessionId, newest: Ticket, left: set<SessionId>,
      waiting: map<Ticket, Opening>, i: Ticket)
    requires i in waiting
  {
    && Known(Gone(waiting[i]), next)
    && (newest <= i ==> Fits(cap, left, Gone(waiting[i]), waiting, i + 1))
  }

  ghost predicate WaitingFit(cap: int, next: SessionId, newest: Ticket, left: set<SessionId>,
      waiting: map<Ticket, Opening>) {
    forall i :: i in waiting ==> LoginFits(cap, next, newest, left, waiting, i)
  }

  /** Once a login has committed, its pruning shows. */
  ghost predicate NewestFits(cap: int, newest: Ticket, left: set<SessionId>, waiting: map<Ticket, Opening>) {
    newest > 0 ==> Fits(cap, left, {}, waiting, newest)
  }

  ghost predicate Fit(cap: int, next: SessionId, newest: Ticket, left: set<SessionId>, waiting: map<Ticket, Opening>) {
    WaitingFit(cap, next, newest, left, waiting) && NewestFits(cap, newest, left, waiting)
  }

  ghost predicate Inv(c: Settings, user: UserId, k: nat, x: State) {
    && SessionsOk(c, x.tables) && x.newest <= x.tickets && (forall i :: i in x.waiting ==> i < x.tickets)
    && Fit(c.maxSessions - 1 + k, x.tables.next, x.newest, Unrevoked(x.tables.sessions, user), x.waiting)
  }

  lemma Shrinks(cap: int, left: set<SessionId>, left': set<SessionId>, gone: set<SessionId>,
      waiting: map<Ticket, Opening>, waiting': map<Ticket, Opening>, n: Ticket)
    requires Fits(cap, left, gone, waiting, n) && left' <= left && waiting'.Keys <= waiting.Keys
    ensures Fits(cap, left', gone, waiting', n)
  {
    SubsetSize(left' - gone, left - gone);
    SubsetSize(Earlier(waiting', n), Earlier(waiting, n));
  }

  lemma ShrinkingFits(cap: int, next: SessionId, next': SessionId, newest: Ticket, left: set<SessionId>,
      left': set<SessionId>, waiting: map<Ticket, Opening>, waiting': map<Ticket, Opening>)
    requires Fit(cap, next, newest, left, waiting)
    requires next <= next' && left' <= left && waiting'.Keys <= waiting.Keys
    requires forall i :: i in waiting' ==> waiting'[i] == waiting[i]
    ensures Fit(cap, next', newest, left', waiting')
  {
    hide Fits, Gone;
    forall i | i in waiting' ensures LoginFits(cap, next', newest, left', waiting', i) {
      assert LoginFits(cap, next, newest, left, waiting, i);
      if newest <= i { Shrinks(cap, left, left', Gone(waiting[i]), waiting, waiting', i + 1); }
    }
    if newest > 0 { Shrinks(cap, left, left', {}, waiting, waiting', newest); }
  }

  /** Fewer sessions left and fewer logins waiting. */
  lemma ShrinkingKeeps(c: Settings, user: UserId, k: nat, x: State, x': State)
    requires Inv(c, user, k, x) && SessionsOk(c, x'.tables) && x.tables.next <= x'.tables.next
    requires Unrevoked(x'.tables.sessions, user) <= Unrevoked(x.tables.sessions, user)
    requires x'.tickets == x.tickets && x'.newest == x.newest && x'.waiting.Keys <= x.waiting.Keys
    requires forall i :: i in x'.waiting ==> x'.waiting[i] == x.waiting[i]
    ensures Inv(c, user, k, x')
  {
    hide Unrevoked, SessionsOk, Fit;
    ShrinkingFits(c.maxSessions - 1 + k, x.tables.next, x'.tables.next, x.newest,
      Unrevoked(x.tables.sessions, user), Unrevoked(x'.tables.sessions, user), x.waiting, x'.waiting);
  }

  lemma FewSpared(c: Settings, all: map<SessionId, Session>, user: UserId, now: int)
    requires c.maxSessions >= 1
    ensures |Unrevoked(all, user) - DeadOf(all, user, now) - ExtraOf(c, all, user, now)| <= c.maxSessions - 1
  {
    var live := Live(all, user, now);
    var kept := Unrevoked(all, user) - DeadOf(all, user, now) - ExtraOf(c, all, user, now);
    forall s | s in kept ensures s in live && |NewerThan(all, live, s)| < c.maxSessions - 1 {}
    hide NewerThan;
    FewAreNewest(all, live, kept, c.maxSessions - 1);
  }

  lemma PruningSpares(c: Settings, w: Tables, user: UserId, signOut: bool, now: int)
    requires SessionsOk(c, w) && c.maxSessions >= 1
    ensures var l := Pruning(c, w.sessions, user, signOut, now);
      |Unrevoked(w.sessions, user) - Gone(l)| <= c.maxSessions - 1 && Known(Gone(l), w.next)
  {
    hide NewerThan, Newer, Dead;
    var all := w.sessions;
    var gone := Gone(Pruning(c, all, user, signOut, now));
    if signOut {
      assert Unrevoked(all, user) - gone == {};
    } else {
      FewSpared(c, all, user, now);
      assert Unrevoked(all, user) - gone == Unrevoked(all, user) - DeadOf(all, user, now) - ExtraOf(c, all, user, now);
    }
  }

  lemma JoiningFits(cap: int, next: SessionId, newest: Ticket, left: set<SessionId>, k: nat,
      waiting: map<Ticket, Opening>, t: Ticket, l: Opening)
    requires Fit(cap, next, newest, left, waiting)
    requires newest <= t && forall i :: i in waiting ==> i < t
    requires Known(Gone(l), next) && |left - Gone(l)| <= cap - k && Few(k, waiting[t := l])
    ensures Fit(cap, next, newest, left, waiting[t := l])
  {
    hide Gone, Known;
    var waiting' := waiting[t := l];
    forall i | i in waiting' ensures LoginFits(cap, next, newest, left, waiting', i) {
      if i == t {
        SubsetSize(Earlier(waiting', t + 1), waiting'.Keys);
      } else {
        assert LoginFits(cap, next, newest, left, waiting, i);
        assert Earlier(waiting', i + 1) == Earlier(waiting, i + 1);
      }
    }
    assert Earlier(waiting', newest) == Earlier(waiting, newest);
  }

  lemma JoiningKeeps(c: Settings, user: UserId, k: nat, x: State, l: Opening)
    requires Inv(c, user, k, x) && Few(k, x.waiting[x.tickets := l])
    requires Known(Gone(l), x.tables.next)
    requires |Unrevoked(x.tables.sessions, user) - Gone(l)| <= c.maxSessions - 1
    ensures Inv(c, user, k, x.(waiting := x.waiting[x.tickets := l], tickets := x.tickets + 1))
  {
    var left := Unrevoked(x.tables.sessions, user);
    hide Unrevoked, Gone, Fit, SessionsOk, Known, Few;
    JoiningFits(c.maxSessions - 1 + k, x.tables.next, x.newest, left, k, x.waiting, x.tickets, l);
  }

  lemma UnrevokedAfter(c: Settings, w: Tables, user: UserId, l: Opening, salt: Salt)
    requires SessionsOk(c, w)
    ensures var w' := Landed(c, w, user, l, salt);
      && SessionsOk(c, w') && w'.next == w.next + 1
      && Unrevoked(w'.sessions, user) == Unrevoked(w.sessions, user) - Gone(l) + {w.next}
  {
  }

  lemma EarlierGone(waiting: map<Ticket, Opening>, i: Ticket, n: Ticket)
    requires i in waiting
    ensures |Earlier(waiting - {i}, n)| == |Earlier(waiting, n)| - if i < n then 1 else 0
  {
    if i < n {
      assert Earlier(waiting, n) == Earlier(waiting - {i}, n) + {i};
    } else {
      assert Earlier(waiting, n) == Earlier(waiting - {i}, n);
    }
  }

  /** A login that pruned before n takes the place it was counted for. */
  lemma CommitFits(cap: int, left: set<SessionId>, gone: set<SessionId>, own: set<SessionId>, id: SessionId,
      waiting: map<Ticket, Opening>, i: Ticket, n: Ticket)
    requires Fits(cap, left, gone, waiting, n) && i in waiting && i < n
    ensures Fits(cap, left - own + {id}, gone, waiting - {i}, n)
  {
    EarlierGone(waiting, i, n);
    SubsetSize(left - own + {id} - gone, left - gone + {id});
  }

  /** And from then on what it spared is all there is. */
  lemma OwnFits(cap: int, left: set<SessionId>, own: set<SessionId>, id: SessionId,
      waiting: map<Ticket, Opening>, i: Ticket)
    requires Fits(cap, left, own, waiting, i + 1) && i in waiting
    ensures Fits(cap, left - own + {id}, {}, waiting - {i}, i + 1)
  {
    EarlierGone(waiting, i, i + 1);
    SubsetSize(left - own + {id} - {}, left - own + {id});
  }

  lemma LandingFits(cap: int, next: SessionId, newest: Ticket, left: set<SessionId>,
      waiting: map<Ticket, Opening>, i: Ticket)
    requires Fit(cap, next, newest, left, waiting) && i in waiting
    ensures var left', newest' := left - Gone(waiting[i]) + {next}, if i < newest then newest else i + 1;
      Fit(cap, next + 1, newest', left', waiting - {i})
  {
    hide Fits, Gone;
    var own, waiting', newest' := Gone(waiting[i]), waiting - {i}, if i < newest then newest else i + 1;
    assert LoginFits(cap, next, newest, left, waiting, i);
    forall j | j in waiting' ensures LoginFits(cap, next + 1, newest', left - own + {next}, waiting', j) {
      assert LoginFits(cap, next, newest, left, waiting, j);
      if newest' <= j { CommitFits(cap, left, Gone(waiting[j]), own, next, waiting, i, j + 1); }
    }
    if i < newest {
      CommitFits(cap, left, {}, own, next, waiting, i, newest);
    } else {
      OwnFits(cap, left, own, next, waiting, i);
    }
  }

  lemma LandingKeeps(c: Settings, user: UserId, k: nat, x: State, i: Ticket, w: Tables)
    requires Inv(c, user, k, x) && i in x.waiting && SessionsOk(c, w) && w.next == x.tables.next + 1
    requires Unrevoked(w.sessions, user) ==
      Unrevoked(x.tables.sessions, user) - Gone(x.waiting[i]) + {x.tables.next}
    ensures Inv(c, user, k, State(w, x.waiting - {i}, x.tickets, if i < x.newest then x.newest else i + 1))
  {
    var left := Unrevoked(x.tables.sessions, user);
    hide Unrevoked, Gone, Fit, SessionsOk;
    LandingFits(c.maxSessions - 1 + k, x.tables.next, x.newest, left, x.waiting, i);
  }

  lemma OtherAddsNone(c: Settings, w: Tables, op: Op, user: UserId)
    requires SessionsOk(c, w) && !Opens(op, user)
    ensures SessionsOk(c, After(c, w, op)) && w.next <= After(c, w, op).next
    ensures Unrevoked(After(c, w, op).sessions, user) <= Unrevoked(w.sessions, user)
  {
    ApplySteps(c, System(w, {}, {}), op);
    hide NewerThan, Newer, Live, SessionsOk, Rotate;
    var w' := After(c, w, op);
    forall s | s in Unrevoked(w'.sessions, user) ensures s in Unrevoked(w.sessions, user) {
      if s >= w.next { NewAreOpened(c, w, op, s); }
    }
  }

  lemma NewAreOpened(c: Settings, w: Tables, op: Op, s: SessionId)
    requires SessionsOk(c, w) && s in After(c, w, op).sessions && s >= w.next
    ensures Opens(op, After(c, w, op).sessions[s].user)
  {
    hide NewerThan, Newer, Live;
  }

  lemma NextKeeps(c: Settings, user: UserId, k: nat, x: State, e: Event)
    requires Inv(c, user, k, x) && c.maxSessions >= 1 && Few(k, Next(c, user, x, e).waiting)
    ensures Inv(c, user, k, Next(c, user, x, e))
  {
    hide Inv, After, SessionsOk, Unrevoked, Landed, Pruning, Gone, Known, Few, Opens;
    InvSessions(c, user, k, x);
    match e
    case Prune(signOut, now) =>
      if user in x.tables.users && (signOut || x.tables.users[user].active) {
        PruningSpares(c, x.tables, user, signOut, now);
        JoiningKeeps(c, user, k, x, Pruning(c, x.tables.sessions, user, signOut, now));
      }
    case Commit(i, salt) =>
      if i in x.waiting {
        UnrevokedAfter(c, x.tables, user, x.waiting[i], salt);
        LandingKeeps(c, user, k, x, i, Landed(c, x.tables, user, x.waiting[i], salt));
      }
    case RollBack(i) => ShrinkingKeeps(c, user, k, x, x.(waiting := x.waiting - {i}));
    case Other(op) =>
      if !Opens(op, user) {
        OtherAddsNone(c, x.tables, op, user);
        ShrinkingKeeps(c, user, k, x, x.(tables := After(c, x.tables, op)));
      }
  }

  lemma InvSessions(c: Settings, user: UserId, k: nat, x: State)
    requires Inv(c, user, k, x)
    ensures SessionsOk(c, x.tables)
  {
  }

  lemma {:induction false} RunKeeps(c: Settings, user: UserId, k: nat, x: State, events: seq<Event>)
    requires Inv(c, user, k, x) && c.maxSessions >= 1 && AtMost(c, user, k, x, events)
    ensures Inv(c, user, k, Run(c, user, x, events))
    decreases |events|
  {
    hide Inv, Next;
    if events != [] {
      assert AtMost(c, user, k, Next(c, user, x, events[0]), events[1..]);
      NextKeeps(c, user, k, x, events[0]);
      RunKeeps(c, user, k, Next(c, user, x, events[0]), events[1..]);
    }
  }

  /** From any tables, however logins of the account overlap, at most k at a time, and whatever else
      happens: once one of them has committed, the account has at most limit - 1 + k sessions that
      are not revoked (so the limit, one at a time). */
  lemma CapHolds(c: Settings, user: UserId, k: nat, w: Tables, events: seq<Event>)
    requires SessionsOk(c, w) && c.maxSessions >= 1 && AtMost(c, user, k, Start(w), events)
    ensures var x := Run(c, user, Start(w), events);
      x.newest > 0 ==> |Unrevoked(x.tables.sessions, user)| <= c.maxSessions - 1 + k
  {
    hide AtMost, Run, Unrevoked, SessionsOk;
    RunKeeps(c, user, k, Start(w), events);
    var x := Run(c, user, Start(w), events);
    var left := Unrevoked(x.tables.sessions, user);
    if x.newest > 0 { SubsetSize(left, left - {}); }
  }

  // ------------------------------------------------------ the bound is met

  /** Nobody has logged in yet, and the user may. */
  predicate Newcomer(w: Tables, user: UserId) {
    w.sessions == map[] && w.next == 0 && user in w.users && w.users[user].active
  }

  function Rows(c: Settings, user: UserId, n: nat): (all: map<SessionId, Session>)
    ensures forall s: SessionId :: s in all <==> s < n
    ensures forall s :: s in all ==> all[s] == NewSession(c, user, 0, 0)
  {
    if n == 0 then map[] else Rows(c, user, n - 1)[n - 1 := NewSession(c, user, 0, 0)]
  }

  function Queue(j: nat, m: nat): (waiting: map<Ticket, Opening>)
    ensures forall i: Ticket :: i in waiting <==> j <= i < m
    ensures forall i :: i in waiting ==> waiting[i] == Opening(0, false, {}, {})
  {
    if m <= j then map[] else Queue(j, m - 1)[m - 1 := Opening(0, false, {}, {})]
  }

  /** Logins j to m - 1 have pruned and found nothing to end, those before j are in. */
  function Racing(c: Settings, w: Tables, user: UserId, j: nat, m: nat): State {
    State(Tables(w.users, Rows(c, user, j), j), Queue(j, m), m, j)
  }

  lemma NothingToPrune(c: Settings, user: UserId, n: nat)
    requires n < c.maxSessions
    ensures Pruning(c, Rows(c, user, n), user, false, 0) == Opening(0, false, {}, {})
  {
    var all := Rows(c, user, n);
    var live := Live(all, user, 0);
    BelowSize(n);
    forall s | s in live ensures |NewerThan(all, live, s)| + 1 < c.maxSessions {
      assert s in Below(n);
      assert NewerThan(all, live, s) <= Below(n) - {s};
      SubsetSize(NewerThan(all, live, s), Below(n) - {s});
    }
    hide NewerThan;
  }

  lemma PruneJoins(c: Settings, w: Tables, user: UserId, j: nat, m: nat)
    requires Newcomer(w, user) && j <= m && j < c.maxSessions
    ensures Next(c, user, Racing(c, w, user, j, m), Prune(false, 0)) == Racing(c, w, user, j, m + 1)
  {
    NothingToPrune(c, user, j);
    hide Pruning;
  }

  lemma CommitLands(c: Settings, w: Tables, user: UserId, j: nat, m: nat)
    requires j < m
    ensures Next(c, user, Racing(c, w, user, j, m), Commit(j, 0)) == Racing(c, w, user, j + 1, m)
  {
    var all := Rows(c, user, j);
    assert Applied(all, Opening(0, false, {}, {})) == all;
    assert Queue(j, m) - {j} == Queue(j + 1, m);
  }

  lemma FewWait(c: Settings, w: Tables, user: UserId, j: nat, m: nat, k: nat)
    requires j <= m <= j + k
    ensures Few(k, Racing(c, w, user, j, m).waiting)
  {
    RangeSize(j, m);
    assert Queue(j, m).Keys == Below(m) - Below(j);
  }

  lemma OneMore(c: Settings, user: UserId, k: nat, x: State, e: Event, x': State, rest: seq<Event>)
    requires Next(c, user, x, e) == x' && Few(k, x.waiting) && AtMost(c, user, k, x', rest)
    ensures Run(c, user, x, [e] + rest) == Run(c, user, x', rest) && AtMost(c, user, k, x, [e] + rest)
  {
    hide Next;
    assert ([e] + rest)[1..] == rest;
  }

  /** Everybody who waits commits. */
  lemma {:induction false} AllCommit(c: Settings, w: Tables, user: UserId, k: nat, j: nat, m: nat)
    returns (events: seq<Event>)
    requires j <= m <= j + k
    ensures var x := Racing(c, w, user, j, m);
      AtMost(c, user, k, x, events) && Run(c, user, x, events) == Racing(c, w, user, m, m)
    decreases m - j
  {
    FewWait(c, w, user, j, m, k);
    hide Racing, Next;
    if j == m {
      events := [];
    } else {
      var rest := AllCommit(c, w, user, k, j + 1, m);
      CommitLands(c, w, user, j, m);
      OneMore(c, user, k, Racing(c, w, user, j, m), Commit(j, 0), Racing(c, w, user, j + 1, m), rest);
      events := [Commit(j, 0)] + rest;
    }
  }

  /** k of them prune before any commits. */
  lemma {:induction false} AllPrune(c: Settings, w: Tables, user: UserId, k: nat, j: nat, m: nat)
    returns (events: seq<Event>)
    requires Newcomer(w, user) && j <= m <= j + k && j < c.maxSessions
    ensures var x := Racing(c, w, user, j, m);
      AtMost(c, user, k, x, events) && Run(c, user, x, events) == Racing(c, w, user, j + k, j + k)
    decreases j + k - m
  {
    hide Racing, Next, AtMost, Run;
    if m == j + k {
      events := AllCommit(c, w, user, k, j, m);
    } else {
      var rest := AllPrune(c, w, user, k, j, m + 1);
      FewWait(c, w, user, j, m, k);
      PruneJoins(c, w, user, j, m);
      OneMore(c, user, k, Racing(c, w, user, j, m), Prune(false, 0), Racing(c, w, user, j, m + 1), rest);
      events := [Prune(false, 0)] + rest;
    }
  }

  /** Logins one after the other up to the limit but one, then k at once. */
  lemma {:induction false} FillUp(c: Settings, w: Tables, user: UserId, k: nat, j: nat) returns (events: seq<Event>)
    requires Newcomer(w, user) && k >= 1 && j < c.maxSessions
    ensures var x, n := Racing(c, w, user, j, j), c.maxSessions - 1 + k;
      AtMost(c, user, k, x, events) && Run(c, user, x, events) == Racing(c, w, user, n, n)
    decreases c.maxSessions - j
  {
    hide Racing, Next, AtMost, Run;
    if j == c.maxSessions - 1 {
      events := AllPrune(c, w, user, k, j, j);
    } else {
      var x, x1, x2 := Racing(c, w, user, j, j), Racing(c, w, user, j, j + 1), Racing(c, w, user, j + 1, j + 1);
      var rest := FillUp(c, w, user, k, j + 1);
      FewWait(c, w, user, j, j, k);
      FewWait(c, w, user, j, j + 1, k);
      PruneJoins(c, w, user, j, j);
      CommitLands(c, w, user, j, j + 1);
      OneMore(c, user, k, x1, Commit(j, 0), x2, rest);
      OneMore(c, user, k, x, Prune(false, 0), x1, [Commit(j, 0)] + rest);
      events := [Prune(false, 0)] + ([Commit(j, 0)] + rest);
    }
  }

  lemma NobodyYet(c: Settings, w: Tables, user: UserId)
    requires Newcomer(w, user)
    ensures Racing(c, w, user, 0, 0) == Start(w)
  {
  }

  lemma AllOpen(c: Settings, w: Tables, user: UserId, n: nat)
    ensures |Unrevoked(Racing(c, w, user, n, n).tables.sessions, user)| == n
  {
    assert Unrevoked(Racing(c, w, user, n, n).tables.sessions, user) == Below(n);
    BelowSize(n);
  }

  /** The bound is met: for every limit and every k a run ends with that many. */
  lemma CapIsMet(c: Settings, w: Tables, user: UserId, k: nat) returns (events: seq<Event>)
    requires Newcomer(w, user) && c.maxSessions >= 1 && k >= 1
    ensures AtMost(c, user, k, Start(w), events)
    ensures |Unrevoked(Run(c, user, Start(w), events).tables.sessions, user)| == c.maxSessions - 1 + k
  {
    hide Run, AtMost, Unrevoked, Racing;
    events := FillUp(c, w, user, k, 0);
    NobodyYet(c, w, user);
    AllOpen(c, w, user, c.maxSessions - 1 + k);
  }
}
