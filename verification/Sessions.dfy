/** Login sessions, refresh-token rotation and revocation (services/sessions.py, services/auth.py,
    the account part of services/leaving.py). A MAC is the triple it authenticates. */
module Sessions {
  import opened Collections

  type UserId = nat
  type SessionId = nat
  type Salt = nat

  /** Durations in one unit of time; at least one session per user. */
  datatype Settings = Settings(idle: nat, life: nat, grace: nat, maxSessions: nat)

  datatype User = User(active: bool, orgActive: bool, version: nat)

  datatype Session = Session(
    user: UserId, salt: Salt, generation: nat, rotatedAt: Option<int>, createdAt: int, lastUsedAt: int,
    expiresAt: int, absoluteExpiresAt: int, revoked: bool)

  datatype Tables = Tables(users: map<UserId, User>, sessions: map<SessionId, Session>, next: SessionId)

  datatype Mac = Mac(session: SessionId, generation: nat, salt: Salt)

  datatype RefreshToken = RefreshToken(session: SessionId, generation: nat, mac: Mac)

  datatype AccessToken = AccessToken(user: UserId, session: SessionId, version: nat)

  function Min(a: int, b: int): int {
    if a < b then a else b
  }

  function BuildRefreshToken(session: SessionId, generation: nat, salt: Salt): RefreshToken {
    RefreshToken(session, generation, Mac(session, generation, salt))
  }

  predicate Matches(token: RefreshToken, salt: Salt) {
    token.mac == Mac(token.session, token.generation, salt)
  }

  // --------------------------------------------------------------- opening

  predicate Dead(s: Session, now: int) {
    s.revoked || s.expiresAt < now || s.absoluteExpiresAt < now
  }

  /** ORDER BY last_used_at DESC, created_at DESC; the id settles what the source leaves open. */
  predicate Newer(all: map<SessionId, Session>, a: SessionId, b: SessionId)
    requires a in all && b in all
  {
    if all[a].lastUsedAt != all[b].lastUsedAt then all[a].lastUsedAt > all[b].lastUsedAt
    else if all[a].createdAt != all[b].createdAt then all[a].createdAt > all[b].createdAt
    else a > b
  }

  function Live(all: map<SessionId, Session>, user: UserId, now: int): set<SessionId> {
    set s | s in all && all[s].user == user && !Dead(all[s], now)
  }

  function OwnedBy(all: map<SessionId, Session>, user: UserId): set<SessionId> {
    set s | s in all && all[s].user == user
  }

  function NewerThan(all: map<SessionId, Session>, among: set<SessionId>, s: SessionId): set<SessionId>
    requires among <= all.Keys && s in all
  {
    set t | t in among && Newer(all, t, s)
  }

  /** `_prune`: dead sessions go, and so does every live one with max - 1 more recently used ones. */
  function Pruned(c: Settings, all: map<SessionId, Session>, user: UserId, now: int): map<SessionId, Session> {
    var live := Live(all, user, now);
    map s | s in all && (all[s].user == user ==> !Dead(all[s], now)) ::
      if all[s].user == user && |NewerThan(all, live, s)| + 1 >= c.maxSessions then all[s].(revoked := true) else all[s]
  }

  function NewSession(c: Settings, user: UserId, salt: Salt, now: int): Session {
    Session(user, salt, 1, None, now, now, Min(now + c.idle, now + c.life), now + c.life, false)
  }

  function Open(c: Settings, w: Tables, user: UserId, salt: Salt, now: int): (Tables, RefreshToken) {
    (w.(sessions := Pruned(c, w.sessions, user, now)[w.next := NewSession(c, user, salt, now)], next := w.next + 1),
     BuildRefreshToken(w.next, 1, salt))
  }

  // -------------------------------------------------------------- revoking

  function RevokeOne(all: map<SessionId, Session>, s: SessionId): map<SessionId, Session> {
    if s in all then all[s := all[s].(revoked := true)] else all
  }

  function RevokeAll(all: map<SessionId, Session>, user: UserId): map<SessionId, Session> {
    map s | s in all :: if all[s].user == user then all[s].(revoked := true) else all[s]
  }

  function Bumped(users: map<UserId, User>, user: UserId): map<UserId, User> {
    if user in users then users[user := users[user].(version := users[user].version + 1)] else users
  }

  function Deactivated(users: map<UserId, User>, user: UserId): map<UserId, User> {
    if user in users then users[user := users[user].(active := false)] else users
  }

  /** set_password and logout_everywhere: a new token version, and every session revoked. */
  function SignOutEverywhere(w: Tables, user: UserId): Tables {
    w.(users := Bumped(w.users, user), sessions := RevokeAll(w.sessions, user))
  }

  // -------------------------------------------------------------- rotating

  predicate WithinGrace(c: Settings, s: Session, now: int) {
    s.rotatedAt.Some? && now - s.rotatedAt.value <= c.grace
  }

  function Rotate(c: Settings, w: Tables, token: RefreshToken, now: int): (Tables, Option<RefreshToken>) {
    if token.session !in w.sessions then (w, None)
    else
      var s := w.sessions[token.session];
      var revoked := w.(sessions := RevokeOne(w.sessions, token.session));
      if !Matches(token, s.salt) || s.revoked then (w, None)
      else if now >= s.expiresAt || now >= s.absoluteExpiresAt then (revoked, None)
      else if s.user !in w.users || !w.users[s.user].active then (revoked, None)
      else if !w.users[s.user].orgActive then (w, None)
      else if token.generation == s.generation then
        (w.(sessions := w.sessions[token.session := s.(generation := s.generation + 1, rotatedAt := Some(now),
              lastUsedAt := now, expiresAt := Min(now + c.idle, s.absoluteExpiresAt))]),
         Some(BuildRefreshToken(token.session, s.generation + 1, s.salt)))
      else if token.generation + 1 == s.generation && WithinGrace(c, s, now) then
        (w, Some(BuildRefreshToken(token.session, s.generation, s.salt)))
      else (revoked, None)
  }

  /** `authenticate`: the access token's user, session and version are all still good. */
  predicate Authentic(w: Tables, token: AccessToken) {
    && token.user in w.users && w.users[token.user].active && w.users[token.user].orgActive
    && w.users[token.user].version == token.version
    && token.session in w.sessions && w.sessions[token.session].user == token.user && !w.sessions[token.session].revoked
  }

  // ---------------------------------------------------------- runs of it all

  /** The tables and every token handed out so far. */
  datatype System = System(tables: Tables, refresh: set<RefreshToken>, access: set<AccessToken>)

  datatype Op =
    | Login(user: UserId, salt: Salt, now: int)            // the password was right
    | Refresh(token: RefreshToken, now: int)
    | Logout(session: SessionId)
    | LogoutEverywhere(user: UserId)
    | SetPassword(user: UserId)
    | ChangePassword(user: UserId, salt: Salt, now: int)   // also resetting it with a code
    | MarkLeft(user: UserId)
    | Reactivate(user: UserId)
    | SwitchSchool(user: UserId, active: bool)
    | Purge(sessions: set<SessionId>)                      // retention

  function Issue(y: System, w: Tables, user: UserId, token: RefreshToken): System {
    System(w, y.refresh + {token},
           y.access + if user in w.users then {AccessToken(user, token.session, w.users[user].version)} else {})
  }

  function Apply(c: Settings, y: System, op: Op): System {
    var w := y.tables;
    match op
    case Login(user, salt, now) =>
      if user !in w.users || !w.users[user].active then y
      else var (w', token) := Open(c, w, user, salt, now); Issue(y, w', user, token)
    case Refresh(token, now) =>
      var (w', issued) := Rotate(c, w, token, now);
      if issued.Some? then Issue(y, w', w.sessions[token.session].user, issued.value) else y.(tables := w')
    case Logout(s) => y.(tables := w.(sessions := RevokeOne(w.sessions, s)))
    case LogoutEverywhere(user) => y.(tables := SignOutEverywhere(w, user))
    case SetPassword(user) => y.(tables := SignOutEverywhere(w, user))
    case ChangePassword(user, salt, now) =>
      if user !in w.users then y
      else var (w', token) := Open(c, SignOutEverywhere(w, user), user, salt, now); Issue(y, w', user, token)
    case MarkLeft(user) =>
      if user !in w.users then y
      else
        var out := SignOutEverywhere(w, user); y.(tables := out.(users := Deactivated(out.users, user)))
    case Reactivate(user) =>
      if user !in w.users then y else y.(tables := w.(users := w.users[user := w.users[user].(active := true)]))
    case SwitchSchool(user, active) =>
      if user !in w.users then y else y.(tables := w.(users := w.users[user := w.users[user].(orgActive := active)]))
    case Purge(gone) => y.(tables := w.(sessions := map s | s in w.sessions && s !in gone :: w.sessions[s]))
  }

  function Run(c: Settings, y: System, ops: seq<Op>): System
    decreases |ops|
  {
    if ops == [] then y else Run(c, Apply(c, y, ops[0]), ops[1..])
  }

  // -------------------------------------------------------------- invariant

  /** It ends the idle time after its last use, and the whole life after its first day at the latest. */
  predicate InTime(c: Settings, s: Session) {
    && s.expiresAt <= s.absoluteExpiresAt && s.expiresAt <= s.lastUsedAt + c.idle
    && (s.expiresAt == s.absoluteExpiresAt || s.expiresAt == s.lastUsedAt + c.idle)
    && s.absoluteExpiresAt == s.createdAt + c.life
  }

  ghost predicate SessionsOk(c: Settings, w: Tables) {
    forall s :: s in w.sessions ==> s < w.next && w.sessions[s].generation >= 1 && InTime(c, w.sessions[s])
  }

  /** A token's session was opened before, and its generation was reached. */
  ghost predicate TokenOk(w: Tables, t: RefreshToken) {
    && t.session < w.next
    && (t.session in w.sessions ==>
          Matches(t, w.sessions[t.session].salt) && t.generation <= w.sessions[t.session].generation)
  }

  ghost predicate AccessOk(w: Tables, a: AccessToken) {
    a.session < w.next && a.user in w.users && a.version <= w.users[a.user].version
  }

  ghost predicate Inv(c: Settings, y: System) {
    && SessionsOk(c, y.tables)
    && (forall t :: t in y.refresh ==> TokenOk(y.tables, t))
    && (forall a :: a in y.access ==> AccessOk(y.tables, a))
  }

  /** Same owner, salt and last day; a revocation stays, a generation is never lost. */
  predicate Later(was: Session, cur: Session) {
    && cur.user == was.user && cur.salt == was.salt && cur.absoluteExpiresAt == was.absoluteExpiresAt
    && (was.revoked ==> cur.revoked) && was.generation <= cur.generation
  }

  /** What no operation undoes: no session returns, and token versions never fall. */
  ghost predicate Onward(w: Tables, w': Tables) {
    && w.next <= w'.next
    && (forall s :: s in w'.sessions && s < w.next ==> s in w.sessions && Later(w.sessions[s], w'.sessions[s]))
    && (forall u: UserId :: u in w.users ==> u in w'.users && w.users[u].version <= w'.users[u].version)
  }

  ghost predicate Step(c: Settings, w: Tables, w': Tables) {
    Onward(w, w') && SessionsOk(c, w')
  }

  lemma StepsCompose(c: Settings, w: Tables, w': Tables, w'': Tables)
    requires Step(c, w, w') && Step(c, w', w'')
    ensures Step(c, w, w'')
  {
  }

  lemma OpenSteps(c: Settings, w: Tables, user: UserId, salt: Salt, now: int)
    requires SessionsOk(c, w)
    ensures var (w', token) := Open(c, w, user, salt, now); Step(c, w, w') && TokenOk(w', token)
  {
    hide NewerThan, Newer, Live;
  }

  lemma RotateSteps(c: Settings, w: Tables, token: RefreshToken, now: int)
    requires SessionsOk(c, w)
    ensures Step(c, w, Rotate(c, w, token, now).0)
    ensures Rotate(c, w, token, now).1.Some? ==>
      token.session in w.sessions && TokenOk(Rotate(c, w, token, now).0, Rotate(c, w, token, now).1.value)
  {
  }

  lemma SignOutSteps(c: Settings, w: Tables, user: UserId)
    requires SessionsOk(c, w)
    ensures Step(c, w, SignOutEverywhere(w, user))
  {
  }

  lemma RevokeSteps(c: Settings, w: Tables, s: SessionId)
    requires SessionsOk(c, w)
    ensures Step(c, w, w.(sessions := RevokeOne(w.sessions, s)))
  {
  }

  lemma StepKeeps(c: Settings, y: System, w': Tables)
    requires Inv(c, y) && Step(c, y.tables, w')
    ensures Inv(c, y.(tables := w'))
  {
    forall t | t in y.refresh ensures TokenOk(w', t) { assert TokenOk(y.tables, t); }
    forall a | a in y.access ensures AccessOk(w', a) { assert AccessOk(y.tables, a); }
  }

  lemma IssueKeeps(c: Settings, y: System, w': Tables, user: UserId, token: RefreshToken)
    requires Inv(c, y) && Step(c, y.tables, w') && TokenOk(w', token)
    ensures Inv(c, Issue(y, w', user, token))
  {
    StepKeeps(c, y, w');
  }

  lemma ApplySteps(c: Settings, y: System, op: Op)
    requires Inv(c, y)
    ensures Step(c, y.tables, Apply(c, y, op).tables)
  {
    hide Open, Rotate, RevokeOne, SignOutEverywhere, TokenOk, Deactivated;
    var w := y.tables;
    match op
    case Login(user, salt, now) => OpenSteps(c, w, user, salt, now);
    case Refresh(token, now) => RotateSteps(c, w, token, now);
    case Logout(s) => RevokeSteps(c, w, s);
    case LogoutEverywhere(user) => SignOutSteps(c, w, user);
    case SetPassword(user) => SignOutSteps(c, w, user);
    case ChangePassword(user, salt, now) =>
      if user in w.users {
        SignOutSteps(c, w, user);
        OpenSteps(c, SignOutEverywhere(w, user), user, salt, now);
        StepsCompose(c, w, SignOutEverywhere(w, user), Open(c, SignOutEverywhere(w, user), user, salt, now).0);
      }
    case MarkLeft(user) =>
      if user in w.users {
        SignOutSteps(c, w, user);
        DeactivationSteps(c, SignOutEverywhere(w, user), user);
        StepsCompose(c, w, SignOutEverywhere(w, user), Apply(c, y, op).tables);
      }
    case _ =>
  }

  lemma DeactivationSteps(c: Settings, w: Tables, user: UserId)
    requires SessionsOk(c, w)
    ensures Step(c, w, w.(users := Deactivated(w.users, user)))
  {
  }

  lemma ApplyKeeps(c: Settings, y: System, op: Op)
    requires Inv(c, y)
    ensures Inv(c, Apply(c, y, op)) && Step(c, y.tables, Apply(c, y, op).tables)
  {
    hide Open, Rotate, RevokeOne, SignOutEverywhere, TokenOk, Step, Inv;
    var w := y.tables;
    assert SessionsOk(c, w) by { InvSessions(c, y); }
    ApplySteps(c, y, op);
    var w' := Apply(c, y, op).tables;
    match op
    case Login(user, salt, now) =>
      if user in w.users && w.users[user].active {
        OpenSteps(c, w, user, salt, now);
        IssueKeeps(c, y, w', user, Open(c, w, user, salt, now).1);
      }
    case Refresh(token, now) =>
      RotateSteps(c, w, token, now);
      var issued := Rotate(c, w, token, now).1;
      if issued.Some? {
        IssueKeeps(c, y, w', w.sessions[token.session].user, issued.value);
      } else {
        StepKeeps(c, y, w');
      }
    case ChangePassword(user, salt, now) =>
      if user in w.users {
        var out := SignOutEverywhere(w, user);
        SignedOutOk(c, w, user);
        OpenSteps(c, out, user, salt, now);
        IssueKeeps(c, y, w', user, Open(c, out, user, salt, now).1);
      }
    case _ => StepKeeps(c, y, w');
  }

  lemma InvSessions(c: Settings, y: System)
    requires Inv(c, y)
    ensures SessionsOk(c, y.tables)
  {
  }

  lemma SignedOutOk(c: Settings, w: Tables, user: UserId)
    requires SessionsOk(c, w)
    ensures SessionsOk(c, SignOutEverywhere(w, user))
  {
  }

  /** Over every run: issued tokens never run ahead of their session, expiry never passes the fixed
      last day, and nothing revoked or deleted comes back. */
  lemma {:induction false} RunKeeps(c: Settings, y: System, ops: seq<Op>)
    requires Inv(c, y)
    ensures Inv(c, Run(c, y, ops)) && Step(c, y.tables, Run(c, y, ops).tables)
    decreases |ops|
  {
    hide Inv, Step, Apply;
    if ops == [] {
      StepsToItself(c, y);
    } else {
      var next := Apply(c, y, ops[0]);
      ApplyKeeps(c, y, ops[0]);
      RunKeeps(c, next, ops[1..]);
      StepsCompose(c, y.tables, next.tables, Run(c, y, ops).tables);
    }
  }

  lemma StepsToItself(c: Settings, y: System)
    requires Inv(c, y)
    ensures Step(c, y.tables, y.tables)
  {
  }

  /** The user's account and school are open. */
  predicate InGoodStanding(w: Tables, user: UserId) {
    user in w.users && w.users[user].active && w.users[user].orgActive
  }

  /** The token is the session's own, of its present generation, or of the one before while the last
      exchange is no longer ago than the grace period. */
  predicate Redeemable(c: Settings, s: Session, token: RefreshToken, at: int) {
    && token.mac == Mac(token.session, token.generation, s.salt) && !s.revoked
    && (token.generation == s.generation
        || (token.generation + 1 == s.generation && s.rotatedAt.Some? && at <= s.rotatedAt.value + c.grace))
  }

  /** Over every run, a refresh is granted exactly to a redeemable token of a user in good standing, less
      than the idle time after the last use and less than the whole life after the login. */
  lemma GrantedIff(c: Settings, y: System, ops: seq<Op>, token: RefreshToken, at: int)
    requires Inv(c, y)
    ensures var w := Run(c, y, ops).tables;
      Rotate(c, w, token, at).1.Some? <==>
        && token.session in w.sessions
        && var s := w.sessions[token.session];
           && Redeemable(c, s, token, at) && InGoodStanding(w, s.user)
           && at < s.lastUsedAt + c.idle && at < s.createdAt + c.life
  {
    RunKeeps(c, y, ops);
  }

  /** The session as a granted refresh leaves it: the present generation moves on, and the idle time
      starts again; the one before changes nothing. */
  function Refreshed(c: Settings, s: Session, token: RefreshToken, at: int): Session {
    if token.generation != s.generation then s
    else s.(generation := s.generation + 1, rotatedAt := Some(at), lastUsedAt := at,
            expiresAt := if at + c.idle < s.createdAt + c.life then at + c.idle else s.createdAt + c.life)
  }

  /** What a refresh leaves behind. Granted, the token handed out is of the session's new generation;
      refused, the session is revoked if the token was its own and it was not, unless all that is wrong is
      that the school is switched off. No other session and no user changes. */
  lemma RefreshOutcome(c: Settings, w: Tables, token: RefreshToken, at: int)
    requires SessionsOk(c, w)
    ensures var (w', issued) := Rotate(c, w, token, at);
      && w' == w.(sessions := w'.sessions) && w'.sessions.Keys == w.sessions.Keys
      && (forall s :: s in w.sessions && s != token.session ==> w'.sessions[s] == w.sessions[s])
      && (token.session in w.sessions ==>
            var s, s' := w.sessions[token.session], w'.sessions[token.session];
            var own := token.mac == Mac(token.session, token.generation, s.salt);
            && (issued.Some? ==>
                  && s' == Refreshed(c, s, token, at)
                  && issued.value == BuildRefreshToken(token.session, s'.generation, s.salt))
            && (issued.None? ==>
                  s' == s.(revoked := s.revoked || (own && !SchoolOff(w, token.session, at)))))
  {
  }

  // ---------------------------------------------- what else an operation does

  /** Rows of other users are as they were. */
  ghost predicate OthersRows(w: Tables, w': Tables, user: UserId) {
    && (forall s :: s in w.sessions && w.sessions[s].user != user ==>
          s in w'.sessions && w'.sessions[s] == w.sessions[s])
    && (forall s :: s in w'.sessions && w'.sessions[s].user != user ==> s in w.sessions)
    && (forall u: UserId :: u in w.users <==> u in w'.users)
    && (forall u: UserId :: u in w.users && u != user ==> w'.users[u] == w.users[u])
  }

  /** A login of an active user opens a session of the full idle time and life, and hands out two tokens
      that are good from that moment: the access token while nothing ends the session, the refresh token
      until the first of the two runs out. Nobody else is affected. */
  lemma LoginWorks(c: Settings, y: System, user: UserId, salt: Salt, now: int, at: int)
    requires Inv(c, y) && user in y.tables.users && y.tables.users[user].active
    ensures var y', id := Apply(c, y, Login(user, salt, now)), y.tables.next;
      && id in y'.tables.sessions && OthersRows(y.tables, y'.tables, user) && y'.tables.users == y.tables.users
      && var s, refresh := y'.tables.sessions[id], BuildRefreshToken(id, 1, salt);
         var access := AccessToken(user, id, y.tables.users[user].version);
         && s.user == user && s.createdAt == s.lastUsedAt == now && !s.revoked
         && refresh in y'.refresh && access in y'.access
         && (Authentic(y'.tables, access) <==> y.tables.users[user].orgActive)
         && (Rotate(c, y'.tables, refresh, at).1.Some? <==>
               y.tables.users[user].orgActive && at < now + c.idle && at < now + c.life)
  {
    hide NewerThan, Newer, Live;
  }

  /** Neither revoked nor past the idle time or the whole life. */
  predicate Standing(c: Settings, s: Session, now: int) {
    !s.revoked && now <= s.lastUsedAt + c.idle && now <= s.createdAt + c.life
  }

  /** Of two sessions used at the same moment the one opened later comes first, then the higher id. */
  predicate ComesFirst(all: map<SessionId, Session>, a: SessionId, b: SessionId)
    requires a in all && b in all
  {
    var s, t := all[a], all[b];
    || t.lastUsedAt < s.lastUsedAt
    || (t.lastUsedAt == s.lastUsedAt && t.createdAt < s.createdAt)
    || (t.lastUsedAt == s.lastUsedAt && t.createdAt == s.createdAt && b < a)
  }

  ghost function Ahead(c: Settings, all: map<SessionId, Session>, user: UserId, now: int, s: SessionId): set<SessionId>
    requires s in all
  {
    set t | t in all && all[t].user == user && Standing(c, all[t], now) && ComesFirst(all, t, s)
  }

  /** What a login makes of the sessions the user had: those that ended are gone, and of the others those
      behind as many as fit beside the new one are revoked. */
  lemma LoginLeaves(c: Settings, w: Tables, user: UserId, salt: Salt, now: int, s: SessionId)
    requires SessionsOk(c, w) && s in w.sessions && w.sessions[s].user == user
    ensures var all := Open(c, w, user, salt, now).0.sessions;
      && (s in all <==> Standing(c, w.sessions[s], now))
      && (s in all ==>
            all[s] == w.sessions[s].(revoked := |Ahead(c, w.sessions, user, now, s)| >= c.maxSessions - 1))
  {
    assert forall t :: t in w.sessions ==> (Dead(w.sessions[t], now) <==> !Standing(c, w.sessions[t], now));
    forall t | t in w.sessions ensures Newer(w.sessions, t, s) <==> ComesFirst(w.sessions, t, s) {
    }
    hide Newer, ComesFirst, Dead, Standing;
    assert NewerThan(w.sessions, Live(w.sessions, user, now), s) == Ahead(c, w.sessions, user, now, s);
  }

  /** A new password leaves the user exactly one session, with tokens of the new version. */
  lemma PasswordChangeWorks(c: Settings, y: System, user: UserId, salt: Salt, now: int)
    requires Inv(c, y) && user in y.tables.users && c.maxSessions >= 1
    ensures var y', id := Apply(c, y, ChangePassword(user, salt, now)), y.tables.next;
      && OthersRows(y.tables, y'.tables, user)
      && (forall s :: s in y'.tables.sessions && y'.tables.sessions[s].user == user ==> s == id)
      && id in y'.tables.sessions && y'.tables.sessions[id] == NewSession(c, user, salt, now)
      && y'.tables.users[user] == y.tables.users[user].(version := y.tables.users[user].version + 1)
      && BuildRefreshToken(id, 1, salt) in y'.refresh
      && AccessToken(user, id, y.tables.users[user].version + 1) in y'.access
  {
    hide NewerThan, Newer;
  }

  /** An access token is honoured exactly while its user and school are in good standing, no newer version
      of the user's tokens was begun, and its own session stands. */
  lemma AuthenticIff(w: Tables, token: AccessToken)
    ensures Authentic(w, token) <==>
      && InGoodStanding(w, token.user) && token.version == w.users[token.user].version
      && token.session in w.sessions && w.sessions[token.session].user == token.user
      && !w.sessions[token.session].revoked
  {
  }

  /** Signing out everywhere, also by a new password, revokes exactly the user's sessions and begins a
      new version of the tokens; logging out revokes the one session. */
  lemma SignOutOutcome(c: Settings, y: System, user: UserId, id: SessionId)
    ensures var w, w' := y.tables, Apply(c, y, LogoutEverywhere(user)).tables;
      && OthersRows(w, w', user) && w'.sessions.Keys == w.sessions.Keys && w'.next == w.next
      && (forall s :: s in w.sessions && w.sessions[s].user == user ==>
            w'.sessions[s] == w.sessions[s].(revoked := true))
      && (user in w.users ==> w'.users[user] == w.users[user].(version := w.users[user].version + 1))
      && Apply(c, y, SetPassword(user)).tables == w'
    ensures var w, w' := y.tables, Apply(c, y, Logout(id)).tables;
      && w' == w.(sessions := w'.sessions) && w'.sessions.Keys == w.sessions.Keys
      && (forall s :: s in w.sessions ==>
            w'.sessions[s] == if s == id then w.sessions[s].(revoked := true) else w.sessions[s])
  {
  }

  /** Leaving also closes the account; only coming back opens it, and then without any session. */
  lemma LeftOutcome(c: Settings, y: System, user: UserId)
    requires user in y.tables.users
    ensures var w, w' := y.tables, Apply(c, y, MarkLeft(user)).tables;
      && OthersRows(w, w', user) && w'.sessions.Keys == w.sessions.Keys
      && (forall s :: s in w.sessions && w.sessions[s].user == user ==> w'.sessions[s].revoked)
      && w'.users[user] == User(false, w.users[user].orgActive, w.users[user].version + 1)
    ensures var w, w' := y.tables, Apply(c, y, Reactivate(user)).tables;
      w' == w.(users := w.users[user := w.users[user].(active := true)])
  {
  }

  // ------------------------------------------------- a session that is over

  ghost predicate Over(w: Tables, s: SessionId) {
    s < w.next && (s in w.sessions ==> w.sessions[s].revoked)
  }

  /** Once revoked or deleted, no token of the session is ever honoured again. */
  lemma OverForGood(c: Settings, y: System, s: SessionId, ops: seq<Op>, t: RefreshToken, a: AccessToken, at: int)
    requires Inv(c, y) && Over(y.tables, s)
    requires t.session == s && a.session == s
    ensures var later := Run(c, y, ops).tables;
      Over(later, s) && Rotate(c, later, t, at) == (later, None) && !Authentic(later, a)
  {
    RunKeeps(c, y, ops);
  }

  /** Any generation but the current one, or the one before it within the grace period. */
  predicate IsOld(c: Settings, w: Tables, token: RefreshToken, now: int) {
    token.session in w.sessions ==>
      var s := w.sessions[token.session];
      token.generation != s.generation && !(token.generation + 1 == s.generation && WithinGrace(c, s, now))
  }

  /** The session is good but its school is switched off, and may be switched on again. */
  predicate SchoolOff(w: Tables, id: SessionId, now: int) {
    && id in w.sessions && !w.sessions[id].revoked
    && now < w.sessions[id].expiresAt && now < w.sessions[id].absoluteExpiresAt
    && var user := w.sessions[id].user;
       user in w.users && w.users[user].active && !w.users[user].orgActive
  }

  /** Presenting an old generation is refused, and afterwards the session is over, with every token of it,
      exactly unless the school is switched off at that moment; then nothing changes. */
  lemma OldTokenEndsSession(c: Settings, y: System, token: RefreshToken, now: int, ops: seq<Op>,
      t: RefreshToken, a: AccessToken, at: int)
    requires Inv(c, y) && token in y.refresh && IsOld(c, y.tables, token, now)
    requires t.session == token.session && a.session == token.session
    ensures Rotate(c, y.tables, token, now).1 == None
    ensures var after := Apply(c, y, Refresh(token, now));
      && (Over(after.tables, token.session) <==> !SchoolOff(y.tables, token.session, now))
      && (SchoolOff(y.tables, token.session, now) ==> after == y)
      && (!SchoolOff(y.tables, token.session, now) ==>
            Rotate(c, Run(c, after, ops).tables, t, at).1 == None && !Authentic(Run(c, after, ops).tables, a))
  {
    assert TokenOk(y.tables, token);
    ApplyKeeps(c, y, Refresh(token, now));
    var after := Apply(c, y, Refresh(token, now));
    if !SchoolOff(y.tables, token.session, now) {
      assert Over(after.tables, token.session);
      OverForGood(c, after, token.session, ops, t, a, at);
    }
  }

  /** After a password change, signing out everywhere or leaving, nothing handed out before works
      again, whatever follows: new logins and reactivation included. */
  lemma SignOutIsFinal(c: Settings, y: System, user: UserId, op: Op, ops: seq<Op>, t: RefreshToken,
      a: AccessToken, at: int)
    requires Inv(c, y) && user in y.tables.users
    requires op == SetPassword(user) || op == LogoutEverywhere(user) || op == MarkLeft(user)
          || (op.ChangePassword? && op.user == user)
    requires t in y.refresh && (t.session in y.tables.sessions ==> y.tables.sessions[t.session].user == user)
    requires a in y.access && a.user == user
    ensures var later := Run(c, Apply(c, y, op), ops).tables;
      Rotate(c, later, t, at).1 == None && !Authentic(later, a)
  {
    assert TokenOk(y.tables, t) && AccessOk(y.tables, a);
    var y' := Apply(c, y, op);
    assert Over(y'.tables, t.session) && y'.tables.users[user].version == y.tables.users[user].version + 1 by {
      hide NewerThan, Newer;
    }
    ApplyKeeps(c, y, op);
    OverForGood(c, y', t.session, ops, t, AccessToken(user, t.session, 0), at);
    RunKeeps(c, y', ops);
  }

  // ------------------------------------------------------------ grace period

  /** The session, live and just moved on from `token`'s generation, of a user in good standing. */
  ghost predicate JustRotated(w: Tables, token: RefreshToken, s: Session) {
    && token.session in w.sessions && w.sessions[token.session] == s && !s.revoked
    && s.user in w.users && w.users[s.user].active && w.users[s.user].orgActive
    && Matches(token, s.salt) && token.generation + 1 == s.generation
  }

  lemma AnotherTry(c: Settings, w: Tables, token: RefreshToken, s: Session, at: int)
    requires JustRotated(w, token, s) && at < s.expiresAt <= s.absoluteExpiresAt && WithinGrace(c, s, at)
    ensures Rotate(c, w, token, at) == (w, Some(BuildRefreshToken(token.session, s.generation, s.salt)))
  {
  }

  lemma OthersRotate(c: Settings, w: Tables, t: RefreshToken, now: int, id: SessionId)
    requires t.session != id && id in w.sessions
    ensures var w' := Rotate(c, w, t, now).0;
      w'.users == w.users && id in w'.sessions && w'.sessions[id] == w.sessions[id]
  {
  }

  lemma OthersOpen(c: Settings, w: Tables, user: UserId, salt: Salt, now: int, id: SessionId)
    requires id in w.sessions && id != w.next && w.sessions[id].user != user
    ensures var w' := Open(c, w, user, salt, now).0;
      w'.users == w.users && id in w'.sessions && w'.sessions[id] == w.sessions[id]
  {
    hide NewerThan, Newer;
  }

  /** Room for one login more without signing the session out. */
  predicate Stays(c: Settings, all: map<SessionId, Session>, id: SessionId, now: int)
    requires id in all
  {
    !Dead(all[id], now) && |NewerThan(all, Live(all, all[id].user, now), id)| + 1 < c.maxSessions
  }

  /** What leaves the session `s` as it is: an operation on another account or session, a login of the
      same user with room to spare, one more try with the same token in time, a forged token. */
  predicate Aside(c: Settings, w: Tables, op: Op, token: RefreshToken, s: Session) {
    match op
    case Login(u, _, at) => u != s.user || (token.session in w.sessions && Stays(c, w.sessions, token.session, at))
    case Refresh(t, at) =>
      || t.session != token.session || !Matches(t, s.salt)
      || (t == token && at < s.expiresAt && at < s.absoluteExpiresAt && WithinGrace(c, s, at))
    case Logout(id) => id != token.session
    case LogoutEverywhere(u) => u != s.user
    case SetPassword(u) => u != s.user
    case ChangePassword(u, _, _) => u != s.user
    case MarkLeft(u) => u != s.user
    case Reactivate(_) => true
    case SwitchSchool(u, active) => u != s.user || active
    case Purge(gone) => token.session !in gone
  }

  lemma LoginKeepsRowIff(c: Settings, w: Tables, salt: Salt, now: int, token: RefreshToken, s: Session)
    requires JustRotated(w, token, s) && token.session < w.next
    ensures JustRotated(Open(c, w, s.user, salt, now).0, token, s) <==> Stays(c, w.sessions, token.session, now)
  {
    hide NewerThan, Newer, Live, Matches;
  }

  lemma RefreshKeepsRowIff(c: Settings, w: Tables, token: RefreshToken, s: Session, t: RefreshToken, at: int)
    requires JustRotated(w, token, s)
    ensures JustRotated(Rotate(c, w, t, at).0, token, s) <==> Aside(c, w, Refresh(t, at), token, s)
  {
    if t.session != token.session { OthersRotate(c, w, t, at, token.session); }
  }

  /** Nothing but that: every other operation ends the session, moves it on or locks its user out. */
  lemma AsideIff(c: Settings, y: System, op: Op, token: RefreshToken, s: Session)
    requires Inv(c, y) && JustRotated(y.tables, token, s)
    ensures JustRotated(Apply(c, y, op).tables, token, s) <==> Aside(c, y.tables, op, token, s)
  {
    assert token.session < y.tables.next;
    hide Open, Rotate, Inv, Stays;
    match op
    case Login(u, salt, now) =>
      if u == s.user { LoginKeepsRowIff(c, y.tables, salt, now, token, s); }
      else { OthersOpen(c, y.tables, u, salt, now, token.session); }
    case Refresh(t, at) => RefreshKeepsRowIff(c, y.tables, token, s, t, at);
    case ChangePassword(u, salt, now) =>
      if u == s.user { OldPasswordEnds(c, y.tables, salt, now, token, s); }
      else if u in y.tables.users {
        OthersOpen(c, SignOutEverywhere(y.tables, u), u, salt, now, token.session);
      }
    case _ =>
  }

  lemma OldPasswordEnds(c: Settings, w: Tables, salt: Salt, now: int, token: RefreshToken, s: Session)
    requires JustRotated(w, token, s) && token.session < w.next
    ensures !JustRotated(Open(c, SignOutEverywhere(w, s.user), s.user, salt, now).0, token, s)
  {
    hide NewerThan, Newer, Live, Matches;
  }

  /** Each operation of the run leaves the session as it is, given the tables it finds. */
  ghost predicate AllAside(c: Settings, y: System, ops: seq<Op>, token: RefreshToken, s: Session)
    decreases |ops|
  {
    ops != [] ==>
      Aside(c, y.tables, ops[0], token, s) && AllAside(c, Apply(c, y, ops[0]), ops[1..], token, s)
  }

  lemma {:induction false} AsideRunKeepsRow(c: Settings, y: System, ops: seq<Op>, token: RefreshToken, s: Session)
    requires Inv(c, y) && JustRotated(y.tables, token, s) && AllAside(c, y, ops, token, s)
    ensures JustRotated(Run(c, y, ops).tables, token, s)
    decreases |ops|
  {
    hide Apply, Inv, Aside, JustRotated;
    if ops != [] {
      AsideIff(c, y, ops[0], token, s);
      ApplyKeeps(c, y, ops[0]);
      AsideRunKeepsRow(c, Apply(c, y, ops[0]), ops[1..], token, s);
    }
  }

  /** However many requests race with the same token within the grace period, and whatever else happens
      meanwhile that leaves the session live and in its generation, each gets the token the first one got. */
  lemma RacersShareOneToken(c: Settings, y: System, token: RefreshToken, now: int, ops: seq<Op>, at: int)
    requires Inv(c, y) && Rotate(c, y.tables, token, now).1.Some?
    requires token.generation == y.tables.sessions[token.session].generation
    requires var y' := Apply(c, y, Refresh(token, now));
      var s := y'.tables.sessions[token.session];
      at < s.expiresAt && at - now <= c.grace && AllAside(c, y', ops, token, s)
    ensures var later := Run(c, Apply(c, y, Refresh(token, now)), ops).tables;
      Rotate(c, later, token, at) == (later, Rotate(c, y.tables, token, now).1)
          && !later.sessions[token.session].revoked
  {
    var y' := Apply(c, y, Refresh(token, now));
    var s := y'.tables.sessions[token.session];
    assert JustRotated(y'.tables, token, s);
    ApplyKeeps(c, y, Refresh(token, now));
    AsideRunKeepsRow(c, y', ops, token, s);
    AnotherTry(c, Run(c, y', ops).tables, token, s, at);
  }

  // -------------------------------------------------------- the session cap

  ghost predicate Oldest(all: map<SessionId, Session>, among: set<SessionId>, s: SessionId)
    requires among <= all.Keys
  {
    s in among && forall t :: t in among && t != s ==> Newer(all, t, s)
  }

  lemma {:induction false} OldestExists(all: map<SessionId, Session>, among: set<SessionId>) returns (s: SessionId)
    requires among <= all.Keys && among != {}
    ensures Oldest(all, among, s)
    decreases |among|
  {
    var x :| x in among;
    if among == {x} {
      s := x;
    } else {
      var rest := among - {x};
      assert among == rest + {x};
      var r := OldestExists(all, rest);
      s := if Newer(all, x, r) then r else x;
      forall t | t in among && t != s ensures Newer(all, t, s) {
        if t != x && t != r { assert t in rest && Newer(all, t, r); }
      }
    }
  }

  /** At most n of them can have fewer than n newer ones. */
  lemma FewAreNewest(all: map<SessionId, Session>, among: set<SessionId>, kept: set<SessionId>, n: nat)
    requires kept <= among <= all.Keys
    requires forall s :: s in kept ==> |NewerThan(all, among, s)| < n
    ensures |kept| <= n
  {
    if kept != {} {
      var last := OldestExists(all, kept);
      SubsetSize(kept - {last}, NewerThan(all, among, last));
    }
  }

  function Unrevoked(all: map<SessionId, Session>, user: UserId): set<SessionId> {
    set s | s in all && all[s].user == user && !all[s].revoked
  }

  lemma OpenedUnrevoked(c: Settings, w: Tables, user: UserId, salt: Salt, now: int, s: SessionId)
    requires SessionsOk(c, w) && s != w.next
    ensures s in Unrevoked(Open(c, w, user, salt, now).0.sessions, user) <==>
      s in Live(w.sessions, user, now) && |NewerThan(w.sessions, Live(w.sessions, user, now), s)| + 1 < c.maxSessions
  {
    hide NewerThan, Newer;
  }

  /** After a login the user has at most the configured number of sessions, the new one among them. */
  lemma SessionCap(c: Settings, w: Tables, user: UserId, salt: Salt, now: int)
    requires SessionsOk(c, w) && c.maxSessions >= 1
    ensures var left := Unrevoked(Open(c, w, user, salt, now).0.sessions, user);
      w.next in left && |left| <= c.maxSessions
  {
    var left := Unrevoked(Open(c, w, user, salt, now).0.sessions, user);
    assert w.next in left;
    forall s | s in left - {w.next}
      ensures s in Live(w.sessions, user, now)
          && |NewerThan(w.sessions, Live(w.sessions, user, now), s)| < c.maxSessions - 1
    {
      OpenedUnrevoked(c, w, user, salt, now, s);
    }
    hide NewerThan, Newer, Open, Live, Unrevoked;
    FewAreNewest(w.sessions, Live(w.sessions, user, now), left - {w.next}, c.maxSessions - 1);
    assert left == (left - {w.next}) + {w.next};
  }

  /** A login signs a live session out only when the others fill every slot but the new one's, and
      only one used less recently than all that stay. */
  lemma LeastRecentlyUsedGoes(c: Settings, w: Tables, user: UserId, salt: Salt, now: int, gone: SessionId)
    requires SessionsOk(c, w) && c.maxSessions >= 1
    requires gone in Live(w.sessions, user, now) - Unrevoked(Open(c, w, user, salt, now).0.sessions, user)
    ensures |Live(w.sessions, user, now)| >= c.maxSessions
    ensures forall kept :: kept in Unrevoked(Open(c, w, user, salt, now).0.sessions, user) && kept != w.next ==>
      kept in w.sessions && Newer(w.sessions, kept, gone) && ComesFirst(w.sessions, kept, gone)
  {
    var live := Live(w.sessions, user, now);
    OpenedUnrevoked(c, w, user, salt, now, gone);
    assert NewerThan(w.sessions, live, gone) <= live - {gone};
    SubsetSize(NewerThan(w.sessions, live, gone), live - {gone});
    forall kept | kept in Unrevoked(Open(c, w, user, salt, now).0.sessions, user) && kept != w.next
      ensures kept in w.sessions && Newer(w.sessions, kept, gone)
    {
      hide NewerThan, Newer, Open;
      OpenedUnrevoked(c, w, user, salt, now, kept);
      RanksOrder(w.sessions, live, kept, gone);
    }
  }

  lemma RanksOrder(all: map<SessionId, Session>, among: set<SessionId>, a: SessionId, b: SessionId)
    requires among <= all.Keys && a in among && b in among
    requires |NewerThan(all, among, a)| < |NewerThan(all, among, b)|
    ensures Newer(all, a, b)
  {
    if !Newer(all, a, b) && a != b {
      assert NewerThan(all, among, b) <= NewerThan(all, among, a);
      SubsetSize(NewerThan(all, among, b), NewerThan(all, among, a));
    }
  }
}
