/** The same rules as the database applies them, statement by statement. */
module SessionStore {
  import opened Collections
  import opened Sessions

  /** Newest first, each of them once. */
  ghost predicate Listing(all: map<SessionId, Session>, among: set<SessionId>, live: seq<SessionId>)
    requires among <= all.Keys
  {
    && (forall s :: s in live <==> s in among)
    && (forall i, j :: 0 <= i < j < |live| ==> live[i] in among && live[j] in among && Newer(all, live[i], live[j]))
  }

  lemma NoneTwice(all: map<SessionId, Session>, among: set<SessionId>, live: seq<SessionId>, i: nat, j: nat)
    requires among <= all.Keys && Listing(all, among, live) && i < j < |live|
    ensures live[i] != live[j]
  {
    assert Newer(all, live[i], live[j]);
  }

  lemma {:induction false} PrefixCount(all: map<SessionId, Session>, among: set<SessionId>,
      live: seq<SessionId>, n: nat)
    requires among <= all.Keys && Listing(all, among, live) && n <= |live|
    ensures |Elements(live[..n])| == n
  {
    hide Listing, Newer;
    if n > 0 {
      PrefixCount(all, among, live, n - 1);
      forall i | 0 <= i < n - 1 ensures live[i] != live[n - 1] { NoneTwice(all, among, live, i, n - 1); }
      assert live[..n] == live[..n - 1] + [live[n - 1]];
      assert Elements(live[..n]) == Elements(live[..n - 1]) + {live[n - 1]};
    }
  }

  function Elements(live: seq<SessionId>): set<SessionId> {
    set s | s in live
  }

  /** The place of a session in the listing is the number of sessions used more recently. */
  lemma PlaceIsRank(all: map<SessionId, Session>, among: set<SessionId>, live: seq<SessionId>, k: nat)
    requires among <= all.Keys && Listing(all, among, live) && k < |live|
    ensures live[k] in among && |NewerThan(all, among, live[k])| == k
  {
    assert live[k] in live;
    forall t ensures t in NewerThan(all, among, live[k]) <==> t in Elements(live[..k]) {
      if t in among {
        var j :| 0 <= j < |live| && live[j] == t;
        assert j < k ==> t == live[..k][j];
        assert k < j ==> Newer(all, live[k], live[j]);
      }
      if t in live[..k] {
        var j :| 0 <= j < k && live[j] == t;
        assert Newer(all, live[j], live[k]);
      }
    }
    assert NewerThan(all, among, live[k]) == Elements(live[..k]);
    PrefixCount(all, among, live, k);
  }

  function Surviving(all: map<SessionId, Session>, user: UserId, now: int): map<SessionId, Session> {
    map s | s in all && (all[s].user == user ==> !Dead(all[s], now)) :: all[s]
  }

  function RevokedAmong(all: map<SessionId, Session>, gone: seq<SessionId>): map<SessionId, Session> {
    map s | s in all :: if s in gone then all[s].(revoked := true) else all[s]
  }

  lemma NoneRevoked(all: map<SessionId, Session>)
    ensures RevokedAmong(all, []) == all
  {
  }

  lemma OneMoreRevoked(all: map<SessionId, Session>, gone: seq<SessionId>, s: SessionId)
    ensures RevokeOne(RevokedAmong(all, gone), s) == RevokedAmong(all, gone + [s])
  {
  }

  /** Revoking everything past the first max - 1 of the listing is what pruning means. */
  lemma RevokingExtrasPrunes(c: Settings, all: map<SessionId, Session>, user: UserId, now: int,
      live: seq<SessionId>, from: nat)
    requires c.maxSessions >= 1 && from == if c.maxSessions - 1 < |live| then c.maxSessions - 1 else |live|
    requires Listing(Surviving(all, user, now), OwnedBy(Surviving(all, user, now), user), live)
    ensures RevokedAmong(Surviving(all, user, now), live[from..]) == Pruned(c, all, user, now)
  {
    var rest := Surviving(all, user, now);
    var among := OwnedBy(rest, user);
    assert among == Live(all, user, now);
    forall s | s in among
      ensures s in live[from..] <==> |NewerThan(all, among, s)| + 1 >= c.maxSessions
    {
      hide Listing, Surviving, OwnedBy, Pruned;
      var k := IndexOf(rest, among, live, s);
      PlaceIsRank(rest, among, live, k);
      SameRank(all, rest, among, s);
      if from <= k {
        assert live[from..][k - from] == s;
      }
      if s in live[from..] {
        var j :| from <= j < |live| && live[j] == s;
        PlaceIsRank(rest, among, live, j);
      }
    }
    hide Listing, NewerThan;
  }

  lemma IndexOf(all: map<SessionId, Session>, among: set<SessionId>, live: seq<SessionId>,
      s: SessionId) returns (k: nat)
    requires among <= all.Keys && Listing(all, among, live) && s in among
    ensures k < |live| && live[k] == s
  {
    assert s in live;
    k :| 0 <= k < |live| && live[k] == s;
  }

  lemma SameRank(all: map<SessionId, Session>, rest: map<SessionId, Session>, among: set<SessionId>, s: SessionId)
    requires among <= all.Keys && among <= rest.Keys && s in among
    requires forall t :: t in among ==> rest[t] == all[t]
    ensures NewerThan(all, among, s) == NewerThan(rest, among, s)
  {
  }

  datatype PasswordReply = Throttled | WrongPassword | SamePassword | Changed(token: RefreshToken)

  /** A hash is as good as the password it is made of. */
  class SessionStore {
    const settings: Settings
    var users: map<UserId, User>
    var passwords: map<UserId, string>
    var sessions: map<SessionId, Session>
    var next: SessionId

    constructor (settings: Settings)
      requires settings.maxSessions >= 1
      ensures this.settings == settings && View() == Tables(map[], map[], 0)
    {
      this.settings, users, sessions, next := settings, map[], map[], 0;
      passwords := map[];
    }

    function View(): Tables
      reads this
    {
      Tables(users, sessions, next)
    }

    /** SELECT … ORDER BY last_used_at DESC, created_at DESC. */
    method SelectLive(user: UserId) returns (live: seq<SessionId>)
      ensures Listing(sessions, OwnedBy(sessions, user), live)
    {
      var rest := OwnedBy(sessions, user);
      live := [];
      while rest != {}
        invariant forall s :: s in live || s in rest <==> s in OwnedBy(sessions, user)
        invariant rest <= sessions.Keys && forall i :: 0 <= i < |live| ==> live[i] in sessions
        invariant forall i, s :: 0 <= i < |live| && s in rest ==> Newer(sessions, live[i], s)
        invariant forall i, j :: 0 <= i < j < |live| ==> Newer(sessions, live[i], live[j])
        decreases |rest|
      {
        NewestExists(sessions, rest);
        var s :| s in rest && forall t :: t in rest ==> t == s || Newer(sessions, s, t);
        live, rest := live + [s], rest - {s};
      }
    }

    method Prune(user: UserId, now: int)
      requires settings.maxSessions >= 1
      modifies this`sessions
      ensures sessions == Pruned(settings, old(sessions), user, now)
    {
      sessions := map s | s in sessions && (sessions[s].user == user ==> !Dead(sessions[s], now)) :: sessions[s];
      assert sessions == Surviving(old(sessions), user, now);
      hide Surviving, Pruned, RevokedAmong, RevokeOne;
      var live := SelectLive(user);
      hide Listing;
      ghost var before := sessions;
      assert RevokedAmong(before, []) == before by { NoneRevoked(before); }
      var from := if settings.maxSessions - 1 < |live| then settings.maxSessions - 1 else |live|;
      var i := from;
      while i < |live|
        invariant from <= i <= |live|
        invariant sessions == RevokedAmong(before, live[from..i])
      {
        assert live[from..i + 1] == live[from..i] + [live[i]];
        OneMoreRevoked(before, live[from..i], live[i]);
        sessions := RevokeOne(sessions, live[i]);
        i := i + 1;
      }
      assert live[from..i] == live[from..];
      RevokingExtrasPrunes(settings, old(sessions), user, now, live, from);
    }

    method OpenSession(user: UserId, salt: Salt, now: int) returns (token: RefreshToken)
      requires settings.maxSessions >= 1
      modifies this`sessions, this`next
      ensures (View(), token) == Open(settings, old(View()), user, salt, now)
    {
      Prune(user, now);
      var id, last := next, now + settings.life;
      var expires := Min(now + settings.idle, last);
      sessions := sessions[id := Session(user, salt, 1, None, now, now, expires, last, false)];
      next := next + 1;
      token := BuildRefreshToken(id, 1, salt);
    }

    method Revoke(id: SessionId)
      modifies this`sessions
      ensures sessions == RevokeOne(old(sessions), id)
    {
      if id in sessions {
        sessions := sessions[id := sessions[id].(revoked := true)];
      }
    }

    method RevokeUser(user: UserId)
      modifies this`sessions
      ensures sessions == RevokeAll(old(sessions), user)
    {
      sessions := map s | s in sessions ::
        if sessions[s].user == user then sessions[s].(revoked := true) else sessions[s];
    }

    /** set_password and logout_everywhere, as far as tokens go. */
    method EndTokens(user: UserId)
      modifies this`users, this`sessions
      ensures View() == SignOutEverywhere(old(View()), user)
    {
      if user in users {
        users := users[user := users[user].(version := users[user].version + 1)];
      }
      RevokeUser(user);
    }

    /** `change_password`: nothing changes unless the caller is let in, knows the current password and
        gives another one; then every older token is void and one new session is open. */
    method ChangePassword(user: UserId, current: string, wanted: string, letIn: bool, salt: Salt, now: int)
      returns (reply: PasswordReply, failureRecorded: bool)
      requires settings.maxSessions >= 1
      modifies this
      ensures reply.Changed? <==>
        letIn && user in old(users) && user in old(passwords) && old(passwords)[user] == current != wanted
      ensures !reply.Changed? ==> View() == old(View()) && passwords == old(passwords)
      ensures failureRecorded <==> reply == WrongPassword
      ensures reply == SamePassword ==> current == wanted
      ensures reply.Changed? ==> passwords == old(passwords)[user := wanted]
      ensures reply.Changed? ==>
        (View(), reply.token) == Open(settings, SignOutEverywhere(old(View()), user), user, salt, now)
    {
      if !letIn { return Throttled, false; }
      if user !in users || user !in passwords || passwords[user] != current { return WrongPassword, true; }
      if current == wanted { return SamePassword, false; }
      passwords := passwords[user := wanted];
      EndTokens(user);
      var token := OpenSession(user, salt, now);
      reply, failureRecorded := Changed(token), false;
    }

    /** The account part of leaving: inactive and a new version in one statement, then the sessions. */
    method MarkLeft(user: UserId)
      modifies this`users, this`sessions
      ensures var out := SignOutEverywhere(old(View()), user);
        View() == out.(users := Deactivated(out.users, user))
    {
      if user in users {
        users := users[user := users[user].(active := false, version := users[user].version + 1)];
      }
      RevokeUser(user);
    }

    /** `rotate` and `_rotate_locked`. */
    method Exchange(token: RefreshToken, now: int) returns (issued: Option<RefreshToken>)
      modifies this`sessions
      ensures (View(), issued) == Rotate(settings, old(View()), token, now)
    {
      issued := None;
      if token.session in sessions && Matches(token, sessions[token.session].salt)
        && !sessions[token.session].revoked {
        issued := ExchangeLocked(token, now);
      }
    }

    method ExchangeLocked(token: RefreshToken, now: int) returns (issued: Option<RefreshToken>)
      requires token.session in sessions && Matches(token, sessions[token.session].salt)
      requires !sessions[token.session].revoked
      modifies this`sessions
      ensures (View(), issued) == Rotate(settings, old(View()), token, now)
    {
      var row := sessions[token.session];
      issued := None;
      if now >= row.expiresAt || now >= row.absoluteExpiresAt {
        Revoke(token.session);
        return;
      }
      if row.user !in users || !users[row.user].active {
        Revoke(token.session);
        return;
      }
      if !users[row.user].orgActive {
        return;
      }
      var generation := row.generation;
      if token.generation == row.generation {
        generation := row.generation + 1;
        var expires := Min(now + settings.idle, row.absoluteExpiresAt);
        sessions := sessions[token.session := row.(generation := generation, rotatedAt := Some(now), lastUsedAt := now,
                             expiresAt := expires)];
      } else if token.generation != row.generation - 1 || !WithinGrace(settings, row, now) {
        Revoke(token.session);
        return;
      }
      issued := Some(BuildRefreshToken(token.session, generation, row.salt));
    }
  }

  lemma {:induction false} NewestExists(all: map<SessionId, Session>, among: set<SessionId>)
    requires among <= all.Keys && among != {}
    ensures exists s :: s in among && forall t :: t in among ==> t == s || Newer(all, s, t)
    decreases |among|
  {
    var x :| x in among;
    var rest := among - {x};
    assert among == rest + {x};
    if rest != {} {
      NewestExists(all, rest);
      var r :| r in rest && forall t :: t in rest ==> t == r || Newer(all, r, t);
      var s := if Newer(all, x, r) then x else r;
      assert forall t :: t in among ==> t == s || Newer(all, s, t);
    } else {
      assert among == {x};
    }
  }
}
