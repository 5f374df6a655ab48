/** The request-scoped database session of db/session.py with the file store behind it
    (services/storage.py): nested transactions, commit and rollback hooks, lost connections. */
module DbSession {
  import opened Collections

  type ConnId = nat
  type RowId = nat
  type Key = nat

  /** How the database answers one statement: Gone is a disconnect, OpError another operational
      error, Rejected any other exception (a duplicate key, say), LostAck a commit that took effect
      although the client saw an error. */
  datatype Attempt = Succeeds | Gone | OpError | Rejected | LostAck

  /** Every hook of the source removes a stored file. */
  datatype Hook = Delete(key: Key)

  /** How an outermost transaction ended; Lost is a commit that took effect but was reported as failed. */
  datatype Ending = NotBegun | Committed | RolledBack | Lost

  /** What the body of a `with db.transaction()` block does. */
  datatype Act =
    | SetFile(row: RowId, file: Option<Key>)     // UPDATE … SET attachment_path
    | Put(key: Key)                              // store a file
    | OnCommit(hook: Hook)
    | OnRollback(hook: Hook)
    | Raise
    | Nested(body: seq<Act>)                     // a service that opens its own transaction
    | Guarded(body: seq<Act>)                    // try: … except: pass
    | Attach(row: RowId)                         // save_upload, UPDATE, delete_after_commit(old file)
    | Detach(row: RowId)

  /** Leading disconnects: the connections a fresh session goes through before one answers. */
  function Dead(attempts: seq<Attempt>): (n: nat)
    ensures n <= |attempts| && (n < |attempts| ==> attempts[n] != Gone)
  {
    if attempts != [] && attempts[0] == Gone then 1 + Dead(attempts[1..]) else 0
  }

  function First(answers: seq<Attempt>): Attempt {
    if answers == [] then Succeeds else answers[0]
  }

  function Rest(answers: seq<Attempt>): seq<Attempt> {
    if answers == [] then [] else answers[1..]
  }

  /** The n-th connection a session goes through that starts with `lease` and then takes new ones. */
  function Tried(lease: Option<ConnId>, next: ConnId, n: nat): ConnId {
    if lease.None? then next + n else if n == 0 then lease.value else next + n - 1
  }

  /** The first n of them, each given back as no longer usable. */
  function Discarded(lease: Option<ConnId>, next: ConnId, n: nat): (given: seq<(ConnId, bool)>)
    ensures |given| == n && forall i :: 0 <= i < n ==> given[i] == (Tried(lease, next, i), true)
  {
    if n == 0 then [] else Discarded(lease, next, n - 1) + [(Tried(lease, next, n - 1), true)]
  }

  lemma OneMoreDiscarded(lease: Option<ConnId>, next: ConnId, n: nat)
    ensures Discarded(lease, next, n + 1) == Discarded(lease, next, n) + [(Tried(lease, next, n), true)]
  {
  }

  lemma RetriesGoOn(answers: seq<Attempt>, n: nat)
    requires n <= Dead(answers)
    ensures First(answers[n..]) == Gone <==> n < Dead(answers)
    ensures n < Dead(answers) ==> Rest(answers[n..]) == answers[n + 1..]
    decreases n
  {
    if n > 0 {
      RetriesGoOn(answers[1..], n - 1);
      assert answers[1..][n - 1..] == answers[n..];
    }
  }

  function Update(rows: map<RowId, Key>, row: RowId, file: Option<Key>): map<RowId, Key> {
    if file.Some? then rows[row := file.value] else map r | r in rows && r != row :: rows[r]
  }

  function Keys(hooks: seq<Hook>): set<Key> {
    set h | h in hooks :: h.key
  }

  lemma KeysGrow(hooks: seq<Hook>, h: Hook)
    ensures Keys(hooks + [h]) == Keys(hooks) + {h.key}
  {
    assert forall g :: g in hooks + [h] <==> g in hooks || g == h;
    assert forall k :: k in Keys(hooks) ==> exists g :: g in hooks && g.key == k;
  }

  /** Bodies made of uploads, replacements and removals, with exceptions but without handlers. */
  predicate Plain(body: seq<Act>)
    decreases body, 0
  {
    forall a :: a in body ==> PlainAct(a)
  }

  predicate PlainAct(a: Act)
    decreases a, 1
  {
    match a
    case Attach(_) | Detach(_) | Raise => true
    case Nested(inner) => Plain(inner)
    case _ => false
  }

  // ------------------------------------------------- what a body amounts to

  /** A block under way: the tables and files as it sees them, the hooks it has registered, how its next
      statements will be answered, and whether its connection broke. */
  datatype Block = Block(rows: map<RowId, Key>, files: set<Key>, nextKey: Key,
    onCommit: seq<Hook>, onRollback: seq<Hook>, answers: seq<Attempt>, broken: bool)

  /** The hooks and, when the row names a file, one more that removes it. */
  function AndOldFile(hooks: seq<Hook>, rows: map<RowId, Key>, row: RowId): seq<Hook> {
    if row in rows then hooks + [Delete(rows[row])] else hooks
  }

  /** UPDATE: an error raises, and a lost connection breaks the session. */
  function Updated(b: Block, row: RowId, file: Option<Key>): (Block, bool) {
    var a := First(b.answers);
    var b' := b.(answers := Rest(b.answers), broken := b.broken || a == Gone || a == OpError);
    if a == Succeeds then (b'.(rows := Update(b.rows, row, file)), true) else (b', false)
  }

  /** It touches the one row, or nothing. */
  lemma UpdateTouches(b: Block, row: RowId, file: Option<Key>)
    ensures var (b', ok) := Updated(b, row, file);
      && b' == b.(rows := b'.rows, answers := b'.answers, broken := b'.broken)
      && (if ok then b'.rows == Update(b.rows, row, file) else b'.rows == b.rows)
      && (ok ==> if file.Some? then row in b'.rows && b'.rows[row] == file.value else row !in b'.rows)
      && (forall r :: r in b.rows && r != row ==> r in b'.rows && b'.rows[r] == b.rows[r])
  {
  }

  /** One act, and whether it ends without raising. */
  function Acted(a: Act, b: Block): (Block, bool)
    decreases a, 0
  {
    match a
    case SetFile(row, file) => Updated(b, row, file)
    case Put(key) => (b.(files := b.files + {key}), true)
    case OnCommit(hook) => (b.(onCommit := b.onCommit + [hook]), true)
    case OnRollback(hook) => (b.(onRollback := b.onRollback + [hook]), true)
    case Raise => (b, false)
    case Nested(body) => Played(body, b)
    case Guarded(body) => (Played(body, b).0, true)
    case Attach(row) =>
      // the file is there whatever becomes of the row; the hook of a roll-back removes it
      var stored := b.(files := b.files + {b.nextKey}, nextKey := b.nextKey + 1,
                       onRollback := b.onRollback + [Delete(b.nextKey)]);
      var (b', ok) := Updated(stored, row, Some(b.nextKey));
      (if ok then b'.(onCommit := AndOldFile(b.onCommit, b.rows, row)) else b', ok)
    case Detach(row) =>
      var (b', ok) := Updated(b, row, None);
      (if ok then b'.(onCommit := AndOldFile(b.onCommit, b.rows, row)) else b', ok)
  }

  /** A whole body: act after act, up to the first that raises. */
  function Played(body: seq<Act>, b: Block): (Block, bool)
    decreases body, 1
  {
    if body == [] then (b, true)
    else
      var (before, ok) := Played(body[..|body| - 1], b);
      if !ok then (before, false) else Acted(body[|body| - 1], before)
  }

  /** No exception is swallowed. */
  predicate Unguarded(body: seq<Act>)
    decreases body, 0
  {
    forall a :: a in body ==> UnguardedAct(a)
  }

  predicate UnguardedAct(a: Act)
    decreases a, 1
  {
    match a
    case Nested(inner) => Unguarded(inner)
    case Guarded(_) => false
    case _ => true
  }

  lemma PlayedStops(body: seq<Act>, i: nat, b: Block)
    requires i <= |body| && !Played(body[..i], b).1
    ensures Played(body, b) == Played(body[..i], b)
    decreases |body| - i
  {
    if i == |body| {
      assert body[..i] == body;
    } else {
      assert body[..i + 1][..i] == body[..i];
      PlayedStops(body, i + 1, b);
    }
  }

  /** A body uses up answers from the front. */
  lemma {:induction false} AnswersUsed(body: seq<Act>, b: Block)
    ensures forall a :: a in Played(body, b).0.answers ==> a in b.answers
    decreases body, 1
  {
    if body != [] {
      AnswersUsed(body[..|body| - 1], b);
      AnswersUsedBy(body[|body| - 1], Played(body[..|body| - 1], b).0);
    }
  }

  lemma {:induction false} AnswersUsedBy(a: Act, b: Block)
    ensures forall x :: x in Acted(a, b).0.answers ==> x in b.answers
    decreases a, 0
  {
    match a
    case Nested(body) => AnswersUsed(body, b);
    case Guarded(body) => AnswersUsed(body, b);
    case _ =>
  }

  /** Bodies that register hooks themselves, at any depth. */
  predicate Explicit(body: seq<Act>)
    decreases body, 0
  {
    forall a :: a in body ==> ExplicitAct(a)
  }

  predicate ExplicitAct(a: Act)
    decreases a, 1
  {
    match a
    case SetFile(_, _) | Put(_) | OnCommit(_) | OnRollback(_) => true
    case Nested(inner) => Explicit(inner)
    case _ => false
  }

  function Registered(body: seq<Act>, commit: bool): seq<Hook>
    decreases body, 1
  {
    if body == [] then []
    else Registered(body[..|body| - 1], commit) + RegisteredBy(body[|body| - 1], commit)
  }

  function RegisteredBy(a: Act, commit: bool): seq<Hook>
    decreases a, 0
  {
    match a
    case OnCommit(hook) => if commit then [hook] else []
    case OnRollback(hook) => if commit then [] else [hook]
    case Nested(inner) => Registered(inner, commit)
    case _ => []
  }

  /** When every statement succeeds, each hook is registered once, in the order of the text, whatever the
      nesting. */
  lemma {:induction false} HooksInOrder(body: seq<Act>, b: Block)
    requires Explicit(body) && b.answers == []
    ensures var (b', ok) := Played(body, b);
      && ok && b'.answers == [] && b'.onCommit == b.onCommit + Registered(body, true)
      && b'.onRollback == b.onRollback + Registered(body, false)
    decreases body
  {
    if body != [] {
      var last := body[|body| - 1];
      HooksInOrder(body[..|body| - 1], b);
      assert ExplicitAct(last);
      if last.Nested? { HooksInOrder(last.body, Played(body[..|body| - 1], b).0); }
    }
  }

  predicate Raises(body: seq<Act>)
    decreases body, 0
  {
    exists a :: a in body && RaisesAct(a)
  }

  predicate RaisesAct(a: Act)
    decreases a, 1
  {
    match a
    case Raise => true
    case Nested(inner) => Raises(inner)
    case _ => false
  }

  /** When every statement succeeds, an exception that nobody swallows ends the block, and nothing else
      does. */
  lemma {:induction false} RaisesIff(body: seq<Act>, b: Block)
    requires Unguarded(body) && b.answers == []
    ensures (Played(body, b).1 <==> !Raises(body)) && Played(body, b).0.answers == []
    decreases body
  {
    if body != [] {
      var rest, last := body[..|body| - 1], body[|body| - 1];
      assert forall a :: a in body <==> a in rest || a == last;
      assert Raises(body) <==> Raises(rest) || RaisesAct(last);
      RaisesIff(rest, b);
      assert UnguardedAct(last);
      if last.Nested? { RaisesIff(last.body, Played(rest, b).0); }
    }
  }

  /** A block that got through is committed; the answer to the COMMIT may be lost. */
  function EndingOf(through: bool, answers: seq<Attempt>): Ending {
    if !through then RolledBack
    else match First(answers)
      case Succeeds => Committed
      case LostAck => Lost
      case _ => RolledBack
  }

  // --------------------------------------------------- files and tables

  ghost predicate Injective(rows: map<RowId, Key>) {
    forall r, q :: r in rows && q in rows && rows[r] == rows[q] ==> r == q
  }

  /** The files are the committed ones and those the rollback hooks would remove. */
  ghost predicate Tracked(files: set<Key>, committed: map<RowId, Key>, onRollback: seq<Hook>, nextKey: Key) {
    && files == committed.Values + Keys(onRollback) && committed.Values !! Keys(onRollback)
    && forall k :: k in files ==> k < nextKey
  }

  /** The files are the ones the tables now name and those the commit hooks would remove. */
  ghost predicate Settled(files: set<Key>, working: map<RowId, Key>, onCommit: seq<Hook>) {
    files == working.Values + Keys(onCommit) && working.Values !! Keys(onCommit) && Injective(working)
  }

  /** Every stored file is named by exactly one row, and every row's file is stored. */
  ghost predicate Consistent(files: set<Key>, rows: map<RowId, Key>, nextKey: Key) {
    files == rows.Values && Injective(rows) && forall k :: k in files ==> k < nextKey
  }

  /** Naming `file` (fresh, or nothing) in `row` frees exactly the old file. */
  lemma Replaced(files: set<Key>, working: map<RowId, Key>, onCommit: seq<Hook>, row: RowId, file: Option<Key>)
    requires Settled(files, working, onCommit) && (file.Some? ==> file.value !in files)
    ensures var hooks := if row in working then onCommit + [Delete(working[row])] else onCommit;
      Settled(files + (if file.Some? then {file.value} else {}), Update(working, row, file), hooks)
  {
    var rows := Update(working, row, file);
    var freed := if row in working then {working[row]} else {};
    if row in working { KeysGrow(onCommit, Delete(working[row])); }
    forall k: Key ensures k in rows.Values <==> (k in working.Values && k !in freed) || Some(k) == file {
      if k in working.Values && k !in freed {
        var r :| r in working && working[r] == k;
        assert r in rows && rows[r] == k;
      }
      if Some(k) == file { assert row in rows && rows[row] == k; }
    }
  }

  /** A fresh file is tracked by the hook that would remove it. */
  lemma StoredTracked(files: set<Key>, was: map<RowId, Key>, onRollback: seq<Hook>, nextKey: Key)
    requires Tracked(files, was, onRollback, nextKey)
    ensures Tracked(files + {nextKey}, was, onRollback + [Delete(nextKey)], nextKey + 1) && nextKey !in files
  {
    KeysGrow(onRollback, Delete(nextKey));
  }

  lemma CommitSettles(files: set<Key>, was: map<RowId, Key>, rows: map<RowId, Key>, onCommit: seq<Hook>,
      onRollback: seq<Hook>, nextKey: Key)
    requires Tracked(files, was, onRollback, nextKey) && Settled(files, rows, onCommit)
    ensures Consistent(files - Keys(onCommit), rows, nextKey)
  {
  }

  lemma RollbackSettles(files: set<Key>, was: map<RowId, Key>, onRollback: seq<Hook>, nextKey: Key)
    requires Tracked(files, was, onRollback, nextKey)
    ensures files - Keys(onRollback) == was.Values
    ensures Injective(was) ==> Consistent(files - Keys(onRollback), was, nextKey)
  {
  }

  /** The roll-back hooks after a commit that took effect: right exactly when the same files are named. */
  lemma LostCommitIff(files: set<Key>, was: map<RowId, Key>, rows: map<RowId, Key>, onCommit: seq<Hook>,
      onRollback: seq<Hook>, nextKey: Key)
    requires Tracked(files, was, onRollback, nextKey) && Settled(files, rows, onCommit)
    ensures Consistent(files - Keys(onRollback), rows, nextKey) <==> rows.Values == was.Values
  {
    RollbackSettles(files, was, onRollback, nextKey);
  }

  /** What either hook list leaves behind at the end of a transaction of uploads and removals. */
  lemma LeavingSettles(files: set<Key>, was: map<RowId, Key>, rows: map<RowId, Key>, onCommit: seq<Hook>,
      onRollback: seq<Hook>, nextKey: Key, ok: bool)
    requires Tracked(files, was, onRollback, nextKey) && Injective(was)
    requires ok ==> Settled(files, rows, onCommit)
    ensures files - Keys(onRollback) == was.Values
    ensures Consistent(files - Keys(onRollback), was, nextKey)
    ensures ok ==> Consistent(files - Keys(onCommit), rows, nextKey)
    ensures ok ==> (Consistent(files - Keys(onRollback), rows, nextKey) <==> rows.Values == was.Values)
  {
    hide *;
    RollbackSettles(files, was, onRollback, nextKey);
    if ok {
      CommitSettles(files, was, rows, onCommit, onRollback, nextKey);
      LostCommitIff(files, was, rows, onCommit, onRollback, nextKey);
    }
  }

  class Db {
    var lease: Option<ConnId>
    var used: bool
    var broken: bool
    var depth: nat
    var onCommit: seq<Hook>
    var onRollback: seq<Hook>

    // the world outside: how statements will be answered, the tables, the store
    var attempts: seq<Attempt>
    var nextConn: ConnId
    var nextKey: Key
    var committed: map<RowId, Key>
    var working: map<RowId, Key>
    var files: set<Key>
    ghost var returned: seq<(ConnId, bool)>       // connections given back to the pool, with `discard`
    ghost var ran: seq<Hook>                      // hooks run so far
    ghost var sent: seq<ConnId>                   // the connection of every answered statement

    constructor (attempts: seq<Attempt>, rows: map<RowId, Key>, nextKey: Key)
      ensures Idle() && committed == working == rows && files == rows.Values && this.attempts == attempts
      ensures this.nextKey == nextKey && returned == [] && ran == [] && sent == [] && lease == None
    {
      lease, used, broken, depth, onCommit, onRollback := None, false, false, 0, [], [];
      this.attempts, nextConn, this.nextKey := attempts, 0, nextKey;
      committed, working, files := rows, rows, rows.Values;
      returned, ran, sent := [], [], [];
    }

    /** Between transactions. */
    predicate Idle()
      reads this
    {
      depth == 0 && onCommit == [] && onRollback == [] && working == committed
    }

    // ------------------------------------------------------------ statements

    method Answer() returns (a: Attempt)
      modifies this`attempts
      ensures a == First(old(attempts)) && attempts == Rest(old(attempts))
    {
      if attempts == [] { return Succeeds; }
      a, attempts := attempts[0], attempts[1..];
    }

    method Connection() returns (conn: ConnId)
      modifies this`lease, this`used, this`nextConn
      ensures lease == Some(conn)
      ensures old(lease).Some? ==> lease == old(lease) && used == old(used) && nextConn == old(nextConn)
      ensures old(lease).None? ==> !used && conn == old(nextConn) && nextConn == conn + 1
    {
      if lease.None? {
        lease, used, nextConn := Some(nextConn), false, nextConn + 1;
      }
      conn := lease.value;
    }

    /** Nothing has run on the connection, if there is one. */
    predicate Fresh()
      reads this
    {
      depth == 0 && (lease.None? || !used)
    }

    /** How often a fresh session replaces its connection before a statement is answered. */
    function Retries(): nat
      reads this
    {
      if Fresh() then Dead(attempts) else 0
    }

    /** One try on the connection there is, or on a new one: only on one on which nothing ran, and outside
        a transaction, is a disconnect a reason to try again; any other operational error breaks it. */
    method Try() returns (a: Attempt, again: bool)
      requires depth > 0 ==> lease.Some?
      modifies this`lease, this`used, this`nextConn, this`attempts, this`broken, this`returned, this`sent
      ensures a == First(old(attempts)) && attempts == Rest(old(attempts))
      ensures again <==> a == Gone && old(Fresh())
      ensures nextConn == if old(lease).Some? then old(nextConn) else old(nextConn) + 1
      ensures var conn := if old(lease).Some? then old(lease).value else old(nextConn);
        if again then
          lease == None && returned == old(returned) + [(conn, true)] && sent == old(sent) && broken == old(broken)
        else
          && lease == Some(conn) && returned == old(returned)
          && broken == (old(broken) || a == Gone || a == OpError)
          && if a == Succeeds then used && sent == old(sent) + [conn] else sent == old(sent)
    {
      again := false;
      var conn := Connection();
      var retryable := !used && depth == 0;
      a := Answer();
      match a
      case Succeeds =>
        used := true;
        sent := sent + [conn];
      case Gone =>
        if retryable {
          lease, again := None, true;
          returned := returned + [(conn, true)];
        } else {
          broken := true;
        }
      case OpError => broken := true;
      case Rejected | LostAck =>
    }

    /** `_run` and `_begin`: a statement is retried on a new connection as long as nothing ran on
        the present one and no transaction is open; otherwise a lost connection is never reused. */
    method Run() returns (ok: bool)
      requires depth > 0 ==> lease.Some?
      modifies this`lease, this`used, this`nextConn, this`attempts, this`broken, this`returned, this`sent
      ensures var answers := old(attempts)[old(Retries())..];
        && ok == (First(answers) == Succeeds) && attempts == Rest(answers)
        && broken == (old(broken) || First(answers) == Gone || First(answers) == OpError)
      ensures lease == Some(Tried(old(lease), old(nextConn), old(Retries())))
      ensures returned == old(returned) + Discarded(old(lease), old(nextConn), old(Retries()))
      ensures if ok then used && sent == old(sent) + [lease.value] else sent == old(sent)
    {
      ghost var n := 0;
      var a, again := Succeeds, true;
      assert old(returned) + Discarded(lease, nextConn, 0) == returned;
      hide Discarded, Dead, First, Rest;
      while again
        invariant 0 <= n <= old(Retries()) && (again ==> attempts == old(attempts)[n..])
        invariant again && n == 0 ==> lease == old(lease) && used == old(used) && nextConn == old(nextConn)
        invariant again && n > 0 ==> Fresh() && lease == None && nextConn == Tried(old(lease), old(nextConn), n)
        invariant returned == old(returned) + Discarded(old(lease), old(nextConn), n)
        invariant again ==> broken == old(broken) && sent == old(sent)
        invariant !again ==> n == old(Retries()) && lease == Some(Tried(old(lease), old(nextConn), n))
        invariant !again ==> a == First(old(attempts)[n..]) && attempts == Rest(old(attempts)[n..])
        invariant !again ==> broken == (old(broken) || a == Gone || a == OpError)
        invariant !again ==> if a == Succeeds then used && sent == old(sent) + [lease.value] else sent == old(sent)
        decreases again, |attempts|
      {
        RetriesGoOn(old(attempts), n);
        OneMoreDiscarded(old(lease), old(nextConn), n);
        a, again := Try();
        if again { n := n + 1; }
      }
      ok := a == Succeeds;
    }

    // ------------------------------------------------------------- hooks

    /** `_run_hooks`: both lists are emptied first, then each hook of `hooks` runs once, in order. */
    method RunHooks(hooks: seq<Hook>)
      modifies this`onCommit, this`onRollback, this`files, this`ran
      ensures onCommit == [] && onRollback == []
      ensures ran == old(ran) + hooks
      ensures files == old(files) - Keys(hooks)
    {
      onCommit, onRollback := [], [];
      for i := 0 to |hooks|
        invariant onCommit == [] && onRollback == []
        invariant ran == old(ran) + hooks[..i]
        invariant files == old(files) - Keys(hooks[..i])
      {
        files := files - {hooks[i].key};
        ran := ran + [hooks[i]];
        assert hooks[..i + 1] == hooks[..i] + [hooks[i]];
        KeysGrow(hooks[..i], hooks[i]);
      }
      assert hooks[..|hooks|] == hooks;
    }

    // ------------------------------------------------------- transactions

    /** What every part of a transaction's body leaves alone. */
    twostate predicate Inside()
      reads this
    {
      && depth == old(depth) && depth > 0 && lease == old(lease) && lease.Some?
      && committed == old(committed) && ran == old(ran) && returned == old(returned)
      && old(sent) <= sent && forall i :: |old(sent)| <= i < |sent| ==> sent[i] == lease.value
    }

    function Here(): Block
      reads this
    {
      Block(working, files, nextKey, onCommit, onRollback, attempts, broken)
    }

    ghost predicate FilesTracked()
      reads this
    {
      Tracked(files, committed, onRollback, nextKey)
    }

    ghost predicate FilesSettled()
      reads this
    {
      Settled(files, working, onCommit)
    }

    method SetFile(row: RowId, file: Option<Key>) returns (ok: bool)
      requires depth > 0 && lease.Some?
      modifies this`lease, this`used, this`nextConn, this`attempts, this`broken, this`returned, this`sent, this`working
      ensures Inside() && (Here(), ok) == Updated(old(Here()), row, file)
    {
      ok := Run();
      if ok { working := Update(working, row, file); }
    }

    /** `save_upload`: the file is stored at once, and removed again if the transaction rolls back. */
    method SaveUpload() returns (key: Key)
      modifies this`files, this`nextKey, this`onRollback
      ensures key == old(nextKey) && nextKey == key + 1 && files == old(files) + {key}
      ensures onRollback == old(onRollback) + [Delete(key)]
      ensures old(FilesTracked()) ==> FilesTracked() && key !in old(files)
    {
      if FilesTracked() { StoredTracked(files, committed, onRollback, nextKey); }
      hide Tracked, Keys;
      key := nextKey;
      files, nextKey := files + {key}, nextKey + 1;
      onRollback := onRollback + [Delete(key)];
    }

    /** save_upload, UPDATE, delete_after_commit (services/notices.py `attach`). */
    method Attach(row: RowId) returns (ok: bool)
      requires depth > 0 && lease.Some?
      modifies this
      ensures Inside() && (Here(), ok) == Acted(Act.Attach(row), old(Here()))
      ensures ok ==> row in working && working[row] == old(nextKey) && old(nextKey) in files
      ensures onRollback == old(onRollback) + [Delete(old(nextKey))]
      ensures ok ==>
        onCommit == if row in old(working) then old(onCommit) + [Delete(old(working)[row])] else old(onCommit)
      ensures forall r :: r != row && r in old(working) ==> r in working && working[r] == old(working)[r]
      ensures old(FilesTracked()) ==> FilesTracked()
      ensures ok && old(FilesTracked() && FilesSettled()) ==> FilesSettled()
    {
      if FilesTracked() && FilesSettled() && nextKey !in files {
        Replaced(files, working, onCommit, row, Some(nextKey));
      }
      var before := if row in working then Some(working[row]) else None;
      var key := SaveUpload();
      UpdateTouches(Here(), row, Some(key));
      hide Tracked, Settled, Keys, Updated, Update;
      ok := SetFile(row, Some(key));
      if ok && before.Some? { onCommit := onCommit + [Delete(before.value)]; }
    }

    /** UPDATE … = NULL, delete_after_commit (services/notices.py `remove_attachment`). */
    method Detach(row: RowId) returns (ok: bool)
      requires depth > 0 && lease.Some?
      modifies this
      ensures Inside() && (Here(), ok) == Acted(Act.Detach(row), old(Here()))
      ensures ok ==> row !in working
      ensures onRollback == old(onRollback) && files == old(files)
      ensures ok ==>
        onCommit == if row in old(working) then old(onCommit) + [Delete(old(working)[row])] else old(onCommit)
      ensures forall r :: r != row && r in old(working) ==> r in working && working[r] == old(working)[r]
      ensures old(FilesTracked()) ==> FilesTracked()
      ensures ok && old(FilesTracked() && FilesSettled()) ==> FilesSettled()
    {
      var before := if row in working then Some(working[row]) else None;
      if FilesTracked() && FilesSettled() { Replaced(files, working, onCommit, row, None); }
      assert files + {} == files;
      UpdateTouches(Here(), row, None);
      hide Tracked, Settled, Keys, Updated, Update;
      ok := SetFile(row, None);
      if ok && before.Some? { onCommit := onCommit + [Delete(before.value)]; }
    }

    method Body(body: seq<Act>) returns (ok: bool)
      requires depth > 0 && lease.Some?
      modifies this
      ensures Inside() && (Here(), ok) == Played(body, old(Here()))
      ensures Plain(body) && old(FilesTracked()) ==> FilesTracked()
      ensures Plain(body) && ok && old(FilesTracked() && FilesSettled()) ==> FilesSettled()
      decreases body, 1
    {
      ghost var start := Here();
      assert body[..|body|] == body;
      for i := 0 to |body|
        invariant Inside() && Played(body[..i], start) == (Here(), true)
        invariant Plain(body) && old(FilesTracked()) ==> FilesTracked()
        invariant Plain(body) && old(FilesTracked() && FilesSettled()) ==> FilesSettled()
      {
        assert body[..i + 1][..i] == body[..i];
        ok := Do(body[i]);
        if !ok {
          PlayedStops(body, i + 1, start);
          return;
        }
      }
      ok := true;
    }

    method Do(a: Act) returns (ok: bool)
      requires depth > 0 && lease.Some?
      modifies this
      ensures Inside() && (Here(), ok) == Acted(a, old(Here()))
      ensures PlainAct(a) && old(FilesTracked()) ==> FilesTracked()
      ensures PlainAct(a) && ok && old(FilesTracked() && FilesSettled()) ==> FilesSettled()
      decreases a, 0
    {
      ok := true;
      match a
      case SetFile(row, file) => ok := SetFile(row, file);
      case Put(key) => files := files + {key};
      case OnCommit(hook) => onCommit := onCommit + [hook];
      case OnRollback(hook) => onRollback := onRollback + [hook];
      case Raise => ok := false;
      case Nested(body) =>
        // joins the outer transaction: only the depth moves
        depth := depth + 1;
        ok := Body(body);
        depth := depth - 1;
      case Guarded(body) =>
        var _ := Body(body);
      case Attach(row) => ok := Attach(row);
      case Detach(row) => ok := Detach(row);
    }

    method RollBack()
      modifies this`working, this`broken, this`attempts
      ensures working == committed && attempts == Rest(old(attempts))
      ensures broken == (old(broken) || First(old(attempts)) != Succeeds)
    {
      working := committed;
      var a := Answer();
      if a != Succeeds { broken := true; }
    }

    /** Leaving the outermost block: commit unless it raised, then exactly one of the two hook lists. */
    method Leave(raised: bool) returns (ok: bool, ghost ending: Ending)
      requires depth == 1
      modifies this`depth, this`onCommit, this`onRollback, this`attempts, this`committed, this`working,
               this`files, this`broken, this`ran
      ensures Idle() && (ok <==> ending == Committed) && ending == EndingOf(!raised, old(attempts))
      ensures committed == if ending == RolledBack then old(committed) else old(working)
      ensures ending != NotBegun && (raised ==> ending == RolledBack)
      ensures var hooks := if ok then old(onCommit) else old(onRollback);
        ran == old(ran) + hooks && files == old(files) - Keys(hooks)
      ensures ending == Lost ==> LostAck in old(attempts)
      ensures forall a :: a in attempts ==> a in old(attempts)
      ensures var later := if raised then old(attempts) else Rest(old(attempts));
        && attempts == (if ok then later else Rest(later))
        && broken == (old(broken) || (!ok && First(later) != Succeeds))
    {
      ending, ok := RolledBack, false;
      if !raised {
        var a := Answer();
        if a == Succeeds || a == LostAck { committed := working; }
        if a == LostAck { ending := Lost; }
        ok := a == Succeeds;
      }
      depth := 0;
      if ok {
        ending := Committed;
        RunHooks(onCommit);
      } else {
        RollBack();
        RunHooks(onRollback);
      }
    }

    /** BEGIN: the first statement of a transaction. */
    method Enter() returns (ok: bool)
      requires Idle()
      modifies this`lease, this`used, this`nextConn, this`attempts, this`broken, this`returned, this`sent, this`depth
      ensures var answers := old(attempts)[old(Retries())..];
        && ok == (First(answers) == Succeeds) && attempts == Rest(answers)
        && broken == (old(broken) || First(answers) == Gone || First(answers) == OpError)
      ensures !ok ==> Idle() && sent == old(sent)
      ensures forall a :: a in attempts ==> a in old(attempts)
      ensures ok ==> depth == 1 && lease.Some? && sent == old(sent) + [lease.value]
      ensures returned == old(returned) + Discarded(old(lease), old(nextConn), old(Retries()))
      ensures ok && Consistent(files, committed, nextKey) ==>
        FilesTracked() && FilesSettled() && Injective(committed)
    {
      ok := Run();
      if ok {
        depth := 1;
        assert Keys([]) == {};
      }
    }

    /** From BEGIN on: the body, then the way out. */
    method Finish(body: seq<Act>) returns (ok: bool, ghost ending: Ending)
      requires depth == 1 && lease.Some?
      modifies this
      ensures Idle() && (ok <==> ending == Committed) && ending != NotBegun
      ensures var (b, through) := Played(body, old(Here()));
        var hooks := if ok then b.onCommit else b.onRollback;
        && ending == EndingOf(through, b.answers)
        && committed == (if ending == RolledBack then old(committed) else b.rows)
        && ran == old(ran) + hooks && files == b.files - Keys(hooks) && nextKey == b.nextKey
      ensures lease == old(lease) && returned == old(returned)
      ensures old(sent) <= sent && forall i :: |old(sent)| <= i < |sent| ==> sent[i] == lease.value
      ensures Plain(body) && old(FilesTracked() && FilesSettled() && Injective(committed)) ==>
        if ending == Lost then
          files == old(committed).Values
          && (Consistent(files, committed, nextKey) <==> committed.Values == old(committed).Values)
        else Consistent(files, committed, nextKey)
      ensures ending == Lost ==> LostAck in old(attempts)
      ensures forall a :: a in attempts ==> a in old(attempts)
    {
      AnswersUsed(body, Here());
      ok := Body(body);
      if Plain(body) && old(FilesTracked() && FilesSettled() && Injective(committed)) {
        LeavingSettles(files, committed, working, onCommit, onRollback, nextKey, ok);
      }
      hide Tracked, Settled, Consistent, Plain, Keys, Played, First, Rest, Dead, EndingOf, Injective;
      ok, ending := Leave(!ok);
    }

    /** The outermost `with db.transaction()`: one connection throughout, exactly one of the two hook
        lists run on the way out, and the stored files are again the ones the tables name. */
    method Transaction(body: seq<Act>) returns (ok: bool, ghost ending: Ending)
      requires Idle()
      modifies this
      ensures Idle() && (ok <==> ending == Committed)
      ensures var answers := old(attempts)[old(Retries())..];
        if First(answers) != Succeeds then
          ending == NotBegun && ran == old(ran) && committed == old(committed) && files == old(files)
        else
          var (b, through) := Played(body, old(Here()).(answers := Rest(answers)));
          var hooks := if ok then b.onCommit else b.onRollback;
          && ending == EndingOf(through, b.answers)
          && committed == (if ending == RolledBack then old(committed) else b.rows)
          && ran == old(ran) + hooks && files == b.files - Keys(hooks) && nextKey == b.nextKey
      ensures old(sent) <= sent
      ensures ending != NotBegun ==> lease.Some? && forall i :: |old(sent)| <= i < |sent| ==> sent[i] == lease.value
      ensures Plain(body) && ending != Lost && Consistent(old(files), old(committed), old(nextKey)) ==>
        Consistent(files, committed, nextKey)
      ensures Plain(body) && ending == Lost && Consistent(old(files), old(committed), old(nextKey)) ==>
        files == old(files) && (Consistent(files, committed, nextKey) <==> committed.Values == old(committed).Values)
      ensures ending == Lost ==> LostAck in old(attempts)
      ensures forall a :: a in attempts ==> a in old(attempts)
    {
      assert Consistent(files, committed, nextKey) ==> files == committed.Values;
      ok := Enter();
      hide Tracked, Settled, Consistent, Plain, Keys, Played, First, Rest, Dead, EndingOf, Injective;
      if !ok {
        ending := NotBegun;
        return;
      }
      ok, ending := Finish(body);
    }

    /** `close`: the borrowed connection goes back, discarded when it broke. */
    method Close()
      modifies this`lease, this`returned
      ensures lease == None
      ensures returned == if old(lease).Some? then old(returned) + [(old(lease).value, broken)] else old(returned)
    {
      if lease.Some? {
        returned := returned + [(lease.value, broken)];
        lease := None;
      }
    }

    /** Whatever a request does, transaction after transaction, no stored file is ever orphaned and no
        row names a missing one, as long as no commit that names other files was lost. */
    method Request(bodies: seq<seq<Act>>) returns (ghost lost: bool)
      requires Idle() && Consistent(files, committed, nextKey)
      requires forall b :: b in bodies ==> Plain(b)
      modifies this
      ensures Idle() && (!lost ==> Consistent(files, committed, nextKey))
      ensures lost ==> LostAck in old(attempts)
    {
      lost := false;
      for i := 0 to |bodies|
        invariant Idle() && (!lost ==> Consistent(files, committed, nextKey))
        invariant lost ==> LostAck in old(attempts)
        invariant forall a :: a in attempts ==> a in old(attempts)
      {
        ghost var named := committed.Values;
        var _, ending := Transaction(bodies[i]);
        lost := lost || (ending == Lost && committed.Values != named);
      }
    }
  }

  /** The docstring of `_run` promises one retry; a fresh session behind two dead connections makes two. */
  method RetriesTwice() returns (db: Db, ok: bool)
    ensures ok && |db.returned| == 2
  {
    db := new Db([Gone, Gone], map[], 0);
    assert Dead([Gone, Gone]) == 2;
    ok := db.Run();
  }
}
