/** The connection pool of db/pool.py shared by any number of threads: a bounded semaphore of
    slots, a deque of idle connections behind a lock, and connections outside both. */
module ConnectionPool {
  import opened Collections

  type ConnId = nat
  type ThreadId = nat

  datatype Config = Config(poolSize: nat, maxOverflow: nat, recycleAfter: int, pingAfter: int)

  datatype Conn = Conn(createdAt: int, lastUsedAt: int, inTransaction: bool, open: bool)

  /** Where a thread is between two atomic actions of acquire, use and release. */
  datatype Pc =
    | Outside
    | Choosing                       // holds a slot, at the top of the `while True`
    | Testing(conn: ConnId)          // popped from the deque, about to be tested
    | Dropping(conn: ConnId)         // not usable, about to be closed
    | Connecting
    | Using(conn: ConnId)
    | Returning(conn: ConnId, discard: bool)
    | Evicting(conn: ConnId)         // not kept, about to be closed
    | Leaving                        // about to give the slot back

  /** `conns` are the connections the pool has not closed. */
  datatype State = State(
    idle: seq<ConnId>, slots: nat, conns: map<ConnId, Conn>, next: ConnId, threads: map<ThreadId, Pc>)

  /** What the clock, the database and the borrower decide. */
  datatype Choice = Choice(now: int, pingOk: bool, connectOk: bool, work: Option<Conn>, discard: bool, rollbackOk: bool)

  function Slots(c: Config): nat {
    c.poolSize + c.maxOverflow
  }

  predicate Usable(c: Config, conn: Conn, ch: Choice) {
    && ch.now - conn.createdAt <= c.recycleAfter
    && (ch.now - conn.lastUsedAt > c.pingAfter ==> ch.pingOk)
  }

  /** Not past its age, and used a moment ago or found answering just now. */
  predicate Sound(c: Config, conn: Conn, now: int, answers: bool) {
    now <= conn.createdAt + c.recycleAfter && (now <= conn.lastUsedAt + c.pingAfter || answers)
  }

  lemma UsableIffSound(c: Config, conn: Conn, ch: Choice)
    ensures Usable(c, conn, ch) <==> Sound(c, conn, ch.now, ch.pingOk)
  {
  }

  function Closed(conns: map<ConnId, Conn>, conn: ConnId): map<ConnId, Conn> {
    map k | k in conns && k != conn :: conns[k]
  }

  function Goes(s: State, t: ThreadId, pc: Pc): State {
    s.(threads := s.threads[t := pc])
  }

  /** The next atomic action of thread `t`; None while it waits for a slot. */
  function Step(c: Config, s: State, t: ThreadId, ch: Choice): Option<State>
    requires t in s.threads
  {
    match s.threads[t]
    case Outside =>
      if s.slots == 0 then None else Some(Goes(s, t, Choosing).(slots := s.slots - 1))
    case Choosing =>
      if s.idle == [] then Some(Goes(s, t, Connecting))
      else Some(Goes(s, t, Testing(s.idle[|s.idle| - 1])).(idle := s.idle[..|s.idle| - 1]))
    case Testing(conn) =>
      if conn in s.conns && Usable(c, s.conns[conn], ch) then Some(Goes(s, t, Using(conn)))
      else Some(Goes(s, t, Dropping(conn)))
    case Dropping(conn) =>
      Some(Goes(s, t, Choosing).(conns := Closed(s.conns, conn)))
    case Connecting =>
      if ch.connectOk
      then Some(Goes(s, t, Using(s.next)).(next := s.next + 1,
                                           conns := s.conns[s.next := Conn(ch.now, ch.now, false, true)]))
      else Some(Goes(s, t, Leaving))
    case Using(conn) =>
      if conn !in s.conns then None
      else if ch.work.Some? then Some(s.(conns := s.conns[conn := ch.work.value]))
      else if !ch.discard && s.conns[conn].inTransaction && ch.rollbackOk
      then Some(Goes(s, t, Returning(conn, false)).(conns := s.conns[conn := s.conns[conn].(inTransaction := false)]))
      else Some(Goes(s, t, Returning(conn, ch.discard || s.conns[conn].inTransaction)))
    case Returning(conn, discard) =>
      if conn in s.conns && !discard && s.conns[conn].open && |s.idle| < c.poolSize
      then Some(Goes(s, t, Leaving).(idle := s.idle + [conn],
                                     conns := s.conns[conn := s.conns[conn].(lastUsedAt := ch.now)]))
      else Some(Goes(s, t, Evicting(conn)))
    case Evicting(conn) =>
      Some(Goes(s, t, Leaving).(conns := Closed(s.conns, conn)))
    case Leaving =>
      Some(Goes(s, t, Outside).(slots := s.slots + 1))
  }

  /** Whatever a borrower makes of its connection is one of the steps: a transaction left open, a lost
      connection, anything. */
  lemma AnyWork(c: Config, s: State, t: ThreadId, conn: ConnId, after: Conn) returns (ch: Choice)
    requires t in s.threads && s.threads[t] == Using(conn) && conn in s.conns
    ensures Step(c, s, t, ch).Some? && Step(c, s, t, ch).value == s.(conns := s.conns[conn := after])
  {
    ch := Choice(0, true, true, Some(after), false, true);
  }

  // ------------------------------------------------------------ invariant

  function Held(pc: Pc): Option<ConnId> {
    match pc
    case Testing(k) => Some(k)
    case Dropping(k) => Some(k)
    case Using(k) => Some(k)
    case Returning(k, _) => Some(k)
    case Evicting(k) => Some(k)
    case _ => None
  }

  /** Holds a connection or is making one. */
  predicate Carries(pc: Pc) {
    Held(pc).Some? || pc == Connecting
  }

  function Holders(threads: map<ThreadId, Pc>): set<ThreadId> {
    set t | t in threads && threads[t] != Outside
  }

  function Carriers(threads: map<ThreadId, Pc>): set<ThreadId> {
    set t | t in threads && Carries(threads[t])
  }

  function Connectors(threads: map<ThreadId, Pc>): set<ThreadId> {
    set t | t in threads && threads[t] == Connecting
  }

  ghost predicate Distinct(idle: seq<ConnId>) {
    forall i, j :: 0 <= i < j < |idle| ==> idle[i] != idle[j]
  }

  ghost predicate HeldByOne(threads: map<ThreadId, Pc>) {
    forall t, u :: t in threads && u in threads && t != u && Held(threads[t]).Some? ==>
        Held(threads[t]) != Held(threads[u])
  }

  ghost predicate Placed(s: State, k: ConnId) {
    k in s.idle || exists t :: t in s.threads && Held(s.threads[t]) == Some(k)
  }

  /** Each connection is in exactly one place: the deque, once, or one thread. */
  ghost predicate OnePlace(s: State) {
    && Distinct(s.idle) && HeldByOne(s.threads)
    && (forall k :: k in s.idle ==> k in s.conns)
    && (forall t :: t in s.threads && Held(s.threads[t]).Some? ==>
          Held(s.threads[t]).value in s.conns && Held(s.threads[t]).value !in s.idle)
    && (forall k :: k in s.conns ==> Placed(s, k) && k < s.next)
  }

  predicate Quiet(s: State, k: ConnId) {
    k in s.conns && !s.conns[k].inTransaction
  }

  /** No idle connection is in a transaction, nor one that is about to become idle. */
  ghost predicate Clean(s: State) {
    && (forall k :: k in s.idle ==> Quiet(s, k))
    && (forall t :: t in s.threads && s.threads[t].Returning? && !s.threads[t].discard ==> Quiet(s, s.threads[t].conn))
  }

  ghost predicate Counted(c: Config, s: State) {
    && s.slots + |Holders(s.threads)| == Slots(c)
    && |s.idle| + |Carriers(s.threads)| <= Slots(c)
    && |s.idle| <= c.poolSize
  }

  ghost predicate Inv(c: Config, s: State) {
    Counted(c, s) && OnePlace(s) && Clean(s)
  }

  // ---------------------------------------------------------------- steps

  /** How one atomic action of `t` moves a connection. */
  datatype Move = Stays | Pops | Pushes | Closes | Creates

  function MoveOf(before: Pc, after: Pc): Move {
    match (before, after)
    case (Choosing, Testing(_)) => Pops
    case (Returning(_, _), Leaving) => Pushes
    case (Dropping(_), _) => Closes
    case (Evicting(_), _) => Closes
    case (Connecting, Using(_)) => Creates
    case _ => Stays
  }

  ghost predicate Moves(s: State, s': State, t: ThreadId, move: Move) {
    && t in s.threads && t in s'.threads && s'.threads == s.threads[t := s'.threads[t]]
    && var was, now := Held(s.threads[t]), Held(s'.threads[t]);
    && (forall k :: k in s.conns && was != Some(k) ==> k in s'.conns && s'.conns[k] == s.conns[k])
    && match move
       case Stays => now == was && s'.idle == s.idle && s'.conns.Keys == s.conns.Keys && s'.next == s.next
       case Pops => was.None? && s.idle != [] && now == Some(s.idle[|s.idle| - 1])
         && s'.idle == s.idle[..|s.idle| - 1] && s'.conns == s.conns && s'.next == s.next
       case Pushes => was.Some? && now.None? && s'.idle == s.idle + [was.value]
         && s'.conns.Keys == s.conns.Keys && s'.next == s.next
       case Closes => was.Some? && now.None? && s'.idle == s.idle
         && s'.conns == Closed(s.conns, was.value) && s'.next == s.next
       case Creates =>
         was.None? && now == Some(s.next) && s'.idle == s.idle
         && s'.next == s.next + 1 && s'.conns.Keys == s.conns.Keys + {s.next}
  }

  lemma HolderMoves(c: Config, s: State, t: ThreadId, ch: Choice)
    requires t in s.threads && Held(s.threads[t]).Some? && Held(s.threads[t]).value in s.conns
    requires Step(c, s, t, ch).Some?
    ensures var s' := Step(c, s, t, ch).value; Moves(s, s', t, MoveOf(s.threads[t], s'.threads[t]))
  {
  }

  lemma StepMoves(c: Config, s: State, t: ThreadId, ch: Choice)
    requires t in s.threads && Step(c, s, t, ch).Some? && s.next !in s.conns
    requires Held(s.threads[t]).Some? ==> Held(s.threads[t]).value in s.conns
    ensures var s' := Step(c, s, t, ch).value; Moves(s, s', t, MoveOf(s.threads[t], s'.threads[t]))
  {
    if Held(s.threads[t]).Some? { HolderMoves(c, s, t, ch); }
  }

  function Weight(pc: Pc): nat {
    if Carries(pc) then 1 else 0
  }

  /** What one action does to the numbers: a slot changes hands at the two ends only, and the idle
      and carried connections grow together only when the deque is empty. */
  lemma StepNumbers(c: Config, s: State, t: ThreadId, ch: Choice)
    requires t in s.threads && Step(c, s, t, ch).Some? && |s.idle| <= c.poolSize
    ensures var s' := Step(c, s, t, ch).value; var was, now := s.threads[t], s'.threads[t];
      && s'.threads == s.threads[t := now]
      && s'.slots == s.slots + (if now == Outside then 1 else 0) - (if was == Outside then 1 else 0)
      && |s'.idle| <= c.poolSize
      && (was == Outside || now == Outside ==> !Carries(was) && !Carries(now) && was != now)
      && (|s'.idle| + Weight(now) <= |s.idle| + Weight(was) || (s'.idle == [] && s.idle == []))
  {
  }

  lemma HoldersUpdated(threads: map<ThreadId, Pc>, t: ThreadId, pc: Pc)
    requires t in threads
    ensures |Holders(threads[t := pc])| == |Holders(threads)| + (if pc == Outside then 0 else 1)
                                           - (if threads[t] == Outside then 0 else 1)
  {
    var rest := Holders(threads) - {t};
    assert Holders(threads[t := pc]) - {t} == rest;
    assert threads[t] != Outside ==> Holders(threads) == rest + {t};
    assert pc != Outside ==> Holders(threads[t := pc]) == rest + {t};
  }

  lemma CarriersUpdated(threads: map<ThreadId, Pc>, t: ThreadId, pc: Pc)
    requires t in threads
    ensures |Carriers(threads[t := pc])| == |Carriers(threads)| + Weight(pc) - Weight(threads[t])
    ensures |Carriers(threads[t := pc])| <= |Holders(threads[t := pc])|
  {
    hide Carries;
    var rest := Carriers(threads) - {t};
    assert Carriers(threads[t := pc]) - {t} == rest;
    assert Carries(threads[t]) ==> Carriers(threads) == rest + {t};
    assert Carries(pc) ==> Carriers(threads[t := pc]) == rest + {t};
    CarriersHold(threads[t := pc]);
  }

  lemma CarriersHold(threads: map<ThreadId, Pc>)
    ensures |Carriers(threads)| <= |Holders(threads)|
  {
    SubsetSize(Carriers(threads), Holders(threads));
  }

  /** Slots are conserved, and only an empty deque lets a thread bring in one more connection. */
  lemma StepKeepsCounts(c: Config, s: State, t: ThreadId, ch: Choice)
    requires Counted(c, s) && t in s.threads && Step(c, s, t, ch).Some?
    ensures Counted(c, Step(c, s, t, ch).value)
  {
    StepNumbers(c, s, t, ch);
    hide Step, Holders, Carriers;
    HoldersUpdated(s.threads, t, Step(c, s, t, ch).value.threads[t]);
    CarriersUpdated(s.threads, t, Step(c, s, t, ch).value.threads[t]);
  }

  lemma MoveKeepsPlaces(s: State, s': State, t: ThreadId, move: Move)
    requires OnePlace(s) && Moves(s, s', t, move)
    ensures OnePlace(s')
  {
    forall k | k in s'.conns ensures Placed(s', k) && k < s'.next {
      if Held(s'.threads[t]) != Some(k) {
        if u :| u in s.threads && u != t && Held(s.threads[u]) == Some(k) {
          assert Held(s'.threads[u]) == Some(k);
        }
      }
    }
  }

  lemma StepKeepsClean(c: Config, s: State, t: ThreadId, ch: Choice)
    requires OnePlace(s) && Clean(s) && t in s.threads && Step(c, s, t, ch).Some?
    ensures Clean(Step(c, s, t, ch).value)
  {
    var s' := Step(c, s, t, ch).value;
    StepMoves(c, s, t, ch);
    hide Moves;
    forall u | u in s'.threads && u != t && s'.threads[u].Returning? && !s'.threads[u].discard
      ensures Quiet(s', s'.threads[u].conn)
    {
      assert Held(s.threads[u]) == Some(s'.threads[u].conn) != Held(s.threads[t]);
    }
    forall k | k in s'.idle ensures Quiet(s', k) {
      if k in s.idle { assert Held(s.threads[t]) != Some(k); }
    }
  }

  lemma StepKeepsInv(c: Config, s: State, t: ThreadId, ch: Choice)
    requires Inv(c, s) && t in s.threads && Step(c, s, t, ch).Some?
    ensures Inv(c, Step(c, s, t, ch).value)
  {
    var s' := Step(c, s, t, ch).value;
    StepMoves(c, s, t, ch);
    StepKeepsCounts(c, s, t, ch);
    MoveKeepsPlaces(s, s', t, MoveOf(s.threads[t], s'.threads[t]));
    StepKeepsClean(c, s, t, ch);
  }

  // ---------------------------------------------------------------- runs

  datatype Action = Action(thread: ThreadId, choice: Choice)

  ghost predicate Next(c: Config, s: State, s': State, a: Action) {
    a.thread in s.threads && Step(c, s, a.thread, a.choice) == Some(s')
  }

  /** Any interleaving: threads act one atomic action at a time, in any order. */
  ghost predicate Run(c: Config, states: seq<State>, actions: seq<Action>) {
    && |states| == |actions| + 1
    && forall i :: 0 <= i < |actions| ==> Next(c, states[i], states[i + 1], actions[i])
  }

  ghost predicate Fresh(c: Config, s: State) {
    && s.idle == [] && s.conns == map[] && s.slots == Slots(c)
    && forall t :: t in s.threads ==> s.threads[t] == Outside
  }

  lemma {:induction false} RunKeepsInv(c: Config, states: seq<State>, actions: seq<Action>, n: nat)
    requires Run(c, states, actions) && n < |states| && Inv(c, states[0])
    ensures Inv(c, states[n])
  {
    if n > 0 {
      RunKeepsInv(c, states, actions, n - 1);
      assert Next(c, states[n - 1], states[n], actions[n - 1]);
      hide Step, Inv;
      StepKeepsInv(c, states[n - 1], actions[n - 1].thread, actions[n - 1].choice);
    }
  }

  /** At most one connection for each thread that holds one. */
  lemma {:induction false} HeldCounted(threads: map<ThreadId, Pc>, keys: set<ConnId>, carriers: set<ThreadId>)
    requires carriers <= threads.Keys
    requires forall k :: k in keys ==> exists t :: t in carriers && Held(threads[t]) == Some(k)
    ensures |keys| <= |carriers|
    decreases |carriers|
  {
    if t :| t in carriers {
      var rest := set k | k in keys && Held(threads[t]) != Some(k);
      HeldCounted(threads, rest, carriers - {t});
      assert keys == rest + if Held(threads[t]).Some? && Held(threads[t]).value in keys
                            then {Held(threads[t]).value} else {};
    }
  }

  function Members(idle: seq<ConnId>): set<ConnId> {
    set k | k in idle
  }

  lemma {:induction false} IdleCounted(idle: seq<ConnId>)
    ensures |Members(idle)| <= |idle|
  {
    if idle != [] {
      IdleCounted(idle[1..]);
      assert idle == [idle[0]] + idle[1..];
      assert Members(idle) == Members(idle[1..]) + {idle[0]};
    }
  }

  lemma HeldFit(s: State)
    requires OnePlace(s)
    ensures |s.conns.Keys - Members(s.idle)| <= |Carriers(s.threads) - Connectors(s.threads)|
  {
    var carriers := Carriers(s.threads) - Connectors(s.threads);
    forall k | k in s.conns.Keys - Members(s.idle) ensures exists t :: t in carriers && Held(s.threads[t]) == Some(k) {
      assert Placed(s, k);
      var t :| t in s.threads && Held(s.threads[t]) == Some(k);
      assert t in carriers;
    }
    HeldCounted(s.threads, s.conns.Keys - Members(s.idle), carriers);
  }

  lemma OpenConnectionsFit(c: Config, s: State)
    requires Counted(c, s) && OnePlace(s)
    ensures |s.conns| + |Connectors(s.threads)| <= Slots(c)
  {
    hide OnePlace;
    HeldFit(s);
    IdleCounted(s.idle);
    var pooled, held := Members(s.idle), s.conns.Keys - Members(s.idle);
    SubsetSize(s.conns.Keys, held + pooled);
    assert Connectors(s.threads) <= Carriers(s.threads);
    assert Carriers(s.threads) == (Carriers(s.threads) - Connectors(s.threads)) + Connectors(s.threads);
  }

  /** In every interleaving: open and opening connections never exceed pool_size + max_overflow,
      although idle ones hold no slot; at most pool_size are idle, none of them in a transaction;
      each connection is in one place; and slots are never lost or invented. */
  lemma PoolIsSafe(c: Config, states: seq<State>, actions: seq<Action>, n: nat)
    requires Run(c, states, actions) && n < |states| && Fresh(c, states[0])
    ensures var s := states[n];
      && |s.conns| + |Connectors(s.threads)| <= Slots(c)
      && |s.idle| <= c.poolSize
      && (forall k :: k in s.idle ==> k in s.conns && !s.conns[k].inTransaction)
      && OnePlace(s)
      && s.slots + |Holders(s.threads)| == Slots(c)
  {
    assert Holders(states[0].threads) == {} && Carriers(states[0].threads) == {};
    RunKeepsInv(c, states, actions, n);
    OpenConnectionsFit(c, states[n]);
  }

  // ----------------------------------------------------------- the code

  /** acquire and release as written, one caller at a time; each call is a run of the machine above. */
  /** Of the idle connections those from the n-th on were found unusable and are closed, and nothing else
      has changed. */
  ghost predicate Passed(c: Config, was: map<ConnId, Conn>, all: seq<ConnId>, n: nat, conns: map<ConnId, Conn>,
      now: int, reachable: set<ConnId>)
  {
    && n <= |all| && conns.Keys <= was.Keys && (forall k :: k in conns ==> conns[k] == was[k])
    && (forall k :: k in was && k !in all[n..] ==> k in conns)
    && (forall j :: n <= j < |all| ==>
          all[j] in was && !Sound(c, was[all[j]], now, all[j] in reachable) && all[j] !in conns)
  }

  /** What a checkout makes of the idle connections: the last usable one is taken and all above it are
      closed; without one all are closed and a new connection is there, or none. */
  ghost predicate CheckedOut(c: Config, was: map<ConnId, Conn>, all: seq<ConnId>, idle: seq<ConnId>,
      conns: map<ConnId, Conn>, conn: Option<ConnId>, now: int, reachable: set<ConnId>)
  {
    && idle <= all
    && (conn.Some? && conn.value in was ==>
          |idle| < |all| && conn.value == all[|idle|] && Sound(c, was[conn.value], now, conn.value in reachable))
    && (conn.None? || conn.value !in was ==> idle == [])
    && (conn.Some? && conn.value !in was ==> conn.value in conns && conns[conn.value] == Conn(now, now, false, true))
    && (forall j :: |idle| <= j < |all| && Some(all[j]) != conn ==>
          all[j] in was && !Sound(c, was[all[j]], now, all[j] in reachable) && all[j] !in conns)
    && (forall k :: k in was && (k !in all[|idle|..] || Some(k) == conn) ==> k in conns && conns[k] == was[k])
  }

  /** The next one back is there as it was, and the others before it. */
  lemma PassedOn(c: Config, was: map<ConnId, Conn>, all: seq<ConnId>, n: nat, conns: map<ConnId, Conn>, now: int,
      reachable: set<ConnId>)
    requires 0 < n <= |all| && Passed(c, was, all, n, conns, now, reachable)
    requires Distinct(all[..n]) && forall k :: k in all[..n] ==> k in conns
    ensures var k, rest := all[n - 1], Closed(conns, all[n - 1]);
      && k in conns && k in was && conns[k] == was[k]
      && Distinct(all[..n - 1]) && (forall i :: i in all[..n - 1] ==> i in rest)
      && (if Sound(c, was[k], now, k in reachable)
          then CheckedOut(c, was, all, all[..n - 1], conns, Some(k), now, reachable)
          else Passed(c, was, all, n - 1, rest, now, reachable))
  {
    hide Sound;
    assert all[n - 1..] == [all[n - 1]] + all[n..] && all[..n] == all[..n - 1] + [all[n - 1]];
    assert all[..n][n - 1] == all[n - 1] && forall i :: 0 <= i < n - 1 ==> all[..n][i] == all[..n - 1][i] == all[i];
  }

  lemma AllPassed(c: Config, was: map<ConnId, Conn>, all: seq<ConnId>, conns: map<ConnId, Conn>, next: ConnId, now: int,
      reachable: set<ConnId>)
    requires Passed(c, was, all, 0, conns, now, reachable) && next !in was
    ensures CheckedOut(c, was, all, [], conns, None, now, reachable)
    ensures CheckedOut(c, was, all, [], conns[next := Conn(now, now, false, true)], Some(next), now, reachable)
  {
    hide Sound;
    assert all[0..] == all;
  }

  class Pool {
    const config: Config
    var idle: seq<ConnId>
    var slots: nat
    var conns: map<ConnId, Conn>
    var next: ConnId
    ghost var threads: map<ThreadId, Pc>

    constructor (config: Config, ghost threads: set<ThreadId>)
      ensures this.config == config && Fresh(config, View())
    {
      this.config := config;
      idle, slots, conns, next := [], Slots(config), map[], 0;
      this.threads := map t | t in threads :: Outside;
    }

    ghost function View(): State
      reads this
    {
      State(idle, slots, conns, next, threads)
    }

    /** The log of one thread's actions so far, ending in the present state. */
    ghost predicate Logged(states: seq<State>, actions: seq<Action>, t: ThreadId)
      reads this
    {
      && Run(config, states, actions) && states[|actions|] == View()
      && (forall i :: 0 <= i < |actions| ==> actions[i].thread == t)
      && t in threads
    }

    lemma Log(states: seq<State>, actions: seq<Action>, t: ThreadId, ch: Choice)
      returns (states': seq<State>, actions': seq<Action>)
      requires Run(config, states, actions) && (forall i :: 0 <= i < |actions| ==> actions[i].thread == t)
      requires t in threads && Next(config, states[|actions|], View(), Action(t, ch))
      ensures Logged(states', actions', t) && states'[0] == states[0]
    {
      states', actions' := states + [View()], actions + [Action(t, ch)];
      forall i | 0 <= i < |actions'| ensures Next(config, states'[i], states'[i + 1], actions'[i]) {
        if i < |actions| { assert Next(config, states[i], states[i + 1], actions[i]); }
      }
    }

    /** Whatever a call logged, it ends in a safe state when it began in one. */
    lemma StillSafe(states: seq<State>, actions: seq<Action>, t: ThreadId)
      requires Logged(states, actions, t) && Inv(config, states[0])
      ensures Inv(config, View())
    {
      RunKeepsInv(config, states, actions, |actions|);
    }

    /** Part of Inv. */
    ghost predicate Ready()
      reads this
    {
      Distinct(idle) && (forall k :: k in idle ==> k in conns) && next !in conns
    }

    static function Asked(now: int, reachable: set<ConnId>, connectOk: bool, conn: ConnId): Choice {
      Choice(now, conn in reachable, connectOk, None, false, false)
    }

    /** `PooledConnection(self._connect())`, once the deque is empty. */
    method Connect(t: ThreadId, ch: Choice, ghost states0: seq<State>, ghost actions0: seq<Action>)
      returns (conn: Option<ConnId>, ghost states: seq<State>, ghost actions: seq<Action>)
      requires Logged(states0, actions0, t) && threads[t] == Choosing && idle == [] && ch.work.None?
      modifies this
      ensures Logged(states, actions, t) && states[0] == states0[0]
      ensures slots == old(slots) && idle == [] && (conn.Some? <==> ch.connectOk)
      ensures threads == old(threads)[t := if conn.Some? then Using(conn.value) else Leaving]
      ensures conn.Some? ==> conn.value == old(next)
      ensures conns == if conn.Some? then old(conns)[conn.value := Conn(ch.now, ch.now, false, true)] else old(conns)
    {
      threads := threads[t := Connecting];
      states, actions := Log(states0, actions0, t, ch);
      if ch.connectOk {
        conn := Some(next);
        conns, next := conns[next := Conn(ch.now, ch.now, false, true)], next + 1;
        threads := threads[t := Using(conn.value)];
      } else {
        conn := None;
        threads := threads[t := Leaving];
      }
      states, actions := Log(states, actions, t, ch);
      assert old(threads)[t := Connecting][t := threads[t]] == old(threads)[t := threads[t]];
    }

    /** One turn of the loop: pop the last idle connection and keep or close it. */
    method TryLast(t: ThreadId, ch: Choice, ghost states0: seq<State>, ghost actions0: seq<Action>)
      returns (item: ConnId, usable: bool, ghost states: seq<State>, ghost actions: seq<Action>)
      requires Logged(states0, actions0, t) && threads[t] == Choosing && Ready() && idle != [] && ch.work.None?
      modifies this
      ensures Logged(states, actions, t) && states[0] == states0[0]
      ensures slots == old(slots) && next == old(next)
      ensures item == old(idle)[|old(idle)| - 1] && idle == old(idle)[..|old(idle)| - 1]
      ensures usable <==> Usable(config, old(conns)[item], ch)
      ensures threads == old(threads)[t := if usable then Using(item) else Choosing]
      ensures conns == if usable then old(conns) else Closed(old(conns), item)
    {
      item := idle[|idle| - 1];
      idle := idle[..|idle| - 1];
      threads := threads[t := Testing(item)];
      states, actions := Log(states0, actions0, t, ch);
      usable := Usable(config, conns[item], ch);
      threads := threads[t := if usable then Using(item) else Dropping(item)];
      states, actions := Log(states, actions, t, ch);
      if !usable {
        conns := Closed(conns, item);
        threads := threads[t := Choosing];
        states, actions := Log(states, actions, t, ch);
      }
    }

    /** `_checkout`: the last idle connection that is still usable, else a new one. */
    method Checkout(t: ThreadId, now: int, reachable: set<ConnId>, connectOk: bool,
        ghost states0: seq<State>, ghost actions0: seq<Action>)
      returns (conn: Option<ConnId>, ghost states: seq<State>, ghost actions: seq<Action>)
      requires Logged(states0, actions0, t) && threads[t] == Choosing && Ready()
      modifies this
      ensures Logged(states, actions, t) && states[0] == states0[0]
      ensures slots == old(slots)
      ensures threads == old(threads)[t := if conn.Some? then Using(conn.value) else Leaving]
      ensures conn.None? ==> !connectOk
      ensures CheckedOut(config, old(conns), old(idle), idle, conns, conn, now, reachable)
    {
      states, actions := states0, actions0;
      ghost var was, all := conns, idle;
      assert all[..|all|] == all && all[|all|..] == [];
      hide Sound, Usable, Step, Passed, Distinct, CheckedOut;
      while true
        invariant Logged(states, actions, t) && states[0] == states0[0]
        invariant threads == old(threads)[t := Choosing] && slots == old(slots) && next == old(next)
        invariant |idle| <= |all| && idle == all[..|idle|] && Ready()
        invariant Passed(config, was, all, |idle|, conns, now, reachable)
        decreases |idle|
      {
        if idle == [] {
          AllPassed(config, was, all, conns, next, now, reachable);
          conn, states, actions := Connect(t, Asked(now, reachable, connectOk, next), states, actions);
          return;
        }
        var item, usable;
        PassedOn(config, was, all, |idle|, conns, now, reachable);
        assert all[..|idle|][..|idle| - 1] == all[..|idle| - 1];
        item, usable, states, actions :=
          TryLast(t, Asked(now, reachable, connectOk, idle[|idle| - 1]), states, actions);
        UsableIffSound(config, was[item], Asked(now, reachable, connectOk, item));
        if usable { return Some(item), states, actions; }
      }
    }

    method TakeSlot(t: ThreadId, ch: Choice) returns (ghost states: seq<State>, ghost actions: seq<Action>)
      requires t in threads && threads[t] == Outside && slots > 0
      modifies this`slots, this`threads
      ensures Logged(states, actions, t) && states[0] == old(View())
      ensures slots == old(slots) - 1 && threads == old(threads)[t := Choosing]
    {
      states, actions := [View()], [];
      slots := slots - 1;
      threads := threads[t := Choosing];
      states, actions := Log(states, actions, t, ch);
    }

    method GiveSlot(t: ThreadId, ch: Choice, ghost states0: seq<State>, ghost actions0: seq<Action>)
      returns (ghost states: seq<State>, ghost actions: seq<Action>)
      requires Logged(states0, actions0, t) && threads[t] == Leaving
      modifies this`slots, this`threads
      ensures Logged(states, actions, t) && states[0] == states0[0]
      ensures slots == old(slots) + 1 && threads == old(threads)[t := Outside]
    {
      slots := slots + 1;
      threads := threads[t := Outside];
      states, actions := Log(states0, actions0, t, ch);
    }

    /** The first half of release: roll back an open transaction, or decide to discard. */
    method Settle(t: ThreadId, conn: ConnId, ch: Choice)
      returns (drop: bool, ghost states: seq<State>, ghost actions: seq<Action>)
      requires t in threads && threads[t] == Using(conn) && conn in conns && ch.work.None?
      modifies this`conns, this`threads
      ensures Logged(states, actions, t) && states[0] == old(View())
      ensures threads == old(threads)[t := Returning(conn, drop)] && conn in conns
      ensures drop == (ch.discard || (old(conns)[conn].inTransaction && !ch.rollbackOk))
      ensures conns[conn] == old(conns)[conn].(inTransaction := conns[conn].inTransaction)
      ensures !drop ==> !conns[conn].inTransaction
      ensures forall k :: k != conn ==> (k in conns <==> k in old(conns)) && (k in conns ==> conns[k] == old(conns)[k])
    {
      states, actions := [View()], [];
      drop := ch.discard;
      if !drop && conns[conn].inTransaction {
        if ch.rollbackOk { conns := conns[conn := conns[conn].(inTransaction := false)]; } else { drop := true; }
      }
      threads := threads[t := Returning(conn, drop)];
      states, actions := Log(states, actions, t, ch);
    }

    /** The locked half of release: keep the connection if there is room, else close it. */
    method KeepOrClose(t: ThreadId, conn: ConnId, discard: bool, ch: Choice, ghost states0: seq<State>,
        ghost actions0: seq<Action>)
      returns (ghost states: seq<State>, ghost actions: seq<Action>)
      requires Logged(states0, actions0, t) && threads[t] == Returning(conn, discard) && conn in conns
      modifies this
      ensures Logged(states, actions, t) && states[0] == states0[0]
      ensures slots == old(slots) && threads == old(threads)[t := Leaving]
      ensures var keep := !discard && old(conns)[conn].open && |old(idle)| < config.poolSize;
        && idle == (if keep then old(idle) + [conn] else old(idle)) && (conn in conns <==> keep)
        && (keep ==> conns[conn] == old(conns)[conn].(lastUsedAt := ch.now))
      ensures forall k :: k != conn ==> (k in conns <==> k in old(conns)) && (k in conns ==> conns[k] == old(conns)[k])
    {
      if !discard && conns[conn].open && |idle| < config.poolSize {
        conns := conns[conn := conns[conn].(lastUsedAt := ch.now)];
        idle := idle + [conn];
        threads := threads[t := Leaving];
        states, actions := Log(states0, actions0, t, ch);
      } else {
        threads := threads[t := Evicting(conn)];
        states, actions := Log(states0, actions0, t, ch);
        conns := Closed(conns, conn);
        threads := threads[t := Leaving];
        states, actions := Log(states, actions, t, ch);
      }
    }

    /** `acquire`: a slot, then `_checkout`, giving the slot back when that fails. */
    method Acquire(t: ThreadId, now: int, reachable: set<ConnId>, connectOk: bool)
      returns (conn: Option<ConnId>, ghost states: seq<State>, ghost actions: seq<Action>)
      requires Ready() && t in threads && threads[t] == Outside
      modifies this
      ensures Logged(states, actions, t) && states[0] == old(View())
      ensures threads == old(threads)[t := if conn.Some? then Using(conn.value) else Outside]
      ensures slots == old(slots) - if conn.Some? then 1 else 0
      ensures idle <= old(idle)
      ensures conn.None? ==> old(slots) == 0 || !connectOk
      ensures conn.Some? && conn.value in old(conns) ==>
        && |idle| < |old(idle)| && conn.value == old(idle)[|idle|]
        && Sound(config, old(conns)[conn.value], now, conn.value in reachable)
      ensures conn.Some? && conn.value !in old(conns) ==>
        idle == [] && conn.value in conns && conns[conn.value] == Conn(now, now, false, true)
      ensures forall j :: |idle| <= j < |old(idle)| && Some(old(idle)[j]) != conn ==>
        !Sound(config, old(conns)[old(idle)[j]], now, old(idle)[j] in reachable) && old(idle)[j] !in conns
      ensures forall k :: k in old(conns) && (k !in old(idle)[|idle|..] || Some(k) == conn) ==>
        k in conns && conns[k] == old(conns)[k]
    {
      assert Logged([View()], [], t);
      hide *;
      if slots == 0 { return None, [View()], []; }
      states, actions := TakeSlot(t, Asked(now, reachable, connectOk, 0));
      conn, states, actions := Checkout(t, now, reachable, connectOk, states, actions);
      if conn.None? { states, actions := GiveSlot(t, Asked(now, reachable, connectOk, 0), states, actions); }
    }

    /** `release`: roll back what is still open, keep the connection if there is room, always give
        the slot back. */
    method Release(t: ThreadId, conn: ConnId, now: int, discard: bool, rollbackOk: bool)
      returns (ghost states: seq<State>, ghost actions: seq<Action>)
      requires conn in conns && t in threads && threads[t] == Using(conn)
      modifies this
      ensures Logged(states, actions, t) && states[0] == old(View())
      ensures threads == old(threads)[t := Outside] && slots == old(slots) + 1
      ensures var keep := !discard && (old(conns)[conn].inTransaction ==> rollbackOk) && old(conns)[conn].open
                          && |old(idle)| < config.poolSize;
        && idle == (if keep then old(idle) + [conn] else old(idle)) && (conn in conns <==> keep)
        && (keep ==> conns[conn] == old(conns)[conn].(inTransaction := false, lastUsedAt := now))
      ensures forall k :: k != conn ==> (k in conns <==> k in old(conns)) && (k in conns ==> conns[k] == old(conns)[k])
    {
      var ch := Choice(now, false, false, None, discard, rollbackOk);
      hide *;
      var drop;
      drop, states, actions := Settle(t, conn, ch);
      states, actions := KeepOrClose(t, conn, drop, ch, states, actions);
      states, actions := GiveSlot(t, ch, states, actions);
    }
  }
}
