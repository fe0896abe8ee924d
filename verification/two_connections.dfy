/**
 The flag that lets a thread skip locking belongs to the thread, while each connection has a mutex of its
 own. With one connection that is sound (module Locking); here there may be several, as after a shutdown
 that came too early (module Databases).
 */
module TwoConnections {
  type Tid = int

  type Cid = int

  /** A locked operation on a connection; `takes` is m_shouldLock. */
  datatype Op = NoOp | Entered(c: Cid, exclusive: bool, takes: bool) | Running(c: Cid, exclusive: bool, takes: bool)

  /** `Owning` is the life of a transaction object, from taking the mutex until giving it back. */
  datatype Tx = NoTx | Waiting(c: Cid) | Owning(c: Cid)

  datatype Thread = Thread(flag: bool, tx: Tx, op: Op)

  /** Who holds the mutexes: exclusively, one thread for a connection; or shared. */
  datatype State = State(threads: map<Tid, Thread>, exclusive: map<Cid, Tid>, shared: set<(Cid, Tid)>)

  datatype Event =
    | Call(t: Tid, c: Cid, exclusive: bool)
    | Acquire(t: Tid)
    | Finish(t: Tid)
    | BeginTx(t: Tid, c: Cid)
    | LockTx(t: Tid)
    | SetFlag(t: Tid)
    | ClearFlag(t: Tid)
    | UnlockTx(t: Tid)

  ghost predicate Free(s: State, c: Cid, exclusive: bool) {
    c !in s.exclusive && (exclusive ==> forall t :: (c, t) !in s.shared)
  }

  ghost predicate Enabled(s: State, e: Event) {
    e.t in s.threads
    && var th := s.threads[e.t];
       match e
       case Call(_, _, _) => th.op.NoOp? && (th.tx.NoTx? || (th.tx.Owning? && th.flag))
       case Acquire(_) => th.op.Entered? && (th.op.takes ==> Free(s, th.op.c, th.op.exclusive))
       case Finish(_) => th.op.Running?
       case BeginTx(_, _) => th.op.NoOp? && th.tx.NoTx?
       case LockTx(_) => th.tx.Waiting? && Free(s, th.tx.c, true)
       case SetFlag(_) => th.tx.Owning? && th.op.NoOp? && !th.flag
       case ClearFlag(_) => th.tx.Owning? && th.op.NoOp? && th.flag
       case UnlockTx(_) => th.tx.Owning? && th.op.NoOp? && !th.flag
  }

  ghost function Next(s: State, e: Event): State
    requires Enabled(s, e)
  {
    var th := s.threads[e.t];
    match e
    case Call(t, c, exclusive) => s.(threads := s.threads[t := th.(op := Entered(c, exclusive, !th.flag))])
    case Acquire(t) =>
      var s1 := s.(threads := s.threads[t := th.(op := Running(th.op.c, th.op.exclusive, th.op.takes))]);
      if !th.op.takes then s1
      else if th.op.exclusive then s1.(exclusive := s.exclusive[th.op.c := t])
      else s1.(shared := s.shared + {(th.op.c, t)})
    case Finish(t) =>
      State(s.threads[t := th.(op := NoOp)],
            if th.op.takes && th.op.exclusive then s.exclusive - {th.op.c} else s.exclusive,
            if th.op.takes && !th.op.exclusive then s.shared - {(th.op.c, t)} else s.shared)
    case BeginTx(t, c) => s.(threads := s.threads[t := th.(tx := Waiting(c))])
    case LockTx(t) => s.(threads := s.threads[t := th.(tx := Owning(th.tx.c))], exclusive := s.exclusive[th.tx.c := t])
    case SetFlag(t) => s.(threads := s.threads[t := th.(flag := true)])
    case ClearFlag(t) => s.(threads := s.threads[t := th.(flag := false)])
    case UnlockTx(t) => s.(threads := s.threads[t := th.(tx := NoTx)], exclusive := s.exclusive - {th.tx.c})
  }

  ghost predicate Init(s: State) {
    (forall t | t in s.threads :: s.threads[t] == Thread(false, NoTx, NoOp)) && s.exclusive == map[] && s.shared == {}
  }

  ghost predicate Valid(s: State, es: seq<Event>)
    decreases |es|
  {
    es == [] || (Enabled(s, es[0]) && Valid(Next(s, es[0]), es[1..]))
  }

  ghost function After(s: State, es: seq<Event>): State
    requires Valid(s, es)
    decreases |es|
  {
    if es == [] then s else After(Next(s, es[0]), es[1..])
  }

  // ---------------------------------------------------------------- loyal threads

  /** The call of a thread inside a transaction of another connection. */
  predicate Foreign(s: State, e: Event) {
    e.Call? && e.t in s.threads && s.threads[e.t].flag && s.threads[e.t].tx != Owning(e.c)
  }

  /** No step of the run is such a call. */
  ghost predicate Loyal(s: State, es: seq<Event>)
    requires Valid(s, es)
    decreases |es|
  {
    es == [] || (!Foreign(s, es[0]) && Loyal(Next(s, es[0]), es[1..]))
  }

  /** While a transaction owns a connection, nobody else runs an operation on it. */
  ghost predicate Isolated(s: State) {
    forall t, u | t in s.threads && u in s.threads && t != u && s.threads[t].tx.Owning? && s.threads[u].op.Running? ::
      s.threads[t].tx.c != s.threads[u].op.c
  }

  predicate HoldsExclusive(th: Thread, c: Cid) {
    th.tx == Owning(c) || (th.op == Running(c, true, true))
  }

  predicate HoldsShared(th: Thread, c: Cid) {
    th.op == Running(c, false, true)
  }

  /** A skipped lock is that of the thread's own transaction. */
  predicate ThreadInv(th: Thread) {
    && (th.flag ==> th.tx.Owning?)
    && (!th.op.NoOp? ==> if th.op.takes then th.tx.NoTx? else th.flag && th.tx == Owning(th.op.c))
  }

  /** The mutex of one connection is as the threads' positions say. */
  ghost predicate MutexAt(s: State, c: Cid) {
    && (forall t | t in s.threads :: (c in s.exclusive && s.exclusive[c] == t) <==> HoldsExclusive(s.threads[t], c))
    && (forall t | t in s.threads :: (c, t) in s.shared <==> HoldsShared(s.threads[t], c))
    && (c in s.exclusive ==> s.exclusive[c] in s.threads)
    && (forall t | (c, t) in s.shared :: t in s.threads && c !in s.exclusive)
  }

  ghost predicate MutexInv(s: State) {
    forall c :: MutexAt(s, c)
  }

  ghost predicate Inv(s: State) {
    (forall t | t in s.threads :: ThreadInv(s.threads[t])) && MutexInv(s)
  }

  lemma ThreadInvKept(s: State, e: Event)
    requires Inv(s) && Enabled(s, e) && !Foreign(s, e)
    ensures forall t | t in Next(s, e).threads :: ThreadInv(Next(s, e).threads[t])
  {
    hide MutexInv, Free;
  }

  /** What a step does to the mutexes follows what it does to its own thread, on one connection. */
  lemma MutexFollows(s: State, e: Event, c: Cid)
    requires Inv(s) && Enabled(s, e)
    ensures e.t in s.threads
    ensures var th, th' := s.threads[e.t], Next(s, e).threads[e.t];
            && Next(s, e).threads == s.threads[e.t := th']
            && (c in Next(s, e).exclusive <==>
                  HoldsExclusive(th', c) || (c in s.exclusive && !HoldsExclusive(th, c)))
            && (c in Next(s, e).exclusive ==>
                  Next(s, e).exclusive[c] == if HoldsExclusive(th', c) then e.t else s.exclusive[c])
            && (forall t :: (c, t) in Next(s, e).shared <==> if t == e.t then HoldsShared(th', c) else (c, t) in s.shared)
            && (HoldsExclusive(th', c) && !HoldsExclusive(th, c) ==> Free(s, c, true))
            && (HoldsShared(th', c) && !HoldsShared(th, c) ==> Free(s, c, false))
            && !(HoldsShared(th', c) && HoldsExclusive(th', c))
  {
    assert ThreadInv(s.threads[e.t]) && MutexAt(s, c);
    assert forall k :: MutexAt(s, k);
  }

  lemma MutexInvKept(s: State, e: Event)
    requires Inv(s) && Enabled(s, e)
    ensures MutexInv(Next(s, e))
  {
    hide Next, Enabled, ThreadInv, HoldsExclusive, HoldsShared;
    forall c ensures MutexAt(Next(s, e), c) {
      assert MutexAt(s, c);
      MutexFollows(s, e, c);
    }
  }

  lemma InvIsolates(s: State)
    requires Inv(s)
    ensures Isolated(s)
  {
    forall t, u | t in s.threads && u in s.threads && t != u && s.threads[t].tx.Owning? && s.threads[u].op.Running?
      ensures s.threads[t].tx.c != s.threads[u].op.c
    {
      RunsAlone(s, t, u);
    }
  }

  lemma RunsAlone(s: State, t: Tid, u: Tid)
    requires Inv(s) && t in s.threads && u in s.threads && t != u && s.threads[t].tx.Owning? && s.threads[u].op.Running?
    ensures s.threads[t].tx.c != s.threads[u].op.c
  {
    var c := s.threads[t].tx.c;
    assert ThreadInv(s.threads[u]) && MutexAt(s, c);
    hide ThreadInv;
    assert HoldsExclusive(s.threads[t], c);
  }

  /** As long as nobody uses another connection with the flag set, every transaction is alone on its connection. */
  lemma {:induction false} LoyalRunsAreIsolated(s: State, es: seq<Event>)
    requires Inv(s) && Valid(s, es) && Loyal(s, es)
    ensures Inv(After(s, es)) && Isolated(After(s, es))
    decreases |es|
  {
    hide Enabled, Next, ThreadInv, MutexInv, Isolated, Foreign;
    if es == [] {
      InvIsolates(s);
    } else {
      ThreadInvKept(s, es[0]);
      MutexInvKept(s, es[0]);
      LoyalRunsAreIsolated(Next(s, es[0]), es[1..]);
    }
  }

  lemma InitInv(s: State)
    requires Init(s)
    ensures Inv(s)
  {
  }

  // ---------------------------------------------------------------- foreign calls

  /**
   While another thread's transaction owns the connection, a call on it gets past the mutex exactly when
   the caller's flag is set; and once it has, the transaction is not alone.
   */
  lemma GetsInIff(s: State, t: Tid, u: Tid, c: Cid, exclusive: bool)
    requires Inv(s) && t in s.threads && u in s.threads && t != u && s.threads[t].tx == Owning(c)
    requires Enabled(s, Call(u, c, exclusive))
    ensures var s1 := Next(s, Call(u, c, exclusive));
            && (Enabled(s1, Acquire(u)) <==> s.threads[u].flag)
            && (Enabled(s1, Acquire(u)) ==> !Isolated(Next(s1, Acquire(u))))
  {
    var s1 := Next(s, Call(u, c, exclusive));
    assert MutexAt(s, c) && ThreadInv(s.threads[u]) && HoldsExclusive(s.threads[t], c);
    if Enabled(s1, Acquire(u)) {
      var s2 := Next(s1, Acquire(u));
      assert s2.threads[t] == s.threads[t] && s2.threads[u].op == Running(c, exclusive, !s.threads[u].flag);
    }
  }

  /** Wherever a foreign call can be made on a connection that a transaction owns, isolation ends with it. */
  lemma ForeignCallBreaks(s: State, t: Tid, u: Tid, c: Cid, exclusive: bool)
    requires Inv(s) && t in s.threads && u in s.threads && s.threads[t].tx == Owning(c)
    requires t != u && Enabled(s, Call(u, c, exclusive)) && Foreign(s, Call(u, c, exclusive))
    ensures Valid(s, [Call(u, c, exclusive), Acquire(u)]) && !Isolated(After(s, [Call(u, c, exclusive), Acquire(u)]))
  {
    GetsInIff(s, t, u, c, exclusive);
    hide *;
    RunFrom(Next(s, Call(u, c, exclusive)), Acquire(u), []);
    RunNothing(Next(Next(s, Call(u, c, exclusive)), Acquire(u)));
    RunFrom(s, Call(u, c, exclusive), [Acquire(u)] + []);
    assert [Call(u, c, exclusive), Acquire(u)] == [Call(u, c, exclusive)] + ([Acquire(u)] + []);
  }

  lemma RunNothing(s: State)
    ensures Valid(s, []) && After(s, []) == s
  {
  }

  /** And such a state is reached with two connections and two threads that only begin their transactions. */
  lemma ForeignCallIsReached(s: State, t: Tid, u: Tid, c: Cid, d: Cid) returns (es: seq<Event>)
    requires Init(s) && t in s.threads && u in s.threads && t != u && c != d
    ensures Valid(s, es) && !Isolated(After(s, es))
  {
    var es1 := [BeginTx(t, c)] + ([LockTx(t)] + ([BeginTx(u, d)] + ([LockTx(u)] + [SetFlag(u)])));
    InitInv(s);
    var s1 := Next(s, BeginTx(t, c));
    var s2 := Next(s1, LockTx(t));
    var s3 := Next(s2, BeginTx(u, d));
    var s4 := Next(s3, LockTx(u));
    var s5 := Next(s4, SetFlag(u));
    KeepsInv(s, BeginTx(t, c));
    KeepsInv(s1, LockTx(t));
    KeepsInv(s2, BeginTx(u, d));
    KeepsInv(s3, LockTx(u));
    KeepsInv(s4, SetFlag(u));
    ForeignCallBreaks(s5, t, u, c, true);
    hide *;
    var rest := [Call(u, c, true), Acquire(u)];
    RunFrom(s4, SetFlag(u), rest);
    RunFrom(s3, LockTx(u), [SetFlag(u)] + rest);
    RunFrom(s2, BeginTx(u, d), [LockTx(u)] + ([SetFlag(u)] + rest));
    RunFrom(s1, LockTx(t), [BeginTx(u, d)] + ([LockTx(u)] + ([SetFlag(u)] + rest)));
    RunFrom(s, BeginTx(t, c), [LockTx(t)] + ([BeginTx(u, d)] + ([LockTx(u)] + ([SetFlag(u)] + rest))));
    es := [BeginTx(t, c)] + ([LockTx(t)] + ([BeginTx(u, d)] + ([LockTx(u)] + ([SetFlag(u)] + rest))));
  }

  lemma KeepsInv(s: State, e: Event)
    requires Inv(s) && Enabled(s, e) && !e.Call?
    ensures Inv(Next(s, e))
  {
    hide Enabled, Next, ThreadInv, MutexInv;
    ThreadInvKept(s, e);
    MutexInvKept(s, e);
  }

  lemma RunFrom(s: State, e: Event, rest: seq<Event>)
    requires Enabled(s, e) && Valid(Next(s, e), rest)
    ensures Valid(s, [e] + rest) && After(s, [e] + rest) == After(Next(s, e), rest)
  {
    hide Enabled, Next;
    assert ([e] + rest)[1..] == rest;
  }
}
